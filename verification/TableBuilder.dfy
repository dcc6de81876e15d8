// Building a table (table/table_builder.cc): data blocks, an index whose entries wait for the
// next block's first key, filters, and the footer that leads to them.

module TableBuilders {
  import opened Sequences
  import opened Bits
  import opened Coding
  import opened History
  import opened TableFormat
  import opened Blocks
  import opened Blooms
  import opened FilterBlocks
  import opened Separators

  // The internal-key comparator, as a value.
  function Order(): (Data, Data) -> bool {
    (a, b) => InternalLess(a, b)
  }

  // A block of the file and what its bytes stand for.
  datatype Part = Part(at: nat, contents: Data, buf: Data, plan: Plan)

  ghost predicate Written(file: Data, p: Part) {
    Laid(p.buf, p.plan) && p.contents == Whole(p.buf, Restarts(p.plan)) && Stored(file, p.at, p.contents)
  }

  function HandleOf(p: Part): BlockHandle {
    BlockHandle(p.at, |p.contents|)
  }

  // The data blocks cut the entries in consecutive slices; block i's starts where i - 1's ends.
  function StartOf(ends: seq<nat>, i: nat): nat
    requires i <= |ends|
  {
    if i == 0 then 0 else ends[i - 1]
  }

  ghost predicate SliceAt(es: seq<Pair>, parts: seq<Part>, ends: seq<nat>, i: nat)
    requires i < |parts| == |ends|
  {
    && StartOf(ends, i) < ends[i] <= |es| && parts[i].plan.es == es[StartOf(ends, i)..ends[i]]
    && (i > 0 ==> parts[i - 1].at < parts[i].at)
  }

  ghost predicate Slices(es: seq<Pair>, parts: seq<Part>, ends: seq<nat>) {
    |parts| == |ends| && forall i: nat | i < |parts| :: SliceAt(es, parts, ends, i)
  }

  ghost predicate AllWritten(file: Data, parts: seq<Part>) {
    forall i | 0 <= i < |parts| :: Written(file, parts[i])
  }

  // A key that ends a block after n entries: the last of their keys, or one whose user key is
  // between those on either side.
  ghost predicate Separates(es: seq<Pair>, n: nat, sep: Data) {
    && 0 < n <= |es|
    && (sep == es[n - 1].key
        || (BytesLess(UserOf(es[n - 1].key), UserOf(sep)) && (n < |es| ==> BytesLess(UserOf(sep), UserOf(es[n].key)))))
  }

  ghost function IndexEntries(parts: seq<Part>, seps: seq<Data>): (r: seq<Pair>)
    requires |seps| <= |parts|
    ensures |r| == |seps|
  {
    seq(|seps|, i requires 0 <= i < |seps| => Pair(seps[i], HandleBytes(HandleOf(parts[i]))))
  }

  // What has been cut into blocks so far, in a file of this size, and the index keys known.
  ghost predicate Shape(size: nat, es: seq<Pair>, parts: seq<Part>, ends: seq<nat>, seps: seq<Data>, pending: bool) {
    && Slices(es, parts, ends)
    && |seps| + (if pending then 1 else 0) == |parts|
    && (forall i: nat | i < |seps| :: ends[i] < |es| && Separates(es, ends[i], seps[i]))
    && (parts != [] ==> parts[|parts| - 1].at < size)
  }

  lemma SepsWithin(size: nat, es: seq<Pair>, parts: seq<Part>, ends: seq<nat>, seps: seq<Data>, pending: bool)
    requires Shape(size, es, parts, ends, seps, pending)
    ensures |seps| <= |parts|
  {
  }

  lemma ShapeAdd(size: nat, es: seq<Pair>, parts: seq<Part>, ends: seq<nat>, seps: seq<Data>, pending: bool,
                 e: Pair, sep: Data)
    requires Shape(size, es, parts, ends, seps, pending)
    requires pending ==> ends[|ends| - 1] == |es| && es != []
                         && (sep == es[|es| - 1].key || Between(es[|es| - 1].key, sep, e.key))
    ensures Shape(size, es + [e], parts, ends, if pending then seps + [sep] else seps, false)
  {
    hide BytesLess, UserOf;
    var es', seps' := es + [e], if pending then seps + [sep] else seps;
    forall i: nat | i < |parts|
      ensures SliceAt(es', parts, ends, i)
    {
      assert SliceAt(es, parts, ends, i);
      assert es'[StartOf(ends, i)..ends[i]] == es[StartOf(ends, i)..ends[i]];
    }
    forall i: nat | i < |seps'|
      ensures ends[i] < |es'| && Separates(es', ends[i], seps'[i])
    {
      assert i < |seps| ==> Separates(es, ends[i], seps[i]);
    }
  }

  lemma ShapeFlush(size: nat, size': nat, es: seq<Pair>, parts: seq<Part>, ends: seq<nat>, seps: seq<Data>, p: Part)
    requires Shape(size, es, parts, ends, seps, false)
    requires p.at == size < size' && StartOf(ends, |ends|) < |es| && p.plan.es == es[StartOf(ends, |ends|)..]
    ensures Shape(size', es, parts + [p], ends + [|es|], seps, true)
  {
    hide Separates;
    var parts', ends' := parts + [p], ends + [|es|];
    forall i: nat | i < |parts'|
      ensures SliceAt(es, parts', ends', i)
    {
      assert i < |parts| ==> SliceAt(es, parts, ends, i);
    }
  }

  lemma WrittenStays(file: Data, more: Data, p: Part)
    requires Written(file, p)
    ensures Written(file + more, p)
  {
    hide Trailer;
    StoredStays(file, more, p.at, p.contents);
  }

  lemma AllStay(file: Data, more: Data, parts: seq<Part>)
    requires AllWritten(file, parts)
    ensures AllWritten(file + more, parts)
  {
    hide Written;
    forall i | 0 <= i < |parts|
      ensures Written(file + more, parts[i])
    {
      WrittenStays(file, more, parts[i]);
    }
  }

  lemma AllWrittenAdd(file: Data, more: Data, parts: seq<Part>, p: Part)
    requires AllWritten(file, parts) && Written(file + more, p)
    ensures AllWritten(file + more, parts + [p])
  {
    hide Written;
    AllStay(file, more, parts);
  }

  // Every entry's key has been added to the filters under its block's offset.
  ghost predicate InFilter(added: set<(nat, Data)>, at: nat, es: seq<Pair>, from: nat, end: nat)
    requires end <= |es|
  {
    forall j | from <= j < end :: (at, es[j].key) in added
  }

  ghost predicate Filtered(added: set<(nat, Data)>, at: nat, es: seq<Pair>, parts: seq<Part>, ends: seq<nat>) {
    && |parts| == |ends|
    && (forall i: nat | i < |parts| :: ends[i] <= |es| && InFilter(added, parts[i].at, es, StartOf(ends, i), ends[i]))
    && InFilter(added, at, es, StartOf(ends, |ends|), |es|)
  }

  lemma FilteredAdd(added: set<(nat, Data)>, at: nat, es: seq<Pair>, parts: seq<Part>, ends: seq<nat>, e: Pair)
    requires Filtered(added, at, es, parts, ends)
    ensures Filtered(added + {(at, e.key)}, at, es + [e], parts, ends)
  {
    var added', es' := added + {(at, e.key)}, es + [e];
    forall i: nat | i < |parts|
      ensures InFilter(added', parts[i].at, es', StartOf(ends, i), ends[i])
    {
      assert InFilter(added, parts[i].at, es, StartOf(ends, i), ends[i]);
    }
  }

  lemma FilteredFlush(added: set<(nat, Data)>, at: nat, es: seq<Pair>, parts: seq<Part>, ends: seq<nat>, p: Part, next: nat)
    requires Filtered(added, at, es, parts, ends) && p.at == at
    ensures Filtered(added, next, es, parts + [p], ends + [|es|])
  {
    hide InFilter;
    var parts', ends' := parts + [p], ends + [|es|];
    forall i: nat | i < |parts'|
      ensures ends'[i] <= |es| && InFilter(added, parts'[i].at, es, StartOf(ends', i), ends'[i])
    {
      assert i < |parts| ==> InFilter(added, parts[i].at, es, StartOf(ends, i), ends[i]);
    }
    NoneLeft(added, next, es);
  }

  lemma NoneLeft(added: set<(nat, Data)>, at: nat, es: seq<Pair>)
    ensures InFilter(added, at, es, |es|, |es|)
  {
  }

  lemma ShapeNone()
    ensures Shape(0, [], [], [], [], false) && IndexEntries([], []) == [] && AllWritten([], [])
    ensures Increasing([], Order())
  {
  }

  lemma FilteredNone(added: set<(nat, Data)>)
    ensures Filtered(added, 0, [], [], [])
  {
  }

  // ---- A whole table. ----

  datatype FilterPart = FilterPart(policy: BloomFilterPolicy, name: Data, at: nat, contents: Data,
                                   result: Data, offsets: seq<nat>, groups: seq<seq<Data>>)

  datatype Layout = Layout(es: seq<Pair>, parts: seq<Part>, ends: seq<nat>, seps: seq<Data>,
                           filter: Option<FilterPart>, meta: Part, index: Part)

  // The user keys of a block's entries are in the group of the block's offset.
  ghost predicate InGroup(groups: seq<seq<Data>>, at: nat, key: Data) {
    IndexOf(at) < |groups| && key in groups[IndexOf(at)]
  }

  ghost predicate Grouped(groups: seq<seq<Data>>, at: nat, es: seq<Pair>, from: nat, end: nat)
    requires end <= |es|
  {
    forall j | from <= j < end :: InGroup(groups, at, es[j].key)
  }

  ghost predicate FilterLaid(file: Data, es: seq<Pair>, parts: seq<Part>, ends: seq<nat>, f: FilterPart) {
    && Stored(file, f.at, f.contents)
    && Filters(f.policy, f.result, f.offsets, f.groups) && f.contents == Closed(f.result, f.offsets)
    && |parts| == |ends|
    && forall i: nat | i < |parts| :: ends[i] <= |es| && Grouped(f.groups, parts[i].at, es, StartOf(ends, i), ends[i])
  }

  // "filter." and the policy's name.
  function FilterKey(name: Data): Data {
    [ByteOf(102), ByteOf(105), ByteOf(108), ByteOf(116), ByteOf(101), ByteOf(114), ByteOf(46)] + name
  }

  function MetaEntries(filter: Option<FilterPart>): seq<Pair> {
    match filter
    case None => []
    case Some(f) => [Pair(FilterKey(f.name), HandleBytes(BlockHandle(f.at, |f.contents|)))]
  }

  // The index covers all entries.
  ghost predicate Indexed(t: Layout) {
    && |t.seps| == |t.parts| == |t.ends| && StartOf(t.ends, |t.ends|) == |t.es|
    && t.index.plan.es == IndexEntries(t.parts, t.seps)
    && (forall i: nat | i < |t.seps| :: Separates(t.es, t.ends[i], t.seps[i]))
  }

  ghost predicate Footed(file: Data, t: Layout) {
    |file| >= 48 && file[|file| - 48..] == FooterBytes(Footer(HandleOf(t.meta), HandleOf(t.index)))
  }

  ghost predicate IsTable(file: Data, t: Layout) {
    && Increasing(t.es, Order()) && Slices(t.es, t.parts, t.ends) && Indexed(t)
    && AllWritten(file, t.parts) && Written(file, t.index)
    && Written(file, t.meta) && t.meta.plan.es == MetaEntries(t.filter)
    && (t.filter.Some? ==> FilterLaid(file, t.es, t.parts, t.ends, t.filter.value))
    && Footed(file, t)
  }

  method NewFilterBlock(policy: BloomFilterPolicy?) returns (f: FilterBlockBuilder?)
    requires policy != null ==> 1 <= policy.k <= 30
    ensures f == null <==> policy == null
    ensures f != null ==>
      fresh(f) && f.policy == policy && f.Valid() && f.current == 0 && Filtered(f.added, 0, [], [], [])
  {
    hide FilterBlockBuilder.Valid, Filtered;
    f := null;
    if policy != null {
      f := new FilterBlockBuilder(policy);
      f.StartBlock(0);
      FilteredNone(f.added);
    }
  }

  class TableBuilder {
    const blockSize: nat
    const interval: nat
    const policy: BloomFilterPolicy?
    const name: Data
    var file: Data
    const dataBlock: BlockBuilder
    const indexBlock: BlockBuilder
    const filterBlock: FilterBlockBuilder?
    var lastKey: Data
    var numEntries: nat
    var closed: bool
    var pendingIndexEntry: bool
    var pendingHandle: BlockHandle
    ghost var es: seq<Pair>
    ghost var parts: seq<Part>
    ghost var ends: seq<nat>
    ghost var seps: seq<Data>

    ghost predicate FilterValid()
      reads `file, `es, `parts, `ends, filterBlock
    {
      && (policy == null <==> filterBlock == null)
      && (filterBlock != null ==>
            filterBlock.policy == policy && filterBlock.Valid() && filterBlock.current == |file|
            && Filtered(filterBlock.added, |file|, es, parts, ends))
    }

    ghost predicate EntriesValid()
      reads `es, `numEntries, `lastKey
    {
      && Increasing(es, Order()) && numEntries == |es|
      && (forall e | e in es :: Small(e)) && (es != [] ==> lastKey == es[|es| - 1].key)
    }

    ghost predicate BlocksValid()
      reads dataBlock, indexBlock
    {
      && interval >= 1 && dataBlock.interval >= 1 && indexBlock.interval == 1 && |FilterKey(name)| < TWO_32
      && dataBlock != indexBlock && dataBlock.Valid() && indexBlock.Valid()
      && !dataBlock.finished && !indexBlock.finished
    }

    ghost predicate Cut()
      reads `file, `es, `parts, `ends, `seps, `pendingIndexEntry, `pendingHandle, dataBlock, indexBlock
    {
      && Shape(|file|, es, parts, ends, seps, pendingIndexEntry)
      && StartOf(ends, |ends|) <= |es| && dataBlock.Entries() == es[StartOf(ends, |ends|)..]
      && indexBlock.Entries() == IndexEntries(parts, seps)
      && (pendingIndexEntry ==> dataBlock.Entries() == [] && pendingHandle == HandleOf(parts[|parts| - 1]))
    }

    ghost predicate Indexed()
      requires indexBlock.Valid() && |seps| <= |parts|
      reads `parts, `seps, indexBlock
    {
      indexBlock.Entries() == IndexEntries(parts, seps)
    }

    ghost predicate Valid()
      reads this, dataBlock, indexBlock, filterBlock
    {
      EntriesValid() && Cut() && FilterValid() && BlocksValid() && AllWritten(file, parts)
    }

    constructor (blockSize: nat, interval: nat, policy: BloomFilterPolicy?, name: Data)
      requires interval >= 1 && |FilterKey(name)| < TWO_32
      requires policy != null ==> 1 <= policy.k <= 30
      ensures Valid() && !closed && es == [] && this.policy == policy && this.name == name
      ensures fresh(dataBlock) && fresh(indexBlock) && (filterBlock != null ==> fresh(filterBlock))
    {
      hide Laid, Restarts, Shape, AllWritten, Filters, Filtered, IndexEntries, BlockBuilder.Valid, FilterBlockBuilder.Valid,
           FilterKey, Increasing, Small, Order, HandleOf;
      ShapeNone();
      this.blockSize, this.interval, this.policy, this.name := blockSize, interval, policy, name;
      file, lastKey, numEntries, closed, pendingIndexEntry := [], [], 0, false, false;
      pendingHandle := BlockHandle(0, 0);
      es, parts, ends, seps := [], [], [], [];
      dataBlock := new BlockBuilder(interval);
      indexBlock := new BlockBuilder(1);
      var f := NewFilterBlock(policy);
      filterBlock := f;
    }

    method WriteRawBlock(contents: Data) returns (handle: BlockHandle)
      modifies `file
      ensures file == (old(file) + contents) + Trailer(contents)
      ensures handle == BlockHandle(|old(file)|, |contents|) && Stored(file, |old(file)|, contents)
    {
      hide Trailer, Stored;
      handle := BlockHandle(|file|, |contents|);
      StoredNow(file, contents);
      file := file + contents;
      file := file + Trailer(contents);
    }

    method WriteBlock(block: BlockBuilder) returns (handle: BlockHandle, ghost p: Part)
      requires block.Valid() && !block.finished
      modifies `file, block
      ensures block.Valid() && !block.finished && block.Entries() == []
      ensures p.at == |old(file)| && p.plan.es == old(block.Entries()) && Written(file, p) && handle == HandleOf(p)
      ensures exists more :: more != [] && file == old(file) + more
    {
      hide Trailer, Stored, Laid, Restarts;
      ghost var buf, plan := block.buffer, block.plan;
      var raw := block.Finish();
      handle := WriteRawBlock(raw);
      p := Part(handle.offset, raw, buf, plan);
      Associates(old(file), raw, Trailer(raw));
      assert raw + Trailer(raw) != [];
      block.Reset();
    }

    method Flush()
      requires Valid() && !closed
      modifies this, dataBlock, filterBlock
      ensures Valid() && !closed && es == old(es) && dataBlock.Entries() == []
    {
      hide Laid, Restarts, Shape, Filtered, Written, AllWritten, IndexEntries, BlockBuilder.Valid, FilterBlockBuilder.Valid, FilterKey,
           Increasing, Small, Order, HandleOf, EntriesValid;
      dataBlock.EmptyHasNoEntries();
      if dataBlock.Empty() {
        return;
      }
      ghost var was := file;
      ghost var p: Part;
      NotPending();
      pendingHandle, p := WriteBlock(dataBlock);
      pendingIndexEntry := true;
      ghost var more :| more != [] && file == was + more;
      AllWrittenAdd(was, more, parts, p);
      ShapeFlush(|was|, |file|, es, parts, ends, seps, p);
      IndexStays(parts, p, seps);
      ghost var parts', ends' := parts + [p], ends + [|es|];
      NextFilter(|was|, p);
      parts, ends := parts', ends';
    }

    method NextFilter(ghost at: nat, ghost p: Part)
      requires filterBlock != null ==> filterBlock.Valid() && filterBlock.current == at == p.at < |file|
                                       && Filtered(filterBlock.added, at, es, parts, ends)
      modifies filterBlock
      ensures filterBlock != null ==> filterBlock.Valid() && filterBlock.current == |file|
                                      && Filtered(filterBlock.added, |file|, es, parts + [p], ends + [|es|])
    {
      hide Filtered, FilterBlockBuilder.Valid;
      if filterBlock != null {
        FilteredFlush(filterBlock.added, at, es, parts, ends, p, |file|);
        filterBlock.StartBlock(|file|);
      }
    }

    lemma NotPending()
      requires Valid() && dataBlock.Entries() != []
      ensures !pendingIndexEntry && |seps| == |parts| && StartOf(ends, |ends|) < |es|
    {
      hide AllWritten, BlocksValid, FilterValid;
    }

    // The index key that has been waiting for the next block's first key, or for the end.
    method AddIndexEntry(sep: Data)
      requires indexBlock.Valid() && !indexBlock.finished && |sep| < TWO_32 && pendingIndexEntry
      requires |seps| < |parts| && pendingHandle == HandleOf(parts[|seps|])
      requires indexBlock.Entries() == IndexEntries(parts, seps)
      modifies `lastKey, `pendingIndexEntry, `seps, indexBlock
      ensures lastKey == sep && !pendingIndexEntry && seps == old(seps) + [sep]
      ensures indexBlock.Valid() && !indexBlock.finished && indexBlock.Entries() == IndexEntries(parts, seps)
    {
      hide Laid, Restarts, BlockBuilder.Valid, HandleBytes;
      lastKey := sep;
      var handleEncoding := HandleBytes(pendingHandle);
      HandleShort(pendingHandle);
      indexBlock.Add(lastKey, handleEncoding);
      pendingIndexEntry := false;
      seps := seps + [sep];
    }

    method Add(key: Data, value: Data)
      requires Valid() && !closed && Small(Pair(key, value))
      requires numEntries > 0 ==> InternalLess(lastKey, key)
      modifies this, dataBlock, indexBlock, filterBlock
      ensures Valid() && !closed && es == old(es) + [Pair(key, value)]
    {
      hide Valid;
      AddToBlock(key, value);
      var estimatedBlockSize := dataBlock.CurrentSizeEstimate();
      if estimatedBlockSize >= blockSize {
        Flush();
      }
    }

    method AddToBlock(key: Data, value: Data)
      requires Valid() && !closed && Small(Pair(key, value))
      requires numEntries > 0 ==> InternalLess(lastKey, key)
      modifies this, dataBlock, indexBlock, filterBlock
      ensures Valid() && !closed && es == old(es) + [Pair(key, value)]
    {
      hide Laid, Restarts, Shape, AllWritten, Filtered, IndexEntries, BlockBuilder.Valid, FilterBlockBuilder.Valid, FilterKey,
           Increasing, InternalLess, Between, Order, HandleOf;
      ghost var e := Pair(key, value);
      PlaceSeparator(key, e);
      IncreasingAdd(es, e);
      AddKey(key, e);
      lastKey := key;
      numEntries := numEntries + 1;
      dataBlock.Add(key, value);
    }

    // Now that a block is followed by another, its index key can be told.
    method PlaceSeparator(key: Data, ghost e: Pair)
      requires Valid() && e.key == key && (numEntries > 0 ==> InternalLess(lastKey, key)) && |key| < TWO_32
      modifies `lastKey, `pendingIndexEntry, `seps, indexBlock
      ensures BlocksValid() && !pendingIndexEntry && |seps| <= |parts| && Indexed()
      ensures Shape(|file|, es + [e], parts, ends, seps, false)
    {
      hide Laid, Restarts, Shape, AllWritten, Filtered, IndexEntries, BlockBuilder.Valid, FilterBlockBuilder.Valid, FilterKey,
           Increasing, InternalLess, Between, Order, HandleOf, FilterValid;
      ghost var seps0, pending := seps, pendingIndexEntry;
      var sep: Data := [];
      if pendingIndexEntry {
        Pending();
        sep := InternalSeparator(lastKey, key);
        AddIndexEntry(sep);
      }
      ShapeAdd(|file|, es, parts, ends, seps0, pending, e, sep);
      SepsWithin(|file|, es + [e], parts, ends, seps, false);
    }

    method AddKey(key: Data, ghost e: Pair)
      requires FilterValid() && e.key == key
      modifies `es, filterBlock
      ensures FilterValid() && es == old(es) + [e]
    {
      hide Filtered, FilterBlockBuilder.Valid;
      if filterBlock != null {
        FilteredAdd(filterBlock.added, |file|, es, parts, ends, e);
        filterBlock.AddKey(key);
      }
      es := es + [e];
    }

    method FinishFilter() returns (handle: BlockHandle, ghost filter: Option<FilterPart>)
      requires FilterValid() && |parts| == |ends| && StartOf(ends, |ends|) == |es|
      modifies `file, filterBlock
      ensures Grows(old(file), file) && (filter.None? <==> policy == null)
      ensures filter.Some? ==>
        && filter.value.policy == policy && filter.value.name == name
        && handle == BlockHandle(filter.value.at, |filter.value.contents|)
        && FilterLaid(file, es, parts, ends, filter.value)
    {
      hide Filters, Closed, Trailer, Stored, FilterBlockBuilder.Valid;
      filter, handle := None, BlockHandle(0, 0);
      if filterBlock != null {
        ghost var at := |file|;
        var contents := filterBlock.Finish();
        handle := WriteRawBlock(contents);
        ghost var f := FilterPart(policy, name, at, contents, filterBlock.result, filterBlock.filterOffsets, filterBlock.groups);
        filter := Some(f);
        forall i: nat | i < |parts|
          ensures Grouped(f.groups, parts[i].at, es, StartOf(ends, i), ends[i])
        {
          GroupedFrom(filterBlock.added, f.groups, parts[i].at, es, StartOf(ends, i), ends[i]);
        }
        Associates(old(file), contents, Trailer(contents));
      }
    }

    method Finish() returns (ghost t: Layout)
      requires Valid() && !closed
      modifies this, dataBlock, indexBlock, filterBlock
      ensures closed && IsTable(file, t) && t.es == old(es)
      ensures t.filter.None? <==> policy == null
      ensures t.filter.Some? ==> t.filter.value.policy == policy && t.filter.value.name == name
    {
      hide Laid, Restarts, Written, Filtered, FilterLaid, Slices, AllWritten, BlockBuilder.Valid, FilterBlockBuilder.Valid, FilterKey,
           Increasing, HandleBytes, FooterBytes, Separates, IndexEntries, Small, Order, HandleOf, BytesLess, UserOf;
      Flush();
      Flushed();
      closed := true;
      ghost var f0 := file;
      var filterHandle;
      ghost var filter;
      filterHandle, filter := FinishFilter();
      ghost var f1 := file;
      var metaHandle;
      ghost var meta;
      metaHandle, meta := WriteMetaIndex(filterHandle);
      ghost var f2 := file;
      ghost var seps0, pending := seps, pendingIndexEntry;
      if pendingIndexEntry {
        var sep := InternalSuccessor(lastKey);
        AddIndexEntry(sep);
      }
      FinalSeps(|f0|, es, parts, ends, seps0, pending, seps);
      var indexHandle;
      ghost var index;
      indexHandle, index := WriteBlock(indexBlock);
      ghost var f3 := file;
      file := file + FooterBytes(Footer(metaHandle, indexHandle));
      t := Layout(es, parts, ends, seps, filter, meta, index);
      FooterLast(f3, t);
      TableHeld(f0, f1, f2, f3, file, t);
    }

    // The block that names the filters.
    method WriteMetaIndex(filterHandle: BlockHandle) returns (handle: BlockHandle, ghost meta: Part)
      requires interval >= 1 && |FilterKey(name)| < TWO_32
      modifies `file
      ensures meta.plan.es == if filterBlock != null then [Pair(FilterKey(name), HandleBytes(filterHandle))] else []
      ensures Grows(old(file), file) && Written(file, meta) && handle == HandleOf(meta)
    {
      hide Laid, Restarts, Written, BlockBuilder.Valid, FilterKey, HandleBytes, HandleOf;
      var metaIndexBlock := new BlockBuilder(interval);
      if filterBlock != null {
        HandleShort(filterHandle);
        AddSmall(metaIndexBlock, FilterKey(name), HandleBytes(filterHandle));
      }
      handle, meta := WriteBlock(metaIndexBlock);
    }

    // Nothing is left in the data block: the last block ends with the last entry.
    lemma Flushed()
      requires Valid() && dataBlock.Entries() == []
      ensures |parts| == |ends| && StartOf(ends, |ends|) == |es| && (pendingIndexEntry <==> parts != [])
      ensures pendingIndexEntry ==> |seps| + 1 == |parts| && pendingHandle == HandleOf(parts[|seps|])
                                    && es != [] && lastKey == es[|es| - 1].key && |lastKey| < TWO_32
      ensures Shape(|file|, es, parts, ends, seps, pendingIndexEntry) && Slices(es, parts, ends) && AllWritten(file, parts)
    {
      hide Written, BlocksValid, FilterValid;
      if pendingIndexEntry {
        Pending();
      }
    }

    lemma Pending()
      requires Valid() && pendingIndexEntry
      ensures |seps| + 1 == |parts| == |ends| && ends[|ends| - 1] == |es| && es != [] && lastKey == es[|es| - 1].key
      ensures Small(es[|es| - 1])
    {
      hide AllWritten, BlocksValid, FilterValid;
      assert SliceAt(es, parts, ends, |parts| - 1);
    }
  }

  lemma GroupedFrom(added: set<(nat, Data)>, groups: seq<seq<Data>>, at: nat, es: seq<Pair>, from: nat, end: nat)
    requires end <= |es| && InFilter(added, at, es, from, end)
    requires forall a | a in added :: IndexOf(a.0) < |groups| && a.1 in groups[IndexOf(a.0)]
    ensures Grouped(groups, at, es, from, end)
  {
    forall j | from <= j < end
      ensures InGroup(groups, at, es[j].key)
    {
      var a := (at, es[j].key);
      assert a in added && a.0 == at;
    }
  }

  method AddSmall(block: BlockBuilder, key: Data, value: Data)
    requires block.Valid() && !block.finished && |key| < TWO_32 && |value| < TWO_32
    modifies block
    ensures block.Valid() && !block.finished && block.Entries() == old(block.Entries()) + [Pair(key, value)]
  {
    block.Add(key, value);
  }

  lemma FinalSeps(size: nat, es: seq<Pair>, parts: seq<Part>, ends: seq<nat>, seps: seq<Data>, pending: bool, seps': seq<Data>)
    requires Shape(size, es, parts, ends, seps, pending) && |parts| == |ends| && StartOf(ends, |ends|) == |es|
    requires if pending then |seps'| == |seps| + 1 && seps'[..|seps|] == seps && es != []
                             && (seps'[|seps|] == es[|es| - 1].key
                                 || BytesLess(UserOf(es[|es| - 1].key), UserOf(seps'[|seps|])))
             else seps' == seps
    ensures |seps'| == |parts| && forall i: nat | i < |seps'| :: Separates(es, ends[i], seps'[i])
  {
    hide BytesLess, UserOf, Slices;
    forall i: nat | i < |seps'|
      ensures Separates(es, ends[i], seps'[i])
    {
      assert i < |seps| ==> seps'[i] == seps'[..|seps|][i] && Separates(es, ends[i], seps[i]);
    }
  }

  // A file that another one extends.
  ghost predicate Grows(a: Data, b: Data) {
    |a| <= |b| && b[..|a|] == a
  }

  lemma FooterLast(file: Data, t: Layout)
    ensures Footed(file + FooterBytes(Footer(HandleOf(t.meta), HandleOf(t.index))), t)
  {
    hide FooterBytes;
  }

  // What each step wrote is still in the finished file.
  lemma TableHeld(f0: Data, f1: Data, f2: Data, f3: Data, file: Data, t: Layout)
    requires Grows(f0, f1) && Grows(f1, f2) && Grows(f2, f3) && Grows(f3, file)
    requires Increasing(t.es, Order()) && Slices(t.es, t.parts, t.ends) && Indexed(t) && AllWritten(f0, t.parts)
    requires t.filter.Some? ==> FilterLaid(f1, t.es, t.parts, t.ends, t.filter.value)
    requires Written(f2, t.meta) && t.meta.plan.es == MetaEntries(t.filter)
    requires Written(f3, t.index) && Footed(file, t)
    ensures IsTable(file, t)
  {
    hide Written, Slices, AllWritten, Indexed, Increasing, MetaEntries, Footed, FilterLaid;
    GrowsOn(f2, f3, file);
    GrowsOn(f1, f2, file);
    GrowsOn(f0, f1, file);
    AllStay(f0, file[|f0|..], t.parts);
    WrittenStays(f2, file[|f2|..], t.meta);
    WrittenStays(f3, file[|f3|..], t.index);
    if t.filter.Some? {
      FilterStays(f1, file, t);
    }
  }

  lemma FilterStays(file: Data, file': Data, t: Layout)
    requires Grows(file, file') && t.filter.Some? && FilterLaid(file, t.es, t.parts, t.ends, t.filter.value)
    ensures FilterLaid(file', t.es, t.parts, t.ends, t.filter.value)
  {
    hide Filters, Grouped, Stored;
    assert file' == file + file'[|file|..];
    StoredStays(file, file'[|file|..], t.filter.value.at, t.filter.value.contents);
  }

  lemma GrowsOn(a: Data, b: Data, c: Data)
    requires Grows(a, b) && Grows(b, c)
    ensures Grows(a, c) && c == a + c[|a|..]
    ensures c == b + c[|b|..]
  {
    assert c[..|a|] == c[..|b|][..|a|];
  }

  lemma IndexStays(parts: seq<Part>, p: Part, seps: seq<Data>)
    requires |seps| <= |parts|
    ensures IndexEntries(parts + [p], seps) == IndexEntries(parts, seps)
  {
  }

  lemma IncreasingAdd(es: seq<Pair>, e: Pair)
    requires Increasing(es, Order()) && (es != [] ==> InternalLess(es[|es| - 1].key, e.key))
    ensures Increasing(es + [e], Order())
  {
    hide InternalLess;
    var es' := es + [e];
    forall i, j | 0 <= i < j < |es'|
      ensures Order()(es'[i].key, es'[j].key)
    {
      if j == |es| && i < |es| - 1 {
        assert Order()(es[i].key, es[|es| - 1].key);
        InternalTransitive(es[i].key, es[|es| - 1].key, e.key);
      }
    }
  }
}
