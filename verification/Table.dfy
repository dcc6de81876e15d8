// Reading a table (table/table.cc): opening it, looking one key up, and going through all of its
// entries with an iterator over blocks (table/two_level_iterator.cc).

module Tables {
  import opened Bits
  import opened Coding
  import opened History
  import opened TableFormat
  import opened Blocks
  import opened Blooms
  import opened FilterBlocks
  import opened Separators
  import opened TableBuilders

  function BytesOrder(): (Data, Data) -> bool {
    (a, b) => BytesLess(a, b)
  }

  lemma OrdersTransitive()
    ensures Transitive(Order()) && Transitive(BytesOrder())
  {
    hide BytesLess, InternalLess;
    forall a, b, c | InternalLess(a, b) && InternalLess(b, c)
      ensures InternalLess(a, c)
    {
      InternalTransitive(a, b, c);
    }
    forall a, b, c | BytesLess(a, b) && BytesLess(b, c)
      ensures BytesLess(a, c)
    {
      BytesTransitive(a, b, c);
    }
  }

  // ---- Which block holds the first entry at or after a key. ----

  // No more of a layout than its entries, blocks and index.
  ghost predicate Cut(t: Layout) {
    Increasing(t.es, Order()) && Slices(t.es, t.parts, t.ends) && Indexed(t)
  }

  ghost function Bound(t: Layout, k: Data): (r: nat)
    ensures r <= |t.es|
  {
    FirstAtOrAfter(t.es, Order(), k)
  }

  ghost function BlockBound(t: Layout, k: Data): (r: nat)
    requires Indexed(t)
    ensures r <= |t.parts|
  {
    FirstAtOrAfter(t.index.plan.es, Order(), k)
  }

  lemma SeparatorAfter(es: seq<Pair>, n: nat, sep: Data, i: nat)
    requires Increasing(es, Order()) && Separates(es, n, sep) && i < n
    ensures es[i].key == sep || InternalLess(es[i].key, sep)
  {
    hide BytesLess, UserOf, TagOf;
    if i < n - 1 {
      assert Order()(es[i].key, es[n - 1].key);
      if sep != es[n - 1].key {
        InternalTransitive(es[i].key, es[n - 1].key, sep);
      }
    }
  }

  lemma SeparatorBefore(es: seq<Pair>, n: nat, sep: Data)
    requires Increasing(es, Order()) && Separates(es, n, sep) && n < |es|
    ensures InternalLess(sep, es[n].key)
  {
    hide BytesLess, UserOf, TagOf;
    assert Order()(es[n - 1].key, es[n].key);
  }

  lemma AfterBlocksBefore(t: Layout, k: Data, i: nat)
    requires Cut(t) && BlockBound(t, k) > 0 && i < t.ends[BlockBound(t, k) - 1] <= |t.es|
    ensures InternalLess(t.es[i].key, k)
  {
    hide InternalLess, Increasing, Slices, Separates, Restarts;
    var b := BlockBound(t, k) - 1;
    assert Order()(t.index.plan.es[b].key, k);
    SeparatorAfter(t.es, t.ends[b], t.seps[b], i);
    if t.es[i].key != t.seps[b] {
      InternalTransitive(t.es[i].key, t.seps[b], k);
    }
  }

  lemma BeforeBlocksAfter(t: Layout, k: Data)
    requires Cut(t) && BlockBound(t, k) < |t.parts| && t.ends[BlockBound(t, k)] < |t.es|
    ensures !InternalLess(t.es[t.ends[BlockBound(t, k)]].key, k)
  {
    hide InternalLess, Increasing, Slices, Separates;
    var b := BlockBound(t, k);
    var n := t.ends[b];
    assert !Order()(t.index.plan.es[b].key, k);
    SeparatorBefore(t.es, n, t.seps[b]);
    if InternalLess(t.es[n].key, k) {
      InternalTransitive(t.seps[b], t.es[n].key, k);
    }
  }

  // The search in the index and then in one block finds where a search over all entries ends:
  // in that block, or right behind it.
  lemma BoundInBlock(t: Layout, k: Data)
    requires Cut(t)
    ensures var b, m := BlockBound(t, k), Bound(t, k);
      if b == |t.parts| then m == |t.es|
      else && StartOf(t.ends, b) <= m <= t.ends[b] <= |t.es|
           && FirstAtOrAfter(t.parts[b].plan.es, Order(), k) == m - StartOf(t.ends, b)
  {
    hide InternalLess, Increasing, Separates;
    var b, m := BlockBound(t, k), Bound(t, k);
    var from := StartOf(t.ends, b);
    if b > 0 {
      assert SliceAt(t.es, t.parts, t.ends, b - 1);
      if m < from {
        AfterBlocksBefore(t, k, m);
      }
    }
    if b < |t.parts| {
      assert SliceAt(t.es, t.parts, t.ends, b);
      var n := t.ends[b];
      if n < |t.es| {
        BeforeBlocksAfter(t, k);
      }
      BoundInSlice(t.es, k, from, n);
    }
  }

  lemma BoundInSlice(es: seq<Pair>, k: Data, from: nat, end: nat)
    requires from <= end <= |es| && from <= FirstAtOrAfter(es, Order(), k)
    requires end < |es| ==> !InternalLess(es[end].key, k)
    ensures FirstAtOrAfter(es, Order(), k) <= end
    ensures FirstAtOrAfter(es[from..end], Order(), k) == FirstAtOrAfter(es, Order(), k) - from
  {
    hide InternalLess;
    var m := FirstAtOrAfter(es, Order(), k);
    BoundIs(es[from..end], Order(), k, m - from);
  }

  // Right behind the block, the entry found has another user key: index keys separate user keys.
  lemma BehindBlockDiffers(t: Layout, k: Data)
    requires Cut(t) && BlockBound(t, k) < |t.parts| && Bound(t, k) == t.ends[BlockBound(t, k)] < |t.es|
    ensures UserOf(t.es[Bound(t, k)].key) != UserOf(k)
  {
    hide BytesLess, UserOf, TagOf, Increasing, Slices;
    var b := BlockBound(t, k);
    assert Separates(t.es, t.ends[b], t.seps[b]);
    assert !Order()(t.index.plan.es[b].key, k);
    assert Order()(t.es[t.ends[b] - 1].key, k);
  }

  // The first entry at or after (user key, tag) is that user key's newest one not above the tag,
  // whenever there is one.
  lemma FirstIsNewest(es: seq<Pair>, k: Data, i: nat)
    requires Increasing(es, Order()) && i < |es| && UserOf(es[i].key) == UserOf(k) && TagOf(es[i].key) <= TagOf(k)
    ensures var m := FirstAtOrAfter(es, Order(), k);
      && m <= i && UserOf(es[m].key) == UserOf(k) && TagOf(es[i].key) <= TagOf(es[m].key) <= TagOf(k)
  {
    hide BytesLess, UserOf, TagOf;
    var m := FirstAtOrAfter(es, Order(), k);
    BytesIrreflexive(UserOf(k));
    if m < i {
      assert Order()(es[m].key, es[i].key);
      assert !Order()(es[m].key, k);
    }
  }

  // ---- The open table. ----

  // Offsets are 64 bits wide, those within a block 32.
  ghost predicate Fits(file: Data, t: Layout) {
    && |file| < TWO_64 && |t.index.contents| < TWO_32 && |t.meta.contents| < TWO_32
    && (forall i | 0 <= i < |t.parts| :: |t.parts[i].contents| < TWO_32)
    && (t.filter.Some? ==> |t.filter.value.contents| < TWO_32)
  }

  // A policy is known by its name.
  ghost predicate SamePolicy(policy: BloomFilterPolicy?, name: Data, t: Layout) {
    policy != null && t.filter.Some? && t.filter.value.name == name ==> policy == t.filter.value.policy
  }

  lemma WrittenReads(file: Data, verifyChecksums: bool, p: Part)
    requires Written(file, p) && |file| < TWO_64 && |p.contents| < TWO_32
    ensures ReadHandle(HandleBytes(HandleOf(p))) == Some((HandleOf(p), []))
    ensures ReadBlock(file, verifyChecksums, HandleOf(p)) == Contents(p.contents)
    ensures Finished(p.contents, p.buf, p.plan)
  {
    hide HandleBytes, ReadHandle, ReadBlock, Trailer, Laid;
    ReadsHandle(HandleOf(p), []);
    assert HandleBytes(HandleOf(p)) + [] == HandleBytes(HandleOf(p));
    ReadsBlock(file, verifyChecksums, p.at, p.contents);
  }

  // A block's iterator, where its handle, its bytes and its frame are in order.
  method OpenBlock(file: Data, verifyChecksums: bool, less: (Data, Data) -> bool, handle: BlockHandle, ghost p: Part)
    returns (it: BlockIter?)
    ensures it != null ==> fresh(it) && it.less == less && it.Bounded() && it.numRestarts > 0
    ensures Transitive(less) && Increasing(p.plan.es, less) && Written(file, p) && |file| < TWO_64 && |p.contents| < TWO_32
            && handle == HandleOf(p) ==>
      it != null && it.plan == p.plan && it.Block()
  {
    hide ReadBlock, Written, Finished, Transitive, Increasing, BlockIter.Block, HandleBytes, ReadHandle;
    if Written(file, p) && |file| < TWO_64 && |p.contents| < TWO_32 {
      WrittenReads(file, verifyChecksums, p);
    }
    var block := ReadBlock(file, verifyChecksums, handle);
    if block.Failed? {
      return null;
    }
    it := NewIterator(less, block.data, p.buf, p.plan);
  }

  // A reader of the table's filters.
  ghost predicate FilterOf(filter: FilterBlockReader?, t: Layout) {
    filter != null ==>
      && t.filter.Some? && filter.policy == t.filter.value.policy && filter.Bounded()
      && filter.Reads(t.filter.value.result, t.filter.value.offsets, t.filter.value.groups)
  }

  lemma FilterReads(file: Data, verifyChecksums: bool, t: Layout)
    requires IsTable(file, t) && Fits(file, t) && t.filter.Some?
    ensures var f := t.filter.value;
      var handle := BlockHandle(f.at, |f.contents|);
      && ReadHandle(HandleBytes(handle)) == Some((handle, []))
      && ReadBlock(file, verifyChecksums, handle) == Contents(f.contents)
      && ClosedOver(f.policy, f.contents, f.result, f.offsets, f.groups)
  {
    hide HandleBytes, ReadHandle, ReadBlock, Trailer, Filters, Closed, Grouped, Increasing, Slices, AllWritten, Indexed, Footed,
         Written, MetaEntries;
    var f := t.filter.value;
    var handle := BlockHandle(f.at, |f.contents|);
    ReadsHandle(handle, []);
    assert HandleBytes(handle) + [] == HandleBytes(handle);
    ReadsBlock(file, verifyChecksums, f.at, f.contents);
  }

  method ReadFilter(file: Data, verifyChecksums: bool, policy: BloomFilterPolicy, filterHandleValue: Data, ghost t: Layout)
    returns (filter: FilterBlockReader?)
    ensures filter != null ==> filter.Bounded()
    ensures IsTable(file, t) && Fits(file, t) && t.filter.Some? && policy == t.filter.value.policy
            && filterHandleValue == HandleBytes(BlockHandle(t.filter.value.at, |t.filter.value.contents|)) ==>
      filter != null && FilterOf(filter, t)
  {
    hide IsTable, Fits, HandleBytes, ReadHandle, ReadBlock, ClosedOver;
    filter := null;
    if IsTable(file, t) && Fits(file, t) && t.filter.Some? {
      FilterReads(file, verifyChecksums, t);
    }
    var filterHandle := ReadHandle(filterHandleValue);
    if filterHandle.None? {
      return;
    }
    var block := ReadBlock(file, verifyChecksums, filterHandle.value.0);
    if block.Failed? {
      return;
    }
    ghost var f := if t.filter.Some? then (t.filter.value.result, t.filter.value.offsets, t.filter.value.groups) else ([], [], []);
    filter := new FilterBlockReader(policy, block.data, f.0, f.1, f.2);
  }

  lemma MetaFacts(file: Data, t: Layout, name: Data)
    requires IsTable(file, t) && Fits(file, t)
    ensures Written(file, t.meta) && |file| < TWO_64 && |t.meta.contents| < TWO_32
    ensures Transitive(BytesOrder()) && Increasing(t.meta.plan.es, BytesOrder())
    ensures t.meta.plan.es == MetaEntries(t.filter)
    ensures t.filter.Some? ==>
      (FirstAtOrAfter(t.meta.plan.es, BytesOrder(), FilterKey(name)) == 0 <== t.filter.value.name == name)
      && (FilterKey(name) == FilterKey(t.filter.value.name) ==> t.filter.value.name == name)
  {
    hide HandleBytes, Written, AllWritten, Indexed, Slices, FilterLaid, Footed, BytesLess;
    OrdersTransitive();
    if t.filter.Some? {
      NameOf(name, t.filter.value.name);
      BytesIrreflexive(FilterKey(name));
    }
  }

  lemma NameOf(a: Data, b: Data)
    ensures FilterKey(a) == FilterKey(b) ==> a == b
  {
    hide ByteOf;
    assert FilterKey(a)[7..] == a && FilterKey(b)[7..] == b;
  }

  // The filter block's reader: its handle is in the metaindex block under the policy's name.
  method ReadMeta(file: Data, verifyChecksums: bool, policy: BloomFilterPolicy?, name: Data, metaindex: BlockHandle, ghost t: Layout)
    returns (filter: FilterBlockReader?)
    ensures filter != null ==> policy != null && filter.Bounded()
    ensures IsTable(file, t) && Fits(file, t) && SamePolicy(policy, name, t) && metaindex == HandleOf(t.meta) ==>
      && FilterOf(filter, t)
      && (policy != null && t.filter.Some? && t.filter.value.name == name ==> filter != null)
  {
    hide IsTable, Fits, Written, FilterOf, FilterKey, HandleBytes, Transitive, Increasing, Opened, FirstAtOrAfter;
    filter := null;
    NoFilter(t);
    if policy == null {
      return;
    }
    ghost var sound := IsTable(file, t) && Fits(file, t) && SamePolicy(policy, name, t) && metaindex == HandleOf(t.meta);
    if sound {
      MetaFacts(file, t, name);
    }
    var iter := OpenBlock(file, verifyChecksums, BytesOrder(), metaindex, t.meta);
    if iter == null {
      return;
    }
    var key := FilterKey(name);
    iter.Seek(key);
    if sound {
      ghost var k := FirstAtOrAfter(t.meta.plan.es, BytesOrder(), key);
      iter.AtIsValid(k);
    }
    if iter.Valid() && iter.key == key {
      filter := ReadFilter(file, verifyChecksums, policy, iter.Value(), t);
    }
  }

  lemma NoFilter(t: Layout)
    ensures FilterOf(null, t)
  {
  }

  datatype OpenError = TooShort | BadFooter | BadIndexBlock(error: BlockError)

  datatype Opening = Table(table: Table) | NotATable(error: OpenError)

  // Table::Open; whatever is wrong with the filters, the table opens without them.
  method Open(file: Data, verifyChecksums: bool, policy: BloomFilterPolicy?, name: Data, ghost t: Layout) returns (r: Opening)
    ensures |file| < 48 ==> r == NotATable(TooShort)
    ensures r.Table? ==> fresh(r.table) && r.table.t == t && (r.table.filter != null ==> r.table.filter.Bounded())
    ensures IsTable(file, t) && Fits(file, t) && SamePolicy(policy, name, t) ==>
      && r.Table? && r.table.Sound()
      && (policy != null && t.filter.Some? && t.filter.value.name == name ==> r.table.filter != null)
  {
    hide IsTable, Fits, FilterOf, SamePolicy, ReadFooter, ReadBlock;
    ghost var sound := IsTable(file, t) && Fits(file, t) && SamePolicy(policy, name, t);
    if sound {
      FooterReads(file, verifyChecksums, t);
    }
    if |file| < 48 {
      return NotATable(TooShort);
    }
    var footer := ReadFooter(file[|file| - 48..]);
    if footer.None? {
      return NotATable(BadFooter);
    }
    var indexBlock := ReadBlock(file, verifyChecksums, footer.value.index);
    if indexBlock.Failed? {
      return NotATable(BadIndexBlock(indexBlock.error));
    }
    var filter := ReadMeta(file, verifyChecksums, policy, name, footer.value.metaindex, t);
    var table := new Table(file, verifyChecksums, filter, indexBlock.data, t);
    return Table(table);
  }

  lemma FooterReads(file: Data, verifyChecksums: bool, t: Layout)
    requires IsTable(file, t) && Fits(file, t)
    ensures |file| >= 48 && ReadFooter(file[|file| - 48..]) == Some(Footer(HandleOf(t.meta), HandleOf(t.index)))
    ensures ReadBlock(file, verifyChecksums, HandleOf(t.index)) == Contents(t.index.contents)
  {
    hide ReadFooter, FooterBytes, ReadBlock, FilterLaid, Indexed, Slices, AllWritten, Increasing, Trailer, Laid, Restarts,
         MetaEntries, HandleBytes, ReadHandle;
    ReadsFooter(Footer(HandleOf(t.meta), HandleOf(t.index)));
    WrittenReads(file, verifyChecksums, t.index);
  }

  class Table {
    const file: Data
    const verifyChecksums: bool
    const filter: FilterBlockReader?
    const indexBlock: Data
    ghost const t: Layout

    constructor (file: Data, verifyChecksums: bool, filter: FilterBlockReader?, indexBlock: Data, ghost t: Layout)
      ensures this.file == file && this.verifyChecksums == verifyChecksums && this.filter == filter
      ensures this.indexBlock == indexBlock && this.t == t
    {
      this.file, this.verifyChecksums, this.filter, this.indexBlock, this.t := file, verifyChecksums, filter, indexBlock, t;
    }

    // Opened on the file of a finished table.
    ghost predicate Sound() {
      IsTable(file, t) && Fits(file, t) && indexBlock == t.index.contents && FilterOf(filter, t)
    }

    lemma IndexFacts()
      requires Sound()
      ensures Cut(t) && Finished(indexBlock, t.index.buf, t.index.plan)
      ensures Transitive(Order()) && Increasing(t.index.plan.es, Order())
    {
      hide AllWritten, FilterLaid, Footed, FilterOf, Separates, Slices;
      OrdersTransitive();
      WrittenReads(file, true, t.index);
      IndexIncreases(t);
    }

    method IndexIterator() returns (it: BlockIter?)
      ensures it != null ==> fresh(it) && it.less == Order() && it.Bounded() && it.numRestarts > 0
      ensures Sound() ==> it != null && it.plan == t.index.plan && it.Block()
    {
      hide Finished, Transitive, Increasing, Sound, BlockIter.Block;
      if Sound() {
        IndexFacts();
      }
      it := NewIterator(Order(), indexBlock, t.index.buf, t.index.plan);
    }

    lemma PartFacts(i: nat)
      requires Sound() && i < |t.parts|
      ensures Written(file, t.parts[i]) && |file| < TWO_64 && |t.parts[i].contents| < TWO_32
      ensures Transitive(Order()) && Increasing(t.parts[i].plan.es, Order())
      ensures Slices(t.es, t.parts, t.ends) && SliceAt(t.es, t.parts, t.ends, i)
      ensures ReadHandle(HandleBytes(HandleOf(t.parts[i]))) == Some((HandleOf(t.parts[i]), []))
    {
      hide FilterLaid, Footed, FilterOf, Indexed, Written, HandleBytes, ReadHandle;
      OrdersTransitive();
      assert SliceAt(t.es, t.parts, t.ends, i);
      WrittenReads(file, true, t.parts[i]);
    }

    lemma SliceFacts(i: nat)
      requires Sound() && i < |t.parts|
      ensures |t.parts| == |t.ends| && StartOf(t.ends, i) < t.ends[i] <= |t.es|
      ensures t.parts[i].plan.es == t.es[StartOf(t.ends, i)..t.ends[i]]
    {
      hide FilterLaid, Footed, FilterOf, Indexed, Written, AllWritten, Increasing, Separates;
      assert SliceAt(t.es, t.parts, t.ends, i);
    }

    // The iterator over the block that an index value leads to.
    method BlockReader(indexValue: Data, ghost i: nat) returns (it: BlockIter?)
      ensures it != null ==> fresh(it) && it.less == Order() && it.Bounded() && it.numRestarts > 0
      ensures Sound() && i < |t.parts| && indexValue == HandleBytes(HandleOf(t.parts[i])) ==>
        it != null && it.plan == t.parts[i].plan && it.Block()
    {
      hide Written, Transitive, Increasing, Sound, BlockIter.Block, HandleBytes, ReadHandle, Slices, SliceAt;
      ghost var p := t.index;
      if Sound() && i < |t.parts| {
        PartFacts(i);
        p := t.parts[i];
      }
      var handle := ReadHandle(indexValue);
      if handle.None? {
        return null;
      }
      it := OpenBlock(file, verifyChecksums, Order(), handle.value.0, p);
    }

    // The entry at b is the index entry of block b, and the filter says yes where it should.
    lemma HandleFacts(b: nat)
      requires Sound() && b < |t.parts|
      ensures b < |t.index.plan.es| && t.index.plan.es[b].value == HandleBytes(HandleOf(t.parts[b]))
      ensures |t.index.plan.es| == |t.parts|
    {
      hide FilterLaid, Footed, FilterOf, Written, AllWritten, Slices, HandleBytes, Separates;
    }

    lemma Covered(b: nat, m: nat, k: Data)
      requires InBlock(t, b, m, k) && Sound() && t.filter.Some?
      ensures Covers(t.filter.value.groups, IndexOf(t.parts[b].at), UserOf(k))
    {
      hide FilterOf, Written, AllWritten, Slices, HandleBytes, Separates, Filters, Closed, Stored, Increasing, Indexed, Footed,
           UserOf, IndexOf;
      assert Grouped(t.filter.value.groups, t.parts[b].at, t.es, StartOf(t.ends, b), t.ends[b]);
      assert InGroup(t.filter.value.groups, t.parts[b].at, t.es[m].key);
    }

    // Whether the filter, if there is one, lets a search of the block go on.
    method MayMatch(handleValue: Data, k: Data, ghost b: nat, ghost m: nat) returns (r: bool)
      requires filter != null ==> filter.Bounded()
      ensures Sound() && InBlock(t, b, m, k) && handleValue == HandleBytes(HandleOf(t.parts[b])) ==> r
    {
      hide IsTable, Fits, HandleBytes, ReadHandle, UserOf, Covers, IndexOf, FilterBlockReader.Reads, Slices, SliceAt, Written;
      ghost var f := if t.filter.Some? then (t.filter.value.result, t.filter.value.offsets, t.filter.value.groups) else ([], [], []);
      if filter == null {
        return true;
      }
      ghost var sound := Sound() && InBlock(t, b, m, k) && handleValue == HandleBytes(HandleOf(t.parts[b]));
      if sound {
        PartFacts(b);
        Covered(b, m, k);
      }
      var handle := ReadHandle(handleValue);
      if handle.None? {
        return true;
      }
      r := filter.KeyMayMatch(handle.value.0.offset, k, f.0, f.1, f.2);
    }

    // Table::InternalGet: hands on the first entry at or after the key, if it has the key's user
    // key; another entry it may keep to itself.
    method InternalGet(k: Data) returns (r: Option<Pair>)
      requires filter != null ==> filter.Bounded()
      ensures Sound() ==> Reports(r, t, k)
    {
      hide Sound, HandleBytes, UserOf, IndexEntries, Slices, SliceAt, Opened, Transitive, Increasing, Written, FirstAtOrAfter,
           Separates;
      ghost var sound := Sound();
      ghost var b, m := 0, Bound(t, k);
      if sound {
        SearchFacts(k);
        b := BlockBound(t, k);
      }
      var iiter := IndexIterator();
      if iiter == null {
        return None;
      }
      iiter.Seek(k);
      if sound {
        iiter.AtIsValid(b);
      }
      if !iiter.Valid() {
        return None;
      }
      var handleValue := iiter.Value();
      var may := MayMatch(handleValue, k, b, m);
      if !may {
        return None;
      }
      var blockIter := BlockReader(handleValue, b);
      if blockIter == null {
        return None;
      }
      blockIter.Seek(k);
      if sound {
        blockIter.AtIsValid(m - StartOf(t.ends, b));
      }
      if !blockIter.Valid() {
        return None;
      }
      return Some(Pair(blockIter.key, blockIter.Value()));
    }

    lemma SearchFacts(k: Data)
      requires Sound()
      ensures Indexed(t) && Searched(t, k)
    {
      hide FilterLaid, Footed, FilterOf, Written, AllWritten, HandleBytes, Separates, UserOf, Increasing, Slices, FirstAtOrAfter;
      var b, m := BlockBound(t, k), Bound(t, k);
      BoundInBlock(t, k);
      if b < |t.parts| {
        PartFacts(b);
        HandleFacts(b);
        if m == t.ends[b] && m < |t.es| {
          BehindBlockDiffers(t, k);
        }
      }
    }
  }

  // Entry m, in block b, has the key's user key.
  ghost predicate InBlock(t: Layout, b: nat, m: nat, k: Data) {
    && b < |t.parts| == |t.ends| && StartOf(t.ends, b) <= m < t.ends[b] <= |t.es|
    && UserOf(t.es[m].key) == UserOf(k)
  }

  // What a search for a key comes upon, in the index and in the block.
  ghost predicate Searched(t: Layout, k: Data)
    requires Indexed(t)
  {
    var b, m := BlockBound(t, k), Bound(t, k);
    && |t.parts| == |t.index.plan.es|
    && if b == |t.parts| then m == |t.es|
       else && StartOf(t.ends, b) <= m <= t.ends[b] <= |t.es|
            && |t.parts[b].plan.es| == t.ends[b] - StartOf(t.ends, b)
            && FirstAtOrAfter(t.parts[b].plan.es, Order(), k) == m - StartOf(t.ends, b)
            && t.index.plan.es[b].value == HandleBytes(HandleOf(t.parts[b]))
            && (m < t.ends[b] ==> t.parts[b].plan.es[m - StartOf(t.ends, b)] == t.es[m])
            && (m == t.ends[b] && m < |t.es| ==> UserOf(t.es[m].key) != UserOf(k))
  }

  // A whole entry, as the caller of a lookup gets it.
  ghost predicate Reports(r: Option<Pair>, t: Layout, k: Data) {
    var m := Bound(t, k);
    && (r.Some? ==> m < |t.es| && r.value == t.es[m])
    && (m < |t.es| && UserOf(t.es[m].key) == UserOf(k) ==> r.Some?)
  }

  lemma IndexIncreases(t: Layout)
    requires Cut(t)
    ensures Increasing(t.index.plan.es, Order())
  {
    hide InternalLess, Separates, Slices;
    var ix := t.index.plan.es;
    forall i, j | 0 <= i < j < |ix|
      ensures Order()(ix[i].key, ix[j].key)
    {
      EndsAscend(t.es, t.parts, t.ends, i, j);
      SeparatorBefore(t.es, t.ends[i], t.seps[i]);
      SeparatorAfter(t.es, t.ends[j], t.seps[j], t.ends[i]);
      if t.es[t.ends[i]].key != t.seps[j] {
        InternalTransitive(t.seps[i], t.es[t.ends[i]].key, t.seps[j]);
      }
    }
  }

  lemma {:induction false} EndsAscend(es: seq<Pair>, parts: seq<Part>, ends: seq<nat>, i: nat, j: nat)
    requires Slices(es, parts, ends) && i < j < |parts|
    ensures ends[i] < ends[j] <= |es| && parts[i].at < parts[j].at
    decreases j
  {
    assert SliceAt(es, parts, ends, j);
    if i < j - 1 {
      EndsAscend(es, parts, ends, i, j - 1);
    }
  }
}
