// A table file from end to end (db/builder.cc): built from sorted entries, opened, and read.

module TableFiles {
  import opened Sequences
  import opened Bits
  import opened Coding
  import opened History
  import opened Blocks
  import opened Blooms
  import opened FilterBlocks
  import opened TableFormat
  import opened TableBuilders
  import opened Tables
  import opened TwoLevelIterators

  // BuildTable: no entries, no file.
  method BuildTable(es: seq<Pair>, blockSize: nat, interval: nat, policy: BloomFilterPolicy?, name: Data)
    returns (file: Data, ghost t: Layout)
    requires Increasing(es, Order()) && (forall e | e in es :: Small(e))
    requires interval >= 1 && |FilterKey(name)| < TWO_32 && (policy != null ==> 1 <= policy.k <= 30)
    ensures es == [] ==> file == []
    ensures es != [] ==> IsTable(file, t) && t.es == es && SamePolicy(policy, name, t)
    ensures es != [] && policy != null ==> t.filter.Some? && t.filter.value.name == name
  {
    hide IsTable, TableBuilder.Valid, FilterKey, Small, Increasing, Order, Separators.InternalLess;
    file := [];
    t := Nothing();
    if es == [] {
      return;
    }
    var builder := new TableBuilder(blockSize, interval, policy, name);
    var n := 0;
    while n < |es|
      invariant n <= |es| && fresh(builder) && fresh(builder.dataBlock) && fresh(builder.indexBlock)
      invariant builder.filterBlock != null ==> fresh(builder.filterBlock)
      invariant builder.Valid() && !builder.closed && builder.es == es[..n]
    {
      InOrder(es, n, builder);
      builder.Add(es[n].key, es[n].value);
      OneMore(es, n);
      n := n + 1;
    }
    assert es[..|es|] == es;
    t := builder.Finish();
    file := builder.file;
  }

  lemma InOrder(es: seq<Pair>, n: nat, builder: TableBuilder)
    requires n < |es| && Increasing(es, Order()) && builder.Valid() && builder.es == es[..n]
    requires forall e | e in es :: Small(e)
    ensures Small(Pair(es[n].key, es[n].value)) && es[n] == Pair(es[n].key, es[n].value)
    ensures builder.numEntries > 0 ==> Separators.InternalLess(builder.lastKey, es[n].key)
  {
    hide TableBuilder.BlocksValid, TableBuilder.Cut, TableBuilder.FilterValid, AllWritten, Separators.InternalLess;
    assert es[n] in es;
    if n > 0 {
      assert Order()(es[n - 1].key, es[n].key);
    }
  }

  ghost function Nothing(): Layout {
    var none := Part(0, [], [], Plan([], [], [], []));
    Layout([], [], [], [], None, none, none)
  }

  // A file of less than four gigabytes has no block of four.
  lemma SmallFileFits(file: Data, t: Layout)
    requires IsTable(file, t) && |file| < TWO_32
    ensures Fits(file, t)
  {
    hide Filters, Grouped, Separates, Increasing, Trailer, Laid, Slices, Indexed, Footed;
    forall i | 0 <= i < |t.parts|
      ensures |t.parts[i].contents| < TWO_32
    {
      assert Written(file, t.parts[i]);
    }
  }

  // A pass forwards gives the entries as they were added, a pass backwards the same in reverse.
  method Forwards(it: TwoLevelIterator) returns (out: seq<Pair>)
    requires it.Ready()
    modifies it, it.indexIter, it.dataIter
    ensures out == it.Entries() && it.Ready()
    ensures it.dataIter == old(it.dataIter) || it.dataIter == null || fresh(it.dataIter)
  {
    hide TwoLevelIterator.Ready, TwoLevelIterator.On;
    out := [];
    it.SeekToFirst();
    it.Entered(it.pos);
    while it.Valid()
      invariant it.On(it.pos) && it.pos <= |it.Entries()| && out == it.Entries()[..it.pos]
      invariant it.Valid() <==> it.pos < |it.Entries()|
      invariant it.dataIter == old(it.dataIter) || it.dataIter == null || fresh(it.dataIter)
      decreases |it.Entries()| - it.pos
    {
      var e := it.Current();
      out := out + [e];
      it.Next();
      it.Entered(it.pos);
    }
    assert it.Entries()[..|it.Entries()|] == it.Entries();
    it.OnReady();
  }

  method Backwards(it: TwoLevelIterator) returns (out: seq<Pair>)
    requires it.Ready()
    modifies it, it.indexIter, it.dataIter
    ensures |out| == |it.Entries()| && forall j | 0 <= j < |out| :: out[j] == it.Entries()[|out| - 1 - j]
    ensures it.Ready() && (it.dataIter == old(it.dataIter) || it.dataIter == null || fresh(it.dataIter))
  {
    hide TwoLevelIterator.Ready, TwoLevelIterator.On;
    out := [];
    ghost var n := |it.Entries()|;
    it.SeekToLast();
    it.Entered(it.pos);
    while it.Valid()
      invariant it.On(it.pos) && it.pos == if |out| < n then n - 1 - |out| else n
      invariant |out| <= n && forall j | 0 <= j < |out| :: out[j] == it.Entries()[n - 1 - j]
      invariant it.Valid() <==> it.pos < n
      invariant it.dataIter == old(it.dataIter) || it.dataIter == null || fresh(it.dataIter)
      decreases n - |out|
    {
      var e := it.Current();
      out := out + [e];
      it.Prev();
      it.Entered(it.pos);
    }
    it.OnReady();
  }

  // Everything a reader can ask of a file that BuildTable wrote, below four gigabytes: the entries
  // both ways round, and one key.
  method WriteAndRead(es: seq<Pair>, blockSize: nat, interval: nat, policy: BloomFilterPolicy?, name: Data, k: Data)
    returns (size: nat, ahead: seq<Pair>, back: seq<Pair>, found: Option<Pair>)
    requires Increasing(es, Order()) && (forall e | e in es :: Small(e))
    requires interval >= 1 && |FilterKey(name)| < TWO_32 && (policy != null ==> 1 <= policy.k <= 30)
    ensures size < TWO_32 ==>
      && ahead == es && |back| == |es| && (forall j | 0 <= j < |es| :: back[j] == es[|es| - 1 - j])
      && var m := FirstAtOrAfter(es, Order(), k);
         && (found.Some? ==> m < |es| && found.value == es[m])
         && (m < |es| && UserOf(es[m].key) == UserOf(k) ==> found.Some?)
  {
    hide IsTable, Fits, SamePolicy, Increasing, Small, FilterKey, TwoLevelIterator.Ready, Table.Sound, BlockIter.Block, FirstAtOrAfter,
         UserOf, FilterBlockReader.Bounded;
    ahead, back, found := [], [], None;
    var file;
    ghost var t;
    file, t := BuildTable(es, blockSize, interval, policy, name);
    size := |file|;
    if es == [] || size >= TWO_32 {
      return;
    }
    SmallFileFits(file, t);
    var opening := Open(file, true, policy, name, t);
    var table := opening.table;
    found := table.InternalGet(k);
    var it := NewTableIterator(table);
    ahead := Forwards(it);
    back := Backwards(it);
  }
}
