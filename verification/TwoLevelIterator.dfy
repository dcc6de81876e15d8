// The iterator over a whole table, block by block (table/two_level_iterator.cc).

module TwoLevelIterators {
  import opened Bits
  import opened TableFormat
  import opened Blocks
  import opened TableBuilders
  import opened Tables

  class TwoLevelIterator {
    const table: Table
    const indexIter: BlockIter
    var dataIter: BlockIter?
    // While dataIter is there, the index value it was made from.
    var dataBlockHandle: Data
    // The block that is of.
    ghost var held: nat
    // The entry the iterator is on; past all entries it is on none.
    ghost var pos: nat

    ghost function Entries(): seq<Pair> {
      table.t.es
    }

    ghost predicate Holds(b: nat, it: BlockIter, handle: Data) {
      && b < |table.t.parts| && it != indexIter && it.Block() && it.less == Order() && it.plan == table.t.parts[b].plan
      && handle == HandleBytes(HandleOf(table.t.parts[b]))
    }

    ghost predicate Ready()
      reads `dataIter, `dataBlockHandle, `held
    {
      && table.Sound() && indexIter.Block() && indexIter.less == Order() && indexIter.plan == table.t.index.plan
      && (dataIter != null ==> Holds(held, dataIter, dataBlockHandle))
    }

    // The index is on block b, or off the table.
    ghost predicate IndexAt(b: nat)
      reads indexIter
    {
      indexIter.Block() && if b < |table.t.parts| then indexIter.At(b) else indexIter.AtEnd()
    }

    // The data iterator is on entry j of block b, or off the block.
    ghost predicate DataAt(b: nat, j: nat)
      reads `dataIter, `held, dataIter
    {
      && dataIter != null && held == b && dataIter.Block()
      && if j < |dataIter.plan.es| then dataIter.At(j) else dataIter.AtEnd()
    }

    ghost predicate On(p: nat)
      reads `dataIter, `dataBlockHandle, `held, indexIter, dataIter
    {
      && p <= |table.t.es|
      && (if p < |table.t.es| then
           held < |table.t.ends| && StartOf(table.t.ends, held) <= p < table.t.ends[held]
           && DataAt(held, p - StartOf(table.t.ends, held)) && IndexAt(held)
         else dataIter == null && indexIter.AtEnd())
      && Ready()
    }

    predicate Valid()
      reads `dataIter, `held, dataIter
    {
      dataIter != null && dataIter.Valid()
    }

    // Off the block, or on its entry j, which is the table's at StartOf(b) + j.
    ghost predicate Lands(b: nat, j: nat)
      reads `dataIter, `held, dataIter
    {
      && b < |table.t.parts| == |table.t.ends| && StartOf(table.t.ends, b) < table.t.ends[b] <= |table.t.es|
      && dataIter != null && |dataIter.plan.es| == table.t.ends[b] - StartOf(table.t.ends, b)
      && (Valid() <==> j < |dataIter.plan.es|)
      && (j < |dataIter.plan.es| ==>
            dataIter.plan.es[j] == table.t.es[StartOf(table.t.ends, b) + j] && dataIter.NextEntryOffset() <= |dataIter.data|)
    }

    lemma DataValid(b: nat, j: nat)
      requires Ready() && DataAt(b, j)
      ensures Lands(b, j)
    {
      hide Table.Sound, HandleBytes, BlockIter.Block, ReadHandle, Written, Increasing, Transitive, Slices;
      table.PartFacts(b);
      table.SliceFacts(b);
      dataIter.AtIsValid(j);
    }

    constructor (table: Table, indexIter: BlockIter)
      requires table.Sound() && indexIter.Block() && indexIter.less == Order() && indexIter.plan == table.t.index.plan
      ensures Ready() && this.table == table && this.indexIter == indexIter && dataIter == null
    {
      hide Table.Sound, BlockIter.Block;
      this.table, this.indexIter := table, indexIter;
      dataIter, dataBlockHandle, held, pos := null, [], 0, 0;
    }

    method InitDataBlock(ghost b: nat)
      requires Ready() && IndexAt(b)
      modifies `dataIter, `dataBlockHandle, `held
      ensures Ready() && (if b < |table.t.parts| then dataIter != null && held == b else dataIter == null)
      ensures dataIter == old(dataIter) || dataIter == null || fresh(dataIter)
    {
      hide Table.Sound, HandleBytes, BlockIter.Block, Opened;
      IndexValid(b);
      if !indexIter.Valid() {
        dataIter := null;
      } else {
        var handle := indexIter.Value();
        if dataIter != null && handle == dataBlockHandle {
          // the same handle is the same block
          SameBlock(held, b);
        } else {
          var iter := table.BlockReader(handle, b);
          dataBlockHandle := handle;
          dataIter := iter;
          held := b;
        }
      }
    }

    // The index is off the table, or its value is block b's handle.
    ghost predicate IndexLands(b: nat)
      reads indexIter
    {
      && |table.t.parts| == |table.t.ends| == |indexIter.plan.es| && (indexIter.Valid() <==> b < |table.t.parts|)
      && (b < |table.t.parts| ==>
            indexIter.NextEntryOffset() <= |indexIter.data| && indexIter.Value() == HandleBytes(HandleOf(table.t.parts[b])))
      && StartOf(table.t.ends, |table.t.ends|) == |table.t.es|
    }

    lemma IndexValid(b: nat)
      requires Ready() && IndexAt(b)
      ensures IndexLands(b)
    {
      hide HandleBytes, Opened, IsTable, Fits, FilterOf;
      Counted(table);
      if b < |table.t.parts| {
        indexIter.AtIsValid(b);
        table.HandleFacts(b);
      }
    }

    // Entry j of block b; past the last block, past all entries.
    ghost function Place(b: nat, j: nat): nat {
      if b < |table.t.ends| then StartOf(table.t.ends, b) + j else |table.t.es|
    }

    // Between blocks: the index on block b, the data iterator on entry j of it or off its end.
    ghost predicate Scanning(b: nat, j: nat)
      reads `dataIter, `dataBlockHandle, `held, indexIter, dataIter
    {
      && b <= |table.t.parts|
      && (if b < |table.t.parts| then DataAt(b, j) && j <= |dataIter.plan.es| else dataIter == null)
      && IndexAt(b) && Ready()
    }

    lemma Arrived(b: nat, j: nat)
      requires Scanning(b, j) && (b < |table.t.parts| ==> Valid())
      ensures On(Place(b, j))
    {
      hide Table.Sound, HandleBytes, BlockIter.Block, Opened;
      IndexValid(b);
      if b < |table.t.parts| {
        DataValid(b, j);
      }
    }

    // The end of a block is where the next one starts.
    lemma EndOfBlock(b: nat, j: nat)
      requires Scanning(b, j) && b < |table.t.parts| && !Valid()
      ensures Place(b, j) == Place(b + 1, 0) && indexIter.At(b) && b < |indexIter.plan.es| == |table.t.parts|
    {
      hide Table.Sound, HandleBytes, BlockIter.Block, Opened;
      IndexValid(b);
      DataValid(b, j);
    }

    // Forwards past blocks that have come to their end.
    method SkipEmptyDataBlocksForward(ghost b: nat, ghost j: nat)
      requires Scanning(b, j)
      modifies this, indexIter, dataIter
      ensures pos == Place(b, j) && On(pos)
      ensures dataIter == old(dataIter) || dataIter == null || fresh(dataIter)
    {
      hide Table.Sound, HandleBytes, BlockIter.Block, Opened, IndexAt, DataAt, Place, On;
      ghost var c, i := b, j;
      pos := Place(b, j);
      while dataIter == null || !dataIter.Valid()
        invariant Scanning(c, i) && Place(c, i) == Place(b, j) == pos
        invariant dataIter == old(dataIter) || dataIter == null || fresh(dataIter)
        decreases |table.t.parts| - c
      {
        IndexValid(c);
        if !indexIter.Valid() {
          dataIter := null;
          break;
        }
        EndOfBlock(c, i);
        NextBlock(c);
        c, i := c + 1, 0;
      }
      Arrived(c, i);
    }

    // The index moves on, and the data iterator to the first entry of the block it leads to.
    method NextBlock(ghost b: nat)
      requires Ready() && b < |table.t.parts| == |indexIter.plan.es| && indexIter.At(b)
      modifies `dataIter, `dataBlockHandle, `held, indexIter, dataIter
      ensures Scanning(b + 1, 0)
      ensures dataIter == old(dataIter) || dataIter == null || fresh(dataIter)
    {
      hide Table.Sound, HandleBytes, BlockIter.Block, Opened;
      indexIter.Next(b);
      InitDataBlock(b + 1);
      if dataIter != null {
        dataIter.SeekToFirst();
      }
    }

    // On the way back: entry p is in block b, or is the last before it, or there is none.
    ghost predicate Returning(b: nat, p: int)
      reads `dataIter, `dataBlockHandle, `held, indexIter, dataIter
    {
      && b <= |table.t.parts| == |table.t.ends|
      && (if b < |table.t.parts| then
            StartOf(table.t.ends, b) - 1 <= p < table.t.ends[b]
            && dataIter != null && held == b && dataIter.Block()
            && (if StartOf(table.t.ends, b) <= p then DataAt(b, p - StartOf(table.t.ends, b)) else dataIter.AtEnd())
          else p == -1 && dataIter == null)
      && Ready() && IndexAt(b)
    }

    // What happens next there: done, or on to the block before, or nothing before.
    ghost predicate Decided(b: nat, p: int)
      reads `dataIter, `dataBlockHandle, `held, indexIter, dataIter
    {
      && b <= |table.t.parts| == |table.t.ends| && p >= -1
      && (b < |table.t.parts| && !Before(b, p) ==> StandsOn(p))
      && (Before(b, p) ==> !Valid() && OnBlock(b))
      && (b == |table.t.parts| ==> p == -1 && !Valid() && !indexIter.Valid() && On(|table.t.es|))
    }

    ghost predicate StandsOn(p: int)
      reads `dataIter, `dataBlockHandle, `held, indexIter, dataIter
    {
      p >= 0 && Valid() && On(p)
    }

    ghost predicate OnBlock(b: nat)
      reads indexIter
    {
      indexIter.Valid() && |indexIter.plan.es| == |table.t.parts| && IndexAt(b)
    }

    ghost predicate Before(b: nat, p: int) {
      b < |table.t.parts| == |table.t.ends| && p < StartOf(table.t.ends, b)
    }

    lemma ReturnStep(b: nat, p: int)
      requires Returning(b, p)
      ensures Decided(b, p)
    {
      hide Table.Sound, HandleBytes, BlockIter.Block, Opened;
      IndexValid(b);
      if b < |table.t.parts| {
        var j: nat := if StartOf(table.t.ends, b) <= p then p - StartOf(table.t.ends, b) else |dataIter.plan.es|;
        DataValid(b, j);
      }
    }

    method SkipEmptyDataBlocksBackward(ghost b: nat, ghost p: int)
      requires Returning(b, p)
      modifies this, indexIter, dataIter
      ensures pos == (if p < 0 then |table.t.es| else p) && On(pos)
      ensures dataIter == old(dataIter) || dataIter == null || fresh(dataIter)
    {
      hide Table.Sound, HandleBytes, BlockIter.Block, Opened, IndexAt, DataAt, On, Ready;
      ghost var c: nat := b;
      pos := if p < 0 then |table.t.es| else p;
      while dataIter == null || !dataIter.Valid()
        invariant Returning(c, p) && pos == if p < 0 then |table.t.es| else p
        invariant dataIter == old(dataIter) || dataIter == null || fresh(dataIter)
        decreases if c < |table.t.parts| then c + 1 else 0
      {
        ReturnStep(c, p);
        if !indexIter.Valid() {
          dataIter := null;
          break;
        }
        PrevBlock(c, p);
        c := if c == 0 then |table.t.parts| else c - 1;
      }
      ReturnStep(c, p);
    }

    // The index moves back, and the data iterator to the last entry of the block it leads to.
    method PrevBlock(ghost b: nat, ghost p: int)
      requires Returning(b, p) && Before(b, p)
      modifies `dataIter, `dataBlockHandle, `held, indexIter, dataIter
      ensures Returning(if b == 0 then |table.t.parts| else b - 1, p)
      ensures dataIter == old(dataIter) || dataIter == null || fresh(dataIter)
    {
      hide Table.Sound, HandleBytes, BlockIter.Block, Opened;
      ReturnStep(b, p);
      indexIter.Prev(b);
      ghost var c := if b == 0 then |table.t.parts| else b - 1;
      InitDataBlock(c);
      if dataIter != null {
        dataIter.SeekToLast();
        LastOf(c);
      }
    }

    // ---- The iterator's own operations, each told by the place it ends on. ----

    lemma Entered(p: nat)
      requires On(p)
      ensures Valid() <==> p < |table.t.es|
      ensures p < |table.t.es| ==> Lands(held, p - StartOf(table.t.ends, held))
    {
      hide Table.Sound, HandleBytes, BlockIter.Block, Opened;
      if p < |table.t.es| {
        DataValid(held, p - StartOf(table.t.ends, held));
      }
    }

    lemma OnReady()
      requires On(pos)
      ensures Ready()
    {
    }

    method Current() returns (e: Pair)
      requires On(pos) && pos < |Entries()|
      ensures e == Entries()[pos]
    {
      hide Table.Sound, HandleBytes, BlockIter.Block, Opened;
      Entered(pos);
      e := Pair(dataIter.key, dataIter.Value());
    }

    lemma Seekable(it: BlockIter)
      requires it.Block()
      ensures it.Bounded() && it.numRestarts > 0
    {
      hide Transitive, Increasing;
    }

    method Seek(target: Data)
      requires Ready()
      modifies this, indexIter, dataIter
      ensures On(pos) && pos == FirstAtOrAfter(Entries(), Order(), target)
      ensures dataIter == old(dataIter) || dataIter == null || fresh(dataIter)
    {
      hide Table.Sound, HandleBytes, BlockIter.Block, Opened, FirstAtOrAfter, IndexEntries, Separates, Laid, Transitive, Increasing;
      table.SearchFacts(target);
      ghost var b := BlockBound(table.t, target);
      Seekable(indexIter);
      indexIter.Seek(target);
      InitDataBlock(b);
      if dataIter != null {
        Seekable(dataIter);
        dataIter.Seek(target);
      }
      ghost var j: nat := if b < |table.t.parts| then Bound(table.t, target) - StartOf(table.t.ends, b) else 0;
      SkipEmptyDataBlocksForward(b, j);
    }

    method SeekToFirst()
      requires Ready()
      modifies this, indexIter, dataIter
      ensures On(pos) && pos == 0
      ensures dataIter == old(dataIter) || dataIter == null || fresh(dataIter)
    {
      hide Table.Sound, HandleBytes, BlockIter.Block, Opened;
      Counted(table);
      indexIter.SeekToFirst();
      InitDataBlock(0);
      if dataIter != null {
        dataIter.SeekToFirst();
      }
      SkipEmptyDataBlocksForward(0, 0);
    }

    method SeekToLast()
      requires Ready()
      modifies this, indexIter, dataIter
      ensures On(pos) && pos == if Entries() == [] then 0 else |Entries()| - 1
      ensures dataIter == old(dataIter) || dataIter == null || fresh(dataIter)
    {
      hide Table.Sound, HandleBytes, BlockIter.Block, Opened;
      Counted(table);
      ghost var b: nat := if |table.t.parts| == 0 then 0 else |table.t.parts| - 1;
      indexIter.SeekToLast();
      InitDataBlock(b);
      if dataIter != null {
        dataIter.SeekToLast();
        LastOf(b);
      }
      SkipEmptyDataBlocksBackward(b, |table.t.es| - 1);
    }

    method Next()
      requires On(pos) && pos < |Entries()|
      modifies this, indexIter, dataIter
      ensures On(pos) && pos == old(pos) + 1
      ensures dataIter == old(dataIter) || dataIter == null || fresh(dataIter)
    {
      hide Table.Sound, HandleBytes, BlockIter.Block, Opened;
      Counted(table);
      Entered(pos);
      ghost var b := held;
      ghost var j := pos - StartOf(table.t.ends, b);
      dataIter.Next(j);
      SkipEmptyDataBlocksForward(b, j + 1);
    }

    // Before the first entry there is none.
    method Prev()
      requires On(pos) && pos < |Entries()|
      modifies this, indexIter, dataIter
      ensures On(pos) && pos == if old(pos) == 0 then |Entries()| else old(pos) - 1
      ensures dataIter == old(dataIter) || dataIter == null || fresh(dataIter)
    {
      hide Table.Sound, HandleBytes, BlockIter.Block, Opened;
      Counted(table);
      Entered(pos);
      ghost var b := held;
      ghost var p: int := pos - 1;
      dataIter.Prev(pos - StartOf(table.t.ends, b));
      SkipEmptyDataBlocksBackward(b, p);
    }

    lemma LastOf(b: nat)
      requires table.Sound() && b < |table.t.parts|
      ensures |table.t.parts| == |table.t.ends| && StartOf(table.t.ends, b) < table.t.ends[b] <= |table.t.es|
      ensures |table.t.parts[b].plan.es| == table.t.ends[b] - StartOf(table.t.ends, b) > 0
    {
      hide Table.Sound;
      table.SliceFacts(b);
    }

    lemma SameBlock(a: nat, b: nat)
      requires table.Sound() && a < |table.t.parts| && b < |table.t.parts|
      requires HandleBytes(HandleOf(table.t.parts[a])) == HandleBytes(HandleOf(table.t.parts[b]))
      ensures a == b
    {
      hide Table.Sound, HandleBytes, ReadHandle, SliceAt, Written;
      table.PartFacts(a);
      table.PartFacts(b);
      if a < b {
        EndsAscend(table.t.es, table.t.parts, table.t.ends, a, b);
      } else if b < a {
        EndsAscend(table.t.es, table.t.parts, table.t.ends, b, a);
      }
    }
  }

  // Table::NewIterator.
  method NewTableIterator(table: Table) returns (it: TwoLevelIterator)
    requires table.Sound()
    ensures fresh(it) && fresh(it.indexIter) && it.dataIter == null && it.table == table && it.Ready()
  {
    hide Table.Sound, BlockIter.Block;
    var index := table.IndexIterator();
    it := new TwoLevelIterator(table, index);
  }

  lemma Counted(table: Table)
    requires table.Sound()
    ensures |table.t.parts| == |table.t.ends| == |table.t.index.plan.es|
    ensures StartOf(table.t.ends, |table.t.ends|) == |table.t.es|
  {
    hide FilterLaid, Footed, FilterOf, Written, AllWritten, Slices, HandleBytes, Separates, Increasing, MetaEntries;
  }
}
