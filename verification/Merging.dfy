// Merging sorted iterators into one that can turn around (table/merger.cc): where each of them stands
// around a place in what they had together when they were opened.

module Merging {
  import opened Keys

  datatype Direction = Forward | Reverse

  // A run splits where the merge splits at index a: what it has of the merge lies before the split
  // if it is before the position, and after it if not.  Entries that came later may lie anywhere.
  ghost predicate AtSplit(run: seq<Entry>, pos: nat, merged: seq<Entry>, a: nat)
    requires a <= |merged|
  {
    && pos <= |run|
    && (forall j | 0 <= j < pos && run[j] in merged :: run[j] in merged[..a])
    && (forall j | pos <= j < |run| && run[j] in merged :: run[j] in merged[a..])
  }

  // The last entry before a position that is not valid does not exist.
  function Before(run: seq<Entry>, pos: nat): nat
    requires pos <= |run|
  {
    if pos == |run| then 0 else pos + 1
  }

  // The same with the position at the last entry before the split.
  ghost predicate BelowSplit(run: seq<Entry>, pos: nat, merged: seq<Entry>, a: nat)
    requires a <= |merged|
  {
    pos <= |run| && AtSplit(run, Before(run, pos), merged, a)
  }

  lemma SplitOrder(merged: seq<Entry>, a: nat, x: Entry, y: Entry)
    requires Sorted(merged) && a <= |merged| && x in merged && y in merged
    ensures x in merged[..a] && y in merged[a..] ==> Less(x.key, y.key)
    ensures x in merged[..a] <==> x !in merged[a..]
  {
    var i :| 0 <= i < |merged| && merged[i] == x;
    var j :| 0 <= j < |merged| && merged[j] == y;
    assert i < a ==> merged[..a][i] == x;
    assert i >= a ==> merged[a..][i - a] == x;
    if x in merged[a..] {
      var k :| 0 <= k < |merged| - a && merged[a..][k] == x;
      assert merged[a + k] == x;
    }
  }

  // Where the keys up to a bound end, the merge splits.
  lemma SplitsAtKey(merged: seq<Entry>, a: nat, x: Entry, i: nat)
    requires Sorted(merged) && a <= |merged| && i < |merged| && merged[i] == x
    ensures x in merged[..a] <==> i < a
    ensures x in merged[a..] <==> a <= i
  {
    assert i < a ==> merged[..a][i] == x;
    assert a <= i ==> merged[a..][i - a] == x;
    SplitOrder(merged, a, x, x);
  }

  lemma IndexOf(merged: seq<Entry>, x: Entry) returns (i: nat)
    requires x in merged
    ensures i < |merged| && merged[i] == x
  {
    i :| 0 <= i < |merged| && merged[i] == x;
  }

  // Two runs in order, each by itself and both against a key.
  lemma Ordered(s: seq<Entry>, i: nat, j: nat)
    requires Sorted(s) && i < |s| && j < |s|
    ensures i < j ==> Less(s[i].key, s[j].key)
    ensures Less(s[i].key, s[j].key) ==> i < j
  {
  }

  // ---- One run, after one step. ----

  // A seek splits the run and the merge at the same key.
  lemma SeekSplits(run: seq<Entry>, merged: seq<Entry>, k: InternalKey)
    requires Sorted(run) && Sorted(merged)
    ensures AtSplit(run, LowerBound(run, k), merged, LowerBound(merged, k))
  {
    hide Sorted, Less;
    var p, a := LowerBound(run, k), LowerBound(merged, k);
    forall j | 0 <= j < |run| && run[j] in merged
      ensures if j < p then run[j] in merged[..a] else run[j] in merged[a..]
    {
      var i := IndexOf(merged, run[j]);
      SplitsAtKey(merged, a, run[j], i);
      BoundPlaces(run, k, j);
      BoundPlaces(merged, k, i);
    }
  }

  lemma BoundPlaces(s: seq<Entry>, k: InternalKey, i: nat)
    requires Sorted(s) && i < |s|
    ensures i < LowerBound(s, k) <==> Less(s[i].key, k)
  {
  }

  lemma OldEntry(run: seq<Entry>, run': seq<Entry>, merged: seq<Entry>, coming: set<Entry>, j: nat)
    requires Elements(run') <= Elements(run) + coming && coming !! Elements(merged) && j < |run'| && run'[j] in merged
    ensures run'[j] in run
  {
    assert run'[j] in Elements(run');
    assert run'[j] in Elements(merged);
  }

  // What comes later does not change where an entry splits the run.
  lemma StillSplits(run: seq<Entry>, pos: nat, run': seq<Entry>, pos': nat, merged: seq<Entry>, a: nat, coming: set<Entry>)
    requires Sorted(run) && Sorted(run') && a <= |merged| && AtSplit(run, pos, merged, a)
    requires pos < |run| && pos' < |run'| && run'[pos'] == run[pos]
    requires Elements(run') <= Elements(run) + coming && coming !! Elements(merged)
    ensures AtSplit(run', pos', merged, a)
  {
    hide Sorted, Less;
    forall j | 0 <= j < |run'| && run'[j] in merged
      ensures if j < pos' then run'[j] in merged[..a] else run'[j] in merged[a..]
    {
      OldEntry(run, run', merged, coming, j);
      var i := IndexOf(run, run'[j]);
      Ordered(run', j, pos');
      Ordered(run', pos', j);
      Ordered(run, i, pos);
      Ordered(run, pos, i);
    }
  }

  lemma AllBefore(run: seq<Entry>, run': seq<Entry>, merged: seq<Entry>, a: nat, coming: set<Entry>)
    requires a <= |merged| && AtSplit(run, |run|, merged, a)
    requires Elements(run') <= Elements(run) + coming && coming !! Elements(merged)
    ensures AtSplit(run', |run'|, merged, a)
  {
    forall j | 0 <= j < |run'| && run'[j] in merged
      ensures run'[j] in merged[..a]
    {
      OldEntry(run, run', merged, coming, j);
      var i := IndexOf(run, run'[j]);
    }
  }

  // Past an entry of the merge, run and merge split behind it.
  lemma SplitsBehind(run: seq<Entry>, pos: nat, merged: seq<Entry>, a: nat)
    requires Sorted(run) && Sorted(merged) && a <= |merged| && AtSplit(run, pos, merged, a) && pos < |run|
    requires run[pos] in merged ==> a < |merged| && run[pos] == merged[a]
    ensures AtSplit(run, pos + 1, merged, if run[pos] in merged then a + 1 else a)
  {
    hide Sorted, Less;
    var b := if run[pos] in merged then a + 1 else a;
    forall j | 0 <= j < |run| && run[j] in merged
      ensures if j < pos + 1 then run[j] in merged[..b] else run[j] in merged[b..]
    {
      var m := IndexOf(merged, run[j]);
      SplitsAtKey(merged, a, run[j], m);
      SplitsAtKey(merged, b, run[j], m);
      Ordered(run, pos, j);
      if b == a + 1 {
        Ordered(merged, a, m);
      }
    }
  }

  lemma SplitsBefore(run: seq<Entry>, pos: nat, merged: seq<Entry>, a: nat)
    requires Sorted(run) && Sorted(merged) && a <= |merged| && pos < |run| && AtSplit(run, pos + 1, merged, a)
    requires run[pos] in merged ==> a > 0 && run[pos] == merged[a - 1]
    ensures AtSplit(run, pos, merged, if run[pos] in merged then a - 1 else a)
  {
    hide Sorted, Less;
    var b := if run[pos] in merged then a - 1 else a;
    forall j | 0 <= j < |run| && run[j] in merged
      ensures if j < pos then run[j] in merged[..b] else run[j] in merged[b..]
    {
      var m := IndexOf(merged, run[j]);
      SplitsAtKey(merged, a, run[j], m);
      SplitsAtKey(merged, b, run[j], m);
      Ordered(run, j, pos);
      if b == a - 1 {
        Ordered(merged, m, a - 1);
      }
    }
  }

  // A run that does not have the entry splits in front of it and behind it.
  lemma SplitsAround(run: seq<Entry>, pos: nat, merged: seq<Entry>, a: nat)
    requires Sorted(merged) && a < |merged| && merged[a] !in run
    ensures AtSplit(run, pos, merged, a) <==> AtSplit(run, pos, merged, a + 1)
  {
    hide Sorted, Less;
    forall j | 0 <= j < |run| && run[j] in merged
      ensures run[j] in merged[..a] <==> run[j] in merged[..a + 1]
      ensures run[j] in merged[a..] <==> run[j] in merged[a + 1..]
    {
      var m := IndexOf(merged, run[j]);
      SplitsAtKey(merged, a, run[j], m);
      SplitsAtKey(merged, a + 1, run[j], m);
    }
  }

  lemma FirstSplits(run: seq<Entry>, merged: seq<Entry>)
    ensures AtSplit(run, 0, merged, 0) && AtSplit(run, |run|, merged, |merged|)
  {
    assert merged[0..] == merged && merged[..|merged|] == merged;
  }
}
