// Iterators over sorted entries: a cursor over one run, and the merging iterator
// over many (table/merger.cc).

module Iterators {
  import opened Keys

  // ---- Sorted insertion and merging, as values. ----

  function InsertSorted(s: seq<Entry>, e: Entry): seq<Entry> {
    var i := LowerBound(s, e.key);
    s[..i] + [e] + s[i..]
  }

  lemma BoundSplits(s: seq<Entry>, e: Entry)
    requires Sorted(s) && forall o | o in s :: o.key != e.key
    ensures forall j | LowerBound(s, e.key) <= j < |s| :: Less(e.key, s[j].key)
  {
    var k := LowerBound(s, e.key);
    forall j | k <= j < |s|
      ensures Less(e.key, s[j].key)
    {
      assert s[j] in s && (k == j || Less(s[k].key, s[j].key));
    }
  }

  lemma SortedAround(a: seq<Entry>, e: Entry, b: seq<Entry>)
    requires Sorted(a + b)
    requires (forall x | x in a :: Less(x.key, e.key)) && (forall x | x in b :: Less(e.key, x.key))
    ensures Sorted(a + [e] + b)
  {
    hide Less;
    var s, r := a + b, a + [e] + b;
    forall i, j | 0 <= i < j < |r|
      ensures Less(r[i].key, r[j].key)
    {
      if j < |a| {
        assert r[i] == s[i] && r[j] == s[j];
      } else if j == |a| {
        assert r[i] == a[i];
      } else if i == |a| {
        assert r[j] == b[j - |a| - 1];
      } else {
        assert r[j] == s[j - 1] && r[i] == if i < |a| then s[i] else s[i - 1];
      }
    }
  }

  lemma InsertSortedHolds(s: seq<Entry>, e: Entry)
    requires Sorted(s) && forall o | o in s :: o.key != e.key
    ensures Sorted(InsertSorted(s, e)) && Elements(InsertSorted(s, e)) == Elements(s) + {e}
  {
    hide Less, Sorted;
    BoundSplits(s, e);
    var k := LowerBound(s, e.key);
    assert s == s[..k] + s[k..];
    SortedAround(s[..k], e, s[k..]);
  }

  ghost function MergeTwo(a: seq<Entry>, b: seq<Entry>): seq<Entry> {
    if b == [] then a else InsertSorted(MergeTwo(a, b[..|b| - 1]), b[|b| - 1])
  }

  ghost function MergeAll(runs: seq<seq<Entry>>): seq<Entry> {
    if runs == [] then [] else MergeTwo(MergeAll(runs[..|runs| - 1]), runs[|runs| - 1])
  }

  ghost function UnionOf(runs: seq<seq<Entry>>): set<Entry> {
    set i, e | 0 <= i < |runs| && e in runs[i] :: e
  }

  // Internal keys are unique: no key occurs in two of the runs.
  ghost predicate KeysDiffer(runs: seq<seq<Entry>>) {
    forall i, j, x, y | 0 <= i < j < |runs| && x in runs[i] && y in runs[j] :: x.key != y.key
  }

  ghost predicate AllSorted(runs: seq<seq<Entry>>) {
    forall i | 0 <= i < |runs| :: Sorted(runs[i])
  }

  lemma LastApart(b: seq<Entry>)
    requires Sorted(b) && b != []
    ensures Sorted(b[..|b| - 1]) && Elements(b) == Elements(b[..|b| - 1]) + {b[|b| - 1]}
    ensures forall x | x in b[..|b| - 1] :: x.key != b[|b| - 1].key
  {
    var n := |b| - 1;
    forall x | x in b[..n]
      ensures x.key != b[n].key
    {
      var i :| 0 <= i < n && b[i] == x;
      assert Less(b[i].key, b[n].key);
    }
    assert b == b[..n] + [b[n]];
  }

  lemma {:induction false} MergeTwoHolds(a: seq<Entry>, b: seq<Entry>)
    requires Sorted(a) && Sorted(b) && forall x, y | x in a && y in b :: x.key != y.key
    ensures Sorted(MergeTwo(a, b)) && Elements(MergeTwo(a, b)) == Elements(a) + Elements(b)
  {
    hide Sorted, Less, InsertSorted;
    if b != [] {
      var n := |b| - 1;
      LastApart(b);
      MergeTwoHolds(a, b[..n]);
      var m := MergeTwo(a, b[..n]);
      forall x | x in m
        ensures x.key != b[n].key
      {
        assert x in Elements(m);
        assert b[n] in b;
      }
      InsertSortedHolds(m, b[n]);
    }
  }

  lemma {:induction false} MergeAllHolds(runs: seq<seq<Entry>>)
    requires AllSorted(runs) && KeysDiffer(runs)
    ensures Sorted(MergeAll(runs)) && Elements(MergeAll(runs)) == UnionOf(runs)
  {
    if runs != [] {
      var n := |runs| - 1;
      var init := runs[..n];
      MergeAllHolds(init);
      forall x, y | x in MergeAll(init) && y in runs[n]
        ensures x.key != y.key
      {
        assert x in UnionOf(init);
        var i :| 0 <= i < n && x in init[i];
        assert x in runs[i];
      }
      MergeTwoHolds(MergeAll(init), runs[n]);
      UnionSnoc(runs);
    }
  }

  lemma UnionSnoc(runs: seq<seq<Entry>>)
    requires runs != []
    ensures UnionOf(runs) == UnionOf(runs[..|runs| - 1]) + Elements(runs[|runs| - 1])
  {
    var n := |runs| - 1;
    forall e | e in UnionOf(runs)
      ensures e in UnionOf(runs[..n]) + Elements(runs[n])
    {
      var i :| 0 <= i < |runs| && e in runs[i];
      assert i < n ==> e in runs[..n][i];
    }
    forall e | e in UnionOf(runs[..n])
      ensures e in UnionOf(runs)
    {
      var i :| 0 <= i < n && e in runs[..n][i];
      assert e in runs[i];
    }
  }

  // ---- A cursor over one sorted run. ----

  // The keys of the entries differ, from one another and from those of a run.
  ghost predicate NewTo(run: seq<Entry>, coming: seq<Entry>) {
    && (forall x, y | x in run && y in coming :: x.key != y.key)
    && (forall i, j | 0 <= i < j < |coming| :: coming[i].key != coming[j].key)
  }

  lemma NextIsNew(run: seq<Entry>, coming: seq<Entry>)
    requires NewTo(run, coming) && coming != []
    ensures forall x | x in run :: x.key != coming[0].key
    ensures Elements(coming) == {coming[0]} + Elements(coming[1..])
    ensures NewTo(InsertSorted(run, coming[0]), coming[1..])
  {
    hide LowerBound;
    var e, i := coming[0], LowerBound(run, coming[0].key);
    assert coming == [e] + coming[1..];
    assert e in coming && run == run[..i] + run[i..];
    forall x, y | x in InsertSorted(run, e) && y in coming[1..]
      ensures x.key != y.key
    {
      var j :| 0 <= j < |coming| - 1 && coming[1..][j] == y;
      assert coming[j + 1] == y;
    }
  }

  // Where the entry at a place is after the insertion.
  lemma Shifted(run: seq<Entry>, e: Entry, pos: nat)
    requires pos <= |run|
    ensures var i, r := LowerBound(run, e.key), InsertSorted(run, e);
      |r| == |run| + 1 && (pos < |run| ==> r[if i <= pos then pos + 1 else pos] == run[pos])
  {
    hide LowerBound;
  }

  // Index |run| stands for every position that is not valid: past the end, and
  // also before the beginning.  The run of a memtable grows while the cursor is open:
  // before each step of the cursor some of what is coming is inserted.
  class Cursor {
    var run: seq<Entry>
    var pos: nat
    var coming: seq<Entry>
    var arrivals: seq<nat>  // how many are inserted before each of the next steps

    ghost predicate Ok()
      reads this
    {
      Sorted(run) && pos <= |run| && NewTo(run, coming)
    }

    // What the run has or will have.
    ghost function Whole(): set<Entry>
      reads this
    {
      Elements(run) + Elements(coming)
    }

    // How many steps forwards, or backwards, are left at most.
    ghost function Ahead(): nat
      reads this
    {
      (if pos < |run| then |run| - pos else 0) + |coming|
    }

    ghost function Behind(): nat
      reads this
    {
      (if pos < |run| then pos + 1 else 0) + |coming|
    }

    // Others have written; the cursor is where it was.
    twostate predicate Grown()
      reads this
    {
      && Ok() && Whole() == old(Whole()) && Elements(old(run)) <= Elements(run) && Elements(coming) <= Elements(old(coming))
      && (old(coming) == [] ==> run == old(run))
    }

    constructor (run: seq<Entry>, coming: seq<Entry>, arrivals: seq<nat>)
      requires Sorted(run) && NewTo(run, coming)
      ensures Ok() && this.run == run && pos == |run| && this.coming == coming
    {
      this.run, this.coming, this.arrivals := run, coming, arrivals;
      pos := |run|;
    }

    predicate Valid()
      reads this
    {
      pos < |run|
    }

    method InsertNext()
      requires Ok() && coming != []
      modifies `run, `pos, `coming
      ensures Grown() && |coming| == |old(coming)| - 1
      ensures if old(pos) < |old(run)| then pos < |run| && run[pos] == old(run)[old(pos)] else pos == |run|
      ensures Ahead() <= old(Ahead()) && Behind() <= old(Behind())
    {
      hide Sorted, LowerBound, Less;
      var e := coming[0];
      var i := LowerBound(run, e.key);
      InsertSortedHolds(run, e);
      NextIsNew(run, coming);
      Shifted(run, e, pos);
      if pos == |run| || i <= pos {
        pos := pos + 1;
      }
      run := InsertSorted(run, e);
      coming := coming[1..];
    }

    method Arrive()
      requires Ok()
      modifies this
      ensures Grown()
      ensures if old(pos) < |old(run)| then pos < |run| && run[pos] == old(run)[old(pos)] else pos == |run|
      ensures Ahead() <= old(Ahead()) && Behind() <= old(Behind())
    {
      var n := if arrivals == [] then 0 else arrivals[0];
      arrivals := if arrivals == [] then [] else arrivals[1..];
      while n > 0 && coming != []
        invariant Grown()
        invariant if old(pos) < |old(run)| then pos < |run| && run[pos] == old(run)[old(pos)] else pos == |run|
        invariant Ahead() <= old(Ahead()) && Behind() <= old(Behind())
        decreases |coming|
      {
        InsertNext();
        n := n - 1;
      }
    }

    method SeekToFirst()
      requires Ok()
      modifies this
      ensures Grown() && pos == 0
    {
      Arrive();
      pos := 0;
    }

    method SeekToLast()
      requires Ok()
      modifies this
      ensures Grown() && pos == if run == [] then 0 else |run| - 1
    {
      Arrive();
      pos := if run == [] then 0 else |run| - 1;
    }

    method Seek(k: InternalKey)
      requires Ok()
      modifies this
      ensures Grown() && pos == LowerBound(run, k)
    {
      Arrive();
      pos := LowerBound(run, k);
    }

    // The step is from the entry the cursor was on, wherever that is by now.
    method Next()
      requires Ok() && Valid()
      modifies this
      ensures Grown() && 0 < pos <= |run| && run[pos - 1] == old(run)[old(pos)] && Ahead() < old(Ahead())
    {
      Arrive();
      pos := pos + 1;
    }

    method Prev()
      requires Ok() && Valid()
      modifies this
      ensures Grown() && Behind() < old(Behind())
      ensures run != []
      ensures if pos == |run| then run[0] == old(run)[old(pos)] else pos + 1 < |run| && run[pos + 1] == old(run)[old(pos)]
    {
      Arrive();
      pos := if pos == 0 then |run| else pos - 1;
    }
  }
}
