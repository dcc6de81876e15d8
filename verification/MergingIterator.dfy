// The merging iterator: many cursors that behave as one (table/merger.cc).

module MergingIterators {
  import opened Keys
  import opened Iterators
  import opened Merging

  ghost function WholeOf(children: seq<Cursor>): set<Entry>
    reads children
  {
    set i, e | 0 <= i < |children| && e in children[i].Whole() :: e
  }

  class MergingIterator {
    const children: seq<Cursor>
    var current: int                // index of the current child, -1 for none
    var direction: Direction
    ghost const merged: seq<Entry>  // the sorted union of what the children had when they were opened
    ghost const whole: set<Entry>   // that, and what they will have got in the end
    ghost var cut: nat              // forwards, what comes at or after it in the merge is still to come;
                                    // backwards, what comes before it

    // ---- The children, and what they have. ----

    ghost predicate Child(i: nat)
      requires i < |children|
      reads children[i]
    {
      && children[i].Ok() && children[i].Whole() <= whole
      && Elements(children[i].coming) !! Elements(merged)
    }

    // Every entry of the merge is in just one child.
    ghost predicate Shared()
      reads children
    {
      && (forall x | x in merged :: exists i :: 0 <= i < |children| && x in children[i].run)
      && (forall i, j, x | 0 <= i < j < |children| && x in merged :: !(x in children[i].run && x in children[j].run))
    }

    ghost predicate Held()
      reads children
    {
      && (forall i, j | 0 <= i < j < |children| :: children[i] != children[j])
      && Sorted(merged) && Elements(merged) <= whole && Shared()
      && forall i | 0 <= i < |children| :: Child(i)
    }

    // Where child i stands around a cut.
    ghost predicate Stands(i: nat, d: Direction, a: nat)
      requires i < |children| && a <= |merged|
      reads children[i]
    {
      if d == Forward then AtSplit(children[i].run, children[i].pos, merged, a)
      else BelowSplit(children[i].run, children[i].pos, merged, a)
    }

    ghost predicate AllStand(d: Direction, a: nat)
      requires a <= |merged|
      reads children
    {
      forall i | 0 <= i < |children| :: Stands(i, d, a)
    }

    // Child c has the least, or the greatest, entry that the children from..to are on.
    ghost predicate Head(d: Direction, c: int, from: nat, to: nat)
      requires from <= to <= |children|
      reads children
    {
      && (c == -1 || (from <= c < to && children[c].Valid()))
      && (c == -1 ==> forall i | from <= i < to :: !children[i].Valid())
      && (c >= 0 ==> forall i | from <= i < to && children[i].Valid() ::
            !(if d == Forward then Less(children[i].run[children[i].pos].key, children[c].run[children[c].pos].key)
              else Less(children[c].run[children[c].pos].key, children[i].run[children[i].pos].key)))
    }

    ghost predicate Ok()
      reads this, children
      ensures Ok() ==> cut <= |merged| && Sorted(merged)
    {
      Held() && cut <= |merged| && AllStand(direction, cut) && Head(direction, current, 0, |children|)
    }

    // None of what will come to one child is, or has the key of, what is in another.
    constructor (children: seq<Cursor>, ghost runs: seq<seq<Entry>>)
      requires |runs| == |children| && AllSorted(runs) && KeysDiffer(runs)
      requires forall i, j | 0 <= i < j < |children| :: children[i] != children[j]
      requires forall i | 0 <= i < |children| :: children[i].Ok() && children[i].run == runs[i] && children[i].pos == |runs[i]|
      requires forall i | 0 <= i < |children| :: Elements(children[i].coming) !! UnionOf(runs)
      ensures Ok() && !Valid()
      ensures this.children == children && merged == MergeAll(runs)
      ensures forall e | e in whole :: e in merged || exists i :: 0 <= i < |children| && e in children[i].coming
    {
      hide KeysDiffer, MergeAll, Sorted;
      MergeAllHolds(runs);
      this.children, merged := children, MergeAll(runs);
      whole := WholeOf(children);
      current, direction := -1, Forward;
      cut := |MergeAll(runs)|;
      new;
      JustOpened(runs);
    }

    lemma JustOpened(runs: seq<seq<Entry>>)
      requires |runs| == |children| && AllSorted(runs) && KeysDiffer(runs)
      requires forall i, j | 0 <= i < j < |children| :: children[i] != children[j]
      requires forall i | 0 <= i < |children| :: children[i].Ok() && children[i].run == runs[i] && children[i].pos == |runs[i]|
      requires forall i | 0 <= i < |children| :: Elements(children[i].coming) !! UnionOf(runs)
      requires Sorted(merged) && Elements(merged) == UnionOf(runs) && cut == |merged| && current == -1 && direction == Forward
      requires whole == WholeOf(children)
      ensures Ok()
      ensures forall e | e in whole :: e in merged || exists i :: 0 <= i < |children| && e in children[i].coming
    {
      hide Sorted, AtSplit;
      forall x | x in merged
        ensures x in whole && exists i :: 0 <= i < |children| && x in children[i].run
      {
        assert x in UnionOf(runs);
        var i :| 0 <= i < |runs| && x in runs[i];
        assert x in children[i].run && x in children[i].Whole();
      }
      forall i: nat | i < |children|
        ensures Child(i) && Stands(i, Forward, |merged|)
      {
        FirstSplits(children[i].run, merged);
      }
      forall i, j, x | 0 <= i < j < |children| && x in merged
        ensures !(x in children[i].run && x in children[j].run)
      {
        assert x in runs[i] && x in runs[j] ==> x.key != x.key;
      }
      assert Shared();
      assert forall i | 0 <= i < |children| :: !children[i].Valid();
      forall e | e in whole && e !in merged
        ensures exists i :: 0 <= i < |children| && e in children[i].coming
      {
        var i :| 0 <= i < |children| && e in children[i].Whole();
        assert e in children[i].run ==> e in UnionOf(runs) && e in Elements(merged);
        assert e in children[i].coming;
      }
    }

    predicate Valid()
      reads this
    {
      current != -1
    }

    function Entry(): (e: Entry)
      requires Ok() && Valid()
      reads this, children
      ensures e in whole
    {
      ghost var c := children[current];
      assert Child(current) && c.run[c.pos] in Elements(c.run);
      children[current].run[children[current].pos]
    }

    // The entry it is on was there from the start.
    ghost predicate OnMerged()
      requires Ok() && Valid()
      reads this, children
    {
      Entry() in merged
    }

    lemma PlaceForward()
      requires Ok() && direction == Forward
      ensures Valid() && OnMerged() ==> cut < |merged| && Entry() == merged[cut]
      ensures !Valid() ==> cut == |merged|
    {
      hide Less, Sorted;
      if Valid() && OnMerged() {
        assert Child(current) && Stands(current, Forward, cut);
        var m := IndexOf(merged, Entry());
        SplitsAtKey(merged, cut, Entry(), m);
      }
      if cut < |merged| {
        var x := merged[cut];
        assert x in merged && Shared();
        var i :| 0 <= i < |children| && x in children[i].run;
        assert Child(i) && Stands(i, Forward, cut);
        var j := IndexOf(children[i].run, x);
        SplitsAtKey(merged, cut, x, cut);
        if Valid() && OnMerged() {
          var m := IndexOf(merged, Entry());
          NotBeyond(children[i].run, children[i].pos, j, merged, cut, m);
        }
      }
    }

    // Then it is the one next to the cut; and there is one as long as there is anything beyond the cut.
    lemma PlaceReverse()
      requires Ok() && direction == Reverse
      ensures Valid() && OnMerged() ==> cut > 0 && Entry() == merged[cut - 1]
      ensures !Valid() ==> cut == 0
    {
      hide Less, Sorted;
      if Valid() && OnMerged() {
        assert Child(current) && Stands(current, Reverse, cut);
        var m := IndexOf(merged, Entry());
        SplitsAtKey(merged, cut, Entry(), m);
      }
      if cut > 0 {
        var x := merged[cut - 1];
        assert x in merged && Shared();
        var i :| 0 <= i < |children| && x in children[i].run;
        assert Child(i) && Stands(i, Reverse, cut);
        var j := IndexOf(children[i].run, x);
        SplitsAtKey(merged, cut, x, cut - 1);
        if Valid() && OnMerged() {
          var m := IndexOf(merged, Entry());
          NotBefore(children[i].run, children[i].pos, j, merged, cut - 1, m);
        }
      }
    }

    // Backwards, all that is still to come is before the entry it is on.
    lemma StillBefore(a: nat)
      requires Ok() && Valid() && direction == Reverse && a < cut
      ensures !Less(Entry().key, merged[a].key)
    {
      hide Sorted;
      var x := merged[a];
      assert x in merged && Shared();
      var i :| 0 <= i < |children| && x in children[i].run;
      assert Child(i) && Stands(i, Reverse, cut);
      var j := IndexOf(children[i].run, x);
      SplitsAtKey(merged, cut, x, a);
      if j < children[i].pos {
        Ordered(children[i].run, j, children[i].pos);
      }
    }

    // ---- One child moves. ----

    // What a step of a child leaves of it, and of the others.
    twostate lemma StepHolds(i: nat)
      requires i < |children| && old(Held()) && children[i].Grown()
      requires forall j | 0 <= j < |children| && j != i :: unchanged(children[j])
      ensures Held()
    {
      hide Sorted;
      var run, run' := old(children[i].run), children[i].run;
      assert old(Child(i));
      forall x | x in merged && x in run'
        ensures x in run
      {
        assert x in Elements(run');
      }
      assert forall x | x in run :: x in Elements(run) && x in Elements(run');
      forall j: nat | j < |children|
        ensures Child(j)
      {
        assert old(Child(j));
      }
    }

    method ChildSeek(i: nat, k: InternalKey)
      requires Held() && i < |children|
      modifies children[i]
      ensures Held() && children[i].pos == LowerBound(children[i].run, k) && Stands(i, Forward, LowerBound(merged, k))
    {
      hide Sorted, Less, LowerBound, AtSplit;
      assert Child(i);
      children[i].Seek(k);
      StepHolds(i);
      assert Child(i);
      SeekSplits(children[i].run, merged, k);
    }

    method ChildSeekToFirst(i: nat)
      requires Held() && i < |children|
      modifies children[i]
      ensures Held() && Stands(i, Forward, 0)
    {
      assert Child(i);
      children[i].SeekToFirst();
      StepHolds(i);
      FirstSplits(children[i].run, merged);
    }

    // Its last entry is before the split if all its entries of the merge are.
    method ChildSeekToLast(i: nat, ghost a: nat)
      requires Held() && i < |children| && a <= |merged| && AtSplit(children[i].run, |children[i].run|, merged, a)
      modifies children[i]
      ensures Held() && Stands(i, Reverse, a)
    {
      hide Sorted;
      ghost var run, coming := children[i].run, Elements(children[i].coming);
      assert Child(i);
      children[i].SeekToLast();
      StepHolds(i);
      GrownWithin(i);
      AllBefore(run, children[i].run, merged, a, coming);
    }

    // One entry on, behind the entry it was on.
    method ChildNext(i: nat, ghost a: nat)
      requires Held() && i < |children| && a <= |merged| && Stands(i, Forward, a) && children[i].Valid()
      requires var e := children[i].run[children[i].pos]; e in merged ==> a < |merged| && e == merged[a]
      modifies children[i]
      ensures Held() && children[i].Ahead() < old(children[i].Ahead())
      ensures if old(children[i].run[children[i].pos] in merged) then a < |merged| && Stands(i, Forward, a + 1) else Stands(i, Forward, a)
    {
      hide Sorted, AtSplit;
      ghost var run, pos, coming := children[i].run, children[i].pos, Elements(children[i].coming);
      assert Child(i);
      children[i].Next();
      StepHolds(i);
      assert Child(i);
      GrownWithin(i);
      StillSplits(run, pos, children[i].run, children[i].pos - 1, merged, a, coming);
      SplitsBehind(children[i].run, children[i].pos - 1, merged, a);
    }

    // One entry back, in front of the entry it was on.
    method ChildPrev(i: nat, ghost a: nat)
      requires Held() && i < |children| && a <= |merged| && Stands(i, Forward, a) && children[i].Valid()
      modifies children[i]
      ensures Held() && children[i].Behind() < old(children[i].Behind()) && Stands(i, Reverse, a)
    {
      hide Sorted, AtSplit;
      ghost var run, pos, coming := children[i].run, children[i].pos, Elements(children[i].coming);
      assert Child(i);
      children[i].Prev();
      StepHolds(i);
      assert Child(i);
      GrownWithin(i);
      StillSplits(run, pos, children[i].run, Before(children[i].run, children[i].pos), merged, a, coming);
    }

    twostate lemma GrownWithin(i: nat)
      requires i < |children| && children[i].Grown()
      ensures Elements(children[i].run) <= old(Elements(children[i].run)) + old(Elements(children[i].coming))
    {
    }

    // ---- The least, or the greatest, of the children. ----

    method FindSmallest()
      requires Held()
      modifies `current
      ensures Head(Forward, current, 0, |children|)
    {
      hide Sorted, Less;
      current := -1;
      for i := 0 to |children|
        invariant Head(Forward, current, 0, i)
      {
        if children[i].Valid() {
          if current == -1 {
            current := i;
            SelfNotLess(children[i].run[children[i].pos].key);
          } else if Less(children[i].run[children[i].pos].key, children[current].run[children[current].pos].key) {
            LessAll(current, i);
            current := i;
          }
        }
      }
    }

    method FindLargest()
      requires Held()
      modifies `current
      ensures Head(Reverse, current, 0, |children|)
    {
      hide Sorted, Less;
      current := -1;
      var i := |children|;
      while i > 0
        invariant 0 <= i <= |children| && Head(Reverse, current, i, |children|)
      {
        i := i - 1;
        if children[i].Valid() {
          if current == -1 {
            current := i;
            SelfNotLess(children[i].run[children[i].pos].key);
          } else if Less(children[current].run[children[current].pos].key, children[i].run[children[i].pos].key) {
            MoreAll(i, current);
            current := i;
          }
        }
      }
    }

    lemma LessAll(c: nat, i: nat)
      requires c < i < |children| && children[c].Valid() && children[i].Valid() && Head(Forward, c, 0, i)
      requires Less(children[i].run[children[i].pos].key, children[c].run[children[c].pos].key)
      ensures Head(Forward, i, 0, i + 1)
    {
    }

    lemma MoreAll(i: nat, c: nat)
      requires i < c < |children| && children[c].Valid() && children[i].Valid() && Head(Reverse, c, i + 1, |children|)
      requires Less(children[c].run[children[c].pos].key, children[i].run[children[i].pos].key)
      ensures Head(Reverse, i, i, |children|)
    {
    }

    lemma SelfNotLess(k: InternalKey)
      ensures !Less(k, k)
    {
    }

    // ---- The steps of the iterator. ----

    method SeekToFirst()
      requires Ok()
      modifies this, children
      ensures Ok() && direction == Forward && cut == 0
    {
      hide Sorted, AtSplit, Head;
      for i := 0 to |children|
        invariant Held()
        invariant forall j: nat | j < i :: Stands(j, Forward, 0)
      {
        ChildSeekToFirst(i);
      }
      FindSmallest();
      direction, cut := Forward, 0;
    }

    method SeekToLast()
      requires Ok()
      modifies this, children
      ensures Ok() && direction == Reverse && cut == |merged|
    {
      hide Sorted, AtSplit, Head;
      for i := 0 to |children|
        invariant Held()
        invariant forall j: nat | j < i :: Stands(j, Reverse, |merged|)
      {
        FirstSplits(children[i].run, merged);
        ChildSeekToLast(i, |merged|);
      }
      FindLargest();
      direction, cut := Reverse, |merged|;
    }

    method Seek(target: InternalKey)
      requires Ok()
      modifies this, children
      ensures Ok() && direction == Forward && cut == LowerBound(merged, target)
    {
      hide Sorted, AtSplit, Head, LowerBound;
      for i := 0 to |children|
        invariant Held()
        invariant forall j: nat | j < i :: Stands(j, Forward, LowerBound(merged, target))
      {
        ChildSeek(i, target);
      }
      FindSmallest();
      direction, cut := Forward, LowerBound(merged, target);
    }

    // The key bounds the merge at its own entry, which is in no other child.
    lemma OneOwner(a: nat, i: nat)
      requires Held() && a < |merged| && i < |children| && current != i && 0 <= current < |children|
      requires merged[a] in children[current].run
      ensures LowerBound(merged, merged[a].key) == a && merged[a] !in children[i].run
      ensures Sorted(children[i].run)
    {
      assert merged[a] in merged && Child(i);
    }

    // Put another child just after the current key.
    method PutAfter(i: nat, key: InternalKey, ghost a: nat)
      requires Held() && i < |children| && 0 <= current < |children| && i != current && a < |merged|
      requires key == merged[a].key && merged[a] in children[current].run
      modifies children[i]
      ensures Held() && Stands(i, Forward, a + 1)
    {
      hide Sorted, AtSplit, Less, LowerBound;
      OneOwner(a, i);
      ChildSeek(i, key);
      OneOwner(a, i);
      SplitsAround(children[i].run, children[i].pos, merged, a);
      if children[i].Valid() && Compare(key, children[i].run[children[i].pos].key) == 0 {
        OtherWithKey(children[i].run[children[i].pos], a, i);
        ChildNext(i, a + 1);
      }
    }

    lemma OtherWithKey(e: Entry, a: nat, i: nat)
      requires Held() && a < |merged| && i < |children| && merged[a] !in children[i].run && e in children[i].run
      requires Compare(merged[a].key, e.key) == 0
      ensures e !in merged
    {
      if e in merged {
        var m := IndexOf(merged, e);
        Ordered(merged, m, a);
        Ordered(merged, a, m);
      }
    }

    // Put another child just before the current key.
    method PutBefore(i: nat, key: InternalKey, ghost a: nat)
      requires Held() && i < |children| && 0 <= current < |children| && i != current && a < |merged|
      requires key == merged[a].key && merged[a] in children[current].run
      modifies children[i]
      ensures Held() && Stands(i, Reverse, a)
    {
      hide Sorted, AtSplit, Less, LowerBound;
      OneOwner(a, i);
      ChildSeek(i, key);
      if children[i].Valid() {
        // What the child found is behind the key; what it looks for is the entry before that, if
        // nothing has been inserted in between.
        ChildPrev(i, a);
      } else {
        assert children[i].pos == |children[i].run| by {
          assert Child(i);
        }
        ChildSeekToLast(i, a);
      }
    }

    // How many steps forwards, or backwards, are left at most.
    ghost function Ahead(): nat
      reads children
    {
      Sum(seq(|children|, i requires 0 <= i < |children| reads children => children[i].Ahead()))
    }

    ghost function Behind(): nat
      reads children
    {
      Sum(seq(|children|, i requires 0 <= i < |children| reads children => children[i].Behind()))
    }

    // All others stand around an entry of the current child as they stand behind it.
    lemma OthersAround(a: nat, i: nat)
      requires Held() && a < |merged| && i < |children| && current != i && 0 <= current < |children|
      requires merged[a] in children[current].run
      ensures Stands(i, Forward, a) <==> Stands(i, Forward, a + 1)
      ensures Stands(i, Reverse, a) <==> Stands(i, Reverse, a + 1)
    {
      hide Sorted, AtSplit;
      OneOwner(a, i);
      SplitsAround(children[i].run, children[i].pos, merged, a);
      if children[i].pos <= |children[i].run| {
        SplitsAround(children[i].run, Before(children[i].run, children[i].pos), merged, a);
      }
    }

    // Turning round: every other child is put after the current key, and the current one goes on.
    method TurnForward()
      requires Ok() && Valid() && direction == Reverse && OnMerged()
      modifies children
      ensures Held() && AllStand(Forward, cut)
    {
      hide Sorted, AtSplit, Less;
      PlaceReverse();
      ghost var e := Entry();
      var key := Entry().key;
      for i := 0 to |children|
        invariant Held() && children[current].Valid() && children[current].run[children[current].pos] == e
        invariant Stands(current, Reverse, cut)
        invariant forall j: nat | j < i && j != current :: Stands(j, Forward, cut)
      {
        if i != current {
          PutAfter(i, key, cut - 1);
        }
      }
      assert Child(current);
      SplitsBefore(children[current].run, children[current].pos, merged, cut);
      ChildNext(current, cut - 1);
    }

    method TurnBack()
      requires Ok() && Valid() && direction == Forward && OnMerged()
      modifies children
      ensures Held() && AllStand(Reverse, cut)
    {
      hide Sorted, AtSplit, Less;
      PlaceForward();
      ghost var e := Entry();
      var key := Entry().key;
      for i := 0 to |children|
        invariant Held() && children[current].Valid() && children[current].run[children[current].pos] == e
        invariant Stands(current, Forward, cut)
        invariant forall j: nat | j < i && j != current :: Stands(j, Reverse, cut)
      {
        if i != current {
          PutBefore(i, key, cut);
        }
      }
      ChildPrev(current, cut);
    }

    // One entry on; an entry that came later may be skipped, or stood on, an entry of the merge is not.
    method Next()
      requires Ok() && Valid() && (direction == Reverse ==> OnMerged())
      modifies this, children
      ensures Ok() && direction == Forward
      ensures cut == old(if direction == Forward && OnMerged() then cut + 1 else cut)
      ensures old(direction) == Forward ==> Ahead() < old(Ahead())
    {
      hide Sorted, AtSplit, Less, Head;
      if direction != Forward {
        TurnForward();
        direction := Forward;
      } else {
        Advance();
      }
      FindSmallest();
    }

    // Where the cut is to go, all but the current child stand around it already.
    lemma BeforeAdvance(b: nat)
      requires Ok() && Valid() && direction == Forward && b == if OnMerged() then cut + 1 else cut
      ensures b <= |merged| && Stands(current, Forward, cut) && (OnMerged() ==> cut < |merged| && Entry() == merged[cut])
      ensures forall i | 0 <= i < |children| && i != current :: Stands(i, Forward, b)
    {
      hide Sorted, AtSplit, Less, MergingIterator.Shared;
      PlaceForward();
      assert Stands(current, Forward, cut) && Child(current);
      forall i | 0 <= i < |children| && i != current
        ensures Stands(i, Forward, b)
      {
        assert Stands(i, Forward, cut);
        if OnMerged() {
          OthersAround(cut, i);
        }
      }
    }

    method Advance()
      requires Ok() && Valid() && direction == Forward
      modifies `cut, children
      ensures Held() && cut == old(if OnMerged() then cut + 1 else cut) && cut <= |merged| && AllStand(Forward, cut)
      ensures Ahead() < old(Ahead())
    {
      hide Sorted, AtSplit, Less, MergingIterator.Shared, MergingIterator.Child;
      ghost var b := if OnMerged() then cut + 1 else cut;
      BeforeAdvance(b);
      ghost var before := seq(|children|, i requires 0 <= i < |children| reads children => children[i].Ahead());
      ChildNext(current, cut);
      ghost var after := seq(|children|, i requires 0 <= i < |children| reads children => children[i].Ahead());
      OneLess(before, after, current);
      cut := b;
    }

    method Prev()
      requires Ok() && Valid() && (direction == Forward ==> OnMerged())
      modifies this, children
      ensures Ok() && direction == Reverse
      ensures cut == old(if direction == Reverse && OnMerged() then cut - 1 else cut)
      ensures old(direction) == Reverse ==> Behind() < old(Behind())
    {
      hide Sorted, AtSplit, Less, Head;
      if direction != Reverse {
        TurnBack();
        direction := Reverse;
      } else {
        Retreat();
      }
      FindLargest();
    }

    lemma BeforeRetreat(a: nat)
      requires Ok() && Valid() && direction == Reverse && (OnMerged() ==> cut > 0) && a == if OnMerged() then cut - 1 else cut
      ensures Stands(current, Forward, a)
      ensures forall i | 0 <= i < |children| && i != current :: Stands(i, Reverse, a)
    {
      hide Sorted, AtSplit, Less, MergingIterator.Shared;
      PlaceReverse();
      assert Stands(current, Reverse, cut) && Child(current);
      SplitsBefore(children[current].run, children[current].pos, merged, cut);
      forall i | 0 <= i < |children| && i != current
        ensures Stands(i, Reverse, a)
      {
        assert Stands(i, Reverse, cut);
        if OnMerged() {
          OthersAround(a, i);
        }
      }
    }

    method Retreat()
      requires Ok() && Valid() && direction == Reverse
      modifies `cut, children
      ensures Held() && cut == old(if OnMerged() then cut - 1 else cut) && cut <= |merged| && AllStand(Reverse, cut)
      ensures Behind() < old(Behind())
    {
      hide Sorted, AtSplit, Less, MergingIterator.Shared, MergingIterator.Child;
      PlaceReverse();
      ghost var a := if OnMerged() then cut - 1 else cut;
      BeforeRetreat(a);
      ghost var before := seq(|children|, i requires 0 <= i < |children| reads children => children[i].Behind());
      ChildPrev(current, a);
      ghost var after := seq(|children|, i requires 0 <= i < |children| reads children => children[i].Behind());
      OneLess(before, after, current);
      cut := a;
    }
  }

  ghost function Sum(s: seq<nat>): nat {
    if s == [] then 0 else Sum(s[..|s| - 1]) + s[|s| - 1]
  }

  lemma {:induction false} OneLess(a: seq<nat>, b: seq<nat>, c: nat)
    requires |a| == |b| && c < |a| && b[c] < a[c] && forall i | 0 <= i < |a| && i != c :: b[i] == a[i]
    ensures Sum(b) < Sum(a)
  {
    var n := |a| - 1;
    if c < n {
      OneLess(a[..n], b[..n], c);
    } else {
      assert a[..n] == b[..n];
    }
  }

  // An entry of the merge that no head is less than is not beyond an entry behind a head.
  lemma NotBeyond(run: seq<Entry>, p: nat, j: nat, merged: seq<Entry>, a: nat, m: nat)
    requires Sorted(run) && Sorted(merged) && p <= j < |run| && a <= m < |merged| && run[j] == merged[a]
    requires !Less(run[p].key, merged[m].key)
    ensures m == a
  {
    if p < j {
      Ordered(run, p, j);
    }
    if a < m {
      Ordered(merged, a, m);
    }
  }

  lemma NotBefore(run: seq<Entry>, p: nat, j: nat, merged: seq<Entry>, a: nat, m: nat)
    requires Sorted(run) && Sorted(merged) && j <= p < |run| && m <= a < |merged| && run[j] == merged[a]
    requires !Less(merged[m].key, run[p].key)
    ensures m == a
  {
    if j < p {
      Ordered(run, j, p);
    }
    if m < a {
      Ordered(merged, m, a);
    }
  }

  // A cursor over each run, to some of which more will come.
  method OpenAll(runs: seq<seq<Entry>>, coming: seq<seq<Entry>>, arrivals: seq<seq<nat>>) returns (children: seq<Cursor>)
    requires |coming| == |runs| == |arrivals| && AllSorted(runs) && forall i | 0 <= i < |runs| :: NewTo(runs[i], coming[i])
    ensures |children| == |runs|
    ensures forall i | 0 <= i < |runs| :: fresh(children[i]) && children[i].Ok() && children[i].run == runs[i] &&
                                          children[i].pos == |runs[i]| && children[i].coming == coming[i]
    ensures forall i, j | 0 <= i < j < |runs| :: children[i] != children[j]
  {
    hide Sorted, NewTo;
    children := [];
    for i := 0 to |runs|
      invariant |children| == i
      invariant forall j | 0 <= j < i :: fresh(children[j]) && children[j].Ok() && children[j].run == runs[j] &&
                                         children[j].pos == |runs[j]| && children[j].coming == coming[j]
      invariant forall a, b | 0 <= a < b < i :: children[a] != children[b]
    {
      var child := new Cursor(runs[i], coming[i], arrivals[i]);
      children := children + [child];
    }
  }

  // SeekToFirst, then Next until the end, with nothing coming.
  method Drain(input: MergingIterator) returns (out: seq<Entry>)
    requires input.Ok() && input.whole <= Elements(input.merged)
    modifies input, input.children
    ensures out == input.merged
  {
    hide MergingIterator.Ok;
    input.SeekToFirst();
    out := [];
    while input.Valid()
      invariant input.Ok() && input.direction == Forward && out == input.merged[..input.cut]
      decreases input.Ahead()
    {
      input.PlaceForward();
      out := out + [input.Entry()];
      input.Next();
    }
    input.PlaceForward();
  }

  // A whole pass over a merging iterator: what a compaction reads.
  method MergeRuns(runs: seq<seq<Entry>>) returns (out: seq<Entry>)
    requires AllSorted(runs) && KeysDiffer(runs)
    ensures Sorted(out) && Elements(out) == UnionOf(runs)
  {
    MergeAllHolds(runs);
    hide AllSorted, KeysDiffer, MergeAll, UnionOf, Sorted, MergingIterator.Ok;
    var nothing := seq(|runs|, i requires 0 <= i < |runs| => []);
    var never := seq(|runs|, i requires 0 <= i < |runs| => []);
    var children := OpenAll(runs, nothing, never);
    var input := new MergingIterator(children, runs);
    out := Drain(input);
  }
}
