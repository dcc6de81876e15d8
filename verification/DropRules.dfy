// Which entries a compaction throws away, and why reads cannot tell
// (db/db_impl.cc, DBImpl::DoCompactionWork).

module DropRules {
  import opened Keys
  import opened History

  // last_sequence_for_key when entry i is looked at: the sequence number of the
  // entry before it if that has the same user key, else kMaxSequenceNumber.
  function LastSequenceForKey(input: seq<Entry>, i: nat): Sequence
    requires i < |input|
  {
    if i > 0 && input[i - 1].key.user == input[i].key.user then input[i - 1].key.seqno else MAX_SEQUENCE
  }

  // Snapshots from m on see the entry before this one and stop there.
  predicate Shadowed(input: seq<Entry>, i: nat, m: Sequence)
    requires i < |input|
  {
    LastSequenceForKey(input, i) <= m
  }

  // An obsolete deletion marker.
  predicate Obsolete(e: Entry, m: Sequence, base: bool) {
    e.key.kind == Deletion && e.key.seqno <= m && base
  }

  ghost predicate Dropped(input: seq<Entry>, i: nat, m: Sequence, base: UserKey -> bool)
    requires i < |input|
  {
    Shadowed(input, i, m) || Obsolete(input[i], m, base(input[i].key.user))
  }

  // What a compaction writes out.
  ghost function Survivors(input: seq<Entry>, m: Sequence, base: UserKey -> bool): seq<Entry> {
    if input == [] then []
    else
      var n := |input| - 1;
      Survivors(input[..n], m, base) + (if Dropped(input, n, m, base) then [] else [input[n]])
  }

  lemma {:induction false} SurvivorsAre(input: seq<Entry>, m: Sequence, base: UserKey -> bool)
    ensures forall e :: e in Survivors(input, m, base) <==>
                        exists i :: 0 <= i < |input| && input[i] == e && !Dropped(input, i, m, base)
  {
    if input != [] {
      var n := |input| - 1;
      var init := input[..n];
      SurvivorsAre(init, m, base);
      forall i | 0 <= i < n
        ensures Dropped(input, i, m, base) == Dropped(init, i, m, base) && input[i] == init[i]
      {
      }
    }
  }

  lemma {:induction false} SurvivorsSorted(input: seq<Entry>, m: Sequence, base: UserKey -> bool)
    requires Sorted(input)
    ensures Sorted(Survivors(input, m, base))
  {
    if input != [] {
      var n := |input| - 1;
      SurvivorsSorted(input[..n], m, base);
      SurvivorsAre(input[..n], m, base);
      var s := Survivors(input[..n], m, base);
      forall i | 0 <= i < |s|
        ensures Less(s[i].key, input[n].key)
      {
        assert s[i] in s;
      }
    }
  }

  // Once an entry at or below m has been seen, the older ones of its key go.
  lemma ShadowedAfter(input: seq<Entry>, i: nat, j: nat, m: Sequence)
    requires Sorted(input) && Distinct(Elements(input))
    requires i < j < |input| && input[i].key.user == input[j].key.user
    requires input[i].key.seqno <= m
    ensures Shadowed(input, j, m)
  {
    assert Less(input[j - 1].key, input[j].key);
    if i < j - 1 {
      assert Less(input[i].key, input[j - 1].key);
    }
  }

  // A shadowed entry has a newer one at or below m beside it.
  lemma ShadowedHasNewer(input: seq<Entry>, i: nat, m: Sequence)
    requires Sorted(input) && Distinct(Elements(input)) && m < MAX_SEQUENCE
    requires i < |input| && Shadowed(input, i, m)
    ensures i > 0 && input[i - 1].key.user == input[i].key.user
    ensures input[i].key.seqno < input[i - 1].key.seqno <= m
  {
    assert Less(input[i - 1].key, input[i].key);
    assert input[i] in Elements(input) && input[i - 1] in Elements(input);
  }

  // The store around a compaction, by what each part can share with the inputs.
  datatype Surroundings = Surroundings(
    top: set<Entry>,   // newer than the inputs: memtables, shallower levels, files left behind
    side: set<Entry>,  // the files of the lower level that are not inputs
    deep: set<Entry>)  // the levels below
  {
    ghost function All(): set<Entry> {
      top + side + deep
    }
  }

  ghost predicate Placed(s: Surroundings, input: seq<Entry>, base: UserKey -> bool) {
    && Sorted(input)
    && Distinct(s.All() + Elements(input))
    && Newer(s.top, Elements(input))
    && (forall e | e in s.deep :: !base(e.key.user))
  }

  // A deletion that decides reads at m is thrown away although a file of the lower
  // level that is not an input holds an older put of its key.
  ghost predicate Exposed(s: Surroundings, input: seq<Entry>, m: Sequence, base: UserKey -> bool, u: UserKey) {
    var t, x := Newest(s.All() + Elements(input), u, m), Newest(s.side, u, m);
    && base(u)
    && t.Some? && t.value in input && t.value.key.kind == Deletion
    && x.Some? && x.value.key.kind == Put
  }

  ghost function Before(s: Surroundings, input: seq<Entry>): set<Entry> {
    s.All() + Elements(input)
  }

  ghost function After(s: Surroundings, input: seq<Entry>, m: Sequence, base: UserKey -> bool): set<Entry> {
    s.All() + Elements(Survivors(input, m, base))
  }

  lemma AfterWithin(s: Surroundings, input: seq<Entry>, m: Sequence, base: UserKey -> bool)
    ensures After(s, input, m, base) <= Before(s, input)
  {
    SurvivorsAre(input, m, base);
  }

  // Below an entry of the inputs at or below m, nothing of its key survives among
  // the inputs, nothing is on top, and if the key is at its base level nothing is deep.
  lemma OnlySideBelow(s: Surroundings, input: seq<Entry>, m: Sequence, base: UserKey -> bool, e: Entry, y: Entry)
    requires Placed(s, input, base)
    requires e in input && e.key.seqno <= m && base(e.key.user)
    requires y in After(s, input, m, base) && y.key.user == e.key.user && y.key.seqno < e.key.seqno
    ensures y in s.side
  {
    hide Less, Sorted, Dropped, Survivors, Distinct;
    assert e in Elements(input);
    if y in Survivors(input, m, base) {
      DistinctInput(s, input);
      OlderIsDropped(input, m, base, e, y);
    }
  }

  lemma OlderIsDropped(input: seq<Entry>, m: Sequence, base: UserKey -> bool, e: Entry, y: Entry)
    requires Sorted(input) && Distinct(Elements(input)) && e in input && e.key.seqno <= m
    requires y.key.user == e.key.user && y.key.seqno < e.key.seqno
    ensures y !in Survivors(input, m, base)
  {
    hide Distinct;
    SurvivorsAre(input, m, base);
    if y in Survivors(input, m, base) {
      var i: nat :| i < |input| && input[i] == e;
      var j: nat :| j < |input| && input[j] == y && !Dropped(input, j, m, base);
      OlderComesLater(input, i, j);
      ShadowedAfter(input, i, j, m);
    }
  }

  lemma OlderComesLater(input: seq<Entry>, i: nat, j: nat)
    requires Sorted(input) && i < |input| && j < |input| && input[i].key.user == input[j].key.user
    requires input[j].key.seqno < input[i].key.seqno
    ensures i < j
  {
  }

  lemma DistinctInput(s: Surroundings, input: seq<Entry>)
    requires Distinct(s.All() + Elements(input))
    ensures Distinct(Elements(input))
  {
  }

  // At the greatest snapshot the mark every key starts from hides its first entry too.
  lemma {:induction false} GreatestDropsAll(input: seq<Entry>, base: UserKey -> bool)
    ensures Survivors(input, MAX_SEQUENCE, base) == []
  {
    if input != [] {
      GreatestDropsAll(input[..|input| - 1], base);
    }
  }

  // There, reads of a key change if an input decides them and what is left says otherwise: of a
  // put, anything but a put of the same value; of a deletion, a put.
  ghost predicate Lost(s: Surroundings, input: seq<Entry>, u: UserKey) {
    var t, x := Newest(Before(s, input), u, MAX_SEQUENCE), Newest(s.All(), u, MAX_SEQUENCE);
    && t.Some? && t.value in input
    && var put := x.Some? && x.value.key.kind == Put;
       if t.value.key.kind == Put then !(put && x.value.value == t.value.value) else put
  }

  // The keys a compaction changes reads of.
  ghost predicate Changed(s: Surroundings, input: seq<Entry>, m: Sequence, base: UserKey -> bool, u: UserKey) {
    if m < MAX_SEQUENCE then Exposed(s, input, m, base, u) else Lost(s, input, u)
  }

  lemma LostChanges(s: Surroundings, input: seq<Entry>, base: UserKey -> bool, u: UserKey)
    requires Placed(s, input, base)
    ensures Read(After(s, input, MAX_SEQUENCE, base), u, MAX_SEQUENCE) == Read(Before(s, input), u, MAX_SEQUENCE)
       <==> !Lost(s, input, u)
  {
    GreatestDropsAll(input, base);
    assert After(s, input, MAX_SEQUENCE, base) == s.All();
    var t := Newest(Before(s, input), u, MAX_SEQUENCE);
    if t.Some? && t.value !in input {
      NewestIs(t.value, s.All(), u, MAX_SEQUENCE);
    }
  }

  // If the newest entry a read finds is thrown away, it is an obsolete deletion.
  lemma DroppedNewestIsObsolete(s: Surroundings, input: seq<Entry>, m: Sequence, base: UserKey -> bool,
                                u: UserKey, snap: Sequence, e: Entry)
    requires Placed(s, input, base) && m < MAX_SEQUENCE && m <= snap
    requires IsNewest(e, Before(s, input), u, snap)
    requires e !in After(s, input, m, base)
    ensures e in input && Obsolete(e, m, base(u))
  {
    SurvivorsAre(input, m, base);
    var i :| 0 <= i < |input| && input[i] == e;
    DistinctInput(s, input);
    assert Dropped(input, i, m, base);
    if Shadowed(input, i, m) {
      ShadowedHasNewer(input, i, m);
      assert false;
    }
  }

  // Reads at m or later cannot tell the compaction happened, unless it exposes
  // the key they ask for.
  lemma UnexposedReadKept(s: Surroundings, input: seq<Entry>, m: Sequence, base: UserKey -> bool,
                          u: UserKey, snap: Sequence)
    requires Placed(s, input, base) && m <= snap
    requires !Changed(s, input, m, base, u)
    ensures Read(After(s, input, m, base), u, snap) == Read(Before(s, input), u, snap)
  {
    hide Placed, Exposed, Lost, Before, After, Read;
    if m == MAX_SEQUENCE {
      LostChanges(s, input, base, u);
    } else {
      KeptBelowGreatest(s, input, m, base, u, snap);
    }
  }

  lemma KeptBelowGreatest(s: Surroundings, input: seq<Entry>, m: Sequence, base: UserKey -> bool,
                          u: UserKey, snap: Sequence)
    requires Placed(s, input, base) && m < MAX_SEQUENCE && m <= snap
    requires !Exposed(s, input, m, base, u)
    ensures Read(After(s, input, m, base), u, snap) == Read(Before(s, input), u, snap)
  {
    var A, A' := Before(s, input), After(s, input, m, base);
    AfterWithin(s, input, m, base);
    var e := Newest(A, u, snap);
    if e.None? {
    } else if e.value in A' {
      NewestIs(e.value, A', u, snap);
    } else {
      DroppedNewestIsObsolete(s, input, m, base, u, snap, e.value);
      NewestIs(e.value, A, u, m);
      var y := Newest(A', u, snap);
      if y.Some? {
        OnlySideBelow(s, input, m, base, e.value, y.value);
        NewestIs(y.value, s.side, u, m);
      }
    }
  }

  // An exposed key reads differently at m: a deleted key comes back.
  lemma ExposedReadChanges(s: Surroundings, input: seq<Entry>, m: Sequence, base: UserKey -> bool, u: UserKey)
    requires Placed(s, input, base) && Changed(s, input, m, base, u)
    ensures Read(After(s, input, m, base), u, m) != Read(Before(s, input), u, m)
    ensures m < MAX_SEQUENCE ==>
      && Read(Before(s, input), u, m) == NotFound
      && Read(After(s, input, m, base), u, m) == Found(Newest(s.side, u, m).value.value)
  {
    if m == MAX_SEQUENCE {
      LostChanges(s, input, base, u);
    } else {
      ExposedComesBack(s, input, m, base, u);
    }
  }

  lemma ExposedComesBack(s: Surroundings, input: seq<Entry>, m: Sequence, base: UserKey -> bool, u: UserKey)
    requires Placed(s, input, base) && m < MAX_SEQUENCE
    requires Exposed(s, input, m, base, u)
    ensures Read(Before(s, input), u, m) == NotFound
    ensures Read(After(s, input, m, base), u, m) == Found(Newest(s.side, u, m).value.value)
  {
    var A, A' := Before(s, input), After(s, input, m, base);
    var t := Newest(A, u, m).value;
    var x := Newest(s.side, u, m).value;
    AfterWithin(s, input, m, base);
    DecidingDeletionDropped(s, input, m, base, u, t);
    forall y | y in A' && Visible(y, u, m)
      ensures y.key.seqno <= x.key.seqno
    {
      assert y in A && t in A && y != t;
      OnlySideBelow(s, input, m, base, t, y);
    }
    NewestIs(x, A', u, m);
  }

  lemma DecidingDeletionDropped(s: Surroundings, input: seq<Entry>, m: Sequence, base: UserKey -> bool,
                                u: UserKey, t: Entry)
    requires Placed(s, input, base)
    requires t in input && t.key.kind == Deletion && base(u)
    requires IsNewest(t, Before(s, input), u, m)
    requires forall x | x in s.side :: x != t
    ensures t !in After(s, input, m, base)
  {
    SurvivorsAre(input, m, base);
  }

  // The exact condition under which a compaction keeps the meaning of the store, at every
  // smallest snapshot: below the greatest one that no key is exposed, at it that none is lost.
  lemma CompactionKeepsReadsIff(s: Surroundings, input: seq<Entry>, m: Sequence, base: UserKey -> bool)
    requires Placed(s, input, base)
    ensures (forall u: UserKey, snap: Sequence | m <= snap ::
               Read(After(s, input, m, base), u, snap) == Read(Before(s, input), u, snap))
            <==>
            (forall u: UserKey :: !Changed(s, input, m, base, u))
  {
    if forall u: UserKey :: !Changed(s, input, m, base, u) {
      forall u: UserKey, snap: Sequence | m <= snap
        ensures Read(After(s, input, m, base), u, snap) == Read(Before(s, input), u, snap)
      {
        UnexposedReadKept(s, input, m, base, u, snap);
      }
    } else {
      var u :| Changed(s, input, m, base, u);
      ExposedReadChanges(s, input, m, base, u);
    }
  }
}
