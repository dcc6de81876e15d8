// A run of the store, from the empty database on, at whose end a compaction brings a deleted
// value back.

module Resurrection {
  import opened Keys
  import opened History
  import opened Versions
  import opened VersionEdits
  import opened Inputs
  import opened Picking
  import opened Install
  import opened Swap
  import opened Flush
  import opened DropRules
  import opened CompactionWork
  import opened Store
  import opened Exposure

  // The first key is written three times; the second is put, seen by a snapshot, and deleted.
  const FIRST_ZERO: Entry := Entry(InternalKey(0.0, 1, Put), [])
  const OLD_ZERO: Entry := Entry(InternalKey(0.0, 2, Put), [])
  const HIDDEN: Entry := Entry(InternalKey(1.0, 3, Put), [])
  const MARKER: Entry := Entry(InternalKey(1.0, 4, Deletion), [])
  const NEW_ZERO: Entry := Entry(InternalKey(0.0, 5, Put), [])

  // The tables by number: two flushed, two a compaction makes of them, one flushed, one made.
  const BOTTOM: File := File(1, 1, FIRST_ZERO.key, FIRST_ZERO.key, [FIRST_ZERO])
  const FLUSHED: File := File(2, 1, OLD_ZERO.key, HIDDEN.key, [OLD_ZERO, MARKER, HIDDEN])
  const INPUT: File := File(3, 1, OLD_ZERO.key, MARKER.key, [OLD_ZERO, MARKER])
  const LEFT: File := File(4, 1, HIDDEN.key, HIDDEN.key, [HIDDEN])
  const UPPER: File := File(5, 1, NEW_ZERO.key, NEW_ZERO.key, [NEW_ZERO])
  const OUTPUT: File := File(6, 1, NEW_ZERO.key, NEW_ZERO.key, [NEW_ZERO])

  // A version with files on levels 1 and 2 only.
  function Of(one: Level, two: Level): Version {
    [[], one, two, [], [], [], []]
  }

  const FIRST: set<Entry> := {FIRST_ZERO}
  const PUT: set<Entry> := {FIRST_ZERO, OLD_ZERO, HIDDEN}
  const DELETED: set<Entry> := {FIRST_ZERO, OLD_ZERO, HIDDEN, MARKER}
  const ALL: set<Entry> := {FIRST_ZERO, OLD_ZERO, HIDDEN, MARKER, NEW_ZERO}

  // State after state.
  function At(i: nat): State {
    if i == 0 then State([], None, Of([], []), 0, 0, [], 1, {})
    else if i == 1 then State([FIRST_ZERO], None, Of([], []), 0, 1, [], 1, FIRST)
    else if i == 2 then State([FIRST_ZERO], None, Of([], []), 1, 1, [], 1, FIRST)
    // Nothing is in the way of the first table down to level 2.
    else if i == 3 then State([], Some([FIRST_ZERO]), Of([], []), 1, 1, [], 1, FIRST)
    else if i == 4 then State([], None, Of([], [BOTTOM]), 1, 1, [], 2, FIRST)
    else if i == 5 then State([OLD_ZERO], None, Of([], [BOTTOM]), 1, 2, [], 2, {FIRST_ZERO, OLD_ZERO})
    else if i == 6 then State([OLD_ZERO, HIDDEN], None, Of([], [BOTTOM]), 1, 3, [], 2, PUT)
    else if i == 7 then State([OLD_ZERO, HIDDEN], None, Of([], [BOTTOM]), 3, 3, [], 2, PUT)
    // A snapshot is taken, and the second key deleted.
    else if i == 8 then State([OLD_ZERO, HIDDEN], None, Of([], [BOTTOM]), 3, 3, [3], 2, PUT)
    else if i == 9 then State([OLD_ZERO, MARKER, HIDDEN], None, Of([], [BOTTOM]), 3, 4, [3], 2, DELETED)
    else if i == 10 then State([OLD_ZERO, MARKER, HIDDEN], None, Of([], [BOTTOM]), 4, 4, [3], 2, DELETED)
    // The second table stops at level 1, above the first, and the two are compacted.
    else if i == 11 then State([], Some([OLD_ZERO, MARKER, HIDDEN]), Of([], [BOTTOM]), 4, 4, [3], 2, DELETED)
    else if i == 12 then State([], None, Of([FLUSHED], [BOTTOM]), 4, 4, [3], 3, DELETED)
    else if i == 13 then State([], None, Of([], [INPUT, LEFT]), 4, 4, [3], 5, DELETED)
    // The snapshot is released, and the first key written again.
    else if i == 14 then State([], None, Of([], [INPUT, LEFT]), 4, 4, [], 5, DELETED)
    else if i == 15 then State([NEW_ZERO], None, Of([], [INPUT, LEFT]), 4, 5, [], 5, ALL)
    else if i == 16 then State([NEW_ZERO], None, Of([], [INPUT, LEFT]), 5, 5, [], 5, ALL)
    else if i == 17 then State([], Some([NEW_ZERO]), Of([], [INPUT, LEFT]), 5, 5, [], 5, ALL)
    else if i == 18 then State([], None, Of([UPPER], [INPUT, LEFT]), 5, 5, [], 6, ALL)
    // The second compaction leaves one of the two files behind.
    else State([], None, Of([], [OUTPUT, LEFT]), 5, 5, [], 7, ALL)
  }

  ghost function TheRun(): seq<State> {
    seq(20, i requires 0 <= i < 20 => At(i))
  }

  function FirstCompaction(): Compaction {
    Compaction(1, [FLUSHED], [BOTTOM], [], OLD_ZERO.key, HIDDEN.key)
  }

  function SecondCompaction(): Compaction {
    Compaction(1, [UPPER], [INPUT], [], NEW_ZERO.key, NEW_ZERO.key)
  }

  lemma Starts()
    ensures Initial(At(0))
  {
    assert Of([], []) == seq(NUM_LEVELS, _ => []);
  }

  lemma Inserts(i: nat)
    requires i == 0 || i == 4 || i == 5 || i == 8 || i == 14
    ensures Next(At(i), At(i + 1))
  {
    var e := if i == 0 then FIRST_ZERO else if i == 4 then OLD_ZERO else if i == 5 then HIDDEN
             else if i == 8 then MARKER else NEW_ZERO;
    assert InsertStep(At(i), At(i + 1), e);
  }

  lemma Plain(i: nat)
    requires i == 1 || i == 2 || i == 6 || i == 7 || i == 9 || i == 10 || i == 15 || i == 16
    ensures Next(At(i), At(i + 1))
  {
  }

  lemma Releases()
    ensures Next(At(13), At(14))
  {
    assert ReleaseStep(At(13), At(14), 0);
  }

  // The table a flush makes, and the level the code puts it on: the deepest one, down to level 2,
  // with nothing of its range on it or above.
  function FlushedAt(i: nat): (File, nat) {
    if i == 3 then (BOTTOM, 2) else if i == 11 then (FLUSHED, 1) else (UPPER, 1)
  }

  ghost predicate FlushedDeep(i: nat) {
    var (f, level) := FlushedAt(i);
    && FlushStep(At(i), At(i + 1), level, f)
    && (level == 2 || !RoomAt(At(i).version, level + 1, f))
  }

  lemma Flushes(i: nat)
    requires i == 3 || i == 11 || i == 17
    ensures FlushedDeep(i)
  {
    var (f, level) := FlushedAt(i);
    var v, v' := At(i).version, At(i + 1).version;
    forall l | 0 <= l < NUM_LEVELS
      ensures InOrder(v'[l])
    {
      assert l != level ==> v'[l] == v[l];
      if l == 2 && i == 17 {
        Two(INPUT, LEFT);
      }
    }
    assert Files(v'[level]) == Files(v[level]) + {f};
    if i == 11 {
      assert BOTTOM in v[2] && !Detached(f, BOTTOM);
    } else if i == 17 {
      assert INPUT in v[2] && !Detached(f, INPUT);
    }
  }

  // ---- The first compaction exposes nothing. ----

  ghost function FirstInput(): seq<Entry> {
    [OLD_ZERO, FIRST_ZERO, MARKER, HIDDEN]
  }

  lemma FirstSurvivors()
    ensures Survivors(FirstInput(), 3, BaseLevels(At(12).version, 1)) == FLUSHED.run
  {
    var base := BaseLevels(At(12).version, 1);
    var r := FirstInput();
    var one, two, three := [OLD_ZERO], [OLD_ZERO, FIRST_ZERO], [OLD_ZERO, FIRST_ZERO, MARKER];
    assert r[..3] == three && three[..2] == two && two[..1] == one && one[..0] == [];
    assert !Dropped(one, 0, 3, base) && Survivors(one, 3, base) == one;
    assert Dropped(two, 1, 3, base) && Survivors(two, 3, base) == one;
    assert !Dropped(three, 2, 3, base) && Survivors(three, 3, base) == [OLD_ZERO, MARKER];
    assert !Dropped(r, 3, 3, base);
  }

  lemma FirstFlat()
    ensures Flatten([INPUT, LEFT]) == FLUSHED.run
  {
    assert [INPUT, LEFT][..1] == [INPUT] && [INPUT][..0] == [];
    assert Flatten([]) == [] && Flatten([INPUT]) == INPUT.run;
  }

  lemma FirstPicked()
    ensures Sound(At(12).version, FirstCompaction())
    ensures Sorted(FirstInput()) && Elements(FirstInput()) == InputEntries(FirstCompaction())
    ensures LowerClosed(At(12).version, FirstCompaction())
  {
    var v, c := At(12).version, FirstCompaction();
    FirstInputs();
    FirstLower();
    hide Sorted, Elements, InputEntries, Overlapping;
    assert c.upper == v[1][0..1] && FLUSHED in c.upper;
  }

  lemma FirstInputs()
    ensures Sorted(FirstInput()) && Elements(FirstInput()) == InputEntries(FirstCompaction())
  {
    var c := FirstCompaction();
    assert FLUSHED in Files(c.upper) && BOTTOM in Files(c.lower);
    assert OLD_ZERO in FLUSHED.run && MARKER in FLUSHED.run && HIDDEN in FLUSHED.run && FIRST_ZERO in BOTTOM.run;
  }

  lemma FirstLower()
    ensures Overlapping([BOTTOM], UserRange(OLD_ZERO.key, HIDDEN.key)) == [BOTTOM]
  {
    assert [BOTTOM][..0] == [];
  }

  lemma Two(f: File, g: File)
    requires Intact(f) && Intact(g) && Less(f.largest, g.smallest)
    ensures AllIntact([f, g]) && InOrder([f, g])
  {
    RangeOrdered(f);
  }

  lemma FirstSwapped()
    ensures Swapped(At(12).version, At(13).version, FirstCompaction(), [INPUT, LEFT])
    ensures AllIntact([INPUT, LEFT])
  {
    var v, v', c := At(12).version, At(13).version, FirstCompaction();
    Two(INPUT, LEFT);
    assert Files(v'[1]) == Files(v[1]) - Files(c.upper);
    assert Files(v'[2]) == Files(v[2]) - Files(c.lower) + Files([INPUT, LEFT]);
  }

  lemma FirstCompacts()
    ensures CompactStep(At(12), At(13), FirstCompaction(), FirstInput(), [INPUT, LEFT])
  {
    hide Swapped, Sound, InputEntries, Survivors, BaseLevels, Flatten, LowerClosed, Sorted, AllIntact;
    FirstPicked();
    FirstSurvivors();
    FirstFlat();
    FirstSwapped();
  }

  lemma FirstExposesNothing()
    requires Structure(At(12))
    ensures Unexposed(At(12), FirstCompaction(), FirstInput())
  {
    hide At, Sound, InputEntries, Unexposed, LowerClosed, Sorted, WellFormed, Listed, Layered, Numbered;
    FirstPicked();
    LowerClosedExposesNothing(At(12), FirstCompaction(), FirstInput());
  }

  // ---- The second exposes the deleted key. ----

  ghost function SecondInput(): seq<Entry> {
    [NEW_ZERO, OLD_ZERO, MARKER]
  }

  lemma SecondSurvivors()
    ensures Survivors(SecondInput(), 5, BaseLevels(At(18).version, 1)) == [NEW_ZERO]
  {
    var base := BaseLevels(At(18).version, 1);
    assert base(1.0);
    var one, two := [NEW_ZERO], [NEW_ZERO, OLD_ZERO];
    assert SecondInput()[..2] == two && two[..1] == one && one[..0] == [];
    assert Survivors(one, 5, base) == [NEW_ZERO];
    assert Dropped(two, 1, 5, base);
    assert Survivors(two, 5, base) == [NEW_ZERO];
    assert Dropped(SecondInput(), 2, 5, base);
  }

  lemma SecondPicked()
    ensures Sound(At(18).version, SecondCompaction())
    ensures Sorted(SecondInput()) && Elements(SecondInput()) == InputEntries(SecondCompaction())
    ensures !LowerClosed(At(18).version, SecondCompaction())
  {
    var v, c := At(18).version, SecondCompaction();
    SecondInputs();
    SecondLower();
    hide Sorted, Elements, InputEntries, Overlapping;
    assert c.upper == v[1][0..1] && UPPER in c.upper;
    assert INPUT in c.lower && LEFT in v[2] && LEFT !in c.lower && !Detached(INPUT, LEFT);
  }

  lemma SecondInputs()
    ensures Sorted(SecondInput()) && Elements(SecondInput()) == InputEntries(SecondCompaction())
  {
    var c := SecondCompaction();
    assert UPPER in Files(c.upper) && INPUT in Files(c.lower);
    assert NEW_ZERO in UPPER.run && OLD_ZERO in INPUT.run && MARKER in INPUT.run;
  }

  lemma SecondLower()
    ensures Overlapping([INPUT, LEFT], UserRange(NEW_ZERO.key, NEW_ZERO.key)) == [INPUT]
  {
    var r := UserRange(NEW_ZERO.key, NEW_ZERO.key);
    assert [INPUT, LEFT][..1] == [INPUT] && [INPUT][..0] == [];
    assert Overlapping([INPUT], r) == [INPUT];
  }

  lemma SecondSwapped()
    ensures Swapped(At(18).version, At(19).version, SecondCompaction(), [OUTPUT])
    ensures AllIntact([OUTPUT]) && Flatten([OUTPUT]) == [NEW_ZERO]
  {
    var v, v', c := At(18).version, At(19).version, SecondCompaction();
    Two(OUTPUT, LEFT);
    assert Files(v'[1]) == Files(v[1]) - Files(c.upper);
    assert Files(v'[2]) == Files(v[2]) - Files(c.lower) + Files([OUTPUT]);
    assert [OUTPUT][..0] == [] && Flatten([]) == [];
  }

  lemma SecondCompacts()
    ensures CompactStep(At(18), At(19), SecondCompaction(), SecondInput(), [OUTPUT])
  {
    SecondPicked();
    SecondSurvivors();
    SecondSwapped();
    hide Swapped, Sound, InputEntries, Survivors, BaseLevels, Flatten, Sorted, AllIntact;
  }

  lemma SecondSide()
    ensures Around(Memory(At(18)), At(18).version, SecondCompaction()).side == {HIDDEN}
  {
    var G, W := Files(At(18).version[2]), Files(SecondCompaction().lower);
    assert G - W == {LEFT};
    assert HIDDEN in LEFT.run;
    assert EntriesOf({LEFT}) == {HIDDEN};
  }

  lemma Contained()
    ensures All(At(18)) == ALL - {FIRST_ZERO}
  {
    var v := At(18).version;
    assert UPPER in v[1] && NEW_ZERO in UPPER.run;
    assert INPUT in v[2] && OLD_ZERO in INPUT.run && MARKER in INPUT.run;
    assert LEFT in v[2] && HIDDEN in LEFT.run;
    assert NEW_ZERO in LevelEntries(v[1]) && OLD_ZERO in LevelEntries(v[2]);
    assert MARKER in LevelEntries(v[2]) && HIDDEN in LevelEntries(v[2]);
    assert LevelEntries(v[1]) == {NEW_ZERO} && LevelEntries(v[2]) == {OLD_ZERO, MARKER, HIDDEN};
    assert forall l | 0 <= l < NUM_LEVELS && l != 1 && l != 2 :: LevelEntries(v[l]) == {};
    assert Elements([]) == {};
  }

  lemma SecondDecides()
    ensures BaseLevel(At(18).version, SecondCompaction().level, 1.0) && Smallest(At(18)) == 5
    ensures MARKER in SecondInput() && MARKER.key.kind == Deletion && HIDDEN.key.kind == Put
    ensures IsNewest(MARKER, ALL - {FIRST_ZERO}, 1.0, 5) && IsNewest(HIDDEN, {HIDDEN}, 1.0, 5)
  {
  }

  // ---- The run. ----

  lemma EachStep(i: nat)
    requires i < 19
    ensures Next(At(i), At(i + 1))
  {
    hide At, Next, FlushedDeep, CompactStep;
    if i == 0 || i == 4 || i == 5 || i == 8 || i == 14 {
      Inserts(i);
    } else if i == 3 || i == 11 || i == 17 {
      Flushes(i);
      IsFlush(i);
    } else if i == 12 || i == 18 {
      Compacts(i);
    } else if i == 13 {
      Releases();
    } else {
      Plain(i);
    }
  }

  lemma IsFlush(i: nat)
    requires FlushedDeep(i)
    ensures Next(At(i), At(i + 1))
  {
    hide At, FlushStep, RoomAt;
  }

  lemma Compacts(i: nat)
    requires i == 12 || i == 18
    ensures Next(At(i), At(i + 1))
  {
    hide At, CompactStep;
    FirstCompacts();
    SecondCompacts();
  }

  lemma RunOfStore()
    ensures Run(TheRun())
  {
    hide At, Next;
    Starts();
    forall i: nat | i + 1 < |TheRun()|
      ensures StepAt(TheRun(), i)
    {
      EachStep(i);
    }
  }

  // Up to its last step, every key reads right.
  lemma {:induction false} RightBefore(n: nat, u: UserKey)
    requires n <= 18
    ensures Structure(At(n)) && Faithful(At(n), u)
  {
    hide At, Structure, Faithful, CompactStep, Exposes, Next;
    if n == 0 {
      Starts();
      InitialHolds(At(0));
    } else {
      RightBefore(n - 1, u);
      EachStep(n - 1);
      if n == 13 {
        FirstCompacts();
        FirstExposesNothing();
        CompactKeepsKeyIff(At(12), At(13), FirstCompaction(), FirstInput(), [INPUT, LEFT], u);
      } else {
        NextKeeps(At(n - 1), At(n), u);
        NotCompaction(n - 1, u);
      }
    }
  }

  // A compaction changes the version and takes file numbers, the other steps something else.
  lemma NotCompaction(i: nat, u: UserKey)
    requires i < 18 && i != 12
    ensures !Exposes(At(i), At(i + 1), u)
  {
    hide At, ExposesIn;
    if Exposes(At(i), At(i + 1), u) {
      var c, input, outputs :| CompactStep(At(i), At(i + 1), c, input, outputs) && ExposesIn(At(i), c, input, u);
      CompactsOnly(At(i), At(i + 1), c, input, outputs);
      ChangesMore(i);
    }
  }

  lemma CompactsOnly(s: State, t: State, c: Compaction, input: seq<Entry>, outputs: Level)
    requires CompactStep(s, t, c, input, outputs)
    ensures t == s.(version := t.version, nextFile := t.nextFile)
  {
  }

  lemma ChangesMore(i: nat)
    requires i < 18 && i != 12
    ensures At(i + 1) != At(i).(version := At(i + 1).version, nextFile := At(i + 1).nextFile)
  {
  }

  // A run each step of which the code takes: tables are flushed as deep as they may go, and neither
  // compaction is one file that could simply move down.  Nothing reads wrong in it, until the
  // second compaction brings back the key deleted on the way.
  lemma CompactionCanResurrect()
    ensures Run(TheRun()) && |TheRun()| == 20
    ensures FlushedDeep(3) && FlushedDeep(11) && FlushedDeep(17)
    ensures CompactStep(At(12), At(13), FirstCompaction(), FirstInput(), [INPUT, LEFT]) && FirstCompaction().lower != []
    ensures CompactStep(At(18), At(19), SecondCompaction(), SecondInput(), [OUTPUT]) && SecondCompaction().lower != []
    ensures forall u: UserKey :: Covered(TheRun(), 18, u)
    ensures ExposesAt(TheRun(), 18, 1.0) && !LowerClosed(At(18).version, SecondCompaction())
    ensures Read(TheRun()[19].history, 1.0, 5) == NotFound
    ensures Read(All(TheRun()[19]), 1.0, 5) == Found(HIDDEN.value)
  {
    hide At, Structure, Faithful, CompactStep, FlushedDeep, Next, Run, Read, All, LowerClosed, Around;
    RunOfStore();
    Flushes(3);
    Flushes(11);
    Flushes(17);
    forall u: UserKey
      ensures Covered(TheRun(), 18, u)
    {
      forall i: nat | i <= 18
        ensures Faithful(TheRun()[i], u)
      {
        RightBefore(i, u);
      }
      RunsReadHistory(TheRun(), 18, u);
    }
    FirstCompacts();
    SecondCompacts();
    SecondPicked();
    SecondSide();
    SecondDecides();
    Contained();
    RightBefore(18, 1.0);
    Histories();
    ExposedKeyComesBack(At(18), At(19), SecondCompaction(), SecondInput(), [OUTPUT], 1.0, MARKER, HIDDEN);
  }

  lemma Histories()
    ensures At(18).history == At(19).history == ALL
  {
  }
}
