// The database object: each operation takes one step of the state machine, or a
// sequence of them (db/db_impl.cc).

module Database {
  import opened Keys
  import opened History
  import opened Versions
  import opened VersionEdits
  import opened Inputs
  import opened Picking
  import opened Install
  import opened Swap
  import opened Flush
  import opened DropRules
  import opened CompactionWork
  import opened Store
  import opened Iterators
  import opened MergingIterators

  // ---- The iterators a compaction merges. ----

  // One child per level-0 file, one concatenating child per sorted level.
  function InputRuns(c: Compaction): seq<seq<Entry>> {
    if c.level == 0 then seq(|c.upper|, i requires 0 <= i < |c.upper| => c.upper[i].run) + [Flatten(c.lower)]
    else [Flatten(c.upper), Flatten(c.lower)]
  }

  lemma SortedConcat(a: seq<Entry>, b: seq<Entry>)
    requires Sorted(a) && Sorted(b)
    requires forall i, j | 0 <= i < |a| && 0 <= j < |b| :: Less(a[i].key, b[j].key)
    ensures Sorted(a + b)
  {
    hide Less;
  }

  lemma BetweenFiles(f: File, g: File, x: Entry, y: Entry)
    requires Intact(f) && Intact(g) && Less(f.largest, g.smallest) && x in f.run && y in g.run
    ensures Less(x.key, y.key)
  {
    RangeOrdered(f);
    RangeOrdered(g);
  }

  lemma BeforeLastFile(files: Level, x: Entry, y: Entry)
    requires AllIntact(files) && Disjoint(files) && files != []
    requires x in Flatten(files[..|files| - 1]) && y in files[|files| - 1].run
    ensures Less(x.key, y.key)
  {
    hide Less, Intact;
    var n := |files| - 1;
    FlattenHolds(files[..n]);
    assert x in Elements(Flatten(files[..n]));
    var g :| g in files[..n] && x in g.run;
    var k :| 0 <= k < n && files[..n][k] == g;
    assert files[k] == g && files[n] in files;
    BetweenFiles(g, files[n], x, y);
  }

  lemma {:induction false} FlattenSorted(files: Level)
    requires AllIntact(files) && Disjoint(files)
    ensures Sorted(Flatten(files))
  {
    hide Less, Sorted, Intact;
    if files == [] {
      NothingSorted();
    } else {
      var n := |files| - 1;
      var s, run := Flatten(files[..n]), files[n].run;
      FlattenSorted(files[..n]);
      IntactSorted(files, n);
      forall i, j | 0 <= i < |s| && 0 <= j < |run|
        ensures Less(s[i].key, run[j].key)
      {
        BeforeLastFile(files, s[i], run[j]);
      }
      SortedConcat(s, run);
    }
  }

  lemma NothingSorted()
    ensures Sorted([])
  {
  }

  lemma IntactSorted(files: Level, n: nat)
    requires AllIntact(files) && n < |files|
    ensures Sorted(files[n].run)
  {
    assert files[n] in files;
  }

  lemma SliceDisjoint(files: Level, part: Level)
    requires AllIntact(files) && Disjoint(files) && IsSlice(part, files)
    ensures AllIntact(part) && Disjoint(part)
  {
    var a, b :| 0 <= a <= b <= |files| && part == files[a..b];
  }

  lemma LowerDisjoint(v: Version, c: Compaction)
    requires Sound(v, c) && AllIntact(v[c.level + 1]) && Disjoint(v[c.level + 1])
    ensures AllIntact(c.lower) && Disjoint(c.lower)
  {
    var a, b := OverlappingIsSlice(v[c.level + 1], UserRange(c.smallest, c.largest));
    SliceDisjoint(v[c.level + 1], c.lower);
  }

  lemma RunsSorted(c: Compaction)
    requires AllIntact(c.upper) && AllIntact(c.lower) && Disjoint(c.lower)
    requires c.level > 0 ==> Disjoint(c.upper)
    ensures AllSorted(InputRuns(c))
  {
    FlattenSorted(c.lower);
    if c.level > 0 {
      FlattenSorted(c.upper);
    } else {
      assert forall i | 0 <= i < |c.upper| :: c.upper[i] in c.upper && Intact(c.upper[i]);
    }
  }

  lemma InputsDisjoint(v: Version, c: Compaction)
    requires WellFormed(v) && Sound(v, c)
    ensures AllIntact(c.upper) && AllIntact(c.lower) && Disjoint(c.lower)
    ensures c.level > 0 ==> Disjoint(c.upper)
  {
    LowerDisjoint(v, c);
    InputsIntact(v, c);
    forall f | f in c.upper
      ensures Intact(f)
    {
      assert f in Files(c.upper) + Files(c.lower);
    }
    if c.level > 0 {
      SliceDisjoint(v[c.level], c.upper);
    }
  }

  lemma RunsHold(c: Compaction)
    ensures UnionOf(InputRuns(c)) == InputEntries(c)
  {
    var runs := InputRuns(c);
    FlattenHolds(c.upper);
    FlattenHolds(c.lower);
    LevelEntriesOf(c.upper);
    LevelEntriesOf(c.lower);
    EntriesOfUnion(Files(c.upper), Files(c.lower));
    forall e
      ensures e in UnionOf(runs) <==> e in LevelEntries(c.upper) + LevelEntries(c.lower)
    {
      RunsHoldEntry(c, e);
    }
  }

  lemma RunsHoldEntry(c: Compaction, e: Entry)
    requires LevelEntries(c.upper) == Elements(Flatten(c.upper))
    requires LevelEntries(c.lower) == Elements(Flatten(c.lower))
    ensures e in UnionOf(InputRuns(c)) <==> e in LevelEntries(c.upper) + LevelEntries(c.lower)
  {
    var runs := InputRuns(c);
    assert runs[|runs| - 1] == Flatten(c.lower);
    if e in UnionOf(runs) {
      var i :| 0 <= i < |runs| && e in runs[i];
      if i < |runs| - 1 && c.level == 0 {
        assert c.upper[i] in c.upper;
      } else if i < |runs| - 1 {
        assert e in Elements(Flatten(c.upper));
      } else {
        assert e in Elements(Flatten(c.lower));
      }
    }
    if e in LevelEntries(c.lower) {
      assert e in runs[|runs| - 1];
    }
    if e in LevelEntries(c.upper) {
      if c.level == 0 {
        var f :| f in c.upper && e in f.run;
        var i :| 0 <= i < |c.upper| && c.upper[i] == f;
        assert e in runs[i];
      } else {
        assert e in runs[0];
      }
    }
  }

  lemma NewerKeysDiffer(A: set<Entry>, B: set<Entry>, x: Entry, y: Entry)
    requires (Newer(A, B) && x in A && y in B) || (Newer(B, A) && x in A && y in B)
    ensures x.key != y.key
  {
  }

  lemma {:induction false} OverlappingNumbersDiffer(files: Level, r: Range)
    requires NumbersDiffer(files)
    ensures NumbersDiffer(Overlapping(files, r))
  {
    if files != [] {
      var n := |files| - 1;
      OverlappingNumbersDiffer(files[..n], r);
      forall f | f in Overlapping(files[..n], r)
        ensures f.number != files[n].number
      {
        var i :| 0 <= i < n && files[i] == f;
      }
      var s := Overlapping(files[..n], r);
      assert forall i | 0 <= i < |s| :: s[i] in s;
    }
  }

  lemma Level0FilesDiffer(files: Level, upper: Level, i: nat, j: nat)
    requires AgedByNumber(files) && UpperClosed(files, 0, upper) && i < j < |upper|
    ensures forall x, y | x in upper[i].run && y in upper[j].run :: x.key != y.key
  {
    var r :| Closed(files, r) && upper == Overlapping(files, r);
    OverlappingNumbersDiffer(files, r);
    assert upper[i] in upper && upper[j] in upper;
    forall x, y | x in upper[i].run && y in upper[j].run
      ensures x.key != y.key
    {
      NewerKeysDiffer(Elements(upper[i].run), Elements(upper[j].run), x, y);
    }
  }

  lemma LevelsDiffer(v: Version, c: Compaction, x: Entry, y: Entry)
    requires WellFormed(v) && Sound(v, c)
    requires x in EntriesOf(Files(c.upper)) && y in EntriesOf(Files(c.lower))
    ensures x.key != y.key
  {
    UpperWithin(v, c);
    LevelEntriesOf(v[c.level]);
    LevelEntriesOf(v[c.level + 1]);
    NewerKeysDiffer(LevelEntries(v[c.level]), LevelEntries(v[c.level + 1]), x, y);
  }

  lemma RunsDiffer(v: Version, c: Compaction)
    requires WellFormed(v) && Sound(v, c)
    ensures KeysDiffer(InputRuns(c))
  {
    var runs := InputRuns(c);
    FlattenHolds(c.upper);
    FlattenHolds(c.lower);
    LevelEntriesOf(c.upper);
    LevelEntriesOf(c.lower);
    forall i: int, j: int, x: Entry, y: Entry | 0 <= i < j < |runs| && x in runs[i] && y in runs[j]
      ensures x.key != y.key
    {
      if j < |runs| - 1 {
        Level0FilesDiffer(v[0], c.upper, i, j);
      } else {
        assert y in Elements(Flatten(c.lower));
        UpperRunEntry(c, i, x);
        LevelsDiffer(v, c, x, y);
      }
    }
  }

  lemma UpperRunEntry(c: Compaction, i: nat, x: Entry)
    requires i < |InputRuns(c)| - 1 && x in InputRuns(c)[i]
    ensures x in EntriesOf(Files(c.upper))
  {
    if c.level == 0 {
      assert c.upper[i] in c.upper;
    } else {
      FlattenHolds(c.upper);
      assert x in Elements(Flatten(c.upper));
      LevelEntriesOf(c.upper);
    }
  }

  // MakeInputIterator, and a pass over it.
  method ReadInputs(v: Version, c: Compaction) returns (input: seq<Entry>)
    requires WellFormed(v) && Sound(v, c)
    ensures Sorted(input) && Elements(input) == InputEntries(c)
  {
    InputsDisjoint(v, c);
    RunsSorted(c);
    RunsDiffer(v, c);
    RunsHold(c);
    input := MergeRuns(InputRuns(c));
  }

  ghost predicate AllAtLeast(files: Level, n: nat) {
    forall f | f in files :: n <= f.number
  }

  // MakeInputIterator and DoCompactionWork.
  method RebuildTables(v: Version, c: Compaction, m: Sequence, fileSize: seq<Entry> -> nat, maxFileSize: nat,
                       firstNumber: nat)
    returns (input: seq<Entry>, outputs: Level, nextNumber: nat)
    requires WellFormed(v) && Sound(v, c)
    ensures Sorted(input) && Elements(input) == InputEntries(c)
    ensures Flatten(outputs) == Survivors(input, m, BaseLevels(v, c.level))
    ensures AllIntact(outputs) && NumberedFrom(outputs, firstNumber) && nextNumber == firstNumber + |outputs|
    ensures UniqueNumbers(Files(outputs)) && AllAtLeast(outputs, firstNumber)
  {
    hide WellFormed, Sound, Sorted, Survivors, InputEntries, AllIntact;
    input := ReadInputs(v, c);
    var cursors := new Cursors(v, c, maxFileSize);
    outputs, nextNumber := DoCompactionWork(input, m, cursors, fileSize, maxFileSize, firstNumber);
    NumberedAreUnique(outputs, firstNumber);
  }

  lemma NumberedAreUnique(files: Level, first: nat)
    requires NumberedFrom(files, first)
    ensures UniqueNumbers(Files(files)) && AllAtLeast(files, first)
  {
  }

  // ---- The edits of a flush and of a compaction can be applied. ----

  lemma FlushAddable(v: Version, level: nat, f: File, n: nat)
    requires Listed(v, n) && level < NUM_LEVELS && f.number == n
    ensures Addable(v, VersionEdit({}, [(level, f)]))
  {
    var e := VersionEdit({}, [(level, f)]);
    forall l: nat | l < NUM_LEVELS
      ensures AddedAt(e, l) == if l == level then {f} else {}
      ensures Comparable(Files(v[l]) + AddedAt(e, l))
    {
      assert e.added[0] in e.added;
      UniqueIsComparable(Files(v[l]) + AddedAt(e, l));
    }
  }

  lemma ComingNumbersDiffer(v: Version, c: Compaction, come: Level, n: nat)
    requires Listed(v, n) && Sound(v, c) && c.level + 1 < NUM_LEVELS
    requires UniqueNumbers(Files(come))
    requires forall f | f in come :: n <= f.number || f in c.upper
    ensures Files(v[c.level + 1]) !! Files(come) && UniqueNumbers(Files(v[c.level + 1]) + Files(come))
  {
    UpperWithin(v, c);
    forall f, g | f in Files(come) && g in Files(v[c.level + 1])
      ensures f.number != g.number
    {
      assert f in c.upper ==> f in Files(c.upper);
      assert f in come && g in v[c.level + 1];
    }
  }

  lemma SwapAddable(v: Version, c: Compaction, come: Level)
    requires |v| == NUM_LEVELS && c.level + 1 < NUM_LEVELS
    requires forall l | 0 <= l < NUM_LEVELS :: UniqueNumbers(Files(v[l]))
    requires Files(v[c.level + 1]) !! Files(come) && UniqueNumbers(Files(v[c.level + 1]) + Files(come))
    ensures Addable(v, SwapEdit(c, come))
  {
    var e := SwapEdit(c, come);
    forall l: nat | l < NUM_LEVELS
      ensures Files(v[l]) !! AddedAt(e, l) && Comparable(Files(v[l]) + AddedAt(e, l))
    {
      SwapEditAdds(c, come, l);
      assert Files(v[l]) + {} == Files(v[l]);
      UniqueIsComparable(Files(v[l]) + AddedAt(e, l));
    }
    assert forall p | p in e.added :: p.0 == c.level + 1;
  }

  // InstallCompactionResults, and the manifest update of a trivial move.
  method InstallSwap(v: Version, c: Compaction, come: Level, ghost n: nat) returns (v': Version)
    requires Listed(v, n) && Sound(v, c) && c.level + 1 < NUM_LEVELS
    requires UniqueNumbers(Files(come))
    requires AllAtLeast(come, n) || come == c.upper
    ensures Swapped(v, v', c, come)
  {
    ComingNumbersDiffer(v, c, come, n);
    SwapAddable(v, c, come);
    UpperWithin(v, c);
    v' := LogAndApply(v, SwapEdit(c, come));
    InstalledIsSwapped(v, v', c, come);
  }

  lemma RewriteMay(s: State, c: Compaction)
    requires Structure(s) && Sound(s.version, c)
    ensures WellFormed(s.version) && Listed(s.version, s.nextFile) && c.level + 1 < NUM_LEVELS
  {
  }

  lemma NoOverlapIsRoom(v: Version, level: nat, f: File)
    requires level > 0 ==> forall l, g | 0 <= l <= level && l < |v| && g in v[l] ::
                             !Overlaps(g, Range(Some(f.smallest.user), Some(f.largest.user)))
    ensures RoomAt(v, level, f)
  {
    if level > 0 {
      forall l, g | 0 <= l <= level && l < |v| && g in v[l]
        ensures Detached(f, g)
      {
        assert !Overlaps(g, Range(Some(f.smallest.user), Some(f.largest.user)));
      }
    }
  }

  // WriteLevel0Table: build the table, choose its level, install it.
  method WriteLevel0Table(v: Version, run: seq<Entry>, number: nat, fileSize: seq<Entry> -> nat, maxFileSize: nat)
    returns (level: nat, f: File, v': Version)
    requires WellFormed(v) && Listed(v, number) && run != [] && Sorted(run)
    ensures Intact(f) && f.run == run && f.number == number
    ensures RoomAt(v, level, f) && Gains(v, v', level, f)
  {
    assert |v| == NUM_LEVELS && forall l | 0 <= l < NUM_LEVELS :: InOrder(v[l]);
    hide WellFormed, Listed, Sorted, Installed, Gains, RoomAt, Addable, InOrder;
    f := Finish(number, run, fileSize);
    level := PickLevelForMemTableOutput(v, f.smallest.user, f.largest.user, maxFileSize);
    NoOverlapIsRoom(v, level, f);
    FlushAddable(v, level, f, number);
    v' := LogAndApply(v, VersionEdit({}, [(level, f)]));
    InstalledIsGained(v, v', level, f);
  }

  // What the background thread was woken for.
  datatype Work = Triggered(level: nat, trigger: Trigger) | Asked(level: nat, range: Range)

  ghost predicate MayStart(work: Work, v: Version) {
    && |v| == NUM_LEVELS && work.level + 1 < NUM_LEVELS
    && (work.Triggered? ==> v[work.level] != [] && (work.trigger.TooManySeeks? ==> work.trigger.index < |v[work.level]|))
  }

  method Pick(v: Version, work: Work, maxFileSize: nat) returns (c: Option<Compaction>)
    requires WellFormed(v) && MayStart(work, v)
    ensures c.None? ==> work.Asked? && forall f | f in v[work.level] :: !Overlaps(f, work.range)
    ensures c.Some? ==> Sound(v, c.value) && c.value.level == work.level
  {
    hide WellFormed, Sound;
    match work {
      case Triggered(level, trigger) =>
        var picked, _ := PickCompaction(v, level, trigger, maxFileSize);
        c := Some(picked);
      case Asked(level, range) =>
        c := CompactRange(v, level, range, maxFileSize);
    }
  }

  lemma StructureWellFormed(s: State)
    requires Structure(s)
    ensures WellFormed(s.version)
  {
  }

  // ---- The database. ----

  class DB {
    const maxFileSize: nat
    const fileSize: seq<Entry> -> nat  // the table builder's size after some entries
    var mem: seq<Entry>
    var imm: Option<seq<Entry>>
    var version: Version
    var lastSequence: Sequence
    var snapshots: seq<Sequence>
    var nextFileNumber: nat
    ghost var history: set<Entry>
    ghost var pending: Sequence

    ghost function Abs(): State
      reads this
    {
      State(mem, imm, version, lastSequence, pending, snapshots, nextFileNumber, history)
    }

    constructor (maxFileSize: nat, fileSize: seq<Entry> -> nat)
      ensures Initial(Abs()) && Inv(Abs())
    {
      this.maxFileSize, this.fileSize := maxFileSize, fileSize;
      mem, imm := [], None;
      version := seq(NUM_LEVELS, _ => []);
      lastSequence, snapshots, nextFileNumber := 0, [], 1;
      history, pending := {}, 0;
      new;
      InitialHolds(Abs());
    }

    // MemTable::Add, one operation of a batch.
    method Insert(u: UserKey, kind: ValueType, value: Bytes, sequence: Sequence)
      requires Structure(Abs()) && sequence == pending + 1 < MAX_SEQUENCE
      modifies `mem, `pending, `history
      ensures InsertStep(old(Abs()), Abs(), Entry(InternalKey(u, sequence, kind), value))
      ensures Structure(Abs()) && KeepsReads(old(Abs()), Abs())
    {
      var e := Entry(InternalKey(u, sequence, kind), value);
      FreshKey(Abs(), e);
      InsertSortedHolds(mem, e);
      ghost var s := Abs();
      mem := InsertSorted(mem, e);
      pending, history := pending + 1, history + {e};
      InsertKeeps(s, Abs(), e);
    }

    // The body of a group write: every operation gets the next sequence number, and
    // the batch becomes visible at the end, as a whole.
    method Write(ops: seq<(UserKey, ValueType, Bytes)>)
      requires Structure(Abs()) && pending == lastSequence && lastSequence + |ops| < MAX_SEQUENCE
      modifies `mem, `pending, `history, `lastSequence
      ensures Structure(Abs()) && KeepsReads(old(Abs()), Abs()) && pending == lastSequence == old(lastSequence) + |ops|
      ensures history == old(history) + BatchEntries(ops, old(lastSequence))
      ensures unchanged(`imm, `version, `snapshots, `nextFileNumber)
    {
      hide Structure, Faithful;
      for i := 0 to |ops|
        invariant Structure(Abs()) && KeepsReads(old(Abs()), Abs()) && lastSequence == old(lastSequence) && pending == lastSequence + i
        invariant history == old(history) + BatchEntries(ops[..i], old(lastSequence))
      {
        assert ops[..i + 1][..i] == ops[..i];
        Insert(ops[i].0, ops[i].1, ops[i].2, lastSequence + i + 1);
      }
      assert ops[..|ops|] == ops;
      ghost var s := Abs();
      lastSequence := lastSequence + |ops|;
      PublishKeeps(s, Abs());
    }

    // MakeRoomForWrite: freeze the memtable and start a new one.
    method SwitchMemTable()
      requires Structure(Abs()) && imm.None? && pending == lastSequence
      modifies `mem, `imm
      ensures SwitchStep(old(Abs()), Abs()) && Structure(Abs()) && KeepsReads(old(Abs()), Abs())
    {
      ghost var s := Abs();
      imm, mem := Some(mem), [];
      SwitchKeeps(s, Abs());
    }

    // CompactMemTable.
    method CompactMemTable()
      requires Structure(Abs()) && imm.Some?
      modifies `imm, `version, `nextFileNumber
      ensures exists level, f :: FlushStep(old(Abs()), Abs(), level, f)
      ensures Structure(Abs()) && KeepsReads(old(Abs()), Abs()) && imm == None
    {
      ghost var s := Abs();
      assert WellFormed(version) && Listed(version, nextFileNumber) && Sorted(imm.value);
      hide Structure, Faithful, WellFormed, Listed, Gains, RoomAt, Intact, Sorted;
      ghost var level, f := 0, File(0, 0, LookupKey(0.0, 0), LookupKey(0.0, 0), []);
      if imm.value != [] {
        var l, table, v' := WriteLevel0Table(version, imm.value, nextFileNumber, fileSize, maxFileSize);
        level, f, version := l, table, v';
      }
      nextFileNumber := nextFileNumber + 1;
      imm := None;
      assert FlushStep(s, Abs(), level, f);
      FlushKeeps(s, Abs(), level, f);
    }

    // BackgroundCompaction: a memtable that waits goes first.  Else inputs picked by a trigger or
    // asked for by hand, and, if there are any, a trivial move if it can be one and was not asked
    // for, else a rewrite.
    method BackgroundCompaction(work: Work) returns (ghost done: Option<Compaction>)
      requires Structure(Abs()) && MayStart(work, version)
      modifies `imm, `version, `nextFileNumber
      ensures Structure(Abs())
      ensures old(imm).Some? ==> done.None? && exists level, f :: FlushStep(old(Abs()), Abs(), level, f)
      ensures old(imm).None? && done.None? ==>
                (Abs() == old(Abs()) && work.Asked? && forall f | f in version[work.level] :: !Overlaps(f, work.range))
      ensures done.Some? ==> done.value.level == work.level && Sound(old(version), done.value)
      ensures done.Some? ==>
              || (MoveStep(old(Abs()), Abs(), done.value) && KeepsReads(old(Abs()), Abs()) && !work.Asked?)
              || exists input, outputs :: CompactStep(old(Abs()), Abs(), done.value, input, outputs) &&
                                          forall u | Faithful(old(Abs()), u) ::
                                            Faithful(Abs(), u) <==> !ExposesIn(old(Abs()), done.value, input, u)
    {
      hide Structure, Faithful, ExposesIn, Sound, MoveStep, CompactStep, FlushStep, WellFormed;
      if imm.Some? {
        CompactMemTable();
        return None;
      }
      StructureWellFormed(Abs());
      var picked := Pick(version, work, maxFileSize);
      done := picked;
      if picked.None? {
        return;
      }
      var c := picked.value;
      if !work.Asked? && |c.upper| == 1 && c.lower == [] && TotalFileSize(c.grandparents) <= 10 * maxFileSize {
        Move(c);
      } else {
        var _, _ := Rewrite(c);
      }
    }

    method Move(c: Compaction)
      requires Structure(Abs()) && Sound(version, c) && |c.upper| == 1 && c.lower == []
      modifies `version
      ensures MoveStep(old(Abs()), Abs(), c) && Structure(Abs()) && KeepsReads(old(Abs()), Abs())
    {
      ghost var s := Abs();
      MovedFits(version, c);
      version := InstallSwap(version, c, c.upper, nextFileNumber);
      MoveKeeps(s, Abs(), c);
    }

    method Rewrite(c: Compaction) returns (ghost input: seq<Entry>, ghost outputs: Level)
      requires Structure(Abs()) && Sound(version, c)
      modifies `version, `nextFileNumber
      ensures CompactStep(old(Abs()), Abs(), c, input, outputs) && Structure(Abs())
      ensures forall u | Faithful(old(Abs()), u) :: Faithful(Abs(), u) <==> !ExposesIn(old(Abs()), c, input, u)
    {
      hide Structure, Faithful, ExposesIn, WellFormed, Listed, Sound, Sorted, Swapped, Fits, AllIntact, NumberedFrom,
           UniqueNumbers, AllAtLeast, Flatten, Survivors, InputEntries, Elements;
      ghost var s := Abs();
      RewriteMay(s, c);
      var smallestSnapshot := if snapshots == [] then lastSequence else snapshots[0];
      var entries, tables, next :=
        RebuildTables(version, c, smallestSnapshot, fileSize, maxFileSize, nextFileNumber);
      input, outputs := entries, tables;
      version := InstallSwap(version, c, tables, nextFileNumber);
      nextFileNumber := next;
      CompactKeepsStructure(s, Abs(), c, entries, tables);
      forall u | Faithful(s, u)
        ensures Faithful(Abs(), u) <==> !ExposesIn(s, c, entries, u)
      {
        CompactKeepsKeyIff(s, Abs(), c, entries, tables, u);
      }
    }

    method GetSnapshot() returns (snap: Sequence)
      requires Structure(Abs())
      modifies `snapshots
      ensures TakeStep(old(Abs()), Abs()) && Structure(Abs()) && KeepsReads(old(Abs()), Abs()) && snap == lastSequence
    {
      ghost var s := Abs();
      snap := lastSequence;
      snapshots := snapshots + [snap];
      TakeKeeps(s, Abs());
    }

    method ReleaseSnapshot(i: nat)
      requires Structure(Abs()) && i < |snapshots|
      modifies `snapshots
      ensures ReleaseStep(old(Abs()), Abs(), i) && Structure(Abs()) && KeepsReads(old(Abs()), Abs())
    {
      ghost var s := Abs();
      snapshots := snapshots[..i] + snapshots[i + 1..];
      ReleaseKeeps(s, Abs(), i);
    }

    // DBImpl::Get: memtable, then immutable memtable, then the version.
    method Get(u: UserKey, snap: Sequence) returns (r: Answer)
      requires Structure(Abs()) && Faithful(Abs(), u) && Live(Abs(), snap)
      ensures r == Read(history, u, snap)
    {
      SearchOrder(Abs(), u, snap);
      var hit := SearchRun(mem, u, snap);
      if hit.Some? {
        return Judge(hit);
      }
      if imm.Some? {
        hit := SearchRun(imm.value, u, snap);
        if hit.Some? {
          return Judge(hit);
        }
      }
      r := Versions.Get(version, u, snap);
    }
  }

  // The entries a batch becomes, numbered from the sequence number after last.
  ghost function BatchEntries(ops: seq<(UserKey, ValueType, Bytes)>, last: nat): set<Entry>
    requires last + |ops| <= MAX_SEQUENCE
  {
    if ops == [] then {}
    else
      var n := |ops| - 1;
      BatchEntries(ops[..n], last) + {Entry(InternalKey(ops[n].0, last + |ops|, ops[n].1), ops[n].2)}
  }

  lemma FreshKey(s: State, e: Entry)
    requires Structure(s) && e.key.seqno > s.pending
    ensures forall x | x in s.mem :: x.key != e.key
  {
    forall x | x in s.mem
      ensures x.key != e.key
    {
      assert x in Elements(s.mem);
      assert x in All(s);
    }
  }

  // Memtable, immutable memtable, version is a correct search order.
  lemma SearchOrder(s: State, u: UserKey, snap: Sequence)
    requires Structure(s)
    ensures var m, i := SearchRun(s.mem, u, snap), SearchRun(Frozen(s), u, snap);
            Newest(All(s), u, snap) ==
              if m.Some? then m else if i.Some? then i else Newest(Contents(s.version), u, snap)
  {
    DistinctSubset(All(s), s.history);
    DistinctSubset(Memory(s), s.history);
    DistinctSubset(Elements(s.mem), s.history);
    DistinctSubset(Elements(Frozen(s)), s.history);
    SearchRunFindsNewest(s.mem, u, snap);
    SearchRunFindsNewest(Frozen(s), u, snap);
    SearchNewerFirst(Elements(s.mem), Elements(Frozen(s)), u, snap);
    SearchNewerFirst(Memory(s), Contents(s.version), u, snap);
  }
}
