// The database as a state machine: the steps writers, readers and the background
// thread take, what they keep, and what a read returns in every run.

module Store {
  import opened Keys
  import opened History
  import opened Versions
  import opened VersionEdits
  import opened Picking
  import opened Install
  import opened Swap
  import opened Flush
  import opened Reopening
  import opened DropRules
  import opened CompactionWork

  datatype State = State(
    mem: seq<Entry>,             // mem_
    imm: Option<seq<Entry>>,     // imm_
    version: Version,            // versions_->current()
    last: Sequence,              // versions_->LastSequence(): what readers may see
    pending: Sequence,           // the highest sequence number given out
    snapshots: seq<Sequence>,    // snapshots_, oldest first
    nextFile: nat,
    history: set<Entry>)         // everything ever written

  function Frozen(s: State): seq<Entry> {
    if s.imm.Some? then s.imm.value else []
  }

  ghost function Memory(s: State): set<Entry> {
    Elements(s.mem) + Elements(Frozen(s))
  }

  ghost function All(s: State): set<Entry> {
    Memory(s) + Contents(s.version)
  }

  // The snapshots a read may still be asked at: those held, and the present and future ones.
  ghost predicate Live(s: State, snap: Sequence) {
    snap in s.snapshots || snap >= s.last
  }

  ghost predicate Ascending(q: seq<Sequence>) {
    forall i, j :: 0 <= i < j < |q| ==> q[i] <= q[j]
  }

  ghost predicate Layered(s: State) {
    && Sorted(s.mem) && Sorted(Frozen(s))
    && Newer(Elements(s.mem), Elements(Frozen(s)))
    && Newer(Memory(s), Contents(s.version))
    && Distinct(s.history) && All(s) <= s.history
  }

  ghost predicate Numbered(s: State) {
    && (forall e | e in s.history :: e.key.seqno <= s.pending)
    && s.last <= s.pending < MAX_SEQUENCE
    && Ascending(s.snapshots) && (forall q | q in s.snapshots :: q <= s.last)
  }

  ghost predicate Structure(s: State) {
    WellFormed(s.version) && Listed(s.version, s.nextFile) && Layered(s) && Numbered(s)
  }

  // What the store holds of a key reads like everything ever written of it.
  ghost predicate Faithful(s: State, u: UserKey) {
    forall snap: Sequence | Live(s, snap) :: Read(All(s), u, snap) == Read(s.history, u, snap)
  }

  ghost predicate Meaning(s: State) {
    forall u: UserKey :: Faithful(s, u)
  }

  ghost predicate Inv(s: State) {
    Structure(s) && Meaning(s)
  }

  // A step after which every key reads right that did before.
  ghost predicate KeepsReads(s: State, t: State) {
    forall u: UserKey | Faithful(s, u) :: Faithful(t, u)
  }

  function Smallest(s: State): Sequence {
    if s.snapshots == [] then s.last else s.snapshots[0]
  }

  // ---- Steps. ----

  ghost predicate Initial(s: State) {
    s == State([], None, seq(NUM_LEVELS, _ => []), 0, 0, [], 1, {})
  }

  // One entry of a batch goes into the memtable, not yet visible.
  ghost predicate InsertStep(s: State, t: State, e: Entry) {
    && s.pending < e.key.seqno < MAX_SEQUENCE
    && Sorted(t.mem) && Elements(t.mem) == Elements(s.mem) + {e}
    && t == s.(mem := t.mem, pending := e.key.seqno, history := s.history + {e})
  }

  // Numbers of a batch that failed go by unused.
  ghost predicate SkipStep(s: State, t: State) {
    s.pending <= t.pending < MAX_SEQUENCE && t == s.(pending := t.pending)
  }

  // SetLastSequence: the batch becomes visible as a whole.
  ghost predicate PublishStep(s: State, t: State) {
    t == s.(last := s.pending)
  }

  // MakeRoomForWrite switches to a new memtable between batches.
  ghost predicate SwitchStep(s: State, t: State) {
    s.imm.None? && s.pending == s.last && t == s.(imm := Some(s.mem), mem := [])
  }

  ghost predicate FlushStep(s: State, t: State, level: nat, f: File) {
    && s.imm.Some? && t == s.(imm := None, version := t.version, nextFile := s.nextFile + 1)
    && if s.imm.value == [] then t.version == s.version
       else Intact(f) && f.run == s.imm.value && f.number == s.nextFile &&
            RoomAt(s.version, level, f) && Gains(s.version, t.version, level, f)
  }

  ghost predicate MoveStep(s: State, t: State, c: Compaction) {
    && Sound(s.version, c) && |c.upper| == 1 && c.lower == []
    && Swapped(s.version, t.version, c, c.upper)
    && t == s.(version := t.version)
  }

  ghost predicate CompactStep(s: State, t: State, c: Compaction, input: seq<Entry>, outputs: Level) {
    && Sound(s.version, c)
    && Sorted(input) && Elements(input) == InputEntries(c)
    && Flatten(outputs) == Survivors(input, Smallest(s), BaseLevels(s.version, c.level))
    && AllIntact(outputs) && NumberedFrom(outputs, s.nextFile)
    && Swapped(s.version, t.version, c, outputs)
    && t == s.(version := t.version, nextFile := s.nextFile + |outputs|)
  }

  ghost predicate TakeStep(s: State, t: State) {
    t == s.(snapshots := s.snapshots + [s.last])
  }

  ghost predicate ReleaseStep(s: State, t: State, i: nat) {
    i < |s.snapshots| && t == s.(snapshots := s.snapshots[..i] + s.snapshots[i + 1..])
  }

  // The store is closed and opened again: the memtables are gone, and what the logs hold is in
  // tables on level 0, which is what the memtables had and perhaps a batch that came after all that
  // was ever inserted.  No snapshot outlives it, and some numbers may be skipped.
  ghost predicate ReopenStep(s: State, t: State, first: nat, fs: Level) {
    && Listed(s.version, first) && NumberedIn(fs, first, t.nextFile)
    && Replayed(s.version, t.version, fs) && Memory(s) <= LevelEntries(fs)
    && Later(s.history, LevelEntries(fs) - Memory(s), t.pending)
    && s.pending <= t.pending < MAX_SEQUENCE
    && t == State([], None, t.version, t.pending, t.pending, [], t.nextFile, s.history + LevelEntries(fs))
  }

  // Entries numbered after all of a history, up to an end.
  ghost predicate Later(history: set<Entry>, more: set<Entry>, end: Sequence) {
    && (forall x, e | x in history && e in more :: x.key.seqno < e.key.seqno)
    && (forall e | e in more :: e.key.seqno <= end)
    && Distinct(more)
  }

  // A compaction that exposes a key, or none at all.
  ghost predicate ExposesIn(s: State, c: Compaction, input: seq<Entry>, u: UserKey) {
    && c.level + 1 < |s.version|
    && Exposed(Around(Memory(s), s.version, c), input, Smallest(s), BaseLevels(s.version, c.level), u)
  }

  ghost predicate Unexposed(s: State, c: Compaction, input: seq<Entry>) {
    forall u: UserKey :: !ExposesIn(s, c, input, u)
  }

  ghost predicate Next(s: State, t: State) {
    || (exists e :: InsertStep(s, t, e))
    || SkipStep(s, t)
    || PublishStep(s, t)
    || SwitchStep(s, t)
    || (exists level, f :: FlushStep(s, t, level, f))
    || (exists c :: MoveStep(s, t, c))
    || (exists c, input, outputs :: CompactStep(s, t, c, input, outputs))
    || TakeStep(s, t)
    || (exists i :: ReleaseStep(s, t, i))
    || (exists first, fs :: ReopenStep(s, t, first, fs))
  }

  // The step is a compaction that exposes the key.
  ghost predicate Exposes(s: State, t: State, u: UserKey) {
    exists c, input, outputs :: CompactStep(s, t, c, input, outputs) && ExposesIn(s, c, input, u)
  }

  // ---- What the steps keep. ----

  lemma InitialHolds(s: State)
    requires Initial(s)
    ensures Inv(s)
  {
    EmptyVersion(s.version);
    assert Elements([]) == {};
    assert All(s) == {};
  }

  lemma EmptyVersion(v: Version)
    requires |v| == NUM_LEVELS && forall l | 0 <= l < NUM_LEVELS :: v[l] == []
    ensures WellFormed(v) && Listed(v, 1) && Contents(v) == {}
  {
    assert forall l | 0 <= l < NUM_LEVELS :: LevelEntries(v[l]) == {};
  }

  lemma SameReads(S: set<Entry>, H: set<Entry>, e: Entry, u: UserKey, snap: Sequence)
    requires Distinct(H + {e}) && S <= H
    requires forall x | x in H :: x.key.seqno < e.key.seqno
    requires Read(S, u, snap) == Read(H, u, snap)
    ensures Read(S + {e}, u, snap) == Read(H + {e}, u, snap)
  {
    DistinctSubset(S + {e}, H + {e});
    if Visible(e, u, snap) {
      NewestIs(e, S + {e}, u, snap);
      NewestIs(e, H + {e}, u, snap);
    } else {
      InvisibleChangesNothing(S, e, u, snap);
      InvisibleChangesNothing(H, e, u, snap);
    }
  }

  lemma InvisibleChangesNothing(S: set<Entry>, e: Entry, u: UserKey, snap: Sequence)
    requires Distinct(S + {e}) && !Visible(e, u, snap)
    ensures Newest(S + {e}, u, snap) == Newest(S, u, snap)
  {
    var r := Newest(S, u, snap);
    if r.Some? {
      NewestIs(r.value, S + {e}, u, snap);
    }
  }

  lemma InsertLayered(s: State, t: State, e: Entry)
    requires Layered(s) && Numbered(s) && InsertStep(s, t, e)
    ensures Layered(t) && Numbered(t) && All(t) == All(s) + {e}
  {
  }

  lemma InsertKeeps(s: State, t: State, e: Entry)
    requires Structure(s) && InsertStep(s, t, e)
    ensures Structure(t) && KeepsReads(s, t)
  {
    InsertLayered(s, t, e);
    forall u: UserKey | Faithful(s, u)
      ensures Faithful(t, u)
    {
      forall snap: Sequence | Live(t, snap)
        ensures Read(All(t), u, snap) == Read(t.history, u, snap)
      {
        SameReads(All(s), s.history, e, u, snap);
      }
    }
  }

  // A step that only moves entries around reads as before.
  lemma SameEntriesSameMeaning(s: State, t: State)
    requires All(t) == All(s) && t.history == s.history
    requires forall snap: Sequence | Live(t, snap) :: Live(s, snap)
    ensures KeepsReads(s, t)
  {
  }

  lemma SkipKeeps(s: State, t: State)
    requires Structure(s) && SkipStep(s, t)
    ensures Structure(t) && KeepsReads(s, t)
  {
    assert All(t) == All(s);
    SameEntriesSameMeaning(s, t);
  }

  lemma PublishKeeps(s: State, t: State)
    requires Structure(s) && PublishStep(s, t)
    ensures Structure(t) && KeepsReads(s, t)
  {
    assert All(t) == All(s);
    SameEntriesSameMeaning(s, t);
  }

  lemma SwitchKeeps(s: State, t: State)
    requires Structure(s) && SwitchStep(s, t)
    ensures Structure(t) && KeepsReads(s, t)
  {
    assert Elements([]) == {};
    assert Memory(t) == Memory(s);
    SameEntriesSameMeaning(s, t);
  }

  lemma FlushKeeps(s: State, t: State, level: nat, f: File)
    requires Structure(s) && FlushStep(s, t, level, f)
    ensures Structure(t) && KeepsReads(s, t)
  {
    assert Elements([]) == {};
    if s.imm.value == [] {
      assert Memory(t) == Memory(s);
    } else {
      FlushedIsFresh(s, f);
      FlushKeepsWellFormed(s.version, t.version, level, f);
      GainKeepsListed(s.version, t.version, level, f, s.nextFile);
      FlushLayered(s, t, f);
    }
    SameEntriesSameMeaning(s, t);
  }

  lemma FlushLayered(s: State, t: State, f: File)
    requires Layered(s) && s.imm == Some(f.run) && t.imm == None && t.mem == s.mem && t.history == s.history
    requires Contents(t.version) == Contents(s.version) + Elements(f.run)
    ensures Layered(t) && All(t) == All(s)
  {
    assert Elements([]) == {};
    assert Memory(s) == Elements(s.mem) + Elements(f.run);
    assert Memory(t) == Elements(s.mem);
  }

  lemma FlushedIsFresh(s: State, f: File)
    requires Structure(s) && s.imm.Some? && f.run == s.imm.value && Intact(f) && f.number == s.nextFile
    ensures Fresh(s.version, f)
  {
    DistinctSubset(Contents(s.version) + Elements(f.run), s.history);
  }

  lemma SwappedFrom(v: Version, v': Version, c: Compaction, come: Level, l: nat, g: File)
    requires Swapped(v, v', c, come) && l < NUM_LEVELS && g in v'[l]
    ensures (l == c.level + 1 && g in come) || g in v[l]
    ensures l == c.level ==> g !in c.upper
  {
    hide InOrder;
    assert g in Files(v'[l]);
  }

  lemma SwappedUnique(v: Version, v': Version, c: Compaction, come: Level, n: nat, l: nat)
    requires Listed(v, n) && Swapped(v, v', c, come) && UniqueNumbers(Files(come)) && l < NUM_LEVELS
    requires forall f | f in come :: n <= f.number || f in c.upper
    requires forall f | f in c.upper :: f in v[c.level]
    ensures |v'| == NUM_LEVELS && InOrder(v'[l]) && UniqueNumbers(Files(v'[l]))
  {
    hide InOrder;
    forall g, h | g in Files(v'[l]) && h in Files(v'[l]) && g.number == h.number
      ensures g == h
    {
      SwappedFrom(v, v', c, come, l, g);
      SwappedFrom(v, v', c, come, l, h);
      assert g in v[l] ==> g in Files(v[l]);
      assert h in v[l] ==> h in Files(v[l]);
      assert g in come ==> g in Files(come);
      assert h in come ==> h in Files(come);
    }
  }

  lemma SwappedApart(v: Version, v': Version, c: Compaction, come: Level, n: nat, l: nat, k: nat, g: File, h: File)
    requires Listed(v, n) && Swapped(v, v', c, come)
    requires forall f | f in come :: n <= f.number || f in c.upper
    requires forall f | f in c.upper :: f in v[c.level]
    requires l < k < NUM_LEVELS && g in v'[l] && h in v'[k]
    ensures g.number != h.number
  {
    hide InOrder;
    SwappedFrom(v, v', c, come, l, g);
    SwappedFrom(v, v', c, come, k, h);
    if h in come && h in c.upper && g in v[l] {
      assert h in Files(v[c.level]);
      assert l == c.level ==> g in Files(v[l]);
    }
  }

  lemma SwapKeepsListed(v: Version, v': Version, c: Compaction, come: Level, n: nat, n': nat)
    requires Listed(v, n) && Swapped(v, v', c, come) && n <= n'
    requires UniqueNumbers(Files(come)) && forall f | f in come :: f.number < n'
    requires forall f | f in come :: n <= f.number || f in c.upper
    requires forall f | f in c.upper :: f in v[c.level]
    ensures Listed(v', n')
  {
    hide Swapped, InOrder, UniqueNumbers;
    SwappedUnique(v, v', c, come, n, 0);
    forall l: nat | l < NUM_LEVELS
      ensures InOrder(v'[l]) && UniqueNumbers(Files(v'[l]))
    {
      SwappedUnique(v, v', c, come, n, l);
    }
    forall l: nat, g | l < NUM_LEVELS && g in v'[l]
      ensures g.number < n'
    {
      SwappedFrom(v, v', c, come, l, g);
      assert g in v[l] ==> g.number < n;
    }
    forall l: nat, k: nat, g, h | l < k < NUM_LEVELS && g in v'[l] && h in v'[k]
      ensures g.number != h.number
    {
      SwappedApart(v, v', c, come, n, l, k, g, h);
    }
  }

  lemma MoveKeeps(s: State, t: State, c: Compaction)
    requires Structure(s) && MoveStep(s, t, c)
    ensures Structure(t) && KeepsReads(s, t)
  {
    var v, v' := s.version, t.version;
    UpperWithin(v, c);
    assert forall f | f in c.upper :: f in Files(c.upper);
    MovedFits(v, c);
    SwapKeepsWellFormed(v, v', c, c.upper);
    SwapKeepsListed(v, v', c, c.upper, s.nextFile, s.nextFile);
    AroundBefore(Memory(s), v, c);
    AroundAfter(Memory(s), v, v', c, c.upper);
    SwappedContentsWithin(v, v', c, c.upper);
    LayeredShrinks(s, t);
    SameEntriesSameMeaning(s, t);
  }

  lemma OneFile(fs: Level)
    requires |fs| == 1
    ensures Files(fs) == {fs[0]} && PairwiseApart(Files(fs)) && UniqueNumbers(Files(fs))
  {
    assert fs == [fs[0]];
  }

  lemma MovedFits(v: Version, c: Compaction)
    requires Sound(v, c) && AllIntact(v[c.level]) && |c.upper| == 1 && c.lower == []
    ensures Fits(c, c.upper) && LevelEntries(c.upper) == InputEntries(c) && UniqueNumbers(Files(c.upper))
  {
    UpperWithin(v, c);
    OneFile(c.upper);
    assert c.upper[0] in Files(c.upper);
    LevelEntriesOf(c.upper);
    assert Files(c.upper) + Files(c.lower) == Files(c.upper);
  }

  lemma LayeredShrinks(s: State, t: State)
    requires Layered(s) && t.mem == s.mem && t.imm == s.imm && t.history == s.history
    requires Contents(t.version) <= Contents(s.version)
    ensures Layered(t)
  {
    NewerParts(Memory(s), Contents(s.version), {}, Memory(t), Contents(t.version));
  }

  lemma OutputsFit(s: State, c: Compaction, input: seq<Entry>, outputs: Level, m: Sequence, base: UserKey -> bool)
    requires Sorted(input) && Elements(input) == InputEntries(c)
    requires Flatten(outputs) == Survivors(input, m, base)
    requires AllIntact(outputs) && NumberedFrom(outputs, s.nextFile)
    ensures Fits(c, outputs) && LevelEntries(outputs) == Elements(Survivors(input, m, base))
    ensures UniqueNumbers(Files(outputs))
    ensures forall f | f in outputs :: s.nextFile <= f.number < s.nextFile + |outputs|
  {
    SurvivorsSorted(input, m, base);
    SurvivorsAre(input, m, base);
    CutsAreDisjoint(outputs);
    ApartFromDisjoint(outputs);
    FlattenHolds(outputs);
  }

  // Whatever it exposes, a compaction keeps the structure, and turns the store the
  // drop rules see before it into the one they see after it.
  lemma CompactKeepsStructure(s: State, t: State, c: Compaction, input: seq<Entry>, outputs: Level)
    requires Structure(s) && CompactStep(s, t, c, input, outputs)
    ensures Structure(t)
    ensures All(s) == Before(Around(Memory(s), s.version, c), input)
    ensures All(t) == After(Around(Memory(s), s.version, c), input, Smallest(s), BaseLevels(s.version, c.level))
  {
    var v, v' := s.version, t.version;
    OutputsFit(s, c, input, outputs, Smallest(s), BaseLevels(v, c.level));
    UpperWithin(v, c);
    assert forall f | f in c.upper :: f in Files(c.upper);
    SwapKeepsWellFormed(v, v', c, outputs);
    SwapKeepsListed(v, v', c, outputs, s.nextFile, t.nextFile);
    AroundBefore(Memory(s), v, c);
    AroundAfter(Memory(s), v, v', c, outputs);
    SwappedContentsWithin(v, v', c, outputs);
    LayeredShrinks(s, t);
  }

  lemma SmallestIsOldestLive(s: State)
    requires Numbered(s)
    ensures Live(s, Smallest(s)) && Smallest(s) < MAX_SEQUENCE
    ensures forall snap: Sequence | Live(s, snap) :: Smallest(s) <= snap
  {
    if s.snapshots != [] {
      assert s.snapshots[0] in s.snapshots;
      forall snap: Sequence | snap in s.snapshots
        ensures s.snapshots[0] <= snap
      {
        var j :| 0 <= j < |s.snapshots| && s.snapshots[j] == snap;
        assert 0 < j ==> s.snapshots[0] <= s.snapshots[j];
      }
    }
  }

  // Of a key that read right before it, a compaction keeps the reads exactly when it does not
  // expose that key.
  lemma CompactKeepsKeyIff(s: State, t: State, c: Compaction, input: seq<Entry>, outputs: Level, u: UserKey)
    requires Structure(s) && Faithful(s, u) && CompactStep(s, t, c, input, outputs)
    ensures Structure(t)
    ensures Faithful(t, u) <==> !ExposesIn(s, c, input, u)
  {
    CompactKeepsStructure(s, t, c, input, outputs);
    SmallestIsOldestLive(s);
    var around, base, m := Around(Memory(s), s.version, c), BaseLevels(s.version, c.level), Smallest(s);
    DistinctSubset(All(s), s.history);
    CompactionPlaced(Memory(s), s.version, c, input);
    if ExposesIn(s, c, input, u) {
      ExposedReadChanges(around, input, m, base, u);
      assert Live(t, m);
      assert Read(All(s), u, m) == Read(s.history, u, m);
      assert Read(All(t), u, m) != Read(t.history, u, m);
    } else {
      forall snap: Sequence | Live(t, snap)
        ensures Read(All(t), u, snap) == Read(t.history, u, snap)
      {
        assert Live(s, snap);
        UnexposedReadKept(around, input, m, base, u, snap);
      }
    }
  }

  // A compaction keeps the meaning of the store exactly when it exposes no key.
  lemma CompactKeepsMeaningIff(s: State, t: State, c: Compaction, input: seq<Entry>, outputs: Level)
    requires Inv(s) && CompactStep(s, t, c, input, outputs)
    ensures Structure(t)
    ensures Meaning(t) <==> Unexposed(s, c, input)
  {
    hide Structure, Faithful, CompactStep, ExposesIn;
    forall u: UserKey
      ensures Structure(t) && (Faithful(t, u) <==> !ExposesIn(s, c, input, u))
    {
      CompactKeepsKeyIff(s, t, c, input, outputs, u);
    }
    CompactKeepsKeyIff(s, t, c, input, outputs, 0.0);
  }

  lemma RemovedAscending(q: seq<Sequence>, i: nat)
    requires Ascending(q) && i < |q|
    ensures Ascending(q[..i] + q[i + 1..])
  {
    var r := q[..i] + q[i + 1..];
    forall a, b | 0 <= a < b < |r|
      ensures r[a] <= r[b]
    {
      assert r[a] == q[if a < i then a else a + 1] && r[b] == q[if b < i then b else b + 1];
    }
  }

  lemma AppendedAscending(q: seq<Sequence>, x: Sequence)
    requires Ascending(q) && forall y | y in q :: y <= x
    ensures Ascending(q + [x])
  {
    assert forall i | 0 <= i < |q| :: q[i] in q;
  }

  lemma TakeKeeps(s: State, t: State)
    requires Structure(s) && TakeStep(s, t)
    ensures Structure(t) && KeepsReads(s, t)
  {
    AppendedAscending(s.snapshots, s.last);
    assert All(t) == All(s);
    SameEntriesSameMeaning(s, t);
  }

  lemma ReleaseKeeps(s: State, t: State, i: nat)
    requires Structure(s) && ReleaseStep(s, t, i)
    ensures Structure(t) && KeepsReads(s, t)
  {
    RemovedAscending(s.snapshots, i);
    assert forall q | q in t.snapshots :: q in s.snapshots;
    assert All(t) == All(s);
    SameEntriesSameMeaning(s, t);
  }

  lemma NothingNewer(S: set<Entry>)
    ensures Newer({}, S)
  {
  }

  lemma WithMore(H: set<Entry>, S: set<Entry>, S': set<Entry>, more: set<Entry>, end: Sequence)
    requires Distinct(H) && S <= H && S' <= H && Later(H, more, end)
    ensures Distinct(H + more) && Newer(more, H) && (Newer(S', S) ==> Newer(S' + more, S))
  {
  }

  lemma ReopenedVersion(s: State, t: State, first: nat, fs: Level)
    requires Structure(s) && ReopenStep(s, t, first, fs)
    ensures WellFormed(t.version) && Listed(t.version, t.nextFile) && Memory(t) == {}
    ensures var more := LevelEntries(fs) - Memory(s);
      && All(t) == All(s) + more && t.history == s.history + more
      && Later(s.history, more, t.pending) && Distinct(t.history) && Newer(more, s.history)
  {
    hide WellFormed, Listed, Newer, LevelEntries, Contents, Replayed, NumberedIn, Sorted, Later, Distinct;
    assert Elements([]) == {};
    var more := LevelEntries(fs) - Memory(s);
    WithMore(s.history, Contents(s.version), Memory(s), more, t.pending);
    assert Memory(s) + more == LevelEntries(fs);
    DistinctSubset(Contents(s.version) + LevelEntries(fs), s.history + more);
    assert s.history + LevelEntries(fs) == s.history + more;
    ReplayKeepsWellFormed(s.version, t.version, fs, first, t.nextFile);
    assert All(t) == Contents(s.version) + LevelEntries(fs);
  }

  // Newer entries decide reads of what they are added to, and of its history, alike.
  lemma MoreReadsAlike(S: set<Entry>, H: set<Entry>, more: set<Entry>, u: UserKey, snap: Sequence)
    requires Distinct(H + more) && S <= H && Newer(more, H) && Read(S, u, snap) == Read(H, u, snap)
    ensures Read(S + more, u, snap) == Read(H + more, u, snap)
  {
    assert S + more == more + S && H + more == more + H;
    DistinctSubset(more + S, H + more);
    SearchNewerFirst(more, S, u, snap);
    SearchNewerFirst(more, H, u, snap);
  }

  lemma ReopenKeepsReads(s: State, t: State, first: nat, fs: Level)
    requires Structure(s) && ReopenStep(s, t, first, fs)
    ensures KeepsReads(s, t)
  {
    hide WellFormed, Listed, Newer, Contents, Replayed, NumberedIn, All, Memory, LevelEntries, Distinct, Later, Read;
    ReopenedVersion(s, t, first, fs);
    forall u: UserKey | Faithful(s, u)
      ensures Faithful(t, u)
    {
      forall snap: Sequence | Live(t, snap)
        ensures Read(All(t), u, snap) == Read(t.history, u, snap)
      {
        assert Live(s, snap);
        MoreReadsAlike(All(s), s.history, LevelEntries(fs) - Memory(s), u, snap);
      }
    }
  }

  lemma UptoEnd(H: set<Entry>, more: set<Entry>, pending: Sequence, end: Sequence)
    requires Later(H, more, end) && pending <= end && forall e | e in H :: e.key.seqno <= pending
    ensures forall e | e in H + more :: e.key.seqno <= end
  {
  }

  lemma ReopenKeeps(s: State, t: State, first: nat, fs: Level)
    requires Structure(s) && ReopenStep(s, t, first, fs)
    ensures Structure(t) && KeepsReads(s, t)
  {
    hide WellFormed, Listed, Newer, Contents, Replayed, NumberedIn, Memory, LevelEntries, Distinct, Later, KeepsReads;
    assert Elements([]) == {};
    ReopenKeepsReads(s, t, first, fs);
    ReopenedVersion(s, t, first, fs);
    UptoEnd(s.history, LevelEntries(fs) - Memory(s), s.pending, t.pending);
    NothingNewer(Contents(t.version));
    NothingNewer({});
    assert All(t) <= t.history;
  }

  // Every step keeps the structure, and the reads of every key but those it exposes.
  lemma NextKeeps(s: State, t: State, u: UserKey)
    requires Structure(s) && Next(s, t)
    ensures Structure(t)
    ensures Faithful(s, u) ==> (Faithful(t, u) <==> !Exposes(s, t, u))
  {
    hide Structure, Faithful, InsertStep, SkipStep, PublishStep, SwitchStep, FlushStep, MoveStep, CompactStep, TakeStep, ReleaseStep, ReopenStep, ExposesIn;
    if Faithful(s, u) && Exposes(s, t, u) {
      var c, input, outputs :| CompactStep(s, t, c, input, outputs) && ExposesIn(s, c, input, u);
      CompactKeepsKeyIff(s, t, c, input, outputs, u);
    } else if e :| InsertStep(s, t, e) {
      InsertKeeps(s, t, e);
    } else if SkipStep(s, t) {
      SkipKeeps(s, t);
    } else if PublishStep(s, t) {
      PublishKeeps(s, t);
    } else if SwitchStep(s, t) {
      SwitchKeeps(s, t);
    } else if level, f :| FlushStep(s, t, level, f) {
      FlushKeeps(s, t, level, f);
    } else if c :| MoveStep(s, t, c) {
      MoveKeeps(s, t, c);
    } else if c, input, outputs :| CompactStep(s, t, c, input, outputs) {
      CompactKeepsStructure(s, t, c, input, outputs);
      if Faithful(s, u) {
        CompactKeepsKeyIff(s, t, c, input, outputs, u);
      }
    } else if TakeStep(s, t) {
      TakeKeeps(s, t);
    } else if i :| ReleaseStep(s, t, i) {
      ReleaseKeeps(s, t, i);
    } else {
      var first, fs :| ReopenStep(s, t, first, fs);
      ReopenKeeps(s, t, first, fs);
    }
  }

  // ---- Runs. ----

  ghost predicate StepAt(run: seq<State>, i: nat)
    requires i + 1 < |run|
  {
    Next(run[i], run[i + 1])
  }

  ghost predicate Run(run: seq<State>) {
    && run != [] && Initial(run[0])
    && forall i: nat | i + 1 < |run| :: StepAt(run, i)
  }

  // The state at the end of a run.
  function End(run: seq<State>): State
    requires run != []
  {
    run[|run| - 1]
  }

  lemma RunStarts(run: seq<State>)
    requires Run(run)
    ensures run != []
  {
    hide Next;
  }

  lemma RunGoesOn(run: seq<State>, t: State)
    requires Run(run) && Next(run[|run| - 1], t)
    ensures Run(run + [t])
  {
    hide Next;
    var r := run + [t];
    forall i: nat | i + 1 < |r|
      ensures StepAt(r, i)
    {
      assert i + 1 < |run| ==> StepAt(run, i);
    }
  }

  ghost predicate ExposesAt(run: seq<State>, i: nat, u: UserKey)
    requires i + 1 < |run|
  {
    Exposes(run[i], run[i + 1], u)
  }

  // No compaction of the run up to state n has exposed the key.
  ghost predicate Covered(run: seq<State>, n: nat, u: UserKey)
    requires n < |run|
  {
    forall i: nat | i < n :: !ExposesAt(run, i, u)
  }

  lemma {:induction false} RunsStructured(run: seq<State>, n: nat)
    requires Run(run) && n < |run|
    ensures Structure(run[n])
  {
    hide Structure, Next;
    if n == 0 {
      InitialHolds(run[0]);
    } else {
      RunsStructured(run, n - 1);
      assert StepAt(run, n - 1);
      NextKeeps(run[n - 1], run[n], 0.0);
    }
  }

  // Over every run, with any compactions, a key that none has exposed reads at every live snapshot
  // as the newest entry ever written at or below it; and it has read so all along only then.
  lemma {:induction false} RunsReadHistory(run: seq<State>, n: nat, u: UserKey)
    requires Run(run) && n < |run|
    ensures Covered(run, n, u) <==> forall i: nat | i <= n :: Faithful(run[i], u)
  {
    hide Structure, Faithful, Next, Exposes;
    InitialHolds(run[0]);
    if n > 0 {
      RunsReadHistory(run, n - 1, u);
      RunsStructured(run, n - 1);
      assert StepAt(run, n - 1);
      NextKeeps(run[n - 1], run[n], u);
      assert ExposesAt(run, n - 1, u) <==> Exposes(run[n - 1], run[n], u);
      assert Covered(run, n, u) <==> Covered(run, n - 1, u) && !ExposesAt(run, n - 1, u);
    }
  }

  // What is written later is numbered above everything readable before.
  ghost predicate Grows(s: State, t: State) {
    && s.history <= t.history && s.pending <= t.pending && s.last <= t.last
    && forall e | e in t.history && e !in s.history :: e.key.seqno > s.pending
  }

  // An entry whose number was given out before turns up only now: its batch was logged but failed
  // to be synced, and a reopening found it all the same.
  ghost predicate ComesBack(s: State, t: State) {
    exists e :: e in t.history && e !in s.history && e.key.seqno <= s.pending
  }

  ghost predicate NothingComesBack(run: seq<State>, i: nat, j: nat)
    requires i <= j < |run|
  {
    forall k: nat | i <= k < j :: !ComesBack(run[k], run[k + 1])
  }

  lemma NextGrows(s: State, t: State)
    requires Structure(s) && Next(s, t) && !ComesBack(s, t)
    ensures Grows(s, t)
  {
    hide WellFormed, Listed, Layered, Newer, LevelEntries, Contents, Replayed, NumberedIn, Gains, RoomAt, Sound, Swapped, Sorted,
         Later, Survivors, AllIntact, Intact, Memory, NumberedFrom, Flatten, InputEntries;
  }

  lemma GrowsItself(s: State)
    ensures Grows(s, s)
  {
  }

  lemma GrowsTransitive(a: State, b: State, c: State)
    requires Grows(a, b) && Grows(b, c)
    ensures Grows(a, c)
  {
  }

  lemma {:induction false} RunGrows(run: seq<State>, i: nat, j: nat)
    requires Run(run) && i <= j < |run| && NothingComesBack(run, i, j)
    ensures Grows(run[i], run[j])
    decreases j - i
  {
    hide Structure, Next, Grows, ComesBack;
    GrowsItself(run[i]);
    if i < j {
      RunGrows(run, i, j - 1);
      RunsStructured(run, j - 1);
      assert StepAt(run, j - 1);
      NextGrows(run[j - 1], run[j]);
      GrowsTransitive(run[i], run[j - 1], run[j]);
    }
  }

  // A snapshot is repeatable: as long as it is live, it reads of a key no compaction has exposed,
  // in every later state, what was written when it was taken.
  lemma SnapshotReadsRepeat(run: seq<State>, i: nat, j: nat, u: UserKey, snap: Sequence)
    requires Run(run) && i <= j < |run| && Covered(run, j, u) && NothingComesBack(run, i, j)
    requires snap <= run[i].last && Live(run[j], snap)
    ensures Read(All(run[j]), u, snap) == Read(run[i].history, u, snap)
  {
    hide Next, ComesBack, Covered, All, WellFormed, Listed, Newer;
    RunsReadHistory(run, j, u);
    RunsStructured(run, i);
    RunsStructured(run, j);
    RunGrows(run, i, j);
    var later := run[j].history - run[i].history;
    assert run[j].history == run[i].history + later;
    LaterWritesInvisible(run[i].history, later, u, snap);
  }

  // A reader that took its memtables and version in state i, and reads them while
  // the memtable it shares goes on growing, still gets the answer of state i.
  lemma HeldViewReadsTheSame(run: seq<State>, i: nat, grown: set<Entry>, u: UserKey, snap: Sequence)
    requires Run(run) && i < |run| && Covered(run, i, u) && Live(run[i], snap) && snap <= run[i].last
    requires Distinct(All(run[i]) + grown) && forall e | e in grown :: e.key.seqno > run[i].last
    ensures Read(All(run[i]) + grown, u, snap) == Read(run[i].history, u, snap)
  {
    RunsReadHistory(run, i, u);
    LaterWritesInvisible(All(run[i]), grown, u, snap);
  }
}
