// The store together with what it has on disk: its steps in memory, the batches in its log files,
// the edits in its manifest, and what a crash leaves of them (db/db_impl.cc, Write, MakeRoomForWrite,
// CompactMemTable and Recover).

module Sessions {
  import opened Keys
  import opened History
  import opened Versions
  import opened VersionEdits
  import opened Picking
  import opened Install
  import opened Swap
  import opened Flush
  import opened Reopening
  import opened CompactionWork
  import opened EditReplays
  import opened EditRuns
  import opened Store
  import opened Crashes
  import opened Recovery
  import opened ReplayRuns
  import opened Opening

  // The manifest: a snapshot of a version, the edits since, and the counters of the last one.
  datatype Noted = Noted(base: Version, edits: seq<VersionEdit>, last: Sequence, next: nat)

  datatype Session = Session(
    run: seq<State>,             // the store, with its past
    oldLog: seq<Batches.Record>, // the log file of imm_
    log: seq<Batches.Record>,    // the log file of mem_
    rest: seq<Batches.Stamped>,  // logged, but not inserted
    floor: Sequence,             // all numbers up to here are in tables, or lost
    mid: Sequence,               // those up to here are in oldLog
    noted: Noted)

  // ---- Logs. ----

  // Batches one after another, numbered above lo and up to hi.
  ghost predicate Rises(log: seq<Batches.Record>, lo: nat, hi: nat) {
    && (forall i | 0 <= i < |log| :: lo < log[i].first && log[i].first + |log[i].ops| <= hi + 1)
    && (forall i, j | 0 <= i < j < |log| :: log[i].first + |log[i].ops| <= log[j].first)
  }

  // The entries are those of the operations.
  ghost predicate Holds(S: set<Entry>, ops: seq<Batches.Stamped>) {
    InReach(ops) && S == Written(ops)
  }

  function Applied(log: seq<Batches.Record>, rest: seq<Batches.Stamped>): seq<Batches.Stamped>
    requires |rest| <= |Batches.Replay(log)|
  {
    Batches.Replay(log)[..|Batches.Replay(log)| - |rest|]
  }

  // The highest number given out, inserted or not.
  function Top(s: State, rest: seq<Batches.Stamped>): nat {
    if rest == [] || rest[|rest| - 1].seqno <= s.pending then s.pending else rest[|rest| - 1].seqno
  }

  // The numbers are above all those of a history.
  ghost predicate Above(rest: seq<Batches.Stamped>, history: set<Entry>) {
    forall e, i | e in history && 0 <= i < |rest| :: e.key.seqno < rest[i].seqno
  }

  // What the memtables hold is in the logs, and what the logs hold beyond that comes after all else.
  ghost predicate Logged(s: State, oldLog: seq<Batches.Record>, log: seq<Batches.Record>, rest: seq<Batches.Stamped>,
                         floor: Sequence, mid: Sequence) {
    && floor <= mid <= s.last
    && Rises(oldLog, floor, mid) && Rises(log, mid, Top(s, rest)) && Top(s, rest) < MAX_SEQUENCE
    && Writable(oldLog) && Writable(log)
    && |rest| <= |Batches.Replay(log)| && Batches.Replay(log) == Applied(log, rest) + rest
    && Holds(Elements(Frozen(s)), Batches.Replay(oldLog)) && (s.imm.None? ==> oldLog == [])
    && Holds(Elements(s.mem), Applied(log, rest))
    && Above(rest, s.history)
  }

  // What was ever in a table is not lost.
  ghost predicate Lasting(run: seq<State>, floor: Sequence) {
    Run(run) && AllDurable(run, floor)
  }

  ghost predicate InManifest(s: State, floor: Sequence, m: Noted) {
    Tracks(m.base, m.edits, s.version, m.next) && m.next <= s.nextFile && floor <= m.last <= s.last
  }

  ghost predicate Consistent(w: Session) {
    && w.run != [] && Lasting(w.run, w.floor)
    && Logged(End(w.run), w.oldLog, w.log, w.rest, w.floor, w.mid)
    && InManifest(End(w.run), w.floor, w.noted)
  }

  // ---- Steps. ----

  // The store is at the end of a run.
  function Now(w: Session): State
    requires w.run != []
  {
    End(w.run)
  }

  // A writer's batch goes to the log, numbered from the last sequence on.
  ghost predicate AppendStep(w: Session, w': Session, r: Batches.Record) {
    && w.run != [] && w.rest == [] && Now(w).pending == Now(w).last
    && r.first == Now(w).last + 1 && r.first + |r.ops| <= MAX_SEQUENCE && Writable([r])
    && w' == w.(log := w.log + [r], rest := Batches.Numbered(r.first, r.ops))
  }

  // Its next operation goes into the memtable.
  ghost predicate ApplyStep(w: Session, w': Session, t: State) {
    && w.run != [] && w.rest != [] && w.rest[0].seqno < MAX_SEQUENCE && InsertStep(Now(w), t, EntryOfOp(w.rest[0]))
    && w' == w.(run := w.run + [t], rest := w.rest[1..])
  }

  // A new memtable and a new log file.
  ghost predicate RotateStep(w: Session, w': Session, t: State) {
    && w.run != [] && w.rest == [] && SwitchStep(Now(w), t)
    && w' == w.(run := w.run + [t], oldLog := w.log, log := [], mid := Now(w).last)
  }

  // A step that changes neither a log nor the version.
  ghost predicate QuietStep(w: Session, w': Session, t: State) {
    && w.run != []
    && (SkipStep(Now(w), t) || PublishStep(Now(w), t) || TakeStep(Now(w), t) || exists i :: ReleaseStep(Now(w), t, i))
    && w' == w.(run := w.run + [t])
  }

  // The manifest after one more edit.
  function Noting(w: Session, e: VersionEdit, t: State): Noted {
    Noted(w.noted.base, w.noted.edits + [e], t.last, t.nextFile)
  }

  // The edit of a flush says that the old log is no longer needed.
  ghost predicate FlushedStep(w: Session, w': Session, t: State, level: nat, f: File) {
    && w.run != [] && FlushStep(Now(w), t, level, f)
    && var e := if Now(w).imm.value == [] then VersionEdit({}, []) else VersionEdit({}, [(level, f)]);
       w' == w.(run := w.run + [t], oldLog := [], floor := w.mid, noted := Noting(w, e, t))
  }

  ghost predicate MovedStep(w: Session, w': Session, t: State, c: Compaction) {
    && w.run != [] && MoveStep(Now(w), t, c)
    && w' == w.(run := w.run + [t], noted := Noting(w, SwapEdit(c, c.upper), t))
  }

  ghost predicate CompactedStep(w: Session, w': Session, t: State, c: Compaction, input: seq<Entry>, outputs: Level) {
    && w.run != [] && CompactStep(Now(w), t, c, input, outputs)
    && w' == w.(run := w.run + [t], noted := Noting(w, SwapEdit(c, outputs), t))
  }

  // The last number of some batches from the floor on.
  function LastIn(floor: Sequence, kept: seq<Batches.Record>): int {
    if kept == [] then floor else kept[|kept| - 1].first + |kept[|kept| - 1].ops| - 1
  }

  // A crash leaves some of the batches, from the first on; the database is opened from them, with new
  // and empty logs and a new manifest.
  ghost predicate CrashStep(w: Session, w': Session, kept: seq<Batches.Record>, t: State, first: nat, fs: Level) {
    && w.run != [] && kept <= w.oldLog + w.log && 0 <= LastIn(w.floor, kept) <= MAX_SEQUENCE
    && Holds(LevelEntries(fs), Batches.Replay(kept))
    && var n: Sequence := LastIn(w.floor, kept);
       && ReopenStep(Cut(Now(w), n), t, first, fs) && n <= t.last
       && w' == Session(CutAll(w.run, n) + [t], [], [], [], t.last, t.last,
                        Noted(Now(w).version, [AtLevel0(fs)], t.last, t.nextFile))
  }

  ghost predicate Begins(w: Session) {
    exists s :: Initial(s) && w == Session([s], [], [], [], 0, 0, Noted(s.version, [], 0, 1))
  }

  ghost predicate Onward(w: Session, w': Session) {
    || (exists r :: AppendStep(w, w', r))
    || (exists t :: ApplyStep(w, w', t))
    || (exists t :: RotateStep(w, w', t))
    || (exists t :: QuietStep(w, w', t))
    || (exists t, level, f :: FlushedStep(w, w', t, level, f))
    || (exists t, c :: MovedStep(w, w', t, c))
    || (exists t, c, input, outputs :: CompactedStep(w, w', t, c, input, outputs))
    || (exists kept, t, first, fs :: CrashStep(w, w', kept, t, first, fs))
  }

  // ---- Replaying batches that rise. ----

  lemma {:induction false} ReplayRises(log: seq<Batches.Record>, lo: nat, hi: nat)
    requires Rises(log, lo, hi)
    ensures Ascends(Batches.Replay(log))
    ensures forall s | s in Batches.Replay(log) :: lo < s.seqno <= hi
    ensures hi < MAX_SEQUENCE ==> InReach(Batches.Replay(log))
  {
    if log != [] {
      var n := |log| - 1;
      var a, b := Batches.Replay(log[..n]), Batches.Numbered(log[n].first, log[n].ops);
      assert Rises(log[..n], lo, log[n].first - 1);
      ReplayRises(log[..n], lo, log[n].first - 1);
      assert forall i | 0 <= i < |a| :: a[i] in a && a[i].seqno < log[n].first;
      assert forall i | 0 <= i < |b| :: b[i].seqno == log[n].first + i;
    }
  }

  lemma RisesWider(log: seq<Batches.Record>, lo: nat, hi: nat, lo': nat, hi': nat)
    requires Rises(log, lo, hi) && lo' <= lo && hi <= hi'
    ensures Rises(log, lo', hi')
  {
  }

  lemma RisesSnoc(log: seq<Batches.Record>, r: Batches.Record, lo: nat, hi: nat)
    requires Rises(log, lo, hi) && lo <= hi < r.first
    ensures Rises(log + [r], lo, r.first + |r.ops| - 1)
  {
  }

  lemma RisesConcat(a: seq<Batches.Record>, b: seq<Batches.Record>, lo: nat, mid: nat, hi: nat)
    requires Rises(a, lo, mid) && Rises(b, mid, hi) && lo <= mid <= hi
    ensures Rises(a + b, lo, hi)
  {
  }

  // ---- What the logs hold, step by step. ----

  lemma AppendKeepsLogged(w: Session, w': Session, r: Batches.Record)
    requires w.run != [] && AppendStep(w, w', r) && Logged(Now(w), w.oldLog, w.log, w.rest, w.floor, w.mid)
    requires Numbered(Now(w))
    ensures Logged(Now(w), w'.oldLog, w'.log, w'.rest, w'.floor, w'.mid)
  {
    hide Batches.Replay, Holds, Rises, Writable, Batches.Numbered;
    WritableSnoc(w.log, r);
    NumberedAbove(r, Now(w).history);
    var s, ops := Now(w), Batches.Numbered(r.first, r.ops);
    ReplaySnoc(w.log, r, 0);
    RisesSnoc(w.log, r, w.mid, s.pending);
    assert Batches.Replay(w.log) + [] == Batches.Replay(w.log) == Applied(w.log, []);
    assert Applied(w'.log, ops) == Batches.Replay(w.log);
  }

  lemma WritableSnoc(log: seq<Batches.Record>, r: Batches.Record)
    requires Writable(log) && Writable([r])
    ensures Writable(log + [r])
  {
    assert r in [r];
  }

  lemma NumberedAbove(r: Batches.Record, history: set<Entry>)
    requires forall e | e in history :: e.key.seqno < r.first
    ensures var ops := Batches.Numbered(r.first, r.ops);
      && Above(ops, history)
      && (if ops == [] then r.ops == [] else ops[|ops| - 1].seqno == r.first + |r.ops| - 1)
  {
  }

  lemma AppliedNext(log: seq<Batches.Record>, rest: seq<Batches.Stamped>)
    requires rest != [] && |rest| <= |Batches.Replay(log)| && Batches.Replay(log) == Applied(log, rest) + rest
    ensures Applied(log, rest[1..]) == Applied(log, rest) + [rest[0]]
    ensures Batches.Replay(log) == Applied(log, rest[1..]) + rest[1..]
  {
    hide Batches.Replay;
    var whole, a := Batches.Replay(log), Applied(log, rest);
    assert whole[|a|] == rest[0];
  }

  lemma HoldsMore(S: set<Entry>, ops: seq<Batches.Stamped>, op: Batches.Stamped)
    requires Holds(S, ops) && op.seqno < MAX_SEQUENCE
    ensures Holds(S + {EntryOfOp(op)}, ops + [op])
  {
    assert forall s :: s in ops + [op] <==> s in ops || s == op;
  }

  lemma RestAscends(log: seq<Batches.Record>, rest: seq<Batches.Stamped>, lo: nat, hi: nat)
    requires Rises(log, lo, hi) && |rest| <= |Batches.Replay(log)| && Batches.Replay(log) == Applied(log, rest) + rest
    ensures Ascends(rest)
  {
    hide Rises, Batches.Replay, Ascends, Applied;
    ReplayRises(log, lo, hi);
    SuffixAscends(Applied(log, rest), rest);
  }

  lemma SuffixAscends(a: seq<Batches.Stamped>, b: seq<Batches.Stamped>)
    requires Ascends(a + b)
    ensures Ascends(b)
  {
    assert forall i | 0 <= i < |b| :: b[i] == (a + b)[|a| + i];
  }

  lemma ApplyKeepsLogged(w: Session, w': Session, t: State)
    requires w.run != [] && ApplyStep(w, w', t) && Logged(Now(w), w.oldLog, w.log, w.rest, w.floor, w.mid)
    ensures Logged(t, w'.oldLog, w'.log, w'.rest, w'.floor, w'.mid)
  {
    hide Batches.Replay, Rises, Writable, Holds, Applied, Sorted;
    RestAscends(w.log, w.rest, w.mid, Top(Now(w), w.rest));
    AppliedNext(w.log, w.rest);
    HoldsMore(Elements(Now(w).mem), Applied(w.log, w.rest), w.rest[0]);
  }

  lemma RotateKeepsLogged(w: Session, w': Session, t: State)
    requires w.run != [] && RotateStep(w, w', t) && Logged(Now(w), w.oldLog, w.log, w.rest, w.floor, w.mid)
    ensures Logged(t, w'.oldLog, w'.log, w'.rest, w'.floor, w'.mid)
  {
    hide Writable;
    var whole := Batches.Replay(w.log);
    assert Applied(w.log, []) == whole;
    assert Batches.Replay([]) == [] && Applied([], []) == [];
    assert Elements([]) == {};
  }

  lemma QuietKeepsLogged(w: Session, w': Session, t: State)
    requires w.run != [] && QuietStep(w, w', t) && Logged(Now(w), w.oldLog, w.log, w.rest, w.floor, w.mid)
    requires Numbered(Now(w))
    ensures Logged(t, w'.oldLog, w'.log, w'.rest, w'.floor, w'.mid)
    ensures t.version == Now(w).version && t.last >= Now(w).last && t.nextFile == Now(w).nextFile
  {
    hide Writable, Batches.Replay, Holds, Rises;
    RisesWider(w.log, w.mid, Top(Now(w), w.rest), w.mid, Top(t, w.rest));
  }

  // A step that changes no number and no memtable.
  lemma SameLogged(s: State, t: State, oldLog: seq<Batches.Record>, log: seq<Batches.Record>, rest: seq<Batches.Stamped>,
                   floor: Sequence, mid: Sequence)
    requires Logged(s, oldLog, log, rest, floor, mid)
    requires t.mem == s.mem && t.imm == s.imm && t.last == s.last && t.pending == s.pending && t.history == s.history
    ensures Logged(t, oldLog, log, rest, floor, mid)
  {
  }

  lemma FlushedKeepsLogged(w: Session, w': Session, t: State, level: nat, f: File)
    requires w.run != [] && FlushedStep(w, w', t, level, f) && Logged(Now(w), w.oldLog, w.log, w.rest, w.floor, w.mid)
    ensures Logged(t, w'.oldLog, w'.log, w'.rest, w'.floor, w'.mid)
  {
    assert Batches.Replay([]) == [];
    assert Elements([]) == {};
  }

  lemma CrashKeepsLogged(t: State)
    requires Numbered(t) && t.mem == [] && t.imm == None && t.pending == t.last
    ensures Logged(t, [], [], [], t.last, t.last)
  {
    assert Batches.Replay([]) == [] && Applied([], []) == [];
    assert Elements([]) == {};
  }

  // ---- What is in tables. ----

  lemma StillDurable(run: seq<State>, t: State, floor: Sequence, floor': Sequence)
    requires AllDurable(run, floor) && floor <= floor' && Durable(t, floor')
    ensures AllDurable(run + [t], floor')
  {
    hide Contents;
  }

  lemma LastsOn(run: seq<State>, t: State, floor: Sequence, floor': Sequence)
    requires Lasting(run, floor) && run != [] && Next(End(run), t) && floor <= floor' && Durable(t, floor')
    ensures Lasting(run + [t], floor') && End(run + [t]) == t && Structure(End(run)) && Structure(t)
  {
    hide Next, Durable, Structure;
    RunsStructured(run, |run| - 1);
    NextKeeps(End(run), t, 0.0);
    RunGoesOn(run, t);
    StillDurable(run, t, floor, floor');
  }

  lemma EndDurable(run: seq<State>, floor: Sequence)
    requires Lasting(run, floor) && run != []
    ensures Durable(End(run), floor) && Structure(End(run))
  {
    hide Durable, Structure, Next;
    RunsStructured(run, |run| - 1);
  }

  lemma ShrunkDurable(s: State, t: State, c: Compaction, come: Level, floor: Sequence)
    requires Durable(s, floor) && Sound(s.version, c) && Swapped(s.version, t.version, c, come)
    requires LevelEntries(come) <= InputEntries(c)
    ensures Durable(t, floor)
  {
    hide Contents, InputEntries, LevelEntries, Sound, Swapped;
    SwappedContentsWithin(s.version, t.version, c, come);
  }

  // ---- Every step keeps the session consistent. ----

  lemma Parts(w: Session)
    requires Consistent(w)
    ensures w.run != [] && Structure(Now(w)) && Numbered(Now(w)) && Durable(Now(w), w.floor)
    ensures w.floor <= w.mid <= Now(w).last
  {
    hide Tracks, Next, Durable, WellFormed, Listed, Layered, Rises, Holds, Writable;
    EndDurable(w.run, w.floor);
  }

  lemma AppendKeeps(w: Session, w': Session, r: Batches.Record)
    requires Consistent(w) && AppendStep(w, w', r)
    ensures Consistent(w')
  {
    hide Lasting, Logged, InManifest, AppendStep, Structure;
    Parts(w);
    AppendSame(w, w', r);
    AppendKeepsLogged(w, w', r);
  }

  lemma AppendSame(w: Session, w': Session, r: Batches.Record)
    requires AppendStep(w, w', r)
    ensures w'.run == w.run && w'.floor == w.floor && w'.noted == w.noted
  {
  }

  // A step after which the version, and what the manifest has of it, are as before.
  lemma SameVersionKeeps(w: Session, w': Session, t: State)
    requires Consistent(w) && w.run != [] && w'.run == w.run + [t] && Next(Now(w), t)
    requires t.version == Now(w).version && t.nextFile == Now(w).nextFile && t.last >= Now(w).last
    requires w'.noted == w.noted && w'.floor == w.floor
    requires Logged(t, w'.oldLog, w'.log, w'.rest, w'.floor, w'.mid)
    ensures Consistent(w')
  {
    hide Logged, Tracks, Next, Structure, Lasting;
    Parts(w);
    assert Durable(t, w.floor);
    LastsOn(w.run, t, w.floor, w'.floor);
  }

  lemma ApplyKeeps(w: Session, w': Session, t: State)
    requires Consistent(w) && ApplyStep(w, w', t)
    ensures Consistent(w')
  {
    hide Consistent, Sorted, Logged;
    assert Logged(Now(w), w.oldLog, w.log, w.rest, w.floor, w.mid) by {
      LogsOf(w);
    }
    ApplyKeepsLogged(w, w', t);
    SameVersionKeeps(w, w', t);
  }

  lemma LogsOf(w: Session)
    requires Consistent(w)
    ensures w.run != [] && Logged(Now(w), w.oldLog, w.log, w.rest, w.floor, w.mid) && InManifest(Now(w), w.floor, w.noted)
    ensures Lasting(w.run, w.floor)
  {
    hide Logged, InManifest, Lasting;
  }

  lemma RotateKeeps(w: Session, w': Session, t: State)
    requires Consistent(w) && RotateStep(w, w', t)
    ensures Consistent(w')
  {
    hide Consistent, Logged;
    LogsOf(w);
    RotateKeepsLogged(w, w', t);
    SameVersionKeeps(w, w', t);
  }

  lemma QuietKeeps(w: Session, w': Session, t: State)
    requires Consistent(w) && QuietStep(w, w', t)
    ensures Consistent(w')
  {
    hide Consistent, Logged, Numbered, Structure;
    LogsOf(w);
    Parts(w);
    QuietKeepsLogged(w, w', t);
    QuietIsStep(w, w', t);
    SameVersionKeeps(w, w', t);
  }

  lemma QuietIsStep(w: Session, w': Session, t: State)
    requires QuietStep(w, w', t)
    ensures Next(Now(w), t) && w' == w.(run := w.run + [t])
  {
    hide SkipStep, PublishStep, TakeStep, ReleaseStep;
  }

  // A step that installs a version and notes it in the manifest.
  lemma NotedKeeps(w: Session, w': Session, t: State, e: VersionEdit)
    requires Consistent(w) && w.run != [] && w'.run == w.run + [t] && Next(Now(w), t) && w'.noted == Noting(w, e, t)
    requires EditStep(Now(w).version, e, t.version, Now(w).nextFile, t.nextFile)
    requires Durable(t, w'.floor) && w.floor <= w'.floor <= t.last
    requires Logged(t, w'.oldLog, w'.log, w'.rest, w'.floor, w'.mid)
    ensures Consistent(w')
  {
    hide Logged, Tracks, Next, Structure, Lasting, EditStep, Durable;
    LastsOn(w.run, t, w.floor, w'.floor);
    var m := w.noted;
    TracksMore(m.base, m.edits, Now(w).version, m.next, Now(w).nextFile);
    TrackStep(m.base, m.edits, Now(w).version, Now(w).nextFile, e, t.version, t.nextFile);
  }

  lemma TracksMore(base: Version, edits: seq<VersionEdit>, v: Version, n: nat, n': nat)
    requires Tracks(base, edits, v, n) && n <= n'
    ensures Tracks(base, edits, v, n')
  {
    hide Rebuilt, EntersOnce, UniqueNumbers, OnlySinks, Seen, Listed;
    ListedBelow(v, n, n');
  }

  lemma FlushedKeeps(w: Session, w': Session, t: State, level: nat, f: File)
    requires Consistent(w) && FlushedStep(w, w', t, level, f)
    ensures Consistent(w')
  {
    hide Consistent, Logged, Structure, FlushStep, EditStep, Durable;
    LogsOf(w);
    Parts(w);
    FlushedKeepsLogged(w, w', t, level, f);
    FlushLogs(Now(w), t, level, f);
    FlushDurable(w, t, level, f);
    FlushIsStep(Now(w), t, level, f);
    NotedKeeps(w, w', t, if Now(w).imm.value == [] then VersionEdit({}, []) else VersionEdit({}, [(level, f)]));
  }

  lemma FlushIsStep(s: State, t: State, level: nat, f: File)
    requires FlushStep(s, t, level, f)
    ensures Next(s, t) && t.last == s.last && s.imm.Some?
  {
    hide Gains, Intact, RoomAt;
  }

  lemma FlushDurable(w: Session, t: State, level: nat, f: File)
    requires w.run != [] && FlushStep(Now(w), t, level, f) && Logged(Now(w), w.oldLog, w.log, w.rest, w.floor, w.mid)
    requires Durable(Now(w), w.floor)
    ensures Durable(t, w.mid)
  {
    hide Gains, Intact, RoomAt, Rises, Writable, Contents;
    var s := Now(w);
    ReplayRises(w.oldLog, w.floor, w.mid);
    if s.imm.value != [] {
      GainsEntries(s.version, t.version, level, f);
      assert Frozen(s) == f.run;
    }
  }

  lemma MovedKeeps(w: Session, w': Session, t: State, c: Compaction)
    requires Consistent(w) && MovedStep(w, w', t, c)
    ensures Consistent(w')
  {
    hide Consistent, Logged, Structure, EditStep, Durable, Sound, Swapped, InputEntries;
    LogsOf(w);
    Parts(w);
    MoveLogs(Now(w), t, c);
    MovedInputs(Now(w), t, c);
    ShrunkDurable(Now(w), t, c, c.upper, w.floor);
    SameLogged(Now(w), t, w.oldLog, w.log, w.rest, w.floor, w.mid);
    NotedKeeps(w, w', t, SwapEdit(c, c.upper));
  }

  lemma MovedInputs(s: State, t: State, c: Compaction)
    requires Structure(s) && MoveStep(s, t, c)
    ensures LevelEntries(c.upper) <= InputEntries(c) && Next(s, t)
    ensures t.mem == s.mem && t.imm == s.imm && t.last == s.last && t.pending == s.pending && t.history == s.history
  {
    hide Swapped, Layered, Listed;
    MovedFits(s.version, c);
  }

  lemma CompactedKeeps(w: Session, w': Session, t: State, c: Compaction, input: seq<Entry>, outputs: Level)
    requires Consistent(w) && CompactedStep(w, w', t, c, input, outputs)
    ensures Consistent(w')
  {
    hide Consistent, Logged, Structure, EditStep, Durable, Sound, Swapped, InputEntries, CompactStep;
    LogsOf(w);
    Parts(w);
    CompactLogs(Now(w), t, c, input, outputs);
    CompactedInputs(Now(w), t, c, input, outputs);
    ShrunkDurable(Now(w), t, c, outputs, w.floor);
    SameLogged(Now(w), t, w.oldLog, w.log, w.rest, w.floor, w.mid);
    NotedKeeps(w, w', t, SwapEdit(c, outputs));
  }

  lemma CompactedInputs(s: State, t: State, c: Compaction, input: seq<Entry>, outputs: Level)
    requires CompactStep(s, t, c, input, outputs)
    ensures LevelEntries(outputs) <= InputEntries(c) && Next(s, t) && Sound(s.version, c) && Swapped(s.version, t.version, c, outputs)
    ensures t.mem == s.mem && t.imm == s.imm && t.last == s.last && t.pending == s.pending && t.history == s.history
  {
    hide Sound, Swapped, DropRules.Survivors, InputEntries;
    OutputsFit(s, c, input, outputs, Smallest(s), BaseLevels(s.version, c.level));
    DropRules.SurvivorsAre(input, Smallest(s), BaseLevels(s.version, c.level));
  }

  lemma CrashKeeps(w: Session, w': Session, kept: seq<Batches.Record>, t: State, first: nat, fs: Level)
    requires Consistent(w) && CrashStep(w, w', kept, t, first, fs)
    ensures Consistent(w')
  {
    hide Logged, Structure, EditStep, Durable, Next, Tracks, ReopenStep, Cut;
    var n: Sequence := LastIn(w.floor, kept);
    LogsOf(w);
    Parts(w);
    FloorKept(w, kept);
    AllDurableMore(w.run, w.floor, n);
    CutRun(w.run, n);
    CutDurable(w.run, n, t.last);
    var cut := CutAll(w.run, n);
    RunsStructured(cut, |cut| - 1);
    Reopens(End(cut), t, first, fs);
    ReopenedParts(End(cut), t, first, fs);
    LastsOn(cut, t, t.last, t.last);
    CrashKeepsLogged(t);
    ReopenLogs(End(cut), t, first, fs);
    CutVersion(Now(w), n);
    TrackStarts(Now(w).version, first);
    assert [] + [AtLevel0(fs)] == [AtLevel0(fs)];
    TrackStep(Now(w).version, [], Now(w).version, first, AtLevel0(fs), t.version, t.nextFile);
  }

  lemma CutVersion(s: State, n: Sequence)
    ensures Cut(s, n).version == s.version
  {
  }

  lemma AllDurableMore(run: seq<State>, floor: Sequence, n: Sequence)
    requires AllDurable(run, floor) && floor <= n
    ensures AllDurable(run, n)
  {
    hide Contents;
  }

  lemma CutDurable(run: seq<State>, n: Sequence, last: Sequence)
    requires AllDurable(run, n) && n <= last
    ensures AllDurable(CutAll(run, n), last)
  {
    hide Contents;
  }

  lemma PrefixRises(all: seq<Batches.Record>, kept: seq<Batches.Record>, floor: Sequence, hi: nat)
    requires Rises(all, floor, hi) && kept <= all && floor <= hi
    ensures floor <= LastIn(floor, kept) <= hi && Rises(kept, floor, LastIn(floor, kept))
  {
    assert forall i | 0 <= i < |kept| :: kept[i] == all[i];
  }

  lemma PrefixWritable(all: seq<Batches.Record>, kept: seq<Batches.Record>)
    requires Writable(all) && kept <= all
    ensures Writable(kept)
  {
    assert forall i | 0 <= i < |kept| :: kept[i] == all[i];
  }

  lemma FloorKept(w: Session, kept: seq<Batches.Record>)
    requires w.run != [] && Logged(Now(w), w.oldLog, w.log, w.rest, w.floor, w.mid) && kept <= w.oldLog + w.log
    requires Numbered(Now(w))
    ensures w.floor <= LastIn(w.floor, kept) <= Top(Now(w), w.rest) < MAX_SEQUENCE
    ensures Rises(kept, w.floor, LastIn(w.floor, kept)) && Rises(w.oldLog + w.log, w.floor, Top(Now(w), w.rest))
    ensures Writable(kept)
  {
    hide Batches.Replay, Holds, Applied, Above, Rises, Writable;
    var all := w.oldLog + w.log;
    RisesConcat(w.oldLog, w.log, w.floor, w.mid, Top(Now(w), w.rest));
    PrefixRises(all, kept, w.floor, Top(Now(w), w.rest));
    WritableBoth(w.oldLog, w.log);
    PrefixWritable(all, kept);
  }

  lemma WritableBoth(a: seq<Batches.Record>, b: seq<Batches.Record>)
    requires Writable(a) && Writable(b)
    ensures Writable(a + b)
  {
  }

  lemma ReopenedParts(s: State, t: State, first: nat, fs: Level)
    requires Structure(s) && ReopenStep(s, t, first, fs)
    ensures Numbered(t) && t.mem == [] && t.imm == None && t.pending == t.last && Durable(t, t.last) && Listed(s.version, first)
    ensures t.nextFile >= first
  {
    hide WellFormed, Listed, Replayed, LevelEntries, Later;
    ReopenKeeps(s, t, first, fs);
  }

  // Every step keeps the session consistent.
  lemma OnwardKeeps(w: Session, w': Session)
    requires Consistent(w) && Onward(w, w')
    ensures Consistent(w')
  {
    hide Consistent, AppendStep, ApplyStep, RotateStep, QuietStep, FlushedStep, MovedStep, CompactedStep, CrashStep;
    if r :| AppendStep(w, w', r) {
      AppendKeeps(w, w', r);
    } else if t :| ApplyStep(w, w', t) {
      ApplyKeeps(w, w', t);
    } else if t :| RotateStep(w, w', t) {
      RotateKeeps(w, w', t);
    } else if t :| QuietStep(w, w', t) {
      QuietKeeps(w, w', t);
    } else if t, level, f :| FlushedStep(w, w', t, level, f) {
      FlushedKeeps(w, w', t, level, f);
    } else if t, c :| MovedStep(w, w', t, c) {
      MovedKeeps(w, w', t, c);
    } else if t, c, input, outputs :| CompactedStep(w, w', t, c, input, outputs) {
      CompactedKeeps(w, w', t, c, input, outputs);
    } else {
      var kept, t, first, fs :| CrashStep(w, w', kept, t, first, fs);
      CrashKeeps(w, w', kept, t, first, fs);
    }
  }

  lemma InitialParts(s: State)
    requires Initial(s)
    ensures Listed(s.version, 1) && Numbered(s) && Run([s]) && Durable(s, 0)
    ensures s.mem == [] && s.imm == None && s.pending == s.last == 0 && s.nextFile == 1
  {
    hide Next;
    EmptyVersion(s.version);
  }

  lemma BeginsConsistent(w: Session)
    requires Begins(w)
    ensures Consistent(w)
  {
    hide Tracks, Initial, Run, Listed, Numbered, Durable, Logged;
    var s :| Initial(s) && w == Session([s], [], [], [], 0, 0, Noted(s.version, [], 0, 1));
    InitialParts(s);
    TrackStarts(s.version, 1);
    CrashKeepsLogged(s);
  }

  // ---- What is left after a crash fits the step that opens the database again. ----

  // Of operations that rise, those in a prefix of the batches are those up to its last number.
  lemma {:induction false} KeptUpto(all: seq<Batches.Record>, kept: seq<Batches.Record>, floor: Sequence, hi: nat, op: Batches.Stamped)
    requires Rises(all, floor, hi) && kept <= all && floor <= hi
    ensures op in Batches.Replay(kept) <==> op in Batches.Replay(all) && op.seqno <= LastIn(floor, kept)
    decreases |all|
  {
    hide Batches.Replay;
    if kept == all {
      ReplayRises(all, floor, hi);
      PrefixRises(all, kept, floor, hi);
      ReplayRises(all, floor, LastIn(floor, kept));
    } else {
      var n := |all| - 1;
      var r := all[n];
      assert all == all[..n] + [r];
      ReplaySnoc(all[..n], r, 0);
      KeptUpto(all[..n], kept, floor, r.first - 1, op);
      PrefixRises(all[..n], kept, floor, r.first - 1);
      NumbersOf(r, op);
    }
  }

  lemma NumbersOf(r: Batches.Record, op: Batches.Stamped)
    ensures op in Batches.Numbered(r.first, r.ops) ==> op.seqno >= r.first
  {
  }

  // What a memtable has up to a number, and what its log has.
  lemma CutHolds(mem: seq<Entry>, ops: seq<Batches.Stamped>, n: Sequence)
    requires Holds(Elements(mem), ops)
    ensures forall e :: e in Elements(RunUpto(mem, n)) <==> exists op :: op in ops && op.seqno <= n && e == EntryOfOp(op)
  {
    forall e
      ensures e in Elements(RunUpto(mem, n)) <==> exists op :: op in ops && op.seqno <= n && e == EntryOfOp(op)
    {
      assert e in Elements(RunUpto(mem, n)) <==> e in Elements(mem) && e.key.seqno <= n;
    }
  }

  lemma CutMemoryHolds(s: State, n: Sequence, frozen: seq<Batches.Stamped>, applied: seq<Batches.Stamped>)
    requires Holds(Elements(Frozen(s)), frozen) && Holds(Elements(s.mem), applied)
    ensures InReach(frozen + applied)
    ensures forall e :: e in Memory(Cut(s, n)) <==> exists op :: op in frozen + applied && op.seqno <= n && e == EntryOfOp(op)
  {
    hide RunUpto, Holds, Elements;
    CutHolds(Frozen(s), frozen, n);
    CutHolds(s.mem, applied, n);
    InReachBoth(frozen, applied, Elements(Frozen(s)), Elements(s.mem));
    CutMemoryIs(s, n);
  }

  lemma CutMemoryIs(s: State, n: Sequence)
    ensures Memory(Cut(s, n)) == Elements(RunUpto(s.mem, n)) + Elements(RunUpto(Frozen(s), n))
  {
  }

  lemma InReachBoth(a: seq<Batches.Stamped>, b: seq<Batches.Stamped>, S: set<Entry>, T: set<Entry>)
    requires Holds(S, a) && Holds(T, b)
    ensures InReach(a + b)
  {
  }

  // The parts of a session's logs, as operations.
  lemma LogParts(w: Session)
    requires w.run != [] && Logged(Now(w), w.oldLog, w.log, w.rest, w.floor, w.mid)
    ensures |w.rest| <= |Batches.Replay(w.log)|
    ensures Batches.Replay(w.oldLog + w.log) == (Batches.Replay(w.oldLog) + Applied(w.log, w.rest)) + w.rest
  {
    hide Batches.Replay, Rises, Holds, Writable;
    ReplayConcat(w.oldLog, w.log, 0);
  }

  lemma WrittenDistinct(ops: seq<Batches.Stamped>)
    requires InReach(ops) && Ascends(ops)
    ensures Distinct(Written(ops))
  {
    forall x, y | x in Written(ops) && y in Written(ops) && x.key.seqno == y.key.seqno
      ensures x == y
    {
      var a :| a in ops && EntryOfOp(a) == x;
      var b :| b in ops && EntryOfOp(b) == y;
    }
  }

  ghost predicate UptoIn(S: set<Entry>, ops: seq<Batches.Stamped>, n: Sequence)
    requires InReach(ops)
  {
    forall e :: e in S <==> exists op :: op in ops && op.seqno <= n && e == EntryOfOp(op)
  }

  // Entries of the kept batches are in the memtables up to their last number, or were never inserted.
  lemma KeptFits(inserted: seq<Batches.Stamped>, rest: seq<Batches.Stamped>, kept: seq<Batches.Stamped>, n: Sequence,
                 memory: set<Entry>, history: set<Entry>, last: Sequence)
    requires InReach(inserted) && InReach(kept) && Ascends(kept) && n <= last
    requires forall op :: op in kept <==> op in inserted + rest && op.seqno <= n
    requires UptoIn(memory, inserted, n) && Above(rest, history)
    ensures memory <= Written(kept) && Later(Upto(history, n), Written(kept) - memory, last)
  {
    hide Ascends;
    WrittenDistinct(kept);
    forall e | e in memory
      ensures e in Written(kept)
    {
      var op :| op in inserted && op.seqno <= n && e == EntryOfOp(op);
      assert op in kept;
    }
    forall e | e in Written(kept) - memory
      ensures e.key.seqno <= last && forall x | x in history :: x.key.seqno < e.key.seqno
    {
      var op :| op in kept && e == EntryOfOp(op);
      assert op !in inserted;
      var i :| 0 <= i < |rest| && rest[i] == op;
    }
  }

  lemma ReopenFits(w: Session, kept: seq<Batches.Record>, v': Version, fs: Level, first: nat, next: nat, last: Sequence)
    requires Consistent(w) && kept <= w.oldLog + w.log && LastIn(w.floor, kept) <= last < MAX_SEQUENCE
    requires Listed(Now(w).version, first) && Replayed(Now(w).version, v', fs) && NumberedIn(fs, first, next)
    requires Holds(LevelEntries(fs), Batches.Replay(kept))
    ensures 0 <= LastIn(w.floor, kept) < MAX_SEQUENCE
    ensures var s := Cut(Now(w), LastIn(w.floor, kept));
            ReopenStep(s, State([], None, v', last, last, [], next, s.history + LevelEntries(fs)), first, fs)
  {
    hide Consistent, Listed, Replayed, NumberedIn, LevelEntries, Batches.Replay, Rises, Holds, Later, Memory, Cut, Logged;
    LogsOf(w);
    Parts(w);
    FloorKept(w, kept);
    var n: Sequence := LastIn(w.floor, kept);
    ReplayRises(kept, w.floor, n);
    MemoryFits(w, kept, n, last);
    CutParts(Now(w), n);
    HoldsIs(LevelEntries(fs), Batches.Replay(kept));
  }

  lemma HoldsIs(S: set<Entry>, ops: seq<Batches.Stamped>)
    requires Holds(S, ops)
    ensures InReach(ops) && S == Written(ops)
  {
  }

  lemma CutParts(s: State, n: Sequence)
    ensures Cut(s, n).version == s.version && Cut(s, n).history == Upto(s.history, n) && Cut(s, n).pending <= n
  {
  }

  lemma MemoryFits(w: Session, kept: seq<Batches.Record>, n: Sequence, last: Sequence)
    requires w.run != [] && Logged(Now(w), w.oldLog, w.log, w.rest, w.floor, w.mid) && Numbered(Now(w))
    requires kept <= w.oldLog + w.log && n == LastIn(w.floor, kept) <= last
    requires Ascends(Batches.Replay(kept)) && InReach(Batches.Replay(kept))
    ensures Memory(Cut(Now(w), n)) <= Written(Batches.Replay(kept))
    ensures Later(Upto(Now(w).history, n), Written(Batches.Replay(kept)) - Memory(Cut(Now(w), n)), last)
  {
    hide Batches.Replay, Rises, Holds, Later, Memory, Cut, Applied, Written, Ascends, InReach;
    FloorKept(w, kept);
    LogParts(w);
    var frozen, applied := Batches.Replay(w.oldLog), Applied(w.log, w.rest);
    CutMemoryHolds(Now(w), n, frozen, applied);
    forall op
      ensures op in Batches.Replay(kept) <==> op in frozen + applied + w.rest && op.seqno <= n
    {
      KeptUpto(w.oldLog + w.log, kept, w.floor, Top(Now(w), w.rest), op);
    }
    KeptFits(frozen + applied, w.rest, Batches.Replay(kept), n, Memory(Cut(Now(w), n)), Now(w).history, last);
  }

  // ---- Over whole sessions. ----

  ghost predicate SessionRun(ws: seq<Session>) {
    ws != [] && Begins(ws[0]) && forall i: nat | i + 1 < |ws| :: Onward(ws[i], ws[i + 1])
  }

  // Whatever steps and crashes come, and in whatever order, every state of a session is consistent;
  // so the store in it is at the end of a run, to which all theorems about runs apply.
  lemma {:induction false} SessionsConsistent(ws: seq<Session>, i: nat)
    requires SessionRun(ws) && i < |ws|
    ensures Consistent(ws[i]) && ws[i].run != [] && Run(ws[i].run)
  {
    hide Consistent, Onward, Begins, Run;
    if i == 0 {
      BeginsConsistent(ws[0]);
    } else {
      SessionsConsistent(ws, i - 1);
      OnwardKeeps(ws[i - 1], ws[i]);
    }
    RunOf(ws[i]);
  }

  lemma RunOf(w: Session)
    requires Consistent(w)
    ensures w.run != [] && Run(w.run)
  {
    hide Logged, InManifest;
  }

  // The steps of readers and of the background thread.
  ghost predicate Background(w: Session, w': Session) {
    || (exists t :: QuietStep(w, w', t) && !SkipStep(Now(w), t) && !PublishStep(Now(w), t))
    || (exists t, level, f :: FlushedStep(w, w', t, level, f))
    || (exists t, c :: MovedStep(w, w', t, c))
    || (exists t, c, input, outputs :: CompactedStep(w, w', t, c, input, outputs))
  }

  lemma BackgroundGoesOn(w: Session, w': Session)
    requires Background(w, w')
    ensures Onward(w, w')
  {
    hide QuietStep, FlushedStep, MovedStep, CompactedStep;
  }

  lemma BackgroundSame(w: Session, w': Session)
    requires Background(w, w')
    ensures w.run != [] && w'.run != [] && w'.log == w.log && w'.rest == w.rest
    ensures Now(w').last == Now(w).last && Now(w').pending == Now(w).pending
  {
    hide Gains, Swapped, Sound, Intact, RoomAt, AllIntact, NumberedFrom, InputEntries, DropRules.Survivors, Flatten;
  }
}
