// The log as the store sees it: replaying batches is a run of the store, and what recovery finds
// is the history of such a run.

module ReplayRuns {
  import opened Keys
  import opened History
  import opened Store
  import opened Iterators
  import opened Recovery
  import opened TableRuns
  import Batches = WriteBatches
  import Database

  // What an operation puts into the memtable.
  function EntryOfOp(s: Batches.Stamped): Entry
    requires s.seqno <= MAX_SEQUENCE
  {
    match s.op
    case Put(key, value) => Entry(InternalKey(Rank(key), s.seqno, Put), ValueOf(value))
    case Delete(key) => Entry(InternalKey(Rank(key), s.seqno, Deletion), [])
  }

  ghost predicate InReach(ops: seq<Batches.Stamped>) {
    forall s | s in ops :: s.seqno < MAX_SEQUENCE
  }

  ghost function Written(ops: seq<Batches.Stamped>): set<Entry>
    requires InReach(ops)
  {
    set s | s in ops :: EntryOfOp(s)
  }

  // ---- Batches numbered in turn, from one on. ----

  function Count(log: seq<Batches.Record>): nat {
    if log == [] then 0 else Count(log[..|log| - 1]) + |log[|log| - 1].ops|
  }

  ghost predicate InTurn(log: seq<Batches.Record>) {
    log == [] || (InTurn(log[..|log| - 1]) && log[|log| - 1].first == Count(log[..|log| - 1]) + 1)
  }

  lemma {:induction false} PrefixInTurn(log: seq<Batches.Record>, n: nat)
    requires InTurn(log) && n <= |log|
    ensures InTurn(log[..n]) && Count(log[..n]) <= Count(log)
    decreases |log|
  {
    if n < |log| {
      assert log[..|log| - 1][..n] == log[..n];
      PrefixInTurn(log[..|log| - 1], n);
    } else {
      assert log[..n] == log;
    }
  }

  lemma {:induction false} ReplayInReach(log: seq<Batches.Record>)
    requires InTurn(log) && Count(log) < MAX_SEQUENCE
    ensures InReach(Batches.Replay(log))
    ensures Highest(0, log) == Count(log)
  {
    if log != [] {
      ReplayInReach(log[..|log| - 1]);
    }
  }

  // ---- A run that writes them. ----

  lemma WriteOne(run: seq<State>, s: Batches.Stamped) returns (more: seq<State>)
    requires Run(run) && s.seqno == End(run).pending + 1 < MAX_SEQUENCE
    ensures Run(more) && End(more).pending == s.seqno
    ensures End(more).history == End(run).history + {EntryOfOp(s)}
  {
    hide Structure, Next, Sorted, InsertSorted;
    var st, e := End(run), EntryOfOp(s);
    RunsStructured(run, |run| - 1);
    StructureSorted(st);
    Database.FreshKey(st, e);
    InsertSortedHolds(st.mem, e);
    var t := st.(mem := InsertSorted(st.mem, e), pending := st.pending + 1, history := st.history + {e});
    Inserts(st, t, e);
    RunGoesOn(run, t);
    more := run + [t];
  }

  lemma StructureSorted(s: State)
    requires Structure(s)
    ensures Sorted(s.mem) && forall e | e in s.history :: e.key.seqno <= s.pending
  {
  }

  lemma Inserts(s: State, t: State, e: Entry)
    requires InsertStep(s, t, e)
    ensures Next(s, t)
  {
  }

  lemma {:induction false} WriteAll(run: seq<State>, ops: seq<Batches.Stamped>) returns (more: seq<State>)
    requires Run(run) && InReach(ops)
    requires forall i | 0 <= i < |ops| :: ops[i].seqno == End(run).pending + 1 + i
    ensures Run(more) && End(more).pending == End(run).pending + |ops|
    ensures End(more).history == End(run).history + Written(ops)
    decreases |ops|
  {
    hide Run;
    if ops == [] {
      more := run;
    } else {
      var n := |ops| - 1;
      assert ops == ops[..n] + [ops[n]];
      more := WriteAll(run, ops[..n]);
      more := WriteOne(more, ops[n]);
      assert Written(ops) == Written(ops[..n]) + {EntryOfOp(ops[n])};
    }
  }

  // The history of that run is what the log replays to, and its last sequence the highest of it.
  lemma {:induction false} LogIsRun(log: seq<Batches.Record>) returns (run: seq<State>)
    requires InTurn(log) && Count(log) < MAX_SEQUENCE
    ensures InReach(Batches.Replay(log))
    ensures Run(run) && End(run).history == Written(Batches.Replay(log))
    ensures End(run).last == End(run).pending == Highest(0, log)
  {
    hide Run, Next;
    ReplayInReach(log);
    if log == [] {
      run := JustOpened();
    } else {
      var n := |log| - 1;
      var ops := Batches.Numbered(log[n].first, log[n].ops);
      run := LogIsRun(log[..n]);
      RunStarts(run);
      ReplayInReach(log[..n]);
      run := WriteAll(run, ops);
      RunStarts(run);
      Published(End(run));
      RunGoesOn(run, End(run).(last := End(run).pending));
      run := run + [End(run).(last := End(run).pending)];
      assert Written(Batches.Replay(log)) == Written(Batches.Replay(log[..n])) + Written(ops);
    }
  }

  lemma JustOpened() returns (run: seq<State>)
    ensures Run(run) && End(run).history == {} && End(run).last == End(run).pending == 0
  {
    run := [State([], None, seq(Versions.NUM_LEVELS, _ => []), 0, 0, [], 1, {})];
  }

  lemma Published(s: State)
    ensures Next(s, s.(last := s.pending))
  {
    assert PublishStep(s, s.(last := s.pending));
  }

  // What recovery leaves in its tables is the history of a run of the store that writes the
  // surviving batches, and the sequence it goes on from is that run's last.
  lemma RecoveredIsRun(files: seq<Bits.Data>, logs: seq<seq<Batches.Record>>, tables: seq<seq<Batches.Stamped>>)
    returns (run: seq<State>)
    requires |files| == |logs| && (forall log | log in logs :: Writable(log))
    requires InTurn(Joined(logs)) && Count(Joined(logs)) < MAX_SEQUENCE
    requires Flat(tables) == Batches.Replay(Survivors(files, logs))
    ensures InReach(Flat(tables))
    ensures Run(run) && End(run).history == Written(Flat(tables)) && End(run).last == Highest(0, Survivors(files, logs))
  {
    hide Run, Joined, Survivors, Flat, Batches.Replay, Highest, Count, InTurn, Writable;
    var kept := Survivors(files, logs);
    KeptIsPrefix(files, logs);
    PrefixInTurn(Joined(logs), |kept|);
    run := LogIsRun(kept);
    RunStarts(run);
  }

  lemma KeptIsPrefix(files: seq<Bits.Data>, logs: seq<seq<Batches.Record>>)
    requires |files| == |logs| && (forall log | log in logs :: Writable(log))
    ensures var kept := Survivors(files, logs);
      |kept| <= |Joined(logs)| && kept == Joined(logs)[..|kept|]
  {
    hide Writable, Encoded;
  }
}
