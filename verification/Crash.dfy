// Losing the writes a crash takes with it: what is left is the store of a run that never
// made them (db/db_impl.cc, DBImpl::Recover).

module Crashes {
  import opened Keys
  import opened History
  import opened Versions
  import opened VersionEdits
  import opened Install
  import opened Swap
  import opened Picking
  import opened Flush
  import opened Reopening
  import opened DropRules
  import opened CompactionWork
  import opened Store

  // ---- What survives of a state if nothing written after number n does. ----

  ghost function Upto(S: set<Entry>, n: Sequence): set<Entry> {
    set e | e in S && e.key.seqno <= n
  }

  function RunUpto(s: seq<Entry>, n: Sequence): (r: seq<Entry>)
    ensures forall e :: e in r <==> e in s && e.key.seqno <= n
  {
    if s == [] then []
    else
      var k := |s| - 1;
      RunUpto(s[..k], n) + (if s[k].key.seqno <= n then [s[k]] else [])
  }

  function Capped(q: Sequence, n: Sequence): Sequence {
    if q <= n then q else n
  }

  ghost function Cut(s: State, n: Sequence): State {
    State(RunUpto(s.mem, n),
          if s.imm.Some? then Some(RunUpto(s.imm.value, n)) else None,
          s.version, Capped(s.last, n), Capped(s.pending, n),
          seq(|s.snapshots|, i requires 0 <= i < |s.snapshots| => Capped(s.snapshots[i], n)),
          s.nextFile, Upto(s.history, n))
  }

  // Tables are synced before a version names them, so what they hold is not lost.
  ghost predicate Durable(s: State, n: Sequence) {
    forall e | e in Contents(s.version) :: e.key.seqno <= n
  }

  lemma {:induction false} RunUptoSorted(s: seq<Entry>, n: Sequence)
    requires Sorted(s)
    ensures Sorted(RunUpto(s, n))
  {
    hide Less;
    if s != [] {
      var k := |s| - 1;
      RunUptoSorted(s[..k], n);
      var r := RunUpto(s[..k], n);
      forall i | 0 <= i < |r|
        ensures Less(r[i].key, s[k].key)
      {
        assert r[i] in r;
      }
      SortedSnoc(r, s[k]);
    }
  }

  lemma SortedSnoc(r: seq<Entry>, e: Entry)
    requires Sorted(r) && forall i | 0 <= i < |r| :: Less(r[i].key, e.key)
    ensures Sorted(r + [e])
  {
  }

  lemma {:induction false} AllUpto(s: seq<Entry>, n: Sequence)
    requires forall e | e in s :: e.key.seqno <= n
    ensures RunUpto(s, n) == s
  {
    if s != [] {
      var k := |s| - 1;
      assert s == s[..k] + [s[k]];
      AllUpto(s[..k], n);
    }
  }

  lemma FirstIsLeast(s: seq<Entry>, x: Entry)
    requires Sorted(s) && x in s
    ensures x == s[0] || Less(s[0].key, x.key)
  {
    var i :| 0 <= i < |s| && s[i] == x;
  }

  lemma NoElements(s: seq<Entry>)
    ensures s == [] <==> Elements(s) == {}
  {
    assert s != [] ==> s[0] in Elements(s);
  }

  lemma NotBothLess(a: InternalKey, b: InternalKey)
    ensures !(Less(a, b) && Less(b, a))
  {
  }

  lemma {:induction false} SortedUnique(a: seq<Entry>, b: seq<Entry>)
    requires Sorted(a) && Sorted(b) && Elements(a) == Elements(b)
    ensures a == b
  {
    hide Sorted, Less;
    assert forall e :: e in a <==> e in Elements(a);
    assert forall e :: e in b <==> e in Elements(b);
    NoElements(a);
    NoElements(b);
    if a != [] {
      assert a[0] in b && b[0] in a;
      FirstIsLeast(a, b[0]);
      FirstIsLeast(b, a[0]);
      NotBothLess(a[0].key, b[0].key);
      TailElements(a);
      TailElements(b);
      SortedUnique(a[1..], b[1..]);
      assert a == [a[0]] + a[1..] && b == [b[0]] + b[1..];
    }
  }

  lemma TailElements(s: seq<Entry>)
    requires s != [] && Sorted(s)
    ensures Sorted(s[1..]) && Elements(s[1..]) == Elements(s) - {s[0]}
  {
    forall e
      ensures e in s[1..] <==> e in s && e != s[0]
    {
      assert s == [s[0]] + s[1..];
      if e in s[1..] {
        var i :| 0 <= i < |s| - 1 && s[1..][i] == e;
        assert Less(s[0].key, s[i + 1].key);
      }
    }
  }

  lemma RunUptoElements(s: seq<Entry>, n: Sequence)
    ensures Elements(RunUpto(s, n)) == Upto(Elements(s), n)
  {
  }

  // The rules a compaction drops entries by see no difference.
  lemma {:induction false} SameSurvivors(input: seq<Entry>, m: Sequence, n: Sequence, base: UserKey -> bool)
    requires m < MAX_SEQUENCE && forall e | e in input :: e.key.seqno <= n
    ensures Survivors(input, Capped(m, n), base) == Survivors(input, m, base)
  {
    if input != [] {
      var k := |input| - 1;
      SameSurvivors(input[..k], m, n, base);
      assert k > 0 ==> input[k - 1] in input;
      assert input[k] in input;
    }
  }

  // ---- A step cut short is a step, or nothing. ----

  lemma CutInsert(s: State, t: State, e: Entry, n: Sequence)
    requires Structure(s) && InsertStep(s, t, e)
    ensures if e.key.seqno <= n then InsertStep(Cut(s, n), Cut(t, n), e) else SkipStep(Cut(s, n), Cut(t, n))
  {
    hide WellFormed, Structure, RunUpto, Sorted;
    CutMemory(s, t, e, n);
    assert Upto(s.history + {e}, n) == Upto(s.history, n) + Upto({e}, n);
  }

  lemma CutMemory(s: State, t: State, e: Entry, n: Sequence)
    requires Structure(s) && InsertStep(s, t, e)
    ensures Sorted(RunUpto(t.mem, n))
    ensures Elements(RunUpto(t.mem, n)) == Elements(RunUpto(s.mem, n)) + Upto({e}, n)
    ensures e.key.seqno > n ==> RunUpto(t.mem, n) == RunUpto(s.mem, n)
  {
    RunUptoSorted(s.mem, n);
    RunUptoSorted(t.mem, n);
    RunUptoElements(s.mem, n);
    RunUptoElements(t.mem, n);
    assert Upto(Elements(s.mem) + {e}, n) == Upto(Elements(s.mem), n) + Upto({e}, n);
    if e.key.seqno > n {
      SortedUnique(RunUpto(t.mem, n), RunUpto(s.mem, n));
    }
  }

  lemma FlushedDurable(s: State, t: State, level: nat, f: File, n: Sequence)
    requires FlushStep(s, t, level, f) && Durable(t, n)
    ensures RunUpto(s.imm.value, n) == s.imm.value
  {
    hide Intact, InOrder, RoomAt;
    if s.imm.value != [] {
      GainsEntries(s.version, t.version, level, f);
      assert forall e | e in f.run :: e in Elements(f.run);
    }
    AllUpto(s.imm.value, n);
  }

  lemma CutFlush(s: State, t: State, level: nat, f: File, n: Sequence)
    requires FlushStep(s, t, level, f) && Durable(t, n)
    ensures FlushStep(Cut(s, n), Cut(t, n), level, f)
  {
    hide Intact, InOrder, RoomAt, Durable, RunUpto, Gains, Upto;
    FlushedDurable(s, t, level, f, n);
  }

  lemma CutSmallest(s: State, n: Sequence)
    ensures Smallest(Cut(s, n)) == Capped(Smallest(s), n)
  {
  }

  lemma InputsDurable(s: State, c: Compaction, n: Sequence)
    requires Sound(s.version, c) && Durable(s, n)
    ensures forall e | e in InputEntries(c) :: e.key.seqno <= n
  {
    UpperWithin(s.version, c);
    AroundBefore({}, s.version, c);
  }

  lemma CutCompact(s: State, t: State, c: Compaction, input: seq<Entry>, outputs: Level, n: Sequence)
    requires Structure(s) && CompactStep(s, t, c, input, outputs) && Durable(s, n)
    ensures CompactStep(Cut(s, n), Cut(t, n), c, input, outputs)
  {
    hide Sound, Sorted, WellFormed, Durable, RunUpto, Upto, Survivors, Swapped, AllIntact, NumberedFrom, Smallest, Layered;
    SmallestIsOldestLive(s);
    CutSmallest(s, n);
    InputsDurable(s, c, n);
    assert forall e | e in input :: e in Elements(input);
    SameSurvivors(input, Smallest(s), n, BaseLevels(s.version, c.level));
  }

  lemma ReplayedDurable(s: State, t: State, first: nat, fs: Level, n: Sequence)
    requires ReopenStep(s, t, first, fs) && Durable(t, n)
    ensures Memory(Cut(s, n)) == Memory(s)
    ensures forall e | e in LevelEntries(fs) :: e.key.seqno <= n
  {
    hide Intact, InOrder, OlderFirst, Listed, NumberedIn, Later;
    forall e | e in LevelEntries(fs)
      ensures e.key.seqno <= n
    {
      var f :| f in fs && e in f.run;
      assert f in Files(fs) && f in Files(t.version[0]);
      assert e in LevelEntries(t.version[0]) && e in Contents(t.version);
    }
    assert forall x | x in s.mem :: x in Elements(s.mem);
    assert forall x | x in Frozen(s) :: x in Elements(Frozen(s));
    AllUpto(s.mem, n);
    AllUpto(Frozen(s), n);
  }

  lemma LaterUpto(H: set<Entry>, more: set<Entry>, end: Sequence, n: Sequence)
    requires Later(H, more, end) && forall e | e in more :: e.key.seqno <= n
    ensures Later(Upto(H, n), more, Capped(end, n))
  {
  }

  lemma CutReopen(s: State, t: State, first: nat, fs: Level, n: Sequence)
    requires ReopenStep(s, t, first, fs) && Durable(t, n)
    ensures ReopenStep(Cut(s, n), Cut(t, n), first, fs)
  {
    hide Replayed, Listed, NumberedIn, Durable, LevelEntries, Upto, Memory, Later;
    ReplayedDurable(s, t, first, fs, n);
    LaterUpto(s.history, LevelEntries(fs) - Memory(s), t.pending, n);
    UptoUnion(s.history, LevelEntries(fs), n);
  }

  lemma UptoUnion(H: set<Entry>, L: set<Entry>, n: Sequence)
    requires forall e | e in L :: e.key.seqno <= n
    ensures Upto(H + L, n) == Upto(H, n) + L
  {
  }

  lemma CutRelease(s: State, t: State, i: nat, n: Sequence)
    requires ReleaseStep(s, t, i)
    ensures ReleaseStep(Cut(s, n), Cut(t, n), i)
  {
    hide RunUpto, Upto;
  }

  lemma CutSkip(s: State, t: State, n: Sequence)
    requires SkipStep(s, t)
    ensures SkipStep(Cut(s, n), Cut(t, n))
  {
    hide RunUpto, Upto;
  }

  lemma CutTake(s: State, t: State, n: Sequence)
    requires TakeStep(s, t)
    ensures TakeStep(Cut(s, n), Cut(t, n))
  {
    hide RunUpto, Upto;
    assert Cut(t, n).snapshots == Cut(s, n).snapshots + [Cut(s, n).last];
  }

  lemma CutMove(s: State, t: State, c: Compaction, n: Sequence)
    requires MoveStep(s, t, c)
    ensures MoveStep(Cut(s, n), Cut(t, n), c)
  {
    hide RunUpto, Upto, Sound, Swapped;
  }

  lemma CutPublishOrSwitch(s: State, t: State, n: Sequence)
    ensures PublishStep(s, t) ==> PublishStep(Cut(s, n), Cut(t, n))
    ensures SwitchStep(s, t) ==> SwitchStep(Cut(s, n), Cut(t, n))
  {
    hide Upto;
  }

  lemma CutNext(s: State, t: State, n: Sequence)
    requires Structure(s) && Next(s, t) && Durable(s, n) && Durable(t, n)
    ensures Next(Cut(s, n), Cut(t, n))
  {
    hide Structure, Durable, Cut, InsertStep, SkipStep, PublishStep, SwitchStep, FlushStep, MoveStep, CompactStep, TakeStep, ReleaseStep, ReopenStep;
    if e :| InsertStep(s, t, e) {
      CutInsert(s, t, e, n);
    } else if SkipStep(s, t) {
      CutSkip(s, t, n);
    } else if level, f :| FlushStep(s, t, level, f) {
      CutFlush(s, t, level, f, n);
    } else if c, input, outputs :| CompactStep(s, t, c, input, outputs) {
      CutCompact(s, t, c, input, outputs, n);
    } else if i :| ReleaseStep(s, t, i) {
      CutRelease(s, t, i, n);
    } else if first, fs :| ReopenStep(s, t, first, fs) {
      CutReopen(s, t, first, fs, n);
    } else if TakeStep(s, t) {
      CutTake(s, t, n);
    } else if c :| MoveStep(s, t, c) {
      CutMove(s, t, c, n);
    } else {
      CutPublishOrSwitch(s, t, n);
    }
  }

  // ---- The run that never made the lost writes. ----

  ghost predicate AllDurable(run: seq<State>, n: Sequence) {
    forall i | 0 <= i < |run| :: Durable(run[i], n)
  }

  // The run as it would have been without the lost writes.
  ghost function CutAll(run: seq<State>, n: Sequence): seq<State> {
    seq(|run|, i requires 0 <= i < |run| => Cut(run[i], n))
  }

  lemma CutInitial(s: State, n: Sequence)
    requires Initial(s)
    ensures Cut(s, n) == s
  {
  }

  lemma CutRun(run: seq<State>, n: Sequence)
    requires Run(run) && AllDurable(run, n)
    ensures Run(CutAll(run, n)) && End(CutAll(run, n)) == Cut(End(run), n)
  {
    hide Next, Structure, Initial, Cut, Durable;
    var cut := CutAll(run, n);
    RunStarts(run);
    CutInitial(run[0], n);
    forall i: nat | i + 1 < |cut|
      ensures StepAt(cut, i)
    {
      RunsStructured(run, i);
      assert StepAt(run, i);
      CutNext(run[i], run[i + 1], n);
    }
  }

  lemma OneStepMore(run: seq<State>, t: State, u: UserKey)
    requires Run(run) && Next(End(run), t)
    ensures Run(run + [t]) && End(run + [t]) == t
    ensures Covered(run + [t], |run|, u) <==> Covered(run, |run| - 1, u) && !Exposes(End(run), t, u)
  {
    hide Next, Exposes;
    RunStarts(run);
    RunGoesOn(run, t);
    var r := run + [t];
    assert ExposesAt(r, |run| - 1, u) <==> Exposes(End(run), t, u);
    forall i: nat | i + 1 < |run|
      ensures ExposesAt(r, i, u) <==> ExposesAt(run, i, u)
    {
    }
  }

  lemma Reopens(s: State, t: State, first: nat, fs: Level)
    requires ReopenStep(s, t, first, fs)
    ensures Next(s, t)
  {
    hide ReopenStep;
  }

  lemma ReopeningExposesNothing(run: seq<State>, t: State, first: nat, fs: Level, u: UserKey)
    requires Run(run) && ReopenStep(End(run), t, first, fs)
    ensures Covered(run, |run| - 1, u) ==> !Exposes(End(run), t, u)
  {
    hide Structure, Faithful, Covered, Exposes, ReopenStep, Next;
    Reopens(End(run), t, first, fs);
    RunsReadHistory(run, |run| - 1, u);
    RunsStructured(run, |run| - 1);
    ReopenKeeps(End(run), t, first, fs);
    NextKeeps(End(run), t, u);
  }

  // After a crash that loses what was written after n and is not in a table, and a reopening, the
  // store is at the end of a run again; and every key reads, at every snapshot from then on, as
  // what was kept of the writes, exactly as long as no compaction exposed it without the lost ones.
  lemma CrashAndReopen(run: seq<State>, n: Sequence, t: State, first: nat, fs: Level, u: UserKey)
    requires Run(run) && AllDurable(run, n) && ReopenStep(Cut(End(run), n), t, first, fs)
    ensures var again := CutAll(run, n) + [t];
      && Run(again) && End(again) == t && t.history == Upto(End(run).history, n) + LevelEntries(fs)
      && (Covered(CutAll(run, n), |run| - 1, u) <==> forall i: nat | i < |again| :: Faithful(again[i], u))
      && (Covered(CutAll(run, n), |run| - 1, u) ==>
            forall snap: Sequence | snap >= t.last :: Read(All(t), u, snap) == Read(t.history, u, snap))
  {
    hide Structure, Next, Exposes, Covered, AllDurable;
    CutRun(run, n);
    var cut := CutAll(run, n);
    Reopens(End(cut), t, first, fs);
    ReopeningExposesNothing(cut, t, first, fs, u);
    OneStepMore(cut, t, u);
    var again := cut + [t];
    RunsReadHistory(again, |again| - 1, u);
  }
}
