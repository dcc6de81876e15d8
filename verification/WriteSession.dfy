// The write queue drives the store: whatever its writers do to the log, the memtable and the sequence
// number is a step of a session (db/db_impl.cc, DBImpl::Write).

module WriteSessions {
  import opened Keys
  import opened History
  import opened Iterators
  import opened Store
  import opened GroupCommit
  import opened Recovery
  import opened ReplayRuns
  import opened Sessions

  // What the writers see of a session.
  function WritesOf(w: Session): Writes
    requires w.run != [] && |w.rest| <= |Batches.Replay(w.log)|
  {
    Writes(w.log, Applied(w.log, w.rest), Now(w).last, w.rest)
  }

  // No number beyond the published one was given out but to what is in the memtable.
  ghost predicate Tight(w: Session)
    requires w.run != [] && |w.rest| <= |Batches.Replay(w.log)|
  {
    Now(w).pending == Now(w).last || exists s :: s in Applied(w.log, w.rest) && s.seqno == Now(w).pending
  }

  ghost predicate Driven(w: Session) {
    Consistent(w) && w.run != [] && |w.rest| <= |Batches.Replay(w.log)| && Tight(w)
  }

  // Numbers and sizes have their widths.
  ghost predicate WithinWidth(b: Writes) {
    && Writable(b.log) && b.last < MAX_SEQUENCE
    && forall r | r in b.log :: r.first + |r.ops| <= MAX_SEQUENCE
  }

  // One or more steps of the session.
  ghost predicate Path(w: Session, ws: seq<Session>, w': Session)
    decreases |ws|
  {
    if ws == [] then w == w' else Onward(w, ws[0]) && Path(ws[0], ws[1..], w')
  }

  lemma BeginsDriven(w: Session)
    requires Begins(w)
    ensures Driven(w) && WritesOf(w) == Writes([], [], 0, [])
  {
    hide Consistent;
    BeginsConsistent(w);
    assert Batches.Replay([]) == [] && Applied([], []) == [];
  }

  lemma OneStep(w: Session, w': Session)
    requires Consistent(w) && Onward(w, w')
    ensures Path(w, [w'], w') && Consistent(w')
  {
    hide Consistent, Onward;
    OnwardKeeps(w, w');
    assert [w'][1..] == [] && Path(w', [], w');
  }

  lemma PendingKnown(w: Session, n: nat)
    requires Driven(w)
    ensures Logged(Now(w), w.oldLog, w.log, w.rest, w.floor, w.mid) && Structure(Now(w)) && Numbered(Now(w))
    ensures Settled(WritesOf(w)) ==> Now(w).pending == Now(w).last
    ensures w.rest != [] && w.rest[0].seqno > Now(w).last ==> Now(w).pending < w.rest[0].seqno
    ensures Now(w).last <= n && (forall s | s in Applied(w.log, w.rest) + w.rest :: s.seqno <= n) ==> Now(w).pending <= n
  {
    hide Consistent, Structure, Rises, Holds, Writable, Batches.Replay, Applied, Above;
    LogsOf(w);
    Parts(w);
    ReplayRises(w.log, w.mid, Top(Now(w), w.rest));
    var a, whole := Applied(w.log, w.rest), Batches.Replay(w.log);
    if w.rest != [] {
      assert whole[|a|] == w.rest[0];
      assert forall i | 0 <= i < |a| :: whole[i] == a[i];
    }
  }

  lemma FollowAppend(w: Session, b: Writes, r: Batches.Record) returns (w': Session)
    requires Driven(w) && Appends(WritesOf(w), b, r) && WithinWidth(b)
    ensures Onward(w, w') && Driven(w') && WritesOf(w') == b
  {
    hide Consistent, Structure, Batches.Replay, Batches.Numbered, Logged, Numbered, Writable;
    PendingKnown(w, 0);
    w' := w.(log := w.log + [r], rest := Batches.Numbered(r.first, r.ops));
    OneWritable(b.log, r);
    assert AppendStep(w, w', r);
    OneStep(w, w');
    ReplaySnoc(w.log, r, 0);
    AllApplied(w);
  }

  lemma OneWritable(log: seq<Batches.Record>, r: Batches.Record)
    requires Writable(log) && r in log
    ensures Writable([r])
  {
  }

  lemma AllApplied(w: Session)
    requires |w.rest| <= |Batches.Replay(w.log)|
    ensures w.rest == [] ==> Applied(w.log, w.rest) == Batches.Replay(w.log)
  {
    hide Batches.Replay;
  }

  lemma FollowApply(w: Session, b: Writes) returns (w': Session)
    requires Driven(w) && Applies(WritesOf(w), b)
    ensures Onward(w, w') && Driven(w') && WritesOf(w') == b
  {
    hide Consistent, Structure, Batches.Replay, Numbered, Writable, Rises, Holds, Sorted, InsertSorted, Applied;
    PendingKnown(w, 0);
    var s, op := Now(w), w.rest[0];
    RestWithin(w);
    var e := EntryOfOp(op);
    StructureSorted(s);
    Database.FreshKey(s, e);
    InsertSortedHolds(s.mem, e);
    var t := s.(mem := InsertSorted(s.mem, e), pending := op.seqno, history := s.history + {e});
    w' := w.(run := w.run + [t], rest := w.rest[1..]);
    assert InsertStep(s, t, e);
    assert ApplyStep(w, w', t);
    OneStep(w, w');
    AppliedNext(w.log, w.rest);
    assert op in Applied(w.log, w.rest) + [op];
  }

  lemma RestWithin(w: Session)
    requires w.run != [] && Logged(Now(w), w.oldLog, w.log, w.rest, w.floor, w.mid) && w.rest != []
    ensures w.rest[0].seqno < MAX_SEQUENCE
  {
    hide Batches.Replay, Rises, Holds, Writable, Applied, Above;
    ReplayRises(w.log, w.mid, Top(Now(w), w.rest));
    assert Batches.Replay(w.log)[|Applied(w.log, w.rest)|] == w.rest[0];
  }

  lemma FollowRotate(w: Session, b: Writes) returns (w': Session)
    requires Driven(w) && Rotates(WritesOf(w), b) && Now(w).imm.None?
    ensures Onward(w, w') && Driven(w') && WritesOf(w') == b
  {
    hide Consistent, Structure, Numbered, Writable, Rises, Holds, Sorted, Logged;
    PendingKnown(w, 0);
    var s := Now(w);
    var t := s.(imm := Some(s.mem), mem := []);
    w' := w.(run := w.run + [t], oldLog := w.log, log := [], mid := s.last);
    assert SwitchStep(s, t);
    assert RotateStep(w, w', t);
    OneStep(w, w');
    assert Batches.Replay([]) == [] && Applied([], []) == [];
  }

  lemma FollowPublish(w: Session, b: Writes) returns (ws: seq<Session>, w': Session)
    requires Driven(w) && Publishes(WritesOf(w), b) && b.last < MAX_SEQUENCE
    ensures Path(w, ws, w') && Driven(w') && WritesOf(w') == b
  {
    hide Consistent, Structure, Numbered, Writable, Rises, Holds, Sorted, Logged, Batches.Replay, Onward;
    PendingKnown(w, b.last);
    var s := Now(w);
    var t := s.(pending := b.last);
    var u := t.(last := b.last);
    var w1 := w.(run := w.run + [t]);
    w' := w1.(run := w1.run + [u]);
    Quietly(w, w1, t);
    Quietly(w1, w', u);
    ws := [w1, w'];
    assert [w1, w'][1..] == [w'] && [w'][1..] == [] && Path(w', [], w') && Path(w1, [w'], w');
  }

  lemma Quietly(w: Session, w': Session, t: State)
    requires Consistent(w) && w.run != [] && (SkipStep(Now(w), t) || PublishStep(Now(w), t)) && w' == w.(run := w.run + [t])
    ensures Onward(w, w') && Consistent(w')
  {
    hide Consistent;
    assert QuietStep(w, w', t);
    OnwardKeeps(w, w');
  }

  // Any step of the writers is one or more steps of the session they write to, and leaves it as the
  // writers see it; a new memtable waits until the old one is in a table.
  lemma Follow(w: Session, b: Writes) returns (ws: seq<Session>, w': Session)
    requires Driven(w) && WriteStep(WritesOf(w), b) && WithinWidth(b)
    requires Rotates(WritesOf(w), b) ==> Now(w).imm.None?
    ensures Path(w, ws, w') && Driven(w') && WritesOf(w') == b
  {
    hide Consistent, Tight, WritesOf, Appends, Applies, Rotates, Publishes, WithinWidth, Onward;
    if WritesOf(w) == b {
      ws, w' := [], w;
    } else if Rotates(WritesOf(w), b) {
      w' := FollowRotate(w, b);
      ws := [w'];
    } else if r :| Appends(WritesOf(w), b, r) {
      w' := FollowAppend(w, b, r);
      ws := [w'];
    } else if Applies(WritesOf(w), b) {
      w' := FollowApply(w, b);
      ws := [w'];
    } else {
      LastWithin(b);
      ws, w' := FollowPublish(w, b);
    }
    assert [w'][1..] == [] && Path(w', [], w');
  }

  lemma LastWithin(b: Writes)
    requires WithinWidth(b)
    ensures b.last < MAX_SEQUENCE
  {
  }

  // What readers and the background thread do, the writers do not see.
  lemma Unseen(w: Session, w': Session)
    requires Driven(w) && Background(w, w')
    ensures Onward(w, w') && Driven(w') && WritesOf(w') == WritesOf(w)
  {
    hide Consistent, Batches.Replay, Applied;
    BackgroundGoesOn(w, w');
    OnwardKeeps(w, w');
    BackgroundSame(w, w');
  }
}
