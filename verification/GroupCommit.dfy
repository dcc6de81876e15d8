// The write queue (db/db_impl.cc): the writer at the front commits for those behind it.  The
// steps are the stretches of DBImpl::Write between two points where it gives up the mutex.

module GroupCommit {
  import opened Sequences
  import opened History
  import opened WriteBatches

  datatype Status = OK | Failed

  // A call of Write: ticket numbers are handed out as calls join the queue.
  datatype Request = Request(batch: Option<seq<Op>>, byteSize: nat, sync: bool)

  // What became of one group: the tickets from..end, under the first one's lead.
  datatype Commit = Commit(from: nat, end: nat, first: nat, ops: seq<Op>, logged: bool, synced: bool, status: Status)

  // ---- Groups. ----

  function BatchOf(r: Request): seq<Op> {
    if r.batch.Some? then r.batch.value else []
  }

  // The batches of the tickets from..end, one after another.
  function Joined(requests: seq<Request>, from: nat, end: nat): seq<Op>
    requires from <= end <= |requests|
    decreases end
  {
    if from == end then [] else Joined(requests, from, end - 1) + BatchOf(requests[end - 1])
  }

  function SizeOf(requests: seq<Request>, from: nat, end: nat): nat
    requires from <= end <= |requests|
    decreases end
  {
    if from == end then 0
    else SizeOf(requests, from, end - 1) + if requests[end - 1].batch.Some? then requests[end - 1].byteSize else 0
  }

  function MaxSize(size: nat): nat {
    if size <= 131072 then size + 131072 else 1048576
  }

  // The queue may not let this ticket join the group.
  predicate Barred(requests: seq<Request>, from: nat, t: nat)
    requires from < t < |requests|
  {
    || (requests[t].sync && !requests[from].sync)
    || (requests[t].batch.Some? && SizeOf(requests, from, t + 1) > MaxSize(requests[from].byteSize))
  }

  // The group the ticket from leads is as long as it may be.
  ghost predicate IsGroup(requests: seq<Request>, from: nat, end: nat) {
    && from < end <= |requests|
    && (forall t | from < t < end :: !Barred(requests, from, t))
    && (end < |requests| ==> Barred(requests, from, end))
  }

  method BuildBatchGroup(requests: seq<Request>, writers: seq<nat>) returns (last: nat, result: seq<Op>)
    requires writers != [] && forall i | 0 <= i < |writers| :: writers[i] == writers[0] + i
    requires writers[0] + |writers| == |requests| && requests[writers[0]].batch.Some?
    ensures IsGroup(requests, writers[0], last + 1)
    ensures result == Joined(requests, writers[0], last + 1)
  {
    var first := writers[0];
    result := requests[first].batch.value;
    var size := requests[first].byteSize;
    var maxSize := 1048576;
    if size <= 131072 {
      maxSize := size + 131072;
    }
    last := first;
    assert Joined(requests, first, first + 1) == [] + result;
    var i := 1;
    while i < |writers|
      invariant 1 <= i <= |writers| && last == first + i - 1
      invariant size == SizeOf(requests, first, last + 1) && result == Joined(requests, first, last + 1)
      invariant forall t | first < t <= last :: !Barred(requests, first, t)
    {
      var w := writers[i];
      if requests[w].sync && !requests[first].sync {
        break;
      }
      if requests[w].batch.Some? {
        size := size + requests[w].byteSize;
        if size > maxSize {
          break;
        }
        result := result + requests[w].batch.value;
      }
      last := w;
      i := i + 1;
    }
  }

  // ---- What a run of commits amounts to. ----

  function NextTicket(commits: seq<Commit>): nat {
    if commits == [] then 0 else commits[|commits| - 1].end
  }

  function NextSequence(commits: seq<Commit>): nat {
    if commits == [] then 1 else commits[|commits| - 1].first + |commits[|commits| - 1].ops|
  }

  // A group carries all its writers' operations, or none; none of its writers was barred.
  ghost predicate Grouped(requests: seq<Request>, c: Commit) {
    && c.from < c.end <= |requests|
    && (c.ops == Joined(requests, c.from, c.end) || (c.ops == [] && c.end == c.from + 1))
    && (c.end == c.from + 1 || requests[c.from].batch.Some?)
    && forall t | c.from < t < c.end :: !Barred(requests, c.from, t)
  }

  // Success means logged, and on disk where the leader asked for it.
  ghost predicate Honest(requests: seq<Request>, c: Commit)
    requires c.from < c.end <= |requests|
  {
    && (c.synced ==> c.logged)
    && (c.logged ==> requests[c.from].batch.Some?)
    && (c.status == OK ==> c.logged || c.ops == [])
    && (c.status == OK && requests[c.from].batch.Some? ==>
          c.logged && c.ops == Joined(requests, c.from, c.end) && (requests[c.from].sync ==> c.synced))
  }

  // Tickets in order, sequence numbers consecutive.
  ghost predicate Chained(requests: seq<Request>, commits: seq<Commit>) {
    forall i | 0 <= i < |commits| ::
      && Grouped(requests, commits[i]) && Honest(requests, commits[i])
      && commits[i].from == NextTicket(commits[..i]) && commits[i].first == NextSequence(commits[..i])
  }

  // The log of these commits.
  function LogOf(commits: seq<Commit>): seq<Record> {
    if commits == [] then [] else
      var c := commits[|commits| - 1];
      LogOf(commits[..|commits| - 1]) + if c.logged then [Record(c.first, c.ops)] else []
  }

  // What they put into the memtable.
  function AppliedOf(commits: seq<Commit>): seq<Stamped> {
    if commits == [] then [] else
      var c := commits[|commits| - 1];
      AppliedOf(commits[..|commits| - 1]) + if c.status == OK then Numbered(c.first, c.ops) else []
  }

  // What failed to be synced, and so was not applied.
  function LostOf(commits: seq<Commit>): seq<Stamped> {
    if commits == [] then [] else
      var c := commits[|commits| - 1];
      LostOf(commits[..|commits| - 1]) + if c.logged && c.status == Failed then Numbered(c.first, c.ops) else []
  }

  // The writer's state while it holds no mutex.
  datatype Stage = Logging | Syncing | Inserting | Finishing
  datatype Phase = Idle | Committing(group: Commit, stage: Stage, inserted: nat, syncError: bool)

  // How far the group has come: its operations are inserted once it is logged, and synced if that was asked.
  ghost predicate InStage(requests: seq<Request>, p: Phase)
    requires p.Committing?
  {
    var c := p.group;
    && Grouped(requests, c) && p.inserted <= |c.ops|
    && (c.logged || c.synced || p.stage != Finishing ==> requests[c.from].batch.Some?)
    && (c.synced ==> c.logged)
    && (requests[c.from].batch.Some? && c.status == OK ==> c.ops == Joined(requests, c.from, c.end))
    && match p.stage
       case Logging => c.status == OK && !c.logged && p.inserted == 0 && !p.syncError
       case Syncing => c.status == OK && c.logged && !c.synced && requests[c.from].sync && p.inserted == 0 && !p.syncError
       case Inserting => c.status == OK && c.logged && (requests[c.from].sync ==> c.synced) && !p.syncError
       case Finishing =>
         if c.status == Failed then p.inserted == 0 && !c.synced && c.logged == p.syncError
         else p.inserted == |c.ops| && !p.syncError && Honest(requests, c)
  }

  lemma {:induction false} JoinedGrows(requests: seq<Request>, r: Request, from: nat, end: nat)
    requires from <= end <= |requests|
    ensures Joined(requests + [r], from, end) == Joined(requests, from, end)
    ensures SizeOf(requests + [r], from, end) == SizeOf(requests, from, end)
    decreases end
  {
    if from < end {
      JoinedGrows(requests, r, from, end - 1);
    }
  }

  // A later call changes nothing about the groups before it.
  lemma GroupedGrows(requests: seq<Request>, r: Request, c: Commit)
    requires Grouped(requests, c)
    ensures Grouped(requests + [r], c) && Honest(requests + [r], c) == Honest(requests, c)
  {
    JoinedGrows(requests, r, c.from, c.end);
    forall t | c.from < t < c.end
      ensures !Barred(requests + [r], c.from, t)
    {
      JoinedGrows(requests, r, c.from, t + 1);
      assert (requests + [r])[t] == requests[t] && (requests + [r])[c.from] == requests[c.from];
      assert !Barred(requests, c.from, t);
    }
  }

  lemma ChainedGrows(requests: seq<Request>, r: Request, commits: seq<Commit>)
    requires Chained(requests, commits)
    ensures Chained(requests + [r], commits)
  {
    hide Grouped, Honest, NextTicket, NextSequence;
    forall i | 0 <= i < |commits|
      ensures Grouped(requests + [r], commits[i]) && commits[i].from < commits[i].end <= |requests| + 1
      ensures Honest(requests + [r], commits[i])
    {
      GroupedWithin(requests, commits[i]);
      GroupedGrows(requests, r, commits[i]);
    }
  }

  lemma AloneGrouped(requests: seq<Request>, w: nat, first: nat)
    requires w < |requests|
    ensures Grouped(requests, Commit(w, w + 1, first, [], false, false, OK))
    ensures Grouped(requests, Commit(w, w + 1, first, [], false, false, Failed))
    ensures requests[w].batch.None? ==> Joined(requests, w, w + 1) == []
  {
    assert Joined(requests, w, w) == [];
  }

  lemma GroupIsGrouped(requests: seq<Request>, w: nat, end: nat, first: nat)
    requires IsGroup(requests, w, end) && requests[w].batch.Some?
    ensures Grouped(requests, Commit(w, end, first, Joined(requests, w, end), false, false, OK))
  {
  }

  lemma GroupedWithin(requests: seq<Request>, c: Commit)
    requires Grouped(requests, c)
    ensures c.from < c.end <= |requests|
    ensures Grouped(requests, c.(logged := true)) && Grouped(requests, c.(synced := true))
    ensures Grouped(requests, c.(status := Failed))
  {
  }

  lemma InStageGrows(requests: seq<Request>, r: Request, p: Phase)
    requires p.Committing? && InStage(requests, p)
    ensures InStage(requests + [r], p)
  {
    hide Honest, Barred;
    GroupedGrows(requests, r, p.group);
    JoinedGrows(requests, r, p.group.from, p.group.end);
  }

  function LoggedBy(p: Phase): seq<Record> {
    if p.Committing? && p.group.logged then [Record(p.group.first, p.group.ops)] else []
  }

  function InsertedBy(p: Phase): seq<Stamped> {
    if p.Committing? && p.inserted <= |p.group.ops| then Numbered(p.group.first, p.group.ops)[..p.inserted] else []
  }

  function RestBy(p: Phase): seq<Stamped> {
    if p.Committing? && p.group.logged && p.inserted <= |p.group.ops|
    then Numbered(p.group.first, p.group.ops)[p.inserted..] else []
  }

  // ---- What writing does to the log and the memtable. ----

  // The log file, the memtable, the sequence number readers see, and what is logged but not inserted.
  datatype Writes = Writes(log: seq<Record>, mem: seq<Stamped>, last: nat, rest: seq<Stamped>)

  // Nothing is under way, and everything can be seen.
  ghost predicate Settled(a: Writes) {
    a.rest == [] && forall s | s in a.mem :: s.seqno <= a.last
  }

  ghost predicate Rotates(a: Writes, b: Writes) {
    Settled(a) && b == a.(log := [], mem := [])
  }

  ghost predicate Appends(a: Writes, b: Writes, r: Record) {
    && Settled(a) && r.first == a.last + 1
    && b == a.(log := a.log + [r], rest := Numbered(r.first, r.ops))
  }

  ghost predicate Applies(a: Writes, b: Writes) {
    a.rest != [] && a.rest[0].seqno > a.last && b == a.(mem := a.mem + [a.rest[0]], rest := a.rest[1..])
  }

  ghost predicate Publishes(a: Writes, b: Writes) {
    a.last <= b.last && (forall s | s in a.mem + a.rest :: s.seqno <= b.last) && b == a.(last := b.last)
  }

  ghost predicate WriteStep(a: Writes, b: Writes) {
    a == b || Rotates(a, b) || (exists r :: Appends(a, b, r)) || Applies(a, b) || Publishes(a, b)
  }

  lemma {:induction false} NumbersBelow(requests: seq<Request>, commits: seq<Commit>, base: nat)
    requires Chained(requests, commits) && base <= |commits|
    ensures forall s | s in AppliedOf(commits[base..]) + LostOf(commits[base..]) :: s.seqno < NextSequence(commits)
    decreases |commits|
  {
    hide Grouped, Honest;
    if base < |commits| {
      var n := |commits| - 1;
      var c := commits[n];
      ChainedPrefix(requests, commits, n);
      NumbersBelow(requests, commits[..n], base);
      assert commits[base..][..n - base] == commits[..n][base..];
      var own := Numbered(c.first, c.ops);
      assert forall i | 0 <= i < |own| :: own[i].seqno == c.first + i;
    } else {
      assert commits[base..] == [];
    }
  }

  lemma {:induction false} NothingLost(commits: seq<Commit>)
    requires forall c | c in commits && c.logged :: c.status == OK
    ensures LostOf(commits) == []
  {
    if commits != [] {
      NothingLost(commits[..|commits| - 1]);
      assert commits[|commits| - 1] in commits;
    }
  }

  lemma OneMoreInserted(first: nat, ops: seq<Op>, n: nat)
    requires n < |ops|
    ensures Numbered(first, ops)[..n + 1] == Numbered(first, ops)[..n] + [Stamped(first + n, ops[n])]
    ensures Numbered(first, ops)[n..] == [Stamped(first + n, ops[n])] + Numbered(first, ops)[n + 1..]
  {
  }

  lemma FinishedIsHonest(requests: seq<Request>, p: Phase)
    requires p.Committing? && InStage(requests, p) && p.stage == Finishing
    ensures p.group.from < p.group.end <= |requests| && Honest(requests, p.group)
  {
  }

  lemma InsertedAll(requests: seq<Request>, p: Phase)
    requires p.Committing? && InStage(requests, p) && p.stage == Finishing
    ensures InsertedBy(p) == if p.group.status == OK then Numbered(p.group.first, p.group.ops) else []
  {
    hide Grouped, Honest;
    var s := Numbered(p.group.first, p.group.ops);
    assert s[..|s|] == s;
  }

  lemma ChainedAppend(requests: seq<Request>, commits: seq<Commit>, c: Commit)
    requires Chained(requests, commits) && Grouped(requests, c) && c.from < c.end <= |requests| && Honest(requests, c)
    requires c.from == NextTicket(commits) && c.first == NextSequence(commits)
    ensures Chained(requests, commits + [c])
    ensures NextTicket(commits + [c]) == c.end && NextSequence(commits + [c]) == c.first + |c.ops|
  {
    hide Grouped, Honest;
    var s := commits + [c];
    assert s[..|commits|] == commits;
    assert forall i | 0 <= i < |commits| :: s[..i] == commits[..i] && s[i] == commits[i];
  }

  lemma RecordsAppend(commits: seq<Commit>, base: nat, c: Commit)
    requires base <= |commits|
    ensures var s := commits + [c];
      && LogOf(s[base..]) == LogOf(commits[base..]) + (if c.logged then [Record(c.first, c.ops)] else [])
      && AppliedOf(s[base..]) == AppliedOf(commits[base..]) + (if c.status == OK then Numbered(c.first, c.ops) else [])
      && LostOf(s[base..]) == LostOf(commits[base..]) + (if c.logged && c.status == Failed then Numbered(c.first, c.ops) else [])
  {
    var s := commits + [c];
    assert s[base..] == commits[base..] + [c];
    assert (commits[base..] + [c])[..|commits| - base] == commits[base..];
  }

  // Each writer of a finished group has its leader's status, and nobody else has any.
  ghost predicate Answered(commits: seq<Commit>, results: seq<Option<Status>>) {
    && NextTicket(commits) <= |results|
    && (forall i, t | 0 <= i < |commits| && commits[i].from <= t < commits[i].end && t < NextTicket(commits) ::
          results[t] == Some(commits[i].status))
    && (forall t | NextTicket(commits) <= t < |results| :: results[t] == None)
  }

  lemma AnsweredAppend(requests: seq<Request>, commits: seq<Commit>, c: Commit, a: seq<Option<Status>>, b: seq<Option<Status>>)
    requires Chained(requests, commits) && Answered(commits, a) && |a| == |b| && c.from == NextTicket(commits) < c.end <= |b|
    requires forall t | c.from <= t < c.end :: b[t] == Some(c.status)
    requires forall t | 0 <= t < |b| && !(c.from <= t < c.end) :: b[t] == a[t]
    ensures Answered(commits + [c], b)
  {
    var s := commits + [c];
    forall i, t | 0 <= i < |s| && s[i].from <= t < s[i].end && t < NextTicket(s)
      ensures b[t] == Some(s[i].status)
    {
      if i < |commits| {
        EndsBy(requests, commits, i);
        assert a[t] == Some(commits[i].status);
      }
    }
  }

  lemma {:induction false} EndsBy(requests: seq<Request>, commits: seq<Commit>, i: nat)
    requires Chained(requests, commits) && i < |commits|
    ensures commits[i].end <= NextTicket(commits)
    decreases |commits|
  {
    hide Grouped, Honest;
    var n := |commits| - 1;
    GroupedWithin(requests, commits[n]);
    if i < n {
      ChainedPrefix(requests, commits, n);
      EndsBy(requests, commits[..n], i);
    }
  }

  lemma ChainedPrefix(requests: seq<Request>, commits: seq<Commit>, n: nat)
    requires Chained(requests, commits) && n <= |commits|
    ensures Chained(requests, commits[..n])
  {
    hide Grouped, Honest;
    forall i | 0 <= i < n
      ensures commits[..n][..i] == commits[..i]
    {
    }
  }

  // What was synced is among the records on disk.
  ghost predicate Durable(commits: seq<Commit>, base: nat, durable: nat)
    requires base <= |commits|
  {
    forall i | base <= i < |commits| && commits[i].synced :: |LogOf(commits[base..i + 1])| <= durable
  }

  lemma DurableAppend(commits: seq<Commit>, base: nat, c: Commit, durable: nat)
    requires base <= |commits| && Durable(commits, base, durable)
    requires c.synced ==> |LogOf((commits + [c])[base..])| <= durable
    ensures Durable(commits + [c], base, durable)
  {
    hide LogOf;
    var s := commits + [c];
    forall i | base <= i < |s| && s[i].synced
      ensures |LogOf(s[base..i + 1])| <= durable
    {
      if i < |commits| {
        assert s[i] == commits[i] && s[base..i + 1] == commits[base..i + 1];
      } else {
        assert s[base..i + 1] == s[base..];
      }
    }
  }

  lemma NoCommits(commits: seq<Commit>)
    ensures commits[|commits|..] == [] && LogOf([]) == [] && AppliedOf([]) == [] && LostOf([]) == [] && Durable(commits, |commits|, 0)
  {
  }

  lemma NothingYet()
    ensures Chained([], []) && Answered([], []) && NextTicket([]) == 0 && NextSequence([]) == 1
    ensures var none: seq<Commit> := []; none[0..] == [] && Durable(none, 0, 0) && LogOf([]) == [] && AppliedOf([]) == []
  {
  }

  class WriteQueue {
    var requests: seq<Request>
    var results: seq<Option<Status>>
    var writers: seq<nat>
    var asleep: set<nat>
    var lastSequence: nat
    var log: seq<Record>
    var durable: nat
    var mem: seq<Stamped>
    var bgError: bool
    var phase: Phase
    ghost var commits: seq<Commit>
    ghost var base: nat

    ghost predicate Valid()
      reads this
    {
      Queued() && Recorded() && (phase.Committing? ==> Underway(phase))
    }

    ghost predicate Queued()
      reads `requests, `results, `writers, `asleep, `lastSequence, `commits
    {
      && Chained(requests, commits) && NextTicket(commits) <= |requests| == |results|
      && |writers| == |requests| - NextTicket(commits)
      && (forall i | 0 <= i < |writers| :: writers[i] == NextTicket(commits) + i)
      && Answered(commits, results)
      && (forall t | t in asleep :: NextTicket(commits) < t < |requests|)
      && lastSequence + 1 == NextSequence(commits)
    }

    ghost predicate Recorded()
      reads `log, `durable, `mem, `phase, `commits, `base, `bgError
    {
      && base <= |commits|
      && log == LogOf(commits[base..]) + LoggedBy(phase)
      && mem == AppliedOf(commits[base..]) + InsertedBy(phase)
      && durable <= |log|
      && Durable(commits, base, durable)
      && (!bgError ==> forall c | c in commits && c.logged :: c.status == OK)
    }

    ghost predicate Underway(p: Phase)
      requires p.Committing?
      reads `requests, `commits, `log, `durable, `bgError
    {
      && InStage(requests, p)
      && p.group.from == NextTicket(commits) && p.group.first == NextSequence(commits)
      && (p.group.synced ==> durable == |log|)
      && (p.stage != Finishing ==> !bgError)
    }

    ghost function View(): Writes
      requires base <= |commits|
      reads `log, `mem, `lastSequence, `commits, `base, `phase
    {
      Writes(log, mem, lastSequence, LostOf(commits[base..]) + RestBy(phase))
    }

    constructor ()
      ensures Valid() && requests == [] && commits == []
    {
      hide LogOf, AppliedOf, Chained, Answered, NextTicket, NextSequence, Durable;
      NothingYet();
      requests, results, writers, asleep := [], [], [], {};
      lastSequence, log, durable, mem, bgError, phase := 0, [], 0, [], false, Idle;
      commits, base := [], 0;
    }

    // All its numbers are below the one published, and what it lost was logged.
    lemma FinishPublishes()
      requires Valid() && phase.Committing? && phase.stage == Finishing
      ensures var c := phase.group;
        && lastSequence <= c.first + |c.ops| - 1
        && (forall s | s in View().mem + View().rest :: s.seqno <= c.first + |c.ops| - 1)
        && Publishes(View(), Writes(log, mem, c.first + |c.ops| - 1, LostOf((commits + [c])[base..])))
    {
      hide Answered, Durable, Grouped, Honest, LogOf, AppliedOf, LostOf;
      NumbersBelow(requests, commits, base);
      RecordsAppend(commits, base, phase.group);
      var own := Numbered(phase.group.first, phase.group.ops);
      assert forall i | 0 <= i < |own| :: own[i].seqno == phase.group.first + i;
    }

    // While a group is being inserted, what is left of it is all there is.
    lemma NothingLostYet()
      requires Valid() && phase.Committing? && phase.stage == Inserting
      ensures LostOf(commits[base..]) == []
    {
      NothingLost(commits[base..]);
    }

    lemma NothingMore(s: seq<Stamped>)
      ensures s + [] == s
    {
    }

    lemma WholeOf(c: Commit)
      ensures Numbered(c.first, c.ops)[0..] == Numbered(c.first, c.ops)
    {
    }

    // Before a group is logged nothing is under way, unless a sync has failed.
    lemma NothingPending()
      requires Valid() && !bgError && (phase == Idle || (phase.Committing? && phase.stage == Logging))
      ensures base <= |commits| && Settled(View())
    {
      hide Answered, Durable, Grouped, Honest, LogOf, AppliedOf;
      NumbersBelow(requests, commits, base);
      NothingLost(commits[base..]);
    }

    // Write, up to its wait.
    method Join(r: Request) returns (ticket: nat)
      requires Valid()
      modifies `requests, `results, `writers
      ensures Valid() && ticket == old(|requests|) && requests == old(requests) + [r] && commits == old(commits)
      ensures View() == old(View())
    {
      hide Chained, InStage, NextTicket, NextSequence, LogOf, AppliedOf, Durable;
      ChainedGrows(requests, r, commits);
      if phase.Committing? {
        InStageGrows(requests, r, phase);
      }
      ticket := |requests|;
      requests := requests + [r];
      results := results + [None];
      writers := writers + [ticket];
    }

    // A writer that is not at the front waits.
    method Wait(t: nat)
      requires Valid() && t in writers && t != writers[0]
      modifies `asleep
      ensures Valid() && asleep == old(asleep) + {t} && View() == old(View())
    {
      hide Chained, Answered, Durable, LogOf, AppliedOf, InStage, NextTicket, NextSequence;
      asleep := asleep + {t};
    }

    // The outcome of waiting for room: an error, room as it is, or a new memtable and log file.
    method MakeRoomForWrite(roomOk: bool, switchMem: bool) returns (status: Status)
      requires Valid() && phase == Idle && writers != []
      modifies `log, `durable, `mem, `base
      ensures Valid() && (status == OK ==> !bgError)
      ensures View() == old(View()) || Rotates(old(View()), View())
    {
      hide Queued, LogOf, AppliedOf, Durable, LostOf;
      NoCommits(commits);
      if !bgError {
        NothingPending();
      }
      status := if bgError || !roomOk then Failed else OK;
      if status == OK && switchMem {
        log, durable, mem := [], 0, [];
        base := |commits|;
      }
    }

    // The writer at the front makes room, gathers its group and numbers it.
    method Lead(roomOk: bool, switchMem: bool)
      requires Valid() && phase == Idle && writers != []
      modifies `phase, `log, `durable, `mem, `base
      ensures Valid() && phase.Committing? && phase.group.first == lastSequence + 1
      ensures View() == old(View()) || Rotates(old(View()), View())
      ensures phase.stage == Logging ==> IsGroup(requests, writers[0], phase.group.end)
    {
      hide Chained, NextTicket, NextSequence, Barred, LogOf, AppliedOf, Answered, Durable, Grouped, IsGroup, Joined, SizeOf,
           LostOf, Settled, Rotates, Numbered;
      var w := writers[0];
      AloneGrouped(requests, w, lastSequence + 1);
      var status := MakeRoomForWrite(roomOk, switchMem);
      if status == OK && requests[w].batch.Some? {
        var last, updates := BuildBatchGroup(requests, writers);
        GroupIsGrouped(requests, w, last + 1, lastSequence + 1);
        phase := Committing(Commit(w, last + 1, lastSequence + 1, updates, false, false, OK), Logging, 0, false);
      } else {
        phase := Committing(Commit(w, w + 1, lastSequence + 1, [], false, false, status), Finishing, 0, false);
      }
    }

    // The group's batch goes to the log, or fails to.
    method AddRecord(ok: bool)
      requires Valid() && phase.Committing? && phase.stage == Logging
      modifies `phase, `log
      ensures Valid()
      ensures if ok then Appends(old(View()), View(), Record(old(phase).group.first, old(phase).group.ops))
              else View() == old(View())
    {
      hide Chained, NextTicket, NextSequence, Barred, Grouped, LogOf, AppliedOf, Joined;
      var c := phase.group;
      GroupedWithin(requests, c);
      NothingPending();
      WholeOf(c);
      if ok {
        log := log + [Record(c.first, c.ops)];
        phase := phase.(group := c.(logged := true), stage := if requests[c.from].sync then Syncing else Inserting);
      } else {
        phase := phase.(group := c.(status := Failed), stage := Finishing);
      }
    }

    // The log file is synced, or fails to be.
    method Sync(ok: bool)
      requires Valid() && phase.Committing? && phase.stage == Syncing
      modifies `phase, `durable
      ensures Valid() && View() == old(View())
    {
      hide Chained, NextTicket, NextSequence, Barred, Grouped, LogOf, AppliedOf, Joined;
      GroupedWithin(requests, phase.group);
      if ok {
        durable := |log|;
        phase := phase.(group := phase.group.(synced := true), stage := Inserting);
      } else {
        phase := phase.(group := phase.group.(status := Failed), stage := Finishing, syncError := true);
      }
    }

    // One operation of WriteBatchInternal::InsertInto.
    method InsertNext()
      requires Valid() && phase.Committing? && phase.stage == Inserting
      modifies `phase, `mem
      ensures Valid() && (Applies(old(View()), View()) || View() == old(View()))
    {
      hide Chained, NextTicket, NextSequence, Barred, Grouped, LogOf, AppliedOf, Joined, Numbered;
      var c := phase.group;
      if phase.inserted < |c.ops| {
        OneMoreInserted(c.first, c.ops, phase.inserted);
        NothingLostYet();
        mem := mem + [Stamped(c.first + phase.inserted, c.ops[phase.inserted])];
        phase := phase.(inserted := phase.inserted + 1);
      } else {
        phase := phase.(stage := Finishing);
      }
    }

    // The leader takes the mutex back: it publishes the sequence, dismisses its group and
    // wakes whoever now stands at the front.
    method Finish()
      requires Valid() && phase.Committing? && phase.stage == Finishing
      modifies `phase, `commits, `writers, `results, `asleep, `bgError, `lastSequence
      ensures Valid() && phase == Idle && commits == old(commits) + [old(phase.group)]
      ensures Publishes(old(View()), View())
    {
      hide Durable, Chained, NextTicket, NextSequence, Grouped, Honest, LogOf, AppliedOf, LostOf, Joined, Numbered, Answered,
           Publishes;
      var c := phase.group;
      FinishPublishes();
      GroupedWithin(requests, c);
      FinishedIsHonest(requests, phase);
      ChainedAppend(requests, commits, c);
      RecordsAppend(commits, base, c);
      InsertedAll(requests, phase);
      DurableAppend(commits, base, c, durable);
      if phase.syncError {
        bgError := true;
      }
      lastSequence := c.first + |c.ops| - 1;
      Dismiss(c);
      AnsweredAppend(requests, commits, c, old(results), results);
      commits := commits + [c];
      phase := Idle;
      NothingMore(LostOf(commits[base..]));
    }

    // The loop that takes the group off the queue.
    method Dismiss(c: Commit)
      requires c.from < c.end <= |requests| == |results| && |writers| == |requests| - c.from
      requires forall i | 0 <= i < |writers| :: writers[i] == c.from + i
      requires forall t | t in asleep :: c.from < t < |requests|
      modifies `writers, `results, `asleep
      ensures |results| == |requests| && |writers| == |requests| - c.end
      ensures forall i | 0 <= i < |writers| :: writers[i] == c.end + i
      ensures forall t | c.from <= t < c.end :: results[t] == Some(c.status)
      ensures forall t | 0 <= t < |results| && !(c.from <= t < c.end) :: results[t] == old(results)[t]
      ensures forall t | t in asleep :: c.end < t < |requests|
    {
      var done := false;
      ghost var next := c.from;
      while !done
        invariant c.from <= next <= c.end && (done <==> next == c.end)
        invariant |writers| == |requests| - next && forall i | 0 <= i < |writers| :: writers[i] == next + i
        invariant |results| == |requests| && (forall t | c.from <= t < next :: results[t] == Some(c.status))
        invariant forall t | 0 <= t < |results| && !(c.from <= t < next) :: results[t] == old(results)[t]
        invariant c.from !in asleep && forall t | t in asleep :: next <= t < |requests|
        decreases c.end - next
      {
        var ready := writers[0];
        writers := writers[1..];
        // The leader itself returns the status.
        results := results[ready := Some(c.status)];
        if ready != c.from {
          asleep := asleep - {ready};
        }
        done := ready == c.end - 1;
        next := next + 1;
      }
      if writers != [] {
        asleep := asleep - {writers[0]};
      }
    }
  
    // Any interleaving of the writers' steps.
    method Run(events: seq<Event>) returns (ghost views: seq<Writes>)
      requires Valid()
      modifies this
      ensures Valid() && old(commits) <= commits && old(requests) <= requests
      ensures |views| == |events| + 1 && views[0] == old(View()) && views[|events|] == View()
      ensures forall i | 0 <= i < |events| :: WriteStep(views[i], views[i + 1])
    {
      hide Queued, Recorded, Underway, View, Rotates, Appends, Applies, Publishes;
      Based();
      views := [View()];
      for n := 0 to |events|
        invariant Valid() && old(commits) <= commits && old(requests) <= requests && base <= |commits|
        invariant |views| == n + 1 && views[0] == old(View()) && views[n] == View()
        invariant forall i | 0 <= i < n :: WriteStep(views[i], views[i + 1])
      {
        ghost var before := View();
        match events[n] {
          case Joins(r) =>
            var ticket := Join(r);
          case Waits(t) =>
            if t in writers && t != writers[0] {
              Wait(t);
            }
          case Leads(roomOk, switchMem) =>
            if phase == Idle && writers != [] {
              Lead(roomOk, switchMem);
            }
          case Works(ok) =>
            if phase.Committing? {
              match phase.stage {
                case Logging => AddRecord(ok);
                case Syncing => Sync(ok);
                case Inserting => InsertNext();
                case Finishing => Finish();
              }
            }
        }
        Based();
        assert WriteStep(before, View());
        views := views + [View()];
      }
    }

    lemma Based()
      requires Valid()
      ensures base <= |commits|
    {
    }

    // ---- What every state of every run satisfies. ----

    // No sleeper could go on: not the writer at the front, and not one whose write is done.
    lemma NobodySleepsThroughTheirTurn()
      requires Valid()
      ensures writers != [] ==> writers[0] !in asleep
      ensures forall t | 0 <= t < |results| && results[t].Some? :: t !in asleep
    {
    }

    // A write that succeeded was logged whole, once, under a leader as demanding as itself.
    lemma SuccessMeansLogged(t: nat) returns (i: nat)
      requires Valid() && t < |results| && results[t] == Some(OK) && requests[t].batch.Some?
      ensures i < |commits| && commits[i].from <= t < commits[i].end
      ensures commits[i].logged && InGroup(requests, commits[i], t)
      ensures requests[t].sync ==> requests[commits[i].from].sync && commits[i].synced
    {
      hide Chained, Answered, NextTicket, NextSequence, Durable, LogOf, AppliedOf, InGroup, InStage;
      i := AnsweredMeansLogged(requests, commits, results, t);
    }

    // A reader's sequence number splits no group: what is being inserted is still above it.
    lemma SnapshotsSeeWholeGroups(i: nat)
      requires Valid() && i < |commits|
      ensures commits[i].first + |commits[i].ops| - 1 <= lastSequence
      ensures phase.Committing? ==> phase.group.first > lastSequence
      ensures forall e | e in InsertedBy(phase) :: e.seqno > lastSequence
    {
      SequencesInOrder(requests, commits, i, |commits|);
      assert commits[..|commits|] == commits;
      if phase.Committing? {
        var s := Numbered(phase.group.first, phase.group.ops);
        assert forall k | 0 <= k < |s| :: s[k].seqno == phase.group.first + k;
      }
    }

    // Between groups, and while no sync has failed, the memtable is what its log file replays to.
    lemma LogReplaysToMemtable()
      requires Valid() && phase == Idle && !bgError
      ensures mem == Replay(log)
    {
      hide LogOf, AppliedOf, Replay, Grouped, Durable, Answered;
      LoggedIsApplied(requests, commits, base);
      assert log == LogOf(commits[base..]) && mem == AppliedOf(commits[base..]);
    }
  }

  datatype Event = Joins(r: Request) | Waits(t: nat) | Leads(roomOk: bool, switchMem: bool) | Works(ok: bool)

  lemma {:induction false} ReplayOfLog(commits: seq<Commit>)
    requires forall c | c in commits ::
      (c.logged ==> c.status == OK) && (c.status == OK && !c.logged ==> c.ops == [])
    ensures AppliedOf(commits) == Replay(LogOf(commits))
  {
    if commits != [] {
      var n := |commits| - 1;
      var c := commits[n];
      ReplayOfLog(commits[..n]);
      assert c in commits;
      var l := LogOf(commits[..n]);
      if c.logged {
        assert (l + [Record(c.first, c.ops)])[..|l|] == l;
      } else {
        assert c.status == OK ==> Numbered(c.first, c.ops) == [];
        assert LogOf(commits) == l + [] == l;
      }
    }
  }

  // The ticket's batch stands whole in its group's operations, after those of the tickets before it.
  ghost predicate InGroup(requests: seq<Request>, c: Commit, t: nat)
    requires c.from <= t < c.end <= |requests|
  {
    var k := |Joined(requests, c.from, t)|;
    var b := BatchOf(requests[t]);
    k + |b| <= |c.ops| && c.ops[k..k + |b|] == b
  }

  lemma {:induction false} BatchInPlace(requests: seq<Request>, from: nat, end: nat, t: nat)
    requires from <= t < end <= |requests|
    ensures var all, k, b := Joined(requests, from, end), |Joined(requests, from, t)|, BatchOf(requests[t]);
      k + |b| <= |all| && all[k..k + |b|] == b
    decreases end
  {
    hide BatchOf;
    var before := Joined(requests, from, end - 1);
    assert Joined(requests, from, end) == before + BatchOf(requests[end - 1]);
    if t < end - 1 {
      BatchInPlace(requests, from, end - 1, t);
      StillThere(before, BatchOf(requests[end - 1]), |Joined(requests, from, t)|, |BatchOf(requests[t])|);
    } else {
      Drops(before, BatchOf(requests[t]));
    }
  }

  // Every finished ticket is in exactly one group.
  lemma {:induction false} TicketIn(requests: seq<Request>, commits: seq<Commit>, t: nat) returns (i: nat)
    requires Chained(requests, commits) && t < NextTicket(commits)
    ensures i < |commits| && commits[i].from <= t < commits[i].end
    ensures forall j | 0 <= j < |commits| && commits[j].from <= t < commits[j].end :: j == i
  {
    hide Chained;
    i := SomeTicketIn(requests, commits, t);
    forall j: nat | j < |commits| && commits[j].from <= t < commits[j].end
      ensures j == i
    {
      if i < j {
        SequencesInOrder(requests, commits, i, j);
      } else if j < i {
        SequencesInOrder(requests, commits, j, i);
      }
    }
  }

  lemma {:induction false} SomeTicketIn(requests: seq<Request>, commits: seq<Commit>, t: nat) returns (i: nat)
    requires Chained(requests, commits) && t < NextTicket(commits)
    ensures i < |commits| && commits[i].from <= t < commits[i].end
    decreases |commits|
  {
    hide Grouped, Honest;
    var n := |commits| - 1;
    if commits[n].from <= t {
      i := n;
    } else {
      ChainedPrefix(requests, commits, n);
      assert commits[n].from == NextTicket(commits[..n]);
      i := SomeTicketIn(requests, commits[..n], t);
    }
  }

  // Tickets and sequence numbers run in the same order, and no number is used twice.
  lemma {:induction false} SequencesInOrder(requests: seq<Request>, commits: seq<Commit>, i: nat, j: nat)
    requires Chained(requests, commits) && i < j <= |commits|
    ensures commits[i].first + |commits[i].ops| <= NextSequence(commits[..j])
    ensures commits[i].end <= NextTicket(commits[..j])
    ensures j < |commits| ==> NextTicket(commits[..j]) == commits[j].from && NextSequence(commits[..j]) == commits[j].first
    decreases j
  {
    hide Grouped, Honest;
    GroupedWithin(requests, commits[j - 1]);
    assert commits[..j][j - 1] == commits[j - 1];
    if i < j - 1 {
      SequencesInOrder(requests, commits, i, j - 1);
    }
  }

  lemma LoggedIsApplied(requests: seq<Request>, commits: seq<Commit>, base: nat)
    requires Chained(requests, commits) && base <= |commits|
    requires forall c | c in commits && c.logged :: c.status == OK
    ensures AppliedOf(commits[base..]) == Replay(LogOf(commits[base..]))
  {
    hide Grouped, AppliedOf, Replay, LogOf;
    forall c | c in commits[base..]
      ensures (c.logged ==> c.status == OK) && (c.status == OK && !c.logged ==> c.ops == [])
    {
      var i :| base <= i < |commits| && commits[i] == c;
      GroupedWithin(requests, commits[i]);
    }
    ReplayOfLog(commits[base..]);
  }

  // A group that succeeded with a batch in it carries all of them.
  lemma GroupIsWhole(requests: seq<Request>, c: Commit, t: nat)
    requires Grouped(requests, c) && c.from <= t < c.end <= |requests| && Honest(requests, c)
    requires c.status == OK && requests[t].batch.Some?
    ensures c.logged && InGroup(requests, c, t)
    ensures requests[t].sync ==> requests[c.from].sync && c.synced
  {
    assert t == c.from || !Barred(requests, c.from, t);
    BatchInPlace(requests, c.from, c.end, t);
  }

  lemma AnsweredMeansLogged(requests: seq<Request>, commits: seq<Commit>, results: seq<Option<Status>>, t: nat) returns (i: nat)
    requires Chained(requests, commits) && Answered(commits, results) && |results| == |requests|
    requires t < |results| && results[t] == Some(OK) && requests[t].batch.Some?
    ensures i < |commits| && commits[i].from <= t < commits[i].end <= |requests|
    ensures commits[i].logged && InGroup(requests, commits[i], t)
    ensures requests[t].sync ==> requests[commits[i].from].sync && commits[i].synced
  {
    hide Honest, InGroup, Barred, Joined;
    i := TicketIn(requests, commits, t);
    GroupIsWhole(requests, commits[i], t);
  }
}
