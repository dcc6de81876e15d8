// The user's iterator: one live entry per user key, at a snapshot (db/db_iter.cc).

module DbIters {
  import opened Keys
  import opened History
  import opened Merging
  import opened MergingIterators

  ghost predicate Shown(run: seq<Entry>, snap: Sequence, j: int) {
    0 <= j < |run| && run[j].key.seqno <= snap
  }

  // The entry at p is what the snapshot has for its user key, and it is a put.
  ghost predicate LiveAt(run: seq<Entry>, snap: Sequence, p: int) {
    && Shown(run, snap, p) && run[p].key.kind == Put
    && forall q | 0 <= q < p && run[q].key.user == run[p].key.user :: !Shown(run, snap, q)
  }

  // The iterator stands on the lowest (highest) live user key satisfying P, with the
  // value the snapshot has for it; or there is no such key and it is not valid.
  ghost predicate Lowest(S: set<Entry>, snap: Sequence, P: UserKey -> bool, valid: bool, u: UserKey, v: Bytes) {
    if valid then P(u) && Read(S, u, snap) == Found(v) && forall w | P(w) && w < u :: Read(S, w, snap) == NotFound
    else forall w | P(w) :: Read(S, w, snap) == NotFound
  }

  ghost predicate Highest(S: set<Entry>, snap: Sequence, P: UserKey -> bool, valid: bool, u: UserKey, v: Bytes) {
    if valid then P(u) && Read(S, u, snap) == Found(v) && forall w | P(w) && u < w :: Read(S, w, snap) == NotFound
    else forall w | P(w) :: Read(S, w, snap) == NotFound
  }

  lemma FoundMeansLive(run: seq<Entry>, snap: Sequence, u: UserKey) returns (p: nat)
    requires Sorted(run) && Distinct(Elements(run)) && Read(Elements(run), u, snap).Found?
    ensures LiveAt(run, snap, p) && run[p].key.user == u
  {
    var e := Newest(Elements(run), u, snap).value;
    p :| 0 <= p < |run| && run[p] == e;
    forall q | 0 <= q < p && run[q].key.user == run[p].key.user
      ensures !Shown(run, snap, q)
    {
      assert Less(run[q].key, run[p].key);
      assert run[q] in Elements(run);
    }
  }

  lemma LiveMeansFound(run: seq<Entry>, snap: Sequence, p: nat)
    requires Sorted(run) && Distinct(Elements(run)) && LiveAt(run, snap, p)
    ensures Read(Elements(run), run[p].key.user, snap) == Found(run[p].value)
  {
    var S, u := Elements(run), run[p].key.user;
    forall x | x in S && Visible(x, u, snap)
      ensures x.key.seqno <= run[p].key.seqno
    {
      var j :| 0 <= j < |run| && run[j] == x;
      if p < j {
        assert Less(run[p].key, run[j].key);
      }
    }
    assert run[p] in S;
    NewestIs(run[p], S, u, snap);
  }

  lemma UsersAscend(run: seq<Entry>, i: nat, j: nat)
    requires Sorted(run) && i <= j < |run|
    ensures run[i].key.user <= run[j].key.user
  {
    if i < j {
      assert Less(run[i].key, run[j].key);
    }
  }

  // ---- Scanning forward. ----

  // What the forward scan knows at position pos: every live key it is after lies
  // ahead and above what it skips; what it skips covers every key cut in two.
  ghost predicate ScanningUp(run: seq<Entry>, snap: Sequence, P: UserKey -> bool, pos: nat,
                             skipping: bool, skip: UserKey) {
    && pos <= |run|
    && (forall p | LiveAt(run, snap, p) && P(run[p].key.user) :: p >= pos && (skipping ==> run[p].key.user > skip))
    && (forall q, j | 0 <= q < pos <= j < |run| && Shown(run, snap, q) && run[q].key.user == run[j].key.user ::
          skipping && run[j].key.user <= skip)
    && (forall j | pos <= j < |run| && !(skipping && run[j].key.user <= skip) :: P(run[j].key.user))
    && (forall j | pos <= j < |run| && Shown(run, snap, j) && skipping :: skip <= run[j].key.user)
  }

  lemma UpPastHidden(run: seq<Entry>, snap: Sequence, P: UserKey -> bool, pos: nat, skipping: bool, skip: UserKey)
    requires Sorted(run) && ScanningUp(run, snap, P, pos, skipping, skip) && pos < |run|
    requires !Shown(run, snap, pos) || (skipping && run[pos].key.user <= skip)
    ensures ScanningUp(run, snap, P, pos + 1, skipping, skip)
  {
  }

  lemma UpPastDeletion(run: seq<Entry>, snap: Sequence, P: UserKey -> bool, pos: nat, skipping: bool, skip: UserKey)
    requires Sorted(run) && ScanningUp(run, snap, P, pos, skipping, skip) && pos < |run|
    requires Shown(run, snap, pos) && run[pos].key.kind == Deletion
    ensures ScanningUp(run, snap, P, pos + 1, true, run[pos].key.user)
  {
    forall j | pos < j < |run|
      ensures run[pos].key.user <= run[j].key.user
    {
      assert Less(run[pos].key, run[j].key);
    }
    forall q, j | 0 <= q < pos < j < |run| && run[q].key.user == run[j].key.user
      ensures run[j].key.user <= run[pos].key.user
    {
      assert Less(run[q].key, run[pos].key);
    }
  }

  lemma UpFound(run: seq<Entry>, snap: Sequence, P: UserKey -> bool, pos: nat, skipping: bool, skip: UserKey)
    requires Sorted(run) && Distinct(Elements(run))
    requires ScanningUp(run, snap, P, pos, skipping, skip) && pos < |run|
    requires Shown(run, snap, pos) && run[pos].key.kind == Put && !(skipping && run[pos].key.user <= skip)
    ensures LiveAt(run, snap, pos)
    ensures Lowest(Elements(run), snap, P, true, run[pos].key.user, run[pos].value)
  {
    LiveMeansFound(run, snap, pos);
    forall p | LiveAt(run, snap, p) && P(run[p].key.user)
      ensures run[pos].key.user <= run[p].key.user
    {
      assert pos < p ==> Less(run[pos].key, run[p].key);
    }
    forall w | P(w) && w < run[pos].key.user
      ensures Read(Elements(run), w, snap) == NotFound
    {
      if Read(Elements(run), w, snap).Found? {
        var p := FoundMeansLive(run, snap, w);
      }
    }
  }

  lemma UpExhausted(run: seq<Entry>, snap: Sequence, P: UserKey -> bool, skipping: bool, skip: UserKey,
                    u: UserKey, v: Bytes)
    requires Sorted(run) && Distinct(Elements(run))
    requires ScanningUp(run, snap, P, |run|, skipping, skip)
    ensures Lowest(Elements(run), snap, P, false, u, v)
  {
    forall w | P(w)
      ensures Read(Elements(run), w, snap) == NotFound
    {
      if Read(Elements(run), w, snap).Found? {
        var p := FoundMeansLive(run, snap, w);
      }
    }
  }

  // ---- Scanning backward. ----

  // What the backward scan knows when it is about to look at entry c: it is after
  // the highest live key satisfying P, which holds of the keys up to c; r is the
  // last entry it has seen that the snapshot shows, if any.
  ghost predicate ScanningDown(run: seq<Entry>, snap: Sequence, P: UserKey -> bool, c: int, r: int) {
    && -1 <= c < |run| && c < r <= |run|
    && (forall j | 0 <= j <= c || j == r < |run| :: P(run[j].key.user))
    && (forall j | c < j < r && P(run[j].key.user) :: !Shown(run, snap, j))
    && (r < |run| ==> Shown(run, snap, r))
    && (forall p | LiveAt(run, snap, p) && P(run[p].key.user) :: r < |run| ==> run[p].key.user <= run[r].key.user)
    && (r < |run| ==> forall j | c < j < r :: P(run[j].key.user))
  }

  lemma DownPastInvisible(run: seq<Entry>, snap: Sequence, P: UserKey -> bool, c: int, r: int)
    requires Sorted(run) && ScanningDown(run, snap, P, c, r) && c >= 0 && !Shown(run, snap, c)
    ensures ScanningDown(run, snap, P, c - 1, r)
  {
  }

  // With a put in hand, a shown entry of a lower key means the put is live.
  lemma DownFound(run: seq<Entry>, snap: Sequence, P: UserKey -> bool, c: int, r: int)
    requires Sorted(run) && Distinct(Elements(run)) && ScanningDown(run, snap, P, c, r)
    requires r < |run| && run[r].key.kind == Put
    requires c >= 0 ==> run[c].key.user < run[r].key.user
    ensures LiveAt(run, snap, r)
    ensures Highest(Elements(run), snap, P, true, run[r].key.user, run[r].value)
  {
    NothingNewerBelow(run, snap, P, c, r);
    LiveMeansFound(run, snap, r);
    forall w | P(w) && run[r].key.user < w
      ensures Read(Elements(run), w, snap) == NotFound
    {
      if Read(Elements(run), w, snap).Found? {
        var p := FoundMeansLive(run, snap, w);
      }
    }
  }

  lemma NothingNewerBelow(run: seq<Entry>, snap: Sequence, P: UserKey -> bool, c: int, r: int)
    requires Sorted(run) && ScanningDown(run, snap, P, c, r) && r < |run|
    requires c >= 0 ==> run[c].key.user < run[r].key.user
    ensures forall q | 0 <= q < r && run[q].key.user == run[r].key.user :: !Shown(run, snap, q)
  {
    forall q | 0 <= q < r && run[q].key.user == run[r].key.user
      ensures !Shown(run, snap, q)
    {
      UsersAscend(run, q, if q < c then c else q);
    }
  }

  // Otherwise the shown entry takes over.
  lemma DownTakesOver(run: seq<Entry>, snap: Sequence, P: UserKey -> bool, c: int, r: int)
    requires Sorted(run) && ScanningDown(run, snap, P, c, r) && c >= 0 && Shown(run, snap, c)
    requires r < |run| && run[r].key.kind == Put ==> run[c].key.user >= run[r].key.user
    ensures ScanningDown(run, snap, P, c - 1, c)
  {
    forall p | LiveAt(run, snap, p) && P(run[p].key.user)
      ensures run[p].key.user <= run[c].key.user
    {
      if p > c {
        UsersAscend(run, r, p);
        assert false;
      } else {
        assert p < c ==> Less(run[p].key, run[c].key);
      }
    }
  }

  lemma DownExhausted(run: seq<Entry>, snap: Sequence, P: UserKey -> bool, r: int, u: UserKey, v: Bytes)
    requires Sorted(run) && Distinct(Elements(run)) && ScanningDown(run, snap, P, -1, r)
    requires r < |run| ==> run[r].key.kind == Deletion
    ensures Highest(Elements(run), snap, P, false, u, v)
  {
    forall w | P(w)
      ensures Read(Elements(run), w, snap) == NotFound
    {
      if Read(Elements(run), w, snap).Found? {
        var p := FoundMeansLive(run, snap, w);
        assert r < p ==> Less(run[r].key, run[p].key);
      }
    }
  }

  // ---- Where the scans start and stop. ----

  ghost function Everything(): UserKey -> bool {
    (w: UserKey) => true
  }

  ghost function AtLeast(u: UserKey): UserKey -> bool {
    (w: UserKey) => w >= u
  }

  ghost function MoreThan(u: UserKey): UserKey -> bool {
    (w: UserKey) => w > u
  }

  ghost function LessThan(u: UserKey): UserKey -> bool {
    (w: UserKey) => w < u
  }

  // In reverse, the internal iterator stands just before the entries of the current
  // key, at index c or before all: what lies between is invisible at the snapshot.
  ghost predicate JustBefore(run: seq<Entry>, snap: Sequence, c: int, u: UserKey) {
    && -1 <= c < |run|
    && (c >= 0 ==> run[c].key.user < u)
    && (forall j | c < j < |run| && run[j].key.user < u :: !Shown(run, snap, j))
  }

  lemma UpFromSeek(run: seq<Entry>, snap: Sequence, target: UserKey)
    requires Sorted(run)
    ensures ScanningUp(run, snap, AtLeast(target), LowerBound(run, LookupKey(target, snap)), false, target)
  {
    var k := LookupKey(target, snap);
    var b := LowerBound(run, k);
    forall j | b <= j < |run|
      ensures run[j].key.user >= target
    {
      UsersAscend(run, b, j);
    }
  }

  lemma UpFromLive(run: seq<Entry>, snap: Sequence, p: nat)
    requires Sorted(run) && LiveAt(run, snap, p)
    ensures ScanningUp(run, snap, MoreThan(run[p].key.user), p, true, run[p].key.user)
  {
    forall i, j | 0 <= i <= j < |run|
      ensures run[i].key.user <= run[j].key.user
    {
      UsersAscend(run, i, j);
    }
  }

  lemma UpFromReverse(run: seq<Entry>, snap: Sequence, c: int, u: UserKey)
    requires Sorted(run) && JustBefore(run, snap, c, u)
    ensures -1 <= c && ScanningUp(run, snap, MoreThan(u), c + 1, true, u)
  {
    forall i, j | 0 <= i <= j < |run|
      ensures run[i].key.user <= run[j].key.user
    {
      UsersAscend(run, i, j);
    }
  }

  lemma DownFromBoundary(run: seq<Entry>, snap: Sequence, c: int, k: UserKey)
    requires -1 <= c < |run| && (forall j | 0 <= j <= c :: run[j].key.user < k) && forall j | c < j < |run| :: run[j].key.user >= k
    ensures ScanningDown(run, snap, LessThan(k), c, |run|)
  {
  }

  lemma DownFromReverse(run: seq<Entry>, snap: Sequence, c: int, u: UserKey)
    requires Sorted(run) && JustBefore(run, snap, c, u)
    ensures ScanningDown(run, snap, LessThan(u), c, |run|)
  {
    if c >= 0 {
      forall j | 0 <= j <= c
        ensures run[j].key.user < u
      {
        UsersAscend(run, j, c);
      }
    }
  }

  lemma DownStops(run: seq<Entry>, snap: Sequence, P: UserKey -> bool, c: int, r: int)
    requires Sorted(run) && ScanningDown(run, snap, P, c, r) && r < |run|
    requires c >= 0 ==> run[c].key.user < run[r].key.user
    ensures JustBefore(run, snap, c, run[r].key.user)
  {
    forall j | r <= j < |run|
      ensures run[j].key.user >= run[r].key.user
    {
      UsersAscend(run, r, j);
    }
  }

  // What the backward scan has kept of the last entry it saw that the snapshot shows.
  ghost predicate Saved(run: seq<Entry>, r: nat, kind: ValueType, key: UserKey, value: Bytes) {
    if r < |run| then kind == run[r].key.kind && (kind == Put ==> key == run[r].key.user && value == run[r].value)
    else kind == Deletion
  }

  lemma SavedIs(run: seq<Entry>, r: nat, kind: ValueType, key: UserKey, value: Bytes)
    ensures Saved(run, r, kind, key, value) <==>
            if r < |run| then kind == run[r].key.kind && (kind == Put ==> key == run[r].key.user && value == run[r].value)
            else kind == Deletion
  {
  }

  // ---- The iterator. ----

  class DBIter {
    const iter: MergingIterator
    const sequence: Sequence
    var savedKey: UserKey      // the current key when direction is Reverse
    var savedValue: Bytes      // the current value when direction is Reverse
    var direction: Direction
    var valid: bool

    // What came to the memtable since the iterator was opened is above its snapshot.
    ghost predicate Later() {
      Distinct(Elements(iter.merged)) && forall e | e in iter.whole && e !in iter.merged :: e.key.seqno > sequence
    }

    ghost predicate Ok()
      reads this, iter, iter.children
    {
      && iter.Ok() && Later()
      && (valid ==> direction == iter.direction && (iter.Valid() ==> iter.OnMerged()))
      && (valid && direction == Forward ==> iter.Valid() && LiveAt(iter.merged, sequence, iter.cut))
      && (valid && direction == Reverse ==>
            JustBefore(iter.merged, sequence, iter.cut - 1, savedKey) &&
            Read(Elements(iter.merged), savedKey, sequence) == Found(savedValue))
    }

    ghost function Entries(): set<Entry> {
      Elements(iter.merged)
    }

    constructor (iter: MergingIterator, sequence: Sequence)
      requires iter.Ok() && Distinct(Elements(iter.merged))
      requires forall e | e in iter.whole && e !in iter.merged :: e.key.seqno > sequence
      ensures Ok() && !valid && this.iter == iter && this.sequence == sequence
    {
      this.iter, this.sequence := iter, sequence;
      savedKey, savedValue, direction, valid := 0.0, [], Forward, false;
    }

    function Key(): UserKey
      requires Ok() && valid
      reads this, iter, iter.children
    {
      if direction == Forward then iter.Entry().key.user else savedKey
    }

    function Value(): Bytes
      requires Ok() && valid
      reads this, iter, iter.children
    {
      if direction == Forward then iter.Entry().value else savedValue
    }

    lemma LaterDistinct()
      requires Later()
      ensures Distinct(Elements(iter.merged))
    {
    }

    // A visible entry is one of those that were there when the iterator was opened.
    lemma VisibleIsMerged()
      requires iter.Ok() && Later() && iter.Valid()
      ensures iter.Entry().key.seqno <= sequence ==> iter.OnMerged()
      ensures iter.OnMerged() && iter.direction == Forward ==> iter.cut < |iter.merged| && iter.Entry() == iter.merged[iter.cut]
      ensures iter.OnMerged() && iter.direction == Reverse ==> iter.cut > 0 && iter.Entry() == iter.merged[iter.cut - 1]
    {
      hide MergingIterator.Ok;
      if iter.direction == Forward {
        iter.PlaceForward();
      } else {
        iter.PlaceReverse();
      }
    }

    method FindNextUserEntry(skipping0: bool, skip0: UserKey, ghost P: UserKey -> bool)
      requires iter.Ok() && Later() && direction == Forward && iter.direction == Forward
      requires ScanningUp(iter.merged, sequence, P, iter.cut, skipping0, skip0)
      modifies this, iter, iter.children
      ensures Ok() && direction == Forward
      ensures Lowest(Entries(), sequence, P, valid, if valid then Key() else 0.0, if valid then Value() else [])
    {
      hide ScanningUp, Lowest, Sorted, Distinct, MergingIterator.Ok, JustBefore, Later;
      LaterDistinct();
      var skipping, skip := skipping0, skip0;
      while iter.Valid()
        invariant iter.Ok() && Later() && direction == Forward && iter.direction == Forward
        invariant ScanningUp(iter.merged, sequence, P, iter.cut, skipping, skip)
        decreases iter.Ahead()
      {
        VisibleIsMerged();
        var e := iter.Entry();
        if e.key.seqno <= sequence {
          if e.key.kind == Deletion {
            // The deletion hides every older entry of its key: the scan may pass them over.
            UpPastDeletion(iter.merged, sequence, P, iter.cut, skipping, skip);
            skip, skipping := e.key.user, true;
          } else if skipping && e.key.user <= skip {
            UpPastHidden(iter.merged, sequence, P, iter.cut, skipping, skip);
          } else {
            UpFound(iter.merged, sequence, P, iter.cut, skipping, skip);
            valid := true;
            return;
          }
        } else if iter.OnMerged() {
          UpPastHidden(iter.merged, sequence, P, iter.cut, skipping, skip);
        }
        iter.Next();
      }
      iter.PlaceForward();
      UpExhausted(iter.merged, sequence, P, skipping, skip, 0.0, []);
      valid := false;
    }

    // One entry of the backward scan, unless it ends there.
    method LookBack(kind: ValueType, ghost P: UserKey -> bool, ghost r: nat) returns (stop: bool, kind': ValueType, ghost r': nat)
      requires iter.Ok() && Later() && iter.Valid() && direction == Reverse && iter.direction == Reverse
      requires ScanningDown(iter.merged, sequence, P, iter.cut - 1, r) && iter.cut <= r <= |iter.merged|
      requires Saved(iter.merged, r, kind, savedKey, savedValue)
      modifies `savedKey, `savedValue
      ensures r' <= |iter.merged| && Saved(iter.merged, r', kind', savedKey, savedValue)
      ensures stop ==> kind' == Put && iter.OnMerged() && iter.cut > 0 && r' == r < |iter.merged| &&
                       iter.merged[iter.cut - 1].key.user < savedKey
      ensures !stop ==> var c := if iter.OnMerged() then iter.cut - 2 else iter.cut - 1;
                        c < r' && ScanningDown(iter.merged, sequence, P, c, r')
    {
      hide ScanningDown, Sorted, Distinct, MergingIterator.Ok, Later;
      stop, kind', r' := false, kind, r;
      VisibleIsMerged();
      var e := iter.Entry();
      if e.key.seqno <= sequence {
        if kind != Deletion && e.key.user < savedKey {
          // The value saved is the newest of its key, all of whose entries are behind.
          return true, kind, r;
        }
        kind' := e.key.kind;
        if kind' != Deletion {
          savedKey, savedValue := e.key.user, e.value;
        }
        DownTakesOver(iter.merged, sequence, P, iter.cut - 1, r);
        r' := iter.cut - 1;
      } else if iter.OnMerged() {
        DownPastInvisible(iter.merged, sequence, P, iter.cut - 1, r);
      }
    }

    // The loop of the backward scan: to the first entry of a lower key than the one in hand, or to the end.
    method ScanDown(ghost P: UserKey -> bool) returns (kind: ValueType, ghost r: nat)
      requires iter.Ok() && Later() && direction == Reverse && iter.direction == Reverse
      requires ScanningDown(iter.merged, sequence, P, iter.cut - 1, |iter.merged|)
      modifies `savedKey, `savedValue, iter, iter.children
      ensures iter.Ok() && iter.direction == Reverse && r <= |iter.merged|
      ensures ScanningDown(iter.merged, sequence, P, iter.cut - 1, r) && Saved(iter.merged, r, kind, savedKey, savedValue)
      ensures iter.Valid() ==> kind == Put && iter.OnMerged() && 0 < iter.cut && r < |iter.merged| &&
                               iter.merged[iter.cut - 1].key.user < savedKey
      ensures !iter.Valid() ==> iter.cut == 0
    {
      hide ScanningDown, Sorted, Distinct, MergingIterator.Ok, Later, Saved;
      kind, r := Deletion, |iter.merged|;
      SavedIs(iter.merged, |iter.merged|, Deletion, savedKey, savedValue);
      while iter.Valid()
        invariant iter.Ok() && Later() && direction == Reverse && iter.direction == Reverse && iter.cut <= r <= |iter.merged|
        invariant ScanningDown(iter.merged, sequence, P, iter.cut - 1, r)
        invariant Saved(iter.merged, r, kind, savedKey, savedValue)
        decreases iter.Behind()
      {
        var stop;
        stop, kind, r := LookBack(kind, P, r);
        if stop {
          return;
        }
        iter.Prev();
      }
      iter.PlaceReverse();
    }

    method FindPrevUserEntry(ghost P: UserKey -> bool)
      requires iter.Ok() && Later() && direction == Reverse && iter.direction == Reverse
      requires ScanningDown(iter.merged, sequence, P, iter.cut - 1, |iter.merged|)
      modifies this, iter, iter.children
      ensures Ok() && (valid ==> direction == Reverse)
      ensures Highest(Entries(), sequence, P, valid, if valid then Key() else 0.0, if valid then Value() else [])
    {
      hide ScanningDown, Highest, JustBefore, Sorted, Distinct, Read, MergingIterator.Ok, LiveAt, Later, Saved;
      LaterDistinct();
      var valueType;
      ghost var r;
      valueType, r := ScanDown(P);
      SavedIs(iter.merged, r, valueType, savedKey, savedValue);
      if valueType == Deletion {
        DownExhausted(iter.merged, sequence, P, r, 0.0, []);
        valid, direction := false, Forward;
      } else {
        DownFound(iter.merged, sequence, P, iter.cut - 1, r);
        DownStops(iter.merged, sequence, P, iter.cut - 1, r);
        LiveMeansFound(iter.merged, sequence, r);
        valid := true;
      }
    }

    method SeekToFirst()
      requires Ok()
      modifies this, iter, iter.children
      ensures Ok()
      ensures Lowest(Entries(), sequence, Everything(), valid,
                     if valid then Key() else 0.0, if valid then Value() else [])
    {
      hide Lowest, Sorted, Distinct, MergingIterator.Ok, JustBefore, Read;
      direction := Forward;
      iter.SeekToFirst();
      FindNextUserEntry(false, savedKey, Everything());
    }

    method SeekToLast()
      requires Ok()
      modifies this, iter, iter.children
      ensures Ok()
      ensures Highest(Entries(), sequence, Everything(), valid,
                      if valid then Key() else 0.0, if valid then Value() else [])
    {
      hide Highest, Sorted, Distinct, MergingIterator.Ok, JustBefore, Read;
      direction := Reverse;
      iter.SeekToLast();
      FindPrevUserEntry(Everything());
    }

    method Seek(target: UserKey)
      requires Ok()
      modifies this, iter, iter.children
      ensures Ok()
      ensures Lowest(Entries(), sequence, AtLeast(target), valid,
                     if valid then Key() else 0.0, if valid then Value() else [])
    {
      hide Lowest, Sorted, Distinct, MergingIterator.Ok, JustBefore, Read;
      direction := Forward;
      iter.Seek(LookupKey(target, sequence));
      UpFromSeek(iter.merged, sequence, target);
      FindNextUserEntry(false, savedKey, AtLeast(target));
    }

    method Next()
      requires Ok() && valid
      modifies this, iter, iter.children
      ensures Ok()
      ensures Lowest(Entries(), sequence, MoreThan(old(Key())), valid,
                     if valid then Key() else 0.0, if valid then Value() else [])
    {
      hide ScanningUp, Lowest, JustBefore, Sorted, Distinct, Read, MergingIterator.Ok;
      ghost var k := Key();
      if direction == Reverse {
        direction := Forward;
        UpFromReverse(iter.merged, sequence, iter.cut - 1, savedKey);
        iter.PlaceReverse();
        // In reverse the cursor is before all entries of the current key: one step leads to them.
        if !iter.Valid() {
          iter.SeekToFirst();
        } else {
          iter.Next();
        }
      } else {
        iter.PlaceForward();
        savedKey := iter.Entry().key.user;
        UpFromLive(iter.merged, sequence, iter.cut);
      }
      FindNextUserEntry(true, savedKey, MoreThan(k));
    }

    // The reverse scan starts from below the current key.
    method ScanBack(k: UserKey)
      requires iter.Ok() && Later() && iter.Valid() && iter.direction == Forward && iter.OnMerged() && iter.Entry().key.user == k
      modifies iter, iter.children
      ensures iter.Ok() && Later() && iter.direction == Reverse
      ensures ScanningDown(iter.merged, sequence, LessThan(k), iter.cut - 1, |iter.merged|)
    {
      hide MergingIterator.Ok, Distinct, ScanningDown, Sorted, Later, Less;
      iter.PlaceForward();
      FromKey(iter.merged, iter.cut);
      while true
        invariant iter.Ok() && Later() && iter.Valid() && (iter.direction == Forward ==> iter.OnMerged())
        invariant forall j | iter.cut <= j < |iter.merged| :: iter.merged[j].key.user >= k
        invariant iter.direction == Reverse ==> iter.Entry().key.user >= k
        decreases iter.direction == Forward, iter.Behind()
      {
        VisibleIsMerged();
        iter.Prev();
        iter.PlaceReverse();
        if !iter.Valid() {
          DownFromBoundary(iter.merged, sequence, -1, k);
          return;
        }
        if iter.Entry().key.user < k {
          forall j: nat | j < iter.cut
            ensures iter.merged[j].key.user < k
          {
            iter.StillBefore(j);
            NoGreaterUser(iter.Entry().key, iter.merged[j].key);
          }
          DownFromBoundary(iter.merged, sequence, iter.cut - 1, k);
          return;
        }
      }
    }

    lemma NoGreaterUser(a: InternalKey, b: InternalKey)
      requires !Less(a, b)
      ensures b.user <= a.user
    {
    }

    lemma FromKey(run: seq<Entry>, p: nat)
      requires Sorted(run) && p < |run|
      ensures forall j | p <= j < |run| :: run[j].key.user >= run[p].key.user
    {
      forall j | p <= j < |run|
        ensures run[j].key.user >= run[p].key.user
      {
        UsersAscend(run, p, j);
      }
    }

    method Prev()
      requires Ok() && valid
      modifies this, iter, iter.children
      ensures Ok()
      ensures Highest(Entries(), sequence, LessThan(old(Key())), valid,
                      if valid then Key() else 0.0, if valid then Value() else [])
    {
      hide ScanningDown, Highest, Sorted, Distinct, Read, JustBefore, MergingIterator.Ok;
      ghost var k := Key();
      if direction == Forward {
        savedKey := iter.Entry().key.user;
        ScanBack(savedKey);
        if !iter.Valid() {
          iter.PlaceReverse();
          DownExhausted(iter.merged, sequence, LessThan(k), |iter.merged|, 0.0, []);
          valid := false;
          return;
        }
        direction := Reverse;
      } else {
        DownFromReverse(iter.merged, sequence, iter.cut - 1, savedKey);
      }
      FindPrevUserEntry(LessThan(k));
    }
  }
}
