// Internal keys, entries, and what a read at a snapshot means (db/dbformat.h).

module Keys {

  // A user key is only ever handed to the user comparator, a total order chosen
  // when the database is opened.  Any countable total order embeds in the reals,
  // so a user key is named by its place in that order.
  type UserKey = real

  type Bytes = seq<bv8>

  const MAX_SEQUENCE: nat := 0xff_ffff_ffff_ffff

  type Sequence = n: int | 0 <= n <= MAX_SEQUENCE

  datatype ValueType = Deletion | Put

  // kValueTypeForSeek: the highest-numbered type, since tags sort in decreasing order.
  const TYPE_FOR_SEEK := Put

  datatype InternalKey = InternalKey(user: UserKey, seqno: Sequence, kind: ValueType)

  datatype Entry = Entry(key: InternalKey, value: Bytes)

  // The packed 64-bit trailer: sequence number in the high bits, type in the low byte.
  function Tag(k: InternalKey): nat {
    k.seqno * 256 + (if k.kind == Deletion then 0 else 1)
  }

  // InternalKeyComparator: increasing user key, then decreasing tag.
  function Compare(a: InternalKey, b: InternalKey): int {
    if a.user < b.user then -1
    else if a.user > b.user then 1
    else if Tag(a) > Tag(b) then -1
    else if Tag(a) < Tag(b) then 1
    else 0
  }

  predicate Less(a: InternalKey, b: InternalKey) {
    Compare(a, b) < 0
  }

  function LookupKey(u: UserKey, snap: Sequence): InternalKey {
    InternalKey(u, snap, TYPE_FOR_SEEK)
  }

  ghost predicate Sorted(s: seq<Entry>) {
    forall i, j :: 0 <= i < j < |s| ==> Less(s[i].key, s[j].key)
  }

  function Elements(s: seq<Entry>): set<Entry> {
    set e | e in s
  }

  // Index of the first entry at or after k: where a Seek(k) lands.
  function LowerBound(s: seq<Entry>, k: InternalKey): (i: nat)
    ensures i <= |s|
    ensures forall j :: 0 <= j < i ==> Less(s[j].key, k)
    ensures i < |s| ==> !Less(s[i].key, k)
  {
    if s == [] || !Less(s[0].key, k) then 0 else 1 + LowerBound(s[1..], k)
  }
}

// The abstract meaning of the store: a set of entries read at a snapshot.
module History {
  import opened Keys

  datatype Option<+T> = None | Some(value: T)

  datatype Answer = Found(value: Bytes) | NotFound

  ghost predicate Visible(e: Entry, u: UserKey, snap: Sequence) {
    e.key.user == u && e.key.seqno <= snap
  }

  ghost predicate IsNewest(e: Entry, S: set<Entry>, u: UserKey, snap: Sequence) {
    e in S && Visible(e, u, snap) &&
    forall x | x in S && Visible(x, u, snap) :: x.key.seqno <= e.key.seqno
  }

  // A sequence number is used once, so it tells the entries of one user key apart.
  ghost predicate Distinct(S: set<Entry>) {
    forall x, y | x in S && y in S && x.key.user == y.key.user && x.key.seqno == y.key.seqno :: x == y
  }

  ghost function Newest(S: set<Entry>, u: UserKey, snap: Sequence): (r: Option<Entry>)
    ensures r.Some? ==> IsNewest(r.value, S, u, snap)
    ensures r.None? <==> forall x | x in S :: !Visible(x, u, snap)
  {
    if exists x :: x in S && Visible(x, u, snap) then
      NewestExists(S, u, snap);
      var e :| IsNewest(e, S, u, snap);
      Some(e)
    else None
  }

  function Judge(r: Option<Entry>): Answer {
    if r.Some? && r.value.key.kind == Put then Found(r.value.value) else NotFound
  }

  // What a read of u at snap must return.
  ghost function Read(S: set<Entry>, u: UserKey, snap: Sequence): Answer {
    Judge(Newest(S, u, snap))
  }

  lemma {:induction false} NewestExists(S: set<Entry>, u: UserKey, snap: Sequence)
    requires exists x :: x in S && Visible(x, u, snap)
    ensures exists e :: IsNewest(e, S, u, snap)
    decreases |S|
  {
    var x :| x in S && Visible(x, u, snap);
    var T := S - {x};
    if exists y :: y in T && Visible(y, u, snap) {
      NewestExists(T, u, snap);
      var e :| IsNewest(e, T, u, snap);
      if x.key.seqno <= e.key.seqno {
        assert IsNewest(e, S, u, snap);
      } else {
        assert IsNewest(x, S, u, snap);
      }
    } else {
      assert IsNewest(x, S, u, snap);
    }
  }

  lemma NewestIs(e: Entry, S: set<Entry>, u: UserKey, snap: Sequence)
    requires Distinct(S) && IsNewest(e, S, u, snap)
    ensures Newest(S, u, snap) == Some(e)
  {
  }

  // Entries of A are newer than the entries of B they share a user key with.
  ghost predicate Newer(A: set<Entry>, B: set<Entry>) {
    forall x, y | x in A && y in B && x.key.user == y.key.user :: x.key.seqno > y.key.seqno
  }

  // Searching newer data first, and stopping at the first component that holds a
  // visible entry of the key, is right.
  lemma SearchNewerFirst(A: set<Entry>, B: set<Entry>, u: UserKey, snap: Sequence)
    requires Distinct(A + B) && Newer(A, B)
    ensures Newest(A + B, u, snap) ==
            if Newest(A, u, snap).Some? then Newest(A, u, snap) else Newest(B, u, snap)
  {
    var a, b := Newest(A, u, snap), Newest(B, u, snap);
    if a.Some? {
      NewestIs(a.value, A + B, u, snap);
    } else if b.Some? {
      NewestIs(b.value, A + B, u, snap);
    } else {
      assert forall x | x in A + B :: !Visible(x, u, snap);
    }
  }

  // Entries written after a snapshot do not change what it reads.
  lemma LaterWritesInvisible(S: set<Entry>, W: set<Entry>, u: UserKey, snap: Sequence)
    requires Distinct(S + W)
    requires forall w | w in W :: w.key.seqno > snap
    ensures Newest(S + W, u, snap) == Newest(S, u, snap)
  {
    var a := Newest(S, u, snap);
    if a.Some? {
      NewestIs(a.value, S + W, u, snap);
    } else {
      assert forall x | x in S + W :: !Visible(x, u, snap);
    }
  }

  // A Seek to the lookup key in a sorted run finds the newest visible entry.
  function SearchRun(s: seq<Entry>, u: UserKey, snap: Sequence): Option<Entry> {
    var i := LowerBound(s, LookupKey(u, snap));
    if i < |s| && s[i].key.user == u then Some(s[i]) else None
  }

  lemma SearchRunFindsNewest(s: seq<Entry>, u: UserKey, snap: Sequence)
    requires Sorted(s) && Distinct(Elements(s))
    ensures SearchRun(s, u, snap) == Newest(Elements(s), u, snap)
  {
    var S := Elements(s);
    var i := LowerBound(s, LookupKey(u, snap));
    var r := SearchRun(s, u, snap);
    forall x | x in S && Visible(x, u, snap)
      ensures r.Some? && x.key.seqno <= r.value.key.seqno
    {
      var j :| 0 <= j < |s| && s[j] == x;
      assert !Less(x.key, LookupKey(u, snap));
      assert i <= j;
    }
    if r.Some? {
      assert IsNewest(r.value, S, u, snap);
      NewestIs(r.value, S, u, snap);
    }
  }
}
