// Keys between keys: the bytewise comparator's shortening (util/comparator.cc), and the
// internal-key comparator's over it (db/dbformat.cc).

module Separators {
  import opened Bits
  import opened Coding
  import opened FilterBlocks

  predicate BytesLess(a: Data, b: Data) {
    b != [] && (a == [] || NumberOf(a[0]) < NumberOf(b[0]) ||
                (NumberOf(a[0]) == NumberOf(b[0]) && BytesLess(a[1..], b[1..])))
  }

  lemma {:induction false} BytesTransitive(a: Data, b: Data, c: Data)
    requires BytesLess(a, b) && BytesLess(b, c)
    ensures BytesLess(a, c)
    decreases |a|
  {
    hide NumberOf;
    if a != [] && NumberOf(a[0]) == NumberOf(b[0]) == NumberOf(c[0]) {
      BytesTransitive(a[1..], b[1..], c[1..]);
    }
  }

  lemma {:induction false} BytesIrreflexive(a: Data)
    ensures !BytesLess(a, a)
  {
    hide NumberOf;
    if a != [] {
      BytesIrreflexive(a[1..]);
    }
  }

  // The first byte that differs decides.
  lemma {:induction false} DifferAt(a: Data, b: Data, i: nat)
    requires i < |a| && i < |b| && a[..i] == b[..i] && NumberOf(a[i]) < NumberOf(b[i])
    ensures BytesLess(a, b)
    decreases i
  {
    hide NumberOf;
    if i > 0 {
      assert a[0] == a[..i][0] == b[..i][0] == b[0];
      assert a[1..][..i - 1] == a[..i][1..] && b[1..][..i - 1] == b[..i][1..];
      DifferAt(a[1..], b[1..], i - 1);
    }
  }

  // BytewiseComparator: a key at or after start and before limit, no longer than start.
  method FindShortestSeparator(start: Data, limit: Data) returns (r: Data)
    ensures r == start || (BytesLess(start, r) && BytesLess(r, limit))
    ensures |r| <= |start|
  {
    hide NumberOf, ByteOf, BytesLess;
    var minLength := if |start| < |limit| then |start| else |limit|;
    var diffIndex := 0;
    while diffIndex < minLength && start[diffIndex] == limit[diffIndex]
      invariant diffIndex <= minLength && start[..diffIndex] == limit[..diffIndex]
    {
      diffIndex := diffIndex + 1;
    }
    r := start;
    if diffIndex < minLength {
      var diffByte := NumberOf(start[diffIndex]);
      if diffByte < 0xff && diffByte + 1 < NumberOf(limit[diffIndex]) {
        r := r[diffIndex := ByteOf(diffByte + 1)];
        r := r[..diffIndex + 1];
        ByteRoundTrip(diffByte + 1);
        assert r[..diffIndex] == start[..diffIndex];
        DifferAt(start, r, diffIndex);
        DifferAt(r, limit, diffIndex);
      }
    }
  }

  method FindShortSuccessor(key: Data) returns (r: Data)
    ensures r == key || BytesLess(key, r)
    ensures |r| <= |key|
  {
    hide NumberOf, ByteOf, BytesLess;
    var i := 0;
    while i < |key|
      invariant i <= |key|
    {
      var byte := NumberOf(key[i]);
      if byte != 0xff {
        r := key[i := ByteOf(byte + 1)];
        r := r[..i + 1];
        ByteRoundTrip(byte + 1);
        assert r[..i] == key[..i];
        DifferAt(key, r, i);
        return;
      }
      i := i + 1;
    }
    r := key;
  }

  // ---- Internal keys: a user key, then eight bytes of tag. ----

  function TagOf(key: Data): nat {
    if |key| < 8 then 0 else ReadFixed64(key[|key| - 8..])
  }

  // Increasing user key, then decreasing tag.
  predicate InternalLess(a: Data, b: Data) {
    BytesLess(UserOf(a), UserOf(b)) || (UserOf(a) == UserOf(b) && TagOf(a) > TagOf(b))
  }

  lemma InternalTransitive(a: Data, b: Data, c: Data)
    requires InternalLess(a, b) && InternalLess(b, c)
    ensures InternalLess(a, c)
  {
    hide BytesLess, UserOf, TagOf;
    if BytesLess(UserOf(a), UserOf(b)) && BytesLess(UserOf(b), UserOf(c)) {
      BytesTransitive(UserOf(a), UserOf(b), UserOf(c));
    }
  }

  // kMaxSequenceNumber and kValueTypeForSeek packed: the earliest tag of a user key.
  const EARLIEST_TAG: nat := 0xffff_ffff_ffff_ff01

  // Strictly between two keys, and their user keys.
  ghost predicate Between(start: Data, r: Data, limit: Data) {
    BytesLess(UserOf(start), UserOf(r)) && BytesLess(UserOf(r), UserOf(limit))
  }

  lemma UserAppended(user: Data, tag: Data)
    requires |tag| == 8
    ensures UserOf(user + tag) == user
  {
  }

  method InternalSeparator(start: Data, limit: Data) returns (r: Data)
    ensures r == start || Between(start, r, limit)
    ensures |r| <= |start|
  {
    hide BytesLess, Fixed64;
    var userStart, userLimit := UserOf(start), UserOf(limit);
    var tmp := FindShortestSeparator(userStart, userLimit);
    r := start;
    if |tmp| < |userStart| && BytesLess(userStart, tmp) {
      UserAppended(tmp, Fixed64(EARLIEST_TAG));
      r := tmp + Fixed64(EARLIEST_TAG);
    }
  }

  method InternalSuccessor(key: Data) returns (r: Data)
    ensures r == key || BytesLess(UserOf(key), UserOf(r))
    ensures |r| <= |key|
  {
    hide BytesLess, Fixed64;
    var userKey := UserOf(key);
    var tmp := FindShortSuccessor(userKey);
    r := key;
    if |tmp| < |userKey| && BytesLess(userKey, tmp) {
      UserAppended(tmp, Fixed64(EARLIEST_TAG));
      r := tmp + Fixed64(EARLIEST_TAG);
    }
  }
}
