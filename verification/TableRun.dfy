// Table files as the store sees them: byte-string keys and the abstract keys they stand for
// (db/dbformat.h), and one lookup in a file (db/version_set.cc, SaveValue).

module TableRuns {
  import opened Keys
  import opened History
  import opened Versions
  import opened Bits
  import opened Coding
  import opened Blocks
  import opened FilterBlocks
  import opened Separators
  import opened TableBuilders
  import opened Tables

  // ---- A byte string's place in the order of byte strings. ----

  function Rank(user: Data): (r: UserKey)
    ensures 0.0 <= r < 1.0 && (user != [] ==> r > 0.0)
  {
    if user == [] then 0.0 else ((NumberOf(user[0]) + 1) as real + Rank(user[1..])) / 257.0
  }

  lemma {:induction false} RankOrders(a: Data, b: Data)
    ensures BytesLess(a, b) <==> Rank(a) < Rank(b)
    ensures Rank(a) == Rank(b) <==> a == b
    decreases |a|
  {
    hide NumberOf;
    if a != [] && b != [] {
      RankOrders(a[1..], b[1..]);
      HeadsCompare(NumberOf(a[0]), Rank(a[1..]), NumberOf(b[0]), Rank(b[1..]));
      if NumberOf(a[0]) == NumberOf(b[0]) {
        ByteIs(a[0], b[0]);
        assert a == [a[0]] + a[1..] && b == [b[0]] + b[1..];
      }
    }
  }

  lemma HeadsCompare(m: nat, x: real, n: nat, y: real)
    requires 0.0 <= x < 1.0 && 0.0 <= y < 1.0
    ensures var p, q := ((m + 1) as real + x) / 257.0, ((n + 1) as real + y) / 257.0;
      && (p < q <==> m < n || (m == n && x < y)) && (p == q <==> m == n && x == y)
  {
  }

  lemma ByteIs(a: Octet, b: Octet)
    requires NumberOf(a) == NumberOf(b)
    ensures a == b
  {
    ToBitsOfNat(a.bits);
    ToBitsOfNat(b.bits);
  }

  // ---- Internal keys. ----

  // ParseInternalKey.
  function ParseInternalKey(key: Data): Option<InternalKey> {
    if |key| < 8 || TagOf(key) % 256 > 1 then None
    else
      TagFits(key);
      Some(InternalKey(Rank(UserOf(key)), TagOf(key) / 256, if TagOf(key) % 256 == 0 then Deletion else Put))
  }

  lemma TagFits(key: Data)
    ensures TagOf(key) < TWO_64
  {
    hide ToNat;
    if |key| >= 8 {
      var s := key[|key| - 8..];
      WordRange(DecodeFixed32(s));
      WordRange(DecodeFixed32(s[4..]));
    }
  }

  // The same bytes, as the store writes them.
  function ValueOf(value: Data): Keys.Bytes {
    seq(|value|, i requires 0 <= i < |value| => NumberOf(value[i]) as bv8)
  }

  function EntryOf(p: Pair): Entry
    requires ParseInternalKey(p.key).Some?
  {
    Entry(ParseInternalKey(p.key).value, ValueOf(p.value))
  }

  ghost predicate Parsed(es: seq<Pair>) {
    forall i | 0 <= i < |es| :: ParseInternalKey(es[i].key).Some?
  }

  // A file's entries as the store has them.
  function RunOf(es: seq<Pair>): (r: seq<Entry>)
    requires Parsed(es)
    ensures |r| == |es| && forall i | 0 <= i < |es| :: r[i] == EntryOf(es[i])
  {
    seq(|es|, i requires 0 <= i < |es| => EntryOf(es[i]))
  }

  // The two comparators agree.
  lemma KeysAgree(a: Data, b: Data)
    requires ParseInternalKey(a).Some? && ParseInternalKey(b).Some?
    ensures InternalLess(a, b) <==> Less(ParseInternalKey(a).value, ParseInternalKey(b).value)
  {
    hide Rank, BytesLess, UserOf, TagOf;
    RankOrders(UserOf(a), UserOf(b));
    RankOrders(UserOf(b), UserOf(a));
  }

  // A file's entries in order are a run in order.
  lemma RunSorted(es: seq<Pair>)
    requires Parsed(es) && Increasing(es, Order())
    ensures Sorted(RunOf(es))
  {
    hide InternalLess, ParseInternalKey, Less;
    var r := RunOf(es);
    forall i, j | 0 <= i < j < |r|
      ensures Less(r[i].key, r[j].key)
    {
      assert Order()(es[i].key, es[j].key);
      KeysAgree(es[i].key, es[j].key);
    }
  }

  // And a search in them is a search in the run.
  lemma {:induction false} BoundsAgree(es: seq<Pair>, k: Data)
    requires Parsed(es) && ParseInternalKey(k).Some?
    ensures FirstAtOrAfter(es, Order(), k) == LowerBound(RunOf(es), ParseInternalKey(k).value)
    decreases |es|
  {
    hide InternalLess, ParseInternalKey, Less;
    if es != [] {
      KeysAgree(es[0].key, k);
      BoundsAgree(es[1..], k);
      assert RunOf(es)[1..] == RunOf(es[1..]);
    }
  }

  // ---- One lookup in one file. ----

  // The bytes of a lookup key: user key, snapshot, kValueTypeForSeek.
  function LookupBytes(user: Data, snap: Sequence): Data {
    user + Fixed64(snap * 256 + 1)
  }

  lemma LookupParses(user: Data, snap: Sequence)
    ensures UserOf(LookupBytes(user, snap)) == user
    ensures ParseInternalKey(LookupBytes(user, snap)) == Some(Keys.LookupKey(Rank(user), snap))
  {
    hide Fixed64, ReadFixed64, Rank;
    var tag := Fixed64(snap * 256 + 1);
    UserAppended(user, tag);
    assert LookupBytes(user, snap)[|user|..] == tag + [];
    ReadsFixed64(snap * 256 + 1, []);
  }

  // The file's bytes answer as the run they stand for: its newest entry of the key at or below the
  // snapshot, or none.
  method LookUp(table: Table, user: Data, snap: Sequence) returns (r: Option<Entry>)
    requires table.filter != null ==> table.filter.Bounded()
    ensures table.Sound() && Parsed(table.t.es) ==> r == SearchRun(RunOf(table.t.es), Rank(user), snap)
  {
    hide Rank, Table.Sound, LookupBytes, ParseInternalKey, FirstAtOrAfter, LowerBound, UserOf;
    var k := LookupBytes(user, snap);
    LookupParses(user, snap);
    ghost var sound := table.Sound() && Parsed(table.t.es);
    if sound {
      BoundsAgree(table.t.es, k);
      Matches(table.t.es, user, FirstAtOrAfter(table.t.es, Order(), k));
    }
    var found := table.InternalGet(k);
    // SaveValue: a key that does not parse is a corruption, another user key is no answer.
    if found.None? || ParseInternalKey(found.value.key).None? || UserOf(found.value.key) != user {
      return None;
    }
    return Some(EntryOf(found.value));
  }

  lemma Matches(es: seq<Pair>, user: Data, m: nat)
    requires Parsed(es)
    ensures m < |es| ==> (RunOf(es)[m].key.user == Rank(user) <==> UserOf(es[m].key) == user)
  {
    hide Rank, UserOf, TagOf;
    if m < |es| {
      RankOrders(UserOf(es[m].key), user);
    }
  }

  // The file of a version that a table's bytes stand for, with the key range its builder noted.
  function FileOf(number: nat, size: nat, es: seq<Pair>): File
    requires es != [] && Parsed(es)
  {
    var run := RunOf(es);
    File(number, size, run[0].key, run[|run| - 1].key, run)
  }

  // A table that opens on what was built is an intact file of the store, and a search in the file
  // is a lookup in the bytes.
  method LookUpFile(table: Table, number: nat, size: nat, user: Data, snap: Sequence) returns (r: Option<Entry>)
    requires table.filter != null ==> table.filter.Bounded()
    ensures table.Sound() && Parsed(table.t.es) && table.t.es != [] ==>
      var f := FileOf(number, size, table.t.es);
      Intact(f) && r == SearchRun(f.run, Rank(user), snap)
  {
    hide Table.Sound, Sorted, Increasing, RunOf, ParseInternalKey, Rank;
    r := LookUp(table, user, snap);
    if table.Sound() && Parsed(table.t.es) && table.t.es != [] {
      BuiltInOrder(table);
      RunSorted(table.t.es);
    }
  }

  lemma BuiltInOrder(table: Table)
    requires table.Sound()
    ensures Increasing(table.t.es, Order())
  {
    hide AllWritten, FilterLaid, Footed, FilterOf, Separates, Slices, Written;
  }
}
