// Write batches as bytes (db/write_batch.cc): a header, then one tagged record per operation.

module WriteBatches {
  import opened Sequences
  import opened Bits
  import opened Coding
  import opened History

  datatype Op = Put(key: Data, value: Data) | Delete(key: Data)

  // A batch with its first sequence number: one record of the log.
  datatype Record = Record(first: nat, ops: seq<Op>)

  // An operation with the sequence number it was given.
  datatype Stamped = Stamped(seqno: nat, op: Op)

  function Numbered(first: nat, ops: seq<Op>): (r: seq<Stamped>)
    ensures |r| == |ops|
  {
    seq(|ops|, i requires 0 <= i < |ops| => Stamped(first + i, ops[i]))
  }

  // What a log's records put into a memtable.
  function Replay(log: seq<Record>): seq<Stamped> {
    if log == [] then [] else
      var r := log[|log| - 1];
      Replay(log[..|log| - 1]) + Numbered(r.first, r.ops)
  }

  const HEADER: nat := 12

  // Lengths and counts have 32 bits in a batch; what they do not fit is written all the same.
  predicate Encodable(op: Op) {
    |op.key| < TWO_32 && (op.Put? ==> |op.value| < TWO_32)
  }

  predicate AllEncodable(ops: seq<Op>) {
    |ops| < TWO_32 && forall op | op in ops :: Encodable(op)
  }

  function EncodeOp(op: Op): (r: Data)
    ensures r != []
  {
    match op
    case Put(key, value) => [ByteOf(1)] + Prefixed(key) + Prefixed(value)
    case Delete(key) => [ByteOf(0)] + Prefixed(key)
  }

  function EncodeOps(ops: seq<Op>): Data {
    if ops == [] then [] else EncodeOps(ops[..|ops| - 1]) + EncodeOp(ops[|ops| - 1])
  }

  function Encode(r: Record): (d: Data)
    ensures |d| >= HEADER
  {
    Fixed64(r.first) + Fixed32(|r.ops|) + EncodeOps(r.ops)
  }

  // ---- Reading. ----

  // One operation from the front; None is a corruption.
  function ParseOp(s: Data): (r: Option<(Op, Data)>)
    requires s != []
    ensures r.Some? ==> |r.value.1| < |s|
  {
    var tag := NumberOf(s[0]);
    if tag == 1 then
      match ReadPrefixed(s[1..])
      case None => None
      case Some(k) =>
        match ReadPrefixed(k.1)
        case None => None
        case Some(v) => Some((Put(k.0, v.0), v.1))
    else if tag == 0 then
      match ReadPrefixed(s[1..])
      case None => None
      case Some(k) => Some((Delete(k.0), k.1))
    else None
  }

  // Operations up to the first corruption, and whether there was none.
  function ParseOps(s: Data): (seq<Op>, bool)
    decreases |s|
  {
    if s == [] then ([], true)
    else match ParseOp(s)
         case None => ([], false)
         case Some(p) => var rest := ParseOps(p.1); ([p.0] + rest.0, rest.1)
  }

  lemma ParsesOp(op: Op, rest: Data)
    requires Encodable(op)
    ensures ParseOp(EncodeOp(op) + rest) == Some((op, rest))
  {
    hide ReadPrefixed, Prefixed, ByteOf, NumberOf;
    var s := EncodeOp(op) + rest;
    ByteRoundTrip(0);
    ByteRoundTrip(1);
    match op
    case Put(key, value) =>
      assert s[1..] == Prefixed(key) + (Prefixed(value) + rest);
      ReadsPrefixed(key, Prefixed(value) + rest);
      ReadsPrefixed(value, rest);
    case Delete(key) =>
      assert s[1..] == Prefixed(key) + rest;
      ReadsPrefixed(key, rest);
  }

  lemma {:induction false} ParsesOps(ops: seq<Op>, rest: Data)
    requires forall op | op in ops :: Encodable(op)
    ensures var p := ParseOps(rest); ParseOps(EncodeOps(ops) + rest) == (ops + p.0, p.1)
    decreases |ops|
  {
    hide EncodeOp, ParseOp;
    var p := ParseOps(rest);
    if ops == [] {
      assert EncodeOps(ops) + rest == rest;
      assert ops + p.0 == p.0;
    } else {
      var n := |ops| - 1;
      var after := EncodeOp(ops[n]) + rest;
      assert EncodeOps(ops) + rest == EncodeOps(ops[..n]) + after;
      ParsesOps(ops[..n], after);
      ParsesOp(ops[n], rest);
      assert ops == ops[..n] + [ops[n]];
      assert ops + p.0 == ops[..n] + ([ops[n]] + p.0);
    }
  }

  // A batch reads back as it was written.
  lemma BatchRoundTrip(r: Record)
    requires AllEncodable(r.ops) && r.first < TWO_32 * TWO_32
    ensures ReadFixed64(Encode(r)) == r.first && ReadFixed32(Encode(r)[8..]) == |r.ops|
    ensures ParseOps(Encode(r)[HEADER..]) == (r.ops, true)
  {
    hide Fixed64, Fixed32, ReadFixed64, ReadFixed32, EncodeOps, ParseOps;
    var a, b, c := Fixed64(r.first), Fixed32(|r.ops|), EncodeOps(r.ops);
    assert a + b + c == a + (b + c);
    assert (a + b + c)[8..] == b + c;
    assert (a + b + c)[HEADER..] == c;
    ReadsFixed64(r.first, b + c);
    ReadsFixed32(|r.ops|, c);
    ParsesOps(r.ops, []);
    assert c + [] == c;
    NothingParses();
    assert r.ops + [] == r.ops;
  }

  lemma NothingParses()
    ensures ParseOps([]) == ([], true)
  {
  }

  lemma Slices(first: nat, n: nat, body: Data)
    ensures var rep := Fixed64(first) + Fixed32(n) + body;
      && |rep| >= HEADER && rep[..8] == Fixed64(first) && rep[8..] == Fixed32(n) + body && rep[HEADER..] == body
      && ReadFixed32(rep[8..]) == n % 0x1_0000_0000
  {
    hide Fixed64, ReadFixed32, ToBits, EncodeFixed32;
    Associates(Fixed64(first), Fixed32(n), body);
    WordWraps(n, 0);
    ReadsFixed32(n % 0x1_0000_0000, body);
  }

  // A count goes on counting in 32 bits.
  lemma CountsOn(n: nat, m: nat)
    ensures Fixed32(n % 0x1_0000_0000 + m % 0x1_0000_0000) == Fixed32(n + m)
  {
    hide ToBits, EncodeFixed32;
    WordWraps(n, m % 0x1_0000_0000);
    WordWraps(m, n);
  }

  lemma EncodeOpsAppend(ops: seq<Op>, op: Op)
    ensures EncodeOps(ops + [op]) == EncodeOps(ops) + EncodeOp(op)
  {
    hide EncodeOp;
    assert (ops + [op])[..|ops|] == ops;
  }

  // ---- The batch. ----

  class WriteBatch {
    var rep: Data
    ghost var first: nat
    ghost var ops: seq<Op>

    ghost predicate Valid()
      reads this
    {
      rep == Encode(Record(first, ops))
    }

    constructor ()
      ensures Valid() && ops == []
    {
      rep := Fixed64(0) + Fixed32(0);
      first, ops := 0, [];
    }

    method SetCount(n: nat)
      requires |rep| >= HEADER
      modifies `rep
      ensures rep == old(rep)[..8] + Fixed32(n) + old(rep)[HEADER..]
    {
      rep := rep[..8] + Fixed32(n) + rep[HEADER..];
    }

    function Count(): nat
      requires |rep| >= HEADER
      reads `rep
    {
      ReadFixed32(rep[8..])
    }

    method SetSequence(n: nat)
      requires Valid()
      modifies `rep, `first
      ensures Valid() && first == n
    {
      hide EncodeOps, Fixed32, Fixed64;
      Slices(first, |ops|, EncodeOps(ops));
      rep := Fixed64(n) + rep[8..];
      first := n;
      Associates(Fixed64(n), Fixed32(|ops|), EncodeOps(ops));
    }

    method Put(key: Data, value: Data)
      requires Valid()
      modifies this
      ensures Valid() && first == old(first) && ops == old(ops) + [Op.Put(key, value)]
    {
      hide EncodeOps, Prefixed, WriteBatch.Valid;
      var record := [ByteOf(1)];
      record := record + Prefixed(key);
      record := record + Prefixed(value);
      AppendRecord(record, Op.Put(key, value));
    }

    // One more record, and the count.
    method AppendRecord(record: Data, ghost op: Op)
      requires Valid() && record == EncodeOp(op)
      modifies this
      ensures Valid() && first == old(first) && ops == old(ops) + [op]
    {
      hide EncodeOps, EncodeOp, Fixed32, Fixed64, ReadFixed32, Prefixed;
      Slices(first, |ops|, EncodeOps(ops));
      EncodeOpsAppend(ops, op);
      CountsOn(|ops|, 1);
      SetCount(Count() + 1);
      Associates(Fixed64(first) + Fixed32(|ops| + 1), EncodeOps(ops), record);
      rep := rep + record;
      ops := ops + [op];
    }

    method Delete(key: Data)
      requires Valid()
      modifies this
      ensures Valid() && first == old(first) && ops == old(ops) + [Op.Delete(key)]
    {
      hide EncodeOps, Prefixed, WriteBatch.Valid;
      var record := [ByteOf(0)];
      record := record + Prefixed(key);
      AppendRecord(record, Op.Delete(key));
    }

    // The source's operations after this batch's own.
    method Append(source: WriteBatch)
      requires Valid() && source.Valid()
      modifies this
      ensures Valid() && first == old(first) && ops == old(ops) + old(source.ops)
    {
      hide EncodeOps, Fixed32, Fixed64, ReadFixed32, Encodable;
      Slices(first, |ops|, EncodeOps(ops));
      Slices(source.first, |source.ops|, EncodeOps(source.ops));
      EncodeOpsConcat(ops, source.ops);
      var tail := source.rep[HEADER..];
      CountsOn(|ops|, |source.ops|);
      SetCount(Count() + source.Count());
      Associates(Fixed64(first) + Fixed32(|ops| + |source.ops|), EncodeOps(ops), EncodeOps(source.ops));
      rep := rep + tail;
      ops := ops + source.ops;
    }

    lemma Parts()
      requires Valid()
      ensures |rep| >= HEADER && Count() == |ops| % 0x1_0000_0000
      ensures (forall op | op in ops :: Encodable(op)) ==> ParseOps(rep[HEADER..]) == (ops, true)
    {
      hide Fixed64, Fixed32, ReadFixed32, EncodeOps, ParseOps;
      Slices(first, |ops|, EncodeOps(ops));
      if forall op | op in ops :: Encodable(op) {
        ParsesOps(ops, []);
        assert EncodeOps(ops) + [] == EncodeOps(ops);
        NothingParses();
        assert ops + [] == ops;
      }
    }

    // The handler is called once per operation, in order, up to a corruption.
    method Iterate() returns (handled: seq<Op>, ok: bool)
      ensures |rep| < HEADER ==> handled == [] && !ok
      ensures |rep| >= HEADER ==> handled == ParseOps(rep[HEADER..]).0
      ensures |rep| >= HEADER ==> ok == (ParseOps(rep[HEADER..]).1 && |handled| == Count())
      ensures Valid() && (forall op | op in ops :: Encodable(op)) ==> handled == ops && (ok <==> |ops| < TWO_32)
    {
      hide ParseOp, ReadFixed32, Valid;
      if Valid() {
        Parts();
      }
      handled := [];
      if |rep| < HEADER {
        return handled, false;
      }
      var input := rep[HEADER..];
      while input != []
        invariant ParseOps(rep[HEADER..]).0 == handled + ParseOps(input).0
        invariant ParseOps(rep[HEADER..]).1 == ParseOps(input).1
        decreases |input|
      {
        match ParseOp(input)
        case None =>
          return handled, false;
        case Some(p) =>
          Associates(handled, [p.0], ParseOps(p.1).0);
          handled := handled + [p.0];
          input := p.1;
      }
      ok := |handled| == Count();
    }
  }

  lemma {:induction false} EncodeOpsConcat(a: seq<Op>, b: seq<Op>)
    ensures EncodeOps(a + b) == EncodeOps(a) + EncodeOps(b)
    decreases |b|
  {
    hide Encodable, EncodeOp;
    if b == [] {
      assert a + b == a;
    } else {
      var n := |b| - 1;
      EncodeOpsConcat(a, b[..n]);
      assert (a + b)[..|a + b| - 1] == a + b[..n];
      Associates(EncodeOps(a), EncodeOps(b[..n]), EncodeOp(b[n]));
    }
  }
}
