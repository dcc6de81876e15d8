// Varints, fixed-width numbers and length-prefixed strings (util/coding.cc, util/coding.h).

module Coding {
  import opened Sequences
  import opened Bits
  import opened History

  const TWO_32: nat := 0x1_0000_0000
  const TWO_64: nat := 0x1_0000_0000_0000_0000

  // ---- Fixed width. ----

  function Fixed32(v: nat): (r: Data)
    ensures |r| == 4
  {
    EncodeFixed32(ToBits(v, 32))
  }

  function ReadFixed32(s: Data): (r: nat)
    requires |s| >= 4
  {
    ToNat(DecodeFixed32(s))
  }

  function Fixed64(v: nat): (r: Data)
    ensures |r| == 8
  {
    Fixed32(v % 0x1_0000_0000) + Fixed32(v / 0x1_0000_0000)
  }

  function ReadFixed64(s: Data): (r: nat)
    requires |s| >= 8
  {
    ReadFixed32(s) + 0x1_0000_0000 * ReadFixed32(s[4..])
  }

  lemma ReadsFixed32(v: nat, rest: Data)
    requires v < TWO_32
    ensures ReadFixed32(Fixed32(v) + rest) == v
  {
    hide ToBits, ToNat, EncodeFixed32, DecodeFixed32;
    WordRoundTrip(v);
    Fixed32RoundTrip(ToBits(v, 32), rest);
  }

  lemma ReadsFixed64(v: nat, rest: Data)
    requires v < TWO_32 * TWO_32
    ensures ReadFixed64(Fixed64(v) + rest) == v
  {
    hide Fixed32, ReadFixed32;
    var lo, hi := Fixed32(v % 0x1_0000_0000), Fixed32(v / 0x1_0000_0000);
    ReadsFixed32(v % 0x1_0000_0000, hi + rest);
    ReadsFixed32(v / 0x1_0000_0000, rest);
    assert (lo + hi) + rest == lo + (hi + rest);
    assert ((lo + hi) + rest)[4..] == hi + rest;
  }

  // ---- Varints. ----

  // EncodeVarint64.
  function Varint(v: nat): (r: Data)
    ensures r != []
  {
    if v < 128 then [ByteOf(v)] else [ByteOf(v % 128 + 128)] + Varint(v / 128)
  }

  // EncodeVarint32, branch by branch.
  function EncodeVarint32(v: nat): Data
    requires v < TWO_32
  {
    if v < 0x80 then [ByteOf(v)]
    else if v < 0x4000 then [ByteOf(v % 128 + 128), ByteOf(v / 0x80)]
    else if v < 0x20_0000 then [ByteOf(v % 128 + 128), ByteOf(v / 0x80 % 128 + 128), ByteOf(v / 0x4000)]
    else if v < 0x1000_0000 then
      [ByteOf(v % 128 + 128), ByteOf(v / 0x80 % 128 + 128), ByteOf(v / 0x4000 % 128 + 128), ByteOf(v / 0x20_0000)]
    else
      [ByteOf(v % 128 + 128), ByteOf(v / 0x80 % 128 + 128), ByteOf(v / 0x4000 % 128 + 128),
       ByteOf(v / 0x20_0000 % 128 + 128), ByteOf(v / 0x1000_0000)]
  }

  // At most n groups of seven bits, low group first: the number and what follows it.
  function ParseVarint(s: Data, n: nat): (r: Option<(nat, Data)>)
    ensures r.Some? ==> |r.value.1| < |s|
    decreases n
  {
    if n == 0 || s == [] then None
    else if NumberOf(s[0]) < 128 then Some((NumberOf(s[0]), s[1..]))
    else match ParseVarint(s[1..], n - 1)
         case None => None
         case Some(p) => Some((NumberOf(s[0]) - 128 + 128 * p.0, p.1))
  }

  function ReadVarint32(s: Data): (r: Option<(nat, Data)>)
    ensures r.Some? ==> |r.value.1| < |s|
  {
    match ParseVarint(s, 5)
    case None => None
    case Some(p) => Some((p.0 % 0x1_0000_0000, p.1))
  }

  function Pow128(n: nat): (r: nat)
    ensures r > 0
  {
    if n == 0 then 1 else 128 * Pow128(n - 1)
  }

  lemma {:induction false} ParsesVarint(v: nat, n: nat, rest: Data)
    requires n > 0 && v < Pow128(n)
    ensures ParseVarint(Varint(v) + rest, n) == Some((v, rest))
    decreases n
  {
    hide ByteOf, NumberOf;
    var s := Varint(v) + rest;
    if v < 128 {
      ByteRoundTrip(v);
      assert s[1..] == rest;
    } else {
      ByteRoundTrip(v % 128 + 128);
      ParsesVarint(v / 128, n - 1, rest);
      assert s[1..] == Varint(v / 128) + rest;
    }
  }

  lemma VarintBranches(v: nat)
    requires v < TWO_32
    ensures EncodeVarint32(v) == Varint(v)
  {
    hide ByteOf;
    assert v / 128 / 128 == v / 0x4000 && v / 0x4000 / 128 == v / 0x20_0000 && v / 0x20_0000 / 128 == v / 0x1000_0000;
    if v >= 0x80 {
      assert Varint(v) == [ByteOf(v % 128 + 128)] + Varint(v / 128);
      if v >= 0x4000 {
        assert Varint(v / 128) == [ByteOf(v / 128 % 128 + 128)] + Varint(v / 0x4000);
        if v >= 0x20_0000 {
          assert Varint(v / 0x4000) == [ByteOf(v / 0x4000 % 128 + 128)] + Varint(v / 0x20_0000);
          if v >= 0x1000_0000 {
            assert Varint(v / 0x20_0000) == [ByteOf(v / 0x20_0000 % 128 + 128)] + Varint(v / 0x1000_0000);
          }
        }
      }
    }
  }

  // Every 32-bit number reads back, whatever follows it.
  lemma ReadsVarint32(v: nat, rest: Data)
    requires v < TWO_32
    ensures ReadVarint32(EncodeVarint32(v) + rest) == Some((v, rest))
  {
    hide EncodeVarint32, Varint, ParseVarint;
    VarintBranches(v);
    assert Pow128(3) == 0x20_0000;
    assert Pow128(5) == 0x8_0000_0000;
    ParsesVarint(v, 5, rest);
  }

  function ReadVarint64(s: Data): (r: Option<(nat, Data)>)
    ensures r.Some? ==> |r.value.1| < |s|
  {
    match ParseVarint(s, 10)
    case None => None
    case Some(p) => Some((p.0 % 0x1_0000_0000_0000_0000, p.1))
  }

  lemma ReadsVarint64(v: nat, rest: Data)
    requires v < TWO_64
    ensures ReadVarint64(Varint(v) + rest) == Some((v, rest))
  {
    hide Varint, ParseVarint;
    assert Pow128(5) == 0x8_0000_0000;
    assert Pow128(10) == 0x40_0000_0000_0000_0000;
    ParsesVarint(v, 10, rest);
  }

  lemma {:induction false} VarintShort(v: nat, n: nat)
    requires n > 0 && v < Pow128(n)
    ensures |Varint(v)| <= n
    decreases n
  {
    if v >= 128 {
      VarintShort(v / 128, n - 1);
    }
  }

  method EncodeVarint64(v: nat) returns (dst: Data)
    ensures dst == Varint(v)
  {
    hide ByteOf;
    var w := v;
    dst := [];
    while w >= 128
      invariant dst + Varint(w) == Varint(v)
    {
      Associates(dst, [ByteOf(w % 128 + 128)], Varint(w / 128));
      dst := dst + [ByteOf(w % 128 + 128)];
      w := w / 128;
    }
    dst := dst + [ByteOf(w)];
  }

  // GetVarint32Ptr and its fallback loop.
  method GetVarint32(input: Data) returns (r: Option<(nat, Data)>)
    ensures r == ReadVarint32(input)
  {
    hide NumberOf;
    if input != [] && NumberOf(input[0]) < 128 {
      return Some((NumberOf(input[0]), input[1..]));
    }
    r := GetVarint(input, 5);
    if r.Some? {
      r := Some((r.value.0 % 0x1_0000_0000, r.value.1));
    }
  }

  method GetVarint64(input: Data) returns (r: Option<(nat, Data)>)
    ensures r == ReadVarint64(input)
  {
    r := GetVarint(input, 10);
    if r.Some? {
      r := Some((r.value.0 % 0x1_0000_0000_0000_0000, r.value.1));
    }
  }

  // The loop of both, before the result is cut to the width of its word.
  method GetVarint(input: Data, groups: nat) returns (r: Option<(nat, Data)>)
    ensures r == ParseVarint(input, groups)
  {
    hide NumberOf, ParseVarint;
    var result: nat, scale: nat, p, k := 0, 1, input, 0;
    ScaledOnce(ParseVarint(input, groups));
    while k < groups && p != []
      invariant k <= groups
      invariant ParseVarint(input, groups) == Scaled(result, scale, ParseVarint(p, groups - k))
    {
      ScaledStep(result, scale, p, groups - k);
      var byte := NumberOf(p[0]);
      if byte < 128 {
        return Some((result + scale * byte, p[1..]));
      }
      // seven more bits, into a part that is still zero
      result := result + scale * (byte - 128);
      scale := 128 * scale;
      p, k := p[1..], k + 1;
    }
    NothingParsed(p, groups - k);
    return None;
  }

  lemma NothingParsed(s: Data, n: nat)
    ensures n == 0 || s == [] ==> ParseVarint(s, n) == None
  {
  }

  lemma ScaledOnce(p: Option<(nat, Data)>)
    ensures p.Some? ==> Scaled(0, 1, p) == Some((p.value.0 as int, p.value.1))
    ensures p.None? ==> Scaled(0, 1, p) == None
  {
  }

  lemma ScaledStep(result: nat, scale: nat, p: Data, n: nat)
    requires n > 0 && p != []
    ensures var byte := NumberOf(p[0]);
      Scaled(result, scale, ParseVarint(p, n)) ==
      if byte < 128 then Some((result + scale * byte, p[1..]))
      else Scaled(result + scale * (byte - 128), 128 * scale, ParseVarint(p[1..], n - 1))
  {
    hide NumberOf;
    var byte := NumberOf(p[0]);
    var rest := ParseVarint(p[1..], n - 1);
    if byte >= 128 && rest.Some? {
      var v := rest.value.0;
      assert scale * (byte - 128 + 128 * v) == scale * (byte - 128) + (128 * scale) * v;
    }
  }

  ghost function Scaled(result: int, scale: nat, p: Option<(nat, Data)>): Option<(int, Data)> {
    if p.None? then None else Some((result + scale * p.value.0, p.value.1))
  }

  // ---- Length-prefixed strings. ----

  // PutLengthPrefixedSlice, whose length has 32 bits.
  function Prefixed(value: Data): (r: Data)
    ensures r != []
  {
    VarintBranches(|value| % 0x1_0000_0000);
    EncodeVarint32(|value| % 0x1_0000_0000) + value
  }

  function ReadPrefixed(s: Data): (r: Option<(Data, Data)>)
    ensures r.Some? ==> |r.value.1| < |s|
  {
    match ReadVarint32(s)
    case None => None
    case Some(p) => if p.0 <= |p.1| then Some((p.1[..p.0], p.1[p.0..])) else None
  }

  lemma ReadsPrefixed(value: Data, rest: Data)
    requires |value| < TWO_32
    ensures ReadPrefixed(Prefixed(value) + rest) == Some((value, rest))
  {
    hide EncodeVarint32, ReadVarint32;
    ReadsVarint32(|value|, value + rest);
    assert Prefixed(value) + rest == EncodeVarint32(|value|) + (value + rest);
  }

  // ---- Arrays of fixed-width numbers. ----

  function AllFixed(restarts: seq<nat>): (r: Data)
    ensures |r| == 4 * |restarts|
  {
    if restarts == [] then [] else AllFixed(restarts[..|restarts| - 1]) + Fixed32(restarts[|restarts| - 1])
  }

  lemma NoneFixed(restarts: seq<nat>)
    ensures AllFixed(restarts[..0]) == []
  {
  }

  lemma AllFixedStep(restarts: seq<nat>, i: nat)
    requires i < |restarts|
    ensures AllFixed(restarts[..i + 1]) == AllFixed(restarts[..i]) + Fixed32(restarts[i])
  {
    assert restarts[..i + 1][..i] == restarts[..i];
  }

  lemma {:induction false} AllFixedReads(rs: seq<nat>, j: nat, rest: Data)
    requires j < |rs| && rs[j] < TWO_32
    ensures ReadFixed32((AllFixed(rs) + rest)[4 * j..]) == rs[j]
    decreases |rs|
  {
    hide Fixed32, ReadFixed32;
    var n := |rs| - 1;
    var tail := Fixed32(rs[n]) + rest;
    assert AllFixed(rs) + rest == AllFixed(rs[..n]) + tail;
    if j < n {
      AllFixedReads(rs[..n], j, tail);
    } else {
      assert (AllFixed(rs[..n]) + tail)[4 * n..] == tail;
      ReadsFixed32(rs[n], rest);
    }
  }
}
