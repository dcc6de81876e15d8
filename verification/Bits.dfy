// Machine words and bytes as bits, and fixed-width little-endian numbers (util/coding.h).

module Bits {

  // A 32-bit word and eight bits, least significant bit first.
  type Word = w: seq<bool> | |w| == 32 witness Blank(32)
  type Bits8 = b: seq<bool> | |b| == 8 witness Blank(8)

  // A byte of a file or buffer, and a string of them.
  datatype Octet = Octet(bits: Bits8)
  type Data = seq<Octet>

  function Blank(n: nat): (r: seq<bool>)
    ensures |r| == n && forall i | 0 <= i < n :: !r[i]
  {
    seq(n, i => false)
  }

  function Pow2(n: nat): (r: nat)
    ensures r >= 1
  {
    if n == 0 then 1 else 2 * Pow2(n - 1)
  }

  function ToNat(bits: seq<bool>): (r: nat)
    ensures r < Pow2(|bits|)
  {
    if bits == [] then 0 else (if bits[0] then 1 else 0) + 2 * ToNat(bits[1..])
  }

  // The low n bits of v.
  function ToBits(v: nat, n: nat): (r: seq<bool>)
    ensures |r| == n
    decreases n
  {
    if n == 0 then [] else [v % 2 == 1] + ToBits(v / 2, n - 1)
  }

  lemma {:induction false} ToNatOfBits(v: nat, n: nat)
    requires v < Pow2(n)
    ensures ToNat(ToBits(v, n)) == v
    decreases n
  {
    if n > 0 {
      ToNatOfBits(v / 2, n - 1);
      assert ToBits(v, n)[1..] == ToBits(v / 2, n - 1);
    }
  }

  lemma {:induction false} ToBitsOfNat(bits: seq<bool>)
    ensures ToBits(ToNat(bits), |bits|) == bits
  {
    if bits != [] {
      ToBitsOfNat(bits[1..]);
      assert ToNat(bits) / 2 == ToNat(bits[1..]);
      assert bits == [bits[0]] + bits[1..];
    }
  }

  // Only the low bits count.
  lemma {:induction false} ToBitsWraps(v: nat, k: nat, n: nat)
    ensures ToBits(v + k * Pow2(n), n) == ToBits(v, n)
    decreases n
  {
    if n > 0 {
      var p := k * Pow2(n - 1);
      assert k * Pow2(n) == 2 * p;
      assert (v + 2 * p) / 2 == v / 2 + p && (v + 2 * p) % 2 == v % 2;
      ToBitsWraps(v / 2, k, n - 1);
    }
  }

  lemma WordWraps(v: nat, n: nat)
    ensures ToBits(v % 0x1_0000_0000 + n, 32) == ToBits(v + n, 32)
  {
    hide ToBits, Pow2;
    Pow2Word();
    ToBitsWraps(v % 0x1_0000_0000 + n, v / 0x1_0000_0000, 32);
    assert v % 0x1_0000_0000 + n + v / 0x1_0000_0000 * 0x1_0000_0000 == v + n;
  }

  lemma Pow2Word()
    ensures Pow2(32) == 0x1_0000_0000 && Pow2(16) == 0x1_0000 && Pow2(8) == 256
  {
    assert Pow2(4) == 16;
    assert Pow2(8) == 256;
    assert Pow2(12) == 0x1000;
    assert Pow2(16) == 0x1_0000;
    assert Pow2(20) == 0x10_0000;
    assert Pow2(24) == 0x100_0000;
    assert Pow2(28) == 0x1000_0000;
  }

  lemma WordRange(w: Word)
    ensures ToNat(w) < 0x1_0000_0000
  {
    Pow2Word();
  }

  lemma WordRoundTrip(v: nat)
    requires v < 0x1_0000_0000
    ensures ToNat(ToBits(v, 32)) == v
  {
    Pow2Word();
    ToNatOfBits(v, 32);
  }

  // The low byte of a number.
  function ByteOf(v: nat): Octet {
    Octet(ToBits(v, 8))
  }

  function NumberOf(b: Octet): (r: nat)
    ensures r < 256
  {
    Pow2Word();
    ToNat(b.bits)
  }

  lemma ByteRoundTrip(v: nat)
    requires v < 256
    ensures NumberOf(ByteOf(v)) == v
  {
    Pow2Word();
    ToNatOfBits(v, 8);
  }

  // ---- Fixed-width numbers in a byte string, low byte first. ----

  function EncodeFixed32(w: Word): (r: seq<Octet>)
    ensures |r| == 4
  {
    [Octet(w[..8]), Octet(w[8..16]), Octet(w[16..24]), Octet(w[24..])]
  }

  function DecodeFixed32(s: seq<Octet>): Word
    requires |s| >= 4
  {
    var bits: seq<bool> := s[0].bits;
    bits + s[1].bits + s[2].bits + s[3].bits
  }

  lemma Fixed32RoundTrip(w: Word, rest: seq<Octet>)
    ensures DecodeFixed32(EncodeFixed32(w) + rest) == w
  {
  }
}
