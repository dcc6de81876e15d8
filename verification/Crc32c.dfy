// CRC-32C (RFC 3720, section 12.1): long division bit by bit, the four-lane form that
// reads sixteen bytes per step (util/crc32c.cc), and masking (util/crc32c.h).

module Crc32c {
  import opened Bits

  // The CRC-32C polynomial 0x82f63b78, bits reversed.
  function Polynomial(): Word {
    [
      false, false, false, true, true, true, true, false, true, true, false, true, true, true, false, false,
      false, true, true, false, true, true, true, true, false, true, false, false, false, false, false, true]
  }

  function Zero(): Word {
    Blank(32)
  }

  // kCRC32Xor.
  function Ones(): Word {
    seq(32, i => true)
  }

  function Xor(a: Word, b: Word): (r: Word)
    ensures forall i | 0 <= i < 32 :: r[i] == (a[i] != b[i])
  {
    seq(32, i requires 0 <= i < 32 => a[i] != b[i])
  }

  function ShiftRight(l: Word, n: nat): Word
    requires n <= 32
  {
    l[n..] + Blank(n)
  }

  // The low byte of the register, as a register.
  function LowByte(l: Word): Bits8 {
    l[..8]
  }

  function Widen(b: Bits8): Word {
    b + Blank(24)
  }

  // ---- The reference: long division. ----

  function ShiftBit(l: Word): Word {
    Xor(ShiftRight(l, 1), if l[0] then Polynomial() else Zero())
  }

  // n zero bits through the register.
  function Shift(l: Word, n: nat): Word
    decreases n
  {
    if n == 0 then l else Shift(ShiftBit(l), n - 1)
  }

  function Step(l: Word, b: Bits8): Word {
    Shift(Xor(l, Widen(b)), 8)
  }

  function Fold(l: Word, data: seq<Octet>): Word
    decreases |data|
  {
    if data == [] then l else Fold(Step(l, data[0].bits), data[1..])
  }

  // The CRC of some string A followed by data, from the CRC of A.
  function Extend(crc: Word, data: seq<Octet>): Word {
    Xor(Fold(Xor(crc, Ones()), data), Ones())
  }

  function Value(data: seq<Octet>): Word {
    Extend(Zero(), data)
  }

  lemma {:induction false} FoldConcat(l: Word, a: seq<Octet>, b: seq<Octet>)
    ensures Fold(l, a + b) == Fold(Fold(l, a), b)
    decreases |a|
  {
    hide Step;
    if a == [] {
      assert a + b == b;
    } else {
      assert (a + b)[1..] == a[1..] + b;
      FoldConcat(Step(l, a[0].bits), a[1..], b);
    }
  }

  lemma XorTwice(x: Word, y: Word)
    ensures Xor(Xor(x, y), y) == x
  {
  }

  // The CRC of a stream may be kept up piece by piece.
  lemma ExtendComposes(crc: Word, a: seq<Octet>, b: seq<Octet>)
    ensures Extend(Extend(crc, a), b) == Extend(crc, a + b)
  {
    hide Fold, Xor;
    FoldConcat(Xor(crc, Ones()), a, b);
    XorTwice(Fold(Xor(crc, Ones()), a), Ones());
  }

  // ---- Linearity over exclusive or. ----

  lemma ShiftBitLinear(a: Word, b: Word)
    ensures ShiftBit(Xor(a, b)) == Xor(ShiftBit(a), ShiftBit(b))
  {
    hide Polynomial;
    var l, r := ShiftBit(Xor(a, b)), Xor(ShiftBit(a), ShiftBit(b));
    forall i | 0 <= i < 32
      ensures l[i] == r[i]
    {
    }
  }

  lemma {:induction false} ShiftLinear(a: Word, b: Word, n: nat)
    ensures Shift(Xor(a, b), n) == Xor(Shift(a, n), Shift(b, n))
    decreases n
  {
    hide Xor, ShiftBit;
    if n > 0 {
      ShiftBitLinear(a, b);
      ShiftLinear(ShiftBit(a), ShiftBit(b), n - 1);
    }
  }

  lemma {:induction false} ShiftAdd(l: Word, m: nat, n: nat)
    ensures Shift(Shift(l, m), n) == Shift(l, m + n)
    decreases m
  {
    hide ShiftBit;
    if m > 0 {
      ShiftAdd(ShiftBit(l), m - 1, n);
    }
  }

  // Zero bits below the register fall out without touching the rest.
  lemma {:induction false} ShiftOut(l: Word, n: nat)
    requires n <= 32 && forall i | 0 <= i < n :: !l[i]
    ensures Shift(l, n) == ShiftRight(l, n)
    decreases n
  {
    hide Polynomial, ShiftBit, ShiftRight;
    if n > 0 {
      OneBitOut(l);
      ShiftOut(ShiftRight(l, 1), n - 1);
      RightTwice(l, n);
    } else {
      RightTwice(l, 0);
    }
  }

  // A bit that is not set only goes.
  lemma OneBitOut(l: Word)
    requires !l[0]
    ensures ShiftBit(l) == ShiftRight(l, 1)
    ensures forall i | 0 <= i < 31 :: ShiftRight(l, 1)[i] == l[i + 1]
  {
  }

  lemma RightTwice(l: Word, n: nat)
    requires n <= 32
    ensures n > 0 ==> ShiftRight(ShiftRight(l, 1), n - 1) == ShiftRight(l, n)
    ensures n == 0 ==> ShiftRight(l, n) == l
  {
    if n > 0 {
      assert forall i | 0 <= i < 32 :: ShiftRight(ShiftRight(l, 1), n - 1)[i] == ShiftRight(l, n)[i];
    }
  }

  // ---- Tables. ----

  // A byte in place k of the register.
  function Place(b: Bits8, k: nat): Word
    requires k < 4
  {
    Blank(8 * k) + b + Blank(24 - 8 * k)
  }

  // kByteExtensionTable and kStrideExtensionTable0..3, by what their entries are:
  // a byte followed by 1, or by 13 to 16, bytes of zeros.
  function ByteTable(c: Bits8): Word {
    Shift(Widen(c), 8)
  }

  function StrideTable(s: nat, c: Bits8): Word
    requires s < 4
  {
    Shift(Widen(c), 8 * (13 + s))
  }

  lemma PlaceShifted(b: Bits8, k: nat)
    requires k < 4
    ensures ShiftRight(Place(b, k), 8 * k) == Widen(b)
    ensures forall i | 0 <= i < 8 * k :: !Place(b, k)[i]
  {
  }

  lemma ShiftPlace(b: Bits8, k: nat, n: nat)
    requires k < 4 && 8 * k <= n
    ensures Shift(Place(b, k), n) == Shift(Widen(b), n - 8 * k)
  {
    hide Shift;
    var placed := Place(b, k);
    assert Shift(placed, 8 * k) == Widen(b) by {
      ShiftOut(placed, 8 * k);
      PlaceShifted(b, k);
    }
    ShiftAdd(placed, 8 * k, n - 8 * k);
  }

  // STEP1: a table lookup does the work of eight divisions.
  lemma TableStep(l: Word, b: Bits8)
    ensures Xor(ByteTable(XorBits(LowByte(l), b)), ShiftRight(l, 8)) == Step(l, b)
  {
    var low, high := Widen(XorBits(LowByte(l), b)), Blank(8) + l[8..];
    assert Xor(low, high) == Xor(l, Widen(b));
    ShiftLinear(low, high, 8);
    ShiftOut(high, 8);
    assert ShiftRight(high, 8) == ShiftRight(l, 8);
  }

  function XorBits(a: Bits8, b: Bits8): Bits8 {
    seq(8, i requires 0 <= i < 8 => a[i] != b[i])
  }

  function ByteAt(l: Word, k: nat): Bits8
    requires k < 4
  {
    l[8 * k..8 * k + 8]
  }

  // STEP4: four stride lookups move a register sixteen bytes on.
  function StrideLookup(l: Word): Word {
    Xor(Xor(Xor(StrideTable(3, ByteAt(l, 0)), StrideTable(2, ByteAt(l, 1))), StrideTable(1, ByteAt(l, 2))),
        StrideTable(0, ByteAt(l, 3)))
  }

  lemma SplitBytes(l: Word)
    ensures Xor(Xor(Xor(Place(ByteAt(l, 0), 0), Place(ByteAt(l, 1), 1)), Place(ByteAt(l, 2), 2)),
                Place(ByteAt(l, 3), 3)) == l
  {
  }

  lemma StrideLookupShifts(l: Word)
    ensures StrideLookup(l) == Shift(l, 128)
  {
    SplitBytes(l);
    hide Xor, Shift, ByteAt, Place, Widen;
    ShiftPlace(ByteAt(l, 0), 0, 128);
    ShiftPlace(ByteAt(l, 1), 1, 128);
    ShiftPlace(ByteAt(l, 2), 2, 128);
    ShiftPlace(ByteAt(l, 3), 3, 128);
    ShiftFour(Place(ByteAt(l, 0), 0), Place(ByteAt(l, 1), 1), Place(ByteAt(l, 2), 2), Place(ByteAt(l, 3), 3), 128);
  }

  // ---- Words. ----

  // ReadUint32LE.
  function ReadWord(data: seq<Octet>, p: nat): Word
    requires p + 4 <= |data|
  {
    var bits: seq<bool> := data[p].bits;
    bits + data[p + 1].bits + data[p + 2].bits + data[p + 3].bits
  }

  // A byte read k places late can be put k places up at the start.
  lemma Absorb(x: Word, b: Bits8, k: nat)
    requires k < 4
    ensures Step(Shift(x, 8 * k), b) == Shift(Xor(x, Place(b, k)), 8 * k + 8)
  {
    hide Xor, ShiftBit;
    ShiftPlace(b, k, 8 * k);
    ShiftLinear(x, Place(b, k), 8 * k);
    ShiftAdd(Xor(x, Place(b, k)), 8 * k, 8);
  }

  lemma PlacesMakeWord(l: Word, a: Bits8, b: Bits8, c: Bits8, d: Bits8)
    ensures Xor(Xor(Xor(Xor(l, Place(a, 0)), Place(b, 1)), Place(c, 2)), Place(d, 3)) == Xor(l, a + b + c + d)
  {
  }

  lemma ShiftNone(l: Word)
    ensures Shift(l, 0) == l
  {
  }

  lemma StepBytes(l: Word, a: Bits8, b: Bits8, c: Bits8, d: Bits8)
    ensures Step(Step(Step(Step(l, a), b), c), d) == Shift(Xor(l, a + b + c + d), 32)
  {
    PlacesMakeWord(l, a, b, c, d);
    hide *;
    var x1 := Xor(l, Place(a, 0));
    var x2 := Xor(x1, Place(b, 1));
    var x3 := Xor(x2, Place(c, 2));
    ShiftNone(l);
    Absorb(l, a, 0);
    Absorb(x1, b, 1);
    Absorb(x2, c, 2);
    Absorb(x3, d, 3);
  }

  lemma FoldFour(l: Word, a: Octet, b: Octet, c: Octet, d: Octet)
    ensures Fold(l, [a, b, c, d]) == Step(Step(Step(Step(l, a.bits), b.bits), c.bits), d.bits)
  {
    hide Step;
    assert [a, b, c, d][1..] == [b, c, d] && [b, c, d][1..] == [c, d] && [c, d][1..] == [d] && [d][1..] == [];
    var l1 := Step(l, a.bits);
    assert Fold(l, [a, b, c, d]) == Fold(l1, [b, c, d]);
    var l2 := Step(l1, b.bits);
    assert Fold(l1, [b, c, d]) == Fold(l2, [c, d]);
    var l3 := Step(l2, c.bits);
    assert Fold(l2, [c, d]) == Fold(l3, [d]);
    assert Fold(l3, [d]) == Fold(Step(l3, d.bits), []);
  }

  // A whole word enters the register at once.
  lemma FoldWord(l: Word, data: seq<Octet>, p: nat)
    requires p + 4 <= |data|
    ensures Fold(l, data[..p + 4]) == Shift(Xor(Fold(l, data[..p]), ReadWord(data, p)), 32)
  {
    hide Fold, Xor, Step, Shift;
    var a, b, c, d := data[p], data[p + 1], data[p + 2], data[p + 3];
    assert data[..p + 4] == data[..p] + [a, b, c, d];
    var m := Fold(l, data[..p]);
    FoldConcat(l, data[..p], [a, b, c, d]);
    FoldFour(m, a, b, c, d);
    StepBytes(m, a.bits, b.bits, c.bits, d.bits);
  }

  lemma FoldByte(l: Word, data: seq<Octet>, p: nat)
    requires p < |data|
    ensures Fold(l, data[..p + 1]) == Step(Fold(l, data[..p]), data[p].bits)
  {
    hide Step;
    assert data[..p + 1] == data[..p] + [data[p]];
    FoldConcat(l, data[..p], [data[p]]);
    var m := Fold(l, data[..p]);
    assert Fold(m, [data[p]]) == Fold(Step(m, data[p].bits), []);
  }

  // ---- Lanes. ----

  // What four lanes amount to: each still has to travel past the lanes after it.
  ghost function Gather(c0: Word, c1: Word, c2: Word, c3: Word): Word {
    Xor(Xor(Xor(Shift(c0, 128), Shift(c1, 96)), Shift(c2, 64)), Shift(c3, 32))
  }

  lemma XorRotates(a: Word, b: Word, c: Word, d: Word, e: Word)
    ensures Xor(Xor(Xor(b, c), d), Xor(e, a)) == Xor(Xor(Xor(Xor(a, b), c), d), e)
  {
  }

  lemma ShiftFour(a: Word, b: Word, c: Word, d: Word, n: nat)
    ensures Shift(Xor(Xor(Xor(a, b), c), d), n) == Xor(Xor(Xor(Shift(a, n), Shift(b, n)), Shift(c, n)), Shift(d, n))
  {
    hide *;
    ShiftLinear(Xor(Xor(a, b), c), d, n);
    ShiftLinear(Xor(a, b), c, n);
    ShiftLinear(a, b, n);
  }

  // The oldest lane takes in the next word and becomes the youngest.
  lemma LaneStep(c0: Word, c1: Word, c2: Word, c3: Word, w: Word)
    ensures Gather(c1, c2, c3, Xor(w, Shift(c0, 128))) == Shift(Xor(Gather(c0, c1, c2, c3), w), 32)
  {
    hide Xor, Shift;
    var g := Gather(c0, c1, c2, c3);
    ShiftLinear(g, w, 32);
    ShiftFour(Shift(c0, 128), Shift(c1, 96), Shift(c2, 64), Shift(c3, 32), 32);
    ShiftAdd(c0, 128, 32);
    ShiftAdd(c1, 96, 32);
    ShiftAdd(c2, 64, 32);
    ShiftAdd(c3, 32, 32);
    ShiftLinear(w, Shift(c0, 128), 32);
    ShiftAdd(c0, 128, 32);
    XorRotates(Shift(c0, 160), Shift(c1, 128), Shift(c2, 96), Shift(c3, 64), Shift(w, 32));
  }

  // The final combination, lane by lane, gathers them.
  lemma LanesCombine(c0: Word, c1: Word, c2: Word, c3: Word)
    ensures Shift(Xor(Shift(Xor(Shift(Xor(Shift(c0, 32), c1), 32), c2), 32), c3), 32) == Gather(c0, c1, c2, c3)
  {
    hide Xor, Shift;
    var l0 := Shift(c0, 32);
    ShiftAdd(c0, 32, 32);
    ShiftLinear(l0, c1, 32);
    var l1 := Xor(Shift(c0, 64), Shift(c1, 32));
    ShiftAdd(c0, 64, 32);
    ShiftAdd(c1, 32, 32);
    ShiftLinear(Shift(c0, 64), Shift(c1, 32), 32);
    ShiftLinear(l1, c2, 32);
    var l2 := Xor(Xor(Shift(c0, 96), Shift(c1, 64)), Shift(c2, 32));
    ShiftAdd(c0, 96, 32);
    ShiftAdd(c1, 64, 32);
    ShiftAdd(c2, 32, 32);
    ShiftLinear(Xor(Shift(c0, 96), Shift(c1, 64)), Shift(c2, 32), 32);
    ShiftLinear(Shift(c0, 96), Shift(c1, 64), 32);
    ShiftLinear(l2, c3, 32);
  }

  // ---- The four-lane form. ----

  function RoundUp(pointer: nat): nat {
    (pointer + 3) / 4 * 4
  }

  // STEP1.
  function TableByte(l: Word, b: Bits8): Word {
    Xor(ByteTable(XorBits(LowByte(l), b)), ShiftRight(l, 8))
  }

  // One turn of the loop inside STEP4W.
  function TableTurn(w: Word): Word {
    Xor(ShiftRight(w, 8), ByteTable(LowByte(w)))
  }

  lemma TableTurnShifts(w: Word)
    ensures TableTurn(w) == Shift(w, 8)
  {
    hide Shift, ByteTable, ShiftRight, LowByte;
    TableStep(w, Blank(8));
    assert XorBits(LowByte(w), Blank(8)) == LowByte(w);
    assert Xor(w, Widen(Blank(8))) == w;
    assert Xor(ShiftRight(w, 8), ByteTable(LowByte(w))) == Xor(ByteTable(LowByte(w)), ShiftRight(w, 8));
  }

  // STEP4W.
  method CombineLane(crc: Word, l: Word) returns (r: Word)
    ensures r == Shift(Xor(l, crc), 32)
  {
    hide Shift, TableTurn;
    assert Xor(crc, l) == Xor(l, crc);
    hide Xor;
    var w := Xor(crc, l);
    ShiftNone(w);
    ghost var start := w;
    var i := 0;
    while i < 4
      invariant 0 <= i <= 4 && w == Shift(start, 8 * i)
    {
      TableTurnShifts(w);
      ShiftAdd(start, 8 * i, 8);
      w := TableTurn(w);
      i := i + 1;
    }
    r := w;
  }

  // Four lanes of words, sixteen bytes a step, for data at any address: the byte-at-a-time CRC.
  method ExtendInStrides(crc: Word, data: seq<Octet>, address: nat) returns (r: Word)
    ensures r == Extend(crc, data)
  {
    hide Shift, Xor, Step, Fold, TableByte, StrideLookup, ReadWord, Gather;
    var p := 0;
    var l := Xor(crc, Ones());
    ghost var start := l;
    FoldNone(start);
    var x := RoundUp(address) - address;
    if x <= |data| {
      while p != x
        invariant p <= x && l == Fold(start, data[..p])
        decreases x - p
      {
        l := ByteIn(start, l, data, p);
        p := p + 1;
      }
    }
    if |data| - p >= 16 {
      p, l := Strides(start, l, data, p);
    }
    while p != |data|
      invariant p <= |data| && l == Fold(start, data[..p])
      decreases |data| - p
    {
      l := ByteIn(start, l, data, p);
      p := p + 1;
    }
    assert data[..p] == data;
    r := Xor(l, Ones());
  }

  // The sixteen-byte strides, then words one lane at a time, then the combination.
  method Strides(ghost start: Word, l: Word, data: seq<Octet>, from: nat) returns (p: nat, r: Word)
    requires from + 16 <= |data| && l == Fold(start, data[..from])
    ensures from <= p <= |data| && r == Fold(start, data[..p])
  {
    hide *;
    var crc0 := Xor(ReadWord(data, from), l);
    var crc1, crc2, crc3 := ReadWord(data, from + 4), ReadWord(data, from + 8), ReadWord(data, from + 12);
    LanesLoaded(start, l, data, from);
    p := from + 16;
    while |data| - p >= 16
      invariant from <= p <= |data|
      invariant Gather(crc0, crc1, crc2, crc3) == Fold(start, data[..p])
    {
      LanesAdvance(start, crc0, crc1, crc2, crc3, data, p);
      crc0 := Xor(ReadWord(data, p), StrideLookup(crc0));
      LanesAdvance(start, crc1, crc2, crc3, crc0, data, p + 4);
      crc1 := Xor(ReadWord(data, p + 4), StrideLookup(crc1));
      LanesAdvance(start, crc2, crc3, crc0, crc1, data, p + 8);
      crc2 := Xor(ReadWord(data, p + 8), StrideLookup(crc2));
      LanesAdvance(start, crc3, crc0, crc1, crc2, data, p + 12);
      crc3 := Xor(ReadWord(data, p + 12), StrideLookup(crc3));
      p := p + 16;
    }
    while |data| - p >= 4
      invariant from <= p <= |data|
      invariant Gather(crc0, crc1, crc2, crc3) == Fold(start, data[..p])
    {
      LanesAdvance(start, crc0, crc1, crc2, crc3, data, p);
      crc0 := Xor(ReadWord(data, p), StrideLookup(crc0));
      var tmp := crc0;
      crc0 := crc1;
      crc1 := crc2;
      crc2 := crc3;
      crc3 := tmp;
      p := p + 4;
    }
    XorZero(crc0);
    LanesCombine(crc0, crc1, crc2, crc3);
    r := CombineLane(crc0, Zero());
    r := CombineLane(crc1, r);
    r := CombineLane(crc2, r);
    r := CombineLane(crc3, r);
  }

  lemma XorZero(l: Word)
    ensures Xor(Zero(), l) == l
  {
  }

  lemma XorCommutes(a: Word, b: Word)
    ensures Xor(a, b) == Xor(b, a)
  {
  }

  lemma LanesLoaded(start: Word, l: Word, data: seq<Octet>, p: nat)
    requires p + 16 <= |data| && l == Fold(start, data[..p])
    ensures Gather(Xor(ReadWord(data, p), l), ReadWord(data, p + 4), ReadWord(data, p + 8), ReadWord(data, p + 12))
         == Fold(start, data[..p + 16])
  {
    hide *;
    XorCommutes(ReadWord(data, p), l);
    FoldWord(start, data, p);
    FoldWord(start, data, p + 4);
    FoldWord(start, data, p + 8);
    FoldWord(start, data, p + 12);
    LanesCombine(Xor(l, ReadWord(data, p)), ReadWord(data, p + 4), ReadWord(data, p + 8), ReadWord(data, p + 12));
  }

  lemma LanesAdvance(start: Word, c0: Word, c1: Word, c2: Word, c3: Word, data: seq<Octet>, p: nat)
    requires p + 4 <= |data| && Gather(c0, c1, c2, c3) == Fold(start, data[..p])
    ensures Gather(c1, c2, c3, Xor(ReadWord(data, p), StrideLookup(c0))) == Fold(start, data[..p + 4])
  {
    hide *;
    StrideLookupShifts(c0);
    LaneStep(c0, c1, c2, c3, ReadWord(data, p));
    FoldWord(start, data, p);
  }

  lemma FoldNone(l: Word)
    ensures Fold(l, []) == l
  {
  }

  method ByteIn(ghost start: Word, l: Word, data: seq<Octet>, p: nat) returns (r: Word)
    requires p < |data| && l == Fold(start, data[..p])
    ensures r == Fold(start, data[..p + 1])
  {
    TableStep(l, data[p].bits);
    FoldByte(start, data, p);
    r := TableByte(l, data[p].bits);
  }

  // ---- Masked checksums. ----

  const MASK_DELTA: nat := 0xa282ead8

  // Addition in 32 bits.
  function Plus(w: Word, n: nat): Word {
    ToBits((ToNat(w) + n) % 0x1_0000_0000, 32)
  }

  function RotateRight(w: Word, n: nat): Word
    requires n <= 32
  {
    w[n..] + w[..n]
  }

  function Mask(crc: Word): Word {
    Plus(RotateRight(crc, 15), MASK_DELTA)
  }

  function Unmask(masked: Word): Word {
    RotateRight(Plus(masked, 0x1_0000_0000 - MASK_DELTA), 17)
  }

  lemma PlusAndBack(w: Word, n: nat)
    requires n <= 0x1_0000_0000
    ensures Plus(Plus(w, n), 0x1_0000_0000 - n) == w
  {
    hide *;
    NatOfPlus(w, n);
    NatOfPlus(Plus(w, n), 0x1_0000_0000 - n);
    WordRange(w);
    WrapAndBack(ToNat(w), n);
    var back := Plus(Plus(w, n), 0x1_0000_0000 - n);
    assert ToNat(back) == ToNat(w);
    ToBitsOfNat(w);
    ToBitsOfNat(back);
  }

  lemma NatOfPlus(w: Word, n: nat)
    ensures ToNat(Plus(w, n)) == (ToNat(w) + n) % 0x1_0000_0000
  {
    hide ToBits, ToNat;
    WordRoundTrip((ToNat(w) + n) % 0x1_0000_0000);
  }

  lemma WrapAndBack(v: nat, n: nat)
    requires v < 0x1_0000_0000 && n <= 0x1_0000_0000
    ensures ((v + n) % 0x1_0000_0000 + (0x1_0000_0000 - n)) % 0x1_0000_0000 == v
  {
  }

  lemma RotateAndBack(w: Word, n: nat)
    requires n <= 32
    ensures RotateRight(RotateRight(w, n), 32 - n) == w
  {
  }

  lemma UnmaskInvertsMask(crc: Word)
    ensures Unmask(Mask(crc)) == crc
    ensures Mask(Unmask(crc)) == crc
  {
    hide Plus, RotateRight;
    PlusAndBack(RotateRight(crc, 15), MASK_DELTA);
    RotateAndBack(crc, 15);
    PlusAndBack(crc, 0x1_0000_0000 - MASK_DELTA);
    RotateAndBack(Plus(crc, 0x1_0000_0000 - MASK_DELTA), 17);
  }
}
