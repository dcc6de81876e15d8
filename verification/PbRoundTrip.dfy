// What is encoded is decoded: the two halves of nanopb against one another.

module PbRoundTrips {
  import opened Sequences
  import opened Bits
  import opened Coding
  import opened History
  import opened PbMessages
  import opened PbEncoding
  import opened PbDecoding

  // ---- Varints, tags, lengths. ----

  // Or-ing above the bits there are is adding.
  lemma {:induction false} OrAdds(r: nat, v: nat, p: nat, n: nat)
    requires r < Pow2(p)
    ensures Or(ToBits(r, n), v, p) == ToBits(r + v * Pow2(p), n)
    decreases n
  {
    if n > 0 {
      assert ToBits(r, n)[1..] == ToBits(r / 2, n - 1);
      if p > 0 {
        var q := v * Pow2(p - 1);
        assert v * Pow2(p) == 2 * q;
        assert (r + 2 * q) / 2 == r / 2 + q && (r + 2 * q) % 2 == r % 2;
        OrAdds(r / 2, v, p - 1, n - 1);
      } else {
        OrAdds(0, v / 2, 0, n - 1);
      }
    }
  }

  ghost predicate At(bitpos: nat, scale: nat) {
    || (bitpos == 7 && scale == 0x80) || (bitpos == 14 && scale == 0x4000)
    || (bitpos == 21 && scale == 0x20_0000) || (bitpos == 28 && scale == 0x1000_0000)
  }

  lemma ScaleIs(bitpos: nat, scale: nat)
    requires At(bitpos, scale)
    ensures Pow2(bitpos) == scale
  {
    assert Pow2(4) == 16;
    assert Pow2(7) == 0x80;
    assert Pow2(11) == 0x800;
    assert Pow2(14) == 0x4000;
    assert Pow2(18) == 0x4_0000;
    assert Pow2(21) == 0x20_0000;
    assert Pow2(25) == 0x200_0000;
  }

  // Seven more bits, below the ones that are left.
  lemma Splits(w: nat, result: nat, bitpos: nat, scale: nat)
    requires At(bitpos, scale) && result < scale && result + w * scale < TWO_32
    ensures result + w % 128 * scale < scale * 128 && result + w % 128 * scale < TWO_32
    ensures (result + w % 128 * scale) + w / 128 * (scale * 128) == result + w * scale
    ensures w >= 128 ==> At(bitpos + 7, scale * 128)
    ensures bitpos == 28 ==> w < 16
  {
    if bitpos == 7 {
      assert scale == 0x80;
    } else if bitpos == 14 {
      assert scale == 0x4000;
    } else if bitpos == 21 {
      assert scale == 0x20_0000;
    } else {
      assert scale == 0x1000_0000;
    }
  }

  lemma {:induction false} ReadsMore(w: nat, result: nat, bitpos: nat, scale: nat, rest: Data)
    requires w > 0 && At(bitpos, scale) && result < scale && result + w * scale < TWO_32
    ensures Read32More(Varint(w) + rest, ToBits(result, 32), bitpos) == Some((result + w * scale, rest))
    decreases w
  {
    hide ByteOf, NumberOf, ToBits, ToNat, Or, Pow2;
    var s := Varint(w) + rest;
    Splits(w, result, bitpos, scale);
    ScaleIs(bitpos, scale);
    OrAdds(result, w % 128, bitpos, 32);
    if w < 128 {
      ByteRoundTrip(w);
      assert s[1..] == rest;
      WordRoundTrip(result + w * scale);
    } else {
      ByteRoundTrip(w % 128 + 128);
      assert s[1..] == Varint(w / 128) + rest;
      ReadsMore(w / 128, result + w % 128 * scale, bitpos + 7, scale * 128, rest);
    }
  }

  lemma Reads32(v: nat, rest: Data)
    requires v < TWO_32
    ensures Read32(Varint(v) + rest) == Some((v, rest))
  {
    hide ByteOf, NumberOf, ToBits, Read32More;
    var s := Varint(v) + rest;
    if v < 128 {
      ByteRoundTrip(v);
      assert s[1..] == rest;
    } else {
      ByteRoundTrip(v % 128 + 128);
      assert s[1..] == Varint(v / 128) + rest;
      ReadsMore(v / 128, v % 128, 7, 128, rest);
    }
  }

  lemma ReadsTag(wireType: nat, tag: nat, rest: Data)
    requires 1 <= tag < 0x2000_0000 && wireType < 8
    ensures ReadTag(TagBytes(wireType, tag) + rest) == Tag(wireType, tag, rest)
  {
    hide Varint, Read32;
    Reads32(tag * 8 + wireType, rest);
  }

  lemma ReadsDelimited(data: Data, rest: Data)
    requires |data| < TWO_32
    ensures ReadString(Delimited(data) + rest) == Some((data, rest))
  {
    hide Varint, Read32;
    Reads32(|data|, data + rest);
    Associates(Varint(|data|), data, rest);
  }

  // ---- Numbers. ----

  lemma SignedBack(n: int, w: Width)
    requires Signed(n, w)
    ensures FromVarint(Int(w), n % 0x1_0000_0000_0000_0000) == Some(n)
  {
  }

  lemma ZigZagBack(n: int)
    requires Signed(n, 8)
    ensures ZigZag(n) < TWO_64 && UnZigZag(ZigZag(n)) == n
  {
  }

  lemma ReadsNumber(s: Scalar, n: int, rest: Data)
    requires InRange(s, n)
    ensures ReadNumber(s, NumberBytes(s, n) + rest) == Some((n, rest))
  {
    hide Varint, Read32, ReadVarint64, Fixed32, Fixed64, ReadFixed32, ReadFixed64, Wrap, ZigZag, UnZigZag;
    match s {
      case Bool =>
        Reads32(if n != 0 then 1 else 0, rest);
      case Int(w) =>
        SignedBack(n, w);
        ReadsVarint64(n % 0x1_0000_0000_0000_0000, rest);
      case UInt(w) =>
        ReadsVarint64(n, rest);
      case SInt(w) =>
        ZigZagBack(n);
        ReadsVarint64(ZigZag(n), rest);
      case Word32 =>
        ReadsFixed32(n, rest);
      case Word64 =>
        ReadsFixed64(n, rest);
    }
  }

  // ---- What a message becomes: fields that are not sent are reset. ----

  function NormalAll(k: Kind, items: seq<Value>): (r: seq<Value>)
    ensures |r| == |items|
    decreases k, 3, |items|
  {
    if items == [] then [] else NormalAll(k, items[..|items| - 1]) + [Normal(k, items[|items| - 1])]
  }

  function NormalSlot(f: Field, slot: Slot): Slot
    decreases f
  {
    match f.rule
    case Required => if slot.One? then One(Normal(f.kind, slot.v)) else slot
    case Singular =>
      if slot.One? && !IsDefault(f.kind, slot.v) then One(Normal(f.kind, slot.v)) else InitialSlot(f)
    case Optional => if slot.Maybe? && slot.has then Maybe(true, Normal(f.kind, slot.v)) else InitialSlot(f)
    case OneOf(_) => Shared
    case _ => if slot.Many? then Many(NormalAll(f.kind, slot.items)) else slot
  }

  // The member of a union that its tag names.
  function Member(fields: seq<Field>, u: nat, which: nat): (r: Option<nat>)
    ensures r.Some? ==> r.value < |fields| && fields[r.value].rule == OneOf(u) && fields[r.value].tag == which
    ensures r.None? ==> forall i | 0 <= i < |fields| :: fields[i].rule != OneOf(u) || fields[i].tag != which
  {
    if fields == [] then None
    else
      var n := |fields| - 1;
      if fields[n].rule == OneOf(u) && fields[n].tag == which then Some(n) else Member(fields[..n], u, which)
  }

  // As if only the first n fields had been sent.
  function NormalChoice(k: Kind, n: nat, u: nat, c: Choice): Choice
    requires k.Message?
    decreases k, 0
  {
    match Member(k.fields, u, c.which)
    case None => Choice(0, Num(0))
    case Some(i) => if i < n then Choice(c.which, Normal(k.fields[i].kind, c.v)) else Choice(0, Num(0))
  }

  function NormalUpTo(k: Kind, n: nat, v: Value): (r: Value)
    requires k.Message? && v.Record? && |v.slots| == |k.fields|
    ensures r.Record? && |r.slots| == |k.fields| && |r.unions| == |v.unions|
    decreases k, 1
  {
    Record(seq(|k.fields|, i requires 0 <= i < |k.fields| =>
               if i < n then NormalSlot(k.fields[i], v.slots[i]) else InitialSlot(k.fields[i])),
           seq(|v.unions|, u requires 0 <= u < |v.unions| => NormalChoice(k, n, u, v.unions[u])))
  }

  function Normal(k: Kind, v: Value): Value
    decreases k, 2
  {
    if k.Message? && v.Record? && |v.slots| == |k.fields| then NormalUpTo(k, |k.fields|, v) else v
  }

  // ---- Strings that end before their room does. ----

  ghost predicate Terminated(k: Kind, v: Value)
    decreases k
  {
    match k
    case String(room) => v.Blob? && |v.data| < room
    case Message(fields, _) =>
      v.Record? && |v.slots| == |fields| && forall i | 0 <= i < |fields| :: FieldTerminated(fields[i], v.slots[i], v.unions)
    case _ => true
  }

  ghost predicate FieldTerminated(f: Field, slot: Slot, unions: seq<Choice>)
    decreases f
  {
    forall v | v in Present(f, slot, unions) :: Terminated(f.kind, v)
  }

  // A message that encodes, of fewer than 2^32 bytes.
  ghost predicate Sent(k: Kind, v: Value) {
    WellFormed(k) && Typed(k, v) && Encodable(k, v)
  }

  // ---- Arrays being filled: what has come so far, over what was there. ----

  function Over(base: seq<Value>, a: seq<Value>): seq<Value> {
    if |a| < |base| then a + base[|a|..] else a
  }

  lemma PutOver(base: seq<Value>, a: seq<Value>, x: Value)
    ensures Put(Over(base, a), |a|, x) == Over(base, a + [x])
  {
  }

  lemma {:induction false} ReadsPacked(s: Scalar, items: seq<Value>, base: seq<Value>, done: seq<Value>, max: nat)
    requires |done| + |items| <= max && forall v | v in items :: v.Num? && InRange(s, v.n)
    ensures ReadPacked(s, Packed(s, items), Over(base, done), |done|, max)
         == Some((Over(base, done + items), |done| + |items|))
    decreases |items|
  {
    hide NumberBytes, ReadNumber, InRange, Over, Put;
    if items == [] {
      assert done + items == done;
    } else {
      var x := items[0];
      assert x in items && Num(x.n) == x;
      ReadsNumber(s, x.n, Packed(s, items[1..]));
      PutOver(base, done, x);
      assert done + items == (done + [x]) + items[1..];
      ReadsPacked(s, items[1..], base, done + [x], max);
    }
  }

  lemma {:induction false} NormalNumbers(k: Kind, items: seq<Value>)
    requires k.Number?
    ensures NormalAll(k, items) == items
    decreases |items|
  {
    if items != [] {
      NormalNumbers(k, items[..|items| - 1]);
    }
  }

  // ---- Finding a field from anywhere. ----

  ghost predicate TagsDiffer(fields: seq<Field>) {
    forall i, j | 0 <= i < j < |fields| :: fields[i].tag != fields[j].tag
  }

  // Steps from pos forwards, and around, to i.
  function Distance(n: nat, pos: nat, i: nat): nat
    requires pos < n && i < n
  {
    if pos <= i then i - pos else n - pos + i
  }

  lemma {:induction false} FindsFrom(fields: seq<Field>, pos: nat, i: nat, steps: nat)
    requires TagsDiffer(fields) && pos < |fields| && i < |fields| && steps > Distance(|fields|, pos, i)
    ensures FindFrom(fields, pos, fields[i].tag, steps) == Some(i)
    decreases steps
  {
    if pos != i {
      assert fields[pos].tag != fields[i].tag;
      FindsFrom(fields, if pos + 1 == |fields| then 0 else pos + 1, i, steps - 1);
    }
  }

  // ---- The decoder's state between fields, and within an array. ----

  // All required fields before i have been seen, as far as they are tracked.
  ghost predicate SeenTo(fields: seq<Field>, i: nat, seen: set<nat>)
    requires i <= |fields|
  {
    forall n: nat | n < RequiredBefore(fields, i) && n < MAX_REQUIRED_FIELDS :: n in seen
  }

  ghost predicate Reached(k: Kind, v: Value, i: nat, st: State)
    requires k.Message?
  {
    && v.Record? && |v.slots| == |k.fields| && i <= |k.fields|
    && st.dest == NormalUpTo(k, i, v) && (st.pos < |k.fields| || k.fields == [])
    && SeenTo(k.fields, i, st.seen) && FixedDone(k.fields, st) && (st.fixedField.Some? ==> st.fixedField.value < i)
  }

  // What is in an array before its first item comes.
  function Base(f: Field): seq<Value> {
    if f.rule.FixedCount? then seq(f.rule.count, _ => Num(0)) else []
  }

  function Room(f: Field): nat {
    match f.rule
    case Repeated(max) => max
    case FixedCount(n) => n
    case _ => 0
  }

  ghost predicate InArray(k: Kind, v: Value, i: nat, done: seq<Value>, st: State)
    requires k.Message? && i < |k.fields|
  {
    var f := k.fields[i];
    && v.Record? && |v.slots| == |k.fields|
    && st.dest == WithSlot(NormalUpTo(k, i, v), i, Many(Over(Base(f), NormalAll(f.kind, done))))
    && st.pos < |k.fields| && SeenTo(k.fields, i, st.seen)
    && (if f.rule.FixedCount? && done != [] then st.fixedField == Some(i) && st.fixedCount == |done|
        else FixedDone(k.fields, st) && (st.fixedField.Some? ==> st.fixedField.value < i))
  }

  lemma ArrayStarts(k: Kind, v: Value, i: nat, st: State)
    requires k.Message? && Reached(k, v, i, st) && i < |k.fields| && IsArray(k.fields[i])
    ensures InArray(k, v, i, [], st)
  {
    hide FixedDone, SeenTo, NormalSlot, NormalChoice;
    var f := k.fields[i];
    assert Over(Base(f), []) == Base(f);
    assert st.dest.slots[i] == InitialSlot(f) && InitialSlot(f).items == Base(f);
    assert st.dest.slots[i := Many(Base(f))] == st.dest.slots;
  }

  lemma SeenStays(fields: seq<Field>, i: nat, seen: set<nat>)
    requires i < |fields| && SeenTo(fields, i, seen) && !fields[i].rule.Required?
    ensures SeenTo(fields, i + 1, seen)
  {
  }

  // No union of the message is about field i.
  lemma OthersChoose(k: Kind, v: Value, i: nat)
    requires k.Message? && v.Record? && |v.slots| == |k.fields| && i < |k.fields|
    requires k.fields[i].rule.OneOf? ==>
      k.fields[i].rule.union >= |v.unions| || v.unions[k.fields[i].rule.union].which != k.fields[i].tag
    ensures NormalUpTo(k, i + 1, v).unions == NormalUpTo(k, i, v).unions
    ensures NormalUpTo(k, i + 1, v).slots == NormalUpTo(k, i, v).slots[i := NormalSlot(k.fields[i], v.slots[i])]
  {
    hide NormalSlot;
    forall u | 0 <= u < |v.unions|
      ensures NormalChoice(k, i + 1, u, v.unions[u]) == NormalChoice(k, i, u, v.unions[u])
    {
    }
  }

  lemma ArrayEnds(k: Kind, v: Value, i: nat, st: State)
    requires k.Message? && i < |k.fields| && IsArray(k.fields[i]) && v.Record? && |v.slots| == |k.fields|
    requires SlotTyped(k.fields[i], v.slots[i], v.unions) && FieldFormed(k.fields[i], k.unions)
    requires InArray(k, v, i, v.slots[i].items, st)
    ensures Reached(k, v, i + 1, st)
  {
    hide NormalChoice, Typed, NormalAll;
    OthersChoose(k, v, i);
    SeenStays(k.fields, i, st.seen);
  }

  // ---- One field's bytes. ----

  // A tag that is some field's: what happens with it.
  lemma TagRuns(k: Kind, st: State, i: nat, wireType: nat, rest: Data)
    requires k.Message? && TagsDiffer(k.fields) && st.pos < |k.fields| && i < |k.fields| && wireType < 8
    requires 1 <= k.fields[i].tag < 0x2000_0000
    ensures Run(k, TagBytes(wireType, k.fields[i].tag) + rest, st)
         == match Entered(k.fields, i, st)
            case None => None
            case Some(e) =>
              match ReadField(k, i, wireType, rest, e.dest, e.fixedCount)
              case None => None
              case Some(p) => Run(k, p.2, e.(dest := p.0, fixedCount := p.1))
  {
    hide TagBytes, ReadTag, Entered, ReadField, FindFrom;
    ReadsTag(wireType, k.fields[i].tag, rest);
    FindsFrom(k.fields, st.pos, i, |k.fields|);
  }

  lemma SeenGrows(fields: seq<Field>, i: nat, st: State)
    requires i < |fields| && SeenTo(fields, i, st.seen) && !fields[i].rule.FixedCount?
    ensures Entered(fields, i, st).Some? && SeenTo(fields, i + 1, Entered(fields, i, st).value.seen)
    ensures Entered(fields, i, st).value == st.(pos := i, seen := Entered(fields, i, st).value.seen)
  {
  }

  // A whole packed array.
  lemma PackedRuns(k: Kind, v: Value, i: nat, st: State, more: Data) returns (st': State)
    requires k.Message? && TagsDiffer(k.fields) && i < |k.fields| && FieldFormed(k.fields[i], k.unions)
    requires IsArray(k.fields[i]) && k.fields[i].kind.Number? && InArray(k, v, i, [], st)
    requires SlotTyped(k.fields[i], v.slots[i], v.unions) && FieldEncodable(k.fields[i], v.slots[i], v.unions)
    requires v.slots[i].items != [] && |Packed(k.fields[i].kind.scalar, v.slots[i].items)| < TWO_32
    ensures InArray(k, v, i, v.slots[i].items, st')
    ensures var f := k.fields[i];
      Run(k, TagBytes(2, f.tag) + (Delimited(Packed(f.kind.scalar, v.slots[i].items)) + more), st) == Run(k, more, st')
  {
    hide TagBytes, Delimited, Packed, ReadString, ReadPacked, Run, NormalUpTo;
    var f, items := k.fields[i], v.slots[i].items;
    var data := Packed(f.kind.scalar, items);
    TagRuns(k, st, i, 2, Delimited(data) + more);
    ReadsDelimited(data, more);
    NormalNumbers(f.kind, items);
    NormalNumbers(f.kind, []);
    ReadsPacked(f.kind.scalar, items, Base(f), [], Room(f));
    assert [] + items == items;
    var e := Entered(k.fields, i, st).value;
    var p := ReadField(k, i, 2, Delimited(data) + more, e.dest, e.fixedCount).value;
    st' := e.(dest := p.0, fixedCount := p.1);
  }

  // One item of an array that is not packed: it is read, or the decoder stops there.
  lemma ItemRuns(k: Kind, v: Value, i: nat, done: seq<Value>, x: Value, bytes: Data, more: Data, st: State) returns (st': State)
    requires k.Message? && TagsDiffer(k.fields) && i < |k.fields| && FieldFormed(k.fields[i], k.unions)
    requires IsArray(k.fields[i]) && !k.fields[i].kind.Number? && InArray(k, v, i, done, st) && |done| < Room(k.fields[i])
    ensures var f := k.fields[i];
      var r := ReadValue(f.kind, bytes + more, Fresh(f.kind));
      var run := Run(k, TagBytes(WireType(f.kind), f.tag) + (bytes + more), st);
      && (r == None ==> run == None)
      && (r == Some((Normal(f.kind, x), more)) ==> run == Run(k, more, st') && InArray(k, v, i, done + [x], st'))
  {
    hide TagBytes, ReadValue, Run, NormalUpTo, Fresh, Normal, Over, Put;
    var f := k.fields[i];
    TagRuns(k, st, i, WireType(f.kind), bytes + more);
    PutOver(Base(f), NormalAll(f.kind, done), Normal(f.kind, x));
    NormalSnoc(f.kind, done, x);
    OverLength(f, NormalAll(f.kind, done));
    var e := Entered(k.fields, i, st).value;
    var p := ReadField(k, i, WireType(f.kind), bytes + more, e.dest, e.fixedCount);
    var items := Over(Base(f), NormalAll(f.kind, done));
    assert ReadArray(f, WireType(f.kind), bytes + more, items, |done|, Room(f))
        == ReadItem(f, bytes + more, items, |done|, Room(f));
    st' := if p.Some? then e.(dest := p.value.0, fixedCount := p.value.1) else e;
  }

  lemma NormalSnoc(k: Kind, done: seq<Value>, x: Value)
    ensures NormalAll(k, done + [x]) == NormalAll(k, done) + [Normal(k, x)]
  {
    assert (done + [x])[..|done|] == done;
  }

  lemma OverLength(f: Field, a: seq<Value>)
    ensures f.rule.Repeated? ==> Over(Base(f), a) == a
  {
  }

  lemma {:induction false} MemberIs(fields: seq<Field>, u: nat, i: nat)
    requires TagsDiffer(fields) && i < |fields| && fields[i].rule == OneOf(u)
    ensures Member(fields, u, fields[i].tag) == Some(i)
  {
  }

  // A field that has not come yet is as it was reset.
  lemma BeforeField(k: Kind, v: Value, i: nat)
    requires k.Message? && TagsDiffer(k.fields) && v.Record? && |v.slots| == |k.fields| && i < |k.fields|
    ensures NormalUpTo(k, i, v).slots[i] == InitialSlot(k.fields[i])
    ensures k.fields[i].rule.OneOf? && k.fields[i].rule.union < |v.unions|
            && v.unions[k.fields[i].rule.union].which == k.fields[i].tag ==>
      NormalUpTo(k, i, v).unions[k.fields[i].rule.union] == Choice(0, Num(0))
  {
    if k.fields[i].rule.OneOf? {
      MemberIs(k.fields, k.fields[i].rule.union, i);
    }
  }

  // When it has come, it alone has changed.
  lemma AfterField(k: Kind, v: Value, i: nat)
    requires k.Message? && TagsDiffer(k.fields) && v.Record? && |v.slots| == |k.fields| && i < |k.fields|
    ensures var f := k.fields[i];
      var was := NormalUpTo(k, i, v);
      NormalUpTo(k, i + 1, v) ==
      if f.rule.OneOf? && f.rule.union < |v.unions| && v.unions[f.rule.union].which == f.tag then
        Record(was.slots, was.unions[f.rule.union := Choice(f.tag, Normal(f.kind, v.unions[f.rule.union].v))])
      else WithSlot(was, i, NormalSlot(f, v.slots[i]))
  {
    hide Normal;
    var f := k.fields[i];
    if f.rule.OneOf? && f.rule.union < |v.unions| && v.unions[f.rule.union].which == f.tag {
      MemberIs(k.fields, f.rule.union, i);
      ChoosesOne(k, v, i);
    } else {
      OthersChoose(k, v, i);
    }
  }

  lemma ChoosesOne(k: Kind, v: Value, i: nat)
    requires k.Message? && TagsDiffer(k.fields) && v.Record? && |v.slots| == |k.fields| && i < |k.fields|
    requires k.fields[i].rule.OneOf? && k.fields[i].rule.union < |v.unions|
    requires v.unions[k.fields[i].rule.union].which == k.fields[i].tag
    ensures var f := k.fields[i];
      var was := NormalUpTo(k, i, v);
      && NormalUpTo(k, i + 1, v).slots == was.slots
      && NormalUpTo(k, i + 1, v).unions == was.unions[f.rule.union := Choice(f.tag, Normal(f.kind, v.unions[f.rule.union].v))]
  {
    hide Normal;
    var f := k.fields[i];
    MemberIs(k.fields, f.rule.union, i);
    forall u | 0 <= u < |v.unions| && u != f.rule.union
      ensures NormalChoice(k, i + 1, u, v.unions[u]) == NormalChoice(k, i, u, v.unions[u])
    {
    }
  }

  // The value of a field that is no array.
  lemma OneRuns(k: Kind, v: Value, i: nat, x: Value, bytes: Data, more: Data, st: State) returns (st': State)
    requires k.Message? && TagsDiffer(k.fields) && i < |k.fields| && FieldFormed(k.fields[i], k.unions)
    requires !IsArray(k.fields[i]) && Reached(k, v, i, st) && |v.unions| == k.unions
    requires Present(k.fields[i], v.slots[i], v.unions) == [x]
    ensures var f := k.fields[i];
      var run := Run(k, TagBytes(WireType(f.kind), f.tag) + (bytes + more), st);
      && (ReadsAs(f.kind, bytes, more, None) ==> run == None)
      && (ReadsAs(f.kind, bytes, more, Some((Normal(f.kind, x), more))) ==> run == Run(k, more, st') && Reached(k, v, i + 1, st'))
  {
    hide TagBytes, ReadValue, Run, NormalUpTo, Normal;
    var f := k.fields[i];
    TagRuns(k, st, i, WireType(f.kind), bytes + more);
    SeenGrows(k.fields, i, st);
    BeforeField(k, v, i);
    AfterField(k, v, i);
    var e := Entered(k.fields, i, st).value;
    var p := ReadField(k, i, WireType(f.kind), bytes + more, e.dest, e.fixedCount);
    st' := if p.Some? then e.(dest := p.value.0, fixedCount := p.value.1) else e;
  }

  // What reading gives, over a message reset or over anything else.
  ghost predicate ReadsAs(k: Kind, bytes: Data, more: Data, r: Option<(Value, Data)>) {
    if k.Message? then ReadValue(k, bytes + more, InitialRecord(k)) == r
    else forall current :: ReadValue(k, bytes + more, current) == r
  }

  // ---- The induction over the descriptor. ----

  ghost predicate AllTerminated(k: Kind, items: seq<Value>) {
    forall v | v in items :: Terminated(k, v)
  }

  ghost predicate AllSent(k: Kind, items: seq<Value>) {
    forall v | v in items :: Sent(k, v)
  }

  lemma {:induction false} ItemsRun(k: Kind, v: Value, i: nat, done: seq<Value>, items: seq<Value>, more: Data, st: State)
    returns (st': State)
    requires k.Message? && TagsDiffer(k.fields) && i < |k.fields| && FieldFormed(k.fields[i], k.unions)
    requires IsArray(k.fields[i]) && !k.fields[i].kind.Number? && InArray(k, v, i, done, st)
    requires |done| + |items| <= Room(k.fields[i])
    requires AllSent(k.fields[i].kind, items) && |Tagged(k.fields[i], items)| < TWO_32
    ensures var f := k.fields[i];
      var run := Run(k, Tagged(f, items) + more, st);
      if AllTerminated(f.kind, items) then run == Run(k, more, st') && InArray(k, v, i, done + items, st') else run == None
    decreases k, 1, |items|
  {
    hide InArray, ReadValue, Run, Sent, Normal, FieldFormed, Terminated, ValueBytes, TagBytes, Fresh;
    var f := k.fields[i];
    st' := st;
    if items == [] {
      assert Tagged(f, items) + more == more;
      assert done + items == done;
    } else {
      var x, rest := items[0], Tagged(f, items[1..]);
      var bytes := ValueBytes(f.kind, x);
      assert x in items;
      ReadsValue(f.kind, x, rest + more);
      FreshReads(f.kind, bytes, rest + more);
      AssociatesThree(TagBytes(WireType(f.kind), f.tag), bytes, rest, more);
      var st1 := ItemRuns(k, v, i, done, x, bytes, rest + more, st);
      assert items == [x] + items[1..];
      if Terminated(f.kind, x) {
        st' := ItemsRun(k, v, i, done + [x], items[1..], more, st1);
        assert done + items == (done + [x]) + items[1..];
      }
    }
  }

  lemma FreshReads(k: Kind, bytes: Data, more: Data)
    ensures forall r :: ReadsAs(k, bytes, more, r) ==> ReadValue(k, bytes + more, Fresh(k)) == r
  {
    hide ReadValue;
  }

  // A value on the wire reads back, or is refused for want of its terminating zero.
  lemma {:induction false} ReadsValue(k: Kind, v: Value, more: Data)
    requires Sent(k, v) && |ValueBytes(k, v)| < TWO_32
    ensures ReadsAs(k, ValueBytes(k, v), more, if Terminated(k, v) then Some((Normal(k, v), more)) else None)
    decreases k, 5
  {
    hide WellFormed, TagBytes, Delimited, ReadString, DecodeInto, MessageBytes, FieldTerminated, NormalUpTo, NumberBytes, ReadNumber,
         SlotTyped, InitialRecord;
    match k {
      case Number(s) =>
        ReadsNumber(s, v.n, more);
      case FixedBytes(n) =>
        DelimitedLength(v.data);
        ReadsDelimited(v.data, more);
        assert n == 0 ==> seq(n, _ => ByteOf(0)) == [];
      case Message(_, _) =>
        DelimitedLength(MessageBytes(k, v, 0));
        ReadsDelimited(MessageBytes(k, v, 0), more);
        MessageRuns(k, v);
      case _ =>
        DelimitedLength(v.data);
        ReadsDelimited(v.data, more);
    }
  }

  lemma DelimitedLength(data: Data)
    ensures |Delimited(data)| > |data|
  {
  }

  lemma {:induction false} MessageRuns(k: Kind, v: Value)
    requires k.Message? && Sent(k, v) && |MessageBytes(k, v, 0)| < TWO_32
    ensures DecodeInto(k, MessageBytes(k, v, 0), InitialRecord(k)) == if Terminated(k, v) then Some(Normal(k, v)) else None
    decreases k, 4
  {
    hide Run, MessageBytes, WellFormed, SlotTyped, FieldEncodable, FieldTerminated;
    var st := Start(InitialRecord(k));
    ResetReached(k, v);
    var last := FieldsRun(k, v, 0, st);
  }

  lemma ResetReached(k: Kind, v: Value)
    requires k.Message? && Typed(k, v)
    ensures Reached(k, v, 0, Start(InitialRecord(k)))
  {
    hide SlotTyped, InitialSlot;
    var r := NormalUpTo(k, 0, v);
    forall u | 0 <= u < |v.unions|
      ensures r.unions[u] == Choice(0, Num(0))
    {
      assert r.unions[u] == NormalChoice(k, 0, u, v.unions[u]);
    }
    assert r.slots == InitialRecord(k).slots && r.unions == InitialRecord(k).unions;
  }

  ghost predicate TerminatedFrom(k: Kind, v: Value, i: nat)
    requires k.Message? && v.Record? && |v.slots| == |k.fields|
  {
    forall j | i <= j < |k.fields| :: FieldTerminated(k.fields[j], v.slots[j], v.unions)
  }

  lemma NothingMore(k: Kind, st: State)
    requires k.Message?
    ensures Run(k, [], st) == Some(st)
  {
  }

  lemma {:induction false} FieldsRun(k: Kind, v: Value, i: nat, st: State) returns (last: State)
    requires k.Message? && Sent(k, v) && i <= |k.fields| && Reached(k, v, i, st)
    requires |MessageBytes(k, v, i)| < TWO_32
    ensures var run := Run(k, MessageBytes(k, v, i), st);
      if TerminatedFrom(k, v, i) then run == Some(last) && Reached(k, v, |k.fields|, last) else run == None
    decreases k, 3, |k.fields| - i
  {
    hide Reached, FieldBytes, FieldTerminated, SlotTyped, FieldEncodable, WellFormed, Run;
    last := st;
    NothingMore(k, st);
    if i < |k.fields| {
      last := FieldRuns(k, v, i, st, MessageBytes(k, v, i + 1));
      if FieldTerminated(k.fields[i], v.slots[i], v.unions) {
        last := FieldsRun(k, v, i + 1, last);
      }
    }
  }

  lemma {:induction false} FieldRuns(k: Kind, v: Value, i: nat, st: State, more: Data) returns (st': State)
    requires k.Message? && Sent(k, v) && i < |k.fields| && Reached(k, v, i, st)
    requires |FieldBytes(k.fields[i], v.slots[i], v.unions)| < TWO_32
    ensures var run := Run(k, FieldBytes(k.fields[i], v.slots[i], v.unions) + more, st);
      if FieldTerminated(k.fields[i], v.slots[i], v.unions) then run == Run(k, more, st') && Reached(k, v, i + 1, st')
      else run == None
    decreases k, 2
  {
    hide Reached, SlotTyped, FieldEncodable, WellFormed, FieldTerminated, InArray, FieldFormed, Run, NormalAll, Terminated, Encodable,
         Typed, ReadValue, TagBytes, ValueBytes, Delimited, Packed, Normal;
    FieldFacts(k, v, i);
    var f, items := k.fields[i], Present(k.fields[i], v.slots[i], v.unions);
    var all := AllTerminated(f.kind, items);
    TerminatedItems(f, v.slots[i], v.unions);
    if items == [] {
      st' := st;
      AbsentReached(k, v, i, st);
      assert FieldBytes(f, v.slots[i], v.unions) + more == more;
    } else if IsArray(f) {
      ArrayStarts(k, v, i, st);
      if f.kind.Number? {
        var data := Packed(f.kind.scalar, items);
        DelimitedLength(data);
        Associates(TagBytes(2, f.tag), Delimited(data), more);
        NumbersTerminated(f.kind, items);
        st' := PackedRuns(k, v, i, st, more);
        ArrayEnds(k, v, i, st');
      } else {
        st' := ItemsRun(k, v, i, [], items, more, st);
        assert [] + items == items;
        if all {
          ArrayEnds(k, v, i, st');
        }
      }
    } else {
      var x := items[0];
      assert items == [x];
      var bytes := ValueBytes(f.kind, x);
      ReadsValue(f.kind, x, more);
      assert Tagged(f, items) == TagBytes(WireType(f.kind), f.tag) + bytes + Tagged(f, items[1..]);
      assert Tagged(f, items[1..]) == [];
      AssociatesThree(TagBytes(WireType(f.kind), f.tag), bytes, [], more);
      assert [] + more == more;
      st' := OneRuns(k, v, i, x, bytes, more, st);
    }
  }

  lemma TerminatedItems(f: Field, slot: Slot, unions: seq<Choice>)
    ensures FieldTerminated(f, slot, unions) <==> AllTerminated(f.kind, Present(f, slot, unions))
  {
  }

  lemma NumbersTerminated(k: Kind, items: seq<Value>)
    requires k.Number?
    ensures AllTerminated(k, items)
  {
  }

  // What is known of a field of a message that is sent.
  lemma FieldFacts(k: Kind, v: Value, i: nat)
    requires k.Message? && Sent(k, v) && i < |k.fields|
    ensures v.Record? && |v.slots| == |k.fields| && |v.unions| == k.unions && TagsDiffer(k.fields)
    ensures var f := k.fields[i];
      && FieldFormed(f, k.unions) && SlotTyped(f, v.slots[i], v.unions) && FieldEncodable(f, v.slots[i], v.unions)
      && AllSent(f.kind, Present(f, v.slots[i], v.unions))
      && (IsArray(f) ==> v.slots[i].Many? && |v.slots[i].items| <= Room(f) && Present(f, v.slots[i], v.unions) == v.slots[i].items)
      && (!IsArray(f) ==> |Present(f, v.slots[i], v.unions)| <= 1)
  {
  }

  // A field that is not on the wire is left as it was reset.
  lemma AbsentReached(k: Kind, v: Value, i: nat, st: State)
    requires k.Message? && TagsDiffer(k.fields) && i < |k.fields| && Reached(k, v, i, st)
    requires FieldFormed(k.fields[i], k.unions) && SlotTyped(k.fields[i], v.slots[i], v.unions)
    requires Present(k.fields[i], v.slots[i], v.unions) == []
    ensures Reached(k, v, i + 1, st)
  {
    hide Typed, NormalUpTo, Normal, IsDefault, FixedDone, NormalAll;
    BeforeField(k, v, i);
    AfterField(k, v, i);
    SeenStays(k.fields, i, st.seen);
    NoItems(k.fields[i].kind);
    var was := NormalUpTo(k, i, v);
    assert was.slots[i := InitialSlot(k.fields[i])] == was.slots;
  }

  lemma NoItems(k: Kind)
    ensures NormalAll(k, []) == []
  {
  }

  // ---- The theorem. ----

  // A message of fewer than 2^32 bytes decodes to itself, with what was not sent reset; and only
  // a string without its terminating zero keeps it from being decoded.
  lemma RoundTrip(k: Kind, v: Value)
    requires k.Message? && WellFormed(k) && Typed(k, v) && Encodable(k, v)
    requires |MessageBytes(k, v, 0)| < TWO_32
    ensures Decode(k, MessageBytes(k, v, 0)) == if Terminated(k, v) then Some(Normal(k, v)) else None
  {
    hide WellFormed, Typed, Encodable, Terminated, Normal, MessageBytes, DecodeInto;
    MessageRuns(k, v);
  }

  // ---- Fields the decoder does not know. ----

  lemma {:induction false} SkipsVarint(v: nat, rest: Data)
    ensures SkipVarint(Varint(v) + rest) == Some(rest)
    decreases v
  {
    hide ByteOf, NumberOf;
    var s := Varint(v) + rest;
    if v < 128 {
      ByteRoundTrip(v);
      assert s[1..] == rest;
    } else {
      ByteRoundTrip(v % 128 + 128);
      assert s[1..] == Varint(v / 128) + rest;
      SkipsVarint(v / 128, rest);
    }
  }

  // The wire type says enough to pass over a value without knowing its kind.
  lemma SkipsValue(k: Kind, v: Value, rest: Data)
    requires Typed(k, v) && |ValueBytes(k, v)| < TWO_32
    ensures Skip(WireType(k), ValueBytes(k, v) + rest) == Some(rest)
  {
    hide Varint, Fixed32, Fixed64, SkipVarint, Delimited, ReadString, MessageBytes, SlotTyped;
    match k {
      case Number(Word32) =>
        Drops(Fixed32(v.n % 0x1_0000_0000), rest);
      case Number(Word64) =>
        Drops(Fixed64(v.n % 0x1_0000_0000_0000_0000), rest);
      case Number(Bool) =>
        SkipsVarint(if v.n != 0 then 1 else 0, rest);
      case Number(SInt(_)) =>
        SkipsVarint(ZigZag(v.n), rest);
      case Number(_) =>
        SkipsVarint(v.n % 0x1_0000_0000_0000_0000, rest);
      case Message(_, _) =>
        DelimitedLength(MessageBytes(k, v, 0));
        ReadsDelimited(MessageBytes(k, v, 0), rest);
      case _ =>
        DelimitedLength(v.data);
        ReadsDelimited(v.data, rest);
    }
  }

  // A field of a newer descriptor changes nothing in a message of an older one.
  lemma UnknownFieldRuns(k: Kind, f: Field, v: Value, more: Data, st: State)
    requires k.Message? && 1 <= f.tag < 0x2000_0000 && forall g | g in k.fields :: g.tag != f.tag
    requires Typed(f.kind, v) && |ValueBytes(f.kind, v)| < TWO_32
    ensures Run(k, TaggedValue(f, v) + more, st) == Run(k, more, st)
  {
    hide Typed, ValueBytes, TagBytes, Skip, ReadTag, Run, FindFrom;
    var bytes := ValueBytes(f.kind, v);
    Associates(TagBytes(WireType(f.kind), f.tag), bytes, more);
    ReadsTag(WireType(f.kind), f.tag, bytes + more);
    SkipsValue(f.kind, v, more);
    SkipTurn(k, TaggedValue(f, v) + more, st, Tag(WireType(f.kind), f.tag, bytes + more));
  }

  // ---- What absence means. ----

  // Every union of a message names one of its members, or none.
  ghost predicate Named(k: Kind, v: Value)
    requires k.Message? && v.Record?
  {
    forall u | 0 <= u < |v.unions| :: v.unions[u].which == 0 || Member(k.fields, u, v.unions[u].which).Some?
  }

  lemma NothingPresent(f: Field, slot: Slot, unions: seq<Choice>)
    ensures FieldBytes(f, slot, unions) == [] <==> Present(f, slot, unions) == []
  {
    hide Present, ValueBytes, Packed;
    var items := Present(f, slot, unions);
    if items != [] && IsArray(f) && !f.kind.Number? {
      assert ArrayBytes(f, items) == Tagged(f, items);
    }
  }

  lemma {:induction false} NothingSent(k: Kind, v: Value, i: nat)
    requires k.Message? && v.Record? && |v.slots| == |k.fields| && i <= |k.fields|
    ensures MessageBytes(k, v, i) == [] <==> forall j | i <= j < |k.fields| :: Present(k.fields[j], v.slots[j], v.unions) == []
    decreases |k.fields| - i
  {
    hide FieldBytes, Present;
    if i < |k.fields| {
      NothingPresent(k.fields[i], v.slots[i], v.unions);
      NothingSent(k, v, i + 1);
    }
  }

  // The encoder leaves a message within another out exactly if there is nothing in it to send.
  lemma DefaultSendsNothing(k: Kind, v: Value)
    requires k.Message? && WellFormed(k) && Typed(k, v) && Named(k, v)
    ensures IsDefault(k, v) <==> MessageBytes(k, v, 0) == []
  {
    hide Present, MessageBytes, SlotIsDefault, FieldFormed, SlotTyped;
    NothingSent(k, v, 0);
    forall i | 0 <= i < |k.fields|
      ensures SlotIsDefault(k.fields[i], v.slots[i], v.unions) ==> Present(k.fields[i], v.slots[i], v.unions) == []
      ensures MessageBytes(k, v, 0) == [] ==> SlotIsDefault(k.fields[i], v.slots[i], v.unions)
    {
      DefaultAbsent(k, v, i);
    }
  }

  lemma DefaultAbsent(k: Kind, v: Value, i: nat)
    requires k.Message? && v.Record? && |v.slots| == |k.fields| && i < |k.fields| && |v.unions| == k.unions && Named(k, v)
    requires FieldFormed(k.fields[i], k.unions) && SlotTyped(k.fields[i], v.slots[i], v.unions)
    ensures SlotIsDefault(k.fields[i], v.slots[i], v.unions) ==> Present(k.fields[i], v.slots[i], v.unions) == []
    ensures (forall j | 0 <= j < |k.fields| :: Present(k.fields[j], v.slots[j], v.unions) == []) ==>
      SlotIsDefault(k.fields[i], v.slots[i], v.unions)
  {
    hide IsDefault, Typed;
    var f := k.fields[i];
    if f.rule.OneOf? && v.unions[f.rule.union].which != 0 {
      var m := Member(k.fields, f.rule.union, v.unions[f.rule.union].which).value;
      assert Present(k.fields[m], v.slots[m], v.unions) != [];
    }
  }

  // ---- Two inputs the decoder treats in its own way. ----

  // A message of one string with room for one byte.
  function OneString(): Kind {
    Message([Field(1, Required, String(1), Blob([]))], 0)
  }

  function FullString(): Value {
    Record([One(Blob([ByteOf(65)]))], [])
  }

  // It encodes, and what it encodes to is refused.
  lemma FullStringRefused()
    ensures WellFormed(OneString()) && Typed(OneString(), FullString()) && Encodable(OneString(), FullString())
    ensures Decode(OneString(), MessageBytes(OneString(), FullString(), 0)) == None
  {
    FullStringFits();
    hide Typed, WellFormed, Encodable, MessageBytes, Decode;
    RoundTrip(OneString(), FullString());
  }

  lemma FullStringFits()
    ensures WellFormed(OneString()) && Typed(OneString(), FullString()) && Encodable(OneString(), FullString())
    ensures !Terminated(OneString(), FullString()) && |MessageBytes(OneString(), FullString(), 0)| < TWO_32
  {
    hide ByteOf, NumberOf, MessageBytes;
    ByteRoundTrip(65);
    FullStringShort();
    var f, v := OneString().fields[0], FullString();
    assert Present(f, v.slots[0], v.unions) == [Blob([ByteOf(65)])];
    assert Blob([ByteOf(65)]) in Present(f, v.slots[0], v.unions);
  }

  lemma FullStringShort()
    ensures |MessageBytes(OneString(), FullString(), 0)| < TWO_32
  {
    hide ByteOf, NumberOf, Varint;
    var k, v := OneString(), FullString();
    var f, x := k.fields[0], Blob([ByteOf(65)]);
    assert Pow128(1) == 128;
    VarintShort(10, 1);
    VarintShort(1, 1);
    assert Tagged(f, [x][1..]) == [] && MessageBytes(k, v, 1) == [];
    assert Tagged(f, [x]) == TagBytes(2, 1) + ValueBytes(f.kind, x) + Tagged(f, [x][1..]);
    assert MessageBytes(k, v, 0) == Tagged(f, [x]) + MessageBytes(k, v, 1);
  }

  // The bytes 01 00: a field of tag zero and wire type one, which has eight bytes of value.
  function TagZero(): Data {
    [ByteOf(1), ByteOf(0)]
  }

  // A table with a field in it refuses them; to an empty table they are a field, with a varint.
  lemma EmptyTableTakesTagZero(f: Field)
    requires 1 <= f.tag
    ensures Decode(Message([f], 0), TagZero()) == None
    ensures Decode(Message([], 0), TagZero()) == Some(InitialRecord(Message([], 0)))
  {
    hide InitialRecord, InitialSlot, ByteOf, NumberOf, ReadTag, Run, Read32, TagZero;
    TagZeroReads();
    var s, rest := TagZero(), [ByteOf(0)];
    var k, none := Message([f], 0), Message([], 0);
    assert FindFrom(k.fields, 0, 0, 1) == None;
    SkipTurn(k, s, Start(InitialRecord(k)), Tag(1, 0, rest));
    EmptyTurn(none, s, Start(InitialRecord(none)), Tag(1, 0, rest));
    StopTurn(none, [], Start(InitialRecord(none)));
  }

  lemma TagZeroReads()
    ensures ReadTag(TagZero()) == Tag(1, 0, [ByteOf(0)]) && Read32([ByteOf(0)]) == Some((0, [])) && ReadTag([]) == EndOfMessage
  {
    hide ByteOf, NumberOf, Read32More;
    ByteRoundTrip(1);
    ByteRoundTrip(0);
    assert TagZero()[1..] == [ByteOf(0)] && [ByteOf(0)][1..] == [];
  }

  ghost predicate Unlisted(k: Kind, tag: nat)
    requires k.Message?
  {
    forall f | f in k.fields :: f.tag != tag
  }

  // What stands behind the tag is passed over by its wire type, and the message stays as it was.
  ghost predicate PassesOver(k: Kind, s: Data, st: State)
    requires k.Message? && ReadTag(s).Tag?
  {
    Run(k, s, st) == match Skip(ReadTag(s).wireType, ReadTag(s).rest) case None => None case Some(rest) => Run(k, rest, st)
  }

  // A tag that is not in the table is passed over, whatever stands behind it, exactly if the table
  // has a field or the tag is not zero.
  lemma UnlistedPassedIff(k: Kind, tag: nat)
    requires k.Message? && Unlisted(k, tag)
    ensures (forall s: Data, st: State | ReadTag(s).Tag? && ReadTag(s).tag == tag :: PassesOver(k, s, st))
            <==> k.fields != [] || tag != 0
  {
    hide ReadTag, Skip, Run, FindFrom, InitialRecord, TagZero;
    if k.fields != [] || tag != 0 {
      forall s: Data, st: State | ReadTag(s).Tag? && ReadTag(s).tag == tag
        ensures PassesOver(k, s, st)
      {
        SkipTurn(k, s, st, ReadTag(s));
      }
    } else {
      var s, st, t := TagZero(), Start(InitialRecord(k)), Tag(1, 0, [ByteOf(0)]);
      TagZeroReads();
      EmptyTurn(k, s, st, t);
      StopTurn(k, [], st);
      EightBytesMissing();
      assert !PassesOver(k, s, st);
    }
  }

  lemma EightBytesMissing()
    ensures Skip(1, [ByteOf(0)]) == None
  {
  }
}
