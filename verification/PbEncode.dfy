// Encoding messages (nanopb pb_encode.c), in the Protocol Buffers wire format.

module PbEncoding {
  import opened Sequences
  import opened Bits
  import opened Coding
  import opened History
  import opened PbMessages

  // ---- Numbers. ----

  // Twice a number that is not negative; of a negative one, what is missing to the greatest.
  function ZigZag(n: int): nat {
    if n < 0 then 0xffff_ffff_ffff_ffff - 2 * n % 0x1_0000_0000_0000_0000 else 2 * n % 0x1_0000_0000_0000_0000
  }

  // In two's complement where the sign counts.
  function NumberBytes(s: Scalar, n: int): (r: Data)
    ensures r != []
  {
    match s
    case Bool => Varint(if n != 0 then 1 else 0)
    case Int(_) => Varint(n % 0x1_0000_0000_0000_0000)
    case UInt(_) => Varint(n % 0x1_0000_0000_0000_0000)
    case SInt(_) => Varint(ZigZag(n))
    case Word32 => Fixed32(n % 0x1_0000_0000)
    case Word64 => Fixed64(n % 0x1_0000_0000_0000_0000)
  }

  // ---- Tags and lengths. ----

  function WireType(k: Kind): nat {
    match k
    case Number(Word32) => 5
    case Number(Word64) => 1
    case Number(_) => 0
    case _ => 2
  }

  function TagBytes(wireType: nat, tag: nat): Data {
    Varint(tag * 8 + wireType)
  }

  // A length and that many bytes: pb_encode_string, and a message within another.
  function Delimited(data: Data): Data {
    Varint(|data|) + data
  }

  // ---- Absence: pb_check_proto3_default_value. ----

  predicate IsDefault(k: Kind, v: Value)
    decreases k
  {
    match k
    case Number(_) => v.Num? && v.n == 0
    case Bytes(_) => v.Blob? && v.data == []
    case String(_) => v.Blob? && v.data == []
    case FixedBytes(n) => n == 0
    case Message(fields, _) =>
      v.Record? && |v.slots| == |fields| && forall i | 0 <= i < |fields| :: SlotIsDefault(fields[i], v.slots[i], v.unions)
  }

  predicate SlotIsDefault(f: Field, slot: Slot, unions: seq<Choice>)
    decreases f
  {
    match f.rule
    case Required => false
    case Optional => slot.Maybe? && !slot.has
    case Singular => slot.One? && IsDefault(f.kind, slot.v)
    case Repeated(_) => slot.Many? && slot.items == []
    case FixedCount(_) => false
    case OneOf(u) => u < |unions| && unions[u].which == 0
  }

  // ---- The bytes of a message. ----

  function Packed(s: Scalar, items: seq<Value>): Data {
    if items == [] then []
    else (if items[0].Num? then NumberBytes(s, items[0].n) else []) + Packed(s, items[1..])
  }

  // One value, without its tag.
  function ValueBytes(k: Kind, v: Value): Data
    decreases k
  {
    match k
    case Number(s) => if v.Num? then NumberBytes(s, v.n) else []
    case Message(_, _) => if v.Record? then Delimited(MessageBytes(k, v, 0)) else []
    case _ => if v.Blob? then Delimited(v.data) else []
  }

  // One value after another, each with the field's tag.
  function Tagged(f: Field, items: seq<Value>): Data
    decreases f, 1, |items|
  {
    if items == [] then []
    else TagBytes(WireType(f.kind), f.tag) + ValueBytes(f.kind, items[0]) + Tagged(f, items[1..])
  }

  // Arrays are packed wherever the type allows it.
  function ArrayBytes(f: Field, items: seq<Value>): Data
    decreases f, 2
  {
    if items == [] then []
    else if f.kind.Number? then TagBytes(2, f.tag) + Delimited(Packed(f.kind.scalar, items))
    else Tagged(f, items)
  }

  // The values a field puts on the wire: an array's, or the one that is there.
  function Present(f: Field, slot: Slot, unions: seq<Choice>): seq<Value> {
    match f.rule
    case Required => if slot.One? then [slot.v] else []
    case Optional => if slot.Maybe? && slot.has then [slot.v] else []
    case Singular => if slot.One? && !IsDefault(f.kind, slot.v) then [slot.v] else []
    case OneOf(u) => if u < |unions| && unions[u].which == f.tag then [unions[u].v] else []
    case _ => if slot.Many? then slot.items else []
  }

  predicate IsArray(f: Field) {
    f.rule.Repeated? || f.rule.FixedCount?
  }

  function FieldBytes(f: Field, slot: Slot, unions: seq<Choice>): Data
    decreases f, 3
  {
    var items := Present(f, slot, unions);
    if IsArray(f) then ArrayBytes(f, items) else Tagged(f, items)
  }

  // From field i on.
  function MessageBytes(k: Kind, v: Value, i: nat): Data
    requires k.Message? && v.Record?
    decreases k, |k.fields| - i
  {
    if i >= |k.fields| || i >= |v.slots| then []
    else FieldBytes(k.fields[i], v.slots[i], v.unions) + MessageBytes(k, v, i + 1)
  }

  // ---- What the encoder refuses. ----

  ghost predicate Encodable(k: Kind, v: Value)
    decreases k
  {
    match k
    case Bytes(room) => v.Blob? && |v.data| <= room
    case Message(fields, _) =>
      v.Record? && |v.slots| == |fields| && forall i | 0 <= i < |fields| :: FieldEncodable(fields[i], v.slots[i], v.unions)
    case _ => true
  }

  ghost predicate FieldEncodable(f: Field, slot: Slot, unions: seq<Choice>)
    decreases f
  {
    var items := Present(f, slot, unions);
    && (f.rule.Repeated? ==> |items| <= f.rule.max)
    && forall v | v in items :: Encodable(f.kind, v)
  }

  // ---- Streams. ----

  // Without a callback a stream only counts.
  class OStream {
    const writing: bool
    const maxSize: nat
    var bytesWritten: nat
    // The bytes up to state.
    var out: Data
    ghost const base: Data

    // What was there stays, and no more than maxSize bytes come after it.
    ghost predicate Valid()
      reads this
    {
      && |out| >= |base| && out[..|base|] == base
      && if writing then |out| == |base| + bytesWritten && bytesWritten <= maxSize else out == base
    }

    constructor (writing: bool, maxSize: nat, out: Data)
      ensures Valid() && bytesWritten == 0 && this.out == out && base == out
      ensures this.writing == writing && this.maxSize == maxSize
    {
      this.writing, this.maxSize, this.bytesWritten, this.out := writing, maxSize, 0, out;
      base := out;
    }

    ghost predicate Fits(n: nat)
      reads `bytesWritten
    {
      writing ==> bytesWritten + n <= maxSize
    }

    twostate predicate Wrote(bytes: Data)
      reads this
    {
      bytesWritten == old(bytesWritten) + |bytes| && out == if writing then old(out) + bytes else old(out)
    }

    // pb_write without bytes to write, while sizing.
    method Count(n: nat, ghost bytes: Data)
      requires Valid() && !writing && |bytes| == n
      modifies this
      ensures Valid() && Wrote(bytes)
    {
      bytesWritten := bytesWritten + n;
    }

    // pb_write
    method Write(buf: Data) returns (ok: bool)
      requires Valid()
      modifies this
      ensures Valid() && ok == old(Fits(|buf|)) && (ok ==> Wrote(buf))
    {
      if |buf| > 0 && writing {
        if bytesWritten + |buf| > maxSize {
          return false;
        }
        out := out + buf;
      }
      bytesWritten := bytesWritten + |buf|;
      return true;
    }
  }

  method EncodeVarint(o: OStream, value: nat) returns (ok: bool)
    requires o.Valid()
    modifies o
    ensures o.Valid() && ok == old(o.Fits(|Varint(value)|)) && (ok ==> o.Wrote(Varint(value)))
  {
    hide ByteOf;
    if value <= 0x7f {
      ok := o.Write([ByteOf(value)]);
    } else {
      var buffer := VarintBytes(value);
      ok := o.Write(buffer);
    }
  }

  // The loop of pb_encode_varint: every byte with its high bit set, but for the last.
  method VarintBytes(value: nat) returns (buffer: Data)
    requires value > 0x7f
    ensures buffer == Varint(value)
  {
    hide ByteOf, NumberOf, Varint;
    var v, i := value, 0;
    buffer := [];
    ghost var last := value;
    while v != 0
      invariant i == |buffer|
      invariant v != 0 ==> buffer + Varint(v) == Varint(value)
      invariant v == 0 ==> i > 0 && last < 128 && buffer[i - 1] == ByteOf(last + 128)
                           && buffer[..i - 1] + [ByteOf(last)] == Varint(value)
    {
      last := v;
      VarintEnds(v, buffer);
      buffer := buffer + [ByteOf(v % 128 + 128)];
      v := v / 128;
      i := i + 1;
    }
    ByteRoundTrip(last + 128);
    buffer := buffer[i - 1 := ByteOf(NumberOf(buffer[i - 1]) % 128)];
    assert buffer == buffer[..i - 1] + [ByteOf(last)];
  }

  // Varint, one byte on.
  lemma VarintEnds(v: nat, buffer: Data)
    requires v != 0
    ensures var next := buffer + [ByteOf(v % 128 + 128)];
      && next[..|next| - 1] == buffer && next[|next| - 1] == ByteOf(v % 128 + 128)
      && (v >= 128 ==> next + Varint(v / 128) == buffer + Varint(v))
      && (v < 128 ==> v % 128 == v && v / 128 == 0 && Varint(v) == [ByteOf(v)])
  {
    hide ByteOf;
    if v >= 128 {
      assert Varint(v) == [ByteOf(v % 128 + 128)] + Varint(v / 128);
      Associates(buffer, [ByteOf(v % 128 + 128)], Varint(v / 128));
    }
  }

  method EncodeTag(o: OStream, wireType: nat, tag: nat) returns (ok: bool)
    requires o.Valid()
    modifies o
    ensures o.Valid() && ok == old(o.Fits(|TagBytes(wireType, tag)|)) && (ok ==> o.Wrote(TagBytes(wireType, tag)))
  {
    ok := EncodeVarint(o, tag * 8 + wireType);
  }

  method EncodeString(o: OStream, buffer: Data) returns (ok: bool)
    requires o.Valid()
    modifies o
    ensures o.Valid() && ok == old(o.Fits(|Delimited(buffer)|)) && (ok ==> o.Wrote(Delimited(buffer)))
  {
    hide Varint;
    Associates(o.out, Varint(|buffer|), buffer);
    ok := EncodeVarint(o, |buffer|);
    if !ok {
      return;
    }
    ok := o.Write(buffer);
  }

  method EncodeNumber(o: OStream, s: Scalar, n: int) returns (ok: bool)
    requires o.Valid() && InRange(s, n)
    modifies o
    ensures o.Valid() && ok == old(o.Fits(|NumberBytes(s, n)|)) && (ok ==> o.Wrote(NumberBytes(s, n)))
  {
    hide Varint, Fixed32, Fixed64;
    match s
    case Bool => ok := EncodeVarint(o, if n != 0 then 1 else 0);
    case Int(_) => ok := EncodeVarint(o, n % 0x1_0000_0000_0000_0000);
    case UInt(_) => ok := EncodeVarint(o, n % 0x1_0000_0000_0000_0000);
    case SInt(_) => ok := EncodeVarint(o, ZigZag(n));
    case Word32 => ok := o.Write(Fixed32(n % 0x1_0000_0000));
    case Word64 => ok := o.Write(Fixed64(n % 0x1_0000_0000_0000_0000));
  }

  // ---- Packed arrays. ----

  ghost predicate Numbers(s: Scalar, items: seq<Value>) {
    forall v | v in items :: v.Num? && InRange(s, v.n)
  }

  lemma {:induction false} FixedPacked(s: Scalar, items: seq<Value>)
    requires Numbers(s, items) && (s.Word32? || s.Word64?)
    ensures |Packed(s, items)| == (if s.Word32? then 4 else 8) * |items|
  {
    if items != [] {
      assert items[0] in items;
      FixedPacked(s, items[1..]);
    }
  }

  // Item by item, to a stream that writes or one that counts.
  method EncodeItems(o: OStream, s: Scalar, items: seq<Value>) returns (ok: bool)
    requires o.Valid() && Numbers(s, items)
    modifies o
    ensures o.Valid() && ok == old(o.Fits(|Packed(s, items)|)) && (ok ==> o.Wrote(Packed(s, items)))
  {
    hide NumberBytes, InRange, Packed;
    PackedTail(s, items, |items|);
    var i := 0;
    ghost var done: Data := [];
    while i < |items|
      invariant i <= |items| && o.Valid() && Packed(s, items) == done + Packed(s, items[i..])
      invariant o.Wrote(done) && old(o.Fits(|done|))
    {
      assert items[i] in items;
      PackedTail(s, items, i);
      Associates(done, NumberBytes(s, items[i].n), Packed(s, items[i + 1..]));
      Associates(old(o.out), done, NumberBytes(s, items[i].n));
      ok := EncodeNumber(o, s, items[i].n);
      if !ok {
        return;
      }
      done := done + NumberBytes(s, items[i].n);
      i := i + 1;
    }
    return true;
  }

  lemma PackedTail(s: Scalar, items: seq<Value>, i: nat)
    requires i <= |items| && Numbers(s, items)
    ensures Packed(s, items[i..])
         == if i == |items| then [] else (if items[i].Num? then NumberBytes(s, items[i].n) else []) + Packed(s, items[i + 1..])
    ensures items[0..] == items && (i < |items| ==> items[i].Num?)
  {
    hide NumberBytes, InRange;
    if i < |items| {
      assert items[i] in items && items[i..][1..] == items[i + 1..];
    }
  }

  // The length of a packed array: a product, or a pass that only counts.
  method PackedSize(s: Scalar, items: seq<Value>) returns (size: nat)
    requires Numbers(s, items)
    ensures size == |Packed(s, items)|
  {
    hide Packed, Numbers;
    if s.Word32? {
      FixedPacked(s, items);
      size := 4 * |items|;
    } else if s.Word64? {
      FixedPacked(s, items);
      size := 8 * |items|;
    } else {
      var sizestream := new OStream(false, 0, []);
      var _ := EncodeItems(sizestream, s, items);
      size := sizestream.bytesWritten;
    }
  }

  method EncodePacked(o: OStream, s: Scalar, items: seq<Value>) returns (ok: bool)
    requires o.Valid() && Numbers(s, items)
    modifies o
    ensures o.Valid() && ok == old(o.Fits(|Delimited(Packed(s, items))|)) && (ok ==> o.Wrote(Delimited(Packed(s, items))))
  {
    hide Packed, Varint, Numbers;
    var size := PackedSize(s, items);
    ghost var data := Packed(s, items);
    Associates(o.out, Varint(size), data);
    ok := EncodeVarint(o, size);
    if !ok {
      return;
    }
    if !o.writing {
      // A stream that counts needs only the length.
      o.Count(size, data);
      return true;
    }
    ok := EncodeItems(o, s, items);
  }

  // ---- Fields and messages. ----

  ghost predicate AllTyped(k: Kind, items: seq<Value>) {
    forall v | v in items :: Typed(k, v)
  }

  ghost predicate AllEncodable(k: Kind, items: seq<Value>) {
    forall v | v in items :: Encodable(k, v)
  }

  // One value with the field's tag.
  function TaggedValue(f: Field, v: Value): Data {
    TagBytes(WireType(f.kind), f.tag) + ValueBytes(f.kind, v)
  }

  method EncodeOne(o: OStream, f: Field, v: Value) returns (ok: bool)
    requires o.Valid() && Typed(f.kind, v)
    modifies o
    ensures o.Valid() && ok == (Encodable(f.kind, v) && old(o.Fits(|TaggedValue(f, v)|))) && (ok ==> o.Wrote(TaggedValue(f, v)))
    decreases f, 0
  {
    hide TagBytes, ValueBytes, Typed, Encodable;
    Associates(o.out, TagBytes(WireType(f.kind), f.tag), ValueBytes(f.kind, v));
    ok := EncodeTag(o, WireType(f.kind), f.tag);
    if !ok {
      return;
    }
    ok := EncodeValue(o, f.kind, v);
  }

  method EncodeTagged(o: OStream, f: Field, items: seq<Value>) returns (ok: bool)
    requires o.Valid() && AllTyped(f.kind, items)
    modifies o
    ensures o.Valid() && ok == (AllEncodable(f.kind, items) && old(o.Fits(|Tagged(f, items)|))) && (ok ==> o.Wrote(Tagged(f, items)))
    decreases f, 1
  {
    hide TaggedValue, Typed, Encodable, Tagged;
    TaggedTail(f, items, |items|);
    var i := 0;
    ghost var done: Data := [];
    while i < |items|
      invariant i <= |items| && o.Valid() && Tagged(f, items) == done + Tagged(f, items[i..])
      invariant o.Wrote(done) && old(o.Fits(|done|))
      invariant forall j | 0 <= j < i :: Encodable(f.kind, items[j])
    {
      assert items[i] in items;
      TaggedTail(f, items, i);
      Associates(done, TaggedValue(f, items[i]), Tagged(f, items[i + 1..]));
      Associates(old(o.out), done, TaggedValue(f, items[i]));
      ok := EncodeOne(o, f, items[i]);
      if !ok {
        return;
      }
      done := done + TaggedValue(f, items[i]);
      i := i + 1;
    }
    return true;
  }

  lemma TaggedTail(f: Field, items: seq<Value>, i: nat)
    requires i <= |items|
    ensures Tagged(f, items[i..]) == if i == |items| then [] else TaggedValue(f, items[i]) + Tagged(f, items[i + 1..])
    ensures items[0..] == items
  {
    hide TagBytes, ValueBytes;
    assert i < |items| ==> items[i..][1..] == items[i + 1..];
  }

  method EncodeArray(o: OStream, f: Field, items: seq<Value>) returns (ok: bool)
    requires o.Valid() && AllTyped(f.kind, items)
    modifies o
    ensures o.Valid()
    ensures ok == ((f.rule.Repeated? ==> |items| <= f.rule.max) && AllEncodable(f.kind, items) && old(o.Fits(|ArrayBytes(f, items)|)))
    ensures ok ==> o.Wrote(ArrayBytes(f, items))
    decreases f, 2
  {
    hide TagBytes, Packed, Tagged, Delimited, Typed;
    if |items| == 0 {
      return true;
    }
    if f.rule.Repeated? && |items| > f.rule.max {
      return false;
    }
    if f.kind.Number? {
      NumbersEncodable(f.kind, items);
      Associates(o.out, TagBytes(2, f.tag), Delimited(Packed(f.kind.scalar, items)));
      ok := EncodeTag(o, 2, f.tag);
      if !ok {
        return;
      }
      ok := EncodePacked(o, f.kind.scalar, items);
    } else {
      ok := EncodeTagged(o, f, items);
    }
  }

  lemma NumbersEncodable(k: Kind, items: seq<Value>)
    requires k.Number?
    ensures AllEncodable(k, items) && (AllTyped(k, items) ==> Numbers(k.scalar, items))
  {
  }

  method EncodeValue(o: OStream, k: Kind, v: Value) returns (ok: bool)
    requires o.Valid() && Typed(k, v)
    modifies o
    ensures o.Valid() && ok == (Encodable(k, v) && old(o.Fits(|ValueBytes(k, v)|))) && (ok ==> o.Wrote(ValueBytes(k, v)))
    decreases k, 5
  {
    hide Delimited, NumberBytes, FieldEncodable, SlotTyped;
    match k
    case Number(s) => ok := EncodeNumber(o, s, v.n);
    case Bytes(room) =>
      if |v.data| > room {
        return false;
      }
      ok := EncodeString(o, v.data);
    case Message(_, _) => ok := EncodeSubmessage(o, k, v);
    case _ => ok := EncodeString(o, v.data);
  }

  // A first pass that only counts, then one that writes.
  method EncodeSubmessage(o: OStream, k: Kind, v: Value) returns (ok: bool)
    requires o.Valid() && k.Message? && Typed(k, v)
    modifies o
    ensures o.Valid() && ok == (Encodable(k, v) && old(o.Fits(|Delimited(MessageBytes(k, v, 0))|)))
    ensures ok ==> o.Wrote(Delimited(MessageBytes(k, v, 0)))
    decreases k, 4
  {
    hide SlotTyped, Encodable, MessageBytes, Varint;
    ghost var bytes := MessageBytes(k, v, 0);
    Associates(o.out, Varint(|bytes|), bytes);
    var substream := new OStream(false, 0, []);
    ok := Encode(substream, k, v);
    if !ok {
      return;
    }
    var size := substream.bytesWritten;
    ok := EncodeVarint(o, size);
    if !ok {
      return;
    }
    if !o.writing {
      // A stream that counts needs only the length.
      o.Count(size, MessageBytes(k, v, 0));
      return true;
    }
    if o.bytesWritten + size > o.maxSize {
      return false;
    }
    substream := new OStream(true, size, o.out);
    var status := Encode(substream, k, v);
    o.bytesWritten := o.bytesWritten + substream.bytesWritten;
    o.out := substream.out;
    if substream.bytesWritten != size {
      return false;
    }
    return status;
  }

  method EncodeField(o: OStream, f: Field, slot: Slot, unions: seq<Choice>) returns (ok: bool)
    requires o.Valid() && SlotTyped(f, slot, unions)
    modifies o
    ensures o.Valid() && ok == (FieldEncodable(f, slot, unions) && old(o.Fits(|FieldBytes(f, slot, unions)|)))
    ensures ok ==> o.Wrote(FieldBytes(f, slot, unions))
    decreases f, 3
  {
    hide ArrayBytes, TagBytes, ValueBytes, Typed, Encodable, IsDefault;
    match f.rule {
      case Required =>
        ok := EncodeTagged(o, f, [slot.v]);
      case Optional =>
        if !slot.has {
          return true;
        }
        ok := EncodeTagged(o, f, [slot.v]);
      case Singular =>
        if IsDefault(f.kind, slot.v) {
          return true;
        }
        ok := EncodeTagged(o, f, [slot.v]);
      case OneOf(u) =>
        if unions[u].which != f.tag {
          return true;
        }
        ok := EncodeTagged(o, f, [unions[u].v]);
      case _ =>
        ok := EncodeArray(o, f, slot.items);
    }
  }

  lemma FieldOf(k: Kind, v: Value, i: nat)
    requires k.Message? && Typed(k, v) && i < |k.fields|
    ensures v.Record? && |v.slots| == |k.fields| && SlotTyped(k.fields[i], v.slots[i], v.unions)
    ensures Encodable(k, v) ==> FieldEncodable(k.fields[i], v.slots[i], v.unions)
  {
    hide SlotTyped, FieldEncodable;
  }

  lemma RecordOf(k: Kind, v: Value)
    requires k.Message? && Typed(k, v)
    ensures v.Record? && |v.slots| == |k.fields|
    ensures Encodable(k, v) <==> forall j | 0 <= j < |k.fields| :: FieldEncodable(k.fields[j], v.slots[j], v.unions)
  {
    hide SlotTyped, FieldEncodable;
  }

  // pb_encode: field after field.
  method Encode(o: OStream, k: Kind, v: Value) returns (ok: bool)
    requires o.Valid() && k.Message? && Typed(k, v)
    modifies o
    ensures o.Valid() && ok == (Encodable(k, v) && old(o.Fits(|MessageBytes(k, v, 0)|)))
    ensures ok ==> o.Wrote(MessageBytes(k, v, 0))
    decreases k, 3
  {
    hide FieldBytes, FieldEncodable, Typed, Encodable, SlotTyped;
    RecordOf(k, v);
    var i := 0;
    ghost var done: Data := [];
    while i < |k.fields|
      invariant i <= |k.fields| && o.Valid() && MessageBytes(k, v, 0) == done + MessageBytes(k, v, i)
      invariant o.Wrote(done) && old(o.Fits(|done|))
      invariant forall j | 0 <= j < i :: FieldEncodable(k.fields[j], v.slots[j], v.unions)
    {
      ghost var bytes := FieldBytes(k.fields[i], v.slots[i], v.unions);
      assert MessageBytes(k, v, i) == bytes + MessageBytes(k, v, i + 1);
      Associates(done, bytes, MessageBytes(k, v, i + 1));
      Associates(old(o.out), done, bytes);
      FieldOf(k, v, i);
      ok := EncodeField(o, k.fields[i], v.slots[i], v.unions);
      if !ok {
        return;
      }
      done := done + bytes;
      i := i + 1;
    }
    assert MessageBytes(k, v, i) == [];
    return true;
  }

  // pb_get_encoded_size
  method GetEncodedSize(k: Kind, v: Value) returns (size: Option<nat>)
    requires k.Message? && Typed(k, v)
    ensures size == if Encodable(k, v) then Some(|MessageBytes(k, v, 0)|) else None
  {
    hide SlotTyped, Encodable, MessageBytes;
    var stream := new OStream(false, 0, []);
    var ok := Encode(stream, k, v);
    return if ok then Some(stream.bytesWritten) else None;
  }

  // A buffer of some size, through a stream of pb_ostream_from_buffer.
  method EncodeToBuffer(k: Kind, v: Value, bufsize: nat) returns (ok: bool, out: Data)
    requires k.Message? && Typed(k, v)
    ensures ok <==> Encodable(k, v) && |MessageBytes(k, v, 0)| <= bufsize
    ensures ok ==> out == MessageBytes(k, v, 0)
    ensures |out| <= bufsize
  {
    hide SlotTyped, Encodable, MessageBytes;
    var stream := new OStream(true, bufsize, []);
    ok := Encode(stream, k, v);
    out := stream.out;
  }
}
