// Decoding messages (nanopb pb_decode.c): what a byte string means to the decoder.

module PbDecoding {
  import opened Bits
  import opened Coding
  import opened History
  import opened PbMessages

  // ---- Varints. ----

  // A number or-ed in from bit p on, as far as there are bits.
  function Or(bits: seq<bool>, v: nat, p: nat): (r: seq<bool>)
    ensures |r| == |bits|
  {
    if bits == [] then []
    else if p > 0 then [bits[0]] + Or(bits[1..], v, p - 1)
    else [bits[0] || v % 2 == 1] + Or(bits[1..], v / 2, 0)
  }

  // pb_decode_varint32: past 32 bits only zeros, or the sign extension of a negative number.
  function Read32(s: Data): (r: Option<(nat, Data)>)
    ensures r.Some? ==> |r.value.1| < |s|
  {
    if s == [] then None
    else if NumberOf(s[0]) < 128 then Some((NumberOf(s[0]), s[1..]))
    else Read32More(s[1..], ToBits(NumberOf(s[0]) - 128, 32), 7)
  }

  // The number of bits that have been read is itself a number of eight bits.
  function Onward(bitpos: nat): nat {
    (bitpos + 7) % 256
  }

  function Read32More(s: Data, result: Word, bitpos: nat): (r: Option<(nat, Data)>)
    ensures r.Some? ==> |r.value.1| < |s|
  {
    if s == [] then None
    else
      var b := NumberOf(s[0]);
      if bitpos >= 32 then
        if b % 128 != 0 && (!result[31] || b != (if bitpos < 63 then 0xff else 0x01)) then None
        else if b < 128 then Some((ToNat(result), s[1..]))
        else Read32More(s[1..], result, Onward(bitpos))
      else
        var result' := Or(result, b % 128, bitpos);
        if b < 128 then
          (if bitpos + 7 == 35 && b / 16 % 8 != 0 then None else Some((ToNat(result'), s[1..])))
        else Read32More(s[1..], result', Onward(bitpos))
  }

  // ---- Tags, and fields nobody knows. ----

  datatype TagRead = Tag(wireType: nat, tag: nat, rest: Data) | EndOfMessage | BadTag

  // A zero tag ends a message.
  function ReadTag(s: Data): (r: TagRead)
    ensures r.Tag? ==> |r.rest| < |s|
  {
    if s == [] then EndOfMessage
    else match Read32(s)
         case None => BadTag
         case Some(t) => if t.0 == 0 then EndOfMessage else Tag(t.0 % 8, t.0 / 8, t.1)
  }

  function SkipVarint(s: Data): (r: Option<Data>)
    ensures r.Some? ==> |r.value| < |s|
  {
    if s == [] then None else if NumberOf(s[0]) < 128 then Some(s[1..]) else SkipVarint(s[1..])
  }

  function Skip(wireType: nat, s: Data): (r: Option<Data>)
    ensures r.Some? ==> |r.value| <= |s|
  {
    if wireType == 0 then SkipVarint(s)
    else if wireType == 1 then (if |s| < 8 then None else Some(s[8..]))
    else if wireType == 2 then match ReadString(s) case None => None case Some(p) => Some(p.1)
    else if wireType == 5 then (if |s| < 4 then None else Some(s[4..]))
    else None
  }

  // A length and that many bytes.
  function ReadString(s: Data): (r: Option<(Data, Data)>)
    ensures r.Some? ==> |r.value.0| + |r.value.1| < |s|
  {
    match Read32(s)
    case None => None
    case Some(n) => if |n.1| < n.0 then None else Some((n.1[..n.0], n.1[n.0..]))
  }

  // ---- Numbers. ----

  // The low bits of a value as a signed number.
  function Wrap(v: nat, width: Width): int {
    if width == 1 then (v + 0x80) % 0x100 - 0x80
    else if width == 2 then (v + 0x8000) % 0x1_0000 - 0x8000
    else if width == 4 then (v + 0x8000_0000) % 0x1_0000_0000 - 0x8000_0000
    else (v + 0x8000_0000_0000_0000) % 0x1_0000_0000_0000_0000 - 0x8000_0000_0000_0000
  }

  function UnZigZag(v: nat): int {
    if v % 2 == 1 then -(v / 2) - 1 else v / 2
  }

  // What a 64-bit value is as a field of the kind; none where it is too large for it. Integers of
  // up to 32 bits are cut to 32 before they are looked at.
  function FromVarint(s: Scalar, v: nat): Option<int> {
    match s
    case Int(w) =>
      var n := if w == 8 then Wrap(v, 8) else Wrap(v, 4);
      if Signed(n, w) then Some(n) else None
    case SInt(w) => if Signed(UnZigZag(v), w) then Some(UnZigZag(v)) else None
    case UInt(w) => if Unsigned(v, w) then Some(v) else None
    case _ => None
  }

  function ReadNumber(s: Scalar, input: Data): (r: Option<(int, Data)>)
    ensures r.Some? ==> |r.value.1| < |input|
  {
    match s
    case Bool => (match Read32(input) case None => None case Some(p) => Some((if p.0 != 0 then 1 else 0, p.1)))
    case Word32 => if |input| < 4 then None else Some((ReadFixed32(input), input[4..]))
    case Word64 => if |input| < 8 then None else Some((ReadFixed64(input), input[8..]))
    case _ =>
      match ReadVarint64(input)
      case None => None
      case Some(p) => match FromVarint(s, p.0) case None => None case Some(n) => Some((n, p.1))
  }

  // ---- Arrays, as far as they are filled. ----

  function Put(items: seq<Value>, count: nat, v: Value): seq<Value> {
    if count < |items| then items[count := v] else items + [v]
  }

  // A packed array: until the bytes are used up, and no further than there is room.
  function ReadPacked(s: Scalar, input: Data, items: seq<Value>, count: nat, max: nat): Option<(seq<Value>, nat)>
    decreases |input|
  {
    if input == [] then Some((items, count))
    else if count >= max then None
    else match ReadNumber(s, input)
         case None => None
         case Some(p) => ReadPacked(s, p.1, Put(items, count, Num(p.0)), count + 1, max)
  }

  // ---- Messages. ----

  // The state of pb_decode_noinit: the struct, the iterator's place, the required fields seen, and
  // the fixed-count field that is being received with its count so far.
  datatype State = State(dest: Value, pos: nat, seen: set<nat>, fixedField: Option<nat>, fixedCount: nat)

  const MAX_REQUIRED_FIELDS: nat := 64

  function FixedDone(fields: seq<Field>, st: State): bool {
    match st.fixedField
    case None => true
    case Some(j) => j < |fields| && fields[j].rule.FixedCount? && st.fixedCount == fields[j].rule.count
  }

  // Before a field's value is read.
  function Entered(fields: seq<Field>, i: nat, st: State): Option<State>
    requires i < |fields|
  {
    var f := fields[i];
    if f.rule.FixedCount? && st.fixedField != Some(i) then
      if FixedDone(fields, st) then Some(st.(pos := i, fixedField := Some(i), fixedCount := 0)) else None
    else
      var n := RequiredBefore(fields, i);
      Some(st.(pos := i, seen := st.seen + (if f.rule.Required? && n < MAX_REQUIRED_FIELDS then {n} else {})))
  }

  function Current(slot: Slot): Value {
    match slot
    case One(v) => v
    case Maybe(_, v) => v
    case _ => Num(0)
  }

  // What a value is read over: a message reset, or anything.
  function Fresh(k: Kind): Value {
    if k.Message? then InitialRecord(k) else Num(0)
  }

  function WithSlot(dest: Value, i: nat, slot: Slot): Value
    requires dest.Record? && i < |dest.slots|
  {
    Record(dest.slots[i := slot], dest.unions)
  }

  // One more value into an array field, if there is room.
  function ReadItem(f: Field, input: Data, items: seq<Value>, count: nat, max: nat): (r: Option<(seq<Value>, nat, Data)>)
    ensures r.Some? ==> |r.value.2| <= |input|
    decreases |input|, 2
  {
    if count >= max then None
    else match ReadValue(f.kind, input, Fresh(f.kind))
         case None => None
         case Some(p) => Some((Put(items, count, p.0), count + 1, p.1))
  }

  // An array field: packed, where it can be and the wire type says so.
  function ReadArray(f: Field, wireType: nat, input: Data, items: seq<Value>, count: nat, max: nat): (r: Option<(seq<Value>, nat, Data)>)
    ensures r.Some? ==> |r.value.2| <= |input|
    decreases |input|, 3
  {
    if wireType == 2 && f.kind.Number? then
      match ReadString(input)
      case None => None
      case Some(p) =>
        match ReadPacked(f.kind.scalar, p.0, items, count, max)
        case None => None
        case Some(a) => Some((a.0, a.1, p.1))
    else
      ReadItem(f, input, items, count, max)
  }

  // decode_static_field: the struct, the count of a fixed-count field, and what is left.
  function ReadField(k: Kind, i: nat, wireType: nat, input: Data, dest: Value, count: nat): (r: Option<(Value, nat, Data)>)
    requires k.Message? && i < |k.fields|
    ensures r.Some? ==> |r.value.2| <= |input|
    decreases |input|, 4
  {
    var f := k.fields[i];
    if !dest.Record? || i >= |dest.slots| then None
    else
      var slot := dest.slots[i];
      match f.rule
      case Required =>
        (match ReadValue(f.kind, input, Current(slot))
         case None => None
         case Some(p) => Some((WithSlot(dest, i, One(p.0)), count, p.1)))
      case Singular =>
        (match ReadValue(f.kind, input, Current(slot))
         case None => None
         case Some(p) => Some((WithSlot(dest, i, One(p.0)), count, p.1)))
      case Optional =>
        (match ReadValue(f.kind, input, Current(slot))
         case None => None
         case Some(p) => Some((WithSlot(dest, i, Maybe(true, p.0)), count, p.1)))
      case Repeated(max) =>
        if !slot.Many? then None
        else
          (match ReadArray(f, wireType, input, slot.items, |slot.items|, max)
           case None => None
           case Some(p) => Some((WithSlot(dest, i, Many(p.0)), count, p.2)))
      case FixedCount(max) =>
        if !slot.Many? then None
        else
          (match ReadArray(f, wireType, input, slot.items, count, max)
           case None => None
           case Some(p) => Some((WithSlot(dest, i, Many(p.0)), p.1, p.2)))
      case OneOf(u) =>
        if u >= |dest.unions| then None
        else
          var c := dest.unions[u];
          (match ReadValue(f.kind, input, if f.kind.Message? && c.which != f.tag then InitialRecord(f.kind) else c.v)
           case None => None
           case Some(p) => Some((Record(dest.slots, dest.unions[u := Choice(f.tag, p.0)]), count, p.1)))
  }

  // The value of a field, without its tag, over what the field holds.
  function ReadValue(k: Kind, input: Data, current: Value): (r: Option<(Value, Data)>)
    ensures r.Some? ==> |r.value.1| < |input|
    decreases |input|, 1
  {
    match k
    case Number(s) => (match ReadNumber(s, input) case None => None case Some(p) => Some((Num(p.0), p.1)))
    case Bytes(room) =>
      (match ReadString(input)
       case None => None
       case Some(p) => if |p.0| > room then None else Some((Blob(p.0), p.1)))
    case String(room) =>
      (match ReadString(input)
       case None => None
       case Some(p) => if |p.0| + 1 > room then None else Some((Blob(p.0), p.1)))
    case FixedBytes(n) =>
      // Nothing at all stands for all zeros.
      (match ReadString(input)
       case None => None
       case Some(p) =>
         if p.0 == [] then Some((Blob(seq(n, _ => ByteOf(0))), p.1))
         else if |p.0| != n then None
         else Some((Blob(p.0), p.1)))
    case Message(_, _) =>
      (match ReadString(input)
       case None => None
       case Some(p) =>
         match DecodeInto(k, p.0, current)
         case None => None
         case Some(v) => Some((v, p.1)))
  }

  // The loop of pb_decode_noinit.
  function Run(k: Kind, input: Data, st: State): Option<State>
    requires k.Message?
    decreases |input|, 5
  {
    match ReadTag(input)
    case EndOfMessage => Some(st)
    case BadTag => None
    case Tag(wireType, tag, rest) =>
      if k.fields == [] && tag == 0 then
        // The entry that ends an empty table passes for a field, of type bool.
        (match Read32(rest) case None => None case Some(p) => Run(k, p.1, st))
      else
        match FindFrom(k.fields, st.pos, tag, |k.fields|)
        case None => (match Skip(wireType, rest) case None => None case Some(rest') => Run(k, rest', st))
        case Some(i) =>
          match Entered(k.fields, i, st)
          case None => None
          case Some(e) =>
            match ReadField(k, i, wireType, rest, e.dest, e.fixedCount)
            case None => None
            case Some(p) => Run(k, p.2, e.(dest := p.0, fixedCount := p.1))
  }

  // All required fields the bitmap has room for.
  predicate AllSeen(fields: seq<Field>, seen: set<nat>) {
    forall n: nat | n < RequiredBefore(fields, |fields|) && n < MAX_REQUIRED_FIELDS :: n in seen
  }

  function Start(dest: Value): State {
    State(dest, 0, {}, None, 0)
  }

  // pb_decode_noinit.
  function DecodeInto(k: Kind, input: Data, dest: Value): Option<Value>
    requires k.Message?
    decreases |input|, 6
  {
    match Run(k, input, Start(dest))
    case None => None
    case Some(st) => if FixedDone(k.fields, st) && AllSeen(k.fields, st.seen) then Some(st.dest) else None
  }

  // pb_decode.
  function Decode(k: Kind, input: Data): Option<Value>
    requires k.Message?
  {
    DecodeInto(k, input, InitialRecord(k))
  }

  // ---- The decoder. ----

  // The bytes from state on, bytes_left of them.
  class IStream {
    var rest: Data

    constructor (data: Data)
      ensures rest == data
    {
      rest := data;
    }

    method ReadByte() returns (b: Option<nat>)
      modifies this
      ensures old(rest) == [] ==> b == None && rest == []
      ensures old(rest) != [] ==> b == Some(NumberOf(old(rest)[0])) && rest == old(rest)[1..]
    {
      if |rest| == 0 {
        return None;
      }
      b := Some(NumberOf(rest[0]));
      rest := rest[1..];
    }

    method Read(count: nat) returns (buf: Option<Data>)
      modifies this
      ensures |old(rest)| < count ==> buf == None && rest == old(rest)
      ensures |old(rest)| >= count ==> buf == Some(old(rest)[..count]) && rest == old(rest)[count..]
    {
      if |rest| < count {
        return None;
      }
      buf := Some(rest[..count]);
      rest := rest[count..];
    }
  }

  // pb_decode_varint32_eof
  method DecodeVarint32(stream: IStream) returns (dest: Option<nat>, eof: bool)
    modifies stream
    ensures eof == (old(stream.rest) == [])
    ensures var r := Read32(old(stream.rest));
      dest.Some? == r.Some? && (r.Some? ==> dest.value == r.value.0 && stream.rest == r.value.1)
  {
    hide NumberOf, Or, ToBits, ToNat, Read32More;
    var byte := stream.ReadByte();
    if byte.None? {
      return None, true;
    }
    if byte.value < 128 {
      return byte, false;
    }
    var result: Word, bitpos: nat := ToBits(byte.value - 128, 32), 7;
    while true
      invariant bitpos < 256 && Read32(old(stream.rest)) == Read32More(stream.rest, result, bitpos)
      decreases |stream.rest|
    {
      MoreStep(stream.rest, result, bitpos);
      byte := stream.ReadByte();
      if byte.None? {
        return None, false;
      }
      var b := byte.value;
      if bitpos >= 32 {
        // All that may follow is nothing, or copies of the top bit.
        var signExtension := if bitpos < 63 then 0xff else 0x01;
        if b % 128 != 0 && (!result[31] || b != signExtension) {
          return None, false;
        }
      } else {
        result := Or(result, b % 128, bitpos);
      }
      bitpos := Onward(bitpos);
      if b < 128 {
        if bitpos == 35 && b / 16 % 8 != 0 {
          // Of the fifth group four bits are part of the number.
          return None, false;
        }
        return Some(ToNat(result)), false;
      }
    }
  }

  lemma MoreStep(s: Data, result: Word, bitpos: nat)
    ensures s == [] ==> Read32More(s, result, bitpos) == None
    ensures s != [] ==>
      var b := NumberOf(s[0]);
      var result' := if bitpos >= 32 then result else Or(result, b % 128, bitpos);
      var bad := if bitpos >= 32 then b % 128 != 0 && (!result[31] || b != (if bitpos < 63 then 0xff else 0x01))
                 else b < 128 && Onward(bitpos) == 35 && b / 16 % 8 != 0;
      Read32More(s, result, bitpos)
      == if bad then None else if b < 128 then Some((ToNat(result'), s[1..])) else Read32More(s[1..], result', Onward(bitpos))
    ensures 32 <= bitpos < 256 ==> Onward(bitpos) != 35
  {
    hide NumberOf, Or, ToNat;
  }

  // pb_decode_varint: at most ten groups, in 64 bits.
  method DecodeVarint(stream: IStream) returns (dest: Option<nat>)
    modifies stream
    ensures var r := ReadVarint64(old(stream.rest));
      dest.Some? == r.Some? && (r.Some? ==> dest.value == r.value.0 && stream.rest == r.value.1)
  {
    hide NumberOf, ParseVarint;
    var result: nat, scale: nat, groups: nat := 0, 1, 0;
    ScaledOnce(ParseVarint(stream.rest, 10));
    while true
      invariant groups <= 10
      invariant ParseVarint(old(stream.rest), 10) == Scaled(result, scale, ParseVarint(stream.rest, 10 - groups))
      decreases 10 - groups
    {
      NothingParsed(stream.rest, 10 - groups);
      if groups == 10 {
        return None;
      }
      ghost var was := stream.rest;
      var byte := stream.ReadByte();
      if byte.None? {
        return None;
      }
      ScaledStep(result, scale, was, 10 - groups);
      if byte.value < 128 {
        return Some((result + scale * byte.value) % 0x1_0000_0000_0000_0000);
      }
      result := result + scale * (byte.value - 128);
      scale := 128 * scale;
      groups := groups + 1;
    }
  }

  method DecodeTag(stream: IStream) returns (r: TagRead)
    modifies stream
    ensures r == ReadTag(old(stream.rest)) && (r.Tag? ==> stream.rest == r.rest)
  {
    hide Read32;
    var temp, eof := DecodeVarint32(stream);
    if temp.None? {
      return if eof then EndOfMessage else BadTag;
    }
    if temp.value == 0 {
      return EndOfMessage;
    }
    return Tag(temp.value % 8, temp.value / 8, stream.rest);
  }

  // pb_make_string_substream, and closing it: the stream goes on after all of it.
  method MakeSubstream(stream: IStream) returns (sub: IStream?)
    modifies stream
    ensures var r := ReadString(old(stream.rest));
      && (sub != null) == r.Some? && (sub != null ==> fresh(sub) && sub.rest == r.value.0 && stream.rest == r.value.1)
  {
    hide Read32;
    var size, _ := DecodeVarint32(stream);
    if size.None? || |stream.rest| < size.value {
      return null;
    }
    sub := new IStream(stream.rest[..size.value]);
    stream.rest := stream.rest[size.value..];
  }

  method SkipField(stream: IStream, wireType: nat) returns (ok: bool)
    modifies stream
    ensures var r := Skip(wireType, old(stream.rest));
      ok == r.Some? && (ok ==> stream.rest == r.value)
  {
    hide Read32, NumberOf;
    if wireType == 0 {
      var byte := stream.ReadByte();
      while byte.Some? && byte.value >= 128
        invariant if byte.Some? && byte.value < 128 then SkipVarint(old(stream.rest)) == Some(stream.rest)
                  else SkipVarint(old(stream.rest)) == if byte.Some? then SkipVarint(stream.rest) else None
        decreases |stream.rest|, byte.Some?
      {
        byte := stream.ReadByte();
      }
      return byte.Some?;
    } else if wireType == 1 || wireType == 5 {
      var bytes := stream.Read(if wireType == 1 then 8 else 4);
      return bytes.Some?;
    } else if wireType == 2 {
      var sub := MakeSubstream(stream);
      return sub != null;
    }
    return false;
  }

  method DecodeNumber(stream: IStream, s: Scalar) returns (n: Option<int>)
    modifies stream
    ensures var r := ReadNumber(s, old(stream.rest));
      n.Some? == r.Some? && (r.Some? ==> n.value == r.value.0 && stream.rest == r.value.1)
  {
    hide Read32, ReadFixed32, ReadVarint64, FromVarint;
    match s
    case Bool =>
      var v, _ := DecodeVarint32(stream);
      return if v.None? then None else Some(if v.value != 0 then 1 else 0);
    case Word32 =>
      ghost var was := stream.rest;
      var bytes := stream.Read(4);
      if bytes.Some? {
        SameWord(was, bytes.value);
      }
      return if bytes.None? then None else Some(ReadFixed32(bytes.value));
    case Word64 =>
      ghost var was := stream.rest;
      var bytes := stream.Read(8);
      if bytes.Some? {
        SameWord(was, bytes.value);
        SameWord(was[4..], bytes.value[4..]);
      }
      return if bytes.None? then None else Some(ReadFixed64(bytes.value));
    case _ =>
      var v := DecodeVarint(stream);
      return if v.None? then None else FromVarint(s, v.value);
  }

  lemma SameWord(a: Data, b: Data)
    requires |a| >= |b| >= 4 && b == a[..|b|]
    ensures ReadFixed32(a) == ReadFixed32(b)
  {
    assert forall i | 0 <= i < 4 :: a[i] == b[i];
  }

  // A packed array's items, into the array as far as there is room.
  method DecodePacked(sub: IStream, s: Scalar, items: seq<Value>, count: nat, max: nat) returns (r: Option<(seq<Value>, nat)>)
    modifies sub
    ensures r == ReadPacked(s, old(sub.rest), items, count, max)
  {
    hide ReadNumber, Put;
    var out, size: nat := items, count;
    while |sub.rest| > 0 && size < max
      invariant ReadPacked(s, old(sub.rest), items, count, max) == ReadPacked(s, sub.rest, out, size, max)
      decreases |sub.rest|
    {
      var n := DecodeNumber(sub, s);
      if n.None? {
        return None;
      }
      out, size := Put(out, size, Num(n.value)), size + 1;
    }
    return if |sub.rest| != 0 then None else Some((out, size));
  }

  method DecodeArray(stream: IStream, f: Field, wireType: nat, items: seq<Value>, count: nat, max: nat)
    returns (r: Option<(seq<Value>, nat)>)
    modifies stream
    ensures var a := ReadArray(f, wireType, old(stream.rest), items, count, max);
      r.Some? == a.Some? && (r.Some? ==> r.value == (a.value.0, a.value.1) && stream.rest == a.value.2)
    decreases |stream.rest|, 2
  {
    hide ReadString, ReadPacked, ReadValue, Put, Fresh;
    if wireType == 2 && f.kind.Number? {
      var sub := MakeSubstream(stream);
      if sub == null {
        return None;
      }
      r := DecodePacked(sub, f.kind.scalar, items, count, max);
    } else {
      if count >= max {
        return None;
      }
      var v := DecodeValue(stream, f.kind, Fresh(f.kind));
      return if v.None? then None else Some((Put(items, count, v.value), count + 1));
    }
  }

  // decode_static_field
  method DecodeField(stream: IStream, k: Kind, i: nat, wireType: nat, dest: Value, count: nat) returns (r: Option<(Value, nat)>)
    requires k.Message? && i < |k.fields|
    modifies stream
    ensures var a := ReadField(k, i, wireType, old(stream.rest), dest, count);
      r.Some? == a.Some? && (r.Some? ==> r.value == (a.value.0, a.value.1) && stream.rest == a.value.2)
    decreases |stream.rest|, 3
  {
    hide ReadValue, ReadArray;
    var f := k.fields[i];
    if !dest.Record? || i >= |dest.slots| {
      return None;
    }
    var slot := dest.slots[i];
    match f.rule {
      case Repeated(max) =>
        if !slot.Many? {
          return None;
        }
        var a := DecodeArray(stream, f, wireType, slot.items, |slot.items|, max);
        return if a.None? then None else Some((WithSlot(dest, i, Many(a.value.0)), count));
      case FixedCount(max) =>
        if !slot.Many? {
          return None;
        }
        var a := DecodeArray(stream, f, wireType, slot.items, count, max);
        return if a.None? then None else Some((WithSlot(dest, i, Many(a.value.0)), a.value.1));
      case OneOf(u) =>
        if u >= |dest.unions| {
          return None;
        }
        var c := dest.unions[u];
        var v := DecodeValue(stream, f.kind, if f.kind.Message? && c.which != f.tag then InitialRecord(f.kind) else c.v);
        return if v.None? then None else Some((Record(dest.slots, dest.unions[u := Choice(f.tag, v.value)]), count));
      case Optional =>
        var v := DecodeValue(stream, f.kind, Current(slot));
        return if v.None? then None else Some((WithSlot(dest, i, Maybe(true, v.value)), count));
      case _ =>
        var v := DecodeValue(stream, f.kind, Current(slot));
        return if v.None? then None else Some((WithSlot(dest, i, One(v.value)), count));
    }
  }

  method DecodeValue(stream: IStream, k: Kind, current: Value) returns (v: Option<Value>)
    modifies stream
    ensures var a := ReadValue(k, old(stream.rest), current);
      v.Some? == a.Some? && (v.Some? ==> v.value == a.value.0 && stream.rest == a.value.1)
    decreases |stream.rest|, 1
  {
    hide ReadString, ReadNumber, DecodeInto;
    if k.Number? {
      var n := DecodeNumber(stream, k.scalar);
      return if n.None? then None else Some(Num(n.value));
    }
    var sub := MakeSubstream(stream);
    if sub == null {
      return None;
    }
    match k
    case Bytes(room) => return if |sub.rest| > room then None else Some(Blob(sub.rest));
    case String(room) => return if |sub.rest| + 1 > room then None else Some(Blob(sub.rest));
    case FixedBytes(n) =>
      if |sub.rest| == 0 {
        return Some(Blob(seq(n, _ => ByteOf(0))));
      }
      return if |sub.rest| != n then None else Some(Blob(sub.rest));
    case Message(_, _) => v := DecodeNoInit(sub, k, current);
  }

  // The bitmap of required fields, in words of 32 bits.
  function SeenSet(bits: seq<bool>): set<nat> {
    set n: nat | n < |bits| && bits[n]
  }

  function Word(bits: seq<bool>, i: nat): seq<bool>
    requires 32 * i + 32 <= |bits|
  {
    bits[32 * i..32 * i + 32]
  }

  // allbits >> (32 - n)
  function LowBits(n: nat): (r: seq<bool>)
    ensures |r| == 32 && forall j | 0 <= j < 32 :: r[j] <==> j < n
  {
    seq(32, j => j < n)
  }

  // Whole words first, then the remaining bits.
  method AllRequired(bits: seq<bool>, count: nat) returns (ok: bool)
    requires |bits| == 64 && count <= 64 && forall n: nat | count <= n < 64 :: !bits[n]
    ensures ok <==> forall n: nat | n < count :: bits[n]
  {
    var i := 0;
    while i < count / 32
      invariant i <= count / 32 && forall n: nat | n < 32 * i :: bits[n]
    {
      if Word(bits, i) != LowBits(32) {
        OneMissing(bits, i, 32);
        return false;
      }
      WordSet(bits, i, 32);
      i := i + 1;
    }
    if count % 32 != 0 {
      if Word(bits, i) != LowBits(count % 32) {
        OneMissing(bits, i, count % 32);
        return false;
      }
      WordSet(bits, i, count % 32);
    }
    return true;
  }

  lemma WordSet(bits: seq<bool>, i: nat, n: nat)
    requires 32 * i + 32 <= |bits| && n <= 32 && Word(bits, i) == LowBits(n)
    ensures forall m: nat | 32 * i <= m < 32 * i + n :: bits[m]
  {
    forall m: nat | 32 * i <= m < 32 * i + n
      ensures bits[m]
    {
      assert bits[m] == Word(bits, i)[m - 32 * i];
    }
  }

  lemma OneMissing(bits: seq<bool>, i: nat, n: nat)
    requires 32 * i + 32 <= |bits| && n <= 32 && Word(bits, i) != LowBits(n)
    requires forall m: nat | 32 * i + n <= m < 32 * i + 32 :: !bits[m]
    ensures exists m: nat :: 32 * i <= m < 32 * i + n && !bits[m]
  {
    var j :| 0 <= j < 32 && Word(bits, i)[j] != LowBits(n)[j];
    assert bits[32 * i + j] == Word(bits, i)[j];
  }

  lemma {:induction false} RequiredGrows(fields: seq<Field>, i: nat, j: nat)
    requires i <= j <= |fields|
    ensures RequiredBefore(fields, i) <= RequiredBefore(fields, j)
    decreases j
  {
    if i < j {
      RequiredGrows(fields, i, j - 1);
    }
  }

  // How many required fields there are, found by taking the iterator to the end.
  method CountRequired(iter: FieldIter) returns (count: nat)
    requires iter.Valid()
    modifies iter
    ensures count == RequiredBefore(iter.fields, |iter.fields|)
  {
    if |iter.fields| == 0 {
      return 0;
    }
    var lastRequired, more := false, true;
    count := 0;
    while more
      invariant iter.Valid()
      invariant !more ==> count + (if lastRequired then 1 else 0) == RequiredBefore(iter.fields, |iter.fields|)
      decreases more, |iter.fields| - iter.pos
    {
      count, lastRequired := iter.requiredFieldIndex, iter.fields[iter.pos].rule.Required?;
      more := iter.Next();
    }
    count := count + if lastRequired then 1 else 0;
  }

  ghost predicate Bitmap(k: Kind, bits: seq<bool>, fixedField: Option<nat>)
    requires k.Message?
  {
    && |bits| == 64 && (forall n: nat | n < 64 && bits[n] :: n < RequiredBefore(k.fields, |k.fields|))
    && (fixedField.Some? ==> fixedField.value < |k.fields| && k.fields[fixedField.value].rule.FixedCount?)
  }

  // A field has been found: the bookkeeping before its value is read.
  method EnterField(k: Kind, iter: FieldIter, ghost dest: Value, bits: seq<bool>, fixedField: Option<nat>, fixedCount: nat, ghost st: State)
    returns (ok: bool, bits': seq<bool>, fixedField': Option<nat>, fixedCount': nat)
    requires k.Message? && iter.Valid() && iter.fields == k.fields && k.fields != [] && Bitmap(k, bits, fixedField)
    requires st == State(dest, st.pos, SeenSet(bits), fixedField, fixedCount)
    ensures Bitmap(k, bits', fixedField') && ok == Entered(k.fields, iter.pos, st).Some?
    ensures ok ==> Entered(k.fields, iter.pos, st).value == State(dest, iter.pos, SeenSet(bits'), fixedField', fixedCount')
  {
    bits', fixedField', fixedCount' := bits, fixedField, fixedCount;
    var f := k.fields[iter.pos];
    assert SeenSet(bits) + {} == SeenSet(bits);
    if f.rule.FixedCount? && fixedField != Some(iter.pos) {
      if fixedField.Some? && fixedCount != k.fields[fixedField.value].rule.count {
        return false, bits', fixedField', fixedCount';
      }
      fixedField', fixedCount' := Some(iter.pos), 0;
    }
    if f.rule.Required? && iter.requiredFieldIndex < MAX_REQUIRED_FIELDS {
      RequiredGrows(k.fields, iter.pos + 1, |k.fields|);
      SeenMore(bits, iter.requiredFieldIndex);
      bits' := bits[iter.requiredFieldIndex := true];
    }
    ok := true;
  }

  // pb_decode_noinit
  method DecodeNoInit(stream: IStream, k: Kind, message: Value) returns (r: Option<Value>)
    requires k.Message?
    modifies stream
    ensures r == DecodeInto(k, old(stream.rest), message)
    decreases |stream.rest|, 4
  {
    hide ReadTag, ReadField, Skip, Read32, FindFrom, Run, DecodeInto, AllSeen, Entered, SeenSet;
    var fieldsSeen: seq<bool> := Blank(64);
    var iter := new FieldIter(k.fields);
    var dest, eof := message, false;
    var fixedField: Option<nat>, fixedCount: nat := None, 0;
    NoneSeen();
    while |stream.rest| > 0 && !eof
      invariant iter.Valid() && fresh(iter) && iter.fields == k.fields && Bitmap(k, fieldsSeen, fixedField)
      invariant Goes(k, old(stream.rest), message, stream.rest, State(dest, iter.pos, SeenSet(fieldsSeen), fixedField, fixedCount), eof)
      decreases if eof then 0 else |stream.rest| + 1
    {
      ghost var was := stream.rest;
      ghost var st := State(dest, iter.pos, SeenSet(fieldsSeen), fixedField, fixedCount);
      var t := DecodeTag(stream);
      if !t.Tag? {
        StopTurn(k, was, st);
        if t.BadTag? {
          Stuck(k, old(stream.rest), message, was, st);
          return None;
        }
        eof := true;
        continue;
      }
      if |k.fields| == 0 && t.tag == 0 {
        EmptyTurn(k, was, st, t);
        var b, _ := DecodeVarint32(stream);
        if b.None? {
          Stuck(k, old(stream.rest), message, was, st);
          return None;
        }
        continue;
      }
      var found := iter.Find(t.tag);
      if !found {
        SkipTurn(k, was, st, t);
        var ok := SkipField(stream, t.wireType);
        if !ok {
          Stuck(k, old(stream.rest), message, was, st);
          return None;
        }
        continue;
      }
      FieldTurn(k, was, st, t, iter.pos);
      var ok;
      ok, fieldsSeen, fixedField, fixedCount := EnterField(k, iter, dest, fieldsSeen, fixedField, fixedCount, st);
      if !ok {
        Stuck(k, old(stream.rest), message, was, st);
        return None;
      }
      var a := DecodeField(stream, k, iter.pos, t.wireType, dest, fixedCount);
      if a.None? {
        Stuck(k, old(stream.rest), message, was, st);
        return None;
      }
      dest, fixedCount := a.value.0, a.value.1;
    }
    Finishes(k, old(stream.rest), message, stream.rest, State(dest, iter.pos, SeenSet(fieldsSeen), fixedField, fixedCount), eof);
    if fixedField.Some? && fixedCount != k.fields[fixedField.value].rule.count {
      return None;
    }
    var reqFieldCount := CountRequired(iter);
    if reqFieldCount > MAX_REQUIRED_FIELDS {
      reqFieldCount := MAX_REQUIRED_FIELDS;
    }
    var complete := AllRequired(fieldsSeen, reqFieldCount);
    AllSeenIs(k.fields, fieldsSeen);
    return if complete then Some(dest) else None;
  }

  // The loop has come this far: what is to come of it is what comes from here.
  ghost predicate Goes(k: Kind, input: Data, message: Value, rest: Data, st: State, eof: bool)
    requires k.Message?
  {
    Run(k, input, Start(message)) == if eof then Some(st) else Run(k, rest, st)
  }

  lemma Finishes(k: Kind, input: Data, message: Value, rest: Data, st: State, eof: bool)
    requires k.Message? && Goes(k, input, message, rest, st, eof) && (rest == [] || eof)
    ensures DecodeInto(k, input, message)
         == if FixedDone(k.fields, st) && AllSeen(k.fields, st.seen) then Some(st.dest) else None
  {
    assert ReadTag([]) == EndOfMessage;
  }

  lemma Stuck(k: Kind, input: Data, message: Value, rest: Data, st: State)
    requires k.Message? && Goes(k, input, message, rest, st, false) && Run(k, rest, st) == None
    ensures DecodeInto(k, input, message) == None
  {
  }

  lemma AllSeenIs(fields: seq<Field>, bits: seq<bool>)
    requires |bits| == 64
    ensures AllSeen(fields, SeenSet(bits)) <==> forall n: nat | n < RequiredBefore(fields, |fields|) && n < 64 :: bits[n]
  {
    assert forall n: nat | n < 64 :: n in SeenSet(bits) <==> bits[n];
  }

  // One turn of the loop, by what the tag says.
  lemma EmptyTurn(k: Kind, s: Data, st: State, t: TagRead)
    requires k.Message? && k.fields == [] && t == ReadTag(s) && t.Tag? && t.tag == 0
    ensures Run(k, s, st) == match Read32(t.rest) case None => None case Some(p) => Run(k, p.1, st)
  {
    hide Read32, ReadTag;
  }

  lemma SkipTurn(k: Kind, s: Data, st: State, t: TagRead)
    requires k.Message? && !(k.fields == [] && t.Tag? && t.tag == 0) && t == ReadTag(s) && t.Tag?
    requires FindFrom(k.fields, st.pos, t.tag, |k.fields|) == None
    ensures Run(k, s, st) == match Skip(t.wireType, t.rest) case None => None case Some(rest) => Run(k, rest, st)
  {
    hide Skip, ReadTag, FindFrom;
  }

  lemma FieldTurn(k: Kind, s: Data, st: State, t: TagRead, i: nat)
    requires k.Message? && t == ReadTag(s) && t.Tag? && FindFrom(k.fields, st.pos, t.tag, |k.fields|) == Some(i)
    ensures i < |k.fields| && Run(k, s, st)
         == match Entered(k.fields, i, st)
            case None => None
            case Some(e) =>
              match ReadField(k, i, t.wireType, t.rest, e.dest, e.fixedCount)
              case None => None
              case Some(p) => Run(k, p.2, e.(dest := p.0, fixedCount := p.1))
  {
    hide Entered, ReadField, ReadTag, FindFrom;
  }

  lemma StopTurn(k: Kind, s: Data, st: State)
    requires k.Message? && !ReadTag(s).Tag?
    ensures Run(k, s, st) == if ReadTag(s).EndOfMessage? then Some(st) else None
  {
    hide ReadTag;
  }

  lemma NoneSeen()
    ensures SeenSet(Blank(64)) == {}
  {
  }

  lemma SeenMore(bits: seq<bool>, n: nat)
    requires n < |bits|
    ensures SeenSet(bits[n := true]) == SeenSet(bits) + {n}
  {
  }

  // pb_decode
  method DecodeMessage(k: Kind, data: Data) returns (r: Option<Value>)
    requires k.Message?
    ensures r == Decode(k, data)
  {
    var stream := new IStream(data);
    r := DecodeNoInit(stream, k, InitialRecord(k));
  }

  // ---- What a decode has seen. ----

  // The fields whose values the loop reads.
  ghost function Visited(k: Kind, input: Data, st: State): set<nat>
    requires k.Message?
    decreases |input|
  {
    match ReadTag(input)
    case EndOfMessage => {}
    case BadTag => {}
    case Tag(wireType, tag, rest) =>
      if k.fields == [] && tag == 0 then
        (match Read32(rest) case None => {} case Some(p) => Visited(k, p.1, st))
      else
        match FindFrom(k.fields, st.pos, tag, |k.fields|)
        case None => (match Skip(wireType, rest) case None => {} case Some(rest') => Visited(k, rest', st))
        case Some(i) =>
          match Entered(k.fields, i, st)
          case None => {}
          case Some(e) =>
            match ReadField(k, i, wireType, rest, e.dest, e.fixedCount)
            case None => {}
            case Some(p) => {i} + Visited(k, p.2, e.(dest := p.0, fixedCount := p.1))
  }

  ghost predicate Tracked(fields: seq<Field>, i: nat) {
    i < |fields| && fields[i].rule.Required? && RequiredBefore(fields, i) < MAX_REQUIRED_FIELDS
  }

  lemma {:induction false} SeenIsVisited(k: Kind, input: Data, st: State, i: nat)
    requires k.Message? && Run(k, input, st).Some? && Tracked(k.fields, i)
    ensures RequiredBefore(k.fields, i) in Run(k, input, st).value.seen
       <==> RequiredBefore(k.fields, i) in st.seen || i in Visited(k, input, st)
    decreases |input|
  {
    hide ReadTag, Read32, Skip, FindFrom, Entered, ReadField, RequiredBefore;
    var t := ReadTag(input);
    if t.Tag? {
      var j := FindFrom(k.fields, st.pos, t.tag, |k.fields|);
      if j.None? {
        SeenIsVisited(k, Skip(t.wireType, t.rest).value, st, i);
      } else {
        var e := Entered(k.fields, j.value, st).value;
        var p := ReadField(k, j.value, t.wireType, t.rest, e.dest, e.fixedCount).value;
        EnteredSees(k.fields, j.value, st, i);
        SeenIsVisited(k, p.2, e.(dest := p.0, fixedCount := p.1), i);
      }
    }
  }

  lemma EnteredSees(fields: seq<Field>, j: nat, st: State, i: nat)
    requires j < |fields| && Entered(fields, j, st).Some? && Tracked(fields, i)
    ensures RequiredBefore(fields, i) in Entered(fields, j, st).value.seen <==> RequiredBefore(fields, i) in st.seen || i == j
  {
    if i < j {
      RequiredGrows(fields, i + 1, j);
    } else if j < i {
      RequiredGrows(fields, j + 1, i);
    }
  }

  // The n-th required field.
  lemma {:induction false} NthRequired(fields: seq<Field>, n: nat, end: nat) returns (i: nat)
    requires end <= |fields| && n < RequiredBefore(fields, end)
    ensures i < end && fields[i].rule.Required? && RequiredBefore(fields, i) == n
    decreases end
  {
    if n < RequiredBefore(fields, end - 1) {
      i := NthRequired(fields, n, end - 1);
    } else {
      i := end - 1;
    }
  }

  // A decode that gets through its input succeeds exactly if no fixed-count field is left short and
  // every tracked required field has been read.
  lemma SucceedsIfSeen(k: Kind, input: Data, dest: Value)
    requires k.Message?
    ensures DecodeInto(k, input, dest).Some? <==>
      && Run(k, input, Start(dest)).Some? && FixedDone(k.fields, Run(k, input, Start(dest)).value)
      && forall i: nat | Tracked(k.fields, i) :: i in Visited(k, input, Start(dest))
  {
    hide Run, Visited, FixedDone;
    var run, visited := Run(k, input, Start(dest)), Visited(k, input, Start(dest));
    if run.Some? {
      if AllSeen(k.fields, run.value.seen) {
        forall i: nat | Tracked(k.fields, i)
          ensures i in visited
        {
          RequiredGrows(k.fields, i + 1, |k.fields|);
          SeenIsVisited(k, input, Start(dest), i);
        }
      }
      if forall i: nat | Tracked(k.fields, i) :: i in visited {
        forall n: nat | n < RequiredBefore(k.fields, |k.fields|) && n < MAX_REQUIRED_FIELDS
          ensures n in run.value.seen
        {
          var i := NthRequired(k.fields, n, |k.fields|);
          SeenIsVisited(k, input, Start(dest), i);
        }
      }
    }
  }
}
