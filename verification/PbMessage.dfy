// Messages and their descriptors, as nanopb's generated tables give them (nanopb pb.h, pb_common.c).

module PbMessages {
  import opened Bits
  import opened History

  // data_size of an integer field, in bytes.
  type Width = w: nat | w == 1 || w == 2 || w == 4 || w == 8 witness 1

  datatype Scalar = Bool | Int(width: Width) | UInt(width: Width) | SInt(width: Width) | Word32 | Word64

  // The room of a string includes its terminating zero.
  datatype Kind =
    | Number(scalar: Scalar)
    | Bytes(room: nat)
    | String(room: nat)
    | FixedBytes(size: nat)
    | Message(fields: seq<Field>, unions: nat)

  datatype Rule = Required | Optional | Singular | Repeated(max: nat) | FixedCount(count: nat) | OneOf(union: nat)

  // The value a field is reset to, where it is no message.
  datatype Field = Field(tag: nat, rule: Rule, kind: Kind, initial: Value)

  // A message struct: one slot a field, and the unions that members of a oneof share.
  datatype Value = Num(n: int) | Blob(data: Data) | Record(slots: seq<Slot>, unions: seq<Choice>)

  datatype Slot = One(v: Value) | Maybe(has: bool, v: Value) | Many(items: seq<Value>) | Shared

  datatype Choice = Choice(which: nat, v: Value)

  // ---- Well-formed descriptors. ----

  ghost predicate FieldFormed(f: Field, unions: nat) {
    && 1 <= f.tag < 0x2000_0000
    && (f.rule.OneOf? ==> f.rule.union < unions) && (f.rule.FixedCount? ==> f.rule.count >= 1)
  }

  ghost predicate WellFormed(k: Kind)
    decreases k
  {
    k.Message? ==>
      && (forall i, j | 0 <= i < j < |k.fields| :: k.fields[i].tag != k.fields[j].tag)
      && forall i | 0 <= i < |k.fields| :: FieldFormed(k.fields[i], k.unions) && WellFormed(k.fields[i].kind)
  }

  // ---- Values of a kind. ----

  predicate Signed(n: int, width: Width) {
    if width == 1 then -0x80 <= n < 0x80
    else if width == 2 then -0x8000 <= n < 0x8000
    else if width == 4 then -0x8000_0000 <= n < 0x8000_0000
    else -0x8000_0000_0000_0000 <= n < 0x8000_0000_0000_0000
  }

  predicate Unsigned(n: int, width: Width) {
    if width == 1 then 0 <= n < 0x100
    else if width == 2 then 0 <= n < 0x1_0000
    else if width == 4 then 0 <= n < 0x1_0000_0000
    else 0 <= n < 0x1_0000_0000_0000_0000
  }

  predicate InRange(s: Scalar, n: int) {
    match s
    case Bool => n == 0 || n == 1
    case Int(w) => Signed(n, w)
    case UInt(w) => Unsigned(n, w)
    case SInt(w) => Signed(n, w)
    case Word32 => Unsigned(n, 4)
    case Word64 => Unsigned(n, 8)
  }

  // What is before the first zero of a string.
  ghost predicate IsText(data: Data) {
    forall b | b in data :: NumberOf(b) != 0
  }

  // A field of a struct, as its rule lays it out.
  ghost predicate SlotTyped(f: Field, slot: Slot, unions: seq<Choice>)
    decreases f
  {
    match f.rule
    case Required => slot.One? && Typed(f.kind, slot.v)
    case Singular => slot.One? && Typed(f.kind, slot.v)
    case Optional => slot.Maybe? && Typed(f.kind, slot.v)
    case Repeated(max) => slot.Many? && forall v | v in slot.items :: Typed(f.kind, v)
    case FixedCount(n) => slot.Many? && |slot.items| == n && forall v | v in slot.items :: Typed(f.kind, v)
    case OneOf(u) => slot.Shared? && u < |unions| && (unions[u].which == f.tag ==> Typed(f.kind, unions[u].v))
  }

  ghost predicate Typed(k: Kind, v: Value)
    decreases k
  {
    match k
    case Number(s) => v.Num? && InRange(s, v.n)
    case Bytes(_) => v.Blob?
    case String(room) => v.Blob? && |v.data| <= room && IsText(v.data)
    case FixedBytes(n) => v.Blob? && |v.data| == n
    case Message(fields, unions) =>
      && v.Record? && |v.slots| == |fields| && |v.unions| == unions
      && forall i | 0 <= i < |fields| :: SlotTyped(fields[i], v.slots[i], v.unions)
  }

  // ---- Resetting a message: pb_message_set_to_defaults. ----

  // The data of a field; what is in a union or in the unused part of an array is of no account.
  function Initial(f: Field): Value
    decreases f, 0
  {
    if f.kind.Message? then InitialRecord(f.kind) else f.initial
  }

  function InitialSlot(f: Field): Slot
    decreases f, 1
  {
    match f.rule
    case Required => One(Initial(f))
    case Singular => One(Initial(f))
    case Optional => Maybe(false, Initial(f))
    case Repeated(_) => Many([])
    case FixedCount(n) => Many(seq(n, _ => Num(0)))
    case OneOf(_) => Shared
  }

  function InitialRecord(k: Kind): (r: Value)
    requires k.Message?
    ensures r.Record? && |r.slots| == |k.fields| && |r.unions| == k.unions
    decreases k
  {
    Record(seq(|k.fields|, i requires 0 <= i < |k.fields| => InitialSlot(k.fields[i])), seq(k.unions, _ => Choice(0, Num(0))))
  }

  // ---- The field iterator (pb_common.c). ----

  // pb_field_iter_find: the first field with the tag from the iterator's place on, and around.
  function FindFrom(fields: seq<Field>, pos: nat, tag: nat, steps: nat): (r: Option<nat>)
    ensures r.Some? ==> r.value < |fields| && fields[r.value].tag == tag
    decreases steps
  {
    if steps == 0 || pos >= |fields| then None
    else if fields[pos].tag == tag then Some(pos)
    else FindFrom(fields, Wrapped(fields, pos), tag, steps - 1)
  }

  // One field on, from the last to the first.
  function Wrapped(fields: seq<Field>, pos: nat): nat {
    if pos + 1 >= |fields| then 0 else pos + 1
  }

  // How many required fields come before field i.
  function RequiredBefore(fields: seq<Field>, i: nat): (r: nat)
    requires i <= |fields|
    ensures r <= i
  {
    if i == 0 then 0 else RequiredBefore(fields, i - 1) + (if fields[i - 1].rule.Required? then 1 else 0)
  }

  class FieldIter {
    const fields: seq<Field>
    var pos: nat
    var requiredFieldIndex: nat

    ghost predicate Valid()
      reads this
    {
      && (if fields == [] then pos == 0 else pos < |fields|)
      && requiredFieldIndex == RequiredBefore(fields, pos)
    }

    constructor (fields: seq<Field>)
      ensures Valid() && this.fields == fields && pos == 0
    {
      this.fields, pos, requiredFieldIndex := fields, 0, 0;
    }

    // Whether there is a next field; after the last one the iterator is on the first again.
    method Next() returns (more: bool)
      requires Valid()
      modifies this
      ensures Valid() && more == (old(pos) + 1 < |fields|) && pos == Wrapped(fields, old(pos))
    {
      if |fields| == 0 {
        return false;
      }
      var prev := fields[pos];
      pos := pos + 1;
      if pos == |fields| {
        pos, requiredFieldIndex := 0, 0;
        return false;
      }
      if prev.rule.Required? {
        requiredFieldIndex := requiredFieldIndex + 1;
      }
      return true;
    }

    // The field found is the first from here around; where there is none the iterator is back.
    method Find(tag: nat) returns (found: bool)
      requires Valid()
      modifies this
      ensures Valid() && found == FindFrom(fields, old(pos), tag, |fields|).Some?
      ensures pos == if found then FindFrom(fields, old(pos), tag, |fields|).value else old(pos)
    {
      if |fields| == 0 {
        return false;
      }
      var start, around := pos, false;
      ghost var steps := 0;
      while !around
        invariant Valid() && steps <= |fields| && start < |fields|
        invariant if around then steps == |fields| && pos == start
                  else steps < |fields| && pos == if start + steps < |fields| then start + steps else start + steps - |fields|
        invariant FindFrom(fields, start, tag, |fields|) == FindFrom(fields, pos, tag, |fields| - steps)
        decreases |fields| - steps
      {
        if fields[pos].tag == tag {
          return true;
        }
        var _ := Next();
        steps := steps + 1;
        around := pos == start;
      }
      return false;
    }
  }
}
