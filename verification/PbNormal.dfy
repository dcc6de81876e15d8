// What a decoded message keeps of the one that was sent.

module PbNormals {
  import opened Coding
  import opened History
  import opened PbMessages
  import opened PbEncoding
  import opened PbDecoding
  import opened PbRoundTrips

  // ---- Once is enough. ----

  lemma {:induction false} NormalBlanks(k: Kind, items: seq<Value>)
    requires forall i | 0 <= i < |items| :: items[i] == Num(0)
    ensures NormalAll(k, items) == items
    decreases |items|
  {
    if items != [] {
      NormalBlanks(k, items[..|items| - 1]);
    }
  }

  lemma {:induction false} MemberNone(fields: seq<Field>, u: nat)
    requires forall f | f in fields :: f.tag != 0
    ensures Member(fields, u, 0) == None
  {
    if fields != [] {
      assert fields[|fields| - 1] in fields;
      MemberNone(fields[..|fields| - 1], u);
    }
  }

  lemma FieldTags(k: Kind)
    requires k.Message? && WellFormed(k)
    ensures forall f | f in k.fields :: f.tag != 0
  {
    hide WellFormed;
    forall f | f in k.fields
      ensures f.tag != 0
    {
      var i: nat :| i < |k.fields| && k.fields[i] == f;
      FieldFormedAt(k, i);
    }
  }

  lemma FieldFormedAt(k: Kind, i: nat)
    requires k.Message? && WellFormed(k) && i < |k.fields|
    ensures FieldFormed(k.fields[i], k.unions) && WellFormed(k.fields[i].kind)
  {
  }

  // A message reset is as it would be decoded.
  lemma {:induction false} InitialIsNormal(k: Kind)
    requires k.Message? && WellFormed(k)
    ensures Normal(k, InitialRecord(k)) == InitialRecord(k)
    decreases k
  {
    hide WellFormed, NormalSlot, InitialSlot, NormalChoice;
    var r := InitialRecord(k);
    forall i | 0 <= i < |k.fields|
      ensures NormalSlot(k.fields[i], r.slots[i]) == InitialSlot(k.fields[i])
    {
      FieldFormedAt(k, i);
      InitialSlotIsNormal(k.fields[i]);
    }
    forall u | 0 <= u < k.unions
      ensures NormalChoice(k, |k.fields|, u, r.unions[u]) == Choice(0, Num(0))
    {
      FieldTags(k);
      MemberNone(k.fields, u);
      NoMember(k, u);
    }
    assert NormalUpTo(k, |k.fields|, r).slots == r.slots;
    assert NormalUpTo(k, |k.fields|, r).unions == r.unions;
  }

  lemma NoMember(k: Kind, u: nat)
    requires k.Message? && Member(k.fields, u, 0) == None
    ensures NormalChoice(k, |k.fields|, u, Choice(0, Num(0))) == Choice(0, Num(0))
  {
  }

  lemma {:induction false} InitialSlotIsNormal(f: Field)
    requires WellFormed(f.kind)
    ensures NormalSlot(f, InitialSlot(f)) == InitialSlot(f)
    decreases f
  {
    hide WellFormed, InitialRecord, IsDefault;
    if f.kind.Message? {
      InitialIsNormal(f.kind);
    }
    assert Normal(f.kind, Initial(f)) == Initial(f);
    if f.rule.FixedCount? {
      NormalBlanks(f.kind, InitialSlot(f).items);
    }
  }

  // A message that comes out as one to leave out is one reset.
  lemma {:induction false} DefaultIsInitial(k: Kind, v: Value)
    requires k.Message? && WellFormed(k) && Typed(k, v) && IsDefault(k, Normal(k, v))
    ensures Normal(k, v) == InitialRecord(k)
    decreases k
  {
    hide WellFormed, NormalSlot, InitialSlot, NormalChoice, SlotTyped, SlotIsDefault;
    var r := Normal(k, v);
    forall i | 0 <= i < |k.fields|
      ensures r.slots[i] == InitialSlot(k.fields[i])
    {
      FieldFormedAt(k, i);
      DefaultSlotIsInitial(k.fields[i], v.slots[i], v.unions, r.unions);
    }
    forall u | 0 <= u < k.unions
      ensures r.unions[u] == Choice(0, Num(0))
    {
      ChoiceIsInitial(k, v, u);
    }
    assert r.slots == InitialRecord(k).slots && r.unions == InitialRecord(k).unions;
  }

  lemma ChoiceIsInitial(k: Kind, v: Value, u: nat)
    requires k.Message? && WellFormed(k) && Typed(k, v) && u < k.unions && IsDefault(k, Normal(k, v))
    ensures Normal(k, v).unions[u] == Choice(0, Num(0))
  {
    hide WellFormed, NormalSlot, InitialSlot, SlotTyped, Normal, InitialRecord;
    var c, m := v.unions[u], Member(k.fields, u, v.unions[u].which);
    NormalParts(k, v);
    if m.Some? {
      FieldFormedAt(k, m.value);
      assert SlotIsDefault(k.fields[m.value], Normal(k, v).slots[m.value], Normal(k, v).unions);
    }
  }

  lemma NormalParts(k: Kind, v: Value)
    requires k.Message? && Typed(k, v)
    ensures var r := Normal(k, v);
      && r.Record? && |r.slots| == |k.fields| == |v.slots| && |r.unions| == k.unions == |v.unions|
      && (forall i | 0 <= i < |k.fields| :: r.slots[i] == NormalSlot(k.fields[i], v.slots[i]))
      && (forall u | 0 <= u < k.unions :: r.unions[u] == NormalChoice(k, |k.fields|, u, v.unions[u]))
  {
    hide NormalSlot, NormalChoice, InitialSlot, SlotTyped;
  }

  lemma {:induction false} DefaultSlotIsInitial(f: Field, slot: Slot, unions: seq<Choice>, after: seq<Choice>)
    requires WellFormed(f.kind) && SlotTyped(f, slot, unions) && SlotIsDefault(f, NormalSlot(f, slot), after)
    ensures NormalSlot(f, slot) == InitialSlot(f)
    decreases f
  {
    hide WellFormed, InitialRecord;
    if f.rule.Singular? && !IsDefault(f.kind, slot.v) {
      if f.kind.Message? {
        DefaultIsInitial(f.kind, slot.v);
      }
    }
  }

  // Decoding what has been decoded once changes nothing any more.
  lemma {:induction false} NormalTwice(k: Kind, v: Value)
    requires WellFormed(k) && Typed(k, v)
    ensures Normal(k, Normal(k, v)) == Normal(k, v)
    decreases k, 1, 0
  {
    hide WellFormed, NormalSlot, InitialSlot, NormalChoice, SlotTyped;
    if k.Message? {
      NormalParts(k, v);
      var r := Normal(k, v);
      forall i | 0 <= i < |k.fields|
        ensures NormalSlot(k.fields[i], r.slots[i]) == r.slots[i]
      {
        FieldFormedAt(k, i);
        SlotTwice(k.fields[i], v.slots[i], v.unions);
      }
      forall u | 0 <= u < k.unions
        ensures NormalChoice(k, |k.fields|, u, r.unions[u]) == r.unions[u]
      {
        ChoiceTwice(k, v, u);
      }
      assert Normal(k, r).slots == r.slots && Normal(k, r).unions == r.unions;
    }
  }

  lemma {:induction false} ChoiceTwice(k: Kind, v: Value, u: nat)
    requires k.Message? && WellFormed(k) && Typed(k, v) && u < k.unions
    ensures NormalChoice(k, |k.fields|, u, Normal(k, v).unions[u]) == Normal(k, v).unions[u]
    decreases k, 0, 0
  {
    hide WellFormed, NormalSlot, InitialSlot, Normal;
    NormalParts(k, v);
    var m := Member(k.fields, u, v.unions[u].which);
    if m.Some? {
      FieldFormedAt(k, m.value);
      assert SlotTyped(k.fields[m.value], v.slots[m.value], v.unions);
      NormalTwice(k.fields[m.value].kind, v.unions[u].v);
    } else {
      FieldTags(k);
      MemberNone(k.fields, u);
      NoMember(k, u);
    }
  }

  lemma {:induction false} AllTwice(k: Kind, items: seq<Value>)
    requires WellFormed(k) && forall i | 0 <= i < |items| :: Typed(k, items[i])
    ensures NormalAll(k, NormalAll(k, items)) == NormalAll(k, items)
    decreases k, 2, |items|
  {
    hide WellFormed, Typed, Normal;
    if items != [] {
      var n := |items| - 1;
      AllTwice(k, items[..n]);
      NormalTwice(k, items[n]);
      NormalSnoc(k, NormalAll(k, items[..n]), Normal(k, items[n]));
    }
  }

  lemma {:induction false} SlotTwice(f: Field, slot: Slot, unions: seq<Choice>)
    requires WellFormed(f.kind) && SlotTyped(f, slot, unions)
    ensures NormalSlot(f, NormalSlot(f, slot)) == NormalSlot(f, slot)
    decreases f
  {
    hide WellFormed, Typed, Normal, InitialSlot;
    match f.rule {
      case Required =>
        NormalTwice(f.kind, slot.v);
      case Optional =>
        if slot.has {
          NormalTwice(f.kind, slot.v);
        } else {
          InitialSlotIsNormal(f);
        }
      case Singular =>
        if IsDefault(f.kind, slot.v) {
          InitialSlotIsNormal(f);
        } else {
          NormalTwice(f.kind, slot.v);
          SingularTwice(f, slot, unions);
        }
      case OneOf(_) =>
      case _ =>
        AllTwice(f.kind, slot.items);
    }
  }

  lemma SingularTwice(f: Field, slot: Slot, unions: seq<Choice>)
    requires WellFormed(f.kind) && SlotTyped(f, slot, unions) && f.rule.Singular? && !IsDefault(f.kind, slot.v)
    requires Normal(f.kind, Normal(f.kind, slot.v)) == Normal(f.kind, slot.v)
    ensures NormalSlot(f, NormalSlot(f, slot)) == NormalSlot(f, slot)
  {
    hide WellFormed, InitialRecord, Typed;
    var x := Normal(f.kind, slot.v);
    assert NormalSlot(f, slot) == One(x);
    if !f.kind.Message? {
      assert x == slot.v;
    } else if IsDefault(f.kind, x) {
      DefaultIsInitial(f.kind, slot.v);
      assert InitialSlot(f) == One(x);
    } else {
      assert NormalSlot(f, One(x)) == One(Normal(f.kind, x));
    }
  }

  // ---- Sent again, it is the same bytes. ----

  // Fields without a flag are reset to what counts as absent.
  ghost predicate Resets(k: Kind)
    decreases k
  {
    k.Message? ==> forall i | 0 <= i < |k.fields| ::
      && Resets(k.fields[i].kind)
      && (k.fields[i].rule.Singular? && (k.fields[i].kind.Number? || k.fields[i].kind.Bytes? || k.fields[i].kind.String?) ==>
            IsDefault(k.fields[i].kind, k.fields[i].initial))
  }

  // Every union in what is sent names one of its members, or none.
  ghost predicate Tidy(k: Kind, v: Value)
    decreases k
  {
    k.Message? ==>
      && v.Record? && |v.slots| == |k.fields| && Named(k, v)
      && forall i | 0 <= i < |k.fields| :: SlotTidy(k.fields[i], v.slots[i], v.unions)
  }

  ghost predicate SlotTidy(f: Field, slot: Slot, unions: seq<Choice>)
    decreases f
  {
    forall x | x in Present(f, slot, unions) :: Tidy(f.kind, x)
  }

  lemma ResetsAt(k: Kind, i: nat)
    requires k.Message? && Resets(k) && i < |k.fields|
    ensures Resets(k.fields[i].kind)
    ensures k.fields[i].rule.Singular? && (k.fields[i].kind.Number? || k.fields[i].kind.Bytes? || k.fields[i].kind.String?) ==>
      IsDefault(k.fields[i].kind, k.fields[i].initial)
  {
    hide IsDefault;
  }

  // Where some value counts as absent, the one a field is reset to does.
  lemma {:induction false} ResetIsDefault(f: Field, x: Value)
    requires Resets(f.kind) && IsDefault(f.kind, x)
    requires f.kind.Number? || f.kind.Bytes? || f.kind.String? ==> IsDefault(f.kind, f.initial)
    requires WellFormed(f.kind)
    ensures IsDefault(f.kind, Initial(f))
    decreases f, 0
  {
    hide SlotIsDefault, InitialSlot, WellFormed, Resets;
    var k := f.kind;
    if k.Message? {
      var r := InitialRecord(k);
      forall i | 0 <= i < |k.fields|
        ensures SlotIsDefault(k.fields[i], r.slots[i], r.unions)
      {
        ResetsAt(k, i);
        FieldFormedAt(k, i);
        ResetSlotIsDefault(k.fields[i], x.slots[i], x.unions, r.unions);
      }
    }
  }

  lemma {:induction false} ResetSlotIsDefault(f: Field, slot: Slot, unions: seq<Choice>, reset: seq<Choice>)
    requires Resets(f.kind) && SlotIsDefault(f, slot, unions) && WellFormed(f.kind)
    requires f.rule.Singular? && (f.kind.Number? || f.kind.Bytes? || f.kind.String?) ==> IsDefault(f.kind, f.initial)
    requires f.rule.OneOf? ==> f.rule.union < |reset| && reset[f.rule.union].which == 0
    ensures SlotIsDefault(f, InitialSlot(f), reset)
    decreases f, 1
  {
    hide IsDefault, WellFormed, Resets, Initial;
    if f.rule.Singular? {
      ResetIsDefault(f, slot.v);
    }
  }

  // A message that comes out as one to leave out was one.
  lemma {:induction false} DefaultStays(k: Kind, v: Value)
    requires WellFormed(k) && Typed(k, v) && Tidy(k, v) && IsDefault(k, Normal(k, v))
    ensures IsDefault(k, v)
    decreases k
  {
    hide WellFormed, SlotTyped, SlotTidy, SlotIsDefault, NormalSlot, NormalChoice, InitialSlot;
    if k.Message? {
      NormalParts(k, v);
      forall i | 0 <= i < |k.fields|
        ensures SlotIsDefault(k.fields[i], v.slots[i], v.unions)
      {
        FieldFormedAt(k, i);
        SlotDefaultStays(k, v, i);
      }
    }
  }

  lemma {:induction false} SlotDefaultStays(k: Kind, v: Value, i: nat)
    requires k.Message? && WellFormed(k) && Typed(k, v) && Tidy(k, v) && i < |k.fields|
    requires SlotIsDefault(k.fields[i], Normal(k, v).slots[i], Normal(k, v).unions)
    ensures SlotIsDefault(k.fields[i], v.slots[i], v.unions)
    decreases k, 0
  {
    hide WellFormed, Typed, Tidy, IsDefault, Normal, InitialSlot;
    FieldFormedAt(k, i);
    PartsOf(k, v, i);
    NormalParts(k, v);
    var f, slot := k.fields[i], v.slots[i];
    if f.rule.Singular? && !IsDefault(f.kind, slot.v) {
      assert slot.v in Present(f, slot, v.unions);
      DefaultStays(f.kind, slot.v);
    }
  }

  lemma PartsOf(k: Kind, v: Value, i: nat)
    requires k.Message? && Typed(k, v) && Tidy(k, v) && i < |k.fields|
    ensures v.Record? && |v.slots| == |k.fields| && |v.unions| == k.unions && Named(k, v)
    ensures SlotTyped(k.fields[i], v.slots[i], v.unions) && SlotTidy(k.fields[i], v.slots[i], v.unions)
  {
    hide SlotTyped, SlotTidy;
  }

  // What is present is what was present, each item as it comes out.
  lemma PresentStays(k: Kind, v: Value, i: nat)
    requires k.Message? && WellFormed(k) && Typed(k, v) && Tidy(k, v) && Resets(k) && i < |k.fields|
    ensures var f := k.fields[i];
      Present(f, Normal(k, v).slots[i], Normal(k, v).unions) == NormalAll(f.kind, Present(f, v.slots[i], v.unions))
  {
    hide WellFormed, Typed, Tidy, Resets, IsDefault, Normal;
    FieldFormedAt(k, i);
    ResetsAt(k, i);
    PartsOf(k, v, i);
    NormalParts(k, v);
    var f, slot := k.fields[i], v.slots[i];
    NormalOne(f.kind, Current(slot));
    NoItems(f.kind);
    match f.rule {
      case Singular =>
        if IsDefault(f.kind, slot.v) {
          ResetIsDefault(f, slot.v);
        } else if IsDefault(f.kind, Normal(f.kind, slot.v)) {
          assert slot.v in Present(f, slot, v.unions);
          DefaultStays(f.kind, slot.v);
        }
      case OneOf(u) =>
        NormalOne(f.kind, v.unions[u].v);
        ChosenStays(k, v, i);
      case _ =>
    }
  }

  lemma NormalOne(k: Kind, x: Value)
    ensures NormalAll(k, [x]) == [Normal(k, x)]
  {
    assert [x][..0] == [];
  }

  lemma ChosenStays(k: Kind, v: Value, i: nat)
    requires k.Message? && WellFormed(k) && Typed(k, v) && i < |k.fields| && k.fields[i].rule.OneOf?
    ensures var u := k.fields[i].rule.union;
      && u < |v.unions| == |Normal(k, v).unions|
      && var c, r := v.unions[u], Normal(k, v).unions[u];
         (r.which == k.fields[i].tag <==> c.which == k.fields[i].tag)
         && (r.which == k.fields[i].tag ==> r.v == Normal(k.fields[i].kind, c.v))
  {
    hide Typed, Normal, WellFormed;
    FieldFormedAt(k, i);
    AllDiffer(k);
    NormalParts(k, v);
    MemberIs(k.fields, k.fields[i].rule.union, i);
  }

  lemma AllDiffer(k: Kind)
    requires k.Message? && WellFormed(k)
    ensures TagsDiffer(k.fields)
  {
  }

  lemma {:induction false} ValueSame(k: Kind, v: Value)
    requires WellFormed(k) && Typed(k, v) && Tidy(k, v) && Resets(k)
    ensures ValueBytes(k, Normal(k, v)) == ValueBytes(k, v)
    decreases k, 3
  {
    hide WellFormed, SlotTyped, Tidy, Resets, NumberBytes, Delimited, MessageBytes, NormalUpTo;
    if k.Message? {
      MessageSame(k, v, 0);
    }
  }

  lemma {:induction false} TaggedSame(f: Field, items: seq<Value>)
    requires forall i | 0 <= i < |items| ::
               WellFormed(f.kind) && Typed(f.kind, items[i]) && Tidy(f.kind, items[i]) && Resets(f.kind)
    ensures Tagged(f, NormalAll(f.kind, items)) == Tagged(f, items)
    decreases f, |items|
  {
    hide WellFormed, Typed, Tidy, Resets, ValueBytes, TagBytes, Normal;
    if items == [] {
      NoItems(f.kind);
    } else {
      var x, rest := items[0], items[1..];
      assert [x] + rest == items;
      ValueSame(f.kind, x);
      TaggedSame(f, rest);
      NormalFirst(f.kind, x, rest);
    }
  }

  lemma {:induction false} NormalFirst(k: Kind, x: Value, rest: seq<Value>)
    ensures NormalAll(k, [x] + rest) == [Normal(k, x)] + NormalAll(k, rest)
    decreases |rest|
  {
    hide Normal;
    if rest == [] {
      NormalOne(k, x);
      NoItems(k);
      assert [x] + rest == [x];
    } else {
      var n := |rest| - 1;
      NormalFirst(k, x, rest[..n]);
      assert ([x] + rest)[..n + 1] == [x] + rest[..n];
    }
  }

  lemma {:induction false} MessageSame(k: Kind, v: Value, i: nat)
    requires k.Message? && WellFormed(k) && Typed(k, v) && Tidy(k, v) && Resets(k) && i <= |k.fields|
    ensures MessageBytes(k, Normal(k, v), i) == MessageBytes(k, v, i)
    decreases k, 2, |k.fields| - i
  {
    hide WellFormed, Typed, Tidy, Resets, FieldBytes, Normal;
    NormalParts(k, v);
    if i < |k.fields| {
      FieldSame(k, v, i);
      MessageSame(k, v, i + 1);
    }
  }

  lemma {:induction false} FieldSame(k: Kind, v: Value, i: nat)
    requires k.Message? && WellFormed(k) && Typed(k, v) && Tidy(k, v) && Resets(k) && i < |k.fields|
    ensures FieldBytes(k.fields[i], Normal(k, v).slots[i], Normal(k, v).unions) == FieldBytes(k.fields[i], v.slots[i], v.unions)
    decreases k, 1
  {
    hide WellFormed, Typed, Tidy, Resets, Tagged, Packed, Present, Normal, NormalAll;
    PresentStays(k, v, i);
    PartsOf(k, v, i);
    var f, items := k.fields[i], Present(k.fields[i], v.slots[i], v.unions);
    FieldFormedAt(k, i);
    ResetsAt(k, i);
    PresentTyped(f, v.slots[i], v.unions);
    if IsArray(f) && f.kind.Number? {
      NormalNumbers(f.kind, items);
    } else {
      TaggedSame(f, items);
    }
  }

  lemma PresentTyped(f: Field, slot: Slot, unions: seq<Choice>)
    requires SlotTyped(f, slot, unions) && SlotTidy(f, slot, unions)
    ensures var items := Present(f, slot, unions);
      forall i | 0 <= i < |items| :: Typed(f.kind, items[i]) && Tidy(f.kind, items[i])
  {
    hide Typed, Tidy;
    assert forall i | 0 <= i < |Present(f, slot, unions)| :: Present(f, slot, unions)[i] in Present(f, slot, unions);
  }

  // What a message has sent it would send again after a round trip, as long as absent fields are
  // reset to what counts as absent.
  lemma SendsTheSame(k: Kind, v: Value)
    requires k.Message? && WellFormed(k) && Typed(k, v) && Tidy(k, v) && Resets(k)
    ensures MessageBytes(k, Normal(k, v), 0) == MessageBytes(k, v, 0)
    ensures Encodable(k, v) && Terminated(k, v) && |MessageBytes(k, v, 0)| < TWO_32 ==>
      && Decode(k, MessageBytes(k, v, 0)) == Some(Normal(k, v))
      && Decode(k, MessageBytes(k, Normal(k, v), 0)) == Some(Normal(k, v))
  {
    hide WellFormed, SlotTyped, Tidy, Resets, Encodable, Terminated, MessageBytes, Decode, Normal;
    MessageSame(k, v, 0);
    if Encodable(k, v) && |MessageBytes(k, v, 0)| < TWO_32 {
      RoundTrip(k, v);
    }
  }
}
