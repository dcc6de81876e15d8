// Table blocks: prefix-compressed entries with restart points (table/block_builder.cc), and
// the iterator that searches them (table/block.cc).

module Blocks {
  import opened Sequences
  import opened Bits
  import opened Coding
  import opened History

  datatype Pair = Pair(key: Data, value: Data)

  // An entry: three varints, the part of the key that is not shared, the value.
  function EntryBytes(shared: nat, e: Pair): (r: Data)
    requires shared <= |e.key| < TWO_32 && |e.value| < TWO_32
    ensures |r| >= 3
  {
    VarintBranches(shared);
    VarintBranches(|e.key| - shared);
    VarintBranches(|e.value|);
    EncodeVarint32(shared) + EncodeVarint32(|e.key| - shared) + EncodeVarint32(|e.value|) + e.key[shared..] + e.value
  }

  predicate Small(e: Pair) {
    |e.key| < TWO_32 && |e.value| < TWO_32
  }

  // What a block's bytes stand for: the entries, how much of its key each shares with the one
  // before, where each starts, and which of them are restart points.
  datatype Plan = Plan(es: seq<Pair>, shared: seq<nat>, offs: seq<nat>, marks: seq<nat>)

  ghost predicate Shares(p: Plan, i: nat)
    requires i < |p.es| == |p.shared|
  {
    && Small(p.es[i]) && p.shared[i] <= |p.es[i].key|
    && if i == 0 then p.shared[i] == 0
       else p.shared[i] <= |p.es[i - 1].key| && p.es[i].key[..p.shared[i]] == p.es[i - 1].key[..p.shared[i]]
  }

  ghost predicate EntryAt(buf: Data, p: Plan, i: nat)
    requires i < |p.es| == |p.shared| && |p.offs| == |p.es| + 1 && Shares(p, i)
  {
    p.offs[i] < p.offs[i + 1] <= |buf| && buf[p.offs[i]..p.offs[i + 1]] == EntryBytes(p.shared[i], p.es[i])
  }

  ghost predicate Marked(p: Plan)
    requires |p.es| == |p.shared|
  {
    && p.marks != [] && p.marks[0] == 0
    && (forall j, k | 0 <= j < k < |p.marks| :: p.marks[j] < p.marks[k])
    && (forall j | 0 < j < |p.marks| :: p.marks[j] < |p.es|)
    && (forall j | 0 <= j < |p.marks| && p.marks[j] < |p.es| :: p.shared[p.marks[j]] == 0)
  }

  ghost predicate Sized(p: Plan) {
    |p.es| == |p.shared| && |p.offs| == |p.es| + 1 && p.offs[0] == 0
  }

  ghost predicate Laid(buf: Data, p: Plan) {
    && Sized(p) && p.offs[|p.es|] == |buf| && Marked(p)
    && forall i | 0 <= i < |p.es| :: Shares(p, i) && EntryAt(buf, p, i)
  }

  ghost function Restarts(p: Plan): (r: seq<nat>)
    requires Sized(p) && Marked(p)
    ensures |r| == |p.marks|
  {
    seq(|p.marks|, j requires 0 <= j < |p.marks| => (if j == 0 then 0 else p.offs[p.marks[j]]))
  }

  // ---- Building. ----

  ghost function Grown(p: Plan, shared: nat, e: Pair, restart: bool): Plan
    requires Sized(p) && Small(e) && shared <= |e.key|
  {
    Plan(p.es + [e], p.shared + [shared], p.offs + [p.offs[|p.es|] + |EntryBytes(shared, e)|],
         if restart then p.marks + [|p.es|] else p.marks)
  }

  lemma LaidAppend(buf: Data, p: Plan, shared: nat, e: Pair, restart: bool)
    requires Laid(buf, p) && Small(e) && shared <= |e.key|
    requires if p.es == [] then shared == 0 && !restart
             else shared <= |p.es[|p.es| - 1].key| && e.key[..shared] == p.es[|p.es| - 1].key[..shared]
    requires restart ==> shared == 0
    ensures Laid(buf + EntryBytes(shared, e), Grown(p, shared, e, restart))
  {
    hide EntryBytes;
    var bytes := EntryBytes(shared, e);
    var buf', q := buf + bytes, Grown(p, shared, e, restart);
    forall i | 0 <= i < |q.es|
      ensures Shares(q, i) && EntryAt(buf', q, i)
    {
      if i < |p.es| {
        assert Shares(p, i) && EntryAt(buf, p, i);
        assert buf'[p.offs[i]..p.offs[i + 1]] == buf[p.offs[i]..p.offs[i + 1]];
      } else {
        assert buf'[|buf|..] == bytes;
      }
    }
  }

  // One more entry, laid after the others; a restart point is where the entries ended before.
  lemma GrownLaid(buf: Data, p: Plan, shared: nat, e: Pair, restart: bool)
    requires Laid(buf, p) && Small(e) && shared <= |e.key|
    requires if p.es == [] then shared == 0 && !restart
             else shared <= |p.es[|p.es| - 1].key| && e.key[..shared] == p.es[|p.es| - 1].key[..shared]
    requires restart ==> shared == 0
    ensures var q := Grown(p, shared, e, restart);
      && q.es == p.es + [e] && Laid(buf + EntryBytes(shared, e), q)
      && LaidParts(q) && LaidParts(p)
      && Restarts(q) == Restarts(p) + if restart then [|buf|] else []
  {
    hide EntryBytes;
    LaidAppend(buf, p, shared, e, restart);
    assert forall j | 0 < j < |p.marks| :: p.marks[j] < |p.es|;
  }

  ghost predicate LaidParts(p: Plan) {
    Sized(p) && Marked(p)
  }

  lemma SharedKey(last: Data, key: Data, shared: nat)
    requires shared <= |last| && shared <= |key| && last[..shared] == key[..shared]
    ensures last[..shared] + key[shared..] == key
  {
  }

  // The whole block: entries, restart array, its length.
  function Whole(buf: Data, restarts: seq<nat>): Data {
    buf + AllFixed(restarts) + Fixed32(|restarts|)
  }

  class BlockBuilder {
    const interval: nat
    var buffer: Data
    var restarts: seq<nat>
    var counter: nat
    var lastKey: Data
    var finished: bool
    ghost var plan: Plan

    ghost predicate Valid()
      reads this
    {
      && interval >= 1 && counter <= interval
      && Laid(buffer, plan) && restarts == Restarts(plan)
      && lastKey == (if plan.es == [] then [] else plan.es[|plan.es| - 1].key)
      && (plan.es == [] ==> counter == 0)
    }

    ghost function Entries(): seq<Pair>
      reads `plan
    {
      plan.es
    }

    constructor (interval: nat)
      requires interval >= 1
      ensures Valid() && Entries() == [] && !finished && this.interval == interval
    {
      this.interval := interval;
      buffer, restarts, counter, lastKey, finished := [], [0], 0, [], false;
      plan := Plan([], [], [0], [0]);
    }

    method Reset()
      requires Valid() || finished
      requires interval >= 1
      modifies this
      ensures Valid() && Entries() == [] && !finished
    {
      buffer, restarts, counter, lastKey, finished := [], [0], 0, [], false;
      plan := Plan([], [], [0], [0]);
    }

    function CurrentSizeEstimate(): nat
      reads `buffer, `restarts
    {
      |buffer| + 4 * |restarts| + 4
    }

    predicate Empty()
      reads `buffer
    {
      buffer == []
    }

    lemma EmptyHasNoEntries()
      requires Valid()
      ensures Empty() <==> Entries() == []
    {
      OffsOrder(buffer, plan, 0, |plan.es|);
    }

    method Add(key: Data, value: Data)
      requires Valid() && !finished && Small(Pair(key, value))
      modifies this
      ensures Valid() && !finished && Entries() == old(Entries()) + [Pair(key, value)]
    {
      hide EntryBytes, EncodeVarint32, Laid, Restarts, Grown, Sized, Marked;
      ghost var e, was := Pair(key, value), plan;
      var shared := 0;
      var restart := counter >= interval;
      if counter < interval {
        var minLength := if |lastKey| < |key| then |lastKey| else |key|;
        while shared < minLength && lastKey[shared] == key[shared]
          invariant shared <= minLength && lastKey[..shared] == key[..shared]
        {
          shared := shared + 1;
        }
      } else {
        restarts := restarts + [|buffer|];
        counter := 0;
      }
      var nonShared := |key| - shared;
      GrownLaid(buffer, plan, shared, e, restart);
      EntryOnto(buffer, shared, e);
      buffer := buffer + EncodeVarint32(shared);
      buffer := buffer + EncodeVarint32(nonShared);
      buffer := buffer + EncodeVarint32(|value|);
      buffer := buffer + key[shared..];
      buffer := buffer + value;
      plan := Grown(plan, shared, e, restart);
      SharedKey(lastKey, key, shared);
      lastKey := lastKey[..shared];
      lastKey := lastKey + key[shared..];
      counter := counter + 1;
    }

    method Finish() returns (block: Data)
      requires Valid() && !finished
      modifies `buffer, `finished
      ensures block == Whole(old(buffer), restarts) && finished
    {
      hide AllFixed, Fixed32, Laid;
      var i := 0;
      NoneFixed(restarts);
      while i < |restarts|
        invariant i <= |restarts| && buffer == old(buffer) + AllFixed(restarts[..i])
      {
        AllFixedStep(restarts, i);
        Associates(old(buffer), AllFixed(restarts[..i]), Fixed32(restarts[i]));
        buffer := buffer + Fixed32(restarts[i]);
        i := i + 1;
      }
      assert restarts[..|restarts|] == restarts;
      buffer := buffer + Fixed32(|restarts|);
      finished := true;
      block := buffer;
    }
  }

  lemma EntryOnto(buf: Data, shared: nat, e: Pair)
    requires shared <= |e.key| && Small(e)
    ensures ((((buf + EncodeVarint32(shared)) + EncodeVarint32(|e.key| - shared)) + EncodeVarint32(|e.value|)) + e.key[shared..])
            + e.value == buf + EntryBytes(shared, e)
  {
    hide EncodeVarint32;
    AssociatesFive(buf, EncodeVarint32(shared), EncodeVarint32(|e.key| - shared), EncodeVarint32(|e.value|), e.key[shared..], e.value);
  }

  // ---- Reading. ----

  // What stands before the key delta: shared, non_shared, value_length; and the bytes from the delta on.
  datatype Decoded = Decoded(shared: nat, nonShared: nat, valueLength: nat, rest: Data)

  function DecodeHeader(s: Data): (r: Option<Decoded>)
    ensures r.Some? ==> |r.value.rest| < |s|
  {
    if |s| < 3 then None
    else if NumberOf(s[0]) < 128 && NumberOf(s[1]) < 128 && NumberOf(s[2]) < 128 then
      // three bytes below 128 are three varints
      Some(Decoded(NumberOf(s[0]), NumberOf(s[1]), NumberOf(s[2]), s[3..]))
    else match ReadVarint32(s)
         case None => None
         case Some(a) =>
           match ReadVarint32(a.1)
           case None => None
           case Some(b) =>
             match ReadVarint32(b.1)
             case None => None
             case Some(c) => Some(Decoded(a.0, b.0, c.0, c.1))
  }

  function DecodeEntry(s: Data): (r: Option<Decoded>)
    ensures r.Some? ==> r.value.nonShared + r.value.valueLength <= |r.value.rest| < |s|
  {
    match DecodeHeader(s)
    case None => None
    case Some(d) => if |d.rest| < d.nonShared + d.valueLength then None else Some(d)
  }

  lemma ReadsOneByte(s: Data)
    requires s != [] && NumberOf(s[0]) < 128
    ensures ReadVarint32(s) == Some((NumberOf(s[0]), s[1..]))
  {
  }

  lemma DecodesHeader(a: nat, b: nat, c: nat, rest: Data)
    requires a < TWO_32 && b < TWO_32 && c < TWO_32
    ensures DecodeHeader(EncodeVarint32(a) + EncodeVarint32(b) + EncodeVarint32(c) + rest) == Some(Decoded(a, b, c, rest))
  {
    hide EncodeVarint32, ReadVarint32, NumberOf;
    var s2 := EncodeVarint32(c) + rest;
    var s1 := EncodeVarint32(b) + s2;
    var s := EncodeVarint32(a) + s1;
    assert EncodeVarint32(a) + EncodeVarint32(b) + EncodeVarint32(c) + rest == s;
    ReadsVarint32(a, s1);
    ReadsVarint32(b, s2);
    ReadsVarint32(c, rest);
    if NumberOf(s[0]) < 128 {
      ReadsOneByte(s);
      if NumberOf(s[1]) < 128 {
        ReadsOneByte(s1);
        if NumberOf(s[2]) < 128 {
          ReadsOneByte(s2);
        }
      }
    }
  }

  lemma DecodesEntry(shared: nat, e: Pair, rest: Data)
    requires shared <= |e.key| && Small(e) && |EntryBytes(shared, e)| + |rest| < TWO_32
    ensures DecodeEntry(EntryBytes(shared, e) + rest)
         == Some(Decoded(shared, |e.key| - shared, |e.value|, e.key[shared..] + (e.value + rest)))
  {
    hide EncodeVarint32, DecodeHeader;
    var a, b, c := EncodeVarint32(shared), EncodeVarint32(|e.key| - shared), EncodeVarint32(|e.value|);
    var tail := e.key[shared..] + (e.value + rest);
    assert EntryBytes(shared, e) + rest == a + b + c + tail;
    DecodesHeader(shared, |e.key| - shared, |e.value|, tail);
  }

  // ---- The bytes at an entry. ----

  lemma {:induction false} OffsAscend(buf: Data, p: Plan, i: nat, j: nat)
    requires Laid(buf, p) && i <= j <= |p.es|
    ensures p.offs[i] + (j - i) <= p.offs[j]
    decreases j
  {
    hide EntryBytes;
    if i < j {
      assert EntryAt(buf, p, j - 1);
      OffsAscend(buf, p, i, j - 1);
    }
  }

  // Entry starts compare as their places do.
  lemma OffsOrder(buf: Data, p: Plan, i: nat, j: nat)
    requires Laid(buf, p) && i <= |p.es| && j <= |p.es|
    ensures p.offs[i] <= |buf| && (p.offs[i] < p.offs[j] <==> i < j) && (i < |p.es| ==> p.offs[i] < |buf|)
  {
    OffsAscend(buf, p, i, |p.es|);
    if i < j {
      OffsAscend(buf, p, i, j);
    } else {
      OffsAscend(buf, p, j, i);
    }
  }

  // Decoding at an entry gives its parts, and its value ends where the next entry starts.
  lemma EntryReads(buf: Data, p: Plan, i: nat)
    requires Laid(buf, p) && i < |p.es| && |buf| < TWO_32
    ensures p.offs[i] < p.offs[i + 1] <= |buf| && Small(p.es[i]) && p.shared[i] <= |p.es[i].key|
    ensures var e := p.es[i];
      && DecodeEntry(buf[p.offs[i]..])
         == Some(Decoded(p.shared[i], |e.key| - p.shared[i], |e.value|, e.key[p.shared[i]..] + (e.value + buf[p.offs[i + 1]..])))
      && |e.value| <= p.offs[i + 1] && buf[p.offs[i + 1] - |e.value|..p.offs[i + 1]] == e.value
  {
    hide DecodeEntry, EncodeVarint32;
    var e, a, b := p.es[i], p.offs[i], p.offs[i + 1];
    assert Shares(p, i) && EntryAt(buf, p, i);
    var bytes := EntryBytes(p.shared[i], e);
    assert buf[a..] == bytes + buf[b..] by {
      hide EntryBytes;
      assert buf[a..b] + buf[b..] == buf[a..];
    }
    DecodesEntry(p.shared[i], e, buf[b..]);
    ValueLast(p.shared[i], e);
    assert buf[b - |e.value|..b] == buf[a..b][|bytes| - |e.value|..];
  }

  lemma ValueLast(shared: nat, e: Pair)
    requires shared <= |e.key| && Small(e)
    ensures |EntryBytes(shared, e)| >= |e.value|
    ensures EntryBytes(shared, e)[|EntryBytes(shared, e)| - |e.value|..] == e.value
  {
  }

  // ---- The restart array. ----

  // An open block: its entries up to the restart array, which gives back every restart point.
  ghost predicate Opened(data: Data, restarts: nat, num: nat, p: Plan) {
    && |data| < TWO_32 && |data| == restarts + 4 * num + 4
    && Laid(data[..restarts], p) && num == |p.marks|
    && forall j: nat | j < num :: ReadFixed32(data[restarts + 4 * j..]) == Restarts(p)[j]
  }

  lemma RestartsSmall(buf: Data, p: Plan, j: nat)
    requires Laid(buf, p) && j < |p.marks|
    ensures Restarts(p)[j] <= |buf| && (p.es != [] ==> Restarts(p)[j] == p.offs[p.marks[j]])
    ensures p.marks[j] <= |p.es| && (p.es != [] ==> p.marks[j] < |p.es|)
  {
    if j > 0 {
      OffsOrder(buf, p, p.marks[j], |p.es|);
    }
  }

  // The bytes of a finished block, short enough for 32-bit offsets.
  ghost predicate Finished(data: Data, buf: Data, p: Plan) {
    Laid(buf, p) && data == Whole(buf, Restarts(p)) && |data| < TWO_32
  }

  // A finished block opens as what was added to it.
  lemma WholeOpens(data: Data, buf: Data, p: Plan)
    requires Finished(data, buf, p)
    ensures p.marks != [] && |data| == |buf| + 4 * |p.marks| + 4
    ensures Opened(data, |buf|, |p.marks|, p) && ReadFixed32(data[|data| - 4..]) == |p.marks|
  {
    hide Fixed32, ReadFixed32, AllFixed, EntryBytes, Shares;
    var rs := Restarts(p);
    var tail := AllFixed(rs) + Fixed32(|rs|);
    assert data == buf + tail;
    assert data[..|buf|] == buf;
    forall j: nat | j < |rs|
      ensures ReadFixed32(data[|buf| + 4 * j..]) == rs[j]
    {
      RestartsSmall(buf, p, j);
      AllFixedReads(rs, j, Fixed32(|rs|));
      assert data[|buf| + 4 * j..] == tail[4 * j..];
    }
    assert data[|data| - 4..] == Fixed32(|rs|) + [];
    ReadsFixed32(|rs|, []);
  }

  // ---- The iterator. ----

  // Nothing more than this is asked of a comparator here.
  ghost predicate Transitive(less: (Data, Data) -> bool) {
    forall a, b, c | less(a, b) && less(b, c) :: less(a, c)
  }

  ghost predicate Increasing(es: seq<Pair>, less: (Data, Data) -> bool) {
    forall i, j | 0 <= i < j < |es| :: less(es[i].key, es[j].key)
  }

  // Where a plain linear search for the first key at or after the target ends.
  function FirstAtOrAfter(es: seq<Pair>, less: (Data, Data) -> bool, target: Data): (r: nat)
    ensures r <= |es|
    ensures forall i | 0 <= i < r :: less(es[i].key, target)
    ensures r < |es| ==> !less(es[r].key, target)
  {
    if es == [] || !less(es[0].key, target) then 0 else 1 + FirstAtOrAfter(es[1..], less, target)
  }

  lemma BoundIs(es: seq<Pair>, less: (Data, Data) -> bool, target: Data, k: nat)
    requires k <= |es|
    requires forall i | 0 <= i < k :: less(es[i].key, target)
    requires k < |es| ==> !less(es[k].key, target)
    ensures FirstAtOrAfter(es, less, target) == k
  {
  }

  class BlockIter {
    const less: (Data, Data) -> bool
    const data: Data
    const restarts: nat
    const numRestarts: nat
    var current: nat
    var restartIndex: nat
    var key: Data
    var valueAt: nat
    var valueSize: nat
    ghost const plan: Plan

    // The restart array is within the bytes, which are otherwise anything.
    predicate Bounded() {
      restarts + 4 * numRestarts + 4 <= |data|
    }

    ghost predicate Block() {
      && Opened(data, restarts, numRestarts, plan)
      && Transitive(less) && Increasing(plan.es, less)
    }

    // On entry i; the restart point before it is known, or the one it stands on.
    ghost predicate At(i: nat)
      requires Block()
      reads this
    {
      && i < |plan.es| && current == plan.offs[i] && key == plan.es[i].key
      && valueAt + valueSize == plan.offs[i + 1] <= |data| && data[valueAt..valueAt + valueSize] == plan.es[i].value
      && restartIndex < numRestarts && plan.marks[restartIndex] <= i
      && (restartIndex + 1 < numRestarts ==> i <= plan.marks[restartIndex + 1])
    }

    ghost predicate AtEnd()
      reads this
    {
      current == restarts && restartIndex == numRestarts
    }

    // About to parse entry i, or to find that there is none.
    ghost predicate Poised(i: nat)
      requires Block()
      reads this
    {
      && i <= |plan.es| && valueAt + valueSize == plan.offs[i]
      && restartIndex < numRestarts && plan.marks[restartIndex] <= i
      && (i < |plan.es| ==> plan.shared[i] <= |key| && plan.shared[i] <= |plan.es[i].key|
                            && key[..plan.shared[i]] == plan.es[i].key[..plan.shared[i]])
    }

    predicate Valid()
      reads `current
    {
      current < restarts
    }

    function NextEntryOffset(): nat
      reads `valueAt, `valueSize
    {
      valueAt + valueSize
    }

    function Value(): Data
      requires NextEntryOffset() <= |data|
      reads `valueAt, `valueSize
    {
      data[valueAt..valueAt + valueSize]
    }

    function GetRestartPoint(index: nat): nat
      requires restarts + 4 * index + 4 <= |data|
    {
      ReadFixed32(data[restarts + 4 * index..])
    }

    constructor (less: (Data, Data) -> bool, data: Data, restarts: nat, numRestarts: nat, ghost plan: Plan)
      ensures this.less == less && this.data == data && this.restarts == restarts && this.numRestarts == numRestarts
      ensures this.plan == plan && AtEnd()
    {
      this.less, this.data, this.restarts, this.numRestarts := less, data, restarts, numRestarts;
      this.plan := plan;
      current, restartIndex, key, valueAt, valueSize := restarts, numRestarts, [], 0, 0;
    }

    method SeekToRestartPoint(index: nat)
      requires Bounded() && index < numRestarts
      modifies `key, `restartIndex, `valueAt, `valueSize
      ensures restartIndex == index
      ensures Block() ==> index < |plan.marks| && Poised(plan.marks[index])
    {
      key := [];
      restartIndex := index;
      var offset := GetRestartPoint(index);
      valueAt, valueSize := offset, 0;
      if Block() {
        RestartPoised(index);
      }
    }

    lemma RestartPoised(index: nat)
      requires Block() && index < numRestarts
      ensures GetRestartPoint(index) == plan.offs[plan.marks[index]] && plan.marks[index] <= |plan.es|
      ensures plan.marks[index] < |plan.es| ==> plan.shared[plan.marks[index]] == 0
    {
      hide EntryBytes;
      RestartsSmall(data[..restarts], plan, index);
    }

    lemma AtIsValid(i: nat)
      requires Block()
      ensures i < |plan.es| && At(i) ==> Valid()
    {
      if i < |plan.es| {
        OffsOrder(data[..restarts], plan, i, i + 1);
      }
    }

    method CorruptionError()
      modifies `current, `restartIndex, `key, `valueAt, `valueSize
      ensures AtEnd()
    {
      current, restartIndex := restarts, numRestarts;
      key, valueAt, valueSize := [], 0, 0;
    }

    // Whatever the bytes, parsing moves on or stops; in a well-formed block it reaches the next entry.
    method ParseNextKey(ghost i: nat) returns (more: bool)
      requires Bounded()
      modifies `current, `restartIndex, `key, `valueAt, `valueSize
      ensures if more then old(NextEntryOffset()) < NextEntryOffset() <= restarts else AtEnd()
      ensures Block() && old(Poised(i)) ==> more == (i < |plan.es|) && if more then At(i) else AtEnd()
    {
      hide EntryBytes, DecodeEntry, ReadFixed32, Laid, EntryAt, Shares;
      ghost var sound := Block() && Poised(i);
      if sound {
        ParseFacts(i);
      }
      current := NextEntryOffset();
      if current >= restarts {
        current, restartIndex := restarts, numRestarts;
        return false;
      }
      match DecodeEntry(data[current..restarts])
      case None =>
        CorruptionError();
        return false;
      case Some(d) =>
        if |key| < d.shared {
          CorruptionError();
          return false;
        }
        key := key[..d.shared];
        key := key + d.rest[..d.nonShared];
        valueAt, valueSize := restarts - |d.rest| + d.nonShared, d.valueLength;
        while restartIndex + 1 < numRestarts && GetRestartPoint(restartIndex + 1) < current
          invariant sound ==> restartIndex < numRestarts && plan.marks[restartIndex] <= i
          modifies `restartIndex
        {
          if sound {
            RestartBefore(restartIndex + 1, i);
          }
          restartIndex := restartIndex + 1;
        }
        if sound && restartIndex + 1 < numRestarts {
          RestartBefore(restartIndex + 1, i);
        }
        return true;
    }

    // What parsing at entry i comes upon.
    lemma ParseFacts(i: nat)
      requires Block() && i <= |plan.es|
      ensures plan.offs[i] <= restarts && (plan.offs[i] < restarts <==> i < |plan.es|)
      ensures i < |plan.es| ==>
        var e, s := plan.es[i], plan.shared[i];
        && s <= |e.key| && plan.offs[i + 1] <= restarts && |e.value| <= plan.offs[i + 1]
        && DecodeEntry(data[plan.offs[i]..restarts])
           == Some(Decoded(s, |e.key| - s, |e.value|, e.key[s..] + (e.value + data[plan.offs[i + 1]..restarts])))
        && data[plan.offs[i + 1] - |e.value|..plan.offs[i + 1]] == e.value
    {
      hide EntryBytes, DecodeEntry;
      var buf := data[..restarts];
      OffsOrder(buf, plan, i, |plan.es|);
      if i < |plan.es| {
        EntryReads(buf, plan, i);
        assert buf[plan.offs[i]..] == data[plan.offs[i]..restarts];
        assert buf[plan.offs[i + 1]..] == data[plan.offs[i + 1]..restarts];
        var b, v := plan.offs[i + 1], |plan.es[i].value|;
        assert buf[b - v..b] == data[b - v..b];
      }
    }

    lemma RestartBefore(j: nat, i: nat)
      requires Block() && j < numRestarts && i < |plan.es|
      ensures plan.marks[j] < |plan.es| && (GetRestartPoint(j) < plan.offs[i] <==> plan.marks[j] < i)
    {
      hide EntryBytes;
      var buf := data[..restarts];
      RestartsSmall(buf, plan, j);
      OffsOrder(buf, plan, plan.marks[j], i);
    }

    method Next(ghost i: nat)
      requires Block() && At(i)
      modifies `current, `restartIndex, `key, `valueAt, `valueSize
      ensures if i + 1 < |plan.es| then At(i + 1) else AtEnd()
    {
      BoundedBlock();
      NextPoised(i);
      var more := ParseNextKey(i + 1);
    }

    lemma NextPoised(i: nat)
      requires Block() && At(i)
      ensures Poised(i + 1)
    {
      hide EntryBytes;
      assert i + 1 < |plan.es| ==> Shares(plan, i + 1);
    }

    method SeekToFirst()
      requires Block()
      modifies `current, `restartIndex, `key, `valueAt, `valueSize
      ensures if plan.es == [] then AtEnd() else At(0)
    {
      hide EntryBytes, Laid;
      MarksKnown();
      BoundedBlock();
      SeekToRestartPoint(0);
      var more := ParseNextKey(0);
    }

    lemma MarksKnown()
      requires Block()
      ensures numRestarts == |plan.marks| > 0 && plan.marks[0] == 0
      ensures |plan.offs| == |plan.es| + 1 && plan.offs[|plan.es|] == restarts
      ensures forall j, k | 0 <= j < k < |plan.marks| :: plan.marks[j] < plan.marks[k]
      ensures forall j | 0 < j < |plan.marks| :: plan.marks[j] < |plan.es|
    {
    }

    // The loop of Prev and SeekToLast: parse on to the entry that ends at the limit.
    method SkipTo(ghost from: nat, ghost k: nat, limit: nat)
      requires Block() && Poised(from) && from <= k <= |plan.es| && limit == plan.offs[k]
      requires from == k ==> k == |plan.es|
      modifies `current, `restartIndex, `key, `valueAt, `valueSize
      ensures if from < k then At(k - 1) else AtEnd()
    {
      hide EntryBytes, Laid, Poised;
      ghost var i := from;
      BoundedBlock();
      var more := ParseNextKey(i);
      while more && NextEntryOffset() < limit
        invariant if from < k then more && i < k && At(i) else !more && AtEnd()
        decreases k - i
      {
        NextPoised(i);
        BeforeLimit(i, k);
        i := i + 1;
        more := ParseNextKey(i);
      }
      if from < k {
        BeforeLimit(i, k);
      }
    }

    lemma BoundedBlock()
      requires Block()
      ensures Bounded()
    {
    }

    lemma BeforeLimit(i: nat, k: nat)
      requires Block() && At(i) && i < k <= |plan.es|
      ensures NextEntryOffset() < plan.offs[k] <==> i + 1 < k
    {
      hide EntryBytes;
      OffsOrder(data[..restarts], plan, i + 1, k);
    }

    method SeekToLast()
      requires Block()
      modifies `current, `restartIndex, `key, `valueAt, `valueSize
      ensures if plan.es == [] then AtEnd() else At(|plan.es| - 1)
    {
      hide EntryBytes, Laid, Poised;
      MarksKnown();
      BoundedBlock();
      SeekToRestartPoint(numRestarts - 1);
      SkipTo(plan.marks[numRestarts - 1], |plan.es|, restarts);
    }

    method Prev(ghost i: nat)
      requires Block() && At(i)
      modifies `current, `restartIndex, `key, `valueAt, `valueSize
      ensures if i == 0 then AtEnd() else At(i - 1)
    {
      hide EntryBytes, Laid, Poised;
      MarksKnown();
      BoundedBlock();
      // Only a restart point that lies before the entry itself can lead to the one before it.
      var original := current;
      while GetRestartPoint(restartIndex) >= original
        invariant restartIndex < numRestarts && plan.marks[restartIndex] <= i
        modifies `restartIndex, `current
        decreases restartIndex
      {
        RestartBefore(restartIndex, i);
        if restartIndex == 0 {
          // the entry was the first
          current, restartIndex := restarts, numRestarts;
          return;
        }
        restartIndex := restartIndex - 1;
      }
      RestartBefore(restartIndex, i);
      SeekToRestartPoint(restartIndex);
      SkipTo(plan.marks[restartIndex], i, original);
    }

    // Halving the restart points: the last one with a key before the target,
    // or the first of all; None on a corruption.
    method FindRestart(target: Data) returns (r: Option<nat>)
      requires Bounded() && numRestarts > 0
      ensures r.Some? ==> r.value < numRestarts
      ensures Block() ==> r.Some?
      ensures Block() && r.value > 0 ==> plan.marks[r.value] < |plan.es| && less(plan.es[plan.marks[r.value]].key, target)
      ensures Block() && r.value + 1 < numRestarts ==>
        plan.marks[r.value + 1] < |plan.es| && !less(plan.es[plan.marks[r.value + 1]].key, target)
    {
      hide EntryBytes, Laid, DecodeEntry, ReadFixed32;
      ghost var sound := Block();
      if sound {
        MarksKnown();
      }
      var left: nat, right: nat := 0, numRestarts - 1;
      while left < right
        invariant left <= right < numRestarts
        invariant sound ==> forall j | 0 < j < numRestarts :: plan.marks[j] < |plan.es|
        invariant sound && left > 0 ==> less(plan.es[plan.marks[left]].key, target)
        invariant sound && right + 1 < numRestarts ==> !less(plan.es[plan.marks[right + 1]].key, target)
      {
        var mid := (left + right + 1) / 2;
        var regionOffset := GetRestartPoint(mid);
        if sound {
          MidKey(mid);
        }
        var d := if regionOffset <= restarts then DecodeEntry(data[regionOffset..restarts]) else None;
        if d.None? || d.value.shared != 0 {
          return None;
        }
        var midKey := d.value.rest[..d.value.nonShared];
        if less(midKey, target) {
          left := mid;
        } else {
          right := mid - 1;
        }
      }
      return Some(left);
    }

    // Restart points first, then a linear search: the entry a linear search alone finds.
    method Seek(target: Data)
      requires Bounded() && numRestarts > 0
      modifies `current, `restartIndex, `key, `valueAt, `valueSize
      ensures Valid() ==> NextEntryOffset() <= restarts
      ensures Block() ==>
        var k := FirstAtOrAfter(plan.es, less, target);
        if k < |plan.es| then At(k) else AtEnd()
    {
      hide EntryBytes, Laid, Poised, At, Opened;
      ghost var sound := Block();
      var left := FindRestart(target);
      if left.None? {
        CorruptionError();
        return;
      }
      SeekToRestartPoint(left.value);
      ghost var i: nat := 0;
      if sound {
        BeforeMark(left.value, target);
        i := plan.marks[left.value];
      }
      while true
        invariant sound ==> i <= |plan.es| && Poised(i) && forall j | 0 <= j < i :: less(plan.es[j].key, target)
        decreases restarts - NextEntryOffset()
      {
        var more := ParseNextKey(i);
        if sound {
          Landed(i, target, more);
        }
        if !more {
          return;
        }
        if !less(key, target) {
          return;
        }
        i := i + 1;
      }
    }

    lemma Landed(i: nat, target: Data, more: bool)
      requires Block() && i <= |plan.es| && forall j | 0 <= j < i :: less(plan.es[j].key, target)
      requires more == (i < |plan.es|) && (more ==> At(i))
      ensures !more || !less(key, target) ==> FirstAtOrAfter(plan.es, less, target) == i
      ensures more && less(key, target) ==> Poised(i + 1) && less(plan.es[i].key, target)
    {
      hide EntryBytes, Laid;
      if more && less(key, target) {
        NextPoised(i);
      } else {
        BoundIs(plan.es, less, target, i);
      }
    }

    // A restart point past the first holds a whole key.
    lemma MidKey(j: nat)
      requires Block() && 0 < j < numRestarts
      ensures plan.marks[j] < |plan.es| && GetRestartPoint(j) <= restarts
      ensures var d := DecodeEntry(data[GetRestartPoint(j)..restarts]);
        && d.Some? && d.value.shared == 0
        && d.value.rest[..d.value.nonShared] == plan.es[plan.marks[j]].key
    {
      hide EntryBytes, DecodeEntry, ReadFixed32;
      RestartPoised(j);
      ParseFacts(plan.marks[j]);
    }

    lemma BeforeMark(left: nat, target: Data)
      requires Block() && left < numRestarts
      requires left > 0 ==> plan.marks[left] < |plan.es| && less(plan.es[plan.marks[left]].key, target)
      ensures plan.marks[left] <= |plan.es|
      ensures forall j | 0 <= j < plan.marks[left] :: less(plan.es[j].key, target)
    {
      hide EntryBytes, Laid, ReadFixed32;
      MarksKnown();
    }
  }

  // ---- Blocks end to end. ----

  // Block::Block and NewIterator; null on an error, or where there is nothing to iterate.
  method NewIterator(less: (Data, Data) -> bool, data: Data, ghost buf: Data, ghost plan: Plan) returns (it: BlockIter?)
    ensures it != null ==> fresh(it) && it.less == less && it.Bounded() && it.numRestarts > 0
    ensures Finished(data, buf, plan) && Transitive(less) && Increasing(plan.es, less) ==>
      it != null && it.plan == plan && it.Block()
  {
    hide ReadFixed32, Finished, Opened, Transitive, Increasing;
    if Finished(data, buf, plan) {
      WholeOpens(data, buf, plan);
    }
    if |data| < 4 {
      return null;
    }
    var numRestarts := ReadFixed32(data[|data| - 4..]);
    var maxRestartsAllowed := (|data| - 4) / 4;
    if numRestarts > maxRestartsAllowed || numRestarts == 0 {
      return null;
    }
    it := new BlockIter(less, data, |data| - (1 + numRestarts) * 4, numRestarts, plan);
  }

  // A block built of some pairs.
  method Build(es: seq<Pair>, interval: nat) returns (block: Data, ghost buf: Data, ghost plan: Plan)
    requires interval >= 1 && forall e | e in es :: Small(e)
    ensures plan.es == es && (|block| < TWO_32 ==> Finished(block, buf, plan))
  {
    hide Laid, Small, Whole, Restarts;
    var builder := new BlockBuilder(interval);
    for n := 0 to |es|
      invariant fresh(builder) && builder.Valid() && !builder.finished && builder.Entries() == es[..n]
    {
      assert es[n] in es && es[n] == Pair(es[n].key, es[n].value);
      builder.Add(es[n].key, es[n].value);
    }
    assert es[..|es|] == es;
    buf, plan := builder.buffer, builder.plan;
    block := builder.Finish();
  }

  // A pass forwards gives the pairs as they were added, a pass backwards the same in reverse.
  method Forwards(it: BlockIter) returns (out: seq<Pair>)
    requires it.Block()
    modifies it
    ensures out == it.plan.es
  {
    hide Opened, Laid, Transitive, Increasing;
    out := [];
    it.MarksKnown();
    it.SeekToFirst();
    ghost var i := 0;
    while it.Valid()
      invariant i <= |it.plan.es| && out == it.plan.es[..i]
      invariant if i < |it.plan.es| then it.At(i) else it.AtEnd()
      decreases |it.plan.es| - i
    {
      out := out + [Pair(it.key, it.Value())];
      it.Next(i);
      i := i + 1;
    }
    it.AtIsValid(i);
    assert it.plan.es[..|it.plan.es|] == it.plan.es;
  }

  method Backwards(it: BlockIter) returns (out: seq<Pair>)
    requires it.Block()
    modifies it
    ensures |out| == |it.plan.es| && forall j | 0 <= j < |out| :: out[j] == it.plan.es[|out| - 1 - j]
  {
    hide Opened, Laid, Transitive, Increasing;
    out := [];
    it.SeekToLast();
    ghost var n := |it.plan.es|;
    while it.Valid()
      invariant |out| <= n && forall j | 0 <= j < |out| :: out[j] == it.plan.es[n - 1 - j]
      invariant if |out| < n then it.At(n - 1 - |out|) else it.AtEnd()
      decreases n - |out|
    {
      ghost var i: nat := n - 1 - |out|;
      out := out + [Pair(it.key, it.Value())];
      it.Prev(i);
    }
    if |out| < n {
      it.AtIsValid(n - 1 - |out|);
    }
  }

  // Built, opened, and read both ways.
  method BuildAndRead(es: seq<Pair>, interval: nat, less: (Data, Data) -> bool)
    returns (size: nat, forth: seq<Pair>, back: seq<Pair>)
    requires interval >= 1 && (forall e | e in es :: Small(e)) && Transitive(less) && Increasing(es, less)
    ensures size < TWO_32 ==>
      forth == es && |back| == |es| && forall j | 0 <= j < |es| :: back[j] == es[|es| - 1 - j]
  {
    hide Small, Transitive, Increasing, Finished;
    var block, buf, plan := Build(es, interval);
    size, forth, back := |block|, [], [];
    var it := NewIterator(less, block, buf, plan);
    if it != null && size < TWO_32 {
      forth := Forwards(it);
      back := Backwards(it);
    }
  }
}
