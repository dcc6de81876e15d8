// Bloom filters (util/bloom.cc), and the block of them a table carries (table/filter_block.cc).

module Blooms {
  import opened Bits

  // Rotated right by 17 bits.
  function Delta(h: nat): nat {
    h / 0x2_0000 + h % 0x2_0000 * 0x8000
  }

  // The j-th of a key's double-hashing sequence, in 32 bits.
  function Probe(h: nat, j: nat): nat {
    (h + j * Delta(h)) % 0x1_0000_0000
  }

  predicate BitAt(array_: Data, p: nat)
    requires p < 8 * |array_|
  {
    array_[p / 8].bits[p % 8]
  }

  function SetBit(array_: Data, p: nat): (r: Data)
    requires p < 8 * |array_|
    ensures |r| == |array_|
  {
    array_[p / 8 := Octet(array_[p / 8].bits[p % 8 := true])]
  }

  lemma SetBitIs(array_: Data, p: nat, q: nat)
    requires p < 8 * |array_| && q < 8 * |array_|
    ensures BitAt(SetBit(array_, p), q) <==> q == p || BitAt(array_, q)
  {
    assert p == 8 * (p / 8) + p % 8 && q == 8 * (q / 8) + q % 8;
  }

  // Some probe among the first k of a key, or the first j of the last key, hits the position.
  ghost predicate HitBy(h: nat, k: nat, bits: nat, p: nat)
    requires bits > 0
  {
    exists j :: 0 <= j < k && Probe(h, j) % bits == p
  }

  ghost predicate Hit(hashes: seq<nat>, k: nat, bits: nat, p: nat)
    requires bits > 0
  {
    exists i :: 0 <= i < |hashes| && HitBy(hashes[i], k, bits, p)
  }

  ghost predicate AllSet(h: nat, k: nat, array_: Data)
    requires array_ != []
  {
    forall p | 0 <= p < 8 * |array_| && HitBy(h, k, 8 * |array_|, p) :: BitAt(array_, p)
  }

  // A filter's bit array, before the byte that says how many probes were used.
  function ArrayOf(f: Data): Data
    requires f != []
  {
    f[..|f| - 1]
  }

  // BloomFilterPolicy, with its hash left arbitrary and the number of probes as rounded by its constructor.
  class BloomFilterPolicy {
    const bitsPerKey: nat
    const k: nat
    const hash: Data -> nat

    constructor (bitsPerKey: nat, probes: nat, hash: Data -> nat)
      ensures 1 <= k <= 30 && this.hash == hash
    {
      this.bitsPerKey, this.hash := bitsPerKey, hash;
      k := if probes < 1 then 1 else if probes > 30 then 30 else probes;
    }

    function Hashes(keys: seq<Data>): (r: seq<nat>)
      ensures |r| == |keys|
    {
      seq(|keys|, i requires 0 <= i < |keys| => hash(keys[i]))
    }

    // The filter's bits are exactly the positions its keys' probes hit.
    ghost predicate IsFilter(keys: seq<Data>, f: Data) {
      && |f| >= 9 && NumberOf(f[|f| - 1]) == k <= 30
      && var bits := 8 * |ArrayOf(f)|;
         forall p | 0 <= p < bits :: BitAt(ArrayOf(f), p) <==> Hit(Hashes(keys), k, bits, p)
    }

    method CreateFilter(keys: seq<Data>) returns (f: Data)
      requires 1 <= k <= 30
      ensures IsFilter(keys, f)
    {
      hide Probe, SetBit, BitAt;
      var bits := |keys| * bitsPerKey;
      if bits < 64 {
        bits := 64;
      }
      var bytes := (bits + 7) / 8;
      bits := bytes * 8;
      var array_ := Blank8(bytes);
      var i := 0;
      NothingHit(array_, bytes, Hashes(keys)[..0], k);
      while i < |keys|
        invariant i <= |keys| && |array_| == bytes
        invariant forall p | 0 <= p < bits :: BitAt(array_, p) <==> Hit(Hashes(keys)[..i], k, bits, p)
      {
        array_ := AddHash(array_, Hashes(keys)[..i], hash(keys[i]));
        assert Hashes(keys)[..i + 1] == Hashes(keys)[..i] + [hash(keys[i])];
        i := i + 1;
      }
      assert Hashes(keys)[..|keys|] == Hashes(keys);
      ByteRoundTrip(k);
      f := array_ + [ByteOf(k)];
      assert ArrayOf(f) == array_;
    }

    // The inner loop: one key's probes.
    method AddHash(before: Data, ghost hashes: seq<nat>, h0: nat) returns (array_: Data)
      requires before != []
      requires forall p | 0 <= p < 8 * |before| :: BitAt(before, p) <==> Hit(hashes, k, 8 * |before|, p)
      ensures |array_| == |before|
      ensures forall p | 0 <= p < 8 * |before| :: BitAt(array_, p) <==> Hit(hashes + [h0], k, 8 * |before|, p)
    {
      hide SetBit, BitAt, Delta;
      array_ := before;
      var h := h0 % 0x1_0000_0000;
      var delta := Delta(h0);
      var j := 0;
      while j < k
        invariant j <= k && |array_| == |before| && h == Probe(h0, j)
        invariant forall p | 0 <= p < 8 * |before| ::
          BitAt(array_, p) <==> Hit(hashes, k, 8 * |before|, p) || HitBy(h0, j, 8 * |before|, p)
      {
        var bitpos := h % (8 * |array_|);
        OneMoreProbe(array_, hashes, k, h0, j);
        array_ := SetBit(array_, bitpos);
        NextProbe(h0, j);
        h := (h + delta) % 0x1_0000_0000;
        j := j + 1;
      }
      forall p | 0 <= p < 8 * |before|
        ensures Hit(hashes + [h0], k, 8 * |before|, p) <==> Hit(hashes, k, 8 * |before|, p) || HitBy(h0, k, 8 * |before|, p)
      {
        OneMoreHash(hashes, h0, k, 8 * |before|, p);
      }
    }

    // Every probe of the key finds its bit set.
    method KeyMayMatch(key: Data, f: Data) returns (r: bool)
      ensures |f| < 2 ==> !r
      ensures |f| >= 2 && NumberOf(f[|f| - 1]) > 30 ==> r
      ensures |f| >= 2 && NumberOf(f[|f| - 1]) <= 30 ==>
        (r <==> AllSet(hash(key), NumberOf(f[|f| - 1]), ArrayOf(f)))
    {
      hide BitAt, Delta, NumberOf;
      if |f| < 2 {
        return false;
      }
      var array_, bits := ArrayOf(f), 8 * (|f| - 1);
      var probes := NumberOf(f[|f| - 1]);
      if probes > 30 {
        return true;
      }
      var h0 := hash(key);
      var h := h0 % 0x1_0000_0000;
      var delta := Delta(h0);
      var j := 0;
      while j < probes
        invariant j <= probes && h == Probe(h0, j)
        invariant forall i | 0 <= i < j :: BitAt(array_, Probe(h0, i) % bits)
      {
        var bitpos := h % bits;
        if !BitAt(array_, bitpos) {
          assert HitBy(h0, probes, bits, bitpos);
          return false;
        }
        NextProbe(h0, j);
        h := (h + delta) % 0x1_0000_0000;
        j := j + 1;
      }
      return true;
    }

    // No false negatives.
    lemma FilterMatchesItsKeys(keys: seq<Data>, f: Data, key: Data)
      requires IsFilter(keys, f) && key in keys
      ensures AllSet(hash(key), k, ArrayOf(f))
    {
      var i :| 0 <= i < |keys| && keys[i] == key;
      assert Hashes(keys)[i] == hash(key);
    }
  }

  function Blank8(n: nat): (r: Data)
    ensures |r| == n
  {
    seq(n, i => Octet(Blank(8)))
  }

  lemma NothingHit(array_: Data, bytes: nat, hashes: seq<nat>, k: nat)
    requires array_ == Blank8(bytes) && bytes > 0 && hashes == []
    ensures forall p | 0 <= p < 8 * bytes :: BitAt(array_, p) <==> Hit(hashes, k, 8 * bytes, p)
  {
  }

  // One probe on.
  lemma NextProbe(h: nat, j: nat)
    ensures Probe(h, j + 1) == (Probe(h, j) + Delta(h)) % 0x1_0000_0000
  {
    hide Delta;
    assert h + (j + 1) * Delta(h) == (h + j * Delta(h)) + Delta(h);
    AddModulo(h + j * Delta(h), Delta(h));
  }

  lemma AddModulo(a: nat, b: nat)
    ensures (a + b) % 0x1_0000_0000 == (a % 0x1_0000_0000 + b) % 0x1_0000_0000
  {
  }

  lemma OneMoreProbe(array_: Data, hashes: seq<nat>, k: nat, h: nat, j: nat)
    requires array_ != []
    requires forall p | 0 <= p < 8 * |array_| ::
      BitAt(array_, p) <==> Hit(hashes, k, 8 * |array_|, p) || HitBy(h, j, 8 * |array_|, p)
    ensures forall p | 0 <= p < 8 * |array_| ::
      BitAt(SetBit(array_, Probe(h, j) % (8 * |array_|)), p) <==>
        Hit(hashes, k, 8 * |array_|, p) || HitBy(h, j + 1, 8 * |array_|, p)
  {
    hide BitAt, SetBit, Hit, Probe;
    var bits := 8 * |array_|;
    var q := Probe(h, j) % bits;
    forall p | 0 <= p < bits
      ensures BitAt(SetBit(array_, q), p) <==> Hit(hashes, k, bits, p) || HitBy(h, j + 1, bits, p)
    {
      SetBitIs(array_, q, p);
      OneMoreHit(h, j, bits, p);
    }
  }

  lemma OneMoreHit(h: nat, j: nat, bits: nat, p: nat)
    requires bits > 0
    ensures HitBy(h, j + 1, bits, p) <==> HitBy(h, j, bits, p) || p == Probe(h, j) % bits
  {
    hide Probe;
    if HitBy(h, j, bits, p) {
      var i :| 0 <= i < j && Probe(h, i) % bits == p;
      assert 0 <= i < j + 1;
    }
  }

  lemma OneMoreHash(hashes: seq<nat>, h: nat, k: nat, bits: nat, p: nat)
    requires bits > 0
    ensures Hit(hashes + [h], k, bits, p) <==> Hit(hashes, k, bits, p) || HitBy(h, k, bits, p)
  {
    hide HitBy;
    var s := hashes + [h];
    if Hit(hashes, k, bits, p) {
      var i :| 0 <= i < |hashes| && HitBy(hashes[i], k, bits, p);
      assert s[i] == hashes[i];
    }
    if HitBy(h, k, bits, p) {
      assert s[|hashes|] == h;
    }
  }
}

module FilterBlocks {
  import opened Sequences
  import opened Bits
  import opened Coding
  import opened Blooms

  // ExtractUserKey: an internal key without its eight-byte tag.
  function UserOf(key: Data): Data {
    if |key| < 8 then [] else key[..|key| - 8]
  }

  // InternalFilterPolicy hands the policy user keys.
  function UsersOf(keys: seq<Data>): (r: seq<Data>)
    ensures |r| == |keys|
  {
    seq(|keys|, i requires 0 <= i < |keys| => UserOf(keys[i]))
  }

  const FILTER_BASE: nat := 2048

  function IndexOf(blockOffset: nat): nat {
    blockOffset / 2048
  }

  // Where filter i ends: at the next one, or with everything.
  function EndOf(result: Data, offsets: seq<nat>, i: nat): nat
    requires i < |offsets|
  {
    if i + 1 < |offsets| then offsets[i + 1] else |result|
  }

  // Each filter is that of its group of keys; a group without keys has none.
  ghost predicate FilterAt(policy: BloomFilterPolicy, result: Data, offsets: seq<nat>, groups: seq<seq<Data>>, i: nat)
    requires i < |offsets| == |groups|
  {
    && offsets[i] <= EndOf(result, offsets, i) <= |result|
    && (groups[i] == [] ==> offsets[i] == EndOf(result, offsets, i))
    && (groups[i] != [] ==> policy.IsFilter(UsersOf(groups[i]), result[offsets[i]..EndOf(result, offsets, i)]))
  }

  ghost predicate Filters(policy: BloomFilterPolicy, result: Data, offsets: seq<nat>, groups: seq<seq<Data>>) {
    |offsets| == |groups| && forall i: nat | i < |offsets| :: FilterAt(policy, result, offsets, groups, i)
  }

  lemma FiltersAppend(policy: BloomFilterPolicy, result: Data, offsets: seq<nat>, groups: seq<seq<Data>>, f: Data, keys: seq<Data>)
    requires Filters(policy, result, offsets, groups)
    requires if keys == [] then f == [] else policy.IsFilter(UsersOf(keys), f)
    ensures Filters(policy, result + f, offsets + [|result|], groups + [keys])
  {
    hide Fixed32;
    var r, o, g := result + f, offsets + [|result|], groups + [keys];
    forall i: nat | i < |o|
      ensures FilterAt(policy, r, o, g, i)
    {
      if i < |offsets| {
        FilterStays(policy, result, offsets, groups, f, keys, i);
      } else {
        Drops(result, f);
        assert EndOf(r, o, i) == |r| && o[i] == |result| && g[i] == keys && r[|result|..|r|] == f;
      }
    }
  }

  lemma FilterStays(policy: BloomFilterPolicy, result: Data, offsets: seq<nat>, groups: seq<seq<Data>>, f: Data,
                    keys: seq<Data>, i: nat)
    requires Filters(policy, result, offsets, groups) && i < |offsets|
    ensures FilterAt(policy, result + f, offsets + [|result|], groups + [keys], i)
  {
    assert FilterAt(policy, result, offsets, groups, i);
    var e := EndOf(result, offsets, i);
    assert EndOf(result + f, offsets + [|result|], i) == e;
    assert (result + f)[offsets[i]..e] == result[offsets[i]..e];
  }

  // A finished filter block.
  function Closed(result: Data, offsets: seq<nat>): Data {
    result + AllFixed(offsets) + Fixed32(|result|) + [ByteOf(11)]
  }

  class FilterBlockBuilder {
    const policy: BloomFilterPolicy
    var keys: seq<Data>
    var result: Data
    var filterOffsets: seq<nat>
    ghost var groups: seq<seq<Data>>
    // The block offset the next keys belong to, and what has been added under each offset.
    ghost var current: nat
    ghost var added: set<(nat, Data)>

    ghost predicate Valid()
      reads this
    {
      && 1 <= policy.k <= 30
      && Filters(policy, result, filterOffsets, groups) && IndexOf(current) == |filterOffsets|
      && forall a | a in added :: Kept(a.0, a.1)
    }

    // A key added under a block's offset is in the group of that offset, or still to be grouped.
    ghost predicate Kept(offset: nat, key: Data)
      reads `keys, `groups
    {
      if IndexOf(offset) < |groups| then key in groups[IndexOf(offset)]
      else IndexOf(offset) == |groups| && key in keys
    }

    constructor (policy: BloomFilterPolicy)
      requires 1 <= policy.k <= 30
      ensures Valid() && added == {} && current == 0 && this.policy == policy
    {
      this.policy := policy;
      keys, result, filterOffsets := [], [], [];
      groups, current, added := [], 0, {};
    }

    method StartBlock(blockOffset: nat)
      requires Valid() && blockOffset >= current
      modifies this
      ensures Valid() && current == blockOffset && added == old(added)
    {
      var filterIndex := blockOffset / 2048;
      assert filterIndex >= |filterOffsets|;
      while filterIndex > |filterOffsets|
        invariant 1 <= policy.k <= 30 && |filterOffsets| <= filterIndex && added == old(added)
        invariant Filters(policy, result, filterOffsets, groups)
        invariant forall a | a in added :: Kept(a.0, a.1)
        decreases filterIndex - |filterOffsets|
      {
        GenerateFilter();
      }
      current := blockOffset;
    }

    method AddKey(key: Data)
      requires Valid()
      modifies `keys, `added
      ensures Valid() && added == old(added) + {(current, key)}
    {
      keys := keys + [key];
      added := added + {(current, key)};
    }

    method GenerateFilter()
      requires 1 <= policy.k <= 30 && Filters(policy, result, filterOffsets, groups)
      requires forall a | a in added :: Kept(a.0, a.1)
      modifies `keys, `result, `filterOffsets, `groups
      ensures Filters(policy, result, filterOffsets, groups) && |filterOffsets| == old(|filterOffsets|) + 1
      ensures keys == [] && forall a | a in added :: Kept(a.0, a.1)
    {
      hide Filters;
      ghost var f: Data := [];
      FiltersSize(policy, result, filterOffsets, groups);
      if keys == [] {
        FiltersAppend(policy, result, filterOffsets, groups, [], []);
        assert result + [] == result;
        filterOffsets := filterOffsets + [|result|];
      } else {
        var filter := policy.CreateFilter(UsersOf(keys));
        FiltersAppend(policy, result, filterOffsets, groups, filter, keys);
        filterOffsets := filterOffsets + [|result|];
        result := result + filter;
      }
      groups := groups + [keys];
      keys := [];
    }

    lemma FiltersSize(policy: BloomFilterPolicy, result: Data, offsets: seq<nat>, groups: seq<seq<Data>>)
      requires Filters(policy, result, offsets, groups)
      ensures |offsets| == |groups|
    {
    }

    method Finish() returns (contents: Data)
      requires Valid()
      modifies `keys, `result, `filterOffsets, `groups
      ensures Filters(policy, result, filterOffsets, groups) && contents == Closed(result, filterOffsets)
      ensures forall a | a in added :: IndexOf(a.0) < |groups| && a.1 in groups[IndexOf(a.0)]
    {
      if keys != [] {
        GenerateFilter();
      }
      contents := result;
      var i := 0;
      NoneFixed(filterOffsets);
      while i < |filterOffsets|
        invariant i <= |filterOffsets| && contents == result + AllFixed(filterOffsets[..i])
        modifies {}
      {
        AllFixedStep(filterOffsets, i);
        Associates(result, AllFixed(filterOffsets[..i]), Fixed32(filterOffsets[i]));
        contents := contents + Fixed32(filterOffsets[i]);
        i := i + 1;
      }
      assert filterOffsets[..|filterOffsets|] == filterOffsets;
      contents := contents + Fixed32(|result|);
      contents := contents + [ByteOf(11)];
    }
  }

  // The bytes of a filter block whose builder ended up with these filters.
  ghost predicate ClosedOver(policy: BloomFilterPolicy, contents: Data, result: Data, offsets: seq<nat>, groups: seq<seq<Data>>) {
    && Filters(policy, result, offsets, groups) && contents == Closed(result, offsets) && |contents| < TWO_32
  }

  // Some key of the group has this user key.
  ghost predicate Covers(groups: seq<seq<Data>>, i: nat, user: Data) {
    i < |groups| && exists x :: x in groups[i] && UserOf(x) == user
  }

  class FilterBlockReader {
    const policy: BloomFilterPolicy
    const contents: Data
    const offsetAt: nat
    const num: nat
    const baseLg: nat

    predicate Bounded() {
      num > 0 ==> offsetAt + 4 * num + 5 <= |contents|
    }

    constructor (policy: BloomFilterPolicy, contents: Data, ghost result: Data, ghost offsets: seq<nat>, ghost groups: seq<seq<Data>>)
      ensures this.policy == policy && this.contents == contents && Bounded()
      ensures ClosedOver(policy, contents, result, offsets, groups) ==>
        Reads(result, offsets, groups)
    {
      hide ReadFixed32, NumberOf, Closed, Filters;
      if ClosedOver(policy, contents, result, offsets, groups) {
        ClosedReads(result, offsets);
      }
      this.policy, this.contents := policy, contents;
      offsetAt, num, baseLg := 0, 0, 0;
      var n := |contents|;
      if n >= 5 {
        baseLg := NumberOf(contents[n - 1]);
        var lastWord := ReadFixed32(contents[n - 5..]);
        if lastWord <= n - 5 {
          offsetAt := lastWord;
          num := (n - 5 - lastWord) / 4;
        }
      }
    }

    ghost predicate Reads(result: Data, offsets: seq<nat>, groups: seq<seq<Data>>) {
      ClosedOver(policy, contents, result, offsets, groups) && offsetAt == |result| && num == |offsets| && baseLg == 11
    }

    // No key that was added under the block's offset is missed.
    method KeyMayMatch(blockOffset: nat, key: Data, ghost result: Data, ghost offsets: seq<nat>, ghost groups: seq<seq<Data>>)
      returns (r: bool)
      requires Bounded()
      ensures Reads(result, offsets, groups) && Covers(groups, IndexOf(blockOffset), UserOf(key)) ==> r
    {
      hide ReadFixed32, Closed, Filters, UserOf, Covers, IndexOf, ShiftedRight, AllSet, ArrayOf;
      var index := ShiftedRight(blockOffset, baseLg);
      ghost var sound := Reads(result, offsets, groups) && Covers(groups, IndexOf(blockOffset), UserOf(key));
      if sound {
        ShiftedByEleven(blockOffset);
        FilterFound(policy, contents, result, offsets, groups, index, UserOf(key));
      }
      if index < num {
        var start := ReadFixed32(contents[offsetAt + index * 4..]);
        var limit := ReadFixed32(contents[offsetAt + index * 4 + 4..]);
        if start <= limit && limit <= offsetAt {
          r := policy.KeyMayMatch(UserOf(key), contents[start..limit]);
          return;
        } else if start == limit {
          return false;
        }
      }
      return true;
    }
  }

  function ShiftedRight(x: nat, n: nat): nat {
    if n == 0 then x else ShiftedRight(x / 2, n - 1)
  }

  lemma ShiftedByEleven(x: nat)
    ensures ShiftedRight(x, 11) == IndexOf(x)
  {
    ShiftedByThree(x, 8);
    ShiftedByThree(x / 8, 5);
    ShiftedByThree(x / 64, 2);
    assert ShiftedRight(x / 512, 2) == ShiftedRight(x / 512 / 2, 1) == ShiftedRight(x / 512 / 2 / 2, 0);
    assert x / 8 / 8 == x / 64 && x / 64 / 8 == x / 512 && x / 512 / 2 / 2 == x / 2048;
  }

  lemma ShiftedByThree(x: nat, n: nat)
    ensures ShiftedRight(x, n + 3) == ShiftedRight(x / 8, n)
  {
    assert ShiftedRight(x, n + 3) == ShiftedRight(x / 2, n + 2) == ShiftedRight(x / 2 / 2, n + 1);
    assert ShiftedRight(x / 2 / 2, n + 1) == ShiftedRight(x / 2 / 2 / 2, n);
    assert x / 2 / 2 / 2 == x / 8;
  }

  lemma ClosedReads(result: Data, offsets: seq<nat>)
    requires |Closed(result, offsets)| < TWO_32
    ensures var contents := Closed(result, offsets);
      var n := |contents|;
      && n == |result| + 4 * |offsets| + 5 && NumberOf(contents[n - 1]) == 11
      && ReadFixed32(contents[n - 5..]) == |result|
  {
    hide Fixed32, ReadFixed32, AllFixed, NumberOf, ByteOf;
    var contents := Closed(result, offsets);
    ByteRoundTrip(11);
    ReadsFixed32(|result|, [ByteOf(11)]);
    assert contents[|contents| - 5..] == Fixed32(|result|) + [ByteOf(11)];
  }

  // The i-th word of the offset array; one past the last is the array's own start.
  lemma OffsetReads(result: Data, offsets: seq<nat>, i: nat)
    requires i <= |offsets| && |Closed(result, offsets)| < TWO_32 && (i < |offsets| ==> offsets[i] <= |result|)
    ensures ReadFixed32(Closed(result, offsets)[|result| + 4 * i..]) == if i < |offsets| then offsets[i] else |result|
  {
    hide Fixed32, ReadFixed32, AllFixed, ByteOf;
    var end := Fixed32(|result|) + [ByteOf(11)];
    var contents := Closed(result, offsets);
    assert contents == result + (AllFixed(offsets) + end);
    assert contents[|result| + 4 * i..] == (AllFixed(offsets) + end)[4 * i..];
    if i < |offsets| {
      AllFixedReads(offsets, i, end);
    } else {
      assert (AllFixed(offsets) + end)[4 * i..] == end;
      ReadsFixed32(|result|, [ByteOf(11)]);
    }
  }

  // The filter of a group holds the bits of every user key in the group.
  lemma FilterFound(policy: BloomFilterPolicy, contents: Data, result: Data, offsets: seq<nat>, groups: seq<seq<Data>>, i: nat, user: Data)
    requires ClosedOver(policy, contents, result, offsets, groups) && Covers(groups, i, user)
    ensures i < |offsets| && |contents| == |result| + 4 * |offsets| + 5
    ensures var start, limit := ReadFixed32(contents[|result| + i * 4..]), ReadFixed32(contents[|result| + i * 4 + 4..]);
      && start <= limit <= |result|
      && var f := contents[start..limit];
         |f| >= 9 && NumberOf(f[|f| - 1]) == policy.k <= 30 && AllSet(policy.hash(user), policy.k, ArrayOf(f))
  {
    hide ReadFixed32, AllSet, ArrayOf, NumberOf, UserOf, Closed;
    assert |offsets| == |groups| && FilterAt(policy, result, offsets, groups, i);
    ClosedReads(result, offsets);
    if i + 1 < |offsets| {
      assert FilterAt(policy, result, offsets, groups, i + 1);
    }
    OffsetReads(result, offsets, i);
    OffsetReads(result, offsets, i + 1);
    var x :| x in groups[i] && UserOf(x) == user;
    var j :| 0 <= j < |groups[i]| && groups[i][j] == x;
    assert UsersOf(groups[i])[j] == user;
    var e := EndOf(result, offsets, i);
    ClosedStarts(result, offsets);
    SliceOfPrefix(contents, result, offsets[i], e);
    policy.FilterMatchesItsKeys(UsersOf(groups[i]), result[offsets[i]..e], user);
    IsFilterParts(policy, UsersOf(groups[i]), result[offsets[i]..e]);
  }

  lemma ClosedStarts(result: Data, offsets: seq<nat>)
    ensures |result| <= |Closed(result, offsets)| && Closed(result, offsets)[..|result|] == result
  {
  }

  lemma IsFilterParts(policy: BloomFilterPolicy, keys: seq<Data>, f: Data)
    requires policy.IsFilter(keys, f)
    ensures |f| >= 9 && NumberOf(f[|f| - 1]) == policy.k <= 30
  {
  }
}
