// The sharded cache's shard (util/cache.cc): a chained hash table, two lists and reference counts.

module HandleTables {
  import opened Sequences
  import opened Bits

  class LRUHandle {
    const key: Data
    const hash: nat
    const charge: nat
    var inCache: bool
    var refs: nat

    constructor (key: Data, hash: nat, charge: nat)
      ensures this.key == key && this.hash == hash && this.charge == charge && !inCache && refs == 1
    {
      this.key, this.hash, this.charge := key, hash, charge;
      inCache, refs := false, 1;
    }
  }

  predicate Matches(h: LRUHandle, key: Data, hash: nat) {
    h.hash == hash && h.key == key
  }

  // A bucket's chain.
  type Chain = seq<LRUHandle>

  // Every handle is in the bucket of its hash, and no two answer to the same key.
  ghost predicate GoodChain(c: Chain, i: nat, length: nat)
    requires length > 0
  {
    && (forall h | h in c :: h.hash % length == i)
    && forall p, q | 0 <= p < q < |c| :: !Matches(c[p], c[q].key, c[q].hash)
  }

  ghost function HeldBy(chains: seq<Chain>): set<LRUHandle> {
    set i, h | 0 <= i < |chains| && h in chains[i] :: h
  }

  function Total(chains: seq<Chain>): nat {
    if chains == [] then 0 else Total(chains[..|chains| - 1]) + |chains[|chains| - 1]|
  }

  ghost predicate Good(chains: seq<Chain>) {
    |chains| >= 4 && forall i: nat | i < |chains| :: GoodChain(chains[i], i, |chains|)
  }

  lemma {:induction false} TotalUpdate(chains: seq<Chain>, i: nat, c: Chain)
    requires i < |chains|
    ensures Total(chains[i := c]) + |chains[i]| == Total(chains) + |c|
    decreases |chains|
  {
    var n := |chains| - 1;
    var init := chains[..n];
    if i < n {
      TotalUpdate(init, i, c);
      assert chains[i := c][..n] == init[i := c];
    } else {
      assert chains[i := c][..n] == init;
    }
  }

  // The one handle of a good table that answers to a key, if any, is in the key's bucket.
  lemma OnlyMatch(chains: seq<Chain>, h: LRUHandle, i: nat, p: nat)
    requires Good(chains) && h in HeldBy(chains) && i < |chains| && p < |chains[i]|
    requires Matches(h, chains[i][p].key, chains[i][p].hash)
    ensures h == chains[i][p]
  {
    var j: nat :| j < |chains| && h in chains[j];
    assert GoodChain(chains[i], i, |chains|) && GoodChain(chains[j], j, |chains|);
    assert chains[i][p] in chains[i];
    var q :| 0 <= q < |chains[j]| && chains[j][q] == h;
  }

  // The length is a power of two, so the hash's low bits are its remainder.
  ghost predicate IsPower(n: nat) {
    exists k: nat :: n == Pow2(k)
  }

  lemma Doubles(n: nat)
    requires IsPower(n)
    ensures IsPower(2 * n)
  {
    var k: nat :| n == Pow2(k);
    assert 2 * n == Pow2(k + 1);
  }

  function EmptyChains(n: nat): (r: seq<Chain>)
    ensures |r| == n && forall i | 0 <= i < n :: r[i] == []
  {
    seq(n, i => [])
  }

  lemma {:induction false} EmptyTotal(n: nat)
    ensures Total(EmptyChains(n)) == 0
  {
    if n > 0 {
      EmptyTotal(n - 1);
      assert EmptyChains(n)[..n - 1] == EmptyChains(n - 1);
    }
  }

  lemma MatchHeld(chains: seq<Chain>, i: nat, p: nat)
    requires i < |chains| && p < |chains[i]|
    ensures chains[i][p] in HeldBy(chains)
  {
    assert chains[i][p] in chains[i];
  }

  // Putting a handle where the search for its key ended replaces the match, or adds to the chain.
  lemma PlacedGood(chains: seq<Chain>, h: LRUHandle, i: nat, p: nat)
    requires Good(chains) && i == h.hash % |chains| && p <= |chains[i]|
    requires p < |chains[i]| ==> Matches(chains[i][p], h.key, h.hash)
    requires p == |chains[i]| ==> forall x | x in HeldBy(chains) :: !Matches(x, h.key, h.hash)
    ensures var c := if p < |chains[i]| then chains[i][p := h] else chains[i] + [h];
      && Good(chains[i := c])
      && HeldBy(chains[i := c]) == HeldBy(chains) - (if p < |chains[i]| then {chains[i][p]} else {}) + {h}
  {
    var c := if p < |chains[i]| then chains[i][p := h] else chains[i] + [h];
    var gone := if p < |chains[i]| then {chains[i][p]} else {};
    assert GoodChain(chains[i], i, |chains|);
    forall x
      ensures x in HeldBy(chains[i := c]) <==> (x in HeldBy(chains) && x !in gone) || x == h
    {
      PlacedHolds(chains, h, i, p, x);
    }
    forall q | 0 <= q < |chains[i]| && p == |chains[i]|
      ensures !Matches(chains[i][q], h.key, h.hash)
    {
      MatchHeld(chains, i, q);
    }
  }

  lemma PlacedHolds(chains: seq<Chain>, h: LRUHandle, i: nat, p: nat, x: LRUHandle)
    requires Good(chains) && i < |chains| && p <= |chains[i]|
    ensures var c := if p < |chains[i]| then chains[i][p := h] else chains[i] + [h];
      x in HeldBy(chains[i := c]) <==> (x in HeldBy(chains) && !(p < |chains[i]| && x == chains[i][p])) || x == h
  {
    var c := if p < |chains[i]| then chains[i][p := h] else chains[i] + [h];
    var d := chains[i := c];
    if x in HeldBy(d) {
      var j: nat :| j < |d| && x in d[j];
      var q :| 0 <= q < |d[j]| && d[j][q] == x;
      if p < |chains[i]| && x == chains[i][p] && x != h {
        OnlyPlace(chains, i, p, j, q);
        assert false;
      }
      if j == i && q < |chains[i]| && q != p {
        MatchHeld(chains, i, q);
      } else if j != i {
        MatchHeld(chains, j, q);
      }
    }
    if x == h {
      assert d[i] == c && c[p] == h;
      MatchHeld(d, i, p);
    } else if x in HeldBy(chains) && !(p < |chains[i]| && x == chains[i][p]) {
      var j: nat :| j < |chains| && x in chains[j];
      var q :| 0 <= q < |chains[j]| && chains[j][q] == x;
      assert d[j][q] == x;
      MatchHeld(d, j, q);
    }
  }

  lemma RemovedGood(chains: seq<Chain>, i: nat, p: nat)
    requires Good(chains) && i < |chains| && p < |chains[i]|
    ensures var c := chains[i][..p] + chains[i][p + 1..];
      && |c| == |chains[i]| - 1 && Good(chains[i := c])
      && HeldBy(chains[i := c]) == HeldBy(chains) - {chains[i][p]}
  {
    var c := chains[i][..p] + chains[i][p + 1..];
    var d := chains[i := c];
    assert GoodChain(chains[i], i, |chains|);
    forall x
      ensures x in HeldBy(d) <==> x in HeldBy(chains) && x != chains[i][p]
    {
      RemovedHolds(chains, i, p, x);
    }
  }

  lemma RemovedHolds(chains: seq<Chain>, i: nat, p: nat, x: LRUHandle)
    requires Good(chains) && i < |chains| && p < |chains[i]|
    ensures var c := chains[i][..p] + chains[i][p + 1..];
      x in HeldBy(chains[i := c]) <==> x in HeldBy(chains) && x != chains[i][p]
  {
    hide Good;
    var c := chains[i][..p] + chains[i][p + 1..];
    var d := chains[i := c];
    if x in HeldBy(d) {
      var j: nat :| j < |d| && x in d[j];
      var q: nat :| q < |d[j]| && d[j][q] == x;
      var q' := if j == i && q >= p then q + 1 else q;
      assert chains[j][q'] == x;
      MatchHeld(chains, j, q');
      if x == chains[i][p] {
        OnlyPlace(chains, i, p, j, q');
      }
    }
    if x in HeldBy(chains) && x != chains[i][p] {
      var j: nat :| j < |chains| && x in chains[j];
      if j == i {
        StillIn(chains[i], p, x);
      }
      assert x in d[j];
    }
  }

  // A handle that nothing in the table matches may go to the front of its chain.
  lemma PushedGood(chains: seq<Chain>, h: LRUHandle)
    requires Good(chains) && forall x | x in HeldBy(chains) :: !Matches(h, x.key, x.hash)
    ensures var i := h.hash % |chains|;
      && Good(chains[i := [h] + chains[i]])
      && HeldBy(chains[i := [h] + chains[i]]) == HeldBy(chains) + {h}
  {
    var i := h.hash % |chains|;
    var d := chains[i := [h] + chains[i]];
    assert GoodChain(chains[i], i, |chains|);
    forall q | 0 <= q < |chains[i]|
      ensures !Matches(h, chains[i][q].key, chains[i][q].hash)
    {
      MatchHeld(chains, i, q);
    }
    forall x
      ensures x in HeldBy(d) <==> x in HeldBy(chains) || x == h
    {
      if x in HeldBy(chains) {
        var j: nat :| j < |chains| && x in chains[j];
        assert x in d[j];
      }
      assert d[i][0] == h;
      MatchHeld(d, i, 0);
    }
  }

  // The handles before place p of chain i, in the order Resize visits them.
  ghost function Visited(chains: seq<Chain>, i: nat, p: nat): set<LRUHandle>
    requires i < |chains| ==> p <= |chains[i]|
    requires i <= |chains|
  {
    HeldBy(chains[..i]) + if i < |chains| then set h | h in chains[i][..p] else {}
  }

  lemma VisitedStep(chains: seq<Chain>, i: nat, p: nat)
    requires Good(chains) && i < |chains| && p < |chains[i]|
    ensures Visited(chains, i, p + 1) == Visited(chains, i, p) + {chains[i][p]}
    ensures forall x | x in Visited(chains, i, p) :: !Matches(chains[i][p], x.key, x.hash)
  {
    assert chains[i][..p + 1] == chains[i][..p] + [chains[i][p]];
    assert GoodChain(chains[i], i, |chains|);
    forall x | x in Visited(chains, i, p)
      ensures !Matches(chains[i][p], x.key, x.hash)
    {
      if x in HeldBy(chains[..i]) {
        var j: nat :| j < i && x in chains[j];
        assert GoodChain(chains[j], j, |chains|);
        assert chains[i][p] in chains[i];
      } else {
        var q :| 0 <= q < p && chains[i][q] == x;
      }
    }
  }

  lemma VisitedChain(chains: seq<Chain>, i: nat)
    requires i < |chains|
    ensures Visited(chains, i, |chains[i]|) == Visited(chains, i + 1, 0)
    ensures Total(chains[..i + 1]) == Total(chains[..i]) + |chains[i]|
  {
    assert chains[..i + 1][..i] == chains[..i];
    assert chains[i][..|chains[i]|] == chains[i];
    forall x
      ensures x in HeldBy(chains[..i + 1]) <==> x in HeldBy(chains[..i]) || x in chains[i]
    {
      if x in HeldBy(chains[..i]) {
        var j: nat :| j < i && x in chains[j];
        assert x in chains[..i + 1][j];
      }
      if x in chains[i] {
        assert x in chains[..i + 1][i];
      }
    }
  }

  // A handle stands in one place.
  lemma OnlyPlace(chains: seq<Chain>, i: nat, p: nat, j: nat, q: nat)
    requires Good(chains) && i < |chains| && p < |chains[i]| && j < |chains| && q < |chains[j]|
    requires chains[i][p] == chains[j][q]
    ensures i == j && p == q
  {
    assert GoodChain(chains[i], i, |chains|) && GoodChain(chains[j], j, |chains|);
    assert chains[i][p] in chains[i] && chains[j][q] in chains[j];
  }

  class HandleTable {
    var chains: seq<Chain>
    var elems: nat

    ghost predicate Valid()
      reads this
    {
      Good(chains) && elems == Total(chains) && IsPower(|chains|)
    }

    ghost function Held(): set<LRUHandle>
      reads this
    {
      HeldBy(chains)
    }

    // Only one handle answers to a key.
    lemma UniqueKeys(h: LRUHandle)
      requires Valid() && h in Held()
      ensures forall x | x in Held() && Matches(x, h.key, h.hash) :: x == h
    {
      var i: nat :| i < |chains| && h in chains[i];
      var p: nat :| p < |chains[i]| && chains[i][p] == h;
      forall x | x in Held() && Matches(x, h.key, h.hash)
        ensures x == h
      {
        OnlyMatch(chains, x, i, p);
      }
    }

    constructor ()
      ensures Valid() && Held() == {}
    {
      chains, elems := EmptyChains(4), 0;
      EmptyTotal(4);
      assert 4 == Pow2(2);
    }

    // The bucket and the place in its chain of the match, or of the chain's end.
    method FindPointer(key: Data, hash: nat) returns (i: nat, p: nat)
      requires Valid()
      ensures i == hash % |chains| < |chains| && p <= |chains[i]|
      ensures p < |chains[i]| ==> Matches(chains[i][p], key, hash)
      ensures p == |chains[i]| ==> forall h | h in Held() :: !Matches(h, key, hash)
    {
      i, p := hash % |chains|, 0;
      while p < |chains[i]| && !Matches(chains[i][p], key, hash)
        invariant p <= |chains[i]| && forall q | 0 <= q < p :: !Matches(chains[i][q], key, hash)
      {
        p := p + 1;
      }
    }

    method Lookup(key: Data, hash: nat) returns (r: LRUHandle?)
      requires Valid()
      ensures r != null ==> r in Held() && Matches(r, key, hash)
      ensures r == null ==> forall h | h in Held() :: !Matches(h, key, hash)
    {
      var i, p := FindPointer(key, hash);
      if p < |chains[i]| {
        MatchHeld(chains, i, p);
      }
      r := if p < |chains[i]| then chains[i][p] else null;
    }

    // The handle now found under its key; the one found before, if any, is given back.
    method Insert(h: LRUHandle) returns (old_: LRUHandle?)
      requires Valid()
      modifies this
      ensures Valid() && Held() == (if old_ == null then old(Held()) else old(Held()) - {old_}) + {h}
      ensures old_ != null ==> old_ in old(Held()) && Matches(old_, h.key, h.hash)
      ensures old_ == null ==> forall x | x in old(Held()) :: !Matches(x, h.key, h.hash)
    {
      hide Good, HeldBy, IsPower, Total;
      var i, p := FindPointer(h.key, h.hash);
      PlacedGood(chains, h, i, p);
      TotalUpdate(chains, i, if p < |chains[i]| then chains[i][p := h] else chains[i] + [h]);
      if p < |chains[i]| {
        MatchHeld(chains, i, p);
        old_ := chains[i][p];
        chains := chains[i := chains[i][p := h]];
      } else {
        old_ := null;
        chains := chains[i := chains[i] + [h]];
        elems := elems + 1;
        if elems > |chains| {
          Resize();
        }
      }
    }

    method Remove(key: Data, hash: nat) returns (result: LRUHandle?)
      requires Valid()
      modifies this
      ensures Valid() && Held() == if result == null then old(Held()) else old(Held()) - {result}
      ensures result != null ==> result in old(Held()) && Matches(result, key, hash)
      ensures result != null ==> forall x | x in old(Held()) && Matches(x, key, hash) :: x == result
      ensures result == null ==> forall x | x in old(Held()) :: !Matches(x, key, hash)
    {
      hide Good, HeldBy, IsPower, Total;
      var i, p := FindPointer(key, hash);
      result := null;
      if p < |chains[i]| {
        MatchHeld(chains, i, p);
        RemovedGood(chains, i, p);
        var c := chains[i][..p] + chains[i][p + 1..];
        TotalUpdate(chains, i, c);
        result := chains[i][p];
        UniqueKeys(result);
        chains := chains[i := c];
        elems := elems - 1;
      }
    }

    // The same handles in more buckets.
    method Resize()
      requires Valid()
      modifies this
      ensures Valid() && Held() == old(Held()) && elems == old(elems) <= |chains|
    {
      hide HeldBy, GoodChain, Total;
      var newLength := 4;
      assert 4 == Pow2(2);
      while newLength < elems
        invariant newLength >= 4 && IsPower(newLength)
        modifies {}
      {
        Doubles(newLength);
        newLength := newLength * 2;
      }
      hide IsPower;
      var newChains := EmptyChains(newLength);
      EmptyTotal(newLength);
      EmptyGood(newLength);
      VisitedNone(chains);
      var count: nat, i: nat := 0, 0;
      while i < |chains|
        invariant i <= |chains| && Good(newChains) && |newChains| == newLength
        invariant HeldBy(newChains) == Visited(chains, i, 0)
        invariant Total(newChains) == Total(chains[..i]) == count
        modifies {}
      {
        var p: nat := 0;
        while p < |chains[i]|
          invariant p <= |chains[i]| && Good(newChains) && |newChains| == newLength
          invariant HeldBy(newChains) == Visited(chains, i, p)
          invariant Total(newChains) == Total(chains[..i]) + p == count
          modifies {}
        {
          var h := chains[i][p];
          var j := h.hash % newLength;
          VisitedStep(chains, i, p);
          PushedGood(newChains, h);
          TotalUpdate(newChains, j, [h] + newChains[j]);
          newChains := newChains[j := [h] + newChains[j]];
          count := count + 1;
          p := p + 1;
        }
        VisitedChain(chains, i);
        i := i + 1;
      }
      assert chains[..|chains|] == chains;
      assert elems == count;
      chains := newChains;
    }
  }

  lemma EmptyGood(n: nat)
    requires n >= 4
    ensures Good(EmptyChains(n)) && HeldBy(EmptyChains(n)) == {}
  {
  }

  lemma VisitedNone(chains: seq<Chain>)
    ensures |chains| > 0 ==> Visited(chains, 0, 0) == {}
    ensures Total(chains[..0]) == 0
    ensures HeldBy(chains[..|chains|]) == HeldBy(chains) == Visited(chains, |chains|, 0)
  {
    assert chains[..|chains|] == chains;
  }
}

module Caches {
  import opened Bits
  import opened HandleTables

  ghost predicate NoDup(s: seq<LRUHandle>) {
    forall i, j | 0 <= i < j < |s| :: s[i] != s[j]
  }

  function Charge(s: seq<LRUHandle>): nat {
    if s == [] then 0 else Charge(s[..|s| - 1]) + s[|s| - 1].charge
  }

  ghost function On(s: seq<LRUHandle>): set<LRUHandle> {
    set h | h in s
  }

  // The list with one handle unlinked.
  function Without(s: seq<LRUHandle>, e: LRUHandle): (r: seq<LRUHandle>) {
    if s == [] then [] else
      Without(s[..|s| - 1], e) + if s[|s| - 1] == e then [] else [s[|s| - 1]]
  }

  lemma {:induction false} WithoutHas(s: seq<LRUHandle>, e: LRUHandle, h: LRUHandle)
    ensures h in Without(s, e) <==> h in s && h != e
    decreases |s|
  {
    if s != [] {
      WithoutHas(s[..|s| - 1], e, h);
    }
  }

  lemma {:induction false} WithoutNoDup(s: seq<LRUHandle>, e: LRUHandle)
    requires NoDup(s)
    ensures NoDup(Without(s, e))
    decreases |s|
  {
    if s != [] {
      var n := |s| - 1;
      NoDupSplit(s);
      WithoutNoDup(s[..n], e);
      WithoutHas(s[..n], e, s[n]);
      if s[n] != e {
        NoDupAppend(Without(s[..n], e), s[n]);
      }
    }
  }

  lemma {:induction false} WithoutCharge(s: seq<LRUHandle>, e: LRUHandle)
    requires NoDup(s)
    ensures Charge(s) == Charge(Without(s, e)) + if e in s then e.charge else 0
    ensures e !in s ==> Without(s, e) == s
    decreases |s|
  {
    hide NoDup;
    if s != [] {
      var n := |s| - 1;
      var init, last := s[..n], s[n];
      NoDupSplit(s);
      WithoutCharge(init, e);
      assert s == init + [last];
      ChargeAppend(Without(init, e), last);
      if last == e {
        WithoutHas(init, e, e);
        assert Without(init, e) + [] == Without(init, e);
      }
    }
  }

  lemma WithoutIs(s: seq<LRUHandle>, e: LRUHandle)
    requires NoDup(s)
    ensures NoDup(Without(s, e)) && On(Without(s, e)) == On(s) - {e}
    ensures forall h | h in Without(s, e) :: h in s && h != e
    ensures Charge(s) == Charge(Without(s, e)) + if e in s then e.charge else 0
    ensures e !in s ==> Without(s, e) == s
  {
    hide NoDup, Without, Charge;
    WithoutNoDup(s, e);
    WithoutCharge(s, e);
    forall h | h in Without(s, e)
      ensures h in s && h != e
    {
      WithoutHas(s, e, h);
    }
    forall h | h in s && h != e
      ensures h in Without(s, e)
    {
      WithoutHas(s, e, h);
    }
  }

  lemma ChargeAppend(s: seq<LRUHandle>, e: LRUHandle)
    ensures Charge(s + [e]) == Charge(s) + e.charge
  {
    assert (s + [e])[..|s|] == s;
  }

  lemma NoDupSplit(s: seq<LRUHandle>)
    requires NoDup(s) && s != []
    ensures var n := |s| - 1; NoDup(s[..n]) && s[n] !in On(s[..n]) && On(s) == On(s[..n]) + {s[n]}
  {
    var n := |s| - 1;
    assert s == s[..n] + [s[n]];
    assert forall i | 0 <= i < n :: s[..n][i] == s[i] != s[n];
    assert s[n] !in s[..n];
    forall h
      ensures h in s <==> h in s[..n] || h == s[n]
    {
    }
  }

  lemma NoDupAppend(s: seq<LRUHandle>, e: LRUHandle)
    requires NoDup(s) && e !in On(s)
    ensures NoDup(s + [e]) && On(s + [e]) == On(s) + {e}
  {
    assert forall i | 0 <= i < |s| :: s[i] in On(s);
  }

  // The two lists hold what the cache holds, each handle once, and its charge is theirs.
  ghost predicate Lists(lru: seq<LRUHandle>, inUse: seq<LRUHandle>, held: set<LRUHandle>, usage: nat) {
    && NoDup(lru) && NoDup(inUse) && On(lru) !! On(inUse) && held == On(lru) + On(inUse)
    && usage == Charge(lru) + Charge(inUse)
  }

  lemma ListsParts(lru: seq<LRUHandle>, inUse: seq<LRUHandle>, held: set<LRUHandle>, usage: nat)
    requires Lists(lru, inUse, held, usage)
    ensures NoDup(lru) && NoDup(inUse)
    ensures (forall h | h in lru :: h in held && h !in inUse) && (forall h | h in inUse :: h in held)
    ensures forall h | h in held :: h in lru || h in inUse
  {
  }

  lemma ListsSwap(a: seq<LRUHandle>, b: seq<LRUHandle>, held: set<LRUHandle>, usage: nat)
    requires Lists(a, b, held, usage)
    ensures Lists(b, a, held, usage)
  {
  }

  // LRU_Remove and LRU_Append.
  lemma ListsMove(a: seq<LRUHandle>, b: seq<LRUHandle>, held: set<LRUHandle>, usage: nat, e: LRUHandle)
    requires Lists(a, b, held, usage) && e in a
    ensures Lists(Without(a, e), b + [e], held, usage) && Lists(b + [e], Without(a, e), held, usage)
  {
    hide NoDup, Charge, Without;
    WithoutIs(a, e);
    ChargeAppend(b, e);
    NoDupAppend(b, e);
  }

  lemma ListsRemove(a: seq<LRUHandle>, b: seq<LRUHandle>, held: set<LRUHandle>, usage: nat, e: LRUHandle)
    requires Lists(a, b, held, usage) && e in a
    ensures usage >= e.charge && Lists(Without(a, e), b, held - {e}, usage - e.charge)
    ensures Lists(b, Without(a, e), held - {e}, usage - e.charge)
  {
    hide NoDup, Charge, Without;
    WithoutIs(a, e);
  }

  lemma ListsAppend(a: seq<LRUHandle>, b: seq<LRUHandle>, held: set<LRUHandle>, usage: nat, e: LRUHandle)
    requires Lists(a, b, held, usage) && e !in held
    ensures Lists(a, b + [e], held + {e}, usage + e.charge)
  {
    hide NoDup, Charge;
    ChargeAppend(b, e);
    NoDupAppend(b, e);
  }

  class LRUCache {
    var capacity: nat
    var usage: nat
    // Oldest first.
    var lru: seq<LRUHandle>
    var inUse: seq<LRUHandle>
    const table: HandleTable
    // The handles whose deleter has run.
    var deleted: seq<LRUHandle>
    // The handles clients hold, as often as they hold them, and every handle ever made.
    ghost var clients: multiset<LRUHandle>
    ghost var all: set<LRUHandle>

    ghost predicate Listed(held: set<LRUHandle>)
      reads this
    {
      Lists(lru, inUse, held, usage)
    }

    // The counts: one reference for each client's, one for the cache's own, and perhaps one for
    // the operation under way; a handle nobody refers to has been deleted, once.
    ghost predicate Counted(held: set<LRUHandle>, extra: LRUHandle?)
      reads this, all
    {
      Counts(held, extra) && NoDup(deleted) && forall h | h in all :: h in deleted <==> h.refs == 0
    }

    ghost predicate Counts(held: set<LRUHandle>, extra: LRUHandle?)
      reads this, all
    {
      && held <= all && (forall h | h in clients :: h in all) && (forall h | h in deleted :: h in all)
      && (forall h | h in all :: h.inCache <==> h in held)
      && (forall h | h in all :: h.refs == clients[h] + (if h in held then 1 else 0) + (if h == extra then 1 else 0))
    }

    // A handle is on the list of the unreferenced exactly while the cache's is its only reference.
    ghost predicate Sorted()
      reads this, all
    {
      && (forall h | h in lru :: h in all && h.refs == 1)
      && (forall h | h in inUse :: h in all && h.refs >= 2)
    }

    ghost predicate Core(held: set<LRUHandle>)
      reads this, all
    {
      Listed(held) && Counted(held, null) && Sorted()
    }

    ghost predicate Valid()
      reads this, table, all
    {
      table.Valid() && Core(table.Held()) && (capacity == 0 ==> table.Held() == {})
    }

    constructor (capacity: nat)
      ensures Valid() && this.capacity == capacity && all == {} && fresh(table)
    {
      this.capacity := capacity;
      usage, lru, inUse, deleted, clients, all := 0, [], [], [], multiset{}, {};
      table := new HandleTable();
    }

    // From the evictable entries to those in use.
    method ToInUse(e: LRUHandle, ghost held: set<LRUHandle>)
      requires Listed(held) && e in lru
      modifies `lru, `inUse
      ensures Listed(held) && lru == Without(old(lru), e) && inUse == old(inUse) + [e]
      ensures forall h | h in lru :: h in old(lru) && h != e
    {
      hide NoDup, Charge, Without, Lists;
      ListsParts(lru, inUse, held, usage);
      ListsMove(lru, inUse, held, usage, e);
      WithoutIs(lru, e);
      lru := Without(lru, e);
      inUse := inUse + [e];
    }

    // From those in use to the evictable ones, as the newest.
    method ToLru(e: LRUHandle, ghost held: set<LRUHandle>)
      requires Listed(held) && e in inUse
      modifies `lru, `inUse
      ensures Listed(held) && lru == old(lru) + [e] && inUse == Without(old(inUse), e)
      ensures forall h | h in inUse :: h in old(inUse) && h != e
    {
      hide NoDup, Charge, Without, Lists;
      ListsParts(lru, inUse, held, usage);
      ListsSwap(lru, inUse, held, usage);
      ListsMove(inUse, lru, held, usage, e);
      WithoutIs(inUse, e);
      inUse := Without(inUse, e);
      lru := lru + [e];
    }

    method Ref(e: LRUHandle, ghost held: set<LRUHandle>)
      requires Core(held) && e in held
      modifies `lru, `inUse, e`refs
      ensures Listed(held) && Counted(held, e) && Sorted()
      ensures lru == Without(old(lru), e)
    {
      hide NoDup, Charge, Without, Lists;
      ListsParts(lru, inUse, held, usage);
      WithoutIs(lru, e);
      if e.refs == 1 && e.inCache {
        ToInUse(e, held);
      }
      e.refs := e.refs + 1;
    }

    method Drop(e: LRUHandle, ghost held: set<LRUHandle>)
      requires Counts(held, e) && e in all
      modifies e`refs
      ensures Counts(held, null) && e.refs + 1 == old(e.refs)
      ensures (e.refs == 0 ==> e !in held) && (e.refs == 1 && e !in held ==> clients[e] > 0)
    {
      e.refs := e.refs - 1;
    }

    // The handle's deleter runs, for the only time.
    method Delete(e: LRUHandle)
      requires NoDup(deleted) && e !in deleted
      modifies `deleted
      ensures NoDup(deleted) && deleted == old(deleted) + [e]
      ensures (forall h | h in old(deleted) :: h in deleted) && e in deleted
      ensures forall h | h in deleted :: h in old(deleted) || h == e
    {
      NoDupAppend(deleted, e);
      deleted := deleted + [e];
    }

    method Unref(e: LRUHandle, ghost held: set<LRUHandle>)
      requires Listed(held) && Counted(held, e) && Sorted() && e in all
      modifies `lru, `inUse, `deleted, e`refs
      ensures Core(held)
      ensures deleted == if e.refs == 0 then old(deleted) + [e] else old(deleted)
      ensures lru == if e in held && e.refs == 1 then old(lru) + [e] else old(lru)
    {
      hide NoDup, Charge, Without, Lists;
      ListsParts(lru, inUse, held, usage);
      Drop(e, held);
      Settle(e, held);
    }

    // A handle whose references have just gone down: deleted, moved, or left where it is.
    method Settle(e: LRUHandle, ghost held: set<LRUHandle>)
      requires Listed(held) && Counts(held, null) && e in all
      requires forall h | h in lru :: h in all && h != e && h.refs == 1
      requires forall h | h in inUse :: h in all && (h != e ==> h.refs >= 2)
      requires NoDup(deleted) && e !in deleted && forall h | h in all && h != e :: h in deleted <==> h.refs == 0
      modifies `lru, `inUse, `deleted
      ensures Core(held)
      ensures deleted == if e.refs == 0 then old(deleted) + [e] else old(deleted)
      ensures lru == if e in held && e.refs == 1 then old(lru) + [e] else old(lru)
    {
      hide NoDup, Charge, Without, Lists;
      ListsParts(lru, inUse, held, usage);
      if e.refs == 0 {
        Delete(e);
      } else if e.inCache && e.refs == 1 {
        ToLru(e, held);
      }
    }

    // Finish taking e, already out of the hash table, out of the cache.
    method FinishErase(e: LRUHandle, ghost held: set<LRUHandle>)
      requires Core(held + {e}) && e !in held
      modifies `lru, `inUse, `usage, `deleted, e`refs, e`inCache
      ensures Core(held) && old(usage) >= e.charge && usage == old(usage) - e.charge
      ensures lru == Without(old(lru), e) && (e.refs == 0 <==> old(e.refs) == 1)
      ensures deleted == if e.refs == 0 then old(deleted) + [e] else old(deleted)
    {
      hide NoDup, Charge, Without, Lists;
      Unlink(e, held);
      e.inCache := false;
      usage := usage - e.charge;
      Unref(e, held);
    }

    // Off whichever list it is on.
    method Unlink(e: LRUHandle, ghost held: set<LRUHandle>)
      requires Listed(held + {e}) && e !in held
      modifies `lru, `inUse
      ensures usage >= e.charge && Lists(lru, inUse, held, usage - e.charge)
      ensures lru == Without(old(lru), e) && inUse == Without(old(inUse), e)
      ensures (forall h | h in lru :: h in old(lru) && h != e) && (forall h | h in inUse :: h in old(inUse) && h != e)
    {
      hide NoDup, Charge, Without, Lists;
      ListsParts(lru, inUse, held + {e}, usage);
      assert held + {e} - {e} == held;
      WithoutIs(lru, e);
      WithoutIs(inUse, e);
      if e in lru {
        ListsRemove(lru, inUse, held + {e}, usage, e);
        lru := Without(lru, e);
      } else {
        ListsSwap(lru, inUse, held + {e}, usage);
        ListsRemove(inUse, lru, held + {e}, usage, e);
        inUse := Without(inUse, e);
      }
    }

    method Lookup(key: Data, hash: nat) returns (r: LRUHandle?)
      requires Valid()
      modifies `lru, `inUse, `clients, all
      ensures Valid() && table.Held() == old(table.Held())
      ensures r != null ==> r in table.Held() && Matches(r, key, hash) && clients == old(clients)[r := old(clients)[r] + 1]
      ensures r == null ==> clients == old(clients) && forall h | h in table.Held() :: !Matches(h, key, hash)
    {
      hide NoDup, Charge, Without, Lists, Good, HeldBy;
      r := table.Lookup(key, hash);
      if r != null {
        Ref(r, table.Held());
        HandOut(r, table.Held());
      }
    }

    // The reference just taken is now a client's.
    ghost method HandOut(e: LRUHandle, held: set<LRUHandle>)
      requires Listed(held) && Counted(held, e) && Sorted() && e in all
      modifies `clients
      ensures Core(held) && clients == old(clients)[e := old(clients)[e] + 1]
    {
      hide NoDup, Charge, Without, Lists;
      clients := clients[e := clients[e] + 1];
      assert Counts(held, null);
    }

    // A client gives a handle back; the last reference takes the entry with it.
    method Release(h: LRUHandle)
      requires Valid() && h in clients
      modifies `lru, `inUse, `clients, `deleted, all
      ensures Valid() && table.Held() == old(table.Held()) && clients == old(clients)[h := old(clients)[h] - 1]
      ensures deleted == if clients[h] == 0 && h !in table.Held() then old(deleted) + [h] else old(deleted)
      ensures lru == if clients[h] == 0 && h in table.Held() then old(lru) + [h] else old(lru)
    {
      hide NoDup, Charge, Without, Lists, Good, HeldBy;
      clients := clients[h := clients[h] - 1];
      Unref(h, table.Held());
    }

    method Erase(key: Data, hash: nat)
      requires Valid()
      modifies `lru, `inUse, `usage, `deleted, table, all
      ensures Valid() && old(deleted) <= deleted
      ensures forall h | h in old(table.Held()) :: h in table.Held() <==> !Matches(h, key, hash)
      ensures table.Held() <= old(table.Held())
    {
      hide NoDup, Charge, Without, Lists, Good, HeldBy;
      var e := table.Remove(key, hash);
      if e != null {
        assert table.Held() + {e} == old(table.Held());
        FinishErase(e, table.Held());
      }
    }

    // The oldest entry nobody uses goes, and its deleter runs.
    method EvictOldest()
      requires Valid() && lru != []
      modifies `lru, `inUse, `usage, `deleted, table, all
      ensures Valid() && lru == old(lru)[1..] && table.Held() == old(table.Held()) - {old(lru)[0]}
      ensures usage + old(lru)[0].charge == old(usage) && deleted == old(deleted) + [old(lru)[0]]
    {
      hide NoDup, Charge, Without, Lists, Good, HeldBy;
      ListsParts(lru, inUse, table.Held(), usage);
      WithoutFirst(lru);
      ghost var held := table.Held();
      var oldest := lru[0];
      var e := table.Remove(oldest.key, oldest.hash);
      assert e == oldest && table.Held() + {e} == held;
      FinishErase(oldest, table.Held());
    }

    // The new entry joins the entries in use; what answered to its key before goes.
    method Admit(e: LRUHandle) returns (ghost replaced: LRUHandle?)
      requires Valid() && capacity > 0 && e in all && e !in table.Held() && e.refs == 1
      modifies `lru, `inUse, `usage, `deleted, table, all
      ensures Valid() && e in table.Held()
      ensures replaced == null ==> forall x | x in old(table.Held()) :: !Matches(x, e.key, e.hash)
      ensures replaced != null ==> replaced in old(table.Held()) && Matches(replaced, e.key, e.hash)
      ensures table.Held() == (if replaced == null then old(table.Held()) else old(table.Held()) - {replaced}) + {e}
      ensures lru == if replaced == null then old(lru) else Without(old(lru), replaced)
      ensures old(deleted) <= deleted
    {
      hide NoDup, Charge, Without, Lists, Good, HeldBy;
      ghost var held := table.Held();
      Link(e, held);
      var old_ := table.Insert(e);
      replaced := old_;
      if old_ != null {
        assert table.Held() + {old_} == held + {e};
        FinishErase(old_, table.Held());
      }
    }

    method Link(e: LRUHandle, ghost held: set<LRUHandle>)
      requires Core(held) && e in all && e !in held && e.refs == 1
      modifies `inUse, `usage, e
      ensures Core(held + {e})
    {
      hide NoDup, Charge, Without, Lists, On;
      ListsParts(lru, inUse, held, usage);
      ListsAppend(lru, inUse, held, usage, e);
      assert e !in lru && e !in inUse && clients[e] == 1 && e !in deleted;
      e.refs := e.refs + 1;
      e.inCache := true;
      assert Counts(held + {e}, null);
      inUse := inUse + [e];
      usage := usage + e.charge;
    }

    // The entry under its key if caching is on; then the oldest unused entries go until the
    // charge fits, and no more of them than that takes.
    method Insert(key: Data, hash: nat, charge: nat)
      returns (e: LRUHandle, ghost replaced: LRUHandle?, ghost evicted: seq<LRUHandle>)
      requires Valid()
      modifies `lru, `inUse, `usage, `deleted, `clients, `all, table, all
      ensures Valid() && fresh(e) && e.key == key && e.hash == hash && e.charge == charge
      ensures all == old(all) + {e} && clients == old(clients)[e := 1]
      ensures usage <= capacity || lru == []
      ensures evicted + lru == if replaced == null then old(lru) else Without(old(lru), replaced)
      ensures evicted != [] ==> usage + evicted[|evicted| - 1].charge > capacity
      ensures capacity > 0 && replaced == null ==> forall x | x in old(table.Held()) :: !Matches(x, key, hash)
      ensures replaced != null ==> replaced in old(table.Held()) && Matches(replaced, key, hash)
      ensures table.Held() == (if replaced == null then old(table.Held()) else old(table.Held()) - {replaced})
                              + (if capacity > 0 then {e} else {}) - On(evicted)
      ensures old(deleted) <= deleted
    {
      hide NoDup, Charge, Without, Lists, Good, HeldBy, Counted, Sorted, On;
      e := new LRUHandle(key, hash, charge);
      Known(e);
      replaced := null;
      if capacity > 0 {
        replaced := Admit(e);
      }
      evicted := Fit();
    }

    // The oldest evictable entries go until the charge fits, or none is left.
    method Fit() returns (ghost evicted: seq<LRUHandle>)
      requires Valid()
      modifies `lru, `inUse, `usage, `deleted, table, all
      ensures Valid() && (usage <= capacity || lru == [])
      ensures evicted + lru == old(lru) && table.Held() == old(table.Held()) - On(evicted)
      ensures evicted != [] ==> usage + evicted[|evicted| - 1].charge > capacity
      ensures old(deleted) <= deleted
    {
      hide NoDup, Charge, Without, Lists, Good, HeldBy, Counted, Sorted;
      evicted := [];
      while usage > capacity && lru != []
        invariant Valid() && evicted + lru == old(lru) && table.Held() == old(table.Held()) - On(evicted)
        invariant evicted != [] ==> usage + evicted[|evicted| - 1].charge > capacity
        invariant old(deleted) <= deleted
        modifies `lru, `inUse, `usage, `deleted, table, all
        decreases |lru|
      {
        ghost var oldest := lru[0];
        EvictOldest();
        MoreEvicted(evicted, oldest, lru, old(lru));
        evicted := evicted + [oldest];
      }
    }

    method Known(e: LRUHandle)
      requires Valid() && e !in all && e.refs == 1 && !e.inCache
      modifies `clients, `all
      ensures Valid() && all == old(all) + {e} && clients == old(clients)[e := 1] && e !in table.Held()
    {
      hide NoDup, Charge, Without, Lists, Good, HeldBy;
      ghost var before := clients;
      clients := clients[e := 1];
      assert forall h | h in all :: clients[h] == before[h];
      all := all + {e};
      assert Counts(table.Held(), null);
      assert Sorted();
    }

    // The destructor, once every client has given back what it held: a walk along the evictable
    // entries, after which every entry ever made has had its deleter run, once.
    method Destroy()
      requires Valid() && clients == multiset{}
      modifies `deleted, all
      ensures NoDup(deleted) && On(deleted) == all
    {
      hide NoDup, Charge, Good, HeldBy, Lists;
      NobodyUses();
      ListsParts(lru, inUse, table.Held(), usage);
      assert lru[0..] == lru;
      var i := 0;
      while i < |lru|
        invariant i <= |lru| && clients == multiset{} && Counted(On(lru[i..]), null)
        invariant forall h | h in lru[i..] :: h.refs == 1
        modifies `deleted, all
      {
        var e := lru[i];
        WalkStep(lru, i);
        Retire(e, On(lru[i + 1..]));
        i := i + 1;
      }
      assert lru[i..] == [];
      EveryoneDeleted();
    }

    // The cache's own reference, the last there is, goes.
    method Retire(e: LRUHandle, ghost rest: set<LRUHandle>)
      requires Counted(rest + {e}, null) && e !in rest && e.refs == 1
      modifies `deleted, e`inCache, e`refs
      ensures Counted(rest, null)
    {
      hide NoDup;
      assert e in all && e !in deleted;
      e.inCache := false;
      Drop(e, rest);
      Delete(e);
    }

    lemma EveryoneDeleted()
      requires Counted({}, null) && clients == multiset{}
      ensures NoDup(deleted) && On(deleted) == all
    {
      hide NoDup;
    }

    lemma InUseMeansClient()
      requires Valid()
      ensures inUse != [] ==> exists h :: h in clients
    {
      hide NoDup, Charge, Good, HeldBy;
      if inUse != [] {
        assert inUse[0] in inUse && clients[inUse[0]] >= 1;
      }
    }

    lemma NobodyUses()
      requires Valid() && clients == multiset{}
      ensures inUse == [] && table.Held() == On(lru)
    {
      hide NoDup, Charge, Good, HeldBy;
      InUseMeansClient();
    }

    method Prune()
      requires Valid()
      modifies `lru, `inUse, `usage, `deleted, table, all
      ensures Valid() && lru == [] && deleted == old(deleted) + old(lru)
      ensures table.Held() == old(table.Held()) - On(old(lru))
    {
      hide NoDup, Charge, Without, Lists, Good, HeldBy, Counted, Sorted;
      ghost var n := 0;
      assert old(lru)[..0] == [];
      while lru != []
        invariant Valid() && n <= |old(lru)| && lru == old(lru)[n..]
        invariant deleted == old(deleted) + old(lru)[..n]
        invariant table.Held() == old(table.Held()) - On(old(lru)[..n])
        decreases |lru|
      {
        OneMoreGone(old(lru), n);
        EvictOldest();
        n := n + 1;
      }
      assert old(lru)[..n] == old(lru);
    }
  }

  lemma WithoutFirst(s: seq<LRUHandle>)
    requires NoDup(s) && s != []
    ensures Without(s, s[0]) == s[1..]
    decreases |s|
  {
    hide NoDup;
    if |s| > 1 {
      var n := |s| - 1;
      NoDupSplit(s);
      WithoutFirst(s[..n]);
      assert s[0] in On(s[..n]);
      assert s[..n][1..] + [s[n]] == s[1..];
    }
  }

  // The first of what is left of a list, and the rest.
  lemma WalkStep(s: seq<LRUHandle>, i: nat)
    requires NoDup(s) && i < |s|
    ensures s[i] in s[i..] && s[i] !in s[i + 1..] && On(s[i..]) == On(s[i + 1..]) + {s[i]}
    ensures forall h | h in s[i + 1..] :: h in s[i..]
  {
    assert s[i..] == [s[i]] + s[i + 1..];
    assert s[..i + 1] + s[i + 1..] == s;
  }

  lemma OneMoreGone(s: seq<LRUHandle>, n: nat)
    requires n < |s|
    ensures s[n..][1..] == s[n + 1..] && s[..n + 1] == s[..n] + [s[n]] && s[n..][0] == s[n]
    ensures On(s[..n + 1]) == On(s[..n]) + {s[n]}
  {
    assert s[..n + 1] == s[..n] + [s[n]];
  }

  lemma MoreEvicted(evicted: seq<LRUHandle>, oldest: LRUHandle, rest: seq<LRUHandle>, base: seq<LRUHandle>)
    requires evicted + ([oldest] + rest) == base
    ensures (evicted + [oldest]) + rest == base && On(evicted + [oldest]) == On(evicted) + {oldest}
  {
  }
}