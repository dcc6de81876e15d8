// An iterator over the whole store (db/db_impl.cc, NewInternalIterator and NewIterator;
// db/version_set.cc, AddIterators): the memtables, the files of level 0 and one concatenation for
// each deeper level, merged, and the user's view of the merge at a snapshot.

module UserIterators {
  import opened Keys
  import opened History
  import opened Versions
  import opened CompactionWork
  import opened Store
  import opened Iterators
  import opened MergingIterators
  import opened DbIters
  import opened Database

  // ---- Children that share no key. ----

  ghost predicate KeysApart(A: set<Entry>, B: set<Entry>) {
    forall x, y | x in A && y in B :: x.key != y.key
  }

  // Runs that can be merged, and what is in them.
  ghost predicate Mergeable(list: seq<seq<Entry>>, S: set<Entry>) {
    AllSorted(list) && KeysDiffer(list) && UnionOf(list) == S
  }

  lemma NewerApart(A: set<Entry>, B: set<Entry>)
    requires Newer(A, B)
    ensures KeysApart(A, B) && KeysApart(B, A)
  {
  }

  lemma OneMoreChild(list: seq<seq<Entry>>, S: set<Entry>, r: seq<Entry>)
    requires Mergeable(list, S) && Sorted(r) && KeysApart(S, Elements(r))
    ensures Mergeable(list + [r], S + Elements(r))
  {
    hide Sorted;
    var more := list + [r];
    assert more[..|list|] == list;
    UnionSnoc(more);
    forall i, j, x: Entry, y: Entry | 0 <= i < j < |more| && x in more[i] && y in more[j]
      ensures x.key != y.key
    {
      assert i < |list| && more[i] == list[i];
      if j == |list| {
        assert x in UnionOf(list) && y in Elements(r);
      }
    }
  }

  lemma NoChild()
    ensures Mergeable([], {})
  {
  }

  // ---- The children of a version. ----

  // What is in the levels above one.
  ghost function Shallower(v: Version, l: nat): set<Entry>
    requires l <= |v|
  {
    set i, e | 0 <= i < l && e in LevelEntries(v[i]) :: e
  }

  lemma ShallowerStep(v: Version, l: nat)
    requires WellFormed(v) && l < |v|
    ensures Shallower(v, l + 1) == Shallower(v, l) + LevelEntries(v[l])
    ensures Newer(Shallower(v, l), LevelEntries(v[l])) && LevelEntries(v[l]) <= Contents(v)
  {
  }

  lemma AllLevels(v: Version)
    ensures Shallower(v, |v|) == Contents(v)
  {
  }

  // Two files of level 0 share no key.
  lemma Level0Apart(v: Version, i: nat, j: nat)
    requires WellFormed(v) && i < j < |v[0]|
    ensures KeysApart(Elements(v[0][i].run), Elements(v[0][j].run))
  {
    var f, g := v[0][i], v[0][j];
    assert f in v[0] && g in v[0] && f.number != g.number;
    if f.number > g.number {
      NewerApart(Elements(f.run), Elements(g.run));
    } else {
      NewerApart(Elements(g.run), Elements(f.run));
    }
  }

  lemma PrefixApart(v: Version, above: set<Entry>, n: nat)
    requires WellFormed(v) && n < |v[0]| && Newer(above, Contents(v))
    ensures KeysApart(above + LevelEntries(v[0][..n]), Elements(v[0][n].run)) && Sorted(v[0][n].run)
    ensures LevelEntries(v[0][..n + 1]) == LevelEntries(v[0][..n]) + Elements(v[0][n].run)
  {
    hide Sorted, Newer;
    var f := v[0][n];
    assert f in v[0] && Intact(f);
    assert v[0][..n + 1] == v[0][..n] + [f];
    assert Elements(f.run) <= Contents(v) by {
      assert forall e | e in f.run :: e in LevelEntries(v[0]);
    }
    NewerPart(above, Contents(v), Elements(f.run));
    forall x, y | x in LevelEntries(v[0][..n]) && y in Elements(f.run)
      ensures x.key != y.key
    {
      var g :| g in v[0][..n] && x in g.run;
      var i: nat :| i < n && v[0][..n][i] == g;
      Level0Apart(v, i, n);
      assert x in Elements(v[0][i].run);
    }
  }

  lemma NewerPart(A: set<Entry>, B: set<Entry>, C: set<Entry>)
    requires Newer(A, B) && C <= B
    ensures KeysApart(A, C)
  {
  }

  // Version::AddIterators: a child for each file of level 0, one for each other level with files.
  method AddIterators(v: Version, list: seq<seq<Entry>>, ghost above: set<Entry>) returns (more: seq<seq<Entry>>)
    requires WellFormed(v) && Mergeable(list, above) && Newer(above, Contents(v))
    ensures Mergeable(more, above + Contents(v))
  {
    hide Mergeable, WellFormed, Newer, LevelEntries, Contents, Sorted, Shallower;
    Enough(v);
    more := list;
    assert v[0][..0] == [];
    NoFiles();
    assert above + {} == above;
    var i := 0;
    while i < |v[0]|
      invariant i <= |v[0]| && Mergeable(more, above + LevelEntries(v[0][..i]))
    {
      PrefixApart(v, above, i);
      OneMoreChild(more, above + LevelEntries(v[0][..i]), v[0][i].run);
      assert above + LevelEntries(v[0][..i]) + Elements(v[0][i].run) == above + LevelEntries(v[0][..i + 1]);
      more := more + [v[0][i].run];
      i := i + 1;
    }
    assert v[0][..i] == v[0];
    OneLevel(v);
    var level := 1;
    while level < |v|
      invariant 1 <= level <= |v| && Mergeable(more, above + Shallower(v, level))
    {
      LevelApart(v, above, level);
      if v[level] != [] {
        OneMoreChild(more, above + Shallower(v, level), Flatten(v[level]));
        more := more + [Flatten(v[level])];
      } else {
        assert above + Shallower(v, level) == above + Shallower(v, level + 1);
      }
      assert above + Shallower(v, level) + Elements(Flatten(v[level])) == above + Shallower(v, level + 1);
      level := level + 1;
    }
    AllLevels(v);
  }

  lemma Enough(v: Version)
    requires WellFormed(v)
    ensures |v| == NUM_LEVELS
  {
  }

  lemma NoFiles()
    ensures LevelEntries([]) == {} && Elements(Flatten([])) == {}
  {
  }

  lemma OneLevel(v: Version)
    requires |v| > 0
    ensures Shallower(v, 1) == LevelEntries(v[0])
  {
  }

  lemma LevelApart(v: Version, above: set<Entry>, l: nat)
    requires WellFormed(v) && 1 <= l < |v| && Newer(above, Contents(v))
    ensures Sorted(Flatten(v[l])) && KeysApart(above + Shallower(v, l), Elements(Flatten(v[l])))
    ensures Shallower(v, l + 1) == Shallower(v, l) + Elements(Flatten(v[l]))
    ensures v[l] == [] ==> Elements(Flatten(v[l])) == {}
  {
    hide Sorted, Newer, Contents, LevelEntries, Shallower;
    ShallowerStep(v, l);
    FlattenHolds(v[l]);
    FlattenSorted(v[l]);
    NewerPart(above, Contents(v), LevelEntries(v[l]));
    NewerApart(Shallower(v, l), LevelEntries(v[l]));
    if v[l] == [] {
      NoFiles();
    }
  }

  // ---- The iterator of the store. ----

  // While it is open the memtable may grow, by entries with numbers not given out yet.
  ghost predicate YetToCome(s: State, coming: seq<Entry>) {
    && (forall e | e in coming :: e.key.seqno > s.pending)
    && (forall i, j | 0 <= i < j < |coming| :: coming[i].key != coming[j].key)
  }

  method NewInternalIterator(db: DB, coming: seq<Entry>, arrivals: seq<nat>) returns (it: MergingIterator)
    requires Structure(db.Abs()) && YetToCome(db.Abs(), coming)
    ensures fresh(it) && (forall i | 0 <= i < |it.children| :: fresh(it.children[i])) && it.Ok() && !it.Valid()
    ensures Elements(it.merged) == All(db.Abs()) && forall e | e in it.whole :: e in it.merged || e in coming
  {
    hide Sorted, WellFormed, Contents, Newer, Distinct, Mergeable, Numbered, MergingIterator.Ok, MergeAll, YetToCome, NewTo;
    ghost var s := db.Abs();
    var list := if db.imm.Some? then [db.mem, db.imm.value] else [db.mem];
    MemoryMergeable(s);
    list := AddIterators(db.version, list, Memory(s));
    MergeableParts(list, All(s));
    MergeAllHolds(list);
    ComingNew(s, list, coming);
    var comings := seq(|list|, i requires 0 <= i < |list| => if i == 0 then coming else []);
    var turns := seq(|list|, i requires 0 <= i < |list| => if i == 0 then arrivals else []);
    forall i | 0 <= i < |list|
      ensures NewTo(list[i], comings[i]) && Elements(comings[i]) !! UnionOf(list)
    {
    }
    var children := OpenAll(list, comings, turns);
    it := new MergingIterator(children, list);
  }

  lemma ComingNew(s: State, list: seq<seq<Entry>>, coming: seq<Entry>)
    requires Structure(s) && YetToCome(s, coming) && UnionOf(list) == All(s)
    ensures forall i | 0 <= i < |list| :: NewTo(list[i], coming) && NewTo(list[i], [])
    ensures Elements(coming) !! UnionOf(list) && Elements([]) !! UnionOf(list)
  {
    hide WellFormed, Sorted, All;
    forall x | x in UnionOf(list)
      ensures x.key.seqno <= s.pending
    {
      assert x in s.history;
    }
    assert forall i, x | 0 <= i < |list| && x in list[i] :: x in UnionOf(list);
  }

  lemma MemoryMergeable(s: State)
    requires Structure(s)
    ensures Mergeable(if s.imm.Some? then [s.mem, s.imm.value] else [s.mem], Memory(s))
    ensures WellFormed(s.version) && Newer(Memory(s), Contents(s.version))
  {
    hide Sorted, WellFormed, Contents, Distinct, Mergeable, Newer;
    NoChild();
    EmptyApart(Elements(s.mem));
    OneMoreChild([], {}, s.mem);
    assert [] + [s.mem] == [s.mem] && {} + Elements(s.mem) == Elements(s.mem);
    if s.imm.Some? {
      NewerApart(Elements(s.mem), Elements(s.imm.value));
      OneMoreChild([s.mem], Elements(s.mem), s.imm.value);
      assert [s.mem] + [s.imm.value] == [s.mem, s.imm.value];
    } else {
      NoFiles();
      assert Memory(s) == Elements(s.mem);
    }
  }

  lemma EmptyApart(A: set<Entry>)
    ensures KeysApart({}, A)
  {
  }

  lemma MergeableParts(list: seq<seq<Entry>>, S: set<Entry>)
    requires Mergeable(list, S)
    ensures AllSorted(list) && KeysDiffer(list) && UnionOf(list) == S
  {
  }

  // NewIterator: at a snapshot, or at what is visible now.
  method NewIterator(db: DB, snapshot: Option<Sequence>, coming: seq<Entry>, arrivals: seq<nat>) returns (it: DBIter)
    requires Structure(db.Abs()) && YetToCome(db.Abs(), coming)
    requires snapshot.Some? ==> forall e | e in coming :: e.key.seqno > snapshot.value
    ensures fresh(it) && fresh(it.iter) && (forall i | 0 <= i < |it.iter.children| :: fresh(it.iter.children[i]))
    ensures it.Ok() && !it.valid && it.Entries() == All(db.Abs())
    ensures it.sequence == if snapshot.Some? then snapshot.value else db.lastSequence
  {
    hide Sorted, WellFormed, Contents, Numbered, MergingIterator.Ok;
    var merge := NewInternalIterator(db, coming, arrivals);
    ContentsDistinct(db.Abs());
    assert db.lastSequence <= db.pending by {
      PublishedIsGiven(db.Abs());
    }
    it := new DBIter(merge, if snapshot.Some? then snapshot.value else db.lastSequence);
  }

  lemma PublishedIsGiven(s: State)
    requires Structure(s)
    ensures s.last <= s.pending
  {
  }

  lemma ContentsDistinct(s: State)
    requires Structure(s)
    ensures Distinct(All(s))
  {
    hide Distinct, WellFormed;
    DistinctSubset(All(s), s.history);
  }

  // ---- The user's view. ----

  // Where every key asked for reads right, the iterator stands where one over the history would.
  lemma SameView(s: State, snap: Sequence, P: UserKey -> bool, valid: bool, u: UserKey, v: Bytes)
    requires Live(s, snap) && forall w | P(w) :: Faithful(s, w)
    ensures Lowest(All(s), snap, P, valid, u, v) <==> Lowest(s.history, snap, P, valid, u, v)
    ensures Highest(All(s), snap, P, valid, u, v) <==> Highest(s.history, snap, P, valid, u, v)
  {
    hide All, Live;
    assert forall w | P(w) :: Read(All(s), w, snap) == Read(s.history, w, snap) by {
      forall w | P(w)
        ensures Read(All(s), w, snap) == Read(s.history, w, snap)
      {
        assert Faithful(s, w);
      }
    }
  }

  // What is written after the snapshot, into the memtable it shares or anywhere else, changes
  // nothing of where it stands.
  lemma LaterViewSame(S: set<Entry>, later: set<Entry>, snap: Sequence, P: UserKey -> bool, valid: bool, u: UserKey, v: Bytes)
    requires Distinct(S + later) && forall e | e in later :: e.key.seqno > snap
    ensures Lowest(S + later, snap, P, valid, u, v) <==> Lowest(S, snap, P, valid, u, v)
    ensures Highest(S + later, snap, P, valid, u, v) <==> Highest(S, snap, P, valid, u, v)
  {
    forall w
      ensures Read(S + later, w, snap) == Read(S, w, snap)
    {
      LaterWritesInvisible(S, later, w, snap);
    }
  }

  // All that a snapshot has of the keys below a bound, in order.
  ghost predicate Listing(S: set<Entry>, snap: Sequence, below: UserKey -> bool, out: seq<(UserKey, Bytes)>) {
    && (forall i, j | 0 <= i < j < |out| :: out[i].0 < out[j].0)
    && (forall p | p in out :: below(p.0) && Read(S, p.0, snap) == Found(p.1))
    && (forall u | below(u) && Read(S, u, snap).Found? :: (u, Read(S, u, snap).value) in out)
  }

  ghost function Reach(it: DBIter): UserKey -> bool
    requires it.Ok()
    reads it, it.iter, it.iter.children
  {
    if it.valid then LessThan(it.Key()) else Everything()
  }

  lemma LowestIs(S: set<Entry>, snap: Sequence, P: UserKey -> bool, u: UserKey, v: Bytes)
    requires Lowest(S, snap, P, true, u, v)
    ensures P(u) && Read(S, u, snap) == Found(v)
  {
    hide Read;
  }

  lemma ListingStarts(S: set<Entry>, snap: Sequence, valid: bool, u: UserKey, v: Bytes)
    requires Lowest(S, snap, Everything(), valid, u, v)
    ensures Listing(S, snap, if valid then LessThan(u) else Everything(), [])
  {
    hide Read;
  }

  lemma ListingGrows(S: set<Entry>, snap: Sequence, out: seq<(UserKey, Bytes)>, k: UserKey, w: Bytes, valid: bool, u: UserKey, v: Bytes)
    requires Listing(S, snap, LessThan(k), out) && Read(S, k, snap) == Found(w)
    requires Lowest(S, snap, MoreThan(k), valid, u, v)
    ensures Listing(S, snap, if valid then LessThan(u) else Everything(), out + [(k, w)])
  {
    hide Read;
    var more := out + [(k, w)];
    forall i, j | 0 <= i < j < |more|
      ensures more[i].0 < more[j].0
    {
      if j == |out| {
        assert out[i] in out && LessThan(k)(out[i].0);
      }
    }
    forall x | x > k && (valid ==> x < u)
      ensures Read(S, x, snap) == NotFound
    {
      assert MoreThan(k)(x);
    }
    forall x | (if valid then x < u else true) && Read(S, x, snap).Found?
      ensures (x, Read(S, x, snap).value) in more
    {
      if x < k {
        assert LessThan(k)(x) && (x, Read(S, x, snap).value) in out;
      } else {
        assert more[|out|] == (k, w);
      }
    }
    forall p | p in more
      ensures (valid ==> p.0 < u) && Read(S, p.0, snap) == Found(p.1)
    {
      if p in out {
        assert LessThan(k)(p.0);
      }
    }
  }

  // How many entries have a greater user key.
  ghost function Beyond(S: set<Entry>, u: UserKey): set<Entry> {
    set e | e in S && e.key.user > u
  }

  lemma FewerBeyond(S: set<Entry>, k: UserKey, u: UserKey, snap: Sequence)
    requires k < u && Read(S, u, snap).Found?
    ensures |Beyond(S, u)| < |Beyond(S, k)|
  {
    var e := Newest(S, u, snap).value;
    assert e in Beyond(S, k) && e !in Beyond(S, u);
    StrictlyFewer(Beyond(S, u), Beyond(S, k), e);
  }

  lemma StrictlyFewer<T>(a: set<T>, b: set<T>, x: T)
    requires a <= b && x in b && x !in a
    ensures |a| < |b|
  {
    assert a <= b - {x};
    FewerOrAsMany(a, b - {x});
  }

  lemma {:induction false} FewerOrAsMany<T>(a: set<T>, b: set<T>)
    requires a <= b
    ensures |a| <= |b|
  {
    if a != {} {
      var x :| x in a;
      FewerOrAsMany(a - {x}, b - {x});
    }
  }

  // A pass over the store at a live snapshot, whatever is written meanwhile: of every key that reads
  // right, what the history of all writes had at the snapshot when the pass began, and no more; the
  // keys in order.
  method Scan(db: DB, snapshot: Option<Sequence>, coming: seq<Entry>, arrivals: seq<nat>)
    returns (out: seq<(UserKey, Bytes)>, ghost at: Sequence)
    requires Structure(db.Abs()) && (snapshot.Some? ==> Live(db.Abs(), snapshot.value)) && YetToCome(db.Abs(), coming)
    requires snapshot.Some? ==> forall e | e in coming :: e.key.seqno > snapshot.value
    ensures at == if snapshot.Some? then snapshot.value else db.lastSequence
    ensures forall i, j | 0 <= i < j < |out| :: out[i].0 < out[j].0
    ensures forall u, v | Faithful(db.Abs(), u) :: (u, v) in out <==> Read(db.history, u, at) == Found(v)
  {
    hide Structure, Listing, Lowest, Read, DBIter.Ok, MergingIterator.Ok, Faithful, All;
    var it := NewIterator(db, snapshot, coming, arrivals);
    at := it.sequence;
    ghost var S := All(db.Abs());
    out := [];
    it.SeekToFirst();
    ListingStarts(S, at, it.valid, if it.valid then it.Key() else 0.0, if it.valid then it.Value() else []);
    if it.valid {
      LowestIs(S, at, Everything(), it.Key(), it.Value());
    }
    while it.valid
      invariant fresh(it) && fresh(it.iter) && forall i | 0 <= i < |it.iter.children| :: fresh(it.iter.children[i])
      invariant it.Ok() && it.sequence == at && it.Entries() == S
      invariant Listing(S, at, Reach(it), out)
      invariant it.valid ==> Read(S, it.Key(), at) == Found(it.Value())
      decreases it.valid, if it.valid then |Beyond(S, it.Key())| else 0
    {
      ghost var was, k, w := out, it.Key(), it.Value();
      out := out + [(it.Key(), it.Value())];
      it.Next();
      ListingGrows(S, at, was, k, w, it.valid, if it.valid then it.Key() else 0.0, if it.valid then it.Value() else []);
      if it.valid {
        LowestIs(S, at, MoreThan(k), it.Key(), it.Value());
        FewerBeyond(S, k, it.Key(), at);
      }
    }
    ListingIs(db.Abs(), at, out);
  }

  lemma ListingIs(s: State, at: Sequence, out: seq<(UserKey, Bytes)>)
    requires Listing(All(s), at, Everything(), out) && Live(s, at)
    ensures forall i, j | 0 <= i < j < |out| :: out[i].0 < out[j].0
    ensures forall u, v | Faithful(s, u) :: (u, v) in out <==> Read(s.history, u, at) == Found(v)
  {
    hide Read, All, Live;
    forall u, v | Faithful(s, u)
      ensures (u, v) in out <==> Read(s.history, u, at) == Found(v)
    {
      assert Read(All(s), u, at) == Read(s.history, u, at);
      assert Everything()(u);
    }
  }
}
