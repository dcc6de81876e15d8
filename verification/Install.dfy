// What installing a flush, a trivial move or a compaction does to a version: the
// levels stay sorted and disjoint, and newer data stays above older data.

module Install {
  import opened Keys
  import opened History
  import opened Versions
  import opened VersionEdits
  import opened Inputs
  import opened Picking

  ghost function EntriesOf(S: set<File>): set<Entry> {
    set f, e | f in S && e in f.run :: e
  }

  // Key ranges one wholly before the other.
  ghost predicate Apart(f: File, g: File) {
    Less(f.largest, g.smallest) || Less(g.largest, f.smallest)
  }

  ghost predicate PairwiseApart(S: set<File>) {
    forall f, g | f in S && g in S && f != g :: Apart(f, g)
  }

  ghost predicate UniqueNumbers(S: set<File>) {
    forall f, g | f in S && g in S && f.number == g.number :: f == g
  }

  // The levels of a version as a Builder lists them, every file under its own number.
  ghost predicate Listed(v: Version, nextFile: nat) {
    && |v| == NUM_LEVELS
    && (forall l | 0 <= l < |v| :: InOrder(v[l]) && UniqueNumbers(Files(v[l])))
    && (forall l, k, f, g | 0 <= l < k < |v| && f in v[l] && g in v[k] :: f.number != g.number)
    && (forall l, f | 0 <= l < |v| && f in v[l] :: f.number < nextFile)
  }

  // The version a Builder saves after one edit.
  ghost predicate Installed(v: Version, e: VersionEdit, v': Version) {
    && |v| == NUM_LEVELS && |v'| == NUM_LEVELS
    && forall l | 0 <= l < NUM_LEVELS ::
         InOrder(v'[l]) && Files(v'[l]) == LevelAfter(Files(v[l]), e, l)
  }

  ghost predicate Addable(v: Version, e: VersionEdit) {
    && EditWithin(e)
    && forall l | 0 <= l < |v| :: Files(v[l]) !! AddedAt(e, l) && Comparable(Files(v[l]) + AddedAt(e, l))
  }

  lemma UniqueIsComparable(S: set<File>)
    requires UniqueNumbers(S)
    ensures Comparable(S)
  {
  }

  // VersionSet::LogAndApply: one builder over the current version, one edit.
  method LogAndApply(v: Version, e: VersionEdit) returns (v': Version)
    requires |v| == NUM_LEVELS && forall l | 0 <= l < NUM_LEVELS :: InOrder(v[l])
    requires Addable(v, e)
    ensures Installed(v, e, v')
  {
    var builder := new Builder(v);
    forall l | 0 <= l < NUM_LEVELS
      ensures Comparable(AddedAt(e, l))
    {
      ComparableSubset(AddedAt(e, l), Files(v[l]) + AddedAt(e, l));
    }
    assert Files([]) == {};
    builder.Apply(e);
    v' := builder.SaveTo();
  }

  // A list in order is determined by its files.
  lemma {:induction false} InOrderUnique(a: Level, b: Level)
    requires InOrder(a) && InOrder(b) && Files(a) == Files(b)
    ensures a == b
  {
    EmptyIffNoFiles(a);
    EmptyIffNoFiles(b);
    if a != [] {
      assert a[0] in Files(a) && b[0] in Files(b);
      var i :| 0 <= i < |b| && b[i] == a[0];
      var j :| 0 <= j < |a| && a[j] == b[0];
      assert a[0] == b[0];
      TailFiles(a);
      TailFiles(b);
      InOrderUnique(a[1..], b[1..]);
      assert a == [a[0]] + a[1..] && b == [b[0]] + b[1..];
    }
  }

  lemma EmptyIffNoFiles(fs: Level)
    ensures fs == [] <==> Files(fs) == {}
  {
    assert fs != [] ==> fs[0] in Files(fs);
  }

  lemma TailFiles(a: Level)
    requires a != [] && InOrder(a)
    ensures Files(a[1..]) == Files(a) - {a[0]}
  {
    assert a == [a[0]] + a[1..];
    assert forall i | 1 <= i < |a| :: BySmallestKey(a[0], a[i]);
  }

  // In order and pairwise apart: sorted with disjoint ranges.
  lemma DisjointFromApart(fs: Level)
    requires InOrder(fs) && AllIntact(fs) && PairwiseApart(Files(fs))
    ensures Disjoint(fs)
  {
    forall i, j | 0 <= i < j < |fs|
      ensures Less(fs[i].largest, fs[j].smallest)
    {
      assert fs[i] in Files(fs) && fs[j] in Files(fs);
      RangeOrdered(fs[i]);
      RangeOrdered(fs[j]);
    }
  }

  lemma ApartFromDisjoint(fs: Level)
    requires Disjoint(fs)
    ensures PairwiseApart(Files(fs))
  {
  }

  lemma AgedSubset(fs: Level, gs: Level)
    requires AgedByNumber(fs) && InOrder(gs) && Files(gs) <= Files(fs)
    ensures AgedByNumber(gs)
  {
    forall i, j | 0 <= i < j < |gs|
      ensures gs[i].number != gs[j].number
    {
      assert gs[i] in Files(gs) && gs[j] in Files(gs);
      var a :| 0 <= a < |fs| && fs[a] == gs[i];
      var b :| 0 <= b < |fs| && fs[b] == gs[j];
    }
    forall f, g | f in gs && g in gs && f.number > g.number
      ensures Newer(Elements(f.run), Elements(g.run))
    {
      assert f in Files(gs) && g in Files(gs);
    }
  }

  // ---- What the chosen inputs can share with the files left behind. ----

  ghost function InputEntries(c: Compaction): set<Entry> {
    EntriesOf(Files(c.upper) + Files(c.lower))
  }

  lemma UpperWithin(v: Version, c: Compaction)
    requires Sound(v, c)
    ensures Files(c.upper) <= Files(v[c.level]) && Files(c.lower) <= Files(v[c.level + 1])
  {
    forall f | f in c.upper
      ensures f in v[c.level]
    {
      if c.level == 0 {
        var r :| Closed(v[0], r) && c.upper == Overlapping(v[0], r);
      } else {
        var a, b :| 0 <= a <= b <= |v[c.level]| && c.upper == v[c.level][a..b];
      }
    }
  }

  // No user key in common.
  ghost predicate Detached(f: File, g: File) {
    f.largest.user < g.smallest.user || g.largest.user < f.smallest.user
  }

  lemma DetachedIsNewer(f: File, g: File)
    requires Intact(f) && Intact(g) && Detached(f, g)
    ensures Newer(Elements(f.run), Elements(g.run)) && Apart(f, g)
  {
    RangeOrdered(f);
    RangeOrdered(g);
  }

  // Files of the upper level that stay hold newer entries than those that go.
  lemma StayingUpperNewer(files: Level, level: nat, upper: Level, f: File, g: File)
    requires AllIntact(files) && Distinct(LevelEntries(files)) && (level > 0 ==> Disjoint(files))
    requires UpperClosed(files, level, upper)
    requires f in upper && g in files && g !in upper
    ensures Newer(Elements(g.run), Elements(f.run))
  {
    if level == 0 {
      Level0StayDetached(files, upper, f, g);
    } else {
      var a, b :| 0 <= a <= b <= |files| && upper == files[a..b];
      SortedStayNewer(files, a, b, f, g);
    }
  }

  lemma Level0StayDetached(files: Level, upper: Level, f: File, g: File)
    requires AllIntact(files) && UpperClosed(files, 0, upper)
    requires f in upper && g in files && g !in upper
    ensures Newer(Elements(g.run), Elements(f.run))
  {
    var r :| Closed(files, r) && upper == Overlapping(files, r);
    RangeOrdered(f);
    RangeOrdered(g);
    assert Detached(g, f);
    DetachedIsNewer(g, f);
  }

  lemma SortedStayNewer(files: Level, a: nat, b: nat, f: File, g: File)
    requires AllIntact(files) && Disjoint(files) && Distinct(LevelEntries(files))
    requires a <= b <= |files| && f in files[a..b] && g in files && g !in files[a..b]
    requires NoBoundary(files, files[a..b])
    ensures Newer(Elements(g.run), Elements(f.run))
  {
    var i :| a <= i < b && files[i] == f;
    var j :| 0 <= j < |files| && files[j] == g;
    assert j < a || b <= j;
    InLevel(files, f);
    InLevel(files, g);
    if j < a {
      BeforeIsNewer(g, f, LevelEntries(files));
    } else {
      AfterSliceDetached(files, a, b, i, j);
      DetachedIsNewer(g, f);
    }
  }

  lemma AfterSliceDetached(files: Level, a: nat, b: nat, i: nat, j: nat)
    requires AllIntact(files) && Disjoint(files)
    requires a <= i < b <= j < |files|
    requires NoBoundary(files, files[a..b])
    ensures Detached(files[j], files[i])
  {
    var last := files[b - 1];
    SliceEndsInLargest(files, a, b);
    assert !Continues(files[j], last.largest);
    RangeOrdered(last);
    assert i < b - 1 ==> Less(files[i].largest, last.smallest);
  }

  lemma SliceEndsInLargest(files: Level, a: nat, b: nat)
    requires AllIntact(files) && Disjoint(files) && a < b <= |files|
    ensures IsLargest(files[b - 1].largest, files[a..b])
  {
    assert files[b - 1] in files[a..b];
    RangeOrdered(files[b - 1]);
  }

  // Files of the lower level that stay share no user key with the upper inputs.
  lemma StayingLowerDetached(v: Version, c: Compaction, f: File, g: File)
    requires WellFormed(v) && Sound(v, c)
    requires f in c.upper && g in v[c.level + 1] && g !in c.lower
    ensures Detached(f, g)
  {
    assert !Overlaps(g, UserRange(c.smallest, c.largest));
  }

  // A file of the lower level that stays lies wholly before or after the inputs.
  lemma StayingLowerOutside(v: Version, c: Compaction, g: File)
    requires WellFormed(v) && Sound(v, c)
    requires g in v[c.level + 1] && g !in c.lower
    ensures (forall f | f in c.upper || f in c.lower :: Less(g.largest, f.smallest)) ||
            (forall f | f in c.upper || f in c.lower :: Less(f.largest, g.smallest))
  {
    UpperWithin(v, c);
    assert !Overlaps(g, UserRange(c.smallest, c.largest));
    forall f | f in c.lower
      ensures if g.largest.user < c.smallest.user then Less(g.largest, f.smallest) else Less(f.largest, g.smallest)
    {
      assert f in Files(c.lower);
      LowerSide(v[c.level + 1], f, g, c.smallest, c.largest);
    }
  }

  lemma LowerSide(files: Level, f: File, g: File, lo: InternalKey, hi: InternalKey)
    requires AllIntact(files) && Disjoint(files) && f in files && g in files
    requires Overlaps(f, UserRange(lo, hi)) && !Overlaps(g, UserRange(lo, hi))
    ensures if g.largest.user < lo.user then Less(g.largest, f.smallest) else Less(f.largest, g.smallest)
  {
    RangeOrdered(f);
    RangeOrdered(g);
    var i :| 0 <= i < |files| && files[i] == f;
    var j :| 0 <= j < |files| && files[j] == g;
  }
}
