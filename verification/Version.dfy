// A version: the table files of every level, and the search for one key
// (db/version_set.cc, class Version).

module Versions {
  import opened Keys
  import opened History

  const NUM_LEVELS: nat := 7

  // FileMetaData, together with the sorted run of entries the table file holds.
  datatype File = File(number: nat, size: nat, smallest: InternalKey, largest: InternalKey, run: seq<Entry>)

  type Level = seq<File>

  type Version = seq<Level>

  ghost predicate Intact(f: File) {
    |f.run| > 0 && Sorted(f.run) && f.smallest == f.run[0].key && f.largest == f.run[|f.run| - 1].key
  }

  // Levels above 0: sorted, with disjoint key ranges.
  ghost predicate Disjoint(fs: Level) {
    forall i, j :: 0 <= i < j < |fs| ==> Less(fs[i].largest, fs[j].smallest)
  }

  ghost predicate NumbersDiffer(fs: Level) {
    forall i, j :: 0 <= i < j < |fs| ==> fs[i].number != fs[j].number
  }

  // Level 0: file numbers tell files apart and order them by age.
  ghost predicate AgedByNumber(fs: Level) {
    && NumbersDiffer(fs)
    && (forall f, g | f in fs && g in fs && f.number > g.number :: Newer(Elements(f.run), Elements(g.run)))
  }

  ghost function LevelEntries(fs: Level): set<Entry> {
    set f, e | f in fs && e in f.run :: e
  }

  ghost function Contents(v: Version): set<Entry> {
    set l, e | 0 <= l < |v| && e in LevelEntries(v[l]) :: e
  }

  ghost predicate AllIntact(fs: Level) {
    forall f | f in fs :: Intact(f)
  }

  ghost predicate WellFormed(v: Version) {
    && |v| == NUM_LEVELS
    && (forall l | 0 <= l < |v| :: AllIntact(v[l]))
    && (forall l | 1 <= l < |v| :: Disjoint(v[l]))
    && AgedByNumber(v[0])
    && (forall i, j | 0 <= i < j < |v| :: Newer(LevelEntries(v[i]), LevelEntries(v[j])))
    && Distinct(Contents(v))
  }

  // Halving a sorted level: where files start to reach up to the key.
  method FindFile(files: Level, key: InternalKey) returns (index: nat)
    requires AllIntact(files) && Disjoint(files)
    ensures index <= |files|
    ensures forall j :: 0 <= j < index ==> Less(files[j].largest, key)
    ensures forall j :: index <= j < |files| ==> !Less(files[j].largest, key)
  {
    var left, right := 0, |files|;
    while left < right
      invariant 0 <= left <= right <= |files|
      invariant forall j :: 0 <= j < left ==> Less(files[j].largest, key)
      invariant forall j :: right <= j < |files| ==> !Less(files[j].largest, key)
    {
      var mid := (left + right) / 2;
      if Less(files[mid].largest, key) {
        forall j | 0 <= j < mid
          ensures Less(files[j].largest, key)
        {
          RangeOrdered(files[mid]);
        }
        left := mid + 1;
      } else {
        forall j | mid < j < |files|
          ensures !Less(files[j].largest, key)
        {
          RangeOrdered(files[j]);
        }
        right := mid;
      }
    }
    index := right;
  }

  lemma RangeOrdered(f: File)
    requires Intact(f)
    ensures !Less(f.largest, f.smallest)
    ensures f.smallest.user <= f.largest.user
    ensures forall e | e in f.run :: !Less(e.key, f.smallest) && !Less(f.largest, e.key)
    ensures forall e | e in f.run :: f.smallest.user <= e.key.user <= f.largest.user
  {
    forall e | e in f.run
      ensures !Less(e.key, f.smallest) && !Less(f.largest, e.key)
    {
      var i :| 0 <= i < |f.run| && f.run[i] == e;
      assert 0 < i ==> Less(f.run[0].key, f.run[i].key);
      assert i < |f.run| - 1 ==> Less(f.run[i].key, f.run[|f.run| - 1].key);
    }
    assert f.run[0] in f.run;
  }

  ghost predicate NewestFirst(fs: Level) {
    forall i, j :: 0 <= i < j < |fs| ==> fs[i].number > fs[j].number
  }

  // std::sort by decreasing file number.
  method SortNewestFirst(fs: Level) returns (r: Level)
    requires NumbersDiffer(fs)
    ensures NewestFirst(r)
    ensures forall f :: f in r <==> f in fs
  {
    r := [];
    for n := 0 to |fs|
      invariant NewestFirst(r)
      invariant forall f :: f in r <==> f in fs[..n]
    {
      var i := 0;
      while i < |r| && r[i].number > fs[n].number
        invariant 0 <= i <= |r|
        invariant forall j :: 0 <= j < i ==> r[j].number > fs[n].number
      {
        i := i + 1;
      }
      if i < |r| {
        assert r[i] in fs[..n];
      }
      var r' := r[..i] + [fs[n]] + r[i..];
      forall f
        ensures f in r' <==> f in fs[..n + 1]
      {
        assert f in r <==> f in r[..i] || f in r[i..];
      }
      r := r';
    }
    assert fs[..|fs|] == fs;
  }

  // Nothing in S answers a lookup of u at snap.
  ghost predicate Silent(S: set<Entry>, u: UserKey, snap: Sequence) {
    forall e | e in S :: !Visible(e, u, snap)
  }

  lemma DistinctSubset(S: set<Entry>, T: set<Entry>)
    requires S <= T && Distinct(T)
    ensures Distinct(S)
  {
  }

  lemma InLevel(files: Level, f: File)
    requires f in files
    ensures Elements(f.run) <= LevelEntries(files)
  {
  }

  // The candidates a search of one level leaves: they are searched newest first,
  // and the files left out cannot change the outcome.
  ghost predicate Suffice(tmp: Level, files: Level, u: UserKey, snap: Sequence) {
    && (forall f | f in tmp :: f in files)
    && (forall i, j :: 0 <= i < j < |tmp| ==> Newer(Elements(tmp[i].run), Elements(tmp[j].run)))
    && (forall f | f in files && f !in tmp ::
          Silent(Elements(f.run), u, snap) ||
          (|tmp| == 1 && Newer(Elements(tmp[0].run), Elements(f.run)) && !Silent(Elements(tmp[0].run), u, snap)))
  }

  // Level 0: the files around u, from newest to oldest.
  method OverlappingFiles(files: Level, u: UserKey, ghost snap: Sequence) returns (r: Level)
    requires AllIntact(files) && AgedByNumber(files)
    ensures Suffice(r, files, u, snap)
  {
    var tmp: Level := [];
    for i := 0 to |files|
      invariant forall f | f in tmp :: f in files[..i]
      invariant forall j | 0 <= j < i :: files[j] in tmp || Silent(Elements(files[j].run), u, snap)
      invariant NumbersDiffer(tmp)
    {
      var f := files[i];
      if u >= f.smallest.user && u <= f.largest.user {
        forall g | g in tmp
          ensures g.number != f.number
        {
          var j :| 0 <= j < i && files[j] == g;
        }
        tmp := tmp + [f];
      } else {
        RangeOrdered(f);
      }
    }
    r := SortNewestFirst(tmp);
    forall f | f in files && f !in r
      ensures Silent(Elements(f.run), u, snap)
    {
      var j :| 0 <= j < |files| && files[j] == f;
    }
  }

  // Sorted levels: the one file a binary search picks, unless it starts past u.
  method FileFromBinarySearch(files: Level, u: UserKey, snap: Sequence) returns (r: Level)
    requires AllIntact(files) && Disjoint(files) && Distinct(LevelEntries(files))
    ensures Suffice(r, files, u, snap)
  {
    var index := FindFile(files, LookupKey(u, snap));
    if index >= |files| || u < files[index].smallest.user {
      r := [];
    } else {
      r := [files[index]];
    }
    forall f | f in files && f !in r
      ensures Silent(Elements(f.run), u, snap) ||
              (|r| == 1 && Newer(Elements(r[0].run), Elements(f.run)) && !Silent(Elements(r[0].run), u, snap))
    {
      var j :| 0 <= j < |files| && files[j] == f;
      if j < index {
        EarlierFileSilent(files, j, u, snap);
      } else if r == [] {
        LaterFileSilent(files, index, j, u, snap);
      } else {
        LaterFileOlder(files, index, j, u, snap);
      }
    }
  }

  lemma EarlierFileSilent(files: Level, j: nat, u: UserKey, snap: Sequence)
    requires AllIntact(files) && j < |files| && Less(files[j].largest, LookupKey(u, snap))
    ensures Silent(Elements(files[j].run), u, snap)
  {
    RangeOrdered(files[j]);
  }

  lemma LaterFileSilent(files: Level, index: nat, j: nat, u: UserKey, snap: Sequence)
    requires AllIntact(files) && Disjoint(files)
    requires index <= j < |files| && u < files[index].smallest.user
    ensures Silent(Elements(files[j].run), u, snap)
  {
    RangeOrdered(files[j]);
    RangeOrdered(files[index]);
  }

  // In one sorted run of distinct entries, earlier means newer.
  lemma BeforeIsNewer(f: File, g: File, S: set<Entry>)
    requires Intact(f) && Intact(g) && Less(f.largest, g.smallest)
    requires Elements(f.run) <= S && Elements(g.run) <= S && Distinct(S)
    ensures Newer(Elements(f.run), Elements(g.run))
  {
    RangeOrdered(f);
    RangeOrdered(g);
    forall x, y | x in Elements(f.run) && y in Elements(g.run) && x.key.user == y.key.user
      ensures x.key.seqno > y.key.seqno
    {
      assert Less(x.key, y.key);
      assert x in S && y in S;
    }
  }

  // In a sorted level, a file after the one the binary search picks holds older
  // entries of u, and only when the picked file answers the lookup itself.
  lemma LaterFileOlder(files: Level, index: nat, j: nat, u: UserKey, snap: Sequence)
    requires AllIntact(files) && Disjoint(files) && Distinct(LevelEntries(files))
    requires index < j < |files|
    requires !Less(files[index].largest, LookupKey(u, snap))
    requires files[index].smallest.user <= u
    ensures Newer(Elements(files[index].run), Elements(files[j].run))
    ensures Silent(Elements(files[j].run), u, snap) || !Silent(Elements(files[index].run), u, snap)
  {
    var f, g := files[index], files[j];
    InLevel(files, f);
    InLevel(files, g);
    BeforeIsNewer(f, g, LevelEntries(files));
    AnswerOrSilent(f, g, u, snap);
  }

  lemma AnswerOrSilent(f: File, g: File, u: UserKey, snap: Sequence)
    requires Intact(f) && Intact(g) && Less(f.largest, g.smallest)
    requires !Less(f.largest, LookupKey(u, snap)) && f.smallest.user <= u
    ensures Silent(Elements(g.run), u, snap) || !Silent(Elements(f.run), u, snap)
  {
    if f.largest.user == u {
      var last := f.run[|f.run| - 1];
      assert last in Elements(f.run) && Visible(last, u, snap);
    } else {
      RangeOrdered(g);
    }
  }

  // TableCache::Get on each candidate in turn, stopping at the first answer.
  method SearchFiles(tmp: Level, u: UserKey, snap: Sequence, ghost files: Level) returns (hit: Option<Entry>)
    requires AllIntact(files) && Distinct(LevelEntries(files))
    requires Suffice(tmp, files, u, snap)
    ensures hit == Newest(LevelEntries(files), u, snap)
  {
    var i := 0;
    while i < |tmp|
      invariant 0 <= i <= |tmp|
      invariant forall j | 0 <= j < i :: Silent(Elements(tmp[j].run), u, snap)
    {
      InLevel(files, tmp[i]);
      DistinctSubset(Elements(tmp[i].run), LevelEntries(files));
      SearchRunFindsNewest(tmp[i].run, u, snap);
      hit := SearchRun(tmp[i].run, u, snap);
      if hit.Some? {
        FirstHitIsNewest(files, tmp, i, u, snap, hit.value);
        NewestIs(hit.value, LevelEntries(files), u, snap);
        return;
      }
      i := i + 1;
    }
    hit := None;
    NoHitIsSilent(files, tmp, u, snap);
  }

  lemma NoHitIsSilent(files: Level, tmp: Level, u: UserKey, snap: Sequence)
    requires Suffice(tmp, files, u, snap)
    requires forall j | 0 <= j < |tmp| :: Silent(Elements(tmp[j].run), u, snap)
    ensures Silent(LevelEntries(files), u, snap)
  {
    forall e | e in LevelEntries(files)
      ensures !Visible(e, u, snap)
    {
      var f :| f in files && e in f.run;
      assert e in Elements(f.run);
    }
  }

  method SearchLevel(files: Level, level: nat, u: UserKey, snap: Sequence) returns (hit: Option<Entry>)
    requires AllIntact(files) && Distinct(LevelEntries(files))
    requires if level == 0 then AgedByNumber(files) else Disjoint(files)
    ensures hit == Newest(LevelEntries(files), u, snap)
  {
    var tmp;
    if level == 0 {
      tmp := OverlappingFiles(files, u, snap);
    } else {
      tmp := FileFromBinarySearch(files, u, snap);
    }
    hit := SearchFiles(tmp, u, snap, files);
  }

  lemma FirstHitIsNewest(files: Level, tmp: Level, i: nat, u: UserKey, snap: Sequence, e: Entry)
    requires i < |tmp| && Suffice(tmp, files, u, snap)
    requires forall j | 0 <= j < i :: Silent(Elements(tmp[j].run), u, snap)
    requires IsNewest(e, Elements(tmp[i].run), u, snap)
    ensures IsNewest(e, LevelEntries(files), u, snap)
  {
    InLevel(files, tmp[i]);
    forall x | x in LevelEntries(files) && Visible(x, u, snap)
      ensures x.key.seqno <= e.key.seqno
    {
      var f :| f in files && x in f.run;
      assert x in Elements(f.run);
      if f in tmp {
        var j :| 0 <= j < |tmp| && tmp[j] == f;
      }
    }
  }

  // Version::Get: level by level; the first file that answers decides.
  method Get(v: Version, u: UserKey, snap: Sequence) returns (r: Answer)
    requires WellFormed(v)
    ensures r == Read(Contents(v), u, snap)
  {
    var level := 0;
    while level < NUM_LEVELS
      invariant 0 <= level <= NUM_LEVELS
      invariant forall l | 0 <= l < level :: Silent(LevelEntries(v[l]), u, snap)
    {
      LevelWithin(v, level);
      DistinctSubset(LevelEntries(v[level]), Contents(v));
      var hit := SearchLevel(v[level], level, u, snap);
      if hit.Some? {
        FirstLevelIsNewest(v, level, u, snap, hit.value);
        NewestIs(hit.value, Contents(v), u, snap);
        return Judge(hit);
      }
      level := level + 1;
    }
    assert Silent(Contents(v), u, snap);
    return NotFound;
  }

  lemma LevelWithin(v: Version, level: nat)
    requires level < |v|
    ensures LevelEntries(v[level]) <= Contents(v)
  {
  }

  lemma FirstLevelIsNewest(v: Version, level: nat, u: UserKey, snap: Sequence, e: Entry)
    requires level < |v|
    requires forall i, j | 0 <= i < j < |v| :: Newer(LevelEntries(v[i]), LevelEntries(v[j]))
    requires forall l | 0 <= l < level :: Silent(LevelEntries(v[l]), u, snap)
    requires IsNewest(e, LevelEntries(v[level]), u, snap)
    ensures IsNewest(e, Contents(v), u, snap)
  {
    LevelWithin(v, level);
    forall x | x in Contents(v) && Visible(x, u, snap)
      ensures x.key.seqno <= e.key.seqno
    {
      var l :| 0 <= l < |v| && x in LevelEntries(v[l]);
    }
  }
}
