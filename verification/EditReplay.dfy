// A list of edits applied in two ways: through one builder, as when a manifest is read, and one
// version after another, as while the database ran (db/version_set.cc).

module EditReplays {
  import opened Versions
  import opened VersionEdits
  import opened Install

  // No file is added to the level twice.
  ghost predicate AddsOnce(files: set<File>, edits: seq<VersionEdit>, l: nat) {
    edits != [] ==>
      var n := |edits| - 1;
      AddsOnce(files, edits[..n], l) && AddedAt(edits[n], l) !! files + AddedBy(edits[..n], l)
  }

  ghost predicate Listable(v: Version) {
    |v| == NUM_LEVELS && forall l | 0 <= l < NUM_LEVELS :: InOrder(v[l])
  }

  ghost predicate AllWithin(edits: seq<VersionEdit>) {
    forall e | e in edits :: EditWithin(e)
  }

  // The edits put only files into a level that its order tells apart, each once.
  ghost predicate Mergeable(v: Version, edits: seq<VersionEdit>) {
    && Listable(v) && AllWithin(edits)
    && forall l | 0 <= l < NUM_LEVELS ::
         AddsOnce(Files(v[l]), edits, l) && Comparable(Files(v[l]) + AddedBy(edits, l))
  }

  // A version with these files, by what was deleted and added altogether.
  ghost predicate Rebuilt(v: Version, edits: seq<VersionEdit>, v': Version) {
    && |v| == NUM_LEVELS && Listable(v')
    && forall l | 0 <= l < NUM_LEVELS :: Files(v'[l]) == Kept(Files(v[l]) + AddedBy(edits, l), DeletedBy(edits, l))
  }

  // A version with these files, edit by edit.
  ghost predicate Followed(v: Version, edits: seq<VersionEdit>, v': Version) {
    && |v| == NUM_LEVELS && Listable(v')
    && forall l | 0 <= l < NUM_LEVELS :: Files(v'[l]) == Replay(Files(v[l]), edits, l)
  }

  lemma Snoc(edits: seq<VersionEdit>, n: nat, l: nat)
    requires n < |edits|
    ensures AddedBy(edits[..n + 1], l) == AddedBy(edits[..n], l) + AddedAt(edits[n], l)
    ensures DeletedBy(edits[..n + 1], l) == DeletedBy(edits[..n], l) + DeletedAt(edits[n], l) - Numbers(AddedAt(edits[n], l))
    ensures forall files :: Replay(files, edits[..n + 1], l) == LevelAfter(Replay(files, edits[..n], l), edits[n], l)
    ensures forall files :: AddsOnce(files, edits[..n + 1], l) <==>
                            AddsOnce(files, edits[..n], l) && AddedAt(edits[n], l) !! files + AddedBy(edits[..n], l)
  {
    assert edits[..n + 1][..n] == edits[..n];
  }

  lemma {:induction false} AddedPart(edits: seq<VersionEdit>, n: nat, l: nat)
    requires n <= |edits|
    ensures AddedBy(edits[..n], l) <= AddedBy(edits, l)
    ensures forall files :: AddsOnce(files, edits, l) ==> AddsOnce(files, edits[..n], l)
    decreases |edits| - n
  {
    if n == |edits| {
      assert edits[..n] == edits;
    } else {
      Snoc(edits, n, l);
      AddedPart(edits, n + 1, l);
    }
  }

  lemma {:induction false} ReplayWithin(files: set<File>, edits: seq<VersionEdit>, l: nat)
    ensures Replay(files, edits, l) <= files + AddedBy(edits, l)
  {
    if edits != [] {
      ReplayWithin(files, edits[..|edits| - 1], l);
    }
  }

  // One builder for all of them.
  method ApplyAll(v: Version, edits: seq<VersionEdit>) returns (v': Version)
    requires Mergeable(v, edits)
    ensures Rebuilt(v, edits, v')
  {
    hide InOrder, Comparable, AddedBy, DeletedBy, AddsOnce, Files, Kept, Numbers, EditWithin;
    var builder := new Builder(v);
    NothingYet();
    for n := 0 to |edits|
      invariant fresh(builder) && builder.Valid() && builder.base == v
      invariant forall l | 0 <= l < NUM_LEVELS ::
                  && Files(builder.addedFiles[l]) == AddedBy(edits[..n], l)
                  && builder.deletedFiles[l] == DeletedBy(edits[..n], l)
    {
      forall l: nat | l < NUM_LEVELS
        ensures Comparable(AddedBy(edits[..n], l) + AddedAt(edits[n], l))
        ensures AddedBy(edits[..n + 1], l) == AddedBy(edits[..n], l) + AddedAt(edits[n], l)
        ensures DeletedBy(edits[..n + 1], l) == DeletedBy(edits[..n], l) + DeletedAt(edits[n], l) - Numbers(AddedAt(edits[n], l))
      {
        Snoc(edits, n, l);
        AddedPart(edits, n + 1, l);
        ComparableSubset(AddedBy(edits[..n + 1], l), Files(v[l]) + AddedBy(edits, l));
      }
      assert edits[n] in edits;
      builder.Apply(edits[n]);
    }
    assert edits[..|edits|] == edits;
    forall l: nat | l < NUM_LEVELS
      ensures Files(v[l]) !! AddedBy(edits, l)
    {
      AddedApart(Files(v[l]), edits, l);
    }
    v' := builder.SaveTo();
  }

  lemma NothingYet()
    ensures forall l: nat :: AddedBy([], l) == {} && DeletedBy([], l) == {}
    ensures Files([]) == {}
  {
  }

  lemma {:induction false} AddedApart(files: set<File>, edits: seq<VersionEdit>, l: nat)
    requires AddsOnce(files, edits, l)
    ensures files !! AddedBy(edits, l)
  {
    if edits != [] {
      AddedApart(files, edits[..|edits| - 1], l);
    }
  }

  // A version for each.
  method ApplyEach(v: Version, edits: seq<VersionEdit>) returns (v': Version)
    requires Mergeable(v, edits)
    ensures Followed(v, edits, v')
  {
    hide InOrder, Comparable, AddedBy, Replay, LevelAfter, AddsOnce, Files, EditWithin;
    v' := v;
    NothingFollowed();
    for n := 0 to |edits|
      invariant Followed(v, edits[..n], v')
    {
      forall l: nat | l < NUM_LEVELS
        ensures Files(v'[l]) !! AddedAt(edits[n], l) && Comparable(Files(v'[l]) + AddedAt(edits[n], l))
        ensures Replay(Files(v[l]), edits[..n + 1], l) == LevelAfter(Replay(Files(v[l]), edits[..n], l), edits[n], l)
      {
        Snoc(edits, n, l);
        AddedPart(edits, n + 1, l);
        ReplayWithin(Files(v[l]), edits[..n], l);
        ComparableSubset(Files(v'[l]) + AddedAt(edits[n], l), Files(v[l]) + AddedBy(edits, l));
      }
      assert edits[n] in edits;
      v' := LogAndApply(v', edits[n]);
    }
    assert edits[..|edits|] == edits;
  }

  lemma NothingFollowed()
    ensures forall files, l: nat :: Replay(files, [], l) == files
  {
  }

  // Level by level, the two come to the same exactly if no file goes stale.
  lemma SameVersionIff(v: Version, edits: seq<VersionEdit>, one: Version, each: Version)
    requires Rebuilt(v, edits, one) && Followed(v, edits, each)
    ensures one == each <==> forall l: nat, f | l < NUM_LEVELS :: !Stale(Files(v[l]), edits, l, f)
  {
    hide InOrder, Files, Kept, AddedBy, DeletedBy, Replay, Stale;
    forall l: nat | l < NUM_LEVELS
      ensures one[l] == each[l] <==> forall f :: !Stale(Files(v[l]), edits, l, f)
    {
      OneBuilderReplays(Files(v[l]), edits, l);
      if Files(one[l]) == Files(each[l]) {
        InOrderUnique(one[l], each[l]);
      }
    }
  }

  // The same edits both ways.
  method BothWays(v: Version, edits: seq<VersionEdit>) returns (one: Version, each: Version)
    requires Mergeable(v, edits)
    ensures one == each <==> forall l: nat, f | l < NUM_LEVELS :: !Stale(Files(v[l]), edits, l, f)
  {
    hide Mergeable, Rebuilt, Followed, Stale;
    one := ApplyAll(v, edits);
    each := ApplyEach(v, edits);
    SameVersionIff(v, edits, one, each);
    MergeableSize(v, edits);
  }

  lemma MergeableSize(v: Version, edits: seq<VersionEdit>)
    requires Mergeable(v, edits)
    ensures |v| == NUM_LEVELS
  {
  }
}
