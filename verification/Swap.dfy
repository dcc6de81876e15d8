// A compaction or trivial move as a change of version: files go out of two levels,
// files come into the lower one.

module Swap {
  import opened Keys
  import opened History
  import opened Versions
  import opened VersionEdits
  import opened Picking
  import opened Install

  // AddInputDeletions together with the outputs (or the one moved file).
  function SwapEdit(c: Compaction, come: Level): VersionEdit {
    VersionEdit((set f | f in c.upper :: (c.level, f.number)) + (set f | f in c.lower :: (c.level + 1, f.number)),
                seq(|come|, i requires 0 <= i < |come| => (c.level + 1, come[i])))
  }

  ghost predicate Swapped(v: Version, v': Version, c: Compaction, come: Level) {
    && |v| == |v'| == NUM_LEVELS && c.level + 1 < NUM_LEVELS
    && (forall l | 0 <= l < NUM_LEVELS :: InOrder(v'[l]))
    && Files(v'[c.level]) == Files(v[c.level]) - Files(c.upper)
    && Files(v'[c.level + 1]) == Files(v[c.level + 1]) - Files(c.lower) + Files(come)
    && (forall l | 0 <= l < NUM_LEVELS && l != c.level && l != c.level + 1 :: v'[l] == v[l])
  }

  // What comes in: disjoint tables made of entries of the inputs.
  ghost predicate Fits(c: Compaction, come: Level) {
    AllIntact(come) && PairwiseApart(Files(come)) && LevelEntries(come) <= InputEntries(c)
  }

  lemma SwapEditAdds(c: Compaction, come: Level, l: nat)
    ensures AddedAt(SwapEdit(c, come), l) == if l == c.level + 1 then Files(come) else {}
    ensures DeletedAt(SwapEdit(c, come), l) ==
            if l == c.level then Numbers(Files(c.upper))
            else if l == c.level + 1 then Numbers(Files(c.lower)) else {}
  {
    var e := SwapEdit(c, come);
    forall f
      ensures f in AddedAt(e, l) <==> l == c.level + 1 && f in come
    {
      if l == c.level + 1 && f in come {
        var i :| 0 <= i < |come| && come[i] == f;
        assert e.added[i] == (l, f);
      }
    }
    forall n
      ensures n in DeletedAt(e, l) <==> n in (if l == c.level then Numbers(Files(c.upper))
                                              else if l == c.level + 1 then Numbers(Files(c.lower)) else {})
    {
      if l == c.level && n in Numbers(Files(c.upper)) {
        var f :| f in c.upper && f.number == n;
        assert (l, n) in e.deleted;
      } else if l == c.level + 1 && n in Numbers(Files(c.lower)) {
        var f :| f in c.lower && f.number == n;
        assert (l, n) in e.deleted;
      }
    }
  }

  lemma KeptDropsFiles(all: set<File>, gone: set<File>)
    requires UniqueNumbers(all) && gone <= all
    ensures Kept(all, Numbers(gone)) == all - gone
  {
    forall f | f in all
      ensures f.number in Numbers(gone) <==> f in gone
    {
    }
  }

  lemma KeptDropsNone(all: set<File>)
    ensures Kept(all, {}) == all
  {
  }

  lemma InstalledIsSwapped(v: Version, v': Version, c: Compaction, come: Level)
    requires |v| == NUM_LEVELS && c.level + 1 < NUM_LEVELS
    requires forall l | 0 <= l < NUM_LEVELS :: InOrder(v[l])
    requires Files(c.upper) <= Files(v[c.level]) && Files(c.lower) <= Files(v[c.level + 1])
    requires UniqueNumbers(Files(v[c.level])) && UniqueNumbers(Files(v[c.level + 1]) + Files(come))
    requires Files(v[c.level + 1]) !! Files(come)
    requires Installed(v, SwapEdit(c, come), v')
    ensures Swapped(v, v', c, come)
  {
    forall l: nat | l < NUM_LEVELS && l != c.level && l != c.level + 1
      ensures v'[l] == v[l]
    {
      SwapEditAdds(c, come, l);
      KeptDropsNone(Files(v[l]));
      assert Files(v'[l]) == Files(v[l]);
      InOrderUnique(v'[l], v[l]);
    }
    UpperFiles(v, c, come);
    LowerFiles(v, c, come);
  }

  // And the other way round: what a compaction leaves is what its edit makes of the levels.
  lemma SwappedIsInstalled(v: Version, v': Version, c: Compaction, come: Level)
    requires Swapped(v, v', c, come)
    requires Files(c.upper) <= Files(v[c.level]) && Files(c.lower) <= Files(v[c.level + 1])
    requires UniqueNumbers(Files(v[c.level])) && UniqueNumbers(Files(v[c.level + 1]) + Files(come))
    requires Files(v[c.level + 1]) !! Files(come)
    ensures Installed(v, SwapEdit(c, come), v')
  {
    hide LevelAfter, InOrder, UniqueNumbers;
    UpperFiles(v, c, come);
    LowerFiles(v, c, come);
    forall l: nat | l < NUM_LEVELS && l != c.level && l != c.level + 1
      ensures LevelAfter(Files(v[l]), SwapEdit(c, come), l) == Files(v[l])
    {
      SwapEditAdds(c, come, l);
      NothingDone(Files(v[l]), SwapEdit(c, come), l);
    }
  }

  lemma NothingDone(files: set<File>, e: VersionEdit, l: nat)
    requires AddedAt(e, l) == {} && DeletedAt(e, l) == {}
    ensures LevelAfter(files, e, l) == files
  {
  }

  lemma UpperFiles(v: Version, c: Compaction, come: Level)
    requires |v| == NUM_LEVELS && c.level + 1 < NUM_LEVELS
    requires Files(c.upper) <= Files(v[c.level]) && UniqueNumbers(Files(v[c.level]))
    ensures LevelAfter(Files(v[c.level]), SwapEdit(c, come), c.level) == Files(v[c.level]) - Files(c.upper)
  {
    SwapEditAdds(c, come, c.level);
    assert Files(v[c.level]) + {} == Files(v[c.level]);
    assert Numbers({}) == {};
    KeptDropsFiles(Files(v[c.level]), Files(c.upper));
  }

  lemma LowerFiles(v: Version, c: Compaction, come: Level)
    requires |v| == NUM_LEVELS && c.level + 1 < NUM_LEVELS
    requires Files(c.lower) <= Files(v[c.level + 1])
    requires UniqueNumbers(Files(v[c.level + 1]) + Files(come)) && Files(v[c.level + 1]) !! Files(come)
    ensures LevelAfter(Files(v[c.level + 1]), SwapEdit(c, come), c.level + 1)
         == Files(v[c.level + 1]) - Files(c.lower) + Files(come)
  {
    var l := c.level + 1;
    SwapEditAdds(c, come, l);
    var all := Files(v[l]) + Files(come);
    assert Numbers(Files(c.lower)) - Numbers(Files(come)) == Numbers(Files(c.lower)) by {
      forall n | n in Numbers(Files(c.lower))
        ensures n !in Numbers(Files(come))
      {
        var f :| f in Files(c.lower) && f.number == n;
        assert f in all;
      }
    }
    KeptDropsFiles(all, Files(c.lower));
  }

  // ---- The levels stay well formed. ----

  lemma LevelEntriesOf(fs: Level)
    ensures LevelEntries(fs) == EntriesOf(Files(fs))
  {
  }

  lemma EntriesOfUnion(S: set<File>, T: set<File>)
    ensures EntriesOf(S + T) == EntriesOf(S) + EntriesOf(T)
  {
  }

  lemma EntriesOfSubset(S: set<File>, T: set<File>)
    requires S <= T
    ensures EntriesOf(S) <= EntriesOf(T)
  {
  }

  lemma SwappedEntries(v: Version, v': Version, c: Compaction, come: Level)
    requires Sound(v, c) && Swapped(v, v', c, come) && LevelEntries(come) <= InputEntries(c)
    ensures LevelEntries(v'[c.level]) <= LevelEntries(v[c.level])
    ensures LevelEntries(v'[c.level + 1]) <= EntriesOf(Files(c.upper)) + LevelEntries(v[c.level + 1])
    ensures EntriesOf(Files(c.upper)) <= LevelEntries(v[c.level])
  {
    UpperWithin(v, c);
    var F, G := Files(v[c.level]), Files(v[c.level + 1]);
    var F', G' := Files(v'[c.level]), Files(v'[c.level + 1]);
    LevelEntriesOf(v[c.level]);
    LevelEntriesOf(v[c.level + 1]);
    LevelEntriesOf(v'[c.level]);
    LevelEntriesOf(v'[c.level + 1]);
    LevelEntriesOf(come);
    EntriesOfSubset(F', F);
    EntriesOfSubset(Files(c.upper), F);
    EntriesOfSubset(Files(c.lower), G);
    EntriesOfUnion(Files(c.upper), Files(c.lower));
    EntriesOfUnion(G, Files(come));
    EntriesOfSubset(G', G + Files(come));
  }

  lemma SwappedIntact(v: Version, v': Version, c: Compaction, come: Level, l: nat)
    requires Swapped(v, v', c, come) && AllIntact(come) && l < NUM_LEVELS
    requires forall k | 0 <= k < NUM_LEVELS :: AllIntact(v[k])
    ensures AllIntact(v'[l])
  {
    forall f | f in v'[l]
      ensures Intact(f)
    {
      assert f in Files(v'[l]);
      assert f in come || f in v[l];
    }
  }

  // A table made of entries of some files lies where they do.
  lemma TableWithinFiles(S: set<File>, f: File, g: File)
    requires Intact(f) && Elements(f.run) <= EntriesOf(S)
    requires forall p | p in S :: Intact(p)
    ensures (forall p | p in S :: Less(g.largest, p.smallest)) ==> Less(g.largest, f.smallest)
    ensures (forall p | p in S :: Less(p.largest, g.smallest)) ==> Less(f.largest, g.smallest)
  {
    var first, last := f.run[0], f.run[|f.run| - 1];
    assert first in Elements(f.run) && last in Elements(f.run);
    var p :| p in S && first in p.run;
    var q :| q in S && last in q.run;
    RangeOrdered(p);
    RangeOrdered(q);
  }

  // A table made of input entries is apart from the lower files that stay.
  lemma ComingApart(v: Version, c: Compaction, come: Level, f: File, g: File)
    requires WellFormed(v) && Sound(v, c) && Fits(c, come)
    requires f in come && g in v[c.level + 1] && g !in c.lower
    ensures Apart(f, g)
  {
    StayingLowerOutside(v, c, g);
    InLevel(come, f);
    InputsIntact(v, c);
    TableWithinFiles(Files(c.upper) + Files(c.lower), f, g);
  }

  lemma InputsIntact(v: Version, c: Compaction)
    requires Sound(v, c) && AllIntact(v[c.level]) && AllIntact(v[c.level + 1])
    ensures forall p | p in Files(c.upper) + Files(c.lower) :: Intact(p)
  {
    UpperWithin(v, c);
    forall p | p in Files(c.upper) + Files(c.lower)
      ensures Intact(p)
    {
      assert p in Files(v[c.level]) || p in Files(v[c.level + 1]);
    }
  }

  lemma SwappedLowerApart(v: Version, v': Version, c: Compaction, come: Level)
    requires WellFormed(v) && Sound(v, c) && Swapped(v, v', c, come) && Fits(c, come)
    ensures PairwiseApart(Files(v'[c.level + 1]))
  {
    ApartFromDisjoint(v[c.level + 1]);
    forall f, g | f in Files(v'[c.level + 1]) && g in Files(v'[c.level + 1]) && f != g
      ensures Apart(f, g)
    {
      if f in come && g !in come {
        ComingApart(v, c, come, f, g);
      } else if f !in come && g in come {
        ComingApart(v, c, come, g, f);
      }
    }
  }

  lemma NewerParts(A: set<Entry>, B: set<Entry>, C: set<Entry>, A': set<Entry>, B': set<Entry>)
    requires Newer(A, B) && Newer(A, C) && A' <= A && B' <= B + C
    ensures Newer(A', B')
  {
  }

  lemma PartsNewer(A: set<Entry>, B: set<Entry>, C: set<Entry>, A': set<Entry>, C': set<Entry>)
    requires Newer(A, C) && Newer(B, C) && A' <= A + B && C' <= C
    ensures Newer(A', C')
  {
  }

  lemma UpperStayNewer(files: Level, level: nat, upper: Level)
    requires AllIntact(files) && Distinct(LevelEntries(files)) && (level > 0 ==> Disjoint(files))
    requires UpperClosed(files, level, upper)
    ensures Newer(EntriesOf(Files(files) - Files(upper)), EntriesOf(Files(upper) * Files(files)))
  {
    forall x, y | x in EntriesOf(Files(files) - Files(upper)) && y in EntriesOf(Files(upper) * Files(files)) &&
                  x.key.user == y.key.user
      ensures x.key.seqno > y.key.seqno
    {
      var g :| g in Files(files) - Files(upper) && x in g.run;
      var f :| f in Files(upper) * Files(files) && y in f.run;
      StayingUpperNewer(files, level, upper, f, g);
      assert x in Elements(g.run) && y in Elements(f.run);
    }
  }

  // What stays in the upper level is newer than what is now in the lower one.
  lemma SwappedUpperNewer(v: Version, v': Version, c: Compaction, come: Level)
    requires WellFormed(v) && Sound(v, c) && Swapped(v, v', c, come) && Fits(c, come)
    ensures Newer(LevelEntries(v'[c.level]), LevelEntries(v'[c.level + 1]))
  {
    var L := c.level;
    LevelWithin(v, L);
    DistinctSubset(LevelEntries(v[L]), Contents(v));
    UpperStayNewer(v[L], L, c.upper);
    UpperWithin(v, c);
    assert Files(c.upper) * Files(v[L]) == Files(c.upper);
    LevelEntriesOf(v'[L]);
    SwappedEntries(v, v', c, come);
    assert Newer(LevelEntries(v[L]), LevelEntries(v[L + 1]));
    NewerParts(LevelEntries(v[L]), LevelEntries(v[L + 1]), {}, LevelEntries(v'[L]), LevelEntries(v[L + 1]));
    NewerParts(LevelEntries(v'[L]), EntriesOf(Files(c.upper)), LevelEntries(v[L + 1]),
               LevelEntries(v'[L]), LevelEntries(v'[L + 1]));
  }

  ghost predicate LevelsNewer(v: Version) {
    forall i, j | 0 <= i < j < |v| :: Newer(LevelEntries(v[i]), LevelEntries(v[j]))
  }

  lemma SwappedLevelsNewer(v: Version, v': Version, L: nat)
    requires |v| == |v'| == NUM_LEVELS && L + 1 < NUM_LEVELS && LevelsNewer(v)
    requires forall l | 0 <= l < NUM_LEVELS && l != L && l != L + 1 :: v'[l] == v[l]
    requires LevelEntries(v'[L]) <= LevelEntries(v[L])
    requires LevelEntries(v'[L + 1]) <= LevelEntries(v[L]) + LevelEntries(v[L + 1])
    requires Newer(LevelEntries(v'[L]), LevelEntries(v'[L + 1]))
    ensures LevelsNewer(v')
  {
    forall i, j | 0 <= i < j < NUM_LEVELS
      ensures Newer(LevelEntries(v'[i]), LevelEntries(v'[j]))
    {
      if i == L && j == L + 1 {
      } else if j == L + 1 {
        NewerParts(LevelEntries(v[i]), LevelEntries(v[L]), LevelEntries(v[L + 1]),
                   LevelEntries(v'[i]), LevelEntries(v'[L + 1]));
      } else if i == L + 1 {
        PartsNewer(LevelEntries(v[L]), LevelEntries(v[L + 1]), LevelEntries(v[j]),
                   LevelEntries(v'[L + 1]), LevelEntries(v'[j]));
      } else {
        NewerParts(LevelEntries(v[i]), LevelEntries(v[j]), {}, LevelEntries(v'[i]), LevelEntries(v'[j]));
      }
    }
  }

  lemma SwappedContentsWithin(v: Version, v': Version, c: Compaction, come: Level)
    requires Sound(v, c) && Swapped(v, v', c, come) && LevelEntries(come) <= InputEntries(c)
    ensures Contents(v') <= Contents(v)
  {
    SwappedEntries(v, v', c, come);
    forall e | e in Contents(v')
      ensures e in Contents(v)
    {
      var l :| 0 <= l < |v'| && e in LevelEntries(v'[l]);
      if l == c.level || l == c.level + 1 {
        assert e in LevelEntries(v[c.level]) + LevelEntries(v[c.level + 1]);
      }
    }
  }

  lemma SwappedSorted(v: Version, v': Version, c: Compaction, come: Level, l: nat)
    requires WellFormed(v) && Sound(v, c) && Swapped(v, v', c, come) && Fits(c, come)
    requires 1 <= l < NUM_LEVELS
    ensures Disjoint(v'[l])
  {
    if l == c.level {
      ApartFromDisjoint(v[l]);
      SwappedIntact(v, v', c, come, l);
      DisjointFromApart(v'[l]);
    } else if l == c.level + 1 {
      SwappedLowerApart(v, v', c, come);
      SwappedIntact(v, v', c, come, l);
      DisjointFromApart(v'[l]);
    }
  }

  lemma SwapKeepsLevels(v: Version, v': Version, c: Compaction, come: Level)
    requires WellFormed(v) && Sound(v, c) && Swapped(v, v', c, come) && Fits(c, come)
    ensures forall l | 0 <= l < NUM_LEVELS :: AllIntact(v'[l])
    ensures forall l | 1 <= l < NUM_LEVELS :: Disjoint(v'[l])
    ensures AgedByNumber(v'[0])
  {
    forall l | 0 <= l < NUM_LEVELS
      ensures AllIntact(v'[l])
    {
      SwappedIntact(v, v', c, come, l);
    }
    forall l | 1 <= l < NUM_LEVELS
      ensures Disjoint(v'[l])
    {
      SwappedSorted(v, v', c, come, l);
    }
    if c.level == 0 {
      AgedSubset(v[0], v'[0]);
    }
  }

  lemma WellFormedAges(v: Version)
    requires WellFormed(v)
    ensures LevelsNewer(v) && Distinct(Contents(v))
  {
  }

  lemma SwapKeepsAges(v: Version, v': Version, c: Compaction, come: Level)
    requires WellFormed(v) && Sound(v, c) && Swapped(v, v', c, come) && Fits(c, come)
    ensures LevelsNewer(v') && Distinct(Contents(v'))
  {
    hide WellFormed, Sound, LevelsNewer, Distinct, Contents, LevelEntries, Newer, InputEntries, EntriesOf, InOrder,
         AllIntact, PairwiseApart;
    SwappedEntries(v, v', c, come);
    SwappedUpperNewer(v, v', c, come);
    WellFormedAges(v);
    SwappedLevelsNewer(v, v', c.level);
    SwappedContentsWithin(v, v', c, come);
    DistinctSubset(Contents(v'), Contents(v));
  }

  // A trivial move or the installation of a compaction keeps the structure of the levels.
  lemma SwapKeepsWellFormed(v: Version, v': Version, c: Compaction, come: Level)
    requires WellFormed(v) && Sound(v, c) && Swapped(v, v', c, come) && Fits(c, come)
    ensures WellFormed(v')
  {
    SwapKeepsLevels(v, v', c, come);
    SwapKeepsAges(v, v', c, come);
  }
}
