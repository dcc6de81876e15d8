// The edits a running store logs to its manifest: read back through one builder they give its
// current version, whatever steps it took (db/version_set.cc, LogAndApply and Recover).

module EditRuns {
  import opened Keys
  import opened Versions
  import opened VersionEdits
  import opened Picking
  import opened Install
  import opened Swap
  import opened Flush
  import opened Reopening
  import opened CompactionWork
  import opened EditReplays
  import opened Store

  // ---- Edits and numbers. ----

  // All files that were in the level at some time since the base.
  ghost function Seen(base: Version, edits: seq<VersionEdit>, l: nat): set<File>
    requires |base| == NUM_LEVELS && l < NUM_LEVELS
  {
    Files(base[l]) + AddedBy(edits, l)
  }

  // A number stands for one file, which never moves up.
  ghost predicate OnlySinks(base: Version, edits: seq<VersionEdit>, v: Version)
    requires |base| == |v| == NUM_LEVELS
  {
    forall l: nat, k: nat, f, g | l < NUM_LEVELS && k < NUM_LEVELS && f in Seen(base, edits, l) && g in v[k] ::
      f.number == g.number ==> l <= k
  }

  ghost predicate NumbersGivenOut(base: Version, edits: seq<VersionEdit>, next: nat)
    requires |base| == NUM_LEVELS
  {
    forall l: nat, f | l < NUM_LEVELS && f in Seen(base, edits, l) :: f.number < next
  }

  // What is known of a version and the edits that led to it from a base.
  ghost predicate Tracks(base: Version, edits: seq<VersionEdit>, v: Version, next: nat) {
    && Listable(base) && AllWithin(edits) && Listed(v, next) && Rebuilt(base, edits, v)
    && (forall l: nat | l < NUM_LEVELS :: EntersOnce(Files(base[l]), edits, l) && UniqueNumbers(Seen(base, edits, l)))
    && NumbersGivenOut(base, edits, next) && OnlySinks(base, edits, v)
  }

  // An edit that installs a version, with files that are new or come from the level above.
  ghost predicate EditStep(v: Version, e: VersionEdit, v': Version, next: nat, next': nat) {
    && |v| == NUM_LEVELS && EditWithin(e) && Installed(v, e, v') && Listed(v', next') && next <= next'
    && forall l: nat, f | l < NUM_LEVELS && f in AddedAt(e, l) ::
         next <= f.number < next' || (l > 0 && f in v[l - 1])
  }

  lemma TrackStarts(v: Version, next: nat)
    requires Listed(v, next)
    ensures Tracks(v, [], v, next)
  {
    hide InOrder, UniqueNumbers;
    forall l: nat | l < NUM_LEVELS
      ensures Seen(v, [], l) == Files(v[l]) == Kept(Seen(v, [], l), {})
    {
    }
    forall l: nat, k: nat, f, g | l < NUM_LEVELS && k < NUM_LEVELS && f in Seen(v, [], l) && g in v[k] && f.number == g.number
      ensures l <= k
    {
      assert f in v[l];
    }
  }

  lemma SeenSnoc(base: Version, edits: seq<VersionEdit>, e: VersionEdit, l: nat)
    requires |base| == NUM_LEVELS && l < NUM_LEVELS
    ensures Seen(base, edits + [e], l) == Seen(base, edits, l) + AddedAt(e, l)
    ensures DeletedBy(edits + [e], l) == DeletedBy(edits, l) + DeletedAt(e, l) - Numbers(AddedAt(e, l))
    ensures EntersOnce(Files(base[l]), edits + [e], l) <==>
            EntersOnce(Files(base[l]), edits, l) && Numbers(AddedAt(e, l)) !! Numbers(Seen(base, edits, l))
  {
    var more := edits + [e];
    assert more[..|edits|] == edits;
  }

  // What an edit adds to a level has a number that was never there.
  lemma AddedIsNew(base: Version, edits: seq<VersionEdit>, v: Version, next: nat, e: VersionEdit, v': Version, next': nat, l: nat)
    requires Tracks(base, edits, v, next) && EditStep(v, e, v', next, next') && l < NUM_LEVELS
    ensures Numbers(AddedAt(e, l)) !! Numbers(Seen(base, edits, l))
  {
    hide EntersOnce, UniqueNumbers, Rebuilt, Installed, Listed, AddedAt, Seen;
    forall f, g | f in AddedAt(e, l) && g in Seen(base, edits, l)
      ensures f.number != g.number
    {
    }
  }

  lemma KeptAgain(seen: set<File>, deleted: set<nat>, added: set<File>, gone: set<nat>)
    requires Numbers(added) !! Numbers(seen)
    ensures Kept(Kept(seen, deleted) + added, gone - Numbers(added)) == Kept(seen + added, deleted + gone - Numbers(added))
  {
    forall f | f in seen
      ensures f.number !in Numbers(added)
    {
      assert f.number in Numbers(seen);
    }
    forall f | f in added
      ensures f.number in Numbers(added)
    {
    }
  }

  lemma StepRebuilds(base: Version, edits: seq<VersionEdit>, v: Version, next: nat, e: VersionEdit, v': Version, next': nat)
    requires Tracks(base, edits, v, next) && EditStep(v, e, v', next, next')
    ensures Rebuilt(base, edits + [e], v')
  {
    hide EntersOnce, UniqueNumbers, Listed, InOrder, Kept, Numbers, AddedAt, DeletedAt, OnlySinks, NumbersGivenOut;
    forall l: nat | l < NUM_LEVELS
      ensures Files(v'[l]) == Kept(Files(base[l]) + AddedBy(edits + [e], l), DeletedBy(edits + [e], l))
    {
      AddedIsNew(base, edits, v, next, e, v', next', l);
      SeenSnoc(base, edits, e, l);
      KeptAgain(Seen(base, edits, l), DeletedBy(edits, l), AddedAt(e, l), DeletedAt(e, l));
    }
  }

  lemma InstalledHas(v: Version, e: VersionEdit, v': Version, l: nat, f: File)
    requires Installed(v, e, v') && l < NUM_LEVELS
    ensures f in AddedAt(e, l) ==> f in v'[l]
    ensures f in v'[l] ==> f in v[l] || f in AddedAt(e, l)
  {
    hide InOrder;
    assert f in v'[l] <==> f in Files(v'[l]);
    assert f in v[l] <==> f in Files(v[l]);
  }

  lemma StepSinks(base: Version, edits: seq<VersionEdit>, v: Version, next: nat, e: VersionEdit, v': Version, next': nat)
    requires Tracks(base, edits, v, next) && EditStep(v, e, v', next, next')
    ensures OnlySinks(base, edits + [e], v')
  {
    hide EntersOnce, Rebuilt, Installed, AddedAt, Seen, InOrder, UniqueNumbers;
    forall l: nat, k: nat, f, g | l < NUM_LEVELS && k < NUM_LEVELS && f in Seen(base, edits + [e], l) && g in v'[k] &&
                                  f.number == g.number
      ensures l <= k
    {
      SeenSnoc(base, edits, e, l);
      InstalledHas(v, e, v', k, g);
      if f in AddedAt(e, l) {
        InstalledHas(v, e, v', l, f);
      }
    }
  }

  lemma StepUnique(base: Version, edits: seq<VersionEdit>, v: Version, next: nat, e: VersionEdit, v': Version, next': nat, l: nat)
    requires Tracks(base, edits, v, next) && EditStep(v, e, v', next, next') && l < NUM_LEVELS
    ensures UniqueNumbers(Seen(base, edits + [e], l)) && EntersOnce(Files(base[l]), edits + [e], l)
    ensures forall f | f in Seen(base, edits + [e], l) :: f.number < next'
  {
    hide EntersOnce, Rebuilt, Installed, AddedAt, Seen, InOrder, OnlySinks;
    AddedIsNew(base, edits, v, next, e, v', next', l);
    SeenSnoc(base, edits, e, l);
    forall f | f in AddedAt(e, l)
      ensures f in Files(v'[l]) && f.number in Numbers(AddedAt(e, l)) && f.number < next'
    {
      InstalledHas(v, e, v', l, f);
    }
    assert forall f | f in Seen(base, edits, l) :: f.number in Numbers(Seen(base, edits, l));
  }

  lemma TrackStep(base: Version, edits: seq<VersionEdit>, v: Version, next: nat, e: VersionEdit, v': Version, next': nat)
    requires Tracks(base, edits, v, next) && EditStep(v, e, v', next, next')
    ensures Tracks(base, edits + [e], v', next')
  {
    hide EntersOnce, Rebuilt, Installed, AddedAt, Seen, InOrder, UniqueNumbers, OnlySinks;
    StepRebuilds(base, edits, v, next, e, v', next');
    StepSinks(base, edits, v, next, e, v', next');
    forall l: nat | l < NUM_LEVELS
      ensures UniqueNumbers(Seen(base, edits + [e], l)) && EntersOnce(Files(base[l]), edits + [e], l)
      ensures forall f | f in Seen(base, edits + [e], l) :: f.number < next'
    {
      StepUnique(base, edits, v, next, e, v', next', l);
    }
  }

  // ---- They can be read back. ----

  lemma {:induction false} OnceAdded(files: set<File>, edits: seq<VersionEdit>, l: nat)
    requires EntersOnce(files, edits, l)
    ensures AddsOnce(files, edits, l)
  {
    if edits != [] {
      var n := |edits| - 1;
      OnceAdded(files, edits[..n], l);
      forall f | f in AddedAt(edits[n], l)
        ensures f !in files + AddedBy(edits[..n], l)
      {
        assert f.number in Numbers(AddedAt(edits[n], l));
      }
    }
  }

  lemma TrackedMergeable(base: Version, edits: seq<VersionEdit>, v: Version, next: nat)
    requires Tracks(base, edits, v, next)
    ensures Mergeable(base, edits)
  {
    hide EntersOnce, Rebuilt, InOrder, OnlySinks, UniqueNumbers, Comparable;
    forall l: nat | l < NUM_LEVELS
      ensures AddsOnce(Files(base[l]), edits, l) && Comparable(Files(base[l]) + AddedBy(edits, l))
    {
      OnceAdded(Files(base[l]), edits, l);
      UniqueIsComparable(Seen(base, edits, l));
    }
  }

  // So replaying what a store logged never leaves a file behind, one builder or many.
  lemma NeverStale(base: Version, edits: seq<VersionEdit>, v: Version, next: nat, l: nat, f: File)
    requires Tracks(base, edits, v, next) && l < NUM_LEVELS
    ensures !Stale(Files(base[l]), edits, l, f)
  {
    hide EntersOnce, Rebuilt, InOrder, OnlySinks, UniqueNumbers, Stale, Kept;
    EnteringOnceReplays(Files(base[l]), edits, l);
    OneBuilderReplays(Files(base[l]), edits, l);
  }

  lemma RebuiltIsOne(base: Version, edits: seq<VersionEdit>, v: Version, w: Version)
    requires Rebuilt(base, edits, v) && Rebuilt(base, edits, w)
    ensures v == w
  {
    forall l | 0 <= l < NUM_LEVELS
      ensures v[l] == w[l]
    {
      InOrderUnique(v[l], w[l]);
    }
  }

  // ---- What the steps of the store log. ----

  lemma FlushLogs(s: State, t: State, level: nat, f: File)
    requires Structure(s) && FlushStep(s, t, level, f)
    ensures EditStep(s.version, if s.imm.value == [] then VersionEdit({}, []) else VersionEdit({}, [(level, f)]), t.version,
                     s.nextFile, t.nextFile)
  {
    hide WellFormed, Listed, Layered, Gains, Installed, Intact, RoomAt;
    FlushKeeps(s, t, level, f);
    ListedSize(s.version, s.nextFile);
    if s.imm.value == [] {
      NothingInstalled(s.version, s.nextFile);
    } else {
      GainedIsInstalled(s.version, t.version, level, f);
      GainsSize(s.version, t.version, level, f);
      var e := VersionEdit({}, [(level, f)]);
      assert forall p | p in e.added :: p == (level, f);
    }
  }

  lemma ListedSize(v: Version, n: nat)
    requires Listed(v, n)
    ensures |v| == NUM_LEVELS
  {
  }

  lemma NothingInstalled(v: Version, n: nat)
    requires Listed(v, n)
    ensures Installed(v, VersionEdit({}, []), v)
  {
    hide InOrder, UniqueNumbers;
    forall l: nat | l < NUM_LEVELS
      ensures LevelAfter(Files(v[l]), VersionEdit({}, []), l) == Files(v[l])
    {
      NothingDone(Files(v[l]), VersionEdit({}, []), l);
    }
  }

  lemma SwapLogs(v: Version, v': Version, c: Compaction, come: Level, n: nat, n': nat)
    requires Listed(v, n) && Listed(v', n') && n <= n' && Sound(v, c) && Swapped(v, v', c, come)
    requires UniqueNumbers(Files(come))
    requires (forall f | f in come :: n <= f.number < n') || come == c.upper
    ensures EditStep(v, SwapEdit(c, come), v', n, n')
  {
    hide InOrder, UniqueNumbers, Installed, Sound;
    UpperWithin(v, c);
    ComingApart(v, c, come, n);
    SwappedIsInstalled(v, v', c, come);
    forall l: nat, f | l < NUM_LEVELS && f in AddedAt(SwapEdit(c, come), l)
      ensures n <= f.number < n' || (l > 0 && f in v[l - 1])
    {
      SwapEditAdds(c, come, l);
      assert f in c.upper ==> f in Files(c.upper);
    }
    SwapEditWithin(c, come);
  }

  lemma SwapEditWithin(c: Compaction, come: Level)
    requires c.level + 1 < NUM_LEVELS
    ensures EditWithin(SwapEdit(c, come))
  {
  }

  lemma ComingApart(v: Version, c: Compaction, come: Level, n: nat)
    requires Listed(v, n) && c.level + 1 < NUM_LEVELS && Files(c.upper) <= Files(v[c.level]) && UniqueNumbers(Files(come))
    requires (forall f | f in come :: n <= f.number) || come == c.upper
    ensures UniqueNumbers(Files(v[c.level])) && UniqueNumbers(Files(v[c.level + 1]) + Files(come))
    ensures Files(v[c.level + 1]) !! Files(come)
  {
    hide InOrder;
    forall f, g | f in Files(come) && g in Files(v[c.level + 1])
      ensures f.number != g.number
    {
      assert f in c.upper ==> f in Files(c.upper);
      assert f in come && g in v[c.level + 1];
    }
  }

  lemma MoveLogs(s: State, t: State, c: Compaction)
    requires Structure(s) && MoveStep(s, t, c)
    ensures EditStep(s.version, SwapEdit(c, c.upper), t.version, s.nextFile, t.nextFile)
  {
    hide WellFormed, Listed, Layered, Swapped, Sound, UniqueNumbers;
    MoveKeeps(s, t, c);
    OneFile(c.upper);
    SwapLogs(s.version, t.version, c, c.upper, s.nextFile, t.nextFile);
  }

  lemma CompactLogs(s: State, t: State, c: Compaction, input: seq<Entry>, outputs: Level)
    requires Structure(s) && CompactStep(s, t, c, input, outputs)
    ensures EditStep(s.version, SwapEdit(c, outputs), t.version, s.nextFile, t.nextFile)
  {
    hide WellFormed, Listed, Layered, Swapped, Sound, UniqueNumbers, DropRules.Survivors, AllIntact;
    CompactKeepsStructure(s, t, c, input, outputs);
    OutputsFit(s, c, input, outputs, Smallest(s), BaseLevels(s.version, c.level));
    SwapLogs(s.version, t.version, c, outputs, s.nextFile, t.nextFile);
  }

  lemma ReopenLogs(s: State, t: State, first: nat, fs: Level)
    requires Structure(s) && ReopenStep(s, t, first, fs)
    ensures EditStep(s.version, AtLevel0(fs), t.version, first, t.nextFile)
  {
    hide WellFormed, Listed, Layered, Replayed, Later, LevelEntries, Installed, AtLevel0;
    ReopenKeeps(s, t, first, fs);
    ReplayedIsInstalled(s.version, t.version, fs, first);
    ListedSize(s.version, first);
    Level0Within(fs);
    forall l: nat, f | l < NUM_LEVELS && f in AddedAt(AtLevel0(fs), l)
      ensures first <= f.number < t.nextFile
    {
      AddsAtLevel0(fs, l);
      assert f in fs;
    }
  }

  lemma Level0Within(fs: Level)
    ensures EditWithin(AtLevel0(fs))
  {
  }
}
