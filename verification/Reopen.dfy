// What a version becomes when the logs are replayed into it (db/db_impl.cc,
// DBImpl::RecoverLogFile and DBImpl::Recover).

module Reopening {
  import opened Keys
  import opened History
  import opened Versions
  import opened VersionEdits
  import opened Install
  import opened Flush

  // Tables written one after the other, of entries written one after the other.
  ghost predicate OlderFirst(fs: Level) {
    forall i, j | 0 <= i < j < |fs| ::
      fs[i].number < fs[j].number && Newer(Elements(fs[j].run), Elements(fs[i].run))
  }

  ghost predicate NumberedIn(fs: Level, first: nat, end: nat) {
    first <= end && forall f | f in fs :: first <= f.number < end
  }

  // They all go to level 0, whatever room there is further down.
  ghost predicate Replayed(v: Version, v': Version, fs: Level) {
    && |v| == |v'| == NUM_LEVELS
    && InOrder(v'[0]) && Files(v'[0]) == Files(v[0]) + Files(fs)
    && (forall l | 1 <= l < NUM_LEVELS :: v'[l] == v[l])
    && AllIntact(fs) && OlderFirst(fs)
  }

  lemma NothingReplayed(v: Version, v': Version, first: nat, end: nat)
    requires Listed(v, first) && Replayed(v, v', []) && NumberedIn([], first, end)
    ensures v' == v && LevelEntries([]) == {} && Listed(v, end)
  {
    assert Files([]) == {};
    InOrderUnique(v'[0], v[0]);
    ListedBelow(v, first, end);
  }

  lemma ListedBelow(v: Version, n: nat, end: nat)
    requires Listed(v, n) && n <= end
    ensures Listed(v, end)
  {
    hide InOrder, UniqueNumbers;
  }

  // A list in order without one of its files.
  lemma WithoutOne(fs: Level, f: File) returns (gs: Level)
    requires InOrder(fs) && f in fs
    ensures InOrder(gs) && Files(gs) == Files(fs) - {f}
  {
    var i :| 0 <= i < |fs| && fs[i] == f;
    gs := fs[..i] + fs[i + 1..];
    RestInOrder(fs, i);
    forall g
      ensures g in gs <==> g in fs && g != f
    {
      assert fs == fs[..i] + [f] + fs[i + 1..];
      assert fs[i] !in fs[..i] && fs[i] !in fs[i + 1..];
    }
  }

  lemma RestInOrder(fs: Level, i: nat)
    requires InOrder(fs) && i < |fs|
    ensures InOrder(fs[..i] + fs[i + 1..])
    ensures fs[i] !in fs[..i] && fs[i] !in fs[i + 1..]
  {
    var gs := fs[..i] + fs[i + 1..];
    forall a, b | 0 <= a < b < |gs|
      ensures BySmallestKey(gs[a], gs[b])
    {
      assert gs[a] == fs[if a < i then a else a + 1] && gs[b] == fs[if b < i then b else b + 1];
    }
  }

  lemma LastIsNew(fs: Level, base: Level, first: nat, end: nat)
    requires fs != [] && OlderFirst(fs) && NumberedIn(fs, first, end) && forall g | g in base :: g.number < first
    ensures var k := |fs| - 1;
      && Files(fs[..k]) == Files(fs) - {fs[k]} && fs[k] !in base && fs[k] in fs
      && NumberedIn(fs[..k], first, fs[k].number) && OlderFirst(fs[..k]) && fs[k].number < end
  {
    hide Newer;
    var k := |fs| - 1;
    assert fs == fs[..k] + [fs[k]];
    assert forall g | g in fs[..k] :: g in fs && g.number < fs[k].number;
  }

  // The version before the last table went in.
  lemma BeforeLast(v: Version, v': Version, fs: Level, first: nat, end: nat) returns (u: Version)
    requires fs != [] && Listed(v, first) && Replayed(v, v', fs) && NumberedIn(fs, first, end)
    ensures var k := |fs| - 1;
      && Gains(u, v', 0, fs[k]) && Replayed(v, u, fs[..k])
      && NumberedIn(fs[..k], first, fs[k].number) && fs[k].number < end
  {
    hide InOrder, UniqueNumbers, Newer, Intact, OlderFirst, NumberedIn;
    var k := |fs| - 1;
    LastIsNew(fs, v[0], first, end);
    assert fs[k] in Files(v'[0]);
    var level := WithoutOne(v'[0], fs[k]);
    u := v'[0 := level];
    assert Files(u[0]) == Files(v[0]) + Files(fs[..k]);
    forall l: nat | l < NUM_LEVELS
      ensures InOrder(v'[l])
    {
      assert l > 0 ==> v'[l] == v[l];
    }
  }

  lemma LevelSnoc(fs: Level)
    requires fs != []
    ensures var k := |fs| - 1;
      LevelEntries(fs) == LevelEntries(fs[..k]) + Elements(fs[k].run)
  {
    var k := |fs| - 1;
    assert fs == fs[..k] + [fs[k]];
    forall e
      ensures e in LevelEntries(fs) <==> e in LevelEntries(fs[..k]) + Elements(fs[k].run)
    {
      if e in LevelEntries(fs) {
        var f :| f in fs && e in f.run;
        assert f in fs[..k] || f == fs[k];
      }
      if e in Elements(fs[k].run) {
        assert fs[k] in fs;
      }
    }
  }

  lemma FewerEntries(v: Version, fs: Level)
    requires fs != [] && Newer(LevelEntries(fs), Contents(v)) && Distinct(Contents(v) + LevelEntries(fs))
    ensures var init := fs[..|fs| - 1];
      Newer(LevelEntries(init), Contents(v)) && Distinct(Contents(v) + LevelEntries(init))
  {
    hide Contents, LevelEntries;
    LevelSnoc(fs);
  }

  // The last table is newer than the rest of the version.
  lemma LastIsFresh(v: Version, u: Version, fs: Level)
    requires fs != [] && AllIntact(fs) && OlderFirst(fs)
    requires Listed(u, fs[|fs| - 1].number)
    requires Contents(u) == Contents(v) + LevelEntries(fs[..|fs| - 1])
    requires Newer(LevelEntries(fs), Contents(v)) && Distinct(Contents(v) + LevelEntries(fs))
    ensures Fresh(u, fs[|fs| - 1])
  {
    hide Contents, InOrder, UniqueNumbers, Intact, Newer, Distinct, OlderFirst;
    var k := |fs| - 1;
    LevelSnoc(fs);
    assert Intact(fs[k]);
    assert Contents(u) + Elements(fs[k].run) == Contents(v) + LevelEntries(fs);
    NewerThanEarlier(fs);
    NewerOf(LevelEntries(fs), Contents(v), Elements(fs[k].run), LevelEntries(fs[..k]), Contents(u));
  }

  lemma NewerOf(a: set<Entry>, b: set<Entry>, part: set<Entry>, more: set<Entry>, all: set<Entry>)
    requires Newer(a, b) && part <= a && Newer(part, more) && all == b + more
    ensures Newer(part, all)
  {
  }

  lemma NewerThanEarlier(fs: Level)
    requires fs != [] && OlderFirst(fs)
    ensures Newer(Elements(fs[|fs| - 1].run), LevelEntries(fs[..|fs| - 1]))
  {
    var k := |fs| - 1;
    forall x, y | x in Elements(fs[k].run) && y in LevelEntries(fs[..k]) && x.key.user == y.key.user
      ensures x.key.seqno > y.key.seqno
    {
      var g :| g in fs[..k] && y in g.run;
      var i :| 0 <= i < k && fs[i] == g;
      assert y in Elements(fs[i].run);
    }
  }

  lemma AboutReplayed(v: Version, v': Version, fs: Level)
    requires Replayed(v, v', fs)
    ensures AllIntact(fs) && OlderFirst(fs)
  {
  }

  lemma RoomAbove(v: Version, f: File)
    ensures RoomAt(v, 0, f)
  {
  }

  lemma {:induction false} ReplayKeepsWellFormed(v: Version, v': Version, fs: Level, first: nat, end: nat)
    requires WellFormed(v) && Listed(v, first) && Replayed(v, v', fs) && NumberedIn(fs, first, end)
    requires Newer(LevelEntries(fs), Contents(v)) && Distinct(Contents(v) + LevelEntries(fs))
    ensures WellFormed(v') && Listed(v', end)
    ensures Contents(v') == Contents(v) + LevelEntries(fs)
    decreases |fs|
  {
    hide WellFormed, Listed, Replayed, NumberedIn, OlderFirst, AllIntact, RoomAt, Newer, Distinct, Contents, LevelEntries, Fresh, Gains;
    if fs == [] {
      NothingReplayed(v, v', first, end);
    } else {
      var k := |fs| - 1;
      AboutReplayed(v, v', fs);
      var u := BeforeLast(v, v', fs, first, end);
      LevelSnoc(fs);
      FewerEntries(v, fs);
      ReplayKeepsWellFormed(v, u, fs[..k], first, fs[k].number);
      LastIsFresh(v, u, fs);
      RoomAbove(u, fs[k]);
      FlushKeepsWellFormed(u, v', 0, fs[k]);
      GainKeepsListed(u, v', 0, fs[k], fs[k].number);
      ListedBelow(v', fs[k].number + 1, end);
    }
  }

  // ---- Their edit. ----

  function AtLevel0(fs: Level): VersionEdit {
    VersionEdit({}, seq(|fs|, i requires 0 <= i < |fs| => (0, fs[i])))
  }

  lemma AddsAtLevel0(fs: Level, l: nat)
    ensures AddedAt(AtLevel0(fs), l) == if l == 0 then Files(fs) else {}
    ensures DeletedAt(AtLevel0(fs), l) == {}
  {
    var e := AtLevel0(fs);
    forall f
      ensures f in AddedAt(e, l) <==> l == 0 && f in fs
    {
      if l == 0 && f in fs {
        var i :| 0 <= i < |fs| && fs[i] == f;
        assert e.added[i] in e.added && e.added[i] == (0, f);
      }
    }
  }

  lemma ReplayedIsInstalled(v: Version, v': Version, fs: Level, first: nat)
    requires Listed(v, first) && Replayed(v, v', fs)
    ensures Installed(v, AtLevel0(fs), v')
  {
    hide UniqueNumbers, OlderFirst, Intact;
    forall l: nat | l < NUM_LEVELS
      ensures InOrder(v'[l]) && Files(v'[l]) == LevelAfter(Files(v[l]), AtLevel0(fs), l)
    {
      AddsAtLevel0(fs, l);
      assert Files(v[l]) + {} == Files(v[l]);
    }
  }
}
