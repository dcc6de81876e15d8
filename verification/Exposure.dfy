// The hole in the input selection: the lower inputs of a compaction are not closed
// under shared user keys, so an obsolete deletion can uncover an older put.

module Exposure {
  import opened Keys
  import opened History
  import opened Versions
  import opened VersionEdits
  import opened Picking
  import opened Install
  import opened Swap
  import opened Flush
  import opened DropRules
  import opened CompactionWork
  import opened Store

  // No lower file left behind shares a user key with a lower input.
  ghost predicate LowerClosed(v: Version, c: Compaction)
    requires c.level + 1 < |v|
  {
    forall f, g | f in c.lower && g in v[c.level + 1] && g !in c.lower :: Detached(f, g)
  }

  // A caller can check this before compacting: with closed lower inputs no key is exposed.
  lemma LowerClosedExposesNothing(s: State, c: Compaction, input: seq<Entry>)
    requires WellFormed(s.version) && Sound(s.version, c)
    requires Elements(input) == InputEntries(c)
    requires LowerClosed(s.version, c)
    ensures Unexposed(s, c, input)
  {
    hide WellFormed, Sound, LowerClosed, InputEntries, Exposed, Around, Memory;
    SoundWithin(s.version, c);
    forall u: UserKey
      ensures !ExposesIn(s, c, input, u)
    {
      NothingExposed(s, c, input, u);
    }
  }

  lemma NothingExposed(s: State, c: Compaction, input: seq<Entry>, u: UserKey)
    requires WellFormed(s.version) && Sound(s.version, c) && c.level + 1 < |s.version|
    requires Elements(input) == InputEntries(c)
    requires LowerClosed(s.version, c)
    ensures !Exposed(Around(Memory(s), s.version, c), input, Smallest(s), BaseLevels(s.version, c.level), u)
  {
    hide WellFormed, Sound, LowerClosed, InputEntries, Memory, Contents, Above, Below, EntriesOf, BaseLevels;
    var around := Around(Memory(s), s.version, c);
    var t, x := Newest(around.All() + Elements(input), u, Smallest(s)), Newest(around.side, u, Smallest(s));
    if t.Some? && t.value in input && x.Some? {
      assert t.value in Elements(input);
      SideSharesNoKey(s.version, c, t.value, x.value);
    }
  }

  lemma SoundWithin(v: Version, c: Compaction)
    requires WellFormed(v) && Sound(v, c)
    ensures c.level + 1 < |v| && AllIntact(v[c.level]) && AllIntact(v[c.level + 1])
  {
  }

  lemma SideSharesNoKey(v: Version, c: Compaction, t: Entry, x: Entry)
    requires WellFormed(v) && Sound(v, c) && LowerClosed(v, c) && c.level + 1 < |v|
    requires t in InputEntries(c) && x in EntriesOf(Files(v[c.level + 1]) - Files(c.lower))
    ensures t.key.user != x.key.user
  {
    hide WellFormed, Sound, Intact, Detached, AllIntact;
    SoundWithin(v, c);
    var f :| f in Files(c.upper) + Files(c.lower) && t in f.run;
    var g :| g in Files(v[c.level + 1]) - Files(c.lower) && x in g.run;
    assert g in v[c.level + 1] && g !in c.lower;
    if f in c.upper {
      StayingLowerDetached(v, c, f, g);
    } else {
      assert f in c.lower;
    }
    InputsIntact(v, c);
    FileIntact(v[c.level + 1], g);
    DetachedShareNoKey(f, g, t, x);
  }

  lemma FileIntact(files: Level, g: File)
    requires AllIntact(files) && g in files
    ensures Intact(g)
  {
  }

  lemma DetachedShareNoKey(f: File, g: File, t: Entry, x: Entry)
    requires Intact(f) && Intact(g) && Detached(f, g) && t in f.run && x in g.run
    ensures t.key.user != x.key.user
  {
    RangeOrdered(f);
    RangeOrdered(g);
  }

  // What an exposed key reads as, before and after.
  lemma ExposedKeyComesBack(s: State, t: State, c: Compaction, input: seq<Entry>, outputs: Level,
                            u: UserKey, marker: Entry, hidden: Entry)
    requires Structure(s) && Faithful(s, u) && CompactStep(s, t, c, input, outputs)
    requires BaseLevel(s.version, c.level, u)
    requires marker in input && marker.key.kind == Deletion && IsNewest(marker, All(s), u, Smallest(s))
    requires hidden.key.kind == Put
    requires IsNewest(hidden, Around(Memory(s), s.version, c).side, u, Smallest(s))
    ensures ExposesIn(s, c, input, u) && !Faithful(t, u)
    ensures Read(s.history, u, Smallest(s)) == NotFound
    ensures Read(All(t), u, Smallest(s)) == Found(hidden.value)
  {
    var around, base, m := Around(Memory(s), s.version, c), BaseLevels(s.version, c.level), Smallest(s);
    CompactKeepsKeyIff(s, t, c, input, outputs, u);
    CompactKeepsStructure(s, t, c, input, outputs);
    SmallestIsOldestLive(s);
    DistinctSubset(All(s), s.history);
    CompactionPlaced(Memory(s), s.version, c, input);
    NewestIs(marker, All(s), u, m);
    DistinctSubset(around.side, All(s));
    NewestIs(hidden, around.side, u, m);
    assert Exposed(around, input, m, base, u);
    ExposedReadChanges(around, input, m, base, u);
    assert Read(All(s), u, m) == Read(s.history, u, m);
  }
}
