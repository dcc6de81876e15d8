// Adding the table of a flushed memtable to a version, and seeing a version from
// the point of view of a compaction.

module Flush {
  import opened Keys
  import opened History
  import opened Versions
  import opened VersionEdits
  import opened Picking
  import opened Install
  import opened Swap
  import opened DropRules
  import opened CompactionWork

  // The version gains one table at a level.
  ghost predicate Gains(v: Version, v': Version, level: nat, f: File) {
    && |v| == |v'| == NUM_LEVELS && level < NUM_LEVELS
    && (forall l | 0 <= l < NUM_LEVELS :: InOrder(v'[l]))
    && Files(v'[level]) == Files(v[level]) + {f}
    && (forall l | 0 <= l < NUM_LEVELS && l != level :: v'[l] == v[l])
  }

  lemma InstalledIsGained(v: Version, v': Version, level: nat, f: File)
    requires |v| == NUM_LEVELS && level < NUM_LEVELS
    requires forall l | 0 <= l < NUM_LEVELS :: InOrder(v[l])
    requires Installed(v, VersionEdit({}, [(level, f)]), v')
    ensures Gains(v, v', level, f)
  {
    var e := VersionEdit({}, [(level, f)]);
    forall l: nat | l < NUM_LEVELS
      ensures Files(v'[l]) == Files(v[l]) + (if l == level then {f} else {})
    {
      assert e.added[0] in e.added;
      assert AddedAt(e, l) == if l == level then {f} else {};
      assert DeletedAt(e, l) == {};
    }
    forall l: nat | l < NUM_LEVELS && l != level
      ensures v'[l] == v[l]
    {
      InOrderUnique(v'[l], v[l]);
    }
  }

  lemma GainedIsInstalled(v: Version, v': Version, level: nat, f: File)
    requires Gains(v, v', level, f)
    ensures Installed(v, VersionEdit({}, [(level, f)]), v')
  {
    hide InOrder;
    var e := VersionEdit({}, [(level, f)]);
    forall l: nat | l < NUM_LEVELS
      ensures AddedAt(e, l) == (if l == level then {f} else {}) && DeletedAt(e, l) == {}
    {
      assert e.added[0] in e.added;
    }
  }

  // Where a flushed table may go: on level 0, or below files it shares no user key with.
  ghost predicate RoomAt(v: Version, level: nat, f: File) {
    level > 0 ==> forall l, g | 0 <= l <= level && l < |v| && g in v[l] :: Detached(f, g)
  }

  // The entries of a flushed memtable are newer than everything in the version.
  ghost predicate Fresh(v: Version, f: File) {
    && Intact(f)
    && Newer(Elements(f.run), Contents(v))
    && Distinct(Contents(v) + Elements(f.run))
    && (forall l, g | 0 <= l < |v| && g in v[l] :: g.number < f.number)
  }

  lemma GainsEntries(v: Version, v': Version, level: nat, f: File)
    requires Gains(v, v', level, f)
    ensures LevelEntries(v'[level]) == LevelEntries(v[level]) + Elements(f.run)
    ensures Contents(v') == Contents(v) + Elements(f.run)
  {
    assert f in Files(v'[level]);
    forall e
      ensures e in LevelEntries(v'[level]) <==> e in LevelEntries(v[level]) + Elements(f.run)
    {
      assert forall g :: g in v'[level] <==> g in Files(v'[level]);
      assert forall g :: g in v[level] <==> g in Files(v[level]);
    }
    forall e
      ensures e in Contents(v') <==> e in Contents(v) + Elements(f.run)
    {
      if e in Contents(v') {
        var l :| 0 <= l < |v'| && e in LevelEntries(v'[l]);
        assert l != level ==> e in LevelEntries(v[l]);
      }
      if e in Contents(v) {
        var l :| 0 <= l < |v| && e in LevelEntries(v[l]);
        assert e in LevelEntries(v'[l]);
      }
      if e in Elements(f.run) {
        assert e in LevelEntries(v'[level]);
      }
    }
  }

  lemma GainKeepsLevel(v: Version, v': Version, level: nat, f: File)
    requires WellFormed(v) && Gains(v, v', level, f) && Fresh(v, f) && RoomAt(v, level, f)
    ensures AllIntact(v'[level]) && (if level == 0 then AgedByNumber(v'[0]) else Disjoint(v'[level]))
  {
    forall g | g in v'[level]
      ensures Intact(g)
    {
      assert g in Files(v'[level]);
    }
    if level > 0 {
      ApartFromDisjoint(v[level]);
      forall g | g in v[level]
        ensures Apart(f, g)
      {
        DetachedIsNewer(f, g);
      }
      DisjointFromApart(v'[level]);
    } else {
      GainKeepsAges(v[0], v'[0], f, Contents(v)) by {
        LevelWithin(v, 0);
      }
    }
  }

  lemma GainKeepsAges(fs: Level, gs: Level, f: File, all: set<Entry>)
    requires AgedByNumber(fs) && InOrder(gs) && Files(gs) == Files(fs) + {f}
    requires LevelEntries(fs) <= all && Newer(Elements(f.run), all)
    requires forall g | g in fs :: g.number < f.number
    ensures AgedByNumber(gs)
  {
    forall i, j | 0 <= i < j < |gs|
      ensures gs[i].number != gs[j].number
    {
      assert gs[i] in Files(gs) && gs[j] in Files(gs);
      if gs[i] in fs && gs[j] in fs {
        var a :| 0 <= a < |fs| && fs[a] == gs[i];
        var b :| 0 <= b < |fs| && fs[b] == gs[j];
      }
    }
    forall x, y | x in gs && y in gs && x.number > y.number
      ensures Newer(Elements(x.run), Elements(y.run))
    {
      assert x in Files(gs) && y in Files(gs);
      if x == f {
        InLevel(fs, y);
      }
    }
  }

  lemma ShallowerDetached(v: Version, level: nat, f: File, i: nat)
    requires |v| == NUM_LEVELS && i < level < NUM_LEVELS
    requires AllIntact(v[i]) && Intact(f) && RoomAt(v, level, f)
    ensures Newer(LevelEntries(v[i]), Elements(f.run))
  {
    forall x, y | x in LevelEntries(v[i]) && y in Elements(f.run)
      ensures x.key.user != y.key.user
    {
      var g :| g in v[i] && x in g.run;
      assert Detached(f, g);
      RangeOrdered(f);
      RangeOrdered(g);
    }
  }

  lemma NewerSubset(A: set<Entry>, B: set<Entry>, C: set<Entry>)
    requires Newer(A, B) && C <= B
    ensures Newer(A, C)
  {
  }

  lemma GainedNewer(v: Version, v': Version, level: nat, f: File, i: nat, j: nat)
    requires |v| == NUM_LEVELS && LevelsNewer(v) && Gains(v, v', level, f)
    requires Newer(Elements(f.run), Contents(v)) && Intact(f) && RoomAt(v, level, f)
    requires forall l | 0 <= l < NUM_LEVELS :: AllIntact(v[l])
    requires i < j < NUM_LEVELS
    ensures Newer(LevelEntries(v'[i]), LevelEntries(v'[j]))
  {
    hide Newer, LevelEntries, Contents, Intact, AllIntact, RoomAt, InOrder;
    GainsEntries(v, v', level, f);
    if j == level {
      ShallowerDetached(v, level, f, i);
      NewerParts(LevelEntries(v[i]), LevelEntries(v[j]), Elements(f.run), LevelEntries(v'[i]), LevelEntries(v'[j]));
    } else if i == level {
      LevelWithin(v, j);
      NewerSubset(Elements(f.run), Contents(v), LevelEntries(v[j]));
      PartsNewer(LevelEntries(v[i]), Elements(f.run), LevelEntries(v[j]), LevelEntries(v'[i]), LevelEntries(v'[j]));
    }
  }

  lemma GainKeepsNewer(v: Version, v': Version, level: nat, f: File)
    requires |v| == NUM_LEVELS && LevelsNewer(v) && Gains(v, v', level, f)
    requires Newer(Elements(f.run), Contents(v)) && Intact(f) && RoomAt(v, level, f)
    requires forall l | 0 <= l < NUM_LEVELS :: AllIntact(v[l])
    ensures LevelsNewer(v')
  {
    hide Newer, LevelEntries, Contents, Intact, RoomAt, InOrder, Elements;
    forall i: nat, j: nat | i < j < NUM_LEVELS
      ensures Newer(LevelEntries(v'[i]), LevelEntries(v'[j]))
    {
      GainedNewer(v, v', level, f, i, j);
    }
  }

  lemma GainsSize(v: Version, v': Version, level: nat, f: File)
    requires Gains(v, v', level, f)
    ensures |v| == |v'| == NUM_LEVELS && level < NUM_LEVELS
    ensures forall l | 0 <= l < NUM_LEVELS && l != level :: v'[l] == v[l]
  {
  }

  // Flushing a memtable keeps the structure of the levels.
  lemma FlushKeepsWellFormed(v: Version, v': Version, level: nat, f: File)
    requires WellFormed(v) && Gains(v, v', level, f) && Fresh(v, f) && RoomAt(v, level, f)
    ensures WellFormed(v')
    ensures Contents(v') == Contents(v) + Elements(f.run)
  {
    hide Gains, Intact, Disjoint, AgedByNumber, Newer, Distinct, Contents, LevelEntries, RoomAt;
    GainsSize(v, v', level, f);
    GainsEntries(v, v', level, f);
    GainKeepsLevel(v, v', level, f);
    assert LevelsNewer(v);
    GainKeepsNewer(v, v', level, f);
  }

  lemma GainedFrom(v: Version, v': Version, level: nat, f: File, l: nat, g: File)
    requires Gains(v, v', level, f) && l < NUM_LEVELS && g in v'[l]
    ensures g in v[l] || (l == level && g == f)
  {
    assert g in Files(v'[l]);
  }

  lemma GainedUnique(v: Version, v': Version, level: nat, f: File, n: nat, l: nat)
    requires Listed(v, n) && Gains(v, v', level, f) && f.number == n && l < NUM_LEVELS
    ensures InOrder(v'[l]) && UniqueNumbers(Files(v'[l])) && |v'| == NUM_LEVELS
  {
    hide InOrder;
    assert forall g | g in Files(v[l]) :: g in v[l] && g.number < n;
  }

  lemma GainedApart(v: Version, v': Version, level: nat, f: File, n: nat, l: nat, k: nat, g: File, h: File)
    requires Listed(v, n) && Gains(v, v', level, f) && f.number == n
    requires l < k < NUM_LEVELS && g in v'[l] && h in v'[k]
    ensures g.number != h.number
  {
    hide InOrder, UniqueNumbers;
    GainedFrom(v, v', level, f, l, g);
    GainedFrom(v, v', level, f, k, h);
  }

  lemma GainKeepsListed(v: Version, v': Version, level: nat, f: File, n: nat)
    requires Listed(v, n) && Gains(v, v', level, f) && f.number == n
    ensures Listed(v', n + 1)
  {
    hide Gains, InOrder, UniqueNumbers;
    GainedUnique(v, v', level, f, n, 0);
    forall l: nat | l < NUM_LEVELS
      ensures InOrder(v'[l]) && UniqueNumbers(Files(v'[l]))
    {
      GainedUnique(v, v', level, f, n, l);
    }
    forall l: nat, g | l < NUM_LEVELS && g in v'[l]
      ensures g.number < n + 1
    {
      GainedFrom(v, v', level, f, l, g);
      assert g in v[l] ==> g.number < n;
    }
    forall l: nat, k: nat, g, h | l < k < NUM_LEVELS && g in v'[l] && h in v'[k]
      ensures g.number != h.number
    {
      GainedApart(v, v', level, f, n, l, k, g, h);
    }
  }

  // ---- A version seen from a compaction. ----

  ghost function Above(v: Version, level: nat): set<Entry> {
    set l, e | 0 <= l < level && l < |v| && e in LevelEntries(v[l]) :: e
  }

  ghost function Below(v: Version, level: nat): set<Entry> {
    set l, e | level <= l < |v| && e in LevelEntries(v[l]) :: e
  }

  ghost function Around(memory: set<Entry>, v: Version, c: Compaction): Surroundings
    requires c.level + 1 < |v|
  {
    Surroundings(memory + Above(v, c.level) + EntriesOf(Files(v[c.level]) - Files(c.upper)),
                 EntriesOf(Files(v[c.level + 1]) - Files(c.lower)),
                 Below(v, c.level + 2))
  }

  lemma SplitContents(v: Version, level: nat)
    requires level + 1 < |v|
    ensures Contents(v) == Above(v, level) + LevelEntries(v[level]) + LevelEntries(v[level + 1]) + Below(v, level + 2)
  {
    forall e | e in Contents(v)
      ensures e in Above(v, level) + LevelEntries(v[level]) + LevelEntries(v[level + 1]) + Below(v, level + 2)
    {
      var l :| 0 <= l < |v| && e in LevelEntries(v[l]);
      if l < level {
        assert e in Above(v, level);
      } else if l > level + 1 {
        assert e in Below(v, level + 2);
      }
    }
    LevelWithin(v, level);
    LevelWithin(v, level + 1);
  }

  // The entries of two levels, told apart by whether their files are inputs.
  lemma Regroup(m: set<Entry>, above: set<Entry>, first: set<Entry>, second: set<Entry>, below: set<Entry>,
                stay: set<Entry>, upper: set<Entry>, side: set<Entry>, lower: set<Entry>)
    requires first == stay + upper && second == side + lower
    ensures m + (above + first + second + below) == ((m + above + stay) + side + below) + (upper + lower)
  {
  }

  lemma SplitFiles(all: set<File>, part: set<File>)
    requires part <= all
    ensures EntriesOf(all) == EntriesOf(all - part) + EntriesOf(part)
  {
    EntriesOfUnion(all - part, part);
    assert all == all - part + part;
  }

  lemma SplitInputs(v: Version, c: Compaction)
    requires c.level + 1 < |v|
    requires Files(c.upper) <= Files(v[c.level]) && Files(c.lower) <= Files(v[c.level + 1])
    ensures LevelEntries(v[c.level]) ==
            EntriesOf(Files(v[c.level]) - Files(c.upper)) + EntriesOf(Files(c.upper))
    ensures LevelEntries(v[c.level + 1]) ==
            EntriesOf(Files(v[c.level + 1]) - Files(c.lower)) + EntriesOf(Files(c.lower))
    ensures InputEntries(c) == EntriesOf(Files(c.upper)) + EntriesOf(Files(c.lower))
  {
    LevelEntriesOf(v[c.level]);
    LevelEntriesOf(v[c.level + 1]);
    SplitFiles(Files(v[c.level]), Files(c.upper));
    SplitFiles(Files(v[c.level + 1]), Files(c.lower));
    EntriesOfUnion(Files(c.upper), Files(c.lower));
  }

  lemma AroundBefore(memory: set<Entry>, v: Version, c: Compaction)
    requires c.level + 1 < |v|
    requires Files(c.upper) <= Files(v[c.level]) && Files(c.lower) <= Files(v[c.level + 1])
    ensures memory + Contents(v) == Around(memory, v, c).All() + InputEntries(c)
  {
    var L := c.level;
    SplitContents(v, L);
    SplitInputs(v, c);
    RegroupAround(memory, v, c, Contents(v), LevelEntries(v[L]), LevelEntries(v[L + 1]),
                  EntriesOf(Files(c.upper)), EntriesOf(Files(c.lower)), InputEntries(c));
  }

  lemma RegroupAround(memory: set<Entry>, v: Version, c: Compaction, all: set<Entry>,
                      first: set<Entry>, second: set<Entry>, upper: set<Entry>, lower: set<Entry>, both: set<Entry>)
    requires c.level + 1 < |v|
    requires all == Above(v, c.level) + first + second + Below(v, c.level + 2)
    requires first == EntriesOf(Files(v[c.level]) - Files(c.upper)) + upper
    requires second == EntriesOf(Files(v[c.level + 1]) - Files(c.lower)) + lower
    requires both == upper + lower
    ensures memory + all == Around(memory, v, c).All() + both
  {
    var L := c.level;
    Regroup(memory, Above(v, L), first, second, Below(v, L + 2),
            EntriesOf(Files(v[L]) - Files(c.upper)), upper,
            EntriesOf(Files(v[L + 1]) - Files(c.lower)), lower);
  }

  lemma SwappedSplit(v: Version, v': Version, c: Compaction, come: Level)
    requires Swapped(v, v', c, come)
    ensures LevelEntries(v'[c.level]) == EntriesOf(Files(v[c.level]) - Files(c.upper))
    ensures LevelEntries(v'[c.level + 1]) ==
            EntriesOf(Files(v[c.level + 1]) - Files(c.lower)) + LevelEntries(come)
  {
    LevelEntriesOf(v'[c.level]);
    LevelEntriesOf(v'[c.level + 1]);
    LevelEntriesOf(come);
    EntriesOfUnion(Files(v[c.level + 1]) - Files(c.lower), Files(come));
  }

  lemma AroundAfter(memory: set<Entry>, v: Version, v': Version, c: Compaction, come: Level)
    requires Swapped(v, v', c, come)
    ensures memory + Contents(v') == Around(memory, v, c).All() + LevelEntries(come)
  {
    var L := c.level;
    SplitContents(v', L);
    SwappedSplit(v, v', c, come);
    SameOutside(v, v', L);
    RegroupAround(memory, v, c, Contents(v'), LevelEntries(v'[L]), LevelEntries(v'[L + 1]),
                  {}, LevelEntries(come), LevelEntries(come));
  }

  lemma SameOutside(v: Version, v': Version, level: nat)
    requires |v| == |v'| && forall l | 0 <= l < |v| && l != level && l != level + 1 :: v'[l] == v[l]
    ensures Above(v', level) == Above(v, level) && Below(v', level + 2) == Below(v, level + 2)
  {
  }

  lemma AboveNewer(v: Version, level: nat)
    requires |v| == NUM_LEVELS && level + 1 < NUM_LEVELS && LevelsNewer(v)
    ensures Newer(Above(v, level), LevelEntries(v[level]) + LevelEntries(v[level + 1]))
  {
  }

  lemma StayingUpperAboveInputs(v: Version, c: Compaction)
    requires WellFormed(v) && Sound(v, c)
    ensures Newer(EntriesOf(Files(v[c.level]) - Files(c.upper)), InputEntries(c))
  {
    var L := c.level;
    LevelWithin(v, L);
    DistinctSubset(LevelEntries(v[L]), Contents(v));
    UpperWithin(v, c);
    UpperStayNewer(v[L], L, c.upper);
    assert Files(c.upper) * Files(v[L]) == Files(c.upper);
    var stay := EntriesOf(Files(v[L]) - Files(c.upper));
    LevelEntriesOf(v[L]);
    LevelEntriesOf(v[L + 1]);
    EntriesOfSubset(Files(v[L]) - Files(c.upper), Files(v[L]));
    EntriesOfSubset(Files(c.lower), Files(v[L + 1]));
    NewerParts(LevelEntries(v[L]), LevelEntries(v[L + 1]), {}, stay, EntriesOf(Files(c.lower)));
    EntriesOfUnion(Files(c.upper), Files(c.lower));
    NewerParts(stay, EntriesOf(Files(c.upper)), EntriesOf(Files(c.lower)), stay, InputEntries(c));
  }

  lemma DeepNotBase(v: Version, level: nat, e: Entry)
    requires |v| == NUM_LEVELS && forall l | 0 <= l < NUM_LEVELS :: AllIntact(v[l])
    requires e in Below(v, level + 2)
    ensures !BaseLevel(v, level, e.key.user)
  {
    var l :| level + 2 <= l < |v| && e in LevelEntries(v[l]);
    var f :| f in v[l] && e in f.run;
    RangeOrdered(f);
  }

  // The inputs of a compaction sit in the version as the drop rules assume.
  lemma CompactionPlaced(memory: set<Entry>, v: Version, c: Compaction, input: seq<Entry>)
    requires WellFormed(v) && Sound(v, c)
    requires Newer(memory, Contents(v)) && Distinct(memory + Contents(v))
    requires Sorted(input) && Elements(input) == InputEntries(c)
    ensures Placed(Around(memory, v, c), input, BaseLevels(v, c.level))
  {
    var L := c.level;
    UpperWithin(v, c);
    AroundBefore(memory, v, c);
    forall e | e in Below(v, L + 2)
      ensures !BaseLevels(v, L)(e.key.user)
    {
      DeepNotBase(v, L, e);
    }
    assert LevelsNewer(v);
    AboveNewer(v, L);
    StayingUpperAboveInputs(v, c);
    SwappedInputsWithin(v, c);
    LevelWithin(v, L);
    LevelWithin(v, L + 1);
    var B := InputEntries(c);
    var stay := EntriesOf(Files(v[L]) - Files(c.upper));
    NewerParts(memory, Contents(v), {}, memory, B);
    NewerParts(Above(v, L), LevelEntries(v[L]) + LevelEntries(v[L + 1]), {}, Above(v, L), B);
    PartsNewer(memory, Above(v, L), B, memory + Above(v, L), B);
    PartsNewer(memory + Above(v, L), stay, B, memory + Above(v, L) + stay, B);
  }

  lemma SwappedInputsWithin(v: Version, c: Compaction)
    requires Sound(v, c)
    ensures InputEntries(c) <= LevelEntries(v[c.level]) + LevelEntries(v[c.level + 1])
  {
    UpperWithin(v, c);
    LevelEntriesOf(v[c.level]);
    LevelEntriesOf(v[c.level + 1]);
    EntriesOfSubset(Files(c.upper), Files(v[c.level]));
    EntriesOfSubset(Files(c.lower), Files(v[c.level + 1]));
    EntriesOfUnion(Files(c.upper), Files(c.lower));
  }
}
