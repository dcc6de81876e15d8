// Filling in the two input sets of a compaction (db/version_set.cc).

module Picking {
  import opened Keys
  import opened History
  import opened Versions
  import opened Inputs

  datatype Compaction = Compaction(
    level: nat,
    upper: Level,         // inputs_[0], from level
    lower: Level,         // inputs_[1], from level + 1
    grandparents: Level,  // files of level + 2 around both
    smallest: InternalKey,
    largest: InternalKey)

  function UserRange(lo: InternalKey, hi: InternalKey): Range {
    Range(Some(lo.user), Some(hi.user))
  }

  // The inputs taken from the upper level: on level 0 everything around a range no
  // file sticks out of, on a sorted level consecutive files.  No file left behind
  // goes on with the user key they end in.
  ghost predicate UpperClosed(files: Level, level: nat, upper: Level) {
    && upper != []
    && (level == 0 ==> exists r :: Closed(files, r) && upper == Overlapping(files, r))
    && (level > 0 ==> IsSlice(upper, files))
    && NoBoundary(files, upper)
  }

  ghost predicate Sound(v: Version, c: Compaction) {
    && c.level + 1 < |v|
    && UpperClosed(v[c.level], c.level, c.upper)
    && IsSmallest(c.smallest, c.upper)
    && IsLargest(c.largest, c.upper)
    && c.lower == Overlapping(v[c.level + 1], UserRange(c.smallest, c.largest))
  }

  // VersionSet::GetRange.
  method GetRange(files: Level) returns (smallest: InternalKey, largest: InternalKey)
    requires files != []
    ensures IsSmallest(smallest, files) && IsLargest(largest, files)
  {
    smallest, largest := files[0].smallest, files[0].largest;
    for i := 1 to |files|
      invariant IsSmallest(smallest, files[..i]) && IsLargest(largest, files[..i])
    {
      assert files[..i + 1] == files[..i] + [files[i]];
      if Less(files[i].smallest, smallest) {
        smallest := files[i].smallest;
      }
      if Less(largest, files[i].largest) {
        largest := files[i].largest;
      }
    }
    assert files[..|files|] == files;
  }

  lemma ClosedHasNoBoundary(files: Level, r: Range)
    requires AllIntact(files) && Closed(files, r)
    ensures NoBoundary(files, Overlapping(files, r))
  {
    forall k, g | IsLargest(k, Overlapping(files, r)) && g in files
      ensures !Continues(g, k)
    {
      RangeOrdered(g);
    }
  }

  lemma SelectedIsClosed(files: Level, level: nat, start: Range, r: Range, selected: Level)
    requires AllIntact(files) && (level > 0 ==> Disjoint(files))
    requires selected == Overlapping(files, r)
    requires level > 0 ==> r == start
    requires level == 0 ==> LeastClosed(files, start, r)
    ensures level == 0 ==> NoBoundary(files, selected)
    ensures level > 0 ==> IsSlice(selected, files)
  {
    if level == 0 {
      ClosedHasNoBoundary(files, r);
    } else {
      var a, b := OverlappingIsSlice(files, r);
    }
  }

  // Everything of one level around a range, then the boundary files after it.
  method Select(files: Level, level: nat, start: Range) returns (selected: Level)
    requires AllIntact(files) && (level > 0 ==> Disjoint(files))
    ensures selected != [] ==> UpperClosed(files, level, selected)
    ensures forall f | f in files && Overlaps(f, start) :: f in selected
  {
    ghost var r;
    selected, r := GetOverlappingInputs(files, level, start);
    SelectedIsClosed(files, level, start, r, selected);
    selected := AddBoundaryInputs(files, selected);
  }

  const EXPANSION_FACTOR: nat := 25

  ghost predicate Starts(files: Level, level: nat, inputs: Level) {
    && inputs != []
    && (level == 0 ==> exists r :: Closed(files, r) && inputs == Overlapping(files, r))
    && (level > 0 ==> IsSlice(inputs, files))
  }

  lemma StartsWithoutBoundary(files: Level, inputs: Level)
    requires AllIntact(files) && Starts(files, 0, inputs)
    ensures NoBoundary(files, inputs)
  {
    var r :| Closed(files, r) && inputs == Overlapping(files, r);
    ClosedHasNoBoundary(files, r);
  }

  // The upper inputs with their boundary files, and the lower files around them.
  method CloseInputs(v: Version, level: nat, inputs: Level) returns (c: Compaction)
    requires |v| == NUM_LEVELS && level + 1 < NUM_LEVELS && AllIntact(v[level])
    requires level > 0 ==> Disjoint(v[level])
    requires Starts(v[level], level, inputs) && forall f | f in inputs :: f in v[level]
    ensures Sound(v, c) && c.level == level
    ensures inputs <= c.upper && forall f | f in c.upper :: f in v[level]
  {
    if level == 0 {
      StartsWithoutBoundary(v[0], inputs);
    }
    var upper := AddBoundaryInputs(v[level], inputs);
    var smallest, largest := GetRange(upper);
    var lower, _ := GetOverlappingInputs(v[level + 1], level + 1, UserRange(smallest, largest));
    c := Compaction(level, upper, lower, [], smallest, largest);
  }

  lemma InputsWithinRange(files: Level, f: File, smallest: InternalKey, largest: InternalKey)
    requires Intact(f) && f in files && IsSmallest(smallest, files) && IsLargest(largest, files)
    ensures Overlaps(f, UserRange(smallest, largest))
  {
    RangeOrdered(f);
  }

  // Take in more of the upper level where that does not change the lower inputs.
  method ExpandInputs(v: Version, c: Compaction, maxFileSize: nat) returns (r: Compaction)
    requires |v| == NUM_LEVELS && Sound(v, c) && AllIntact(v[c.level])
    requires c.level > 0 ==> Disjoint(v[c.level])
    requires forall f | f in c.upper :: f in v[c.level]
    ensures Sound(v, r) && r.level == c.level
    ensures forall f | f in c.upper :: f in r.upper
  {
    r := c;
    if c.lower != [] {
      var level := c.level;
      var allStart, allLimit := GetRange(c.upper + c.lower);
      var expanded := Select(v[level], level, UserRange(allStart, allLimit));
      if |expanded| > |c.upper| &&
         TotalFileSize(c.lower) + TotalFileSize(expanded) < EXPANSION_FACTOR * maxFileSize {
        var newStart, newLimit := GetRange(expanded);
        var lower, _ := GetOverlappingInputs(v[level + 1], level + 1, UserRange(newStart, newLimit));
        if |lower| == |c.lower| {
          forall f | f in c.upper
            ensures f in expanded
          {
            InputsWithinRange(c.upper + c.lower, f, allStart, allLimit);
          }
          r := Compaction(level, expanded, lower, [], newStart, newLimit);
        }
      }
    }
  }

  // The files two levels down around both input sets.
  method AddGrandparents(v: Version, c: Compaction) returns (r: Compaction)
    requires |v| == NUM_LEVELS && Sound(v, c)
    ensures Sound(v, r) && r == c.(grandparents := r.grandparents)
  {
    r := c;
    if c.level + 2 < NUM_LEVELS {
      var allStart, allLimit := GetRange(c.upper + c.lower);
      var overlaps, _ := GetOverlappingInputs(v[c.level + 2], c.level + 2, UserRange(allStart, allLimit));
      r := c.(grandparents := overlaps);
    }
  }

  // VersionSet::SetupOtherInputs.
  method SetupOtherInputs(v: Version, level: nat, inputs: Level, maxFileSize: nat) returns (c: Compaction)
    requires WellFormed(v) && level + 1 < NUM_LEVELS
    requires Starts(v[level], level, inputs) && forall f | f in inputs :: f in v[level]
    ensures Sound(v, c) && c.level == level
    ensures forall f | f in inputs :: f in c.upper
  {
    var closed := CloseInputs(v, level, inputs);
    var expanded := ExpandInputs(v, closed, maxFileSize);
    c := AddGrandparents(v, expanded);
  }

  // Why a level is compacted: it holds too much, and goes on where its last compaction ended; or
  // one of its files was looked at in vain too often.
  datatype Trigger = TooMuch(pointer: Option<InternalKey>) | TooManySeeks(index: nat)

  ghost predicate PastPointer(f: File, pointer: Option<InternalKey>) {
    pointer.None? || Less(pointer.value, f.largest)
  }

  // Round and round the level: the first file past the pointer, or the very first.
  ghost predicate ComesNext(files: Level, pointer: Option<InternalKey>, index: nat) {
    && index < |files| && (forall i | 0 <= i < index :: !PastPointer(files[i], pointer))
    && (PastPointer(files[index], pointer) || (index == 0 && forall f | f in files :: !PastPointer(f, pointer)))
  }

  method FileAfterPointer(files: Level, pointer: Option<InternalKey>) returns (index: nat)
    requires files != []
    ensures ComesNext(files, pointer, index)
  {
    for i := 0 to |files|
      invariant forall j | 0 <= j < i :: !PastPointer(files[j], pointer)
    {
      if pointer.None? || Less(pointer.value, files[i].largest) {
        return i;
      }
    }
    return 0;
  }

  // VersionSet::PickCompaction.
  method PickCompaction(v: Version, level: nat, trigger: Trigger, maxFileSize: nat)
    returns (c: Compaction, ghost index: nat)
    requires WellFormed(v) && level + 1 < NUM_LEVELS && v[level] != []
    requires trigger.TooManySeeks? ==> trigger.index < |v[level]|
    ensures Sound(v, c) && c.level == level
    ensures if trigger.TooMuch? then ComesNext(v[level], trigger.pointer, index) else index == trigger.index
    ensures v[level][index] in c.upper
  {
    var at;
    if trigger.TooMuch? {
      at := FileAfterPointer(v[level], trigger.pointer);
    } else {
      at := trigger.index;
    }
    c := CompactFrom(v, level, at, maxFileSize);
    index := at;
  }

  // One file, and on level 0 whatever overlaps it.
  method CompactFrom(v: Version, level: nat, index: nat, maxFileSize: nat) returns (c: Compaction)
    requires WellFormed(v) && level + 1 < NUM_LEVELS && index < |v[level]|
    ensures Sound(v, c) && c.level == level
    ensures v[level][index] in c.upper
  {
    var inputs := [v[level][index]];
    if level == 0 {
      var smallest, largest := GetRange(inputs);
      ghost var r;
      inputs, r := GetOverlappingInputs(v[0], 0, UserRange(smallest, largest));
      RangeOrdered(v[0][index]);
      assert Overlaps(v[0][index], r);
    } else {
      assert inputs == v[level][index..index + 1];
    }
    c := SetupOtherInputs(v, level, inputs, maxFileSize);
  }

  // A manual compaction takes a first part of its files if they are too big together.
  method CutShort(files: Level, inputs: Level, limit: nat) returns (r: Level)
    requires IsSlice(inputs, files) && inputs != []
    ensures IsSlice(r, files) && r != [] && r <= inputs
  {
    ghost var a, b :| 0 <= a <= b <= |files| && inputs == files[a..b];
    var total := 0;
    for i := 0 to |inputs| {
      total := total + inputs[i].size;
      if total >= limit {
        assert inputs[..i + 1] == files[a..a + i + 1];
        return inputs[..i + 1];
      }
    }
    return inputs;
  }

  // VersionSet::CompactRange: a manual compaction of part of a level.
  method CompactRange(v: Version, level: nat, range: Range, maxFileSize: nat) returns (c: Option<Compaction>)
    requires WellFormed(v) && level + 1 < NUM_LEVELS
    ensures c.None? <==> forall f | f in v[level] :: !Overlaps(f, range)
    ensures c.Some? ==> Sound(v, c.value) && c.value.level == level
  {
    var inputs, r := GetOverlappingInputs(v[level], level, range);
    if inputs == [] {
      forall f | f in v[level]
        ensures !Overlaps(f, range)
      {
        assert f !in inputs;
      }
      return None;
    }
    assert inputs[0] in inputs;
    if level == 0 {
      LeastClosedTouches(v[0], range, r);
    } else {
      SelectedIsClosed(v[level], level, range, r, inputs);
      inputs := CutShort(v[level], inputs, maxFileSize);
    }
    var picked := SetupOtherInputs(v, level, inputs, maxFileSize);
    c := Some(picked);
  }

  // A range that grew to take in every file it touches touched one to begin with.
  lemma LeastClosedTouches(files: Level, start: Range, r: Range)
    requires LeastClosed(files, start, r)
    requires exists f :: f in files && Overlaps(f, r)
    ensures exists f :: f in files && Overlaps(f, start)
  {
    if forall f | f in files :: !Overlaps(f, start) {
      assert Closed(files, start) && Covers(start, start);
      assert false;
    }
  }
}
