// Choosing which files take part in a compaction, and where a flushed memtable
// goes (db/version_set.cc).

module Inputs {
  import opened Keys
  import opened History
  import opened Versions

  // A range of user keys; None stands for a null bound, open on that side.
  datatype Range = Range(lo: Option<UserKey>, hi: Option<UserKey>)

  predicate AfterFile(lo: Option<UserKey>, f: File) {
    lo.Some? && lo.value > f.largest.user
  }

  predicate BeforeFile(hi: Option<UserKey>, f: File) {
    hi.Some? && hi.value < f.smallest.user
  }

  predicate Overlaps(f: File, r: Range) {
    !AfterFile(r.lo, f) && !BeforeFile(r.hi, f)
  }

  predicate Within(f: File, r: Range) {
    (r.lo.Some? ==> r.lo.value <= f.smallest.user) && (r.hi.Some? ==> f.largest.user <= r.hi.value)
  }

  predicate Covers(big: Range, small: Range) {
    && (big.lo.Some? ==> small.lo.Some? && big.lo.value <= small.lo.value)
    && (big.hi.Some? ==> small.hi.Some? && small.hi.value <= big.hi.value)
  }

  // No file sticks out of the range.
  ghost predicate Closed(files: Level, r: Range) {
    forall f | f in files && Overlaps(f, r) :: Within(f, r)
  }

  ghost predicate LeastClosed(files: Level, start: Range, r: Range) {
    && Covers(r, start)
    && Closed(files, r)
    && (forall q | Covers(q, start) && Closed(files, q) :: Covers(q, r))
  }

  function Overlapping(files: Level, r: Range): (s: Level)
    ensures forall f :: f in s <==> f in files && Overlaps(f, r)
  {
    if files == [] then []
    else
      var n := |files| - 1;
      Overlapping(files[..n], r) + (if Overlaps(files[n], r) then [files[n]] else [])
  }

  // How many files stick out of the range: what the level-0 restarts use up.
  ghost function Outside(files: Level, r: Range): nat {
    if files == [] then 0
    else
      (if r.lo.Some? && files[0].smallest.user < r.lo.value then 1 else 0) +
      (if r.hi.Some? && files[0].largest.user > r.hi.value then 1 else 0) +
      Outside(files[1..], r)
  }

  lemma {:induction false} WideningShrinksOutside(files: Level, f: File, r: Range, q: Range)
    requires f in files && Covers(q, r)
    requires q.lo.Some? == r.lo.Some? && q.hi.Some? == r.hi.Some?
    requires (r.lo.Some? && f.smallest.user < r.lo.value && q.lo.value <= f.smallest.user) ||
             (r.hi.Some? && f.largest.user > r.hi.value && q.hi.value >= f.largest.user)
    ensures Outside(files, q) < Outside(files, r)
  {
    if f != files[0] {
      WideningShrinksOutside(files[1..], f, r, q);
    } else {
      WideningNeverGrowsOutside(files[1..], r, q);
    }
  }

  lemma {:induction false} WideningNeverGrowsOutside(files: Level, r: Range, q: Range)
    requires Covers(q, r)
    requires q.lo.Some? == r.lo.Some? && q.hi.Some? == r.hi.Some?
    ensures Outside(files, q) <= Outside(files, r)
  {
    if files != [] {
      WideningNeverGrowsOutside(files[1..], r, q);
    }
  }

  // How far the scan has come: the first i files met the range so far, which every closed
  // range around the start has to cover.
  ghost predicate Scanned(files: Level, level: nat, start: Range, r: Range, inputs: Level, i: nat) {
    && i <= |files| && r.lo.Some? == start.lo.Some? && r.hi.Some? == start.hi.Some?
    && Covers(r, start) && (level > 0 ==> r == start)
    && inputs == Overlapping(files[..i], r)
    && (level == 0 ==> Closed(files[..i], r) && NoneSmaller(files, start, r))
  }

  ghost predicate NoneSmaller(files: Level, start: Range, r: Range) {
    forall q | Covers(q, start) && Closed(files, q) :: Covers(q, r)
  }

  lemma ScanStarts(files: Level, level: nat, start: Range)
    ensures Scanned(files, level, start, Range(start.lo, start.hi), [], 0)
  {
    assert files[..0] == [];
  }

  lemma ScanSkips(files: Level, level: nat, start: Range, r: Range, inputs: Level, i: nat)
    requires Scanned(files, level, start, r, inputs, i) && i < |files| && !Overlaps(files[i], r)
    ensures Scanned(files, level, start, r, inputs, i + 1)
  {
    hide NoneSmaller, Covers;
    assert files[..i + 1][..i] == files[..i];
  }

  lemma ScanTakes(files: Level, level: nat, start: Range, r: Range, inputs: Level, i: nat)
    requires Scanned(files, level, start, r, inputs, i) && i < |files| && Overlaps(files[i], r)
    requires level == 0 ==> Within(files[i], r)
    ensures Scanned(files, level, start, r, inputs + [files[i]], i + 1)
  {
    hide NoneSmaller, Covers;
    assert files[..i + 1][..i] == files[..i];
  }

  // A range widened to take in a file it meets is still no wider than it must be.
  lemma ScanWidens(files: Level, start: Range, r: Range, inputs: Level, i: nat, q: Range)
    requires Scanned(files, 0, start, r, inputs, i) && i < |files| && Overlaps(files[i], r)
    requires (r.lo.Some? && files[i].smallest.user < r.lo.value && q == Range(Some(files[i].smallest.user), r.hi)) ||
             (r.hi.Some? && files[i].largest.user > r.hi.value && q == Range(r.lo, Some(files[i].largest.user)))
    ensures Scanned(files, 0, start, q, [], 0) && Outside(files, q) < Outside(files, r)
  {
    hide Outside, Overlapping;
    var f := files[i];
    assert f in files;
    WideningShrinksOutside(files, f, r, q);
    forall p | Covers(p, start) && Closed(files, p)
      ensures Covers(p, q)
    {
      assert Covers(p, r) && Overlaps(f, p) && Within(f, p);
    }
    NothingOverlaps(files, q);
  }

  lemma NothingOverlaps(files: Level, r: Range)
    ensures Overlapping(files[..0], r) == []
  {
  }

  // Version::GetOverlappingInputs.  On level 0 the range grows to take in every
  // file it touches, restarting the scan each time.
  method GetOverlappingInputs(files: Level, level: nat, start: Range) returns (inputs: Level, ghost r: Range)
    ensures inputs == Overlapping(files, r)
    ensures level > 0 ==> r == start
    ensures level == 0 ==> LeastClosed(files, start, r)
  {
    hide Scanned, Outside, Overlapping, Covers, Closed;
    var lo, hi := start.lo, start.hi;
    inputs := [];
    var i := 0;
    ScanStarts(files, level, start);
    while i < |files|
      invariant 0 <= i <= |files|
      invariant Scanned(files, level, start, Range(lo, hi), inputs, i)
      decreases Outside(files, Range(lo, hi)), |files| - i
    {
      ghost var before := Range(lo, hi);
      var f := files[i];
      i := i + 1;
      if lo.Some? && f.largest.user < lo.value {
        ScanSkips(files, level, start, before, inputs, i - 1);
      } else if hi.Some? && f.smallest.user > hi.value {
        ScanSkips(files, level, start, before, inputs, i - 1);
      } else {
        ghost var had := inputs;
        inputs := inputs + [f];
        if level == 0 {
          if lo.Some? && f.smallest.user < lo.value {
            ScanWidens(files, start, before, had, i - 1, Range(Some(f.smallest.user), hi));
            lo := Some(f.smallest.user);
            inputs, i := [], 0;
          } else if hi.Some? && f.largest.user > hi.value {
            ScanWidens(files, start, before, had, i - 1, Range(lo, Some(f.largest.user)));
            hi := Some(f.largest.user);
            inputs, i := [], 0;
          } else {
            ScanTakes(files, level, start, before, had, i - 1);
          }
        } else {
          ScanTakes(files, level, start, before, had, i - 1);
        }
      }
    }
    r := Range(lo, hi);
    ScanEnds(files, level, start, r, inputs);
  }

  lemma ScanEnds(files: Level, level: nat, start: Range, r: Range, inputs: Level)
    requires Scanned(files, level, start, r, inputs, |files|)
    ensures inputs == Overlapping(files, r) && (level > 0 ==> r == start) && (level == 0 ==> LeastClosed(files, start, r))
  {
    assert files[..|files|] == files;
  }

  // SomeFileOverlapsRange with disjoint_sorted_files == false: check every file.
  // On sorted files a binary search gives the same answer.
  method SomeFileOverlapsRange(disjointSorted: bool, files: Level, r: Range) returns (b: bool)
    requires AllIntact(files)
    requires disjointSorted ==> Disjoint(files)
    ensures b <==> exists f :: f in files && Overlaps(f, r)
  {
    if !disjointSorted {
      for i := 0 to |files|
        invariant forall j | 0 <= j < i :: !Overlaps(files[j], r)
      {
        if AfterFile(r.lo, files[i]) || BeforeFile(r.hi, files[i]) {
        } else {
          assert Overlaps(files[i], r);
          return true;
        }
      }
      return false;
    }
    var index := 0;
    if r.lo.Some? {
      index := FindFile(files, InternalKey(r.lo.value, MAX_SEQUENCE, TYPE_FOR_SEEK));
    }
    forall j | 0 <= j < index
      ensures !Overlaps(files[j], r)
    {
      assert Less(files[j].largest, InternalKey(r.lo.value, MAX_SEQUENCE, TYPE_FOR_SEEK));
    }
    if index >= |files| {
      return false;
    }
    b := !BeforeFile(r.hi, files[index]);
    if b {
      assert Overlaps(files[index], r);
    } else {
      forall j | index <= j < |files|
        ensures !Overlaps(files[j], r)
      {
        RangeOrdered(files[index]);
      }
    }
  }

  function TotalFileSize(files: Level): (s: nat) {
    if files == [] then 0 else files[0].size + TotalFileSize(files[1..])
  }

  const MAX_MEM_COMPACT_LEVEL: nat := 2

  // Version::PickLevelForMemTableOutput.  Down to the level it names, no file
  // shares a user key with the new table.
  method PickLevelForMemTableOutput(v: Version, lo: UserKey, hi: UserKey, maxFileSize: nat) returns (level: nat)
    requires WellFormed(v)
    ensures level <= MAX_MEM_COMPACT_LEVEL
    ensures level > 0 ==> forall l, f | 0 <= l <= level && f in v[l] :: !Overlaps(f, Range(Some(lo), Some(hi)))
  {
    var r := Range(Some(lo), Some(hi));
    level := 0;
    var overlap := SomeFileOverlapsRange(false, v[0], r);
    if !overlap {
      while level < MAX_MEM_COMPACT_LEVEL
        invariant level <= MAX_MEM_COMPACT_LEVEL
        invariant forall l, f | 0 <= l <= level && f in v[l] :: !Overlaps(f, r)
      {
        overlap := SomeFileOverlapsRange(true, v[level + 1], r);
        if overlap {
          break;
        }
        if level + 2 < NUM_LEVELS {
          var overlaps, _ := GetOverlappingInputs(v[level + 2], level + 2, r);
          if TotalFileSize(overlaps) > 10 * maxFileSize {
            break;
          }
        }
        level := level + 1;
      }
    }
  }

  ghost predicate IsSlice(part: Level, whole: Level) {
    exists a, b :: 0 <= a <= b <= |whole| && part == whole[a..b]
  }

  lemma SliceSnoc(files: Level, a: nat, b: nat)
    requires a <= b < |files|
    ensures files[a..b] + [files[b]] == files[a..b + 1]
  {
  }

  // The files of a sorted level around a range stand next to each other.
  lemma {:induction false} OverlappingIsSlice(files: Level, r: Range) returns (a: nat, b: nat)
    requires AllIntact(files) && Disjoint(files)
    ensures a <= b <= |files| && Overlapping(files, r) == files[a..b]
  {
    if files == [] {
      a, b := 0, 0;
    } else {
      var n := |files| - 1;
      a, b := OverlappingIsSlice(files[..n], r);
      assert files[..n][a..b] == files[a..b];
      if Overlaps(files[n], r) {
        if a == b {
          a, b := n, n;
        } else {
          SliceReachesEnd(files, a, b, r);
        }
        SliceSnoc(files, a, b);
        b := b + 1;
      }
    }
  }

  lemma SliceReachesEnd(files: Level, a: nat, b: nat, r: Range)
    requires AllIntact(files) && Disjoint(files) && a < b < |files|
    requires Overlapping(files[..|files| - 1], r) == files[a..b]
    requires Overlaps(files[|files| - 1], r)
    ensures b == |files| - 1
  {
    var n := |files| - 1;
    if b < n {
      assert files[b - 1] in files[a..b];
      Between(files, b - 1, b, n, r);
      assert files[b] in files[..n];
      assert files[b] in files[a..b];
      NotInSlice(files, a, b, b);
    }
  }

  lemma NotInSlice(files: Level, a: nat, b: nat, j: nat)
    requires AllIntact(files) && Disjoint(files) && a <= b <= j < |files|
    ensures files[j] !in files[a..b]
  {
    forall i | a <= i < b
      ensures files[i] != files[j]
    {
      RangeOrdered(files[i]);
    }
  }

  lemma Between(files: Level, i: nat, j: nat, k: nat, r: Range)
    requires AllIntact(files) && Disjoint(files) && i < j < k < |files|
    requires Overlaps(files[i], r) && Overlaps(files[k], r)
    ensures Overlaps(files[j], r)
  {
    RangeOrdered(files[j]);
  }

  // The greatest last key of a set of files.
  ghost predicate IsLargest(k: InternalKey, files: Level) {
    (exists f :: f in files && f.largest == k) && (forall f | f in files :: !Less(k, f.largest))
  }

  ghost predicate IsSmallest(k: InternalKey, files: Level) {
    (exists f :: f in files && f.smallest == k) && (forall f | f in files :: !Less(f.smallest, k))
  }

  method FindLargestKey(files: Level) returns (r: Option<InternalKey>)
    ensures r.None? <==> files == []
    ensures r.Some? ==> IsLargest(r.value, files)
  {
    if files == [] {
      return None;
    }
    var largest := files[0].largest;
    for i := 1 to |files|
      invariant IsLargest(largest, files[..i])
    {
      assert files[..i + 1] == files[..i] + [files[i]];
      if Less(largest, files[i].largest) {
        largest := files[i].largest;
      }
    }
    assert files[..|files|] == files;
    r := Some(largest);
  }

  // A file that goes on with the user key another file ends in.
  predicate Continues(f: File, largest: InternalKey) {
    Less(largest, f.smallest) && f.smallest.user == largest.user
  }

  method FindSmallestBoundaryFile(files: Level, largest: InternalKey) returns (r: Option<File>)
    ensures r.None? ==> forall f | f in files :: !Continues(f, largest)
    ensures r.Some? ==> r.value in files && Continues(r.value, largest)
    ensures r.Some? ==> forall f | f in files && Continues(f, largest) :: !Less(f.smallest, r.value.smallest)
  {
    r := None;
    for i := 0 to |files|
      invariant r.None? ==> forall f | f in files[..i] :: !Continues(f, largest)
      invariant r.Some? ==> r.value in files && Continues(r.value, largest)
      invariant r.Some? ==> forall f | f in files[..i] && Continues(f, largest) :: !Less(f.smallest, r.value.smallest)
    {
      var f := files[i];
      assert files[..i + 1] == files[..i] + [f];
      if Less(largest, f.smallest) && f.smallest.user == largest.user {
        if r.None? || Less(f.smallest, r.value.smallest) {
          r := Some(f);
        }
      }
    }
    assert files[..|files|] == files;
  }

  // How many files start after a key: what the search for boundary files uses up.
  ghost function StartingAfter(files: Level, k: InternalKey): nat {
    if files == [] then 0 else (if Less(k, files[0].smallest) then 1 else 0) + StartingAfter(files[1..], k)
  }

  lemma {:induction false} FewerStartAfter(files: Level, f: File, k: InternalKey, q: InternalKey)
    requires !Less(q, k)
    ensures StartingAfter(files, q) <= StartingAfter(files, k)
    ensures f in files && Less(k, f.smallest) && !Less(q, f.smallest) ==>
              StartingAfter(files, q) < StartingAfter(files, k)
  {
    if files != [] {
      FewerStartAfter(files[1..], f, k, q);
    }
  }

  // No file of the level goes on with the user key the inputs end in.
  ghost predicate NoBoundary(files: Level, inputs: Level) {
    forall k, g | IsLargest(k, inputs) && g in files :: !Continues(g, k)
  }

  method AddBoundaryInputs(files: Level, inputs: Level) returns (r: Level)
    requires AllIntact(files)
    requires forall f | f in inputs :: f in files
    ensures inputs <= r && (inputs == [] ==> r == [])
    ensures forall f | f in r :: f in files
    ensures NoBoundary(files, r)
    ensures NoBoundary(files, inputs) ==> r == inputs
    ensures Disjoint(files) && IsSlice(inputs, files) ==> IsSlice(r, files)
  {
    r := inputs;
    var key := FindLargestKey(inputs);
    if key.None? {
      return;
    }
    var largest := key.value;
    var searching := true;
    while searching
      invariant inputs <= r
      invariant forall f | f in r :: f in files
      invariant IsLargest(largest, r)
      invariant NoBoundary(files, inputs) ==> r == inputs
      invariant Disjoint(files) && IsSlice(inputs, files) ==> IsSlice(r, files)
      invariant !searching ==> forall f | f in files :: !Continues(f, largest)
      decreases searching, StartingAfter(files, largest)
    {
      var boundary := FindSmallestBoundaryFile(files, largest);
      if boundary.Some? {
        var f := boundary.value;
        RangeOrdered(f);
        FewerStartAfter(files, f, largest, f.largest);
        if Disjoint(files) && IsSlice(r, files) {
          SliceExtends(files, r, largest, f);
        }
        LargestExtends(r, largest, f);
        r := r + [f];
        largest := f.largest;
      } else {
        searching := false;
      }
    }
    LargestUnique(r, largest);
  }

  lemma LargestUnique(files: Level, k: InternalKey)
    requires IsLargest(k, files)
    ensures forall q | IsLargest(q, files) :: q.user == k.user && Tag(q) == Tag(k) && q == k
  {
  }

  lemma LargestExtends(files: Level, k: InternalKey, f: File)
    requires IsLargest(k, files) && Less(k, f.largest)
    ensures IsLargest(f.largest, files + [f])
  {
    assert f in files + [f];
  }

  lemma SliceExtends(files: Level, part: Level, largest: InternalKey, f: File)
    requires AllIntact(files) && Disjoint(files) && IsSlice(part, files)
    requires IsLargest(largest, part)
    requires f in files && Continues(f, largest)
    requires forall g | g in files && Continues(g, largest) :: !Less(g.smallest, f.smallest)
    ensures IsSlice(part + [f], files)
  {
    var a, b :| 0 <= a <= b <= |files| && part == files[a..b];
    BoundaryIsNext(files, a, b, largest, f);
    SliceSnoc(files, a, b);
  }

  lemma BoundaryIsNext(files: Level, a: nat, b: nat, largest: InternalKey, f: File)
    requires AllIntact(files) && Disjoint(files) && a <= b <= |files|
    requires IsLargest(largest, files[a..b])
    requires f in files && Continues(f, largest)
    requires forall g | g in files && Continues(g, largest) :: !Less(g.smallest, f.smallest)
    ensures b < |files| && files[b] == f
  {
    var j :| 0 <= j < |files| && files[j] == f;
    LastOfSliceIsLargest(files, a, b, largest);
    NextAfterSlice(files, b, j);
  }

  lemma NextAfterSlice(files: Level, b: nat, j: nat)
    requires AllIntact(files) && Disjoint(files) && 0 < b <= |files| && j < |files|
    requires Continues(files[j], files[b - 1].largest)
    requires forall g | g in files && Continues(g, files[b - 1].largest) :: !Less(g.smallest, files[j].smallest)
    ensures j == b
  {
    RangeOrdered(files[j]);
    if j > b {
      RangeOrdered(files[b]);
      assert files[b] in files && Continues(files[b], files[b - 1].largest);
    }
  }

  lemma LastOfSliceIsLargest(files: Level, a: nat, b: nat, k: InternalKey)
    requires AllIntact(files) && Disjoint(files) && a < b <= |files|
    requires IsLargest(k, files[a..b])
    ensures k == files[b - 1].largest
  {
    var f :| f in files[a..b] && f.largest == k;
    var i :| a <= i < b && files[i] == f;
    assert files[b - 1] in files[a..b];
    RangeOrdered(files[b - 1]);
  }
}
