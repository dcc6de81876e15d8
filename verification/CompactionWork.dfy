// Rewriting the inputs of a compaction into new table files
// (db/db_impl.cc, DoCompactionWork; db/version_set.cc, class Compaction).

module CompactionWork {
  import opened Keys
  import opened History
  import opened Versions
  import opened Inputs
  import opened Picking
  import opened DropRules

  // No file two or more levels below the compaction spans the user key.
  ghost predicate BaseLevel(v: Version, level: nat, u: UserKey) {
    forall l, f | level + 2 <= l < |v| && f in v[l] :: !(f.smallest.user <= u <= f.largest.user)
  }

  ghost function BaseLevels(v: Version, level: nat): UserKey -> bool {
    (u: UserKey) => BaseLevel(v, level, u)
  }

  // Total size of the grandparents in [from, to).
  ghost function SpanBytes(files: Level, from: nat, to: nat): nat
    requires from <= to <= |files|
  {
    TotalFileSize(files[from..to])
  }

  lemma {:induction false} SpanBytesSnoc(files: Level, from: nat, to: nat)
    requires from <= to < |files|
    ensures SpanBytes(files, from, to + 1) == SpanBytes(files, from, to) + files[to].size
  {
    var s := files[from..to + 1];
    assert s[..|s| - 1] == files[from..to];
    SizeSnoc(s);
  }

  lemma {:induction false} SizeSnoc(s: Level)
    requires s != []
    ensures TotalFileSize(s) == TotalFileSize(s[..|s| - 1]) + s[|s| - 1].size
  {
    if |s| > 1 {
      SizeSnoc(s[1..]);
      assert s[1..][..|s| - 2] == s[..|s| - 1][1..];
    }
  }

  // The moving parts of class Compaction: cursors that only ever go forward,
  // because the compaction sees its keys in increasing order.
  class Cursors {
    const version: Version
    const level: nat
    const grandparents: Level
    const maxOverlap: nat
    var levelPtrs: seq<nat>
    var grandparentIndex: nat
    var seenKey: bool
    var overlappedBytes: nat
    ghost var last: Option<UserKey>  // the key IsBaseLevelForKey was last asked about

    // Every file a cursor has passed ends before the last key asked about.
    ghost predicate Passed()
      requires |version| == NUM_LEVELS
      reads `levelPtrs, `last
    {
      && |levelPtrs| == NUM_LEVELS
      && (forall l | level + 2 <= l < NUM_LEVELS :: levelPtrs[l] <= |version[l]|)
      && (forall l, j | level + 2 <= l < NUM_LEVELS && 0 <= j < levelPtrs[l] ::
            last.Some? && version[l][j].largest.user < last.value)
    }

    ghost predicate Valid()
      reads this
    {
      && |version| == NUM_LEVELS
      && (forall l | level + 2 <= l < NUM_LEVELS :: AllIntact(version[l]) && Disjoint(version[l]))
      && Passed()
      && grandparentIndex <= |grandparents|
    }

    constructor (v: Version, c: Compaction, maxFileSize: nat)
      requires WellFormed(v)
      ensures Valid() && version == v && level == c.level && grandparents == c.grandparents
      ensures last == None && grandparentIndex == 0 && !seenKey && overlappedBytes == 0
      ensures maxOverlap == 10 * maxFileSize
    {
      version, level, grandparents, maxOverlap := v, c.level, c.grandparents, 10 * maxFileSize;
      levelPtrs := seq(NUM_LEVELS, _ => 0);
      grandparentIndex, seenKey, overlappedBytes := 0, false, 0;
      last := None;
    }

    // Asked about increasing user keys, the cursors answer like a full scan.
    method IsBaseLevelForKey(u: UserKey) returns (b: bool)
      requires Valid()
      requires last.Some? ==> last.value <= u
      modifies `levelPtrs, `last
      ensures Valid() && last == Some(u)
      ensures b == BaseLevel(version, level, u)
    {
      last := Some(u);
      var lvl := level + 2;
      while lvl < NUM_LEVELS
        invariant level + 2 <= lvl && Valid() && last == Some(u)
        invariant forall l, f | level + 2 <= l < lvl && l < NUM_LEVELS && f in version[l] ::
                    !(f.smallest.user <= u <= f.largest.user)
      {
        var files := version[lvl];
        while levelPtrs[lvl] < |files|
          invariant Valid() && last == Some(u) && levelPtrs[lvl] <= |files|
          decreases |files| - levelPtrs[lvl]
        {
          var f := files[levelPtrs[lvl]];
          if u <= f.largest.user {
            if u >= f.smallest.user {
              assert f in version[lvl];
              return false;
            }
            break;
          }
          levelPtrs := levelPtrs[lvl := levelPtrs[lvl] + 1];
        }
        AheadOfCursor(files, levelPtrs[lvl], u);
        lvl := lvl + 1;
      }
      return true;
    }

    // True when the output file being built overlaps too much of the level after next.
    method ShouldStopBefore(key: InternalKey) returns (stop: bool)
      requires Valid()
      modifies `grandparentIndex, `seenKey, `overlappedBytes
      ensures Valid() && seenKey && old(grandparentIndex) <= grandparentIndex
      ensures forall j | old(grandparentIndex) <= j < grandparentIndex :: Less(grandparents[j].largest, key)
      ensures grandparentIndex < |grandparents| ==> !Less(grandparents[grandparentIndex].largest, key)
      ensures var total := old(overlappedBytes) +
                           (if old(seenKey) then SpanBytes(grandparents, old(grandparentIndex), grandparentIndex) else 0);
              stop == (total > maxOverlap) && overlappedBytes == (if stop then 0 else total)
    {
      while grandparentIndex < |grandparents| && Less(grandparents[grandparentIndex].largest, key)
        invariant old(grandparentIndex) <= grandparentIndex <= |grandparents| && Valid()
        invariant forall j | old(grandparentIndex) <= j < grandparentIndex :: Less(grandparents[j].largest, key)
        invariant seenKey == old(seenKey)
        invariant overlappedBytes == old(overlappedBytes) +
                    (if seenKey then SpanBytes(grandparents, old(grandparentIndex), grandparentIndex) else 0)
        decreases |grandparents| - grandparentIndex
      {
        SpanBytesSnoc(grandparents, old(grandparentIndex), grandparentIndex);
        if seenKey {
          overlappedBytes := overlappedBytes + grandparents[grandparentIndex].size;
        }
        grandparentIndex := grandparentIndex + 1;
      }
      seenKey := true;
      stop := overlappedBytes > maxOverlap;
      if stop {
        overlappedBytes := 0;
      }
    }
  }

  // Past the cursor, every file of a sorted level starts beyond the key.
  lemma AheadOfCursor(files: Level, p: nat, u: UserKey)
    requires AllIntact(files) && Disjoint(files) && p <= |files|
    requires forall j | 0 <= j < p :: files[j].largest.user < u
    requires p < |files| ==> u < files[p].smallest.user
    ensures forall f | f in files :: !(f.smallest.user <= u <= f.largest.user)
  {
    forall f | f in files
      ensures !(f.smallest.user <= u <= f.largest.user)
    {
      var j :| 0 <= j < |files| && files[j] == f;
      if j > p {
        RangeOrdered(files[p]);
      }
    }
  }

  // All the entries of a list of tables, in order.
  function Flatten(files: Level): seq<Entry> {
    if files == [] then [] else Flatten(files[..|files| - 1]) + files[|files| - 1].run
  }

  // FinishCompactionOutputFile: the table just built, with its key range.
  function Finish(number: nat, run: seq<Entry>, fileSize: seq<Entry> -> nat): (f: File)
    requires run != []
    ensures Sorted(run) ==> Intact(f)
  {
    File(number, fileSize(run), run[0].key, run[|run| - 1].key, run)
  }

  ghost predicate NumberedFrom(files: Level, first: nat) {
    forall i | 0 <= i < |files| :: files[i].number == first + i
  }

  // CompactionState: the tables finished so far and the one being built.
  datatype Output = Output(done: Level, run: seq<Entry>, number: nat, nextNumber: nat)

  ghost predicate Holds(o: Output, s: seq<Entry>, first: nat) {
    && Flatten(o.done) + o.run == s
    && AllIntact(o.done) && NumberedFrom(o.done, first)
    && o.nextNumber == first + |o.done| + (if o.run == [] then 0 else 1)
    && (o.run != [] ==> o.number == first + |o.done|)
  }

  function Close(o: Output, fileSize: seq<Entry> -> nat): Output {
    if o.run == [] then o else Output(o.done + [Finish(o.number, o.run, fileSize)], [], o.number, o.nextNumber)
  }

  function Append(o: Output, e: Entry): Output {
    if o.run == [] then Output(o.done, [e], o.nextNumber, o.nextNumber + 1) else o.(run := o.run + [e])
  }

  lemma CloseHolds(o: Output, s: seq<Entry>, first: nat, fileSize: seq<Entry> -> nat)
    requires Holds(o, s, first) && Sorted(s)
    ensures Holds(Close(o, fileSize), s, first)
  {
    if o.run != [] {
      var f := Finish(o.number, o.run, fileSize);
      var k := |Flatten(o.done)|;
      forall a, b | 0 <= a < b < |o.run|
        ensures Less(o.run[a].key, o.run[b].key)
      {
        assert o.run[a] == s[k + a] && o.run[b] == s[k + b];
      }
      assert (o.done + [f])[..|o.done|] == o.done;
    }
  }

  lemma AppendHolds(o: Output, s: seq<Entry>, first: nat, e: Entry)
    requires Holds(o, s, first)
    ensures Holds(Append(o, e), s + [e], first)
  {
    assert Flatten(o.done) + (o.run + [e]) == s + [e];
  }

  // What one input entry does to the output: close the table being built if it must
  // stop before this entry, add the entry unless it is dropped, and close the table
  // if that made it big enough.
  function Emit(o: Output, e: Entry, stop: bool, drop: bool, fileSize: seq<Entry> -> nat, limit: nat): Output {
    var o1 := if stop then Close(o, fileSize) else o;
    if drop then o1
    else
      var o2 := Append(o1, e);
      if fileSize(o2.run) >= limit then Close(o2, fileSize) else o2
  }

  lemma EmitHolds(o: Output, s: seq<Entry>, first: nat, e: Entry, stop: bool, drop: bool,
                  fileSize: seq<Entry> -> nat, limit: nat)
    requires Holds(o, s, first) && Sorted(s) && (!drop ==> Sorted(s + [e]))
    ensures Holds(Emit(o, e, stop, drop, fileSize, limit), if drop then s else s + [e], first)
  {
    CloseHolds(o, s, first, fileSize);
    var o1 := if stop then Close(o, fileSize) else o;
    AppendHolds(o1, s, first, e);
    if !drop {
      CloseHolds(Append(o1, e), s + [e], first, fileSize);
    }
  }

  // Whether to throw away an entry, given the last sequence number of its key.
  method ShouldDrop(e: Entry, lastSequenceForKey: Sequence, m: Sequence, cursors: Cursors) returns (drop: bool)
    requires cursors.Valid() && (cursors.last.Some? ==> cursors.last.value <= e.key.user)
    modifies cursors`levelPtrs, cursors`last
    ensures cursors.Valid() && (cursors.last.Some? ==> cursors.last.value <= e.key.user)
    ensures drop == (lastSequenceForKey <= m ||
                     Obsolete(e, m, BaseLevels(cursors.version, cursors.level)(e.key.user)))
  {
    drop := false;
    if lastSequenceForKey <= m {
      drop := true;
    } else if e.key.kind == Deletion && e.key.seqno <= m {
      drop := cursors.IsBaseLevelForKey(e.key.user);
    }
  }

  // DoCompactionWork.  fileSize gives the table builder's size after some entries,
  // so the places where outputs are cut are arbitrary.
  method DoCompactionWork(input: seq<Entry>, m: Sequence, cursors: Cursors, fileSize: seq<Entry> -> nat,
                          maxOutputFileSize: nat, firstNumber: nat)
    returns (outputs: Level, nextNumber: nat)
    requires Sorted(input) && cursors.Valid() && cursors.last == None
    modifies cursors
    ensures Flatten(outputs) == Survivors(input, m, BaseLevels(cursors.version, cursors.level))
    ensures AllIntact(outputs)
    ensures NumberedFrom(outputs, firstNumber) && nextNumber == firstNumber + |outputs|
  {
    ghost var base := BaseLevels(cursors.version, cursors.level);
    var compact := Output([], [], 0, firstNumber);
    var currentUserKey := 0.0;
    var hasCurrentUserKey := false;
    var lastSequenceForKey: Sequence := MAX_SEQUENCE;
    for i := 0 to |input|
      invariant cursors.Valid()
      invariant hasCurrentUserKey == (i > 0)
      invariant i > 0 ==> currentUserKey == input[i - 1].key.user && lastSequenceForKey == input[i - 1].key.seqno
      invariant cursors.last.Some? ==> i > 0 && cursors.last.value <= input[i - 1].key.user
      invariant Holds(compact, Survivors(input[..i], m, base), firstNumber)
    {
      var e := input[i];
      SurvivorsSnoc(input, i, m, base);
      KeysAscend(input, i);
      var stop := cursors.ShouldStopBefore(e.key);
      if !hasCurrentUserKey || e.key.user != currentUserKey {
        currentUserKey, hasCurrentUserKey, lastSequenceForKey := e.key.user, true, MAX_SEQUENCE;
      }
      assert lastSequenceForKey == LastSequenceForKey(input, i);
      var drop := ShouldDrop(e, lastSequenceForKey, m, cursors);
      lastSequenceForKey := e.key.seqno;
      EmitHolds(compact, Survivors(input[..i], m, base), firstNumber, e, stop, drop, fileSize, maxOutputFileSize);
      compact := Emit(compact, e, stop, drop, fileSize, maxOutputFileSize);
    }
    assert input[..|input|] == input;
    SurvivorsSorted(input, m, base);
    CloseHolds(compact, Survivors(input, m, base), firstNumber, fileSize);
    compact := Close(compact, fileSize);
    outputs, nextNumber := compact.done, compact.nextNumber;
  }

  lemma KeysAscend(input: seq<Entry>, i: nat)
    requires Sorted(input) && i < |input|
    ensures i > 0 ==> input[i - 1].key.user <= input[i].key.user
  {
  }

  lemma SurvivorsSnoc(input: seq<Entry>, i: nat, m: Sequence, base: UserKey -> bool)
    requires Sorted(input) && i < |input|
    ensures Sorted(Survivors(input[..i], m, base)) && Sorted(Survivors(input[..i + 1], m, base))
    ensures Survivors(input[..i + 1], m, base) ==
            Survivors(input[..i], m, base) + (if Dropped(input, i, m, base) then [] else [input[i]])
  {
    assert input[..i + 1][..i] == input[..i];
    SurvivorsSorted(input[..i], m, base);
    SurvivorsSorted(input[..i + 1], m, base);
  }

  // Tables cut out of one sorted run are disjoint and hold exactly its entries.
  lemma {:induction false} CutsAreDisjoint(files: Level)
    requires AllIntact(files) && Sorted(Flatten(files))
    ensures Disjoint(files)
  {
    if files != [] {
      var n := |files| - 1;
      var init := files[..n];
      var s := Flatten(init);
      assert s == Flatten(files)[..|s|];
      CutsAreDisjoint(init);
      forall i, j | 0 <= i < j < |files|
        ensures Less(files[i].largest, files[j].smallest)
      {
        assert init[i] == files[i] && files[i] in files && files[n] in files;
        if j < n {
          assert init[j] == files[j];
        } else {
          LastKeyInFlatten(init, files[i]);
          var k :| 0 <= k < |s| && s[k] == files[i].run[|files[i].run| - 1];
          assert Flatten(files)[k] == s[k] && Flatten(files)[|s|] == files[n].run[0];
        }
      }
    }
  }

  lemma LastKeyInFlatten(files: Level, f: File)
    requires f in files && f.run != []
    ensures f.run[|f.run| - 1] in Flatten(files)
  {
    FlattenHolds(files);
    assert f.run[|f.run| - 1] in Elements(f.run);
    InLevel(files, f);
  }

  lemma {:induction false} FlattenHolds(files: Level)
    ensures LevelEntries(files) == Elements(Flatten(files))
  {
    if files != [] {
      var n := |files| - 1;
      var init, f := files[..n], files[n];
      FlattenHolds(init);
      assert files == init + [f];
      assert LevelEntries(files) == LevelEntries(init) + Elements(f.run);
    }
  }
}
