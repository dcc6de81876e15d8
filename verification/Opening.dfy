// Opening a database again, from the bytes of its log files to the version it goes on from
// (db/db_impl.cc, DBImpl::Recover, RecoverLogFile and DB::Open).

module Opening {
  import opened Keys
  import opened History
  import opened Versions
  import opened VersionEdits
  import opened Install
  import opened Flush
  import opened Reopening
  import opened CompactionWork
  import opened Iterators
  import opened Recovery
  import opened ReplayRuns

  // ---- What the logs held goes into tables. ----

  ghost predicate Ascends(ops: seq<Batches.Stamped>) {
    forall i, j | 0 <= i < j < |ops| :: ops[i].seqno < ops[j].seqno
  }

  lemma WrittenSnoc(ops: seq<Batches.Stamped>, n: nat)
    requires n < |ops| && InReach(ops)
    ensures Written(ops[..n + 1]) == Written(ops[..n]) + {EntryOfOp(ops[n])}
  {
    assert ops[..n + 1] == ops[..n] + [ops[n]];
  }

  // WriteBatchInternal::InsertInto, into an empty memtable.
  method FillMemTable(ops: seq<Batches.Stamped>) returns (run: seq<Entry>)
    requires InReach(ops) && Ascends(ops)
    ensures Sorted(run) && Elements(run) == Written(ops)
  {
    hide InsertSorted, Sorted;
    run := [];
    Database.NothingSorted();
    for n := 0 to |ops|
      invariant Sorted(run) && Elements(run) == Written(ops[..n])
    {
      forall x | x in run
        ensures x.key != EntryOfOp(ops[n]).key
      {
        assert x in Elements(run);
      }
      InsertSortedHolds(run, EntryOfOp(ops[n]));
      WrittenSnoc(ops, n);
      run := InsertSorted(run, EntryOfOp(ops[n]));
    }
    assert ops[..|ops|] == ops;
  }

  lemma FlatSnoc(tables: seq<seq<Batches.Stamped>>, k: nat)
    requires k < |tables|
    ensures Flat(tables[..k + 1]) == Flat(tables[..k]) + tables[k]
  {
    hide Flat;
    FlatAppend(tables[..k], tables[k]);
    assert tables[..k + 1] == tables[..k] + [tables[k]];
  }

  lemma {:induction false} FlatHolds(tables: seq<seq<Batches.Stamped>>, k: nat)
    requires k <= |tables|
    ensures Flat(tables[..k]) <= Flat(tables)
    decreases |tables| - k
  {
    hide Flat;
    if k < |tables| {
      FlatSnoc(tables, k);
      FlatHolds(tables, k + 1);
    } else {
      assert tables[..k] == tables;
    }
  }

  lemma AscendingParts(ops: seq<Batches.Stamped>, a: seq<Batches.Stamped>, b: seq<Batches.Stamped>)
    requires InReach(ops) && Ascends(ops) && a + b <= ops
    ensures InReach(a) && InReach(b) && InReach(a + b) && Ascends(b)
    ensures Newer(Written(b), Written(a)) && Written(a + b) == Written(a) + Written(b)
  {
    var ab := a + b;
    assert forall i | 0 <= i < |ab| :: ab[i] == ops[i];
    assert forall i | 0 <= i < |a| :: a[i] == ops[i];
    assert forall i | 0 <= i < |b| :: b[i] == ops[|a| + i];
    forall x, y | x in b && y in a
      ensures x.seqno > y.seqno
    {
      var i :| 0 <= i < |b| && b[i] == x;
      var j :| 0 <= j < |a| && a[j] == y;
      assert ops[j].seqno < ops[|a| + i].seqno;
    }
  }

  // WriteLevel0Table without a version to ask: one table for each memtable that is not empty.
  method BuildTables(tables: seq<seq<Batches.Stamped>>, first: nat, fileSize: seq<Entry> -> nat)
    returns (fs: Level, next: nat)
    requires InReach(Flat(tables)) && Ascends(Flat(tables))
    ensures AllIntact(fs) && OlderFirst(fs) && NumberedIn(fs, first, next)
    ensures LevelEntries(fs) == Written(Flat(tables))
  {
    hide Flat, Ascends, InReach, Newer, Sorted, AllIntact, LevelEntries, OlderFirst, NumberedIn, Written;
    fs, next := [], first;
    NothingBuilt(first);
    for k := 0 to |tables|
      invariant InReach(Flat(tables[..k])) && LevelEntries(fs) == Written(Flat(tables[..k]))
      invariant AllIntact(fs) && OlderFirst(fs) && NumberedIn(fs, first, next)
    {
      FlatSnoc(tables, k);
      FlatHolds(tables, k + 1);
      AscendingParts(Flat(tables), Flat(tables[..k]), tables[k]);
      var run := FillMemTable(tables[k]);
      if run != [] {
        var f := Finish(next, run, fileSize);
        OneMoreTable(fs, f, first, next);
        fs := fs + [f];
      } else {
        NothingFilled(Written(tables[k]));
        NumberSkipped(fs, first, next);
      }
      next := next + 1;
    }
    FlatHolds(tables, |tables|);
    FlatWhole(tables);
  }

  lemma NothingBuilt(first: nat)
    ensures InReach(Flat([])) && LevelEntries([]) == Written(Flat([]))
    ensures AllIntact([]) && OlderFirst([]) && NumberedIn([], first, first)
  {
  }

  lemma NothingFilled(S: set<Entry>)
    requires Elements([]) == S
    ensures S == {}
  {
  }

  lemma NumberSkipped(fs: Level, first: nat, next: nat)
    requires NumberedIn(fs, first, next)
    ensures NumberedIn(fs, first, next + 1)
  {
  }

  lemma FlatWhole(tables: seq<seq<Batches.Stamped>>)
    ensures tables[..|tables|] == tables
  {
  }

  lemma OneMoreTable(fs: Level, f: File, first: nat, next: nat)
    requires AllIntact(fs) && OlderFirst(fs) && NumberedIn(fs, first, next)
    requires Intact(f) && f.number == next && Newer(Elements(f.run), LevelEntries(fs))
    ensures var gs := fs + [f];
      && AllIntact(gs) && OlderFirst(gs) && NumberedIn(gs, first, next + 1)
      && LevelEntries(gs) == LevelEntries(fs) + Elements(f.run)
  {
    hide Intact, Newer, LevelEntries;
    var gs := fs + [f];
    LevelSnoc(gs);
    assert gs[..|fs|] == fs;
    forall i, j | 0 <= i < j < |gs|
      ensures gs[i].number < gs[j].number && Newer(Elements(gs[j].run), Elements(gs[i].run))
    {
      assert gs[i] in fs && gs[i] == fs[i];
      if j == |fs| {
        OfLevel(fs, fs[i]);
        NewerSubset(Elements(f.run), LevelEntries(fs), Elements(fs[i].run));
      }
    }
  }

  lemma OfLevel(fs: Level, f: File)
    requires f in fs
    ensures Elements(f.run) <= LevelEntries(fs)
  {
  }

  // ---- Their edit. ----

  lemma AtLevel0Addable(v: Version, fs: Level, first: nat, next: nat)
    requires Listed(v, first) && OlderFirst(fs) && NumberedIn(fs, first, next)
    ensures Addable(v, AtLevel0(fs))
  {
    hide InOrder, Newer;
    var e := AtLevel0(fs);
    forall l: nat | l < NUM_LEVELS
      ensures Files(v[l]) !! AddedAt(e, l) && Comparable(Files(v[l]) + AddedAt(e, l))
    {
      AddsAtLevel0(fs, l);
      assert Files(v[l]) + {} == Files(v[l]);
      UniqueIsComparable(Files(v[l]) + AddedAt(e, l));
    }
  }

  lemma InstalledIsReplayed(v: Version, v': Version, fs: Level, first: nat)
    requires Listed(v, first) && AllIntact(fs) && OlderFirst(fs)
    requires Installed(v, AtLevel0(fs), v')
    ensures Replayed(v, v', fs)
  {
    hide InOrder, Newer, OlderFirst, UniqueNumbers;
    forall l: nat | l < NUM_LEVELS
      ensures InOrder(v'[l]) && Files(v'[l]) == Files(v[l]) + (if l == 0 then Files(fs) else {})
      ensures l > 0 ==> v'[l] == v[l]
    {
      AddsAtLevel0(fs, l);
      if l > 0 {
        InOrderUnique(v'[l], v[l]);
      }
    }
  }

  // The tables and their edit, applied at once when all logs are read.
  method ReplayTables(v: Version, tables: seq<seq<Batches.Stamped>>, first: nat, fileSize: seq<Entry> -> nat)
    returns (v': Version, ghost fs: Level, next: nat)
    requires Listed(v, first) && InReach(Flat(tables)) && Ascends(Flat(tables))
    ensures Replayed(v, v', fs) && NumberedIn(fs, first, next) && LevelEntries(fs) == Written(Flat(tables))
  {
    hide Flat, Ascends, InReach, AllIntact, OlderFirst, NumberedIn, LevelEntries, Replayed, Installed, Addable, UniqueNumbers;
    var built, n := BuildTables(tables, first, fileSize);
    fs, next := built, n;
    AtLevel0Addable(v, built, first, n);
    v' := LogAndApply(v, AtLevel0(built));
    InstalledIsReplayed(v, v', built, first);
  }
}
