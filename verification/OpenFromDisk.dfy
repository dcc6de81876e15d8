// A database opened from the bytes a crash left: the manifest gives the version, the log files what
// the memtables held (db/db_impl.cc, DB::Open and DBImpl::Recover).

module OpenFromDisk {
  import opened Keys
  import opened History
  import opened Versions
  import opened VersionEdits
  import opened Install
  import opened Reopening
  import opened EditReplays
  import opened EditRuns
  import opened Store
  import opened Crashes
  import opened ReplayRuns
  import opened Opening
  import opened Sessions
  import opened VersionSets
  import opened Recovery
  import opened Bits

  // The records are those of a session's manifest.
  ghost predicate Stands(m: Noted, es: seq<Manifest.Edit>, disk: Disk, name: Data) {
    && EditsFit(es) && Named(es, name) && EditsFrom(es, disk) == [SnapshotEdit(m.base)] + m.edits
    && var c := CountersOf(es);
       c.log.Some? && c.lastSequence == Some(m.last) && c.nextFile.Some? && m.next <= c.nextFile.value + 1
  }

  // The log files a session needs, older first.
  function LogFiles(w: Session): seq<seq<Batches.Record>>
    requires w.run != []
  {
    if Now(w).imm.Some? then [w.oldLog, w.log] else [w.log]
  }

  lemma LogFilesAre(w: Session)
    requires Consistent(w)
    ensures Joined(LogFiles(w)) == w.oldLog + w.log && (forall log | log in LogFiles(w) :: Writable(log))
  {
    hide Lasting, InManifest, Rises, Holds, Applied, Above;
    LogsOf(w);
    assert Joined([]) == [] && [w.log][..0] == [] && [w.oldLog, w.log][..1] == [w.oldLog] && [w.oldLog][..0] == [];
    assert Joined([w.log]) == [] + w.log;
    assert Joined([w.oldLog]) == [] + w.oldLog;
    assert Joined([w.oldLog, w.log]) == Joined([w.oldLog]) + w.log;
  }

  // What the manifest gives is the current version.
  lemma ManifestHasVersion(w: Session, es: seq<Manifest.Edit>, disk: Disk, name: Data, v: Version, l: nat)
    requires Consistent(w) && Stands(w.noted, es, disk, name) && l < NUM_LEVELS
    ensures Comparable(AddedBy(EditsFrom(es, disk), l))
    ensures Rebuilt(Empty(), EditsFrom(es, disk), v) ==> v == Now(w).version
    ensures Checked(CountersOf(es)) == Ok
    ensures Listed(Now(w).version, CountersOf(es).nextFile.value + 1)
  {
    hide Lasting, Logged, Rebuilt, EntersOnce, UniqueNumbers, OnlySinks, NumbersGivenOut, Listed, Comparable, Seen, AddedBy, EditsFrom,
         CountersOf, Named, EditsFit, AllWithin, SnapshotEdit;
    LogsOf(w);
    var m := w.noted;
    SnapshotRebuilds(m.base, m.edits, v);
    SnapshotFirst(m.base, m.edits, l);
    SeenCompares(m.base, m.edits, l);
    if Rebuilt(m.base, m.edits, v) {
      RebuiltIsOne(m.base, m.edits, v, Now(w).version);
    }
    ListedBelow(Now(w).version, m.next, CountersOf(es).nextFile.value + 1);
  }

  lemma SeenCompares(base: Version, edits: seq<VersionEdit>, l: nat)
    requires |base| == NUM_LEVELS && l < NUM_LEVELS && UniqueNumbers(Seen(base, edits, l))
    ensures Comparable(Files(base[l]) + AddedBy(edits, l))
  {
    UniqueIsComparable(Seen(base, edits, l));
  }

  // Where a log file was cut: which batches are left.
  lemma SurvivorsKept(w: Session, files: seq<Data>)
    requires Consistent(w) && |files| == |LogFiles(w)| && (forall log | log in LogFiles(w) :: Writable(log))
    requires Survivors(files, LogFiles(w)) <= Joined(LogFiles(w))
    ensures Survivors(files, LogFiles(w)) <= w.oldLog + w.log
  {
    hide Consistent, Survivors;
    LogFilesAre(w);
  }

  lemma LastCovers(w: Session, kept: seq<Batches.Record>)
    requires Consistent(w) && kept <= w.oldLog + w.log
    ensures LastIn(w.floor, kept) <= Highest(w.noted.last, kept) < MAX_SEQUENCE
    ensures InReach(Batches.Replay(kept)) && Ascends(Batches.Replay(kept))
  {
    hide Lasting, Logged, Tracks, Structure, Highest, Batches.Replay;
    LogsOf(w);
    Parts(w);
    FloorKept(w, kept);
    ReplayRises(kept, w.floor, LastIn(w.floor, kept));
    HighestFrom(w.noted.last, kept);
    HighestIsLast(kept);
    NoHighest();
  }

  lemma NoHighest()
    ensures Highest(0, []) == 0
  {
  }

  // The files a crash leaves: the manifest, and the logs with the newest cut anywhere.
  ghost predicate OnDisk(w: Session, manifest: Data, es: seq<Manifest.Edit>, disk: Disk, name: Data, files: seq<Data>) {
    && w.run != [] && Stands(w.noted, es, disk, name) && manifest == LogFormat.Log(RecordsOf(es))
    && |files| == |LogFiles(w)| && (forall log | log in LogFiles(w) :: Writable(log)) && CutShort(files, LogFiles(w))
  }

  ghost function Left(w: Session, files: seq<Data>): seq<Batches.Record>
    requires w.run != [] && |files| == |LogFiles(w)| && forall log | log in LogFiles(w) :: Writable(log)
  {
    Survivors(files, LogFiles(w))
  }

  lemma OnDiskParts(w: Session, manifest: Data, es: seq<Manifest.Edit>, disk: Disk, name: Data, files: seq<Data>)
    requires OnDisk(w, manifest, es, disk, name, files)
    ensures w.run != [] && |files| == |LogFiles(w)| && (forall log | log in LogFiles(w) :: Writable(log))
    ensures EditsFit(es) && Named(es, name) && Stands(w.noted, es, disk, name)
    ensures CutShort(files, LogFiles(w)) && manifest == LogFormat.Log(RecordsOf(es))
  {
    hide Stands, CutShort, Writable;
    StandsFit(w.noted, es, disk, name);
  }

  lemma StandsFit(m: Noted, es: seq<Manifest.Edit>, disk: Disk, name: Data)
    requires Stands(m, es, disk, name)
    ensures EditsFit(es) && Named(es, name)
  {
  }

  ghost predicate IsManifest(w: Session, manifest: Data, es: seq<Manifest.Edit>, disk: Disk, name: Data) {
    Consistent(w) && Stands(w.noted, es, disk, name) && EditsFit(es) && manifest == LogFormat.Log(RecordsOf(es))
  }

  // A session's manifest gives back its version and counters.
  method ReadVersion(ghost w: Session, manifest: Data, ghost es: seq<Manifest.Edit>, disk: Disk, name: Data)
    returns (version: Version, nextFile: nat, lastSequence: nat, ok: bool)
    requires EditsFit(es)
    ensures IsManifest(w, manifest, es, disk, name) ==>
      ok && w.run != [] && version == Now(w).version && lastSequence == w.noted.last && Listed(version, nextFile)
  {
    hide Consistent, Listed, Rebuilt, Comparable, AddedBy, EditsFrom, LogFormat.Log, RecordsOf, CountersOf, Checked, Named, EditsFit, Stands;
    var counters, status;
    version, counters, status := VersionSets.Recover(manifest, name, disk, es);
    if IsManifest(w, manifest, es, disk, name) {
      WholeManifest(manifest, es);
      StandsFit(w.noted, es, disk, name);
      forall l | 0 <= l < NUM_LEVELS
        ensures Comparable(AddedBy(EditsFrom(es, disk), l)) && Checked(CountersOf(es)) == Ok
      {
        ManifestHasVersion(w, es, disk, name, version, l);
      }
      ManifestHasVersion(w, es, disk, name, version, 0);
      CountersThere(w.noted, es, disk, name);
      RunThere(w);
    }
    if status != Ok || counters.nextFile.None? || counters.lastSequence.None? {
      return version, 0, 0, false;
    }
    return version, counters.nextFile.value + 1, counters.lastSequence.value, true;
  }

  lemma RunThere(w: Session)
    requires Consistent(w)
    ensures w.run != []
  {
    LogsOf(w);
  }

  lemma CountersThere(m: Noted, es: seq<Manifest.Edit>, disk: Disk, name: Data)
    requires Stands(m, es, disk, name)
    ensures CountersOf(es).nextFile.Some? && CountersOf(es).lastSequence == Some(m.last)
  {
  }

  lemma WholeManifest(manifest: Data, es: seq<Manifest.Edit>)
    requires EditsFit(es) && manifest == LogFormat.Log(RecordsOf(es))
    ensures LogReading.Prefix(manifest, LogFormat.Log(RecordsOf(es)))
    ensures es[..LogReading.Wholly(0, RecordsOf(es), |manifest|)] == es
  {
    hide LogFormat.Log, RecordsOf;
    LogReading.UncutLogIsWhole(RecordsOf(es));
  }

  // DB::Open, after a crash at any moment of any session: it takes the step that a crash and an
  // opening are for the store, with the batches whose records are whole.
  method OpenDatabase(ghost w: Session, manifest: Data, ghost es: seq<Manifest.Edit>, disk: Disk, name: Data,
                      files: seq<Data>, paranoid: bool, full: seq<Batches.Stamped> -> bool, fileSize: seq<Entry> -> nat)
    returns (v': Version, next: nat, last: nat, ok: bool, ghost w': Session)
    requires Consistent(w) && OnDisk(w, manifest, es, disk, name, files)
    ensures ok && Consistent(w') && w'.run != [] && Now(w').version == v' && Now(w').last == last && Now(w').nextFile == next
    ensures w.run != [] && |files| == |LogFiles(w)| && (forall log | log in LogFiles(w) :: Writable(log))
    ensures exists first, fs :: CrashStep(w, w', Left(w, files), Now(w'), first, fs)
  {
    hide Consistent, OnDisk, Stands, CutShort, Writable, Listed, Survivors, Flat, Batches.Replay, Highest, Ascends, InReach,
         Replayed, NumberedIn, LevelEntries, LogFiles, CrashStep, Holds, ReopenStep;
    assert Consistent(w);
    OnDiskParts(w, manifest, es, disk, name, files);
    var version, nextFile, lastSequence, read := ReadVersion(w, manifest, es, disk, name);
    var tables, l, fine := Recovery.Recover(files, paranoid, full, lastSequence, LogFiles(w));
    last, ok := l, read && fine;
    ghost var kept := Left(w, files);
    SurvivorsKept(w, files);
    LastCovers(w, kept);
    ghost var fs;
    v', fs, next := ReplayTables(version, tables, nextFile, fileSize);
    w' := Opened(w, kept, v', fs, nextFile, next, last);
    CrashKeeps(w, w', kept, Now(w'), nextFile, fs);
  }

  // The session that goes on.
  lemma Opened(w: Session, kept: seq<Batches.Record>, v': Version, fs: Level, first: nat, next: nat, last: Sequence)
    returns (w': Session)
    requires Consistent(w) && w.run != [] && kept <= w.oldLog + w.log && LastIn(w.floor, kept) <= last < MAX_SEQUENCE
    requires Listed(Now(w).version, first) && Replayed(Now(w).version, v', fs) && NumberedIn(fs, first, next)
    requires InReach(Batches.Replay(kept)) && LevelEntries(fs) == Written(Batches.Replay(kept))
    ensures w'.run != [] && CrashStep(w, w', kept, Now(w'), first, fs)
    ensures Now(w').version == v' && Now(w').last == last && Now(w').nextFile == next
  {
    hide Consistent, Listed, Replayed, NumberedIn, LevelEntries, Batches.Replay, InReach, Written, ReopenStep, Cut;
    assert Holds(LevelEntries(fs), Batches.Replay(kept));
    ReopenFits(w, kept, v', fs, first, next, last);
    var n: Sequence := LastIn(w.floor, kept);
    var t := State([], None, v', last, last, [], next, Cut(Now(w), n).history + LevelEntries(fs));
    w' := Session(CutAll(w.run, n) + [t], [], [], [], t.last, t.last,
                  Noted(Now(w).version, [AtLevel0(fs)], t.last, t.nextFile));
    assert w'.run[|w'.run| - 1] == t;
  }

  // What the store reads then: the writes that were inserted up to the last number left, and those
  // only the logs had; of a key, as long as no compaction exposed it without the lost ones.
  lemma OpenedReads(w: Session, w': Session, kept: seq<Batches.Record>, first: nat, fs: Level, u: UserKey, snap: Sequence)
    requires Consistent(w) && w.run != [] && w'.run != [] && CrashStep(w, w', kept, Now(w'), first, fs)
    requires 0 <= LastIn(w.floor, kept) <= MAX_SEQUENCE && InReach(Batches.Replay(kept))
    requires Covered(CutAll(w.run, LastIn(w.floor, kept)), |w.run| - 1, u) && Now(w').last <= snap
    ensures Read(Contents(Now(w').version), u, snap)
         == Read(Upto(Now(w).history, LastIn(w.floor, kept)) + Written(Batches.Replay(kept)), u, snap)
  {
    hide Logged, InManifest, Read, Covered, Batches.Replay, Rises, ReopenStep, Next, Contents, Cut, Written, InReach;
    LogsOf(w);
    Parts(w);
    FloorKept(w, kept);
    var n: Sequence := LastIn(w.floor, kept);
    AllDurableMore(w.run, w.floor, n);
    CrashAndReopen(w.run, n, Now(w'), first, fs, u);
    OnlyTables(Cut(Now(w), n), Now(w'), first, fs);
  }

  lemma OnlyTables(s: State, t: State, first: nat, fs: Level)
    requires ReopenStep(s, t, first, fs)
    ensures All(t) == Contents(t.version)
  {
    hide Contents;
    assert Elements([]) == {};
  }
}
