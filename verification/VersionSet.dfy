// The current version, read back from the bytes of the manifest when a database is opened
// (db/version_set.cc, VersionSet::Recover and WriteSnapshot).

module VersionSets {
  import opened Keys
  import opened History
  import opened Versions
  import opened VersionEdits
  import opened EditReplays
  import opened Bits
  import opened TableRuns
  import opened LogFormat
  import opened LogReading
  import Manifest

  // What the table file of a number holds.
  type Disk = nat -> seq<Entry>

  // ---- Records and what they stand for. ----

  // A key that does not parse is never compared; any will do.
  function KeyFrom(bytes: Data): InternalKey {
    match ParseInternalKey(bytes)
    case None => InternalKey(0.0, 0, Deletion)
    case Some(k) => k
  }

  function FileFrom(m: Manifest.FileMetaData, disk: Disk): File {
    File(m.number, m.size, KeyFrom(m.smallest), KeyFrom(m.largest), disk(m.number))
  }

  function EditFrom(e: Manifest.Edit, disk: Disk): VersionEdit {
    VersionEdit((set d | d in e.deletedFiles), AddedFrom(e.newFiles, disk))
  }

  function AddedFrom(added: seq<(nat, Manifest.FileMetaData)>, disk: Disk): (r: seq<(nat, File)>)
    ensures |r| == |added| && forall i | 0 <= i < |r| :: r[i].0 == added[i].0
  {
    seq(|added|, i requires 0 <= i < |added| => (added[i].0, FileFrom(added[i].1, disk)))
  }

  function EditsFrom(es: seq<Manifest.Edit>, disk: Disk): (r: seq<VersionEdit>)
    ensures |r| == |es|
  {
    seq(|es|, i requires 0 <= i < |es| => EditFrom(es[i], disk))
  }

  ghost predicate EditsFit(es: seq<Manifest.Edit>) {
    forall e | e in es :: Manifest.EditFits(e)
  }

  function RecordOf(e: Manifest.Edit): Data
    requires Manifest.EditFits(e)
  {
    Manifest.Encoded(Manifest.Items(e))
  }

  ghost function RecordsOf(es: seq<Manifest.Edit>): (r: seq<Data>)
    requires EditsFit(es)
    ensures |r| == |es|
  {
    seq(|es|, i requires 0 <= i < |es| => assert es[i] in es; RecordOf(es[i]))
  }

  // The counters, each as the last record that has it says.
  datatype Counters = Counters(log: Option<nat>, prevLog: Option<nat>, nextFile: Option<nat>, lastSequence: Option<nat>)

  function Either(newer: Option<nat>, older: Option<nat>): Option<nat> {
    if newer.Some? then newer else older
  }

  function Updated(c: Counters, e: Manifest.Edit): Counters {
    Counters(Either(e.logNumber, c.log), Either(e.prevLogNumber, c.prevLog),
             Either(e.nextFileNumber, c.nextFile), Either(e.lastSequence, c.lastSequence))
  }

  function CountersOf(es: seq<Manifest.Edit>): Counters {
    if es == [] then Counters(None, None, None, None)
    else Updated(CountersOf(es[..|es| - 1]), es[|es| - 1])
  }

  // No record was written under another comparator.
  predicate Named(es: seq<Manifest.Edit>, name: Data) {
    forall e | e in es :: e.comparator.None? || e.comparator == Some(name)
  }

  function Empty(): Version {
    seq(NUM_LEVELS, _ => [])
  }

  datatype Status = Ok | Corruption(msg: string) | InvalidArgument

  // What is missing, in the order it is looked for.
  function Checked(c: Counters): Status {
    if c.nextFile.None? then Corruption("no meta-nextfile entry in descriptor")
    else if c.log.None? then Corruption("no meta-lognumber entry in descriptor")
    else if c.lastSequence.None? then Corruption("no last-sequence-number entry in descriptor")
    else Ok
  }

  // ---- One record. ----

  const NOTHING := Manifest.Edit(None, None, None, None, None, [], [], [])

  lemma RecordDecodes(es: seq<Manifest.Edit>, j: nat)
    requires EditsFit(es) && j < |es|
    ensures Manifest.Decode(RecordsOf(es)[j], NOTHING) == (es[j], Manifest.Ok)
  {
    hide Manifest.Decode, Manifest.Encoded, Manifest.Items, Manifest.EditFits;
    assert es[j] in es;
    Manifest.DecodeInvertsEncode(es[j], NOTHING);
  }

  lemma DecodedWithin(input: Data, disk: Disk)
    ensures EditWithin(EditFrom(Manifest.Decode(input, NOTHING).0, disk))
  {
    hide Manifest.Decode, Manifest.Items;
    NoItems();
    Manifest.DecodedFits(input, NOTHING);
    FitsWithin(Manifest.Decode(input, NOTHING).0, disk);
  }

  lemma NoItems()
    ensures Manifest.Items(NOTHING) == []
  {
  }

  lemma FitsWithin(e: Manifest.Edit, disk: Disk)
    requires Manifest.EditFits(e)
    ensures EditWithin(EditFrom(e, disk))
  {
    hide Manifest.Items;
    forall d | d in e.deletedFiles
      ensures d.0 < NUM_LEVELS
    {
      Manifest.ItemsAreFields(e, Manifest.DeletedFile(d.0, d.1));
    }
    forall i | 0 <= i < |e.newFiles|
      ensures e.newFiles[i].0 < NUM_LEVELS
    {
      Manifest.ItemsAreFields(e, Manifest.NewFile(e.newFiles[i].0, e.newFiles[i].1));
    }
  }

  lemma NextRecord(es: seq<Manifest.Edit>, disk: Disk, name: Data, j: nat)
    requires j < |es|
    ensures EditsFrom(es[..j + 1], disk) == EditsFrom(es[..j], disk) + [EditFrom(es[j], disk)]
    ensures CountersOf(es[..j + 1]) == Updated(CountersOf(es[..j]), es[j])
    ensures Named(es[..j + 1], name) <==> Named(es[..j], name) && (es[j].comparator.None? || es[j].comparator == Some(name))
  {
    assert es[..j + 1] == es[..j] + [es[j]];
    assert (es[..j] + [es[j]])[..j] == es[..j];
  }

  // What has been read after some of the records.
  ghost predicate ReadSoFar(es: seq<Manifest.Edit>, disk: Disk, name: Data, j: nat, k: nat,
                            deleted: seq<set<nat>>, added: seq<Level>, counters: Counters, status: Status)
    requires j <= k <= |es| && |deleted| == |added| == NUM_LEVELS
  {
    && status == (if Named(es[..j], name) then Ok else InvalidArgument)
    && (status == Ok ==> counters == CountersOf(es[..j]))
    && (status == Ok ==> forall l | 0 <= l < NUM_LEVELS && Comparable(AddedBy(EditsFrom(es[..k], disk), l)) ::
          && Files(added[l]) == AddedBy(EditsFrom(es[..j], disk), l)
          && deleted[l] == DeletedBy(EditsFrom(es[..j], disk), l))
  }

  lemma NothingRead(es: seq<Manifest.Edit>, disk: Disk, name: Data, k: nat, deleted: seq<set<nat>>, added: seq<Level>)
    requires k <= |es| && |deleted| == |added| == NUM_LEVELS
    requires forall l | 0 <= l < NUM_LEVELS :: deleted[l] == {} && added[l] == []
    ensures ReadSoFar(es, disk, name, 0, k, deleted, added, Counters(None, None, None, None), Ok)
  {
    hide Comparable;
    assert es[..0] == [] && EditsFrom([], disk) == [];
    NothingYet();
  }

  // What a builder makes of an edit, where the files can be told apart.
  ghost predicate Took(e: VersionEdit, deleted: seq<set<nat>>, added: seq<Level>, deleted': seq<set<nat>>, added': seq<Level>)
    requires |deleted| == |added| == |deleted'| == |added'| == NUM_LEVELS
  {
    forall l | 0 <= l < NUM_LEVELS && Comparable(Files(added[l]) + AddedAt(e, l)) ::
      && Files(added'[l]) == Files(added[l]) + AddedAt(e, l)
      && deleted'[l] == deleted[l] + DeletedAt(e, l) - Numbers(AddedAt(e, l))
  }

  lemma ReadMore(es: seq<Manifest.Edit>, disk: Disk, name: Data, j: nat, k: nat, deleted: seq<set<nat>>, added: seq<Level>,
                 counters: Counters, deleted': seq<set<nat>>, added': seq<Level>, status': Status)
    requires j < k <= |es| && |deleted| == |added| == |deleted'| == |added'| == NUM_LEVELS
    requires ReadSoFar(es, disk, name, j, k, deleted, added, counters, Ok)
    requires status' == (if Named([es[j]], name) then Ok else InvalidArgument)
    requires status' == Ok ==> Took(EditFrom(es[j], disk), deleted, added, deleted', added')
    ensures ReadSoFar(es, disk, name, j + 1, k, deleted', added', Updated(counters, es[j]), status')
  {
    hide Comparable, AddedAt, DeletedAt, Numbers, Files, EditFrom, AddedBy, DeletedBy;
    assert [es[j]][0] == es[j];
    NextRecord(es, disk, name, j);
    forall l: nat | l < NUM_LEVELS && Comparable(AddedBy(EditsFrom(es[..k], disk), l)) && status' == Ok
      ensures Files(added'[l]) == AddedBy(EditsFrom(es[..j + 1], disk), l)
      ensures deleted'[l] == DeletedBy(EditsFrom(es[..j + 1], disk), l)
    {
      var all := EditsFrom(es[..k], disk);
      assert all[..j] == EditsFrom(es[..j], disk) && all[..j + 1] == EditsFrom(es[..j + 1], disk);
      Snoc(all, j, l);
      AddedPart(all, j + 1, l);
      ComparableSubset(AddedBy(all[..j + 1], l), AddedBy(all, l));
    }
  }

  // ---- The manifest. ----

  // One record: decode, compare the comparator's name, apply, note the counters.
  method ApplyRecord(record: Data, name: Data, disk: Disk, builder: Builder, counters: Counters)
    returns (counters': Counters, status: Status)
    requires builder.Valid()
    modifies builder
    ensures builder.Valid()
    ensures var d := Manifest.Decode(record, NOTHING);
      && counters' == Updated(counters, d.0)
      && status == (if d.1 != Manifest.Ok then Corruption(d.1.msg) else if Named([d.0], name) then Ok else InvalidArgument)
      && (status == Ok ==> Took(EditFrom(d.0, disk), old(builder.deletedFiles), old(builder.addedFiles),
                                   builder.deletedFiles, builder.addedFiles))
  {
    hide Manifest.Decode, Comparable, AddedAt, DeletedAt, EditWithin, Numbers, Files;
    DecodedWithin(record, disk);
    var edit := new Manifest.EditRecord();
    var decoded := edit.DecodeFrom(record);
    assert [edit.Value()][0] == edit.Value();
    if decoded.Corruption? {
      status := Corruption(decoded.msg);
    } else if edit.comparator.Some? && edit.comparator.value != name {
      assert edit.Value() in [edit.Value()];
      status := InvalidArgument;
    } else {
      status := Ok;
      builder.Apply(EditFrom(edit.Value(), disk));
    }
    counters' := Updated(counters, edit.Value());
  }

  // The loop over the records.
  method ReadRecords(file: Data, name: Data, disk: Disk, builder: Builder, ghost es: seq<Manifest.Edit>)
    returns (counters: Counters, status: Status, ghost j: nat)
    requires EditsFit(es) && builder.Valid()
    requires forall l | 0 <= l < NUM_LEVELS :: builder.deletedFiles[l] == {} && builder.addedFiles[l] == []
    modifies builder
    ensures builder.Valid()
    ensures Prefix(file, Log(RecordsOf(es))) ==>
      var k := Wholly(0, RecordsOf(es), |file|);
      && j <= k && ReadSoFar(es, disk, name, j, k, builder.deletedFiles, builder.addedFiles, counters, status)
      && (status == Ok ==> j == k)
  {
    hide LogReading.Holds, AllFragments, Layout, Fragments, Log, Prefix, Manifest.Decode, Comparable, ReadSoFar, Took, EditsFit,
         InOrder, Named, CountersOf, EditFrom, Checked, RecordsOf;
    var reader := new Reader(file, true);
    ghost var records := RecordsOf(es);
    ghost var held := Prefix(file, Log(records));
    ghost var pos: nat, k := 0, Wholly(0, records, |file|);
    j := 0;
    if held {
      LogHolds(records, file);
    }
    counters, status := Counters(None, None, None, None), Ok;
    NothingRead(es, disk, name, k, builder.deletedFiles, builder.addedFiles);
    while true
      invariant fresh(reader) && reader.Valid() && builder.Valid()
      invariant j <= k <= |records|
      invariant held ==> k == j + Wholly(pos, records[j..], |file|)
      invariant held ==> reader.Before(pos, AllFragments(pos, records[j..])) && pos + reader.Left() == |file|
      invariant held ==> reader.corruptions == []
      invariant held ==> ReadSoFar(es, disk, name, j, k, builder.deletedFiles, builder.addedFiles, counters, status)
      decreases reader.Left()
    {
      ghost var rest := records[j..];
      var got, record := reader.ReadRecord(pos, rest);
      if status.Ok? && reader.corruptions != [] {
        status := Corruption("corrupted manifest");
      }
      if !got || !status.Ok? {
        break;
      }
      ghost var deleted, added, was := builder.deletedFiles, builder.addedFiles, counters;
      counters, status := ApplyRecord(record, name, disk, builder, counters);
      if held {
        assert rest[0] == records[j] && rest[1..] == records[j + 1..];
        RecordDecodes(es, j);
        ReadMore(es, disk, name, j, k, deleted, added, was, builder.deletedFiles, builder.addedFiles, status);
        pos, j := EndRecord(pos, rest[0]), j + 1;
      }
    }
  }

  lemma AllRead(es: seq<Manifest.Edit>, disk: Disk, name: Data, j: nat, k: nat, deleted: seq<set<nat>>, added: seq<Level>,
                counters: Counters, status: Status)
    requires j <= k <= |es| && |deleted| == |added| == NUM_LEVELS
    requires ReadSoFar(es, disk, name, j, k, deleted, added, counters, status) && (status == Ok ==> j == k)
    ensures status == if Named(es[..k], name) then Ok else InvalidArgument
  {
    hide Comparable;
    assert forall e | e in es[..j] :: e in es[..k];
  }

  // VersionSet::Recover, from the bytes of the manifest.  Of a manifest that holds these records, cut
  // anywhere, it gives the version that the edits read amount to, and the counters.
  method Recover(file: Data, name: Data, disk: Disk, ghost es: seq<Manifest.Edit>)
    returns (v: Version, counters: Counters, status: Status)
    requires EditsFit(es)
    ensures Prefix(file, Log(RecordsOf(es))) ==>
      var got := es[..Wholly(0, RecordsOf(es), |file|)];
      && status == (if Named(got, name) then Checked(CountersOf(got)) else InvalidArgument)
      && (status == Ok ==> counters == CountersOf(got))
      && (status == Ok && (forall l | 0 <= l < NUM_LEVELS :: Comparable(AddedBy(EditsFrom(got, disk), l))) ==>
            Rebuilt(Empty(), EditsFrom(got, disk), v))
  {
    hide LogReading.Holds, AllFragments, Layout, Fragments, Log, Prefix, Comparable, EditsFit,
         InOrder, Named, CountersOf, EditFrom, Checked, RecordsOf, AddedBy, DeletedBy;
    EmptyBase();
    var builder := new Builder(Empty());
    ghost var j;
    counters, status, j := ReadRecords(file, name, disk, builder, es);
    if Prefix(file, Log(RecordsOf(es))) {
      AllRead(es, disk, name, j, Wholly(0, RecordsOf(es), |file|), builder.deletedFiles, builder.addedFiles, counters, status);
    }
    if status.Ok? {
      status := Checked(counters);
    }
    forall l | 0 <= l < NUM_LEVELS
      ensures Comparable(Files(builder.base[l]) + Files(builder.addedFiles[l]))
    {
      OrderCompares(builder.addedFiles[l]);
    }
    v := builder.SaveTo();
  }

  lemma EmptyBase()
    ensures forall l | 0 <= l < NUM_LEVELS :: Empty()[l] == []
    ensures InOrder([]) && Files([]) == {}
  {
  }

  lemma OrderCompares(fs: Level)
    requires InOrder(fs)
    ensures Comparable({} + Files(fs))
  {
  }

  // ---- The first record: a snapshot of a version. ----

  function Tagged<T>(l: nat, fs: seq<T>): seq<(nat, T)> {
    seq(|fs|, i requires 0 <= i < |fs| => (l, fs[i]))
  }

  function AllTagged<T>(v: seq<seq<T>>, n: nat): seq<(nat, T)>
    requires n <= |v|
  {
    if n == 0 then [] else AllTagged(v, n - 1) + Tagged(n - 1, v[n - 1])
  }

  function SnapshotEdit(v: Version): VersionEdit {
    VersionEdit({}, AllTagged(v, |v|))
  }

  function LevelsFrom(levels: seq<seq<Manifest.FileMetaData>>, disk: Disk): (v: Version)
    ensures |v| == |levels|
  {
    seq(|levels|, l requires 0 <= l < |levels| => FilesFrom(levels[l], disk))
  }

  function FilesFrom(files: seq<Manifest.FileMetaData>, disk: Disk): Level {
    seq(|files|, i requires 0 <= i < |files| => FileFrom(files[i], disk))
  }

  // WriteSnapshot, up to its encoding: the files of every level, one after another.
  method WriteSnapshot(name: Data, pointers: seq<(nat, Data)>, levels: seq<seq<Manifest.FileMetaData>>, ghost disk: Disk)
    returns (e: Manifest.Edit)
    ensures e.comparator == Some(name) && e.compactPointers == pointers && e.deletedFiles == []
    ensures EditFrom(e, disk) == SnapshotEdit(LevelsFrom(levels, disk))
  {
    var added: seq<(nat, Manifest.FileMetaData)> := [];
    for l := 0 to |levels|
      invariant added == AllTagged(levels, l)
    {
      ghost var was := added;
      for i := 0 to |levels[l]|
        invariant added == was + Tagged(l, levels[l][..i])
      {
        assert levels[l][..i + 1] == levels[l][..i] + [levels[l][i]];
        added := added + [(l, levels[l][i])];
      }
      assert levels[l][..|levels[l]|] == levels[l];
    }
    e := Manifest.Edit(Some(name), None, None, None, None, pointers, [], added);
    TaggedFrom(levels, |levels|, disk);
  }

  lemma AddedFromParts(a: seq<(nat, Manifest.FileMetaData)>, l: nat, fs: seq<Manifest.FileMetaData>, disk: Disk)
    ensures AddedFrom(a + Tagged(l, fs), disk) == AddedFrom(a, disk) + Tagged(l, FilesFrom(fs, disk))
  {
    hide FileFrom;
  }

  lemma {:induction false} TaggedFrom(levels: seq<seq<Manifest.FileMetaData>>, n: nat, disk: Disk)
    requires n <= |levels|
    ensures AddedFrom(AllTagged(levels, n), disk) == AllTagged(LevelsFrom(levels, disk), n)
  {
    hide AddedFrom, Tagged, FilesFrom;
    if n > 0 {
      TaggedFrom(levels, n - 1, disk);
      AddedFromParts(AllTagged(levels, n - 1), n - 1, levels[n - 1], disk);
    } else {
      NothingAddedFrom(disk);
    }
  }

  lemma NothingAddedFrom(disk: Disk)
    ensures AddedFrom([], disk) == []
  {
  }

  lemma {:induction false} TaggedAt(v: Version, n: nat, l: nat)
    requires n <= |v|
    ensures AddedIn(AllTagged(v, n), l) == if l < n then Files(v[l]) else {}
  {
    if n > 0 {
      TaggedAt(v, n - 1, l);
      var a, b := AllTagged(v, n - 1), Tagged(n - 1, v[n - 1]);
      assert AddedIn(a + b, l) == AddedIn(a, l) + AddedIn(b, l);
      forall f
        ensures f in AddedIn(b, l) <==> l == n - 1 && f in Files(v[n - 1])
      {
        if l == n - 1 && f in v[l] {
          var i :| 0 <= i < |v[l]| && v[l][i] == f;
          assert b[i] == (l, f);
        }
      }
    }
  }

  // A snapshot and edits after it, from nothing, are the edits from the version of the snapshot.
  lemma {:induction false} SnapshotFirst(base: Version, edits: seq<VersionEdit>, l: nat)
    requires l < |base|
    ensures AddedBy([SnapshotEdit(base)] + edits, l) == Files(base[l]) + AddedBy(edits, l)
    ensures DeletedBy([SnapshotEdit(base)] + edits, l) == DeletedBy(edits, l)
    decreases |edits|
  {
    var all := [SnapshotEdit(base)] + edits;
    if edits == [] {
      assert all[..0] == [] && all == [SnapshotEdit(base)];
      TaggedAt(base, |base|, l);
      assert DeletedAt(SnapshotEdit(base), l) == {};
    } else {
      var n := |edits| - 1;
      assert all[..n + 1] == [SnapshotEdit(base)] + edits[..n];
      SnapshotFirst(base, edits[..n], l);
    }
  }

  lemma SnapshotRebuilds(base: Version, edits: seq<VersionEdit>, v: Version)
    requires |base| == NUM_LEVELS
    ensures Rebuilt(Empty(), [SnapshotEdit(base)] + edits, v) <==> Rebuilt(base, edits, v)
  {
    hide InOrder, AddedBy, DeletedBy, SnapshotEdit, Files;
    EmptyBase();
    forall l | 0 <= l < NUM_LEVELS
      ensures AddedBy([SnapshotEdit(base)] + edits, l) == Files(base[l]) + AddedBy(edits, l)
      ensures DeletedBy([SnapshotEdit(base)] + edits, l) == DeletedBy(edits, l)
    {
      SnapshotFirst(base, edits, l);
    }
  }
}
