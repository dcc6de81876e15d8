// Applying edits to the list of files (db/version_set.cc, class VersionSet::Builder).

module VersionEdits {
  import opened Keys
  import opened Versions

  // The (level, number) pairs a VersionEdit deletes and the (level, file) pairs it adds.
  datatype VersionEdit = VersionEdit(deleted: set<(nat, nat)>, added: seq<(nat, File)>)

  predicate EditWithin(e: VersionEdit) {
    (forall d | d in e.deleted :: d.0 < NUM_LEVELS) && (forall p | p in e.added :: p.0 < NUM_LEVELS)
  }

  // BySmallestKey: by first key, ties broken by file number.
  predicate BySmallestKey(f: File, g: File) {
    Less(f.smallest, g.smallest) || (!Less(g.smallest, f.smallest) && f.number < g.number)
  }

  ghost predicate InOrder(fs: Level) {
    forall i, j :: 0 <= i < j < |fs| ==> BySmallestKey(fs[i], fs[j])
  }

  ghost function Files(fs: Level): set<File> {
    set f | f in fs
  }

  ghost function AddedIn(added: seq<(nat, File)>, l: nat): set<File> {
    set p | p in added && p.0 == l :: p.1
  }

  ghost function AddedAt(e: VersionEdit, l: nat): set<File> {
    AddedIn(e.added, l)
  }

  ghost function DeletedAt(e: VersionEdit, l: nat): set<nat> {
    set d | d in e.deleted && d.0 == l :: d.1
  }

  ghost function Numbers(fs: set<File>): set<nat> {
    set f | f in fs :: f.number
  }

  // The numbers an edit takes away: those it adds in the same breath stay.
  ghost function TakenAway(e: VersionEdit, l: nat): set<nat> {
    DeletedAt(e, l) - Numbers(AddedAt(e, l))
  }

  // What one edit makes of the files of a level.
  ghost function LevelAfter(files: set<File>, e: VersionEdit, l: nat): set<File> {
    Kept(files + AddedAt(e, l), TakenAway(e, l))
  }

  // std::set::insert into a level's added files: of two files that compare alike the first stays.
  method InsertFile(fs: Level, f: File) returns (r: Level)
    requires InOrder(fs)
    ensures InOrder(r)
    ensures Comparable(Files(fs) + {f}) ==> Files(r) == Files(fs) + {f}
  {
    var i := 0;
    while i < |fs| && BySmallestKey(fs[i], f)
      invariant 0 <= i <= |fs|
      invariant forall j | 0 <= j < i :: BySmallestKey(fs[j], f)
    {
      i := i + 1;
    }
    if i < |fs| && !BySmallestKey(f, fs[i]) {
      assert fs[i] in Files(fs);
      r := fs;
    } else {
      r := fs[..i] + [f] + fs[i..];
      InsertedInOrder(fs, f, i);
    }
  }

  lemma InsertedInOrder(fs: Level, f: File, i: nat)
    requires InOrder(fs) && i <= |fs| && forall j | 0 <= j < i :: BySmallestKey(fs[j], f)
    requires i < |fs| ==> BySmallestKey(f, fs[i])
    ensures var r := fs[..i] + [f] + fs[i..]; InOrder(r) && Files(r) == Files(fs) + {f}
  {
    var r := fs[..i] + [f] + fs[i..];
    assert forall g :: g in fs <==> g in fs[..i] || g in fs[i..];
    forall a, b | 0 <= a < b < |r|
      ensures BySmallestKey(r[a], r[b])
    {
      if a == i && b > i + 1 {
        assert BySmallestKey(fs[i], fs[b - 1]);
      }
    }
  }

  // The files that are not deleted.
  ghost function Kept(files: set<File>, deleted: set<nat>): set<File> {
    set f | f in files && f.number !in deleted
  }

  ghost predicate Comparable(fs: set<File>) {
    forall f, g | f in fs && g in fs && f != g :: BySmallestKey(f, g) || BySmallestKey(g, f)
  }

  lemma FilesSnoc(fs: Level, i: nat)
    requires i < |fs|
    ensures Files(fs[..i + 1]) == Files(fs[..i]) + {fs[i]}
  {
    assert fs[..i + 1] == fs[..i] + [fs[i]];
  }

  ghost predicate AllPrecede(out: Level, rest: Level) {
    forall f, g | f in out && g in rest :: BySmallestKey(f, g)
  }

  function MaybeAddFile(out: Level, f: File, deleted: set<nat>): Level {
    if f.number in deleted then out else out + [f]
  }

  lemma MaybeAddKeeps(out: Level, saved: set<File>, f: File, deleted: set<nat>)
    requires InOrder(out) && Files(out) == Kept(saved, deleted)
    requires AllPrecede(out, [f])
    ensures var r := MaybeAddFile(out, f, deleted); InOrder(r) && Files(r) == Kept(saved + {f}, deleted)
  {
    assert f in [f];
    var r := MaybeAddFile(out, f, deleted);
    assert f.number !in deleted ==> Files(r) == Files(out) + {f};
  }

  lemma MaybeAddPrecedes(out: Level, f: File, deleted: set<nat>, rest: Level, rest': Level)
    requires AllPrecede(out, rest)
    requires forall g | g in rest' :: g in rest && BySmallestKey(f, g)
    ensures AllPrecede(MaybeAddFile(out, f, deleted), rest')
  {
  }

  // SaveTo for one level: merge the added files into the base, leaving out the deleted.
  method SaveLevel(base: Level, added: Level, deleted: set<nat>) returns (out: Level)
    requires InOrder(base) && InOrder(added)
    requires Files(base) !! Files(added) && Comparable(Files(base) + Files(added))
    ensures InOrder(out) && Files(out) == Kept(Files(base) + Files(added), deleted)
  {
    out := [];
    var b, a := 0, 0;
    while a < |added|
      invariant 0 <= a <= |added| && 0 <= b <= |base|
      invariant InOrder(out) && Files(out) == Kept(Files(base[..b]) + Files(added[..a]), deleted)
      invariant AllPrecede(out, base[b..]) && AllPrecede(out, added[a..])
    {
      while b < |base| && !BySmallestKey(added[a], base[b])
        invariant 0 <= b <= |base|
        invariant InOrder(out) && Files(out) == Kept(Files(base[..b]) + Files(added[..a]), deleted)
        invariant AllPrecede(out, base[b..]) && AllPrecede(out, added[a..])
      {
        BaseFileFirst(base, added, a, b);
        out := SaveOne(out, base, b, added, a, deleted);
        b := b + 1;
      }
      AddedFileFirst(base, added, a, b);
      FilesSnoc(added, a);
      out := SaveOne(out, added, a, base, b, deleted);
      a := a + 1;
    }
    assert added[..|added|] == added;
    while b < |base|
      invariant 0 <= b <= |base|
      invariant InOrder(out) && Files(out) == Kept(Files(base[..b]) + Files(added), deleted)
      invariant AllPrecede(out, base[b..])
    {
      BaseFileFirst(base, [], 0, b);
      assert added[..|added|] == added && added[|added|..] == [];
      out := SaveOne(out, base, b, added, |added|, deleted);
      b := b + 1;
    }
    assert base[..|base|] == base;
  }

  // Move the next file of one list over.
  method SaveOne(out: Level, from: Level, i: nat, other: Level, j: nat, deleted: set<nat>) returns (r: Level)
    requires i < |from| && j <= |other|
    requires InOrder(out) && Files(out) == Kept(Files(from[..i]) + Files(other[..j]), deleted)
    requires AllPrecede(out, from[i..]) && AllPrecede(out, other[j..])
    requires AllPrecede([from[i]], from[i + 1..]) && AllPrecede([from[i]], other[j..])
    ensures InOrder(r) && Files(r) == Kept(Files(from[..i + 1]) + Files(other[..j]), deleted)
    ensures AllPrecede(r, from[i + 1..]) && AllPrecede(r, other[j..])
  {
    var f := from[i];
    assert f in from[i..] && f in [f];
    FilesSnoc(from, i);
    MaybeAddKeeps(out, Files(from[..i]) + Files(other[..j]), f, deleted);
    assert Files(from[..i + 1]) + Files(other[..j]) == Files(from[..i]) + Files(other[..j]) + {f};
    assert from[i..] == [f] + from[i + 1..];
    MaybeAddPrecedes(out, f, deleted, from[i..], from[i + 1..]);
    MaybeAddPrecedes(out, f, deleted, other[j..], other[j..]);
    r := MaybeAddFile(out, f, deleted);
  }

  lemma BaseFileFirst(base: Level, added: Level, a: nat, b: nat)
    requires InOrder(base) && InOrder(added) && a <= |added| && b < |base|
    requires Files(base) !! Files(added) && Comparable(Files(base) + Files(added))
    requires a < |added| ==> !BySmallestKey(added[a], base[b])
    ensures AllPrecede([base[b]], base[b + 1..]) && AllPrecede([base[b]], added[a..])
  {
    assert base[b] in Files(base);
    forall g | g in added[a..]
      ensures BySmallestKey(base[b], g)
    {
      assert added[a] in Files(added);
      var j :| a <= j < |added| && added[j] == g;
    }
  }

  lemma AddedFileFirst(base: Level, added: Level, a: nat, b: nat)
    requires InOrder(base) && InOrder(added) && a < |added| && b <= |base|
    requires b < |base| ==> BySmallestKey(added[a], base[b])
    ensures AllPrecede([added[a]], base[b..]) && AllPrecede([added[a]], added[a + 1..])
  {
    forall g | g in base[b..]
      ensures BySmallestKey(added[a], g)
    {
      var j :| b <= j < |base| && base[j] == g;
    }
  }

  class Builder {
    const base: Version
    var deletedFiles: seq<set<nat>>
    var addedFiles: seq<Level>

    ghost predicate Valid()
      reads this
    {
      && |base| == NUM_LEVELS && |deletedFiles| == NUM_LEVELS && |addedFiles| == NUM_LEVELS
      && (forall l | 0 <= l < NUM_LEVELS :: InOrder(base[l]) && InOrder(addedFiles[l]))
    }

    constructor (v: Version)
      requires |v| == NUM_LEVELS && forall l | 0 <= l < NUM_LEVELS :: InOrder(v[l])
      ensures Valid() && base == v
      ensures forall l | 0 <= l < NUM_LEVELS :: deletedFiles[l] == {} && addedFiles[l] == []
    {
      base := v;
      deletedFiles := seq(NUM_LEVELS, _ => {});
      addedFiles := seq(NUM_LEVELS, _ => []);
    }

    method AddFile(level: nat, f: File)
      requires Valid() && level < NUM_LEVELS
      modifies this
      ensures Valid()
      ensures deletedFiles == old(deletedFiles)[level := old(deletedFiles)[level] - {f.number}]
      ensures addedFiles == old(addedFiles)[level := addedFiles[level]]
      ensures Comparable(Files(old(addedFiles)[level]) + {f}) ==>
                Files(addedFiles[level]) == Files(old(addedFiles)[level]) + {f}
    {
      deletedFiles := deletedFiles[level := deletedFiles[level] - {f.number}];
      var fs := InsertFile(addedFiles[level], f);
      addedFiles := addedFiles[level := fs];
    }

    method MarkDeleted(e: VersionEdit)
      requires Valid() && EditWithin(e)
      modifies `deletedFiles
      ensures Valid()
      ensures forall l | 0 <= l < NUM_LEVELS :: deletedFiles[l] == old(deletedFiles)[l] + DeletedAt(e, l)
    {
      var marked := [];
      for level := 0 to NUM_LEVELS
        invariant |marked| == level && Valid()
        invariant forall l | 0 <= l < level :: marked[l] == deletedFiles[l] + DeletedAt(e, l)
      {
        marked := marked + [deletedFiles[level] + (set d | d in e.deleted && d.0 == level :: d.1)];
      }
      deletedFiles := marked;
    }

    method AddFiles(e: VersionEdit)
      requires Valid() && EditWithin(e)
      modifies this
      ensures Valid()
      ensures forall l | 0 <= l < NUM_LEVELS && Comparable(Files(old(addedFiles)[l]) + AddedAt(e, l)) ::
                Files(addedFiles[l]) == Files(old(addedFiles)[l]) + AddedAt(e, l)
      ensures forall l | 0 <= l < NUM_LEVELS ::
                deletedFiles[l] == old(deletedFiles)[l] - Numbers(AddedAt(e, l))
    {
      hide InOrder, Comparable, AddedIn, Numbers, Files;
      NothingAdded();
      for i := 0 to |e.added|
        invariant Valid()
        invariant forall l | 0 <= l < NUM_LEVELS && Comparable(Files(old(addedFiles)[l]) + AddedAt(e, l)) ::
                    Files(addedFiles[l]) == Files(old(addedFiles)[l]) + AddedIn(e.added[..i], l)
        invariant forall l | 0 <= l < NUM_LEVELS ::
                    deletedFiles[l] == old(deletedFiles)[l] - Numbers(AddedIn(e.added[..i], l))
      {
        var level, f := e.added[i].0, e.added[i].1;
        AddedSnoc(e.added, i);
        AddedPrefix(e, i);
        if Comparable(Files(old(addedFiles)[level]) + AddedAt(e, level)) {
          ComparableSubset(Files(addedFiles[level]) + {f}, Files(old(addedFiles)[level]) + AddedAt(e, level));
        }
        AddFile(level, f);
      }
      assert e.added[..|e.added|] == e.added;
    }

    method Apply(e: VersionEdit)
      requires Valid() && EditWithin(e)
      modifies this
      ensures Valid()
      ensures forall l | 0 <= l < NUM_LEVELS && Comparable(Files(old(addedFiles)[l]) + AddedAt(e, l)) ::
                Files(addedFiles[l]) == Files(old(addedFiles)[l]) + AddedAt(e, l)
      ensures forall l | 0 <= l < NUM_LEVELS ::
                deletedFiles[l] == old(deletedFiles)[l] + DeletedAt(e, l) - Numbers(AddedAt(e, l))
    {
      MarkDeleted(e);
      AddFiles(e);
    }

    method SaveTo() returns (v: Version)
      requires Valid()
      requires forall l | 0 <= l < NUM_LEVELS ::
                 Files(base[l]) !! Files(addedFiles[l]) && Comparable(Files(base[l]) + Files(addedFiles[l]))
      ensures |v| == NUM_LEVELS
      ensures forall l | 0 <= l < NUM_LEVELS ::
                InOrder(v[l]) && Files(v[l]) == Kept(Files(base[l]) + Files(addedFiles[l]), deletedFiles[l])
    {
      v := [];
      for level := 0 to NUM_LEVELS
        invariant |v| == level
        invariant forall l | 0 <= l < level ::
                    InOrder(v[l]) && Files(v[l]) == Kept(Files(base[l]) + Files(addedFiles[l]), deletedFiles[l])
      {
        var out := SaveLevel(base[level], addedFiles[level], deletedFiles[level]);
        v := v + [out];
      }
    }
  }

  lemma AddedSnoc(added: seq<(nat, File)>, i: nat)
    requires i < |added|
    ensures forall l: nat :: AddedIn(added[..i + 1], l) ==
                             AddedIn(added[..i], l) + (if added[i].0 == l then {added[i].1} else {})
    ensures forall l: nat :: Numbers(AddedIn(added[..i + 1], l)) ==
                             Numbers(AddedIn(added[..i], l)) + (if added[i].0 == l then {added[i].1.number} else {})
  {
    assert added[..i + 1] == added[..i] + [added[i]];
    forall l: nat
      ensures AddedIn(added[..i + 1], l) ==
              AddedIn(added[..i], l) + (if added[i].0 == l then {added[i].1} else {})
      ensures Numbers(AddedIn(added[..i + 1], l)) ==
              Numbers(AddedIn(added[..i], l)) + (if added[i].0 == l then {added[i].1.number} else {})
    {
      assert added[i] in added[..i + 1];
    }
  }

  lemma ComparableSubset(S: set<File>, T: set<File>)
    requires S <= T && Comparable(T)
    ensures Comparable(S)
  {
  }

  lemma NothingAdded()
    ensures forall l: nat :: AddedIn([], l) == {}
    ensures Numbers({}) == {}
  {
  }

  lemma AddedPrefix(e: VersionEdit, i: nat)
    requires i < |e.added|
    ensures AddedIn(e.added[..i], e.added[i].0) + {e.added[i].1} <= AddedAt(e, e.added[i].0)
  {
  }

  // The deleted numbers and added files a builder ends up with after some edits.
  ghost function DeletedBy(edits: seq<VersionEdit>, l: nat): set<nat> {
    if edits == [] then {}
    else
      var n := |edits| - 1;
      DeletedBy(edits[..n], l) + DeletedAt(edits[n], l) - Numbers(AddedAt(edits[n], l))
  }

  ghost function AddedBy(edits: seq<VersionEdit>, l: nat): set<File> {
    if edits == [] then {} else AddedBy(edits[..|edits| - 1], l) + AddedAt(edits[|edits| - 1], l)
  }

  // Saving a version after every edit.
  ghost function Replay(files: set<File>, edits: seq<VersionEdit>, l: nat): set<File> {
    if edits == [] then files else LevelAfter(Replay(files, edits[..|edits| - 1], l), edits[|edits| - 1], l)
  }

  // A file number enters the level at most once.
  ghost predicate EntersOnce(files: set<File>, edits: seq<VersionEdit>, l: nat) {
    edits != [] ==>
      var n := |edits| - 1;
      && EntersOnce(files, edits[..n], l)
      && Numbers(AddedAt(edits[n], l)) !! Numbers(files + AddedBy(edits[..n], l))
  }

  // The last edit that deletes the number and does not add it, -1 if there is none.
  ghost function LastDeletion(edits: seq<VersionEdit>, number: nat, l: nat): (i: int)
    ensures -1 <= i < |edits|
  {
    if edits == [] then -1
    else if number in TakenAway(edits[|edits| - 1], l) then |edits| - 1
    else LastDeletion(edits[..|edits| - 1], number, l)
  }

  // What edit i and those after it add.
  ghost function AddedSince(edits: seq<VersionEdit>, i: int, l: nat): set<File> {
    if edits == [] || |edits| <= i then {}
    else AddedSince(edits[..|edits| - 1], i, l) + AddedAt(edits[|edits| - 1], l)
  }

  // The file was deleted, and its number has come back since without it.
  ghost predicate Stale(files: set<File>, edits: seq<VersionEdit>, l: nat, f: File) {
    var i := LastDeletion(edits, f.number, l);
    && i >= 0 && f in files + AddedBy(edits[..i], l)
    && f !in AddedSince(edits, i, l) && f.number in Numbers(AddedSince(edits, i, l))
  }

  lemma {:induction false} InReplay(files: set<File>, edits: seq<VersionEdit>, l: nat, f: File)
    ensures var i := LastDeletion(edits, f.number, l);
      f in Replay(files, edits, l) <==> f in if i < 0 then files + AddedBy(edits, l) else AddedSince(edits, i, l)
  {
    if edits != [] {
      var n := |edits| - 1;
      InReplay(files, edits[..n], l, f);
      if f.number in TakenAway(edits[n], l) {
        assert AddedSince(edits[..n], n, l) == {};
      }
    }
  }

  lemma {:induction false} InDeleted(edits: seq<VersionEdit>, l: nat, number: nat)
    ensures var i := LastDeletion(edits, number, l);
      number in DeletedBy(edits, l) <==> i >= 0 && number !in Numbers(AddedSince(edits, i, l))
  {
    if edits != [] {
      var n := |edits| - 1;
      InDeleted(edits[..n], l, number);
      var i := LastDeletion(edits, number, l);
      if i >= 0 {
        NumbersUnion(AddedSince(edits[..n], i, l), AddedAt(edits[n], l));
      }
      if i == n {
        assert AddedSince(edits[..n], n, l) == {};
      }
    }
  }

  lemma NumbersUnion(A: set<File>, B: set<File>)
    ensures Numbers(A + B) == Numbers(A) + Numbers(B)
  {
    forall n
      ensures n in Numbers(A + B) <==> n in Numbers(A) + Numbers(B)
    {
      if n in Numbers(A) {
        var f :| f in A && f.number == n;
        assert f in A + B;
      }
      if n in Numbers(B) {
        var f :| f in B && f.number == n;
        assert f in A + B;
      }
    }
  }

  lemma {:induction false} AddedSplit(edits: seq<VersionEdit>, i: nat, l: nat)
    requires i <= |edits|
    ensures AddedBy(edits, l) == AddedBy(edits[..i], l) + AddedSince(edits, i, l)
    decreases |edits|
  {
    if i == |edits| {
      assert edits[..i] == edits;
    } else {
      var n := |edits| - 1;
      AddedSplit(edits[..n], i, l);
      assert edits[..n][..i] == edits[..i];
    }
  }

  lemma BothOrStale(files: set<File>, edits: seq<VersionEdit>, l: nat, f: File)
    ensures f in Replay(files, edits, l) ==> f in Kept(files + AddedBy(edits, l), DeletedBy(edits, l))
    ensures f in Kept(files + AddedBy(edits, l), DeletedBy(edits, l)) && f !in Replay(files, edits, l)
            <==> Stale(files, edits, l, f)
  {
    InReplay(files, edits, l, f);
    InDeleted(edits, l, f.number);
    var i := LastDeletion(edits, f.number, l);
    if i >= 0 {
      AddedSplit(edits, i, l);
      if f in AddedSince(edits, i, l) {
        assert f.number in Numbers(AddedSince(edits, i, l));
      }
    }
  }

  // One builder over many edits saves the files that saving after every edit leaves, exactly if
  // none of them goes stale.
  lemma OneBuilderReplays(files: set<File>, edits: seq<VersionEdit>, l: nat)
    ensures Kept(files + AddedBy(edits, l), DeletedBy(edits, l)) == Replay(files, edits, l)
            <==> forall f :: !Stale(files, edits, l, f)
  {
    hide Kept, AddedBy, DeletedBy, Replay, Stale;
    forall f
      ensures f in Replay(files, edits, l) ==> f in Kept(files + AddedBy(edits, l), DeletedBy(edits, l))
      ensures f in Kept(files + AddedBy(edits, l), DeletedBy(edits, l)) && f !in Replay(files, edits, l)
              <==> Stale(files, edits, l, f)
    {
      BothOrStale(files, edits, l, f);
    }
  }

  // As long as no number comes back, one builder over many edits saves the files that saving
  // after every edit leaves.
  lemma {:induction false} EnteringOnceReplays(files: set<File>, edits: seq<VersionEdit>, l: nat)
    requires EntersOnce(files, edits, l)
    ensures Kept(files + AddedBy(edits, l), DeletedBy(edits, l)) == Replay(files, edits, l)
  {
    if edits != [] {
      var n := |edits| - 1;
      EnteringOnceReplays(files, edits[..n], l);
      var seen, added := files + AddedBy(edits[..n], l), AddedAt(edits[n], l);
      forall f | f in seen
        ensures f.number !in Numbers(added)
      {
        assert f.number in Numbers(seen);
      }
      assert forall f | f in added :: f.number in Numbers(added);
    }
  }

  // Without that, a number deleted and added again brings the old file back.
  lemma ReenteredNumberDiffers(f: File, g: File, l: nat)
    requires f != g && f.number == g.number
    ensures var edits := [VersionEdit({(l, f.number)}, []), VersionEdit({}, [(l, g)])];
            Replay({f}, edits, l) == {g} && f in Kept({f} + AddedBy(edits, l), DeletedBy(edits, l))
  {
    var e1, e2 := VersionEdit({(l, f.number)}, []), VersionEdit({}, [(l, g)]);
    var edits := [e1, e2];
    assert edits[..1] == [e1] && [e1][..0] == [];
    assert (l, f.number) in e1.deleted;
    assert f.number in DeletedAt(e1, l) && AddedAt(e1, l) == {};
    assert (l, g) in e2.added;
    assert AddedAt(e2, l) == {g};
    assert Replay({f}, [e1], l) == {};
    assert g.number in Numbers(AddedAt(e2, l));
  }
}
