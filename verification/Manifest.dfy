// A version edit as a record of the manifest (db/version_edit.cc).

module Manifest {
  import opened Sequences
  import opened Bits
  import opened Coding
  import opened History

  datatype FileMetaData = FileMetaData(number: nat, size: nat, smallest: Data, largest: Data)

  datatype Edit = Edit(comparator: Option<Data>, logNumber: Option<nat>, prevLogNumber: Option<nat>,
                       nextFileNumber: Option<nat>, lastSequence: Option<nat>,
                       compactPointers: seq<(nat, Data)>,
                       // A sorted set of level and number.
                       deletedFiles: seq<(nat, nat)>,
                       newFiles: seq<(nat, FileMetaData)>)

  // One tagged field of the record.
  datatype Item =
    | Comparator(name: Data)
    | LogNumber(n: nat)
    | NextFileNumber(n: nat)
    | LastSequence(n: nat)
    | CompactPointer(level: nat, key: Data)
    | DeletedFile(level: nat, number: nat)
    | NewFile(level: nat, file: FileMetaData)
    | PrevLogNumber(n: nat)

  datatype Status = Ok | Corruption(msg: string)

  // ---- Widths: levels below kNumLevels, 64-bit numbers, strings with 32-bit lengths. ----

  predicate FileFits(f: FileMetaData) {
    f.number < TWO_64 && f.size < TWO_64 && |f.smallest| < TWO_32 && |f.largest| < TWO_32
  }

  predicate ItemFits(i: Item) {
    match i
    case Comparator(name) => |name| < TWO_32
    case CompactPointer(level, key) => level < 7 && |key| < TWO_32
    case DeletedFile(level, number) => level < 7 && number < TWO_64
    case NewFile(level, file) => level < 7 && FileFits(file)
    case _ => i.n < TWO_64
  }

  predicate Before(a: (nat, nat), b: (nat, nat)) {
    a.0 < b.0 || (a.0 == b.0 && a.1 < b.1)
  }

  ghost predicate EditFits(e: Edit) {
    && (forall i | i in Items(e) :: ItemFits(i))
    && Ascending(e.deletedFiles)
  }

  // ---- Encoding. ----

  function TagOf(i: Item): (r: nat)
    ensures 1 <= r <= 9
  {
    match i
    case Comparator(_) => 1
    case LogNumber(_) => 2
    case NextFileNumber(_) => 3
    case LastSequence(_) => 4
    case CompactPointer(_, _) => 5
    case DeletedFile(_, _) => 6
    case NewFile(_, _) => 7
    case PrevLogNumber(_) => 9
  }

  function FileBytes(f: FileMetaData): Data
    requires FileFits(f)
  {
    Varint(f.number) + (Varint(f.size) + (Prefixed(f.smallest) + Prefixed(f.largest)))
  }

  function Payload(i: Item): Data
    requires ItemFits(i)
  {
    match i
    case Comparator(name) => Prefixed(name)
    case CompactPointer(level, key) => EncodeVarint32(level) + Prefixed(key)
    case DeletedFile(level, number) => EncodeVarint32(level) + Varint(number)
    case NewFile(level, file) => EncodeVarint32(level) + FileBytes(file)
    case _ => Varint(i.n)
  }

  function ItemBytes(i: Item): Data
    requires ItemFits(i)
  {
    EncodeVarint32(TagOf(i)) + Payload(i)
  }

  function Encoded(items: seq<Item>): Data
    requires forall i | i in items :: ItemFits(i)
  {
    if items == [] then [] else ItemBytes(items[0]) + Encoded(items[1..])
  }

  function Name(x: Option<Data>): seq<Item> {
    if x.None? then [] else [Comparator(x.value)]
  }

  function Log(x: Option<nat>): seq<Item> {
    if x.None? then [] else [LogNumber(x.value)]
  }

  function PrevLog(x: Option<nat>): seq<Item> {
    if x.None? then [] else [PrevLogNumber(x.value)]
  }

  function NextFile(x: Option<nat>): seq<Item> {
    if x.None? then [] else [NextFileNumber(x.value)]
  }

  function Last(x: Option<nat>): seq<Item> {
    if x.None? then [] else [LastSequence(x.value)]
  }

  function Pointers(s: seq<(nat, Data)>): seq<Item> {
    seq(|s|, i requires 0 <= i < |s| => CompactPointer(s[i].0, s[i].1))
  }

  function Deletions(s: seq<(nat, nat)>): seq<Item> {
    seq(|s|, i requires 0 <= i < |s| => DeletedFile(s[i].0, s[i].1))
  }

  function Additions(s: seq<(nat, FileMetaData)>): seq<Item> {
    seq(|s|, i requires 0 <= i < |s| => NewFile(s[i].0, s[i].1))
  }

  // The fields that are there, in the order they are written.
  function Heads(e: Edit): seq<Item> {
    Name(e.comparator) + Log(e.logNumber) + PrevLog(e.prevLogNumber) + NextFile(e.nextFileNumber) + Last(e.lastSequence)
  }

  function Items(e: Edit): seq<Item> {
    Heads(e) + Pointers(e.compactPointers) + Deletions(e.deletedFiles) + Additions(e.newFiles)
  }

  // ---- Decoding. ----

  function ReadLevel(input: Data): (r: Option<(nat, Data)>)
    ensures r.Some? ==> |r.value.1| < |input|
  {
    match ReadVarint32(input)
    case None => None
    case Some(v) => if v.0 < 7 then Some(v) else None
  }

  function ReadFile(input: Data): (r: Option<(FileMetaData, Data)>)
    ensures r.Some? ==> |r.value.1| < |input|
  {
    match ReadVarint64(input)
    case None => None
    case Some(n) =>
      match ReadVarint64(n.1)
      case None => None
      case Some(z) =>
        match ReadPrefixed(z.1)
        case None => None
        case Some(s) =>
          match ReadPrefixed(s.1)
          case None => None
          case Some(l) => Some((FileMetaData(n.0, z.0, s.0, l.0), l.1))
  }

  function Map<A, B>(x: Option<(A, Data)>, f: A -> B): Option<(B, Data)> {
    if x.None? then None else Some((f(x.value.0), x.value.1))
  }

  // What follows a tag.
  function ReadPayload(tag: nat, input: Data): (r: Option<(Item, Data)>)
    ensures r.Some? ==> |r.value.1| < |input|
  {
    if tag == 1 then Map(ReadPrefixed(input), (x: Data) => Comparator(x))
    else if tag == 2 then Map(ReadVarint64(input), (x: nat) => LogNumber(x))
    else if tag == 9 then Map(ReadVarint64(input), (x: nat) => PrevLogNumber(x))
    else if tag == 3 then Map(ReadVarint64(input), (x: nat) => NextFileNumber(x))
    else if tag == 4 then Map(ReadVarint64(input), (x: nat) => LastSequence(x))
    else if tag == 5 || tag == 6 || tag == 7 then
      match ReadLevel(input)
      case None => None
      case Some(l) =>
        if tag == 5 then Map(ReadPrefixed(l.1), (x: Data) => CompactPointer(l.0, x))
        else if tag == 6 then Map(ReadVarint64(l.1), (x: nat) => DeletedFile(l.0, x))
        else Map(ReadFile(l.1), (x: FileMetaData) => NewFile(l.0, x))
    else None
  }

  function Message(tag: nat): string {
    if tag == 1 then "comparator name" else if tag == 2 then "log number" else if tag == 9 then "previous log number"
    else if tag == 3 then "next file number" else if tag == 4 then "last sequence number"
    else if tag == 5 then "compaction pointer" else if tag == 6 then "deleted file" else if tag == 7 then "new-file entry"
    else "unknown tag"
  }

  function InsertFile(s: seq<(nat, nat)>, x: (nat, nat)): seq<(nat, nat)> {
    if s == [] || Before(x, s[0]) then [x] + s
    else if s[0] == x then s
    else [s[0]] + InsertFile(s[1..], x)
  }

  function Apply(e: Edit, i: Item): Edit {
    match i
    case Comparator(name) => e.(comparator := Some(name))
    case LogNumber(n) => e.(logNumber := Some(n))
    case PrevLogNumber(n) => e.(prevLogNumber := Some(n))
    case NextFileNumber(n) => e.(nextFileNumber := Some(n))
    case LastSequence(n) => e.(lastSequence := Some(n))
    case CompactPointer(level, key) => e.(compactPointers := e.compactPointers + [(level, key)])
    case DeletedFile(level, number) => e.(deletedFiles := InsertFile(e.deletedFiles, (level, number)))
    case NewFile(level, file) => e.(newFiles := e.newFiles + [(level, file)])
  }

  // Clear() leaves the compaction pointers as they are.
  function Cleared(e: Edit): Edit {
    Edit(None, None, None, None, None, e.compactPointers, [], [])
  }

  // Field after field, as long as there is another tag.
  function Decode(input: Data, e: Edit): (Edit, Status)
    decreases |input|
  {
    match ReadVarint32(input)
    case None => (e, if input == [] then Ok else Corruption("invalid tag"))
    case Some(t) =>
      match ReadPayload(t.0, t.1)
      case None => (e, Corruption(Message(t.0)))
      case Some(i) => Decode(i.1, Apply(e, i.0))
  }

  // ---- Decoding inverts encoding. ----

  lemma ReadsFile(f: FileMetaData, rest: Data)
    requires FileFits(f)
    ensures ReadFile(FileBytes(f) + rest) == Some((f, rest))
  {
    hide Varint, Prefixed, ReadVarint64, ReadPrefixed;
    var l := Prefixed(f.largest) + rest;
    var s := Prefixed(f.smallest) + l;
    var z := Varint(f.size) + s;
    assert FileBytes(f) + rest == Varint(f.number) + z;
    ReadsVarint64(f.number, z);
    ReadsVarint64(f.size, s);
    ReadsPrefixed(f.smallest, l);
    ReadsPrefixed(f.largest, rest);
  }

  lemma ReadsLevel(level: nat, rest: Data)
    requires level < 7
    ensures ReadLevel(EncodeVarint32(level) + rest) == Some((level, rest))
  {
    hide EncodeVarint32, ReadVarint32;
    ReadsVarint32(level, rest);
  }

  lemma ReadsPayload(i: Item, rest: Data)
    requires ItemFits(i)
    ensures ReadPayload(TagOf(i), Payload(i) + rest) == Some((i, rest))
  {
    hide EncodeVarint32, ReadLevel, Varint, Prefixed, ReadVarint64, ReadPrefixed, ReadFile, FileBytes, FileFits;
    match i {
      case Comparator(name) =>
        ReadsPrefixed(name, rest);
      case CompactPointer(level, key) =>
        Associates(EncodeVarint32(level), Prefixed(key), rest);
        ReadsLevel(level, Prefixed(key) + rest);
        ReadsPrefixed(key, rest);
      case DeletedFile(level, number) =>
        Associates(EncodeVarint32(level), Varint(number), rest);
        ReadsLevel(level, Varint(number) + rest);
        ReadsVarint64(number, rest);
      case NewFile(level, file) =>
        Associates(EncodeVarint32(level), FileBytes(file), rest);
        ReadsLevel(level, FileBytes(file) + rest);
        ReadsFile(file, rest);
      case _ =>
        ReadsVarint64(i.n, rest);
    }
  }

  function Fold(e: Edit, items: seq<Item>): Edit
    decreases |items|
  {
    if items == [] then e else Fold(Apply(e, items[0]), items[1..])
  }

  lemma {:induction false} DecodesAll(items: seq<Item>, e: Edit)
    requires forall i | i in items :: ItemFits(i)
    ensures Decode(Encoded(items), e) == (Fold(e, items), Ok)
    decreases |items|
  {
    hide EncodeVarint32, ReadVarint32, ReadPayload, Payload, Apply, TagOf;
    if items == [] {
      NothingRead();
    } else {
      var i, more := items[0], Encoded(items[1..]);
      Associates(EncodeVarint32(TagOf(i)), Payload(i), more);
      ReadsVarint32(TagOf(i), Payload(i) + more);
      ReadsPayload(i, more);
      DecodesAll(items[1..], Apply(e, i));
    }
  }

  lemma NothingRead()
    ensures ReadVarint32([]) == None
  {
  }

  lemma {:induction false} FoldConcat(e: Edit, a: seq<Item>, b: seq<Item>)
    ensures Fold(e, a + b) == Fold(Fold(e, a), b)
    decreases |a|
  {
    hide Apply;
    if a == [] {
      assert a + b == b;
    } else {
      assert (a + b)[1..] == a[1..] + b;
      FoldConcat(Apply(e, a[0]), a[1..], b);
    }
  }

  lemma {:induction false} FoldPointers(e: Edit, s: seq<(nat, Data)>)
    ensures Fold(e, Pointers(s)) == e.(compactPointers := e.compactPointers + s)
    decreases |s|
  {
    if s != [] {
      assert Pointers(s)[1..] == Pointers(s[1..]);
      FoldPointers(Apply(e, Pointers(s)[0]), s[1..]);
      assert [s[0]] + s[1..] == s;
      Associates(e.compactPointers, [s[0]], s[1..]);
    } else {
      assert e.compactPointers + s == e.compactPointers;
    }
  }

  lemma {:induction false} FoldAdditions(e: Edit, s: seq<(nat, FileMetaData)>)
    ensures Fold(e, Additions(s)) == e.(newFiles := e.newFiles + s)
    decreases |s|
  {
    if s != [] {
      assert Additions(s)[1..] == Additions(s[1..]);
      FoldAdditions(Apply(e, Additions(s)[0]), s[1..]);
      assert [s[0]] + s[1..] == s;
      Associates(e.newFiles, [s[0]], s[1..]);
    } else {
      assert e.newFiles + s == e.newFiles;
    }
  }

  ghost predicate Ascending(s: seq<(nat, nat)>) {
    forall i, j | 0 <= i < j < |s| :: Before(s[i], s[j])
  }

  lemma {:induction false} InsertLast(s: seq<(nat, nat)>, x: (nat, nat))
    requires forall y | y in s :: Before(y, x)
    ensures InsertFile(s, x) == s + [x]
  {
    if s != [] {
      InsertLast(s[1..], x);
      assert s[0] in s && s + [x] == [s[0]] + (s[1..] + [x]);
    }
  }

  lemma {:induction false} FoldDeletions(e: Edit, s: seq<(nat, nat)>)
    requires Ascending(e.deletedFiles + s)
    ensures Fold(e, Deletions(s)) == e.(deletedFiles := e.deletedFiles + s)
    decreases |s|
  {
    if s != [] {
      var d := e.deletedFiles;
      assert Deletions(s)[1..] == Deletions(s[1..]);
      forall y | y in d
        ensures Before(y, s[0])
      {
        var k :| 0 <= k < |d| && d[k] == y;
        assert (d + s)[k] == y && (d + s)[|d|] == s[0];
      }
      InsertLast(d, s[0]);
      assert [s[0]] + s[1..] == s;
      Associates(d, [s[0]], s[1..]);
      FoldDeletions(Apply(e, Deletions(s)[0]), s[1..]);
    } else {
      assert e.deletedFiles + s == e.deletedFiles;
    }
  }

  // An optional field folded into an edit that does not have it.
  lemma FoldOnes(e: Edit, n: Option<Data>, x: Option<nat>)
    ensures e.comparator == None ==> Fold(e, Name(n)) == e.(comparator := n)
    ensures e.logNumber == None ==> Fold(e, Log(x)) == e.(logNumber := x)
    ensures e.prevLogNumber == None ==> Fold(e, PrevLog(x)) == e.(prevLogNumber := x)
    ensures e.nextFileNumber == None ==> Fold(e, NextFile(x)) == e.(nextFileNumber := x)
    ensures e.lastSequence == None ==> Fold(e, Last(x)) == e.(lastSequence := x)
  {
  }

  lemma FoldHeads(was: Edit, e: Edit)
    ensures Fold(Cleared(was), Heads(e))
         == Edit(e.comparator, e.logNumber, e.prevLogNumber, e.nextFileNumber, e.lastSequence, was.compactPointers, [], [])
  {
    hide Fold, Apply, Name, Log, PrevLog, NextFile, Last;
    var a, b, c := Name(e.comparator), Log(e.logNumber), PrevLog(e.prevLogNumber);
    var d, f := NextFile(e.nextFileNumber), Last(e.lastSequence);
    var start := Cleared(was);
    FoldConcat(start, a + b + c + d, f);
    FoldConcat(start, a + b + c, d);
    FoldConcat(start, a + b, c);
    FoldConcat(start, a, b);
    FoldOnes(start, e.comparator, None);
    FoldOnes(Fold(start, a), None, e.logNumber);
    FoldOnes(Fold(start, a + b), None, e.prevLogNumber);
    FoldOnes(Fold(start, a + b + c), None, e.nextFileNumber);
    FoldOnes(Fold(start, a + b + c + d), None, e.lastSequence);
  }

  // What was encoded is decoded; the reader's compaction pointers stay, with the record's after them.
  lemma DecodeInvertsEncode(e: Edit, was: Edit)
    requires EditFits(e)
    ensures Decode(Encoded(Items(e)), Cleared(was)) == (e.(compactPointers := was.compactPointers + e.compactPointers), Ok)
    ensures Decode(Encoded(Items(e)), Cleared(was)) == (e, Ok) <==> was.compactPointers == []
  {
    hide Heads, Pointers, Deletions, Additions, Apply, Decode, Encoded, ItemFits;
    DecodesAll(Items(e), Cleared(was));
    var h, p, d, a := Heads(e), Pointers(e.compactPointers), Deletions(e.deletedFiles), Additions(e.newFiles);
    FoldConcat(Cleared(was), h + p + d, a);
    FoldConcat(Cleared(was), h + p, d);
    FoldConcat(Cleared(was), h, p);
    FoldHeads(was, e);
    FoldPointers(Fold(Cleared(was), h), e.compactPointers);
    assert [] + e.deletedFiles == e.deletedFiles;
    FoldDeletions(Fold(Cleared(was), h + p), e.deletedFiles);
    assert [] + e.newFiles == e.newFiles;
    FoldAdditions(Fold(Cleared(was), h + p + d), e.newFiles);
    assert was.compactPointers == [] ==> [] + e.compactPointers == e.compactPointers;
  }

  // Whatever is decoded, soundly or not, can be encoded again.
  lemma ReadFits(tag: nat, input: Data)
    ensures ReadPayload(tag, input).Some? ==> ItemFits(ReadPayload(tag, input).value.0)
  {
    hide ParseVarint;
  }

  lemma {:induction false} InsertAscends(s: seq<(nat, nat)>, x: (nat, nat))
    requires Ascending(s)
    ensures Ascending(InsertFile(s, x)) && forall y | y in InsertFile(s, x) :: y == x || y in s
  {
    if s != [] && !Before(x, s[0]) && s[0] != x {
      InsertAscends(s[1..], x);
      var r := InsertFile(s[1..], x);
      forall y | y in r
        ensures Before(s[0], y)
      {
        if y != x {
          var k :| 0 <= k < |s[1..]| && s[1..][k] == y;
          assert s[k + 1] == y;
        }
      }
    }
  }

  lemma ApplyFits(e: Edit, i: Item)
    requires EditFits(e) && ItemFits(i)
    ensures EditFits(Apply(e, i))
  {
    hide ItemFits;
    var r := Apply(e, i);
    InsertAscends(e.deletedFiles, (if i.DeletedFile? then (i.level, i.number) else (0, 0)));
    forall x | x in Items(r)
      ensures ItemFits(x)
    {
      if x != i {
        ItemKept(e, i, x);
      }
    }
  }

  // An item of an edit's record is one of its fields.
  predicate Mentions(e: Edit, i: Item) {
    match i
    case Comparator(name) => e.comparator == Some(name)
    case LogNumber(n) => e.logNumber == Some(n)
    case PrevLogNumber(n) => e.prevLogNumber == Some(n)
    case NextFileNumber(n) => e.nextFileNumber == Some(n)
    case LastSequence(n) => e.lastSequence == Some(n)
    case CompactPointer(level, key) => (level, key) in e.compactPointers
    case DeletedFile(level, number) => (level, number) in e.deletedFiles
    case NewFile(level, file) => (level, file) in e.newFiles
  }

  lemma ItemsAreFields(e: Edit, i: Item)
    ensures i in Items(e) <==> Mentions(e, i)
  {
    var h, p, d, a := Heads(e), Pointers(e.compactPointers), Deletions(e.deletedFiles), Additions(e.newFiles);
    HeadsAreFields(e, i);
    match i {
      case CompactPointer(level, key) =>
        if (level, key) in e.compactPointers {
          var k :| 0 <= k < |e.compactPointers| && e.compactPointers[k] == (level, key);
          assert p[k] == i;
        }
      case DeletedFile(level, number) =>
        if (level, number) in e.deletedFiles {
          var k :| 0 <= k < |e.deletedFiles| && e.deletedFiles[k] == (level, number);
          assert d[k] == i;
        }
      case NewFile(level, file) =>
        if (level, file) in e.newFiles {
          var k :| 0 <= k < |e.newFiles| && e.newFiles[k] == (level, file);
          assert a[k] == i;
        }
      case _ =>
    }
  }

  lemma HeadsAreFields(e: Edit, i: Item)
    ensures i in Heads(e) <==> Mentions(e, i) && !i.CompactPointer? && !i.DeletedFile? && !i.NewFile?
  {
    assert i in Name(e.comparator) <==> i.Comparator? && e.comparator == Some(i.name);
    assert i in Log(e.logNumber) <==> i.LogNumber? && e.logNumber == Some(i.n);
    assert i in PrevLog(e.prevLogNumber) <==> i.PrevLogNumber? && e.prevLogNumber == Some(i.n);
    assert i in NextFile(e.nextFileNumber) <==> i.NextFileNumber? && e.nextFileNumber == Some(i.n);
    assert i in Last(e.lastSequence) <==> i.LastSequence? && e.lastSequence == Some(i.n);
  }

  lemma ItemKept(e: Edit, i: Item, x: Item)
    requires Ascending(e.deletedFiles) && x in Items(Apply(e, i)) && x != i
    ensures x in Items(e)
  {
    hide Items;
    ItemsAreFields(Apply(e, i), x);
    ItemsAreFields(e, x);
    if i.DeletedFile? {
      InsertAscends(e.deletedFiles, (i.level, i.number));
    }
  }

  lemma {:induction false} DecodedFits(input: Data, e: Edit)
    requires EditFits(e)
    ensures EditFits(Decode(input, e).0)
    decreases |input|
  {
    hide EditFits, ReadPayload, ReadVarint32, ItemFits, Apply;
    var t := ReadVarint32(input);
    if t.Some? {
      var i := ReadPayload(t.value.0, t.value.1);
      if i.Some? {
        ReadFits(t.value.0, t.value.1);
        ApplyFits(e, i.value.0);
        DecodedFits(i.value.1, Apply(e, i.value.0));
      }
    }
  }

  lemma {:induction false} EncodedAppend(items: seq<Item>, i: Item)
    requires (forall x | x in items :: ItemFits(x)) && ItemFits(i)
    ensures Encoded(items + [i]) == Encoded(items) + ItemBytes(i)
  {
    hide ItemBytes, ItemFits;
    if items != [] {
      EncodedAppend(items[1..], i);
      assert (items + [i])[1..] == items[1..] + [i];
      Associates(ItemBytes(items[0]), Encoded(items[1..]), ItemBytes(i));
    }
  }

  class EditRecord {
    var comparator: Option<Data>
    var logNumber: Option<nat>
    var prevLogNumber: Option<nat>
    var nextFileNumber: Option<nat>
    var lastSequence: Option<nat>
    var compactPointers: seq<(nat, Data)>
    var deletedFiles: seq<(nat, nat)>
    var newFiles: seq<(nat, FileMetaData)>

    function Value(): Edit
      reads this
    {
      Edit(comparator, logNumber, prevLogNumber, nextFileNumber, lastSequence, compactPointers, deletedFiles, newFiles)
    }

    constructor ()
      ensures Value() == Edit(None, None, None, None, None, [], [], [])
    {
      comparator, logNumber, prevLogNumber, nextFileNumber, lastSequence := None, None, None, None, None;
      compactPointers, deletedFiles, newFiles := [], [], [];
    }

    method Clear()
      modifies this
      ensures Value() == Cleared(old(Value()))
    {
      comparator, logNumber, prevLogNumber, nextFileNumber, lastSequence := None, None, None, None, None;
      deletedFiles, newFiles := [], [];
    }

    // One field after its tag.
    method ReadField(tag: nat, input: Data) returns (ok: bool, rest: Data)
      modifies this
      ensures var i := ReadPayload(tag, input);
        && ok == i.Some?
        && Value() == (if ok then Apply(old(Value()), i.value.0) else old(Value()))
        && (ok ==> rest == i.value.1)
    {
      hide ReadPrefixed, ReadVarint64, ReadVarint32, ReadFile, InsertFile;
      rest := input;
      if tag == 1 {
        var str := ReadPrefixed(input);
        if str.None? {
          return false, rest;
        }
        comparator, rest := Some(str.value.0), str.value.1;
      } else if tag == 2 || tag == 3 || tag == 4 || tag == 9 {
        var number := GetVarint64(input);
        if number.None? {
          return false, rest;
        }
        rest := number.value.1;
        if tag == 2 {
          logNumber := Some(number.value.0);
        } else if tag == 9 {
          prevLogNumber := Some(number.value.0);
        } else if tag == 3 {
          nextFileNumber := Some(number.value.0);
        } else {
          lastSequence := Some(number.value.0);
        }
      } else if tag == 5 || tag == 6 || tag == 7 {
        var level := ReadLevel(input);
        if level.None? {
          return false, rest;
        }
        ok, rest := ReadPlaced(tag, level.value.0, level.value.1);
        return;
      } else {
        return false, rest;
      }
      return true, rest;
    }

    // The rest of a field that starts with a level.
    method ReadPlaced(tag: nat, level: nat, input: Data) returns (ok: bool, rest: Data)
      requires tag == 5 || tag == 6 || tag == 7
      modifies `compactPointers, `deletedFiles, `newFiles
      ensures tag == 5 ==> var x := ReadPrefixed(input);
        ok == x.Some? && (ok ==> Value() == Apply(old(Value()), CompactPointer(level, x.value.0)) && rest == x.value.1)
      ensures tag == 6 ==> var x := ReadVarint64(input);
        ok == x.Some? && (ok ==> Value() == Apply(old(Value()), DeletedFile(level, x.value.0)) && rest == x.value.1)
      ensures tag == 7 ==> var x := ReadFile(input);
        ok == x.Some? && (ok ==> Value() == Apply(old(Value()), NewFile(level, x.value.0)) && rest == x.value.1)
      ensures !ok ==> Value() == old(Value())
    {
      hide ReadPrefixed, ReadVarint64, ReadFile, InsertFile;
      ok, rest := false, input;
      if tag == 5 {
        var key := ReadPrefixed(input);
        if key.Some? {
          compactPointers := compactPointers + [(level, key.value.0)];
          ok, rest := true, key.value.1;
        }
      } else if tag == 6 {
        var number := GetVarint64(input);
        if number.Some? {
          deletedFiles := InsertFile(deletedFiles, (level, number.value.0));
          ok, rest := true, number.value.1;
        }
      } else {
        var file := ReadFile(input);
        if file.Some? {
          newFiles := newFiles + [(level, file.value.0)];
          ok, rest := true, file.value.1;
        }
      }
    }

    method DecodeFrom(src: Data) returns (status: Status)
      modifies this
      ensures (Value(), status) == Decode(src, Cleared(old(Value())))
    {
      hide ReadPayload, ReadVarint32, Apply;
      Clear();
      var input := src;
      while true
        invariant Decode(input, Value()) == Decode(src, Cleared(old(Value())))
        decreases |input|
      {
        var tag := GetVarint32(input);
        if tag.None? {
          break;
        }
        var ok, rest := ReadField(tag.value.0, tag.value.1);
        if !ok {
          return Corruption(Message(tag.value.0));
        }
        input := rest;
      }
      return if input == [] then Ok else Corruption("invalid tag");
    }

    method EncodeTo(dst: Data) returns (r: Data)
      requires EditFits(Value())
      ensures r == dst + Encoded(Items(Value()))
    {
      hide ItemFits, Encoded, Items, Heads, Ascending;
      ghost var items, k := Items(Value()), |Heads(Value())|;
      r := EncodeHeads(dst);
      var i := 0;
      while i < |compactPointers|
        invariant i <= |compactPointers| && k == |Heads(Value())| + i <= |items| && r == dst + Encoded(items[..k])
      {
        PointerAt(Value(), i);
        r := Put(dst, items, k, r, CompactPointer(compactPointers[i].0, compactPointers[i].1));
        i, k := i + 1, k + 1;
      }
      i := 0;
      while i < |deletedFiles|
        invariant i <= |deletedFiles| && k == |Heads(Value())| + |compactPointers| + i <= |items|
        invariant r == dst + Encoded(items[..k])
      {
        DeletionAt(Value(), i);
        r := Put(dst, items, k, r, DeletedFile(deletedFiles[i].0, deletedFiles[i].1));
        i, k := i + 1, k + 1;
      }
      i := 0;
      while i < |newFiles|
        invariant i <= |newFiles| && k == |Heads(Value())| + |compactPointers| + |deletedFiles| + i <= |items|
        invariant r == dst + Encoded(items[..k])
      {
        AdditionAt(Value(), i);
        r := Put(dst, items, k, r, NewFile(newFiles[i].0, newFiles[i].1));
        i, k := i + 1, k + 1;
      }
      ItemCount(Value());
      assert items[..k] == items;
    }

    method EncodeHeads(dst: Data) returns (r: Data)
      requires EditFits(Value())
      ensures |Heads(Value())| <= |Items(Value())| && r == dst + Encoded(Items(Value())[..|Heads(Value())|])
    {
      hide ItemFits, Encoded, Items, Heads, Ascending;
      ghost var items, k := Items(Value()), 0;
      HeadsAt(Value());
      EncodedNone(dst, items);
      r := dst;
      if comparator.Some? {
        r := Put(dst, items, k, r, Comparator(comparator.value));
        k := k + 1;
      }
      if logNumber.Some? {
        r := Put(dst, items, k, r, LogNumber(logNumber.value));
        k := k + 1;
      }
      if prevLogNumber.Some? {
        r := Put(dst, items, k, r, PrevLogNumber(prevLogNumber.value));
        k := k + 1;
      }
      if nextFileNumber.Some? {
        r := Put(dst, items, k, r, NextFileNumber(nextFileNumber.value));
        k := k + 1;
      }
      if lastSequence.Some? {
        r := Put(dst, items, k, r, LastSequence(lastSequence.value));
        k := k + 1;
      }
    }
  }

  // A tag and what goes with it, put behind what is there.
  method Put(ghost dst: Data, ghost items: seq<Item>, ghost k: nat, r: Data, i: Item) returns (more: Data)
    requires (forall x | x in items :: ItemFits(x)) && k < |items| && items[k] == i && r == dst + Encoded(items[..k])
    ensures more == dst + Encoded(items[..k + 1])
  {
    hide Encoded, ItemFits, Payload;
    assert i in items && items[..k + 1] == items[..k] + [i];
    EncodedAppend(items[..k], i);
    Associates(dst, Encoded(items[..k]), ItemBytes(i));
    Associates(r, EncodeVarint32(TagOf(i)), Payload(i));
    more := r + EncodeVarint32(TagOf(i));
    more := more + Payload(i);
  }

  lemma EncodedNone(dst: Data, items: seq<Item>)
    ensures dst == dst + Encoded(items[..0])
  {
  }

  lemma ItemCount(e: Edit)
    ensures |Items(e)| == |Heads(e)| + |e.compactPointers| + |e.deletedFiles| + |e.newFiles|
  {
  }

  lemma PointerAt(e: Edit, i: nat)
    requires i < |e.compactPointers|
    ensures |Heads(e)| + i < |Items(e)| && Items(e)[|Heads(e)| + i] == CompactPointer(e.compactPointers[i].0, e.compactPointers[i].1)
  {
    hide Heads;
  }

  lemma DeletionAt(e: Edit, i: nat)
    requires i < |e.deletedFiles|
    ensures var k := |Heads(e)| + |e.compactPointers| + i;
      k < |Items(e)| && Items(e)[k] == DeletedFile(e.deletedFiles[i].0, e.deletedFiles[i].1)
  {
    hide Heads;
  }

  lemma AdditionAt(e: Edit, i: nat)
    requires i < |e.newFiles|
    ensures var k := |Heads(e)| + |e.compactPointers| + |e.deletedFiles| + i;
      k < |Items(e)| && Items(e)[k] == NewFile(e.newFiles[i].0, e.newFiles[i].1)
  {
    hide Heads;
  }

  function Count(there: bool): nat {
    if there then 1 else 0
  }

  lemma HeadsAt(e: Edit)
    ensures var a := Count(e.comparator.Some?);
      var b := a + Count(e.logNumber.Some?);
      var c := b + Count(e.prevLogNumber.Some?);
      var d := c + Count(e.nextFileNumber.Some?);
      && |Heads(e)| == d + Count(e.lastSequence.Some?) <= |Items(e)|
      && (e.comparator.Some? ==> Items(e)[0] == Comparator(e.comparator.value))
      && (e.logNumber.Some? ==> Items(e)[a] == LogNumber(e.logNumber.value))
      && (e.prevLogNumber.Some? ==> Items(e)[b] == PrevLogNumber(e.prevLogNumber.value))
      && (e.nextFileNumber.Some? ==> Items(e)[c] == NextFileNumber(e.nextFileNumber.value))
      && (e.lastSequence.Some? ==> Items(e)[d] == LastSequence(e.lastSequence.value))
  {
  }
}
