// The log reader's state machine (db/log_reader.cc), and the framing theorem: cut anywhere,
// a log reads back as exactly the records wholly present.

module LogReading {
  import opened Sequences
  import opened Bits
  import opened Crc32c
  import opened LogFormat

  // kEof and kBadRecord: types past every fragment's.
  const EOF: nat := 5
  const BAD_RECORD: nat := 6

  ghost predicate Prefix<T>(got: seq<T>, whole: seq<T>) {
    |got| <= |whole| && got == whole[..|got|]
  }

  // The buffer ends inside the block it started in, and at its end unless the file ran out.
  predicate InOneBlock(pos: nat, size: nat, eof: bool) {
    && Offset(pos) + size <= BLOCK_SIZE
    && (!eof ==> Offset(pos) + size == 0 || Offset(pos) + size == BLOCK_SIZE)
  }

  // What the reader has left of a log: it stands after pos bytes, before the fragments fs,
  // some of which the file may have lost.
  ghost predicate Holds(pos: nat, fs: seq<Fragment>, buffer: Data, file: Data, eof: bool) {
    && AllFit(pos, fs)
    && Prefix(buffer + file, Layout(pos, fs))
    && InOneBlock(pos, |buffer|, eof)
  }

  function Least(a: nat, b: nat): nat {
    if a < b then a else b
  }

  // ---- Arithmetic of blocks. ----

  lemma NextBlock(pos: nat, size: nat)
    requires size < HEADER_SIZE && InOneBlock(pos, size, false)
    ensures Start(pos) == pos + size && Offset(pos + size) == 0
  {
  }

  lemma ReadBlock(pos: nat, size: nat)
    requires Offset(pos) == 0 && size <= BLOCK_SIZE
    ensures InOneBlock(pos, size, size < BLOCK_SIZE)
  {
  }

  lemma WithinBlock(pos: nat, size: nat, eof: bool)
    requires HEADER_SIZE <= size && InOneBlock(pos, size, eof)
    ensures Start(pos) == pos
    ensures !eof ==> size == HEADER_SIZE + Room(pos)
  {
  }

  lemma Forward(pos: nat, size: nat, n: nat, eof: bool)
    requires HEADER_SIZE <= n <= size && InOneBlock(pos, size, eof)
    ensures InOneBlock(pos + n, size - n, eof)
  {
  }

  // ---- What the front of the buffer is. ----

  lemma PrefixDrops<T>(a: seq<T>, b: seq<T>, pad: seq<T>, rest: seq<T>)
    requires Prefix(a + b, pad + rest) && |pad| == |a|
    ensures Prefix(b, rest)
  {
    assert (a + b)[|a|..] == b;
    assert (pad + rest)[..|a| + |b|][|a|..] == rest[..|b|];
  }

  lemma PrefixLength<T>(got: seq<T>, n: nat, whole: seq<T>, first: seq<T>, rest: seq<T>)
    requires Prefix(got, whole) && whole == first + rest && |first| == n
    ensures n <= |got| ==> got[..n] == first && Prefix(got[n..], rest)
  {
  }

  lemma AllFitSkips(w: nat, fs: seq<Fragment>)
    requires AllFit(w, fs)
    ensures AllFit(Start(w), fs)
  {
    if fs != [] {
      assert Start(Start(w)) == Start(w);
      assert End(Start(w), fs[0]) == End(w, fs[0]);
    }
  }

  // Padding is all that can stand before a block's end.
  lemma TrailerDrops(pos: nat, fs: seq<Fragment>, buffer: Data, file: Data)
    requires Prefix(buffer + file, Layout(pos, fs)) && |buffer| == Start(pos) - pos && fs != []
    ensures Prefix(file, Layout(pos + |buffer|, fs))
  {
    hide *;
    LayoutSkipsTrailer(pos, fs);
    PrefixDrops(buffer, file, Zeros(Start(pos) - pos), Layout(Start(pos), fs));
  }

  lemma NothingDrops(pos: nat, buffer: Data, file: Data)
    requires Prefix(buffer + file, Layout(pos, []))
    ensures buffer == [] && file == []
  {
    assert |buffer + file| == 0;
  }

  // A trailer is passed over and the next block read.
  lemma Refill(pos: nat, fs: seq<Fragment>, buffer: Data, file: Data)
    requires Holds(pos, fs, buffer, file, false) && |buffer| < HEADER_SIZE
    ensures var k := Least(BLOCK_SIZE, |file|);
      Holds(pos + |buffer|, fs, file[..k], file[k..], k < BLOCK_SIZE)
    ensures Start(pos) == pos + |buffer|
  {
    hide AllFit, Layout, Prefix, InOneBlock, Start, Offset;
    var k := Least(BLOCK_SIZE, |file|);
    NextBlock(pos, |buffer|);
    ReadBlock(pos + |buffer|, k);
    AllFitSkips(pos, fs);
    SplitSame(file, k);
    if fs == [] {
      NothingDrops(pos, buffer, file);
    } else {
      TrailerDrops(pos, fs, buffer, file);
    }
  }

  lemma LayoutFront(pos: nat, fs: seq<Fragment>)
    requires fs != [] && Start(pos) == pos
    ensures Layout(pos, fs) == Header(fs[0]) + (fs[0].payload + Layout(End(pos, fs[0]), fs[1..]))
  {
    hide Header, Start;
    var f := fs[0];
    NoZeros();
    assert Laid(pos, f) == Zeros(0) + Header(f) + f.payload;
    assert Zeros(0) + Header(f) == Header(f);
    Associates(Header(f), f.payload, Layout(End(pos, f), fs[1..]));
  }

  // A header's worth of bytes is the next fragment's header.
  lemma Front(pos: nat, fs: seq<Fragment>, buffer: Data, file: Data, eof: bool)
    requires Holds(pos, fs, buffer, file, eof) && HEADER_SIZE <= |buffer|
    ensures fs != [] && Start(pos) == pos && Fits(pos, fs[0])
    ensures buffer[..HEADER_SIZE] == Header(fs[0])
    ensures Prefix(buffer[HEADER_SIZE..] + file, fs[0].payload + Layout(End(pos, fs[0]), fs[1..]))
    ensures !eof ==> HEADER_SIZE + |fs[0].payload| <= |buffer|
  {
    WithinBlock(pos, |buffer|, eof);
    assert fs != [] by {
      assert |buffer + file| >= HEADER_SIZE;
    }
    LayoutFront(pos, fs);
    hide Layout, Prefix, InOneBlock, Start, Room, Header;
    SplitFront(buffer, file, HEADER_SIZE);
    PrefixLength(buffer + file, HEADER_SIZE, Layout(pos, fs), Header(fs[0]),
                 fs[0].payload + Layout(End(pos, fs[0]), fs[1..]));
  }

  // Its payload follows, as far as there is any.
  lemma FrontPayload(pos: nat, fs: seq<Fragment>, buffer: Data, file: Data, eof: bool)
    requires Holds(pos, fs, buffer, file, eof) && HEADER_SIZE <= |buffer|
    requires fs != [] && HEADER_SIZE + |fs[0].payload| <= |buffer|
    ensures buffer[HEADER_SIZE..HEADER_SIZE + |fs[0].payload|] == fs[0].payload
    ensures Holds(End(pos, fs[0]), fs[1..], buffer[HEADER_SIZE + |fs[0].payload|..], file, eof)
  {
    hide AllFit, Layout, InOneBlock, Start, Header, Fits, Room, Offset, Prefix;
    Front(pos, fs, buffer, file, eof);
    var f := fs[0];
    Forward(pos, |buffer|, HEADER_SIZE + |f.payload|, eof);
    RestFits(pos, fs);
    PayloadDrops(buffer, file, HEADER_SIZE, f.payload, Layout(End(pos, f), fs[1..]));
  }

  lemma RestFits(pos: nat, fs: seq<Fragment>)
    requires AllFit(pos, fs) && fs != []
    ensures AllFit(End(pos, fs[0]), fs[1..])
  {
  }

  lemma PayloadDrops<T>(buffer: seq<T>, file: seq<T>, h: nat, payload: seq<T>, rest: seq<T>)
    requires h + |payload| <= |buffer| && Prefix(buffer[h..] + file, payload + rest)
    ensures buffer[h..h + |payload|] == payload && Prefix(buffer[h + |payload|..] + file, rest)
  {
    var after := buffer[h..];
    SplitFront(after, file, |payload|);
    PrefixLength(after + file, |payload|, payload + rest, payload, rest);
    assert after[..|payload|] == buffer[h..h + |payload|];
    assert after[|payload|..] == buffer[h + |payload|..];
  }

  // A header says its own length and type.
  lemma HeaderReads(f: Fragment, header: Data)
    requires header == Header(f) && |f.payload| < 0x10000 && f.kind < 256
    ensures NumberOf(header[4]) + 256 * NumberOf(header[5]) == |f.payload|
    ensures NumberOf(header[6]) == f.kind
  {
    hide Checksum, EncodeFixed32, NumberOf, ByteOf;
    ByteRoundTrip(|f.payload| % 256);
    ByteRoundTrip(|f.payload| / 256);
    ByteRoundTrip(f.kind);
    assert header[4] == LengthBytes(|f.payload|)[0];
    assert header[5] == LengthBytes(|f.payload|)[1];
    assert header[6] == KindByte(f.kind)[0];
  }

  // The stored checksum is that of the type byte and the payload together.
  lemma ChecksumMeans(f: Fragment)
    ensures Unmask(Checksum(f.kind, f.payload)) == Value(KindByte(f.kind) + f.payload)
  {
    hide Extend, Mask, Unmask, KindByte;
    UnmaskInvertsMask(Extend(Value(KindByte(f.kind)), f.payload));
    ExtendComposes(Zero(), KindByte(f.kind), f.payload);
  }

  lemma HeaderParts(f: Fragment, buffer: Data)
    requires HEADER_SIZE <= |buffer| && buffer[..HEADER_SIZE] == Header(f)
    ensures buffer[..4] == EncodeFixed32(Checksum(f.kind, f.payload)) && [buffer[6]] == KindByte(f.kind)
  {
    hide Checksum, EncodeFixed32, ByteOf;
    assert Header(f)[..4] == EncodeFixed32(Checksum(f.kind, f.payload));
    assert buffer[..4] == buffer[..HEADER_SIZE][..4];
    assert Header(f)[6] == KindByte(f.kind)[0] == buffer[..HEADER_SIZE][6];
  }

  // And its checksum matches.
  lemma ChecksumReads(f: Fragment, buffer: Data)
    requires HEADER_SIZE + |f.payload| <= |buffer| && buffer[..HEADER_SIZE] == Header(f)
    requires buffer[HEADER_SIZE..HEADER_SIZE + |f.payload|] == f.payload
    ensures Unmask(DecodeFixed32(buffer)) == Value(buffer[6..HEADER_SIZE + |f.payload|])
  {
    hide Checksum, Value, Unmask, DecodeFixed32, EncodeFixed32, Header;
    HeaderParts(f, buffer);
    ChecksumMeans(f);
    SplitSame(buffer, 4);
    Fixed32RoundTrip(Checksum(f.kind, f.payload), buffer[4..]);
    assert buffer[6..HEADER_SIZE + |f.payload|] == [buffer[6]] + buffer[HEADER_SIZE..HEADER_SIZE + |f.payload|];
  }

  lemma FragmentReads(pos: nat, fs: seq<Fragment>, buffer: Data, file: Data, eof: bool)
    requires Holds(pos, fs, buffer, file, eof) && HEADER_SIZE <= |buffer|
    ensures fs != [] && Start(pos) == pos && 0 < fs[0].kind <= LAST_TYPE
    ensures NumberOf(buffer[4]) + 256 * NumberOf(buffer[5]) == |fs[0].payload| && NumberOf(buffer[6]) == fs[0].kind
    ensures !eof ==> HEADER_SIZE + |fs[0].payload| <= |buffer|
    ensures HEADER_SIZE + |fs[0].payload| <= |buffer| ==>
      && Unmask(DecodeFixed32(buffer)) == Value(buffer[6..HEADER_SIZE + |fs[0].payload|])
      && buffer[HEADER_SIZE..HEADER_SIZE + |fs[0].payload|] == fs[0].payload
      && Holds(End(pos, fs[0]), fs[1..], buffer[HEADER_SIZE + |fs[0].payload|..], file, eof)
  {
    hide Holds, Value, Unmask, DecodeFixed32, NumberOf, Header, Start, Layout;
    Front(pos, fs, buffer, file, eof);
    HeaderReads(fs[0], buffer[..HEADER_SIZE]);
    if HEADER_SIZE + |fs[0].payload| <= |buffer| {
      FrontPayload(pos, fs, buffer, file, eof);
      ChecksumReads(fs[0], buffer);
    }
  }

  // ---- Whole records. ----

  // The first fragment of what is left of a record, and the rest.
  lemma FragmentsStep(w: nat, data: Data, begin: bool)
    ensures var length := FirstLength(w, data);
      var f := Fragment(KindOf(begin, |data| == length), data[..length]);
      Fragments(w, data, begin)
      == [f] + (if |data| == length then [] else Fragments(End(w, f), data[length..], false))
  {
    hide Start, End;
    if |data| <= Room(w) {
      assert data[..|data|] == data;
    }
  }

  lemma {:induction false} EndAllGrows(w: nat, fs: seq<Fragment>)
    ensures w <= EndAll(w, fs)
    decreases |fs|
  {
    if fs != [] {
      EndAllGrows(End(w, fs[0]), fs[1..]);
    }
  }

  // The fragments still to come: those of the rest of a record, then those of the records after it.
  ghost function Coming(at: nat, rest: Data, begin: bool, later: seq<Data>): seq<Fragment> {
    var own := Fragments(at, rest, begin);
    own + AllFragments(EndAll(at, own), later)
  }

  lemma ComingStep(at: nat, rest: Data, begin: bool, later: seq<Data>)
    ensures var length := FirstLength(at, rest);
      var last := |rest| == length;
      var f := Fragment(KindOf(begin, last), rest[..length]);
      var coming := Coming(at, rest, begin, later);
      var end := EndAll(at, Fragments(at, rest, begin));
      && coming != [] && coming[0] == f && End(at, f) <= end
      && coming[1..] == (if last then AllFragments(end, later) else Coming(End(at, f), rest[length..], false, later))
      && end == (if last then End(at, f) else EndAll(End(at, f), Fragments(End(at, f), rest[length..], false)))
  {
    hide Fragments, AllFragments, End;
    FragmentsStep(at, rest, begin);
    var length := FirstLength(at, rest);
    var f := Fragment(KindOf(begin, |rest| == length), rest[..length]);
    var own := Fragments(at, rest, begin);
    var tail := if |rest| == length then [] else Fragments(End(at, f), rest[length..], false);
    FirstAndRest(f, tail);
    EndAllGrows(End(at, f), tail);
    Associates([f], tail, AllFragments(EndAll(at, own), later));
    FirstAndRest(f, tail + AllFragments(EndAll(at, own), later));
  }

  // The first n bytes of a log hold the whole of its first record.
  ghost predicate Present(w: nat, records: seq<Data>, n: nat) {
    records != [] && EndRecord(w, records[0]) <= n
  }

  // How many records the first n bytes of a log hold.
  ghost function Wholly(w: nat, records: seq<Data>, n: nat): (r: nat)
    ensures r <= |records|
    decreases |records|
  {
    if Present(w, records, n) then 1 + Wholly(EndRecord(w, records[0]), records[1..], n) else 0
  }

  // The first k records end where their own log does.
  lemma {:induction false} WhollyEnds(w: nat, records: seq<Data>, n: nat, k: nat)
    requires k <= |records| && w <= n
    ensures k <= Wholly(w, records, n) <==> EndAll(w, AllFragments(w, records[..k])) <= n
    decreases |records|
  {
    hide Fragments, AllFragments, EndRecord, EndAll;
    if k == 0 {
      NoRecords(w, records);
    } else {
      var end := EndRecord(w, records[0]);
      FirstRecordEnds(w, records, k);
      if end <= n {
        WhollyEnds(end, records[1..], n, k - 1);
      }
    }
  }

  lemma NoRecords(w: nat, records: seq<Data>)
    ensures EndAll(w, AllFragments(w, records[..0])) == w
  {
  }

  lemma FirstRecordEnds(w: nat, records: seq<Data>, k: nat)
    requires 0 < k <= |records|
    ensures var end := EndRecord(w, records[0]);
      EndAll(w, AllFragments(w, records[..k])) == EndAll(end, AllFragments(end, records[1..][..k - 1])) >= end
  {
    hide Fragments, EndAll;
    var first, end := Fragments(w, records[0], true), EndRecord(w, records[0]);
    var later := AllFragments(end, records[1..][..k - 1]);
    assert records[..k][0] == records[0] && records[..k][1..] == records[1..][..k - 1];
    LayoutConcat(w, first, later);
    EndAllGrows(end, later);
  }

  // ---- The reader. ----

  class Reader {
    var file: Data
    var buffer: Data
    var eof: bool
    var corruptions: seq<nat>
    const checksum: bool

    ghost predicate Valid()
      reads this
    {
      eof ==> file == []
    }

    ghost predicate Before(pos: nat, fs: seq<Fragment>)
      reads `file, `buffer, `eof
    {
      Holds(pos, fs, buffer, file, eof)
    }

    function Left(): nat
      reads `file, `buffer
    {
      |buffer| + |file|
    }

    constructor (file: Data, checksum: bool)
      ensures Valid() && this.file == file && buffer == [] && !eof && corruptions == []
    {
      this.file, buffer, eof, corruptions, this.checksum := file, [], false, [], checksum;
    }

    // The next fragment, if the file still has all of it; else the end of the file, in silence.
    method ReadPhysicalRecord(ghost pos: nat, ghost fs: seq<Fragment>) returns (kind: nat, result: Data)
      requires Valid()
      modifies `file, `buffer, `eof, `corruptions
      ensures Valid()
      ensures kind == EOF || Left() < old(Left())
      ensures old(Before(pos, fs)) ==> corruptions == old(corruptions)
      ensures old(Before(pos, fs)) && fs != [] && End(pos, fs[0]) <= pos + old(Left()) ==>
        && kind == fs[0].kind && result == fs[0].payload
        && Before(End(pos, fs[0]), fs[1..]) && End(pos, fs[0]) + Left() == pos + old(Left())
      ensures old(Before(pos, fs)) && (fs == [] || End(pos, fs[0]) > pos + old(Left())) ==>
        kind == EOF && buffer == [] && eof
    {
      hide Holds, Value, Unmask, DecodeFixed32, NumberOf, Start;
      ghost var held := Before(pos, fs);
      ghost var at: nat := pos;
      result := [];
      while true
        invariant Valid() && corruptions == old(corruptions)
        invariant Left() <= old(Left())
        invariant held ==> Before(at, fs) && Start(at) == Start(pos) && at + Left() == pos + old(Left())
        decreases |file| + if eof then 0 else 1
      {
        if |buffer| < HEADER_SIZE {
          if !eof {
            if held {
              Refill(at, fs, buffer, file);
              at := at + |buffer|;
            }
            var k := Least(BLOCK_SIZE, |file|);
            buffer, file := file[..k], file[k..];
            if |buffer| < BLOCK_SIZE {
              eof := true;
            }
            continue;
          } else {
            buffer := [];
            return EOF, result;
          }
        }
        if held {
          FragmentReads(at, fs, buffer, file, eof);
        }
        var length := NumberOf(buffer[4]) + 256 * NumberOf(buffer[5]);
        var recordType := NumberOf(buffer[6]);
        if HEADER_SIZE + length > |buffer| {
          var dropSize := |buffer|;
          buffer := [];
          if !eof {
            corruptions := corruptions + [dropSize];
            return BAD_RECORD, result;
          }
          return EOF, result;
        }
        if recordType == ZERO_TYPE && length == 0 {
          buffer := [];
          return BAD_RECORD, result;
        }
        if checksum {
          var expectedCrc := Unmask(DecodeFixed32(buffer));
          var actualCrc := Value(buffer[6..HEADER_SIZE + length]);
          if actualCrc != expectedCrc {
            var dropSize := |buffer|;
            buffer := [];
            corruptions := corruptions + [dropSize];
            return BAD_RECORD, result;
          }
        }
        result := buffer[HEADER_SIZE..HEADER_SIZE + length];
        buffer := buffer[HEADER_SIZE + length..];
        return recordType, result;
      }
    }

    // The next record, if the file still has all of it; else the end of the file, in silence.
    method ReadRecord(ghost pos: nat, ghost records: seq<Data>) returns (ok: bool, record: Data)
      requires Valid()
      modifies `file, `buffer, `eof, `corruptions
      ensures Valid()
      ensures ok ==> Left() < old(Left())
      ensures old(Before(pos, AllFragments(pos, records))) ==> corruptions == old(corruptions)
      ensures old(Before(pos, AllFragments(pos, records))) && Present(pos, records, pos + old(Left())) ==>
        var end := EndRecord(pos, records[0]);
        && ok && record == records[0]
        && Before(end, AllFragments(end, records[1..])) && end + Left() == pos + old(Left())
      ensures old(Before(pos, AllFragments(pos, records))) && !Present(pos, records, pos + old(Left())) ==>
        !ok && buffer == [] && eof
    {
      hide Before, Coming, AllFragments, Fragments, EndAll, End, FirstLength;
      ghost var held := records != [] && Before(pos, AllFragments(pos, records));
      ghost var empty := records == [] && Before(pos, AllFragments(pos, records));
      ghost var at: nat, rest := pos, if records == [] then [] else records[0];
      ghost var end := if records == [] then pos else EndRecord(pos, records[0]);
      StartsComing(pos, records);
      var scratch, fragment, inFragmentedRecord: bool := [], [], false;
      record := [];
      while true
        invariant Valid() && Left() <= old(Left())
        invariant !inFragmentedRecord ==> scratch == []
        invariant empty ==> Before(at, []) && corruptions == old(corruptions)
        invariant held ==> Before(at, Coming(at, rest, !inFragmentedRecord, records[1..]))
        invariant held ==> corruptions == old(corruptions) && scratch + rest == records[0]
        invariant held ==> end == EndAll(at, Fragments(at, rest, !inFragmentedRecord))
        invariant held ==> at + Left() == pos + old(Left())
        decreases Left()
      {
        ghost var coming := if records == [] then [] else Coming(at, rest, !inFragmentedRecord, records[1..]);
        if held {
          ComingStep(at, rest, !inFragmentedRecord, records[1..]);
        }
        var recordType;
        recordType, fragment := ReadPhysicalRecord(at, coming);
        if held && recordType != EOF {
          RestStep(scratch, rest, FirstLength(at, rest));
          at, rest := End(at, coming[0]), rest[FirstLength(at, rest)..];
        }
        if recordType == FULL_TYPE {
          if inFragmentedRecord && scratch != [] {
            corruptions := corruptions + [|scratch|];
          }
          return true, fragment;
        } else if recordType == FIRST_TYPE {
          if inFragmentedRecord && scratch != [] {
            corruptions := corruptions + [|scratch|];
          }
          scratch := fragment;
          inFragmentedRecord := true;
        } else if recordType == MIDDLE_TYPE {
          if !inFragmentedRecord {
            corruptions := corruptions + [|fragment|];
          } else {
            scratch := scratch + fragment;
          }
        } else if recordType == LAST_TYPE {
          if !inFragmentedRecord {
            corruptions := corruptions + [|fragment|];
          } else {
            scratch := scratch + fragment;
            return true, scratch;
          }
        } else if recordType == EOF {
          return false, [];
        } else if recordType == BAD_RECORD {
          if inFragmentedRecord {
            corruptions := corruptions + [|scratch|];
            inFragmentedRecord, scratch := false, [];
          }
        } else {
          corruptions := corruptions + [|fragment| + if inFragmentedRecord then |scratch| else 0];
          inFragmentedRecord, scratch := false, [];
        }
      }
    }
  }

  lemma StartsComing(pos: nat, records: seq<Data>)
    ensures records == [] ==> AllFragments(pos, records) == []
    ensures records != [] ==>
      && AllFragments(pos, records) == Coming(pos, records[0], true, records[1..])
      && EndRecord(pos, records[0]) == EndAll(pos, Fragments(pos, records[0], true))
      && [] + records[0] == records[0]
  {
  }

  lemma RestStep<T>(scratch: seq<T>, rest: seq<T>, n: nat)
    requires n <= |rest|
    ensures (scratch + rest[..n]) + rest[n..] == scratch + rest
    ensures n == |rest| ==> rest[..n] == rest && rest[n..] == []
    ensures scratch == [] ==> scratch + rest[..n] == rest[..n]
  {
  }

  // Reading a whole file, as recovery does.
  method ReadLog(file: Data, checksum: bool, ghost records: seq<Data>) returns (read: seq<Data>, corruptions: seq<nat>)
    ensures Prefix(file, Log(records)) ==> corruptions == [] && read == records[..Wholly(0, records, |file|)]
  {
    hide Holds, AllFragments, Layout, Fragments;
    var reader := new Reader(file, checksum);
    ghost var held := Prefix(file, Log(records));
    if held {
      LogHolds(records, file);
    }
    read := [];
    ghost var pos: nat, rest, n := 0, records, Wholly(0, records, |file|);
    assert records[..0] == [];
    var more := true;
    while more
      invariant fresh(reader) && reader.Valid()
      invariant held ==> |read| <= n && read == records[..|read|] && rest == records[|read|..]
      invariant held ==> reader.corruptions == [] && n == |read| + Wholly(pos, rest, |file|)
      invariant held && more ==> reader.Before(pos, AllFragments(pos, rest)) && pos + reader.Left() == |file|
      invariant held && !more ==> Wholly(pos, rest, |file|) == 0
      decreases more, reader.Left()
    {
      var ok, record := reader.ReadRecord(pos, rest);
      more := ok;
      if ok {
        read := read + [record];
        if held {
          pos, rest := EndRecord(pos, rest[0]), rest[1..];
        }
      }
    }
    corruptions := reader.corruptions;
  }

  lemma LogHolds(records: seq<Data>, file: Data)
    requires Prefix(file, Log(records))
    ensures Holds(0, AllFragments(0, records), [], file, false)
  {
    hide AllFragments, Layout, AllFit;
    RecordsFit(0, records);
    assert [] + file == file;
  }

  // What comes back, said without the reader: the records whose own log is no longer than the file.
  lemma WhollyIsLongest(records: seq<Data>, n: nat, k: nat)
    requires k <= |records|
    ensures k <= Wholly(0, records, n) <==> |Log(records[..k])| <= n
  {
    hide AllFragments, Layout;
    WhollyEnds(0, records, n, k);
    LayoutLength(0, AllFragments(0, records[..k]));
  }

  // An uncut log reads back whole.
  lemma UncutLogIsWhole(records: seq<Data>)
    ensures Wholly(0, records, |Log(records)|) == |records|
  {
    WhollyIsLongest(records, |Log(records)|, |records|);
    assert records[..|records|] == records;
  }
}
