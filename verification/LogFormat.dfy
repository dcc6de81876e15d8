// The write-ahead log on disk: 32 KB blocks of checksummed fragments (db/log_format.h),
// and the writer that lays records out in them (db/log_writer.cc).

module LogFormat {
  import opened Sequences
  import opened Bits
  import opened Crc32c

  const BLOCK_SIZE: nat := 32768
  const HEADER_SIZE: nat := 7

  const ZERO_TYPE: nat := 0
  const FULL_TYPE: nat := 1
  const FIRST_TYPE: nat := 2
  const MIDDLE_TYPE: nat := 3
  const LAST_TYPE: nat := 4

  // One physical record.
  datatype Fragment = Fragment(kind: nat, payload: Data)

  function Checksum(kind: nat, payload: Data): Word {
    Mask(Extend(Value(KindByte(kind)), payload))
  }

  function LengthBytes(length: nat): (r: Data)
    ensures |r| == 2
  {
    [ByteOf(length % 256), ByteOf(length / 256)]
  }

  function KindByte(kind: nat): (r: Data)
    ensures |r| == 1
  {
    [ByteOf(kind)]
  }

  function Header(f: Fragment): (r: Data)
    ensures |r| == HEADER_SIZE
  {
    EncodeFixed32(Checksum(f.kind, f.payload)) + LengthBytes(|f.payload|) + KindByte(f.kind)
  }

  // The place in its block of the byte that follows w bytes.
  function Offset(w: nat): (r: nat)
    ensures r < BLOCK_SIZE
  {
    w % 32768
  }

  // Where the physical record that follows w bytes begins: no header is split by a block's end.
  function Start(w: nat): (r: nat)
    ensures w <= r < w + HEADER_SIZE
    ensures BLOCK_SIZE - Offset(r) >= HEADER_SIZE
    ensures r == w || Offset(r) == 0
  {
    var leftover := BLOCK_SIZE - Offset(w);
    if leftover < HEADER_SIZE then w + leftover else w
  }

  // Payload bytes that still fit in the block after w bytes.
  function Room(w: nat): nat {
    BLOCK_SIZE - Offset(Start(w)) - HEADER_SIZE
  }

  function End(w: nat, f: Fragment): nat {
    Start(w) + HEADER_SIZE + |f.payload|
  }

  function Zeros(n: nat): (r: Data)
    ensures |r| == n
  {
    seq(n, i => ByteOf(0))
  }

  // What a fragment appends to a file of w bytes.
  function Laid(w: nat, f: Fragment): (r: Data)
    ensures |r| == End(w, f) - w
  {
    Zeros(Start(w) - w) + Header(f) + f.payload
  }

  function Layout(w: nat, fs: seq<Fragment>): Data
    decreases |fs|
  {
    if fs == [] then [] else Laid(w, fs[0]) + Layout(End(w, fs[0]), fs[1..])
  }

  function EndAll(w: nat, fs: seq<Fragment>): nat
    decreases |fs|
  {
    if fs == [] then w else EndAll(End(w, fs[0]), fs[1..])
  }

  function KindOf(begin: bool, end: bool): nat {
    if begin && end then FULL_TYPE else if begin then FIRST_TYPE else if end then LAST_TYPE else MIDDLE_TYPE
  }

  // The fragments of a record (of its tail, once begun) appended to a file of w bytes.
  function Fragments(w: nat, data: Data, begin: bool): seq<Fragment>
    decreases |data|, if Room(w) == 0 then 1 else 0
  {
    if |data| <= Room(w) then
      [Fragment(KindOf(begin, true), data)]
    else
      var f := Fragment(KindOf(begin, false), data[..Room(w)]);
      assert Room(w) == 0 ==> Offset(End(w, f)) == 0;
      [f] + Fragments(End(w, f), data[Room(w)..], false)
  }

  function EndRecord(w: nat, data: Data): nat {
    EndAll(w, Fragments(w, data, true))
  }

  // Records one after another.
  function AllFragments(w: nat, records: seq<Data>): seq<Fragment>
    decreases |records|
  {
    if records == [] then [] else
      Fragments(w, records[0], true) + AllFragments(EndRecord(w, records[0]), records[1..])
  }

  // The log file that holds these records.
  function Log(records: seq<Data>): Data {
    Layout(0, AllFragments(0, records))
  }

  // A fragment stays inside its block and has a type the reader knows.
  predicate Fits(w: nat, f: Fragment) {
    FULL_TYPE <= f.kind <= LAST_TYPE && |f.payload| <= Room(w)
  }

  predicate AllFit(w: nat, fs: seq<Fragment>)
    decreases |fs|
  {
    fs == [] || (Fits(w, fs[0]) && AllFit(End(w, fs[0]), fs[1..]))
  }

  // ---- Sizes and concatenation. ----

  lemma {:induction false} LayoutLength(w: nat, fs: seq<Fragment>)
    ensures w + |Layout(w, fs)| == EndAll(w, fs)
    decreases |fs|
  {
    if fs != [] {
      LayoutLength(End(w, fs[0]), fs[1..]);
    }
  }

  lemma {:induction false} LayoutConcat(w: nat, a: seq<Fragment>, b: seq<Fragment>)
    ensures EndAll(w, a + b) == EndAll(EndAll(w, a), b)
    ensures Layout(w, a + b) == Layout(w, a) + Layout(EndAll(w, a), b)
    decreases |a|
  {
    hide End, Laid;
    if a == [] {
      assert a + b == b;
    } else {
      assert (a + b)[1..] == a[1..] + b;
      LayoutConcat(End(w, a[0]), a[1..], b);
    }
  }

  lemma {:induction false} AllFitConcat(w: nat, a: seq<Fragment>, b: seq<Fragment>)
    requires AllFit(w, a) && AllFit(EndAll(w, a), b)
    ensures AllFit(w, a + b)
    decreases |a|
  {
    hide End, Fits;
    if a == [] {
      assert a + b == b;
    } else {
      assert (a + b)[1..] == a[1..] + b;
      AllFitConcat(End(w, a[0]), a[1..], b);
    }
  }

  lemma {:induction false} FragmentsFit(w: nat, data: Data, begin: bool)
    ensures AllFit(w, Fragments(w, data, begin))
    decreases |data|, if Room(w) == 0 then 1 else 0
  {
    if |data| > Room(w) {
      var f := Fragment(KindOf(begin, false), data[..Room(w)]);
      var rest := Fragments(End(w, f), data[Room(w)..], false);
      assert Fragments(w, data, begin)[1..] == rest;
      FragmentsFit(End(w, f), data[Room(w)..], false);
    } else {
      assert AllFit(End(w, Fragments(w, data, begin)[0]), Fragments(w, data, begin)[1..]);
    }
  }

  lemma {:induction false} RecordsFit(w: nat, records: seq<Data>)
    ensures AllFit(w, AllFragments(w, records))
    decreases |records|
  {
    hide Fragments, Fits;
    if records != [] {
      FragmentsFit(w, records[0], true);
      RecordsFit(EndRecord(w, records[0]), records[1..]);
      AllFitConcat(w, Fragments(w, records[0], true), AllFragments(EndRecord(w, records[0]), records[1..]));
    }
  }

  lemma NoZeros()
    ensures Zeros(0) == []
  {
  }

  // Padding can be laid on its own.
  lemma StartAgain(w: nat)
    ensures Start(Start(w)) == Start(w)
  {
  }

  lemma LaidSkipsTrailer(w: nat, f: Fragment)
    ensures Start(Start(w)) == Start(w)
    ensures Laid(w, f) == Zeros(Start(w) - w) + Laid(Start(w), f)
  {
    hide Start, Header, Offset, Zeros;
    StartAgain(w);
    NoZeros();
    var none := Zeros(0);
    assert Laid(Start(w), f) == none + Header(f) + f.payload;
    assert none + Header(f) == Header(f);
    Associates(Zeros(Start(w) - w), Header(f), f.payload);
  }

  lemma LayoutSkipsTrailer(w: nat, fs: seq<Fragment>)
    requires fs != []
    ensures Layout(w, fs) == Zeros(Start(w) - w) + Layout(Start(w), fs)
  {
    LaidSkipsTrailer(w, fs[0]);
    var pad, first, rest := Zeros(Start(w) - w), Laid(Start(w), fs[0]), Layout(End(w, fs[0]), fs[1..]);
    assert End(Start(w), fs[0]) == End(w, fs[0]);
    assert Layout(w, fs) == Laid(w, fs[0]) + rest;
    assert Layout(Start(w), fs) == first + rest;
    hide *;
    Associates(pad, first, rest);
  }

  // Appending a record to a log extends its file.
  lemma {:induction false} AllFragmentsAppend(w: nat, records: seq<Data>, data: Data)
    ensures AllFragments(w, records + [data])
         == AllFragments(w, records) + Fragments(EndAll(w, AllFragments(w, records)), data, true)
    decreases |records|
  {
    hide Fragments;
    if records == [] {
      assert records + [data] == [data];
      assert AllFragments(w, [data]) == Fragments(w, data, true) + AllFragments(EndRecord(w, data), []);
    } else {
      hide EndAll;
      var first, end := Fragments(w, records[0], true), EndRecord(w, records[0]);
      var rest := AllFragments(end, records[1..]);
      AppendFirst(records, data);
      AllFragmentsAppend(end, records[1..], data);
      LayoutConcat(w, first, rest);
      var last := Fragments(EndAll(w, first + rest), data, true);
      assert AllFragments(w, records + [data]) == first + (rest + last);
      Associates(first, rest, last);
    }
  }

  lemma LogAppend(records: seq<Data>, data: Data)
    ensures Log(records + [data]) == Log(records) + Layout(|Log(records)|, Fragments(|Log(records)|, data, true))
  {
    hide Fragments, AllFragments, Layout;
    var fs := AllFragments(0, records);
    AllFragmentsAppend(0, records, data);
    LayoutLength(0, fs);
    LayoutConcat(0, fs, Fragments(|Log(records)|, data, true));
  }


  // ---- The writer. ----

  // What writing the rest of a record appends.
  ghost function Tail(w: nat, data: Data, begin: bool): Data {
    Layout(w, Fragments(w, data, begin))
  }

  lemma LogGrows(records: seq<Data>, data: Data)
    ensures Log(records + [data]) == Log(records) + Tail(|Log(records)|, data, true)
  {
    hide Fragments, AllFragments, Layout, Log;
    LogAppend(records, data);
  }

  function FirstLength(w: nat, data: Data): (r: nat)
    ensures r <= |data|
  {
    if |data| < Room(w) then |data| else Room(w)
  }

  // The first fragment of what is left, and the rest.
  lemma TailStep(w: nat, data: Data, begin: bool)
    ensures var length := FirstLength(w, data);
      var f := Fragment(KindOf(begin, |data| == length), data[..length]);
      Tail(w, data, begin) == Laid(w, f) + if |data| == length then [] else Tail(End(w, f), data[length..], false)
  {
    var length := FirstLength(w, data);
    var f := Fragment(KindOf(begin, |data| == length), data[..length]);
    if |data| == length {
      assert data[..length] == data;
      assert Fragments(w, data, begin) == [f];
      hide Start, Header, Laid, Fragments;
      assert [f][1..] == [];
      assert Layout(End(w, f), []) == [];
    } else {
      var rest := Fragments(End(w, f), data[length..], false);
      assert Fragments(w, data, begin) == [f] + rest;
      hide Start, Header, Laid, Fragments;
      FirstAndRest(f, rest);
    }
  }

  class Writer {
    var dest: Data
    var blockOffset: nat
    ghost var records: seq<Data>

    ghost predicate Valid()
      reads this
    {
      dest == Log(records) && Placed()
    }

    ghost predicate Placed()
      reads `dest, `blockOffset
    {
      blockOffset == Offset(|dest|) || (blockOffset == BLOCK_SIZE && Offset(|dest|) == 0)
    }

    constructor ()
      ensures Valid() && records == [] && dest == []
    {
      dest, blockOffset, records := [], 0, [];
    }

    // The file always holds exactly the log of the records added, in order.
    method AddRecord(slice: Data)
      requires Valid()
      modifies this
      ensures Valid() && records == old(records) + [slice]
    {
      hide Tail, Log, Room, Placed, Offset;
      ghost var goal := dest + Tail(|dest|, slice, true);
      LogGrows(records, slice);
      assert slice[0..] == slice;
      var ptr, begin, more := 0, true, true;
      while more
        invariant ptr <= |slice| && Placed() && records == old(records)
        invariant dest + (if more then Tail(|dest|, slice[ptr..], begin) else []) == goal
        decreases if more then 1 else 0, |slice| - ptr, if Room(|dest|) == 0 then 1 else 0
      {
        var length := AddFragment(slice[ptr..], begin);
        assert slice[ptr..][length..] == slice[ptr + length..];
        ptr := ptr + length;
        begin := false;
        more := ptr < |slice|;
      }
      records := records + [slice];
    }

    // One turn of the loop in AddRecord: how many bytes of what is left went out.
    method AddFragment(left: Data, begin: bool) returns (length: nat)
      requires Placed()
      modifies `dest, `blockOffset
      ensures Placed() && length <= |left|
      ensures dest + (if length < |left| then Tail(|dest|, left[length..], false) else [])
           == old(dest) + Tail(old(|dest|), left, begin)
      ensures length == 0 ==> |left| == 0 || (Room(old(|dest|)) == 0 && Room(|dest|) > 0)
    {
      hide Tail, Laid, Start, End, Header, Zeros, Offset;
      ghost var before, w := dest, |dest|;
      TailStep(w, left, begin);
      SwitchBlock();
      var avail := BLOCK_SIZE - blockOffset - HEADER_SIZE;
      length := if |left| < avail then |left| else avail;
      var end := |left| == length;
      ghost var f := Fragment(KindOf(begin, end), left[..length]);
      EmitPhysicalRecord(KindOf(begin, end), left[..length]);
      LaidOnto(before, w, f);
      EndsAt(w, f);
      Associates(before, Laid(w, f), if end then [] else Tail(End(w, f), left[length..], false));
    }

    method SwitchBlock()
      requires Placed()
      modifies `dest, `blockOffset
      ensures dest == old(dest) + Zeros(Start(old(|dest|)) - old(|dest|))
      ensures blockOffset == Offset(Start(old(|dest|))) && blockOffset + HEADER_SIZE <= BLOCK_SIZE
    {
      StartsAt(|dest|, blockOffset);
      var leftover := BLOCK_SIZE - blockOffset;
      if leftover < HEADER_SIZE {
        if leftover > 0 {
          dest := dest + Zeros(leftover);
        }
        blockOffset := 0;
      }
    }

    method EmitPhysicalRecord(kind: nat, payload: Data)
      requires blockOffset + HEADER_SIZE + |payload| <= BLOCK_SIZE
      modifies `dest, `blockOffset
      ensures dest == old(dest) + Header(Fragment(kind, payload)) + payload
      ensures blockOffset == old(blockOffset) + HEADER_SIZE + |payload|
    {
      // The checksum of the type byte alone is kept ready for every type.
      var typeCrc := Value(KindByte(kind));
      var crc := Mask(Extend(typeCrc, payload));
      dest := dest + (EncodeFixed32(crc) + LengthBytes(|payload|) + KindByte(kind));
      dest := dest + payload;
      blockOffset := blockOffset + HEADER_SIZE + |payload|;
    }
  }

  lemma StartsAt(w: nat, blockOffset: nat)
    requires blockOffset == Offset(w) || (blockOffset == BLOCK_SIZE && Offset(w) == 0)
    ensures if BLOCK_SIZE - blockOffset < HEADER_SIZE
      then Start(w) == w + (BLOCK_SIZE - blockOffset) && Offset(Start(w)) == 0
      else Start(w) == w && blockOffset == Offset(w)
  {
  }

  lemma EndsAt(w: nat, f: Fragment)
    requires |f.payload| <= Room(w)
    ensures var offset := Offset(Start(w)) + HEADER_SIZE + |f.payload|;
      offset == Offset(End(w, f)) || (offset == BLOCK_SIZE && Offset(End(w, f)) == 0)
    ensures Room(w) == 0 ==> Room(End(w, f)) > 0
  {
  }

  lemma LaidOnto(dest: Data, w: nat, f: Fragment)
    ensures (dest + Zeros(Start(w) - w)) + Header(f) + f.payload == dest + Laid(w, f)
  {
    hide Header, Start, Zeros;
    AssociatesFour(dest, Zeros(Start(w) - w), Header(f), f.payload);
  }
}
