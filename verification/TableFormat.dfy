// The frame of a table file (table/format.cc): handles of blocks, the trailer behind each block,
// and the footer.

module TableFormat {
  import opened Sequences
  import opened Bits
  import opened Crc32c
  import opened Coding
  import opened History

  // Two 64-bit numbers.
  datatype BlockHandle = BlockHandle(offset: nat, size: nat)

  ghost predicate Wide(h: BlockHandle) {
    h.offset < TWO_64 && h.size < TWO_64
  }

  function HandleBytes(h: BlockHandle): Data {
    Varint(h.offset % 0x1_0000_0000_0000_0000) + Varint(h.size % 0x1_0000_0000_0000_0000)
  }

  function ReadHandle(input: Data): Option<(BlockHandle, Data)> {
    match ReadVarint64(input)
    case None => None
    case Some(o) =>
      match ReadVarint64(o.1)
      case None => None
      case Some(n) => Some((BlockHandle(o.0, n.0), n.1))
  }

  lemma ReadsHandle(h: BlockHandle, rest: Data)
    requires Wide(h)
    ensures ReadHandle(HandleBytes(h) + rest) == Some((h, rest))
  {
    hide Varint, ReadVarint64;
    ReadsVarint64(h.offset, Varint(h.size) + rest);
    ReadsVarint64(h.size, rest);
    Associates(Varint(h.offset), Varint(h.size), rest);
  }

  lemma HandleShort(h: BlockHandle)
    ensures |HandleBytes(h)| <= 20
  {
    hide Varint;
    assert Pow128(5) == 0x8_0000_0000;
    assert Pow128(10) == 0x40_0000_0000_0000_0000;
    VarintShort(h.offset % 0x1_0000_0000_0000_0000, 10);
    VarintShort(h.size % 0x1_0000_0000_0000_0000, 10);
  }

  // ---- The trailer: the block's type, always uncompressed here, and a masked checksum of both. ----

  function TypeByte(): Data {
    [ByteOf(0)]
  }

  function Trailer(contents: Data): (r: Data)
    ensures |r| == 5
  {
    TypeByte() + EncodeFixed32(Mask(Extend(Value(contents), TypeByte())))
  }

  // A block and its trailer at a place in a file.
  ghost predicate Stored(file: Data, at: nat, contents: Data) {
    at + |contents| + 5 <= |file| && file[at..at + |contents| + 5] == contents + Trailer(contents)
  }

  lemma StoredStays(file: Data, more: Data, at: nat, contents: Data)
    requires Stored(file, at, contents)
    ensures Stored(file + more, at, contents)
  {
    hide Trailer;
    assert (file + more)[at..at + |contents| + 5] == file[at..at + |contents| + 5];
  }

  lemma StoredNow(file: Data, contents: Data)
    ensures Stored((file + contents) + Trailer(contents), |file|, contents)
  {
    hide Trailer;
    var f := (file + contents) + Trailer(contents);
    assert f == file + (contents + Trailer(contents));
  }

  // What is wrong with a block that cannot be read.
  datatype BlockError = Truncated | ChecksumMismatch | BadType

  datatype ReadResult = Contents(data: Data) | Failed(error: BlockError)

  // ReadBlock; compression is not linked in, so that any type but zero is an error.
  function ReadBlock(file: Data, verifyChecksums: bool, h: BlockHandle): (r: ReadResult)
    ensures r.Contents? ==> h.offset + h.size + 5 <= |file| && r.data == file[h.offset..h.offset + h.size]
  {
    var n := h.size;
    if |file| < h.offset + n + 5 then
      Failed(Truncated)
    else
      var data := file[h.offset..h.offset + n + 5];
      if verifyChecksums && Value(data[..n + 1]) != Unmask(DecodeFixed32(data[n + 1..])) then
        Failed(ChecksumMismatch)
      else if NumberOf(data[n]) != 0 then
        Failed(BadType)
      else
        Contents(data[..n])
  }

  // What was written is read, with or without a look at the checksum.
  lemma ReadsBlock(file: Data, verifyChecksums: bool, at: nat, contents: Data)
    requires Stored(file, at, contents)
    ensures ReadBlock(file, verifyChecksums, BlockHandle(at, |contents|)) == Contents(contents)
  {
    hide Extend, Value, Mask, Unmask, EncodeFixed32, DecodeFixed32, NumberOf, ByteOf;
    var n := |contents|;
    var data := file[at..at + n + 5];
    var crc := Extend(Value(contents), TypeByte());
    var masked := EncodeFixed32(Mask(crc));
    assert data == contents + (TypeByte() + masked);
    assert data[..n] == contents && data[n] == ByteOf(0);
    assert data[..n + 1] == contents + TypeByte();
    assert data[n + 1..] == masked + [];
    ByteRoundTrip(0);
    WholeValue(contents, TypeByte());
    UnmaskInvertsMask(crc);
    Fixed32RoundTrip(Mask(crc), []);
  }

  lemma WholeValue(a: Data, b: Data)
    ensures Extend(Value(a), b) == Value(a + b)
  {
    ExtendComposes(Zero(), a, b);
  }

  // ---- The footer: two handles, padding, a magic number. ----

  datatype Footer = Footer(metaindex: BlockHandle, index: BlockHandle)

  const FOOTER_LENGTH: nat := 48

  // kTableMagicNumber, 0xdb4775248b80fb57, low word first.
  function Magic(): (r: Data)
    ensures |r| == 8
  {
    Fixed32(0x8b80fb57) + Fixed32(0xdb477524)
  }

  function Padding(n: nat): (r: Data)
    ensures |r| == n
  {
    seq(n, i => ByteOf(0))
  }

  lemma HandlesFit(f: Footer)
    ensures |HandleBytes(f.metaindex)| + |HandleBytes(f.index)| <= 40
  {
    HandleShort(f.metaindex);
    HandleShort(f.index);
  }

  function FooterBytes(f: Footer): (r: Data)
    ensures |r| == 48
  {
    HandlesFit(f);
    var handles := HandleBytes(f.metaindex) + HandleBytes(f.index);
    handles + Padding(40 - |handles|) + Magic()
  }

  function ReadFooter(input: Data): Option<Footer>
    requires |input| == 48
  {
    var magicAt := input[40..];
    if ReadFixed32(magicAt) != 0x8b80fb57 || ReadFixed32(magicAt[4..]) != 0xdb477524 then None
    else
      match ReadHandle(input)
      case None => None
      case Some(m) =>
        match ReadHandle(m.1)
        case None => None
        case Some(i) => Some(Footer(m.0, i.0))
  }

  lemma ReadsFooter(f: Footer)
    requires Wide(f.metaindex) && Wide(f.index)
    ensures ReadFooter(FooterBytes(f)) == Some(f)
  {
    hide HandleBytes, ReadHandle, Fixed32, ReadFixed32, Padding;
    HandlesFit(f);
    var m, i := HandleBytes(f.metaindex), HandleBytes(f.index);
    var pad := Padding(40 - |m + i|);
    var s := FooterBytes(f);
    assert s[40..] == Fixed32(0x8b80fb57) + Fixed32(0xdb477524);
    assert s[40..][4..] == Fixed32(0xdb477524) + [];
    ReadsFixed32(0x8b80fb57, Fixed32(0xdb477524));
    ReadsFixed32(0xdb477524, []);
    assert s == m + (i + (pad + Magic()));
    ReadsHandle(f.metaindex, i + (pad + Magic()));
    ReadsHandle(f.index, pad + Magic());
  }
}
