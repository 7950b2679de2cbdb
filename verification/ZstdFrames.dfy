/**
 * Finding the complete frames of a Zstandard artifact (section 3.1.1 of RFC 8878) without decompressing them. Frames
 * are written one after the other, and the last one may have been cut off at any byte.
 */
module ZstdFrames {
  import opened Outcomes
  import opened Lines

  datatype Frame = Frame(start: nat, end: nat)
  datatype Scan = Torn | Corrupt(fault: string) | Complete(end: nat)

  const MAGIC := 0xFD2FB528

  function Word(b: seq<Byte>, at: nat): int
    requires at + 4 <= |b|
  {
    (b[at] as int) + (b[at + 1] as int) * 0x100 + (b[at + 2] as int) * 0x10000 + (b[at + 3] as int) * 0x1000000
  }

  function BlockHeader(b: seq<Byte>, at: nat): int
    requires at + 3 <= |b|
  {
    (b[at] as int) + (b[at + 1] as int) * 0x100 + (b[at + 2] as int) * 0x10000
  }

  predicate SingleSegment(descriptor: Byte) {
    descriptor / 0x20 % 2 == 1
  }

  predicate Checksummed(descriptor: Byte) {
    descriptor / 4 % 2 == 1
  }

  predicate ReservedBits(descriptor: Byte) {
    descriptor / 8 % 4 != 0
  }

  function DictionaryBytes(descriptor: Byte): nat {
    if descriptor % 4 == 3 then 4 else descriptor % 4
  }

  function ContentSizeBytes(descriptor: Byte): nat {
    match descriptor / 0x40
    case 0 => if SingleSegment(descriptor) then 1 else 0
    case 1 => 2
    case 2 => 4
    case _ => 8
  }

  /** The header bytes that follow the frame header descriptor. */
  function HeaderBytes(descriptor: Byte): nat {
    (if SingleSegment(descriptor) then 0 else 1) + DictionaryBytes(descriptor) + ContentSizeBytes(descriptor)
  }

  predicate LastBlock(h: int) {
    h % 2 == 1
  }

  function BlockType(h: int): int {
    h / 2 % 4
  }

  /** A run-length block stores one byte whatever size it stands for. */
  function PayloadBytes(h: int): int {
    if BlockType(h) == 1 then 1 else h / 8
  }

  const RESERVED_BLOCK := "Reserved Zstandard block type"
  const BAD_MAGIC := "Invalid Zstandard frame magic"
  const RESERVED_BIT := "Reserved Zstandard frame bit"
  const NO_CHECKSUM := "Rc1 Zstandard frames must carry the audited checksum flag"

  /** Reads blocks up to and including the last one. */
  function ScanBlocks(b: seq<Byte>, offset: nat): (r: Scan)
    requires offset <= |b|
    ensures r.Complete? ==> offset < r.end <= |b|
    decreases |b| - offset
  {
    if |b| - offset < 3 then Torn
    else
      var h := BlockHeader(b, offset);
      if BlockType(h) == 3 then Corrupt(RESERVED_BLOCK)
      else if |b| - (offset + 3) < PayloadBytes(h) then Torn
      else if LastBlock(h) then Complete(offset + 3 + PayloadBytes(h))
      else ScanBlocks(b, offset + 3 + PayloadBytes(h))
  }

  /** The frame at an offset: complete, cut off, or not one that may occur in an artifact. */
  function ScanFrame(b: seq<Byte>, start: nat): (r: Scan)
    requires start <= |b|
    ensures r.Complete? ==> start < r.end <= |b|
  {
    if |b| - start < 4 then Torn
    else if Word(b, start) != MAGIC then Corrupt(BAD_MAGIC)
    else if |b| - start == 4 then Torn
    else
      var descriptor := b[start + 4];
      var blocks := start + 5 + HeaderBytes(descriptor);
      if ReservedBits(descriptor) then Corrupt(RESERVED_BIT)
      else if !Checksummed(descriptor) then Corrupt(NO_CHECKSUM)
      else if |b| < blocks then Torn
      else
        match ScanBlocks(b, blocks)
        case Torn => Torn
        case Corrupt(fault) => Corrupt(fault)
        case Complete(end) => if |b| - end < 4 then Torn else Complete(end + 4)
  }

  /** The complete frames from an offset on; a frame cut off at the end is left out. */
  function ScanFrames(b: seq<Byte>, offset: nat): Result<seq<Frame>>
    requires offset <= |b|
    decreases |b| - offset
  {
    if offset == |b| then Ok([])
    else
      match ScanFrame(b, offset)
      case Torn => Ok([])
      case Corrupt(fault) => Err(fault)
      case Complete(end) => Joined([Frame(offset, end)], ScanFrames(b, end))
  }

  function Joined(frames: seq<Frame>, rest: Result<seq<Frame>>): Result<seq<Frame>> {
    match rest
    case Ok(more) => Ok(frames + more)
    case Err(fault) => Err(fault)
  }

  // ----- the scan of the source

  lemma JoinedTwice(a: seq<Frame>, b: seq<Frame>, rest: Result<seq<Frame>>)
    ensures Joined(a, Joined(b, rest)) == Joined(a + b, rest)
  {
    if rest.Ok? {
      assert a + (b + rest.value) == a + b + rest.value;
    }
  }

  method ScanZstdBlocks(buffer: seq<Byte>, start: nat) returns (r: Scan)
    requires start <= |buffer|
    ensures r == ScanBlocks(buffer, start)
  {
    var offset := start;
    while true
      invariant start <= offset <= |buffer|
      invariant ScanBlocks(buffer, start) == ScanBlocks(buffer, offset)
      decreases |buffer| - offset
    {
      if |buffer| - offset < 3 {
        return Torn;
      }
      var blockHeader := BlockHeader(buffer, offset);
      offset := offset + 3;
      var blockType := blockHeader / 2 % 4;
      if blockType == 3 {
        return Corrupt(RESERVED_BLOCK);
      }
      var payloadBytes := if blockType == 1 then 1 else blockHeader / 8;
      if |buffer| - offset < payloadBytes {
        return Torn;
      }
      offset := offset + payloadBytes;
      if blockHeader % 2 == 1 {
        return Complete(offset);
      }
    }
  }

  method ScanZstdFrames(buffer: seq<Byte>) returns (r: Result<seq<Frame>>)
    ensures r == ScanFrames(buffer, 0)
  {
    hide Word, ReservedBits, Checksummed, HeaderBytes;
    var frames: seq<Frame> := [];
    var offset := 0;
    assert Joined([], ScanFrames(buffer, 0)) == ScanFrames(buffer, 0) by {
      if ScanFrames(buffer, 0).Ok? {
        assert [] + ScanFrames(buffer, 0).value == ScanFrames(buffer, 0).value;
      }
    }
    while offset < |buffer|
      invariant 0 <= offset <= |buffer|
      invariant Joined(frames, ScanFrames(buffer, offset)) == ScanFrames(buffer, 0)
      decreases |buffer| - offset
    {
      var start := offset;
      if |buffer| - offset < 4 {
        break;
      }
      if Word(buffer, offset) != MAGIC {
        return Err(BAD_MAGIC);
      }
      offset := offset + 4;
      if offset == |buffer| {
        offset := start;
        break;
      }
      var descriptor := buffer[offset];
      offset := offset + 1;
      if ReservedBits(descriptor) {
        return Err(RESERVED_BIT);
      }
      if !Checksummed(descriptor) {
        return Err(NO_CHECKSUM);
      }
      if |buffer| - offset < HeaderBytes(descriptor) {
        offset := start;
        break;
      }
      offset := offset + HeaderBytes(descriptor);
      var blocks := ScanZstdBlocks(buffer, offset);
      if blocks.Corrupt? {
        return Err(blocks.fault);
      }
      if blocks.Torn? || |buffer| - blocks.end < 4 {
        offset := start;
        break;
      }
      offset := blocks.end + 4;
      JoinedTwice(frames, [Frame(start, offset)], ScanFrames(buffer, offset));
      frames := frames + [Frame(start, offset)];
    }
    assert offset == |buffer| || ScanFrame(buffer, offset) == Torn;
    assert frames + [] == frames;
    return Ok(frames);
  }

  // ----- frames follow one another

  /** Frames lie end to end from an offset on. */
  predicate EndToEnd(frames: seq<Frame>, offset: nat) {
    frames == [] || (frames[0].start == offset < frames[0].end && EndToEnd(frames[1..], frames[0].end))
  }

  lemma {:induction false} ScannedEndToEnd(b: seq<Byte>, offset: nat)
    requires offset <= |b| && ScanFrames(b, offset).Ok?
    ensures EndToEnd(ScanFrames(b, offset).value, offset)
    ensures forall f :: f in ScanFrames(b, offset).value
              ==> f.start < f.end <= |b| && ScanFrame(b, f.start) == Complete(f.end)
    decreases |b| - offset
  {
    if offset < |b| && ScanFrame(b, offset).Complete? {
      var end := ScanFrame(b, offset).end;
      ScannedEndToEnd(b, end);
      var rest := ScanFrames(b, end).value;
      assert ScanFrames(b, offset).value == [Frame(offset, end)] + rest;
      assert ([Frame(offset, end)] + rest)[1..] == rest;
    }
  }

  // ----- cutting the artifact

  function Cut(scan: Scan, n: nat): Scan {
    if scan.Complete? && scan.end > n then Torn else scan
  }

  lemma {:induction false} BlocksCut(b: seq<Byte>, offset: nat, n: nat)
    requires offset <= n <= |b| && !ScanBlocks(b, offset).Corrupt?
    ensures ScanBlocks(b[..n], offset) == Cut(ScanBlocks(b, offset), n)
    decreases |b| - offset
  {
    if |b| - offset >= 3 && n - offset >= 3 {
      assert BlockHeader(b[..n], offset) == BlockHeader(b, offset);
      var next := offset + 3 + PayloadBytes(BlockHeader(b, offset));
      if next <= n && !LastBlock(BlockHeader(b, offset)) {
        BlocksCut(b, next, n);
      }
    }
  }

  lemma FrameCut(b: seq<Byte>, start: nat, n: nat)
    requires start <= n <= |b| && !ScanFrame(b, start).Corrupt?
    ensures ScanFrame(b[..n], start) == Cut(ScanFrame(b, start), n)
  {
    if |b| - start >= 4 && n - start >= 4 {
      assert Word(b[..n], start) == Word(b, start);
      if n - start > 4 {
        assert b[..n][start + 4] == b[start + 4];
        var blocks := start + 5 + HeaderBytes(b[start + 4]);
        if blocks <= n {
          BlocksCut(b, blocks, n);
        }
      }
    }
  }

  /** The frames that end by a position. */
  function UpTo(frames: seq<Frame>, n: nat): seq<Frame> {
    if frames == [] || frames[0].end > n then [] else [frames[0]] + UpTo(frames[1..], n)
  }

  /** Cutting an artifact leaves exactly the frames that end by the cut. */
  lemma {:induction false} FramesCut(b: seq<Byte>, offset: nat, n: nat)
    requires offset <= n <= |b| && ScanFrames(b, offset).Ok?
    ensures ScanFrames(b[..n], offset) == Ok(UpTo(ScanFrames(b, offset).value, n))
    decreases |b| - offset
  {
    if offset < |b| {
      FrameCut(b, offset, n);
      var frame := ScanFrame(b, offset);
      if frame.Complete? {
        var rest := ScanFrames(b, frame.end).value;
        assert ([Frame(offset, frame.end)] + rest)[1..] == rest;
        if frame.end <= n {
          FramesCut(b, frame.end, n);
        }
      }
    }
  }

  // ----- the frame format

  datatype Block = Raw(bytes: seq<Byte>) | Rle(byte: Byte, size: nat) | Compressed(bytes: seq<Byte>)

  datatype Layout = Layout(descriptor: Byte, header: seq<Byte>, blocks: seq<Block>, checksum: seq<Byte>)

  const SIZES := 0x200000

  function TypeOf(block: Block): int {
    match block
    case Raw(_) => 0
    case Rle(_, _) => 1
    case Compressed(_) => 2
  }

  function SizeOf(block: Block): nat {
    match block
    case Raw(bytes) => |bytes|
    case Rle(_, size) => size
    case Compressed(bytes) => |bytes|
  }

  predicate WellSized(block: Block) {
    SizeOf(block) < SIZES
  }

  predicate WellFormed(f: Layout) {
    && !ReservedBits(f.descriptor) && Checksummed(f.descriptor)
    && |f.header| == HeaderBytes(f.descriptor)
    && f.blocks != [] && (forall k :: 0 <= k < |f.blocks| ==> WellSized(f.blocks[k]))
    && |f.checksum| == 4
  }

  function HeaderOf(block: Block, last: bool): (h: int)
    requires WellSized(block)
    ensures 0 <= h < 0x1000000
  {
    (if last then 1 else 0) + TypeOf(block) * 2 + SizeOf(block) * 8
  }

  function Payload(block: Block): seq<Byte> {
    match block
    case Raw(bytes) => bytes
    case Rle(byte, _) => [byte]
    case Compressed(bytes) => bytes
  }

  function LittleEndian3(h: int): seq<Byte>
    requires 0 <= h < 0x1000000
  {
    [h % 0x100, h / 0x100 % 0x100, h / 0x10000]
  }

  function EncodeBlocks(blocks: seq<Block>): seq<Byte>
    requires forall k :: 0 <= k < |blocks| ==> WellSized(blocks[k])
  {
    if blocks == [] then []
    else LittleEndian3(HeaderOf(blocks[0], |blocks| == 1)) + Payload(blocks[0]) + EncodeBlocks(blocks[1..])
  }

  /** Magic number, descriptor, header, blocks of which the last is marked, and checksum. */
  function Encode(f: Layout): seq<Byte>
    requires WellFormed(f)
  {
    [0x28, 0xB5, 0x2F, 0xFD] + [f.descriptor] + f.header + EncodeBlocks(f.blocks) + f.checksum
  }

  /** A sequence of bytes lies at an offset. */
  predicate LiesAt(b: seq<Byte>, offset: nat, part: seq<Byte>) {
    offset + |part| <= |b| && b[offset..offset + |part|] == part
  }

  lemma LiesInParts(b: seq<Byte>, offset: nat, p: seq<Byte>, q: seq<Byte>)
    ensures LiesAt(b, offset, p + q) <==> LiesAt(b, offset, p) && LiesAt(b, offset + |p|, q)
  {
    if offset + |p + q| <= |b| {
      var all := b[offset..offset + |p + q|];
      assert all[..|p|] == b[offset..offset + |p|] && all[|p|..] == b[offset + |p|..offset + |p| + |q|];
      assert all == all[..|p|] + all[|p|..];
      assert (p + q)[..|p|] == p && (p + q)[|p|..] == q;
    }
  }

  lemma HeaderReads(b: seq<Byte>, offset: nat, h: int)
    requires 0 <= h < 0x1000000 && LiesAt(b, offset, LittleEndian3(h))
    ensures BlockHeader(b, offset) == h
  {
    var part := LittleEndian3(h);
    assert b[offset] == part[0] && b[offset + 1] == part[1] && b[offset + 2] == part[2] by {
      assert b[offset..offset + 3][0] == b[offset];
    }
  }

  lemma HeaderParts(block: Block, last: bool)
    requires WellSized(block)
    ensures var h := HeaderOf(block, last);
            LastBlock(h) == last && BlockType(h) == TypeOf(block) && PayloadBytes(h) == |Payload(block)|
  {
    var h, kind, size := HeaderOf(block, last), TypeOf(block), SizeOf(block);
    assert h / 2 == kind + size * 4 && h / 8 == size;
  }

  lemma {:induction false} EncodedBlocksScan(b: seq<Byte>, offset: nat, blocks: seq<Block>)
    requires blocks != [] && forall k :: 0 <= k < |blocks| ==> WellSized(blocks[k])
    requires LiesAt(b, offset, EncodeBlocks(blocks))
    ensures ScanBlocks(b, offset) == Complete(offset + |EncodeBlocks(blocks)|)
    decreases |blocks|
  {
    hide HeaderOf, BlockHeader, PayloadBytes;
    var h := HeaderOf(blocks[0], |blocks| == 1);
    HeaderParts(blocks[0], |blocks| == 1);
    var front := LittleEndian3(h) + Payload(blocks[0]);
    assert EncodeBlocks(blocks) == front + EncodeBlocks(blocks[1..]);
    LiesInParts(b, offset, front, EncodeBlocks(blocks[1..]));
    LiesInParts(b, offset, LittleEndian3(h), Payload(blocks[0]));
    HeaderReads(b, offset, h);
    if |blocks| > 1 {
      EncodedBlocksScan(b, offset + |front|, blocks[1..]);
    }
  }

  const MAGIC_BYTES: seq<Byte> := [0x28, 0xB5, 0x2F, 0xFD]

  lemma MagicReads(b: seq<Byte>, at: nat)
    requires at + 4 <= |b|
    ensures Word(b, at) == MAGIC <==> LiesAt(b, at, MAGIC_BYTES)
  {
    var four := b[at..at + 4];
    assert four[0] == b[at] && four[1] == b[at + 1] && four[2] == b[at + 2] && four[3] == b[at + 3];
    if four == MAGIC_BYTES {
      assert b[at] == 0x28 && b[at + 1] == 0xB5 && b[at + 2] == 0x2F && b[at + 3] == 0xFD;
    }
    if Word(b, at) == MAGIC {
      var w: int := Word(b, at);
      assert w % 0x100 == b[at] && w / 0x100 % 0x100 == b[at + 1] && w / 0x10000 % 0x100 == b[at + 2]
          && w / 0x1000000 == b[at + 3];
      assert four == MAGIC_BYTES;
    }
  }

  lemma EncodedFrameScans(b: seq<Byte>, start: nat, f: Layout)
    requires start <= |b| && WellFormed(f) && LiesAt(b, start, Encode(f))
    ensures ScanFrame(b, start) == Complete(start + |Encode(f)|)
  {
    hide ScanBlocks, EncodeBlocks, Word;
    var front := MAGIC_BYTES + [f.descriptor];
    var blocks := EncodeBlocks(f.blocks);
    LiesInParts(b, start, front + f.header + blocks, f.checksum);
    LiesInParts(b, start, front + f.header, blocks);
    LiesInParts(b, start, front, f.header);
    LiesInParts(b, start, MAGIC_BYTES, [f.descriptor]);
    MagicReads(b, start);
    assert b[start + 4..start + 5][0] == f.descriptor;
    EncodedBlocksScan(b, start + 5 + |f.header|, f.blocks);
  }

  lemma HeaderBytesOf(b: seq<Byte>, offset: nat, block: Block, last: bool)
    requires offset + 3 <= |b| && WellSized(block)
    requires BlockHeader(b, offset) == HeaderOf(block, last)
    ensures LiesAt(b, offset, LittleEndian3(HeaderOf(block, last)))
  {
    var h, part := BlockHeader(b, offset), b[offset..offset + 3];
    assert part[0] == b[offset] && part[1] == b[offset + 1] && part[2] == b[offset + 2];
    assert h % 0x100 == b[offset] && h / 0x100 % 0x100 == b[offset + 1] && h / 0x10000 == b[offset + 2];
  }

  function BlockAt(b: seq<Byte>, offset: nat): Block
    requires offset + 3 <= |b| && offset + 3 + PayloadBytes(BlockHeader(b, offset)) <= |b|
  {
    var h := BlockHeader(b, offset);
    if BlockType(h) == 0 then Raw(b[offset + 3..offset + 3 + h / 8])
    else if BlockType(h) == 1 then Rle(b[offset + 3], h / 8)
    else Compressed(b[offset + 3..offset + 3 + PayloadBytes(h)])
  }

  lemma BlockAtHeader(b: seq<Byte>, offset: nat)
    requires offset + 3 <= |b| && offset + 3 + PayloadBytes(BlockHeader(b, offset)) <= |b|
    requires BlockType(BlockHeader(b, offset)) != 3
    ensures var block := BlockAt(b, offset);
            && WellSized(block)
            && HeaderOf(block, LastBlock(BlockHeader(b, offset))) == BlockHeader(b, offset)
            && LiesAt(b, offset + 3, Payload(block))
  {
    var h := BlockHeader(b, offset);
    assert h == h % 2 + h / 2 % 4 * 2 + h / 8 * 8;
  }

  lemma {:induction false} ScannedBlocks(b: seq<Byte>, offset: nat) returns (blocks: seq<Block>)
    requires offset <= |b| && ScanBlocks(b, offset).Complete?
    ensures blocks != [] && forall k :: 0 <= k < |blocks| ==> WellSized(blocks[k])
    ensures LiesAt(b, offset, EncodeBlocks(blocks))
            && ScanBlocks(b, offset) == Complete(offset + |EncodeBlocks(blocks)|)
    decreases |b| - offset
  {
    hide HeaderOf, BlockHeader, BlockAt, LiesAt;
    var h, block := BlockHeader(b, offset), BlockAt(b, offset);
    BlockAtHeader(b, offset);
    HeaderParts(block, LastBlock(h));
    HeaderBytesOf(b, offset, block, LastBlock(h));
    var front := LittleEndian3(h) + Payload(block);
    LiesInParts(b, offset, LittleEndian3(h), Payload(block));
    var rest: seq<Block> := [];
    if !LastBlock(h) {
      rest := ScannedBlocks(b, offset + |front|);
    } else {
      NothingLies(b, offset + |front|);
    }
    blocks := [block] + rest;
    assert blocks[1..] == rest;
    LiesInParts(b, offset, front, EncodeBlocks(rest));
    assert EncodeBlocks(blocks) == front + EncodeBlocks(rest);
  }

  lemma NothingLies(b: seq<Byte>, offset: nat)
    requires offset <= |b|
    ensures LiesAt(b, offset, [])
  {
  }

  lemma SliceLies(b: seq<Byte>, offset: nat, n: nat)
    requires offset + n <= |b|
    ensures LiesAt(b, offset, b[offset..offset + n])
  {
  }

  lemma ScannedFrame(b: seq<Byte>, start: nat) returns (f: Layout)
    requires start <= |b| && ScanFrame(b, start).Complete?
    ensures WellFormed(f) && LiesAt(b, start, Encode(f)) && ScanFrame(b, start) == Complete(start + |Encode(f)|)
  {
    var descriptor := b[start + 4];
    var at := start + 5 + HeaderBytes(descriptor);
    var blocks := ScannedBlocks(b, at);
    var end := at + |EncodeBlocks(blocks)|;
    f := Layout(descriptor, b[start + 5..start + 5 + HeaderBytes(descriptor)], blocks, b[end..end + 4]);
    FrameLies(b, start, f);
    EncodedFrameScans(b, start, f);
  }

  lemma FrameLies(b: seq<Byte>, start: nat, f: Layout)
    requires WellFormed(f) && start + 5 <= |b| && Word(b, start) == MAGIC && b[start + 4] == f.descriptor
    requires LiesAt(b, start + 5, f.header) && LiesAt(b, start + 5 + |f.header|, EncodeBlocks(f.blocks))
    requires LiesAt(b, start + 5 + |f.header| + |EncodeBlocks(f.blocks)|, f.checksum)
    ensures LiesAt(b, start, Encode(f))
  {
    hide EncodeBlocks, Word;
    var front := MAGIC_BYTES + [f.descriptor];
    var blocks := EncodeBlocks(f.blocks);
    MagicReads(b, start);
    SliceLies(b, start + 4, 1);
    assert b[start + 4..start + 5] == [f.descriptor];
    LiesInParts(b, start, MAGIC_BYTES, [f.descriptor]);
    LiesInParts(b, start, front, f.header);
    LiesInParts(b, start, front + f.header, blocks);
    LiesInParts(b, start, front + f.header + blocks, f.checksum);
  }

  /** The scan finds a frame ending at a position exactly when the bytes up to there are a frame in the format. */
  lemma FrameFormat(b: seq<Byte>, start: nat, end: nat)
    requires start <= |b|
    ensures ScanFrame(b, start) == Complete(end) <==>
              exists f :: WellFormed(f) && LiesAt(b, start, Encode(f)) && end == start + |Encode(f)|
  {
    if ScanFrame(b, start) == Complete(end) {
      var f := ScannedFrame(b, start);
      assert WellFormed(f) && LiesAt(b, start, Encode(f)) && end == start + |Encode(f)|;
    }
    if f :| WellFormed(f) && LiesAt(b, start, Encode(f)) && end == start + |Encode(f)| {
      EncodedFrameScans(b, start, f);
    }
  }
}
