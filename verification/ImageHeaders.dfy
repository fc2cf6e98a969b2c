/**
 Reading pixel dimensions from the first bytes of an image, and the writers the
 parsers are compared with: JPEG marker segments (sections B.1.1 and B.2.2 of
 ITU-T T.81), VP8 (section 9.1 of RFC 6386), VP8L and VP8X (sections 3.4 and
 2.7 of RFC 9649), and the PNG header chunk.
 */
module ImageHeaders {
  import opened Wrappers

  type byte = x: int | 0 <= x < 256

  type Bytes = seq<byte>

  datatype Dimensions = Dimensions(width: nat, height: nat)

  datatype Format = Pdf | Jpeg | Png | Webp

  // ---------------------------------------------------------------------------
  // Integers in bytes
  // ---------------------------------------------------------------------------

  function ReadU16BE(b: Bytes, at: nat): nat
    requires at + 2 <= |b|
  {
    b[at] as int * 256 + b[at + 1]
  }

  function ReadU16LE(b: Bytes, at: nat): nat
    requires at + 2 <= |b|
  {
    b[at] + b[at + 1] as int * 256
  }

  function ReadU24LE(b: Bytes, at: nat): nat
    requires at + 3 <= |b|
  {
    b[at] + b[at + 1] as int * 256 + b[at + 2] as int * 0x10000
  }

  function ReadU32LE(b: Bytes, at: nat): nat
    requires at + 4 <= |b|
  {
    ReadU24LE(b, at) + b[at + 3] as int * 0x100_0000
  }

  function ReadU32BE(b: Bytes, at: nat): nat
    requires at + 4 <= |b|
  {
    ReadU16BE(b, at) * 0x10000 + ReadU16BE(b, at + 2)
  }

  /** The base-256 digits of `n`, lowest first. */
  lemma Digits(n: nat) returns (d0: byte, rest: nat)
    ensures n == d0 + rest * 256
  {
    d0, rest := n % 256, n / 256;
  }

  ghost function U16BE(n: nat): (b: Bytes)
    requires n < 0x10000
    ensures |b| == 2 && ReadU16BE(b, 0) == n
  {
    assert exists b: Bytes :: |b| == 2 && ReadU16BE(b, 0) == n by {
      var low, high := Digits(n);
      assert |[high, low]| == 2 && ReadU16BE([high, low], 0) == n;
    }
    var b: Bytes :| |b| == 2 && ReadU16BE(b, 0) == n;
    b
  }

  ghost function U16LE(n: nat): (b: Bytes)
    requires n < 0x10000
    ensures |b| == 2 && ReadU16LE(b, 0) == n
  {
    var b := U16BE(n);
    [b[1], b[0]]
  }

  ghost function U24LE(n: nat): (b: Bytes)
    requires n < 0x100_0000
    ensures |b| == 3 && ReadU24LE(b, 0) == n
  {
    assert exists b: Bytes :: |b| == 3 && ReadU24LE(b, 0) == n by {
      var low, rest := Digits(n);
      var middle, high := Digits(rest);
      assert |[low, middle, high]| == 3 && ReadU24LE([low, middle, high], 0) == n;
    }
    var b: Bytes :| |b| == 3 && ReadU24LE(b, 0) == n;
    b
  }

  ghost function U32LE(n: nat): (b: Bytes)
    requires n < 0x1_0000_0000
    ensures |b| == 4 && ReadU32LE(b, 0) == n
  {
    assert exists b: Bytes :: |b| == 4 && ReadU32LE(b, 0) == n by {
      var b0, r0 := Digits(n);
      var b1, r1 := Digits(r0);
      var b2, b3 := Digits(r1);
      assert |[b0, b1, b2, b3]| == 4 && ReadU32LE([b0, b1, b2, b3], 0) == n;
    }
    var b: Bytes :| |b| == 4 && ReadU32LE(b, 0) == n;
    b
  }

  ghost function U32BE(n: nat): (b: Bytes)
    requires n < 0x1_0000_0000
    ensures |b| == 4 && ReadU32BE(b, 0) == n
  {
    var b := U32LE(n);
    [b[3], b[2], b[1], b[0]]
  }

  /** Two bytes are determined by the number they spell. */
  lemma SpelledOnce(b: Bytes, n: nat)
    requires |b| == 2 && ReadU16BE(b, 0) == n
    ensures n < 0x10000 && b == U16BE(n)
  {
    var c := U16BE(n);
    assert b[0] == c[0] && b[1] == c[1];
  }

  function Valid(width: nat, height: nat): Option<Dimensions> {
    if width > 0 && height > 0 then Some(Dimensions(width, height)) else None
  }

  // ---------------------------------------------------------------------------
  // Format detection
  // ---------------------------------------------------------------------------

  function DetectFormat(head: Bytes): Option<Format> {
    if |head| >= 5 && head[..5] == [0x25, 0x50, 0x44, 0x46, 0x2d] then Some(Pdf)
    else if |head| >= 8 && head[..8] == [0x89, 0x50, 0x4e, 0x47, 0x0d, 0x0a, 0x1a, 0x0a] then Some(Png)
    else if |head| >= 3 && head[0] == 0xff && head[1] == 0xd8 && head[2] == 0xff then Some(Jpeg)
    else if |head| >= 12 && head[..4] == [0x52, 0x49, 0x46, 0x46] && head[8..12] == [0x57, 0x45, 0x42, 0x50] then
      Some(Webp)
    else None
  }

  // ---------------------------------------------------------------------------
  // JPEG: the parser
  // ---------------------------------------------------------------------------

  predicate IsStandalone(marker: byte) {
    marker == 0xd8 || 0xd0 <= marker <= 0xd7 || marker == 0x01
  }

  predicate IsFrame(marker: byte) {
    0xc0 <= marker <= 0xcf && marker != 0xc4 && marker != 0xc8 && marker != 0xcc
  }

  /** One turn of the loop: an answer, or the offset to go on from. */
  datatype Turn = Answer(result: Option<Dimensions>) | Skip(next: nat)

  function TurnAt(head: Bytes, offset: nat): (turn: Turn)
    ensures turn.Skip? ==> offset < turn.next && offset + 9 <= |head|
  {
    if offset + 9 > |head| || head[offset] != 0xff then Answer(None)
    else
      var marker := head[offset + 1];
      if marker == 0xff then Skip(offset + 1)
      else if IsStandalone(marker) then Skip(offset + 2)
      else if marker == 0xd9 || marker == 0xda || ReadU16BE(head, offset + 2) < 2 then Answer(None)
      else if IsFrame(marker) then Answer(Valid(ReadU16BE(head, offset + 7), ReadU16BE(head, offset + 5)))
      else Skip(offset + 2 + ReadU16BE(head, offset + 2))
  }

  /** What the loop returns when it stands at `offset`. */
  function Scan(head: Bytes, offset: nat): Option<Dimensions>
    decreases |head| - offset
  {
    match TurnAt(head, offset)
    case Answer(result) => result
    case Skip(next) => Scan(head, next)
  }

  method JpegDimensions(head: Bytes) returns (r: Option<Dimensions>)
    ensures r == Scan(head, 2)
  {
    var offset := 2;
    while offset + 9 <= |head|
      invariant 2 <= offset
      invariant Scan(head, offset) == Scan(head, 2)
      decreases |head| - offset
    {
      if head[offset] != 0xff {
        return None;
      }
      var marker := head[offset + 1];
      if marker == 0xff {
        offset := offset + 1;
        continue;
      }
      if marker == 0xd8 || (marker >= 0xd0 && marker <= 0xd7) || marker == 0x01 {
        offset := offset + 2;
        continue;
      }
      if marker == 0xd9 || marker == 0xda {
        return None;
      }
      var length := ReadU16BE(head, offset + 2);
      if length < 2 {
        return None;
      }
      if marker >= 0xc0 && marker <= 0xcf && marker != 0xc4 && marker != 0xc8 && marker != 0xcc {
        var height := ReadU16BE(head, offset + 5);
        var width := ReadU16BE(head, offset + 7);
        return Valid(width, height);
      }
      offset := offset + 2 + length;
    }
    r := None;
  }

  // ---------------------------------------------------------------------------
  // JPEG: the writer
  // ---------------------------------------------------------------------------

  /** A fill byte, a marker that stands alone, or a segment with its length. */
  datatype Segment = Fill | Standalone(marker: byte) | Sized(marker: byte, payload: Bytes)

  /** Segments that may precede the frame header. */
  predicate Legal(seg: Segment) {
    match seg
    case Fill => true
    case Standalone(marker) => IsStandalone(marker)
    case Sized(marker, payload) =>
      && marker != 0xff && !IsStandalone(marker) && marker != 0xd9 && marker != 0xda && !IsFrame(marker)
      && |payload| + 2 < 0x10000
  }

  ghost function SegmentBytes(seg: Segment): Bytes
    requires Legal(seg)
  {
    match seg
    case Fill => [0xff]
    case Standalone(marker) => [0xff, marker]
    case Sized(marker, payload) => [0xff, marker] + U16BE(|payload| + 2) + payload
  }

  predicate AllLegal(segs: seq<Segment>) {
    segs == [] || (Legal(segs[0]) && AllLegal(segs[1..]))
  }

  ghost function AllBytes(segs: seq<Segment>): Bytes
    requires AllLegal(segs)
  {
    if segs == [] then [] else SegmentBytes(segs[0]) + AllBytes(segs[1..])
  }

  datatype Frame = Frame(marker: byte, length: nat, precision: byte, height: nat, width: nat)

  predicate LegalFrame(f: Frame) {
    IsFrame(f.marker) && 2 <= f.length < 0x10000 && f.height < 0x10000 && f.width < 0x10000
  }

  ghost function FrameBytes(f: Frame): (b: Bytes)
    requires LegalFrame(f)
    ensures |b| == 9
  {
    [0xff, f.marker] + U16BE(f.length) + [f.precision] + U16BE(f.height) + U16BE(f.width)
  }

  ghost predicate At(head: Bytes, offset: nat, b: Bytes) {
    offset + |b| <= |head| && forall i :: 0 <= i < |b| ==> b[i] == head[offset + i]
  }

  /** `head` from `offset` on is a list of legal segments, a frame header, and anything after it. */
  ghost predicate Written(head: Bytes, offset: nat, segs: seq<Segment>, f: Frame) {
    && AllLegal(segs)
    && LegalFrame(f)
    && At(head, offset, AllBytes(segs) + FrameBytes(f))
  }

  /** The same, segment by segment. */
  ghost predicate Laid(head: Bytes, offset: nat, segs: seq<Segment>, f: Frame)
    decreases |segs|
  {
    if segs == [] then LegalFrame(f) && At(head, offset, FrameBytes(f))
    else
      && Legal(segs[0])
      && At(head, offset, SegmentBytes(segs[0]))
      && Laid(head, offset + |SegmentBytes(segs[0])|, segs[1..], f)
  }

  lemma AtConcat(head: Bytes, offset: nat, a: Bytes, b: Bytes)
    ensures At(head, offset, a + b) <==> At(head, offset, a) && At(head, offset + |a|, b)
  {
    if At(head, offset, a + b) {
      forall i | 0 <= i < |a|
        ensures a[i] == head[offset + i]
      {
        assert (a + b)[i] == a[i];
      }
      forall i | 0 <= i < |b|
        ensures b[i] == head[offset + |a| + i]
      {
        assert (a + b)[|a| + i] == b[i];
      }
    }
  }

  /** The first segment can be split off. */
  lemma WrittenFirst(head: Bytes, offset: nat, segs: seq<Segment>, f: Frame)
    requires segs != [] && Legal(segs[0])
    ensures Written(head, offset, segs, f) <==>
            At(head, offset, SegmentBytes(segs[0])) && Written(head, offset + |SegmentBytes(segs[0])|, segs[1..], f)
  {
    if LegalFrame(f) && AllLegal(segs[1..]) {
      var a, b := SegmentBytes(segs[0]), AllBytes(segs[1..]) + FrameBytes(f);
      assert AllBytes(segs) + FrameBytes(f) == a + b;
      AtConcat(head, offset, a, b);
    }
  }

  lemma {:induction false} LaidIsWritten(head: Bytes, offset: nat, segs: seq<Segment>, f: Frame)
    ensures Laid(head, offset, segs, f) <==> Written(head, offset, segs, f)
    decreases |segs|
  {
    if segs == [] {
      if LegalFrame(f) {
        assert AllBytes([]) + FrameBytes(f) == FrameBytes(f);
      }
    } else if Legal(segs[0]) {
      var next := offset + |SegmentBytes(segs[0])|;
      calc {
        Laid(head, offset, segs, f);
        At(head, offset, SegmentBytes(segs[0])) && Laid(head, next, segs[1..], f);
        { LaidIsWritten(head, next, segs[1..], f); }
        At(head, offset, SegmentBytes(segs[0])) && Written(head, next, segs[1..], f);
        { WrittenFirst(head, offset, segs, f); }
        Written(head, offset, segs, f);
      }
    }
  }

  lemma FrameScanned(head: Bytes, offset: nat, f: Frame)
    requires LegalFrame(f) && At(head, offset, FrameBytes(f))
    ensures TurnAt(head, offset) == Answer(Valid(f.width, f.height))
  {
    var b := FrameBytes(f);
    assert b[0] == head[offset] && b[1] == head[offset + 1] && b[2] == head[offset + 2] && b[3] == head[offset + 3];
    assert b[5] == head[offset + 5] && b[6] == head[offset + 6] && b[7] == head[offset + 7] && b[8] == head[offset + 8];
    assert b[2] == U16BE(f.length)[0] && b[3] == U16BE(f.length)[1];
    assert b[5] == U16BE(f.height)[0] && b[6] == U16BE(f.height)[1];
    assert b[7] == U16BE(f.width)[0] && b[8] == U16BE(f.width)[1];
  }

  /** One written segment is skipped as a whole. */
  lemma SegmentSkipped(head: Bytes, offset: nat, seg: Segment)
    requires Legal(seg) && At(head, offset, SegmentBytes(seg))
    requires offset + |SegmentBytes(seg)| + 9 <= |head| && head[offset + |SegmentBytes(seg)|] == 0xff
    ensures TurnAt(head, offset) == Skip(offset + |SegmentBytes(seg)|)
  {
    var b := SegmentBytes(seg);
    assert b[0] == head[offset] == 0xff;
    if !seg.Fill? {
      assert b[1] == head[offset + 1] == seg.marker;
    }
    if seg.Sized? {
      assert b[2] == head[offset + 2] && b[3] == head[offset + 3];
      assert b[2] == U16BE(|seg.payload| + 2)[0] && b[3] == U16BE(|seg.payload| + 2)[1];
    }
  }

  /** Room for a frame header, and the marker prefix, wherever a segment or the frame begins. */
  lemma {:induction false} LaidStarts(head: Bytes, offset: nat, segs: seq<Segment>, f: Frame)
    requires Laid(head, offset, segs, f)
    ensures offset + 9 <= |head| && head[offset] == 0xff
    decreases |segs|
  {
    var b := if segs == [] then FrameBytes(f) else SegmentBytes(segs[0]);
    assert b[0] == head[offset] == 0xff;
    if segs != [] {
      LaidStarts(head, offset + |b|, segs[1..], f);
    }
  }

  lemma {:induction false} ScanReadsLaid(head: Bytes, offset: nat, segs: seq<Segment>, f: Frame)
    requires Laid(head, offset, segs, f)
    ensures Scan(head, offset) == Valid(f.width, f.height)
    decreases |segs|
  {
    if segs == [] {
      FrameScanned(head, offset, f);
    } else {
      var next := offset + |SegmentBytes(segs[0])|;
      ScanReadsLaid(head, next, segs[1..], f);
      LaidStarts(head, next, segs[1..], f);
      SegmentSkipped(head, offset, segs[0]);
    }
  }

  /** Header parsing inverts header writing, for every list of segments and every frame header. */
  lemma ScanReadsFrame(head: Bytes, offset: nat, segs: seq<Segment>, f: Frame)
    requires Written(head, offset, segs, f)
    ensures Scan(head, offset) == Valid(f.width, f.height)
  {
    LaidIsWritten(head, offset, segs, f);
    ScanReadsLaid(head, offset, segs, f);
  }

  /** The other direction: dimensions are only ever read from a frame header behind legal segments. */
  lemma {:induction false} ScanFindsFrame(head: Bytes, offset: nat) returns (segs: seq<Segment>, f: Frame)
    requires Scan(head, offset).Some?
    ensures Laid(head, offset, segs, f)
    ensures Scan(head, offset) == Some(Dimensions(f.width, f.height))
    decreases |head| - offset
  {
    var turn := TurnAt(head, offset);
    if turn.Answer? {
      f := FrameAt(head, offset);
      segs := [];
    } else {
      assert turn.next + 9 <= |head|;
      var seg := SegmentAt(head, offset);
      segs, f := ScanFindsFrame(head, turn.next);
      assert ([seg] + segs)[1..] == segs;
      segs := [seg] + segs;
    }
  }

  lemma SegmentAt(head: Bytes, offset: nat) returns (seg: Segment)
    requires TurnAt(head, offset).Skip? && TurnAt(head, offset).next <= |head|
    ensures Legal(seg) && At(head, offset, SegmentBytes(seg))
    ensures TurnAt(head, offset) == Skip(offset + |SegmentBytes(seg)|)
  {
    var marker := head[offset + 1];
    if marker == 0xff {
      seg := Fill;
    } else if IsStandalone(marker) {
      seg := Standalone(marker);
    } else {
      seg := SizedAt(head, offset, ReadU16BE(head, offset + 2));
    }
  }

  lemma SizedAt(head: Bytes, offset: nat, length: nat) returns (seg: Segment)
    requires offset + 4 <= offset + 2 + length <= |head| && head[offset] == 0xff
    requires ReadU16BE(head, offset + 2) == length
    requires var m := head[offset + 1];
             m != 0xff && !IsStandalone(m) && m != 0xd9 && m != 0xda && !IsFrame(m)
    ensures Legal(seg) && At(head, offset, SegmentBytes(seg)) && |SegmentBytes(seg)| == 2 + length
  {
    SpelledOnce(head[offset + 2..offset + 4], length);
    seg := Sized(head[offset + 1], head[offset + 4..offset + 2 + length]);
    assert SegmentBytes(seg) == [0xff, head[offset + 1]] + U16BE(length) + seg.payload;
  }

  lemma FrameAt(head: Bytes, offset: nat) returns (f: Frame)
    requires offset + 9 <= |head| && head[offset] == 0xff && IsFrame(head[offset + 1])
    requires 2 <= ReadU16BE(head, offset + 2)
    ensures Laid(head, offset, [], f)
    ensures f.height == ReadU16BE(head, offset + 5) && f.width == ReadU16BE(head, offset + 7)
  {
    f := Frame(head[offset + 1], ReadU16BE(head, offset + 2), head[offset + 4],
               ReadU16BE(head, offset + 5), ReadU16BE(head, offset + 7));
    SpelledOnce(head[offset + 2..offset + 4], f.length);
    SpelledOnce(head[offset + 5..offset + 7], f.height);
    SpelledOnce(head[offset + 7..offset + 9], f.width);
    assert FrameBytes(f) == head[offset..offset + 9];
  }

  /** `head` is a written header whose frame has the dimensions `d`. */
  ghost predicate WrittenWith(head: Bytes, d: Dimensions)
    requires 2 <= |head|
  {
    exists segs, f :: Written(head, 2, segs, f) && Dimensions(f.width, f.height) == d
  }

  /** The parser returns dimensions exactly for written headers with a non-empty frame, and then that frame's. */
  lemma JpegExact(head: Bytes, d: Dimensions)
    requires 2 <= |head|
    ensures Scan(head, 2) == Some(d) <==> WrittenWith(head, d) && 0 < d.width && 0 < d.height
  {
    if Scan(head, 2) == Some(d) {
      var segs, f := ScanFindsFrame(head, 2);
      LaidIsWritten(head, 2, segs, f);
      ScanReadsLaid(head, 2, segs, f);
    }
    if WrittenWith(head, d) {
      var segs, f :| Written(head, 2, segs, f) && Dimensions(f.width, f.height) == d;
      ScanReadsFrame(head, 2, segs, f);
    }
  }

  // ---------------------------------------------------------------------------
  // WebP and PNG
  // ---------------------------------------------------------------------------

  const VP8_LOSSY: Bytes := [0x56, 0x50, 0x38, 0x20]
  const VP8_LOSSLESS: Bytes := [0x56, 0x50, 0x38, 0x4c]
  const VP8_EXTENDED: Bytes := [0x56, 0x50, 0x38, 0x58]
  const IHDR: Bytes := [0x49, 0x48, 0x44, 0x52]

  function WebpDimensions(head: Bytes): Option<Dimensions> {
    if |head| < 30 then None
    else if head[12..16] == VP8_LOSSY then
      if head[23] != 0x9d || head[24] != 0x01 || head[25] != 0x2a then None
      else Valid(ReadU16LE(head, 26) % 0x4000, ReadU16LE(head, 28) % 0x4000)
    else if head[12..16] == VP8_LOSSLESS then
      if head[20] != 0x2f then None
      else
        var bits := ReadU32LE(head, 21);
        Valid(bits % 0x4000 + 1, bits / 0x4000 % 0x4000 + 1)
    else if head[12..16] == VP8_EXTENDED then Valid(ReadU24LE(head, 24) + 1, ReadU24LE(head, 27) + 1)
    else None
  }

  function PngDimensions(head: Bytes): Option<Dimensions> {
    if |head| < 24 || head[12..16] != IHDR then None
    else Valid(ReadU32BE(head, 16), ReadU32BE(head, 20))
  }

  lemma LowBits(high: nat, low: nat)
    requires low < 0x4000
    ensures (high * 0x4000 + low) % 0x4000 == low && (high * 0x4000 + low) / 0x4000 == high
  {
  }

  /** A run of bytes written at `at` is read back from there. */
  lemma ReadBack(head: Bytes, at: nat, b: Bytes, i: nat)
    requires at + |b| <= |head| && head[at..at + |b|] == b && i < |b|
    ensures head[at + i] == b[i]
  {
    assert head[at..at + |b|][i] == head[at + i];
  }

  /** Lossy: 14-bit sizes under two scaling bits each. */
  lemma Vp8RoundTrip(head: Bytes, width: nat, height: nat, xScale: nat, yScale: nat)
    requires 30 <= |head| && head[12..16] == VP8_LOSSY && head[23..26] == [0x9d, 0x01, 0x2a]
    requires 1 <= width < 0x4000 && 1 <= height < 0x4000 && xScale < 4 && yScale < 4
    requires head[26..28] == U16LE(xScale * 0x4000 + width) && head[28..30] == U16LE(yScale * 0x4000 + height)
    ensures WebpDimensions(head) == Some(Dimensions(width, height))
  {
    LowBits(xScale, width);
    LowBits(yScale, height);
  }

  /**
   Lossless: both sizes less one in 14 bits, four more bits above them.  The
   field ends at byte 25, but it is read back exactly from 30 bytes on.
   */
  lemma Vp8lRoundTrip(head: Bytes, width: nat, height: nat, flags: nat)
    requires 25 <= |head| && head[12..16] == VP8_LOSSLESS && head[20] == 0x2f
    requires 1 <= width <= 0x4000 && 1 <= height <= 0x4000 && flags < 16
    requires head[21..25] == U32LE(flags * 0x1000_0000 + (height - 1) * 0x4000 + (width - 1))
    ensures WebpDimensions(head) == Some(Dimensions(width, height)) <==> 30 <= |head|
    ensures WebpDimensions(head) == None <==> |head| < 30
  {
    var bits := flags * 0x1000_0000 + (height - 1) * 0x4000 + (width - 1);
    assert bits == (flags * 0x4000 + (height - 1)) * 0x4000 + (width - 1);
    LowBits(flags * 0x4000 + (height - 1), width - 1);
    LowBits(flags, height - 1);
  }

  /** A complete lossless file of 26 bytes, detected as WebP and refused for its length. */
  lemma ShortLosslessRefused(head: Bytes)
    requires head == [0x52, 0x49, 0x46, 0x46, 0x12, 0x00, 0x00, 0x00, 0x57, 0x45, 0x42, 0x50,
                      0x56, 0x50, 0x38, 0x4c, 0x06, 0x00, 0x00, 0x00,
                      0x2f, 0x41, 0x6c, 0x6f, 0x00, 0x6b]
    ensures DetectFormat(head) == Some(Webp) && head[12..16] == VP8_LOSSLESS && head[20] == 0x2f
    ensures ReadU32LE(head, 21) % 0x4000 + 1 == 11330 && ReadU32LE(head, 21) / 0x4000 % 0x4000 + 1 == 446
    ensures WebpDimensions(head) == None
  {
    assert head[..5][0] == 0x52 && head[..8][0] == 0x52;
    assert head[..4] == [0x52, 0x49, 0x46, 0x46] && head[8..12] == [0x57, 0x45, 0x42, 0x50];
  }

  /** Extended: both sizes less one in 24 bits. */
  lemma Vp8xRoundTrip(head: Bytes, width: nat, height: nat)
    requires 30 <= |head| && head[12..16] == VP8_EXTENDED
    requires 1 <= width <= 0x100_0000 && 1 <= height <= 0x100_0000
    requires head[24..27] == U24LE(width - 1) && head[27..30] == U24LE(height - 1)
    ensures WebpDimensions(head) == Some(Dimensions(width, height))
  {
  }

  lemma PngRoundTrip(head: Bytes, width: nat, height: nat)
    requires 24 <= |head| && head[12..16] == IHDR
    requires 1 <= width < 0x1_0000_0000 && 1 <= height < 0x1_0000_0000
    requires head[16..20] == U32BE(width) && head[20..24] == U32BE(height)
    ensures PngDimensions(head) == Some(Dimensions(width, height))
  {
  }

  /** A file with a written JPEG header is taken for a JPEG, so its dimensions are the ones checked. */
  lemma WrittenIsDetected(head: Bytes, segs: seq<Segment>, f: Frame)
    requires 2 <= |head| && head[..2] == [0xff, 0xd8] && Written(head, 2, segs, f)
    ensures DetectFormat(head) == Some(Jpeg)
  {
    LaidIsWritten(head, 2, segs, f);
    LaidStarts(head, 2, segs, f);
    ReadBack(head, 0, [0xff, 0xd8], 0);
    ReadBack(head, 0, [0xff, 0xd8], 1);
    assert head[..5][0] == 0xff && head[..8][0] == 0xff;
  }
}
