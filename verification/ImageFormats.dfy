/**
 What the header parsers accept, stated in the formats' own terms: signatures,
 marker tables and the fields of WebP and PNG headers.
 */
module ImageFormats {
  import opened Wrappers
  import opened ImageHeaders

  /** The bytes of a text in ASCII. */
  function Ascii(s: string): Bytes
    requires forall i :: 0 <= i < |s| ==> s[i] < 128 as char
  {
    seq(|s|, i requires 0 <= i < |s| => s[i] as int)
  }

  // ---------------------------------------------------------------------------
  // Signatures
  // ---------------------------------------------------------------------------

  ghost predicate IsPdf(head: Bytes) {
    At(head, 0, Ascii("%PDF-"))
  }

  ghost predicate IsPng(head: Bytes) {
    At(head, 0, [0x89] + Ascii("PNG\r\n") + [0x1a, 0x0a])
  }

  ghost predicate IsJpeg(head: Bytes) {
    At(head, 0, [0xff, 0xd8, 0xff])
  }

  ghost predicate IsWebp(head: Bytes) {
    At(head, 0, Ascii("RIFF")) && At(head, 8, Ascii("WEBP"))
  }

  lemma SliceAt(head: Bytes, offset: nat, b: Bytes)
    ensures At(head, offset, b) <==> offset + |b| <= |head| && head[offset..offset + |b|] == b
  {
    if offset + |b| <= |head| {
      var slice := head[offset..offset + |b|];
      assert forall i :: 0 <= i < |b| ==> slice[i] == head[offset + i];
      if At(head, offset, b) {
        assert slice == b;
      }
    }
  }

  lemma PdfDetected(head: Bytes)
    ensures DetectFormat(head) == Some(Pdf) <==> IsPdf(head)
  {
    SliceAt(head, 0, Ascii("%PDF-"));
    assert Ascii("%PDF-") == [0x25, 0x50, 0x44, 0x46, 0x2d];
  }

  lemma PngDetected(head: Bytes)
    ensures DetectFormat(head) == Some(Png) <==> IsPng(head)
  {
    var signature := [0x89] + Ascii("PNG\r\n") + [0x1a, 0x0a];
    SliceAt(head, 0, signature);
    assert signature == [0x89, 0x50, 0x4e, 0x47, 0x0d, 0x0a, 0x1a, 0x0a];
    if |head| >= 8 {
      assert head[..5][0] == head[0] && head[..8][0] == head[0];
    }
  }

  lemma JpegDetected(head: Bytes)
    ensures DetectFormat(head) == Some(Jpeg) <==> IsJpeg(head)
  {
    if |head| >= 5 {
      assert head[..5][0] == head[0];
    }
    if |head| >= 8 {
      assert head[..8][0] == head[0];
    }
    var mark: Bytes := [0xff, 0xd8, 0xff];
    assert mark[0] == 0xff && mark[1] == 0xd8 && mark[2] == 0xff;
  }

  lemma WebpDetected(head: Bytes)
    ensures DetectFormat(head) == Some(Webp) <==> IsWebp(head)
  {
    SliceAt(head, 0, Ascii("RIFF"));
    SliceAt(head, 8, Ascii("WEBP"));
    assert Ascii("RIFF") == [0x52, 0x49, 0x46, 0x46] && Ascii("WEBP") == [0x57, 0x45, 0x42, 0x50];
    if |head| >= 12 {
      assert head[..4][0] == head[0] && head[..5][0] == head[0] && head[..8][0] == head[0];
    }
  }

  /** Exactly which files are taken for which format. */
  lemma DetectExactly(head: Bytes)
    ensures DetectFormat(head) == Some(Pdf) <==> IsPdf(head)
    ensures DetectFormat(head) == Some(Png) <==> IsPng(head)
    ensures DetectFormat(head) == Some(Jpeg) <==> IsJpeg(head)
    ensures DetectFormat(head) == Some(Webp) <==> IsWebp(head)
  {
    PdfDetected(head);
    PngDetected(head);
    JpegDetected(head);
    WebpDetected(head);
  }

  // ---------------------------------------------------------------------------
  // Markers: table B.1 of ITU-T T.81
  // ---------------------------------------------------------------------------

  const DHT: byte := 0xc4
  const JPG: byte := 0xc8
  const DAC: byte := 0xcc
  const SOI: byte := 0xd8
  const TEM: byte := 0x01

  /** SOF0 to SOF15 without the codes that are DHT, JPG and DAC. */
  const START_OF_FRAME: set<byte> :=
    {0xc0, 0xc1, 0xc2, 0xc3, 0xc5, 0xc6, 0xc7, 0xc9, 0xca, 0xcb, 0xcd, 0xce, 0xcf}

  const RESTART: set<byte> := {0xd0, 0xd1, 0xd2, 0xd3, 0xd4, 0xd5, 0xd6, 0xd7}

  /** The thirteen start-of-frame markers are the frame markers, and the three in between are not. */
  lemma FrameMarkers(m: byte)
    ensures IsFrame(m) <==> m in START_OF_FRAME
    ensures |START_OF_FRAME| == 13
    ensures !IsFrame(DHT) && !IsFrame(JPG) && !IsFrame(DAC)
  {
  }

  /** The markers without a length are start of image, the restarts and TEM. */
  lemma StandaloneMarkers(m: byte)
    ensures IsStandalone(m) <==> m == SOI || m == TEM || m in RESTART
  {
  }

  // ---------------------------------------------------------------------------
  // Byte order
  // ---------------------------------------------------------------------------

  /** The number whose digits to base 256 are `b`, most significant first. */
  function BigEndian(b: Bytes): nat {
    if b == [] then 0 else BigEndian(b[..|b| - 1]) * 256 + b[|b| - 1] as int
  }

  /** The number whose digits to base 256 are `b`, least significant first. */
  function LittleEndian(b: Bytes): nat {
    if b == [] then 0 else b[0] as int + 256 * LittleEndian(b[1..])
  }

  lemma Big2(a: byte, b: byte)
    ensures BigEndian([a, b]) == a as int * 256 + b as int
  {
    assert [a, b][..1] == [a] && [a][..0] == [];
    assert BigEndian([a]) == BigEndian([]) * 256 + a as int;
  }

  lemma Big4(a: byte, b: byte, c: byte, d: byte)
    ensures BigEndian([a, b, c, d]) == ((a as int * 256 + b as int) * 256 + c as int) * 256 + d as int
  {
    Big2(a, b);
    assert [a, b, c, d][..3] == [a, b, c] && [a, b, c][..2] == [a, b];
  }

  lemma Little2(a: byte, b: byte)
    ensures LittleEndian([a, b]) == a as int + 256 * b as int
  {
    assert [a, b][1..] == [b] && [b][1..] == [];
    assert LittleEndian([b]) == b as int + 256 * LittleEndian([]);
  }

  lemma Little3(a: byte, b: byte, c: byte)
    ensures LittleEndian([a, b, c]) == a as int + 256 * (b as int + 256 * c as int)
  {
    Little2(b, c);
    assert [a, b, c][1..] == [b, c];
  }

  lemma Little4(a: byte, b: byte, c: byte, d: byte)
    ensures LittleEndian([a, b, c, d]) == a as int + 256 * (b as int + 256 * (c as int + 256 * d as int))
  {
    Little3(b, c, d);
    assert [a, b, c, d][1..] == [b, c, d];
  }

  /** The reads that decode sizes take the bytes in the order of their names. */
  lemma ReadsInOrder(b: Bytes, i: nat)
    requires i + 4 <= |b|
    ensures ReadU16BE(b, i) == BigEndian(b[i..i + 2]) && ReadU32BE(b, i) == BigEndian(b[i..i + 4])
    ensures ReadU16LE(b, i) == LittleEndian(b[i..i + 2]) && ReadU24LE(b, i) == LittleEndian(b[i..i + 3])
    ensures ReadU32LE(b, i) == LittleEndian(b[i..i + 4])
  {
    assert b[i..i + 2] == [b[i], b[i + 1]] && b[i..i + 3] == [b[i], b[i + 1], b[i + 2]];
    assert b[i..i + 4] == [b[i], b[i + 1], b[i + 2], b[i + 3]];
    Big2(b[i], b[i + 1]);
    Big4(b[i], b[i + 1], b[i + 2], b[i + 3]);
    Little2(b[i], b[i + 1]);
    Little3(b[i], b[i + 1], b[i + 2]);
    Little4(b[i], b[i + 1], b[i + 2], b[i + 3]);
  }

  // ---------------------------------------------------------------------------
  // WebP and PNG: dimensions are returned for exactly the written headers
  // ---------------------------------------------------------------------------

  ghost predicate WrittenVp8(head: Bytes, d: Dimensions)
    requires 30 <= |head|
  {
    && At(head, 12, Ascii("VP8 ")) && At(head, 23, [0x9d, 0x01, 0x2a])
    && 1 <= d.width < 0x4000 && 1 <= d.height < 0x4000
    && exists xScale: nat, yScale: nat ::
         ReadU16LE(head, 26) == xScale * 0x4000 + d.width && ReadU16LE(head, 28) == yScale * 0x4000 + d.height
  }

  ghost predicate WrittenVp8l(head: Bytes, d: Dimensions)
    requires 30 <= |head|
  {
    && At(head, 12, Ascii("VP8L")) && head[20] == 0x2f
    && 1 <= d.width <= 0x4000 && 1 <= d.height <= 0x4000
    && exists flags: nat ::
         ReadU32LE(head, 21) == (flags * 0x4000 + (d.height - 1)) * 0x4000 + (d.width - 1)
  }

  ghost predicate WrittenVp8x(head: Bytes, d: Dimensions)
    requires 30 <= |head|
  {
    && At(head, 12, Ascii("VP8X"))
    && 1 <= d.width && 1 <= d.height
    && ReadU24LE(head, 24) == d.width - 1 && ReadU24LE(head, 27) == d.height - 1
  }

  /** A number is its low 14 bits and the rest. */
  lemma Fourteen(n: nat, high: nat, low: nat)
    requires low < 0x4000
    ensures n == high * 0x4000 + low <==> n / 0x4000 == high && n % 0x4000 == low
  {
  }

  lemma Tags(head: Bytes)
    requires 30 <= |head|
    ensures head[12..16] == VP8_LOSSY <==> At(head, 12, Ascii("VP8 "))
    ensures head[12..16] == VP8_LOSSLESS <==> At(head, 12, Ascii("VP8L"))
    ensures head[12..16] == VP8_EXTENDED <==> At(head, 12, Ascii("VP8X"))
  {
    SliceAt(head, 12, Ascii("VP8 "));
    SliceAt(head, 12, Ascii("VP8L"));
    SliceAt(head, 12, Ascii("VP8X"));
    assert Ascii("VP8 ") == VP8_LOSSY && Ascii("VP8L") == VP8_LOSSLESS && Ascii("VP8X") == VP8_EXTENDED;
  }

  lemma Vp8Exact(head: Bytes, d: Dimensions)
    requires 30 <= |head| && head[12..16] == VP8_LOSSY
    ensures WebpDimensions(head) == Some(d) <==> WrittenVp8(head, d)
  {
    Tags(head);
    var start: Bytes := [0x9d, 0x01, 0x2a];
    assert At(head, 23, start) <==> head[23] == start[0] && head[24] == start[1] && head[25] == start[2];
    var x, y := ReadU16LE(head, 26), ReadU16LE(head, 28);
    if d.width < 0x4000 && d.height < 0x4000 {
      Fourteen(x, x / 0x4000, d.width);
      Fourteen(y, y / 0x4000, d.height);
      if xScale: nat, yScale: nat :| x == xScale * 0x4000 + d.width && y == yScale * 0x4000 + d.height {
        Fourteen(x, xScale, d.width);
        Fourteen(y, yScale, d.height);
      }
    }
  }

  lemma Vp8lExact(head: Bytes, d: Dimensions)
    requires 30 <= |head| && head[12..16] == VP8_LOSSLESS
    ensures WebpDimensions(head) == Some(d) <==> WrittenVp8l(head, d)
  {
    Tags(head);
    var bits := ReadU32LE(head, 21);
    if 1 <= d.width <= 0x4000 && 1 <= d.height <= 0x4000 {
      Fourteen(bits, bits / 0x4000, d.width - 1);
      Fourteen(bits / 0x4000, bits / 0x4000 / 0x4000, d.height - 1);
      if flags: nat :| bits == (flags * 0x4000 + (d.height - 1)) * 0x4000 + (d.width - 1) {
        Fourteen(bits, flags * 0x4000 + (d.height - 1), d.width - 1);
        Fourteen(bits / 0x4000, flags, d.height - 1);
      }
    }
  }

  /** Dimensions are read from a WebP header exactly when one of the three layouts was written with them. */
  lemma WebpExact(head: Bytes, d: Dimensions)
    ensures WebpDimensions(head) == Some(d) <==>
            30 <= |head| && (WrittenVp8(head, d) || WrittenVp8l(head, d) || WrittenVp8x(head, d))
  {
    if 30 <= |head| {
      Tags(head);
      if head[12..16] == VP8_LOSSY {
        Vp8Exact(head, d);
      } else if head[12..16] == VP8_LOSSLESS {
        Vp8lExact(head, d);
      }
    }
  }

  /** Dimensions are read from a PNG exactly when the header chunk comes first and holds them, neither being zero. */
  lemma PngExact(head: Bytes, d: Dimensions)
    ensures PngDimensions(head) == Some(d) <==>
            && 24 <= |head| && At(head, 12, Ascii("IHDR"))
            && ReadU32BE(head, 16) == d.width && ReadU32BE(head, 20) == d.height && 1 <= d.width && 1 <= d.height
  {
    SliceAt(head, 12, Ascii("IHDR"));
    assert Ascii("IHDR") == IHDR;
  }
}
