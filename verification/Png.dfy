/** The PNG container: chunk framing of section 3.2 of RFC 2083, reading and writing. */
module Png {
  import opened Ids
  import opened Scanlines
  import opened Rasters

  // ---------------------------------------------------------------- 32-bit lengths

  const LIMIT: nat := 0x1_0000_0000

  /** Four bytes, most significant first. */
  function Be32(n: nat): (b: seq<Byte>)
    requires n < LIMIT
    ensures |b| == 4
  {
    [n / 0x100_0000, n / 0x1_0000 % 256, n / 0x100 % 256, n % 256]
  }

  function FromBe32(b: seq<Byte>): (n: nat)
    requires |b| == 4
  {
    var high: nat := b[0];
    var middle: nat := high * 256 + b[1];
    var low: nat := middle * 256 + b[2];
    low * 256 + b[3]
  }

  lemma Be32Inverts(n: nat)
    requires n < LIMIT
    ensures FromBe32(Be32(n)) == n
  {
    var a, b, c := n / 0x100, n / 0x1_0000, n / 0x100_0000;
    assert n == a * 256 + n % 256;
    assert b == a / 256 && a == b * 256 + a % 256;
    assert c == b / 256 && b == c * 256 + b % 256;
  }

  // ---------------------------------------------------------------- chunks

  const SIGNATURE: seq<Byte> := [0x89, 0x50, 0x4E, 0x47, 0x0D, 0x0A, 0x1A, 0x0A]
  const IHDR: seq<Byte> := [73, 72, 68, 82]
  const IDAT: seq<Byte> := [73, 68, 65, 84]
  const IEND: seq<Byte> := [73, 69, 78, 68]

  datatype Chunk = Chunk(kind: seq<Byte>, body: seq<Byte>)

  predicate Frameable(c: Chunk) {
    |c.kind| == 4 && |c.body| < LIMIT
  }

  /** Length, type, body, checksum. */
  function Frame(c: Chunk, crc: seq<Byte> -> nat): (f: seq<Byte>)
    requires Frameable(c)
    ensures |f| == 12 + |c.body|
  {
    Be32(|c.body|) + c.kind + c.body + Be32(crc(c.kind + c.body) % LIMIT)
  }

  function Framed(chunks: seq<Chunk>, crc: seq<Byte> -> nat): seq<Byte>
    requires forall c :: c in chunks ==> Frameable(c)
  {
    if chunks == [] then [] else Frame(chunks[0], crc) + Framed(chunks[1..], crc)
  }

  datatype Header = Header(w: nat, h: nat, depth: Byte, ctype: Byte, interlace: Byte)

  function HeaderBody(x: Header): (b: seq<Byte>)
    requires x.w < LIMIT && x.h < LIMIT
    ensures |b| == 13
  {
    Be32(x.w) + Be32(x.h) + [x.depth, x.ctype, 0, 0, x.interlace]
  }

  function ParseHeader(b: seq<Byte>): Header
    requires |b| == 13
  {
    Header(FromBe32(b[0..4]), FromBe32(b[4..8]), b[8], b[9], b[12])
  }

  lemma HeaderRoundTrip(x: Header)
    requires x.w < LIMIT && x.h < LIMIT
    ensures ParseHeader(HeaderBody(x)) == x
  {
    Be32Inverts(x.w);
    Be32Inverts(x.h);
    var b := HeaderBody(x);
    assert b[0..4] == Be32(x.w) && b[4..8] == Be32(x.h);
  }

  /** What the reader keeps of the chunks it has passed. */
  datatype Found = Found(header: Option<Header>, idat: seq<Byte>)

  const NOTHING: Found := Found(None, [])

  /** What one chunk adds; `None` is a header of the wrong size. */
  function Absorb(found: Found, c: Chunk): Option<Found> {
    if c.kind == IHDR then (if |c.body| == 13 then Some(found.(header := Some(ParseHeader(c.body)))) else None)
    else if c.kind == IDAT then Some(found.(idat := found.idat + c.body))
    else Some(found)
  }

  /** The chunks in order, up to the first end marker. */
  function Collect(chunks: seq<Chunk>, found: Found): Option<Found> {
    if chunks == [] || chunks[0].kind == IEND then Some(found)
    else
      match Absorb(found, chunks[0])
      case None => None
      case Some(more) => Collect(chunks[1..], more)
  }

  /** The chunk at `pos`; a body that runs past the end is cut short. */
  function ChunkAt(d: seq<Byte>, pos: nat): Chunk
    requires pos + 8 <= |d|
  {
    Chunk(d[pos + 4..pos + 8], Slice(d, pos + 8, pos + 8 + LengthAt(d, pos)))
  }

  function LengthAt(d: seq<Byte>, pos: nat): nat
    requires pos + 8 <= |d|
  {
    FromBe32(d[pos..pos + 4])
  }

  /** Where the chunk after the one at `pos` begins. */
  function After(d: seq<Byte>, pos: nat): nat
    requires pos + 8 <= |d|
  {
    pos + 12 + LengthAt(d, pos)
  }

  /** The reader's walk; `None` where fewer than eight bytes are left for a chunk header. */
  function Scan(d: seq<Byte>, pos: nat, found: Found): Option<Found>
    decreases |d| - pos
  {
    if pos >= |d| then Some(found)
    else if pos + 8 > |d| then None
    else if ChunkAt(d, pos).kind == IEND then Some(found)
    else
      match Absorb(found, ChunkAt(d, pos))
      case None => None
      case Some(more) => Scan(d, After(d, pos), more)
  }

  lemma ScanStep(d: seq<Byte>, pos: nat, next: nat, found: Found, more: Found)
    requires pos + 8 <= |d| && next == After(d, pos)
    requires ChunkAt(d, pos).kind != IEND && Absorb(found, ChunkAt(d, pos)) == Some(more)
    ensures Scan(d, pos, found) == Scan(d, next, more)
  {
  }

  lemma FrameIsRead(d: seq<Byte>, pos: nat, c: Chunk, crc: seq<Byte> -> nat)
    requires Frameable(c) && pos <= |d| && Frame(c, crc) <= d[pos..]
    ensures pos + 12 + |c.body| <= |d| && LengthAt(d, pos) == |c.body| && ChunkAt(d, pos) == c
  {
  }

  /** Framing round-trips: the reader's walk over framed chunks sees exactly those chunks, whatever their
      types and sizes. */
  lemma {:induction false} FramingRoundTrips(d: seq<Byte>, pos: nat, chunks: seq<Chunk>, crc: seq<Byte> -> nat, found: Found)
    requires forall c :: c in chunks ==> Frameable(c)
    requires pos <= |d| && d[pos..] == Framed(chunks, crc)
    ensures Scan(d, pos, found) == Collect(chunks, found)
    decreases |chunks|
  {
    if chunks != [] {
      var c := chunks[0];
      assert Framed(chunks, crc) == Frame(c, crc) + Framed(chunks[1..], crc);
      FrameIsRead(d, pos, c, crc);
      var next := After(d, pos);
      assert d[next..] == d[pos..][12 + |c.body|..] == Framed(chunks[1..], crc);
      if c.kind != IEND && Absorb(found, c).Some? {
        var more := Absorb(found, c).value;
        ScanStep(d, pos, next, found, more);
        FramingRoundTrips(d, next, chunks[1..], crc, more);
      }
    }
  }

  method ScanChunks(d: seq<Byte>, start: nat) returns (result: Option<Found>)
    ensures result == Scan(d, start, NOTHING)
  {
    var found, pos: nat := NOTHING, start;
    ghost var total := Scan(d, start, NOTHING);
    while pos < |d|
      invariant total == Scan(d, pos, found)
      decreases |d| - pos
    {
      if pos + 8 > |d| {
        return None;
      }
      var c := ChunkAt(d, pos);
      var next: nat := After(d, pos);
      ghost var before := found;
      if c.kind == IHDR {
        if |c.body| != 13 {
          return None;
        }
        found := found.(header := Some(ParseHeader(c.body)));
      } else if c.kind == IDAT {
        found := found.(idat := found.idat + c.body);
      } else if c.kind == IEND {
        break;
      }
      ScanStep(d, pos, next, before, found);
      pos := next;
    }
    result := Some(found);
  }

  // ---------------------------------------------------------------- colour types

  function Channels(ctype: Byte): nat {
    match ctype
    case 2 => 3
    case 4 => 2
    case 6 => 4
    case _ => 1
  }

  predicate KnownColour(ctype: Byte) {
    ctype == 0 || ctype == 2 || ctype == 3 || ctype == 4 || ctype == 6
  }

  /** Python's slice assignment with bounds past the end. */
  function SplicedClipped(px: seq<Byte>, i: nat, j: nat, piece: seq<Byte>): seq<Byte>
    requires i <= j
  {
    Slice(px, 0, i) + piece + Slice(px, j, j + |px|)
  }

  /** The loop that copies `n` truecolour pixels, from pixel `i` on. */
  function Copied(px: seq<Byte>, out: seq<Byte>, i: nat, n: nat): seq<Byte>
    requires i <= n
    decreases n - i
  {
    if i == n then px
    else Copied(SplicedClipped(px, i * 3, i * 3 + 3, Slice(out, i * 3, i * 3 + 3)), out, i + 1, n)
  }

  /** On complete data the loop is a copy. */
  lemma {:induction false} CopyIsExact(px: seq<Byte>, out: seq<Byte>, i: nat, n: nat)
    requires i <= n && |out| == 3 * n && |px| == 3 * n && px[..3 * i] == out[..3 * i]
    ensures Copied(px, out, i, n) == out
    decreases n - i
  {
    if i < n {
      var next := SplicedClipped(px, i * 3, i * 3 + 3, Slice(out, i * 3, i * 3 + 3));
      assert next == px[..3 * i] + out[3 * i..3 * i + 3] + px[3 * i + 3..];
      assert next[..3 * i + 3] == out[..3 * i] + out[3 * i..3 * i + 3] == out[..3 * (i + 1)];
      CopyIsExact(next, out, i + 1, n);
    } else {
      assert px == px[..3 * n] && out == out[..3 * n];
    }
  }

  method CopyPixels(out: seq<Byte>, n: nat) returns (px: seq<Byte>)
    ensures px == Copied(Zeros(3 * n), out, 0, n)
  {
    px := Zeros(3 * n);
    ghost var total := Copied(px, out, 0, n);
    for i := 0 to n
      invariant total == Copied(px, out, i, n)
    {
      px := SplicedClipped(px, i * 3, i * 3 + 3, Slice(out, i * 3, i * 3 + 3));
    }
  }

  // ---------------------------------------------------------------- reading

  /** `Unconverted` is the reconstructed buffer of a greyscale, palette or alpha image, whose conversion to RGB
      is not part of the model. */
  datatype Outcome = Refused | Image(r: Raster) | Unconverted(header: Header, out: seq<Byte>)

  predicate Acceptable(x: Header) {
    x.depth == 8 && x.interlace == 0 && KnownColour(x.ctype)
  }

  function Decoded(x: Header, raw: seq<Byte>): Outcome {
    var ch := Channels(x.ctype);
    var stride, pixels := x.w * ch, x.w * x.h;
    match Lines(raw, 0, stride, ch, x.h, Zeros(stride))
    case None => Refused
    case Some(out) =>
      if x.ctype == 2 then Image(Raster(x.w, x.h, Copied(Zeros(3 * pixels), out, 0, pixels)))
      else Unconverted(x, out)
  }

  function Read(d: seq<Byte>, inflate: seq<Byte> -> Option<seq<Byte>>): Outcome {
    if Slice(d, 0, 8) != SIGNATURE then Refused
    else
      match Scan(d, 8, NOTHING)
      case None => Refused
      case Some(found) =>
        if found.header.None? || !Acceptable(found.header.value) then Refused
        else
          match inflate(found.idat)
          case None => Refused
          case Some(raw) => Decoded(found.header.value, raw)
  }

  method DecodeImage(x: Header, raw: seq<Byte>) returns (result: Outcome)
    ensures result == Decoded(x, raw)
  {
    var ch := Channels(x.ctype);
    var stride, pixels := x.w * ch, x.w * x.h;
    var out := DecodeLines(raw, stride, ch, x.h);
    if out.None? {
      return Refused;
    }
    if x.ctype != 2 {
      return Unconverted(x, out.value);
    }
    var px := CopyPixels(out.value, pixels);
    result := Image(Raster(x.w, x.h, px));
  }

  method ReadPng(d: seq<Byte>, inflate: seq<Byte> -> Option<seq<Byte>>) returns (result: Outcome)
    ensures result == Read(d, inflate)
  {
    if Slice(d, 0, 8) != SIGNATURE {
      return Refused;
    }
    var scanned := ScanChunks(d, 8);
    if scanned.None? || scanned.value.header.None? {
      return Refused;
    }
    var x := scanned.value.header.value;
    if x.depth != 8 || x.interlace != 0 || !KnownColour(x.ctype) {
      return Refused;
    }
    var raw := inflate(scanned.value.idat);
    if raw.None? {
      return Refused;
    }
    result := DecodeImage(x, raw.value);
  }

  // ---------------------------------------------------------------- writing

  /** The rows of an image, `stride` bytes each. */
  function Rows(px: seq<Byte>, stride: nat, h: nat): (rows: seq<seq<Byte>>)
    ensures |rows| == h
  {
    seq(h, y requires 0 <= y < h => Slice(px, y * stride, y * stride + stride))
  }

  /** Each row behind filter type 0. */
  function Unfiltered(rows: seq<seq<Byte>>): seq<Byte> {
    if rows == [] then [] else Unfiltered(rows[..|rows| - 1]) + [0] + rows[|rows| - 1]
  }

  function WrittenChunks(r: Raster, z: seq<Byte>): seq<Chunk>
    requires 0 <= r.w < LIMIT && 0 <= r.h < LIMIT
  {
    [Chunk(IHDR, HeaderBody(Header(r.w, r.h, 8, 2, 0))), Chunk(IDAT, z), Chunk(IEND, [])]
  }

  function RawOf(r: Raster): seq<Byte>
    requires r.w >= 0 && r.h >= 0
  {
    Unfiltered(Rows(r.px, r.w * 3, r.h))
  }

  /** Whether every length fits its 32-bit field. */
  predicate Writable(r: Raster, deflate: seq<Byte> -> seq<Byte>) {
    0 <= r.w < LIMIT && 0 <= r.h < LIMIT && |deflate(RawOf(r))| < LIMIT
  }

  function Written(r: Raster, deflate: seq<Byte> -> seq<Byte>, crc: seq<Byte> -> nat): seq<Byte>
    requires Writable(r, deflate)
  {
    SIGNATURE + Framed(WrittenChunks(r, deflate(RawOf(r))), crc)
  }

  method CollectRows(r: Raster) returns (raw: seq<Byte>)
    requires r.w >= 0 && r.h >= 0
    ensures raw == RawOf(r)
  {
    var stride := r.w * 3;
    var rows := Rows(r.px, stride, r.h);
    raw := [];
    for y := 0 to r.h
      invariant raw == Unfiltered(rows[..y])
    {
      assert rows[..y + 1][..y] == rows[..y];
      raw := raw + [0];
      raw := raw + rows[y];
    }
    assert rows[..r.h] == rows;
  }

  lemma ThreeFrames(a: Chunk, b: Chunk, c: Chunk, crc: seq<Byte> -> nat)
    requires Frameable(a) && Frameable(b) && Frameable(c)
    ensures Framed([a, b, c], crc) == Frame(a, crc) + Frame(b, crc) + Frame(c, crc)
  {
    assert [a, b, c][1..] == [b, c] && [b, c][1..] == [c] && [c][1..] == [];
    assert Framed([c], crc) == Frame(c, crc) + [] == Frame(c, crc);
    assert Framed([b, c], crc) == Frame(b, crc) + Frame(c, crc);
    assert Frame(a, crc) + (Frame(b, crc) + Frame(c, crc)) == Frame(a, crc) + Frame(b, crc) + Frame(c, crc);
  }

  method WritePng(r: Raster, deflate: seq<Byte> -> seq<Byte>, crc: seq<Byte> -> nat) returns (d: Option<seq<Byte>>)
    ensures d == if Writable(r, deflate) then Some(Written(r, deflate, crc)) else None
  {
    if r.w < 0 || r.h < 0 {
      return None;
    }
    var raw := CollectRows(r);
    var z := deflate(raw);
    if r.w >= LIMIT || r.h >= LIMIT || |z| >= LIMIT {
      return None;
    }
    var head := Chunk(IHDR, HeaderBody(Header(r.w, r.h, 8, 2, 0)));
    var data, end := Chunk(IDAT, z), Chunk(IEND, []);
    ThreeFrames(head, data, end, crc);
    d := Some(SIGNATURE + (Frame(head, crc) + Frame(data, crc) + Frame(end, crc)));
  }

  // ---------------------------------------------------------------- reading what was written

  lemma {:induction false} UnfilteredIsEncoded(rows: seq<seq<Byte>>, stride: nat, prev: seq<Byte>)
    requires |prev| == stride && forall i :: 0 <= i < |rows| ==> |rows[i]| == stride
    ensures Unfiltered(rows) == Encoded(Zeros(|rows|), 3, rows, prev)
  {
    if rows != [] {
      UnfilteredFromFront(rows);
      UnfilteredIsEncoded(rows[1..], stride, rows[0]);
      assert Zeros(|rows|)[1..] == Zeros(|rows| - 1);
      assert Filtered(0, 3, rows[0], prev) == rows[0];
    }
  }

  lemma {:induction false} UnfilteredFromFront(rows: seq<seq<Byte>>)
    requires rows != []
    ensures Unfiltered(rows) == [0] + rows[0] + Unfiltered(rows[1..])
  {
    var last := |rows| - 1;
    var tail := rows[1..];
    if last > 0 {
      var init, middle := rows[..last], tail[..last - 1];
      UnfilteredFromFront(init);
      assert init[1..] == middle && init[0] == rows[0] && tail[last - 1] == rows[last];
      AppendIsAssociative([0] + rows[0], Unfiltered(middle), [0] + rows[last]);
      AppendIsAssociative(Unfiltered(init), [0], rows[last]);
      AppendIsAssociative(Unfiltered(middle), [0], rows[last]);
    } else {
      assert rows == [rows[0]] && tail == [];
      assert rows[..0] == [];
    }
  }

  lemma AppendIsAssociative(a: seq<Byte>, b: seq<Byte>, c: seq<Byte>)
    ensures (a + b) + c == a + (b + c)
  {
  }

  /** The rows of a complete buffer make it up again. */
  lemma {:induction false} RowsMakeUp(px: seq<Byte>, stride: nat, h: nat, y: nat, rows: seq<seq<Byte>>)
    requires |px| == h * stride && y <= h && rows == Rows(px, stride, h)
    ensures y * stride <= |px| && Flatten(rows[y..]) == px[y * stride..]
    ensures forall i :: 0 <= i < h ==> |rows[i]| == stride
    decreases h - y
  {
    forall i | 0 <= i < h ensures |rows[i]| == stride {
      CropFits(i, h, stride, i * stride);
    }
    if y < h {
      CropFits(y, h, stride, y * stride);
      RowsMakeUp(px, stride, h, y + 1, rows);
      assert rows[y..][0] == rows[y] && rows[y..][1..] == rows[y + 1..];
      assert px[y * stride..] == px[y * stride..y * stride + stride] + px[y * stride + stride..];
    } else {
      assert rows[y..] == [] && px[y * stride..] == [];
    }
  }

  /** The pixel data a writer emits decodes to the pixels. */
  lemma RawDecodes(r: Raster, stride: nat, h: nat)
    requires r.Valid() && stride == r.w * 3 && h == r.h
    ensures Lines(RawOf(r), 0, stride, 3, h, Zeros(stride)) == Some(r.px)
  {
    var rows := Rows(r.px, stride, h);
    assert r.w * r.h * 3 == h * stride;
    RowsMakeUp(r.px, stride, h, 0, rows);
    UnfilteredIsEncoded(rows, stride, Zeros(stride));
    var raw := RawOf(r);
    assert raw[0..] == raw;
    assert EncodedAt(raw, 0, Zeros(h), 3, rows, Zeros(stride));
    DecodingInvertsEncoding(raw, 0, Zeros(h), 3, rows, Zeros(stride), stride, h);
    assert rows[0..] == rows && r.px[0 * stride..] == r.px;
  }

  lemma HeaderAndData(x: Header, z: seq<Byte>)
    requires x.w < LIMIT && x.h < LIMIT
    ensures Collect([Chunk(IHDR, HeaderBody(x)), Chunk(IDAT, z), Chunk(IEND, [])], NOTHING) == Some(Found(Some(x), z))
  {
    HeaderRoundTrip(x);
    var chunks := [Chunk(IHDR, HeaderBody(x)), Chunk(IDAT, z), Chunk(IEND, [])];
    assert chunks[1..] == [Chunk(IDAT, z), Chunk(IEND, [])] && chunks[1..][1..] == [Chunk(IEND, [])];
    assert [] + z == z;
    assert IHDR[1] != IEND[1] && IDAT[1] != IEND[1] && IHDR[1] != IDAT[1];
    assert Absorb(NOTHING, chunks[0]) == Some(Found(Some(x), []));
    assert Absorb(Found(Some(x), []), chunks[1]) == Some(Found(Some(x), z));
    assert Collect(chunks, NOTHING) == Collect(chunks[1..], Found(Some(x), []));
    assert Collect(chunks[1..], Found(Some(x), [])) == Collect(chunks[1..][1..], Found(Some(x), z));
  }

  /** Reading what was written returns the same image, for every image whose lengths fit their fields, with
      any compressor the decompressor inverts on its data and any checksum. */
  lemma ReadInvertsWrite(r: Raster, deflate: seq<Byte> -> seq<Byte>, inflate: seq<Byte> -> Option<seq<Byte>>, crc: seq<Byte> -> nat)
    requires r.Valid() && Writable(r, deflate)
    requires inflate(deflate(RawOf(r))) == Some(RawOf(r))
    ensures Read(Written(r, deflate, crc), inflate) == Image(r)
  {
    var z := deflate(RawOf(r));
    var chunks := WrittenChunks(r, z);
    var d := Written(r, deflate, crc);
    var x := Header(r.w, r.h, 8, 2, 0);
    assert Slice(d, 0, 8) == SIGNATURE && d[8..] == Framed(chunks, crc);
    FramingRoundTrips(d, 8, chunks, crc, NOTHING);
    HeaderAndData(x, z);
    DecodesTo(r, x);
  }

  lemma DecodesTo(r: Raster, x: Header)
    requires r.Valid() && x == Header(r.w, r.h, 8, 2, 0)
    ensures Decoded(x, RawOf(r)) == Image(r)
  {
    var stride, pixels := r.w * 3, r.w * r.h;
    RawDecodes(r, stride, r.h);
    CopyIsExact(Zeros(3 * pixels), r.px, 0, pixels);
  }
}
