/** PNG framing, and both directions of the script's codec (scripts/e2e-mini-train.py, `encode_png`, `decode_png`). */
module PngFile {
  import opened PngFilter
  import opened Wrappers

  const WIDTH: nat := 64
  const HEIGHT: nat := 48
  const WORD: nat := 0x1_0000_0000

  const SIGNATURE: seq<Byte> := [0x89, 0x50, 0x4E, 0x47, 0x0D, 0x0A, 0x1A, 0x0A]
  const IHDR: seq<Byte> := [0x49, 0x48, 0x44, 0x52]
  const IDAT: seq<Byte> := [0x49, 0x44, 0x41, 0x54]
  const IEND: seq<Byte> := [0x49, 0x45, 0x4E, 0x44]

  /** zlib as a pair of functions, the second undoing the first, and a checksum of four bytes. */
  datatype Zlib = Zlib(
    deflate: seq<Byte> -> seq<Byte>, inflate: seq<Byte> -> Option<seq<Byte>>, crc: seq<Byte> -> seq<Byte>)

  ghost predicate Faithful(z: Zlib) {
    && (forall s :: z.inflate(z.deflate(s)) == Some(s))
    && forall s :: |z.crc(s)| == 4
  }

  // ── Four big-endian bytes ──────────────────────────────────────────────────

  function Be32(n: nat): (s: seq<Byte>)
    requires n < WORD
    ensures |s| == 4
  {
    [n / 0x100_0000, n / 0x1_0000 % 256, n / 0x100 % 256, n % 256]
  }

  function FromBe32(s: seq<Byte>): nat
    requires |s| == 4
  {
    s[0] as int * 0x100_0000 + s[1] as int * 0x1_0000 + s[2] as int * 0x100 + s[3]
  }

  lemma Be32ReadsBack(n: nat)
    requires n < WORD
    ensures FromBe32(Be32(n)) == n
  {
    assert n / 0x100 / 256 == n / 0x1_0000 && n / 0x1_0000 / 256 == n / 0x100_0000;
    assert n / 0x100_0000 * 256 + n / 0x1_0000 % 256 == n / 0x1_0000;
    assert n / 0x1_0000 * 256 + n / 0x100 % 256 == n / 0x100;
    assert n / 0x100 * 256 + n % 256 == n;
  }

  // ── Chunks ─────────────────────────────────────────────────────────────────

  datatype Chunk = Chunk(tag: seq<Byte>, payload: seq<Byte>)

  predicate Framable(c: Chunk) {
    |c.tag| == 4 && |c.payload| < WORD
  }

  function Frame(z: Zlib, c: Chunk): seq<Byte>
    requires Framable(c)
  {
    Be32(|c.payload|) + c.tag + c.payload + z.crc(c.tag + c.payload)
  }

  function Frames(z: Zlib, chunks: seq<Chunk>): seq<Byte>
    requires forall c :: c in chunks ==> Framable(c)
  {
    if chunks == [] then [] else Frame(z, chunks[0]) + Frames(z, chunks[1..])
  }

  /** The image data of a list of chunks, however it was split. */
  function Data(chunks: seq<Chunk>): seq<Byte> {
    if chunks == [] then []
    else (if chunks[0].tag == IDAT then chunks[0].payload else []) + Data(chunks[1..])
  }

  /** What the scan has read: the dimensions and the image data so far. */
  datatype Scanned = Scanned(width: nat, height: nat, data: seq<Byte>)

  /** One turn of the scan: the length of what it stepped over, or None at the end marker. */
  function ScanChunk(body: seq<Byte>, offset: nat, s: Scanned): Result<(Option<nat>, Scanned), Error> {
    if |body| < offset + 4 then Err(Truncated)
    else
      var length := FromBe32(body[offset..offset + 4]);
      var tag := Clip(body, offset + 4, offset + 8);
      var payload := Clip(body, offset + 8, offset + 8 + length);
      if tag == IHDR then
        if |payload| < 10 then Err(Truncated)
        else if payload[8] != 8 || payload[9] != 0 then Err(NotGrey8)
        else Ok((Some(length), s.(width := FromBe32(payload[0..4]), height := FromBe32(payload[4..8]))))
      else if tag == IDAT then Ok((Some(length), s.(data := s.data + payload)))
      else if tag == IEND then Ok((None, s))
      else Ok((Some(length), s))
  }

  /** A way of taking one turn, so that the scan can be reasoned about without the bytes. */
  type Reader = (nat, Scanned) -> Result<(Option<nat>, Scanned), Error>

  function ReaderOf(body: seq<Byte>): Reader {
    (offset, s) => ScanChunk(body, offset, s)
  }

  function Scan(read: Reader, size: nat, offset: nat, s: Scanned): Result<Scanned, Error>
    decreases size - offset
  {
    if offset >= size then Ok(s)
    else
      var r := read(offset, s);
      if r.Err? then Err(r.error)
      else if r.value.0.None? then Ok(r.value.1)
      else Scan(read, size, offset + 12 + r.value.0.value, r.value.1)
  }

  const START := Scanned(0, 0, [])

  // ── Rows ───────────────────────────────────────────────────────────────────

  /** Rows already decoded, in front of what the rest comes to. */
  function Onto(rows: seq<seq<Byte>>, rest: Result<seq<seq<Byte>>, Error>): Result<seq<seq<Byte>>, Error> {
    if rest.Err? then rest else Ok(rows + rest.value)
  }

  function RowsOf(raw: seq<Byte>, at: nat, width: nat, height: nat, above: seq<Byte>): Result<seq<seq<Byte>>, Error>
    requires |above| == width || at >= |raw|
    decreases height
  {
    if height == 0 then Ok([])
    else
      var row := RowOf(raw, at, width, above);
      if row.Err? then Err(row.error)
      else
        Onto([row.value], RowsOf(raw, at + 1 + width, width, height - 1, row.value))
  }

  function Zeros(n: nat): (s: seq<Byte>)
    ensures |s| == n && forall i :: 0 <= i < n ==> s[i] == 0
  {
    seq(n, _ => 0)
  }

  /** What decoding a file comes to. */
  function DecodedFile(z: Zlib, body: seq<Byte>): Result<seq<seq<Byte>>, Error> {
    if !(SIGNATURE <= body) then Err(NotPng)
    else
      var scanned := Scan(ReaderOf(body), |body|, 8, START);
      if scanned.Err? then Err(scanned.error)
      else
        var s := scanned.value;
        match z.inflate(s.data)
        case None => Err(NotZlib)
        case Some(raw) => RowsOf(raw, 0, s.width, s.height, Zeros(s.width))
  }

  // ── The script's own loops ─────────────────────────────────────────────────

  method ReadChunk(body: seq<Byte>, offset: nat, s: Scanned) returns (r: Result<(Option<nat>, Scanned), Error>)
    ensures r == ScanChunk(body, offset, s)
  {
    if |body| < offset + 4 {
      return Err(Truncated);
    }
    var length := FromBe32(body[offset..offset + 4]);
    var tag := Clip(body, offset + 4, offset + 8);
    var payload := Clip(body, offset + 8, offset + 8 + length);
    var next := s;
    if tag == IHDR {
      if |payload| < 10 {
        return Err(Truncated);
      }
      if payload[8] != 8 || payload[9] != 0 {
        return Err(NotGrey8);
      }
      next := s.(width := FromBe32(payload[0..4]), height := FromBe32(payload[4..8]));
    } else if tag == IDAT {
      next := s.(data := s.data + payload);
    } else if tag == IEND {
      return Ok((None, s));
    }
    return Ok((Some(length), next));
  }

  /** The scan from here on comes to what the whole scan comes to. */
  ghost predicate Remains(read: Reader, size: nat, whole: Result<Scanned, Error>, offset: nat, s: Scanned) {
    whole == Scan(read, size, offset, s)
  }

  lemma OneTurn(
    read: Reader, size: nat, whole: Result<Scanned, Error>, offset: nat, s: Scanned,
    r: Result<(Option<nat>, Scanned), Error>)
    requires offset < size && Remains(read, size, whole, offset, s) && r == read(offset, s)
    ensures r.Err? ==> whole == Err(r.error)
    ensures r.Ok? && r.value.0.None? ==> whole == Ok(r.value.1)
    ensures r.Ok? && r.value.0.Some? ==> Remains(read, size, whole, offset + 12 + r.value.0.value, r.value.1)
  {
  }

  /** `read` takes a turn as the scan of these bytes does. */
  ghost predicate ReadsBytes(read: Reader, body: seq<Byte>) {
    forall offset: nat, s {:trigger ScanChunk(body, offset, s)} :: read(offset, s) == ScanChunk(body, offset, s)
  }

  method ReadAt(body: seq<Byte>, ghost read: Reader, offset: nat, s: Scanned)
    returns (r: Result<(Option<nat>, Scanned), Error>)
    requires ReadsBytes(read, body)
    ensures r == read(offset, s)
  {
    r := ReadChunk(body, offset, s);
  }

  method ScanOn(body: seq<Byte>, ghost read: Reader, ghost whole: Result<Scanned, Error>)
    returns (r: Result<Scanned, Error>)
    requires ReadsBytes(read, body) && Remains(read, |body|, whole, 8, START)
    ensures r == whole
  {
    var offset, s := 8, START;
    while offset < |body|
      invariant Remains(read, |body|, whole, offset, s)
      decreases |body| - offset
    {
      var turn := ReadAt(body, read, offset, s);
      OneTurn(read, |body|, whole, offset, s, turn);
      if turn.Err? {
        return Err(turn.error);
      }
      s := turn.value.1;
      if turn.value.0.None? {
        return Ok(s);
      }
      offset := offset + 12 + turn.value.0.value;
    }
    return Ok(s);
  }

  method ScanFile(body: seq<Byte>) returns (r: Result<Scanned, Error>)
    ensures r == Scan(ReaderOf(body), |body|, 8, START)
  {
    r := ScanOn(body, ReaderOf(body), Scan(ReaderOf(body), |body|, 8, START));
  }

  lemma OntoNothing(rest: Result<seq<seq<Byte>>, Error>)
    ensures Onto([], rest) == rest
  {
    if rest.Ok? {
      assert [] + rest.value == rest.value;
    }
  }

  lemma OntoOne(rows: seq<seq<Byte>>, row: seq<Byte>, rest: Result<seq<seq<Byte>>, Error>)
    ensures Onto(rows, Onto([row], rest)) == Onto(rows + [row], rest)
  {
    if rest.Ok? {
      assert rows + ([row] + rest.value) == rows + [row] + rest.value;
    }
  }

  /** What decoding the rows from a place on comes to, given how many are left and the one above. */
  type Rest = (nat, nat, seq<Byte>) -> Result<seq<seq<Byte>>, Error>

  ghost function RestOf(raw: seq<Byte>, width: nat): Rest {
    (at: nat, left: nat, above: seq<Byte>) =>
      if |above| == width || at >= |raw| then RowsOf(raw, at, width, left, above) else Err(OutOfRange)
  }

  ghost predicate DecodesRows(rest: Rest, raw: seq<Byte>, width: nat) {
    forall at: nat, left: nat, above {:trigger RowsOf(raw, at, width, left, above)} ::
      |above| == width || at >= |raw| ==> rest(at, left, above) == RowsOf(raw, at, width, left, above)
  }

  /** The rows so far, and the ones still to come, are what the whole data comes to. */
  ghost predicate RowsRemain(
    rest: Rest, raw: seq<Byte>, width: nat, whole: Result<seq<seq<Byte>>, Error>, rows: seq<seq<Byte>>, at: nat,
    left: nat, above: seq<Byte>)
  {
    && (|above| == width || at >= |raw|)
    && whole == Onto(rows, rest(at, left, above))
  }

  lemma OneRow(
    rest: Rest, raw: seq<Byte>, width: nat, at: nat, left: nat, above: seq<Byte>, row: Result<seq<Byte>, Error>)
    requires DecodesRows(rest, raw, width) && left > 0 && (|above| == width || at >= |raw|)
    requires row == RowOf(raw, at, width, above)
    ensures row.Err? ==> rest(at, left, above) == Err(row.error)
    ensures row.Ok? ==> |row.value| == width || at + 1 + width >= |raw|
    ensures row.Ok? ==> rest(at, left, above) == Onto([row.value], rest(at + 1 + width, left - 1, row.value))
  {
    assert rest(at, left, above) == RowsOf(raw, at, width, left, above);
    if row.Ok? {
      assert rest(at + 1 + width, left - 1, row.value) == RowsOf(raw, at + 1 + width, width, left - 1, row.value);
    }
  }

  method NextRow(
    raw: seq<Byte>, width: nat, ghost rest: Rest, ghost whole: Result<seq<seq<Byte>>, Error>,
    ghost rows: seq<seq<Byte>>, at: nat, ghost left: nat, above: seq<Byte>) returns (row: Result<seq<Byte>, Error>)
    requires DecodesRows(rest, raw, width)
    requires RowsRemain(rest, raw, width, whole, rows, at, left, above) && left > 0
    ensures row.Err? ==> whole == Err(row.error)
    ensures row.Ok? ==> RowsRemain(rest, raw, width, whole, rows + [row.value], at + 1 + width, left - 1, row.value)
  {
    row := DecodeRow(raw, at, width, above);
    OneRow(rest, raw, width, at, left, above, row);
    if row.Ok? {
      OntoOne(rows, row.value, rest(at + 1 + width, left - 1, row.value));
    }
  }

  lemma NoRowsRemain(
    rest: Rest, raw: seq<Byte>, width: nat, whole: Result<seq<seq<Byte>>, Error>, rows: seq<seq<Byte>>, at: nat,
    above: seq<Byte>)
    requires DecodesRows(rest, raw, width) && RowsRemain(rest, raw, width, whole, rows, at, 0, above)
    ensures whole == Ok(rows)
  {
    assert rest(at, 0, above) == RowsOf(raw, at, width, 0, above);
    assert rows + [] == rows;
  }

  method RowsLeft(
    raw: seq<Byte>, width: nat, height: nat, ghost rest: Rest, ghost whole: Result<seq<seq<Byte>>, Error>)
    returns (r: Result<seq<seq<Byte>>, Error>)
    requires DecodesRows(rest, raw, width) && RowsRemain(rest, raw, width, whole, [], 0, height, Zeros(width))
    ensures r == whole
  {
    var rows: seq<seq<Byte>> := [];
    var previous := Zeros(width);
    var at: nat := 0;
    for count := 0 to height
      invariant RowsRemain(rest, raw, width, whole, rows, at, height - count, previous)
    {
      var row := NextRow(raw, width, rest, whole, rows, at, height - count, previous);
      if row.Err? {
        return Err(row.error);
      }
      rows := rows + [row.value];
      previous := row.value;
      at := at + 1 + width;
    }
    NoRowsRemain(rest, raw, width, whole, rows, at, previous);
    return Ok(rows);
  }

  method DecodeRows(raw: seq<Byte>, width: nat, height: nat) returns (r: Result<seq<seq<Byte>>, Error>)
    ensures r == RowsOf(raw, 0, width, height, Zeros(width))
  {
    ghost var whole := RowsOf(raw, 0, width, height, Zeros(width));
    OntoNothing(whole);
    r := RowsLeft(raw, width, height, RestOf(raw, width), whole);
  }

  /** `decode_png`: every result it can return, errors included. */
  method Decode(z: Zlib, body: seq<Byte>) returns (r: Result<seq<seq<Byte>>, Error>)
    ensures r == DecodedFile(z, body)
  {
    if !(SIGNATURE <= body) {
      return Err(NotPng);
    }
    var scanned := ScanFile(body);
    if scanned.Err? {
      return Err(scanned.error);
    }
    var inflated := z.inflate(scanned.value.data);
    if inflated.None? {
      return Err(NotZlib);
    }
    r := DecodeRows(inflated.value, scanned.value.width, scanned.value.height);
  }

  predicate Filters(filters: seq<nat>) {
    forall i :: 0 <= i < |filters| ==> filters[i] <= 4
  }

  /** The raw image before compression: each row's filter type and its filtered bytes. */
  function Raw(filters: seq<nat>, pixels: seq<seq<Byte>>, above: seq<Byte>): seq<Byte>
    requires |filters| == |pixels| && Filters(filters)
    requires forall i :: 0 <= i < |pixels| ==> |pixels[i]| == |above|
  {
    if pixels == [] then []
    else
      [filters[0]] + Filtered(filters[0], pixels[0], above) + Raw(filters[1..], pixels[1..], pixels[0])
  }

  predicate Shaped(pixels: seq<seq<Byte>>, width: nat, height: nat) {
    |pixels| == height && forall i :: 0 <= i < |pixels| ==> |pixels[i]| == width
  }

  function Header(width: nat, height: nat): Chunk
    requires width < WORD && height < WORD
  {
    Chunk(IHDR, Be32(width) + Be32(height) + [8, 0, 0, 0, 0])
  }

  /** `encode_png`: the header always says 64 by 48, whatever it is handed. */
  method Encode(z: Zlib, pixels: seq<seq<Byte>>) returns (r: Result<seq<Byte>, Error>)
    ensures r == EncodedFile(z, pixels)
  {
    var raw: seq<Byte> := [];
    for y := 0 to |pixels|
      invariant raw == Unfiltered(pixels[..y])
    {
      raw := raw + [0];
      raw := raw + pixels[y];
      assert pixels[..y + 1][..y] == pixels[..y];
    }
    assert pixels[..|pixels|] == pixels;
    var packed := z.deflate(raw);
    if |packed| >= WORD {
      return Err(TooLong);
    }
    ThreeFrames(z, Header(WIDTH, HEIGHT), Chunk(IDAT, packed), Chunk(IEND, []));
    return Ok(
        SIGNATURE + Frame(z, Header(WIDTH, HEIGHT)) + Frame(z, Chunk(IDAT, packed)) + Frame(z, Chunk(IEND, [])));
  }

  // ── What is written ────────────────────────────────────────────────────────

  /** The chunk stands at `at` as RFC 2083 section 3.2 has it: length, type, data, and the checksum of type and data. */
  predicate SealedAt(z: Zlib, body: seq<Byte>, at: nat, c: Chunk) {
    var n := |c.payload|;
    && at + 12 + n <= |body|
    && FromBe32(body[at..at + 4]) == n
    && body[at + 4..at + 8] == c.tag
    && body[at + 8..at + 8 + n] == c.payload
    && body[at + 8 + n..at + 12 + n] == z.crc(body[at + 4..at + 8 + n])
  }

  lemma FrameLength(z: Zlib, c: Chunk)
    requires Faithful(z) && Framable(c)
    ensures |Frame(z, c)| == 12 + |c.payload|
  {
  }

  lemma SliceAt(body: seq<Byte>, at: nat, part: seq<Byte>, rest: seq<Byte>)
    requires at <= |body| && body[at..] == part + rest
    ensures at + |part| <= |body| && body[at..at + |part|] == part && body[at + |part|..] == rest
  {
    assert body[at..at + |part|] == body[at..][..|part|];
    assert body[at + |part|..] == body[at..][|part|..];
  }

  lemma InTwo(body: seq<Byte>, at: nat, a: seq<Byte>, b: seq<Byte>)
    requires at + |a| + |b| <= |body| && body[at..at + |a| + |b|] == a + b
    ensures body[at..at + |a|] == a && body[at + |a|..at + |a| + |b|] == b
  {
    var both := body[at..at + |a| + |b|];
    assert body[at..at + |a|] == both[..|a|] && body[at + |a|..at + |a| + |b|] == both[|a|..];
  }

  lemma FrameGroups(
    before: seq<Byte>, a: seq<Byte>, b: seq<Byte>, c: seq<Byte>, d: seq<Byte>, after: seq<Byte>)
    ensures (before + (a + b + c + d) + after)[|before|..] == a + ((b + c) + (d + after))
  {
  }

  lemma FrameIsSealed(z: Zlib, body: seq<Byte>, before: seq<Byte>, c: Chunk, after: seq<Byte>)
    requires Faithful(z) && Framable(c) && body == before + Frame(z, c) + after
    ensures SealedAt(z, body, |before|, c)
  {
    var at, n, sealed := |before|, |c.payload|, c.tag + c.payload;
    var crc := z.crc(sealed);
    Be32ReadsBack(n);
    FrameGroups(before, Be32(n), c.tag, c.payload, crc, after);
    SliceAt(body, at, Be32(n), sealed + (crc + after));
    SliceAt(body, at + 4, sealed, crc + after);
    SliceAt(body, at + 8 + n, crc, after);
    InTwo(body, at + 4, c.tag, c.payload);
  }

  lemma ThreeFrames(z: Zlib, a: Chunk, b: Chunk, c: Chunk)
    requires Framable(a) && Framable(b) && Framable(c)
    ensures File(z, [a, b, c], []) == SIGNATURE + Frame(z, a) + Frame(z, b) + Frame(z, c)
  {
    assert [a, b, c][1..] == [b, c] && [b, c][1..] == [c];
    OneFrame(z, c);
    assert Frames(z, [b, c]) == Frame(z, b) + Frames(z, [c]);
    assert Frames(z, [a, b, c]) == Frame(z, a) + Frames(z, [b, c]);
  }

  lemma FirstSealed(z: Zlib, body: seq<Byte>, a: Chunk, b: Chunk, c: Chunk)
    requires Faithful(z) && Framable(a) && Framable(b) && Framable(c)
    requires body == SIGNATURE + Frame(z, a) + Frame(z, b) + Frame(z, c)
    ensures body[..8] == SIGNATURE && SealedAt(z, body, 8, a)
  {
    assert body == SIGNATURE + Frame(z, a) + (Frame(z, b) + Frame(z, c));
    FrameIsSealed(z, body, SIGNATURE, a, Frame(z, b) + Frame(z, c));
    assert body[..8] == SIGNATURE;
  }

  lemma SecondSealed(z: Zlib, body: seq<Byte>, a: Chunk, b: Chunk, c: Chunk)
    requires Faithful(z) && Framable(a) && Framable(b) && Framable(c)
    requires body == SIGNATURE + Frame(z, a) + Frame(z, b) + Frame(z, c)
    ensures SealedAt(z, body, 20 + |a.payload|, b)
  {
    FrameLength(z, a);
    FrameIsSealed(z, body, SIGNATURE + Frame(z, a), b, Frame(z, c));
  }

  lemma NothingAfter<T>(s: seq<T>)
    ensures s + [] == s
  {
  }

  lemma ThirdSealed(z: Zlib, body: seq<Byte>, a: Chunk, b: Chunk, c: Chunk)
    requires Faithful(z) && Framable(a) && Framable(b) && Framable(c)
    requires body == SIGNATURE + Frame(z, a) + Frame(z, b) + Frame(z, c)
    ensures |body| == 44 + |a.payload| + |b.payload| + |c.payload|
    ensures SealedAt(z, body, 32 + |a.payload| + |b.payload|, c)
  {
    FrameLength(z, a);
    FrameLength(z, b);
    FrameLength(z, c);
    NothingAfter(body);
    FrameIsSealed(z, body, SIGNATURE + Frame(z, a) + Frame(z, b), c, []);
  }

  lemma HeaderSays()
    ensures Header(WIDTH, HEIGHT) == Chunk([73, 72, 68, 82], [0, 0, 0, 64, 0, 0, 0, 48, 8, 0, 0, 0, 0])
  {
  }

  lemma AllSealed(z: Zlib, body: seq<Byte>, a: Chunk, b: Chunk)
    requires Faithful(z) && Framable(a) && Framable(b)
    requires body == File(z, [a, b, Chunk(IEND, [])], [])
    ensures |body| == 44 + |a.payload| + |b.payload| && body[..8] == SIGNATURE
    ensures SealedAt(z, body, 8, a) && SealedAt(z, body, 20 + |a.payload|, b)
    ensures SealedAt(z, body, 32 + |a.payload| + |b.payload|, Chunk(IEND, []))
  {
    var c := Chunk(IEND, []);
    ThreeFrames(z, a, b, c);
    FirstSealed(z, body, a, b, c);
    SecondSealed(z, body, a, b, c);
    ThirdSealed(z, body, a, b, c);
  }

  /**
   The file written for any pixels, byte by byte: the signature, a header that says 64 by 48 in eight
   bits of grey, one chunk of image data and the end marker, each sealed with its checksum.
   */
  lemma EncodedIsSealed(z: Zlib, pixels: seq<seq<Byte>>)
    requires Faithful(z) && EncodedFile(z, pixels).Ok?
    ensures var body, packed := EncodedFile(z, pixels).value, z.deflate(Unfiltered(pixels));
      && |body| == 57 + |packed|
      && body[..8] == [137, 80, 78, 71, 13, 10, 26, 10]
      && SealedAt(z, body, 8, Chunk([73, 72, 68, 82], [0, 0, 0, 64, 0, 0, 0, 48, 8, 0, 0, 0, 0]))
      && SealedAt(z, body, 33, Chunk([73, 68, 65, 84], packed))
      && SealedAt(z, body, 45 + |packed|, Chunk([73, 69, 78, 68], []))
  {
    HeaderSays();
    AllSealed(z, EncodedFile(z, pixels).value, Header(WIDTH, HEIGHT), Chunk(IDAT, z.deflate(Unfiltered(pixels))));
  }

  function Unfiltered(pixels: seq<seq<Byte>>): seq<Byte> {
    if pixels == [] then []
    else
      var n := |pixels| - 1;
      Unfiltered(pixels[..n]) + ([0] + pixels[n])
  }

  function EncodedFile(z: Zlib, pixels: seq<seq<Byte>>): Result<seq<Byte>, Error> {
    var packed := z.deflate(Unfiltered(pixels));
    if |packed| >= WORD then Err(TooLong)
    else Ok(File(z, [Header(WIDTH, HEIGHT), Chunk(IDAT, packed), Chunk(IEND, [])], []))
  }

  /** A file: the signature, its chunks, and anything at all after them. */
  function File(z: Zlib, chunks: seq<Chunk>, tail: seq<Byte>): seq<Byte>
    requires forall c :: c in chunks ==> Framable(c)
  {
    SIGNATURE + Frames(z, chunks) + tail
  }

  // ── What the scan makes of a file ──────────────────────────────────────────

  /** The effect of one chunk on the scan. */
  function After(c: Chunk, s: Scanned): Scanned {
    if c.tag == IHDR && |c.payload| >= 10 then
      s.(width := FromBe32(c.payload[0..4]), height := FromBe32(c.payload[4..8]))
    else if c.tag == IDAT then s.(data := s.data + c.payload)
    else s
  }

  predicate Grey8(c: Chunk) {
    c.tag == IHDR ==> |c.payload| >= 10 && c.payload[8] == 8 && c.payload[9] == 0
  }

  /** Where a chunk stands in a file, and what comes after it. */
  lemma FrameParts(z: Zlib, body: seq<Byte>, at: nat, c: Chunk, post: seq<Byte>)
    requires Framable(c) && Faithful(z) && at <= |body| && body[at..] == Frame(z, c) + post
    ensures var n := |c.payload|;
      && at + 12 + n <= |body| && body[at + 12 + n..] == post
      && body[at..at + 4] == Be32(n)
      && Clip(body, at + 4, at + 8) == c.tag
      && Clip(body, at + 8, at + 8 + n) == c.payload
  {
    var n := |c.payload|;
    var crc := z.crc(c.tag + c.payload);
    assert Frame(z, c) + post == Be32(n) + (c.tag + (c.payload + (crc + post)));
    SliceAt(body, at, Be32(n), c.tag + (c.payload + (crc + post)));
    SliceAt(body, at + 4, c.tag, c.payload + (crc + post));
    SliceAt(body, at + 8, c.payload, crc + post);
    SliceAt(body, at + 8 + n, crc, post);
  }

  function AfterAll(chunks: seq<Chunk>, s: Scanned): Scanned {
    if chunks == [] then s else AfterAll(chunks[1..], After(chunks[0], s))
  }

  function ReadAs(c: Chunk, s: Scanned): Result<(Option<nat>, Scanned), Error> {
    if c.tag == IEND then Ok((None, s)) else Ok((Some(|c.payload|), After(c, s)))
  }

  /** Whatever the scan has so far, at `at` it reads chunk `c`. */
  ghost predicate Reads(read: Reader, at: nat, c: Chunk) {
    forall s :: read(at, s) == ReadAs(c, s)
  }

  /** From `at` on, within `size`, the scan reads these chunks and then the end marker. */
  ghost predicate Lists(read: Reader, size: nat, at: nat, chunks: seq<Chunk>)
    decreases chunks
  {
    at < size &&
    if chunks == [] then Reads(read, at, Chunk(IEND, []))
    else
      && Reads(read, at, chunks[0]) && chunks[0].tag != IEND
      && Lists(read, size, at + 12 + |chunks[0].payload|, chunks[1..])
  }

  /** Chunks up to the end marker are read one after another. */
  lemma {:induction false} ScanFrames(read: Reader, size: nat, at: nat, chunks: seq<Chunk>, s: Scanned)
    requires Lists(read, size, at, chunks)
    ensures Scan(read, size, at, s) == Ok(AfterAll(chunks, s))
    decreases chunks
  {
    if chunks == [] {
      assert read(at, s) == Ok((None, s));
    } else {
      assert read(at, s) == ReadAs(chunks[0], s);
      ScanFrames(read, size, at + 12 + |chunks[0].payload|, chunks[1..], After(chunks[0], s));
    }
  }

  lemma ScanFrame(z: Zlib, body: seq<Byte>, at: nat, c: Chunk, post: seq<Byte>, s: Scanned)
    requires Framable(c) && Faithful(z) && Grey8(c) && at <= |body| && body[at..] == Frame(z, c) + post
    ensures ScanChunk(body, at, s) == ReadAs(c, s)
  {
    FrameParts(z, body, at, c, post);
    Be32ReadsBack(|c.payload|);
    assert IHDR[1] != IEND[1] && IDAT[1] != IEND[1] && IHDR[1] != IDAT[1];
  }

  lemma FrameIsRead(z: Zlib, body: seq<Byte>, at: nat, c: Chunk, post: seq<Byte>)
    requires Framable(c) && Faithful(z) && Grey8(c) && at <= |body| && body[at..] == Frame(z, c) + post
    ensures at < |body| && Reads(ReaderOf(body), at, c)
    ensures at + 12 + |c.payload| <= |body| && body[at + 12 + |c.payload|..] == post
  {
    FrameParts(z, body, at, c, post);
    forall s
      ensures ReaderOf(body)(at, s) == ReadAs(c, s)
    {
      ScanFrame(z, body, at, c, post, s);
    }
  }

  /** At `at` the bytes go on with this part and then with the rest. */
  ghost predicate Follows(body: seq<Byte>, at: nat, part: seq<Byte>, rest: seq<Byte>) {
    at <= |body| && body[at..] == part + rest
  }

  function Joined(frame: Chunk -> seq<Byte>, chunks: seq<Chunk>): seq<Byte> {
    if chunks == [] then [] else frame(chunks[0]) + Joined(frame, chunks[1..])
  }

  /** Wherever the frame of one of these chunks follows, the scan reads that chunk and steps over its frame. */
  ghost predicate Understands(read: Reader, body: seq<Byte>, frame: Chunk -> seq<Byte>, chunks: seq<Chunk>) {
    forall c, at: nat, rest {:trigger Follows(body, at, frame(c), rest)} ::
      c in chunks && Follows(body, at, frame(c), rest) ==>
        at < |body| && Reads(read, at, c) && Follows(body, at + 12 + |c.payload|, rest, [])
  }

  lemma {:induction false} FramesListed(
    read: Reader, body: seq<Byte>, frame: Chunk -> seq<Byte>, at: nat, chunks: seq<Chunk>, ending: Chunk,
    tail: seq<Byte>)
    requires Understands(read, body, frame, chunks + [ending]) && ending == Chunk(IEND, [])
    requires forall c :: c in chunks ==> c.tag != IEND
    requires Follows(body, at, Joined(frame, chunks), frame(ending) + tail)
    ensures Lists(read, |body|, at, chunks)
    decreases chunks
  {
    if chunks == [] {
      assert Follows(body, at, frame(ending), tail) by {
        assert [] + (frame(ending) + tail) == frame(ending) + tail;
      }
    } else {
      var c, rest := chunks[0], Joined(frame, chunks[1..]) + (frame(ending) + tail);
      assert Follows(body, at, frame(c), rest) by {
        Reassociate(frame(c), Joined(frame, chunks[1..]), frame(ending) + tail);
      }
      assert Follows(body, at + 12 + |c.payload|, Joined(frame, chunks[1..]), frame(ending) + tail) by {
        assert rest + [] == rest;
      }
      FramesListed(read, body, frame, at + 12 + |c.payload|, chunks[1..], ending, tail);
    }
  }

  function FrameOf(z: Zlib): Chunk -> seq<Byte> {
    (c: Chunk) => if Framable(c) then Frame(z, c) else []
  }

  lemma {:induction false} FramesAreJoined(z: Zlib, chunks: seq<Chunk>)
    requires forall c :: c in chunks ==> Framable(c)
    ensures Frames(z, chunks) == Joined(FrameOf(z), chunks)
  {
    if chunks != [] {
      FramesAreJoined(z, chunks[1..]);
    }
  }

  lemma FramesUnderstood(z: Zlib, body: seq<Byte>, chunks: seq<Chunk>)
    requires Faithful(z) && forall c :: c in chunks ==> Framable(c) && Grey8(c)
    ensures Understands(ReaderOf(body), body, FrameOf(z), chunks)
  {
    forall c, at: nat, rest | c in chunks && Follows(body, at, FrameOf(z)(c), rest)
      ensures at < |body| && Reads(ReaderOf(body), at, c) && Follows(body, at + 12 + |c.payload|, rest, [])
    {
      FrameIsRead(z, body, at, c, rest);
      assert rest + [] == rest;
    }
  }

  lemma FramesAreListed(z: Zlib, body: seq<Byte>, at: nat, chunks: seq<Chunk>, tail: seq<Byte>)
    requires Faithful(z)
    requires forall c :: c in chunks ==> Framable(c) && Grey8(c) && c.tag != IEND
    requires at <= |body| && body[at..] == Frames(z, chunks) + (Frame(z, Chunk(IEND, [])) + tail)
    ensures Lists(ReaderOf(body), |body|, at, chunks)
  {
    FramesAreJoined(z, chunks);
    FramesUnderstood(z, body, chunks + [Chunk(IEND, [])]);
    FramesListed(ReaderOf(body), body, FrameOf(z), at, chunks, Chunk(IEND, []), tail);
  }

  lemma Reassociate<T>(a: seq<T>, b: seq<T>, c: seq<T>)
    ensures a + b + c == a + (b + c)
  {
  }

  /** Image data accumulates however it is split, and chunks of other kinds leave no trace. */
  lemma {:induction false} DataAccumulates(chunks: seq<Chunk>, s: Scanned)
    requires forall c :: c in chunks ==> c.tag != IHDR
    ensures AfterAll(chunks, s) == s.(data := s.data + Data(chunks))
    decreases chunks
  {
    if chunks == [] {
      assert s.data + [] == s.data;
    } else {
      var more := if chunks[0].tag == IDAT then chunks[0].payload else [];
      AfterOther(chunks[0], s);
      DataAccumulates(chunks[1..], s.(data := s.data + more));
      assert s.data + (more + Data(chunks[1..])) == s.data + more + Data(chunks[1..]);
    }
  }

  lemma AfterOther(c: Chunk, s: Scanned)
    requires c.tag != IHDR
    ensures After(c, s) == s.(data := s.data + if c.tag == IDAT then c.payload else [])
  {
    assert s.data + [] == s.data;
  }

  // ── What the rows come to ──────────────────────────────────────────────────

  lemma RowParts(raw: seq<Byte>, at: nat, filter: Byte, line: seq<Byte>, post: seq<Byte>)
    requires at <= |raw| && raw[at..] == [filter] + line + post
    ensures at + 1 + |line| <= |raw| && raw[at] == filter && raw[at + 1 + |line|..] == post
    ensures Clip(raw, at + 1, at + 1 + |line|) == line
  {
    assert raw[at] == raw[at..][0];
    assert raw[at + 1..at + 1 + |line|] == raw[at..][1..1 + |line|] == line;
    assert raw[at + 1 + |line|..] == raw[at..][1 + |line|..];
  }

  lemma LineDecodes(filter: nat, row: seq<Byte>, above: seq<Byte>)
    requires filter <= 4 && |row| == |above|
    ensures LineOf(filter, Filtered(filter, row, above), |row|, above) == Ok(row)
  {
    DecodeUndoesFilter(filter, row, above, |row|);
    UnfilteredDecodes(Filtered(filter, row, above), above, |row|);
    assert row[..|row|] == row && Filtered(filter, row, above)[..|row|] == Filtered(filter, row, above);
  }

  lemma LineFound(
    raw: seq<Byte>, at: nat, filter: Byte, line: seq<Byte>, above: seq<Byte>, post: seq<Byte>,
    row: Result<seq<Byte>, Error>)
    requires |line| == |above| && row == LineOf(filter, line, |line|, above)
    requires at <= |raw| && raw[at..] == [filter] + line + post
    ensures RowOf(raw, at, |line|, above) == row
    ensures at + 1 + |line| <= |raw| && raw[at + 1 + |line|..] == post
  {
    RowParts(raw, at, filter, line, post);
  }

  lemma RowFound(raw: seq<Byte>, at: nat, filter: nat, row: seq<Byte>, above: seq<Byte>, post: seq<Byte>)
    requires filter <= 4 && |row| == |above|
    requires at <= |raw| && raw[at..] == [filter] + Filtered(filter, row, above) + post
    ensures RowOf(raw, at, |row|, above) == Ok(row)
    ensures at + 1 + |row| <= |raw| && raw[at + 1 + |row|..] == post
  {
    LineDecodes(filter, row, above);
    LineFound(raw, at, filter, Filtered(filter, row, above), above, post, Ok(row));
  }

  /** From `at` on the rows decode one by one to `pixels`. */
  ghost predicate RowsRead(raw: seq<Byte>, at: nat, width: nat, above: seq<Byte>, pixels: seq<seq<Byte>>)
    decreases pixels
  {
    pixels != [] ==>
      && (|above| == width || at >= |raw|)
      && RowOf(raw, at, width, above) == Ok(pixels[0])
      && RowsRead(raw, at + 1 + width, width, pixels[0], pixels[1..])
  }

  lemma {:induction false} ReadRows(raw: seq<Byte>, at: nat, width: nat, above: seq<Byte>, pixels: seq<seq<Byte>>)
    requires RowsRead(raw, at, width, above, pixels) && (|above| == width || at >= |raw|)
    ensures RowsOf(raw, at, width, |pixels|, above) == Ok(pixels)
    decreases pixels
  {
    if pixels != [] {
      ReadRows(raw, at + 1 + width, width, pixels[0], pixels[1..]);
      assert [pixels[0]] + pixels[1..] == pixels;
    }
  }

  lemma {:induction false} RowsFound(
    raw: seq<Byte>, at: nat, filters: seq<nat>, pixels: seq<seq<Byte>>, above: seq<Byte>, post: seq<Byte>)
    requires |filters| == |pixels| && Filters(filters)
    requires forall i :: 0 <= i < |pixels| ==> |pixels[i]| == |above|
    requires at <= |raw| && raw[at..] == Raw(filters, pixels, above) + post
    ensures RowsRead(raw, at, |above|, above, pixels)
    decreases pixels
  {
    if pixels != [] {
      var first := [filters[0]] + Filtered(filters[0], pixels[0], above);
      var rest := Raw(filters[1..], pixels[1..], pixels[0]);
      Reassociate(first, rest, post);
      RowFound(raw, at, filters[0], pixels[0], above, rest + post);
      RowsFound(raw, at + 1 + |above|, filters[1..], pixels[1..], pixels[0], post);
    }
  }

  // ── The theorems ───────────────────────────────────────────────────────────

  /**
   Decoding recovers the image from any standard file of it: any of the five filters on any
   row, the image data split over any number of IDAT chunks, other chunks in between, and
   anything after the end marker.
   */
  lemma DecodeRecovers(
    z: Zlib, width: nat, height: nat, pixels: seq<seq<Byte>>, filters: seq<nat>, chunks: seq<Chunk>, tail: seq<Byte>)
    requires Faithful(z) && width < WORD && height < WORD && Shaped(pixels, width, height)
    requires |filters| == height && Filters(filters)
    requires forall c :: c in chunks ==> Framable(c) && c.tag != IHDR && c.tag != IEND
    requires z.inflate(Data(chunks)) == Some(Raw(filters, pixels, Zeros(width)))
    ensures DecodedFile(z, File(z, [Header(width, height)] + chunks + [Chunk(IEND, [])], tail)) == Ok(pixels)
  {
    FileScans(z, width, height, chunks, tail);
    var raw := Raw(filters, pixels, Zeros(width));
    assert raw[0..] == raw + [];
    RowsFound(raw, 0, filters, pixels, Zeros(width), []);
    ReadRows(raw, 0, width, Zeros(width), pixels);
  }

  // ── What is refused ────────────────────────────────────────────────────────

  function Extent(chunks: seq<Chunk>): nat {
    if chunks == [] then 0 else 12 + |chunks[0].payload| + Extent(chunks[1..])
  }

  /** The scan goes through chunks that are none of its concern, and is then where they end. */
  lemma {:induction false} ScanPasses(
    read: Reader, body: seq<Byte>, frame: Chunk -> seq<Byte>, at: nat, chunks: seq<Chunk>, rest: seq<Byte>, s: Scanned)
    requires Understands(read, body, frame, chunks) && forall c :: c in chunks ==> c.tag != IEND
    requires Follows(body, at, Joined(frame, chunks), rest)
    ensures Scan(read, |body|, at, s) == Scan(read, |body|, at + Extent(chunks), AfterAll(chunks, s))
    ensures Follows(body, at + Extent(chunks), rest, [])
    decreases chunks
  {
    assert rest + [] == rest;
    if chunks == [] {
      assert [] + rest == rest;
    } else {
      var c, next := chunks[0], at + 12 + |chunks[0].payload|;
      assert Follows(body, at, frame(c), Joined(frame, chunks[1..]) + rest) by {
        Reassociate(frame(c), Joined(frame, chunks[1..]), rest);
      }
      assert Follows(body, next, Joined(frame, chunks[1..]), rest) by {
        assert Joined(frame, chunks[1..]) + rest + [] == Joined(frame, chunks[1..]) + rest;
      }
      assert read(at, s) == ReadAs(c, s);
      ScanPasses(read, body, frame, next, chunks[1..], rest, After(c, s));
    }
  }

  lemma OtherHeader(z: Zlib, body: seq<Byte>, at: nat, c: Chunk, post: seq<Byte>, s: Scanned)
    requires Framable(c) && Faithful(z) && c.tag == IHDR && !Grey8(c)
    requires at <= |body| && body[at..] == Frame(z, c) + post
    ensures at < |body| && ScanChunk(body, at, s) == Err(if |c.payload| < 10 then Truncated else NotGrey8)
  {
    FrameParts(z, body, at, c, post);
    Be32ReadsBack(|c.payload|);
  }

  lemma FileGoesOn(z: Zlib, chunks: seq<Chunk>, next: Chunk, tail: seq<Byte>)
    requires Framable(next) && forall c :: c in chunks ==> Framable(c)
    ensures var body := File(z, chunks + [next], tail);
      SIGNATURE <= body && Follows(body, 8, Joined(FrameOf(z), chunks), Frame(z, next) + tail)
  {
    var all, last := Frames(z, chunks), Frame(z, next);
    FramesAppend(z, chunks, [next]);
    OneFrame(z, next);
    FramesAreJoined(z, chunks);
    var body := File(z, chunks + [next], tail);
    assert body == SIGNATURE + (all + last) + tail;
    Drops(SIGNATURE, all, last, tail);
  }

  lemma Drops(a: seq<Byte>, b: seq<Byte>, c: seq<Byte>, d: seq<Byte>)
    ensures (a + (b + c) + d)[|a|..] == b + (c + d) && a <= a + (b + c) + d
  {
    assert a + (b + c) + d == a + (b + (c + d));
  }

  /** A header of another depth or colour is refused, wherever it stands before the end marker. */
  lemma OnlyGrey8(z: Zlib, chunks: seq<Chunk>, header: Chunk, tail: seq<Byte>)
    requires Faithful(z) && forall c :: c in chunks ==> Framable(c) && Grey8(c) && c.tag != IEND
    requires Framable(header) && header.tag == IHDR
    requires |header.payload| < 10 || header.payload[8] != 8 || header.payload[9] != 0
    ensures DecodedFile(z, File(z, chunks + [header], tail))
         == Err(if |header.payload| < 10 then Truncated else NotGrey8)
  {
    var body := File(z, chunks + [header], tail);
    FileGoesOn(z, chunks, header, tail);
    FramesUnderstood(z, body, chunks);
    ScanPasses(ReaderOf(body), body, FrameOf(z), 8, chunks, Frame(z, header) + tail, START);
    var at := 8 + Extent(chunks);
    assert Frame(z, header) + tail + [] == Frame(z, header) + tail;
    OtherHeader(z, body, at, header, tail, AfterAll(chunks, START));
  }

  /** Where the n-th row from `at` on begins. */
  function RowStart(at: nat, width: nat, n: nat): nat
    decreases n
  {
    if n == 0 then at else RowStart(at + 1 + width, width, n - 1)
  }

  lemma StopsHere(raw: seq<Byte>, at: nat, above: seq<Byte>, width: nat, height: nat)
    requires (|above| == width || at >= |raw|) && width > 0 && height > 0 && at < |raw| && raw[at] > 4
    ensures RowsOf(raw, at, width, height, above) == Err(UnknownFilter)
  {
    assert RowOf(raw, at, width, above) == Err(UnknownFilter);
  }

  lemma StopsLater(raw: seq<Byte>, at: nat, above: seq<Byte>, width: nat, height: nat, row: seq<Byte>, error: Error)
    requires (|above| == width || at >= |raw|) && height > 0 && RowOf(raw, at, width, above) == Ok(row)
    requires RowsOf(raw, at + 1 + width, width, height - 1, row) == Err(error)
    ensures RowsOf(raw, at, width, height, above) == Err(error)
  {
  }

  lemma FirstRead(raw: seq<Byte>, at: nat, width: nat, above: seq<Byte>, pixels: seq<seq<Byte>>)
    requires RowsRead(raw, at, width, above, pixels) && (|above| == width || at >= |raw|) && pixels != []
    ensures RowOf(raw, at, width, above) == Ok(pixels[0]) && (|pixels[0]| == width || at + 1 + width >= |raw|)
    ensures RowsRead(raw, at + 1 + width, width, pixels[0], pixels[1..])
    ensures |pixels[1..]| == |pixels| - 1
    ensures RowStart(at, width, |pixels|) == RowStart(at + 1 + width, width, |pixels[1..]|)
  {
  }

  /** A filter type beyond the five is refused, after any rows that decode. */
  lemma {:induction false} OnlyFiveFilters(
    raw: seq<Byte>, at: nat, above: seq<Byte>, width: nat, height: nat, pixels: seq<seq<Byte>>)
    requires RowsRead(raw, at, width, above, pixels) && (|above| == width || at >= |raw|)
    requires width > 0 && height > |pixels| && RowStart(at, width, |pixels|) < |raw|
    requires raw[RowStart(at, width, |pixels|)] > 4
    ensures RowsOf(raw, at, width, height, above) == Err(UnknownFilter)
    decreases pixels
  {
    if pixels == [] {
      StopsHere(raw, at, above, width, height);
    } else {
      FirstRead(raw, at, width, above, pixels);
      OnlyFiveFilters(raw, at + 1 + width, pixels[0], width, height - 1, pixels[1..]);
      StopsLater(raw, at, above, width, height, pixels[0], UnknownFilter);
    }
  }

  lemma {:induction false} ScanErrors(read: Reader, size: nat, at: nat, s: Scanned)
    requires forall i: nat, t :: read(i, t).Err? ==> read(i, t).error in {Truncated, NotGrey8}
    ensures Scan(read, size, at, s).Err? ==> Scan(read, size, at, s).error in {Truncated, NotGrey8}
    decreases size - at
  {
    if at < size && read(at, s).Ok? && read(at, s).value.0.Some? {
      ScanErrors(read, size, at + 12 + read(at, s).value.0.value, read(at, s).value.1);
    }
  }

  lemma {:induction false} RowErrors(raw: seq<Byte>, at: nat, width: nat, height: nat, above: seq<Byte>)
    requires |above| == width || at >= |raw|
    ensures var r := RowsOf(raw, at, width, height, above); r.Err? ==> r.error in {OutOfRange, UnknownFilter}
    decreases height
  {
    if height > 0 && RowOf(raw, at, width, above).Ok? {
      RowErrors(raw, at + 1 + width, width, height - 1, RowOf(raw, at, width, above).value);
    }
  }

  /** Bytes are told to be no PNG exactly when they do not begin with the signature. */
  lemma NotPngIff(z: Zlib, body: seq<Byte>)
    ensures DecodedFile(z, body) == Err(NotPng) <==> |body| < 8 || body[..8] != [137, 80, 78, 71, 13, 10, 26, 10]
  {
    assert SIGNATURE <= body <==> |body| >= 8 && body[..8] == SIGNATURE;
    if SIGNATURE <= body {
      ScanErrors(ReaderOf(body), |body|, 8, START);
      var scanned := Scan(ReaderOf(body), |body|, 8, START);
      if scanned.Ok? && z.inflate(scanned.value.data).Some? {
        RowErrors(
          z.inflate(scanned.value.data).value, 0, scanned.value.width, scanned.value.height,
          Zeros(scanned.value.width));
      }
    }
  }

  lemma FileTail(z: Zlib, chunks: seq<Chunk>, tail: seq<Byte>)
    requires forall c :: c in chunks ==> Framable(c)
    ensures Framable(Chunk(IEND, []))
    ensures var body := File(z, chunks + [Chunk(IEND, [])], tail);
      SIGNATURE <= body && body[8..] == Frames(z, chunks) + (Frame(z, Chunk(IEND, [])) + tail)
  {
    FramesAppend(z, chunks, [Chunk(IEND, [])]);
    OneFrame(z, Chunk(IEND, []));
  }

  lemma FileScans(z: Zlib, width: nat, height: nat, chunks: seq<Chunk>, tail: seq<Byte>)
    requires Faithful(z) && width < WORD && height < WORD
    requires forall c :: c in chunks ==> Framable(c) && c.tag != IHDR && c.tag != IEND
    ensures var body := File(z, [Header(width, height)] + chunks + [Chunk(IEND, [])], tail);
      SIGNATURE <= body && Scan(ReaderOf(body), |body|, 8, START) == Ok(Scanned(width, height, Data(chunks)))
  {
    var all := [Header(width, height)] + chunks;
    var body := File(z, all + [Chunk(IEND, [])], tail);
    HeaderReads(width, height, START);
    FileTail(z, all, tail);
    FramesAreListed(z, body, 8, all, tail);
    ScanFrames(ReaderOf(body), |body|, 8, all, START);
    ReadsAll(width, height, chunks);
  }

  lemma ReadsAll(width: nat, height: nat, chunks: seq<Chunk>)
    requires width < WORD && height < WORD
    requires forall c :: c in chunks ==> c.tag != IHDR
    ensures AfterAll([Header(width, height)] + chunks, START) == Scanned(width, height, Data(chunks))
  {
    HeaderReads(width, height, START);
    assert ([Header(width, height)] + chunks)[1..] == chunks;
    DataAccumulates(chunks, Scanned(width, height, []));
    assert [] + Data(chunks) == Data(chunks);
  }

  lemma {:induction false} FramesAppend(z: Zlib, a: seq<Chunk>, b: seq<Chunk>)
    requires forall c :: c in a + b ==> Framable(c)
    ensures Frames(z, a + b) == Frames(z, a) + Frames(z, b)
  {
    if a == [] {
      assert a + b == b;
    } else {
      assert (a + b)[1..] == a[1..] + b;
      FramesAppend(z, a[1..], b);
    }
  }

  lemma OneFrame(z: Zlib, c: Chunk)
    requires Framable(c)
    ensures Frames(z, [c]) == Frame(z, c)
  {
    assert Frames(z, [c]) == Frame(z, c) + Frames(z, []);
  }

  lemma HeaderReads(width: nat, height: nat, s: Scanned)
    requires width < WORD && height < WORD
    ensures Grey8(Header(width, height))
    ensures After(Header(width, height), s) == s.(width := width, height := height)
  {
    Be32ReadsBack(width);
    Be32ReadsBack(height);
    var payload := Header(width, height).payload;
    assert payload[0..4] == Be32(width) && payload[4..8] == Be32(height);
  }

  /** Every row full, but for the last, which may lack its last pixel. */
  predicate NearlyShaped(pixels: seq<seq<Byte>>, width: nat, height: nat) {
    && |pixels| == height
    && (forall i :: 0 <= i < height - 1 ==> |pixels[i]| == width)
    && (height > 0 ==> |pixels[height - 1]| == width || |pixels[height - 1]| + 1 == width)
  }

  /** What comes out of the row loop has that shape, whatever went in. */
  lemma {:induction false} RowsNearlyShaped(raw: seq<Byte>, at: nat, width: nat, height: nat, above: seq<Byte>)
    requires |above| == width || at >= |raw|
    ensures var r := RowsOf(raw, at, width, height, above); r.Ok? ==> NearlyShaped(r.value, width, height)
    decreases height
  {
    if height > 0 && RowOf(raw, at, width, above).Ok? {
      var row := RowOf(raw, at, width, above).value;
      RowsNearlyShaped(raw, at + 1 + width, width, height - 1, row);
      RowsBeyond(raw, at + 1 + width, width, height - 1, row);
      var rest := RowsOf(raw, at + 1 + width, width, height - 1, row);
      if rest.Ok? {
        MoreNearlyShaped(row, rest.value, width, height);
      }
    }
  }

  lemma RowsBeyond(raw: seq<Byte>, at: nat, width: nat, height: nat, above: seq<Byte>)
    requires |above| == width || at >= |raw|
    ensures at >= |raw| && height > 0 ==> RowsOf(raw, at, width, height, above).Err?
  {
  }

  lemma MoreNearlyShaped(row: seq<Byte>, rows: seq<seq<Byte>>, width: nat, height: nat)
    requires height > 0 && NearlyShaped(rows, width, height - 1)
    requires |row| == width || (|row| + 1 == width && height == 1)
    ensures NearlyShaped([row] + rows, width, height)
  {
  }

  lemma {:induction false} UnfilteredFront(pixels: seq<seq<Byte>>)
    requires pixels != []
    ensures Unfiltered(pixels) == [0] + pixels[0] + Unfiltered(pixels[1..])
  {
    var n := |pixels| - 1;
    if n == 0 {
      assert pixels[..0] == [] && pixels[1..] == [];
    } else {
      var head, inner, last := [0] + pixels[0], Unfiltered(pixels[..n][1..]), [0] + pixels[n];
      UnfilteredFront(pixels[..n]);
      assert pixels[..n][1..] == pixels[1..][..n - 1];
      assert Unfiltered(pixels[1..]) == inner + last;
      assert Unfiltered(pixels) == head + inner + last;
      Reassociate(head, inner, last);
    }
  }

  lemma UnfilteredRowFound(raw: seq<Byte>, at: nat, row: seq<Byte>, width: nat, above: seq<Byte>, post: seq<Byte>)
    requires |above| == width && (|row| == width || (|row| + 1 == width && post == []))
    requires at <= |raw| && raw[at..] == [0] + row + post
    ensures RowOf(raw, at, width, above) == Ok(row)
    ensures |row| == width ==> at + 1 + width <= |raw| && raw[at + 1 + width..] == post
  {
    RowParts(raw, at, 0, row, post);
  }

  lemma RestNearlyShaped(pixels: seq<seq<Byte>>, width: nat)
    requires NearlyShaped(pixels, width, |pixels|) && |pixels| > 1
    ensures |pixels[0]| == width && NearlyShaped(pixels[1..], width, |pixels[1..]|)
  {
  }

  /** What is left at `at` are rows written with filter type 0, all full but perhaps the last. */
  ghost predicate UnfilteredFrom(
    raw: seq<Byte>, at: nat, width: nat, pixels: seq<seq<Byte>>, above: seq<Byte>)
  {
    && NearlyShaped(pixels, width, |pixels|) && |above| == width
    && at <= |raw| && raw[at..] == Unfiltered(pixels)
  }

  lemma FirstRowFound(raw: seq<Byte>, at: nat, width: nat, pixels: seq<seq<Byte>>, above: seq<Byte>)
    requires UnfilteredFrom(raw, at, width, pixels, above) && pixels != []
    ensures RowOf(raw, at, width, above) == Ok(pixels[0])
    ensures |pixels| > 1 ==> UnfilteredFrom(raw, at + 1 + width, width, pixels[1..], pixels[0])
  {
    UnfilteredFront(pixels);
    if |pixels| == 1 {
      UnfilteredRowFound(raw, at, pixels[0], width, above, []);
    } else {
      RestNearlyShaped(pixels, width);
      UnfilteredRowFound(raw, at, pixels[0], width, above, Unfiltered(pixels[1..]));
    }
  }

  lemma {:induction false} UnfilteredRowsFound(
    raw: seq<Byte>, at: nat, width: nat, pixels: seq<seq<Byte>>, above: seq<Byte>)
    requires UnfilteredFrom(raw, at, width, pixels, above)
    ensures RowsRead(raw, at, width, above, pixels)
    decreases pixels
  {
    if |pixels| == 1 {
      FirstRowFound(raw, at, width, pixels, above);
    } else if pixels != [] {
      FirstRowFound(raw, at, width, pixels, above);
      UnfilteredRowsFound(raw, at + 1 + width, width, pixels[1..], pixels[0]);
    }
  }

  /**
   `decode_png` gives back what `encode_png` was handed exactly when that was 48 rows of 64
   pixels, the last of which may lack its last pixel: the decoder does not miss it.
   */
  lemma RoundTrip(z: Zlib, pixels: seq<seq<Byte>>)
    requires Faithful(z) && EncodedFile(z, pixels).Ok?
    ensures DecodedFile(z, EncodedFile(z, pixels).value) == Ok(pixels) <==> NearlyShaped(pixels, WIDTH, HEIGHT)
  {
    var raw := Unfiltered(pixels);
    var chunks := [Chunk(IDAT, z.deflate(raw))];
    FileScans(z, WIDTH, HEIGHT, chunks, []);
    assert [Header(WIDTH, HEIGHT)] + chunks + [Chunk(IEND, [])]
        == [Header(WIDTH, HEIGHT), Chunk(IDAT, z.deflate(raw)), Chunk(IEND, [])];
    OneDatum(z.deflate(raw));
    RowsNearlyShaped(raw, 0, WIDTH, HEIGHT, Zeros(WIDTH));
    if NearlyShaped(pixels, WIDTH, HEIGHT) {
      assert raw[0..] == raw;
      UnfilteredRowsFound(raw, 0, WIDTH, pixels, Zeros(WIDTH));
      ReadRows(raw, 0, WIDTH, Zeros(WIDTH), pixels);
    }
  }

  lemma OneDatum(payload: seq<Byte>)
    ensures Data([Chunk(IDAT, payload)]) == payload
  {
    assert Data([Chunk(IDAT, payload)]) == payload + Data([]);
  }
}
