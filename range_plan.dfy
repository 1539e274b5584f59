/** Byte-range handling of media_streamer: reading the requested window from the
    `Range` header (or from aiohttp's parsed `http_range`), the 416 decision, the
    clamp to the last byte, and the 1 MiB chunk plan handed to `yield_file`. */
module RangePlan {
  import opened Common
  import opened Text

  /** The fetch unit: 1024 * 1024 bytes. */
  const ChunkSize: int := 1048576

  /** aiohttp's `request.http_range`, a slice whose bounds may be None. */
  datatype HttpRange = HttpRange(start: Option<int>, stop: Option<int>)

  /** What media_streamer reads of the request: the raw `Range` header, if sent, and the slice
      aiohttp parses from it as `http_range` (used only when there is no usable header). */
  datatype Request = Request(rangeHeader: Option<string>, httpRange: HttpRange)

  /** `if range_header:` — a header that is absent or empty takes the `http_range` branch. */
  predicate HasRange(req: Request): (b: bool)
    ensures b <==> req.rangeHeader.Some? && |req.rangeHeader.value| > 0
  {
    Truthy(req.rangeHeader)
  }

  // ---------------------------------------------------------------------------
  // Reading the requested window

  /** The `bytes=first-last` branch: drop every "bytes=", split on '-', require exactly two
      pieces, `int()` the first and, unless empty, the second; None where Python raises. */
  function ParseRangeHeader(header: string, fileSize: nat): (r: Option<(int, int)>)
    ensures r.Some? ==> r.value.0 >= 0
    ensures r.Some? ==> r.value.1 >= 0 || r.value.1 == fileSize - 1
  {
    var parts := Split(RemoveAll(header, "bytes="), '-');
    if |parts| != 2 then None
    else
      match ParseInt(parts[0])
      case None => None
      case Some(from) =>
        if parts[1] == "" then Some((from, fileSize - 1))
        else
          match ParseInt(parts[1])
          case None => None
          case Some(until) => Some((from, until))
  }

  /** The requested (from, until) before validation; None where a ValueError is raised: by the
      header parse, or by aiohttp's `http_range` for a header that is present but empty, which
      does not match its `bytes=(\d*)-(\d*)` pattern. */
  function RequestedRange(req: Request, fileSize: nat): (r: Option<(int, int)>)
    ensures req.rangeHeader.None? ==> r.Some?
    ensures req.rangeHeader == Some("") ==> r.None?
    ensures HasRange(req) && r.Some? ==> r.value.0 >= 0
  {
    if HasRange(req) then ParseRangeHeader(req.rangeHeader.value, fileSize)
    else if req.rangeHeader.Some? then None
    else
      // `request.http_range.start or 0` and `(request.http_range.stop or file_size) - 1`
      var from := if req.httpRange.start.Some? then req.httpRange.start.value else 0;
      var stop := if req.httpRange.stop.Some? && req.httpRange.stop.value != 0
                  then req.httpRange.stop.value else fileSize;
      Some((from, stop - 1))
  }

  /** The header text a client sends for `bytes=first-last`. */
  function ClosedRangeHeader(first: nat, last: nat): string {
    "bytes=" + ShowNat(first) + "-" + ShowNat(last)
  }

  /** The header text a client sends for `bytes=first-`. */
  function OpenRangeHeader(first: nat): string {
    "bytes=" + ShowNat(first) + "-"
  }

  lemma RemoveUnitPrefix(rest: string)
    requires 'b' !in rest
    ensures RemoveAll("bytes=" + rest, "bytes=") == rest
  {
    RemoveAllLeading("bytes=", rest);
    RemoveAllNoStart(rest, "bytes=");
  }

  /** `bytes=a-b` yields from = a and until = b. */
  lemma ParseClosedRange(first: nat, last: nat, fileSize: nat)
    ensures ParseRangeHeader(ClosedRangeHeader(first, last), fileSize) == Some((first, last))
  {
    var a, b := ShowNat(first), ShowNat(last);
    assert ClosedRangeHeader(first, last) == "bytes=" + (a + ['-'] + b);
    RemoveUnitPrefix(a + ['-'] + b);
    SplitPair(a, '-', b);
    ParseIntOfShowNat(first);
    ParseIntOfShowNat(last);
    assert b != "";
  }

  /** `bytes=a-` yields from = a and until = file_size - 1. */
  lemma ParseOpenRange(first: nat, fileSize: nat)
    ensures ParseRangeHeader(OpenRangeHeader(first), fileSize) == Some((first, fileSize - 1))
  {
    var a := ShowNat(first);
    assert OpenRangeHeader(first) == "bytes=" + (a + ['-'] + "");
    RemoveUnitPrefix(a + ['-'] + "");
    SplitPair(a, '-', "");
    ParseIntOfShowNat(first);
  }

  /** A suffix range `bytes=-n` has an empty first piece, which `int()` rejects. */
  lemma SuffixRangeRejected(n: nat, fileSize: nat)
    ensures ParseRangeHeader("bytes=-" + ShowNat(n), fileSize) == None
  {
    var b := ShowNat(n);
    assert "bytes=-" + b == "bytes=" + ("" + ['-'] + b);
    RemoveUnitPrefix("" + ['-'] + b);
    SplitPair("", '-', b);
  }

  /** Anything but exactly one '-' after removing "bytes=" (a multi-range list such as
      `bytes=0-1,4-5`, or no dash at all) fails the two-way unpacking. */
  lemma WrongDashCountRejected(header: string, fileSize: nat)
    requires Count(RemoveAll(header, "bytes="), '-') != 1
    ensures ParseRangeHeader(header, fileSize) == None
  {
  }

  /** Without a Range header aiohttp's `http_range` is an empty slice: the whole object. */
  lemma NoRangeIsWholeObject(req: Request, fileSize: nat)
    requires req.rangeHeader.None? && req.httpRange == HttpRange(None, None)
    ensures RequestedRange(req, fileSize) == Some((0, fileSize - 1))
  {
  }

  // ---------------------------------------------------------------------------
  // Validation and the chunk plan

  /** The 416 test exactly as written: `until > file_size`, not `>=`. */
  predicate Unsatisfiable(from: int, until: int, fileSize: nat): (b: bool)
    ensures !b <==> 0 <= from <= until <= fileSize
  {
    until > fileSize || from < 0 || until < from
  }

  /** `math.ceil(a / ChunkSize)`, exact integer ceiling (the float quotient is exact below 2^53). */
  function CeilChunks(a: int): (q: int)
    ensures (q - 1) * ChunkSize < a <= q * ChunkSize
  {
    -((-a) / ChunkSize)
  }

  /** The values media_streamer computes for an accepted range. */
  datatype Plan = Plan(
    from: int,          // first byte sent
    until: int,         // last byte sent, after the clamp
    offset: int,        // where the first fetched chunk starts
    firstPartCut: int,  // bytes dropped from the front of the first chunk
    lastPartCut: int,   // bytes kept from the front of the last chunk
    reqLength: int,     // Content-Length
    partCount: int)     // chunks requested from yield_file

  function PlanChunks(from: int, until: int, fileSize: nat): (p: Plan)
    requires !Unsatisfiable(from, until, fileSize)
    ensures p.from == from && p.until == Min(until, fileSize - 1)
    ensures p.offset % ChunkSize == 0 && p.offset <= from < p.offset + ChunkSize
    ensures p.offset + p.firstPartCut == from && 0 <= p.firstPartCut < ChunkSize
    ensures 1 <= p.lastPartCut <= ChunkSize
    ensures p.reqLength >= 0 && (p.reqLength == 0 <==> from == fileSize)
    ensures p.from + p.reqLength == p.until + 1
  {
    var until' := Min(until, fileSize - 1);
    var offset := from - from % ChunkSize;
    Plan(from, until', offset,
         from - offset,
         until' % ChunkSize + 1,
         until' - from + 1,
         CeilChunks(until') - offset / ChunkSize)
  }

  /** Ranges that pass the 416 test lie inside [0, file_size]; until = file_size is accepted. */
  lemma AcceptedBounds(from: int, until: int, fileSize: nat)
    requires !Unsatisfiable(from, until, fileSize)
    ensures 0 <= from <= until <= fileSize
    ensures !Unsatisfiable(from, fileSize, fileSize) && PlanChunks(from, fileSize, fileSize).until == fileSize - 1
  {
  }

  /** A zero-byte object requested without a Range header gets the window (0, -1),
      which fails the bounds test. */
  lemma EmptyObjectWholeRangeUnsatisfiable(req: Request)
    requires req.rangeHeader.None? && req.httpRange == HttpRange(None, None)
    ensures var w := RequestedRange(req, 0);
      w.Some? && Unsatisfiable(w.value.0, w.value.1, 0)
  {
    NoRangeIsWholeObject(req, 0);
  }

  /** part_count is ceil(until / C) - offset / C: the chunks covering [offset, until], minus
      one when until falls on a chunk boundary. */
  lemma PartCountShape(from: int, until: int, fileSize: nat)
    requires !Unsatisfiable(from, until, fileSize)
    ensures var p := PlanChunks(from, until, fileSize);
      p.partCount == p.until / ChunkSize - p.offset / ChunkSize
                     + (if p.until % ChunkSize == 0 then 0 else 1)
  {
    var p := PlanChunks(from, until, fileSize);
    var q, r := p.until / ChunkSize, p.until % ChunkSize;
    assert p.until == q * ChunkSize + r;
    var c := CeilChunks(p.until);
    if r == 0 {
      assert c == q;
    } else {
      assert c == q + 1;
    }
  }

  /** The part_count chunks fetched from offset reach the last byte exactly when that byte
      is not the first byte of a chunk. */
  lemma {:induction false} PartCountCoversIff(from: int, until: int, fileSize: nat)
    requires !Unsatisfiable(from, until, fileSize)
    ensures var p := PlanChunks(from, until, fileSize);
      p.until < p.offset + p.partCount * ChunkSize <==> p.until % ChunkSize != 0
  {
    var p := PlanChunks(from, until, fileSize);
    PartCountShape(from, until, fileSize);
    var q, r := p.until / ChunkSize, p.until % ChunkSize;
    var k := p.offset / ChunkSize;
    assert p.offset == k * ChunkSize;
    assert p.until == q * ChunkSize + r;
    if r == 0 {
      assert p.offset + p.partCount * ChunkSize == q * ChunkSize;
    } else {
      assert p.offset + p.partCount * ChunkSize == q * ChunkSize + ChunkSize;
    }
  }

  /** A one-chunk-boundary request, bytes 0 through 1048576: part_count is 1, so byte 1048576,
      which lies in the second chunk, is never fetched. */
  lemma PartCountMissesBoundaryByte()
    ensures var p := PlanChunks(0, ChunkSize, ChunkSize + 1);
      p.reqLength == ChunkSize + 1 && p.partCount == 1 && p.lastPartCut == 1
      && !(p.until < p.offset + p.partCount * ChunkSize)
  {
  }

  /** The number of chunks whose bytes intersect [from, until]. */
  function CoveringPartCount(p: Plan): int {
    p.until / ChunkSize - p.offset / ChunkSize + 1
  }

  /** Bytes a producer emits when it fetches n chunks, drops firstCut bytes of the first and
      keeps lastCut bytes of the last (both trims on a single chunk). */
  function TrimmedLength(firstCut: int, lastCut: int, n: int): int {
    if n <= 0 then 0
    else if n == 1 then lastCut - firstCut
    else (ChunkSize - firstCut) + (n - 2) * ChunkSize + lastCut
  }

  /** With the covering count the chunk window is tight around [from, until], the last
      chunk keeps exactly last_part_cut bytes, and the trimmed chunks add up to Content-Length. */
  lemma {:induction false} CoveringPartCountIsTight(from: int, until: int, fileSize: nat)
    requires !Unsatisfiable(from, until, fileSize)
    requires from < fileSize
    ensures var p := PlanChunks(from, until, fileSize);
      var n := CoveringPartCount(p);
      && n >= 1
      && p.offset + (n - 1) * ChunkSize <= p.until < p.offset + n * ChunkSize
      && p.lastPartCut == p.until - (p.offset + (n - 1) * ChunkSize) + 1
      && TrimmedLength(p.firstPartCut, p.lastPartCut, n) == p.reqLength
  {
    var p := PlanChunks(from, until, fileSize);
    var n := CoveringPartCount(p);
    var q, r := p.until / ChunkSize, p.until % ChunkSize;
    var k := p.offset / ChunkSize;
    assert p.offset == k * ChunkSize;
    assert p.until == q * ChunkSize + r;
    assert p.until >= from;
    assert q >= k;
    assert p.offset + (n - 1) * ChunkSize == q * ChunkSize;
    if n > 1 {
      assert (n - 2) * ChunkSize == (q - k - 1) * ChunkSize;
    }
  }

  /** The worked example: bytes 2000000-2500000 of a 10000000-byte object. */
  lemma WorkedExample()
    ensures !Unsatisfiable(2000000, 2500000, 10000000)
    ensures PlanChunks(2000000, 2500000, 10000000)
         == Plan(2000000, 2500000, 1048576, 951424, 402849, 500001, 2)
  {
  }

  /** The whole object, the last byte alone, and the first byte alone. */
  lemma BoundaryExamples()
    ensures PlanChunks(0, 9999999, 10000000) == Plan(0, 9999999, 0, 0, 562816, 10000000, 10)
    ensures PlanChunks(9999999, 9999999, 10000000)
         == Plan(9999999, 9999999, 9437184, 562815, 562816, 1, 1)
    ensures PlanChunks(0, 0, 10000000) == Plan(0, 0, 0, 0, 1, 1, 0)
  {
  }

  /** `from == file_size` passes the `>` test and yields an empty window (until = from - 1). */
  lemma EmptyWindowAtEnd(fileSize: nat)
    ensures !Unsatisfiable(fileSize, fileSize, fileSize)
    ensures var p := PlanChunks(fileSize, fileSize, fileSize);
      p.reqLength == 0 && p.until == fileSize - 1
  {
  }
}
