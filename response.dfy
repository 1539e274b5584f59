/** The part of media_streamer that follows the client lookup and the property
    resolution: the hash check, the range decision, the chunk plan, the content type
    and file name fallbacks, and the framing of the response. */
module Response {
  import opened Common
  import opened Text
  import opened RangePlan
  import opened Upstream

  /** The call `tg_connect.yield_file(file_id, index, offset, first_part_cut, last_part_cut,
      part_count, chunk_size)`; the generator it returns becomes the body unread. */
  datatype YieldFile = YieldFile(
    streamer: ByteStreamer,
    file: FileProperties,
    index: int,
    offset: int,
    firstPartCut: int,
    lastPartCut: int,
    partCount: int,
    chunkSize: int)

  datatype Body = Message(text: string) | Stream(call: YieldFile)

  datatype Headers =
    | RangeOnly(contentRange: string)
    | Full(contentType: string, contentRange: string, contentLength: string,
           contentDisposition: string, acceptRanges: string)

  datatype HttpResponse = HttpResponse(status: int, body: Body, headers: Headers)

  /** `file_id.unique_id[:6] == secure_hash`; a missing hash parameter never matches. */
  predicate HashMatches(uniqueId: string, secureHash: Option<string>): (b: bool)
    ensures b <==> secureHash.Some? && |secureHash.value| == Min(|uniqueId|, 6)
                   && secureHash.value == uniqueId[..|secureHash.value|]
  {
    secureHash.Some? && Prefix(uniqueId, 6) == secureHash.value
  }

  /** Exactly one hash is accepted for a file: the first six characters of its unique id. */
  lemma HashIsIdPrefix(uniqueId: string, hash: string)
    ensures HashMatches(uniqueId, Some(hash)) <==> hash == Prefix(uniqueId, 6)
  {
    if HashMatches(uniqueId, Some(hash)) {
      var p := Prefix(uniqueId, 6);
      assert |hash| == |p|;
      assert forall i :: 0 <= i < |hash| ==> hash[i] == uniqueId[i] == p[i];
    }
  }

  // ---------------------------------------------------------------------------
  // Content type and file name

  datatype Naming = Naming(contentType: string, fileName: string)

  /** The mime/file-name fallbacks. `token` stands for `secrets.token_hex(2)` and `guessType`
      for the text of `mimetypes.guess_type(name)`. */
  function ChooseNaming(mime: Option<string>, name: Option<string>, token: string,
                        guessType: string -> string): (n: Naming)
    ensures |n.fileName| > 0
  {
    if Truthy(mime) then
      if Truthy(name) then Naming(mime.value, name.value)
      else
        var pieces := Split(mime.value, '/');
        if |pieces| >= 2 then Naming(mime.value, token + "." + pieces[1])
        else Naming(mime.value, token + ".unknown")
    else if Truthy(name) then Naming(guessType(name.value), name.value)
    else Naming("application/octet-stream", token + ".unknown")
  }

  /** A present name is never replaced, and a present mime type is sent as it is. */
  lemma NamingKeepsPresentValues(mime: Option<string>, name: Option<string>, token: string,
                                 guessType: string -> string)
    ensures var n := ChooseNaming(mime, name, token, guessType);
      && (Truthy(name) ==> n.fileName == name.value)
      && (Truthy(mime) ==> n.contentType == mime.value)
      && (!Truthy(mime) && Truthy(name) ==> n.contentType == guessType(name.value))
  {
  }

  /** A mime type `type/rest` names a nameless (or empty-named) file `<token>.<s>`, where s is
      `rest` up to its next '/': `video/mp4` gives `.mp4`, `a/b/c` gives `.b`. */
  lemma NamingFromSubtype(kind: string, rest: string, name: Option<string>, token: string,
                          guessType: string -> string)
    requires '/' !in kind && !Truthy(name)
    ensures ChooseNaming(Some(kind + "/" + rest), name, token, guessType)
         == Naming(kind + "/" + rest, token + "." + Split(rest, '/')[0])
  {
    SplitAtFirst(kind, '/', rest);
  }

  /** A mime type without '/' raises IndexError on `[1]`, which falls back to `<token>.unknown`. */
  lemma NamingWithoutSlash(mime: string, name: Option<string>, token: string,
                           guessType: string -> string)
    requires mime != "" && '/' !in mime && !Truthy(name)
    ensures ChooseNaming(Some(mime), name, token, guessType) == Naming(mime, token + ".unknown")
  {
    SplitWithoutSeparator(mime, '/');
  }

  /** With neither value the response is an octet stream named `<token>.unknown`. */
  lemma NamingNeitherPresent(mime: Option<string>, name: Option<string>, token: string,
                             guessType: string -> string)
    requires !Truthy(mime) && !Truthy(name)
    ensures ChooseNaming(mime, name, token, guessType)
         == Naming("application/octet-stream", token + ".unknown")
  {
  }

  // ---------------------------------------------------------------------------
  // Framing

  // The 416 response, whose Content-Range is "bytes */" followed by the file size.
  function NotSatisfiable(fileSize: nat): (r: HttpResponse)
    ensures r.status == 416 && r.headers.RangeOnly? && r.body.Message?
    ensures |r.headers.contentRange| > 8 && r.headers.contentRange[..8] == "bytes */"
    ensures ParseInt(r.headers.contentRange[8..]) == Some(fileSize as int)
  {
    ParseIntOfIntToString(fileSize);
    var range := "bytes */" + IntToString(fileSize);
    assert range[8..] == IntToString(fileSize);
    HttpResponse(416, Message("416: Range not satisfiable"), RangeOnly(range))
  }

  /** `bytes <from>-<until>/<size>`. */
  function ContentRange(from: int, until: int, fileSize: nat): (s: string)
    ensures |s| > 6 && s[..6] == "bytes "
  {
    "bytes " + IntToString(from) + "-" + IntToString(until) + "/" + IntToString(fileSize)
  }

  /** For a non-empty window the three numbers of Content-Range read back: split the text after
      "bytes " on '/', then the first piece on '-'. */
  lemma ContentRangeReadsBack(from: nat, until: nat, fileSize: nat)
    ensures var s := ContentRange(from, until, fileSize);
      var pieces := Split(s[6..], '/');
      && |pieces| == 2
      && ParseInt(pieces[1]) == Some(fileSize as int)
      && var ends := Split(pieces[0], '-');
         |ends| == 2 && ParseInt(ends[0]) == Some(from as int) && ParseInt(ends[1]) == Some(until as int)
  {
    var a, b, c := ShowNat(from), ShowNat(until), ShowNat(fileSize);
    var s := ContentRange(from, until, fileSize);
    assert s[6..] == (a + ['-'] + b) + ['/'] + c;
    assert '/' !in a + ['-'] + b;
    SplitPair(a + ['-'] + b, '/', c);
    SplitPair(a, '-', b);
    DigitsValueOfShowNat(from);
    DigitsValueOfShowNat(until);
    DigitsValueOfShowNat(fileSize);
  }

  /** media_streamer from the hash check on (lines 227-289), once `tg_connect` and the
      file properties are known. */
  function Respond(streamer: ByteStreamer, index: int, file: FileProperties,
                   secureHash: Option<string>, req: Request, token: string,
                   guessType: string -> string): (r: Result<HttpResponse>)
    // the hash check comes before the range is read and before yield_file is called
    ensures !HashMatches(file.uniqueId, secureHash) ==> r == Err(InvalidHash)
    // the only other failure is a malformed Range header
    ensures r.Err? && r.fault != InvalidHash
        ==> r.fault == ValueError && req.rangeHeader.Some? && RequestedRange(req, file.fileSize).None?
    // 416, and only then, for a parsed range that fails the bounds test
    ensures (r.Ok? && r.value.status == 416)
        <==> (HashMatches(file.uniqueId, secureHash) && RequestedRange(req, file.fileSize).Some?
              && Unsatisfiable(RequestedRange(req, file.fileSize).value.0,
                               RequestedRange(req, file.fileSize).value.1, file.fileSize))
    ensures r.Ok? && r.value.status == 416 ==> r.value == NotSatisfiable(file.fileSize)
    // every other response streams the object: 206 with a Range header, else 200
    ensures r.Ok? && r.value.status != 416
        ==> r.value.body.Stream? && r.value.body.call.streamer == streamer
            && r.value.status == (if HasRange(req) then 206 else 200)
  {
    if !HashMatches(file.uniqueId, secureHash) then Err(InvalidHash)
    else
      match RequestedRange(req, file.fileSize)
      case None => Err(ValueError)
      case Some((from, until)) =>
        if Unsatisfiable(from, until, file.fileSize) then Ok(NotSatisfiable(file.fileSize))
        else
          var p := PlanChunks(from, until, file.fileSize);
          var body := YieldFile(streamer, file, index, p.offset, p.firstPartCut, p.lastPartCut,
                                p.partCount, ChunkSize);
          var naming := ChooseNaming(file.mimeType, file.fileName, token, guessType);
          Ok(HttpResponse(
               if HasRange(req) then 206 else 200,
               Stream(body),
               Full(naming.contentType,
                    ContentRange(from, p.until, file.fileSize),
                    IntToString(p.reqLength),
                    "attachment; filename=\"" + naming.fileName + "\"",
                    "bytes")))
  }

  /** An accepted range: the headers carry the clamped window, its length, the chosen
      content type and file name, and yield_file receives this file and the chunk plan. */
  lemma AcceptedRangeResponse(streamer: ByteStreamer, index: int, file: FileProperties,
                              secureHash: Option<string>, req: Request, token: string,
                              guessType: string -> string, from: int, until: int)
    requires HashMatches(file.uniqueId, secureHash)
    requires RequestedRange(req, file.fileSize) == Some((from, until))
    requires !Unsatisfiable(from, until, file.fileSize)
    ensures var r := Respond(streamer, index, file, secureHash, req, token, guessType);
      var p := PlanChunks(from, until, file.fileSize);
      && r.Ok? && r.value.status == (if HasRange(req) then 206 else 200) && r.value.headers.Full?
      && r.value.headers.contentRange == ContentRange(from, Min(until, file.fileSize - 1), file.fileSize)
      && ParseInt(r.value.headers.contentLength) == Some(Min(until, file.fileSize - 1) - from + 1)
      && r.value.headers.acceptRanges == "bytes"
      && (var n := ChooseNaming(file.mimeType, file.fileName, token, guessType);
          && r.value.headers.contentType == n.contentType
          && r.value.headers.contentDisposition == "attachment; filename=\"" + n.fileName + "\"")
      && r.value.body.Stream?
      && r.value.body.call.file == file && r.value.body.call.index == index
      && r.value.body.call.chunkSize == ChunkSize
      && r.value.body.call.offset == p.offset && r.value.body.call.partCount == p.partCount
      && r.value.body.call.firstPartCut == p.firstPartCut
      && r.value.body.call.lastPartCut == p.lastPartCut
  {
    ParseIntOfIntToString(Min(until, file.fileSize - 1) - from + 1);
  }

  /** `Range: bytes=a-b` inside the object: 206 for exactly bytes a..b. */
  lemma ClosedRangeResponse(streamer: ByteStreamer, index: int, file: FileProperties,
                            secureHash: Option<string>, httpRange: HttpRange, token: string,
                            guessType: string -> string, first: nat, last: nat)
    requires HashMatches(file.uniqueId, secureHash)
    requires first <= last < file.fileSize
    ensures var req := Request(Some(ClosedRangeHeader(first, last)), httpRange);
      var r := Respond(streamer, index, file, secureHash, req, token, guessType);
      && r.Ok? && r.value.status == 206
      && r.value.headers.contentRange
         == "bytes " + ShowNat(first) + "-" + ShowNat(last) + "/" + ShowNat(file.fileSize)
      && ParseInt(r.value.headers.contentLength) == Some(last - first + 1)
  {
    var req := Request(Some(ClosedRangeHeader(first, last)), httpRange);
    ClosedRangeRequest(first, last, file.fileSize, httpRange);
    InBoundsRangeResponse(streamer, index, file, secureHash, req, token, guessType, first, last);
  }

  /** A header-given window inside the object is answered 206 for exactly that window. */
  lemma InBoundsRangeResponse(streamer: ByteStreamer, index: int, file: FileProperties,
                              secureHash: Option<string>, req: Request, token: string,
                              guessType: string -> string, first: nat, last: nat)
    requires HashMatches(file.uniqueId, secureHash)
    requires first <= last < file.fileSize
    requires HasRange(req) && RequestedRange(req, file.fileSize) == Some((first as int, last as int))
    ensures var r := Respond(streamer, index, file, secureHash, req, token, guessType);
      && r.Ok? && r.value.status == 206
      && r.value.headers.contentRange
         == "bytes " + ShowNat(first) + "-" + ShowNat(last) + "/" + ShowNat(file.fileSize)
      && ParseInt(r.value.headers.contentLength) == Some(last - first + 1)
  {
    AcceptedRangeResponse(streamer, index, file, secureHash, req, token, guessType, first, last);
    ClosedContentRange(first, last, file.fileSize);
  }

  lemma ClosedRangeRequest(first: nat, last: nat, fileSize: nat, httpRange: HttpRange)
    requires first <= last < fileSize
    ensures var req := Request(Some(ClosedRangeHeader(first, last)), httpRange);
      HasRange(req) && RequestedRange(req, fileSize) == Some((first as int, last as int))
  {
    ParseClosedRange(first, last, fileSize);
  }

  lemma ClosedContentRange(first: nat, last: nat, fileSize: nat)
    requires last < fileSize
    ensures ContentRange(first, Min(last, fileSize - 1), fileSize)
         == "bytes " + ShowNat(first) + "-" + ShowNat(last) + "/" + ShowNat(fileSize)
  {
  }

  /** A `Range` header that is present but empty makes aiohttp's `http_range` raise ValueError,
      once the hash has matched. */
  lemma EmptyRangeHeaderRaises(streamer: ByteStreamer, index: int, file: FileProperties,
                               secureHash: Option<string>, httpRange: HttpRange, token: string,
                               guessType: string -> string)
    requires HashMatches(file.uniqueId, secureHash)
    ensures Respond(streamer, index, file, secureHash, Request(Some(""), httpRange), token, guessType)
         == Err(ValueError)
  {
  }

  /** No Range header: 200 for the whole object, or 416 for an empty one. */
  lemma WholeObjectResponse(streamer: ByteStreamer, index: int, file: FileProperties,
                            secureHash: Option<string>, token: string,
                            guessType: string -> string)
    requires HashMatches(file.uniqueId, secureHash)
    ensures var req := Request(None, HttpRange(None, None));
      var r := Respond(streamer, index, file, secureHash, req, token, guessType);
      && r.Ok?
      && (file.fileSize == 0 ==> r.value == NotSatisfiable(0))
      && (file.fileSize > 0 ==>
            && r.value.status == 200
            && r.value.headers.contentRange
               == "bytes 0-" + ShowNat(file.fileSize - 1) + "/" + ShowNat(file.fileSize)
            && ParseInt(r.value.headers.contentLength) == Some(file.fileSize as int))
  {
    var req := Request(None, HttpRange(None, None));
    NoRangeIsWholeObject(req, file.fileSize);
    if file.fileSize > 0 {
      AcceptedRangeResponse(streamer, index, file, secureHash, req, token, guessType,
                            0, file.fileSize - 1);
    }
  }
}
