# Range-aware media streaming: a verified model

This project models the streaming route of the bot's web server
(`bot/server/stream_routes.py`, `stream_handler` and `media_streamer`). A request
`GET /{chat_id}/{name}?id=…&hash=…` goes through these steps:

1. It picks the upstream Telegram client with the smallest entry in `work_loads`.
2. It reuses the client's `ByteStreamer` from the process-wide `class_cache`, or
   builds one and stores it there.
3. It resolves the message's file properties.
4. It checks the first six characters of the file's unique id against `hash`.
5. It reads the byte window from the `Range` header, or from aiohttp's
   `http_range` when there is no header. A window that fails the bounds test is
   answered 416 with `Content-Range: bytes */<size>`.
6. Otherwise it plans 1 MiB chunks for the ByteStreamer to fetch: the aligned
   offset, the trims on the first and last chunk, and the number of chunks. It
   then frames a 206 or 200 response.

`stream_handler` maps the exceptions: `InvalidHash` gives 403. `FIleNotFound`
deletes the catalogue entry and gives 404. `AttributeError`, `BadStatusLine` and
`ConnectionResetError` are swallowed. Any other exception gives 500.

Files:

- `common.dfy`: `Option`, Python truthiness, the exception kinds and `Result`.
- `text.dfy`: the Python string built-ins the route relies on. These are
  `str.split('-')`, `str.replace("bytes=", "")`, `s[:6]`, `int(s)` and `str(n)`.
  Each has a partner lemma: a round trip, or a characterisation.
- `range_plan.dfy`: parsing the range, the 416 test, the clamp, and the chunk
  plan with its alignment and coverage lemmas.
- `upstream.dfy`: the client identity, the `ByteStreamer` wrapper and the file
  properties.
- `response.dfy`: the hash check, the content type and file name fallbacks, and
  the framing of the response.
- `streaming.dfy`: selecting the least-loaded client, the stream handler's
  exception mapping, and the `StreamService` class. The class holds
  `work_loads`, `multi_clients` and `class_cache`, and has the get-or-create,
  `MediaStreamer` and `StreamHandler` methods.

Some behaviour of the code is easy to misread. The model follows the code:

- The 416 test is `until > file_size`, so `until == file_size` is accepted and
  then clamped to `file_size - 1`, while `until > file_size` is answered 416.
  Section 2.1 of RFC 7233 reads any last byte position at or beyond the length
  as the last byte.
- For bytes 2000000-2500000 the code keeps 402849 bytes of the last chunk.
- For `from == until == 0` the code asks for 0 chunks.
- An exception raised by `delete_file` inside the `FIleNotFound` clause escapes
  the handler, so the 404 is not sent. The model records the deletion in the
  reply and does not model such an exception.

## Model

| member | source | states |
|---|---|---|
| `Text.ShowNat` | bot/server/stream_routes.py:284-285 | `str(n)` of a non-negative integer is a non-empty run of decimal digits with no '-', 'b' or '/' |
| `Text.DigitsValueOfShowNat` | bot/server/stream_routes.py:284-285 | the digits `str(n)` writes denote `n` |
| `Text.DigitsValueAppend` | bot/server/stream_routes.py:186 | digits written after a prefix shift the prefix's value left by their count: value(p + x) = value(p) * 10^len(x) + value(x) |
| `Text.IntToString` | bot/server/stream_routes.py:284-285 | `str(n)` is non-empty and starts with '-' exactly when n is negative |
| `Text.ParseInt` | bot/server/stream_routes.py:235-236 | `int(s)` gives a value only for a non-empty string, and never a negative one for a string without '-' |
| `Text.ParseIntOfShowNat` | bot/server/stream_routes.py:235-236 | `int(str(n)) == n` for a non-negative n |
| `Text.ParseIntOfIntToString` | bot/server/stream_routes.py:284-285 | `int(str(n)) == n` for every integer, so Content-Length and Content-Range read back as the numbers sent |
| `Text.Count` | bot/server/stream_routes.py:234 | a character occurs zero times exactly when it is absent |
| `Text.Split` | bot/server/stream_routes.py:234 | `s.split(sep)` has one more piece than `s` has separators, and no piece holds the separator |
| `Text.JoinOfSplit` | bot/server/stream_routes.py:234 | joining the pieces of a split with the separator gives back the string |
| `Text.SplitWithoutSeparator` | bot/server/stream_routes.py:234 | a string without the separator splits into itself alone |
| `Text.SplitAtFirst` | bot/server/stream_routes.py:234 | splitting cuts at the first separator and continues with the rest |
| `Text.SplitPair` | bot/server/stream_routes.py:234 | `(a + "-" + b).split("-") == [a, b]` when neither side contains '-' |
| `Text.RemoveAll` | bot/server/stream_routes.py:234 | `replace(pat, "")` never lengthens the string and keeps only characters of the original |
| `Text.RemoveAllNoStart` | bot/server/stream_routes.py:234 | `replace("bytes=", "")` leaves a string without 'b' unchanged |
| `Text.RemoveAllLeading` | bot/server/stream_routes.py:234 | a leading "bytes=" is dropped before the scan goes on |
| `Text.Prefix` | bot/server/stream_routes.py:227 | `s[:6]` is a prefix of `s` of length min(len(s), 6) |
| `RangePlan.HasRange` | bot/server/stream_routes.py:233 | a Range header counts exactly when it is present and non-empty |
| `RangePlan.ParseRangeHeader` | bot/server/stream_routes.py:233-236 | a Range header that parses gives a non-negative `from`, and an `until` that is non-negative or `file_size - 1` |
| `RangePlan.RemoveUnitPrefix` | bot/server/stream_routes.py:234 | removing "bytes=" from "bytes=" followed by digits and dashes leaves the digits and dashes |
| `RangePlan.ParseClosedRange` | bot/server/stream_routes.py:234-236 | `bytes=a-b` yields from = a and until = b |
| `RangePlan.ParseOpenRange` | bot/server/stream_routes.py:236 | `bytes=a-` yields from = a and until = file_size - 1 |
| `RangePlan.SuffixRangeRejected` | bot/server/stream_routes.py:234-235 | a suffix range `bytes=-n` does not parse, because `int("")` raises |
| `RangePlan.WrongDashCountRejected` | bot/server/stream_routes.py:234 | a header without exactly one '-' after removing "bytes=" does not parse, because the two-way unpacking fails; this includes a list of ranges |
| `RangePlan.RequestedRange` | bot/server/stream_routes.py:233-239 | without a Range header a window is always found, from `http_range`. A header that is present but empty makes `http_range` raise ValueError. A parsed header window starts at a non-negative byte |
| `RangePlan.Unsatisfiable` | bot/server/stream_routes.py:241 | a window passes the test exactly when 0 <= from <= until <= file_size |
| `RangePlan.NoRangeIsWholeObject` | bot/server/stream_routes.py:237-239 | without a Range header and with the empty `http_range`, from = 0 and until = file_size - 1 |
| `RangePlan.CeilChunks` | bot/server/stream_routes.py:256 | `ceil(a / C)` is the least q with a <= q*C |
| `RangePlan.PlanChunks` | bot/server/stream_routes.py:248-255 | the clamped until is min(until, file_size - 1). The offset is C-aligned, with offset <= from < offset + C and offset + first_part_cut == from. 1 <= last_part_cut <= C. req_length is never negative, is 0 exactly when from == file_size, and runs from `from` to the clamped until |
| `RangePlan.AcceptedBounds` | bot/server/stream_routes.py:241-249 | an accepted range has 0 <= from <= until <= file_size; until == file_size is accepted and clamped to file_size - 1 |
| `RangePlan.EmptyObjectWholeRangeUnsatisfiable` | bot/server/stream_routes.py:237-241 | a request for a zero-byte object without a Range header and with an empty `http_range` yields a window, and that window fails the bounds test, so it is answered 416 |
| `RangePlan.PartCountShape` | bot/server/stream_routes.py:256-257 | part_count is the number of chunks that cover [offset, until], minus one when until is a multiple of C |
| `RangePlan.PartCountCoversIff` | bot/server/stream_routes.py:251-257 | the part_count chunks starting at offset reach byte until exactly when until mod C != 0 |
| `RangePlan.PartCountMissesBoundaryByte` | bot/server/stream_routes.py:251-257 | bytes 0-1048576 get part_count 1 and last_part_cut 1, so the last requested byte is never fetched |
| `RangePlan.CoveringPartCountIsTight` | bot/server/stream_routes.py:251-257 | with until // C - offset // C + 1 chunks the window is tight around [from, until]. The last chunk keeps exactly last_part_cut bytes, and the trimmed chunks add up to req_length |
| `RangePlan.WorkedExample` | bot/server/stream_routes.py:248-257 | for from = 2000000 and until = 2500000: offset 1048576, first_part_cut 951424, last_part_cut 402849, req_length 500001, part_count 2 |
| `RangePlan.BoundaryExamples` | bot/server/stream_routes.py:248-257 | the plans for the whole 10000000-byte object, for its last byte alone and for its first byte alone (0 parts) |
| `RangePlan.EmptyWindowAtEnd` | bot/server/stream_routes.py:241-255 | from == until == file_size passes the test and yields req_length 0 with until = file_size - 1 |
| `Response.HashMatches` | bot/server/stream_routes.py:227 | the hash matches exactly when it is given, has length min(len(unique_id), 6), and equals that many leading characters of the unique id |
| `Response.HashIsIdPrefix` | bot/server/stream_routes.py:227 | exactly one hash is accepted for a file: `unique_id[:6]` |
| `Response.NotSatisfiable` | bot/server/stream_routes.py:242-246 | the 416 response carries `Content-Range: bytes */` followed by text that reads back as the file size |
| `Response.ContentRange` | bot/server/stream_routes.py:284 | Content-Range starts with "bytes " |
| `Response.ContentRangeReadsBack` | bot/server/stream_routes.py:284 | after "bytes ", Content-Range splits on '/' into two pieces and the first on '-' into two, and these read back as from, until and the file size |
| `Response.ChooseNaming` | bot/server/stream_routes.py:262-277 | the file name sent in Content-Disposition is never empty |
| `Response.NamingKeepsPresentValues` | bot/server/stream_routes.py:266-274 | a present name is never replaced. A present mime type is sent as it is. With a name but no mime type, the type is the text of guess_type(name) |
| `Response.NamingFromSubtype` | bot/server/stream_routes.py:266-269 | with mime `type/rest` and no name or an empty one, the name is `<token>.<s>`, where s is `rest` up to its next '/' (`a/b/c` gives `.b`) |
| `Response.NamingWithoutSlash` | bot/server/stream_routes.py:268-271 | with a mime type that has no '/' and no name, the name is `<token>.unknown` |
| `Response.NamingNeitherPresent` | bot/server/stream_routes.py:275-277 | with neither value, the type is application/octet-stream and the name is `<token>.unknown` |
| `Response.Respond` | bot/server/stream_routes.py:227-289 | a hash mismatch gives InvalidHash before the range is read or yield_file is called. The only other error is ValueError from a Range header that is sent but cannot be read, whether malformed or empty. 416, carrying `bytes */size`, comes exactly for a parsed range that fails the bounds test. Every other response streams from this ByteStreamer, with status 206 exactly when a Range header was sent and 200 otherwise |
| `Response.AcceptedRangeResponse` | bot/server/stream_routes.py:248-289 | for an accepted range, Content-Range carries from, the clamped until and the size. Content-Length reads back as the clamped length. Accept-Ranges is bytes. Content-Type and the `attachment; filename="…"` disposition come from the chosen naming. yield_file receives this file, the client index, the 1 MiB chunk size and the chunk plan |
| `Response.EmptyRangeHeaderRaises` | bot/server/stream_routes.py:233-238 | a present but empty `Range` header, after a matching hash, gives ValueError from `http_range` |
| `Response.InBoundsRangeResponse` | bot/server/stream_routes.py:233-289 | a header window first <= last < size gives 206, `Content-Range: bytes first-last/size` and Content-Length last - first + 1 |
| `Response.ClosedRangeResponse` | bot/server/stream_routes.py:233-289 | `Range: bytes=a-b` with a <= b < size gives 206, `Content-Range: bytes a-b/size` and Content-Length b - a + 1 |
| `Response.WholeObjectResponse` | bot/server/stream_routes.py:237-289 | without a Range header, the response is 200 with `bytes 0-(size-1)/size` and Content-Length size, or 416 for an empty object |
| `Streaming.ArgMin` | bot/server/stream_routes.py:210 | `min(work_loads, key=work_loads.get)` picks an entry whose load is minimal, with every earlier entry strictly heavier |
| `Streaming.SelectClient` | bot/server/stream_routes.py:210-211 | the selected index is the first least-loaded one and maps to the returned client. An empty table raises ValueError and a missing client raises KeyError |
| `Streaming.EqualLoadsPickFirst` | bot/server/stream_routes.py:210 | under equal loads the first client in dict order is chosen |
| `Streaming.HandleOutcome` | bot/server/stream_routes.py:192-201 | InvalidHash gives 403, and nothing else does. FIleNotFound, and nothing else, deletes the catalogue entry for ("-100" + chat_id, id, hash) and gives 404. The transient trio, and nothing else, gives no response. Every other exception gives 500, and a response passes through |
| `Streaming.ChannelIdValue` | bot/server/stream_routes.py:187-191 | `int("-100" + x)` succeeds exactly when x is a run of digits, possibly empty, and is then -(100 followed by x), at most -100 |
| `Streaming.HandlerArguments` | bot/server/stream_routes.py:186-191 | the conversion succeeds exactly when chat_id is a (possibly empty) run of digits and id is present and parses. The chat id is then -(100 followed by chat_id's digits), at most -100, and the message id is int(id). A missing id gives TypeError, and only after chat_id converted; every other failure is ValueError |
| `Streaming.HandlerArgumentsOfLink` | bot/server/stream_routes.py:186-191 | the ids a link is built from read back: chat_id `str(c)` and id `str(m)` give the channel -(100 followed by c) and the message m |
| `Streaming.HandlerOrdering` | bot/server/stream_routes.py:184-229 | a missing file gives 404 with the deletion, whatever the hash. A found file with a wrong hash gives 403, whatever the Range header |
| `Streaming.StreamOutcome` | bot/server/stream_routes.py:207-289 | a selection error is returned before the file is looked up, and a resolver error before the hash check. A response is produced only for a selected client and a resolved file whose hash matches; its status is 200, 206 or 416, and a stream reads from the selected client's cached ByteStreamer with the selected index |
| `Streaming.HandlerOutcome` | bot/server/stream_routes.py:183-201 | a bad chat id or message id gives 500. A request ends in 200, 206, 403, 404, 416 or 500, or in no response, and a passed-through response is 200, 206 or 416 |
| `Streaming.StreamService.constructor` | bot/server/stream_routes.py:204 | the cache starts empty |
| `Streaming.StreamService.GetOrCreateStreamer` | bot/server/stream_routes.py:216-222 | a cached ByteStreamer is reused and the cache is unchanged. Otherwise a fresh one wrapping the client is stored under it and nothing else changes |
| `Streaming.StreamService.MediaStreamer` | bot/server/stream_routes.py:207-289 | work_loads and multi_clients are unchanged and every earlier cache entry is kept. The cache gains only the selected client, with a fresh ByteStreamer if it was absent. The result is the selection error, the resolver's error, or Respond for the cached ByteStreamer |
| `Streaming.StreamService.StreamHandler` | bot/server/stream_routes.py:183-201 | work_loads and multi_clients are unchanged and every earlier cache entry is kept. A bad chat id or message id gives 500 and leaves the cache as it was, and so does a selection error. Otherwise the cache gains only the selected client, with a fresh ByteStreamer if it was absent. The reply is HandlerOutcome of the state after the call |

## Findings

| source | as written | input that shows it | evidently intended | confidence | as-written member | corrected member |
|---|---|---|---|---|---|---|
| bot/server/stream_routes.py:256-257 | `part_count = ceil(until / C) - floor(offset / C)` | `Range: bytes=0-1048576` on a 1048577-byte file: part_count is 1 and last_part_cut is 1. Byte 1048576 sits in the second chunk, which is never requested, while Content-Length says 1048577 | `until // C - offset // C + 1` chunks, the ones that cover [from, until] | high; not executed | `RangePlan.PartCountMissesBoundaryByte`, `RangePlan.PartCountCoversIff` | `RangePlan.CoveringPartCountIsTight` |

The request model still passes the source's count to `yield_file`, because that
is what the route sends. `RangePlan.CoveringPartCount` is the corrected count,
and `RangePlan.CoveringPartCountIsTight` proves that it covers the window and
that the trimmed chunks add up to Content-Length.

## Left out

- `ByteStreamer.get_file_properties` is a function parameter, `resolve`. It
  returns the file properties or one of the exceptions.
- `ByteStreamer.yield_file` and chunk fetching are not modelled. The body
  records the arguments of the `yield_file` call.
- `db.delete_file` is only recorded as the arguments in the 404 reply. An
  exception it raises is not modelled.
- `secrets.token_hex(2)` is a `token` parameter.
- `mimetypes.guess_type` is an uninterpreted `guessType` parameter. It gives the
  text of the tuple that the route puts into Content-Type.
- aiohttp's `request.http_range` is an input for a request without a `Range`
  header. The model does not compute it from the header. For a header that is
  present but empty, the model has `RangePlan.RequestedRange` raise aiohttp's
  ValueError, answered 500.
- `Text.ParseInt` accepts only an optional sign followed by ASCII digits. It does
  not model the whitespace, underscores and non-ASCII digits that Python's `int()`
  also accepts.
- `RangePlan.CeilChunks` is exact integer ceiling. The source's float division
  agrees with it below 2^53.
- Logging, including the `Telegram.MULTI_CLIENT` message, is not modelled.
- The `text=` bodies of the 403, 404 and 500 responses are not modelled.
- HEAD handling, which is aiohttp's job, is not modelled.
- Concurrency is not modelled. Two requests interleaving at the `await` points
  could race on `class_cache`; each call here runs alone.
- The workload counters are not modelled. They change outside this file.
- Exceptions raised while constructing a `ByteStreamer` are not modelled.
- The login, logout, HTML page, database search and thumbnail routes are not part
  of this model. Neither is `stream_handler_watch`.
