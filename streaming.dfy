/** The request path of stream_routes.py: picking the least-loaded client, the
    process-wide `class_cache` of ByteStreamer objects, media_streamer, and
    stream_handler's translation of exceptions into HTTP outcomes. */
module Streaming {
  import opened Common
  import opened Text
  import opened RangePlan
  import opened Upstream
  import opened Response

  // ---------------------------------------------------------------------------
  // Client selection

  /** One entry of `work_loads`: a client index and its current number of streams. */
  datatype WorkLoad = WorkLoad(index: int, load: int)

  /** `min` over the entries in dict order: the first entry with the smallest load. */
  function ArgMin(loads: seq<WorkLoad>): (k: nat)
    requires |loads| > 0
    ensures k < |loads|
    ensures forall j :: 0 <= j < |loads| ==> loads[k].load <= loads[j].load
    ensures forall j :: 0 <= j < k ==> loads[j].load > loads[k].load
  {
    if |loads| == 1 then 0
    else
      var k := ArgMin(loads[..|loads| - 1]);
      if loads[|loads| - 1].load < loads[k].load then |loads| - 1 else k
  }

  /** The client index `min` picks: its load is minimal and every earlier entry is heavier. */
  ghost predicate IsFirstLeastLoaded(loads: seq<WorkLoad>, index: int) {
    exists k :: 0 <= k < |loads| && loads[k].index == index
      && (forall j :: 0 <= j < |loads| ==> loads[k].load <= loads[j].load)
      && (forall j :: 0 <= j < k ==> loads[j].load > loads[k].load)
  }

  /** `index = min(work_loads, key=work_loads.get)` then `multi_clients[index]`: an empty
      table raises ValueError and an index with no client raises KeyError. */
  function SelectClient(loads: seq<WorkLoad>, clients: map<int, UpstreamClient>)
    : (r: Result<(int, UpstreamClient)>)
    ensures |loads| == 0 ==> r == Err(ValueError)
    ensures r.Err? ==> r.fault == ValueError || r.fault == KeyError
    ensures r.Ok? ==> IsFirstLeastLoaded(loads, r.value.0)
    ensures r.Ok? ==> r.value.0 in clients && clients[r.value.0] == r.value.1
  {
    if |loads| == 0 then Err(ValueError)
    else
      var index := loads[ArgMin(loads)].index;
      if index in clients then Ok((index, clients[index])) else Err(KeyError)
  }

  /** Under equal loads the first client in dict order is chosen. */
  lemma EqualLoadsPickFirst(loads: seq<WorkLoad>, clients: map<int, UpstreamClient>)
    requires |loads| > 0 && loads[0].index in clients
    requires forall j :: 0 <= j < |loads| ==> loads[j].load == loads[0].load
    ensures SelectClient(loads, clients) == Ok((loads[0].index, clients[loads[0].index]))
  {
  }

  // ---------------------------------------------------------------------------
  // Handler outcome

  /** What stream_handler does with the result of media_streamer. */
  datatype HandlerReply =
    | Reply(response: HttpResponse)   // media_streamer's response is returned
    | Forbidden                       // HTTPForbidden (403)
    | NotFound(chatId: string, msgId: Option<string>, hash: Option<string>)
                                      // db.delete_file(...) with these arguments, then HTTPNotFound (404)
    | NoReply                         // the exception is swallowed and None is returned
    | ServerError                     // logged, then HTTPInternalServerError (500)

  /** The status the client sees; None when the handler returns nothing. */
  function StatusOf(h: HandlerReply): Option<int> {
    match h
    case Reply(resp) => Some(resp.status)
    case Forbidden => Some(403)
    case NotFound(_, _, _) => Some(404)
    case NoReply => None
    case ServerError => Some(500)
  }

  /** The except clauses, in order. `chatId` is the string "-100<chat_id>" and `msgId`, `hash`
      the raw query values, as the handler passes them to `delete_file`. */
  function HandleOutcome(outcome: Result<HttpResponse>, chatId: string, msgId: Option<string>,
                         hash: Option<string>): (h: HandlerReply)
    ensures h.Forbidden? <==> outcome == Err(InvalidHash)
    ensures h.NotFound? <==> outcome == Err(FileNotFound)
    ensures h.NotFound? ==> h == NotFound(chatId, msgId, hash)
    ensures StatusOf(h) == None <==> outcome.Err? && IsTransient(outcome.fault)
    ensures h.ServerError?
        <==> outcome.Err? && outcome.fault !in {InvalidHash, FileNotFound}
             && !IsTransient(outcome.fault)
    ensures outcome.Ok? ==> h == Reply(outcome.value)
  {
    match outcome
    case Ok(resp) => Reply(resp)
    case Err(f) =>
      if f == InvalidHash then Forbidden
      else if f == FileNotFound then NotFound(chatId, msgId, hash)
      else if IsTransient(f) then NoReply
      else ServerError
  }

  /** `int("-100" + x)` succeeds exactly for a run of digits x (possibly empty) and denotes
      the channel id -(100 followed by x). */
  lemma ChannelIdValue(x: string)
    ensures ParseInt("-100" + x).Some? <==> forall i :: 0 <= i < |x| ==> IsDigit(x[i])
    ensures ParseInt("-100" + x).Some?
        ==> ParseInt("-100" + x).value == -(100 * Pow10(|x|) + DigitsValue(x)) <= -100
  {
    var s := "-100" + x;
    assert s[1..] == "100" + x;
    if forall i :: 0 <= i < |x| ==> IsDigit(x[i]) {
      assert IsDigits(s[1..]);
      assert "100"[..2] == "10" && "10"[..1] == "1" && "1"[..0] == [];
      assert DigitsValue("100") == 100;
      DigitsValueAppend("100", x);
    } else {
      var i :| 0 <= i < |x| && !IsDigit(x[i]);
      assert s[1..][3 + i] == x[i];
    }
  }

  /** The argument conversions of stream_handler: `int("-100" + chat_id)` and `int(message_id)`,
      where a missing `id` parameter makes `int(None)` raise TypeError. */
  function HandlerArguments(chatIdText: string, messageId: Option<string>): (r: Result<(int, int)>)
    ensures r.Ok? <==> (forall i :: 0 <= i < |chatIdText| ==> IsDigit(chatIdText[i]))
                       && messageId.Some? && ParseInt(messageId.value).Some?
    ensures r.Ok? ==> r.value.0 == -(100 * Pow10(|chatIdText|) + DigitsValue(chatIdText)) <= -100
                      && Some(r.value.1) == ParseInt(messageId.value)
    ensures r == Err(TypeError) <==> ParseInt("-100" + chatIdText).Some? && messageId == None
    ensures r.Err? ==> r.fault in {ValueError, TypeError}
  {
    ChannelIdValue(chatIdText);
    match ParseInt("-100" + chatIdText)
    case None => Err(ValueError)
    case Some(chat) =>
      match messageId
      case None => Err(TypeError)
      case Some(m) =>
        match ParseInt(m)
        case None => Err(ValueError)
        case Some(id) => Ok((chat, id))
  }

  /** The handler reads back the ids a link was built from: the channel digits after "-100"
      and the message id. */
  lemma HandlerArgumentsOfLink(channel: nat, id: int)
    ensures HandlerArguments(ShowNat(channel), Some(IntToString(id)))
         == Ok((-(100 * Pow10(|ShowNat(channel)|) + channel), id))
  {
    DigitsValueOfShowNat(channel);
    ParseIntOfIntToString(id);
  }

  // ---------------------------------------------------------------------------
  // The whole request, as a function of the shared state

  /** What media_streamer returns once `class_cache` holds a ByteStreamer for the selected
      client: the selection error, the resolver's error, or Respond's outcome. */
  function StreamOutcome(loads: seq<WorkLoad>, clients: map<int, UpstreamClient>,
                         cache: map<UpstreamClient, ByteStreamer>, req: Request, chatId: int,
                         messageId: int, secureHash: Option<string>,
                         resolve: (int, int) -> Result<FileProperties>, token: string,
                         guessType: string -> string): (r: Result<HttpResponse>)
    requires SelectClient(loads, clients).Ok? ==> SelectClient(loads, clients).value.1 in cache
    // selection fails before the file is looked up, and resolving fails before the hash check
    ensures SelectClient(loads, clients).Err? ==> r == Err(SelectClient(loads, clients).fault)
    ensures SelectClient(loads, clients).Ok? && resolve(chatId, messageId).Err?
        ==> r == Err(resolve(chatId, messageId).fault)
    // a response is produced only for a resolved file whose hash matches
    ensures r.Ok? ==> SelectClient(loads, clients).Ok? && resolve(chatId, messageId).Ok?
                      && HashMatches(resolve(chatId, messageId).value.uniqueId, secureHash)
                      && r.value.status in {200, 206, 416}
    ensures r.Ok? && r.value.body.Stream?
        ==> r.value.body.call.streamer == cache[SelectClient(loads, clients).value.1]
            && r.value.body.call.index == SelectClient(loads, clients).value.0
  {
    match SelectClient(loads, clients)
    case Err(f) => Err(f)
    case Ok((index, client)) =>
      match resolve(chatId, messageId)
      case Err(f) => Err(f)
      case Ok(file) => Respond(cache[client], index, file, secureHash, req, token, guessType)
  }

  /** What stream_handler returns for one request. */
  function HandlerOutcome(loads: seq<WorkLoad>, clients: map<int, UpstreamClient>,
                          cache: map<UpstreamClient, ByteStreamer>, req: Request,
                          chatIdText: string, messageId: Option<string>,
                          secureHash: Option<string>,
                          resolve: (int, int) -> Result<FileProperties>, token: string,
                          guessType: string -> string): (h: HandlerReply)
    requires HandlerArguments(chatIdText, messageId).Ok? && SelectClient(loads, clients).Ok?
             ==> SelectClient(loads, clients).value.1 in cache
    // a malformed id is a 500 before any client is selected
    ensures HandlerArguments(chatIdText, messageId).Err? ==> h == ServerError
    // the only statuses a request can end in, and when it ends in none
    ensures StatusOf(h) in {None, Some(200), Some(206), Some(403), Some(404), Some(416), Some(500)}
    ensures h.Reply? ==> HandlerArguments(chatIdText, messageId).Ok?
                         && h.response.status in {200, 206, 416}
  {
    match HandlerArguments(chatIdText, messageId)
    case Err(_) => ServerError
    case Ok((chatId, id)) =>
      HandleOutcome(StreamOutcome(loads, clients, cache, req, chatId, id, secureHash, resolve,
                                  token, guessType),
                    "-100" + chatIdText, messageId, secureHash)
  }

  /** A wrong hash is answered 403 whatever the Range header holds, once a client was
      selected and the file was found; a missing file is answered 404 with the catalogue
      entry deleted, before the hash is looked at. */
  lemma HandlerOrdering(loads: seq<WorkLoad>, clients: map<int, UpstreamClient>,
                        cache: map<UpstreamClient, ByteStreamer>, req: Request,
                        chatIdText: string, messageId: Option<string>,
                        secureHash: Option<string>,
                        resolve: (int, int) -> Result<FileProperties>, token: string,
                        guessType: string -> string)
    requires SelectClient(loads, clients).Ok? && SelectClient(loads, clients).value.1 in cache
    requires HandlerArguments(chatIdText, messageId).Ok?
    ensures var (chatId, id) := HandlerArguments(chatIdText, messageId).value;
      var h := HandlerOutcome(loads, clients, cache, req, chatIdText, messageId, secureHash,
                              resolve, token, guessType);
      && (resolve(chatId, id) == Err(FileNotFound) ==>
            h == NotFound("-100" + chatIdText, messageId, secureHash))
      && (resolve(chatId, id).Ok? && !HashMatches(resolve(chatId, id).value.uniqueId, secureHash) ==>
            h == Forbidden)
  {
  }

  // ---------------------------------------------------------------------------
  // The service state

  /** The process-wide state the routes share: `work_loads` and `multi_clients` (read here,
      maintained elsewhere) and `class_cache`, one ByteStreamer per client. */
  class StreamService {
    var workLoads: seq<WorkLoad>
    var multiClients: map<int, UpstreamClient>
    var classCache: map<UpstreamClient, ByteStreamer>

    /** Every cached ByteStreamer wraps the client it is filed under. */
    ghost predicate Valid()
      reads this
    {
      forall c :: c in classCache ==> classCache[c].client == c
    }

    constructor (workLoads: seq<WorkLoad>, multiClients: map<int, UpstreamClient>)
      ensures Valid()
      ensures this.workLoads == workLoads && this.multiClients == multiClients
      ensures classCache == map[]
    {
      this.workLoads := workLoads;
      this.multiClients := multiClients;
      classCache := map[];
    }

    /** The `class_cache` lookup: reuse the cached ByteStreamer, or build one and file it. */
    method GetOrCreateStreamer(client: UpstreamClient) returns (s: ByteStreamer)
      requires Valid()
      modifies this
      ensures Valid()
      ensures s.client == client
      ensures client in old(classCache) ==> s == old(classCache)[client] && classCache == old(classCache)
      ensures client !in old(classCache) ==> fresh(s) && classCache == old(classCache)[client := s]
      ensures workLoads == old(workLoads) && multiClients == old(multiClients)
    {
      if client in classCache {
        s := classCache[client];
      } else {
        s := new ByteStreamer(client);
        classCache := classCache[client := s];
      }
    }

    /** media_streamer. `resolve` stands for `get_file_properties`; `token` for
        `secrets.token_hex(2)`; `guessType` for `mimetypes.guess_type`. */
    method MediaStreamer(req: Request, chatId: int, messageId: int, secureHash: Option<string>,
                         resolve: (int, int) -> Result<FileProperties>, token: string,
                         guessType: string -> string)
      returns (r: Result<HttpResponse>)
      requires Valid()
      modifies this
      ensures Valid()
      ensures workLoads == old(workLoads) && multiClients == old(multiClients)
      ensures forall c :: c in old(classCache) ==> c in classCache && classCache[c] == old(classCache)[c]
      ensures SelectClient(workLoads, multiClients).Err? ==> classCache == old(classCache)
      ensures SelectClient(workLoads, multiClients).Ok? ==>
                var client := SelectClient(workLoads, multiClients).value.1;
                && classCache.Keys == old(classCache).Keys + {client}
                && (client !in old(classCache) ==> fresh(classCache[client]))
      ensures r == StreamOutcome(workLoads, multiClients, classCache, req, chatId, messageId,
                                 secureHash, resolve, token, guessType)
    {
      var selected := SelectClient(workLoads, multiClients);
      if selected.Err? {
        return Err(selected.fault);
      }
      var (index, client) := selected.value;
      var streamer := GetOrCreateStreamer(client);
      var resolved := resolve(chatId, messageId);
      if resolved.Err? {
        return Err(resolved.fault);
      }
      r := Respond(streamer, index, resolved.value, secureHash, req, token, guessType);
    }

    /** stream_handler: convert the path and query values, run media_streamer, and map
        its exceptions to HTTP outcomes. */
    method StreamHandler(req: Request, chatIdText: string, messageId: Option<string>,
                         secureHash: Option<string>,
                         resolve: (int, int) -> Result<FileProperties>, token: string,
                         guessType: string -> string)
      returns (h: HandlerReply)
      requires Valid()
      modifies this
      ensures Valid()
      ensures workLoads == old(workLoads) && multiClients == old(multiClients)
      ensures forall c :: c in old(classCache) ==> c in classCache && classCache[c] == old(classCache)[c]
      ensures HandlerArguments(chatIdText, messageId).Err? ==> classCache == old(classCache)
      ensures HandlerArguments(chatIdText, messageId).Ok? && SelectClient(workLoads, multiClients).Err?
              ==> classCache == old(classCache)
      ensures HandlerArguments(chatIdText, messageId).Ok? && SelectClient(workLoads, multiClients).Ok?
              ==> var client := SelectClient(workLoads, multiClients).value.1;
                  && classCache.Keys == old(classCache).Keys + {client}
                  && (client !in old(classCache) ==> fresh(classCache[client]))
      ensures h == HandlerOutcome(workLoads, multiClients, classCache, req, chatIdText, messageId,
                                  secureHash, resolve, token, guessType)
    {
      var args := HandlerArguments(chatIdText, messageId);
      if args.Err? {
        return ServerError;
      }
      var outcome := MediaStreamer(req, args.value.0, args.value.1, secureHash, resolve, token,
                                   guessType);
      h := HandleOutcome(outcome, "-100" + chatIdText, messageId, secureHash);
    }
  }
}
