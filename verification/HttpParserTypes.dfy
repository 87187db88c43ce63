/** The parser structure of http_parser.h / http_parser.c and the callbacks it delivers. */
module HttpParserTypes {
  import opened Options

  datatype State =
    | Dead
    | StartReqOrRes | ResOrRespH
    | StartRes | ResH | ResHT | ResHTT | ResHTTP
    | ResHttpMajor | ResHttpDot | ResHttpMinor | ResHttpEnd
    | ResFirstStatusCode | ResStatusCode | ResStatusStart | ResStatus | ResLineAlmostDone
    | StartReq | ReqMethod | ReqSpacesBeforeUrl
    | ReqSchema | ReqSchemaSlash | ReqSchemaSlashSlash
    | ReqServerStart | ReqServer | ReqServerWithAt
    | ReqPath | ReqQueryStringStart | ReqQueryString | ReqFragmentStart | ReqFragment
    | ReqHttpStart | ReqHttpH | ReqHttpHT | ReqHttpHTT | ReqHttpHTTP | ReqHttpI | ReqHttpIC
    | ReqHttpMajor | ReqHttpDot | ReqHttpMinor | ReqHttpEnd | ReqLineAlmostDone
    | HeaderFieldStart | HeaderField
    | HeaderValueDiscardWs | HeaderValueDiscardWsAlmostDone | HeaderValueDiscardLws
    | HeaderValueStart | HeaderValue | HeaderValueLws | HeaderAlmostDone
    | ChunkSizeStart | ChunkSize | ChunkParameters | ChunkSizeAlmostDone
    | HeadersAlmostDone | HeadersDone
    | ChunkData | ChunkDataAlmostDone | ChunkDataDone
    | BodyIdentity | BodyIdentityEof
    | MessageDone

  datatype HState =
    | HGeneral | HC | HCO | HCON
    | HMatchingConnection | HMatchingProxyConnection | HMatchingContentLength
    | HMatchingTransferEncoding | HMatchingUpgrade
    | HConnection | HContentLength | HContentLengthNum | HContentLengthWs | HTransferEncoding | HUpgrade
    | HMatchingTeTokenStart | HMatchingTeChunked | HMatchingTeToken
    | HMatchingConnTokenStart | HMatchingConnKeepAlive | HMatchingConnClose | HMatchingConnUpgrade | HMatchingConnToken
    | HTeChunked | HConnKeepAlive | HConnClose | HConnUpgrade

  datatype Kind = Request | Response | Both

  datatype Method =
    | DELETE | GET | HEAD | POST | PUT | CONNECT | OPTIONS | TRACE
    | COPY | LOCK | MKCOL | MOVE | PROPFIND | PROPPATCH | SEARCH | UNLOCK | BIND | REBIND | UNBIND | ACL
    | REPORT | MKACTIVITY | CHECKOUT | MERGE
    | MSEARCH | NOTIFY | SUBSCRIBE | UNSUBSCRIBE
    | PATCH | PURGE | MKCALENDAR | LINK | UNLINK | SOURCE

  datatype ErrorCode =
    | CbHeadersComplete | InvalidEofState | HeaderOverflow | ClosedConnection
    | InvalidVersion | InvalidStatus | InvalidMethod | InvalidUrl | LfExpected
    | InvalidHeaderToken | InvalidContentLength | UnexpectedContentLength | InvalidChunkSize
    | InvalidConstant | Strict | InvalidTransferEncoding

  /** `http_errno`: pausing is recorded in the same field as the errors. */
  datatype Errno = OK | Paused | Err(code: ErrorCode)

  /** The eight bits of `http_parser.flags`. */
  datatype Flags = Flags(chunked: bool, keepAlive: bool, close: bool, connUpgrade: bool,
                         trailing: bool, upgrade: bool, skipBody: bool, contentLength: bool)

  const NO_FLAGS := Flags(false, false, false, false, false, false, false, false)

  /** `ULLONG_MAX`, the content length of a message that announced none. */
  const ULLONG_MAX: nat := 0xFFFF_FFFF_FFFF_FFFF

  /** The fields read from the start line. */
  datatype StartLine = StartLine(kind: Kind, verb: Method, major: nat, minor: nat, statusCode: nat)

  /** `struct http_parser` without `nread` and `http_errno`, which live beside it (Conf, HttpParser),
      and without the two option bits (Settings). */
  datatype Parser = Parser(
    state: State, hstate: HState, index: nat, flags: Flags, usesTE: bool, contentLength: nat,
    upgrade: bool, line: StartLine)

  /** `http_parser_init`. */
  function Init(kind: Kind): Parser {
    Parser(match kind case Request => StartReq case Response => StartRes case Both => StartReqOrRes,
           HGeneral, 0, NO_FLAGS, false, 0, false, StartLine(kind, DELETE, 0, 0, 0))
  }

  /** The five elements that data callbacks deliver, each with its own mark. */
  datatype Element = Url | Status | Field | Value | Body

  datatype Event =
    | Data(element: Element, bytes: string)
    | MessageBegin | HeadersComplete | MessageComplete
    | ChunkHeader(size: nat) | ChunkComplete

  /** Adds a callback to a log, joining a data piece to a directly preceding piece of the same element. */
  function Emit(log: seq<Event>, e: Event): seq<Event> {
    if e.Data? && EndsIn(log, e.element)
    then log[..|log| - 1] + [Data(e.element, log[|log| - 1].bytes + e.bytes)]
    else log + [e]
  }

  predicate EndsIn(log: seq<Event>, k: Element) {
    log != [] && log[|log| - 1].Data? && log[|log| - 1].element == k
  }

  function EmitOption(log: seq<Event>, e: Option<Event>): seq<Event> {
    match e case None => log case Some(ev) => Emit(log, ev)
  }

  /** The callbacks of a run after joining adjacent pieces of one element. */
  function Join(trace: seq<Event>): seq<Event> {
    if trace == [] then [] else Emit(Join(trace[..|trace| - 1]), trace[|trace| - 1])
  }

  lemma JoinSnoc(trace: seq<Event>, e: Event)
    ensures Join(trace + [e]) == Emit(Join(trace), e)
  {
    assert (trace + [e])[..|trace|] == trace;
  }

  /** Two pieces of one element are worth one piece. */
  lemma EmitPieces(log: seq<Event>, k: Element, a: string, b: string)
    ensures Emit(Emit(log, Data(k, a)), Data(k, b)) == Emit(log, Data(k, a + b))
    ensures EndsIn(Emit(log, Data(k, a)), k)
  {
    if EndsIn(log, k) {
      assert log[|log| - 1].bytes + a + b == log[|log| - 1].bytes + (a + b);
    }
  }

  /** An empty piece changes nothing while its element is open. */
  lemma EmitNothing(log: seq<Event>, k: Element)
    requires EndsIn(log, k)
    ensures Emit(log, Data(k, "")) == log
  {
    var l := log[|log| - 1];
    assert l.bytes + "" == l.bytes;
    assert log == log[..|log| - 1] + [l];
  }

  /** What the embedder fixes: `max_header_size`, the option bits `lenient_http_headers` and
      `allow_chunked_length`, and the answer of `on_headers_complete`, which may depend on everything
      delivered before it. */
  datatype Settings = Settings(limit: nat, lenient: bool, allowChunkedLength: bool,
                               onHeadersComplete: seq<Event> -> int)
}
