/** The switch of http_parser_execute, one arm per state, for one input byte. Data callbacks are
    reported byte by byte here; marks and the buffer loops are in HttpParserExecute. */
module HttpParserArms {
  import opened Options
  import opened HttpBytes
  import opened HttpParserTypes

  /** How an arm leaves the switch: `break`, `REEXECUTE()`, the upgrade `RETURN`, `goto error`, or a
      failed C `assert`. */
  datatype Outcome =
    | Consume(p: Parser, event: Option<Event>)
    | Again(p: Parser, event: Option<Event>)
    | Upgraded(p: Parser, event: Option<Event>)
    | Error(errno: ErrorCode)
    | AssertFails

  function Goto(p: Parser, s: State): Outcome {
    Consume(p.(state := s), None)
  }

  function Expect(p: Parser, ch: char, want: char, e: ErrorCode, s: State): Outcome {
    if ch == want then Goto(p, s) else Error(e)
  }

  // ---------- helpers shared by several arms ----------

  predicate MessageNeedsEof(p: Parser) {
    if p.line.kind == Request then false
    else if p.line.statusCode / 100 == 1 || p.line.statusCode == 204 || p.line.statusCode == 304 ||
        p.flags.skipBody then false
    else if p.usesTE && !p.flags.chunked then true
    else if p.flags.chunked || p.contentLength != ULLONG_MAX then false
    else true
  }

  predicate ShouldKeepAlive(p: Parser) {
    (if p.line.major > 0 && p.line.minor > 0 then !p.flags.close else p.flags.keepAlive) && !MessageNeedsEof(p)
  }

  /** `NEW_MESSAGE()` of the strict build. */
  function NewMessage(p: Parser): State {
    if !ShouldKeepAlive(p) then Dead else if p.line.kind == Request then StartReq else StartRes
  }

  function BeginMessage(p: Parser): Parser {
    p.(flags := NO_FLAGS, usesTE := false, contentLength := ULLONG_MAX)
  }

  function MethodString(m: Method): (r: string)
    ensures 3 <= |r| <= 11
  {
    match m
    case DELETE => "DELETE" case GET => "GET" case HEAD => "HEAD" case POST => "POST" case PUT => "PUT"
    case CONNECT => "CONNECT" case OPTIONS => "OPTIONS" case TRACE => "TRACE"
    case COPY => "COPY" case LOCK => "LOCK" case MKCOL => "MKCOL" case MOVE => "MOVE"
    case PROPFIND => "PROPFIND" case PROPPATCH => "PROPPATCH" case SEARCH => "SEARCH" case UNLOCK => "UNLOCK"
    case BIND => "BIND" case REBIND => "REBIND" case UNBIND => "UNBIND" case ACL => "ACL"
    case REPORT => "REPORT" case MKACTIVITY => "MKACTIVITY" case CHECKOUT => "CHECKOUT" case MERGE => "MERGE"
    case MSEARCH => "M-SEARCH" case NOTIFY => "NOTIFY" case SUBSCRIBE => "SUBSCRIBE" case UNSUBSCRIBE => "UNSUBSCRIBE"
    case PATCH => "PATCH" case PURGE => "PURGE" case MKCALENDAR => "MKCALENDAR"
    case LINK => "LINK" case UNLINK => "UNLINK" case SOURCE => "SOURCE"
  }

  function FirstMethod(ch: char): Option<Method> {
    if ch == 'A' then Some(ACL)
    else if ch == 'B' then Some(BIND)
    else if ch == 'C' then Some(CONNECT)
    else if ch == 'D' then Some(DELETE)
    else if ch == 'G' then Some(GET)
    else if ch == 'H' then Some(HEAD)
    else if ch == 'L' then Some(LOCK)
    else if ch == 'M' then Some(MKCOL)
    else if ch == 'N' then Some(NOTIFY)
    else if ch == 'O' then Some(OPTIONS)
    else if ch == 'P' then Some(POST)
    else if ch == 'R' then Some(REPORT)
    else if ch == 'S' then Some(SUBSCRIBE)
    else if ch == 'T' then Some(TRACE)
    else if ch == 'U' then Some(UNLOCK)
    else None
  }

  /** The correction table: the guess so far, the position, and the byte that contradicts it. */
  function CorrectedMethod(m: Method, pos: nat, ch: char): Option<Method> {
    if m == POST && pos == 1 && ch == 'U' then Some(PUT)
    else if m == POST && pos == 1 && ch == 'A' then Some(PATCH)
    else if m == POST && pos == 1 && ch == 'R' then Some(PROPFIND)
    else if m == PUT && pos == 2 && ch == 'R' then Some(PURGE)
    else if m == CONNECT && pos == 1 && ch == 'H' then Some(CHECKOUT)
    else if m == CONNECT && pos == 2 && ch == 'P' then Some(COPY)
    else if m == MKCOL && pos == 1 && ch == 'O' then Some(MOVE)
    else if m == MKCOL && pos == 1 && ch == 'E' then Some(MERGE)
    else if m == MKCOL && pos == 1 && ch == '-' then Some(MSEARCH)
    else if m == MKCOL && pos == 2 && ch == 'A' then Some(MKACTIVITY)
    else if m == MKCOL && pos == 3 && ch == 'A' then Some(MKCALENDAR)
    else if m == SUBSCRIBE && pos == 1 && ch == 'E' then Some(SEARCH)
    else if m == SUBSCRIBE && pos == 1 && ch == 'O' then Some(SOURCE)
    else if m == REPORT && pos == 2 && ch == 'B' then Some(REBIND)
    else if m == PROPFIND && pos == 4 && ch == 'P' then Some(PROPPATCH)
    else if m == LOCK && pos == 1 && ch == 'I' then Some(LINK)
    else if m == UNLOCK && pos == 2 && ch == 'S' then Some(UNSUBSCRIBE)
    else if m == UNLOCK && pos == 2 && ch == 'B' then Some(UNBIND)
    else if m == UNLOCK && pos == 3 && ch == 'I' then Some(UNLINK)
    else None
  }

  // ---------- start of a message ----------

  function DeadArm(p: Parser, ch: char): Outcome {
    if ch == CR || ch == LF then Consume(p, None) else Error(ClosedConnection)
  }

  function StartReqOrResArm(p: Parser, ch: char): Outcome {
    if ch == CR || ch == LF then Consume(p, None)
    else if ch == 'H' then Consume(BeginMessage(p).(state := ResOrRespH), Some(MessageBegin))
    else Again(BeginMessage(p).(line := p.line.(kind := Request), state := StartReq), None)
  }

  function ResOrRespHArm(p: Parser, ch: char): Outcome {
    if ch == 'T' then Goto(p.(line := p.line.(kind := Response)), ResHT)
    else if ch != 'E' then Error(InvalidConstant)
    else Goto(p.(line := p.line.(kind := Request, verb := HEAD), index := 2), ReqMethod)
  }

  function StartResArm(p: Parser, ch: char): Outcome {
    if ch == CR || ch == LF then Consume(p, None)
    else if ch == 'H' then Consume(BeginMessage(p).(state := ResH), Some(MessageBegin))
    else Error(InvalidConstant)
  }

  function StartReqArm(p: Parser, ch: char): Outcome {
    if ch == CR || ch == LF then Consume(p, None)
    else if !IsAlpha(ch) then Error(InvalidMethod)
    else match FirstMethod(ch)
      case None => Error(InvalidMethod)
      case Some(m) => Consume(BeginMessage(p).(line := p.line.(verb := m), index := 1, state := ReqMethod),
          Some(MessageBegin))
  }

  function ReqMethodArm(p: Parser, ch: char): Outcome {
    var matcher := MethodString(p.line.verb);
    if ch == NUL then Error(InvalidMethod)
    else if p.index > |matcher| then AssertFails // a read past the terminating NUL
    else if ch == ' ' && p.index == |matcher| then Goto(p.(index := p.index + 1), ReqSpacesBeforeUrl)
    else if p.index < |matcher| && ch == matcher[p.index] then Consume(p.(index := p.index + 1), None)
    else if 'A' <= ch <= 'Z' || ch == '-' then
      match CorrectedMethod(p.line.verb, p.index, ch)
      case None => Error(InvalidMethod)
      case Some(m) => Consume(p.(line := p.line.(verb := m), index := p.index + 1), None)
    else Error(InvalidMethod)
  }

  // ---------- status line ----------

  function VersionDigit(p: Parser, ch: char, major: bool, next: State): Outcome {
    if !IsNum(ch) then Error(InvalidVersion)
    else if major then Goto(p.(line := p.line.(major := Digit(ch))), next)
    else Goto(p.(line := p.line.(minor := Digit(ch))), next)
  }

  function StatusCodeArm(p: Parser, ch: char): Outcome {
    if !IsNum(ch) then
      if ch == ' ' then Goto(p, ResStatusStart)
      else if ch == CR || ch == LF then Again(p.(state := ResStatusStart), None)
      else Error(InvalidStatus)
    else
      var code := p.line.statusCode * 10 + Digit(ch);
      if code > 999 then Error(InvalidStatus) else Consume(p.(line := p.line.(statusCode := code)), None)
  }

  function StatusLineArm(p: Parser, ch: char): Outcome {
    if p.state.ResH? then Expect(p, ch, 'T', Strict, ResHT)
    else if p.state.ResHT? then Expect(p, ch, 'T', Strict, ResHTT)
    else if p.state.ResHTT? then Expect(p, ch, 'P', Strict, ResHTTP)
    else if p.state.ResHTTP? then Expect(p, ch, '/', Strict, ResHttpMajor)
    else if p.state.ResHttpMajor? then VersionDigit(p, ch, true, ResHttpDot)
    else if p.state.ResHttpDot? then Expect(p, ch, '.', InvalidVersion, ResHttpMinor)
    else if p.state.ResHttpMinor? then VersionDigit(p, ch, false, ResHttpEnd)
    else if p.state.ResHttpEnd? then Expect(p, ch, ' ', InvalidVersion, ResFirstStatusCode)
    else if p.state.ResFirstStatusCode? then
      if IsNum(ch) then Goto(p.(line := p.line.(statusCode := Digit(ch))), ResStatusCode)
      else if ch == ' ' then Consume(p, None)
      else Error(InvalidStatus)
    else if p.state.ResStatusCode? then StatusCodeArm(p, ch)
    else if p.state.ResStatusStart? then
      var q := p.(state := ResStatus, index := 0);
      if ch == CR || ch == LF then Again(q, Some(Data(Status, "")))
      else Consume(q, Some(Data(Status, [ch])))
    else if p.state.ResStatus? then
      if ch == CR then Goto(p, ResLineAlmostDone)
      else if ch == LF then Goto(p, HeaderFieldStart)
      else Consume(p, Some(Data(Status, [ch])))
    else if p.state.ResLineAlmostDone? then Expect(p, ch, LF, Strict, HeaderFieldStart)
    else AssertFails
  }

  // ---------- request line ----------

  /** `parse_url_char`: the next state of the URL walker, `Dead` for a byte that cannot follow. */
  function ParseUrlChar(s: State, ch: char): State {
    if ch == ' ' || ch == CR || ch == LF || ch == '\t' || ch == '\U{000C}' then Dead
    else if s.ReqSpacesBeforeUrl? then
      if ch == '/' || ch == '*' then ReqPath else if IsAlpha(ch) then ReqSchema else Dead
    else if s.ReqSchema? then
      if IsAlpha(ch) then ReqSchema else if ch == ':' then ReqSchemaSlash else Dead
    else if s.ReqSchemaSlash? then if ch == '/' then ReqSchemaSlashSlash else Dead
    else if s.ReqSchemaSlashSlash? then if ch == '/' then ReqServerStart else Dead
    else if s.ReqServerWithAt? then if ch == '@' then Dead else ParseServerChar(ch)
    else if s.ReqServerStart? then ParseServerChar(ch)
    else if s.ReqServer? then ParseServerChar(ch)
    else if s.ReqPath? then
      if IsUrlChar(ch) then ReqPath
      else if ch == '?' then ReqQueryStringStart
      else if ch == '#' then ReqFragmentStart
      else Dead
    else if s.ReqQueryStringStart? then ParseQueryChar(ch)
    else if s.ReqQueryString? then ParseQueryChar(ch)
    else if s.ReqFragmentStart? then
      if IsUrlChar(ch) || ch == '?' then ReqFragment else if ch == '#' then ReqFragmentStart else Dead
    else if s.ReqFragment? then
      if IsUrlChar(ch) || ch == '?' || ch == '#' then ReqFragment else Dead
    else Dead
  }

  function ParseServerChar(ch: char): State {
    if ch == '/' then ReqPath
    else if ch == '?' then ReqQueryStringStart
    else if ch == '@' then ReqServerWithAt
    else if IsUserInfoChar(ch) || ch == '[' || ch == ']' then ReqServer
    else Dead
  }

  function ParseQueryChar(ch: char): State {
    if IsUrlChar(ch) || ch == '?' then ReqQueryString
    else if ch == '#' then ReqFragmentStart
    else Dead
  }

  predicate UrlState(s: State) {
    s.ReqSchema? || s.ReqSchemaSlash? || s.ReqSchemaSlashSlash? || s.ReqServerStart? || s.ReqServer? ||
    s.ReqServerWithAt? || s.ReqPath? || s.ReqQueryStringStart? || s.ReqQueryString? ||
    s.ReqFragmentStart? || s.ReqFragment?
  }

  /** The URL states in which a space or a line end is a syntax error. */
  predicate EarlyUrlState(s: State) {
    s.ReqSchema? || s.ReqSchemaSlash? || s.ReqSchemaSlashSlash? || s.ReqServerStart?
  }

  function UrlByte(p: Parser, s: State, ch: char): Outcome {
    var next := ParseUrlChar(s, ch);
    if next == Dead then Error(InvalidUrl) else Consume(p.(state := next), Some(Data(Url, [ch])))
  }

  function SpacesBeforeUrlArm(p: Parser, ch: char): Outcome {
    if ch == ' ' then Consume(p, None)
    else UrlByte(p, if p.line.verb == CONNECT then ReqServerStart else ReqSpacesBeforeUrl, ch)
  }

  function UrlArm(p: Parser, ch: char): Outcome {
    if EarlyUrlState(p.state) then
      if ch == ' ' || ch == CR || ch == LF then Error(InvalidUrl) else UrlByte(p, p.state, ch)
    else if ch == ' ' then Goto(p, ReqHttpStart)
    else if ch == CR || ch == LF then
      Goto(p.(line := p.line.(major := 0, minor := 9)), if ch == CR then ReqLineAlmostDone else HeaderFieldStart)
    else UrlByte(p, p.state, ch)
  }

  function RequestVersionArm(p: Parser, ch: char): Outcome {
    if p.state.ReqHttpStart? then
      if ch == ' ' then Consume(p, None)
      else if ch == 'H' then Goto(p, ReqHttpH)
      else if ch == 'I' && p.line.verb == SOURCE then Goto(p, ReqHttpI)
      else Error(InvalidConstant)
    else if p.state.ReqHttpH? then Expect(p, ch, 'T', Strict, ReqHttpHT)
    else if p.state.ReqHttpHT? then Expect(p, ch, 'T', Strict, ReqHttpHTT)
    else if p.state.ReqHttpHTT? then Expect(p, ch, 'P', Strict, ReqHttpHTTP)
    else if p.state.ReqHttpI? then Expect(p, ch, 'C', Strict, ReqHttpIC)
    else if p.state.ReqHttpIC? then Expect(p, ch, 'E', Strict, ReqHttpHTTP)
    else if p.state.ReqHttpHTTP? then Expect(p, ch, '/', Strict, ReqHttpMajor)
    else if p.state.ReqHttpMajor? then VersionDigit(p, ch, true, ReqHttpDot)
    else if p.state.ReqHttpDot? then Expect(p, ch, '.', InvalidVersion, ReqHttpMinor)
    else if p.state.ReqHttpMinor? then VersionDigit(p, ch, false, ReqHttpEnd)
    else if p.state.ReqHttpEnd? then
      if ch == CR then Goto(p, ReqLineAlmostDone)
      else if ch == LF then Goto(p, HeaderFieldStart)
      else Error(InvalidVersion)
    else if p.state.ReqLineAlmostDone? then Expect(p, ch, LF, LfExpected, HeaderFieldStart)
    else AssertFails
  }

  // ---------- header fields ----------

  const CONNECTION_NAME := "connection"
  const PROXY_CONNECTION_NAME := "proxy-connection"
  const CONTENT_LENGTH_NAME := "content-length"
  const TRANSFER_ENCODING_NAME := "transfer-encoding"
  const UPGRADE_NAME := "upgrade"
  const CHUNKED_WORD := "chunked"
  const KEEP_ALIVE_WORD := "keep-alive"
  const CLOSE_WORD := "close"

  function FieldStartArm(p: Parser, ch: char): Outcome {
    if ch == CR then Goto(p, HeadersAlmostDone)
    else if ch == LF then Again(p.(state := HeadersAlmostDone), None)
    else if !IsToken(ch) then Error(InvalidHeaderToken)
    else
      var c := Token(ch);
      var h := if c == 'c' then HC
               else if c == 'p' then HMatchingProxyConnection
               else if c == 't' then HMatchingTransferEncoding
               else if c == 'u' then HMatchingUpgrade
               else HGeneral;
      Consume(p.(index := 0, state := HeaderField, hstate := h), Some(Data(Field, [ch])))
  }

  /** The byte of a C string literal at an index, its terminating NUL included. */
  function CharAt(literal: string, i: nat): char {
    if literal == "" then NUL
    else if i == 0 then literal[0]
    else CharAt(literal[1..], i - 1)
  }

  lemma {:induction false} CharAtIndexes(literal: string, i: nat)
    requires i < |literal|
    ensures CharAt(literal, i) == literal[i]
    decreases i
  {
    if i > 0 {
      CharAtIndexes(literal[1..], i - 1);
    }
  }

  /** One step of a literal matcher: compare with the literal at the incremented index. */
  function MatchLiteral(p: Parser, c: char, literal: string, fallback: HState, found: HState): Parser {
    var i := p.index + 1;
    if i >= |literal| || c != CharAt(literal, i) then p.(index := i, hstate := fallback)
    else if i == |literal| - 1 then p.(index := i, hstate := found)
    else p.(index := i)
  }

  /** The inner switch of `s_header_field` for a token byte, `c` being its lower-cased form. */
  function FieldByte(p: Parser, ch: char, c: char): Option<Parser> {
    if p.hstate.HGeneral? then Some(p)
    else if p.hstate.HC? then Some(p.(index := p.index + 1, hstate := if c == 'o' then HCO else HGeneral))
    else if p.hstate.HCO? then Some(p.(index := p.index + 1, hstate := if c == 'n' then HCON else HGeneral))
    else if p.hstate.HCON? then Some(p.(index := p.index + 1,
                         hstate := if c == 'n' then HMatchingConnection
                                   else if c == 't' then HMatchingContentLength else HGeneral))
    else if p.hstate.HMatchingConnection? then Some(MatchLiteral(p, c, CONNECTION_NAME, HGeneral, HConnection))
    else if p.hstate.HMatchingProxyConnection? then
        Some(MatchLiteral(p, c, PROXY_CONNECTION_NAME, HGeneral, HConnection))
    else if p.hstate.HMatchingContentLength? then
        Some(MatchLiteral(p, c, CONTENT_LENGTH_NAME, HGeneral, HContentLength))
    else if p.hstate.HMatchingTransferEncoding? then
      var q := MatchLiteral(p, c, TRANSFER_ENCODING_NAME, HGeneral, HTransferEncoding);
      Some(if q.hstate == HTransferEncoding then q.(usesTE := true) else q)
    else if p.hstate.HMatchingUpgrade? then Some(MatchLiteral(p, c, UPGRADE_NAME, HGeneral, HUpgrade))
    else if p.hstate.HConnection? then Some(if ch != ' ' then p.(hstate := HGeneral) else p)
    else if p.hstate.HContentLength? then Some(if ch != ' ' then p.(hstate := HGeneral) else p)
    else if p.hstate.HTransferEncoding? then Some(if ch != ' ' then p.(hstate := HGeneral) else p)
    else if p.hstate.HUpgrade? then Some(if ch != ' ' then p.(hstate := HGeneral) else p)
    else None // assert(0 && "Unknown header_state")
  }

  function FieldArm(p: Parser, ch: char): Outcome {
    if IsToken(ch) then
      match FieldByte(p, ch, Token(ch))
      case None => AssertFails
      case Some(q) => Consume(q, Some(Data(Field, [ch])))
    else if ch == ':' then Goto(p, HeaderValueDiscardWs)
    else Error(InvalidHeaderToken)
  }

  // ---------- header values ----------

  function DiscardWsArm(p: Parser, ch: char): Outcome {
    if ch == ' ' || ch == '\t' then Consume(p, None)
    else if ch == CR then Goto(p, HeaderValueDiscardWsAlmostDone)
    else if ch == LF then Goto(p, HeaderValueDiscardLws)
    else ValueStartArm(p, ch)
  }

  /** The switch on `header_state` at the first byte of a value line. */
  function ValueStart(p: Parser, ch: char): Outcome {
    var c := Lower(ch);
    if p.hstate.HUpgrade? then Consume(p.(flags := p.flags.(upgrade := true), hstate := HGeneral), None)
    else if p.hstate.HTransferEncoding? then
      Consume(p.(hstate := if c == 'c' then HMatchingTeChunked else HMatchingTeToken), None)
    else if p.hstate.HMatchingTeTokenStart? then Consume(p, None)
    else if p.hstate.HContentLength? then
      if !IsNum(ch) then Error(InvalidContentLength)
      else if p.flags.contentLength then Error(UnexpectedContentLength)
      else Consume(p.(flags := p.flags.(contentLength := true), contentLength := Digit(ch),
                      hstate := HContentLengthNum), None)
    else if p.hstate.HContentLengthWs? then Consume(p, None)
    else if p.hstate.HConnection? then
      Consume(p.(hstate := if c == 'k' then HMatchingConnKeepAlive
                           else if c == 'c' then HMatchingConnClose
                           else if c == 'u' then HMatchingConnUpgrade
                           else HMatchingConnToken), None)
    else if p.hstate.HMatchingConnTokenStart? then Consume(p, None)
    else Consume(p.(hstate := HGeneral), None)
  }

  function ValueStartArm(p: Parser, ch: char): Outcome {
    match ValueStart(p.(state := HeaderValue, index := 0), ch)
    case Consume(q, _) => Consume(q, Some(Data(Value, [ch])))
    case other => other
  }

  /** `ULLONG_MAX`-guarded accumulation of one digit in the given base. */
  function Accumulate(value: nat, base: nat, digit: nat): Option<nat>
    requires base == 10 || base == 16
  {
    if (ULLONG_MAX - base) / base < value then None else Some(value * base + digit)
  }

  function ContentLengthByte(p: Parser, ch: char): Outcome {
    if ch == ' ' then Consume(p.(hstate := HContentLengthWs), None)
    else if !IsNum(ch) then Error(InvalidContentLength)
    else match Accumulate(p.contentLength, 10, Digit(ch))
      case None => Error(InvalidContentLength)
      case Some(t) => Consume(p.(contentLength := t, hstate := HContentLengthNum), None)
  }

  /** The inner switch of `s_header_value` for a byte that is neither CR nor LF. */
  function ValueByte(p: Parser, ch: char): Outcome {
    var c := Lower(ch);
    if p.hstate.HGeneral? then Consume(p, None)
    else if p.hstate.HConnection? then AssertFails
    else if p.hstate.HTransferEncoding? then AssertFails
    else if p.hstate.HContentLength? then if ch == ' ' then Consume(p, None) else ContentLengthByte(p, ch)
    else if p.hstate.HContentLengthNum? then ContentLengthByte(p, ch)
    else if p.hstate.HContentLengthWs? then if ch == ' ' then Consume(p, None) else Error(InvalidContentLength)
    else if p.hstate.HMatchingTeTokenStart? then
      Consume(p.(hstate := if c == 'c' then HMatchingTeChunked
                           else if IsToken(c) then HMatchingTeToken
                           else if c == ' ' || c == '\t' then HMatchingTeTokenStart
                           else HGeneral), None)
    else if p.hstate.HMatchingTeChunked? then
        Consume(MatchLiteral(p, c, CHUNKED_WORD, HMatchingTeToken, HTeChunked), None)
    else if p.hstate.HMatchingTeToken? then
      Consume(if ch == ',' then p.(hstate := HMatchingTeTokenStart, index := 0) else p, None)
    else if p.hstate.HMatchingConnTokenStart? then
      Consume(p.(hstate := if c == 'k' then HMatchingConnKeepAlive
                           else if c == 'c' then HMatchingConnClose
                           else if c == 'u' then HMatchingConnUpgrade
                           else if IsToken(c) then HMatchingConnToken
                           else if c == ' ' || c == '\t' then HMatchingConnTokenStart
                           else HGeneral), None)
    else if p.hstate.HMatchingConnKeepAlive? then
        Consume(MatchLiteral(p, c, KEEP_ALIVE_WORD, HMatchingConnToken, HConnKeepAlive), None)
    else if p.hstate.HMatchingConnClose? then
        Consume(MatchLiteral(p, c, CLOSE_WORD, HMatchingConnToken, HConnClose), None)
    else if p.hstate.HMatchingConnUpgrade? then
        Consume(MatchLiteral(p, c, UPGRADE_NAME, HMatchingConnToken, HConnUpgrade), None)
    else if p.hstate.HMatchingConnToken? then
      Consume(if ch == ',' then p.(hstate := HMatchingConnTokenStart, index := 0) else p, None)
    else if p.hstate.HTeChunked? then Consume(if ch != ' ' then p.(hstate := HMatchingTeToken) else p, None)
    else if p.hstate.HConnKeepAlive? then Consume(ListWordByte(p, ch, p.flags.(keepAlive := true)), None)
    else if p.hstate.HConnClose? then Consume(ListWordByte(p, ch, p.flags.(close := true)), None)
    else if p.hstate.HConnUpgrade? then Consume(ListWordByte(p, ch, p.flags.(connUpgrade := true)), None)
    else Consume(p.(hstate := HGeneral), None)
  }

  /** After a complete Connection word: a comma confirms it, a space may follow, anything else revokes it. */
  function ListWordByte(p: Parser, ch: char, confirmed: Flags): Parser {
    if ch == ',' then p.(flags := confirmed, hstate := HMatchingConnTokenStart, index := 0)
    else if ch != ' ' then p.(hstate := HMatchingConnToken)
    else p
  }

  function ValueArm(s: Settings, p: Parser, ch: char): Outcome {
    if ch == CR then Goto(p, HeaderAlmostDone)
    else if ch == LF then Again(p.(state := HeaderAlmostDone), None)
    else if !s.lenient && !IsHeaderChar(ch) then Error(InvalidHeaderToken)
    else match ValueByte(p, ch)
      case Consume(q, _) => Consume(q, Some(Data(Value, [ch])))
      case other => other
  }

  /** The flags a header line leaves behind when its value ends in the given matcher state. */
  function FinishedFlags(p: Parser): Flags {
    if p.hstate.HConnKeepAlive? then p.flags.(keepAlive := true)
    else if p.hstate.HConnClose? then p.flags.(close := true)
    else if p.hstate.HTeChunked? then p.flags.(chunked := true)
    else if p.hstate.HConnUpgrade? then p.flags.(connUpgrade := true)
    else p.flags
  }

  function ValueLwsArm(p: Parser, ch: char): Outcome {
    if ch == ' ' || ch == '\t' then
      var h := if p.hstate == HContentLengthNum then HContentLengthWs else p.hstate;
      Again(p.(hstate := h, state := HeaderValueStart), None)
    else Again(p.(flags := FinishedFlags(p), state := HeaderFieldStart), None)
  }

  function DiscardLwsArm(p: Parser, ch: char): Outcome {
    if ch == ' ' || ch == '\t' then Goto(p, HeaderValueDiscardWs)
    else if p.hstate == HContentLength then Error(InvalidContentLength)
    else Again(p.(flags := FinishedFlags(p), state := HeaderFieldStart), Some(Data(Value, "")))
  }

  function HeaderArm(s: Settings, p: Parser, ch: char): Outcome {
    if p.state.HeaderFieldStart? then FieldStartArm(p, ch)
    else if p.state.HeaderField? then FieldArm(p, ch)
    else if p.state.HeaderValueDiscardWs? then DiscardWsArm(p, ch)
    else if p.state.HeaderValueDiscardWsAlmostDone? then Expect(p, ch, LF, Strict, HeaderValueDiscardLws)
    else if p.state.HeaderValueDiscardLws? then DiscardLwsArm(p, ch)
    else if p.state.HeaderValueStart? then ValueStartArm(p, ch)
    else if p.state.HeaderValue? then ValueArm(s, p, ch)
    else if p.state.HeaderAlmostDone? then Expect(p, ch, LF, LfExpected, HeaderValueLws)
    else if p.state.HeaderValueLws? then ValueLwsArm(p, ch)
    else AssertFails
  }

  // ---------- end of the header section ----------

  /** `answer` is the result of `on_headers_complete`. */
  function HeadersAlmostDoneArm(s: Settings, p: Parser, ch: char, answer: int): Outcome {
    if ch != LF then Error(Strict)
    else if p.flags.trailing then Again(p.(state := MessageDone), Some(ChunkComplete))
    else if p.usesTE && p.flags.contentLength && (if p.flags.chunked then !s.allowChunkedLength else !s.lenient) then
      Error(UnexpectedContentLength)
    else
      var up := if p.flags.upgrade && p.flags.connUpgrade then p.line.kind == Request || p.line.statusCode == 101
                else p.line.verb == CONNECT;
      var q := p.(state := HeadersDone, upgrade := up);
      if answer == 0 then Again(q, Some(HeadersComplete))
      else if answer == 1 then Again(q.(flags := q.flags.(skipBody := true)), Some(HeadersComplete))
      else if answer == 2 then Again(q.(upgrade := true, flags := q.flags.(skipBody := true)), Some(HeadersComplete))
      else Error(CbHeadersComplete)
  }

  function HeadersDoneArm(s: Settings, p: Parser, ch: char): Outcome {
    if ch != LF then Error(Strict)
    else
      var hasBody := p.flags.chunked || (p.contentLength > 0 && p.contentLength != ULLONG_MAX);
      var complete := p.(state := NewMessage(p));
      if p.upgrade && (p.line.verb == CONNECT || p.flags.skipBody || !hasBody) then
        Upgraded(complete, Some(MessageComplete))
      else if p.flags.skipBody then Consume(complete, Some(MessageComplete))
      else if p.flags.chunked then Goto(p, ChunkSizeStart)
      else if p.usesTE then
        if p.line.kind == Request && !s.lenient then Error(InvalidTransferEncoding) else Goto(p, BodyIdentityEof)
      else if p.contentLength == 0 then Consume(complete, Some(MessageComplete))
      else if p.contentLength != ULLONG_MAX then Goto(p, BodyIdentity)
      else if !MessageNeedsEof(p) then Consume(complete, Some(MessageComplete))
      else Goto(p, BodyIdentityEof)
  }

  // ---------- body ----------

  function ChunkSizeStartArm(p: Parser, ch: char): Outcome {
    if !p.flags.chunked then AssertFails
    else if Unhex(ch) == -1 then Error(InvalidChunkSize)
    else Goto(p.(contentLength := Unhex(ch)), ChunkSize)
  }

  function ChunkSizeArm(p: Parser, ch: char): Outcome {
    if !p.flags.chunked then AssertFails
    else if ch == CR then Goto(p, ChunkSizeAlmostDone)
    else if Unhex(ch) == -1 then
      if ch == ';' || ch == ' ' then Goto(p, ChunkParameters) else Error(InvalidChunkSize)
    else match Accumulate(p.contentLength, 16, Unhex(ch))
      case None => Error(InvalidContentLength)
      case Some(t) => Consume(p.(contentLength := t), None)
  }

  function ChunkSizeAlmostDoneArm(p: Parser, ch: char): Outcome {
    if !p.flags.chunked then AssertFails
    else if ch != LF then Error(Strict)
    else
      var q := if p.contentLength == 0
               then p.(flags := p.flags.(trailing := true), state := HeaderFieldStart)
               else p.(state := ChunkData);
      Consume(q, Some(ChunkHeader(p.contentLength)))
  }

  predicate CountsDown(n: nat) {
    n != 0 && n != ULLONG_MAX
  }

  function MessageDoneArm(p: Parser, ch: char): Outcome {
    var q := p.(state := NewMessage(p));
    if p.upgrade then Upgraded(q, Some(MessageComplete)) else Consume(q, Some(MessageComplete))
  }

  function BodyArm(p: Parser, ch: char): Outcome {
    if p.state.ChunkSizeStart? then ChunkSizeStartArm(p, ch)
    else if p.state.ChunkSize? then ChunkSizeArm(p, ch)
    else if p.state.ChunkParameters? then
      if !p.flags.chunked then AssertFails
      else if ch == CR then Goto(p, ChunkSizeAlmostDone) else Consume(p, None)
    else if p.state.ChunkSizeAlmostDone? then ChunkSizeAlmostDoneArm(p, ch)
    else if p.state.ChunkData? then
      if !p.flags.chunked || !CountsDown(p.contentLength) then AssertFails
      else
        Consume(p.(contentLength := p.contentLength - 1,
                   state := if p.contentLength == 1 then ChunkDataAlmostDone else ChunkData),
                Some(Data(Body, [ch])))
    else if p.state.ChunkDataAlmostDone? then
      if !p.flags.chunked || p.contentLength != 0 then AssertFails
      else Expect(p, ch, CR, Strict, ChunkDataDone)
    else if p.state.ChunkDataDone? then
      if !p.flags.chunked then AssertFails
      else if ch != LF then Error(Strict)
      else Consume(p.(state := ChunkSizeStart), Some(ChunkComplete))
    else if p.state.BodyIdentity? then
      if !CountsDown(p.contentLength) then AssertFails
      else if p.contentLength == 1 then
        Again(p.(contentLength := 0, state := MessageDone), Some(Data(Body, [ch])))
      else Consume(p.(contentLength := p.contentLength - 1), Some(Data(Body, [ch])))
    else if p.state.BodyIdentityEof? then Consume(p, Some(Data(Body, [ch])))
    else if p.state.MessageDone? then MessageDoneArm(p, ch)
    else AssertFails
  }

  // ---------- the whole switch ----------

  predicate StartState(s: State) {
    s.Dead? || s.StartReqOrRes? || s.ResOrRespH? || s.StartRes? || s.StartReq? || s.ReqMethod?
  }

  predicate StatusLineState(s: State) {
    s.ResH? || s.ResHT? || s.ResHTT? || s.ResHTTP? || s.ResHttpMajor? || s.ResHttpDot? || s.ResHttpMinor? ||
    s.ResHttpEnd? || s.ResFirstStatusCode? || s.ResStatusCode? || s.ResStatusStart? || s.ResStatus? ||
    s.ResLineAlmostDone?
  }

  predicate HeaderState(s: State) {
    s.HeaderFieldStart? || s.HeaderField? || s.HeaderValueDiscardWs? || s.HeaderValueDiscardWsAlmostDone? ||
    s.HeaderValueDiscardLws? || s.HeaderValueStart? || s.HeaderValue? || s.HeaderValueLws? || s.HeaderAlmostDone?
  }

  predicate BodyState(s: State) {
    s.ChunkSizeStart? || s.ChunkSize? || s.ChunkParameters? || s.ChunkSizeAlmostDone? || s.ChunkData? ||
    s.ChunkDataAlmostDone? || s.ChunkDataDone? || s.BodyIdentity? || s.BodyIdentityEof? || s.MessageDone?
  }

  predicate RequestLineState(s: State) {
    s.ReqSpacesBeforeUrl? || UrlState(s) || s.ReqHttpStart? || s.ReqHttpH? || s.ReqHttpHT? || s.ReqHttpHTT? ||
    s.ReqHttpHTTP? || s.ReqHttpI? || s.ReqHttpIC? || s.ReqHttpMajor? || s.ReqHttpDot? || s.ReqHttpMinor? ||
    s.ReqHttpEnd? || s.ReqLineAlmostDone?
  }

  predicate HeadersEndState(s: State) {
    s.HeadersAlmostDone? || s.HeadersDone?
  }

  function StartArm(p: Parser, ch: char): Outcome {
    if p.state.Dead? then DeadArm(p, ch)
    else if p.state.StartReqOrRes? then StartReqOrResArm(p, ch)
    else if p.state.ResOrRespH? then ResOrRespHArm(p, ch)
    else if p.state.StartRes? then StartResArm(p, ch)
    else if p.state.StartReq? then StartReqArm(p, ch)
    else if p.state.ReqMethod? then ReqMethodArm(p, ch)
    else AssertFails
  }

  function RequestLineArm(p: Parser, ch: char): Outcome {
    if p.state.ReqSpacesBeforeUrl? then SpacesBeforeUrlArm(p, ch)
    else if UrlState(p.state) then UrlArm(p, ch)
    else RequestVersionArm(p, ch)
  }

  function HeadersEndArm(s: Settings, p: Parser, ch: char, answer: int): Outcome {
    if p.state.HeadersAlmostDone? then HeadersAlmostDoneArm(s, p, ch, answer)
    else if p.state.HeadersDone? then HeadersDoneArm(s, p, ch)
    else AssertFails
  }

  function Arm(s: Settings, p: Parser, ch: char, answer: int): Outcome {
    if StartState(p.state) then StartArm(p, ch)
    else if StatusLineState(p.state) then StatusLineArm(p, ch)
    else if HeaderState(p.state) then HeaderArm(s, p, ch)
    else if HeadersEndState(p.state) then HeadersEndArm(s, p, ch, answer)
    else if BodyState(p.state) then BodyArm(p, ch)
    else RequestLineArm(p, ch)
  }

  /** The arms that set `nread` to 0 once they accept the byte. */
  predicate ResetsNread(s: State) {
    s.HeadersDone? || s.ChunkSizeAlmostDone? || s.ChunkDataDone?
  }

  /** `PARSING_HEADER`: the states whose bytes count against `max_header_size`. */
  predicate ParsingHeader(s: State) {
    !(s.ChunkData? || s.ChunkDataAlmostDone? || s.ChunkDataDone? || s.BodyIdentity? || s.BodyIdentityEof? ||
        s.MessageDone?)
  }
}
