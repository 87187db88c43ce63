/** Whole messages: a request or a response is written down, with any fields whose values are written as usual, and the
    body that its fields announce; the parser delivers the start line, the fields and the body as they were written, and
    goes on behind the message as the fields say. */
module MessageRoundTrip {
  import opened Sequences
  import opened Options
  import opened HttpBytes
  import opened HttpHeaderText
  import opened HttpParserTypes
  import opened HttpParserArms
  import opened HttpParserRun
  import opened HttpParserInvariant
  import opened HttpParserStretch
  import opened HttpParserStartLine
  import opened HttpParserHeaderLines
  import opened HttpParserRequests
  import opened HttpParserSaid
  import opened HttpParserHeadEnd
  import opened ChunkedCoding
  import opened ChunkedParse
  import H = HeaderFields

  datatype Start =
    | RequestStart(verb: Method, target: string)
    | StatusStart(code: string, reason: string)

  /** The body behind a header section; a chunked one may be followed by trailer fields. */
  datatype Content =
    | Nothing
    | Measured(bytes: string)
    | InChunks(chunks: seq<string>, trailers: seq<H.Field>)
    | ToTheEnd(bytes: string)

  /** `major` and `minor` are the digits of the version. */
  datatype Message = Message(start: Start, major: char, minor: char, fields: seq<H.Field>, content: Content)

  // ---------- the text ----------

  function StartText(m: Message): string {
    match m.start
    case RequestStart(verb, target) => RequestLine(verb, target, m.major, m.minor)
    case StatusStart(code, reason) => StatusLine(m.major, m.minor, code, reason)
  }

  function Head(m: Message): string {
    StartText(m) + (H.Lines(m.fields) + ([CR] + [LF]))
  }

  /** The last chunk has no data. */
  function ChunksText(chunks: seq<string>, trailers: seq<H.Field>): string {
    Encode(chunks) + ((Hex(0) + CRLF) + (H.Lines(trailers) + ([CR] + [LF])))
  }

  function ContentText(content: Content): string {
    match content
    case Nothing => ""
    case Measured(bytes) => bytes
    case InChunks(chunks, trailers) => ChunksText(chunks, trailers)
    case ToTheEnd(bytes) => bytes
  }

  function Text(m: Message): string {
    Head(m) + ContentText(m.content)
  }

  // ---------- the callbacks ----------

  function StartEvents(m: Message): seq<Event> {
    match m.start
    case RequestStart(_, target) => [MessageBegin, Data(Url, target)]
    case StatusStart(_, reason) => [MessageBegin, Data(Status, reason)]
  }

  function HeadEvents(m: Message): seq<Event> {
    StartEvents(m) + FieldEvents(m.fields)
  }

  function ChunksEvents(chunks: seq<string>, trailers: seq<H.Field>): seq<Event> {
    AllChunkEvents(chunks) + ([ChunkHeader(0)] + (FieldEvents(trailers) + [ChunkComplete, MessageComplete]))
  }

  function ContentEvents(content: Content): seq<Event> {
    match content
    case Nothing => [MessageComplete]
    case Measured(bytes) => [Data(Body, bytes), MessageComplete]
    case InChunks(chunks, trailers) => ChunksEvents(chunks, trailers)
    case ToTheEnd(bytes) => if bytes == "" then [] else [Data(Body, bytes)]
  }

  /** What is delivered for a message, pieces joined; one that goes on to the end of the stream is not completed yet. */
  function Events(m: Message): seq<Event> {
    HeadEvents(m) + ([HeadersComplete] + ContentEvents(m.content))
  }

  // ---------- what may be written ----------

  predicate Startable(m: Message) {
    IsNum(m.major) && IsNum(m.minor) &&
    match m.start
    case RequestStart(verb, target) => target != "" && WalksToEnd(verb, target)
    case StatusStart(code, reason) => IsStatusCode(code) && NoLineEnd(reason)
  }

  predicate Writable(m: Message) {
    Startable(m) && AllClear(m.fields)
  }

  /** The parser is between two messages of its kind. */
  predicate Listening(c: Conf) {
    Inv(c) && ((c.p.state.StartReq? && c.p.line.kind == Request) || (c.p.state.StartRes? && c.p.line.kind == Response))
  }

  predicate SameKind(c: Conf, m: Message) {
    if m.start.RequestStart? then c.p.state.StartReq? else c.p.state.StartRes?
  }

  /** The start line in the parser's terms. A response leaves the method and a request the status code of the message
      before it. */
  function LineOf(line: StartLine, m: Message): StartLine
    requires Startable(m)
  {
    match m.start
    case RequestStart(verb, _) => line.(verb := verb, major := Digit(m.major), minor := Digit(m.minor))
    case StatusStart(code, _) =>
      line.(major := Digit(m.major), minor := Digit(m.minor), statusCode := Decimal(code))
  }

  /** What on_headers_complete answers for the message. */
  function Answer(s: Settings, c: Conf, m: Message): int {
    s.onHeadersComplete(c.log + HeadEvents(m))
  }

  function Going(s: Settings, c: Conf, m: Message): Expected
    requires Startable(m)
  {
    Expects(s, LineOf(c.p.line, m), SaidByAll(m.fields), Answer(s, c, m))
  }

  /** The content is what the header section leads a reader to expect. */
  predicate Fitting(s: Settings, c: Conf, m: Message)
    requires Startable(m)
  {
    Suits(s, m.content, Going(s, c, m))
  }

  predicate Suits(s: Settings, content: Content, e: Expected) {
    match e
    case Refused(_) => false
    case OtherProtocol => content.Nothing?
    case Empty => content.Nothing?
    case Length(n) => content.Measured? && |content.bytes| == n
    case Chunks => content.InChunks? && ChunksFit(s, content)
    case Rest => content.ToTheEnd?
  }

  /** The head of the message can be read: its lines are well formed and within the header limit. */
  predicate Readable(s: Settings, c: Conf, m: Message) {
    Listening(c) && SameKind(c, m) && Writable(m) && c.nread + |Head(m)| <= s.limit
  }

  /** The whole message can be read. */
  predicate Sendable(s: Settings, c: Conf, m: Message) {
    Readable(s, c, m) && Fitting(s, c, m)
  }

  /** The chunks are not empty, and the lines between them are within the header limit, against which the parser counts
      them. */
  predicate ChunksFit(s: Settings, content: Content)
    requires content.InChunks?
  {
    AllFit(s, content.chunks) && s.limit >= 3 && TrailersFit(s, content.trailers)
  }

  // ---------- the head ----------

  function AtFields(c: Conf, m: Message): Conf
    requires Startable(m)
  {
    match m.start
    case RequestStart(verb, target) => AfterRequestLine(c, verb, target, m.major, m.minor)
    case StatusStart(code, reason) => AfterStatusLine(c, m.major, m.minor, code, reason)
  }

  lemma {:induction false} StartRun(s: Settings, c: Conf, m: Message)
    requires Listening(c) && SameKind(c, m) && Startable(m) && c.nread + |Head(m)| <= s.limit
    ensures RunOf(s, c, StartText(m)) == Ran(AtFields(c, m))
    ensures AtLine(AtFields(c, m)) && AtFields(c, m).log == c.log + StartEvents(m)
  {
    var begun := c.log + [MessageBegin];
    assert Emit(c.log, MessageBegin) == begun && !EndsIn(begun, Url) && !EndsIn(begun, Status);
    match m.start {
      case RequestStart(verb, target) =>
        RequestLineRun(s, c, verb, target, m.major, m.minor);
        assert begun + [Data(Url, target)] == c.log + [MessageBegin, Data(Url, target)];
      case StatusStart(code, reason) =>
        StatusLineRun(s, c, m.major, m.minor, code, reason);
        assert begun + [Data(Status, reason)] == c.log + [MessageBegin, Data(Status, reason)];
    }
    RunInv(s, c, StartText(m));
  }

  lemma StartFresh(c: Conf, m: Message)
    requires Startable(m)
    ensures var p := AtFields(c, m).p;
            p.flags == NO_FLAGS && !p.usesTE && p.contentLength == ULLONG_MAX && p.line == LineOf(c.p.line, m)
    ensures AtFields(c, m).nread == c.nread + |StartText(m)|
  {
  }

  function AtEnd(c: Conf, m: Message): Conf
    requires Startable(m)
  {
    AfterFields(AtFields(c, m), m.fields)
  }

  lemma {:induction false} SectionRun(s: Settings, c: Conf, m: Message)
    requires Readable(s, c, m)
    ensures LeadsTo(s, AtFields(c, m), H.Lines(m.fields), AtEnd(c, m), FieldEvents(m.fields), [CR] + [LF])
    ensures Knows(AtEnd(c, m).p, SaidByAll(m.fields)) && AtEnd(c, m).p.line == LineOf(c.p.line, m)
    ensures AtEnd(c, m).log == c.log + HeadEvents(m)
  {
    StartRun(s, c, m);
    StartFresh(c, m);
    FieldsRun(s, AtFields(c, m), m.fields, [CR] + [LF]);
    ToldAfresh(AtFields(c, m).p, AtEnd(c, m).p, SaidByAll(m.fields));
    Regroup(c.log, StartEvents(m), FieldEvents(m.fields));
  }

  /** The configuration behind the head. */
  function HeadRead(s: Settings, c: Conf, m: Message): Conf
    requires Startable(m)
  {
    BehindHead(s, AtEnd(c, m), SaidByAll(m.fields), Answer(s, c, m))
  }

  lemma {:induction false} LengthsFit(fields: seq<H.Field>)
    requires AllClear(fields) && SaidByAll(fields).length.Some?
    ensures SaidByAll(fields).length.value < ULLONG_MAX
    decreases |fields|
  {
    if SaidByAll(fields[1..]).length.Some? {
      LengthsFit(fields[1..]);
    }
  }

  lemma RunThen(s: Settings, c: Conf, a: string, b: string, d: Conf, r: Run)
    requires RunOf(s, c, a) == Ran(d) && RunOf(s, d, b) == r
    ensures RunOf(s, c, a + b) == Shift(r, |a|)
  {
    RunConcat(s, c, a, b);
  }

  lemma RunLeadsTo(s: Settings, c: Conf, start: string, d: Conf, lines: string, e: Conf, events: seq<Event>,
                   rest: string, r: Run)
    requires RunOf(s, c, start) == Ran(d) && LeadsTo(s, d, lines, e, events, rest) && RunOf(s, e, rest) == r
    ensures RunOf(s, c, start + (lines + rest)) == Shift(r, |start| + |lines|)
  {
    RunThen(s, c, start, lines + rest, d, Shift(r, |lines|));
    ShiftShift(r, |lines|, |start|);
  }

  lemma {:induction false} HeadParts(s: Settings, c: Conf, m: Message)
    requires Readable(s, c, m)
    ensures RunOf(s, c, Head(m)) ==
            Shift(HeadOutcome(s, AtEnd(c, m), SaidByAll(m.fields), Answer(s, c, m)), |Head(m)| - 2)
  {
    HeadPieces(s, c, m);
    RunLeadsTo(s, c, StartText(m), AtFields(c, m), H.Lines(m.fields), AtEnd(c, m), FieldEvents(m.fields), [CR] + [LF],
               HeadOutcome(s, AtEnd(c, m), SaidByAll(m.fields), Answer(s, c, m)));
  }

  lemma {:induction false} HeadPieces(s: Settings, c: Conf, m: Message)
    requires Readable(s, c, m)
    ensures RunOf(s, c, StartText(m)) == Ran(AtFields(c, m))
    ensures LeadsTo(s, AtFields(c, m), H.Lines(m.fields), AtEnd(c, m), FieldEvents(m.fields), [CR] + [LF])
    ensures RunOf(s, AtEnd(c, m), [CR] + [LF]) ==
            HeadOutcome(s, AtEnd(c, m), SaidByAll(m.fields), Answer(s, c, m))
  {
    StartRun(s, c, m);
    SectionRun(s, c, m);
    EmptyLineRun(s, c, m);
  }

  lemma {:induction false} EmptyLineRun(s: Settings, c: Conf, m: Message)
    requires Readable(s, c, m)
    ensures RunOf(s, AtEnd(c, m), [CR] + [LF]) ==
            HeadOutcome(s, AtEnd(c, m), SaidByAll(m.fields), Answer(s, c, m))
  {
    SectionRun(s, c, m);
    StartFresh(c, m);
    if SaidByAll(m.fields).length.Some? {
      LengthsFit(m.fields);
    }
    HeadEndRun(s, AtEnd(c, m), SaidByAll(m.fields), Answer(s, c, m));
  }

  /** The head of a message is read to its end, and the message goes on as its fields say, or is refused. */
  lemma {:induction false} HeadRun(s: Settings, c: Conf, m: Message)
    requires Readable(s, c, m)
    ensures var r, log, n := RunOf(s, c, Head(m)), c.log + HeadEvents(m), |Head(m)|;
            match Going(s, c, m)
            case Refused(code) => r == RanFailed(code, n - 1, log + EventsFor(Refused(code)))
            case OtherProtocol => r == RanUpgraded(HeadRead(s, c, m), n)
            case _ => r == Ran(HeadRead(s, c, m))
  {
    HeadParts(s, c, m);
    assert AtEnd(c, m).log == c.log + HeadEvents(m) && AtEnd(c, m).p.line == LineOf(c.p.line, m) by {
      SectionRun(s, c, m);
    }
  }

  // ---------- the content ----------

  /** The end of a trailer section ends the message. */
  lemma {:induction false} TrailerEnd(s: Settings, c: Conf)
    requires c.p.state.HeaderFieldStart? && c.p.flags.trailing && c.nread + 2 <= s.limit
    ensures var d := TrailerRead(c);
            RunOf(s, c, [CR] + [LF]) == if c.p.upgrade then RanUpgraded(d, 2) else Ran(d)
  {
    var d := Conf(c.p.(state := HeadersAlmostDone), c.nread + 1, c.log);
    HeadCrRun(s, c);
    RunSnoc(s, c, [CR], LF);
    TrailerLast(s, d);
  }

  function TrailerRead(c: Conf): Conf {
    Conf(c.p.(state := NewMessage(c.p)), c.nread + 2, c.log + [ChunkComplete, MessageComplete])
  }

  lemma TrailerLastRepeats(s: Settings, c: Conf)
    requires c.p.state.HeadersAlmostDone? && c.p.flags.trailing
    ensures ArmOf(s, c, LF) == Repeats(Conf(c.p.(state := MessageDone), c.nread, c.log + [ChunkComplete]))
  {
  }

  lemma {:induction false} TrailerLast(s: Settings, c: Conf)
    requires c.p.state.HeadersAlmostDone? && c.p.flags.trailing && c.nread < s.limit
    ensures var d := Conf(c.p.(state := NewMessage(c.p)), c.nread + 1, c.log + [ChunkComplete, MessageComplete]);
            Step(s, c, LF) == if c.p.upgrade then Leaves(d) else Consumed(d)
  {
    var done := Conf(c.p.(state := MessageDone), c.nread + 1, c.log + [ChunkComplete]);
    TrailerLastRepeats(s, Counted(c));
    var d := Conf(c.p.(state := NewMessage(c.p)), c.nread + 1, c.log + [ChunkComplete, MessageComplete]);
    assert Chain(s, done, LF) == (if c.p.upgrade then Leaves(d) else Consumed(d)) by {
      MessageDoneOf(s, done, LF);
      assert NewMessage(done.p) == NewMessage(c.p);
      assert done.log + [MessageComplete] == d.log;
    }
  }

  /** Behind the size line of the last chunk. */
  function AtTrailers(c: Conf, chunks: seq<string>): Conf {
    AfterSizeLine(AfterChunks(c, chunks), 0)
  }

  function ChunksRead(c: Conf, chunks: seq<string>, trailers: seq<H.Field>): Conf {
    TrailerRead(AfterFields(AtTrailers(c, chunks), trailers))
  }

  lemma {:induction false} ToTrailers(s: Settings, c: Conf, chunks: seq<string>)
    requires AtChunkStart(c) && AllFit(s, chunks) && s.limit >= 3
    ensures RunOf(s, c, Encode(chunks) + (Hex(0) + CRLF)) == Ran(AtTrailers(c, chunks))
    ensures AtLine(AtTrailers(c, chunks))
  {
    var d, e := AfterChunks(c, chunks), AtTrailers(c, chunks);
    ChunksRun(s, c, chunks);
    ChunksKeepStart(s, c, chunks);
    SizeLineRun(s, d, 0);
    RunThenRun(s, c, Encode(chunks), Hex(0) + CRLF, d, e);
    RunInv(s, c, Encode(chunks) + (Hex(0) + CRLF));
    assert e.log[|e.log| - 1] == ChunkHeader(0);
  }

  predicate TrailersFit(s: Settings, trailers: seq<H.Field>) {
    AllClear(trailers) && SaidByAll(trailers).length == None && |H.Lines(trailers)| + 2 <= s.limit
  }

  lemma ToldKeeps(p: Parser, q: Parser, said: Said)
    requires SameButMatcher(Told(p, said), q)
    ensures q.flags.trailing == p.flags.trailing && q.upgrade == p.upgrade
  {
  }

  lemma {:induction false} TrailersRun(s: Settings, t: Conf, trailers: seq<H.Field>)
    requires AtLine(t) && t.p.flags.trailing && t.nread == 0 && TrailersFit(s, trailers)
    ensures var d, text := TrailerRead(AfterFields(t, trailers)), H.Lines(trailers) + ([CR] + [LF]);
            RunOf(s, t, text) == (if t.p.upgrade then RanUpgraded(d, |text|) else Ran(d)) &&
            d.log == t.log + FieldEvents(trailers) + [ChunkComplete, MessageComplete] && d.nread == |text|
    ensures SameButMatcher(Told(t.p, SaidByAll(trailers)), AfterFields(t, trailers).p)
  {
    FieldsRun(s, t, trailers, [CR] + [LF]);
    ToldKeeps(t.p, AfterFields(t, trailers).p, SaidByAll(trailers));
    TrailerEnd(s, AfterFields(t, trailers));
  }

  lemma FiveParts(a: seq<Event>, b: seq<Event>, c: seq<Event>, d: seq<Event>, e: seq<Event>)
    ensures a + b + c + d + e == a + (b + (c + (d + e)))
  {
  }

  /** A chunked body is read chunk by chunk, with the trailer fields behind it. */
  lemma {:induction false} ChunksContentRun(s: Settings, c: Conf, chunks: seq<string>, trailers: seq<H.Field>)
    requires AtChunkStart(c) && AllFit(s, chunks) && s.limit >= 3 && TrailersFit(s, trailers)
    ensures var d, text := ChunksRead(c, chunks, trailers), ChunksText(chunks, trailers);
            RunOf(s, c, text) == if c.p.upgrade then RanUpgraded(d, |text|) else Ran(d)
  {
    var front, rest, t := Encode(chunks) + (Hex(0) + CRLF), H.Lines(trailers) + ([CR] + [LF]), AtTrailers(c, chunks);
    var d, up := ChunksRead(c, chunks, trailers), c.p.upgrade;
    assert RunOf(s, c, front) == Ran(t) && AtLine(t) by { ToTrailers(s, c, chunks); }
    assert RunOf(s, t, rest) == (if up then RanUpgraded(d, |rest|) else Ran(d)) by { TrailersRun(s, t, trailers); }
    EndsBoth(s, c, front, rest, t, d, up);
    Regroup(Encode(chunks), Hex(0) + CRLF, rest);
  }

  lemma EndsBoth(s: Settings, c: Conf, a: string, b: string, d: Conf, e: Conf, up: bool)
    requires RunOf(s, c, a) == Ran(d) && RunOf(s, d, b) == if up then RanUpgraded(e, |b|) else Ran(e)
    ensures RunOf(s, c, a + b) == if up then RanUpgraded(e, |a + b|) else Ran(e)
  {
    RunConcat(s, c, a, b);
  }

  /** What has been delivered by then, and what the parser has been told in the trailer. */
  lemma {:induction false} ChunksDelivered(s: Settings, c: Conf, chunks: seq<string>, trailers: seq<H.Field>)
    requires AtChunkStart(c) && AllFit(s, chunks) && s.limit >= 3 && TrailersFit(s, trailers)
    ensures ChunksRead(c, chunks, trailers).log == c.log + ChunksEvents(chunks, trailers)
    ensures ChunksRead(c, chunks, trailers).nread == |H.Lines(trailers)| + 2
    ensures var t := AtTrailers(c, chunks); SameButMatcher(Told(t.p, SaidByAll(trailers)), AfterFields(t, trailers).p)
  {
    ToTrailers(s, c, chunks);
    TrailersRun(s, AtTrailers(c, chunks), trailers);
    ChunksLog(c, chunks, trailers);
  }

  lemma ChunksLog(c: Conf, chunks: seq<string>, trailers: seq<H.Field>)
    ensures AtTrailers(c, chunks).log + FieldEvents(trailers) + [ChunkComplete, MessageComplete] ==
            c.log + ChunksEvents(chunks, trailers)
  {
    FiveParts(c.log, AllChunkEvents(chunks), [ChunkHeader(0)], FieldEvents(trailers), [ChunkComplete, MessageComplete]);
  }

  // ---------- any content ----------

  /** The parser behind the content. */
  function ContentRead(d: Conf, content: Content): Conf {
    match content
    case Nothing => d
    case Measured(bytes) => BodyDone(d, bytes)
    case InChunks(chunks, trailers) => ChunksRead(d, chunks, trailers)
    case ToTheEnd(bytes) => if bytes == "" then d else Conf(d.p, d.nread, d.log + [Data(Body, bytes)])
  }

  /** The parser has read the head of a message and is ready for its content. */
  predicate ReadyFor(s: Settings, d: Conf, content: Content) {
    Inv(d) && !EndsIn(d.log, Body) &&
    match content
    case Nothing => false
    case Measured(bytes) => d.p.state.BodyIdentity? && d.p.contentLength == |bytes|
    case InChunks(chunks, trailers) => d.p.state.ChunkSizeStart? && ChunksFit(s, content)
    case ToTheEnd(_) => d.p.state.BodyIdentityEof?
  }

  lemma {:induction false} RestRun(s: Settings, d: Conf, bytes: string)
    requires Inv(d) && !EndsIn(d.log, Body) && d.p.state.BodyIdentityEof?
    ensures RunOf(s, d, bytes) == Ran(ContentRead(d, ToTheEnd(bytes)))
    ensures ContentRead(d, ToTheEnd(bytes)).log == d.log + ContentEvents(ToTheEnd(bytes))
  {
    if bytes == "" {
      assert d.log + [] == d.log;
    } else {
      BodyStretch(s, d, bytes);
    }
  }

  /** The content is delivered, and the message ends with it. */
  lemma {:induction false} ContentRun(s: Settings, d: Conf, content: Content)
    requires ReadyFor(s, d, content)
    ensures var e, text := ContentRead(d, content), ContentText(content);
            RunOf(s, d, text) == if d.p.upgrade && !content.ToTheEnd? then RanUpgraded(e, |text|) else Ran(e)
    ensures ContentRead(d, content).log == d.log + ContentEvents(content)
  {
    match content
    case Measured(bytes) => BodyRun(s, d, bytes);
    case InChunks(chunks, trailers) =>
      ChunksContentRun(s, d, chunks, trailers);
      ChunksDelivered(s, d, chunks, trailers);
    case ToTheEnd(bytes) => RestRun(s, d, bytes);
  }

  // ---------- whole messages ----------

  /** The parser behind a message. */
  function Done(s: Settings, c: Conf, m: Message): Conf
    requires Startable(m)
  {
    ContentRead(HeadRead(s, c, m), m.content)
  }

  /** The message ends before the stream does, and the connection leaves HTTP behind it. */
  predicate LeavesHttp(s: Settings, c: Conf, m: Message)
    requires Startable(m)
  {
    !m.content.ToTheEnd? && Switches(LineOf(c.p.line, m), SaidByAll(m.fields), Answer(s, c, m))
  }

  lemma {:induction false} BehindRead(s: Settings, c: Conf, m: Message)
    requires Sendable(s, c, m)
    ensures var d := HeadRead(s, c, m);
            d.log == c.log + HeadEvents(m) + EventsFor(Going(s, c, m)) && d.nread == 0 &&
            d.p.upgrade == Switches(LineOf(c.p.line, m), SaidByAll(m.fields), Answer(s, c, m)) &&
            d.p.line == LineOf(c.p.line, m) && Inv(d) &&
            d.p.state == StateFor(d.p.line, SaidByAll(m.fields), Answer(s, c, m), Going(s, c, m))
  {
    SectionRun(s, c, m);
    HeadRun(s, c, m);
    RunInv(s, c, Head(m));
  }

  lemma {:induction false} ReadyBehind(s: Settings, c: Conf, m: Message)
    requires Sendable(s, c, m)
    requires !m.content.Nothing?
    ensures ReadyFor(s, HeadRead(s, c, m), m.content)
    ensures HeadRead(s, c, m).log == c.log + HeadEvents(m) + [HeadersComplete]
  {
    BehindRead(s, c, m);
    SectionRun(s, c, m);
    var d := HeadRead(s, c, m);
    assert d.log[|d.log| - 1] == HeadersComplete;
  }

  lemma {:induction false} BareMessageRun(s: Settings, c: Conf, m: Message)
    requires Sendable(s, c, m) && m.content.Nothing?
    ensures RunOf(s, c, Head(m)) ==
            if LeavesHttp(s, c, m) then RanUpgraded(HeadRead(s, c, m), |Head(m)|) else Ran(HeadRead(s, c, m))
    ensures EventsFor(Going(s, c, m)) == [HeadersComplete, MessageComplete]
  {
    HeadRun(s, c, m);
  }

  /** A message is read to its end and no further. */
  lemma {:induction false} MessageRun(s: Settings, c: Conf, m: Message)
    requires Sendable(s, c, m)
    ensures RunOf(s, c, Text(m)) ==
            if LeavesHttp(s, c, m) then RanUpgraded(Done(s, c, m), |Text(m)|) else Ran(Done(s, c, m))
  {
    var d, text := HeadRead(s, c, m), ContentText(m.content);
    if m.content.Nothing? {
      BareMessageRun(s, c, m);
      assert Text(m) == Head(m);
    } else {
      assert RunOf(s, c, Head(m)) == Ran(d) by { HeadRun(s, c, m); }
      assert d.p.upgrade == Switches(LineOf(c.p.line, m), SaidByAll(m.fields), Answer(s, c, m)) by {
        BehindRead(s, c, m);
      }
      ReadyBehind(s, c, m);
      ContentRun(s, d, m.content);
      EndsBoth(s, c, Head(m), text, d, Done(s, c, m), LeavesHttp(s, c, m));
    }
  }

  lemma EventParts(log: seq<Event>, head: seq<Event>, e: seq<Event>, content: seq<Event>)
    ensures log + head + e + content == log + (head + (e + content))
  {
  }

  /** What has been delivered is the message as it was written. */
  lemma {:induction false} MessageDelivered(s: Settings, c: Conf, m: Message)
    requires Sendable(s, c, m)
    ensures Done(s, c, m).log == c.log + Events(m)
  {
    var d := HeadRead(s, c, m);
    if m.content.Nothing? {
      BareMessageRun(s, c, m);
      BehindRead(s, c, m);
      EventParts(c.log, HeadEvents(m), [HeadersComplete], [MessageComplete]);
      assert c.log + HeadEvents(m) + [HeadersComplete, MessageComplete] ==
             c.log + HeadEvents(m) + [HeadersComplete] + [MessageComplete];
    } else {
      ReadyBehind(s, c, m);
      ContentRun(s, d, m.content);
      EventParts(c.log, HeadEvents(m), [HeadersComplete], ContentEvents(m.content));
    }
  }

  // ---------- behind a message ----------

  /** All that the message says, in its fields and in its trailer. */
  function SaidIn(m: Message): Said {
    if m.content.InChunks? then Together(SaidByAll(m.fields), SaidByAll(m.content.trailers)) else SaidByAll(m.fields)
  }

  /** Another message may follow. */
  predicate KeepsOpen(s: Settings, c: Conf, m: Message)
    requires Startable(m)
  {
    !m.content.ToTheEnd? && StaysOpen(LineOf(c.p.line, m), SaidIn(m), Skips(Answer(s, c, m)))
  }

  lemma MeasuredNext(p: Parser, said: Said, answer: int)
    requires Knows(p, said) && !said.coded && !said.chunked && said.length.Some? && !Skips(answer)
    ensures NewMessage(BodyRead(Answered(p, said, answer).(state := BodyIdentity))) ==
            Next(p.line, StaysOpen(p.line, said, false))
  {
  }

  lemma ChunksNext(p: Parser, q: Parser, said: Said, trailing: Said, answer: int, chunks: seq<string>, c: Conf)
    requires Knows(p, said) && said.chunked && trailing.length == None && !Skips(answer)
    requires c.p == Answered(p, said, answer).(state := ChunkSizeStart)
    requires SameButMatcher(Told(AtTrailers(c, chunks).p, trailing), q)
    ensures q.line == p.line && NewMessage(q) == Next(p.line, StaysOpen(p.line, Together(said, trailing), false))
  {
    var t := AtTrailers(c, chunks).p;
    assert t.flags == c.p.flags.(trailing := true) && t.line == p.line && t.usesTE == p.usesTE;
  }

  lemma {:induction false} KnownAtEnd(s: Settings, c: Conf, m: Message)
    requires Sendable(s, c, m)
    ensures var p, said, answer := AtEnd(c, m).p, SaidByAll(m.fields), Answer(s, c, m);
            Knows(p, said) && p.line == LineOf(c.p.line, m) &&
            HeadRead(s, c, m).p == Answered(p, said, answer).(state := StateFor(p.line, said, answer, Going(s, c, m)))
  {
    SectionRun(s, c, m);
  }

  lemma {:induction false} NextBare(s: Settings, c: Conf, m: Message)
    requires Sendable(s, c, m) && m.content.Nothing?
    ensures Done(s, c, m).p.state == Next(LineOf(c.p.line, m), KeepsOpen(s, c, m))
    ensures Done(s, c, m).p.line == LineOf(c.p.line, m)
  {
    KnownAtEnd(s, c, m);
  }

  lemma {:induction false} NextMeasured(s: Settings, c: Conf, m: Message)
    requires Sendable(s, c, m) && m.content.Measured?
    ensures Done(s, c, m).p.state == Next(LineOf(c.p.line, m), KeepsOpen(s, c, m))
    ensures Done(s, c, m).p.line == LineOf(c.p.line, m)
  {
    MeasuredKnown(s, c, m);
    MeasuredNext(AtEnd(c, m).p, SaidByAll(m.fields), Answer(s, c, m));
  }

  lemma MeasuredExpected(s: Settings, c: Conf, m: Message)
    requires Startable(m) && Fitting(s, c, m) && m.content.Measured?
    ensures var said := SaidByAll(m.fields); !said.coded && !said.chunked && said.length.Some?
    ensures !Skips(Answer(s, c, m)) && Going(s, c, m).Length?
  {
  }

  lemma {:induction false} MeasuredKnown(s: Settings, c: Conf, m: Message)
    requires Sendable(s, c, m) && m.content.Measured?
    ensures var p, said, answer := AtEnd(c, m).p, SaidByAll(m.fields), Answer(s, c, m);
            Knows(p, said) && p.line == LineOf(c.p.line, m) && !said.coded && !said.chunked && said.length.Some? &&
            !Skips(answer) && HeadRead(s, c, m).p == Answered(p, said, answer).(state := BodyIdentity)
  {
    MeasuredExpected(s, c, m);
    KnownAtEnd(s, c, m);
  }

  lemma {:induction false} NextChunks(s: Settings, c: Conf, m: Message)
    requires Sendable(s, c, m) && m.content.InChunks?
    ensures Done(s, c, m).p.state == Next(LineOf(c.p.line, m), KeepsOpen(s, c, m))
    ensures Done(s, c, m).p.line == LineOf(c.p.line, m)
  {
    var d, chunks, trailers := HeadRead(s, c, m), m.content.chunks, m.content.trailers;
    var p, said, answer := AtEnd(c, m).p, SaidByAll(m.fields), Answer(s, c, m);
    var q := AfterFields(AtTrailers(d, chunks), trailers).p;
    ChunksKnown(s, c, m);
    TrailersTold(s, c, m);
    assert q.line == p.line && NewMessage(q) == Next(p.line, StaysOpen(p.line, SaidIn(m), false)) by {
      ChunksNext(p, q, said, SaidByAll(trailers), answer, chunks, d);
    }
    DoneOfChunks(s, c, m);
  }

  lemma DoneOfChunks(s: Settings, c: Conf, m: Message)
    requires Startable(m) && m.content.InChunks?
    ensures var q := AfterFields(AtTrailers(HeadRead(s, c, m), m.content.chunks), m.content.trailers).p;
            Done(s, c, m).p == q.(state := NewMessage(q))
  {
  }

  lemma ChunksExpected(s: Settings, c: Conf, m: Message)
    requires Startable(m) && Fitting(s, c, m) && m.content.InChunks?
    ensures Going(s, c, m) == Chunks && SaidByAll(m.fields).chunked && !Skips(Answer(s, c, m))
    ensures SaidByAll(m.content.trailers).length == None
  {
  }

  lemma {:induction false} ChunksKnown(s: Settings, c: Conf, m: Message)
    requires Sendable(s, c, m) && m.content.InChunks?
    ensures var p, said, answer := AtEnd(c, m).p, SaidByAll(m.fields), Answer(s, c, m);
            Knows(p, said) && p.line == LineOf(c.p.line, m) && said.chunked && !Skips(answer) &&
            HeadRead(s, c, m).p == Answered(p, said, answer).(state := ChunkSizeStart) &&
            SaidByAll(m.content.trailers).length == None
  {
    ChunksExpected(s, c, m);
    KnownAtEnd(s, c, m);
  }

  lemma {:induction false} TrailersTold(s: Settings, c: Conf, m: Message)
    requires Sendable(s, c, m) && m.content.InChunks?
    ensures var t := AtTrailers(HeadRead(s, c, m), m.content.chunks);
            SameButMatcher(Told(t.p, SaidByAll(m.content.trailers)), AfterFields(t, m.content.trailers).p)
  {
    ReadyBehind(s, c, m);
    ChunksDelivered(s, HeadRead(s, c, m), m.content.chunks, m.content.trailers);
  }

  /** Behind a message the parser waits for the next one exactly if the fields let the connection stay open; otherwise
      it is dead. Behind one without an end it goes on reading the body. */
  lemma {:induction false} BehindMessage(s: Settings, c: Conf, m: Message)
    requires Sendable(s, c, m)
    ensures var d := Done(s, c, m);
            d.p.line == LineOf(c.p.line, m) &&
            d.p.state == if m.content.ToTheEnd? then BodyIdentityEof else Next(d.p.line, KeepsOpen(s, c, m))
  {
    match m.content
    case Nothing => NextBare(s, c, m);
    case Measured(_) => NextMeasured(s, c, m);
    case InChunks(_, _) => NextChunks(s, c, m);
    case ToTheEnd(_) => KnownAtEnd(s, c, m);
  }

  lemma {:induction false} ListensAgain(s: Settings, c: Conf, m: Message)
    requires Sendable(s, c, m) && KeepsOpen(s, c, m) && !LeavesHttp(s, c, m)
    ensures Listening(Done(s, c, m)) && Done(s, c, m).nread == Counts(m.content)
  {
    MessageRun(s, c, m);
    RunInv(s, c, Text(m));
    BehindMessage(s, c, m);
    if m.content.InChunks? {
      ReadyBehind(s, c, m);
      ChunksDelivered(s, HeadRead(s, c, m), m.content.chunks, m.content.trailers);
    }
  }

  /** How much of the header limit is used up before the next message: a trailer section counts on. */
  function Counts(content: Content): nat {
    if content.InChunks? then |H.Lines(content.trailers)| + 2 else 0
  }
}
