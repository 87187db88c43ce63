/** Requests on a connection: whatever is written one after another with the content that the fields announce is
    delivered whole, and each message begins where the one before it ends. */
module ConnectionRoundTrip {
  import opened Sequences
  import opened Options
  import opened HttpBytes
  import opened HttpHeaderText
  import opened HttpParserTypes
  import opened HttpParserArms
  import opened HttpParserRun
  import opened HttpParserNames
  import opened HttpParserValues
  import opened HttpParserLists
  import opened HttpParserStartLine
  import opened HttpParserHeaderLines
  import opened HttpParserRequests
  import opened HttpParserSaid
  import opened HttpParserHeadEnd
  import opened ChunkedCoding
  import opened ChunkedParse
  import opened MessageRoundTrip
  import H = HeaderFields

  // ---------- many messages ----------

  function AllText(ms: seq<Message>): string {
    if ms == [] then "" else Text(ms[0]) + AllText(ms[1..])
  }

  function AllEvents(ms: seq<Message>): seq<Event> {
    if ms == [] then [] else Events(ms[0]) + AllEvents(ms[1..])
  }

  /** The start line of a request, whatever message came before it. */
  function RequestLineOf(m: Message): StartLine
    requires Startable(m) && m.start.RequestStart?
  {
    StartLine(Request, m.start.verb, Digit(m.major), Digit(m.minor), 0)
  }

  function RequestGoing(s: Settings, m: Message): Expected
    requires Startable(m) && m.start.RequestStart?
  {
    Expects(s, RequestLineOf(m), SaidByAll(m.fields), 0)
  }

  /** A request whose content is the one that its fields announce, that leaves the connection open, and that does not
      ask for another protocol. */
  predicate PlainRequest(s: Settings, m: Message) {
    m.start.RequestStart? && Writable(m) && Suits(s, m.content, RequestGoing(s, m)) &&
    !m.content.ToTheEnd? && StaysOpen(RequestLineOf(m), SaidIn(m), false) &&
    !AsksToSwitch(RequestLineOf(m), SaidByAll(m.fields))
  }

  /** A parser for requests whose on_headers_complete does not interfere. */
  ghost predicate Serving(s: Settings, c: Conf) {
    Listening(c) && c.p.state.StartReq? && forall log :: s.onHeadersComplete(log) == 0
  }

  /** Every head is within the header limit, with what a trailer section before it has used up. */
  predicate HeadsFit(s: Settings, nread: nat, ms: seq<Message>)
    decreases |ms|
  {
    ms == [] || (nread + |Head(ms[0])| <= s.limit && HeadsFit(s, Counts(ms[0].content), ms[1..]))
  }

  lemma {:induction false} RequestIsSendable(s: Settings, c: Conf, m: Message)
    requires Serving(s, c) && PlainRequest(s, m) && c.nread + |Head(m)| <= s.limit
    ensures Sendable(s, c, m) && KeepsOpen(s, c, m) && !LeavesHttp(s, c, m)
  {
    var line := LineOf(c.p.line, m);
    assert line == RequestLineOf(m).(statusCode := line.statusCode);
    assert Answer(s, c, m) == 0;
    RequestStatus(s, RequestLineOf(m), SaidByAll(m.fields), line.statusCode);
    RequestStatus(s, RequestLineOf(m), SaidIn(m), line.statusCode);
  }

  /** A request has no status code that could matter. */
  lemma RequestStatus(s: Settings, line: StartLine, said: Said, code: nat)
    requires line.kind == Request
    ensures Expects(s, line.(statusCode := code), said, 0) == Expects(s, line, said, 0)
    ensures StaysOpen(line.(statusCode := code), said, false) == StaysOpen(line, said, false)
    ensures AsksToSwitch(line.(statusCode := code), said) == AsksToSwitch(line, said)
  {
  }

  /** Plain requests written one after another on a connection are delivered one by one, each with the method, URL,
      fields, body and trailer it was written with, and the parser listens for the next. */
  lemma {:induction false} ConnectionRun(s: Settings, c: Conf, ms: seq<Message>)
    requires Serving(s, c) && HeadsFit(s, c.nread, ms) && forall i :: 0 <= i < |ms| ==> PlainRequest(s, ms[i])
    ensures var r := RunOf(s, c, AllText(ms)); r.Ran? && r.c.log == c.log + AllEvents(ms) && Serving(s, r.c)
    decreases |ms|
  {
    if ms == [] {
      assert c.log + [] == c.log;
    } else {
      var m, more, d := ms[0], ms[1..], Done(s, c, ms[0]);
      OneOfMany(s, c, m);
      ConnectionRun(s, d, more);
      RunThenRun(s, c, Text(m), AllText(more), d, RunOf(s, d, AllText(more)).c);
      Regroup(c.log, Events(m), AllEvents(more));
    }
  }

  lemma {:induction false} OneOfMany(s: Settings, c: Conf, m: Message)
    requires Serving(s, c) && PlainRequest(s, m) && c.nread + |Head(m)| <= s.limit
    ensures var d := Done(s, c, m);
            RunOf(s, c, Text(m)) == Ran(d) && d.log == c.log + Events(m) && Serving(s, d) &&
            d.nread == Counts(m.content)
  {
    RequestIsSendable(s, c, m);
    MessageRun(s, c, m);
    MessageDelivered(s, c, m);
    ListensAgain(s, c, m);
    BehindMessage(s, c, m);
  }

  // ---------- a chunked request ----------

  lemma {:induction false} SaidByConcat(a: seq<H.Field>, b: seq<H.Field>)
    ensures SaidByAll(a + b) == Together(SaidByAll(a), SaidByAll(b))
    ensures AllClear(a) && AllClear(b) && (SaidByAll(a).length == None || SaidByAll(b).length == None) ==>
              AllClear(a + b)
    decreases |a|
  {
    if a == [] {
      assert a + b == b;
    } else {
      assert (a + b)[1..] == a[1..] + b;
      SaidByConcat(a[1..], b);
    }
  }

  /** Fields without a say in the framing. */
  predicate Bystanders(fields: seq<H.Field>) {
    forall i :: 0 <= i < |fields| ==> Clear(fields[i]) && Neutral(fields[i].name)
  }

  lemma {:induction false} BystandersSay(fields: seq<H.Field>)
    requires Bystanders(fields)
    ensures AllClear(fields)
    ensures var said := SaidByAll(fields); !said.coded && !said.chunked && !said.upgrade && said.length == None
    decreases |fields|
  {
    if fields != [] {
      BystandersSay(fields[1..]);
      assert Clear(fields[0]) && Neutral(fields[0].name);
      ChunkedIsCoded();
    }
  }

  lemma ChunkedIsCoded()
    ensures StartsLikeTe(TRANSFER_ENCODING_NAME)
  {
    assert TRANSFER_ENCODING_NAME[..|TRANSFER_ENCODING_NAME|] == TRANSFER_ENCODING_NAME;
  }

  /** A Transfer-Encoding field, in any capitalisation, whose last coding is "chunked". */
  predicate ChunkedField(f: H.Field) {
    Clear(f) && LowerToken(f.name) == TRANSFER_ENCODING_NAME && EndsWithWord(TrimLeft(f.value), CHUNKED_WORD)
  }

  function ChunkedRequest(verb: Method, target: string, before: seq<H.Field>, te: H.Field, after: seq<H.Field>,
                          chunks: seq<string>): Message
  {
    Message(RequestStart(verb, target), '1', '1', before + [te] + after, InChunks(chunks, []))
  }

  lemma {:induction false} ChunkedSays(before: seq<H.Field>, te: H.Field, after: seq<H.Field>)
    requires Bystanders(before) && Bystanders(after) && ChunkedField(te)
    ensures AllClear(before + [te] + after)
    ensures var said := SaidByAll(before + [te] + after);
            said.coded && said.chunked && !said.upgrade && said.length == None
  {
    BystandersSay(before);
    BystandersSay(after);
    CodingsSaid(te);
    DistinctLength();
    assert [te][1..] == [] && AllClear([te]) && SaidByAll([te]) == Together(SaidBy(te), NOTHING);
    SaidByConcat(before, [te]);
    SaidByConcat(before + [te], after);
  }

  lemma DistinctLength()
    ensures TRANSFER_ENCODING_NAME != CONTENT_LENGTH_NAME && TRANSFER_ENCODING_NAME != UPGRADE_NAME
  {
    assert TRANSFER_ENCODING_NAME[0] == 't' && CONTENT_LENGTH_NAME[0] == 'c' && UPGRADE_NAME[0] == 'u';
  }

  lemma {:induction false} ChunkedSendable(s: Settings, c: Conf, m: Message)
    requires Serving(s, c) && m.start.RequestStart? && m.start.verb != CONNECT && Writable(m)
    requires c.nread + |Head(m)| <= s.limit && m.content.InChunks? && ChunksFit(s, m.content)
    requires var said := SaidByAll(m.fields); said.coded && said.chunked && !said.upgrade && said.length == None
    ensures Sendable(s, c, m) && !LeavesHttp(s, c, m)
  {
    var line, said := LineOf(c.p.line, m), SaidByAll(m.fields);
    assert Answer(s, c, m) == 0;
    assert Expects(s, line, said, 0) == Chunks && !Switches(line, said, 0) by { ChunkedExpected(s, line, said); }
  }

  lemma ChunkedExpected(s: Settings, line: StartLine, said: Said)
    requires said.coded && said.chunked && !said.upgrade && said.length == None && line.verb != CONNECT
    ensures Expects(s, line, said, 0) == Chunks && !Switches(line, said, 0)
  {
  }

  lemma {:induction false} ChunkedMessageRun(s: Settings, c: Conf, m: Message)
    requires Serving(s, c) && m.start.RequestStart? && m.start.verb != CONNECT && Writable(m)
    requires c.nread + |Head(m)| <= s.limit && m.content.InChunks? && ChunksFit(s, m.content)
    requires var said := SaidByAll(m.fields); said.coded && said.chunked && !said.upgrade && said.length == None
    ensures var r := RunOf(s, c, Text(m)); r.Ran? && r.c.log == c.log + Events(m)
  {
    assert Sendable(s, c, m) && !LeavesHttp(s, c, m) by { ChunkedSendable(s, c, m); }
    MessageRun(s, c, m);
    MessageDelivered(s, c, m);
  }

  lemma NoTrailers(chunks: seq<string>)
    ensures ChunksText(chunks, []) == Encode(chunks) + LAST_CHUNK
    ensures ChunksEvents(chunks, []) == AllChunkEvents(chunks) + [ChunkHeader(0), ChunkComplete, MessageComplete]
  {
    assert LAST_CHUNK == (Hex(0) + CRLF) + ("" + ([CR] + [LF]));
    assert H.Lines([]) == "" && FieldEvents([]) == [];
  }

  function ChunkedText(verb: Method, target: string, fields: seq<H.Field>, chunks: seq<string>): string {
    RequestLine(verb, target, '1', '1') + (H.Lines(fields) + ([CR] + [LF])) + (Encode(chunks) + LAST_CHUNK)
  }

  function ChunkedCallbacks(target: string, fields: seq<H.Field>, chunks: seq<string>): seq<Event> {
    [MessageBegin, Data(Url, target)] + FieldEvents(fields) +
    ([HeadersComplete] + (AllChunkEvents(chunks) + [ChunkHeader(0), ChunkComplete, MessageComplete]))
  }

  lemma ChunkedIsWritten(m: Message, chunks: seq<string>)
    requires m.start.RequestStart? && m.major == '1' && m.minor == '1' && m.content == InChunks(chunks, [])
    ensures Text(m) == ChunkedText(m.start.verb, m.start.target, m.fields, chunks)
    ensures Events(m) == ChunkedCallbacks(m.start.target, m.fields, chunks)
  {
    NoTrailers(chunks);
  }

  /** A request with a Transfer-Encoding field that ends in "chunked", among other fields, is read as chunks: for each
      chunk its header, its data and its completion are delivered, and behind the last chunk the message is complete. */
  lemma {:induction false} ChunkedRequestRun(s: Settings, c: Conf, verb: Method, target: string, before: seq<H.Field>,
      te: H.Field, after: seq<H.Field>, chunks: seq<string>)
    requires Serving(s, c) && verb != CONNECT && target != "" && WalksToEnd(verb, target)
    requires Bystanders(before) && Bystanders(after) && ChunkedField(te) && AllFit(s, chunks) && s.limit >= 3
    requires c.nread + |RequestLine(verb, target, '1', '1')| + |H.Lines(before + [te] + after)| + 2 <= s.limit
    ensures var r := RunOf(s, c, ChunkedText(verb, target, before + [te] + after, chunks));
            r.Ran? && r.c.log == c.log + ChunkedCallbacks(target, before + [te] + after, chunks)
  {
    var m := ChunkedRequest(verb, target, before, te, after, chunks);
    ChunkedSays(before, te, after);
    ChunkedMessageRun(s, c, m);
    ChunkedIsWritten(m, chunks);
  }

  /** The word alone, in any capitalisation, is such a value. */
  lemma {:induction false} ChunkedAloneField(f: H.Field)
    requires H.Encodable(f) && LowerToken(f.name) == TRANSFER_ENCODING_NAME && SameWord(f.value, CHUNKED_WORD)
    ensures ChunkedField(f)
  {
    ChunkedAlone(f.value);
    DistinctNames(LowerToken(f.name));
  }

  /** A parser for requests listens from http_parser_init on. */
  lemma InitServes(s: Settings)
    requires forall log :: s.onHeadersComplete(log) == 0
    ensures Serving(s, Conf(Init(Request), 0, []))
  {
  }
}
