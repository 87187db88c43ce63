/** Requests on a connection: whatever requests with a Content-Length are written one after another, the parser
    delivers each of them whole, and the next begins where it ends. */
module RequestRoundTrip {
  import opened Sequences
  import opened Options
  import opened HttpBytes
  import opened HttpHeaderText
  import opened HttpParserTypes
  import opened HttpParserArms
  import opened HttpParserRun
  import opened HttpParserInvariant
  import opened HttpParserFraming
  import opened HttpParserFramingRuns
  import opened HttpParserStartLine
  import opened HttpParserHeaderLines
  import opened HttpParserRequests
  import H = HeaderFields

  datatype Message = Message(verb: Method, target: string, before: seq<H.Field>, length: H.Field, after: seq<H.Field>,
                             body: string)

  /** The header fields of the message, as they are read. */
  function Pairs(fields: seq<H.Field>): seq<(string, string)> {
    if fields == [] then [] else [(fields[0].name, TrimLeft(fields[0].value))] + Pairs(fields[1..])
  }

  lemma {:induction false} PairsConcat(a: seq<H.Field>, b: seq<H.Field>)
    ensures Pairs(a + b) == Pairs(a) + Pairs(b)
    decreases |a|
  {
    if a == [] {
      assert a + b == b;
    } else {
      assert (a + b)[1..] == a[1..] + b;
      PairsConcat(a[1..], b);
    }
  }

  lemma {:induction false} PairsAt(fields: seq<H.Field>, i: nat)
    requires i < |fields|
    ensures |Pairs(fields)| == |fields| && Pairs(fields)[i] == (fields[i].name, TrimLeft(fields[i].value))
    decreases |fields|
  {
    if |fields| > 1 {
      PairsAt(fields[1..], if i > 0 then i - 1 else 0);
    }
  }

  lemma {:induction false} PairDelivered(log: seq<Event>, name: string, value: string)
    requires !EndsIn(log, Field)
    ensures Fields(log + [Data(Field, name), Data(Value, value)]) == Fields(log) + [(name, value)]
  {
    var named := log + [Data(Field, name)];
    FieldsQuiet(log, Some(Data(Field, name)));
    assert named[|named| - 1] == Data(Field, name);
    FieldsNewValue(named, value);
    assert log + [Data(Field, name), Data(Value, value)] == named + [Data(Value, value)];
  }

  /** The delivered fields are those of the message. */
  lemma {:induction false} FieldsOfEvents(log: seq<Event>, fields: seq<H.Field>)
    requires !EndsIn(log, Field)
    ensures Fields(log + FieldEvents(fields)) == Fields(log) + Pairs(fields)
    decreases |fields|
  {
    if fields == [] {
      assert log + [] == log;
    } else {
      var name, value := fields[0].name, TrimLeft(fields[0].value);
      var both := log + [Data(Field, name), Data(Value, value)];
      PairDelivered(log, name, value);
      assert both[|both| - 1] == Data(Value, value);
      FieldsOfEvents(both, fields[1..]);
      Regroup(log, [Data(Field, name), Data(Value, value)], FieldEvents(fields[1..]));
      Regroup(Fields(log), [(name, value)], Pairs(fields[1..]));
    }
  }

  function AllFields(m: Message): seq<H.Field> {
    m.before + [m.length] + m.after
  }

  function Section(m: Message): string {
    H.Lines(m.before) + H.Line(m.length) + H.Lines(m.after)
  }

  function Head(m: Message): string {
    RequestLine(m.verb, m.target, '1', '1') + (Section(m) + ([CR] + [LF]))
  }

  function Text(m: Message): string {
    Head(m) + m.body
  }

  function HeadEvents(m: Message): seq<Event> {
    [MessageBegin, Data(Url, m.target)] + FieldEvents(AllFields(m))
  }

  /** What is delivered for a message, pieces joined. */
  function Events(m: Message): seq<Event> {
    HeadEvents(m) + [HeadersComplete] + (if m.body == "" then [] else [Data(Body, m.body)]) + [MessageComplete]
  }

  /** A message the writer may send: a URL the parser walks over, one Content-Length with the length of the body,
      and no other field that has a say in the framing. */
  predicate Sendable(m: Message) {
    m.verb != CONNECT && m.target != "" && WalksToEnd(m.verb, m.target) &&
    LengthSection(m.before, m.length, m.after, |m.body|)
  }

  /** A parser for requests between two messages, with callbacks that do not interfere. */
  ghost predicate Listening(s: Settings, c: Conf) {
    Explained(c) && c.p.state.StartReq? && c.p.line.kind == Request && !s.lenient &&
    forall log :: s.onHeadersComplete(log) == 0
  }

  // ---------- the head ----------

  function AtFields(c: Conf, m: Message): Conf {
    AfterRequestLine(c, m.verb, m.target, '1', '1')
  }

  function AtEnd(c: Conf, m: Message): Conf {
    AfterSection(AtFields(c, m), m.before, m.length, m.after)
  }

  lemma {:induction false} LineRead(s: Settings, c: Conf, m: Message)
    requires Listening(s, c) && Sendable(m) && c.nread + |Head(m)| <= s.limit
    ensures RunOf(s, c, RequestLine(m.verb, m.target, '1', '1')) == Ran(AtFields(c, m))
    ensures AtLine(AtFields(c, m)) && AtFields(c, m).log == c.log + [MessageBegin, Data(Url, m.target)]
  {
    RequestLineRun(s, c, m.verb, m.target, '1', '1');
    RunInv(s, c, RequestLine(m.verb, m.target, '1', '1'));
    var log := c.log + [MessageBegin];
    assert Emit(c.log, MessageBegin) == log && !EndsIn(log, Url);
    assert log + [Data(Url, m.target)] == c.log + [MessageBegin, Data(Url, m.target)];
  }

  lemma {:induction false} SectionRead(s: Settings, c: Conf, m: Message, rest: string)
    requires Listening(s, c) && Sendable(m) && c.nread + |Head(m)| <= s.limit && rest != "" && !IsBlank(rest[0])
    ensures LeadsTo(s, AtFields(c, m), Section(m), AtEnd(c, m), FieldEvents(AllFields(m)), rest)
    ensures Announces(AtFields(c, m).p, AtEnd(c, m).p, |m.body|)
  {
    LineRead(s, c, m);
    SectionLeads(s, AtFields(c, m), m.before, m.length, m.after, |m.body|, rest);
    FieldEventsConcat(m.before + [m.length], m.after);
    FieldEventsConcat(m.before, [m.length]);
  }

  /** The fields of the message under way once its head has been read. */
  lemma {:induction false} FieldsRead(c: Conf, m: Message, log: seq<Event>)
    requires log == c.log + [MessageBegin, Data(Url, m.target)] + FieldEvents(AllFields(m))
    ensures Fields(log) == Pairs(AllFields(m))
  {
    var start := c.log + [MessageBegin];
    var line := start + [Data(Url, m.target)];
    assert Fields(start) == [] by {
      assert start[|start| - 1] == MessageBegin;
    }
    assert Fields(line) == [] by {
      FieldsQuiet(start, Some(Data(Url, m.target)));
      assert !EndsIn(start, Url);
    }
    assert line[|line| - 1] == Data(Url, m.target);
    FieldsOfEvents(line, AllFields(m));
    assert line == c.log + [MessageBegin, Data(Url, m.target)];
  }

  /** No field of a sendable message is a transfer coding. */
  lemma {:induction false} NoCoding(m: Message)
    requires Sendable(m)
    ensures !ChunkedSaid(Pairs(AllFields(m)))
  {
    var fields, pairs := AllFields(m), Pairs(AllFields(m));
    PairsAt(fields, 0);
    forall i | 0 <= i < |pairs| ensures LowerToken(pairs[i].0) != TRANSFER_ENCODING_NAME {
      PairsAt(fields, i);
      NameIsNoCoding(m, i);
    }
  }

  lemma NameIsNoCoding(m: Message, i: nat)
    requires Sendable(m) && i < |AllFields(m)|
    ensures LowerToken(AllFields(m)[i].name) != TRANSFER_ENCODING_NAME
  {
    var k := |m.before|;
    if i < k {
      assert Neutral(m.before[i].name);
    } else if i > k {
      assert Neutral(m.after[i - k - 1].name);
    } else {
      LengthIsNotTe();
    }
    TeLikeItself();
  }

  lemma TeLikeItself()
    ensures StartsLikeTe(TRANSFER_ENCODING_NAME)
  {
    StartsLikeTeMore(TRANSFER_ENCODING_NAME[..|TRANSFER_ENCODING_NAME| - 1], 'g');
    assert TRANSFER_ENCODING_NAME[..|TRANSFER_ENCODING_NAME| - 1] + ['g'] == TRANSFER_ENCODING_NAME;
  }

  function AfterCr(c: Conf, m: Message): Conf {
    var e := AtEnd(c, m);
    Conf(e.p.(state := HeadersAlmostDone), e.nread + 1, e.log)
  }

  lemma {:induction false} CrRead(s: Settings, c: Conf, m: Message)
    requires Listening(s, c) && Sendable(m) && c.nread + |Head(m)| <= s.limit
    ensures RunOf(s, c, RequestLine(m.verb, m.target, '1', '1') + (Section(m) + [CR])) == Ran(AfterCr(c, m))
  {
    var e, x := AtEnd(c, m), AfterCr(c, m);
    LineRead(s, c, m);
    SectionRead(s, c, m, [CR]);
    HeadCrRun(s, e);
    RunThenRun(s, c, RequestLine(m.verb, m.target, '1', '1'), Section(m) + [CR], AtFields(c, m), x);
  }

  lemma ExplainedFlags(c: Conf)
    requires Explained(c) && c.p.state.HeadersAlmostDone?
    ensures FlagsSaid(c.p.flags, Fields(c.log))
  {
  }

  lemma EndLog(s: Settings, c: Conf, m: Message)
    requires Listening(s, c) && Sendable(m) && c.nread + |Head(m)| <= s.limit
    ensures AtEnd(c, m).log == c.log + [MessageBegin, Data(Url, m.target)] + FieldEvents(AllFields(m))
    ensures AtEnd(c, m).nread + 2 == c.nread + |Head(m)| && AtEnd(c, m).p.state.HeaderFieldStart?
  {
    LineRead(s, c, m);
    SectionRead(s, c, m, [CR]);
  }

  /** Behind the CR of the empty line the flags are explained by the fields. */
  lemma {:induction false} FlagsRead(s: Settings, c: Conf, m: Message)
    requires Listening(s, c) && Sendable(m) && c.nread + |Head(m)| <= s.limit
    ensures FlagsSaid(AtEnd(c, m).p.flags, Pairs(AllFields(m))) && !AtEnd(c, m).p.flags.chunked
  {
    CrRead(s, c, m);
    RunExplained(s, c, RequestLine(m.verb, m.target, '1', '1') + (Section(m) + [CR]));
    ExplainedFlags(AfterCr(c, m));
    EndLog(s, c, m);
    FieldsRead(c, m, AfterCr(c, m).log);
    NoCoding(m);
  }

  lemma {:induction false} PlainRead(s: Settings, c: Conf, m: Message)
    requires Listening(s, c) && Sendable(m) && c.nread + |Head(m)| <= s.limit
    ensures PlainRequest(AtEnd(c, m).p) && AtEnd(c, m).p.contentLength == |m.body| < ULLONG_MAX
    ensures AtEnd(c, m).p.line == AtFields(c, m).p.line
  {
    FlagsRead(s, c, m);
    SectionRead(s, c, m, [CR]);
  }

  function HeadRead(c: Conf, m: Message): Conf {
    HeadDone(AtEnd(c, m))
  }

  lemma {:induction false} HeadRun(s: Settings, c: Conf, m: Message)
    requires Listening(s, c) && Sendable(m) && c.nread + |Head(m)| <= s.limit
    ensures RunOf(s, c, Head(m)) == Ran(HeadRead(c, m))
  {
    var line, d, e := RequestLine(m.verb, m.target, '1', '1'), AtFields(c, m), AtEnd(c, m);
    var rest := [CR] + [LF];
    LineRead(s, c, m);
    SectionRead(s, c, m, rest);
    EndLog(s, c, m);
    PlainRead(s, c, m);
    HeadEnds(s, e);
    RunThenRun(s, c, line, Section(m) + rest, d, HeadDone(e));
  }

  // ---------- whole messages ----------

  /** The parser behind a message. */
  function Done(c: Conf, m: Message): Conf {
    if m.body == "" then HeadRead(c, m) else BodyDone(HeadRead(c, m), m.body)
  }

  lemma {:induction false} BodyRead(s: Settings, c: Conf, m: Message)
    requires Listening(s, c) && Sendable(m) && c.nread + |Head(m)| <= s.limit && m.body != ""
    ensures RunOf(s, HeadRead(c, m), m.body) == Ran(Done(c, m))
  {
    var d := HeadRead(c, m);
    HeadRun(s, c, m);
    RunInv(s, c, Head(m));
    PlainRead(s, c, m);
    assert d.log[|d.log| - 1] == HeadersComplete;
    BodyRun(s, d, m.body);
  }

  /** A sendable message is delivered whole, and read to its end and no further. */
  lemma {:induction false} MessageRun(s: Settings, c: Conf, m: Message)
    requires Listening(s, c) && Sendable(m) && c.nread + |Head(m)| <= s.limit
    ensures RunOf(s, c, Text(m)) == Ran(Done(c, m))
  {
    HeadRun(s, c, m);
    if m.body == "" {
      assert Text(m) == Head(m);
    } else {
      BodyRead(s, c, m);
      RunThenRun(s, c, Head(m), m.body, HeadRead(c, m), Done(c, m));
    }
  }

  lemma DoneLog(log: seq<Event>, m: Message, e: Conf)
    requires e.log == log + HeadEvents(m) && e.p.contentLength == |m.body|
    ensures var d := HeadDone(e); (if m.body == "" then d else BodyDone(d, m.body)).log == log + Events(m)
  {
    if m.body == "" {
      assert e.log + [HeadersComplete, MessageComplete] == log + Events(m);
    } else {
      assert e.log + [HeadersComplete] + [Data(Body, m.body), MessageComplete] == log + Events(m);
    }
  }

  lemma DoneKeepsLine(e: Conf, body: string)
    ensures var d := HeadDone(e); (if body == "" then d else BodyDone(d, body)).p.line == e.p.line
    ensures var d := HeadDone(e); (if body == "" then d else BodyDone(d, body)).nread == 0
  {
  }

  lemma {:induction false} MessageDelivered(s: Settings, c: Conf, m: Message)
    requires Listening(s, c) && Sendable(m) && c.nread + |Head(m)| <= s.limit
    ensures Done(c, m).log == c.log + Events(m) && Done(c, m).nread == 0
    ensures var l := Done(c, m).p.line; l == c.p.line.(verb := m.verb, major := 1, minor := 1)
  {
    EndLog(s, c, m);
    PlainRead(s, c, m);
    Regroup(c.log, [MessageBegin, Data(Url, m.target)], FieldEvents(AllFields(m)));
    DoneLog(c.log, m, AtEnd(c, m));
    DoneKeepsLine(AtEnd(c, m), m.body);
  }

  /** No Connection field of the message asks for the connection to be closed. */
  predicate StaysOpen(m: Message) {
    !WordSaid(Pairs(AllFields(m)), CLOSE_WORD)
  }

  /** Behind a message that keeps the connection open the parser listens again. */
  lemma {:induction false} ListensAgain(s: Settings, c: Conf, m: Message)
    requires Listening(s, c) && Sendable(m) && c.nread + |Head(m)| <= s.limit && StaysOpen(m)
    ensures Listening(s, Done(c, m))
  {
    MessageRun(s, c, m);
    RunExplained(s, c, Text(m));
    FlagsRead(s, c, m);
    PlainRead(s, c, m);
    MessageDelivered(s, c, m);
  }

  function AllText(ms: seq<Message>): string {
    if ms == [] then "" else Text(ms[0]) + AllText(ms[1..])
  }

  function AllEvents(ms: seq<Message>): seq<Event> {
    if ms == [] then [] else Events(ms[0]) + AllEvents(ms[1..])
  }

  /** Messages written one after another on a connection are delivered one by one, each with the method, URL,
      fields and body it was written with. */
  lemma {:induction false} ConnectionRun(s: Settings, c: Conf, ms: seq<Message>)
    requires Listening(s, c) && c.nread == 0
    requires forall i :: 0 <= i < |ms| ==> Sendable(ms[i]) && |Head(ms[i])| <= s.limit && StaysOpen(ms[i])
    ensures var r := RunOf(s, c, AllText(ms));
            r.Ran? && r.c.log == c.log + AllEvents(ms) && Listening(s, r.c) && r.c.nread == 0
    decreases |ms|
  {
    if ms == [] {
      assert c.log + [] == c.log;
    } else {
      var m, more, d := ms[0], ms[1..], Done(c, ms[0]);
      MessageRun(s, c, m);
      MessageDelivered(s, c, m);
      ListensAgain(s, c, m);
      ConnectionRun(s, d, more);
      RunThenRun(s, c, Text(m), AllText(more), d, RunOf(s, d, AllText(more)).c);
      Regroup(c.log, Events(m), AllEvents(more));
    }
  }
}
