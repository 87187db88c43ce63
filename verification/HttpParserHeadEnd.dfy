/** The end of a header section: what the fields say decides how the message goes on. */
module HttpParserHeadEnd {
  import opened Options
  import opened HttpBytes
  import opened HttpParserTypes
  import opened HttpParserArms
  import opened HttpParserRun
  import opened HttpParserStretch
  import opened HttpParserHeaderLines
  import opened HttpParserRequests
  import opened HttpParserSaid

  /** How a message goes on behind its header section. */
  datatype Expected =
    | Refused(code: ErrorCode)
    | OtherProtocol     // the message ends here and the connection leaves HTTP
    | Empty             // the message ends here
    | Length(n: nat)    // a body of so many bytes
    | Chunks
    | Rest              // a body up to the end of the stream

  /** The parser knows exactly what the fields of the message say. */
  predicate Knows(p: Parser, said: Said) {
    p.usesTE == said.coded && p.contentLength == (if said.length.Some? then said.length.value else ULLONG_MAX) &&
    p.flags == Flags(said.chunked, said.keepAlive, said.close, said.connUpgrade, false, said.upgrade, false,
                     said.length.Some?)
  }

  lemma ToldAfresh(p: Parser, q: Parser, said: Said)
    requires p.flags == NO_FLAGS && !p.usesTE && p.contentLength == ULLONG_MAX && SameButMatcher(Told(p, said), q)
    ensures Knows(q, said) && q.line == p.line
  {
  }

  /** A status code that goes with a message without a body. */
  predicate BodylessStatus(code: nat) {
    code / 100 == 1 || code == 204 || code == 304
  }

  /** The fields themselves ask for another protocol, or the method does. */
  predicate AsksToSwitch(line: StartLine, said: Said) {
    if said.upgrade && said.connUpgrade then line.kind == Request || line.statusCode == 101 else line.verb == CONNECT
  }

  /** The callback may answer that there is no body (1), or no body and another protocol (2). */
  predicate Switches(line: StartLine, said: Said, answer: int) {
    answer == 2 || AsksToSwitch(line, said)
  }

  predicate Skips(answer: int) {
    answer == 1 || answer == 2
  }

  /** Both a length and a transfer coding. */
  predicate Contradictory(s: Settings, said: Said) {
    said.coded && said.length.Some? && !(if said.chunked then s.allowChunkedLength else s.lenient)
  }

  predicate HasBody(said: Said) {
    said.chunked || (said.length.Some? && said.length.value > 0)
  }

  /** How a message goes on, given its start line, what its fields say, and the answer of on_headers_complete. */
  function Expects(s: Settings, line: StartLine, said: Said, answer: int): Expected {
    if Contradictory(s, said) then Refused(UnexpectedContentLength)
    else if answer < 0 || answer > 2 then Refused(CbHeadersComplete)
    else if Switches(line, said, answer) && (line.verb == CONNECT || Skips(answer) || !HasBody(said)) then
      OtherProtocol
    else if Skips(answer) then Empty
    else if said.chunked then Chunks
    else if said.coded then
      if line.kind == Request && !s.lenient then Refused(InvalidTransferEncoding) else Rest
    else match said.length
      case Some(n) => if n == 0 then Empty else Length(n)
      case None => if line.kind == Request || BodylessStatus(line.statusCode) then Empty else Rest
  }

  /** Another message may follow on the connection. */
  predicate StaysOpen(line: StartLine, said: Said, skips: bool) {
    (if line.major > 0 && line.minor > 0 then !said.close else said.keepAlive) &&
    (line.kind == Request || BodylessStatus(line.statusCode) || skips || said.chunked ||
     (!said.coded && said.length.Some?))
  }

  /** Where a parser goes behind a message. */
  function Next(line: StartLine, open: bool): State {
    if !open then Dead else if line.kind == Request then StartReq else StartRes
  }

  /** The parser once on_headers_complete has answered. */
  function Answered(p: Parser, said: Said, answer: int): Parser {
    p.(upgrade := Switches(p.line, said, answer), flags := p.flags.(skipBody := Skips(answer)))
  }

  /** The state in which the message goes on. */
  function StateFor(line: StartLine, said: Said, answer: int, e: Expected): State {
    match e
    case Length(_) => BodyIdentity
    case Chunks => ChunkSizeStart
    case Rest => BodyIdentityEof
    case _ => Next(line, StaysOpen(line, said, Skips(answer)))
  }

  function EventsFor(e: Expected): seq<Event> {
    match e
    case OtherProtocol => [HeadersComplete, MessageComplete]
    case Empty => [HeadersComplete, MessageComplete]
    case Refused(code) => if code == UnexpectedContentLength then [] else [HeadersComplete]
    case _ => [HeadersComplete]
  }

  /** The configuration behind the empty line. */
  function BehindHead(s: Settings, c: Conf, said: Said, answer: int): Conf {
    var e := Expects(s, c.p.line, said, answer);
    Conf(Answered(c.p, said, answer).(state := StateFor(c.p.line, said, answer, e)), 0, c.log + EventsFor(e))
  }

  // ---------- the two arms ----------

  lemma NextIsNewMessage(p: Parser, said: Said, answer: int)
    requires Knows(p, said) && (said.length.Some? ==> said.length.value < ULLONG_MAX)
    ensures NewMessage(Answered(p, said, answer)) == Next(p.line, StaysOpen(p.line, said, Skips(answer)))
  {
  }

  function AtHeadersDone(c: Conf, said: Said, answer: int): Conf {
    Conf(Answered(c.p, said, answer).(state := HeadersDone), c.nread, c.log + [HeadersComplete])
  }

  lemma CompleteArm(s: Settings, p: Parser, said: Said, answer: int)
    requires p.state.HeadersAlmostDone? && Knows(p, said)
    ensures HeadersAlmostDoneArm(s, p, LF, answer) ==
            if Contradictory(s, said) then Error(UnexpectedContentLength)
            else if answer < 0 || answer > 2 then Error(CbHeadersComplete)
            else Again(Answered(p, said, answer).(state := HeadersDone), Some(HeadersComplete))
  {
  }

  /** The end of the header section is reached. */
  lemma {:induction false} CompleteOf(s: Settings, c: Conf, said: Said, answer: int)
    requires c.p.state.HeadersAlmostDone? && Knows(c.p, said) && answer == s.onHeadersComplete(c.log)
    ensures ArmOf(s, c, LF) ==
            if Contradictory(s, said) then Failed(UnexpectedContentLength, c.log)
            else if answer < 0 || answer > 2 then Failed(CbHeadersComplete, c.log + [HeadersComplete])
            else Repeats(AtHeadersDone(c, said, answer))
  {
    CompleteArm(s, c.p, said, answer);
  }

  /** The parser that the done arm leaves, or the error. */
  lemma DoneArm(s: Settings, p: Parser, said: Said, answer: int)
    requires Knows(p, said) && (said.length.Some? ==> said.length.value < ULLONG_MAX) && 0 <= answer <= 2
    requires !Contradictory(s, said)
    ensures var e, q := Expects(s, p.line, said, answer), Answered(p, said, answer);
            var next := q.(state := StateFor(p.line, said, answer, e));
            HeadersDoneArm(s, q.(state := HeadersDone), LF) ==
            match e
            case Refused(code) => Error(code)
            case OtherProtocol => Upgraded(next, Some(MessageComplete))
            case Empty => Consume(next, Some(MessageComplete))
            case _ => Consume(next, None)
  {
    NextIsNewMessage(p, said, answer);
  }

  /** What the switch makes of the LF once the header section is complete. */
  lemma {:induction false} DoneOf(s: Settings, c: Conf, said: Said, answer: int)
    requires Knows(c.p, said) && (said.length.Some? ==> said.length.value < ULLONG_MAX) && 0 <= answer <= 2
    requires !Contradictory(s, said)
    ensures var d, e := AtHeadersDone(c, said, answer), Expects(s, c.p.line, said, answer);
            Chain(s, d, LF) ==
            match e
            case Refused(code) => Failed(code, c.log + [HeadersComplete])
            case OtherProtocol => Leaves(BehindHead(s, c, said, answer))
            case _ => Consumed(BehindHead(s, c, said, answer))
  {
    var d, e := AtHeadersDone(c, said, answer), Expects(s, c.p.line, said, answer);
    DoneArm(s, c.p, said, answer);
    assert Arm(s, d.p, LF, s.onHeadersComplete(d.log)) == HeadersDoneArm(s, d.p, LF);
    assert c.log + [HeadersComplete] + [MessageComplete] == c.log + [HeadersComplete, MessageComplete];
  }

  /** How the run over the empty line ends. */
  function HeadOutcome(s: Settings, c: Conf, said: Said, answer: int): Run {
    match Expects(s, c.p.line, said, answer)
    case Refused(code) => RanFailed(code, 1, c.log + EventsFor(Refused(code)))
    case OtherProtocol => RanUpgraded(BehindHead(s, c, said, answer), 2)
    case _ => Ran(BehindHead(s, c, said, answer))
  }

  /** The empty line ends the header section, and the message goes on as its fields say. */
  lemma {:induction false} HeadEndRun(s: Settings, c: Conf, said: Said, answer: int)
    requires c.p.state.HeaderFieldStart? && Knows(c.p, said) && c.nread + 2 <= s.limit
    requires said.length.Some? ==> said.length.value < ULLONG_MAX
    requires answer == s.onHeadersComplete(c.log)
    ensures RunOf(s, c, [CR] + [LF]) == HeadOutcome(s, c, said, answer)
  {
    var d := Conf(c.p.(state := HeadersAlmostDone), c.nread + 1, c.log);
    assert RunOf(s, c, [CR]) == Ran(d) by { HeadCrRun(s, c); }
    assert BehindHead(s, Counted(d), said, answer) == BehindHead(s, c, said, answer);
    HeadLf(s, d, said, answer);
    LastStep(s, c, d);
  }

  /** The run over the CR and the LF, from what the LF does. */
  lemma LastStep(s: Settings, c: Conf, d: Conf)
    requires RunOf(s, c, [CR]) == Ran(d)
    ensures RunOf(s, c, [CR] + [LF]) ==
            match Step(s, d, LF)
            case Consumed(e) => Ran(e)
            case Leaves(e) => RanUpgraded(e, 2)
            case Failed(errno, log) => RanFailed(errno, 1, log)
            case _ => RanAssertFailed
  {
    RunSnoc(s, c, [CR], LF);
  }

  lemma {:induction false} HeadLf(s: Settings, c: Conf, said: Said, answer: int)
    requires c.p.state.HeadersAlmostDone? && Knows(c.p, said) && c.nread < s.limit
    requires said.length.Some? ==> said.length.value < ULLONG_MAX
    requires answer == s.onHeadersComplete(c.log)
    ensures Step(s, c, LF) ==
            match Expects(s, c.p.line, said, answer)
            case Refused(code) => Failed(code, c.log + EventsFor(Refused(code)))
            case OtherProtocol => Leaves(BehindHead(s, Counted(c), said, answer))
            case _ => Consumed(BehindHead(s, Counted(c), said, answer))
  {
    CompleteOf(s, Counted(c), said, answer);
    if !Contradictory(s, said) && 0 <= answer <= 2 {
      DoneOf(s, Counted(c), said, answer);
    } else {
      assert c.log + [] == c.log;
    }
  }
}
