/** What the arms of the start line change, section by section. */
module HttpParserSections {
  import opened Options
  import opened HttpParserTypes
  import opened HttpParserArms

  /** The arm leaves the switch normally. */
  predicate GoesOn(r: Outcome) {
    r.Consume? || r.Again?
  }

  predicate StatusTextState(s: State) {
    s.ResStatus? || s.ResLineAlmostDone?
  }

  /** The states of the status line in which nothing of the message has been delivered. */
  predicate StatusLeadState(s: State) {
    s.ResH? || s.ResHT? || s.ResHTT? || s.ResHTTP? || s.ResHttpMajor? || s.ResHttpDot? || s.ResHttpMinor? ||
    s.ResHttpEnd? || s.ResFirstStatusCode? || s.ResStatusCode? || s.ResStatusStart?
  }

  /** The states of the request line behind the URL. */
  predicate VersionState(s: State) {
    s.ReqHttpStart? || s.ReqHttpH? || s.ReqHttpHT? || s.ReqHttpHTT? || s.ReqHttpHTTP? || s.ReqHttpI? || s.ReqHttpIC? ||
    s.ReqHttpMajor? || s.ReqHttpDot? || s.ReqHttpMinor? || s.ReqHttpEnd? || s.ReqLineAlmostDone?
  }

  /** The status line changes only the state, the start line and the index. */
  lemma StatusLineTouches(p: Parser, ch: char)
    ensures var r := StatusLineArm(p, ch);
            !r.Upgraded? && (GoesOn(r) ==>
              r.p == p.(state := r.p.state, line := r.p.line, index := r.p.index) && r.p.index <= p.index)
  {
  }

  /** Pieces of the status text are delivered in its state only; the line ends at the header section. */
  lemma StatusLineNext(p: Parser, ch: char)
    requires StatusLineState(p.state)
    ensures var r := StatusLineArm(p, ch);
            !r.AssertFails? && (GoesOn(r) ==>
              if r.event.Some? then r.event.value.Data? && r.event.value.element == Status && r.p.state.ResStatus?
              else if StatusTextState(p.state) then r.p.state.ResLineAlmostDone? || r.p.state.HeaderFieldStart?
              else StatusLeadState(r.p.state))
  {
  }

  /** Behind the URL nothing is delivered, and only the state and the start line change. */
  lemma VersionTouches(p: Parser, ch: char)
    ensures var r := RequestVersionArm(p, ch);
            !r.Upgraded? && !r.Again? &&
                (r.Consume? ==> r.event == None && r.p == p.(state := r.p.state, line := r.p.line))
  {
  }

  lemma VersionNext(p: Parser, ch: char)
    requires VersionState(p.state)
    ensures var r := RequestVersionArm(p, ch);
            !r.AssertFails? && (r.Consume? ==> VersionState(r.p.state) || r.p.state.HeaderFieldStart?)
  {
  }

  lemma UrlWalkStays(from: State, ch: char)
    ensures ParseUrlChar(from, ch).Dead? || UrlState(ParseUrlChar(from, ch))
  {
  }

  lemma VersionIsRest(s: State)
    requires RequestLineState(s) && !UrlState(s) && !s.ReqSpacesBeforeUrl?
    ensures VersionState(s)
  {
  }

  /** Inside the URL a byte goes to the walker, or ends the URL and delivers nothing. */
  lemma UrlByteOrEnd(p: Parser, ch: char)
    requires UrlState(p.state)
    ensures var r := UrlArm(p, ch);
            r == UrlByte(p, p.state, ch) || r == Error(InvalidUrl) ||
            (r.Consume? && r.event == None && r.p == p.(state := r.p.state, line := r.p.line) &&
             (VersionState(r.p.state) || r.p.state.HeaderFieldStart?))
  {
  }

  /** Between messages a byte is skipped, or a fresh message begins. */
  lemma BeginTouches(p: Parser, ch: char)
    requires p.state.StartReqOrRes? || p.state.StartRes? || p.state.StartReq?
    ensures var r := StartArm(p, ch);
            !r.Upgraded? && !r.AssertFails? && (GoesOn(r) ==>
              (r == Consume(p, None)) ||
              (r.p.contentLength == ULLONG_MAX && (r.p.index == p.index || r.p.index == 1) &&
               (r.p.state.ResOrRespH? || r.p.state.ResH? || r.p.state.StartReq? ||
                   (r.p.state.ReqMethod? && r.p.index == 1))))
  {
  }

  /** The byte that ends the header section completes the message or chooses the kind of body. */
  lemma HeadersDoneNext(s: Settings, p: Parser, ch: char)
    ensures var r := HeadersDoneArm(s, p, ch);
            !r.Again? && !r.AssertFails? &&
            (r.Consume? || r.Upgraded? ==>
              r.p == p.(state := r.p.state) &&
              (if r.event == None
               then r.Consume? && ((r.p.state.ChunkSizeStart? && p.flags.chunked) || r.p.state.BodyIdentityEof? ||
                                   (r.p.state.BodyIdentity? && CountsDown(p.contentLength)))
               else r.event == Some(MessageComplete) && r.p.state == NewMessage(p)))
  {
  }

  /** All that reading a body may change of the flags, and the callbacks it may make. */
  predicate TouchesBody(p: Parser, r: Outcome) {
    r.Consume? || r.Again? || r.Upgraded? ==>
      r.p.flags == p.flags.(trailing := r.p.flags.trailing) &&
      (r.event == None || r.event.value.ChunkHeader? || r.event.value.ChunkComplete? ||
       r.event.value.MessageComplete? || (r.event.value.Data? && r.event.value.element == Body))
  }

  lemma ChunkHeadTouches(p: Parser, ch: char)
    requires p.state.ChunkSizeStart? || p.state.ChunkSize? || p.state.ChunkSizeAlmostDone?
    ensures TouchesBody(p, BodyArm(p, ch))
  {
  }

  lemma BodyTouches(p: Parser, ch: char)
    ensures TouchesBody(p, BodyArm(p, ch))
  {
    if p.state.ChunkSizeStart? || p.state.ChunkSize? || p.state.ChunkSizeAlmostDone? {
      ChunkHeadTouches(p, ch);
    }
  }

  /** The first byte of a value opens it, or is refused. */
  lemma ValueStartShape(p: Parser, ch: char)
    ensures var r := ValueStartArm(p, ch);
            (r.Consume? && r.p.state == HeaderValue && r.event == Some(Data(Value, [ch]))) ||
            (r.Error? && r.errno != CbHeadersComplete)
  {
  }

  /** A byte that is used up leads to no state in the middle of the end of the header section. */
  predicate Elsewhere(r: Outcome) {
    r.Consume? || r.Upgraded? ==> !r.p.state.HeadersDone?
  }

  lemma StartElsewhere(p: Parser, ch: char)
    ensures Elsewhere(StartArm(p, ch))
  {
  }

  lemma StatusLineElsewhere(p: Parser, ch: char)
    ensures Elsewhere(StatusLineArm(p, ch))
  {
  }

  lemma RequestLineElsewhere(p: Parser, ch: char)
    ensures Elsewhere(RequestLineArm(p, ch))
  {
  }

  lemma ValueElsewhere(s: Settings, p: Parser, ch: char)
    requires p.state.HeaderValue? || p.state.HeaderValueStart? || p.state.HeaderValueDiscardWs?
    ensures Elsewhere(HeaderArm(s, p, ch))
  {
  }

  lemma HeaderElsewhere(s: Settings, p: Parser, ch: char)
    ensures Elsewhere(HeaderArm(s, p, ch))
  {
    if p.state.HeaderValue? || p.state.HeaderValueStart? || p.state.HeaderValueDiscardWs? {
      ValueElsewhere(s, p, ch);
    } else {
      match p.state
      case HeaderFieldStart => case HeaderField =>
      case HeaderValueDiscardWsAlmostDone => case HeaderValueDiscardLws =>
      case HeaderValueLws => case HeaderAlmostDone =>
      case _ =>
    }
  }

  lemma EndElsewhere(s: Settings, p: Parser, ch: char, answer: int)
    ensures Elsewhere(HeadersEndArm(s, p, ch, answer)) && Elsewhere(BodyArm(p, ch))
  {
  }

  lemma ConsumesElsewhere(s: Settings, p: Parser, ch: char, answer: int)
    ensures Elsewhere(Arm(s, p, ch, answer))
  {
    StartElsewhere(p, ch);
    StatusLineElsewhere(p, ch);
    RequestLineElsewhere(p, ch);
    HeaderElsewhere(s, p, ch);
    EndElsewhere(s, p, ch, answer);
  }

  /** Only the count in front of the switch fails with the header limit. */
  predicate NoOverflow(r: Outcome) {
    r.Error? ==> r.errno != HeaderOverflow
  }

  lemma StartNoOverflow(p: Parser, ch: char)
    ensures NoOverflow(StartArm(p, ch))
  {
  }

  lemma StatusLineNoOverflow(p: Parser, ch: char)
    ensures NoOverflow(StatusLineArm(p, ch))
  {
  }

  lemma RequestLineNoOverflow(p: Parser, ch: char)
    ensures NoOverflow(RequestLineArm(p, ch))
  {
  }

  lemma ValueNoOverflow(s: Settings, p: Parser, ch: char)
    requires p.state.HeaderValue? || p.state.HeaderValueStart? || p.state.HeaderValueDiscardWs?
    ensures NoOverflow(HeaderArm(s, p, ch))
  {
  }

  lemma HeaderNoOverflow(s: Settings, p: Parser, ch: char)
    ensures NoOverflow(HeaderArm(s, p, ch))
  {
    if p.state.HeaderValue? || p.state.HeaderValueStart? || p.state.HeaderValueDiscardWs? {
      ValueNoOverflow(s, p, ch);
    }
  }

  lemma EndNoOverflow(s: Settings, p: Parser, ch: char, answer: int)
    ensures NoOverflow(HeadersEndArm(s, p, ch, answer)) && NoOverflow(BodyArm(p, ch))
  {
  }

  lemma NoArmOverflows(s: Settings, p: Parser, ch: char, answer: int)
    ensures NoOverflow(Arm(s, p, ch, answer))
  {
    StartNoOverflow(p, ch);
    StatusLineNoOverflow(p, ch);
    RequestLineNoOverflow(p, ch);
    HeaderNoOverflow(s, p, ch);
    EndNoOverflow(s, p, ch, answer);
  }
}
