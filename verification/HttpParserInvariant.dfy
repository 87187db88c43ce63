/** What every reachable parser satisfies, and why no C assert can fail. */
module HttpParserInvariant {
  import opened Options
  import opened HttpBytes
  import opened HttpParserTypes
  import opened HttpParserArms
  import opened HttpParserRun
  import opened HttpParserSections

  /** The header matchers that run over a field name, with the positions they may stand at. */
  predicate FieldMatcher(h: HState, index: nat) {
    h.HGeneral? || h.HConnection? || h.HContentLength? || h.HTransferEncoding? || h.HUpgrade? ||
    (h.HC? && index == 0) || (h.HCO? && index == 1) || (h.HCON? && index == 2) ||
    (h.HMatchingConnection? && 3 <= index < |CONNECTION_NAME| - 1) ||
    (h.HMatchingContentLength? && 3 <= index < |CONTENT_LENGTH_NAME| - 1) ||
    (h.HMatchingProxyConnection? && index < |PROXY_CONNECTION_NAME| - 1) ||
    (h.HMatchingTransferEncoding? && index < |TRANSFER_ENCODING_NAME| - 1) ||
    (h.HMatchingUpgrade? && index < |UPGRADE_NAME| - 1)
  }

  /** The matchers that run over a field value. */
  predicate ValueMatcher(h: HState, index: nat) {
    h.HGeneral? || h.HContentLengthNum? || h.HContentLengthWs? ||
    h.HMatchingTeToken? || h.HTeChunked? ||
    h.HMatchingConnToken? || h.HConnKeepAlive? || h.HConnClose? || h.HConnUpgrade? ||
    ((h.HMatchingTeTokenStart? || h.HMatchingConnTokenStart?) && index == 0) ||
    (h.HMatchingTeChunked? && index < |CHUNKED_WORD| - 1) ||
    (h.HMatchingConnKeepAlive? && index < |KEEP_ALIVE_WORD| - 1) ||
    (h.HMatchingConnClose? && index < |CLOSE_WORD| - 1) ||
    (h.HMatchingConnUpgrade? && index < |UPGRADE_NAME| - 1)
  }

  /** The states that read a name or wait for the first byte of its value. */
  predicate NamedState(s: State) {
    s.HeaderField? || s.HeaderValueDiscardWs? || s.HeaderValueDiscardWsAlmostDone? || s.HeaderValueDiscardLws?
  }

  /** The states that read a value or its line end. */
  predicate ValuedState(s: State) {
    s.HeaderValue? || s.HeaderAlmostDone? || s.HeaderValueLws? || s.HeaderValueStart?
  }

  predicate ChunkState(s: State) {
    s.ChunkSizeStart? || s.ChunkSize? || s.ChunkParameters? || s.ChunkSizeAlmostDone? || s.ChunkData? ||
    s.ChunkDataAlmostDone? || s.ChunkDataDone?
  }

  /** Ties the state to the matcher, the index, the flags and the length. */
  predicate Good(p: Parser) {
    p.contentLength <= ULLONG_MAX && p.index < 32 &&
    (p.state.ReqMethod? ==> p.index <= |MethodString(p.line.verb)|) &&
    (NamedState(p.state) ==> FieldMatcher(p.hstate, p.index)) &&
    (ValuedState(p.state) ==> ValueMatcher(p.hstate, p.index)) &&
    (ChunkState(p.state) ==> p.flags.chunked) &&
    (ChunkState(p.state) && !p.state.ChunkSizeStart? ==> p.contentLength < ULLONG_MAX) &&
    (p.state.ChunkDataAlmostDone? ==> p.contentLength == 0) &&
    (p.state.ChunkData? || p.state.BodyIdentity? ==> CountsDown(p.contentLength))
  }

  predicate IsPiece(e: Option<Event>, k: Element) {
    e.Some? && e.value.Data? && e.value.element == k
  }

  /** The element whose mark is set while the parser is in a state. */
  function OpenElement(s: State): Option<Element> {
    if UrlState(s) then Some(Url)
    else if s.ResStatus? then Some(Status)
    else if s.HeaderField? then Some(Field)
    else if s.HeaderValue? then Some(Value)
    else None
  }

  /** Whoever enters or stays in such a state has just delivered a piece of its element. */
  predicate Opens(s: State, e: Option<Event>) {
    match OpenElement(s) case None => true case Some(k) => IsPiece(e, k)
  }

  /** An arm of state `s` keeps the invariant, does not fail an assert, and enters a chunk start only
      after resetting `nread`. */
  predicate Keeps(s: State, r: Outcome) {
    match r
    case Consume(q, e) => Good(q) && Opens(q.state, e) && (q.state.ChunkSizeStart? ==> ResetsNread(s))
    case Again(q, e) => Good(q) && Opens(q.state, e) && !q.state.ChunkSizeStart?
    case Upgraded(q, e) => Good(q) && Opens(q.state, e) && !q.state.ChunkSizeStart?
    case Error(_) => true
    case AssertFails => false
  }

  lemma {:induction false} BeginKeeps(p: Parser, ch: char)
    requires Good(p) && (p.state.StartReqOrRes? || p.state.StartRes? || p.state.StartReq?)
    ensures Keeps(p.state, StartArm(p, ch))
  {
    BeginTouches(p, ch);
  }

  lemma {:induction false} CorrectionFits(m: Method, pos: nat, ch: char)
    requires CorrectedMethod(m, pos, ch).Some?
    ensures pos + 1 <= |MethodString(CorrectedMethod(m, pos, ch).value)|
  {
  }

  /** The name recognised may change as long as it is long enough. */
  lemma {:induction false} NextMethodByte(p: Parser, m: Method)
    requires Good(p) && p.state.ReqMethod? && p.index < |MethodString(m)|
    ensures Good(p.(line := p.line.(verb := m), index := p.index + 1))
  {
  }

  lemma {:induction false} MethodKeeps(p: Parser, ch: char)
    requires Good(p) && p.state.ReqMethod?
    ensures Keeps(ReqMethod, ReqMethodArm(p, ch))
  {
    var m := CorrectedMethod(p.line.verb, p.index, ch);
    if p.index < |MethodString(p.line.verb)| {
      NextMethodByte(p, p.line.verb);
    }
    if m.Some? {
      CorrectionFits(p.line.verb, p.index, ch);
      NextMethodByte(p, m.value);
    }
  }

  lemma {:induction false} StartKeeps(p: Parser, ch: char)
    requires Good(p) && StartState(p.state)
    ensures Keeps(p.state, StartArm(p, ch))
  {
    if p.state.StartReqOrRes? || p.state.StartRes? || p.state.StartReq? {
      BeginKeeps(p, ch);
    } else if p.state.ReqMethod? {
      MethodKeeps(p, ch);
    }
  }

  /** States that ask nothing of the parser and have no open element. */
  predicate FreeState(s: State) {
    OpenElement(s).None? && !s.ReqMethod? && !NamedState(s) && !ValuedState(s) && !ChunkState(s) && !s.BodyIdentity?
  }

  lemma FreeIsGood(p: Parser, q: Parser)
    requires Good(p) && FreeState(q.state) && q.contentLength == p.contentLength && q.index <= p.index
    ensures Good(q)
  {
  }

  lemma StartLineIsFree(s: State)
    requires StatusLeadState(s) || s.ResLineAlmostDone? || VersionState(s) || s.HeaderFieldStart?
    ensures FreeState(s)
  {
  }

  lemma {:induction false} StatusLineKeeps(p: Parser, ch: char)
    requires Good(p) && StatusLineState(p.state)
    ensures Keeps(p.state, StatusLineArm(p, ch))
  {
    var r := StatusLineArm(p, ch);
    StatusLineTouches(p, ch);
    StatusLineNext(p, ch);
    if GoesOn(r) && r.event.None? {
      StartLineIsFree(r.p.state);
      FreeIsGood(p, r.p);
    }
  }

  lemma {:induction false} UrlKeeps(p: Parser, s: State, ch: char)
    requires Good(p)
    ensures Keeps(p.state, UrlByte(p, s, ch))
  {
    UrlWalkStays(s, ch);
  }

  lemma {:induction false} VersionKeeps(p: Parser, ch: char)
    requires Good(p) && VersionState(p.state)
    ensures Keeps(p.state, RequestVersionArm(p, ch))
  {
    var r := RequestVersionArm(p, ch);
    VersionTouches(p, ch);
    VersionNext(p, ch);
    if r.Consume? {
      StartLineIsFree(r.p.state);
      FreeIsGood(p, r.p);
    }
  }

  lemma {:induction false} UrlEndKeeps(p: Parser, ch: char)
    requires Good(p) && UrlState(p.state)
    ensures Keeps(p.state, UrlArm(p, ch))
  {
    var r := UrlArm(p, ch);
    UrlByteOrEnd(p, ch);
    UrlKeeps(p, p.state, ch);
    if r.Consume? && r != UrlByte(p, p.state, ch) {
      StartLineIsFree(r.p.state);
      FreeIsGood(p, r.p);
    }
  }

  lemma {:induction false} RequestLineKeeps(p: Parser, ch: char)
    requires Good(p) && RequestLineState(p.state)
    ensures Keeps(p.state, RequestLineArm(p, ch))
  {
    if p.state.ReqSpacesBeforeUrl? {
      UrlKeeps(p, if p.line.verb == CONNECT then ReqServerStart else ReqSpacesBeforeUrl, ch);
    } else if UrlState(p.state) {
      UrlEndKeeps(p, ch);
    } else {
      VersionIsRest(p.state);
      VersionKeeps(p, ch);
    }
  }

  /** One of the names is being matched as a whole. */
  predicate MatchesName(h: HState) {
    h.HMatchingConnection? || h.HMatchingProxyConnection? || h.HMatchingContentLength? ||
    h.HMatchingTransferEncoding? || h.HMatchingUpgrade?
  }

  lemma {:induction false} LiteralByteMatches(p: Parser, ch: char)
    requires FieldMatcher(p.hstate, p.index) && p.index < 32 && MatchesName(p.hstate)
    ensures FieldByte(p, ch, Token(ch)).Some?
    ensures var q := FieldByte(p, ch, Token(ch)).value; FieldMatcher(q.hstate, q.index) && q.index < 32
  {
  }

  lemma {:induction false} FieldByteMatches(p: Parser, ch: char)
    requires FieldMatcher(p.hstate, p.index) && p.index < 32
    ensures FieldByte(p, ch, Token(ch)).Some?
    ensures var q := FieldByte(p, ch, Token(ch)).value; FieldMatcher(q.hstate, q.index) && q.index < 32
  {
    if MatchesName(p.hstate) {
      LiteralByteMatches(p, ch);
    }
  }

  lemma {:induction false} LiteralByteFrame(p: Parser, ch: char)
    requires MatchesName(p.hstate)
    ensures var q := FieldByte(p, ch, Token(ch));
            q.Some? && q.value == p.(index := q.value.index, hstate := q.value.hstate, usesTE := q.value.usesTE)
  {
  }

  lemma {:induction false} FieldByteFrame(p: Parser, ch: char)
    requires FieldByte(p, ch, Token(ch)).Some?
    ensures var q := FieldByte(p, ch, Token(ch)).value;
            q == p.(index := q.index, hstate := q.hstate, usesTE := q.usesTE)
  {
    if MatchesName(p.hstate) {
      LiteralByteFrame(p, ch);
    }
  }

  lemma FieldIsGood(p: Parser, q: Parser)
    requires Good(p) && p.state.HeaderField? && q == p.(index := q.index, hstate := q.hstate, usesTE := q.usesTE)
    requires FieldMatcher(q.hstate, q.index) && q.index < 32
    ensures Good(q)
  {
  }

  lemma {:induction false} FieldByteKeeps(p: Parser, ch: char)
    requires Good(p) && p.state.HeaderField?
    ensures Keeps(p.state, FieldArm(p, ch))
  {
    FieldByteMatches(p, ch);
    FieldByteFrame(p, ch);
    if IsToken(ch) {
      FieldIsGood(p, FieldByte(p, ch, Token(ch)).value);
    }
  }

  lemma {:induction false} ValueByteMatches(p: Parser, ch: char)
    requires ValueMatcher(p.hstate, p.index) && p.index < 32
    ensures ValueByte(p, ch).Consume? || ValueByte(p, ch).Error?
    ensures ValueByte(p, ch).Consume? ==>
              var q := ValueByte(p, ch).p; ValueMatcher(q.hstate, q.index) && q.index < 32
  {
  }

  lemma {:induction false} ValueByteFrame(p: Parser, ch: char)
    requires ValueByte(p, ch).Consume?
    ensures ValueByte(p, ch).p.state == p.state
    ensures p.contentLength <= ULLONG_MAX ==> ValueByte(p, ch).p.contentLength <= ULLONG_MAX
  {
  }

  lemma ValueIsGood(q: Parser)
    requires q.state.HeaderValue? && ValueMatcher(q.hstate, q.index) && q.index < 32 && q.contentLength <= ULLONG_MAX
    ensures Good(q)
  {
  }

  lemma {:induction false} ValueByteKeeps(s: Settings, p: Parser, ch: char)
    requires Good(p) && p.state.HeaderValue?
    ensures Keeps(p.state, ValueArm(s, p, ch))
  {
    ValueByteMatches(p, ch);
    if ValueByte(p, ch).Consume? {
      ValueByteFrame(p, ch);
      ValueIsGood(ValueByte(p, ch).p);
    }
  }

  lemma {:induction false} ValueStartKeeps(p: Parser, ch: char)
    requires FieldMatcher(p.hstate, p.index) || ValueMatcher(p.hstate, p.index)
    requires p.contentLength <= ULLONG_MAX && p.index < 32
    ensures Keeps(p.state, ValueStartArm(p, ch))
  {
  }

  lemma {:induction false} HeaderNameKeeps(s: Settings, p: Parser, ch: char)
    requires Good(p) && (p.state.HeaderFieldStart? || p.state.HeaderField?)
    ensures Keeps(p.state, HeaderArm(s, p, ch))
  {
    if p.state.HeaderField? {
      FieldByteKeeps(p, ch);
    }
  }

  lemma {:induction false} DiscardKeeps(p: Parser, ch: char)
    requires Good(p) && p.state.HeaderValueDiscardLws?
    ensures Keeps(p.state, DiscardLwsArm(p, ch))
  {
  }

  lemma {:induction false} DiscardWsKeeps(p: Parser, ch: char)
    requires Good(p) && p.state.HeaderValueDiscardWs?
    ensures Keeps(p.state, DiscardWsArm(p, ch))
  {
    ValueStartKeeps(p, ch);
  }

  lemma {:induction false} HeaderLeadKeeps(s: Settings, p: Parser, ch: char)
    requires Good(p)
    requires p.state.HeaderValueDiscardWs? || p.state.HeaderValueDiscardWsAlmostDone? ||
             p.state.HeaderValueDiscardLws? || p.state.HeaderValueStart?
    ensures Keeps(p.state, HeaderArm(s, p, ch))
  {
    if p.state.HeaderValueStart? {
      ValueStartKeeps(p, ch);
    } else if p.state.HeaderValueDiscardWs? {
      DiscardWsKeeps(p, ch);
    } else if p.state.HeaderValueDiscardLws? {
      DiscardKeeps(p, ch);
    }
  }

  lemma {:induction false} HeaderValueKeeps(s: Settings, p: Parser, ch: char)
    requires Good(p) && (p.state.HeaderValue? || p.state.HeaderAlmostDone? || p.state.HeaderValueLws?)
    ensures Keeps(p.state, HeaderArm(s, p, ch))
  {
    if p.state.HeaderValue? {
      ValueByteKeeps(s, p, ch);
    }
  }

  lemma {:induction false} HeaderKeeps(s: Settings, p: Parser, ch: char)
    requires Good(p) && HeaderState(p.state)
    ensures Keeps(p.state, HeaderArm(s, p, ch))
  {
    if p.state.HeaderFieldStart? || p.state.HeaderField? {
      HeaderNameKeeps(s, p, ch);
    } else if p.state.HeaderValue? || p.state.HeaderAlmostDone? || p.state.HeaderValueLws? {
      HeaderValueKeeps(s, p, ch);
    } else {
      HeaderLeadKeeps(s, p, ch);
    }
  }

  lemma {:induction false} HeadersAlmostDoneKeeps(s: Settings, p: Parser, ch: char, answer: int)
    requires Good(p)
    ensures Keeps(p.state, HeadersAlmostDoneArm(s, p, ch, answer))
  {
  }

  lemma {:induction false} HeadersDoneKeeps(s: Settings, p: Parser, ch: char)
    requires Good(p) && p.state.HeadersDone?
    ensures Keeps(p.state, HeadersDoneArm(s, p, ch))
  {
    HeadersDoneNext(s, p, ch);
  }

  lemma {:induction false} ChunkSizeKeeps(p: Parser, ch: char)
    requires Good(p)
    requires p.state.ChunkSizeStart? || p.state.ChunkSize?
    ensures Keeps(p.state, BodyArm(p, ch))
  {
  }

  lemma {:induction false} ChunkLineKeeps(p: Parser, ch: char)
    requires Good(p)
    requires p.state.ChunkParameters? || p.state.ChunkSizeAlmostDone?
    ensures Keeps(p.state, BodyArm(p, ch))
  {
  }

  lemma {:induction false} ChunkDataKeeps(p: Parser, ch: char)
    requires Good(p)
    requires p.state.ChunkData? || p.state.ChunkDataAlmostDone? || p.state.ChunkDataDone?
    ensures Keeps(p.state, BodyArm(p, ch))
  {
  }

  lemma {:induction false} BodyKeeps(p: Parser, ch: char)
    requires Good(p) && BodyState(p.state)
    ensures Keeps(p.state, BodyArm(p, ch))
  {
    if p.state.ChunkSizeStart? || p.state.ChunkSize? {
      ChunkSizeKeeps(p, ch);
    } else if p.state.ChunkParameters? || p.state.ChunkSizeAlmostDone? {
      ChunkLineKeeps(p, ch);
    } else if ChunkState(p.state) {
      ChunkDataKeeps(p, ch);
    }
  }

  lemma {:induction false} ArmKeeps(s: Settings, p: Parser, ch: char, answer: int)
    requires Good(p)
    ensures Keeps(p.state, Arm(s, p, ch, answer))
  {
    if StartState(p.state) {
      StartKeeps(p, ch);
    } else if StatusLineState(p.state) {
      StatusLineKeeps(p, ch);
    } else if HeaderState(p.state) {
      HeaderKeeps(s, p, ch);
    } else if p.state.HeadersAlmostDone? {
      HeadersAlmostDoneKeeps(s, p, ch, answer);
    } else if p.state.HeadersDone? {
      HeadersDoneKeeps(s, p, ch);
    } else if BodyState(p.state) {
      BodyKeeps(p, ch);
    } else {
      RequestLineKeeps(p, ch);
    }
  }

  // ---------- configurations ----------

  /** The open element is the last thing delivered. */
  predicate Open(c: Conf) {
    OpenElement(c.p.state).Some? ==> EndsIn(c.log, OpenElement(c.p.state).value)
  }

  /** The invariant between two bytes. */
  predicate Inv(c: Conf) {
    Good(c.p) && Open(c) && (c.p.state.ChunkSizeStart? ==> c.nread == 0)
  }

  /** The invariant inside the switch, where the byte has been counted. */
  predicate Inside(c: Conf) {
    Good(c.p) && Open(c) && (c.p.state.ChunkSizeStart? ==> c.nread == 1)
  }

  lemma InitInv(kind: Kind)
    ensures Inv(Conf(Init(kind), 0, []))
  {
  }

  lemma OpensEmit(log: seq<Event>, s: State, e: Option<Event>)
    requires Opens(s, e) && OpenElement(s).Some?
    ensures EndsIn(EmitOption(log, e), OpenElement(s).value)
  {
    EmitPieces(log, e.value.element, e.value.bytes, "");
  }

  predicate ResultInv(r: Result) {
    match r
    case Consumed(c) => Inv(c)
    case Repeats(c) => Inside(c)
    case Leaves(c) => Inv(c)
    case Failed(_, _) => true
    case AssertFailed => false
  }

  lemma {:induction false} ArmOfInv(s: Settings, c: Conf, ch: char)
    requires Inside(c)
    ensures ResultInv(ArmOf(s, c, ch))
  {
    var answer := s.onHeadersComplete(c.log);
    ArmKeeps(s, c.p, ch, answer);
    var r := Arm(s, c.p, ch, answer);
    if (r.Consume? || r.Again? || r.Upgraded?) && OpenElement(r.p.state).Some? {
      OpensEmit(c.log, r.p.state, r.event);
    }
  }

  lemma {:induction false} ChainInv(s: Settings, c: Conf, ch: char)
    requires Inside(c)
    ensures ResultInv(Chain(s, c, ch))
    decreases Rank(c.p.state)
  {
    ArmOfInv(s, c, ch);
    var r := ArmOf(s, c, ch);
    if r.Repeats? {
      AgainLowersRank(s, c.p, ch, s.onHeadersComplete(c.log));
      ChainInv(s, r.c, ch);
    }
  }

  lemma {:induction false} StepInv(s: Settings, c: Conf, ch: char)
    requires Inv(c)
    ensures ResultInv(Step(s, c, ch))
  {
    ChainInv(s, Counted(c), ch);
  }

  /** No C assert can fail, on any input: from any parser satisfying the invariant (in particular a
      fresh one), no run ends in a failed assert, and the parser it ends in satisfies it again. */
  lemma {:induction false} RunInv(s: Settings, c: Conf, data: string)
    requires Inv(c)
    ensures !RunOf(s, c, data).RanAssertFailed?
    ensures RunOf(s, c, data).Ran? ==> Inv(RunOf(s, c, data).c)
    ensures RunOf(s, c, data).RanUpgraded? ==> Inv(RunOf(s, c, data).c)
    decreases |data|
  {
    if data != "" {
      StepInv(s, c, data[0]);
      var r := Step(s, c, data[0]);
      if r.Consumed? {
        RunInv(s, r.c, data[1..]);
      }
    }
  }
}
