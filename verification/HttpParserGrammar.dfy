/** The order in which callbacks come, over whole runs. */
module HttpParserGrammar {
  import opened Options
  import opened HttpBytes
  import opened HttpParserTypes
  import opened HttpParserArms
  import opened HttpParserRun
  import opened HttpParserSections
  import opened HttpParserInvariant

  /** How far the callbacks of a message have come. `Chunk(n)`: n more bytes of the current chunk are due. */
  datatype Phase =
    | Idle | Begun | Line(element: Element) | Name | Valued | Head
    | InBody | Chunk(left: nat) | BetweenChunks
    | Trailers | TrailerName | TrailerValued | Ended
    | Bad

  /** The callback grammar as an automaton. A further piece of the same element stays where it is. */
  function Next(g: Phase, e: Event): Phase {
    match e
    case MessageBegin => if g == Idle then Begun else Bad
    case Data(k, bytes) =>
      if k == Url || k == Status then
        if g == Begun || g == Line(k) then Line(k) else Bad
      else if k == Field then
        if g.Line? || g == Valued || g == Name then Name
        else if g == Trailers || g == TrailerValued || g == TrailerName then TrailerName
        else Bad
      else if k == Value then
        if g == Name || g == Valued then Valued
        else if g == TrailerName || g == TrailerValued then TrailerValued
        else Bad
      else
        if g == Head || g == InBody then InBody
        else if g.Chunk? && |bytes| <= g.left then Chunk(g.left - |bytes|)
        else Bad
    case HeadersComplete => if g.Line? || g == Valued then Head else Bad
    case ChunkHeader(n) =>
      if g == Head || g == BetweenChunks then if n == 0 then Trailers else Chunk(n) else Bad
    case ChunkComplete =>
      if g == Chunk(0) then BetweenChunks
      else if g == Trailers || g == TrailerValued then Ended
      else Bad
    case MessageComplete => if g == Head || g == InBody || g == Ended then Idle else Bad
  }

  function NextOption(g: Phase, e: Option<Event>): Phase {
    match e case None => g case Some(ev) => Next(g, ev)
  }

  function PhaseOf(log: seq<Event>): Phase {
    if log == [] then Idle else Next(PhaseOf(log[..|log| - 1]), log[|log| - 1])
  }

  lemma NextPieces(g: Phase, k: Element, a: string, b: string)
    ensures Next(Next(g, Data(k, a)), Data(k, b)) == Next(g, Data(k, a + b))
  {
  }

  /** Joining pieces does not change the phase. */
  lemma {:induction false} PhaseEmit(log: seq<Event>, e: Event)
    ensures PhaseOf(Emit(log, e)) == Next(PhaseOf(log), e)
  {
    if e.Data? && EndsIn(log, e.element) {
      var front, last := log[..|log| - 1], log[|log| - 1];
      var joined := Data(e.element, last.bytes + e.bytes);
      assert (front + [joined])[..|front|] == front;
      NextPieces(PhaseOf(front), e.element, last.bytes, e.bytes);
    } else {
      assert (log + [e])[..|log|] == log;
    }
  }

  /** The callbacks as delivered obey the grammar exactly when the joined ones do. */
  lemma {:induction false} PhaseJoin(trace: seq<Event>)
    ensures PhaseOf(Join(trace)) == PhaseOf(trace)
  {
    if trace != [] {
      PhaseJoin(trace[..|trace| - 1]);
      PhaseEmit(Join(trace[..|trace| - 1]), trace[|trace| - 1]);
    }
  }

  // ---------- the phase that goes with a state ----------

  datatype Stage =
    | AtRest | Beginning | Lined | Starting | Naming | Valuing | Heading | Sizing | Chunking | ChunkEnding | Bodying
    | Finishing

  function StageOf(s: State): Stage {
    if s.HeaderFieldStart? || s.HeadersAlmostDone? then Starting
    else if s.HeaderField? || s.HeaderValueDiscardWs? || s.HeaderValueDiscardWsAlmostDone? ||
        s.HeaderValueDiscardLws? then Naming
    else if s.HeaderValue? || s.HeaderAlmostDone? || s.HeaderValueLws? || s.HeaderValueStart? then Valuing
    else if s.HeadersDone? then Heading
    else if s.ChunkSizeStart? || s.ChunkSize? || s.ChunkParameters? || s.ChunkSizeAlmostDone? then Sizing
    else if s.ChunkData? then Chunking
    else if s.ChunkDataAlmostDone? || s.ChunkDataDone? then ChunkEnding
    else if s.BodyIdentity? || s.BodyIdentityEof? then Bodying
    else if s.MessageDone? then Finishing
    else if s.Dead? || s.StartReqOrRes? || s.StartRes? || s.StartReq? then AtRest
    else if s.ResOrRespH? || s.ReqMethod? || s.ReqSpacesBeforeUrl? || s.ResStatusStart? || s.ResStatusCode? ||
            s.ResFirstStatusCode? || s.ResHttpEnd? || s.ResHttpMinor? || s.ResHttpDot? || s.ResHttpMajor? ||
            s.ResHTTP? || s.ResHTT? || s.ResHT? || s.ResH? then Beginning
    else Lined
  }

  predicate Fits(p: Parser, g: Phase) {
    match StageOf(p.state)
    case AtRest => g == Idle
    case Beginning => g == Begun && !p.flags.trailing
    case Lined =>
      !p.flags.trailing && g == Line(if p.state.ResStatus? || p.state.ResLineAlmostDone? then Status else Url)
    case Starting => if p.flags.trailing then g == Trailers || g == TrailerValued else g.Line? || g == Valued
    case Naming => g == if p.flags.trailing then TrailerName else Name
    case Valuing => g == if p.flags.trailing then TrailerValued else Valued
    case Heading => g == Head && !p.flags.trailing
    case Sizing => (g == Head || g == BetweenChunks) && !p.flags.trailing
    case Chunking => g == Chunk(p.contentLength) && !p.flags.trailing
    case ChunkEnding => g == Chunk(0) && !p.flags.trailing
    case Bodying => (g == Head || g == InBody) && !p.flags.trailing
    case Finishing => if p.flags.trailing then g == Ended else g == InBody
  }

  /** The arm leaves a parser that fits the phase after its callback. */
  predicate FitsAfter(g: Phase, r: Outcome) {
    r.Consume? || r.Again? || r.Upgraded? ==> Fits(r.p, NextOption(g, r.event))
  }

  /** Between messages nothing is delivered but the beginning of one. */
  lemma StartNext(p: Parser, ch: char)
    requires StartState(p.state) && StageOf(p.state) == AtRest
    ensures var r := StartArm(p, ch);
            !r.Upgraded? && (r.Consume? || r.Again? ==>
              if r.event == None then StageOf(r.p.state) == AtRest
              else r.event == Some(MessageBegin) && StageOf(r.p.state) == Beginning && r.p.flags == NO_FLAGS)
  {
  }

  lemma MethodNext(p: Parser, ch: char)
    requires p.state.ResOrRespH? || p.state.ReqMethod?
    ensures var r := StartArm(p, ch);
            !r.Upgraded? && !r.Again? && (r.Consume? ==>
              r.event == None && StageOf(r.p.state) == Beginning && r.p.flags == p.flags)
  {
  }

  lemma {:induction false} StartFits(p: Parser, g: Phase, ch: char)
    requires Good(p) && Fits(p, g) && StartState(p.state)
    ensures FitsAfter(g, StartArm(p, ch))
  {
    if StageOf(p.state) == AtRest {
      StartNext(p, ch);
    } else {
      MethodNext(p, ch);
    }
  }

  lemma LinedFits(p: Parser, element: Element)
    requires !p.flags.trailing
    requires p.state.HeaderFieldStart? || (element == Status && StatusTextState(p.state)) ||
             (element == Url && StageOf(p.state) == Lined && !StatusTextState(p.state))
    ensures Fits(p, Line(element))
  {
  }

  lemma LeadFits(p: Parser)
    requires !p.flags.trailing && StatusLeadState(p.state)
    ensures Fits(p, Begun)
  {
  }

  lemma StatusFitsMeans(p: Parser, g: Phase)
    requires StatusLineState(p.state) && Fits(p, g)
    ensures !p.flags.trailing && g == if StatusTextState(p.state) then Line(Status) else Begun
  {
  }

  lemma {:induction false} StatusLineFits(p: Parser, g: Phase, ch: char)
    requires Good(p) && Fits(p, g) && StatusLineState(p.state)
    ensures FitsAfter(g, StatusLineArm(p, ch))
  {
    var r := StatusLineArm(p, ch);
    StatusFitsMeans(p, g);
    StatusLineTouches(p, ch);
    StatusLineNext(p, ch);
    if GoesOn(r) {
      if r.event.Some? || StatusTextState(p.state) {
        assert NextOption(g, r.event) == Line(Status);
        LinedFits(r.p, Status);
      } else {
        LeadFits(r.p);
      }
    }
  }

  lemma {:induction false} UrlByteFits(p: Parser, from: State, g: Phase, ch: char)
    requires !p.flags.trailing && (g == Begun || g == Line(Url))
    ensures FitsAfter(g, UrlByte(p, from, ch))
  {
    var r := UrlByte(p, from, ch);
    if r.Consume? {
      assert UrlState(r.p.state) && r.p.flags == p.flags && r.event == Some(Data(Url, [ch])) by {
        UrlWalkStays(from, ch);
      }
      LinedFits(r.p, Url);
    }
  }

  lemma VersionIsLined(s: State)
    requires VersionState(s)
    ensures StageOf(s) == Lined && !StatusTextState(s)
  {
  }

  lemma {:induction false} VersionFits(p: Parser, g: Phase, ch: char)
    requires Good(p) && Fits(p, g) && VersionState(p.state)
    ensures FitsAfter(g, RequestVersionArm(p, ch))
  {
    VersionTouches(p, ch);
    VersionNext(p, ch);
    VersionIsLined(p.state);
    var r := RequestVersionArm(p, ch);
    if r.Consume? && VersionState(r.p.state) {
      VersionIsLined(r.p.state);
    }
  }

  lemma {:induction false} UrlFits(p: Parser, g: Phase, ch: char)
    requires !p.flags.trailing && g == Line(Url) && UrlState(p.state)
    ensures FitsAfter(g, UrlArm(p, ch))
  {
    UrlByteFits(p, p.state, g, ch);
  }

  lemma {:induction false} RequestLineFits(p: Parser, g: Phase, ch: char)
    requires Good(p) && Fits(p, g) && RequestLineState(p.state)
    ensures FitsAfter(g, RequestLineArm(p, ch))
  {
    if p.state.ReqSpacesBeforeUrl? {
      UrlByteFits(p, if p.line.verb == CONNECT then ReqServerStart else ReqSpacesBeforeUrl, g, ch);
    } else if UrlState(p.state) {
      UrlFits(p, g, ch);
    } else {
      VersionIsRest(p.state);
      VersionFits(p, g, ch);
    }
  }

  lemma {:induction false} FieldFits(p: Parser, g: Phase, ch: char)
    requires Good(p) && Fits(p, g) && p.state.HeaderField?
    ensures FitsAfter(g, FieldArm(p, ch))
  {
    FieldByteMatches(p, ch);
    FieldByteFrame(p, ch);
  }

  lemma {:induction false} ConnectionByteTrailing(p: Parser, ch: char)
    requires p.hstate.HConnKeepAlive? || p.hstate.HConnClose? || p.hstate.HConnUpgrade?
    ensures ValueByte(p, ch).Consume? && ValueByte(p, ch).p.flags.trailing == p.flags.trailing
  {
  }

  lemma {:induction false} ValueByteTrailing(p: Parser, ch: char)
    requires ValueByte(p, ch).Consume?
    ensures ValueByte(p, ch).p.flags.trailing == p.flags.trailing
  {
    if p.hstate.HConnKeepAlive? || p.hstate.HConnClose? || p.hstate.HConnUpgrade? {
      ConnectionByteTrailing(p, ch);
    } else {
      assert ValueByte(p, ch).p.flags == p.flags;
    }
  }

  lemma {:induction false} ValueFits(s: Settings, p: Parser, g: Phase, ch: char)
    requires Good(p) && Fits(p, g) && p.state.HeaderValue?
    ensures FitsAfter(g, ValueArm(s, p, ch))
  {
    ValueByteMatches(p, ch);
    if ValueByte(p, ch).Consume? {
      ValueByteFrame(p, ch);
      ValueByteTrailing(p, ch);
    }
  }

  lemma {:induction false} ValueStartTrailing(p: Parser, ch: char)
    requires ValueStart(p, ch).Consume?
    ensures var q := ValueStart(p, ch).p; q.state == p.state && q.flags.trailing == p.flags.trailing
  {
  }

  lemma {:induction false} ValueStartFits(p: Parser, g: Phase, ch: char)
    requires if p.flags.trailing then g == TrailerName || g == TrailerValued else g == Name || g == Valued
    ensures FitsAfter(g, ValueStartArm(p, ch))
  {
    var q := p.(state := HeaderValue, index := 0);
    if ValueStart(q, ch).Consume? {
      ValueStartTrailing(q, ch);
    }
  }

  lemma {:induction false} HeaderLeadFits(s: Settings, p: Parser, g: Phase, ch: char)
    requires Good(p) && Fits(p, g)
    requires p.state.HeaderValueDiscardWs? || p.state.HeaderValueDiscardWsAlmostDone? ||
             p.state.HeaderValueDiscardLws? || p.state.HeaderValueStart?
    ensures FitsAfter(g, HeaderArm(s, p, ch))
  {
    if p.state.HeaderValueDiscardWs? || p.state.HeaderValueStart? {
      ValueStartFits(p, g, ch);
    }
  }

  lemma {:induction false} HeaderStartFits(s: Settings, p: Parser, g: Phase, ch: char)
    requires Good(p) && Fits(p, g)
    requires p.state.HeaderFieldStart?
    ensures FitsAfter(g, HeaderArm(s, p, ch))
  {
  }

  lemma {:induction false} HeaderEndFits(s: Settings, p: Parser, g: Phase, ch: char)
    requires Good(p) && Fits(p, g)
    requires p.state.HeaderAlmostDone? || p.state.HeaderValueLws?
    ensures FitsAfter(g, HeaderArm(s, p, ch))
  {
  }

  lemma {:induction false} HeaderFits(s: Settings, p: Parser, g: Phase, ch: char)
    requires Good(p) && Fits(p, g) && HeaderState(p.state)
    ensures FitsAfter(g, HeaderArm(s, p, ch))
  {
    if p.state.HeaderField? {
      FieldFits(p, g, ch);
    } else if p.state.HeaderValue? {
      ValueFits(s, p, g, ch);
    } else if p.state.HeaderFieldStart? {
      HeaderStartFits(s, p, g, ch);
    } else if p.state.HeaderAlmostDone? || p.state.HeaderValueLws? {
      HeaderEndFits(s, p, g, ch);
    } else {
      HeaderLeadFits(s, p, g, ch);
    }
  }

  lemma {:induction false} HeadersAlmostDoneFits(s: Settings, p: Parser, g: Phase, ch: char, answer: int)
    requires Fits(p, g) && p.state.HeadersAlmostDone?
    ensures FitsAfter(g, HeadersAlmostDoneArm(s, p, ch, answer))
  {
  }

  lemma {:induction false} HeadersDoneFits(s: Settings, p: Parser, g: Phase, ch: char)
    requires Fits(p, g) && p.state.HeadersDone?
    ensures FitsAfter(g, HeadersDoneArm(s, p, ch))
  {
  }

  lemma {:induction false} ChunkSizeFits(p: Parser, g: Phase, ch: char)
    requires Good(p) && Fits(p, g)
    requires p.state.ChunkSizeStart? || p.state.ChunkSize?
    ensures FitsAfter(g, BodyArm(p, ch))
  {
  }

  lemma {:induction false} ChunkLineFits(p: Parser, g: Phase, ch: char)
    requires Good(p) && Fits(p, g)
    requires p.state.ChunkParameters? || p.state.ChunkSizeAlmostDone?
    ensures FitsAfter(g, BodyArm(p, ch))
  {
  }

  lemma {:induction false} ChunkEndFits(p: Parser, g: Phase, ch: char)
    requires Good(p) && Fits(p, g)
    requires p.state.ChunkDataAlmostDone? || p.state.ChunkDataDone?
    ensures FitsAfter(g, BodyArm(p, ch))
  {
  }

  lemma {:induction false} ChunkDataFits(p: Parser, g: Phase, ch: char)
    requires Good(p) && Fits(p, g) && p.state.ChunkData?
    ensures FitsAfter(g, BodyArm(p, ch))
  {
  }

  lemma {:induction false} EofFits(p: Parser, g: Phase, ch: char)
    requires Good(p) && Fits(p, g) && p.state.BodyIdentityEof?
    ensures FitsAfter(g, BodyArm(p, ch))
  {
  }

  lemma {:induction false} IdentityFits(p: Parser, g: Phase, ch: char)
    requires Good(p) && Fits(p, g) && p.state.BodyIdentity?
    ensures FitsAfter(g, BodyArm(p, ch))
  {
  }

  lemma NewMessageRests(p: Parser)
    ensures StageOf(NewMessage(p)) == AtRest
  {
  }

  lemma {:induction false} DoneFits(p: Parser, g: Phase, ch: char)
    requires Fits(p, g) && p.state.MessageDone?
    ensures FitsAfter(g, MessageDoneArm(p, ch))
  {
    NewMessageRests(p);
  }

  lemma {:induction false} BodyFits(p: Parser, g: Phase, ch: char)
    requires Good(p) && Fits(p, g) && BodyState(p.state)
    ensures FitsAfter(g, BodyArm(p, ch))
  {
    if p.state.ChunkSizeStart? || p.state.ChunkSize? {
      ChunkSizeFits(p, g, ch);
    } else if p.state.ChunkParameters? || p.state.ChunkSizeAlmostDone? {
      ChunkLineFits(p, g, ch);
    } else if p.state.ChunkData? {
      ChunkDataFits(p, g, ch);
    } else if p.state.ChunkDataAlmostDone? || p.state.ChunkDataDone? {
      ChunkEndFits(p, g, ch);
    } else if p.state.MessageDone? {
      DoneFits(p, g, ch);
    } else if p.state.BodyIdentityEof? {
      EofFits(p, g, ch);
    } else {
      IdentityFits(p, g, ch);
    }
  }

  lemma {:induction false} ArmFits(s: Settings, p: Parser, g: Phase, ch: char, answer: int)
    requires Good(p) && Fits(p, g)
    ensures FitsAfter(g, Arm(s, p, ch, answer))
  {
    if StartState(p.state) {
      StartFits(p, g, ch);
    } else if StatusLineState(p.state) {
      StatusLineFits(p, g, ch);
    } else if HeaderState(p.state) {
      HeaderFits(s, p, g, ch);
    } else if p.state.HeadersAlmostDone? {
      HeadersAlmostDoneFits(s, p, g, ch, answer);
    } else if p.state.HeadersDone? {
      HeadersDoneFits(s, p, g, ch);
    } else if BodyState(p.state) {
      BodyFits(p, g, ch);
    } else {
      RequestLineFits(p, g, ch);
    }
  }

  // ---------- whole runs ----------

  /** The callbacks so far obey the grammar and stand where the parser stands. */
  ghost predicate Lawful(c: Conf) {
    Fits(c.p, PhaseOf(c.log))
  }

  ghost predicate ResultLawful(r: Result) {
    match r
    case Failed(_, log) => PhaseOf(log) != Bad
    case AssertFailed => true
    case _ => Lawful(r.c)
  }

  lemma RefusingArm(s: Settings, p: Parser, ch: char, answer: int)
    requires Arm(s, p, ch, answer) == Outcome.Error(CbHeadersComplete)
    ensures p.state.HeadersAlmostDone? && !p.flags.trailing
  {
  }

  lemma FitsIsGood(p: Parser, g: Phase)
    requires Fits(p, g)
    ensures g != Bad
  {
  }

  /** A callback that answers with an error has been made all the same. */
  lemma RefusedHeaders(s: Settings, p: Parser, g: Phase, ch: char, answer: int)
    requires Fits(p, g) && Arm(s, p, ch, answer) == Outcome.Error(CbHeadersComplete)
    ensures Next(g, HeadersComplete) != Bad
  {
    assert p.state.HeadersAlmostDone? && !p.flags.trailing by {
      RefusingArm(s, p, ch, answer);
    }
  }

  lemma {:induction false} ArmOfLawful(s: Settings, c: Conf, ch: char)
    requires Inside(c) && Lawful(c)
    ensures ResultLawful(ArmOf(s, c, ch))
  {
    var answer := s.onHeadersComplete(c.log);
    ArmFits(s, c.p, PhaseOf(c.log), ch, answer);
    var r := Arm(s, c.p, ch, answer);
    if (r.Consume? || r.Again? || r.Upgraded?) && r.event.Some? {
      PhaseEmit(c.log, r.event.value);
    } else if r.Error? {
      FitsIsGood(c.p, PhaseOf(c.log));
      if r.errno == CbHeadersComplete {
        RefusedHeaders(s, c.p, PhaseOf(c.log), ch, answer);
        PhaseEmit(c.log, HeadersComplete);
      }
    }
  }

  lemma {:induction false} ChainLawful(s: Settings, c: Conf, ch: char)
    requires Inside(c) && Lawful(c)
    ensures ResultLawful(Chain(s, c, ch))
    decreases Rank(c.p.state)
  {
    ArmOfLawful(s, c, ch);
    var r := ArmOf(s, c, ch);
    if r.Repeats? {
      ArmOfInv(s, c, ch);
      AgainLowersRank(s, c.p, ch, s.onHeadersComplete(c.log));
      ChainLawful(s, r.c, ch);
    }
  }

  /** What a run has delivered, however it ended. */
  function LogOf(r: Run): seq<Event>
    requires !r.RanAssertFailed?
  {
    if r.RanFailed? then r.log else r.c.log
  }

  /** Every run keeps the callbacks within the grammar, also a run that fails. */
  lemma {:induction false} RunLawful(s: Settings, c: Conf, data: string)
    requires Inv(c) && Lawful(c)
    ensures var r := RunOf(s, c, data);
            !r.RanAssertFailed? && PhaseOf(LogOf(r)) != Bad && (r.Ran? || r.RanUpgraded? ==> Lawful(r.c))
    decreases |data|
  {
    FitsIsGood(c.p, PhaseOf(c.log));
    if data != "" {
      ChainLawful(s, Counted(c), data[0]);
      StepInv(s, c, data[0]);
      var r := Step(s, c, data[0]);
      if r.Consumed? {
        RunLawful(s, r.c, data[1..]);
      } else if r.Leaves? {
        FitsIsGood(r.c.p, PhaseOf(r.c.log));
      }
    }
  }

  /** The states in which the end of the input is accepted. */
  predicate EofAccepted(s: State) {
    s.BodyIdentityEof? || StageOf(s) == AtRest
  }

  /** The end of the input is accepted only between messages, or where it completes the one under way. */
  lemma {:induction false} EofLawful(c: Conf)
    requires Lawful(c) && EofAccepted(c.p.state)
    ensures PhaseOf(if c.p.state.BodyIdentityEof? then Emit(c.log, MessageComplete) else c.log) == Idle
  {
    if c.p.state.BodyIdentityEof? {
      PhaseEmit(c.log, MessageComplete);
    }
  }

  lemma InitLawful(kind: Kind)
    ensures Lawful(Conf(Init(kind), 0, []))
  {
  }

  /** After a message that is not kept alive the parser delivers nothing any more: it accepts line ends
      and fails on everything else. */
  lemma {:induction false} DeadForGood(s: Settings, c: Conf, data: string)
    requires c.p.state.Dead?
    ensures var r := RunOf(s, c, data);
            (r.Ran? && r.c.log == c.log && r.c.p == c.p &&
             forall i :: 0 <= i < |data| ==> (data[i] == CR || data[i] == LF)) ||
            (r.RanFailed? && r.log == c.log && (r.errno == ClosedConnection || r.errno == HeaderOverflow))
    decreases |data|
  {
    if data != "" {
      var r := Step(s, c, data[0]);
      if r.Consumed? {
        DeadForGood(s, r.c, data[1..]);
      }
    }
  }
}
