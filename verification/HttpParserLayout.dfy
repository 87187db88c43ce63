/** What http_parser_execute lets pass between the parts of a message: lone line feeds, empty lines, spaces and folded
    lines; and what it does not, in version and status lines. */
module HttpParserLayout {
  import opened Options
  import opened HttpBytes
  import opened HttpHeaderText
  import opened HttpParserTypes
  import opened HttpParserArms
  import opened HttpParserRun
  import opened HttpParserInvariant
  import opened HttpParserLag
  import opened HttpParserStretch
  import opened HttpParserStartLine
  import opened HttpParserHeaderLines

  // ---------- the ends of lines ----------

  /** A line may end here. */
  predicate LineMayEnd(p: Parser) {
    p.state.HeaderFieldStart? || p.state.HeaderValue? || p.state.HeaderValueDiscardWs? || p.state.ReqHttpEnd? ||
    p.state.ResStatus? || p.state.ResStatusStart? || p.state.ResStatusCode? ||
    (UrlState(p.state) && !EarlyUrlState(p.state))
  }

  /** The parser behind the CR of a line end. */
  function BehindCr(p: Parser): Parser {
    match p.state
    case HeaderFieldStart => p.(state := HeadersAlmostDone)
    case HeaderValue => p.(state := HeaderAlmostDone)
    case HeaderValueDiscardWs => p.(state := HeaderValueDiscardWsAlmostDone)
    case ReqHttpEnd => p.(state := ReqLineAlmostDone)
    case ResStatus => p.(state := ResLineAlmostDone)
    case ResStatusStart => p.(state := ResLineAlmostDone, index := 0)
    case ResStatusCode => p.(state := ResLineAlmostDone, index := 0)
    case _ => p.(state := ReqLineAlmostDone, line := p.line.(major := 0, minor := 9))
  }

  function AfterCr(c: Conf): Conf {
    Conf(BehindCr(c.p), c.nread + 1,
         if c.p.state.ResStatusStart? || c.p.state.ResStatusCode? then Emit(c.log, Data(Status, "")) else c.log)
  }

  /** The parser behind the whole line end, except that of a header section. */
  function BehindLine(p: Parser): Parser {
    match p.state
    case HeaderValue => p.(state := HeaderValueLws)
    case HeaderValueDiscardWs => p.(state := HeaderValueDiscardLws)
    case _ => BehindCr(p).(state := HeaderFieldStart)
  }

  /** Both ways to end a line lead to the same parser. */
  ghost predicate EndsAlike(s: Settings, c: Conf) {
    Step(s, c, CR) == Consumed(AfterCr(c)) &&
    Step(s, AfterCr(c), LF) == Consumed(Conf(BehindLine(c.p), c.nread + 2, AfterCr(c).log)) &&
    Step(s, c, LF) == Consumed(Conf(BehindLine(c.p), c.nread + 1, AfterCr(c).log))
  }

  lemma ValueEndsAlike(s: Settings, c: Conf)
    requires c.p.state.HeaderValue? && c.nread + 2 <= s.limit
    ensures EndsAlike(s, c)
  {
    ExpectStep(s, c, CR, HeaderAlmostDone);
    ExpectStep(s, AfterCr(c), LF, HeaderValueLws);
    var e := Conf(c.p.(state := HeaderAlmostDone), c.nread + 1, c.log);
    assert ArmOf(s, Counted(c), LF) == Repeats(e) by { HeaderByte(s, Counted(c), LF); }
    assert Chain(s, e, LF) == Consumed(Conf(BehindLine(c.p), c.nread + 1, c.log)) by { HeaderByte(s, e, LF); }
  }

  lemma BlankEndsAlike(s: Settings, c: Conf)
    requires c.p.state.HeaderValueDiscardWs? && c.nread + 2 <= s.limit
    ensures EndsAlike(s, c)
  {
    ExpectStep(s, c, CR, HeaderValueDiscardWsAlmostDone);
    ExpectStep(s, AfterCr(c), LF, HeaderValueDiscardLws);
    ExpectStep(s, c, LF, HeaderValueDiscardLws);
  }

  lemma VersionEndsAlike(s: Settings, c: Conf)
    requires c.p.state.ReqHttpEnd? && c.nread + 2 <= s.limit
    ensures EndsAlike(s, c)
  {
    assert Step(s, c, CR) == Consumed(AfterCr(c)) by { SilentByte(s, c, CR, BehindCr(c.p)); }
    RequestLineLf(s, AfterCr(c), BehindLine(c.p));
    assert Step(s, c, LF) == Consumed(Conf(BehindLine(c.p), c.nread + 1, c.log)) by {
      SilentByte(s, c, LF, BehindLine(c.p));
    }
  }

  lemma RequestLineLf(s: Settings, c: Conf, q: Parser)
    requires c.p.state.ReqLineAlmostDone? && c.nread < s.limit && q == c.p.(state := HeaderFieldStart)
    ensures Step(s, c, LF) == Consumed(Conf(q, c.nread + 1, c.log))
  {
    SilentByte(s, c, LF, q);
  }

  lemma ReasonEndsAlike(s: Settings, c: Conf)
    requires c.p.state.ResStatus? && c.nread + 2 <= s.limit
    ensures EndsAlike(s, c)
  {
    SilentByte(s, c, CR, BehindCr(c.p));
    SilentByte(s, AfterCr(c), LF, BehindLine(c.p));
    SilentByte(s, c, LF, BehindLine(c.p));
  }

  /** A line that ends in front of the reason is taken for one with an empty reason. */
  lemma {:induction false} EmptyReasonEndsAlike(s: Settings, c: Conf)
    requires c.p.state.ResStatusStart? && c.nread + 2 <= s.limit
    ensures EndsAlike(s, c)
  {
    StatusLineLf(s, AfterCr(c));
    EmptyReasonByte(s, Counted(c), CR);
    EmptyReasonByte(s, Counted(c), LF);
  }

  function BehindReason(c: Conf, ch: char): Conf {
    Conf(c.p.(state := if ch == CR then ResLineAlmostDone else HeaderFieldStart, index := 0), c.nread,
         Emit(c.log, Data(Status, "")))
  }

  lemma EmptyReasonByte(s: Settings, c: Conf, ch: char)
    requires c.p.state.ResStatusStart? && (ch == CR || ch == LF)
    ensures Chain(s, c, ch) == Consumed(BehindReason(c, ch))
  {
    var e := Conf(c.p.(state := ResStatus, index := 0), c.nread, Emit(c.log, Data(Status, "")));
    assert ArmOf(s, c, ch) == Repeats(e) by { StatusByte(s, c, ch); }
    assert Chain(s, e, ch) == Consumed(BehindReason(c, ch)) by { StatusByte(s, e, ch); }
  }

  /** So is a line that ends with the status code. */
  lemma {:induction false} CodeEndsAlike(s: Settings, c: Conf)
    requires c.p.state.ResStatusCode? && c.nread + 2 <= s.limit
    ensures EndsAlike(s, c)
  {
    StatusLineLf(s, AfterCr(c));
    CodeByteEnds(s, c, CR);
    CodeByteEnds(s, c, LF);
  }

  lemma CodeByteEnds(s: Settings, c: Conf, ch: char)
    requires c.p.state.ResStatusCode? && c.nread < s.limit && (ch == CR || ch == LF)
    ensures Step(s, c, ch) == Consumed(BehindReason(Counted(c), ch))
  {
    var d := Conf(c.p.(state := ResStatusStart), c.nread + 1, c.log);
    assert ArmOf(s, Counted(c), ch) == Repeats(d) by { StatusByte(s, Counted(c), ch); }
    assert Chain(s, d, ch) == Consumed(BehindReason(d, ch)) by { EmptyReasonByte(s, d, ch); }
    assert BehindReason(d, ch) == BehindReason(Counted(c), ch);
  }

  /** A request line that ends with its URL is one of HTTP/0.9. */
  lemma {:induction false} UrlEndsAlike(s: Settings, c: Conf)
    requires UrlState(c.p.state) && !EarlyUrlState(c.p.state) && c.nread + 2 <= s.limit
    ensures EndsAlike(s, c)
  {
    UrlLineEnd(s, c, CR);
    UrlLineEnd(s, c, LF);
    SilentByte(s, AfterCr(c), LF, BehindLine(c.p));
  }

  lemma UrlLineEnd(s: Settings, c: Conf, ch: char)
    requires UrlState(c.p.state) && !EarlyUrlState(c.p.state) && c.nread < s.limit && (ch == CR || ch == LF)
    ensures Step(s, c, ch) ==
            Consumed(Conf(c.p.(line := c.p.line.(major := 0, minor := 9),
                               state := if ch == CR then ReqLineAlmostDone else HeaderFieldStart),
                          c.nread + 1, c.log))
  {
    assert RequestLineArm(c.p, ch) == UrlArm(c.p, ch);
    ArmStep(s, c, ch);
  }

  /** The empty line that ends a header section. */
  lemma {:induction false} SectionEndsAlike(s: Settings, c: Conf)
    requires Inv(c) && c.p.state.HeaderFieldStart? && c.nread + 2 <= s.limit
    ensures Step(s, c, CR) == Consumed(AfterCr(c)) && ResultLags(Step(s, c, LF), Step(s, AfterCr(c), LF))
  {
    var a, b := Conf(c.p.(state := HeadersAlmostDone), c.nread + 1, c.log), AfterCr(c);
    ExpectStep(s, c, CR, HeadersAlmostDone);
    SectionLf(s, c);
    SectionLags(s, c, a, b);
    SecondByte(s, b);
  }

  lemma SecondByte(s: Settings, b: Conf)
    requires b.p.state.HeadersAlmostDone? && b.nread < s.limit
    ensures Step(s, b, LF) == Chain(s, Counted(b), LF)
  {
  }

  lemma {:induction false} SectionLags(s: Settings, c: Conf, a: Conf, b: Conf)
    requires Inv(c) && c.nread < s.limit && Step(s, c, CR) == Consumed(b) && b.p.state.HeadersAlmostDone?
    requires a == b.(nread := c.nread + 1) && b.nread == c.nread + 1
    ensures ResultLags(Chain(s, a, LF), Chain(s, Counted(b), LF))
  {
    StepInv(s, c, CR);
    SectionEndInside(b);
    ChainLags(s, a, Counted(b), LF);
  }

  lemma SectionLf(s: Settings, c: Conf)
    requires c.p.state.HeaderFieldStart? && c.nread < s.limit
    ensures Step(s, c, LF) == Chain(s, Conf(c.p.(state := HeadersAlmostDone), c.nread + 1, c.log), LF)
  {
    HeaderByte(s, Counted(c), LF);
  }

  lemma SectionEndInside(c: Conf)
    requires Inv(c) && c.p.state.HeadersAlmostDone?
    ensures Inside(Counted(c))
  {
  }

  /** A lone LF ends any line as CR LF does, one byte of the header limit cheaper. */
  lemma {:induction false} LineEndsAlike(s: Settings, c: Conf)
    requires Inv(c) && LineMayEnd(c.p) && c.nread + 2 <= s.limit
    ensures Step(s, c, CR) == Consumed(AfterCr(c)) && ResultLags(Step(s, c, LF), Step(s, AfterCr(c), LF))
    ensures !c.p.state.HeaderFieldStart? ==> EndsAlike(s, c)
  {
    match c.p.state
    case HeaderFieldStart => SectionEndsAlike(s, c);
    case HeaderValue => ValueEndsAlike(s, c);
    case HeaderValueDiscardWs => BlankEndsAlike(s, c);
    case ReqHttpEnd => VersionEndsAlike(s, c);
    case ResStatus => ReasonEndsAlike(s, c);
    case ResStatusStart => EmptyReasonEndsAlike(s, c);
    case ResStatusCode => CodeEndsAlike(s, c);
    case _ => UrlEndsAlike(s, c);
  }

  // ---------- what is skipped ----------

  predicate AllLineBreaks(w: string) {
    forall i :: 0 <= i < |w| ==> w[i] == CR || w[i] == LF
  }

  predicate AllSpaces(w: string) {
    forall i :: 0 <= i < |w| ==> w[i] == ' '
  }

  /** Between two messages. */
  predicate BetweenMessages(state: State) {
    state.StartReq? || state.StartRes? || state.StartReqOrRes? || state.Dead?
  }

  /** In front of a part of the start line. */
  predicate BeforePart(state: State) {
    state.ReqSpacesBeforeUrl? || state.ReqHttpStart? || state.ResFirstStatusCode?
  }

  predicate Skips(state: State, ch: char) {
    (BetweenMessages(state) && (ch == CR || ch == LF)) || (BeforePart(state) && ch == ' ')
  }

  lemma SkipStep(s: Settings, c: Conf, ch: char)
    requires Skips(c.p.state, ch) && c.nread < s.limit
    ensures Step(s, c, ch) == Consumed(c.(nread := c.nread + 1))
  {
    match c.p.state
    case StartReq => case StartRes => case StartReqOrRes => case Dead =>
    case ReqSpacesBeforeUrl => case ReqHttpStart => case ResFirstStatusCode =>
  }

  /** Line breaks between messages, and more than one space between the parts of a start line, are passed over: they
      only count against the header limit. */
  lemma {:induction false} SkippedRun(s: Settings, c: Conf, w: string)
    requires (BetweenMessages(c.p.state) && AllLineBreaks(w)) || (BeforePart(c.p.state) && AllSpaces(w))
    requires c.nread + |w| <= s.limit
    ensures RunOf(s, c, w) == Ran(c.(nread := c.nread + |w|))
    decreases |w|
  {
    if w != "" {
      SkipStep(s, c, w[0]);
      SkippedRun(s, c.(nread := c.nread + 1), w[1..]);
    }
  }

  // ---------- requests or responses ----------

  function AsKind(c: Conf, kind: Kind): Conf {
    c.(p := c.p.(line := c.p.line.(kind := kind), state := if kind == Response then StartRes else StartReq))
  }

  lemma TwoBytes(s: Settings, c: Conf, w: string)
    requires |w| >= 2
    ensures RunOf(s, c, w) == Then(s, Step(s, c, w[0]), w[1..])
    ensures Step(s, c, w[0]).Consumed? ==>
              RunOf(s, c, w) == Shift(Then(s, Step(s, Step(s, c, w[0]).c, w[1]), w[2..]), 1)
  {
    assert w[1..][1..] == w[2..];
  }

  function BegunH(c: Conf, state: State): Conf {
    Conf(BeginMessage(c.p).(state := state), c.nread + 1, Emit(c.log, MessageBegin))
  }

  lemma FirstH(s: Settings, c: Conf)
    requires c.p.state.StartReqOrRes? && c.nread < s.limit
    ensures Step(s, c, 'H') == Consumed(BegunH(c, ResOrRespH))
  {
    ArmStep(s, c, 'H');
  }

  lemma ResponseH(s: Settings, c: Conf)
    requires c.nread < s.limit
    ensures Step(s, AsKind(c, Response), 'H') == Consumed(BegunH(AsKind(c, Response), ResH))
  {
    ArmStep(s, AsKind(c, Response), 'H');
  }

  lemma ResponseT(s: Settings, c: Conf)
    requires c.nread + 2 <= s.limit
    ensures Step(s, BegunH(c, ResOrRespH), 'T') == Step(s, BegunH(AsKind(c, Response), ResH), 'T')
  {
    ArmStep(s, BegunH(c, ResOrRespH), 'T');
    SilentByte(s, BegunH(AsKind(c, Response), ResH), 'T', BegunH(AsKind(c, Response), ResHT).p);
  }

  function BegunHead(c: Conf): Conf {
    var p := AsKind(c, Request).p;
    Conf(BeginMessage(p).(line := p.line.(verb := HEAD), index := 1, state := ReqMethod), c.nread + 1,
         Emit(c.log, MessageBegin))
  }

  lemma RequestH(s: Settings, c: Conf)
    requires c.nread < s.limit
    ensures Step(s, AsKind(c, Request), 'H') == Consumed(BegunHead(c))
  {
    ArmStep(s, AsKind(c, Request), 'H');
  }

  function BegunHe(c: Conf): Conf {
    var d := BegunHead(c);
    Conf(d.p.(index := 2), d.nread + 1, d.log)
  }

  lemma EitherE(s: Settings, c: Conf)
    requires c.nread + 2 <= s.limit
    ensures Step(s, BegunH(c, ResOrRespH), 'E') == Consumed(BegunHe(c))
  {
    ArmStep(s, BegunH(c, ResOrRespH), 'E');
  }

  lemma RequestE(s: Settings, c: Conf)
    requires c.nread + 2 <= s.limit
    ensures Step(s, BegunHead(c), 'E') == Consumed(BegunHe(c))
  {
    ArmStep(s, BegunHead(c), 'E');
  }

  lemma NeitherByte(s: Settings, c: Conf, ch: char)
    requires c.p.state.ResOrRespH? && c.nread < s.limit && ch != 'T' && ch != 'E'
    ensures Step(s, c, ch) == Failed(InvalidConstant, c.log)
  {
    ArmStep(s, c, ch);
  }

  lemma OtherFirstByte(s: Settings, c: Conf, ch: char)
    requires c.p.state.StartReqOrRes? && c.nread < s.limit && ch != CR && ch != LF && ch != 'H'
    ensures Step(s, c, ch) == Step(s, AsKind(c, Request), ch)
  {
    var d := Conf(BeginMessage(c.p).(line := c.p.line.(kind := Request), state := StartReq), c.nread + 1, c.log);
    assert ArmOf(s, Counted(c), ch) == Repeats(d);
    assert Chain(s, d, ch) == Chain(s, Counted(AsKind(c, Request)), ch);
  }

  /** A parser for both kinds goes by the first two bytes: HT begins a response, anything else that begins a message
      begins a request, and from there on it is a parser for that kind. */
  lemma {:induction false} KindIsTold(s: Settings, c: Conf, w: string)
    requires c.p.state.StartReqOrRes? && |w| >= 2 && w[0] != CR && w[0] != LF && c.nread + 2 <= s.limit
    ensures RunOf(s, c, w) ==
            if w[0] == 'H' && w[1] == 'T' then RunOf(s, AsKind(c, Response), w)
            else if w[0] != 'H' || w[1] == 'E' then RunOf(s, AsKind(c, Request), w)
            else RanFailed(InvalidConstant, 1, Emit(c.log, MessageBegin))
  {
    if w[0] != 'H' {
      OtherFirstByte(s, c, w[0]);
      TwoBytes(s, c, w);
      TwoBytes(s, AsKind(c, Request), w);
    } else {
      FirstH(s, c);
      TwoBytes(s, c, w);
      if w[1] == 'E' {
        HeadIsRequest(s, c, w);
      } else if w[1] == 'T' {
        ResponseH(s, c);
        ResponseT(s, c);
        TwoBytes(s, AsKind(c, Response), w);
      } else {
        NeitherByte(s, BegunH(c, ResOrRespH), w[1]);
      }
    }
  }

  lemma {:induction false} HeadIsRequest(s: Settings, c: Conf, w: string)
    requires c.p.state.StartReqOrRes? && |w| >= 2 && w[0] == 'H' && w[1] == 'E' && c.nread + 2 <= s.limit
    ensures RunOf(s, c, w) == RunOf(s, AsKind(c, Request), w)
  {
    FirstH(s, c);
    RequestH(s, c);
    EitherE(s, c);
    RequestE(s, c);
    TwoBytes(s, c, w);
    TwoBytes(s, AsKind(c, Request), w);
  }

  // ---------- versions ----------

  /** The byte that stands at a place of a version. */
  predicate VersionByteAt(i: nat, ch: char) {
    match i
    case 0 => ch == 'H'
    case 1 => ch == 'T'
    case 2 => ch == 'T'
    case 3 => ch == 'P'
    case 4 => ch == '/'
    case 5 => IsNum(ch)
    case 6 => ch == '.'
    case _ => IsNum(ch)
  }

  /** `w` is a version from its i-th byte on. */
  predicate VersionFrom(i: nat, w: string)
    decreases |w|
  {
    if i >= 8 then w == "" else w != "" && VersionByteAt(i, w[0]) && VersionFrom(i + 1, w[1..])
  }

  /** The states in front of the bytes of the version of a request, and of a response. */
  function VersionState(request: bool, i: nat): State
    requires i <= 8
  {
    match i
    case 0 => if request then ReqHttpStart else StartRes
    case 1 => if request then ReqHttpH else ResH
    case 2 => if request then ReqHttpHT else ResHT
    case 3 => if request then ReqHttpHTT else ResHTT
    case 4 => if request then ReqHttpHTTP else ResHTTP
    case 5 => if request then ReqHttpMajor else ResHttpMajor
    case 6 => if request then ReqHttpDot else ResHttpDot
    case 7 => if request then ReqHttpMinor else ResHttpMinor
    case 8 => if request then ReqHttpEnd else ResHttpEnd
  }

  /** What an arm does with a byte of a version. */
  predicate TakesVersionByte(r: Outcome, ok: bool, next: State) {
    if ok then r.Consume? && r.p.state == next && r.event == None else r.Error? && r.errno != CbHeadersComplete
  }

  lemma RequestVersionArmByte(p: Parser, i: nat, ch: char)
    requires i < 8 && p.state == VersionState(true, i) && (i == 0 ==> ch == 'H')
    ensures TakesVersionByte(RequestVersionArm(p, ch), VersionByteAt(i, ch), VersionState(true, i + 1))
  {
    match i
    case 0 => case 1 => case 2 => case 3 => case 4 => case 5 => case 6 => case 7 =>
  }

  lemma StatusVersionArmByte(p: Parser, i: nat, ch: char)
    requires 0 < i < 8 && p.state == VersionState(false, i)
    ensures TakesVersionByte(StatusLineArm(p, ch), VersionByteAt(i, ch), VersionState(false, i + 1))
  {
    match i
    case 1 => case 2 => case 3 => case 4 => case 5 => case 6 => case 7 =>
  }

  predicate StepsOverVersionByte(s: Settings, c: Conf, ch: char, ok: bool, next: State) {
    var r := Step(s, c, ch);
    if ok then r.Consumed? && r.c.p.state == next && r.c.nread == c.nread + 1 else r.Failed?
  }

  lemma RequestVersionStep(s: Settings, c: Conf, i: nat, ch: char)
    requires i < 8 && c.p.state == VersionState(true, i) && c.nread < s.limit && (i == 0 ==> ch == 'H')
    ensures StepsOverVersionByte(s, c, ch, VersionByteAt(i, ch), VersionState(true, i + 1))
  {
    RequestVersionArmByte(c.p, i, ch);
    VersionByte(s, c, ch);
    ArmStep(s, c, ch);
  }

  lemma StatusVersionStep(s: Settings, c: Conf, i: nat, ch: char)
    requires i < 8 && c.p.state == VersionState(false, i) && c.nread < s.limit && (i == 0 ==> ch == 'H')
    ensures StepsOverVersionByte(s, c, ch, VersionByteAt(i, ch), VersionState(false, i + 1))
  {
    if i == 0 {
      StatusLineH(s, c);
    } else {
      StatusVersionArmByte(c.p, i, ch);
      StatusByte(s, c, ch);
      ArmStep(s, c, ch);
    }
  }

  lemma OneByte(s: Settings, c: Conf, w: string)
    requires w != ""
    ensures var r := Step(s, c, w[0]);
            (r.Consumed? ==> RunOf(s, c, w) == Shift(RunOf(s, r.c, w[1..]), 1)) &&
            (r.Failed? ==> RunOf(s, c, w) == RanFailed(r.errno, 0, r.log))
  {
  }

  lemma AnyVersionStep(s: Settings, c: Conf, request: bool, i: nat, ch: char)
    requires i < 8 && c.p.state == VersionState(request, i) && c.nread < s.limit && (i == 0 ==> ch == 'H')
    ensures StepsOverVersionByte(s, c, ch, VersionByteAt(i, ch), VersionState(request, i + 1))
  {
    if request {
      RequestVersionStep(s, c, i, ch);
    } else {
      StatusVersionStep(s, c, i, ch);
    }
  }

  /** The run over a version, or over the rest of one, goes through. */
  predicate VersionRuns(s: Settings, c: Conf, w: string, ok: bool, last: State) {
    var r := RunOf(s, c, w);
    if ok then r.Ran? && r.c.p.state == last else r.RanFailed?
  }

  lemma {:induction false} VersionCons(s: Settings, c: Conf, i: nat, w: string, next: State, last: State)
    requires w != "" && i < 8 && StepsOverVersionByte(s, c, w[0], VersionByteAt(i, w[0]), next)
    requires VersionByteAt(i, w[0]) ==> VersionRuns(s, Step(s, c, w[0]).c, w[1..], VersionFrom(i + 1, w[1..]), last)
    ensures VersionRuns(s, c, w, VersionFrom(i, w), last)
  {
    OneByte(s, c, w);
  }

  /** From the i-th byte of a version on, bytes are read exactly if they complete one, in requests and in responses; the
      first byte decides whether there is a version at all. */
  lemma {:induction false} VersionIsExact(s: Settings, c: Conf, request: bool, i: nat, w: string)
    requires i <= 8 && |w| == 8 - i && c.p.state == VersionState(request, i) && c.nread + |w| <= s.limit
    requires i == 0 ==> w[0] == 'H'
    ensures VersionRuns(s, c, w, VersionFrom(i, w), VersionState(request, 8))
    decreases |w|
  {
    if i < 8 {
      AnyVersionStep(s, c, request, i, w[0]);
      if VersionByteAt(i, w[0]) {
        VersionIsExact(s, Step(s, c, w[0]).c, request, i + 1, w[1..]);
      }
      VersionCons(s, c, i, w, VersionState(request, i + 1), VersionState(request, 8));
    }
  }

  /** Such a version is the word HTTP with a slash, and two digits with a dot between them. */
  lemma VersionFromStart(w: string)
    requires |w| == 8
    ensures VersionFrom(0, w) <==> IsNum(w[5]) && IsNum(w[7]) && w == VersionText(w[5], w[7])
  {
    VersionUnrolled(w);
    assert |VersionText(w[5], w[7])| == 8;
  }

  lemma VersionUnrolled(w: string)
    requires |w| == 8
    ensures VersionFrom(0, w) <==>
            VersionByteAt(0, w[0]) && VersionByteAt(1, w[1]) && VersionByteAt(2, w[2]) && VersionByteAt(3, w[3]) &&
            VersionByteAt(4, w[4]) && VersionByteAt(5, w[5]) && VersionByteAt(6, w[6]) && VersionByteAt(7, w[7])
  {
    VersionTail(w, 0);
    VersionTail(w, 1);
    VersionTail(w, 2);
    VersionTail(w, 3);
    VersionTail(w, 4);
    VersionTail(w, 5);
    VersionTail(w, 6);
    VersionTail(w, 7);
  }

  lemma VersionTail(w: string, i: nat)
    requires i < |w| == 8
    ensures VersionFrom(i, w[i..]) <==> VersionByteAt(i, w[i]) && VersionFrom(i + 1, w[i + 1..])
    ensures w[0..] == w && w[8..] == ""
  {
    assert w[i..][1..] == w[i + 1..];
  }

  /** The word ICE may stand for HTTP in a request, if its method is SOURCE. */
  lemma {:induction false} IceIsExact(s: Settings, c: Conf)
    requires c.p.state.ReqHttpStart? && c.nread + 3 <= s.limit
    ensures RunOf(s, c, "ICE") ==
            if c.p.line.verb == SOURCE then Ran(Conf(c.p.(state := VersionState(true, 4)), c.nread + 3, c.log))
            else RanFailed(InvalidConstant, 0, c.log)
  {
    if c.p.line.verb == SOURCE {
      var path := [c.p, c.p.(state := ReqHttpI), c.p.(state := ReqHttpIC), c.p.(state := ReqHttpHTTP)];
      forall i | 0 <= i < 3 ensures Silently(path[i], "ICE"[i], path[i + 1]) {
        IceByte(c.p, i);
      }
      PathRun(s, c, path, "ICE");
    } else {
      VersionByte(s, c, 'I');
      ArmStep(s, c, 'I');
    }
  }

  lemma IceByte(p: Parser, i: nat)
    requires i < 3 && p.state.ReqHttpStart? && p.line.verb == SOURCE
    ensures var path := [p, p.(state := ReqHttpI), p.(state := ReqHttpIC), p.(state := ReqHttpHTTP)];
            Silently(path[i], "ICE"[i], path[i + 1])
  {
  }

  // ---------- folded lines ----------

  /** A continuation line: it begins with a blank. */
  predicate Continues(s: Settings, w: string) {
    w != "" && IsBlank(w[0]) && AllPlain(s, w[1..])
  }

  /** The matchers do not look into a continuation line. */
  predicate FoldsFreely(h: HState) {
    !h.HContentLengthNum? && !h.HContentLengthWs? && !h.HMatchingTeTokenStart? && !h.HMatchingConnTokenStart? &&
    !h.HUpgrade? && !h.HTransferEncoding? && !h.HContentLength? && !h.HConnection?
  }

  function Folded(c: Conf, w: string): Conf {
    Conf(c.p.(state := HeaderValue, index := 0, hstate := HGeneral), c.nread + |w|, Emit(c.log, Data(Value, w)))
  }

  lemma FoldByte(s: Settings, c: Conf, ch: char)
    requires c.p.state.HeaderValueLws? && FoldsFreely(c.p.hstate) && IsBlank(ch) && c.nread < s.limit
    ensures Step(s, c, ch) == Consumed(Folded(c, [ch]))
  {
    var d := Conf(c.p.(state := HeaderValueStart), c.nread + 1, c.log);
    assert ArmOf(s, Counted(c), ch) == Repeats(d) by { HeaderByte(s, Counted(c), ch); }
    assert Chain(s, d, ch) == Consumed(Folded(c, [ch])) by {
      HeaderByte(s, d, ch);
      FoldStart(d.p, ch);
    }
  }

  lemma FoldStart(p: Parser, ch: char)
    requires FoldsFreely(p.hstate)
    ensures ValueStartArm(p, ch) ==
            Consume(p.(state := HeaderValue, index := 0, hstate := HGeneral), Some(Data(Value, [ch])))
  {
    match p.hstate
    case HUpgrade => case HTransferEncoding => case HMatchingTeTokenStart => case HContentLength =>
    case HContentLengthWs => case HConnection => case HMatchingConnTokenStart =>
    case _ =>
  }

  /** A line that begins with a blank continues the value of the line before it: it is delivered as it stands, blank
      included and line end left out, and its words do not count. */
  lemma {:induction false} ContinuationRun(s: Settings, c: Conf, w: string)
    requires Inv(c) && c.p.state.HeaderValueLws? && FoldsFreely(c.p.hstate) && Continues(s, w)
    requires c.nread + |w| <= s.limit
    ensures RunOf(s, c, w) == Ran(Folded(c, w))
  {
    var d := Folded(c, [w[0]]);
    FoldByte(s, c, w[0]);
    StepInv(s, c, w[0]);
    GeneralFold(d.p, w[1..]);
    ValueStretch(s, d, w[1..]);
    EmitPieces(c.log, Value, [w[0]], w[1..]);
    assert [w[0]] + w[1..] == w;
    RunFirstByte(s, c, w[0], w[1..], d, Folded(c, w));
  }

  // ---------- bytes of header lines ----------

  /** A name consists of token bytes up to its colon; anything else is refused. */
  lemma {:induction false} NameBytesAreExact(s: Settings, c: Conf, ch: char)
    requires Inv(c) && c.p.state.HeaderField? && c.nread < s.limit
    ensures if IsToken(ch) then Step(s, c, ch).Consumed? && Step(s, c, ch).c.p.state.HeaderField?
            else if ch == ':' then Step(s, c, ch).Consumed? && Step(s, c, ch).c.p.state.HeaderValueDiscardWs?
            else Step(s, c, ch) == Failed(InvalidHeaderToken, c.log)
  {
    if IsToken(ch) {
      FieldStep(s, c, ch);
    } else {
      HeaderByte(s, c, ch);
      ArmStep(s, c, ch);
    }
  }

  /** A header line begins with a token byte, unless it ends the section. */
  lemma {:induction false} FirstBytesAreExact(s: Settings, c: Conf, ch: char)
    requires c.p.state.HeaderFieldStart? && c.nread < s.limit && ch != CR && ch != LF
    ensures if IsToken(ch) then Step(s, c, ch).Consumed? && Step(s, c, ch).c.p.state.HeaderField?
            else Step(s, c, ch) == Failed(InvalidHeaderToken, c.log)
  {
    HeaderByte(s, c, ch);
    ArmStep(s, c, ch);
  }

  /** A value that no matcher looks into consists of the bytes that may stand in a header; a lenient parser
      takes any. */
  lemma {:induction false} ValueBytesAreExact(s: Settings, c: Conf, ch: char)
    requires Inv(c) && c.p.state.HeaderValue? && c.p.hstate.HGeneral? && c.nread < s.limit && ch != CR && ch != LF
    ensures Step(s, c, ch) ==
            if s.lenient || IsHeaderChar(ch) then Consumed(Conf(c.p, c.nread + 1, Emit(c.log, Data(Value, [ch]))))
            else Failed(InvalidHeaderToken, c.log)
  {
    if s.lenient || IsHeaderChar(ch) {
      ValueStep(s, c, ch);
    } else {
      HeaderByte(s, c, ch);
      ArmStep(s, c, ch);
    }
  }
}
