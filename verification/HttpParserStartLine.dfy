/** Start lines as a writer prints them (section 3.1 of RFC 7230) are read back field by field. */
module HttpParserStartLine {
  import opened Options
  import opened HttpBytes
  import opened HttpHeaderText
  import opened HttpParserTypes
  import opened HttpParserArms
  import opened HttpParserRun
  import opened HttpParserSections
  import opened HttpParserMethod
  import Url = UrlParser

  // ---------- bytes that deliver nothing ----------

  /** The parser moves from `p` to `q` over a byte of the start line without a callback. */
  predicate Silently(p: Parser, ch: char, q: Parser) {
    (StatusLineState(p.state) && StatusLineArm(p, ch) == Consume(q, None)) ||
    (VersionState(p.state) && RequestVersionArm(p, ch) == Consume(q, None))
  }

  lemma StatusByte(s: Settings, c: Conf, ch: char)
    requires StatusLineState(c.p.state)
    ensures Arm(s, c.p, ch, s.onHeadersComplete(c.log)) == StatusLineArm(c.p, ch)
  {
  }

  lemma VersionByte(s: Settings, c: Conf, ch: char)
    requires VersionState(c.p.state)
    ensures Arm(s, c.p, ch, s.onHeadersComplete(c.log)) == RequestVersionArm(c.p, ch)
  {
  }

  /** States in which one arm settles the byte, and the byte counts against the header limit. */
  predicate OneArmState(s: State) {
    ParsingHeader(s) && !s.ChunkSizeStart? && !ResetsNread(s)
  }

  lemma ArmStep(s: Settings, c: Conf, ch: char)
    requires OneArmState(c.p.state) && c.nread < s.limit
    ensures var r := Arm(s, c.p, ch, s.onHeadersComplete(c.log));
            (r.Consume? ==> Step(s, c, ch) == Consumed(Conf(r.p, c.nread + 1, EmitOption(c.log, r.event)))) &&
            (r.Error? && r.errno != CbHeadersComplete ==> Step(s, c, ch) == Failed(r.errno, c.log))
  {
  }

  lemma SilentByte(s: Settings, c: Conf, ch: char, q: Parser)
    requires Silently(c.p, ch, q) && c.nread < s.limit
    ensures Step(s, c, ch) == Consumed(Conf(q, c.nread + 1, c.log))
  {
    if StatusLineState(c.p.state) {
      StatusByte(s, c, ch);
    } else {
      VersionByte(s, c, ch);
    }
    ArmStep(s, c, ch);
  }

  /** The parsers of `path` are those before, between and after the bytes of `w`. */
  predicate Path(path: seq<Parser>, w: string) {
    |path| == |w| + 1 && forall i :: 0 <= i < |w| ==> Silently(path[i], w[i], path[i + 1])
  }

  lemma {:induction false} PathRun(s: Settings, c: Conf, path: seq<Parser>, w: string)
    requires Path(path, w) && c.p == path[0] && c.nread + |w| <= s.limit
    ensures RunOf(s, c, w) == Ran(Conf(path[|w|], c.nread + |w|, c.log))
    decreases |w|
  {
    if w != "" {
      var d := Conf(path[1], c.nread + 1, c.log);
      SilentByte(s, c, w[0], path[1]);
      PathRun(s, d, path[1..], w[1..]);
    }
  }

  // ---------- the URL of a request ----------

  /** A URL that the walker passes and that may end where it ends. */
  predicate WalksToEnd(m: Method, u: string) {
    var t := Url.StateOf(m == CONNECT, u, |u|);
    t != Dead && !EarlyUrlState(t)
  }

  function AtUrl(c: Conf, u: string, n: nat): Conf
    requires n <= |u|
  {
    Conf(c.p.(state := Url.StateOf(c.p.line.verb == CONNECT, u, n)), c.nread + n,
        Emit(c.log, Data(Element.Url, u[..n])))
  }

  lemma WalkedInto(s: State, ch: char)
    requires (s.ReqSpacesBeforeUrl? || UrlState(s)) && ParseUrlChar(s, ch) != Dead
    ensures UrlState(ParseUrlChar(s, ch)) && !IsBreak(ch)
  {
  }

  predicate IsBreak(ch: char) {
    ch == ' ' || ch == CR || ch == LF
  }

  predicate Unbroken(u: string) {
    forall i :: 0 <= i < |u| ==> !IsBreak(u[i])
  }

  lemma UrlArmByte(p: Parser, ch: char)
    requires UrlState(p.state) && !IsBreak(ch)
    ensures RequestLineArm(p, ch) == UrlByte(p, p.state, ch)
  {
  }

  lemma RequestByte(s: Settings, c: Conf, ch: char)
    requires UrlState(c.p.state) || c.p.state.ReqSpacesBeforeUrl?
    ensures Arm(s, c.p, ch, s.onHeadersComplete(c.log)) == RequestLineArm(c.p, ch)
  {
  }

  lemma UrlByteStep(s: Settings, c: Conf, from: State, ch: char)
    requires UrlState(c.p.state) || c.p.state.ReqSpacesBeforeUrl?
    requires c.nread < s.limit && RequestLineArm(c.p, ch) == UrlByte(c.p, from, ch)
    ensures Step(s, c, ch) ==
            if ParseUrlChar(from, ch) == Dead then Failed(InvalidUrl, c.log)
            else Consumed(Conf(c.p.(state := ParseUrlChar(from, ch)), c.nread + 1,
                Emit(c.log, Data(Element.Url, [ch]))))
  {
    RequestByte(s, c, ch);
    ArmStep(s, c, ch);
  }

  /** The parser walks over one more byte of the URL as the first pass of http_parser_parse_url does. */
  lemma {:induction false} UrlStep(s: Settings, c: Conf, u: string, n: nat)
    requires c.p.state.ReqSpacesBeforeUrl? && 0 < n < |u| && c.nread + n < s.limit && !IsBreak(u[n])
    requires UrlState(Url.StateOf(c.p.line.verb == CONNECT, u, n))
    ensures var t := Url.StateOf(c.p.line.verb == CONNECT, u, n + 1);
            Step(s, AtUrl(c, u, n), u[n]) ==
            if t == Dead then Failed(InvalidUrl, AtUrl(c, u, n).log) else Consumed(AtUrl(c, u, n + 1))
  {
    var d := AtUrl(c, u, n);
    UrlArmByte(d.p, u[n]);
    UrlByteStep(s, d, d.p.state, u[n]);
    EmitPieces(c.log, Element.Url, u[..n], [u[n]]);
    assert u[..n + 1] == u[..n] + [u[n]];
  }

  lemma {:induction false} FirstUrlStep(s: Settings, c: Conf, u: string)
    requires c.p.state.ReqSpacesBeforeUrl? && u != "" && c.nread < s.limit && !IsBreak(u[0])
    ensures var t := Url.StateOf(c.p.line.verb == CONNECT, u, 1);
            Step(s, c, u[0]) == if t == Dead then Failed(InvalidUrl, c.log) else Consumed(AtUrl(c, u, 1))
  {
    var conn := c.p.line.verb == CONNECT;
    assert Url.StateOf(conn, u, 1) == ParseUrlChar(Url.StateOf(conn, u, 0), u[0]);
    UrlByteStep(s, c, Url.StartOfWalk(conn), u[0]);
    assert u[..1] == [u[0]];
  }

  /** The parser gets over the first `n` bytes of a URL if and only if the walker does. */
  predicate WalksUrl(s: Settings, c: Conf, u: string, n: nat)
    requires 0 < n <= |u|
  {
    if Url.StateOf(c.p.line.verb == CONNECT, u, n) == Dead then RunOf(s, c, u[..n]).RanFailed?
    else RunOf(s, c, u[..n]) == Ran(AtUrl(c, u, n))
  }

  lemma {:induction false} UrlRunStart(s: Settings, c: Conf, u: string)
    requires c.p.state.ReqSpacesBeforeUrl? && u != "" && c.nread < s.limit && !IsBreak(u[0])
    ensures WalksUrl(s, c, u, 1)
  {
    FirstUrlStep(s, c, u);
    assert u[..1] == "" + [u[0]];
    if Url.StateOf(c.p.line.verb == CONNECT, u, 1) == Dead {
      RunThenFailure(s, c, "", u[0]);
    } else {
      RunThenByte(s, c, "", u[0], c, AtUrl(c, u, 1));
    }
  }

  lemma {:induction false} UrlRunMore(s: Settings, c: Conf, u: string, n: nat)
    requires c.p.state.ReqSpacesBeforeUrl? && 0 < n < |u| && c.nread + n < s.limit && !IsBreak(u[n])
    requires UrlState(Url.StateOf(c.p.line.verb == CONNECT, u, n)) && WalksUrl(s, c, u, n)
    ensures WalksUrl(s, c, u, n + 1)
  {
    UrlStep(s, c, u, n);
    assert u[..n + 1] == u[..n] + [u[n]];
    if Url.StateOf(c.p.line.verb == CONNECT, u, n + 1) == Dead {
      RunThenFailure(s, c, u[..n], u[n]);
    } else {
      RunThenByte(s, c, u[..n], u[n], AtUrl(c, u, n), AtUrl(c, u, n + 1));
    }
  }

  lemma {:induction false} UrlRunDead(s: Settings, c: Conf, u: string, n: nat)
    requires 0 < n < |u| && Url.StateOf(c.p.line.verb == CONNECT, u, n) == Dead && WalksUrl(s, c, u, n)
    ensures WalksUrl(s, c, u, n + 1)
  {
    Url.DeadWalk(u[n]);
    assert u[..n + 1] == u[..n] + [u[n]];
    RunThenFailure(s, c, u[..n], u[n]);
  }

  lemma {:induction false} UrlRunNext(s: Settings, c: Conf, u: string, n: nat)
    requires c.p.state.ReqSpacesBeforeUrl? && 0 < n < |u| && c.nread + n < s.limit && !IsBreak(u[n])
    requires WalksUrl(s, c, u, n)
    ensures WalksUrl(s, c, u, n + 1)
  {
    if Url.StateOf(c.p.line.verb == CONNECT, u, n) == Dead {
      UrlRunDead(s, c, u, n);
    } else {
      WalkedBytes(c.p.line.verb == CONNECT, u, n);
      UrlRunMore(s, c, u, n);
    }
  }

  /** The parser walks over a URL as the first pass of http_parser_parse_url does, and fails where that fails. */
  lemma {:induction false} UrlRun(s: Settings, c: Conf, u: string, n: nat)
    requires c.p.state.ReqSpacesBeforeUrl? && 0 < n <= |u| && c.nread + n <= s.limit && Unbroken(u)
    ensures WalksUrl(s, c, u, n)
    decreases n
  {
    if n == 1 {
      UrlRunStart(s, c, u);
    } else {
      UrlRun(s, c, u, n - 1);
      UrlRunNext(s, c, u, n - 1);
    }
  }

  lemma UrlSpace(s: Settings, c: Conf)
    requires UrlState(c.p.state) && c.nread < s.limit
    ensures Step(s, c, ' ') ==
            if EarlyUrlState(c.p.state) then Failed(InvalidUrl, c.log)
            else Consumed(Conf(c.p.(state := ReqHttpStart), c.nread + 1, c.log))
  {
    RequestByte(s, c, ' ');
    ArmStep(s, c, ' ');
  }

  function AfterUrl(c: Conf, u: string): Conf {
    Conf(c.p.(state := ReqHttpStart), c.nread + |u| + 1, Emit(c.log, Data(Element.Url, u)))
  }

  /** A request is let past its URL exactly when the walker passes it and it may end there; it is then
      delivered as it was written. */
  lemma {:induction false} UrlIsExact(s: Settings, c: Conf, u: string)
    requires c.p.state.ReqSpacesBeforeUrl? && u != "" && Unbroken(u)
    requires c.nread + |u| < s.limit
    ensures if WalksToEnd(c.p.line.verb, u) then RunOf(s, c, u + " ") == Ran(AfterUrl(c, u))
            else RunOf(s, c, u + " ").RanFailed?
  {
    var conn := c.p.line.verb == CONNECT;
    UrlRun(s, c, u, |u|);
    assert u[..|u|] == u;
    RunSnoc(s, c, u, ' ');
    if Url.StateOf(conn, u, |u|) != Dead {
      WalkedBytes(conn, u, |u|);
      UrlSpace(s, AtUrl(c, u, |u|));
    }
  }

  lemma {:induction false} WalkedBytes(conn: bool, u: string, n: nat)
    requires n <= |u| && Url.StateOf(conn, u, n) != Dead
    ensures Unbroken(u[..n]) && (n > 0 ==> UrlState(Url.StateOf(conn, u, n)))
    decreases n
  {
    if n > 0 {
      Url.AliveBefore(conn, u, n - 1, n);
      WalkedBytes(conn, u, n - 1);
      WalkedInto(Url.StateOf(conn, u, n - 1), u[n - 1]);
      assert u[..n] == u[..n - 1] + [u[n - 1]];
    }
  }

  // ---------- the version of a request ----------

  function Versioned(p: Parser, a: char, b: char): Parser
    requires IsNum(a) && IsNum(b)
  {
    p.(state := HeaderFieldStart, line := p.line.(major := Digit(a), minor := Digit(b)))
  }

  function VersionText(a: char, b: char): string {
    "HTTP/" + [a, '.', b]
  }

  function VersionPath(p: Parser, a: char, b: char): seq<Parser>
    requires IsNum(a) && IsNum(b)
  {
    var x, y := p.line.(major := Digit(a)), p.line.(major := Digit(a), minor := Digit(b));
    [p, p.(state := ReqHttpH), p.(state := ReqHttpHT), p.(state := ReqHttpHTT), p.(state := ReqHttpHTTP),
     p.(state := ReqHttpMajor), p.(state := ReqHttpDot, line := x), p.(state := ReqHttpMinor, line := x),
     p.(state := ReqHttpEnd, line := y), p.(state := ReqLineAlmostDone, line := y), Versioned(p, a, b)]
  }

  lemma VersionWalks(p: Parser, a: char, b: char, i: nat)
    requires p.state.ReqHttpStart? && IsNum(a) && IsNum(b) && i < 10
    ensures var path := VersionPath(p, a, b);
            Silently(path[i], (VersionText(a, b) + [CR, LF])[i], path[i + 1])
  {
  }

  lemma {:induction false} RequestVersionRun(s: Settings, c: Conf, a: char, b: char)
    requires c.p.state.ReqHttpStart? && IsNum(a) && IsNum(b) && c.nread + 10 <= s.limit
    ensures RunOf(s, c, VersionText(a, b) + [CR, LF]) == Ran(Conf(Versioned(c.p, a, b), c.nread + 10, c.log))
  {
    forall i: nat | i < 10 ensures Silently(VersionPath(c.p, a, b)[i], (VersionText(a, b) + [CR, LF])[i],
        VersionPath(c.p, a, b)[i + 1]) {
      VersionWalks(c.p, a, b, i);
    }
    PathRun(s, c, VersionPath(c.p, a, b), VersionText(a, b) + [CR, LF]);
  }

  /** The request line: method, URL and version. */
  function RequestLine(m: Method, u: string, a: char, b: char): string {
    MethodString(m) + " " + u + " " + VersionText(a, b) + [CR, LF]
  }

  function AfterRequestLine(c: Conf, m: Method, u: string, a: char, b: char): Conf
    requires IsNum(a) && IsNum(b)
  {
    var p := BeginMessage(c.p);
    Conf(p.(state := HeaderFieldStart, index := |MethodString(m)| + 1,
            line := c.p.line.(verb := m, major := Digit(a), minor := Digit(b))),
         c.nread + |RequestLine(m, u, a, b)|, Emit(Emit(c.log, MessageBegin), Data(Element.Url, u)))
  }

  /** The part before the version. */
  lemma {:induction false} MethodAndUrlRun(s: Settings, c: Conf, m: Method, u: string)
    requires c.p.state.StartReq? && u != "" && WalksToEnd(m, u)
    requires c.nread + |MethodString(m)| + |u| + 2 <= s.limit
    ensures RunOf(s, c, MethodString(m) + " " + (u + " ")) == Ran(AfterUrl(AfterMethod(c, m), u))
  {
    var w, d, e := MethodString(m), AfterMethod(c, m), AfterUrl(AfterMethod(c, m), u);
    assert RunOf(s, c, w + " ") == Ran(d) by {
      MethodLetters(m);
      MethodIsExact(s, c, w, m);
    }
    assert RunOf(s, d, u + " ") == Ran(e) by {
      WalkedBytes(m == CONNECT, u, |u|);
      assert u[..|u|] == u;
      UrlIsExact(s, d, u);
    }
    RunThenRun(s, c, w + " ", u + " ", d, e);
  }

  /** A request line comes back as it was written: method, URL and version. */
  lemma {:induction false} RequestLineRun(s: Settings, c: Conf, m: Method, u: string, a: char, b: char)
    requires c.p.state.StartReq? && u != "" && WalksToEnd(m, u) && IsNum(a) && IsNum(b)
    requires c.nread + |RequestLine(m, u, a, b)| <= s.limit
    ensures RunOf(s, c, RequestLine(m, u, a, b)) == Ran(AfterRequestLine(c, m, u, a, b))
  {
    var front, v := MethodString(m) + " " + (u + " "), VersionText(a, b) + [CR, LF];
    var e := AfterUrl(AfterMethod(c, m), u);
    MethodAndUrlRun(s, c, m, u);
    RequestVersionRun(s, e, a, b);
    RunThenRun(s, c, front, v, e, AfterRequestLine(c, m, u, a, b));
    assert RequestLine(m, u, a, b) == front + v;
  }

  lemma MethodLetters(m: Method)
    ensures IsAlpha(MethodString(m)[0]) && ' ' !in MethodString(m)
  {
    forall i | 0 <= i < |MethodString(m)| ensures MethodString(m)[i] != ' ' {
      NamesAreUpper(m, i);
    }
  }

  // ---------- the status line of a response ----------

  /** The digits of a status code, up to the value the parser admits. */
  predicate IsStatusCode(code: string) {
    AllDigits(code) && code != "" && Decimal(code) <= 999
  }

  function WithCode(p: Parser, n: nat): Parser {
    p.(state := ResStatusCode, line := p.line.(statusCode := n))
  }

  lemma CodeByte(s: Settings, c: Conf, ch: char)
    requires IsNum(ch) && c.nread < s.limit
    ensures c.p.state.ResFirstStatusCode? ==>
            Step(s, c, ch) == Consumed(Conf(WithCode(c.p, Digit(ch)), c.nread + 1, c.log))
    ensures c.p.state.ResStatusCode? ==>
              var n := c.p.line.statusCode * 10 + Digit(ch);
              Step(s, c, ch) == if n > 999 then Failed(InvalidStatus, c.log)
                  else Consumed(Conf(WithCode(c.p, n), c.nread + 1, c.log))
  {
    if StatusLineState(c.p.state) {
      StatusByte(s, c, ch);
      ArmStep(s, c, ch);
    }
  }

  /** A status code of any number of digits is read exactly if its value is at most 999. */
  lemma {:induction false} StatusCodeIsExact(s: Settings, c: Conf, code: string)
    requires c.p.state.ResFirstStatusCode? && AllDigits(code) && code != "" && c.nread + |code| <= s.limit
    ensures if Decimal(code) <= 999
            then RunOf(s, c, code) == Ran(Conf(WithCode(c.p, Decimal(code)), c.nread + |code|, c.log))
            else RunOf(s, c, code).RanFailed?
    decreases |code|
  {
    var front, last := code[..|code| - 1], code[|code| - 1];
    assert code == front + [last];
    RunSnoc(s, c, front, last);
    if front == "" {
      assert Decimal(front) == 0;
      CodeByte(s, c, last);
    } else {
      StatusCodeIsExact(s, c, front);
      if Decimal(front) <= 999 {
        CodeByte(s, Conf(WithCode(c.p, Decimal(front)), c.nread + |front|, c.log), last);
      }
    }
  }

  function StatusVersionText(a: char, b: char): string {
    ['T', 'T', 'P', '/', a, '.', b, ' ']
  }

  function StatusVersionPath(p: Parser, a: char, b: char): seq<Parser>
    requires IsNum(a) && IsNum(b)
  {
    var x, y := p.line.(major := Digit(a)), p.line.(major := Digit(a), minor := Digit(b));
    [p, p.(state := ResHT), p.(state := ResHTT), p.(state := ResHTTP), p.(state := ResHttpMajor),
     p.(state := ResHttpDot, line := x), p.(state := ResHttpMinor, line := x), p.(state := ResHttpEnd, line := y),
     p.(state := ResFirstStatusCode, line := y)]
  }

  lemma StatusVersionWalks(p: Parser, a: char, b: char, i: nat)
    requires p.state.ResH? && IsNum(a) && IsNum(b) && i < 8
    ensures var path := StatusVersionPath(p, a, b); Silently(path[i], StatusVersionText(a, b)[i], path[i + 1])
  {
  }

  /** The version in front of a status code. */
  lemma {:induction false} StatusVersionRun(s: Settings, c: Conf, a: char, b: char)
    requires c.p.state.ResH? && IsNum(a) && IsNum(b) && c.nread + 8 <= s.limit
    ensures RunOf(s, c, StatusVersionText(a, b)) == Ran(Conf(StatusVersionPath(c.p, a, b)[8], c.nread + 8, c.log))
  {
    var path, w := StatusVersionPath(c.p, a, b), StatusVersionText(a, b);
    forall i: nat | i < 8 ensures Silently(path[i], w[i], path[i + 1]) {
      StatusVersionWalks(c.p, a, b, i);
    }
    PathRun(s, c, path, w);
  }

  predicate NoLineEnd(reason: string) {
    forall i :: 0 <= i < |reason| ==> reason[i] != CR && reason[i] != LF
  }

  function InReason(c: Conf, reason: string): Conf {
    Conf(c.p.(state := ResStatus, index := 0), c.nread + |reason|, Emit(c.log, Data(Status, reason)))
  }

  lemma ReasonByte(s: Settings, c: Conf, ch: char)
    requires c.p.state.ResStatusStart? && c.nread < s.limit && ch != CR && ch != LF
    ensures Step(s, c, ch) == Consumed(InReason(c, [ch]))
  {
    StatusByte(s, c, ch);
    ArmStep(s, c, ch);
  }

  lemma {:induction false} ReasonMore(s: Settings, c: Conf, reason: string, ch: char)
    requires c.nread + |reason| < s.limit && ch != CR && ch != LF
    ensures Step(s, InReason(c, reason), ch) == Consumed(InReason(c, reason + [ch]))
  {
    var d := InReason(c, reason);
    StatusByte(s, d, ch);
    ArmStep(s, d, ch);
    EmitPieces(c.log, Status, reason, [ch]);
  }

  lemma {:induction false} ReasonRun(s: Settings, c: Conf, reason: string)
    requires c.p.state.ResStatusStart? && reason != "" && NoLineEnd(reason) && c.nread + |reason| <= s.limit
    ensures RunOf(s, c, reason) == Ran(InReason(c, reason))
    decreases |reason|
  {
    var front, last := reason[..|reason| - 1], reason[|reason| - 1];
    assert reason == front + [last];
    if front == "" {
      ReasonByte(s, c, last);
      RunThenByte(s, c, "", last, c, InReason(c, reason));
    } else {
      ReasonRun(s, c, front);
      ReasonMore(s, c, front, last);
      RunThenByte(s, c, front, last, InReason(c, front), InReason(c, reason));
    }
  }

  function ReasonDone(c: Conf, reason: string): Conf {
    var d := InReason(c, reason);
    d.(p := d.p.(state := ResLineAlmostDone), nread := d.nread + 1)
  }

  /** The CR behind the reason, which is delivered even when it is empty. */
  lemma {:induction false} ReasonCr(s: Settings, c: Conf, reason: string)
    requires c.p.state.ResStatusStart? && c.nread + |reason| < s.limit
    ensures reason == "" ==> Step(s, c, CR) == Consumed(ReasonDone(c, reason))
    ensures Step(s, InReason(c, reason), CR) == Consumed(ReasonDone(c, reason))
  {
    var d := InReason(c, reason);
    StatusByte(s, d, CR);
    ArmStep(s, d, CR);
    if reason == "" {
      StatusByte(s, Counted(c), CR);
      assert ArmOf(s, Counted(c), CR) == Repeats(d.(nread := c.nread + 1));
      StatusByte(s, d.(nread := c.nread + 1), CR);
    }
  }

  lemma StatusLineLf(s: Settings, c: Conf)
    requires c.p.state.ResLineAlmostDone? && c.nread < s.limit
    ensures Step(s, c, LF) == Consumed(Conf(c.p.(state := HeaderFieldStart), c.nread + 1, c.log))
  {
    StatusByte(s, c, LF);
    ArmStep(s, c, LF);
  }

  lemma {:induction false} ReasonCrRun(s: Settings, c: Conf, reason: string)
    requires c.p.state.ResStatusStart? && NoLineEnd(reason) && c.nread + |reason| + 1 <= s.limit
    ensures RunOf(s, c, reason + [CR]) == Ran(ReasonDone(c, reason))
  {
    ReasonCr(s, c, reason);
    if reason == "" {
      RunThenByte(s, c, reason, CR, c, ReasonDone(c, reason));
    } else {
      ReasonRun(s, c, reason);
      RunThenByte(s, c, reason, CR, InReason(c, reason), ReasonDone(c, reason));
    }
  }

  lemma {:induction false} ReasonLineRun(s: Settings, c: Conf, reason: string)
    requires c.p.state.ResStatusStart? && NoLineEnd(reason) && c.nread + |reason| + 2 <= s.limit
    ensures RunOf(s, c, reason + [CR] + [LF]) ==
            Ran(Conf(c.p.(state := HeaderFieldStart, index := 0), c.nread + |reason| + 2,
                Emit(c.log, Data(Status, reason))))
  {
    var d := ReasonDone(c, reason);
    ReasonCrRun(s, c, reason);
    StatusLineLf(s, d);
    RunThenByte(s, c, reason + [CR], LF, d, Conf(d.p.(state := HeaderFieldStart), d.nread + 1, d.log));
  }

  /** The status line: version, status code and reason. */
  function StatusLine(a: char, b: char, code: string, reason: string): string {
    "H" + (StatusVersionText(a, b) + (code + (" " + (reason + [CR] + [LF]))))
  }

  function AfterStatusLine(c: Conf, a: char, b: char, code: string, reason: string): Conf
    requires IsNum(a) && IsNum(b) && IsStatusCode(code)
  {
    Conf(BeginMessage(c.p).(state := HeaderFieldStart, index := 0,
                            line := c.p.line.(major := Digit(a), minor := Digit(b), statusCode := Decimal(code))),
         c.nread + |StatusLine(a, b, code, reason)|, Emit(Emit(c.log, MessageBegin), Data(Status, reason)))
  }

  lemma StatusLineH(s: Settings, c: Conf)
    requires c.p.state.StartRes? && c.nread < s.limit
    ensures Step(s, c, 'H') == Consumed(Conf(BeginMessage(c.p).(state := ResH), c.nread + 1, Emit(c.log, MessageBegin)))
  {
    ArmStep(s, c, 'H');
  }

  lemma CodeSpace(s: Settings, c: Conf)
    requires c.p.state.ResStatusCode? && c.nread < s.limit
    ensures Step(s, c, ' ') == Consumed(Conf(c.p.(state := ResStatusStart), c.nread + 1, c.log))
  {
    StatusByte(s, c, ' ');
    ArmStep(s, c, ' ');
  }

  lemma {:induction false} CodeAndReasonRun(s: Settings, c: Conf, code: string, reason: string)
    requires c.p.state.ResFirstStatusCode? && IsStatusCode(code) && NoLineEnd(reason)
    requires c.nread + |code| + |reason| + 3 <= s.limit
    ensures RunOf(s, c, code + (" " + (reason + [CR] + [LF]))) ==
            Ran(Conf(c.p.(state := HeaderFieldStart, index := 0, line := c.p.line.(statusCode := Decimal(code))),
                     c.nread + |code| + |reason| + 3, Emit(c.log, Data(Status, reason))))
  {
    var line := reason + [CR] + [LF];
    var d := Conf(WithCode(c.p, Decimal(code)), c.nread + |code|, c.log);
    var e := Conf(d.p.(state := ResStatusStart), d.nread + 1, d.log);
    ReasonLineRun(s, e, reason);
    var end := RunOf(s, e, line).c;
    CodeSpace(s, d);
    RunThenByte(s, d, "", ' ', d, e);
    RunThenRun(s, d, " ", line, e, end);
    StatusCodeIsExact(s, c, code);
    RunThenRun(s, c, code, " " + line, d, end);
  }

  /** A status line comes back as it was written: version, code and reason. */
  lemma {:induction false} StatusLineRun(s: Settings, c: Conf, a: char, b: char, code: string, reason: string)
    requires c.p.state.StartRes? && IsNum(a) && IsNum(b) && IsStatusCode(code) && NoLineEnd(reason)
    requires c.nread + |StatusLine(a, b, code, reason)| <= s.limit
    ensures RunOf(s, c, StatusLine(a, b, code, reason)) == Ran(AfterStatusLine(c, a, b, code, reason))
  {
    var v, rest := StatusVersionText(a, b), code + (" " + (reason + [CR] + [LF]));
    var c1 := Conf(BeginMessage(c.p).(state := ResH), c.nread + 1, Emit(c.log, MessageBegin));
    var c2 := Conf(StatusVersionPath(c1.p, a, b)[8], c1.nread + 8, c1.log);
    var end := AfterStatusLine(c, a, b, code, reason);
    CodeAndReasonRun(s, c2, code, reason);
    StatusVersionRun(s, c1, a, b);
    RunThenRun(s, c1, v, rest, c2, end);
    StatusLineH(s, c);
    RunThenByte(s, c, "", 'H', c, c1);
    RunThenRun(s, c, "H", v + rest, c1, end);
  }
}
