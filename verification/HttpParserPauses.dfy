/** Inputs on which pausing makes a difference. */
module HttpParserPauses {
  import opened HttpBytes
  import opened HttpParserTypes
  import opened HttpParserArms
  import opened HttpParserRun
  import opened HttpParserInvariant
  import opened HttpParserGrammar
  import opened HttpParserReach
  import opened HttpParserExecute
  import opened HttpParserFrame
  import opened HttpParserMethod
  import opened HttpParserStartLine
  import opened HttpParserRequests
  import opened HttpParserReachable
  import opened HttpParserDrive
  import U = UrlParser

  /** "GET / HTTP/1.1" with its line end: 16 bytes. */
  function Line(): string {
    RequestLine(GET, "/", '1', '1')
  }

  lemma SlashIsUrl()
    ensures WalksToEnd(GET, "/")
  {
    assert U.StateOf(false, "/", 1) == ParseUrlChar(U.StateOf(false, "/", 0), '/');
  }

  lemma LineLength()
    ensures |Line()| == 16
  {
    assert MethodString(GET) == "GET";
  }

  /** The parser in front of the last byte of the empty header section. */
  function BeforeLf(): Conf {
    var c := AfterRequestLine(Fresh(Request), GET, "/", '1', '1');
    Conf(c.p.(state := HeadersAlmostDone), 17, c.log)
  }

  lemma {:induction false} ReachesLf(s: Settings)
    requires s.limit >= 17
    ensures RunOf(s, Fresh(Request), Line() + [CR]) == Ran(BeforeLf())
  {
    SlashIsUrl();
    LineLength();
    var c := AfterRequestLine(Fresh(Request), GET, "/", '1', '1');
    RequestLineRun(s, Fresh(Request), GET, "/", '1', '1');
    HeadCr(s, c);
    RunThenByte(s, Fresh(Request), Line(), CR, c, BeforeLf());
  }

  /** A header limit of 18 is exactly enough for this request. It goes through when nothing pauses; a parser that is
      paused in on_headers_complete is stuck. */
  lemma {:induction false} PauseAtLimit(s: Settings)
    requires s.limit == 18 && s.onHeadersComplete(BeforeLf().log) == 0
    ensures RunOf(s, Fresh(Request), Line() + [CR] + [LF]).Ran?
    ensures RunOf(s, Fresh(Request), Line() + [CR]) == Ran(BeforeLf())
    ensures var r := ArmOf(s, Counted(BeforeLf()), LF); r.Repeats? && Stuck(s, r.c)
  {
    ReachesLf(s);
    PauseAtLimitMatters(s, BeforeLf());
    RunSnoc(s, Fresh(Request), Line() + [CR], LF);
  }

  // ---------- a pause that gives bytes back ----------

  /** The request, which is 18 bytes long. */
  function Text(): string {
    Line() + [CR] + [LF]
  }

  /** The parser that has just delivered the URL. */
  function AtVersion(): Conf {
    AfterUrl(AfterMethod(Fresh(Request), GET), "/")
  }

  lemma {:induction false} ReachesVersion(s: Settings)
    requires s.limit >= 6
    ensures RunOf(s, Fresh(Request), "GET" + " " + ("/" + " ")) == Ran(AtVersion())
  {
    SlashIsUrl();
    MethodAndUrlRun(s, Fresh(Request), GET, "/");
    assert MethodString(GET) == "GET";
  }

  /** With a header limit of 17 the request is one byte too long. */
  lemma {:induction false} OneTooMany(s: Settings)
    requires s.limit == 17
    ensures Overflows(RunOf(s, Fresh(Request), Text()))
  {
    ReachesLf(s);
    RunSnoc(s, Fresh(Request), Line() + [CR], LF);
  }

  /** But a parser that stands anywhere behind its first byte and has counted nothing gets through. */
  lemma {:induction false} RestFits(s: Settings, text: string, n: nat, now: Conf, k: nat)
    requires s.limit == 17 && s.onHeadersComplete(BeforeLf().log) == 0 && text == Text()
    requires StandsIn(s, Fresh(Request), text, 0, n, now, k) && n > 0 && now.nread == 0
    requires !now.p.state.HeadersDone?
    ensures RunOf(s, now, text[n..]).Ran?
  {
    var w, b, rest := s.(limit := 18), Fresh(Request), text[n..];
    assert StandsIn(w, b, text, 0, n, now, k) by {
      OnwardWider(w, s, b, text, 0, n, now.(nread := k));
    }
    assert RunOf(w, b, text[0..]).Ran? by {
      assert text[0..] == text;
      PauseAtLimit(w);
    }
    assert !Overflows(RunOf(s, now, rest)) by {
      LineLength();
      RunCounts(s, now, rest);
    }
    InitInv(Request);
    StandsFollows(w, b, text, 0, n, now, k);
    RunWider(w, s, now, rest);
  }

  /** Nothing has been delivered in front of the first byte. */
  lemma {:induction false} NothingAtFirst(s: Settings, data: string, c: Conf)
    requires data != "" && data[0] == 'G' && Onward(s, Fresh(Request), data, 0, 0, c)
    ensures c.log == []
  {
    assert data[0..0] == "";
    assert !ArmOf(s, Counted(Fresh(Request)), 'G').Repeats?;
  }

  lemma UrlPhase()
    ensures PhaseOf(AtVersion().log) == Phase.Line(Url)
  {
    var begun := Emit([], MessageBegin);
    PhaseEmit([], MessageBegin);
    PhaseEmit(begun, Data(Url, "/"));
    assert AtVersion().log == Emit(begun, Data(Url, "/"));
  }

  lemma UrlIsNoHead(p: Parser, g: Phase)
    requires Fits(p, g) && g == Phase.Line(Url)
    ensures !p.state.HeadersDone?
  {
  }

  /** Where a parser stands that was paused when it had delivered the URL. */
  lemma {:induction false} StandsBehindUrl(s: Settings, data: string, used: nat, now: Conf)
    returns (k: nat)
    requires s.limit == 17 && data == "GET" + " " + ("/" + " ") && now.log == AtVersion().log
    requires PausesIn(s, Fresh(Request), data, 0, used, now) && !now.p.state.HeadersDone?
    ensures StandsIn(s, Fresh(Request), Text(), 0, used, now, k) && used > 0
  {
    assert RunOf(s, Fresh(Request), data[0..]).Ran? by {
      ReachesVersion(s);
      assert data[0..] == data;
    }
    PausesTrack(s, Fresh(Request), data, 0, used, now, s);
    k :| StandsIn(s, Fresh(Request), data, 0, used, now, k);
    if used == 0 {
      NothingAtFirst(s, data, now.(nread := k));
    }
    TextBegins(data);
    PassesWithin(s, data, used, now.(nread := k));
  }

  lemma PausedUrl(s: Settings, data: string, used: nat, now: Conf)
    requires Executed(s, Fresh(Request), data, now, Paused, used) && now.log == AtVersion().log && Lawful(now)
    ensures PausesIn(s, Fresh(Request), data, 0, used, now) && !now.p.state.HeadersDone? && now.nread == 0
  {
    UrlPhase();
    UrlIsNoHead(now.p, PhaseOf(now.log));
  }

  lemma TextBegins(data: string)
    requires data == "GET" + " " + ("/" + " ")
    ensures |data| <= |Text()| && Text()[..|data|] == data
  {
    assert MethodString(GET) == "GET";
  }

  lemma {:induction false} PassesWithin(s: Settings, data: string, n: nat, c: Conf)
    requires |data| <= |Text()| && Text()[..|data|] == data && Onward(s, Fresh(Request), data, 0, n, c)
    ensures Onward(s, Fresh(Request), Text(), 0, n, c)
  {
    assert Text()[0..n] == data[0..n];
  }

  /** The embedder that pauses when the URL has been delivered. */
  function PausesAtUrl(s: Settings): Env {
    Env(s, t => Join(t) == AtVersion().log)
  }

  /** A fresh parser is paused in on_url, and the rest of the request then goes through, which without the pause is one
      byte over the limit. */
  method PauseForgives(s: Settings) returns (parser: HttpParser, used: nat)
    requires s.limit == 17 && s.onHeadersComplete(BeforeLf().log) == 0
    ensures fresh(parser) && parser.errno == Paused && parser.env.s == s && used <= |Text()|
    ensures Overflows(RunOf(s, Fresh(Request), Text()))
    ensures RunOf(s, parser.View(), Text()[used..]).Ran?
  {
    var data := "GET" + " " + ("/" + " ");
    parser := new HttpParser(PausesAtUrl(s), Request);
    used := parser.Execute(data);
    OneTooMany(s);
    ReachesVersion(s);
    assert parser.errno == Paused;
    PausedUrl(s, data, used, parser.View());
    var k := StandsBehindUrl(s, data, used, parser.View());
    RestFits(s, Text(), used, parser.View(), k);
  }
}
