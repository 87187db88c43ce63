/** What holds of every parser that starts fresh from http_parser_init, whatever it is fed. */
module HttpParserReachable {
  import opened Options
  import opened HttpParserTypes
  import opened HttpParserArms
  import opened HttpParserRun
  import opened HttpParserInvariant
  import opened HttpParserReach
  import opened HttpParserGrammar
  import opened HttpHeaderText
  import opened HttpParserFraming
  import opened HttpParserFramingRuns
  import opened HttpParserRequests

  function Fresh(kind: Kind): Conf {
    Conf(Init(kind), 0, [])
  }

  /** The callbacks of any input are a prefix of lawful messages, and no assert fails on the way. */
  lemma {:induction false} EveryRunIsLawful(s: Settings, kind: Kind, data: string)
    ensures var r := RunOf(s, Fresh(kind), data);
            !r.RanAssertFailed? && PhaseOf(LogOf(r)) != Bad && (r.Ran? || r.RanUpgraded? ==> Inv(r.c) && Lawful(r.c))
  {
    InitInv(kind);
    InitLawful(kind);
    RunInv(s, Fresh(kind), data);
    RunLawful(s, Fresh(kind), data);
  }

  lemma {:induction false} FramedOnTheWay(s: Settings, c: Conf, ch: char, d: Conf)
    requires Inside(c) && Lawful(c) && Framed(c) && Folding(c.p, ch) && !s.lenient
    requires ComesTo(s, c, ch, d)
    ensures Lawful(d) && Framed(d)
    decreases Rank(c.p.state)
  {
    if d != c {
      var r := ArmOf(s, c, ch);
      ArmFramed(s, c, ch);
      ArmOfInv(s, c, ch);
      ArmOfLawful(s, c, ch);
      AgainLowersRank(s, c.p, ch, s.onHeadersComplete(c.log));
      FramedOnTheWay(s, r.c, ch, d);
    }
  }

  /** Whenever on_headers_complete has been called, `d` being the parser that goes on from there, the flags
      and the content length are what the delivered header fields say. */
  lemma {:induction false} FramingIsExact(s: Settings, kind: Kind, data: string, ch: char, d: Conf)
    requires !s.lenient
    requires var r := RunOf(s, Fresh(kind), data); r.Ran? && ComesTo(s, Counted(r.c), ch, d)
    requires d.p.state.HeadersDone?
    ensures FlagsSaid(d.p.flags, Fields(d.log)) && LengthSaid(d.p, Fields(d.log))
  {
    var c := RunOf(s, Fresh(kind), data).c;
    InitExplained(kind);
    RunExplained(s, Fresh(kind), data);
    assert Framed(Counted(c)) && Folding(Counted(c).p, ch);
    FramedOnTheWay(s, Counted(c), ch, d);
    SaidAtHeadersDone(d);
  }

  lemma SaidAtHeadersDone(d: Conf)
    requires Lawful(d) && Framed(d) && d.p.state.HeadersDone?
    ensures FlagsSaid(d.p.flags, Fields(d.log)) && LengthSaid(d.p, Fields(d.log))
  {
  }

  /** A message whose fields announce a length delivers exactly that many bytes of body, and ends with the last one. */
  lemma {:induction false} BodyHasAnnouncedLength(s: Settings, kind: Kind, data: string, ch: char, d: Conf, e: Conf,
      body: string)
    requires !s.lenient && d.p.state.HeadersDone? && e.p.state.BodyIdentity?
    requires var r := RunOf(s, Fresh(kind), data); r.Ran? && ComesTo(s, Counted(r.c), ch, d)
    requires ArmOf(s, d, ch) == Consumed(e)
    requires var ls := LengthFields(Fields(d.log)); |ls| == 1 && Numeral(ls[0]) && |body| == Decimal(TrimRight(ls[0]))
    ensures RunOf(s, e, body) ==
            if e.p.upgrade then RanUpgraded(BodyDone(e, body), |body|) else Ran(BodyDone(e, body))
  {
    var c := RunOf(s, Fresh(kind), data).c;
    InitExplained(kind);
    RunExplained(s, Fresh(kind), data);
    FramingIsExact(s, kind, data, ch, d);
    InsideOnTheWay(s, Counted(c), ch, d);
    ArmOfInv(s, d, ch);
    ArmOfLawful(s, d, ch);
    EntersBody(s, d, ch, e);
    BodyRun(s, e, body);
  }

  lemma {:induction false} InsideOnTheWay(s: Settings, c: Conf, ch: char, d: Conf)
    requires Inside(c) && Lawful(c) && ComesTo(s, c, ch, d)
    ensures Inside(d) && Lawful(d)
    decreases Rank(c.p.state)
  {
    if d != c {
      ArmOfInv(s, c, ch);
      ArmOfLawful(s, c, ch);
      AgainLowersRank(s, c.p, ch, s.onHeadersComplete(c.log));
      InsideOnTheWay(s, ArmOf(s, c, ch).c, ch, d);
    }
  }

  lemma EntersBody(s: Settings, d: Conf, ch: char, e: Conf)
    requires d.p.state.HeadersDone? && Lawful(d) && ArmOf(s, d, ch) == Consumed(e) && e.p.state.BodyIdentity?
    ensures e.p.contentLength == d.p.contentLength && e.log == d.log && !EndsIn(e.log, Body)
  {
    assert PhaseOf(d.log) == Head;
    NoBodyYet(d.log);
  }

  lemma NoBodyYet(log: seq<Event>)
    requires PhaseOf(log) == Head
    ensures !EndsIn(log, Body)
  {
  }

  /** The byte that completes a message that is not kept alive is followed by no other message. */
  lemma {:induction false} LastMessage(s: Settings, c: Conf, ch: char, rest: string)
    requires Inside(c) && ArmOf(s, c, ch).Consumed?
    requires ArmOf(s, c, ch).c.log == c.log + [MessageComplete] && !ShouldKeepAlive(ArmOf(s, c, ch).c.p)
    ensures var d := ArmOf(s, c, ch).c;
            d.p.state.Dead? && !RunOf(s, d, rest).RanAssertFailed? && LogOf(RunOf(s, d, rest)) == d.log
  {
    var d := ArmOf(s, c, ch).c;
    assert d.p.state.Dead? by {
      CompletesWith(s, c, ch);
    }
    DeadForGood(s, d, rest);
  }

  lemma {:induction false} CompletesWith(s: Settings, c: Conf, ch: char)
    requires ArmOf(s, c, ch).Consumed? && ArmOf(s, c, ch).c.log == c.log + [MessageComplete]
    ensures ArmOf(s, c, ch).c.p.state == NewMessage(ArmOf(s, c, ch).c.p)
  {
    var answer := s.onHeadersComplete(c.log);
    var r := Arm(s, c.p, ch, answer);
    EmittedLast(c.log, r.event, MessageComplete);
    CompletingArm(s, c.p, ch, answer);
  }

  lemma EmittedLast(log: seq<Event>, e: Option<Event>, last: Event)
    requires EmitOption(log, e) == log + [last] && !last.Data?
    ensures e == Some(last)
  {
    assert (log + [last])[|log|] == last;
  }

  lemma CompletingArm(s: Settings, p: Parser, ch: char, answer: int)
    ensures var r := Arm(s, p, ch, answer);
            r.Consume? && r.event == Some(MessageComplete) ==> r.p == p.(state := NewMessage(p))
  {
    CompletingBodyArm(p, ch);
    CompletingEndArm(s, p, ch, answer);
    NoCompletingArm(s, p, ch);
  }

  lemma CompletingBodyArm(p: Parser, ch: char)
    ensures var r := BodyArm(p, ch);
            r.Consume? && r.event == Some(MessageComplete) ==> r.p == p.(state := NewMessage(p))
  {
  }

  lemma CompletingEndArm(s: Settings, p: Parser, ch: char, answer: int)
    ensures var r := HeadersEndArm(s, p, ch, answer);
            r.Consume? && r.event == Some(MessageComplete) ==> r.p == p.(state := NewMessage(p))
  {
  }

  lemma NoCompletingArm(s: Settings, p: Parser, ch: char)
    ensures StartArm(p, ch).Consume? ==> StartArm(p, ch).event != Some(MessageComplete)
    ensures StatusLineArm(p, ch).Consume? ==> StatusLineArm(p, ch).event != Some(MessageComplete)
    ensures RequestLineArm(p, ch).Consume? ==> RequestLineArm(p, ch).event != Some(MessageComplete)
    ensures HeaderArm(s, p, ch).Consume? ==> HeaderArm(s, p, ch).event != Some(MessageComplete)
  {
  }
}
