/** The header arms of http_parser_execute with their inner loops over the buffer. */
module HttpParserHeaderSwitch {
  import opened Options
  import opened HttpBytes
  import opened HttpParserTypes
  import opened HttpParserArms
  import opened HttpParserRun
  import opened HttpParserSections
  import opened HttpParserInvariant
  import opened HttpParserGrammar
  import opened HttpParserReach
  import opened HttpParserStretch
  import opened HttpParserFrame
  import opened HttpParserSwitch

  /** `COUNT_HEADER_SIZE(n)`: a 32-bit addition. */
  function CountUp(nread: nat, n: nat): nat {
    (nread + n) % 0x1_0000_0000
  }

  /** Buffers and header limits stay below 2^31 bytes. */
  predicate Sizes(s: Settings, data: string) {
    |data| < 0x8000_0000 && s.limit < 0x8000_0000
  }

  lemma CountUpExact(s: Settings, data: string, nread: nat, n: nat)
    requires Sizes(s, data) && nread <= s.limit && n <= |data|
    ensures CountUp(nread, n) == nread + n
  {
  }

  predicate InHeader(f: Frame) {
    ParsingHeader(f.p.state) && !f.p.state.ChunkSizeStart?
  }

  /** The inner loop has gone from `at` to `to` and stands in front of another byte, already counted. */
  lemma {:induction false} Advance(s: Settings, f: Frame, data: string, at: nat, g: Frame, to: nat)
    requires InSwitch(s, f, data, at) && InHeader(f)
    requires at <= to < |data| && Shaped(g, data, to) && InHeader(g) && 1 <= g.nread <= s.limit && g.saved < g.nread
    requires RunOf(s, Before(f, data, at), data[at..to]) == Ran(Before(g, data, to))
    ensures InSwitch(s, g, data, to)
    ensures Onward(s, Before(f, data, at), data, at, to, Before(g, data, to))
    ensures Lawful(View(f, data, at)) ==> Lawful(View(g, data, to))
  {
    InSwitchMid(s, f, data, at);
    RunInv(s, Before(f, data, at), data[at..to]);
    ReachedInOrder(s, Before(f, data, at), data[at..to], Before(g, data, to));
  }

  /** Both forms have come from `at` to `to` in the same way. */
  ghost predicate Advanced(s: Settings, f: Frame, data: string, at: nat, g: Frame, to: nat) {
    InSwitch(s, f, data, at) && InSwitch(s, g, data, to) && at <= to &&
    (at < to || Rank(g.p.state) <= Rank(f.p.state)) && LeavesStored(f.saved, g.saved) &&
    Onward(s, Before(f, data, at), data, at, to, Before(g, data, to))
  }

  lemma {:induction false} GoesOnLater(s: Settings, f: Frame, data: string, at: nat, g: Frame, to: nat,
                                       f': Frame, end: nat, sig: Signal)
    requires Advanced(s, f, data, at, g, to) && (sig.Break? || sig.Reexecute?)
    requires Refines(s, g, data, to, f', end, sig)
    ensures Refines(s, f, data, at, f', end, sig)
  {
    var next := if sig.Break? then View(f', data, end + 1) else Before(f', data, end);
    OnwardOn(s, Before(f, data, at), data, at, to, Before(g, data, to), if sig.Break? then end + 1 else end, next);
  }

  lemma {:induction false} PausesLater(s: Settings, f: Frame, data: string, at: nat, g: Frame, to: nat,
                                       f': Frame, end: nat, sig: Signal)
    requires Advanced(s, f, data, at, g, to) && sig.PausedAt?
    requires Refines(s, g, data, to, f', end, sig)
    ensures Refines(s, f, data, at, f', end, sig)
  {
    PausesOn(s, Before(f, data, at), data, at, to, Before(g, data, to), sig.used, Stored(f'));
    if f'.p.state.HeadersDone? {
      PassesOn(s, Before(f, data, at), data, at, to, Before(g, data, to), sig.used, Stored(f'));
    }
  }

  /** A refinement from where the inner loop stands is one from where it started. */
  lemma {:induction false} RefinesLater(s: Settings, f: Frame, data: string, at: nat, g: Frame, to: nat,
                                        f': Frame, end: nat, sig: Signal)
    requires Advanced(s, f, data, at, g, to) && Refines(s, g, data, to, f', end, sig)
    ensures Refines(s, f, data, at, f', end, sig)
  {
    if sig.Break? || sig.Reexecute? {
      GoesOnLater(s, f, data, at, g, to, f', end, sig);
    } else if sig.PausedAt? {
      PausesLater(s, f, data, at, g, to, f', end, sig);
    } else {
      StopsLater(s, f, data, at, g, to, f', end, sig);
    }
  }

  lemma {:induction false} StopsLater(s: Settings, f: Frame, data: string, at: nat, g: Frame, to: nat,
                                      f': Frame, end: nat, sig: Signal)
    requires Advanced(s, f, data, at, g, to) && (sig.Leave? || sig.GotoError?)
    requires Refines(s, g, data, to, f', end, sig)
    ensures Refines(s, f, data, at, f', end, sig)
  {
    CarryAll(s, Before(f, data, at), data, at, to, Before(g, data, to));
    if sig.GotoError? && FailsBeyond(s, Before(g, data, to), data, to, sig.errno) {
      FailsBeyondOn(s, Before(f, data, at), data, at, to, Before(g, data, to), sig.errno);
    }
  }

  /** The per-byte form runs over the limit before the inner loop ends. */
  lemma {:induction false} OverflowRefines(s: Settings, f: Frame, data: string, at: nat, to: nat, f': Frame, end: nat)
    requires InSwitch(s, f, data, at) && InHeader(f) && at <= to <= |data| && at <= end < |data|
    requires Overflows(RunOf(s, Before(f, data, at), data[at..to]))
    ensures Refines(s, f, data, at, f', end, GotoError(HeaderOverflow))
  {
    RunConcat(s, Before(f, data, at), data[at..to], data[to..]);
    assert data[at..] == data[at..to] + data[to..];
  }

  /** The inner loop has used up the buffer. */
  lemma {:induction false} EndRefines(s: Settings, f: Frame, data: string, at: nat, g: Frame)
    requires InSwitch(s, f, data, at) && InHeader(f)
    requires Shaped(g, data, |data|) && g.saved == f.saved <= g.nread <= s.limit
    requires RunOf(s, Before(f, data, at), data[at..]) == Ran(View(g, data, |data|))
    ensures Refines(s, f, data, at, g, |data| - 1, Break)
  {
    EndAtHead(s, f, data, at, g);
    assert data[at..|data|] == data[at..];
    RefinesStretch(s, f, data, at, |data| - 1, g);
  }

  lemma {:induction false} EndInOrder(s: Settings, f: Frame, data: string, at: nat, g: Frame)
    requires InSwitch(s, f, data, at) && InHeader(f) && f.trace == g.trace
    requires Shaped(g, data, |data|) && g.saved <= g.nread <= s.limit
    requires RunOf(s, Before(f, data, at), data[at..]) == Ran(View(g, data, |data|))
    ensures Orderly(f, data, at, g, |data| - 1, Break)
  {
    EndAtHead(s, f, data, at, g);
  }

  lemma {:induction false} EndAtHead(s: Settings, f: Frame, data: string, at: nat, g: Frame)
    requires InSwitch(s, f, data, at) && InHeader(f)
    requires Shaped(g, data, |data|) && g.saved <= g.nread <= s.limit
    requires RunOf(s, Before(f, data, at), data[at..]) == Ran(View(g, data, |data|))
    ensures AtHead(s, g, data, |data|)
    ensures Lawful(View(f, data, at)) ==> Lawful(View(g, data, |data|))
  {
    InSwitchMid(s, f, data, at);
    RunInv(s, Before(f, data, at), data[at..]);
    ReachedInOrder(s, Before(f, data, at), data[at..], View(g, data, |data|));
  }

  // ---------- s_header_field_start ----------

  method SwitchFieldStart(s: Settings, data: string, at: nat, f: Frame) returns (f': Frame, sig: Signal)
    requires InSwitch(s, f, data, at) && f.p.state.HeaderFieldStart?
    ensures Refines(s, f, data, at, f', at, sig) && Orderly(f, data, at, f', at, sig)
    ensures !sig.PausedAt? && f'.trace == f.trace
  {
    var r := FieldStartArm(f.p, data[at]);
    ArmExists(s, f, data, at);
    match r
    case Consume(q, e) =>
      f', sig := f.(p := q, marks := if e.Some? then Mark(f.marks, Field, at) else f.marks), Break;
      if e.Some? {
        MarkedTaken(s, f, data, at, q, Field);
      } else {
        PlainConsumed(s, f, data, at, q, None);
        OrderlyConsumed(s, f, data, at, f');
      }
    case Again(q, _) =>
      f', sig := f.(p := q), Reexecute;
      PlainAgain(s, f, data, at, q, None);
      OrderlyRepeats(s, f, data, at, f');
    case Error(e) =>
      f', sig := f, GotoError(e);
      ArmError(s, f, data, at, e, f);
  }

  // ---------- s_header_field ----------

  lemma {:induction false} FieldFoldSnoc(p: Parser, name: string, ch: char)
    ensures FieldFold(p, name + [ch]) == FieldNext(FieldFold(p, name), ch)
  {
    assert (name + [ch])[..|name|] == name;
  }

  lemma {:induction false} FieldFoldMore(p: Parser, data: string, start: nat, at: nat)
    requires start <= at < |data|
    ensures data[start..at + 1] == data[start..at] + [data[at]]
    ensures FieldFold(p, data[start..at + 1]) == FieldNext(FieldFold(p, data[start..at]), data[at])
  {
    assert data[start..at + 1] == data[start..at] + [data[at]];
    FieldFoldSnoc(p, data[start..at], data[at]);
  }

  /** The loop over the name: the general case runs ahead to the last token byte, at most
      `max_header_size` bytes at a time. */
  method FieldLoop(s: Settings, data: string, start: nat, p0: Parser) returns (p: Parser, at: nat)
    requires start < |data| && FieldMatcher(p0.hstate, p0.index) && p0.index < 32
    ensures start <= at <= |data| && AllTokens(data[start..at])
    ensures at < |data| ==> !IsToken(data[at])
    ensures p == FieldFold(p0, data[start..at])
  {
    at, p := start, p0;
    while at < |data| && IsToken(data[at])
      invariant start <= at <= |data| && InName(data, start, at, p0, p)
    {
      p, at := FieldRound(s, data, start, at, p0, p);
    }
  }

  /** The matcher state after the name bytes seen so far. */
  predicate InName(data: string, start: nat, at: nat, p0: Parser, p: Parser)
    requires start <= at <= |data|
  {
    AllTokens(data[start..at]) && p == FieldFold(p0, data[start..at]) && FieldMatcher(p.hstate, p.index) && p.index < 32
  }

  method FieldRound(s: Settings, data: string, start: nat, from: nat, ghost p0: Parser, p: Parser)
      returns (q: Parser, at: nat)
    requires start <= from < |data| && IsToken(data[from]) && InName(data, start, from, p0, p)
    ensures from < at <= |data| && InName(data, start, at, p0, q)
  {
    if p.hstate.HGeneral? {
      GeneralMore(data, start, from, p0, p);
      q := p;
      at := GeneralFieldLoop(s, data, start, from, p0, p);
      at := at + 1;
    } else {
      FieldFoldMore(p0, data, start, from);
      q := FieldOne(p, data[from]);
      at := from + 1;
    }
  }

  /** One token byte; `assert(0 && "Unknown header_state")` cannot happen. */
  method FieldOne(p: Parser, ch: char) returns (q: Parser)
    requires FieldMatcher(p.hstate, p.index) && p.index < 32
    ensures q == FieldNext(p, ch) && FieldMatcher(q.hstate, q.index) && q.index < 32
    ensures p.hstate.HGeneral? ==> q == p
  {
    FieldByteMatches(p, ch);
    q := FieldByte(p, ch, Token(ch)).value;
  }

  /** A name that is none of the known ones stays so. */
  lemma {:induction false} GeneralMore(data: string, start: nat, at: nat, p0: Parser, p: Parser)
    requires start <= at < |data| && InName(data, start, at, p0, p) && p.hstate.HGeneral? && IsToken(data[at])
    ensures InName(data, start, at + 1, p0, p)
  {
    FieldFoldMore(p0, data, start, at);
  }

  method GeneralFieldLoop(s: Settings, data: string, start: nat, from: nat, ghost p0: Parser, ghost p: Parser)
      returns (at: nat)
    requires start <= from < |data| && p.hstate.HGeneral? && InName(data, start, from + 1, p0, p)
    ensures from <= at < |data| && InName(data, start, at + 1, p0, p)
    ensures at + 1 < |data| && IsToken(data[at + 1]) ==> at + 1 >= from + s.limit
  {
    at := from;
    var pe := at + if |data| - at < s.limit then |data| - at else s.limit;
    while at + 1 < pe && IsToken(data[at + 1])
      invariant from <= at < |data| && InName(data, start, at + 1, p0, p)
    {
      at := at + 1;
      GeneralMore(data, start, at, p0, p);
    }
  }

  lemma OpenMark(s: Settings, f: Frame, data: string, at: nat, k: Element)
    requires InSwitch(s, f, data, at) && OpenElement(f.p.state) == Some(k)
    ensures f.marks.Keys == {k}
  {
  }

  lemma BeforeHeader(s: Settings, f: Frame, data: string, at: nat)
    requires InSwitch(s, f, data, at) && InHeader(f)
    ensures Inv(Before(f, data, at))
    ensures Before(f, data, at) == Conf(f.p, f.nread - 1, Pending(Join(f.trace), f.marks, data, at))
  {
  }

  /** A stretch of the name, from the configuration before it. */
  lemma {:induction false} FieldGoes(s: Settings, c: Conf, log: seq<Event>, marks: map<Element, nat>, data: string,
                                     at: nat, to: nat, nread: nat)
    requires Inv(c) && c.p.state.HeaderField? && MarksBefore(marks, data, at) && marks.Keys == {Field}
    requires at <= to <= |data| && AllTokens(data[at..to]) && nread == c.nread + (to - at) <= s.limit
    requires c.log == Pending(log, marks, data, at)
    ensures RunOf(s, c, data[at..to]) ==
            Ran(Conf(FieldFold(c.p, data[at..to]), nread, Pending(log, marks, data, to)))
    ensures FieldFold(c.p, data[at..to]).state.HeaderField?
  {
    FieldStretch(s, c, data[at..to]);
    PendingMore(log, marks, data, at, to, Field);
  }

  lemma {:induction false} FieldReached(s: Settings, f: Frame, data: string, at: nat, to: nat, nread: nat)
    requires InSwitch(s, f, data, at) && f.p.state.HeaderField? && at <= to <= |data|
    requires AllTokens(data[at..to]) && nread == f.nread - 1 + (to - at) <= s.limit
    ensures RunOf(s, Before(f, data, at), data[at..to]) ==
            Ran(Conf(FieldFold(f.p, data[at..to]), nread, Pending(Join(f.trace), f.marks, data, to)))
    ensures FieldFold(f.p, data[at..to]).state.HeaderField?
  {
    BeforeHeader(s, f, data, at);
    OpenMark(s, f, data, at, Field);
    FieldGoes(s, Before(f, data, at), Join(f.trace), f.marks, data, at, to, nread);
  }

  lemma {:induction false} FieldRunsOver(s: Settings, f: Frame, data: string, at: nat, to: nat)
    requires InSwitch(s, f, data, at) && f.p.state.HeaderField? && at <= to <= |data|
    requires AllTokens(data[at..to]) && f.nread - 1 + (to - at) > s.limit
    ensures Overflows(RunOf(s, Before(f, data, at), data[at..to]))
  {
    InSwitchMid(s, f, data, at);
    FieldStretchOver(s, Before(f, data, at), data[at..to]);
  }

  /** The name ends before the buffer does, and its bytes and the next one are within the limit. */
  lemma {:induction false} FieldAdvance(s: Settings, f: Frame, data: string, at: nat, to: nat, g: Frame)
    requires InSwitch(s, f, data, at) && f.p.state.HeaderField? && at <= to < |data| && AllTokens(data[at..to])
    requires g == f.(p := FieldFold(f.p, data[at..to]), nread := f.nread + (to - at)) && g.nread <= s.limit
    ensures InSwitch(s, g, data, to) && g.p.state.HeaderField?
    ensures Onward(s, Before(f, data, at), data, at, to, Before(g, data, to))
    ensures Lawful(View(f, data, at)) ==> Lawful(View(g, data, to))
  {
    FieldReached(s, f, data, at, to, g.nread - 1);
    Advance(s, f, data, at, g, to);
  }

  /** The name runs over the limit before `to`. */
  lemma {:induction false} FieldOverflow(s: Settings, f: Frame, data: string, at: nat, to: nat, f': Frame, end: nat)
    requires InSwitch(s, f, data, at) && f.p.state.HeaderField? && at <= to <= |data| && AllTokens(data[at..to])
    requires f.nread - 1 + (to - at) > s.limit && at <= end < |data|
    ensures Refines(s, f, data, at, f', end, GotoError(HeaderOverflow))
  {
    FieldRunsOver(s, f, data, at, to);
    OverflowRefines(s, f, data, at, to, f', end);
  }

  /** The name reaches the limit, so that the byte after it runs over. */
  lemma {:induction false} FieldFull(s: Settings, f: Frame, data: string, at: nat, to: nat, f': Frame)
    requires InSwitch(s, f, data, at) && f.p.state.HeaderField? && at <= to < |data| && AllTokens(data[at..to])
    requires f.nread - 1 + (to - at) == s.limit
    ensures Refines(s, f, data, at, f', to, GotoError(HeaderOverflow))
  {
    var run := RunOf(s, Before(f, data, at), data[at..to]);
    assert run.Ran? && run.c.nread == s.limit && run.c.p.state.HeaderField? by {
      FieldReached(s, f, data, at, to, s.limit);
    }
    FullOverflows(s, Before(f, data, at), data[at..to], data[to]);
    assert data[at..to + 1] == data[at..to] + [data[to]];
    OverflowRefines(s, f, data, at, to + 1, f', to);
  }

  lemma {:induction false} FullOverflows(s: Settings, c: Conf, v: string, ch: char)
    requires RunOf(s, c, v).Ran? && RunOf(s, c, v).c.nread == s.limit && ParsingHeader(RunOf(s, c, v).c.p.state)
    ensures Overflows(RunOf(s, c, v + [ch]))
  {
    RunSnoc(s, c, v, ch);
  }

  lemma {:induction false} FieldEnds(s: Settings, f: Frame, data: string, at: nat, f': Frame)
    requires InSwitch(s, f, data, at) && f.p.state.HeaderField? && AllTokens(data[at..|data|])
    requires f' == f.(p := FieldFold(f.p, data[at..|data|]), nread := f.nread + (|data| - 1 - at)) &&
             f'.nread <= s.limit
    ensures Refines(s, f, data, at, f', |data| - 1, Break) && Orderly(f, data, at, f', |data| - 1, Break)
  {
    assert data[at..|data|] == data[at..];
    FieldReached(s, f, data, at, |data|, f'.nread);
    EndRefines(s, f, data, at, f');
    EndInOrder(s, f, data, at, f');
  }

  /** The name ends at `end`, and the count that comes after the loop is over the limit. */
  lemma {:induction false} FieldTooLong(s: Settings, f: Frame, data: string, at: nat, end: nat, f': Frame, to: nat)
    requires InSwitch(s, f, data, at) && f.p.state.HeaderField? && at <= end <= |data| && AllTokens(data[at..end])
    requires to == (if end == |data| then end - 1 else end) && f.nread + (to - at) > s.limit && f'.trace == f.trace
    ensures Refines(s, f, data, at, f', to, GotoError(HeaderOverflow))
    ensures Orderly(f, data, at, f', to, GotoError(HeaderOverflow))
  {
    if f.nread - 1 + (end - at) == s.limit {
      FieldFull(s, f, data, at, to, f');
    } else {
      FieldOverflow(s, f, data, at, end, f', to);
    }
    OrderlyFailure(f, data, at, f', to, HeaderOverflow);
  }

  method SwitchField(env: Env, data: string, at: nat, f: Frame) returns (f': Frame, to: nat, sig: Signal)
    requires InSwitch(env.s, f, data, at) && f.p.state.HeaderField? && Sizes(env.s, data)
    ensures Refines(env.s, f, data, at, f', to, sig) && Orderly(f, data, at, f', to, sig)
    ensures Heeds(env, f.trace, f'.trace, sig)
  {
    var s := env.s;
    var p;
    p, to := FieldLoop(s, data, at, f.p);
    ghost var end := to;
    var atEnd := to == |data|;
    if atEnd {
      to := to - 1;
    }
    CountUpExact(s, data, f.nread, to - at);
    f' := f.(p := p, nread := CountUp(f.nread, to - at));
    if f'.nread > s.limit {
      sig := GotoError(HeaderOverflow);
      FieldTooLong(s, f, data, at, end, f', to);
    } else if atEnd {
      sig := Break;
      FieldEnds(s, f, data, at, f');
    } else {
      f', sig := SwitchFieldMore(env, data, at, f, to, f');
    }
  }

  /** The byte behind the name, reached by the inner loop. */
  method SwitchFieldMore(env: Env, data: string, at: nat, f: Frame, to: nat, g: Frame) returns (f': Frame, sig: Signal)
    requires InSwitch(env.s, f, data, at) && f.p.state.HeaderField? && at <= to < |data| && AllTokens(data[at..to])
    requires g == f.(p := FieldFold(f.p, data[at..to]), nread := f.nread + (to - at)) && g.nread <= env.s.limit
    requires !IsToken(data[to])
    ensures Refines(env.s, f, data, at, f', to, sig) && Orderly(f, data, at, f', to, sig)
    ensures Heeds(env, f.trace, f'.trace, sig)
  {
    FieldAdvance(env.s, f, data, at, to, g);
    f', sig := SwitchFieldEnd(env, data, to, g);
    RefinesLater(env.s, f, data, at, g, to, f', to, sig);
    OrderlyLater(f, data, at, g, to, f', to, sig);
  }

  /** The byte after a name. */
  method SwitchFieldEnd(env: Env, data: string, at: nat, f: Frame) returns (f': Frame, sig: Signal)
    requires InSwitch(env.s, f, data, at) && f.p.state.HeaderField? && !IsToken(data[at])
    ensures Refines(env.s, f, data, at, f', at, sig) && Orderly(f, data, at, f', at, sig)
    ensures Heeds(env, f.trace, f'.trace, sig)
  {
    ArmExists(env.s, f, data, at);
    if data[at] == ':' {
      var q := f.p.(state := HeaderValueDiscardWs);
      f' := Deliver(f.(p := q), Field, data, at);
      sig := if env.pauses(f'.trace) then PausedAt(at + 1) else Break;
      DeliveredByte(env.s, f, data, at, q, Field);
      OrderlyConsumed(env.s, f, data, at, f');
    } else {
      f', sig := f, GotoError(InvalidHeaderToken);
      ArmError(env.s, f, data, at, InvalidHeaderToken, f);
    }
  }

  // ---------- before a value ----------

  predicate InFrontOfValue(p: Parser, ch: char) {
    p.state.HeaderValueDiscardWs? && (ch == ' ' || ch == '\t' || ch == CR || ch == LF)
  }

  method SwitchLead(env: Env, data: string, at: nat, f: Frame) returns (f': Frame, sig: Signal)
    requires InSwitch(env.s, f, data, at)
    requires f.p.state.HeaderValueDiscardWs? || f.p.state.HeaderValueStart?
    ensures Refines(env.s, f, data, at, f', at, sig) && Orderly(f, data, at, f', at, sig)
    ensures Heeds(env, f.trace, f'.trace, sig)
  {
    if InFrontOfValue(f.p, data[at]) {
      f', sig := SwitchBlank(env.s, data, at, f);
    } else {
      f', sig := SwitchValueStart(env.s, data, at, f);
    }
    HeedsOne(env, f.trace, f'.trace, sig);
  }

  method SwitchBlank(s: Settings, data: string, at: nat, f: Frame) returns (f': Frame, sig: Signal)
    requires InSwitch(s, f, data, at) && InFrontOfValue(f.p, data[at])
    ensures Refines(s, f, data, at, f', at, sig) && Orderly(f, data, at, f', at, sig)
    ensures !sig.PausedAt? && f'.trace == f.trace
  {
    var ch := data[at];
    var q := if ch == CR then f.p.(state := HeaderValueDiscardWsAlmostDone)
             else if ch == LF then f.p.(state := HeaderValueDiscardLws) else f.p;
    f', sig := f.(p := q), Break;
    ArmExists(s, f, data, at);
    PlainConsumed(s, f, data, at, q, None);
    OrderlyConsumed(s, f, data, at, f');
  }

  method SwitchValueStart(s: Settings, data: string, at: nat, f: Frame) returns (f': Frame, sig: Signal)
    requires InSwitch(s, f, data, at)
    requires f.p.state.HeaderValueStart? ||
             (f.p.state.HeaderValueDiscardWs? && data[at] != ' ' && data[at] != '\t' && data[at] != CR &&
                 data[at] != LF)
    ensures Refines(s, f, data, at, f', at, sig) && Orderly(f, data, at, f', at, sig)
    ensures !sig.PausedAt? && f'.trace == f.trace
  {
    var r := ValueStartOutcome(s, data, at, f);
    match r
    case Consume(q, _) =>
      f', sig := f.(p := q, marks := Mark(f.marks, Value, at)), Break;
      MarkedTaken(s, f, data, at, q, Value);
    case Error(e) =>
      f', sig := f, GotoError(e);
      ArmError(s, f, data, at, e, f);
  }

  method ValueStartOutcome(s: Settings, data: string, at: nat, f: Frame) returns (r: Outcome)
    requires InSwitch(s, f, data, at)
    requires f.p.state.HeaderValueStart? ||
             (f.p.state.HeaderValueDiscardWs? && data[at] != ' ' && data[at] != '\t' && data[at] != CR &&
                 data[at] != LF)
    ensures ArmIs(s, f, data, at, r)
    ensures (r.Consume? && r.p.state == HeaderValue && r.event == Some(Data(Value, [data[at]]))) ||
            (r.Error? && r.errno != CbHeadersComplete)
  {
    r := ValueStartArm(f.p, data[at]);
    ValueStartExists(s, f, data, at);
    ValueStartShape(f.p, data[at]);
  }

  lemma {:induction false} ValueStartExists(s: Settings, f: Frame, data: string, at: nat)
    requires InSwitch(s, f, data, at)
    requires f.p.state.HeaderValueStart? ||
             (f.p.state.HeaderValueDiscardWs? && data[at] != ' ' && data[at] != '\t' && data[at] != CR &&
                 data[at] != LF)
    ensures ArmIs(s, f, data, at, ValueStartArm(f.p, data[at]))
  {
    ArmExists(s, f, data, at);
    ValueStartIs(s, f.p, data[at], s.onHeadersComplete(View(f, data, at).log));
  }

  lemma {:induction false} ValueStartIs(s: Settings, p: Parser, ch: char, answer: int)
    requires p.state.HeaderValueStart? ||
             (p.state.HeaderValueDiscardWs? && ch != ' ' && ch != '\t' && ch != CR && ch != LF)
    ensures Arm(s, p, ch, answer) == ValueStartArm(p, ch)
  {
  }

  method SwitchDiscardLws(env: Env, data: string, at: nat, f: Frame) returns (f': Frame, sig: Signal)
    requires InSwitch(env.s, f, data, at) && f.p.state.HeaderValueDiscardLws?
    ensures Refines(env.s, f, data, at, f', at, sig) && Orderly(f, data, at, f', at, sig)
    ensures Heeds(env, f.trace, f'.trace, sig)
  {
    var s, ch := env.s, data[at];
    ArmExists(s, f, data, at);
    if ch == ' ' || ch == '\t' {
      var q := f.p.(state := HeaderValueDiscardWs);
      f', sig := f.(p := q), Break;
      PlainConsumed(s, f, data, at, q, None);
      OrderlyConsumed(s, f, data, at, f');
    } else if f.p.hstate.HContentLength? {
      f', sig := f, GotoError(InvalidContentLength);
      ArmError(s, f, data, at, InvalidContentLength, f);
    } else {
      f', sig := SwitchEmptyValue(env, data, at, f);
    }
  }

  /** The value is empty: an empty piece is delivered. */
  method SwitchEmptyValue(env: Env, data: string, at: nat, f: Frame) returns (f': Frame, sig: Signal)
    requires InSwitch(env.s, f, data, at) && f.p.state.HeaderValueDiscardLws? && data[at] != ' ' && data[at] != '\t'
    requires !f.p.hstate.HContentLength?
    ensures Refines(env.s, f, data, at, f', at, sig) && Orderly(f, data, at, f', at, sig)
    ensures Heeds(env, f.trace, f'.trace, sig)
  {
    var s := env.s;
    var q := f.p.(flags := FinishedFlags(f.p), state := HeaderFieldStart);
    f' := Deliver(f.(p := q, marks := Mark(f.marks, Value, at)), Value, data, at);
    sig := if env.pauses(f'.trace) then PausedAt(at) else Reexecute;
    assert data[at..at] == "";
    assert f' == Called(f, q, Some(Data(Value, "")));
    ArmExists(s, f, data, at);
    PlainAgain(s, f, data, at, q, Some(Data(Value, "")));
    OrderlyRepeats(s, f, data, at, f');
    HeedsOne(env, f.trace, f'.trace, sig);
  }

  // ---------- s_header_value ----------

  /** Where the loop over a value stops. */
  datatype Stop = AtEnd | AtCr | AtLf | BadByte(errno: ErrorCode)

  lemma {:induction false} ValueFoldMore(p: Parser, data: string, start: nat, at: nat)
    requires start <= at < |data| && ValueFold(p, data[start..at]).Some?
    ensures data[start..at + 1] == data[start..at] + [data[at]]
    ensures var r := ValueByte(ValueFold(p, data[start..at]).value, data[at]);
            r.Consume? ==> ValueFold(p, data[start..at + 1]) == Some(r.p)
  {
    assert data[start..at + 1] == data[start..at] + [data[at]];
    var v := data[start..at + 1];
    assert v[..|v| - 1] == data[start..at];
  }

  /** The matcher state after the value bytes seen so far. */
  predicate InValue(s: Settings, data: string, start: nat, at: nat, p0: Parser, p: Parser)
    requires start <= at <= |data|
  {
    AllPlain(s, data[start..at]) && ValueFold(p0, data[start..at]) == Some(p) && Good(p) && p.state.HeaderValue?
  }

  lemma {:induction false} GeneralValueStays(s: Settings, data: string, start: nat, from: nat, upto: nat, p0: Parser,
      p: Parser)
    requires start <= from <= upto <= |data| && InValue(s, data, start, from, p0, p) && p.hstate.HGeneral?
    requires AllPlain(s, data[from..upto])
    ensures InValue(s, data, start, upto, p0, p)
    decreases upto
  {
    if from < upto {
      assert data[from..upto - 1] == data[from..upto][..upto - 1 - from];
      assert Plain(s, data[from..upto][upto - 1 - from]);
      GeneralValueStays(s, data, start, from, upto - 1, p0, p);
      ValueFoldMore(p0, data, start, upto - 1);
    }
  }

  predicate PlainBetween(s: Settings, data: string, a: nat, b: nat)
    requires b <= |data|
  {
    forall k :: a <= k < b ==> Plain(s, data[k])
  }

  /** The inner loop of the general case, from the byte at `from`. When it ends after
      `max_header_size` bytes, the C loop does not step back, and the outer loop then steps over a byte
      nobody has looked at. */
  method GeneralValueLoop(s: Settings, data: string, from: nat) returns (at: nat, stop: Stop)
    requires from < |data| && Plain(s, data[from])
    ensures stop == AtEnd || stop == BadByte(InvalidHeaderToken)
    ensures from <= at < |data| && PlainBetween(s, data, from, at)
    ensures stop == AtEnd ==> Plain(s, data[at]) || at == from + s.limit
    ensures stop.BadByte? ==> !Plain(s, data[at]) && data[at] != CR && data[at] != LF
  {
    at, stop := from, AtEnd;
    var pe := at + if |data| - at < s.limit then |data| - at else s.limit;
    while at != pe
      invariant from <= at <= pe && PlainBetween(s, data, from, at)
    {
      if data[at] == CR || data[at] == LF {
        at := at - 1;
        return;
      }
      if !(s.lenient || IsHeaderChar(data[at])) {
        stop := BadByte(InvalidHeaderToken);
        return;
      }
      at := at + 1;
    }
    if at == |data| {
      at := at - 1;
    }
  }

  /** One byte for a matcher. */
  method ValueOne(s: Settings, data: string, start: nat, at: nat, ghost p0: Parser, p: Parser)
      returns (r: Outcome)
    requires start <= at < |data| && InValue(s, data, start, at, p0, p) && Plain(s, data[at])
    ensures r == ValueByte(p, data[at])
    ensures r.Consume? || r.Error?
    ensures r.Consume? ==> InValue(s, data, start, at + 1, p0, r.p)
  {
    r := ValueByte(p, data[at]);
    ValueByteMatches(p, data[at]);
    ValueFoldMore(p0, data, start, at);
    if r.Consume? {
      ValueByteGood(p, data[at]);
    }
  }

  lemma {:induction false} ValueByteGood(p: Parser, ch: char)
    requires Good(p) && p.state.HeaderValue? && ValueByte(p, ch).Consume?
    ensures Good(ValueByte(p, ch).p) && ValueByte(p, ch).p.state.HeaderValue?
  {
    ValueByteMatches(p, ch);
    ValueByteFrame(p, ch);
  }

  /** What has been seen of the value up to `cut`; a byte has been missed only beyond the limit. */
  ghost predicate Seen(s: Settings, data: string, start: nat, at: nat, cut: nat, p0: Parser, p: Parser) {
    start <= cut <= at <= |data| && InValue(s, data, start, cut, p0, p) &&
    (cut < at ==> s.limit <= cut - start && p.hstate.HGeneral?)
  }

  /** Why the loop over the value may stop at `at`. */
  ghost predicate StopsFor(s: Settings, data: string, at: nat, cut: nat, p: Parser, stop: Stop) {
    match stop
    case AtEnd => at == |data|
    case AtCr => at < |data| && data[at] == CR
    case AtLf => at < |data| && data[at] == LF
    case BadByte(e) =>
      at < |data| && data[at] != CR && data[at] != LF &&
      (cut == at ==> if Plain(s, data[at]) then ValueByte(p, data[at]) == Outcome.Error(e) else e == InvalidHeaderToken)
  }

  method ValueLoop(s: Settings, data: string, start: nat, p0: Parser)
      returns (p: Parser, at: nat, stop: Stop, ghost cut: nat)
    requires start < |data| && Good(p0) && p0.state.HeaderValue?
    ensures Seen(s, data, start, at, cut, p0, p) && StopsFor(s, data, at, cut, p, stop)
  {
    p, at, cut, stop := p0, start, start, AtEnd;
    while at < |data|
      invariant Seen(s, data, start, at, cut, p0, p) && stop == AtEnd
    {
      var ch := data[at];
      if ch == CR {
        stop := AtCr;
        return;
      }
      if ch == LF {
        stop := AtLf;
        return;
      }
      if !(s.lenient || IsHeaderChar(ch)) {
        stop := BadByte(InvalidHeaderToken);
        return;
      }
      p, at, stop, cut := ValueRound(s, data, start, at, cut, p0, p);
      if stop.BadByte? {
        return;
      }
    }
  }

  /** One turn of the loop over the value, for a byte that belongs to it. */
  method ValueRound(s: Settings, data: string, start: nat, from: nat, ghost cut0: nat, ghost p0: Parser, p: Parser)
      returns (q: Parser, at: nat, stop: Stop, ghost cut: nat)
    requires Seen(s, data, start, from, cut0, p0, p) && from < |data| && Plain(s, data[from])
    ensures Seen(s, data, start, at, cut, p0, q)
    ensures stop == AtEnd || stop.BadByte?
    ensures stop == AtEnd ==> from < at
    ensures stop.BadByte? ==> StopsFor(s, data, at, cut, q, stop)
  {
    if p.hstate.HGeneral? {
      q, cut := p, cut0;
      at, stop := GeneralValueLoop(s, data, from);
      if cut0 == from {
        cut := if stop == AtEnd && Plain(s, data[at]) then at + 1 else at;
        assert PlainBetween(s, data, from, cut);
        GeneralValueStays(s, data, start, from, cut, p0, p);
      }
      if stop == AtEnd {
        at := at + 1;
      }
    } else {
      var r := ValueOne(s, data, start, from, p0, p);
      match r
      case Consume(p', _) =>
        q, at, stop, cut := p', from + 1, AtEnd, from + 1;
      case Error(e) =>
        q, at, stop, cut := p, from, BadByte(e), from;
    }
  }

  lemma {:induction false} ValueReached(s: Settings, f: Frame, data: string, at: nat, cut: nat, p: Parser, nread: nat)
    requires InSwitch(s, f, data, at) && f.p.state.HeaderValue? && at <= cut <= |data|
    requires InValue(s, data, at, cut, f.p, p) && nread == f.nread - 1 + (cut - at)
    ensures nread <= s.limit ==>
              RunOf(s, Before(f, data, at), data[at..cut]) ==
              Ran(Conf(p, nread, Pending(Join(f.trace), f.marks, data, cut)))
    ensures nread > s.limit ==> Overflows(RunOf(s, Before(f, data, at), data[at..cut]))
  {
    var c, value := Before(f, data, at), data[at..cut];
    assert Inv(c) by { InSwitchMid(s, f, data, at); }
    ValueStretch(s, c, value);
    assert Emit(c.log, Data(Value, value)) == Pending(Join(f.trace), f.marks, data, cut) by {
      OpenMark(s, f, data, at, Value);
      PendingMore(Join(f.trace), f.marks, data, at, cut, Value);
    }
  }

  lemma {:induction false} ValueAdvance(s: Settings, f: Frame, data: string, at: nat, to: nat, g: Frame)
    requires InSwitch(s, f, data, at) && f.p.state.HeaderValue? && at <= to < |data|
    requires InValue(s, data, at, to, f.p, g.p)
    requires g == f.(p := g.p, nread := f.nread + (to - at)) && g.nread <= s.limit
    ensures InSwitch(s, g, data, to)
    ensures Onward(s, Before(f, data, at), data, at, to, Before(g, data, to))
    ensures Lawful(View(f, data, at)) ==> Lawful(View(g, data, to))
  {
    OpenMark(s, f, data, at, Value);
    ValueReached(s, f, data, at, to, g.p, g.nread - 1);
    Advance(s, f, data, at, g, to);
  }

  /** The per-byte form runs over the limit while reading the value or at the byte after it. */
  lemma {:induction false} ValueOver(s: Settings, f: Frame, data: string, at: nat, cut: nat, p: Parser, end: nat)
    requires InSwitch(s, f, data, at) && f.p.state.HeaderValue? && at <= cut <= end <= |data|
    requires InValue(s, data, at, cut, f.p, p)
    requires f.nread - 1 + (cut - at) > s.limit || (cut < end && f.nread + (cut - at) > s.limit)
    ensures Overflows(RunOf(s, Before(f, data, at), data[at..end]))
  {
    var nread := f.nread - 1 + (cut - at);
    var c := Before(f, data, at);
    ValueReached(s, f, data, at, cut, p, nread);
    if nread > s.limit {
      Cut(data, at, cut, end);
      FailsEarly(s, c, data[at..cut], data[cut..end], data[at..end]);
    } else {
      FullFails(s, c, data, at, cut, end);
    }
  }

  lemma {:induction false} ValueRunsOver(s: Settings, f: Frame, data: string, at: nat, cut: nat, p: Parser)
    requires InSwitch(s, f, data, at) && f.p.state.HeaderValue? && at <= cut <= |data|
    requires InValue(s, data, at, cut, f.p, p)
    requires f.nread - 1 + (cut - at) > s.limit || (cut < |data| && f.nread + (cut - at) > s.limit)
    ensures RunsOver(s, f, data, at)
  {
    assert data[at..|data|] == data[at..];
    ValueOver(s, f, data, at, cut, p, |data|);
  }

  lemma {:induction false} FullFails(s: Settings, c: Conf, data: string, at: nat, cut: nat, end: nat)
    requires at <= cut < end <= |data|
    requires var r := RunOf(s, c, data[at..cut]); r.Ran? && r.c.nread == s.limit && ParsingHeader(r.c.p.state)
    ensures Overflows(RunOf(s, c, data[at..end]))
  {
    FullOverflows(s, c, data[at..cut], data[cut]);
    assert data[at..cut] + [data[cut]] + data[cut + 1..end] == data[at..end];
    FailsEarly(s, c, data[at..cut] + [data[cut]], data[cut + 1..end], data[at..end]);
  }

  /** A run that has failed over a part fails over the whole. */
  lemma FailsEarly(s: Settings, c: Conf, a: string, b: string, whole: string)
    requires RunOf(s, c, a).RanFailed? && whole == a + b
    ensures RunOf(s, c, whole) == RunOf(s, c, a)
  {
    RunConcat(s, c, a, b);
  }

  /** The loop over the value has stopped at `to`. */
  ghost predicate Stopped(s: Settings, f: Frame, data: string, at: nat, p: Parser, to: nat, cut: nat) {
    InSwitch(s, f, data, at) && f.p.state.HeaderValue? && Sizes(s, data) && Seen(s, data, at, to, cut, f.p, p)
  }

  /** The arm after the loop over the value. The C code counts the bytes of the value after it has
      delivered the value, which makes a difference only when that goes over the limit. */
  method SwitchValue(env: Env, data: string, at: nat, f: Frame) returns (f': Frame, to: nat, sig: Signal)
    requires InSwitch(env.s, f, data, at) && f.p.state.HeaderValue? && Sizes(env.s, data)
    ensures Refines(env.s, f, data, at, f', to, sig) && Orderly(f, data, at, f', to, sig)
    ensures Heeds(env, f.trace, f'.trace, sig)
  {
    var p, stop;
    ghost var cut;
    p, to, stop, cut := ValueLoop(env.s, data, at, f.p);
    if stop == AtEnd {
      f', to, sig := ValueAtEnd(env.s, data, at, f, p, cut);
      return;
    }
    CountUpExact(env.s, data, f.nread, to - at);
    var g := f.(p := p, nread := CountUp(f.nread, to - at));
    if g.nread > env.s.limit {
      f', sig := ValueOverLimit(env, data, at, f, p, to, stop, cut);
    } else {
      ValueAdvance(env.s, f, data, at, to, g);
      f', sig := SwitchValueEnd(env, data, to, g, stop);
      RefinesLater(env.s, f, data, at, g, to, f', to, sig);
      OrderlyLater(f, data, at, g, to, f', to, sig);
    }
  }

  lemma {:induction false} ValueEndArm(s: Settings, f: Frame, data: string, at: nat, stop: Stop)
    requires InSwitch(s, f, data, at) && f.p.state.HeaderValue? && StopsFor(s, data, at, at, f.p, stop)
    ensures var q := f.p.(state := HeaderAlmostDone);
            match stop
            case AtEnd => true
            case AtCr => ArmIs(s, f, data, at, Consume(q, None))
            case AtLf => ArmIs(s, f, data, at, Again(q, None))
            case BadByte(e) => ArmIs(s, f, data, at, Outcome.Error(e)) && e != CbHeadersComplete
  {
    ArmExists(s, f, data, at);
  }

  /** The byte that ends the loop over the value, within the limit. */
  method SwitchValueEnd(env: Env, data: string, at: nat, f: Frame, stop: Stop) returns (f': Frame, sig: Signal)
    requires InSwitch(env.s, f, data, at) && f.p.state.HeaderValue?
    requires StopsFor(env.s, data, at, at, f.p, stop) && stop != AtEnd
    ensures Refines(env.s, f, data, at, f', at, sig) && Orderly(f, data, at, f', at, sig)
    ensures Heeds(env, f.trace, f'.trace, sig)
  {
    var s := env.s;
    ValueEndArm(s, f, data, at, stop);
    OpenMark(s, f, data, at, Value);
    var q := f.p.(state := HeaderAlmostDone);
    match stop
    case AtCr =>
      f' := Deliver(f.(p := q), Value, data, at);
      sig := if env.pauses(f'.trace) then PausedAt(at + 1) else Break;
      DeliveredByte(s, f, data, at, q, Value);
      OrderlyConsumed(s, f, data, at, f');
    case AtLf =>
      f' := Deliver(f.(p := q), Value, data, at);
      sig := if env.pauses(f'.trace) then PausedAt(at) else Reexecute;
      DeliveredAgain(s, f, data, at, q, Value);
      OrderlyRepeats(s, f, data, at, f');
    case BadByte(e) =>
      f', sig := f, GotoError(e);
      ArmError(s, f, data, at, e, f);
  }

  method ValueOverLimit(env: Env, data: string, at: nat, f: Frame, p: Parser, to: nat, stop: Stop, ghost cut: nat)
      returns (f': Frame, sig: Signal)
    requires Stopped(env.s, f, data, at, p, to, cut) && StopsFor(env.s, data, to, cut, p, stop) && stop != AtEnd
    requires f.nread + (to - at) > env.s.limit
    ensures Refines(env.s, f, data, at, f', to, sig) && Orderly(f, data, at, f', to, sig)
    ensures Heeds(env, f.trace, f'.trace, sig)
  {
    ValueRunsOver(env.s, f, data, at, cut, p);
    if stop == AtCr {
      f', sig := ValueDelivered(env, data, at, f, p, to, cut);
    } else {
      f', sig := f.(p := p), GotoError(if stop.BadByte? then stop.errno else HeaderOverflow);
      OrderlyFailure(f, data, at, f', to, sig.errno);
      OverStops(env.s, f, data, at, p, to, cut, stop);
      OverFails(env.s, f, data, at, f', to, sig.errno);
      HeedsOne(env, f.trace, f'.trace, sig);
    }
  }

  /** A value over the limit is delivered before it is counted. */
  method ValueDelivered(env: Env, data: string, at: nat, f: Frame, p: Parser, to: nat, ghost cut: nat)
      returns (f': Frame, sig: Signal)
    requires Stopped(env.s, f, data, at, p, to, cut) && RunsOver(env.s, f, data, at) && to < |data| && data[to] == CR
    requires f.nread + (to - at) > env.s.limit
    ensures Refines(env.s, f, data, at, f', to, sig) && Orderly(f, data, at, f', to, sig)
    ensures Heeds(env, f.trace, f'.trace, sig)
  {
    OpenMark(env.s, f, data, at, Value);
    f' := Deliver(f.(p := p.(state := HeaderAlmostDone)), Value, data, to);
    sig := if env.pauses(f'.trace) then PausedAt(to + 1) else GotoError(HeaderOverflow);
    OverInOrder(env.s, f, data, at, p, to, cut, f');
    if sig.PausedAt? {
      OverPauses(env.s, f, data, at, p, to, cut, f');
      AlmostDoneIsGood(p);
      OverPaused(env.s, f, data, at, f', to);
    } else {
      OverFails(env.s, f, data, at, f', to, HeaderOverflow);
    }
    HeedsOne(env, f.trace, f'.trace, sig);
  }

  ghost predicate RunsOver(s: Settings, f: Frame, data: string, at: nat) {
    InSwitch(s, f, data, at) && Overflows(RunOf(s, Before(f, data, at), data[at..]))
  }

  lemma {:induction false} OverFails(s: Settings, f: Frame, data: string, at: nat, f': Frame, to: nat, e: ErrorCode)
    requires RunsOver(s, f, data, at) && at <= to < |data|
    requires e == HeaderOverflow || FailsIn(s, Before(f, data, at), data, at, e)
    ensures Refines(s, f, data, at, f', to, GotoError(e))
  {
  }

  /** With a larger limit the run would have met the bad byte. */
  lemma {:induction false} OverMeets(w: Settings, f: Frame, data: string, at: nat, p: Parser, to: nat, e: ErrorCode)
    requires InSwitch(w, f, data, at) && f.p.state.HeaderValue? && at <= to < |data|
    requires InValue(w, data, at, to, f.p, p) && StopsFor(w, data, to, to, p, BadByte(e))
    ensures FailsWith(RunOf(w, Before(f, data, at), data[at..]), e)
  {
    var g := f.(p := p, nread := f.nread + (to - at));
    if g.nread > w.limit {
      ValueRunsOver(w, f, data, at, to, p);
    } else {
      ValueAdvance(w, f, data, at, to, g);
      BadByteStops(w, data, to, g, e);
      FailsLater(w, Before(f, data, at), data, at, to, Before(g, data, to), e);
    }
  }

  lemma {:induction false} BadByteStops(w: Settings, data: string, at: nat, g: Frame, e: ErrorCode)
    requires InSwitch(w, g, data, at) && g.p.state.HeaderValue? && StopsFor(w, data, at, at, g.p, BadByte(e))
    ensures FailsWith(RunOf(w, Before(g, data, at), data[at..]), e)
  {
    ValueEndArm(w, g, data, at, BadByte(e));
    InSwitchMid(w, g, data, at);
    ArmStops(w, View(g, data, at), data, at);
  }

  lemma {:induction false} OverStops(s: Settings, f: Frame, data: string, at: nat, p: Parser, to: nat, cut: nat,
                                     stop: Stop)
    requires Stopped(s, f, data, at, p, to, cut) && RunsOver(s, f, data, at) && StopsFor(s, data, to, cut, p, stop)
    ensures stop.BadByte? ==> FailsIn(s, Before(f, data, at), data, at, stop.errno)
  {
    if stop.BadByte? {
      forall w | Wider(w, s) && (w == s || |data| <= s.limit)
        ensures FailsWith(RunOf(w, Before(f, data, at), data[at..]), stop.errno)
      {
        if |data| <= s.limit {
          NothingMissed(s, data, at, to, cut, f.p, p);
          PlainWider(w, s, data, at, to, f.p, p);
          InSwitchWider(w, s, f, data, at);
          OverMeets(w, f, data, at, p, to, stop.errno);
        }
      }
    }
  }

  lemma InSwitchWider(w: Settings, s: Settings, f: Frame, data: string, at: nat)
    requires Wider(w, s) && InSwitch(s, f, data, at)
    ensures InSwitch(w, f, data, at)
  {
  }

  /** With a larger limit the loop over the value would have come to the byte at `to` in the same way. */
  lemma {:induction false} OverTracks(w: Settings, f: Frame, data: string, at: nat, p: Parser, to: nat, f': Frame)
    requires InSwitch(w, f, data, at) && f.p.state.HeaderValue? && f.marks.Keys == {Value}
    requires at <= to < |data| && InValue(w, data, at, to, f.p, p) && data[to] == CR
    requires f' == Deliver(f.(p := p.(state := HeaderAlmostDone)), Value, data, to)
    ensures Tracks(w, Before(f, data, at), data, at, to + 1, Stored(f'))
  {
    var g := f.(p := p, nread := f.nread + (to - at));
    if g.nread > w.limit {
      ValueRunsOver(w, f, data, at, to, p);
    } else {
      SameStored(f, g, data, to, p);
      OverAdvances(w, f, data, at, to, g, Stored(f'));
    }
  }

  lemma {:induction false} OverAdvances(w: Settings, f: Frame, data: string, at: nat, to: nat, g: Frame, now: Conf)
    requires InSwitch(w, f, data, at) && f.p.state.HeaderValue? && f.marks.Keys == {Value}
    requires at <= to < |data| && InValue(w, data, at, to, f.p, g.p) && data[to] == CR
    requires g == f.(p := g.p, nread := f.nread + (to - at)) && g.nread <= w.limit
    requires now == Stored(Deliver(g.(p := g.p.(state := HeaderAlmostDone)), Value, data, to))
    ensures Tracks(w, Before(f, data, at), data, at, to + 1, now)
  {
    ValueAdvance(w, f, data, at, to, g);
    OverEnds(w, data, to, g, now);
    TracksOn(w, Before(f, data, at), data, at, to, Before(g, data, to), to + 1, now);
  }

  lemma SameStored(f: Frame, g: Frame, data: string, at: nat, p: Parser)
    requires g == f.(p := p, nread := g.nread) && Value in f.marks && f.marks[Value] <= at <= |data|
    ensures var q := p.(state := HeaderAlmostDone);
            Stored(Deliver(f.(p := q), Value, data, at)) == Stored(Deliver(g.(p := q), Value, data, at))
  {
  }

  lemma {:induction false} OverEnds(w: Settings, data: string, at: nat, g: Frame, now: Conf)
    requires InSwitch(w, g, data, at) && g.p.state.HeaderValue? && data[at] == CR && g.marks.Keys == {Value}
    requires now == Stored(Deliver(g.(p := g.p.(state := HeaderAlmostDone)), Value, data, at))
    ensures Tracks(w, Before(g, data, at), data, at, at + 1, now)
  {
    ValueEndArm(w, g, data, at, AtCr);
    DeliveredByte(w, g, data, at, g.p.(state := HeaderAlmostDone), Value);
    PausesTrack(w, Before(g, data, at), data, at, at + 1, now, w);
  }

  /** In a buffer within the limit the loop has missed no byte. */
  lemma NothingMissed(s: Settings, data: string, start: nat, at: nat, cut: nat, p0: Parser, p: Parser)
    requires Seen(s, data, start, at, cut, p0, p) && at < |data| <= s.limit
    ensures InValue(s, data, start, at, p0, p) && cut == at
  {
  }

  lemma {:induction false} OverBy(s: Settings, f: Frame, data: string, at: nat, p: Parser, to: nat, cut: nat)
    requires Stopped(s, f, data, at, p, to, cut) && f.nread + (to - at) > s.limit && to < |data|
    ensures Overflows(RunOf(s, Before(f, data, at), data[at..to + 1]))
  {
    var end := to + 1;
    OverReached(s, f, data, at, p, to, cut, end);
    ValueOver(s, f, data, at, cut, p, end);
  }

  lemma OverReached(s: Settings, f: Frame, data: string, at: nat, p: Parser, to: nat, cut: nat, end: nat)
    requires Stopped(s, f, data, at, p, to, cut) && f.nread + (to - at) > s.limit && to < end == to + 1 <= |data|
    ensures InSwitch(s, f, data, at) && f.p.state.HeaderValue? && at <= cut <= end
    ensures InValue(s, data, at, cut, f.p, p)
    ensures f.nread - 1 + (cut - at) > s.limit || (cut < end && f.nread + (cut - at) > s.limit)
  {
  }

  lemma {:induction false} OverPauses(s: Settings, f: Frame, data: string, at: nat, p: Parser, to: nat, cut: nat,
                                      f': Frame)
    requires Stopped(s, f, data, at, p, to, cut) && f.nread + (to - at) > s.limit && to < |data| && data[to] == CR
    requires f.marks.Keys == {Value} && f' == Deliver(f.(p := p.(state := HeaderAlmostDone)), Value, data, to)
    ensures PausesIn(s, Before(f, data, at), data, at, to + 1, Stored(f'))
  {
    var b := Before(f, data, at);
    OverBy(s, f, data, at, p, to, cut);
    forall w | Wider(w, s) && |data| <= s.limit ensures Tracks(w, b, data, at, to + 1, Stored(f')) {
      OverBeyond(w, s, f, data, at, p, to, cut, f');
    }
  }

  lemma {:induction false} OverBeyond(w: Settings, s: Settings, f: Frame, data: string, at: nat, p: Parser, to: nat,
                                      cut: nat, f': Frame)
    requires Wider(w, s) && Stopped(s, f, data, at, p, to, cut) && to < |data| <= s.limit && data[to] == CR
    requires f.marks.Keys == {Value} && f' == Deliver(f.(p := p.(state := HeaderAlmostDone)), Value, data, to)
    ensures Tracks(w, Before(f, data, at), data, at, to + 1, Stored(f'))
  {
    NothingMissed(s, data, at, to, cut, f.p, p);
    PlainWider(w, s, data, at, to, f.p, p);
    InSwitchWider(w, s, f, data, at);
    OverTracks(w, f, data, at, p, to, f');
  }

  lemma PlainWider(w: Settings, s: Settings, data: string, start: nat, at: nat, p0: Parser, p: Parser)
    requires Wider(w, s) && start <= at <= |data| && InValue(s, data, start, at, p0, p)
    ensures InValue(w, data, start, at, p0, p)
  {
  }

  lemma AlmostDoneIsGood(p: Parser)
    requires Good(p) && p.state.HeaderValue?
    ensures Good(p.(state := HeaderAlmostDone))
  {
  }

  lemma {:induction false} OverPaused(s: Settings, f: Frame, data: string, at: nat, f': Frame, to: nat)
    requires InSwitch(s, f, data, at) && at <= to < |data|
    requires f'.p.state.HeaderAlmostDone? && Good(f'.p) && f'.saved == f.saved
    requires PausesIn(s, Before(f, data, at), data, at, to + 1, Stored(f'))
    ensures Refines(s, f, data, at, f', to, PausedAt(to + 1))
  {
  }

  /** The value bytes leave alone what the order of callbacks depends on. */
  lemma {:induction false} ValueFoldTrails(p: Parser, v: string)
    requires ValueFold(p, v).Some?
    ensures ValueFold(p, v).value.flags.trailing == p.flags.trailing
    decreases |v|
  {
    if v != "" {
      var q := ValueFold(p, v[..|v| - 1]).value;
      ValueFoldTrails(p, v[..|v| - 1]);
      ValueByteTrails(q, v[|v| - 1]);
    }
  }

  lemma WordTrails(p: Parser, ch: char)
    requires p.hstate.HConnKeepAlive? || p.hstate.HConnClose? || p.hstate.HConnUpgrade?
    ensures ValueByte(p, ch).Consume? ==> ValueByte(p, ch).p.flags.trailing == p.flags.trailing
  {
  }

  lemma MatcherTrails(p: Parser, ch: char)
    requires p.hstate.HMatchingTeChunked? || p.hstate.HMatchingConnKeepAlive? || p.hstate.HMatchingConnClose? ||
             p.hstate.HMatchingConnUpgrade?
    ensures ValueByte(p, ch).Consume? ==> ValueByte(p, ch).p.flags == p.flags
  {
  }

  lemma LengthTrails(p: Parser, ch: char)
    requires p.hstate.HContentLength? || p.hstate.HContentLengthNum? || p.hstate.HContentLengthWs?
    ensures ValueByte(p, ch).Consume? ==> ValueByte(p, ch).p.flags == p.flags
  {
  }

  lemma ValueByteTrails(p: Parser, ch: char)
    requires ValueByte(p, ch).Consume?
    ensures ValueByte(p, ch).p.flags.trailing == p.flags.trailing
  {
    if p.hstate.HConnKeepAlive? || p.hstate.HConnClose? || p.hstate.HConnUpgrade? {
      WordTrails(p, ch);
    } else if p.hstate.HContentLength? || p.hstate.HContentLengthNum? || p.hstate.HContentLengthWs? {
      LengthTrails(p, ch);
    } else if p.hstate.HMatchingTeChunked? || p.hstate.HMatchingConnKeepAlive? || p.hstate.HMatchingConnClose? ||
              p.hstate.HMatchingConnUpgrade? {
      MatcherTrails(p, ch);
    }
  }

  /** Delivering the value in order, whatever its length. */
  lemma {:induction false} OverInOrder(s: Settings, f: Frame, data: string, at: nat, p: Parser, to: nat, cut: nat,
      f': Frame)
    requires Stopped(s, f, data, at, p, to, cut) && at <= to < |data| && f.marks.Keys == {Value}
    requires f' == Deliver(f.(p := p.(state := HeaderAlmostDone)), Value, data, to)
    ensures Orderly(f, data, at, f', to, GotoError(HeaderOverflow)) && Orderly(f, data, at, f', to, PausedAt(to + 1))
  {
    var m := f.marks[Value];
    PendingSingle(Join(f.trace), f.marks, data, at, Value);
    PhaseEmit(Join(f.trace), Data(Value, data[m..at]));
    PhaseEmit(Join(f.trace), Data(Value, data[m..to]));
    JoinSnoc(f.trace, Data(Value, data[m..to]));
    ValueFoldTrails(f.p, data[at..cut]);
    PhaseJoin(f'.trace);
    if Lawful(View(f, data, at)) {
      SamePhase(f.p, p, PhaseOf(Join(f.trace)), data[m..at], data[m..to]);
    }
  }

  lemma SamePhase(p: Parser, q: Parser, g: Phase, a: string, b: string)
    requires p.state.HeaderValue? && Fits(p, Next(g, Data(Value, a))) && q.flags.trailing == p.flags.trailing
    ensures Next(g, Data(Value, b)) == Next(g, Data(Value, a)) != Bad
    ensures Fits(q.(state := HeaderAlmostDone), Next(g, Data(Value, b)))
  {
  }

  lemma {:induction false} ValueEnds(s: Settings, f: Frame, data: string, at: nat, p: Parser, cut: nat, f': Frame)
    requires Stopped(s, f, data, at, p, |data|, cut) && at < |data|
    requires f' == f.(p := p, nread := f.nread + (|data| - 1 - at)) && f'.nread <= s.limit
    ensures Refines(s, f, data, at, f', |data| - 1, Break) && Orderly(f, data, at, f', |data| - 1, Break)
  {
    OpenMark(s, f, data, at, Value);
    ValueReached(s, f, data, at, |data|, p, f'.nread);
    assert data[at..|data|] == data[at..];
    EndRefines(s, f, data, at, f');
    EndInOrder(s, f, data, at, f');
  }

  lemma {:induction false} ValueEndsOver(s: Settings, f: Frame, data: string, at: nat, p: Parser, cut: nat, f': Frame)
    requires Stopped(s, f, data, at, p, |data|, cut) && at < |data|
    requires f.nread + (|data| - 1 - at) > s.limit
    requires f'.trace == f.trace
    ensures Refines(s, f, data, at, f', |data| - 1, GotoError(HeaderOverflow))
    ensures Orderly(f, data, at, f', |data| - 1, GotoError(HeaderOverflow))
  {
    OpenMark(s, f, data, at, Value);
    ValueRunsOver(s, f, data, at, cut, p);
    OrderlyFailure(f, data, at, f', |data| - 1, HeaderOverflow);
  }

  lemma {:induction false} ValueEndsEither(s: Settings, f: Frame, data: string, at: nat, p: Parser, cut: nat,
                                           f': Frame, to: nat, sig: Signal)
    requires Stopped(s, f, data, at, p, |data|, cut) && to == |data| - 1
    requires f' == f.(p := p, nread := f.nread + (to - at))
    requires sig == if f'.nread > s.limit then GotoError(HeaderOverflow) else Break
    ensures Refines(s, f, data, at, f', to, sig) && Orderly(f, data, at, f', to, sig)
  {
    if f'.nread > s.limit {
      ValueEndsOver(s, f, data, at, p, cut, f');
    } else {
      ValueEnds(s, f, data, at, p, cut, f');
    }
  }

  lemma StoppedCounts(s: Settings, f: Frame, data: string, at: nat, p: Parser, cut: nat)
    requires Stopped(s, f, data, at, p, |data|, cut)
    ensures at < |data| && CountUp(f.nread, |data| - 1 - at) == f.nread + (|data| - 1 - at)
  {
    CountUpExact(s, data, f.nread, |data| - 1 - at);
  }

  method ValueAtEnd(s: Settings, data: string, at: nat, f: Frame, p: Parser, ghost cut: nat)
      returns (f': Frame, to: nat, sig: Signal)
    requires Stopped(s, f, data, at, p, |data|, cut)
    ensures Refines(s, f, data, at, f', to, sig) && Orderly(f, data, at, f', to, sig)
    ensures !sig.PausedAt? && f'.trace == f.trace
  {
    StoppedCounts(s, f, data, at, p, cut);
    to := |data| - 1;
    f' := f.(p := p, nread := CountUp(f.nread, to - at));
    sig := if f'.nread > s.limit then GotoError(HeaderOverflow) else Break;
    ValueEndsEither(s, f, data, at, p, cut, f', to, sig);
  }
}
