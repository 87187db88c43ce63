/** The switch of http_parser_execute as the C code runs it: with marks, with inner loops that go over
    a whole stretch of the buffer, and with callbacks that may pause the parser. Each method here is one
    group of arms, and each refines the per-byte form. */
module HttpParserSwitch {
  import opened Options
  import opened HttpBytes
  import opened HttpParserTypes
  import opened HttpParserArms
  import opened HttpParserRun
  import opened HttpParserSections
  import opened HttpParserInvariant
  import opened HttpParserLag
  import opened HttpParserReach
  import opened HttpParserFrame

  // ---------- arms without marks ----------

  /** The states whose arms neither set a mark nor deliver marked data. */
  predicate PlainState(s: State) {
    !s.ResStatusStart? && !s.ResStatus? && !s.ReqSpacesBeforeUrl? && !UrlState(s) &&
    !s.HeaderFieldStart? && !s.HeaderField? && !s.HeaderValueDiscardWs? && !s.HeaderValueDiscardLws? &&
    !s.HeaderValueStart? && !s.HeaderValue? &&
    !s.ChunkData? && !s.ChunkDataAlmostDone? && !s.BodyIdentity? && !s.BodyIdentityEof?
  }

  predicate NoData(r: Outcome) {
    (r.Consume? || r.Again? || r.Upgraded?) && r.event.Some? ==> !r.event.value.Data?
  }

  lemma {:induction false} StatusLineNoData(p: Parser, ch: char)
    requires !p.state.ResStatusStart? && !p.state.ResStatus?
    ensures NoData(StatusLineArm(p, ch))
  {
  }

  lemma {:induction false} HeaderNoData(s: Settings, p: Parser, ch: char)
    requires p.state.HeaderValueDiscardWsAlmostDone? || p.state.HeaderAlmostDone? || p.state.HeaderValueLws?
    ensures NoData(HeaderArm(s, p, ch))
  {
  }

  lemma {:induction false} BodyNoData(p: Parser, ch: char)
    requires !p.state.ChunkData? && !p.state.BodyIdentity? && !p.state.BodyIdentityEof?
    ensures NoData(BodyArm(p, ch))
  {
  }

  lemma {:induction false} PlainNoData(s: Settings, p: Parser, ch: char, answer: int)
    requires PlainState(p.state)
    ensures NoData(Arm(s, p, ch, answer))
  {
    if StatusLineState(p.state) {
      StatusLineNoData(p, ch);
    } else if HeaderState(p.state) {
      HeaderNoData(s, p, ch);
    } else if BodyState(p.state) {
      BodyNoData(p, ch);
    } else {
      assert NoData(StartArm(p, ch));
      assert NoData(RequestVersionArm(p, ch));
      assert NoData(HeadersEndArm(s, p, ch, answer));
    }
  }

  /** What an arm without marks leaves in the local variables. */
  function Called(f: Frame, p: Parser, e: Option<Event>): Frame {
    Frame(p,
          if ResetsNread(f.p.state) then 0 else f.nread,
          if ResetsNread(f.p.state) then 0 else f.saved,
          map[],
          if e.Some? then f.trace + [e.value] else f.trace)
  }

  lemma CalledLog(f: Frame, p: Parser, e: Option<Event>)
    ensures Join(Called(f, p, e).trace) == EmitOption(Join(f.trace), e)
  {
    if e.Some? {
      JoinSnoc(f.trace, e.value);
    }
  }

  /** No element is open after the arm. */
  predicate Closed(r: Outcome) {
    r.Consume? || r.Again? || r.Upgraded? ==> OpenElement(r.p.state).None?
  }

  ghost predicate PlainArm(s: Settings, f: Frame, data: string, at: nat, r: Outcome) {
    InSwitch(s, f, data, at) && f.marks == map[] &&
    r == Arm(s, f.p, data[at], s.onHeadersComplete(Join(f.trace))) && Keeps(f.p.state, r) && Closed(r)
  }

  lemma {:induction false} PlainCall(s: Settings, f: Frame, data: string, at: nat, r: Outcome)
    requires PlainArm(s, f, data, at, r) && (r.Consume? || r.Again? || r.Upgraded?)
    ensures var next := View(Called(f, r.p, r.event), data, at);
            ArmOf(s, View(f, data, at), data[at]) ==
              (if r.Consume? then Consumed(next) else if r.Again? then Repeats(next) else Leaves(next)) &&
            (if r.Again? then Inside(next) else Inv(next))
  {
    assert View(f, data, at).log == Join(f.trace);
    ArmOfInv(s, View(f, data, at), data[at]);
    CalledLog(f, r.p, r.event);
  }

  lemma {:induction false} PlainConsumed(s: Settings, f: Frame, data: string, at: nat, q: Parser, e: Option<Event>)
    requires PlainArm(s, f, data, at, Consume(q, e))
    ensures Refines(s, f, data, at, Called(f, q, e), at, Break)
    ensures Refines(s, f, data, at, Called(f, q, e), at, PausedAt(at + 1))
    ensures ArmOf(s, View(f, data, at), data[at]) == Consumed(View(Called(f, q, e), data, at + 1))
  {
    PlainCall(s, f, data, at, Consume(q, e));
    RefinesConsumed(s, f, data, at, Called(f, q, e));
    PausesConsumed(s, f, data, at, Called(f, q, e));
  }

  lemma {:induction false} PlainAgain(s: Settings, f: Frame, data: string, at: nat, q: Parser, e: Option<Event>)
    requires PlainArm(s, f, data, at, Again(q, e)) && !ResetsNread(f.p.state) && ParsingHeader(f.p.state)
    ensures Refines(s, f, data, at, Called(f, q, e), at, Reexecute)
    ensures !q.state.HeadersDone? ==> Refines(s, f, data, at, Called(f, q, e), at, PausedAt(at))
    ensures q.state.HeadersDone? ==>
              Refines(s, f, data, at, Called(f, q, e).(saved := Called(f, q, e).nread), at, PausedAt(at))
    ensures ArmOf(s, View(f, data, at), data[at]) == Repeats(View(Called(f, q, e), data, at))
  {
    var f' := Called(f, q, e);
    PlainCall(s, f, data, at, Again(q, e));
    AgainIsNoChunkStart(s, f.p, data[at], s.onHeadersComplete(Join(f.trace)), q, e);
    RefinesRepeats(s, f, data, at, f');
    if q.state.HeadersDone? {
      PausesHeadersComplete(s, f, data, at, f'.(saved := f'.nread));
    } else {
      PausesRepeats(s, f, data, at, f');
    }
  }

  /** The exit for another protocol. A pause in its callback stands at the exit. */
  lemma {:induction false} PlainUpgraded(s: Settings, f: Frame, data: string, at: nat, q: Parser, e: Option<Event>)
    requires PlainArm(s, f, data, at, Upgraded(q, e))
    ensures Refines(s, f, data, at, Called(f, q, e), at, Leave)
    ensures Refines(s, f, data, at, Called(f, q, e), at, PausedAt(at + 1))
    ensures ArmOf(s, View(f, data, at), data[at]) == Leaves(View(Called(f, q, e), data, at))
  {
    var f' := Called(f, q, e);
    PlainCall(s, f, data, at, Upgraded(q, e));
    InSwitchMid(s, f, data, at);
    ArmStops(s, View(f, data, at), data, at);
    NotInHeadersDone(s, View(f, data, at), data[at]);
    assert Lags(Stored(f'), View(f', data, at));
  }

  lemma {:induction false} ArmError(s: Settings, f: Frame, data: string, at: nat, e: ErrorCode, f': Frame)
    requires InSwitch(s, f, data, at)
    requires Arm(s, f.p, data[at], s.onHeadersComplete(View(f, data, at).log)) == Outcome.Error(e) &&
             e != CbHeadersComplete
    requires f'.marks == f.marks && f'.trace == f.trace
    ensures Refines(s, f, data, at, f', at, GotoError(e)) && Orderly(f, data, at, f', at, GotoError(e))
  {
    InSwitchMid(s, f, data, at);
    ArmStops(s, View(f, data, at), data, at);
    OrderlyFailure(f, data, at, f', at, e);
  }

  /** The callback that answers with an error is on record all the same. */
  lemma {:induction false} ArmRefused(s: Settings, f: Frame, data: string, at: nat, f': Frame)
    requires InSwitch(s, f, data, at) && f.marks == map[]
    requires Arm(s, f.p, data[at], s.onHeadersComplete(View(f, data, at).log)) == Outcome.Error(CbHeadersComplete)
    requires f' == f.(trace := f.trace + [HeadersComplete])
    ensures Refines(s, f, data, at, f', at, GotoError(CbHeadersComplete))
    ensures Orderly(f, data, at, f', at, GotoError(CbHeadersComplete))
  {
    InSwitchMid(s, f, data, at);
    ArmStops(s, View(f, data, at), data, at);
    JoinSnoc(f.trace, HeadersComplete);
    OrderlyRefusal(s, f, data, at, f');
  }

  lemma PlainMarks(s: Settings, f: Frame, data: string, at: nat)
    requires InSwitch(s, f, data, at) && PlainState(f.p.state)
    ensures f.marks == map[]
  {
  }

  /** One arm without marks. The only arm that stores the counter when paused is the one that calls
      `on_headers_complete`, because it leaves through RETURN. */
  method SwitchPlain(env: Env, data: string, at: nat, f: Frame) returns (f': Frame, sig: Signal)
    requires InSwitch(env.s, f, data, at) && PlainState(f.p.state)
    ensures Refines(env.s, f, data, at, f', at, sig) && Orderly(f, data, at, f', at, sig)
    ensures Heeds(env, f.trace, f'.trace, sig)
  {
    var s := env.s;
    var answer := s.onHeadersComplete(Join(f.trace));
    var r := Arm(s, f.p, data[at], answer);
    PlainMarks(s, f, data, at);
    ArmKeeps(s, f.p, data[at], answer);
    PlainNoData(s, f.p, data[at], answer);
    assert Closed(r);
    match r {
    case Consume(q, e) =>
      PlainConsumed(s, f, data, at, q, e);
      f' := Called(f, q, e);
      sig := if e.Some? && env.pauses(f'.trace) then PausedAt(at + 1) else Break;
      OrderlyConsumed(s, f, data, at, f');
    case Again(q, e) =>
      AgainKeepsCount(s, f.p, data[at], answer);
      PlainAgain(s, f, data, at, q, e);
      f' := Called(f, q, e);
      if e.Some? && env.pauses(f'.trace) {
        sig := PausedAt(at);
        if q.state.HeadersDone? {
          f' := f'.(saved := f'.nread);
        }
      } else {
        sig := Reexecute;
      }
      OrderlyRepeats(s, f, data, at, f');
    case Upgraded(q, e) =>
      PlainUpgraded(s, f, data, at, q, e);
      f' := Called(f, q, e);
      sig := if e.Some? && env.pauses(f'.trace) then PausedAt(at + 1) else Leave;
      OrderlyLeaves(s, f, data, at, f');
    case Error(e) =>
      sig := GotoError(e);
      if e == CbHeadersComplete {
        f' := f.(trace := f.trace + [HeadersComplete]);
        ArmRefused(s, f, data, at, f');
      } else {
        f' := if e == InvalidTransferEncoding then f.(nread := 0) else f;
        ArmError(s, f, data, at, e, f');
      }
    case AssertFails =>
      assert false;
    }
    HeedsOne(env, f.trace, f'.trace, sig);
  }

  /** REEXECUTE never follows a reset, and never leads from an uncounted state to a counted one. */
  lemma {:induction false} AgainKeepsCount(s: Settings, p: Parser, ch: char, answer: int)
    requires PlainState(p.state) && Arm(s, p, ch, answer).Again?
    ensures !ResetsNread(p.state) && ParsingHeader(p.state)
  {
    BodyPlainNeverRepeats(p, ch);
  }

  lemma {:induction false} BodyPlainNeverRepeats(p: Parser, ch: char)
    requires !p.state.BodyIdentity?
    ensures !BodyArm(p, ch).Again?
  {
  }

  // ---------- arms with marks ----------

  /** `MARK`: does nothing when the mark is already set. */
  function Mark(marks: map<Element, nat>, k: Element, at: nat): map<Element, nat> {
    if k in marks then marks else marks[k := at]
  }

  /** `CALLBACK_DATA_` for data up to `at`: delivers the marked data, if the mark is set, and clears the mark. */
  function Deliver(f: Frame, k: Element, data: string, at: nat): Frame
    requires k in f.marks ==> f.marks[k] <= at <= |data|
  {
    if k in f.marks then f.(trace := f.trace + [Data(k, data[f.marks[k]..at])], marks := f.marks - {k}) else f
  }

  /** The arm of the current byte, for a frame in the switch. */
  ghost predicate ArmIs(s: Settings, f: Frame, data: string, at: nat, r: Outcome) {
    InSwitch(s, f, data, at) && !ResetsNread(f.p.state) && !f.p.state.ChunkSizeStart? &&
    r == Arm(s, f.p, data[at], s.onHeadersComplete(View(f, data, at).log)) && Keeps(f.p.state, r)
  }

  lemma {:induction false} ArmExists(s: Settings, f: Frame, data: string, at: nat)
    requires InSwitch(s, f, data, at) && !ResetsNread(f.p.state) && !f.p.state.ChunkSizeStart?
    ensures ArmIs(s, f, data, at, Arm(s, f.p, data[at], s.onHeadersComplete(View(f, data, at).log)))
  {
    ArmKeeps(s, f.p, data[at], s.onHeadersComplete(View(f, data, at).log));
  }

  lemma {:induction false} MarkedConsumes(s: Settings, f: Frame, data: string, at: nat, q: Parser, k: Element)
    requires at < |data| && ArmIs(s, f, data, at, Consume(q, Some(Data(k, [data[at]]))))
    requires (f.marks == map[] || f.marks.Keys == {k}) && OpenElement(q.state) == Some(k)
    ensures var f' := f.(p := q, marks := Mark(f.marks, k, at));
            ArmOf(s, View(f, data, at), data[at]) == Consumed(View(f', data, at + 1)) && Inv(View(f', data, at + 1))
  {
    var c, f' := View(f, data, at), f.(p := q, marks := Mark(f.marks, k, at));
    ArmOfInv(s, c, data[at]);
    assert data[at..at + 1] == [data[at]];
    if f.marks == map[] {
      PendingSingle(Join(f.trace), f'.marks, data, at + 1, k);
    } else {
      PendingMore(Join(f.trace), f.marks, data, at, at + 1, k);
    }
  }

  /** A byte of an element: the mark is set, or was set before. */
  lemma {:induction false} MarkedByte(s: Settings, f: Frame, data: string, at: nat, q: Parser, k: Element)
    requires at < |data| && ArmIs(s, f, data, at, Consume(q, Some(Data(k, [data[at]]))))
    requires (f.marks == map[] || f.marks.Keys == {k}) && OpenElement(q.state) == Some(k)
    ensures var f' := f.(p := q, marks := Mark(f.marks, k, at));
            Refines(s, f, data, at, f', at, Break) &&
                ArmOf(s, View(f, data, at), data[at]) == Consumed(View(f', data, at + 1))
  {
    MarkedConsumes(s, f, data, at, q, k);
    RefinesConsumed(s, f, data, at, f.(p := q, marks := Mark(f.marks, k, at)));
  }

  lemma {:induction false} MarkedTaken(s: Settings, f: Frame, data: string, at: nat, q: Parser, k: Element)
    requires at < |data| && ArmIs(s, f, data, at, Consume(q, Some(Data(k, [data[at]]))))
    requires (f.marks == map[] || f.marks.Keys == {k}) && OpenElement(q.state) == Some(k)
    ensures var f' := f.(p := q, marks := Mark(f.marks, k, at));
            Refines(s, f, data, at, f', at, Break) && Orderly(f, data, at, f', at, Break)
  {
    MarkedByte(s, f, data, at, q, k);
    OrderlyConsumed(s, f, data, at, f.(p := q, marks := Mark(f.marks, k, at)));
  }

  /** A byte that opens an element without belonging to it. */
  lemma {:induction false} MarkedAgain(s: Settings, f: Frame, data: string, at: nat, q: Parser, k: Element)
    requires ArmIs(s, f, data, at, Again(q, Some(Data(k, ""))))
    requires f.marks == map[] && OpenElement(q.state) == Some(k)
    requires ParsingHeader(f.p.state)
    ensures var f' := f.(p := q, marks := Mark(f.marks, k, at));
            Refines(s, f, data, at, f', at, Reexecute) &&
                ArmOf(s, View(f, data, at), data[at]) == Repeats(View(f', data, at))
  {
    var c, f' := View(f, data, at), f.(p := q, marks := Mark(f.marks, k, at));
    ArmOfInv(s, c, data[at]);
    assert data[at..at] == "";
    PendingSingle(Join(f.trace), f'.marks, data, at, k);
    RefinesRepeats(s, f, data, at, f');
  }

  /** The element that was pending is delivered. */
  lemma DeliverLog(f: Frame, k: Element, data: string, at: nat)
    requires MarksBefore(f.marks, data, at) && f.marks.Keys == {k}
    ensures Deliver(f, k, data, at).marks == map[]
    ensures Join(Deliver(f, k, data, at).trace) == Pending(Join(f.trace), f.marks, data, at)
  {
    JoinSnoc(f.trace, Data(k, data[f.marks[k]..at]));
    PendingSingle(Join(f.trace), f.marks, data, at, k);
  }

  lemma {:induction false} DeliveredConsumes(s: Settings, f: Frame, data: string, at: nat, q: Parser, k: Element)
    requires ArmIs(s, f, data, at, Consume(q, None)) && f.marks.Keys == {k}
    ensures var next := View(Deliver(f.(p := q), k, data, at), data, at);
            ArmOf(s, View(f, data, at), data[at]) == Consumed(next) && Inv(next)
    ensures Deliver(f.(p := q), k, data, at).marks == map[]
  {
    ArmOfInv(s, View(f, data, at), data[at]);
    DeliverLog(f.(p := q), k, data, at);
  }

  /** A byte that ends an element. */
  lemma {:induction false} DeliveredByte(s: Settings, f: Frame, data: string, at: nat, q: Parser, k: Element)
    requires ArmIs(s, f, data, at, Consume(q, None)) && f.marks.Keys == {k} && OpenElement(q.state).None?
    ensures Refines(s, f, data, at, Deliver(f.(p := q), k, data, at), at, Break)
    ensures Refines(s, f, data, at, Deliver(f.(p := q), k, data, at), at, PausedAt(at + 1))
    ensures var f' := Deliver(f.(p := q), k, data, at);
            f'.marks == map[] && ArmOf(s, View(f, data, at), data[at]) == Consumed(View(f', data, at + 1))
  {
    DeliveredConsumes(s, f, data, at, q, k);
    RefinesConsumed(s, f, data, at, Deliver(f.(p := q), k, data, at));
    PausesConsumed(s, f, data, at, Deliver(f.(p := q), k, data, at));
  }

  lemma {:induction false} DeliveredRepeats(s: Settings, f: Frame, data: string, at: nat, q: Parser, k: Element)
    requires ArmIs(s, f, data, at, Again(q, None)) && f.marks.Keys == {k}
    ensures var next := View(Deliver(f.(p := q), k, data, at), data, at);
            ArmOf(s, View(f, data, at), data[at]) == Repeats(next) && Inside(next)
    ensures Deliver(f.(p := q), k, data, at).marks == map[]
  {
    ArmOfInv(s, View(f, data, at), data[at]);
    DeliverLog(f.(p := q), k, data, at);
  }

  /** A byte that ends an element and is looked at again. */
  lemma {:induction false} DeliveredAgain(s: Settings, f: Frame, data: string, at: nat, q: Parser, k: Element)
    requires ArmIs(s, f, data, at, Again(q, None)) && f.marks.Keys == {k} && OpenElement(q.state).None?
    requires ParsingHeader(f.p.state) && !q.state.HeadersDone?
    ensures Refines(s, f, data, at, Deliver(f.(p := q), k, data, at), at, Reexecute)
    ensures Refines(s, f, data, at, Deliver(f.(p := q), k, data, at), at, PausedAt(at))
    ensures var f' := Deliver(f.(p := q), k, data, at);
            f'.marks == map[] && ArmOf(s, View(f, data, at), data[at]) == Repeats(View(f', data, at))
  {
    var f' := Deliver(f.(p := q), k, data, at);
    DeliveredRepeats(s, f, data, at, q, k);
    AgainIsNoChunkStart(s, f.p, data[at], s.onHeadersComplete(View(f, data, at).log), q, None);
    RefinesRepeats(s, f, data, at, f');
    PausesRepeats(s, f, data, at, f');
  }

  lemma HeaderAgain(s: Settings, p: Parser, ch: char)
    ensures var r := HeaderArm(s, p, ch); r.Again? ==> !r.p.state.ChunkSizeStart?
  {
  }

  lemma LineAgain(p: Parser, ch: char)
    ensures StartArm(p, ch).Again? ==> !StartArm(p, ch).p.state.ChunkSizeStart?
    ensures StatusLineArm(p, ch).Again? ==> !StatusLineArm(p, ch).p.state.ChunkSizeStart?
    ensures !RequestLineArm(p, ch).Again?
  {
  }

  lemma EndAgain(s: Settings, p: Parser, ch: char, answer: int)
    ensures var r := HeadersEndArm(s, p, ch, answer); r.Again? ==> !r.p.state.ChunkSizeStart?
    ensures BodyArm(p, ch).Again? ==> !BodyArm(p, ch).p.state.ChunkSizeStart?
  {
  }

  lemma AgainIsNoChunkStart(s: Settings, p: Parser, ch: char, answer: int, q: Parser, e: Option<Event>)
    requires Arm(s, p, ch, answer) == Again(q, e)
    ensures !q.state.ChunkSizeStart?
  {
    HeaderAgain(s, p, ch);
    LineAgain(p, ch);
    EndAgain(s, p, ch, answer);
  }

  method SwitchStatus(env: Env, data: string, at: nat, f: Frame) returns (f': Frame, sig: Signal)
    requires InSwitch(env.s, f, data, at) && (f.p.state.ResStatusStart? || f.p.state.ResStatus?)
    ensures Refines(env.s, f, data, at, f', at, sig) && Orderly(f, data, at, f', at, sig)
    ensures Heeds(env, f.trace, f'.trace, sig)
  {
    var s, ch := env.s, data[at];
    ArmExists(s, f, data, at);
    if f.p.state.ResStatusStart? {
      var q := f.p.(state := ResStatus, index := 0);
      f' := f.(p := q, marks := Mark(f.marks, Status, at));
      if ch == CR || ch == LF {
        sig := Reexecute;
        MarkedAgain(s, f, data, at, q, Status);
        OrderlyRepeats(s, f, data, at, f');
      } else {
        sig := Break;
        MarkedTaken(s, f, data, at, q, Status);
      }
    } else if ch == CR || ch == LF {
      f', sig := SwitchStatusEnd(env, data, at, f);
    } else {
      f', sig := f, Break;
      MarkedTaken(s, f, data, at, f.p, Status);
    }
  }

  method SwitchStatusEnd(env: Env, data: string, at: nat, f: Frame) returns (f': Frame, sig: Signal)
    requires InSwitch(env.s, f, data, at) && f.p.state.ResStatus? && (data[at] == CR || data[at] == LF)
    ensures Refines(env.s, f, data, at, f', at, sig) && Orderly(f, data, at, f', at, sig)
    ensures Heeds(env, f.trace, f'.trace, sig)
  {
    ArmExists(env.s, f, data, at);
    var q := f.p.(state := if data[at] == CR then ResLineAlmostDone else HeaderFieldStart);
    f' := Deliver(f.(p := q), Status, data, at);
    sig := if env.pauses(f'.trace) then PausedAt(at + 1) else Break;
    DeliveredByte(env.s, f, data, at, q, Status);
    OrderlyConsumed(env.s, f, data, at, f');
    HeedsOne(env, f.trace, f'.trace, sig);
  }

  method SwitchUrl(env: Env, data: string, at: nat, f: Frame) returns (f': Frame, sig: Signal)
    requires InSwitch(env.s, f, data, at) && (f.p.state.ReqSpacesBeforeUrl? || UrlState(f.p.state))
    ensures Refines(env.s, f, data, at, f', at, sig) && Orderly(f, data, at, f', at, sig)
    ensures Heeds(env, f.trace, f'.trace, sig)
  {
    var s, ch, st := env.s, data[at], f.p.state;
    if st.ReqSpacesBeforeUrl? && ch == ' ' {
      f', sig := f, Break;
      ArmExists(s, f, data, at);
      PlainConsumed(s, f, data, at, f.p, None);
      OrderlyConsumed(s, f, data, at, f');
    } else if !st.ReqSpacesBeforeUrl? && !EarlyUrlState(st) && (ch == ' ' || ch == CR || ch == LF) {
      f', sig := SwitchUrlEnd(env, data, at, f);
    } else {
      f', sig := SwitchUrlByte(s, data, at, f, if st.ReqSpacesBeforeUrl? &&
          f.p.line.verb == CONNECT then ReqServerStart else st);
    }
  }

  method SwitchUrlEnd(env: Env, data: string, at: nat, f: Frame) returns (f': Frame, sig: Signal)
    requires InSwitch(env.s, f, data, at) && UrlState(f.p.state) && !EarlyUrlState(f.p.state)
    requires data[at] == ' ' || data[at] == CR || data[at] == LF
    ensures Refines(env.s, f, data, at, f', at, sig) && Orderly(f, data, at, f', at, sig)
    ensures Heeds(env, f.trace, f'.trace, sig)
  {
    var s, ch := env.s, data[at];
    var q := if ch == ' ' then f.p.(state := ReqHttpStart)
             else f.p.(line := f.p.line.(major := 0, minor := 9),
                       state := if ch == CR then ReqLineAlmostDone else HeaderFieldStart);
    f' := Deliver(f.(p := q), Url, data, at);
    sig := if env.pauses(f'.trace) then PausedAt(at + 1) else Break;
    ArmExists(s, f, data, at);
    UrlEndArm(s, f.p, ch, s.onHeadersComplete(View(f, data, at).log));
    DeliveredByte(s, f, data, at, q, Url);
    OrderlyConsumed(s, f, data, at, f');
  }

  lemma {:induction false} UrlEndArm(s: Settings, p: Parser, ch: char, answer: int)
    requires UrlState(p.state) && !EarlyUrlState(p.state) && (ch == ' ' || ch == CR || ch == LF)
    ensures Arm(s, p, ch, answer) ==
              Consume(if ch == ' ' then p.(state := ReqHttpStart)
                      else p.(line := p.line.(major := 0, minor := 9),
                              state := if ch == CR then ReqLineAlmostDone else HeaderFieldStart), None)
  {
  }

  /** The byte goes to the URL walker, which stands in `from`. */
  predicate GoesToWalker(p: Parser, ch: char, from: State) {
    if p.state.ReqSpacesBeforeUrl? then
      ch != ' ' && from == (if p.line.verb == CONNECT then ReqServerStart else p.state)
    else
      UrlState(p.state) && from == p.state && (EarlyUrlState(p.state) || !(ch == ' ' || ch == CR || ch == LF))
  }

  lemma {:induction false} UrlArmIs(s: Settings, f: Frame, data: string, at: nat, from: State)
    requires InSwitch(s, f, data, at) && GoesToWalker(f.p, data[at], from)
    ensures ArmIs(s, f, data, at, UrlByte(f.p, from, data[at]))
    ensures ParseUrlChar(from, data[at]) != Dead ==> UrlState(ParseUrlChar(from, data[at]))
  {
    ArmExists(s, f, data, at);
    WalkerArm(s, f.p, data[at], from, s.onHeadersComplete(View(f, data, at).log));
    UrlWalkStays(from, data[at]);
  }

  method SwitchUrlByte(s: Settings, data: string, at: nat, f: Frame, from: State) returns (f': Frame, sig: Signal)
    requires InSwitch(s, f, data, at) && GoesToWalker(f.p, data[at], from)
    ensures Refines(s, f, data, at, f', at, sig) && Orderly(f, data, at, f', at, sig)
    ensures !sig.PausedAt? && f'.trace == f.trace
  {
    UrlArmIs(s, f, data, at, from);
    var q := f.p.(state := ParseUrlChar(from, data[at]));
    if q.state == Dead {
      f', sig := f.(p := q), GotoError(InvalidUrl);
      ArmError(s, f, data, at, InvalidUrl, f');
    } else {
      f', sig := f.(p := q, marks := Mark(f.marks, Url, at)), Break;
      MarkedTaken(s, f, data, at, q, Url);
    }
  }

  lemma UrlSection(s: Settings, p: Parser, ch: char, answer: int)
    requires p.state.ReqSpacesBeforeUrl? || UrlState(p.state)
    ensures Arm(s, p, ch, answer) == RequestLineArm(p, ch)
  {
  }

  lemma WalkerByte(p: Parser, ch: char, from: State)
    requires GoesToWalker(p, ch, from)
    ensures RequestLineArm(p, ch) == UrlByte(p, from, ch)
  {
  }

  lemma WalkerArm(s: Settings, p: Parser, ch: char, from: State, answer: int)
    requires GoesToWalker(p, ch, from)
    ensures Arm(s, p, ch, answer) == UrlByte(p, from, ch)
  {
    var r := RequestLineArm(p, ch);
    assert Arm(s, p, ch, answer) == r by { UrlSection(s, p, ch, answer); }
    assert r == UrlByte(p, from, ch) by { WalkerByte(p, ch, from); }
  }
}
