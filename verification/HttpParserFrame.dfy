/** The local variables of one http_parser_execute call, and how they stand for a configuration of the
    per-byte form: the data between a mark and the current byte is delivered there, but not yet here. */
module HttpParserFrame {
  import opened HttpParserTypes
  import opened HttpParserArms
  import opened HttpParserRun
  import opened HttpParserInvariant
  import opened HttpParserGrammar
  import opened HttpParserReach

  /** The embedder: its settings, and after which callbacks it pauses the parser. */
  datatype Env = Env(s: Settings, pauses: seq<Event> -> bool)

  /** `nread` is the local copy of the counter, `saved` the field `parser->nread`; `marks` holds those of
      the five mark pointers that are not NULL; `trace` lists the callbacks as delivered. */
  datatype Frame = Frame(p: Parser, nread: nat, saved: nat, marks: map<Element, nat>, trace: seq<Event>)

  /** How the switch is left. */
  datatype Signal =
    | Break                  // the byte is used up
    | Reexecute              // goto reexecute
    | Leave                  // the upgrade RETURN, with the byte used up
    | PausedAt(used: nat)    // a callback paused the parser
    | GotoError(errno: ErrorCode)

  predicate AtMostOne(marks: map<Element, nat>) {
    forall j, k :: j in marks && k in marks ==> j == k
  }

  predicate MarksBefore(marks: map<Element, nat>, data: string, at: nat) {
    at <= |data| && forall k :: k in marks ==> marks[k] <= at
  }

  /** The log once the marked data up to `at` is delivered. */
  function Pending(log: seq<Event>, marks: map<Element, nat>, data: string, at: nat): seq<Event>
    requires MarksBefore(marks, data, at)
  {
    if Field in marks then Emit(log, Data(Field, data[marks[Field]..at]))
    else if Value in marks then Emit(log, Data(Value, data[marks[Value]..at]))
    else if Url in marks then Emit(log, Data(Url, data[marks[Url]..at]))
    else if Body in marks then Emit(log, Data(Body, data[marks[Body]..at]))
    else if Status in marks then Emit(log, Data(Status, data[marks[Status]..at]))
    else log
  }

  lemma PendingSingle(log: seq<Event>, marks: map<Element, nat>, data: string, at: nat, k: Element)
    requires MarksBefore(marks, data, at) && marks.Keys == {k}
    ensures Pending(log, marks, data, at) == Emit(log, Data(k, data[marks[k]..at]))
  {
  }

  lemma PendingMore(log: seq<Event>, marks: map<Element, nat>, data: string, at: nat, to: nat, k: Element)
    requires MarksBefore(marks, data, at) && marks.Keys == {k} && at <= to <= |data|
    ensures Pending(log, marks, data, to) == Emit(Pending(log, marks, data, at), Data(k, data[at..to]))
  {
    var m := marks[k];
    EmitPieces(log, k, data[m..at], data[at..to]);
    assert data[m..to] == data[m..at] + data[at..to];
    PendingSingle(log, marks, data, at, k);
    PendingSingle(log, marks, data, to, k);
  }

  /** Which mark may be set in which state; `end` says that the buffer is used up. */
  predicate MarksFit(s: State, marks: map<Element, nat>, end: bool) {
    match OpenElement(s)
    case Some(k) => marks.Keys == {k}
    case None =>
      marks == map[] ||
      (marks.Keys == {Body} &&
          (s.ChunkDataAlmostDone? || (end && (s.ChunkData? || s.BodyIdentity? || s.BodyIdentityEof?))))
  }

  predicate Shaped(f: Frame, data: string, at: nat) {
    MarksBefore(f.marks, data, at) && MarksFit(f.p.state, f.marks, at == |data|)
  }

  /** The configuration a frame stands for. */
  ghost function View(f: Frame, data: string, at: nat): Conf
    requires MarksBefore(f.marks, data, at)
  {
    Conf(f.p, f.nread, Pending(Join(f.trace), f.marks, data, at))
  }

  /** The configuration that a call which returns now leaves in the parser. */
  ghost function Stored(f: Frame): Conf {
    Conf(f.p, f.saved, Join(f.trace))
  }

  /** Holds at the head of the `for` loop. */
  ghost predicate AtHead(s: Settings, f: Frame, data: string, at: nat) {
    Shaped(f, data, at) && Inv(View(f, data, at)) && f.saved <= f.nread <= s.limit
  }

  /** Holds inside the switch, where the current byte has been counted. */
  ghost predicate InSwitch(s: Settings, f: Frame, data: string, at: nat) {
    at < |data| && Shaped(f, data, at) && Inside(View(f, data, at)) && f.saved <= f.nread <= s.limit &&
    (ParsingHeader(f.p.state) ==> f.saved < f.nread)
  }

  /** The configuration before the byte at which `f` stands was counted. */
  ghost function Before(f: Frame, data: string, at: nat): Conf
    requires MarksBefore(f.marks, data, at)
  {
    Back(View(f, data, at))
  }

  /** When a call fails at `to`, the callbacks made are those of the per-byte form, but for the piece that is still
      marked and is never delivered. */
  ghost predicate Withholds(f: Frame, data: string, to: nat, log: seq<Event>) {
    MarksBefore(f.marks, data, to) && log == Pending(Join(f.trace), f.marks, data, to)
  }

  /** The stored counter is not written back, but for the resets. */
  predicate LeavesStored(before: nat, after: nat) {
    after == before || after == 0
  }

  /** The switch, entered with `f` at `at` and left with `f'` at `to`, does what the per-byte form does. */
  ghost predicate Refines(s: Settings, f: Frame, data: string, at: nat, f': Frame, to: nat, sig: Signal)
    requires InSwitch(s, f, data, at)
  {
    var b := Before(f, data, at);
    match sig
    case Break =>
      at <= to < |data| && AtHead(s, f', data, to + 1) && LeavesStored(f.saved, f'.saved) &&
      Onward(s, b, data, at, to + 1, View(f', data, to + 1))
    case Reexecute =>
      at <= to < |data| && InSwitch(s, f', data, to) && !f'.p.state.ChunkSizeStart? &&
      (at < to || Rank(f'.p.state) < Rank(f.p.state)) && LeavesStored(f.saved, f'.saved) &&
      Onward(s, b, data, at, to, Before(f', data, to))
    case Leave =>
      at <= to < |data| && f'.nread <= s.limit && f'.marks == map[] && Inv(View(f', data, to)) &&
      RunOf(s, b, data[at..]) == RanUpgraded(View(f', data, to), to + 1 - at)
    case PausedAt(used) =>
      at <= used <= |data| && Inv(Stored(f')) && f'.saved <= s.limit &&
      (if f'.p.state.HeadersDone? then Passes(s, b, data, at, used, Stored(f')) else LeavesStored(f.saved, f'.saved)) &&
      (used == at ==> Rank(f'.p.state) < Rank(f.p.state)) && PausesIn(s, b, data, at, used, Stored(f'))
    case GotoError(e) =>
      var r := RunOf(s, b, data[at..]);
      at <= to < |data| && r.RanFailed? &&
      (FailsBeyond(s, b, data, at, e) || (e == r.errno && r.used == to - at && Withholds(f', data, to, r.log)))
  }

  // ---------- from one arm to the run ----------

  /** The first byte of a run from before it was counted. */
  lemma BackRun(s: Settings, c: Conf, data: string, at: nat)
    requires at < |data| && Mid(s, c)
    ensures RunOf(s, Back(c), data[at..]) == Then(s, Chain(s, c, data[at]), data[at + 1..])
  {
    BackCounts(s, c);
    assert data[at..][1..] == data[at + 1..];
  }

  lemma {:induction false} ArmConsumes(s: Settings, c: Conf, data: string, at: nat, next: Conf)
    requires at < |data| && Mid(s, c) && ArmOf(s, c, data[at]) == Consumed(next)
    ensures Onward(s, Back(c), data, at, at + 1, next)
  {
    BackCounts(s, c);
    RunFirstByte(s, Back(c), data[at], "", next, next);
    assert data[at..at + 1] == [data[at]] + "";
  }

  lemma {:induction false} ArmRepeats(s: Settings, c: Conf, data: string, at: nat, next: Conf)
    requires at < |data| && Mid(s, c) && ArmOf(s, c, data[at]) == Repeats(next)
    ensures Passes(s, Back(c), data, at, at, next) && Onward(s, Back(c), data, at, at, Back(next)) && Mid(s, next)
    ensures Rank(next.p.state) < Rank(c.p.state)
  {
    BackCounts(s, c);
    AgainLowersRank(s, c.p, data[at], s.onHeadersComplete(c.log));
    assert data[at..at] == "";
    assert ComesTo(s, next, data[at], next);
    PassesMid(s, Back(c), data, at, at, next);
  }

  lemma ArmStops(s: Settings, c: Conf, data: string, at: nat)
    requires at < |data| && Mid(s, c)
    ensures var r := ArmOf(s, c, data[at]);
            (r.Failed? ==> RunOf(s, Back(c), data[at..]) == RanFailed(r.errno, 0, r.log)) &&
            (r.Leaves? ==> RunOf(s, Back(c), data[at..]) == RanUpgraded(r.c, 1))
  {
    BackRun(s, c, data, at);
  }

  lemma InSwitchMid(s: Settings, f: Frame, data: string, at: nat)
    requires InSwitch(s, f, data, at)
    ensures Mid(s, View(f, data, at)) && Inv(Before(f, data, at))
  {
  }

  // ---------- from one arm to the switch ----------

  lemma {:induction false} RefinesConsumed(s: Settings, f: Frame, data: string, at: nat, f': Frame)
    requires InSwitch(s, f, data, at) && AtHead(s, f', data, at + 1) && LeavesStored(f.saved, f'.saved)
    requires ArmOf(s, View(f, data, at), data[at]) == Consumed(View(f', data, at + 1))
    ensures Refines(s, f, data, at, f', at, Break)
  {
    InSwitchMid(s, f, data, at);
    ArmConsumes(s, View(f, data, at), data, at, View(f', data, at + 1));
  }

  lemma {:induction false} RefinesRepeats(s: Settings, f: Frame, data: string, at: nat, f': Frame)
    requires InSwitch(s, f, data, at) && InSwitch(s, f', data, at) && !f'.p.state.ChunkSizeStart?
    requires LeavesStored(f.saved, f'.saved)
    requires ArmOf(s, View(f, data, at), data[at]) == Repeats(View(f', data, at))
    ensures Refines(s, f, data, at, f', at, Reexecute)
  {
    InSwitchMid(s, f, data, at);
    ArmRepeats(s, View(f, data, at), data, at, View(f', data, at));
  }

  /** A parser that has counted fewer bytes than the run. */
  lemma LaggingStands(s: Settings, b: Conf, data: string, from: nat, n: nat, c: Conf, nread: nat)
    requires Onward(s, b, data, from, n, c) && nread <= c.nread && !c.p.state.HeadersDone?
    ensures PausesIn(s, b, data, from, n, c.(nread := nread))
  {
    var now := c.(nread := nread);
    assert now.(nread := c.nread) == c;
    assert StandsIn(s, b, data, from, n, now, c.nread);
  }

  lemma {:induction false} PausesConsumed(s: Settings, f: Frame, data: string, at: nat, f': Frame)
    requires InSwitch(s, f, data, at) && f'.marks == map[] && f'.saved <= f'.nread && f'.saved <= s.limit
    requires ArmOf(s, View(f, data, at), data[at]) == Consumed(View(f', data, at + 1)) && Inv(View(f', data, at + 1))
    requires LeavesStored(f.saved, f'.saved)
    ensures Refines(s, f, data, at, f', at, PausedAt(at + 1))
  {
    InSwitchMid(s, f, data, at);
    NotInHeadersDone(s, View(f, data, at), data[at]);
    ArmConsumes(s, View(f, data, at), data, at, View(f', data, at + 1));
    LaggingStands(s, Before(f, data, at), data, at, at + 1, View(f', data, at + 1), f'.saved);
  }

  lemma {:induction false} PausesRepeats(s: Settings, f: Frame, data: string, at: nat, f': Frame)
    requires InSwitch(s, f, data, at) && f'.marks == map[] && f'.saved <= f'.nread && f'.saved <= s.limit
    requires ArmOf(s, View(f, data, at), data[at]) == Repeats(View(f', data, at)) && Inside(View(f', data, at))
    requires !f'.p.state.ChunkSizeStart? && !f'.p.state.HeadersDone? && LeavesStored(f.saved, f'.saved)
    requires ParsingHeader(f'.p.state) ==> f'.saved < f'.nread <= s.limit
    ensures Refines(s, f, data, at, f', at, PausedAt(at))
  {
    InSwitchMid(s, f, data, at);
    ArmRepeats(s, View(f, data, at), data, at, View(f', data, at));
    LaggingStands(s, Before(f, data, at), data, at, at, Back(View(f', data, at)), f'.saved);
  }

  lemma {:induction false} PausesHeadersComplete(s: Settings, f: Frame, data: string, at: nat, f': Frame)
    requires InSwitch(s, f, data, at) && f'.marks == map[] && f'.saved == f'.nread <= s.limit && f'.p.state.HeadersDone?
    requires ArmOf(s, View(f, data, at), data[at]) == Repeats(View(f', data, at)) && Inside(View(f', data, at))
    ensures Refines(s, f, data, at, f', at, PausedAt(at))
  {
    var b, d := Before(f, data, at), View(f', data, at);
    InSwitchMid(s, f, data, at);
    ArmRepeats(s, View(f, data, at), data, at, d);
    assert d == Stored(f') && d.(nread := d.nread) == d;
    assert StandsIn(s, b, data, at, at, d, d.nread);
  }

  /** A stretch that the per-byte form runs over. */
  lemma {:induction false} RefinesStretch(s: Settings, f: Frame, data: string, at: nat, to: nat, f': Frame)
    requires InSwitch(s, f, data, at) && at <= to < |data| && AtHead(s, f', data, to + 1) && f'.saved == f.saved
    requires RunOf(s, Before(f, data, at), data[at..to + 1]) == Ran(View(f', data, to + 1))
    ensures Refines(s, f, data, at, f', to, Break)
  {
  }

  // ---------- the order of callbacks ----------

  /** The callbacks stay in order: a frame whose configuration obeys the grammar is left with one that does, and
      what has been delivered when the call fails is the beginning of something that does. */
  ghost predicate Orderly(f: Frame, data: string, at: nat, f': Frame, to: nat, sig: Signal) {
    MarksBefore(f.marks, data, at) && f.trace <= f'.trace &&
    (Lawful(View(f, data, at)) ==>
       match sig
       case Break => MarksBefore(f'.marks, data, to + 1) && Lawful(View(f', data, to + 1))
       case Reexecute => MarksBefore(f'.marks, data, to) && Lawful(View(f', data, to))
       case Leave => MarksBefore(f'.marks, data, to) && Lawful(View(f', data, to))
       case PausedAt(_) => Lawful(Stored(f'))
       case GotoError(_) => PhaseOf(f'.trace) != Bad)
  }

  lemma BadForGood(log: seq<Event>, e: Element, piece: string)
    requires PhaseOf(Emit(log, Data(e, piece))) != Bad
    ensures PhaseOf(log) != Bad
  {
    var g, ev := PhaseOf(log), Data(e, piece);
    assert Next(g, ev) != Bad by {
      PhaseEmit(log, ev);
    }
  }

  lemma PendingPhase(log: seq<Event>, marks: map<Element, nat>, data: string, at: nat)
    requires MarksBefore(marks, data, at) && PhaseOf(Pending(log, marks, data, at)) != Bad
    ensures PhaseOf(log) != Bad
  {
    if Field in marks {
      BadForGood(log, Field, data[marks[Field]..at]);
    } else if Value in marks {
      BadForGood(log, Value, data[marks[Value]..at]);
    } else if Url in marks {
      BadForGood(log, Url, data[marks[Url]..at]);
    } else if Body in marks {
      BadForGood(log, Body, data[marks[Body]..at]);
    } else if Status in marks {
      BadForGood(log, Status, data[marks[Status]..at]);
    }
  }

  /** What has been delivered before a marked piece is in order if all is. */
  lemma TraceInOrder(f: Frame, data: string, at: nat)
    requires MarksBefore(f.marks, data, at) && Lawful(View(f, data, at))
    ensures PhaseOf(f.trace) != Bad
  {
    FitsIsGood(f.p, PhaseOf(View(f, data, at).log));
    PendingPhase(Join(f.trace), f.marks, data, at);
    PhaseJoin(f.trace);
  }

  lemma {:induction false} OrderlyConsumed(s: Settings, f: Frame, data: string, at: nat, f': Frame)
    requires InSwitch(s, f, data, at) && MarksBefore(f'.marks, data, at + 1) && f.trace <= f'.trace
    requires ArmOf(s, View(f, data, at), data[at]) == Consumed(View(f', data, at + 1))
    ensures Orderly(f, data, at, f', at, Break)
    ensures f'.marks == map[] ==> Orderly(f, data, at, f', at, PausedAt(at + 1))
  {
    if Lawful(View(f, data, at)) {
      ArmOfLawful(s, View(f, data, at), data[at]);
    }
  }

  lemma {:induction false} OrderlyRepeats(s: Settings, f: Frame, data: string, at: nat, f': Frame)
    requires InSwitch(s, f, data, at) && MarksBefore(f'.marks, data, at) && f.trace <= f'.trace
    requires ArmOf(s, View(f, data, at), data[at]) == Repeats(View(f', data, at))
    ensures Orderly(f, data, at, f', at, Reexecute)
    ensures f'.marks == map[] ==> Orderly(f, data, at, f', at, PausedAt(at))
  {
    if Lawful(View(f, data, at)) {
      ArmOfLawful(s, View(f, data, at), data[at]);
    }
  }

  lemma {:induction false} OrderlyLeaves(s: Settings, f: Frame, data: string, at: nat, f': Frame)
    requires InSwitch(s, f, data, at) && f'.marks == map[] && f.trace <= f'.trace
    requires ArmOf(s, View(f, data, at), data[at]) == Leaves(View(f', data, at))
    ensures Orderly(f, data, at, f', at, Leave)
    ensures Orderly(f, data, at, f', at, PausedAt(at + 1))
  {
    if Lawful(View(f, data, at)) {
      ArmOfLawful(s, View(f, data, at), data[at]);
    }
  }

  lemma OrderlyBreak(f: Frame, data: string, at: nat, f': Frame, to: nat)
    requires MarksBefore(f.marks, data, at) && MarksBefore(f'.marks, data, to + 1) && f.trace <= f'.trace
    requires Lawful(View(f, data, at)) ==> Lawful(View(f', data, to + 1))
    ensures Orderly(f, data, at, f', to, Break)
  {
  }

  /** A call that fails without a callback. */
  lemma {:induction false} OrderlyFailure(f: Frame, data: string, at: nat, f': Frame, to: nat, e: ErrorCode)
    requires MarksBefore(f.marks, data, at) && f'.trace == f.trace
    ensures Orderly(f, data, at, f', to, GotoError(e))
  {
    if Lawful(View(f, data, at)) {
      TraceInOrder(f, data, at);
    }
  }

  /** A call that fails because on_headers_complete answers with an error. */
  lemma {:induction false} OrderlyRefusal(s: Settings, f: Frame, data: string, at: nat, f': Frame)
    requires InSwitch(s, f, data, at) && f.marks == map[] && f'.trace == f.trace + [HeadersComplete]
    requires ArmOf(s, View(f, data, at), data[at]) == Failed(CbHeadersComplete, Join(f'.trace))
    ensures Orderly(f, data, at, f', at, GotoError(CbHeadersComplete))
  {
    if Lawful(View(f, data, at)) {
      ArmOfLawful(s, View(f, data, at), data[at]);
      PhaseJoin(f'.trace);
    }
  }

  /** What is in order from where an inner loop stands is so from where it started. */
  lemma OrderlyLater(f: Frame, data: string, at: nat, g: Frame, to: nat, f': Frame, end: nat, sig: Signal)
    requires MarksBefore(f.marks, data, at) && f.trace <= g.trace && Orderly(g, data, to, f', end, sig)
    requires Lawful(View(f, data, at)) ==> Lawful(View(g, data, to))
    ensures Orderly(f, data, at, f', end, sig)
  {
  }

  /** A configuration that the per-byte form reaches from a lawful one is lawful. */
  lemma {:induction false} ReachedInOrder(s: Settings, c: Conf, data: string, d: Conf)
    requires Inv(c) && RunOf(s, c, data) == Ran(d)
    ensures Lawful(c) ==> Lawful(d)
  {
    if Lawful(c) {
      RunLawful(s, c, data);
    }
  }

  // ---------- pauses that were asked for ----------

  /** The embedder is obeyed: no callback before the last one since `before` has asked for a pause, and the last one
      has if and only if the parser is paused there, unless the answer of on_headers_complete is an error. */
  ghost predicate Heeds(env: Env, before: seq<Event>, after: seq<Event>, sig: Signal) {
    before <= after && (forall t :: before < t < after ==> !env.pauses(t)) &&
    if sig.PausedAt? then before < after && env.pauses(after)
    else before < after && sig != GotoError(CbHeadersComplete) ==> !env.pauses(after)
  }

  lemma Prefixes(t: seq<Event>, b: seq<Event>, c: seq<Event>)
    requires t < c && b <= c
    ensures t < b || t == b || b < t
  {
    assert t == c[..|t|] && b == c[..|b|];
  }

  lemma HeedsLater(env: Env, a: seq<Event>, b: seq<Event>, c: seq<Event>, sig: Signal, later: Signal)
    requires Heeds(env, a, b, sig) && (sig == Break || sig == Reexecute) && Heeds(env, b, c, later)
    ensures Heeds(env, a, c, later)
  {
    assert a <= c;
    forall t | a < t < c ensures !env.pauses(t) {
      Prefixes(t, b, c);
    }
    if b < c {
      assert a < c;
    } else {
      assert b == c;
    }
  }

  lemma NothingBetween(before: seq<Event>, t: seq<Event>, after: seq<Event>)
    requires |after| <= |before| + 1
    ensures !(before < t < after)
  {
  }

  /** One callback, or none. */
  lemma HeedsOne(env: Env, before: seq<Event>, after: seq<Event>, sig: Signal)
    requires after == before || (before < after && |after| == |before| + 1)
    requires sig.PausedAt? ==> after != before && env.pauses(after)
    requires after != before && !sig.PausedAt? && sig != GotoError(CbHeadersComplete) ==> !env.pauses(after)
    ensures Heeds(env, before, after, sig)
  {
    forall t ensures before < t < after ==> !env.pauses(t) {
      NothingBetween(before, t, after);
    }
  }
}
