/** http_parser_execute as an object whose calls update it, and a caller that feeds it buffers. */
module HttpParserExecute {
  import opened HttpParserTypes
  import opened HttpParserArms
  import opened HttpParserRun
  import opened HttpParserInvariant
  import opened HttpParserGrammar
  import opened HttpParserReach
  import opened HttpParserFrame
  import opened HttpParserSwitch
  import opened HttpParserHeaderSwitch
  import opened HttpParserBodySwitch

  // ---------- the reexecute loop ----------

  /** One execution of the switch. */
  method Switch(env: Env, data: string, at: nat, f: Frame) returns (f': Frame, to: nat, sig: Signal)
    requires InSwitch(env.s, f, data, at) && Sizes(env.s, data)
    ensures Refines(env.s, f, data, at, f', to, sig) && Orderly(f, data, at, f', to, sig)
    ensures Heeds(env, f.trace, f'.trace, sig)
  {
    var st := f.p.state;
    to := at;
    if st.ResStatusStart? || st.ResStatus? {
      f', sig := SwitchStatus(env, data, at, f);
    } else if st.ReqSpacesBeforeUrl? || UrlState(st) {
      f', sig := SwitchUrl(env, data, at, f);
    } else if st.HeaderFieldStart? {
      f', sig := SwitchFieldStart(env.s, data, at, f);
      HeedsOne(env, f.trace, f'.trace, sig);
    } else if st.HeaderField? {
      f', to, sig := SwitchField(env, data, at, f);
    } else if st.HeaderValueDiscardWs? || st.HeaderValueStart? {
      f', sig := SwitchLead(env, data, at, f);
    } else if st.HeaderValueDiscardLws? {
      f', sig := SwitchDiscardLws(env, data, at, f);
    } else if st.HeaderValue? {
      f', to, sig := SwitchValue(env, data, at, f);
    } else if st.ChunkData? || st.BodyIdentityEof? {
      f', to, sig := SwitchTake(env.s, data, at, f);
      HeedsOne(env, f.trace, f'.trace, sig);
    } else if st.BodyIdentity? {
      f', to, sig := SwitchIdentity(env, data, at, f);
    } else if st.ChunkDataAlmostDone? {
      f', sig := SwitchDataAlmostDone(env, data, at, f);
    } else {
      f', sig := SwitchPlain(env, data, at, f);
    }
  }

  /** The switch with its `goto reexecute`. */
  method Reexecutes(env: Env, data: string, at: nat, f: Frame) returns (f': Frame, to: nat, sig: Signal)
    requires InSwitch(env.s, f, data, at) && Sizes(env.s, data)
    ensures Refines(env.s, f, data, at, f', to, sig) && Orderly(f, data, at, f', to, sig) && sig != Reexecute
    ensures Heeds(env, f.trace, f'.trace, sig)
  {
    f', to, sig := Switch(env, data, at, f);
    while sig == Reexecute
      invariant Refines(env.s, f, data, at, f', to, sig) && Orderly(f, data, at, f', to, sig)
      invariant Heeds(env, f.trace, f'.trace, sig)
      decreases if sig == Reexecute then 1 else 0, |data| - to, Rank(f'.p.state)
    {
      ghost var g, from := f', to;
      f', to, sig := Switch(env, data, to, f');
      RefinesLater(env.s, f, data, at, g, from, f', to, sig);
      OrderlyLater(f, data, at, g, from, f', to, sig);
      HeedsLater(env, f.trace, g.trace, f'.trace, Reexecute, sig);
    }
  }

  // ---------- one call ----------

  /** The marks set on entry: those of an element that was open when the last buffer ended. */
  function EntryMarks(s: State): map<Element, nat> {
    match OpenElement(s) case None => map[] case Some(k) => map[k := 0]
  }

  lemma EntryAtHead(s: Settings, c: Conf, trace: seq<Event>, data: string)
    requires Inv(c) && c.nread <= s.limit && c.log == Join(trace) && data != ""
    ensures var f := Frame(c.p, c.nread, c.nread, EntryMarks(c.p.state), trace);
            AtHead(s, f, data, 0) && View(f, data, 0) == c
  {
    var f := Frame(c.p, c.nread, c.nread, EntryMarks(c.p.state), trace);
    if OpenElement(c.p.state).Some? {
      var k := OpenElement(c.p.state).value;
      PendingSingle(c.log, f.marks, data, 0, k);
      assert data[0..0] == "";
      EmitNothing(c.log, k);
    }
  }

  /** Counting the byte leads from the head of the loop into the switch. */
  lemma {:induction false} HeadToSwitch(s: Settings, f: Frame, data: string, at: nat)
    requires AtHead(s, f, data, at) && at < |data|
    requires ParsingHeader(f.p.state) ==> f.nread + 1 <= s.limit
    ensures var g := if ParsingHeader(f.p.state) then f.(nread := f.nread + 1) else f;
            InSwitch(s, g, data, at) && Before(g, data, at) == View(f, data, at)
  {
  }

  lemma {:induction false} HeadOverflow(s: Settings, f: Frame, data: string, at: nat)
    requires AtHead(s, f, data, at) && at < |data|
    requires ParsingHeader(f.p.state) && f.nread + 1 > s.limit
    ensures RunOf(s, View(f, data, at), data[at..]) == RanFailed(HeaderOverflow, 0, View(f, data, at).log)
  {
    var c := View(f, data, at);
    assert Step(s, c, data[at..][0]) == Failed(HeaderOverflow, c.log);
  }

  /** Runs the callbacks for the marks left over when the buffer is used up. */
  method Flush(env: Env, data: string, f: Frame) returns (f': Frame, paused: bool)
    requires MarksBefore(f.marks, data, |data|) && AtMostOne(f.marks)
    ensures f' == f.(trace := f'.trace, marks := map[])
    ensures if f.marks == map[] then f'.trace == f.trace else f.trace < f'.trace && |f'.trace| == |f.trace| + 1
    ensures Join(f'.trace) == Pending(Join(f.trace), f.marks, data, |data|)
    ensures paused <==> f.marks != map[] && env.pauses(f'.trace)
  {
    f', paused := f, false;
    var order := [Field, Value, Url, Body, Status];
    for i := 0 to |order|
      invariant f' == f || Flushed(env, data, f, f', false)
      invariant forall j :: 0 <= j < i ==> order[j] !in f'.marks
      invariant !paused
    {
      if order[i] in f'.marks {
        DeliverLog(f, order[i], data, |data|);
        f' := Deliver(f', order[i], data, |data|);
        if env.pauses(f'.trace) {
          paused := true;
          return;
        }
      }
    }
    assert order[0] == Field && order[1] == Value && order[2] == Url && order[3] == Body && order[4] == Status;
    assert f'.marks == map[];
  }

  ghost predicate Flushed(env: Env, data: string, f: Frame, f': Frame, paused: bool)
    requires MarksBefore(f.marks, data, |data|)
  {
    f.marks != map[] && f' == f.(trace := f'.trace, marks := map[]) && f.trace < f'.trace &&
    |f'.trace| == |f.trace| + 1 && Join(f'.trace) == Pending(Join(f.trace), f.marks, data, |data|) &&
    paused == env.pauses(f'.trace)
  }

  /** A piece of data has been left out at the end. */
  ghost predicate ButForAPiece(delivered: seq<Event>, log: seq<Event>) {
    log == delivered || exists k, bytes :: log == Emit(delivered, Data(k, bytes))
  }

  /** What a call on a non-empty buffer has done: it consumed the buffer like the per-byte form, or left it at the
      same upgrade, or failed where the per-byte form fails (unless that is the header limit, with the same error
      and the same callbacks, but for a piece that was still open), or was paused where the run stands. */
  ghost predicate Executed(s: Settings, before: Conf, data: string, after: Conf, errno: Errno, used: nat) {
    var r := RunOf(s, before, data);
    used <= |data| &&
    match errno
    case OK => (used == |data| && r == Ran(after)) || r == RanUpgraded(after, used)
    case Paused =>
      (if after.p.state.HeadersDone? then Passes(s, before, data, 0, used, after)
       else LeavesStored(before.nread, after.nread)) &&
      (used == 0 ==> Rank(after.p.state) < Rank(before.p.state)) && PausesIn(s, before, data, 0, used, after)
    case Err(e) =>
      r.RanFailed? &&
      (FailsBeyond(s, before, data, 0, e) || (e == r.errno && used == r.used && ButForAPiece(after.log, r.log)))
  }

  /** The embedder has been obeyed in a call that has extended the callbacks from `before` to `after`. */
  ghost predicate Obeys(env: Env, before: seq<Event>, after: seq<Event>, errno: Errno) {
    before <= after && (forall t :: before < t < after ==> !env.pauses(t)) &&
    if errno == Paused then before < after && env.pauses(after)
    else before < after && errno != Err(CbHeadersComplete) ==> !env.pauses(after)
  }

  /** What a call with an empty buffer, which stands for the end of the stream, has done. */
  predicate EndSignalled(before: Conf, after: Conf, errno: Errno, used: nat) {
    var st := before.p.state;
    if st.BodyIdentityEof? then
      after == before.(log := Emit(before.log, MessageComplete)) && used == 0 && (errno == OK || errno == Paused)
    else
      after == before &&
      if AcceptsEnd(st) then errno == OK && used == 0
      else errno == Err(InvalidEofState) && used == 1
  }

  lemma {:induction false} EofInOrder(c: Conf, trace: seq<Event>)
    requires c.log == Join(trace) && c.p.state.BodyIdentityEof? && Inv(c)
    ensures Join(trace + [MessageComplete]) == Emit(c.log, MessageComplete)
    ensures Inv(c.(log := Emit(c.log, MessageComplete)))
    ensures Lawful(c) ==> PhaseOf(trace + [MessageComplete]) != Bad
  {
    JoinSnoc(trace, MessageComplete);
    if Lawful(c) {
      EofLawful(c);
      PhaseJoin(trace + [MessageComplete]);
    }
  }

  /** The states between messages. */
  predicate AcceptsEnd(st: State) {
    st.Dead? || st.StartReqOrRes? || st.StartRes? || st.StartReq?
  }

  class HttpParser {
    const env: Env
    var p: Parser
    var nread: nat
    var errno: Errno
    var trace: seq<Event>

    /** The end of the stream has been signalled. */
    ghost var ended: bool

    /** What the object stands for: the parser with all callbacks so far, pieces joined. */
    ghost function View(): Conf
      reads this
    {
      Conf(p, nread, Join(trace))
    }

    /** Up to the end of the stream the callbacks obey the grammar, whatever has become of the parser. */
    ghost predicate Valid()
      reads this
    {
      (errno == OK || errno == Paused ==> Inv(View()) && nread <= env.s.limit) &&
      (!ended ==> PhaseOf(trace) != Bad && (errno == OK || errno == Paused ==> Lawful(View())))
    }

    /** `http_parser_init`. */
    constructor (env: Env, kind: Kind)
      ensures Valid() && errno == OK && View() == Conf(Init(kind), 0, []) && this.env == env && trace == [] && !ended
    {
      this.env := env;
      p, nread, errno, trace, ended := Init(kind), 0, OK, [], false;
      new;
      InitInv(kind);
      InitLawful(kind);
    }

    /** `http_parser_pause`, which must not be called on a parser in error. */
    method Pause(paused: bool)
      requires Valid() && (errno == OK || errno == Paused)
      modifies this`errno
      ensures Valid() && errno == if paused then Paused else OK
    {
      errno := if paused then Errno.Paused else Errno.OK;
    }

    method Execute(data: string) returns (used: nat)
      requires Valid() && Sizes(env.s, data)
      modifies this
      ensures Valid() && old(trace) <= trace
      ensures ended == (old(ended) || (old(errno) == OK && data == ""))
      ensures !old(ended) ==> PhaseOf(trace) != Bad
      ensures old(errno) != OK ==> used == 0 && unchanged(this)
      ensures old(errno) == OK && data != "" ==> Executed(env.s, old(View()), data, View(), errno, used)
      ensures old(errno) == OK && data == "" ==> EndSignalled(old(View()), View(), errno, used)
      ensures old(errno) == OK ==> Obeys(env, old(trace), trace, errno)
    {
      if errno != OK {
        return 0;
      }
      if data == "" {
        used := EndOfStream();
      } else {
        used := ExecuteBuffer(data);
      }
    }

    method ExecuteBuffer(data: string) returns (used: nat)
      requires Valid() && Sizes(env.s, data) && errno == OK && data != ""
      modifies this
      ensures Valid() && old(trace) <= trace && ended == old(ended)
      ensures !old(ended) ==> PhaseOf(trace) != Bad
      ensures Executed(env.s, old(View()), data, View(), errno, used) && Obeys(env, old(trace), trace, errno)
    {
      var f := Frame(p, nread, nread, EntryMarks(p.state), trace);
      EntryAtHead(env.s, View(), trace, data);
      f, errno, used := Call(env, data, f, View());
      p, trace, nread := f.p, f.trace, if errno == Paused then f.saved else f.nread;
    }

    method EndOfStream() returns (used: nat)
      requires Valid() && errno == OK
      modifies this
      ensures Valid() && ended && old(trace) <= trace && EndSignalled(old(View()), View(), errno, used)
      ensures !old(ended) ==> PhaseOf(trace) != Bad
      ensures Obeys(env, old(trace), trace, errno)
    {
      used := 0;
      if p.state.BodyIdentityEof? {
        EofInOrder(View(), trace);
        ghost var before := trace;
        trace, ended := trace + [MessageComplete], true;
        errno := if env.pauses(trace) then Paused else OK;
        HeedsOne(env, before, trace, if errno == Paused then PausedAt(0) else Break);
      } else {
        ended := true;
        if !AcceptsEnd(p.state) {
          errno, used := Err(InvalidEofState), 1;
        }
      }
    }
  }

  /** The state in which the `for` loop is left. */
  ghost predicate LoopDone(s: Settings, start: Conf, data: string, f: Frame, at: nat, sig: Signal) {
    var r := RunOf(s, start, data);
    match sig
    case Break =>
      at == |data| && AtHead(s, f, data, |data|) && LeavesStored(start.nread, f.saved) &&
      r == Ran(HttpParserFrame.View(f, data, |data|))
    case Leave =>
      at < |data| && f.nread <= s.limit && f.marks == map[] && Inv(HttpParserFrame.View(f, data, at)) &&
      r == RanUpgraded(HttpParserFrame.View(f, data, at), at + 1)
    case PausedAt(n) =>
      n <= |data| && Inv(Stored(f)) && f.saved <= s.limit &&
      (if f.p.state.HeadersDone? then Passes(s, start, data, 0, n, Stored(f))
       else LeavesStored(start.nread, f.saved)) &&
      (n == 0 ==> Rank(f.p.state) < Rank(start.p.state)) && PausesIn(s, start, data, 0, n, Stored(f))
    case GotoError(e) =>
      at < |data| && r.RanFailed? &&
      (FailsBeyond(s, start, data, 0, e) || (e == r.errno && at == r.used && Withholds(f, data, at, r.log)))
    case Reexecute => false
  }

  lemma MarkedElsewhere(s: Settings, f: Frame, data: string)
    requires AtHead(s, f, data, |data|) && f.marks != map[]
    ensures !f.p.state.HeadersDone? && AtMostOne(f.marks)
  {
  }

  /** A pause in one of the callbacks at the end of the buffer. */
  lemma {:induction false} FlushPauses(s: Settings, start: Conf, data: string, f: Frame, f': Frame)
    requires data != "" && LoopDone(s, start, data, f, |data|, Break) && f.marks != map[]
    requires Stored(f') == HttpParserFrame.View(f, data, |data|).(nread := f.saved)
    ensures Executed(s, start, data, Stored(f'), Paused, |data|) && Inv(Stored(f'))
  {
    MarkedElsewhere(s, f, data);
    assert data[0..|data|] == data;
    LaggingStands(s, start, data, 0, |data|, HttpParserFrame.View(f, data, |data|), f.saved);
  }

  /** The end of a call that has used up its buffer. */
  method AfterLoop(env: Env, data: string, f: Frame, ghost start: Conf) returns (f': Frame, errno: Errno)
    requires data != "" && LoopDone(env.s, start, data, f, |data|, Break)
    ensures errno == OK || errno == Paused
    ensures Executed(env.s, start, data, After(f', errno), errno, |data|) && Inv(After(f', errno))
    ensures After(f', errno).nread <= env.s.limit
    ensures Lawful(HttpParserFrame.View(f, data, |data|)) ==> Lawful(After(f', errno))
    ensures Heeds(env, f.trace, f'.trace, if errno == Paused then PausedAt(|data|) else Break)
  {
    ghost var end := HttpParserFrame.View(f, data, |data|);
    if f.marks != map[] {
      MarkedElsewhere(env.s, f, data);
    }
    var paused;
    f', paused := Flush(env, data, f);
    errno := if paused then Paused else OK;
    if paused {
      FlushPauses(env.s, start, data, f, f');
    }
    HeedsOne(env, f.trace, f'.trace, if errno == Paused then PausedAt(|data|) else Break);
    assert Conf(f'.p, f'.nread, Join(f'.trace)) == end;
  }

  /** The parser fields as a call leaves them. */
  ghost function After(f: Frame, errno: Errno): Conf {
    if errno == Paused then Stored(f) else Conf(f.p, f.nread, Join(f.trace))
  }

  /** What a call leaves behind is in order. */
  ghost predicate LeftInOrder(f: Frame, errno: Errno) {
    PhaseOf(f.trace) != Bad && (errno == OK || errno == Paused ==> Lawful(After(f, errno)))
  }

  lemma {:induction false} LawfulTrace(f: Frame, errno: Errno)
    requires Lawful(After(f, errno))
    ensures PhaseOf(f.trace) != Bad
  {
    FitsIsGood(f.p, PhaseOf(Join(f.trace)));
    PhaseJoin(f.trace);
  }

  lemma {:induction false} LeftPaused(s: Settings, start: Conf, data: string, f: Frame, at: nat, n: nat)
    requires LoopDone(s, start, data, f, at, PausedAt(n))
    ensures Executed(s, start, data, After(f, Paused), Paused, n) && Inv(Stored(f)) && f.saved <= s.limit
  {
  }

  lemma {:induction false} LeftFailed(s: Settings, start: Conf, data: string, f: Frame, at: nat, e: ErrorCode)
    requires LoopDone(s, start, data, f, at, GotoError(e))
    ensures Executed(s, start, data, After(f, Err(e)), Err(e), at)
  {
    var r := RunOf(s, start, data);
    if !FailsBeyond(s, start, data, 0, e) {
      PendingIsPiece(Join(f.trace), f.marks, data, at);
    }
  }

  lemma PendingIsPiece(log: seq<Event>, marks: map<Element, nat>, data: string, at: nat)
    requires MarksBefore(marks, data, at)
    ensures ButForAPiece(log, Pending(log, marks, data, at))
  {
    if Field in marks {
      OnePiece(log, Field, data[marks[Field]..at]);
    } else if Value in marks {
      OnePiece(log, Value, data[marks[Value]..at]);
    } else if Url in marks {
      OnePiece(log, Url, data[marks[Url]..at]);
    } else if Body in marks {
      OnePiece(log, Body, data[marks[Body]..at]);
    } else if Status in marks {
      OnePiece(log, Status, data[marks[Status]..at]);
    }
  }

  lemma OnePiece(log: seq<Event>, k: Element, bytes: string)
    ensures ButForAPiece(log, Emit(log, Data(k, bytes)))
  {
  }

  lemma {:induction false} LeftUpgraded(s: Settings, start: Conf, data: string, f: Frame, at: nat)
    requires LoopDone(s, start, data, f, at, Leave)
    ensures Executed(s, start, data, After(f, OK), OK, at + 1) && Inv(After(f, OK)) && f.nread <= s.limit
    ensures After(f, OK) == HttpParserFrame.View(f, data, at)
  {
  }

  /** What the exits of the loop mean for the call. */
  method Left(s: Settings, data: string, f: Frame, at: nat, sig: Signal, ghost start: Conf, ghost f0: Frame)
      returns (errno: Errno, used: nat)
    requires LoopDone(s, start, data, f, at, sig) && sig != Break && Orderly(f0, data, 0, f, at, sig)
    ensures Executed(s, start, data, After(f, errno), errno, used)
    ensures errno == OK || errno == Paused ==> Inv(After(f, errno)) && After(f, errno).nread <= s.limit
    ensures Lawful(HttpParserFrame.View(f0, data, 0)) ==> LeftInOrder(f, errno)
    ensures (errno == Paused <==> sig.PausedAt?) && (errno.Err? ==> sig == GotoError(errno.code))
  {
    if sig.PausedAt? {
      errno, used := Paused, sig.used;
      LeftPaused(s, start, data, f, at, used);
    } else if sig.GotoError? {
      errno, used := Err(sig.errno), at;
      LeftFailed(s, start, data, f, at, sig.errno);
    } else {
      errno, used := OK, at + 1;
      LeftUpgraded(s, start, data, f, at);
    }
    if Lawful(HttpParserFrame.View(f0, data, 0)) && !errno.Err? {
      LawfulTrace(f, errno);
    }
  }

  /** The call between fetching the fields and storing them again. */
  method Call(env: Env, data: string, f0: Frame, ghost start: Conf) returns (f: Frame, errno: Errno, used: nat)
    requires Sizes(env.s, data) && data != "" && AtHead(env.s, f0, data, 0) &&
             HttpParserFrame.View(f0, data, 0) == start && f0.saved == start.nread
    ensures Executed(env.s, start, data, After(f, errno), errno, used) && Obeys(env, f0.trace, f.trace, errno)
    ensures errno == OK || errno == Paused ==> Inv(After(f, errno)) && After(f, errno).nread <= env.s.limit
    ensures Lawful(start) ==> LeftInOrder(f, errno)
  {
    var at, sig;
    LoopStart(env.s, start, data, f0);
    f, at, sig := Loop(env, data, f0, start);
    if sig == Break {
      ghost var g := f;
      f, errno := AfterLoop(env, data, f, start);
      HeedsLater(env, f0.trace, g.trace, f.trace, Break, if errno == Paused then PausedAt(|data|) else Break);
      used := |data|;
      if Lawful(start) {
        LawfulTrace(f, errno);
      }
    } else {
      errno, used := Left(env.s, data, f, at, sig, start, f0);
    }
  }

  /** The head of the `for` loop. */
  ghost predicate LoopAt(s: Settings, start: Conf, data: string, f: Frame, at: nat) {
    AtHead(s, f, data, at) && (at == 0 ==> f.p.state == start.p.state) && LeavesStored(start.nread, f.saved) &&
    Onward(s, start, data, 0, at, HttpParserFrame.View(f, data, at))
  }

  /** A turn that begins at the head of the loop, with `g` standing in the switch. */
  ghost predicate TurnAt(s: Settings, start: Conf, data: string, f: Frame, at: nat, g: Frame) {
    LoopAt(s, start, data, f, at) && InSwitch(s, g, data, at) && g.p.state == f.p.state && g.saved == f.saved &&
    Before(g, data, at) == HttpParserFrame.View(f, data, at)
  }

  lemma {:induction false} TurnGoesOn(s: Settings, start: Conf, data: string, f: Frame, at: nat, g: Frame,
                                      f': Frame, to: nat)
    requires TurnAt(s, start, data, f, at, g) && Refines(s, g, data, at, f', to, Break)
    ensures at <= to < |data| && LoopAt(s, start, data, f', to + 1)
  {
    OnwardOn(s, start, data, 0, at, Before(g, data, at), to + 1, HttpParserFrame.View(f', data, to + 1));
  }

  lemma {:induction false} TurnPauses(s: Settings, start: Conf, data: string, f: Frame, at: nat, g: Frame,
                                      f': Frame, to: nat, used: nat)
    requires TurnAt(s, start, data, f, at, g) && Refines(s, g, data, at, f', to, PausedAt(used))
    ensures LoopDone(s, start, data, f', to, PausedAt(used))
  {
    PausesOn(s, start, data, 0, at, Before(g, data, at), used, Stored(f'));
    if f'.p.state.HeadersDone? {
      PassesOn(s, start, data, 0, at, Before(g, data, at), used, Stored(f'));
    }
  }

  lemma {:induction false} TurnStops(s: Settings, start: Conf, data: string, f: Frame, at: nat, g: Frame,
                                     f': Frame, to: nat, sig: Signal)
    requires TurnAt(s, start, data, f, at, g) && Refines(s, g, data, at, f', to, sig)
    requires sig.Leave? || sig.GotoError?
    ensures LoopDone(s, start, data, f', to, sig)
  {
    CarryAll(s, start, data, 0, at, Before(g, data, at));
    assert data[0..] == data;
    if sig.GotoError? && FailsBeyond(s, Before(g, data, at), data, at, sig.errno) {
      FailsBeyondOn(s, start, data, 0, at, Before(g, data, at), sig.errno);
    }
  }

  lemma {:induction false} TurnDone(s: Settings, start: Conf, data: string, f: Frame, at: nat, g: Frame,
                                    f': Frame, to: nat, sig: Signal)
    requires TurnAt(s, start, data, f, at, g) && Refines(s, g, data, at, f', to, sig) && sig != Reexecute
    ensures sig == Break ==> at <= to < |data| && LoopAt(s, start, data, f', to + 1)
    ensures sig != Break ==> LoopDone(s, start, data, f', to, sig)
  {
    if sig == Break {
      TurnGoesOn(s, start, data, f, at, g, f', to);
    } else if sig.PausedAt? {
      TurnPauses(s, start, data, f, at, g, f', to, sig.used);
    } else {
      TurnStops(s, start, data, f, at, g, f', to, sig);
    }
  }

  lemma {:induction false} TurnOverflow(s: Settings, start: Conf, data: string, f: Frame, at: nat, g: Frame)
    requires at < |data| && LoopAt(s, start, data, f, at) && ParsingHeader(f.p.state)
    requires g == f.(nread := f.nread + 1) && g.nread > s.limit
    ensures LoopDone(s, start, data, g, at, GotoError(HeaderOverflow))
    ensures Orderly(f, data, at, g, at, GotoError(HeaderOverflow))
  {
    HeadOverflow(s, f, data, at);
    CarryAll(s, start, data, 0, at, HttpParserFrame.View(f, data, at));
    assert data[0..] == data;
    OrderlyFailure(f, data, at, g, at, HeaderOverflow);
  }

  lemma OrderlyCounted(f: Frame, g: Frame, data: string, at: nat, f': Frame, to: nat, sig: Signal)
    requires g == f.(nread := g.nread) && Orderly(g, data, at, f', to, sig)
    ensures Orderly(f, data, at, f', to, sig)
  {
  }

  /** How a turn of the loop leaves things. */
  ghost predicate TurnEnds(env: Env, start: Conf, data: string, f: Frame, at: nat, f': Frame, to: nat, sig: Signal) {
    Orderly(f, data, at, f', to, sig) && Heeds(env, f.trace, f'.trace, sig) &&
    if sig == Break then at <= to < |data| && LoopAt(env.s, start, data, f', to + 1)
    else LoopDone(env.s, start, data, f', to, sig)
  }

  /** `COUNT_HEADER_SIZE(1)`, in the states that count. */
  method CountByte(s: Settings, data: string, f: Frame, at: nat) returns (g: Frame, tooLong: bool)
    requires Sizes(s, data) && at < |data| && f.nread <= s.limit
    ensures tooLong ==> ParsingHeader(f.p.state) && g == f.(nread := f.nread + 1) && g.nread > s.limit
    ensures !tooLong ==> g == (if ParsingHeader(f.p.state) then f.(nread := f.nread + 1) else f) && g.nread <= s.limit
  {
    CountUpExact(s, data, f.nread, 1);
    g := if ParsingHeader(f.p.state) then f.(nread := CountUp(f.nread, 1)) else f;
    tooLong := g.nread > s.limit;
  }

  /** One turn of the `for` loop. */
  method Turn(env: Env, data: string, f: Frame, at: nat, ghost start: Conf) returns (f': Frame, to: nat, sig: Signal)
    requires Sizes(env.s, data) && at < |data| && LoopAt(env.s, start, data, f, at)
    ensures TurnEnds(env, start, data, f, at, f', to, sig)
  {
    var g, tooLong := CountByte(env.s, data, f, at);
    if tooLong {
      f', to, sig := TurnTooLong(env, data, f, at, g, start);
    } else {
      f', to, sig := TurnCounted(env, data, f, at, g, start);
    }
  }

  /** The byte is one too many for the header limit. */
  method TurnTooLong(env: Env, data: string, f: Frame, at: nat, g: Frame, ghost start: Conf)
      returns (f': Frame, to: nat, sig: Signal)
    requires at < |data| && LoopAt(env.s, start, data, f, at) && ParsingHeader(f.p.state)
    requires g == f.(nread := f.nread + 1) && g.nread > env.s.limit
    ensures TurnEnds(env, start, data, f, at, f', to, sig)
  {
    TurnOverflow(env.s, start, data, f, at, g);
    f', to, sig := g, at, GotoError(HeaderOverflow);
    HeedsOne(env, f.trace, f'.trace, sig);
  }

  /** The rest of the turn, with the byte counted. */
  method TurnCounted(env: Env, data: string, f: Frame, at: nat, g: Frame, ghost start: Conf)
      returns (f': Frame, to: nat, sig: Signal)
    requires Sizes(env.s, data) && at < |data| && LoopAt(env.s, start, data, f, at)
    requires g == (if ParsingHeader(f.p.state) then f.(nread := f.nread + 1) else f) && g.nread <= env.s.limit
    ensures TurnEnds(env, start, data, f, at, f', to, sig)
  {
    HeadToSwitch(env.s, f, data, at);
    f', to, sig := Reexecutes(env, data, at, g);
    TurnDone(env.s, start, data, f, at, g, f', to, sig);
    OrderlyCounted(f, g, data, at, f', to, sig);
  }

  lemma LoopStart(s: Settings, start: Conf, data: string, f: Frame)
    requires AtHead(s, f, data, 0) && HttpParserFrame.View(f, data, 0) == start && f.saved == start.nread
    ensures LoopAt(s, start, data, f, 0)
  {
    assert data[0..0] == "";
  }

  lemma LoopEnd(s: Settings, start: Conf, data: string, f: Frame)
    requires LoopAt(s, start, data, f, |data|)
    ensures LoopDone(s, start, data, f, |data|, Break)
  {
    assert data[0..|data|] == data;
  }

  /** The callbacks since the start of the loop are in order if those before it were. */
  ghost predicate StaysInOrder(f0: Frame, data: string, f: Frame, at: nat) {
    MarksBefore(f0.marks, data, 0) && MarksBefore(f.marks, data, at) && f0.trace <= f.trace &&
    (Lawful(HttpParserFrame.View(f0, data, 0)) ==> Lawful(HttpParserFrame.View(f, data, at)))
  }

  method Loop(env: Env, data: string, f0: Frame, ghost start: Conf) returns (f: Frame, at: nat, sig: Signal)
    requires Sizes(env.s, data) && LoopAt(env.s, start, data, f0, 0)
    ensures LoopDone(env.s, start, data, f, at, sig)
    ensures if sig == Break then StaysInOrder(f0, data, f, at) else Orderly(f0, data, 0, f, at, sig)
    ensures Heeds(env, f0.trace, f.trace, sig)
  {
    f, at, sig := f0, 0, Break;
    while at < |data| && sig == Break
      invariant if sig == Break then at <= |data| && LoopAt(env.s, start, data, f, at)
                else LoopDone(env.s, start, data, f, at, sig)
      invariant if sig == Break then StaysInOrder(f0, data, f, at) else Orderly(f0, data, 0, f, at, sig)
      invariant Heeds(env, f0.trace, f.trace, sig)
      decreases sig == Break, |data| - at
    {
      ghost var g, from := f, at;
      f, at, sig := Turn(env, data, f, at, start);
      OrderlyLater(f0, data, 0, g, from, f, at, sig);
      HeedsLater(env, f0.trace, g.trace, f.trace, Break, sig);
      at := if sig == Break then at + 1 else at;
    }
    if sig == Break {
      LoopEnd(env.s, start, data, f);
    }
  }
}
