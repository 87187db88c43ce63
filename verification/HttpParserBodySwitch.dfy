/** The body arms of http_parser_execute, which take as much of the buffer as the body needs at once. */
module HttpParserBodySwitch {
  import opened Options
  import opened HttpBytes
  import opened HttpParserTypes
  import opened HttpParserArms
  import opened HttpParserRun
  import opened HttpParserInvariant
  import opened HttpParserGrammar
  import opened HttpParserReach
  import opened HttpParserStretch
  import opened HttpParserFrame
  import opened HttpParserSwitch

  lemma {:induction false} BodyBefore(s: Settings, f: Frame, data: string, at: nat)
    requires InSwitch(s, f, data, at) && BodyBytesState(f.p.state)
    ensures f.marks == map[] && Inv(View(f, data, at)) && View(f, data, at).log == Join(f.trace)
    ensures Before(f, data, at) == View(f, data, at)
  {
  }

  /** The frame after `n` body bytes at `at`: the mark is set, nothing is delivered. */
  function Taken(f: Frame, at: nat, n: nat): Frame
    requires !f.p.state.BodyIdentityEof? ==> n <= f.p.contentLength
  {
    f.(p := AfterBody(f.p, n), marks := Mark(f.marks, Body, at))
  }

  /** The bytes from `at` to `n` belong to the body, and `g` is the frame that has taken them. */
  ghost predicate Takes(s: Settings, f: Frame, data: string, at: nat, n: nat, g: Frame) {
    InSwitch(s, f, data, at) && at < n <= |data| && TakesBody(f.p, n - at) && g == Taken(f, at, n - at)
  }

  /** The run over the bytes taken ends where the frame says. */
  lemma {:induction false} TakenReached(s: Settings, f: Frame, data: string, at: nat, n: nat, g: Frame)
    requires Takes(s, f, data, at, n, g)
    ensures MarksBefore(f.marks, data, at) && MarksBefore(g.marks, data, n)
    ensures RunOf(s, Before(f, data, at), data[at..n]) == Ran(View(g, data, n))
    ensures Inv(View(g, data, n))
    ensures Lawful(View(f, data, at)) ==> Lawful(View(g, data, n))
  {
    BodyBefore(s, f, data, at);
    var c := View(f, data, at);
    BodyStretch(s, c, data[at..n]);
    RunInv(s, c, data[at..n]);
    PendingSingle(Join(f.trace), g.marks, data, n, Body);
    ReachedInOrder(s, c, data[at..n], View(g, data, n));
  }

  lemma {:induction false} TakenAtHead(s: Settings, f: Frame, data: string, at: nat, n: nat, g: Frame)
    requires Takes(s, f, data, at, n, g) && (n == |data| || g.p.state.ChunkDataAlmostDone?)
    ensures AtHead(s, g, data, n)
  {
    BodyBefore(s, f, data, at);
    TakenReached(s, f, data, at, n, g);
  }

  lemma {:induction false} TakenRefines(s: Settings, f: Frame, data: string, at: nat, to: nat, g: Frame)
    requires Takes(s, f, data, at, to + 1, g) && (to + 1 == |data| || g.p.state.ChunkDataAlmostDone?)
    ensures Refines(s, f, data, at, g, to, Break)
  {
    TakenReached(s, f, data, at, to + 1, g);
    TakenAtHead(s, f, data, at, to + 1, g);
    RefinesStretch(s, f, data, at, to, g);
  }

  lemma {:induction false} TakenInOrder(s: Settings, f: Frame, data: string, at: nat, to: nat, g: Frame)
    requires Takes(s, f, data, at, to + 1, g)
    ensures Orderly(f, data, at, g, to, Break)
  {
    TakenReached(s, f, data, at, to + 1, g);
    OrderlyBreak(f, data, at, g, to);
  }

  method SwitchTake(s: Settings, data: string, at: nat, f: Frame) returns (f': Frame, to: nat, sig: Signal)
    requires InSwitch(s, f, data, at) && (f.p.state.ChunkData? || f.p.state.BodyIdentityEof?)
    ensures Refines(s, f, data, at, f', to, sig) && Orderly(f, data, at, f', to, sig)
    ensures sig == Break && f'.trace == f.trace
  {
    var left := |data| - at;
    var toRead := if f.p.state.ChunkData? && f.p.contentLength < left then f.p.contentLength else left;
    to := at + toRead - 1;
    f', sig := Taken(f, at, toRead), Break;
    TakenRefines(s, f, data, at, to, f');
    TakenInOrder(s, f, data, at, to, f');
  }

  /** The body up to its last byte, which is still to come. */
  ghost function UpToLast(f: Frame, data: string, at: nat, to: nat): Conf
    requires at <= to < |data| && to - at <= f.p.contentLength
  {
    Conf(f.p.(contentLength := f.p.contentLength - (to - at)), f.nread,
         if to == at then Join(f.trace) else Emit(Join(f.trace), Data(Body, data[at..to])))
  }

  lemma {:induction false} RunToLast(s: Settings, f: Frame, data: string, at: nat, to: nat)
    requires InSwitch(s, f, data, at) && f.p.state.BodyIdentity?
    requires at <= to < |data| && to + 1 - at == f.p.contentLength
    ensures RunOf(s, View(f, data, at), data[at..to]) == Ran(UpToLast(f, data, at, to))
    ensures Lawful(View(f, data, at)) ==> Lawful(UpToLast(f, data, at, to))
  {
    BodyBefore(s, f, data, at);
    if to == at {
      assert data[at..to] == "";
    } else {
      BodyStretch(s, View(f, data, at), data[at..to]);
    }
    ReachedInOrder(s, View(f, data, at), data[at..to], UpToLast(f, data, at, to));
  }

  lemma LastPiece(log: seq<Event>, data: string, at: nat, to: nat)
    requires at <= to < |data|
    ensures Emit(log, Data(Body, data[at..to + 1])) ==
            Emit(if to == at then log else Emit(log, Data(Body, data[at..to])), Data(Body, [data[to]]))
  {
    if to > at {
      assert data[at..to + 1] == data[at..to] + [data[to]];
      EmitPieces(log, Body, data[at..to], [data[to]]);
    } else {
      assert data[at..to + 1] == [data[to]];
    }
  }

  /** The last byte of a Content-Length body is looked at again once the body is delivered. */
  ghost predicate Delivered(s: Settings, f: Frame, data: string, at: nat, to: nat, f': Frame) {
    InSwitch(s, f, data, at) && f.p.state.BodyIdentity? &&
    at <= to < |data| && to + 1 - at == f.p.contentLength &&
    f' == f.(p := f.p.(contentLength := 0, state := MessageDone), trace := f.trace + [Data(Body, data[at..to + 1])])
  }

  lemma LastStored(s: Settings, f: Frame, data: string, at: nat, to: nat, f': Frame)
    requires Delivered(s, f, data, at, to, f')
    ensures f.marks == map[] && Good(f'.p) && Inv(Stored(f')) && Before(f', data, to) == View(f', data, to)
  {
    BodyBefore(s, f, data, at);
    BodyEndIsGood(f.p);
    NothingOpen(Stored(f'));
  }

  lemma BodyEndIsGood(p: Parser)
    requires Good(p)
    ensures Good(p.(contentLength := 0, state := MessageDone))
  {
  }

  lemma NothingOpen(c: Conf)
    requires Good(c.p) && c.p.state.MessageDone?
    ensures Inv(c) && Back(c) == c
  {
  }

  lemma {:induction false} LastBodyByte(s: Settings, f: Frame, data: string, at: nat, to: nat, f': Frame)
    requires Delivered(s, f, data, at, to, f') && f.marks == map[]
    ensures Onward(s, Before(f, data, at), data, at, to, View(f', data, to))
  {
    var c := UpToLast(f, data, at, to);
    assert Onward(s, Before(f, data, at), data, at, to, c) by {
      BodyBefore(s, f, data, at);
      RunToLast(s, f, data, at, to);
    }
    LastRepeats(s, f, data, at, to, f');
    OnwardOn(s, Before(f, data, at), data, at, to, c, to, View(f', data, to));
  }

  /** The arm of the last byte. */
  lemma {:induction false} LastRepeats(s: Settings, f: Frame, data: string, at: nat, to: nat, f': Frame)
    requires Delivered(s, f, data, at, to, f') && f.marks == map[]
    ensures ArmOf(s, UpToLast(f, data, at, to), data[to]) == Repeats(View(f', data, to))
    ensures Onward(s, UpToLast(f, data, at, to), data, to, to, View(f', data, to))
  {
    var c, next := UpToLast(f, data, at, to), View(f', data, to);
    LastView(f, data, at, to, f');
    LastArm(s, c, data[to], next);
    ArmRepeats(s, c, data, to, next);
  }

  lemma LastArm(s: Settings, c: Conf, ch: char, next: Conf)
    requires c.p.state.BodyIdentity? && c.p.contentLength == 1
    requires next == Conf(c.p.(contentLength := 0, state := MessageDone), c.nread, Emit(c.log, Data(Body, [ch])))
    ensures ArmOf(s, c, ch) == Repeats(next)
  {
  }

  lemma {:induction false} LastBodyInOrder(s: Settings, f: Frame, data: string, at: nat, to: nat, f': Frame)
    requires Delivered(s, f, data, at, to, f')
    ensures Orderly(f, data, at, f', to, Reexecute) && Orderly(f, data, at, f', to, PausedAt(to))
  {
    BodyBefore(s, f, data, at);
    RunToLast(s, f, data, at, to);
    LastRepeats(s, f, data, at, to, f');
    var c := UpToLast(f, data, at, to);
    if Lawful(View(f, data, at)) {
      LastInside(s, f, data, at, to);
      ArmOfLawful(s, c, data[to]);
    }
  }

  lemma LastInside(s: Settings, f: Frame, data: string, at: nat, to: nat)
    requires InSwitch(s, f, data, at) && f.p.state.BodyIdentity?
    requires at <= to < |data| && to + 1 - at == f.p.contentLength
    ensures Inside(UpToLast(f, data, at, to))
  {
  }

  lemma {:induction false} LastBodyRefines(s: Settings, f: Frame, data: string, at: nat, to: nat, f': Frame)
    requires Delivered(s, f, data, at, to, f')
    ensures Refines(s, f, data, at, f', to, Reexecute)
  {
    LastStored(s, f, data, at, to, f');
    LastBodyByte(s, f, data, at, to, f');
  }

  lemma {:induction false} LastBodyPauses(s: Settings, f: Frame, data: string, at: nat, to: nat, f': Frame)
    requires Delivered(s, f, data, at, to, f')
    ensures Refines(s, f, data, at, f', to, PausedAt(to))
  {
    LastStored(s, f, data, at, to, f');
    LastBodyByte(s, f, data, at, to, f');
    LaggingStands(s, Before(f, data, at), data, at, to, View(f', data, to), f'.saved);
  }

  lemma {:induction false} LastView(f: Frame, data: string, at: nat, to: nat, f': Frame)
    requires at <= to < |data| && to + 1 - at == f.p.contentLength && f.marks == map[]
    requires f' == f.(p := f.p.(contentLength := 0, state := MessageDone), trace := f.trace +
               [Data(Body, data[at..to + 1])])
    ensures var c1 := UpToLast(f, data, at, to);
            View(f', data, to) ==
            Conf(c1.p.(contentLength := 0, state := MessageDone), c1.nread, Emit(c1.log, Data(Body, [data[to]])))
  {
    JoinSnoc(f.trace, Data(Body, data[at..to + 1]));
    LastPiece(Join(f.trace), data, at, to);
  }

  method SwitchIdentity(env: Env, data: string, at: nat, f: Frame) returns (f': Frame, to: nat, sig: Signal)
    requires InSwitch(env.s, f, data, at) && f.p.state.BodyIdentity?
    ensures Refines(env.s, f, data, at, f', to, sig) && Orderly(f, data, at, f', to, sig)
    ensures Heeds(env, f.trace, f'.trace, sig)
  {
    var left := |data| - at;
    var toRead := if f.p.contentLength < left then f.p.contentLength else left;
    assert CountsDown(f.p.contentLength); // the C assert
    BodyBefore(env.s, f, data, at);
    to := at + toRead - 1;
    if toRead == f.p.contentLength {
      var g := f.(p := f.p.(contentLength := 0, state := MessageDone), marks := Mark(f.marks, Body, at));
      f' := Deliver(g, Body, data, to + 1);
      sig := if env.pauses(f'.trace) then PausedAt(to) else Reexecute;
      LastBodyRefines(env.s, f, data, at, to, f');
      LastBodyPauses(env.s, f, data, at, to, f');
      LastBodyInOrder(env.s, f, data, at, to, f');
    } else {
      f', sig := Taken(f, at, toRead), Break;
      TakenRefines(env.s, f, data, at, to, f');
      TakenInOrder(env.s, f, data, at, to, f');
    }
  }

  method SwitchDataAlmostDone(env: Env, data: string, at: nat, f: Frame) returns (f': Frame, sig: Signal)
    requires InSwitch(env.s, f, data, at) && f.p.state.ChunkDataAlmostDone?
    ensures Refines(env.s, f, data, at, f', at, sig) && Orderly(f, data, at, f', at, sig)
    ensures Heeds(env, f.trace, f'.trace, sig)
  {
    assert f.p.flags.chunked && f.p.contentLength == 0; // the C asserts
    ArmExists(env.s, f, data, at);
    var q := f.p.(state := ChunkDataDone);
    if data[at] != CR {
      f', sig := f, GotoError(Strict);
      ArmError(env.s, f, data, at, Strict, f);
    } else if Body in f.marks {
      f' := Deliver(f.(p := q), Body, data, at);
      sig := if env.pauses(f'.trace) then PausedAt(at + 1) else Break;
      DeliveredByte(env.s, f, data, at, q, Body);
      OrderlyConsumed(env.s, f, data, at, f');
    } else {
      f', sig := f.(p := q), Break;
      PlainConsumed(env.s, f, data, at, q, None);
      OrderlyConsumed(env.s, f, data, at, f');
    }
  }
}
