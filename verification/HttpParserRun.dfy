/** The simple form of http_parser_execute: one byte at a time, no buffer, no marks, no pausing. */
module HttpParserRun {
  import opened HttpParserTypes
  import opened HttpParserArms

  /** A parser, its `nread`, and everything it has delivered, pieces joined. */
  datatype Conf = Conf(p: Parser, nread: nat, log: seq<Event>)

  /** How one byte leaves the parser. */
  datatype Result =
    | Consumed(c: Conf)   // the byte is used up, the loop goes on
    | Repeats(c: Conf)     // the same byte is looked at again in another state
    | Leaves(c: Conf)     // the byte is used up, the rest is another protocol
    | Failed(errno: ErrorCode, log: seq<Event>)   // what has been delivered by then
    | AssertFailed

  /** The switch: the arm, the assert on `nread` at a chunk start, and the resets of `nread`. */
  function ArmOf(s: Settings, c: Conf, ch: char): Result {
    if c.p.state.ChunkSizeStart? && c.nread != 1 then AssertFailed
    else
      var nread := if ResetsNread(c.p.state) then 0 else c.nread;
      match Arm(s, c.p, ch, s.onHeadersComplete(c.log))
      case Consume(p, e) => Consumed(Conf(p, nread, EmitOption(c.log, e)))
      case Again(p, e) => Repeats(Conf(p, nread, EmitOption(c.log, e)))
      case Upgraded(p, e) => Leaves(Conf(p, nread, EmitOption(c.log, e)))
      case Error(n) => Failed(n, if n == CbHeadersComplete then Emit(c.log, HeadersComplete) else c.log)
      case AssertFails => AssertFailed
  }

  lemma HeaderByte(s: Settings, c: Conf, ch: char)
    requires HeaderState(c.p.state)
    ensures Arm(s, c.p, ch, s.onHeadersComplete(c.log)) == HeaderArm(s, c.p, ch) && !ResetsNread(c.p.state)
  {
  }

  /** Every REEXECUTE goes to a state of smaller rank. */
  function Rank(s: State): nat {
    if s.HeaderValueLws? || s.HeaderValueDiscardLws? then 6
    else if s.HeaderFieldStart? then 5
    else if s.HeadersAlmostDone? || s.HeaderValue? || s.ResStatusCode? || s.StartReqOrRes? || s.BodyIdentity? then 4
    else if s.ResStatusStart? then 3
    else if s.HeaderValueStart? || s.HeaderAlmostDone? then 2
    else if s.HeadersDone? || s.MessageDone? || s.StartReq? || s.ResStatus? then 1
    else 0
  }

  predicate LowersRank(p: Parser, r: Outcome) {
    r.Again? ==> Rank(r.p.state) < Rank(p.state)
  }

  lemma StartLowersRank(p: Parser, ch: char)
    ensures LowersRank(p, StartArm(p, ch))
  {
  }

  lemma StatusLineLowersRank(p: Parser, ch: char)
    ensures LowersRank(p, StatusLineArm(p, ch))
  {
  }

  lemma RequestLineLowersRank(p: Parser, ch: char)
    ensures LowersRank(p, RequestLineArm(p, ch))
  {
  }

  lemma HeaderLowersRank(s: Settings, p: Parser, ch: char)
    ensures LowersRank(p, HeaderArm(s, p, ch))
  {
  }

  lemma HeadersEndLowersRank(s: Settings, p: Parser, ch: char, answer: int)
    ensures LowersRank(p, HeadersEndArm(s, p, ch, answer))
  {
  }

  lemma BodyLowersRank(p: Parser, ch: char)
    ensures LowersRank(p, BodyArm(p, ch))
  {
  }

  lemma AgainLowersRank(s: Settings, p: Parser, ch: char, answer: int)
    ensures LowersRank(p, Arm(s, p, ch, answer))
  {
    StartLowersRank(p, ch);
    StatusLineLowersRank(p, ch);
    RequestLineLowersRank(p, ch);
    HeaderLowersRank(s, p, ch);
    HeadersEndLowersRank(s, p, ch, answer);
    BodyLowersRank(p, ch);
  }

  /** The `reexecute` loop for one byte. */
  function Chain(s: Settings, c: Conf, ch: char): (r: Result)
    ensures !r.Repeats?
    decreases Rank(c.p.state)
  {
    var r := ArmOf(s, c, ch);
    if r.Repeats? then
      AgainLowersRank(s, c.p, ch, s.onHeadersComplete(c.log));
      Chain(s, r.c, ch)
    else r
  }

  function Counted(c: Conf): Conf {
    if ParsingHeader(c.p.state) then c.(nread := c.nread + 1) else c
  }

  /** One turn of the `for` loop: count the byte, then run the switch on it. */
  function Step(s: Settings, c: Conf, ch: char): (r: Result)
    ensures !r.Repeats?
  {
    if ParsingHeader(c.p.state) && c.nread + 1 > s.limit then Failed(HeaderOverflow, c.log)
    else Chain(s, Counted(c), ch)
  }

  /** The end of a run over some bytes, and how many of them were used up. */
  datatype Run =
    | Ran(c: Conf)
    | RanUpgraded(c: Conf, used: nat)
    | RanFailed(errno: ErrorCode, used: nat, log: seq<Event>)
    | RanAssertFailed

  function Shift(r: Run, n: nat): Run {
    match r
    case RanUpgraded(c, k) => RanUpgraded(c, k + n)
    case RanFailed(e, k, log) => RanFailed(e, k + n, log)
    case _ => r
  }

  /** What is left to do after one byte ended in `r`. */
  function Then(s: Settings, r: Result, rest: string): Run
    requires !r.Repeats?
    decreases |rest|, 1
  {
    match r
    case Consumed(c) => Shift(RunOf(s, c, rest), 1)
    case Leaves(c) => RanUpgraded(c, 1)
    case Failed(e, log) => RanFailed(e, 0, log)
    case AssertFailed => RanAssertFailed
  }

  function RunOf(s: Settings, c: Conf, data: string): Run
    decreases |data|, 0
  {
    if data == "" then Ran(c) else Then(s, Step(s, c, data[0]), data[1..])
  }

  lemma ShiftShift(r: Run, m: nat, n: nat)
    ensures Shift(Shift(r, m), n) == Shift(r, m + n)
  {
  }

  /** Runs compose: a run over a concatenation is the run over the first part continued over the second. */
  lemma {:induction false} RunConcat(s: Settings, c: Conf, a: string, b: string)
    ensures RunOf(s, c, a).Ran? ==> RunOf(s, c, a + b) == Shift(RunOf(s, RunOf(s, c, a).c, b), |a|)
    ensures !RunOf(s, c, a).Ran? ==> RunOf(s, c, a + b) == RunOf(s, c, a)
    decreases |a|
  {
    if a == "" {
      assert a + b == b;
    } else {
      assert (a + b)[1..] == a[1..] + b;
      var r := Step(s, c, a[0]);
      if r.Consumed? {
        RunConcat(s, r.c, a[1..], b);
      }
    }
  }

  /** The run over one more byte. */
  lemma RunSnoc(s: Settings, c: Conf, a: string, ch: char)
    ensures RunOf(s, c, a).Ran? ==> RunOf(s, c, a + [ch]) == Shift(Then(s, Step(s, RunOf(s, c, a).c, ch), ""), |a|)
    ensures !RunOf(s, c, a).Ran? ==> RunOf(s, c, a + [ch]) == RunOf(s, c, a)
  {
    RunConcat(s, c, a, [ch]);
    assert [ch][1..] == "";
  }

  /** A run that goes through may be continued by a byte, or by another run. */
  lemma RunThenByte(s: Settings, c: Conf, a: string, ch: char, d: Conf, e: Conf)
    requires RunOf(s, c, a) == Ran(d) && Step(s, d, ch) == Consumed(e)
    ensures RunOf(s, c, a + [ch]) == Ran(e)
  {
    RunSnoc(s, c, a, ch);
  }

  /** The first byte and the rest. */
  lemma RunFirstByte(s: Settings, c: Conf, ch: char, rest: string, d: Conf, e: Conf)
    requires Step(s, c, ch) == Consumed(d) && RunOf(s, d, rest) == Ran(e)
    ensures RunOf(s, c, [ch] + rest) == Ran(e)
  {
    assert ([ch] + rest)[1..] == rest;
  }

  /** A run that goes through and then meets a byte that fails, or that has failed before, fails. */
  lemma RunThenFailure(s: Settings, c: Conf, a: string, ch: char)
    requires RunOf(s, c, a).RanFailed? || (RunOf(s, c, a).Ran? && Step(s, RunOf(s, c, a).c, ch).Failed?)
    ensures RunOf(s, c, a + [ch]).RanFailed?
  {
    RunSnoc(s, c, a, ch);
  }

  lemma RunThenRun(s: Settings, c: Conf, a: string, b: string, d: Conf, e: Conf)
    requires RunOf(s, c, a) == Ran(d) && RunOf(s, d, b) == Ran(e)
    ensures RunOf(s, c, a + b) == Ran(e)
  {
    RunConcat(s, c, a, b);
  }
}
