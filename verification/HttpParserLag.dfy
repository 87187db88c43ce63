/** Runs that differ only in `nread`. A call that is paused gives up the bytes it has counted, so the
    parser that is resumed may have counted less than the one that never paused. */
module HttpParserLag {
  import opened HttpParserTypes
  import opened HttpParserRun
  import opened HttpParserInvariant

  /** `a` is `b`, except that it may have counted fewer bytes. */
  predicate Lags(a: Conf, b: Conf) {
    a == b.(nread := a.nread) && a.nread <= b.nread
  }

  predicate ResultLags(a: Result, b: Result) {
    match b
    case Consumed(c) => a.Consumed? && Lags(a.c, c)
    case Repeats(c) => a.Repeats? && Lags(a.c, c)
    case Leaves(c) => a.Leaves? && Lags(a.c, c)
    case Failed(_, _) => a == b
    case AssertFailed => a == b
  }

  lemma {:induction false} ChainLags(s: Settings, a: Conf, b: Conf, ch: char)
    requires Lags(a, b) && (a.p.state.ChunkSizeStart? ==> a.nread == b.nread)
    requires Inside(b)
    ensures ResultLags(Chain(s, a, ch), Chain(s, b, ch))
    decreases Rank(a.p.state)
  {
    var ra, rb := ArmOf(s, a, ch), ArmOf(s, b, ch);
    if rb.Repeats? {
      AgainLowersRank(s, b.p, ch, s.onHeadersComplete(b.log));
      ArmOfInv(s, b, ch);
      assert ra.Repeats? && Lags(ra.c, rb.c);
      ArmKeeps(s, b.p, ch, s.onHeadersComplete(b.log));
      ChainLags(s, ra.c, rb.c, ch);
    }
  }

  lemma {:induction false} StepLags(s: Settings, a: Conf, b: Conf, ch: char)
    requires Lags(a, b) && Inv(b)
    requires Step(s, b, ch).Failed? ==> Step(s, b, ch).errno != HeaderOverflow
    ensures ResultLags(Step(s, a, ch), Step(s, b, ch))
  {
    ChainLags(s, Counted(a), Counted(b), ch);
  }

  /** The run `a` ends as `b` does, at the same byte and with the same callbacks, unless `b` runs into the header
      limit: then `a`, which has counted less, may get further. */
  predicate Follows(a: Run, b: Run) {
    match b
    case Ran(c) => a.Ran? && Lags(a.c, c)
    case RanUpgraded(c, used) => a.RanUpgraded? && Lags(a.c, c) && a.used == used
    case RanFailed(e, _, _) => e == HeaderOverflow || a == b
    case RanAssertFailed => true
  }

  lemma FollowsShift(a: Run, b: Run, n: nat)
    requires Follows(a, b)
    ensures Follows(Shift(a, n), Shift(b, n))
  {
  }

  /** A run follows itself. */
  lemma FollowsSelf(a: Run)
    ensures Follows(a, a) && Shift(a, 0) == a
  {
  }

  lemma StepFollows(s: Settings, a: Conf, b: Conf, ch: char, rest: string)
    requires ResultLags(Step(s, a, ch), Step(s, b, ch))
    requires Step(s, b, ch).Consumed? ==> Follows(RunOf(s, Step(s, a, ch).c, rest), RunOf(s, Step(s, b, ch).c, rest))
    ensures Follows(Then(s, Step(s, a, ch), rest), Then(s, Step(s, b, ch), rest))
  {
  }

  /** A parser whose counter lags behind follows the other over any input. */
  lemma {:induction false} RunLags(s: Settings, a: Conf, b: Conf, data: string)
    requires Lags(a, b) && Inv(b)
    ensures Follows(RunOf(s, a, data), RunOf(s, b, data))
    decreases |data|
  {
    if data != "" {
      var rb := Step(s, b, data[0]);
      if !(rb.Failed? && rb.errno == HeaderOverflow) {
        StepLags(s, a, b, data[0]);
        if rb.Consumed? {
          StepInv(s, b, data[0]);
          RunLags(s, Step(s, a, data[0]).c, rb.c, data[1..]);
        }
        StepFollows(s, a, b, data[0], data[1..]);
      }
    }
  }
}
