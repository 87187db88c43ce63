/** Where a run has come to, byte by byte, and where a paused parser stands in it. */
module HttpParserReach {
  import opened HttpParserTypes
  import opened HttpParserArms
  import opened HttpParserRun
  import opened HttpParserSections
  import opened HttpParserInvariant
  import opened HttpParserLag

  /** The switch comes to look at the byte `ch` with the parser `d`, starting with the parser `c`. */
  predicate ComesTo(s: Settings, c: Conf, ch: char, d: Conf)
    decreases Rank(c.p.state)
  {
    d == c ||
    (var r := ArmOf(s, c, ch);
     r.Repeats? && (AgainLowersRank(s, c.p, ch, s.onHeadersComplete(c.log)); ComesTo(s, r.c, ch, d)))
  }

  /** The header limit leaves room for one more byte. */
  predicate Admits(s: Settings, c: Conf) {
    ParsingHeader(c.p.state) ==> c.nread < s.limit
  }

  /** The one case in which a paused parser cannot go on: on_headers_complete has paused it while the counter stood at
      the limit, and the last byte of the header is going to be counted again. */
  predicate Stuck(s: Settings, c: Conf) {
    c.p.state.HeadersDone? && c.nread >= s.limit
  }

  /** In the middle of a byte, which has been counted and is within the limit. */
  predicate Mid(s: Settings, c: Conf) {
    ParsingHeader(c.p.state) ==> 0 < c.nread <= s.limit
  }

  /** The configuration before the byte was counted. */
  function Back(c: Conf): Conf {
    if ParsingHeader(c.p.state) && c.nread > 0 then c.(nread := c.nread - 1) else c
  }

  lemma BackCounts(s: Settings, c: Conf)
    requires Mid(s, c)
    ensures Counted(Back(c)) == c && Admits(s, Back(c))
  {
  }

  /** The run of `b` over the data from `from` on comes, in the middle of the byte at `n`, to `d`. */
  predicate Passes(s: Settings, b: Conf, data: string, from: nat, n: nat, d: Conf) {
    from <= n < |data| &&
    var r := RunOf(s, b, data[from..n]);
    r.Ran? && Admits(s, r.c) && ComesTo(s, Counted(r.c), data[n], d)
  }

  /** The run of `b` has come to `c`: between two bytes, or in the middle of the byte at `n`, that byte not counted. */
  predicate Onward(s: Settings, b: Conf, data: string, from: nat, n: nat, c: Conf) {
    from <= n <= |data| &&
    (RunOf(s, b, data[from..n]) == Ran(c) || (Admits(s, c) && Passes(s, b, data, from, n, Counted(c))))
  }

  /** The run stands where the parser `now` does, and has counted `k` bytes, which may be more than `now` has. A parser
      that is paused in on_headers_complete is in the middle of a byte, which it has counted. */
  predicate StandsIn(s: Settings, b: Conf, data: string, from: nat, n: nat, now: Conf, k: nat) {
    now.nread <= k &&
    if now.p.state.HeadersDone? then Passes(s, b, data, from, n, now.(nread := k))
    else Onward(s, b, data, from, n, now.(nread := k))
  }

  /** The run has left for another protocol before the byte at `n`, and with the parser `now` if just before it. */
  predicate LeftBy(s: Settings, b: Conf, data: string, from: nat, n: nat, now: Conf) {
    from <= n <= |data| &&
    var r := RunOf(s, b, data[from..]);
    r.RanUpgraded? && r.used <= n - from && (r.used == n - from ==> Lags(now, r.c))
  }

  /** The run of `b`, having used up the bytes before `n`, stands where the parser `now` does, but for bytes that `now`
      has not counted. */
  ghost predicate Reached(s: Settings, b: Conf, data: string, from: nat, n: nat, now: Conf) {
    LeftBy(s, b, data, from, n, now) || exists k: nat :: StandsIn(s, b, data, from, n, now, k)
  }

  predicate Overflows(r: Run) {
    r.RanFailed? && r.errno == HeaderOverflow
  }

  /** The same as long as the run does not meet the header limit. */
  ghost predicate Tracks(s: Settings, b: Conf, data: string, from: nat, n: nat, now: Conf) {
    from <= n <= |data| && (Overflows(RunOf(s, b, data[from..])) || Reached(s, b, data, from, n, now))
  }

  // ---------- going on ----------

  lemma {:induction false} ComesOn(s: Settings, c: Conf, ch: char, d: Conf, e: Conf)
    requires ComesTo(s, c, ch, d) && ComesTo(s, d, ch, e)
    ensures ComesTo(s, c, ch, e)
    decreases Rank(c.p.state)
  {
    if d != c {
      AgainLowersRank(s, c.p, ch, s.onHeadersComplete(c.log));
      ComesOn(s, ArmOf(s, c, ch).c, ch, d, e);
    }
  }

  lemma {:induction false} ComesChain(s: Settings, c: Conf, ch: char, d: Conf)
    requires ComesTo(s, c, ch, d)
    ensures Chain(s, c, ch) == Chain(s, d, ch)
    decreases Rank(c.p.state)
  {
    if d != c {
      AgainLowersRank(s, c.p, ch, s.onHeadersComplete(c.log));
      ComesChain(s, ArmOf(s, c, ch).c, ch, d);
    }
  }

  lemma {:induction false} SameStart(s: Settings, x: Conf, c: Conf, data: string)
    requires data != "" && Admits(s, x) && Admits(s, c) && ComesTo(s, Counted(x), data[0], Counted(c))
    ensures RunOf(s, x, data) == RunOf(s, c, data)
  {
    ComesChain(s, Counted(x), data[0], Counted(c));
  }

  lemma Cut(data: string, from: nat, m: nat, n: nat)
    requires from <= m <= n <= |data|
    ensures data[from..n] == data[from..m] + data[m..n]
  {
  }

  /** From where it has come to, the run is carried on. */
  lemma {:induction false} Carry(s: Settings, b: Conf, data: string, from: nat, m: nat, c: Conf, n: nat)
    requires Onward(s, b, data, from, m, c) && m < n <= |data|
    ensures RunOf(s, b, data[from..n]) == Shift(RunOf(s, c, data[m..n]), m - from)
  {
    Cut(data, from, m, n);
    RunConcat(s, b, data[from..m], data[m..n]);
    if RunOf(s, b, data[from..m]) != Ran(c) {
      SameStart(s, RunOf(s, b, data[from..m]).c, c, data[m..n]);
    }
  }

  lemma {:induction false} CarryAll(s: Settings, b: Conf, data: string, from: nat, m: nat, c: Conf)
    requires Onward(s, b, data, from, m, c) && m < |data|
    ensures RunOf(s, b, data[from..]) == Shift(RunOf(s, c, data[m..]), m - from)
  {
    assert data[from..|data|] == data[from..] && data[m..|data|] == data[m..];
    Carry(s, b, data, from, m, c, |data|);
  }

  lemma {:induction false} PassesOn(s: Settings, b: Conf, data: string, from: nat, m: nat, c: Conf, n: nat, d: Conf)
    requires Onward(s, b, data, from, m, c) && Passes(s, c, data, m, n, d)
    ensures Passes(s, b, data, from, n, d)
  {
    if m == n {
      assert data[m..n] == "";
      if RunOf(s, b, data[from..m]) != Ran(c) {
        ComesOn(s, Counted(RunOf(s, b, data[from..m]).c), data[m], Counted(c), d);
      }
    } else {
      Carry(s, b, data, from, m, c, n);
    }
  }

  lemma {:induction false} OnwardOn(s: Settings, b: Conf, data: string, from: nat, m: nat, c: Conf, n: nat, e: Conf)
    requires Onward(s, b, data, from, m, c) && Onward(s, c, data, m, n, e)
    ensures Onward(s, b, data, from, n, e)
  {
    if RunOf(s, c, data[m..n]) != Ran(e) {
      PassesOn(s, b, data, from, m, c, n, Counted(e));
    } else if m < n {
      Carry(s, b, data, from, m, c, n);
    } else {
      assert data[m..n] == "";
    }
  }

  lemma {:induction false} LeftOn(s: Settings, b: Conf, data: string, from: nat, m: nat, c: Conf, n: nat, now: Conf)
    requires Onward(s, b, data, from, m, c) && LeftBy(s, c, data, m, n, now)
    ensures LeftBy(s, b, data, from, n, now)
  {
    if m < |data| {
      CarryAll(s, b, data, from, m, c);
    }
  }

  lemma {:induction false} StandsOn(s: Settings, b: Conf, data: string, from: nat, m: nat, c: Conf, n: nat, now: Conf,
                                    k: nat)
    requires Onward(s, b, data, from, m, c) && StandsIn(s, c, data, m, n, now, k)
    ensures StandsIn(s, b, data, from, n, now, k)
  {
    if now.p.state.HeadersDone? {
      PassesOn(s, b, data, from, m, c, n, now.(nread := k));
    } else {
      OnwardOn(s, b, data, from, m, c, n, now.(nread := k));
    }
  }

  lemma {:induction false} ReachedOn(s: Settings, b: Conf, data: string, from: nat, m: nat, c: Conf, n: nat, now: Conf)
    requires Onward(s, b, data, from, m, c) && Reached(s, c, data, m, n, now)
    ensures Reached(s, b, data, from, n, now)
  {
    if LeftBy(s, c, data, m, n, now) {
      LeftOn(s, b, data, from, m, c, n, now);
    } else {
      var k: nat :| StandsIn(s, c, data, m, n, now, k);
      StandsOn(s, b, data, from, m, c, n, now, k);
    }
  }

  lemma {:induction false} TracksOn(s: Settings, b: Conf, data: string, from: nat, m: nat, c: Conf, n: nat, now: Conf)
    requires Onward(s, b, data, from, m, c) && Tracks(s, c, data, m, n, now)
    ensures Tracks(s, b, data, from, n, now)
  {
    if Overflows(RunOf(s, c, data[m..])) {
      CarryAll(s, b, data, from, m, c);
    } else {
      ReachedOn(s, b, data, from, m, c, n, now);
    }
  }

  // ---------- a counter that lags behind ----------

  lemma {:induction false} ComesLags(s: Settings, a: Conf, b: Conf, ch: char, d: Conf) returns (e: Conf)
    requires Lags(a, b) && Inside(b) && (a.p.state.ChunkSizeStart? ==> a.nread == b.nread) && ComesTo(s, a, ch, d)
    ensures Lags(d, e) && ComesTo(s, b, ch, e)
    decreases Rank(a.p.state)
  {
    if d == a {
      e := b;
    } else {
      var ra, rb := ArmOf(s, a, ch), ArmOf(s, b, ch);
      AgainLowersRank(s, b.p, ch, s.onHeadersComplete(b.log));
      ArmOfInv(s, b, ch);
      ArmKeeps(s, b.p, ch, s.onHeadersComplete(b.log));
      e := ComesLags(s, ra.c, rb.c, ch, d);
    }
  }

  lemma CountedLags(a: Conf, b: Conf)
    requires Lags(a, b) && Inv(b)
    ensures Lags(Counted(a), Counted(b)) && Inside(Counted(b))
    ensures a.p.state.ChunkSizeStart? ==> Counted(a).nread == Counted(b).nread
  {
  }

  /** The run of `b` over a part, which the lagging `a` gets through. */
  lemma {:induction false} PartLags(s: Settings, a: Conf, b: Conf, data: string, from: nat, n: nat)
    requires Lags(a, b) && Inv(b) && from <= n <= |data| && RunOf(s, a, data[from..n]).Ran?
    ensures var r := RunOf(s, b, data[from..n]);
            (r.Ran? && Lags(RunOf(s, a, data[from..n]).c, r.c) && Inv(r.c)) || Overflows(RunOf(s, b, data[from..]))
  {
    RunLags(s, a, b, data[from..n]);
    RunInv(s, b, data[from..n]);
    assert data[from..] == data[from..n] + data[n..];
    RunConcat(s, b, data[from..n], data[n..]);
  }

  /** A run that does not admit the next byte overflows. */
  lemma {:induction false} MustOverflow(s: Settings, b: Conf, data: string, from: nat, n: nat)
    requires from <= n < |data| && RunOf(s, b, data[from..n]).Ran? && !Admits(s, RunOf(s, b, data[from..n]).c)
    ensures Overflows(RunOf(s, b, data[from..]))
  {
    assert data[from..] == data[from..n] + data[n..];
    RunConcat(s, b, data[from..n], data[n..]);
  }

  lemma {:induction false} PassesLags(s: Settings, a: Conf, b: Conf, data: string, from: nat, n: nat, d: Conf)
      returns (e: Conf)
    requires Lags(a, b) && Inv(b) && Passes(s, a, data, from, n, d)
    ensures Overflows(RunOf(s, b, data[from..])) || (Lags(d, e) && Passes(s, b, data, from, n, e))
  {
    e := d;
    PartLags(s, a, b, data, from, n);
    if !Overflows(RunOf(s, b, data[from..])) {
      var x, y := RunOf(s, a, data[from..n]).c, RunOf(s, b, data[from..n]).c;
      if Admits(s, y) {
        CountedLags(x, y);
        e := ComesLags(s, Counted(x), Counted(y), data[n], d);
      } else {
        MustOverflow(s, b, data, from, n);
      }
    }
  }

  /** A byte is looked at again only where its count still stands. */
  predicate LetsCountStand(p: Parser, r: Outcome) {
    r.Again? ==> !ResetsNread(p.state) && (ParsingHeader(r.p.state) ==> ParsingHeader(p.state))
  }

  lemma BodyLetsCountStand(p: Parser, ch: char)
    ensures LetsCountStand(p, BodyArm(p, ch))
  {
  }

  lemma EndLetsCountStand(s: Settings, p: Parser, ch: char, answer: int)
    requires HeadersEndState(p.state)
    ensures LetsCountStand(p, HeadersEndArm(s, p, ch, answer))
  {
  }

  lemma AgainLetsCountStand(s: Settings, p: Parser, ch: char, answer: int)
    ensures LetsCountStand(p, Arm(s, p, ch, answer))
  {
    if HeadersEndState(p.state) {
      EndLetsCountStand(s, p, ch, answer);
    } else if BodyState(p.state) {
      BodyLetsCountStand(p, ch);
    }
  }

  lemma {:induction false} ComesMid(s: Settings, c: Conf, ch: char, d: Conf)
    requires Mid(s, c) && ComesTo(s, c, ch, d)
    ensures Mid(s, d)
    decreases Rank(c.p.state)
  {
    if d != c {
      AgainLowersRank(s, c.p, ch, s.onHeadersComplete(c.log));
      AgainLetsCountStand(s, c.p, ch, s.onHeadersComplete(c.log));
      ComesMid(s, ArmOf(s, c, ch).c, ch, d);
    }
  }

  lemma {:induction false} PassesMid(s: Settings, b: Conf, data: string, from: nat, n: nat, d: Conf)
    requires Passes(s, b, data, from, n, d)
    ensures Mid(s, d) && Onward(s, b, data, from, n, Back(d))
  {
    ComesMid(s, Counted(RunOf(s, b, data[from..n]).c), data[n], d);
    BackCounts(s, d);
  }

  lemma {:induction false} OnwardLags(s: Settings, a: Conf, b: Conf, data: string, from: nat, n: nat, c: Conf)
      returns (e: Conf)
    requires Lags(a, b) && Inv(b) && Onward(s, a, data, from, n, c)
    ensures Overflows(RunOf(s, b, data[from..])) || (Lags(c, e) && Onward(s, b, data, from, n, e))
  {
    if RunOf(s, a, data[from..n]) == Ran(c) {
      PartLags(s, a, b, data, from, n);
      e := if RunOf(s, b, data[from..n]).Ran? then RunOf(s, b, data[from..n]).c else c;
    } else {
      var d := PassesLags(s, a, b, data, from, n, Counted(c));
      e := Back(d);
      if !Overflows(RunOf(s, b, data[from..])) {
        PassesMid(s, b, data, from, n, d);
      }
    }
  }

  lemma {:induction false} StandsLags(s: Settings, a: Conf, b: Conf, data: string, from: nat, n: nat, now: Conf, k: nat)
    requires Lags(a, b) && Inv(b) && StandsIn(s, a, data, from, n, now, k)
    ensures Tracks(s, b, data, from, n, now)
  {
    var c, e := now.(nread := k), now;
    if now.p.state.HeadersDone? {
      e := PassesLags(s, a, b, data, from, n, c);
    } else {
      e := OnwardLags(s, a, b, data, from, n, c);
    }
    if !Overflows(RunOf(s, b, data[from..])) {
      assert now.(nread := e.nread) == e;
      assert StandsIn(s, b, data, from, n, now, e.nread);
    }
  }

  /** What a parser whose counter lags behind tracks, the other one tracks. */
  lemma {:induction false} TracksLags(s: Settings, a: Conf, b: Conf, data: string, from: nat, n: nat, now: Conf)
    requires Lags(a, b) && Inv(b) && Tracks(s, a, data, from, n, now)
    ensures Tracks(s, b, data, from, n, now)
  {
    RunLags(s, a, b, data[from..]);
    RunInv(s, b, data[from..]);
    if !Overflows(RunOf(s, b, data[from..])) && !LeftBy(s, a, data, from, n, now) {
      var k: nat :| StandsIn(s, a, data, from, n, now, k);
      StandsLags(s, a, b, data, from, n, now, k);
    }
  }

  // ---------- on_headers_complete ----------

  /** No used-up byte leads in front of the state in which it is looked at again after on_headers_complete. */
  lemma NotInHeadersDone(s: Settings, c: Conf, ch: char)
    ensures var r := ArmOf(s, c, ch); r.Consumed? || r.Leaves? ==> !r.c.p.state.HeadersDone?
  {
    ConsumesElsewhere(s, c.p, ch, s.onHeadersComplete(c.log));
  }

  lemma {:induction false} ChainElsewhere(s: Settings, c: Conf, ch: char)
    ensures var r := Chain(s, c, ch); r.Consumed? || r.Leaves? ==> !r.c.p.state.HeadersDone?
    decreases Rank(c.p.state)
  {
    var r := ArmOf(s, c, ch);
    NotInHeadersDone(s, c, ch);
    if r.Repeats? {
      AgainLowersRank(s, c.p, ch, s.onHeadersComplete(c.log));
      ChainElsewhere(s, r.c, ch);
    }
  }

  lemma {:induction false} RunElsewhere(s: Settings, c: Conf, data: string)
    requires data != ""
    ensures var r := RunOf(s, c, data); r.Ran? || r.RanUpgraded? ==> !r.c.p.state.HeadersDone?
    decreases |data|
  {
    ChainElsewhere(s, Counted(c), data[0]);
    var r := Step(s, c, data[0]);
    if r.Consumed? {
      if data[1..] == "" {
        assert RunOf(s, r.c, "") == Ran(r.c);
      } else {
        RunElsewhere(s, r.c, data[1..]);
      }
    }
  }

  lemma HeadersDoneArmOf(s: Settings, c: Conf, ch: char, nread: nat)
    requires c.p.state.HeadersDone?
    ensures ArmOf(s, c.(nread := nread), ch) == ArmOf(s, c, ch) && !ArmOf(s, c, ch).Repeats?
  {
    AgainLetsCountStand(s, c.p, ch, s.onHeadersComplete(c.log));
  }

  /** The counter is reset there, so it makes no difference as long as it is within the limit. */
  lemma HeadersDoneRun(s: Settings, now: Conf, c: Conf, data: string)
    requires c.p.state.HeadersDone? && now == c.(nread := now.nread) && Admits(s, now) && Admits(s, c) && data != ""
    ensures RunOf(s, now, data) == RunOf(s, c, data)
  {
    HeadersDoneArmOf(s, Counted(c), data[0], Counted(now).nread);
    HeadersDoneArmOf(s, Counted(now), data[0], Counted(now).nread);
  }

  lemma {:induction false} HeadersDoneStands(s: Settings, now: Conf, c: Conf, data: string, n: nat, m: nat, after: Conf,
                                             k: nat)
    requires c.p.state.HeadersDone? && now == c.(nread := now.nread) && Admits(s, now) && Admits(s, c) && n < |data|
    requires StandsIn(s, now, data, n, m, after, k) && (n < m || !after.p.state.HeadersDone?)
    ensures StandsIn(s, c, data, n, m, after, k)
  {
    if n == m {
      assert data[n..m] == "";
      HeadersDoneArmOf(s, Counted(now), data[n], Counted(now).nread);
    } else {
      HeadersDoneRun(s, now, c, data[n..m]);
    }
  }

  lemma {:induction false} HeadersDoneTracks(s: Settings, now: Conf, c: Conf, data: string, n: nat, m: nat, after: Conf)
    requires c.p.state.HeadersDone? && now == c.(nread := now.nread) && Admits(s, now) && Admits(s, c) && n < |data|
    requires Tracks(s, now, data, n, m, after) && (n < m || !after.p.state.HeadersDone?)
    ensures Tracks(s, c, data, n, m, after)
  {
    HeadersDoneRun(s, now, c, data[n..]);
    if !Overflows(RunOf(s, c, data[n..])) && !LeftBy(s, now, data, n, m, after) {
      var k: nat :| StandsIn(s, now, data, n, m, after, k);
      HeadersDoneStands(s, now, c, data, n, m, after, k);
    }
  }

  // ---------- resuming ----------

  lemma {:induction false} ComesInside(s: Settings, c: Conf, ch: char, d: Conf)
    requires Inside(c) && ComesTo(s, c, ch, d)
    ensures Inside(d)
    decreases Rank(c.p.state)
  {
    if d != c {
      ArmOfInv(s, c, ch);
      AgainLowersRank(s, c.p, ch, s.onHeadersComplete(c.log));
      ComesInside(s, ArmOf(s, c, ch).c, ch, d);
    }
  }

  lemma CountedInside(c: Conf)
    ensures Inv(c) ==> Inside(Counted(c))
    ensures Inside(Counted(c)) ==> Inv(c)
  {
  }

  lemma {:induction false} PassesInside(s: Settings, b: Conf, data: string, from: nat, n: nat, d: Conf)
    requires Inv(b) && Passes(s, b, data, from, n, d)
    ensures Inside(d)
  {
    var c := RunOf(s, b, data[from..n]).c;
    RunInv(s, b, data[from..n]);
    CountedInside(c);
    ComesInside(s, Counted(c), data[n], d);
  }

  lemma {:induction false} OnwardInv(s: Settings, b: Conf, data: string, from: nat, n: nat, c: Conf)
    requires Inv(b) && Onward(s, b, data, from, n, c)
    ensures Inv(c)
  {
    if RunOf(s, b, data[from..n]) == Ran(c) {
      RunInv(s, b, data[from..n]);
    } else {
      PassesInside(s, b, data, from, n, Counted(c));
      CountedInside(c);
    }
  }

  /** A resumed parser that tracks what is left of the data tracks the whole. */
  lemma {:induction false} TracksAgain(s: Settings, b: Conf, data: string, from: nat, n: nat, now: Conf, k: nat, m: nat,
                                       after: Conf)
    requires Inv(b) && StandsIn(s, b, data, from, n, now, k) && n < |data| && !Stuck(s, now)
    requires Tracks(s, now, data, n, m, after) && (n == m ==> Rank(after.p.state) < Rank(now.p.state))
    ensures Tracks(s, b, data, from, m, after)
  {
    var c := now.(nread := k);
    if now.p.state.HeadersDone? {
      PassesMid(s, b, data, from, n, c);
      HeadersDoneTracks(s, now, Back(c), data, n, m, after);
      TracksOn(s, b, data, from, n, Back(c), m, after);
    } else {
      OnwardInv(s, b, data, from, n, c);
      TracksLags(s, now, c, data, n, m, after);
      TracksOn(s, b, data, from, n, c, m, after);
    }
  }

  /** A parser that stands in a run carries it on to the same end. */
  lemma {:induction false} StandsFollows(s: Settings, b: Conf, data: string, from: nat, n: nat, now: Conf, k: nat)
    requires Inv(b) && StandsIn(s, b, data, from, n, now, k) && !Stuck(s, now)
    ensures Follows(Shift(RunOf(s, now, data[n..]), n - from), RunOf(s, b, data[from..]))
  {
    var c := now.(nread := k);
    if n == |data| {
      assert data[n..] == "" && data[from..n] == data[from..];
    } else if now.p.state.HeadersDone? {
      PassesMid(s, b, data, from, n, c);
      CarryAll(s, b, data, from, n, Back(c));
      HeadersDoneRun(s, now, Back(c), data[n..]);
      FollowsSelf(RunOf(s, b, data[from..]));
    } else {
      OnwardInv(s, b, data, from, n, c);
      CarryAll(s, b, data, from, n, c);
      RunLags(s, now, c, data[n..]);
      FollowsShift(RunOf(s, now, data[n..]), RunOf(s, c, data[n..]), n - from);
    }
  }

  // ---------- other limits, more data ----------

  /** The same settings with a larger header limit. */
  ghost predicate Wider(w: Settings, s: Settings) {
    s.limit <= w.limit && w == s.(limit := w.limit)
  }

  lemma ArmOfWider(w: Settings, s: Settings, c: Conf, ch: char)
    requires Wider(w, s)
    ensures ArmOf(w, c, ch) == ArmOf(s, c, ch)
  {
    ArmWider(w, s, c.p, ch, s.onHeadersComplete(c.log));
  }

  lemma ArmWider(w: Settings, s: Settings, p: Parser, ch: char, answer: int)
    requires Wider(w, s)
    ensures Arm(w, p, ch, answer) == Arm(s, p, ch, answer)
  {
    HeaderArmWider(w, s, p, ch);
    EndArmWider(w, s, p, ch, answer);
  }

  lemma HeaderArmWider(w: Settings, s: Settings, p: Parser, ch: char)
    requires Wider(w, s)
    ensures HeaderArm(w, p, ch) == HeaderArm(s, p, ch)
  {
  }

  lemma EndArmWider(w: Settings, s: Settings, p: Parser, ch: char, answer: int)
    requires Wider(w, s)
    ensures HeadersEndArm(w, p, ch, answer) == HeadersEndArm(s, p, ch, answer)
  {
  }

  lemma {:induction false} ChainWider(w: Settings, s: Settings, c: Conf, ch: char)
    requires Wider(w, s)
    ensures Chain(w, c, ch) == Chain(s, c, ch)
    decreases Rank(c.p.state)
  {
    ArmOfWider(w, s, c, ch);
    var r := ArmOf(s, c, ch);
    if r.Repeats? {
      AgainLowersRank(s, c.p, ch, s.onHeadersComplete(c.log));
      ChainWider(w, s, r.c, ch);
    }
  }

  /** A run within the limit is the same with a larger one. */
  lemma {:induction false} RunWider(w: Settings, s: Settings, c: Conf, data: string)
    requires Wider(w, s) && !Overflows(RunOf(s, c, data))
    ensures RunOf(w, c, data) == RunOf(s, c, data)
    decreases |data|
  {
    if data != "" {
      ChainWider(w, s, Counted(c), data[0]);
      var r := Step(s, c, data[0]);
      if r.Consumed? {
        RunWider(w, s, r.c, data[1..]);
      }
    }
  }

  lemma {:induction false} ComesWider(w: Settings, s: Settings, c: Conf, ch: char, d: Conf)
    requires Wider(w, s) && ComesTo(s, c, ch, d)
    ensures ComesTo(w, c, ch, d)
    decreases Rank(c.p.state)
  {
    if d != c {
      ArmOfWider(w, s, c, ch);
      AgainLowersRank(s, c.p, ch, s.onHeadersComplete(c.log));
      ComesWider(w, s, ArmOf(s, c, ch).c, ch, d);
    }
  }

  lemma {:induction false} PassesWider(w: Settings, s: Settings, b: Conf, data: string, from: nat, n: nat, d: Conf)
    requires Wider(w, s) && Passes(s, b, data, from, n, d)
    ensures Passes(w, b, data, from, n, d)
  {
    RunWider(w, s, b, data[from..n]);
    ComesWider(w, s, Counted(RunOf(s, b, data[from..n]).c), data[n], d);
  }

  lemma {:induction false} OnwardWider(w: Settings, s: Settings, b: Conf, data: string, from: nat, n: nat, c: Conf)
    requires Wider(w, s) && Onward(s, b, data, from, n, c)
    ensures Onward(w, b, data, from, n, c)
  {
    if RunOf(s, b, data[from..n]) == Ran(c) {
      RunWider(w, s, b, data[from..n]);
    } else {
      PassesWider(w, s, b, data, from, n, Counted(c));
    }
  }

  lemma {:induction false} ReachedWider(w: Settings, s: Settings, b: Conf, data: string, from: nat, n: nat, now: Conf)
    requires Wider(w, s) && Reached(s, b, data, from, n, now)
    ensures Reached(w, b, data, from, n, now)
  {
    if LeftBy(s, b, data, from, n, now) {
      RunWider(w, s, b, data[from..]);
    } else {
      var k: nat :| StandsIn(s, b, data, from, n, now, k);
      if now.p.state.HeadersDone? {
        PassesWider(w, s, b, data, from, n, now.(nread := k));
      } else {
        OnwardWider(w, s, b, data, from, n, now.(nread := k));
      }
      assert StandsIn(w, b, data, from, n, now, k);
    }
  }

  /** Bytes before and behind make no difference. */
  lemma {:induction false} TracksWithin(s: Settings, b: Conf, data: string, n: nat, now: Conf, whole: string, at: nat)
    requires at + |data| <= |whole| && whole[at..at + |data|] == data && Tracks(s, b, data, 0, n, now)
    ensures Tracks(s, b, whole, at, at + n, now)
  {
    assert whole[at..] == data + whole[at + |data|..];
    assert data[0..] == data;
    RunConcat(s, b, data, whole[at + |data|..]);
    assert whole[at..at + n] == data[0..n] && (n < |data| ==> whole[at + n] == data[n]);
    if !Overflows(RunOf(s, b, data)) && !LeftBy(s, b, data, 0, n, now) {
      var k: nat :| StandsIn(s, b, data, 0, n, now, k);
      assert StandsIn(s, b, whole, at, at + n, now, k);
    }
  }

  // ---------- pauses ----------

  /** The parser was paused in the callback for a value behind which the bytes used are over the limit. In a buffer that
      is longer than the limit the inner loop may have missed a byte; in all others the parser stands in the run
      beyond the limit. */
  ghost predicate PausesOver(s: Settings, b: Conf, data: string, from: nat, n: nat, now: Conf) {
    from <= n <= |data| && now.p.state.HeaderAlmostDone? && Overflows(RunOf(s, b, data[from..n])) &&
    forall w :: Wider(w, s) && |data| <= s.limit ==> Tracks(w, b, data, from, n, now)
  }

  /** Where a call stops that is paused. */
  ghost predicate PausesIn(s: Settings, b: Conf, data: string, from: nat, n: nat, now: Conf) {
    from <= n <= |data| && (Reached(s, b, data, from, n, now) || PausesOver(s, b, data, from, n, now))
  }

  lemma {:induction false} PausesOn(s: Settings, b: Conf, data: string, from: nat, m: nat, c: Conf, n: nat, now: Conf)
    requires Onward(s, b, data, from, m, c) && PausesIn(s, c, data, m, n, now)
    ensures PausesIn(s, b, data, from, n, now)
  {
    if Reached(s, c, data, m, n, now) {
      ReachedOn(s, b, data, from, m, c, n, now);
    } else {
      assert m < n by { assert data[m..m] == ""; }
      Carry(s, b, data, from, m, c, n);
      forall w | Wider(w, s) && |data| <= s.limit ensures Tracks(w, b, data, from, n, now) {
        OnwardWider(w, s, b, data, from, m, c);
        TracksOn(w, b, data, from, m, c, n, now);
      }
    }
  }

  lemma {:induction false} OverflowsLater(s: Settings, b: Conf, data: string, from: nat, n: nat)
    requires from <= n <= |data| && Overflows(RunOf(s, b, data[from..n]))
    ensures Overflows(RunOf(s, b, data[from..]))
  {
    assert data[from..] == data[from..n] + data[n..];
    RunConcat(s, b, data[from..n], data[n..]);
  }

  /** So a paused parser is on the track of the run for its own limit, and mostly for any larger one. */
  lemma {:induction false} PausesTrack(s: Settings, b: Conf, data: string, from: nat, n: nat, now: Conf, w: Settings)
    requires PausesIn(s, b, data, from, n, now) && Wider(w, s) && (w == s || |data| <= s.limit)
    ensures Tracks(w, b, data, from, n, now)
  {
    if Reached(s, b, data, from, n, now) {
      ReachedWider(w, s, b, data, from, n, now);
    } else if w == s {
      OverflowsLater(s, b, data, from, n);
    }
  }

  // ---------- failures ----------

  /** The run ends with this error, unless at the header limit. */
  predicate FailsWith(r: Run, e: ErrorCode) {
    r.RanFailed? && (Overflows(r) || r.errno == e)
  }

  /** Where a call fails: in a buffer within the header limit, so does the run beyond the limit. */
  ghost predicate FailsIn(s: Settings, b: Conf, data: string, from: nat, e: ErrorCode)
    requires from <= |data|
  {
    forall w :: Wider(w, s) && (w == s || |data| <= s.limit) ==> FailsWith(RunOf(w, b, data[from..]), e)
  }

  lemma {:induction false} FailsAnyway(s: Settings, b: Conf, data: string, from: nat, e: ErrorCode)
    requires from <= |data| && FailsWith(RunOf(s, b, data[from..]), e) && !Overflows(RunOf(s, b, data[from..]))
    ensures FailsIn(s, b, data, from, e)
  {
    forall w | Wider(w, s) ensures FailsWith(RunOf(w, b, data[from..]), e) {
      RunWider(w, s, b, data[from..]);
    }
  }

  lemma {:induction false} FailsLater(s: Settings, b: Conf, data: string, from: nat, m: nat, c: Conf, e: ErrorCode)
    requires Onward(s, b, data, from, m, c) && m < |data| && FailsWith(RunOf(s, c, data[m..]), e)
    ensures FailsWith(RunOf(s, b, data[from..]), e)
  {
    CarryAll(s, b, data, from, m, c);
  }

  lemma {:induction false} FailsOn(s: Settings, b: Conf, data: string, from: nat, m: nat, c: Conf, e: ErrorCode)
    requires Onward(s, b, data, from, m, c) && m < |data| && FailsIn(s, c, data, m, e)
    ensures FailsIn(s, b, data, from, e)
  {
    forall w | Wider(w, s) && (w == s || |data| <= s.limit) ensures FailsWith(RunOf(w, b, data[from..]), e) {
      OnwardWider(w, s, b, data, from, m, c);
      FailsLater(w, b, data, from, m, c, e);
    }
  }

  /** An error at the header limit is that of the limit, or one that the run meets beyond it. */
  ghost predicate FailsBeyond(s: Settings, b: Conf, data: string, from: nat, e: ErrorCode) {
    from <= |data| && Overflows(RunOf(s, b, data[from..])) && (e == HeaderOverflow || FailsIn(s, b, data, from, e))
  }

  lemma {:induction false} FailsBeyondOn(s: Settings, b: Conf, data: string, from: nat, m: nat, c: Conf, e: ErrorCode)
    requires Onward(s, b, data, from, m, c) && m < |data| && FailsBeyond(s, c, data, m, e)
    ensures FailsBeyond(s, b, data, from, e)
  {
    CarryAll(s, b, data, from, m, c);
    if e != HeaderOverflow {
      FailsOn(s, b, data, from, m, c, e);
    }
  }

  // ---------- how far the counter gets ----------

  lemma {:induction false} ChainCounts(s: Settings, c: Conf, ch: char)
    ensures var r := Chain(s, c, ch);
            (r.Consumed? ==> r.c.nread <= c.nread) && (r.Failed? ==> r.errno != HeaderOverflow)
    decreases Rank(c.p.state)
  {
    var r := ArmOf(s, c, ch);
    NoArmOverflows(s, c.p, ch, s.onHeadersComplete(c.log));
    if r.Repeats? {
      AgainLowersRank(s, c.p, ch, s.onHeadersComplete(c.log));
      ChainCounts(s, r.c, ch);
    }
  }

  /** No more bytes are counted than there are, so a short input does not meet the limit. */
  lemma {:induction false} RunCounts(s: Settings, c: Conf, data: string)
    ensures var r := RunOf(s, c, data);
            (r.Ran? ==> r.c.nread <= c.nread + |data|) && (c.nread + |data| <= s.limit ==> !Overflows(r))
    decreases |data|
  {
    if data != "" {
      ChainCounts(s, Counted(c), data[0]);
      var r := Step(s, c, data[0]);
      if r.Consumed? {
        RunCounts(s, r.c, data[1..]);
      }
    }
  }

  lemma {:induction false} ComesCounts(s: Settings, c: Conf, ch: char, d: Conf)
    requires ComesTo(s, c, ch, d)
    ensures d.nread <= c.nread
    decreases Rank(c.p.state)
  {
    if d != c {
      AgainLowersRank(s, c.p, ch, s.onHeadersComplete(c.log));
      ComesCounts(s, ArmOf(s, c, ch).c, ch, d);
    }
  }

  lemma {:induction false} PassesCounts(s: Settings, b: Conf, data: string, from: nat, n: nat, d: Conf)
    requires Passes(s, b, data, from, n, d)
    ensures d.nread <= b.nread + (n + 1 - from)
  {
    RunCounts(s, b, data[from..n]);
    ComesCounts(s, Counted(RunOf(s, b, data[from..n]).c), data[n], d);
  }
}
