/** An embedder that cuts its input into buffers and answers every pause by un-pausing the parser and
    feeding it the bytes that are left. However the input is cut, and wherever the callbacks pause, the
    outcome is that of the per-byte form over the whole input. */
module HttpParserDrive {
  import opened Sequences
  import opened HttpBytes
  import opened HttpParserTypes
  import opened HttpParserRun
  import opened HttpParserInvariant
  import opened HttpParserGrammar
  import opened HttpParserLag
  import opened HttpParserReach
  import opened HttpParserFrame
  import opened HttpParserHeaderSwitch
  import opened HttpParserExecute

  // ---------- what has been done ----------

  /** The same settings with room for everything: the run over the whole does not meet this limit. */
  function Roomy(s: Settings, start: Conf, whole: string): Settings {
    s.(limit := s.limit + start.nread + |whole|)
  }

  /** No buffer is longer than the header limit. */
  ghost predicate ShortBuffers(s: Settings, buffers: seq<string>) {
    forall b :: b in buffers ==> |b| <= s.limit
  }

  /** With room for everything the run is the same, unless it meets the header limit without. */
  lemma {:induction false} RoomForAll(s: Settings, start: Conf, whole: string)
    ensures !Overflows(RunOf(Roomy(s, start, whole), start, whole))
    ensures Overflows(RunOf(s, start, whole)) || RunOf(Roomy(s, start, whole), start, whole) == RunOf(s, start, whole)
  {
    RunCounts(Roomy(s, start, whole), start, whole);
    if !Overflows(RunOf(s, start, whole)) {
      RunWider(Roomy(s, start, whole), s, start, whole);
    }
  }

  /** The run has left for another protocol. */
  predicate HasLeft(r: Run, n: nat) {
    r.RanUpgraded? && r.used <= n
  }

  /** The parser can be fed from here. */
  predicate Ready(s: Settings, start: Conf, n: nat, now: Conf) {
    AtStart(start, n, now) || !Stuck(s, now)
  }

  /** The run over the whole, having used up the bytes before `n`, stands where the fed parser does. */
  ghost predicate Further(w: Settings, start: Conf, whole: string, n: nat, now: Conf) {
    n <= |whole| && (HasLeft(RunOf(w, start, whole), n) || Tracks(w, start, whole, 0, n, now))
  }

  predicate AtStart(start: Conf, n: nat, now: Conf) {
    n == 0 && now == start
  }

  ghost predicate OnTrack(w: Settings, start: Conf, whole: string, n: nat, now: Conf) {
    AtStart(start, n, now) || Further(w, start, whole, n, now)
  }

  ghost predicate OnTracks(s: Settings, buffers: seq<string>, start: Conf, whole: string, n: nat, now: Conf) {
    AtStart(start, n, now) || AllFurther(s, buffers, start, whole, n, now)
  }

  /** With the parser's own limit, and, if the buffers are short, with room for everything. */
  ghost predicate AllFurther(s: Settings, buffers: seq<string>, start: Conf, whole: string, n: nat, now: Conf) {
    Further(s, start, whole, n, now) &&
    (ShortBuffers(s, buffers) ==> Further(Roomy(s, start, whole), start, whole, n, now))
  }

  /** The same without pauses. */
  predicate Exactly(s: Settings, start: Conf, whole: string, n: nat, now: Conf) {
    n <= |whole| && (HasLeft(RunOf(s, start, whole), n) || RunOf(s, start, whole[..n]) == Ran(now))
  }

  /** The buffer is the part of the whole at `n`. */
  predicate PartAt(whole: string, n: nat, data: string) {
    n + |data| <= |whole| && whole[n..n + |data|] == data
  }

  /** A run that stops in a part stops there over all that is left. */
  lemma {:induction false} PartRun(w: Settings, before: Conf, whole: string, n: nat, data: string)
    requires PartAt(whole, n, data) && !RunOf(w, before, data).Ran?
    ensures RunOf(w, before, whole[n..]) == RunOf(w, before, data)
  {
    assert whole[n..] == data + whole[n + |data|..];
    RunConcat(w, before, data, whole[n + |data|..]);
  }

  /** What the run of the fed parser over the rest says about the run over the whole. */
  lemma {:induction false} TrackFollows(w: Settings, start: Conf, whole: string, n: nat, now: Conf)
    requires Inv(start) && OnTrack(w, start, whole, n, now) && n <= |whole| && Ready(w, start, n, now)
    ensures HasLeft(RunOf(w, start, whole), n) ||
            Follows(Shift(RunOf(w, now, whole[n..]), n), RunOf(w, start, whole)) || Overflows(RunOf(w, start, whole))
  {
    assert whole[0..] == whole;
    RunInv(w, start, whole);
    if AtStart(start, n, now) {
      FollowsSelf(RunOf(w, start, whole));
    } else if !HasLeft(RunOf(w, start, whole), n) && !Overflows(RunOf(w, start, whole)) {
      var k: nat :| StandsIn(w, start, whole, 0, n, now, k);
      StandsFollows(w, start, whole, 0, n, now, k);
    }
  }

  /** A call that stops where the run of the parser it began with stands. */
  lemma {:induction false} TrackedCall(w: Settings, start: Conf, whole: string, n: nat, before: Conf, data: string,
                                       used: nat, after: Conf)
    requires Inv(start) && PartAt(whole, n, data) && data != "" && OnTrack(w, start, whole, n, before)
    requires Ready(w, start, n, before) && Tracks(w, before, data, 0, used, after)
    requires used == 0 ==> Rank(after.p.state) < Rank(before.p.state)
    ensures Further(w, start, whole, n + used, after)
  {
    TracksWithin(w, before, data, used, after, whole, n);
    assert whole[0..] == whole;
    if !AtStart(start, n, before) && !HasLeft(RunOf(w, start, whole), n) && !Overflows(RunOf(w, start, whole)) {
      var k: nat :| StandsIn(w, start, whole, 0, n, before, k);
      TracksAgain(w, start, whole, 0, n, before, k, n + used, after);
    }
  }

  /** The buffer, or what is left of it. */
  predicate FromOne(data: string, buffers: seq<string>) {
    exists b :: b in buffers && |data| <= |b|
  }

  lemma {:induction false} TrackedCalls(s: Settings, buffers: seq<string>, start: Conf, whole: string, n: nat,
                                        before: Conf, data: string, used: nat, after: Conf)
    requires Inv(start) && PartAt(whole, n, data) && FromOne(data, buffers) && data != ""
    requires OnTracks(s, buffers, start, whole, n, before) && Ready(s, start, n, before)
    requires PausesIn(s, before, data, 0, used, after)
    requires used == 0 ==> Rank(after.p.state) < Rank(before.p.state)
    ensures AllFurther(s, buffers, start, whole, n + used, after)
  {
    PausesTrack(s, before, data, 0, used, after, s);
    TrackedCall(s, start, whole, n, before, data, used, after);
    if ShortBuffers(s, buffers) {
      var w := Roomy(s, start, whole);
      PausesTrack(s, before, data, 0, used, after, w);
      TrackedCall(w, start, whole, n, before, data, used, after);
    }
  }

  /** A call that uses up its buffer stands where the run does, and so exactly. */
  lemma {:induction false} UsedUp(s: Settings, before: Conf, data: string, after: Conf)
    requires data != "" && Executed(s, before, data, after, OK, |data|)
    ensures PausesIn(s, before, data, 0, |data|, after) && !Stuck(s, after)
  {
    var r := RunOf(s, before, data);
    RunElsewhere(s, before, data);
    assert data[0..] == data && data[0..|data|] == data;
    if r == Ran(after) {
      assert after.(nread := after.nread) == after;
      assert StandsIn(s, before, data, 0, |data|, after, after.nread);
    }
  }

  lemma {:induction false} StaysExact(s: Settings, start: Conf, whole: string, n: nat, before: Conf, data: string,
                                      after: Conf)
    requires PartAt(whole, n, data) && Exactly(s, start, whole, n, before)
    requires Executed(s, before, data, after, OK, |data|)
    ensures Exactly(s, start, whole, n + |data|, after)
  {
    if RunOf(s, start, whole[..n]) == Ran(before) {
      var m := n + |data|;
      assert whole[..m] == whole[..n] + data && whole == whole[..m] + whole[m..];
      RunConcat(s, start, whole[..n], data);
      RunConcat(s, start, whole[..m], whole[m..]);
    }
  }

  /** How the run over the whole ends when a call fails. */
  predicate FailsToo(r: Run, e: ErrorCode) {
    r.RanUpgraded? || FailsWith(r, e)
  }

  lemma {:induction false} TrackedFailure(w: Settings, start: Conf, whole: string, n: nat, before: Conf, data: string,
                                          e: ErrorCode)
    requires Inv(start) && PartAt(whole, n, data) && OnTrack(w, start, whole, n, before) && Ready(w, start, n, before)
    requires FailsWith(RunOf(w, before, data), e)
    ensures FailsToo(RunOf(w, start, whole), e)
  {
    PartRun(w, before, whole, n, data);
    TrackFollows(w, start, whole, n, before);
    RunInv(w, start, whole);
  }

  /** The run over the whole fails with the parser's error, or at the header limit, or has left for another protocol. */
  ghost predicate ErrsToo(s: Settings, buffers: seq<string>, start: Conf, whole: string, e: ErrorCode) {
    FailsToo(RunOf(s, start, whole), e) &&
    (e != HeaderOverflow && ShortBuffers(s, buffers) ==> FailsToo(RunOf(Roomy(s, start, whole), start, whole), e))
  }

  lemma {:induction false} TrackedFailures(s: Settings, buffers: seq<string>, start: Conf, whole: string, n: nat,
                                           before: Conf, data: string, after: Conf, e: ErrorCode, used: nat)
    requires Inv(start) && PartAt(whole, n, data) && FromOne(data, buffers)
    requires OnTracks(s, buffers, start, whole, n, before) && Ready(s, start, n, before)
    requires Executed(s, before, data, after, Err(e), used)
    ensures ErrsToo(s, buffers, start, whole, e)
  {
    assert data[0..] == data;
    TrackedFailure(s, start, whole, n, before, data, e);
    if e != HeaderOverflow && ShortBuffers(s, buffers) {
      if !Overflows(RunOf(s, before, data)) {
        FailsAnyway(s, before, data, 0, e);
      }
      TrackedFailure(Roomy(s, start, whole), start, whole, n, before, data, e);
    }
  }

  /** A call that leaves for another protocol. */
  lemma {:induction false} TrackedUpgrade(s: Settings, start: Conf, whole: string, n: nat, before: Conf, data: string,
                                          after: Conf, used: nat)
    requires Inv(start) && PartAt(whole, n, data) && OnTrack(s, start, whole, n, before) && Ready(s, start, n, before)
    requires RunOf(s, before, data) == RanUpgraded(after, used)
    ensures RunOf(s, start, whole).RanUpgraded? || Overflows(RunOf(s, start, whole))
  {
    PartRun(s, before, whole, n, data);
    TrackFollows(s, start, whole, n, before);
    RunInv(s, start, whole);
  }

  // ---------- feeding ----------

  /** How the feeding ended: with all bytes used up after some pauses, at a pause that cannot be resumed, in an error,
      or at an upgrade. */
  datatype Fed = Done(pauses: nat) | GotStuck | InError | AtUpgrade

  /** The run over the whole comes to on_headers_complete where the parser does, with at least its count, unless it has
      run over the limit or left for another protocol before. */
  ghost predicate StallsIn(w: Settings, start: Conf, whole: string, now: Conf) {
    var r := RunOf(w, start, whole);
    r.RanUpgraded? || Overflows(r) ||
    exists n: nat, k: nat :: Passes(w, start, whole, 0, n, now.(nread := k)) && now.nread <= k
  }

  ghost predicate AllStall(s: Settings, buffers: seq<string>, start: Conf, whole: string, now: Conf) {
    StallsIn(s, start, whole, now) &&
    (ShortBuffers(s, buffers) ==> StallsIn(Roomy(s, start, whole), start, whole, now))
  }

  lemma {:induction false} StallsThere(w: Settings, start: Conf, whole: string, n: nat, now: Conf)
    requires Further(w, start, whole, n, now) && now.p.state.HeadersDone?
    ensures StallsIn(w, start, whole, now)
  {
    assert whole[0..] == whole;
    var r := RunOf(w, start, whole);
    if !r.RanUpgraded? && !Overflows(r) {
      var k: nat :| StandsIn(w, start, whole, 0, n, now, k);
      assert Passes(w, start, whole, 0, n, now.(nread := k));
    }
  }

  lemma {:induction false} StuckThere(s: Settings, buffers: seq<string>, start: Conf, whole: string, n: nat, now: Conf)
    requires AllFurther(s, buffers, start, whole, n, now) && now.p.state.HeadersDone?
    ensures AllStall(s, buffers, start, whole, now)
  {
    StallsThere(s, start, whole, n, now);
    if ShortBuffers(s, buffers) {
      StallsThere(Roomy(s, start, whole), start, whole, n, now);
    }
  }

  /** What is known of the parser `now` where feeding stands, with the bytes before `n` used up, or has ended. */
  ghost predicate StandsAs(s: Settings, now: Conf, errno: Errno, buffers: seq<string>, start: Conf, whole: string,
                           n: nat, fed: Fed)
  {
    match fed
    case Done(pauses) =>
      errno == OK && Ready(s, start, n, now) && OnTracks(s, buffers, start, whole, n, now) &&
      (pauses == 0 ==> Exactly(s, start, whole, n, now))
    case GotStuck => errno == Paused && Stuck(s, now) && AllStall(s, buffers, start, whole, now)
    case InError => errno.Err? && ErrsToo(s, buffers, start, whole, errno.code)
    case AtUpgrade => errno == OK && (RunOf(s, start, whole).RanUpgraded? || Overflows(RunOf(s, start, whole)))
  }

  ghost predicate Stands(parser: HttpParser, buffers: seq<string>, start: Conf, whole: string, n: nat, fed: Fed)
    reads parser
  {
    StandsAs(parser.env.s, parser.View(), parser.errno, buffers, start, whole, n, fed)
  }

  /** A call with what is left of a buffer, which lies in the whole at `n`. */
  ghost predicate Called(s: Settings, buffers: seq<string>, start: Conf, whole: string, n: nat, before: Conf,
                         data: string, pauses: nat) {
    Inv(start) && PartAt(whole, n, data) && FromOne(data, buffers) && data != "" &&
    StandsAs(s, before, OK, buffers, start, whole, n, Done(pauses))
  }

  lemma {:induction false} PausedThere(s: Settings, buffers: seq<string>, start: Conf, whole: string, n: nat,
                                       before: Conf, data: string, pauses: nat, now: Conf, used: nat)
    requires Called(s, buffers, start, whole, n, before, data, pauses)
    requires Executed(s, before, data, now, Paused, used)
    ensures AllFurther(s, buffers, start, whole, n + used, now)
  {
    TrackedCalls(s, buffers, start, whole, n, before, data, used, now);
  }

  /** What that means for the answer. */
  lemma {:induction false} AsStuck(s: Settings, buffers: seq<string>, start: Conf, whole: string, n: nat, now: Conf,
                                   standing: Errno, fed: Fed)
    requires AllFurther(s, buffers, start, whole, n, now) && Stuck(s, now) && standing == Paused && fed == GotStuck
    ensures StandsAs(s, now, standing, buffers, start, whole, n, fed)
  {
    StuckThere(s, buffers, start, whole, n, now);
  }

  lemma AsResumed(s: Settings, buffers: seq<string>, start: Conf, whole: string, n: nat, now: Conf, standing: Errno,
                  fed: Fed)
    requires AllFurther(s, buffers, start, whole, n, now) && !Stuck(s, now)
    requires standing == OK && fed.Done? && fed.pauses > 0
    ensures StandsAs(s, now, standing, buffers, start, whole, n, fed)
  {
  }

  lemma {:induction false} WentThrough(s: Settings, buffers: seq<string>, start: Conf, whole: string, n: nat,
                                       before: Conf, data: string, pauses: nat, now: Conf, used: nat, fed: Fed,
                                       standing: Errno)
    requires Called(s, buffers, start, whole, n, before, data, pauses)
    requires Executed(s, before, data, now, OK, used) && fed == if used < |data| then AtUpgrade else Done(pauses)
    requires standing == OK
    ensures StandsAs(s, now, standing, buffers, start, whole, n + used, fed)
  {
    if used < |data| {
      TrackedUpgrade(s, start, whole, n, before, data, now, used);
    } else {
      UsedUp(s, before, data, now);
      TrackedCalls(s, buffers, start, whole, n, before, data, used, now);
      if pauses == 0 {
        StaysExact(s, start, whole, n, before, data, now);
      }
    }
  }

  lemma {:induction false} FailedThere(s: Settings, buffers: seq<string>, start: Conf, whole: string, n: nat,
                                       before: Conf, data: string, pauses: nat, now: Conf, e: ErrorCode, used: nat,
                                       standing: Errno, fed: Fed)
    requires Called(s, buffers, start, whole, n, before, data, pauses)
    requires Executed(s, before, data, now, Err(e), used)
    requires standing == Err(e) && fed == InError
    ensures StandsAs(s, now, standing, buffers, start, whole, n + used, fed)
  {
    TrackedFailures(s, buffers, start, whole, n, before, data, now, e, used);
  }

  /** No callback asks for a pause. */
  ghost predicate NeverPauses(env: Env) {
    forall t :: !env.pauses(t)
  }

  ghost predicate Unpaused(fed: Fed, pauses: nat) {
    fed != GotStuck && (fed.Done? ==> fed.pauses == pauses)
  }

  /** The embedder's answer to a call. */
  function Answer(stuck: bool, errno: Errno, leaves: bool, pauses: nat): Fed {
    match errno
    case Paused => if stuck then GotStuck else Done(pauses + 1)
    case Err(_) => InError
    case OK => if leaves then AtUpgrade else Done(pauses)
  }

  /** What the error code is after the answer. */
  function Standing(errno: Errno, fed: Fed): Errno {
    if fed.Done? then OK else errno
  }

  lemma {:induction false} PausedAs(s: Settings, buffers: seq<string>, start: Conf, whole: string, n: nat, now: Conf,
                                    pauses: nat, fed: Fed, standing: Errno)
    requires AllFurther(s, buffers, start, whole, n, now)
    requires fed == (if Stuck(s, now) then GotStuck else Done(pauses + 1)) && standing == Standing(Paused, fed)
    ensures StandsAs(s, now, standing, buffers, start, whole, n, fed)
  {
    if Stuck(s, now) {
      AsStuck(s, buffers, start, whole, n, now, standing, fed);
    } else {
      AsResumed(s, buffers, start, whole, n, now, standing, fed);
    }
  }

  lemma {:induction false} Answered(s: Settings, buffers: seq<string>, start: Conf, whole: string, n: nat,
                                    before: Conf, data: string, pauses: nat, now: Conf, errno: Errno, used: nat,
                                    fed: Fed, standing: Errno)
    requires Called(s, buffers, start, whole, n, before, data, pauses) && Executed(s, before, data, now, errno, used)
    requires fed == Answer(Stuck(s, now), errno, used < |data|, pauses) && standing == Standing(errno, fed)
    ensures StandsAs(s, now, standing, buffers, start, whole, n + used, fed)
  {
    if errno == Paused {
      assert AllFurther(s, buffers, start, whole, n + used, now) by {
        PausedThere(s, buffers, start, whole, n, before, data, pauses, now, used);
      }
      PausedAs(s, buffers, start, whole, n + used, now, pauses, fed, standing);
    } else if errno == OK {
      WentThrough(s, buffers, start, whole, n, before, data, pauses, now, used, fed, standing);
    } else {
      FailedThere(s, buffers, start, whole, n, before, data, pauses, now, errno.code, used, standing, fed);
    }
  }

  lemma AnsweredRank(s: Settings, before: Conf, data: string, pauses: nat, now: Conf, errno: Errno, used: nat)
    requires data != "" && Executed(s, before, data, now, errno, used) && used == 0
    requires Answer(Stuck(s, now), errno, used < |data|, pauses).Done?
    ensures Rank(now.p.state) < Rank(before.p.state)
  {
  }

  /** Feeding stands in front of `data`, what is left of a buffer. */
  ghost predicate Feeding(parser: HttpParser, buffers: seq<string>, start: Conf, whole: string, n: nat, data: string,
                          fed: Fed)
    reads parser
  {
    Inv(start) && PartAt(whole, n, data) && FromOne(data, buffers) && Stands(parser, buffers, start, whole, n, fed)
  }

  lemma IsCalled(parser: HttpParser, buffers: seq<string>, start: Conf, whole: string, n: nat, data: string, so: Fed)
    requires Feeding(parser, buffers, start, whole, n, data, so) && so.Done? && data != ""
    ensures parser.errno == OK
    ensures Called(parser.env.s, buffers, start, whole, n, parser.View(), data, so.pauses)
  {
  }

  /** One call, and the answer to it. */
  method FeedOnce(parser: HttpParser, data: string, ghost buffers: seq<string>, ghost start: Conf,
                  ghost whole: string, ghost n: nat, so: Fed)
      returns (used: nat, fed: Fed)
    requires parser.Valid() && Sizes(parser.env.s, data) && data != ""
    requires Feeding(parser, buffers, start, whole, n, data, so) && so.Done?
    modifies parser
    ensures parser.Valid() && parser.ended == old(parser.ended) && used <= |data|
    ensures Feeding(parser, buffers, start, whole, n + used, data[used..], fed)
    ensures fed.Done? && used == 0 ==> Rank(parser.p.state) < Rank(old(parser.p.state))
    ensures NeverPauses(parser.env) && Unpaused(so, 0) ==> Unpaused(fed, 0)
  {
    ghost var s, before := parser.env.s, parser.View();
    IsCalled(parser, buffers, start, whole, n, data, so);
    used := parser.Execute(data);
    var stuck := parser.p.state.HeadersDone? && parser.nread >= parser.env.s.limit;
    fed := Answer(stuck, parser.errno, used < |data|, so.pauses);
    Answered(s, buffers, start, whole, n, before, data, so.pauses, parser.View(), parser.errno, used, fed,
             Standing(parser.errno, fed));
    if fed.Done? && used == 0 {
      AnsweredRank(s, before, data, so.pauses, parser.View(), parser.errno, used);
    }
    WhatIsLeft(data, buffers, whole, n, used);
    if fed.Done? && parser.errno == Paused {
      parser.Pause(false);
    }
  }

  /** Feeds one buffer, or what is left of it, which lies in the whole from `n` to `m`. */
  method FeedBuffer(parser: HttpParser, buffer: string, ghost buffers: seq<string>, ghost start: Conf,
                    ghost whole: string, ghost n: nat, ghost m: nat, so: Fed)
      returns (fed: Fed)
    requires parser.Valid() && Sizes(parser.env.s, buffer) && m == n + |buffer|
    requires Feeding(parser, buffers, start, whole, n, buffer, so)
    modifies parser
    ensures parser.Valid() && parser.ended == old(parser.ended)
    ensures Stands(parser, buffers, start, whole, m, fed)
    ensures NeverPauses(parser.env) && Unpaused(so, 0) ==> Unpaused(fed, 0)
    decreases so.Done?, |buffer|, Rank(parser.p.state)
  {
    if !so.Done? || buffer == "" {
      fed := so;
      StandsStill(parser, buffers, start, whole, n, m, fed);
    } else {
      var used, now := FeedOnce(parser, buffer, buffers, start, whole, n, so);
      fed := FeedBuffer(parser, buffer[used..], buffers, start, whole, n + used, m, now);
    }
  }

  /** Where feeding has ended for good does not depend on what is still to come. */
  lemma StandsStill(parser: HttpParser, buffers: seq<string>, start: Conf, whole: string, n: nat, m: nat, fed: Fed)
    requires Stands(parser, buffers, start, whole, n, fed) && (n == m || !fed.Done?)
    ensures Stands(parser, buffers, start, whole, m, fed)
  {
  }

  lemma WhatIsLeft(buffer: string, buffers: seq<string>, whole: string, n: nat, used: nat)
    requires PartAt(whole, n, buffer) && FromOne(buffer, buffers) && used <= |buffer|
    ensures PartAt(whole, n + used, buffer[used..]) && FromOne(buffer[used..], buffers)
  {
    assert whole[n + used..n + |buffer|] == whole[n..n + |buffer|][used..];
  }

  /** The fed parser got as far as this run. */
  predicate GotThrough(r: Run, now: Conf) {
    r.RanUpgraded? || Overflows(r) || (r.Ran? && Lags(now, r.c))
  }

  /** How the parser stands when all has been fed: with all used up, where the run does, and exactly there if nothing
      has paused; stuck, in on_headers_complete at the limit, as the run comes to it; in an error in which the run
      ends too; or where another protocol begins. The run may also have met the header limit, or have left for another
      protocol before; a larger limit, with which it does not meet it, makes no other difference. */
  ghost predicate EndsAs(parser: HttpParser, buffers: seq<string>, start: Conf, fed: Fed)
    reads parser
  {
    var s, now, whole := parser.env.s, parser.View(), Flatten(buffers);
    var r := RunOf(s, start, whole);
    match fed
    case Done(pauses) =>
      parser.errno == OK && (pauses == 0 ==> r == Ran(now) || r.RanUpgraded?) && GotThrough(r, now) &&
      (ShortBuffers(s, buffers) ==> var free := RunOf(Roomy(s, start, whole), start, whole);
                                    !Overflows(free) && GotThrough(free, now))
    case GotStuck =>
      parser.errno == Paused && now.p.state.HeadersDone? && now.nread == s.limit &&
      (r.RanUpgraded? || Overflows(r) || exists n: nat :: Passes(s, start, whole, 0, n, now)) &&
      (start.nread + |whole| < s.limit ==> r.RanUpgraded?) && AllStall(s, buffers, start, whole, now)
    case InError => parser.errno.Err? && ErrsToo(s, buffers, start, whole, parser.errno.code)
    case AtUpgrade => parser.errno == OK && (r.RanUpgraded? || Overflows(r))
  }

  lemma {:induction false} GotThroughAll(w: Settings, start: Conf, whole: string, now: Conf)
    requires OnTrack(w, start, whole, |whole|, now)
    ensures GotThrough(RunOf(w, start, whole), now)
  {
    assert whole[0..] == whole && whole[0..|whole|] == whole;
  }

  lemma {:induction false} StallsExactly(s: Settings, start: Conf, whole: string, now: Conf)
    requires StallsIn(s, start, whole, now) && Stuck(s, now)
    ensures var r := RunOf(s, start, whole);
            r.RanUpgraded? || Overflows(r) ||
            exists n: nat :: Passes(s, start, whole, 0, n, now) && now.nread == s.limit
  {
    var r := RunOf(s, start, whole);
    if !r.RanUpgraded? && !Overflows(r) {
      var n: nat, k: nat :| Passes(s, start, whole, 0, n, now.(nread := k)) && now.nread <= k;
      PassesMid(s, start, whole, 0, n, now.(nread := k));
      assert now.(nread := k) == now;
    }
  }

  /** The loop in front of the i-th buffer, with the bytes before `n` used up. */
  ghost predicate AtBuffer(buffers: seq<string>, whole: string, i: nat, n: nat) {
    i <= |buffers| && n <= |whole| && whole[n..] == Flatten(buffers[i..])
  }

  lemma AtFirst(buffers: seq<string>)
    ensures AtBuffer(buffers, Flatten(buffers), 0, 0)
  {
    assert buffers[0..] == buffers && Flatten(buffers)[0..] == Flatten(buffers);
  }

  lemma AtNext(buffers: seq<string>, whole: string, i: nat, n: nat)
    requires AtBuffer(buffers, whole, i, n) && i < |buffers|
    ensures PartAt(whole, n, buffers[i]) && FromOne(buffers[i], buffers)
    ensures AtBuffer(buffers, whole, i + 1, n + |buffers[i]|)
  {
    FlattenFrom(buffers, i);
    assert whole[n..n + |buffers[i]|] == whole[n..][..|buffers[i]|];
    assert whole[n + |buffers[i]|..] == whole[n..][|buffers[i]|..];
    assert buffers[i] in buffers;
  }

  lemma AtLast(buffers: seq<string>, whole: string, n: nat)
    requires AtBuffer(buffers, whole, |buffers|, n)
    ensures n == |whole|
  {
    assert buffers[|buffers|..] == [];
  }

  lemma StartsOut(s: Settings, buffers: seq<string>, start: Conf, whole: string)
    ensures StandsAs(s, start, OK, buffers, start, whole, 0, Done(0))
  {
    assert whole[..0] == "";
  }

  /** What is known in the end. */
  lemma {:induction false} Concludes(parser: HttpParser, buffers: seq<string>, start: Conf, n: nat, fed: Fed)
    requires Stands(parser, buffers, start, Flatten(buffers), n, fed) && (fed.Done? ==> n == |Flatten(buffers)|)
    requires fed == GotStuck ==> parser.nread <= parser.env.s.limit
    ensures EndsAs(parser, buffers, start, fed)
  {
    var s, now, whole := parser.env.s, parser.View(), Flatten(buffers);
    if fed.Done? {
      assert whole[..|whole|] == whole;
      GotThroughAll(s, start, whole, now);
      if ShortBuffers(s, buffers) {
        RoomForAll(s, start, whole);
        GotThroughAll(Roomy(s, start, whole), start, whole, now);
      }
    } else if fed.GotStuck? {
      StallsExactly(s, start, whole, now);
      if start.nread + |whole| < s.limit {
        StuckAtLimit(s, start, whole, now);
      }
    }
  }

  /** A parser that is stuck has come to the limit. */
  lemma {:induction false} StuckAtLimit(s: Settings, start: Conf, whole: string, now: Conf)
    requires start.nread + |whole| < s.limit
    ensures !Overflows(RunOf(s, start, whole))
    ensures forall n: nat :: Passes(s, start, whole, 0, n, now) ==> now.nread < s.limit
  {
    RunCounts(s, start, whole);
    forall n: nat | Passes(s, start, whole, 0, n, now) ensures now.nread < s.limit {
      PassesCounts(s, start, whole, 0, n, now);
    }
  }

  /** Feeds the buffers one after another, and answers every pause by un-pausing the parser and feeding what is left. */
  method Drive(parser: HttpParser, buffers: seq<string>) returns (fed: Fed)
    requires parser.Valid() && parser.errno == OK
    requires forall b :: b in buffers ==> Sizes(parser.env.s, b)
    modifies parser
    ensures parser.Valid()
    ensures !old(parser.ended) ==> PhaseOf(parser.trace) != Bad
    ensures EndsAs(parser, buffers, old(parser.View()), fed)
    ensures NeverPauses(parser.env) ==> Unpaused(fed, 0)
  {
    ghost var start, whole := parser.View(), Flatten(buffers);
    ghost var n: nat := 0;
    AtFirst(buffers);
    StartsOut(parser.env.s, buffers, start, whole);
    fed := Done(0);
    var i := 0;
    while i < |buffers| && fed.Done?
      invariant parser.Valid() && parser.ended == old(parser.ended) && AtBuffer(buffers, whole, i, n)
      invariant Stands(parser, buffers, start, whole, n, fed)
      invariant NeverPauses(parser.env) ==> Unpaused(fed, 0)
    {
      AtNext(buffers, whole, i, n);
      ghost var m := n + |buffers[i]|;
      fed := FeedBuffer(parser, buffers[i], buffers, start, whole, n, m, fed);
      n := m;
      i := i + 1;
    }
    if i == |buffers| {
      AtLast(buffers, whole, n);
    }
    Concludes(parser, buffers, start, n, fed);
  }

  /** A stuck parser refuses whatever it is fed next: the byte it stopped in is counted a second time. */
  lemma StuckFails(s: Settings, c: Conf, data: string)
    requires Stuck(s, c) && data != ""
    ensures RunOf(s, c, data) == RanFailed(HeaderOverflow, 0, c.log)
  {
  }

  /** Pausing in on_headers_complete: `c` stands before the last byte of the header section, and `mid` is the
      parser with which the callback is made. If that byte is not the last one the limit allows, the resumed
      parser goes on as the one that never paused; if it is, it fails at once. */
  lemma {:induction false} HeadersCompletePause(s: Settings, c: Conf, mid: Conf, rest: string)
    requires c.p.state.HeadersAlmostDone? && c.nread + 1 <= s.limit
    requires ArmOf(s, Counted(c), LF) == Repeats(mid) && mid.p.state.HeadersDone?
    ensures c.nread + 1 < s.limit ==> RunOf(s, mid, [LF] + rest) == RunOf(s, c, [LF] + rest)
    ensures c.nread + 1 == s.limit ==> RunOf(s, mid, [LF] + rest) == RanFailed(HeaderOverflow, 0, mid.log)
  {
    var data := [LF] + rest;
    if c.nread + 1 == s.limit {
      StuckFails(s, mid, data);
    } else {
      assert ComesTo(s, mid, LF, mid) && mid.nread == c.nread + 1;
      SameStart(s, c, Back(mid), data);
      HeadersDoneRun(s, mid, Back(mid), data);
    }
  }

  /** A plain GET request without header fields ends with its empty line. */
  predicate EmptyHead(s: Settings, c: Conf) {
    c.p.state.HeadersAlmostDone? && s.onHeadersComplete(c.log) == 0 &&
    c.p.flags == NO_FLAGS && !c.p.usesTE && c.p.contentLength == ULLONG_MAX &&
    c.p.line.kind == Request && c.p.line.verb == GET
  }

  lemma {:induction false} EmptyHeadEnds(s: Settings, c: Conf)
    requires EmptyHead(s, c) && c.nread < s.limit
    ensures Step(s, c, LF).Consumed?
    ensures var r := ArmOf(s, Counted(c), LF); r.Repeats? && r.c.p.state.HeadersDone? && r.c.nread == c.nread + 1
  {
    var mid := ArmOf(s, Counted(c), LF).c;
    assert Chain(s, Counted(c), LF) == Chain(s, mid, LF);
    assert ArmOf(s, mid, LF).Consumed?;
  }

  /** So pausing there is not always transparent: at the limit a plain request goes through when nothing
      pauses, and is refused when on_headers_complete does. */
  lemma {:induction false} PauseAtLimitMatters(s: Settings, c: Conf)
    requires EmptyHead(s, c) && c.nread + 1 == s.limit
    ensures Step(s, c, LF).Consumed?
    ensures ArmOf(s, Counted(c), LF).Repeats? && Stuck(s, ArmOf(s, Counted(c), LF).c)
  {
    EmptyHeadEnds(s, c);
  }
}
