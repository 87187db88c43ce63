/** The method recogniser: a guess from the first byte, corrected where a later byte contradicts it. */
module HttpParserMethod {
  import opened Options
  import opened HttpBytes
  import opened HttpParserTypes
  import opened HttpParserArms
  import opened HttpParserRun

  /** The guess after one more byte. */
  function Guess(m: Method, pos: nat, ch: char): Option<Method> {
    if pos < |MethodString(m)| && ch == MethodString(m)[pos] then Some(m) else CorrectedMethod(m, pos, ch)
  }

  /** The guess after the bytes of `w` from `pos` on. */
  function GuessFrom(m: Method, w: string, pos: nat): Option<Method>
    requires pos <= |w|
    decreases |w| - pos
  {
    if pos == |w| then Some(m)
    else match Guess(m, pos, w[pos])
      case None => None
      case Some(next) => GuessFrom(next, w, pos + 1)
  }

  function Recognise(w: string): Option<Method> {
    if w == "" then None
    else match FirstMethod(w[0])
      case None => None
      case Some(m) => GuessFrom(m, w, 1)
  }

  /** The guess begins with the bytes read. */
  predicate Begins(m: Method, w: string) {
    |w| <= |MethodString(m)| && MethodString(m)[..|w|] == w
  }

  lemma FirstBegins(ch: char)
    requires FirstMethod(ch).Some?
    ensures Begins(FirstMethod(ch).value, [ch])
  {
  }

  lemma CorrectsToMOrS(m: Method, ch: char)
    requires (m == MKCOL || m == SUBSCRIBE) && CorrectedMethod(m, 1, ch).Some?
    ensures var n := MethodString(CorrectedMethod(m, 1, ch).value); n[0] == MethodString(m)[0] && n[1] == ch
  {
  }

  lemma CorrectsAtOne(m: Method, ch: char)
    requires CorrectedMethod(m, 1, ch).Some?
    ensures var n := MethodString(CorrectedMethod(m, 1, ch).value); n[0] == MethodString(m)[0] && n[1] == ch
  {
    if m == MKCOL || m == SUBSCRIBE {
      CorrectsToMOrS(m, ch);
    }
  }

  lemma CorrectsAtTwo(m: Method, ch: char)
    requires CorrectedMethod(m, 2, ch).Some?
    ensures var n, o := MethodString(CorrectedMethod(m, 2, ch).value), MethodString(m);
            n[0] == o[0] && n[1] == o[1] && n[2] == ch
  {
    match m
    case PUT => case CONNECT => case MKCOL => case REPORT => case UNLOCK =>
    case _ =>
  }

  lemma CorrectsAtThree(m: Method, ch: char)
    requires CorrectedMethod(m, 3, ch).Some?
    ensures var n, o := MethodString(CorrectedMethod(m, 3, ch).value), MethodString(m);
            |n| > 3 && |o| > 3 && n[0] == o[0] && n[1] == o[1] && n[2] == o[2] && n[3] == ch
  {
  }

  lemma CorrectsAtFour(m: Method, ch: char)
    requires CorrectedMethod(m, 4, ch).Some?
    ensures var n, o := MethodString(CorrectedMethod(m, 4, ch).value), MethodString(m);
            |n| > 4 && |o| > 4 && n[0] == o[0] && n[1] == o[1] && n[2] == o[2] && n[3] == o[3] && n[4] == ch
  {
  }

  lemma CorrectsWithinFour(m: Method, pos: nat, ch: char)
    requires CorrectedMethod(m, pos, ch).Some?
    ensures 1 <= pos <= 4
  {
  }

  /** The correction table corrects to a method that begins with the same bytes and then the new one. */
  lemma CorrectionBegins(m: Method, w: string, ch: char)
    requires Begins(m, w) && CorrectedMethod(m, |w|, ch).Some?
    ensures Begins(CorrectedMethod(m, |w|, ch).value, w + [ch])
  {
    CorrectsWithinFour(m, |w|, ch);
    var n, o := MethodString(CorrectedMethod(m, |w|, ch).value), MethodString(m);
    if |w| == 1 {
      CorrectsAtOne(m, ch);
    } else if |w| == 2 {
      CorrectsAtTwo(m, ch);
    } else if |w| == 3 {
      CorrectsAtThree(m, ch);
    } else {
      CorrectsAtFour(m, ch);
    }
    SameStart(n, o, w, ch);
  }

  lemma SameStart(n: string, o: string, w: string, ch: char)
    requires |w| <= |o| && o[..|w|] == w && |w| < |n| && n[|w|] == ch && forall i :: 0 <= i < |w| ==> n[i] == o[i]
    ensures n[..|w| + 1] == w + [ch]
  {
  }

  lemma GuessBegins(m: Method, w: string, ch: char)
    requires Begins(m, w) && Guess(m, |w|, ch).Some?
    ensures Begins(Guess(m, |w|, ch).value, w + [ch])
  {
    var name := MethodString(m);
    if |w| < |name| && ch == name[|w|] {
      assert name[..|w| + 1] == name[..|w|] + [ch];
    } else {
      CorrectionBegins(m, w, ch);
    }
  }

  lemma {:induction false} GuessFromBegins(m: Method, w: string, pos: nat)
    requires pos <= |w| && Begins(m, w[..pos]) && GuessFrom(m, w, pos).Some?
    ensures Begins(GuessFrom(m, w, pos).value, w)
    decreases |w| - pos
  {
    if pos == |w| {
      assert w[..pos] == w;
    } else {
      GuessBegins(m, w[..pos], w[pos]);
      assert w[..pos] + [w[pos]] == w[..pos + 1];
      GuessFromBegins(Guess(m, pos, w[pos]).value, w, pos + 1);
    }
  }

  /** The guess that is corrected to `m`, and at which byte; none for a first guess. */
  function Before(m: Method): Option<(Method, nat)> {
    match m
    case PUT => Some((POST, 1)) case PATCH => Some((POST, 1)) case PROPFIND => Some((POST, 1))
    case PURGE => Some((PUT, 2)) case CHECKOUT => Some((CONNECT, 1)) case COPY => Some((CONNECT, 2))
    case MOVE => Some((MKCOL, 1)) case MERGE => Some((MKCOL, 1)) case MSEARCH => Some((MKCOL, 1))
    case MKACTIVITY => Some((MKCOL, 2)) case MKCALENDAR => Some((MKCOL, 3))
    case SEARCH => Some((SUBSCRIBE, 1)) case SOURCE => Some((SUBSCRIBE, 1)) case REBIND => Some((REPORT, 2))
    case PROPPATCH => Some((PROPFIND, 4)) case LINK => Some((LOCK, 1))
    case UNSUBSCRIBE => Some((UNLOCK, 2)) case UNBIND => Some((UNLOCK, 2)) case UNLINK => Some((UNLOCK, 3))
    case _ => None
  }

  function CorrectedAt(m: Method): nat {
    if Before(m).Some? then Before(m).value.1 else 0
  }

  lemma FirstGuess(m: Method)
    requires Before(m).None?
    ensures FirstMethod(MethodString(m)[0]) == Some(m)
  {
  }

  /** The table corrects each such guess to `m`, at the first byte in which the names differ. */
  lemma BeforeCorrects(m: Method)
    requires Before(m).Some?
    ensures var p, a := Before(m).value.0, Before(m).value.1;
            var n, o := MethodString(m), MethodString(p);
            CorrectedAt(p) < a <= 4 && a < |n| && a < |o| && n[a] != o[a] && CorrectedMethod(p, a, n[a]) == Some(m)
  {
  }

  lemma BeforeShares(m: Method)
    requires Before(m).Some?
    ensures var p, a := Before(m).value.0, Before(m).value.1;
            var n, o := MethodString(m), MethodString(p);
            n[0] == o[0] && (a > 1 ==> n[1] == o[1]) && (a > 2 ==> n[2] == o[2]) &&
            (a > 3 ==> |n| > 3 && |o| > 3 && n[3] == o[3])
  {
  }

  lemma {:induction false} GuessStays(m: Method, w: string, from: nat, upto: nat)
    requires from <= upto <= |w| && upto <= |MethodString(m)|
    requires forall i :: from <= i < upto ==> w[i] == MethodString(m)[i]
    ensures GuessFrom(m, w, from) == GuessFrom(m, w, upto)
    decreases upto - from
  {
    if from < upto {
      GuessStays(m, w, from + 1, upto);
    }
  }

  /** A word that begins as `m` does, beyond the byte that tells `m` from the earlier guesses, is taken for
      `m`. */
  lemma {:induction false} GuessReaches(m: Method, w: string, k: nat)
    requires CorrectedAt(m) < k <= |w| && k <= |MethodString(m)|
    requires forall i :: 0 <= i < k ==> w[i] == MethodString(m)[i]
    ensures Recognise(w) == GuessFrom(m, w, k)
    decreases k
  {
    if Before(m).None? {
      FirstGuess(m);
      GuessStays(m, w, 1, k);
    } else {
      var p, a := Before(m).value.0, Before(m).value.1;
      BeforeCorrects(m);
      BeforeShares(m);
      GuessReaches(p, w, a);
      assert Guess(p, a, w[a]) == Some(m);
      GuessStays(m, w, a + 1, k);
    }
  }

  /** Every method is recognised by its own name. */
  lemma {:induction false} RecognisesAll(m: Method)
    ensures Recognise(MethodString(m)) == Some(m)
  {
    if Before(m).Some? {
      BeforeCorrects(m);
    }
    GuessReaches(m, MethodString(m), |MethodString(m)|);
  }

  // ---------- the run of the parser ----------

  /** The parser after `k` bytes of a method, with the guess `m`. */
  function MethodConf(c: Conf, m: Method, k: nat): Conf {
    Conf(BeginMessage(c.p).(line := c.p.line.(verb := m), index := k, state := ReqMethod), c.nread + k,
         Emit(c.log, MessageBegin))
  }

  lemma MethodFirstByte(s: Settings, c: Conf, ch: char)
    requires c.p.state.StartReq? && c.nread < s.limit && IsAlpha(ch)
    ensures Step(s, c, ch) ==
            match FirstMethod(ch)
            case None => Failed(InvalidMethod, c.log)
            case Some(m) => Consumed(MethodConf(c, m, 1))
  {
  }

  lemma NamesAreUpper(m: Method, i: nat)
    requires i < |MethodString(m)|
    ensures 'A' <= MethodString(m)[i] <= 'Z' || MethodString(m)[i] == '-'
  {
  }

  lemma CorrectionsAreUpper(m: Method, pos: nat, ch: char)
    requires CorrectedMethod(m, pos, ch).Some?
    ensures 'A' <= ch <= 'Z' || ch == '-'
  {
  }

  /** The arm of `s_req_method` is the next guess, or the end of the method at its space. */
  lemma MethodArm(p: Parser, ch: char)
    requires p.index <= |MethodString(p.line.verb)|
    ensures ReqMethodArm(p, ch) ==
            if ch == ' ' then
              (if p.index == |MethodString(p.line.verb)| then Goto(p.(index := p.index + 1), ReqSpacesBeforeUrl)
               else Error(InvalidMethod))
            else match Guess(p.line.verb, p.index, ch)
              case None => Error(InvalidMethod)
              case Some(m) => Consume(p.(line := p.line.(verb := m), index := p.index + 1), None)
  {
    if p.index < |MethodString(p.line.verb)| {
      NamesAreUpper(p.line.verb, p.index);
    }
    if CorrectedMethod(p.line.verb, p.index, ch).Some? {
      CorrectionsAreUpper(p.line.verb, p.index, ch);
    }
  }

  /** One turn of the loop in the method state. */
  lemma MethodStep(s: Settings, c: Conf, ch: char)
    requires c.p.state.ReqMethod? && c.nread < s.limit
    ensures var r := ReqMethodArm(c.p, ch);
            Step(s, c, ch) ==
            if r.Consume? then Consumed(Conf(r.p, c.nread + 1, EmitOption(c.log, r.event)))
            else if r.Error? then Failed(r.errno, c.log)
            else AssertFailed
  {
    assert Arm(s, c.p, ch, s.onHeadersComplete(c.log)) == ReqMethodArm(c.p, ch);
  }

  lemma MethodByte(s: Settings, c: Conf, m: Method, k: nat, ch: char)
    requires c.nread + k < s.limit && k <= |MethodString(m)| && ch != ' '
    ensures Step(s, MethodConf(c, m, k), ch) ==
            match Guess(m, k, ch) case None => Failed(InvalidMethod,
                MethodConf(c, m, k).log) case Some(n) => Consumed(MethodConf(c, n, k + 1))
  {
    MethodStep(s, MethodConf(c, m, k), ch);
    MethodArm(MethodConf(c, m, k).p, ch);
  }

  function AfterMethod(c: Conf, m: Method): Conf {
    var k := |MethodString(m)|;
    Conf(MethodConf(c, m, k).p.(index := k + 1, state := ReqSpacesBeforeUrl), c.nread + k + 1,
        Emit(c.log, MessageBegin))
  }

  lemma MethodSpace(s: Settings, c: Conf, m: Method, k: nat)
    requires c.nread + k < s.limit && k <= |MethodString(m)|
    ensures Step(s, MethodConf(c, m, k), ' ') ==
            if k == |MethodString(m)| then Consumed(AfterMethod(c, m))
                else Failed(InvalidMethod, MethodConf(c, m, k).log)
  {
    MethodStep(s, MethodConf(c, m, k), ' ');
    MethodArm(MethodConf(c, m, k).p, ' ');
  }

  lemma {:induction false} GuessesRun(s: Settings, c: Conf, m: Method, w: string, pos: nat)
    requires 1 <= pos <= |w| && Begins(m, w[..pos]) && ' ' !in w && c.nread + |w| <= s.limit
    ensures match GuessFrom(m, w, pos)
            case Some(n) => RunOf(s, MethodConf(c, m, pos), w[pos..]) == Ran(MethodConf(c, n, |w|))
            case None => RunOf(s, MethodConf(c, m, pos), w[pos..]).RanFailed?
    decreases |w| - pos
  {
    if pos < |w| {
      MethodByte(s, c, m, pos, w[pos]);
      assert w[pos..][0] == w[pos] && w[pos..][1..] == w[pos + 1..];
      var next := Guess(m, pos, w[pos]);
      if next.Some? {
        GuessBegins(m, w[..pos], w[pos]);
        assert w[..pos] + [w[pos]] == w[..pos + 1];
        GuessesRun(s, c, next.value, w, pos + 1);
      }
    }
  }

  /** Over a word the parser makes the guesses of `Recognise`. */
  lemma {:induction false} MethodRun(s: Settings, c: Conf, w: string)
    requires c.p.state.StartReq? && w != "" && IsAlpha(w[0]) && ' ' !in w && c.nread + |w| <= s.limit
    ensures match Recognise(w)
            case Some(m) => RunOf(s, c, w) == Ran(MethodConf(c, m, |w|)) && Begins(m, w)
            case None => RunOf(s, c, w).RanFailed?
  {
    MethodFirstByte(s, c, w[0]);
    var m := FirstMethod(w[0]);
    if m.Some? {
      FirstBegins(w[0]);
      assert w[..1] == [w[0]];
      GuessesRun(s, c, m.value, w, 1);
      if GuessFrom(m.value, w, 1).Some? {
        GuessFromBegins(m.value, w, 1);
      }
    }
  }

  /** A request is let past its method exactly when the word before the space is one of the methods, and it
      is read as that one. */
  lemma {:induction false} MethodIsExact(s: Settings, c: Conf, w: string, m: Method)
    requires c.p.state.StartReq? && w != "" && IsAlpha(w[0]) && ' ' !in w && c.nread + |w| < s.limit
    ensures RunOf(s, c, w + " ") == Ran(AfterMethod(c, m)) <==> w == MethodString(m)
    ensures RunOf(s, c, w + " ").Ran? ==> exists n :: w == MethodString(n)
  {
    MethodThenSpace(s, c, w);
    if w == MethodString(m) {
      RecognisesAll(m);
    }
  }

  lemma {:induction false} MethodThenSpace(s: Settings, c: Conf, w: string)
    requires c.p.state.StartReq? && w != "" && IsAlpha(w[0]) && ' ' !in w && c.nread + |w| < s.limit
    ensures var r := Recognise(w);
            if r.Some? && w == MethodString(r.value) then RunOf(s, c, w + " ") == Ran(AfterMethod(c, r.value))
            else RunOf(s, c, w + " ").RanFailed?
  {
    MethodRun(s, c, w);
    RunSnoc(s, c, w, ' ');
    var r := Recognise(w);
    if r.Some? {
      MethodSpace(s, c, r.value, |w|);
      if |w| == |MethodString(r.value)| {
        assert MethodString(r.value)[..|w|] == MethodString(r.value);
      }
    }
  }
}
