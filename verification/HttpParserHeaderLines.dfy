/** Header lines as a writer prints them (section 3.2 of RFC 7230) come back as the same names and values. */
module HttpParserHeaderLines {
  import opened Options
  import opened HttpBytes
  import opened HttpHeaderText
  import opened HttpParserTypes
  import opened HttpParserArms
  import opened HttpParserRun
  import opened HttpParserInvariant
  import opened HttpParserStretch
  import opened HttpParserNames
  import opened HttpParserStartLine
  import H = HeaderFields

  // ---------- names ----------

  /** A name that begins with all of "transfer-encoding" sets `uses_transfer_encoding`. */
  predicate StartsLikeTe(n: string) {
    |TRANSFER_ENCODING_NAME| <= |n| && n[..|TRANSFER_ENCODING_NAME|] == TRANSFER_ENCODING_NAME
  }

  /** A name that has no bearing on the length of the message or on upgrades. */
  predicate Neutral(name: string) {
    var n := LowerToken(name);
    n != CONTENT_LENGTH_NAME && n != UPGRADE_NAME && !StartsLikeTe(n)
  }

  lemma StartsLikeTeMore(n: string, c: char)
    ensures StartsLikeTe(n + [c]) <==> StartsLikeTe(n) || n + [c] == TRANSFER_ENCODING_NAME
  {
    if |TRANSFER_ENCODING_NAME| <= |n| {
      assert (n + [c])[..|TRANSFER_ENCODING_NAME|] == n[..|TRANSFER_ENCODING_NAME|];
    } else if |n| + 1 == |TRANSFER_ENCODING_NAME| {
      assert (n + [c])[..|TRANSFER_ENCODING_NAME|] == n + [c];
    }
  }

  /** Only the byte that completes "transfer-encoding" changes `uses_transfer_encoding`. */
  lemma TeByte(p: Parser, ch: char, n: string)
    requires Names(p.hstate, p.index, n) && IsToken(ch)
    ensures var q := FieldNext(p, ch);
            q == p.(index := q.index, hstate := q.hstate, usesTE := p.usesTE || q.hstate.HTransferEncoding?)
  {
    match p.hstate
    case HMatchingTransferEncoding =>
    case HMatchingConnection => case HMatchingProxyConnection => case HMatchingContentLength =>
    case HMatchingUpgrade => case HTransferEncoding =>
    case _ =>
  }

  lemma {:induction false} FoldNames(p: Parser, n: string, rest: string)
    requires Names(p.hstate, p.index, n) && AllTokens(rest) && !StartsLikeTe(n)
    ensures var q := FieldFold(p, rest);
            Names(q.hstate, q.index, n + LowerToken(rest)) &&
            q == p.(index := q.index, hstate := q.hstate,
                    usesTE := p.usesTE || StartsLikeTe(n + LowerToken(rest)))
    decreases |rest|
  {
    if rest == "" {
      assert n + LowerToken(rest) == n;
    } else {
      var front, ch := rest[..|rest| - 1], rest[|rest| - 1];
      var q := FieldFold(p, front);
      FoldNames(p, n, front);
      NamesStep(q, ch, n + LowerToken(front));
      TeByte(q, ch, n + LowerToken(front));
      StartsLikeTeMore(n + LowerToken(front), Token(ch));
      assert n + LowerToken(rest) == n + LowerToken(front) + [Token(ch)];
      NamesExact(FieldNext(q, ch).hstate, FieldNext(q, ch).index, n + LowerToken(rest));
    }
  }

  function StartName(p: Parser, ch: char): Parser {
    match FieldStartArm(p, ch) case Consume(q, _) => q case _ => p
  }

  function Named(p: Parser, name: string): Parser
    requires name != ""
  {
    FieldFold(StartName(p, name[0]), name[1..])
  }

  lemma NameStarts(p: Parser, ch: char)
    requires IsToken(ch) && ch != CR && ch != LF
    ensures FieldStartArm(p, ch) == Consume(StartName(p, ch), Some(Data(Field, [ch])))
    ensures var q := StartName(p, ch);
            q == p.(index := 0, state := HeaderField, hstate := q.hstate) && Names(q.hstate, q.index, [Token(ch)])
  {
    NamesFirst(p, ch);
  }

  /** What the matchers know at the end of a name. */
  lemma {:induction false} NamedKnows(p: Parser, name: string)
    requires name != "" && AllTokens(name)
    ensures var q := Named(p, name);
            Names(q.hstate, q.index, LowerToken(name)) && q.state.HeaderField? &&
            q == p.(state := HeaderField, index := q.index, hstate := q.hstate,
                    usesTE := p.usesTE || StartsLikeTe(LowerToken(name)))
  {
    NameStarts(p, name[0]);
    FoldNames(StartName(p, name[0]), [Token(name[0])], name[1..]);
    assert LowerToken(name) == [Token(name[0])] + LowerToken(name[1..]);
  }

  function AfterName(c: Conf, name: string): Conf
    requires name != ""
  {
    Conf(Named(c.p, name), c.nread + |name|, c.log + [Data(Field, name)])
  }

  function NameBegun(c: Conf, ch: char): Conf {
    Conf(StartName(c.p, ch), c.nread + 1, c.log + [Data(Field, [ch])])
  }

  lemma {:induction false} NameFirst(s: Settings, c: Conf, ch: char)
    requires Inv(c) && c.p.state.HeaderFieldStart? && !EndsIn(c.log, Field) && IsToken(ch) && c.nread < s.limit
    ensures Step(s, c, ch) == Consumed(NameBegun(c, ch))
    ensures Inv(NameBegun(c, ch)) && NameBegun(c, ch).p.state.HeaderField?
  {
    NameStarts(c.p, ch);
    HeaderByte(s, c, ch);
    ArmStep(s, c, ch);
    StepInv(s, c, ch);
  }

  lemma TokensTail(name: string)
    requires name != "" && AllTokens(name)
    ensures IsToken(name[0]) && AllTokens(name[1..]) && name == [name[0]] + name[1..]
  {
  }

  lemma {:induction false} NameRest(s: Settings, c: Conf, name: string)
    requires name != "" && AllTokens(name) && c.nread + |name| <= s.limit
    requires Inv(NameBegun(c, name[0])) && NameBegun(c, name[0]).p.state.HeaderField?
    ensures RunOf(s, NameBegun(c, name[0]), name[1..]) == Ran(AfterName(c, name))
  {
    var d := NameBegun(c, name[0]);
    TokensTail(name);
    FieldStretch(s, d, name[1..]);
    assert EndsIn(d.log, Field) && d.log[..|d.log| - 1] == c.log;
  }

  lemma {:induction false} NameRun(s: Settings, c: Conf, name: string)
    requires Inv(c) && c.p.state.HeaderFieldStart? && !EndsIn(c.log, Field)
    requires name != "" && AllTokens(name) && c.nread + |name| <= s.limit
    ensures RunOf(s, c, name) == Ran(AfterName(c, name))
  {
    TokensTail(name);
    NameFirst(s, c, name[0]);
    NameRest(s, c, name);
    RunFirstByte(s, c, name[0], name[1..], NameBegun(c, name[0]), AfterName(c, name));
  }

  // ---------- the blanks in front of a value ----------

  function BeforeValue(c: Conf, n: nat): Conf {
    Conf(c.p.(state := HeaderValueDiscardWs), c.nread + n, c.log)
  }

  lemma ColonStep(s: Settings, c: Conf)
    requires c.p.state.HeaderField? && c.nread < s.limit
    ensures Step(s, c, ':') == Consumed(BeforeValue(c, 1))
  {
    HeaderByte(s, c, ':');
    ArmStep(s, c, ':');
  }

  lemma BlankStep(s: Settings, c: Conf, ch: char)
    requires c.p.state.HeaderValueDiscardWs? && IsBlank(ch) && c.nread < s.limit
    ensures Step(s, c, ch) == Consumed(BeforeValue(c, 1))
  {
    HeaderByte(s, c, ch);
    ArmStep(s, c, ch);
  }

  lemma {:induction false} BlanksRun(s: Settings, c: Conf, blanks: string)
    requires c.p.state.HeaderValueDiscardWs? && AllBlank(blanks) && c.nread + |blanks| <= s.limit
    ensures RunOf(s, c, blanks) == Ran(BeforeValue(c, |blanks|))
    decreases |blanks|
  {
    if blanks != "" {
      BlankStep(s, c, blanks[0]);
      BlanksRun(s, BeforeValue(c, 1), blanks[1..]);
    }
  }

  // ---------- values ----------

  /** The flags differ at most in those a Transfer-Encoding or Connection list sets. */
  predicate OnlyListFlags(f: Flags, g: Flags) {
    g.trailing == f.trailing && g.upgrade == f.upgrade && g.skipBody == f.skipBody &&
    g.contentLength == f.contentLength
  }

  /** The parser `q` has seen a value that left everything but the list flags alone. */
  predicate KeepsHead(p: Parser, q: Parser) {
    q.line == p.line && q.usesTE == p.usesTE && q.contentLength == p.contentLength &&
    OnlyListFlags(p.flags, q.flags)
  }

  /** A matcher over a value that is not a length. */
  predicate Calm(p: Parser) {
    p.state.HeaderValue? && ValueMatcher(p.hstate, p.index) && p.index < 32 &&
    !p.hstate.HContentLengthNum? && !p.hstate.HContentLengthWs?
  }

  function StartValue(p: Parser, ch: char): Option<Parser> {
    match ValueStartArm(p, ch) case Consume(q, _) => Some(q) case _ => None
  }

  lemma CalmStart(p: Parser, ch: char)
    requires FieldMatcher(p.hstate, p.index) && !p.hstate.HContentLength? && !p.hstate.HUpgrade?
    ensures var q := StartValue(p, ch); q.Some? && Calm(q.value) && KeepsHead(p, q.value)
  {
  }

  predicate CalmAfter(p: Parser, r: Outcome) {
    r.Consume? && KeepsHead(p, r.p) && !r.p.hstate.HContentLengthNum? && !r.p.hstate.HContentLengthWs?
  }

  lemma CalmTeByte(p: Parser, ch: char)
    requires Calm(p)
    requires p.hstate.HGeneral? || p.hstate.HMatchingTeToken? || p.hstate.HTeChunked? ||
             p.hstate.HMatchingTeTokenStart? || p.hstate.HMatchingTeChunked?
    ensures CalmAfter(p, ValueByte(p, ch))
  {
  }

  lemma CalmConnByte(p: Parser, ch: char)
    requires Calm(p)
    requires p.hstate.HMatchingConnToken? || p.hstate.HMatchingConnTokenStart? || p.hstate.HMatchingConnKeepAlive? ||
             p.hstate.HMatchingConnClose? || p.hstate.HMatchingConnUpgrade?
    ensures CalmAfter(p, ValueByte(p, ch))
  {
  }

  lemma CalmWordByte(p: Parser, ch: char)
    requires Calm(p) && (p.hstate.HConnKeepAlive? || p.hstate.HConnClose? || p.hstate.HConnUpgrade?)
    ensures CalmAfter(p, ValueByte(p, ch))
  {
  }

  lemma CalmByte(p: Parser, ch: char)
    requires Calm(p)
    ensures ValueByte(p, ch).Consume? && Calm(ValueByte(p, ch).p) && KeepsHead(p, ValueByte(p, ch).p)
  {
    if p.hstate.HConnKeepAlive? || p.hstate.HConnClose? || p.hstate.HConnUpgrade? {
      CalmWordByte(p, ch);
    } else if p.hstate.HGeneral? || p.hstate.HMatchingTeToken? || p.hstate.HTeChunked? ||
        p.hstate.HMatchingTeTokenStart? || p.hstate.HMatchingTeChunked? {
      CalmTeByte(p, ch);
    } else {
      CalmConnByte(p, ch);
    }
    ValueByteMatches(p, ch);
    ValueByteFrame(p, ch);
  }

  lemma {:induction false} CalmFold(p: Parser, v: string)
    requires Calm(p)
    ensures ValueFold(p, v).Some? && Calm(ValueFold(p, v).value) && KeepsHead(p, ValueFold(p, v).value)
    decreases |v|
  {
    if v != "" {
      CalmFold(p, v[..|v| - 1]);
      CalmByte(ValueFold(p, v[..|v| - 1]).value, v[|v| - 1]);
    }
  }

  /** A value read from its first byte on. */
  function Valued(p: Parser, v: string): Option<Parser>
    requires v != ""
  {
    match StartValue(p, v[0]) case None => None case Some(q) => ValueFold(q, v[1..])
  }

  function AfterValue(c: Conf, v: string): Conf
    requires v != "" && Valued(c.p, v).Some?
  {
    Conf(Valued(c.p, v).value, c.nread + |v|, c.log + [Data(Value, v)])
  }

  predicate ValueText(s: Settings, v: string) {
    AllPlain(s, v) && (v != "" ==> !IsBlank(v[0]))
  }

  lemma ValueStarts(p: Parser, ch: char)
    requires StartValue(p, ch).Some?
    ensures ValueStartArm(p, ch) == Consume(StartValue(p, ch).value, Some(Data(Value, [ch])))
    ensures StartValue(p, ch).value.state.HeaderValue?
  {
  }

  function ValueBegun(c: Conf, ch: char): Conf
    requires StartValue(c.p, ch).Some?
  {
    Conf(StartValue(c.p, ch).value, c.nread + 1, c.log + [Data(Value, [ch])])
  }

  lemma {:induction false} ValueFirst(s: Settings, c: Conf, ch: char)
    requires Inv(c) && c.p.state.HeaderValueDiscardWs? && !EndsIn(c.log, Value) && c.nread < s.limit
    requires !IsBlank(ch) && ch != CR && ch != LF && StartValue(c.p, ch).Some?
    ensures Step(s, c, ch) == Consumed(ValueBegun(c, ch))
    ensures Inv(ValueBegun(c, ch)) && ValueBegun(c, ch).p.state.HeaderValue?
  {
    ValueStarts(c.p, ch);
    HeaderByte(s, c, ch);
    assert HeaderArm(s, c.p, ch) == ValueStartArm(c.p, ch);
    ArmStep(s, c, ch);
    StepInv(s, c, ch);
  }

  lemma PlainTail(s: Settings, v: string)
    requires v != "" && ValueText(s, v)
    ensures v == [v[0]] + v[1..] && AllPlain(s, v[1..]) && !IsBlank(v[0]) && v[0] != CR && v[0] != LF
  {
    assert Plain(s, v[0]);
  }

  lemma {:induction false} ValueRest(s: Settings, c: Conf, v: string)
    requires v != "" && ValueText(s, v) && Valued(c.p, v).Some? && c.nread + |v| <= s.limit
    requires Inv(ValueBegun(c, v[0])) && ValueBegun(c, v[0]).p.state.HeaderValue?
    ensures RunOf(s, ValueBegun(c, v[0]), v[1..]) == Ran(AfterValue(c, v)) && AfterValue(c, v).p.state.HeaderValue?
  {
    var d := ValueBegun(c, v[0]);
    PlainTail(s, v);
    ValueStretch(s, d, v[1..]);
    assert EndsIn(d.log, Value) && d.log[..|d.log| - 1] == c.log;
  }

  lemma {:induction false} ValueRun(s: Settings, c: Conf, v: string)
    requires Inv(c) && c.p.state.HeaderValueDiscardWs? && !EndsIn(c.log, Value)
    requires v != "" && ValueText(s, v) && Valued(c.p, v).Some? && c.nread + |v| <= s.limit
    ensures RunOf(s, c, v) == Ran(AfterValue(c, v)) && AfterValue(c, v).p.state.HeaderValue?
  {
    PlainTail(s, v);
    ValueFirst(s, c, v[0]);
    ValueRest(s, c, v);
    RunFirstByte(s, c, v[0], v[1..], ValueBegun(c, v[0]), AfterValue(c, v));
  }

  // ---------- the end of a line ----------

  lemma ExpectStep(s: Settings, c: Conf, ch: char, next: State)
    requires HeaderState(c.p.state) && HeaderArm(s, c.p, ch) == Consume(c.p.(state := next), None) && c.nread < s.limit
    ensures Step(s, c, ch) == Consumed(Conf(c.p.(state := next), c.nread + 1, c.log))
  {
    HeaderByte(s, c, ch);
    ArmStep(s, c, ch);
  }

  lemma {:induction false} CrLfRun(s: Settings, c: Conf, mid: State, last: State)
    requires HeaderState(c.p.state) && HeaderState(mid) && c.nread + 2 <= s.limit
    requires HeaderArm(s, c.p, CR) == Consume(c.p.(state := mid), None)
    requires HeaderArm(s, c.p.(state := mid), LF) == Consume(c.p.(state := last), None)
    ensures RunOf(s, c, [CR, LF]) == Ran(Conf(c.p.(state := last), c.nread + 2, c.log))
  {
    var d, e := Conf(c.p.(state := mid), c.nread + 1, c.log), Conf(c.p.(state := last), c.nread + 2, c.log);
    assert RunOf(s, c, [CR]) == Ran(d) by {
      ExpectStep(s, c, CR, mid);
      assert "" + [CR] == [CR];
      RunThenByte(s, c, "", CR, c, d);
    }
    assert Step(s, d, LF) == Consumed(e) by {
      ExpectStep(s, d, LF, last);
    }
    assert [CR] + [LF] == [CR, LF];
    RunThenByte(s, c, [CR], LF, d, e);
  }

  /** A line whose end has been read, but not the byte that tells whether it goes on. */
  predicate Settles(p: Parser) {
    p.state.HeaderValueLws? || (p.state.HeaderValueDiscardLws? && !p.hstate.HContentLength?)
  }

  function Settled(c: Conf): Conf {
    Conf(c.p.(flags := FinishedFlags(c.p), state := HeaderFieldStart), c.nread,
         if c.p.state.HeaderValueLws? then c.log else Emit(c.log, Data(Value, "")))
  }

  lemma SettledArm(s: Settings, c: Conf, ch: char)
    requires Settles(c.p) && !IsBlank(ch)
    ensures ArmOf(s, c, ch) == Repeats(Settled(c))
  {
    HeaderByte(s, c, ch);
  }

  lemma {:induction false} SettledStep(s: Settings, c: Conf, ch: char)
    requires Settles(c.p) && !IsBlank(ch) && c.nread < s.limit
    ensures Step(s, c, ch) == Step(s, Settled(c), ch)
  {
    SettledArm(s, Counted(c), ch);
  }

  /** A byte that is no blank is read as the first byte of the next line. */
  lemma {:induction false} SettledRun(s: Settings, c: Conf, rest: string)
    requires Settles(c.p) && rest != "" && !IsBlank(rest[0]) && c.nread < s.limit
    ensures RunOf(s, c, rest) == RunOf(s, Settled(c), rest)
  {
    SettledStep(s, c, rest[0]);
  }

  lemma {:induction false} SettledInv(c: Conf)
    requires Inv(c) && Settles(c.p)
    ensures Inv(Settled(c))
  {
  }

  // ---------- a whole line ----------

  function Line(name: string, value: string): string {
    name + ": " + value + [CR, LF]
  }

  /** The parser at the first byte of the value. */
  function AtValue(p: Parser, name: string): Parser
    requires name != ""
  {
    Named(p, name).(state := HeaderValueDiscardWs)
  }

  /** The parser at the end of the line takes the value. */
  predicate Takes(p: Parser, name: string, value: string)
    requires name != ""
  {
    var v := TrimLeft(value);
    if v == "" then !AtValue(p, name).hstate.HContentLength? else Valued(AtValue(p, name), v).Some?
  }

  function EndOfLine(p: Parser, name: string, value: string): Parser
    requires name != "" && Takes(p, name, value)
  {
    var v := TrimLeft(value);
    if v == "" then AtValue(p, name).(state := HeaderValueDiscardLws)
    else Valued(AtValue(p, name), v).value.(state := HeaderValueLws)
  }

  function AfterLine(c: Conf, name: string, value: string): Conf
    requires name != "" && Takes(c.p, name, value)
  {
    var v := TrimLeft(value);
    Conf(EndOfLine(c.p, name, value), c.nread + |Line(name, value)|,
         c.log + if v == "" then [Data(Field, name)] else [Data(Field, name), Data(Value, v)])
  }

  predicate LineText(s: Settings, name: string, value: string) {
    name != "" && AllTokens(name) && AllPlain(s, value)
  }

  /** The configuration at the first byte of the value. */
  function AtValueConf(c: Conf, name: string, blanks: string): Conf
    requires name != ""
  {
    Conf(AtValue(c.p, name), c.nread + |name| + 2 + |blanks|, c.log + [Data(Field, name)])
  }

  lemma {:induction false} ToValueRun(s: Settings, c: Conf, name: string, blanks: string)
    requires Inv(c) && c.p.state.HeaderFieldStart? && !EndsIn(c.log, Field)
    requires name != "" && AllTokens(name) && AllBlank(blanks) && c.nread + |name| + 2 + |blanks| <= s.limit
    ensures RunOf(s, c, name + ":" + (" " + blanks)) == Ran(AtValueConf(c, name, blanks))
    ensures Inv(AtValueConf(c, name, blanks))
  {
    var d := AfterName(c, name);
    var e, end := BeforeValue(d, 1), AtValueConf(c, name, blanks);
    NameRun(s, c, name);
    NamedKnows(c.p, name);
    ColonStep(s, d);
    RunThenByte(s, c, name, ':', d, e);
    assert AllBlank(" " + blanks);
    BlanksRun(s, e, " " + blanks);
    RunThenRun(s, c, name + ":", " " + blanks, e, end);
    RunInv(s, c, name + ":" + (" " + blanks));
  }

  lemma {:induction false} FromValueRun(s: Settings, c: Conf, v: string)
    requires Inv(c) && c.p.state.HeaderValueDiscardWs? && !EndsIn(c.log, Value)
    requires v != "" && ValueText(s, v) && Valued(c.p, v).Some? && c.nread + |v| + 2 <= s.limit
    ensures RunOf(s, c, v + [CR, LF]) ==
            Ran(Conf(Valued(c.p, v).value.(state := HeaderValueLws), c.nread + |v| + 2, c.log + [Data(Value, v)]))
  {
    var d := AfterValue(c, v);
    ValueRun(s, c, v);
    CrLfRun(s, d, HeaderAlmostDone, HeaderValueLws);
    RunThenRun(s, c, v, [CR, LF], d, Conf(d.p.(state := HeaderValueLws), d.nread + 2, d.log));
  }

  lemma {:induction false} TrimmedPlain(s: Settings, value: string)
    requires AllPlain(s, value)
    ensures ValueText(s, TrimLeft(value))
  {
    H.TrimLeftReach(value);
    var n := |value| - |TrimLeft(value)|;
    forall i | 0 <= i < |TrimLeft(value)| ensures Plain(s, TrimLeft(value)[i]) {
      assert TrimLeft(value)[i] == value[n + i];
    }
  }

  lemma {:induction false} EmptyValueRun(s: Settings, c: Conf, name: string, blanks: string)
    requires Inv(c) && c.p.state.HeaderFieldStart? && !EndsIn(c.log, Field)
    requires name != "" && AllTokens(name) && AllBlank(blanks) && c.nread + |name| + 4 + |blanks| <= s.limit
    ensures RunOf(s, c, name + ":" + (" " + blanks) + [CR, LF]) ==
            Ran(Conf(AtValue(c.p, name).(state := HeaderValueDiscardLws), c.nread + |name| + 4 + |blanks|,
                     c.log + [Data(Field, name)]))
  {
    var d := AtValueConf(c, name, blanks);
    ToValueRun(s, c, name, blanks);
    CrLfRun(s, d, HeaderValueDiscardWsAlmostDone, HeaderValueDiscardLws);
    RunThenRun(s, c, name + ":" + (" " + blanks), [CR, LF], d,
               Conf(d.p.(state := HeaderValueDiscardLws), d.nread + 2, d.log));
  }

  lemma {:induction false} FullValueRun(s: Settings, c: Conf, name: string, blanks: string, v: string)
    requires Inv(c) && c.p.state.HeaderFieldStart? && !EndsIn(c.log, Field)
    requires name != "" && AllTokens(name) && AllBlank(blanks) && c.nread + |name| + 4 + |blanks| + |v| <= s.limit
    requires v != "" && ValueText(s, v) && Valued(AtValue(c.p, name), v).Some?
    ensures RunOf(s, c, name + ":" + (" " + blanks) + (v + [CR, LF])) ==
            Ran(Conf(Valued(AtValue(c.p, name), v).value.(state := HeaderValueLws),
                     c.nread + |name| + 4 + |blanks| + |v|, c.log + [Data(Field, name), Data(Value, v)]))
  {
    var d := AtValueConf(c, name, blanks);
    ToValueRun(s, c, name, blanks);
    FromValueRun(s, d, v);
    assert d.log + [Data(Value, v)] == c.log + [Data(Field, name), Data(Value, v)];
    RunThenRun(s, c, name + ":" + (" " + blanks), v + [CR, LF], d, RunOf(s, d, v + [CR, LF]).c);
  }

  lemma LineParts(name: string, blanks: string, v: string)
    ensures Line(name, blanks + v) == name + ":" + (" " + blanks) + (v + [CR, LF])
  {
  }

  /** A line is read up to the byte that tells whether it goes on. */
  lemma {:induction false} LineRun(s: Settings, c: Conf, name: string, value: string)
    requires Inv(c) && c.p.state.HeaderFieldStart? && !EndsIn(c.log, Field)
    requires LineText(s, name, value) && Takes(c.p, name, value) && c.nread + |Line(name, value)| <= s.limit
    ensures RunOf(s, c, Line(name, value)) == Ran(AfterLine(c, name, value))
    ensures Settles(AfterLine(c, name, value).p)
  {
    H.TrimLeftReach(value);
    var v := TrimLeft(value);
    var blanks := value[..|value| - |v|];
    assert value == blanks + v && AllBlank(blanks);
    LineParts(name, blanks, v);
    if v == "" {
      assert v + [CR, LF] == [CR, LF];
      EmptyValueRun(s, c, name, blanks);
    } else {
      TrimmedPlain(s, value);
      FullValueRun(s, c, name, blanks, v);
    }
  }

  // ---------- lines that say nothing about the length ----------

  lemma NeutralNamed(p: Parser, name: string)
    requires name != "" && AllTokens(name) && Neutral(name) && Good(p)
    ensures var q := AtValue(p, name);
            !q.hstate.HContentLength? && !q.hstate.HUpgrade? &&
                q == p.(state := q.state, index := q.index, hstate := q.hstate)
  {
    NamedKnows(p, name);
    NamesExact(Named(p, name).hstate, Named(p, name).index, LowerToken(name));
  }

  lemma {:induction false} NeutralTakes(p: Parser, name: string, value: string)
    requires name != "" && AllTokens(name) && Neutral(name) && Good(p)
    requires FieldMatcher(AtValue(p, name).hstate, AtValue(p, name).index)
    ensures Takes(p, name, value) && KeepsHead(p, EndOfLine(p, name, value))
  {
    NeutralNamed(p, name);
    var q, v := AtValue(p, name), TrimLeft(value);
    if v != "" {
      CalmStart(q, v[0]);
      CalmFold(StartValue(q, v[0]).value, v[1..]);
    }
  }

  lemma FinishedOnlySets(q: Parser)
    ensures OnlyListFlags(q.flags, FinishedFlags(q))
  {
    match q.hstate
    case HConnKeepAlive => case HConnClose => case HConnUpgrade => case HTeChunked =>
    case _ =>
  }

  lemma FinishedKeeps(p: Parser, q: Parser)
    requires KeepsHead(p, q)
    ensures KeepsHead(p, q.(flags := FinishedFlags(q), state := HeaderFieldStart))
  {
    FinishedOnlySets(q);
  }

  /** The configuration after a line once the next one begins. */
  function NextLine(c: Conf, name: string, value: string): Conf
    requires name != "" && Takes(c.p, name, value)
  {
    Settled(AfterLine(c, name, value))
  }

  lemma {:induction false} NeutralNext(c: Conf, name: string, value: string)
    requires name != "" && AllTokens(name) && Neutral(name) && Good(c.p)
    requires FieldMatcher(AtValue(c.p, name).hstate, AtValue(c.p, name).index)
    ensures Takes(c.p, name, value) && KeepsHead(c.p, NextLine(c, name, value).p)
  {
    NeutralTakes(c.p, name, value);
    FinishedKeeps(c.p, EndOfLine(c.p, name, value));
  }

  lemma NextLineLog(c: Conf, name: string, value: string)
    requires name != "" && Takes(c.p, name, value)
    ensures var e := NextLine(c, name, value);
            e.log == c.log + [Data(Field, name), Data(Value, TrimLeft(value))] &&
            e.nread == c.nread + |Line(name, value)| && e.p.state.HeaderFieldStart?
  {
    var v, d := TrimLeft(value), AfterLine(c, name, value);
    if v == "" {
      assert d.log[|d.log| - 1] == Data(Field, name);
      assert d.log + [Data(Value, v)] == c.log + [Data(Field, name), Data(Value, v)];
    }
  }

  /** The matchers are in order wherever a name may end. */
  lemma {:induction false} NameMatches(s: Settings, c: Conf, name: string)
    requires Inv(c) && c.p.state.HeaderFieldStart? && !EndsIn(c.log, Field)
    requires name != "" && AllTokens(name) && c.nread + |name| <= s.limit
    ensures FieldMatcher(AtValue(c.p, name).hstate, AtValue(c.p, name).index)
  {
    NameRun(s, c, name);
    NamedKnows(c.p, name);
    RunInv(s, c, name);
  }

  /** A line is a line of its own when it is followed by something that is no blank. */
  lemma {:induction false} LineThen(s: Settings, c: Conf, name: string, value: string, rest: string)
    requires Inv(c) && c.p.state.HeaderFieldStart? && !EndsIn(c.log, Field)
    requires LineText(s, name, value) && Takes(c.p, name, value) && c.nread + |Line(name, value)| < s.limit
    requires rest != "" && !IsBlank(rest[0])
    ensures RunOf(s, c, Line(name, value) + rest) ==
            Shift(RunOf(s, NextLine(c, name, value), rest), |Line(name, value)|)
    ensures Inv(NextLine(c, name, value))
  {
    var d := AfterLine(c, name, value);
    LineRun(s, c, name, value);
    RunInv(s, c, Line(name, value));
    RunConcat(s, c, Line(name, value), rest);
    SettledRun(s, d, rest);
    SettledInv(d);
  }
}
