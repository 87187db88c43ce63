/** Whole requests with a Content-Length body: what a writer puts down is what the parser delivers, and the
    message ends exactly where its body does. */
module HttpParserRequests {
  import opened Sequences
  import opened Options
  import opened HttpBytes
  import opened HttpHeaderText
  import opened HttpParserTypes
  import opened HttpParserArms
  import opened HttpParserRun
  import opened HttpParserInvariant
  import opened HttpParserStretch
  import opened HttpParserNames
  import opened HttpParserHeaderLines
  import H = HeaderFields

  predicate AllNeutral(fields: seq<H.Field>) {
    forall i :: 0 <= i < |fields| ==> Neutral(fields[i].name)
  }

  /** The callbacks for header fields: names, and values without the blanks in front of them. */
  function FieldEvents(fields: seq<H.Field>): seq<Event> {
    if fields == [] then []
    else [Data(Field, fields[0].name), Data(Value, TrimLeft(fields[0].value))] + FieldEvents(fields[1..])
  }

  // ---------- neutral lines ----------

  predicate AtLine(c: Conf) {
    Inv(c) && c.p.state.HeaderFieldStart? && !EndsIn(c.log, Field)
  }

  lemma TokenCharsAgree(c: char)
    ensures H.IsTokenChar(c) <==> IsToken(c)
  {
  }

  lemma ValueCharsArePlain(s: Settings, c: char)
    requires H.IsValueChar(c)
    ensures Plain(s, c)
  {
  }

  /** What encodeHeaderFields lets through are lines for the parser. */
  lemma {:induction false} EncodableIsText(s: Settings, f: H.Field)
    requires H.Encodable(f)
    ensures LineText(s, f.name, f.value) && H.Line(f) == Line(f.name, f.value)
  {
    forall i | 0 <= i < |f.name| ensures IsToken(f.name[i]) {
      TokenCharsAgree(f.name[i]);
    }
    forall i | 0 <= i < |f.value| ensures Plain(s, f.value[i]) {
      ValueCharsArePlain(s, f.value[i]);
    }
    assert CRLF == [CR, LF];
  }

  lemma KeepsHeadTrans(p: Parser, q: Parser, r: Parser)
    requires KeepsHead(p, q) && KeepsHead(q, r)
    ensures KeepsHead(p, r)
  {
  }

  /** `c` over `w` and anything that does not begin with a blank goes on as `e`, which has delivered `events`. */
  ghost predicate LeadsTo(s: Settings, c: Conf, w: string, e: Conf, events: seq<Event>, rest: string) {
    RunOf(s, c, w + rest) == Shift(RunOf(s, e, rest), |w|) &&
    AtLine(e) && e.log == c.log + events && e.nread == c.nread + |w|
  }

  lemma {:induction false} LineLeads(s: Settings, c: Conf, f: H.Field, rest: string)
    requires AtLine(c) && H.Encodable(f) && Takes(c.p, f.name, f.value) && c.nread + |H.Line(f)| < s.limit
    requires rest != "" && !IsBlank(rest[0])
    ensures LeadsTo(s, c, H.Line(f), NextLine(c, f.name, f.value), FieldEvents([f]), rest)
  {
    EncodableIsText(s, f);
    LineThen(s, c, f.name, f.value, rest);
    NextLineLog(c, f.name, f.value);
    assert [f][1..] == [];
    assert FieldEvents([f]) == [Data(Field, f.name), Data(Value, TrimLeft(f.value))] + [];
  }

  lemma {:induction false} NeutralLine(s: Settings, c: Conf, f: H.Field)
    requires AtLine(c) && H.Encodable(f) && Neutral(f.name) && c.nread + |H.Line(f)| <= s.limit
    ensures Takes(c.p, f.name, f.value) && KeepsHead(c.p, NextLine(c, f.name, f.value).p)
  {
    assert f.name != "" && AllTokens(f.name) by {
      EncodableIsText(s, f);
    }
    NameMatches(s, c, f.name);
    NeutralNext(c, f.name, f.value);
  }

  lemma LeadsOn(s: Settings, c: Conf, w: string, d: Conf, a: seq<Event>, v: string, e: Conf, b: seq<Event>,
      rest: string)
    requires LeadsTo(s, c, w, d, a, v + rest) && LeadsTo(s, d, v, e, b, rest)
    ensures LeadsTo(s, c, w + v, e, a + b, rest)
  {
    Regroup(w, v, rest);
    Regroup(c.log, a, b);
    ShiftShift(RunOf(s, e, rest), |v|, |w|);
  }

  lemma {:induction false} LinesBegin(fields: seq<H.Field>, rest: string)
    requires H.AllEncodable(fields) && rest != "" && !IsBlank(rest[0])
    ensures var t := H.Lines(fields) + rest; t != "" && !IsBlank(t[0])
  {
    if fields != [] {
      assert H.Encodable(fields[0]);
      assert (H.Lines(fields) + rest)[0] == fields[0].name[0];
    }
  }

  /** The configurations after a line, and after some lines, once the next one begins. */
  function Follow(c: Conf, f: H.Field): Conf {
    if f.name != "" && Takes(c.p, f.name, f.value) then NextLine(c, f.name, f.value) else c
  }

  function FollowAll(c: Conf, fields: seq<H.Field>): Conf
    decreases |fields|
  {
    if fields == [] then c else FollowAll(Follow(c, fields[0]), fields[1..])
  }

  /** Neutral fields are delivered as they were written, and leave the message's framing alone. */
  lemma {:induction false} NeutralLines(s: Settings, c: Conf, fields: seq<H.Field>, rest: string)
    requires AtLine(c) && H.AllEncodable(fields) && AllNeutral(fields)
    requires c.nread + |H.Lines(fields)| < s.limit && rest != "" && !IsBlank(rest[0])
    ensures LeadsTo(s, c, H.Lines(fields), FollowAll(c, fields), FieldEvents(fields), rest)
    ensures KeepsHead(c.p, FollowAll(c, fields).p)
    decreases |fields|
  {
    if fields == [] {
      assert "" + rest == rest;
      assert c.log + [] == c.log;
    } else {
      var f, more := fields[0], fields[1..];
      assert H.Encodable(f) && Neutral(f.name);
      NeutralLine(s, c, f);
      var d, e := Follow(c, f), FollowAll(c, fields);
      LinesBegin(more, rest);
      LineLeads(s, c, f, H.Lines(more) + rest);
      NeutralLines(s, d, more, rest);
      FieldEventsCons(f, more);
      LeadsOn(s, c, H.Line(f), d, FieldEvents([f]), H.Lines(more), e, FieldEvents(more), rest);
      KeepsHeadTrans(c.p, d.p, e.p);
      assert [f] + more == fields;
    }
  }

  lemma {:induction false} FieldEventsCons(f: H.Field, more: seq<H.Field>)
    ensures FieldEvents([f] + more) == FieldEvents([f]) + FieldEvents(more)
  {
    assert ([f] + more)[1..] == more && [f][1..] == [];
  }

  lemma {:induction false} FieldEventsConcat(a: seq<H.Field>, b: seq<H.Field>)
    ensures FieldEvents(a + b) == FieldEvents(a) + FieldEvents(b)
    decreases |a|
  {
    if a == [] {
      assert a + b == b;
    } else {
      assert (a + b)[1..] == a[1..] + b;
      FieldEventsConcat(a[1..], b);
    }
  }

  // ---------- the Content-Length line ----------

  /** A length that the conservative check against overflow lets through. */
  predicate LengthFits(n: nat) {
    n / 10 <= (ULLONG_MAX - 10) / 10
  }

  predicate IsNumber(digits: string) {
    AllDigits(digits) && digits != ""
  }

  /** The parser that has announced a body of `n` bytes. */
  function Announced(p: Parser, n: nat): Parser {
    p.(flags := p.flags.(contentLength := true), contentLength := n)
  }

  lemma LengthByte(p: Parser, ch: char)
    requires p.hstate.HContentLengthNum? && IsNum(ch) && p.contentLength <= (ULLONG_MAX - 10) / 10
    ensures ValueByte(p, ch) == Consume(p.(contentLength := p.contentLength * 10 + Digit(ch)), None)
  {
  }

  lemma {:induction false} DigitsOf(digits: string)
    requires IsNumber(digits)
    ensures var front := digits[..|digits| - 1];
            AllDigits(front) && IsNum(digits[|digits| - 1]) &&
            Decimal(digits) == Decimal(front) * 10 + Digit(digits[|digits| - 1]) &&
                Decimal(digits) / 10 == Decimal(front)
  {
  }

  lemma ValueFoldSnoc(p: Parser, v: string, ch: char, q: Parser, r: Parser)
    requires ValueFold(p, v) == Some(q) && ValueByte(q, ch) == Consume(r, None)
    ensures ValueFold(p, v + [ch]) == Some(r)
  {
    assert (v + [ch])[..|v|] == v;
  }

  /** The digits behind the first one are accumulated to the number. */
  lemma {:induction false} LengthFold(p: Parser, digits: string)
    requires p.hstate.HContentLengthNum? && IsNumber(digits) && p.contentLength == Digit(digits[0]) &&
             LengthFits(Decimal(digits))
    ensures ValueFold(p, digits[1..]) == Some(p.(contentLength := Decimal(digits)))
    decreases |digits|
  {
    var front, ch := digits[..|digits| - 1], digits[|digits| - 1];
    DigitsOf(digits);
    if front == "" {
      assert Decimal(front) == 0;
      assert digits[1..] == "";
    } else {
      assert LengthFits(Decimal(front));
      LengthFold(p, front);
      var q, r := p.(contentLength := Decimal(front)), p.(contentLength := Decimal(digits));
      LengthByte(q, ch);
      ValueFoldSnoc(p, front[1..], ch, q, r);
      assert front[1..] + [ch] == digits[1..];
    }
  }

  lemma LengthStart(p: Parser, ch: char)
    requires p.hstate.HContentLength? && !p.flags.contentLength && IsNum(ch)
    ensures StartValue(p, ch) ==
            Some(Announced(p, Digit(ch)).(state := HeaderValue, index := 0, hstate := HContentLengthNum))
  {
  }

  lemma {:induction false} DigitsAreTrim(digits: string)
    requires IsNumber(digits)
    ensures TrimLeft(digits) == digits
  {
    assert IsNum(digits[0]);
  }

  /** The parser at the end of a Content-Length line has read the number. */
  lemma {:induction false} LengthTakes(p: Parser, name: string, digits: string)
    requires name != "" && AllTokens(name) && LowerToken(name) == CONTENT_LENGTH_NAME && !p.flags.contentLength
    requires IsNumber(digits) && LengthFits(Decimal(digits))
    ensures Takes(p, name, digits)
    ensures var q := EndOfLine(p, name, digits);
            q == Announced(p, Decimal(digits)).(state := HeaderValueLws, index := 0, hstate := HContentLengthNum,
                usesTE := q.usesTE)
    ensures EndOfLine(p, name, digits).usesTE == p.usesTE
  {
    DigitsAreTrim(digits);
    assert IsNum(digits[0]);
    LengthNamed(p, name);
    var q := AtValue(p, name);
    LengthStart(q, digits[0]);
    LengthFold(StartValue(q, digits[0]).value, digits);
  }

  lemma {:induction false} LengthNamed(p: Parser, name: string)
    requires name != "" && AllTokens(name) && LowerToken(name) == CONTENT_LENGTH_NAME
    ensures var q := AtValue(p, name);
            q.hstate.HContentLength? &&
                q == p.(state := HeaderValueDiscardWs, index := q.index, hstate := HContentLength)
  {
    NamedKnows(p, name);
    NamesExact(Named(p, name).hstate, Named(p, name).index, LowerToken(name));
    LengthIsNotTe();
  }

  lemma LengthIsNotTe()
    ensures !StartsLikeTe(CONTENT_LENGTH_NAME)
  {
    assert |CONTENT_LENGTH_NAME| < |TRANSFER_ENCODING_NAME|;
  }

  lemma {:induction false} LengthLine(s: Settings, c: Conf, f: H.Field)
    requires AtLine(c) && H.Encodable(f) && LowerToken(f.name) == CONTENT_LENGTH_NAME && !c.p.flags.contentLength
    requires IsNumber(f.value) && LengthFits(Decimal(f.value))
    ensures Takes(c.p, f.name, f.value)
    ensures var q := NextLine(c, f.name, f.value).p;
            q.line == c.p.line && q.usesTE == c.p.usesTE && q.contentLength == Decimal(f.value) &&
            q.flags == c.p.flags.(contentLength := true)
  {
    assert f.name != "" && AllTokens(f.name) by {
      EncodableIsText(Settings(0, false, false, _ => 0), f);
    }
    LengthTakes(c.p, f.name, f.value);
  }

  /** The parser `q` has read the header fields of a message that announces a body of `n` bytes. */
  predicate Announces(p: Parser, q: Parser, n: nat) {
    q.line == p.line && q.usesTE == p.usesTE && q.contentLength == n &&
    q.flags == p.flags.(contentLength := true, chunked := q.flags.chunked, keepAlive := q.flags.keepAlive,
                        close := q.flags.close, connUpgrade := q.flags.connUpgrade)
  }

  lemma AnnouncedByParts(p: Parser, a: Parser, b: Parser, q: Parser, n: nat)
    requires KeepsHead(p, a) && KeepsHead(b, q)
    requires b.line == a.line && b.usesTE == a.usesTE && b.contentLength == n &&
             b.flags == a.flags.(contentLength := true)
    ensures Announces(p, q, n)
  {
  }

  /** Header fields of a message with one Content-Length field and otherwise neutral ones. */
  predicate LengthSection(before: seq<H.Field>, length: H.Field, after: seq<H.Field>, n: nat) {
    H.AllEncodable(before) && H.AllEncodable(after) && AllNeutral(before) && AllNeutral(after) && H.Encodable(length) &&
    LowerToken(length.name) == CONTENT_LENGTH_NAME && IsNumber(length.value) && Decimal(length.value) == n &&
        LengthFits(n)
  }

  function AfterSection(c: Conf, before: seq<H.Field>, length: H.Field, after: seq<H.Field>): Conf {
    FollowAll(Follow(FollowAll(c, before), length), after)
  }

  lemma {:induction false} SectionLeads(s: Settings, c: Conf, before: seq<H.Field>, length: H.Field,
      after: seq<H.Field>,
                                        n: nat, rest: string)
    requires AtLine(c) && LengthSection(before, length, after, n) && !c.p.flags.contentLength
    requires c.nread + |H.Lines(before)| + |H.Line(length)| + |H.Lines(after)| < s.limit
    requires rest != "" && !IsBlank(rest[0])
    ensures LeadsTo(s, c, H.Lines(before) + H.Line(length) + H.Lines(after), AfterSection(c, before, length, after),
                    FieldEvents(before) + FieldEvents([length]) + FieldEvents(after), rest)
    ensures Announces(c.p, AfterSection(c, before, length, after).p, n)
  {
    var tail := H.Lines(after) + rest;
    LinesBegin(after, rest);
    LinesBegin([length], tail);
    assert H.Lines([length]) == H.Line(length) by {
      assert [length][1..] == [];
    }
    var a := FollowAll(c, before);
    NeutralLines(s, c, before, H.Line(length) + tail);
    LengthLine(s, a, length);
    var b := Follow(a, length);
    var e := FollowAll(b, after);
    LineLeads(s, a, length, tail);
    NeutralLines(s, b, after, rest);
    LeadsOn(s, c, H.Lines(before), a, FieldEvents(before), H.Line(length), b, FieldEvents([length]), tail);
    LeadsOn(s, c, H.Lines(before) + H.Line(length), b, FieldEvents(before) + FieldEvents([length]), H.Lines(after), e,
            FieldEvents(after), rest);
    AnnouncedByParts(c.p, a.p, b.p, e.p, n);
  }

  // ---------- the end of the header section ----------

  /** A request that announces its body, is not chunked, and asks for no upgrade. */
  predicate PlainRequest(p: Parser) {
    p.line.kind == Request && p.line.verb != CONNECT && !p.usesTE &&
    p.flags.contentLength && !p.flags.chunked && !p.flags.trailing && !p.flags.upgrade && !p.flags.skipBody
  }

  function HeadDone(c: Conf): Conf {
    var p := c.p.(upgrade := false);
    if p.contentLength == 0
    then Conf(p.(state := NewMessage(p)), 0, c.log + [HeadersComplete, MessageComplete])
    else Conf(p.(state := BodyIdentity), 0, c.log + [HeadersComplete])
  }

  lemma HeadCr(s: Settings, c: Conf)
    requires c.p.state.HeaderFieldStart? && c.nread < s.limit
    ensures Step(s, c, CR) == Consumed(Conf(c.p.(state := HeadersAlmostDone), c.nread + 1, c.log))
  {
    ExpectStep(s, c, CR, HeadersAlmostDone);
  }

  lemma HeadCrRun(s: Settings, c: Conf)
    requires c.p.state.HeaderFieldStart? && c.nread < s.limit
    ensures RunOf(s, c, [CR]) == Ran(Conf(c.p.(state := HeadersAlmostDone), c.nread + 1, c.log))
  {
    HeadCr(s, c);
    assert "" + [CR] == [CR];
    RunThenByte(s, c, "", CR, c, Conf(c.p.(state := HeadersAlmostDone), c.nread + 1, c.log));
  }

  lemma HeadersCompleteArm(s: Settings, c: Conf)
    requires c.p.state.HeadersAlmostDone? && PlainRequest(c.p) && s.onHeadersComplete(c.log) == 0
    ensures ArmOf(s, c, LF) ==
            Repeats(Conf(c.p.(state := HeadersDone, upgrade := false), c.nread, c.log + [HeadersComplete]))
  {
  }

  lemma HeadersDoneOf(s: Settings, c: Conf)
    requires c.p.state.HeadersDone? && PlainRequest(c.p) && !c.p.upgrade && c.p.contentLength < ULLONG_MAX
    ensures ArmOf(s, c, LF) ==
            Consumed(if c.p.contentLength == 0
                     then Conf(c.p.(state := NewMessage(c.p)), 0, c.log + [MessageComplete])
                     else Conf(c.p.(state := BodyIdentity), 0, c.log))
  {
  }

  lemma {:induction false} HeadLf(s: Settings, c: Conf)
    requires c.p.state.HeadersAlmostDone? && PlainRequest(c.p) && s.onHeadersComplete(c.log) == 0
    requires c.p.contentLength < ULLONG_MAX && c.nread < s.limit
    ensures Step(s, c, LF) == Consumed(HeadDone(c))
  {
    var d := Counted(c);
    var mid := Conf(d.p.(state := HeadersDone, upgrade := false), d.nread, d.log + [HeadersComplete]);
    HeadersCompleteArm(s, d);
    HeadersDoneOf(s, mid);
    assert Chain(s, mid, LF) == Consumed(HeadDone(c)) by {
      assert c.log + [HeadersComplete] + [MessageComplete] == c.log + [HeadersComplete, MessageComplete];
    }
  }

  lemma {:induction false} HeadEnds(s: Settings, c: Conf)
    requires c.p.state.HeaderFieldStart? && PlainRequest(c.p) && s.onHeadersComplete(c.log) == 0
    requires c.p.contentLength < ULLONG_MAX && c.nread + 2 <= s.limit
    ensures RunOf(s, c, [CR] + [LF]) == Ran(HeadDone(c))
  {
    var d := Conf(c.p.(state := HeadersAlmostDone), c.nread + 1, c.log);
    HeadCrRun(s, c);
    HeadLf(s, d);
    RunThenByte(s, c, [CR], LF, d, HeadDone(c));
  }

  // ---------- the body ----------

  /** The parser behind the last byte of a counted body. */
  function BodyRead(p: Parser): Parser {
    p.(contentLength := 0, state := MessageDone)
  }

  function BodyDone(c: Conf, body: string): Conf {
    var p := BodyRead(c.p);
    Conf(p.(state := NewMessage(p)), c.nread, c.log + [Data(Body, body), MessageComplete])
  }

  lemma LastBodyRepeats(s: Settings, c: Conf, ch: char)
    requires c.p.state.BodyIdentity? && c.p.contentLength == 1
    ensures ArmOf(s, c, ch) == Repeats(Conf(BodyRead(c.p), c.nread, Emit(c.log, Data(Body, [ch]))))
  {
  }

  lemma MessageDoneOf(s: Settings, c: Conf, ch: char)
    requires c.p.state.MessageDone?
    ensures var d := Conf(c.p.(state := NewMessage(c.p)), c.nread, c.log + [MessageComplete]);
            Chain(s, c, ch) == if c.p.upgrade then Result.Leaves(d) else Consumed(d)
  {
  }

  lemma LastBodyByte(s: Settings, c: Conf, ch: char)
    requires c.p.state.BodyIdentity? && c.p.contentLength == 1
    ensures var p := BodyRead(c.p);
            var d := Conf(p.(state := NewMessage(p)), c.nread, Emit(c.log, Data(Body, [ch])) + [MessageComplete]);
            Step(s, c, ch) == if c.p.upgrade then Result.Leaves(d) else Consumed(d)
  {
    LastBodyRepeats(s, c, ch);
    MessageDoneOf(s, ArmOf(s, c, ch).c, ch);
  }

  /** What comes before the last byte of a body. */
  lemma {:induction false} LastBodyStep(s: Settings, c: Conf, front: string, last: char)
    requires Inv(c) && c.p.state.BodyIdentity? && c.p.contentLength == |front| + 1 && !EndsIn(c.log, Body)
    ensures var d, e := RunOf(s, c, front), BodyDone(c, front + [last]);
            d.Ran? && Step(s, d.c, last) == if c.p.upgrade then Result.Leaves(e) else Consumed(e)
  {
    if front == "" {
      LastBodyByte(s, c, last);
      assert front + [last] == [last];
      assert c.log + [Data(Body, [last])] + [MessageComplete] == c.log + [Data(Body, [last]), MessageComplete];
    } else {
      BodyStretch(s, c, front);
      LastBodyByte(s, Conf(AfterBody(c.p, |front|), c.nread, Emit(c.log, Data(Body, front))), last);
      EmitPieces(c.log, Body, front, [last]);
    }
  }

  /** A body of the announced length is delivered whole, and the message ends with its last byte, where the parser
      goes on to the next message or leaves for another protocol. */
  lemma {:induction false} BodyRun(s: Settings, c: Conf, body: string)
    requires Inv(c) && c.p.state.BodyIdentity? && c.p.contentLength == |body| && !EndsIn(c.log, Body)
    ensures RunOf(s, c, body) ==
            if c.p.upgrade then RanUpgraded(BodyDone(c, body), |body|) else Ran(BodyDone(c, body))
  {
    var front, last := body[..|body| - 1], body[|body| - 1];
    assert body == front + [last];
    LastBodyStep(s, c, front, last);
    RunSnoc(s, c, front, last);
  }
}
