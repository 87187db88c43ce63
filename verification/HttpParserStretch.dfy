/** What the per-byte form does over a stretch of bytes of one element. The inner loops of
    http_parser_execute go over such a stretch at once. */
module HttpParserStretch {
  import opened Options
  import opened HttpBytes
  import opened HttpParserTypes
  import opened HttpParserArms
  import opened HttpParserRun
  import opened HttpParserInvariant

  // ---------- header field names ----------

  function FieldNext(p: Parser, ch: char): Parser {
    match FieldByte(p, ch, Token(ch)) case None => p case Some(q) => q
  }

  /** The parser after the token bytes of a name. */
  function FieldFold(p: Parser, name: string): Parser {
    if name == "" then p else FieldNext(FieldFold(p, name[..|name| - 1]), name[|name| - 1])
  }

  lemma {:induction false} FieldStep(s: Settings, c: Conf, ch: char)
    requires Inv(c) && c.p.state.HeaderField? && IsToken(ch) && c.nread + 1 <= s.limit
    ensures Step(s, c, ch) == Consumed(Conf(FieldNext(c.p, ch), c.nread + 1, Emit(c.log, Data(Field, [ch]))))
    ensures FieldNext(c.p, ch).state.HeaderField?
  {
    FieldByteMatches(c.p, ch);
    FieldByteFrame(c.p, ch);
  }

  /** A name within the header limit. */
  lemma {:induction false} FieldStretch(s: Settings, c: Conf, name: string)
    requires Inv(c) && c.p.state.HeaderField? && AllTokens(name) && c.nread + |name| <= s.limit
    ensures RunOf(s, c, name) == Ran(Conf(FieldFold(c.p, name), c.nread + |name|, Emit(c.log, Data(Field, name))))
    ensures FieldFold(c.p, name).state.HeaderField?
    decreases |name|
  {
    if name == "" {
      EmitNothing(c.log, Field);
    } else {
      var front, last := name[..|name| - 1], name[|name| - 1];
      assert name == front + [last];
      var d := Conf(FieldFold(c.p, front), c.nread + |front|, Emit(c.log, Data(Field, front)));
      FieldStretch(s, c, front);
      RunInv(s, c, front);
      FieldStep(s, d, last);
      EmitPieces(c.log, Field, front, [last]);
      RunThenByte(s, c, front, last, d, Conf(FieldFold(c.p, name), c.nread + |name|, Emit(c.log, Data(Field, name))));
    }
  }

  lemma OverLimit(s: Settings, c: Conf, ch: char)
    requires ParsingHeader(c.p.state) && c.nread >= s.limit
    ensures Step(s, c, ch) == Failed(HeaderOverflow, c.log)
  {
  }

  /** A name that passes the header limit. */
  lemma {:induction false} FieldStretchOver(s: Settings, c: Conf, name: string)
    requires Inv(c) && c.p.state.HeaderField? && AllTokens(name) && c.nread <= s.limit < c.nread + |name|
    ensures RunOf(s, c, name).RanFailed? && RunOf(s, c, name).errno == HeaderOverflow
    decreases |name|
  {
    var front, last := name[..|name| - 1], name[|name| - 1];
    assert name == front + [last];
    RunSnoc(s, c, front, last);
    if c.nread + |front| <= s.limit {
      FieldStretch(s, c, front);
      OverLimit(s, RunOf(s, c, front).c, last);
    } else {
      FieldStretchOver(s, c, front);
    }
  }

  // ---------- header field values ----------

  /** Bytes that stay inside a value: no line end, and no control character unless lenient. */
  predicate Plain(s: Settings, ch: char) {
    ch != CR && ch != LF && (s.lenient || IsHeaderChar(ch))
  }

  predicate AllPlain(s: Settings, v: string) {
    forall i :: 0 <= i < |v| ==> Plain(s, v[i])
  }

  /** The parser after the bytes of a value, None when a matcher has rejected one. */
  function ValueFold(p: Parser, v: string): Option<Parser> {
    if v == "" then Some(p)
    else match ValueFold(p, v[..|v| - 1])
      case None => None
      case Some(q) => if ValueByte(q, v[|v| - 1]).Consume? then Some(ValueByte(q, v[|v| - 1]).p) else None
  }

  /** A matcher that has given up takes any value. */
  lemma {:induction false} GeneralFold(p: Parser, v: string)
    requires p.hstate.HGeneral?
    ensures ValueFold(p, v) == Some(p)
  {
    if v != "" {
      GeneralFold(p, v[..|v| - 1]);
    }
  }

  lemma {:induction false} ValueStep(s: Settings, c: Conf, ch: char)
    requires Inv(c) && c.p.state.HeaderValue? && Plain(s, ch) && c.nread + 1 <= s.limit
    ensures var r := ValueByte(c.p, ch);
            match r
            case Consume(q, _) =>
              q.state.HeaderValue? && Step(s, c, ch) == Consumed(Conf(q, c.nread + 1, Emit(c.log, Data(Value, [ch]))))
            case Error(e) => Step(s, c, ch) == Failed(e, c.log)
            case _ => false
  {
    ValueByteMatches(c.p, ch);
    if ValueByte(c.p, ch).Consume? {
      ValueByteFrame(c.p, ch);
    }
  }

  lemma {:induction false} ValueStretch(s: Settings, c: Conf, v: string)
    requires Inv(c) && c.p.state.HeaderValue? && AllPlain(s, v) && ValueFold(c.p, v).Some?
    ensures c.nread + |v| <= s.limit ==>
              RunOf(s, c, v) == Ran(Conf(ValueFold(c.p, v).value, c.nread + |v|, Emit(c.log, Data(Value, v))))
    ensures c.nread + |v| <= s.limit ==> ValueFold(c.p, v).value.state.HeaderValue?
    ensures c.nread <= s.limit < c.nread + |v| ==>
              RunOf(s, c, v).RanFailed? && RunOf(s, c, v).errno == HeaderOverflow
    decreases |v|
  {
    if v == "" {
      EmitNothing(c.log, Value);
    } else {
      var front, last := v[..|v| - 1], v[|v| - 1];
      assert v == front + [last];
      ValueStretch(s, c, front);
      RunSnoc(s, c, front, last);
      if c.nread + |front| <= s.limit {
        RunInv(s, c, front);
      }
      if c.nread + |v| <= s.limit {
        ValueStep(s, RunOf(s, c, front).c, last);
        EmitPieces(c.log, Value, front, [last]);
      }
    }
  }

  // ---------- bodies ----------

  predicate BodyBytesState(st: State) {
    st.BodyIdentity? || st.ChunkData? || st.BodyIdentityEof?
  }

  /** The parser after `n` body bytes that do not end a counted body. */
  function AfterBody(p: Parser, n: nat): Parser
    requires !p.state.BodyIdentityEof? ==> n <= p.contentLength
  {
    if p.state.BodyIdentityEof? then p
    else p.(contentLength := p.contentLength - n,
            state := if p.state.ChunkData? && n == p.contentLength then ChunkDataAlmostDone else p.state)
  }

  /** Body bytes that are not the last of a Content-Length body. */
  predicate TakesBody(p: Parser, n: nat) {
    BodyBytesState(p.state) &&
    (p.state.ChunkData? ==> n <= p.contentLength) &&
    (p.state.BodyIdentity? ==> n < p.contentLength)
  }

  lemma {:induction false} BodyStep(s: Settings, c: Conf, ch: char)
    requires Inv(c) && TakesBody(c.p, 1)
    ensures Step(s, c, ch) == Consumed(Conf(AfterBody(c.p, 1), c.nread, Emit(c.log, Data(Body, [ch]))))
  {
  }

  lemma {:induction false} BodyStretch(s: Settings, c: Conf, v: string)
    requires Inv(c) && v != "" && TakesBody(c.p, |v|)
    ensures RunOf(s, c, v) == Ran(Conf(AfterBody(c.p, |v|), c.nread, Emit(c.log, Data(Body, v))))
    decreases |v|
  {
    var front, last := v[..|v| - 1], v[|v| - 1];
    assert v == front + [last];
    if front == "" {
      RunSnoc(s, c, "", last);
      BodyStep(s, c, last);
    } else {
      BodyStretch(s, c, front);
      RunSnoc(s, c, front, last);
      RunInv(s, c, front);
      BodyStep(s, RunOf(s, c, front).c, last);
      EmitPieces(c.log, Body, front, [last]);
    }
  }
}
