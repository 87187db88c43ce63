/** What a header section says about the message, field by field, and that the parser has understood exactly that when
    the section ends. */
module HttpParserSaid {
  import opened Options
  import opened Sequences
  import opened HttpBytes
  import opened HttpHeaderText
  import opened HttpParserTypes
  import opened HttpParserArms
  import opened HttpParserRun
  import opened HttpParserInvariant
  import opened HttpParserStretch
  import opened HttpParserNames
  import opened HttpParserValues
  import opened HttpParserHeaderLines
  import opened HttpParserRequests
  import opened HttpParserLists
  import H = HeaderFields

  /** What fields say: `coded` that there is a transfer coding, the words of Connection fields, that another protocol is
      offered, and the length of the body. */
  datatype Said = Said(coded: bool, chunked: bool, keepAlive: bool, close: bool, connUpgrade: bool, upgrade: bool,
                       length: Option<nat>)

  const NOTHING := Said(false, false, false, false, false, false, None)

  function SaidBy(f: H.Field): Said {
    var n, v := LowerToken(f.name), TrimLeft(f.value);
    Said(StartsLikeTe(n),
         n == TRANSFER_ENCODING_NAME && EndsWithWord(v, CHUNKED_WORD),
         IsConnectionName(n) && HasWord(v, KEEP_ALIVE_WORD),
         IsConnectionName(n) && HasWord(v, CLOSE_WORD),
         IsConnectionName(n) && HasWord(v, UPGRADE_NAME),
         n == UPGRADE_NAME && v != "",
         if n == CONTENT_LENGTH_NAME && AllDigits(v) then Some(Decimal(v)) else None)
  }

  function Together(a: Said, b: Said): Said {
    Said(a.coded || b.coded, a.chunked || b.chunked, a.keepAlive || b.keepAlive, a.close || b.close,
         a.connUpgrade || b.connUpgrade, a.upgrade || b.upgrade, if b.length.Some? then b.length else a.length)
  }

  function SaidByAll(fields: seq<H.Field>): Said {
    if fields == [] then NOTHING else Together(SaidBy(fields[0]), SaidByAll(fields[1..]))
  }

  /** A field that may be sent and whose value, if the parser looks into it, is written as usual: a list without
      strange elements, or a number. */
  predicate Clear(f: H.Field) {
    var n, v := LowerToken(f.name), TrimLeft(f.value);
    H.Encodable(f) &&
    (IsConnectionName(n) ==> CleanOptions(v)) &&
    (n == TRANSFER_ENCODING_NAME ==> CleanCodings(v)) &&
    (n == CONTENT_LENGTH_NAME ==> IsNumber(v) && LengthFits(Decimal(v)))
  }

  /** All fields are clear, and there is one length at most. */
  predicate AllClear(fields: seq<H.Field>) {
    fields == [] ||
    (Clear(fields[0]) && AllClear(fields[1..]) &&
     (SaidBy(fields[0]).length.Some? ==> SaidByAll(fields[1..]).length == None))
  }

  /** The flags with what has been said added to them. */
  function AddFlags(f: Flags, said: Said): Flags {
    f.(chunked := f.chunked || said.chunked, keepAlive := f.keepAlive || said.keepAlive,
       close := f.close || said.close, connUpgrade := f.connUpgrade || said.connUpgrade,
       upgrade := f.upgrade || said.upgrade, contentLength := f.contentLength || said.length.Some?)
  }

  /** The parser after it has been told. */
  function Told(p: Parser, said: Said): Parser {
    p.(flags := AddFlags(p.flags, said), usesTE := p.usesTE || said.coded,
       contentLength := if said.length.Some? then said.length.value else p.contentLength)
  }

  /** The parsers differ in their matchers at most. */
  predicate SameButMatcher(p: Parser, q: Parser) {
    q == p.(state := q.state, hstate := q.hstate, index := q.index)
  }

  lemma ToldTwice(p: Parser, a: Said, b: Said)
    ensures Told(Told(p, a), b) == Told(p, Together(a, b))
  {
  }

  lemma ToldSame(p: Parser, q: Parser, r: Parser, a: Said, b: Said)
    requires SameButMatcher(Told(p, a), q) && SameButMatcher(Told(q, b), r)
    ensures SameButMatcher(Told(p, Together(a, b)), r)
  {
    ToldTwice(p, a, b);
  }

  // ---------- one line ----------

  /** The parser has taken the line and stands in front of the next one. */
  predicate Understands(p: Parser, name: string, value: string, said: Said)
    requires name != ""
  {
    Takes(p, name, value) &&
    SameButMatcher(Told(p, said), EndOfLine(p, name, value).(flags := FinishedFlags(EndOfLine(p, name, value))))
  }

  /** The last step of a value: the word at its end counts. */
  lemma ValueUnderstood(p: Parser, name: string, value: string, q: Parser, said: Said)
    requires name != "" && TrimLeft(value) != "" && Valued(AtValue(p, name), TrimLeft(value)) == Some(q)
    requires SameButMatcher(Told(p, said), q.(flags := FinishedFlags(q)))
    ensures Understands(p, name, value, said)
  {
    FinishedSame(q, HeaderValueLws);
  }

  lemma FinishedSame(q: Parser, state: State)
    ensures FinishedFlags(q.(state := state)) == FinishedFlags(q)
  {
    var r := q.(state := state);
    assert r.hstate == q.hstate && r.flags == q.flags;
  }

  /** The parser at the first byte of a value, and what it knows about the name. */
  lemma {:induction false} NameKnown(p: Parser, name: string)
    requires name != "" && AllTokens(name)
    ensures var q, n := AtValue(p, name), LowerToken(name);
            q == p.(state := HeaderValueDiscardWs, index := q.index, hstate := q.hstate,
                    usesTE := p.usesTE || StartsLikeTe(n)) &&
            Names(q.hstate, q.index, n) &&
            (q.hstate.HConnection? <==> IsConnectionName(n)) &&
            (q.hstate.HContentLength? <==> n == CONTENT_LENGTH_NAME) &&
            (q.hstate.HTransferEncoding? <==> n == TRANSFER_ENCODING_NAME) &&
            (q.hstate.HUpgrade? <==> n == UPGRADE_NAME)
  {
    NamedKnows(p, name);
    NamesExact(Named(p, name).hstate, Named(p, name).index, LowerToken(name));
  }

  lemma NamesFinish(p: Parser, n: string)
    requires Names(p.hstate, p.index, n)
    ensures FinishedFlags(p) == p.flags
  {
    match p.hstate
    case HConnKeepAlive => case HConnClose => case HConnUpgrade => case HTeChunked =>
    case _ =>
  }

  lemma SaidEmpty(f: H.Field)
    requires TrimLeft(f.value) == "" && LowerToken(f.name) != CONTENT_LENGTH_NAME
    ensures SaidBy(f) == NOTHING.(coded := StartsLikeTe(LowerToken(f.name)))
  {
    assert LastElement("") == "" && Trim("") == "";
  }

  /** A field without a value. */
  lemma {:induction false} EmptyUnderstood(p: Parser, f: H.Field)
    requires f.name != "" && AllTokens(f.name) && Clear(f) && TrimLeft(f.value) == ""
    ensures Understands(p, f.name, f.value, SaidBy(f))
  {
    NameKnown(p, f.name);
    SaidEmpty(f);
    var q := AtValue(p, f.name);
    assert FinishedFlags(q) == q.flags by { NamesFinish(q, LowerToken(f.name)); }
    FinishedSame(q, HeaderValueDiscardLws);
  }

  lemma StartGeneral(p: Parser, ch: char, n: string)
    requires Names(p.hstate, p.index, n)
    requires !p.hstate.HConnection? && !p.hstate.HContentLength? && !p.hstate.HTransferEncoding?
    ensures StartValue(p, ch) ==
            Some(p.(state := HeaderValue, index := 0, hstate := HGeneral,
                    flags := p.flags.(upgrade := p.flags.upgrade || p.hstate.HUpgrade?)))
  {
    match p.hstate
    case HUpgrade =>
    case _ =>
  }

  lemma OtherSaid(f: H.Field)
    requires var n := LowerToken(f.name);
             !IsConnectionName(n) && n != CONTENT_LENGTH_NAME && n != TRANSFER_ENCODING_NAME
    ensures SaidBy(f) == NOTHING.(coded := StartsLikeTe(LowerToken(f.name)),
                                  upgrade := LowerToken(f.name) == UPGRADE_NAME && TrimLeft(f.value) != "")
  {
  }

  /** A field into whose value the parser does not look. */
  lemma {:induction false} OtherUnderstood(p: Parser, f: H.Field)
    requires f.name != "" && AllTokens(f.name) && TrimLeft(f.value) != ""
    requires var n := LowerToken(f.name);
             !IsConnectionName(n) && n != CONTENT_LENGTH_NAME && n != TRANSFER_ENCODING_NAME
    ensures Understands(p, f.name, f.value, SaidBy(f))
  {
    var q, v := AtValue(p, f.name), TrimLeft(f.value);
    NameKnown(p, f.name);
    StartGeneral(q, v[0], LowerToken(f.name));
    GeneralFold(StartValue(q, v[0]).value, v[1..]);
    OtherSaid(f);
  }

  /** A list of options. */
  lemma {:induction false} OptionsUnderstood(p: Parser, f: H.Field)
    requires f.name != "" && AllTokens(f.name) && TrimLeft(f.value) != "" && !IsBlank(TrimLeft(f.value)[0])
    requires IsConnectionName(LowerToken(f.name)) && CleanOptions(TrimLeft(f.value))
    ensures Understands(p, f.name, f.value, SaidBy(f))
  {
    NameKnown(p, f.name);
    var at, v := AtValue(p, f.name), TrimLeft(f.value);
    OptionsExact(at, v);
    assert SaidBy(f) == SaidOptions(v) && !StartsLikeTe(LowerToken(f.name)) by { OptionsSaid(f); }
    ValueUnderstood(p, f.name, f.value, Valued(at, v).value, SaidOptions(v));
  }

  function SaidOptions(v: string): Said {
    NOTHING.(keepAlive := HasWord(v, KEEP_ALIVE_WORD), close := HasWord(v, CLOSE_WORD),
             connUpgrade := HasWord(v, UPGRADE_NAME))
  }

  lemma OptionsSaid(f: H.Field)
    requires IsConnectionName(LowerToken(f.name))
    ensures SaidBy(f) == SaidOptions(TrimLeft(f.value)) && !StartsLikeTe(LowerToken(f.name))
  {
    DistinctNames(LowerToken(f.name));
    DifferentNames(LowerToken(f.name));
    assert |LowerToken(f.name)| == |CONNECTION_NAME| || |LowerToken(f.name)| == |PROXY_CONNECTION_NAME|;
  }

  lemma CodingsSaid(f: H.Field)
    requires LowerToken(f.name) == TRANSFER_ENCODING_NAME
    ensures SaidBy(f) == NOTHING.(coded := true, chunked := EndsWithWord(TrimLeft(f.value), CHUNKED_WORD))
    ensures StartsLikeTe(LowerToken(f.name))
  {
    DistinctNames(LowerToken(f.name));
    DifferentNames(LowerToken(f.name));
    assert TRANSFER_ENCODING_NAME[..|TRANSFER_ENCODING_NAME|] == TRANSFER_ENCODING_NAME;
  }

  /** A list of codings. */
  lemma {:induction false} CodingsUnderstood(p: Parser, f: H.Field)
    requires f.name != "" && AllTokens(f.name) && TrimLeft(f.value) != "" && !IsBlank(TrimLeft(f.value)[0])
    requires LowerToken(f.name) == TRANSFER_ENCODING_NAME && CleanCodings(TrimLeft(f.value))
    ensures Understands(p, f.name, f.value, SaidBy(f))
  {
    NameKnown(p, f.name);
    var at, v := AtValue(p, f.name), TrimLeft(f.value);
    var said := NOTHING.(coded := true, chunked := EndsWithWord(v, CHUNKED_WORD));
    CodingsExact(at, v);
    assert SaidBy(f) == said && StartsLikeTe(LowerToken(f.name)) by { CodingsSaid(f); }
    ValueUnderstood(p, f.name, f.value, Valued(at, v).value, said);
  }

  /** A length. */
  lemma {:induction false} LengthUnderstood(p: Parser, f: H.Field)
    requires f.name != "" && AllTokens(f.name) && LowerToken(f.name) == CONTENT_LENGTH_NAME && !p.flags.contentLength
    requires IsNumber(TrimLeft(f.value)) && LengthFits(Decimal(TrimLeft(f.value)))
    ensures Understands(p, f.name, f.value, SaidBy(f))
  {
    var v := TrimLeft(f.value);
    NameKnown(p, f.name);
    LengthIsNotTe();
    DistinctNames(LowerToken(f.name));
    var q := AtValue(p, f.name);
    assert IsNum(v[0]);
    LengthStart(q, v[0]);
    LengthFold(StartValue(q, v[0]).value, v);
  }

  lemma {:induction false} TrimmedStart(value: string)
    requires TrimLeft(value) != ""
    ensures !IsBlank(TrimLeft(value)[0])
  {
    if IsBlank(value[0]) {
      TrimmedStart(value[1..]);
    }
  }

  /** A clear field is understood, in both directions: nothing that it says is missed and nothing else is taken up. */
  lemma {:induction false} FieldUnderstood(p: Parser, f: H.Field)
    requires f.name != "" && AllTokens(f.name) && Clear(f) && (SaidBy(f).length.Some? ==> !p.flags.contentLength)
    ensures Understands(p, f.name, f.value, SaidBy(f))
  {
    var n := LowerToken(f.name);
    if TrimLeft(f.value) == "" {
      EmptyUnderstood(p, f);
    } else {
      TrimmedStart(f.value);
      if IsConnectionName(n) {
        OptionsUnderstood(p, f);
      } else if n == TRANSFER_ENCODING_NAME {
        CodingsUnderstood(p, f);
      } else if n == CONTENT_LENGTH_NAME {
        LengthUnderstood(p, f);
      } else {
        OtherUnderstood(p, f);
      }
    }
  }

  // ---------- whole sections ----------

  lemma NextTold(c: Conf, name: string, value: string, said: Said)
    requires name != "" && Understands(c.p, name, value, said)
    ensures SameButMatcher(Told(c.p, said), NextLine(c, name, value).p)
  {
  }

  lemma LengthToldOnce(p: Parser, q: Parser, said: Said)
    requires SameButMatcher(Told(p, said), q)
    ensures q.flags.contentLength <==> p.flags.contentLength || said.length.Some?
  {
  }

  /** The configuration behind a header section. */
  function AfterFields(c: Conf, fields: seq<H.Field>): Conf
    decreases |fields|
  {
    if fields == [] then c
    else
      var f := fields[0];
      if f.name != "" && Takes(c.p, f.name, f.value) then AfterFields(NextLine(c, f.name, f.value), fields[1..]) else c
  }

  lemma AfterFirst(c: Conf, fields: seq<H.Field>)
    requires fields != [] && fields[0].name != "" && Takes(c.p, fields[0].name, fields[0].value)
    ensures AfterFields(c, fields) == AfterFields(NextLine(c, fields[0].name, fields[0].value), fields[1..])
  {
  }

  lemma {:induction false} ClearLines(fields: seq<H.Field>)
    requires AllClear(fields)
    ensures H.AllEncodable(fields)
  {
    if fields != [] {
      ClearLines(fields[1..]);
      forall i | 0 <= i < |fields| ensures H.Encodable(fields[i]) {
        assert i > 0 ==> fields[i] == fields[1..][i - 1];
      }
    }
  }

  lemma {:induction false} OneFieldRun(s: Settings, c: Conf, f: H.Field, rest: string)
    requires AtLine(c) && Clear(f) && (SaidBy(f).length.Some? ==> !c.p.flags.contentLength)
    requires c.nread + |H.Line(f)| < s.limit && rest != "" && !IsBlank(rest[0])
    ensures f.name != "" && Takes(c.p, f.name, f.value)
    ensures LeadsTo(s, c, H.Line(f), NextLine(c, f.name, f.value), FieldEvents([f]), rest)
    ensures SameButMatcher(Told(c.p, SaidBy(f)), NextLine(c, f.name, f.value).p)
  {
    assert f.name != "" && AllTokens(f.name) by { EncodableIsText(s, f); }
    FieldUnderstood(c.p, f);
    LineLeads(s, c, f, rest);
    NextTold(c, f.name, f.value, SaidBy(f));
  }

  /** A header section is delivered field by field as it was written, and when it ends the parser has been told exactly
      what the fields say. */
  lemma {:induction false} FieldsRun(s: Settings, c: Conf, fields: seq<H.Field>, rest: string)
    requires AtLine(c) && AllClear(fields) && (SaidByAll(fields).length.Some? ==> !c.p.flags.contentLength)
    requires c.nread + |H.Lines(fields)| < s.limit && rest != "" && !IsBlank(rest[0])
    ensures LeadsTo(s, c, H.Lines(fields), AfterFields(c, fields), FieldEvents(fields), rest)
    ensures SameButMatcher(Told(c.p, SaidByAll(fields)), AfterFields(c, fields).p)
    decreases |fields|
  {
    if fields == [] {
      assert "" + rest == rest;
      assert c.log + [] == c.log;
    } else {
      var f, more := fields[0], fields[1..];
      FirstFieldRun(s, c, f, more, rest);
      var d, e := NextLine(c, f.name, f.value), AfterFields(c, fields);
      AfterFirst(c, fields);
      LengthToldOnce(c.p, d.p, SaidBy(f));
      FieldsRun(s, d, more, rest);
      LinesLead(s, c, fields, d, e, rest);
      ToldSame(c.p, d.p, e.p, SaidBy(f), SaidByAll(more));
    }
  }

  /** The first line and the others make the section. */
  lemma {:induction false} LinesLead(s: Settings, c: Conf, fields: seq<H.Field>, d: Conf, e: Conf, rest: string)
    requires fields != []
    requires LeadsTo(s, c, H.Line(fields[0]), d, FieldEvents([fields[0]]), H.Lines(fields[1..]) + rest)
    requires LeadsTo(s, d, H.Lines(fields[1..]), e, FieldEvents(fields[1..]), rest)
    ensures LeadsTo(s, c, H.Lines(fields), e, FieldEvents(fields), rest)
  {
    var f, more := fields[0], fields[1..];
    FieldEventsCons(f, more);
    assert [f] + more == fields;
    LeadsOn(s, c, H.Line(f), d, FieldEvents([f]), H.Lines(more), e, FieldEvents(more), rest);
  }

  /** The first field of a section, with the lines of the others behind it. */
  lemma {:induction false} FirstFieldRun(s: Settings, c: Conf, f: H.Field, more: seq<H.Field>, rest: string)
    requires AtLine(c) && Clear(f) && AllClear(more) && (SaidBy(f).length.Some? ==> !c.p.flags.contentLength)
    requires c.nread + |H.Line(f)| < s.limit && rest != "" && !IsBlank(rest[0])
    ensures f.name != "" && Takes(c.p, f.name, f.value)
    ensures LeadsTo(s, c, H.Line(f), NextLine(c, f.name, f.value), FieldEvents([f]), H.Lines(more) + rest)
    ensures SameButMatcher(Told(c.p, SaidBy(f)), NextLine(c, f.name, f.value).p)
  {
    ClearLines(more);
    LinesBegin(more, rest);
    OneFieldRun(s, c, f, H.Lines(more) + rest);
  }
}
