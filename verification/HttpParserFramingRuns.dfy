/** Whole runs keep flags and content length in agreement with the delivered header fields. */
module HttpParserFramingRuns {
  import opened Options
  import opened HttpBytes
  import opened HttpHeaderText
  import opened HttpParserTypes
  import opened HttpParserArms
  import opened HttpParserRun
  import opened HttpParserSections
  import opened HttpParserInvariant
  import opened HttpParserStretch
  import opened HttpParserGrammar
  import opened HttpParserNames
  import opened HttpParserValues
  import opened HttpParserFraming

  // ---------- names ----------

  lemma {:induction false} NameEndsPhase(log: seq<Event>)
    requires EndsIn(log, Field)
    ensures PhaseOf(log) == Name || PhaseOf(log) == TrailerName || PhaseOf(log) == Bad
  {
  }

  lemma {:induction false} StartsAfresh(c: Conf)
    requires Lawful(c) && c.p.state.HeaderFieldStart?
    ensures !EndsIn(c.log, Field)
  {
    if EndsIn(c.log, Field) {
      NameEndsPhase(c.log);
    }
  }

  lemma {:induction false} FieldStartShape(p: Parser, ch: char)
    requires FieldStartArm(p, ch).Consume? && FieldStartArm(p, ch).p.state.HeaderField?
    ensures var r := FieldStartArm(p, ch);
            r.event == Some(Data(Field, [ch])) &&
                r.p == p.(state := HeaderField, index := r.p.index, hstate := r.p.hstate)
  {
  }

  lemma {:induction false} FieldStartFramed(c: Conf, ch: char, q: Parser, nread: nat)
    requires Framed(c) && c.p.state.HeaderFieldStart? && !EndsIn(c.log, Field)
    requires q == c.p.(state := HeaderField, index := q.index, hstate := q.hstate) &&
             Names(q.hstate, q.index, [Token(ch)])
    ensures Framed(Conf(q, nread, Emit(c.log, Data(Field, [ch]))))
  {
    FieldsQuiet(c.log, Some(Data(Field, [ch])));
    assert LowerToken([ch]) == [Token(ch)];
  }

  lemma {:induction false} FieldByteFramed(c: Conf, ch: char, nread: nat)
    requires Framed(c) && c.p.state.HeaderField? && IsToken(ch) && Good(c.p)
    ensures Framed(Conf(FieldNext(c.p, ch), nread, Emit(c.log, Data(Field, [ch]))))
  {
    var q, name := FieldNext(c.p, ch), c.log[|c.log| - 1].bytes;
    FieldByteMatches(c.p, ch);
    FieldByteFrame(c.p, ch);
    NamesStep(c.p, ch, LowerToken(name));
    LowerTokenSnoc(name, ch);
    FieldsQuiet(c.log, Some(Data(Field, [ch])));
  }

  /** Moving on within the name or the blanks after it. */
  lemma NamedFramed(c: Conf, q: Parser, nread: nat)
    requires Framed(c) && NamedState(c.p.state) && NamedState(q.state) && q == c.p.(state := q.state)
    ensures Framed(Conf(q, nread, c.log))
  {
  }

  // ---------- values ----------

  /** What the first byte of a value may change. */
  predicate StartsOnly(p: Parser, q: Parser) {
    q.state == p.state && q.flags == p.flags.(upgrade := q.flags.upgrade, contentLength := q.flags.contentLength) &&
    if p.hstate.HContentLength? then !p.flags.contentLength && q.flags.contentLength && q.contentLength < 10
    else q.flags.contentLength == p.flags.contentLength && q.contentLength == p.contentLength
  }

  lemma {:induction false} ValueStartLength(p: Parser, ch: char)
    requires ValueStart(p, ch).Consume? && p.hstate.HContentLength?
    ensures StartsOnly(p, ValueStart(p, ch).p)
  {
  }

  lemma {:induction false} ValueStartEffect(p: Parser, ch: char)
    requires ValueStart(p, ch).Consume?
    ensures StartsOnly(p, ValueStart(p, ch).p)
  {
    if p.hstate.HContentLength? {
      ValueStartLength(p, ch);
    }
  }

  lemma {:induction false} ValueStartFramed(c: Conf, ch: char, q: Parser, nread: nat)
    requires Framed(c) && NamedState(c.p.state) && ch != CR
    requires ValueStartArm(c.p, ch) == Consume(q, Some(Data(Value, [ch])))
    ensures Framed(Conf(q, nread, Emit(c.log, Data(Value, [ch]))))
  {
    var p := c.p.(state := HeaderValue, index := 0);
    var name := c.log[|c.log| - 1].bytes;
    var n, out := LowerToken(name), Emit(c.log, Data(Value, [ch]));
    ValueFirstTells(c.p.(state := HeaderValue), n, ch);
    ValueStartEffect(p, ch);
    NamesExact(c.p.hstate, c.p.index, n);
    assert out[..|out| - 1] == c.log;
    assert InPair(out) && NameOf(out) == name && ValueOf(out) == [ch] && Closed(out) == Fields(c.log);
  }

  /** The blank that opens a folded line. */
  lemma {:induction false} FoldFramed(c: Conf, ch: char, q: Parser, nread: nat)
    requires Framed(c) && c.p.state.HeaderValueStart? && IsBlank(ch) && !c.p.hstate.HContentLengthNum?
    requires ValueStartArm(c.p, ch) == Consume(q, Some(Data(Value, [ch])))
    ensures Framed(Conf(q, nread, Emit(c.log, Data(Value, [ch]))))
  {
    FieldsMoreValue(c.log, [ch]);
    FoldOpen(c.p, ch, q, Closed(c.log), LowerToken(NameOf(c.log)), ValueOf(c.log));
  }

  lemma {:induction false} FoldOpen(p: Parser, ch: char, q: Parser, fs: seq<(string, string)>, n: string, v: string)
    requires OpenValue(p, fs, n, v) && IsBlank(ch) && !p.hstate.HContentLengthNum?
    requires ValueStartArm(p, ch) == Consume(q, Some(Data(Value, [ch])))
    ensures q.state.HeaderValue? && OpenValue(q, fs, n, v + [ch])
  {
    TellsNotLength(p, n, v);
    ValueStartEffect(p.(state := HeaderValue, index := 0), ch);
    ValueFoldTells(p.(state := HeaderValue), n, v, ch);
    SaidSoFarMore(p.flags, fs, n, v, ch);
  }

  lemma {:induction false} TellsNotLength(p: Parser, n: string, v: string)
    requires Tells(p, n, v)
    ensures !p.hstate.HContentLength?
    ensures n == CONTENT_LENGTH_NAME <==> p.hstate.HContentLengthNum? || p.hstate.HContentLengthWs?
  {
    DistinctNames(n);
  }

  lemma SaidSoFarMore(f: Flags, fs: seq<(string, string)>, n: string, v: string, ch: char)
    requires FlagsSaidSoFar(f, fs, n, v)
    ensures FlagsSaidSoFar(f, fs, n, v + [ch])
  {
    ClosedWordSnoc(v, ch, KEEP_ALIVE_WORD);
    ClosedWordSnoc(v, ch, CLOSE_WORD);
    ClosedWordSnoc(v, ch, UPGRADE_NAME);
  }

  lemma {:induction false} ValueByteLength(p: Parser, ch: char)
    requires ValueByte(p, ch).Consume?
    ensures var q := ValueByte(p, ch).p;
            if p.hstate.HContentLength? || p.hstate.HContentLengthNum? || p.hstate.HContentLengthWs?
            then p.contentLength < ULLONG_MAX ==> q.contentLength < ULLONG_MAX
            else q.contentLength == p.contentLength
  {
  }

  lemma {:induction false} ValueByteFramed(c: Conf, ch: char, nread: nat)
    requires Framed(c) && c.p.state.HeaderValue? && Good(c.p)
    requires IsHeaderChar(ch) && ch != CR && ValueByte(c.p, ch).Consume?
    ensures Framed(Conf(ValueByte(c.p, ch).p, nread, Emit(c.log, Data(Value, [ch]))))
  {
    var q, n, v := ValueByte(c.p, ch).p, LowerToken(NameOf(c.log)), ValueOf(c.log);
    ValueByteFrame(c.p, ch);
    ValueByteTells(c.p, n, v, ch);
    ValueByteFlags(c.p, n, v, ch);
    ValueByteLength(c.p, ch);
    TellsNotLength(c.p, n, v);
    FieldsMoreValue(c.log, [ch]);
    SaidSoFarMore(c.p.flags, Closed(c.log), n, v, ch);
  }

  /** The line ends, or a fold is found. */
  lemma {:induction false} ValuedFramed(c: Conf, q: Parser, nread: nat)
    requires Framed(c) && ValuedState(c.p.state) && ValuedState(q.state)
    requires q == c.p.(state := q.state) ||
             (c.p.hstate.HContentLengthNum? && q == c.p.(state := q.state, hstate := HContentLengthWs))
    ensures Framed(Conf(q, nread, c.log))
  {
    if q.hstate != c.p.hstate {
      TellsNotLength(c.p, LowerToken(NameOf(c.log)), ValueOf(c.log));
      NumeralOfDigits(ValueOf(c.log));
    }
  }

  lemma {:induction false} FinishedSaid(p: Parser, fs: seq<(string, string)>, name: string, v: string)
    requires OpenValue(p, fs, LowerToken(name), v)
    ensures FlagsSaid(FinishedFlags(p), fs + [(name, v)])
  {
    FinishedFlagsTell(p, LowerToken(name), v);
    ChunkedSaidMore(fs, name, v);
    WordSaidMore(fs, name, v, KEEP_ALIVE_WORD);
    WordSaidMore(fs, name, v, CLOSE_WORD);
    WordSaidMore(fs, name, v, UPGRADE_NAME);
  }

  lemma {:induction false} FinishedLength(p: Parser, fs: seq<(string, string)>, name: string, v: string)
    requires OpenValue(p, fs, LowerToken(name), v) && !p.flags.trailing
    ensures LengthSaid(p, fs + [(name, v)])
  {
    LengthFieldsSnoc(fs, name, v);
    TellsNotLength(p, LowerToken(name), v);
    if p.hstate.HContentLengthNum? {
      NumeralOfDigits(v);
    }
  }

  /** The header line is finished. */
  lemma {:induction false} FinishFramed(c: Conf, nread: nat)
    requires Framed(c) && c.p.state.HeaderValueLws?
    ensures Framed(Conf(c.p.(flags := FinishedFlags(c.p), state := HeaderFieldStart), nread, c.log))
  {
    var fs, name, v := Closed(c.log), NameOf(c.log), ValueOf(c.log);
    FieldsMoreValue(c.log, "");
    FinishedSaid(c.p, fs, name, v);
    FinishedFlagsTell(c.p, LowerToken(name), v);
    if !c.p.flags.trailing {
      FinishedLength(c.p, fs, name, v);
    }
  }

  /** A header line without a value. */
  lemma {:induction false} EmptySaid(p: Parser, fs: seq<(string, string)>, name: string)
    requires FlagsSaid(p.flags, fs) && (!p.flags.trailing ==> LengthSaid(p, fs))
    requires Names(p.hstate, p.index, LowerToken(name)) && !p.hstate.HContentLength?
    ensures FlagsSaid(p.flags, fs + [(name, "")])
    ensures !p.flags.trailing ==> LengthSaid(p, fs + [(name, "")])
  {
    NamesExact(p.hstate, p.index, LowerToken(name));
    FlagsSaidMore(p.flags, fs, name, "");
    LengthFieldsSnoc(fs, name, "");
  }

  lemma NamesFinished(p: Parser, name: string)
    requires Names(p.hstate, p.index, name)
    ensures FinishedFlags(p) == p.flags
  {
  }

  lemma {:induction false} EmptyFramed(c: Conf, nread: nat)
    requires Framed(c) && c.p.state.HeaderValueDiscardLws? && !c.p.hstate.HContentLength?
    ensures Framed(Conf(c.p.(flags := FinishedFlags(c.p), state := HeaderFieldStart), nread,
              Emit(c.log, Data(Value, ""))))
  {
    var name := c.log[|c.log| - 1].bytes;
    EmptySaid(c.p, Fields(c.log), name);
    NamesFinished(c.p, LowerToken(name));
    FieldsNewValue(c.log, "");
  }

  // ---------- whole runs ----------

  /** The byte with which a folded line is entered is a blank, and a number has been closed before. */
  predicate Folding(p: Parser, ch: char) {
    p.state.HeaderValueStart? ==> IsBlank(ch) && !p.hstate.HContentLengthNum?
  }

  ghost predicate ResultFramed(r: Result, ch: char) {
    (r.Consumed? || r.Repeats? || r.Leaves? ==> Framed(r.c)) && (r.Repeats? ==> Folding(r.c.p, ch)) &&
    (r.Consumed? || r.Leaves? ==> !r.c.p.state.HeaderValueStart?)
  }

  /** What an arm does to the parser and what it delivers agree. */
  ghost predicate OutcomeFramed(c: Conf, r: Outcome, ch: char) {
    (r.Consume? || r.Again? || r.Upgraded? ==> Framed(Conf(r.p, c.nread, EmitOption(c.log, r.event)))) &&
    (r.Again? ==> Folding(r.p, ch)) && (r.Consume? || r.Upgraded? ==> !r.p.state.HeaderValueStart?)
  }

  lemma HeaderOutcome(s: Settings, c: Conf, ch: char)
    requires HeaderState(c.p.state) && OutcomeFramed(c, HeaderArm(s, c.p, ch), ch)
    ensures ResultFramed(ArmOf(s, c, ch), ch)
  {
    HeaderByte(s, c, ch);
  }

  lemma {:induction false} FieldArmFramed(c: Conf, ch: char)
    requires Inside(c) && Framed(c) && c.p.state.HeaderField?
    ensures OutcomeFramed(c, FieldArm(c.p, ch), ch)
  {
    if IsToken(ch) {
      FieldByteMatches(c.p, ch);
      FieldByteFrame(c.p, ch);
      FieldByteFramed(c, ch, c.nread);
    } else if ch == ':' {
      NamedFramed(c, c.p.(state := HeaderValueDiscardWs), c.nread);
    }
  }

  lemma {:induction false} NameStartsFramed(c: Conf, ch: char, nread: nat)
    requires Inside(c) && Framed(c) && Lawful(c) && c.p.state.HeaderFieldStart?
    requires IsToken(ch) && ch != CR && ch != LF
    ensures Framed(Conf(FieldStartArm(c.p, ch).p, nread, Emit(c.log, Data(Field, [ch]))))
  {
    StartsAfresh(c);
    FieldStartShape(c.p, ch);
    NamesFirst(c.p, ch);
    FieldStartFramed(c, ch, FieldStartArm(c.p, ch).p, nread);
  }

  lemma {:induction false} FieldStartArmFramed(c: Conf, ch: char)
    requires Inside(c) && Framed(c) && Lawful(c) && c.p.state.HeaderFieldStart?
    ensures OutcomeFramed(c, FieldStartArm(c.p, ch), ch)
  {
    if ch == CR || ch == LF {
      EndStartsFramed(c, c.nread);
    } else if IsToken(ch) {
      var next := Conf(FieldStartArm(c.p, ch).p, c.nread, Emit(c.log, Data(Field, [ch])));
      assert Framed(next) by { NameStartsFramed(c, ch, c.nread); }
      assert FieldStartArm(c.p, ch) == Consume(next.p, Some(Data(Field, [ch]))) by { FieldStartShape(c.p, ch); }
    }
  }

  lemma {:induction false} EndStartsFramed(c: Conf, nread: nat)
    requires Framed(c) && c.p.state.HeaderFieldStart?
    ensures Framed(Conf(c.p.(state := HeadersAlmostDone), nread, c.log))
  {
  }

  lemma {:induction false} DiscardLwsFramed(c: Conf, ch: char)
    requires Framed(c) && c.p.state.HeaderValueDiscardLws?
    ensures OutcomeFramed(c, DiscardLwsArm(c.p, ch), ch)
  {
    if IsBlank(ch) {
      NamedFramed(c, c.p.(state := HeaderValueDiscardWs), c.nread);
    } else if !c.p.hstate.HContentLength? {
      EmptyFramed(c, c.nread);
    }
  }

  lemma {:induction false} ValueBeginsFramed(c: Conf, ch: char)
    requires Framed(c) && c.p.state.HeaderValueDiscardWs? && !IsBlank(ch) && ch != CR && ch != LF
    ensures OutcomeFramed(c, ValueStartArm(c.p, ch), ch)
  {
    ValueStartShape(c.p, ch);
    var r := ValueStartArm(c.p, ch);
    if r.Consume? {
      ValueStartFramed(c, ch, r.p, c.nread);
    }
  }

  lemma {:induction false} LeadArmsFramed(s: Settings, c: Conf, ch: char)
    requires Framed(c) && (c.p.state.HeaderValueDiscardWs? || c.p.state.HeaderValueDiscardWsAlmostDone?)
    ensures OutcomeFramed(c, HeaderArm(s, c.p, ch), ch)
  {
    if c.p.state.HeaderValueDiscardWs? && !IsBlank(ch) && ch != CR && ch != LF {
      ValueBeginsFramed(c, ch);
    } else {
      NamedFramed(c, c.p.(state := HeaderValueDiscardWs), c.nread);
      NamedFramed(c, c.p.(state := HeaderValueDiscardLws), c.nread);
      NamedFramed(c, c.p.(state := HeaderValueDiscardWsAlmostDone), c.nread);
    }
  }

  lemma {:induction false} ValueArmFramed(s: Settings, c: Conf, ch: char)
    requires Inside(c) && Framed(c) && c.p.state.HeaderValue? && !s.lenient
    ensures OutcomeFramed(c, ValueArm(s, c.p, ch), ch)
  {
    if ch == CR || ch == LF {
      ValuedFramed(c, c.p.(state := HeaderAlmostDone), c.nread);
    } else {
      ValueByteMatches(c.p, ch);
      if IsHeaderChar(ch) && ValueByte(c.p, ch).Consume? {
        ValueByteFrame(c.p, ch);
        ValueByteFramed(c, ch, c.nread);
      }
    }
  }

  lemma {:induction false} LwsArmFramed(c: Conf, ch: char)
    requires Framed(c) && c.p.state.HeaderValueLws?
    ensures OutcomeFramed(c, ValueLwsArm(c.p, ch), ch)
  {
    if IsBlank(ch) {
      var h := if c.p.hstate.HContentLengthNum? then HContentLengthWs else c.p.hstate;
      ValuedFramed(c, c.p.(hstate := h, state := HeaderValueStart), c.nread);
    } else {
      FinishFramed(c, c.nread);
    }
  }

  lemma {:induction false} AlmostDoneFramed(c: Conf, ch: char)
    requires Framed(c) && c.p.state.HeaderAlmostDone?
    ensures OutcomeFramed(c, Expect(c.p, ch, LF, LfExpected, HeaderValueLws), ch)
  {
    ValuedFramed(c, c.p.(state := HeaderValueLws), c.nread);
  }

  lemma {:induction false} FoldArmFramed(c: Conf, ch: char)
    requires Framed(c) && Folding(c.p, ch) && c.p.state.HeaderValueStart?
    ensures OutcomeFramed(c, ValueStartArm(c.p, ch), ch)
  {
    ValueStartShape(c.p, ch);
    var r := ValueStartArm(c.p, ch);
    if r.Consume? {
      FoldFramed(c, ch, r.p, c.nread);
    }
  }

  lemma {:induction false} HeaderArmFramed(s: Settings, c: Conf, ch: char)
    requires Inside(c) && Framed(c) && Lawful(c) && Folding(c.p, ch) && !s.lenient && HeaderState(c.p.state)
    ensures OutcomeFramed(c, HeaderArm(s, c.p, ch), ch)
  {
    if c.p.state.HeaderFieldStart? {
      FieldStartArmFramed(c, ch);
    } else if c.p.state.HeaderField? {
      FieldArmFramed(c, ch);
    } else if c.p.state.HeaderValueDiscardLws? {
      DiscardLwsFramed(c, ch);
    } else if c.p.state.HeaderValue? {
      ValueArmFramed(s, c, ch);
    } else if c.p.state.HeaderValueLws? {
      LwsArmFramed(c, ch);
    } else if c.p.state.HeaderAlmostDone? {
      AlmostDoneFramed(c, ch);
    } else if c.p.state.HeaderValueStart? {
      FoldArmFramed(c, ch);
    } else {
      LeadArmsFramed(s, c, ch);
    }
  }

  lemma {:induction false} OtherArmsFramed(s: Settings, c: Conf, ch: char)
    requires Framed(c) && !HeaderState(c.p.state)
    ensures ResultFramed(ArmOf(s, c, ch), ch)
  {
    var answer := s.onHeadersComplete(c.log);
    ArmLeaves(s, c.p, ch, answer);
    var r := Arm(s, c.p, ch, answer);
    if r.Consume? || r.Again? || r.Upgraded? {
      LeavesFramed(c, r.p, r.event, if ResetsNread(c.p.state) then 0 else c.nread);
    }
  }

  lemma {:induction false} ArmFramed(s: Settings, c: Conf, ch: char)
    requires Inside(c) && Framed(c) && Lawful(c) && Folding(c.p, ch) && !s.lenient
    ensures ResultFramed(ArmOf(s, c, ch), ch)
  {
    if HeaderState(c.p.state) {
      HeaderArmFramed(s, c, ch);
      HeaderOutcome(s, c, ch);
    } else {
      OtherArmsFramed(s, c, ch);
    }
  }

  lemma {:induction false} ChainFramed(s: Settings, c: Conf, ch: char)
    requires Inside(c) && Framed(c) && Lawful(c) && Folding(c.p, ch) && !s.lenient
    ensures ResultFramed(Chain(s, c, ch), ch)
    decreases Rank(c.p.state)
  {
    ArmFramed(s, c, ch);
    var r := ArmOf(s, c, ch);
    if r.Repeats? {
      ArmOfInv(s, c, ch);
      ArmOfLawful(s, c, ch);
      AgainLowersRank(s, c.p, ch, s.onHeadersComplete(c.log));
      ChainFramed(s, r.c, ch);
    }
  }

  /** All that holds of a parser between two bytes. */
  ghost predicate Explained(c: Conf) {
    Inv(c) && Lawful(c) && Framed(c) && !c.p.state.HeaderValueStart?
  }

  lemma InitExplained(kind: Kind)
    ensures Explained(Conf(Init(kind), 0, []))
  {
  }

  /** Every run of a parser that is not lenient keeps flags and content length explained by the header
      fields it has delivered. */
  lemma {:induction false} RunExplained(s: Settings, c: Conf, data: string)
    requires Explained(c) && !s.lenient
    ensures var r := RunOf(s, c, data); r.Ran? || r.RanUpgraded? ==> Explained(r.c)
    decreases |data|
  {
    if data != "" {
      ChainFramed(s, Counted(c), data[0]);
      ChainLawful(s, Counted(c), data[0]);
      StepInv(s, c, data[0]);
      var r := Step(s, c, data[0]);
      if r.Consumed? {
        RunExplained(s, r.c, data[1..]);
      }
    }
  }

  /** The name in front of a colon is one of the known names exactly when `header_state` says so. */
  lemma NameDecided(c: Conf)
    requires Framed(c) && NamedState(c.p.state)
    ensures EndsIn(c.log, Field)
    ensures var n := LowerToken(c.log[|c.log| - 1].bytes);
            (c.p.hstate.HConnection? <==> n == CONNECTION_NAME || n == PROXY_CONNECTION_NAME) &&
            (c.p.hstate.HContentLength? <==> n == CONTENT_LENGTH_NAME) &&
            (c.p.hstate.HTransferEncoding? <==> n == TRANSFER_ENCODING_NAME) &&
            (c.p.hstate.HUpgrade? <==> n == UPGRADE_NAME)
  {
    NamesExact(c.p.hstate, c.p.index, LowerToken(c.log[|c.log| - 1].bytes));
  }

  lemma {:induction false} HeadersCompleteShape(s: Settings, p: Parser, ch: char, answer: int)
    requires HeadersAlmostDoneArm(s, p, ch, answer).Again? &&
             HeadersAlmostDoneArm(s, p, ch, answer).p.state.HeadersDone?
    ensures var r := HeadersAlmostDoneArm(s, p, ch, answer);
            r.event == Some(HeadersComplete) && !r.p.flags.trailing
  {
  }

  lemma HeadersCompleteConf(s: Settings, c: Conf, ch: char)
    requires c.p.state.HeadersAlmostDone? && ArmOf(s, c, ch).Repeats? && ArmOf(s, c, ch).c.p.state.HeadersDone?
    ensures var d := ArmOf(s, c, ch).c; !d.p.flags.trailing && d.log == EmitOption(c.log, Some(HeadersComplete))
  {
    HeadersCompleteShape(s, c.p, ch, s.onHeadersComplete(c.log));
  }

  lemma SaidAtHead(d: Conf)
    requires Framed(d) && d.p.state.HeadersDone? && !d.p.flags.trailing
    ensures FlagsSaid(d.p.flags, Fields(d.log)) && LengthSaid(d.p, Fields(d.log))
  {
  }

  /** When the header section of a message ends, the content length and the list flags are what its
      header fields say. */
  lemma {:induction false} FramingAtHeadersComplete(s: Settings, c: Conf, ch: char)
    requires Framed(c) && c.p.state.HeadersAlmostDone? && ArmOf(s, c, ch).Repeats?
    requires ArmOf(s, c, ch).c.p.state.HeadersDone?
    ensures var d := ArmOf(s, c, ch).c;
            Fields(d.log) == Fields(c.log) && FlagsSaid(d.p.flags, Fields(d.log)) && LengthSaid(d.p, Fields(d.log))
  {
    var d := ArmOf(s, c, ch).c;
    OtherArmsFramed(s, c, ch);
    HeadersCompleteConf(s, c, ch);
    SaidAtHead(d);
    FieldsQuiet(c.log, Some(HeadersComplete));
  }
}
