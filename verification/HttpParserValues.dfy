/** What the header-value matchers know about the value read so far. */
module HttpParserValues {
  import opened Options
  import opened HttpBytes
  import opened HttpHeaderText
  import opened HttpParserTypes
  import opened HttpParserArms
  import opened HttpParserNames

  /** The last list element so far is, apart from blanks before it, a proper beginning of the word. */
  predicate Begins(v: string, word: string, index: nat) {
    index + 1 < |word| && SameWord(TrimLeft(LastElement(v)), word[..index + 1])
  }

  predicate BeginsElement(v: string) {
    AllBlank(LastElement(v))
  }

  predicate EndsWith(v: string, word: string) {
    EndsWithWord(v, word) && !AllBlank(LastElement(v))
  }

  predicate TellsLength(h: HState, length: nat, v: string) {
    (h.HContentLengthNum? && v != "" && AllDigits(v) && length == Decimal(v)) ||
    (h.HContentLengthWs? && Numeral(v) && length == Decimal(TrimRight(v)))
  }

  predicate TellsCoding(h: HState, index: nat, v: string) {
    (h.HMatchingTeTokenStart? && index == 0 && BeginsElement(v)) ||
    (h.HMatchingTeChunked? && Begins(v, CHUNKED_WORD, index)) ||
    h.HMatchingTeToken? ||
    (h.HTeChunked? && EndsWith(v, CHUNKED_WORD))
  }

  predicate TellsOptions(h: HState, index: nat, v: string) {
    (h.HMatchingConnTokenStart? && index == 0 && BeginsElement(v)) ||
    (h.HMatchingConnKeepAlive? && Begins(v, KEEP_ALIVE_WORD, index)) ||
    (h.HMatchingConnClose? && Begins(v, CLOSE_WORD, index)) ||
    (h.HMatchingConnUpgrade? && Begins(v, UPGRADE_NAME, index)) ||
    h.HMatchingConnToken? ||
    (h.HConnKeepAlive? && EndsWith(v, KEEP_ALIVE_WORD)) ||
    (h.HConnClose? && EndsWith(v, CLOSE_WORD)) ||
    (h.HConnUpgrade? && EndsWith(v, UPGRADE_NAME))
  }

  /** What the matcher state says about the value `v` of the header with lower-cased name `n`. */
  predicate Tells(p: Parser, n: string, v: string) {
    (p.hstate.HGeneral? && n != CONTENT_LENGTH_NAME) ||
    (n == CONTENT_LENGTH_NAME && TellsLength(p.hstate, p.contentLength, v)) ||
    (n == TRANSFER_ENCODING_NAME && TellsCoding(p.hstate, p.index, v)) ||
    (IsConnectionName(n) && TellsOptions(p.hstate, p.index, v))
  }

  lemma DistinctNames(n: string)
    ensures n == CONTENT_LENGTH_NAME ==> n != TRANSFER_ENCODING_NAME && !IsConnectionName(n)
    ensures n == TRANSFER_ENCODING_NAME ==> !IsConnectionName(n)
  {
    DifferentNames(n);
  }

  // ---------- words ----------

  /** A literal of lower-case letters and hyphens. */
  predicate WordLiteral(word: string) {
    forall i :: 0 <= i < |word| ==> 'a' <= word[i] <= 'z' || word[i] == '-'
  }

  lemma BeginsFirst(v: string, ch: char, word: string)
    requires BeginsElement(v) && |word| >= 2 && WordLiteral(word) && ch != CR && Lower(ch) == word[0]
    ensures Begins(v + [ch], word, 0)
  {
    LowerIsSameChar(ch, word[0]);
    LastElementSnoc(v, ch);
    TrimLeftSnoc(LastElement(v), ch);
  }

  lemma BeginsMore(v: string, ch: char, word: string, index: nat)
    requires Begins(v, word, index) && WordLiteral(word) && ch != CR && Lower(ch) == word[index + 1]
    ensures index + 2 < |word| ==> Begins(v + [ch], word, index + 1)
    ensures index + 2 == |word| ==> EndsWith(v + [ch], word)
  {
    var e := LastElement(v);
    LowerIsSameChar(ch, word[index + 1]);
    LastElementSnoc(v, ch);
    if AllBlank(e) {
      TrimLeftBlank(e);
    }
    TrimLeftSnoc(e, ch);
    SameWordSnoc(TrimLeft(e), ch, word);
    if index + 2 == |word| {
      TrimRightSnoc(TrimLeft(e), ch);
      assert word[..|word|] == word;
      NotBlankSnoc(e, ch);
    }
  }

  lemma NotBlankSnoc(e: string, ch: char)
    ensures AllBlank(e + [ch]) <==> AllBlank(e) && IsBlank(ch)
  {
    if AllBlank(e + [ch]) {
      assert (e + [ch])[|e|] == ch;
      forall i | 0 <= i < |e| ensures IsBlank(e[i]) {
        assert (e + [ch])[i] == e[i];
      }
    }
  }

  lemma EndsWithSpace(v: string, word: string)
    requires EndsWith(v, word)
    ensures EndsWith(v + [' '], word)
  {
    LastElementSnoc(v, ' ');
    TrimLeftSnoc(LastElement(v), ' ');
    TrimRightSnoc(TrimLeft(LastElement(v)), ' ');
    NotBlankSnoc(LastElement(v), ' ');
  }

  lemma BeginsElementSnoc(v: string, ch: char)
    ensures ch == ',' ==> BeginsElement(v + [ch])
    ensures BeginsElement(v) && IsBlank(ch) ==> BeginsElement(v + [ch])
  {
    LastElementSnoc(v, ch);
    NotBlankSnoc(LastElement(v), ch);
  }

  /** One step of a word matcher. */
  lemma {:induction false} WordStep(p: Parser, v: string, ch: char, word: string, fallback: HState, found: HState)
    requires Begins(v, word, p.index) && WordLiteral(word) && ch != CR && fallback != found && fallback != p.hstate &&
             found != p.hstate
    ensures var q := MatchLiteral(p, Lower(ch), word, fallback, found);
            q.hstate == fallback ||
            (q.hstate == found && EndsWith(v + [ch], word)) ||
            (q.hstate == p.hstate && Begins(v + [ch], word, q.index))
  {
    CharAtIndexes(word, p.index + 1);
    if Lower(ch) == word[p.index + 1] {
      BeginsMore(v, ch, word, p.index);
    }
  }

  // ---------- one more byte ----------

  lemma {:induction false} LengthStep(p: Parser, n: string, v: string, ch: char)
    requires n == CONTENT_LENGTH_NAME && TellsLength(p.hstate, p.contentLength, v)
    requires ValueByte(p, ch).Consume?
    ensures var q := ValueByte(p, ch).p; TellsLength(q.hstate, q.contentLength, v + [ch])
  {
    TrimRightSnoc(v, ch);
    if p.hstate.HContentLengthNum? {
      assert v == v[..|v| - 1] + [v[|v| - 1]];
      TrimRightSnoc(v[..|v| - 1], v[|v| - 1]);
      if IsNum(ch) {
        DecimalSnoc(v, ch);
      }
    }
  }

  lemma {:induction false} CodingStep(p: Parser, n: string, v: string, ch: char)
    requires n == TRANSFER_ENCODING_NAME && TellsCoding(p.hstate, p.index, v) && IsHeaderChar(ch) && ch != CR
    requires ValueByte(p, ch).Consume?
    ensures var q := ValueByte(p, ch).p; q.hstate.HGeneral? || TellsCoding(q.hstate, q.index, v + [ch])
  {
    BeginsElementSnoc(v, ch);
    if p.hstate.HMatchingTeTokenStart? {
      if Lower(ch) == 'c' {
        BeginsFirst(v, ch, CHUNKED_WORD);
      }
    } else if p.hstate.HMatchingTeChunked? {
      WordStep(p, v, ch, CHUNKED_WORD, HMatchingTeToken, HTeChunked);
    } else if p.hstate.HTeChunked? && ch == ' ' {
      EndsWithSpace(v, CHUNKED_WORD);
    }
  }

  lemma {:induction false} OptionsStartStep(p: Parser, n: string, v: string, ch: char)
    requires p.hstate.HMatchingConnTokenStart? && TellsOptions(p.hstate, p.index, v) && IsHeaderChar(ch) && ch != CR
    ensures ValueByte(p, ch).Consume?
    ensures var q := ValueByte(p, ch).p; q.hstate.HGeneral? || TellsOptions(q.hstate, q.index, v + [ch])
  {
    BeginsElementSnoc(v, ch);
    if Lower(ch) == 'k' {
      BeginsFirst(v, ch, KEEP_ALIVE_WORD);
    } else if Lower(ch) == 'c' {
      BeginsFirst(v, ch, CLOSE_WORD);
    } else if Lower(ch) == 'u' {
      BeginsFirst(v, ch, UPGRADE_NAME);
    }
  }

  lemma {:induction false} OptionsWordStep(p: Parser, v: string, ch: char)
    requires p.hstate.HMatchingConnKeepAlive? || p.hstate.HMatchingConnClose? || p.hstate.HMatchingConnUpgrade?
    requires TellsOptions(p.hstate, p.index, v) && IsHeaderChar(ch) && ch != CR
    ensures ValueByte(p, ch).Consume?
    ensures var q := ValueByte(p, ch).p; TellsOptions(q.hstate, q.index, v + [ch])
  {
    if p.hstate.HMatchingConnKeepAlive? {
      WordStep(p, v, ch, KEEP_ALIVE_WORD, HMatchingConnToken, HConnKeepAlive);
    } else if p.hstate.HMatchingConnClose? {
      WordStep(p, v, ch, CLOSE_WORD, HMatchingConnToken, HConnClose);
    } else {
      WordStep(p, v, ch, UPGRADE_NAME, HMatchingConnToken, HConnUpgrade);
    }
  }

  lemma {:induction false} OptionsEndStep(p: Parser, v: string, ch: char)
    requires p.hstate.HConnKeepAlive? || p.hstate.HConnClose? || p.hstate.HConnUpgrade? || p.hstate.HMatchingConnToken?
    requires TellsOptions(p.hstate, p.index, v)
    ensures ValueByte(p, ch).Consume?
    ensures var q := ValueByte(p, ch).p; TellsOptions(q.hstate, q.index, v + [ch])
  {
    BeginsElementSnoc(v, ch);
    if ch == ' ' && !p.hstate.HMatchingConnToken? {
      EndsWithSpace(v, if p.hstate.HConnKeepAlive? then KEEP_ALIVE_WORD else if p.hstate.HConnClose? then CLOSE_WORD
          else UPGRADE_NAME);
    }
  }

  lemma {:induction false} OptionsStep(p: Parser, n: string, v: string, ch: char)
    requires IsConnectionName(n) && TellsOptions(p.hstate, p.index, v) && IsHeaderChar(ch) && ch != CR
    ensures ValueByte(p, ch).Consume?
    ensures var q := ValueByte(p, ch).p; q.hstate.HGeneral? || TellsOptions(q.hstate, q.index, v + [ch])
  {
    var h := p.hstate;
    if h.HMatchingConnTokenStart? {
      OptionsStartStep(p, n, v, ch);
    } else if h.HMatchingConnKeepAlive? || h.HMatchingConnClose? || h.HMatchingConnUpgrade? {
      OptionsWordStep(p, v, ch);
    } else {
      OptionsEndStep(p, v, ch);
    }
  }

  lemma {:induction false} ValueByteTells(p: Parser, n: string, v: string, ch: char)
    requires Tells(p, n, v) && IsHeaderChar(ch) && ch != CR && ValueByte(p, ch).Consume?
    ensures Tells(ValueByte(p, ch).p, n, v + [ch])
  {
    DistinctNames(n);
    if p.hstate.HGeneral? {
    } else if n == CONTENT_LENGTH_NAME {
      LengthStep(p, n, v, ch);
    } else if n == TRANSFER_ENCODING_NAME {
      CodingStep(p, n, v, ch);
    } else {
      OptionsStep(p, n, v, ch);
    }
  }

  /** The first byte of a value. */
  lemma {:induction false} ValueFirstTells(p: Parser, n: string, ch: char)
    requires Names(p.hstate, p.index, n) && ch != CR
    requires ValueStart(p.(index := 0), ch).Consume?
    ensures Tells(ValueStart(p.(index := 0), ch).p, n, [ch])
  {
    NamesExact(p.hstate, p.index, n);
    DistinctNames(n);
    assert [ch] == "" + [ch];
    assert BeginsElement("");
    var c := Lower(ch);
    if p.hstate.HTransferEncoding? && c == 'c' {
      BeginsFirst("", ch, CHUNKED_WORD);
    } else if p.hstate.HConnection? {
      if c == 'k' {
        BeginsFirst("", ch, KEEP_ALIVE_WORD);
      } else if c == 'c' {
        BeginsFirst("", ch, CLOSE_WORD);
      } else if c == 'u' {
        BeginsFirst("", ch, UPGRADE_NAME);
      }
    } else if p.hstate.HContentLength? {
      DecimalSnoc("", ch);
    }
  }

  /** The blank that opens a folded line. */
  lemma {:induction false} ValueFoldTells(p: Parser, n: string, v: string, ch: char)
    requires Tells(p, n, v) && IsBlank(ch) && !p.hstate.HContentLengthNum?
    ensures ValueStart(p.(index := 0), ch).Consume?
    ensures Tells(ValueStart(p.(index := 0), ch).p, n, v + [ch])
  {
    DistinctNames(n);
    if p.hstate.HContentLengthWs? {
      TrimRightSnoc(v, ch);
    } else if p.hstate.HMatchingTeTokenStart? || p.hstate.HMatchingConnTokenStart? {
      BeginsElementSnoc(v, ch);
    } else {
      FoldForgets(p, n, v, ch);
    }
  }

  lemma {:induction false} FoldForgets(p: Parser, n: string, v: string, ch: char)
    requires Tells(p, n, v)
    requires !p.hstate.HContentLengthNum? && !p.hstate.HContentLengthWs? && !p.hstate.HMatchingTeTokenStart? &&
             !p.hstate.HMatchingConnTokenStart?
    ensures n != CONTENT_LENGTH_NAME
    ensures ValueStart(p.(index := 0), ch) == Consume(p.(index := 0, hstate := HGeneral), None)
  {
    DistinctNames(n);
  }

  /** A digit ends the number: nothing is trimmed. */
  lemma NumeralOfDigits(v: string)
    requires v != "" && AllDigits(v)
    ensures Numeral(v) && TrimRight(v) == v
  {
    assert v == v[..|v| - 1] + [v[|v| - 1]];
    TrimRightSnoc(v[..|v| - 1], v[|v| - 1]);
  }

  // ---------- the flags ----------

  predicate WordEnd(h: HState) {
    h.HConnKeepAlive? || h.HConnClose? || h.HConnUpgrade?
  }

  lemma {:induction false} TellsEnd(p: Parser, n: string, v: string)
    requires Tells(p, n, v)
    ensures p.hstate.HTeChunked? ==> n == TRANSFER_ENCODING_NAME && EndsWithWord(v, CHUNKED_WORD)
    ensures WordEnd(p.hstate) ==> IsConnectionName(n)
    ensures p.hstate.HConnKeepAlive? ==> EndsWithWord(v, KEEP_ALIVE_WORD)
    ensures p.hstate.HConnClose? ==> EndsWithWord(v, CLOSE_WORD)
    ensures p.hstate.HConnUpgrade? ==> EndsWithWord(v, UPGRADE_NAME)
  {
  }

  lemma {:induction false} OtherFlagsStay(p: Parser, ch: char)
    requires !WordEnd(p.hstate) && ValueByte(p, ch).Consume?
    ensures ValueByte(p, ch).p.flags == p.flags
  {
  }

  lemma {:induction false} WordEndFlags(p: Parser, ch: char)
    requires WordEnd(p.hstate)
    ensures ValueByte(p, ch).Consume?
    ensures ValueByte(p, ch).p.flags ==
            if ch != ',' then p.flags
            else if p.hstate.HConnKeepAlive? then p.flags.(keepAlive := true)
            else if p.hstate.HConnClose? then p.flags.(close := true)
            else p.flags.(connUpgrade := true)
  {
  }

  /** The list flags of `now` that `before` lacks are accounted for by the words that `said` admits. */
  predicate Accounted(before: Flags, now: Flags, chunked: bool, keepAlive: bool, close: bool, upgrade: bool) {
    now == before.(chunked := now.chunked, keepAlive := now.keepAlive, close := now.close,
        connUpgrade := now.connUpgrade) &&
    (now.chunked ==> before.chunked || chunked) && (now.keepAlive ==> before.keepAlive || keepAlive) &&
    (now.close ==> before.close || close) && (now.connUpgrade ==> before.connUpgrade || upgrade)
  }

  /** A word flag is new only if an element just closed is the word. */
  lemma {:induction false} ValueByteFlags(p: Parser, n: string, v: string, ch: char)
    requires Tells(p, n, v) && ValueByte(p, ch).Consume?
    ensures Accounted(p.flags, ValueByte(p, ch).p.flags, false,
                      IsConnectionName(n) && ClosedWord(v + [ch], KEEP_ALIVE_WORD),
                      IsConnectionName(n) && ClosedWord(v + [ch], CLOSE_WORD),
                      IsConnectionName(n) && ClosedWord(v + [ch], UPGRADE_NAME))
  {
    if WordEnd(p.hstate) {
      WordEndFlags(p, ch);
      TellsEnd(p, n, v);
      ClosedWordSnoc(v, ch, KEEP_ALIVE_WORD);
      ClosedWordSnoc(v, ch, CLOSE_WORD);
      ClosedWordSnoc(v, ch, UPGRADE_NAME);
    } else {
      OtherFlagsStay(p, ch);
    }
  }

  /** A flag set at the end of the header means that the last element is the word. */
  lemma {:induction false} FinishedFlagsTell(p: Parser, n: string, v: string)
    requires Tells(p, n, v)
    ensures Accounted(p.flags, FinishedFlags(p),
                      n == TRANSFER_ENCODING_NAME && EndsWithWord(v, CHUNKED_WORD),
                      IsConnectionName(n) && EndsWithWord(v, KEEP_ALIVE_WORD),
                      IsConnectionName(n) && EndsWithWord(v, CLOSE_WORD),
                      IsConnectionName(n) && EndsWithWord(v, UPGRADE_NAME))
  {
    TellsEnd(p, n, v);
  }
}
