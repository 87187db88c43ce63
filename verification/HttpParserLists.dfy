/** Lists of words in Connection and Transfer-Encoding fields: for lists as they are usually written the matchers set
    a flag exactly if its word is among the elements. */
module HttpParserLists {
  import opened HttpBytes
  import opened HttpHeaderText
  import opened Options
  import opened HttpParserTypes
  import opened HttpParserArms
  import opened HttpParserStretch
  import opened HttpParserNames
  import opened HttpParserValues
  import opened HttpParserHeaderLines

  /** The element being read, without the blanks in front of it. */
  function Current(v: string): string {
    TrimLeft(LastElement(v))
  }

  /** `e` begins the word and does not complete it. */
  predicate Stub(e: string, word: string) {
    0 < |e| < |word| && SameWord(e, word[..|e|])
  }

  /** One more byte of a list: elements begin with a letter or a digit behind any number of spaces, and none that a
      comma ends is a mere beginning of one of the words. */
  predicate CleanByte(v: string, ch: char, words: seq<string>) {
    ch != '\t' && ch != CR &&
    (BeginsElement(v) ==> ch == ' ' || IsAlphaNum(ch)) &&
    (ch == ',' ==> forall i :: 0 <= i < |words| ==> !Stub(Current(v), words[i]))
  }

  predicate CleanList(v: string, words: seq<string>) {
    v == "" || (CleanList(v[..|v| - 1], words) && CleanByte(v[..|v| - 1], v[|v| - 1], words))
  }

  /** The words that may stand in a Connection field. */
  const OPTION_WORDS := [KEEP_ALIVE_WORD, CLOSE_WORD, UPGRADE_NAME]

  predicate CleanOptions(v: string) {
    CleanList(v, OPTION_WORDS)
  }

  /** A list of transfer codings in which "chunked" is not followed by another one. */
  predicate CleanCodings(v: string) {
    CleanList(v, [CHUNKED_WORD]) && !ClosedWord(v, CHUNKED_WORD)
  }

  // ---------- elements that are not the word ----------

  /** Whatever comes after `e`, the element is not the word. */
  predicate Misses(e: string, word: string) {
    !(|e| <= |word| && SameWord(e, word[..|e|])) && !SameWord(TrimRight(e), word)
  }

  lemma MissesMore(e: string, ch: char, word: string)
    requires Misses(e, word)
    ensures Misses(e + [ch], word)
  {
    TrimRightSnoc(e, ch);
    if |e| + 1 <= |word| {
      SameWordSnoc(e, ch, word);
    }
    assert word[..|word|] == word;
  }

  lemma MissesHere(e: string, ch: char, word: string)
    requires |e| < |word| && WordLiteral(word) && ch != CR && Lower(ch) != word[|e|]
    ensures Misses(e + [ch], word)
  {
    LowerIsSameChar(ch, word[|e|]);
    TrimRightSnoc(e, ch);
    TrimRightShorter(e);
    SameWordSnoc(e, ch, word);
    assert word[..|word|] == word;
  }

  lemma {:induction false} TrimRightShorter(e: string)
    ensures |TrimRight(e)| <= |e|
    decreases |e|
  {
    if e != "" && IsBlank(e[|e| - 1]) {
      TrimRightShorter(e[..|e| - 1]);
    }
  }

  /** Something after the whole word. */
  lemma MissesBeyond(e: string, ch: char, word: string)
    requires SameWord(TrimRight(e), word) && !IsBlank(ch)
    ensures Misses(e + [ch], word)
  {
    TrimRightSnoc(e, ch);
    TrimRightShorter(e);
  }

  // ---------- one word ----------

  /** What a matcher knows about one word: that it is being read, that it has been read, or that the element is
      another one. */
  predicate Tracks<H(==)>(h: H, index: nat, v: string, word: string, reading: H, found: H) {
    if h == reading then Begins(v, word, index)
    else if h == found then EndsWith(v, word)
    else BeginsElement(v) || Misses(Current(v), word)
  }

  /** What a byte does to the matcher of one word, `start` being the state in front of an element. */
  predicate Moves<H(==)>(h: H, i: nat, k: H, j: nat, ch: char, word: string, start: H, reading: H,
                     found: H)
    requires word != ""
  {
    if h == start then
      if ch == ' ' then k == start
      else k != start && k != found && (if Lower(ch) == word[0] then k == reading && j == 0 else k != reading)
    else if h == reading then
      i + 1 < |word| && k != start &&
      (if Lower(ch) != word[i + 1] then k != reading && k != found
       else if i + 2 == |word| then k == found
       else k == reading && j == i + 1)
    else if h == found then
      if ch == ',' then k == start else if ch == ' ' then k == found else k != start && k != reading && k != found
    else
      k != reading && k != found
  }

  predicate Word(word: string) {
    |word| >= 2 && WordLiteral(word)
  }

  lemma TrackStart(v: string, ch: char, word: string)
    requires BeginsElement(v) && Word(word) && IsAlphaNum(ch)
    ensures if Lower(ch) == word[0] then Begins(v + [ch], word, 0) else Misses(Current(v + [ch]), word)
  {
    LastElementSnoc(v, ch);
    TrimLeftSnoc(LastElement(v), ch);
    if Lower(ch) == word[0] {
      BeginsFirst(v, ch, word);
    } else {
      MissesHere("", ch, word);
      assert "" + [ch] == [ch];
    }
  }

  lemma CurrentSnoc(v: string, ch: char)
    requires !BeginsElement(v) && ch != ','
    ensures Current(v + [ch]) == Current(v) + [ch]
  {
    LastElementSnoc(v, ch);
    TrimLeftSnoc(LastElement(v), ch);
  }

  lemma TrackReads(v: string, ch: char, word: string, i: nat, words: seq<string>)
    requires Begins(v, word, i) && Word(word) && word in words && !BeginsElement(v) && CleanByte(v, ch, words)
    ensures if Lower(ch) != word[i + 1] then Misses(Current(v + [ch]), word) && ch != ','
            else if i + 2 == |word| then EndsWith(v + [ch], word)
            else Begins(v + [ch], word, i + 1)
  {
    var e := Current(v);
    assert |e| == i + 1 && Stub(e, word);
    if Lower(ch) == word[i + 1] {
      BeginsMore(v, ch, word, i);
    } else {
      CurrentSnoc(v, ch);
      MissesHere(e, ch, word);
    }
  }

  lemma TrackFound(v: string, ch: char, word: string)
    requires EndsWith(v, word) && ch != '\t'
    ensures if ch == ',' then BeginsElement(v + [ch])
            else if ch == ' ' then EndsWith(v + [ch], word)
            else Misses(Current(v + [ch]), word)
  {
    if ch == ',' {
      BeginsElementSnoc(v, ch);
    } else if ch == ' ' {
      EndsWithSpace(v, word);
    } else {
      CurrentSnoc(v, ch);
      MissesBeyond(Current(v), ch, word);
    }
  }

  lemma TrackOther(v: string, ch: char, word: string)
    requires !BeginsElement(v) && Misses(Current(v), word)
    ensures BeginsElement(v + [ch]) || Misses(Current(v + [ch]), word)
  {
    if ch == ',' {
      BeginsElementSnoc(v, ch);
    } else {
      CurrentSnoc(v, ch);
      MissesMore(Current(v), ch, word);
    }
  }

  lemma {:induction false} TrackStep<H>(h: H, i: nat, k: H, j: nat, v: string, ch: char, word: string,
                                     start: H, reading: H, found: H, words: seq<string>)
    requires Word(word) && word in words && start != reading && start != found && reading != found
    requires CleanByte(v, ch, words) && (h == start <==> BeginsElement(v))
    requires Tracks(h, i, v, word, reading, found) && Moves(h, i, k, j, ch, word, start, reading, found)
    ensures Tracks(k, j, v + [ch], word, reading, found)
  {
    var v' := v + [ch];
    if h == start {
      assert Tracks(k, j, v', word, reading, found) by {
        if ch == ' ' {
          BeginsElementSnoc(v, ch);
        } else {
          TrackStart(v, ch, word);
        }
      }
    } else if h == reading {
      assert Tracks(k, j, v', word, reading, found) by { TrackReads(v, ch, word, i, words); }
    } else if h == found {
      assert Tracks(k, j, v', word, reading, found) by { TrackFound(v, ch, word); }
    } else {
      assert Tracks(k, j, v', word, reading, found) by { TrackOther(v, ch, word); }
    }
  }

  /** A matcher that tracks a word knows whether the element so far is that word. */
  lemma {:induction false} TracksTells<H>(h: H, i: nat, v: string, word: string, reading: H, found: H)
    requires Word(word) && reading != found && Tracks(h, i, v, word, reading, found)
    ensures EndsWithWord(v, word) <==> h == found
  {
    if h == reading {
      TrimRightShorter(Current(v));
    } else if h != found && BeginsElement(v) {
      TrimLeftBlank(LastElement(v));
    }
  }

  // ---------- where elements begin ----------

  /** The matcher stands in front of an element exactly when one is about to begin. */
  lemma BeginsAgain(v: string, ch: char, words: seq<string>)
    requires CleanByte(v, ch, words)
    ensures BeginsElement(v + [ch]) <==> ch == ',' || (ch == ' ' && BeginsElement(v))
  {
    LastElementSnoc(v, ch);
    NotBlankSnoc(LastElement(v), ch);
    if ch == ',' {
      assert LastElement(v + [ch]) == "";
    }
  }

  // ---------- options of a connection ----------

  predicate OptionState(h: HState) {
    h.HMatchingConnTokenStart? || h.HMatchingConnKeepAlive? || h.HMatchingConnClose? || h.HMatchingConnUpgrade? ||
    h.HMatchingConnToken? || h.HConnKeepAlive? || h.HConnClose? || h.HConnUpgrade?
  }

  predicate TracksOptions(h: HState, i: nat, v: string) {
    OptionState(h) && (h == HMatchingConnTokenStart <==> BeginsElement(v)) &&
    Tracks(h, i, v, KEEP_ALIVE_WORD, HMatchingConnKeepAlive, HConnKeepAlive) &&
    Tracks(h, i, v, CLOSE_WORD, HMatchingConnClose, HConnClose) &&
    Tracks(h, i, v, UPGRADE_NAME, HMatchingConnUpgrade, HConnUpgrade)
  }

  lemma OptionWords()
    ensures Word(KEEP_ALIVE_WORD) && Word(CLOSE_WORD) && Word(UPGRADE_NAME)
  {
  }

  /** The state after a byte moves each of the three words. */
  predicate MovesOptions(h: HState, i: nat, k: HState, j: nat, ch: char) {
    OptionState(k) &&
    Moves(h, i, k, j, ch, KEEP_ALIVE_WORD, HMatchingConnTokenStart, HMatchingConnKeepAlive, HConnKeepAlive) &&
    Moves(h, i, k, j, ch, CLOSE_WORD, HMatchingConnTokenStart, HMatchingConnClose, HConnClose) &&
    Moves(h, i, k, j, ch, UPGRADE_NAME, HMatchingConnTokenStart, HMatchingConnUpgrade, HConnUpgrade)
  }

  lemma MatchMoves(p: Parser, c: char, word: string, fallback: HState, found: HState)
    requires p.index + 1 < |word|
    ensures var q := MatchLiteral(p, c, word, fallback, found);
            q == p.(index := p.index + 1,
                    hstate := if c != word[p.index + 1] then fallback
                              else if p.index + 2 == |word| then found else p.hstate)
  {
    CharAtIndexes(word, p.index + 1);
  }

  /** The byte moves the matchers of all three words, and a comma ends an element unless a word is being read. */
  predicate OptionsMoved(p: Parser, q: Parser, ch: char) {
    MovesOptions(p.hstate, p.index, q.hstate, q.index, ch) &&
    q == p.(index := q.index, hstate := q.hstate, flags := q.flags) &&
    (q.hstate.HMatchingConnTokenStart? ==> q.index == 0) &&
    (p.hstate.HMatchingConnToken? ==> q.hstate == if ch == ',' then HMatchingConnTokenStart else HMatchingConnToken)
  }

  /** Lower-casing an alphanumeric byte and a space. */
  lemma LowerPlain(ch: char)
    requires ch == ' ' || IsAlphaNum(ch)
    ensures ch == ' ' ==> Lower(ch) == ' '
    ensures IsAlphaNum(ch) ==> IsToken(Lower(ch)) && Lower(ch) != ' '
  {
  }

  lemma OptionsMoveAtStart(p: Parser, ch: char)
    requires p.hstate.HMatchingConnTokenStart? && p.index == 0 && (ch == ' ' || IsAlphaNum(ch))
    ensures ValueByte(p, ch).Consume? && OptionsMoved(p, ValueByte(p, ch).p, ch)
  {
    LowerPlain(ch);
  }

  lemma OptionsMoveInWord(p: Parser, ch: char, word: string)
    requires p.hstate.HMatchingConnKeepAlive? ==> word == KEEP_ALIVE_WORD
    requires p.hstate.HMatchingConnClose? ==> word == CLOSE_WORD
    requires p.hstate.HMatchingConnUpgrade? ==> word == UPGRADE_NAME
    requires p.hstate.HMatchingConnKeepAlive? || p.hstate.HMatchingConnClose? || p.hstate.HMatchingConnUpgrade?
    requires p.index + 1 < |word|
    ensures ValueByte(p, ch).Consume? && OptionsMoved(p, ValueByte(p, ch).p, ch)
  {
    if p.hstate.HMatchingConnKeepAlive? {
      MatchMoves(p, Lower(ch), KEEP_ALIVE_WORD, HMatchingConnToken, HConnKeepAlive);
    } else if p.hstate.HMatchingConnClose? {
      MatchMoves(p, Lower(ch), CLOSE_WORD, HMatchingConnToken, HConnClose);
    } else {
      MatchMoves(p, Lower(ch), UPGRADE_NAME, HMatchingConnToken, HConnUpgrade);
    }
  }

  lemma OptionsMoveBehind(p: Parser, ch: char)
    requires p.hstate.HMatchingConnToken? || p.hstate.HConnKeepAlive? || p.hstate.HConnClose? || p.hstate.HConnUpgrade?
    ensures ValueByte(p, ch).Consume? && OptionsMoved(p, ValueByte(p, ch).p, ch)
  {
  }

  /** The parser is in a Connection value of which it has read `v`. */
  predicate InOptions(p: Parser, v: string) {
    TracksOptions(p.hstate, p.index, v) && (p.hstate.HMatchingConnTokenStart? ==> p.index == 0)
  }

  lemma {:induction false} OptionsMove(p: Parser, v: string, ch: char)
    requires InOptions(p, v) && CleanByte(v, ch, OPTION_WORDS)
    ensures ValueByte(p, ch).Consume? && OptionsMoved(p, ValueByte(p, ch).p, ch)
  {
    var h := p.hstate;
    if h.HMatchingConnTokenStart? {
      OptionsMoveAtStart(p, ch);
    } else if h.HMatchingConnKeepAlive? {
      OptionsMoveInWord(p, ch, KEEP_ALIVE_WORD);
    } else if h.HMatchingConnClose? {
      OptionsMoveInWord(p, ch, CLOSE_WORD);
    } else if h.HMatchingConnUpgrade? {
      OptionsMoveInWord(p, ch, UPGRADE_NAME);
    } else {
      OptionsMoveBehind(p, ch);
    }
  }

  /** The words among the elements that a comma has ended, added to the flags. */
  function WithOptions(f: Flags, keepAlive: bool, close: bool, upgrade: bool): Flags {
    f.(keepAlive := f.keepAlive || keepAlive, close := f.close || close, connUpgrade := f.connUpgrade || upgrade)
  }

  lemma OptionsFlag(p: Parser, ch: char)
    requires OptionState(p.hstate) && ValueByte(p, ch).Consume?
    ensures ValueByte(p, ch).p.flags ==
            WithOptions(p.flags, ch == ',' && p.hstate == HConnKeepAlive, ch == ',' && p.hstate == HConnClose,
                        ch == ',' && p.hstate == HConnUpgrade)
  {
    if WordEnd(p.hstate) {
      WordEndFlags(p, ch);
    } else {
      OtherFlagsStay(p, ch);
    }
  }

  lemma {:induction false} OptionsTell(h: HState, i: nat, v: string)
    requires TracksOptions(h, i, v)
    ensures EndsWithWord(v, KEEP_ALIVE_WORD) <==> h == HConnKeepAlive
    ensures EndsWithWord(v, CLOSE_WORD) <==> h == HConnClose
    ensures EndsWithWord(v, UPGRADE_NAME) <==> h == HConnUpgrade
  {
    OptionWords();
    TracksTells(h, i, v, KEEP_ALIVE_WORD, HMatchingConnKeepAlive, HConnKeepAlive);
    TracksTells(h, i, v, CLOSE_WORD, HMatchingConnClose, HConnClose);
    TracksTells(h, i, v, UPGRADE_NAME, HMatchingConnUpgrade, HConnUpgrade);
  }

  /** The byte that a word being read does not expect is no comma. */
  lemma {:induction false} NoCommaInWord(h: HState, i: nat, v: string, ch: char)
    requires TracksOptions(h, i, v) && CleanByte(v, ch, OPTION_WORDS)
    requires h.HMatchingConnKeepAlive? || h.HMatchingConnClose? || h.HMatchingConnUpgrade?
    ensures ch != ',' && !BeginsElement(v)
  {
    OptionWords();
    var word := if h.HMatchingConnKeepAlive? then KEEP_ALIVE_WORD else if h.HMatchingConnClose? then CLOSE_WORD
                else UPGRADE_NAME;
    assert OPTION_WORDS[0] == KEEP_ALIVE_WORD && OPTION_WORDS[1] == CLOSE_WORD && OPTION_WORDS[2] == UPGRADE_NAME;
    assert Stub(Current(v), word);
  }

  lemma {:induction false} OptionsTrack(h: HState, i: nat, k: HState, j: nat, v: string, ch: char)
    requires TracksOptions(h, i, v) && CleanByte(v, ch, OPTION_WORDS) && MovesOptions(h, i, k, j, ch)
    requires h.HMatchingConnToken? ==> k == if ch == ',' then HMatchingConnTokenStart else HMatchingConnToken
    ensures TracksOptions(k, j, v + [ch])
  {
    OptionWords();
    assert OPTION_WORDS[0] == KEEP_ALIVE_WORD && OPTION_WORDS[1] == CLOSE_WORD && OPTION_WORDS[2] == UPGRADE_NAME;
    var start := HMatchingConnTokenStart;
    TrackStep(h, i, k, j, v, ch, KEEP_ALIVE_WORD, start, HMatchingConnKeepAlive, HConnKeepAlive, OPTION_WORDS);
    TrackStep(h, i, k, j, v, ch, CLOSE_WORD, start, HMatchingConnClose, HConnClose, OPTION_WORDS);
    TrackStep(h, i, k, j, v, ch, UPGRADE_NAME, start, HMatchingConnUpgrade, HConnUpgrade, OPTION_WORDS);
    BeginsAgain(v, ch, OPTION_WORDS);
    if h.HMatchingConnKeepAlive? || h.HMatchingConnClose? || h.HMatchingConnUpgrade? {
      NoCommaInWord(h, i, v, ch);
    }
  }

  function ClosedOptions(f: Flags, v: string): Flags {
    WithOptions(f, ClosedWord(v, KEEP_ALIVE_WORD), ClosedWord(v, CLOSE_WORD), ClosedWord(v, UPGRADE_NAME))
  }

  lemma {:induction false} ClosedOptionsSnoc(f: Flags, v: string, ch: char)
    ensures ClosedOptions(f, v + [ch]) ==
            WithOptions(ClosedOptions(f, v), ch == ',' && EndsWithWord(v, KEEP_ALIVE_WORD),
                        ch == ',' && EndsWithWord(v, CLOSE_WORD), ch == ',' && EndsWithWord(v, UPGRADE_NAME))
  {
    ClosedWordSnoc(v, ch, KEEP_ALIVE_WORD);
    ClosedWordSnoc(v, ch, CLOSE_WORD);
    ClosedWordSnoc(v, ch, UPGRADE_NAME);
  }

  /** The parser `q` has read `v` as the value of a Connection field that `p` has begun. */
  predicate ReadOptions(p: Parser, q: Parser, v: string) {
    InOptions(q, v) && q == p.(state := HeaderValue, index := q.index, hstate := q.hstate, flags := q.flags) &&
    q.flags == ClosedOptions(p.flags, v)
  }

  lemma {:induction false} OptionsByte(p: Parser, q: Parser, v: string, ch: char)
    requires ReadOptions(p, q, v) && CleanByte(v, ch, OPTION_WORDS)
    ensures ValueByte(q, ch).Consume? && ReadOptions(p, ValueByte(q, ch).p, v + [ch])
  {
    OptionsMove(q, v, ch);
    var r := ValueByte(q, ch).p;
    assert InOptions(r, v + [ch]) by { OptionsTrack(q.hstate, q.index, r.hstate, r.index, v, ch); }
    assert r.flags == ClosedOptions(p.flags, v + [ch]) by {
      OptionsFlag(q, ch);
      OptionsTell(q.hstate, q.index, v);
      ClosedOptionsSnoc(p.flags, v, ch);
    }
  }

  lemma {:induction false} OptionsFirst(p: Parser, ch: char)
    requires p.hstate.HConnection? && IsAlphaNum(ch)
    ensures StartValue(p, ch).Some? && ReadOptions(p, StartValue(p, ch).value, [ch])
  {
    OptionWords();
    var start := p.(state := HeaderValue, hstate := HMatchingConnTokenStart, index := 0);
    assert BeginsElement("") && "" + [ch] == [ch];
    var q := StartValue(p, ch).value;
    assert OptionsMoved(start, ValueByte(start, ch).p, ch) by { OptionsMoveAtStart(start, ch); }
    LowerPlain(ch);
    assert q.hstate == ValueByte(start, ch).p.hstate && q.index == 0;
    assert TracksOptions(HMatchingConnTokenStart, 0, "") && CleanByte("", ch, OPTION_WORDS);
    OptionsTrack(HMatchingConnTokenStart, 0, q.hstate, q.index, "", ch);
    ClosedOptionsSnoc(p.flags, "", ch);
  }

  /** A byte more of a value that has been begun. */
  lemma ValuedSnoc(p: Parser, v: string, ch: char)
    requires v != "" && Valued(p, v).Some? && ValueByte(Valued(p, v).value, ch).Consume?
    ensures Valued(p, v + [ch]) == Some(ValueByte(Valued(p, v).value, ch).p)
  {
    assert (v + [ch])[1..] == v[1..] + [ch];
    assert (v[1..] + [ch])[..|v[1..]|] == v[1..];
  }

  lemma {:induction false} OptionsRead(p: Parser, v: string)
    requires p.hstate.HConnection? && v != "" && CleanOptions(v) && !IsBlank(v[0])
    ensures Valued(p, v).Some? && ReadOptions(p, Valued(p, v).value, v)
    decreases |v|
  {
    var front, ch := v[..|v| - 1], v[|v| - 1];
    if front == "" {
      assert v == [ch] && BeginsElement(front);
      OptionsFirst(p, ch);
      assert v[1..] == "";
    } else {
      OptionsRead(p, front);
      OptionsByte(p, Valued(p, front).value, front, ch);
      ValuedSnoc(p, front, ch);
      assert v == front + [ch];
    }
  }

  /** At the end of a list of options the flags are those of its elements, in both directions. */
  lemma {:induction false} OptionsExact(p: Parser, v: string)
    requires p.hstate.HConnection? && v != "" && CleanOptions(v) && !IsBlank(v[0])
    ensures Valued(p, v).Some?
    ensures var q := Valued(p, v).value;
            q == p.(state := HeaderValue, index := q.index, hstate := q.hstate, flags := q.flags) &&
            FinishedFlags(q) ==
                WithOptions(p.flags, HasWord(v, KEEP_ALIVE_WORD), HasWord(v, CLOSE_WORD), HasWord(v, UPGRADE_NAME))
  {
    OptionsRead(p, v);
    var q := Valued(p, v).value;
    OptionsTell(q.hstate, q.index, v);
  }

  // ---------- transfer codings ----------

  predicate CodingState(h: HState) {
    h.HMatchingTeTokenStart? || h.HMatchingTeChunked? || h.HMatchingTeToken? || h.HTeChunked?
  }

  predicate InCodings(p: Parser, v: string) {
    CodingState(p.hstate) && (p.hstate == HMatchingTeTokenStart <==> BeginsElement(v)) &&
    Tracks(p.hstate, p.index, v, CHUNKED_WORD, HMatchingTeChunked, HTeChunked) &&
    (p.hstate.HMatchingTeTokenStart? ==> p.index == 0)
  }

  /** The next byte is part of a list of codings. */
  predicate CodingByte(v: string, ch: char) {
    CleanByte(v, ch, [CHUNKED_WORD]) && (ch == ',' ==> !EndsWithWord(v, CHUNKED_WORD))
  }

  predicate CodingMoved(p: Parser, q: Parser, ch: char) {
    CodingState(q.hstate) && q == p.(index := q.index, hstate := q.hstate) &&
    (q.hstate.HMatchingTeTokenStart? ==> q.index == 0) &&
    Moves(p.hstate, p.index, q.hstate, q.index, ch, CHUNKED_WORD, HMatchingTeTokenStart, HMatchingTeChunked,
          HTeChunked) &&
    (p.hstate.HMatchingTeToken? ==> q.hstate == if ch == ',' then HMatchingTeTokenStart else HMatchingTeToken)
  }

  lemma CodingMoves(p: Parser, ch: char)
    requires CodingState(p.hstate)
    requires p.hstate.HMatchingTeTokenStart? ==> p.index == 0 && (ch == ' ' || IsAlphaNum(ch))
    requires p.hstate.HMatchingTeChunked? ==> p.index + 1 < |CHUNKED_WORD|
    requires p.hstate.HTeChunked? ==> ch != ','
    ensures ValueByte(p, ch).Consume? && CodingMoved(p, ValueByte(p, ch).p, ch)
  {
    match p.hstate
    case HMatchingTeTokenStart => LowerPlain(ch);
    case HMatchingTeChunked => MatchMoves(p, Lower(ch), CHUNKED_WORD, HMatchingTeToken, HTeChunked);
    case _ =>
  }

  lemma {:induction false} CodingTells(p: Parser, v: string)
    requires InCodings(p, v)
    ensures EndsWithWord(v, CHUNKED_WORD) <==> p.hstate == HTeChunked
  {
    TracksTells(p.hstate, p.index, v, CHUNKED_WORD, HMatchingTeChunked, HTeChunked);
  }

  lemma {:induction false} CodingTrack(p: Parser, q: Parser, v: string, ch: char)
    requires InCodings(p, v) && CodingByte(v, ch) && CodingMoved(p, q, ch)
    ensures InCodings(q, v + [ch])
  {
    var words := [CHUNKED_WORD];
    assert words[0] == CHUNKED_WORD;
    TrackStep(p.hstate, p.index, q.hstate, q.index, v, ch, CHUNKED_WORD, HMatchingTeTokenStart, HMatchingTeChunked,
              HTeChunked, words);
    BeginsAgain(v, ch, words);
    CodingTells(p, v);
    if p.hstate.HMatchingTeChunked? {
      assert Stub(Current(v), words[0]);
    }
  }

  /** The parser `q` has read `v` as the value of a Transfer-Encoding field that `p` has begun. */
  predicate ReadCodings(p: Parser, q: Parser, v: string) {
    InCodings(q, v) && q == p.(state := HeaderValue, index := q.index, hstate := q.hstate)
  }

  lemma {:induction false} CodingsByte(p: Parser, q: Parser, v: string, ch: char)
    requires ReadCodings(p, q, v) && CodingByte(v, ch)
    ensures ValueByte(q, ch).Consume? && ReadCodings(p, ValueByte(q, ch).p, v + [ch])
  {
    CodingTells(q, v);
    CodingMoves(q, ch);
    CodingTrack(q, ValueByte(q, ch).p, v, ch);
  }

  lemma {:induction false} CodingsFirst(p: Parser, ch: char)
    requires p.hstate.HTransferEncoding? && IsAlphaNum(ch)
    ensures StartValue(p, ch).Some? && ReadCodings(p, StartValue(p, ch).value, [ch])
  {
    var start := p.(state := HeaderValue, hstate := HMatchingTeTokenStart, index := 0);
    assert BeginsElement("") && "" + [ch] == [ch];
    var q := StartValue(p, ch).value;
    CodingMoves(start, ch);
    LowerPlain(ch);
    TrimLeftBlank(LastElement(""));
    assert InCodings(start, "") && CodingByte("", ch);
    CodingTrack(start, q, "", ch);
  }

  lemma {:induction false} CleanCodingsFront(v: string)
    requires v != "" && CleanCodings(v)
    ensures CleanCodings(v[..|v| - 1]) && CodingByte(v[..|v| - 1], v[|v| - 1])
  {
  }

  lemma {:induction false} CodingsRead(p: Parser, v: string)
    requires p.hstate.HTransferEncoding? && v != "" && CleanCodings(v) && !IsBlank(v[0])
    ensures Valued(p, v).Some? && ReadCodings(p, Valued(p, v).value, v)
    decreases |v|
  {
    var front, ch := v[..|v| - 1], v[|v| - 1];
    CleanCodingsFront(v);
    if front == "" {
      assert v == [ch] && BeginsElement(front);
      CodingsFirst(p, ch);
      assert v[1..] == "";
    } else {
      CodingsRead(p, front);
      CodingsByte(p, Valued(p, front).value, front, ch);
      ValuedSnoc(p, front, ch);
      assert v == front + [ch];
    }
  }

  /** At the end of a list of codings the message is chunked exactly if the last coding is "chunked". */
  lemma {:induction false} CodingsExact(p: Parser, v: string)
    requires p.hstate.HTransferEncoding? && v != "" && CleanCodings(v) && !IsBlank(v[0])
    ensures Valued(p, v).Some?
    ensures var q := Valued(p, v).value;
            q == p.(state := HeaderValue, index := q.index, hstate := q.hstate) &&
            FinishedFlags(q) == p.flags.(chunked := p.flags.chunked || EndsWithWord(v, CHUNKED_WORD))
  {
    CodingsRead(p, v);
    CodingTells(Valued(p, v).value, v);
  }

  // ---------- single words ----------

  predicate AllAlphaNum(v: string) {
    forall i :: 0 <= i < |v| ==> IsAlphaNum(v[i])
  }

  /** A value of letters and digits is a list of one element. */
  lemma {:induction false} OneWord(v: string, words: seq<string>, word: string)
    requires AllAlphaNum(v)
    ensures CleanList(v, words) && LastElement(v) == v && !ClosedWord(v, word) && TrimLeft(v) == v && TrimRight(v) == v
    decreases |v|
  {
    if v != "" {
      OneWord(v[..|v| - 1], words, word);
    }
  }

  lemma {:induction false} ChunkedAlone(v: string)
    requires SameWord(v, CHUNKED_WORD)
    ensures CleanCodings(v) && EndsWithWord(v, CHUNKED_WORD) && TrimLeft(v) == v
  {
    forall i | 0 <= i < |v| ensures IsAlphaNum(v[i]) {
      assert SameChar(v[i], CHUNKED_WORD[i]);
      LettersOnly(i);
    }
    OneWord(v, [CHUNKED_WORD], CHUNKED_WORD);
  }

  lemma LettersOnly(i: nat)
    requires i < |CHUNKED_WORD|
    ensures 'a' <= CHUNKED_WORD[i] <= 'z'
  {
  }

  // ---------- a word that is missed ----------

  lemma {:induction false} TokenSwallows(p: Parser, v: string)
    requires p.hstate.HMatchingConnToken? && forall i :: 0 <= i < |v| ==> v[i] != ','
    ensures ValueFold(p, v) == Some(p)
    decreases |v|
  {
    if v != "" {
      TokenSwallows(p, v[..|v| - 1]);
    }
  }

  lemma {:induction false} FoldConcat(p: Parser, a: string, b: string)
    ensures ValueFold(p, a + b) == match ValueFold(p, a) case None => None case Some(q) => ValueFold(q, b)
    decreases |b|
  {
    if b == "" {
      assert a + b == a;
    } else {
      var n := |b| - 1;
      assert (a + b)[..|a + b| - 1] == a + b[..n];
      FoldConcat(p, a, b[..n]);
    }
  }

  /** An element that only begins one of the words hides the element after it: the comma is taken for a letter that does
      not match, and the matcher goes on inside the element. `Connection: c,close` does not set F_CLOSE. */
  lemma {:induction false} StubHidesWord(p: Parser)
    requires p.hstate.HConnection?
    ensures HasWord("c,close", CLOSE_WORD)
    ensures Valued(p, "c,close").Some? && FinishedFlags(Valued(p, "c,close").value) == p.flags
  {
    var v := "c,close";
    var q := StartValue(p, 'c').value;
    assert q.hstate == HMatchingConnClose && q.index == 0 && q.flags == p.flags;
    MatchMoves(q, Lower(','), CLOSE_WORD, HMatchingConnToken, HConnClose);
    var r := ValueByte(q, ',').p;
    assert ValueFold(q, ",") == Some(r) by {
      assert ","[..0] == "";
    }
    TokenSwallows(r, "close");
    FoldConcat(q, ",", "close");
    assert v[1..] == "," + "close";
    assert LastElement(v) == CLOSE_WORD by {
      ElementBehind("c", CLOSE_WORD);
      assert v == "c" + [','] + CLOSE_WORD;
    }
    OneWordClose();
  }

  lemma {:induction false} ElementBehind(v: string, w: string)
    requires ',' !in w
    ensures LastElement(v + [','] + w) == w
    decreases |w|
  {
    if w == "" {
      LastElementSnoc(v, ',');
      assert v + [','] + w == v + [','];
    } else {
      var n := |w| - 1;
      ElementBehind(v, w[..n]);
      LastElementSnoc(v + [','] + w[..n], w[n]);
      assert v + [','] + w == v + [','] + w[..n] + [w[n]];
    }
  }

  lemma OneWordClose()
    ensures SameWord(Trim(CLOSE_WORD), CLOSE_WORD)
  {
    OneWord(CLOSE_WORD, [], CLOSE_WORD);
  }
}
