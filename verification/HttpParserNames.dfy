/** The header-name matchers name a header exactly: whatever way the name was cut, `header_state` at the
    colon says which of the known names it is, if any. */
module HttpParserNames {
  import opened HttpBytes
  import opened HttpParserTypes
  import opened HttpParserArms
  import opened HttpParserRun
  import opened HttpParserStretch

  predicate IsConnectionName(n: string) {
    n == CONNECTION_NAME || n == PROXY_CONNECTION_NAME
  }

  /** No known name starts with `n`. */
  predicate Unknown(n: string) {
    !(n <= CONNECTION_NAME) && !(n <= PROXY_CONNECTION_NAME) && !(n <= CONTENT_LENGTH_NAME) &&
    !(n <= TRANSFER_ENCODING_NAME) && !(n <= UPGRADE_NAME)
  }

  /** `n` is a proper beginning of the name, and the matcher stands at its last character. */
  predicate Reads(n: string, literal: string, index: nat) {
    1 <= |n| == index + 1 < |literal| && n <= literal
  }

  /** What the matcher state says about the lower-cased name read so far. */
  predicate Names(h: HState, index: nat, n: string) {
    (h.HGeneral? && Unknown(n)) ||
    (h.HC? && index == 0 && n == "c") || (h.HCO? && index == 1 && n == "co") || (h.HCON? && index == 2 && n == "con") ||
    (h.HMatchingConnection? && |n| >= 4 && Reads(n, CONNECTION_NAME, index)) ||
    (h.HMatchingContentLength? && |n| >= 4 && Reads(n, CONTENT_LENGTH_NAME, index)) ||
    (h.HMatchingProxyConnection? && Reads(n, PROXY_CONNECTION_NAME, index)) ||
    (h.HMatchingTransferEncoding? && Reads(n, TRANSFER_ENCODING_NAME, index)) ||
    (h.HMatchingUpgrade? && Reads(n, UPGRADE_NAME, index)) ||
    (h.HConnection? && IsConnectionName(n)) ||
    (h.HContentLength? && n == CONTENT_LENGTH_NAME) ||
    (h.HTransferEncoding? && n == TRANSFER_ENCODING_NAME) ||
    (h.HUpgrade? && n == UPGRADE_NAME)
  }

  /** At the end of a name the matcher state decides which name it is, in both directions. */
  lemma NamesExact(h: HState, index: nat, n: string)
    requires Names(h, index, n)
    ensures h.HConnection? <==> IsConnectionName(n)
    ensures h.HContentLength? <==> n == CONTENT_LENGTH_NAME
    ensures h.HTransferEncoding? <==> n == TRANSFER_ENCODING_NAME
    ensures h.HUpgrade? <==> n == UPGRADE_NAME
  {
    DifferentNames(n);
  }

  lemma DifferentNames(n: string)
    ensures n <= PROXY_CONNECTION_NAME && n != "" ==> n[0] == 'p'
    ensures n <= TRANSFER_ENCODING_NAME && n != "" ==> n[0] == 't'
    ensures n <= UPGRADE_NAME && n != "" ==> n[0] == 'u'
    ensures n <= CONNECTION_NAME && n != "" ==> n[0] == 'c' && (|n| > 3 ==> n[3] == 'n')
    ensures n <= CONTENT_LENGTH_NAME && n != "" ==> n[0] == 'c' && (|n| > 3 ==> n[3] == 't')
  {
  }

  lemma PrefixSnoc(n: string, c: char, literal: string)
    ensures n + [c] <= literal <==> n <= literal && |n| < |literal| && c == literal[|n|]
  {
    if n <= literal && |n| < |literal| && c == literal[|n|] {
      assert n + [c] == literal[..|n| + 1];
    }
    if n + [c] <= literal {
      assert (n + [c])[|n|] == literal[|n|];
      assert n == (n + [c])[..|n|];
    }
  }

  lemma UnknownStays(n: string, c: char)
    requires Unknown(n)
    ensures Unknown(n + [c])
  {
    PrefixSnoc(n, c, CONNECTION_NAME);
    PrefixSnoc(n, c, PROXY_CONNECTION_NAME);
    PrefixSnoc(n, c, CONTENT_LENGTH_NAME);
    PrefixSnoc(n, c, TRANSFER_ENCODING_NAME);
    PrefixSnoc(n, c, UPGRADE_NAME);
  }

  lemma LowerTokenSnoc(s: string, c: char)
    ensures LowerToken(s + [c]) == LowerToken(s) + [Token(c)]
  {
  }

  /** A beginning of two names differs from both at its first or fourth character. */
  lemma ApartUnknown(n: string)
    requires n != ""
    requires n[0] == 'c' ==> !(n <= CONNECTION_NAME) && !(n <= CONTENT_LENGTH_NAME)
    requires n[0] == 'p' ==> !(n <= PROXY_CONNECTION_NAME)
    requires n[0] == 't' ==> !(n <= TRANSFER_ENCODING_NAME)
    requires n[0] == 'u' ==> !(n <= UPGRADE_NAME)
    ensures Unknown(n)
  {
    DifferentNames(n);
  }

  lemma {:induction false} MatchStep(p: Parser, n: string, c: char, literal: string, found: HState)
    requires Reads(n, literal, p.index)
    ensures var q := MatchLiteral(p, c, literal, HGeneral, found);
            if c != literal[|n|] then q.hstate.HGeneral? && !(n + [c] <= literal)
            else if |n| + 1 == |literal| then q.hstate == found && n + [c] == literal
            else q.hstate == p.hstate && Reads(n + [c], literal, q.index)
  {
    CharAtIndexes(literal, |n|);
    PrefixSnoc(n, c, literal);
  }

  /** One more byte of a name for a matcher that reads a single name. */
  lemma {:induction false} SingleNameStep(p: Parser, ch: char, n: string)
    requires p.hstate.HMatchingProxyConnection? || p.hstate.HMatchingTransferEncoding? || p.hstate.HMatchingUpgrade?
    requires Names(p.hstate, p.index, n)
    ensures var q := FieldNext(p, ch); Names(q.hstate, q.index, n + [Token(ch)])
  {
    var c, q := Token(ch), FieldNext(p, ch);
    DifferentNames(n);
    assert (n + [c])[0] == n[0];
    if p.hstate.HMatchingProxyConnection? {
      MatchStep(p, n, c, PROXY_CONNECTION_NAME, HConnection);
    } else if p.hstate.HMatchingTransferEncoding? {
      MatchStep(p, n, c, TRANSFER_ENCODING_NAME, HTransferEncoding);
    } else {
      MatchStep(p, n, c, UPGRADE_NAME, HUpgrade);
    }
    if q.hstate.HGeneral? {
      ApartUnknown(n + [c]);
    }
  }

  /** One more byte of a name that begins with "conn" or "cont". */
  lemma {:induction false} ConNameStep(p: Parser, ch: char, n: string)
    requires p.hstate.HMatchingConnection? || p.hstate.HMatchingContentLength?
    requires Names(p.hstate, p.index, n)
    ensures var q := FieldNext(p, ch); Names(q.hstate, q.index, n + [Token(ch)])
  {
    var c, q := Token(ch), FieldNext(p, ch);
    DifferentNames(n);
    DifferentNames(n + [c]);
    assert (n + [c])[0] == n[0] && (n + [c])[3] == n[3];
    if p.hstate.HMatchingConnection? {
      MatchStep(p, n, c, CONNECTION_NAME, HConnection);
    } else {
      MatchStep(p, n, c, CONTENT_LENGTH_NAME, HContentLength);
    }
    if q.hstate.HGeneral? {
      ApartUnknown(n + [c]);
    }
  }

  /** The second to fourth byte of a name that begins with "c". */
  lemma {:induction false} ShortNameStep(p: Parser, ch: char, n: string)
    requires p.hstate.HC? || p.hstate.HCO? || p.hstate.HCON?
    requires Names(p.hstate, p.index, n)
    ensures var q := FieldNext(p, ch); Names(q.hstate, q.index, n + [Token(ch)])
  {
    var c := Token(ch);
    PrefixSnoc(n, c, CONNECTION_NAME);
    PrefixSnoc(n, c, CONTENT_LENGTH_NAME);
    assert (n + [c])[0] == 'c';
    if n + [c] != "co" && n + [c] != "con" && !(n + [c] <= CONNECTION_NAME) && !(n + [c] <= CONTENT_LENGTH_NAME) {
      ApartUnknown(n + [c]);
    }
  }

  /** A byte after a complete name makes it another name. */
  lemma {:induction false} LongNameStep(p: Parser, ch: char, n: string)
    requires p.hstate.HConnection? || p.hstate.HContentLength? || p.hstate.HTransferEncoding? || p.hstate.HUpgrade?
    requires Names(p.hstate, p.index, n) && IsToken(ch)
    ensures var q := FieldNext(p, ch); Names(q.hstate, q.index, n + [Token(ch)])
  {
    var c := Token(ch);
    DifferentNames(n);
    DifferentNames(n + [c]);
    assert (n + [c])[0] == n[0] && (n + [c])[3] == n[3];
    ApartUnknown(n + [c]);
  }

  lemma {:induction false} NamesStep(p: Parser, ch: char, n: string)
    requires Names(p.hstate, p.index, n) && IsToken(ch)
    ensures var q := FieldNext(p, ch); Names(q.hstate, q.index, n + [Token(ch)])
  {
    var h := p.hstate;
    if h.HGeneral? {
      UnknownStays(n, Token(ch));
    } else if h.HC? || h.HCO? || h.HCON? {
      ShortNameStep(p, ch, n);
    } else if h.HMatchingConnection? || h.HMatchingContentLength? {
      ConNameStep(p, ch, n);
    } else if h.HMatchingProxyConnection? || h.HMatchingTransferEncoding? || h.HMatchingUpgrade? {
      SingleNameStep(p, ch, n);
    } else {
      LongNameStep(p, ch, n);
    }
  }

  /** The first byte of a name. */
  lemma {:induction false} NamesFirst(p: Parser, ch: char)
    requires FieldStartArm(p, ch).Consume? && FieldStartArm(p, ch).p.state.HeaderField?
    ensures var q := FieldStartArm(p, ch).p; Names(q.hstate, q.index, [Token(ch)])
  {
    var n := [Token(ch)];
    DifferentNames(n);
    if n[0] == 'c' {
      assert n == "c";
    } else if n[0] == 'p' || n[0] == 't' || n[0] == 'u' {
      assert n <= PROXY_CONNECTION_NAME <==> n[0] == 'p';
    } else {
      ApartUnknown(n);
    }
  }
}
