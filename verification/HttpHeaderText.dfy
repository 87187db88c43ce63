/** What header values mean, independently of how the parser reads them: comma-separated lists
    (section 7 of RFC 7230) and decimal numbers. */
module HttpHeaderText {
  import opened HttpBytes

  predicate IsBlank(c: char) {
    c == ' ' || c == '\t'
  }

  predicate AllBlank(s: string) {
    forall i :: 0 <= i < |s| ==> IsBlank(s[i])
  }

  function TrimLeft(s: string): string {
    if s != "" && IsBlank(s[0]) then TrimLeft(s[1..]) else s
  }

  function TrimRight(s: string): string {
    if s != "" && IsBlank(s[|s| - 1]) then TrimRight(s[..|s| - 1]) else s
  }

  function Trim(s: string): string {
    TrimRight(TrimLeft(s))
  }

  /** The element after the last comma. */
  function LastElement(v: string): string {
    if v == "" || v[|v| - 1] == ',' then "" else LastElement(v[..|v| - 1]) + [v[|v| - 1]]
  }

  /** Letters compare without regard to case, other characters exactly. */
  predicate SameChar(c: char, l: char) {
    c == l || ('a' <= l <= 'z' && c as int == l as int - 32)
  }

  predicate SameWord(w: string, literal: string) {
    |w| == |literal| && forall i :: 0 <= i < |w| ==> SameChar(w[i], literal[i])
  }

  /** The last element of the list is the given word. */
  predicate EndsWithWord(v: string, word: string) {
    SameWord(Trim(LastElement(v)), word)
  }

  /** Some element that a comma has already ended is the given word. */
  predicate ClosedWord(v: string, word: string) {
    v != "" &&
    (ClosedWord(v[..|v| - 1], word) || (v[|v| - 1] == ',' && EndsWithWord(v[..|v| - 1], word)))
  }

  /** Some element of the list is the given word. */
  predicate HasWord(v: string, word: string) {
    ClosedWord(v, word) || EndsWithWord(v, word)
  }

  predicate AllDigits(s: string) {
    forall i :: 0 <= i < |s| ==> IsNum(s[i])
  }

  /** The number a string of digits denotes. */
  function Decimal(s: string): nat
    requires AllDigits(s)
  {
    if s == "" then 0 else Decimal(s[..|s| - 1]) * 10 + Digit(s[|s| - 1])
  }

  /** A decimal number, possibly followed by blanks. */
  predicate Numeral(v: string) {
    AllDigits(TrimRight(v)) && TrimRight(v) != ""
  }

  // ---------- one more character ----------

  lemma {:induction false} TrimLeftBlank(s: string)
    requires AllBlank(s)
    ensures TrimLeft(s) == ""
  {
    if s != "" {
      assert AllBlank(s[1..]);
      TrimLeftBlank(s[1..]);
    }
  }

  lemma {:induction false} TrimLeftSnoc(s: string, c: char)
    ensures AllBlank(s) ==> TrimLeft(s + [c]) == if IsBlank(c) then "" else [c]
    ensures !AllBlank(s) ==> TrimLeft(s + [c]) == TrimLeft(s) + [c]
  {
    if s == "" {
      assert s + [c] == [c];
      assert [c][1..] == "";
    } else {
      assert (s + [c])[1..] == s[1..] + [c];
      TrimLeftSnoc(s[1..], c);
      if IsBlank(s[0]) {
        assert AllBlank(s) <==> AllBlank(s[1..]) by {
          if AllBlank(s[1..]) {
            forall i | 0 <= i < |s| ensures IsBlank(s[i]) {
              assert i > 0 ==> s[i] == s[1..][i - 1];
            }
          }
        }
      }
    }
  }

  lemma TrimRightSnoc(s: string, c: char)
    ensures TrimRight(s + [c]) == if IsBlank(c) then TrimRight(s) else s + [c]
  {
    assert (s + [c])[..|s|] == s;
  }

  lemma LastElementSnoc(v: string, c: char)
    ensures LastElement(v + [c]) == if c == ',' then "" else LastElement(v) + [c]
  {
    assert (v + [c])[..|v|] == v;
  }

  lemma ClosedWordSnoc(v: string, c: char, word: string)
    ensures ClosedWord(v + [c], word) <==> ClosedWord(v, word) || (c == ',' && EndsWithWord(v, word))
  {
    assert (v + [c])[..|v|] == v;
  }

  lemma SameWordSnoc(w: string, c: char, word: string)
    requires |w| < |word|
    ensures SameWord(w + [c], word[..|w| + 1]) <==> SameWord(w, word[..|w|]) && SameChar(c, word[|w|])
  {
    if SameWord(w + [c], word[..|w| + 1]) {
      forall i | 0 <= i < |w| ensures SameChar(w[i], word[..|w|][i]) {
        assert SameChar((w + [c])[i], word[..|w| + 1][i]);
      }
      assert SameChar((w + [c])[|w|], word[..|w| + 1][|w|]);
    }
  }

  lemma DecimalSnoc(s: string, c: char)
    requires AllDigits(s) && IsNum(c)
    ensures AllDigits(s + [c]) && Decimal(s + [c]) == Decimal(s) * 10 + Digit(c)
  {
    assert (s + [c])[..|s|] == s;
  }

  /** The parser's way of ignoring case, setting bit 0x20, is exact for letters; for `-` it confuses only
      the carriage return, which is never part of a value. */
  lemma LowerIsSameChar(c: char, l: char)
    requires 'a' <= l <= 'z' || (l == '-' && c != CR)
    ensures Lower(c) == l <==> SameChar(c, l)
  {
  }
}
