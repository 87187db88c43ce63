/** encodeBase64 of HTTPRequest.hpp (section 4 of RFC 4648). */
module Base64 {

  function Byte(c: char): (b: nat)
    ensures b < 256
  {
    c as int % 256
  }

  /** The table `chars`. */
  function Letter(i: nat): char
    requires i < 64
  {
    if i < 26 then 'A' + i as char
    else if i < 52 then 'a' + (i - 26) as char
    else if i < 62 then '0' + (i - 52) as char
    else if i == 62 then '+' else '/'
  }

  function First(a: nat): char
    requires a < 256
  {
    Letter(a / 4)
  }

  function Second(a: nat, b: nat): char
    requires a < 256 && b < 256
  {
    Letter(a % 4 * 16 + b / 16)
  }

  function Third(b: nat, c: nat): char
    requires b < 256 && c < 256
  {
    Letter(b % 16 * 4 + c / 64)
  }

  function Fourth(c: nat): char
    requires c < 256
  {
    Letter(c % 64)
  }

  function Group(a: nat, b: nat, c: nat): string
    requires a < 256 && b < 256 && c < 256
  {
    [First(a), Second(a, b), Third(b, c), Fourth(c)]
  }

  /** One or two bytes that are left over, padded. */
  function Padded(s: string): string
    requires 0 < |s| < 3
  {
    if |s| == 1 then [First(Byte(s[0])), Second(Byte(s[0]), 0), '=', '=']
    else [First(Byte(s[0])), Second(Byte(s[0]), Byte(s[1])), Third(Byte(s[1]), 0), '=']
  }

  function Encoded(s: string): string {
    if s == "" then "" else if |s| < 3 then Padded(s)
    else Group(Byte(s[0]), Byte(s[1]), Byte(s[2])) + Encoded(s[3..])
  }

  lemma {:induction false} EncodedConcat(a: string, b: string)
    requires |a| % 3 == 0
    ensures Encoded(a + b) == Encoded(a) + Encoded(b)
  {
    if a == "" {
      assert a + b == b;
    } else {
      assert (a + b)[3..] == a[3..] + b;
      EncodedConcat(a[3..], b);
    }
  }

  method Encode(s: string) returns (result: string)
    ensures result == Encoded(s)
  {
    result := "";
    var c, charArray := 0, [0, 0, 0];
    ghost var done := 0;
    for i := 0 to |s|
      invariant c < 3 && done + c == i && done % 3 == 0 && result == Encoded(s[..done])
      invariant Buffered(charArray, s[done..i])
    {
      ghost var buffered := s[done..i];
      BufferedMore(charArray, buffered, s[i]);
      assert s[done..i + 1] == buffered + [s[i]];
      charArray := charArray[c := Byte(s[i])];
      c := c + 1;
      if c == 3 {
        OneMoreGroup(s, done, buffered + [s[i]]);
        result := result + Group(charArray[0], charArray[1], charArray[2]);
        c, done := 0, done + 3;
      }
    }
    if c != 0 {
      var tail := Pad(c, charArray, s[done..]);
      result := result + tail;
    }
    EncodedConcat(s[..done], s[done..]);
    assert s == s[..done] + s[done..];
  }

  /** The buffer begins with the bytes of `s`. */
  predicate Buffered(charArray: seq<int>, s: string) {
    |charArray| == 3 && |s| <= 3 && (forall k :: 0 <= k < 3 ==> 0 <= charArray[k] < 256) &&
    forall k :: 0 <= k < |s| ==> charArray[k] == Byte(s[k])
  }

  lemma BufferedMore(charArray: seq<int>, s: string, ch: char)
    requires Buffered(charArray, s) && |s| < 3
    ensures Buffered(charArray[|s| := Byte(ch)], s + [ch])
    ensures Buffered(charArray[|s| := Byte(ch)], "")
  {
  }

  /** The bytes left over, and the padding. */
  method Pad(left: nat, charArray: seq<int>, ghost rest: string) returns (result: string)
    requires 0 < left == |rest| < 3 && Buffered(charArray, rest)
    ensures result == Padded(rest)
  {
    var c := left;
    result := [First(charArray[0])];
    if c == 1 {
      result := result + [Second(charArray[0], 0)];
    } else {
      result := result + [Second(charArray[0], charArray[1])] + [Third(charArray[1], 0)];
    }
    c := c + 1;
    while c < 4
      invariant 2 <= c <= 4 && Padded(rest) == result + Padded(rest)[c..]
    {
      result := result + "=";
      c := c + 1;
    }
  }

  lemma OneMoreGroup(s: string, n: nat, g: string)
    requires n + 3 <= |s| && n % 3 == 0 && g == s[n..n + 3]
    ensures Encoded(s[..n + 3]) == Encoded(s[..n]) + Group(Byte(g[0]), Byte(g[1]), Byte(g[2]))
  {
    EncodedConcat(s[..n], g);
    assert s[..n + 3] == s[..n] + g;
    assert g[3..] == "";
  }

  // ---------- decoding ----------

  function Value(c: char): nat {
    if 'A' <= c <= 'Z' then (c - 'A') as int
    else if 'a' <= c <= 'z' then (c - 'a') as int + 26
    else if '0' <= c <= '9' then (c - '0') as int + 52
    else if c == '+' then 62 else 63
  }

  lemma LetterValue(i: nat)
    requires i < 64
    ensures Value(Letter(i)) == i && Letter(i) != '='
  {
  }

  /** The decoder of the RFC on groups of four characters. */
  function Decoded(t: string): seq<nat> {
    if |t| < 4 then []
    else
      var a, b, c, d := Value(t[0]), Value(t[1]), Value(t[2]), Value(t[3]);
      if t[2] == '=' then [a * 4 + b / 16]
      else if t[3] == '=' then [a * 4 + b / 16, b % 16 * 16 + c / 4]
      else [a * 4 + b / 16, b % 16 * 16 + c / 4, c % 4 * 64 + d] + Decoded(t[4..])
  }

  function Bytes(s: string): seq<nat> {
    seq(|s|, i requires 0 <= i < |s| => Byte(s[i]))
  }

  lemma Joins(a: nat, b: nat)
    requires a < 256 && b < 256
    ensures a / 4 < 64 && a % 4 * 16 + b / 16 < 64 && (a % 4 * 16 + b / 16) / 16 == a % 4 &&
            (a % 4 * 16 + b / 16) % 16 == b / 16
    ensures b % 16 * 4 + a / 64 < 64 && (b % 16 * 4 + a / 64) / 4 == b % 16 && (b % 16 * 4 + a / 64) % 4 == a / 64
    ensures a / 4 * 4 + a % 4 == a && b / 16 * 16 + b % 16 == b && a / 64 * 64 + a % 64 == a
  {
  }

  lemma {:induction false} PaddedDecodes(s: string)
    requires 0 < |s| < 3
    ensures Decoded(Padded(s)) == Bytes(s)
  {
    var a := Byte(s[0]);
    var b := if |s| == 2 then Byte(s[1]) else 0;
    Joins(a, b);
    Joins(0, b);
    LetterValue(a / 4);
    LetterValue(a % 4 * 16 + b / 16);
    LetterValue(b % 16 * 4);
  }

  /** Decoding gives the bytes back. */
  lemma {:induction false} DecodesBack(s: string)
    ensures Decoded(Encoded(s)) == Bytes(s)
  {
    if s == "" {
    } else if |s| < 3 {
      PaddedDecodes(s);
    } else {
      var a, b, c := Byte(s[0]), Byte(s[1]), Byte(s[2]);
      GroupDecodes(a, b, c, Encoded(s[3..]));
      DecodesBack(s[3..]);
      assert Bytes(s) == [a, b, c] + Bytes(s[3..]);
    }
  }

  lemma GroupDecodes(a: nat, b: nat, c: nat, rest: string)
    requires a < 256 && b < 256 && c < 256
    ensures Decoded(Group(a, b, c) + rest) == [a, b, c] + Decoded(rest)
  {
    Joins(a, b);
    Joins(c, b);
    LetterValue(a / 4);
    LetterValue(a % 4 * 16 + b / 16);
    LetterValue(b % 16 * 4 + c / 64);
    LetterValue(c % 64);
    assert (Group(a, b, c) + rest)[4..] == rest;
  }

  /** The text is visible characters only. */
  lemma {:induction false} EncodedIsVisible(s: string)
    ensures forall i :: 0 <= i < |Encoded(s)| ==> 0x21 <= Encoded(s)[i] as int <= 0x7E
  {
    if |s| >= 3 {
      EncodedIsVisible(s[3..]);
    }
  }
}
