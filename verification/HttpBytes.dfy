/** Character classes of http_parser.c in its default strict build. A byte of the input is a
    `char`; the C code only ever sees values below 256. */
module HttpBytes {

  const CR := '\r'
  const LF := '\n'
  const NUL := '\0'

  /** `LOWER`: sets bit 0x20 of the byte, whatever the byte is. */
  function Lower(c: char): char {
    var b := c as int;
    if b < 256 && b / 32 % 2 == 0 then (b + 32) as char else c
  }

  predicate IsAlpha(c: char) {
    'a' <= c <= 'z' || 'A' <= c <= 'Z'
  }

  predicate IsNum(c: char) {
    '0' <= c <= '9'
  }

  predicate IsAlphaNum(c: char) {
    IsAlpha(c) || IsNum(c)
  }

  predicate IsHex(c: char) {
    IsNum(c) || 'a' <= c <= 'f' || 'A' <= c <= 'F'
  }

  predicate IsUserInfoChar(c: char) {
    IsAlphaNum(c) ||
    c == '-' || c == '_' || c == '.' || c == '!' || c == '~' || c == '*' || c == '\'' || c == '(' || c == ')' ||
    c == '%' || c == ';' || c == ':' || c == '&' || c == '=' || c == '+' || c == '$' || c == ','
  }

  predicate IsHostChar(c: char) {
    IsAlphaNum(c) || c == '.' || c == '-'
  }

  /** The `normal_url_char` bitmap: printable ASCII except `#` and `?`. */
  predicate IsUrlChar(c: char) {
    c == '!' || c == '"' || '$' <= c <= '>' || '@' <= c <= '~'
  }

  predicate IsHeaderChar(c: char) {
    c == CR || c == LF || c == '\t' || (c as int > 31 && c as int != 127)
  }

  /** `tokens[]` with the space entry read as 0: the lower-cased token character, or NUL. */
  function Token(c: char): char {
    if 'A' <= c <= 'Z' then (c as int + 32) as char
    else if 'a' <= c <= 'z' || IsNum(c) || c == '!' || '#' <= c <= '\'' || c == '*' || c == '+' || c == '-' ||
            c == '.' || c == '^' || c == '_' || c == '`' || c == '|' || c == '~' then c
    else NUL
  }

  predicate IsToken(c: char) {
    Token(c) != NUL
  }

  predicate AllTokens(s: string) {
    forall i :: 0 <= i < |s| ==> IsToken(s[i])
  }

  /** The name as the header matchers see it. */
  function LowerToken(s: string): (r: string)
    ensures |r| == |s|
  {
    seq(|s|, i requires 0 <= i < |s| => Token(s[i]))
  }

  /** `unhex[]`: the table initialises only its first 128 entries, so every byte from 0x80 up
      reads as the digit 0. */
  function Unhex(c: char): (v: int)
    ensures -1 <= v < 16
  {
    if '0' <= c <= '9' then c as int - '0' as int
    else if 'a' <= c <= 'f' then c as int - 'a' as int + 10
    else if 'A' <= c <= 'F' then c as int - 'A' as int + 10
    else if c as int >= 128 then 0
    else -1
  }

  function Digit(c: char): (v: nat)
    requires IsNum(c)
    ensures v < 10
  {
    c as int - '0' as int
  }
}
