/** Header fields as the client writes and reads them (HTTPRequest.hpp): encodeHeaderFields and the
    recursive-descent parse functions, with obsolete line folds. */
module HeaderFields {
  import opened Sequences
  import opened HttpHeaderText

  /** What the thrown RequestError or ResponseError says. */
  datatype Refusal = InvalidToken | InvalidHeader | InvalidFieldName | InvalidFieldValue | UnsupportedScheme

  datatype Result<+T> = Ok(value: T) | Err(refusal: Refusal)

  datatype Field = Field(name: string, value: string)

  // ---------- character classes ----------

  predicate IsVisibleChar(c: char) {
    0x21 <= c as int <= 0x7E
  }

  predicate IsObsoleteTextChar(c: char) {
    0x80 <= c as int <= 0xFF
  }

  predicate IsTokenChar(c: char) {
    c == '!' || '#' <= c <= '\'' || c == '*' || c == '+' || c == '-' || c == '.' || c == '^' || c == '_' ||
    c == '`' || c == '|' || c == '~' || '0' <= c <= '9' || 'a' <= c <= 'z' || 'A' <= c <= 'Z'
  }

  predicate IsValueChar(c: char) {
    IsBlank(c) || IsVisibleChar(c) || IsObsoleteTextChar(c)
  }

  predicate AllToken(s: string) {
    forall i :: 0 <= i < |s| ==> IsTokenChar(s[i])
  }

  predicate AllValue(s: string) {
    forall i :: 0 <= i < |s| ==> IsValueChar(s[i])
  }

  datatype Class = Token | Blank | Content

  predicate In(c: char, k: Class) {
    match k
    case Token => IsTokenChar(c)
    case Blank => IsBlank(c)
    case Content => IsValueChar(c)
  }

  /** How far a class of characters reaches from the start of `t`. */
  function Reach(k: Class, t: string): (n: nat)
    ensures n <= |t|
  {
    if t == "" || !In(t[0], k) then 0 else 1 + Reach(k, t[1..])
  }

  lemma {:induction false} ReachIs(k: Class, t: string, n: nat)
    requires n <= |t| && (n < |t| ==> !In(t[n], k)) && forall i :: 0 <= i < n ==> In(t[i], k)
    ensures Reach(k, t) == n
  {
    if n > 0 {
      ReachIs(k, t[1..], n - 1);
    }
  }

  // ---------- parsing, on the text that is left ----------

  /** A part of the text: how many characters it took, and what it means. */
  datatype Taken = Taken(length: nat, text: string)

  function FieldValueOf(t: string): (r: Taken)
    ensures r.length <= |t|
  {
    var n := Reach(Content, t);
    Taken(n, TrimRight(t[..n]))
  }

  predicate StartsLineEnd(t: string) {
    |t| >= 2 && t[0] == '\r' && t[1] == '\n'
  }

  /** A line end followed by a blank is an obsolete fold (section 3.2.4 of RFC 7230). */
  predicate StartsFold(t: string) {
    StartsLineEnd(t) && |t| >= 3 && IsBlank(t[2])
  }

  function FieldContentOf(t: string): (r: Taken)
    ensures r.length <= |t|
    decreases |t|, 1
  {
    var first := FieldValueOf(t);
    ContentThen(first, t[first.length..])
  }

  /** A value, and what follows it: more content after a fold. */
  function ContentThen(first: Taken, after: string): (r: Taken)
    ensures r.length <= first.length + |after|
    decreases |after|, 0
  {
    if StartsFold(after) then
      var more := FieldContentOf(after[3..]);
      Taken(first.length + 3 + more.length, first.text + " " + more.text)
    else first
  }

  datatype Parsed = Bad(refusal: Refusal) | Good(length: nat, field: Field)

  function HeaderFieldOf(t: string): (r: Parsed)
    ensures r.Good? ==> 0 < r.length <= |t|
  {
    var k := Reach(Token, t);
    if k == 0 then Bad(InvalidToken)
    else if k == |t| || t[k] != ':' then Bad(InvalidHeader)
    else AfterColon(t[..k], t[k + 1..], k + 1)
  }

  /** The rest of parseHeaderField; `used` characters stand before `tail`. */
  function AfterColon(name: string, tail: string, used: nat): (r: Parsed)
    ensures r.Good? ==> used < r.length <= used + |tail|
  {
    var blanks := Reach(Blank, tail);
    AfterBlanks(name, tail[blanks..], used + blanks)
  }

  function AfterBlanks(name: string, tail: string, used: nat): (r: Parsed)
    ensures r.Good? ==> used < r.length <= used + |tail|
  {
    var content := FieldContentOf(tail);
    if !StartsLineEnd(tail[content.length..]) then Bad(InvalidHeader)
    else Good(used + content.length + 2, Field(name, content.text))
  }

  datatype ParsedAll = BadField(refusal: Refusal) | AllFields(fields: seq<Field>)

  /** parseHeaderField again and again until the text is used up. */
  function FieldsOf(t: string): ParsedAll
    decreases |t|, 1
  {
    match HeaderFieldOf(t)
    case Bad(m) => BadField(m)
    case Good(length, first) => FieldThen(first, t[length..])
  }

  function FieldThen(first: Field, rest: string): ParsedAll
    decreases |rest|, 2
  {
    if rest == "" then AllFields([first])
    else match FieldsOf(rest)
      case BadField(m) => BadField(m)
      case AllFields(more) => AllFields([first] + more)
  }

  // ---------- encoding ----------

  predicate Encodable(f: Field) {
    f.name != "" && AllToken(f.name) && AllValue(f.value)
  }

  function Line(f: Field): string {
    f.name + ": " + f.value + CRLF
  }

  function Lines(fields: seq<Field>): string {
    if fields == [] then "" else Line(fields[0]) + Lines(fields[1..])
  }

  predicate AllEncodable(fields: seq<Field>) {
    forall i :: 0 <= i < |fields| ==> Encodable(fields[i])
  }

  /** Why a field is refused: its name is looked at first. */
  function RefusalOf(f: Field): Refusal
    requires !Encodable(f)
  {
    if f.name == "" || !AllToken(f.name) then InvalidFieldName else InvalidFieldValue
  }

  /** The first field that is refused. */
  predicate RefusedAt(fields: seq<Field>, i: nat) {
    i < |fields| && AllEncodable(fields[..i]) && !Encodable(fields[i])
  }

  method EncodeHeaderFields(fields: seq<Field>) returns (r: Result<string>)
    ensures r.Ok? <==> AllEncodable(fields)
    ensures r.Ok? ==> r.value == Lines(fields)
    ensures r.Err? ==> exists i: nat :: RefusedAt(fields, i) && r.refusal == RefusalOf(fields[i])
  {
    var result := "";
    for i := 0 to |fields|
      invariant AllEncodable(fields[..i]) && result + Lines(fields[i..]) == Lines(fields)
    {
      var f := fields[i];
      if f.name == "" {
        assert RefusedAt(fields, i);
        return Err(InvalidFieldName);
      }
      for j := 0 to |f.name|
        invariant AllToken(f.name[..j])
      {
        if !IsTokenChar(f.name[j]) {
          assert RefusedAt(fields, i);
          return Err(InvalidFieldName);
        }
      }
      for j := 0 to |f.value|
        invariant AllValue(f.value[..j])
      {
        if !IsBlank(f.value[j]) && !IsVisibleChar(f.value[j]) && !IsObsoleteTextChar(f.value[j]) {
          assert f.name[..|f.name|] == f.name && RefusedAt(fields, i);
          return Err(InvalidFieldValue);
        }
      }
      assert f.name[..|f.name|] == f.name && f.value[..|f.value|] == f.value;
      assert fields[i..][1..] == fields[i + 1..];
      assert result + (Line(f) + Lines(fields[i + 1..])) == (result + Line(f)) + Lines(fields[i + 1..]);
      result := result + (f.name + ": " + f.value + "\r\n");
    }
    r := Ok(result);
  }

  // ---------- the round trip ----------

  lemma {:induction false} TrimLeftReach(v: string)
    ensures var n := Reach(Blank, v);
            n == |v| - |TrimLeft(v)| && v == v[..n] + TrimLeft(v) && AllBlank(v[..n]) && (n < |v| ==> !IsBlank(v[n]))
  {
    if v != "" && IsBlank(v[0]) {
      var w, n := v[1..], Reach(Blank, v);
      TrimLeftReach(w);
      assert TrimLeft(v) == TrimLeft(w) && n == 1 + Reach(Blank, w);
      assert v == [v[0]] + w && v[..n] == [v[0]] + w[..n - 1];
    }
  }

  /** Blanks before a value are skipped, and no further. */
  lemma {:induction false} BlanksSkipped(value: string, rest: string)
    ensures Reach(Blank, " " + value + CRLF + rest) == 1 + |value| - |TrimLeft(value)|
    ensures (" " + value + CRLF + rest)[1 + |value| - |TrimLeft(value)|..] == TrimLeft(value) + CRLF + rest
  {
    var t := " " + value + CRLF + rest;
    TrimLeftReach(value);
    var n := Reach(Blank, value);
    assert t[1..1 + |value|] == value;
    assert t[n + 1..] == value[n..] + CRLF + rest && value[n..] == TrimLeft(value);
    forall k | 0 <= k < n + 1 ensures IsBlank(t[k]) {
      if k > 0 {
        assert t[k] == value[..n][k - 1];
      }
    }
    if n < |value| {
      assert t[n + 1] == value[n];
    }
    ReachIs(Blank, t, n + 1);
  }

  /** A value followed by a line end and a token, or the end, is read to the line end: the next field is
      never mistaken for a fold. */
  lemma {:induction false} ContentEnds(v: string, rest: string)
    requires AllValue(v) && (rest != "" ==> IsTokenChar(rest[0]))
    ensures FieldContentOf(v + CRLF + rest) == Taken(|v|, TrimRight(v))
  {
    var t := v + CRLF + rest;
    forall k | 0 <= k < |v| ensures IsValueChar(t[k]) {
      assert t[k] == v[k];
    }
    ReachIs(Content, t, |v|);
    assert t[..|v|] == v;
    assert t[|v|..] == CRLF + rest;
  }

  lemma AllValueTrimmed(v: string)
    requires AllValue(v)
    ensures AllValue(TrimLeft(v))
  {
    TrimLeftReach(v);
    assert forall i :: 0 <= i < |TrimLeft(v)| ==> TrimLeft(v)[i] == v[Reach(Blank, v) + i];
  }

  /** A printed line and what follows it, cut behind the colon. */
  function Cut(f: Field, rest: string): string {
    (f.name + ":") + (" " + f.value + CRLF + rest)
  }

  lemma LineCut(f: Field, rest: string)
    ensures Line(f) + rest == Cut(f, rest)
  {
    assert f.name + ": " == (f.name + ":") + " ";
  }

  lemma CutRest(f: Field, rest: string)
    ensures |f.name| + |f.value| + 4 <= |Cut(f, rest)| && Cut(f, rest)[|f.name| + |f.value| + 4..] == rest
  {
  }

  /** The name and the colon are read back. */
  lemma {:induction false} NameReadBack(name: string, tail: string)
    requires name != "" && AllToken(name)
    ensures HeaderFieldOf((name + ":") + tail) == AfterColon(name, tail, |name| + 1)
  {
    var t, k := (name + ":") + tail, |name|;
    forall i | 0 <= i < k ensures IsTokenChar(t[i]) {
      assert t[i] == name[i];
    }
    ReachIs(Token, t, k);
    assert t[..k] == name && t[k + 1..] == tail;
  }

  lemma {:induction false} ContentReadBack(name: string, v: string, rest: string, used: nat)
    requires AllValue(v) && (rest != "" ==> IsTokenChar(rest[0]))
    ensures AfterBlanks(name, v + CRLF + rest, used) == Good(used + |v| + 2, Field(name, TrimRight(v)))
  {
    var t := v + CRLF + rest;
    assert FieldContentOf(t) == Taken(|v|, TrimRight(v)) by { ContentEnds(v, rest); }
    assert t[|v|..] == CRLF + rest;
  }

  /** The value and the line end of a printed line. */
  lemma {:induction false} ValueReadBack(f: Field, rest: string, used: nat)
    requires Encodable(f) && (rest != "" ==> IsTokenChar(rest[0]))
    ensures AfterColon(f.name, " " + f.value + CRLF + rest, used) ==
            Good(used + |f.value| + 3, Field(f.name, Trim(f.value)))
  {
    BlanksSkipped(f.value, rest);
    AllValueTrimmed(f.value);
    ContentReadBack(f.name, TrimLeft(f.value), rest, used + 1 + |f.value| - |TrimLeft(f.value)|);
  }

  lemma {:induction false} OneFieldReadBack(f: Field, rest: string)
    requires Encodable(f) && (rest != "" ==> IsTokenChar(rest[0]))
    ensures HeaderFieldOf(Cut(f, rest)) ==
            Good(|f.name| + |f.value| + 4, Field(f.name, Trim(f.value)))
  {
    var tail := " " + f.value + CRLF + rest;
    var r := AfterColon(f.name, tail, |f.name| + 1);
    assert HeaderFieldOf(Cut(f, rest)) == r by { NameReadBack(f.name, tail); }
    assert r == Good(|f.name| + 1 + |f.value| + 3, Field(f.name, Trim(f.value))) by {
      ValueReadBack(f, rest, |f.name| + 1);
    }
  }

  function Trimmed(fields: seq<Field>): (r: seq<Field>)
    ensures |r| == |fields|
  {
    seq(|fields|, i requires 0 <= i < |fields| => Field(fields[i].name, Trim(fields[i].value)))
  }

  lemma TrimmedCons(fields: seq<Field>)
    requires fields != []
    ensures Trimmed(fields) == [Field(fields[0].name, Trim(fields[0].value))] + Trimmed(fields[1..])
  {
  }

  lemma FieldsStep(t: string, length: nat, first: Field, rest: string)
    requires HeaderFieldOf(t) == Good(length, first) && t[length..] == rest
    ensures FieldsOf(t) == FieldThen(first, rest)
  {
  }

  /** A line in front of lines that are read back. */
  lemma {:induction false} LineReadBack(f: Field, rest: string)
    requires Encodable(f) && (rest != "" ==> IsTokenChar(rest[0]))
    ensures FieldsOf(Line(f) + rest) == FieldThen(Field(f.name, Trim(f.value)), rest)
  {
    OneFieldReadBack(f, rest);
    CutRest(f, rest);
    FieldsStep(Cut(f, rest), |f.name| + |f.value| + 4, Field(f.name, Trim(f.value)), rest);
    LineCut(f, rest);
  }

  lemma LinesStart(fields: seq<Field>)
    requires fields != [] && Encodable(fields[0])
    ensures Lines(fields) != "" && IsTokenChar(Lines(fields)[0])
  {
    assert Lines(fields)[0] == fields[0].name[0];
  }

  /** What encodeHeaderFields accepts and prints is read back completely, with the same names, and the same
      values without their outer blanks. */
  lemma {:induction false} ReadsBackFields(fields: seq<Field>)
    requires fields != [] && AllEncodable(fields)
    ensures FieldsOf(Lines(fields)) == AllFields(Trimmed(fields))
  {
    if |fields| > 1 {
      LinesStart(fields[1..]);
      ReadsBackFields(fields[1..]);
    }
    TrimmedCons(fields);
    LineReadBack(fields[0], Lines(fields[1..]));
  }

  // ---------- folded values ----------

  /** The lines of a value, each but the first behind a line end and a blank. */
  function Folded(lines: seq<string>, blank: char): string
    requires lines != []
  {
    if |lines| == 1 then lines[0] else lines[0] + (CRLF + [blank] + Folded(lines[1..], blank))
  }

  /** The lines without the blanks at their ends, with one space between them. */
  function Unfolded(lines: seq<string>): string
    requires lines != []
  {
    if |lines| == 1 then TrimRight(lines[0]) else TrimRight(lines[0]) + " " + Unfolded(lines[1..])
  }

  predicate AllValues(lines: seq<string>) {
    forall i :: 0 <= i < |lines| ==> AllValue(lines[i])
  }

  lemma FirstLineValue(line: string, tail: string)
    requires AllValue(line) && (tail != "" ==> !IsValueChar(tail[0]))
    ensures FieldValueOf(line + tail) == Taken(|line|, TrimRight(line)) && (line + tail)[|line|..] == tail
  {
    var t := line + tail;
    forall k | 0 <= k < |line| ensures IsValueChar(t[k]) {
      assert t[k] == line[k];
    }
    assert tail != "" ==> t[|line|] == tail[0];
    ReachIs(Content, t, |line|);
    assert t[..|line|] == line;
  }

  /** A value of several lines is read to its end, and what it means are its lines with one space between them. */
  lemma {:induction false} FoldsAreJoined(lines: seq<string>, blank: char, rest: string)
    requires lines != [] && AllValues(lines) && IsBlank(blank) && (rest != "" ==> IsTokenChar(rest[0]))
    ensures FieldContentOf(Folded(lines, blank) + (CRLF + rest)) == Taken(|Folded(lines, blank)|, Unfolded(lines))
    decreases |lines|
  {
    var line, tail := lines[0], CRLF + rest;
    if |lines| == 1 {
      FirstLineValue(line, tail);
    } else {
      var more := Folded(lines[1..], blank);
      FoldsAreJoined(lines[1..], blank, rest);
      FoldStep(line, blank, more + tail, |more|, Unfolded(lines[1..]));
      assert Folded(lines, blank) + tail == line + (CRLF + [blank] + (more + tail));
    }
  }

  lemma {:induction false} FoldStep(line: string, blank: char, more: string, n: nat, text: string)
    requires AllValue(line) && IsBlank(blank) && FieldContentOf(more) == Taken(n, text)
    ensures FieldContentOf(line + (CRLF + [blank] + more)) == Taken(|line| + 3 + n, TrimRight(line) + " " + text)
  {
    var fold := CRLF + [blank] + more;
    FirstLineValue(line, fold);
    assert fold[3..] == more && StartsFold(fold);
  }

  /** What has been parsed stands there: the name, a colon, and at the end CR LF. */
  lemma {:induction false} FieldStands(t: string)
    requires HeaderFieldOf(t).Good?
    ensures var length, f := HeaderFieldOf(t).length, HeaderFieldOf(t).field;
            f.name != "" && AllToken(f.name) && |f.name| + 3 <= length <= |t| && t[..|f.name|] == f.name &&
            t[|f.name|] == ':' && t[length - 2] == '\r' && t[length - 1] == '\n'
  {
    var k := Reach(Token, t);
    ReachAll(Token, t);
    var tail := t[k + 1..];
    var blanks := Reach(Blank, tail);
    var content := FieldContentOf(tail[blanks..]);
    assert tail[blanks..][content.length..] == t[k + 1 + blanks + content.length..];
  }

  lemma {:induction false} ReachAll(k: Class, t: string)
    ensures forall i :: 0 <= i < Reach(k, t) ==> In(t[i], k)
  {
    if t != "" && In(t[0], k) {
      ReachAll(k, t[1..]);
      forall i | 0 <= i < Reach(k, t) ensures In(t[i], k) {
        assert i > 0 ==> t[i] == t[1..][i - 1];
      }
    }
  }

  // ---------- the parse functions as loops; an iterator is the text from it to the end ----------

  /** parseToken; an empty token is an error. */
  method ParseToken(t: string) returns (r: Result<string>)
    ensures var n := Reach(Token, t);
            r == if n == 0 then Err(InvalidToken) else Ok(t[..n])
  {
    var n := ScanClass(t, Token);
    r := if n == 0 then Err(InvalidToken) else Ok(t[..n]);
  }

  /** The scanning loop that parseToken, skipWhiteSpaces and parseFieldValue share. */
  method ScanClass(t: string, k: Class) returns (n: nat)
    ensures n == Reach(k, t)
  {
    n := 0;
    assert t[0..] == t;
    while n < |t| && In(t[n], k)
      invariant n <= |t| && Reach(k, t) == n + Reach(k, t[n..])
    {
      assert t[n..][1..] == t[n + 1..];
      n := n + 1;
    }
  }

  /** parseFieldValue: the reverse search for the last character that is not a blank trims the copy. */
  method ParseFieldValue(t: string) returns (r: Taken)
    ensures r == FieldValueOf(t)
  {
    var n := ScanClass(t, Content);
    var result := t[..n];
    while result != "" && IsBlank(result[|result| - 1])
      invariant TrimRight(result) == TrimRight(t[..n])
      decreases |result|
    {
      result := result[..|result| - 1];
    }
    r := Taken(n, result);
  }

  /** parseFieldContent: every obsolete fold becomes one space. */
  method ParseFieldContent(t: string) returns (r: Taken)
    ensures r == FieldContentOf(t)
  {
    var length: nat, result, left := 0, "", t;
    JoinedNothing(FieldContentOf(t));
    while true
      invariant Joined(length, result, FieldContentOf(left)) == FieldContentOf(t)
      decreases |left|
    {
      var v := ParseFieldValue(left);
      ContentStep(v, left[v.length..], length, result);
      length := length + v.length;
      result := result + v.text;
      left := left[v.length..];
      if !StartsFold(left) {
        return Taken(length, result);
      }
      result := result + " ";
      length := length + 3;
      left := left[3..];
    }
  }

  /** What was read before, and the rest. */
  function Joined(length: nat, text: string, rest: Taken): Taken {
    Taken(length + rest.length, text + rest.text)
  }

  lemma JoinedNothing(rest: Taken)
    ensures Joined(0, "", rest) == rest
  {
    assert "" + rest.text == rest.text;
  }

  /** One turn of the loop: a value, and the fold behind it if there is one. */
  lemma ContentStep(v: Taken, after: string, length: nat, text: string)
    ensures Joined(length, text, ContentThen(v, after)) ==
            if StartsFold(after) then Joined(length + v.length + 3, text + v.text + " ", FieldContentOf(after[3..]))
            else Taken(length + v.length, text + v.text)
  {
    if StartsFold(after) {
      var more := FieldContentOf(after[3..]);
      assert text + (v.text + " " + more.text) == (text + v.text + " ") + more.text;
    }
  }

  method ParseHeaderField(t: string) returns (r: Parsed)
    ensures r == HeaderFieldOf(t)
  {
    var token := ParseToken(t);
    if token.Err? {
      return Bad(token.refusal);
    }
    var name := token.value;
    if |name| == |t| || t[|name|] != ':' {
      return Bad(InvalidHeader);
    }
    r := ParseAfterColon(name, t[|name| + 1..], |name| + 1);
  }

  method ParseAfterColon(name: string, tail: string, used: nat) returns (r: Parsed)
    ensures r == AfterColon(name, tail, used)
  {
    var blanks := ScanClass(tail, Blank);
    var left := tail[blanks..];
    var content := ParseFieldContent(left);
    if !StartsLineEnd(left[content.length..]) {
      return Bad(InvalidHeader);
    }
    r := Good(used + blanks + content.length + 2, Field(name, content.text));
  }
}
