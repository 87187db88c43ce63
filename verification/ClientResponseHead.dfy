/** The loop of Request::send over the header section of a response (HTTPRequest.hpp): the fields, and what they say
    about the body. */
module ClientResponseHead {
  import opened Options
  import opened HttpHeaderText
  import opened HttpBytes
  import H = HeaderFields

  const TRANSFER_ENCODING := "transfer-encoding"
  const CONTENT_LENGTH := "content-length"
  const CHUNKED := "chunked"

  /** `std::size_t` has 64 bits. */
  const SIZE_MODULUS: nat := 0x1_0000_0000_0000_0000

  datatype Error = Syntax(refusal: H.Refusal) | UnsupportedTransferEncoding | InvalidDigit

  /** What has been read of the head; `length` is that of the last Content-Length field. */
  datatype Head = Head(fields: seq<H.Field>, chunked: bool, length: Option<nat>) | Refused(error: Error)

  function LowerChar(c: char): char {
    if 'A' <= c <= 'Z' then (c as int + 32) as char else c
  }

  function LowerName(s: string): string {
    seq(|s|, i requires 0 <= i < |s| => LowerChar(s[i]))
  }

  predicate NoCapital(s: string) {
    forall i :: 0 <= i < |s| ==> !('A' <= s[i] <= 'Z')
  }

  /** `low` is `s` with every capital letter made small and nothing else changed. */
  predicate SmallOf(s: string, low: string) {
    SameWord(s, low) && NoCapital(low)
  }

  lemma {:induction false} LowerNameIsSmall(s: string, low: string)
    ensures LowerName(s) == low <==> SmallOf(s, low)
  {
    if SmallOf(s, low) {
      forall i | 0 <= i < |s| ensures LowerName(s)[i] == low[i] {
        assert SameChar(s[i], low[i]);
      }
    }
  }

  /** A lower-cased name is a literal without capitals exactly if the name is that word in any capitalisation. */
  lemma {:induction false} LowerNameIs(s: string, literal: string)
    requires NoCapital(literal)
    ensures LowerName(s) == literal <==> SameWord(s, literal)
  {
    LowerNameIsSmall(s, literal);
  }

  // ---------- numbers ----------

  /** Reducing before a digit is appended changes nothing. */
  lemma ModStep(a: nat, d: nat)
    ensures (10 * (a % SIZE_MODULUS) + d) % SIZE_MODULUS == (a * 10 + d) % SIZE_MODULUS
  {
    var q, r := a / SIZE_MODULUS, a % SIZE_MODULUS;
    assert a * 10 + d == SIZE_MODULUS * (10 * q) + (10 * r + d);
    AddMultiple(10 * q, 10 * r + d);
  }

  lemma {:induction false} AddMultiple(k: nat, n: nat)
    ensures (SIZE_MODULUS * k + n) % SIZE_MODULUS == n % SIZE_MODULUS
  {
    if k > 0 {
      AddMultiple(k - 1, n);
      AddOne(SIZE_MODULUS * (k - 1) + n);
    }
  }

  lemma AddOne(n: nat)
    ensures (SIZE_MODULUS + n) % SIZE_MODULUS == n % SIZE_MODULUS
  {
  }

  /** `stringToUint`: the decimal value modulo 2^64, or an error at the first character that is no digit. */
  method StringToUint(s: string) returns (r: Option<nat>)
    ensures r == if AllDigits(s) then Some(Decimal(s) % SIZE_MODULUS) else None
  {
    var result := 0;
    for i := 0 to |s|
      invariant AllDigits(s[..i]) && result == Decimal(s[..i]) % SIZE_MODULUS
    {
      if !IsNum(s[i]) {
        return None;
      }
      DecimalSnoc(s[..i], s[i]);
      assert s[..i + 1] == s[..i] + [s[i]];
      ModStep(Decimal(s[..i]), Digit(s[i]));
      result := (10 * result + Digit(s[i])) % SIZE_MODULUS;
    }
    assert s[..|s|] == s;
    r := Some(result);
  }

  // ---------- one field ----------

  /** The head after one more field. */
  function Take(h: Head, f: H.Field): Head
    requires h.Head?
  {
    var name := LowerName(f.name);
    var g := h.(fields := h.fields + [H.Field(name, f.value)]);
    if name == TRANSFER_ENCODING then
      if f.value == CHUNKED then g.(chunked := true) else Refused(UnsupportedTransferEncoding)
    else if name == CONTENT_LENGTH then
      if AllDigits(f.value) then g.(length := Some(Decimal(f.value) % SIZE_MODULUS)) else Refused(InvalidDigit)
    else g
  }

  /** The loop, from the text that is left. */
  function HeadFrom(h: Head, t: string): Head
    requires h.Head?
    decreases |t|
  {
    match H.HeaderFieldOf(t)
    case Bad(e) => Refused(Syntax(e))
    case Good(length, f) =>
      var next := Take(h, f);
      if next.Refused? || length == |t| then next else HeadFrom(next, t[length..])
  }

  method ReadHead(t: string) returns (head: Head)
    ensures head == HeadFrom(Head([], false, None), t)
  {
    var left := t;
    head := Head([], false, None);
    while true
      invariant head.Head? && HeadFrom(head, left) == HeadFrom(Head([], false, None), t)
      decreases |left|
    {
      var one := H.ParseHeaderField(left);
      if one.Bad? {
        return Refused(Syntax(one.refusal));
      }
      ghost var before := head;
      head := TakeField(head, one.field);
      if head.Refused? || one.length == |left| {
        return;
      }
      left := left[one.length..];
    }
  }

  method TakeField(h: Head, f: H.Field) returns (next: Head)
    requires h.Head?
    ensures next == Take(h, f)
  {
    var name := LowerName(f.name);
    next := h.(fields := h.fields + [H.Field(name, f.value)]);
    if name == TRANSFER_ENCODING {
      next := if f.value == CHUNKED then next.(chunked := true) else Refused(UnsupportedTransferEncoding);
    } else if name == CONTENT_LENGTH {
      var value := StringToUint(f.value);
      match value
      case Some(n) => next := next.(length := Some(n));
      case None => next := Refused(InvalidDigit);
    }
  }

  // ---------- what the head says ----------

  function Lowered(fields: seq<H.Field>): seq<H.Field> {
    if fields == [] then [] else [H.Field(LowerName(fields[0].name), fields[0].value)] + Lowered(fields[1..])
  }

  /** The values of the fields of a name, in any capitalisation, in order. */
  function ValuesOf(name: string, fields: seq<H.Field>): seq<string> {
    if fields == [] then []
    else (if SameWord(fields[0].name, name) then [fields[0].value] else []) + ValuesOf(name, fields[1..])
  }

  /** The fields as they are kept: names in small letters, values as they came. */
  predicate KeptAs(fields: seq<H.Field>, kept: seq<H.Field>) {
    |kept| == |fields| &&
    forall i :: 0 <= i < |fields| ==> SmallOf(fields[i].name, kept[i].name) && kept[i].value == fields[i].value
  }

  lemma {:induction false} LoweredKept(fields: seq<H.Field>)
    ensures KeptAs(fields, Lowered(fields))
  {
    if fields != [] {
      LoweredKept(fields[1..]);
      LowerNameIsSmall(fields[0].name, LowerName(fields[0].name));
      var kept := Lowered(fields);
      forall i | 1 <= i < |fields| ensures SmallOf(fields[i].name, kept[i].name) && kept[i].value == fields[i].value {
        assert fields[i] == fields[1..][i - 1] && kept[i] == Lowered(fields[1..])[i - 1];
      }
    }
  }

  /** Only "chunked" is a transfer encoding, and lengths are decimal. */
  predicate Admissible(fields: seq<H.Field>) {
    AllChunked(ValuesOf(TRANSFER_ENCODING, fields)) && AllNumbers(ValuesOf(CONTENT_LENGTH, fields))
  }

  predicate AllChunked(values: seq<string>) {
    forall i :: 0 <= i < |values| ==> values[i] == CHUNKED
  }

  predicate AllNumbers(values: seq<string>) {
    forall i :: 0 <= i < |values| ==> AllDigits(values[i])
  }

  /** What the fields say when `h` has been read before. */
  function Said(h: Head, fields: seq<H.Field>): Head
    requires h.Head? && Admissible(fields)
  {
    Adding(h, Lowered(fields), ValuesOf(TRANSFER_ENCODING, fields), ValuesOf(CONTENT_LENGTH, fields))
  }

  function Adding(h: Head, fields: seq<H.Field>, encodings: seq<string>, lengths: seq<string>): Head
    requires h.Head? && AllNumbers(lengths)
  {
    Head(h.fields + fields, h.chunked || encodings != [], LastLength(h.length, lengths))
  }

  /** The last of some lengths, or `before` if there is none. */
  function LastLength(before: Option<nat>, lengths: seq<string>): Option<nat>
    requires AllNumbers(lengths)
  {
    if lengths == [] then before else Some(Decimal(lengths[|lengths| - 1]) % SIZE_MODULUS)
  }

  lemma ValuesOfCons(name: string, f: H.Field, more: seq<H.Field>)
    ensures ValuesOf(name, [f] + more) ==
            if SameWord(f.name, name) then [f.value] + ValuesOf(name, more) else ValuesOf(name, more)
    ensures Lowered([f] + more) == [H.Field(LowerName(f.name), f.value)] + Lowered(more)
  {
    assert ([f] + more)[1..] == more;
    assert [] + ValuesOf(name, more) == ValuesOf(name, more);
  }

  lemma DifferentNames()
    ensures TRANSFER_ENCODING != CONTENT_LENGTH
    ensures NoCapital(TRANSFER_ENCODING) && NoCapital(CONTENT_LENGTH)
  {
    assert TRANSFER_ENCODING[0] == 't' && CONTENT_LENGTH[0] == 'c';
  }

  lemma TheNames(s: string)
    ensures LowerName(s) == TRANSFER_ENCODING <==> SameWord(s, TRANSFER_ENCODING)
    ensures LowerName(s) == CONTENT_LENGTH <==> SameWord(s, CONTENT_LENGTH)
  {
    DifferentNames();
    LowerNameIs(s, TRANSFER_ENCODING);
    LowerNameIs(s, CONTENT_LENGTH);
  }

  lemma {:induction false} AdmissibleCons(f: H.Field, more: seq<H.Field>)
    ensures Admissible([f] + more) <==> Take(Head([], false, None), f).Head? && Admissible(more)
  {
    DifferentNames();
    TheNames(f.name);
    ValuesOfCons(TRANSFER_ENCODING, f, more);
    ValuesOfCons(CONTENT_LENGTH, f, more);
    var name := LowerName(f.name);
    if name == TRANSFER_ENCODING {
      InCons(f.value, ValuesOf(TRANSFER_ENCODING, more));
    } else if name == CONTENT_LENGTH {
      InCons(f.value, ValuesOf(CONTENT_LENGTH, more));
    }
  }

  lemma InCons(v: string, vs: seq<string>)
    ensures AllChunked([v] + vs) <==> v == CHUNKED && AllChunked(vs)
    ensures AllNumbers([v] + vs) <==> AllDigits(v) && AllNumbers(vs)
  {
    assert ([v] + vs)[0] == v && forall i :: 0 <= i < |vs| ==> ([v] + vs)[i + 1] == vs[i];
  }

  /** Taking a field and then more is taking them together. */
  lemma {:induction false} SaidCons(h: Head, f: H.Field, more: seq<H.Field>)
    requires h.Head? && Take(h, f).Head? && Admissible(more) && Admissible([f] + more)
    ensures Said(Take(h, f), more) == Said(h, [f] + more)
  {
    DifferentNames();
    TheNames(f.name);
    ValuesOfCons(TRANSFER_ENCODING, f, more);
    ValuesOfCons(CONTENT_LENGTH, f, more);
    AddingCons(h, f, Lowered(more), ValuesOf(TRANSFER_ENCODING, more), ValuesOf(CONTENT_LENGTH, more));
  }

  lemma AddingCons(h: Head, f: H.Field, fields: seq<H.Field>, encodings: seq<string>, lengths: seq<string>)
    requires h.Head? && Take(h, f).Head? && AllNumbers(lengths)
    ensures var name := LowerName(f.name);
            var lengths' := if name == CONTENT_LENGTH then [f.value] + lengths else lengths;
            var encodings' := if name == TRANSFER_ENCODING then [f.value] + encodings else encodings;
            AllNumbers(lengths') &&
            Adding(Take(h, f), fields, encodings, lengths) ==
                Adding(h, [H.Field(name, f.value)] + fields, encodings', lengths')
  {
    DifferentNames();
    InCons(f.value, lengths);
    var one := H.Field(LowerName(f.name), f.value);
    assert (h.fields + [one]) + fields == h.fields + ([one] + fields);
    if LowerName(f.name) == CONTENT_LENGTH {
      LastLengthCons(h.length, f.value, lengths);
    }
  }

  lemma LastLengthCons(before: Option<nat>, v: string, vs: seq<string>)
    requires AllDigits(v) && AllNumbers(vs) && AllNumbers([v] + vs)
    ensures LastLength(before, [v] + vs) == LastLength(Some(Decimal(v) % SIZE_MODULUS), vs)
  {
  }

  /** One more field in front. */
  lemma {:induction false} Extended(h: Head, f: H.Field, more: seq<H.Field>)
    requires h.Head?
    ensures Admissible([f] + more) <==> Take(h, f).Head? && Admissible(more)
    ensures Take(h, f).Head? && Admissible(more) ==> Said(Take(h, f), more) == Said(h, [f] + more)
  {
    AdmissibleCons(f, more);
    if Take(h, f).Head? && Admissible(more) {
      SaidCons(h, f, more);
    }
  }

  lemma {:induction false} SaidNothing(h: Head)
    requires h.Head?
    ensures Admissible([]) && Said(h, []) == h
  {
    assert h.fields + [] == h.fields;
  }

  /** The head is read exactly if all its fields can be parsed and are admissible, and then it holds what they say. */
  lemma {:induction false} HeadFromSays(h: Head, t: string)
    requires h.Head?
    ensures HeadFrom(h, t).Head? <==> H.FieldsOf(t).AllFields? && Admissible(H.FieldsOf(t).fields)
    ensures HeadFrom(h, t).Head? ==> HeadFrom(h, t) == Said(h, H.FieldsOf(t).fields)
    decreases |t|
  {
    var one := H.HeaderFieldOf(t);
    if one.Good? {
      var f, rest := one.field, t[one.length..];
      assert H.FieldsOf(t) == H.FieldThen(f, rest);
      if rest == "" {
        SaidOne(h, f);
      } else {
        if Take(h, f).Head? {
          HeadFromSays(Take(h, f), rest);
        }
        if H.FieldsOf(rest).AllFields? {
          Extended(h, f, H.FieldsOf(rest).fields);
        }
      }
    }
  }

  lemma {:induction false} SaidOne(h: Head, f: H.Field)
    requires h.Head?
    ensures Take(h, f).Head? <==> Admissible([f])
    ensures Take(h, f).Head? ==> Take(h, f) == Said(h, [f])
  {
    assert [f] + [] == [f];
    Extended(h, f, []);
    if Take(h, f).Head? {
      SaidNothing(Take(h, f));
    }
  }
  /** The head keeps the fields in order under their names in small letters; the body is chunked if and only if some
      field has the name Transfer-Encoding in any capitalisation, and the last field with the name Content-Length in
      any capitalisation gives the length. */
  predicate HoldsWhat(head: Head, fields: seq<H.Field>)
    requires head.Head? && Admissible(fields)
  {
    KeptAs(fields, head.fields) &&
    (head.chunked <==> ValuesOf(TRANSFER_ENCODING, fields) != []) &&
    head.length == LastLength(None, ValuesOf(CONTENT_LENGTH, fields))
  }

  lemma {:induction false} SaidHolds(fields: seq<H.Field>)
    requires Admissible(fields)
    ensures HoldsWhat(Said(Head([], false, None), fields), fields)
  {
    LoweredKept(fields);
    assert [] + Lowered(fields) == Lowered(fields);
  }

  /** A head is read exactly if all its fields can be parsed, every Transfer-Encoding is "chunked" and every
      Content-Length is a number; and then it holds what the fields say. */
  lemma {:induction false} HeadSays(t: string)
    ensures var head, said := HeadFrom(Head([], false, None), t), H.FieldsOf(t);
            (head.Head? <==> said.AllFields? && Admissible(said.fields)) &&
            (head.Head? ==> HoldsWhat(head, said.fields))
  {
    var start := Head([], false, None);
    HeadFromSays(start, t);
    if HeadFrom(start, t).Head? {
      SaidHolds(H.FieldsOf(t).fields);
    }
  }
}
