/** The client's reader for chunked bodies: the loop of Request::send in HTTPRequest.hpp. */
module ChunkedClient {
  import opened Sequences
  import opened ChunkedCoding
  import HttpBytes

  /** `std::size_t` of the 64-bit targets. */
  const SIZE_MODULUS: nat := 0x1_0000_0000_0000_0000

  datatype Value = Number(n: nat) | BadDigit

  function HexDigitToUint(c: char): Value {
    if '0' <= c <= '9' then Number(c as int - '0' as int)
    else if 'A' <= c <= 'F' then Number(c as int - 'A' as int + 10)
    else if 'a' <= c <= 'f' then Number(c as int - 'a' as int + 10)
    else BadDigit
  }

  /** The number a hexadecimal string denotes, as far as 64 bits can hold it; the empty string is 0. */
  function HexValue(s: string): Value {
    if s == "" then Number(0)
    else match HexValue(s[..|s| - 1])
      case BadDigit => BadDigit
      case Number(high) =>
        match HexDigitToUint(s[|s| - 1])
        case BadDigit => BadDigit
        case Number(low) => Number((16 * high + low) % SIZE_MODULUS)
  }

  /** A character is a digit of a value exactly if it is that digit in capital or in small letters. */
  lemma HexDigitIsExact(c: char, n: nat)
    requires n < 16
    ensures HexDigitToUint(c) == Number(n) <==> c == HexDigit(n) || c == SmallHexDigit(n)
  {
  }

  /** The first bad digit makes the whole string bad. */
  lemma {:induction false} HexValueBad(s: string, i: nat)
    requires i < |s| && HexDigitToUint(s[i]) == BadDigit
    ensures HexValue(s) == BadDigit
  {
    if i < |s| - 1 {
      HexValueBad(s[..|s| - 1], i);
    }
  }

  /** `hexStringToUint`. */
  method HexStringToUint(s: string) returns (r: Value)
    ensures r == HexValue(s)
  {
    var result: nat := 0;
    for i := 0 to |s|
      invariant HexValue(s[..i]) == Number(result)
    {
      assert s[..i + 1][..i] == s[..i];
      match HexDigitToUint(s[i]) {
        case BadDigit =>
          HexValueBad(s, i);
          return BadDigit;
        case Number(low) =>
          result := (16 * result + low) % SIZE_MODULUS;
      }
    }
    assert s[..|s|] == s;
    r := Number(result);
  }

  /** `std::search` for CRLF: the place of the first one, or the length. */
  function FindCrlf(s: string): (i: nat)
    ensures i == |s| || i + 2 <= |s|
  {
    if |s| < 2 then |s|
    else if s[..2] == CRLF then 0
    else 1 + FindCrlf(s[1..])
  }

  lemma {:induction false} FindCrlfMore(s: string, more: string)
    ensures FindCrlf(s) < |s| ==> FindCrlf(s + more) == FindCrlf(s)
  {
    if |s| >= 2 {
      assert (s + more)[..2] == s[..2];
      if s[..2] != CRLF {
        FindCrlfMore(s[1..], more);
        assert (s + more)[1..] == s[1..] + more;
      }
    }
  }

  /** What the loop keeps between two reads. */
  datatype Reading = Reading(data: string, body: string, expected: nat, removeCrlf: bool)

  datatype Outcome =
    | More(st: Reading)                   // wait for the next read
    | Complete(body: string, rest: string)
    | Throws(what: string)

  function Append(st: Reading, more: string): Reading {
    st.(data := st.data + more)
  }

  function AppendTo(o: Outcome, more: string): Outcome {
    match o
    case More(st) => Drain(Append(st, more))
    case Complete(body, rest) => Complete(body, rest + more)
    case Throws(_) => o
  }

  /** Moves chunk data to the body. */
  function TakeData(st: Reading): Reading {
    var n := if st.expected < |st.data| then st.expected else |st.data|;
    Reading(st.data[n..], st.body + st.data[..n], st.expected - n, st.expected == n || st.removeCrlf)
  }

  /** The inner loop as a function of the bytes at hand. */
  function Drain(st: Reading): Outcome
    decreases |st.data|, 1
  {
    if st.expected > 0 then
      var next := TakeData(st);
      if next.data == "" then More(next) else Drain(next)
    else if st.removeCrlf then
      if |st.data| < 2 then More(st)
      else if st.data[..2] != CRLF then Throws("Invalid chunk")
      else SizeLine(st.(data := st.data[2..], removeCrlf := false))
    else SizeLine(st)
  }

  function SizeLine(st: Reading): Outcome
    decreases |st.data|, 0
  {
    var i := FindCrlf(st.data);
    if i == |st.data| then More(st)
    else
      match HexValue(st.data[..i])
      case BadDigit => Throws("Invalid hex digit")
      case Number(n) =>
        var rest := st.data[i + 2..];
        if n == 0 then Complete(st.body, rest) else Drain(st.(data := rest, expected := n))
  }

  /** Bytes after a complete size line do not change how it is read. */
  lemma {:induction false} SizeLineMore(st: Reading, more: string)
    requires FindCrlf(st.data) < |st.data|
    ensures SizeLine(Append(st, more)) == AppendTo(SizeLine(st), more)
    decreases |st.data|, 0
  {
    var i := FindCrlf(st.data);
    FindCrlfMore(st.data, more);
    var rest := st.data[i + 2..];
    assert (st.data + more)[..i] == st.data[..i];
    assert (st.data + more)[i + 2..] == rest + more;
    var v := HexValue(st.data[..i]);
    if v.Number? && v.n != 0 {
      DrainMore(st.(data := rest, expected := v.n), more);
    }
  }

  /** The result of one read followed by another is the result of one read of both: bytes that arrive later
      never change what was decided, and where more were needed they are all that was missing. */
  lemma {:induction false} DrainMore(st: Reading, more: string)
    ensures Drain(Append(st, more)) == AppendTo(Drain(st), more)
    decreases |st.data|, 1
  {
    if st.expected > 0 {
      ChunkDataMore(st, more);
    } else if st.removeCrlf {
      if |st.data| >= 2 {
        assert (st.data + more)[..2] == st.data[..2];
        var next := st.(data := st.data[2..], removeCrlf := false);
        assert (st.data + more)[2..] == next.data + more;
        if st.data[..2] == CRLF && FindCrlf(next.data) < |next.data| {
          SizeLineMore(next, more);
        }
      }
    } else if FindCrlf(st.data) < |st.data| {
      SizeLineMore(st, more);
    }
  }

  lemma {:induction false} ChunkDataMore(st: Reading, more: string)
    requires st.expected > 0
    ensures Drain(Append(st, more)) == AppendTo(Drain(st), more)
    decreases |st.data|, 0
  {
    var n := st.expected;
    if n < |st.data| {
      assert (st.data + more)[n..] == st.data[n..] + more;
      assert (st.data + more)[..n] == st.data[..n];
      DrainMore(Reading(st.data[n..], st.body + st.data[..n], 0, true), more);
    } else if n == |st.data| {
      AfterData(st, more);
    } else {
      InsideData(st, more);
    }
  }

  lemma TakeTwice(st: Reading, more: string)
    requires |st.data| < st.expected
    ensures TakeData(Append(st, more)) == TakeData(Append(TakeData(st), more))
  {
    var all := st.data + more;
    var k, left := |st.data|, st.expected - |st.data|;
    var n := if left < |more| then left else |more|;
    assert st.data[..k] == st.data && st.data[k..] + more == more;
    assert all[k + n..] == more[n..] && all[..k + n] == st.data + more[..n];
    Assoc(st.body, st.data, more[..n]);
  }

  /** The bytes at hand end inside the chunk data. */
  lemma InsideData(st: Reading, more: string)
    requires |st.data| < st.expected
    ensures Drain(Append(st, more)) == AppendTo(Drain(st), more)
  {
    assert Drain(st) == More(TakeData(st));
    TakeTwice(st, more);
  }

  /** The bytes at hand end right after the chunk data. */
  lemma AfterData(st: Reading, more: string)
    requires |st.data| == st.expected > 0
    ensures Drain(Append(st, more)) == AppendTo(Drain(st), more)
  {
    var all := st.data + more;
    var k := |st.data|;
    var next := Reading("", st.body + st.data, 0, true);
    assert st.data[..k] == st.data;
    assert Drain(st) == More(next);
    assert all[k..] == more && all[..k] == st.data;
    assert Append(next, more) == next.(data := more) by { assert "" + more == more; }
  }

  // ---------- decoding what the builder wrote ----------

  lemma {:induction false} HexRead(n: nat)
    requires n < SIZE_MODULUS
    ensures HexValue(Hex(n)) == Number(n)
  {
    if n < 16 {
      assert Hex(n)[..0] == "";
    } else {
      HexRead(n / 16);
      assert Hex(n)[..|Hex(n)| - 1] == Hex(n / 16);
    }
  }

  lemma {:induction false} HexHasNoCr(n: nat)
    ensures HttpBytes.CR !in Hex(n)
  {
    if n >= 16 {
      HexHasNoCr(n / 16);
    }
  }

  lemma {:induction false} FindAfter(s: string, rest: string)
    requires HttpBytes.CR !in s
    ensures FindCrlf(s + CRLF + rest) == |s|
  {
    var all := s + CRLF + rest;
    if s == "" {
      assert all[..2] == CRLF;
    } else {
      assert all[0] == s[0];
      assert all[1..] == s[1..] + CRLF + rest;
      FindAfter(s[1..], rest);
    }
  }

  lemma {:induction false} ReadsSizeLine(n: nat, rest: string, body: string)
    requires n < SIZE_MODULUS
    ensures SizeLine(Reading(Hex(n) + CRLF + rest, body, 0, false)) ==
            if n == 0 then Complete(body, rest) else Drain(Reading(rest, body, n, false))
  {
    var all := Hex(n) + CRLF + rest;
    HexHasNoCr(n);
    FindAfter(Hex(n), rest);
    HexRead(n);
    assert all[..|Hex(n)|] == Hex(n);
    assert all[|Hex(n)| + 2..] == rest;
  }

  lemma {:induction false} ReadsChunk(chunk: string, rest: string, body: string)
    requires 0 < |chunk| < SIZE_MODULUS
    ensures Drain(Reading(EncodeChunk(chunk) + rest, body, 0, false)) == Drain(Reading(rest, body + chunk, 0, false))
  {
    var afterSize := chunk + CRLF + rest;
    assert EncodeChunk(chunk) + rest == Hex(|chunk|) + CRLF + afterSize;
    ReadsSizeLine(|chunk|, afterSize, body);
    var n := |chunk|;
    assert afterSize[..n] == chunk && afterSize[n..] == CRLF + rest;
    var next := Reading(CRLF + rest, body + chunk, 0, true);
    assert Drain(Reading(afterSize, body, n, false)) == Drain(next);
    assert next.data[..2] == CRLF && next.data[2..] == rest;
  }

  lemma RegroupTail(a: string, b: string, c: string, d: string)
    ensures (a + b) + c + d == a + (b + c + d)
  {
  }

  /** The client takes what the builder wrote back apart: it returns exactly the appended data, right after
      the last chunk's size line, and never looks at the empty trailer section. */
  lemma {:induction false} ClientReadsChunks(chunks: seq<string>, body: string, tail: string)
    requires forall chunk :: chunk in chunks ==> 0 < |chunk| < SIZE_MODULUS
    ensures Drain(Reading(Encode(chunks) + LAST_CHUNK + tail, body, 0, false)) ==
            Complete(body + Flatten(chunks), CRLF + tail)
    decreases |chunks|
  {
    if chunks == [] {
      assert Encode(chunks) + LAST_CHUNK + tail == Hex(0) + CRLF + (CRLF + tail);
      ReadsSizeLine(0, CRLF + tail, body);
      assert body + "" == body;
    } else {
      var first, rest := chunks[0], chunks[1..];
      assert chunks == [first] + rest;
      EncodeCons(first, rest);
      FlattenCons(first, rest);
      RegroupTail(EncodeChunk(first), Encode(rest), LAST_CHUNK, tail);
      ReadsChunk(first, Encode(rest) + LAST_CHUNK + tail, body);
      ClientReadsChunks(rest, body + first, tail);
      Assoc(body, first, Flatten(rest));
    }
  }

  // ---------- exactly the chunked texts ----------

  /** A chunk as anyone may write it: the text of its size, and its data. */
  datatype Piece = Piece(size: string, data: string)

  /** No line end begins in the text, not even with its last byte. */
  predicate OneLine(size: string) {
    FindCrlf(size + CRLF) == |size|
  }

  predicate IsPiece(p: Piece) {
    OneLine(p.size) && p.data != "" && HexValue(p.size) == Number(|p.data|)
  }

  function Wire(pieces: seq<Piece>): string {
    if pieces == [] then ""
    else (pieces[0].size + CRLF) + ((pieces[0].data + CRLF) + Wire(pieces[1..]))
  }

  function DataOf(pieces: seq<Piece>): string {
    if pieces == [] then "" else pieces[0].data + DataOf(pieces[1..])
  }

  predicate AllPieces(pieces: seq<Piece>) {
    forall i :: 0 <= i < |pieces| ==> IsPiece(pieces[i])
  }

  /** The text of a size that ends a body. */
  predicate IsLast(size: string) {
    OneLine(size) && HexValue(size) == Number(0)
  }

  lemma {:induction false} LineCut(size: string, rest: string)
    requires OneLine(size)
    ensures var t := (size + CRLF) + rest; FindCrlf(t) == |size| < |t| && t[..|size|] == size && t[|size| + 2..] == rest
  {
    FindCrlfMore(size + CRLF, rest);
  }

  /** The first line end of a text cuts off one line. */
  lemma {:induction false} CrlfCuts(t: string)
    requires FindCrlf(t) < |t|
    ensures var i := FindCrlf(t); OneLine(t[..i]) && t == (t[..i] + CRLF) + t[i + 2..]
    decreases |t|
  {
    var i := FindCrlf(t);
    if i > 0 {
      CrlfCuts(t[1..]);
      assert t[..i] == [t[0]] + t[1..][..i - 1];
      assert t[1..][i + 1..] == t[i + 2..];
      var line := t[..i] + CRLF;
      assert line[1..] == t[1..][..i - 1] + CRLF;
      assert line[..2] == t[..2];
    } else {
      assert t[..0] == "" && "" + CRLF == CRLF;
    }
  }

  lemma {:induction false} LastIsRead(size: string, rest: string, body: string)
    requires IsLast(size)
    ensures Drain(Reading((size + CRLF) + rest, body, 0, false)) == Complete(body, rest)
  {
    LineCut(size, rest);
  }

  lemma {:induction false} PieceIsRead(p: Piece, rest: string, body: string)
    requires IsPiece(p)
    ensures Drain(Reading((p.size + CRLF) + ((p.data + CRLF) + rest), body, 0, false)) ==
            Drain(Reading(rest, body + p.data, 0, false))
  {
    var after := (p.data + CRLF) + rest;
    LineCut(p.size, after);
    DataIsRead(p.data, rest, body);
  }

  lemma {:induction false} DataIsRead(data: string, rest: string, body: string)
    requires data != ""
    ensures Drain(Reading((data + CRLF) + rest, body, |data|, false)) == Drain(Reading(rest, body + data, 0, false))
  {
    var after, n := (data + CRLF) + rest, |data|;
    assert after[..n] == data && after[n..] == CRLF + rest;
    var st := Reading(CRLF + rest, body + data, 0, true);
    assert Drain(Reading(after, body, n, false)) == Drain(st);
    assert st.data[..2] == CRLF && st.data[2..] == rest;
  }

  /** Whatever chunks are written, in any spelling of their sizes, are taken apart again. */
  lemma {:induction false} PiecesAreRead(pieces: seq<Piece>, last: string, rest: string, body: string)
    requires AllPieces(pieces) && IsLast(last)
    ensures Drain(Reading(Wire(pieces) + ((last + CRLF) + rest), body, 0, false)) ==
            Complete(body + DataOf(pieces), rest)
    decreases |pieces|
  {
    var end := (last + CRLF) + rest;
    if pieces == [] {
      assert "" + end == end && body + "" == body;
      LastIsRead(last, rest, body);
    } else {
      var p, more := pieces[0], Wire(pieces[1..]);
      assert IsPiece(p);
      assert Wire(pieces) + end == (p.size + CRLF) + ((p.data + CRLF) + (more + end));
      PieceIsRead(p, more + end, body);
      PiecesAreRead(pieces[1..], last, rest, body + p.data);
      Assoc(body, p.data, DataOf(pieces[1..]));
    }
  }

  /** The first line of a text decides what follows. */
  lemma {:induction false} FirstLine(t: string, body: string) returns (size: string, after: string)
    requires Drain(Reading(t, body, 0, false)).Complete?
    ensures OneLine(size) && HexValue(size).Number? && t == (size + CRLF) + after
    ensures var n := HexValue(size).n;
            Drain(Reading(t, body, 0, false)) ==
            if n == 0 then Complete(body, after) else Drain(Reading(after, body, n, false))
  {
    var i := FindCrlf(t);
    size, after := t[..i], t[i + 2..];
    CrlfCuts(t);
  }

  lemma {:induction false} FirstPiece(size: string, after: string, body: string) returns (p: Piece, rest: string)
    requires OneLine(size) && HexValue(size).Number? && HexValue(size).n > 0
    requires Drain(Reading(after, body, HexValue(size).n, false)).Complete?
    ensures IsPiece(p) && p.size == size && after == (p.data + CRLF) + rest
    ensures Drain(Reading(after, body, HexValue(size).n, false)) == Drain(Reading(rest, body + p.data, 0, false))
  {
    var n := HexValue(size).n;
    DataStands(after, body, n);
    p, rest := Piece(size, after[..n]), after[n + 2..];
    assert after == (p.data + CRLF) + rest;
    DataIsRead(p.data, rest, body);
  }

  /** Whatever is taken for a complete body is made of chunks: their data is the body, and the zero after them is where
      the reader stops. */
  lemma {:induction false} CompleteHasPieces(t: string, body: string) returns (pieces: seq<Piece>, last: string)
    requires Drain(Reading(t, body, 0, false)).Complete?
    ensures AllPieces(pieces) && IsLast(last)
    ensures var o := Drain(Reading(t, body, 0, false));
            t == Wire(pieces) + ((last + CRLF) + o.rest) && o.body == body + DataOf(pieces)
    decreases |t|
  {
    var size, after := FirstLine(t, body);
    if HexValue(size).n == 0 {
      pieces, last := [], size;
      assert "" + t == t && body + "" == body;
    } else {
      var p, rest := FirstPiece(size, after, body);
      assert |rest| < |t|;
      var more;
      more, last := CompleteHasPieces(rest, body + p.data);
      pieces := [p] + more;
      PiecesJoin(p, more, t, last, Drain(Reading(rest, body + p.data, 0, false)).rest, body);
    }
  }

  lemma PiecesJoin(p: Piece, more: seq<Piece>, t: string, last: string, rest: string, body: string)
    requires t == (p.size + CRLF) + ((p.data + CRLF) + (Wire(more) + ((last + CRLF) + rest)))
    ensures t == Wire([p] + more) + ((last + CRLF) + rest)
    ensures (body + p.data) + DataOf(more) == body + DataOf([p] + more)
  {
    assert ([p] + more)[1..] == more;
  }

  /** A body that is completed has all the data that a size has announced, and CR LF behind it. */
  lemma {:induction false} DataStands(after: string, body: string, n: nat)
    requires n > 0 && Drain(Reading(after, body, n, false)).Complete?
    ensures |after| >= n + 2 && after[n..n + 2] == CRLF
  {
    var st := Reading(after, body, n, false);
    var next := TakeData(st);
    assert Drain(st) == if next.data == "" then More(next) else Drain(next);
    assert |after| > n;
    assert next == Reading(after[n..], body + after[..n], 0, true);
    assert after[n..][..2] == after[n..n + 2];
  }

  // ---------- the loop itself ----------

  datatype Verdict = Wait | Return | Throw(what: string)

  class Response {
    var responseData: string
    var body: string
    var expectedChunkSize: nat
    var removeCrlfAfterChunk: bool

    ghost function Now(): Reading
      reads this
    {
      Reading(responseData, body, expectedChunkSize, removeCrlfAfterChunk)
    }

    /** The verdict and the fields are what `o` says. */
    ghost predicate Shows(v: Verdict, o: Outcome)
      reads this
    {
      match o
      case More(st) => v == Wait && Now() == st
      case Complete(b, rest) => v == Return && body == b && responseData == rest
      case Throws(what) => v == Throw(what)
    }

    /** Right after the header section. */
    constructor ()
      ensures Now() == Reading("", "", 0, false) && Drain(Now()) == More(Now())
    {
      responseData, body, expectedChunkSize, removeCrlfAfterChunk := "", "", 0, false;
    }

    method ReadChunks() returns (v: Verdict)
      modifies this
      ensures Shows(v, Drain(old(Now())))
    {
      ghost var start := Now();
      while true
        invariant Drain(Now()) == Drain(start)
        decreases |responseData| + 2, expectedChunkSize
      {
        if expectedChunkSize > 0 {
          var toWrite := if expectedChunkSize < |responseData| then expectedChunkSize else |responseData|;
          body := body + responseData[..toWrite];
          responseData := responseData[toWrite..];
          expectedChunkSize := expectedChunkSize - toWrite;
          if expectedChunkSize == 0 {
            removeCrlfAfterChunk := true;
          }
          if responseData == "" {
            return Wait;
          }
        } else {
          if removeCrlfAfterChunk {
            if |responseData| < 2 {
              return Wait;
            }
            if responseData[..2] != CRLF {
              return Throw("Invalid chunk");
            }
            removeCrlfAfterChunk := false;
            responseData := responseData[2..];
          }
          var i := FindCrlf(responseData);
          if i == |responseData| {
            return Wait;
          }
          var size := HexStringToUint(responseData[..i]);
          if size.BadDigit? {
            return Throw("Invalid hex digit");
          }
          expectedChunkSize := size.n;
          responseData := responseData[i + 2..];
          if expectedChunkSize == 0 {
            return Return;
          }
        }
      }
    }

    /** One `recv` after the other, until the response is complete or the peer closes. However the bytes are
        cut into reads, the verdict, the body and the bytes it took are those of the whole. */
    method Receive(pieces: seq<string>) returns (v: Verdict, used: nat)
      requires Drain(Now()) == More(Now())
      modifies this
      ensures used <= |pieces|
      ensures v == Wait ==> Drain(Now()) == More(Now())
      ensures var whole := Drain(Append(old(Now()), Flatten(pieces)));
              match v
              case Wait => whole == More(Now())
              case Return => whole == Complete(body, responseData + Flatten(pieces[used..]))
              case Throw(what) => whole == Throws(what)
    {
      ghost var start := Now();
      used := 0;
      AppendNothing(start);
      while used < |pieces|
        invariant used <= |pieces|
        invariant Drain(Append(start, Flatten(pieces[..used]))) == More(Now())
      {
        var piece := pieces[used];
        ghost var before := Flatten(pieces[..used]);
        ghost var now := Now();
        assert pieces[..used + 1] == pieces[..used] + [piece];
        FlattenSnoc(pieces[..used], piece);
        AppendTwice(start, before, piece);
        DrainMore(Append(start, before), piece);
        responseData := responseData + piece;
        used := used + 1;
        assert Now() == Append(now, piece);
        v := ReadChunks();
        assert Shows(v, Drain(Append(start, Flatten(pieces[..used]))));
        if v != Wait {
          ghost var unread := Flatten(pieces[used..]);
          assert pieces == pieces[..used] + pieces[used..];
          FlattenConcat(pieces[..used], pieces[used..]);
          AppendTwice(start, Flatten(pieces[..used]), unread);
          DrainMore(Append(start, Flatten(pieces[..used])), unread);
          return;
        }
      }
      assert pieces[..used] == pieces;
      DrainIdle(Append(start, Flatten(pieces)));
      v := Wait;
    }
  }

  /** A drained reading has nothing left to do. */
  lemma DrainIdle(st: Reading)
    ensures Drain(st).More? ==> Drain(Drain(st).st) == Drain(st)
  {
    AppendNothing(st);
    DrainMore(st, "");
    if Drain(st).More? {
      AppendNothing(Drain(st).st);
    }
  }

  lemma AppendNothing(st: Reading)
    ensures Append(st, Flatten([])) == st
  {
    assert st.data + "" == st.data;
  }

  lemma AppendTwice(st: Reading, a: string, b: string)
    ensures Append(st, a + b) == Append(Append(st, a), b)
  {
    Assoc(st.data, a, b);
  }
}
