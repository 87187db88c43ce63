/** The chunk states of http_parser.c read back what restinio's chunked builder writes. */
module ChunkedParse {
  import opened Sequences
  import opened HttpBytes
  import opened HttpParserTypes
  import opened HttpParserArms
  import opened HttpParserRun
  import opened HttpParserInvariant
  import opened HttpParserReach
  import opened HttpParserStretch
  import opened ChunkedCoding

  /** The sizes that pass the parser's conservative overflow check: all below 2^64 - 16. */
  predicate SizeFits(n: nat) {
    n / 16 <= (ULLONG_MAX - 16) / 16
  }

  /** The parser waits for a chunk size and has counted nothing since the last chunk. */
  predicate AtChunkStart(c: Conf) {
    Inv(c) && c.p.state.ChunkSizeStart?
  }

  /** A size line that fits the header limit, which it counts against. */
  predicate LineFits(s: Settings, n: nat) {
    SizeFits(n) && |Hex(n)| + 2 <= s.limit
  }

  predicate AllFit(s: Settings, chunks: seq<string>) {
    forall chunk :: chunk in chunks ==> chunk != "" && LineFits(s, |chunk|)
  }

  lemma RunTwo(s: Settings, c: Conf, a: char, b: char, d: Conf, e: Conf)
    requires Step(s, c, a) == Consumed(d) && Step(s, d, b) == Consumed(e)
    ensures RunOf(s, c, [a, b]) == Ran(e)
  {
    assert "" + [a] == [a];
    RunThenByte(s, c, "", a, c, d) by { assert RunOf(s, c, "") == Ran(c); }
    RunThenByte(s, c, [a], b, d, e);
    assert [a] + [b] == [a, b];
  }

  function SizeConf(c: Conf, n: nat, nread: nat): Conf {
    Conf(c.p.(contentLength := n, state := ChunkSize), nread, c.log)
  }

  lemma DigitRead(d: nat)
    requires d < 16
    ensures Unhex(HexDigit(d)) == d && HexDigit(d) != CR
  {
  }

  /** For the parser as well, except that it takes every byte from 0x80 on for a zero. */
  lemma UnhexIsExact(c: char, n: nat)
    requires n < 16
    ensures Unhex(c) == n <==> c == HexDigit(n) || c == SmallHexDigit(n) || (n == 0 && c as int >= 0x80)
  {
  }

  lemma FirstDigit(s: Settings, c: Conf, d: nat)
    requires AtChunkStart(c) && d < 16 && s.limit > 0
    ensures Step(s, c, HexDigit(d)) == Consumed(SizeConf(c, d, 1))
  {
    DigitRead(d);
  }

  lemma NextDigit(s: Settings, c: Conf, d: nat)
    requires Good(c.p) && c.p.state.ChunkSize? && c.nread < s.limit && d < 16
    requires SizeFits(c.p.contentLength * 16 + d)
    ensures Step(s, c, HexDigit(d)) == Consumed(SizeConf(c, c.p.contentLength * 16 + d, c.nread + 1))
  {
    DigitRead(d);
  }

  lemma {:induction false} SizeRun(s: Settings, c: Conf, n: nat)
    requires AtChunkStart(c) && SizeFits(n) && |Hex(n)| <= s.limit
    ensures RunOf(s, c, Hex(n)) == Ran(SizeConf(c, n, |Hex(n)|))
    decreases n
  {
    if n < 16 {
      FirstDigit(s, c, n);
      RunThenByte(s, c, "", HexDigit(n), c, SizeConf(c, n, 1)) by { assert RunOf(s, c, "") == Ran(c); }
      assert Hex(n) == "" + [HexDigit(n)];
    } else {
      SizeRun(s, c, n / 16);
      var d := SizeConf(c, n / 16, |Hex(n / 16)|);
      NextDigit(s, d, n % 16);
      RunThenByte(s, c, Hex(n / 16), HexDigit(n % 16), d, SizeConf(c, n, |Hex(n)|));
    }
  }

  lemma SizeCr(s: Settings, c: Conf)
    requires Good(c.p) && c.p.state.ChunkSize? && c.nread + 1 <= s.limit
    ensures Step(s, c, CR) == Consumed(Conf(c.p.(state := ChunkSizeAlmostDone), c.nread + 1, c.log))
  {
  }

  lemma SizeLf(s: Settings, c: Conf)
    requires Good(c.p) && c.p.state.ChunkSizeAlmostDone? && c.nread + 1 <= s.limit
    ensures Step(s, c, LF) ==
            Consumed(Conf(if c.p.contentLength == 0
                          then c.p.(flags := c.p.flags.(trailing := true), state := HeaderFieldStart)
                          else c.p.(state := ChunkData),
                          0, c.log + [ChunkHeader(c.p.contentLength)]))
  {
  }

  lemma DataCr(s: Settings, c: Conf)
    requires Good(c.p) && c.p.state.ChunkDataAlmostDone?
    ensures Step(s, c, CR) == Consumed(Conf(c.p.(state := ChunkDataDone), c.nread, c.log))
  {
  }

  lemma DataLf(s: Settings, c: Conf)
    requires Good(c.p) && c.p.state.ChunkDataDone?
    ensures Step(s, c, LF) == Consumed(Conf(c.p.(state := ChunkSizeStart), 0, c.log + [ChunkComplete]))
  {
  }

  lemma TrailerCr(s: Settings, c: Conf)
    requires c.p.state.HeaderFieldStart? && c.nread + 1 <= s.limit
    ensures Step(s, c, CR) == Consumed(Conf(c.p.(state := HeadersAlmostDone), c.nread + 1, c.log))
  {
  }

  lemma MessageDoneChain(s: Settings, c: Conf, ch: char)
    requires c.p.state.MessageDone? && !c.p.upgrade
    ensures Chain(s, c, ch) == Consumed(Conf(c.p.(state := NewMessage(c.p)), c.nread, c.log + [MessageComplete]))
  {
  }

  lemma TrailerLf(s: Settings, c: Conf)
    requires c.p.state.HeadersAlmostDone? && c.p.flags.trailing && c.nread + 1 <= s.limit && !c.p.upgrade
    ensures Step(s, c, LF) ==
            Consumed(Conf(c.p.(state := NewMessage(c.p)), c.nread + 1, c.log + [ChunkComplete, MessageComplete]))
  {
    var done := Conf(c.p.(state := MessageDone), c.nread + 1, c.log + [ChunkComplete]);
    var e := Conf(c.p.(state := NewMessage(c.p)), c.nread + 1, c.log + [ChunkComplete, MessageComplete]);
    assert ArmOf(s, Counted(c), LF) == Repeats(done);
    assert Chain(s, done, LF) == Consumed(e) by {
      MessageDoneChain(s, done, LF);
      assert done.log + [MessageComplete] == e.log;
    }
  }

  // ---------- size lines as others may write them ----------

  /** Hexadecimal digits for the parser, in capital or small letters and with any leading zeros. */
  predicate AllHexDigits(t: string) {
    forall i :: 0 <= i < |t| ==> Unhex(t[i]) >= 0
  }

  function HexNumber(t: string): nat
    requires AllHexDigits(t)
  {
    if t == "" then 0 else HexNumber(t[..|t| - 1]) * 16 + Unhex(t[|t| - 1])
  }

  lemma AnyFirstDigit(s: Settings, c: Conf, ch: char)
    requires AtChunkStart(c) && Unhex(ch) >= 0 && s.limit > 0
    ensures Step(s, c, ch) == Consumed(SizeConf(c, Unhex(ch), 1))
  {
  }

  lemma AnyNextDigit(s: Settings, c: Conf, ch: char)
    requires Good(c.p) && c.p.state.ChunkSize? && c.nread < s.limit && Unhex(ch) >= 0
    ensures Step(s, c, ch) ==
            if SizeFits(c.p.contentLength * 16 + Unhex(ch))
            then Consumed(SizeConf(c, c.p.contentLength * 16 + Unhex(ch), c.nread + 1))
            else Failed(InvalidContentLength, c.log)
  {
    assert (c.p.contentLength * 16 + Unhex(ch)) / 16 == c.p.contentLength;
    HexIsNoCr(ch);
  }

  lemma HexIsNoCr(ch: char)
    ensures Unhex(ch) >= 0 ==> ch != CR
  {
  }

  /** Any digits are read as the number they denote, if it passes the check, and refused otherwise. */
  lemma {:induction false} AnySizeRun(s: Settings, c: Conf, t: string)
    requires AtChunkStart(c) && t != "" && AllHexDigits(t) && |t| <= s.limit
    ensures if SizeFits(HexNumber(t)) then RunOf(s, c, t) == Ran(SizeConf(c, HexNumber(t), |t|))
            else RunOf(s, c, t).RanFailed? && RunOf(s, c, t).errno == InvalidContentLength
    decreases |t|
  {
    var front, ch := t[..|t| - 1], t[|t| - 1];
    assert t == front + [ch];
    RunSnoc(s, c, front, ch);
    if front == "" {
      assert HexNumber(front) == 0;
      AnyFirstDigit(s, c, ch);
    } else {
      AnySizeRun(s, c, front);
      assert HexNumber(t) == HexNumber(front) * 16 + Unhex(ch) &&
             (SizeFits(HexNumber(t)) ==> SizeFits(HexNumber(front))) by { FitsBefore(front, t); }
      if SizeFits(HexNumber(front)) {
        var d := SizeConf(c, HexNumber(front), |front|);
        assert Good(d.p) by { RunInv(s, c, front); }
        AnyNextDigit(s, d, ch);
      }
    }
  }

  lemma FitsBefore(front: string, t: string)
    requires t != "" && AllHexDigits(t) && front == t[..|t| - 1]
    ensures AllHexDigits(front) && HexNumber(t) == HexNumber(front) * 16 + Unhex(t[|t| - 1])
    ensures SizeFits(HexNumber(t)) ==> SizeFits(HexNumber(front))
  {
  }

  /** What may stand between a size and the end of its line. */
  predicate IsExtension(ext: string) {
    ext != "" ==> (ext[0] == ';' || ext[0] == ' ') && forall i :: 0 <= i < |ext| ==> ext[i] != CR
  }

  function InParameters(c: Conf, n: nat): Conf {
    Conf(c.p.(state := ChunkParameters), c.nread + n, c.log)
  }

  lemma ExtensionBegins(s: Settings, c: Conf, ch: char)
    requires Good(c.p) && c.p.state.ChunkSize? && c.nread < s.limit && (ch == ';' || ch == ' ')
    ensures Step(s, c, ch) == Consumed(InParameters(c, 1))
  {
  }

  lemma ExtensionByte(s: Settings, c: Conf, ch: char)
    requires Good(c.p) && c.p.state.ChunkParameters? && c.nread < s.limit
    ensures Step(s, c, ch) ==
            Consumed(if ch == CR then Conf(c.p.(state := ChunkSizeAlmostDone), c.nread + 1, c.log)
                     else c.(nread := c.nread + 1))
  {
  }

  lemma {:induction false} ExtensionRun(s: Settings, c: Conf, ext: string)
    requires Good(c.p) && c.p.state.ChunkParameters? && c.nread + |ext| <= s.limit
    requires forall i :: 0 <= i < |ext| ==> ext[i] != CR
    ensures RunOf(s, c, ext) == Ran(c.(nread := c.nread + |ext|))
    decreases |ext|
  {
    if ext != "" {
      ExtensionByte(s, c, ext[0]);
      ExtensionRun(s, c.(nread := c.nread + 1), ext[1..]);
    }
  }

  lemma {:induction false} ExtendedEnd(s: Settings, c: Conf, ext: string)
    requires Good(c.p) && c.p.state.ChunkSize? && ext != "" && IsExtension(ext) && c.nread + |ext| + 2 <= s.limit
    ensures RunOf(s, c, ext + CRLF) == Ran(AfterSizeLine(c, c.p.contentLength))
  {
    var d, e := InParameters(c, 1), InParameters(c, |ext|);
    ExtensionBegins(s, c, ext[0]);
    ExtensionRun(s, d, ext[1..]);
    assert [ext[0]] + ext[1..] == ext;
    RunFirstByte(s, c, ext[0], ext[1..], d, e);
    var f := Conf(e.p.(state := ChunkSizeAlmostDone), e.nread + 1, e.log);
    ExtensionByte(s, e, CR);
    SizeLf(s, f);
    RunTwo(s, e, CR, LF, f, AfterSizeLine(c, c.p.contentLength));
    RunThenRun(s, c, ext, CRLF, e, AfterSizeLine(c, c.p.contentLength));
  }

  /** A size line in any spelling, with or without an extension, announces the number that its digits denote. */
  lemma {:induction false} AnySizeLineRun(s: Settings, c: Conf, t: string, ext: string)
    requires AtChunkStart(c) && t != "" && AllHexDigits(t) && SizeFits(HexNumber(t)) && IsExtension(ext)
    requires |t| + |ext| + 2 <= s.limit
    ensures RunOf(s, c, t + (ext + CRLF)) == Ran(AfterSizeLine(c, HexNumber(t)))
  {
    var n := HexNumber(t);
    var d := SizeConf(c, n, |t|);
    AnySizeRun(s, c, t);
    RunInv(s, c, t);
    if ext == "" {
      var e := Conf(d.p.(state := ChunkSizeAlmostDone), d.nread + 1, d.log);
      SizeCr(s, d);
      SizeLf(s, e);
      RunTwo(s, d, CR, LF, e, AfterSizeLine(c, n));
      assert ext + CRLF == CRLF;
    } else {
      ExtendedEnd(s, d, ext);
    }
    RunThenRun(s, c, t, ext + CRLF, d, AfterSizeLine(c, n));
  }

  function AfterSizeLine(c: Conf, n: nat): Conf {
    Conf(if n == 0 then c.p.(contentLength := 0, flags := c.p.flags.(trailing := true), state := HeaderFieldStart)
         else c.p.(contentLength := n, state := ChunkData),
         0, c.log + [ChunkHeader(n)])
  }

  /** The callbacks for one chunk. */
  function ChunkEvents(chunk: string): seq<Event> {
    [ChunkHeader(|chunk|), Data(Body, chunk), ChunkComplete]
  }

  lemma {:induction false} SizeLineRun(s: Settings, c: Conf, n: nat)
    requires AtChunkStart(c) && LineFits(s, n)
    ensures RunOf(s, c, Hex(n) + CRLF) == Ran(AfterSizeLine(c, n))
  {
    var d := SizeConf(c, n, |Hex(n)|);
    assert RunOf(s, c, Hex(n)) == Ran(d) by { SizeRun(s, c, n); }
    assert RunOf(s, d, CRLF) == Ran(AfterSizeLine(c, n)) by {
      RunInv(s, c, Hex(n));
      LineEndRun(s, c, n);
    }
    RunThenRun(s, c, Hex(n), CRLF, d, AfterSizeLine(c, n));
  }

  lemma {:induction false} LineEndRun(s: Settings, c: Conf, n: nat)
    requires LineFits(s, n) && Inv(SizeConf(c, n, |Hex(n)|))
    ensures RunOf(s, SizeConf(c, n, |Hex(n)|), CRLF) == Ran(AfterSizeLine(c, n))
  {
    var d := SizeConf(c, n, |Hex(n)|);
    var e := Conf(d.p.(state := ChunkSizeAlmostDone), d.nread + 1, d.log);
    SizeCr(s, d);
    SizeLf(s, e);
    RunTwo(s, d, CR, LF, e, AfterSizeLine(c, n));
  }

  /** A size line is read if and only if it fits the header limit. */
  lemma {:induction false} SizeLineIsExact(s: Settings, c: Conf, n: nat)
    requires AtChunkStart(c) && SizeFits(n)
    ensures if LineFits(s, n) then RunOf(s, c, Hex(n) + CRLF) == Ran(AfterSizeLine(c, n))
            else Overflows(RunOf(s, c, Hex(n) + CRLF))
  {
    if LineFits(s, n) {
      SizeLineRun(s, c, n);
    } else {
      var w, line := s.(limit := |Hex(n)| + 2), Hex(n) + [CR];
      SizeAndCr(w, c, n);
      RunSnoc(s, c, line, LF);
      assert Hex(n) + CRLF == line + [LF];
      if !Overflows(RunOf(s, c, line)) {
        RunWider(w, s, c, line);
      }
    }
  }

  lemma {:induction false} SizeAndCr(s: Settings, c: Conf, n: nat)
    requires AtChunkStart(c) && LineFits(s, n)
    ensures var r := RunOf(s, c, Hex(n) + [CR]);
            r.Ran? && r.c.nread == |Hex(n)| + 1 && r.c.p.state.ChunkSizeAlmostDone?
  {
    SizeRun(s, c, n);
    RunInv(s, c, Hex(n));
    var d := SizeConf(c, n, |Hex(n)|);
    SizeCr(s, d);
    RunThenByte(s, c, Hex(n), CR, d, Conf(d.p.(state := ChunkSizeAlmostDone), d.nread + 1, d.log));
  }

  lemma {:induction false} DataRun(s: Settings, c: Conf, chunk: string)
    requires Inv(c) && c.p.state.ChunkData? && chunk != "" && c.p.contentLength == |chunk| && !EndsIn(c.log, Body)
    ensures RunOf(s, c, chunk + CRLF) ==
            Ran(Conf(c.p.(contentLength := 0, state := ChunkSizeStart), 0, c.log + [Data(Body, chunk), ChunkComplete]))
  {
    BodyStretch(s, c, chunk);
    RunInv(s, c, chunk);
    var d := Conf(AfterBody(c.p, |chunk|), c.nread, c.log + [Data(Body, chunk)]);
    var e := Conf(d.p.(state := ChunkDataDone), d.nread, d.log);
    var f := Conf(d.p.(state := ChunkSizeStart), 0, d.log + [ChunkComplete]);
    DataCr(s, d);
    DataLf(s, e);
    RunTwo(s, d, CR, LF, e, f);
    RunThenRun(s, c, chunk, CRLF, d, f);
    assert f.log == c.log + [Data(Body, chunk), ChunkComplete];
  }

  function AfterChunk(c: Conf, chunk: string): Conf {
    Conf(c.p.(contentLength := 0), 0, c.log + ChunkEvents(chunk))
  }

  lemma {:induction false} ChunkRun(s: Settings, c: Conf, chunk: string)
    requires AtChunkStart(c) && chunk != "" && LineFits(s, |chunk|)
    ensures RunOf(s, c, EncodeChunk(chunk)) == Ran(AfterChunk(c, chunk))
  {
    var line := Hex(|chunk|) + CRLF;
    var d := AfterSizeLine(c, |chunk|);
    var e := AfterChunk(c, chunk);
    SizeLineRun(s, c, |chunk|);
    RunInv(s, c, line);
    DataRun(s, d, chunk);
    assert d.log + [Data(Body, chunk), ChunkComplete] == e.log;
    RunThenRun(s, c, line, chunk + CRLF, d, e);
    assert EncodeChunk(chunk) == line + (chunk + CRLF);
  }

  function AllChunkEvents(chunks: seq<string>): seq<Event> {
    if chunks == [] then [] else ChunkEvents(chunks[0]) + AllChunkEvents(chunks[1..])
  }

  /** Where the parser stands after the given chunks. */
  function AfterChunks(c: Conf, chunks: seq<string>): Conf {
    Conf(if chunks == [] then c.p else c.p.(contentLength := 0), 0, c.log + AllChunkEvents(chunks))
  }

  lemma AfterChunksCons(c: Conf, chunks: seq<string>)
    requires chunks != []
    ensures AfterChunks(AfterChunk(c, chunks[0]), chunks[1..]) == AfterChunks(c, chunks)
  {
    assert c.log + ChunkEvents(chunks[0]) + AllChunkEvents(chunks[1..]) == c.log + AllChunkEvents(chunks);
  }

  lemma {:induction false} ChunkKeepsStart(s: Settings, c: Conf, chunk: string)
    requires AtChunkStart(c) && chunk != "" && LineFits(s, |chunk|)
    ensures AtChunkStart(AfterChunk(c, chunk))
  {
    ChunkRun(s, c, chunk);
    RunInv(s, c, EncodeChunk(chunk));
  }

  lemma {:induction false} ChunksKeepStart(s: Settings, c: Conf, chunks: seq<string>)
    requires AtChunkStart(c)
    requires AllFit(s, chunks)
    ensures AtChunkStart(AfterChunks(c, chunks))
    decreases |chunks|
  {
    if chunks == [] {
      assert c.log + [] == c.log;
    } else {
      ChunkKeepsStart(s, c, chunks[0]);
      ChunksKeepStart(s, AfterChunk(c, chunks[0]), chunks[1..]);
      AfterChunksCons(c, chunks);
    }
  }

  lemma {:induction false} FirstChunkRun(s: Settings, c: Conf, chunks: seq<string>)
    requires AtChunkStart(c) && chunks != [] && chunks[0] != "" && LineFits(s, |chunks[0]|)
    requires RunOf(s, AfterChunk(c, chunks[0]), Encode(chunks[1..])) == Ran(AfterChunks(c, chunks))
    ensures RunOf(s, c, Encode(chunks)) == Ran(AfterChunks(c, chunks))
  {
    var first, rest := chunks[0], chunks[1..];
    ChunkRun(s, c, first);
    RunThenRun(s, c, EncodeChunk(first), Encode(rest), AfterChunk(c, first), AfterChunks(c, chunks));
    EncodeCons(first, rest);
    assert chunks == [first] + rest;
  }

  lemma {:induction false} ChunksRun(s: Settings, c: Conf, chunks: seq<string>)
    requires AtChunkStart(c)
    requires AllFit(s, chunks)
    ensures RunOf(s, c, Encode(chunks)) == Ran(AfterChunks(c, chunks))
    decreases |chunks|
  {
    if chunks == [] {
      assert AfterChunks(c, chunks) == c by { assert c.log + [] == c.log; }
    } else {
      ChunkKeepsStart(s, c, chunks[0]);
      ChunksRun(s, AfterChunk(c, chunks[0]), chunks[1..]);
      AfterChunksCons(c, chunks);
      FirstChunkRun(s, c, chunks);
    }
  }

  lemma {:induction false} TrailerRun(s: Settings, c: Conf)
    requires c.p.state.HeaderFieldStart? && c.p.flags.trailing && c.nread == 0 && s.limit >= 2 && !c.p.upgrade
    ensures RunOf(s, c, CRLF) ==
            Ran(Conf(c.p.(state := NewMessage(c.p)), 2, c.log + [ChunkComplete, MessageComplete]))
  {
    var d := Conf(c.p.(state := HeadersAlmostDone), 1, c.log);
    TrailerCr(s, c);
    TrailerLf(s, d);
    assert NewMessage(d.p) == NewMessage(c.p);
    RunTwo(s, c, CR, LF, d, Conf(c.p.(state := NewMessage(c.p)), 2, c.log + [ChunkComplete, MessageComplete]));
  }

  function AfterLastChunk(c: Conf): Conf {
    var p := AfterSizeLine(c, 0).p;
    Conf(p.(state := NewMessage(p)), 2, c.log + [ChunkHeader(0), ChunkComplete, MessageComplete])
  }

  /** The last chunk and the empty trailer section after it end the message. */
  lemma {:induction false} LastTrailerRun(s: Settings, c: Conf)
    requires s.limit >= 2 && !c.p.upgrade
    ensures RunOf(s, AfterSizeLine(c, 0), CRLF) == Ran(AfterLastChunk(c))
  {
    var d := AfterSizeLine(c, 0);
    TrailerRun(s, d);
    assert d.log + [ChunkComplete, MessageComplete] == AfterLastChunk(c).log;
  }

  lemma {:induction false} LastChunkRun(s: Settings, c: Conf, last: string)
    requires AtChunkStart(c) && !c.p.upgrade && s.limit >= 3 && last == (Hex(0) + CRLF) + CRLF
    ensures RunOf(s, c, last) == Ran(AfterLastChunk(c))
  {
    SizeLineRun(s, c, 0);
    LastTrailerRun(s, c);
    RunThenRun(s, c, Hex(0) + CRLF, CRLF, AfterSizeLine(c, 0), AfterLastChunk(c));
  }

  lemma {:induction false} AllRun(s: Settings, c: Conf, chunks: seq<string>, last: string)
    requires AtChunkStart(c) && !c.p.upgrade && s.limit >= 3 && last == (Hex(0) + CRLF) + CRLF
    requires AllFit(s, chunks)
    ensures RunOf(s, c, Encode(chunks) + last) == Ran(AfterLastChunk(AfterChunks(c, chunks)))
  {
    var d := AfterChunks(c, chunks);
    ChunksRun(s, c, chunks);
    ChunksKeepStart(s, c, chunks);
    LastChunkRun(s, d, last);
    RunThenRun(s, c, Encode(chunks), last, d, AfterLastChunk(d));
  }

  /** Everything the builder writes after the header is read back: one chunk header, the data and one
      completion for every non-empty chunk appended, in order, and then the end of the message. */
  lemma {:induction false} ParserReadsChunks(s: Settings, c: Conf, chunks: seq<string>)
    requires AtChunkStart(c) && !c.p.upgrade && s.limit >= 3
    requires AllFit(s, chunks)
    ensures var r := RunOf(s, c, Encode(chunks) + LAST_CHUNK);
            r.Ran? && r.c.log == c.log + AllChunkEvents(chunks) + [ChunkHeader(0), ChunkComplete, MessageComplete]
  {
    assert LAST_CHUNK == (Hex(0) + CRLF) + CRLF;
    AllRun(s, c, chunks, LAST_CHUNK);
  }

  /** The body that callbacks deliver. */
  function BodyOf(events: seq<Event>): string {
    if events == [] then ""
    else (if events[0].Data? && events[0].element == Body then events[0].bytes else "") + BodyOf(events[1..])
  }

  lemma {:induction false} BodyOfConcat(a: seq<Event>, b: seq<Event>)
    ensures BodyOf(a + b) == BodyOf(a) + BodyOf(b)
  {
    if a == [] {
      assert a + b == b;
    } else {
      assert (a + b)[1..] == a[1..] + b;
      BodyOfConcat(a[1..], b);
    }
  }

  lemma OneChunkBody(chunk: string)
    ensures BodyOf(ChunkEvents(chunk)) == chunk
  {
    var e := ChunkEvents(chunk);
    assert e == [e[0]] + ([e[1]] + [e[2]]);
    BodyOfConcat([e[0]], [e[1]] + [e[2]]);
    BodyOfConcat([e[1]], [e[2]]);
    assert BodyOf([e[0]]) == "" && BodyOf([e[1]]) == chunk && BodyOf([e[2]]) == "";
  }

  /** The delivered body is the concatenation of the chunks. */
  lemma {:induction false} ChunkBody(chunks: seq<string>)
    ensures BodyOf(AllChunkEvents(chunks)) == Flatten(chunks)
  {
    if chunks != [] {
      ChunkBody(chunks[1..]);
      BodyOfConcat(ChunkEvents(chunks[0]), AllChunkEvents(chunks[1..]));
      OneChunkBody(chunks[0]);
      FlattenCons(chunks[0], chunks[1..]);
      assert chunks == [chunks[0]] + chunks[1..];
    }
  }

  /** The round trip: the body delivered for what the builder wrote is what was appended. */
  lemma {:induction false} BodyRoundTrip(s: Settings, c: Conf, chunks: seq<string>)
    requires AtChunkStart(c) && !c.p.upgrade && s.limit >= 3
    requires AllFit(s, chunks)
    ensures var r := RunOf(s, c, Encode(chunks) + LAST_CHUNK);
            r.Ran? && BodyOf(r.c.log) == BodyOf(c.log) + Flatten(chunks)
  {
    ParserReadsChunks(s, c, chunks);
    var tail := [ChunkHeader(0), ChunkComplete, MessageComplete];
    ChunkBody(chunks);
    BodyOfConcat(c.log, AllChunkEvents(chunks));
    BodyOfConcat(c.log + AllChunkEvents(chunks), tail);
    assert tail[1..][1..][1..] == [];
  }

  /** A size line is read exactly up to the limit of the conservative check, and refused above it. */
  lemma SizeDigit(value: nat, digit: nat)
    requires digit < 16
    ensures Accumulate(value, 16, digit).Some? <==> SizeFits(value * 16 + digit)
    ensures Accumulate(value, 16, digit).Some? ==> value * 16 + digit < ULLONG_MAX
  {
  }
}
