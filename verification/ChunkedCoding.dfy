/** The chunked transfer coding (section 4.1 of RFC 7230) as restinio writes it. */
module ChunkedCoding {
  import opened Sequences

  function HexDigit(n: nat): char
    requires n < 16
  {
    if n < 10 then ('0' as int + n) as char else ('A' as int + n - 10) as char
  }

  function SmallHexDigit(n: nat): char
    requires n < 16
  {
    if n < 10 then ('0' as int + n) as char else ('a' as int + n - 10) as char
  }

  /** `{:X}` of fmt: upper-case hexadecimal without leading zeros. */
  function Hex(n: nat): string {
    if n < 16 then [HexDigit(n)] else Hex(n / 16) + [HexDigit(n % 16)]
  }

  const LAST_CHUNK := "0\r\n\r\n"

  function EncodeChunk(chunk: string): string {
    Hex(|chunk|) + CRLF + chunk + CRLF
  }

  function Encode(chunks: seq<string>): string {
    if chunks == [] then "" else Encode(chunks[..|chunks| - 1]) + EncodeChunk(chunks[|chunks| - 1])
  }

  lemma EncodeSnoc(chunks: seq<string>, chunk: string)
    ensures Encode(chunks + [chunk]) == Encode(chunks) + EncodeChunk(chunk)
  {
    assert (chunks + [chunk])[..|chunks|] == chunks;
  }

  lemma {:induction false} EncodeConcat(a: seq<string>, b: seq<string>)
    ensures Encode(a + b) == Encode(a) + Encode(b)
    decreases |b|
  {
    if b == [] {
      assert a + b == a;
    } else {
      var front, last := b[..|b| - 1], b[|b| - 1];
      assert a + b == (a + front) + [last];
      EncodeConcat(a, front);
      EncodeSnoc(a + front, last);
      Assoc(Encode(a), Encode(front), EncodeChunk(last));
    }
  }

  lemma {:induction false} EncodeCons(chunk: string, chunks: seq<string>)
    ensures Encode([chunk] + chunks) == EncodeChunk(chunk) + Encode(chunks)
  {
    EncodeConcat([chunk], chunks);
    assert [chunk][..0] == [];
  }
}
