/** The chunked body restinio writes, read by both of the repository's decoders. */
module ChunkedRoundTrip {
  import opened Sequences
  import opened HttpParserTypes
  import opened HttpParserRun
  import opened ChunkedCoding
  import opened ChunkedParse
  import Builder = ChunkedBuilder
  import Client = ChunkedClient

  /** Whatever was appended and wherever it was flushed, the parser delivers the appended data, in order and
      completely. */
  lemma {:induction false} ParserDeliversTheData(s: Settings, c: Conf, calls: seq<Builder.Call>)
    requires AtChunkStart(c) && !c.p.upgrade && s.limit >= 3
    requires forall chunk :: chunk in Builder.Chunks(calls) ==> LineFits(s, |chunk|)
    ensures var r := RunOf(s, c, Encode(Builder.Chunks(calls)) + LAST_CHUNK);
            r.Ran? && BodyOf(r.c.log) == BodyOf(c.log) + Builder.AppendedData(calls)
  {
    Builder.ChunksHoldData(calls);
    BodyRoundTrip(s, c, Builder.Chunks(calls));
  }

  /** And so does the client, which stops right behind the size line of the last chunk. */
  lemma {:induction false} ClientReturnsTheData(calls: seq<Builder.Call>, tail: string)
    requires forall chunk :: chunk in Builder.Chunks(calls) ==> |chunk| < Client.SIZE_MODULUS
    ensures Client.Drain(Client.Reading(Encode(Builder.Chunks(calls)) + LAST_CHUNK + tail, "", 0, false)) ==
            Client.Complete(Builder.AppendedData(calls), CRLF + tail)
  {
    var chunks := Builder.Chunks(calls);
    Builder.ChunksHoldData(calls);
    Client.ClientReadsChunks(chunks, "", tail);
    assert "" + Flatten(chunks) == Flatten(chunks);
  }
}
