/** restinio's response builder for chunked output (message_builders.hpp). The header is an opaque string,
    and the connection is what has been written to it. */
module ChunkedBuilder {
  import opened Sequences
  import opened ChunkedCoding

  class ResponseBuilder {
    /** The result of create_header_string. */
    const header: string

    /** `m_connection` is not empty. */
    var connected: bool
    var headerWasSent: bool
    var chunks: seq<string>
    /** Everything passed to write_response_parts, in order. */
    var wire: string

    /** The non-empty chunks whose bytes have been written, and whether the last chunk has. */
    ghost var flushed: seq<string>
    ghost var ended: bool

    ghost predicate Valid()
      reads this
    {
      "" !in chunks && "" !in flushed &&
      (connected ==> !ended) &&
      (!headerWasSent ==> flushed == [] && !ended) &&
      wire == (if headerWasSent then header else "") + Encode(flushed) + (if ended then LAST_CHUNK else "")
    }

    constructor (header: string)
      ensures Valid() && connected && !headerWasSent && chunks == [] && flushed == [] && this.header == header
    {
      this.header := header;
      connected, headerWasSent, chunks, wire := true, false, [], "";
      flushed, ended := [], false;
    }

    /** Everything appended so far that can still reach the peer. */
    ghost function Appended(): seq<string>
      reads this
    {
      flushed + chunks
    }

    method AppendChunk(chunk: string)
      requires Valid()
      modifies this`chunks
      ensures Valid()
      ensures Appended() == old(Appended()) + if chunk == "" then [] else [chunk]
    {
      if |chunk| != 0 {
        chunks := chunks + [chunk];
      }
    }

    method Flush()
      requires Valid()
      modifies this`headerWasSent, this`chunks, this`wire, this`flushed, this`ended
      ensures Valid() && ended == old(ended) && Appended() == old(Appended())
      ensures connected ==> headerWasSent && chunks == []
      ensures connected ==> wire == header + Encode(Appended())
      ensures !connected ==> wire == old(wire) && chunks == old(chunks)
    {
      if connected {
        SendReadyData(false);
      }
    }

    /** `done`; the result is false where the original throws because it was called before. */
    method Done() returns (ok: bool)
      requires Valid()
      modifies this
      ensures Valid() && !connected && ok == old(connected)
      ensures ok ==> wire == header + Encode(old(Appended())) + LAST_CHUNK
      ensures !ok ==> wire == old(wire)
    {
      ok := connected;
      if connected {
        connected := false;
        SendReadyData(true);
      }
    }

    method SendReadyData(final: bool)
      requires Valid() && !ended && (final ==> !connected)
      modifies this`headerWasSent, this`chunks, this`wire, this`flushed, this`ended
      ensures Valid() && headerWasSent && chunks == [] && ended == final
      ensures Appended() == old(Appended())
      ensures wire == header + Encode(Appended()) + if final then LAST_CHUNK else ""
    {
      var bufs := CreateBufs(final);
      Written(header, headerWasSent, flushed, chunks, if final then LAST_CHUNK else "");
      if bufs != [] {
        wire := wire + Flatten(bufs);
      }
      flushed := flushed + chunks;
      chunks, headerWasSent, ended := [], true, final;
    }

    /** The CRLF after a chunk is written together with the size line of the next chunk, or with the end. */
    method CreateBufs(addZeroChunk: bool) returns (bufs: seq<string>)
      ensures Flatten(bufs) ==
              (if headerWasSent then "" else header) + Encode(chunks) + (if addZeroChunk then LAST_CHUNK else "")
    {
      bufs := [];
      if !headerWasSent {
        FlattenSnoc(bufs, header);
        bufs := bufs + [header];
      }
      assert Flatten(bufs) == if headerWasSent then "" else header;
      bufs := AddChunks(bufs);
      var appendix := Appendix(|chunks| != 0, addZeroChunk);
      Assoc(Flatten(bufs), if |chunks| != 0 then CRLF else "", if addZeroChunk then LAST_CHUNK else "");
      FlattenSnoc(bufs, appendix);
      if appendix != "" {
        bufs := bufs + [appendix];
      }
    }

    /** The slice of "\r\n" "0\r\n\r\n" that ends the buffers. */
    static method Appendix(afterChunk: bool, addZeroChunk: bool) returns (appendix: string)
      ensures appendix == (if afterChunk then CRLF else "") + (if addZeroChunk then LAST_CHUNK else "")
    {
      var ending := CRLF + LAST_CHUNK;
      var from, upTo := 2, 2;
      if afterChunk {
        from := from - 2;
      }
      if addZeroChunk {
        upTo := upTo + 5;
      }
      appendix := ending[from..upTo];
    }

    method AddChunks(start: seq<string>) returns (bufs: seq<string>)
      ensures Flatten(bufs) + (if |chunks| != 0 then CRLF else "") == Flatten(start) + Encode(chunks)
    {
      bufs := start;
      var formatPrefix := "";
      for i := 0 to |chunks|
        invariant formatPrefix == if i == 0 then "" else CRLF
        invariant Flatten(bufs) + formatPrefix == Flatten(start) + Encode(chunks[..i])
      {
        var sizeLine := formatPrefix + Hex(|chunks[i]|) + CRLF;
        FlattenSnoc(bufs, sizeLine);
        FlattenSnoc(bufs + [sizeLine], chunks[i]);
        EncodeSnoc(chunks[..i], chunks[i]);
        assert chunks[..i + 1] == chunks[..i] + [chunks[i]];
        ChunkWritten(Flatten(bufs), formatPrefix, Hex(|chunks[i]|), chunks[i], Flatten(start), Encode(chunks[..i]));
        bufs := bufs + [sizeLine] + [chunks[i]];
        formatPrefix := CRLF;
      }
      assert chunks[..|chunks|] == chunks;
    }
  }

  lemma ChunkWritten(flat: string, prefix: string, hex: string, chunk: string, start: string, encoded: string)
    requires flat + prefix == start + encoded
    ensures ((flat + (prefix + hex + CRLF)) + chunk) + CRLF == start + (encoded + (hex + CRLF + chunk + CRLF))
  {
    var line := hex + CRLF + chunk + CRLF;
    assert ((flat + (prefix + hex + CRLF)) + chunk) + CRLF == (flat + prefix) + line;
    Assoc(start, encoded, line);
  }

  /** The wire after the buffers for `now` have been written behind those for `before`. */
  lemma {:induction false} Written(header: string, sent: bool, before: seq<string>, now: seq<string>, tail: string)
    requires !sent ==> before == []
    ensures ((if sent then header else "") + Encode(before) + "") + ((if sent then "" else header) + Encode(now) + tail)
            == header + Encode(before + now) + tail
  {
    EncodeConcat(before, now);
    var a, b := Encode(before), Encode(now);
    if sent {
      assert (header + a + "") + ("" + b + tail) == header + (a + b) + tail;
    } else {
      assert a == "" && ("" + a + "") + (header + b + tail) == header + (a + b) + tail;
    }
  }

  /** What a user of the builder does before `done`. */
  datatype Call = Append(chunk: string) | Flush

  /** The chunks that go on the wire: everything appended that is not empty. */
  function Chunks(calls: seq<Call>): seq<string> {
    if calls == [] then []
    else
      var front, last := calls[..|calls| - 1], calls[|calls| - 1];
      Chunks(front) + if last.Append? && last.chunk != "" then [last.chunk] else []
  }

  /** Everything appended, in order. */
  function AppendedData(calls: seq<Call>): string {
    if calls == [] then ""
    else
      var front, last := calls[..|calls| - 1], calls[|calls| - 1];
      AppendedData(front) + if last.Append? then last.chunk else ""
  }

  /** Dropping the empty chunks drops no data, and leaves none that would end the body early. */
  lemma {:induction false} ChunksHoldData(calls: seq<Call>)
    ensures Flatten(Chunks(calls)) == AppendedData(calls) && "" !in Chunks(calls)
  {
    if calls != [] {
      var front, last := calls[..|calls| - 1], calls[|calls| - 1];
      ChunksHoldData(front);
      if last.Append? && last.chunk != "" {
        FlattenSnoc(Chunks(front), last.chunk);
      } else {
        assert Chunks(front) + [] == Chunks(front);
      }
    }
  }

  /** Wherever the flushes fall, the response is the header, the chunks and one last chunk. */
  method Respond(header: string, calls: seq<Call>) returns (wire: string)
    ensures wire == header + Encode(Chunks(calls)) + LAST_CHUNK
  {
    var builder := new ResponseBuilder(header);
    for i := 0 to |calls|
      invariant builder.Valid() && builder.connected && builder.header == header
      invariant builder.Appended() == Chunks(calls[..i])
      invariant fresh(builder)
    {
      assert calls[..i + 1][..i] == calls[..i];
      match calls[i]
      case Append(chunk) => builder.AppendChunk(chunk);
      case Flush => builder.Flush();
    }
    assert calls[..|calls|] == calls;
    var ok := builder.Done();
    wire := builder.wire;
  }
}
