/** encodeHtml of HTTPRequest.hpp, and the server's parser reading what it writes. */
module ClientRequest {
  import opened HttpBytes
  import opened HttpHeaderText
  import opened HttpParserTypes
  import opened HttpParserArms
  import opened HttpParserRun
  import opened HttpParserFraming
  import opened HttpParserStartLine
  import opened HttpParserHeaderLines
  import opened HttpParserRequests
  import opened RequestRoundTrip
  import Base64
  import H = HeaderFields

  /** The parts of a Uri that a request depends on. */
  datatype Uri = Uri(scheme: string, user: string, password: string, host: string, path: string, query: string)

  function RequestTarget(uri: Uri): string {
    uri.path + if uri.query == "" then "" else "?" + uri.query
  }

  function DigitChar(d: nat): char
    requires d < 10
  {
    '0' + d as char
  }

  /** `std::to_string`. */
  function DecimalText(n: nat): string {
    if n < 10 then [DigitChar(n)] else DecimalText(n / 10) + [DigitChar(n % 10)]
  }

  lemma {:induction false} DecimalReadsBack(n: nat)
    ensures IsNumber(DecimalText(n)) && Decimal(DecimalText(n)) == n
  {
    if n < 10 {
      assert Decimal("") == 0;
      assert DecimalText(n)[..0] == "";
    } else {
      DecimalReadsBack(n / 10);
      assert DecimalText(n)[..|DecimalText(n)| - 1] == DecimalText(n / 10);
    }
  }

  function HostField(uri: Uri): H.Field {
    H.Field("Host", uri.host)
  }

  function LengthField(body: string): H.Field {
    H.Field("Content-Length", DecimalText(|body|))
  }

  /** The credentials of the Uri, if it has any. */
  function Credentials(uri: Uri): seq<H.Field> {
    if uri.user == "" && uri.password == "" then []
    else [H.Field("Authorization", "Basic " + Base64.Encoded(uri.user + ":" + uri.password))]
  }

  function SentFields(uri: Uri, body: string, fields: seq<H.Field>): seq<H.Field> {
    fields + [HostField(uri)] + [LengthField(body)] + Credentials(uri)
  }

  /** The bytes of a request. */
  function RequestText(uri: Uri, verb: string, body: string, fields: seq<H.Field>): string {
    verb + " " + RequestTarget(uri) + " HTTP/1.1\r\n" + H.Lines(SentFields(uri, body, fields)) + "\r\n" + body
  }

  method EncodeRequest(uri: Uri, verb: string, body: string, fields: seq<H.Field>) returns (r: H.Result<string>)
    ensures r.Ok? <==> uri.scheme == "http" && H.AllEncodable(SentFields(uri, body, fields))
    ensures r.Ok? ==> r.value == RequestText(uri, verb, body, fields)
    ensures uri.scheme != "http" ==> r == H.Err(H.UnsupportedScheme)
    ensures uri.scheme == "http" && r.Err? ==>
              var sent := SentFields(uri, body, fields);
              exists i: nat :: H.RefusedAt(sent, i) && r.refusal == H.RefusalOf(sent[i])
  {
    if uri.scheme != "http" {
      return H.Err(H.UnsupportedScheme);
    }
    var headerFields := fields;
    headerFields := headerFields + [H.Field("Host", uri.host)];
    headerFields := headerFields + [H.Field("Content-Length", DecimalText(|body|))];
    if uri.user != "" || uri.password != "" {
      var userinfo := Base64.Encode(uri.user + ":" + uri.password);
      headerFields := headerFields + [H.Field("Authorization", "Basic " + userinfo)];
    } else {
      assert headerFields == headerFields + [];
    }
    var lines := H.EncodeHeaderFields(headerFields);
    if lines.Err? {
      return lines;
    }
    r := H.Ok(verb + " " + RequestTarget(uri) + " HTTP/1.1\r\n" + lines.value + "\r\n" + body);
  }

  // ---------- the server's side ----------

  /** The request as a message with one Content-Length. */
  function AsMessage(uri: Uri, m: Method, body: string, fields: seq<H.Field>): Message {
    Message(m, RequestTarget(uri), fields + [HostField(uri)], LengthField(body), Credentials(uri), body)
  }

  lemma LowerNames()
    ensures LowerToken("Content-Length") == CONTENT_LENGTH_NAME
    ensures LowerToken("Host") == "host" && LowerToken("Authorization") == "authorization"
  {
    assert LowerToken("Content-Length") == CONTENT_LENGTH_NAME;
  }

  lemma HostAndAuthorizationAreNeutral()
    ensures Neutral("Host") && Neutral("Authorization")
  {
    LowerNames();
    assert |TRANSFER_ENCODING_NAME| > |"authorization"|;
    assert "host"[0] == 'h' && "authorization"[0] == 'a';
  }

  lemma {:induction false} CredentialsAreValue(uri: Uri)
    ensures H.AllEncodable(Credentials(uri)) && AllNeutral(Credentials(uri))
  {
    HostAndAuthorizationAreNeutral();
    if Credentials(uri) != [] {
      var text := Base64.Encoded(uri.user + ":" + uri.password);
      Base64.EncodedIsVisible(uri.user + ":" + uri.password);
      assert forall i :: 0 <= i < |"Basic "| ==> H.IsValueChar("Basic "[i]);
      assert H.AllToken("Authorization");
    }
  }

  lemma {:induction false} LengthIsEncodable(body: string)
    ensures H.Encodable(LengthField(body))
  {
    DecimalReadsBack(|body|);
    assert H.AllToken("Content-Length");
  }

  /** What the client demands of the caller's part of a request: header fields that may be sent, none of which
      has a say in the framing, and a target that is a URL for the parser. */
  predicate WellFormed(uri: Uri, m: Method, body: string, fields: seq<H.Field>) {
    m != CONNECT && RequestTarget(uri) != "" && WalksToEnd(m, RequestTarget(uri)) && LengthFits(|body|) &&
    H.AllEncodable(fields) && AllNeutral(fields) && H.AllValue(uri.host)
  }

  lemma {:induction false} RequestIsSendable(uri: Uri, m: Method, body: string, fields: seq<H.Field>)
    requires WellFormed(uri, m, body, fields)
    ensures Sendable(AsMessage(uri, m, body, fields))
  {
    LowerNames();
    HostAndAuthorizationAreNeutral();
    CredentialsAreValue(uri);
    LengthIsEncodable(body);
    DecimalReadsBack(|body|);
    assert H.AllToken("Host");
    var before := fields + [HostField(uri)];
    forall i | 0 <= i < |before| ensures H.Encodable(before[i]) && Neutral(before[i].name) {
      assert i < |fields| ==> before[i] == fields[i];
    }
  }

  lemma {:induction false} LinesConcat(a: seq<H.Field>, b: seq<H.Field>)
    ensures H.Lines(a + b) == H.Lines(a) + H.Lines(b)
    decreases |a|
  {
    if a == [] {
      assert a + b == b;
    } else {
      assert (a + b)[1..] == a[1..] + b;
      LinesConcat(a[1..], b);
    }
  }

  lemma VersionLine()
    ensures " HTTP/1.1\r\n" == " " + (VersionText('1', '1') + [CR, LF]) && "\r\n" == [CR] + [LF]
  {
  }

  lemma TextParts(verb: string, target: string, version: string, lines: string, end: string, body: string)
    ensures verb + " " + target + (" " + version) + lines + end + body ==
            (verb + " " + target + " " + version) + (lines + end) + body
  {
  }

  lemma {:induction false} SentLines(uri: Uri, m: Method, body: string, fields: seq<H.Field>)
    ensures H.Lines(SentFields(uri, body, fields)) == Section(AsMessage(uri, m, body, fields))
  {
    var before, length, after := fields + [HostField(uri)], LengthField(body), Credentials(uri);
    LinesConcat(before + [length], after);
    LinesConcat(before, [length]);
    assert H.Lines([length]) == H.Line(length) by {
      assert [length][1..] == [];
    }
  }

  /** The bytes are those of the message. */
  lemma {:induction false} TextIsMessage(uri: Uri, m: Method, body: string, fields: seq<H.Field>)
    ensures RequestText(uri, MethodString(m), body, fields) == Text(AsMessage(uri, m, body, fields))
  {
    var version := VersionText('1', '1') + [CR, LF];
    SentLines(uri, m, body, fields);
    VersionLine();
    TextParts(MethodString(m), RequestTarget(uri), version, H.Lines(SentFields(uri, body, fields)), [CR] + [LF], body);
    assert RequestLine(m, RequestTarget(uri), '1', '1') == MethodString(m) + " " + RequestTarget(uri) + " " + version;
  }

  /** The server's parser reads what the client writes: the method, the target, the fields, and the body to its
      last byte. */
  lemma {:induction false} ServerReadsRequest(s: Settings, c: Conf, uri: Uri, m: Method, body: string,
      fields: seq<H.Field>)
    requires Listening(s, c) && WellFormed(uri, m, body, fields)
    requires c.nread + |Head(AsMessage(uri, m, body, fields))| <= s.limit
    ensures var r := RunOf(s, c, RequestText(uri, MethodString(m), body, fields));
            r.Ran? && r.c.log == c.log + Events(AsMessage(uri, m, body, fields)) && r.c.nread == 0
    ensures !WordSaid(Pairs(SentFields(uri, body, fields)), CLOSE_WORD) ==>
              Listening(s, RunOf(s, c, RequestText(uri, MethodString(m), body, fields)).c)
  {
    var message := AsMessage(uri, m, body, fields);
    RequestIsSendable(uri, m, body, fields);
    TextIsMessage(uri, m, body, fields);
    MessageRun(s, c, message);
    MessageDelivered(s, c, message);
    assert AllFields(message) == SentFields(uri, body, fields);
    if StaysOpen(message) {
      ListensAgain(s, c, message);
    }
  }
}
