# Feeder server and controller: verified models of the protocol cores

This project models the parts of the repository that decide what bytes and events mean, and proves
properties of the models. `dafny verify dfyconfig.toml` checks the whole project. One module per file, named
alike.

## What is modelled

**The incremental HTTP/1.x parser** (`http_parser.c`, strict build). There are two forms of it. The simple
form takes one byte at a time: `HttpParserArms` is the switch, one arm for each state, and `HttpParserRun`
chains the arms over a string and collects the callbacks, adjacent pieces of one element joined. The form of
the C code is `HttpParserExecute` with its groups of arms (`HttpParserSwitch`, `HttpParserHeaderSwitch`,
`HttpParserBodySwitch`): a class whose `Execute` runs over a buffer with five marks, inner loops over names,
values and bodies, a 32-bit byte counter, and callbacks that may pause. The main result is that the second
form means the same as the first. `HttpParserFrame` says how marks stand for bytes not delivered yet,
`HttpParserStretch` and `HttpParserLag` what a stretch of bytes or a counter that lags behind does,
`HttpParserReach` where a run has come to and where a paused parser stands in it, and `HttpParserDrive` is an
embedder that cuts its input and answers pauses. Everything else about the parser is
proved on the simple form: the invariant behind the C asserts (`HttpParserInvariant`), the order of callbacks
(`HttpParserGrammar`), the method recogniser (`HttpParserMethod`), and the header framing: names
(`HttpParserNames`), values (`HttpParserValues`, against the meaning of lists and numerals in
`HttpHeaderText`), and whole runs (`HttpParserFraming`, `HttpParserFramingRuns`). `HttpParserSections` says what
the arms of each section touch. `HttpParserReachable` puts these together for every parser that comes from
`http_parser_init`, and `HttpParserPauses` gives the inputs on which a pause makes a difference.

**Messages written and read back**: `HttpParserStartLine` reads request and status lines, `HttpParserHeaderLines`
header lines, and `HttpParserRequests` header sections and bodies, as a writer prints them; `RequestRoundTrip` puts
them together for whole requests with a Content-Length, whatever their other fields hold. For fields whose values are
written as usual the framing is exact: `HttpParserLists` does the lists, `HttpParserSaid` says what a header section
says and that the parser understands just that, and `HttpParserHeadEnd` what follows from it behind the empty line.
`MessageRoundTrip` reads back whole requests and responses with every kind of content, `ConnectionRoundTrip` many of
them on one connection, and `HttpParserLayout` adds what may vary between the parts of a message. The writer is that of the client in
`HTTPRequest.hpp`: `ClientRequest`, with its credentials in `Base64`, is read back by the server's parser. The other
direction, the client's own reading of response heads, is `ClientResponseHead`.

**URLs** (`UrlParser`): the byte walker, the authority walker, and the two passes with their 16-bit fields. Which
texts are URLs, and what their fields are, is said without the walkers in `UrlGrammar` and `UrlAuthority`, and
`UrlForms` shows that it is the same.

**Chunked transfer coding** (section 4.1 of RFC 7230): restinio's response builder (`ChunkedBuilder`), the
chunk states of the parser (`ChunkedParse`) and the client's loop (`ChunkedClient`), with the encoding in
`ChunkedCoding` and the round trips through both readers in `ChunkedRoundTrip`.

**docopt**: `transform` (`DocoptTransform`) and the greedy matcher (`DocoptMatch`) on the pattern trees of
`DocoptPattern`; what matching means for branches of leaves, without the matcher's steps, is `DocoptLeaves`.

**Protocols as steps**: the bounded message queue (`MsgQueue`), whose threads take one step between two
acquisitions of the mutex, and the connection limiter with its monitors (`ConnectionLimiter`).

**Indexes and representations**: the timer multimap and its back pointers (`OsapiTimer`) keyed by `OsapiTime`,
the incremental request target (`RequestTarget`), and the client's header fields (`HeaderFields`).

`HttpBytes` holds the byte tables; `Options`, `Sequences` and `Counting` hold what several modules share.

## What the code does where one might expect otherwise

The models follow the code in these points.

- A pause in `on_headers_complete` stores a counter that already includes the last byte of the header section,
  and the resumed parser counts that byte again. When the byte is the last one that the limit allows, the
  resumed parser fails with a header overflow although the unpaused one goes through. `HeadersCompletePause`
  says exactly when pausing there is transparent, and `PauseAtLimit` gives an input where it is not.
- Any other pause gives up the bytes counted in the call, so the counter of a paused parser may lag behind.
  It then does what the unpaused one does, except that it may get past the header limit (`RunLags`);
  `PauseForgives` gives an input where it does.
- The search for the end of an uninteresting header value is bounded by the header limit and steps over one
  byte without looking at it when it hits the bound. Only runs that fail with the header limit get there
  (`SwitchValue`), and only in buffers that are longer than the limit.
- A header value is delivered before it is counted. A parser that is paused there although the value is over the
  limit forgets the count, and goes on (`PausesOver`).
- The check against overflow of a chunk size is conservative: it refuses every size from 2^64 - 16 on
  (`SizeDigit`).
- The table of hexadecimal digits has 128 initialisers, so the bytes from 128 on count as the digit 0.
- Lower-casing a tab gives a closing parenthesis. A tab behind a comma in a Connection or Transfer-Encoding
  list therefore ends the recognition of the list.
- An element of a Connection or Transfer-Encoding list that only begins one of the words hides the element after it
  (`StubHidesWord`), and so does `chunked` in front of a comma.
- Number signs in front of a fragment belong to no field, and a fragment may contain further ones (`UrlGrammar`).
- An empty chunk-size line means 0, and thereby the end of the body, to the client, which also takes sizes
  modulo 2^64 and knows no chunk extensions.
- `http_parser_parse_url` keeps offsets and lengths in 16 bits and does not look at the length of its input. An
  accepted input is sure to be cut up properly up to 65535 bytes, and not beyond (`PartitionUpTo`).
- The client takes the last of several Content-Length fields, and reads its value modulo 2^64 (`HeadSays`).
- The order of `Time` is the order of its milliseconds only for normalised times (`OrderNeedsNormal`), and taking
  milliseconds away may leave the normal form (`PlusAssignMsecs`).
- Arming a timer that is armed leaves its old entry behind without a way back. When that entry is due, the expiry
  loop posts again and again and never ends (`Arm`, `ArmTwice`, `FireFirst`).

## Model

| member | source | states |
|---|---|---|
| HttpParserExecute.HttpParser.Execute | WEBSERVER/serverWorkspace/http-parser/http_parser.c:641-2155 | One call over one buffer, with marks, inner loops, callbacks, the 32-bit counter and pausing, does what the per-byte form does on the same bytes: all consumed means the same parser, the same counter and the same joined callbacks; an upgrade leaves at the same byte; an error means the per-byte form fails at the same byte with the same error and the same callbacks but for a piece still open, unless it fails with the header limit. It pauses if and only if the last callback made in the call asks for it, and no earlier one does; it then stands where the run over the bytes used stands, except that it has forgotten the bytes counted in the call (or, in on_headers_complete, with exactly the count of the run), unless it was paused behind a header value that is over the limit already. In every outcome the callbacks delivered extend the earlier ones and obey the grammar; in an error state nothing changes and 0 is returned |
| HttpParserExecute.HttpParser.EndOfStream | WEBSERVER/serverWorkspace/http-parser/http_parser.c:660-690 | A call with length 0 completes a body that is read to the end of the input, is accepted between messages, and is an error everywhere else, with return value 1 and the parser untouched |
| HttpParserExecute.Flush | WEBSERVER/serverWorkspace/http-parser/http_parser.c:2125-2146 | With at most one mark live at the end of the buffer, the left-over callbacks deliver exactly the pending bytes, once, and clear the mark; they pause if and only if there was a mark and its callback asks for it |
| HttpParserExecute.Reexecutes | WEBSERVER/serverWorkspace/http-parser/http_parser.c:715-719 | The REEXECUTE loop ends, refines the per-byte chain of arms for the byte, and obeys the callbacks that ask for a pause |
| HttpParserExecute.Turn | WEBSERVER/serverWorkspace/http-parser/http_parser.c:709-720 | One turn of the byte loop leaves it where the per-byte run stands, or ends it the way the per-byte run ends or where a callback asks for a pause |
| HttpParserSwitch.SwitchUrl | WEBSERVER/serverWorkspace/http-parser/http_parser.c:1024-1095 | The URL states set and release the url mark so that the delivered pieces join to the bytes walked over, and pause only where the delivery asks for it |
| HttpParserSwitch.SwitchStatus | WEBSERVER/serverWorkspace/http-parser/http_parser.c:895-920 | The status text: the mark is set once, a line end delivers the text, also when it is empty, and pauses if the delivery asks for it |
| HttpParserHeaderSwitch.SwitchField | WEBSERVER/serverWorkspace/http-parser/http_parser.c:1256-1391 | The inner loop over a header name, with its shortcut for unknown names and the counter advanced once at the end, refines one byte at a time, including which side of the header limit it ends on |
| HttpParserHeaderSwitch.GeneralFieldLoop | WEBSERVER/serverWorkspace/http-parser/http_parser.c:1273-1278 | The shortcut loop over the rest of an unknown name passes token bytes only and leaves the matcher alone; it stops in front of a byte that is not a token, at the end, or after as many bytes as the header limit allows |
| HttpParserHeaderSwitch.SwitchValue | WEBSERVER/serverWorkspace/http-parser/http_parser.c:1482-1706 | The inner loop over a header value, with the search for the line end bounded by the maximum header size, refines one byte at a time; the byte that the bounded search skips is only ever skipped on runs that fail with the header limit |
| HttpParserHeaderSwitch.GeneralValueLoop | WEBSERVER/serverWorkspace/http-parser/http_parser.c:1508-1541 | The search for CR or LF in an uninteresting value skips only bytes that keep the value open, or the run is over the limit |
| HttpParserBodySwitch.SwitchIdentity | WEBSERVER/serverWorkspace/http-parser/http_parser.c:1944-1979 | A Content-Length body is delivered in one piece per buffer, exactly as many bytes as were announced, and its last byte is looked at again to end the message |
| HttpParserBodySwitch.SwitchTake | WEBSERVER/serverWorkspace/http-parser/http_parser.c:2078-2099 | The data of a chunk, or of a body read to the end of the input, is marked in one stretch that stops where the announced length does; no callback is made |
| HttpParserDrive.Drive | WEBSERVER/serverWorkspace/http-parser/http_parser.c:641-2155 | However the input is cut into buffers, and wherever the callbacks pause, the parser ends as the per-byte run over the whole: without pauses in exactly the same configuration, with pauses in one whose counter may lag. It fails only with the error of the run. If no callback asks for a pause, none is counted and the feeding is never stuck; it is stuck only where the run comes to on_headers_complete with its counter at the limit, so never on an input shorter than the limit. If no buffer is longer than the limit, the same holds of the run with room for everything, even where the run itself meets the limit. The callbacks obey the grammar throughout |
| HttpParserDrive.HeadersCompletePause | WEBSERVER/serverWorkspace/http-parser/http_parser.c:1853-1876 | A parser that is paused in on_headers_complete and resumed does exactly what it would have done without, as long as the last byte of the header section is not the last one the limit allows; if it is, the resumed parser fails with the header limit at once |
| HttpParserDrive.PauseAtLimitMatters | WEBSERVER/serverWorkspace/http-parser/http_parser.c:1853-1876 | At that limit any plain request goes through when nothing pauses, and is stuck when on_headers_complete does |
| HttpParserPauses.PauseAtLimit | WEBSERVER/serverWorkspace/http-parser/http_parser.c:1853-1876 | The input: with a limit of 18 a parser fresh from http_parser_init gets through GET / HTTP/1.1 and an empty line, and paused in on_headers_complete it is stuck |
| HttpParserPauses.PauseForgives | WEBSERVER/serverWorkspace/http-parser/http_parser.c:79-133 | The input for the other direction, run through http_parser_execute: with a limit of 17 the same request is too long, but a fresh parser that is paused in on_url forgets the bytes of that call, and takes the rest |
| HttpParserLag.RunLags | WEBSERVER/serverWorkspace/http-parser/http_parser.c:79-133 | A parser whose counter lags behind does whatever the other does, unless that one is stopped by the header limit: it gets through, fails with the same error at the same byte, or leaves for another protocol, with the same fields and callbacks |
| HttpParserReach.TracksAgain | WEBSERVER/serverWorkspace/http-parser/http_parser.c:79-133 | A resumed parser that stands in the run over what is left stands in the run over the whole |
| HttpParserReach.StandsFollows | WEBSERVER/serverWorkspace/http-parser/http_parser.c:79-133 | A parser that stands in a run, but for bytes it has not counted, carries it on to the same end, unless the run meets the header limit |
| HttpParserReach.RunCounts | WEBSERVER/serverWorkspace/http-parser/http_parser.c:154-163 | No more bytes are counted than there are, so an input that fits the limit does not meet it |
| HttpParserRun.AgainLowersRank | WEBSERVER/serverWorkspace/http-parser/http_parser.c:66-70 | Every REEXECUTE goes to a state of smaller rank, so the chain for one byte ends |
| HttpParserRun.RunConcat | WEBSERVER/serverWorkspace/http-parser/http_parser.c:709-720 | A run over a concatenation is the run over the first part continued over the second |
| HttpParserReachable.EveryRunIsLawful | WEBSERVER/serverWorkspace/http-parser/http_parser.c:641-2155 | From http_parser_init, whatever is fed: no assert fails, and the callbacks, also those of an input that fails, are the beginning of a sequence of well-formed messages |
| HttpParserReachable.FramingIsExact | WEBSERVER/serverWorkspace/http-parser/http_parser.c:1795-1872 | From http_parser_init, whatever is fed to a non-lenient parser: whenever on_headers_complete has been called, the content length and the list flags are those of the delivered fields: the decimal value of the only Content-Length field, or 2^64-1 exactly if there is none; F_CHUNKED only if a Transfer-Encoding field ends with the element chunked; each F_CONNECTION flag only if a Connection field has that word as an element; ignoring case, surrounding blanks and folds |
| HttpParserReachable.BodyHasAnnouncedLength | WEBSERVER/serverWorkspace/http-parser/http_parser.c:1914-1979 | From http_parser_init, for a parser that is not lenient: whenever a body with a Content-Length begins, exactly that many of the bytes that follow are delivered as body, in one piece once joined, and the message is complete with the last of them |
| HttpParserReachable.LastMessage | WEBSERVER/serverWorkspace/http-parser/http_parser.c:463-463 | The byte that completes a message that is not kept alive is followed by no further callback, whatever comes, also when that fails |
| HttpParserRequests.NeutralLines | WEBSERVER/serverWorkspace/http-parser/http_parser.c:1206-1769 | Header fields that say nothing about the body are delivered with the names and trimmed values they were written with, line by line, and leave the framing alone |
| HttpParserRequests.BodyRun | WEBSERVER/serverWorkspace/http-parser/http_parser.c:1944-1979 | A body of the announced length is delivered whole, and its last byte ends the message, where the parser goes on to the next one or leaves for another protocol |
| RequestRoundTrip.MessageRun | WEBSERVER/serverWorkspace/http-parser/http_parser.c:641-2155 | A request written with method, URL, version, fields and a body of the announced length is read to its end and no further, and its callbacks say what was written |
| RequestRoundTrip.ConnectionRun | WEBSERVER/serverWorkspace/http-parser/http_parser.c:641-2155 | Requests written one after another on a connection are delivered one by one, each with the method, URL, fields and body it was written with |
| HttpParserLists.OptionsExact | WEBSERVER/serverWorkspace/http-parser/http_parser.c:1408-1769 | For a Connection value written as usual (no empty elements, no tabs, none that breaks off inside one of the three words) F_CONNECTION_KEEP_ALIVE, F_CONNECTION_CLOSE and F_CONNECTION_UPGRADE are set exactly if the word is among the elements, ignoring case and spaces |
| HttpParserLists.CodingsExact | WEBSERVER/serverWorkspace/http-parser/http_parser.c:1408-1769 | For a Transfer-Encoding value written as usual, in which chunked is not applied before another coding, F_CHUNKED is set exactly if the last coding is chunked, ignoring case and spaces |
| HttpParserLists.StubHidesWord | WEBSERVER/serverWorkspace/http-parser/http_parser.c:1602-1645 | The input on which a word is missed: in c,close the element c is taken for the beginning of close, the comma behind it is swallowed, and F_CONNECTION_CLOSE is not set |
| HttpParserSaid.FieldUnderstood | WEBSERVER/serverWorkspace/http-parser/http_parser.c:1256-1769 | One header line changes the flags, uses_transfer_encoding and the content length by exactly what the field says by its text: nothing is missed and nothing else is taken up; also for names that only begin with transfer-encoding |
| HttpParserSaid.FieldsRun | WEBSERVER/serverWorkspace/http-parser/http_parser.c:1206-1769 | A header section with any such fields is delivered field by field as it was written, and at its end flags, uses_transfer_encoding and content length are exactly what the fields say together |
| HttpParserHeadEnd.HeadEndRun | WEBSERVER/serverWorkspace/http-parser/http_parser.c:1795-1942 | The empty line behind a header section: from the start line, what the fields say, the two option bits and the answer of on_headers_complete it follows whether the message is refused and with which error, ends here, leaves for another protocol, or goes on with a counted body, with chunks or up to the end of the stream; and the callbacks and the next state are those of that case |
| MessageRoundTrip.HeadRun | WEBSERVER/serverWorkspace/http-parser/http_parser.c:641-1942 | The head of any request or response, from its text: start line and fields are delivered as written, and the message goes on as its fields say, or is refused with the error and at the byte that HeadEndRun gives |
| MessageRoundTrip.MessageRun | WEBSERVER/serverWorkspace/http-parser/http_parser.c:641-2155 | A request or response with the content that its fields announce (none, counted, chunked with trailer fields, or up to the end of the stream) is read to its end and no further; if it asks for another protocol, the parser leaves there |
| MessageRoundTrip.MessageDelivered | WEBSERVER/serverWorkspace/http-parser/http_parser.c:641-2155 | Its callbacks are the start line, the fields, the body or the chunks, and the trailer, as they were written |
| MessageRoundTrip.BehindMessage | WEBSERVER/serverWorkspace/http-parser/http_parser.c:2158-2206 | Behind a message the parser waits for the next one exactly if the version, the Connection words in fields and trailer, the status code and the framing let the connection stay open; otherwise it is dead |
| ConnectionRoundTrip.ConnectionRun | WEBSERVER/serverWorkspace/http-parser/http_parser.c:641-2155 | Requests of all these kinds written one after another are delivered one by one, each with its method, URL, version, fields, body and trailer; the condition is on the texts alone |
| ConnectionRoundTrip.ChunkedRequestRun | WEBSERVER/serverWorkspace/http-parser/http_parser.c:641-2155 | A request line, neutral fields, a Transfer-Encoding field in any capitalisation that ends in chunked, more neutral fields, the empty line, chunks and the last chunk, sent to a parser that listens for requests (as after http_parser_init), are delivered as begin, URL, fields, headers complete, one header, the data and one completion for each chunk, the end of the last chunk, and message complete |
| ConnectionRoundTrip.ChunkedAloneField | WEBSERVER/serverWorkspace/http-parser/http_parser.c:1408-1622 | A Transfer-Encoding field whose value is the word chunked alone, name and value in any capitalisation, is such a field |
| HttpParserLayout.LineEndsAlike | WEBSERVER/serverWorkspace/http-parser/http_parser.c:865-1872 | Wherever a line may end (after the URL, the version, the status code, the reason, a header value or the header section) a lone LF does what CR LF does, one byte of the header limit cheaper |
| HttpParserLayout.SkippedRun | WEBSERVER/serverWorkspace/http-parser/http_parser.c:721-1114 | Line breaks between messages and further spaces between the parts of a start line change nothing but the counter |
| HttpParserLayout.KindIsTold | WEBSERVER/serverWorkspace/http-parser/http_parser.c:731-767 | A parser for both kinds goes by the first two bytes: with HT it does what a parser for responses does, with HE or another first letter what one for requests does, and otherwise it fails |
| HttpParserLayout.VersionIsExact | WEBSERVER/serverWorkspace/http-parser/http_parser.c:788-1175 | A version that begins with H is read exactly if it is HTTP, a slash, a digit, a dot and a digit, in requests and in responses |
| HttpParserLayout.IceIsExact | WEBSERVER/serverWorkspace/http-parser/http_parser.c:1097-1140 | ICE stands for HTTP in a request exactly if the method is SOURCE |
| HttpParserLayout.ContinuationRun | WEBSERVER/serverWorkspace/http-parser/http_parser.c:1719-1750 | A line that begins with a blank continues the value before it: it is delivered as it stands, and no matcher looks into it |
| HttpParserLayout.NameBytesAreExact | WEBSERVER/serverWorkspace/http-parser/http_parser.c:1256-1391 | Inside a name token bytes go on, a colon ends it, and any other byte is refused |
| HttpParserLayout.FirstBytesAreExact | WEBSERVER/serverWorkspace/http-parser/http_parser.c:1206-1254 | A header line that does not end the section begins with a token byte, and any other byte is refused |
| HttpParserLayout.ValueBytesAreExact | WEBSERVER/serverWorkspace/http-parser/http_parser.c:1482-1541 | In a value that no matcher looks into exactly the bytes that may stand in a header are taken, any by a lenient parser |
| HttpParserInvariant.ArmKeeps | WEBSERVER/serverWorkspace/http-parser/http_parser.c:720-2122 | Every arm, for every byte and every answer of on_headers_complete, keeps the matcher index inside its literal, ties the chunk states to F_CHUNKED and the body states to a length that can be counted down, and fails no assert |
| HttpParserInvariant.RunInv | WEBSERVER/serverWorkspace/http-parser/http_parser.c:641-2155 | No assert of the parser can fail on any run: the invariant on state, matcher, index, flags, content length and counter (0 before, 1 inside a chunk start) holds after every byte |
| HttpParserMethod.MethodIsExact | WEBSERVER/serverWorkspace/http-parser/http_parser.c:927-1022 | A request is let past its method exactly when the word before the space is one of the 34 methods, and it is read as that one |
| HttpParserMethod.CorrectionBegins | WEBSERVER/serverWorkspace/http-parser/http_parser.c:984-1008 | Every row of the correction table replaces a guess by a method that begins with all the bytes read so far and with the byte that contradicted the guess |
| HttpParserMethod.RecognisesAll | WEBSERVER/serverWorkspace/http-parser/http_parser.c:936-960 | Every method is reached from its own name, through one or two corrections where the first byte guesses another |
| HttpParserStartLine.UrlIsExact | WEBSERVER/serverWorkspace/http-parser/http_parser.c:1024-1095 | A request is let past its URL exactly if the walker of http_parser_parse_url gets over it to a state in which it may end, and the URL is delivered as written |
| HttpParserStartLine.RequestLineRun | WEBSERVER/serverWorkspace/http-parser/http_parser.c:927-1204 | A request line comes back as it was written: method, URL and version |
| HttpParserStartLine.StatusCodeIsExact | WEBSERVER/serverWorkspace/http-parser/http_parser.c:850-893 | A status code of any number of digits is read, as its value, exactly if that is at most 999 |
| HttpParserStartLine.StatusLineRun | WEBSERVER/serverWorkspace/http-parser/http_parser.c:788-925 | A status line comes back as it was written: version, code and reason, also an empty one |
| HttpParserGrammar.RunLawful | WEBSERVER/serverWorkspace/http-parser/http_parser.c:720-2122 | Over every run, also one that fails, the callbacks obey the grammar: begin, url or status, fields and values, headers complete, then body pieces, or chunk headers each followed by exactly that many bytes and a completion, trailers, message complete; and the parser stands where its callbacks do |
| HttpParserGrammar.PhaseJoin | WEBSERVER/serverWorkspace/http-parser/http_parser.c:105-133 | The callbacks as delivered, in pieces, obey the grammar exactly when the joined ones do |
| HttpParserGrammar.DeadForGood | WEBSERVER/serverWorkspace/http-parser/http_parser.c:721-729 | After a message that is not kept alive nothing is delivered any more, also when the input fails: only line ends are accepted |
| HttpParserNames.NamesStep | WEBSERVER/serverWorkspace/http-parser/http_parser.c:1256-1375 | The name matchers know after every byte exactly which of the five special names the lower-cased name still is or has become |
| HttpParserNames.NamesExact | WEBSERVER/serverWorkspace/http-parser/http_parser.c:1281-1375 | What the matcher state claims about a name is the name: the finished states mean equality with the literal, up to spaces behind it |
| HttpParserFramingRuns.NameDecided | WEBSERVER/serverWorkspace/http-parser/http_parser.c:1384-1388 | At the colon header_state names Connection (or Proxy-Connection), Content-Length, Transfer-Encoding or Upgrade exactly when the lower-cased name equals the literal |
| HttpParserFramingRuns.FramingAtHeadersComplete | WEBSERVER/serverWorkspace/http-parser/http_parser.c:1795-1872 | At headers-complete of any non-lenient run, content_length is the decimal value of the only Content-Length field, or 2^64-1 exactly if there is none; F_CHUNKED is set only if some Transfer-Encoding field ends with the element chunked; each F_CONNECTION flag only if some Connection field has that word as an element, all ignoring case, surrounding blanks and folds |
| HttpParserFramingRuns.RunExplained | WEBSERVER/serverWorkspace/http-parser/http_parser.c:1206-1769 | The framing fields are explained by the delivered names and values after every byte of every non-lenient run |
| HttpParserValues.ValueByteTells | WEBSERVER/serverWorkspace/http-parser/http_parser.c:1542-1697 | After every byte of a value the matcher says the truth about the value so far: a numeral and its value, the word under way at the start of the last list element, or a complete word with spaces behind it |
| HttpParserFraming.ArmLeaves | WEBSERVER/serverWorkspace/http-parser/http_parser.c:720-2122 | Outside the header lines no arm changes the framing fields, except that a new message resets them |
| ChunkedBuilder.ResponseBuilder.AppendChunk | WEBSERVER/serverWorkspace/restinio/restinio/message_builders.hpp:655-665 | A non-empty chunk is appended behind everything appended before, flushed or not; an empty chunk changes nothing |
| ChunkedBuilder.ResponseBuilder.Flush | WEBSERVER/serverWorkspace/restinio/restinio/message_builders.hpp:677-690 | Everything appended so far is on the wire behind the header, which is written once, and nothing is lost; after done nothing is written |
| ChunkedBuilder.ResponseBuilder.Done | WEBSERVER/serverWorkspace/restinio/restinio/message_builders.hpp:699-719 | The wire is the header, the encoding of everything appended, and one last chunk; a second call is refused and writes nothing |
| ChunkedBuilder.ResponseBuilder.SendReadyData | WEBSERVER/serverWorkspace/restinio/restinio/message_builders.hpp:722-790 | Buffers written in one go continue the encoding of what was written before |
| ChunkedBuilder.ResponseBuilder.CreateBufs | WEBSERVER/serverWorkspace/restinio/restinio/message_builders.hpp:792-858 | The buffers, in which the CRLF behind a chunk travels with the next size line or with the ending, concatenate to header, encoded chunks and last chunk |
| ChunkedBuilder.Respond | WEBSERVER/serverWorkspace/restinio/restinio/message_builders.hpp:657-719 | For any sequence of append and flush calls ended by done, the wire is the header, the non-empty chunks encoded in order, and one last chunk, wherever the flushes fall |
| ChunkedBuilder.ChunksHoldData | WEBSERVER/serverWorkspace/restinio/restinio/message_builders.hpp:657-665 | The non-empty chunks hold all appended data, and none of them can end the body early |
| ChunkedParse.SizeRun | WEBSERVER/serverWorkspace/http-parser/http_parser.c:1996-2047 | The parser reads the hexadecimal size that fmt prints back as the number printed, if its digits fit the header limit |
| ChunkedParse.SizeLineIsExact | WEBSERVER/serverWorkspace/http-parser/http_parser.c:1996-2072 | A size line is read if and only if it fits the header limit; otherwise the parser fails with that limit |
| ChunkedParse.AnySizeRun | WEBSERVER/serverWorkspace/http-parser/http_parser.c:1996-2047 | Digits in capital or small letters, with any leading zeros, are read as the number they denote if that passes the overflow check, and refused otherwise |
| ChunkedParse.AnySizeLineRun | WEBSERVER/serverWorkspace/http-parser/http_parser.c:1996-2072 | With an extension behind it, and without, such a size announces that number |
| ChunkedParse.UnhexIsExact | WEBSERVER/serverWorkspace/http-parser/http_parser.c:224-233 | A byte is a hexadecimal digit exactly if it is that digit in capital or small letters, except that bytes from 128 on count as 0 |
| ChunkedParse.ParserReadsChunks | WEBSERVER/serverWorkspace/http-parser/http_parser.c:1996-2116 | The parser's chunk states read the written body back as one chunk header, the data and one completion for every chunk, and then the end of the message |
| ChunkedParse.BodyRoundTrip | WEBSERVER/serverWorkspace/http-parser/http_parser.c:1996-2116 | The body delivered by callbacks is the concatenation of the chunks |
| ChunkedRoundTrip.ParserDeliversTheData | WEBSERVER/serverWorkspace/restinio/restinio/message_builders.hpp:655-860 | Whatever was appended and wherever it was flushed, the parser's chunk states deliver exactly the appended data |
| ChunkedRoundTrip.ClientReturnsTheData | RPI/SystemController/HTTPRequest.hpp:1138-1183 | The client's chunk loop returns exactly the appended data, right behind the size line of the last chunk, and leaves the empty trailer unread |
| ChunkedClient.HexStringToUint | RPI/SystemController/HTTPRequest.hpp:871-880 | Base-16 value modulo 2^64, or an error if any character is no hexadecimal digit; no characters give 0 |
| ChunkedClient.Response.ReadChunks | RPI/SystemController/HTTPRequest.hpp:1140-1182 | The inner loop ends and does what the function Drain says to the data at hand, the body, the expected size and the pending CRLF |
| ChunkedClient.Response.Receive | RPI/SystemController/HTTPRequest.hpp:1138-1183 | However the bytes are cut into reads, the verdict, the body, the error and the bytes taken are those of one read of the whole |
| ChunkedClient.DrainMore | RPI/SystemController/HTTPRequest.hpp:1138-1183 | One read followed by another is one read of both: later bytes never change what was decided |
| ChunkedClient.ClientReadsChunks | RPI/SystemController/HTTPRequest.hpp:1138-1183 | What the builder writes is taken apart into the concatenation of its chunks |
| ChunkedClient.PiecesAreRead | RPI/SystemController/HTTPRequest.hpp:1138-1183 | Chunks by any writer, with any spelling of their sizes, are taken apart, and the reader stops behind the first size that is zero |
| ChunkedClient.CompleteHasPieces | RPI/SystemController/HTTPRequest.hpp:1138-1183 | Conversely, whatever is taken for a complete body is made of size lines, exactly as much data as they say and a line end behind each; the data is the body |
| ChunkedClient.HexDigitIsExact | RPI/SystemController/HTTPRequest.hpp:578-585 | A character is a hexadecimal digit exactly if it is that digit in capital or small letters |
| UrlParser.ParseUrl | WEBSERVER/serverWorkspace/http-parser/http_parser.c:2422-2543 | For inputs of any length, accepts exactly those whose byte walk, authority, field combination and port are in order, and returns the fields of both passes, with 16-bit offsets and lengths, and the port number; the assert on the port field never fails |
| UrlParser.UrlIsPartition | WEBSERVER/serverWorkspace/http-parser/http_parser.c:2335-2543 | For inputs of at most 65535 bytes the fields lie inside the input, are not empty, do not overlap, follow each other in the order scheme, userinfo, host, port, path, query, fragment, and leave out only delimiters |
| UrlForms.PartsAreFields | WEBSERVER/serverWorkspace/http-parser/http_parser.c:493-639 | Whatever is put together from a scheme with an authority, a path, a query and a fragment (any of them missing where the grammar allows it), up to 65535 bytes, is accepted, and each field is set to exactly that part: scheme, user information, host (a name, or an address with its zone without the brackets), port, path, query, fragment; the port number is the value of its digits |
| UrlForms.AcceptedHasParts | WEBSERVER/serverWorkspace/http-parser/http_parser.c:2422-2543 | Conversely every accepted text of up to 65535 bytes is put together in that way, a CONNECT target from a host and a port alone, and its fields are those parts; together an exact description of the accepted texts and of all seven fields |
| UrlForms.OriginForm | WEBSERVER/serverWorkspace/http-parser/http_parser.c:573-632 | For a path that begins with a slash, a non-empty query and a non-empty fragment, path ? query # fragment is accepted with exactly those three fields |
| UrlForms.DelimitersStand | WEBSERVER/serverWorkspace/http-parser/http_parser.c:573-632 | In an accepted URL a question mark stands in front of the query and a number sign in front of the fragment |
| UrlForms.TargetIsExact | WEBSERVER/serverWorkspace/http-parser/http_parser.c:1024-1095 | A request target, of any length, is walked to its end exactly if it is put together from the parts of a URL and has a server, a path or a query |
| UrlParser.PartitionUpTo | WEBSERVER/serverWorkspace/http-parser/http_parser.c:2422-2491 | That bound is exact: all accepted inputs of a given length are cut up properly if and only if the length is at most 65535 |
| UrlParser.PortIsDecimal | WEBSERVER/serverWorkspace/http-parser/http_parser.c:2517-2540 | Up to that length the port is digits, is refused exactly if their value is over 65535, and otherwise is that value |
| UrlParser.ParsePort | WEBSERVER/serverWorkspace/http-parser/http_parser.c:2517-2540 | The loop that stops early computes the port number of any text in unsigned long arithmetic, and refuses exactly the texts that have none |
| UrlParser.ParseHost | WEBSERVER/serverWorkspace/http-parser/http_parser.c:2335-2414 | The second pass accepts exactly if the host walker ends in a final state, and replaces the authority by its parts |
| UrlParser.ScanFields | WEBSERVER/serverWorkspace/http-parser/http_parser.c:2440-2491 | The first pass ends in the walker's state with the fields, and dies exactly if the walker does |
| UrlParser.ScanOfFits | WEBSERVER/serverWorkspace/http-parser/http_parser.c:2440-2491 | After every byte of the first pass the fields tile the bytes read, in order, up to the current one |
| UrlParser.HostScanFits | WEBSERVER/serverWorkspace/http-parser/http_parser.c:2346-2396 | After every byte of the second pass userinfo, host and port tile the authority read so far, and the port is digits |
| DocoptTransform.Transform | WEBSERVER/serverWorkspace/fmt/support/docopt.py:72-96 | The worklist loop ends, although Either and OneOrMore copy their siblings, and computes TransformOf |
| DocoptTransform.TransformKeepsMeaning | WEBSERVER/serverWorkspace/fmt/support/docopt.py:72-96 | The bag of alternatives, each a bag of leaves, is the same before and after, OneOrMore read as exactly twice and Optional as required |
| DocoptTransform.TransformIsFlat | WEBSERVER/serverWorkspace/fmt/support/docopt.py:72-96 | The result is one Either of Requireds of leaves: no branch is nested in another |
| DocoptTransform.WorklistMeans | WEBSERVER/serverWorkspace/fmt/support/docopt.py:79-95 | Groups plus result mean the same in every turn of the loop |
| DocoptTransform.ExpandCosts | WEBSERVER/serverWorkspace/fmt/support/docopt.py:85-91 | Every rewriting step makes the worklist cheaper by the measure that multiplies along groups, adds over Either and squares for OneOrMore |
| DocoptMatch.SingleMatch | WEBSERVER/serverWorkspace/fmt/support/docopt.py:150-208 | The position of the item a leaf takes: the first positional one, the first option of that name, or for a command the first positional one if it is that word |
| DocoptMatch.PositionIsFirst | WEBSERVER/serverWorkspace/fmt/support/docopt.py:150-208 | A leaf takes the first item that stops it; arguments and options miss no acceptable item |
| DocoptMatch.MatchPattern | WEBSERVER/serverWorkspace/fmt/support/docopt.py:112-279 | The match methods, loops included, compute the function Match, and return the items and what was collected unchanged on failure |
| DocoptMatch.MatchOneOrMore | WEBSERVER/serverWorkspace/fmt/support/docopt.py:248-265 | The repetition loop ends: every further round takes an item or is the last |
| DocoptMatch.MatchEither | WEBSERVER/serverWorkspace/fmt/support/docopt.py:270-279 | All alternatives are tried on the same items, and the first of the smallest outcomes is returned |
| DocoptMatch.MatchSound | WEBSERVER/serverWorkspace/fmt/support/docopt.py:112-279 | A success comes with a derivation of the pattern; the items it uses are exactly those that disappeared, the rest keep their order, and what was collected is extended by exactly what the derivation yields |
| DocoptLeaves.RequiredLeaves | WEBSERVER/serverWorkspace/fmt/support/docopt.py:219-229 | A Required of leaves succeeds exactly if there is an item for each leaf (the k-th leaf among the positional ones, or among the options of a name, standing for the k-th such item) and commands are called by their names; then every leaf has collected its item under its own name, and exactly the items in excess are left, in their order |
| DocoptLeaves.OptionalLeaves | WEBSERVER/serverWorkspace/fmt/support/docopt.py:232-243 | An Optional of options and arguments, in any order of the items, takes for every leaf the item that is there for it, and leaves exactly the items for which there are not enough leaves |
| DocoptLeaves.RepeatedLeaf | WEBSERVER/serverWorkspace/fmt/support/docopt.py:248-265 | A repeated argument or option fails exactly if there is no item for it; otherwise it collects all of them and leaves the others alone |
| DocoptMatch.RepetitionExhausts | WEBSERVER/serverWorkspace/fmt/support/docopt.py:248-265 | Whatever the repeated pattern is, it can take nothing more from what the repetition leaves |
| DocoptMatch.ItemsDecide | WEBSERVER/serverWorkspace/fmt/support/docopt.py:112-279 | Whether a pattern matches and what it leaves does not depend on what was collected before |
| DocoptMatch.BestIndex | WEBSERVER/serverWorkspace/fmt/support/docopt.py:270-279 | Either fails exactly if all alternatives fail; otherwise it takes the first of those that leave the fewest items |
| DocoptMatch.EitherIsBest | WEBSERVER/serverWorkspace/fmt/support/docopt.py:270-279 | An Either fails exactly if all its alternatives do, and otherwise does what the first of those alternatives does that leave the fewest items |
| MsgQueue.EveryRunIsSafe | inc/OSApiStudent/inc/osapi/MsgQueue.hpp:78-110 | Under any interleaving and with spurious wakeups: the queue is never longer than maxSize, the items sent are the items received followed by those queued, in order, and no wakeup is lost |
| MsgQueue.CallersSee | inc/OSApiStudent/inc/osapi/MsgQueue.hpp:78-110 | Over every run, seen by the callers: the items that receives have returned, each with the thread it was returned to, are in order exactly those taken from the front of the queue by that thread, but for one that the receive inside the mutex has in hand; and the arguments of a thread's sends are in order exactly the items it has pushed, but for the one of a send that waits. So nothing is lost, returned twice or changed, and the whole is first in, first out |
| MsgQueue.StepKeepsReaders | inc/OSApiStudent/inc/osapi/MsgQueue.hpp:78-106 | While a reader sleeps, every queued item has a woken reader or a sender that still owes its signal, although send signals after unlocking |
| MsgQueue.StepKeepsWriters | inc/OSApiStudent/inc/osapi/MsgQueue.hpp:78-106 | While a writer sleeps, every free place has a woken writer or the receiver about to signal |
| MsgQueue.SleepersHaveReason | inc/OSApiStudent/inc/osapi/MsgQueue.hpp:78-106 | When nothing can move on its own, readers sleep only on an empty queue and writers only on a full one |
| MsgQueue.NoDeadlock | inc/OSApiStudent/inc/osapi/MsgQueue.hpp:78-106 | A queue with room for an item never has readers and writers asleep for good at the same time |
| MsgQueue.SomeThreadMoves | inc/OSApiStudent/inc/osapi/MsgQueue.hpp:78-106 | Unless all threads are idle or asleep, one of them can take its next step |
| ConnectionLimiter.EveryRunIsSafe | WEBSERVER/serverWorkspace/restinio/restinio/connection_count_limiter.hpp:57-259 | Over every run active accepts plus connections stay within the limit, the stack of parked slots fits its reserved capacity and holds exactly the parked slots, and a slot stays parked only while accepts, connections and scheduled slots use up the limit |
| ConnectionLimiter.StepKeeps | WEBSERVER/serverWorkspace/restinio/restinio/connection_count_limiter.hpp:166-258 | Each of the three operations keeps these facts, and the count of active accepts is the number of slots in an accept |
| ConnectionLimiter.LastParkedFirst | WEBSERVER/serverWorkspace/restinio/restinio/connection_count_limiter.hpp:201-258 | The slot parked last is the one that the next connection to end sends back, and the others stay parked as they were |
| ConnectionLimiter.Limiter.AcceptNext | WEBSERVER/serverWorkspace/restinio/restinio/connection_count_limiter.hpp:235-258 | Below the limit the slot goes into an accept at once; at the limit it is parked on top of the stack |
| ConnectionLimiter.Limiter.IncrementParallelConnections | WEBSERVER/serverWorkspace/restinio/restinio/connection_count_limiter.hpp:188-197 | A completed accept becomes a connection; the count of accepts cannot underflow |
| ConnectionLimiter.Limiter.DecrementParallelConnections | WEBSERVER/serverWorkspace/restinio/restinio/connection_count_limiter.hpp:201-228 | A closed connection frees the slot parked last, if there is one, and asks the acceptor to schedule exactly that slot |
| ConnectionLimiter.Monitor.constructor | WEBSERVER/serverWorkspace/restinio/restinio/connection_count_limiter.hpp:379-384 | A new monitor counts one connection |
| ConnectionLimiter.Monitor.Destroy | WEBSERVER/serverWorkspace/restinio/restinio/connection_count_limiter.hpp:386-390 | A live monitor ends its connection once; a moved-from one does nothing |
| ConnectionLimiter.Monitor.Move | WEBSERVER/serverWorkspace/restinio/restinio/connection_count_limiter.hpp:404-409 | The connection changes its monitor and the count does not change |
| ConnectionLimiter.Monitor.Swap | WEBSERVER/serverWorkspace/restinio/restinio/connection_count_limiter.hpp:395-402 | The two monitors exchange their connections and nothing else changes |
| ConnectionLimiter.Monitor.Assign | WEBSERVER/serverWorkspace/restinio/restinio/connection_count_limiter.hpp:411-417 | The target's own connection ends, the source's is taken over, self-assignment changes nothing, and no other monitor is touched |
| OsapiTime.Time.PlusAssign | inc/OSApiStudent/common/Time.cpp:28-34 | The total milliseconds add up, whatever the two times; the result is normal if and only if the milliseconds do not add up to a negative number that is no multiple of 1000. A Time added to itself doubles |
| OsapiTime.Time.MinusAssign | inc/OSApiStudent/common/Time.cpp:36-47 | The total milliseconds are subtracted; the result is normal if and only if the milliseconds differ by at most one borrowed second, so always for normal times, also when it is negative |
| OsapiTime.Time.PlusAssignMsecs | inc/OSApiStudent/common/Time.cpp:50-56 | The total grows by the milliseconds, which may be negative; the result is normal if and only if what is left of them is not negative or a multiple of 1000 |
| OsapiTime.LessIsOrder | inc/OSApiStudent/common/Time.cpp:80-106 | On normalised times the comparisons are those of the total milliseconds, and equal totals are equal times |
| OsapiTime.OrderNeedsNormal | inc/OSApiStudent/common/Time.cpp:80-89 | Outside the normalised times the order is not that of the totals |
| OsapiTimer.Timer.Arm | inc/OSApiStudent/common/Timer.cpp:75-87 | The timer is entered under the current time plus its timeout, behind all entries not later, and points to that entry; entries and timers go on corresponding one to one if and only if it was not armed already |
| OsapiTimer.Timer.ReArm | inc/OSApiStudent/common/Timer.cpp:90-101 | The timer is entered one timeout after its previous deadline, and the correspondence is kept if and only if it was not armed already |
| OsapiTimer.Timer.ArmTwice | inc/OSApiStudent/common/Timer.cpp:221-254 | A timer armed twice and expired leaves an entry that is due, to which no timer points |
| OsapiTimer.Timer.FireFirst | inc/OSApiStudent/common/Timer.cpp:223-225 | One turn of the expiry loop fires the first entry's timer and erases the entry that timer points to: the first one if entries and timers correspond, none if the timer points nowhere, so that the loop comes back to the same state and never ends |
| OsapiTimer.Timer.ArmEntry | inc/OSApiStudent/common/Timer.cpp:234-244 | The multimap stays sorted, and every iterator points to an entry of its timer |
| OsapiTimer.Timer.DisArm | inc/OSApiStudent/common/Timer.cpp:104-114 | Exactly the timer's own entry is erased, if it has one |
| OsapiTimer.Timer.InternalDisArm | inc/OSApiStudent/common/Timer.cpp:247-254 | Erasing through the iterator takes out that one entry, and keeps the correspondence where there is one |
| OsapiTimer.Timer.Expire | inc/OSApiStudent/common/Timer.cpp:221-227 | The loop ends, fires every timer that is due exactly once and in the order of the deadlines, each with the message it held, and leaves only later deadlines |
| OsapiTimer.Timer.AfterWait | inc/OSApiStudent/common/Timer.cpp:213-229 | A wakeup before the first deadline fires nothing; otherwise no due timer is left |
| RequestTarget.Header.AppendRequestTarget | WEBSERVER/serverWorkspace/restinio/restinio/http_headers.hpp:1953-1978 | Appending a block keeps both separator positions equal to those of the whole string |
| RequestTarget.Header.SetRequestTarget | WEBSERVER/serverWorkspace/restinio/restinio/http_headers.hpp:1892-1902 | Setting the target computes the positions of the string |
| RequestTarget.AppendAll | WEBSERVER/serverWorkspace/restinio/restinio/http_headers.hpp:1953-1978 | After any blocks the header is as if the concatenation had been set at once |
| RequestTarget.AppendPositions | WEBSERVER/serverWorkspace/restinio/restinio/http_headers.hpp:1956-1975 | The positions of a concatenation, from those of its first part and a search of the second |
| RequestTarget.Header.ViewsRebuild | WEBSERVER/serverWorkspace/restinio/restinio/http_headers.hpp:1912-1950 | Path, query and fragment with their separators rebuild the target exactly, and are the only proper way to take it apart |
| HeaderFields.EncodeHeaderFields | RPI/SystemController/HTTPRequest.hpp:888-911 | Accepts exactly the lists whose names are non-empty tokens and whose values hold no control characters, and prints them line by line; otherwise reports what is wrong with the first bad field |
| HeaderFields.ReadsBackFields | RPI/SystemController/HTTPRequest.hpp:735-826 | What is printed is read back completely, with the same names, and the same values without their outer blanks; a field boundary is never mistaken for a fold |
| HeaderFields.ParseHeaderField | RPI/SystemController/HTTPRequest.hpp:803-826 | The parse functions compute the name up to the colon, the content with folds, and the length taken, or the error |
| HeaderFields.ParseFieldContent | RPI/SystemController/HTTPRequest.hpp:770-800 | Every obsolete fold becomes one space between trimmed lines |
| HeaderFields.FoldsAreJoined | RPI/SystemController/HTTPRequest.hpp:752-800 | A value on several lines, each behind a line end and a blank, is read to its end and means its lines without trailing blanks, with one space between them |
| HeaderFields.FieldStands | RPI/SystemController/HTTPRequest.hpp:735-826 | What has been parsed as a field stands in the text: a non-empty token, a colon behind it, and CR LF at the end of the length taken |
| HeaderFields.ParseFieldValue | RPI/SystemController/HTTPRequest.hpp:752-767 | The longest run of value characters without its trailing blanks |
| ClientRequest.EncodeRequest | RPI/SystemController/HTTPRequest.hpp:957-990 | Prints the request line, the caller's fields with Host, Content-Length and credentials behind them, an empty line and the body; refuses exactly the other schemes and what is no header field, with the error of the first bad field |
| ClientRequest.ServerReadsRequest | RPI/SystemController/HTTPRequest.hpp:957-990 | The server's parser reads what the client writes: the method, the target, the fields, and the body to its last byte, with nothing left over; it then waits for the next request unless the caller asked to close |
| Base64.Encode | RPI/SystemController/HTTPRequest.hpp:915-955 | The loop over groups of three bytes, with its padding, computes the encoding of section 4 of RFC 4648 |
| Base64.DecodesBack | RPI/SystemController/HTTPRequest.hpp:915-955 | Decoding the encoded text, whatever its length, gives the bytes back |
| ClientResponseHead.ReadHead | RPI/SystemController/HTTPRequest.hpp:1099-1132 | The loop over the header fields of a response computes HeadFrom |
| ClientResponseHead.HeadSays | RPI/SystemController/HTTPRequest.hpp:1099-1132 | The head is read exactly if all its fields parse, every field with the name Transfer-Encoding in any capitalisation is chunked and every one with the name Content-Length in any capitalisation is digits; the body is then chunked if and only if there is such a Transfer-Encoding field, the last such Content-Length counts, modulo 2^64, and the fields are kept in order under their names in small letters |
| ClientResponseHead.LowerNameIsSmall | RPI/SystemController/HTTPRequest.hpp:1105-1107 | The lower-cased name is the name with every capital letter made small and nothing else changed, and it is the only text that is |
| ClientResponseHead.LowerNameIs | RPI/SystemController/HTTPRequest.hpp:1105-1116 | A lower-cased name equals a literal without capitals exactly if the name is that word without regard to case |
| ClientResponseHead.StringToUint | RPI/SystemController/HTTPRequest.hpp:862-869 | The decimal value modulo 2^64, or an error at a character that is no digit |

## Left out

Parser:

- The build without strict checks, callbacks that fail other than by the answer of on_headers_complete, absent callbacks, bytes after an upgrade, and a second call with length 0.
- Buffers and header limits of 2^31 bytes and more: the 32-bit counter is modelled, and proved not to wrap below that size only.
- HttpParserReachable.FramingIsExact: for arbitrary values list recognition is shown sound only ("chunked, chunked", empty elements and the like are not recognised by the code), and only for parsers that are not lenient; both directions hold for values written as usual (HttpParserSaid.FieldsRun).
- HttpParserExecute.HttpParser.Execute: once a run passes the header limit, both forms fail, but the inner loops may find another error first; which callbacks the failing call has made by then is said only as far as the grammar goes. In a buffer longer than the limit nothing is said of a parser that was paused behind a value over the limit, because its loop may have stepped over the end of the line.
- HttpParserDrive.Drive: of a run that leaves for another protocol only what comes before that point is tied to the buffers.
- HttpParserMethod.MethodIsExact: covers parsers set up for requests that start a message with a letter, within the header limit; parsers for both kinds are led back to these by HttpParserLayout.KindIsTold.
- UrlParser.ParseUrl: the fields are returned as a map instead of being written into the caller's structure.
- RequestRoundTrip.MessageRun: the requests written have one Content-Length field and otherwise fields that have no bearing on the body; the other kinds of messages are those of MessageRoundTrip.MessageRun.
- MessageRoundTrip.MessageRun: the values of Connection, Transfer-Encoding and Content-Length fields are lists without strange elements and plain numbers, lines end with CR LF and are not folded, and sizes are printed as the builder prints them; the variations are shown line by line in HttpParserLayout and ChunkedParse.
- Human-readable names of errors and methods, and http_body_is_final.

Chunked coding:

- ChunkedBuilder.Respond: the header string, write-status callbacks and the connection's own buffering are not modelled; what is written is one string.
- ChunkedClient.Response.Receive: covers the body from the first byte behind the header section on. Of the header phase only the loop over the fields is modelled (ClientResponseHead), not the status line nor that the client gives up when the first read lacks the blank line; neither are bodies with a Content-Length, and the truncated body that the client returns when the peer closes early.

docopt:

- DocoptMatch.MatchSound: says that a match is a derivation, not that a match is found whenever one exists, which the greedy code does not promise.
- DocoptMatch.PositionIsFirst: for a command only the first positional item is looked at, as the code does, so nothing is said about later ones.
- DocoptMatch.MatchPattern: a repeated value is appended to what was collected, where the code counts it into the earlier object in place (and so into every list that shares the object).
- Fixing identities of equal leaves, and parsing of usage texts. Pattern trees are values, so that `transform` leaves its input alone holds by construction.

Queue, limiter, timer:

- MsgQueue.EveryRunIsSafe: mutex and condition variables are abstract (a wakeup is a step of the environment), and the destruction of the queue is not modelled.
- MsgQueue.SomeThreadMoves: that a thread able to move does move, and that a woken thread is served in turn, is scheduling, which the source leaves to the platform.
- ConnectionLimiter.EveryRunIsSafe: assumes the acceptor described in the source: each call_accept_now is followed by one increment, each scheduled slot by one accept_next. Failing accepts and the acceptor itself are not part of this model.
- The limiter's lock and its no-op variant. The callbacks it makes after releasing the lock are results of the methods.
- OsapiTime.Time.PlusAssign: machine widths are not modelled.
- Subtraction of a Time from a number, which returns the number.
- OsapiTimer.Timer.Expire: the timer thread, its lock and its condition variable are not modelled; clock readings are an arbitrary sequence, and a message is posted in the step that fires its timer, so a timer cancelled in between may still post in the original.

Headers:

- ClientRequest.ServerReadsRequest: not for the method CONNECT, whose target the server reads as an authority, and not for caller fields that bear on the body or on an upgrade, such as a second Content-Length, which the client writes and the server refuses.
- ClientRequest.EncodeRequest: the parts of the URI are inputs; splitting the text of a URI, and the port, which the Host field leaves out, are not modelled.
- HeaderFields.ReadsBackFields: iterators are modelled as the text that is left. Values come back trimmed, since outer blanks are not part of a field value.
- try_parse_query, percent decoding, caseless comparison and the table of header names of restinio.

The rest of the repository: sockets, serial lines, files, threads, logging, the kernel driver, TLS, server settings and the dispatch on fixed command strings would add only input and output or easy members.
