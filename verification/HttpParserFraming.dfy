/** What the flags and the content length mean in terms of the header fields that were delivered. */
module HttpParserFraming {
  import opened Options
  import opened HttpBytes
  import opened HttpHeaderText
  import opened HttpParserTypes
  import opened HttpParserArms
  import opened HttpParserRun
  import opened HttpParserSections
  import opened HttpParserInvariant
  import opened HttpParserNames
  import opened HttpParserValues

  /** The header fields of the current message, as delivered to the embedder. */
  function Fields(log: seq<Event>): seq<(string, string)> {
    if log == [] then []
    else
      var front, last := log[..|log| - 1], log[|log| - 1];
      if last == MessageBegin then []
      else if EndsIn(log, Value) && EndsIn(front, Field) then
        Fields(front) + [(front[|front| - 1].bytes, last.bytes)]
      else Fields(front)
  }

  predicate Quiet(e: Option<Event>) {
    e.Some? ==> e.value != MessageBegin && !(e.value.Data? && (e.value.element == Field || e.value.element == Value))
  }

  lemma {:induction false} FieldsQuiet(log: seq<Event>, e: Option<Event>)
    requires Quiet(e) || IsPiece(e, Field)
    ensures Fields(EmitOption(log, e)) == Fields(log)
  {
    if e.Some? {
      var ev := e.value;
      var out := Emit(log, ev);
      if ev.Data? && EndsIn(log, ev.element) {
        assert out[..|out| - 1] == log[..|log| - 1];
      } else {
        assert out[..|out| - 1] == log;
      }
    }
  }

  lemma {:induction false} FieldsNewValue(log: seq<Event>, v: string)
    requires EndsIn(log, Field)
    ensures Fields(Emit(log, Data(Value, v))) == Fields(log) + [(log[|log| - 1].bytes, v)]
  {
    var out := Emit(log, Data(Value, v));
    assert out[..|out| - 1] == log;
  }

  /** A value is being delivered: the log ends in a name and the value so far. */
  predicate InPair(log: seq<Event>) {
    EndsIn(log, Value) && EndsIn(log[..|log| - 1], Field)
  }

  lemma {:induction false} FieldsMoreValue(log: seq<Event>, v: string)
    requires InPair(log)
    ensures var out := Emit(log, Data(Value, v));
            InPair(out) && NameOf(out) == NameOf(log) && ValueOf(out) == ValueOf(log) + v && Closed(out) == Closed(log)
    ensures Fields(log) == Closed(log) + [(NameOf(log), ValueOf(log))]
  {
    var out := Emit(log, Data(Value, v));
    assert out[..|out| - 1] == log[..|log| - 1];
  }

  function NameOf(log: seq<Event>): string
    requires InPair(log)
  {
    log[|log| - 2].bytes
  }

  function ValueOf(log: seq<Event>): string
    requires InPair(log)
  {
    log[|log| - 1].bytes
  }

  /** The header fields before the one being delivered. */
  function Closed(log: seq<Event>): seq<(string, string)>
    requires InPair(log)
  {
    Fields(log[..|log| - 1])
  }

  // ---------- what the flags claim ----------

  /** Some Transfer-Encoding field has "chunked" as its last element. */
  predicate ChunkedSaid(fs: seq<(string, string)>) {
    exists i :: 0 <= i < |fs| && LowerToken(fs[i].0) == TRANSFER_ENCODING_NAME && EndsWithWord(fs[i].1, CHUNKED_WORD)
  }

  /** Some Connection (or Proxy-Connection) field has the word among its elements. */
  predicate WordSaid(fs: seq<(string, string)>, word: string) {
    exists i :: 0 <= i < |fs| && IsConnectionName(LowerToken(fs[i].0)) && HasWord(fs[i].1, word)
  }

  predicate FlagsSaid(f: Flags, fs: seq<(string, string)>) {
    (f.chunked ==> ChunkedSaid(fs)) && (f.keepAlive ==> WordSaid(fs, KEEP_ALIVE_WORD)) &&
    (f.close ==> WordSaid(fs, CLOSE_WORD)) && (f.connUpgrade ==> WordSaid(fs, UPGRADE_NAME))
  }

  /** While a value is open, only its closed elements count. */
  predicate FlagsSaidSoFar(f: Flags, fs: seq<(string, string)>, n: string, v: string) {
    (f.chunked ==> ChunkedSaid(fs)) &&
    (f.keepAlive ==> WordSaid(fs, KEEP_ALIVE_WORD) || (IsConnectionName(n) && ClosedWord(v, KEEP_ALIVE_WORD))) &&
    (f.close ==> WordSaid(fs, CLOSE_WORD) || (IsConnectionName(n) && ClosedWord(v, CLOSE_WORD))) &&
    (f.connUpgrade ==> WordSaid(fs, UPGRADE_NAME) || (IsConnectionName(n) && ClosedWord(v, UPGRADE_NAME)))
  }

  lemma ChunkedSaidMore(fs: seq<(string, string)>, n: string, v: string)
    ensures ChunkedSaid(fs) || (LowerToken(n) == TRANSFER_ENCODING_NAME && EndsWithWord(v, CHUNKED_WORD)) ==>
              ChunkedSaid(fs + [(n, v)])
  {
    var out := fs + [(n, v)];
    if ChunkedSaid(fs) {
      var i :| 0 <= i < |fs| && LowerToken(fs[i].0) == TRANSFER_ENCODING_NAME && EndsWithWord(fs[i].1, CHUNKED_WORD);
      assert out[i] == fs[i];
    }
    assert out[|fs|] == (n, v);
  }

  lemma WordSaidMore(fs: seq<(string, string)>, n: string, v: string, word: string)
    ensures WordSaid(fs, word) || (IsConnectionName(LowerToken(n)) && HasWord(v, word)) ==>
            WordSaid(fs + [(n, v)], word)
  {
    var out := fs + [(n, v)];
    if WordSaid(fs, word) {
      var i :| 0 <= i < |fs| && IsConnectionName(LowerToken(fs[i].0)) && HasWord(fs[i].1, word);
      assert out[i] == fs[i];
    }
    assert out[|fs|] == (n, v);
  }

  lemma FlagsSaidMore(f: Flags, fs: seq<(string, string)>, n: string, v: string)
    requires FlagsSaid(f, fs)
    ensures FlagsSaid(f, fs + [(n, v)])
  {
    ChunkedSaidMore(fs, n, v);
    WordSaidMore(fs, n, v, KEEP_ALIVE_WORD);
    WordSaidMore(fs, n, v, CLOSE_WORD);
    WordSaidMore(fs, n, v, UPGRADE_NAME);
  }

  /** The values of the Content-Length fields. */
  function LengthFields(fs: seq<(string, string)>): seq<string> {
    if fs == [] then []
    else
      var last := fs[|fs| - 1];
      LengthFields(fs[..|fs| - 1]) + (if LowerToken(last.0) == CONTENT_LENGTH_NAME then [last.1] else [])
  }

  lemma LengthFieldsSnoc(fs: seq<(string, string)>, n: string, v: string)
    ensures LengthFields(fs + [(n, v)]) ==
            LengthFields(fs) + (if LowerToken(n) == CONTENT_LENGTH_NAME then [v] else [])
  {
    assert (fs + [(n, v)])[..|fs|] == fs;
  }

  /** The content length is exact: it is the number in the only Content-Length field, or 2^64-1 if and only
      if there is none. */
  predicate LengthSaid(p: Parser, fs: seq<(string, string)>) {
    var ls := LengthFields(fs);
    if p.flags.contentLength then
      |ls| == 1 && Numeral(ls[0]) && p.contentLength == Decimal(TrimRight(ls[0])) && p.contentLength < ULLONG_MAX
    else ls == [] && p.contentLength == ULLONG_MAX
  }

  /** The same while the value of the field `n` is open. */
  predicate LengthSaidSoFar(p: Parser, fs: seq<(string, string)>, n: string) {
    if n == CONTENT_LENGTH_NAME
    then LengthFields(fs) == [] && p.flags.contentLength && p.contentLength < ULLONG_MAX
    else LengthSaid(p, fs)
  }

  // ---------- the invariant ----------

  predicate InMessage(s: State) {
    !s.Dead? && !s.StartReqOrRes? && !s.StartRes? && !s.StartReq?
  }

  /** The states of a message up to the end of its header section. */
  predicate LengthStage(s: State) {
    InMessage(s) && !BodyState(s)
  }

  ghost predicate Framed(c: Conf) {
    if NamedState(c.p.state) then
      EndsIn(c.log, Field) && Names(c.p.hstate, c.p.index, LowerToken(c.log[|c.log| - 1].bytes)) &&
      FlagsSaid(c.p.flags, Fields(c.log)) && (!c.p.flags.trailing ==> LengthSaid(c.p, Fields(c.log)))
    else if ValuedState(c.p.state) then
      InPair(c.log) && OpenValue(c.p, Closed(c.log), LowerToken(NameOf(c.log)), ValueOf(c.log))
    else
      InMessage(c.p.state) ==>
        FlagsSaid(c.p.flags, Fields(c.log)) &&
        (LengthStage(c.p.state) && !c.p.flags.trailing ==> LengthSaid(c.p, Fields(c.log)))
  }

  predicate OpenValue(p: Parser, fs: seq<(string, string)>, n: string, v: string) {
    Tells(p, n, v) && FlagsSaidSoFar(p.flags, fs, n, v) && (!p.flags.trailing ==> LengthSaidSoFar(p, fs, n))
  }

  // ---------- arms outside the header lines ----------

  /** The arm leaves the framing alone: a fresh message, nothing changed, or a later stage. */
  predicate Leaves(p: Parser, q: Parser, e: Option<Event>) {
    !NamedState(q.state) && !ValuedState(q.state) &&
    ((q.flags == NO_FLAGS && q.contentLength == ULLONG_MAX && (e == Some(MessageBegin) || q.state.StartReq?)) ||
     (q.flags == p.flags.(skipBody := q.flags.skipBody) && q.contentLength == p.contentLength && Quiet(e) &&
      (q.state == p.state || LengthStage(p.state))) ||
     (q.flags == p.flags.(trailing := q.flags.trailing, skipBody := q.flags.skipBody) && Quiet(e) &&
      InMessage(p.state) && (LengthStage(q.state) ==> q.flags.trailing)))
  }

  predicate LeavesFraming(p: Parser, r: Outcome) {
    r.Consume? || r.Again? || r.Upgraded? ==> Leaves(p, r.p, r.event)
  }

  lemma {:induction false} StartLeaves(p: Parser, ch: char)
    requires p.state.Dead? || p.state.StartReqOrRes? || p.state.StartRes? || p.state.StartReq?
    ensures LeavesFraming(p, StartArm(p, ch))
  {
  }

  lemma {:induction false} MethodLeaves(p: Parser, ch: char)
    requires LengthStage(p.state) && (p.state.ResOrRespH? || p.state.ReqMethod?)
    ensures LeavesFraming(p, StartArm(p, ch))
  {
  }

  predicate OutsideHeader(s: State) {
    !NamedState(s) && !ValuedState(s)
  }

  /** An arm that touches neither flags nor the length, before the header section. */
  lemma UntouchedLeaves(p: Parser, q: Parser, e: Option<Event>)
    requires LengthStage(p.state) && OutsideHeader(q.state) && Quiet(e)
    requires q.flags == p.flags && q.contentLength == p.contentLength
    ensures Leaves(p, q, e)
  {
  }

  lemma StartLineOutside(s: State)
    requires StatusLeadState(s) || StatusTextState(s) || VersionState(s) || UrlState(s) || s.HeaderFieldStart?
    ensures OutsideHeader(s)
  {
  }

  lemma {:induction false} StatusLineLeaves(p: Parser, ch: char)
    requires LengthStage(p.state) && StatusLineState(p.state)
    ensures LeavesFraming(p, StatusLineArm(p, ch))
  {
    var r := StatusLineArm(p, ch);
    StatusLineTouches(p, ch);
    StatusLineNext(p, ch);
    if GoesOn(r) {
      StartLineOutside(r.p.state);
      UntouchedLeaves(p, r.p, r.event);
    }
  }

  lemma {:induction false} UrlByteLeaves(p: Parser, from: State, ch: char)
    requires LengthStage(p.state)
    ensures LeavesFraming(p, UrlByte(p, from, ch))
  {
    var r := UrlByte(p, from, ch);
    UrlWalkStays(from, ch);
    if r.Consume? {
      StartLineOutside(r.p.state);
      UntouchedLeaves(p, r.p, r.event);
    }
  }

  lemma {:induction false} VersionLeaves(p: Parser, ch: char)
    requires LengthStage(p.state) && VersionState(p.state)
    ensures LeavesFraming(p, RequestVersionArm(p, ch))
  {
    var r := RequestVersionArm(p, ch);
    VersionTouches(p, ch);
    VersionNext(p, ch);
    if r.Consume? {
      StartLineOutside(r.p.state);
      UntouchedLeaves(p, r.p, r.event);
    }
  }

  lemma {:induction false} UrlLeaves(p: Parser, ch: char)
    requires LengthStage(p.state) && UrlState(p.state)
    ensures LeavesFraming(p, UrlArm(p, ch))
  {
    var r := UrlArm(p, ch);
    UrlByteOrEnd(p, ch);
    UrlByteLeaves(p, p.state, ch);
    if r.Consume? && r != UrlByte(p, p.state, ch) {
      StartLineOutside(r.p.state);
      UntouchedLeaves(p, r.p, r.event);
    }
  }

  lemma {:induction false} RequestLineLeaves(p: Parser, ch: char)
    requires LengthStage(p.state) && RequestLineState(p.state)
    ensures LeavesFraming(p, RequestLineArm(p, ch))
  {
    if p.state.ReqSpacesBeforeUrl? {
      UrlByteLeaves(p, if p.line.verb == CONNECT then ReqServerStart else p.state, ch);
    } else if UrlState(p.state) {
      UrlLeaves(p, ch);
    } else {
      VersionIsRest(p.state);
      VersionLeaves(p, ch);
    }
  }

  lemma {:induction false} HeadersAlmostDoneLeaves(s: Settings, p: Parser, ch: char, answer: int)
    requires p.state.HeadersAlmostDone?
    ensures LeavesFraming(p, HeadersAlmostDoneArm(s, p, ch, answer))
  {
  }

  lemma {:induction false} HeadersDoneLeaves(s: Settings, p: Parser, ch: char)
    requires p.state.HeadersDone?
    ensures LeavesFraming(p, HeadersDoneArm(s, p, ch))
  {
    HeadersDoneNext(s, p, ch);
  }

  lemma {:induction false} BodyOutside(p: Parser, ch: char)
    ensures var r := BodyArm(p, ch);
            r.Consume? || r.Again? || r.Upgraded? ==>
              OutsideHeader(r.p.state) && (LengthStage(r.p.state) ==> r.p.flags.trailing)
  {
  }

  lemma {:induction false} BodyLeaves(p: Parser, ch: char)
    requires InMessage(p.state)
    ensures LeavesFraming(p, BodyArm(p, ch))
  {
    BodyOutside(p, ch);
    BodyTouches(p, ch);
  }

  lemma {:induction false} StageOfSections(s: State)
    ensures StatusLineState(s) || s.ResOrRespH? || s.ReqMethod? ==> LengthStage(s)
    ensures RequestLineState(s) ==> LengthStage(s)
    ensures BodyState(s) ==> InMessage(s)
  {
  }

  lemma {:induction false} ArmLeaves(s: Settings, p: Parser, ch: char, answer: int)
    requires !HeaderState(p.state)
    ensures LeavesFraming(p, Arm(s, p, ch, answer))
  {
    StageOfSections(p.state);
    if p.state.ResOrRespH? || p.state.ReqMethod? {
      MethodLeaves(p, ch);
    } else if StartState(p.state) {
      StartLeaves(p, ch);
    } else if StatusLineState(p.state) {
      StatusLineLeaves(p, ch);
    } else if p.state.HeadersAlmostDone? {
      HeadersAlmostDoneLeaves(s, p, ch, answer);
    } else if p.state.HeadersDone? {
      HeadersDoneLeaves(s, p, ch);
    } else if BodyState(p.state) {
      BodyLeaves(p, ch);
    } else {
      RequestLineLeaves(p, ch);
    }
  }

  /** A fresh message has no header fields. */
  lemma BeginFields(log: seq<Event>)
    ensures Fields(Emit(log, MessageBegin)) == []
  {
  }

  lemma {:induction false} LeavesFramed(c: Conf, q: Parser, e: Option<Event>, nread: nat)
    requires Framed(c) && !NamedState(c.p.state) && !ValuedState(c.p.state) && Leaves(c.p, q, e)
    ensures Framed(Conf(q, nread, EmitOption(c.log, e)))
  {
    if e == Some(MessageBegin) {
      BeginFields(c.log);
    } else if Quiet(e) {
      FieldsQuiet(c.log, e);
    }
  }
}
