/** Which texts are URLs for http_parser_parse_url, and which part of a text each field is, said without the byte walk:
    a URL is put together from its parts, and every accepted text is put together in that way. */
module UrlGrammar {
  import opened Options
  import opened Sequences
  import opened HttpBytes
  import opened HttpHeaderText
  import opened HttpParserTypes
  import opened HttpParserArms
  import opened UrlParser

  // ---------- the parts of a URL ----------

  /** The parts between the delimiters; `mark` is the text between scheme and server, `asks` says that there is a
      question mark, and `hashes` are the number signs in front of the fragment. */
  datatype Parts = Parts(scheme: string, mark: string, server: string, path: string, asks: bool, query: string,
                     hashes: string, fragment: string)

  const EMPTY := Parts("", "", "", "", false, "", "", "")
  const MARK := "://"

  function UpToServer(x: Parts): string {
    x.scheme + x.mark + x.server
  }

  function UpToQuery(x: Parts): string {
    UpToServer(x) + x.path + (if x.asks then "?" else "") + x.query
  }

  function Text(x: Parts): string {
    UpToQuery(x) + x.hashes + x.fragment
  }

  predicate AllAlpha(t: string) {
    forall i :: 0 <= i < |t| ==> IsAlpha(t[i])
  }

  predicate IsServerChar(c: char) {
    IsUserInfoChar(c) || c == '[' || c == ']' || c == '@'
  }

  predicate ServerText(t: string) {
    (forall i :: 0 <= i < |t| ==> IsServerChar(t[i])) &&
    forall i :: 0 < i < |t| ==> !(t[i - 1] == '@' && t[i] == '@')
  }

  predicate PathText(t: string) {
    forall i :: 0 <= i < |t| ==> IsUrlChar(t[i])
  }

  predicate QueryText(t: string) {
    forall i :: 0 <= i < |t| ==> IsUrlChar(t[i]) || t[i] == '?'
  }

  predicate AllHashes(t: string) {
    forall i :: 0 <= i < |t| ==> t[i] == '#'
  }

  predicate FragmentText(t: string) {
    (forall i :: 0 <= i < |t| ==> IsUrlChar(t[i]) || t[i] == '?' || t[i] == '#') && (t != "" ==> t[0] != '#')
  }

  /** The server of an absolute URL, or of the target of a CONNECT request. */
  predicate MayHaveServer(x: Parts, isConnect: bool) {
    isConnect || x.mark == MARK
  }

  predicate Started(x: Parts) {
    x.path != "" || x.asks
  }

  /** The parts are made of the characters that belong there. */
  predicate RightCharacters(x: Parts) {
    AllAlpha(x.scheme) && ServerText(x.server) && PathText(x.path) && QueryText(x.query) && AllHashes(x.hashes) &&
    FragmentText(x.fragment)
  }

  /** Each part has what must stand before it. */
  predicate InPlace(x: Parts, isConnect: bool) {
    x.mark <= MARK && (x.mark != "" ==> x.scheme != "") && (isConnect ==> x.scheme == "") &&
    (x.server != "" ==> MayHaveServer(x, isConnect)) &&
    (x.path != "" ==>
       if MayHaveServer(x, isConnect) then x.path[0] == '/'
       else x.scheme == "" && (x.path[0] == '/' || x.path[0] == '*')) &&
    (x.asks ==> MayHaveServer(x, isConnect) || x.path != "") &&
    (x.query != "" ==> x.asks) && (x.hashes != "" ==> Started(x)) && (x.fragment != "" ==> x.hashes != "")
  }

  predicate WellMade(x: Parts, isConnect: bool) {
    RightCharacters(x) && InPlace(x, isConnect)
  }

  /** Where a part begins. */
  function SpanFor(x: Parts, f: UrlField): Option<Span> {
    match f
    case Schema => Piece("", x.scheme)
    case Host => Piece(x.scheme + x.mark, x.server)
    case Path => Piece(UpToServer(x), x.path)
    case Query => Piece(UpToServer(x) + x.path + (if x.asks then "?" else ""), x.query)
    case Fragment => Piece(UpToQuery(x) + x.hashes, x.fragment)
    case _ => None
  }

  /** A part that is not empty, behind some text. */
  function Piece(before: string, part: string): Option<Span> {
    if part == "" then None else Some(Span(|before|, |part|))
  }

  /** The fields are exactly the parts that are not empty. */
  predicate Holds(u: Fields, x: Parts) {
    forall f :: HoldsAt(u, x, f)
  }

  predicate HoldsAt(u: Fields, x: Parts, f: UrlField) {
    if f in u then SpanFor(x, f) == Some(u[f]) else SpanFor(x, f) == None
  }

  // ---------- the walk, part by part ----------

  /** The state of the walker behind the parts. */
  function StateFor(x: Parts, isConnect: bool): State {
    if x.fragment != "" then ReqFragment
    else if x.hashes != "" then ReqFragmentStart
    else if x.query != "" then ReqQueryString
    else if x.asks then ReqQueryStringStart
    else if x.path != "" then ReqPath
    else if x.server != "" then if x.server[|x.server| - 1] == '@' then ReqServerWithAt else ReqServer
    else if isConnect || x.mark == MARK then ReqServerStart
    else if |x.mark| == 2 then ReqSchemaSlashSlash
    else if |x.mark| == 1 then ReqSchemaSlash
    else if x.scheme != "" then ReqSchema
    else ReqSpacesBeforeUrl
  }

  function LastFor(x: Parts): Option<UrlField> {
    if x.fragment != "" then Some(Fragment)
    else if x.query != "" then Some(Query)
    else if x.path != "" then Some(Path)
    else if x.server != "" then Some(Host)
    else if x.scheme != "" then Some(Schema)
    else None
  }

  /** The parts with one more byte, which has brought the walker into `t`. */
  function Add(x: Parts, ch: char, t: State): Parts {
    if t.ReqSchema? then x.(scheme := x.scheme + [ch])
    else if t.ReqSchemaSlash? || t.ReqSchemaSlashSlash? || t.ReqServerStart? then x.(mark := x.mark + [ch])
    else if t.ReqServer? || t.ReqServerWithAt? then x.(server := x.server + [ch])
    else if t.ReqPath? then x.(path := x.path + [ch])
    else if t.ReqQueryStringStart? then x.(asks := true)
    else if t.ReqQueryString? then x.(query := x.query + [ch])
    else if t.ReqFragmentStart? then x.(hashes := x.hashes + [ch])
    else x.(fragment := x.fragment + [ch])
  }

  lemma MarkParts()
    ensures MARK[..1] == ":" && MARK[..2] == ":/" && MARK[..3] == "://"
    ensures |MARK| == 3 && MARK[0] == ':' && MARK[1] == '/' && MARK[2] == '/'
  {
  }

  /** The part in which the walker is. */
  function Stage(s: State): int {
    if s.ReqSchema? then 0
    else if s.ReqSchemaSlash? || s.ReqSchemaSlashSlash? || s.ReqServerStart? then 1
    else if s.ReqServer? || s.ReqServerWithAt? then 2
    else if s.ReqPath? then 3
    else if s.ReqQueryStringStart? then 4
    else if s.ReqQueryString? then 5
    else if s.ReqFragmentStart? then 6
    else if s.ReqFragment? then 7
    else -1
  }

  /** The parts behind a stage are empty. */
  predicate EmptyBehind(x: Parts, n: int) {
    (n < 0 ==> x.scheme == "") && (n < 1 ==> x.mark == "") && (n < 2 ==> x.server == "") && (n < 3 ==> x.path == "") &&
    (n < 4 ==> !x.asks) && (n < 5 ==> x.query == "") && (n < 6 ==> x.hashes == "") && (n < 7 ==> x.fragment == "")
  }

  lemma BehindIsEmpty(x: Parts, isConnect: bool)
    requires WellMade(x, isConnect)
    ensures EmptyBehind(x, Stage(StateFor(x, isConnect)))
  {
    MarkParts();
  }

  lemma StageGrows(s: State, ch: char)
    requires (s.ReqSpacesBeforeUrl? || UrlState(s)) && ParseUrlChar(s, ch) != Dead
    ensures var t := ParseUrlChar(s, ch);
            UrlState(t) && Stage(s) <= Stage(t) && (t.ReqQueryStringStart? ==> ch == '?' && Stage(s) < 4)
  {
    match s
    case ReqServerStart => case ReqServer => case ReqServerWithAt => case ReqPath =>
    case ReqSchema => case ReqSchemaSlash => case ReqSchemaSlashSlash =>
    case _ =>
  }

  /** The text with one more byte in the part at its end. */
  lemma TextGrows(x: Parts, ch: char, t: State)
    requires UrlState(t) && EmptyBehind(x, Stage(t)) && (t.ReqQueryStringStart? ==> ch == '?' && !x.asks)
    ensures Text(Add(x, ch, t)) == Text(x) + [ch]
  {
    if Stage(t) <= 2 {
      ServerTextGrown(x, ch, t);
    } else if Stage(t) <= 5 {
      QueryTextGrown(x, ch, t);
    }
  }

  lemma ServerTextGrown(x: Parts, ch: char, t: State)
    requires 0 <= Stage(t) <= 2 && EmptyBehind(x, Stage(t))
    ensures Text(Add(x, ch, t)) == Text(x) + [ch]
  {
    var y := Add(x, ch, t);
    assert Text(x) == UpToServer(x) && Text(y) == UpToServer(y);
  }

  lemma QueryTextGrown(x: Parts, ch: char, t: State)
    requires 3 <= Stage(t) <= 5 && EmptyBehind(x, Stage(t)) && (t.ReqQueryStringStart? ==> ch == '?' && !x.asks)
    ensures Text(Add(x, ch, t)) == Text(x) + [ch]
  {
    var y := Add(x, ch, t);
    assert Text(x) == UpToQuery(x) && Text(y) == UpToQuery(y) && UpToServer(y) == UpToServer(x);
  }

  // ---------- one more byte ----------

  lemma TextsGrow(t: string, ch: char)
    ensures AllAlpha(t) && IsAlpha(ch) ==> AllAlpha(t + [ch])
    ensures PathText(t) && IsUrlChar(ch) ==> PathText(t + [ch])
    ensures QueryText(t) && (IsUrlChar(ch) || ch == '?') ==> QueryText(t + [ch])
    ensures AllHashes(t) && ch == '#' ==> AllHashes(t + [ch])
  {
  }

  lemma FragmentGrows(t: string, ch: char)
    requires FragmentText(t) && (IsUrlChar(ch) || ch == '?' || (ch == '#' && t != ""))
    ensures FragmentText(t + [ch])
  {
  }

  lemma ServerTextGrows(t: string, ch: char)
    requires ServerText(t) && IsServerChar(ch) && (t != "" && t[|t| - 1] == '@' ==> ch != '@')
    ensures ServerText(t + [ch])
  {
  }

  /** The parts with one more byte are well made again, and the walker stands where it should. */
  predicate Grows(x: Parts, isConnect: bool, ch: char, t: State) {
    WellMade(Add(x, ch, t), isConnect) && StateFor(Add(x, ch, t), isConnect) == t
  }

  lemma SchemeGrows(x: Parts, isConnect: bool, ch: char)
    requires WellMade(x, isConnect)
    requires var s := StateFor(x, isConnect);
             s.ReqSpacesBeforeUrl? || s.ReqSchema? || s.ReqSchemaSlash? || s.ReqSchemaSlashSlash?
    requires ParseUrlChar(StateFor(x, isConnect), ch) != Dead
    ensures Grows(x, isConnect, ch, ParseUrlChar(StateFor(x, isConnect), ch))
  {
    BehindIsEmpty(x, isConnect);
    MarkParts();
  }

  lemma ServerByteGrows(x: Parts, isConnect: bool, ch: char)
    requires WellMade(x, isConnect) && EmptyBehind(x, 2) && MayHaveServer(x, isConnect) && IsServerChar(ch)
    requires x.server != "" && x.server[|x.server| - 1] == '@' ==> ch != '@'
    ensures Grows(x, isConnect, ch, if ch == '@' then ReqServerWithAt else ReqServer)
  {
    ServerTextGrows(x.server, ch);
  }

  /** A byte that begins the path or the query behind the server. */
  lemma ServerEndGrows(x: Parts, isConnect: bool, ch: char)
    requires WellMade(x, isConnect) && EmptyBehind(x, 2) && MayHaveServer(x, isConnect) && (ch == '/' || ch == '?')
    ensures Grows(x, isConnect, ch, if ch == '/' then ReqPath else ReqQueryStringStart)
  {
  }

  lemma ServerWalk(s: State, ch: char)
    requires (s.ReqServerStart? || s.ReqServer? || s.ReqServerWithAt?) && ParseUrlChar(s, ch) != Dead
    ensures s.ReqServerWithAt? ==> ch != '@'
    ensures ParseUrlChar(s, ch) ==
            if ch == '/' then ReqPath else if ch == '?' then ReqQueryStringStart
            else if ch == '@' then ReqServerWithAt else ReqServer
    ensures ch != '/' && ch != '?' ==> IsServerChar(ch)
  {
  }

  lemma ServerGrows(x: Parts, isConnect: bool, ch: char)
    requires WellMade(x, isConnect)
    requires var s := StateFor(x, isConnect); s.ReqServerStart? || s.ReqServer? || s.ReqServerWithAt?
    requires ParseUrlChar(StateFor(x, isConnect), ch) != Dead
    ensures Grows(x, isConnect, ch, ParseUrlChar(StateFor(x, isConnect), ch))
  {
    ServerWalk(StateFor(x, isConnect), ch);
    assert EmptyBehind(x, 2) by { BehindIsEmpty(x, isConnect); }
    assert MayHaveServer(x, isConnect);
    if ch == '/' || ch == '?' {
      ServerEndGrows(x, isConnect, ch);
    } else {
      ServerByteGrows(x, isConnect, ch);
    }
  }

  lemma PathGrows(x: Parts, isConnect: bool, ch: char)
    requires WellMade(x, isConnect) && StateFor(x, isConnect).ReqPath?
    requires ParseUrlChar(ReqPath, ch) != Dead
    ensures Grows(x, isConnect, ch, ParseUrlChar(ReqPath, ch))
  {
    BehindIsEmpty(x, isConnect);
    if IsUrlChar(ch) {
      MorePath(x, isConnect, ch);
    } else {
      PathEnds(x, isConnect, ch);
    }
  }

  lemma MorePath(x: Parts, isConnect: bool, ch: char)
    requires WellMade(x, isConnect) && x.path != "" && EmptyBehind(x, 3) && IsUrlChar(ch)
    ensures Grows(x, isConnect, ch, ReqPath)
  {
    TextsGrow(x.path, ch);
  }

  lemma PathEnds(x: Parts, isConnect: bool, ch: char)
    requires WellMade(x, isConnect) && x.path != "" && EmptyBehind(x, 3) && (ch == '?' || ch == '#')
    ensures Grows(x, isConnect, ch, if ch == '?' then ReqQueryStringStart else ReqFragmentStart)
  {
  }

  lemma QueryGrows(x: Parts, isConnect: bool, ch: char)
    requires WellMade(x, isConnect)
    requires StateFor(x, isConnect).ReqQueryStringStart? || StateFor(x, isConnect).ReqQueryString?
    requires ParseUrlChar(StateFor(x, isConnect), ch) != Dead
    ensures Grows(x, isConnect, ch, ParseUrlChar(StateFor(x, isConnect), ch))
  {
    BehindIsEmpty(x, isConnect);
    if ch == '#' {
      QueryEnds(x, isConnect);
    } else {
      assert ParseUrlChar(StateFor(x, isConnect), ch) == ReqQueryString;
      MoreQuery(x, isConnect, ch);
    }
  }

  lemma MoreQuery(x: Parts, isConnect: bool, ch: char)
    requires WellMade(x, isConnect) && x.asks && EmptyBehind(x, 5) && (IsUrlChar(ch) || ch == '?')
    ensures Grows(x, isConnect, ch, ReqQueryString)
  {
    TextsGrow(x.query, ch);
  }

  lemma QueryEnds(x: Parts, isConnect: bool)
    requires WellMade(x, isConnect) && x.asks && EmptyBehind(x, 5)
    ensures Grows(x, isConnect, '#', ReqFragmentStart)
  {
  }

  lemma MoreHashes(x: Parts, isConnect: bool)
    requires WellMade(x, isConnect) && x.hashes != "" && x.fragment == ""
    ensures Grows(x, isConnect, '#', ReqFragmentStart)
  {
    TextsGrow(x.hashes, '#');
  }

  lemma MoreFragment(x: Parts, isConnect: bool, ch: char)
    requires WellMade(x, isConnect) && x.hashes != ""
    requires IsUrlChar(ch) || ch == '?' || (ch == '#' && x.fragment != "")
    ensures Grows(x, isConnect, ch, ReqFragment)
  {
    FragmentGrows(x.fragment, ch);
  }

  lemma HashGrows(x: Parts, isConnect: bool, ch: char)
    requires WellMade(x, isConnect)
    requires StateFor(x, isConnect).ReqFragmentStart? || StateFor(x, isConnect).ReqFragment?
    requires ParseUrlChar(StateFor(x, isConnect), ch) != Dead
    ensures Grows(x, isConnect, ch, ParseUrlChar(StateFor(x, isConnect), ch))
  {
    var s := StateFor(x, isConnect);
    BehindIsEmpty(x, isConnect);
    if s.ReqFragmentStart? && ch == '#' {
      MoreHashes(x, isConnect);
    } else {
      assert ParseUrlChar(s, ch) == ReqFragment;
      MoreFragment(x, isConnect, ch);
    }
  }

  /** Whatever byte the walker accepts belongs to the part at the end, or begins the next one. */
  lemma {:induction false} AnyGrows(x: Parts, isConnect: bool, ch: char)
    requires WellMade(x, isConnect) && ParseUrlChar(StateFor(x, isConnect), ch) != Dead
    ensures var t := ParseUrlChar(StateFor(x, isConnect), ch);
            Grows(x, isConnect, ch, t)
  {
    var s := StateFor(x, isConnect);
    match Stage(s)
    case -1 => SchemeGrows(x, isConnect, ch);
    case 0 => SchemeGrows(x, isConnect, ch);
    case 1 => if s.ReqServerStart? { ServerGrows(x, isConnect, ch); } else { SchemeGrows(x, isConnect, ch); }
    case 2 => ServerGrows(x, isConnect, ch);
    case 3 => PathGrows(x, isConnect, ch);
    case 4 => QueryGrows(x, isConnect, ch);
    case 5 => QueryGrows(x, isConnect, ch);
    case 6 => HashGrows(x, isConnect, ch);
    case 7 => HashGrows(x, isConnect, ch);
  }

  // ---------- the fields ----------

  /** What a walk over the first bytes has come to is told by the parts of those bytes. */
  ghost predicate WalkedTo(x: Parts, isConnect: bool, buf: string, n: nat)
    requires n <= |buf|
  {
    Stands(x, isConnect, buf, n) && Holds(FirstFields(isConnect, buf, n), x)
  }

  predicate Stands(x: Parts, isConnect: bool, buf: string, n: nat)
    requires n <= |buf|
  {
    WellMade(x, isConnect) && Text(x) == buf[..n] && StateOf(isConnect, buf, n) == StateFor(x, isConnect) &&
    LastOf(isConnect, buf, n) == LastFor(x) && (FoundAt(isConnect, buf, n) <==> '@' in x.server)
  }

  lemma LastGrows(x: Parts, ch: char, t: State)
    requires UrlState(t) && EmptyBehind(x, Stage(t))
    ensures LastFor(Add(x, ch, t)) == NextLast(LastFor(x), t)
  {
  }

  /** The fields that do not get the byte. */
  lemma OtherSpans(x: Parts, ch: char, t: State, f: UrlField)
    requires UrlState(t) && EmptyBehind(x, Stage(t)) && FieldOf(t) != Some(f)
    ensures SpanFor(Add(x, ch, t), f) == SpanFor(x, f)
  {
  }

  /** The field that gets it. */
  lemma GrownSpan(x: Parts, ch: char, t: State, f: UrlField)
    requires UrlState(t) && EmptyBehind(x, Stage(t)) && FieldOf(t) == Some(f)
    ensures SpanFor(Add(x, ch, t), f) ==
            match SpanFor(x, f)
            case None => Some(Span(|Text(x)|, 1))
            case Some(sp) => Some(Span(sp.off, sp.len + 1))
    ensures SpanFor(x, f).Some? ==> LastFor(x) == Some(f) && End(SpanFor(x, f).value) == |Text(x)|
  {
  }

  lemma {:induction false} HoldsGrows(u: Fields, x: Parts, ch: char, t: State)
    requires UrlState(t) && EmptyBehind(x, Stage(t)) && Holds(u, x) && |Text(x)| < 0xFFFF
    ensures Holds(EnterFields(u, LastFor(x), t, |Text(x)|), Add(x, ch, t))
  {
    var v, y := EnterFields(u, LastFor(x), t, |Text(x)|), Add(x, ch, t);
    forall f ensures HoldsAt(v, y, f) {
      assert HoldsAt(u, x, f);
      if FieldOf(t) == Some(f) {
        GrownSpan(x, ch, t, f);
      } else {
        OtherSpans(x, ch, t, f);
      }
    }
  }

  // ---------- every accepted text is made of parts ----------

  lemma {:induction false} WalkGrows(x: Parts, isConnect: bool, buf: string, n: nat)
    requires n < |buf| <= 0xFFFF && WalkedTo(x, isConnect, buf, n)
    requires ParseUrlChar(StateFor(x, isConnect), buf[n]) != Dead
    ensures WalkedTo(Add(x, buf[n], ParseUrlChar(StateFor(x, isConnect), buf[n])), isConnect, buf, n + 1)
  {
    var s, ch := StateFor(x, isConnect), buf[n];
    StageGrows(s, ch);
    BehindIsEmpty(x, isConnect);
    FieldsGrow(x, isConnect, buf, n, ParseUrlChar(s, ch));
    StandsGrows(x, isConnect, buf, n, ParseUrlChar(s, ch));
  }

  lemma {:induction false} StandsGrows(x: Parts, isConnect: bool, buf: string, n: nat, t: State)
    requires n < |buf| && Stands(x, isConnect, buf, n) && UrlState(t) && EmptyBehind(x, Stage(t))
    requires t == ParseUrlChar(StateFor(x, isConnect), buf[n])
    ensures Stands(Add(x, buf[n], t), isConnect, buf, n + 1)
  {
    var s, ch, y := StateFor(x, isConnect), buf[n], Add(x, buf[n], t);
    StageGrows(s, ch);
    assert WellMade(y, isConnect) && StateFor(y, isConnect) == t by { AnyGrows(x, isConnect, ch); }
    assert Text(y) == buf[..n + 1] by { TextStands(x, buf, n, t, n + 1); }
    assert LastFor(y) == NextLast(LastFor(x), t) by { LastGrows(x, ch, t); }
    assert '@' in y.server <==> '@' in x.server || t.ReqServerWithAt? by { AtGrows(x, ch, s); }
    WalkStep(isConnect, buf, n);
  }

  lemma TextStands(x: Parts, buf: string, m: nat, t: State, n: nat)
    requires m < n == m + 1 <= |buf| && Text(x) == buf[..m] && UrlState(t) && EmptyBehind(x, Stage(t))
    requires t.ReqQueryStringStart? ==> buf[m] == '?' && !x.asks
    ensures Text(Add(x, buf[m], t)) == buf[..n]
  {
    TextGrows(x, buf[m], t);
    assert buf[..n] == buf[..m] + [buf[m]];
  }

  lemma {:induction false} FieldsGrow(x: Parts, isConnect: bool, buf: string, n: nat, t: State)
    requires n < |buf| <= 0xFFFF && WalkedTo(x, isConnect, buf, n) && UrlState(t) && EmptyBehind(x, Stage(t))
    requires t == ParseUrlChar(StateFor(x, isConnect), buf[n])
    ensures Holds(FirstFields(isConnect, buf, n + 1), Add(x, buf[n], t))
  {
    HoldsGrows(FirstFields(isConnect, buf, n), x, buf[n], t);
    WalkStep(isConnect, buf, n);
  }

  lemma AtGrows(x: Parts, ch: char, s: State)
    requires ParseUrlChar(s, ch) != Dead
    ensures var t := ParseUrlChar(s, ch);
            '@' in Add(x, ch, t).server <==> '@' in x.server || t.ReqServerWithAt?
  {
    AtWalk(s, ch);
  }

  lemma AtWalk(s: State, ch: char)
    requires ParseUrlChar(s, ch) != Dead
    ensures ParseUrlChar(s, ch).ReqServerWithAt? ==> ch == '@'
    ensures ParseUrlChar(s, ch).ReqServer? ==> ch != '@'
  {
  }

  lemma NothingWalked(isConnect: bool, buf: string)
    ensures WalkedTo(EMPTY, isConnect, buf, 0)
  {
    assert forall f :: HoldsAt(map[], EMPTY, f);
  }

  lemma {:induction false} PartsMore(w: Parts, isConnect: bool, buf: string, m: nat, n: nat) returns (x: Parts)
    requires n == m + 1 <= |buf| && Stands(w, isConnect, buf, m) && StateOf(isConnect, buf, n) != Dead
    ensures Stands(x, isConnect, buf, n)
  {
    var s, t := StateFor(w, isConnect), ParseUrlChar(StateFor(w, isConnect), buf[m]);
    assert StateOf(isConnect, buf, n) == t by { WalkStep(isConnect, buf, m); }
    StageGrows(s, buf[m]);
    BehindIsEmpty(w, isConnect);
    StandsGrows(w, isConnect, buf, m, t);
    x := Add(w, buf[m], t);
  }

  lemma NothingMade(isConnect: bool, buf: string) returns (x: Parts)
    ensures Stands(x, isConnect, buf, 0)
  {
    x := EMPTY;
    NothingWalked(isConnect, buf);
  }

  /** What the walk has gone over is made of parts. */
  lemma {:induction false} PartsOf(isConnect: bool, buf: string, n: nat) returns (x: Parts)
    requires n <= |buf| && StateOf(isConnect, buf, n) != Dead
    ensures Stands(x, isConnect, buf, n)
    decreases n
  {
    if n == 0 {
      x := NothingMade(isConnect, buf);
    } else {
      var m := n - 1;
      AliveBefore(isConnect, buf, m, n);
      var w := PartsOf(isConnect, buf, m);
      x := PartsMore(w, isConnect, buf, m, n);
    }
  }

  // ---------- and every text made of parts is walked over ----------

  /** The parts without the last byte. */
  function Drop(x: Parts): Parts {
    if x.fragment != "" then x.(fragment := ButLast(x.fragment))
    else if x.hashes != "" then x.(hashes := ButLast(x.hashes))
    else if x.query != "" then x.(query := ButLast(x.query))
    else if x.asks then x.(asks := false)
    else if x.path != "" then x.(path := ButLast(x.path))
    else if x.server != "" then x.(server := ButLast(x.server))
    else if x.mark != "" then x.(mark := ButLast(x.mark))
    else if x.scheme != "" then x.(scheme := ButLast(x.scheme))
    else x
  }

  function Dropped(x: Parts): char {
    if x.fragment != "" then LastChar(x.fragment)
    else if x.hashes != "" then LastChar(x.hashes)
    else if x.query != "" then LastChar(x.query)
    else if x.asks then '?'
    else if x.path != "" then LastChar(x.path)
    else if x.server != "" then LastChar(x.server)
    else if x.mark != "" then LastChar(x.mark)
    else if x.scheme != "" then LastChar(x.scheme)
    else NUL
  }

  /** Dropping the last byte undoes adding it. */
  predicate Undone(x: Parts, isConnect: bool) {
    WellMade(Drop(x), isConnect) && ParseUrlChar(StateFor(Drop(x), isConnect), Dropped(x)) == StateFor(x, isConnect) &&
    Add(Drop(x), Dropped(x), StateFor(x, isConnect)) == x && StateFor(x, isConnect) != Dead
  }

  lemma FrontAndBack(t: string)
    requires t != ""
    ensures ButLast(t) + [LastChar(t)] == t
    ensures AllAlpha(t) ==> AllAlpha(ButLast(t)) && IsAlpha(LastChar(t))
    ensures PathText(t) ==> PathText(ButLast(t)) && IsUrlChar(LastChar(t))
    ensures QueryText(t) ==> QueryText(ButLast(t)) && (IsUrlChar(LastChar(t)) || LastChar(t) == '?')
    ensures AllHashes(t) ==> AllHashes(ButLast(t)) && LastChar(t) == '#'
  {
  }

  lemma FragmentFront(t: string)
    requires t != "" && FragmentText(t)
    ensures FragmentText(ButLast(t)) && ButLast(t) + [LastChar(t)] == t
    ensures IsUrlChar(LastChar(t)) || LastChar(t) == '?' || (LastChar(t) == '#' && ButLast(t) != "")
  {
  }

  lemma ServerFront(t: string)
    requires t != "" && ServerText(t)
    ensures ServerText(ButLast(t)) && ButLast(t) + [LastChar(t)] == t && IsServerChar(LastChar(t))
    ensures ButLast(t) != "" && LastChar(ButLast(t)) == '@' ==> LastChar(t) != '@'
  {
  }

  lemma DropFragment(x: Parts, isConnect: bool)
    requires WellMade(x, isConnect) && x.fragment != ""
    ensures Undone(x, isConnect)
  {
    var w, ch := Drop(x), Dropped(x);
    FragmentFront(x.fragment);
    assert RightCharacters(w) && InPlace(w, isConnect);
    FragmentWalk(w, isConnect, ch);
  }

  lemma FragmentWalk(w: Parts, isConnect: bool, ch: char)
    requires w.hashes != "" && (IsUrlChar(ch) || ch == '?' || (ch == '#' && w.fragment != ""))
    ensures ParseUrlChar(StateFor(w, isConnect), ch) == ReqFragment
  {
  }

  lemma DropHash(x: Parts, isConnect: bool)
    requires WellMade(x, isConnect) && x.hashes != "" && EmptyBehind(x, 6)
    ensures Undone(x, isConnect)
  {
    var w := Drop(x);
    assert RightCharacters(w) && Dropped(x) == '#' && w.hashes + ['#'] == x.hashes by { FrontAndBack(x.hashes); }
    assert InPlace(w, isConnect);
    HashWalk(StateFor(w, isConnect));
  }

  lemma HashWalk(s: State)
    ensures s.ReqPath? || s.ReqQueryStringStart? || s.ReqQueryString? || s.ReqFragmentStart? ==>
              ParseUrlChar(s, '#') == ReqFragmentStart
  {
  }

  lemma DropQueryByte(x: Parts, isConnect: bool)
    requires WellMade(x, isConnect) && x.query != "" && EmptyBehind(x, 5)
    ensures Undone(x, isConnect)
  {
    var w, ch := Drop(x), Dropped(x);
    assert RightCharacters(w) && (IsUrlChar(ch) || ch == '?') && w.query + [ch] == x.query by { FrontAndBack(x.query); }
    QueryDropped(x, w, isConnect, ch);
  }

  lemma QueryDropped(x: Parts, w: Parts, isConnect: bool, ch: char)
    requires InPlace(x, isConnect) && x.query != "" && EmptyBehind(x, 5) && w == x.(query := w.query)
    requires w.query + [ch] == x.query && (IsUrlChar(ch) || ch == '?')
    ensures InPlace(w, isConnect)
    ensures ParseUrlChar(StateFor(w, isConnect), ch) == StateFor(x, isConnect) == ReqQueryString
  {
    QueryWalk(StateFor(w, isConnect), ch);
  }

  lemma QueryWalk(s: State, ch: char)
    requires IsUrlChar(ch) || ch == '?'
    ensures s.ReqQueryStringStart? || s.ReqQueryString? ==> ParseUrlChar(s, ch) == ReqQueryString
    ensures s.ReqPath? && ch != '?' ==> ParseUrlChar(s, ch) == ReqPath
    ensures s.ReqFragmentStart? || s.ReqFragment? ==> ParseUrlChar(s, ch) == ReqFragment
  {
  }

  lemma DropAsks(x: Parts, isConnect: bool)
    requires WellMade(x, isConnect) && x.asks && EmptyBehind(x, 4)
    ensures Undone(x, isConnect)
  {
    var w := Drop(x);
    assert WellMade(w, isConnect);
    assert StateFor(w, isConnect).ReqPath? || StateFor(w, isConnect).ReqServer? ||
           StateFor(w, isConnect).ReqServerWithAt? || StateFor(w, isConnect).ReqServerStart?;
  }

  lemma DropPath(x: Parts, isConnect: bool)
    requires WellMade(x, isConnect) && x.path != "" && EmptyBehind(x, 3)
    ensures Undone(x, isConnect)
  {
    var w, ch := Drop(x), Dropped(x);
    assert RightCharacters(w) && IsUrlChar(ch) && w.path + [ch] == x.path by { FrontAndBack(x.path); }
    if w.path != "" {
      assert w.path[0] == x.path[0];
      QueryWalk(ReqPath, ch);
    } else {
      assert x.path == [ch];
      DropFirstOfPath(x, isConnect);
    }
  }

  lemma DropFirstOfPath(x: Parts, isConnect: bool)
    requires InPlace(x, isConnect) && |x.path| == 1 && EmptyBehind(x, 3)
    ensures InPlace(Drop(x), isConnect)
    ensures ParseUrlChar(StateFor(Drop(x), isConnect), x.path[0]) == ReqPath
  {
    PathStarts(StateFor(Drop(x), isConnect), x.path[0]);
  }

  lemma PathStarts(s: State, ch: char)
    ensures (s.ReqServerStart? || s.ReqServer? || s.ReqServerWithAt?) && ch == '/' ==> ParseUrlChar(s, ch) == ReqPath
    ensures s.ReqSpacesBeforeUrl? && (ch == '/' || ch == '*') ==> ParseUrlChar(s, ch) == ReqPath
  {
  }

  lemma DropServer(x: Parts, isConnect: bool)
    requires WellMade(x, isConnect) && x.server != "" && EmptyBehind(x, 2)
    ensures Undone(x, isConnect)
  {
    var w, ch := Drop(x), Dropped(x);
    assert ServerText(w.server) && w.server + [ch] == x.server && IsServerChar(ch) &&
           (w.server != "" && LastChar(w.server) == '@' ==> ch != '@') by { ServerFront(x.server); }
    assert RightCharacters(w);
    assert InPlace(w, isConnect);
    ServerCharWalk(StateFor(w, isConnect), ch);
  }

  lemma ServerCharWalk(s: State, ch: char)
    requires (s.ReqServerStart? || s.ReqServer? || s.ReqServerWithAt?) && IsServerChar(ch)
    requires s.ReqServerWithAt? ==> ch != '@'
    ensures ParseUrlChar(s, ch) == if ch == '@' then ReqServerWithAt else ReqServer
  {
  }

  lemma DropMark(x: Parts, isConnect: bool)
    requires WellMade(x, isConnect) && EmptyBehind(x, 1) && x.mark != ""
    ensures Undone(x, isConnect)
  {
    var w, ch := x.(mark := ButLast(x.mark)), LastChar(x.mark);
    assert w.mark <= MARK && w.mark + [ch] == x.mark && ch == MARK[|w.mark|] by { MarkDrops(x.mark); }
    MarkDropped(x, w, isConnect, ch);
    assert Drop(x) == w && Dropped(x) == ch;
    assert RightCharacters(w);
  }

  lemma MarkDropped(x: Parts, w: Parts, isConnect: bool, ch: char)
    requires InPlace(x, isConnect) && x.mark != "" && EmptyBehind(x, 1) && w == x.(mark := w.mark)
    requires w.mark + [ch] == x.mark && w.mark <= MARK && ch == MARK[|w.mark|]
    ensures InPlace(w, isConnect) && ParseUrlChar(StateFor(w, isConnect), ch) == StateFor(x, isConnect)
    ensures Stage(StateFor(x, isConnect)) == 1
  {
    MarkParts();
    MarkWalk(w, isConnect);
  }

  lemma MarkWalk(w: Parts, isConnect: bool)
    requires EmptyBehind(w, 1) && w.scheme != "" && !isConnect && |w.mark| <= 2 && w.mark != MARK
    ensures ParseUrlChar(StateFor(w, isConnect), MARK[|w.mark|]) ==
            if |w.mark| == 0 then ReqSchemaSlash else if |w.mark| == 1 then ReqSchemaSlashSlash else ReqServerStart
  {
    MarkParts();
  }

  lemma DropScheme(x: Parts, isConnect: bool)
    requires WellMade(x, isConnect) && EmptyBehind(x, 0) && x.scheme != ""
    ensures Undone(x, isConnect)
  {
    var w := Drop(x);
    FrontAndBack(x.scheme);
    assert RightCharacters(w) && InPlace(w, isConnect);
    SchemeWalk(StateFor(w, isConnect), Dropped(x));
  }

  lemma SchemeWalk(s: State, ch: char)
    requires IsAlpha(ch) && (s.ReqSpacesBeforeUrl? || s.ReqSchema?)
    ensures ParseUrlChar(s, ch) == ReqSchema
  {
  }

  lemma MarkDrops(mark: string)
    requires mark <= MARK && mark != ""
    ensures ButLast(mark) <= MARK && ButLast(mark) + [LastChar(mark)] == mark && LastChar(mark) == MARK[|mark| - 1]
  {
    MarkParts();
  }

  lemma {:induction false} DropAny(x: Parts, isConnect: bool)
    requires WellMade(x, isConnect) && x != EMPTY
    ensures Undone(x, isConnect)
  {
    if x.fragment != "" {
      DropFragment(x, isConnect);
    } else if x.hashes != "" {
      DropHash(x, isConnect);
    } else if x.query != "" {
      DropQueryByte(x, isConnect);
    } else if x.asks {
      DropAsks(x, isConnect);
    } else if x.path != "" {
      DropPath(x, isConnect);
    } else if x.server != "" {
      DropServer(x, isConnect);
    } else if x.mark != "" {
      DropMark(x, isConnect);
    } else {
      DropScheme(x, isConnect);
    }
  }

  lemma {:induction false} UndoneText(x: Parts, isConnect: bool)
    requires WellMade(x, isConnect) && Undone(x, isConnect)
    ensures Text(x) == Text(Drop(x)) + [Dropped(x)]
  {
    var w := Drop(x);
    StageGrows(StateFor(w, isConnect), Dropped(x));
    BehindIsEmpty(w, isConnect);
    TextGrows(w, Dropped(x), StateFor(x, isConnect));
  }

  /** A text made of parts is walked over. */
  lemma {:induction false} StandsOf(x: Parts, isConnect: bool, buf: string, n: nat)
    requires WellMade(x, isConnect) && n <= |buf| && buf[..n] == Text(x)
    ensures Stands(x, isConnect, buf, n)
    decreases n
  {
    if x == EMPTY {
      NothingWalked(isConnect, buf);
    } else {
      DropAny(x, isConnect);
      UndoneText(x, isConnect);
      LastByte(buf, n, Text(Drop(x)), Dropped(x));
      StandsOf(Drop(x), isConnect, buf, n - 1);
      StandsOneMore(x, isConnect, buf, n - 1, n);
    }
  }

  lemma {:induction false} StandsOneMore(x: Parts, isConnect: bool, buf: string, m: nat, n: nat)
    requires Undone(x, isConnect) && n == m + 1 <= |buf| && Stands(Drop(x), isConnect, buf, m) && buf[m] == Dropped(x)
    ensures Stands(x, isConnect, buf, n)
  {
    StageGrows(StateFor(Drop(x), isConnect), buf[m]);
    BehindIsEmpty(Drop(x), isConnect);
    StandsGrows(Drop(x), isConnect, buf, m, StateFor(x, isConnect));
  }

  /** And the parts are its fields, as long as offsets fit 16 bits. */
  lemma {:induction false} WalkOf(x: Parts, isConnect: bool, buf: string, n: nat)
    requires WellMade(x, isConnect) && n <= |buf| <= 0xFFFF && buf[..n] == Text(x)
    ensures WalkedTo(x, isConnect, buf, n)
    decreases n
  {
    if x == EMPTY {
      NothingWalked(isConnect, buf);
    } else {
      DropAny(x, isConnect);
      UndoneText(x, isConnect);
      LastByte(buf, n, Text(Drop(x)), Dropped(x));
      WalkOf(Drop(x), isConnect, buf, n - 1);
      WalkGrows(Drop(x), isConnect, buf, n - 1);
    }
  }

  lemma LastByte(buf: string, n: nat, front: string, ch: char)
    requires n <= |buf| && buf[..n] == front + [ch]
    ensures n == |front| + 1 && buf[..n - 1] == front && buf[n - 1] == ch
  {
    assert buf[..n][n - 1] == ch;
    assert buf[..n - 1] == buf[..n][..n - 1];
  }
}
