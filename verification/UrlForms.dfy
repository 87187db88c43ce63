/** http_parser_parse_url said without its walkers: a text is accepted exactly if it is put together from the parts of a
    URL, and the fields are those parts. */
module UrlForms {
  import opened Options
  import opened Sequences
  import opened HttpBytes
  import opened HttpHeaderText
  import opened HttpParserTypes
  import opened HttpParserArms
  import opened HttpParserStartLine
  import opened UrlParser
  import opened UrlGrammar
  import opened UrlAuthority

  function AuthorityStart(x: Parts): nat {
    |x.scheme| + |x.mark|
  }

  /** A text with a scheme, an authority, a path, a query and a fragment, each of which may be missing, except that a
      scheme comes with an authority; and the target of a CONNECT request has a host and a port and nothing else. */
  predicate IsUrl(x: Parts, a: Authority, isConnect: bool) {
    Text(x) != "" && WellMade(x, isConnect) && (x.scheme != "" ==> x.server != "") && x.server == AuthorityText(a) &&
    Made(a, a.at) && (x.server != "" ==> Complete(a)) && (a.port != "" ==> Decimal(a.port) <= 0xFFFF) &&
    (isConnect ==> a.port != "" && a.userinfo == "" && x.path == "" && x.query == "" && x.fragment == "")
  }

  /** Where each field stands. */
  function SpanOf(x: Parts, a: Authority, f: UrlField): Option<Span> {
    if AuthorityField(f) then (if x.server == "" then None else HostSpan(a, AuthorityStart(x), f)) else SpanFor(x, f)
  }

  /** The fields are exactly the parts that are not empty, each at its place. */
  predicate AreParts(u: Fields, x: Parts, a: Authority) {
    forall f :: IsPart(u, x, a, f)
  }

  predicate IsPart(u: Fields, x: Parts, a: Authority, f: UrlField) {
    if f in u then SpanOf(x, a, f) == Some(u[f]) else SpanOf(x, a, f) == None
  }

  // ---------- both passes together ----------

  /** The bytes of the server. */
  lemma ServerBytes(x: Parts, buf: string)
    requires Text(x) == buf
    ensures AuthorityStart(x) + |x.server| <= |buf|
    ensures buf[AuthorityStart(x)..AuthorityStart(x) + |x.server|] == x.server
  {
    var tail := x.path + (if x.asks then "?" else "") + x.query + x.hashes + x.fragment;
    assert buf == (x.scheme + x.mark) + (x.server + tail);
    SliceOf(x.scheme + x.mark, x.server, tail);
  }

  lemma SliceOf(a: string, b: string, c: string)
    ensures (a + (b + c))[|a|..|a| + |b|] == b
  {
  }

  lemma MergedPart(u: Fields, v: Fields, x: Parts, a: Authority, f: UrlField)
    requires HoldsAt(u, x, f) && HostHoldsAt(v, a, AuthorityStart(x), f) && x.server != ""
    ensures IsPart(u + v, x, a, f)
  {
  }

  lemma LonePart(u: Fields, x: Parts, a: Authority, f: UrlField)
    requires HoldsAt(u, x, f) && x.server == ""
    ensures IsPart(u, x, a, f)
  {
  }

  /** What both passes have to go on: `u` and `found` are the outcome of the first one. */
  predicate FirstPass(buf: string, isConnect: bool, u: Fields, found: bool) {
    buf != "" && u == FirstFields(isConnect, buf, |buf|) && found == FoundAt(isConnect, buf, |buf|)
  }

  lemma SecondPassOf(buf: string, isConnect: bool, u: Fields, found: bool, from: nat, upto: nat)
    requires Walks(buf, isConnect) && FirstPass(buf, isConnect, u, found)
    requires Host in u && u[Host].off == from <= upto == End(u[Host]) <= |buf|
    ensures HostEnds(buf, isConnect) <==> HostMayEnd(HostStateOf(buf, from, found, upto))
    ensures HostEnds(buf, isConnect) ==> UrlFields(buf, isConnect) == u + HostFieldsOf(buf, from, found, upto)
  {
  }

  lemma OnePassOf(buf: string, isConnect: bool, u: Fields, found: bool)
    requires Walks(buf, isConnect) && FirstPass(buf, isConnect, u, found) && Host !in u
    ensures HostEnds(buf, isConnect) && UrlFields(buf, isConnect) == u
  {
  }

  /** What the walk over a whole text says about the outcome of the first pass. */
  lemma {:induction false} FirstPassTells(x: Parts, isConnect: bool, buf: string, u: Fields, found: bool)
    requires WalkedTo(x, isConnect, buf, |buf|) && FirstPass(buf, isConnect, u, found)
    ensures Holds(u, x) && (found <==> '@' in x.server) && WellMade(x, isConnect) && Text(x) == buf
    ensures (Host in u <==> x.server != "") && (Schema in u <==> x.scheme != "")
    ensures Host in u ==> u[Host] == Span(AuthorityStart(x), |x.server|)
    ensures Walks(buf, isConnect) <==> (x.scheme != "" ==> x.server != "")
  {
    assert buf[..|buf|] == buf;
    assert HoldsAt(u, x, Host) && HoldsAt(u, x, Schema);
  }

  lemma {:induction false} PartsMerge(u: Fields, v: Fields, x: Parts, a: Authority, from: nat)
    requires Holds(u, x) && HostHolds(v, a, from) && from == AuthorityStart(x) && x.server != ""
    ensures AreParts(u + v, x, a)
  {
    forall f ensures IsPart(u + v, x, a, f) {
      assert HoldsAt(u, x, f) && HostHoldsAt(v, a, from, f);
      MergedPart(u, v, x, a, f);
    }
  }

  lemma {:induction false} PartsAlone(u: Fields, x: Parts, a: Authority)
    requires Holds(u, x) && x.server == ""
    ensures AreParts(u, x, a)
  {
    forall f ensures IsPart(u, x, a, f) {
      assert HoldsAt(u, x, f);
      LonePart(u, x, a, f);
    }
  }

  /** The fields of both passes are the parts. */
  lemma {:induction false} BothPasses(x: Parts, a: Authority, isConnect: bool, buf: string, u: Fields, found: bool,
      from: nat, upto: nat)
    requires Walks(buf, isConnect) && FirstPass(buf, isConnect, u, found) && Holds(u, x) && x.server != ""
    requires Host in u && u[Host].off == from == AuthorityStart(x) <= upto == End(u[Host]) <= |buf|
    requires HostMayEnd(HostStateOf(buf, from, found, upto)) && HostHolds(HostFieldsOf(buf, from, found, upto), a, from)
    ensures HostEnds(buf, isConnect) && AreParts(UrlFields(buf, isConnect), x, a)
  {
    SecondPassOf(buf, isConnect, u, found, from, upto);
    PartsMerge(u, HostFieldsOf(buf, from, found, upto), x, a, from);
  }

  lemma {:induction false} OnePass(x: Parts, a: Authority, isConnect: bool, buf: string, u: Fields, found: bool)
    requires Walks(buf, isConnect) && FirstPass(buf, isConnect, u, found) && Holds(u, x) && x.server == ""
    requires Host !in u
    ensures HostEnds(buf, isConnect) && AreParts(UrlFields(buf, isConnect), x, a)
  {
    OnePassOf(buf, isConnect, u, found);
    PartsAlone(u, x, a);
  }

  // ---------- the ports and the CONNECT request ----------

  /** The port is in the range if and only if its digits say so. */
  lemma {:induction false} PortIsRight(w: Fields, x: Parts, a: Authority, buf: string)
    requires Within(w, 0, |buf|) && AreParts(w, x, a) && Text(x) == buf && x.server == AuthorityText(a) && Made(a, a.at)
    ensures PortFits(w, buf) <==> (a.port != "" ==> Decimal(a.port) <= 0xFFFF)
    ensures PortFits(w, buf) ==> PortValue(w, buf) == Decimal(a.port)
  {
    assert IsPart(w, x, a, Port);
    if a.port != "" {
      ServerBytes(x, buf);
      PortSlice(x, a, buf);
      PortNumberIsDecimal(a.port);
    }
  }

  lemma PortSlice(x: Parts, a: Authority, buf: string)
    requires a.port != "" && AuthorityStart(x) + |x.server| <= |buf| && x.server == AuthorityText(a)
    requires buf[AuthorityStart(x)..AuthorityStart(x) + |x.server|] == x.server
    ensures var sp := HostSpan(a, AuthorityStart(x), Port).value; End(sp) <= |buf| && buf[sp.off..End(sp)] == a.port
  {
    var from, n := AuthorityStart(x), |BeforePort(a)|;
    assert buf[from + n..from + |x.server|] == x.server[n..];
  }

  /** What a CONNECT request names. */
  lemma {:induction false} ConnectKeys(w: Fields, x: Parts, a: Authority)
    requires AreParts(w, x, a) && x.scheme == "" && (x.server != "" ==> a.name != "") && x.server == AuthorityText(a)
    ensures w.Keys == {Host, Port} <==>
            a.port != "" && a.userinfo == "" && x.path == "" && x.query == "" && x.fragment == ""
  {
    assert IsPart(w, x, a, Schema) && IsPart(w, x, a, UserInfo) && IsPart(w, x, a, Host) && IsPart(w, x, a, Port);
    assert IsPart(w, x, a, Path) && IsPart(w, x, a, Query) && IsPart(w, x, a, Fragment);
    if a.port != "" && a.userinfo == "" && x.path == "" && x.query == "" && x.fragment == "" {
      forall f ensures f in w <==> f == Host || f == Port {
        assert IsPart(w, x, a, f);
      }
    }
  }

  // ---------- the whole function ----------

  /** Both passes go through, and the fields are the parts. */
  predicate PassesWith(x: Parts, a: Authority, isConnect: bool, buf: string) {
    Walks(buf, isConnect) && HostEnds(buf, isConnect) && AreParts(UrlFields(buf, isConnect), x, a)
  }

  /** Whether the text that has been walked over is accepted depends on its parts. */
  lemma {:induction false} AcceptedIf(x: Parts, a: Authority, isConnect: bool, buf: string)
    requires PassesWith(x, a, isConnect, buf) && Text(x) == buf && x.server == AuthorityText(a) && Made(a, a.at)
    requires (x.server != "" ==> a.name != "") && (isConnect ==> x.scheme == "")
    ensures Accepts(buf, isConnect) <==>
            (a.port != "" ==> Decimal(a.port) <= 0xFFFF) &&
            (isConnect ==> a.port != "" && a.userinfo == "" && x.path == "" && x.query == "" && x.fragment == "")
    ensures PortFits(UrlFields(buf, isConnect), buf) ==>
              PortValue(UrlFields(buf, isConnect), buf) == Decimal(a.port)
  {
    PortIsRight(UrlFields(buf, isConnect), x, a, buf);
    if isConnect {
      ConnectKeys(UrlFields(buf, isConnect), x, a);
    }
  }

  lemma HoldsOfRead(a: Authority, found: bool, buf: string, from: nat, upto: nat)
    requires from <= upto <= |buf| && HostRead(a, found, buf, from, upto)
    ensures HostHolds(HostFieldsOf(buf, from, found, upto), a, from)
    ensures Made(a, found) && AuthorityText(a) == buf[from..upto]
    ensures HostStateOf(buf, from, found, upto) == HostStateFor(a, found)
  {
  }

  /** An authority is read to its end. */
  lemma {:induction false} AuthorityAt(a: Authority, found: bool, buf: string, from: nat, upto: nat)
    requires from <= upto <= |buf| <= 0xFFFF && buf[from..upto] == AuthorityText(a) && Made(a, a.at) && Complete(a)
    requires found <==> '@' in AuthorityText(a)
    ensures HostHolds(HostFieldsOf(buf, from, found, upto), a, from)
    ensures HostMayEnd(HostStateOf(buf, from, found, upto))
  {
    AtSign(a, a.at);
    ReadOf(a, found, buf, from, upto);
    HoldsOfRead(a, found, buf, from, upto);
    EndsComplete(a, found);
  }

  /** The parts of a URL pass. */
  lemma {:induction false} UrlPasses(x: Parts, a: Authority, isConnect: bool, buf: string, u: Fields, found: bool,
      from: nat, upto: nat)
    requires IsUrl(x, a, isConnect) && Text(x) == buf && |buf| <= 0xFFFF && FirstPass(buf, isConnect, u, found)
    requires from == AuthorityStart(x) && upto == from + |x.server|
    ensures PassesWith(x, a, isConnect, buf)
  {
    assert WalkedTo(x, isConnect, buf, |buf|) by {
      assert buf[..|buf|] == buf;
      WalkOf(x, isConnect, buf, |buf|);
    }
    FirstPassTells(x, isConnect, buf, u, found);
    if x.server != "" {
      ServerBytes(x, buf);
      AuthorityAt(a, found, buf, from, upto);
      BothPasses(x, a, isConnect, buf, u, found, from, upto);
    } else {
      OnePass(x, a, isConnect, buf, u, found);
    }
  }

  /** What is put together from parts is accepted, its fields are the parts, and its port is the number that the digits
      say, 0 if there are none. */
  lemma {:induction false} PartsAreFields(x: Parts, a: Authority, isConnect: bool, buf: string)
    requires IsUrl(x, a, isConnect) && Text(x) == buf && |buf| <= 0xFFFF
    ensures Accepts(buf, isConnect)
    ensures AreParts(UrlFields(buf, isConnect), x, a) && PortValue(UrlFields(buf, isConnect), buf) == Decimal(a.port)
  {
    UrlPasses(x, a, isConnect, buf, FirstFields(isConnect, buf, |buf|), FoundAt(isConnect, buf, |buf|),
              AuthorityStart(x), AuthorityStart(x) + |x.server|);
    AcceptedIf(x, a, isConnect, buf);
  }

  lemma {:induction false} PartsAt(found: bool, buf: string, from: nat, upto: nat) returns (a: Authority)
    requires from <= upto <= |buf| <= 0xFFFF && HostMayEnd(HostStateOf(buf, from, found, upto))
    ensures HostHolds(HostFieldsOf(buf, from, found, upto), a, from) && AuthorityText(a) == buf[from..upto]
    ensures Made(a, a.at) && Complete(a)
  {
    a := AuthorityOf(found, buf, from, upto);
    HoldsOfRead(a, found, buf, from, upto);
    EndsComplete(a, found);
  }

  /** The server of an accepted text is an authority. */
  lemma {:induction false} ServerParts(x: Parts, isConnect: bool, buf: string, u: Fields, found: bool, from: nat,
      upto: nat) returns (a: Authority)
    requires |buf| <= 0xFFFF && Walks(buf, isConnect) && HostEnds(buf, isConnect) && FirstPass(buf, isConnect, u, found)
    requires Holds(u, x) && x.server != "" && Host in u
    requires u[Host].off == from == AuthorityStart(x) <= upto == End(u[Host]) <= |buf| && buf[from..upto] == x.server
    ensures x.server == AuthorityText(a) && Made(a, a.at) && Complete(a)
    ensures AreParts(UrlFields(buf, isConnect), x, a)
  {
    SecondPassOf(buf, isConnect, u, found, from, upto);
    a := PartsAt(found, buf, from, upto);
    BothPasses(x, a, isConnect, buf, u, found, from, upto);
  }

  lemma {:induction false} WholeText(isConnect: bool, buf: string, u: Fields, found: bool) returns (x: Parts)
    requires |buf| <= 0xFFFF && Walks(buf, isConnect) && FirstPass(buf, isConnect, u, found)
    ensures Holds(u, x) && WellMade(x, isConnect) && Text(x) == buf && (x.scheme != "" ==> x.server != "")
    ensures Host in u <==> x.server != ""
    ensures Host in u ==> u[Host] == Span(AuthorityStart(x), |x.server|)
  {
    x := PartsOf(isConnect, buf, |buf|);
    WalkOf(x, isConnect, buf, |buf|);
    FirstPassTells(x, isConnect, buf, u, found);
  }

  lemma {:induction false} PartsOfText(isConnect: bool, buf: string, u: Fields, found: bool)
    returns (x: Parts, a: Authority)
    requires |buf| <= 0xFFFF && Walks(buf, isConnect) && HostEnds(buf, isConnect) && FirstPass(buf, isConnect, u, found)
    ensures Text(x) == buf && WellMade(x, isConnect) && (x.scheme != "" ==> x.server != "")
    ensures x.server == AuthorityText(a) && Made(a, a.at) && (x.server != "" ==> Complete(a))
    ensures AreParts(UrlFields(buf, isConnect), x, a)
  {
    x := WholeText(isConnect, buf, u, found);
    if x.server != "" {
      ServerBytes(x, buf);
      a := ServerParts(x, isConnect, buf, u, found, AuthorityStart(x), AuthorityStart(x) + |x.server|);
    } else {
      a := NOBODY;
      OnePass(x, a, isConnect, buf, u, found);
    }
  }

  /** Every accepted text is put together from parts. */
  lemma {:induction false} AcceptedHasParts(buf: string, isConnect: bool) returns (x: Parts, a: Authority)
    requires Accepts(buf, isConnect) && |buf| <= 0xFFFF
    ensures IsUrl(x, a, isConnect) && Text(x) == buf
    ensures AreParts(UrlFields(buf, isConnect), x, a) && PortValue(UrlFields(buf, isConnect), buf) == Decimal(a.port)
  {
    x, a := PartsOfText(isConnect, buf, FirstFields(isConnect, buf, |buf|), FoundAt(isConnect, buf, |buf|));
    AcceptedIf(x, a, isConnect, buf);
  }

  // ---------- consequences ----------

  /** The usual form of a request target: path, query and fragment. */
  lemma {:induction false} OriginForm(path: string, query: string, fragment: string, buf: string)
    requires path != "" && path[0] == '/' && PathText(path) && query != "" && QueryText(query)
    requires fragment != "" && FragmentText(fragment)
    requires buf == path + "?" + query + "#" + fragment && |buf| <= 0xFFFF
    ensures Accepts(buf, false)
    ensures UrlFields(buf, false) ==
            map[Path := Span(0, |path|), Query := Span(|path| + 1, |query|),
                Fragment := Span(|path| + |query| + 2, |fragment|)]
  {
    var x := OriginParts(path, query, fragment);
    OriginIsUrl(path, query, fragment);
    PartsAreFields(x, NOBODY, false, buf);
    OriginSpans(path, query, fragment);
    ThreeFields(UrlFields(buf, false), x, Span(0, |path|), Span(|path| + 1, |query|),
                Span(|path| + |query| + 2, |fragment|));
  }

  function OriginParts(path: string, query: string, fragment: string): Parts {
    EMPTY.(path := path, asks := true, query := query, hashes := "#", fragment := fragment)
  }

  lemma OriginIsUrl(path: string, query: string, fragment: string)
    requires path != "" && path[0] == '/' && PathText(path) && QueryText(query) && FragmentText(fragment)
    ensures IsUrl(OriginParts(path, query, fragment), NOBODY, false)
    ensures Text(OriginParts(path, query, fragment)) == path + "?" + query + "#" + fragment
  {
    var x := OriginParts(path, query, fragment);
    assert UpToServer(x) == "" && AuthorityText(NOBODY) == "";
    assert UpToQuery(x) == path + "?" + query;
  }

  lemma OriginSpans(path: string, query: string, fragment: string)
    requires path != "" && query != "" && fragment != ""
    ensures var x := OriginParts(path, query, fragment);
            SpanOf(x, NOBODY, Path) == Some(Span(0, |path|)) &&
            SpanOf(x, NOBODY, Query) == Some(Span(|path| + 1, |query|)) &&
            SpanOf(x, NOBODY, Fragment) == Some(Span(|path| + |query| + 2, |fragment|))
  {
  }

  lemma ThreeFields(w: Fields, x: Parts, path: Span, query: Span, fragment: Span)
    requires AreParts(w, x, NOBODY) && x.scheme == "" && x.server == ""
    requires SpanOf(x, NOBODY, Path) == Some(path) && SpanOf(x, NOBODY, Query) == Some(query) &&
             SpanOf(x, NOBODY, Fragment) == Some(fragment)
    ensures w == map[Path := path, Query := query, Fragment := fragment]
  {
    assert IsPart(w, x, NOBODY, Path) && IsPart(w, x, NOBODY, Query) && IsPart(w, x, NOBODY, Fragment);
    forall f | f != Path && f != Query && f != Fragment ensures f !in w {
      assert IsPart(w, x, NOBODY, f);
    }
  }

  /** The byte in front of a part. */
  lemma ByteBefore(x: Parts, f: UrlField, buf: string)
    requires Text(x) == buf && WellMade(x, false)
    ensures f == Query && SpanFor(x, f).Some? ==>
              var off := SpanFor(x, f).value.off; 0 < off <= |buf| && buf[off - 1] == '?'
    ensures f == Fragment && SpanFor(x, f).Some? ==>
              var off := SpanFor(x, f).value.off; 0 < off <= |buf| && buf[off - 1] == '#'
  {
    if f == Query && x.query != "" {
      var front := UpToServer(x) + x.path + "?";
      assert buf == front + (x.query + x.hashes + x.fragment);
      assert front[|front| - 1] == '?';
    } else if f == Fragment && x.fragment != "" {
      var front := UpToQuery(x) + x.hashes;
      assert buf == front + x.fragment;
      assert front[|front| - 1] == '#';
    }
  }

  /** In an accepted URL a question mark stands in front of the query and a number sign in front of the fragment. */
  lemma {:induction false} DelimitersStand(buf: string)
    requires Accepts(buf, false) && |buf| <= 0xFFFF
    ensures var u := UrlFields(buf, false);
            (Query in u ==> 0 < u[Query].off <= |buf| && buf[u[Query].off - 1] == '?') &&
            (Fragment in u ==> 0 < u[Fragment].off <= |buf| && buf[u[Fragment].off - 1] == '#')
  {
    var x, a := AcceptedHasParts(buf, false);
    var u := UrlFields(buf, false);
    assert IsPart(u, x, a, Query) && IsPart(u, x, a, Fragment);
    ByteBefore(x, Query, buf);
    ByteBefore(x, Fragment, buf);
  }

  // ---------- request targets ----------

  /** A text with a server, a path or a query in it. */
  predicate IsTarget(x: Parts, isConnect: bool) {
    WellMade(x, isConnect) && (x.server != "" || x.path != "" || x.asks)
  }

  lemma TargetState(x: Parts, isConnect: bool)
    requires WellMade(x, isConnect) && Text(x) != ""
    ensures IsTarget(x, isConnect) <==> !EarlyUrlState(StateFor(x, isConnect))
    ensures StateFor(x, isConnect) != Dead
  {
  }

  /** The target of a request, of any length, is walked to its end exactly if it is put together from parts. */
  lemma {:induction false} TargetIsExact(m: Method, t: string)
    requires t != ""
    ensures WalksToEnd(m, t) <==> exists x :: IsTarget(x, m == CONNECT) && Text(x) == t
  {
    var conn := m == CONNECT;
    assert t[..|t|] == t;
    if WalksToEnd(m, t) {
      var x := PartsOf(conn, t, |t|);
      TargetState(x, conn);
      assert IsTarget(x, conn) && Text(x) == t;
    }
    if x :| IsTarget(x, conn) && Text(x) == t {
      StandsOf(x, conn, t, |t|);
      TargetState(x, conn);
    }
  }
}
