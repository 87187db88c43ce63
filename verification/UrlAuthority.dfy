/** The authority of a URL: user information, host and port (section 3.2 of RFC 3986, with zones as in RFC 6874), put
    together from its parts, and http_parse_host taking it apart. */
module UrlAuthority {
  import opened Options
  import opened Sequences
  import opened HttpBytes
  import opened HttpHeaderText
  import opened UrlParser

  /** `at`, `open`, `percent`, `close` and `colon` say that the delimiter is there: the at sign behind the user
      information, the brackets around an address, the percent sign in front of its zone, and the colon in front of the
      port. */
  datatype Authority = Authority(userinfo: string, at: bool, open: bool, name: string, percent: bool, zone: string,
                                 close: bool, colon: bool, port: string)

  const NOBODY := Authority("", false, false, "", false, "", false, false, "")

  function If(here: bool, delimiter: string): string {
    if here then delimiter else ""
  }

  function BeforeName(a: Authority): string {
    a.userinfo + If(a.at, "@") + If(a.open, "[")
  }

  /** The host as it is delivered: a name, or an address with its zone but without the brackets. */
  function HostText(a: Authority): string {
    a.name + If(a.percent, "%") + a.zone
  }

  function BeforePort(a: Authority): string {
    BeforeName(a) + HostText(a) + If(a.close, "]") + If(a.colon, ":")
  }

  function AuthorityText(a: Authority): string {
    BeforePort(a) + a.port
  }

  predicate AllUserInfo(t: string) {
    forall i :: 0 <= i < |t| ==> IsUserInfoChar(t[i])
  }

  predicate HostName(t: string) {
    forall i :: 0 <= i < |t| ==> IsHostChar(t[i])
  }

  predicate AddressText(t: string) {
    forall i :: 0 <= i < |t| ==> IsHex(t[i]) || t[i] == ':' || t[i] == '.'
  }

  predicate IsZoneChar(c: char) {
    IsAlphaNum(c) || c == '%' || c == '.' || c == '-' || c == '_' || c == '~'
  }

  predicate ZoneText(t: string) {
    forall i :: 0 <= i < |t| ==> IsZoneChar(t[i])
  }

  predicate RightTexts(a: Authority) {
    AllUserInfo(a.userinfo) && (if a.open then AddressText(a.name) else HostName(a.name)) && ZoneText(a.zone) &&
    AllDigits(a.port)
  }

  /** Each part has what must stand before it; `found` tells whether there is an at sign. */
  predicate InOrderOf(a: Authority, found: bool) {
    (a.userinfo != "" || a.at ==> found) && (a.open || a.name != "" ==> a.at == found) &&
    (a.percent ==> a.open && a.name != "") && (a.zone != "" ==> a.percent) &&
    (a.close ==> a.open && a.name != "" && (a.percent ==> a.zone != "")) &&
    (a.colon ==> a.name != "" && a.open == a.close) && (a.port != "" ==> a.colon)
  }

  predicate Made(a: Authority, found: bool) {
    RightTexts(a) && InOrderOf(a, found)
  }

  /** An authority is complete: a host, and digits behind the colon if there is one. */
  predicate Complete(a: Authority) {
    a.name != "" && a.open == a.close && (a.colon ==> a.port != "")
  }

  function PartSpan(from: nat, before: string, part: string): Option<Span> {
    if part == "" then None else Some(Span(from + |before|, |part|))
  }

  /** Where a part of the authority that begins at `from` stands. */
  function HostSpan(a: Authority, from: nat, f: UrlField): Option<Span> {
    match f
    case UserInfo => PartSpan(from, "", a.userinfo)
    case Host => if a.name == "" then Some(Span(from, 0)) else PartSpan(from, BeforeName(a), HostText(a))
    case Port => PartSpan(from, BeforePort(a), a.port)
    case _ => None
  }

  predicate HostHolds(v: Fields, a: Authority, from: nat) {
    forall f :: HostHoldsAt(v, a, from, f)
  }

  predicate HostHoldsAt(v: Fields, a: Authority, from: nat, f: UrlField) {
    if f in v then HostSpan(a, from, f) == Some(v[f]) else HostSpan(a, from, f) == None
  }

  // ---------- the walk over the authority ----------

  function HostStateFor(a: Authority, found: bool): HostState {
    if a.port != "" then InPort
    else if a.colon then PortStart
    else if a.close then V6End
    else if a.zone != "" then V6Zone
    else if a.percent then V6ZoneStart
    else if a.name != "" then if a.open then InV6 else InHost
    else if a.open then V6Start
    else if a.at == found then HostStart
    else if a.userinfo != "" then InUserInfo
    else UserInfoStart
  }

  /** The parts with one more byte, which has brought the walker into `t`. */
  function AddHost(a: Authority, ch: char, t: HostState): Authority {
    match t
    case InUserInfo => a.(userinfo := a.userinfo + [ch])
    case HostStart => a.(at := true)
    case V6Start => a.(open := true)
    case InHost => a.(name := a.name + [ch])
    case InV6 => a.(name := a.name + [ch])
    case V6ZoneStart => a.(percent := true)
    case V6Zone => a.(zone := a.zone + [ch])
    case V6End => a.(close := true)
    case PortStart => a.(colon := true)
    case InPort => a.(port := a.port + [ch])
    case _ => a
  }

  lemma TextsGrow(t: string, ch: char)
    ensures AllUserInfo(t) && IsUserInfoChar(ch) ==> AllUserInfo(t + [ch])
    ensures HostName(t) && IsHostChar(ch) ==> HostName(t + [ch])
    ensures AddressText(t) && (IsHex(ch) || ch == ':' || ch == '.') ==> AddressText(t + [ch])
    ensures ZoneText(t) && IsZoneChar(ch) ==> ZoneText(t + [ch])
    ensures AllDigits(t) && IsNum(ch) ==> AllDigits(t + [ch])
  {
  }

  /** The parts with one more byte are in order again, and the walker stands where it should. */
  predicate HostGrows(a: Authority, found: bool, ch: char, t: HostState) {
    Made(AddHost(a, ch, t), found) && HostStateFor(AddHost(a, ch, t), found) == t
  }

  lemma UserGrows(a: Authority, found: bool, ch: char)
    requires Made(a, found) && ParseHostChar(HostStateFor(a, found), ch) != HostDead
    requires HostStateFor(a, found) == UserInfoStart || HostStateFor(a, found) == InUserInfo
    ensures HostGrows(a, found, ch, ParseHostChar(HostStateFor(a, found), ch))
  {
    TextsGrow(a.userinfo, ch);
  }

  lemma HostBegins(a: Authority, found: bool, ch: char)
    requires Made(a, found) && ParseHostChar(HostStateFor(a, found), ch) != HostDead
    requires HostStateFor(a, found) == HostStart || HostStateFor(a, found) == V6Start
    ensures HostGrows(a, found, ch, ParseHostChar(HostStateFor(a, found), ch))
  {
    TextsGrow(a.name, ch);
  }

  lemma NameGrows(a: Authority, found: bool, ch: char)
    requires Made(a, found) && ParseHostChar(HostStateFor(a, found), ch) != HostDead
    requires HostStateFor(a, found) == InHost
    ensures HostGrows(a, found, ch, ParseHostChar(HostStateFor(a, found), ch))
  {
    TextsGrow(a.name, ch);
  }

  lemma AddressGrows(a: Authority, found: bool, ch: char)
    requires Made(a, found) && ParseHostChar(HostStateFor(a, found), ch) != HostDead
    requires HostStateFor(a, found) == InV6
    ensures HostGrows(a, found, ch, ParseHostChar(HostStateFor(a, found), ch))
  {
    TextsGrow(a.name, ch);
  }

  lemma ZoneGrows(a: Authority, found: bool, ch: char)
    requires Made(a, found) && ParseHostChar(HostStateFor(a, found), ch) != HostDead
    requires HostStateFor(a, found) == V6ZoneStart || HostStateFor(a, found) == V6Zone
    ensures HostGrows(a, found, ch, ParseHostChar(HostStateFor(a, found), ch))
  {
    TextsGrow(a.zone, ch);
  }

  lemma PortGrows(a: Authority, found: bool, ch: char)
    requires Made(a, found) && ParseHostChar(HostStateFor(a, found), ch) != HostDead
    requires HostStateFor(a, found) == V6End || HostStateFor(a, found) == PortStart || HostStateFor(a, found) == InPort
    ensures HostGrows(a, found, ch, ParseHostChar(HostStateFor(a, found), ch))
  {
    TextsGrow(a.port, ch);
  }

  lemma {:induction false} AuthorityGrows(a: Authority, found: bool, ch: char)
    requires Made(a, found) && ParseHostChar(HostStateFor(a, found), ch) != HostDead
    ensures HostGrows(a, found, ch, ParseHostChar(HostStateFor(a, found), ch))
  {
    var s := HostStateFor(a, found);
    if s == UserInfoStart || s == InUserInfo {
      UserGrows(a, found, ch);
    } else if s == HostStart || s == V6Start {
      HostBegins(a, found, ch);
    } else if s == InHost {
      NameGrows(a, found, ch);
    } else if s == InV6 {
      AddressGrows(a, found, ch);
    } else if s == V6ZoneStart || s == V6Zone {
      ZoneGrows(a, found, ch);
    } else {
      PortGrows(a, found, ch);
    }
  }

  // ---------- the fields ----------

  /** What has been read of the authority that begins at `from`. */
  ghost predicate HostRead(a: Authority, found: bool, buf: string, from: nat, i: nat)
    requires from <= i <= |buf|
  {
    Made(a, found) && AuthorityText(a) == buf[from..i] &&
    HostStateOf(buf, from, found, i) == HostStateFor(a, found) && HostHolds(HostFieldsOf(buf, from, found, i), a, from)
  }

  /** The parts behind the one that the walker is in are empty. */
  predicate OpenEnded(a: Authority, t: HostState) {
    (t != InPort ==> a.port == "" && !a.colon) &&
    (t != InPort && t != PortStart && t != V6End ==> !a.close) &&
    (BeforeHost(t) || t == InHost || t == InV6 ==> !a.percent && a.zone == "") && (BeforeHost(t) ==> a.name == "") &&
    (t == V6ZoneStart ==> !a.percent && a.zone == "") &&
    (t == UserInfoStart || t == InUserInfo ==> !a.open && !a.at) && (t == HostStart ==> !a.open)
  }

  lemma OpenEnds(a: Authority, found: bool, ch: char)
    requires Made(a, found) && ParseHostChar(HostStateFor(a, found), ch) != HostDead
    ensures OpenEnded(a, ParseHostChar(HostStateFor(a, found), ch))
  {
  }

  /** The byte is the delimiter that the walker has found. */
  predicate Delimits(a: Authority, ch: char, t: HostState) {
    (t == HostStart ==> ch == '@' && !a.at) && (t == V6Start ==> ch == '[' && !a.open) &&
    (t == V6ZoneStart ==> ch == '%') && (t == V6End ==> ch == ']' && !a.close) && (t == PortStart ==> ch == ':') &&
    t != UserInfoStart && t != HostDead && (t == InPort || t == PortStart || (t != V6End ==> !a.close))
  }

  lemma DelimiterFits(a: Authority, found: bool, ch: char)
    requires Made(a, found) && ParseHostChar(HostStateFor(a, found), ch) != HostDead
    ensures Delimits(a, ch, ParseHostChar(HostStateFor(a, found), ch))
  {
  }

  lemma AuthorityTextGrows(a: Authority, ch: char, t: HostState)
    requires OpenEnded(a, t) && Delimits(a, ch, t)
    ensures AuthorityText(AddHost(a, ch, t)) == AuthorityText(a) + [ch]
  {
    if BeforeHost(t) {
      FrontTextGrows(a, ch, t);
    } else if HostLike(t) {
      HostTextGrows(a, ch, t);
    } else {
      EndTextGrows(a, ch, t);
    }
  }

  lemma FrontTextGrows(a: Authority, ch: char, t: HostState)
    requires OpenEnded(a, t) && Delimits(a, ch, t) && BeforeHost(t)
    ensures AuthorityText(AddHost(a, ch, t)) == AuthorityText(a) + [ch]
  {
    var b := AddHost(a, ch, t);
    NoHostYet(a);
    NoHostYet(b);
    match t
    case InUserInfo => assert BeforeName(a) == a.userinfo && BeforeName(b) == b.userinfo;
    case HostStart => assert BeforeName(a) == a.userinfo && BeforeName(b) == a.userinfo + "@";
    case V6Start => assert BeforeName(b) == BeforeName(a) + "[";
  }

  lemma NoHostYet(a: Authority)
    requires a.name == "" && !a.percent && a.zone == "" && !a.close && !a.colon && a.port == ""
    ensures AuthorityText(a) == BeforeName(a)
  {
  }

  lemma HostTextGrows(a: Authority, ch: char, t: HostState)
    requires OpenEnded(a, t) && Delimits(a, ch, t) && HostLike(t)
    ensures AuthorityText(AddHost(a, ch, t)) == AuthorityText(a) + [ch]
  {
    var b := AddHost(a, ch, t);
    assert AuthorityText(a) == BeforeName(a) + HostText(a) && AuthorityText(b) == BeforeName(b) + HostText(b);
    assert HostText(b) == HostText(a) + [ch];
  }

  lemma EndTextGrows(a: Authority, ch: char, t: HostState)
    requires OpenEnded(a, t) && Delimits(a, ch, t) && (t == V6End || t == PortStart || t == InPort)
    ensures AuthorityText(AddHost(a, ch, t)) == AuthorityText(a) + [ch]
  {
    var b := AddHost(a, ch, t);
    assert BeforeName(b) == BeforeName(a) && HostText(b) == HostText(a);
    if t == InPort {
      assert BeforePort(b) == BeforePort(a);
    } else {
      assert BeforePort(b) == BeforePort(a) + [ch];
    }
  }

  lemma OtherHostSpans(a: Authority, from: nat, ch: char, t: HostState, f: UrlField)
    requires OpenEnded(a, t) && HostFieldOf(t) != Some(f)
    ensures HostSpan(AddHost(a, ch, t), from, f) == HostSpan(a, from, f)
  {
  }

  /** The span of a field with one more byte. */
  predicate SpanGrows(a: Authority, b: Authority, from: nat, f: UrlField) {
    var begins := f == Host && a.name == "";
    HostSpan(b, from, f) ==
    if HostSpan(a, from, f) == None || begins then Some(Span(from + |AuthorityText(a)|, 1))
    else Some(Span(HostSpan(a, from, f).value.off, HostSpan(a, from, f).value.len + 1))
  }

  lemma GrownHost(a: Authority, from: nat, ch: char, t: HostState)
    requires OpenEnded(a, t) && HostLike(t) && (t == V6Zone || t == V6ZoneStart ==> a.name != "")
    ensures SpanGrows(a, AddHost(a, ch, t), from, Host)
  {
    var b := AddHost(a, ch, t);
    assert BeforeName(b) == BeforeName(a) && |HostText(b)| == |HostText(a)| + 1;
    if a.name == "" {
      NoHostYet(a);
    }
  }

  lemma GrownPort(a: Authority, from: nat, ch: char)
    ensures SpanGrows(a, AddHost(a, ch, InPort), from, Port)
  {
    assert BeforePort(AddHost(a, ch, InPort)) == BeforePort(a);
  }

  lemma GrownUser(a: Authority, from: nat, ch: char)
    requires OpenEnded(a, InUserInfo)
    ensures SpanGrows(a, AddHost(a, ch, InUserInfo), from, UserInfo)
  {
    NoHostYet(a);
  }

  /** The field that gets the byte. */
  lemma GrownHostSpan(a: Authority, from: nat, ch: char, t: HostState, f: UrlField)
    requires OpenEnded(a, t) && HostFieldOf(t) == Some(f) && (t == V6Zone || t == V6ZoneStart ==> a.name != "")
    ensures SpanGrows(a, AddHost(a, ch, t), from, f)
  {
    match f
    case Host => GrownHost(a, from, ch, t);
    case Port => GrownPort(a, from, ch);
    case UserInfo => GrownUser(a, from, ch);
  }

  lemma ZoneHasName(a: Authority, found: bool, ch: char)
    requires Made(a, found)
    ensures var t := ParseHostChar(HostStateFor(a, found), ch); t == V6Zone || t == V6ZoneStart ==> a.name != ""
  {
  }

  /** The bookkeeping of the walker extends the span of the field that gets the byte. */
  lemma HostEnters(v: Fields, s: HostState, t: HostState, i: nat, f: UrlField)
    requires HostFollows(s, t) && HostFieldOf(t) == Some(f) && i < 0xFFFF && Host in v && v[Host].len < 0xFFFF
    requires f in v ==> v[f].len < 0xFFFF
    requires (s == InPort ==> Port in v) && (s == InUserInfo ==> UserInfo in v)
    requires t == InHost || t == InV6 ==> s == t || v[Host].len == 0
    ensures HostEnter(v, s, t, i) ==
            if f == Host && (HostLike(t) && (s == t || t == V6ZoneStart || t == V6Zone)) then
              v[f := Span(v[f].off, v[f].len + 1)]
            else if f != Host && s == t then v[f := Span(v[f].off, v[f].len + 1)]
            else v[f := Span(i, 1)]
  {
  }

  /** How the state tells whether a field has been begun. */
  lemma StateTells(a: Authority, found: bool)
    requires Made(a, found)
    ensures var s := HostStateFor(a, found);
            (s == InPort <==> a.port != "") && (s == InUserInfo ==> a.userinfo != "") &&
            (s == UserInfoStart ==> a.userinfo == "") && (BeforeHost(s) <==> a.name == "")
  {
  }

  lemma {:induction false} OwnFieldGrows(v: Fields, a: Authority, found: bool, ch: char, from: nat, t: HostState,
                                         f: UrlField)
    requires Made(a, found) && t == ParseHostChar(HostStateFor(a, found), ch) && t != HostDead
    requires HostHolds(v, a, from) && from + |AuthorityText(a)| < 0xFFFF && HostFieldOf(t) == Some(f)
    ensures HostHoldsAt(HostEnter(v, HostStateFor(a, found), t, from + |AuthorityText(a)|), AddHost(a, ch, t), from, f)
  {
    var s, i := HostStateFor(a, found), from + |AuthorityText(a)|;
    assert OpenEnded(a, t) by { OpenEnds(a, found, ch); }
    assert HostFollows(s, t) by { HostWalkAdvances(s, ch); }
    OpenStates(s, t);
    ZoneHasName(a, found, ch);
    StateTells(a, found);
    assert HostHoldsAt(v, a, from, Host) && HostHoldsAt(v, a, from, f);
    GrownHostSpan(a, from, ch, t, f);
    FieldEntered(v, a, s, t, i, from, f);
  }

  /** The same for the fields themselves. */
  lemma FieldEntered(v: Fields, a: Authority, s: HostState, t: HostState, i: nat, from: nat, f: UrlField)
    requires HostFollows(s, t) && HostFieldOf(t) == Some(f) && i < 0xFFFF && i == from + |AuthorityText(a)|
    requires HostHoldsAt(v, a, from, Host) && HostHoldsAt(v, a, from, f)
    requires (s == InPort <==> a.port != "") && (s == InUserInfo ==> a.userinfo != "") &&
             (s == UserInfoStart ==> a.userinfo == "") && (BeforeHost(s) <==> a.name == "")
    requires t == InPort ==> s == InPort || s == PortStart
    requires t == InUserInfo ==> s == InUserInfo || s == UserInfoStart
    requires t == InHost || t == InV6 ==> s == t || BeforeHost(s)
    requires t == V6Zone || t == V6ZoneStart ==> a.name != ""
    ensures var begins := f == Host && a.name == "";
            var w := HostEnter(v, s, t, i);
            f in w && w[f] == if HostSpan(a, from, f) == None || begins then Span(i, 1)
                              else Span(HostSpan(a, from, f).value.off, HostSpan(a, from, f).value.len + 1)
  {
    SpansFit(a, from);
    match f
    case Host => HostEnters(v, s, t, i, Host);
    case Port => HostEnters(v, s, t, i, Port);
    case UserInfo => HostEnters(v, s, t, i, UserInfo);
  }

  lemma SpansFit(a: Authority, from: nat)
    ensures HostSpan(a, from, Host).Some? ==> HostSpan(a, from, Host).value.len <= |AuthorityText(a)|
    ensures HostSpan(a, from, Port).Some? ==> HostSpan(a, from, Port).value.len <= |AuthorityText(a)|
    ensures HostSpan(a, from, UserInfo).Some? ==> HostSpan(a, from, UserInfo).value.len <= |AuthorityText(a)|
  {
  }

  /** A byte of user information or of the port goes on with the field or begins it. */
  lemma OpenStates(s: HostState, t: HostState)
    requires HostFollows(s, t)
    ensures t == InPort ==> s == InPort || s == PortStart
    ensures t == InUserInfo ==> s == InUserInfo || s == UserInfoStart
    ensures t == InHost || t == InV6 ==> s == t || BeforeHost(s)
  {
  }

  lemma EntersOneField(v: Fields, s: HostState, t: HostState, i: nat, f: UrlField)
    requires Host in v && HostFieldOf(t) != Some(f)
    ensures var w := HostEnter(v, s, t, i); (f in w <==> f in v) && (f in v ==> w[f] == v[f])
  {
  }

  lemma {:induction false} HostHoldsGrows(v: Fields, a: Authority, found: bool, ch: char, from: nat, t: HostState)
    requires Made(a, found) && t == ParseHostChar(HostStateFor(a, found), ch) && t != HostDead
    requires HostHolds(v, a, from) && from + |AuthorityText(a)| < 0xFFFF
    ensures HostHolds(HostEnter(v, HostStateFor(a, found), t, from + |AuthorityText(a)|), AddHost(a, ch, t), from)
  {
    var s, i := HostStateFor(a, found), from + |AuthorityText(a)|;
    assert HostHoldsAt(v, a, from, Host);
    OpenEnds(a, found, ch);
    forall f ensures HostHoldsAt(HostEnter(v, s, t, i), AddHost(a, ch, t), from, f) {
      assert HostHoldsAt(v, a, from, f);
      if HostFieldOf(t) == Some(f) {
        OwnFieldGrows(v, a, found, ch, from, t, f);
      } else {
        OtherHostSpans(a, from, ch, t, f);
        EntersOneField(v, s, t, i, f);
      }
    }
  }

  // ---------- every authority that is walked over is made of parts ----------

  lemma {:induction false} ReadGrows(a: Authority, found: bool, buf: string, from: nat, i: nat, j: nat)
    requires from <= i < j == i + 1 <= |buf| <= 0xFFFF && HostRead(a, found, buf, from, i)
    requires ParseHostChar(HostStateFor(a, found), buf[i]) != HostDead
    ensures HostRead(AddHost(a, buf[i], ParseHostChar(HostStateFor(a, found), buf[i])), found, buf, from, j)
  {
    var s, ch := HostStateFor(a, found), buf[i];
    var t := ParseHostChar(s, ch);
    assert Made(AddHost(a, ch, t), found) && HostStateFor(AddHost(a, ch, t), found) == t by {
      AuthorityGrows(a, found, ch);
    }
    assert AuthorityText(AddHost(a, ch, t)) == buf[from..j] by { ReadText(a, found, buf, from, i, j); }
    assert HostHolds(HostFieldsOf(buf, from, found, j), AddHost(a, ch, t), from) by {
      FieldsGrow(a, found, buf, from, i, t);
    }
    assert HostStateOf(buf, from, found, j) == t by { EnterIsHostStep(buf, from, found, i); }
  }

  lemma {:induction false} ReadText(a: Authority, found: bool, buf: string, from: nat, i: nat, j: nat)
    requires from <= i < j == i + 1 <= |buf| && Made(a, found) && AuthorityText(a) == buf[from..i]
    requires ParseHostChar(HostStateFor(a, found), buf[i]) != HostDead
    ensures AuthorityText(AddHost(a, buf[i], ParseHostChar(HostStateFor(a, found), buf[i]))) == buf[from..j]
  {
    OpenEnds(a, found, buf[i]);
    DelimiterFits(a, found, buf[i]);
    AuthorityTextGrows(a, buf[i], ParseHostChar(HostStateFor(a, found), buf[i]));
    assert buf[from..j] == buf[from..i] + [buf[i]];
  }

  lemma {:induction false} FieldsGrow(a: Authority, found: bool, buf: string, from: nat, i: nat, t: HostState)
    requires from <= i < |buf| <= 0xFFFF && HostRead(a, found, buf, from, i)
    requires t == ParseHostChar(HostStateFor(a, found), buf[i]) && t != HostDead
    ensures HostHolds(HostFieldsOf(buf, from, found, i + 1), AddHost(a, buf[i], t), from)
  {
    EnterIsHostStep(buf, from, found, i);
    HostHoldsGrows(HostFieldsOf(buf, from, found, i), a, found, buf[i], from, t);
  }

  lemma NothingRead(found: bool, buf: string, from: nat)
    requires from <= |buf|
    ensures HostRead(NOBODY, found, buf, from, from)
  {
    assert forall f :: HostHoldsAt(map[Host := Span(from, 0)], NOBODY, from, f);
  }

  lemma {:induction false} AuthorityOf(found: bool, buf: string, from: nat, i: nat) returns (a: Authority)
    requires from <= i <= |buf| <= 0xFFFF && HostStateOf(buf, from, found, i) != HostDead
    ensures HostRead(a, found, buf, from, i)
    decreases i
  {
    if i == from {
      a := NOBODY;
      NothingRead(found, buf, from);
    } else {
      EnterIsHostStep(buf, from, found, i - 1);
      var b := AuthorityOf(found, buf, from, i - 1);
      ReadGrows(b, found, buf, from, i - 1, i);
      a := AddHost(b, buf[i - 1], HostStateOf(buf, from, found, i));
    }
  }

  // ---------- and every authority made of parts is walked over ----------

  function DropHost(a: Authority): Authority {
    if a.port != "" then a.(port := ButLast(a.port))
    else if a.colon then a.(colon := false)
    else if a.close then a.(close := false)
    else if a.zone != "" then a.(zone := ButLast(a.zone))
    else if a.percent then a.(percent := false)
    else if a.name != "" then a.(name := ButLast(a.name))
    else if a.open then a.(open := false)
    else if a.at then a.(at := false)
    else if a.userinfo != "" then a.(userinfo := ButLast(a.userinfo))
    else a
  }

  function DroppedByte(a: Authority): char {
    if a.port != "" then LastChar(a.port)
    else if a.colon then ':'
    else if a.close then ']'
    else if a.zone != "" then LastChar(a.zone)
    else if a.percent then '%'
    else if a.name != "" then LastChar(a.name)
    else if a.open then '['
    else if a.at then '@'
    else if a.userinfo != "" then LastChar(a.userinfo)
    else NUL
  }

  /** Dropping the last byte undoes adding it. */
  predicate HostUndone(a: Authority, found: bool) {
    Made(DropHost(a), found) && HostStateFor(a, found) != HostDead &&
    ParseHostChar(HostStateFor(DropHost(a), found), DroppedByte(a)) == HostStateFor(a, found) &&
    AddHost(DropHost(a), DroppedByte(a), HostStateFor(a, found)) == a
  }

  lemma FrontAndBack(t: string)
    requires t != ""
    ensures ButLast(t) + [LastChar(t)] == t
    ensures AllUserInfo(t) ==> AllUserInfo(ButLast(t)) && IsUserInfoChar(LastChar(t))
    ensures HostName(t) ==> HostName(ButLast(t)) && IsHostChar(LastChar(t))
    ensures AddressText(t) ==>
              AddressText(ButLast(t)) && (IsHex(LastChar(t)) || LastChar(t) == ':' || LastChar(t) == '.')
    ensures ZoneText(t) ==> ZoneText(ButLast(t)) && IsZoneChar(LastChar(t))
    ensures AllDigits(t) ==> AllDigits(ButLast(t)) && IsNum(LastChar(t))
  {
  }

  lemma DropPort(a: Authority, found: bool)
    requires Made(a, found) && (a.port != "" || a.colon || a.close)
    ensures HostUndone(a, found)
  {
    if a.port != "" {
      FrontAndBack(a.port);
    }
  }

  lemma DropZone(a: Authority, found: bool)
    requires Made(a, found) && a.port == "" && !a.colon && !a.close && (a.zone != "" || a.percent)
    ensures HostUndone(a, found)
  {
    if a.zone != "" {
      FrontAndBack(a.zone);
    }
  }

  lemma DropName(a: Authority, found: bool)
    requires Made(a, found) && a.port == "" && !a.colon && !a.close && a.zone == "" && !a.percent && a.name != ""
    ensures HostUndone(a, found)
  {
    var b, ch := DropHost(a), DroppedByte(a);
    FrontAndBack(a.name);
    assert RightTexts(b) && b.name + [ch] == a.name;
    assert InOrderOf(b, found);
    NameWalk(b, found, ch);
  }

  lemma NameWalk(b: Authority, found: bool, ch: char)
    requires b.port == "" && !b.colon && !b.close && b.zone == "" && !b.percent && b.at == found
    requires if b.open then IsHex(ch) || ch == ':' || ch == '.' else IsHostChar(ch)
    ensures ParseHostChar(HostStateFor(b, found), ch) == if b.open then InV6 else InHost
  {
  }

  lemma DropFront(a: Authority, found: bool)
    requires Made(a, found) && a.name == "" && (a.open || a.at || a.userinfo != "")
    ensures HostUndone(a, found)
  {
    if !a.open && !a.at {
      FrontAndBack(a.userinfo);
    }
  }

  lemma {:induction false} DropAnyHost(a: Authority, found: bool)
    requires Made(a, found) && a != NOBODY
    ensures HostUndone(a, found)
  {
    if a.port != "" || a.colon || a.close {
      DropPort(a, found);
    } else if a.zone != "" || a.percent {
      DropZone(a, found);
    } else if a.name != "" {
      DropName(a, found);
    } else {
      DropFront(a, found);
    }
  }

  lemma {:induction false} UndoneText(a: Authority, found: bool)
    requires Made(a, found) && HostUndone(a, found)
    ensures AuthorityText(a) == AuthorityText(DropHost(a)) + [DroppedByte(a)]
  {
    OpenEnds(DropHost(a), found, DroppedByte(a));
    DelimiterFits(DropHost(a), found, DroppedByte(a));
    AuthorityTextGrows(DropHost(a), DroppedByte(a), HostStateFor(a, found));
  }

  /** An authority made of parts is walked over, and the parts are its fields. */
  lemma {:induction false} ReadOf(a: Authority, found: bool, buf: string, from: nat, i: nat)
    requires Made(a, found) && from <= i <= |buf| <= 0xFFFF && buf[from..i] == AuthorityText(a)
    ensures HostRead(a, found, buf, from, i)
    decreases i
  {
    if a == NOBODY {
      NothingRead(found, buf, from);
    } else {
      DropAnyHost(a, found);
      UndoneText(a, found);
      LastOfSlice(buf, from, i, AuthorityText(DropHost(a)), DroppedByte(a));
      ReadOf(DropHost(a), found, buf, from, i - 1);
      ReadOneMore(a, found, buf, from, i - 1, i);
    }
  }

  lemma LastOfSlice(buf: string, from: nat, i: nat, front: string, ch: char)
    requires from <= i <= |buf| && buf[from..i] == front + [ch]
    ensures from < i && buf[from..i - 1] == front && buf[i - 1] == ch
  {
    assert buf[from..i][i - from - 1] == ch;
    assert buf[from..i - 1] == buf[from..i][..i - from - 1];
  }

  lemma {:induction false} ReadOneMore(a: Authority, found: bool, buf: string, from: nat, i: nat, j: nat)
    requires HostUndone(a, found) && from <= i < j == i + 1 <= |buf| <= 0xFFFF && buf[i] == DroppedByte(a)
    requires HostRead(DropHost(a), found, buf, from, i)
    ensures HostRead(a, found, buf, from, j)
  {
    ReadGrows(DropHost(a), found, buf, from, i, j);
  }

  /** Where an authority ends, it is complete. */
  lemma EndsComplete(a: Authority, found: bool)
    requires Made(a, found)
    ensures HostMayEnd(HostStateFor(a, found)) <==> Complete(a)
    ensures Complete(a) ==> a.at == found
  {
  }

  lemma NoAt(t: string)
    ensures AllUserInfo(t) || HostName(t) || AddressText(t) || ZoneText(t) || AllDigits(t) ==> '@' !in t
  {
  }

  /** There is an at sign only behind the user information. */
  lemma AtSign(a: Authority, found: bool)
    requires Made(a, found)
    ensures '@' in AuthorityText(a) <==> a.at
  {
    NoAt(a.userinfo);
    NoAt(a.name);
    NoAt(a.zone);
    NoAt(a.port);
    if a.at {
      assert AuthorityText(a)[|a.userinfo|] == '@';
    }
  }
}
