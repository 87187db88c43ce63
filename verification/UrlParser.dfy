/** http_parser_parse_url and http_parse_host of http_parser.c: offsets and lengths are 16 bits wide. */
module UrlParser {
  import opened Options
  import opened HttpBytes
  import opened HttpParserTypes
  import opened HttpParserArms
  import opened HttpHeaderText
  import opened HttpParserSections

  datatype UrlField = Schema | Host | Port | Path | Query | Fragment | UserInfo

  /** The order in which the fields stand in a URL (section 3 of RFC 3986). */
  function Rank(f: UrlField): nat {
    match f
    case Schema => 0 case UserInfo => 1 case Host => 2 case Port => 3
    case Path => 4 case Query => 5 case Fragment => 6
  }

  datatype Span = Span(off: nat, len: nat)

  function End(sp: Span): nat {
    sp.off + sp.len
  }

  /** `field_set` and `field_data`: the keys are the fields that are set. */
  type Fields = map<UrlField, Span>

  function U16(n: nat): nat {
    n % 0x1_0000
  }

  // ---------- what a partition is ----------

  predicate IsDelimiter(c: char) {
    c == ':' || c == '/' || c == '@' || c == '[' || c == ']' || c == '?' || c == '#'
  }

  predicate Inside(sp: Span, k: nat) {
    sp.off <= k < End(sp)
  }

  predicate Covered(u: Fields, k: nat) {
    exists f :: f in u && Inside(u[f], k)
  }

  /** All spans lie in `[from, upto)`. */
  predicate Within(u: Fields, from: nat, upto: nat) {
    forall f :: f in u ==> from <= u[f].off && End(u[f]) <= upto
  }

  /** Non-empty fields follow each other in the order of their ranks; in particular none overlap. */
  predicate Ordered(u: Fields) {
    forall f, g {:trigger InOrder(u, f, g)} :: InOrder(u, f, g)
  }

  predicate InOrder(u: Fields, f: UrlField, g: UrlField) {
    f in u && g in u && Rank(f) < Rank(g) && u[f].len > 0 && u[g].len > 0 ==> End(u[f]) <= u[g].off
  }

  /** The bytes of `[from, upto)` that no field covers are delimiters. */
  predicate Tiled(u: Fields, buf: string, from: nat, upto: nat)
    requires upto <= |buf|
  {
    forall k :: from <= k < upto ==> Covered(u, k) || IsDelimiter(buf[k])
  }

  predicate NonEmpty(u: Fields) {
    forall f :: f in u ==> u[f].len > 0
  }

  predicate Partition(u: Fields, buf: string) {
    Within(u, 0, |buf|) && NonEmpty(u) && Ordered(u) && Tiled(u, buf, 0, |buf|)
  }

  /** The fields cut `[from, upto)` into consecutive pieces with only delimiters between them. */
  predicate Laid(u: Fields, buf: string, from: nat, upto: nat)
    requires upto <= |buf|
  {
    Within(u, from, upto) && Ordered(u) && Tiled(u, buf, from, upto)
  }

  /** Where field `f` starts if the byte at `i` belongs to it. */
  function StartOf(u: Fields, f: UrlField, i: nat): nat {
    if f in u && u[f].len > 0 then u[f].off else i
  }

  /** Field `f` can take the byte at `i`: it reaches up to there or starts there, and no later field is set. */
  predicate Takes(u: Fields, f: UrlField, i: nat) {
    (f in u && u[f].len > 0 ==> End(u[f]) == i) &&
    forall g :: g in u && u[g].len > 0 && g != f ==> Rank(g) < Rank(f)
  }

  function Extend(u: Fields, f: UrlField, i: nat): Fields {
    u[f := Span(StartOf(u, f, i), if StartOf(u, f, i) <= i then i + 1 - StartOf(u, f, i) else 0)]
  }

  lemma {:induction false} ExtendTiled(u: Fields, f: UrlField, buf: string, from: nat, i: nat)
    requires from <= i < |buf| && Within(u, from, i) && Tiled(u, buf, from, i) && Takes(u, f, i)
    ensures Tiled(Extend(u, f, i), buf, from, i + 1)
  {
    var v := Extend(u, f, i);
    forall k | from <= k < i + 1 ensures Covered(v, k) || IsDelimiter(buf[k]) {
      if k == i {
        assert Inside(v[f], k);
      } else if Covered(u, k) {
        var g :| g in u && Inside(u[g], k);
        assert Inside(v[g], k);
      }
    }
  }

  lemma {:induction false} ExtendLaid(u: Fields, f: UrlField, buf: string, from: nat, i: nat)
    requires from <= i < |buf| && Laid(u, buf, from, i) && Takes(u, f, i)
    ensures Laid(Extend(u, f, i), buf, from, i + 1)
  {
    var v := Extend(u, f, i);
    ExtendTiled(u, f, buf, from, i);
    forall g, h ensures InOrder(v, g, h) {
      assert InOrder(u, g, h);
    }
  }

  lemma DelimiterLaid(u: Fields, buf: string, from: nat, i: nat)
    requires i < |buf| && IsDelimiter(buf[i]) && Laid(u, buf, from, i)
    ensures Laid(u, buf, from, i + 1)
  {
  }

  // ---------- the host walker ----------

  datatype HostState =
    | HostDead | UserInfoStart | InUserInfo | HostStart | V6Start | InHost | InV6 | V6End
    | V6ZoneStart | V6Zone | PortStart | InPort

  /** `http_parse_host_char`. */
  function ParseHostChar(s: HostState, ch: char): HostState {
    match s
    case UserInfoStart => UserInfoChar(ch)
    case InUserInfo => UserInfoChar(ch)
    case HostStart => if ch == '[' then V6Start else if IsHostChar(ch) then InHost else HostDead
    case InHost => if IsHostChar(ch) then InHost else if ch == ':' then PortStart else HostDead
    case V6End => if ch == ':' then PortStart else HostDead
    case InV6 =>
      if ch == ']' then V6End
      else if IsHex(ch) || ch == ':' || ch == '.' then InV6
      else if ch == '%' then V6ZoneStart
      else HostDead
    case V6Start => if IsHex(ch) || ch == ':' || ch == '.' then InV6 else HostDead
    case V6Zone => if ch == ']' then V6End else ZoneChar(ch)
    case V6ZoneStart => ZoneChar(ch)
    case InPort => if IsNum(ch) then InPort else HostDead
    case PortStart => if IsNum(ch) then InPort else HostDead
    case HostDead => HostDead
  }

  function UserInfoChar(ch: char): HostState {
    if ch == '@' then HostStart else if IsUserInfoChar(ch) then InUserInfo else HostDead
  }

  function ZoneChar(ch: char): HostState {
    if IsAlphaNum(ch) || ch == '%' || ch == '.' || ch == '-' || ch == '_' || ch == '~' then V6Zone else HostDead
  }

  /** The states in which a host section may end. */
  predicate HostMayEnd(s: HostState) {
    s == InHost || s == V6End || s == InPort
  }

  // ---------- the first pass ----------

  /** The field a byte belongs to once the walker has stepped on it; none for a delimiter. */
  function FieldOf(s: State): Option<UrlField> {
    if s.ReqSchema? then Some(Schema)
    else if s.ReqServer? || s.ReqServerWithAt? then Some(Host)
    else if s.ReqPath? then Some(Path)
    else if s.ReqQueryString? then Some(Query)
    else if s.ReqFragment? then Some(Fragment)
    else None
  }

  /** `old_uf` after the walker has stepped into `t`. */
  function NextLast(last: Option<UrlField>, t: State): Option<UrlField> {
    if FieldOf(t).Some? then FieldOf(t) else last
  }

  /** The fields after the byte at `i` has brought the walker into `t`; `last` is the field before it. */
  function EnterFields(u: Fields, last: Option<UrlField>, t: State, i: nat): Fields {
    var f := FieldOf(t);
    if f.None? then u
    else if last == f && f.value in u then u[f.value := Span(u[f.value].off, U16(u[f.value].len + 1))]
    else u[f.value := Span(U16(i), 1)]
  }

  function StartOfWalk(isConnect: bool): State {
    if isConnect then ReqServerStart else ReqSpacesBeforeUrl
  }

  /** The walker after the first `n` bytes. */
  function StateOf(isConnect: bool, buf: string, n: nat): State
    requires n <= |buf|
  {
    if n == 0 then StartOfWalk(isConnect) else ParseUrlChar(StateOf(isConnect, buf, n - 1), buf[n - 1])
  }

  /** `old_uf` after the first `n` bytes. */
  function LastOf(isConnect: bool, buf: string, n: nat): Option<UrlField>
    requires n <= |buf|
  {
    if n == 0 then None else NextLast(LastOf(isConnect, buf, n - 1), StateOf(isConnect, buf, n))
  }

  /** `found_at` after the first `n` bytes. */
  predicate FoundAt(isConnect: bool, buf: string, n: nat)
    requires n <= |buf|
  {
    n > 0 && (FoundAt(isConnect, buf, n - 1) || StateOf(isConnect, buf, n).ReqServerWithAt?)
  }

  /** The fields after the first `n` bytes. */
  function FirstFields(isConnect: bool, buf: string, n: nat): Fields
    requires n <= |buf|
  {
    if n == 0 then map[]
    else
      EnterFields(FirstFields(isConnect, buf, n - 1), LastOf(isConnect, buf, n - 1), StateOf(isConnect, buf, n), n - 1)
  }

  /** The highest rank that a field can have when the walker is in `s`. */
  function Limit(s: State): int {
    if FieldOf(s).Some? then Rank(FieldOf(s).value)
    else if s.ReqSchemaSlash? || s.ReqSchemaSlashSlash? || s.ReqServerStart? then Rank(Schema)
    else if s.ReqQueryStringStart? then Rank(Path)
    else if s.ReqFragmentStart? then Rank(Query)
    else -1
  }

  /** The fields set so far belong to states already passed, and the current one reaches up to `i`. */
  predicate ScanControl(s: State, last: Option<UrlField>, u: Fields, i: nat) {
    Within(u, 0, i) && NonEmpty(u) && Port !in u && UserInfo !in u &&
    (forall f :: f in u ==> Rank(f) <= Limit(s)) &&
    (FieldOf(s).Some? ==> last == FieldOf(s) && last.value in u && End(u[last.value]) == i) &&
    (last.Some? ==> last.value in u) &&
    (s == ReqSpacesBeforeUrl || UrlState(s))
  }

  /** The walker only moves on to later fields, and skips only delimiters. */
  predicate Follows(s: State, t: State) {
    UrlState(t) && Limit(s) <= Limit(t) &&
    (FieldOf(t).Some? && FieldOf(t) != FieldOf(s) ==> Limit(s) < Limit(t))
  }

  lemma ServerAdvances(s: State, ch: char)
    requires s.ReqServerStart? || s.ReqServer? || s.ReqServerWithAt? || s.ReqPath?
    requires ParseUrlChar(s, ch) != Dead
    ensures Follows(s, ParseUrlChar(s, ch))
  {
    UrlWalkStays(s, ch);
  }

  lemma WalkAdvances(s: State, ch: char)
    requires (s == ReqSpacesBeforeUrl || UrlState(s)) && ParseUrlChar(s, ch) != Dead
    ensures Follows(s, ParseUrlChar(s, ch))
  {
    if s.ReqServerStart? || s.ReqServer? || s.ReqServerWithAt? || s.ReqPath? {
      ServerAdvances(s, ch);
    } else {
      UrlWalkStays(s, ch);
    }
  }

  lemma SkipsDelimiters(s: State, ch: char)
    requires ParseUrlChar(s, ch) != Dead && FieldOf(ParseUrlChar(s, ch)) == None
    ensures IsDelimiter(ch)
  {
  }

  lemma RanksDiffer(f: UrlField, g: UrlField)
    ensures f != g ==> Rank(f) != Rank(g)
  {
  }

  /** A byte of a field: it continues the field or starts it. */
  lemma EnterTakes(s: State, last: Option<UrlField>, u: Fields, t: State, i: nat, f: UrlField)
    requires ScanControl(s, last, u, i) && Follows(s, t) && FieldOf(t) == Some(f)
    ensures Takes(u, f, i) && (f in u ==> last == Some(f))
  {
    forall g | g in u && g != f ensures Rank(g) < Rank(f) {
      RanksDiffer(f, g);
    }
    assert f in u ==> FieldOf(s) == Some(f);
  }

  lemma EnterExtends(u: Fields, last: Option<UrlField>, t: State, i: nat, f: UrlField)
    requires NonEmpty(u) && i < 0xFFFF && FieldOf(t) == Some(f) && Takes(u, f, i)
    requires f in u ==> last == Some(f)
    ensures EnterFields(u, last, t, i) == Extend(u, f, i)
  {
  }

  lemma ExtendBounds(u: Fields, f: UrlField, i: nat)
    requires Within(u, 0, i) && NonEmpty(u) && Takes(u, f, i)
    ensures Within(Extend(u, f, i), 0, i + 1) && NonEmpty(Extend(u, f, i)) && End(Extend(u, f, i)[f]) == i + 1
  {
  }

  lemma ExtendRanks(u: Fields, f: UrlField, i: nat, before: int, after: int)
    requires NonEmpty(u) && Takes(u, f, i) && before <= after && Rank(f) <= after
    requires forall g :: g in u ==> Rank(g) <= before
    ensures forall g :: g in Extend(u, f, i) ==> Rank(g) <= after
  {
  }

  lemma ExtendControl(s: State, last: Option<UrlField>, u: Fields, t: State, i: nat, f: UrlField)
    requires ScanControl(s, last, u, i) && Follows(s, t) && FieldOf(t) == Some(f) && Takes(u, f, i)
    ensures ScanControl(t, Some(f), Extend(u, f, i), i + 1)
  {
    ExtendBounds(u, f, i);
    ExtendRanks(u, f, i, Limit(s), Limit(t));
  }

  /** The facts about the first `i` bytes in one word. */
  predicate ScanFits(s: State, last: Option<UrlField>, u: Fields, buf: string, i: nat)
    requires i <= |buf|
  {
    ScanControl(s, last, u, i) && Laid(u, buf, 0, i)
  }

  lemma {:induction false} EnterFits(s: State, last: Option<UrlField>, u: Fields, t: State, buf: string, i: nat)
    requires i < |buf| <= 0xFFFF && ScanFits(s, last, u, buf, i)
    requires Follows(s, t) && (FieldOf(t) == None ==> IsDelimiter(buf[i]))
    ensures ScanFits(t, NextLast(last, t), EnterFields(u, last, t, i), buf, i + 1)
  {
    if FieldOf(t).None? {
      DelimiterLaid(u, buf, 0, i);
    } else {
      var f := FieldOf(t).value;
      EnterTakes(s, last, u, t, i, f);
      EnterExtends(u, last, t, i, f);
      ExtendControl(s, last, u, t, i, f);
      ExtendLaid(u, f, buf, 0, i);
    }
  }

  lemma {:induction false} StepFits(s: State, last: Option<UrlField>, u: Fields, buf: string, i: nat)
    requires i < |buf| <= 0xFFFF && ScanFits(s, last, u, buf, i) && ParseUrlChar(s, buf[i]) != Dead
    ensures var t := ParseUrlChar(s, buf[i]); ScanFits(t, NextLast(last, t), EnterFields(u, last, t, i), buf, i + 1)
  {
    var t := ParseUrlChar(s, buf[i]);
    assert Follows(s, t) by { WalkAdvances(s, buf[i]); }
    if FieldOf(t) == None {
      SkipsDelimiters(s, buf[i]);
    }
    EnterFits(s, last, u, t, buf, i);
  }

  lemma DeadWalk(ch: char)
    ensures ParseUrlChar(Dead, ch) == Dead && FieldOf(Dead) == None
  {
  }

  lemma {:induction false} DeadWalkStays(isConnect: bool, buf: string, m: nat, n: nat)
    requires m <= n <= |buf| && StateOf(isConnect, buf, m) == Dead
    ensures StateOf(isConnect, buf, n) == Dead
    decreases n
  {
    if m < n {
      DeadWalkStays(isConnect, buf, m, n - 1);
      DeadWalk(buf[n - 1]);
    }
  }

  lemma AliveBefore(isConnect: bool, buf: string, m: nat, n: nat)
    requires m <= n <= |buf| && StateOf(isConnect, buf, n) != Dead
    ensures StateOf(isConnect, buf, m) != Dead
  {
    if StateOf(isConnect, buf, m) == Dead {
      DeadWalkStays(isConnect, buf, m, n);
    }
  }

  lemma WalkStep(isConnect: bool, buf: string, i: nat)
    requires i < |buf|
    ensures var t := ParseUrlChar(StateOf(isConnect, buf, i), buf[i]);
            StateOf(isConnect, buf, i + 1) == t &&
            FoundAt(isConnect, buf, i + 1) == (FoundAt(isConnect, buf, i) || t.ReqServerWithAt?) &&
            LastOf(isConnect, buf, i + 1) == NextLast(LastOf(isConnect, buf, i), t) &&
            FirstFields(isConnect, buf, i + 1) ==
              EnterFields(FirstFields(isConnect, buf, i), LastOf(isConnect, buf, i), t, i)
  {
  }

  lemma {:induction false} ScanOfFits(isConnect: bool, buf: string, n: nat)
    requires n <= |buf| <= 0xFFFF && StateOf(isConnect, buf, n) != Dead
    ensures ScanFits(StateOf(isConnect, buf, n), LastOf(isConnect, buf, n), FirstFields(isConnect, buf, n), buf, n)
  {
    if n > 0 {
      var i := n - 1;
      AliveBefore(isConnect, buf, i, n);
      ScanOfFits(isConnect, buf, i);
      WalkStep(isConnect, buf, i);
      StepFits(StateOf(isConnect, buf, i), LastOf(isConnect, buf, i), FirstFields(isConnect, buf, i), buf, i);
    }
  }

  // ---------- the second pass, over the authority ----------

  function Bump(u: Fields, f: UrlField, starts: bool, i: nat, len: nat): Fields {
    if f in u && !starts then u[f := Span(u[f].off, U16(u[f].len + 1))] else u[f := Span(U16(i), U16(len + 1))]
  }

  /** The bookkeeping for the byte at `i` that has brought the host walker from `s` into `t`. */
  function HostEnter(u: Fields, s: HostState, t: HostState, i: nat): Fields {
    if t == InHost || t == InV6 then Bump(u, Host, s != t, i, if Host in u then u[Host].len else 0)
    else if t == V6ZoneStart || t == V6Zone then Bump(u, Host, false, i, 0)
    else if t == InPort then Bump(u, Port, s != t, i, 0)
    else if t == InUserInfo then Bump(u, UserInfo, s != t, i, 0)
    else u
  }

  /** The host walker after the bytes of `[from, i)`. */
  function HostStateOf(buf: string, from: nat, foundAt: bool, i: nat): HostState
    requires from <= i <= |buf|
    decreases i
  {
    if i == from then (if foundAt then UserInfoStart else HostStart)
    else ParseHostChar(HostStateOf(buf, from, foundAt, i - 1), buf[i - 1])
  }

  /** The authority fields after the bytes of `[from, i)`. */
  function HostFieldsOf(buf: string, from: nat, foundAt: bool, i: nat): (v: Fields)
    requires from <= i <= |buf|
    ensures Host in v
    decreases i
  {
    if i == from then map[Host := Span(from, 0)]
    else HostEnter(HostFieldsOf(buf, from, foundAt, i - 1), HostStateOf(buf, from, foundAt, i - 1),
                   HostStateOf(buf, from, foundAt, i), i - 1)
  }

  predicate AuthorityField(f: UrlField) {
    f == UserInfo || f == Host || f == Port
  }

  predicate HostLike(s: HostState) {
    s == InHost || s == InV6 || s == V6ZoneStart || s == V6Zone
  }

  predicate BeforeHost(s: HostState) {
    s == UserInfoStart || s == InUserInfo || s == HostStart || s == V6Start
  }

  predicate PortDigits(u: Fields, buf: string) {
    Port in u ==> End(u[Port]) <= |buf| && AllDigits(buf[u[Port].off..End(u[Port])])
  }

  /** `v` is the authority part of the fields. */
  predicate HostControl(s: HostState, v: Fields, from: nat, i: nat) {
    from <= i && s != HostDead && Within(v, from, i) && (forall f :: f in v ==> AuthorityField(f)) &&
    Host in v && (v[Host].len == 0 <==> BeforeHost(s)) &&
    (UserInfo in v ==> v[UserInfo].len > 0) &&
    (Port in v <==> s == InPort) &&
    (s == UserInfoStart ==> UserInfo !in v) &&
    (s == InUserInfo ==> UserInfo in v && End(v[UserInfo]) == i) &&
    (HostLike(s) ==> End(v[Host]) == i) &&
    (s == InPort ==> End(v[Port]) == i && v[Port].len > 0)
  }

  /** The field a byte of the authority belongs to. */
  function HostFieldOf(s: HostState): Option<UrlField> {
    if HostLike(s) then Some(Host) else if s == InPort then Some(Port) else if s == InUserInfo then Some(UserInfo)
        else None
  }

  /** How the host walker moves. */
  predicate HostFollows(s: HostState, t: HostState) {
    s != HostDead && t != HostDead && t != UserInfoStart &&
    (HostLike(t) ==> (if t == InHost || t == InV6 then s == t || s == HostStart || s == V6Start else HostLike(s))) &&
    (t == InPort ==> s == InPort || s == PortStart) &&
    (t == InUserInfo ==> s == InUserInfo || s == UserInfoStart) &&
    (t == HostStart || t == V6Start ==> BeforeHost(s)) &&
    (t == V6End || t == PortStart ==> HostLike(s) || s == V6End)
  }

  lemma HostWalkAdvances(s: HostState, ch: char)
    requires s != HostDead && ParseHostChar(s, ch) != HostDead
    ensures HostFollows(s, ParseHostChar(s, ch))
    ensures HostFieldOf(ParseHostChar(s, ch)) == None ==> IsDelimiter(ch)
    ensures ParseHostChar(s, ch) == InPort ==> IsNum(ch)
  {
  }

  lemma HostEnterTakes(v: Fields, s: HostState, t: HostState, from: nat, i: nat, f: UrlField)
    requires HostControl(s, v, from, i) && HostFollows(s, t) && HostFieldOf(t) == Some(f)
    ensures Takes(v, f, i)
  {
  }

  /** `Bump` is `Extend` while offsets fit 16 bits. */
  lemma BumpExtends(u: Fields, f: UrlField, starts: bool, i: nat, len: nat)
    requires i < 0xFFFF && (starts ==> len == 0 && StartOf(u, f, i) == i)
    requires !starts ==> f in u && u[f].len > 0 && End(u[f]) == i
    ensures Bump(u, f, starts, i, len) == Extend(u, f, i)
  {
  }

  lemma HostEnterExtends(v: Fields, s: HostState, t: HostState, from: nat, i: nat, f: UrlField)
    requires HostControl(s, v, from, i) && i < 0xFFFF && HostFollows(s, t) && HostFieldOf(t) == Some(f)
    ensures HostEnter(v, s, t, i) == Extend(v, f, i)
  {
    if t == InHost || t == InV6 {
      BumpExtends(v, Host, s != t, i, v[Host].len);
    } else if t == V6ZoneStart || t == V6Zone {
      BumpExtends(v, Host, false, i, 0);
    } else {
      BumpExtends(v, f, s != t, i, 0);
    }
  }

  lemma HostEnterControl(v: Fields, s: HostState, t: HostState, from: nat, i: nat)
    requires HostControl(s, v, from, i) && i < 0xFFFF && HostFollows(s, t)
    ensures HostControl(t, HostEnter(v, s, t, i), from, i + 1)
  {
    if HostFieldOf(t).Some? {
      HostEnterExtends(v, s, t, from, i, HostFieldOf(t).value);
    }
  }

  lemma {:induction false} PortExtends(u: Fields, buf: string, i: nat)
    requires i < |buf| && PortDigits(u, buf) && IsNum(buf[i]) && Takes(u, Port, i)
    requires Port in u ==> u[Port].len > 0
    ensures PortDigits(Extend(u, Port, i), buf)
  {
    var v := Extend(u, Port, i);
    var off := StartOf(u, Port, i);
    assert buf[off..i + 1] == buf[off..i] + [buf[i]];
    if off == i {
      assert buf[off..i] == "";
    }
  }

  /** The facts about the authority bytes so far in one word. */
  predicate HostFits(s: HostState, v: Fields, buf: string, from: nat, i: nat)
    requires i <= |buf|
  {
    HostControl(s, v, from, i) && Laid(v, buf, from, i) && PortDigits(v, buf)
  }

  lemma {:induction false} HostByteFits(v: Fields, s: HostState, buf: string, from: nat, i: nat)
    requires from <= i < |buf| <= 0xFFFF && HostFits(s, v, buf, from, i) && ParseHostChar(s, buf[i]) != HostDead
    ensures var t := ParseHostChar(s, buf[i]); HostFits(t, HostEnter(v, s, t, i), buf, from, i + 1)
  {
    var t := ParseHostChar(s, buf[i]);
    HostWalkAdvances(s, buf[i]);
    HostEnterControl(v, s, t, from, i);
    if HostFieldOf(t).None? {
      DelimiterLaid(v, buf, from, i);
    } else {
      var f := HostFieldOf(t).value;
      HostEnterTakes(v, s, t, from, i, f);
      HostEnterExtends(v, s, t, from, i, f);
      ExtendLaid(v, f, buf, from, i);
      if f == Port {
        PortExtends(v, buf, i);
      }
    }
  }

  lemma HostScanStarts(buf: string, from: nat, foundAt: bool)
    requires from <= |buf|
    ensures HostFits(HostStateOf(buf, from, foundAt, from), HostFieldsOf(buf, from, foundAt, from), buf, from, from)
  {
  }

  lemma EnterIsHostStep(buf: string, from: nat, foundAt: bool, i: nat)
    requires from <= i < |buf|
    ensures var s := HostStateOf(buf, from, foundAt, i);
            var t := ParseHostChar(s, buf[i]);
            HostStateOf(buf, from, foundAt, i + 1) == t &&
            HostFieldsOf(buf, from, foundAt, i + 1) == HostEnter(HostFieldsOf(buf, from, foundAt, i), s, t, i)
  {
  }

  lemma HostStepBefore(buf: string, from: nat, foundAt: bool, i: nat)
    requires from < i <= |buf|
    ensures var s := HostStateOf(buf, from, foundAt, i - 1);
            var t := HostStateOf(buf, from, foundAt, i);
            t == ParseHostChar(s, buf[i - 1]) &&
            HostFieldsOf(buf, from, foundAt, i) == HostEnter(HostFieldsOf(buf, from, foundAt, i - 1), s, t, i - 1)
  {
  }

  lemma {:induction false} HostScanFits(buf: string, from: nat, foundAt: bool, i: nat)
    requires from <= i <= |buf| <= 0xFFFF && HostStateOf(buf, from, foundAt, i) != HostDead
    ensures HostFits(HostStateOf(buf, from, foundAt, i), HostFieldsOf(buf, from, foundAt, i), buf, from, i)
    decreases i
  {
    if i == from {
      HostScanStarts(buf, from, foundAt);
    } else {
      var s := HostStateOf(buf, from, foundAt, i - 1);
      assert s != HostDead;
      HostScanFits(buf, from, foundAt, i - 1);
      EnterIsHostStep(buf, from, foundAt, i - 1);
      HostByteFits(HostFieldsOf(buf, from, foundAt, i - 1), s, buf, from, i - 1);
    }
  }

  lemma {:induction false} DeadHostStays(buf: string, from: nat, foundAt: bool, m: nat, n: nat)
    requires from <= m <= n <= |buf| && HostStateOf(buf, from, foundAt, m) == HostDead
    ensures HostStateOf(buf, from, foundAt, n) == HostDead
    decreases n
  {
    if m < n {
      DeadHostStays(buf, from, foundAt, m, n - 1);
    }
  }

  /** The fields of the second pass take the place of the one the first pass had for the whole authority. */
  lemma {:induction false} MergeLaid(u: Fields, v: Fields, buf: string)
    requires Laid(u, buf, 0, |buf|) && NonEmpty(u) && Host in u && Port !in u && UserInfo !in u
    requires Laid(v, buf, u[Host].off, End(u[Host])) && NonEmpty(v) && Host in v
    requires forall f :: f in v ==> AuthorityField(f)
    ensures Partition(u + v, buf)
  {
    var w := u + v;
    forall k | 0 <= k < |buf| ensures Covered(w, k) || IsDelimiter(buf[k]) {
      if Covered(u, k) {
        var f :| f in u && Inside(u[f], k);
        if f != Host {
          assert Inside(w[f], k);
        } else if Covered(v, k) {
          var g :| g in v && Inside(v[g], k);
          assert Inside(w[g], k);
        }
      }
    }
    forall f, g ensures InOrder(w, f, g) {
      MergeOrdered(u, v, f, g, |buf|);
    }
  }

  lemma MergeOrdered(u: Fields, v: Fields, f: UrlField, g: UrlField, n: nat)
    requires Within(u, 0, n) && Ordered(u) && NonEmpty(u) && Host in u && Port !in u && UserInfo !in u
    requires Within(v, u[Host].off, End(u[Host])) && Ordered(v) && NonEmpty(v) && Host in v
    requires forall h :: h in v ==> AuthorityField(h)
    ensures InOrder(u + v, f, g)
  {
    assert InOrder(u, f, g) && InOrder(v, f, g) && InOrder(u, Host, g) && InOrder(u, f, Host);
  }

  // ---------- inputs of any length ----------

  lemma EnterHeld(u: Fields, last: Option<UrlField>, t: State, i: nat)
    requires Within(u, 0, i) && Port !in u && UserInfo !in u
    ensures var v := EnterFields(u, last, t, i); Within(v, 0, i + 1) && Port !in v && UserInfo !in v
  {
  }

  /** Whatever the length of the input, the fields of the first pass lie inside it. */
  lemma {:induction false} FirstFieldsHeld(isConnect: bool, buf: string, n: nat)
    requires n <= |buf|
    ensures var u := FirstFields(isConnect, buf, n); Within(u, 0, n) && Port !in u && UserInfo !in u
    decreases n
  {
    if n > 0 {
      FirstFieldsHeld(isConnect, buf, n - 1);
      EnterHeld(FirstFields(isConnect, buf, n - 1), LastOf(isConnect, buf, n - 1), StateOf(isConnect, buf, n), n - 1);
    }
  }

  predicate HostHeld(s: HostState, v: Fields, i: nat) {
    Within(v, 0, i) && Host in v && (BeforeHost(s) ==> v[Host].len == 0)
  }

  lemma BumpHeld(u: Fields, f: UrlField, starts: bool, i: nat, len: nat)
    requires Within(u, 0, i) && (starts || f !in u ==> len == 0)
    ensures Within(Bump(u, f, starts, i, len), 0, i + 1)
  {
  }

  lemma HostStartsOnce(s: HostState, ch: char)
    ensures var t := ParseHostChar(s, ch);
            (t == InHost || t == InV6 ==> s == t || BeforeHost(s)) && (BeforeHost(t) ==> BeforeHost(s))
  {
  }

  lemma HostEnterHeld(v: Fields, s: HostState, ch: char, t: HostState, w: Fields, i: nat)
    requires i > 0 && HostHeld(s, v, i - 1) && t == ParseHostChar(s, ch) && w == HostEnter(v, s, t, i - 1)
    ensures HostHeld(t, w, i)
  {
    HostStartsOnce(s, ch);
    if t == InHost || t == InV6 {
      BumpHeld(v, Host, s != t, i - 1, v[Host].len);
    } else if t == V6ZoneStart || t == V6Zone {
      BumpHeld(v, Host, false, i - 1, 0);
    } else if t == InPort {
      BumpHeld(v, Port, s != t, i - 1, 0);
    } else if t == InUserInfo {
      BumpHeld(v, UserInfo, s != t, i - 1, 0);
    }
  }

  lemma HostStartsHeld(buf: string, from: nat, foundAt: bool)
    requires from <= |buf|
    ensures HostHeld(HostStateOf(buf, from, foundAt, from), HostFieldsOf(buf, from, foundAt, from), from)
  {
  }

  lemma HostStepHeld(buf: string, from: nat, foundAt: bool, i: nat)
    requires from < i <= |buf|
    requires HostHeld(HostStateOf(buf, from, foundAt, i - 1), HostFieldsOf(buf, from, foundAt, i - 1), i - 1)
    ensures HostHeld(HostStateOf(buf, from, foundAt, i), HostFieldsOf(buf, from, foundAt, i), i)
  {
    HostStepBefore(buf, from, foundAt, i);
    HostEnterHeld(HostFieldsOf(buf, from, foundAt, i - 1), HostStateOf(buf, from, foundAt, i - 1), buf[i - 1],
                  HostStateOf(buf, from, foundAt, i), HostFieldsOf(buf, from, foundAt, i), i);
  }

  /** So do those of the second pass. */
  lemma {:induction false} HostScanHeld(buf: string, from: nat, foundAt: bool, i: nat)
    requires from <= i <= |buf|
    ensures HostHeld(HostStateOf(buf, from, foundAt, i), HostFieldsOf(buf, from, foundAt, i), i)
    decreases i
  {
    if i == from {
      HostStartsHeld(buf, from, foundAt);
    } else {
      HostScanHeld(buf, from, foundAt, i - 1);
      HostStepHeld(buf, from, foundAt, i);
    }
  }

  // ---------- the whole function ----------

  /** `char` is signed. */
  function SignedByte(ch: char): int {
    if ch as int >= 128 then ch as int - 256 else ch as int
  }

  /** One turn of the loop over the port: `unsigned long` arithmetic, whatever the byte. */
  function PortByte(v: nat, ch: char): Option<nat> {
    var n := (v * 10 + (SignedByte(ch) - '0' as int)) % 0x1_0000_0000_0000_0000;
    if n > 0xFFFF then None else Some(n)
  }

  /** The port number that a text gives. */
  function PortNumber(text: string): Option<nat> {
    if text == "" then Some(0)
    else match PortNumber(text[..|text| - 1])
      case None => None
      case Some(v) => PortByte(v, text[|text| - 1])
  }

  /** Digits give their value if that is at most 65535, and nothing otherwise. */
  lemma {:induction false} PortNumberIsDecimal(text: string)
    requires AllDigits(text)
    ensures PortNumber(text) == if Decimal(text) <= 0xFFFF then Some(Decimal(text)) else None
    decreases |text|
  {
    if text != "" {
      var front, last := text[..|text| - 1], text[|text| - 1];
      assert text == front + [last];
      PortNumberIsDecimal(front);
      DecimalSnoc(front, last);
      assert Decimal(text) == Decimal(front) * 10 + Digit(last);
    }
  }

  lemma {:induction false} NoPortStays(text: string, n: nat)
    requires n <= |text| && PortNumber(text[..n]) == None
    ensures PortNumber(text) == None
    decreases |text|
  {
    if n == |text| {
      assert text[..n] == text;
    } else {
      assert text[..|text| - 1][..n] == text[..n];
      NoPortStays(text[..|text| - 1], n);
    }
  }

  function PortText(u: Fields, buf: string): string
    requires Port in u && Within(u, 0, |buf|)
  {
    buf[u[Port].off..End(u[Port])]
  }

  predicate PortFits(u: Fields, buf: string)
    requires Within(u, 0, |buf|)
  {
    Port in u ==> PortNumber(PortText(u, buf)).Some?
  }

  /** The port number, 0 if the URL names none. */
  function PortValue(u: Fields, buf: string): nat
    requires Within(u, 0, |buf|) && PortFits(u, buf)
  {
    if Port in u then PortNumber(PortText(u, buf)).value else 0
  }

  /** The byte walk does not fail, and a scheme comes with a host. */
  predicate Walks(buf: string, isConnect: bool) {
    buf != "" && StateOf(isConnect, buf, |buf|) != Dead &&
    (Schema in FirstFields(isConnect, buf, |buf|) ==> Host in FirstFields(isConnect, buf, |buf|))
  }

  /** The authority, if there is one, ends where it may. */
  predicate HostEnds(buf: string, isConnect: bool)
    requires Walks(buf, isConnect)
  {
    FirstFieldsHeld(isConnect, buf, |buf|);
    var u := FirstFields(isConnect, buf, |buf|);
    Host in u ==> HostMayEnd(HostStateOf(buf, u[Host].off, FoundAt(isConnect, buf, |buf|), End(u[Host])))
  }

  /** The fields of both passes. */
  function UrlFields(buf: string, isConnect: bool): (w: Fields)
    requires Walks(buf, isConnect) && HostEnds(buf, isConnect)
    ensures Within(w, 0, |buf|)
  {
    FirstFieldsHeld(isConnect, buf, |buf|);
    var u := FirstFields(isConnect, buf, |buf|);
    if Host !in u then u
    else
      var from, found, upto := u[Host].off, FoundAt(isConnect, buf, |buf|), End(u[Host]);
      HostScanHeld(buf, from, found, upto);
      u + HostFieldsOf(buf, from, found, upto)
  }

  /** http_parser_parse_url returns 0. */
  predicate Accepts(buf: string, isConnect: bool) {
    Walks(buf, isConnect) && HostEnds(buf, isConnect) &&
    (isConnect ==> UrlFields(buf, isConnect).Keys == {Host, Port}) && PortFits(UrlFields(buf, isConnect), buf)
  }

  /** An accepted URL is cut into fields that lie inside it, do not overlap, follow each other in the order
      scheme, userinfo, host, port, path, query, fragment and leave out nothing but delimiters. */
  lemma {:induction false} UrlIsPartition(buf: string, isConnect: bool)
    requires |buf| <= 0xFFFF && Walks(buf, isConnect) && HostEnds(buf, isConnect)
    ensures Partition(UrlFields(buf, isConnect), buf)
  {
    var found, u := FoundAt(isConnect, buf, |buf|), FirstFields(isConnect, buf, |buf|);
    ScanOfFits(isConnect, buf, |buf|);
    if Host in u {
      var from, upto := u[Host].off, End(u[Host]);
      HostScanFits(buf, from, found, upto);
      MergeLaid(u, HostFieldsOf(buf, from, found, upto), buf);
    }
  }

  /** The port of a URL of at most 65535 bytes is the decimal value of its digits. */
  lemma {:induction false} PortIsDecimal(buf: string, isConnect: bool)
    requires |buf| <= 0xFFFF && Walks(buf, isConnect) && HostEnds(buf, isConnect)
    ensures var u := UrlFields(buf, isConnect);
            Port in u ==>
              AllDigits(PortText(u, buf)) && (PortFits(u, buf) <==> Decimal(PortText(u, buf)) <= 0xFFFF) &&
              (PortFits(u, buf) ==> PortValue(u, buf) == Decimal(PortText(u, buf)))
  {
    var found, u := FoundAt(isConnect, buf, |buf|), FirstFields(isConnect, buf, |buf|);
    ScanOfFits(isConnect, buf, |buf|);
    if Host in u {
      HostScanFits(buf, u[Host].off, found, End(u[Host]));
      var w := UrlFields(buf, isConnect);
      if Port in w {
        PortNumberIsDecimal(PortText(w, buf));
      }
    }
  }

  // ---------- longer inputs ----------

  predicate IsPath(buf: string) {
    buf != "" && buf[0] == '/' && forall i :: 0 < i < |buf| ==> buf[i] == 'a'
  }

  lemma PathByte(i: nat)
    ensures ParseUrlChar(ReqSpacesBeforeUrl, '/') == ReqPath && ParseUrlChar(ReqPath, 'a') == ReqPath
    ensures EnterFields(map[], None, ReqPath, 0) == map[Path := Span(0, 1)]
    ensures EnterFields(map[Path := Span(0, U16(i))], Some(Path), ReqPath, i) == map[Path := Span(0, U16(i + 1))]
  {
  }

  /** The length of a field is counted modulo 65536. */
  lemma {:induction false} PathWalk(buf: string, n: nat)
    requires IsPath(buf) && 0 < n <= |buf|
    ensures StateOf(false, buf, n) == ReqPath && LastOf(false, buf, n) == Some(Path)
    ensures FirstFields(false, buf, n) == map[Path := Span(0, U16(n))]
    decreases n
  {
    PathByte(n - 1);
    if n > 1 {
      PathWalk(buf, n - 1);
    } else {
      assert FirstFields(false, buf, 0) == map[];
    }
    WalkStep(false, buf, n - 1);
  }

  lemma {:induction false} LongPathIsCutOff(buf: string)
    requires IsPath(buf) && |buf| > 0xFFFF
    ensures Accepts(buf, false) && !Partition(UrlFields(buf, false), buf)
  {
    PathWalk(buf, |buf|);
    var u := FirstFields(false, buf, |buf|);
    assert UrlFields(buf, false) == u;
    assert !Covered(u, |buf| - 1) && !IsDelimiter(buf[|buf| - 1]);
  }

  /** The 16-bit offsets and lengths: accepted inputs of a given length are all cut up properly if and only if that
      length is at most 65535. */
  lemma {:induction false} PartitionUpTo(n: nat)
    ensures n <= 0xFFFF <==>
            forall buf :: |buf| == n && Accepts(buf, false) ==> Partition(UrlFields(buf, false), buf)
  {
    if n <= 0xFFFF {
      forall buf | |buf| == n && Accepts(buf, false) ensures Partition(UrlFields(buf, false), buf) {
        UrlIsPartition(buf, false);
      }
    } else {
      var path := seq(n, i => if i == 0 then '/' else 'a');
      LongPathIsCutOff(path);
    }
  }

  /** The loop over the port digits, which stops as soon as the value is too big. */
  method ParsePort(buf: string, sp: Span) returns (ok: bool, v: nat)
    requires End(sp) <= |buf|
    ensures var port := PortNumber(buf[sp.off..End(sp)]); ok == port.Some? && (ok ==> v == port.value)
  {
    var text := buf[sp.off..End(sp)];
    v := 0;
    for k := 0 to |text|
      invariant PortNumber(text[..k]) == Some(v)
    {
      assert text[..k + 1][..k] == text[..k];
      var next := PortByte(v, text[k]);
      if next.None? {
        NoPortStays(text, k + 1);
        return false, v;
      }
      v := next.value;
    }
    assert text[..|text|] == text;
    ok := true;
  }

  /** The walker's bookkeeping does not look at the fields outside the authority. */
  lemma EnterMerged(u: Fields, v: Fields, s: HostState, t: HostState, i: nat)
    requires Host in u && Port !in u && UserInfo !in u && Host in v
    ensures HostEnter(u + v, s, t, i) == u + HostEnter(v, s, t, i)
  {
  }

  /** The loop of http_parse_host in front of the byte at `p`. */
  predicate HostAt(buf: string, base: Fields, foundAt: bool, p: nat, s: HostState, w: Fields)
  {
    Host in base && Port !in base && UserInfo !in base && base[Host].off <= p <= End(base[Host]) <= |buf| &&
    s == HostStateOf(buf, base[Host].off, foundAt, p) && w == base + HostFieldsOf(buf, base[Host].off, foundAt, p)
  }

  lemma HostFirst(buf: string, base: Fields, foundAt: bool)
    requires Host in base && Port !in base && UserInfo !in base && End(base[Host]) <= |buf|
    ensures HostAt(buf, base, foundAt, base[Host].off, if foundAt then UserInfoStart else HostStart,
                   base[Host := Span(base[Host].off, 0)])
  {
  }

  lemma HostNext(buf: string, base: Fields, foundAt: bool, p: nat, s: HostState, w: Fields, t: HostState)
    requires HostAt(buf, base, foundAt, p, s, w) && p < End(base[Host]) && t == ParseHostChar(s, buf[p])
    ensures HostAt(buf, base, foundAt, p + 1, t, HostEnter(w, s, t, p))
  {
    EnterIsHostStep(buf, base[Host].off, foundAt, p);
    EnterMerged(base, HostFieldsOf(buf, base[Host].off, foundAt, p), s, ParseHostChar(s, buf[p]), p);
  }

  lemma HostDone(buf: string, base: Fields, foundAt: bool, p: nat, s: HostState, w: Fields)
    requires HostAt(buf, base, foundAt, p, s, w) && (p == End(base[Host]) || s == HostDead)
    ensures HostMayEnd(s) == HostMayEnd(HostStateOf(buf, base[Host].off, foundAt, End(base[Host])))
    ensures HostMayEnd(s) ==> w == base + HostFieldsOf(buf, base[Host].off, foundAt, End(base[Host]))
  {
    if s == HostDead {
      DeadHostStays(buf, base[Host].off, foundAt, p, End(base[Host]));
    }
  }

  /** http_parse_host, on the fields of the first pass. */
  method ParseHost(buf: string, u: Fields, foundAt: bool) returns (ok: bool, w: Fields)
    requires Host in u && Port !in u && UserInfo !in u && End(u[Host]) <= |buf|
    ensures ok == HostMayEnd(HostStateOf(buf, u[Host].off, foundAt, End(u[Host])))
    ensures ok ==> w == u + HostFieldsOf(buf, u[Host].off, foundAt, End(u[Host]))
  {
    var from := u[Host].off;
    var buflen := End(u[Host]);
    w := u[Host := Span(from, 0)];
    var s := if foundAt then UserInfoStart else HostStart;
    var p := from;
    HostFirst(buf, u, foundAt);
    while p < buflen && s != HostDead
      invariant HostAt(buf, u, foundAt, p, s, w)
    {
      var newS := ParseHostChar(s, buf[p]);
      HostNext(buf, u, foundAt, p, s, w, newS);
      w := HostEnter(w, s, newS, p);
      s := newS;
      p := p + 1;
    }
    HostDone(buf, u, foundAt, p, s, w);
    ok := HostMayEnd(s);
  }

  /** The loop of the first pass in front of the byte at `p`. */
  predicate ScanAt(isConnect: bool, buf: string, p: nat, s: State, oldUf: Option<UrlField>, u: Fields, foundAt: bool)
  {
    p <= |buf| && s == StateOf(isConnect, buf, p) && oldUf == LastOf(isConnect, buf, p) &&
    u == FirstFields(isConnect, buf, p) && foundAt == FoundAt(isConnect, buf, p)
  }

  lemma ScanStarts(isConnect: bool, buf: string)
    ensures ScanAt(isConnect, buf, 0, StartOfWalk(isConnect), None, map[], false)
  {
  }

  lemma ScanNext(isConnect: bool, buf: string, p: nat, s: State, oldUf: Option<UrlField>, u: Fields, foundAt: bool,
                 t: State, found: bool)
    requires p < |buf| && ScanAt(isConnect, buf, p, s, oldUf, u, foundAt)
    requires t == ParseUrlChar(s, buf[p]) && found == (foundAt || t.ReqServerWithAt?)
    ensures ScanAt(isConnect, buf, p + 1, t, NextLast(oldUf, t), EnterFields(u, oldUf, t, p), found)
  {
    WalkStep(isConnect, buf, p);
  }

  lemma ScanEnds(isConnect: bool, buf: string, p: nat, s: State, oldUf: Option<UrlField>, u: Fields, foundAt: bool)
    requires ScanAt(isConnect, buf, p, s, oldUf, u, foundAt) && (p == |buf| || s == Dead)
    ensures s == Dead <==> StateOf(isConnect, buf, |buf|) == Dead
    ensures s != Dead ==> u == FirstFields(isConnect, buf, |buf|) && foundAt == FoundAt(isConnect, buf, |buf|)
  {
    if s == Dead {
      DeadWalkStays(isConnect, buf, p, |buf|);
    }
  }

  /** One turn of the loop. */
  method ScanByte(ghost isConnect: bool, buf: string, p: nat, s: State, oldUf: Option<UrlField>, u: Fields,
                  foundAt: bool)
      returns (t: State, newUf: Option<UrlField>, v: Fields, found: bool)
    requires ScanAt(isConnect, buf, p, s, oldUf, u, foundAt) && p < |buf|
    ensures ScanAt(isConnect, buf, p + 1, t, newUf, v, found)
  {
    t := ParseUrlChar(s, buf[p]);
    found := foundAt || t.ReqServerWithAt?;
    v, newUf := EnterFields(u, oldUf, t, p), NextLast(oldUf, t);
    ScanNext(isConnect, buf, p, s, oldUf, u, foundAt, t, found);
  }

  method ScanFields(buf: string, isConnect: bool) returns (s: State, u: Fields, foundAt: bool)
    ensures s == Dead <==> StateOf(isConnect, buf, |buf|) == Dead
    ensures s != Dead ==> u == FirstFields(isConnect, buf, |buf|) && foundAt == FoundAt(isConnect, buf, |buf|)
  {
    s, u, foundAt := StartOfWalk(isConnect), map[], false;
    var oldUf: Option<UrlField> := None;
    var p := 0;
    ScanStarts(isConnect, buf);
    while p < |buf| && s != Dead
      invariant ScanAt(isConnect, buf, p, s, oldUf, u, foundAt)
    {
      s, oldUf, u, foundAt := ScanByte(isConnect, buf, p, s, oldUf, u, foundAt);
      p := p + 1;
    }
    ScanEnds(isConnect, buf, p, s, oldUf, u, foundAt);
  }

  /** http_parser_parse_url. */
  method ParseUrl(buf: string, isConnect: bool) returns (ok: bool, u: Fields, port: nat)
    ensures ok == Accepts(buf, isConnect)
    ensures ok ==> u == UrlFields(buf, isConnect) && port == PortValue(u, buf)
  {
    u, port := map[], 0;
    if |buf| == 0 {
      return false, u, port;
    }
    var s, foundAt;
    s, u, foundAt := ScanFields(buf, isConnect);
    if s == Dead || (Schema in u && Host !in u) {
      return false, u, port;
    }
    FirstFieldsHeld(isConnect, buf, |buf|);
    if Host in u {
      var found;
      found, u := ParseHost(buf, u, foundAt);
      if !found {
        return false, u, port;
      }
    }
    assert u == UrlFields(buf, isConnect);
    if isConnect && u.Keys != {Host, Port} {
      return false, u, port;
    }
    if Port in u {
      ok, port := ParsePort(buf, u[Port]);
      return ok, u, port;
    }
    ok := true;
  }
}
