/** The greedy matcher of docopt.py: the match methods of the pattern classes. Repeated values are not
    counted in place here: a matched leaf is always appended to what was collected. */
module DocoptMatch {
  import opened Options
  import opened DocoptPattern

  /** The `assert` of OneOrMore.match. */
  predicate WellFormed(p: Pattern)
    decreases p
  {
    match p
    case Terminal(_) => true
    case OneOrMore(children) => |children| == 1 && WellFormed(children[0])
    case Required(children) => forall i :: 0 <= i < |children| ==> WellFormed(children[i])
    case Optional(children) => forall i :: 0 <= i < |children| ==> WellFormed(children[i])
    case OptionsShortcut(children) => forall i :: 0 <= i < |children| ==> WellFormed(children[i])
    case Either(children) => forall i :: 0 <= i < |children| ==> WellFormed(children[i])
  }

  // ---------- leaves ----------

  /** A command-line item that satisfies a leaf. */
  predicate Accepts(leaf: Leaf, item: Leaf) {
    match leaf
    case Argument(_, _) => item.Argument?
    case Command(name, _) => item.Argument? && name.Some? && item.value == Text(name.value)
    case Opt(_, _, _, _) => item.Name() == leaf.Name()
  }

  /** What is collected for an accepted item. */
  function Collects(leaf: Leaf, item: Leaf): (r: Leaf)
    requires Accepts(leaf, item)
    ensures r.Name() == leaf.Name() && r.value == if leaf.Command? then Flag(true) else item.value
  {
    match leaf
    case Argument(name, _) => Argument(name, item.value)
    case Command(name, _) => Command(name, Flag(true))
    case Opt(_, _, _, _) => item
  }

  /** The items a leaf stops at: for a command that is the first positional one, whatever it says. */
  predicate StopsAt(leaf: Leaf, item: Leaf) {
    if leaf.Opt? then Accepts(leaf, item) else item.Argument?
  }

  function FirstStop(leaf: Leaf, left: seq<Leaf>): (n: nat)
    ensures n <= |left|
  {
    if left == [] || StopsAt(leaf, left[0]) then 0 else 1 + FirstStop(leaf, left[1..])
  }

  /** The position of the item a leaf takes, or the number of items. */
  function Position(leaf: Leaf, left: seq<Leaf>): (n: nat)
    ensures n <= |left| && (n < |left| ==> Accepts(leaf, left[n]))
  {
    var n := FirstStop(leaf, left);
    if n < |left| && Accepts(leaf, left[n]) then n else |left|
  }

  /** An argument or option takes the first item it accepts; a command only looks at the first positional
      item. */
  lemma {:induction false} PositionIsFirst(leaf: Leaf, left: seq<Leaf>)
    ensures forall k :: 0 <= k < FirstStop(leaf, left) ==> !StopsAt(leaf, left[k])
    ensures FirstStop(leaf, left) < |left| ==> StopsAt(leaf, left[FirstStop(leaf, left)])
    ensures !leaf.Command? ==>
            (Position(leaf, left) == |left| <==> forall k :: 0 <= k < |left| ==> !Accepts(leaf, left[k]))
  {
    if left != [] && !StopsAt(leaf, left[0]) {
      PositionIsFirst(leaf, left[1..]);
      assert forall k :: 0 < k < |left| ==> left[k] == left[1..][k - 1];
    }
  }

  method SingleMatch(leaf: Leaf, left: seq<Leaf>) returns (n: nat)
    ensures n == Position(leaf, left)
  {
    n := 0;
    assert left[0..] == left;
    while n < |left|
      invariant n <= |left| && FirstStop(leaf, left) == n + FirstStop(leaf, left[n..])
    {
      assert left[n..][1..] == left[n + 1..];
      if StopsAt(leaf, left[n]) {
        if Accepts(leaf, left[n]) {
          return;
        }
        return |left|;
      }
      n := n + 1;
    }
  }

  // ---------- matching as a function ----------

  datatype Outcome = Fail | Success(left: seq<Leaf>, collected: seq<Leaf>)

  /** A success leaves the items as they were, or fewer. */
  predicate Shrinks(o: Outcome, left: seq<Leaf>) {
    o.Success? ==> |o.left| < |left| || o.left == left
  }

  function Without(left: seq<Leaf>, n: nat): seq<Leaf>
    requires n < |left|
  {
    left[..n] + left[n + 1..]
  }

  function Match(p: Pattern, left: seq<Leaf>, collected: seq<Leaf>): (o: Outcome)
    requires WellFormed(p)
    ensures Shrinks(o, left)
    decreases p, 0, 0
  {
    match p
    case Terminal(leaf) =>
      var n := Position(leaf, left);
      if n == |left| then Fail else Success(Without(left, n), collected + [Collects(leaf, left[n])])
    case Required(children) => MatchAll(children, left, collected)
    case Optional(children) => MatchSome(children, left, collected)
    case OptionsShortcut(children) => MatchSome(children, left, collected)
    case Either(children) =>
      BestShrinks(children, left, collected);
      Best(Outcomes(children, left, collected))
    case OneOrMore(children) =>
      var first := Match(children[0], left, collected);
      if first.Fail? then Fail else Repeat(children[0], first.left, first.collected)
  }

  predicate AllWellFormed(ps: seq<Pattern>) {
    forall i :: 0 <= i < |ps| ==> WellFormed(ps[i])
  }

  function MatchAll(ps: seq<Pattern>, left: seq<Leaf>, collected: seq<Leaf>): (o: Outcome)
    requires AllWellFormed(ps)
    ensures Shrinks(o, left)
    decreases ps, 0, 0
  {
    if ps == [] then Success(left, collected)
    else
      var first := Match(ps[0], left, collected);
      if first.Fail? then Fail else MatchAll(ps[1..], first.left, first.collected)
  }

  function MatchSome(ps: seq<Pattern>, left: seq<Leaf>, collected: seq<Leaf>): (o: Outcome)
    requires AllWellFormed(ps)
    ensures o.Success? && Shrinks(o, left)
    decreases ps, 0, 0
  {
    if ps == [] then Success(left, collected)
    else
      var first := Match(ps[0], left, collected);
      if first.Fail? then MatchSome(ps[1..], left, collected) else MatchSome(ps[1..], first.left, first.collected)
  }

  predicate Better(candidate: Outcome, best: Outcome) {
    candidate.Success? && (best.Fail? || |candidate.left| < |best.left|)
  }

  /** Python's `min` by the number of items left, over the successes: the first of the smallest. */
  function Best(outcomes: seq<Outcome>): Outcome {
    if outcomes == [] then Fail
    else
      var best, last := Best(outcomes[..|outcomes| - 1]), outcomes[|outcomes| - 1];
      if Better(last, best) then last else best
  }

  function Outcomes(ps: seq<Pattern>, left: seq<Leaf>, collected: seq<Leaf>): (r: seq<Outcome>)
    requires AllWellFormed(ps)
    ensures |r| == |ps|
    decreases ps, 0, 0
  {
    if ps == [] then [] else Outcomes(ps[..|ps| - 1], left, collected) + [Match(ps[|ps| - 1], left, collected)]
  }

  lemma {:induction false} BestShrinks(ps: seq<Pattern>, left: seq<Leaf>, collected: seq<Leaf>)
    requires AllWellFormed(ps)
    ensures Shrinks(Best(Outcomes(ps, left, collected)), left)
    decreases ps, 0, 1
  {
    if ps != [] {
      var n := |ps| - 1;
      BestShrinks(ps[..n], left, collected);
      assert Outcomes(ps, left, collected)[..n] == Outcomes(ps[..n], left, collected);
      assert Shrinks(Match(ps[n], left, collected), left);
    }
  }

  /** Further matches until one fails or takes nothing. */
  function Repeat(p: Pattern, left: seq<Leaf>, collected: seq<Leaf>): (o: Outcome)
    requires WellFormed(p)
    ensures o.Success? && Shrinks(o, left)
    decreases p, 1, |left|
  {
    var next := Match(p, left, collected);
    if next.Fail? then Success(left, collected)
    else if next.left == left then next
    else Repeat(p, next.left, next.collected)
  }

  // ---------- the methods ----------

  /** The triple that a match method returns. */
  predicate Returns(matched: bool, l: seq<Leaf>, c: seq<Leaf>, left: seq<Leaf>, collected: seq<Leaf>, o: Outcome) {
    match o
    case Fail => !matched && l == left && c == collected
    case Success(l', c') => matched && l == l' && c == c'
  }

  method MatchPattern(p: Pattern, left: seq<Leaf>, collected: seq<Leaf>)
    returns (matched: bool, l: seq<Leaf>, c: seq<Leaf>)
    requires WellFormed(p)
    ensures Returns(matched, l, c, left, collected, Match(p, left, collected))
    decreases p, 1
  {
    match p {
      case Terminal(leaf) =>
        var pos := SingleMatch(leaf, left);
        if pos == |left| {
          return false, left, collected;
        }
        return true, left[..pos] + left[pos + 1..], collected + [Collects(leaf, left[pos])];
      case Required(children) =>
        matched, l, c := MatchRequired(p, left, collected);
      case Optional(children) =>
        matched, l, c := MatchOptional(p, left, collected);
      case OptionsShortcut(children) =>
        matched, l, c := MatchOptional(p, left, collected);
      case OneOrMore(children) =>
        matched, l, c := MatchOneOrMore(p, left, collected);
      case Either(children) =>
        matched, l, c := MatchEither(p, left, collected);
    }
  }

  method MatchRequired(p: Pattern, left: seq<Leaf>, collected: seq<Leaf>)
    returns (matched: bool, l: seq<Leaf>, c: seq<Leaf>)
    requires p.Required? && WellFormed(p)
    ensures Returns(matched, l, c, left, collected, Match(p, left, collected))
    decreases p, 0
  {
    var children := p.children;
    l, c := left, collected;
    for i := 0 to |children|
      invariant MatchAll(children, left, collected) == MatchAll(children[i..], l, c)
    {
      assert children[i..][1..] == children[i + 1..];
      matched, l, c := MatchPattern(children[i], l, c);
      if !matched {
        return false, left, collected;
      }
    }
    matched := true;
  }

  method MatchOptional(p: Pattern, left: seq<Leaf>, collected: seq<Leaf>)
    returns (matched: bool, l: seq<Leaf>, c: seq<Leaf>)
    requires (p.Optional? || p.OptionsShortcut?) && WellFormed(p)
    ensures Returns(matched, l, c, left, collected, Match(p, left, collected))
    decreases p, 0
  {
    var children := p.children;
    l, c := left, collected;
    for i := 0 to |children|
      invariant MatchSome(children, left, collected) == MatchSome(children[i..], l, c)
    {
      assert children[i..][1..] == children[i + 1..];
      matched, l, c := MatchPattern(children[i], l, c);
    }
    matched := true;
  }

  method MatchEither(p: Pattern, left: seq<Leaf>, collected: seq<Leaf>)
    returns (matched: bool, l: seq<Leaf>, c: seq<Leaf>)
    requires p.Either? && WellFormed(p)
    ensures Returns(matched, l, c, left, collected, Match(p, left, collected))
    decreases p, 0
  {
    var children := p.children;
    var outcomes: seq<Outcome> := [];
    for i := 0 to |children|
      invariant Best(outcomes) == Best(Outcomes(children[..i], left, collected))
      invariant outcomes == [] <==> Best(outcomes).Fail?
    {
      assert children[..i + 1][..i] == children[..i];
      BestSnoc(Outcomes(children[..i], left, collected), Match(children[i], left, collected));
      var m, l', c' := MatchPattern(children[i], left, collected);
      if m {
        BestSnoc(outcomes, Success(l', c'));
        outcomes := outcomes + [Success(l', c')];
      }
    }
    assert children[..|children|] == children;
    assert Match(p, left, collected) == Best(outcomes);
    matched, l, c := outcomes != [], left, collected;
    if matched {
      var best := Best(outcomes);
      l, c := best.left, best.collected;
    }
  }

  lemma BestSnoc(outcomes: seq<Outcome>, o: Outcome)
    ensures Best(outcomes + [o]) == if Better(o, Best(outcomes)) then o else Best(outcomes)
  {
    assert (outcomes + [o])[..|outcomes|] == outcomes;
  }

  method MatchOneOrMore(p: Pattern, left: seq<Leaf>, collected: seq<Leaf>)
    returns (matched: bool, l: seq<Leaf>, c: seq<Leaf>)
    requires p.OneOrMore? && WellFormed(p)
    ensures Returns(matched, l, c, left, collected, Match(p, left, collected))
    decreases p, 0
  {
    var child := p.children[0];
    l, c := left, collected;
    var l_: Option<seq<Leaf>> := None;
    matched := true;
    var times := 0;
    while matched
      invariant times == 0 && matched ==> l_ == None && l == left && c == collected
      invariant times == 0 && !matched ==> Match(p, left, collected).Fail?
      invariant times >= 1 ==> matched && l_ == Some(l) && Match(p, left, collected) == Repeat(child, l, c)
      decreases matched, times == 0, |l|
    {
      matched, l, c := MatchPattern(child, l, c);
      times := times + if matched then 1 else 0;
      if l_ == Some(l) {
        break;
      }
      l_ := Some(l);
    }
    if times >= 1 {
      return true, l, c;
    }
    return false, left, collected;
  }

  // ---------- what a success means ----------

  /** How items were used to satisfy a pattern. */
  datatype Derivation =
    | Used(leaf: Leaf, item: Leaf)
    | Skipped
    | Chosen(index: nat, kid: Derivation)
    | Every(kids: seq<Derivation>)

  /** `d` shows that `p` is satisfied. */
  predicate Derives(d: Derivation, p: Pattern)
    decreases d
  {
    match p
    case Terminal(leaf) => d.Used? && d.leaf == leaf && Accepts(leaf, d.item)
    case Required(children) =>
      d.Every? && |d.kids| == |children| &&
      forall i :: 0 <= i < |children| ==> Derives(d.kids[i], children[i])
    case Optional(children) => DerivesSome(d, children)
    case OptionsShortcut(children) => DerivesSome(d, children)
    case Either(children) => d.Chosen? && d.index < |children| && Derives(d.kid, children[d.index])
    case OneOrMore(children) =>
      d.Every? && |d.kids| >= 1 && |children| == 1 &&
      forall i :: 0 <= i < |d.kids| ==> Derives(d.kids[i], children[0])
  }

  predicate DerivesSome(d: Derivation, children: seq<Pattern>)
    decreases d, 0
  {
    d.Every? && |d.kids| == |children| &&
    forall i :: 0 <= i < |children| ==> d.kids[i].Skipped? || Derives(d.kids[i], children[i])
  }

  /** The items a derivation uses, in the order they were taken. */
  function Yield(d: Derivation): seq<Leaf>
    decreases d, 0
  {
    match d
    case Used(_, item) => [item]
    case Skipped => []
    case Chosen(_, kid) => Yield(kid)
    case Every(kids) => YieldAll(kids)
  }

  function YieldAll(ds: seq<Derivation>): seq<Leaf>
    decreases ds, 0
  {
    if ds == [] then [] else Yield(ds[0]) + YieldAll(ds[1..])
  }

  /** What it collects. */
  function Harvest(d: Derivation): seq<Leaf>
    decreases d, 0
  {
    match d
    case Used(leaf, item) => if Accepts(leaf, item) then [Collects(leaf, item)] else []
    case Skipped => []
    case Chosen(_, kid) => Harvest(kid)
    case Every(kids) => HarvestAll(kids)
  }

  function HarvestAll(ds: seq<Derivation>): seq<Leaf>
    decreases ds, 0
  {
    if ds == [] then [] else Harvest(ds[0]) + HarvestAll(ds[1..])
  }

  /** `kept` says where in `t` each item of `s` stood; the order is preserved. */
  predicate Keeps(kept: seq<nat>, s: seq<Leaf>, t: seq<Leaf>) {
    |kept| == |s| &&
    (forall i :: 0 <= i < |kept| ==> kept[i] < |t| && s[i] == t[kept[i]]) &&
    (forall i, j :: 0 <= i < j < |kept| ==> kept[i] < kept[j])
  }

  ghost predicate Subsequence(s: seq<Leaf>, t: seq<Leaf>) {
    exists kept :: Keeps(kept, s, t)
  }

  lemma SubsequenceSelf(s: seq<Leaf>)
    ensures Subsequence(s, s)
  {
    assert Keeps(seq(|s|, i requires 0 <= i < |s| => i), s, s);
  }

  lemma SubsequenceTrans(r: seq<Leaf>, s: seq<Leaf>, t: seq<Leaf>)
    requires Subsequence(r, s) && Subsequence(s, t)
    ensures Subsequence(r, t)
  {
    var inner :| Keeps(inner, r, s);
    var outer :| Keeps(outer, s, t);
    assert Keeps(seq(|inner|, i requires 0 <= i < |inner| => outer[inner[i]]), r, t);
  }

  lemma WithoutIsSubsequence(left: seq<Leaf>, n: nat)
    requires n < |left|
    ensures Subsequence(Without(left, n), left)
    ensures multiset(left) == multiset(Without(left, n)) + multiset{left[n]}
  {
    var m := |left| - 1;
    assert Keeps(seq(m, i requires 0 <= i < m => if i < n then i else i + 1), Without(left, n), left);
    assert left == left[..n] + [left[n]] + left[n + 1..];
  }

  /** A match from (left, collected) to the outcome used exactly the items `used` and collected `harvest`. */
  ghost predicate Accounts(used: seq<Leaf>, harvest: seq<Leaf>, left: seq<Leaf>, collected: seq<Leaf>, o: Outcome) {
    o.Success? &&
    multiset(left) == multiset(o.left) + multiset(used) &&
    Subsequence(o.left, left) &&
    o.collected == collected + harvest
  }

  lemma AccountsNothing(left: seq<Leaf>, collected: seq<Leaf>)
    ensures Accounts([], [], left, collected, Success(left, collected))
  {
    SubsequenceSelf(left);
    assert collected + [] == collected;
  }

  lemma AccountsConcat(u1: seq<Leaf>, h1: seq<Leaf>, u2: seq<Leaf>, h2: seq<Leaf>,
                       left: seq<Leaf>, collected: seq<Leaf>, mid: Outcome, o: Outcome)
    requires Accounts(u1, h1, left, collected, mid) && Accounts(u2, h2, mid.left, mid.collected, o)
    ensures Accounts(u1 + u2, h1 + h2, left, collected, o)
  {
    SubsequenceTrans(o.left, mid.left, left);
    assert collected + h1 + h2 == collected + (h1 + h2);
    assert multiset(u1 + u2) == multiset(u1) + multiset(u2);
  }

  lemma AccountsCons(kid: Derivation, ds: seq<Derivation>, left: seq<Leaf>, collected: seq<Leaf>,
                     mid: Outcome, o: Outcome)
    requires Accounts(Yield(kid), Harvest(kid), left, collected, mid)
    requires Accounts(YieldAll(ds), HarvestAll(ds), mid.left, mid.collected, o)
    ensures Accounts(YieldAll([kid] + ds), HarvestAll([kid] + ds), left, collected, o)
  {
    assert ([kid] + ds)[1..] == ds;
    AccountsConcat(Yield(kid), Harvest(kid), YieldAll(ds), HarvestAll(ds), left, collected, mid, o);
  }

  lemma LeafSound(p: Pattern, left: seq<Leaf>, collected: seq<Leaf>) returns (d: Derivation)
    requires p.Terminal? && Match(p, left, collected).Success?
    ensures Derives(d, p) && Accounts(Yield(d), Harvest(d), left, collected, Match(p, left, collected))
  {
    var n := Position(p.leaf, left);
    WithoutIsSubsequence(left, n);
    d := Used(p.leaf, left[n]);
  }

  /** Soundness: a success comes with a derivation of the pattern; what it used is exactly what disappeared
      from the items, and the rest stand in their old order. */
  lemma {:induction false} MatchSound(p: Pattern, left: seq<Leaf>, collected: seq<Leaf>) returns (d: Derivation)
    requires WellFormed(p) && Match(p, left, collected).Success?
    ensures Derives(d, p)
    ensures Accounts(Yield(d), Harvest(d), left, collected, Match(p, left, collected))
    decreases p, 0, 0, 1
  {
    if p.Terminal? {
      d := LeafSound(p, left, collected);
    } else if p.Either? {
      d := EitherSound(p, left, collected);
    } else if p.OneOrMore? {
      d := OneOrMoreSound(p, left, collected);
    } else {
      d := ListSound(p, left, collected);
    }
  }

  lemma {:induction false} ListSound(p: Pattern, left: seq<Leaf>, collected: seq<Leaf>) returns (d: Derivation)
    requires (p.Required? || p.Optional? || p.OptionsShortcut?) && WellFormed(p) && Match(p, left, collected).Success?
    ensures Derives(d, p)
    ensures Accounts(Yield(d), Harvest(d), left, collected, Match(p, left, collected))
    decreases p, 0, 0, 0
  {
    var ds: seq<Derivation>;
    if p.Required? {
      ds := AllSound(p.children, left, collected);
    } else {
      ds := SomeSound(p.children, left, collected);
    }
    d := Every(ds);
  }

  lemma {:induction false} EitherSound(p: Pattern, left: seq<Leaf>, collected: seq<Leaf>) returns (d: Derivation)
    requires p.Either? && WellFormed(p) && Match(p, left, collected).Success?
    ensures Derives(d, p)
    ensures Accounts(Yield(d), Harvest(d), left, collected, Match(p, left, collected))
    decreases p, 0, 0, 0
  {
    var outcomes := Outcomes(p.children, left, collected);
    var i := BestIndex(outcomes);
    OutcomeAt(p.children, left, collected, i);
    var kid := MatchSound(p.children[i], left, collected);
    d := Chosen(i, kid);
  }

  lemma {:induction false} OneOrMoreSound(p: Pattern, left: seq<Leaf>, collected: seq<Leaf>) returns (d: Derivation)
    requires p.OneOrMore? && WellFormed(p) && Match(p, left, collected).Success?
    ensures Derives(d, p)
    ensures Accounts(Yield(d), Harvest(d), left, collected, Match(p, left, collected))
    decreases p, 0, 0, 0
  {
    var child := p.children[0];
    var first := Match(child, left, collected);
    var kid := MatchSound(child, left, collected);
    var ds := RepeatSound(child, first.left, first.collected);
    assert Match(p, left, collected) == Repeat(child, first.left, first.collected);
    AccountsCons(kid, ds, left, collected, first, Match(p, left, collected));
    d := Every([kid] + ds);
  }

  lemma {:induction false} AllSound(ps: seq<Pattern>, left: seq<Leaf>, collected: seq<Leaf>)
    returns (ds: seq<Derivation>)
    requires AllWellFormed(ps) && MatchAll(ps, left, collected).Success?
    ensures |ds| == |ps| && forall i :: 0 <= i < |ps| ==> Derives(ds[i], ps[i])
    ensures Accounts(YieldAll(ds), HarvestAll(ds), left, collected, MatchAll(ps, left, collected))
    decreases ps, 0, 0
  {
    if ps == [] {
      ds := [];
      AccountsNothing(left, collected);
    } else {
      var first := Match(ps[0], left, collected);
      var kid := MatchSound(ps[0], left, collected);
      var rest := AllSound(ps[1..], first.left, first.collected);
      ds := [kid] + rest;
      AccountsCons(kid, rest, left, collected, first, MatchAll(ps, left, collected));
    }
  }

  lemma {:induction false} SomeSound(ps: seq<Pattern>, left: seq<Leaf>, collected: seq<Leaf>)
    returns (ds: seq<Derivation>)
    requires AllWellFormed(ps)
    ensures |ds| == |ps| && forall i :: 0 <= i < |ps| ==> ds[i].Skipped? || Derives(ds[i], ps[i])
    ensures Accounts(YieldAll(ds), HarvestAll(ds), left, collected, MatchSome(ps, left, collected))
    decreases ps, 0, 0
  {
    if ps == [] {
      ds := [];
      AccountsNothing(left, collected);
    } else {
      var first := Match(ps[0], left, collected);
      if first.Fail? {
        var rest := SomeSound(ps[1..], left, collected);
        ds := [Skipped] + rest;
        AccountsNothing(left, collected);
        AccountsCons(Skipped, rest, left, collected, Success(left, collected), MatchSome(ps, left, collected));
      } else {
        var kid := MatchSound(ps[0], left, collected);
        var rest := SomeSound(ps[1..], first.left, first.collected);
        ds := [kid] + rest;
        AccountsCons(kid, rest, left, collected, first, MatchSome(ps, left, collected));
      }
    }
  }

  lemma {:induction false} RepeatSound(p: Pattern, left: seq<Leaf>, collected: seq<Leaf>)
    returns (ds: seq<Derivation>)
    requires WellFormed(p)
    ensures forall i :: 0 <= i < |ds| ==> Derives(ds[i], p)
    ensures Accounts(YieldAll(ds), HarvestAll(ds), left, collected, Repeat(p, left, collected))
    decreases p, 1, |left|, 1
  {
    var next := Match(p, left, collected);
    if next.Fail? {
      ds := [];
      AccountsNothing(left, collected);
    } else {
      var kid := MatchSound(p, left, collected);
      var rest := RestSound(p, left, collected);
      ds := RoundsSound(p, kid, rest, left, collected, next, Repeat(p, left, collected));
    }
  }

  lemma {:induction false} RoundsSound(p: Pattern, kid: Derivation, rest: seq<Derivation>, left: seq<Leaf>,
                                       collected: seq<Leaf>, next: Outcome, o: Outcome) returns (ds: seq<Derivation>)
    requires Derives(kid, p) && forall i :: 0 <= i < |rest| ==> Derives(rest[i], p)
    requires Accounts(Yield(kid), Harvest(kid), left, collected, next)
    requires Accounts(YieldAll(rest), HarvestAll(rest), next.left, next.collected, o)
    ensures forall i :: 0 <= i < |ds| ==> Derives(ds[i], p)
    ensures Accounts(YieldAll(ds), HarvestAll(ds), left, collected, o)
  {
    ds := [kid] + rest;
    AccountsCons(kid, rest, left, collected, next, o);
  }

  /** The rounds after the first one. */
  lemma {:induction false} RestSound(p: Pattern, left: seq<Leaf>, collected: seq<Leaf>)
    returns (rest: seq<Derivation>)
    requires WellFormed(p) && Match(p, left, collected).Success?
    ensures forall i :: 0 <= i < |rest| ==> Derives(rest[i], p)
    ensures var next := Match(p, left, collected);
            Accounts(YieldAll(rest), HarvestAll(rest), next.left, next.collected, Repeat(p, left, collected))
    decreases p, 1, |left|, 0
  {
    var next := Match(p, left, collected);
    if next.left == left {
      rest := [];
      AccountsNothing(next.left, next.collected);
    } else {
      rest := RepeatSound(p, next.left, next.collected);
    }
  }

  lemma {:induction false} OutcomeAt(ps: seq<Pattern>, left: seq<Leaf>, collected: seq<Leaf>, i: nat)
    requires AllWellFormed(ps) && i < |ps|
    ensures Outcomes(ps, left, collected)[i] == Match(ps[i], left, collected)
    decreases |ps|
  {
    if i < |ps| - 1 {
      OutcomeAt(ps[..|ps| - 1], left, collected, i);
    }
  }

  /** Either succeeds exactly when an alternative does; it takes the first of those that leave the fewest
      items. */
  lemma {:induction false} BestIndex(outcomes: seq<Outcome>) returns (i: nat)
    ensures Best(outcomes).Fail? <==> forall k :: 0 <= k < |outcomes| ==> outcomes[k].Fail?
    ensures Best(outcomes).Success? ==>
              i < |outcomes| && outcomes[i] == Best(outcomes) &&
              (forall k :: 0 <= k < |outcomes| && outcomes[k].Success? ==> |outcomes[i].left| <= |outcomes[k].left|) &&
              (forall k :: 0 <= k < i && outcomes[k].Success? ==> |outcomes[i].left| < |outcomes[k].left|)
  {
    i := 0;
    if outcomes != [] {
      var n := |outcomes| - 1;
      i := BestIndex(outcomes[..n]);
      assert forall k :: 0 <= k < n ==> outcomes[..n][k] == outcomes[k];
      if Better(outcomes[n], Best(outcomes[..n])) {
        i := n;
      }
    }
  }

  /** An Either fails exactly if all its alternatives do; otherwise it does what the first of those alternatives does
      that leave the fewest items. */
  lemma {:induction false} EitherIsBest(p: Pattern, left: seq<Leaf>, collected: seq<Leaf>) returns (i: nat)
    requires p.Either? && WellFormed(p)
    ensures Match(p, left, collected).Fail? <==>
            forall k :: 0 <= k < |p.children| ==> Match(p.children[k], left, collected).Fail?
    ensures Match(p, left, collected).Success? ==>
              i < |p.children| && Match(p, left, collected) == Match(p.children[i], left, collected) &&
              (forall k :: 0 <= k < |p.children| ==> NoWorse(p, left, collected, i, k))
  {
    var outcomes := Outcomes(p.children, left, collected);
    i := BestIndex(outcomes);
    forall k | 0 <= k < |p.children| ensures outcomes[k] == Match(p.children[k], left, collected) {
      OutcomeAt(p.children, left, collected, k);
    }
  }

  /** The i-th alternative leaves no more items than the k-th, and fewer if that one comes before it. */
  predicate NoWorse(p: Pattern, left: seq<Leaf>, collected: seq<Leaf>, i: nat, k: nat)
    requires p.Either? && WellFormed(p) && i < |p.children| && k < |p.children|
  {
    var o, q := Match(p.children[i], left, collected), Match(p.children[k], left, collected);
    o.Success? && q.Success? ==> if k < i then |o.left| < |q.left| else |o.left| <= |q.left|
  }

  // ---------- what has been collected does not matter ----------

  /** The same success or failure with the same items left. */
  predicate SameLeft(o: Outcome, q: Outcome) {
    (o.Fail? <==> q.Fail?) && (o.Success? && q.Success? ==> o.left == q.left)
  }

  /** Whether a pattern matches and what it leaves depends on the items alone. */
  lemma {:induction false} ItemsDecide(p: Pattern, left: seq<Leaf>, c: seq<Leaf>, d: seq<Leaf>)
    requires WellFormed(p)
    ensures SameLeft(Match(p, left, c), Match(p, left, d))
    decreases p, 0, 0
  {
    match p
    case Terminal(_) =>
    case Required(children) => AllDecide(children, left, c, d);
    case Optional(children) => SomeDecide(children, left, c, d);
    case OptionsShortcut(children) => SomeDecide(children, left, c, d);
    case Either(children) => BestDecides(children, left, c, d);
    case OneOrMore(children) =>
      var child := children[0];
      ItemsDecide(child, left, c, d);
      var o, q := Match(child, left, c), Match(child, left, d);
      if o.Success? {
        RepeatDecides(child, o.left, o.collected, q.collected);
      }
  }

  lemma {:induction false} AllDecide(ps: seq<Pattern>, left: seq<Leaf>, c: seq<Leaf>, d: seq<Leaf>)
    requires AllWellFormed(ps)
    ensures SameLeft(MatchAll(ps, left, c), MatchAll(ps, left, d))
    decreases ps, 0, 0
  {
    if ps != [] {
      ItemsDecide(ps[0], left, c, d);
      var o, q := Match(ps[0], left, c), Match(ps[0], left, d);
      if o.Success? {
        AllDecide(ps[1..], o.left, o.collected, q.collected);
      }
    }
  }

  lemma {:induction false} SomeDecide(ps: seq<Pattern>, left: seq<Leaf>, c: seq<Leaf>, d: seq<Leaf>)
    requires AllWellFormed(ps)
    ensures SameLeft(MatchSome(ps, left, c), MatchSome(ps, left, d))
    decreases ps, 0, 0
  {
    if ps != [] {
      ItemsDecide(ps[0], left, c, d);
      var o, q := Match(ps[0], left, c), Match(ps[0], left, d);
      if o.Success? {
        SomeDecide(ps[1..], o.left, o.collected, q.collected);
      } else {
        SomeDecide(ps[1..], left, c, d);
      }
    }
  }

  lemma {:induction false} BestDecides(ps: seq<Pattern>, left: seq<Leaf>, c: seq<Leaf>, d: seq<Leaf>)
    requires AllWellFormed(ps)
    ensures SameLeft(Best(Outcomes(ps, left, c)), Best(Outcomes(ps, left, d)))
    decreases ps, 0, 0
  {
    if ps != [] {
      var n := |ps| - 1;
      BestDecides(ps[..n], left, c, d);
      ItemsDecide(ps[n], left, c, d);
      BestSnoc(Outcomes(ps[..n], left, c), Match(ps[n], left, c));
      BestSnoc(Outcomes(ps[..n], left, d), Match(ps[n], left, d));
    }
  }

  lemma {:induction false} RepeatDecides(p: Pattern, left: seq<Leaf>, c: seq<Leaf>, d: seq<Leaf>)
    requires WellFormed(p)
    ensures SameLeft(Repeat(p, left, c), Repeat(p, left, d))
    decreases p, 1, |left|
  {
    ItemsDecide(p, left, c, d);
    var o, q := Match(p, left, c), Match(p, left, d);
    if o.Success? && o.left != left {
      RepeatDecides(p, o.left, o.collected, q.collected);
    }
  }

  /** A repetition goes on as long as there is anything to take: its child can take nothing from what it leaves. */
  lemma {:induction false} RepetitionExhausts(p: Pattern, left: seq<Leaf>, collected: seq<Leaf>)
    requires p.OneOrMore? && WellFormed(p)
    ensures Match(p, left, collected).Fail? <==> Match(p.children[0], left, collected).Fail?
    ensures Match(p, left, collected).Success? ==> TakesNothing(p.children[0], Match(p, left, collected).left)
  {
    var first := Match(p.children[0], left, collected);
    if first.Success? {
      RepeatExhausts(p.children[0], first.left, first.collected);
    }
  }

  predicate TakesNothing(p: Pattern, left: seq<Leaf>)
    requires WellFormed(p)
  {
    var o := Match(p, left, []);
    o.Fail? || o.left == left
  }

  lemma {:induction false} RepeatExhausts(p: Pattern, left: seq<Leaf>, collected: seq<Leaf>)
    requires WellFormed(p)
    ensures TakesNothing(p, Repeat(p, left, collected).left)
    decreases |left|
  {
    ItemsDecide(p, left, [], collected);
    var next := Match(p, left, collected);
    if next.Success? && next.left != left {
      RepeatExhausts(p, next.left, next.collected);
    }
  }
}
