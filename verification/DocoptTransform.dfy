/** `transform` of docopt.py: a worklist rewriting of a pattern to one Either of Requireds. */
module DocoptTransform {
  import opened DocoptPattern

  /** One way to satisfy a pattern: the bag of leaves it uses. */
  type Alternative = multiset<Leaf>

  // ---------- the meaning of a pattern ----------

  function Shift(a: Alternative, bs: seq<Alternative>): (r: seq<Alternative>)
    ensures |r| == |bs|
  {
    if bs == [] then [] else [a + bs[0]] + Shift(a, bs[1..])
  }

  /** Every alternative of `xs` together with every alternative of `ys`. */
  function Cross(xs: seq<Alternative>, ys: seq<Alternative>): seq<Alternative> {
    if xs == [] then [] else Shift(xs[0], ys) + Cross(xs[1..], ys)
  }

  /** The alternatives of a pattern: OneOrMore read as exactly twice, Optional as required. */
  function Alternatives(p: Pattern): seq<Alternative>
    decreases p, 0
  {
    match p
    case Terminal(leaf) => [multiset{leaf}]
    case Either(children) => AnyOf(children)
    case OneOrMore(children) => Cross(AllOf(children), AllOf(children))
    case Required(children) => AllOf(children)
    case Optional(children) => AllOf(children)
    case OptionsShortcut(children) => AllOf(children)
  }

  function AllOf(ps: seq<Pattern>): seq<Alternative>
    decreases ps, 1
  {
    if ps == [] then [multiset{}] else Cross(Alternatives(ps[0]), AllOf(ps[1..]))
  }

  function AnyOf(ps: seq<Pattern>): seq<Alternative>
    decreases ps, 1
  {
    if ps == [] then [] else Alternatives(ps[0]) + AnyOf(ps[1..])
  }

  /** What a bag of alternatives is worth when their order is forgotten. */
  function Bag(xs: seq<Alternative>): multiset<Alternative> {
    multiset(xs)
  }

  // ---------- algebra of Cross ----------

  lemma {:induction false} ShiftConcat(a: Alternative, xs: seq<Alternative>, ys: seq<Alternative>)
    ensures Shift(a, xs + ys) == Shift(a, xs) + Shift(a, ys)
  {
    if xs == [] {
      assert xs + ys == ys;
    } else {
      assert (xs + ys)[1..] == xs[1..] + ys;
      ShiftConcat(a, xs[1..], ys);
    }
  }

  lemma {:induction false} ShiftShift(a: Alternative, b: Alternative, xs: seq<Alternative>)
    ensures Shift(a, Shift(b, xs)) == Shift(a + b, xs)
  {
    if xs != [] {
      assert Shift(b, xs)[1..] == Shift(b, xs[1..]);
      ShiftShift(a, b, xs[1..]);
      assert a + (b + xs[0]) == a + b + xs[0];
    }
  }

  lemma {:induction false} ShiftCross(a: Alternative, xs: seq<Alternative>, ys: seq<Alternative>)
    ensures Shift(a, Cross(xs, ys)) == Cross(Shift(a, xs), ys)
  {
    if xs != [] {
      ShiftConcat(a, Shift(xs[0], ys), Cross(xs[1..], ys));
      ShiftShift(a, xs[0], ys);
      ShiftCross(a, xs[1..], ys);
      assert Shift(a, xs)[1..] == Shift(a, xs[1..]);
    }
  }

  lemma {:induction false} CrossConcat(xs: seq<Alternative>, ys: seq<Alternative>, zs: seq<Alternative>)
    ensures Cross(xs + ys, zs) == Cross(xs, zs) + Cross(ys, zs)
  {
    if xs == [] {
      assert xs + ys == ys;
    } else {
      assert (xs + ys)[1..] == xs[1..] + ys;
      CrossConcat(xs[1..], ys, zs);
    }
  }

  lemma {:induction false} CrossAssoc(xs: seq<Alternative>, ys: seq<Alternative>, zs: seq<Alternative>)
    ensures Cross(Cross(xs, ys), zs) == Cross(xs, Cross(ys, zs))
  {
    if xs != [] {
      CrossConcat(Shift(xs[0], ys), Cross(xs[1..], ys), zs);
      ShiftCross(xs[0], ys, zs);
      CrossAssoc(xs[1..], ys, zs);
    }
  }

  lemma {:induction false} CrossUnit(xs: seq<Alternative>)
    ensures Cross([multiset{}], xs) == xs
  {
    ShiftUnit(xs);
    assert Cross([multiset{}], xs) == Shift(multiset{}, xs) + [];
  }

  lemma {:induction false} ShiftUnit(xs: seq<Alternative>)
    ensures Shift(multiset{}, xs) == xs
  {
    if xs != [] {
      ShiftUnit(xs[1..]);
      assert multiset{} + xs[0] == xs[0];
    }
  }

  lemma BagConcat(xs: seq<Alternative>, ys: seq<Alternative>)
    ensures Bag(xs + ys) == Bag(xs) + Bag(ys)
  {
  }

  lemma BagCons(xs: seq<Alternative>)
    requires xs != []
    ensures Bag(xs) == multiset{xs[0]} + Bag(xs[1..])
  {
    assert xs == [xs[0]] + xs[1..];
  }

  lemma Subtract(a: Alternative, x: Alternative, y: Alternative)
    ensures a + x == y <==> a <= y && x == y - a
  {
    if a + x == y {
      assert y - a == x;
    }
  }

  /** Adding `a` to every alternative of a bag is injective, so it is counted through its inverse. */
  lemma {:induction false} ShiftCount(a: Alternative, xs: seq<Alternative>, y: Alternative)
    ensures Bag(Shift(a, xs))[y] == if a <= y then Bag(xs)[y - a] else 0
  {
    if xs != [] {
      var r := Shift(a, xs);
      assert r[1..] == Shift(a, xs[1..]);
      BagCons(r);
      BagCons(xs);
      ShiftCount(a, xs[1..], y);
      Subtract(a, xs[0], y);
    }
  }

  /** Cross counted one alternative at a time on the right. */
  lemma {:induction false} CrossRight(xs: seq<Alternative>, y: Alternative, ys: seq<Alternative>)
    ensures Bag(Cross(xs, [y] + ys)) == Bag(Shift(y, xs)) + Bag(Cross(xs, ys))
  {
    if xs == [] {
    } else {
      var x := xs[0];
      assert ([y] + ys)[1..] == ys;
      assert Shift(x, [y] + ys) == [x + y] + Shift(x, ys);
      BagConcat(Shift(x, [y] + ys), Cross(xs[1..], [y] + ys));
      BagConcat([x + y], Shift(x, ys));
      CrossRight(xs[1..], y, ys);
      BagConcat(Shift(x, ys), Cross(xs[1..], ys));
      assert Shift(y, xs) == [y + x] + Shift(y, xs[1..]);
      BagConcat([y + x], Shift(y, xs[1..]));
      assert x + y == y + x;
    }
  }

  lemma {:induction false} CrossCommutes(xs: seq<Alternative>, ys: seq<Alternative>)
    ensures Bag(Cross(xs, ys)) == Bag(Cross(ys, xs))
    decreases |ys|
  {
    if ys == [] {
      CrossEmpty(xs);
    } else {
      assert ys == [ys[0]] + ys[1..];
      CrossRight(xs, ys[0], ys[1..]);
      CrossCommutes(xs, ys[1..]);
      BagConcat(Shift(ys[0], xs), Cross(ys[1..], xs));
    }
  }

  lemma {:induction false} CrossEmpty(xs: seq<Alternative>)
    ensures Cross(xs, []) == []
  {
    if xs != [] {
      CrossEmpty(xs[1..]);
    }
  }

  /** Cross depends on the bag of its second argument, not on its order. */
  lemma {:induction false} CrossBag(xs: seq<Alternative>, ys: seq<Alternative>, zs: seq<Alternative>)
    requires Bag(ys) == Bag(zs)
    ensures Bag(Cross(xs, ys)) == Bag(Cross(xs, zs))
  {
    if xs != [] {
      forall y ensures Bag(Shift(xs[0], ys))[y] == Bag(Shift(xs[0], zs))[y] {
        ShiftCount(xs[0], ys, y);
        ShiftCount(xs[0], zs, y);
      }
      assert Bag(Shift(xs[0], ys)) == Bag(Shift(xs[0], zs));
      CrossBag(xs[1..], ys, zs);
      BagConcat(Shift(xs[0], ys), Cross(xs[1..], ys));
      BagConcat(Shift(xs[0], zs), Cross(xs[1..], zs));
    }
  }

  // ---------- one rewriting step keeps the meaning ----------

  lemma {:induction false} AllOfConcat(ps: seq<Pattern>, qs: seq<Pattern>)
    ensures AllOf(ps + qs) == Cross(AllOf(ps), AllOf(qs))
  {
    if ps == [] {
      assert ps + qs == qs;
      CrossUnit(AllOf(qs));
    } else {
      assert (ps + qs)[1..] == ps[1..] + qs;
      AllOfConcat(ps[1..], qs);
      CrossAssoc(Alternatives(ps[0]), AllOf(ps[1..]), AllOf(qs));
    }
  }

  lemma {:induction false} AllOfOne(p: Pattern)
    ensures AllOf([p]) == Alternatives(p)
  {
    CrossUnitRight(Alternatives(p));
    assert [p][1..] == [];
  }

  lemma {:induction false} CrossUnitRight(xs: seq<Alternative>)
    ensures Cross(xs, [multiset{}]) == xs
  {
    if xs != [] {
      CrossUnitRight(xs[1..]);
      assert Shift(xs[0], [multiset{}]) == [xs[0]] by {
        assert xs[0] + multiset{} == xs[0];
        var unit: seq<Alternative> := [multiset{}];
        assert unit[1..] == [];
      }
    }
  }

  /** A group means the same when one of its members is moved to the front. */
  lemma {:induction false} MoveToFront(before: seq<Pattern>, p: Pattern, after: seq<Pattern>)
    ensures Bag(AllOf(before + [p] + after)) == Bag(Cross(Alternatives(p), AllOf(before + after)))
  {
    var b, m, a := AllOf(before), Alternatives(p), AllOf(after);
    AllOfConcat(before + [p], after);
    AllOfConcat(before, [p]);
    AllOfOne(p);
    AllOfConcat(before, after);
    // (b * m) * a  ~  a * (b * m)  ~  a * (m * b)  ~  (m * b) * a  =  m * (b * a)
    CrossCommutes(Cross(b, m), a);
    CrossCommutes(b, m);
    CrossBag(a, Cross(b, m), Cross(m, b));
    CrossCommutes(Cross(m, b), a);
    CrossAssoc(m, b, a);
  }

  /** The meaning of a list of groups. */
  function Total(groups: seq<seq<Pattern>>): multiset<Alternative> {
    if groups == [] then multiset{} else Total(groups[..|groups| - 1]) + Bag(AllOf(groups[|groups| - 1]))
  }

  lemma TotalSnoc(groups: seq<seq<Pattern>>, group: seq<Pattern>)
    ensures Total(groups + [group]) == Total(groups) + Bag(AllOf(group))
  {
    assert (groups + [group])[..|groups|] == groups;
  }

  lemma UnionAssoc(a: multiset<Alternative>, b: multiset<Alternative>, c: multiset<Alternative>)
    ensures (a + b) + c == a + (b + c)
  {
  }

  lemma {:induction false} TotalConcat(a: seq<seq<Pattern>>, b: seq<seq<Pattern>>)
    ensures Total(a + b) == Total(a) + Total(b)
    decreases |b|
  {
    if b == [] {
      assert a + b == a;
    } else {
      var front, last := b[..|b| - 1], b[|b| - 1];
      assert a + b == (a + front) + [last];
      TotalConcat(a, front);
      TotalSnoc(a + front, last);
      UnionAssoc(Total(a), Total(front), Bag(AllOf(last)));
    }
  }

  // ---------- termination ----------

  /** How many groups a pattern can still cost: every rewriting step spends at least one. */
  function Cost(p: Pattern): (n: nat)
    ensures n >= 1
    decreases p, 0
  {
    match p
    case Terminal(_) => 1
    case Either(children) => 1 + CostSum(children)
    case OneOrMore(children) => 1 + CostProduct(children) * CostProduct(children)
    case Required(children) => 1 + CostProduct(children)
    case Optional(children) => 1 + CostProduct(children)
    case OptionsShortcut(children) => 1 + CostProduct(children)
  }

  function CostSum(ps: seq<Pattern>): nat
    decreases ps, 1
  {
    if ps == [] then 0 else CostSum(ps[..|ps| - 1]) + Cost(ps[|ps| - 1])
  }

  function CostProduct(ps: seq<Pattern>): (n: nat)
    ensures n >= 1
    decreases ps, 1
  {
    if ps == [] then 1
    else
      var c, r := Cost(ps[0]), CostProduct(ps[1..]);
      Positive(c, r);
      c * r
  }

  lemma Positive(a: nat, b: nat)
    requires a >= 1 && b >= 1
    ensures a * b >= 1
  {
  }

  function GroupsCost(groups: seq<seq<Pattern>>): nat {
    if groups == [] then 0 else GroupsCost(groups[..|groups| - 1]) + CostProduct(groups[|groups| - 1])
  }

  lemma GroupsCostSnoc(groups: seq<seq<Pattern>>, group: seq<Pattern>)
    ensures GroupsCost(groups + [group]) == GroupsCost(groups) + CostProduct(group)
  {
    assert (groups + [group])[..|groups|] == groups;
  }

  lemma {:induction false} GroupsCostConcat(a: seq<seq<Pattern>>, b: seq<seq<Pattern>>)
    ensures GroupsCost(a + b) == GroupsCost(a) + GroupsCost(b)
    decreases |b|
  {
    if b == [] {
      assert a + b == a;
    } else {
      var front, last := b[..|b| - 1], b[|b| - 1];
      assert a + b == (a + front) + [last];
      GroupsCostConcat(a, front);
      GroupsCostSnoc(a + front, last);
    }
  }

  lemma {:induction false} CostProductConcat(ps: seq<Pattern>, qs: seq<Pattern>)
    ensures CostProduct(ps + qs) == CostProduct(ps) * CostProduct(qs)
  {
    if ps == [] {
      assert ps + qs == qs;
    } else {
      assert (ps + qs)[1..] == ps[1..] + qs;
      CostProductConcat(ps[1..], qs);
      MulAssoc(Cost(ps[0]), CostProduct(ps[1..]), CostProduct(qs));
    }
  }

  lemma MulAssoc(a: int, b: int, c: int)
    ensures a * (b * c) == (a * b) * c
  {
  }

  lemma MulShuffle(a: int, b: int, c: int)
    ensures (a * b) * c == b * (a * c)
  {
    MulAssoc(b, a, c);
  }

  lemma MulSum(a: int, b: int, c: int)
    ensures (a + b) * c == a * c + b * c
  {
  }

  lemma {:induction false} CostMoveToFront(before: seq<Pattern>, p: Pattern, after: seq<Pattern>)
    ensures CostProduct(before + [p] + after) == Cost(p) * CostProduct(before + after)
  {
    CostProductConcat(before + [p], after);
    CostProductConcat(before, [p]);
    CostProductConcat(before, after);
    assert CostProduct([p]) == Cost(p) by { assert [p][1..] == []; }
    MulShuffle(CostProduct(before), Cost(p), CostProduct(after));
  }

  // ---------- the algorithm ----------

  /** The place of the first branch among `children`, or their number. */
  function FirstBranch(children: seq<Pattern>): (i: nat)
    ensures i <= |children|
    ensures i < |children| ==> !children[i].Terminal?
  {
    if children == [] || !children[0].Terminal? then 0 else 1 + FirstBranch(children[1..])
  }

  lemma {:induction false} NoBranch(children: seq<Pattern>)
    ensures FirstBranch(children) == |children| ==> AllTerminal(children)
  {
    if children != [] {
      NoBranch(children[1..]);
    }
  }

  /** What a group is replaced by when `child` is taken out of it and `rest` stays. */
  function Expand(child: Pattern, rest: seq<Pattern>): seq<seq<Pattern>>
    requires !child.Terminal?
  {
    if child.Either? then EachWith(child.children, rest)
    else if child.OneOrMore? then [child.children + child.children + rest]
    else [child.children + rest]
  }

  function EachWith(cs: seq<Pattern>, rest: seq<Pattern>): seq<seq<Pattern>> {
    if cs == [] then [] else EachWith(cs[..|cs| - 1], rest) + [[cs[|cs| - 1]] + rest]
  }

  lemma {:induction false} AnyOfSnoc(ps: seq<Pattern>)
    requires ps != []
    ensures AnyOf(ps) == AnyOf(ps[..|ps| - 1]) + Alternatives(ps[|ps| - 1])
    decreases |ps|
  {
    if |ps| == 1 {
      assert ps[1..] == [];
      assert Alternatives(ps[0]) + [] == Alternatives(ps[0]) == [] + Alternatives(ps[0]);
    } else {
      AnyOfSnoc(ps[1..]);
      assert ps[1..][..|ps| - 2] == ps[..|ps| - 1][1..];
      assert ps[1..][|ps| - 2] == ps[|ps| - 1];
    }
  }

  lemma {:induction false} EachWithMeans(cs: seq<Pattern>, rest: seq<Pattern>)
    ensures Total(EachWith(cs, rest)) == Bag(Cross(AnyOf(cs), AllOf(rest)))
    decreases |cs|
  {
    if cs != [] {
      var front, last := cs[..|cs| - 1], cs[|cs| - 1];
      EachWithMeans(front, rest);
      TotalSnoc(EachWith(front, rest), [last] + rest);
      AllOfConcat([last], rest);
      AllOfOne(last);
      AnyOfSnoc(cs);
      CrossConcat(AnyOf(front), Alternatives(last), AllOf(rest));
      BagConcat(Cross(AnyOf(front), AllOf(rest)), Cross(Alternatives(last), AllOf(rest)));
    }
  }

  lemma {:induction false} EachWithCost(cs: seq<Pattern>, rest: seq<Pattern>)
    ensures GroupsCost(EachWith(cs, rest)) == CostSum(cs) * CostProduct(rest)
    decreases |cs|
  {
    if cs != [] {
      var front, last := cs[..|cs| - 1], cs[|cs| - 1];
      EachWithCost(front, rest);
      GroupsCostSnoc(EachWith(front, rest), [last] + rest);
      MulSum(CostSum(front), Cost(last), CostProduct(rest));
      assert ([last] + rest)[1..] == rest;
    }
  }

  /** A step keeps the meaning of the group it rewrites. */
  lemma {:induction false} ExpandMeans(before: seq<Pattern>, child: Pattern, after: seq<Pattern>)
    requires !child.Terminal?
    ensures Total(Expand(child, before + after)) == Bag(AllOf(before + [child] + after))
  {
    var rest, cs := before + after, child.children;
    MoveToFront(before, child, after);
    if child.Either? {
      EachWithMeans(cs, rest);
    } else if child.OneOrMore? {
      OneGroup(cs + cs + rest);
      AllOfConcat(cs + cs, rest);
      AllOfConcat(cs, cs);
    } else {
      OneGroup(cs + rest);
      AllOfConcat(cs, rest);
    }
  }

  lemma {:induction false} ExpandCost(child: Pattern, rest: seq<Pattern>)
    requires !child.Terminal?
    ensures GroupsCost(Expand(child, rest)) == (Cost(child) - 1) * CostProduct(rest)
  {
    var cs := child.children;
    if child.Either? {
      EachWithCost(cs, rest);
    } else if child.OneOrMore? {
      OneGroup(cs + cs + rest);
      CostProductConcat(cs + cs, rest);
      CostProductConcat(cs, cs);
    } else {
      OneGroup(cs + rest);
      CostProductConcat(cs, rest);
    }
  }

  lemma OneLess(c: nat, r: nat)
    requires r >= 1
    ensures (c - 1) * r < c * r
  {
    MulSum(c - 1, 1, r);
  }

  /** A step costs at least one. */
  lemma {:induction false} ExpandCosts(before: seq<Pattern>, child: Pattern, after: seq<Pattern>)
    requires !child.Terminal?
    ensures GroupsCost(Expand(child, before + after)) < CostProduct(before + [child] + after)
  {
    CostMoveToFront(before, child, after);
    ExpandCost(child, before + after);
    OneLess(Cost(child), CostProduct(before + after));
  }

  lemma OneGroup(group: seq<Pattern>)
    ensures Total([group]) == Bag(AllOf(group)) && GroupsCost([group]) == CostProduct(group)
  {
    TotalSnoc([], group);
    GroupsCostSnoc([], group);
    assert [] + [group] == [group];
  }

  predicate AllRequiredOfTerminals(ps: seq<Pattern>) {
    forall i :: 0 <= i < |ps| ==> ps[i].Required? && AllTerminal(ps[i].children)
  }

  function Requireds(groups: seq<seq<Pattern>>): (r: seq<Pattern>)
    ensures |r| == |groups|
  {
    seq(|groups|, i requires 0 <= i < |groups| => Required(groups[i]))
  }

  lemma {:induction false} RequiredsMean(groups: seq<seq<Pattern>>)
    ensures Bag(AnyOf(Requireds(groups))) == Total(groups)
    decreases |groups|
  {
    if groups != [] {
      var ps := Requireds(groups);
      AnyOfSnoc(ps);
      assert ps[..|ps| - 1] == Requireds(groups[..|groups| - 1]);
      RequiredsMean(groups[..|groups| - 1]);
      BagConcat(AnyOf(ps[..|ps| - 1]), AllOf(groups[|groups| - 1]));
    }
  }

  lemma PutFirst(group: seq<Pattern>, groups: seq<seq<Pattern>>)
    ensures Total([group] + groups) == Total(groups) + Bag(AllOf(group))
    ensures GroupsCost([group] + groups) == GroupsCost(groups) + CostProduct(group)
  {
    TotalConcat([group], groups);
    GroupsCostConcat([group], groups);
    OneGroup(group);
  }

  /** The group whose first branch is at `i`, without it. */
  function RestOf(group: seq<Pattern>, i: nat): seq<Pattern>
    requires i < |group|
  {
    group[..i] + group[i + 1..]
  }

  /** A turn of the worklist loop makes the groups cheaper: with a branch in the first group ... */
  lemma {:induction false} RewriteCost(group: seq<Pattern>, groups: seq<seq<Pattern>>, i: nat)
    requires i < |group| && !group[i].Terminal?
    ensures GroupsCost(groups + Expand(group[i], RestOf(group, i))) < GroupsCost([group] + groups)
  {
    assert group == group[..i] + [group[i]] + group[i + 1..];
    ExpandCosts(group[..i], group[i], group[i + 1..]);
    GroupsCostConcat(groups, Expand(group[i], RestOf(group, i)));
    GroupsCostConcat([group], groups);
    OneGroup(group);
  }

  /** ... and without one. */
  lemma FinishCost(group: seq<Pattern>, groups: seq<seq<Pattern>>)
    ensures GroupsCost(groups) < GroupsCost([group] + groups)
  {
    GroupsCostConcat([group], groups);
    OneGroup(group);
  }

  /** A turn keeps the meaning of the groups. */
  lemma {:induction false} RewriteMeans(group: seq<Pattern>, groups: seq<seq<Pattern>>, i: nat)
    requires i < |group| && !group[i].Terminal?
    ensures Total(groups + Expand(group[i], RestOf(group, i))) == Total([group] + groups)
  {
    assert group == group[..i] + [group[i]] + group[i + 1..];
    ExpandMeans(group[..i], group[i], group[i + 1..]);
    TotalConcat(groups, Expand(group[i], RestOf(group, i)));
    PutFirst(group, groups);
  }

  lemma FinishMeans(group: seq<Pattern>, groups: seq<seq<Pattern>>, result: seq<seq<Pattern>>)
    ensures Total(groups) + Total(result + [group]) == Total([group] + groups) + Total(result)
  {
    PutFirst(group, groups);
    TotalSnoc(result, group);
    UnionAssoc(Total(groups), Bag(AllOf(group)), Total(result));
  }

  /** The groups left in `result` by the worklist loop. */
  function Worklist(groups: seq<seq<Pattern>>, result: seq<seq<Pattern>>): seq<seq<Pattern>>
    decreases GroupsCost(groups)
  {
    if groups == [] then result
    else
      var group, others := groups[0], groups[1..];
      var i := FirstBranch(group);
      assert groups == [group] + others;
      if i < |group| then
        RewriteCost(group, others, i);
        Worklist(others + Expand(group[i], RestOf(group, i)), result)
      else
        FinishCost(group, others);
        Worklist(others, result + [group])
  }

  predicate AllTerminalGroups(groups: seq<seq<Pattern>>) {
    forall i :: 0 <= i < |groups| ==> AllTerminal(groups[i])
  }

  lemma {:induction false} WorklistMeans(groups: seq<seq<Pattern>>, result: seq<seq<Pattern>>)
    ensures Total(Worklist(groups, result)) == Total(groups) + Total(result)
    decreases GroupsCost(groups)
  {
    if groups != [] {
      var group, others := groups[0], groups[1..];
      var i := FirstBranch(group);
      assert groups == [group] + others;
      if i < |group| {
        RewriteCost(group, others, i);
        RewriteMeans(group, others, i);
        WorklistMeans(others + Expand(group[i], RestOf(group, i)), result);
      } else {
        FinishCost(group, others);
        FinishMeans(group, others, result);
        WorklistMeans(others, result + [group]);
      }
    }
  }

  lemma {:induction false} WorklistIsFlat(groups: seq<seq<Pattern>>, result: seq<seq<Pattern>>)
    requires AllTerminalGroups(result)
    ensures AllTerminalGroups(Worklist(groups, result))
    decreases GroupsCost(groups)
  {
    if groups != [] {
      var group, others := groups[0], groups[1..];
      var i := FirstBranch(group);
      assert groups == [group] + others;
      if i < |group| {
        RewriteCost(group, others, i);
        WorklistIsFlat(others + Expand(group[i], RestOf(group, i)), result);
      } else {
        FinishCost(group, others);
        NoBranch(group);
        WorklistIsFlat(others, result + [group]);
      }
    }
  }

  /** `Either(*[Required(*e) for e in result])`. */
  function TransformOf(pattern: Pattern): Pattern {
    Either(Requireds(Worklist([[pattern]], [])))
  }

  /** The transformed pattern is one Either of Requireds of leaves. */
  lemma {:induction false} TransformIsFlat(pattern: Pattern)
    ensures AllRequiredOfTerminals(TransformOf(pattern).children)
  {
    WorklistIsFlat([[pattern]], []);
  }

  lemma StartMeans(pattern: Pattern)
    ensures Total([[pattern]]) + Total([]) == Bag(Alternatives(pattern))
  {
    OneGroup([pattern]);
    AllOfOne(pattern);
  }

  /** The transformed pattern has the same bag of alternatives. */
  lemma {:induction false} TransformKeepsMeaning(pattern: Pattern)
    ensures Bag(Alternatives(TransformOf(pattern))) == Bag(Alternatives(pattern))
  {
    var groups := Worklist([[pattern]], []);
    var meaning := Bag(Alternatives(pattern));
    assert Total(groups) == meaning by {
      WorklistMeans([[pattern]], []);
      StartMeans(pattern);
    }
    RequiredsMean(groups);
  }

  method Transform(pattern: Pattern) returns (r: Pattern)
    ensures r == TransformOf(pattern)
  {
    var result: seq<seq<Pattern>> := [];
    var groups := [[pattern]];
    while groups != []
      invariant Worklist(groups, result) == Worklist([[pattern]], [])
      decreases GroupsCost(groups)
    {
      var children, others := groups[0], groups[1..];
      assert groups == [children] + others;
      var i := FirstBranch(children);
      if i < |children| {
        RewriteCost(children, others, i);
        groups := Rewrite(others, children[i], children[..i] + children[i + 1..]);
      } else {
        FinishCost(children, others);
        groups := others;
        result := result + [children];
      }
    }
    r := Either(Requireds(result));
  }

  /** The body of the loop for a group with `child` taken out. */
  method Rewrite(start: seq<seq<Pattern>>, child: Pattern, rest: seq<Pattern>) returns (groups: seq<seq<Pattern>>)
    requires !child.Terminal?
    ensures groups == start + Expand(child, rest)
  {
    if child.Either? {
      groups := AppendEach(start, child.children, rest);
    } else if child.OneOrMore? {
      groups := start + [child.children + child.children + rest];
    } else {
      groups := start + [child.children + rest];
    }
  }

  /** `for c in child.children: groups.append([c] + children)`. */
  method AppendEach(start: seq<seq<Pattern>>, cs: seq<Pattern>, rest: seq<Pattern>) returns (groups: seq<seq<Pattern>>)
    ensures groups == start + EachWith(cs, rest)
  {
    groups := start;
    for i := 0 to |cs|
      invariant groups == start + EachWith(cs[..i], rest)
    {
      assert cs[..i + 1][..i] == cs[..i];
      groups := groups + [[cs[i]] + rest];
    }
    assert cs[..|cs|] == cs;
  }
}
