/** What matching means for the branches of docopt.py whose children are leaves, in terms of the order in which the
    leaves and the command-line items stand, without the matcher's steps. */
module DocoptLeaves {
  import opened Options
  import opened DocoptPattern
  import opened DocoptMatch
  import opened Sequences

  /** What competes for the same items: everything positional, or the options of one name. */
  datatype Class = Positional | Named(name: Option<string>)

  function ClassOf(leaf: Leaf): Class {
    if leaf.Opt? then Named(leaf.Name()) else Positional
  }

  /** A command line as it is parsed: options have names, and positional arguments have none. */
  predicate Parsed(items: seq<Leaf>) {
    forall i :: 0 <= i < |items| ==> ParsedItem(items[i])
  }

  predicate ParsedItem(item: Leaf) {
    (item.Opt? && item.Name().Some?) || (item.Argument? && item.argName == None)
  }

  predicate OptionsNamed(leaves: seq<Leaf>) {
    forall i :: 0 <= i < |leaves| ==> LeafNamed(leaves[i])
  }

  predicate LeafNamed(leaf: Leaf) {
    leaf.Opt? ==> leaf.Name().Some?
  }

  predicate NoCommands(leaves: seq<Leaf>) {
    forall i :: 0 <= i < |leaves| ==> !leaves[i].Command?
  }

  /** The leaves or items of a class, in order. */
  function Alike(c: Class, xs: seq<Leaf>): seq<Leaf> {
    if xs == [] then []
    else
      var n := |xs| - 1;
      Alike(c, xs[..n]) + (if ClassOf(xs[n]) == c then [xs[n]] else [])
  }

  /** How many of its own class stand before the j-th. */
  function Rank(xs: seq<Leaf>, j: nat): nat
    requires j < |xs|
  {
    |Alike(ClassOf(xs[j]), xs[..j])|
  }

  /** The item that is meant for the j-th leaf: the leaves of a class stand for the items of that class in order. */
  function MeantFor(leaves: seq<Leaf>, items: seq<Leaf>, j: nat): Option<Leaf>
    requires j < |leaves|
  {
    var mine := Alike(ClassOf(leaves[j]), items);
    if Rank(leaves, j) < |mine| then Some(mine[Rank(leaves, j)]) else None
  }

  /** A command must be called by its name. */
  predicate Fits(leaf: Leaf, item: Leaf) {
    leaf.Command? ==> leaf.argName.Some? && item.value == Text(leaf.argName.value)
  }

  predicate Satisfied(leaves: seq<Leaf>, items: seq<Leaf>, j: nat)
    requires j < |leaves|
  {
    MeantFor(leaves, items, j).Some? && Fits(leaves[j], MeantFor(leaves, items, j).value)
  }

  predicate AllSatisfied(leaves: seq<Leaf>, items: seq<Leaf>) {
    forall j :: 0 <= j < |leaves| ==> Satisfied(leaves, items, j)
  }

  /** The items for which there are not enough leaves of their class. */
  function Unused(items: seq<Leaf>, leaves: seq<Leaf>): seq<Leaf> {
    if items == [] then []
    else
      var n := |items| - 1;
      Unused(items[..n], leaves) + (if Rank(items, n) >= |Alike(ClassOf(items[n]), leaves)| then [items[n]] else [])
  }

  /** What the leaves from the j-th on have collected: each the item meant for it, under its own name. */
  function Filled(leaves: seq<Leaf>, items: seq<Leaf>, j: nat): seq<Leaf>
    requires j <= |leaves|
    decreases |leaves| - j
  {
    if j == |leaves| then [] else FilledOne(leaves[j], MeantFor(leaves, items, j)) + Filled(leaves, items, j + 1)
  }

  function FilledOne(leaf: Leaf, item: Option<Leaf>): seq<Leaf> {
    if item.Some? && Accepts(leaf, item.value) then [Collects(leaf, item.value)] else []
  }

  // ---------- classes ----------

  lemma AlikeSnoc(c: Class, xs: seq<Leaf>, x: Leaf)
    ensures Alike(c, xs + [x]) == Alike(c, xs) + (if ClassOf(x) == c then [x] else [])
  {
    assert (xs + [x])[..|xs|] == xs;
  }

  lemma {:induction false} AlikeConcat(c: Class, xs: seq<Leaf>, ys: seq<Leaf>)
    ensures Alike(c, xs + ys) == Alike(c, xs) + Alike(c, ys)
    decreases |ys|
  {
    if ys == [] {
      assert xs + ys == xs;
    } else {
      var n := |ys| - 1;
      assert xs + ys == (xs + ys[..n]) + [ys[n]] && ys == ys[..n] + [ys[n]];
      AlikeSnoc(c, xs + ys[..n], ys[n]);
      AlikeConcat(c, xs, ys[..n]);
    }
  }

  lemma AlikeCons(c: Class, x: Leaf, xs: seq<Leaf>)
    ensures Alike(c, [x] + xs) == (if ClassOf(x) == c then [x] else []) + Alike(c, xs)
  {
    AlikeConcat(c, [x], xs);
    assert [x] == [] + [x];
    AlikeSnoc(c, [], x);
  }

  lemma {:induction false} AlikeMember(c: Class, xs: seq<Leaf>, k: nat)
    requires k < |Alike(c, xs)|
    ensures ClassOf(Alike(c, xs)[k]) == c && Alike(c, xs)[k] in xs
    decreases |xs|
  {
    var n := |xs| - 1;
    if k < |Alike(c, xs[..n])| {
      AlikeMember(c, xs[..n], k);
    }
  }

  lemma {:induction false} NoneAlike(c: Class, xs: seq<Leaf>)
    requires forall i :: 0 <= i < |xs| ==> ClassOf(xs[i]) != c
    ensures Alike(c, xs) == []
    decreases |xs|
  {
    if xs != [] {
      NoneAlike(c, xs[..|xs| - 1]);
    }
  }

  /** `n` is the place of the first item of the class, or the number of items if there is none. */
  predicate FirstAlike(c: Class, xs: seq<Leaf>, n: nat) {
    n <= |xs| && (forall i :: 0 <= i < n ==> ClassOf(xs[i]) != c) && (n < |xs| ==> ClassOf(xs[n]) == c)
  }

  /** The items without the n-th, if there is one. */
  function After(items: seq<Leaf>, n: nat): seq<Leaf> {
    if n < |items| then Without(items, n) else items
  }

  /** Taking out the first of a class. */
  lemma {:induction false} AlikeWithout(c: Class, d: Class, xs: seq<Leaf>, n: nat)
    requires FirstAlike(c, xs, n) && n < |xs|
    ensures Alike(c, xs) != [] && Alike(c, xs)[0] == xs[n]
    ensures Alike(d, Without(xs, n)) == if d == c then Alike(c, xs)[1..] else Alike(d, xs)
  {
    var front, x, back := xs[..n], xs[n], xs[n + 1..];
    assert Alike(c, front) == [] by { NoneAlike(c, front); }
    var all := front + ([x] + back);
    assert Alike(c, all) == [x] + Alike(c, back) by { AlikeAround(c, front, x, back); }
    assert Alike(d, all) == Alike(d, front) + ((if c == d then [x] else []) + Alike(d, back)) &&
           Alike(d, front + back) == Alike(d, front) + Alike(d, back) by { AlikeAround(d, front, x, back); }
    assert xs == all by { Around(xs, n); }
    assert Without(xs, n) == front + back;
    if c == d {
      assert Alike(c, front + back) == Alike(c, back);
    } else {
      assert [] + Alike(d, back) == Alike(d, back);
    }
  }

  lemma Around(xs: seq<Leaf>, n: nat)
    requires n < |xs|
    ensures xs == xs[..n] + ([xs[n]] + xs[n + 1..])
  {
  }

  lemma AlikeAround(d: Class, front: seq<Leaf>, x: Leaf, back: seq<Leaf>)
    ensures Alike(d, front + ([x] + back)) ==
            Alike(d, front) + ((if ClassOf(x) == d then [x] else []) + Alike(d, back))
    ensures Alike(d, front + back) == Alike(d, front) + Alike(d, back)
  {
    AlikeConcat(d, front, [x] + back);
    AlikeConcat(d, front, back);
    AlikeCons(d, x, back);
  }

  // ---------- one leaf ----------

  /** A leaf stops at the first item of its class. */
  lemma {:induction false} LeafTakes(leaf: Leaf, items: seq<Leaf>) returns (n: nat)
    requires LeafNamed(leaf) && Parsed(items)
    ensures FirstAlike(ClassOf(leaf), items, n)
    ensures Position(leaf, items) == if n < |items| && Fits(leaf, items[n]) then n else |items|
    ensures n < |items| ==> (Accepts(leaf, items[n]) <==> Fits(leaf, items[n]))
  {
    n := FirstStop(leaf, items);
    PositionIsFirst(leaf, items);
    forall i | 0 <= i < |items| ensures StopsAt(leaf, items[i]) <==> ClassOf(items[i]) == ClassOf(leaf) {
      assert ParsedItem(items[i]);
    }
  }

  lemma {:induction false} UnusedTake(leaf: Leaf, leaves: seq<Leaf>, items: seq<Leaf>, n: nat)
    requires FirstAlike(ClassOf(leaf), items, n)
    ensures Unused(items, [leaf] + leaves) == Unused(After(items, n), leaves)
    decreases |items|
  {
    if items != [] {
      var m := |items| - 1;
      var front, last := items[..m], items[m];
      assert items == front + [last];
      if n < m {
        UnusedTake(leaf, leaves, front, n);
        UnusedLater(leaf, leaves, front, last, n);
      } else {
        UnusedTake(leaf, leaves, front, m);
        UnusedLast(leaf, leaves, front, last);
        assert n == m ==> Without(items, n) == front;
      }
    }
  }

  /** One more item at the end, after the one that is taken. */
  lemma UnusedLater(leaf: Leaf, leaves: seq<Leaf>, front: seq<Leaf>, last: Leaf, n: nat)
    requires FirstAlike(ClassOf(leaf), front, n) && n < |front|
    requires Unused(front, [leaf] + leaves) == Unused(Without(front, n), leaves)
    ensures Unused(front + [last], [leaf] + leaves) == Unused(Without(front + [last], n), leaves)
  {
    assert Without(front + [last], n) == Without(front, n) + [last];
    UnusedSnoc(front, last, [leaf] + leaves);
    UnusedSnoc(Without(front, n), last, leaves);
    assert |Alike(ClassOf(last), front)| >= |Alike(ClassOf(last), [leaf] + leaves)| <==>
           |Alike(ClassOf(last), Without(front, n))| >= |Alike(ClassOf(last), leaves)| by {
      AlikeCons(ClassOf(last), leaf, leaves);
      AlikeWithout(ClassOf(leaf), ClassOf(last), front, n);
    }
  }

  /** One more item at the end, when none before it is taken. */
  lemma UnusedLast(leaf: Leaf, leaves: seq<Leaf>, front: seq<Leaf>, last: Leaf)
    requires FirstAlike(ClassOf(leaf), front, |front|)
    requires Unused(front, [leaf] + leaves) == Unused(front, leaves)
    ensures Unused(front + [last], [leaf] + leaves) ==
            if ClassOf(last) == ClassOf(leaf) then Unused(front, leaves) else Unused(front + [last], leaves)
  {
    UnusedSnoc(front, last, [leaf] + leaves);
    UnusedSnoc(front, last, leaves);
    AlikeCons(ClassOf(last), leaf, leaves);
    NoneAlike(ClassOf(leaf), front);
  }

  lemma UnusedSnoc(items: seq<Leaf>, last: Leaf, leaves: seq<Leaf>)
    ensures Unused(items + [last], leaves) ==
            Unused(items, leaves) +
            (if |Alike(ClassOf(last), items)| >= |Alike(ClassOf(last), leaves)| then [last] else [])
  {
    assert (items + [last])[..|items|] == items;
  }

  lemma {:induction false} UnusedNothing(items: seq<Leaf>)
    ensures Unused(items, []) == items
    decreases |items|
  {
    if items != [] {
      UnusedNothing(items[..|items| - 1]);
    }
  }

  /** Once the first leaf has had its turn, the others stand for what they stood for before. */
  lemma {:induction false} MeantForRest(leaf: Leaf, leaves: seq<Leaf>, items: seq<Leaf>, n: nat, j: nat)
    requires FirstAlike(ClassOf(leaf), items, n) && j < |leaves|
    ensures MeantFor([leaf] + leaves, items, j + 1) ==
            MeantFor(leaves, After(items, n), j)
  {
    var all, c := [leaf] + leaves, ClassOf(leaves[j]);
    var same := ClassOf(leaf) == c;
    assert all[j + 1] == leaves[j];
    assert Rank(all, j + 1) == Rank(leaves, j) + (if same then 1 else 0) by {
      assert all[..j + 1] == [leaf] + leaves[..j];
      AlikeCons(c, leaf, leaves[..j]);
    }
    if n < |items| {
      assert Alike(c, Without(items, n)) == if same then Alike(c, items)[1..] else Alike(c, items) by {
        AlikeWithout(ClassOf(leaf), c, items, n);
      }
    } else {
      NoneAlike(ClassOf(leaf), items);
    }
  }

  lemma {:induction false} MeantForFirst(leaf: Leaf, leaves: seq<Leaf>, items: seq<Leaf>, n: nat)
    requires FirstAlike(ClassOf(leaf), items, n)
    ensures MeantFor([leaf] + leaves, items, 0) == if n < |items| then Some(items[n]) else None
  {
    assert ([leaf] + leaves)[..0] == [];
    if n < |items| {
      AlikeWithout(ClassOf(leaf), ClassOf(leaf), items, n);
    } else {
      NoneAlike(ClassOf(leaf), items);
    }
  }

  lemma {:induction false} FilledRest(leaf: Leaf, leaves: seq<Leaf>, items: seq<Leaf>, n: nat, j: nat)
    requires FirstAlike(ClassOf(leaf), items, n) && j <= |leaves|
    ensures Filled([leaf] + leaves, items, j + 1) ==
            Filled(leaves, After(items, n), j)
    decreases |leaves| - j
  {
    if j < |leaves| {
      MeantForRest(leaf, leaves, items, n, j);
      FilledRest(leaf, leaves, items, n, j + 1);
    }
  }

  lemma {:induction false} FilledCons(leaf: Leaf, leaves: seq<Leaf>, items: seq<Leaf>, n: nat)
    requires FirstAlike(ClassOf(leaf), items, n)
    ensures Filled([leaf] + leaves, items, 0) ==
            FilledOne(leaf, if n < |items| then Some(items[n]) else None) +
            Filled(leaves, After(items, n), 0)
  {
    MeantForFirst(leaf, leaves, items, n);
    FilledRest(leaf, leaves, items, n, 0);
  }

  lemma {:induction false} AllSatisfiedCons(leaf: Leaf, leaves: seq<Leaf>, items: seq<Leaf>, n: nat)
    requires FirstAlike(ClassOf(leaf), items, n)
    ensures AllSatisfied([leaf] + leaves, items) <==>
            n < |items| && Fits(leaf, items[n]) && AllSatisfied(leaves, Without(items, n))
  {
    var all := [leaf] + leaves;
    MeantForFirst(leaf, leaves, items, n);
    forall j | 0 <= j < |leaves| && n < |items|
      ensures Satisfied(all, items, j + 1) <==> Satisfied(leaves, Without(items, n), j)
    {
      MeantForRest(leaf, leaves, items, n, j);
    }
    if n < |items| && Satisfied(all, items, 0) && AllSatisfied(leaves, Without(items, n)) {
      forall j | 0 <= j < |all| ensures Satisfied(all, items, j) {
        assert j > 0 ==> Satisfied(leaves, Without(items, n), j - 1);
      }
    }
    if AllSatisfied(all, items) {
      assert Satisfied(all, items, 0);
    }
  }

  // ---------- branches of leaves ----------

  function Terminals(leaves: seq<Leaf>): (ps: seq<Pattern>)
    ensures |ps| == |leaves| && AllWellFormed(ps)
    ensures forall i :: 0 <= i < |ps| ==> ps[i] == Terminal(leaves[i])
  {
    seq(|leaves|, i requires 0 <= i < |leaves| => Terminal(leaves[i]))
  }

  lemma ParsedWithout(items: seq<Leaf>, n: nat)
    requires Parsed(items) && n < |items|
    ensures Parsed(Without(items, n))
  {
  }

  lemma {:induction false} AllCons(leaf: Leaf, ps: seq<Pattern>, items: seq<Leaf>, collected: seq<Leaf>)
    returns (n: nat, taken: seq<Leaf>)
    requires LeafNamed(leaf) && Parsed(items) && AllWellFormed([Terminal(leaf)] + ps)
    requires AllWellFormed(ps)
    ensures FirstAlike(ClassOf(leaf), items, n) && Parsed(After(items, n))
    ensures taken == FilledOne(leaf, if n < |items| then Some(items[n]) else None)
    ensures MatchAll([Terminal(leaf)] + ps, items, collected) ==
            if n < |items| && Fits(leaf, items[n]) then MatchAll(ps, After(items, n), collected + taken) else Fail
  {
    n := LeafTakes(leaf, items);
    taken := FilledOne(leaf, if n < |items| then Some(items[n]) else None);
    assert ([Terminal(leaf)] + ps)[1..] == ps;
    if n < |items| {
      ParsedWithout(items, n);
    }
  }

  lemma {:induction false} AllOfLeaves(leaves: seq<Leaf>, items: seq<Leaf>, collected: seq<Leaf>)
    requires OptionsNamed(leaves) && Parsed(items)
    ensures MatchAll(Terminals(leaves), items, collected) ==
            if AllSatisfied(leaves, items) then Success(Unused(items, leaves), collected + Filled(leaves, items, 0))
            else Fail
    decreases |leaves|
  {
    if leaves == [] {
      UnusedNothing(items);
      assert collected + [] == collected;
    } else {
      var leaf, rest := leaves[0], leaves[1..];
      assert leaves == [leaf] + rest;
      TerminalsCons(leaf, rest);
      assert LeafNamed(leaf);
      var n, taken := AllCons(leaf, Terminals(rest), items, collected);
      AllSatisfiedCons(leaf, rest, items, n);
      if n < |items| && Fits(leaf, items[n]) {
        AllOfLeaves(rest, After(items, n), collected + taken);
        UnusedTake(leaf, rest, items, n);
        FilledCons(leaf, rest, items, n);
        Regroup(collected, taken, Filled(rest, After(items, n), 0));
      }
    }
  }

  lemma TerminalsCons(leaf: Leaf, leaves: seq<Leaf>)
    ensures Terminals([leaf] + leaves) == [Terminal(leaf)] + Terminals(leaves)
  {
  }

  lemma {:induction false} SomeCons(leaf: Leaf, ps: seq<Pattern>, items: seq<Leaf>, collected: seq<Leaf>)
    returns (n: nat, taken: seq<Leaf>)
    requires LeafNamed(leaf) && !leaf.Command? && Parsed(items) && AllWellFormed([Terminal(leaf)] + ps)
    requires AllWellFormed(ps)
    ensures FirstAlike(ClassOf(leaf), items, n) && Parsed(After(items, n))
    ensures taken == FilledOne(leaf, if n < |items| then Some(items[n]) else None)
    ensures MatchSome([Terminal(leaf)] + ps, items, collected) == MatchSome(ps, After(items, n), collected + taken)
  {
    n := LeafTakes(leaf, items);
    taken := FilledOne(leaf, if n < |items| then Some(items[n]) else None);
    assert ([Terminal(leaf)] + ps)[1..] == ps;
    if n < |items| {
      ParsedWithout(items, n);
    } else {
      assert collected + [] == collected;
    }
  }

  lemma {:induction false} SomeOfLeaves(leaves: seq<Leaf>, items: seq<Leaf>, collected: seq<Leaf>)
    requires OptionsNamed(leaves) && NoCommands(leaves) && Parsed(items)
    ensures MatchSome(Terminals(leaves), items, collected) ==
            Success(Unused(items, leaves), collected + Filled(leaves, items, 0))
    decreases |leaves|
  {
    if leaves == [] {
      UnusedNothing(items);
      assert collected + [] == collected;
    } else {
      var leaf, rest := leaves[0], leaves[1..];
      assert leaves == [leaf] + rest;
      TerminalsCons(leaf, rest);
      assert LeafNamed(leaf) && !leaf.Command?;
      var n, taken := SomeCons(leaf, Terminals(rest), items, collected);
      SomeOfLeaves(rest, After(items, n), collected + taken);
      UnusedTake(leaf, rest, items, n);
      FilledCons(leaf, rest, items, n);
      Regroup(collected, taken, Filled(rest, After(items, n), 0));
    }
  }

  /** A list of leaves succeeds exactly if there is an item for each of them and commands are called by their names.
      Then each leaf has collected its item, and what is left are the items in excess, in their order. */
  lemma {:induction false} RequiredLeaves(leaves: seq<Leaf>, items: seq<Leaf>, collected: seq<Leaf>)
    requires OptionsNamed(leaves) && Parsed(items)
    ensures Match(Required(Terminals(leaves)), items, collected) ==
            if AllSatisfied(leaves, items) then Success(Unused(items, leaves), collected + Filled(leaves, items, 0))
            else Fail
  {
    AllOfLeaves(leaves, items, collected);
  }

  /** Optional options and arguments take whatever there is for them, in any order of the items. */
  lemma {:induction false} OptionalLeaves(leaves: seq<Leaf>, items: seq<Leaf>, collected: seq<Leaf>)
    requires OptionsNamed(leaves) && NoCommands(leaves) && Parsed(items)
    ensures Match(Optional(Terminals(leaves)), items, collected) ==
            Success(Unused(items, leaves), collected + Filled(leaves, items, 0))
    ensures Match(OptionsShortcut(Terminals(leaves)), items, collected) ==
            Match(Optional(Terminals(leaves)), items, collected)
  {
    SomeOfLeaves(leaves, items, collected);
  }

  /** An item that stays has all the leaves of its class used up by items before it. */
  lemma {:induction false} UnusedMember(items: seq<Leaf>, leaves: seq<Leaf>, item: Leaf)
    requires item in Unused(items, leaves)
    ensures exists i :: 0 <= i < |items| && items[i] == item && Rank(items, i) >= |Alike(ClassOf(item), leaves)|
    decreases |items|
  {
    var n := |items| - 1;
    if item in Unused(items[..n], leaves) {
      UnusedMember(items[..n], leaves, item);
      var i :| 0 <= i < n && items[..n][i] == item && Rank(items[..n], i) >= |Alike(ClassOf(item), leaves)|;
      assert items[..n][..i] == items[..i];
    } else {
      assert items[n] == item;
    }
  }

  // ---------- repetition ----------

  /** The items of the other classes. */
  function Others(c: Class, items: seq<Leaf>): seq<Leaf> {
    if items == [] then []
    else
      var n := |items| - 1;
      Others(c, items[..n]) + (if ClassOf(items[n]) != c then [items[n]] else [])
  }

  /** What a leaf collects when it is given all the items. */
  function CollectsAll(leaf: Leaf, items: seq<Leaf>): seq<Leaf> {
    if items == [] then [] else FilledOne(leaf, Some(items[0])) + CollectsAll(leaf, items[1..])
  }

  lemma {:induction false} OthersWithout(c: Class, items: seq<Leaf>, n: nat)
    requires FirstAlike(c, items, n)
    ensures Others(c, items) == if n < |items| then Others(c, Without(items, n)) else items
    decreases |items|
  {
    if items != [] {
      var m := |items| - 1;
      var front, last := items[..m], items[m];
      assert items == front + [last];
      if n < m {
        OthersWithout(c, front, n);
        OthersLater(c, front, last, n);
      } else {
        OthersWithout(c, front, m);
        OthersSnoc(c, front, last);
        assert n == m ==> Without(items, n) == front;
      }
    }
  }

  lemma OthersLater(c: Class, front: seq<Leaf>, last: Leaf, n: nat)
    requires n < |front| && Others(c, front) == Others(c, Without(front, n))
    ensures Others(c, front + [last]) == Others(c, Without(front + [last], n))
  {
    assert Without(front + [last], n) == Without(front, n) + [last];
    OthersSnoc(c, front, last);
    OthersSnoc(c, Without(front, n), last);
  }

  lemma OthersSnoc(c: Class, items: seq<Leaf>, last: Leaf)
    ensures Others(c, items + [last]) == Others(c, items) + (if ClassOf(last) != c then [last] else [])
  {
    assert (items + [last])[..|items|] == items;
  }

  lemma CollectsAllCons(leaf: Leaf, item: Leaf, items: seq<Leaf>)
    ensures CollectsAll(leaf, [item] + items) == FilledOne(leaf, Some(item)) + CollectsAll(leaf, items)
  {
    assert ([item] + items)[1..] == items;
  }

  lemma {:induction false} RepeatLeaf(leaf: Leaf, items: seq<Leaf>, collected: seq<Leaf>)
    requires LeafNamed(leaf) && !leaf.Command? && Parsed(items)
    ensures Repeat(Terminal(leaf), items, collected) ==
            Success(Others(ClassOf(leaf), items), collected + CollectsAll(leaf, Alike(ClassOf(leaf), items)))
    decreases |items|
  {
    var n := LeafTakes(leaf, items);
    var c := ClassOf(leaf);
    OthersWithout(c, items, n);
    if n < |items| {
      var less, taken := Without(items, n), [Collects(leaf, items[n])];
      assert Repeat(Terminal(leaf), items, collected) == Repeat(Terminal(leaf), less, collected + taken);
      ParsedWithout(items, n);
      RepeatLeaf(leaf, less, collected + taken);
      assert Alike(c, items) == [items[n]] + Alike(c, less) by { AlikeWithout(c, c, items, n); }
      CollectsAllCons(leaf, items[n], Alike(c, less));
      Regroup(collected, taken, CollectsAll(leaf, Alike(c, less)));
    } else {
      NoneAlike(c, items);
      assert collected + [] == collected;
    }
  }

  /** A repeated argument or option needs one item of its class, takes all of them and leaves the others alone. */
  lemma {:induction false} RepeatedLeaf(leaf: Leaf, items: seq<Leaf>, collected: seq<Leaf>)
    requires LeafNamed(leaf) && !leaf.Command? && Parsed(items)
    ensures Match(OneOrMore([Terminal(leaf)]), items, collected) ==
            if Alike(ClassOf(leaf), items) == [] then Fail
            else Success(Others(ClassOf(leaf), items), collected + CollectsAll(leaf, Alike(ClassOf(leaf), items)))
  {
    var n := LeafTakes(leaf, items);
    RepeatLeaf(leaf, items, collected);
    if n < |items| {
      AlikeWithout(ClassOf(leaf), ClassOf(leaf), items, n);
    } else {
      NoneAlike(ClassOf(leaf), items);
    }
  }
}
