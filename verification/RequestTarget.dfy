/** The request target of restinio's http_request_header_t (http_headers.hpp): the string and the positions of
    its two separators, computed at once or block by block. */
module RequestTarget {
  import opened Sequences
  import opened Options

  /** `memchr_helper`: the first position of the character, or the length. */
  function Memchr(c: char, s: string): (i: nat)
    ensures i <= |s|
  {
    if s == "" || s[0] == c then 0 else 1 + Memchr(c, s[1..])
  }

  lemma {:induction false} MemchrFinds(c: char, s: string)
    ensures c !in s[..Memchr(c, s)] && (Memchr(c, s) < |s| ==> s[Memchr(c, s)] == c)
  {
    if s != "" && s[0] != c {
      MemchrFinds(c, s[1..]);
      assert s[..Memchr(c, s)] == [s[0]] + s[1..][..Memchr(c, s[1..])];
    }
  }

  lemma {:induction false} MemchrConcat(c: char, a: string, b: string)
    ensures Memchr(c, a + b) == if Memchr(c, a) < |a| then Memchr(c, a) else |a| + Memchr(c, b)
  {
    if a == "" {
      assert a + b == b;
    } else {
      assert (a + b)[1..] == a[1..] + b;
      MemchrConcat(c, a[1..], b);
    }
  }

  lemma {:induction false} MemchrAbsent(c: char, a: string)
    requires c !in a
    ensures Memchr(c, a) == |a|
  {
    if a != "" {
      MemchrAbsent(c, a[1..]);
    }
  }

  function FragmentPos(s: string): nat {
    Memchr('#', s)
  }

  function QueryPos(s: string): nat {
    Memchr('?', s[..FragmentPos(s)])
  }

  lemma {:induction false} AppendPositions(s: string, block: string)
    ensures FragmentPos(s + block) ==
            if FragmentPos(s) == |s| then |s| + Memchr('#', block) else FragmentPos(s)
    ensures QueryPos(s + block) ==
            if FragmentPos(s) == |s| && QueryPos(s) == |s| then |s| + Memchr('?', block[..Memchr('#', block)])
            else QueryPos(s)
  {
    MemchrConcat('#', s, block);
    var f := Memchr('#', block);
    if FragmentPos(s) == |s| {
      assert (s + block)[..|s| + f] == s + block[..f];
      assert s[..|s|] == s;
      MemchrConcat('?', s, block[..f]);
    } else {
      assert (s + block)[..FragmentPos(s)] == s[..FragmentPos(s)];
    }
  }

  /** A target taken apart. */
  datatype Parts = Parts(path: string, query: Option<string>, fragment: Option<string>)

  function Join(p: Parts): string {
    p.path + (if p.query.Some? then "?" + p.query.value else "") +
        (if p.fragment.Some? then "#" + p.fragment.value else "")
  }

  /** The parts of section 3 of RFC 3986: the separators stand nowhere before their own place. */
  predicate Proper(p: Parts) {
    '?' !in p.path && '#' !in p.path && (p.query.Some? ==> '#' !in p.query.value)
  }

  class Header {
    var requestTarget: string
    var querySeparatorPos: nat
    var fragmentSeparatorPos: nat

    /** The stored positions are those of the stored string. */
    predicate Valid()
      reads this
    {
      querySeparatorPos == QueryPos(requestTarget) && fragmentSeparatorPos == FragmentPos(requestTarget)
    }

    constructor ()
      ensures Valid() && requestTarget == ""
    {
      requestTarget, querySeparatorPos, fragmentSeparatorPos := "", 0, 0;
    }

    method SetRequestTarget(t: string)
      modifies this
      ensures Valid() && requestTarget == t
    {
      requestTarget := t;
      fragmentSeparatorPos := Memchr('#', requestTarget);
      querySeparatorPos := Memchr('?', requestTarget[..fragmentSeparatorPos]);
    }

    /** One block of the target, as the parser's callback delivers it. */
    method AppendRequestTarget(block: string)
      requires Valid()
      modifies this
      ensures Valid() && requestTarget == old(requestTarget) + block
    {
      AppendPositions(requestTarget, block);
      if |requestTarget| == fragmentSeparatorPos {
        var inc := Memchr('#', block);
        fragmentSeparatorPos := fragmentSeparatorPos + inc;
        if |requestTarget| == querySeparatorPos {
          querySeparatorPos := querySeparatorPos + Memchr('?', block[..inc]);
        }
      }
      requestTarget := requestTarget + block;
    }

    function Path(): (r: string)
      requires Valid()
      reads this
      ensures '?' !in r && '#' !in r
    {
      SplitIsProper(requestTarget);
      requestTarget[..querySeparatorPos]
    }

    /** A null view is None. */
    function Query(): (r: Option<string>)
      requires Valid()
      reads this
      ensures r.Some? ==> '#' !in r.value
    {
      SplitIsProper(requestTarget);
      if fragmentSeparatorPos == querySeparatorPos then None
      else Some(requestTarget[querySeparatorPos + 1..fragmentSeparatorPos])
    }

    function Fragment(): Option<string>
      requires Valid()
      reads this
    {
      if |requestTarget| == fragmentSeparatorPos then None else Some(requestTarget[fragmentSeparatorPos + 1..])
    }

    /** The three views are the one proper way to take the target apart. */
    lemma ViewsRebuild()
      requires Valid()
      ensures Join(Parts(Path(), Query(), Fragment())) == requestTarget
      ensures forall p :: Proper(p) && Join(p) == requestTarget ==> p == Parts(Path(), Query(), Fragment())
    {
      SplitJoins(requestTarget);
      assert SplitOf(requestTarget) == Parts(Path(), Query(), Fragment());
      forall p | Proper(p) && Join(p) == requestTarget ensures p == SplitOf(requestTarget) {
        JoinSplits(p);
      }
    }
  }

  function SplitOf(s: string): Parts {
    var q, f := QueryPos(s), FragmentPos(s);
    Parts(s[..q], if f == q then None else Some(s[q + 1..f]), if |s| == f then None else Some(s[f + 1..]))
  }

  lemma {:induction false} SplitIsProper(s: string)
    ensures Proper(SplitOf(s))
  {
    var q, f := QueryPos(s), FragmentPos(s);
    MemchrFinds('#', s);
    MemchrFinds('?', s[..f]);
    assert s[..f][..q] == s[..q];
    assert '#' !in s[..q] && (q < f ==> '#' !in s[q + 1..f]);
  }

  /** A text around one of its characters. */
  lemma Around(s: string, i: nat)
    requires i < |s|
    ensures s == s[..i] + [s[i]] + s[i + 1..]
  {
  }

  /** The parts with their separators rebuild the target exactly. */
  lemma {:induction false} SplitJoins(s: string)
    ensures Join(SplitOf(s)) == s
  {
    var q, f := QueryPos(s), FragmentPos(s);
    MemchrFinds('#', s);
    MemchrFinds('?', s[..f]);
    if f != q {
      Around(s[..f], q);
      assert s[..f] == s[..q] + "?" + s[q + 1..f] by {
        assert s[..f][..q] == s[..q] && s[..f][q + 1..] == s[q + 1..f];
      }
    }
    if |s| != f {
      Around(s, f);
    }
  }

  /** Path and query, with the separator. */
  function Front(p: Parts): string {
    p.path + if p.query.Some? then "?" + p.query.value else ""
  }

  lemma {:induction false} JoinPositions(p: Parts)
    requires Proper(p)
    ensures Join(p)[..|Front(p)|] == Front(p)
    ensures FragmentPos(Join(p)) == |Front(p)| && QueryPos(Join(p)) == |p.path|
  {
    var front := Front(p);
    var back := if p.fragment.Some? then "#" + p.fragment.value else "";
    assert Join(p) == front + back;
    MemchrAbsent('#', front);
    MemchrConcat('#', front, back);
    MemchrAbsent('?', p.path);
    MemchrConcat('?', p.path, if p.query.Some? then "?" + p.query.value else "");
  }

  /** And there is only one proper way to take it apart. */
  lemma {:induction false} JoinSplits(p: Parts)
    requires Proper(p)
    ensures SplitOf(Join(p)) == p
  {
    var s, q, f := Join(p), |p.path|, |Front(p)|;
    JoinPositions(p);
    assert s[..q] == p.path;
    if p.query.Some? {
      assert s[q + 1..f] == p.query.value;
    }
    if p.fragment.Some? {
      assert s[f + 1..] == p.fragment.value;
    }
  }

  /** However the parser cuts the target into blocks, the header ends as if it had been set at once. */
  method AppendAll(blocks: seq<string>) returns (h: Header)
    ensures h.Valid() && h.requestTarget == Flatten(blocks)
  {
    h := new Header();
    for i := 0 to |blocks|
      invariant fresh(h) && h.Valid() && h.requestTarget == Flatten(blocks[..i])
    {
      assert blocks[..i + 1][..i] == blocks[..i];
      h.AppendRequestTarget(blocks[i]);
    }
    assert blocks[..|blocks|] == blocks;
  }
}
