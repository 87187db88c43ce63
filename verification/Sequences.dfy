/** Pieces of a text put together. */
module Sequences {

  /** The end of a line. */
  const CRLF := "\r\n"

  function Flatten(parts: seq<string>): string {
    if parts == [] then "" else Flatten(parts[..|parts| - 1]) + parts[|parts| - 1]
  }

  function ButLast(t: string): string
    requires t != ""
  {
    t[..|t| - 1]
  }

  function LastChar(t: string): char
    requires t != ""
  {
    t[|t| - 1]
  }

  lemma Assoc(a: string, b: string, c: string)
    ensures (a + b) + c == a + (b + c)
  {
  }

  lemma Regroup<T>(a: seq<T>, b: seq<T>, c: seq<T>)
    ensures a + (b + c) == (a + b) + c && |a + b| == |a| + |b|
  {
  }

  lemma FlattenSnoc(parts: seq<string>, part: string)
    ensures Flatten(parts + [part]) == Flatten(parts) + part
  {
    assert (parts + [part])[..|parts|] == parts;
  }

  /** The parts from the i-th on begin with the i-th. */
  lemma FlattenFrom(parts: seq<string>, i: nat)
    requires i < |parts|
    ensures Flatten(parts[i..]) == parts[i] + Flatten(parts[i + 1..])
  {
    assert parts[i..] == [parts[i]] + parts[i + 1..];
    FlattenCons(parts[i], parts[i + 1..]);
  }

  lemma {:induction false} FlattenCons(part: string, parts: seq<string>)
    ensures Flatten([part] + parts) == part + Flatten(parts)
    decreases |parts|
  {
    if parts == [] {
      assert [part] + parts == [part];
      assert [part][..0] == [];
    } else {
      var front, last := parts[..|parts| - 1], parts[|parts| - 1];
      assert [part] + parts == ([part] + front) + [last];
      FlattenCons(part, front);
      FlattenSnoc([part] + front, last);
    }
  }

  lemma {:induction false} FlattenConcat(a: seq<string>, b: seq<string>)
    ensures Flatten(a + b) == Flatten(a) + Flatten(b)
    decreases |b|
  {
    if b == [] {
      assert a + b == a;
    } else {
      var front, last := b[..|b| - 1], b[|b| - 1];
      assert a + b == (a + front) + [last];
      FlattenConcat(a, front);
      FlattenSnoc(a + front, last);
      Assoc(Flatten(a), Flatten(front), last);
    }
  }
}
