/** Sets of which one element changes sides. */
module Counting {

  function One(b: bool): int {
    if b then 1 else 0
  }

  lemma ReplaceMember<T>(a: set<T>, x: T, stays: bool)
    ensures |(a - {x}) + (if stays then {x} else {})| == |a| - One(x in a) + One(stays)
  {
    if x in a {
      assert a == (a - {x}) + {x};
    } else {
      assert a - {x} == a;
    }
    if !stays {
      assert (a - {x}) + {} == a - {x};
    }
  }
}
