/** Regrouping sums of multisets. */
module Multisets {
  lemma SumSwap<T>(x1: multiset<T>, x: multiset<T>, l: multiset<T>, a: multiset<T>, b: multiset<T>)
    requires x1 + a == x + b
    ensures (x1 + l) + a == (x + l) + b
  {
    assert (x1 + l) + a == (x1 + a) + l;
  }

  lemma Cancel<T>(a: multiset<T>, b: multiset<T>, c: multiset<T>)
    requires a + c == b + c
    ensures a == b
  {
    forall e ensures a[e] == b[e] {
      assert (a + c)[e] == (b + c)[e];
    }
  }
}
