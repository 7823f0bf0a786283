/** Facts about sequences and multisets shared by the order-independence proofs. */
module Seqs {
  /**
   * When `c` is a reordering of `a`, the last element of `a` sits somewhere
   * in `c`, and what is left on either side is a reordering of the rest.
   */
  lemma PickOut<T>(a: seq<T>, c: seq<T>) returns (j: nat)
    requires a != [] && multiset(a) == multiset(c)
    ensures j < |c| && c[j] == a[|a| - 1]
    ensures c == c[..j] + [c[j]] + c[j + 1..]
    ensures multiset(a[..|a| - 1]) == multiset(c[..j] + c[j + 1..])
  {
    var x := a[|a| - 1];
    var a' := a[..|a| - 1];
    assert a == a' + [x];
    assert x in multiset(c);
    j :| 0 <= j < |c| && c[j] == x;
    var c' := c[..j] + c[j + 1..];
    assert c == c[..j] + [x] + c[j + 1..];
    assert multiset(a) == multiset(a') + multiset{x};
    assert multiset(c) == multiset(c[..j]) + multiset{x} + multiset(c[j + 1..]);
    assert multiset(c') == multiset(c[..j]) + multiset(c[j + 1..]);
    assert multiset(a') == multiset(a') + multiset{x} - multiset{x};
    assert multiset(c') == multiset(c') + multiset{x} - multiset{x};
  }

  lemma AppendAssoc<T>(p: seq<T>, q: seq<T>, r: seq<T>)
    ensures (p + q) + r == p + (q + r)
  {
  }

  /** Taking two elements out of a set gives the same set in either order. */
  lemma RemoveTwice<T>(a: set<T>, x: T, y: T)
    ensures a - {x} - {y} == a - {y} - {x}
  {
  }

  /** Two maps whose domains agree away from `k` have the same keys once `k` is taken out. */
  lemma KeysAgreeBut<K, V, W>(a: map<K, V>, b: map<K, W>, k: K)
    requires forall x | x != k :: x in a <==> x in b
    ensures a.Keys - {k} == b.Keys - {k}
  {
  }

  lemma RemoveAbsent<T>(a: set<T>, x: T)
    requires x !in a
    ensures a - {x} == a
  {
  }
}
