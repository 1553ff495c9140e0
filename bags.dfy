// Order-free counting: how many elements of a sequence satisfy a predicate
// does not depend on the order of the elements.
module Bags {
  /** How many elements satisfy `p`. */
  function Count<T>(xs: seq<T>, p: T -> bool): (c: nat)
    ensures c <= |xs|
  {
    if xs == [] then 0 else Count(xs[..|xs| - 1], p) + (if p(xs[|xs| - 1]) then 1 else 0)
  }

  /** Counting over a concatenation adds the counts of the two parts. */
  lemma {:induction false} CountAppend<T>(a: seq<T>, b: seq<T>, p: T -> bool)
    ensures Count(a + b, p) == Count(a, p) + Count(b, p)
    decreases |b|
  {
    if b == [] {
      assert a + b == a;
    } else {
      assert (a + b)[..|a + b| - 1] == a + b[..|b| - 1];
      CountAppend(a, b[..|b| - 1], p);
    }
  }

  /** A sequence is what lies before index `k`, the element there, and what
      lies after it. */
  lemma SplitAt<T>(b: seq<T>, k: nat)
    requires k < |b|
    ensures b == b[..k] + [b[k]] + b[k + 1..]
  {
  }

  /** Taking the last element off one ordering and the same element off
      another leaves two orderings of the same elements. */
  lemma RemoveMatching<T>(a: seq<T>, b: seq<T>, k: nat)
    requires multiset(a) == multiset(b) && a != [] && k < |b| && b[k] == a[|a| - 1]
    ensures multiset(a[..|a| - 1]) == multiset(b[..k] + b[k + 1..])
  {
    var x, rest, left, right := a[|a| - 1], a[..|a| - 1], b[..k], b[k + 1..];
    assert a == rest + [x];
    SplitAt(b, k);
    assert multiset(a) == multiset(rest) + multiset{x};
    assert multiset(b) == multiset(left) + multiset{x} + multiset(right);
    assert multiset(left + right) == multiset(left) + multiset(right);
    assert multiset(rest) == multiset(a) - multiset{x};
    assert multiset(left + right) == multiset(b) - multiset{x};
  }

  /** Taking out the element at `k` takes out its share of the count. */
  lemma CountRemove<T>(b: seq<T>, k: nat, p: T -> bool)
    requires k < |b|
    ensures Count(b, p) == Count(b[..k] + b[k + 1..], p) + (if p(b[k]) then 1 else 0)
  {
    var left, mid, right := b[..k], [b[k]], b[k + 1..];
    SplitAt(b, k);
    CountAppend(left + mid, right, p);
    CountAppend(left, mid, p);
    CountAppend(left, right, p);
    assert mid[..0] == [];
  }

  /** Two orderings of the same elements have the same count. */
  lemma {:induction false} CountPermutation<T>(a: seq<T>, b: seq<T>, p: T -> bool)
    requires multiset(a) == multiset(b)
    ensures Count(a, p) == Count(b, p)
    decreases |a|
  {
    if a != [] {
      var x := a[|a| - 1];
      assert x in multiset(b) by {
        assert x in multiset(a);
      }
      var k :| 0 <= k < |b| && b[k] == x;
      RemoveMatching(a, b, k);
      CountPermutation(a[..|a| - 1], b[..k] + b[k + 1..], p);
      CountRemove(b, k, p);
    } else {
      assert |b| == |multiset(b)| == 0;
    }
  }
}
