/** The few `Array.prototype` operations the core relies on. */
module JsArray {

  /** `xs.indexOf(x)`: the first position of `x`, or -1 when it is absent. */
  function IndexOf<T(==)>(xs: seq<T>, x: T): (i: int)
    ensures -1 <= i < |xs|
    ensures i == -1 <==> x !in xs
    ensures 0 <= i ==> xs[i] == x && forall j | 0 <= j < i :: xs[j] != x
  {
    if |xs| == 0 then -1
    else if xs[0] == x then 0
    else
      var k := IndexOf(xs[1..], x);
      if k == -1 then -1 else k + 1
  }

  /** No value occurs twice. */
  predicate Distinct<T(==)>(xs: seq<T>) {
    forall i, j | 0 <= i < j < |xs| :: xs[i] != xs[j]
  }

  /** In a list without duplicates, the position of an element is the position it was found at. */
  lemma {:induction false} IndexOfDistinct<T>(xs: seq<T>, i: int)
    requires Distinct(xs)
    requires 0 <= i < |xs|
    ensures IndexOf(xs, xs[i]) == i
  {
  }

  /** A list of distinct values, rearranged, still has no duplicates. */
  lemma DistinctPermutation<T>(a: seq<T>, b: seq<T>)
    requires multiset(a) == multiset(b)
    requires Distinct(a)
    ensures Distinct(b)
  {
    forall i, j | 0 <= i < j < |b| ensures b[i] != b[j] {
      if b[i] == b[j] {
        TwiceInMultiset(b, i, j);
        AtMostOnce(a, b[i]);
        assert false;
      }
    }
  }

  lemma TwiceInMultiset<T>(b: seq<T>, i: int, j: int)
    requires 0 <= i < j < |b| && b[i] == b[j]
    ensures multiset(b)[b[i]] >= 2
  {
    assert b == b[..i] + [b[i]] + b[i+1..j] + [b[j]] + b[j+1..];
    assert multiset(b) == multiset(b[..i]) + multiset{b[i]} + multiset(b[i+1..j]) + multiset{b[j]} + multiset(b[j+1..]);
  }

  lemma {:induction false} AtMostOnce<T>(a: seq<T>, x: T)
    requires Distinct(a)
    ensures multiset(a)[x] <= 1
  {
    if |a| > 0 {
      var n := |a| - 1;
      assert a == a[..n] + [a[n]];
      assert Distinct(a[..n]);
      AtMostOnce(a[..n], x);
      assert a[n] !in a[..n];
      assert multiset(a) == multiset(a[..n]) + multiset{a[n]};
    }
  }
}
