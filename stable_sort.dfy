/**
 * The ordering both standings tables use: `Array.prototype.sort` (which is stable)
 * with a comparator that puts more points first, then the better goal difference,
 * then more goals scored, and leaves rows equal on all three in their input order.
 */
module StableSort {

  /** The three sort fields of a row: points (actual or predicted), goal difference, goals for. */
  datatype Key = Key(points: int, goalDiff: int, goalsFor: int)

  /** The comparator `(a, b) => ...` of both sorts: negative when `a` goes before `b`. */
  function Compare(a: Key, b: Key): int {
    if b.points != a.points then b.points - a.points
    else if b.goalDiff != a.goalDiff then b.goalDiff - a.goalDiff
    else b.goalsFor - a.goalsFor
  }

  /** `a` comes no later than `b`: the comparator does not ask to swap them. */
  predicate NoLater(a: Key, b: Key) {
    Compare(a, b) <= 0
  }

  /** The comparator is zero exactly for equal keys, antisymmetric, and a total preorder. */
  lemma CompareIsTotalOrder(a: Key, b: Key, c: Key)
    ensures Compare(a, b) == 0 <==> a == b
    ensures Compare(a, b) < 0 <==> Compare(b, a) > 0
    ensures NoLater(a, b) || NoLater(b, a)
    ensures NoLater(a, b) && NoLater(b, c) ==> NoLater(a, c)
    ensures Compare(a, b) < 0 && NoLater(b, c) ==> Compare(a, c) < 0
  {
  }

  predicate SortedBy<T>(s: seq<T>, key: T -> Key) {
    forall i, j | 0 <= i < j < |s| :: NoLater(key(s[i]), key(s[j]))
  }

  /** `[x]` when `x` has key `k`, otherwise empty. */
  function Keep<T>(x: T, key: T -> Key, k: Key): seq<T> {
    if key(x) == k then [x] else []
  }

  /** The elements of `s` whose key is `k`, in the order of `s`. */
  function WithKey<T>(s: seq<T>, key: T -> Key, k: Key): seq<T> {
    if |s| == 0 then [] else Keep(s[0], key, k) + WithKey(s[1..], key, k)
  }

  /** `f` applied to every element, in order (`Array.prototype.map`). */
  function MapSeq<T, U>(s: seq<T>, f: T -> U): (r: seq<U>)
    ensures |r| == |s|
    ensures forall i | 0 <= i < |s| :: r[i] == f(s[i])
  {
    if |s| == 0 then [] else [f(s[0])] + MapSeq(s[1..], f)
  }

  /** Places `x` after every element that the comparator does not put behind it. */
  function Insert<T>(s: seq<T>, x: T, key: T -> Key): (r: seq<T>)
    ensures |r| == |s| + 1
    ensures multiset(r) == multiset(s) + multiset{x}
  {
    if |s| == 0 then [x]
    else if Compare(key(x), key(s[0])) < 0 then [x] + s
    else
      assert s == [s[0]] + s[1..];
      [s[0]] + Insert(s[1..], x, key)
  }

  /** Inserting into a sorted list keeps it sorted. */
  lemma {:induction false} InsertSorted<T>(s: seq<T>, x: T, key: T -> Key)
    requires SortedBy(s, key)
    ensures SortedBy(Insert(s, x, key), key)
  {
    if |s| == 0 {
    } else if Compare(key(x), key(s[0])) < 0 {
      var r := [x] + s;
      assert Insert(s, x, key) == r;
      forall j | 0 < j < |r| ensures NoLater(key(r[0]), key(r[j])) {
        CompareIsTotalOrder(key(x), key(s[0]), key(s[j - 1]));
      }
    } else {
      var tail := Insert(s[1..], x, key);
      var r := [s[0]] + tail;
      assert Insert(s, x, key) == r;
      assert SortedBy(s[1..], key);
      InsertSorted(s[1..], x, key);
      forall j | 0 < j < |r| ensures NoLater(key(r[0]), key(r[j])) {
        CompareIsTotalOrder(key(s[0]), key(x), key(x));
        assert r[j] in multiset(tail);
        assert r[j] == x || r[j] in multiset(s[1..]);
      }
    }
  }

  /** A stable insertion sort: the result of `[...s].sort(comparator)`. */
  function Sort<T>(s: seq<T>, key: T -> Key): (r: seq<T>)
    ensures |r| == |s|
    ensures multiset(r) == multiset(s)
    ensures SortedBy(r, key)
  {
    if |s| == 0 then []
    else
      var sorted := Sort(s[..|s| - 1], key);
      InsertSorted(sorted, s[|s| - 1], key);
      assert s == s[..|s| - 1] + [s[|s| - 1]];
      Insert(sorted, s[|s| - 1], key)
  }

  lemma {:induction false} WithKeyAppend<T>(a: seq<T>, b: seq<T>, key: T -> Key, k: Key)
    ensures WithKey(a + b, key, k) == WithKey(a, key, k) + WithKey(b, key, k)
  {
    if |a| > 0 {
      assert (a + b)[0] == a[0] && (a + b)[1..] == a[1..] + b;
      WithKeyAppend(a[1..], b, key, k);
      var h := Keep(a[0], key, k);
      assert h + (WithKey(a[1..], key, k) + WithKey(b, key, k))
          == (h + WithKey(a[1..], key, k)) + WithKey(b, key, k);
    } else {
      assert a + b == b;
    }
  }

  lemma {:induction false} WithKeyNone<T>(s: seq<T>, key: T -> Key, k: Key)
    requires forall i | 0 <= i < |s| :: key(s[i]) != k
    ensures WithKey(s, key, k) == []
  {
    if |s| > 0 {
      WithKeyNone(s[1..], key, k);
    }
  }

  /** Inserting into a sorted list puts `x` behind every element with its key. */
  lemma {:induction false} InsertIsStable<T>(s: seq<T>, x: T, key: T -> Key, k: Key)
    requires SortedBy(s, key)
    ensures WithKey(Insert(s, x, key), key, k) == WithKey(s, key, k) + Keep(x, key, k)
  {
    if |s| == 0 {
    } else if Compare(key(x), key(s[0])) < 0 {
      forall i | 0 <= i < |s| ensures key(s[i]) != key(x) {
        if i > 0 {
          CompareIsTotalOrder(key(x), key(s[0]), key(s[i]));
        }
        CompareIsTotalOrder(key(x), key(s[i]), key(s[i]));
      }
      if key(x) == k {
        WithKeyNone(s, key, k);
      }
      assert ([x] + s)[1..] == s;
    } else {
      assert SortedBy(s[1..], key);
      InsertIsStable(s[1..], x, key, k);
      assert ([s[0]] + Insert(s[1..], x, key))[1..] == Insert(s[1..], x, key);
    }
  }

  /**
   * Stability: for every key, the elements with that key keep their relative
   * order. Together with `Sort`'s postconditions this pins down the result.
   */
  lemma {:induction false} SortIsStable<T>(s: seq<T>, key: T -> Key, k: Key)
    ensures WithKey(Sort(s, key), key, k) == WithKey(s, key, k)
  {
    if |s| > 0 {
      var init, last := s[..|s| - 1], s[|s| - 1];
      SortIsStable(init, key, k);
      SortStep(s, key);
      InsertKeepsOrder(Sort(init, key), init, last, key, k);
      SplitLast(s);
    }
  }

  /** `Sort` inserts the last element into the sorted prefix. */
  lemma SortStep<T>(s: seq<T>, key: T -> Key)
    requires |s| > 0
    ensures Sort(s, key) == Insert(Sort(s[..|s| - 1], key), s[|s| - 1], key)
  {
  }

  lemma SplitLast<T>(s: seq<T>)
    requires |s| > 0
    ensures s == s[..|s| - 1] + [s[|s| - 1]]
  {
  }

  /** Inserting `last` into a sorted list with the same `k`-elements as `init` keeps them, then `last`'s. */
  lemma InsertKeepsOrder<T>(sorted: seq<T>, init: seq<T>, last: T, key: T -> Key, k: Key)
    requires SortedBy(sorted, key)
    requires WithKey(sorted, key, k) == WithKey(init, key, k)
    ensures WithKey(Insert(sorted, last, key), key, k) == WithKey(init + [last], key, k)
  {
    InsertIsStable(sorted, last, key, k);
    WithKeyAppend(init, [last], key, k);
    assert [last][1..] == [];
  }

  lemma {:induction false} MapAppend<T, U>(a: seq<T>, b: seq<T>, f: T -> U)
    ensures MapSeq(a + b, f) == MapSeq(a, f) + MapSeq(b, f)
  {
  }

  lemma {:induction false} InsertMap<T, U>(s: seq<T>, x: T, f: T -> U, k1: T -> Key, k2: U -> Key)
    requires forall y :: k2(f(y)) == k1(y)
    ensures Insert(MapSeq(s, f), f(x), k2) == MapSeq(Insert(s, x, k1), f)
  {
    if |s| > 0 {
      assert MapSeq(s, f)[1..] == MapSeq(s[1..], f);
      InsertMap(s[1..], x, f, k1, k2);
    }
  }

  /**
   * Sorting commutes with a map that carries the sort key along: sorting the
   * mapped rows by the new key gives the mapped rows of the original sort.
   */
  lemma {:induction false} SortMap<T, U>(s: seq<T>, f: T -> U, k1: T -> Key, k2: U -> Key)
    requires forall y :: k2(f(y)) == k1(y)
    ensures Sort(MapSeq(s, f), k2) == MapSeq(Sort(s, k1), f)
  {
    if |s| > 0 {
      var init, last := s[..|s| - 1], s[|s| - 1];
      assert s == init + [last];
      MapAppend(init, [last], f);
      assert MapSeq(s, f)[..|s| - 1] == MapSeq(init, f);
      SortMap(init, f, k1, k2);
      InsertMap(Sort(init, k1), last, f, k1, k2);
    }
  }
}
