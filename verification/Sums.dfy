/** Finite sums over sequences: the shape of every `sum(... for ...)` and every
    accumulating loop of the source. A WHERE clause is a term that is 0 on the rows
    it excludes. */
module Sums {

  function SumBy<T>(xs: seq<T>, f: T -> real): real {
    if xs == [] then 0.0 else f(xs[0]) + SumBy(xs[1..], f)
  }

  /** The term restricted to the elements with one key. */
  function InGroup<T, K(==)>(key: T -> K, f: T -> real, k: K): T -> real {
    (x: T) => if key(x) == k then f(x) else 0.0
  }

  /** The sum of one group, as a function of its key. */
  function GroupSum<T, K(==)>(xs: seq<T>, key: T -> K, f: T -> real): K -> real {
    (k: K) => SumBy(xs, InGroup(key, f, k))
  }

  lemma {:induction false} SumAppend<T>(a: seq<T>, b: seq<T>, f: T -> real)
    ensures SumBy(a + b, f) == SumBy(a, f) + SumBy(b, f)
  {
    if a == [] {
      assert a + b == b;
    } else {
      assert (a + b)[1..] == a[1..] + b;
      SumAppend(a[1..], b, f);
    }
  }

  lemma SumThree<T>(a: seq<T>, b: seq<T>, c: seq<T>, f: T -> real)
    ensures SumBy(a + b + c, f) == SumBy(a, f) + SumBy(b, f) + SumBy(c, f)
  {
    SumAppend(a + b, c, f);
    SumAppend(a, b, f);
  }

  lemma SumSnoc<T>(a: seq<T>, x: T, f: T -> real)
    ensures SumBy(a + [x], f) == SumBy(a, f) + f(x)
  {
    SumAppend(a, [x], f);
  }

  lemma SumOne<T>(x: T, f: T -> real)
    ensures SumBy([x], f) == f(x)
  {
    assert [x][1..] == [];
  }

  lemma SumSplit<T>(xs: seq<T>, i: nat, f: T -> real)
    requires i < |xs|
    ensures SumBy(xs, f) == SumBy(xs[..i], f) + f(xs[i]) + SumBy(xs[i + 1..], f)
  {
    hide SumBy;
    assert xs == xs[..i] + [xs[i]] + xs[i + 1..];
    SumThree(xs[..i], [xs[i]], xs[i + 1..], f);
    SumOne(xs[i], f);
  }

  lemma SumUpdate<T>(xs: seq<T>, i: nat, x: T, f: T -> real)
    requires i < |xs|
    ensures SumBy(xs[i := x], f) == SumBy(xs, f) - f(xs[i]) + f(x)
  {
    SumSplit(xs, i, f);
    SumSplit(xs[i := x], i, f);
    assert xs[i := x][..i] == xs[..i] && xs[i := x][i + 1..] == xs[i + 1..];
  }

  lemma {:induction false} SumNonNegative<T>(xs: seq<T>, f: T -> real)
    requires forall x <- xs :: f(x) >= 0.0
    ensures SumBy(xs, f) >= 0.0
  {
    if xs != [] {
      SumNonNegative(xs[1..], f);
    }
  }

  lemma {:induction false} SumZero<T>(xs: seq<T>, f: T -> real)
    requires forall x <- xs :: f(x) == 0.0
    ensures SumBy(xs, f) == 0.0
  {
    if xs != [] {
      SumZero(xs[1..], f);
    }
  }

  lemma {:induction false} SumLe<T>(xs: seq<T>, f: T -> real, g: T -> real)
    requires forall x <- xs :: f(x) <= g(x)
    ensures SumBy(xs, f) <= SumBy(xs, g)
  {
    if xs != [] {
      SumLe(xs[1..], f, g);
    }
  }

  lemma SumEq<T>(xs: seq<T>, f: T -> real, g: T -> real)
    requires forall x <- xs :: f(x) == g(x)
    ensures SumBy(xs, f) == SumBy(xs, g)
  {
    SumLe(xs, f, g);
    SumLe(xs, g, f);
  }

  lemma {:induction false} SumPlus<T>(xs: seq<T>, f: T -> real, g: T -> real, h: T -> real)
    requires forall x <- xs :: h(x) == f(x) + g(x)
    ensures SumBy(xs, h) == SumBy(xs, f) + SumBy(xs, g)
  {
    if xs != [] {
      SumPlus(xs[1..], f, g, h);
    }
  }

  /** A non-negative term is at most its sum. */
  lemma TermLeSum<T>(xs: seq<T>, i: nat, f: T -> real)
    requires i < |xs|
    requires forall x <- xs :: f(x) >= 0.0
    ensures f(xs[i]) <= SumBy(xs, f)
  {
    SumSplit(xs, i, f);
    SumNonNegative(xs[..i], f);
    SumNonNegative(xs[i + 1..], f);
  }

  /** A sum whose terms vanish everywhere but at one index is that term. */
  lemma SumSingle<T>(xs: seq<T>, i: nat, f: T -> real)
    requires i < |xs|
    requires forall j | 0 <= j < |xs| && j != i :: f(xs[j]) == 0.0
    ensures SumBy(xs, f) == f(xs[i])
  {
    SumSplit(xs, i, f);
    forall x <- xs[..i] ensures f(x) == 0.0 { var j :| 0 <= j < i && xs[j] == x; }
    forall x <- xs[i + 1..] ensures f(x) == 0.0 { var j :| i < j < |xs| && xs[j] == x; }
    SumZero(xs[..i], f);
    SumZero(xs[i + 1..], f);
  }

  /** Two terms that agree everywhere but at one index. */
  lemma SumChangeOne<T>(xs: seq<T>, i: nat, f: T -> real, g: T -> real)
    requires i < |xs|
    requires forall j | 0 <= j < |xs| && j != i :: f(xs[j]) == g(xs[j])
    ensures SumBy(xs, g) == SumBy(xs, f) - f(xs[i]) + g(xs[i])
  {
    SumSplit(xs, i, f);
    SumSplit(xs, i, g);
    forall x <- xs[..i] ensures f(x) == g(x) { var j :| 0 <= j < i && xs[j] == x; }
    forall x <- xs[i + 1..] ensures f(x) == g(x) { var j :| i < j < |xs| && xs[j] == x; }
    SumEq(xs[..i], f, g);
    SumEq(xs[i + 1..], f, g);
  }

  lemma MultisetWithout<T>(xs: seq<T>, i: nat)
    requires i < |xs|
    ensures multiset(xs[..i] + xs[i + 1..]) == multiset(xs) - multiset{xs[i]}
  {
    assert xs == xs[..i] + [xs[i]] + xs[i + 1..];
  }

  /** The place of a's first element in b, and b without it. */
  lemma WithoutHead<T>(a: seq<T>, b: seq<T>) returns (i: nat)
    requires a != [] && multiset(a) == multiset(b)
    ensures i < |b| && b[i] == a[0]
    ensures multiset(a[1..]) == multiset(b[..i] + b[i + 1..])
  {
    assert a[0] in multiset(a);
    i :| 0 <= i < |b| && b[i] == a[0];
    MultisetWithout(a, 0);
    MultisetWithout(b, i);
    assert a[..0] + a[1..] == a[1..];
  }

  lemma SumHead<T>(xs: seq<T>, f: T -> real)
    requires xs != []
    ensures SumBy(xs, f) == f(xs[0]) + SumBy(xs[1..], f)
  {
  }

  /** Sums do not depend on the order of their elements. */
  lemma {:induction false} SumPermutation<T>(a: seq<T>, b: seq<T>, f: T -> real)
    requires multiset(a) == multiset(b)
    ensures SumBy(a, f) == SumBy(b, f)
    decreases |a|
  {
    hide SumBy;
    if a == [] {
      assert |multiset(b)| == 0;
      assert b == a;
    } else {
      var i := WithoutHead(a, b);
      SumHead(a, f);
      SumSplit(b, i, f);
      SumAppend(b[..i], b[i + 1..], f);
      SumPermutation(a[1..], b[..i] + b[i + 1..], f);
    }
  }

  predicate Distinct<K(==)>(ks: seq<K>) {
    forall i, j | 0 <= i < j < |ks| :: ks[i] != ks[j]
  }

  /** A sum splits into the sums of its groups, for any list of distinct keys that
      names every group that is not zero. */
  lemma {:induction false} SumByGroups<T, K>(xs: seq<T>, keys: seq<K>, key: T -> K, f: T -> real)
    requires Distinct(keys)
    requires forall x <- xs :: key(x) in keys || f(x) == 0.0
    ensures SumBy(keys, GroupSum(xs, key, f)) == SumBy(xs, f)
  {
    if xs == [] {
      SumZero(keys, GroupSum(xs, key, f));
    } else {
      var k := key(xs[0]);
      var tail := GroupSum(xs[1..], key, f);
      var whole := GroupSum(xs, key, f);
      SumByGroups(xs[1..], keys, key, f);
      if i :| 0 <= i < |keys| && keys[i] == k {
        SumChangeOne(keys, i, tail, whole);
      } else {
        SumEq(keys, tail, whole);
      }
    }
  }

  /** Two sequences whose terms compare index by index. */
  lemma {:induction false} SumZipLe<T>(a: seq<T>, b: seq<T>, f: T -> real)
    requires |a| == |b|
    requires forall i | 0 <= i < |a| :: f(a[i]) <= f(b[i])
    ensures SumBy(a, f) <= SumBy(b, f)
  {
    if a != [] {
      assert forall i | 0 <= i < |a| - 1 :: a[1..][i] == a[i + 1] && b[1..][i] == b[i + 1];
      SumZipLe(a[1..], b[1..], f);
    }
  }

  lemma SumZipEq<T>(a: seq<T>, b: seq<T>, f: T -> real)
    requires |a| == |b|
    requires forall i | 0 <= i < |a| :: f(a[i]) == f(b[i])
    ensures SumBy(a, f) == SumBy(b, f)
  {
    SumZipLe(a, b, f);
    SumZipLe(b, a, f);
  }

  /** Sums of two sequences of different rows with the same terms. */
  lemma {:induction false} SumMapped<T, U>(a: seq<T>, b: seq<U>, f: T -> real, g: U -> real)
    requires |a| == |b|
    requires forall i | 0 <= i < |a| :: f(a[i]) == g(b[i])
    ensures SumBy(a, f) == SumBy(b, g)
  {
    if a != [] {
      assert forall i | 0 <= i < |a| - 1 :: a[1..][i] == a[i + 1] && b[1..][i] == b[i + 1];
      SumMapped(a[1..], b[1..], f, g);
    }
  }
}
