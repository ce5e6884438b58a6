/** Enumeration of the non-empty sub-tuples of a tuple, as `itertools.combinations`
    produces them (`_subsets` of backend/opaca/policy/partial_fill.py). */
module Subsets {
  import opened Sums

  /** `a` is `b` with some elements left out. */
  predicate IsSubsequence<T(==)>(a: seq<T>, b: seq<T>) {
    a == [] || (b != [] && ((a[0] == b[0] && IsSubsequence(a[1..], b[1..])) || IsSubsequence(a, b[1..])))
  }

  function Prepend<T>(x: T, tails: seq<seq<T>>): (r: seq<seq<T>>)
    ensures |r| == |tails|
    ensures forall i | 0 <= i < |tails| :: r[i] == [x] + tails[i]
  {
    seq(|tails|, i requires 0 <= i < |tails| => [x] + tails[i])
  }

  /** `combinations(xs, size)` */
  function Combinations<T>(xs: seq<T>, size: nat): seq<seq<T>>
    decreases xs, size
  {
    if size == 0 then [[]]
    else if xs == [] then []
    else Prepend(xs[0], Combinations(xs[1..], size - 1)) + Combinations(xs[1..], size)
  }

  function SubsetsUpTo<T>(xs: seq<T>, size: nat): seq<seq<T>> {
    if size == 0 then [] else SubsetsUpTo(xs, size - 1) + Combinations(xs, size)
  }

  method AllSubsets<T>(xs: seq<T>) returns (subsets: seq<seq<T>>)
    ensures subsets == SubsetsUpTo(xs, |xs|)
  {
    subsets := [];
    for size := 1 to |xs| + 1
      invariant subsets == SubsetsUpTo(xs, size - 1)
    {
      subsets := subsets + Combinations(xs, size);
    }
  }

  function Binomial(n: nat, k: nat): nat {
    if k == 0 then 1 else if n == 0 then 0 else Binomial(n - 1, k - 1) + Binomial(n - 1, k)
  }

  function BinomialSum(n: nat, k: nat): nat {
    if k == 0 then 1 else BinomialSum(n, k - 1) + Binomial(n, k)
  }

  function PowerOfTwo(n: nat): nat {
    if n == 0 then 1 else 2 * PowerOfTwo(n - 1)
  }

  lemma {:induction false} BinomialVanishes(n: nat, k: nat)
    requires k > n
    ensures Binomial(n, k) == 0
  {
    if n > 0 {
      BinomialVanishes(n - 1, k - 1);
      BinomialVanishes(n - 1, k);
    }
  }

  lemma {:induction false} PascalSum(n: nat, k: nat)
    requires n > 0 && k > 0
    ensures BinomialSum(n, k) == BinomialSum(n - 1, k - 1) + BinomialSum(n - 1, k)
  {
    if k > 1 {
      PascalSum(n, k - 1);
    } else {
      assert BinomialSum(n, 0) == BinomialSum(n - 1, 0) == Binomial(n - 1, 0) == 1;
    }
  }

  lemma {:induction false} BinomialTotal(n: nat)
    ensures BinomialSum(n, n) == PowerOfTwo(n)
  {
    if n > 0 {
      BinomialTotal(n - 1);
      PascalSum(n, n);
      BinomialVanishes(n - 1, n);
    }
  }

  lemma {:induction false} CombinationsCount<T>(xs: seq<T>, size: nat)
    ensures |Combinations(xs, size)| == Binomial(|xs|, size)
    decreases xs, size
  {
    if size > 0 && xs != [] {
      CombinationsCount(xs[1..], size - 1);
      CombinationsCount(xs[1..], size);
    }
  }

  lemma {:induction false} SubsetsUpToCount<T>(xs: seq<T>, size: nat)
    ensures |SubsetsUpTo(xs, size)| + 1 == BinomialSum(|xs|, size)
  {
    if size > 0 {
      SubsetsUpToCount(xs, size - 1);
      CombinationsCount(xs, size);
    }
  }

  /** 2^n - 1 subsets are enumerated. */
  lemma SubsetCount<T>(xs: seq<T>)
    ensures |SubsetsUpTo(xs, |xs|)| == PowerOfTwo(|xs|) - 1
  {
    SubsetsUpToCount(xs, |xs|);
    BinomialTotal(|xs|);
  }

  lemma MembersOfBoth<T>(a: seq<T>, b: seq<T>, x: T)
    ensures x in a + b <==> x in a || x in b
  {
  }

  lemma SubsequenceStep<T>(s: seq<T>, xs: seq<T>)
    requires xs != []
    ensures s == [] ==> IsSubsequence(s, xs)
    ensures s != [] ==>
              (IsSubsequence(s, xs) <==> (s[0] == xs[0] && IsSubsequence(s[1..], xs[1..])) || IsSubsequence(s, xs[1..]))
  {
  }

  lemma {:induction false} CombinationsAreSubsequences<T>(xs: seq<T>, size: nat, s: seq<T>)
    ensures s in Combinations(xs, size) <==> |s| == size && IsSubsequence(s, xs)
    decreases xs, size
  {
    if size > 0 && xs != [] {
      hide IsSubsequence;
      var fewer, others := Combinations(xs[1..], size - 1), Combinations(xs[1..], size);
      assert Combinations(xs, size) == Prepend(xs[0], fewer) + others;
      hide Combinations;
      MembersOfBoth(Prepend(xs[0], fewer), others, s);
      PrependMembers(xs[0], fewer, s);
      CombinationsAreSubsequences(xs[1..], size, s);
      SubsequenceStep(s, xs);
      if s != [] {
        CombinationsAreSubsequences(xs[1..], size - 1, s[1..]);
      }
    }
  }

  lemma PrependMembers<T>(x: T, tails: seq<seq<T>>, s: seq<T>)
    ensures s in Prepend(x, tails) <==> s != [] && s[0] == x && s[1..] in tails
  {
    if s != [] && s[0] == x && s[1..] in tails {
      var i :| 0 <= i < |tails| && tails[i] == s[1..];
      assert Prepend(x, tails)[i] == s;
    }
  }

  lemma {:induction false} SubsequenceIsShorter<T>(a: seq<T>, b: seq<T>)
    requires IsSubsequence(a, b)
    ensures |a| <= |b|
  {
    if a != [] {
      if a[0] == b[0] && IsSubsequence(a[1..], b[1..]) {
        SubsequenceIsShorter(a[1..], b[1..]);
      } else {
        SubsequenceIsShorter(a, b[1..]);
      }
    }
  }

  lemma {:induction false} SubsetsUpToMembers<T>(xs: seq<T>, size: nat, s: seq<T>)
    ensures s in SubsetsUpTo(xs, size) <==> 1 <= |s| <= size && IsSubsequence(s, xs)
  {
    hide Combinations, IsSubsequence;
    if size > 0 {
      SubsetsUpToMembers(xs, size - 1, s);
      CombinationsAreSubsequences(xs, size, s);
      MembersOfBoth(SubsetsUpTo(xs, size - 1), Combinations(xs, size), s);
    }
  }

  /** The enumeration contains exactly the non-empty subsequences. */
  lemma SubsetMembers<T>(xs: seq<T>, s: seq<T>)
    ensures s in SubsetsUpTo(xs, |xs|) <==> s != [] && IsSubsequence(s, xs)
  {
    SubsetsUpToMembers(xs, |xs|, s);
    if IsSubsequence(s, xs) {
      SubsequenceIsShorter(s, xs);
    }
  }

  lemma {:induction false} SubsequenceMembers<T>(a: seq<T>, b: seq<T>)
    requires IsSubsequence(a, b)
    ensures forall x <- a :: x in b
  {
    if a != [] {
      if a[0] == b[0] && IsSubsequence(a[1..], b[1..]) {
        SubsequenceMembers(a[1..], b[1..]);
        assert forall x <- a :: x == b[0] || x in a[1..];
      } else {
        SubsequenceMembers(a, b[1..]);
      }
    }
  }

  lemma {:induction false} SingletonIsSubsequence<T>(xs: seq<T>, i: nat)
    requires i < |xs|
    ensures IsSubsequence([xs[i]], xs)
  {
    if i > 0 {
      SingletonIsSubsequence(xs[1..], i - 1);
    } else {
      assert [xs[0]][1..] == [];
    }
  }

  /** Leaving elements out never raises a sum of non-negative terms. */
  lemma {:induction false} SubsequenceSum<T>(a: seq<T>, b: seq<T>, f: T -> real)
    requires IsSubsequence(a, b)
    requires forall x <- b :: f(x) >= 0.0
    ensures SumBy(a, f) <= SumBy(b, f)
  {
    if a == [] {
      SumNonNegative(b, f);
    } else if a[0] == b[0] && IsSubsequence(a[1..], b[1..]) {
      SubsequenceSum(a[1..], b[1..], f);
    } else {
      SubsequenceSum(a, b[1..], f);
    }
  }
}
