/** Sums over lists, which do not depend on the order of the list. */
module Lists {
  import opened Finite

  ghost function SumBy<T(!new)>(xs: seq<T>, f: T -> int): int {
    if xs == [] then 0 else SumBy(xs[..|xs| - 1], f) + f(xs[|xs| - 1])
  }

  lemma {:induction false} SumByRemove<T(!new)>(xs: seq<T>, f: T -> int, k: nat)
    requires k < |xs|
    ensures SumBy(xs, f) == SumBy(xs[..k] + xs[k + 1..], f) + f(xs[k])
  {
    var n := |xs| - 1;
    var rest := xs[..k] + xs[k + 1..];
    if k < n {
      SumByRemove(xs[..n], f, k);
      assert xs[..n][..k] + xs[..n][k + 1..] == rest[..n - 1];
      assert rest[n - 1] == xs[n];
    } else {
      assert rest == xs[..n];
    }
  }

  lemma {:induction false} SumByPermutation<T(!new)>(xs: seq<T>, ys: seq<T>, f: T -> int)
    requires multiset(xs) == multiset(ys)
    ensures SumBy(xs, f) == SumBy(ys, f)
  {
    if xs == [] {
      assert |multiset(ys)| == 0;
    } else {
      var n := |xs| - 1;
      var x := xs[n];
      assert xs == xs[..n] + [x];
      assert x in multiset(ys);
      var k :| 0 <= k < |ys| && ys[k] == x;
      var rest := ys[..k] + ys[k + 1..];
      assert ys == ys[..k] + [x] + ys[k + 1..];
      assert multiset(xs[..n]) == multiset(xs) - multiset{x};
      assert multiset(rest) == multiset(ys) - multiset{x};
      SumByPermutation(xs[..n], rest, f);
      SumByRemove(ys, f, k);
    }
  }

  predicate Distinct<T(==)>(xs: seq<T>) {
    forall i, j :: 0 <= i < j < |xs| ==> xs[i] != xs[j]
  }

  lemma {:induction false} DistinctSize<T>(xs: seq<T>)
    requires Distinct(xs)
    ensures |set x | x in xs| == |xs|
  {
    if xs != [] {
      var n := |xs| - 1;
      DistinctSize(xs[..n]);
      assert xs == xs[..n] + [xs[n]];
      assert (set x | x in xs) == (set x | x in xs[..n]) + {xs[n]};
    }
  }

  ghost function Elements(xs: seq<int>): set<int> {
    set x | x in xs
  }

  lemma ElementsSnoc(xs: seq<int>)
    requires xs != [] && Distinct(xs)
    ensures Distinct(xs[..|xs| - 1]) && xs[|xs| - 1] !in xs[..|xs| - 1]
    ensures Elements(xs) == Elements(xs[..|xs| - 1]) + {xs[|xs| - 1]}
  {
    assert xs == xs[..|xs| - 1] + [xs[|xs| - 1]];
  }

  lemma {:induction false} ElementsSize(xs: seq<int>)
    requires Distinct(xs)
    ensures |Elements(xs)| == |xs|
  {
    if xs != [] {
      ElementsSnoc(xs);
      ElementsSize(xs[..|xs| - 1]);
    }
  }

  /** Summing a function of a distinct key over a list is summing it over the
      set of keys. */
  lemma {:induction false} SumByKeys<T(!new)>(xs: seq<T>, keys: seq<int>, f: T -> int, g: int -> int)
    requires |keys| == |xs| && Distinct(keys)
    requires forall i :: 0 <= i < |xs| ==> f(xs[i]) == g(keys[i])
    ensures SumBy(xs, f) == Sum(Elements(keys), g)
  {
    if xs == [] {
      assert Elements(keys) == {};
    } else {
      var n := |xs| - 1;
      ElementsSnoc(keys);
      SumByKeys(xs[..n], keys[..n], f, g);
      SumExtract(Elements(keys), g, keys[n]);
      assert Elements(keys) - {keys[n]} == Elements(keys[..n]);
    }
  }
}
