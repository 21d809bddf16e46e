/** Lagrange interpolation at zero over a prime field
    (server/src/frost/frost.ts:160-173, 235-247). */
module Lagrange {
  import opened Finite
  import opened Modular
  import opened Wrappers

  // ---- polynomials, lowest coefficient first ------------------------------

  function Eval(c: seq<int>, x: int): int {
    if c == [] then 0 else c[0] + x * Eval(c[1..], x)
  }

  /** The quotient of c(x) - c(m) by x - m. */
  function Quotient(c: seq<int>, m: int): (q: seq<int>)
    ensures |q| == if c == [] then 0 else |c| - 1
  {
    if |c| <= 1 then [] else [Eval(c[1..], m)] + Quotient(c[1..], m)
  }

  lemma {:induction false} QuotientDivides(c: seq<int>, m: int, x: int)
    ensures Eval(c, x) == Eval(c, m) + (x - m) * Eval(Quotient(c, m), x)
  {
    if |c| <= 1 {
      EvalConstant(c, m);
      EvalConstant(c, x);
    } else {
      QuotientDivides(c[1..], m, x);
      var q, top := Quotient(c[1..], m), Eval(c[1..], m);
      assert Quotient(c, m)[1..] == q;
      QuotientStep(x, m, top, Eval(q, x));
    }
  }

  lemma EvalConstant(c: seq<int>, x: int)
    requires |c| <= 1
    ensures Eval(c, x) == if c == [] then 0 else c[0]
  {
  }

  lemma QuotientStep(x: int, m: int, top: int, e: int)
    ensures x * (top + (x - m) * e) == m * top + (x - m) * (top + x * e)
  {
    calc {
      x * (top + (x - m) * e);
    ==
      x * top + x * ((x - m) * e);
    ==
      m * top + (x - m) * top + x * ((x - m) * e);
    ==  { assert x * ((x - m) * e) == (x - m) * (x * e); }
      m * top + (x - m) * top + (x - m) * (x * e);
    ==
      m * top + (x - m) * (top + x * e);
    }
  }

  lemma {:induction false} QuotientTop(c: seq<int>, m: int)
    requires |c| >= 2
    ensures Quotient(c, m)[|c| - 2] == c[|c| - 1]
  {
    if |c| > 2 {
      QuotientTop(c[1..], m);
    } else {
      assert c[1..] == [c[1]];
      assert Eval([c[1]], m) == c[1];
    }
  }

  lemma {:induction false} EvalSnoc(c: seq<int>, d: int, x: int)
    ensures Eval(c + [d], x) == Eval(c, x) + d * Pow(x, |c|)
  {
    if c == [] {
      assert Eval([d], x) == d;
    } else {
      assert (c + [d])[1..] == c[1..] + [d];
      EvalSnoc(c[1..], d, x);
      var e, p := Eval(c[1..], x), Pow(x, |c| - 1);
      Distribute(x, e, d * p);
      Assoc(x, d, p);
      Assoc(d, x, p);
    }
  }

  // ---- coefficients over a set of participants ----------------------------

  ghost function Num(i: int, s: set<int>): int {
    Prod(s - {i}, j => j)
  }

  ghost function Den(i: int, s: set<int>): int {
    Prod(s - {i}, j => j - i)
  }

  /** num / den, with the division done by the inverse of den mod L. */
  function Ratio(num: int, den: int, L: int): int
    requires L >= 2
  {
    (num * Inverse(den, L)) % L
  }

  ghost function Lambda(i: int, s: set<int>, L: int): int
    requires L >= 2
  {
    Ratio(Num(i, s) % L, Den(i, s) % L, L)
  }

  ghost predicate Identifiers(s: set<int>, L: int) {
    forall i :: i in s ==> 0 < i < L
  }

  lemma DistinctMod(i: int, j: int, L: int)
    requires L >= 2 && 0 < i < L && 0 < j < L && i != j
    ensures (j - i) % L != 0
  {
    if j > i {
      Unique(j - i, 0, j - i, L);
    } else {
      Unique(j - i, -1, j - i + L, L);
    }
  }

  lemma DenNonZero(i: int, s: set<int>, L: int)
    requires IsPrime(L) && Identifiers(s, L) && i in s
    ensures Den(i, s) % L != 0
  {
    forall j | j in s - {i}
      ensures (j => j - i)(j) % L != 0
    {
      DistinctMod(i, j, L);
    }
    ProdNonZero(L, s - {i}, j => j - i);
  }

  lemma QuotientCong(r: int, num: int, inv: int, den: int, L: int)
    requires L > 0 && Cong(r, num * inv, L) && Cong(inv * den, 1, L)
    ensures Cong(r * den, num, L)
  {
    hide Cong;
    CongScale(den, r, num * inv, L);
    CongScale(num, inv * den, 1, L);
    Assoc(num, inv, den);
    CongTrans(r * den, num * (inv * den), num * 1, L);
  }

  /** What makes num / den a quotient: times den it gives num back. */
  lemma RatioTimesDen(num: int, den: int, L: int)
    requires IsPrime(L) && den % L != 0
    ensures Cong(Ratio(num % L, den % L, L) * den, num, L)
  {
    var r, n, d := Ratio(num % L, den % L, L), num % L, den % L;
    var inv := Inverse(d, L);
    CongMod(num, L);
    CongMod(den, L);
    assert d % L != 0 by {
      ReducedIsRemainder(d, den, L);
    }
    InverseCorrect(d, L);
    CongMod(n * inv, L);
    hide *;
    QuotientCong(r, n, inv, d, L);
    CongSym(d, den, L);
    CongScale(r, den, d, L);
    CongTrans(r * den, r * d, n, L);
    CongTrans(r * den, n, num, L);
  }

  lemma DropParticipant(i: int, m: int, s: set<int>)
    requires m in s && i != m
    ensures Num(i, s) == m * Num(i, s - {m})
    ensures Den(i, s) == (m - i) * Den(i, s - {m})
  {
    assert s - {i} - {m} == s - {m} - {i};
    ProdExtract(s - {i}, j => j, m);
    ProdExtract(s - {i}, j => j - i, m);
  }

  lemma LambdaDropCong(l: int, l': int, m: int, d: int, num: int, den: int, L: int)
    requires IsPrime(L) && den % L != 0
    requires Cong(l * (d * den), m * num, L) && Cong(l' * den, num, L)
    ensures Cong(l * d, l' * m, L)
  {
    hide Cong;
    CongScale(m, l' * den, num, L);
    CongSym(m * (l' * den), m * num, L);
    CongTrans(l * (d * den), m * num, m * (l' * den), L);
    Assoc(l, d, den);
    Assoc(m, l', den);
    Cancel(L, den, l * d, l' * m);
  }

  /** How a coefficient changes when one participant leaves. */
  lemma LambdaDrop(i: int, m: int, s: set<int>, L: int)
    requires IsPrime(L) && Identifiers(s, L) && i in s && m in s && i != m
    ensures Cong(Lambda(i, s, L) * (m - i), Lambda(i, s - {m}, L) * m, L)
  {
    DropParticipant(i, m, s);
    DenNonZero(i, s, L);
    DenNonZero(i, s - {m}, L);
    RatioTimesDen(Num(i, s), Den(i, s), L);
    RatioTimesDen(Num(i, s - {m}), Den(i, s - {m}), L);
    hide Cong, Ratio, Num, Den, IsPrime, Identifiers;
    LambdaDropCong(Lambda(i, s, L), Lambda(i, s - {m}, L), m, m - i, Num(i, s - {m}), Den(i, s - {m}), L);
  }

  // ---- the interpolation sum ----------------------------------------------

  ghost function Terms(s: set<int>, c: seq<int>, L: int): int -> int
    requires L >= 2
  {
    i => Lambda(i, s, L) * Eval(c, i)
  }

  /** The sum over the participants of coefficient times share. */
  ghost function Interpolate(s: set<int>, c: seq<int>, L: int): int
    requires L >= 2
  {
    Sum(s, Terms(s, c, L))
  }

  lemma Distribute(a: int, u: int, v: int)
    ensures a * (u + v) == a * u + a * v
    ensures a * (u - v) == a * u - a * v
  {
  }

  /** x is a*u - b*v modulo L. */
  ghost predicate Combines(x: int, a: int, u: int, b: int, v: int, L: int)
    requires L > 0
  {
    Cong(x, a * u - b * v, L)
  }

  lemma CombinesAdd(x: int, x': int, a: int, u: int, u': int, b: int, v: int, v': int, L: int)
    requires L > 0 && Combines(x, a, u, b, v, L) && Combines(x', a, u', b, v', L)
    ensures Combines(x + x', a, u + u', b, v + v', L)
  {
    hide Cong;
    CongAdd(x, a * u - b * v, x', a * u' - b * v', L);
    Distribute(a, u, u');
    Distribute(b, v, v');
  }

  lemma {:induction false} SumCombines(t: set<int>, h: int -> int, a: int, u: int -> int, b: int, v: int -> int, L: int)
    requires L > 0 && forall i :: i in t ==> Combines(h(i), a, u(i), b, v(i), L)
    ensures Combines(Sum(t, h), a, Sum(t, u), b, Sum(t, v), L)
  {
    if t == {} {
      assert Combines(0, a, 0, b, 0, L);
    } else {
      var i := Pick(t);
      hide Combines;
      SumCombines(t - {i}, h, a, u, b, v, L);
      CombinesAdd(h(i), Sum(t - {i}, h), a, u(i), Sum(t - {i}, u), b, v(i), Sum(t - {i}, v), L);
    }
  }

  lemma TermSplitsCong(l: int, l': int, m: int, i: int, fm: int, e: int, q: int, L: int)
    requires L > 0 && Cong(l * (m - i), l' * m, L) && e == fm + (i - m) * q
    ensures Combines(l * e, fm, l, m, l' * q, L)
  {
    hide Cong;
    CongScale(q, l * (m - i), l' * m, L);
    CongIntro(fm * l, fm * l, 0, L);
    CongAdd(fm * l, fm * l, l * (m - i) * q, l' * m * q, L);
    TermIdentity(l, fm, i, m, q);
    Assoc(l', m, q);
  }

  lemma TermIdentity(l: int, fm: int, i: int, m: int, q: int)
    ensures l * (fm + (i - m) * q) == fm * l - l * (m - i) * q
  {
    Distribute(l, fm, (i - m) * q);
    Assoc(l, m - i, q);
    assert (i - m) * q == -((m - i) * q);
  }

  lemma TermOfOne(i: int, s: set<int>, L: int)
    requires L >= 2
    ensures Terms(s, [1], L)(i) == Lambda(i, s, L)
  {
    assert Eval([1], i) == 1;
  }

  lemma TermSplits(i: int, m: int, s: set<int>, c: seq<int>, L: int)
    requires IsPrime(L) && Identifiers(s, L) && i in s && m in s && i != m
    ensures Combines(Terms(s, c, L)(i), Eval(c, m), Terms(s, [1], L)(i), m, Terms(s - {m}, Quotient(c, m), L)(i), L)
  {
    QuotientDivides(c, m, i);
    LambdaDrop(i, m, s, L);
    TermOfOne(i, s, L);
    hide Cong, Combines, Lambda, Eval, Quotient, IsPrime, Identifiers;
    TermSplitsCong(Lambda(i, s, L), Lambda(i, s - {m}, L), m, i, Eval(c, m), Eval(c, i), Eval(Quotient(c, m), i), L);
  }

  lemma OwnTerm(s: set<int>, m: int, c: seq<int>, L: int)
    requires L >= 2
    ensures Combines(Terms(s, c, L)(m), Eval(c, m), Terms(s, [1], L)(m), m, 0, L)
  {
    TermOfOne(m, s, L);
    assert Terms(s, c, L)(m) == Eval(c, m) * Lambda(m, s, L) - m * 0;
  }

  lemma InterpolateExtract(s: set<int>, m: int, c: seq<int>, L: int)
    requires L >= 2 && m in s
    ensures Interpolate(s, c, L) == Terms(s, c, L)(m) + Sum(s - {m}, Terms(s, c, L))
  {
    SumExtract(s, Terms(s, c, L), m);
  }

  lemma RestSplits(s: set<int>, m: int, c: seq<int>, L: int)
    requires IsPrime(L) && Identifiers(s, L) && m in s
    ensures Combines(Sum(s - {m}, Terms(s, c, L)), Eval(c, m), Sum(s - {m}, Terms(s, [1], L)),
                     m, Interpolate(s - {m}, Quotient(c, m), L), L)
  {
    var rest, fm := s - {m}, Eval(c, m);
    var f, one, q := Terms(s, c, L), Terms(s, [1], L), Terms(rest, Quotient(c, m), L);
    assert Interpolate(rest, Quotient(c, m), L) == Sum(rest, q);
    hide *;
    forall i | i in rest
      ensures Combines(f(i), fm, one(i), m, q(i), L)
    {
      TermSplits(i, m, s, c, L);
    }
    SumCombines(rest, f, fm, one, m, q, L);
  }

  /** Splitting off participant m divides the polynomial by x - m. */
  lemma SplitOff(s: set<int>, m: int, c: seq<int>, L: int)
    requires IsPrime(L) && Identifiers(s, L) && m in s
    ensures Combines(Interpolate(s, c, L), Eval(c, m), Interpolate(s, [1], L),
                     m, Interpolate(s - {m}, Quotient(c, m), L), L)
  {
    hide *;
    PrimeAtLeastTwo(L);
    RestSplits(s, m, c, L);
    OwnTerm(s, m, c, L);
    InterpolateExtract(s, m, c, L);
    InterpolateExtract(s, m, [1], L);
    CombinesAdd(Terms(s, c, L)(m), Sum(s - {m}, Terms(s, c, L)), Eval(c, m),
                Terms(s, [1], L)(m), Sum(s - {m}, Terms(s, [1], L)), m, 0, Interpolate(s - {m}, Quotient(c, m), L), L);
  }

  /** The coefficients sum to 1. Interpolating x in two ways, by splitting off
      two different participants, forces it. */
  lemma {:induction false} LambdasSumToOne(s: set<int>, L: int)
    requires IsPrime(L) && Identifiers(s, L) && s != {}
    ensures Cong(Interpolate(s, [1], L), 1, L)
    decreases s
  {
    var m := Pick(s);
    var rest := s - {m};
    if rest == {} {
      LambdaAlone(m, s, L);
    } else {
      var m' := Pick(rest);
      var a, x := Interpolate(s, [1], L), Interpolate(s, [0, 1], L);
      InterpolateX(s, m, L);
      InterpolateX(s, m', L);
      hide Cong;
      CongSym(x, m * (a - 1), L);
      CongTrans(m * (a - 1), x, m' * (a - 1), L);
      CongIntro(m' * (a - 1), m' * (a - 1), 0, L);
      CongAdd(m * (a - 1), m' * (a - 1), m' * (a - 1), m' * (a - 1), L);
      assert m * (a - 1) - m' * (a - 1) == (m - m') * (a - 1);
      assert m' * (a - 1) - m' * (a - 1) == (m - m') * 0;
      DistinctMod(m', m, L);
      Cancel(L, m - m', a - 1, 0);
      CongIntro(1, 1, 0, L);
      CongAdd(a - 1, 0, 1, 1, L);
    }
  }

  lemma LambdaAlone(m: int, s: set<int>, L: int)
    requires IsPrime(L) && Identifiers(s, L) && s == {m}
    ensures Cong(Interpolate(s, [1], L), 1, L)
  {
    DenNonZero(m, s, L);
    RatioTimesDen(Num(m, s), Den(m, s), L);
    assert s - {m} == {};
    SumExtract(s, Terms(s, [1], L), m);
    assert Eval([1], m) == 1;
  }

  lemma {:induction false} InterpolateX(s: set<int>, m: int, L: int)
    requires IsPrime(L) && Identifiers(s, L) && m in s && s != {m}
    ensures Cong(Interpolate(s, [0, 1], L), m * (Interpolate(s, [1], L) - 1), L)
    decreases s, 0
  {
    var rest := s - {m};
    var a, b, x := Interpolate(s, [1], L), Interpolate(rest, [1], L), Interpolate(s, [0, 1], L);
    LinearPolynomial(m);
    hide *;
    SplitOff(s, m, [0, 1], L);
    LambdasSumToOne(rest, L);
    CongRefl(a, L);
    CombinesReplace(x, m, a, a, m, b, 1, L);
    CombinesOne(x, m, a, L);
  }

  lemma LinearPolynomial(m: int)
    ensures Eval([0, 1], m) == m && Quotient([0, 1], m) == [1]
  {
    assert [0, 1][1..] == [1];
    assert Eval([1], m) == 1;
  }

  lemma CombinesOne(x: int, m: int, a: int, L: int)
    requires L > 0 && Combines(x, m, a, m, 1, L)
    ensures Cong(x, m * (a - 1), L)
  {
    Distribute(m, a, 1);
  }

  lemma CombinesReplace(x: int, a: int, u: int, u': int, b: int, v: int, v': int, L: int)
    requires L > 0 && Combines(x, a, u, b, v, L) && Cong(u, u', L) && Cong(v, v', L)
    ensures Combines(x, a, u', b, v', L)
  {
    hide Cong;
    CongScale(a, u, u', L);
    CongScale(b, v, v', L);
    var p, q, p', q' := a * u, b * v, a * u', b * v';
    CongAdd(p, p', q, q', L);
    CongTrans(x, p - q, p' - q', L);
  }

  /** What the interpolation misses: nothing below the threshold degree, and at
      one coefficient too many exactly the top coefficient times the product of
      the negated identifiers. */
  ghost function Missing(s: set<int>, c: seq<int>): int {
    if |c| == |s| + 1 then c[|c| - 1] * Prod(s, j => -j) else 0
  }

  /** The interpolation sum is c(0) less the missing part. */
  lemma {:induction false} InterpolationGap(s: set<int>, c: seq<int>, L: int)
    requires IsPrime(L) && Identifiers(s, L) && |c| <= |s| + 1
    ensures Cong(Interpolate(s, c, L), Eval(c, 0) - Missing(s, c), L)
    decreases s
  {
    hide *;
    if s == {} {
      GapOfNobody(c, L);
    } else {
      var m := Pick(s);
      var rest, q := s - {m}, Quotient(c, m);
      IdentifiersWithout(s, m, L);
      PrimeAtLeastTwo(L);
      InterpolationGap(rest, q, L);
      LambdasSumToOne(s, L);
      SplitOff(s, m, c, L);
      ValueAtZero(c, m);
      MissingStep(s, m, c);
      GapStep(Interpolate(s, c, L), Eval(c, m), Interpolate(s, [1], L), m, Interpolate(rest, q, L),
              Eval(q, 0), Missing(rest, q), Eval(c, 0), Missing(s, c), L);
    }
  }

  lemma GapOfNobody(c: seq<int>, L: int)
    requires IsPrime(L) && |c| <= 1
    ensures Cong(Interpolate({}, c, L), Eval(c, 0) - Missing({}, c), L)
  {
  }

  lemma IdentifiersWithout(s: set<int>, m: int, L: int)
    requires Identifiers(s, L)
    ensures Identifiers(s - {m}, L)
  {
  }

  ghost predicate Affine(y: int, a: int, m: int, q: int) {
    y == a - m * q
  }

  lemma ValueAtZero(c: seq<int>, m: int)
    ensures Affine(Eval(c, 0), Eval(c, m), m, Eval(Quotient(c, m), 0))
  {
    QuotientDivides(c, m, 0);
    hide Eval, Quotient;
  }

  lemma GapStep(x: int, fm: int, a: int, m: int, b: int, q0: int, g': int, c0: int, g: int, L: int)
    requires L > 0 && Combines(x, fm, a, m, b, L) && Cong(a, 1, L) && Cong(b, q0 - g', L)
    requires Affine(c0, fm, m, q0) && Affine(g, 0, m, g')
    ensures Cong(x, c0 - g, L)
  {
    CombinesReplace(x, fm, a, 1, m, b, q0 - g', L);
    Distribute(m, q0, g');
    assert fm * 1 - m * (q0 - g') == c0 - g;
  }

  lemma FactorOut(k: int, m: int, p: int, p': int)
    requires p == -(m * p')
    ensures k * p == 0 - m * (k * p')
  {
    Assoc(k, m, p');
  }

  lemma NegatedProduct(s: set<int>, m: int)
    requires m in s
    ensures Prod(s, j => -j) == -(m * Prod(s - {m}, j => -j))
  {
    ProdExtract(s, j => -j, m);
    var p := Prod(s - {m}, j => -j);
    hide Prod;
    assert -m * p == -(m * p);
  }

  lemma MissingStep(s: set<int>, m: int, c: seq<int>)
    requires m in s && |c| <= |s| + 1
    ensures Affine(Missing(s, c), 0, m, Missing(s - {m}, Quotient(c, m)))
  {
    if |c| == |s| + 1 {
      QuotientTop(c, m);
      NegatedProduct(s, m);
      hide Prod, Quotient;
      FactorOut(c[|c| - 1], m, Prod(s, j => -j), Prod(s - {m}, j => -j));
    }
  }

  /** Section 4.2 of RFC 9591: any set with at least as many identifiers as the
      polynomial has coefficients recovers c(0). */
  lemma InterpolationRecovers(s: set<int>, c: seq<int>, L: int)
    requires IsPrime(L) && Identifiers(s, L) && |c| <= |s|
    ensures Cong(Interpolate(s, c, L), Eval(c, 0), L)
  {
    InterpolationGap(s, c, L);
  }

  /** One identifier short, the error is never 0 when the top coefficient is not. */
  lemma OneShortMisses(s: set<int>, c: seq<int>, L: int)
    requires IsPrime(L) && Identifiers(s, L) && |c| == |s| + 1 && c[|s|] % L != 0
    ensures Missing(s, c) % L != 0
  {
    forall j | j in s
      ensures (j => -j)(j) % L != 0
    {
      Unique(-j, -1, L - j, L);
    }
    ProdNonZero(L, s, j => -j);
    if Missing(s, c) % L == 0 {
      Euclid(L, c[|s|], Prod(s, j => -j));
    }
  }
}
