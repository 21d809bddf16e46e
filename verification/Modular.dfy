/** Integers modulo m: congruence, primes, Fermat's little theorem, and the
    square-and-multiply loop with the inverse built on it
    (server/src/frost/frost.ts:48, 72-84). */
module Modular {
  import opened Finite

  // ---- remainders --------------------------------------------------------

  /** JavaScript's `%` on BigInt: the remainder takes the sign of the dividend. */
  function TruncRem(a: int, m: int): int
    requires m > 0
  {
    if a >= 0 then a % m else -((-a) % m)
  }

  /** The source's `mod`: two truncating remainders. */
  function Mod(a: int, m: int): (r: int)
    requires m > 0
    ensures r == a % m && 0 <= r < m
  {
    TruncUp(a, m);
    TruncRem(TruncRem(a, m) + m, m)
  }

  lemma TruncUp(a: int, m: int)
    requires m > 0
    ensures TruncRem(a, m) + m > 0
    ensures TruncRem(TruncRem(a, m) + m, m) == a % m
  {
    var t := TruncRem(a, m);
    TruncSame(a, m);
    Shift(t, 1, m);
  }

  /** The truncated remainder is in range and congruent to the dividend. */
  lemma TruncSame(a: int, m: int)
    requires m > 0
    ensures -m < TruncRem(a, m) < m && TruncRem(a, m) % m == a % m
  {
    if a >= 0 {
      Unique(a % m, 0, a % m, m);
    } else {
      var q, r := (-a) / m, (-a) % m;
      calc {
        a;
      ==
        -(q * m + r);
      ==
        -r + (-q) * m;
      }
      Shift(-r, -q, m);
    }
  }

  lemma Unique(x: int, q: int, r: int, m: int)
    requires m > 0 && 0 <= r < m && x == q * m + r
    ensures x % m == r && x / m == q
  {
    var d := q - x / m;
    assert d * m == x % m - r;
    assert d >= 1 ==> d * m >= m;
    assert d <= -1 ==> d * m <= -m;
  }

  lemma Shift(a: int, k: int, m: int)
    requires m > 0
    ensures (a + k * m) % m == a % m
  {
    assert a + k * m == (a / m + k) * m + a % m;
    Unique(a + k * m, a / m + k, a % m, m);
  }

  ghost predicate Cong(a: int, b: int, m: int)
    requires m > 0
  {
    a % m == b % m
  }

  lemma CongRefl(a: int, m: int)
    requires m > 0
    ensures Cong(a, a, m)
  {
  }

  lemma CongSym(a: int, b: int, m: int)
    requires m > 0 && Cong(a, b, m)
    ensures Cong(b, a, m)
  {
  }

  lemma CongTrans(a: int, b: int, c: int, m: int)
    requires m > 0 && Cong(a, b, m) && Cong(b, c, m)
    ensures Cong(a, c, m)
  {
  }

  /** Two numbers are congruent exactly when they differ by a multiple of m. */
  lemma CongDiff(a: int, b: int, m: int)
    requires m > 0
    ensures Cong(a, b, m) <==> (a - b) % m == 0
  {
    if Cong(a, b, m) {
      assert a - b == (a / m - b / m) * m;
      Unique(a - b, a / m - b / m, 0, m);
    }
    if (a - b) % m == 0 {
      assert a == b + ((a - b) / m) * m;
      Shift(b, (a - b) / m, m);
    }
  }

  lemma CongIntro(a: int, b: int, k: int, m: int)
    requires m > 0 && a == b + k * m
    ensures Cong(a, b, m)
  {
    Shift(b, k, m);
  }

  lemma CongElim(a: int, b: int, m: int) returns (k: int)
    requires m > 0 && Cong(a, b, m)
    ensures a == b + k * m
  {
    k := a / m - b / m;
  }

  lemma CongMod(a: int, m: int)
    requires m > 0
    ensures Cong(a % m, a, m)
  {
  }

  lemma CongAdd(a: int, a': int, b: int, b': int, m: int)
    requires m > 0 && Cong(a, a', m) && Cong(b, b', m)
    ensures Cong(a + b, a' + b', m)
    ensures Cong(a - b, a' - b', m)
  {
    var k := CongElim(a, a', m);
    var l := CongElim(b, b', m);
    CongIntro(a + b, a' + b', k + l, m);
    CongIntro(a - b, a' - b', k - l, m);
  }

  lemma CongMul(a: int, a': int, b: int, b': int, m: int)
    requires m > 0 && Cong(a, a', m) && Cong(b, b', m)
    ensures Cong(a * b, a' * b', m)
  {
    hide Cong;
    var k := CongElim(a, a', m);
    var l := CongElim(b, b', m);
    assert a * b == a' * b' + (a' * l + k * b' + k * m * l) * m;
    CongIntro(a * b, a' * b', a' * l + k * b' + k * m * l, m);
  }

  lemma CongScale(k: int, a: int, b: int, m: int)
    requires m > 0 && Cong(a, b, m)
    ensures Cong(k * a, k * b, m)
    ensures Cong(a * k, b * k, m)
  {
    CongMul(k, k, a, b, m);
    CongMul(a, b, k, k, m);
  }

  lemma Assoc(a: int, b: int, c: int)
    ensures a * b * c == a * (b * c)
    ensures a * (b * c) == b * (a * c)
    ensures a * (b * c) == c * (a * b)
  {
  }

  // ---- primes ------------------------------------------------------------

  ghost predicate IsPrime(p: int) {
    p >= 2 && forall a :: 2 <= a < p ==> p % a != 0
  }

  lemma PrimeAtLeastTwo(p: int)
    requires IsPrime(p)
    ensures p >= 2
  {
  }

  /** Euclid's lemma, by descent on the first factor: with p = q*a + r the
      product r*b is again divisible by p. */
  lemma {:induction false} EuclidSmall(p: int, a: int, b: int)
    requires IsPrime(p) && 0 < a < p && (a * b) % p == 0
    ensures b % p == 0
    decreases a
  {
    if a > 1 {
      var q, r := p / a, p % a;
      var k := (a * b) / p;
      assert a * b == k * p;
      assert r * b == (b - q * k) * p by {
        assert r == p - q * a;
        assert r * b == p * b - q * (a * b);
        assert q * (a * b) == q * (k * p);
        assert q * (k * p) == (q * k) * p;
        assert (b - q * k) * p == b * p - (q * k) * p;
      }
      Unique(r * b, b - q * k, 0, p);
      EuclidSmall(p, r, b);
    }
  }

  lemma Euclid(p: int, a: int, b: int)
    requires IsPrime(p) && (a * b) % p == 0 && a % p != 0
    ensures b % p == 0
  {
    CongMod(a, p);
    CongMul(a % p, a, b, b, p);
    EuclidSmall(p, a % p, b);
  }

  /** A factor that is not 0 mod p cancels. */
  lemma Cancel(p: int, a: int, x: int, y: int)
    requires IsPrime(p) && a % p != 0 && Cong(a * x, a * y, p)
    ensures Cong(x, y, p)
  {
    CongDiff(a * x, a * y, p);
    assert a * x - a * y == a * (x - y);
    Euclid(p, a, x - y);
    CongDiff(x, y, p);
  }

  // ---- powers ------------------------------------------------------------

  function Pow(b: int, e: nat): int {
    if e == 0 then 1 else b * Pow(b, e - 1)
  }

  lemma {:induction false} PowAdd(b: int, d: nat, e: nat)
    ensures Pow(b, d + e) == Pow(b, d) * Pow(b, e)
    decreases d
  {
    if d > 0 {
      PowAdd(b, d - 1, e);
      assert Pow(b, d + e) == b * Pow(b, d - 1 + e);
    }
  }

  lemma {:induction false} PowSquare(b: int, e: nat)
    ensures Pow(b * b, e) == Pow(b, 2 * e)
  {
    if e > 0 {
      PowSquare(b, e - 1);
      assert Pow(b, 2 * e) == b * (b * Pow(b, 2 * e - 2));
    }
  }

  lemma {:induction false} PowCong(a: int, b: int, e: nat, m: int)
    requires m > 0 && Cong(a, b, m)
    ensures Cong(Pow(a, e), Pow(b, e), m)
  {
    if e > 0 {
      PowCong(a, b, e - 1, m);
      CongMul(a, b, Pow(a, e - 1), Pow(b, e - 1), m);
    }
  }

  // ---- Fermat's little theorem -------------------------------------------

  ghost function Units(p: nat): (u: set<int>)
    ensures forall x :: x in u <==> 1 <= x < p
    ensures |u| == if p == 0 then 0 else p - 1
  {
    if p <= 1 then {} else Units(p - 1) + {p - 1}
  }

  lemma {:induction false} ProdNonZero(p: int, s: set<int>, f: int -> int)
    requires IsPrime(p) && forall x :: x in s ==> f(x) % p != 0
    ensures Prod(s, f) % p != 0
  {
    if s != {} {
      var x := Pick(s);
      ProdNonZero(p, s - {x}, f);
      if Prod(s, f) % p == 0 {
        Euclid(p, f(x), Prod(s - {x}, f));
      }
    }
  }

  lemma Regroup(a: int, b: int, c: int, d: int)
    ensures (a * b) * (c * d) == (a * c) * (b * d)
  {
  }

  /** Scaling every factor by a scales the product by a power of a. */
  lemma {:induction false} ProdScaled(p: int, a: int, s: set<int>, f: int -> int, g: int -> int)
    requires p > 0 && forall x :: x in s ==> Cong(g(x), a * f(x), p)
    ensures Cong(Prod(s, g), Pow(a, |s|) * Prod(s, f), p)
  {
    hide Cong;
    if s == {} {
      CongIntro(1, 1, 0, p);
    } else {
      var x := Pick(s);
      var rest := s - {x};
      ProdScaled(p, a, rest, f, g);
      CongMul(g(x), a * f(x), Prod(rest, g), Pow(a, |rest|) * Prod(rest, f), p);
      Regroup(a, f(x), Pow(a, |rest|), Prod(rest, f));
    }
  }

  lemma ScaledEqual(p: int, a: int, x: int, y: int)
    requires IsPrime(p) && a % p != 0 && 0 <= x < p && 0 <= y < p && Scaled(a, x, p) == Scaled(a, y, p)
    ensures x == y
  {
    hide IsPrime;
    Cancel(p, a, x, y);
    ReducedIsRemainder(x, y, p);
    ReducedIsRemainder(y, y, p);
  }

  lemma ScaledUnit(p: int, a: int, x: int)
    requires IsPrime(p) && a % p != 0 && 1 <= x < p
    ensures 1 <= Scaled(a, x, p) < p
  {
    hide IsPrime;
    if (a * x) % p == 0 {
      Euclid(p, a, x);
      Unique(x, 0, x, p);
    }
  }

  lemma ScalingInjective(p: int, a: int, g: int -> int)
    requires IsPrime(p) && a % p != 0 && forall x :: g(x) == Scaled(a, x, p)
    ensures p >= 2 && Injective(Units(p), g)
  {
    hide IsPrime, Scaled, Units;
    PrimeAtLeastTwo(p);
    forall x, y | x in Units(p) && y in Units(p) && g(x) == g(y)
      ensures x == y
    {
      ScaledEqual(p, a, x, y);
    }
  }

  lemma ScalingPermutesUnits(p: int, a: int, g: int -> int)
    requires IsPrime(p) && a % p != 0 && forall x :: g(x) == Scaled(a, x, p)
    ensures Injective(Units(p), g) && Image(Units(p), g) == Units(p)
  {
    hide IsPrime, Scaled, Units, Injective, Image;
    ScalingInjective(p, a, g);
    forall x | x in Units(p)
      ensures g(x) in Units(p)
    {
      ScaledUnit(p, a, x);
    }
    InjectionPermutes(Units(p), g);
  }

  lemma ScaledUnits(p: int, a: int, id: int -> int)
    requires IsPrime(p) && a % p != 0 && forall x :: id(x) == x
    ensures Cong(Prod(Units(p), id), Pow(a, p - 1) * Prod(Units(p), id), p)
  {
    hide Cong, Units, IsPrime, Prod, Pow, Scaled;
    PrimeAtLeastTwo(p);
    var u := Units(p);
    var g := x => Scaled(a, x, p);
    ScalingPermutesUnits(p, a, g);
    ProdImage(u, g, id, g);
    forall x | x in u
      ensures Cong(g(x), a * id(x), p)
    {
      ScaledCong(a, x, p);
    }
    ProdScaled(p, a, u, id, g);
  }

  function Scaled(a: int, x: int, p: int): int
    requires p > 0
  {
    (a * x) % p
  }

  lemma ScaledCong(a: int, x: int, p: int)
    requires p > 0
    ensures Cong(Scaled(a, x, p), a * x, p)
  {
    hide Cong;
    CongMod(a * x, p);
  }

  /** Fermat: a^(p-1) is 1 mod p for every a that p does not divide. */
  lemma Fermat(p: int, a: int)
    requires IsPrime(p) && a % p != 0
    ensures Cong(Pow(a, p - 1), 1, p)
  {
    hide Cong;
    var u := Units(p);
    var id: int -> int := x => x;
    var w := Prod(u, id);
    assert w % p != 0 by {
      forall x | x in u
        ensures id(x) % p != 0
      {
        Unique(x, 0, x, p);
      }
      ProdNonZero(p, u, id);
    }
    assert Cong(w, Pow(a, p - 1) * w, p) by {
      ScaledUnits(p, a, id);
    }
    CongSym(w, Pow(a, p - 1) * w, p);
    assert Pow(a, p - 1) * w == w * Pow(a, p - 1) && w == w * 1;
    Cancel(p, w, Pow(a, p - 1), 1);
  }

  // ---- modPow and invert -------------------------------------------------

  /** Square-and-multiply (server/src/frost/frost.ts:72-82). A negative exponent
      never enters the loop. */
  method ModPow(base: int, exp: int, m: int) returns (r: int)
    requires m > 1
    ensures exp >= 0 ==> r == Pow(base, exp) % m
    ensures exp < 0 ==> r == 1
  {
    hide Cong;
    var b := Mod(base, m);
    var e := exp;
    r := 1;
    if exp >= 0 {
      CongMod(base, m);
      PowCong(b, base, exp, m);
    }
    while e > 0
      invariant 0 <= r < m
      invariant exp >= 0 ==> e >= 0 && Cong(r * Pow(b, e), Pow(base, exp), m)
      invariant exp < 0 ==> e == exp && r == 1
    {
      ghost var r0, b0 := r, b;
      ghost var goal := Pow(base, exp);
      assert Cong(r0 * Pow(b0, e), goal, m);
      if e % 2 == 1 {
        r := Mod(r * b, m);
      }
      b := Mod(b * b, m);
      ModPowStep(r0, r, b0, b, e, m);
      CongTrans(r * Pow(b, e / 2), r0 * Pow(b0, e), goal, m);
      e := e / 2;
    }
    if exp >= 0 {
      ReducedIsRemainder(r, Pow(base, exp), m);
    }
  }

  lemma ReducedIsRemainder(r: int, x: int, m: int)
    requires 0 <= r < m && Cong(r, x, m)
    ensures r == x % m
  {
    Unique(r, 0, r, m);
  }

  lemma ModPowStep(r: int, r': int, b: int, b': int, e: int, m: int)
    requires m > 1 && e > 0
    requires r' == if e % 2 == 1 then (r * b) % m else r
    requires b' == (b * b) % m
    ensures Cong(r' * Pow(b', e / 2), r * Pow(b, e), m)
  {
    var r0 := if e % 2 == 1 then r * b else r;
    assert Cong(r', r0, m) by {
      CongMod(r0, m);
    }
    CongMod(b * b, m);
    hide Cong;
    PowCong(b', b * b, e / 2, m);
    CongMul(r', r0, Pow(b', e / 2), Pow(b * b, e / 2), m);
    PowSquare(b, e / 2);
    if e % 2 == 1 {
      assert r * b * Pow(b, e - 1) == r * (b * Pow(b, e - 1));
    }
  }

  /** The inverse the source computes: a^(L-2) mod L. */
  function Inverse(a: int, L: int): int
    requires L >= 2
  {
    Pow(a, L - 2) % L
  }

  method Invert(a: int, L: int) returns (r: int)
    requires L >= 2
    ensures r == Inverse(a, L)
  {
    r := ModPow(a, L - 2, L);
  }

  lemma InverseTimes(a: int, L: int)
    requires L >= 2
    ensures Cong(Inverse(a, L) * a, Pow(a, L - 1), L)
  {
    hide Cong;
    CongMod(Pow(a, L - 2), L);
    CongScale(a, Inverse(a, L), Pow(a, L - 2), L);
  }

  /** It is an inverse modulo a prime, for every a that the prime does not divide. */
  lemma InverseCorrect(a: int, L: int)
    requires IsPrime(L) && a % L != 0
    ensures Cong(Inverse(a, L) * a, 1, L)
  {
    hide Cong, Pow, Inverse, IsPrime;
    PrimeAtLeastTwo(L);
    Fermat(L, a);
    InverseTimes(a, L);
    CongTrans(Inverse(a, L) * a, Pow(a, L - 1), 1, L);
  }
}
