/** Sums and products over finite sets of integers, in any order. */
module Finite {

  ghost function Pick(s: set<int>): int
    requires s != {}
    ensures Pick(s) in s
  {
    HasElement(s);
    var x :| x in s;
    x
  }

  lemma HasElement(s: set<int>)
    requires s != {}
    ensures exists x :: x in s
  {
    assert (forall x :: x !in s) ==> s == {};
  }

  ghost function Sum(s: set<int>, f: int -> int): int {
    if s == {} then 0 else f(Pick(s)) + Sum(s - {Pick(s)}, f)
  }

  ghost function Prod(s: set<int>, f: int -> int): int {
    if s == {} then 1 else f(Pick(s)) * Prod(s - {Pick(s)}, f)
  }

  lemma {:induction false} SumExtract(s: set<int>, f: int -> int, x: int)
    requires x in s
    ensures Sum(s, f) == f(x) + Sum(s - {x}, f)
    decreases s
  {
    var y := Pick(s);
    if x != y {
      SumExtract(s - {y}, f, x);
      SumExtract(s - {x}, f, y);
      assert s - {y} - {x} == s - {x} - {y};
    }
  }

  lemma {:induction false} ProdExtract(s: set<int>, f: int -> int, x: int)
    requires x in s
    ensures Prod(s, f) == f(x) * Prod(s - {x}, f)
    decreases s
  {
    var y := Pick(s);
    if x != y {
      ProdExtract(s - {y}, f, x);
      ProdExtract(s - {x}, f, y);
      assert s - {y} - {x} == s - {x} - {y};
      var rest := Prod(s - {x} - {y}, f);
      assert f(y) * (f(x) * rest) == f(x) * (f(y) * rest);
    }
  }

  lemma {:induction false} SumExt(s: set<int>, f: int -> int, g: int -> int)
    requires forall x :: x in s ==> f(x) == g(x)
    ensures Sum(s, f) == Sum(s, g)
  {
    if s != {} {
      SumExt(s - {Pick(s)}, f, g);
    }
  }

  lemma {:induction false} ProdExt(s: set<int>, f: int -> int, g: int -> int)
    requires forall x :: x in s ==> f(x) == g(x)
    ensures Prod(s, f) == Prod(s, g)
  {
    if s != {} {
      ProdExt(s - {Pick(s)}, f, g);
    }
  }

  ghost predicate Injective(s: set<int>, g: int -> int) {
    forall x, y :: x in s && y in s && g(x) == g(y) ==> x == y
  }

  ghost function Image(s: set<int>, g: int -> int): set<int> {
    set x | x in s :: g(x)
  }

  lemma ImageExtract(s: set<int>, g: int -> int, x: int)
    requires Injective(s, g) && x in s
    ensures Injective(s - {x}, g)
    ensures g(x) in Image(s, g) && Image(s, g) - {g(x)} == Image(s - {x}, g)
  {
  }

  /** A product over the image of an injective map is the product of the
      composed function. */
  lemma {:induction false} ProdImage(s: set<int>, g: int -> int, f: int -> int, h: int -> int)
    requires Injective(s, g) && forall x :: x in s ==> h(x) == f(g(x))
    ensures Prod(s, h) == Prod(Image(s, g), f)
  {
    if s == {} {
      assert Image(s, g) == {};
    } else {
      var x := Pick(s);
      ImageExtract(s, g, x);
      ProdImage(s - {x}, g, f, h);
      ProdExtract(Image(s, g), f, g(x));
    }
  }

  lemma {:induction false} InjectiveImage(s: set<int>, g: int -> int)
    requires Injective(s, g)
    ensures |Image(s, g)| == |s|
  {
    if s == {} {
      assert Image(s, g) == {};
    } else {
      var x := Pick(s);
      ImageExtract(s, g, x);
      InjectiveImage(s - {x}, g);
    }
  }

  lemma SubsetSameSize(a: set<int>, b: set<int>)
    requires a <= b && |a| == |b|
    ensures a == b
  {
    assert |b - a| == |b| - |a|;
    assert b - a == {};
  }

  /** An injection of a finite set into itself reaches all of it. */
  lemma InjectionPermutes(s: set<int>, g: int -> int)
    requires Injective(s, g) && forall x :: x in s ==> g(x) in s
    ensures Image(s, g) == s
  {
    InjectiveImage(s, g);
    SubsetSameSize(Image(s, g), s);
  }
}
