/** Finite sums of reals over sets, and the rearrangements that tensor identities are made of. */
module Sums {
  ghost function Over<T(!new)>(s: set<T>, f: T -> real): real {
    if s == {} then 0.0
    else
      var x :| x in s;
      f(x) + Over(s - {x}, f)
  }

  lemma {:induction false} Pick<T(!new)>(s: set<T>, f: T -> real, x: T)
    requires x in s
    ensures Over(s, f) == f(x) + Over(s - {x}, f)
    decreases |s|
  {
    var y :| y in s && Over(s, f) == f(y) + Over(s - {y}, f);
    if y != x {
      Pick(s - {y}, f, x);
      Pick(s - {x}, f, y);
      assert s - {y} - {x} == s - {x} - {y};
    }
  }

  lemma Single<T(!new)>(x: T, f: T -> real)
    ensures Over({x}, f) == f(x)
  {
    Pick({x}, f, x);
    assert {x} - {x} == {};
  }

  lemma {:induction false} Same<T(!new)>(s: set<T>, f: T -> real, g: T -> real)
    requires forall x :: x in s ==> f(x) == g(x)
    ensures Over(s, f) == Over(s, g)
    decreases |s|
  {
    if x :| x in s {
      Pick(s, f, x);
      Pick(s, g, x);
      Same(s - {x}, f, g);
    }
  }

  lemma {:induction false} Zero<T(!new)>(s: set<T>, f: T -> real)
    requires forall x :: x in s ==> f(x) == 0.0
    ensures Over(s, f) == 0.0
    decreases |s|
  {
    if x :| x in s {
      Pick(s, f, x);
      Zero(s - {x}, f);
    }
  }

  // Terms that are zero may be left out.
  lemma {:induction false} Support<T(!new)>(s: set<T>, t: set<T>, f: T -> real)
    requires t <= s && forall x :: x in s && x !in t ==> f(x) == 0.0
    ensures Over(s, f) == Over(t, f)
    decreases |s - t|
  {
    if x :| x in s - t {
      Pick(s, f, x);
      assert (s - {x}) - t == (s - t) - {x};
      Support(s - {x}, t, f);
    } else {
      assert forall x :: x in s && x !in t ==> x in s - t;
      assert s == t;
    }
  }

  lemma {:induction false} Plus<T(!new)>(s: set<T>, f: T -> real, g: T -> real, h: T -> real)
    requires forall x :: x in s ==> h(x) == f(x) + g(x)
    ensures Over(s, h) == Over(s, f) + Over(s, g)
    decreases |s|
  {
    if x :| x in s {
      Pick(s, f, x);
      Pick(s, g, x);
      Pick(s, h, x);
      Plus(s - {x}, f, g, h);
    }
  }

  function Times(c: real, a: real): real {
    c * a
  }

  lemma TimesSum(c: real, a: real, b: real)
    ensures Times(c, a + b) == Times(c, a) + Times(c, b) && Times(c, 0.0) == 0.0
  {
  }

  lemma TimesUnits(c: real)
    ensures Times(c, 1.0) == c && Times(c, 0.0) == 0.0
  {
  }

  lemma {:induction false} ScaleTimes<T(!new)>(s: set<T>, c: real, f: T -> real, h: T -> real)
    requires forall x :: x in s ==> h(x) == Times(c, f(x))
    ensures Over(s, h) == Times(c, Over(s, f))
    decreases |s|
  {
    if x :| x in s {
      Pick(s, f, x);
      Pick(s, h, x);
      ScaleTimes(s - {x}, c, f, h);
      TimesSum(c, f(x), Over(s - {x}, f));
    } else {
      TimesSum(c, 0.0, 0.0);
    }
  }

  lemma Scale<T(!new)>(s: set<T>, c: real, f: T -> real, h: T -> real)
    requires forall x :: x in s ==> h(x) == c * f(x)
    ensures Over(s, h) == c * Over(s, f)
  {
    forall x | x in s ensures h(x) == Times(c, f(x)) {
    }
    ScaleTimes(s, c, f, h);
  }

  lemma {:induction false} Monotone<T(!new)>(s: set<T>, f: T -> real, g: T -> real)
    requires forall x :: x in s ==> f(x) <= g(x)
    ensures Over(s, f) <= Over(s, g)
    decreases |s|
  {
    if x :| x in s {
      Pick(s, f, x);
      Pick(s, g, x);
      Monotone(s - {x}, f, g);
    }
  }

  // Renaming the summation variable by a bijection from s onto t.
  lemma {:induction false} Rename<S(!new), T(!new)>(s: set<S>, t: set<T>, h: S -> T, f: S -> real, g: T -> real)
    requires forall x :: x in s ==> h(x) in t && f(x) == g(h(x))
    requires forall x, y :: x in s && y in s && h(x) == h(y) ==> x == y
    requires forall z :: z in t ==> exists x :: x in s && h(x) == z
    ensures Over(s, f) == Over(t, g)
    decreases |s|
  {
    if x :| x in s {
      Pick(s, f, x);
      Pick(t, g, h(x));
      forall z | z in t - {h(x)} ensures exists y :: y in s - {x} && h(y) == z {
        var y :| y in s && h(y) == z;
        assert y in s - {x};
      }
      Rename(s - {x}, t - {h(x)}, h, f, g);
    } else {
      assert t == {};
    }
  }

  ghost function Image<S(!new), T(!new)>(s: set<S>, h: S -> T): set<T> {
    set x | x in s :: h(x)
  }

  // The same, for the image of a function with an inverse.
  lemma RenameImage<S(!new), T(!new)>(s: set<S>, h: S -> T, inverse: T -> S, f: S -> real, g: T -> real)
    requires forall x :: x in s ==> inverse(h(x)) == x && f(x) == g(h(x))
    ensures Over(s, f) == Over(Image(s, h), g)
  {
    var t := Image(s, h);
    forall x, y | x in s && y in s && h(x) == h(y) ensures x == y {
      assert inverse(h(x)) == inverse(h(y));
    }
    Rename(s, t, h, f, g);
  }

  // The terms of t outside the image of s are zero.
  lemma Embed<S(!new), T(!new)>(s: set<S>, t: set<T>, h: S -> T, inverse: T -> S, f: S -> real, g: T -> real)
    requires forall x :: x in s ==> h(x) in t && inverse(h(x)) == x && f(x) == g(h(x))
    requires forall y :: y in t && g(y) != 0.0 ==> inverse(y) in s && h(inverse(y)) == y
    ensures Over(s, f) == Over(t, g)
  {
    RenameImage(s, h, inverse, f, g);
    Support(t, Image(s, h), g);
  }

  ghost function Fibre<S(!new), K(!new)>(s: set<S>, key: S -> K, k: K): set<S> {
    set x | x in s && key(x) == k
  }

  lemma FibreWithout<S(!new), K(!new)>(s: set<S>, key: S -> K, x: S, k: K)
    requires x in s
    ensures Fibre(s - {x}, key, k) == Fibre(s, key, k) - {x}
    ensures x in Fibre(s, key, k) <==> key(x) == k
  {
  }

  // Grouping the terms by a key.
  lemma {:induction false} ByFibre<S(!new), K(!new)>(s: set<S>, ks: set<K>, key: S -> K, f: S -> real, h: K -> real)
    requires forall x :: x in s ==> key(x) in ks
    requires forall k :: k in ks ==> h(k) == Over(Fibre(s, key, k), f)
    ensures Over(s, f) == Over(ks, h)
    decreases |s|
  {
    if x :| x in s {
      var rest := s - {x};
      var k := key(x);
      var h' := (l: K) => Over(Fibre(rest, key, l), f);
      ByFibre(rest, ks, key, f, h');
      Pick(s, f, x);
      Pick(ks, h, k);
      Pick(ks, h', k);
      FibreWithout(s, key, x, k);
      Pick(Fibre(s, key, k), f, x);
      forall l | l in ks - {k} ensures h(l) == h'(l) {
        FibreWithout(s, key, x, l);
        assert Fibre(s, key, l) - {x} == Fibre(s, key, l);
      }
      Same(ks - {k}, h, h');
    } else {
      forall k | k in ks ensures h(k) == 0.0 {
        assert Fibre(s, key, k) == {};
      }
      Zero(ks, h);
    }
  }

  function Row<S(!new), T(!new)>(f: (S, T) -> real, x: S): T -> real {
    y => f(x, y)
  }

  function Column<S(!new), T(!new)>(f: (S, T) -> real, y: T): S -> real {
    x => f(x, y)
  }

  // Summing rows first or columns first.
  lemma {:induction false} Exchange<S(!new), T(!new)>(s: set<S>, t: set<T>, f: (S, T) -> real,
                                                      rows: S -> real, columns: T -> real)
    requires forall x :: x in s ==> rows(x) == Over(t, Row(f, x))
    requires forall y :: y in t ==> columns(y) == Over(s, Column(f, y))
    ensures Over(s, rows) == Over(t, columns)
    decreases |s|
  {
    if x :| x in s {
      var rest := s - {x};
      var fewer := (y: T) => Over(rest, Column(f, y));
      Exchange(rest, t, f, rows, fewer);
      Pick(s, rows, x);
      forall y | y in t ensures columns(y) == Row(f, x)(y) + fewer(y) {
        Pick(s, Column(f, y), x);
      }
      Plus(t, Row(f, x), fewer, columns);
    } else {
      Zero(t, columns);
    }
  }

  // ---------------------------------------------------------------------------------------------- ranges

  function Range(n: int): (r: set<int>)
    ensures forall i :: i in r <==> 0 <= i < n
  {
    if n <= 0 then {} else Range(n - 1) + {n - 1}
  }

  lemma OverStep(n: nat, f: int -> real)
    ensures Over(Range(n + 1), f) == Over(Range(n), f) + f(n)
  {
    Pick(Range(n + 1), f, n);
    assert Range(n + 1) - {n} == Range(n);
  }

  type Vector = int -> real
  type Matrix = (int, int) -> real

  ghost function Sum(n: int, f: Vector): real {
    Over(Range(n), f)
  }

  lemma Congruent(n: int, f: Vector, g: Vector)
    requires forall k :: 0 <= k < n ==> f(k) == g(k)
    ensures Sum(n, f) == Sum(n, g)
  {
    Same(Range(n), f, g);
  }

  // A constant factor on either side of a sum.
  lemma Factor(n: int, c: real, f: Vector, h: Vector)
    requires forall k :: 0 <= k < n ==> h(k) == c * f(k)
    ensures Sum(n, h) == c * Sum(n, f)
  {
    Scale(Range(n), c, f, h);
  }

  lemma Swap(n: int, m: int, f: Matrix, rows: Vector, columns: Vector)
    requires forall i :: 0 <= i < n ==> rows(i) == Sum(m, Row(f, i))
    requires forall j :: 0 <= j < m ==> columns(j) == Sum(n, Column(f, j))
    ensures Sum(n, rows) == Sum(m, columns)
  {
    Exchange(Range(n), Range(m), f, rows, columns);
  }

  // All terms but one are zero.
  lemma OnlyOne(n: int, c: int, h: Vector)
    requires 0 <= c < n && forall k :: 0 <= k < n && k != c ==> h(k) == 0.0
    ensures Sum(n, h) == h(c)
  {
    Support(Range(n), {c}, h);
    Single(c, h);
  }
}
