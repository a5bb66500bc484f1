/**
 The Winograd form of a stride-1 convolution with a 3x3 kernel (plaidml/op.py:1298-1371): transforms of tiles of the
 data and of the kernel, a pointwise product, and an inverse transform.
 */
module WinogradTransforms {
  import opened Sums

  // ---------------------------------------------------------------------------------------------- the transforms

  // Block size, outputs per block and kernel size, with the inverse, data and kernel transforms.
  datatype Triple = Triple(bi: nat, bo: nat, s: nat, a: Matrix, b: Matrix, g: Matrix)

  function CoefficientTerm(w: Triple, i: int, a: int, s: int): Vector {
    k => w.a(k, i) * w.b(a, k) * w.g(k, s)
  }

  // The weight of data element a and kernel element s in output i.
  ghost function Coefficient(w: Triple, i: int, a: int, s: int): real {
    Sum(w.bi, CoefficientTerm(w, i, a, s))
  }

  ghost predicate Shifts(w: Triple, i: int, a: int, s: int) {
    Coefficient(w, i, a, s) == if a == i + s then 1.0 else 0.0
  }

  // The one-dimensional Winograd identity.
  ghost predicate IsExact(w: Triple) {
    && w.bi == w.bo + w.s - 1
    && forall i, a, s :: 0 <= i < w.bo && 0 <= a < w.bi && 0 <= s < w.s ==> Shifts(w, i, a, s)
  }

  function DataTerm(w: Triple, d: Vector, k: int): Vector {
    a => w.b(a, k) * d(a)
  }

  // B^T d
  ghost function DataTransform(w: Triple, d: Vector): Vector {
    k => Sum(w.bi, DataTerm(w, d, k))
  }

  function KernelTerm(w: Triple, g: Vector, k: int): Vector {
    s => w.g(k, s) * g(s)
  }

  // G g
  ghost function KernelTransform(w: Triple, g: Vector): Vector {
    k => Sum(w.s, KernelTerm(w, g, k))
  }

  ghost function FastTerm(w: Triple, d: Vector, g: Vector, i: int): Vector {
    k => w.a(k, i) * (DataTransform(w, d)(k) * KernelTransform(w, g)(k))
  }

  // Output i of the pipeline along one axis: A^T ((B^T d) . (G g)).
  ghost function Fast(w: Triple, d: Vector, g: Vector, i: int): real {
    Sum(w.bi, FastTerm(w, d, g, i))
  }

  function DirectTerm(d: Vector, g: Vector, i: int): Vector {
    s => d(i + s) * g(s)
  }

  ghost function Direct(w: Triple, d: Vector, g: Vector, i: int): real {
    Sum(w.s, DirectTerm(d, g, i))
  }

  // What data element a adds to output i through row k of the transforms and kernel element s.
  function Share(w: Triple, i: int, s: int, d: Vector): Matrix {
    (k, a) => (w.a(k, i) * w.g(k, s)) * (w.b(a, k) * d(a))
  }

  ghost function Through(w: Triple, i: int, s: int, v: Vector): Vector {
    k => (w.a(k, i) * w.g(k, s)) * v(k)
  }

  lemma ShareReordered(w: Triple, i: int, s: int, d: Vector, k: int, a: int)
    ensures Share(w, i, s, d)(k, a) == d(a) * CoefficientTerm(w, i, a, s)(k)
  {
    var x, y, z := w.a(k, i), w.b(a, k), w.g(k, s);
    assert (x * z) * (y * d(a)) == d(a) * (x * y * z);
  }

  // One kernel element's share of output i.
  lemma OneKernelElement(w: Triple, d: Vector, i: int, s: int)
    requires IsExact(w) && 0 <= i < w.bo && 0 <= s < w.s
    ensures Sum(w.bi, Through(w, i, s, DataTransform(w, d))) == d(i + s)
  {
    var f := Share(w, i, s, d);
    var rows := Through(w, i, s, DataTransform(w, d));
    var columns := (a: int) => d(a) * Coefficient(w, i, a, s);
    forall k | 0 <= k < w.bi ensures rows(k) == Sum(w.bi, Row(f, k)) {
      Factor(w.bi, w.a(k, i) * w.g(k, s), DataTerm(w, d, k), Row(f, k));
    }
    forall a | 0 <= a < w.bi ensures columns(a) == Sum(w.bi, Column(f, a)) {
      forall k ensures Column(f, a)(k) == d(a) * CoefficientTerm(w, i, a, s)(k) {
        ShareReordered(w, i, s, d, k, a);
      }
      Factor(w.bi, d(a), CoefficientTerm(w, i, a, s), Column(f, a));
    }
    Swap(w.bi, w.bi, f, rows, columns);
    forall a | 0 <= a < w.bi ensures columns(a) == if a == i + s then d(a) else 0.0 {
      assert Shifts(w, i, a, s);
    }
    OnlyOne(w.bi, i + s, columns);
  }

  // What kernel element s adds to output i through row k.
  function KernelShare(w: Triple, i: int, v: Vector, g: Vector): Matrix {
    (k, s) => (w.a(k, i) * v(k)) * (w.g(k, s) * g(s))
  }

  lemma KernelShareRow(w: Triple, i: int, v: Vector, g: Vector, k: int)
    ensures w.a(k, i) * (v(k) * KernelTransform(w, g)(k)) == Sum(w.s, Row(KernelShare(w, i, v, g), k))
  {
    Factor(w.s, w.a(k, i) * v(k), KernelTerm(w, g, k), Row(KernelShare(w, i, v, g), k));
    var x, y, z := w.a(k, i), v(k), KernelTransform(w, g)(k);
    assert (x * y) * z == x * (y * z);
  }

  lemma KernelShareColumn(w: Triple, i: int, v: Vector, g: Vector, s: int)
    ensures Sum(w.bi, Column(KernelShare(w, i, v, g), s)) == g(s) * Sum(w.bi, Through(w, i, s, v))
  {
    forall k ensures Column(KernelShare(w, i, v, g), s)(k) == g(s) * Through(w, i, s, v)(k) {
      var x, y, z := w.a(k, i), v(k), w.g(k, s);
      assert (x * y) * (z * g(s)) == g(s) * ((x * z) * y);
    }
    Factor(w.bi, g(s), Through(w, i, s, v), Column(KernelShare(w, i, v, g), s));
  }

  // The identity makes the pipeline the direct sum, for any data and kernel.
  lemma FastIsDirect(w: Triple, d: Vector, g: Vector, i: int)
    requires IsExact(w) && 0 <= i < w.bo
    ensures Fast(w, d, g, i) == Direct(w, d, g, i)
  {
    var v := DataTransform(w, d);
    forall k ensures FastTerm(w, d, g, i)(k) == Sum(w.s, Row(KernelShare(w, i, v, g), k)) {
      KernelShareRow(w, i, v, g, k);
    }
    forall s | 0 <= s < w.s ensures DirectTerm(d, g, i)(s) == Sum(w.bi, Column(KernelShare(w, i, v, g), s)) {
      OneKernelElement(w, d, i, s);
      KernelShareColumn(w, i, v, g, s);
    }
    Swap(w.bi, w.s, KernelShare(w, i, v, g), FastTerm(w, d, g, i), DirectTerm(d, g, i));
  }

  function Unit(c: int): Vector {
    k => if k == c then 1.0 else 0.0
  }

  lemma UnitTerm(w: Triple, i: int, a: int, s: int, k: int)
    requires 0 <= a < w.bi && 0 <= s < w.s
    ensures FastTerm(w, Unit(a), Unit(s), i)(k) == CoefficientTerm(w, i, a, s)(k)
  {
    OnlyOne(w.bi, a, DataTerm(w, Unit(a), k));
    OnlyOne(w.s, s, KernelTerm(w, Unit(s), k));
    assert DataTransform(w, Unit(a))(k) == w.b(a, k) && KernelTransform(w, Unit(s))(k) == w.g(k, s);
    Associate(w.a(k, i), w.b(a, k), w.g(k, s));
  }

  lemma Associate(x: real, y: real, z: real)
    ensures x * (y * z) == x * y * z && x * y * z == (x * z) * y
  {
  }

  lemma UnitFast(w: Triple, i: int, a: int, s: int)
    requires 0 <= a < w.bi && 0 <= s < w.s
    ensures Fast(w, Unit(a), Unit(s), i) == Coefficient(w, i, a, s)
  {
    forall k ensures FastTerm(w, Unit(a), Unit(s), i)(k) == CoefficientTerm(w, i, a, s)(k) {
      UnitTerm(w, i, a, s, k);
    }
    Congruent(w.bi, FastTerm(w, Unit(a), Unit(s), i), CoefficientTerm(w, i, a, s));
  }

  lemma UnitDirect(w: Triple, i: int, a: int, s: int)
    requires 0 <= s < w.s
    ensures Direct(w, Unit(a), Unit(s), i) == if a == i + s then 1.0 else 0.0
  {
    OnlyOne(w.s, s, DirectTerm(Unit(a), Unit(s), i));
  }

  // Conversely, a pipeline that is the direct sum on unit data and kernels is exact.
  lemma ExactIfDirectOnUnits(w: Triple)
    requires w.bi == w.bo + w.s - 1
    requires forall i, a, s :: 0 <= i < w.bo && 0 <= a < w.bi && 0 <= s < w.s ==>
               Fast(w, Unit(a), Unit(s), i) == Direct(w, Unit(a), Unit(s), i)
    ensures IsExact(w)
  {
    forall i, a, s | 0 <= i < w.bo && 0 <= a < w.bi && 0 <= s < w.s ensures Shifts(w, i, a, s) {
      UnitFast(w, i, a, s);
      UnitDirect(w, i, a, s);
      assert Fast(w, Unit(a), Unit(s), i) == Direct(w, Unit(a), Unit(s), i);
    }
  }

  // ---------------------------------------------------------------------------------------------- two dimensions

  ghost function DataColumns(w: Triple, d: Matrix, k: int): Vector {
    b => DataTransform(w, Column(d, b))(k)
  }

  ghost function DataRows(w: Triple, d: Matrix, k: int): Vector {
    a => DataTransform(w, Row(d, a))(k)
  }

  // B^T d B
  ghost function DataTile(w: Triple, d: Matrix): Matrix {
    (k, l) => DataTransform(w, DataColumns(w, d, k))(l)
  }

  function DataProduct(w: Triple, d: Matrix, k: int, l: int): Matrix {
    (a, b) => w.b(a, k) * (w.b(b, l) * d(a, b))
  }

  // Either axis may be transformed first.
  lemma DataTileByRows(w: Triple, d: Matrix, k: int, l: int)
    ensures DataTile(w, d)(k, l) == DataTransform(w, DataRows(w, d, l))(k)
  {
    var f := DataProduct(w, d, k, l);
    forall a ensures DataTerm(w, DataRows(w, d, l), k)(a) == Sum(w.bi, Row(f, a)) {
      Factor(w.bi, w.b(a, k), DataTerm(w, Row(d, a), l), Row(f, a));
      assert DataRows(w, d, l)(a) == DataTransform(w, Row(d, a))(l);
    }
    forall b ensures DataTerm(w, DataColumns(w, d, k), l)(b) == Sum(w.bi, Column(f, b)) {
      forall a ensures Column(f, b)(a) == w.b(b, l) * DataTerm(w, Column(d, b), k)(a) {
        var x, y := w.b(a, k), w.b(b, l);
        assert x * (y * d(a, b)) == y * (x * d(a, b));
      }
      Factor(w.bi, w.b(b, l), DataTerm(w, Column(d, b), k), Column(f, b));
      assert DataColumns(w, d, k)(b) == DataTransform(w, Column(d, b))(k);
    }
    Swap(w.bi, w.bi, f, DataTerm(w, DataRows(w, d, l), k), DataTerm(w, DataColumns(w, d, k), l));
    assert DataTransform(w, DataRows(w, d, l))(k) == Sum(w.bi, DataTerm(w, DataRows(w, d, l), k));
    assert DataTile(w, d)(k, l) == DataTransform(w, DataColumns(w, d, k))(l);
  }

  ghost function KernelColumns(w: Triple, g: Matrix, k: int): Vector {
    t => KernelTransform(w, Column(g, t))(k)
  }

  ghost function KernelRows(w: Triple, g: Matrix, l: int): Vector {
    s => KernelTransform(w, Row(g, s))(l)
  }

  // G g G^T
  ghost function KernelTile(w: Triple, g: Matrix): Matrix {
    (k, l) => KernelTransform(w, KernelColumns(w, g, k))(l)
  }

  function KernelProduct(w: Triple, g: Matrix, k: int, l: int): Matrix {
    (s, t) => w.g(k, s) * (w.g(l, t) * g(s, t))
  }

  lemma KernelTileByRows(w: Triple, g: Matrix, k: int, l: int)
    ensures KernelTile(w, g)(k, l) == KernelTransform(w, KernelRows(w, g, l))(k)
  {
    var f := KernelProduct(w, g, k, l);
    forall s ensures KernelTerm(w, KernelRows(w, g, l), k)(s) == Sum(w.s, Row(f, s)) {
      Factor(w.s, w.g(k, s), KernelTerm(w, Row(g, s), l), Row(f, s));
      assert KernelRows(w, g, l)(s) == KernelTransform(w, Row(g, s))(l);
    }
    forall t ensures KernelTerm(w, KernelColumns(w, g, k), l)(t) == Sum(w.s, Column(f, t)) {
      forall s ensures Column(f, t)(s) == w.g(l, t) * KernelTerm(w, Column(g, t), k)(s) {
        var x, y := w.g(k, s), w.g(l, t);
        assert x * (y * g(s, t)) == y * (x * g(s, t));
      }
      Factor(w.s, w.g(l, t), KernelTerm(w, Column(g, t), k), Column(f, t));
      assert KernelColumns(w, g, k)(t) == KernelTransform(w, Column(g, t))(k);
    }
    Swap(w.s, w.s, f, KernelTerm(w, KernelRows(w, g, l), k), KernelTerm(w, KernelColumns(w, g, k), l));
    assert KernelTransform(w, KernelRows(w, g, l))(k) == Sum(w.s, KernelTerm(w, KernelRows(w, g, l), k));
    assert KernelTile(w, g)(k, l) == KernelTransform(w, KernelColumns(w, g, k))(l);
  }

  function Pointwise(p: Matrix, q: Matrix): Matrix {
    (k, l) => p(k, l) * q(k, l)
  }

  function HalfTerm(w: Triple, p: Matrix, i: int, l: int): Vector {
    k => w.a(k, i) * p(k, l)
  }

  ghost function Half(w: Triple, p: Matrix, i: int): Vector {
    l => Sum(w.bi, HalfTerm(w, p, i, l))
  }

  ghost function InverseTerm(w: Triple, p: Matrix, i: int, j: int): Vector {
    l => Half(w, p, i)(l) * w.a(l, j)
  }

  // A^T p A
  ghost function Inverse(w: Triple, p: Matrix, i: int, j: int): real {
    Sum(w.bi, InverseTerm(w, p, i, j))
  }

  function Window(d: Matrix, g: Matrix, i: int, j: int): Matrix {
    (s, t) => d(i + s, j + t) * g(s, t)
  }

  ghost function WindowRows(w: Triple, d: Matrix, g: Matrix, i: int, j: int): Vector {
    s => Sum(w.s, Row(Window(d, g, i, j), s))
  }

  ghost function DirectTile(w: Triple, d: Matrix, g: Matrix, i: int, j: int): real {
    Sum(w.s, WindowRows(w, d, g, i, j))
  }

  // Inverting along the first axis leaves the direct sum along it.
  lemma HalfIsDirect(w: Triple, d: Matrix, g: Matrix, i: int, l: int)
    requires IsExact(w) && 0 <= i < w.bo
    ensures Half(w, Pointwise(DataTile(w, d), KernelTile(w, g)), i)(l)
         == Direct(w, DataRows(w, d, l), KernelRows(w, g, l), i)
  {
    var p := Pointwise(DataTile(w, d), KernelTile(w, g));
    forall k ensures HalfTerm(w, p, i, l)(k) == FastTerm(w, DataRows(w, d, l), KernelRows(w, g, l), i)(k) {
      DataTileByRows(w, d, k, l);
      KernelTileByRows(w, g, k, l);
    }
    Congruent(w.bi, HalfTerm(w, p, i, l), FastTerm(w, DataRows(w, d, l), KernelRows(w, g, l), i));
    FastIsDirect(w, DataRows(w, d, l), KernelRows(w, g, l), i);
  }

  // What row s of the window adds to output (i, j) through column l of the transforms.
  ghost function RowShare(w: Triple, d: Matrix, g: Matrix, i: int, j: int): Matrix {
    (l, s) => w.a(l, j) * (DataRows(w, d, l)(i + s) * KernelRows(w, g, l)(s))
  }

  lemma RowShareColumn(w: Triple, d: Matrix, g: Matrix, i: int, j: int, s: int)
    requires IsExact(w) && 0 <= j < w.bo
    ensures Sum(w.bi, Column(RowShare(w, d, g, i, j), s)) == WindowRows(w, d, g, i, j)(s)
  {
    forall l ensures Column(RowShare(w, d, g, i, j), s)(l) == FastTerm(w, Row(d, i + s), Row(g, s), j)(l) {
      assert DataRows(w, d, l)(i + s) == DataTransform(w, Row(d, i + s))(l);
      assert KernelRows(w, g, l)(s) == KernelTransform(w, Row(g, s))(l);
    }
    Congruent(w.bi, Column(RowShare(w, d, g, i, j), s), FastTerm(w, Row(d, i + s), Row(g, s), j));
    FastIsDirect(w, Row(d, i + s), Row(g, s), j);
    Congruent(w.s, DirectTerm(Row(d, i + s), Row(g, s), j), Row(Window(d, g, i, j), s));
  }

  lemma RowShareRow(w: Triple, d: Matrix, g: Matrix, i: int, j: int, l: int)
    requires IsExact(w) && 0 <= i < w.bo
    ensures InverseTerm(w, Pointwise(DataTile(w, d), KernelTile(w, g)), i, j)(l)
         == Sum(w.bi - w.bo + 1, Row(RowShare(w, d, g, i, j), l))
  {
    HalfIsDirect(w, d, g, i, l);
    Factor(w.s, w.a(l, j), DirectTerm(DataRows(w, d, l), KernelRows(w, g, l), i), Row(RowShare(w, d, g, i, j), l));
  }

  // The two-dimensional pipeline of a tile is the direct sum over the window.
  lemma TileIsDirect(w: Triple, d: Matrix, g: Matrix, i: int, j: int)
    requires IsExact(w) && 0 <= i < w.bo && 0 <= j < w.bo
    ensures Inverse(w, Pointwise(DataTile(w, d), KernelTile(w, g)), i, j) == DirectTile(w, d, g, i, j)
  {
    var p := Pointwise(DataTile(w, d), KernelTile(w, g));
    forall l ensures InverseTerm(w, p, i, j)(l) == Sum(w.s, Row(RowShare(w, d, g, i, j), l)) {
      RowShareRow(w, d, g, i, j, l);
    }
    forall s ensures WindowRows(w, d, g, i, j)(s) == Sum(w.bi, Column(RowShare(w, d, g, i, j), s)) {
      RowShareColumn(w, d, g, i, j, s);
    }
    Swap(w.bi, w.s, RowShare(w, d, g, i, j), InverseTerm(w, p, i, j), WindowRows(w, d, g, i, j));
  }

  // ---------------------------------------------------------------------------------------------- channels

  function Slice(p: int -> Matrix, k: int, l: int): Vector {
    c => p(c)(k, l)
  }

  ghost function Total(n: int, p: int -> Matrix): Matrix {
    (k, l) => Sum(n, Slice(p, k, l))
  }

  ghost function Halves(w: Triple, p: int -> Matrix, i: int, l: int): Vector {
    c => Half(w, p(c), i)(l)
  }

  ghost function Inverses(w: Triple, p: int -> Matrix, i: int, j: int): Vector {
    c => Inverse(w, p(c), i, j)
  }

  lemma HalfOfTotal(w: Triple, n: int, p: int -> Matrix, i: int, l: int)
    ensures Half(w, Total(n, p), i)(l) == Sum(n, Halves(w, p, i, l))
  {
    var f := (k: int, c: int) => w.a(k, i) * p(c)(k, l);
    forall k ensures HalfTerm(w, Total(n, p), i, l)(k) == Sum(n, Row(f, k)) {
      Factor(n, w.a(k, i), Slice(p, k, l), Row(f, k));
    }
    forall c ensures Halves(w, p, i, l)(c) == Sum(w.bi, Column(f, c)) {
      Congruent(w.bi, HalfTerm(w, p(c), i, l), Column(f, c));
    }
    Swap(w.bi, n, f, HalfTerm(w, Total(n, p), i, l), Halves(w, p, i, l));
  }

  // The inverse transform of a sum over channels is the sum of the inverse transforms.
  lemma InverseOfTotal(w: Triple, n: int, p: int -> Matrix, i: int, j: int)
    ensures Inverse(w, Total(n, p), i, j) == Sum(n, Inverses(w, p, i, j))
  {
    var f := (l: int, c: int) => w.a(l, j) * Half(w, p(c), i)(l);
    forall l ensures InverseTerm(w, Total(n, p), i, j)(l) == Sum(n, Row(f, l)) {
      HalfOfTotal(w, n, p, i, l);
      Factor(n, w.a(l, j), Halves(w, p, i, l), Row(f, l));
    }
    forall c ensures Inverses(w, p, i, j)(c) == Sum(w.bi, Column(f, c)) {
      Congruent(w.bi, InverseTerm(w, p(c), i, j), Column(f, c));
    }
    Swap(w.bi, n, f, InverseTerm(w, Total(n, p), i, j), Inverses(w, p, i, j));
  }
}
