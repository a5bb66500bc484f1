/**
 The seven contractions of `_winograd_code_template` (plaidml/op.py:1298-1316), and their equality with the direct
 convolution.
 */
module WinogradConvolutions {
  import opened Boxes
  import opened BoxSums
  import opened Sums
  import opened Contractions
  import opened Convolutions
  import opened WinogradTransforms
  import Layout

  // ---------------------------------------------------------------------------------------------- one reduced index

  function LastFrame(fixed: seq<int>, n: int): Frame {
    Frame([n], (t: seq<int>) => fixed + t, (a: seq<int>) => if |a| > |fixed| then a[|fixed|..] else a)
  }

  // The cell determines all variables but the last, and the last runs over [0, n) as far as output and right-hand
  // access are concerned.
  ghost predicate LastIsReduced(c: Contraction, l: Tensor, r: Tensor, cell: seq<int>, fixed: seq<int>, n: int) {
    && c.vars == |fixed| + 1
    && (forall k :: 0 <= k < n ==>
          EvalAll(c.out, fixed + [k]) == cell && InRange(EvalAll(c.right, fixed + [k]), r.dims))
    && (forall a :: Writes(c, l, r, cell, a) ==> a[..|fixed|] == fixed && 0 <= a[|fixed|] < n)
  }

  function LastTerm(c: Contraction, l: Tensor, r: Tensor, fixed: seq<int>, k: int): real {
    Read(l, EvalAll(c.left, fixed + [k])) * r.at(EvalAll(c.right, fixed + [k]))
  }

  lemma LastWriters(c: Contraction, l: Tensor, r: Tensor, cell: seq<int>, fixed: seq<int>, n: int,
                    inside: set<seq<int>>, writers: set<seq<int>>)
    requires LastIsReduced(c, l, r, cell, fixed, n)
    requires forall t :: t in inside <==> InRange(t, [n]) && InRange(EvalAll(c.left, fixed + t), l.dims)
    requires writers == Image(inside, LastFrame(fixed, n).build)
    ensures AreWriters(c, l, r, cell, writers)
  {
    forall a | a in writers ensures Writes(c, l, r, cell, a) {
      var t :| t in inside && fixed + t == a;
      assert t == [t[0]];
    }
    forall a | Writes(c, l, r, cell, a) ensures a in writers {
      var k := a[|fixed|];
      assert a == fixed + [k];
      OneInRange(k, n);
      assert [k] in inside && LastFrame(fixed, n).build([k]) == a;
    }
  }

  lemma LastFrameSum(c: Contraction, l: Tensor, r: Tensor, cell: seq<int>, fixed: seq<int>, n: int)
    requires LastIsReduced(c, l, r, cell, fixed, n)
    ensures Cell(c, l, r, cell) == Over(Box([n]), Extended(LastFrame(fixed, n), c, l, r))
  {
    var f := LastFrame(fixed, n);
    var inside := set t | t in Box([n]) && InRange(EvalAll(c.left, fixed + t), l.dims);
    var writers := Image(inside, f.build);
    LastWriters(c, l, r, cell, fixed, n, inside, writers);
    CellIs(c, l, r, cell, writers);
    FrameSum(f, c, l, r, Box([n]), inside);
  }

  lemma LastTerms(c: Contraction, l: Tensor, r: Tensor, fixed: seq<int>, n: int, term: Vector)
    requires forall k :: 0 <= k < n ==> term(k) == LastTerm(c, l, r, fixed, k)
    ensures Over(Box([n]), Extended(LastFrame(fixed, n), c, l, r)) == Sum(n, term)
  {
    var g := Extended(LastFrame(fixed, n), c, l, r);
    forall k | 0 <= k < n ensures term(k) == g([k]) {
      assert LastFrame(fixed, n).build([k]) == fixed + [k];
    }
    BoxOfOne(n, g, term);
  }

  // Such a cell is a sum over the last variable.
  lemma OneReduced(c: Contraction, l: Tensor, r: Tensor, cell: seq<int>, fixed: seq<int>, n: int, term: Vector)
    requires LastIsReduced(c, l, r, cell, fixed, n)
    requires forall k :: 0 <= k < n ==> term(k) == LastTerm(c, l, r, fixed, k)
    ensures Cell(c, l, r, cell) == Sum(n, term)
  {
    LastFrameSum(c, l, r, cell, fixed, n);
    LastTerms(c, l, r, fixed, n, term);
  }

  // The same when the output index is just the list of the other variables.
  lemma PlainCell(c: Contraction, l: Tensor, r: Tensor, cell: seq<int>, n: int, term: Vector)
    requires c.vars == |cell| + 1 && c.out == Vars(0, |cell|)
    requires forall k :: InRange(EvalAll(c.right, cell + [k]), r.dims) <==> 0 <= k < n
    requires forall k :: 0 <= k < n ==> term(k) == LastTerm(c, l, r, cell, k)
    ensures Contract(c, l, r).at(cell) == Sum(n, term)
  {
    forall k ensures EvalAll(c.out, cell + [k]) == cell {
      EvalVars(0, |cell|, cell + [k]);
    }
    forall a | Writes(c, l, r, cell, a) ensures a[..|cell|] == cell && 0 <= a[|cell|] < n {
      EvalVars(0, |cell|, a);
      assert a == cell + [a[|cell|]];
    }
    OneReduced(c, l, r, cell, cell, n, term);
  }

  // The factors of a product may be written in either order.
  function Mirrored(c: Contraction): Contraction {
    Contraction(c.vars, c.out, c.dims, c.right, c.left)
  }

  lemma MirroredCell(c: Contraction, l: Tensor, r: Tensor, cell: seq<int>)
    ensures Contract(c, l, r).at(cell) == Contract(Mirrored(c), r, l).at(cell)
  {
    var d := Mirrored(c);
    forall a ensures Writes(c, l, r, cell, a) == Writes(d, r, l, cell, a) && Terms(c, l, r)(a) == Terms(d, r, l)(a) {
    }
    if s :| AreWriters(c, l, r, cell, s) {
      CellIs(c, l, r, cell, s);
      assert AreWriters(d, r, l, cell, s);
      CellIs(d, r, l, cell, s);
      Same(s, Terms(c, l, r), Terms(d, r, l));
    } else {
      forall s ensures !AreWriters(d, r, l, cell, s) {
        assert AreWriters(c, l, r, cell, s) <==> AreWriters(d, r, l, cell, s);
      }
    }
  }

  // ---------------------------------------------------------------------------------------------- the program

  // Image N x X x Y x CI, output channels, output sizes and paddings.
  datatype Sizes = Sizes(n: int, x: int, y: int, ci: int, co: int, xo: int, yo: int, xp: int, yp: int)

  // (out + BO - 1) / BO
  function Blocks(out: int, w: Triple): int {
    if w.bo == 0 then 0 else (out + w.bo - 1) / w.bo
  }

  function AsTensor(m: Matrix, rows: int, columns: int): Tensor {
    Tensor([rows, columns], (idx: seq<int>) => if |idx| == 2 then m(idx[0], idx[1]) else 0.0)
  }

  // Variables i, j, ci, co, k.
  function U1(w: Triple, z: Sizes): Contraction {
    Contraction(5, Vars(0, 4), [w.bi, w.s, z.ci, z.co], [Var(0), Var(4)], [Var(4), Var(1), Var(2), Var(3)])
  }

  function U(w: Triple, z: Sizes): Contraction {
    Contraction(5, Vars(0, 4), [w.bi, w.bi, z.ci, z.co], [Var(0), Var(4), Var(2), Var(3)], [Var(1), Var(4)])
  }

  // BO*x + k - Pad
  function TileIdx(w: Triple, block: nat, within: nat, pad: int): Index {
    Sub(Add(Mul(w.bo, Var(block)), Var(within)), Lit(pad))
  }

  function TileDims(w: Triple, z: Sizes, rows: int, columns: int, channels: int): seq<int> {
    [z.n, rows, columns, Blocks(z.xo, w), Blocks(z.yo, w), channels]
  }

  // Variables n, i, j, x, y, channel, k.
  function V1(w: Triple, z: Sizes): Contraction {
    Contraction(7, Vars(0, 6), TileDims(w, z, w.bi, w.bi, z.ci),
                [Var(6), Var(1)], [Var(0), TileIdx(w, 3, 6, z.xp), TileIdx(w, 4, 2, z.yp), Var(5)])
  }

  function V(w: Triple, z: Sizes): Contraction {
    Contraction(7, Vars(0, 6), TileDims(w, z, w.bi, w.bi, z.ci),
                [Var(0), Var(1), Var(6), Var(3), Var(4), Var(5)], [Var(6), Var(2)])
  }

  function M(w: Triple, z: Sizes): Contraction {
    Contraction(7, Vars(0, 6), TileDims(w, z, w.bi, w.bi, z.co),
                [Var(0), Var(1), Var(2), Var(3), Var(4), Var(6)], [Var(1), Var(2), Var(6), Var(5)])
  }

  function O1(w: Triple, z: Sizes): Contraction {
    Contraction(7, Vars(0, 6), TileDims(w, z, w.bo, w.bi, z.co),
                [Var(6), Var(1)], [Var(0), Var(6), Var(2), Var(3), Var(4), Var(5)])
  }

  // O[n, BO*x + i, BO*y + j, co : N, XO, YO, CO]
  function O(w: Triple, z: Sizes): Contraction {
    Contraction(7, [Var(0), Add(Mul(w.bo, Var(3)), Var(1)), Add(Mul(w.bo, Var(4)), Var(2)), Var(5)],
                [z.n, z.xo, z.yo, z.co],
                [Var(0), Var(1), Var(6), Var(3), Var(4), Var(5)], [Var(6), Var(2)])
  }

  function ATensor(w: Triple): Tensor { AsTensor(w.a, w.bi, w.bo) }

  function BTensor(w: Triple): Tensor { AsTensor(w.b, w.bi, w.bi) }

  function GTensor(w: Triple): Tensor { AsTensor(w.g, w.bi, w.s) }

  ghost function UTensor(w: Triple, z: Sizes, kernel: Tensor): Tensor {
    Contract(U(w, z), Contract(U1(w, z), GTensor(w), kernel), GTensor(w))
  }

  ghost function VTensor(w: Triple, z: Sizes, data: Tensor): Tensor {
    Contract(V(w, z), Contract(V1(w, z), BTensor(w), data), BTensor(w))
  }

  ghost function MTensor(w: Triple, z: Sizes, data: Tensor, kernel: Tensor): Tensor {
    Contract(M(w, z), VTensor(w, z, data), UTensor(w, z, kernel))
  }

  ghost function Program(w: Triple, z: Sizes, data: Tensor, kernel: Tensor): Tensor {
    Contract(O(w, z), Contract(O1(w, z), ATensor(w), MTensor(w, z, data, kernel)), ATensor(w))
  }

  // ---------------------------------------------------------------------------------------------- the stages

  lemma Two(i: int, j: int, a: int, b: int)
    ensures InRange([i, j], [a, b]) <==> 0 <= i < a && 0 <= j < b
  {
    var v, d := [i, j], [a, b];
    assert InRange(v, d) <==> 0 <= v[0] < d[0] && 0 <= v[1] < d[1];
  }

  lemma Four(i: int, j: int, k: int, l: int, a: int, b: int, c: int, d: int)
    ensures InRange([i, j, k, l], [a, b, c, d]) <==> 0 <= i < a && 0 <= j < b && 0 <= k < c && 0 <= l < d
  {
    assert [i, j, k, l] == [i, j] + [k, l] && [a, b, c, d] == [a, b] + [c, d];
    Joined([i, j], [k, l], [a, b], [c, d]);
    Two(i, j, a, b);
    Two(k, l, c, d);
  }

  lemma Six(i: int, j: int, k: int, l: int, m: int, n: int, a: int, b: int, c: int, d: int, e: int, f: int)
    ensures InRange([i, j, k, l, m, n], [a, b, c, d, e, f]) <==>
              0 <= i < a && 0 <= j < b && 0 <= k < c && 0 <= l < d && 0 <= m < e && 0 <= n < f
  {
    assert [i, j, k, l, m, n] == [i, j] + [k, l, m, n] && [a, b, c, d, e, f] == [a, b] + [c, d, e, f];
    Joined([i, j], [k, l, m, n], [a, b], [c, d, e, f]);
    Two(i, j, a, b);
    Four(k, l, m, n, c, d, e, f);
  }

  lemma EvalTwo(p: nat, q: nat, a: seq<int>)
    requires p < |a| && q < |a|
    ensures EvalAll([Var(p), Var(q)], a) == [a[p], a[q]]
  {
  }

  lemma EvalFour(p: nat, q: nat, r: nat, s: nat, a: seq<int>)
    requires p < |a| && q < |a| && r < |a| && s < |a|
    ensures EvalAll([Var(p), Var(q), Var(r), Var(s)], a) == [a[p], a[q], a[r], a[s]]
  {
  }

  lemma EvalSix(p: nat, q: nat, r: nat, s: nat, t: nat, u: nat, a: seq<int>)
    requires p < |a| && q < |a| && r < |a| && s < |a| && t < |a| && u < |a|
    ensures EvalAll([Var(p), Var(q), Var(r), Var(s), Var(t), Var(u)], a) == [a[p], a[q], a[r], a[s], a[t], a[u]]
  {
  }

  function KernelMatrix(kernel: Tensor, ci: int, co: int): Matrix {
    (s, t) => kernel.at([s, t, ci, co])
  }

  lemma KernelColumnIs(w: Triple, g: Matrix, i: int, t: int)
    ensures KernelColumns(w, g, i)(t) == Sum(w.s, KernelTerm(w, Column(g, t), i))
  {
    assert KernelColumns(w, g, i)(t) == KernelTransform(w, Column(g, t))(i);
  }

  lemma KernelTileIs(w: Triple, g: Matrix, i: int, j: int)
    ensures KernelTile(w, g)(i, j) == Sum(w.s, KernelTerm(w, KernelColumns(w, g, i), j))
  {
    assert KernelTile(w, g)(i, j) == KernelTransform(w, KernelColumns(w, g, i))(j);
  }

  lemma U1Access(w: Triple, z: Sizes, kernel: Tensor, i: int, t: int, ci: int, co: int, k: int)
    requires kernel.dims == [w.s, w.s, z.ci, z.co]
    requires 0 <= i < w.bi && 0 <= t < w.s && 0 <= ci < z.ci && 0 <= co < z.co
    ensures var a := [i, t, ci, co] + [k];
            && (InRange(EvalAll(U1(w, z).right, a), kernel.dims) <==> 0 <= k < w.s)
            && (0 <= k < w.s ==>
                  LastTerm(U1(w, z), GTensor(w), kernel, [i, t, ci, co], k) == w.g(i, k) * kernel.at([k, t, ci, co]))
  {
    var a := [i, t, ci, co] + [k];
    EvalFour(4, 1, 2, 3, a);
    EvalTwo(0, 4, a);
    Four(k, t, ci, co, w.s, w.s, z.ci, z.co);
    Two(i, k, w.bi, w.s);
  }

  lemma U1At(w: Triple, z: Sizes, kernel: Tensor, i: int, t: int, ci: int, co: int)
    requires kernel.dims == [w.s, w.s, z.ci, z.co]
    requires 0 <= i < w.bi && 0 <= t < w.s && 0 <= ci < z.ci && 0 <= co < z.co
    ensures Contract(U1(w, z), GTensor(w), kernel).at([i, t, ci, co])
         == KernelColumns(w, KernelMatrix(kernel, ci, co), i)(t)
  {
    var c, cell := U1(w, z), [i, t, ci, co];
    var term := KernelTerm(w, Column(KernelMatrix(kernel, ci, co), t), i);
    forall k ensures InRange(EvalAll(c.right, cell + [k]), kernel.dims) <==> 0 <= k < w.s
      ensures 0 <= k < w.s ==> term(k) == LastTerm(c, GTensor(w), kernel, cell, k)
    {
      U1Access(w, z, kernel, i, t, ci, co, k);
    }
    PlainCell(c, GTensor(w), kernel, cell, w.s, term);
    KernelColumnIs(w, KernelMatrix(kernel, ci, co), i, t);
  }

  lemma UAccess(w: Triple, z: Sizes, u1: Tensor, i: int, j: int, ci: int, co: int, k: int)
    requires u1.dims == [w.bi, w.s, z.ci, z.co]
    requires 0 <= i < w.bi && 0 <= j < w.bi && 0 <= ci < z.ci && 0 <= co < z.co
    ensures var a := [i, j, ci, co] + [k];
            && (InRange(EvalAll(U(w, z).right, a), GTensor(w).dims) <==> 0 <= k < w.s)
            && (0 <= k < w.s ==>
                  LastTerm(U(w, z), u1, GTensor(w), [i, j, ci, co], k) == u1.at([i, k, ci, co]) * w.g(j, k))
  {
    var a := [i, j, ci, co] + [k];
    EvalFour(0, 4, 2, 3, a);
    EvalTwo(1, 4, a);
    Four(i, k, ci, co, w.bi, w.s, z.ci, z.co);
    Two(j, k, w.bi, w.s);
  }

  // The same over any u1 with the right values.
  lemma USum(w: Triple, z: Sizes, u1: Tensor, m: Matrix, i: int, j: int, ci: int, co: int)
    requires u1.dims == [w.bi, w.s, z.ci, z.co]
    requires 0 <= i < w.bi && 0 <= j < w.bi && 0 <= ci < z.ci && 0 <= co < z.co
    requires forall k :: 0 <= k < w.s ==> u1.at([i, k, ci, co]) == KernelColumns(w, m, i)(k)
    ensures Contract(U(w, z), u1, GTensor(w)).at([i, j, ci, co]) == Sum(w.s, KernelTerm(w, KernelColumns(w, m, i), j))
  {
    var c, cell := U(w, z), [i, j, ci, co];
    var term := KernelTerm(w, KernelColumns(w, m, i), j);
    forall k ensures InRange(EvalAll(c.right, cell + [k]), GTensor(w).dims) <==> 0 <= k < w.s
      ensures 0 <= k < w.s ==> term(k) == LastTerm(c, u1, GTensor(w), cell, k)
    {
      UAccess(w, z, u1, i, j, ci, co, k);
    }
    PlainCell(c, u1, GTensor(w), cell, w.s, term);
  }

  lemma UAt(w: Triple, z: Sizes, kernel: Tensor, i: int, j: int, ci: int, co: int)
    requires kernel.dims == [w.s, w.s, z.ci, z.co]
    requires 0 <= i < w.bi && 0 <= j < w.bi && 0 <= ci < z.ci && 0 <= co < z.co
    ensures UTensor(w, z, kernel).at([i, j, ci, co]) == KernelTile(w, KernelMatrix(kernel, ci, co))(i, j)
  {
    var m := KernelMatrix(kernel, ci, co);
    var u1 := Contract(U1(w, z), GTensor(w), kernel);
    forall k | 0 <= k < w.s ensures u1.at([i, k, ci, co]) == KernelColumns(w, m, i)(k) {
      U1At(w, z, kernel, i, k, ci, co);
    }
    USum(w, z, u1, m, i, j, ci, co);
    KernelTileIs(w, m, i, j);
  }

  // The window of the data under tile (x, y), extended by zero.
  function DataMatrix(w: Triple, z: Sizes, data: Tensor, n: int, x: int, y: int, ci: int): Matrix {
    (a, b) => Read(data, [n, w.bo * x + a - z.xp, w.bo * y + b - z.yp, ci])
  }

  lemma DataColumnIs(w: Triple, d: Matrix, i: int, b: int)
    ensures DataColumns(w, d, i)(b) == Sum(w.bi, DataTerm(w, Column(d, b), i))
  {
    assert DataColumns(w, d, i)(b) == DataTransform(w, Column(d, b))(i);
  }

  lemma DataTileIs(w: Triple, d: Matrix, i: int, j: int)
    ensures DataTile(w, d)(i, j) == Sum(w.bi, DataTerm(w, DataColumns(w, d, i), j))
  {
    assert DataTile(w, d)(i, j) == DataTransform(w, DataColumns(w, d, i))(j);
  }

  lemma EvalTile(w: Triple, block: nat, within: nat, pad: int, a: seq<int>)
    requires block < |a| && within < |a|
    ensures Eval(TileIdx(w, block, within, pad), a) == w.bo * a[block] + a[within] - pad
  {
    assert Eval(Mul(w.bo, Var(block)), a) == w.bo * a[block];
    assert Eval(Add(Mul(w.bo, Var(block)), Var(within)), a) == w.bo * a[block] + a[within];
  }

  lemma EvalWindow(w: Triple, z: Sizes, a: seq<int>)
    requires |a| == 7
    ensures EvalAll([Var(0), TileIdx(w, 3, 6, z.xp), TileIdx(w, 4, 2, z.yp), Var(5)], a)
         == [a[0], w.bo * a[3] + a[6] - z.xp, w.bo * a[4] + a[2] - z.yp, a[5]]
  {
    EvalTile(w, 3, 6, z.xp, a);
    EvalTile(w, 4, 2, z.yp, a);
  }

  lemma V1Access(w: Triple, z: Sizes, data: Tensor, n: int, i: int, j: int, x: int, y: int, ci: int, k: int)
    requires 0 <= i < w.bi
    ensures var c, a := Mirrored(V1(w, z)), [n, i, j, x, y, ci] + [k];
            && (InRange(EvalAll(c.right, a), BTensor(w).dims) <==> 0 <= k < w.bi)
            && LastTerm(c, data, BTensor(w), [n, i, j, x, y, ci], k)
               == DataMatrix(w, z, data, n, x, y, ci)(k, j) * w.b(k, i)
  {
    var a := [n, i, j, x, y, ci] + [k];
    EvalTwo(6, 1, a);
    EvalWindow(w, z, a);
    Two(k, i, w.bi, w.bi);
  }

  lemma V1At(w: Triple, z: Sizes, data: Tensor, n: int, i: int, j: int, x: int, y: int, ci: int)
    requires 0 <= i < w.bi
    ensures Contract(V1(w, z), BTensor(w), data).at([n, i, j, x, y, ci])
         == DataColumns(w, DataMatrix(w, z, data, n, x, y, ci), i)(j)
  {
    var c, cell := Mirrored(V1(w, z)), [n, i, j, x, y, ci];
    var d := DataMatrix(w, z, data, n, x, y, ci);
    var term := DataTerm(w, Column(d, j), i);
    forall k ensures InRange(EvalAll(c.right, cell + [k]), BTensor(w).dims) <==> 0 <= k < w.bi
      ensures 0 <= k < w.bi ==> term(k) == LastTerm(c, data, BTensor(w), cell, k)
    {
      V1Access(w, z, data, n, i, j, x, y, ci, k);
    }
    PlainCell(c, data, BTensor(w), cell, w.bi, term);
    MirroredCell(V1(w, z), BTensor(w), data, cell);
    DataColumnIs(w, d, i, j);
  }

  // A tile position: batch, tile and the block coordinates are in range.
  predicate OnTile(w: Triple, z: Sizes, n: int, x: int, y: int) {
    0 <= n < z.n && 0 <= x < Blocks(z.xo, w) && 0 <= y < Blocks(z.yo, w)
  }

  lemma VAccess(w: Triple, z: Sizes, v1: Tensor, n: int, i: int, j: int, x: int, y: int, ci: int, k: int)
    requires v1.dims == TileDims(w, z, w.bi, w.bi, z.ci)
    requires OnTile(w, z, n, x, y) && 0 <= i < w.bi && 0 <= j < w.bi && 0 <= ci < z.ci
    ensures var c, a := V(w, z), [n, i, j, x, y, ci] + [k];
            && (InRange(EvalAll(c.right, a), BTensor(w).dims) <==> 0 <= k < w.bi)
            && (0 <= k < w.bi ==>
                  LastTerm(c, v1, BTensor(w), [n, i, j, x, y, ci], k) == v1.at([n, i, k, x, y, ci]) * w.b(k, j))
  {
    var a := [n, i, j, x, y, ci] + [k];
    EvalSix(0, 1, 6, 3, 4, 5, a);
    EvalTwo(6, 2, a);
    Two(k, j, w.bi, w.bi);
    Six(n, i, k, x, y, ci, z.n, w.bi, w.bi, Blocks(z.xo, w), Blocks(z.yo, w), z.ci);
  }

  lemma VSum(w: Triple, z: Sizes, v1: Tensor, d: Matrix, n: int, i: int, j: int, x: int, y: int, ci: int)
    requires v1.dims == TileDims(w, z, w.bi, w.bi, z.ci)
    requires OnTile(w, z, n, x, y) && 0 <= i < w.bi && 0 <= j < w.bi && 0 <= ci < z.ci
    requires forall k :: 0 <= k < w.bi ==> v1.at([n, i, k, x, y, ci]) == DataColumns(w, d, i)(k)
    ensures Contract(V(w, z), v1, BTensor(w)).at([n, i, j, x, y, ci])
         == Sum(w.bi, DataTerm(w, DataColumns(w, d, i), j))
  {
    var c, cell := V(w, z), [n, i, j, x, y, ci];
    var term := DataTerm(w, DataColumns(w, d, i), j);
    forall k ensures InRange(EvalAll(c.right, cell + [k]), BTensor(w).dims) <==> 0 <= k < w.bi
      ensures 0 <= k < w.bi ==> term(k) == LastTerm(c, v1, BTensor(w), cell, k)
    {
      VAccess(w, z, v1, n, i, j, x, y, ci, k);
    }
    PlainCell(c, v1, BTensor(w), cell, w.bi, term);
  }

  lemma VAt(w: Triple, z: Sizes, data: Tensor, n: int, i: int, j: int, x: int, y: int, ci: int)
    requires OnTile(w, z, n, x, y) && 0 <= i < w.bi && 0 <= j < w.bi && 0 <= ci < z.ci
    ensures VTensor(w, z, data).at([n, i, j, x, y, ci]) == DataTile(w, DataMatrix(w, z, data, n, x, y, ci))(i, j)
  {
    var d := DataMatrix(w, z, data, n, x, y, ci);
    var v1 := Contract(V1(w, z), BTensor(w), data);
    forall k | 0 <= k < w.bi ensures v1.at([n, i, k, x, y, ci]) == DataColumns(w, d, i)(k) {
      V1At(w, z, data, n, i, k, x, y, ci);
    }
    VSum(w, z, v1, d, n, i, j, x, y, ci);
    DataTileIs(w, d, i, j);
  }

  lemma MAccess(w: Triple, z: Sizes, v: Tensor, u: Tensor, n: int, i: int, j: int, x: int, y: int, co: int, k: int)
    requires v.dims == TileDims(w, z, w.bi, w.bi, z.ci) && u.dims == [w.bi, w.bi, z.ci, z.co]
    requires OnTile(w, z, n, x, y) && 0 <= i < w.bi && 0 <= j < w.bi && 0 <= co < z.co
    ensures var c, a := M(w, z), [n, i, j, x, y, co] + [k];
            && (InRange(EvalAll(c.right, a), u.dims) <==> 0 <= k < z.ci)
            && (0 <= k < z.ci ==>
                  LastTerm(c, v, u, [n, i, j, x, y, co], k) == v.at([n, i, j, x, y, k]) * u.at([i, j, k, co]))
  {
    var a := [n, i, j, x, y, co] + [k];
    EvalSix(0, 1, 2, 3, 4, 6, a);
    EvalFour(1, 2, 6, 5, a);
    Four(i, j, k, co, w.bi, w.bi, z.ci, z.co);
    Six(n, i, j, x, y, k, z.n, w.bi, w.bi, Blocks(z.xo, w), Blocks(z.yo, w), z.ci);
  }

  // The pointwise products of one tile, by input channel.
  ghost function TileProducts(w: Triple, z: Sizes, data: Tensor, kernel: Tensor, n: int, x: int, y: int, co: int)
    : int -> Matrix
  {
    ci => Pointwise(DataTile(w, DataMatrix(w, z, data, n, x, y, ci)), KernelTile(w, KernelMatrix(kernel, ci, co)))
  }

  lemma MSum(w: Triple, z: Sizes, v: Tensor, u: Tensor, p: int -> Matrix,
             n: int, i: int, j: int, x: int, y: int, co: int)
    requires v.dims == TileDims(w, z, w.bi, w.bi, z.ci) && u.dims == [w.bi, w.bi, z.ci, z.co]
    requires OnTile(w, z, n, x, y) && 0 <= i < w.bi && 0 <= j < w.bi && 0 <= co < z.co
    requires forall ci :: 0 <= ci < z.ci ==> v.at([n, i, j, x, y, ci]) * u.at([i, j, ci, co]) == Slice(p, i, j)(ci)
    ensures Contract(M(w, z), v, u).at([n, i, j, x, y, co]) == Sum(z.ci, Slice(p, i, j))
  {
    var c, cell := M(w, z), [n, i, j, x, y, co];
    forall k ensures InRange(EvalAll(c.right, cell + [k]), u.dims) <==> 0 <= k < z.ci
      ensures 0 <= k < z.ci ==> Slice(p, i, j)(k) == LastTerm(c, v, u, cell, k)
    {
      MAccess(w, z, v, u, n, i, j, x, y, co, k);
    }
    PlainCell(c, v, u, cell, z.ci, Slice(p, i, j));
  }

  // The same over any transforms with the right values.
  lemma MOf(w: Triple, z: Sizes, data: Tensor, kernel: Tensor, v: Tensor, u: Tensor,
            n: int, i: int, j: int, x: int, y: int, co: int)
    requires v.dims == TileDims(w, z, w.bi, w.bi, z.ci) && u.dims == [w.bi, w.bi, z.ci, z.co]
    requires OnTile(w, z, n, x, y) && 0 <= i < w.bi && 0 <= j < w.bi && 0 <= co < z.co
    requires forall ci :: 0 <= ci < z.ci ==>
               v.at([n, i, j, x, y, ci]) == DataTile(w, DataMatrix(w, z, data, n, x, y, ci))(i, j)
    requires forall ci :: 0 <= ci < z.ci ==> u.at([i, j, ci, co]) == KernelTile(w, KernelMatrix(kernel, ci, co))(i, j)
    ensures Contract(M(w, z), v, u).at([n, i, j, x, y, co])
         == Total(z.ci, TileProducts(w, z, data, kernel, n, x, y, co))(i, j)
  {
    var p := TileProducts(w, z, data, kernel, n, x, y, co);
    forall ci | 0 <= ci < z.ci ensures v.at([n, i, j, x, y, ci]) * u.at([i, j, ci, co]) == Slice(p, i, j)(ci) {
    }
    MSum(w, z, v, u, p, n, i, j, x, y, co);
  }

  lemma MAt(w: Triple, z: Sizes, data: Tensor, kernel: Tensor, n: int, i: int, j: int, x: int, y: int, co: int)
    requires kernel.dims == [w.s, w.s, z.ci, z.co]
    requires OnTile(w, z, n, x, y) && 0 <= i < w.bi && 0 <= j < w.bi && 0 <= co < z.co
    ensures MTensor(w, z, data, kernel).at([n, i, j, x, y, co])
         == Total(z.ci, TileProducts(w, z, data, kernel, n, x, y, co))(i, j)
  {
    var v, u := VTensor(w, z, data), UTensor(w, z, kernel);
    forall ci | 0 <= ci < z.ci
      ensures v.at([n, i, j, x, y, ci]) == DataTile(w, DataMatrix(w, z, data, n, x, y, ci))(i, j)
    {
      VAt(w, z, data, n, i, j, x, y, ci);
    }
    forall ci | 0 <= ci < z.ci ensures u.at([i, j, ci, co]) == KernelTile(w, KernelMatrix(kernel, ci, co))(i, j) {
      UAt(w, z, kernel, i, j, ci, co);
    }
    MOf(w, z, data, kernel, v, u, n, i, j, x, y, co);
  }

  lemma O1Access(w: Triple, z: Sizes, m: Tensor, n: int, i: int, j: int, x: int, y: int, co: int, k: int)
    requires m.dims == TileDims(w, z, w.bi, w.bi, z.co)
    requires OnTile(w, z, n, x, y) && 0 <= i < w.bo && 0 <= j < w.bi && 0 <= co < z.co
    ensures var c, a := O1(w, z), [n, i, j, x, y, co] + [k];
            && (InRange(EvalAll(c.right, a), m.dims) <==> 0 <= k < w.bi)
            && (0 <= k < w.bi ==>
                  LastTerm(c, ATensor(w), m, [n, i, j, x, y, co], k) == w.a(k, i) * m.at([n, k, j, x, y, co]))
  {
    var a := [n, i, j, x, y, co] + [k];
    EvalSix(0, 6, 2, 3, 4, 5, a);
    EvalTwo(6, 1, a);
    Two(k, i, w.bi, w.bo);
    Six(n, k, j, x, y, co, z.n, w.bi, w.bi, Blocks(z.xo, w), Blocks(z.yo, w), z.co);
  }

  lemma O1At(w: Triple, z: Sizes, m: Tensor, p: Matrix, n: int, i: int, j: int, x: int, y: int, co: int)
    requires m.dims == TileDims(w, z, w.bi, w.bi, z.co)
    requires OnTile(w, z, n, x, y) && 0 <= i < w.bo && 0 <= j < w.bi && 0 <= co < z.co
    requires forall k :: 0 <= k < w.bi ==> m.at([n, k, j, x, y, co]) == p(k, j)
    ensures Contract(O1(w, z), ATensor(w), m).at([n, i, j, x, y, co]) == Half(w, p, i)(j)
  {
    var c, cell := O1(w, z), [n, i, j, x, y, co];
    var term := HalfTerm(w, p, i, j);
    forall k ensures InRange(EvalAll(c.right, cell + [k]), m.dims) <==> 0 <= k < w.bi
      ensures 0 <= k < w.bi ==> term(k) == LastTerm(c, ATensor(w), m, cell, k)
    {
      O1Access(w, z, m, n, i, j, x, y, co, k);
    }
    PlainCell(c, ATensor(w), m, cell, w.bi, term);
  }

  lemma EvalBlock(bo: int, block: nat, within: nat, a: seq<int>)
    requires block < |a| && within < |a|
    ensures Eval(Add(Mul(bo, Var(block)), Var(within)), a) == bo * a[block] + a[within]
  {
    assert Eval(Mul(bo, Var(block)), a) == bo * a[block];
  }

  lemma EvalOutput(w: Triple, z: Sizes, a: seq<int>)
    requires |a| == 7
    ensures EvalAll(O(w, z).out, a) == [a[0], w.bo * a[3] + a[1], w.bo * a[4] + a[2], a[5]]
  {
    EvalBlock(w.bo, 3, 1, a);
    EvalBlock(w.bo, 4, 2, a);
  }

  lemma OAccess(w: Triple, z: Sizes, o1: Tensor, a: seq<int>)
    requires o1.dims == TileDims(w, z, w.bo, w.bi, z.co) && |a| == 7
    ensures InRange(EvalAll(O(w, z).right, a), ATensor(w).dims) <==> 0 <= a[6] < w.bi && 0 <= a[2] < w.bo
    ensures InRange(EvalAll(O(w, z).left, a), o1.dims) <==>
              OnTile(w, z, a[0], a[3], a[4]) && 0 <= a[1] < w.bo && 0 <= a[6] < w.bi && 0 <= a[5] < z.co
    ensures EvalAll(O(w, z).left, a) == [a[0], a[1], a[6], a[3], a[4], a[5]]
    ensures EvalAll(O(w, z).right, a) == [a[6], a[2]]
  {
    EvalSix(0, 1, 6, 3, 4, 5, a);
    EvalTwo(6, 2, a);
    Two(a[6], a[2], w.bi, w.bo);
    Six(a[0], a[1], a[6], a[3], a[4], a[5], z.n, w.bo, w.bi, Blocks(z.xo, w), Blocks(z.yo, w), z.co);
  }

  // Block and offset within the block are determined by the output position.
  lemma SameBlock(bo: int, x: int, i: int, x': int, i': int)
    requires 0 <= i < bo && 0 <= i' < bo && bo * x + i == bo * x' + i'
    ensures x == x' && i == i'
  {
    Layout.DivMod(x, i, bo);
    Layout.DivMod(x', i', bo);
  }

  lemma OReduced(w: Triple, z: Sizes, o1: Tensor, n: int, i: int, j: int, x: int, y: int, co: int)
    requires o1.dims == TileDims(w, z, w.bo, w.bi, z.co)
    requires OnTile(w, z, n, x, y) && 0 <= i < w.bo && 0 <= j < w.bo && 0 <= co < z.co
    ensures LastIsReduced(O(w, z), o1, ATensor(w), [n, w.bo * x + i, w.bo * y + j, co], [n, i, j, x, y, co], w.bi)
  {
    var fixed, cell := [n, i, j, x, y, co], [n, w.bo * x + i, w.bo * y + j, co];
    forall k | 0 <= k < w.bi
      ensures EvalAll(O(w, z).out, fixed + [k]) == cell && InRange(EvalAll(O(w, z).right, fixed + [k]), ATensor(w).dims)
    {
      EvalOutput(w, z, fixed + [k]);
      OAccess(w, z, o1, fixed + [k]);
    }
    forall a | Writes(O(w, z), o1, ATensor(w), cell, a) ensures a[..6] == fixed && 0 <= a[6] < w.bi {
      EvalOutput(w, z, a);
      OAccess(w, z, o1, a);
      assert cell[1] == w.bo * a[3] + a[1] && cell[2] == w.bo * a[4] + a[2];
      SameBlock(w.bo, a[3], a[1], x, i);
      SameBlock(w.bo, a[4], a[2], y, j);
    }
  }

  lemma OAt(w: Triple, z: Sizes, o1: Tensor, p: Matrix, n: int, i: int, j: int, x: int, y: int, co: int)
    requires o1.dims == TileDims(w, z, w.bo, w.bi, z.co)
    requires OnTile(w, z, n, x, y) && 0 <= i < w.bo && 0 <= j < w.bo && 0 <= co < z.co
    requires forall k :: 0 <= k < w.bi ==> o1.at([n, i, k, x, y, co]) == Half(w, p, i)(k)
    ensures Contract(O(w, z), o1, ATensor(w)).at([n, w.bo * x + i, w.bo * y + j, co]) == Inverse(w, p, i, j)
  {
    var fixed, cell := [n, i, j, x, y, co], [n, w.bo * x + i, w.bo * y + j, co];
    var term := InverseTerm(w, p, i, j);
    OReduced(w, z, o1, n, i, j, x, y, co);
    forall k | 0 <= k < w.bi ensures term(k) == LastTerm(O(w, z), o1, ATensor(w), fixed, k) {
      OAccess(w, z, o1, fixed + [k]);
    }
    OneReduced(O(w, z), o1, ATensor(w), cell, fixed, w.bi, term);
  }

  // ---------------------------------------------------------------------------------------------- the result

  lemma TileOf(out: int, position: int, w: Triple)
    requires w.bo > 0 && 0 <= position < out
    ensures 0 <= position / w.bo < Blocks(out, w) && 0 <= position % w.bo < w.bo
    ensures w.bo * (position / w.bo) + position % w.bo == position
  {
    var b := Blocks(out, w);
    assert w.bo * b + (out + w.bo - 1) % w.bo == out + w.bo - 1;
    Layout.QuotientBelow(position, b, w.bo);
  }

  // The inverse transforms of any products with the values of p on tile (x, y).
  lemma InverseOf(w: Triple, z: Sizes, m: Tensor, p: Matrix, n: int, i: int, j: int, x: int, y: int, co: int)
    requires m.dims == TileDims(w, z, w.bi, w.bi, z.co)
    requires OnTile(w, z, n, x, y) && 0 <= i < w.bo && 0 <= j < w.bo && 0 <= co < z.co
    requires forall k, l :: 0 <= k < w.bi && 0 <= l < w.bi ==> m.at([n, k, l, x, y, co]) == p(k, l)
    ensures Contract(O(w, z), Contract(O1(w, z), ATensor(w), m), ATensor(w)).at([n, w.bo * x + i, w.bo * y + j, co])
         == Inverse(w, p, i, j)
  {
    var o1 := Contract(O1(w, z), ATensor(w), m);
    forall l | 0 <= l < w.bi ensures o1.at([n, i, l, x, y, co]) == Half(w, p, i)(l) {
      O1At(w, z, m, p, n, i, l, x, y, co);
    }
    OAt(w, z, o1, p, n, i, j, x, y, co);
  }

  lemma ProgramOnTile(w: Triple, z: Sizes, data: Tensor, kernel: Tensor,
                      n: int, i: int, j: int, x: int, y: int, co: int)
    requires kernel.dims == [w.s, w.s, z.ci, z.co]
    requires OnTile(w, z, n, x, y) && 0 <= i < w.bo && 0 <= j < w.bo && 0 <= co < z.co
    ensures Program(w, z, data, kernel).at([n, w.bo * x + i, w.bo * y + j, co])
         == Inverse(w, Total(z.ci, TileProducts(w, z, data, kernel, n, x, y, co)), i, j)
  {
    var p := Total(z.ci, TileProducts(w, z, data, kernel, n, x, y, co));
    var m := MTensor(w, z, data, kernel);
    assert forall k, l :: 0 <= k < w.bi && 0 <= l < w.bi ==> m.at([n, k, l, x, y, co]) == p(k, l) by {
      forall k, l | 0 <= k < w.bi && 0 <= l < w.bi ensures m.at([n, k, l, x, y, co]) == p(k, l) {
        MAt(w, z, data, kernel, n, k, l, x, y, co);
      }
    }
    InverseOf(w, z, m, p, n, i, j, x, y, co);
  }

  // Every output cell is the inverse transform of its tile's total.
  lemma ProgramAt(w: Triple, z: Sizes, data: Tensor, kernel: Tensor, n: int, x: int, y: int, co: int)
    requires w.bo > 0 && kernel.dims == [w.s, w.s, z.ci, z.co]
    requires 0 <= n < z.n && 0 <= x < z.xo && 0 <= y < z.yo && 0 <= co < z.co
    ensures Program(w, z, data, kernel).at([n, x, y, co])
         == Inverse(w, Total(z.ci, TileProducts(w, z, data, kernel, n, x / w.bo, y / w.bo, co)), x % w.bo, y % w.bo)
  {
    var i, j, tx, ty := x % w.bo, y % w.bo, x / w.bo, y / w.bo;
    TileOf(z.xo, x, w);
    TileOf(z.yo, y, w);
    ProgramOnTile(w, z, data, kernel, n, i, j, tx, ty, co);
    assert [n, w.bo * tx + i, w.bo * ty + j, co] == [n, x, y, co];
  }

  // The same convolution, stated directly.
  function DirectSetup(w: Triple, z: Sizes): Setup {
    Setup(CHANNELS_LAST, CHANNELS_LAST, [1, 1], [1, 1], [z.xp, z.yp],
          z.n, z.ci, z.co, [z.x, z.y], [w.s, w.s], [z.xo, z.yo])
  }

  lemma TapAt(w: Triple, z: Sizes, data: Tensor, kernel: Tensor,
              n: int, x: int, y: int, co: int, ci: int, s: int, t: int)
    requires w.bo > 0
    ensures Tap(DirectSetup(w, z), data, kernel, n, co, [x, y])([ci, s, t])
         == Window(DataMatrix(w, z, data, n, x / w.bo, y / w.bo, ci), KernelMatrix(kernel, ci, co),
                   x % w.bo, y % w.bo)(s, t)
  {
    var p := DirectSetup(w, z);
    assert [ci, s, t][1..] == [s, t];
    assert Sample(p, [x, y], [s, t]) == [x + s - z.xp, y + t - z.yp];
    assert Arrange(p.data, [n], [ci], [x + s - z.xp, y + t - z.yp]) == [n, x + s - z.xp, y + t - z.yp, ci];
    assert Arrange(p.kernel, [], KernelChannels(p.kernel, co, ci), [s, t]) == [s, t, ci, co];
    assert w.bo * (x / w.bo) + x % w.bo == x && w.bo * (y / w.bo) + y % w.bo == y;
  }

  ghost function DirectTiles(w: Triple, z: Sizes, data: Tensor, kernel: Tensor, n: int, x: int, y: int, co: int): Vector
    requires w.bo > 0
  {
    ci => DirectTile(w, DataMatrix(w, z, data, n, x / w.bo, y / w.bo, ci), KernelMatrix(kernel, ci, co),
                     x % w.bo, y % w.bo)
  }

  lemma DirectTileRows(w: Triple, d: Matrix, g: Matrix, i: int, j: int, f: seq<int> -> real)
    requires forall s, t :: f([s, t]) == Window(d, g, i, j)(s, t)
    ensures Over(Box([w.s, w.s]), f) == DirectTile(w, d, g, i, j)
  {
    assert [w.s] + [w.s] == [w.s, w.s];
    forall s ensures WindowRows(w, d, g, i, j)(s) == Over(Box([w.s]), Tail(f, s)) {
      forall t ensures Row(Window(d, g, i, j), s)(t) == Tail(f, s)([t]) {
        assert [s] + [t] == [s, t];
      }
      BoxOfOne(w.s, Tail(f, s), Row(Window(d, g, i, j), s));
    }
    BoxByHead(w.s, [w.s], f, WindowRows(w, d, g, i, j));
  }

  lemma ConvolvedByChannel(w: Triple, z: Sizes, data: Tensor, kernel: Tensor, n: int, x: int, y: int, co: int)
    requires w.bo > 0
    ensures ConvolvedAt(DirectSetup(w, z), data, kernel, n, co, [x, y])
         == Sum(z.ci, DirectTiles(w, z, data, kernel, n, x, y, co))
  {
    var f := Tap(DirectSetup(w, z), data, kernel, n, co, [x, y]);
    forall ci ensures DirectTiles(w, z, data, kernel, n, x, y, co)(ci) == Over(Box([w.s, w.s]), Tail(f, ci)) {
      var d, g := DataMatrix(w, z, data, n, x / w.bo, y / w.bo, ci), KernelMatrix(kernel, ci, co);
      forall s, t ensures Tail(f, ci)([s, t]) == Window(d, g, x % w.bo, y % w.bo)(s, t) {
        assert [ci] + [s, t] == [ci, s, t];
        TapAt(w, z, data, kernel, n, x, y, co, ci, s, t);
      }
      DirectTileRows(w, d, g, x % w.bo, y % w.bo, Tail(f, ci));
    }
    BoxByHead(z.ci, [w.s, w.s], f, DirectTiles(w, z, data, kernel, n, x, y, co));
  }

  // For every triple that satisfies the one-dimensional identity the seven contractions compute the convolution: every
  // image size, channel count, padding, and block size, tiles that overhang the output included.
  lemma WinogradIsConvolution(w: Triple, z: Sizes, data: Tensor, kernel: Tensor, n: int, x: int, y: int, co: int)
    requires IsExact(w) && w.bo > 0 && kernel.dims == [w.s, w.s, z.ci, z.co]
    requires 0 <= n < z.n && 0 <= x < z.xo && 0 <= y < z.yo && 0 <= co < z.co
    ensures Program(w, z, data, kernel).at([n, x, y, co])
         == ConvolvedAt(DirectSetup(w, z), data, kernel, n, co, [x, y])
  {
    var i, j := x % w.bo, y % w.bo;
    var p := TileProducts(w, z, data, kernel, n, x / w.bo, y / w.bo, co);
    ProgramAt(w, z, data, kernel, n, x, y, co);
    InverseOfTotal(w, z.ci, p, i, j);
    forall ci ensures Inverses(w, p, i, j)(ci) == DirectTiles(w, z, data, kernel, n, x, y, co)(ci) {
      TileIsDirect(w, DataMatrix(w, z, data, n, x / w.bo, y / w.bo, ci), KernelMatrix(kernel, ci, co), i, j);
    }
    Congruent(z.ci, Inverses(w, p, i, j), DirectTiles(w, z, data, kernel, n, x, y, co));
    ConvolvedByChannel(w, z, data, kernel, n, x, y, co);
  }
}
