/**
 The part of TILE that the operation library emits: affine index expressions, and contractions that aggregate, for
 each output cell, over the index assignments whose accesses are all in range.
 */
module Contractions {
  import opened Boxes
  import opened Sums

  datatype Index = Var(v: nat) | Lit(c: int) | Add(l: Index, r: Index) | Sub(l: Index, r: Index) | Mul(c: int, e: Index)

  function Eval(e: Index, a: seq<int>): int {
    match e
    case Var(v) => if v < |a| then a[v] else 0
    case Lit(c) => c
    case Add(l, r) => Eval(l, a) + Eval(r, a)
    case Sub(l, r) => Eval(l, a) - Eval(r, a)
    case Mul(c, x) => c * Eval(x, a)
  }

  function EvalAll(es: seq<Index>, a: seq<int>): (idx: seq<int>)
    ensures |idx| == |es| && forall i :: 0 <= i < |es| ==> idx[i] == Eval(es[i], a)
  {
    seq(|es|, i requires 0 <= i < |es| => Eval(es[i], a))
  }

  // A tensor; `at` matters only within `dims`.
  datatype Tensor = Tensor(dims: seq<int>, at: seq<int> -> real)

  // Reading outside a tensor contributes nothing.
  function Read(t: Tensor, idx: seq<int>): real {
    if InRange(idx, t.dims) then t.at(idx) else 0.0
  }

  // O[out : dims] = +(left[leftIdx] * right[rightIdx]), over `vars` index variables.
  // The tensor with a single 1.
  function One(dims: seq<int>, place: seq<int>): Tensor {
    Tensor(dims, (idx: seq<int>) => if idx == place then 1.0 else 0.0)
  }

  datatype Contraction = Contraction(vars: nat, out: seq<Index>, dims: seq<int>, left: seq<Index>, right: seq<Index>)

  // An assignment that reads both inputs in range and writes `cell`.
  predicate Writes(c: Contraction, l: Tensor, r: Tensor, cell: seq<int>, a: seq<int>) {
    && |a| == c.vars && EvalAll(c.out, a) == cell
    && InRange(EvalAll(c.left, a), l.dims) && InRange(EvalAll(c.right, a), r.dims)
  }

  function Term(c: Contraction, l: Tensor, r: Tensor, a: seq<int>): real {
    l.at(EvalAll(c.left, a)) * r.at(EvalAll(c.right, a))
  }

  function Terms(c: Contraction, l: Tensor, r: Tensor): seq<int> -> real {
    a => Term(c, l, r, a)
  }

  ghost predicate AreWriters(c: Contraction, l: Tensor, r: Tensor, cell: seq<int>, s: set<seq<int>>) {
    forall a :: a in s <==> Writes(c, l, r, cell, a)
  }

  // The value of one cell.  A contraction whose indexes are not bounded by its accesses is not a TILE program.
  ghost function Cell(c: Contraction, l: Tensor, r: Tensor, cell: seq<int>): real {
    if s :| AreWriters(c, l, r, cell, s) then Over(s, Terms(c, l, r)) else 0.0
  }

  ghost function Contract(c: Contraction, l: Tensor, r: Tensor): Tensor {
    Tensor(c.dims, cell => Cell(c, l, r, cell))
  }

  lemma CellIs(c: Contraction, l: Tensor, r: Tensor, cell: seq<int>, s: set<seq<int>>)
    requires AreWriters(c, l, r, cell, s)
    ensures Cell(c, l, r, cell) == Over(s, Terms(c, l, r))
  {
    forall t | AreWriters(c, l, r, cell, t) ensures t == s {
    }
  }

  // ---------------------------------------------------------------------------------------------- transposition

  function Products(t: Tensor, u: Tensor): seq<int> -> real {
    idx => t.at(idx) * u.at(idx)
  }

  ghost function Inner(t: Tensor, u: Tensor): real {
    Over(Box(t.dims), Products(t, u))
  }

  // The contraction with its output and left input exchanged.
  function Transposed(c: Contraction, l: Tensor): Contraction {
    Contraction(c.vars, c.left, l.dims, c.out, c.right)
  }

  // An assignment for which all three accesses are in range.
  predicate Touches(c: Contraction, l: Tensor, r: Tensor, a: seq<int>) {
    && |a| == c.vars && InRange(EvalAll(c.out, a), c.dims)
    && InRange(EvalAll(c.left, a), l.dims) && InRange(EvalAll(c.right, a), r.dims)
  }

  ghost predicate AreTriples(c: Contraction, l: Tensor, r: Tensor, s: set<seq<int>>) {
    forall a :: a in s <==> Touches(c, l, r, a)
  }

  function Triples(c: Contraction, l: Tensor, r: Tensor, u: Tensor): seq<int> -> real {
    a => u.at(EvalAll(c.out, a)) * Term(c, l, r, a)
  }

  function Written(c: Contraction): seq<int> -> seq<int> {
    a => EvalAll(c.out, a)
  }

  lemma CellTimes(c: Contraction, l: Tensor, r: Tensor, u: Tensor, s: set<seq<int>>, cell: seq<int>)
    requires AreTriples(c, l, r, s) && InRange(cell, c.dims)
    ensures Cell(c, l, r, cell) * u.at(cell) == Over(Fibre(s, Written(c), cell), Triples(c, l, r, u))
  {
    var writers := Fibre(s, Written(c), cell);
    forall a ensures a in writers <==> Writes(c, l, r, cell, a) {
      assert a in writers <==> a in s && EvalAll(c.out, a) == cell;
      assert a in s <==> Touches(c, l, r, a);
    }
    CellIs(c, l, r, cell, writers);
    forall a | a in writers ensures Triples(c, l, r, u)(a) == u.at(cell) * Terms(c, l, r)(a) {
    }
    Scale(writers, u.at(cell), Terms(c, l, r), Triples(c, l, r, u));
  }

  lemma PairedOver(c: Contraction, l: Tensor, r: Tensor, u: Tensor, s: set<seq<int>>, cells: set<seq<int>>)
    requires AreTriples(c, l, r, s)
    requires forall cell :: cell in cells ==> InRange(cell, c.dims)
    requires forall a :: a in s ==> EvalAll(c.out, a) in cells
    ensures Over(cells, Products(Contract(c, l, r), u)) == Over(s, Triples(c, l, r, u))
  {
    var products := Products(Contract(c, l, r), u);
    forall cell | cell in cells ensures products(cell) == Over(Fibre(s, Written(c), cell), Triples(c, l, r, u)) {
      CellTimes(c, l, r, u, s, cell);
    }
    ByFibre(s, cells, Written(c), Triples(c, l, r, u), products);
  }

  // Pairing a contraction's output with a tensor sums the triple product over all assignments.
  lemma PairedOutput(c: Contraction, l: Tensor, r: Tensor, u: Tensor, s: set<seq<int>>)
    requires AreTriples(c, l, r, s)
    ensures Inner(Contract(c, l, r), u) == Over(s, Triples(c, l, r, u))
  {
    forall a | a in s ensures EvalAll(c.out, a) in Box(c.dims) {
      assert Touches(c, l, r, a);
    }
    PairedOver(c, l, r, u, s, Box(c.dims));
  }

  lemma TriplesSwap(c: Contraction, l: Tensor, r: Tensor, u: Tensor, a: seq<int>)
    ensures Triples(c, l, r, u)(a) == Triples(Transposed(c, l), u, r, l)(a)
  {
    var x, y, z := u.at(EvalAll(c.out, a)), l.at(EvalAll(c.left, a)), r.at(EvalAll(c.right, a));
    assert x * (y * z) == y * (x * z);
  }

  // <C(l, r), u> == <l, C'(u, r)> for every contraction C and its transposition C'.
  lemma Adjoint(c: Contraction, l: Tensor, r: Tensor, u: Tensor, s: set<seq<int>>)
    requires AreTriples(c, l, r, s) && u.dims == c.dims
    ensures Inner(Contract(c, l, r), u) == Inner(l, Contract(Transposed(c, l), u, r))
  {
    var d := Transposed(c, l);
    PairedOutput(c, l, r, u, s);
    PairedOutput(d, u, r, l, s);
    forall a ensures Triples(c, l, r, u)(a) == Triples(d, u, r, l)(a) {
      TriplesSwap(c, l, r, u, a);
    }
    Same(s, Triples(c, l, r, u), Triples(d, u, r, l));
    Same(Box(l.dims), Products(Contract(d, u, r), l), Products(l, Contract(d, u, r)));
  }

  // ---------------------------------------------------------------------------------------------- reading a cell

  // How a point of the box of free variables becomes an assignment, and back.
  datatype Frame = Frame(free: seq<int>, build: seq<int> -> seq<int>, take: seq<int> -> seq<int>)

  // The frame lists exactly the assignments that write `cell` and read `r` in range.
  ghost predicate Frames(f: Frame, c: Contraction, r: Tensor, cell: seq<int>) {
    && (forall t :: InRange(t, f.free) ==> Framed(f, c, r, cell, t))
    && (forall a :: |a| == c.vars && EvalAll(c.out, a) == cell && InRange(EvalAll(c.right, a), r.dims) ==>
          InRange(f.take(a), f.free) && f.build(f.take(a)) == a)
  }

  predicate Framed(f: Frame, c: Contraction, r: Tensor, cell: seq<int>, t: seq<int>) {
    var a := f.build(t);
    |a| == c.vars && EvalAll(c.out, a) == cell && f.take(a) == t && InRange(EvalAll(c.right, a), r.dims)
  }

  // The product at a point of the box, with the left input extended by zero.
  function Extended(f: Frame, c: Contraction, l: Tensor, r: Tensor): seq<int> -> real {
    t => Read(l, EvalAll(c.left, f.build(t))) * r.at(EvalAll(c.right, f.build(t)))
  }

  lemma ExtendedInside(f: Frame, c: Contraction, l: Tensor, r: Tensor, t: seq<int>)
    ensures Extended(f, c, l, r)(t) ==
              if InRange(EvalAll(c.left, f.build(t)), l.dims) then Terms(c, l, r)(f.build(t)) else 0.0
  {
  }

  lemma FrameSum(f: Frame, c: Contraction, l: Tensor, r: Tensor, box: set<seq<int>>, inside: set<seq<int>>)
    requires inside <= box
    requires forall t :: t in box ==> (t in inside <==> InRange(EvalAll(c.left, f.build(t)), l.dims))
    requires forall t :: t in inside ==> f.take(f.build(t)) == t
    ensures Over(box, Extended(f, c, l, r)) == Over(Image(inside, f.build), Terms(c, l, r))
  {
    var g := Extended(f, c, l, r);
    forall t | t in box ensures t in inside ==> g(t) == Terms(c, l, r)(f.build(t))
      ensures t !in inside ==> g(t) == 0.0
    {
      ExtendedInside(f, c, l, r, t);
    }
    Support(box, inside, g);
    RenameImage(inside, f.build, f.take, g, Terms(c, l, r));
  }

  // A cell is the sum over the whole box of its free variables.
  lemma CellAsBox(f: Frame, c: Contraction, l: Tensor, r: Tensor, cell: seq<int>)
    requires Frames(f, c, r, cell)
    ensures Cell(c, l, r, cell) == Over(Box(f.free), Extended(f, c, l, r))
  {
    var inside := set t | t in Box(f.free) && InRange(EvalAll(c.left, f.build(t)), l.dims);
    var writers := Image(inside, f.build);
    CellIs(c, l, r, cell, writers);
    forall t | t in inside ensures f.take(f.build(t)) == t {
      assert Framed(f, c, r, cell, t);
    }
    FrameSum(f, c, l, r, Box(f.free), inside);
  }

  // ---------------------------------------------------------------------------------------------- maximum

  // O[out : dims] = >(left[leftIdx] * right[rightIdx])
  ghost predicate IsLargest(c: Contraction, l: Tensor, r: Tensor, cell: seq<int>, v: real) {
    && (exists a :: Writes(c, l, r, cell, a) && Term(c, l, r, a) == v)
    && (forall a :: Writes(c, l, r, cell, a) ==> Term(c, l, r, a) <= v)
  }

  ghost function LargestAt(c: Contraction, l: Tensor, r: Tensor, cell: seq<int>): real {
    if v :| IsLargest(c, l, r, cell, v) then v else 0.0
  }

  lemma {:induction false} LargestOf(s: set<seq<int>>, f: seq<int> -> real) returns (best: seq<int>)
    requires s != {}
    ensures best in s && forall a :: a in s ==> f(a) <= f(best)
    decreases |s|
  {
    var x :| x in s;
    if s - {x} == {} {
      best := x;
      assert forall a :: a in s ==> a == x || a in s - {x};
    } else {
      var rest := LargestOf(s - {x}, f);
      best := if f(x) <= f(rest) then rest else x;
    }
  }

  // With finitely many writers and at least one, the largest term is the value.
  lemma LargestExists(c: Contraction, l: Tensor, r: Tensor, cell: seq<int>, s: set<seq<int>>)
    requires AreWriters(c, l, r, cell, s) && s != {}
    ensures IsLargest(c, l, r, cell, LargestAt(c, l, r, cell))
  {
    var best := LargestOf(s, Terms(c, l, r));
    assert Writes(c, l, r, cell, best);
    forall a | Writes(c, l, r, cell, a) ensures Term(c, l, r, a) <= Term(c, l, r, best) {
      assert a in s;
    }
    assert IsLargest(c, l, r, cell, Term(c, l, r, best));
  }

  // ---------------------------------------------------------------------------------------------- assignment

  // O[out : dims] = =(from[fromIdx]), over `vars` index variables.
  datatype Copy = Copy(vars: nat, out: seq<Index>, dims: seq<int>, fromIdx: seq<Index>)

  predicate Copies(c: Copy, from: Tensor, cell: seq<int>, a: seq<int>) {
    |a| == c.vars && EvalAll(c.out, a) == cell && InRange(EvalAll(c.fromIdx, a), from.dims)
  }

  // The aggregation allows one writer for each cell; a cell without one is zero.
  ghost function CopiedAt(c: Copy, from: Tensor, cell: seq<int>): real {
    if a :| Copies(c, from, cell, a) then from.at(EvalAll(c.fromIdx, a)) else 0.0
  }

  ghost function Copied(c: Copy, from: Tensor): Tensor {
    Tensor(c.dims, cell => CopiedAt(c, from, cell))
  }

  lemma CopiedFrom(c: Copy, from: Tensor, cell: seq<int>, a: seq<int>)
    requires Copies(c, from, cell, a) && forall b :: Copies(c, from, cell, b) ==> b == a
    ensures Copied(c, from).at(cell) == from.at(EvalAll(c.fromIdx, a))
  {
  }

  lemma NotCopied(c: Copy, from: Tensor, cell: seq<int>)
    requires forall a :: !Copies(c, from, cell, a)
    ensures Copied(c, from).at(cell) == 0.0
  {
  }
}
