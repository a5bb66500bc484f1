/** `Concatenate` (plaidml/op.py:1097-1181): shifted copies of the inputs, added up. */
module Concatenation {
  import opened Wrappers
  import opened Boxes
  import opened Contractions
  import opened Convolutions

  // A size that is a number, or one that only the run time knows.
  datatype Size = Known(n: nat) | Symbolic

  datatype ConcatError = NoTensors | BadAxis | Incompatible | IndexError

  // The axis along which to concatenate and the offset of every input, and their total at the end.
  datatype Plan = Plan(axis: nat, offsets: seq<int>)

  // ---------------------------------------------------------------------------------------------- planning

  function NormalAxis(rank: nat, axis: int): (r: Option<nat>)
    ensures r.Some? <==> 0 <= axis + rank && axis < rank
    ensures r.Some? ==> r.value < rank && (r.value == axis || r.value == axis + rank)
  {
    if axis >= rank || axis + rank < 0 then None
    else if axis < 0 then Some(axis % rank)
    else Some(axis)
  }

  // __clear_axis, with sizes that are not numbers left open.
  function ClearAxis(dims: seq<Size>, axis: nat): seq<Size> {
    if axis < |dims| then dims[..axis] + dims[axis + 1..] else dims
  }

  // The sum of the first n sizes along the axis.
  function Offset(shapes: seq<seq<Size>>, axis: nat, n: nat): int
    requires n <= |shapes|
    decreases n
  {
    if n == 0 then 0
    else
      Offset(shapes, axis, n - 1)
      + if axis < |shapes[n - 1]| && shapes[n - 1][axis].Known? then shapes[n - 1][axis].n else 0
  }

  predicate Compatible(shapes: seq<seq<Size>>, axis: nat)
    requires shapes != []
  {
    forall i :: 0 <= i < |shapes| ==> ClearAxis(shapes[i], axis) == ClearAxis(shapes[0], axis)
  }

  predicate HasAxis(shapes: seq<seq<Size>>, axis: nat) {
    forall i :: 0 <= i < |shapes| ==> axis < |shapes[i]|
  }

  // A size along the axis that is not a number is outside the model.
  predicate NumbersAlong(shapes: seq<seq<Size>>, axis: nat) {
    forall i :: 0 <= i < |shapes| ==> axis < |shapes[i]| ==> shapes[i][axis].Known?
  }

  method CheckTemplates(shapes: seq<seq<Size>>, axis: nat) returns (ok: bool)
    requires shapes != []
    ensures ok <==> Compatible(shapes, axis)
  {
    var template := ClearAxis(shapes[0], axis);
    for i := 0 to |shapes|
      invariant forall j :: 0 <= j < i ==> ClearAxis(shapes[j], axis) == template
    {
      if ClearAxis(shapes[i], axis) != template {
        return false;
      }
    }
    return true;
  }

  method ComputeOffsets(shapes: seq<seq<Size>>, axis: nat) returns (r: Option<seq<int>>)
    requires NumbersAlong(shapes, axis)
    ensures r.Some? <==> HasAxis(shapes, axis)
    ensures r.Some? ==>
              && |r.value| == |shapes| + 1
              && forall i :: 0 <= i <= |shapes| ==> r.value[i] == Offset(shapes, axis, i)
  {
    var offsets := [0];
    for i := 0 to |shapes|
      invariant |offsets| == i + 1
      invariant forall j :: 0 <= j < i ==> axis < |shapes[j]|
      invariant forall j :: 0 <= j <= i ==> offsets[j] == Offset(shapes, axis, j)
    {
      if |shapes[i]| <= axis {
        return None;
      }
      offsets := offsets + [offsets[i] + shapes[i][axis].n];
    }
    return Some(offsets);
  }

  // A vector of 4 passes the check against a 4 x 5 matrix along axis 1, which it does not have.
  lemma LowerRankPasses()
    ensures var shapes := [[Size.Known(4), Size.Known(5)], [Size.Known(4)]];
            NormalAxis(2, 1) == Some(1) && NumbersAlong(shapes, 1) && Compatible(shapes, 1) && !HasAxis(shapes, 1)
  {
    var shapes := [[Size.Known(4), Size.Known(5)], [Size.Known(4)]];
    assert ClearAxis(shapes[0], 1) == [Size.Known(4)];
    assert |shapes[1]| == 1;
  }

  // The compatibility check lets a shape of lower rank through when it agrees with the others off the axis; it is the
  // offsets that fail then.
  method MakePlan(shapes: seq<seq<Size>>, axis: int) returns (r: Result<Plan, ConcatError>)
    requires shapes != [] && NormalAxis(|shapes[0]|, axis).Some? ==>
               NumbersAlong(shapes, NormalAxis(|shapes[0]|, axis).value)
    ensures r == Err(NoTensors) <==> shapes == []
    ensures r == Err(BadAxis) <==> shapes != [] && !(-|shapes[0]| <= axis < |shapes[0]|)
    ensures r == Err(Incompatible) ==>
              NormalAxis(|shapes[0]|, axis).Some? && !Compatible(shapes, NormalAxis(|shapes[0]|, axis).value)
    ensures r == Err(IndexError) ==>
              var a := NormalAxis(|shapes[0]|, axis);
              a.Some? && Compatible(shapes, a.value) && !HasAxis(shapes, a.value)
    ensures r.Ok? ==>
              var a := NormalAxis(|shapes[0]|, axis);
              && a == Some(r.value.axis) && Compatible(shapes, a.value) && HasAxis(shapes, a.value)
              && |r.value.offsets| == |shapes| + 1
              && forall i :: 0 <= i <= |shapes| ==> r.value.offsets[i] == Offset(shapes, a.value, i)
  {
    if shapes == [] {
      return Err(NoTensors);
    }
    var rank := |shapes[0]|;
    if axis >= rank || axis < -rank {
      return Err(BadAxis);
    }
    var normal := if axis < 0 then axis % rank else axis;
    var compatible := CheckTemplates(shapes, normal);
    if !compatible {
      return Err(Incompatible);
    }
    var offsets := ComputeOffsets(shapes, normal);
    if offsets.None? {
      return Err(IndexError);
    }
    return Ok(Plan(normal, offsets.value));
  }

  // ---------------------------------------------------------------------------------------------- the program

  // T{i}[.., a + off, .. : odims] = =(I{i}[.., a, ..])
  function ShiftedCopy(rank: nat, axis: nat, offset: int, dims: seq<int>): Copy
    requires axis < rank
  {
    Copy(rank, Vars(0, rank)[axis := Add(Var(axis), Lit(offset))], dims, Vars(0, rank))
  }

  // T0 + T1 + ..
  ghost function Added(inputs: seq<Tensor>, p: Plan, dims: seq<int>, n: nat, cell: seq<int>): real
    requires n <= |inputs| && |p.offsets| == |inputs| + 1 && p.axis < |dims|
  {
    if n == 0 then 0.0
    else
      Added(inputs, p, dims, n - 1, cell)
      + Copied(ShiftedCopy(|dims|, p.axis, p.offsets[n - 1], dims), inputs[n - 1]).at(cell)
  }

  ghost function Concatenated(inputs: seq<Tensor>, p: Plan, dims: seq<int>): Tensor
    requires |p.offsets| == |inputs| + 1 && p.axis < |dims|
  {
    Tensor(dims, cell => Added(inputs, p, dims, |inputs|, cell))
  }

  // The tensors at run time: all sizes are numbers, they agree off the axis, and the plan is theirs.
  predicate Fit(inputs: seq<Tensor>, p: Plan, dims: seq<int>) {
    && |p.offsets| == |inputs| + 1 && p.offsets[0] == 0
    && p.axis < |dims| && dims[p.axis] == p.offsets[|inputs|]
    && forall i :: 0 <= i < |inputs| ==> Matches(inputs[i], p, dims, i)
  }

  predicate Matches(input: Tensor, p: Plan, dims: seq<int>, i: nat)
    requires p.axis < |dims| && i + 1 < |p.offsets|
  {
    && |input.dims| == |dims|
    && input.dims[p.axis] >= 0
    && p.offsets[i + 1] == p.offsets[i] + input.dims[p.axis]
    && input.dims == dims[p.axis := input.dims[p.axis]]
  }

  predicate Owns(p: Plan, i: nat, x: int)
    requires i + 1 < |p.offsets|
  {
    p.offsets[i] <= x < p.offsets[i + 1]
  }

  // The element of input i that lands at a cell.
  function Within(p: Plan, i: nat, cell: seq<int>): (v: seq<int>)
    requires p.axis < |cell| && i < |p.offsets|
    ensures |v| == |cell|
  {
    cell[p.axis := cell[p.axis] - p.offsets[i]]
  }

  lemma EvalShifted(rank: nat, axis: nat, offset: int, dims: seq<int>, a: seq<int>)
    requires axis < rank == |a|
    ensures EvalAll(ShiftedCopy(rank, axis, offset, dims).out, a) == a[axis := a[axis] + offset]
    ensures EvalAll(ShiftedCopy(rank, axis, offset, dims).fromIdx, a) == a
  {
    var c := ShiftedCopy(rank, axis, offset, dims);
    EvalVars(0, rank, a);
    assert Eval(Add(Var(axis), Lit(offset)), a) == a[axis] + offset;
    forall j | 0 <= j < rank ensures EvalAll(c.out, a)[j] == a[axis := a[axis] + offset][j] {
      assert EvalAll(c.out, a)[j] == Eval(c.out[j], a);
      if j != axis {
        assert c.out[j] == Vars(0, rank)[j] == Var(j);
      }
    }
  }

  // Each copy writes its own range of the axis and nothing else.
  lemma CopyAt(inputs: seq<Tensor>, p: Plan, dims: seq<int>, i: nat, cell: seq<int>)
    requires Fit(inputs, p, dims) && i < |inputs| && InRange(cell, dims)
    ensures Copied(ShiftedCopy(|dims|, p.axis, p.offsets[i], dims), inputs[i]).at(cell) ==
              if Owns(p, i, cell[p.axis]) then inputs[i].at(Within(p, i, cell)) else 0.0
  {
    var c := ShiftedCopy(|dims|, p.axis, p.offsets[i], dims);
    var v := Within(p, i, cell);
    assert Matches(inputs[i], p, dims, i);
    EvalShifted(|dims|, p.axis, p.offsets[i], dims, v);
    assert EvalAll(c.out, v) == cell;
    forall b | Copies(c, inputs[i], cell, b) ensures b == v && Owns(p, i, cell[p.axis]) {
      EvalShifted(|dims|, p.axis, p.offsets[i], dims, b);
      assert b == cell[p.axis := b[p.axis]];
    }
    if Owns(p, i, cell[p.axis]) {
      assert InRange(v, inputs[i].dims);
      CopiedFrom(c, inputs[i], cell, v);
    } else {
      NotCopied(c, inputs[i], cell);
    }
  }

  // The offsets never decrease.
  lemma {:induction false} OffsetsAscend(inputs: seq<Tensor>, p: Plan, dims: seq<int>, i: nat, j: nat)
    requires Fit(inputs, p, dims) && i <= j <= |inputs|
    ensures p.offsets[i] <= p.offsets[j]
    decreases j - i
  {
    if i < j {
      assert Matches(inputs[i], p, dims, i);
      OffsetsAscend(inputs, p, dims, i + 1, j);
    }
  }

  // Every position of the output axis belongs to exactly one input.
  lemma {:induction false} OwnerUpTo(inputs: seq<Tensor>, p: Plan, dims: seq<int>, n: nat, x: int)
    returns (i: nat)
    requires Fit(inputs, p, dims) && n <= |inputs| && 0 <= x < p.offsets[n]
    ensures i < n && Owns(p, i, x)
  {
    if x >= p.offsets[n - 1] {
      i := n - 1;
    } else {
      i := OwnerUpTo(inputs, p, dims, n - 1, x);
    }
  }

  lemma OneOwner(inputs: seq<Tensor>, p: Plan, dims: seq<int>, i: nat, j: nat, x: int)
    requires Fit(inputs, p, dims) && i < |inputs| && j < |inputs| && Owns(p, i, x) && Owns(p, j, x)
    ensures i == j
  {
    if i < j {
      OffsetsAscend(inputs, p, dims, i + 1, j);
    } else if j < i {
      OffsetsAscend(inputs, p, dims, j + 1, i);
    }
  }

  lemma {:induction false} AddedIs(inputs: seq<Tensor>, p: Plan, dims: seq<int>, n: nat, i: nat, cell: seq<int>)
    requires Fit(inputs, p, dims) && n <= |inputs| && i < |inputs| && InRange(cell, dims) && Owns(p, i, cell[p.axis])
    ensures Added(inputs, p, dims, n, cell) == if i < n then inputs[i].at(Within(p, i, cell)) else 0.0
  {
    if n > 0 {
      AddedIs(inputs, p, dims, n - 1, i, cell);
      CopyAt(inputs, p, dims, n - 1, cell);
      if i != n - 1 && Owns(p, n - 1, cell[p.axis]) {
        OneOwner(inputs, p, dims, i, n - 1, cell[p.axis]);
        assert false;
      }
    }
  }

  ghost predicate TakenFrom(inputs: seq<Tensor>, p: Plan, out: Tensor, i: nat, cell: seq<int>)
    requires i < |inputs| && i + 1 < |p.offsets| && p.axis < |cell|
  {
    && Owns(p, i, cell[p.axis]) && InRange(Within(p, i, cell), inputs[i].dims)
    && out.at(cell) == inputs[i].at(Within(p, i, cell))
  }

  // Each output cell is one element of exactly one input, at the cell's position less the input's offset.
  lemma ConcatenatesTheInputs(inputs: seq<Tensor>, p: Plan, dims: seq<int>, cell: seq<int>)
    requires Fit(inputs, p, dims) && InRange(cell, dims)
    ensures exists i: nat :: i < |inputs| && TakenFrom(inputs, p, Concatenated(inputs, p, dims), i, cell)
    ensures forall i: nat, j: nat ::
              i < |inputs| && j < |inputs| && Owns(p, i, cell[p.axis]) && Owns(p, j, cell[p.axis]) ==> i == j
  {
    var i := OwnerUpTo(inputs, p, dims, |inputs|, cell[p.axis]);
    AddedIs(inputs, p, dims, |inputs|, i, cell);
    assert Matches(inputs[i], p, dims, i);
    assert TakenFrom(inputs, p, Concatenated(inputs, p, dims), i, cell);
    forall j: nat, k: nat | j < |inputs| && k < |inputs| && Owns(p, j, cell[p.axis]) && Owns(p, k, cell[p.axis])
      ensures j == k
    {
      OneOwner(inputs, p, dims, j, k, cell[p.axis]);
    }
  }

  // And no element of any input is lost.
  lemma EveryElementAppears(inputs: seq<Tensor>, p: Plan, dims: seq<int>, i: nat, v: seq<int>)
    requires Fit(inputs, p, dims) && i < |inputs| && InRange(v, inputs[i].dims)
    ensures p.axis < |v|
    ensures var cell := v[p.axis := v[p.axis] + p.offsets[i]];
            InRange(cell, dims) && Concatenated(inputs, p, dims).at(cell) == inputs[i].at(v)
  {
    assert Matches(inputs[i], p, dims, i);
    OffsetsAscend(inputs, p, dims, 0, i);
    OffsetsAscend(inputs, p, dims, i + 1, |inputs|);
    var cell := v[p.axis := v[p.axis] + p.offsets[i]];
    assert Within(p, i, cell) == v;
    AddedIs(inputs, p, dims, |inputs|, i, cell);
  }

  // ---------------------------------------------------------------------------------------------- plans fit

  predicate NoNegatives(dims: seq<int>) {
    forall i :: 0 <= i < |dims| ==> dims[i] >= 0
  }

  function Known(dims: seq<int>): (s: seq<Size>)
    requires NoNegatives(dims)
    ensures |s| == |dims| && forall i :: 0 <= i < |dims| ==> s[i] == Size.Known(dims[i])
  {
    seq(|dims|, i requires 0 <= i < |dims| => Size.Known(dims[i]))
  }

  lemma SameOffAxis(d: seq<int>, e: seq<int>, axis: nat)
    requires NoNegatives(d) && NoNegatives(e) && axis < |d| && axis < |e|
    requires ClearAxis(Known(d), axis) == ClearAxis(Known(e), axis)
    ensures |d| == |e| && d == e[axis := d[axis]]
  {
    var c, c' := ClearAxis(Known(d), axis), ClearAxis(Known(e), axis);
    assert |c| == |d| - 1 && |c'| == |e| - 1;
    forall i | 0 <= i < |d| && i != axis ensures d[i] == e[i] {
      var k := if i < axis then i else i - 1;
      assert c[k] == Size.Known(d[i]) && c'[k] == Size.Known(e[i]);
    }
  }

  // Shapes that pass the checks give a plan under which the program above concatenates.
  lemma PlansFit(inputs: seq<Tensor>, shapes: seq<seq<Size>>, p: Plan)
    requires inputs != [] && |shapes| == |inputs|
    requires forall i :: 0 <= i < |inputs| ==> NoNegatives(inputs[i].dims) && shapes[i] == Known(inputs[i].dims)
    requires Compatible(shapes, p.axis) && HasAxis(shapes, p.axis) && |p.offsets| == |shapes| + 1
    requires forall i :: 0 <= i <= |shapes| ==> p.offsets[i] == Offset(shapes, p.axis, i)
    ensures p.axis < |inputs[0].dims|
    ensures Fit(inputs, p, inputs[0].dims[p.axis := p.offsets[|inputs|]])
  {
    assert p.axis < |shapes[0]|;
    var dims := inputs[0].dims[p.axis := p.offsets[|inputs|]];
    forall i | 0 <= i < |inputs| ensures Matches(inputs[i], p, dims, i) {
      assert p.axis < |shapes[i]| && ClearAxis(shapes[i], p.axis) == ClearAxis(shapes[0], p.axis);
      SameOffAxis(inputs[i].dims, inputs[0].dims, p.axis);
      assert p.offsets[i + 1] == Offset(shapes, p.axis, i + 1);
      assert shapes[i][p.axis] == Size.Known(inputs[i].dims[p.axis]);
    }
  }
}
