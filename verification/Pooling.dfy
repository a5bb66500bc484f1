/** Pooling (plaidml/op.py:2066-2180) and the padding lists it accepts (plaidml/op.py:82-100). */
module Pooling {
  import opened Wrappers
  import opened Boxes
  import opened BoxSums
  import opened Sums
  import opened Contractions
  import opened Convolutions
  import Padding

  // ---------------------------------------------------------------------------------------------- explicit pads

  // The padding a list stands for: missing leading pads are zero and missing trailing pads repeat the leading ones.
  function PadAt(pads: seq<int>, rank: nat, i: nat): int
    requires i < 2 * rank
  {
    if i < |pads| then pads[i]
    else if i < rank then 0
    else if i - rank < |pads| then pads[i - rank]
    else 0
  }

  // _extend_pads
  method ExtendPads(pads: Option<seq<int>>, rank: nat) returns (r: Option<seq<int>>)
    ensures r.None? <==> pads.None?
    ensures r.Some? ==> |r.value| == if |pads.value| >= 2 * rank then |pads.value| else 2 * rank
    ensures r.Some? ==> pads.value <= r.value
    ensures r.Some? ==> forall i :: |pads.value| <= i < 2 * rank ==>
              r.value[i] == if i < rank then 0 else r.value[i - rank]
    ensures r.Some? ==> forall i :: 0 <= i < 2 * rank ==> r.value[i] == PadAt(pads.value, rank, i)
  {
    if pads.None? {
      return None;
    }
    var list := pads.value;
    if |list| < rank {
      list := list + seq(rank - |list|, _ => 0);
    }
    if |list| < 2 * rank {
      list := list + list[|list| - rank..rank];
    }
    return Some(list);
  }

  // ---------------------------------------------------------------------------------------------- plan

  datatype PoolSetup = PoolSetup(
    data: Format, strides: seq<int>, before: seq<int>,
    n: int, c: int, input: seq<int>, filter: seq<int>, output: seq<int>)
  {
    function Rank(): nat { |filter| }

    predicate Valid() {
      |strides| == |before| == |input| == |output| == |filter|
    }
  }

  datatype PoolError = WrongStrides | KernelTooShort | BadAxis(error: Padding.PadError)

  datatype Options = Options(
    kernel: seq<int>, strides: seq<int>, pads: Option<seq<int>>, padding: Padding.AutoPadding, data: Format)

  function AxisPads(pads: Option<seq<int>>, rank: nat, i: nat): Option<(int, int)>
    requires i < rank
  {
    if pads.None? then None else Some((PadAt(pads.value, rank, i), PadAt(pads.value, rank, i + rank)))
  }

  function StrideAt(o: Options, i: nat): int
    requires o.strides == [] || i < |o.strides|
  {
    if o.strides == [] then 1 else o.strides[i]
  }

  function AxisOf(input: seq<int>, o: Options, i: nat): Result<Padding.Axis, PoolError>
    requires i < |input| && (o.strides == [] || |o.strides| == |input|)
  {
    if |o.kernel| <= i then Err(KernelTooShort)
    else
      match Padding.PadCompute(input[i], o.kernel[i], StrideAt(o, i), o.padding, AxisPads(o.pads, |input|, i))
      case Err(e) => Err(BadAxis(e))
      case Ok(axis) => Ok(axis)
  }

  function DataSpatial(f: Format, dims: seq<int>): (s: seq<int>)
    requires |dims| >= 2
    ensures |s| == |dims| - 2
  {
    if f == CHANNELS_FIRST then dims[2..] else dims[1..|dims| - 1]
  }

  function DataChannel(f: Format, dims: seq<int>): int
    requires |dims| >= 2
  {
    if f == CHANNELS_FIRST then dims[1] else dims[|dims| - 1]
  }

  predicate AxisPlanned(p: PoolSetup, o: Options, i: nat)
    requires p.Valid() && i < |p.input| && (o.strides == [] || |o.strides| == |p.input|)
  {
    var axis := AxisOf(p.input, o, i);
    && axis.Ok? && p.output[i] == axis.value.out && p.before[i] == Padding.Before(axis.value, p.input[i])
    && p.strides[i] == StrideAt(o, i) && p.filter[i] == o.kernel[i]
  }

  predicate Planned(p: PoolSetup, dims: seq<int>, o: Options)
    requires |dims| >= 2
  {
    && p.Valid() && p.data == o.data && p.n == dims[0] && p.c == DataChannel(o.data, dims)
    && p.input == DataSpatial(o.data, dims) && (o.strides == [] || |o.strides| == |p.input|)
    && forall i :: 0 <= i < |p.input| ==> AxisPlanned(p, o, i)
  }

  // A list of pads puts its i-th element in front of axis i, and as many windows on it as fit with element i + rank
  // behind.
  predicate AxisPadded(p: PoolSetup, pads: seq<int>, i: nat)
    requires p.Valid()
  {
    && i < p.Rank() && p.before[i] == PadAt(pads, p.Rank(), i)
    && (p.strides[i] > 0 ==>
          var room := PadAt(pads, p.Rank(), i) + p.input[i] + PadAt(pads, p.Rank(), i + p.Rank());
          && (p.output[i] > 0 ==> p.strides[i] * (p.output[i] - 1) + p.filter[i] <= room)
          && p.strides[i] * p.output[i] + p.filter[i] > room)
  }

  lemma PlannedIsPadded(p: PoolSetup, dims: seq<int>, o: Options)
    requires |dims| >= 2 && Planned(p, dims, o)
    ensures o.pads.Some? ==> forall i :: 0 <= i < |dims| - 2 ==> AxisPadded(p, o.pads.value, i)
  {
    if o.pads.Some? {
      forall i | 0 <= i < |dims| - 2 ensures AxisPadded(p, o.pads.value, i) {
        AxisIsPadded(p, dims, o, i);
      }
    }
  }

  lemma AxisIsPadded(p: PoolSetup, dims: seq<int>, o: Options, i: nat)
    requires |dims| >= 2 && Planned(p, dims, o) && o.pads.Some? && i < p.Rank()
    ensures AxisPadded(p, o.pads.value, i)
  {
    assert AxisPlanned(p, o, i);
    if p.strides[i] > 0 {
      var pads := AxisPads(o.pads, p.Rank(), i);
      Padding.WindowsInRoom(p.input[i], p.filter[i], p.strides[i], o.padding, pads);
    }
  }

  // The numbers of a pooling operation, or the first thing wrong with its arguments.
  method Plan(dims: seq<int>, o: Options) returns (r: Result<PoolSetup, PoolError>)
    requires |dims| >= 2
    ensures r.Ok? ==> Planned(r.value, dims, o)
    ensures r.Ok? && o.pads.Some? ==> forall i :: 0 <= i < |dims| - 2 ==> AxisPadded(r.value, o.pads.value, i)
    ensures r == Err(WrongStrides) <==> o.strides != [] && |o.strides| != |dims| - 2
    ensures r.Err? && r.error != WrongStrides ==>
              exists i :: 0 <= i < |dims| - 2 && AxisOf(DataSpatial(o.data, dims), o, i) == Err(r.error)
                          && forall j :: 0 <= j < i ==> AxisOf(DataSpatial(o.data, dims), o, j).Ok?
  {
    var rank := |dims| - 2;
    var pads := ExtendPads(o.pads, rank);
    var strides := o.strides;
    if strides == [] {
      strides := seq(rank, _ => 1);
    } else if |strides| != rank {
      return Err(WrongStrides);
    }
    var input := DataSpatial(o.data, dims);
    var outs, befores := [], [];
    for i := 0 to rank
      invariant |outs| == |befores| == i
      invariant forall j :: 0 <= j < i ==> AxisOf(input, o, j).Ok?
      invariant forall j :: 0 <= j < i ==> outs[j] == AxisOf(input, o, j).value.out
      invariant forall j :: 0 <= j < i ==> befores[j] == Padding.Before(AxisOf(input, o, j).value, input[j])
    {
      if |o.kernel| <= i {
        assert AxisOf(input, o, i) == Err(KernelTooShort);
        return Err(KernelTooShort);
      }
      var axisPads := None;
      if pads.Some? {
        axisPads := Some((pads.value[i], pads.value[i + rank]));
      }
      assert axisPads == AxisPads(o.pads, rank, i) && strides[i] == StrideAt(o, i);
      var axis := Padding.PadCompute(input[i], o.kernel[i], strides[i], o.padding, axisPads);
      if axis.Err? {
        assert AxisOf(input, o, i) == Err(BadAxis(axis.error));
        return Err(BadAxis(axis.error));
      }
      outs := outs + [axis.value.out];
      befores := befores + [Padding.Before(axis.value, input[i])];
    }
    var filter := if |o.kernel| >= rank then o.kernel[..rank] else o.kernel;
    assert rank > 0 ==> AxisOf(input, o, rank - 1).Ok?;
    r := Ok(PoolSetup(o.data, strides, befores, dims[0], DataChannel(o.data, dims), input, filter, outs));
    PlannedIsPadded(r.value, dims, o);
  }

  // ---------------------------------------------------------------------------------------------- the contraction

  function DataDims(p: PoolSetup): seq<int> { Arrange(p.data, [p.n], [p.c], p.input) }

  function OutDims(p: PoolSetup): seq<int> { Arrange(p.data, [p.n], [p.c], p.output) }

  // '{stride}*x{idx} + k{idx} - Pad{idx}'
  function PoolIdx(p: PoolSetup, x: nat, k: nat): (s: seq<Index>)
    requires p.Valid()
    ensures |s| == p.Rank()
  {
    seq(p.Rank(), i requires 0 <= i < p.Rank() =>
      Sub(Add(Mul(p.strides[i], Var(x + i)), Var(k + i)), Lit(p.before[i])))
  }

  // Where the window of output position x starts, possibly in the padding.
  function Starts(p: PoolSetup, x: seq<int>): (s: seq<int>)
    requires p.Valid() && |x| == p.Rank()
    ensures |s| == p.Rank()
  {
    seq(p.Rank(), i requires 0 <= i < p.Rank() => p.strides[i] * x[i] - p.before[i])
  }

  function Shifted(starts: seq<int>, k: seq<int>): (s: seq<int>)
    requires |k| == |starts|
    ensures |s| == |starts|
  {
    seq(|starts|, i requires 0 <= i < |starts| => starts[i] + k[i])
  }

  // Variables n, c, x.., k..  The bounds k < K of the contraction are the range of an access to a tensor of shape K.
  function LoweredPool(p: PoolSetup): Contraction
    requires p.Valid()
  {
    var r := p.Rank();
    Contraction(
      2 + 2 * r,
      Arrange(p.data, [Var(0)], [Var(1)], Vars(2, r)),
      OutDims(p),
      Arrange(p.data, [Var(0)], [Var(1)], PoolIdx(p, 2, 2 + r)),
      Vars(2 + r, r))
  }

  function Constant(dims: seq<int>, c: real): Tensor {
    Tensor(dims, (idx: seq<int>) => c)
  }

  // S, Ones and Count.
  ghost function PoolSum(p: PoolSetup, t: Tensor): Tensor
    requires p.Valid()
  {
    Contract(LoweredPool(p), t, Constant(p.filter, 1.0))
  }

  ghost function Count(p: PoolSetup): Tensor
    requires p.Valid()
  {
    PoolSum(p, Constant(DataDims(p), 1.0))
  }

  lemma EvalPoolAxis(s: int, b: int, x: nat, k: nat, a: seq<int>)
    requires x < |a| && k < |a|
    ensures Eval(Sub(Add(Mul(s, Var(x)), Var(k)), Lit(b)), a) == s * a[x] - b + a[k]
  {
    assert Eval(Mul(s, Var(x)), a) == s * a[x];
    assert Eval(Add(Mul(s, Var(x)), Var(k)), a) == s * a[x] + a[k];
  }

  lemma EvalPoolIdx(p: PoolSetup, head: seq<int>, x: seq<int>, k: seq<int>)
    requires p.Valid() && |x| == |k| == p.Rank()
    ensures EvalAll(PoolIdx(p, |head|, |head| + |x|), head + x + k) == Shifted(Starts(p, x), k)
  {
    var a := head + x + k;
    var s := PoolIdx(p, |head|, |head| + |x|);
    forall i | 0 <= i < p.Rank() ensures EvalAll(s, a)[i] == Shifted(Starts(p, x), k)[i] {
      assert a[|head| + i] == x[i] && a[|head| + |x| + i] == k[i];
      EvalPoolAxis(p.strides[i], p.before[i], |head| + i, |head| + |x| + i, a);
      assert s[i] == Sub(Add(Mul(p.strides[i], Var(|head| + i)), Var(|head| + |x| + i)), Lit(p.before[i]));
      assert EvalAll(s, a)[i] == Eval(s[i], a);
    }
  }

  lemma PoolAccesses(p: PoolSetup, n: int, c: int, x: seq<int>, k: seq<int>)
    requires p.Valid() && |x| == |k| == p.Rank()
    ensures var a := [n, c] + x + k;
            && EvalAll(LoweredPool(p).out, a) == Arrange(p.data, [n], [c], x)
            && EvalAll(LoweredPool(p).left, a) == Arrange(p.data, [n], [c], Shifted(Starts(p, x), k))
            && EvalAll(LoweredPool(p).right, a) == k
  {
    var a := [n, c] + x + k;
    var r := p.Rank();
    EvalPositions([n, c], x, k);
    EvalPoolIdx(p, [n, c], x, k);
    EvalArrange(p.data, [Var(0)], [Var(1)], Vars(2, r), a);
    EvalArrange(p.data, [Var(0)], [Var(1)], PoolIdx(p, 2, 2 + r), a);
    assert EvalAll([Var(0)], a) == [n] && EvalAll([Var(1)], a) == [c];
  }

  lemma PoolDetermines(p: PoolSetup, n: int, c: int, x: seq<int>)
    requires p.Valid() && |x| == p.Rank()
    ensures Determines(LoweredPool(p), Arrange(p.data, [n], [c], x), [n, c], 0, x)
  {
    forall f: seq<int>, d: seq<int>, y, k | |f| == 2 && |d| == 0 && |y| == |k| == |x|
      ensures EvalAll(LoweredPool(p).out, Pack(f, d, y, k)) == Arrange(p.data, [n], [c], x) <==> f == [n, c] && y == x
    {
      assert f == [f[0], f[1]] && f + d == [f[0], f[1]];
      PoolAccesses(p, f[0], f[1], y, k);
      ArrangeInjective(p.data, [f[0]], [f[1]], y, [n], [c], x);
    }
  }

  lemma PoolRight(p: PoolSetup, n: int, c: int, x: seq<int>)
    requires p.Valid() && |x| == p.Rank()
    ensures RightWithin(LoweredPool(p), Constant(p.filter, 1.0), [n, c], 0, x, p.filter)
  {
    forall d: seq<int>, k | |d| == 0 && |k| == |x|
      ensures InRange(EvalAll(LoweredPool(p).right, Pack([n, c], d, x, k)), p.filter) <==> InRange(d + k, p.filter)
    {
      assert [n, c] + d == [n, c] && d + k == k;
      PoolAccesses(p, n, c, x, k);
    }
  }

  // Element k of the window, or zero in the padding.
  function PoolTap(p: PoolSetup, t: Tensor, n: int, c: int, x: seq<int>): seq<int> -> real
    requires p.Valid() && |x| == p.Rank()
  {
    (k: seq<int>) => if |k| != p.Rank() then 0.0 else Read(t, Arrange(p.data, [n], [c], Shifted(Starts(p, x), k)))
  }

  lemma PoolExtended(p: PoolSetup, t: Tensor, n: int, c: int, x: seq<int>, k: seq<int>)
    requires p.Valid() && |x| == |k| == p.Rank()
    ensures Extended(PackFrame([n, c], 0, x, p.filter), LoweredPool(p), t, Constant(p.filter, 1.0))(k)
         == PoolTap(p, t, n, c, x)(k)
  {
    var f := PackFrame([n, c], 0, x, p.filter);
    assert f.build(k) == [n, c] + x + k by {
      assert [n, c] + k[..0] == [n, c] && k[0..] == k;
    }
    PoolAccesses(p, n, c, x, k);
  }

  // A cell sums the window over the tensor extended by zero.
  lemma PoolCell(p: PoolSetup, t: Tensor, n: int, c: int, x: seq<int>)
    requires p.Valid() && |x| == p.Rank()
    ensures PoolSum(p, t).at(Arrange(p.data, [n], [c], x)) == Over(Box(p.filter), PoolTap(p, t, n, c, x))
  {
    var l, cell, ones := LoweredPool(p), Arrange(p.data, [n], [c], x), Constant(p.filter, 1.0);
    var f := PackFrame([n, c], 0, x, p.filter);
    PoolDetermines(p, n, c, x);
    PoolRight(p, n, c, x);
    PackedFrames(l, ones, cell, [n, c], 0, x, p.filter);
    CellAsBox(f, l, t, ones, cell);
    forall k | k in Box(p.filter) ensures Extended(f, l, t, ones)(k) == PoolTap(p, t, n, c, x)(k) {
      PoolExtended(p, t, n, c, x, k);
    }
    Same(Box(p.filter), Extended(f, l, t, ones), PoolTap(p, t, n, c, x));
  }

  // Input position d lies in the window of output position x.
  predicate InWindow(p: PoolSetup, x: seq<int>, d: seq<int>)
    requires p.Valid()
  {
    |x| == |d| == p.Rank()
    && forall i :: 0 <= i < p.Rank() ==> 0 <= d[i] + p.before[i] - p.strides[i] * x[i] < p.filter[i]
  }

  function Offsets(p: PoolSetup, x: seq<int>, d: seq<int>): (k: seq<int>)
    requires p.Valid() && |x| == |d| == p.Rank()
    ensures |k| == p.Rank()
  {
    seq(p.Rank(), i requires 0 <= i < p.Rank() => d[i] + p.before[i] - p.strides[i] * x[i])
  }

  lemma ShiftedTo(p: PoolSetup, x: seq<int>, d: seq<int>, k: seq<int>)
    requires p.Valid() && |x| == |d| == |k| == p.Rank()
    ensures Shifted(Starts(p, x), k) == d <==> k == Offsets(p, x, d)
    ensures InRange(Offsets(p, x, d), p.filter) <==> InWindow(p, x, d)
  {
    var s := Shifted(Starts(p, x), k);
    assert forall i :: 0 <= i < p.Rank() ==> s[i] == p.strides[i] * x[i] - p.before[i] + k[i];
    if k == Offsets(p, x, d) {
      assert forall i :: 0 <= i < p.Rank() ==> s[i] == d[i];
    }
    var o := Offsets(p, x, d);
    assert forall i :: 0 <= i < p.Rank() ==> o[i] == d[i] + p.before[i] - p.strides[i] * x[i];
    if s == d {
      assert forall i :: 0 <= i < p.Rank() ==> k[i] == o[i];
    }
    if InRange(o, p.filter) {
      forall i | 0 <= i < p.Rank() ensures 0 <= d[i] + p.before[i] - p.strides[i] * x[i] < p.filter[i] {
        assert 0 <= o[i] < p.filter[i];
      }
    }
  }

  lemma TapOfOne(p: PoolSetup, n: int, c: int, d: seq<int>, n': int, c': int, x: seq<int>, k: seq<int>)
    requires p.Valid() && |x| == |d| == |k| == p.Rank() && InRange(Arrange(p.data, [n], [c], d), DataDims(p))
    ensures PoolTap(p, One(DataDims(p), Arrange(p.data, [n], [c], d)), n', c', x)(k)
         == if n' == n && c' == c && k == Offsets(p, x, d) then 1.0 else 0.0
  {
    ArrangeInjective(p.data, [n'], [c'], Shifted(Starts(p, x), k), [n], [c], d);
    assert [n'] == [n] <==> n' == n;
    assert [c'] == [c] <==> c' == c;
    ShiftedTo(p, x, d, k);
  }

  // A single element of the data is summed exactly by the outputs of its own image and channel whose windows hold it.
  lemma PoolOfOne(p: PoolSetup, n: int, c: int, d: seq<int>, n': int, c': int, x: seq<int>)
    requires p.Valid() && |x| == |d| == p.Rank() && InRange(Arrange(p.data, [n], [c], d), DataDims(p))
    ensures PoolSum(p, One(DataDims(p), Arrange(p.data, [n], [c], d))).at(Arrange(p.data, [n'], [c'], x))
         == if n' == n && c' == c && InWindow(p, x, d) then 1.0 else 0.0
  {
    var t := One(DataDims(p), Arrange(p.data, [n], [c], d));
    var k := Offsets(p, x, d);
    PoolCell(p, t, n', c', x);
    forall j | InRange(j, p.filter) ensures PoolTap(p, t, n', c', x)(j) ==
                                              if n' == n && c' == c && j == k then 1.0 else 0.0 {
      TapOfOne(p, n, c, d, n', c', x, j);
    }
    ShiftedTo(p, x, d, k);
    if InRange(k, p.filter) {
      OneTerm(p.filter, k, PoolTap(p, t, n', c', x));
    } else {
      Zero(Box(p.filter), PoolTap(p, t, n', c', x));
    }
  }

  // ---------------------------------------------------------------------------------------------- counting taps

  // How many of `filter` consecutive positions from `start` lie within the input.
  function Taps(start: int, filter: int, input: int): (n: nat)
    ensures filter > 0 && input > 0 ==> (n > 0 <==> start < input && 0 < start + filter)
  {
    if filter <= 0 then 0
    else Taps(start, filter - 1, input) + if 0 <= start + filter - 1 < input then 1 else 0
  }

  function Repeated(a: real, t: nat): real {
    a * t as real
  }

  // The product over the axes.
  function AllTaps(starts: seq<int>, filter: seq<int>, input: seq<int>): real
    requires |starts| == |filter| == |input|
  {
    if starts == [] then 1.0
    else Repeated(AllTaps(starts[1..], filter[1..], input[1..]), Taps(starts[0], filter[0], input[0]))
  }

  function Inside(starts: seq<int>, input: seq<int>): seq<int> -> real {
    (k: seq<int>) => if |k| == |starts| && InRange(Shifted(starts, k), input) then 1.0 else 0.0
  }

  function InsideAxis(start: int, input: int, rest: real): Vector {
    (k: int) => if 0 <= start + k < input then rest else 0.0
  }

  lemma RepeatedStep(a: real, t: nat)
    ensures Repeated(a, 0) == 0.0 && Repeated(a, t + 1) == Repeated(a, t) + a
  {
    assert (t + 1) as real == t as real + 1.0;
    assert a * (t as real + 1.0) == a * t as real + a;
  }

  lemma {:induction false} TapsTimes(start: int, filter: nat, input: int, rest: real)
    ensures Sum(filter, InsideAxis(start, input, rest)) == Repeated(rest, Taps(start, filter, input))
  {
    if filter == 0 {
      RepeatedStep(rest, 0);
    } else {
      TapsTimes(start, filter - 1, input, rest);
      OverStep(filter - 1, InsideAxis(start, input, rest));
      RepeatedStep(rest, Taps(start, filter - 1, input));
    }
  }

  lemma InsideTail(starts: seq<int>, input: seq<int>, k: int, v: seq<int>)
    requires |starts| == |input| > 0
    ensures Tail(Inside(starts, input), k)(v) ==
              if 0 <= starts[0] + k < input[0] then Inside(starts[1..], input[1..])(v) else 0.0
  {
    if |v| == |starts| - 1 {
      var s := Shifted(starts, [k] + v);
      assert s[1..] == Shifted(starts[1..], v);
      HeadAndTail(s, input);
    }
  }

  lemma InsideTailSum(starts: seq<int>, filter: seq<int>, input: seq<int>, k: int)
    requires |starts| == |filter| == |input| > 0
    ensures Over(Box(filter[1..]), Tail(Inside(starts, input), k))
         == InsideAxis(starts[0], input[0], Over(Box(filter[1..]), Inside(starts[1..], input[1..])))(k)
  {
    var box := Box(filter[1..]);
    var f := Tail(Inside(starts, input), k);
    forall v ensures f(v) == if 0 <= starts[0] + k < input[0] then Inside(starts[1..], input[1..])(v) else 0.0 {
      InsideTail(starts, input, k, v);
    }
    if 0 <= starts[0] + k < input[0] {
      Same(box, f, Inside(starts[1..], input[1..]));
    } else {
      Zero(box, f);
    }
  }

  lemma InsideByHead(starts: seq<int>, filter: seq<int>, input: seq<int>, rest: real)
    requires |starts| == |filter| == |input| > 0 && filter[0] >= 0
    requires rest == Over(Box(filter[1..]), Inside(starts[1..], input[1..]))
    ensures Over(Box(filter), Inside(starts, input)) == Repeated(rest, Taps(starts[0], filter[0], input[0]))
  {
    var h := InsideAxis(starts[0], input[0], rest);
    forall k ensures h(k) == Over(Box(filter[1..]), Tail(Inside(starts, input), k)) {
      InsideTailSum(starts, filter, input, k);
    }
    BoxByFirst(filter, Inside(starts, input), h);
    TapsTimes(starts[0], filter[0], input[0], rest);
  }

  // The taps of a window within the input are counted by the product over the axes.
  lemma {:induction false} InsideCount(starts: seq<int>, filter: seq<int>, input: seq<int>)
    requires |starts| == |filter| == |input| && forall i :: 0 <= i < |filter| ==> filter[i] >= 0
    ensures Over(Box(filter), Inside(starts, input)) == AllTaps(starts, filter, input)
  {
    if filter == [] {
      BoxOfNone(Inside(starts, input));
    } else {
      InsideCount(starts[1..], filter[1..], input[1..]);
      InsideByHead(starts, filter, input, AllTaps(starts[1..], filter[1..], input[1..]));
    }
  }

  // One axis whose window misses the input leaves no taps; otherwise there is at least one.
  lemma {:induction false} AllTapsPositive(starts: seq<int>, filter: seq<int>, input: seq<int>)
    requires |starts| == |filter| == |input|
    ensures AllTaps(starts, filter, input) >= 1.0 || AllTaps(starts, filter, input) == 0.0
    ensures AllTaps(starts, filter, input) >= 1.0 <==>
              forall i :: 0 <= i < |starts| ==> Taps(starts[i], filter[i], input[i]) > 0
  {
    if starts != [] {
      AllTapsPositive(starts[1..], filter[1..], input[1..]);
      AtLeastOne(AllTaps(starts[1..], filter[1..], input[1..]), Taps(starts[0], filter[0], input[0]));
      assert forall i :: 1 <= i < |starts| ==>
        starts[i] == starts[1..][i - 1] && filter[i] == filter[1..][i - 1] && input[i] == input[1..][i - 1];
    }
  }

  lemma AtLeastOne(a: real, t: nat)
    requires a >= 1.0 || a == 0.0
    ensures Repeated(a, t) >= 1.0 || Repeated(a, t) == 0.0
    ensures Repeated(a, t) >= 1.0 <==> a >= 1.0 && t > 0
  {
    if a >= 1.0 && t > 0 {
      assert (a - 1.0) * t as real >= 0.0;
    }
  }

  lemma CountTap(p: PoolSetup, n: int, c: int, x: seq<int>, k: seq<int>)
    requires p.Valid() && |x| == |k| == p.Rank() && 0 <= n < p.n && 0 <= c < p.c
    ensures PoolTap(p, Constant(DataDims(p), 1.0), n, c, x)(k) == Inside(Starts(p, x), p.input)(k)
  {
    ArrangeInRange(p.data, [n], [c], Shifted(Starts(p, x), k), [p.n], [p.c], p.input);
    OneInRange(n, p.n);
    OneInRange(c, p.c);
  }

  // Count is the number of window elements that are not padding.
  lemma CountIs(p: PoolSetup, n: int, c: int, x: seq<int>)
    requires p.Valid() && |x| == p.Rank() && 0 <= n < p.n && 0 <= c < p.c
    requires forall i :: 0 <= i < |p.filter| ==> p.filter[i] >= 0
    ensures Count(p).at(Arrange(p.data, [n], [c], x)) == AllTaps(Starts(p, x), p.filter, p.input)
  {
    PoolCell(p, Constant(DataDims(p), 1.0), n, c, x);
    forall k | k in Box(p.filter)
      ensures PoolTap(p, Constant(DataDims(p), 1.0), n, c, x)(k) == Inside(Starts(p, x), p.input)(k)
    {
      CountTap(p, n, c, x, k);
    }
    Same(Box(p.filter), PoolTap(p, Constant(DataDims(p), 1.0), n, c, x), Inside(Starts(p, x), p.input));
    InsideCount(Starts(p, x), p.filter, p.input);
  }

  // ---------------------------------------------------------------------------------------------- windows that count

  predicate Sensible(p: PoolSetup) {
    && p.Valid()
    && forall i :: 0 <= i < p.Rank() ==> p.input[i] > 0 && p.filter[i] > 0 && p.strides[i] > 0
  }

  predicate MeetsAxis(p: PoolSetup, x: seq<int>, i: nat)
    requires p.Valid() && i < p.Rank() <= |x|
  {
    Padding.Meets(x[i], p.input[i], p.filter[i], p.strides[i], p.before[i])
  }

  // Count is zero exactly when along some axis the window lies wholly in the padding, and otherwise at least one.
  lemma CountAtLeastOne(p: PoolSetup, n: int, c: int, x: seq<int>)
    requires Sensible(p) && |x| == p.Rank() && 0 <= n < p.n && 0 <= c < p.c
    ensures var count := Count(p).at(Arrange(p.data, [n], [c], x));
            && (count >= 1.0 <==> forall i :: 0 <= i < p.Rank() ==> MeetsAxis(p, x, i))
            && (count >= 1.0 || count == 0.0)
  {
    CountIs(p, n, c, x);
    AllTapsPositive(Starts(p, x), p.filter, p.input);
    forall i | 0 <= i < p.Rank() ensures Taps(Starts(p, x)[i], p.filter[i], p.input[i]) > 0 <==> MeetsAxis(p, x, i) {
      assert Starts(p, x)[i] == p.strides[i] * x[i] - p.before[i];
    }
  }

  // With SAME or VALID padding the average divides by at least one, everywhere.
  lemma AutomaticPaddingCounts(p: PoolSetup, dims: seq<int>, o: Options, n: int, c: int, x: seq<int>)
    requires |dims| >= 2 && Planned(p, dims, o) && Sensible(p)
    requires o.pads.None? && o.padding != Padding.EXPLICIT
    requires 0 <= n < p.n && 0 <= c < p.c && InRange(x, p.output)
    ensures Count(p).at(Arrange(p.data, [n], [c], x)) >= 1.0
  {
    CountAtLeastOne(p, n, c, x);
    forall i | 0 <= i < p.Rank() ensures MeetsAxis(p, x, i) {
      assert AxisPlanned(p, o, i);
      Padding.EveryWindowMeetsTheInput(p.input[i], p.filter[i], p.strides[i], o.padding, x[i]);
    }
  }

  // With a list of pads it does so exactly when no first window ends before the input and no last one starts after it.
  predicate PadsFit(p: PoolSetup, i: nat)
    requires p.Valid() && i < p.Rank()
  {
    p.before[i] < p.filter[i] && (p.output[i] - 1) * p.strides[i] - p.before[i] < p.input[i]
  }

  ghost predicate CountsEverywhere(p: PoolSetup)
    requires p.Valid()
  {
    forall n, c, x :: 0 <= n < p.n && 0 <= c < p.c && InRange(x, p.output) ==>
      Count(p).at(Arrange(p.data, [n], [c], x)) >= 1.0
  }

  lemma FittingPadsCount(p: PoolSetup, n: int, c: int, x: seq<int>)
    requires Sensible(p) && forall i :: 0 <= i < p.Rank() ==> PadsFit(p, i)
    requires 0 <= n < p.n && 0 <= c < p.c && InRange(x, p.output)
    ensures Count(p).at(Arrange(p.data, [n], [c], x)) >= 1.0
  {
    CountAtLeastOne(p, n, c, x);
    forall i | 0 <= i < p.Rank() ensures MeetsAxis(p, x, i) {
      assert PadsFit(p, i);
      Padding.WindowInside(x[i], p.output[i], p.input[i], p.filter[i], p.strides[i], p.before[i]);
    }
  }

  function First(p: PoolSetup): (x: seq<int>)
    ensures |x| == p.Rank()
  {
    seq(p.Rank(), _ => 0)
  }

  function Last(p: PoolSetup): (x: seq<int>)
    requires p.Valid()
    ensures |x| == p.Rank()
  {
    seq(p.Rank(), i requires 0 <= i < p.Rank() => p.output[i] - 1)
  }

  lemma EndsFit(p: PoolSetup, i: nat)
    requires Sensible(p) && p.n > 0 && p.c > 0 && i < p.Rank()
    requires Count(p).at(Arrange(p.data, [0], [0], First(p))) >= 1.0
    requires Count(p).at(Arrange(p.data, [0], [0], Last(p))) >= 1.0
    ensures PadsFit(p, i)
  {
    CountAtLeastOne(p, 0, 0, First(p));
    CountAtLeastOne(p, 0, 0, Last(p));
    assert MeetsAxis(p, First(p), i) && MeetsAxis(p, Last(p), i);
    var s := p.strides[i];
    assert s * (p.output[i] - 1) == (p.output[i] - 1) * s;
  }

  predicate AllPadsFit(p: PoolSetup)
    requires p.Valid()
  {
    forall i :: 0 <= i < p.Rank() ==> PadsFit(p, i)
  }

  lemma CountingPadsFit(p: PoolSetup)
    requires Sensible(p) && p.n > 0 && p.c > 0 && forall i :: 0 <= i < p.Rank() ==> p.output[i] > 0
    requires CountsEverywhere(p)
    ensures AllPadsFit(p)
  {
    assert InRange(First(p), p.output) && InRange(Last(p), p.output);
    forall i | 0 <= i < p.Rank() ensures PadsFit(p, i) {
      EndsFit(p, i);
    }
  }

  lemma AllPadsFitCounts(p: PoolSetup)
    requires Sensible(p) && AllPadsFit(p)
    ensures CountsEverywhere(p)
  {
    forall n, c, x | 0 <= n < p.n && 0 <= c < p.c && InRange(x, p.output)
      ensures Count(p).at(Arrange(p.data, [n], [c], x)) >= 1.0
    {
      FittingPadsCount(p, n, c, x);
    }
  }

  lemma ExplicitPaddingCounts(p: PoolSetup)
    requires Sensible(p) && p.n > 0 && p.c > 0 && forall i :: 0 <= i < p.Rank() ==> p.output[i] > 0
    ensures CountsEverywhere(p) <==> AllPadsFit(p)
  {
    if CountsEverywhere(p) {
      CountingPadsFit(p);
    }
    if AllPadsFit(p) {
      AllPadsFitCounts(p);
    }
  }

  // ---------------------------------------------------------------------------------------------- the average

  // O = S / Count
  ghost function Average(p: PoolSetup, t: Tensor, cell: seq<int>): real
    requires p.Valid() && Count(p).at(cell) != 0.0
  {
    PoolSum(p, t).at(cell) / Count(p).at(cell)
  }

  function ScaledBy(f: seq<int> -> real, factor: real): seq<int> -> real {
    k => Times(factor, f(k))
  }

  predicate Between(s: real, weight: real, low: real, high: real) {
    Times(low, weight) <= s <= Times(high, weight)
  }

  lemma TapBetween(p: PoolSetup, t: Tensor, n: int, c: int, x: seq<int>, k: seq<int>, low: real, high: real)
    requires p.Valid() && |x| == |k| == p.Rank() && 0 <= n < p.n && 0 <= c < p.c && t.dims == DataDims(p)
    requires forall idx :: InRange(idx, t.dims) ==> low <= t.at(idx) <= high
    ensures var weight := Inside(Starts(p, x), p.input);
            ScaledBy(weight, low)(k) <= PoolTap(p, t, n, c, x)(k) <= ScaledBy(weight, high)(k)
  {
    ArrangeInRange(p.data, [n], [c], Shifted(Starts(p, x), k), [p.n], [p.c], p.input);
    OneInRange(n, p.n);
    OneInRange(c, p.c);
    TimesUnits(low);
    TimesUnits(high);
    var weight := Inside(Starts(p, x), p.input)(k);
    assert weight == if InRange(Shifted(Starts(p, x), k), p.input) then 1.0 else 0.0;
  }

  lemma ProductSign(d: real, count: real)
    requires count > 0.0
    ensures d > 0.0 ==> d * count > 0.0
  {
  }

  lemma QuotientBetween(s: real, count: real, low: real, high: real)
    requires count > 0.0 && Between(s, count, low, high)
    ensures low <= s / count <= high
  {
    var q := s / count;
    assert q * count == s;
    ProductSign(low - q, count);
    ProductSign(q - high, count);
    assert (low - q) * count == low * count - s && (q - high) * count == s - high * count;
  }

  lemma SumBetween(s: set<seq<int>>, f: seq<int> -> real, weight: seq<int> -> real, low: real, high: real)
    requires forall k :: k in s ==> ScaledBy(weight, low)(k) <= f(k) <= ScaledBy(weight, high)(k)
    ensures Between(Over(s, f), Over(s, weight), low, high)
  {
    Monotone(s, ScaledBy(weight, low), f);
    Monotone(s, f, ScaledBy(weight, high));
    ScaleTimes(s, low, weight, ScaledBy(weight, low));
    ScaleTimes(s, high, weight, ScaledBy(weight, high));
  }

  // The padding does not pull the average away from the data: it lies between any bounds of the data, and the average
  // of constant data is that constant.
  lemma AverageWithin(p: PoolSetup, t: Tensor, n: int, c: int, x: seq<int>, low: real, high: real)
    requires Sensible(p) && |x| == p.Rank() && 0 <= n < p.n && 0 <= c < p.c && t.dims == DataDims(p)
    requires Count(p).at(Arrange(p.data, [n], [c], x)) >= 1.0
    requires forall idx :: InRange(idx, t.dims) ==> low <= t.at(idx) <= high
    ensures low <= Average(p, t, Arrange(p.data, [n], [c], x)) <= high
  {
    SumWithin(p, t, n, c, x, low, high);
    var cell := Arrange(p.data, [n], [c], x);
    QuotientBetween(PoolSum(p, t).at(cell), Count(p).at(cell), low, high);
  }

  lemma TapsWithin(p: PoolSetup, t: Tensor, n: int, c: int, x: seq<int>, low: real, high: real)
    requires p.Valid() && |x| == p.Rank() && 0 <= n < p.n && 0 <= c < p.c && t.dims == DataDims(p)
    requires forall idx :: InRange(idx, t.dims) ==> low <= t.at(idx) <= high
    ensures Between(Over(Box(p.filter), PoolTap(p, t, n, c, x)), Over(Box(p.filter), Inside(Starts(p, x), p.input)),
                    low, high)
  {
    var taps, weight := PoolTap(p, t, n, c, x), Inside(Starts(p, x), p.input);
    forall k | k in Box(p.filter) ensures ScaledBy(weight, low)(k) <= taps(k) <= ScaledBy(weight, high)(k) {
      TapBetween(p, t, n, c, x, k, low, high);
    }
    SumBetween(Box(p.filter), taps, weight, low, high);
  }

  lemma CountAsSum(p: PoolSetup, n: int, c: int, x: seq<int>)
    requires Sensible(p) && |x| == p.Rank() && 0 <= n < p.n && 0 <= c < p.c
    ensures Count(p).at(Arrange(p.data, [n], [c], x)) == Over(Box(p.filter), Inside(Starts(p, x), p.input))
  {
    InsideCount(Starts(p, x), p.filter, p.input);
    CountIs(p, n, c, x);
  }

  lemma SumWithin(p: PoolSetup, t: Tensor, n: int, c: int, x: seq<int>, low: real, high: real)
    requires Sensible(p) && |x| == p.Rank() && 0 <= n < p.n && 0 <= c < p.c && t.dims == DataDims(p)
    requires forall idx :: InRange(idx, t.dims) ==> low <= t.at(idx) <= high
    ensures var cell := Arrange(p.data, [n], [c], x);
            Between(PoolSum(p, t).at(cell), Count(p).at(cell), low, high)
  {
    TapsWithin(p, t, n, c, x, low, high);
    CountAsSum(p, n, c, x);
    PoolCell(p, t, n, c, x);
  }

  // ---------------------------------------------------------------------------------------------- the maximum

  ghost function MaxPool(p: PoolSetup, t: Tensor, cell: seq<int>): real
    requires p.Valid()
  {
    LargestAt(LoweredPool(p), t, Constant(p.filter, 1.0), cell)
  }

  // Element k of the window of output x, when it is not padding.
  predicate Covers(p: PoolSetup, x: seq<int>, k: seq<int>)
    requires p.Valid() && |x| == p.Rank()
  {
    |k| == p.Rank() && InRange(k, p.filter) && InRange(Shifted(Starts(p, x), k), p.input)
  }

  function Covered(p: PoolSetup, t: Tensor, n: int, c: int, x: seq<int>, k: seq<int>): real
    requires p.Valid() && |x| == |k| == p.Rank()
  {
    t.at(Arrange(p.data, [n], [c], Shifted(Starts(p, x), k)))
  }

  lemma WindowWrites(p: PoolSetup, t: Tensor, n: int, c: int, x: seq<int>, k: seq<int>)
    requires p.Valid() && |x| == |k| == p.Rank() && t.dims == DataDims(p) && 0 <= n < p.n && 0 <= c < p.c
    ensures var a, cell := [n, c] + x + k, Arrange(p.data, [n], [c], x);
            && (Writes(LoweredPool(p), t, Constant(p.filter, 1.0), cell, a) <==> Covers(p, x, k))
            && Term(LoweredPool(p), t, Constant(p.filter, 1.0), a) == Covered(p, t, n, c, x, k)
  {
    PoolAccesses(p, n, c, x, k);
    ArrangeInRange(p.data, [n], [c], Shifted(Starts(p, x), k), [p.n], [p.c], p.input);
    OneInRange(n, p.n);
    OneInRange(c, p.c);
  }

  lemma WriterIsInWindow(p: PoolSetup, t: Tensor, n: int, c: int, x: seq<int>, a: seq<int>) returns (k: seq<int>)
    requires p.Valid() && |x| == p.Rank() && t.dims == DataDims(p) && 0 <= n < p.n && 0 <= c < p.c
    requires Writes(LoweredPool(p), t, Constant(p.filter, 1.0), Arrange(p.data, [n], [c], x), a)
    ensures |k| == p.Rank() && a == [n, c] + x + k && Covers(p, x, k)
  {
    var r := p.Rank();
    var y := a[2..2 + r];
    k := a[2 + r..];
    assert a == [a[0], a[1]] + y + k;
    PoolAccesses(p, a[0], a[1], y, k);
    ArrangeInjective(p.data, [a[0]], [a[1]], y, [n], [c], x);
    WindowWrites(p, t, n, c, x, k);
  }

  function AtWindow(n: int, c: int, x: seq<int>): seq<int> -> seq<int> {
    (k: seq<int>) => [n, c] + x + k
  }

  lemma WindowWriters(p: PoolSetup, t: Tensor, n: int, c: int, x: seq<int>, covered: set<seq<int>>)
    requires p.Valid() && |x| == p.Rank() && t.dims == DataDims(p) && 0 <= n < p.n && 0 <= c < p.c
    requires forall k :: k in covered <==> Covers(p, x, k)
    ensures AreWriters(LoweredPool(p), t, Constant(p.filter, 1.0), Arrange(p.data, [n], [c], x),
                       Image(covered, AtWindow(n, c, x)))
  {
    var l, ones, cell := LoweredPool(p), Constant(p.filter, 1.0), Arrange(p.data, [n], [c], x);
    var writers := Image(covered, AtWindow(n, c, x));
    forall a | a in writers ensures Writes(l, t, ones, cell, a) {
      var k :| k in covered && a == [n, c] + x + k;
      WindowWrites(p, t, n, c, x, k);
    }
    forall a | Writes(l, t, ones, cell, a) ensures a in writers {
      var k := WriterIsInWindow(p, t, n, c, x, a);
      assert AtWindow(n, c, x)(k) == a;
    }
  }

  lemma MaxPoolIsLargest(p: PoolSetup, t: Tensor, n: int, c: int, x: seq<int>, some: seq<int>)
    requires p.Valid() && |x| == p.Rank() && t.dims == DataDims(p) && 0 <= n < p.n && 0 <= c < p.c
    requires Covers(p, x, some)
    ensures var cell := Arrange(p.data, [n], [c], x);
            IsLargest(LoweredPool(p), t, Constant(p.filter, 1.0), cell, MaxPool(p, t, cell))
  {
    var covered := set k | k in Box(p.filter) && Covers(p, x, k);
    WindowWriters(p, t, n, c, x, covered);
    assert AtWindow(n, c, x)(some) in Image(covered, AtWindow(n, c, x));
    LargestExists(LoweredPool(p), t, Constant(p.filter, 1.0), Arrange(p.data, [n], [c], x),
                  Image(covered, AtWindow(n, c, x)));
  }

  ghost predicate IsMaximum(p: PoolSetup, t: Tensor, n: int, c: int, x: seq<int>, v: real)
    requires p.Valid() && |x| == p.Rank()
  {
    && (exists k :: Covers(p, x, k) && Covered(p, t, n, c, x, k) == v)
    && (forall k :: Covers(p, x, k) ==> Covered(p, t, n, c, x, k) <= v)
  }

  lemma LargestIsMaximum(p: PoolSetup, t: Tensor, n: int, c: int, x: seq<int>, v: real)
    requires p.Valid() && |x| == p.Rank() && t.dims == DataDims(p) && 0 <= n < p.n && 0 <= c < p.c
    requires IsLargest(LoweredPool(p), t, Constant(p.filter, 1.0), Arrange(p.data, [n], [c], x), v)
    ensures IsMaximum(p, t, n, c, x, v)
  {
    var l, ones, cell := LoweredPool(p), Constant(p.filter, 1.0), Arrange(p.data, [n], [c], x);
    var a :| Writes(l, t, ones, cell, a) && Term(l, t, ones, a) == v;
    var k := WriterIsInWindow(p, t, n, c, x, a);
    WindowWrites(p, t, n, c, x, k);
    forall j | Covers(p, x, j) ensures Covered(p, t, n, c, x, j) <= v {
      WindowWrites(p, t, n, c, x, j);
    }
  }

  // Max pooling takes the largest element of the window that is not padding, negative ones included.
  lemma MaxPoolIsTheMaximum(p: PoolSetup, t: Tensor, n: int, c: int, x: seq<int>, some: seq<int>)
    requires p.Valid() && |x| == p.Rank() && t.dims == DataDims(p) && 0 <= n < p.n && 0 <= c < p.c
    requires Covers(p, x, some)
    ensures IsMaximum(p, t, n, c, x, MaxPool(p, t, Arrange(p.data, [n], [c], x)))
  {
    MaxPoolIsLargest(p, t, n, c, x, some);
    LargestIsMaximum(p, t, n, c, x, MaxPool(p, t, Arrange(p.data, [n], [c], x)));
  }
}
