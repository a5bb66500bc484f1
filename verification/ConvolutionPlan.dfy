/**
 From caller's shapes to a convolution's numbers: the checks of `Convolution` and `ConvolutionTranspose`
 (plaidml/op.py:1226-1241, 1392-1431) and `_compute_padding` and `_verify_expected_output_shape`
 (plaidml/op.py:487-514, 549-569), for concrete sizes.
 */
module ConvolutionPlans {
  import opened Wrappers
  import opened Boxes
  import opened Contractions
  import opened Convolutions
  import opened Padding

  datatype Options = Options(
    strides: seq<int>, dilations: seq<int>, padding: AutoPadding, pads: Option<seq<int>>, data: Format, kernel: Format)

  datatype PlanError =
    | InvalidDilation
    | WrongKernelRank
    | WrongOutputRank
    | WrongStrides
    | WrongDilations
    | WrongBatch
    | PadsTooShort
    | BadAxis(error: PadError)
    | UnexpectedOutputShape

  // ---------------------------------------------------------------------------------------------- parts of a shape

  function Channel(f: Format, dims: seq<int>): int
    requires |dims| >= 2
  {
    if f == CHANNELS_FIRST then dims[1] else dims[|dims| - 1]
  }

  function Spatial(f: Format, dims: seq<int>): (s: seq<int>)
    requires |dims| >= 2
    ensures |s| == |dims| - 2
  {
    if f == CHANNELS_FIRST then dims[2..] else dims[1..|dims| - 1]
  }

  // A kernel's output channels and input channels.
  function KernelChannel(f: Format, dims: seq<int>): (int, int)
    requires |dims| >= 2
  {
    if f == CHANNELS_FIRST then (dims[0], dims[1]) else (dims[|dims| - 1], dims[|dims| - 2])
  }

  function KernelSpatial(f: Format, dims: seq<int>): (s: seq<int>)
    requires |dims| >= 2
    ensures |s| == |dims| - 2
  {
    if f == CHANNELS_FIRST then dims[2..] else dims[..|dims| - 2]
  }

  lemma DataParts(f: Format, n: int, c: int, s: seq<int>, dims: seq<int>)
    ensures |dims| >= 2 ==>
              (Arrange(f, [n], [c], s) == dims <==> n == dims[0] && c == Channel(f, dims) && s == Spatial(f, dims))
  {
    if |dims| >= 2 {
      assert Arrange(f, [dims[0]], [Channel(f, dims)], Spatial(f, dims)) == dims;
      if |s| == |dims| - 2 {
        ArrangeInjective(f, [n], [c], s, [dims[0]], [Channel(f, dims)], Spatial(f, dims));
      }
    }
  }

  lemma KernelParts(f: Format, co: int, ci: int, s: seq<int>, dims: seq<int>)
    ensures |dims| >= 2 ==>
              (Arrange(f, [], KernelChannels(f, co, ci), s) == dims <==>
                (co, ci) == KernelChannel(f, dims) && s == KernelSpatial(f, dims))
  {
    if |dims| >= 2 {
      var (co', ci') := KernelChannel(f, dims);
      assert Arrange(f, [], KernelChannels(f, co', ci'), KernelSpatial(f, dims)) == dims;
      if |s| == |dims| - 2 {
        ArrangeInjective(f, [], KernelChannels(f, co, ci), s, [], KernelChannels(f, co', ci'), KernelSpatial(f, dims));
        assert KernelChannels(f, co, ci) == KernelChannels(f, co', ci') <==> co == co' && ci == ci' by {
          var a, b := KernelChannels(f, co, ci), KernelChannels(f, co', ci');
          assert a == b <==> a[0] == b[0] && a[1] == b[1];
        }
      }
    }
  }

  // ---------------------------------------------------------------------------------------------- padding

  // (pads[i], pads[i + rank]) if pads else None
  function PadsOfAxis(pads: Option<seq<int>>, rank: nat, i: nat): Result<Option<(int, int)>, PlanError>
    requires i < rank
  {
    if pads.None? || pads.value == [] then Ok(None)
    else if |pads.value| <= i + rank then Err(PadsTooShort)
    else Ok(Some((pads.value[i], pads.value[i + rank])))
  }

  // The extent of a dilated filter.
  function Extent(dilation: int, filter: int): int {
    dilation * (filter - 1) + 1
  }

  function AxisOf(input: seq<int>, filter: seq<int>, o: Options, i: nat): Result<Axis, PlanError>
    requires i < |input| == |filter| == |o.strides| == |o.dilations|
  {
    match PadsOfAxis(o.pads, |input|, i)
    case Err(e) => Err(e)
    case Ok(pads) =>
      match PadCompute(input[i], Extent(o.dilations[i], filter[i]), o.strides[i], o.padding, pads)
      case Err(e) => Err(BadAxis(e))
      case Ok(axis) => Ok(axis)
  }

  // The first n axes, or the error of the first bad one.
  function Axes(input: seq<int>, filter: seq<int>, o: Options, n: nat): (r: Result<seq<Axis>, PlanError>)
    requires n <= |input| == |filter| == |o.strides| == |o.dilations|
    ensures r.Ok? ==> |r.value| == n && forall i :: 0 <= i < n ==> AxisOf(input, filter, o, i) == Ok(r.value[i])
    ensures r.Err? ==> exists i :: 0 <= i < n && AxisOf(input, filter, o, i) == Err(r.error)
  {
    if n == 0 then Ok([])
    else
      match Axes(input, filter, o, n - 1)
      case Err(e) => Err(e)
      case Ok(axes) =>
        match AxisOf(input, filter, o, n - 1)
        case Err(e) => Err(e)
        case Ok(axis) => Ok(axes + [axis])
  }

  lemma {:induction false} ErrorStays(input: seq<int>, filter: seq<int>, o: Options, i: nat, n: nat)
    requires i <= n <= |input| == |filter| == |o.strides| == |o.dilations|
    requires Axes(input, filter, o, i).Err?
    ensures Axes(input, filter, o, n) == Axes(input, filter, o, i)
  {
    if i < n {
      ErrorStays(input, filter, o, i, n - 1);
    }
  }

  method ComputePadding(input: seq<int>, filter: seq<int>, o: Options) returns (r: Result<seq<Axis>, PlanError>)
    requires |input| == |filter| == |o.strides| == |o.dilations|
    ensures r == Axes(input, filter, o, |input|)
  {
    var axes := [];
    for i := 0 to |input|
      invariant Axes(input, filter, o, i) == Ok(axes)
    {
      var pads := None;
      if o.pads.Some? && o.pads.value != [] {
        if |o.pads.value| <= i + |input| {
          ErrorStays(input, filter, o, i + 1, |input|);
          return Err(PadsTooShort);
        }
        pads := Some((o.pads.value[i], o.pads.value[i + |input|]));
      }
      var axis := PadCompute(input[i], o.dilations[i] * (filter[i] - 1) + 1, o.strides[i], o.padding, pads);
      if axis.Err? {
        ErrorStays(input, filter, o, i + 1, |input|);
        return Err(BadAxis(axis.error));
      }
      axes := axes + [axis.value];
    }
    return Ok(axes);
  }

  // ---------------------------------------------------------------------------------------------- plans

  // The leading paddings and the output sizes, with the text read for the given input.
  function Befores(axes: seq<Axis>, input: seq<int>): (b: seq<int>)
    requires |axes| == |input|
    ensures |b| == |axes|
  {
    seq(|axes|, i requires 0 <= i < |axes| => Before(axes[i], input[i]))
  }

  function Outs(axes: seq<Axis>): (b: seq<int>)
    ensures |b| == |axes|
  {
    seq(|axes|, i requires 0 <= i < |axes| => axes[i].out)
  }

  function SetupOf(n: int, ci: int, co: int, input: seq<int>, filter: seq<int>, o: Options)
    : (r: Result<Setup, PlanError>)
    requires |input| == |filter| == |o.strides| == |o.dilations|
    ensures r.Ok? ==> r.value.Valid()
  {
    match Axes(input, filter, o, |input|)
    case Err(e) => Err(e)
    case Ok(axes) =>
      Ok(Setup(o.data, o.kernel, o.strides, o.dilations, Befores(axes, input), n, ci, co, input, filter, Outs(axes)))
  }

  function Forward(dims: seq<int>, kernelDims: seq<int>, o: Options): (r: Result<Setup, PlanError>)
    ensures r.Ok? ==> r.value.Valid()
  {
    var rank := |dims| - 2;
    if exists i :: 0 <= i < |o.dilations| && o.dilations[i] <= 0 then Err(InvalidDilation)
    else if |kernelDims| != rank + 2 then Err(WrongKernelRank)
    else if |o.strides| != rank then Err(WrongStrides)
    else if |o.dilations| != rank then Err(WrongDilations)
    else SetupOf(dims[0], Channel(o.data, dims), KernelChannel(o.kernel, kernelDims).0,
                 Spatial(o.data, dims), KernelSpatial(o.kernel, kernelDims), o)
  }

  // The formatter takes the requested output for its input, and its computed output must be the data's shape.
  function Transpose(dims: seq<int>, kernelDims: seq<int>, outputShape: seq<int>, o: Options)
    : (r: Result<Setup, PlanError>)
    requires o.pads.None?
    ensures r.Ok? ==> r.value.Valid()
  {
    var rank := |dims| - 2;
    if |kernelDims| != rank + 2 then Err(WrongKernelRank)
    else if |outputShape| != rank + 2 then Err(WrongOutputRank)
    else if |o.strides| != rank then Err(WrongStrides)
    else if dims[0] != outputShape[0] then Err(WrongBatch)
    else if |o.dilations| != rank then Err(WrongDilations)
    else
      var (co, ci) := KernelChannel(o.kernel, kernelDims);
      match SetupOf(outputShape[0], ci, co, Spatial(o.data, outputShape), KernelSpatial(o.kernel, kernelDims), o)
      case Err(e) => Err(e)
      case Ok(p) => if OutDims(p) != dims then Err(UnexpectedOutputShape) else Ok(p)
  }

  // The setup has the caller's shapes as soon as the data and the kernel agree on the input channels.
  lemma ForwardShapes(dims: seq<int>, kernelDims: seq<int>, o: Options)
    ensures var r := Forward(dims, kernelDims, o);
            r.Ok? ==>
              && DataDims(r.value) == dims
              && (KernelDims(r.value) == kernelDims <==>
                    Channel(o.data, dims) == KernelChannel(o.kernel, kernelDims).1)
  {
    var r := Forward(dims, kernelDims, o);
    if r.Ok? {
      DataParts(o.data, r.value.n, r.value.ci, r.value.input, dims);
      KernelParts(o.kernel, r.value.co, r.value.ci, r.value.filter, kernelDims);
    }
  }

  lemma TransposeShapes(dims: seq<int>, kernelDims: seq<int>, outputShape: seq<int>, o: Options)
    requires o.pads.None?
    ensures var r := Transpose(dims, kernelDims, outputShape, o);
            r.Ok? ==>
              && OutDims(r.value) == dims && KernelDims(r.value) == kernelDims
              && (DataDims(r.value) == outputShape <==>
                    Channel(o.data, outputShape) == KernelChannel(o.kernel, kernelDims).1)
  {
    var r := Transpose(dims, kernelDims, outputShape, o);
    if r.Ok? {
      DataParts(o.data, r.value.n, r.value.ci, r.value.input, outputShape);
      KernelParts(o.kernel, r.value.co, r.value.ci, r.value.filter, kernelDims);
    }
  }

  // The transposed convolution accepts exactly the shapes the forward convolution connects, with the same numbers.
  lemma PlansMeet(dims: seq<int>, kernelDims: seq<int>, out: seq<int>, o: Options, p: Setup)
    requires o.pads.None? && (forall i :: 0 <= i < |o.dilations| ==> o.dilations[i] > 0)
    requires |dims| >= 2 && |kernelDims| >= 2 && Channel(o.data, dims) == KernelChannel(o.kernel, kernelDims).1
    ensures Transpose(out, kernelDims, dims, o) == Ok(p) <==> Forward(dims, kernelDims, o) == Ok(p) && OutDims(p) == out
  {
    if Forward(dims, kernelDims, o) == Ok(p) && OutDims(p) == out {
      assert |out| == |dims|;
    }
  }

  // The declared output sizes and the emitted size and padding text are the same numbers.
  lemma PlanTextAgrees(input: seq<int>, filter: seq<int>, o: Options, n: int, ci: int, co: int, i: nat)
    requires |input| == |filter| == |o.strides| == |o.dilations| && i < |input|
    requires input[i] >= 0 && o.strides[i] > 0
    ensures var r := SetupOf(n, ci, co, input, filter, o);
            r.Ok? ==>
              var axis := AxisOf(input, filter, o, i);
              && axis.Ok? && Value(axis.value.size, input[i]) == r.value.output[i]
              && r.value.before[i] == Requested(input[i], Extent(o.dilations[i], filter[i]), o.strides[i], o.padding,
                                                PadsOfAxis(o.pads, |input|, i).value).0
  {
    var pads := PadsOfAxis(o.pads, |input|, i);
    if pads.Ok? {
      TextAgrees(input[i], Extent(o.dilations[i], filter[i]), o.strides[i], o.padding, pads.value);
    }
  }

  // Whatever shapes ConvolutionTranspose verifies, it is the adjoint of the Convolution of the same arguments.
  lemma VerifiedShapesAreAdjoint(o: Options, data: Tensor, kernel: Tensor, out: Tensor)
    requires o.pads.None? && (forall i :: 0 <= i < |o.dilations| ==> o.dilations[i] > 0)
    requires |data.dims| >= 2 && |kernel.dims| >= 2
    requires Channel(o.data, data.dims) == KernelChannel(o.kernel, kernel.dims).1
    requires Transpose(out.dims, kernel.dims, data.dims, o).Ok?
    ensures var p := Transpose(out.dims, kernel.dims, data.dims, o).value;
            && Forward(data.dims, kernel.dims, o) == Ok(p)
            && Inner(Contract(Lowered(p), data, kernel), out) == Inner(data, Contract(LoweredTranspose(p), out, kernel))
  {
    var p := Transpose(out.dims, kernel.dims, data.dims, o).value;
    PlansMeet(data.dims, kernel.dims, out.dims, o, p);
    TransposeShapes(out.dims, kernel.dims, data.dims, o);
    TransposeIsAdjoint(p, data, kernel, out);
  }

  // ---------------------------------------------------------------------------------------------- from the arguments

  // The parts of shapes and indices, written out.
  function Listed(f: Format, n: int, c: int, s: seq<int>): seq<int> {
    if f == CHANNELS_FIRST then [n, c] + s else [n] + s + [c]
  }

  function KernelListed(f: Format, co: int, ci: int, s: seq<int>): seq<int> {
    if f == CHANNELS_FIRST then [co, ci] + s else s + [ci, co]
  }

  lemma ListedIs(f: Format, n: int, c: int, s: seq<int>)
    ensures Listed(f, n, c, s) == Arrange(f, [n], [c], s)
  {
    assert [n] + [c] + s == [n, c] + s;
  }

  lemma KernelListedIs(f: Format, co: int, ci: int, s: seq<int>)
    ensures KernelListed(f, co, ci, s) == Arrange(f, [], KernelChannels(f, co, ci), s)
  {
    assert [] + [co, ci] + s == [co, ci] + s && [] + s + [ci, co] == s + [ci, co];
  }

  // The whole convolution on single elements: which output the element (n, ci, d) of the data reaches through the
  // element (co, ci', k) of the kernel.
  lemma ConvolutionOfOnes(dims: seq<int>, kernelDims: seq<int>, o: Options, n: int, ci: int, d: seq<int>,
                          co: int, ci': int, k: seq<int>, n': int, co': int, x: seq<int>)
    requires Forward(dims, kernelDims, o).Ok? && |dims| >= 2 && |d| == |k| == |x| == |dims| - 2
    requires InRange(Listed(o.data, n, ci, d), dims) && InRange(KernelListed(o.kernel, co, ci', k), kernelDims)
    requires InRange(KernelListed(o.kernel, co', ci', k), kernelDims)
    requires Channel(o.data, dims) == KernelChannel(o.kernel, kernelDims).1
    ensures var p := Forward(dims, kernelDims, o).value;
            |o.strides| == |o.dilations| == |p.before| == |d| &&
            Contract(Lowered(p), One(dims, Listed(o.data, n, ci, d)),
                     One(kernelDims, KernelListed(o.kernel, co, ci', k))).at(Listed(o.data, n', co', x))
              == if n' == n && co' == co && ci' == ci
                    && (forall i :: 0 <= i < |d| ==> d[i] == o.strides[i] * x[i] + o.dilations[i] * k[i] - p.before[i])
                 then 1.0 else 0.0
  {
    var p := Forward(dims, kernelDims, o).value;
    ForwardShapes(dims, kernelDims, o);
    ListedIs(o.data, n, ci, d);
    ListedIs(o.data, n', co', x);
    KernelListedIs(o.kernel, co, ci', k);
    KernelListedIs(o.kernel, co', ci', k);
    ArrangeInRange(o.kernel, [], KernelChannels(o.kernel, co', ci'), k,
                   [], KernelChannels(o.kernel, p.co, p.ci), p.filter);
    ChannelsInRange(o.kernel, co', ci', p.co, p.ci);
    OneMeetsOne(p, n, ci, d, co, ci', k, n', co', x);
  }

  // Where the windows of an axis with explicit pads lie: the leading pads shift them, every tap of every window falls
  // into the padded input, and one more window would not.
  lemma ExplicitWindowsFit(dims: seq<int>, kernelDims: seq<int>, o: Options, i: nat)
    requires Forward(dims, kernelDims, o).Ok? && |dims| >= 2 && i < |dims| - 2
    requires o.pads.Some? && o.pads.value != [] && o.strides[i] > 0
    ensures var p := Forward(dims, kernelDims, o).value;
            && |o.pads.value| > i + |dims| - 2 && p.before[i] == o.pads.value[i]
            && var room, reach := p.input[i] + o.pads.value[i] + o.pads.value[i + |dims| - 2],
                                  o.dilations[i] * (p.filter[i] - 1);
            && (p.output[i] > 0 ==> o.strides[i] * (p.output[i] - 1) + reach < room)
            && o.strides[i] * p.output[i] + reach >= room
  {
    var input, filter := Spatial(o.data, dims), KernelSpatial(o.kernel, kernelDims);
    var axis := AxisOf(input, filter, o, i);
    assert axis.Ok?;
    var pads := PadsOfAxis(o.pads, |input|, i).value;
    WindowsInRoom(input[i], Extent(o.dilations[i], filter[i]), o.strides[i], o.padding, pads);
  }
}
