/** When `Convolution` takes the Winograd form (plaidml/op.py:1243-1252, 1318-1322), and what that changes. */
module WinogradPlans {
  import opened Wrappers
  import opened Boxes
  import opened Contractions
  import opened Convolutions
  import opened ConvolutionPlans
  import opened Padding
  import opened WinogradTransforms
  import opened WinogradConvolutions

  predicate UsesWinograd(dims: seq<int>, kernelDims: seq<int>, o: Options, grouped: bool, allowed: bool) {
    && |dims| == 4 && |kernelDims| == 4 && o.data == CHANNELS_LAST
    && kernelDims[0] == 3 && kernelDims[1] == 3 && o.strides == [1, 1] && o.dilations == [1, 1]
    && kernelDims[2] > 4 && kernelDims[3] > 4 && !grouped && allowed
  }

  // _winograd_conv_strs: both axes are padded for kernel size kernel_shape[0], and explicit pads play no part.
  function WinogradSizes(dims: seq<int>, kernelDims: seq<int>, padding: AutoPadding): Result<Sizes, PadError>
    requires |dims| == 4 && |kernelDims| == 4
  {
    match PadCompute(dims[1], kernelDims[0], 1, padding, None)
    case Err(e) => Err(e)
    case Ok(x) =>
      match PadCompute(dims[2], kernelDims[0], 1, padding, None)
      case Err(e) => Err(e)
      case Ok(y) =>
        Ok(Sizes(dims[0], dims[1], dims[2], dims[3], kernelDims[3],
                 x.out, y.out, Before(x, dims[1]), Before(y, dims[2])))
  }

  lemma TwoAxes(input: seq<int>, filter: seq<int>, o: Options)
    requires |input| == |filter| == |o.strides| == |o.dilations| == 2
    ensures var x, y := AxisOf(input, filter, o, 0), AxisOf(input, filter, o, 1);
            Axes(input, filter, o, 2) ==
              if x.Err? then Err(x.error) else if y.Err? then Err(y.error) else Ok([x.value, y.value])
  {
    var x, y := AxisOf(input, filter, o, 0), AxisOf(input, filter, o, 1);
    assert Axes(input, filter, o, 0) == Ok([]);
    if x.Ok? {
      assert [] + [x.value] == [x.value];
      assert Axes(input, filter, o, 1) == Ok([x.value]);
      if y.Ok? {
        assert [x.value] + [y.value] == [x.value, y.value];
      }
    }
  }

  // Without explicit pads both forms have the same sizes and paddings.
  lemma SamePlan(dims: seq<int>, kernelDims: seq<int>, o: Options, w: Triple)
    requires UsesWinograd(dims, kernelDims, o, false, true) && o.kernel == CHANNELS_LAST && o.pads.None? && w.s == 3
    ensures var z := WinogradSizes(dims, kernelDims, o.padding);
            var p := Forward(dims, kernelDims, o);
            && (z.Ok? <==> p.Ok?)
            && (z.Ok? ==> p.value == DirectSetup(w, z.value))
  {
    var input, filter := Spatial(o.data, dims), KernelSpatial(o.kernel, kernelDims);
    assert input == [dims[1], dims[2]] && filter == [3, 3];
    assert Extent(1, 3) == 3;
    var x, y := AxisOf(input, filter, o, 0), AxisOf(input, filter, o, 1);
    var axes := Axes(input, filter, o, 2);
    if x.Ok? && y.Ok? {
      assert Befores(axes.value, input) == [Before(x.value, dims[1]), Before(y.value, dims[2])];
      assert Outs(axes.value) == [x.value.out, y.value.out];
    }
  }

  lemma SameElement(w: Triple, z: Sizes, data: Tensor, kernel: Tensor, n: int, x: int, y: int, co: int)
    requires IsExact(w) && w.bo > 0 && kernel.dims == [w.s, w.s, z.ci, z.co]
    requires 0 <= n < z.n && 0 <= x < z.xo && 0 <= y < z.yo && 0 <= co < z.co
    ensures Program(w, z, data, kernel).at([n, x, y, co])
         == Contract(Lowered(DirectSetup(w, z)), data, kernel).at([n, x, y, co])
  {
    var p := DirectSetup(w, z);
    assert KernelDims(p) == kernel.dims;
    assert Arrange(p.data, [n], [co], [x, y]) == [n, x, y, co];
    LoweringIsConvolution(p, data, kernel, n, co, [x, y]);
    WinogradIsConvolution(w, z, data, kernel, n, x, y, co);
  }

  // The Winograd form computes every element of what the direct form would have computed.
  lemma WinogradReplacesDirect(o: Options, w: Triple, data: Tensor, kernel: Tensor)
    requires UsesWinograd(data.dims, kernel.dims, o, false, true) && o.kernel == CHANNELS_LAST && o.pads.None?
    requires IsExact(w) && w.s == 3 && w.bo > 0 && data.dims[3] == kernel.dims[2]
    requires Forward(data.dims, kernel.dims, o).Ok?
    ensures WinogradSizes(data.dims, kernel.dims, o.padding).Ok?
    ensures var z := WinogradSizes(data.dims, kernel.dims, o.padding).value;
            var p := Forward(data.dims, kernel.dims, o).value;
            && Program(w, z, data, kernel).dims == OutDims(p) == [z.n, z.xo, z.yo, z.co]
            && forall n, x, y, co :: 0 <= n < z.n && 0 <= x < z.xo && 0 <= y < z.yo && 0 <= co < z.co ==>
                 Program(w, z, data, kernel).at([n, x, y, co]) == Contract(Lowered(p), data, kernel).at([n, x, y, co])
  {
    SamePlan(data.dims, kernel.dims, o, w);
    var z := WinogradSizes(data.dims, kernel.dims, o.padding).value;
    assert OutDims(DirectSetup(w, z)) == [z.n, z.xo, z.yo, z.co];
    assert kernel.dims == [w.s, w.s, z.ci, z.co];
    forall n, x, y, co | 0 <= n < z.n && 0 <= x < z.xo && 0 <= y < z.yo && 0 <= co < z.co
      ensures Program(w, z, data, kernel).at([n, x, y, co])
           == Contract(Lowered(DirectSetup(w, z)), data, kernel).at([n, x, y, co])
    {
      SameElement(w, z, data, kernel, n, x, y, co);
    }
  }

  // ---------------------------------------------------------------------------------------------- explicit pads

  // Both forms return the same tensor for the given data and kernel.
  ghost predicate SameOutput(w: Triple, z: Sizes, p: Setup, data: Tensor, kernel: Tensor)
    requires p.Valid()
  {
    && Program(w, z, data, kernel).dims == OutDims(p)
    && forall n, x, y, co :: 0 <= n < z.n && 0 <= x < z.xo && 0 <= y < z.yo && 0 <= co < z.co ==>
         Program(w, z, data, kernel).at([n, x, y, co]) == Contract(Lowered(p), data, kernel).at([n, x, y, co])
  }

  // The Winograd branch returns what the direct branch would have: for all data and kernels of the given shapes.
  ghost predicate Agree(dims: seq<int>, kernelDims: seq<int>, o: Options, w: Triple)
    requires UsesWinograd(dims, kernelDims, o, false, true)
  {
    var z, p := WinogradSizes(dims, kernelDims, o.padding), Forward(dims, kernelDims, o);
    && z.Ok? && p.Ok?
    && forall data: Tensor, kernel: Tensor :: data.dims == dims && kernel.dims == kernelDims ==>
         SameOutput(w, z.value, p.value, data, kernel)
  }

  // The leading and trailing padding that the automatic modes give a filter of size 3.
  function AutomaticPad(padding: AutoPadding): int {
    if padding == VALID then 0 else 1
  }

  // On one axis the pads leave the automatic number of windows.
  predicate SameCount(input: int, padding: AutoPadding, pre: int, post: int) {
    var pad := AutomaticPad(padding);
    padding != EXPLICIT && input - 2 + 2 * pad >= 0 && pre + post == 2 * pad
  }

  predicate NoOutput(dims: seq<int>, padding: AutoPadding)
    requires |dims| == 4
  {
    var lost := 2 - 2 * AutomaticPad(padding);
    dims[0] <= 0 || dims[1] <= lost || dims[2] <= lost
  }

  // The explicit pads repeat the automatic ones; if nothing is output, it is enough that they add up to them.
  predicate RepeatsAutomatic(dims: seq<int>, padding: AutoPadding, pads: seq<int>)
    requires |dims| == 4
  {
    var pad := AutomaticPad(padding);
    && |pads| >= 4
    && SameCount(dims[1], padding, pads[0], pads[2]) && SameCount(dims[2], padding, pads[1], pads[3])
    && (NoOutput(dims, padding) || (pads[0] == pad && pads[1] == pad))
  }

  lemma AutomaticAxis(input: int, padding: AutoPadding)
    ensures var r := PadCompute(input, 3, 1, padding, None);
            && (r.Ok? <==> padding != EXPLICIT && input - 2 + 2 * AutomaticPad(padding) >= 0)
            && (r.Ok? ==> r.value.out == input - 2 + 2 * AutomaticPad(padding)
                          && Before(r.value, input) == AutomaticPad(padding))
  {
    if input >= 0 {
      TextAgrees(input, 3, 1, padding, None);
    }
  }

  lemma ExplicitAxis(input: int, padding: AutoPadding, pre: int, post: int)
    ensures var r := PadCompute(input, 3, 1, padding, Some((pre, post)));
            && (r.Ok? <==> input + pre + post - 2 >= 0)
            && (r.Ok? ==> r.value.out == input + pre + post - 2 && Before(r.value, input) == pre)
  {
  }

  // With the same sizes on both axes, the direct form has the setup of the Winograd form but for the padding.
  lemma PlanWithPads(dims: seq<int>, kernelDims: seq<int>, o: Options, w: Triple)
    requires UsesWinograd(dims, kernelDims, o, false, true) && o.kernel == CHANNELS_LAST && w.s == 3
    requires o.pads.Some? && o.pads.value != []
    ensures var z, p := WinogradSizes(dims, kernelDims, o.padding), Forward(dims, kernelDims, o);
            && (z.Ok? && p.Ok? && OutDims(p.value) == [z.value.n, z.value.xo, z.value.yo, z.value.co] <==>
                  && |o.pads.value| >= 4
                  && SameCount(dims[1], o.padding, o.pads.value[0], o.pads.value[2])
                  && SameCount(dims[2], o.padding, o.pads.value[1], o.pads.value[3]))
            && (z.Ok? && p.Ok? && OutDims(p.value) == [z.value.n, z.value.xo, z.value.yo, z.value.co] ==>
                  p.value == DirectSetup(w, z.value).(before := o.pads.value[..2])
                  && z.value.xp == z.value.yp == AutomaticPad(o.padding))
  {
    var input, filter, pads := Spatial(o.data, dims), KernelSpatial(o.kernel, kernelDims), o.pads.value;
    assert input == [dims[1], dims[2]] && filter == [3, 3];
    assert Extent(1, 3) == 3;
    AutomaticAxis(dims[1], o.padding);
    AutomaticAxis(dims[2], o.padding);
    var x, y := AxisOf(input, filter, o, 0), AxisOf(input, filter, o, 1);
    var axes := Axes(input, filter, o, 2);
    assert axes == if x.Err? then Err(x.error) else if y.Err? then Err(y.error) else Ok([x.value, y.value]) by {
      TwoAxes(input, filter, o);
    }
    if |pads| >= 4 {
      ExplicitAxis(dims[1], o.padding, pads[0], pads[2]);
      ExplicitAxis(dims[2], o.padding, pads[1], pads[3]);
      if x.Ok? && y.Ok? {
        assert Befores(axes.value, input) == [pads[0], pads[1]] == pads[..2];
        assert Outs(axes.value) == [x.value.out, y.value.out];
        assert OutDims(Forward(dims, kernelDims, o).value) == [dims[0], x.value.out, y.value.out, kernelDims[3]];
      }
    }
  }

  // A setup that the Winograd form could stand for, but for its padding.
  predicate PlainPlane(p: Setup) {
    && p.Valid() && p.data == p.kernel == CHANNELS_LAST && p.strides == p.dilations == [1, 1] && p.filter == [3, 3]
    && |p.input| == 2 && p.input[0] > 0 && p.input[1] > 0 && p.n > 0 && p.ci > 0 && p.co > 0
  }

  // One data element and one kernel element meet in the first output exactly when the kernel's is at the padding.
  lemma FirstCell(p: Setup, a: int, b: int)
    requires PlainPlane(p) && 0 <= a < 3 && 0 <= b < 3
    ensures Contract(Lowered(p), One(DataDims(p), [0, 0, 0, 0]), One(KernelDims(p), [a, b, 0, 0])).at([0, 0, 0, 0])
         == if p.before == [a, b] then 1.0 else 0.0
  {
    assert Arrange(p.data, [0], [0], [0, 0]) == [0, 0, 0, 0] == DataIdx(p, 0, 0, [0, 0]);
    assert KernelIdx(p, 0, 0, [a, b]) == [a, b, 0, 0];
    assert DataDims(p) == [p.n, p.input[0], p.input[1], p.ci] && KernelDims(p) == [3, 3, p.ci, p.co];
    OneMeetsOne(p, 0, 0, [0, 0], 0, 0, [a, b], 0, 0, [0, 0]);
    assert p.before == [p.before[0], p.before[1]];
    assert Under(p, [0, 0], [a, b], [0, 0]) <==> p.before == [a, b];
  }

  // So setups that differ in their padding give different outputs.
  lemma PaddingShows(w: Triple, z: Sizes, p: Setup)
    requires IsExact(w) && w.s == 3 && w.bo > 0 && 0 <= z.xp < 3 && 0 <= z.yp < 3
    requires p == DirectSetup(w, z).(before := p.before) && p.Valid() && p.before != [z.xp, z.yp]
    requires z.n > 0 && z.x > 0 && z.y > 0 && z.ci > 0 && z.co > 0 && z.xo > 0 && z.yo > 0
    ensures !SameOutput(w, z, p, One(DataDims(p), [0, 0, 0, 0]), One(KernelDims(p), [z.xp, z.yp, 0, 0]))
  {
    var q := DirectSetup(w, z);
    var data, kernel := One(DataDims(p), [0, 0, 0, 0]), One(KernelDims(p), [z.xp, z.yp, 0, 0]);
    assert KernelDims(q) == KernelDims(p) == [3, 3, z.ci, z.co] && DataDims(q) == DataDims(p);
    FirstCell(p, z.xp, z.yp);
    FirstCell(q, z.xp, z.yp);
    SameElement(w, z, data, kernel, 0, 0, 0, 0);
  }

  lemma SameTensors(w: Triple, z: Sizes, data: Tensor, kernel: Tensor)
    requires IsExact(w) && w.s == 3 && w.bo > 0 && kernel.dims == [3, 3, z.ci, z.co]
    ensures SameOutput(w, z, DirectSetup(w, z), data, kernel)
  {
    assert OutDims(DirectSetup(w, z)) == [z.n, z.xo, z.yo, z.co];
    forall n, x, y, co | 0 <= n < z.n && 0 <= x < z.xo && 0 <= y < z.yo && 0 <= co < z.co
      ensures Program(w, z, data, kernel).at([n, x, y, co])
           == Contract(Lowered(DirectSetup(w, z)), data, kernel).at([n, x, y, co])
    {
      SameElement(w, z, data, kernel, n, x, y, co);
    }
  }

  lemma RepeatedPadsAgree(dims: seq<int>, kernelDims: seq<int>, o: Options, w: Triple)
    requires UsesWinograd(dims, kernelDims, o, false, true) && o.kernel == CHANNELS_LAST
    requires o.pads.Some? && o.pads.value != [] && dims[3] == kernelDims[2]
    requires IsExact(w) && w.s == 3 && w.bo > 0 && RepeatsAutomatic(dims, o.padding, o.pads.value)
    ensures Agree(dims, kernelDims, o, w)
  {
    PlanWithPads(dims, kernelDims, o, w);
    var z, p := WinogradSizes(dims, kernelDims, o.padding).value, Forward(dims, kernelDims, o).value;
    assert kernelDims == [3, 3, z.ci, z.co];
    forall data: Tensor, kernel: Tensor | data.dims == dims && kernel.dims == kernelDims
      ensures SameOutput(w, z, p, data, kernel)
    {
      if NoOutput(dims, o.padding) {
        assert Program(w, z, data, kernel).dims == OutDims(p);
      } else {
        assert p == DirectSetup(w, z);
        SameTensors(w, z, data, kernel);
      }
    }
  }

  lemma OtherPadsDiffer(dims: seq<int>, kernelDims: seq<int>, o: Options, w: Triple)
    requires UsesWinograd(dims, kernelDims, o, false, true) && o.kernel == CHANNELS_LAST
    requires o.pads.Some? && o.pads.value != [] && dims[3] == kernelDims[2]
    requires IsExact(w) && w.s == 3 && w.bo > 0 && Agree(dims, kernelDims, o, w)
    ensures RepeatsAutomatic(dims, o.padding, o.pads.value)
  {
    PlanWithPads(dims, kernelDims, o, w);
    var z, p := WinogradSizes(dims, kernelDims, o.padding).value, Forward(dims, kernelDims, o).value;
    ForwardShapes(dims, kernelDims, o);
    var data, kernel := One(DataDims(p), [0, 0, 0, 0]), One(KernelDims(p), [z.xp, z.yp, 0, 0]);
    assert SameOutput(w, z, p, data, kernel);
    if !NoOutput(dims, o.padding) && p.before != [z.xp, z.yp] {
      PaddingShows(w, z, p);
    }
  }

  // With explicit pads the Winograd branch returns what the direct one would have exactly when they repeat the
  // automatic padding; never under the default, explicit padding, where it is refused.
  lemma ExplicitPadsAreIgnored(dims: seq<int>, kernelDims: seq<int>, o: Options, w: Triple)
    requires UsesWinograd(dims, kernelDims, o, false, true) && o.kernel == CHANNELS_LAST
    requires o.pads.Some? && o.pads.value != [] && dims[3] == kernelDims[2]
    requires IsExact(w) && w.s == 3 && w.bo > 0
    ensures Agree(dims, kernelDims, o, w) <==> RepeatsAutomatic(dims, o.padding, o.pads.value)
  {
    if RepeatsAutomatic(dims, o.padding, o.pads.value) {
      RepeatedPadsAgree(dims, kernelDims, o, w);
    } else if Agree(dims, kernelDims, o, w) {
      OtherPadsDiffer(dims, kernelDims, o, w);
    }
  }

  // Twice the padding in front and none behind gives an image of the same size, shifted by one.
  lemma ShiftedByPads(o: Options, w: Triple)
    requires o == Options([1, 1], [1, 1], SAME_UPPER, Some([2, 2, 0, 0]), CHANNELS_LAST, CHANNELS_LAST)
    requires IsExact(w) && w.s == 3 && w.bo > 0
    ensures !Agree([1, 4, 4, 5], [3, 3, 5, 5], o, w)
    ensures Forward([1, 4, 4, 5], [3, 3, 5, 5], o).Ok?
    ensures OutDims(Forward([1, 4, 4, 5], [3, 3, 5, 5], o).value) == [1, 4, 4, 5]
  {
    ExplicitPadsAreIgnored([1, 4, 4, 5], [3, 3, 5, 5], o, w);
    PlanWithPads([1, 4, 4, 5], [3, 3, 5, 5], o, w);
  }

  // The choice does not look at the kernel's format: a channels-first kernel of 3 output and 3 input channels is taken
  // for a 3x3 one, and the output gets another number of channels.
  lemma ChannelsFirstIsMisread(dims: seq<int>, kernelDims: seq<int>, o: Options)
    requires UsesWinograd(dims, kernelDims, o, false, true) && o.kernel == CHANNELS_FIRST
    ensures var z := WinogradSizes(dims, kernelDims, o.padding);
            var p := Forward(dims, kernelDims, o);
            z.Ok? && p.Ok? ==> OutDims(p.value) != [z.value.n, z.value.xo, z.value.yo, z.value.co]
  {
    var z := WinogradSizes(dims, kernelDims, o.padding);
    var p := Forward(dims, kernelDims, o);
    if z.Ok? && p.Ok? {
      assert OutDims(p.value)[3] == 3;
    }
  }

  // Three 5x5 filters over three channels, listed channels first, come out as five filters of size 3x3.
  lemma MisreadExample(o: Options, grouped: bool)
    requires o == Options([1, 1], [1, 1], SAME_UPPER, None, CHANNELS_LAST, CHANNELS_FIRST) && !grouped
    ensures UsesWinograd([1, 8, 8, 3], [3, 3, 5, 5], o, grouped, true)
    ensures var p := Forward([1, 8, 8, 3], [3, 3, 5, 5], o);
            p.Ok? && DataDims(p.value) == [1, 8, 8, 3] && KernelDims(p.value) == [3, 3, 5, 5]
            && OutDims(p.value) == [1, 8, 8, 3]
    ensures var z := WinogradSizes([1, 8, 8, 3], [3, 3, 5, 5], o.padding);
            z.Ok? && [z.value.n, z.value.xo, z.value.yo, z.value.co] == [1, 8, 8, 5]
  {
    var dims, kernelDims := [1, 8, 8, 3], [3, 3, 5, 5];
    ForwardShapes(dims, kernelDims, o);
    AutomaticAxis(8, SAME_UPPER);
    var input, filter := Spatial(o.data, dims), KernelSpatial(o.kernel, kernelDims);
    assert input == [8, 8] && filter == [5, 5] && Extent(1, 5) == 5;
    TwoAxes(input, filter, o);
    TextAgrees(8, 5, 1, SAME_UPPER, None);
  }
}
