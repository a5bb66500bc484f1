/**
 Grouped convolutions (plaidml/op.py:603-709, 757-791, 863-883, 1267-1292): the kernel is reshaped to separate groups,
 the contraction runs within each group, and its output is reshaped back to one channel axis.
 */
module GroupedConvolutions {
  import opened Boxes
  import opened Contractions
  import opened Convolutions
  import opened Layout
  import opened Wrappers
  import Sums

  // ---------------------------------------------------------------------------------------------- reshape

  // TILE's reshape: the same elements in row-major order.
  function Reshaped(t: Tensor, dims: seq<int>): Tensor {
    Tensor(dims, (idx: seq<int>) =>
      if |idx| == |dims| && Positive(t.dims) then t.at(Unflatten(t.dims, Flatten(dims, idx))) else 0.0)
  }

  lemma ReshapedAt(t: Tensor, dims: seq<int>, idx: seq<int>, from: seq<int>)
    requires |idx| == |dims| && InRange(from, t.dims) && Flatten(dims, idx) == Flatten(t.dims, from)
    ensures Reshaped(t, dims).at(idx) == t.at(from)
  {
    UnflattenFlatten(t.dims, from);
  }

  // Reshaping only the channel axes of an arranged shape.
  lemma ReshapedChannels(t: Tensor, f: Format, b: seq<int>, mid: seq<int>, mid': seq<int>, s: seq<int>,
                         v: seq<int>, m: seq<int>, m': seq<int>, w: seq<int>)
    requires |v| == |b| && |m| == |mid| && |m'| == |mid'| && |w| == |s|
    requires Product(mid) == Product(mid') && Flatten(mid, m) == Flatten(mid', m')
    requires t.dims == Arrange(f, b, mid', s) && InRange(Arrange(f, v, m', w), t.dims)
    ensures Reshaped(t, Arrange(f, b, mid, s)).at(Arrange(f, v, m, w)) == t.at(Arrange(f, v, m', w))
  {
    if f == CHANNELS_FIRST {
      SwapMiddle(b, mid, mid', s, v, m, m', w);
    } else {
      SwapMiddle(b + s, mid, mid', [], v + w, m, m', []);
      assert b + s + mid + [] == b + s + mid && b + s + mid' + [] == b + s + mid';
      assert v + w + m + [] == v + w + m && v + w + m' + [] == v + w + m';
    }
    ReshapedAt(t, Arrange(f, b, mid, s), Arrange(f, v, m, w), Arrange(f, v, m', w));
  }

  // ---------------------------------------------------------------------------------------------- emission

  datatype GroupFormat = FullOutGroupIn | GroupGroupOut

  // Groups, output channels per group, input channels per group.
  datatype Groups = Groups(g: int, gco: int, gci: int)

  // _G, _GCO and _GCI, from the total input channels and the kernel's two channel dimensions.
  function GroupsOf(f: GroupFormat, ci: int, k0: int, k1: int): Groups
    requires ci > 0 && k0 > 0 && k1 > 0
  {
    match f
    case FullOutGroupIn => Groups(ci / k1, k0 * k1 / ci, k1)
    case GroupGroupOut => Groups(k0, k1, ci / k0)
  }

  // The kernel's own channel dimensions: (CO, GCI) or (G, GCO).
  function OwnChannels(f: GroupFormat, q: Groups): (c: seq<int>)
    ensures |c| == 2
  {
    match f
    case FullOutGroupIn => [q.g * q.gco, q.gci]
    case GroupGroupOut => [q.g, q.gco]
  }

  function GroupedKernelDims(p: Setup, channels: seq<int>): seq<int> {
    Arrange(p.kernel, [], channels, p.filter)
  }

  // The main contraction, with variables n, g, gco, gci, x.., k..
  function LoweredGroups(p: Setup, q: Groups): Contraction
    requires p.Valid()
  {
    var r := p.Rank();
    Contraction(
      4 + 2 * r,
      Arrange(p.data, [Var(0)], [Var(1), Var(2)], Vars(4, r)),
      Arrange(p.data, [p.n], [q.g, q.gco], p.output),
      Arrange(p.data, [Var(0)], [Add(Mul(q.gci, Var(1)), Var(3))], SampleIdx(p, 4, 4 + r)),
      Arrange(p.kernel, [], [Var(1), Var(2), Var(3)], Vars(4 + r, r)))
  }

  // The whole program: reshape the kernel, contract, reshape the output.
  ghost function GroupedProgram(p: Setup, q: Groups, data: Tensor, kernel: Tensor): Tensor
    requires p.Valid()
  {
    var inner := Reshaped(kernel, GroupedKernelDims(p, [q.g, q.gco, q.gci]));
    Reshaped(Contract(LoweredGroups(p, q), data, inner), OutDims(p))
  }

  // ---------------------------------------------------------------------------------------------- meaning

  predicate SameGroup(q: Groups, co: int, ci: int) {
    q.gci > 0 && q.gco > 0 && ci / q.gci == co / q.gco
  }

  // The channels under which the given kernel holds the weight from input channel ci to output channel co.
  function OwnChannelsOf(f: GroupFormat, q: Groups, co: int, ci: int): (c: seq<int>)
    requires SameGroup(q, co, ci)
    ensures |c| == 2
  {
    if f == FullOutGroupIn then [co, ci % q.gci] else [ci / q.gci, co % q.gco]
  }

  // The dense kernel with the same effect: zero between channels of different groups.
  function BlockDiagonal(p: Setup, q: Groups, f: GroupFormat, kernel: Tensor): Tensor {
    Tensor(KernelDims(p), (idx: seq<int>) =>
      if |idx| < 2 then 0.0
      else
        var c := if p.kernel == CHANNELS_FIRST then idx[..2] else idx[|idx| - 2..];
        var k := if p.kernel == CHANNELS_FIRST then idx[2..] else idx[..|idx| - 2];
        var co := if p.kernel == CHANNELS_FIRST then c[0] else c[1];
        var ci := if p.kernel == CHANNELS_FIRST then c[1] else c[0];
        if SameGroup(q, co, ci) then kernel.at(Arrange(p.kernel, [], OwnChannelsOf(f, q, co, ci), k)) else 0.0)
  }

  lemma BlockDiagonalAt(p: Setup, q: Groups, f: GroupFormat, kernel: Tensor, co: int, ci: int, k: seq<int>)
    ensures BlockDiagonal(p, q, f, kernel).at(Arrange(p.kernel, [], KernelChannels(p.kernel, co, ci), k)) ==
              if SameGroup(q, co, ci) then kernel.at(Arrange(p.kernel, [], OwnChannelsOf(f, q, co, ci), k)) else 0.0
  {
    var idx := Arrange(p.kernel, [], KernelChannels(p.kernel, co, ci), k);
    if p.kernel == CHANNELS_FIRST {
      assert idx[..2] == [co, ci] && idx[2..] == k;
    } else {
      assert idx[|idx| - 2..] == [ci, co] && idx[..|idx| - 2] == k;
    }
  }

  // The sizes that make the reshapes exact.  GroupGroupOut has one input channel per group.
  predicate Exact(p: Setup, q: Groups, f: GroupFormat) {
    && p.Valid() && q.g > 0 && q.gco > 0 && q.gci > 0
    && p.ci == q.g * q.gci && p.co == q.g * q.gco
    && (f == GroupGroupOut ==> q.gci == 1)
    && Positive(p.filter) && Positive(p.output) && p.n > 0
  }

  // With FullOutGroupIn those sizes are what the formulas give exactly when GCI divides CI and the number of groups
  // divides CO.
  lemma ExactWhenDivisible(ci: int, co: int, gci: int)
    requires ci > 0 && co > 0 && gci > 0
    ensures var q := GroupsOf(FullOutGroupIn, ci, co, gci);
            q.g * q.gci == ci && q.g * q.gco == co <==> ci % gci == 0 && ci / gci > 0 && co % (ci / gci) == 0
  {
    var q := GroupsOf(FullOutGroupIn, ci, co, gci);
    assert gci * (ci / gci) + ci % gci == ci;
    if ci % gci == 0 {
      var g := ci / gci;
      Multiple(gci, g);
      assert g * gci == ci;
      assert g * (co / g) + co % g == co;
      var r := co % g;
      assert co * gci == (co / g) * ci + r * gci by {
        assert (g * (co / g) + r) * gci == (co / g) * (g * gci) + r * gci;
      }
      assert 0 <= r * gci < ci by {
        Multiple(gci, g - r);
        assert gci * (g - r) == g * gci - r * gci;
      }
      DivMod(co / g, r * gci, ci);
      assert q.gco == co / g;
    }
  }

  // With GroupGroupOut the kernel's reshape keeps its elements exactly when every group has one input channel.
  lemma OneChannelPerGroup(ci: int, g: int, gco: int)
    requires ci > 0 && g > 0 && gco > 0
    ensures var q := GroupsOf(GroupGroupOut, ci, g, gco);
            && q.g == g && q.gco == gco
            && (q.g * q.gci == ci && Product([q.g, q.gco, q.gci]) == Product([g, gco]) <==> ci == g)
  {
    var q := GroupsOf(GroupGroupOut, ci, g, gco);
    assert [g, gco, q.gci] == [g, gco] + [q.gci];
    ProductAppend([g, gco], [q.gci]);
    Flatten1(q.gci, 0);
    Flatten2(g, gco, 0, 0);
    Multiple(g, gco);
    DivMod(1, 0, g);
    SameProduct(g * gco, q.gci);
  }

  lemma SameProduct(a: int, b: int)
    requires a > 0
    ensures a * b == a <==> b == 1
  {
    assert a * b - a == a * (b - 1);
    Multiple(a, b - 1);
  }

  // ---------------------------------------------------------------------------------------------- the contraction

  lemma EvalGroupChannel(size: int, a: seq<int>)
    requires |a| > 3
    ensures EvalAll([Add(Mul(size, Var(1)), Var(3))], a) == [size * a[1] + a[3]]
  {
    assert Eval(Mul(size, Var(1)), a) == size * a[1];
    assert Eval(Add(Mul(size, Var(1)), Var(3)), a) == size * a[1] + a[3];
  }

  lemma GroupAccesses(p: Setup, q: Groups, n: int, g: int, gco: int, gci: int, x: seq<int>, k: seq<int>)
    requires p.Valid() && |x| == |k| == p.Rank()
    ensures var a := [n, g, gco, gci] + x + k;
            && EvalAll(LoweredGroups(p, q).out, a) == Arrange(p.data, [n], [g, gco], x)
            && EvalAll(LoweredGroups(p, q).left, a) == Arrange(p.data, [n], [q.gci * g + gci], Sample(p, x, k))
            && EvalAll(LoweredGroups(p, q).right, a) == Arrange(p.kernel, [], [g, gco, gci], k)
  {
    var a := [n, g, gco, gci] + x + k;
    var r := p.Rank();
    EvalPositions([n, g, gco, gci], x, k);
    EvalSample(p, [n, g, gco, gci], x, k);
    EvalArrange(p.data, [Var(0)], [Var(1), Var(2)], Vars(4, r), a);
    EvalArrange(p.data, [Var(0)], [Add(Mul(q.gci, Var(1)), Var(3))], SampleIdx(p, 4, 4 + r), a);
    EvalArrange(p.kernel, [], [Var(1), Var(2), Var(3)], Vars(4 + r, r), a);
    EvalGroupChannel(q.gci, a);
    assert EvalAll([Var(0)], a) == [n] && EvalAll([Var(1), Var(2)], a) == [g, gco];
    assert EvalAll([Var(1), Var(2), Var(3)], a) == [g, gco, gci] && EvalAll([], a) == [];
  }

  lemma GroupsDetermine(p: Setup, q: Groups, n: int, g: int, gco: int, x: seq<int>)
    requires p.Valid() && |x| == p.Rank()
    ensures Determines(LoweredGroups(p, q), Arrange(p.data, [n], [g, gco], x), [n, g, gco], 1, x)
  {
    var c := LoweredGroups(p, q);
    forall f: seq<int>, d: seq<int>, y, k | |f| == 3 && |d| == 1 && |y| == |k| == |x|
      ensures EvalAll(c.out, Pack(f, d, y, k)) == Arrange(p.data, [n], [g, gco], x) <==> f == [n, g, gco] && y == x
    {
      assert f == [f[0], f[1], f[2]] && f + d == [f[0], f[1], f[2], d[0]];
      GroupAccesses(p, q, f[0], f[1], f[2], d[0], y, k);
      ArrangeInjective(p.data, [f[0]], [f[1], f[2]], y, [n], [g, gco], x);
    }
  }

  lemma GroupsRight(p: Setup, q: Groups, inner: Tensor, n: int, g: int, gco: int, x: seq<int>)
    requires p.Valid() && |x| == p.Rank() && inner.dims == GroupedKernelDims(p, [q.g, q.gco, q.gci])
    requires 0 <= g < q.g && 0 <= gco < q.gco
    ensures RightWithin(LoweredGroups(p, q), inner, [n, g, gco], 1, x, [q.gci] + p.filter)
  {
    var c := LoweredGroups(p, q);
    forall d: seq<int>, k | |d| == 1 && |k| == |x|
      ensures InRange(EvalAll(c.right, Pack([n, g, gco], d, x, k)), inner.dims) <==> InRange(d + k, [q.gci] + p.filter)
    {
      assert d == [d[0]] && [n, g, gco] + d == [n, g, gco, d[0]];
      GroupAccesses(p, q, n, g, gco, d[0], x, k);
      ArrangeInRange(p.kernel, [], [g, gco, d[0]], k, [], [q.g, q.gco, q.gci], p.filter);
      Joined(d, k, [q.gci], p.filter);
      HeadInRange(g, gco, d[0], q.g, q.gco, q.gci);
      OneInRange(g, q.g);
      OneInRange(gco, q.gco);
      OneInRange(d[0], q.gci);
    }
  }

  // A tap of output channel (g, gco): input channel gci of the group, at kernel position k.
  function GroupTap(p: Setup, q: Groups, data: Tensor, inner: Tensor, n: int, g: int, gco: int, x: seq<int>)
    : seq<int> -> real
    requires p.Valid() && |x| == p.Rank()
  {
    (t: seq<int>) =>
      if |t| != 1 + p.Rank() then 0.0
      else
        Read(data, Arrange(p.data, [n], [q.gci * g + t[0]], Sample(p, x, t[1..])))
        * inner.at(Arrange(p.kernel, [], [g, gco, t[0]], t[1..]))
  }

  lemma GroupedCellTap(p: Setup, q: Groups, data: Tensor, inner: Tensor, n: int, g: int, gco: int, x: seq<int>,
                       t: seq<int>)
    requires p.Valid() && |x| == p.Rank() && |t| == 1 + p.Rank()
    ensures Extended(PackFrame([n, g, gco], 1, x, [q.gci] + p.filter), LoweredGroups(p, q), data, inner)(t)
         == GroupTap(p, q, data, inner, n, g, gco, x)(t)
  {
    var f, c := PackFrame([n, g, gco], 1, x, [q.gci] + p.filter), LoweredGroups(p, q);
    var k := t[1..];
    var a := [n, g, gco, t[0]] + x + k;
    assert f.build(t) == a by {
      assert [n, g, gco] + t[..1] == [n, g, gco, t[0]];
    }
    GroupAccesses(p, q, n, g, gco, t[0], x, k);
    assert Extended(f, c, data, inner)(t) == Read(data, EvalAll(c.left, a)) * inner.at(EvalAll(c.right, a));
  }

  lemma GroupedCell(p: Setup, q: Groups, data: Tensor, inner: Tensor, n: int, g: int, gco: int, x: seq<int>)
    requires p.Valid() && |x| == p.Rank() && inner.dims == GroupedKernelDims(p, [q.g, q.gco, q.gci])
    requires 0 <= g < q.g && 0 <= gco < q.gco
    ensures Contract(LoweredGroups(p, q), data, inner).at(Arrange(p.data, [n], [g, gco], x))
         == Sums.Over(Box([q.gci] + p.filter), GroupTap(p, q, data, inner, n, g, gco, x))
  {
    var c, cell := LoweredGroups(p, q), Arrange(p.data, [n], [g, gco], x);
    var free := [q.gci] + p.filter;
    var f := PackFrame([n, g, gco], 1, x, free);
    GroupsDetermine(p, q, n, g, gco, x);
    GroupsRight(p, q, inner, n, g, gco, x);
    PackedFrames(c, inner, cell, [n, g, gco], 1, x, free);
    CellAsBox(f, c, data, inner, cell);
    forall t | t in Box(free) ensures Extended(f, c, data, inner)(t) == GroupTap(p, q, data, inner, n, g, gco, x)(t) {
      GroupedCellTap(p, q, data, inner, n, g, gco, x, t);
    }
    Sums.Same(Box(free), Extended(f, c, data, inner), GroupTap(p, q, data, inner, n, g, gco, x));
  }

  // ---------------------------------------------------------------------------------------------- the reshapes

  // Where the reshaped kernel's element (g, gco, gci) sits in the kernel as given.
  function OwnIndex(f: GroupFormat, q: Groups, g: int, gco: int, gci: int): seq<int> {
    if f == FullOutGroupIn then [g * q.gco + gco, gci] else [g, gco]
  }

  lemma OwnChannelsMatch(f: GroupFormat, q: Groups, g: int, gco: int, gci: int)
    requires f == GroupGroupOut ==> q.gci == 1 && gci == 0
    ensures Product([q.g, q.gco, q.gci]) == Product(OwnChannels(f, q))
    ensures Flatten([q.g, q.gco, q.gci], [g, gco, gci]) == Flatten(OwnChannels(f, q), OwnIndex(f, q, g, gco, gci))
  {
    assert [q.g, q.gco, q.gci] == [] + [q.g, q.gco] + [q.gci] && [g, gco, gci] == [] + [g, gco] + [gci];
    if f == FullOutGroupIn {
      assert OwnChannels(f, q) == [] + [q.g * q.gco] + [q.gci];
      assert OwnIndex(f, q, g, gco, gci) == [] + [g * q.gco + gco] + [gci];
      SplitAxis([], q.g, q.gco, [q.gci], [], g, gco, [gci]);
      SplitProduct([], q.g, q.gco, [q.gci]);
    } else {
      assert [q.g, q.gco, q.gci] == [q.g, q.gco] + [1] && [g, gco, gci] == [g, gco] + [0];
      FlattenJoined([q.g, q.gco], [1], [g, gco], [0]);
      ProductAppend([q.g, q.gco], [1]);
      Flatten1(1, 0);
    }
  }

  lemma InnerKernelAt(p: Setup, q: Groups, f: GroupFormat, kernel: Tensor, g: int, gco: int, gci: int, k: seq<int>)
    requires Exact(p, q, f) && kernel.dims == GroupedKernelDims(p, OwnChannels(f, q))
    requires 0 <= g < q.g && 0 <= gco < q.gco && 0 <= gci < q.gci && InRange(k, p.filter)
    ensures Reshaped(kernel, GroupedKernelDims(p, [q.g, q.gco, q.gci])).at(Arrange(p.kernel, [], [g, gco, gci], k))
         == kernel.at(Arrange(p.kernel, [], OwnIndex(f, q, g, gco, gci), k))
  {
    var own, idx := OwnChannels(f, q), OwnIndex(f, q, g, gco, gci);
    InBlock(q.g, q.gco, g, gco);
    assert InRange(idx, own);
    ArrangeInRange(p.kernel, [], idx, k, [], own, p.filter);
    OwnChannelsMatch(f, q, g, gco, gci);
    ReshapedChannels(kernel, p.kernel, [], [q.g, q.gco, q.gci], own, p.filter, [], [g, gco, gci], idx, k);
  }

  lemma OutputAt(p: Setup, q: Groups, f: GroupFormat, t: Tensor, n: int, co: int, x: seq<int>)
    requires Exact(p, q, f) && t.dims == Arrange(p.data, [p.n], [q.g, q.gco], p.output)
    requires 0 <= n < p.n && 0 <= co < p.co && InRange(x, p.output)
    ensures 0 <= co / q.gco < q.g && 0 <= co % q.gco < q.gco
    ensures Reshaped(t, OutDims(p)).at(Arrange(p.data, [n], [co], x))
         == t.at(Arrange(p.data, [n], [co / q.gco, co % q.gco], x))
  {
    QuotientBelow(co, q.g, q.gco);
    var m := [co / q.gco, co % q.gco];
    BlockOfTwo(q.g, q.gco, co / q.gco, co % q.gco);
    assert (co / q.gco) * q.gco + co % q.gco == co;
    OneInRange(n, p.n);
    assert InRange(m, [q.g, q.gco]);
    ArrangeInRange(p.data, [n], m, x, [p.n], [q.g, q.gco], p.output);
    ReshapedChannels(t, p.data, [p.n], [p.co], [q.g, q.gco], p.output, [n], [co], m, x);
  }

  // ---------------------------------------------------------------------------------------------- the result

  // Input channel gci of group g is channel g * GCI + gci of the data.
  lemma PlaceOfTap(p: Setup, q: Groups, g: int, t: seq<int>)
    requires q.gci > 0 && p.ci == q.g * q.gci && 0 <= g < q.g && InRange(t, [q.gci] + p.filter)
    ensures InRange(t[1..], p.filter) && 0 <= t[0] < q.gci
    ensures InRange([g * q.gci + t[0]] + t[1..], [p.ci] + p.filter)
    ensures (g * q.gci + t[0]) / q.gci == g && (g * q.gci + t[0]) % q.gci == t[0]
  {
    HeadAndTail(t, [q.gci] + p.filter);
    assert ([q.gci] + p.filter)[1..] == p.filter;
    InBlock(q.g, q.gci, g, t[0]);
    OneInRange(g * q.gci + t[0], p.ci);
    Joined([g * q.gci + t[0]], t[1..], [p.ci], p.filter);
    DivMod(g, t[0], q.gci);
  }

  // The dense kernel's element for that channel is the reshaped kernel's.
  lemma KernelOfTap(p: Setup, q: Groups, f: GroupFormat, kernel: Tensor, co: int, ci: int,
                    g: int, gco: int, gci: int, k: seq<int>)
    requires Exact(p, q, f) && kernel.dims == GroupedKernelDims(p, OwnChannels(f, q))
    requires 0 <= g < q.g && 0 <= gco < q.gco && 0 <= gci < q.gci && InRange(k, p.filter)
    requires SameGroup(q, co, ci) && OwnChannelsOf(f, q, co, ci) == OwnIndex(f, q, g, gco, gci)
    ensures Reshaped(kernel, GroupedKernelDims(p, [q.g, q.gco, q.gci])).at(Arrange(p.kernel, [], [g, gco, gci], k))
         == BlockDiagonal(p, q, f, kernel).at(Arrange(p.kernel, [], KernelChannels(p.kernel, co, ci), k))
  {
    InnerKernelAt(p, q, f, kernel, g, gco, gci, k);
    BlockDiagonalAt(p, q, f, kernel, co, ci, k);
  }

  // The taps within a group and the taps of the dense convolution, one of which is the other moved to the group.
  function ToDense(q: Groups, g: int): seq<int> -> seq<int> {
    (t: seq<int>) => if |t| > 0 then [g * q.gci + t[0]] + t[1..] else t
  }

  function ToGroup(q: Groups, g: int): seq<int> -> seq<int> {
    (u: seq<int>) => if |u| > 0 then [u[0] - g * q.gci] + u[1..] else u
  }

  // A tap of a group and the dense tap it moves to agree when their kernel elements do.
  lemma TapsAgree(p: Setup, q: Groups, data: Tensor, inner: Tensor, wide: Tensor, n: int, co: int, g: int, gco: int,
                  x: seq<int>, t: seq<int>)
    requires p.Valid() && |x| == p.Rank() && |t| == 1 + p.Rank()
    requires inner.at(Arrange(p.kernel, [], [g, gco, t[0]], t[1..]))
          == wide.at(Arrange(p.kernel, [], KernelChannels(p.kernel, co, g * q.gci + t[0]), t[1..]))
    ensures GroupTap(p, q, data, inner, n, g, gco, x)(t) == Tap(p, data, wide, n, co, x)(ToDense(q, g)(t))
  {
    var ci := g * q.gci + t[0];
    var u := [ci] + t[1..];
    assert u[0] == ci && u[1..] == t[1..] && q.gci * g + t[0] == ci;
  }

  // The taps of the dense convolution that survive: those of co's own group.
  lemma GroupOfTap(p: Setup, q: Groups, f: GroupFormat, data: Tensor, kernel: Tensor, n: int, co: int, x: seq<int>,
                   t: seq<int>)
    requires Exact(p, q, f) && kernel.dims == GroupedKernelDims(p, OwnChannels(f, q)) && |x| == p.Rank()
    requires 0 <= co < p.co && InRange(t, [q.gci] + p.filter)
    ensures GroupTap(p, q, data, Reshaped(kernel, GroupedKernelDims(p, [q.g, q.gco, q.gci])),
                     n, co / q.gco, co % q.gco, x)(t)
         == Tap(p, data, BlockDiagonal(p, q, f, kernel), n, co, x)(ToDense(q, co / q.gco)(t))
  {
    var g, gco := co / q.gco, co % q.gco;
    QuotientBelow(co, q.g, q.gco);
    PlaceOfTap(p, q, g, t);
    KernelOfTap(p, q, f, kernel, co, g * q.gci + t[0], g, gco, t[0], t[1..]);
    TapsAgree(p, q, data, Reshaped(kernel, GroupedKernelDims(p, [q.g, q.gco, q.gci])),
              BlockDiagonal(p, q, f, kernel), n, co, g, gco, x, t);
  }

  lemma OtherGroupsVanish(p: Setup, q: Groups, f: GroupFormat, data: Tensor, kernel: Tensor, n: int, co: int,
                          x: seq<int>, u: seq<int>)
    requires Exact(p, q, f) && |x| == p.Rank() && InRange(u, [p.ci] + p.filter) && u[0] / q.gci != co / q.gco
    ensures Tap(p, data, BlockDiagonal(p, q, f, kernel), n, co, x)(u) == 0.0
  {
    BlockDiagonalAt(p, q, f, kernel, co, u[0], u[1..]);
  }

  lemma PositionInGroup(x: int, size: int, g: int)
    requires size > 0 && x / size == g
    ensures 0 <= x - g * size < size
  {
    assert size * (x / size) + x % size == x;
  }

  lemma OwnGroup(p: Setup, q: Groups, g: int, u: seq<int>)
    requires q.gci > 0 && InRange(u, [p.ci] + p.filter) && u[0] / q.gci == g
    ensures InRange(ToGroup(q, g)(u), [q.gci] + p.filter) && ToDense(q, g)(ToGroup(q, g)(u)) == u
  {
    HeadAndTail(u, [p.ci] + p.filter);
    assert ([p.ci] + p.filter)[1..] == p.filter;
    PositionInGroup(u[0], q.gci, g);
    var t := [u[0] - g * q.gci] + u[1..];
    assert t[0] == u[0] - g * q.gci && t[1..] == u[1..] && u == [u[0]] + u[1..];
    OneInRange(t[0], q.gci);
    Joined([t[0]], u[1..], [q.gci], p.filter);
  }

  lemma MovedTap(p: Setup, q: Groups, g: int, t: seq<int>)
    requires q.gci > 0 && p.ci == q.g * q.gci && 0 <= g < q.g && InRange(t, [q.gci] + p.filter)
    ensures InRange(ToDense(q, g)(t), [p.ci] + p.filter) && ToGroup(q, g)(ToDense(q, g)(t)) == t
  {
    PlaceOfTap(p, q, g, t);
    var u := [g * q.gci + t[0]] + t[1..];
    assert u[0] == g * q.gci + t[0] && u[1..] == t[1..] && t == [t[0]] + t[1..];
  }

  lemma OwnGroupSum(p: Setup, q: Groups, g: int, sparse: seq<int> -> real, dense: seq<int> -> real)
    requires q.gci > 0 && p.ci == q.g * q.gci && 0 <= g < q.g
    requires forall t :: InRange(t, [q.gci] + p.filter) ==> sparse(t) == dense(ToDense(q, g)(t))
    requires forall u :: InRange(u, [p.ci] + p.filter) && dense(u) != 0.0 ==> u[0] / q.gci == g
    ensures Sums.Over(Box([q.gci] + p.filter), sparse) == Sums.Over(Box([p.ci] + p.filter), dense)
  {
    var small, big := Box([q.gci] + p.filter), Box([p.ci] + p.filter);
    var h, back := ToDense(q, g), ToGroup(q, g);
    forall t | t in small ensures h(t) in big && back(h(t)) == t && sparse(t) == dense(h(t)) {
      MovedTap(p, q, g, t);
    }
    forall u | u in big && dense(u) != 0.0 ensures back(u) in small && h(back(u)) == u {
      OwnGroup(p, q, g, u);
    }
    Sums.Embed(small, big, h, back, sparse, dense);
  }

  lemma GroupSum(p: Setup, q: Groups, f: GroupFormat, data: Tensor, kernel: Tensor, n: int, co: int, x: seq<int>)
    requires Exact(p, q, f) && kernel.dims == GroupedKernelDims(p, OwnChannels(f, q)) && |x| == p.Rank()
    requires 0 <= co < p.co
    ensures Sums.Over(Box([q.gci] + p.filter),
                      GroupTap(p, q, data, Reshaped(kernel, GroupedKernelDims(p, [q.g, q.gco, q.gci])),
                               n, co / q.gco, co % q.gco, x))
         == ConvolvedAt(p, data, BlockDiagonal(p, q, f, kernel), n, co, x)
  {
    var g := co / q.gco;
    QuotientBelow(co, q.g, q.gco);
    var dense := Tap(p, data, BlockDiagonal(p, q, f, kernel), n, co, x);
    var sparse := GroupTap(p, q, data, Reshaped(kernel, GroupedKernelDims(p, [q.g, q.gco, q.gci])),
                           n, g, co % q.gco, x);
    forall t | InRange(t, [q.gci] + p.filter) ensures sparse(t) == dense(ToDense(q, g)(t)) {
      GroupOfTap(p, q, f, data, kernel, n, co, x, t);
    }
    forall u | InRange(u, [p.ci] + p.filter) && u[0] / q.gci != g ensures dense(u) == 0.0 {
      OtherGroupsVanish(p, q, f, data, kernel, n, co, x, u);
    }
    OwnGroupSum(p, q, g, sparse, dense);
  }

  // A grouped convolution is the dense convolution with the block-diagonal kernel: output channel co belongs to group
  // co / GCO.  For every rank, both data formats, both kernel formats and both group formats.
  lemma GroupedIsBlockDiagonal(p: Setup, q: Groups, f: GroupFormat, data: Tensor, kernel: Tensor,
                               n: int, co: int, x: seq<int>)
    requires Exact(p, q, f) && kernel.dims == GroupedKernelDims(p, OwnChannels(f, q))
    requires 0 <= n < p.n && 0 <= co < p.co && InRange(x, p.output)
    ensures GroupedProgram(p, q, data, kernel).at(Arrange(p.data, [n], [co], x))
         == ConvolvedAt(p, data, BlockDiagonal(p, q, f, kernel), n, co, x)
  {
    var g, gco := co / q.gco, co % q.gco;
    var inner := Reshaped(kernel, GroupedKernelDims(p, [q.g, q.gco, q.gci]));
    OutputAt(p, q, f, Contract(LoweredGroups(p, q), data, inner), n, co, x);
    GroupedCell(p, q, data, inner, n, g, gco, x);
    GroupSum(p, q, f, data, kernel, n, co, x);
  }
}
