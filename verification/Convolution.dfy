/**
 Convolutions as plaidml/op.py emits them: the index and dimension lists of `_ConvolutionStringFormatter`, the main
 contraction, and the reshapes around it when the convolution is grouped.
 */
module Convolutions {
  import opened Wrappers
  import opened Boxes
  import opened Contractions
  import Sums

  datatype Format = CHANNELS_FIRST | CHANNELS_LAST

  // The order in which a format lists batch, channel and spatial components.
  function Arrange<T>(f: Format, batch: seq<T>, channel: seq<T>, spatial: seq<T>): seq<T> {
    if f == CHANNELS_FIRST then batch + channel + spatial else batch + spatial + channel
  }

  function Vars(from: nat, count: nat): (vs: seq<Index>)
    ensures |vs| == count
  {
    seq(count, i requires 0 <= i < count => Var(from + i))
  }

  lemma EvalVars(from: nat, count: nat, a: seq<int>)
    requires from + count <= |a|
    ensures EvalAll(Vars(from, count), a) == a[from..from + count]
  {
  }

  lemma EvalArrange(f: Format, batch: seq<Index>, channel: seq<Index>, spatial: seq<Index>, a: seq<int>)
    ensures EvalAll(Arrange(f, batch, channel, spatial), a)
         == Arrange(f, EvalAll(batch, a), EvalAll(channel, a), EvalAll(spatial, a))
  {
  }

  lemma ArrangeInRange(f: Format, b: seq<int>, c: seq<int>, s: seq<int>, bd: seq<int>, cd: seq<int>, sd: seq<int>)
    requires |b| == |bd| && |c| == |cd| && |s| == |sd|
    ensures InRange(Arrange(f, b, c, s), Arrange(f, bd, cd, sd)) <==> InRange(b, bd) && InRange(c, cd) && InRange(s, sd)
  {
    if f == CHANNELS_FIRST {
      Joined(b + c, s, bd + cd, sd);
      Joined(b, c, bd, cd);
    } else {
      Joined(b + s, c, bd + sd, cd);
      Joined(b, s, bd, sd);
    }
  }

  lemma ArrangeInjective(f: Format, b: seq<int>, c: seq<int>, s: seq<int>, b': seq<int>, c': seq<int>, s': seq<int>)
    requires |b| == |b'| && |c| == |c'| && |s| == |s'|
    ensures Arrange(f, b, c, s) == Arrange(f, b', c', s') <==> b == b' && c == c' && s == s'
  {
    if f == CHANNELS_FIRST {
      Cancel(b + c, s, b' + c', s');
      Cancel(b, c, b', c');
    } else {
      Cancel(b + s, c, b' + s', c');
      Cancel(b, s, b', s');
    }
  }

  lemma Cancel(a: seq<int>, b: seq<int>, a': seq<int>, b': seq<int>)
    requires |a| == |a'|
    ensures a + b == a' + b' <==> a == a' && b == b'
  {
    if a + b == a' + b' {
      assert a == (a + b)[..|a|] && b == (a + b)[|a|..];
    }
  }

  // ---------------------------------------------------------------------------------------------- frames

  // Assignments are packed as: variables fixed by the cell, reduced channel variables, output position, kernel
  // position.
  function Pack(fixed: seq<int>, reduced: seq<int>, x: seq<int>, k: seq<int>): seq<int> {
    fixed + reduced + x + k
  }

  // The frame of a convolution-like cell: its fixed variables and output position are known, and `q` reduced
  // variables and the kernel position are free.
  function PackFrame(fixed: seq<int>, q: nat, x: seq<int>, free: seq<int>): Frame {
    var start := |fixed| + q;
    Frame(free,
          (t: seq<int>) => if |t| == q + |x| then Pack(fixed, t[..q], x, t[q..]) else [],
          (a: seq<int>) => if |a| == start + 2 * |x| then a[|fixed|..start] + a[start + |x|..] else [])
  }

  // The output index determines the fixed variables and the output position.
  ghost predicate Determines(c: Contraction, cell: seq<int>, fixed: seq<int>, q: nat, x: seq<int>) {
    forall f, d, y, k :: |f| == |fixed| && |d| == q && |y| == |x| && |k| == |x| ==>
      (EvalAll(c.out, Pack(f, d, y, k)) == cell <==> f == fixed && y == x)
  }

  // The right-hand access is in range exactly when the free variables are.
  ghost predicate RightWithin(c: Contraction, r: Tensor, fixed: seq<int>, q: nat, x: seq<int>, free: seq<int>) {
    forall d, k :: |d| == q && |k| == |x| ==>
      (InRange(EvalAll(c.right, Pack(fixed, d, x, k)), r.dims) <==> InRange(d + k, free))
  }

  lemma Packed(fixed: seq<int>, q: nat, x: seq<int>, free: seq<int>, d: seq<int>, k: seq<int>)
    requires |d| == q && |k| == |x|
    ensures var f := PackFrame(fixed, q, x, free);
            f.build(d + k) == Pack(fixed, d, x, k) && f.take(Pack(fixed, d, x, k)) == d + k
  {
    assert (d + k)[..q] == d && (d + k)[q..] == k;
    var a := Pack(fixed, d, x, k);
    assert a[|fixed|..|fixed| + q] == d && a[|fixed| + q + |x|..] == k;
  }

  lemma Unpacked(a: seq<int>, fixed: nat, q: nat, rank: nat)
    requires |a| == fixed + q + 2 * rank
    ensures a == Pack(a[..fixed], a[fixed..fixed + q], a[fixed + q..fixed + q + rank], a[fixed + q + rank..])
  {
  }

  lemma PackedForward(c: Contraction, r: Tensor, cell: seq<int>, fixed: seq<int>, q: nat, x: seq<int>, free: seq<int>,
                      t: seq<int>)
    requires c.vars == |fixed| + q + 2 * |x| && |free| == q + |x|
    requires Determines(c, cell, fixed, q, x) && RightWithin(c, r, fixed, q, x, free) && InRange(t, free)
    ensures Framed(PackFrame(fixed, q, x, free), c, r, cell, t)
  {
    Packed(fixed, q, x, free, t[..q], t[q..]);
    assert t[..q] + t[q..] == t;
    assert |t[..q]| == q && |t[q..]| == |x|;
  }

  lemma Parts(a: seq<int>, fixed: seq<int>, q: nat, x: seq<int>, c: Contraction, r: Tensor, cell: seq<int>,
              free: seq<int>)
    requires |a| == |fixed| + q + 2 * |x| && |free| == q + |x|
    requires Determines(c, cell, fixed, q, x) && RightWithin(c, r, fixed, q, x, free)
    requires EvalAll(c.out, a) == cell && InRange(EvalAll(c.right, a), r.dims)
    ensures var d, k := a[|fixed|..|fixed| + q], a[|fixed| + q + |x|..];
            a == Pack(fixed, d, x, k) && InRange(d + k, free)
  {
    var start := |fixed| + q;
    var f, d, y, k := a[..|fixed|], a[|fixed|..start], a[start..start + |x|], a[start + |x|..];
    Unpacked(a, |fixed|, q, |x|);
    assert |f| == |fixed| && |d| == q && |y| == |x| && |k| == |x|;
    assert EvalAll(c.out, Pack(f, d, y, k)) == cell;
    assert f == fixed && y == x;
  }

  lemma PackedBackward(c: Contraction, r: Tensor, cell: seq<int>, fixed: seq<int>, q: nat, x: seq<int>, free: seq<int>,
                       a: seq<int>)
    requires c.vars == |fixed| + q + 2 * |x| && |free| == q + |x|
    requires Determines(c, cell, fixed, q, x) && RightWithin(c, r, fixed, q, x, free)
    requires |a| == c.vars && EvalAll(c.out, a) == cell && InRange(EvalAll(c.right, a), r.dims)
    ensures var f := PackFrame(fixed, q, x, free); InRange(f.take(a), free) && f.build(f.take(a)) == a
  {
    Parts(a, fixed, q, x, c, r, cell, free);
    Packed(fixed, q, x, free, a[|fixed|..|fixed| + q], a[|fixed| + q + |x|..]);
  }

  lemma PackedFrames(c: Contraction, r: Tensor, cell: seq<int>, fixed: seq<int>, q: nat, x: seq<int>, free: seq<int>)
    requires c.vars == |fixed| + q + 2 * |x| && |free| == q + |x|
    requires Determines(c, cell, fixed, q, x) && RightWithin(c, r, fixed, q, x, free)
    ensures Frames(PackFrame(fixed, q, x, free), c, r, cell)
  {
    var f := PackFrame(fixed, q, x, free);
    forall t | InRange(t, f.free) ensures Framed(f, c, r, cell, t) {
      PackedForward(c, r, cell, fixed, q, x, free, t);
    }
    forall a | |a| == c.vars && EvalAll(c.out, a) == cell && InRange(EvalAll(c.right, a), r.dims)
      ensures InRange(f.take(a), f.free) && f.build(f.take(a)) == a
    {
      PackedBackward(c, r, cell, fixed, q, x, free, a);
    }
  }

  // ---------------------------------------------------------------------------------------------- ungrouped

  // The formatter's numbers: the three shapes, split into their parts, and the sampling along each spatial axis.
  datatype Setup = Setup(
    data: Format, kernel: Format, strides: seq<int>, dilations: seq<int>, before: seq<int>,
    n: int, ci: int, co: int, input: seq<int>, filter: seq<int>, output: seq<int>)
  {
    function Rank(): nat { |filter| }

    predicate Valid() {
      |strides| == |dilations| == |before| == |input| == |output| == |filter|
    }
  }

  function KernelChannels<T>(f: Format, co: T, ci: T): (s: seq<T>)
    ensures |s| == 2
  {
    if f == CHANNELS_FIRST then [co, ci] else [ci, co]
  }

  lemma ChannelsInRange(f: Format, co: int, ci: int, cod: int, cid: int)
    ensures InRange(KernelChannels(f, co, ci), KernelChannels(f, cod, cid)) <==> 0 <= co < cod && 0 <= ci < cid
  {
    var idx, dims := KernelChannels(f, co, ci), KernelChannels(f, cod, cid);
    assert InRange(idx, dims) <==> 0 <= idx[0] < dims[0] && 0 <= idx[1] < dims[1];
  }

  function DataDims(p: Setup): seq<int> { Arrange(p.data, [p.n], [p.ci], p.input) }

  function KernelDims(p: Setup): seq<int> { Arrange(p.kernel, [], KernelChannels(p.kernel, p.co, p.ci), p.filter) }

  function OutDims(p: Setup): seq<int> { Arrange(p.data, [p.n], [p.co], p.output) }

  // '{s}*x{i} + {d}*k{i} - Pad{i}' for each axis; x and k start at the given variables.
  function SampleIdx(p: Setup, x: nat, k: nat): (s: seq<Index>)
    requires p.Valid()
    ensures |s| == p.Rank()
  {
    seq(p.Rank(), i requires 0 <= i < p.Rank() =>
      Sub(Add(Mul(p.strides[i], Var(x + i)), Mul(p.dilations[i], Var(k + i))), Lit(p.before[i])))
  }

  // The input position sampled for output position x and kernel position k.
  function Sample(p: Setup, x: seq<int>, k: seq<int>): (s: seq<int>)
    requires p.Valid() && |x| == |k| == p.Rank()
    ensures |s| == p.Rank()
  {
    seq(p.Rank(), i requires 0 <= i < p.Rank() => p.strides[i] * x[i] + p.dilations[i] * k[i] - p.before[i])
  }

  lemma EvalAxis(s: int, d: int, b: int, x: nat, k: nat, a: seq<int>)
    requires x < |a| && k < |a|
    ensures Eval(Sub(Add(Mul(s, Var(x)), Mul(d, Var(k))), Lit(b)), a) == s * a[x] + d * a[k] - b
  {
    assert Eval(Mul(s, Var(x)), a) == s * a[x];
    assert Eval(Mul(d, Var(k)), a) == d * a[k];
    assert Eval(Add(Mul(s, Var(x)), Mul(d, Var(k))), a) == s * a[x] + d * a[k];
  }

  lemma EvalPositions(head: seq<int>, x: seq<int>, k: seq<int>)
    requires |x| == |k|
    ensures EvalAll(Vars(|head|, |x|), head + x + k) == x
    ensures EvalAll(Vars(|head| + |x|, |x|), head + x + k) == k
  {
    EvalVars(|head|, |x|, head + x + k);
    EvalVars(|head| + |x|, |x|, head + x + k);
  }

  lemma EvalSample(p: Setup, head: seq<int>, x: seq<int>, k: seq<int>)
    requires p.Valid() && |x| == |k| == p.Rank()
    ensures EvalAll(SampleIdx(p, |head|, |head| + |x|), head + x + k) == Sample(p, x, k)
  {
    var a := head + x + k;
    var s := SampleIdx(p, |head|, |head| + |x|);
    forall i | 0 <= i < p.Rank() ensures EvalAll(s, a)[i] == Sample(p, x, k)[i] {
      assert a[|head| + i] == x[i] && a[|head| + |x| + i] == k[i];
      EvalAxis(p.strides[i], p.dilations[i], p.before[i], |head| + i, |head| + |x| + i, a);
      assert s[i] == Sub(Add(Mul(p.strides[i], Var(|head| + i)), Mul(p.dilations[i], Var(|head| + |x| + i))),
                         Lit(p.before[i]));
      assert EvalAll(s, a)[i] == Eval(s[i], a);
    }
  }

  // O[Oi_idxs : Oi_dims] = +(I[I_idxs] * K[Ki_idxs]) with variables n, co, ci, x.., k..
  function Lowered(p: Setup): Contraction
    requires p.Valid()
  {
    var r := p.Rank();
    Contraction(
      3 + 2 * r,
      Arrange(p.data, [Var(0)], [Var(1)], Vars(3, r)),
      OutDims(p),
      Arrange(p.data, [Var(0)], [Var(2)], SampleIdx(p, 3, 3 + r)),
      Arrange(p.kernel, [], KernelChannels(p.kernel, Var(1), Var(2)), Vars(3 + r, r)))
  }

  // What the emitted accesses come to for an assignment.
  lemma LoweredAccesses(p: Setup, n: int, co: int, ci: int, x: seq<int>, k: seq<int>)
    requires p.Valid() && |x| == |k| == p.Rank()
    ensures var a := [n, co, ci] + x + k;
            && EvalAll(Lowered(p).out, a) == Arrange(p.data, [n], [co], x)
            && EvalAll(Lowered(p).left, a) == Arrange(p.data, [n], [ci], Sample(p, x, k))
            && EvalAll(Lowered(p).right, a) == Arrange(p.kernel, [], KernelChannels(p.kernel, co, ci), k)
  {
    var a := [n, co, ci] + x + k;
    var r := p.Rank();
    EvalPositions([n, co, ci], x, k);
    EvalSample(p, [n, co, ci], x, k);
    EvalArrange(p.data, [Var(0)], [Var(1)], Vars(3, r), a);
    EvalArrange(p.data, [Var(0)], [Var(2)], SampleIdx(p, 3, 3 + r), a);
    EvalArrange(p.kernel, [], KernelChannels(p.kernel, Var(1), Var(2)), Vars(3 + r, r), a);
    assert EvalAll([Var(0)], a) == [n] && EvalAll([Var(1)], a) == [co] && EvalAll([Var(2)], a) == [ci];
    assert EvalAll(KernelChannels(p.kernel, Var(1), Var(2)), a) == KernelChannels(p.kernel, co, ci);
    assert EvalAll([], a) == [];
  }

  // The convolution as mathematics: the input is extended by zero, and every input channel reaches every output.
  function Tap(p: Setup, data: Tensor, kernel: Tensor, n: int, co: int, x: seq<int>): seq<int> -> real
    requires p.Valid() && |x| == p.Rank()
  {
    (t: seq<int>) =>
      if |t| != 1 + p.Rank() then 0.0
      else
        Read(data, Arrange(p.data, [n], [t[0]], Sample(p, x, t[1..])))
        * kernel.at(Arrange(p.kernel, [], KernelChannels(p.kernel, co, t[0]), t[1..]))
  }

  ghost function ConvolvedAt(p: Setup, data: Tensor, kernel: Tensor, n: int, co: int, x: seq<int>): real
    requires p.Valid() && |x| == p.Rank()
  {
    Sums.Over(Box([p.ci] + p.filter), Tap(p, data, kernel, n, co, x))
  }

  lemma LoweredDetermines(p: Setup, n: int, co: int, x: seq<int>)
    requires p.Valid() && |x| == p.Rank()
    ensures Determines(Lowered(p), Arrange(p.data, [n], [co], x), [n, co], 1, x)
  {
    var c := Lowered(p);
    forall f: seq<int>, d: seq<int>, y, k | |f| == 2 && |d| == 1 && |y| == |k| == |x|
      ensures EvalAll(c.out, Pack(f, d, y, k)) == Arrange(p.data, [n], [co], x) <==> f == [n, co] && y == x
    {
      assert f == [f[0], f[1]] && f + d == [f[0], f[1], d[0]];
      LoweredAccesses(p, f[0], f[1], d[0], y, k);
      ArrangeInjective(p.data, [f[0]], [f[1]], y, [n], [co], x);
    }
  }

  lemma LoweredRight(p: Setup, kernel: Tensor, n: int, co: int, x: seq<int>)
    requires p.Valid() && kernel.dims == KernelDims(p) && |x| == p.Rank() && 0 <= co < p.co
    ensures RightWithin(Lowered(p), kernel, [n, co], 1, x, [p.ci] + p.filter)
  {
    var c := Lowered(p);
    forall d: seq<int>, k | |d| == 1 && |k| == |x|
      ensures InRange(EvalAll(c.right, Pack([n, co], d, x, k)), kernel.dims) <==> InRange(d + k, [p.ci] + p.filter)
    {
      assert d == [d[0]] && [n, co] + d == [n, co, d[0]];
      LoweredAccesses(p, n, co, d[0], x, k);
      ArrangeInRange(p.kernel, [], KernelChannels(p.kernel, co, d[0]), k,
                     [], KernelChannels(p.kernel, p.co, p.ci), p.filter);
      Joined(d, k, [p.ci], p.filter);
      OneInRange(d[0], p.ci);
      ChannelsInRange(p.kernel, co, d[0], p.co, p.ci);
    }
  }

  lemma LoweredTap(p: Setup, data: Tensor, kernel: Tensor, n: int, co: int, x: seq<int>, t: seq<int>)
    requires p.Valid() && |x| == p.Rank() && |t| == 1 + p.Rank()
    ensures Extended(PackFrame([n, co], 1, x, [p.ci] + p.filter), Lowered(p), data, kernel)(t)
         == Tap(p, data, kernel, n, co, x)(t)
  {
    var f, c := PackFrame([n, co], 1, x, [p.ci] + p.filter), Lowered(p);
    var k := t[1..];
    var a := [n, co, t[0]] + x + k;
    assert f.build(t) == a by {
      assert [n, co] + t[..1] == [n, co, t[0]];
    }
    LoweredAccesses(p, n, co, t[0], x, k);
    assert Extended(f, c, data, kernel)(t) == Read(data, EvalAll(c.left, a)) * kernel.at(EvalAll(c.right, a));
  }

  // The emitted contraction computes the convolution, for every rank and both formats.
  lemma LoweringIsConvolution(p: Setup, data: Tensor, kernel: Tensor, n: int, co: int, x: seq<int>)
    requires p.Valid() && kernel.dims == KernelDims(p) && |x| == p.Rank() && 0 <= co < p.co
    ensures Contract(Lowered(p), data, kernel).at(Arrange(p.data, [n], [co], x))
         == ConvolvedAt(p, data, kernel, n, co, x)
  {
    var c, cell := Lowered(p), Arrange(p.data, [n], [co], x);
    var free := [p.ci] + p.filter;
    var f := PackFrame([n, co], 1, x, free);
    LoweredDetermines(p, n, co, x);
    LoweredRight(p, kernel, n, co, x);
    PackedFrames(c, kernel, cell, [n, co], 1, x, free);
    CellAsBox(f, c, data, kernel, cell);
    forall t | t in Box(free) ensures Extended(f, c, data, kernel)(t) == Tap(p, data, kernel, n, co, x)(t) {
      LoweredTap(p, data, kernel, n, co, x, t);
    }
    Sums.Same(Box(free), Extended(f, c, data, kernel), Tap(p, data, kernel, n, co, x));
  }

  // ---------------------------------------------------------------------------------------------- single elements

  lemma OneTerm(dims: seq<int>, place: seq<int>, term: seq<int> -> real)
    requires InRange(place, dims) && forall t :: InRange(t, dims) && t != place ==> term(t) == 0.0
    ensures Sums.Over(Box(dims), term) == term(place)
  {
    Sums.Support(Box(dims), {place}, term);
    Sums.Single(place, term);
  }

  // Input position d lies under kernel position k of the window of output position x.
  predicate Under(p: Setup, x: seq<int>, k: seq<int>, d: seq<int>)
    requires p.Valid()
  {
    |x| == |k| == |d| == p.Rank()
    && forall i :: 0 <= i < p.Rank() ==> d[i] == p.strides[i] * x[i] + p.dilations[i] * k[i] - p.before[i]
  }

  function DataIdx(p: Setup, n: int, ci: int, d: seq<int>): seq<int> { Arrange(p.data, [n], [ci], d) }

  function KernelIdx(p: Setup, co: int, ci: int, k: seq<int>): seq<int> {
    Arrange(p.kernel, [], KernelChannels(p.kernel, co, ci), k)
  }

  lemma KernelIdxInjective(p: Setup, co: int, ci: int, k: seq<int>, co': int, ci': int, k': seq<int>)
    requires |k| == |k'|
    ensures KernelIdx(p, co, ci, k) == KernelIdx(p, co', ci', k') <==> co == co' && ci == ci' && k == k'
  {
    var a, b := KernelChannels(p.kernel, co, ci), KernelChannels(p.kernel, co', ci');
    ArrangeInjective(p.kernel, [], a, k, [], b, k');
    assert a == b <==> a[0] == b[0] && a[1] == b[1];
  }

  // Only the tap of the kernel's one element contributes.
  lemma OtherTaps(p: Setup, data: Tensor, co: int, ci: int, k: seq<int>, n: int, co': int, x: seq<int>, t: seq<int>)
    requires p.Valid() && |x| == |k| == p.Rank() && |t| == 1 + p.Rank() && (co' != co || t != [ci] + k)
    ensures Tap(p, data, One(KernelDims(p), KernelIdx(p, co, ci, k)), n, co', x)(t) == 0.0
  {
    KernelIdxInjective(p, co', t[0], t[1..], co, ci, k);
    assert t == [t[0]] + t[1..];
  }

  lemma SampleUnder(p: Setup, x: seq<int>, k: seq<int>, d: seq<int>)
    requires p.Valid() && |x| == |k| == |d| == p.Rank()
    ensures Sample(p, x, k) == d <==> Under(p, x, k, d)
  {
    var s := Sample(p, x, k);
    assert forall i :: 0 <= i < p.Rank() ==> s[i] == p.strides[i] * x[i] + p.dilations[i] * k[i] - p.before[i];
    if Under(p, x, k, d) {
      assert forall i :: 0 <= i < p.Rank() ==> s[i] == d[i];
    }
  }

  lemma OwnTap(p: Setup, n: int, ci: int, d: seq<int>, co: int, ci': int, k: seq<int>, n': int, x: seq<int>)
    requires p.Valid() && |x| == |k| == |d| == p.Rank() && InRange(DataIdx(p, n, ci, d), DataDims(p))
    ensures Tap(p, One(DataDims(p), DataIdx(p, n, ci, d)), One(KernelDims(p), KernelIdx(p, co, ci', k)), n', co, x)
              ([ci'] + k)
         == if n' == n && ci' == ci && Under(p, x, k, d) then 1.0 else 0.0
  {
    var data := One(DataDims(p), DataIdx(p, n, ci, d));
    assert ([ci'] + k)[1..] == k;
    var place := DataIdx(p, n', ci', Sample(p, x, k));
    assert Read(data, place) == if place == DataIdx(p, n, ci, d) then 1.0 else 0.0;
    ArrangeInjective(p.data, [n'], [ci'], Sample(p, x, k), [n], [ci], d);
    assert [n'] == [n] <==> n' == n;
    assert [ci'] == [ci] <==> ci' == ci;
    SampleUnder(p, x, k, d);
  }

  lemma SumOfTaps(p: Setup, data: Tensor, co: int, ci: int, k: seq<int>, n: int, co': int, x: seq<int>)
    requires p.Valid() && |x| == |k| == p.Rank() && InRange(KernelIdx(p, co, ci, k), KernelDims(p))
    ensures var kernel := One(KernelDims(p), KernelIdx(p, co, ci, k));
            ConvolvedAt(p, data, kernel, n, co', x) ==
              if co' == co then Tap(p, data, kernel, n, co, x)([ci] + k) else 0.0
  {
    var free, tap := [p.ci] + p.filter, Tap(p, data, One(KernelDims(p), KernelIdx(p, co, ci, k)), n, co', x);
    KernelPlaceInRange(p, co, ci, k);
    forall t | InRange(t, free) && (co' != co || t != [ci] + k) ensures tap(t) == 0.0 {
      OtherTaps(p, data, co, ci, k, n, co', x, t);
    }
    OneTerm(free, [ci] + k, tap);
  }

  // A single data element and a single kernel element meet in exactly the outputs whose window puts one over the
  // other: stride times output position plus dilation times kernel position less padding, along every axis.
  lemma OneMeetsOne(p: Setup, n: int, ci: int, d: seq<int>, co: int, ci': int, k: seq<int>,
                    n': int, co': int, x: seq<int>)
    requires p.Valid() && |x| == |k| == |d| == p.Rank() && 0 <= co' < p.co
    requires InRange(DataIdx(p, n, ci, d), DataDims(p)) && InRange(KernelIdx(p, co, ci', k), KernelDims(p))
    ensures Contract(Lowered(p), One(DataDims(p), DataIdx(p, n, ci, d)),
                     One(KernelDims(p), KernelIdx(p, co, ci', k))).at(Arrange(p.data, [n'], [co'], x))
         == if n' == n && co' == co && ci' == ci && Under(p, x, k, d) then 1.0 else 0.0
  {
    var data, kernel := One(DataDims(p), DataIdx(p, n, ci, d)), One(KernelDims(p), KernelIdx(p, co, ci', k));
    LoweringIsConvolution(p, data, kernel, n', co', x);
    SumOfTaps(p, data, co, ci', k, n', co', x);
    OwnTap(p, n, ci, d, co, ci', k, n', x);
  }

  lemma KernelPlaceInRange(p: Setup, co: int, ci: int, k: seq<int>)
    requires |k| == p.Rank() && InRange(KernelIdx(p, co, ci, k), KernelDims(p))
    ensures InRange([ci] + k, [p.ci] + p.filter)
  {
    ArrangeInRange(p.kernel, [], KernelChannels(p.kernel, co, ci), k,
                   [], KernelChannels(p.kernel, p.co, p.ci), p.filter);
    ChannelsInRange(p.kernel, co, ci, p.co, p.ci);
    OneInRange(ci, p.ci);
    Joined([ci], k, [p.ci], p.filter);
  }

  // ---------------------------------------------------------------------------------------------- transposed

  // I[I_idxs : I_dims] = +(O[Oi_idxs] * K[Ki_idxs]), as ConvolutionTranspose emits it from the same formatter.
  function LoweredTranspose(p: Setup): Contraction
    requires p.Valid()
  {
    var r := p.Rank();
    Contraction(
      3 + 2 * r,
      Arrange(p.data, [Var(0)], [Var(2)], SampleIdx(p, 3, 3 + r)),
      DataDims(p),
      Arrange(p.data, [Var(0)], [Var(1)], Vars(3, r)),
      Arrange(p.kernel, [], KernelChannels(p.kernel, Var(1), Var(2)), Vars(3 + r, r)))
  }

  // Every assignment that touches all three tensors lies in the box of the dimensions.
  lemma TouchesInBox(p: Setup, data: Tensor, kernel: Tensor, a: seq<int>)
    requires p.Valid() && data.dims == DataDims(p) && kernel.dims == KernelDims(p)
    requires Touches(Lowered(p), data, kernel, a)
    ensures InRange(a, [p.n, p.co, p.ci] + p.output + p.filter)
  {
    var r := p.Rank();
    var x, k := a[3..3 + r], a[3 + r..];
    assert a == [a[0], a[1], a[2]] + x + k;
    LoweredAccesses(p, a[0], a[1], a[2], x, k);
    ArrangeInRange(p.data, [a[0]], [a[1]], x, [p.n], [p.co], p.output);
    ArrangeInRange(p.kernel, [], KernelChannels(p.kernel, a[1], a[2]), k,
                   [], KernelChannels(p.kernel, p.co, p.ci), p.filter);
    ChannelsInRange(p.kernel, a[1], a[2], p.co, p.ci);
    HeadInRange(a[0], a[1], a[2], p.n, p.co, p.ci);
    Joined([a[0], a[1], a[2]], x, [p.n, p.co, p.ci], p.output);
    Joined([a[0], a[1], a[2]] + x, k, [p.n, p.co, p.ci] + p.output, p.filter);
  }

  lemma HeadInRange(n: int, co: int, ci: int, nd: int, cod: int, cid: int)
    ensures InRange([n, co, ci], [nd, cod, cid]) <==> InRange([n], [nd]) && InRange([co], [cod]) && 0 <= ci < cid
  {
    var idx, dims := [n, co, ci], [nd, cod, cid];
    assert InRange(idx, dims) <==> 0 <= idx[0] < dims[0] && 0 <= idx[1] < dims[1] && 0 <= idx[2] < dims[2];
    OneInRange(n, nd);
    OneInRange(co, cod);
  }

  // The transposed convolution is the adjoint of the convolution with the same parameters, for every rank, stride,
  // dilation, padding and format: <conv(I, K), O> == <I, convT(O, K)>.
  lemma TransposeIsAdjoint(p: Setup, data: Tensor, kernel: Tensor, out: Tensor)
    requires p.Valid() && data.dims == DataDims(p) && kernel.dims == KernelDims(p) && out.dims == OutDims(p)
    ensures Inner(Contract(Lowered(p), data, kernel), out) == Inner(data, Contract(LoweredTranspose(p), out, kernel))
  {
    var c := Lowered(p);
    var box := Box([p.n, p.co, p.ci] + p.output + p.filter);
    var s := set a | a in box && Touches(c, data, kernel, a);
    forall a ensures a in s <==> Touches(c, data, kernel, a) {
      if Touches(c, data, kernel, a) {
        TouchesInBox(p, data, kernel, a);
      }
    }
    Adjoint(c, data, kernel, out, s);
    assert Transposed(c, data) == LoweredTranspose(p);
  }
}
