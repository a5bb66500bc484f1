/** Indexing a value (plaidml/tile.py:376-570): Python slices become affine index formulas.  Sizes are numbers here. */
module Slices {
  import opened Wrappers
  import opened Boxes
  import opened Contractions
  import opened Convolutions
  import Layout
  import Padding

  // A slice component: None, an int, or something that is neither.
  datatype Part = Absent | Int(n: int) | Other

  datatype Item = At(i: int) | Span(start: Part, stop: Part, step: Part) | Ellipsis

  datatype SliceError = ManyEllipses | KeyTooLong | NotInts | ZeroStep | IndexError

  // ---------------------------------------------------------------------------------------------- Python's slices

  function Normal(i: int, n: int): int {
    if i < 0 then n + i else i
  }

  function Clamp(i: int, low: int, high: int): int {
    if i < low then low else if i > high then high else i
  }

  // slice.indices
  function PyStart(n: nat, start: Part, step: int): int {
    if start.Int? then if step > 0 then Clamp(Normal(start.n, n), 0, n) else Clamp(Normal(start.n, n), -1, n - 1)
    else if step > 0 then 0 else n - 1
  }

  function PyStop(n: nat, stop: Part, step: int): int {
    if stop.Int? then if step > 0 then Clamp(Normal(stop.n, n), 0, n) else Clamp(Normal(stop.n, n), -1, n - 1)
    else if step > 0 then n else -1
  }

  // len(range(start, stop, step))
  function PyCount(n: nat, start: Part, stop: Part, step: int): (count: int)
    requires step != 0
  {
    var first, last := PyStart(n, start, step), PyStop(n, stop, step);
    if step > 0 then if first < last then (last - first - 1) / step + 1 else 0
    else if last < first then (first - last - 1) / (-step) + 1 else 0
  }

  // A bound counts from the front or, when negative, from the end, and is moved to the nearest position that a slice of
  // that direction can start from or stop at.
  lemma BoundsAre(n: nat, c: int, step: int)
    requires step != 0
    ensures PyStart(n, Int(c), step) == PyStop(n, Int(c), step)
    ensures var place := if c < 0 then c + n else c;
            var low, high := if step > 0 then 0 else -1, if step > 0 then n as int else n - 1;
            var bound := PyStart(n, Int(c), step);
            && low <= bound <= high && (low <= place <= high ==> bound == place)
            && (place < low ==> bound == low) && (place > high ==> bound == high)
    ensures PyStart(n, Absent, step) == (if step > 0 then 0 else n - 1)
    ensures PyStop(n, Absent, step) == (if step > 0 then n else -1)
  {
  }

  // The j-th index is listed exactly when it has not reached the stop.
  lemma ListedUntilStop(n: nat, start: Part, stop: Part, step: int, j: nat)
    requires step != 0
    ensures var first, last := PyStart(n, start, step), PyStop(n, stop, step);
            j < PyCount(n, start, stop, step) <==> if step > 0 then first + step * j < last else first + step * j > last
  {
    var first, last := PyStart(n, start, step), PyStop(n, stop, step);
    var s := if step > 0 then step else -step;
    var distance := if step > 0 then last - first else first - last;
    StepsBefore(distance, s, j);
    assert step > 0 ==> s * j == step * j;
    assert step < 0 ==> s * j == -(step * j);
  }

  lemma StepsBefore(distance: int, s: int, j: nat)
    requires s > 0
    ensures s * j < distance <==> distance > 0 && j < (distance - 1) / s + 1
  {
    Layout.Multiple(s, j);
    if distance > 0 {
      var q := (distance - 1) / s;
      assert s * q + (distance - 1) % s == distance - 1;
      assert s * (j - q) == s * j - s * q;
      Layout.Multiple(s, j - q);
      Layout.Multiple(s, q - j);
      assert s * (q - j) == s * q - s * j;
    }
  }

  function StepOf(item: Item): int {
    if item.Span? && item.step.Int? then item.step.n else 1
  }

  // ---------------------------------------------------------------------------------------------- _parse_slice

  datatype Parsed = Single(offset: int) | Range(numerator: int, step: int, start: int)

  function Max(a: int, b: int): int { if a > b then a else b }

  function Min(a: int, b: int): int { if a < b then a else b }

  // Only the end that the slice could leave by is clamped.
  function StartOf(n: nat, start: Part, step: int): int {
    var s := if start.Int? then start.n else if step > 0 then 0 else -1;
    if step > 0 then Max(Normal(s, n), 0) else Min(Normal(s, n), n - 1)
  }

  function StopOf(n: nat, stop: Part, step: int): int {
    if !stop.Int? then if step > 0 then n else -1
    else if step > 0 then Min(Normal(stop.n, n), n) else Max(Normal(stop.n, n), -1)
  }

  predicate AllInts(item: Item) {
    item.Span? ==> !item.start.Other? && !item.stop.Other? && !item.step.Other?
  }

  method ParseSlice(dims: seq<nat>, key: seq<Item>, idx: nat) returns (r: Result<Parsed, SliceError>)
    requires idx < |key| && !key[idx].Ellipsis?
    ensures key[idx].At? ==> r == Ok(Single(key[idx].i))
    ensures r == Err(NotInts) <==> !AllInts(key[idx])
    ensures r == Err(ZeroStep) <==> AllInts(key[idx]) && StepOf(key[idx]) == 0
    ensures r == Err(IndexError) <==>
              key[idx].Span? && AllInts(key[idx]) && StepOf(key[idx]) != 0 && |dims| <= idx
    ensures r.Ok? && key[idx].Span? ==>
              var step := StepOf(key[idx]);
              var start, stop := StartOf(dims[idx], key[idx].start, step), StopOf(dims[idx], key[idx].stop, step);
              r.value == Range(stop - start, step, start)
    ensures r.Err? ==> r.error in {NotInts, ZeroStep, IndexError}
  {
    var item := key[idx];
    if item.At? {
      return Ok(Single(item.i));
    }
    if item.start.Other? || item.stop.Other? || item.step.Other? {
      return Err(NotInts);
    }
    var step := if item.step.Absent? then 1 else item.step.n;
    if step == 0 {
      return Err(ZeroStep);
    }
    var start: int;
    if item.start.Absent? {
      start := if step > 0 then 0 else -1;
    } else {
      start := item.start.n;
    }
    if |dims| <= idx {
      return Err(IndexError);
    }
    if start < 0 {
      start := dims[idx] + start;
    }
    if step > 0 {
      start := Max(start, 0);
    } else {
      start := Min(start, dims[idx] as int - 1);
    }
    if item.stop.Absent? {
      var end := if step > 0 then dims[idx] else -1;
      return Ok(Range(end - start, step, start));
    }
    var stop := item.stop.n;
    if stop < 0 {
      stop := dims[idx] + stop;
    }
    if step > 0 {
      stop := Min(stop, dims[idx]);
    } else {
      stop := Max(stop, -1);
    }
    return Ok(Range(stop - start, step, start));
  }

  // ---------------------------------------------------------------------------------------------- sizes

  // math.ceil(a / b)
  function Ceiling(a: int, b: int): int
    requires b != 0
  {
    if b > 0 then -((-a) / b) else -(a / (-b))
  }

  // The size of the result that is declared, and the value of the range expression in the emitted text.
  function Declared(p: Parsed): int
    requires p.Range? && p.step != 0
  {
    Ceiling(p.numerator, p.step)
  }

  function RangeText(p: Parsed): int
    requires p.Range? && p.step != 0
  {
    if p.step > 0 then Padding.Truncated(p.numerator + p.step - 1, p.step)
    else Padding.Truncated(p.numerator + p.step + 1, p.step)
  }

  function ParsedSpan(n: nat, item: Item): Parsed
    requires item.Span?
  {
    var step := StepOf(item);
    Range(StopOf(n, item.stop, step) - StartOf(n, item.start, step), step, StartOf(n, item.start, step))
  }

  // d positive strides cover distance a, and no fewer.
  lemma CeilingIs(a: int, b: int)
    requires b > 0
    ensures (Ceiling(a, b) - 1) * b < a <= Ceiling(a, b) * b
    ensures a > 0 ==> Ceiling(a, b) == (a - 1) / b + 1 == Padding.Truncated(a + b - 1, b)
    ensures a > 0 <==> Ceiling(a, b) > 0
    ensures a > 0 <==> Padding.Truncated(a + b - 1, b) > 0
    ensures -b < a <= 0 ==> Ceiling(a, b) == 0 == Padding.Truncated(a + b - 1, b)
    ensures Ceiling(a, b) >= 0 <==> a > -b
  {
    var c := Ceiling(a, b);
    assert b * ((-a) / b) + (-a) % b == -a;
    assert c * b == a + (-a) % b;
    assert (c - 1) * b == c * b - b;
    Layout.Multiple(b, c);
    Layout.Multiple(b, -c);
    assert b * c == c * b && b * (-c) == -(c * b);
    if a > 0 {
      Layout.DivMod(c - 1, b - 1 - (-a) % b, b);
      assert (c - 1) * b + (b - 1 - (-a) % b) == a - 1;
      Layout.DivMod(c, b - 1 - (-a) % b, b);
      assert c * b + (b - 1 - (-a) % b) == a + b - 1;
    } else if a > -b {
      Layout.DivMod(0, a + b - 1, b);
    }
  }

  lemma NegativeDivisor(a: int, b: int)
    requires b > 0
    ensures a / (-b) == -(a / b)
  {
    var q := a / (-b);
    assert (-b) * q + a % (-b) == a;
    assert (-q) * b == (-b) * q;
    Layout.DivMod(-q, a % (-b), b);
  }

  lemma TruncatedFlip(a: int, b: int)
    requires b < 0
    ensures Padding.Truncated(a, b) == Padding.Truncated(-a, -b)
  {
    NegativeDivisor(a, -b);
    NegativeDivisor(-a, -b);
  }

  // The last of `count` positions is still on the near side of the end.
  lemma InBounds(first: int, step: int, count: int, j: int, distance: int)
    requires step > 0 && 0 <= j < count && (count - 1) * step < distance
    ensures 0 <= step * j < distance
  {
    Layout.Multiple(step, j);
    Layout.Multiple(step, count - 1 - j);
    assert step * (count - 1 - j) == (count - 1) * step - step * j;
  }

  // The code clamps one end of each bound and Python both, which makes a difference only to empty slices.
  lemma OneSidedClamps(n: nat, item: Item)
    requires item.Span? && StepOf(item) != 0
    ensures var p := ParsedSpan(n, item);
            var step := StepOf(item);
            var first, last := PyStart(n, item.start, step), PyStop(n, item.stop, step);
            var distance := if step > 0 then p.numerator else -p.numerator;
            && (distance > 0 <==> if step > 0 then first < last else last < first)
            && (distance > 0 ==> p.start == first && p.numerator == last - first)
            && (distance > 0 ==> if step > 0 then 0 <= first && last <= n else first < n && last >= -1)
  {
  }

  // Counting with strides of one sign.
  lemma CountIsCeiling(numerator: int, step: int)
    requires step != 0
    ensures var distance := if step > 0 then numerator else -numerator;
            var stride := if step > 0 then step else -step;
            var p := Range(numerator, step, 0);
            && (distance > 0 <==> Declared(p) > 0) && (distance > 0 <==> RangeText(p) > 0)
            && (distance > 0 ==>
                  && Declared(p) == RangeText(p) == (distance - 1) / stride + 1
                  && (Declared(p) - 1) * stride < distance)
  {
    var distance := if step > 0 then numerator else -numerator;
    CeilingIs(distance, if step > 0 then step else -step);
    if step < 0 {
      TruncatedFlip(numerator + step + 1, step);
    }
  }

  // For every size and slice: the computed count is positive exactly when Python's slice is not empty, and then the
  // declared size and the emitted range are Python's length and the indices start where Python's do.
  lemma SpanIsPython(n: nat, item: Item)
    requires item.Span? && AllInts(item) && StepOf(item) != 0
    ensures var p := ParsedSpan(n, item);
            var step := StepOf(item);
            var count := PyCount(n, item.start, item.stop, step);
            && (count > 0 <==> Declared(p) > 0) && (count > 0 <==> RangeText(p) > 0)
            && count >= 0
            && (count > 0 ==> Declared(p) == RangeText(p) == count && p.start == PyStart(n, item.start, step))
  {
    var p := ParsedSpan(n, item);
    OneSidedClamps(n, item);
    CountIsCeiling(p.numerator, p.step);
  }

  // And all of Python's indices are in bounds.
  lemma SpanInBounds(n: nat, item: Item, j: int)
    requires item.Span? && AllInts(item) && StepOf(item) != 0
    requires 0 <= j < PyCount(n, item.start, item.stop, StepOf(item))
    ensures 0 <= PyStart(n, item.start, StepOf(item)) + StepOf(item) * j < n
  {
    var p := ParsedSpan(n, item);
    var step := StepOf(item);
    SpanIsPython(n, item);
    OneSidedClamps(n, item);
    CountIsCeiling(p.numerator, p.step);
    if step > 0 {
      InBounds(p.start, step, Declared(p), j, p.numerator);
    } else {
      InBounds(p.start, -step, Declared(p), j, -p.numerator);
      assert step * j == -((-step) * j);
    }
  }

  // An empty slice of Python's is declared with size 0 only when it ends less than a step before it starts; otherwise
  // the declared size is negative.
  lemma EmptySlices(n: nat, item: Item)
    requires item.Span? && AllInts(item) && StepOf(item) != 0
    ensures var p := ParsedSpan(n, item);
            var step := StepOf(item);
            && (Declared(p) == PyCount(n, item.start, item.stop, step) <==> Declared(p) >= 0)
            && (Declared(p) >= 0 <==> if step > 0 then p.numerator > -step else p.numerator < -step)
            && (Declared(p) >= 0 ==> RangeText(p) == Declared(p))
  {
    var p := ParsedSpan(n, item);
    var step := StepOf(item);
    SpanIsPython(n, item);
    CeilingIs(if step > 0 then p.numerator else -p.numerator, if step > 0 then step else -step);
    if step < 0 {
      TruncatedFlip(p.numerator + step + 1, step);
    }
  }

  lemma NegativeSizeExample()
    ensures Declared(ParsedSpan(10, Span(Int(5), Int(2), Absent))) == -3
    ensures PyCount(10, Int(5), Int(2), 1) == 0
  {
  }

  // ---------------------------------------------------------------------------------------------- ellipsis

  predicate NoEllipsis(key: seq<Item>) {
    forall i :: 0 <= i < |key| ==> !key[i].Ellipsis?
  }

  predicate OneEllipsis(key: seq<Item>, at: nat) {
    at < |key| && key[at].Ellipsis? && NoEllipsis(key[..at]) && NoEllipsis(key[at + 1..])
  }

  // An ellipsis stands for as many full slices as the key lacks.
  function Expanded(key: seq<Item>, at: nat, rank: nat): seq<Item>
    requires at < |key| <= rank + 1
  {
    key[..at] + seq(rank + 1 - |key|, _ => Span(Absent, Absent, Absent)) + key[at + 1..]
  }

  method Expand(rank: nat, key: seq<Item>) returns (r: Result<seq<Item>, SliceError>)
    ensures NoEllipsis(key) ==> r == Ok(key)
    ensures r == Err(ManyEllipses) <==> exists i, j :: 0 <= i < j < |key| && key[i].Ellipsis? && key[j].Ellipsis?
    ensures forall at: nat :: OneEllipsis(key, at) ==>
              r == if |key| > rank + 1 then Err(KeyTooLong) else Ok(Expanded(key, at, rank))
    ensures r.Ok? ==> NoEllipsis(r.value) && (!NoEllipsis(key) ==> |r.value| == rank)
    ensures r.Err? ==> r.error == ManyEllipses || (r.error == KeyTooLong && |key| > rank + 1)
  {
    var found: Option<nat> := None;
    for i := 0 to |key|
      invariant found.None? ==> NoEllipsis(key[..i])
      invariant found.Some? ==> found.value < i && OneEllipsis(key[..i], found.value)
    {
      assert key[..i + 1][..i] == key[..i];
      if key[i].Ellipsis? {
        if found.Some? {
          assert key[..i][found.value].Ellipsis?;
          return Err(ManyEllipses);
        }
        found := Some(i);
        assert key[..i + 1][i + 1..] == [];
      } else if found.Some? {
        assert key[..i + 1][..found.value] == key[..i][..found.value];
        assert key[..i + 1][found.value + 1..] == key[..i][found.value + 1..] + [key[i]];
      }
    }
    assert key[..|key|] == key;
    if found.None? {
      return Ok(key);
    }
    var at := found.value;
    forall other: nat | OneEllipsis(key, other) ensures other == at {
    }
    if rank + 1 < |key| {
      return Err(KeyTooLong);
    }
    r := Ok(key[..at] + seq(rank + 1 - |key|, _ => Span(Absent, Absent, Absent)) + key[at + 1..]);
  }

  // ---------------------------------------------------------------------------------------------- the program

  // Index variables, declared sizes, the ranges of the emitted text, and the input's index formulas.
  datatype Plan = Plan(vars: nat, declared: seq<int>, ranges: seq<int>, formula: seq<Index>)

  // How many of the first n items are slices: the index variable of the next one.
  function Inner(key: seq<Item>, n: nat): (k: nat)
    requires n <= |key|
    ensures k <= n
    decreases n
  {
    if n == 0 then 0 else Inner(key, n - 1) + if key[n - 1].Span? then 1 else 0
  }

  function SizeAt(dims: seq<nat>, i: nat): nat {
    if i < |dims| then dims[i] else 0
  }

  // The formula of one axis of the input.
  function FormulaAt(dims: seq<nat>, key: seq<Item>, i: nat): Index {
    if i >= |key| then Var(Inner(key, |key|) + (i - |key|))
    else if key[i].Span? then
      var p := ParsedSpan(SizeAt(dims, i), key[i]);
      Add(Mul(p.step, Var(Inner(key, i))), Lit(p.start))
    else if key[i].At? then Lit(if key[i].i >= 0 then key[i].i else SizeAt(dims, i) + key[i].i)
    else Lit(0)
  }

  predicate SizesAt(dims: seq<nat>, key: seq<Item>, plan: Plan, i: nat)
    requires i < |key| && Inner(key, i) <= |plan.declared| == |plan.ranges|
  {
    key[i].Span? ==>
      var p := ParsedSpan(SizeAt(dims, i), key[i]);
      && p.step != 0 && Inner(key, i) < |plan.declared|
      && plan.declared[Inner(key, i)] == Declared(p) && plan.ranges[Inner(key, i)] == RangeText(p)
  }

  // The plan for the first n axes, where n may pass the end of the key.
  ghost predicate PlannedUpTo(dims: seq<nat>, key: seq<Item>, plan: Plan, n: nat) {
    && |plan.declared| == |plan.ranges| == plan.vars
    && |plan.formula| == n
    && plan.vars == (if n <= |key| then Inner(key, n) else Inner(key, |key|) + (n - |key|))
    && (forall i :: 0 <= i < n ==> plan.formula[i] == FormulaAt(dims, key, i))
    && (forall i :: 0 <= i < n && i < |key| ==> Inner(key, i) <= plan.vars && SizesAt(dims, key, plan, i))
    && (forall i :: |key| <= i < n ==>
          && i < |dims| && Inner(key, |key|) + (i - |key|) < plan.vars
          && plan.declared[Inner(key, |key|) + (i - |key|)] == dims[i]
          && plan.ranges[Inner(key, |key|) + (i - |key|)] == dims[i])
  }

  lemma {:induction false} InnerAscends(key: seq<Item>, i: nat, j: nat)
    requires i <= j <= |key|
    ensures Inner(key, i) <= Inner(key, j)
    ensures i < j && key[i].Span? ==> Inner(key, i) < Inner(key, j)
  {
    if i < j {
      InnerAscends(key, i, j - 1);
    }
  }

  // One more sliced or kept axis.
  function Grown(plan: Plan, declared: int, range: int, formula: Index): Plan {
    Plan(plan.vars + 1, plan.declared + [declared], plan.ranges + [range], plan.formula + [formula])
  }

  lemma ExtendBySpan(dims: seq<nat>, key: seq<Item>, plan: Plan, n: nat)
    requires n < |key| && n < |dims| && key[n].Span? && StepOf(key[n]) != 0 && PlannedUpTo(dims, key, plan, n)
    ensures var p := ParsedSpan(dims[n], key[n]);
            PlannedUpTo(dims, key, Grown(plan, Declared(p), RangeText(p), FormulaAt(dims, key, n)), n + 1)
  {
    var p := ParsedSpan(dims[n], key[n]);
    var next := Grown(plan, Declared(p), RangeText(p), FormulaAt(dims, key, n));
    forall i | 0 <= i < n + 1 ensures Inner(key, i) <= next.vars && SizesAt(dims, key, next, i) {
      InnerAscends(key, i, n);
      if i < n {
        assert SizesAt(dims, key, plan, i);
      }
    }
  }

  lemma ExtendByInt(dims: seq<nat>, key: seq<Item>, plan: Plan, n: nat)
    requires n < |key| && key[n].At? && PlannedUpTo(dims, key, plan, n)
    ensures PlannedUpTo(dims, key, plan.(formula := plan.formula + [FormulaAt(dims, key, n)]), n + 1)
  {
    var next := plan.(formula := plan.formula + [FormulaAt(dims, key, n)]);
    forall i | 0 <= i < n + 1 ensures Inner(key, i) <= next.vars && SizesAt(dims, key, next, i) {
      InnerAscends(key, i, n);
      if i < n {
        assert SizesAt(dims, key, plan, i);
      }
    }
  }

  lemma ExtendByRest(dims: seq<nat>, key: seq<Item>, plan: Plan, n: nat)
    requires |key| <= n < |dims| && PlannedUpTo(dims, key, plan, n)
    ensures PlannedUpTo(dims, key, Grown(plan, dims[n], dims[n], Var(plan.vars)), n + 1)
  {
    var next := Grown(plan, dims[n], dims[n], Var(plan.vars));
    assert FormulaAt(dims, key, n) == Var(plan.vars);
    forall i | 0 <= i < n + 1 && i < |key| ensures Inner(key, i) <= next.vars && SizesAt(dims, key, next, i) {
      assert SizesAt(dims, key, plan, i);
    }
  }

  // What is wrong with one item of an expanded key.
  function ItemError(dims: seq<nat>, key: seq<Item>, i: nat): Option<SliceError>
    requires i < |key|
  {
    if !key[i].Span? then None
    else if !AllInts(key[i]) then Some(NotInts)
    else if StepOf(key[i]) == 0 then Some(ZeroStep)
    else if |dims| <= i then Some(IndexError)
    else None
  }

  method CompileItem(dims: seq<nat>, key: seq<Item>, plan: Plan, idx: nat) returns (r: Result<Plan, SliceError>)
    requires NoEllipsis(key) && idx < |key| && PlannedUpTo(dims, key, plan, idx)
    ensures r.Ok? <==> ItemError(dims, key, idx).None?
    ensures r.Ok? ==> PlannedUpTo(dims, key, r.value, idx + 1)
    ensures r.Err? ==> ItemError(dims, key, idx) == Some(r.error)
  {
    var parsed := ParseSlice(dims, key, idx);
    if parsed.Err? {
      return Err(parsed.error);
    }
    match parsed.value {
      case Single(offset) =>
        ExtendByInt(dims, key, plan, idx);
        var position := if offset >= 0 then offset else SizeAt(dims, idx) + offset;
        assert Lit(position) == FormulaAt(dims, key, idx);
        return Ok(plan.(formula := plan.formula + [Lit(position)]));
      case Range(numerator, step, start) =>
        ExtendBySpan(dims, key, plan, idx);
        var formula := Add(Mul(step, Var(plan.vars)), Lit(start));
        var range := if step > 0 then Padding.Truncated(numerator + step - 1, step)
                     else Padding.Truncated(numerator + step + 1, step);
        assert formula == FormulaAt(dims, key, idx);
        return Ok(Grown(plan, Ceiling(numerator, step), range, formula));
    }
  }

  // Indices that the key does not mention are kept whole.
  method CompileRest(dims: seq<nat>, key: seq<Item>, start: Plan) returns (plan: Plan)
    requires PlannedUpTo(dims, key, start, |key|)
    ensures PlannedUpTo(dims, key, plan, if |key| < |dims| then |dims| else |key|)
  {
    plan := start;
    if |key| < |dims| {
      for idx := |key| to |dims|
        invariant PlannedUpTo(dims, key, plan, idx)
      {
        ExtendByRest(dims, key, plan, idx);
        plan := Grown(plan, dims[idx], dims[idx], Var(plan.vars));
      }
    }
  }

  // A key longer than the rank is refused only if a slice is beyond it; the plan then has more formulas than axes.
  method Compile(dims: seq<nat>, key: seq<Item>) returns (r: Result<Plan, SliceError>)
    requires NoEllipsis(key)
    ensures r.Ok? <==> forall i :: 0 <= i < |key| ==> ItemError(dims, key, i).None?
    ensures r.Ok? ==> PlannedUpTo(dims, key, r.value, if |key| < |dims| then |dims| else |key|)
    ensures r.Err? ==>
              exists i :: 0 <= i < |key| && ItemError(dims, key, i) == Some(r.error)
                          && forall j :: 0 <= j < i ==> ItemError(dims, key, j).None?
  {
    var plan := Plan(0, [], [], []);
    for idx := 0 to |key|
      invariant PlannedUpTo(dims, key, plan, idx)
      invariant forall i :: 0 <= i < idx ==> ItemError(dims, key, i).None?
    {
      var next := CompileItem(dims, key, plan, idx);
      if next.Err? {
        return Err(next.error);
      }
      plan := next.value;
    }
    plan := CompileRest(dims, key, plan);
    return Ok(plan);
  }

  // ---------------------------------------------------------------------------------------------- meaning

  // The element that Python's indexing selects: axis i of the input for output index v.
  function PyIndexAt(dims: seq<nat>, key: seq<Item>, v: seq<int>, i: nat): int
    requires |key| <= |dims| && i < |dims| && |v| == Inner(key, |key|) + |dims| - |key|
  {
    if i >= |key| then v[Inner(key, |key|) + i - |key|]
    else if key[i].At? then Normal(key[i].i, dims[i])
    else if key[i].Span? then
      InnerAscends(key, i, |key|);
      PyStart(dims[i], key[i].start, StepOf(key[i])) + StepOf(key[i]) * v[Inner(key, i)]
    else 0
  }

  function PyIndex(dims: seq<nat>, key: seq<Item>, v: seq<int>): (idx: seq<int>)
    requires |key| <= |dims| && |v| == Inner(key, |key|) + |dims| - |key|
    ensures |idx| == |dims|
  {
    seq(|dims|, i requires 0 <= i < |dims| => PyIndexAt(dims, key, v, i))
  }

  // O[i..: ranges] = =(I[formula])
  function SliceCopy(plan: Plan): Copy {
    Copy(plan.vars, Vars(0, plan.vars), plan.ranges, plan.formula)
  }

  // An int of the key names an element, possibly from the end.
  predicate IntInRange(dims: seq<nat>, key: seq<Item>, i: nat)
    requires i < |key| <= |dims|
  {
    key[i].At? ==> 0 <= Normal(key[i].i, dims[i]) < dims[i]
  }

  lemma EvalSpan(step: int, k: nat, start: int, a: seq<int>)
    requires k < |a|
    ensures Eval(Add(Mul(step, Var(k)), Lit(start)), a) == step * a[k] + start
  {
    assert Eval(Mul(step, Var(k)), a) == step * a[k];
  }

  // One axis of the emitted access is Python's, and in bounds.
  lemma AxisIsPython(dims: seq<nat>, key: seq<Item>, plan: Plan, v: seq<int>, i: nat)
    requires NoEllipsis(key) && |key| <= |dims| && PlannedUpTo(dims, key, plan, |dims|) && i < |dims|
    requires InRange(v, plan.ranges) && forall j :: 0 <= j < |key| ==> ItemError(dims, key, j).None?
    ensures Eval(plan.formula[i], v) == PyIndexAt(dims, key, v, i)
    ensures (i < |key| && key[i].At?) || 0 <= PyIndexAt(dims, key, v, i) < dims[i]
  {
    assert plan.formula[i] == FormulaAt(dims, key, i);
    if i < |key| {
      assert ItemError(dims, key, i).None? && SizesAt(dims, key, plan, i);
      if key[i].Span? {
        InnerAscends(key, i, |key|);
        var p := ParsedSpan(dims[i], key[i]);
        EvalSpan(p.step, Inner(key, i), p.start, v);
        SpanIsPython(dims[i], key[i]);
        SpanInBounds(dims[i], key[i], v[Inner(key, i)]);
      }
    }
  }

  predicate IntsInRange(dims: seq<nat>, key: seq<Item>)
    requires |key| <= |dims|
  {
    forall i :: 0 <= i < |key| ==> IntInRange(dims, key, i)
  }

  predicate NoItemErrors(dims: seq<nat>, key: seq<Item>) {
    forall i :: 0 <= i < |key| ==> ItemError(dims, key, i).None?
  }

  // The whole access is Python's.
  lemma AccessIsPython(dims: seq<nat>, key: seq<Item>, plan: Plan, v: seq<int>)
    requires NoEllipsis(key) && |key| <= |dims| && PlannedUpTo(dims, key, plan, |dims|)
    requires InRange(v, plan.ranges) && NoItemErrors(dims, key)
    ensures EvalAll(plan.formula, v) == PyIndex(dims, key, v)
    ensures InRange(PyIndex(dims, key, v), dims) <==> IntsInRange(dims, key)
  {
    forall i | 0 <= i < |dims|
      ensures EvalAll(plan.formula, v)[i] == PyIndex(dims, key, v)[i]
      ensures 0 <= PyIndex(dims, key, v)[i] < dims[i] <==> (i < |key| ==> IntInRange(dims, key, i))
    {
      AxisIsPython(dims, key, plan, v, i);
    }
  }

  // Indexing with ints, slices and an expanded ellipsis selects what Python's indexing selects: each element of the
  // emitted output is the input's at Python's index, in bounds whenever the ints of the key are.
  lemma SlicesLikePython(dims: seq<nat>, key: seq<Item>, plan: Plan, input: Tensor, v: seq<int>)
    requires NoEllipsis(key) && |key| <= |dims| && PlannedUpTo(dims, key, plan, |dims|) && input.dims == dims
    requires InRange(v, plan.ranges) && NoItemErrors(dims, key)
    ensures Copied(SliceCopy(plan), input).at(v) ==
              if IntsInRange(dims, key) then input.at(PyIndex(dims, key, v)) else 0.0
    ensures IntsInRange(dims, key) ==> InRange(PyIndex(dims, key, v), input.dims)
  {
    var c := SliceCopy(plan);
    AccessIsPython(dims, key, plan, v);
    forall a: seq<int> | |a| == plan.vars ensures EvalAll(c.out, a) == a {
      EvalVars(0, plan.vars, a);
    }
    if IntsInRange(dims, key) {
      CopiedFrom(c, input, v, v);
    } else {
      NotCopied(c, input, v);
    }
  }

  // Element 7 of 5 is 0, where Python raises an error.
  lemma OutOfRangeReadsZero(plan: Plan, input: Tensor)
    requires PlannedUpTo([5], [At(7)], plan, 1) && input.dims == [5]
    ensures plan.ranges == [] && Copied(SliceCopy(plan), input).at([]) == 0.0
  {
    assert Inner([At(7)], 1) == 0;
    assert InRange([], plan.ranges);
    assert !IntInRange([5], [At(7)], 0);
    SlicesLikePython([5], [At(7)], plan, input, []);
  }

  // An int names an element from the front or, when negative, from the end, and is in range exactly from -n to n - 1.
  lemma IntsFromBothEnds(dims: seq<nat>, key: seq<Item>, plan: Plan, v: seq<int>, i: nat)
    requires NoEllipsis(key) && |key| <= |dims| && PlannedUpTo(dims, key, plan, |dims|)
    requires i < |key| && key[i].At?
    ensures var e, c := Eval(plan.formula[i], v), key[i].i;
            && (IntInRange(dims, key, i) <==> -(dims[i] as int) <= c < dims[i])
            && (c >= 0 ==> e == c) && (c < 0 ==> e == c + dims[i])
  {
    assert plan.formula[i] == FormulaAt(dims, key, i);
  }

  // ---------------------------------------------------------------------------------------------- the whole key

  // Axis a of the input is output axis o, whole and in order.
  ghost predicate WholeAxis(dims: seq<nat>, plan: Plan, a: nat, o: nat) {
    && a < |dims| && a < |plan.formula| && o < |plan.declared| && o < |plan.ranges|
    && plan.declared[o] == plan.ranges[o] == dims[a]
    && forall v: seq<int> :: |v| == plan.vars && o < |v| ==> Eval(plan.formula[a], v) == v[o]
  }

  lemma FullSliceIsWhole(dims: seq<nat>, key: seq<Item>, plan: Plan, a: nat)
    requires PlannedUpTo(dims, key, plan, |dims|) && a < |key| <= |dims| && key[a] == Span(Absent, Absent, Absent)
    ensures WholeAxis(dims, plan, a, Inner(key, a))
  {
    var p := ParsedSpan(dims[a], key[a]);
    assert SizesAt(dims, key, plan, a) && plan.formula[a] == FormulaAt(dims, key, a);
    CeilingIs(dims[a], 1);
    assert p == Range(dims[a], 1, 0) && Declared(p) == RangeText(p) == dims[a];
    forall v: seq<int> | |v| == plan.vars && Inner(key, a) < |v|
      ensures Eval(plan.formula[a], v) == v[Inner(key, a)]
    {
      EvalSpan(1, Inner(key, a), 0, v);
    }
  }

  // Axis a, covered by the ellipsis, follows the slices before it.
  ghost predicate CoveredAxis(dims: seq<nat>, key: seq<Item>, at: nat, plan: Plan, a: nat)
    requires at < |key| && at <= a
  {
    WholeAxis(dims, plan, a, Inner(key, at) + (a - at))
  }

  predicate SameFromEnd(key: seq<Item>, full: seq<Item>, j: nat) {
    0 < j <= |key| && j <= |full| && full[|full| - j] == key[|key| - j]
  }

  // The axes that an ellipsis covers are whole and consecutive; the items before it address the first axes, and an
  // item j places before the end addresses the axis j places before the end.
  ghost predicate EllipsisKept(dims: seq<nat>, key: seq<Item>, at: nat, full: seq<Item>, plan: Plan)
    requires at < |key|
  {
    && |full| == |dims| && |key| <= |dims| + 1
    && (forall i :: 0 <= i < at ==> full[i] == key[i])
    && (forall j :: 0 < j < |key| - at ==> SameFromEnd(key, full, j))
    && (forall a :: at <= a < at + |dims| + 1 - |key| ==> CoveredAxis(dims, key, at, plan, a))
  }

  lemma {:induction false} InnerOfPrefix(key: seq<Item>, full: seq<Item>, at: nat, n: nat)
    requires at <= |key| && at <= n <= |full|
    requires forall i :: 0 <= i < at ==> full[i] == key[i]
    requires forall i :: at <= i < n ==> full[i].Span?
    ensures Inner(full, n) == Inner(key, at) + (n - at)
    decreases n
  {
    if n > at {
      InnerOfPrefix(key, full, at, n - 1);
    } else if n > 0 {
      InnerOfPrefix(key, full, at - 1, n - 1);
    }
  }

  lemma CoveredIsWhole(dims: seq<nat>, key: seq<Item>, at: nat, plan: Plan, a: nat)
    requires OneEllipsis(key, at) && |key| <= |dims| + 1 && at <= a < at + |dims| + 1 - |key|
    requires PlannedUpTo(dims, Expanded(key, at, |dims|), plan, |dims|)
    ensures CoveredAxis(dims, key, at, plan, a)
  {
    var full := Expanded(key, at, |dims|);
    InnerOfPrefix(key, full, at, a);
    FullSliceIsWhole(dims, full, plan, a);
  }

  lemma EllipsisIsKept(dims: seq<nat>, key: seq<Item>, at: nat, plan: Plan)
    requires OneEllipsis(key, at) && |key| <= |dims| + 1
    requires PlannedUpTo(dims, Expanded(key, at, |dims|), plan, |dims|)
    ensures EllipsisKept(dims, key, at, Expanded(key, at, |dims|), plan)
  {
    var full := Expanded(key, at, |dims|);
    forall a | at <= a < at + |dims| + 1 - |key| ensures CoveredAxis(dims, key, at, plan, a) {
      CoveredIsWhole(dims, key, at, plan, a);
    }
    forall j | 0 < j < |key| - at ensures SameFromEnd(key, full, j) {
      assert key[at + 1..][|key| - j - (at + 1)] == key[|key| - j];
    }
  }

  // _SliceOf.__init__: the key that was compiled, and what it is compiled to.
  method SliceOf(dims: seq<nat>, key: seq<Item>) returns (r: Result<Plan, SliceError>, ghost full: seq<Item>)
    ensures r.Ok? ==>
              && NoEllipsis(full) && NoItemErrors(dims, full)
              && PlannedUpTo(dims, full, r.value, if |full| < |dims| then |dims| else |full|)
              && (NoEllipsis(key) ==> full == key)
              && (forall at: nat :: OneEllipsis(key, at) ==> EllipsisKept(dims, key, at, full, r.value))
              && (NoEllipsis(key) || exists at: nat :: OneEllipsis(key, at))
    ensures r == Err(ManyEllipses) <==> exists i, j :: 0 <= i < j < |key| && key[i].Ellipsis? && key[j].Ellipsis?
    ensures forall at: nat :: OneEllipsis(key, at) ==> (r == Err(KeyTooLong) <==> |key| > |dims| + 1)
    ensures r.Err? && r.error !in {ManyEllipses, KeyTooLong} ==>
              exists i :: 0 <= i < |full| && ItemError(dims, full, i) == Some(r.error)
  {
    var expanded := Expand(|dims|, key);
    if expanded.Err? {
      return Err(expanded.error), [];
    }
    full := expanded.value;
    r := Compile(dims, expanded.value);
    if r.Ok? {
      forall at: nat | OneEllipsis(key, at) ensures EllipsisKept(dims, key, at, full, r.value) {
        EllipsisIsKept(dims, key, at, r.value);
      }
      FoundOne(key);
    }
  }

  lemma FoundOne(key: seq<Item>)
    requires !exists i, j :: 0 <= i < j < |key| && key[i].Ellipsis? && key[j].Ellipsis?
    ensures NoEllipsis(key) || exists at: nat :: OneEllipsis(key, at)
  {
    if at :| 0 <= at < |key| && key[at].Ellipsis? {
      var after := key[at + 1..];
      assert forall i :: 0 <= i < |after| ==> after[i] == key[at + 1 + i];
      assert NoEllipsis(key[..at]) && NoEllipsis(after);
      assert OneEllipsis(key, at);
    }
  }
}
