/** `Reshape` (plaidml/op.py:2271-2358): copied sizes, and the one size that is inferred from the others. */
module Reshaping {
  import opened Wrappers
  import Padding

  // A size of a tensor: a number, or a symbol that the run time binds.
  datatype Dim = Known(n: int) | Sym(s: nat)

  // A requested size: None, a number (0 copies the input's size and -1 is inferred), or a symbol.
  datatype Request = Missing | Number(n: int) | Symbol(s: nat)

  // An integer times symbols.
  datatype Monomial = Monomial(k: int, syms: multiset<nat>)

  // A size of the result.
  datatype Out = Plain(d: Dim) | Quotient(num: Monomial, den: Monomial)

  datatype ReshapeError = TwoInferred | IndexError | ZeroDivision

  // ---------------------------------------------------------------------------------------------- meaning

  type Valuation = nat -> int

  ghost function Power(m: multiset<nat>, v: Valuation): int
    decreases |m|
  {
    if m == multiset{} then 1
    else
      var s :| s in m;
      v(s) * Power(m - multiset{s}, v)
  }

  lemma MulSwap(a: int, b: int, c: int)
    ensures a * (b * c) == b * (a * c) && a * (b * c) == (a * b) * c
  {
  }

  lemma {:induction false} PowerPick(m: multiset<nat>, v: Valuation, s: nat)
    requires s in m
    ensures Power(m, v) == v(s) * Power(m - multiset{s}, v)
    decreases |m|
  {
    var t :| t in m && Power(m, v) == v(t) * Power(m - multiset{t}, v);
    if s != t {
      var rest := m - multiset{t} - multiset{s};
      PowerPick(m - multiset{t}, v, s);
      PowerPick(m - multiset{s}, v, t);
      assert m - multiset{s} - multiset{t} == rest;
      MulSwap(v(t), v(s), Power(rest, v));
    }
  }

  lemma {:induction false} PowerPlus(m: multiset<nat>, n: multiset<nat>, v: Valuation)
    ensures Power(m + n, v) == Power(m, v) * Power(n, v)
    decreases |m|
  {
    if m == multiset{} {
      assert m + n == n;
    } else {
      var s :| s in m;
      PowerPlusStep(m, n, v, s);
    }
  }

  lemma PowerPlusStep(m: multiset<nat>, n: multiset<nat>, v: Valuation, s: nat)
    requires s in m
    ensures Power(m + n, v) == Power(m, v) * Power(n, v)
    decreases |m|, 0
  {
    var rest := m - multiset{s};
    PowerPick(m, v, s);
    PowerPick(m + n, v, s);
    assert m + n - multiset{s} == rest + n;
    PowerPlus(rest, n, v);
    MulSwap(v(s), Power(rest, v), Power(n, v));
  }

  ghost predicate Positive(v: Valuation) {
    forall s :: v(s) > 0
  }

  lemma {:induction false} PowerPositive(m: multiset<nat>, v: Valuation)
    requires Positive(v)
    ensures Power(m, v) > 0
    decreases |m|
  {
    if s :| s in m {
      PowerPick(m, v, s);
      PowerPositive(m - multiset{s}, v);
      assert v(s) * Power(m - multiset{s}, v) > 0;
    }
  }

  function Value(d: Dim, v: Valuation): int {
    match d
    case Known(n) => n
    case Sym(s) => v(s)
  }

  function Product(dims: seq<Dim>, v: Valuation): int {
    if dims == [] then 1 else Product(dims[..|dims| - 1], v) * Value(dims[|dims| - 1], v)
  }

  ghost function MonomialValue(m: Monomial, v: Valuation): int {
    m.k * Power(m.syms, v)
  }

  // The numbers among the sizes, multiplied, and the symbols among them.
  function Numbers(dims: seq<Dim>): int {
    if dims == [] then 1
    else
      var d := dims[|dims| - 1];
      Numbers(dims[..|dims| - 1]) * if d.Known? then d.n else 1
  }

  function Symbols(dims: seq<Dim>): multiset<nat> {
    if dims == [] then multiset{}
    else
      var d := dims[|dims| - 1];
      Symbols(dims[..|dims| - 1]) + if d.Sym? then multiset{d.s} else multiset{}
  }

  lemma {:induction false} ProductSplits(dims: seq<Dim>, v: Valuation)
    ensures Product(dims, v) == Numbers(dims) * Power(Symbols(dims), v)
  {
    if dims != [] {
      var front, d := dims[..|dims| - 1], dims[|dims| - 1];
      ProductSplits(front, v);
      match d
      case Known(n) =>
        assert Symbols(dims) == Symbols(front);
        Rearranged(Numbers(front), Power(Symbols(front), v), n);
      case Sym(s) =>
        PowerPlus(Symbols(front), multiset{s}, v);
        PowerPick(multiset{s}, v, s);
        assert multiset{s} - multiset{s} == multiset{};
        Rearranged(Numbers(front), Power(Symbols(front), v), v(s));
    }
  }

  lemma Rearranged(a: int, b: int, c: int)
    ensures (a * b) * c == (a * c) * b && (a * b) * c == a * (b * c)
  {
  }

  // ---------------------------------------------------------------------------------------------- inference

  lemma Extend(dims: seq<Dim>, i: nat)
    requires i < |dims|
    ensures dims[i].Known? ==>
              Numbers(dims[..i + 1]) == Numbers(dims[..i]) * dims[i].n && Symbols(dims[..i + 1]) == Symbols(dims[..i])
    ensures dims[i].Sym? ==>
              && Numbers(dims[..i + 1]) == Numbers(dims[..i])
              && Symbols(dims[..i + 1]) == Symbols(dims[..i]) + multiset{dims[i].s}
  {
    assert dims[..i + 1][..i] == dims[..i];
  }

  method Scan(dims: seq<Dim>) returns (num: int, syms: multiset<nat>)
    ensures num == Numbers(dims) && syms == Symbols(dims)
  {
    num, syms := 1, multiset{};
    for i := 0 to |dims|
      invariant num == Numbers(dims[..i]) && syms == Symbols(dims[..i])
    {
      Extend(dims, i);
      match dims[i] {
        case Sym(s) => syms := syms + multiset{s};
        case Known(k) => num := num * k;
      }
    }
    assert dims[..|dims|] == dims;
  }

  // One more symbol in the target either cancels one of the input or stays.
  lemma OneMore(a: multiset<nat>, b: multiset<nat>, s: nat)
    ensures (a - b)[s] > 0 ==> a - (b + multiset{s}) == a - b - multiset{s} && (b + multiset{s}) - a == b - a
    ensures (a - b)[s] == 0 ==> a - (b + multiset{s}) == a - b && (b + multiset{s}) - a == b - a + multiset{s}
  {
  }

  // Symbols on both sides cancel, as often as they occur on both; what is left is a quotient.
  method Cancel(input: seq<Dim>, target: seq<Dim>) returns (num: Monomial, den: Monomial)
    ensures num == Monomial(Numbers(input), Symbols(input) - Symbols(target))
    ensures den == Monomial(Numbers(target), Symbols(target) - Symbols(input))
  {
    var n, syms := Scan(input);
    var d := 1;
    var below: multiset<nat> := multiset{};
    for i := 0 to |target|
      invariant d == Numbers(target[..i])
      invariant syms == Symbols(input) - Symbols(target[..i])
      invariant below == Symbols(target[..i]) - Symbols(input)
    {
      Extend(target, i);
      match target[i] {
        case Sym(s) =>
          OneMore(Symbols(input), Symbols(target[..i]), s);
          if syms[s] > 0 {
            syms := syms - multiset{s};
          } else {
            below := below + multiset{s};
          }
        case Known(k) => d := d * k;
      }
    }
    assert target[..|target|] == target;
    return Monomial(n, syms), Monomial(d, below);
  }

  // The input's sizes with their copies resolved; a size to be inferred counts as 1.
  function TargetAt(input: seq<Dim>, request: Request, i: nat): Option<Dim> {
    match request
    case Symbol(s) => Some(Sym(s))
    case Missing => if i < |input| then Some(input[i]) else None
    case Number(n) =>
      if n == 0 then if i < |input| then Some(input[i]) else None
      else if n == -1 then Some(Known(1))
      else Some(Known(n))
  }

  predicate Inferred(dims: seq<Request>, i: int) {
    0 <= i < |dims| && dims[i] == Number(-1)
  }

  predicate IsTarget(input: seq<Dim>, dims: seq<Request>, target: seq<Dim>) {
    |target| == |dims| && forall i :: 0 <= i < |dims| ==> TargetAt(input, dims[i], i) == Some(target[i])
  }

  // The place of the last size to be inferred.
  ghost predicate InferredAt(dims: seq<Request>, place: Option<nat>) {
    && (place.Some? ==> Inferred(dims, place.value))
    && (forall i :: Inferred(dims, i) ==> place.Some? && i <= place.value)
  }

  // Two sizes to be inferred, neither of them the first.
  ghost predicate TwoBeyondFirst(dims: seq<Request>) {
    exists i, j :: 0 < i < j && Inferred(dims, i) && Inferred(dims, j)
  }

  // What is wrong with request i, those before it being accepted.
  ghost function ErrorAt(input: seq<Dim>, dims: seq<Request>, i: nat): Option<ReshapeError>
    requires i < |dims|
  {
    if TargetAt(input, dims[i], i).None? then Some(IndexError)
    else if Inferred(dims, i) && exists k :: 0 < k < i && Inferred(dims, k) then Some(TwoInferred)
    else None
  }

  ghost predicate FirstError(input: seq<Dim>, dims: seq<Request>, e: ReshapeError) {
    exists i :: 0 <= i < |dims| && ErrorAt(input, dims, i) == Some(e)
                && forall j :: 0 <= j < i ==> ErrorAt(input, dims, j) == None
  }

  // A 0 or None copies the input's size at its own place, a symbol or another number stands for itself, and a size to
  // be inferred counts as 1.
  predicate AsRequested(input: seq<Dim>, dims: seq<Request>, target: seq<Dim>) {
    |target| == |dims| && forall i :: 0 <= i < |dims| ==>
      && (dims[i] == Missing || dims[i] == Number(0) ==> i < |input| && target[i] == input[i])
      && (dims[i].Symbol? ==> target[i] == Sym(dims[i].s))
      && (dims[i].Number? && dims[i].n != 0 ==> target[i] == Known(if dims[i].n == -1 then 1 else dims[i].n))
  }

  method Resolve(input: seq<Dim>, dims: seq<Request>)
    returns (r: Result<(seq<Dim>, Option<nat>), ReshapeError>)
    ensures r.Ok? ==> IsTarget(input, dims, r.value.0) && InferredAt(dims, r.value.1) && !TwoBeyondFirst(dims)
    ensures r.Ok? ==> AsRequested(input, dims, r.value.0)
    ensures r.Err? ==> FirstError(input, dims, r.error)
  {
    var target := [];
    var place: Option<nat> := None;
    for i := 0 to |dims|
      invariant IsTarget(input, dims[..i], target) && InferredAt(dims[..i], place)
      invariant !TwoBeyondFirst(dims[..i])
      invariant forall j :: 0 <= j < i ==> ErrorAt(input, dims, j) == None
    {
      ghost var before, after := dims[..i], dims[..i + 1];
      assert forall j :: 0 <= j < i ==> after[j] == before[j];
      assert after[i] == dims[i];
      assert forall j :: j != i ==> (Inferred(after, j) <==> Inferred(before, j));
      ghost var full := exists k :: 0 < k < i && Inferred(dims, k);
      assert full <==> place.Some? && place.value != 0 by {
        assert forall k :: 0 <= k < i ==> (Inferred(before, k) <==> Inferred(dims, k));
      }
      assert ErrorAt(input, dims, i) == if TargetAt(input, dims[i], i).None? then Some(IndexError)
                                        else if Inferred(dims, i) && full then Some(TwoInferred) else None;
      match dims[i] {
        case Symbol(s) =>
          target := target + [Sym(s)];
        case Missing =>
          if i >= |input| {
            return Err(IndexError);
          }
          target := target + [input[i]];
        case Number(n) =>
          if n == 0 {
            if i >= |input| {
              return Err(IndexError);
            }
            target := target + [input[i]];
          } else if n == -1 {
            if place.Some? && place.value != 0 {
              assert Inferred(dims, place.value) && Inferred(dims, i);
              return Err(TwoInferred);
            }
            place := Some(i);
            target := target + [Known(1)];
          } else {
            target := target + [Known(n)];
          }
      }
    }
    assert dims[..|dims|] == dims;
    return Ok((target, place));
  }

  // num // den: a number when no symbol is left.
  function Divided(num: Monomial, den: Monomial): Result<Out, ReshapeError> {
    if num.syms != multiset{} || den.syms != multiset{} then Ok(Quotient(num, den))
    else if den.k == 0 then Err(ZeroDivision)
    else Ok(Plain(Known(Padding.Floored(num.k, den.k))))
  }

  // What is left above and below.
  function Above(input: seq<Dim>, target: seq<Dim>): Monomial {
    Monomial(Numbers(input), Symbols(input) - Symbols(target))
  }

  function Below(input: seq<Dim>, target: seq<Dim>): Monomial {
    Monomial(Numbers(target), Symbols(target) - Symbols(input))
  }

  function InferredSize(input: seq<Dim>, target: seq<Dim>): Result<Out, ReshapeError> {
    Divided(Above(input, target), Below(input, target))
  }

  // The sizes of the result: all of the target's, except the last one to be inferred.
  method OutputDims(input: seq<Dim>, dims: seq<Request>)
    returns (r: Result<seq<Out>, ReshapeError>, ghost target: seq<Dim>, ghost place: Option<nat>)
    ensures r.Ok? ==> IsTarget(input, dims, target) && InferredAt(dims, place) && !TwoBeyondFirst(dims)
    ensures r.Ok? ==> AsRequested(input, dims, target)
    ensures r.Ok? ==> |r.value| == |dims|
    ensures r.Ok? ==> forall i :: 0 <= i < |dims| && place != Some(i) ==> r.value[i] == Plain(target[i])
    ensures r.Ok? && place.Some? ==>
              target[place.value] == Known(1) && Ok(r.value[place.value]) == InferredSize(input, target)
    ensures r.Err? && r.error != ZeroDivision ==> FirstError(input, dims, r.error)
    ensures r == Err(ZeroDivision) ==> place.Some? && InferredSize(input, target) == Err(ZeroDivision)
  {
    target, place := [], None;
    var resolved := Resolve(input, dims);
    if resolved.Err? {
      return Err(resolved.error), [], None;
    }
    var (sizes, at) := resolved.value;
    var out := seq(|sizes|, i requires 0 <= i < |sizes| => Plain(sizes[i]));
    if at.Some? {
      var num, den := Cancel(input, sizes);
      var inferred := Divided(num, den);
      if inferred.Err? {
        return Err(inferred.error), sizes, at;
      }
      out := out[at.value := inferred.value];
    }
    return Ok(out), sizes, at;
  }

  // ---------------------------------------------------------------------------------------------- results

  // Sizes that cancel completely leave a number, and only they do.
  lemma NumberWhenSymbolsCancel(input: seq<Dim>, target: seq<Dim>)
    requires Numbers(target) != 0
    ensures Symbols(input) == Symbols(target) <==>
              InferredSize(input, target).Ok? && InferredSize(input, target).value.Plain?
  {
    var a, b := Symbols(input), Symbols(target);
    if a - b == multiset{} && b - a == multiset{} {
      forall s ensures a[s] == b[s] {
        assert (a - b)[s] == 0 && (b - a)[s] == 0;
      }
    }
  }

  ghost function OutValue(o: Out, v: Valuation): int {
    match o
    case Plain(d) => Value(d, v)
    case Quotient(num, den) =>
      if MonomialValue(den, v) == 0 then 0 else Padding.Truncated(MonomialValue(num, v), MonomialValue(den, v))
  }

  predicate NumbersPositive(dims: seq<Dim>) {
    forall i :: 0 <= i < |dims| && dims[i].Known? ==> dims[i].n > 0
  }

  lemma {:induction false} NumbersArePositive(dims: seq<Dim>)
    requires NumbersPositive(dims)
    ensures Numbers(dims) > 0
  {
    if dims != [] {
      var front, d := dims[..|dims| - 1], dims[|dims| - 1];
      NumbersArePositive(front);
      assert d.Known? ==> Numbers(front) * d.n > 0;
    }
  }

  lemma {:induction false} ProductWith(dims: seq<Dim>, i: nat, n: int, v: Valuation)
    requires i < |dims| && dims[i] == Known(1)
    ensures Product(dims[i := Known(n)], v) == n * Product(dims, v)
  {
    var front, last := dims[..|dims| - 1], dims[|dims| - 1];
    var changed := dims[i := Known(n)];
    if i == |dims| - 1 {
      assert changed[..|dims| - 1] == front;
    } else {
      assert changed[..|dims| - 1] == front[i := Known(n)];
      ProductWith(front, i, n, v);
      MulSwap(n, Product(front, v), Value(last, v));
    }
  }

  // What the inference divides, and the symbols it has cancelled.
  lemma Quotients(input: seq<Dim>, target: seq<Dim>, v: Valuation)
    ensures var common := Power(Symbols(input) * Symbols(target), v);
            && Product(input, v) == MonomialValue(Above(input, target), v) * common
            && Product(target, v) == MonomialValue(Below(input, target), v) * common
  {
    var a, b := Symbols(input), Symbols(target);
    assert a == (a - b) + a * b && b == (b - a) + a * b;
    ProductSplits(input, v);
    ProductSplits(target, v);
    PowerPlus(a - b, a * b, v);
    PowerPlus(b - a, a * b, v);
    MulSwap(Numbers(input), Power(a - b, v), Power(a * b, v));
    MulSwap(Numbers(target), Power(b - a, v), Power(a * b, v));
  }

  lemma MonomialPositive(m: Monomial, v: Valuation)
    requires Positive(v) && m.k > 0
    ensures MonomialValue(m, v) > 0
  {
    PowerPositive(m.syms, v);
    assert m.k * Power(m.syms, v) > 0;
  }

  lemma DividedValue(num: Monomial, den: Monomial, v: Valuation)
    requires MonomialValue(num, v) > 0 && MonomialValue(den, v) > 0 && den.k != 0
    ensures Divided(num, den).Ok?
    ensures OutValue(Divided(num, den).value, v) == MonomialValue(num, v) / MonomialValue(den, v)
  {
    ExactDivision(MonomialValue(num, v), MonomialValue(den, v), 1);
    if num.syms == multiset{} && den.syms == multiset{} {
      assert MonomialValue(num, v) == num.k && MonomialValue(den, v) == den.k;
    }
  }

  lemma ExactDivision(n: int, d: int, c: int)
    requires n > 0 && d > 0 && c > 0
    ensures Padding.Truncated(n, d) == Padding.Floored(n, d) == n / d
    ensures (n / d) * (d * c) == n * c <==> n % d == 0
  {
    assert d * (n / d) + n % d == n;
    MulSwap(n / d, d, c);
    assert (n / d) * (d * c) == (n - n % d) * c;
    assert (n - n % d) * c == n * c - n % d * c;
    Padding.MulSign(n % d, c);
    Padding.MulSign(n % d - 1, c);
    assert (n % d - 1) * c == n % d * c - c;
  }

  // With positive sizes, the inferred size makes the reshape keep the number of elements exactly when the division is
  // exact.
  lemma InferredSizeKeepsElements(input: seq<Dim>, target: seq<Dim>, place: nat, v: Valuation)
    requires Positive(v) && NumbersPositive(input) && NumbersPositive(target)
    requires place < |target| && target[place] == Known(1)
    ensures MonomialValue(Below(input, target), v) > 0 && InferredSize(input, target).Ok?
    ensures var inferred := OutValue(InferredSize(input, target).value, v);
            Product(target[place := Known(inferred)], v) == Product(input, v) <==>
              MonomialValue(Above(input, target), v) % MonomialValue(Below(input, target), v) == 0
  {
    NumbersArePositive(input);
    NumbersArePositive(target);
    var n, d := MonomialValue(Above(input, target), v), MonomialValue(Below(input, target), v);
    var common := Power(Symbols(input) * Symbols(target), v);
    MonomialPositive(Above(input, target), v);
    MonomialPositive(Below(input, target), v);
    PowerPositive(Symbols(input) * Symbols(target), v);
    DividedValue(Above(input, target), Below(input, target), v);
    Quotients(input, target, v);
    ExactDivision(n, d, common);
    ProductWith(target, place, n / d, v);
  }

  // At most one size is meant to be inferred.
  ghost predicate AtMostOne(dims: seq<Request>) {
    forall i, j :: Inferred(dims, i) && Inferred(dims, j) ==> i == j
  }

  // A first size of -1 is forgotten when a second one comes: only a third is refused.
  lemma WhatIsEnforced(dims: seq<Request>)
    ensures !TwoBeyondFirst(dims) <==>
              || AtMostOne(dims)
              || (Inferred(dims, 0)
                  && forall i, j :: 0 < i && 0 < j && Inferred(dims, i) && Inferred(dims, j) ==> i == j)
    ensures !TwoBeyondFirst([Number(-1), Number(-1)]) && !AtMostOne([Number(-1), Number(-1)])
  {
    var two := [Number(-1), Number(-1)];
    assert Inferred(two, 0) && Inferred(two, 1);
    if !AtMostOne(dims) && !TwoBeyondFirst(dims) {
      var i, j :| Inferred(dims, i) && Inferred(dims, j) && i != j;
      if i < j {
        assert i == 0;
      } else {
        assert j == 0;
      }
    }
    if TwoBeyondFirst(dims) {
      var i, j :| 0 < i < j && Inferred(dims, i) && Inferred(dims, j);
    }
  }
}
