/** `pad_compute` (plaidml/op.py:103-143): the output size and the leading padding along one axis. */
module Padding {
  import opened Wrappers

  datatype AutoPadding = EXPLICIT | VALID | SAME_UPPER | SAME_LOWER

  datatype PadError = InvalidPadding | InvalidOutputSize | ZeroDivision

  // The TILE text for a size, with the input axis as its only symbol.
  datatype Size =
    | Sym
    | Num(n: int)
    | Plus(a: Size, b: Size)
    | Minus(a: Size, b: Size)
    | Times(a: Size, n: int)
    | Over(a: Size, n: int)
    | Max(n: int, a: Size)

  // Integer division that rounds toward zero.
  function Truncated(a: int, b: int): int
    requires b != 0
  {
    if a >= 0 then a / b else -((-a) / b)
  }

  // Python's //.
  function Floored(a: int, b: int): int
    requires b != 0
  {
    if b > 0 then a / b else (-a) / (-b)
  }

  function Value(e: Size, sym: int): int {
    match e
    case Sym => sym
    case Num(n) => n
    case Plus(a, b) => Value(a, sym) + Value(b, sym)
    case Minus(a, b) => Value(a, sym) - Value(b, sym)
    case Times(a, n) => Value(a, sym) * n
    case Over(a, n) => if n == 0 then 0 else Truncated(Value(a, sym), n)
    case Max(n, a) => if Value(a, sym) > n then Value(a, sym) else n
  }

  // size and before are TILE text; out is the size as a number.
  datatype Axis = Axis(size: Size, before: Size, out: int)

  // (room - fs + s) / s
  function WindowCount(room: Size, filter: int, stride: int): Size {
    Over(Plus(Minus(room, Num(filter)), Num(stride)), stride)
  }

  // max(0, (size - 1) * s + fs - sym)
  function MissingWindow(size: Size, filter: int, stride: int): Size {
    Max(0, Minus(Plus(Times(Minus(size, Num(1)), stride), Num(filter)), Sym))
  }

  function SameBefore(total: Size, padding: AutoPadding): Size {
    Over(if padding == SAME_UPPER then total else Plus(total, Num(1)), 2)
  }

  function PadCompute(input: int, filter: int, stride: int, padding: AutoPadding, pads: Option<(int, int)>)
    : (r: Result<Axis, PadError>)
  {
    if pads.None? && padding == EXPLICIT then Err(InvalidPadding)
    else if stride == 0 then Err(ZeroDivision)
    else
      var axis :=
        if pads.Some? then
          var (pre, post) := pads.value;
          Axis(WindowCount(Plus(Plus(Sym, Num(pre)), Num(post)), filter, stride), Num(pre),
               Floored(input + pre + post - filter + stride, stride))
        else if padding == VALID then
          Axis(WindowCount(Sym, filter, stride), Num(0),
               Floored(input - filter + stride, stride))
        else
          var size := Over(Minus(Plus(Sym, Num(stride)), Num(1)), stride);
          Axis(size, SameBefore(MissingWindow(size, filter, stride), padding),
               Floored(input + stride - 1, stride));
      if axis.out < 0 then Err(InvalidOutputSize) else Ok(axis)
  }

  function Before(axis: Axis, input: int): int {
    Value(axis.before, input)
  }

  // The padding requested: the part before the input, and all of it.
  function Requested(input: int, filter: int, stride: int, padding: AutoPadding, pads: Option<(int, int)>): (int, int)
    requires stride > 0
  {
    if pads.Some? then (pads.value.0, pads.value.0 + pads.value.1)
    else if padding == VALID || padding == EXPLICIT then (0, 0)
    else
      var total := Slack(input, filter, stride);
      (if padding == SAME_UPPER then total / 2 else total - total / 2, total)
  }

  // The total padding under SAME: what ceil(input / stride) windows lack.
  function Slack(input: int, filter: int, stride: int): (total: int)
    requires stride > 0
    ensures total >= 0
  {
    var need := ((input + stride - 1) / stride - 1) * stride + filter - input;
    if need > 0 then need else 0
  }

  // n windows of the given size and stride fit into `room`.
  predicate Fit(n: int, filter: int, stride: int, room: int) {
    n == 0 || (n - 1) * stride + filter <= room
  }

  lemma Quotient(a: int, s: int)
    requires s > 0
    ensures (a / s) * s <= a < (a / s) * s + s
  {
    assert s * (a / s) + a % s == a;
  }

  lemma MulStep(n: int, s: int)
    ensures (n - 1) * s == n * s - s && (n + 1) * s == n * s + s
  {
  }

  lemma MulSign(q: int, s: int)
    requires s > 0
    ensures q >= 0 ==> q * s >= 0
    ensures q <= -1 ==> q * s <= -s
  {
    if q <= -1 {
      assert (-1 - q) * s >= 0;
    }
  }

  // A quotient is negative exactly when its numerator is.
  lemma QuotientSign(a: int, s: int)
    requires s > 0
    ensures a / s >= 0 <==> a >= 0
    ensures a >= 0 ==> Truncated(a, s) == Floored(a, s) == a / s
  {
    Quotient(a, s);
    MulSign(a / s, s);
  }

  lemma WindowCountValue(room: Size, filter: int, stride: int, sym: int)
    requires stride > 0 && Value(room, sym) - filter + stride >= 0
    ensures Value(WindowCount(room, filter, stride), sym) == (Value(room, sym) - filter + stride) / stride
  {
    assert Value(Minus(room, Num(filter)), sym) == Value(room, sym) - filter;
    assert Value(Plus(Minus(room, Num(filter)), Num(stride)), sym) == Value(room, sym) - filter + stride;
  }

  lemma MissingWindowValue(size: Size, filter: int, stride: int, sym: int, out: int)
    requires Value(size, sym) == out
    ensures var need := (out - 1) * stride + filter - sym;
            Value(MissingWindow(size, filter, stride), sym) == if need > 0 then need else 0
  {
    var product := Times(Minus(size, Num(1)), stride);
    assert Value(Minus(size, Num(1)), sym) == out - 1;
    assert Value(product, sym) == (out - 1) * stride;
    assert Value(Plus(product, Num(filter)), sym) == (out - 1) * stride + filter;
    assert Value(Minus(Plus(product, Num(filter)), Sym), sym) == (out - 1) * stride + filter - sym;
  }

  // The TILE text means the numbers, so padding and size agree with the declared shape.
  lemma TextAgrees(input: int, filter: int, stride: int, padding: AutoPadding, pads: Option<(int, int)>)
    requires input >= 0 && stride > 0
    ensures var r := PadCompute(input, filter, stride, padding, pads);
            r.Ok? ==>
              && Value(r.value.size, input) == r.value.out
              && Before(r.value, input) == Requested(input, filter, stride, padding, pads).0
  {
    match pads
    case Some((pre, post)) =>
      var room := Plus(Plus(Sym, Num(pre)), Num(post));
      assert Value(room, input) == input + pre + post by {
        assert Value(Plus(Sym, Num(pre)), input) == input + pre;
      }
      QuotientSign(input + pre + post - filter + stride, stride);
      if input + pre + post - filter + stride >= 0 {
        WindowCountValue(room, filter, stride, input);
      }
    case None =>
      if padding == VALID {
        QuotientSign(input - filter + stride, stride);
        if input - filter + stride >= 0 {
          WindowCountValue(Sym, filter, stride, input);
        }
      } else if padding != EXPLICIT {
        SameTextAgrees(input, filter, stride, padding);
      }
  }

  lemma SameTextAgrees(input: int, filter: int, stride: int, padding: AutoPadding)
    requires input >= 0 && stride > 0 && padding in {SAME_UPPER, SAME_LOWER}
    ensures var r := PadCompute(input, filter, stride, padding, None);
            && r.Ok? && r.value.out == (input + stride - 1) / stride
            && Value(r.value.size, input) == r.value.out
            && Before(r.value, input) == Requested(input, filter, stride, padding, None).0
  {
    QuotientSign(input + stride - 1, stride);
    var axis := PadCompute(input, filter, stride, padding, None).value;
    assert Value(axis.size, input) == axis.out by {
      assert Value(Minus(Plus(Sym, Num(stride)), Num(1)), input) == input + stride - 1 by {
        assert Value(Plus(Sym, Num(stride)), input) == input + stride;
      }
    }
    MissingWindowValue(axis.size, filter, stride, input, axis.out);
    var total := MissingWindow(axis.size, filter, stride);
    assert Value(total, input) == Slack(input, filter, stride);
    assert Value(Plus(total, Num(1)), input) == Slack(input, filter, stride) + 1;
  }

  lemma LargestFit(room: int, filter: int, stride: int, n: int)
    requires stride > 0 && room - filter + stride >= 0
    ensures var out := (room - filter + stride) / stride;
            Fit(out, filter, stride, room) && (n > out ==> !Fit(n, filter, stride, room))
  {
    var out := (room - filter + stride) / stride;
    QuotientSign(room - filter + stride, stride);
    Quotient(room - filter + stride, stride);
    MulStep(out, stride);
    MulStep(n, stride);
    MulSign(n - 1 - out, stride);
    assert (n - 1 - out) * stride == n * stride - stride - out * stride;
  }

  // Explicit and VALID padding: the size is the largest number of windows that fit into the padded input, and it is
  // refused exactly when the input is more than a stride short of one window.
  lemma MaximalWindows(input: int, filter: int, stride: int, padding: AutoPadding, pads: Option<(int, int)>)
    requires stride > 0 && (pads.Some? || padding == VALID)
    ensures var r := PadCompute(input, filter, stride, padding, pads);
            var room := input + Requested(input, filter, stride, padding, pads).1;
            && (r.Err? <==> room + stride < filter)
            && (r.Ok? ==>
                  && Fit(r.value.out, filter, stride, room)
                  && (forall n :: n > r.value.out ==> !Fit(n, filter, stride, room)))
  {
    var r := PadCompute(input, filter, stride, padding, pads);
    var room := input + Requested(input, filter, stride, padding, pads).1;
    QuotientSign(room - filter + stride, stride);
    if r.Ok? {
      LargestFit(room, filter, stride, r.value.out);
      forall n | n > r.value.out ensures !Fit(n, filter, stride, room) {
        LargestFit(room, filter, stride, n);
      }
    }
  }

  // The same, with the last window and the one that does not fit.
  lemma WindowsInRoom(input: int, filter: int, stride: int, padding: AutoPadding, pads: Option<(int, int)>)
    requires stride > 0 && (pads.Some? || padding == VALID)
    ensures var r := PadCompute(input, filter, stride, padding, pads);
            var room := input + Requested(input, filter, stride, padding, pads).1;
            r.Ok? ==>
              && (r.value.out > 0 ==> stride * (r.value.out - 1) + filter <= room)
              && stride * r.value.out + filter > room
  {
    var r := PadCompute(input, filter, stride, padding, pads);
    MaximalWindows(input, filter, stride, padding, pads);
    if r.Ok? {
      var out := r.value.out;
      assert !Fit(out + 1, filter, stride, input + Requested(input, filter, stride, padding, pads).1);
      assert stride * out == (out + 1 - 1) * stride && stride * (out - 1) == (out - 1) * stride;
    }
  }

  // SAME padding: the size is ceil(input / stride), it is never refused, and the leading paddings of the two variants
  // add up to what the last window lacks, the odd one out leading in SAME_LOWER.
  lemma SamePadding(input: int, filter: int, stride: int)
    requires input >= 0 && stride > 0
    ensures var u := PadCompute(input, filter, stride, SAME_UPPER, None);
            var l := PadCompute(input, filter, stride, SAME_LOWER, None);
            && u.Ok? && l.Ok? && u.value.out == l.value.out
            && (u.value.out - 1) * stride < input <= u.value.out * stride
            && (var missing := (u.value.out - 1) * stride + filter - input;
                Before(u.value, input) + Before(l.value, input) == if missing > 0 then missing else 0)
            && 0 <= Before(l.value, input) - Before(u.value, input) <= 1
  {
    var out := (input + stride - 1) / stride;
    Quotient(input + stride - 1, stride);
    MulStep(out, stride);
    TextAgrees(input, filter, stride, SAME_UPPER, None);
    TextAgrees(input, filter, stride, SAME_LOWER, None);
  }

  // Window x of the axis has an element of the input under it.
  predicate Meets(x: int, input: int, filter: int, stride: int, before: int) {
    stride * x - before < input && 0 < stride * x - before + filter
  }

  // The last window of VALID or SAME padding starts within the input, and the first one reaches it.
  lemma LastWindow(input: int, filter: int, stride: int, padding: AutoPadding)
    requires input > 0 && filter > 0 && stride > 0 && padding != EXPLICIT
    ensures var r := PadCompute(input, filter, stride, padding, None);
            r.Ok? && r.value.out > 0 ==>
              Before(r.value, input) < filter && r.value.out * stride - stride - Before(r.value, input) < input
  {
    var r := PadCompute(input, filter, stride, padding, None);
    TextAgrees(input, filter, stride, padding, None);
    if padding == VALID {
      Quotient(input - filter + stride, stride);
    } else {
      var out := (input + stride - 1) / stride;
      Quotient(input + stride - 1, stride);
      MulStep(out, stride);
    }
  }

  // With SAME or VALID padding no window lies wholly in the padding.
  lemma EveryWindowMeetsTheInput(input: int, filter: int, stride: int, padding: AutoPadding, x: int)
    requires input > 0 && filter > 0 && stride > 0 && padding != EXPLICIT
    ensures var r := PadCompute(input, filter, stride, padding, None);
            r.Ok? && 0 <= x < r.value.out ==> Meets(x, input, filter, stride, Before(r.value, input))
  {
    var r := PadCompute(input, filter, stride, padding, None);
    LastWindow(input, filter, stride, padding);
    if r.Ok? && 0 <= x < r.value.out {
      WindowInside(x, r.value.out, input, filter, stride, Before(r.value, input));
    }
  }

  // Window x lies between the first and the last one.
  lemma WindowInside(x: int, out: int, input: int, filter: int, stride: int, before: int)
    requires 0 <= x < out && stride > 0 && before < filter && out * stride - stride - before < input
    ensures Meets(x, input, filter, stride, before)
  {
    MulSign(x, stride);
    MulSign(out - 1 - x, stride);
    assert (out - 1 - x) * stride == out * stride - stride - x * stride;
  }

  // With explicit padding they all meet it exactly when the first and the last one do.
  lemma ExplicitWindows(input: int, filter: int, stride: int, pre: int, post: int)
    requires stride > 0
    ensures var r := PadCompute(input, filter, stride, EXPLICIT, Some((pre, post)));
            r.Ok? && r.value.out > 0 ==>
              ((forall x :: 0 <= x < r.value.out ==> Meets(x, input, filter, stride, pre)) <==>
                pre < filter && (r.value.out - 1) * stride - pre < input)
  {
    var r := PadCompute(input, filter, stride, EXPLICIT, Some((pre, post)));
    if r.Ok? && r.value.out > 0 {
      var last := r.value.out - 1;
      if pre < filter && last * stride - pre < input {
        forall x | 0 <= x <= last ensures Meets(x, input, filter, stride, pre) {
          WindowInside(x, r.value.out, input, filter, stride, pre);
        }
      } else {
        assert !Meets(0, input, filter, stride, pre) || !Meets(last, input, filter, stride, pre);
      }
    }
  }
}
