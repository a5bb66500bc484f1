/**
 Packed buffers: the stride loops of `plaidml.Shape` (plaidml/__init__.py:1295-1318) and `base_shape::add_dimensions`
 (plaidml/plaidml++.h:131-142), and the element access built on them.
 */
module Layout {
  import opened Boxes
  import opened Wrappers

  function Product(dims: seq<int>): int {
    if dims == [] then 1 else dims[0] * Product(dims[1..])
  }

  predicate Positive(dims: seq<int>) {
    forall i :: 0 <= i < |dims| ==> dims[i] > 0
  }

  lemma {:induction false} ProductPositive(dims: seq<int>)
    requires Positive(dims)
    ensures Product(dims) > 0
  {
    if dims != [] {
      ProductPositive(dims[1..]);
    }
  }

  lemma {:induction false} ProductAppend(a: seq<int>, b: seq<int>)
    ensures Product(a + b) == Product(a) * Product(b)
  {
    if a == [] {
      assert a + b == b;
    } else {
      assert (a + b)[1..] == a[1..] + b;
      ProductAppend(a[1..], b);
      assert a[0] * (Product(a[1..]) * Product(b)) == (a[0] * Product(a[1..])) * Product(b);
    }
  }

  lemma ProductStep(dims: seq<int>, i: nat)
    requires i < |dims|
    ensures Product(dims[..i + 1]) == Product(dims[..i]) * dims[i]
    ensures Product(dims[i..]) == dims[i] * Product(dims[i + 1..])
  {
    assert dims[..i + 1] == dims[..i] + [dims[i]];
    ProductAppend(dims[..i], [dims[i]]);
    assert dims[i..][1..] == dims[i + 1..];
  }

  lemma {:induction false} ProductZero(dims: seq<int>)
    ensures Product(dims) == 0 <==> 0 in dims
  {
    if dims != [] {
      ProductZero(dims[1..]);
      if dims[0] != 0 && Product(dims[1..]) != 0 {
        assert dims[0] * Product(dims[1..]) != 0;
      }
    }
  }

  // ---------------------------------------------------------------------------------------------- strides

  // plaidml.Shape: divide down from the product, leaving zero sizes out of the division.
  method PackedStrides(dims: seq<nat>) returns (strides: seq<int>)
    ensures |strides| == |dims|
    ensures forall i :: 0 <= i < |dims| ==>
              strides[i] == if 0 in dims then 0 else Product(dims[i + 1..])
  {
    var stride: int := 1;
    for i := 0 to |dims|
      invariant stride == Product(dims[..i])
    {
      ProductStep(dims, i);
      stride := stride * dims[i];
    }
    assert dims[..|dims|] == dims;
    ProductZero(dims);
    strides := [];
    for i := 0 to |dims|
      invariant |strides| == i
      invariant stride == if 0 in dims then 0 else Product(dims[i..])
      invariant forall k :: 0 <= k < i ==> strides[k] == if 0 in dims then 0 else Product(dims[k + 1..])
    {
      ProductStep(dims, i);
      if dims[i] != 0 {
        DivideOut(dims[i], Product(dims[i + 1..]));
        stride := stride / dims[i];
      }
      strides := strides + [stride];
    }
  }

  // A nonzero multiple of b is at least b away from zero.
  lemma Multiple(b: int, d: int)
    requires b > 0
    ensures d >= 1 ==> b * d >= b
    ensures d <= -1 ==> b * d <= -b
  {
    if d >= 1 {
      assert b * (d - 1) >= 0;
    } else if d <= -1 {
      assert b * (-1 - d) >= 0;
    }
  }

  lemma DivMod(q: int, r: int, b: int)
    requires 0 <= r < b
    ensures (q * b + r) / b == q && (q * b + r) % b == r
  {
    var n := q * b + r;
    assert b * (n / b) + n % b == n;
    assert b * (q - n / b) == n % b - r;
    Multiple(b, q - n / b);
  }

  lemma DivideOut(a: nat, b: int)
    requires a > 0
    ensures (a * b) / a == b && 0 / a == 0
  {
    assert a * b == b * a + 0;
    DivMod(b, 0, a);
    DivMod(0, 0, a);
  }

  lemma MulOrder(a: int, b: int, c: int)
    ensures a * b * c == a * (b * c) && a * (b * c) == b * (a * c)
  {
  }

  // One size more in the product, and one size divided out of it.
  lemma ScaledStep(dims: seq<int>, scale: int, i: nat)
    requires i < |dims|
    ensures scale * Product(dims[..i + 1]) == scale * Product(dims[..i]) * dims[i]
    ensures dims[i] > 0 ==> (scale * Product(dims[i..])) / dims[i] == scale * Product(dims[i + 1..])
  {
    ProductStep(dims, i);
    MulOrder(scale, Product(dims[..i]), dims[i]);
    MulOrder(scale, dims[i], Product(dims[i + 1..]));
    if dims[i] > 0 {
      DivideOut(dims[i], scale * Product(dims[i + 1..]));
    }
  }

  // base_shape::add_dimensions: None is the division by zero that a zero size leads to.
  method AddDimensions(dims: seq<nat>, initialStride: int) returns (strides: Option<seq<int>>)
    ensures strides.None? <==> 0 in dims
    ensures strides.Some? ==>
              && |strides.value| == |dims|
              && forall i :: 0 <= i < |dims| ==> strides.value[i] == initialStride * Product(dims[i + 1..])
  {
    var stride := initialStride;
    for i := 0 to |dims|
      invariant stride == initialStride * Product(dims[..i])
    {
      ScaledStep(dims, initialStride, i);
      stride := stride * dims[i];
    }
    assert dims[..|dims|] == dims;
    var result := [];
    for i := 0 to |dims|
      invariant |result| == i && 0 !in dims[..i]
      invariant stride == initialStride * Product(dims[i..])
      invariant forall k :: 0 <= k < i ==> result[k] == initialStride * Product(dims[k + 1..])
    {
      if dims[i] == 0 {
        return None;
      }
      ScaledStep(dims, initialStride, i);
      stride := stride / dims[i];
      result := result + [stride];
    }
    return Some(result);
  }

  // ---------------------------------------------------------------------------------------------- offsets

  // The row-major position of an index vector, and the index vector at a position.
  function Flatten(dims: seq<int>, idx: seq<int>): int
    requires |idx| == |dims|
  {
    if dims == [] then 0 else idx[0] * Product(dims[1..]) + Flatten(dims[1..], idx[1..])
  }

  function Unflatten(dims: seq<int>, k: int): (idx: seq<int>)
    requires Positive(dims)
    ensures |idx| == |dims|
  {
    if dims == [] then []
    else
      ProductPositive(dims[1..]);
      [k / Product(dims[1..])] + Unflatten(dims[1..], k % Product(dims[1..]))
  }

  lemma InBlock(a: int, b: int, i: int, j: int)
    requires 0 <= i < a && 0 <= j < b
    ensures 0 <= i * b + j < a * b
  {
    Multiple(b, i);
    Multiple(b, a - i);
    assert b * (a - i) == a * b - i * b;
  }

  lemma {:induction false} FlattenInRange(dims: seq<int>, idx: seq<int>)
    requires InRange(idx, dims)
    ensures 0 <= Flatten(dims, idx) < Product(dims)
  {
    if dims != [] {
      HeadAndTail(idx, dims);
      FlattenInRange(dims[1..], idx[1..]);
      InBlock(dims[0], Product(dims[1..]), idx[0], Flatten(dims[1..], idx[1..]));
    }
  }

  lemma {:induction false} UnflattenFlatten(dims: seq<int>, idx: seq<int>)
    requires InRange(idx, dims)
    ensures Positive(dims) && Unflatten(dims, Flatten(dims, idx)) == idx
  {
    if dims != [] {
      HeadAndTail(idx, dims);
      UnflattenFlatten(dims[1..], idx[1..]);
      FlattenInRange(dims[1..], idx[1..]);
      DivMod(idx[0], Flatten(dims[1..], idx[1..]), Product(dims[1..]));
      assert idx == [idx[0]] + idx[1..];
    }
  }

  lemma QuotientBelow(k: int, n: int, p: int)
    requires p > 0 && 0 <= k < n * p
    ensures 0 <= k / p < n
  {
    assert p * (k / p) + k % p == k;
    Multiple(p, k / p);
    Multiple(p, k / p - n + 1);
    assert p * (k / p - n + 1) == p * (k / p) - n * p + p;
  }

  lemma {:induction false} FlattenUnflatten(dims: seq<int>, k: int)
    requires Positive(dims) && 0 <= k < Product(dims)
    ensures InRange(Unflatten(dims, k), dims) && Flatten(dims, Unflatten(dims, k)) == k
  {
    if dims != [] {
      var p := Product(dims[1..]);
      ProductPositive(dims[1..]);
      QuotientBelow(k, dims[0], p);
      FlattenUnflatten(dims[1..], k % p);
      var idx := Unflatten(dims, k);
      assert idx[0] == k / p && idx[1..] == Unflatten(dims[1..], k % p);
      HeadAndTail(idx, dims);
      assert k == (k / p) * p + k % p;
    }
  }

  predicate IsOffsetOf(dims: seq<int>, idx: seq<int>, k: int) {
    InRange(idx, dims) && Flatten(dims, idx) == k
  }

  // In-range index vectors and buffer positions correspond one to one.
  lemma OffsetsAreABijection(dims: seq<int>)
    requires Positive(dims)
    ensures forall idx :: InRange(idx, dims) ==> 0 <= Flatten(dims, idx) < Product(dims)
    ensures forall idx, idx', k :: IsOffsetOf(dims, idx, k) && IsOffsetOf(dims, idx', k) ==> idx == idx'
    ensures forall k :: 0 <= k < Product(dims) ==> IsOffsetOf(dims, Unflatten(dims, k), k)
  {
    forall idx | InRange(idx, dims)
      ensures 0 <= Flatten(dims, idx) < Product(dims) && Unflatten(dims, Flatten(dims, idx)) == idx
    {
      FlattenInRange(dims, idx);
      UnflattenFlatten(dims, idx);
    }
    forall k | 0 <= k < Product(dims) ensures IsOffsetOf(dims, Unflatten(dims, k), k) {
      FlattenUnflatten(dims, k);
    }
  }

  // ---------------------------------------------------------------------------------------------- element access

  datatype AccessError = IndexError

  function Dot(strides: seq<int>, idx: seq<int>): int
    requires |idx| <= |strides|
  {
    if idx == [] then 0 else idx[0] * strides[0] + Dot(strides[1..], idx[1..])
  }

  lemma {:induction false} DotAppend(strides: seq<int>, idx: seq<int>, x: int)
    requires |idx| < |strides|
    ensures Dot(strides, idx + [x]) == Dot(strides, idx) + x * strides[|idx|]
  {
    if idx == [] {
      assert [x][1..] == [];
    } else {
      assert (idx + [x])[1..] == idx[1..] + [x];
      DotAppend(strides[1..], idx[1..], x);
    }
  }

  lemma {:induction false} DotIsFlatten(dims: seq<int>, strides: seq<int>, idx: seq<int>)
    requires |idx| == |dims| == |strides|
    requires forall i :: 0 <= i < |dims| ==> strides[i] == Product(dims[i + 1..])
    ensures Dot(strides, idx) == Flatten(dims, idx)
  {
    if dims != [] {
      forall i | 0 <= i < |dims[1..]| ensures strides[1..][i] == Product(dims[1..][i + 1..]) {
        assert dims[1..][i + 1..] == dims[i + 2..];
      }
      DotIsFlatten(dims[1..], strides[1..], idx[1..]);
    }
  }

  // A key may have fewer components than the shape has dimensions, but not more.
  predicate KeyInRange(sizes: seq<int>, key: seq<int>) {
    |key| <= |sizes| && forall i :: 0 <= i < |key| ==> 0 <= key[i] < sizes[i]
  }

  // _View.__get_dim_idx: pops one dimension for each component of the key.
  method GetDimIdx(sizes: seq<int>, strides: seq<int>, key: seq<int>) returns (r: Result<int, AccessError>)
    requires |sizes| == |strides|
    ensures r == if KeyInRange(sizes, key) then Ok(Dot(strides, key)) else Err(IndexError)
  {
    var popped := 0;
    var idx := 0;
    for i := 0 to |key|
      invariant popped == i <= |sizes| && KeyInRange(sizes, key[..i])
      invariant idx == Dot(strides, key[..i])
    {
      if popped == |sizes| {
        return Err(IndexError);
      }
      if key[i] < 0 || sizes[popped] <= key[i] {
        return Err(IndexError);
      }
      DotAppend(strides, key[..i], key[i]);
      assert key[..i + 1] == key[..i] + [key[i]];
      idx := idx + key[i] * strides[popped];
      popped := popped + 1;
    }
    assert key[..|key|] == key;
    return Ok(idx);
  }

  datatype Key = Position(i: int) | Vector(key: seq<int>)

  // Python's negative indexing into the buffer.
  function Wrapped(i: int, length: nat): Result<int, AccessError> {
    if 0 <= i < length then Ok(i)
    else if i < 0 <= length + i then Ok(length + i)
    else Err(IndexError)
  }

  // _View.__getitem__ and __setitem__ up to the access itself: the buffer element that a key names.
  method Locate(sizes: seq<int>, strides: seq<int>, length: nat, key: Key) returns (r: Result<int, AccessError>)
    requires |sizes| == |strides|
    ensures key.Position? ==>
              && (r.Ok? <==> -(length as int) <= key.i < length)
              && (r.Ok? ==> r.value == if key.i < 0 then key.i + length else key.i)
    ensures key.Vector? ==>
              r == if KeyInRange(sizes, key.key) then Wrapped(Dot(strides, key.key), length) else Err(IndexError)
  {
    var idx;
    match key {
      case Position(i) => idx := i;
      case Vector(k) =>
        var found := GetDimIdx(sizes, strides, k);
        if found.Err? {
          return Err(IndexError);
        }
        idx := found.value;
    }
    if idx < 0 {
      idx := length + idx;
    }
    if idx < 0 || length <= idx {
      return Err(IndexError);
    }
    return Ok(idx);
  }

  // With the strides of PackedStrides and a buffer of exactly the shape's elements, a full key names its row-major
  // element, and it is refused only for a component out of range.
  lemma FullKeysAreAccepted(dims: seq<int>, strides: seq<int>, key: seq<int>)
    requires Positive(dims) && |strides| == |dims| == |key|
    requires forall i :: 0 <= i < |dims| ==> strides[i] == Product(dims[i + 1..])
    ensures KeyInRange(dims, key) <==> InRange(key, dims)
    ensures KeyInRange(dims, key) ==> 0 <= Dot(strides, key) < Product(dims) && IsOffsetOf(dims, key, Dot(strides, key))
  {
    DotIsFlatten(dims, strides, key);
    if KeyInRange(dims, key) {
      FlattenInRange(dims, key);
    }
  }

  // mapping::at: the number of indexes must be the rank.
  method At(sizes: seq<int>, strides: seq<int>, idx: seq<int>) returns (r: Result<int, AccessError>)
    requires |sizes| == |strides|
    ensures r == if InRange(idx, sizes) then Ok(Dot(strides, idx)) else Err(IndexError)
  {
    if |idx| != |sizes| {
      return Err(IndexError);
    }
    var off := 0;
    for i := 0 to |sizes|
      invariant KeyInRange(sizes, idx[..i]) && off == Dot(strides, idx[..i])
    {
      if idx[i] < 0 || idx[i] >= sizes[i] {
        return Err(IndexError);
      }
      DotAppend(strides, idx[..i], idx[i]);
      assert idx[..i + 1] == idx[..i] + [idx[i]];
      off := off + strides[i] * idx[i];
    }
    assert idx[..|idx|] == idx;
    return Ok(off);
  }

  // ---------------------------------------------------------------------------------------------- reshaping

  // Position `low` of a block of `size` elements, after `high` whole blocks.
  function Within(high: int, size: int, low: int): int {
    high * size + low
  }

  lemma Regroup(x: int, p: int, y: int, q: int, z: int)
    ensures Within(x, p * q, Within(y, q, z)) == Within(Within(x, p, y), q, z)
  {
    assert x * (p * q) == (x * p) * q;
    assert (x * p + y) * q == (x * p) * q + y * q;
  }

  lemma {:induction false} FlattenJoined(d: seq<int>, e: seq<int>, v: seq<int>, w: seq<int>)
    requires |v| == |d| && |w| == |e|
    ensures Flatten(d + e, v + w) == Within(Flatten(d, v), Product(e), Flatten(e, w))
  {
    if d == [] {
      assert d + e == e && v + w == w;
    } else {
      assert (d + e)[1..] == d[1..] + e && (v + w)[1..] == v[1..] + w;
      FlattenJoined(d[1..], e, v[1..], w);
      ProductAppend(d[1..], e);
      Regroup(v[0], Product(d[1..]), Flatten(d[1..], v[1..]), Product(e), Flatten(e, w));
    }
  }

  lemma FlattenMiddle(pre: seq<int>, mid: seq<int>, post: seq<int>, v: seq<int>, m: seq<int>, w: seq<int>)
    requires |v| == |pre| && |m| == |mid| && |w| == |post|
    ensures Flatten(pre + mid + post, v + m + w)
         == Within(Within(Flatten(pre, v), Product(mid), Flatten(mid, m)), Product(post), Flatten(post, w))
  {
    FlattenJoined(pre + mid, post, v + m, w);
    FlattenJoined(pre, mid, v, m);
  }

  lemma ProductMiddle(pre: seq<int>, mid: seq<int>, post: seq<int>)
    ensures Product(pre + mid + post) == (Product(pre) * Product(mid)) * Product(post)
  {
    ProductAppend(pre + mid, post);
    ProductAppend(pre, mid);
  }

  lemma Flatten1(a: int, i: int)
    ensures Product([a]) == a && Flatten([a], [i]) == i
  {
    assert [a][1..] == [] && [i][1..] == [];
  }

  lemma Flatten2(a: int, b: int, i: int, j: int)
    ensures Product([a, b]) == a * b && Flatten([a, b], [i, j]) == i * b + j
  {
    assert [a, b][1..] == [b] && [i, j][1..] == [j];
    Flatten1(b, j);
  }

  lemma BlockOfTwo(a: int, b: int, i: int, j: int)
    ensures Product([a, b]) == Product([a * b]) && Flatten([a, b], [i, j]) == Flatten([a * b], [i * b + j])
  {
    Flatten2(a, b, i, j);
    Flatten1(a * b, i * b + j);
  }

  // Two blocks of a shape with as many elements, and indexes into them at the same place, are interchangeable.
  lemma SwapMiddle(pre: seq<int>, mid: seq<int>, mid': seq<int>, post: seq<int>,
                   v: seq<int>, m: seq<int>, m': seq<int>, w: seq<int>)
    requires |v| == |pre| && |m| == |mid| && |m'| == |mid'| && |w| == |post|
    requires Product(mid) == Product(mid') && Flatten(mid, m) == Flatten(mid', m')
    ensures Flatten(pre + mid + post, v + m + w) == Flatten(pre + mid' + post, v + m' + w)
  {
    FlattenMiddle(pre, mid, post, v, m, w);
    FlattenMiddle(pre, mid', post, v, m', w);
  }

  // Splitting an axis of size a * b into axes a and b, anywhere in a shape, moves no element.
  lemma SplitAxis(pre: seq<int>, a: int, b: int, post: seq<int>, v: seq<int>, i: int, j: int, w: seq<int>)
    requires |v| == |pre| && |w| == |post|
    ensures Flatten(pre + [a, b] + post, v + [i, j] + w) == Flatten(pre + [a * b] + post, v + [i * b + j] + w)
  {
    BlockOfTwo(a, b, i, j);
    SwapMiddle(pre, [a, b], [a * b], post, v, [i, j], [i * b + j], w);
  }

  lemma SplitProduct(pre: seq<int>, a: int, b: int, post: seq<int>)
    ensures Product(pre + [a, b] + post) == Product(pre + [a * b] + post)
  {
    ProductMiddle(pre, [a, b], post);
    ProductMiddle(pre, [a * b], post);
    Flatten2(a, b, 0, 0);
    Flatten1(a * b, 0);
  }
}
