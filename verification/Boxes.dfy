/** Index vectors and the boxes they range over. */
module Boxes {
  predicate InRange(idx: seq<int>, dims: seq<int>) {
    |idx| == |dims| && forall i :: 0 <= i < |dims| ==> 0 <= idx[i] < dims[i]
  }

  function Prefixed(n: int, rest: set<seq<int>>): (s: set<seq<int>>)
    ensures forall v :: v in s <==> |v| > 0 && 0 <= v[0] < n && v[1..] in rest
  {
    if n <= 0 then {}
    else
      var s := Prefixed(n - 1, rest) + set r | r in rest :: [n - 1] + r;
      assert forall v :: v in s ==> |v| > 0 && v[0] < n && v[1..] in rest;
      assert forall v: seq<int> :: |v| > 0 && v[0] == n - 1 && v[1..] in rest ==> v == [n - 1] + v[1..];
      s
  }

  // All the in-range index vectors.
  function Box(dims: seq<int>): (s: set<seq<int>>)
    ensures forall v :: v in s <==> InRange(v, dims)
  {
    if dims == [] then
      assert forall v: seq<int> :: InRange(v, []) ==> v == [];
      {[]}
    else
      var s := Prefixed(dims[0], Box(dims[1..]));
      assert forall v :: v in s <==> InRange(v, dims) by {
        forall v: seq<int> ensures v in s <==> InRange(v, dims) {
          if |v| > 0 {
            HeadAndTail(v, dims);
          }
        }
      }
      s
  }

  lemma HeadAndTail(v: seq<int>, dims: seq<int>)
    requires |v| > 0 && |dims| > 0
    ensures InRange(v, dims) <==> 0 <= v[0] < dims[0] && InRange(v[1..], dims[1..])
  {
    if 0 <= v[0] < dims[0] && InRange(v[1..], dims[1..]) {
      forall i | 0 <= i < |dims| ensures 0 <= v[i] < dims[i] {
        if i > 0 {
          assert v[1..][i - 1] == v[i] && dims[1..][i - 1] == dims[i];
        }
      }
    }
  }

  lemma Joined(v: seq<int>, w: seq<int>, vd: seq<int>, wd: seq<int>)
    requires |v| == |vd|
    ensures InRange(v + w, vd + wd) <==> InRange(v, vd) && InRange(w, wd)
  {
    if InRange(v + w, vd + wd) {
      assert forall i :: 0 <= i < |vd| ==> (v + w)[i] == v[i] && (vd + wd)[i] == vd[i];
      assert forall i :: 0 <= i < |wd| ==> (v + w)[|v| + i] == w[i] && (vd + wd)[|v| + i] == wd[i];
    }
  }

  lemma OneInRange(x: int, d: int)
    ensures InRange([x], [d]) <==> 0 <= x < d
  {
    assert [x][0] == x && [d][0] == d;
  }
}
