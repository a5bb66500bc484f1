/** Sums over boxes, one component at a time. */
module BoxSums {
  import opened Boxes
  import opened Sums

  function Tail(f: seq<int> -> real, i: int): seq<int> -> real {
    (v: seq<int>) => f([i] + v)
  }

  function Head(v: seq<int>): int {
    if |v| > 0 then v[0] else 0
  }

  function Prefix(i: int): seq<int> -> seq<int> {
    (v: seq<int>) => [i] + v
  }

  function DropHead(v: seq<int>): seq<int> {
    if |v| > 0 then v[1..] else v
  }

  lemma FibreByHead(n: int, dims: seq<int>, i: int)
    requires 0 <= i < n
    ensures Fibre(Box([n] + dims), Head, i) == Image(Box(dims), Prefix(i))
  {
    var fibre, image := Fibre(Box([n] + dims), Head, i), Image(Box(dims), Prefix(i));
    assert ([n] + dims)[1..] == dims;
    forall v | v in fibre ensures v in image {
      HeadAndTail(v, [n] + dims);
      assert v == Prefix(i)(v[1..]);
    }
    forall v | v in image ensures v in fibre {
      var u :| u in Box(dims) && v == Prefix(i)(u);
      assert v[1..] == u;
      HeadAndTail(v, [n] + dims);
    }
  }

  // A sum over a box, by its first component.
  lemma BoxByHead(n: int, dims: seq<int>, f: seq<int> -> real, h: Vector)
    requires forall i :: 0 <= i < n ==> h(i) == Over(Box(dims), Tail(f, i))
    ensures Over(Box([n] + dims), f) == Sum(n, h)
  {
    var box := Box([n] + dims);
    forall i | i in Range(n) ensures h(i) == Over(Fibre(box, Head, i), f) {
      FibreByHead(n, dims, i);
      forall v ensures DropHead(Prefix(i)(v)) == v {
      }
      RenameImage(Box(dims), Prefix(i), DropHead, Tail(f, i), f);
    }
    forall v | v in box ensures Head(v) in Range(n) {
      HeadAndTail(v, [n] + dims);
    }
    ByFibre(box, Range(n), Head, f, h);
  }

  lemma BoxByFirst(dims: seq<int>, f: seq<int> -> real, h: Vector)
    requires |dims| > 0 && forall i :: 0 <= i < dims[0] ==> h(i) == Over(Box(dims[1..]), Tail(f, i))
    ensures Over(Box(dims), f) == Sum(dims[0], h)
  {
    assert dims == [dims[0]] + dims[1..];
    BoxByHead(dims[0], dims[1..], f, h);
  }

  lemma BoxOfNone(f: seq<int> -> real)
    ensures Over(Box([]), f) == f([])
  {
    assert Box([]) == {[]} by {
      forall v ensures v in Box([]) <==> v == [] {
      }
    }
    Single([], f);
  }

  lemma BoxOfOne(n: int, f: seq<int> -> real, h: Vector)
    requires forall i :: 0 <= i < n ==> h(i) == f([i])
    ensures Over(Box([n]), f) == Sum(n, h)
  {
    forall i | 0 <= i < n ensures h(i) == Over(Box([]), Tail(f, i)) {
      BoxOfNone(Tail(f, i));
      assert [i] + [] == [i];
    }
    BoxByHead(n, [], f, h);
    assert [n] + [] == [n];
  }
}
