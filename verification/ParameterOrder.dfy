/**
 The order of the invoker's cache keys: `ApplierParameterShape` and its `operator<` (plaidml/plaidml.cc:1236-1279), the
 tensor shapes below them (tile/base/shape.h:150-166, 168-251), and the maps and pairs of them that are the keys.
 */
module ParameterOrders {
  // A strict total order: a strict weak order whose equivalence is equality.
  ghost predicate StrictTotal<T(!new)>(less: (T, T) -> bool) {
    && (forall a :: !less(a, a))
    && (forall a, b, c :: less(a, b) && less(b, c) ==> less(a, c))
    && (forall a, b :: less(a, b) || less(b, a) || a == b)
  }

  // ---------------------------------------------------------------------------------------------- ways to build orders

  // std::pair and std::tie
  function PairOrder<A(!new), B(!new)>(first: (A, A) -> bool, second: (B, B) -> bool): ((A, B), (A, B)) -> bool {
    (p: (A, B), q: (A, B)) => first(p.0, q.0) || (!first(q.0, p.0) && second(p.1, q.1))
  }

  lemma PairIsTotal<A(!new), B(!new)>(first: (A, A) -> bool, second: (B, B) -> bool)
    requires StrictTotal(first) && StrictTotal(second)
    ensures StrictTotal(PairOrder(first, second))
  {
    var less := PairOrder(first, second);
    forall p ensures !less(p, p) {
      assert !first(p.0, p.0) && !second(p.1, p.1);
    }
    forall p, q, r | less(p, q) && less(q, r) ensures less(p, r) {
      assert first(p.0, q.0) || p.0 == q.0;
      assert first(q.0, r.0) || q.0 == r.0;
    }
    forall p, q ensures less(p, q) || less(q, p) || p == q {
      assert p == (p.0, p.1) && q == (q.0, q.1);
    }
  }

  // std::lexicographical_compare
  predicate Precedes<T(!new)>(less: (T, T) -> bool, s: seq<T>, t: seq<T>) {
    if t == [] then false
    else if s == [] then true
    else if less(s[0], t[0]) then true
    else if less(t[0], s[0]) then false
    else Precedes(less, s[1..], t[1..])
  }

  function SequenceOrder<T(!new)>(less: (T, T) -> bool): (seq<T>, seq<T>) -> bool {
    (s: seq<T>, t: seq<T>) => Precedes(less, s, t)
  }

  lemma {:induction false} PrecedesIrreflexive<T(!new)>(less: (T, T) -> bool, s: seq<T>)
    requires StrictTotal(less)
    ensures !Precedes(less, s, s)
  {
    if s != [] {
      PrecedesIrreflexive(less, s[1..]);
    }
  }

  lemma {:induction false} PrecedesTransitive<T(!new)>(less: (T, T) -> bool, s: seq<T>, t: seq<T>, u: seq<T>)
    requires StrictTotal(less) && Precedes(less, s, t) && Precedes(less, t, u)
    ensures Precedes(less, s, u)
  {
    if s != [] && !less(s[0], t[0]) && !less(t[0], u[0]) {
      assert s[0] == t[0] == u[0];
      PrecedesTransitive(less, s[1..], t[1..], u[1..]);
    }
  }

  lemma {:induction false} PrecedesTotal<T(!new)>(less: (T, T) -> bool, s: seq<T>, t: seq<T>)
    requires StrictTotal(less)
    ensures Precedes(less, s, t) || Precedes(less, t, s) || s == t
  {
    if s != [] && t != [] && !less(s[0], t[0]) && !less(t[0], s[0]) {
      PrecedesTotal(less, s[1..], t[1..]);
      assert s == [s[0]] + s[1..] && t == [t[0]] + t[1..];
    }
  }

  lemma SequenceIsTotal<T(!new)>(less: (T, T) -> bool)
    requires StrictTotal(less)
    ensures StrictTotal(SequenceOrder(less))
  {
    var order := SequenceOrder(less);
    forall s ensures !order(s, s) {
      PrecedesIrreflexive(less, s);
    }
    forall s, t, u | order(s, t) && order(t, u) ensures order(s, u) {
      PrecedesTransitive(less, s, t, u);
    }
    forall s, t ensures order(s, t) || order(t, s) || s == t {
      PrecedesTotal(less, s, t);
    }
  }

  // ---------------------------------------------------------------------------------------------- parameters

  function IntOrder(): (int, int) -> bool {
    (a: int, b: int) => a < b
  }

  function CharOrder(): (char, char) -> bool {
    (a: char, b: char) => a < b
  }

  // A dimension is (stride, size), a shape (data type, dimensions).
  type Dimension = (int, int)
  type Shape = (int, seq<Dimension>)

  function DimensionOrder(): (Dimension, Dimension) -> bool {
    PairOrder(IntOrder(), IntOrder())
  }

  function ShapeOrder(): (Shape, Shape) -> bool {
    PairOrder(IntOrder(), SequenceOrder(DimensionOrder()))
  }

  // The fields that a parameter's type does not use keep their defaults and are left out.  Constants are not NaN.
  datatype Parameter = TensorShaped(shape: Shape) | FloatConst(fconst: real) | IntConst(iconst: int)

  // Value::TENSOR, FCONST and ICONST
  function TypeOf(p: Parameter): int {
    match p
    case TensorShaped(_) => 0
    case FloatConst(_) => 2
    case IntConst(_) => 3
  }

  predicate Below(l: Parameter, r: Parameter) {
    if TypeOf(l) < TypeOf(r) then true
    else if TypeOf(r) < TypeOf(l) then false
    else
      match l
      case TensorShaped(shape) => ShapeOrder()(shape, r.shape)
      case FloatConst(fconst) => fconst < r.fconst
      case IntConst(iconst) => iconst < r.iconst
  }

  function ParameterOrder(): (Parameter, Parameter) -> bool {
    (l: Parameter, r: Parameter) => Below(l, r)
  }

  lemma ShapesAreTotal()
    ensures StrictTotal(ShapeOrder())
  {
    PairIsTotal(IntOrder(), IntOrder());
    SequenceIsTotal(DimensionOrder());
    PairIsTotal(IntOrder(), SequenceOrder(DimensionOrder()));
  }

  // operator< on parameters is a strict weak order, and parameters that neither precede nor follow are equal.
  lemma ParametersAreTotal()
    ensures StrictTotal(ParameterOrder())
  {
    ShapesAreTotal();
    var less := ParameterOrder();
    forall a, b, c | less(a, b) && less(b, c) ensures less(a, c) {
      if a.TensorShaped? && c.TensorShaped? {
        assert ShapeOrder()(a.shape, b.shape) && ShapeOrder()(b.shape, c.shape);
      }
    }
    forall a, b ensures less(a, b) || less(b, a) || a == b {
      if a.TensorShaped? && b.TensorShaped? {
        assert ShapeOrder()(a.shape, b.shape) || ShapeOrder()(b.shape, a.shape) || a.shape == b.shape;
      }
    }
  }

  // A std::map from names to parameters compares as the sequence of its entries in the order of their names.
  type Entries = seq<(string, Parameter)>

  function EntriesOrder(): (Entries, Entries) -> bool {
    SequenceOrder(PairOrder(SequenceOrder(CharOrder()), ParameterOrder()))
  }

  function InvokerKeyOrder(): ((Entries, Entries), (Entries, Entries)) -> bool {
    PairOrder(EntriesOrder(), EntriesOrder())
  }

  // So a cache lookup finds the entry of an equal key and no other, for both of the invoker's caches.
  lemma KeysAreTotal()
    ensures StrictTotal(EntriesOrder()) && StrictTotal(InvokerKeyOrder())
  {
    ParametersAreTotal();
    SequenceIsTotal(CharOrder());
    PairIsTotal(SequenceOrder(CharOrder()), ParameterOrder());
    SequenceIsTotal(PairOrder(SequenceOrder(CharOrder()), ParameterOrder()));
    PairIsTotal(EntriesOrder(), EntriesOrder());
  }
}
