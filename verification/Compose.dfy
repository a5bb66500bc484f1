/**
 `tile.compose` (plaidml/tile.py:1002-1070): the traversal that binds an operation graph dependency first, with a
 stack that may hold a value many times and re-pushes an operation under everything it still waits for.
 */
module Composition {
  import opened Wrappers

  // A tile.Value: backed by a variable, or one output of an operation.  Foreign is any other Python object.
  datatype Value = Placeholder(id: nat) | Output(op: nat, name: string) | Foreign

  // `effects` are the (original, updated) pairs of Operation.side_effects.
  datatype Operation = Operation(inputs: seq<Value>, effects: seq<(Value, Value)>)

  type Graph = map<nat, Operation>

  // What binding builds: a variable of the outside, or an output of an operation applied to its bound inputs.
  datatype Var = External(id: nat) | Applied(op: nat, args: seq<Var>, name: string)

  datatype Program = Program(inputs: seq<(string, Var)>, outputs: seq<(string, Var)>, updates: seq<(Var, Var)>)

  datatype Error = BoundNonValue(op: nat)

  function Flatten(pairs: seq<(Value, Value)>): seq<Value> {
    if pairs == [] then [] else [pairs[0].0, pairs[0].1] + Flatten(pairs[1..])
  }

  function Needs(o: Operation): seq<Value> {
    o.inputs + Flatten(o.effects)
  }

  // Every operation mentioned is in the graph, inputs are values (Operation.__init__ converts them), and the edges
  // made by inputs and side effects go down in rank.
  ghost predicate Acyclic(g: Graph, rank: map<nat, nat>) {
    && g.Keys <= rank.Keys
    && forall op :: op in g ==>
         && (forall v :: v in g[op].inputs ==> !v.Foreign?)
         && (forall v :: v in Needs(g[op]) ==> v.Output? ==> v.op in g && rank[v.op] < rank[op])
  }

  predicate InGraph(g: Graph, v: Value) {
    !v.Foreign? && (v.Output? ==> v.op in g)
  }

  predicate AllInGraph(g: Graph, vs: seq<Value>) {
    forall i :: 0 <= i < |vs| ==> InGraph(g, vs[i])
  }

  // ---------------------------------------------------------------------------------------------- meaning

  ghost function Args(g: Graph, rank: map<nat, nat>, op: nat): seq<Var>
    requires Acyclic(g, rank) && op in g
    decreases rank[op], 1
  {
    seq(|g[op].inputs|, i requires 0 <= i < |g[op].inputs| =>
      assert g[op].inputs[i] in Needs(g[op]); Denote(g, rank, g[op].inputs[i], rank[op]))
  }

  ghost function Denote(g: Graph, rank: map<nat, nat>, v: Value, bound: nat): Var
    requires Acyclic(g, rank) && InGraph(g, v)
    requires v.Output? ==> rank[v.op] < bound
    decreases bound, 0
  {
    match v
    case Placeholder(id) => External(id)
    case Output(op, name) => Applied(op, Args(g, rank, op), name)
  }

  // What a value means: the expression its operations spell out.
  ghost function Meaning(g: Graph, rank: map<nat, nat>, v: Value): Var
    requires Acyclic(g, rank) && InGraph(g, v)
  {
    Denote(g, rank, v, if v.Output? then rank[v.op] + 1 else 0)
  }

  lemma DenoteIsMeaning(g: Graph, rank: map<nat, nat>, v: Value, bound: nat)
    requires Acyclic(g, rank) && InGraph(g, v) && (v.Output? ==> rank[v.op] < bound)
    ensures Denote(g, rank, v, bound) == Meaning(g, rank, v)
  {
  }

  lemma ArgsAreMeanings(g: Graph, rank: map<nat, nat>, op: nat)
    requires Acyclic(g, rank) && op in g
    ensures |Args(g, rank, op)| == |g[op].inputs|
    ensures forall i :: 0 <= i < |g[op].inputs| ==>
              InGraph(g, g[op].inputs[i]) && Args(g, rank, op)[i] == Meaning(g, rank, g[op].inputs[i])
  {
    var inputs := g[op].inputs;
    forall i | 0 <= i < |inputs| ensures InGraph(g, inputs[i]) && Args(g, rank, op)[i] == Meaning(g, rank, inputs[i]) {
      assert inputs[i] in inputs && inputs[i] in Needs(g[op]);
      DenoteIsMeaning(g, rank, inputs[i], rank[op]);
      assert Args(g, rank, op)[i] == Denote(g, rank, inputs[i], rank[op]);
    }
  }

  // An operation's output means the operation applied to what its inputs mean, in their order.
  lemma MeaningUnfolds(g: Graph, rank: map<nat, nat>, v: Value)
    requires Acyclic(g, rank) && InGraph(g, v)
    ensures v.Placeholder? ==> Meaning(g, rank, v) == External(v.id)
    ensures v.Output? ==>
              var m := Meaning(g, rank, v);
              && m.Applied? && m.op == v.op && m.name == v.name && |m.args| == |g[v.op].inputs|
              && forall i :: 0 <= i < |m.args| ==>
                   InGraph(g, g[v.op].inputs[i]) && m.args[i] == Meaning(g, rank, g[v.op].inputs[i])
  {
    if v.Output? {
      ArgsAreMeanings(g, rank, v.op);
      assert Meaning(g, rank, v) == Applied(v.op, Args(g, rank, v.op), v.name);
    }
  }

  // The meaning is the graph's own: it does not depend on the ranking.
  lemma {:induction false} MeaningIsRankFree(g: Graph, rank: map<nat, nat>, rank': map<nat, nat>, op: nat)
    requires Acyclic(g, rank) && Acyclic(g, rank') && op in g
    ensures Args(g, rank, op) == Args(g, rank', op)
    decreases rank[op]
  {
    forall i | 0 <= i < |g[op].inputs| ensures Args(g, rank, op)[i] == Args(g, rank', op)[i] {
      var v := g[op].inputs[i];
      assert v in Needs(g[op]);
      if v.Output? {
        MeaningIsRankFree(g, rank, rank', v.op);
      }
    }
  }

  // ---------------------------------------------------------------------------------------------- reachability

  // A chain of needs that starts at a root.
  ghost predicate IsPath(g: Graph, roots: seq<Value>, path: seq<nat>) {
    path != [] &&
    var last, earlier := path[|path| - 1], path[..|path| - 1];
    && last in g
    && if earlier == [] then exists v :: v in roots && v.Output? && v.op == last
       else Edge(g, earlier[|earlier| - 1], last) && IsPath(g, roots, earlier)
  }

  ghost predicate Edge(g: Graph, op: nat, next: nat) {
    op in g && exists v :: v in Needs(g[op]) && v.Output? && v.op == next
  }

  ghost predicate Reachable(g: Graph, roots: seq<Value>, op: nat) {
    exists path :: IsPath(g, roots, path) && path[|path| - 1] == op
  }

  lemma RootReachable(g: Graph, roots: seq<Value>, v: Value)
    requires v in roots && v.Output? && v.op in g
    ensures Reachable(g, roots, v.op)
  {
    assert IsPath(g, roots, [v.op]);
  }

  lemma NeedReachable(g: Graph, roots: seq<Value>, op: nat, v: Value)
    requires Reachable(g, roots, op) && op in g && v in Needs(g[op]) && v.Output? && v.op in g
    ensures Reachable(g, roots, v.op)
  {
    var path :| IsPath(g, roots, path) && path[|path| - 1] == op;
    assert (path + [v.op])[..|path|] == path;
    assert Edge(g, op, v.op);
    assert IsPath(g, roots, path + [v.op]);
  }

  // A set with the roots in it and closed under needs has everything reachable.
  lemma {:induction false} ClosedHoldsPath(g: Graph, roots: seq<Value>, path: seq<nat>, s: set<nat>)
    requires IsPath(g, roots, path)
    requires forall v :: v in roots && v.Output? ==> v.op in s
    requires forall op, next :: op in s && Edge(g, op, next) ==> next in s
    ensures path[|path| - 1] in s
    decreases |path|
  {
    if |path| > 1 {
      ClosedHoldsPath(g, roots, path[..|path| - 1], s);
    }
  }

  // ---------------------------------------------------------------------------------------------- the traversal

  /** The caller's `updates` list, which compose extends in place. */
  class UpdateList {
    var items: seq<(Value, Value)>

    constructor ()
      ensures items == []
    {
      items := [];
    }

    method Extend(more: seq<(Value, Value)>)
      modifies this
      ensures items == old(items) + more
    {
      items := items + more;
    }
  }

  // The values that are not bound, each as often as it is listed, in the order of the list.
  function Missing(bindings: map<nat, seq<Var>>, vals: seq<Value>): (missing: seq<Value>)
    ensures |missing| <= |vals|
  {
    if vals == [] then []
    else
      var front, last := vals[..|vals| - 1], vals[|vals| - 1];
      Missing(bindings, front) + if last.Output? && last.op !in bindings then [last] else []
  }

  // It is the list with the bound values left out: what is missing of two lists one after the other is what is missing
  // of each, one after the other.
  lemma {:induction false} MissingOfBoth(bindings: map<nat, seq<Var>>, a: seq<Value>, b: seq<Value>)
    ensures Missing(bindings, a + b) == Missing(bindings, a) + Missing(bindings, b)
    decreases |b|
  {
    if b == [] {
      assert a + b == a;
    } else {
      var front, last := b[..|b| - 1], b[|b| - 1];
      assert (a + b)[..|a + b| - 1] == a + front;
      MissingOfBoth(bindings, a, front);
    }
  }

  lemma {:induction false} MissingAre(bindings: map<nat, seq<Var>>, vals: seq<Value>)
    ensures forall v :: v in Missing(bindings, vals) <==> v in vals && v.Output? && v.op !in bindings
  {
    if vals != [] {
      var front, last := vals[..|vals| - 1], vals[|vals| - 1];
      MissingAre(bindings, front);
      assert forall v :: v in vals <==> v in front || v == last;
    }
  }

  /** The operations bound so far, each with its bound inputs. */
  class OpBindings {
    var bindings: map<nat, seq<Var>>

    constructor ()
      ensures bindings == map[]
    {
      bindings := map[];
    }

    // _ShapelessValue.is_bound.
    predicate IsBound(v: Value)
      reads this
    {
      v.Placeholder? || (v.Output? && v.op in bindings)
    }

    // _ShapelessValue.bind; None stands for the LogicError of an unbound operation.
    function Bind(v: Value): Option<Var>
      reads this
    {
      match v
      case Placeholder(id) => Some(External(id))
      case Output(op, name) => if op in bindings then Some(Applied(op, bindings[op], name)) else None
      case Foreign => None
    }

    method Insert(op: nat, args: seq<Var>)
      modifies this
      ensures bindings == old(bindings)[op := args]
    {
      bindings := bindings[op := args];
    }

    // list(v for v in vals if not v.is_bound(bindings))
    method Unbound(vals: seq<Value>) returns (reqs: seq<Value>)
      requires Foreign !in vals
      ensures reqs == Missing(bindings, vals)
      ensures forall v :: v in reqs <==> v in vals && v.Output? && v.op !in bindings
      ensures reqs == [] ==> forall v :: v in vals ==> IsBound(v)
    {
      reqs := [];
      for i := 0 to |vals|
        invariant reqs == Missing(bindings, vals[..i])
      {
        assert vals[i] in vals;
        assert vals[..i + 1][..i] == vals[..i];
        if !IsBound(vals[i]) {
          reqs := reqs + [vals[i]];
        }
      }
      assert vals[..|vals|] == vals;
      MissingAre(bindings, vals);
      if reqs == [] {
        forall v | v in vals ensures IsBound(v) {
          assert v !in reqs;
        }
      }
    }

    // Operation.bind: look every input up.
    method BindInputs(vals: seq<Value>) returns (args: seq<Var>)
      requires forall i :: 0 <= i < |vals| ==> IsBound(vals[i])
      ensures |args| == |vals| && forall i :: 0 <= i < |vals| ==> Bind(vals[i]) == Some(args[i])
    {
      args := [];
      for i := 0 to |vals|
        invariant |args| == i && forall k :: 0 <= k < i ==> Bind(vals[k]) == Some(args[k])
      {
        args := args + [Bind(vals[i]).value];
      }
    }
  }

  function EffectsOf(g: Graph, op: nat): seq<(Value, Value)> {
    if op in g then g[op].effects else []
  }

  function Effects(g: Graph, order: seq<nat>): seq<(Value, Value)> {
    if order == [] then [] else Effects(g, order[..|order| - 1]) + EffectsOf(g, order[|order| - 1])
  }

  lemma EffectsGrow(g: Graph, start: seq<(Value, Value)>, order: seq<nat>, op: nat)
    ensures start + Effects(g, order + [op]) == start + Effects(g, order) + EffectsOf(g, op)
  {
    assert (order + [op])[..|order|] == order;
  }

  // How many side effects the operations of the order have between them.
  function EffectCount(g: Graph, order: seq<nat>): nat {
    if order == [] then 0
    else
      var earlier, last := order[..|order| - 1], order[|order| - 1];
      EffectCount(g, earlier) + if last in g then |g[last].effects| else 0
  }

  // The updates are the given ones and then the side effects of each operation, block by block in the order.
  ghost predicate InBlocks(g: Graph, given: seq<(Value, Value)>, order: seq<nat>, all: seq<(Value, Value)>) {
    && |all| == |given| + EffectCount(g, order)
    && (forall k :: 0 <= k < |given| ==> all[k] == given[k])
    && forall i, j :: 0 <= i < |order| && order[i] in g && 0 <= j < |g[order[i]].effects| ==>
         var k := |given| + EffectCount(g, order[..i]) + j;
         k < |all| && all[k] == g[order[i]].effects[j]
  }

  lemma {:induction false} EffectsCounted(g: Graph, order: seq<nat>)
    ensures |Effects(g, order)| == EffectCount(g, order)
  {
    if order != [] {
      EffectsCounted(g, order[..|order| - 1]);
    }
  }

  lemma {:induction false} EffectAt(g: Graph, order: seq<nat>, i: nat, j: nat)
    requires i < |order| && order[i] in g && j < |g[order[i]].effects|
    ensures var k := EffectCount(g, order[..i]) + j;
            k < |Effects(g, order)| && Effects(g, order)[k] == g[order[i]].effects[j]
    decreases |order|
  {
    var earlier := order[..|order| - 1];
    EffectsCounted(g, earlier);
    if i < |order| - 1 {
      EffectAt(g, earlier, i, j);
      assert earlier[..i] == order[..i];
    } else {
      assert order[..i] == earlier;
    }
  }

  lemma EffectsInBlocks(g: Graph, given: seq<(Value, Value)>, order: seq<nat>)
    ensures InBlocks(g, given, order, given + Effects(g, order))
  {
    var all := given + Effects(g, order);
    EffectsCounted(g, order);
    forall i, j | 0 <= i < |order| && order[i] in g && 0 <= j < |g[order[i]].effects|
      ensures var k := |given| + EffectCount(g, order[..i]) + j; k < |all| && all[k] == g[order[i]].effects[j]
    {
      EffectAt(g, order, i, j);
    }
  }

  // The order in which operations were bound: each once, after everything it needs, none with a foreign value.
  ghost predicate BindingOrder(g: Graph, order: seq<nat>) {
    order == [] ||
    var last, earlier := order[|order| - 1], order[..|order| - 1];
    BindingOrder(g, earlier) && last in g && last !in earlier && Supplied(Needs(g[last]), earlier)
  }

  ghost predicate Supplied(needs: seq<Value>, bound: seq<nat>) {
    forall v :: v in needs ==> !v.Foreign? && (v.Output? ==> v.op in bound)
  }

  ghost predicate Meant(g: Graph, rank: map<nat, nat>, bindings: map<nat, seq<Var>>)
    requires Acyclic(g, rank)
  {
    forall op :: op in bindings ==> op in g && bindings[op] == Args(g, rank, op)
  }

  ghost predicate BoundInOrder(g: Graph, bindings: map<nat, seq<Var>>, order: seq<nat>) {
    && BindingOrder(g, order)
    && (forall op :: op in bindings <==> op in order)
    && (forall op :: op in order ==> op in g)
  }

  lemma BindIsMeaning(g: Graph, rank: map<nat, nat>, b: OpBindings, v: Value)
    requires Acyclic(g, rank) && Meant(g, rank, b.bindings) && InGraph(g, v) && b.IsBound(v)
    ensures b.Bind(v) == Some(Meaning(g, rank, v))
  {
  }

  lemma Longer(g: Graph, bindings: map<nat, seq<Var>>, order: seq<nat>, op: nat, args: seq<Var>)
    requires BoundInOrder(g, bindings, order) && op in g && op !in bindings
    requires Supplied(Needs(g[op]), order)
    ensures BoundInOrder(g, bindings[op := args], order + [op])
  {
    assert (order + [op])[..|order|] == order;
  }

  function Second(entries: seq<(string, Value)>): seq<Value> {
    seq(|entries|, i requires 0 <= i < |entries| => entries[i].1)
  }

  function Roots(inputs: seq<(string, Value)>, outputs: seq<(string, Value)>, updates: seq<(Value, Value)>)
    : seq<Value>
  {
    Second(outputs) + Flatten(updates) + Second(inputs)
  }

  // The largest rank in use, for the termination of the traversal.
  ghost function MaxRank(rank: map<nat, nat>): (top: nat)
    ensures forall op :: op in rank ==> rank[op] <= top
  {
    if rank == map[] then 0
    else
      var op :| op in rank;
      var rest := rank - {op};
      assert forall o :: o in rank ==> o == op || o in rest;
      if rank[op] > MaxRank(rest) then rank[op] else MaxRank(rest)
  }

  // What is left before the next operation is bound: discard bound values, then descend to lower ranks.
  ghost function Descent(rank: map<nat, nat>, bindings: map<nat, seq<Var>>, stack: seq<Value>): nat {
    if stack == [] then 0
    else
      var top := stack[|stack| - 1];
      if top.Output? && top.op !in bindings && top.op in rank then rank[top.op] else |stack| + MaxRank(rank) + 1
  }

  ghost predicate StackInv(g: Graph, roots: seq<Value>, bindings: map<nat, seq<Var>>, stack: seq<Value>) {
    && (forall v :: v in stack ==> InGraph(g, v) && (v.Output? ==> Reachable(g, roots, v.op)))
    && (forall v :: v in roots && v.Output? ==> v.op in bindings || v in stack)
  }

  lemma SplitLast(s: seq<Value>)
    requires s != []
    ensures s == s[..|s| - 1] + [s[|s| - 1]] && s[|s| - 1] in s
  {
  }

  // Popping a bound value.
  lemma Discarded(g: Graph, roots: seq<Value>, rank: map<nat, nat>, bindings: map<nat, seq<Var>>,
                  rest: seq<Value>, current: Value)
    requires g.Keys <= rank.Keys && StackInv(g, roots, bindings, rest + [current])
    requires current.Output? ==> current.op in bindings
    ensures StackInv(g, roots, bindings, rest)
    ensures Descent(rank, bindings, rest) < Descent(rank, bindings, rest + [current])
  {
  }

  // Pushing an operation back under its unbound requirements.
  lemma Deferred(g: Graph, roots: seq<Value>, rank: map<nat, nat>, bindings: map<nat, seq<Var>>,
                 rest: seq<Value>, current: Value, reqs: seq<Value>)
    requires Acyclic(g, rank) && StackInv(g, roots, bindings, rest + [current])
    requires current.Output? && current.op !in bindings && Foreign !in Needs(g[current.op]) && reqs != []
    requires forall v :: v in reqs ==> v in Needs(g[current.op]) && v.Output? && v.op !in bindings
    ensures StackInv(g, roots, bindings, rest + [current] + reqs)
    ensures Descent(rank, bindings, rest + [current] + reqs) < Descent(rank, bindings, rest + [current])
  {
    forall v | v in reqs ensures InGraph(g, v) && Reachable(g, roots, v.op) {
      assert current in rest + [current];
      NeedReachable(g, roots, current.op, v);
    }
    var stack := rest + [current] + reqs;
    assert stack[|stack| - 1] == reqs[|reqs| - 1];
    assert reqs[|reqs| - 1] in reqs;
  }

  lemma {:induction false} OrderIsClosed(g: Graph, order: seq<nat>, op: nat, next: nat)
    requires BindingOrder(g, order) && op in order && Edge(g, op, next)
    ensures next in order
    decreases |order|
  {
    if op != order[|order| - 1] {
      OrderIsClosed(g, order[..|order| - 1], op, next);
    }
  }

  lemma EverythingBound(g: Graph, roots: seq<Value>, bindings: map<nat, seq<Var>>, order: seq<nat>)
    requires BoundInOrder(g, bindings, order) && forall v :: v in roots && v.Output? ==> v.op in bindings
    ensures forall op :: Reachable(g, roots, op) ==> op in order
  {
    forall op | Reachable(g, roots, op) ensures op in order {
      var path :| IsPath(g, roots, path) && path[|path| - 1] == op;
      forall o, next | o in bindings.Keys && Edge(g, o, next) ensures next in bindings.Keys {
        OrderIsClosed(g, order, o, next);
      }
      ClosedHoldsPath(g, roots, path, bindings.Keys);
    }
  }

  // ---------------------------------------------------------------------------------------------- the walk

  // One more than the largest rank of an operation among the values.
  ghost function Height(rank: map<nat, nat>, vals: seq<Value>): nat {
    if vals == [] then 0
    else
      var front, last := vals[..|vals| - 1], vals[|vals| - 1];
      if last.Output? && last.op in rank && Height(rank, front) <= rank[last.op] then rank[last.op] + 1
      else Height(rank, front)
  }

  lemma {:induction false} HeightBelow(rank: map<nat, nat>, vals: seq<Value>, n: nat)
    requires forall v :: v in vals && v.Output? && v.op in rank ==> rank[v.op] < n
    ensures Height(rank, vals) <= n
  {
    if vals != [] {
      HeightBelow(rank, vals[..|vals| - 1], n);
    }
  }

  lemma {:induction false} HeightAbove(rank: map<nat, nat>, vals: seq<Value>)
    ensures forall v :: v in vals && v.Output? && v.op in rank ==> rank[v.op] < Height(rank, vals)
  {
    if vals != [] {
      SplitLast(vals);
      HeightAbove(rank, vals[..|vals| - 1]);
    }
  }

  ghost predicate Walkable(g: Graph, vals: seq<Value>) {
    forall v :: v in vals && v.Output? ==> v.op in g
  }

  // The depth-first walk that the stack unrolls: the values from the last to the first, and each operation that is not
  // bound yet after everything it needs.
  ghost function Walk(g: Graph, rank: map<nat, nat>, bound: seq<nat>, vals: seq<Value>): seq<nat>
    requires Acyclic(g, rank) && Walkable(g, vals)
    decreases Height(rank, vals), |vals|
  {
    if vals == [] then bound
    else
      var front, last := vals[..|vals| - 1], vals[|vals| - 1];
      Walk(g, rank, WalkOne(g, rank, bound, last), front)
  }

  ghost function WalkOne(g: Graph, rank: map<nat, nat>, bound: seq<nat>, v: Value): seq<nat>
    requires Acyclic(g, rank) && (v.Output? ==> v.op in g)
    decreases if v.Output? then rank[v.op] + 1 else 0, 0
  {
    if !v.Output? || v.op in bound then bound
    else
      HeightBelow(rank, Needs(g[v.op]), rank[v.op]);
      Walk(g, rank, bound, Needs(g[v.op])) + [v.op]
  }

  // The walk binds what it walks over, unbinds nothing, and binds nothing of a higher rank.
  lemma {:induction false} WalkBinds(g: Graph, rank: map<nat, nat>, bound: seq<nat>, vals: seq<Value>)
    requires Acyclic(g, rank) && Walkable(g, vals)
    ensures bound <= Walk(g, rank, bound, vals)
    ensures forall v :: v in vals && v.Output? ==> v.op in Walk(g, rank, bound, vals)
    ensures forall op :: op in Walk(g, rank, bound, vals) ==> op in bound || (op in g && rank[op] < Height(rank, vals))
    decreases Height(rank, vals), |vals|
  {
    if vals != [] {
      var front, last := vals[..|vals| - 1], vals[|vals| - 1];
      SplitLast(vals);
      WalkOneBinds(g, rank, bound, last);
      WalkBinds(g, rank, WalkOne(g, rank, bound, last), front);
    }
  }

  lemma {:induction false} WalkOneBinds(g: Graph, rank: map<nat, nat>, bound: seq<nat>, v: Value)
    requires Acyclic(g, rank) && (v.Output? ==> v.op in g)
    ensures bound <= WalkOne(g, rank, bound, v)
    ensures v.Output? ==> v.op in WalkOne(g, rank, bound, v)
    ensures forall op :: op in WalkOne(g, rank, bound, v) ==>
              op in bound || (op in g && v.Output? && rank[op] <= rank[v.op])
    decreases if v.Output? then rank[v.op] + 1 else 0, 0
  {
    if v.Output? && v.op !in bound {
      HeightBelow(rank, Needs(g[v.op]), rank[v.op]);
      WalkBinds(g, rank, bound, Needs(g[v.op]));
    }
  }

  lemma {:induction false} WalkOfBound(g: Graph, rank: map<nat, nat>, bound: seq<nat>, vals: seq<Value>)
    requires Acyclic(g, rank) && forall v :: v in vals && v.Output? ==> v.op in g && v.op in bound
    ensures Walk(g, rank, bound, vals) == bound
  {
    if vals != [] {
      SplitLast(vals);
      WalkOfBound(g, rank, bound, vals[..|vals| - 1]);
    }
  }

  lemma {:induction false} WalkSplits(g: Graph, rank: map<nat, nat>, bound: seq<nat>, a: seq<Value>, b: seq<Value>)
    requires Acyclic(g, rank) && Walkable(g, a) && Walkable(g, b)
    ensures Walkable(g, a + b) && Walk(g, rank, bound, a + b) == Walk(g, rank, Walk(g, rank, bound, b), a)
    decreases |b|
  {
    if b == [] {
      assert a + b == a;
    } else {
      var front, last := b[..|b| - 1], b[|b| - 1];
      SplitLast(b);
      assert (a + b)[..|a + b| - 1] == a + front;
      WalkSplits(g, rank, WalkOne(g, rank, bound, last), a, front);
    }
  }

  lemma WalkLast(g: Graph, rank: map<nat, nat>, bound: seq<nat>, front: seq<Value>, last: Value)
    requires Acyclic(g, rank) && Walkable(g, front) && (last.Output? ==> last.op in g)
    ensures Walkable(g, front + [last])
    ensures Walk(g, rank, bound, front + [last]) == Walk(g, rank, WalkOne(g, rank, bound, last), front)
  {
    assert (front + [last])[..|front|] == front;
  }

  // Leaving out what is bound changes nothing.
  lemma {:induction false} WalkMissing(g: Graph, rank: map<nat, nat>, bindings: map<nat, seq<Var>>, bound: seq<nat>,
                                       vals: seq<Value>)
    requires Acyclic(g, rank) && Walkable(g, vals) && forall op :: op in bindings ==> op in bound
    ensures Walkable(g, Missing(bindings, vals))
    ensures Walk(g, rank, bound, Missing(bindings, vals)) == Walk(g, rank, bound, vals)
    decreases |vals|
  {
    MissingAre(bindings, vals);
    if vals != [] {
      var front, last := vals[..|vals| - 1], vals[|vals| - 1];
      SplitLast(vals);
      if last.Output? && last.op !in bindings {
        var after := WalkOne(g, rank, bound, last);
        WalkOneBinds(g, rank, bound, last);
        WalkMissing(g, rank, bindings, after, front);
        WalkLast(g, rank, bound, Missing(bindings, front), last);
        assert Missing(bindings, vals) == Missing(bindings, front) + [last];
      } else {
        WalkMissing(g, rank, bindings, bound, front);
        assert Missing(bindings, vals) == Missing(bindings, front);
      }
      WalkLast(g, rank, bound, front, last);
      assert vals == front + [last];
    }
  }

  // Pushing an operation back under what it waits for does not change the walk.
  lemma WalkDeferred(g: Graph, rank: map<nat, nat>, bindings: map<nat, seq<Var>>, order: seq<nat>, rest: seq<Value>,
                     current: Value)
    requires Acyclic(g, rank) && Walkable(g, rest) && current.Output? && current.op in g
    requires forall op :: op in bindings <==> op in order
    requires current.op !in order
    ensures var reqs := Missing(bindings, Needs(g[current.op]));
            && Walkable(g, rest + [current] + reqs) && Walkable(g, rest + [current])
            && Walk(g, rank, order, rest + [current] + reqs) == Walk(g, rank, order, rest + [current])
  {
    var needs := Needs(g[current.op]);
    var reqs := Missing(bindings, needs);
    var after := Walk(g, rank, order, needs);
    WalkMissing(g, rank, bindings, order, needs);
    WalkSplits(g, rank, order, rest + [current], reqs);
    assert (rest + [current])[..|rest|] == rest;
    HeightBelow(rank, needs, rank[current.op]);
    WalkBinds(g, rank, order, needs);
    WalkOfBound(g, rank, after, needs);
    assert WalkOne(g, rank, after, current) == after + [current.op] == WalkOne(g, rank, order, current);
  }

  // ---------------------------------------------------------------------------------------------- the loop

  // What the traversal knows between two iterations.
  ghost predicate Progress(g: Graph, rank: map<nat, nat>, roots: seq<Value>, bindings: map<nat, seq<Var>>,
                           order: seq<nat>, stack: seq<Value>)
    requires Acyclic(g, rank)
  {
    && Meant(g, rank, bindings) && BoundInOrder(g, bindings, order) && StackInv(g, roots, bindings, stack)
    && forall op :: op in order ==> Reachable(g, roots, op)
  }

  // One iteration of the loop, after `current` has been popped off `rest`; `bound` is the operation it bound, if any.
  method Visit(g: Graph, ghost rank: map<nat, nat>, ghost roots: seq<Value>, b: OpBindings, updates: UpdateList,
               rest: seq<Value>, current: Value, ghost order: seq<nat>)
    returns (failed: Option<Error>, stack: seq<Value>, bound: Option<nat>)
    requires Acyclic(g, rank) && Progress(g, rank, roots, b.bindings, order, rest + [current])
    modifies b, updates
    ensures Progress(g, rank, roots, b.bindings, Extend(order, bound), stack)
    ensures bound.Some? ==>
              && bound.value in g && bound.value !in old(b.bindings) && bound.value in b.bindings
              && b.bindings.Keys == old(b.bindings.Keys) + {bound.value}
              && updates.items == old(updates.items) + g[bound.value].effects
    ensures bound.None? ==> b.bindings == old(b.bindings) && updates.items == old(updates.items)
    ensures failed.None? && bound.None? ==>
              Descent(rank, b.bindings, stack) < Descent(rank, b.bindings, rest + [current])
    ensures failed.Some? ==> BadOperation(g, roots, failed.value.op)
    ensures Walkable(g, stack) && Walkable(g, rest + [current])
    ensures failed.None? ==>
              Walk(g, rank, Extend(order, bound), stack) == Walk(g, rank, order, rest + [current])
  {
    assert current in rest + [current];
    assert (rest + [current])[..|rest|] == rest;
    if b.IsBound(current) {
      Discarded(g, roots, rank, b.bindings, rest, current);
      return None, rest, None;
    }
    var op := current.op;
    var vals := Needs(g[op]);
    if Foreign in vals {
      return Some(BoundNonValue(op)), rest + [current], None;
    }
    var reqs := b.Unbound(vals);
    if reqs != [] {
      Deferred(g, roots, rank, b.bindings, rest, current, reqs);
      WalkDeferred(g, rank, b.bindings, order, rest, current);
      return None, rest + [current] + reqs, None;
    }
    Finished(g, roots, rank, b.bindings, order, rest, current);
    WalkOfBound(g, rank, order, vals);
    BindOne(g, rank, op, b, order);
    updates.Extend(g[op].effects);
    assert Progress(g, rank, roots, b.bindings, order + [op], rest);
    return None, rest, Some(op);
  }

  ghost function Extend(order: seq<nat>, bound: Option<nat>): seq<nat> {
    if bound.Some? then order + [bound.value] else order
  }

  // An operation that compose refuses: one it needs, with a side effect that is not a value.
  ghost predicate BadOperation(g: Graph, roots: seq<Value>, op: nat) {
    op in g && Reachable(g, roots, op) && Foreign in Needs(g[op])
  }

  lemma Finished(g: Graph, roots: seq<Value>, rank: map<nat, nat>, bindings: map<nat, seq<Var>>, order: seq<nat>,
                 rest: seq<Value>, current: Value)
    requires Acyclic(g, rank) && StackInv(g, roots, bindings, rest + [current]) && current.Output? && current.op in g
    requires forall op :: op in order ==> Reachable(g, roots, op)
    ensures StackInv(g, roots, bindings[current.op := Args(g, rank, current.op)], rest)
    ensures forall op :: op in order + [current.op] ==> Reachable(g, roots, op)
  {
    assert current in rest + [current];
  }

  // Binds everything the roots need.  The updates grow by the effects of each operation as it is bound.
  method BindAll(g: Graph, ghost rank: map<nat, nat>, roots: seq<Value>, b: OpBindings, updates: UpdateList)
    returns (failed: Option<Error>, ghost order: seq<nat>)
    requires Acyclic(g, rank) && AllInGraph(g, roots) && b.bindings == map[]
    modifies b, updates
    ensures Meant(g, rank, b.bindings) && BoundInOrder(g, b.bindings, order)
    ensures updates.items == old(updates.items) + Effects(g, order)
    ensures forall op :: op in order ==> Reachable(g, roots, op)
    ensures failed.None? ==> forall op :: Reachable(g, roots, op) ==> op in order
    ensures failed.None? ==> Walkable(g, roots) && order == Walk(g, rank, [], roots)
    ensures failed.Some? ==> BadOperation(g, roots, failed.value.op)
  {
    var stack := roots;
    order := [];
    RootsStack(g, roots);
    while stack != []
      invariant Progress(g, rank, roots, b.bindings, order, stack)
      invariant updates.items == old(updates.items) + Effects(g, order)
      invariant Walkable(g, roots) && Walkable(g, stack) && Walk(g, rank, order, stack) == Walk(g, rank, [], roots)
      decreases g.Keys - b.bindings.Keys, Descent(rank, b.bindings, stack)
    {
      SplitLast(stack);
      var bound;
      failed, stack, bound := Visit(g, rank, roots, b, updates, stack[..|stack| - 1], stack[|stack| - 1], order);
      if bound.Some? {
        EffectsGrow(g, old(updates.items), order, bound.value);
      }
      order := Extend(order, bound);
      if failed.Some? {
        return;
      }
    }
    failed := None;
    EverythingBound(g, roots, b.bindings, order);
  }

  lemma RootsStack(g: Graph, roots: seq<Value>)
    requires AllInGraph(g, roots)
    ensures StackInv(g, roots, map[], roots)
  {
    forall v | v in roots && v.Output? ensures Reachable(g, roots, v.op) {
      RootReachable(g, roots, v);
    }
  }

  // bindings.insert(op, op.bind(bindings))
  method BindOne(g: Graph, ghost rank: map<nat, nat>, op: nat, b: OpBindings, ghost order: seq<nat>)
    requires Acyclic(g, rank) && Meant(g, rank, b.bindings) && BoundInOrder(g, b.bindings, order)
    requires op in g && op !in b.bindings
    requires forall v :: v in Needs(g[op]) ==> b.IsBound(v)
    modifies b
    ensures b.bindings == old(b.bindings)[op := Args(g, rank, op)]
    ensures b.bindings.Keys == old(b.bindings.Keys) + {op}
    ensures Meant(g, rank, b.bindings) && BoundInOrder(g, b.bindings, order + [op])
  {
    assert forall v :: v in g[op].inputs ==> v in Needs(g[op]);
    var args := b.BindInputs(g[op].inputs);
    forall i | 0 <= i < |args| ensures args[i] == Args(g, rank, op)[i] {
      BindIsMeaning(g, rank, b, g[op].inputs[i]);
    }
    assert args == Args(g, rank, op);
    Longer(g, b.bindings, order, op, args);
    b.Insert(op, args);
  }

  // ---------------------------------------------------------------------------------------------- composing

  // Each operation is bound once and after every operation it needs, none of which is foreign.
  lemma {:induction false} BoundOnceAfterNeeds(g: Graph, order: seq<nat>, i: nat, j: nat)
    requires BindingOrder(g, order) && i < |order| && j < |order|
    ensures order[i] == order[j] ==> i == j
    ensures order[i] in g && Supplied(Needs(g[order[i]]), order[..i])
    decreases |order|
  {
    var last := |order| - 1;
    var earlier := order[..last];
    if i < last && j < last {
      BoundOnceAfterNeeds(g, earlier, i, j);
      assert earlier[..i] == order[..i];
    } else if i < last {
      BoundOnceAfterNeeds(g, earlier, i, i);
      assert earlier[..i] == order[..i];
      assert earlier[i] in earlier;
    } else if j < last {
      assert earlier[j] in earlier;
    }
  }

  predicate PairInGraph(g: Graph, pair: (Value, Value)) {
    InGraph(g, pair.0) && InGraph(g, pair.1)
  }

  lemma {:induction false} FlattenHas(pairs: seq<(Value, Value)>, i: nat)
    requires i < |pairs|
    ensures pairs[i].0 in Flatten(pairs) && pairs[i].1 in Flatten(pairs)
  {
    if i > 0 {
      FlattenHas(pairs[1..], i - 1);
    }
  }

  predicate PairBound(g: Graph, bindings: map<nat, seq<Var>>, pair: (Value, Value)) {
    && PairInGraph(g, pair)
    && (pair.0.Output? ==> pair.0.op in bindings) && (pair.1.Output? ==> pair.1.op in bindings)
  }

  // Both sides of every side effect collected are bound by the end.
  lemma {:induction false} EffectsBound(g: Graph, bindings: map<nat, seq<Var>>, order: seq<nat>, i: nat)
    requires BindingOrder(g, order) && i < |Effects(g, order)|
    requires forall op :: op in order ==> op in bindings && op in g
    ensures PairBound(g, bindings, Effects(g, order)[i])
    decreases |order|
  {
    var last, earlier := order[|order| - 1], order[..|order| - 1];
    if i < |Effects(g, earlier)| {
      assert forall op :: op in earlier ==> op in order;
      EffectsBound(g, bindings, earlier, i);
    } else {
      FlattenHas(g[last].effects, i - |Effects(g, earlier)|);
      assert forall v :: v in Flatten(g[last].effects) ==> v in Needs(g[last]);
      assert forall op :: op in earlier ==> op in order;
    }
  }

  ghost predicate NamedMeanings(g: Graph, rank: map<nat, nat>, entries: seq<(string, Value)>, vars: seq<(string, Var)>)
    requires Acyclic(g, rank)
  {
    |vars| == |entries| && forall i :: 0 <= i < |entries| ==>
      InGraph(g, entries[i].1) && vars[i] == (entries[i].0, Meaning(g, rank, entries[i].1))
  }

  ghost predicate PairMeanings(g: Graph, rank: map<nat, nat>, pairs: seq<(Value, Value)>, vars: seq<(Var, Var)>)
    requires Acyclic(g, rank)
  {
    |vars| == |pairs| && forall i :: 0 <= i < |pairs| ==>
      PairInGraph(g, pairs[i]) && vars[i] == (Meaning(g, rank, pairs[i].0), Meaning(g, rank, pairs[i].1))
  }

  method BindNamed(g: Graph, ghost rank: map<nat, nat>, b: OpBindings, entries: seq<(string, Value)>)
    returns (vars: seq<(string, Var)>)
    requires Acyclic(g, rank) && Meant(g, rank, b.bindings)
    requires forall i :: 0 <= i < |entries| ==> InGraph(g, entries[i].1) && b.IsBound(entries[i].1)
    ensures NamedMeanings(g, rank, entries, vars)
  {
    vars := [];
    for i := 0 to |entries|
      invariant |vars| == i
      invariant forall k :: 0 <= k < i ==> vars[k] == (entries[k].0, Meaning(g, rank, entries[k].1))
    {
      BindIsMeaning(g, rank, b, entries[i].1);
      vars := vars + [(entries[i].0, b.Bind(entries[i].1).value)];
    }
  }

  method BindPairs(g: Graph, ghost rank: map<nat, nat>, b: OpBindings, pairs: seq<(Value, Value)>)
    returns (vars: seq<(Var, Var)>)
    requires Acyclic(g, rank) && Meant(g, rank, b.bindings)
    requires forall i :: 0 <= i < |pairs| ==> PairBound(g, b.bindings, pairs[i])
    ensures PairMeanings(g, rank, pairs, vars)
  {
    vars := [];
    for i := 0 to |pairs|
      invariant |vars| == i
      invariant forall k :: 0 <= k < i ==>
                  vars[k] == (Meaning(g, rank, pairs[k].0), Meaning(g, rank, pairs[k].1))
    {
      assert PairBound(g, b.bindings, pairs[i]);
      BindIsMeaning(g, rank, b, pairs[i].0);
      BindIsMeaning(g, rank, b, pairs[i].1);
      vars := vars + [(b.Bind(pairs[i].0).value, b.Bind(pairs[i].1).value)];
    }
  }

  lemma {:induction false} FlattenAlternates(pairs: seq<(Value, Value)>)
    ensures |Flatten(pairs)| == 2 * |pairs|
    ensures forall i :: 0 <= i < |pairs| ==>
              Flatten(pairs)[2 * i] == pairs[i].0 && Flatten(pairs)[2 * i + 1] == pairs[i].1
  {
    if pairs != [] {
      FlattenAlternates(pairs[1..]);
      forall i | 0 <= i < |pairs|
        ensures Flatten(pairs)[2 * i] == pairs[i].0 && Flatten(pairs)[2 * i + 1] == pairs[i].1
      {
        if i > 0 {
          var rest := Flatten(pairs[1..]);
          assert rest[2 * (i - 1)] == pairs[1..][i - 1].0 && rest[2 * (i - 1) + 1] == pairs[1..][i - 1].1;
        }
      }
    }
  }

  // What the stack starts with: the outputs, then each given update's original and new value, then the inputs, in the
  // order they are listed; and what an operation needs: its inputs, then its side effects likewise.
  lemma RootsAndNeeds(inputs: seq<(string, Value)>, outputs: seq<(string, Value)>, updates: seq<(Value, Value)>,
                      o: Operation)
    ensures var roots := Roots(inputs, outputs, updates);
            && |roots| == |outputs| + 2 * |updates| + |inputs|
            && (forall i :: 0 <= i < |outputs| ==> roots[i] == outputs[i].1)
            && (forall i :: 0 <= i < |updates| ==>
                  && roots[|outputs| + 2 * i] == updates[i].0
                  && roots[|outputs| + 2 * i + 1] == updates[i].1)
            && (forall i :: 0 <= i < |inputs| ==> roots[|outputs| + 2 * |updates| + i] == inputs[i].1)
    ensures |Needs(o)| == |o.inputs| + 2 * |o.effects|
    ensures forall i :: 0 <= i < |o.inputs| ==> Needs(o)[i] == o.inputs[i]
    ensures forall i :: 0 <= i < |o.effects| ==>
              Needs(o)[|o.inputs| + 2 * i] == o.effects[i].0 && Needs(o)[|o.inputs| + 2 * i + 1] == o.effects[i].1
  {
    FlattenAlternates(updates);
    FlattenAlternates(o.effects);
  }

  lemma RootsHave(inputs: seq<(string, Value)>, outputs: seq<(string, Value)>, updates: seq<(Value, Value)>)
    ensures forall i :: 0 <= i < |inputs| ==> inputs[i].1 in Roots(inputs, outputs, updates)
    ensures forall i :: 0 <= i < |outputs| ==> outputs[i].1 in Roots(inputs, outputs, updates)
    ensures forall i :: 0 <= i < |updates| ==>
              updates[i].0 in Roots(inputs, outputs, updates) && updates[i].1 in Roots(inputs, outputs, updates)
  {
    forall i | 0 <= i < |inputs| ensures inputs[i].1 in Second(inputs) {
      assert Second(inputs)[i] == inputs[i].1;
    }
    forall i | 0 <= i < |outputs| ensures outputs[i].1 in Second(outputs) {
      assert Second(outputs)[i] == outputs[i].1;
    }
    forall i | 0 <= i < |updates| ensures updates[i].0 in Flatten(updates) && updates[i].1 in Flatten(updates) {
      FlattenHas(updates, i);
    }
  }

  // The program's parts mean what the graph says, and nothing it needs is missing or bound twice; `updates` are all of
  // them, given or appended.
  ghost predicate Composed(g: Graph, rank: map<nat, nat>, roots: seq<Value>, inputs: seq<(string, Value)>,
                           outputs: seq<(string, Value)>, updates: seq<(Value, Value)>, order: seq<nat>, p: Program)
    requires Acyclic(g, rank)
  {
    && BindingOrder(g, order) && (forall op :: op in order <==> Reachable(g, roots, op))
    && NamedMeanings(g, rank, inputs, p.inputs) && NamedMeanings(g, rank, outputs, p.outputs)
    && PairMeanings(g, rank, updates, p.updates)
  }

  lemma NothingRefused(g: Graph, roots: seq<Value>, order: seq<nat>)
    requires BindingOrder(g, order) && forall o :: Reachable(g, roots, o) ==> o in order
    ensures forall op :: !BadOperation(g, roots, op)
  {
    forall op | Reachable(g, roots, op) ensures op in g && Foreign !in Needs(g[op]) {
      var i :| 0 <= i < |order| && order[i] == op;
      BoundOnceAfterNeeds(g, order, i, i);
    }
  }

  // The updates that were given and the side effects that were appended are all bound.
  lemma UpdatesBound(g: Graph, bindings: map<nat, seq<Var>>, given: seq<(Value, Value)>, order: seq<nat>)
    requires BoundInOrder(g, bindings, order)
    requires forall i :: 0 <= i < |given| ==> PairBound(g, bindings, given[i])
    ensures forall i :: 0 <= i < |given + Effects(g, order)| ==> PairBound(g, bindings, (given + Effects(g, order))[i])
  {
    forall i | 0 <= i < |given + Effects(g, order)| ensures PairBound(g, bindings, (given + Effects(g, order))[i]) {
      if i >= |given| {
        EffectsBound(g, bindings, order, i - |given|);
      }
    }
  }

  method Compose(g: Graph, ghost rank: map<nat, nat>, inputs: seq<(string, Value)>, outputs: seq<(string, Value)>,
                 updates: UpdateList)
    returns (r: Result<Program, Error>, ghost order: seq<nat>)
    requires Acyclic(g, rank) && AllInGraph(g, Roots(inputs, outputs, updates.items))
    modifies updates
    ensures var roots := Roots(inputs, outputs, old(updates.items));
            && (r.Err? <==> exists op :: BadOperation(g, roots, op))
            && (r.Ok? ==>
                  && Walkable(g, roots) && order == Walk(g, rank, [], roots)
                  && Composed(g, rank, roots, inputs, outputs, updates.items, order, r.value)
                  && InBlocks(g, old(updates.items), order, updates.items))
  {
    ghost var before := updates.items;
    var roots := Roots(inputs, outputs, updates.items);
    var b := new OpBindings();
    var failed;
    failed, order := BindAll(g, rank, roots, b, updates);
    if failed.Some? {
      return Err(failed.value), order;
    }
    NothingRefused(g, roots, order);
    RootsHave(inputs, outputs, before);
    RootsBound(g, roots, b, order);
    var ins := BindNamed(g, rank, b, inputs);
    var outs := BindNamed(g, rank, b, outputs);
    UpdatesBound(g, b.bindings, before, order);
    EffectsInBlocks(g, before, order);
    var ups := BindPairs(g, rank, b, updates.items);
    return Ok(Program(ins, outs, ups)), order;
  }

  lemma RootsBound(g: Graph, roots: seq<Value>, b: OpBindings, order: seq<nat>)
    requires AllInGraph(g, roots) && BoundInOrder(g, b.bindings, order)
    requires forall op :: Reachable(g, roots, op) ==> op in order
    ensures forall v :: v in roots ==> InGraph(g, v) && b.IsBound(v)
  {
    forall v | v in roots ensures InGraph(g, v) && b.IsBound(v) {
      if v.Output? {
        RootReachable(g, roots, v);
      }
    }
  }
}
