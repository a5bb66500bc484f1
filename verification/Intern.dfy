/**
 The intern table of base/util/intern.h: `Interned<T>::make` and the deleter it attaches to each object.

 `make` holds the mutex throughout, so it is one step; dropping the last reference only *expires* an object, and its
 deleter takes the mutex some time later.  Deleters of several incarnations of one key may be pending at once.
 */
module Interning {
  import opened Wrappers
  import Tally

  type Key(==) = string

  // A map node: its identity (what an iterator names), the count, and the object the weak pointer refers to.
  datatype Node = Node(id: nat, count: nat, weak: Option<nat>)

  // Live while refs > 0; then Expired until its deleter has decremented the node it captured.
  datatype Object = Object(key: Key, node: nat, refs: nat, deleted: bool)

  // `made` numbers the nodes; `corrupted` records a deleter that used an erased node or decremented a zero count.
  datatype State = State(table: map<Key, Node>, objects: seq<Object>, made: nat, corrupted: bool)

  const EMPTY := State(map[], [], 0, false)

  // The insert at the top of make: an existing node is kept.
  function Inserted(s: State, k: Key): State {
    if k in s.table then s else s.(table := s.table[k := Node(s.made, 0, None)], made := s.made + 1)
  }

  function Locked(s: State, k: Key): (found: Option<nat>)
    requires k in s.table
  {
    match s.table[k].weak
    case Some(o) => if o < |s.objects| && s.objects[o].refs > 0 then Some(o) else None
    case None => None
  }

  function WithRefs(s: State, o: nat, refs: nat): State
    requires o < |s.objects|
  {
    s.(objects := s.objects[o := s.objects[o].(refs := refs)])
  }

  // A new object for k, counted on k's node; with `kept`, make's caller holds it and the weak pointer refers to it.
  function Created(s: State, k: Key, kept: bool): State
    requires k in s.table
  {
    var n := s.table[k];
    s.(table := s.table[k := Node(n.id, n.count + 1, if kept then Some(|s.objects|) else n.weak)],
       objects := s.objects + [Object(k, n.id, if kept then 1 else 0, false)])
  }

  // make, ending normally: the state after it and the object it returns.
  function Intern(s: State, k: Key): (State, nat) {
    var t := Inserted(s, k);
    match Locked(t, k)
    case Some(o) => (WithRefs(t, o, t.objects[o].refs + 1), o)
    case None => (Created(t, k, true), |t.objects|)
  }

  // `new T` throws: the insert has happened, and nothing else.
  function MakeThrows(s: State, k: Key): State {
    Inserted(s, k)
  }

  // The conversion to shared_ptr throws: the object is created, counted and destroyed again inside the call.
  function MakeUnwinds(s: State, k: Key): State {
    var t := Inserted(s, k);
    Delete(Created(t, k, false), |t.objects|)
  }

  // The deleter's block under the mutex, using the iterator captured by make.
  function Delete(s: State, o: nat): State
    requires o < |s.objects|
  {
    var obj := s.objects[o];
    var objects := s.objects[o := obj.(deleted := true)];
    if obj.key !in s.table || s.table[obj.key].id != obj.node || s.table[obj.key].count == 0 then
      s.(objects := objects, corrupted := true)
    else if s.table[obj.key].count == 1 then
      s.(objects := objects, table := s.table - {obj.key})
    else
      s.(objects := objects, table := s.table[obj.key := s.table[obj.key].(count := s.table[obj.key].count - 1)])
  }

  datatype Step =
    | DoMake(k: Key)
    | DoMakeThrows(k: Key)
    | DoMakeUnwinds(k: Key)
    | Copy(o: nat)
    | Drop(o: nat)
    | RunDeleter(o: nat)

  predicate Enabled(s: State, step: Step) {
    match step
    case DoMake(_) => true
    case DoMakeThrows(k) => k in s.table ==> Locked(s, k).None?
    case DoMakeUnwinds(k) => k in s.table ==> Locked(s, k).None?
    case Copy(o) => o < |s.objects| && s.objects[o].refs > 0
    case Drop(o) => o < |s.objects| && s.objects[o].refs > 0
    case RunDeleter(o) => o < |s.objects| && s.objects[o].refs == 0 && !s.objects[o].deleted
  }

  function Apply(s: State, step: Step): State
    requires Enabled(s, step)
  {
    match step
    case DoMake(k) => Intern(s, k).0
    case DoMakeThrows(k) => MakeThrows(s, k)
    case DoMakeUnwinds(k) => MakeUnwinds(s, k)
    case Copy(o) => WithRefs(s, o, s.objects[o].refs + 1)
    case Drop(o) => WithRefs(s, o, s.objects[o].refs - 1)
    case RunDeleter(o) => Delete(s, o)
  }

  predicate CanRun(s: State, steps: seq<Step>)
    decreases |steps|
  {
    steps == [] || (Enabled(s, steps[0]) && CanRun(Apply(s, steps[0]), steps[1..]))
  }

  function Run(s: State, steps: seq<Step>): State
    requires CanRun(s, steps)
    decreases |steps|
  {
    if steps == [] then s else Run(Apply(s, steps[0]), steps[1..])
  }

  /** The table in place: the same blocks as methods of an object that owns the map. */
  class InternmentMap {
    var table: map<Key, Node>
    var objects: seq<Object>
    var made: nat
    var corrupted: bool

    function Value(): State
      reads this
    {
      State(table, objects, made, corrupted)
    }

    constructor ()
      ensures Value() == EMPTY
    {
      table, objects, made, corrupted := map[], [], 0, false;
    }

    method Make(k: Key) returns (result: nat)
      modifies this
      ensures (Value(), result) == Intern(old(Value()), k)
    {
      ghost var t := Inserted(Value(), k);
      if k !in table {
        table := table[k := Node(made, 0, None)];
        made := made + 1;
      }
      assert Value() == t;
      var node := table[k];
      if node.weak.Some? && node.weak.value < |objects| && objects[node.weak.value].refs > 0 {
        result := node.weak.value;
        objects := objects[result := objects[result].(refs := objects[result].refs + 1)];
        return;
      }
      result := |objects|;
      objects := objects + [Object(k, node.id, 1, false)];
      table := table[k := Node(node.id, node.count + 1, node.weak)];
      table := table[k := table[k].(weak := Some(result))];
      assert table == t.table[k := Node(node.id, node.count + 1, Some(result))];
    }

    method RunDeleter(o: nat)
      requires o < |objects|
      modifies this
      ensures Value() == Delete(old(Value()), o)
    {
      var obj := objects[o];
      objects := objects[o := obj.(deleted := true)];
      if obj.key !in table || table[obj.key].id != obj.node || table[obj.key].count == 0 {
        corrupted := true;
        return;
      }
      table := table[obj.key := table[obj.key].(count := table[obj.key].count - 1)];
      if table[obj.key].count == 0 {
        table := table - {obj.key};
        assert table == old(table) - {obj.key};
      }
    }
  }

  // ---------------------------------------------------------------------------------------------- invariant

  // An incarnation of node n whose deleter has not decremented yet.
  function Pending(n: nat): Object -> nat {
    (o: Object) => if o.node == n && !o.deleted then 1 else 0
  }

  ghost predicate Counts(s: State) {
    forall k :: k in s.table ==> s.table[k].count == Tally.Sum(s.objects, Pending(s.table[k].id))
  }

  ghost predicate Linked(s: State) {
    && !s.corrupted
    && (forall k :: k in s.table ==> s.table[k].id < s.made)
    && (forall k, l :: k in s.table && l in s.table && s.table[k].id == s.table[l].id ==> k == l)
    && (forall o :: 0 <= o < |s.objects| ==> s.objects[o].node < s.made)
    && (forall o :: 0 <= o < |s.objects| ==> !s.objects[o].deleted ==> AtItsNode(s, s.objects[o]))
    && (forall o :: 0 <= o < |s.objects| ==> s.objects[o].refs > 0 ==>
          !s.objects[o].deleted && s.objects[o].key in s.table && s.table[s.objects[o].key].weak == Some(o))
    && (forall k :: k in s.table ==> s.table[k].weak.Some? ==>
          s.table[k].weak.value < |s.objects| && s.objects[s.table[k].weak.value].key == k)
  }

  predicate AtItsNode(s: State, o: Object) {
    o.key in s.table && s.table[o.key].id == o.node
  }

  ghost predicate Inv(s: State) {
    Linked(s) && Counts(s)
  }

  lemma InsertedCounts(s: State, k: Key)
    requires Inv(s)
    ensures Counts(Inserted(s, k))
  {
    Tally.Uniform(s.objects, Pending(s.made), 0);
  }

  lemma InsertedLinked(s: State, k: Key)
    requires Linked(s)
    ensures Linked(Inserted(s, k))
  {
    var t := Inserted(s, k);
    forall o | 0 <= o < |s.objects| && !s.objects[o].deleted ensures AtItsNode(t, s.objects[o]) {
      assert AtItsNode(s, s.objects[o]);
    }
  }

  lemma InsertedInv(s: State, k: Key)
    requires Inv(s)
    ensures Inv(Inserted(s, k))
  {
    InsertedCounts(s, k);
    InsertedLinked(s, k);
  }

  lemma CreatedCounts(s: State, k: Key, kept: bool)
    requires Inv(s) && k in s.table
    ensures Counts(Created(s, k, kept))
  {
    var t := Created(s, k, kept);
    var created := t.objects[|s.objects|];
    forall l | l in t.table ensures t.table[l].count == Tally.Sum(t.objects, Pending(t.table[l].id)) {
      Tally.Append(s.objects, Pending(t.table[l].id), created);
    }
  }

  lemma CreatedLinked(s: State, k: Key, kept: bool)
    requires Linked(s) && k in s.table && Locked(s, k).None?
    ensures Linked(Created(s, k, kept))
  {
    var t := Created(s, k, kept);
    assert t.objects[..|s.objects|] == s.objects;
    forall o | 0 <= o < |s.objects| && s.objects[o].refs > 0 ensures s.objects[o].key != k {
      assert s.table[s.objects[o].key].weak == Some(o);
    }
    forall o | 0 <= o < |t.objects| && !t.objects[o].deleted ensures AtItsNode(t, t.objects[o]) {
      if o < |s.objects| {
        assert AtItsNode(s, s.objects[o]);
      }
    }
  }

  lemma CreatedInv(s: State, k: Key, kept: bool)
    requires Inv(s) && k in s.table && Locked(s, k).None?
    ensures Inv(Created(s, k, kept))
  {
    CreatedCounts(s, k, kept);
    CreatedLinked(s, k, kept);
  }

  lemma WithRefsInv(s: State, o: nat, t: State)
    requires Inv(s) && o < |s.objects| && s.objects[o].refs > 0
    requires o < |t.objects| && t == WithRefs(s, o, t.objects[o].refs)
    ensures Inv(t)
  {
    forall k | k in t.table ensures t.table[k].count == Tally.Sum(t.objects, Pending(t.table[k].id)) {
      Tally.Update(s.objects, Pending(t.table[k].id), o, t.objects[o]);
    }
  }

  // The last deleter of a node: nobody else captured it.
  lemma LastOfItsNode(s: State, o: nat, p: nat)
    requires Inv(s) && o < |s.objects| && p < |s.objects| && !s.objects[o].deleted && !s.objects[p].deleted
    requires s.table[s.objects[o].key].count == 1 && s.objects[p].key == s.objects[o].key
    ensures o == p
  {
    var pending := Pending(s.objects[o].node);
    if o != p {
      var gone := s.objects[o].(deleted := true);
      Tally.Update(s.objects, pending, o, gone);
      Tally.Member(s.objects[o := gone], pending, p);
    }
  }

  // The deleter finds its node, with a count that includes it.
  lemma DeleterFindsItsNode(s: State, o: nat)
    requires Inv(s) && o < |s.objects| && !s.objects[o].deleted
    ensures AtItsNode(s, s.objects[o]) && s.table[s.objects[o].key].count > 0
  {
    Tally.Member(s.objects, Pending(s.objects[o].node), o);
    assert AtItsNode(s, s.objects[o]);
  }

  lemma DeleteCounts(s: State, o: nat)
    requires Inv(s) && o < |s.objects| && !s.objects[o].deleted
    ensures Counts(Delete(s, o))
  {
    DeleterFindsItsNode(s, o);
    var t := Delete(s, o);
    forall k | k in t.table ensures t.table[k].count == Tally.Sum(t.objects, Pending(t.table[k].id)) {
      Tally.Update(s.objects, Pending(t.table[k].id), o, t.objects[o]);
    }
  }

  lemma OthersKeepTheirNodes(s: State, o: nat, p: nat)
    requires Inv(s) && o < |s.objects| && p < |s.objects| && p != o
    requires !s.objects[o].deleted && !s.objects[p].deleted
    ensures AtItsNode(Delete(s, o), s.objects[p])
  {
    DeleterFindsItsNode(s, o);
    assert AtItsNode(s, s.objects[p]);
    if s.table[s.objects[o].key].count == 1 && s.objects[p].key == s.objects[o].key {
      LastOfItsNode(s, o, p);
    }
  }

  lemma DeleteLinked(s: State, o: nat)
    requires Inv(s) && o < |s.objects| && s.objects[o].refs == 0 && !s.objects[o].deleted
    ensures Linked(Delete(s, o))
  {
    var t := Delete(s, o);
    DeleterFindsItsNode(s, o);
    assert t.objects == s.objects[o := s.objects[o].(deleted := true)];
    assert forall k :: k in t.table ==>
      k in s.table && t.table[k].id == s.table[k].id && t.table[k].weak == s.table[k].weak;
    forall p | 0 <= p < |t.objects| && !t.objects[p].deleted ensures AtItsNode(t, t.objects[p]) {
      OthersKeepTheirNodes(s, o, p);
    }
  }

  lemma DeleteInv(s: State, o: nat)
    requires Inv(s) && o < |s.objects| && s.objects[o].refs == 0 && !s.objects[o].deleted
    ensures Inv(Delete(s, o))
  {
    DeleteCounts(s, o);
    DeleteLinked(s, o);
  }

  lemma InternInv(s: State, k: Key)
    requires Inv(s)
    ensures Inv(Intern(s, k).0)
  {
    InsertedInv(s, k);
    var t := Inserted(s, k);
    match Locked(t, k) {
      case Some(o) => WithRefsInv(t, o, Intern(s, k).0);
      case None => CreatedInv(t, k, true);
    }
  }

  lemma UnwindsInv(s: State, k: Key)
    requires Inv(s) && Enabled(s, DoMakeUnwinds(k))
    ensures Inv(MakeUnwinds(s, k))
  {
    InsertedInv(s, k);
    var t := Inserted(s, k);
    CreatedInv(t, k, false);
    DeleteInv(Created(t, k, false), |t.objects|);
  }

  lemma MakeStepInv(s: State, step: Step, k: Key)
    requires Inv(s) && Enabled(s, step) && step in {DoMake(k), DoMakeThrows(k), DoMakeUnwinds(k)}
    ensures Inv(Apply(s, step))
  {
    if step.DoMake? {
      InternInv(s, k);
    } else if step.DoMakeThrows? {
      InsertedInv(s, k);
    } else {
      UnwindsInv(s, k);
    }
  }

  lemma CopyInv(s: State, o: nat)
    requires Inv(s) && Enabled(s, Copy(o))
    ensures Inv(Apply(s, Copy(o)))
  {
    WithRefsInv(s, o, Apply(s, Copy(o)));
  }

  lemma DropInv(s: State, o: nat)
    requires Inv(s) && Enabled(s, Drop(o))
    ensures Inv(Apply(s, Drop(o)))
  {
    WithRefsInv(s, o, Apply(s, Drop(o)));
  }

  lemma StepInv(s: State, step: Step)
    requires Inv(s) && Enabled(s, step)
    ensures Inv(Apply(s, step))
  {
    match step
    case DoMake(k) => MakeStepInv(s, step, k);
    case DoMakeThrows(k) => MakeStepInv(s, step, k);
    case DoMakeUnwinds(k) => MakeStepInv(s, step, k);
    case Copy(o) => CopyInv(s, o);
    case Drop(o) => DropInv(s, o);
    case RunDeleter(o) => DeleteInv(s, o);
  }

  lemma {:induction false} RunInv(s: State, steps: seq<Step>)
    requires Inv(s) && CanRun(s, steps)
    ensures Inv(Run(s, steps))
    decreases |steps|
  {
    if steps != [] {
      StepInv(s, steps[0]);
      RunInv(Apply(s, steps[0]), steps[1..]);
    }
  }

  // ---------------------------------------------------------------------------------------------- results

  // No deleter ever meets an erased node, whatever the order in which objects die and deleters run; the node's
  // count is the number of incarnations still to be deleted.
  lemma DeletersAreSafe(steps: seq<Step>, s: State)
    requires CanRun(EMPTY, steps) && s == Run(EMPTY, steps)
    ensures !s.corrupted
    ensures forall k :: k in s.table ==> s.table[k].count == Tally.Sum(s.objects, Pending(s.table[k].id))
    ensures forall o :: 0 <= o < |s.objects| && !s.objects[o].deleted ==>
              && s.objects[o].key in s.table && s.table[s.objects[o].key].id == s.objects[o].node
              && s.table[s.objects[o].key].count > 0
  {
    RunInv(EMPTY, steps);
    forall o | 0 <= o < |s.objects| && !s.objects[o].deleted
      ensures AtItsNode(s, s.objects[o]) && s.table[s.objects[o].key].count > 0
    {
      Tally.Member(s.objects, Pending(s.objects[o].node), o);
    }
  }

  // Pointer equality is value equality: two objects alive together have the same key only if they are the same.
  lemma UniqueWhileAlive(steps: seq<Step>, s: State, o: nat, p: nat)
    requires CanRun(EMPTY, steps) && s == Run(EMPTY, steps)
    requires o < |s.objects| && p < |s.objects| && s.objects[o].refs > 0 && s.objects[p].refs > 0
    ensures s.objects[o].key == s.objects[p].key <==> o == p
  {
    RunInv(EMPTY, steps);
  }

  // ---------------------------------------------------------------------------------------------- references

  function After(s: State, steps: seq<Step>, n: nat): State
    requires n <= |steps| && CanRun(s, steps)
    decreases n
  {
    if n == 0 then s else After(Apply(s, steps[0]), steps[1..], n - 1)
  }

  function Refs(s: State, o: nat): int {
    if o < |s.objects| then s.objects[o].refs else 0
  }

  // What a client does to its references: a make that returns o gives it one, a copy another, and a drop takes one.
  function Taken(s: State, step: Step, o: nat): int {
    match step
    case DoMake(k) => if Intern(s, k).1 == o then 1 else 0
    case Copy(p) => if p == o then 1 else 0
    case Drop(p) => if p == o then -1 else 0
    case _ => 0
  }

  // The makes that returned o and its copies, less its drops, among the first n steps.
  function Held(s: State, steps: seq<Step>, n: nat, o: nat): int
    requires n <= |steps| && CanRun(s, steps)
    decreases n
  {
    if n == 0 then 0 else Taken(s, steps[0], o) + Held(Apply(s, steps[0]), steps[1..], n - 1, o)
  }

  lemma StepRefs(s: State, step: Step, o: nat)
    requires Enabled(s, step)
    ensures Refs(Apply(s, step), o) == Refs(s, o) + Taken(s, step, o)
  {
  }

  // The reference count is what the clients hold.
  lemma {:induction false} RefsAreHeld(s: State, steps: seq<Step>, n: nat, o: nat)
    requires n <= |steps| && CanRun(s, steps)
    ensures Refs(After(s, steps, n), o) == Refs(s, o) + Held(s, steps, n, o)
    decreases n
  {
    if n > 0 {
      StepRefs(s, steps[0], o);
      RefsAreHeld(Apply(s, steps[0]), steps[1..], n - 1, o);
    }
  }

  lemma {:induction false} AfterInv(s: State, steps: seq<Step>, n: nat)
    requires Inv(s) && n <= |steps| && CanRun(s, steps)
    ensures Inv(After(s, steps, n))
    decreases n
  {
    if n > 0 {
      StepInv(s, steps[0]);
      AfterInv(Apply(s, steps[0]), steps[1..], n - 1);
    }
  }

  lemma {:induction false} AfterNext(s: State, steps: seq<Step>, n: nat)
    requires n < |steps| && CanRun(s, steps)
    ensures Enabled(After(s, steps, n), steps[n]) && After(s, steps, n + 1) == Apply(After(s, steps, n), steps[n])
    decreases n
  {
    if n > 0 {
      AfterNext(Apply(s, steps[0]), steps[1..], n - 1);
      assert steps[1..][n - 1] == steps[n];
    }
  }

  lemma {:induction false} RunIsAfter(s: State, steps: seq<Step>)
    requires CanRun(s, steps)
    ensures Run(s, steps) == After(s, steps, |steps|)
    decreases |steps|
  {
    if steps != [] {
      RunIsAfter(Apply(s, steps[0]), steps[1..]);
    }
  }

  lemma LiveIsTheAnswer(s: State, o: nat)
    requires Inv(s) && o < |s.objects| && s.objects[o].refs > 0
    ensures Intern(s, s.objects[o].key).1 == o
  {
  }

  lemma KeyKept(s: State, step: Step, o: nat)
    requires Enabled(s, step) && o < |s.objects|
    ensures o < |Apply(s, step).objects| && Apply(s, step).objects[o].key == s.objects[o].key
  {
  }

  lemma MadeHasKey(s: State, k: Key)
    requires Inv(s)
    ensures var (t, o) := Intern(s, k); o < |t.objects| && t.objects[o].key == k
  {
    InsertedInv(s, k);
  }

  predicate HasKey(s: State, o: nat, k: Key) {
    o < |s.objects| && s.objects[o].key == k
  }

  // The key of what step i made, after n steps.
  lemma {:induction false} KeyAfter(steps: seq<Step>, i: nat, k: Key, o: nat, n: nat)
    requires CanRun(EMPTY, steps) && i < n <= |steps| && HasKey(After(EMPTY, steps, i + 1), o, k)
    ensures HasKey(After(EMPTY, steps, n), o, k)
    decreases n
  {
    if i + 1 < n {
      KeyAfter(steps, i, k, o, n - 1);
      AfterNext(EMPTY, steps, n - 1);
      KeyKept(After(EMPTY, steps, n - 1), steps[n - 1], o);
    }
  }

  // As long as what step i returned has been returned and copied more often than dropped, it stays the answer for its
  // key, through any other activity.
  lemma OverlappingMakesAgree(steps: seq<Step>, i: nat, k: Key, o: nat)
    requires CanRun(EMPTY, steps) && i < |steps| && steps[i] == DoMake(k) && o == Intern(After(EMPTY, steps, i), k).1
    requires Held(EMPTY, steps, |steps|, o) > 0
    ensures Intern(Run(EMPTY, steps), k).1 == o
  {
    RunIsAfter(EMPTY, steps);
    RunInv(EMPTY, steps);
    RefsAreHeld(EMPTY, steps, |steps|, o);
    AfterInv(EMPTY, steps, i);
    AfterNext(EMPTY, steps, i);
    MadeHasKey(After(EMPTY, steps, i), k);
    KeyAfter(steps, i, k, o, |steps|);
    LiveIsTheAnswer(Run(EMPTY, steps), o);
  }

  ghost predicate AllCounted(s: State) {
    forall k :: k in s.table ==> s.table[k].count > 0
  }

  lemma StepCounted(s: State, step: Step)
    requires Inv(s) && Enabled(s, step) && AllCounted(s) && !step.DoMakeThrows?
    ensures AllCounted(Apply(s, step))
  {
  }

  lemma {:induction false} RunCounted(s: State, steps: seq<Step>)
    requires Inv(s) && CanRun(s, steps) && AllCounted(s)
    requires forall step :: step in steps ==> !step.DoMakeThrows?
    ensures AllCounted(Run(s, steps))
    decreases |steps|
  {
    if steps != [] {
      assert steps[0] in steps;
      StepInv(s, steps[0]);
      StepCounted(s, steps[0]);
      RunCounted(Apply(s, steps[0]), steps[1..]);
    }
  }

  // Without allocation failures nothing is left behind: the table is empty exactly when every deleter has run.
  lemma TableDrains(steps: seq<Step>, s: State)
    requires CanRun(EMPTY, steps) && s == Run(EMPTY, steps)
    requires forall step :: step in steps ==> !step.DoMakeThrows?
    ensures s.table == map[] <==> forall o :: 0 <= o < |s.objects| ==> s.objects[o].deleted
  {
    RunInv(EMPTY, steps);
    RunCounted(EMPTY, steps);
    if forall o :: 0 <= o < |s.objects| ==> s.objects[o].deleted {
      forall k | k in s.table ensures false {
        NothingPending(s.objects, s.table[k].id);
      }
      assert s.table.Keys == {};
    } else {
      var o :| 0 <= o < |s.objects| && !s.objects[o].deleted;
      assert AtItsNode(s, s.objects[o]);
    }
  }

  lemma NothingPending(objects: seq<Object>, n: nat)
    requires forall o :: 0 <= o < |objects| ==> objects[o].deleted
    ensures Tally.Sum(objects, Pending(n)) == 0
  {
    Tally.Uniform(objects, Pending(n), 0);
  }

  // ---------------------------------------------------------------------------------------------- failed allocations

  ghost predicate Unused(s: State, k: Key) {
    k in s.table && s.table[k].count == 0
  }

  // The step makes an incarnation of k, even if only to destroy it again.
  predicate Creates(step: Step, k: Key) {
    step == DoMake(k) || step == DoMakeUnwinds(k)
  }

  // An object that is not deleted is counted at its node.
  lemma CountedAtItsNode(s: State, o: nat)
    requires Inv(s) && o < |s.objects| && !s.objects[o].deleted
    ensures AtItsNode(s, s.objects[o]) && !Unused(s, s.objects[o].key)
  {
    Tally.Member(s.objects, Pending(s.objects[o].node), o);
  }

  lemma UnusedAfterMake(s: State, l: Key, k: Key)
    requires Inv(s)
    ensures Unused(Intern(s, l).0, k) <==> Unused(s, k) && l != k
  {
    var t := Inserted(s, l);
    if l == k && Locked(t, k).Some? {
      CountedAtItsNode(s, Locked(t, k).value);
    }
  }

  lemma UnusedAfterDelete(s: State, o: nat, k: Key)
    requires Inv(s) && Enabled(s, RunDeleter(o))
    ensures Unused(Delete(s, o), k) <==> Unused(s, k)
  {
    CountedAtItsNode(s, o);
  }

  lemma UnusedAfterStep(s: State, step: Step, k: Key)
    requires Inv(s) && Enabled(s, step)
    ensures Unused(Apply(s, step), k) <==>
              (Unused(s, k) && !Creates(step, k)) || (step == DoMakeThrows(k) && k !in s.table)
  {
    match step
    case DoMake(l) => UnusedAfterMake(s, l, k);
    case RunDeleter(o) => UnusedAfterDelete(s, o, k);
    case _ =>
  }

  // Step i inserted a node for k and then failed to allocate, and there has been no incarnation of k since.
  ghost predicate ThrewLast(s: State, steps: seq<Step>, k: Key, i: nat)
    requires CanRun(s, steps)
  {
    && i < |steps| && steps[i] == DoMakeThrows(k) && k !in After(s, steps, i).table
    && forall j :: i < j < |steps| ==> !Creates(steps[j], k)
  }

  lemma {:induction false} UnusedAfterRun(s: State, steps: seq<Step>, k: Key)
    requires Inv(s) && CanRun(s, steps)
    ensures Unused(Run(s, steps), k) <==>
              || (Unused(s, k) && Never(steps, k))
              || exists i: nat :: ThrewLast(s, steps, k, i)
    decreases |steps|
  {
    if steps != [] {
      var t, rest := Apply(s, steps[0]), steps[1..];
      StepInv(s, steps[0]);
      UnusedAfterStep(s, steps[0], k);
      UnusedAfterRun(t, rest, k);
      NeverLater(steps, k);
      ThrewFirstOrLater(s, steps, k);
    }
  }

  ghost predicate Never(steps: seq<Step>, k: Key) {
    forall j :: 0 <= j < |steps| ==> !Creates(steps[j], k)
  }

  lemma NeverLater(steps: seq<Step>, k: Key)
    requires steps != []
    ensures Never(steps, k) <==> !Creates(steps[0], k) && Never(steps[1..], k)
    ensures (forall j :: 0 < j < |steps| ==> !Creates(steps[j], k)) <==> Never(steps[1..], k)
  {
    var rest := steps[1..];
    if Never(rest, k) {
      forall j | 0 < j < |steps| ensures !Creates(steps[j], k) {
        assert rest[j - 1] == steps[j];
      }
    }
  }

  lemma ThrewFirstOrLater(s: State, steps: seq<Step>, k: Key)
    requires CanRun(s, steps) && steps != []
    ensures (exists i: nat :: ThrewLast(s, steps, k, i)) <==>
              || ThrewLast(s, steps, k, 0)
              || exists i: nat :: ThrewLast(Apply(s, steps[0]), steps[1..], k, i)
  {
    if i: nat :| ThrewLast(s, steps, k, i) {
      if i > 0 {
        ThrewLater(s, steps, k, i - 1);
      }
    }
    if i: nat :| ThrewLast(Apply(s, steps[0]), steps[1..], k, i) {
      ThrewLater(s, steps, k, i);
    }
  }

  lemma ThrewLater(s: State, steps: seq<Step>, k: Key, i: nat)
    requires CanRun(s, steps) && steps != []
    ensures ThrewLast(Apply(s, steps[0]), steps[1..], k, i) <==> ThrewLast(s, steps, k, i + 1)
  {
    var rest := steps[1..];
    assert forall j :: 0 <= j < |rest| ==> rest[j] == steps[j + 1];
    if ThrewLast(Apply(s, steps[0]), rest, k, i) {
      forall j | i + 1 < j < |steps| ensures !Creates(steps[j], k) {
        assert rest[j - 1] == steps[j];
      }
    }
  }

  // An entry without incarnations is left by a failed allocation, and only by one.
  lemma LeftByThrows(steps: seq<Step>, s: State, k: Key)
    requires CanRun(EMPTY, steps) && s == Run(EMPTY, steps)
    ensures k in s.table && s.table[k].count == 0 <==> exists i: nat :: ThrewLast(EMPTY, steps, k, i)
  {
    UnusedAfterRun(EMPTY, steps, k);
  }

  // When every deleter has run these are the entries that remain.
  lemma TableDrainsTo(steps: seq<Step>, s: State, k: Key)
    requires CanRun(EMPTY, steps) && s == Run(EMPTY, steps)
    requires forall o :: 0 <= o < |s.objects| ==> s.objects[o].deleted
    ensures k in s.table <==> exists i: nat :: ThrewLast(EMPTY, steps, k, i)
  {
    RunInv(EMPTY, steps);
    LeftByThrows(steps, s, k);
    if k in s.table {
      NothingPending(s.objects, s.table[k].id);
    }
  }
}
