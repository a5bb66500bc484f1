/**
 `plaidml_map_buffer_current` with its `MapCompletion` (plaidml/plaidml.cc:365-482), running against the gate.

 Every rundown with a callback belongs to one map call; its callback is `MapCompletion::OnCancel`.  Three threads race:
 the caller, the continuation on the view's future, and whichever thread closes the gate.  Each `MapCompletion` is
 reference counted by the first two only, so the third must be stopped by the rundown in the destructor.
 */
module MapCompletions {
  import opened Gates
  import Tally

  // Failing: in OnException, before the mutex.  Firing: won the race, about to call the C callback.
  datatype MainPhase = Starting | Mapping | MainFailing | MainFiring | MainReleasing | MainDestroying | MainDone

  // Delivering: in OnComplete holding a new mapping, before the mutex.  Discarding: lost the race, frees the mapping.
  datatype FuturePhase =
    | Unattached | Attached | FutureFailing | FutureFiringNull | Delivering | FutureFiring | Discarding
    | FutureReleasing | FutureDestroying | FutureDone

  datatype CancelPhase = NoCancel | Cancelling | CancelFiring | CancelDone

  // `nulls` and `delivered` count invocations of the C callback without and with a mapping; `created` and `freed`
  // count mappings built and deleted by OnComplete.
  datatype Completion = Completion(
    main: MainPhase, future: FuturePhase, cancel: CancelPhase,
    refs: nat, invoked: bool, nulls: nat, delivered: nat, created: nat, freed: nat, destroyed: bool)

  // InvokeCallback's block under MapCompletion::mu_: the flag afterwards, and whether the caller won the race.
  function Claim(invoked: bool): (bool, bool) {
    (true, !invoked)
  }

  /** The flag that decides the race. */
  class MapCompletion {
    var invokedCallback: bool

    constructor ()
      ensures !invokedCallback
    {
      invokedCallback := false;
    }

    method ClaimCallback() returns (claimed: bool)
      modifies this
      ensures (invokedCallback, claimed) == Claim(old(invokedCallback))
    {
      if invokedCallback {
        return false;
      }
      invokedCallback := true;
      return true;
    }
  }

  const NEW_COMPLETION := Completion(Starting, Unattached, NoCancel, 1, false, 0, 0, 0, 0, false)

  datatype Action =
    | MapThrows | MapStarts | MainException | MainFire | MainRelease
    | FutureThrows | FutureReady | FutureException | FutureFireNull | Deliver | FutureFire | Discard | FutureRelease
    | CancelLock | CancelFire
    | FinishDestruction

  predicate Destroying(m: Completion) {
    m.main == MainDestroying || m.future == FutureDestroying
  }

  // FinishDestruction also needs the rundown to have left the gate; see `CanAct`.
  predicate Ready(m: Completion, a: Action) {
    match a
    case MapThrows => m.main == Mapping
    case MapStarts => m.main == Mapping
    case MainException => m.main == MainFailing
    case MainFire => m.main == MainFiring
    case MainRelease => m.main == MainReleasing && m.refs > 0
    case FutureThrows => m.future == Attached
    case FutureReady => m.future == Attached
    case FutureException => m.future == FutureFailing
    case FutureFireNull => m.future == FutureFiringNull
    case Deliver => m.future == Delivering
    case FutureFire => m.future == FutureFiring
    case Discard => m.future == Discarding
    case FutureRelease => m.future == FutureReleasing && m.refs > 0
    case CancelLock => m.cancel == Cancelling
    case CancelFire => m.cancel == CancelFiring
    case FinishDestruction => Destroying(m)
  }

  function Act(m: Completion, a: Action): Completion
    requires Ready(m, a)
  {
    var (invoked, claimed) := Claim(m.invoked);
    match a
    case MapThrows => m.(main := MainFailing)
    case MapStarts => m.(main := MainReleasing, future := Attached, refs := m.refs + 1)
    case MainException => m.(main := if claimed then MainFiring else MainReleasing, invoked := invoked)
    case MainFire => m.(main := MainReleasing, nulls := m.nulls + 1)
    case MainRelease => m.(main := if m.refs == 1 then MainDestroying else MainDone, refs := m.refs - 1)
    case FutureThrows => m.(future := FutureFailing)
    case FutureReady => m.(future := Delivering, created := m.created + 1)
    case FutureException => m.(future := if claimed then FutureFiringNull else FutureReleasing, invoked := invoked)
    case FutureFireNull => m.(future := FutureReleasing, nulls := m.nulls + 1)
    case Deliver => m.(future := if claimed then FutureFiring else Discarding, invoked := invoked)
    case FutureFire => m.(future := FutureReleasing, delivered := m.delivered + 1)
    case Discard => m.(future := FutureReleasing, freed := m.freed + 1)
    case FutureRelease => m.(future := if m.refs == 1 then FutureDestroying else FutureDone, refs := m.refs - 1)
    case CancelLock => m.(cancel := if claimed then CancelFiring else CancelDone, invoked := invoked)
    case CancelFire => m.(cancel := CancelDone, nulls := m.nulls + 1)
    case FinishDestruction =>
      m.(main := if m.main == MainDestroying then MainDone else m.main,
         future := if m.future == FutureDestroying then FutureDone else m.future, destroyed := true)
  }

  datatype Joint = Joint(sys: World, maps: seq<Completion>)

  datatype JointStep = GateStep(step: Step) | MapStep(r: nat, action: Action)

  predicate IsMap(j: Joint, r: nat) {
    r < |j.maps| && r < |j.sys.hasCallback| && j.sys.hasCallback[r]
  }

  // Which gate steps the map calls allow: enter once at the start, leave in the destructor, and a callback that
  // returns only after OnCancel has run.
  predicate Allowed(j: Joint, step: Step)
    requires Enabled(j.sys, step)
  {
    match step
    case Enter(r) => IsMap(j, r) ==> j.maps[r].main == Starting
    case RemoveLock(r) => IsMap(j, r) ==> Destroying(j.maps[r])
    case CallEnd(c) => IsMap(j, Handled(j.sys, c)) ==> j.maps[Handled(j.sys, c)].cancel == CancelDone
    case _ => true
  }

  predicate CanAct(j: Joint, r: nat, a: Action) {
    && IsMap(j, r) && Ready(j.maps[r], a) && r < |j.sys.rundowns|
    && (a.FinishDestruction? ==> j.sys.rundowns[r] in {Gone, Refused})
  }

  predicate CanStep(j: Joint, step: JointStep) {
    match step
    case GateStep(g) => Enabled(j.sys, g) && Allowed(j, g)
    case MapStep(r, a) => CanAct(j, r, a)
  }

  function GateEffect(j: Joint, step: Step): seq<Completion>
    requires Enabled(j.sys, step) && Allowed(j, step)
  {
    match step
    case Enter(r) =>
      if IsMap(j, r)
      then j.maps[r := j.maps[r].(main := if j.sys.gate.isOpen then Mapping else MainFailing)]
      else j.maps
    case CallStart(c) =>
      var r := Handled(j.sys, c);
      if IsMap(j, r) then j.maps[r := j.maps[r].(cancel := Cancelling)] else j.maps
    case _ => j.maps
  }

  function Next(j: Joint, step: JointStep): Joint
    requires CanStep(j, step)
  {
    match step
    case GateStep(g) => Joint(Apply(j.sys, g), GateEffect(j, g))
    case MapStep(r, a) => j.(maps := j.maps[r := Act(j.maps[r], a)])
  }

  predicate CanGo(j: Joint, steps: seq<JointStep>)
    decreases |steps|
  {
    steps == [] || (CanStep(j, steps[0]) && CanGo(Next(j, steps[0]), steps[1..]))
  }

  function Go(j: Joint, steps: seq<JointStep>): Joint
    requires CanGo(j, steps)
    decreases |steps|
  {
    if steps == [] then j else Go(Next(j, steps[0]), steps[1..])
  }

  predicate Begin(j: Joint) {
    && Initial(j.sys) && |j.maps| == |j.sys.rundowns|
    && forall r :: 0 <= r < |j.maps| ==> j.maps[r] == NEW_COMPLETION
  }

  // ---------------------------------------------------------------------------------------------- invariant

  function One(b: bool): nat { if b then 1 else 0 }

  predicate MainHolds(m: Completion) { m.main != MainDestroying && m.main != MainDone }

  predicate FutureHolds(m: Completion) { m.future !in {Unattached, FutureDestroying, FutureDone} }

  predicate Owning(m: Completion) { m.future in {Delivering, FutureFiring, Discarding} }

  // One completion next to its rundown's phase and the gate's record of its callback.
  predicate Sound(m: Completion, phase: RundownPhase, starts: nat, ends: nat) {
    && m.refs == One(MainHolds(m)) + One(FutureHolds(m))
    && One(m.main == MainDestroying) + One(m.future == FutureDestroying) + One(m.destroyed) == One(m.refs == 0)
    && m.nulls + m.delivered + One(m.main == MainFiring) + One(m.future in {FutureFiringNull, FutureFiring})
       + One(m.cancel == CancelFiring) == One(m.invoked)
    && m.created == One(Owning(m)) + m.delivered + m.freed
    && (m.created > 0 ==> m.future !in {Unattached, Attached, FutureFailing, FutureFiringNull})
    && (m.main == Starting <==> phase == Fresh)
    && (m.main == Mapping ==> phase == Entered)
    && (m.main in {Starting, Mapping, MainFailing, MainFiring} ==> m.future == Unattached)
    && (m.future == Unattached && m.main in {MainFiring, MainReleasing, MainDestroying, MainDone} ==> m.invoked)
    && (m.future in {FutureFiringNull, FutureFiring, Discarding, FutureReleasing, FutureDestroying, FutureDone} ==>
          m.invoked)
    && (m.future == FutureFiring ==> m.cancel != CancelFiring)
    && (phase in {Asleep, Awake, Signalling, Gone} ==> m.refs == 0)
    && (phase == Refused ==> m.future == Unattached && m.main != Mapping)
    && (m.destroyed ==> phase in {Gone, Refused})
    && (m.cancel == NoCancel <==> starts == 0)
    && (m.cancel in {Cancelling, CancelFiring} ==> starts == 1 && ends == 0)
    && (m.cancel in {CancelFiring, CancelDone} ==> m.invoked)
    && (ends > 0 ==> m.cancel == CancelDone)
    && (m.main in {Starting, Mapping, MainFailing} && m.invoked ==> starts > 0)
    && (m.future in {Attached, FutureFailing, Delivering} && m.invoked ==> starts > 0)
    && (m.future == Discarding || m.freed > 0 ==> starts > 0)
    && (m.future in {Unattached, FutureFailing, FutureFiringNull} ==> m.created == 0)
    && m.created <= 1
  }

  ghost predicate JointInv(j: Joint) {
    && Inv(j.sys) && |j.maps| == |j.sys.rundowns|
    && forall r :: 0 <= r < |j.maps| && j.sys.hasCallback[r] ==>
         Sound(j.maps[r], j.sys.rundowns[r], j.sys.starts[r], j.sys.ends[r])
  }

  lemma BeginInv(j: Joint)
    requires Begin(j)
    ensures JointInv(j)
  {
    InitialInv(j.sys);
  }

  // A rundown outside the gate has no callback in progress.
  lemma OutsideIsIdle(s: World, r: nat)
    requires Inv(s) && r < |s.rundowns| && !Inside(s.rundowns[r])
    ensures s.starts[r] == s.ends[r]
  {
    if s.gate.closeComplete {
      CompletedCalls(s, r);
    } else if !s.gate.isOpen {
      var c: nat :| WhileClosing(s, c);
    }
  }

  lemma MainActSound(m: Completion, a: Action, phase: RundownPhase, starts: nat, ends: nat)
    requires Sound(m, phase, starts, ends) && Ready(m, a)
    requires a in {MapThrows, MapStarts, MainException, MainFire, MainRelease}
    ensures Sound(Act(m, a), phase, starts, ends)
  {
  }

  lemma FutureActSound(m: Completion, a: Action, phase: RundownPhase, starts: nat, ends: nat)
    requires Sound(m, phase, starts, ends) && Ready(m, a)
    requires a in {FutureThrows, FutureReady, FutureException, FutureFireNull, Deliver, FutureFire, Discard,
                   FutureRelease}
    ensures Sound(Act(m, a), phase, starts, ends)
  {
  }

  lemma ActSound(m: Completion, a: Action, phase: RundownPhase, starts: nat, ends: nat)
    requires Sound(m, phase, starts, ends) && Ready(m, a)
    requires a.FinishDestruction? ==> phase in {Gone, Refused}
    ensures Sound(Act(m, a), phase, starts, ends)
  {
    if a in {MapThrows, MapStarts, MainException, MainFire, MainRelease} {
      MainActSound(m, a, phase, starts, ends);
    } else if a !in {CancelLock, CancelFire, FinishDestruction} {
      FutureActSound(m, a, phase, starts, ends);
    }
  }

  // No callback is started twice.
  lemma StartsFresh(s: World, c: nat)
    requires Inv(s) && Enabled(s, CallStart(c))
    ensures var h := Handled(s, c); h < |s.starts| && h < |s.ends| && s.starts[h] == s.ends[h] == 0
  {
    InTheLoop(s, c);
  }

  // How a gate step can change one completion and its rundown.
  predicate Seen(m: Completion, phase: RundownPhase, starts: nat, ends: nat,
                 n: Completion, phase': RundownPhase, starts': nat, ends': nat) {
    || (n == m && phase' == phase && starts' == starts && ends' == ends)
    || (phase == Fresh && m.main == Starting && phase' in {Entered, Refused} && starts' == starts && ends' == ends
        && n == m.(main := if phase' == Entered then Mapping else MainFailing))
    || (n == m && phase' in {Asleep, Awake, Signalling, Gone} && starts' == starts && ends' == ends
        && (phase in {Asleep, Awake, Signalling} || (phase == Entered && Destroying(m))))
    || (n == m.(cancel := Cancelling) && phase' == phase && starts == ends == ends' == 0 && starts' == 1)
    || (n == m && phase' == phase && starts' == starts && m.cancel == CancelDone)
  }

  lemma SeenSound(m: Completion, phase: RundownPhase, starts: nat, ends: nat,
                  n: Completion, phase': RundownPhase, starts': nat, ends': nat)
    requires Sound(m, phase, starts, ends) && Seen(m, phase, starts, ends, n, phase', starts', ends')
    ensures Sound(n, phase', starts', ends')
  {
  }

  // What a gate step does to the completion of rundown r, by the kind of step.
  lemma EffectOn(j: Joint, step: Step, r: nat)
    requires Enabled(j.sys, step) && Allowed(j, step) && IsMap(j, r)
    ensures var n := GateEffect(j, step);
            && |n| == |j.maps|
            && n[r] == if step == Enter(r) then j.maps[r].(main := if j.sys.gate.isOpen then Mapping else MainFailing)
                       else if step.CallStart? && Handled(j.sys, step.c) == r then j.maps[r].(cancel := Cancelling)
                       else j.maps[r]
  {
  }

  lemma GateStepTouches(s: World, step: Step, r: nat)
    requires Inv(s) && Enabled(s, step) && r < |s.rundowns|
    ensures var t := Apply(s, step);
            && |t.rundowns| == |s.rundowns| && t.hasCallback == s.hasCallback
            && |t.starts| == |s.starts| && |t.ends| == |s.ends|
            && PhaseTouched(s, step, r, t.rundowns[r])
            && t.starts[r] == s.starts[r] + (if step.CallStart? && Handled(s, step.c) == r then 1 else 0)
            && (t.ends[r] != s.ends[r] ==> step.CallEnd? && Handled(s, step.c) == r)
            && (step.CallStart? && Handled(s, step.c) == r ==> s.starts[r] == s.ends[r] == 0)
  {
    if step in {RemoveLock(r), RemoveWake(r)} && !s.gate.isOpen {
      StillCounted(s, r);
    }
    if step.CallStart? {
      StartsFresh(s, step.c);
    }
    StepTouches(s, step, r);
  }

  lemma GateStepSeen(j: Joint, step: Step, r: nat)
    requires JointInv(j) && CanStep(j, GateStep(step)) && IsMap(j, r)
    ensures var t := Apply(j.sys, step);
            && |t.rundowns| == |t.starts| == |t.ends| == |j.maps| == |GateEffect(j, step)|
            && Seen(j.maps[r], j.sys.rundowns[r], j.sys.starts[r], j.sys.ends[r],
                    GateEffect(j, step)[r], t.rundowns[r], t.starts[r], t.ends[r])
  {
    EffectOn(j, step, r);
    GateStepTouches(j.sys, step, r);
  }

  lemma GateStepInv(j: Joint, step: Step)
    requires JointInv(j) && CanStep(j, GateStep(step))
    ensures JointInv(Next(j, GateStep(step)))
  {
    var k := Next(j, GateStep(step));
    StepInv(j.sys, step);
    GateStepSize(j, step);
    forall r | 0 <= r < |k.maps| && k.sys.hasCallback[r]
      ensures Sound(k.maps[r], k.sys.rundowns[r], k.sys.starts[r], k.sys.ends[r])
    {
      GateStepSeen(j, step, r);
      SeenSound(j.maps[r], j.sys.rundowns[r], j.sys.starts[r], j.sys.ends[r],
                k.maps[r], k.sys.rundowns[r], k.sys.starts[r], k.sys.ends[r]);
    }
  }

  lemma GateStepSize(j: Joint, step: Step)
    requires JointInv(j) && CanStep(j, GateStep(step))
    ensures var k := Next(j, GateStep(step));
            && |k.maps| == |j.maps| == |k.sys.rundowns| && k.sys.hasCallback == j.sys.hasCallback
            && |k.sys.starts| == |k.sys.ends| == |k.maps|
  {
    if |j.maps| > 0 {
      GateStepTouches(j.sys, step, 0);
    }
  }

  lemma JointStepInv(j: Joint, step: JointStep)
    requires JointInv(j) && CanStep(j, step)
    ensures JointInv(Next(j, step))
  {
    if step.GateStep? {
      GateStepInv(j, step.step);
    } else {
      var r := step.r;
      ActSound(j.maps[r], step.action, j.sys.rundowns[r], j.sys.starts[r], j.sys.ends[r]);
    }
  }

  lemma {:induction false} JointRunInv(j: Joint, steps: seq<JointStep>)
    requires JointInv(j) && CanGo(j, steps)
    ensures JointInv(Go(j, steps))
    decreases |steps|
  {
    if steps != [] {
      JointStepInv(j, steps[0]);
      JointRunInv(Next(j, steps[0]), steps[1..]);
    }
  }

  // ---------------------------------------------------------------------------------------------- results

  // What holds of each completion in every reachable state, seen from outside.
  predicate Outcome(m: Completion, phase: RundownPhase) {
    && m.nulls + m.delivered <= 1
    && (m.destroyed ==> m.nulls + m.delivered == 1)
    && m.delivered + m.freed <= m.created <= 1
    && (m.destroyed ==> m.delivered + m.freed == m.created)
    && (m.cancel in {Cancelling, CancelFiring} ==> !m.destroyed)
    && (m.destroyed ==> phase in {Gone, Refused})
  }

  lemma SoundOutcome(m: Completion, phase: RundownPhase, starts: nat, ends: nat)
    requires Sound(m, phase, starts, ends)
    requires m.destroyed ==> starts == ends
    ensures Outcome(m, phase)
  {
  }

  lemma Reachable(j: Joint, steps: seq<JointStep>)
    requires Begin(j) && CanGo(j, steps)
    ensures JointInv(Go(j, steps))
  {
    BeginInv(j);
    JointRunInv(j, steps);
  }

  // What becomes of a mapping: it is freed only after the gate had begun the callback of this call, which then took
  // the race; in any other case the C callback gets it.
  predicate MappingKept(m: Completion, starts: nat) {
    && (m.freed > 0 ==> starts == 1 && m.delivered == 0)
    && (m.destroyed && m.created == 1 && m.freed == 0 ==> m.delivered == 1 && m.nulls == 0)
    && (m.destroyed && m.created == 0 ==> m.delivered == 0 && m.nulls == 1)
    && (m.delivered > 0 ==> m.created == 1 && m.nulls == 0 && m.freed == 0)
  }

  lemma MappingIsDelivered(j: Joint, steps: seq<JointStep>, k: Joint, r: nat)
    requires Begin(j) && CanGo(j, steps) && k == Go(j, steps) && IsMap(j, r)
    ensures IsMap(k, r) && r < |k.sys.starts| && MappingKept(k.maps[r], k.sys.starts[r])
  {
    Reachable(j, steps);
    CallbacksKept(j, steps);
    MapOutcome(k, r);
    StartsAtMostOnce(k.sys, r);
    assert Sound(k.maps[r], k.sys.rundowns[r], k.sys.starts[r], k.sys.ends[r]);
  }

  lemma StartsAtMostOnce(s: World, r: nat)
    requires Inv(s) && r < |s.rundowns|
    ensures s.starts[r] <= 1 && (s.gate.isOpen ==> s.starts[r] == 0)
  {
    if !s.gate.isOpen {
      CallsAfterClosing(s, r);
    }
  }

  function Readies(r: nat): JointStep -> nat {
    (step: JointStep) => if step == MapStep(r, FutureReady) then 1 else 0
  }

  // A mapping is created each time the device makes the view ready.
  lemma {:induction false} CreatedWhenReady(j: Joint, steps: seq<JointStep>, r: nat)
    requires CanGo(j, steps) && r < |j.maps|
    ensures r < |Go(j, steps).maps|
    ensures Go(j, steps).maps[r].created == j.maps[r].created + Tally.Sum(steps, Readies(r))
    decreases |steps|
  {
    if steps != [] {
      CreatedWhenReady(Next(j, steps[0]), steps[1..], r);
    }
  }

  // While the gate is open nothing is discarded: a call hands over the view when it has become ready, and otherwise
  // calls back without one.
  lemma OpenGateDelivers(j: Joint, steps: seq<JointStep>, k: Joint, r: nat)
    requires Begin(j) && CanGo(j, steps) && k == Go(j, steps) && IsMap(j, r) && k.sys.gate.isOpen
    ensures IsMap(k, r) && k.maps[r].freed == 0
    ensures var ready := Tally.Sum(steps, Readies(r));
            ready <= 1 && (k.maps[r].destroyed ==> k.maps[r].delivered == ready && k.maps[r].nulls == 1 - ready)
  {
    CreatedWhenReady(j, steps, r);
    MappingIsDelivered(j, steps, k, r);
    Reachable(j, steps);
    StartsAtMostOnce(k.sys, r);
    MapOutcome(k, r);
  }

  // For every interleaving of completion, failure, refusal and cancellation.
  lemma CallbackFiresOnce(j: Joint, steps: seq<JointStep>, k: Joint, r: nat)
    requires Begin(j) && CanGo(j, steps) && k == Go(j, steps) && IsMap(j, r)
    ensures IsMap(k, r) && r < |k.sys.rundowns| && Outcome(k.maps[r], k.sys.rundowns[r])
  {
    Reachable(j, steps);
    CallbacksKept(j, steps);
    MapOutcome(k, r);
  }

  lemma MapOutcome(k: Joint, r: nat)
    requires JointInv(k) && IsMap(k, r)
    ensures Outcome(k.maps[r], k.sys.rundowns[r])
  {
    var m := k.maps[r];
    assert Sound(m, k.sys.rundowns[r], k.sys.starts[r], k.sys.ends[r]);
    if m.destroyed {
      OutsideIsIdle(k.sys, r);
    }
    SoundOutcome(m, k.sys.rundowns[r], k.sys.starts[r], k.sys.ends[r]);
  }

  lemma {:induction false} CallbacksKept(j: Joint, steps: seq<JointStep>)
    requires CanGo(j, steps)
    ensures Go(j, steps).sys.hasCallback == j.sys.hasCallback && |Go(j, steps).maps| == |j.maps|
    decreases |steps|
  {
    if steps != [] {
      CallbacksKept(Next(j, steps[0]), steps[1..]);
    }
  }

  function MapWork(m: Completion): nat {
    var main := match m.main
      case Starting => 6
      case Mapping => 5
      case MainFailing => 4
      case MainFiring => 3
      case MainReleasing => 2
      case MainDestroying => 1
      case MainDone => 0;
    var future := match m.future
      case Unattached => 6
      case Attached => 5
      case FutureFailing => 4
      case Delivering => 4
      case FutureFiringNull => 3
      case FutureFiring => 3
      case Discarding => 3
      case FutureReleasing => 2
      case FutureDestroying => 1
      case FutureDone => 0;
    var cancel := match m.cancel
      case NoCancel => 3
      case Cancelling => 2
      case CancelFiring => 1
      case CancelDone => 0;
    main + future + cancel
  }

  function JointWork(j: Joint): nat {
    Work(j.sys) + Tally.Sum(j.maps, MapWork)
  }

  lemma ActWork(m: Completion, a: Action, phase: RundownPhase, starts: nat, ends: nat)
    requires Sound(m, phase, starts, ends) && Ready(m, a)
    ensures MapWork(Act(m, a)) < MapWork(m)
  {
  }

  lemma EnterEffectWork(j: Joint, r: nat)
    requires CanStep(j, GateStep(Enter(r))) && IsMap(j, r)
    ensures Tally.Sum(GateEffect(j, Enter(r)), MapWork) <= Tally.Sum(j.maps, MapWork)
  {
    Tally.Update(j.maps, MapWork, r, GateEffect(j, Enter(r))[r]);
  }

  lemma StartEffectWork(j: Joint, c: nat)
    requires JointInv(j) && CanStep(j, GateStep(CallStart(c))) && IsMap(j, Handled(j.sys, c))
    ensures Tally.Sum(GateEffect(j, CallStart(c)), MapWork) <= Tally.Sum(j.maps, MapWork)
  {
    var r := Handled(j.sys, c);
    StartsFresh(j.sys, c);
    assert Sound(j.maps[r], j.sys.rundowns[r], 0, 0);
    Tally.Update(j.maps, MapWork, r, j.maps[r].(cancel := Cancelling));
  }

  lemma GateEffectWork(j: Joint, step: Step)
    requires JointInv(j) && CanStep(j, GateStep(step))
    ensures Tally.Sum(GateEffect(j, step), MapWork) <= Tally.Sum(j.maps, MapWork)
  {
    if step.Enter? && IsMap(j, step.r) {
      EnterEffectWork(j, step.r);
    } else if step.CallStart? && IsMap(j, Handled(j.sys, step.c)) {
      StartEffectWork(j, step.c);
    }
  }

  function SpuriousStep(step: JointStep): nat { if step.GateStep? then Spurious(step.step) else 0 }

  lemma JointStepWork(j: Joint, step: JointStep)
    requires JointInv(j) && CanStep(j, step)
    ensures JointWork(Next(j, step)) < JointWork(j) + 2 * SpuriousStep(step)
  {
    match step
    case MapStep(r, a) =>
      ActWork(j.maps[r], a, j.sys.rundowns[r], j.sys.starts[r], j.sys.ends[r]);
      Tally.Update(j.maps, MapWork, r, Act(j.maps[r], a));
    case GateStep(g) =>
      StepWork(j.sys, g);
      GateEffectWork(j, g);
  }

  lemma {:induction false} JointRunsAreFinite(j: Joint, steps: seq<JointStep>)
    requires JointInv(j) && CanGo(j, steps)
    ensures |steps| + JointWork(Go(j, steps)) <= JointWork(j) + 2 * Tally.Sum(steps, SpuriousStep)
    decreases |steps|
  {
    if steps != [] {
      JointStepWork(j, steps[0]);
      JointStepInv(j, steps[0]);
      JointRunsAreFinite(Next(j, steps[0]), steps[1..]);
    }
  }

  // Steps that the program owes: everything but a client starting a call, closing the gate, or dropping some other
  // rundown, and spurious wake-ups.
  predicate Owed(j: Joint, step: JointStep) {
    match step
    case MapStep(_, _) => true
    case GateStep(Enter(_)) => false
    case GateStep(CloseLock(_)) => false
    case GateStep(SpuriousWake(_)) => false
    case GateStep(RemoveLock(r)) => IsMap(j, r)
    case GateStep(_) => true
  }

  // The device resolves the future of the view, with a view or an exception.
  predicate FromDevice(step: JointStep) {
    step.MapStep? && (step.action.FutureReady? || step.action.FutureThrows?)
  }

  // The program's own threads are all waiting, perhaps for the device.
  ghost predicate AtRest(j: Joint) {
    forall step :: Owed(j, step) && !FromDevice(step) ==> !CanStep(j, step)
  }

  // And the device owes nothing either.
  ghost predicate Settled(j: Joint) {
    forall step :: Owed(j, step) ==> !CanStep(j, step)
  }

  // OnCancel of the callback in progress can go on, and once it is done so can the loop.
  lemma CallbackGoesOn(j: Joint, c: nat)
    requires JointInv(j) && Enabled(j.sys, CallEnd(c))
    ensures !AtRest(j)
  {
    var s := j.sys;
    InTheLoop(s, c);
    var h := Handled(s, c);
    assert s.starts[h] == 1 && s.ends[h] == 0;
    if IsMap(j, h) && j.maps[h].cancel != CancelDone {
      var step := MapStep(h, if j.maps[h].cancel == Cancelling then CancelLock else CancelFire);
      assert Owed(j, step) && CanStep(j, step);
    } else {
      assert CanStep(j, GateStep(CallEnd(c)));
    }
  }

  // A blocked destructor always has somebody else to wait for, and never the device.
  lemma CloseGoesOn(j: Joint, c: nat)
    requires JointInv(j) && c < |j.sys.closers| && j.sys.closers[c].Calling?
    ensures !AtRest(j)
  {
    LoopGoesOn(j.sys, c);
    if Enabled(j.sys, CallEnd(c)) {
      CallbackGoesOn(j, c);
    } else {
      var step := if Enabled(j.sys, CallStart(c)) then CallStart(c)
                  else if Enabled(j.sys, CallSkip(c)) then CallSkip(c) else CloseUnlock(c);
      assert Owed(j, GateStep(step)) && CanStep(j, GateStep(step));
    }
  }

  lemma RestIsQuiescent(j: Joint)
    requires JointInv(j) && AtRest(j)
    ensures Quiescent(j.sys)
  {
    forall step | Internal(step) ensures !Enabled(j.sys, step) {
      if Enabled(j.sys, step) {
        if step.CallEnd? {
          CloseGoesOn(j, step.c);
        } else {
          assert Owed(j, GateStep(step)) && CanStep(j, GateStep(step));
        }
        assert false;
      }
    }
  }

  // A completion whose threads have nothing to do but to wait for the device or the gate.
  predicate Parked(m: Completion) {
    && m.main in {Starting, MainDestroying, MainDone}
    && m.future in {Unattached, Attached, FutureDestroying, FutureDone}
    && m.cancel in {NoCancel, CancelDone}
  }

  // The action a completion owes next, if it is not parked.
  function Due(m: Completion): (a: Action)
    requires !Parked(m) && (m.main == MainReleasing || m.future == FutureReleasing ==> m.refs > 0)
    ensures Ready(m, a) && a !in {FutureReady, FutureThrows, FinishDestruction}
  {
    match m.main
    case Mapping => MapStarts
    case MainFailing => MainException
    case MainFiring => MainFire
    case MainReleasing => MainRelease
    case _ =>
      match m.future
      case FutureFailing => FutureException
      case FutureFiringNull => FutureFireNull
      case Delivering => Deliver
      case FutureFiring => FutureFire
      case Discarding => Discard
      case FutureReleasing => FutureRelease
      case _ => if m.cancel == Cancelling then CancelLock else CancelFire
  }

  lemma RestIsParked(j: Joint, r: nat)
    requires JointInv(j) && AtRest(j) && IsMap(j, r)
    ensures Parked(j.maps[r])
  {
    var m := j.maps[r];
    assert Sound(m, j.sys.rundowns[r], j.sys.starts[r], j.sys.ends[r]);
    if !Parked(m) {
      var step := MapStep(r, Due(m));
      assert Owed(j, step) && CanStep(j, step);
      assert false;
    }
  }

  // Cancellation alone is enough: once the gate is closed and the program's threads have done what they can, every map
  // call that began has been answered, whether or not the device ever resolves its future.
  lemma EveryCallIsAnswered(j: Joint, r: nat)
    requires JointInv(j) && AtRest(j) && !j.sys.gate.isOpen && IsMap(j, r)
    ensures var m := j.maps[r]; m.main == Starting || m.nulls + m.delivered == 1
  {
    var m, phase := j.maps[r], j.sys.rundowns[r];
    RestIsQuiescent(j);
    QuiescentIsDone(j.sys);
    RestIsParked(j, r);
    assert Sound(m, phase, j.sys.starts[r], j.sys.ends[r]);
    if phase == Entered {
      CallsAfterClosing(j.sys, r);
      assert j.sys.ends[r] == 1;
    }
  }

  // A parked completion whose future is resolved waits for the gate, if for anything.
  lemma WaitingOnTheGate(j: Joint, r: nat)
    requires JointInv(j) && IsMap(j, r) && Settled(j)
    requires j.maps[r].main != Starting && !j.maps[r].destroyed
    ensures Destroying(j.maps[r]) && j.sys.rundowns[r] == Entered
  {
    var m := j.maps[r];
    RestIsQuiescent(j);
    QuiescentIsDone(j.sys);
    RestIsParked(j, r);
    assert !CanStep(j, MapStep(r, FutureReady)) && !CanStep(j, MapStep(r, FinishDestruction)) by {
      assert Owed(j, MapStep(r, FutureReady)) && Owed(j, MapStep(r, FinishDestruction));
    }
    assert Sound(m, j.sys.rundowns[r], j.sys.starts[r], j.sys.ends[r]);
  }

  // If the device resolves every future, then every map call that began fires its callback exactly once and frees its
  // completion: a state in which neither the program nor the device has anything left to do shows it.
  lemma EveryCallCompletes(j: Joint, r: nat)
    requires JointInv(j) && Settled(j) && IsMap(j, r)
    ensures var m := j.maps[r];
            m.main == Starting || (m.destroyed && m.nulls + m.delivered == 1 && m.created == m.delivered + m.freed)
  {
    if j.maps[r].main != Starting && !j.maps[r].destroyed {
      WaitingOnTheGate(j, r);
      assert Owed(j, GateStep(RemoveLock(r))) && CanStep(j, GateStep(RemoveLock(r)));
      assert false;
    }
    MapOutcome(j, r);
  }

  // Then the gate is finalized, once it is closed and the rundowns of other clients are gone.
  lemma FinalizedAfterTheCalls(j: Joint)
    requires JointInv(j) && Settled(j)
    ensures j.sys.promise == 1 <==>
              !j.sys.gate.isOpen
              && forall r :: 0 <= r < |j.sys.rundowns| && !j.sys.hasCallback[r] ==> j.sys.rundowns[r] != Entered
  {
    var s := j.sys;
    RestIsQuiescent(j);
    FinalizedInTheEnd(s);
    forall r | 0 <= r < |s.rundowns| && s.hasCallback[r] ensures s.rundowns[r] != Entered {
      EveryCallCompletes(j, r);
      assert Sound(j.maps[r], s.rundowns[r], s.starts[r], s.ends[r]);
    }
  }
}
