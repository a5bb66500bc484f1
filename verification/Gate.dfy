/**
 The cancellation gate of base/context/gate.cc.

 `GateState` is what `Gate::mu_` protects; each function on it is one block that runs with the mutex held, and the
 class `Gate` performs the same blocks in place.  `World` adds the threads: every rundown runs `TryEnterGate` and
 later its destructor, every closer runs `Close`, and all of them interleave between the mutex-delimited blocks.
 */
module Gates {
  import Tally

  // A node of `rundowns_`: the iterator that names it, and whether it holds a non-empty callback.
  datatype Entry = Entry(handle: nat, callback: bool)

  datatype GateState = GateState(isOpen: bool, rundowns: seq<Entry>, remaining: nat, closeComplete: bool)

  datatype Removal = Erased | Blocked | Released(last: bool) | OverDereferenced

  const INITIAL_GATE := GateState(true, [], 0, false)

  function AddRundown(g: GateState, e: Entry): GateState
    requires g.isOpen
  {
    g.(rundowns := g.rundowns + [e])
  }

  function BeginClose(g: GateState): GateState
    requires g.isOpen
  {
    GateState(false, [], |g.rundowns|, g.closeComplete)
  }

  function EndClose(g: GateState): GateState {
    g.(closeComplete := true)
  }

  function Without(entries: seq<Entry>, handle: nat): (rest: seq<Entry>)
    ensures forall e :: e in rest <==> e in entries && e.handle != handle
  {
    if entries == [] then []
    else if entries[0].handle == handle then Without(entries[1..], handle)
    else [entries[0]] + Without(entries[1..], handle)
  }

  function Remove(g: GateState, handle: nat): (GateState, Removal) {
    if g.isOpen then (g.(rundowns := Without(g.rundowns, handle)), Erased)
    else if !g.closeComplete then (g, Blocked)
    else if g.remaining == 0 then (g, OverDereferenced)
    else (g.(remaining := g.remaining - 1), Released(g.remaining == 1))
  }

  // boost::promise::set_value after `calls` earlier calls; false means that it throws, which ends the process since
  // its callers are noexcept.
  function SetValue(calls: nat): (nat, bool) {
    (calls + 1, calls == 0)
  }

  ghost predicate Distinct(entries: seq<Entry>) {
    forall i, j :: 0 <= i < j < |entries| ==> entries[i].handle != entries[j].handle
  }

  lemma {:induction false} WithoutDistinct(entries: seq<Entry>, handle: nat)
    requires Distinct(entries)
    ensures Distinct(Without(entries, handle))
  {
    if entries != [] {
      var rest := entries[1..];
      WithoutDistinct(rest, handle);
      var kept := Without(rest, handle);
      forall k | 0 <= k < |kept| ensures kept[k].handle != entries[0].handle {
        assert kept[k] in rest;
      }
    }
  }

  lemma {:induction false} WithoutLength(entries: seq<Entry>, handle: nat)
    requires Distinct(entries)
    ensures |Without(entries, handle)| ==
            if exists i :: 0 <= i < |entries| && entries[i].handle == handle then |entries| - 1 else |entries|
  {
    if entries != [] {
      var rest := entries[1..];
      assert forall i :: 0 <= i < |rest| ==> rest[i] == entries[i + 1];
      WithoutLength(rest, handle);
      if entries[0].handle != handle {
        if i :| 0 <= i < |entries| && entries[i].handle == handle {
          assert rest[i - 1].handle == handle;
        }
      }
    }
  }

  /** The gate itself: each method is one critical section of gate.cc, or one use of the promise. */
  class Gate {
    var isOpen: bool
    var rundowns: seq<Entry>
    var remaining: nat
    var closeComplete: bool
    var setCalls: nat

    function State(): GateState
      reads this
    {
      GateState(isOpen, rundowns, remaining, closeComplete)
    }

    constructor ()
      ensures State() == INITIAL_GATE && setCalls == 0
    {
      isOpen, rundowns, remaining, closeComplete, setCalls := true, [], 0, false, 0;
    }

    // False means that error::Cancelled is thrown.
    method TryAddRundown(e: Entry) returns (entered: bool)
      modifies this`rundowns
      ensures entered == old(isOpen)
      ensures State() == if entered then AddRundown(old(State()), e) else old(State())
    {
      if !isOpen {
        return false;
      }
      rundowns := rundowns + [e];
      return true;
    }

    // The first block of Close; only the first closer gets a snapshot of callbacks to run.
    method LockForClose() returns (first: bool, snapshot: seq<Entry>)
      modifies this`isOpen, this`rundowns, this`remaining
      ensures first == old(isOpen)
      ensures first ==> snapshot == old(rundowns) && State() == BeginClose(old(State()))
      ensures !first ==> snapshot == [] && State() == old(State())
    {
      if !isOpen {
        return false, [];
      }
      isOpen := false;
      snapshot := [];
      snapshot, rundowns := rundowns, snapshot;
      remaining := |snapshot|;
      first := true;
    }

    // The second block of Close, after the callbacks.
    method CompleteClose() returns (done: bool)
      modifies this`closeComplete
      ensures State() == EndClose(old(State()))
      ensures done == (remaining == 0)
    {
      done := remaining == 0;
      closeComplete := true;
    }

    // One pass through RemoveRundown's block; Blocked means that the thread is in cv_.wait.
    method RemoveRundown(handle: nat) returns (outcome: Removal)
      modifies this`rundowns, this`remaining
      ensures (State(), outcome) == Remove(old(State()), handle)
    {
      if isOpen {
        rundowns := Without(rundowns, handle);
        return Erased;
      }
      if !closeComplete {
        return Blocked;
      }
      if remaining == 0 {
        return OverDereferenced;
      }
      remaining := remaining - 1;
      return Released(remaining == 0);
    }

    method Finalize() returns (ok: bool)
      modifies this`setCalls
      ensures (setCalls, ok) == SetValue(old(setCalls))
    {
      ok := setCalls == 0;
      setCalls := setCalls + 1;
    }
  }

  // ---------------------------------------------------------------------------------------------- threads

  // A rundown's life.  Asleep is blocked in cv_.wait; Awake has been notified, or woke up spuriously, and must take the
  // mutex and test close_complete_ again; Signalling is after the mutex, about to set the promise.
  datatype RundownPhase = Fresh | Refused | Entered | Asleep | Awake | Signalling | Gone

  // A closer's life.  In Calling, `pending` is what the loop has left; with `running`, pending[0] is being called.
  // Notifying is between the second block and cv_.notify_all, with what that block found.
  datatype CloserPhase =
    | Idle | Calling(pending: seq<Entry>, running: bool) | Notifying(done: bool) | Finalizing | Returned

  // `snapshot`, `called`, `starts` and `ends` are history: the callbacks taken by Close, how many loop iterations are
  // over, and how often each rundown's callback has been entered and left.  `promise` counts set_value calls, and
  // `fatal` records LOG(FATAL) or a second set_value.
  datatype World = World(
    gate: GateState,
    rundowns: seq<RundownPhase>,
    hasCallback: seq<bool>,
    closers: seq<CloserPhase>,
    snapshot: seq<Entry>,
    called: nat,
    starts: seq<nat>,
    ends: seq<nat>,
    promise: nat,
    fatal: bool)

  datatype Step =
    | Enter(r: nat)
    | RemoveLock(r: nat)
    | SpuriousWake(r: nat)
    | RemoveWake(r: nat)
    | RemoveSignal(r: nat)
    | CloseLock(c: nat)
    | CallSkip(c: nat)
    | CallStart(c: nat)
    | CallEnd(c: nat)
    | CloseUnlock(c: nat)
    | CloseNotify(c: nat)
    | CloseSignal(c: nat)

  // Steps the program takes by itself once started; the others are a client entering, leaving or closing, and the
  // spurious wake-ups that nobody can count on.
  predicate Internal(step: Step) {
    !step.Enter? && !step.RemoveLock? && !step.CloseLock? && !step.SpuriousWake?
  }

  predicate Enabled(s: World, step: Step) {
    match step
    case Enter(r) => r < |s.rundowns| && r < |s.hasCallback| && s.rundowns[r] == Fresh
    case RemoveLock(r) => r < |s.rundowns| && s.rundowns[r] == Entered
    case SpuriousWake(r) => r < |s.rundowns| && s.rundowns[r] == Asleep
    case RemoveWake(r) => r < |s.rundowns| && s.rundowns[r] == Awake
    case RemoveSignal(r) => r < |s.rundowns| && s.rundowns[r] == Signalling
    case CloseLock(c) => c < |s.closers| && s.closers[c] == Idle
    case CallSkip(c) => InLoop(s, c) && !s.closers[c].pending[0].callback
    case CallStart(c) => InLoop(s, c) && s.closers[c].pending[0].callback && Handled(s, c) < |s.starts|
    case CallEnd(c) =>
      && c < |s.closers| && s.closers[c].Calling? && s.closers[c].running && s.closers[c].pending != []
      && Handled(s, c) < |s.ends|
    case CloseUnlock(c) => c < |s.closers| && s.closers[c] == Calling([], false)
    case CloseNotify(c) => c < |s.closers| && s.closers[c].Notifying?
    case CloseSignal(c) => c < |s.closers| && s.closers[c] == Finalizing
  }

  predicate InLoop(s: World, c: nat) {
    c < |s.closers| && s.closers[c].Calling? && !s.closers[c].running && s.closers[c].pending != []
  }

  function Handled(s: World, c: nat): nat
    requires c < |s.closers| && s.closers[c].Calling? && s.closers[c].pending != []
  {
    s.closers[c].pending[0].handle
  }

  function SetPromise(s: World): World {
    var (calls, ok) := SetValue(s.promise);
    s.(promise := calls, fatal := s.fatal || !ok)
  }

  // cv_.notify_all: a thread that is not in cv_.wait hears nothing.
  function NotifyAll(rundowns: seq<RundownPhase>): (woken: seq<RundownPhase>)
    ensures |woken| == |rundowns|
    ensures forall r :: 0 <= r < |woken| ==> woken[r] == if rundowns[r] == Asleep then Awake else rundowns[r]
  {
    seq(|rundowns|, r requires 0 <= r < |rundowns| => if rundowns[r] == Asleep then Awake else rundowns[r])
  }

  function Leave(s: World, r: nat): World
    requires r < |s.rundowns|
  {
    var (gate, outcome) := Remove(s.gate, r);
    match outcome
    case Erased => s.(gate := gate, rundowns := s.rundowns[r := Gone])
    case Blocked => s.(rundowns := s.rundowns[r := Asleep])
    case Released(last) => s.(gate := gate, rundowns := s.rundowns[r := if last then Signalling else Gone])
    case OverDereferenced => s.(fatal := true)
  }

  function Apply(s: World, step: Step): World
    requires Enabled(s, step)
  {
    match step
    case Enter(r) =>
      if s.gate.isOpen
      then s.(gate := AddRundown(s.gate, Entry(r, s.hasCallback[r])), rundowns := s.rundowns[r := Entered])
      else s.(rundowns := s.rundowns[r := Refused])
    case RemoveLock(r) => Leave(s, r)
    case SpuriousWake(r) => s.(rundowns := s.rundowns[r := Awake])
    case RemoveWake(r) => Leave(s, r)
    case RemoveSignal(r) => SetPromise(s.(rundowns := s.rundowns[r := Gone]))
    case CloseLock(c) =>
      if s.gate.isOpen
      then s.(gate := BeginClose(s.gate), snapshot := s.gate.rundowns,
              closers := s.closers[c := Calling(s.gate.rundowns, false)])
      else s.(closers := s.closers[c := Returned])
    case CallSkip(c) => s.(closers := s.closers[c := Calling(s.closers[c].pending[1..], false)], called := s.called + 1)
    case CallStart(c) =>
      var h := Handled(s, c);
      s.(closers := s.closers[c := s.closers[c].(running := true)], starts := s.starts[h := s.starts[h] + 1])
    case CallEnd(c) =>
      var h := Handled(s, c);
      s.(closers := s.closers[c := Calling(s.closers[c].pending[1..], false)], called := s.called + 1,
         ends := s.ends[h := s.ends[h] + 1])
    case CloseUnlock(c) =>
      s.(gate := EndClose(s.gate), closers := s.closers[c := Notifying(s.gate.remaining == 0)])
    case CloseNotify(c) =>
      s.(rundowns := NotifyAll(s.rundowns),
         closers := s.closers[c := if s.closers[c].done then Finalizing else Returned])
    case CloseSignal(c) => SetPromise(s.(closers := s.closers[c := Returned]))
  }

  predicate Initial(s: World) {
    && s.gate == INITIAL_GATE
    && |s.rundowns| == |s.hasCallback| == |s.starts| == |s.ends|
    && (forall r :: 0 <= r < |s.rundowns| ==> s.rundowns[r] == Fresh && s.starts[r] == 0 && s.ends[r] == 0)
    && (forall c :: 0 <= c < |s.closers| ==> s.closers[c] == Idle)
    && s.snapshot == [] && s.called == 0 && s.promise == 0 && !s.fatal
  }

  predicate CanRun(s: World, steps: seq<Step>)
    decreases |steps|
  {
    steps == [] || (Enabled(s, steps[0]) && CanRun(Apply(s, steps[0]), steps[1..]))
  }

  function Run(s: World, steps: seq<Step>): World
    requires CanRun(s, steps)
    decreases |steps|
  {
    if steps == [] then s else Run(Apply(s, steps[0]), steps[1..])
  }

  // ---------------------------------------------------------------------------------------------- invariant

  predicate Inside(p: RundownPhase) { p == Entered || p == Asleep || p == Awake }

  function Holds(p: RundownPhase): nat { if Inside(p) then 1 else 0 }

  function Signals(p: RundownPhase): nat { if p == Signalling then 1 else 0 }

  function Finalizes(p: CloserPhase): nat { if p == Finalizing || p == Notifying(true) then 1 else 0 }

  predicate WellFormed(s: World) {
    && |s.rundowns| == |s.hasCallback| == |s.starts| == |s.ends|
    && s.gate.remaining + |s.gate.rundowns| == Tally.Sum(s.rundowns, Holds)
    && !s.fatal
  }

  predicate Known(s: World, e: Entry) {
    e.handle < |s.rundowns| && e.handle < |s.hasCallback| && e.callback == s.hasCallback[e.handle]
  }

  ghost predicate WhileOpen(s: World)
    requires WellFormed(s)
  {
    && !s.gate.closeComplete && s.gate.remaining == 0 && s.promise == 0 && s.snapshot == [] && s.called == 0
    && Distinct(s.gate.rundowns)
    && (forall e :: e in s.gate.rundowns ==> Known(s, e) && s.rundowns[e.handle] == Entered)
    && (forall r :: 0 <= r < |s.rundowns| ==> s.rundowns[r] == Entered ==>
          Entry(r, s.hasCallback[r]) in s.gate.rundowns)
    && (forall r :: 0 <= r < |s.rundowns| ==> s.rundowns[r] in {Fresh, Entered, Gone})
    && (forall r :: 0 <= r < |s.rundowns| ==> s.starts[r] == 0 && s.ends[r] == 0)
    && (forall c :: 0 <= c < |s.closers| ==> s.closers[c] == Idle)
  }

  // How often the callback of snapshot entry i has been entered, when `called` iterations are over.
  function Expected(e: Entry, i: int, called: int): nat {
    if e.callback && i < called then 1 else 0
  }

  ghost predicate Counted(snapshot: seq<Entry>, counts: seq<nat>, called: int) {
    forall i :: 0 <= i < |snapshot| ==>
      snapshot[i].handle < |counts| && counts[snapshot[i].handle] == Expected(snapshot[i], i, called)
  }

  lemma CountedSkip(snapshot: seq<Entry>, counts: seq<nat>, called: nat)
    requires called < |snapshot| && !snapshot[called].callback && Counted(snapshot, counts, called)
    ensures Counted(snapshot, counts, called + 1)
  {
  }

  lemma CountedCall(snapshot: seq<Entry>, counts: seq<nat>, called: nat)
    requires called < |snapshot| && snapshot[called].callback && Distinct(snapshot) && Counted(snapshot, counts, called)
    ensures var h := snapshot[called].handle; Counted(snapshot, counts[h := counts[h] + 1], called + 1)
  {
  }

  ghost predicate Snapshot(s: World)
    requires WellFormed(s)
  {
    && s.gate.rundowns == [] && s.called <= |s.snapshot|
    && Distinct(s.snapshot)
    && (forall i :: 0 <= i < |s.snapshot| ==> Known(s, s.snapshot[i]))
    && (forall r {:trigger s.rundowns[r]} :: 0 <= r < |s.rundowns| ==>
          Inside(s.rundowns[r]) || s.rundowns[r] == Signalling ==> Entry(r, s.hasCallback[r]) in s.snapshot)
    && (forall r {:trigger s.starts[r]} {:trigger s.ends[r]} :: 0 <= r < |s.rundowns| ==>
          Entry(r, s.hasCallback[r]) !in s.snapshot ==> s.starts[r] == 0 && s.ends[r] == 0)
    && Counted(s.snapshot, s.ends, s.called)
  }

  // Between the two blocks of the closing call: closer c is the only one in the loop.
  ghost predicate WhileClosing(s: World, c: nat)
    requires WellFormed(s) && Snapshot(s)
  {
    && c < |s.closers| && s.closers[c].Calling?
    && s.closers[c].pending == s.snapshot[s.called..]
    && (s.closers[c].running ==> s.called < |s.snapshot| && s.snapshot[s.called].callback)
    && Counted(s.snapshot, s.starts, if s.closers[c].running then s.called + 1 else s.called)
    && (forall d :: 0 <= d < |s.closers| && d != c ==> s.closers[d] == Idle || s.closers[d] == Returned)
    && s.promise == 0
    && (forall i :: 0 <= i < |s.snapshot| ==> Inside(s.rundowns[s.snapshot[i].handle]))
    && (forall r :: 0 <= r < |s.rundowns| ==> s.rundowns[r] != Signalling)
  }

  ghost predicate NotifyPending(s: World) {
    exists c :: 0 <= c < |s.closers| && s.closers[c].Notifying?
  }

  // No wake-up is lost: nobody sleeps through the close.
  ghost predicate SleepersNotified(s: World) {
    NotifyPending(s) || forall r :: 0 <= r < |s.rundowns| ==> s.rundowns[r] != Asleep
  }

  ghost predicate AfterClose(s: World)
    requires WellFormed(s) && Snapshot(s)
  {
    && s.called == |s.snapshot| && Counted(s.snapshot, s.starts, s.called)
    && (forall d :: 0 <= d < |s.closers| ==> !s.closers[d].Calling?)
    && s.promise + Tally.Sum(s.rundowns, Signals) + Tally.Sum(s.closers, Finalizes)
       == (if s.gate.remaining == 0 then 1 else 0)
    && SleepersNotified(s)
  }

  ghost predicate Inv(s: World) {
    && WellFormed(s)
    && if s.gate.isOpen then WhileOpen(s)
       else
         && Snapshot(s)
         && if s.gate.closeComplete then AfterClose(s) else exists c: nat :: WhileClosing(s, c)
  }

  // A step outside the callback loop leaves the history alone; then the snapshot's part of the invariant stays.
  predicate HistoryKept(s: World, t: World) {
    && t.snapshot == s.snapshot && t.called == s.called && t.starts == s.starts && t.ends == s.ends
    && t.hasCallback == s.hasCallback && t.gate.rundowns == s.gate.rundowns && |t.rundowns| == |s.rundowns|
    && forall r :: 0 <= r < |t.rundowns| ==>
         Inside(t.rundowns[r]) || t.rundowns[r] == Signalling ==> Inside(s.rundowns[r]) || s.rundowns[r] == Signalling
  }

  lemma SnapshotKept(s: World, t: World)
    requires WellFormed(s) && Snapshot(s) && WellFormed(t) && HistoryKept(s, t)
    ensures Snapshot(t)
  {
  }

  lemma InitialInv(s: World)
    requires Initial(s)
    ensures Inv(s)
  {
    Tally.Uniform(s.rundowns, Holds, 0);
  }

  lemma EnterOpenInv(s: World, r: nat)
    requires Inv(s) && Enabled(s, Enter(r)) && s.gate.isOpen
    ensures Inv(Apply(s, Enter(r)))
  {
    var t := Apply(s, Enter(r));
    Tally.Update(s.rundowns, Holds, r, Entered);
    assert forall e :: e in s.gate.rundowns ==> e.handle != r;
    assert WhileOpen(t);
  }

  lemma EnterClosedInv(s: World, r: nat)
    requires Inv(s) && Enabled(s, Enter(r)) && !s.gate.isOpen
    ensures Inv(Apply(s, Enter(r)))
  {
    var t := Apply(s, Enter(r));
    Tally.Update(s.rundowns, Holds, r, Refused);
    SnapshotKept(s, t);
    if s.gate.closeComplete {
      Tally.Update(s.rundowns, Signals, r, Refused);
    } else {
      var c: nat :| WhileClosing(s, c);
      assert WhileClosing(t, c);
    }
  }

  lemma EnterInv(s: World, r: nat)
    requires Inv(s) && Enabled(s, Enter(r))
    ensures Inv(Apply(s, Enter(r)))
  {
    if s.gate.isOpen {
      EnterOpenInv(s, r);
    } else {
      EnterClosedInv(s, r);
    }
  }

  lemma ErasedFromList(entries: seq<Entry>, e: Entry)
    requires Distinct(entries) && e in entries
    ensures Distinct(Without(entries, e.handle)) && |Without(entries, e.handle)| == |entries| - 1
  {
    WithoutDistinct(entries, e.handle);
    WithoutLength(entries, e.handle);
    var i :| 0 <= i < |entries| && entries[i] == e;
  }

  lemma LeaveOpenInv(s: World, r: nat)
    requires Inv(s) && Enabled(s, RemoveLock(r)) && s.gate.isOpen
    ensures Inv(Apply(s, RemoveLock(r)))
  {
    var t := Apply(s, RemoveLock(r));
    Tally.Update(s.rundowns, Holds, r, Gone);
    ErasedFromList(s.gate.rundowns, Entry(r, s.hasCallback[r]));
    assert WhileOpen(t);
  }

  lemma LeaveWhileClosingInv(s: World, r: nat)
    requires Inv(s) && !s.gate.isOpen && !s.gate.closeComplete
    requires r < |s.rundowns| && Inside(s.rundowns[r])
    ensures Inv(Leave(s, r))
  {
    var t := Leave(s, r);
    Tally.Update(s.rundowns, Holds, r, Asleep);
    SnapshotKept(s, t);
    var c: nat :| WhileClosing(s, c);
    assert WhileClosing(t, c);
  }

  // A rundown that is still inside is counted, so the count is not used up before it leaves.
  lemma StillCounted(s: World, r: nat)
    requires Inv(s) && !s.gate.isOpen && r < |s.rundowns| && Inside(s.rundowns[r])
    ensures s.gate.remaining > 0
  {
    Tally.Member(s.rundowns, Holds, r);
  }

  lemma LeaveAfterCloseInv(s: World, r: nat)
    requires Inv(s) && !s.gate.isOpen && s.gate.closeComplete && r < |s.rundowns| && Inside(s.rundowns[r])
    ensures Inv(Leave(s, r))
  {
    StillCounted(s, r);
    var phase := if s.gate.remaining == 1 then Signalling else Gone;
    Tally.Update(s.rundowns, Holds, r, phase);
    Tally.Update(s.rundowns, Signals, r, phase);
    SnapshotKept(s, Leave(s, r));
  }

  lemma LeaveClosedInv(s: World, r: nat)
    requires Inv(s) && !s.gate.isOpen && r < |s.rundowns| && Inside(s.rundowns[r])
    ensures Inv(Leave(s, r))
  {
    if s.gate.closeComplete {
      LeaveAfterCloseInv(s, r);
    } else {
      LeaveWhileClosingInv(s, r);
    }
  }

  lemma SpuriousWhileClosingInv(s: World, r: nat)
    requires Inv(s) && Enabled(s, SpuriousWake(r)) && !s.gate.closeComplete
    ensures Inv(Apply(s, SpuriousWake(r)))
  {
    var t := Apply(s, SpuriousWake(r));
    Tally.Update(s.rundowns, Holds, r, Awake);
    SnapshotKept(s, t);
    var c: nat :| WhileClosing(s, c);
    assert WhileClosing(t, c);
  }

  lemma SpuriousAfterCloseInv(s: World, r: nat)
    requires Inv(s) && Enabled(s, SpuriousWake(r)) && s.gate.closeComplete
    ensures Inv(Apply(s, SpuriousWake(r)))
  {
    Tally.Update(s.rundowns, Holds, r, Awake);
    Tally.Update(s.rundowns, Signals, r, Awake);
    SnapshotKept(s, Apply(s, SpuriousWake(r)));
  }

  lemma SignalInv(s: World, r: nat)
    requires Inv(s) && Enabled(s, RemoveSignal(r))
    ensures Inv(Apply(s, RemoveSignal(r)))
  {
    Tally.Member(s.rundowns, Signals, r);
    Tally.Update(s.rundowns, Holds, r, Gone);
    Tally.Update(s.rundowns, Signals, r, Gone);
    SnapshotKept(s, Apply(s, RemoveSignal(r)));
  }

  // A closer that is not about to notify does not take the notification away.
  lemma StillPending(s: World, c: nat, p: CloserPhase)
    requires c < |s.closers| && !s.closers[c].Notifying? && SleepersNotified(s)
    ensures SleepersNotified(s.(closers := s.closers[c := p]))
  {
    if d :| 0 <= d < |s.closers| && s.closers[d].Notifying? {
      assert s.(closers := s.closers[c := p]).closers[d].Notifying?;
    }
  }

  lemma FirstCloseInv(s: World, c: nat)
    requires Inv(s) && Enabled(s, CloseLock(c)) && s.gate.isOpen
    ensures Inv(Apply(s, CloseLock(c)))
  {
    var t := Apply(s, CloseLock(c));
    assert Snapshot(t);
    assert WhileClosing(t, c);
  }

  lemma LaterCloseInv(s: World, c: nat)
    requires Inv(s) && Enabled(s, CloseLock(c)) && !s.gate.isOpen
    ensures Inv(Apply(s, CloseLock(c)))
  {
    var t := Apply(s, CloseLock(c));
    SnapshotKept(s, t);
    if s.gate.closeComplete {
      Tally.Update(s.closers, Finalizes, c, Returned);
      StillPending(s, c, Returned);
    } else {
      var d: nat :| WhileClosing(s, d);
      assert WhileClosing(t, d);
    }
  }

  lemma CloseLockInv(s: World, c: nat)
    requires Inv(s) && Enabled(s, CloseLock(c))
    ensures Inv(Apply(s, CloseLock(c)))
  {
    if s.gate.isOpen {
      FirstCloseInv(s, c);
    } else {
      LaterCloseInv(s, c);
    }
  }

  // The closer found in the loop is the one that closed the gate, and its next callback is snapshot[called].
  lemma InTheLoop(s: World, c: nat)
    requires Inv(s) && c < |s.closers| && s.closers[c].Calling?
    ensures !s.gate.isOpen && !s.gate.closeComplete && WhileClosing(s, c)
    ensures s.closers[c].pending != [] ==>
              && s.called < |s.snapshot| && s.closers[c].pending[0] == s.snapshot[s.called]
              && s.closers[c].pending[1..] == s.snapshot[s.called + 1..]
              && Known(s, s.snapshot[s.called])
  {
    var d: nat :| WhileClosing(s, d);
    assert c == d;
  }

  // The loop moves on past entry e: counts that are right for the new position keep the invariant.
  lemma LoopInv(s: World, c: nat, e: Entry, t: World)
    requires Inv(s) && !s.gate.isOpen && !s.gate.closeComplete && WhileClosing(s, c)
    requires t == s.(closers := t.closers, called := t.called, starts := t.starts, ends := t.ends)
    requires c < |t.closers| && t.closers == s.closers[c := t.closers[c]] && t.closers[c].Calling?
    requires t.called <= |s.snapshot| && t.closers[c].pending == s.snapshot[t.called..]
    requires t.closers[c].running ==> t.called < |s.snapshot| && s.snapshot[t.called].callback
    requires e in s.snapshot && Known(s, e) && |t.starts| == |t.ends| == |s.rundowns|
    requires forall r :: 0 <= r < |s.rundowns| && r != e.handle ==> t.starts[r] == s.starts[r] && t.ends[r] == s.ends[r]
    requires Counted(s.snapshot, t.ends, t.called)
    requires Counted(s.snapshot, t.starts, if t.closers[c].running then t.called + 1 else t.called)
    ensures Inv(t)
  {
    assert WellFormed(t) && Snapshot(t);
    assert WhileClosing(t, c);
  }

  lemma CallSkipInv(s: World, c: nat)
    requires Inv(s) && Enabled(s, CallSkip(c))
    ensures Inv(Apply(s, CallSkip(c)))
  {
    InTheLoop(s, c);
    CountedSkip(s.snapshot, s.ends, s.called);
    CountedSkip(s.snapshot, s.starts, s.called);
    LoopInv(s, c, s.snapshot[s.called], Apply(s, CallSkip(c)));
  }

  lemma CallStartInv(s: World, c: nat)
    requires Inv(s) && Enabled(s, CallStart(c))
    ensures Inv(Apply(s, CallStart(c)))
  {
    InTheLoop(s, c);
    CountedCall(s.snapshot, s.starts, s.called);
    LoopInv(s, c, s.snapshot[s.called], Apply(s, CallStart(c)));
  }

  lemma CallEndInv(s: World, c: nat)
    requires Inv(s) && Enabled(s, CallEnd(c))
    ensures Inv(Apply(s, CallEnd(c)))
  {
    InTheLoop(s, c);
    CountedCall(s.snapshot, s.ends, s.called);
    LoopInv(s, c, s.snapshot[s.called], Apply(s, CallEnd(c)));
  }

  lemma CloseUnlockInv(s: World, c: nat)
    requires Inv(s) && Enabled(s, CloseUnlock(c))
    ensures Inv(Apply(s, CloseUnlock(c)))
  {
    var t := Apply(s, CloseUnlock(c));
    InTheLoop(s, c);
    Tally.Uniform(s.rundowns, Signals, 0);
    Tally.Uniform(s.closers, Finalizes, 0);
    Tally.Update(s.closers, Finalizes, c, t.closers[c]);
    assert t.closers[c].Notifying?;
    assert AfterClose(t);
  }

  lemma NotifyCounts(s: World, c: nat)
    requires Enabled(s, CloseNotify(c))
    ensures var t := Apply(s, CloseNotify(c));
            && Tally.Sum(t.rundowns, Holds) == Tally.Sum(s.rundowns, Holds)
            && Tally.Sum(t.rundowns, Signals) == Tally.Sum(s.rundowns, Signals)
            && Tally.Sum(t.closers, Finalizes) == Tally.Sum(s.closers, Finalizes)
  {
    var t := Apply(s, CloseNotify(c));
    Tally.Compare(s.rundowns, t.rundowns, Holds, 0);
    Tally.Compare(t.rundowns, s.rundowns, Holds, 0);
    Tally.Compare(s.rundowns, t.rundowns, Signals, 0);
    Tally.Compare(t.rundowns, s.rundowns, Signals, 0);
    Tally.Update(s.closers, Finalizes, c, t.closers[c]);
  }

  lemma CloseNotifyInv(s: World, c: nat)
    requires Inv(s) && Enabled(s, CloseNotify(c))
    ensures Inv(Apply(s, CloseNotify(c)))
  {
    var t := Apply(s, CloseNotify(c));
    assert s.gate.closeComplete;
    NotifyCounts(s, c);
    SnapshotKept(s, t);
  }

  lemma CloseSignalInv(s: World, c: nat)
    requires Inv(s) && Enabled(s, CloseSignal(c))
    ensures Inv(Apply(s, CloseSignal(c)))
  {
    Tally.Member(s.closers, Finalizes, c);
    Tally.Update(s.closers, Finalizes, c, Returned);
    StillPending(s, c, Returned);
  }

  lemma StepInv(s: World, step: Step)
    requires Inv(s) && Enabled(s, step)
    ensures Inv(Apply(s, step))
  {
    match step
    case Enter(r) => EnterInv(s, r);
    case RemoveLock(r) => if s.gate.isOpen { LeaveOpenInv(s, r); } else { LeaveClosedInv(s, r); }
    case SpuriousWake(r) =>
      if s.gate.closeComplete { SpuriousAfterCloseInv(s, r); } else { SpuriousWhileClosingInv(s, r); }
    case RemoveWake(r) => LeaveClosedInv(s, r);
    case RemoveSignal(r) => SignalInv(s, r);
    case CloseLock(c) => CloseLockInv(s, c);
    case CallSkip(c) => CallSkipInv(s, c);
    case CallStart(c) => CallStartInv(s, c);
    case CallEnd(c) => CallEndInv(s, c);
    case CloseUnlock(c) => CloseUnlockInv(s, c);
    case CloseNotify(c) => CloseNotifyInv(s, c);
    case CloseSignal(c) => CloseSignalInv(s, c);
  }

  lemma {:induction false} RunInv(s: World, steps: seq<Step>)
    requires Inv(s) && CanRun(s, steps)
    ensures Inv(Run(s, steps))
    decreases |steps|
  {
    if steps != [] {
      StepInv(s, steps[0]);
      RunInv(Apply(s, steps[0]), steps[1..]);
    }
  }

  // ---------------------------------------------------------------------------------------------- safety

  lemma FinalizedOnceAndLast(s: World, steps: seq<Step>)
    requires Initial(s) && CanRun(s, steps)
    ensures var t := Run(s, steps);
            && !t.fatal && t.promise <= 1
            && (t.promise == 1 ==>
                  && !t.gate.isOpen && t.gate.closeComplete && t.called == |t.snapshot| && t.starts == t.ends
                  && (forall r :: 0 <= r < |t.rundowns| ==> t.rundowns[r] in {Fresh, Refused, Gone})
                  && (forall c :: 0 <= c < |t.closers| ==> t.closers[c] in {Idle, Notifying(false), Returned}))
  {
    InitialInv(s);
    RunInv(s, steps);
    var t := Run(s, steps);
    if t.promise > 0 {
      PromiseIsLast(t);
      forall r | 0 <= r < |t.rundowns| ensures t.starts[r] == t.ends[r] {
        CompletedCalls(t, r);
      }
    }
  }

  lemma PromiseIsLast(s: World)
    requires Inv(s) && s.promise > 0
    ensures !s.gate.isOpen && s.gate.closeComplete && s.called == |s.snapshot|
    ensures forall r :: 0 <= r < |s.rundowns| ==> s.rundowns[r] in {Fresh, Refused, Gone}
    ensures forall c :: 0 <= c < |s.closers| ==> s.closers[c] in {Idle, Notifying(false), Returned}
  {
    forall r | 0 <= r < |s.rundowns| ensures s.rundowns[r] in {Fresh, Refused, Gone} {
      Tally.Member(s.rundowns, Holds, r);
      Tally.Member(s.rundowns, Signals, r);
    }
    forall c | 0 <= c < |s.closers| ensures s.closers[c] in {Idle, Notifying(false), Returned} {
      Tally.Member(s.closers, Finalizes, c);
    }
  }

  lemma CompletedCalls(s: World, r: nat)
    requires Inv(s) && s.gate.closeComplete && r < |s.rundowns|
    ensures s.starts[r] == s.ends[r] == if Entry(r, true) in s.snapshot then 1 else 0
  {
    var e := Entry(r, s.hasCallback[r]);
    if e in s.snapshot {
      var i :| 0 <= i < |s.snapshot| && s.snapshot[i] == e;
    }
    if Entry(r, true) in s.snapshot {
      var j :| 0 <= j < |s.snapshot| && s.snapshot[j] == Entry(r, true);
      assert Known(s, s.snapshot[j]);
    }
  }

  // The closing step takes the callbacks of exactly the rundowns inside the gate.
  lemma CloseTakesTheRegistered(s: World, c: nat, r: nat)
    requires Inv(s) && s.gate.isOpen && Enabled(s, CloseLock(c)) && r < |s.rundowns|
    ensures Entry(r, s.hasCallback[r]) in Apply(s, CloseLock(c)).snapshot <==> s.rundowns[r] == Entered
  {
    var e := Entry(r, s.hasCallback[r]);
    if e in s.gate.rundowns {
      var i :| 0 <= i < |s.gate.rundowns| && s.gate.rundowns[i] == e;
    }
  }

  // A callback is due when its rundown was inside the gate as it closed.
  function Dues(s: World, r: nat): nat
    requires r < |s.hasCallback|
  {
    if s.hasCallback[r] && Entry(r, s.hasCallback[r]) in s.snapshot then 1 else 0
  }

  lemma CallsAfterClosing(s: World, r: nat)
    requires Inv(s) && !s.gate.isOpen && r < |s.rundowns|
    ensures s.ends[r] <= s.starts[r] <= Dues(s, r)
    ensures s.gate.closeComplete ==> s.starts[r] == s.ends[r] == Dues(s, r)
  {
    var e := Entry(r, s.hasCallback[r]);
    if e in s.snapshot {
      var i :| 0 <= i < |s.snapshot| && s.snapshot[i] == e;
      if !s.gate.closeComplete {
        var d: nat :| WhileClosing(s, d);
      }
    }
  }

  lemma CallbacksRunExactlyOnce(s: World, c: nat, steps: seq<Step>, r: nat)
    requires Inv(s) && s.gate.isOpen && Enabled(s, CloseLock(c)) && r < |s.rundowns|
    requires CanRun(Apply(s, CloseLock(c)), steps)
    ensures var t := Run(Apply(s, CloseLock(c)), steps);
            && r < |t.starts| && r < |t.ends| && t.ends[r] <= t.starts[r]
            && t.starts[r] <= (if s.rundowns[r] == Entered && s.hasCallback[r] then 1 else 0)
            && (t.gate.closeComplete ==>
                  t.starts[r] == t.ends[r] == if s.rundowns[r] == Entered && s.hasCallback[r] then 1 else 0)
  {
    var closed := Apply(s, CloseLock(c));
    StepInv(s, CloseLock(c));
    RunInv(closed, steps);
    SnapshotFixed(closed, steps);
    CloseTakesTheRegistered(s, c, r);
    CallsAfterClosing(Run(closed, steps), r);
  }

  lemma ClosedKeeps(s: World, step: Step)
    requires Enabled(s, step) && !s.gate.isOpen
    ensures var t := Apply(s, step);
            !t.gate.isOpen && t.snapshot == s.snapshot && t.hasCallback == s.hasCallback && |t.rundowns| == |s.rundowns|
  {
  }

  lemma {:induction false} SnapshotFixed(s: World, steps: seq<Step>)
    requires CanRun(s, steps) && !s.gate.isOpen
    ensures var t := Run(s, steps);
            !t.gate.isOpen && t.snapshot == s.snapshot && t.hasCallback == s.hasCallback && |t.rundowns| == |s.rundowns|
    decreases |steps|
  {
    if steps != [] {
      ClosedKeeps(s, steps[0]);
      SnapshotFixed(Apply(s, steps[0]), steps[1..]);
    }
  }

  // What CheckIsOpen tells: once the gate is found closed it stays closed, and whoever has not entered never will.
  lemma {:induction false} ClosedForGood(s: World, steps: seq<Step>, r: nat)
    requires CanRun(s, steps) && !s.gate.isOpen && r < |s.rundowns| && s.rundowns[r] in {Fresh, Refused}
    ensures var t := Run(s, steps);
            !t.gate.isOpen && r < |t.rundowns| && t.rundowns[r] in {Fresh, Refused}
    decreases |steps|
  {
    if steps != [] {
      ClosedKeeps(s, steps[0]);
      ClosedForGood(Apply(s, steps[0]), steps[1..], r);
    }
  }

  // ---------------------------------------------------------------------------------------------- order of entry

  ghost predicate Mentions(entries: seq<Entry>, h: nat) {
    exists e :: e in entries && e.handle == h
  }

  ghost predicate Precedes(entries: seq<Entry>, a: nat, b: nat) {
    exists i, j :: 0 <= i < j < |entries| && entries[i].handle == a && entries[j].handle == b
  }

  lemma PrecedesAppended(entries: seq<Entry>, e: Entry, a: nat)
    requires Mentions(entries, a)
    ensures Precedes(entries + [e], a, e.handle)
  {
    var f :| f in entries && f.handle == a;
    var i :| 0 <= i < |entries| && entries[i] == f;
    assert (entries + [e])[i] == f && (entries + [e])[|entries|] == e;
  }

  lemma PrecedesLonger(entries: seq<Entry>, e: Entry, a: nat, b: nat)
    requires Precedes(entries, a, b)
    ensures Precedes(entries + [e], a, b)
  {
    var i, j :| 0 <= i < j < |entries| && entries[i].handle == a && entries[j].handle == b;
    assert (entries + [e])[i] == entries[i] && (entries + [e])[j] == entries[j];
  }

  lemma PrecedesLater(e: Entry, entries: seq<Entry>, a: nat, b: nat)
    requires Precedes(entries, a, b)
    ensures Precedes([e] + entries, a, b)
  {
    var i, j :| 0 <= i < j < |entries| && entries[i].handle == a && entries[j].handle == b;
    assert ([e] + entries)[i + 1] == entries[i] && ([e] + entries)[j + 1] == entries[j];
  }

  lemma PrecedesFirst(e: Entry, entries: seq<Entry>, b: nat)
    requires Mentions(entries, b)
    ensures Precedes([e] + entries, e.handle, b)
  {
    var f :| f in entries && f.handle == b;
    var j :| 0 <= j < |entries| && entries[j] == f;
    assert ([e] + entries)[0] == e && ([e] + entries)[j + 1] == f;
  }

  lemma PrecedesSplit(entries: seq<Entry>, a: nat, b: nat)
    requires Precedes(entries, a, b)
    ensures entries != []
    ensures Precedes(entries[1..], a, b) || (entries[0].handle == a && Mentions(entries[1..], b))
  {
    var i, j :| 0 <= i < j < |entries| && entries[i].handle == a && entries[j].handle == b;
    var rest := entries[1..];
    assert rest[j - 1] == entries[j];
    if i > 0 {
      assert rest[i - 1] == entries[i];
    }
  }

  lemma {:induction false} PrecedesWithout(entries: seq<Entry>, gone: nat, a: nat, b: nat)
    requires Precedes(entries, a, b) && gone != a && gone != b
    ensures Precedes(Without(entries, gone), a, b)
  {
    PrecedesSplit(entries, a, b);
    var rest := entries[1..];
    if Precedes(rest, a, b) {
      PrecedesWithout(rest, gone, a, b);
      PrecedesLater(entries[0], Without(rest, gone), a, b);
    } else {
      var f :| f in rest && f.handle == b;
      assert f in Without(rest, gone);
      PrecedesFirst(entries[0], Without(rest, gone), b);
    }
  }

  // Rundown a, which entered first, comes before b in the list of the open gate and in what Close takes from it.
  ghost predicate Ordered(s: World, a: nat, b: nat) {
    && a < |s.rundowns| && b < |s.rundowns| && s.rundowns[a] != Fresh
    && if s.gate.isOpen then
         s.rundowns[a] == Entered && s.rundowns[b] == Entered ==> Precedes(s.gate.rundowns, a, b)
       else
         Mentions(s.snapshot, a) && Mentions(s.snapshot, b) ==> Precedes(s.snapshot, a, b)
  }

  lemma OrderedEnter(s: World, r: nat, a: nat, b: nat)
    requires Inv(s) && Enabled(s, Enter(r)) && s.gate.isOpen && Ordered(s, a, b)
    ensures Ordered(Apply(s, Enter(r)), a, b)
  {
    var e := Entry(r, s.hasCallback[r]);
    if s.rundowns[a] == Entered {
      assert Entry(a, s.hasCallback[a]) in s.gate.rundowns;
      if r == b {
        PrecedesAppended(s.gate.rundowns, e, a);
      } else if s.rundowns[b] == Entered {
        PrecedesLonger(s.gate.rundowns, e, a, b);
      }
    }
  }

  lemma OrderedLeave(s: World, r: nat, a: nat, b: nat)
    requires Inv(s) && Enabled(s, RemoveLock(r)) && s.gate.isOpen && Ordered(s, a, b)
    ensures Ordered(Apply(s, RemoveLock(r)), a, b)
  {
    if r != a && r != b && s.rundowns[a] == Entered && s.rundowns[b] == Entered {
      PrecedesWithout(s.gate.rundowns, r, a, b);
    }
  }

  lemma OrderedClose(s: World, c: nat, a: nat, b: nat)
    requires Inv(s) && Enabled(s, CloseLock(c)) && s.gate.isOpen && Ordered(s, a, b)
    ensures Ordered(Apply(s, CloseLock(c)), a, b)
  {
    if Mentions(s.gate.rundowns, a) && Mentions(s.gate.rundowns, b) {
      var e :| e in s.gate.rundowns && e.handle == a;
      var f :| f in s.gate.rundowns && f.handle == b;
    }
  }

  lemma OrderedClosed(s: World, step: Step, a: nat, b: nat)
    requires Inv(s) && Enabled(s, step) && !s.gate.isOpen && Ordered(s, a, b)
    ensures Ordered(Apply(s, step), a, b)
  {
    ClosedKeeps(s, step);
    if step in {RemoveLock(a), RemoveWake(a)} {
      StillCounted(s, a);
    }
    StepTouches(s, step, a);
  }

  lemma OrderedStep(s: World, step: Step, a: nat, b: nat)
    requires Inv(s) && Enabled(s, step) && Ordered(s, a, b)
    ensures Ordered(Apply(s, step), a, b)
  {
    if !s.gate.isOpen {
      OrderedClosed(s, step, a, b);
    } else if step.Enter? {
      OrderedEnter(s, step.r, a, b);
    } else if step.RemoveLock? {
      OrderedLeave(s, step.r, a, b);
    } else if step.CloseLock? {
      OrderedClose(s, step.c, a, b);
    } else {
      assert false;
    }
  }

  lemma {:induction false} OrderedRun(s: World, steps: seq<Step>, a: nat, b: nat)
    requires Inv(s) && CanRun(s, steps) && Ordered(s, a, b)
    ensures Ordered(Run(s, steps), a, b)
    decreases |steps|
  {
    if steps != [] {
      OrderedStep(s, steps[0], a, b);
      StepInv(s, steps[0]);
      OrderedRun(Apply(s, steps[0]), steps[1..], a, b);
    }
  }

  // Close takes the rundowns in the order in which they entered, and so runs their callbacks: when that of a later one
  // is entered, that of an earlier one has returned.
  lemma CallbacksInOrderOfEntry(s: World, steps: seq<Step>, a: nat, b: nat)
    requires Inv(s) && CanRun(s, steps) && s.gate.isOpen && a < |s.rundowns| && b < |s.rundowns|
    requires s.rundowns[a] == Entered && s.rundowns[b] == Fresh
    ensures var t := Run(s, steps);
            && Ordered(t, a, b) && a < |t.ends| && b < |t.starts|
            && (t.starts[b] > 0 && Entry(a, true) in t.snapshot ==> t.ends[a] == 1)
  {
    var t := Run(s, steps);
    OrderedRun(s, steps, a, b);
    RunInv(s, steps);
    if t.starts[b] > 0 && Entry(a, true) in t.snapshot {
      CalledAfter(t, a, b);
    }
  }

  lemma CountedBefore(snapshot: seq<Entry>, starts: seq<nat>, ends: seq<nat>, begun: int, called: int, a: nat, b: nat)
    requires Counted(snapshot, starts, begun) && Counted(snapshot, ends, called) && begun <= called + 1
    requires Distinct(snapshot) && Precedes(snapshot, a, b) && Entry(a, true) in snapshot
    requires a < |ends| && b < |starts| && starts[b] > 0
    ensures ends[a] == 1
  {
    var i, j :| 0 <= i < j < |snapshot| && snapshot[i].handle == a && snapshot[j].handle == b;
    var k :| 0 <= k < |snapshot| && snapshot[k] == Entry(a, true);
    assert k == i;
  }

  lemma CalledAfter(t: World, a: nat, b: nat)
    requires Inv(t) && Ordered(t, a, b) && t.starts[b] > 0 && Entry(a, true) in t.snapshot
    ensures t.ends[a] == 1
  {
    assert Entry(b, t.hasCallback[b]) in t.snapshot;
    var begun := t.called;
    if !t.gate.closeComplete {
      var c: nat :| WhileClosing(t, c);
      begun := if t.closers[c].running then t.called + 1 else t.called;
    }
    CountedBefore(t.snapshot, t.starts, t.ends, begun, t.called, a, b);
  }

  // Once ~Rundown has returned, its callback is not being run and is never entered again.
  lemma {:induction false} NoCallbackAfterRemoval(s: World, steps: seq<Step>, r: nat)
    requires Inv(s) && CanRun(s, steps) && r < |s.rundowns| && s.rundowns[r] == Gone
    ensures var t := Run(s, steps);
            && r < |t.rundowns| && r < |t.starts| && r < |t.ends| && t.rundowns[r] == Gone
            && t.starts[r] == t.ends[r] == s.starts[r]
            && (s.gate.isOpen ==> t.starts[r] == 0)
    decreases |steps|
  {
    GoneIsIdle(s, r);
    if steps != [] {
      StepInv(s, steps[0]);
      GoneStep(s, steps[0], r);
      NoCallbackAfterRemoval(Apply(s, steps[0]), steps[1..], r);
    }
  }

  lemma GoneIsIdle(s: World, r: nat)
    requires Inv(s) && r < |s.rundowns| && s.rundowns[r] == Gone
    ensures s.starts[r] == s.ends[r]
  {
    if s.gate.closeComplete {
      CompletedCalls(s, r);
    } else if !s.gate.isOpen {
      NotInSnapshot(s, r);
    }
  }

  // What one step does to one rundown: its phase changes by its own steps or by being notified, and the counts of its
  // callback by the loop's.
  lemma StepTouches(s: World, step: Step, r: nat)
    requires Enabled(s, step) && r < |s.rundowns| == |s.starts| == |s.ends|
    requires step in {RemoveLock(r), RemoveWake(r)} && !s.gate.isOpen ==> s.gate.remaining > 0
    ensures var t := Apply(s, step);
            && |t.rundowns| == |s.rundowns| && t.hasCallback == s.hasCallback
            && |t.starts| == |s.starts| && |t.ends| == |s.ends|
            && PhaseTouched(s, step, r, t.rundowns[r])
            && t.starts[r] == s.starts[r] + (if step.CallStart? && Handled(s, step.c) == r then 1 else 0)
            && (t.ends[r] != s.ends[r] ==> step.CallEnd? && Handled(s, step.c) == r)
  {
  }

  predicate PhaseTouched(s: World, step: Step, r: nat, after: RundownPhase)
    requires r < |s.rundowns|
  {
    match s.rundowns[r]
    case Fresh => after == if step == Enter(r) then if s.gate.isOpen then Entered else Refused else Fresh
    case Entered => if step == RemoveLock(r) then after in {Asleep, Signalling, Gone} else after == Entered
    case Signalling => after in {Signalling, Gone}
    case Asleep => after in {Asleep, Awake}
    case Awake => after in {Asleep, Awake, Signalling, Gone}
    case _ => after == s.rundowns[r]
  }

  lemma GoneStep(s: World, step: Step, r: nat)
    requires Inv(s) && Enabled(s, step) && r < |s.rundowns| && s.rundowns[r] == Gone
    ensures var t := Apply(s, step);
            && |t.rundowns| == |s.rundowns| && t.rundowns[r] == Gone
            && |t.starts| == |s.starts| && t.starts[r] == s.starts[r]
  {
    if step.CallStart? {
      InTheLoop(s, step.c);
      assert Inside(s.rundowns[s.snapshot[s.called].handle]);
    }
    StepTouches(s, step, r);
  }

  lemma NotInSnapshot(s: World, r: nat)
    requires Inv(s) && !s.gate.isOpen && !s.gate.closeComplete && r < |s.rundowns| && s.rundowns[r] == Gone
    ensures Entry(r, s.hasCallback[r]) !in s.snapshot
  {
    var d: nat :| WhileClosing(s, d);
  }

  // ---------------------------------------------------------------------------------------------- progress

  function RundownWork(p: RundownPhase): nat {
    match p
    case Fresh => 5
    case Entered => 4
    case Awake => 3
    case Asleep => 2
    case Signalling => 1
    case Refused => 0
    case Gone => 0
  }

  function CloserWork(population: nat): CloserPhase -> nat {
    (p: CloserPhase) =>
      match p
      case Idle => 3 * population + 4
      case Calling(pending, running) => population + 2 * |pending| + if running then 2 else 3
      case Notifying(_) => population + 2
      case Finalizing => 1
      case Returned => 0
  }

  function Work(s: World): nat {
    Tally.Sum(s.rundowns, RundownWork) + Tally.Sum(s.closers, CloserWork(|s.rundowns|))
  }

  lemma SnapshotSize(s: World)
    requires Inv(s)
    ensures |s.gate.rundowns| <= |s.rundowns|
  {
    Tally.Bounded(s.rundowns, Holds, 1);
  }

  lemma PhaseWork(s: World, step: Step, r: nat)
    requires Enabled(s, step) && step in {Enter(r), RemoveLock(r), RemoveWake(r), RemoveSignal(r)}
    requires step in {RemoveLock(r), RemoveWake(r)} && !s.gate.isOpen ==> s.gate.remaining > 0
    ensures Work(Apply(s, step)) < Work(s)
  {
    Tally.Update(s.rundowns, RundownWork, r, Apply(s, step).rundowns[r]);
  }

  lemma RundownStepWork(s: World, step: Step, r: nat)
    requires Inv(s) && Enabled(s, step) && step in {Enter(r), RemoveLock(r), RemoveWake(r), RemoveSignal(r)}
    ensures Work(Apply(s, step)) < Work(s)
  {
    if step in {RemoveLock(r), RemoveWake(r)} && !s.gate.isOpen {
      StillCounted(s, r);
    }
    PhaseWork(s, step, r);
  }

  lemma CloserPhaseWork(s: World, step: Step, c: nat)
    requires Enabled(s, step) && |s.gate.rundowns| <= |s.rundowns|
    requires step in {CloseLock(c), CallSkip(c), CallStart(c), CallEnd(c), CloseUnlock(c), CloseSignal(c)}
    ensures Work(Apply(s, step)) < Work(s)
  {
    Tally.Update(s.closers, CloserWork(|s.rundowns|), c, Apply(s, step).closers[c]);
  }

  // Waking everybody costs each of them a step, which the closer has in store until it has notified.
  lemma NotifyWork(s: World, c: nat)
    requires Enabled(s, CloseNotify(c))
    ensures Work(Apply(s, CloseNotify(c))) < Work(s)
  {
    var t := Apply(s, CloseNotify(c));
    Tally.Compare(s.rundowns, t.rundowns, RundownWork, 1);
    Tally.Update(s.closers, CloserWork(|s.rundowns|), c, t.closers[c]);
  }

  function Spurious(step: Step): nat { if step.SpuriousWake? then 1 else 0 }

  lemma SpuriousWork(s: World, r: nat)
    requires Enabled(s, SpuriousWake(r))
    ensures Work(Apply(s, SpuriousWake(r))) == Work(s) + 1
  {
    Tally.Update(s.rundowns, RundownWork, r, Awake);
  }

  lemma StepWork(s: World, step: Step)
    requires Inv(s) && Enabled(s, step)
    ensures Work(Apply(s, step)) < Work(s) + 2 * Spurious(step)
  {
    if step.SpuriousWake? {
      SpuriousWork(s, step.r);
    } else if step.CloseNotify? {
      NotifyWork(s, step.c);
    } else if step.Enter? || step.RemoveLock? || step.RemoveWake? || step.RemoveSignal? {
      RundownStepWork(s, step, step.r);
    } else {
      SnapshotSize(s);
      CloserPhaseWork(s, step, step.c);
    }
  }

  // Every run is finite but for spurious wake-ups, each of which can cost one more pass through the wait.
  lemma {:induction false} RunsAreFinite(s: World, steps: seq<Step>)
    requires Inv(s) && CanRun(s, steps)
    ensures |steps| + Work(Run(s, steps)) <= Work(s) + 2 * Tally.Sum(steps, Spurious)
    decreases |steps|
  {
    if steps != [] {
      StepWork(s, steps[0]);
      StepInv(s, steps[0]);
      RunsAreFinite(Apply(s, steps[0]), steps[1..]);
    }
  }

  ghost predicate Quiescent(s: World) {
    forall step :: Internal(step) ==> !Enabled(s, step)
  }

  lemma LoopGoesOn(s: World, c: nat)
    requires Inv(s) && c < |s.closers| && s.closers[c].Calling?
    ensures Enabled(s, CloseUnlock(c)) || Enabled(s, CallSkip(c)) || Enabled(s, CallStart(c)) || Enabled(s, CallEnd(c))
  {
    InTheLoop(s, c);
  }

  lemma ClosersDone(s: World, c: nat)
    requires Inv(s) && Quiescent(s) && c < |s.closers|
    ensures s.closers[c] == Idle || s.closers[c] == Returned
  {
    assert !Enabled(s, CloseSignal(c)) && !Enabled(s, CloseNotify(c)) && !Enabled(s, CloseUnlock(c));
    if s.closers[c].Calling? {
      LoopGoesOn(s, c);
    }
  }

  // Nothing is stuck: when no thread can go on by itself, every Close that began has returned, and every
  // destructor that began has returned.  Nobody is left asleep, spurious wake-ups or not.
  lemma QuiescentIsDone(s: World)
    requires Inv(s) && Quiescent(s)
    ensures forall c :: 0 <= c < |s.closers| ==> s.closers[c] == Idle || s.closers[c] == Returned
    ensures forall r :: 0 <= r < |s.rundowns| ==> s.rundowns[r] in {Fresh, Refused, Entered, Gone}
    ensures s.gate.isOpen || s.gate.closeComplete
  {
    forall c | 0 <= c < |s.closers| ensures s.closers[c] == Idle || s.closers[c] == Returned {
      ClosersDone(s, c);
    }
    forall r | 0 <= r < |s.rundowns| ensures s.rundowns[r] in {Fresh, Refused, Entered, Gone} {
      assert !Enabled(s, RemoveWake(r)) && !Enabled(s, RemoveSignal(r));
    }
  }

  // gate.h:112-114: after Close, once every rundown that entered is destroyed, the future is resolved.
  lemma FinalizedInTheEnd(s: World)
    requires Inv(s) && Quiescent(s)
    ensures s.promise == 1 <==>
              !s.gate.isOpen && forall r :: 0 <= r < |s.rundowns| ==> s.rundowns[r] != Entered
  {
    QuiescentIsDone(s);
    if !s.gate.isOpen {
      Tally.Uniform(s.rundowns, Signals, 0);
      Tally.Uniform(s.closers, Finalizes, 0);
      if r :| 0 <= r < |s.rundowns| && s.rundowns[r] == Entered {
        Tally.Member(s.rundowns, Holds, r);
      } else {
        Tally.Uniform(s.rundowns, Holds, 0);
      }
    }
  }
}
