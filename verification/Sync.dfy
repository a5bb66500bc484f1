/**
 `Sync` (base/util/sync.h): a stack-allocated object through which one thread waits for another's callback.  The
 callback holds the mutex until its very last action; that is all that keeps the waiter from returning and freeing the
 object under it.
 */
module Syncs {
  import opened Wrappers

  // The flag and the result once the callback has stored a value.
  function Stored<O>(value: O): (bool, Option<O>) {
    (true, Some(value))
  }

  // What the waiter's test finds; None goes (back) to sleep.
  function Found<O>(done: bool, result: Option<O>): Option<O> {
    if done then result else None
  }

  // The bodies of Callback and WaitForResult between taking and releasing the mutex.
  class Sync<O> {
    var done: bool
    var result: Option<O>

    constructor ()
      ensures !done && result == None
    {
      done, result := false, None;
    }

    method Complete(value: O)
      requires !done
      modifies this
      ensures (done, result) == Stored(value)
    {
      done := true;
      result := Some(value);
    }

    method Test() returns (r: Option<O>)
      ensures r == Found(done, result)
    {
      if done {
        return result;
      }
      return None;
    }
  }

  // ---------------------------------------------------------------------------------------------- the threads

  // Testing: holding the mutex.  Asleep: in the condition variable.  Awake: wants the mutex back.
  datatype Waiter<O> = Arriving | Testing | Asleep | Awake | Returned(result: O)

  // Setting and Notifying: holding the mutex.
  datatype Caller = Pending | Setting | Notifying | Releasing | Left

  datatype State<O> = State(waiter: Waiter<O>, caller: Caller, done: bool, result: Option<O>, freed: bool)

  datatype Step<O> =
    | WaiterLocks | WaiterTests | WaiterWakesUnasked
    | CallerLocks | CallerSets(value: O) | CallerNotifies | CallerReleases

  predicate Locked<O>(s: State<O>) {
    s.waiter.Testing? || s.caller in {Setting, Notifying, Releasing}
  }

  predicate Enabled<O>(s: State<O>, step: Step<O>) {
    match step
    case WaiterLocks => (s.waiter.Arriving? || s.waiter.Awake?) && !Locked(s)
    case WaiterTests => s.waiter.Testing?
    case WaiterWakesUnasked => s.waiter.Asleep?
    case CallerLocks => s.caller.Pending? && !Locked(s)
    case CallerSets(_) => s.caller.Setting?
    case CallerNotifies => s.caller.Notifying?
    case CallerReleases => s.caller.Releasing?
  }

  // A test that succeeds returns from WaitForResult, and the object goes out of scope.
  function Apply<O>(s: State<O>, step: Step<O>): State<O>
    requires Enabled(s, step)
  {
    match step
    case WaiterLocks => s.(waiter := Testing)
    case WaiterTests =>
      var found := Found(s.done, s.result);
      if found.Some? then s.(waiter := Returned(found.value), freed := true) else s.(waiter := Asleep)
    case WaiterWakesUnasked => s.(waiter := Awake)
    case CallerLocks => s.(caller := Setting)
    case CallerSets(value) =>
      var (done, result) := Stored(value);
      s.(caller := Notifying, done := done, result := result)
    case CallerNotifies => s.(caller := Releasing, waiter := if s.waiter.Asleep? then Awake else s.waiter)
    case CallerReleases => s.(caller := Left)
  }

  predicate CanRun<O>(s: State<O>, steps: seq<Step<O>>)
    decreases |steps|
  {
    steps == [] || (Enabled(s, steps[0]) && CanRun(Apply(s, steps[0]), steps[1..]))
  }

  function Run<O>(s: State<O>, steps: seq<Step<O>>): State<O>
    requires CanRun(s, steps)
    decreases |steps|
  {
    if steps == [] then s else Run(Apply(s, steps[0]), steps[1..])
  }

  function Start<O>(): State<O> {
    State(Arriving, Pending, false, None, false)
  }

  ghost predicate Inv<O>(s: State<O>) {
    // One thread at a time holds the mutex.
    && !(s.waiter.Testing? && s.caller in {Setting, Notifying, Releasing})
    && (s.done <==> s.caller in {Notifying, Releasing, Left})
    && (s.done <==> s.result.Some?)
    // A sleeper is still to be notified.
    && (s.waiter.Asleep? ==> s.caller in {Pending, Setting, Notifying})
    && (s.freed <==> s.waiter.Returned?)
    && (s.waiter.Returned? ==> s.caller.Left? && s.result == Some(s.waiter.result))
  }

  lemma {:induction false} RunInv<O>(s: State<O>, steps: seq<Step<O>>)
    requires Inv(s) && CanRun(s, steps)
    ensures Inv(Run(s, steps))
    decreases |steps|
  {
    if steps != [] {
      RunInv(Apply(s, steps[0]), steps[1..]);
    }
  }

  lemma {:induction false} ResultStays<O>(s: State<O>, steps: seq<Step<O>>)
    requires Inv(s) && s.done && CanRun(s, steps)
    ensures Run(s, steps).result == s.result
    decreases |steps|
  {
    if steps != [] {
      ResultStays(Apply(s, steps[0]), steps[1..]);
    }
  }

  // The callback is done with the object before the waiter frees it, and the waiter returns what the callback was
  // given.
  lemma WaitReturnsTheCallbacksResult<O>(steps: seq<Step<O>>)
    requires CanRun(Start(), steps)
    ensures var s := Run(Start(), steps);
            && (s.freed ==> s.caller.Left?)
            && (s.waiter.Returned? ==> s.result == Some(s.waiter.result))
  {
    RunInv<O>(Start(), steps);
  }

  lemma ValueIsKept<O>(s: State<O>, value: O, later: seq<Step<O>>)
    requires Inv(s) && Enabled(s, CallerSets(value)) && CanRun(Apply(s, CallerSets(value)), later)
    ensures var end := Run(Apply(s, CallerSets(value)), later);
            end.waiter.Returned? ==> end.waiter.result == value
  {
    RunInv(Apply(s, CallerSets(value)), later);
    ResultStays(Apply(s, CallerSets(value)), later);
  }

  // No wake-up is lost: until the waiter has returned, some thread can go on; and once the callback has been made it
  // is a thread that has something left to do.
  lemma WaitGoesOn<O>(steps: seq<Step<O>>, value: O)
    requires CanRun(Start(), steps)
    ensures var s := Run(Start(), steps);
            && (!s.waiter.Returned? ==>
                  || Enabled(s, WaiterLocks) || Enabled(s, WaiterTests)
                  || Enabled(s, CallerLocks) || Enabled(s, CallerSets(value))
                  || Enabled(s, CallerNotifies) || Enabled(s, CallerReleases))
            && (s.caller.Left? ==> !s.waiter.Asleep?)
  {
    RunInv<O>(Start(), steps);
  }

  // What is left to do once the callback has been made, spurious wake-ups apart.
  function Work<O>(s: State<O>): nat {
    (match s.caller
     case Pending => 8
     case Setting => 6
     case Notifying => 4
     case Releasing => 2
     case Left => 0)
    + (match s.waiter
       case Arriving => 3
       case Asleep => 3
       case Awake => 2
       case Testing => 1
       case Returned(_) => 0)
  }

  // After the result is set every step that is not a spurious wake-up brings the return nearer.
  lemma WaitEnds<O>(s: State<O>, step: Step<O>)
    requires Inv(s) && s.done && Enabled(s, step)
    ensures Work(Apply(s, step)) < Work(s)
    ensures Work(s) == 0 ==> s.waiter.Returned?
  {
  }
}
