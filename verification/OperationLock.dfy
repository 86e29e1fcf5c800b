/** The lock that serializes the operations of one installation lifecycle: a waiting task is
    handed the lock by the task that gives it up. */
module OperationLock {
  import opened Push

  // granted lists the tasks in the order they obtained the lock, arrived in the order they
  // asked for it; a task may ask again later.
  datatype State = State(isLocked: bool, waiters: seq<nat>, holder: Option<nat>, arrived: seq<nat>, granted: seq<nat>)

  datatype Step = Acquire(task: nat) | Release

  const FREE: State := State(false, [], None, [], [])

  function Apply(s: State, step: Step): State {
    match step
    case Acquire(task) =>
      if !s.isLocked then State(true, s.waiters, Some(task), s.arrived + [task], s.granted + [task])
      else s.(waiters := s.waiters + [task], arrived := s.arrived + [task])
    case Release =>
      if s.waiters == [] then s.(isLocked := false, holder := None)
      else s.(waiters := s.waiters[1..], holder := Some(s.waiters[0]), granted := s.granted + [s.waiters[0]])
  }

  // Only the task that holds the lock gives it up.
  predicate Allowed(s: State, step: Step) {
    step.Release? ==> s.holder.Some?
  }

  predicate Run(s: State, steps: seq<Step>)
    decreases steps
  {
    steps == [] || (Allowed(s, steps[0]) && Run(Apply(s, steps[0]), steps[1..]))
  }

  function Exec(s: State, steps: seq<Step>): State
    decreases steps
  {
    if steps == [] then s else Exec(Apply(s, steps[0]), steps[1..])
  }

  predicate Inv(s: State) {
    && (s.isLocked <==> s.holder.Some?)
    && (s.waiters != [] ==> s.isLocked)
    && s.arrived == s.granted + s.waiters
    && (s.holder.Some? ==> s.granted != [] && s.granted[|s.granted| - 1] == s.holder.value)
  }

  lemma {:induction false} RunKeepsInv(s: State, steps: seq<Step>)
    requires Inv(s) && Run(s, steps)
    ensures Inv(Exec(s, steps))
    decreases steps
  {
    if steps != [] {
      RunKeepsInv(Apply(s, steps[0]), steps[1..]);
    }
  }

  // The number of tasks that have given the lock up.
  function Releases(steps: seq<Step>): nat {
    if steps == [] then 0 else (if steps[0].Release? then 1 else 0) + Releases(steps[1..])
  }

  lemma {:induction false} GrantsMinusReleases(s: State, steps: seq<Step>)
    requires Inv(s) && Run(s, steps)
    ensures |Exec(s, steps).granted| - Releases(steps) - |s.granted|
            == (if Exec(s, steps).holder.Some? then 1 else 0) - (if s.holder.Some? then 1 else 0)
    decreases steps
  {
    if steps != [] {
      GrantsMinusReleases(Apply(s, steps[0]), steps[1..]);
    }
  }

  // The lock is granted in arrival order, to one task at a time: all grants but at most one
  // have been given up again; and it is marked free exactly when nobody holds it or waits.
  lemma Exclusive(steps: seq<Step>)
    requires Run(FREE, steps)
    ensures var s := Exec(FREE, steps);
            && s.granted <= s.arrived
            && Releases(steps) <= |s.granted| <= Releases(steps) + 1
            && (|s.granted| == Releases(steps) + 1 <==> s.isLocked)
            && (!s.isLocked <==> s.holder.None? && s.waiters == [])
            && (!s.isLocked ==> s.granted == s.arrived)
  {
    RunKeepsInv(FREE, steps);
    GrantsMinusReleases(FREE, steps);
  }

  class Lock {
    var isLocked: bool
    var waiters: seq<nat>
    ghost var holder: Option<nat>
    ghost var arrived: seq<nat>
    ghost var granted: seq<nat>

    ghost function Contents(): State
      reads this
    {
      State(isLocked, waiters, holder, arrived, granted)
    }

    constructor ()
      ensures Contents() == FREE
    {
      isLocked, waiters, holder, arrived, granted := false, [], None, [], [];
    }

    // suspended: the task waits until it is handed the lock.
    method Acquire(task: nat) returns (suspended: bool)
      modifies this
      ensures Contents() == Apply(old(Contents()), Step.Acquire(task))
      ensures suspended <==> old(isLocked)
    {
      arrived := arrived + [task];
      if !isLocked {
        isLocked := true;
        holder, granted := Some(task), granted + [task];
        return false;
      }
      waiters := waiters + [task];
      suspended := true;
    }

    // resumed: the task that now holds the lock.
    method Release() returns (resumed: Option<nat>)
      requires holder.Some?
      modifies this
      ensures Contents() == Apply(old(Contents()), Step.Release)
      ensures resumed == holder
    {
      if |waiters| == 0 {
        isLocked, holder := false, None;
        return None;
      }
      var next := waiters[0];
      waiters := waiters[1..];
      holder, granted := Some(next), granted + [next];
      resumed := Some(next);
    }
  }
}
