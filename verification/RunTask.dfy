/** Ownership of the background run task: checked and set under a lock, cleared by the task itself. */
module RunTask {
  import opened Text

  type TaskId = nat

  /** `Clearing`: the run is over and pending callbacks are awaited; `Publishing`: the reference has
      been cleared and the final state update is under way. */
  datatype Pc = Running | Clearing | Publishing | Done

  datatype State = State(runTask: Option<TaskId>, tasks: seq<Pc>)

  datatype Action =
    | Request(statusRunning: bool)
    | RunEnds(t: TaskId)
    | Clear(t: TaskId)
    | WaitFails(t: TaskId)
    | PublishEnds(t: TaskId)

  const INIT := State(None, [])

  /** `run()` raises "already running". */
  predicate Refused(s: State, statusRunning: bool)
  {
    statusRunning || (s.runTask.Some? && s.runTask.value < |s.tasks| && !s.tasks[s.runTask.value].Done?)
  }

  predicate Enabled(s: State, a: Action)
  {
    match a
    case Request(_) => true
    case RunEnds(t) => t < |s.tasks| && s.tasks[t].Running?
    case Clear(t) => t < |s.tasks| && s.tasks[t].Clearing?
    case WaitFails(t) => t < |s.tasks| && s.tasks[t].Clearing?
    case PublishEnds(t) => t < |s.tasks| && s.tasks[t].Publishing?
  }

  function Step(s: State, a: Action): State
    requires Enabled(s, a)
  {
    match a
    case Request(statusRunning) =>
      if Refused(s, statusRunning) then s else State(Some(|s.tasks|), s.tasks + [Running])
    case RunEnds(t) => s.(tasks := s.tasks[t := Clearing])
    case Clear(t) => State(None, s.tasks[t := Publishing])
    case WaitFails(t) => s.(tasks := s.tasks[t := Done])
    case PublishEnds(t) => s.(tasks := s.tasks[t := Done])
  }

  function Run(steps: seq<Action>): Option<State>
  {
    if steps == [] then Some(INIT)
    else
      match Run(steps[..|steps| - 1])
      case None => None
      case Some(s) => if Enabled(s, steps[|steps| - 1]) then Some(Step(s, steps[|steps| - 1])) else None
  }

  /** Unfinished and still the owner of the reference. */
  predicate Active(s: State, t: TaskId) { t < |s.tasks| && (s.tasks[t].Running? || s.tasks[t].Clearing?) }

  /** An active task is the one referred to; the reference points to an active task or to one that
      failed while waiting. */
  ghost predicate Owned(s: State)
  {
    && (forall t: TaskId :: Active(s, t) ==> s.runTask == Some(t))
    && (s.runTask.Some? ==> s.runTask.value < |s.tasks| && !s.tasks[s.runTask.value].Publishing?)
  }

  lemma StepKeepsOwned(s: State, a: Action)
    requires Owned(s) && Enabled(s, a)
    ensures Owned(Step(s, a))
  {
    if !a.Request? {
      forall t: TaskId | Active(Step(s, a), t)
          ensures Step(s, a).runTask == Some(t) { assert Active(s, t) && (a.Clear? ==> Active(s, a.t)); }
    } else {
      forall t: TaskId | Active(Step(s, a), t)
          ensures Step(s, a).runTask == Some(t) { assert t < |s.tasks| ==> Active(s, t); }
    }
  }

  lemma {:induction false} RunOwned(steps: seq<Action>)
    requires Run(steps).Some?
    ensures Owned(Run(steps).value)
  {
    hide Owned, Step, Enabled;
    if steps == [] {
      InitOwned();
    } else {
      RunOwned(steps[..|steps| - 1]);
      StepKeepsOwned(Run(steps[..|steps| - 1]).value, steps[|steps| - 1]);
    }
  }

  lemma InitOwned()
    ensures Owned(INIT)
  {
  }

  /** At most one task is active, and it is the one referred to. */
  lemma OneActiveTask(steps: seq<Action>, t: TaskId, u: TaskId)
    requires Run(steps).Some? && Active(Run(steps).value, t) && Active(Run(steps).value, u)
    ensures t == u && Run(steps).value.runTask == Some(t)
  {
    hide Run;
    RunOwned(steps);
  }

  /** A task that clears the reference clears its own: no other task is active before or after. */
  lemma ClearsOnlyItself(steps: seq<Action>, t: TaskId)
    requires Run(steps).Some? && Enabled(Run(steps).value, Clear(t))
    ensures Run(steps).value.runTask == Some(t)
    ensures forall u: TaskId :: !Active(Step(Run(steps).value, Clear(t)), u)
  {
    hide Run;
    RunOwned(steps);
    var s := Run(steps).value;
    assert Active(s, t);
    forall u: TaskId ensures !Active(Step(s, Clear(t)), u) { assert u != t ==> !Active(s, u); }
  }

  /** `run()` is refused iff the conversation reports running or a task is active. */
  lemma RefusedIff(steps: seq<Action>, statusRunning: bool)
    requires Run(steps).Some?
    ensures Refused(Run(steps).value, statusRunning) <==>
        statusRunning || exists t: TaskId :: Active(Run(steps).value, t)
  {
    hide Run;
    RunOwned(steps);
    var s := Run(steps).value;
    if s.runTask.Some? && !s.tasks[s.runTask.value].Done? { assert Active(s, s.runTask.value); }
  }

  /** An accepted request starts a task of its own and tracks it; a refused one changes nothing. */
  lemma RequestStarts(steps: seq<Action>, statusRunning: bool)
    requires Run(steps).Some?
    ensures var s := Run(steps).value;
            var s' := Step(s, Request(statusRunning));
            if Refused(s, statusRunning) then s' == s
            else s'.runTask == Some(|s.tasks|) && Active(s', |s.tasks|) && |s'.tasks| == |s.tasks| + 1
  {
  }

  /** Once its reference is cleared, a finishing task no longer keeps the next run out. */
  lemma ClearedMayRunAgain(steps: seq<Action>, t: TaskId)
    requires Run(steps).Some? && Enabled(Run(steps).value, Clear(t))
    ensures !Refused(Step(Run(steps).value, Clear(t)), false)
  {
  }

  class EventService {
    var runTask: Option<TaskId>
    var tasks: seq<Pc>

    function Current(): State
      reads this
    {
      State(runTask, tasks)
    }

    constructor ()
      ensures Current() == INIT
    {
      runTask, tasks := None, [];
    }

    /** The body of `run()` inside the run lock; there is no await in it. */
    method RequestRun(statusRunning: bool) returns (accepted: bool)
      modifies this
      ensures Current() == Step(old(Current()), Request(statusRunning))
      ensures accepted == !Refused(old(Current()), statusRunning)
    {
      if statusRunning { return false; }
      if runTask.Some? && runTask.value < |tasks| && !tasks[runTask.value].Done? { return false; }
      tasks := tasks + [Running];
      runTask := Some(|tasks| - 1);
      return true;
    }

    /** The `finally` block once pending events are out. */
    method ClearReference(t: TaskId)
      requires Enabled(Current(), Clear(t))
      modifies this
      ensures Current() == Step(old(Current()), Clear(t))
    {
      runTask := None;
      tasks := tasks[t := Publishing];
    }
  }
}
