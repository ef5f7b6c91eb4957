/** The buffering webhook subscriber as an event-loop machine: one step is one stretch of code
    between two awaits. */
module Webhook {
  import opened Text

  type Event = nat

  type TaskId = nat

  datatype Config = Config(bufferSize: nat, numRetries: nat)

  /** Only flush timers are ever cancelled. */
  datatype Role = Caller | Timer

  datatype Pc =
    | Created
    | Asleep
    | Posting(batch: seq<Event>, attempt: nat)
    | Pausing(batch: seq<Event>, attempt: nat)
    | Done

  datatype Task = Task(role: Role, pc: Pc, cancelled: bool)

  /** `received`, `delivered` and `lost` record what happened to events; `lost` are those dropped
      when a cancellation interrupts a post. */
  datatype State = State(
    queue: seq<Event>,
    timer: Option<TaskId>,
    tasks: seq<Task>,
    received: multiset<Event>,
    delivered: multiset<Event>,
    lost: multiset<Event>)

  datatype Action =
    | Receive(e: Event)
    | Close
    | Start(t: TaskId)
    | Fire(t: TaskId)
    | PostOk(t: TaskId)
    | PostFail(t: TaskId)
    | Retry(t: TaskId)
    | Interrupted(t: TaskId)

  const INIT := State([], None, [], multiset{}, multiset{}, multiset{})

  /** How often `e` occurs in the batch a task is posting. */
  function HeldBy(task: Task, e: Event): nat
  {
    if task.pc.Posting? || task.pc.Pausing? then multiset(task.pc.batch)[e] else 0
  }

  function Held(tasks: seq<Task>, e: Event): nat
  {
    if tasks == [] then 0 else Held(tasks[..|tasks| - 1], e) + HeldBy(tasks[|tasks| - 1], e)
  }

  // ---------- the code ----------

  /** `_cancel_flush_timer` */
  function CancelTimer(s: State): State
  {
    var tasks := if s.timer.Some? && s.timer.value < |s.tasks| && !s.tasks[s.timer.value].pc.Done?
      then s.tasks[s.timer.value := s.tasks[s.timer.value].(cancelled := true)] else s.tasks;
    s.(tasks := tasks, timer := None)
  }

  /** The first stretch of `_post_events`, run by a task that is not in the list yet. */
  function PostByNewTask(s: State): State
  {
    if s.queue == [] then s
    else s.(tasks := s.tasks + [Task(Caller, Posting(s.queue, 0), false)], queue := [])
  }

  /** `__call__` up to its first await. */
  function ReceiveEvent(cfg: Config, s: State, e: Event): State
  {
    var s1 := s.(queue := s.queue + [e], received := s.received + multiset{e});
    if |s1.queue| >= cfg.bufferSize then PostByNewTask(CancelTimer(s1))
    else if s1.timer.None? then s1.(tasks := s1.tasks + [Task(Timer, Created, false)], timer := Some(|s1.tasks|))
    else s1
  }

  /** A task ends; a flush timer clears the reference in its `finally`. */
  function End(s: State, t: TaskId): State
    requires t < |s.tasks|
  {
    s.(tasks := s.tasks[t := s.tasks[t].(pc := Done)], timer := if s.tasks[t].role.Timer? then None else s.timer)
  }

  function MoveTo(s: State, t: TaskId, pc: Pc): State
    requires t < |s.tasks|
  {
    s.(tasks := s.tasks[t := s.tasks[t].(pc := pc)])
  }

  /** What a task drops when the cancellation reaches it: its batch, if it is in a post. */
  function InterruptedBatch(pc: Pc): multiset<Event>
  {
    if pc.Posting? || pc.Pausing? then multiset(pc.batch) else multiset{}
  }

  predicate Enabled(cfg: Config, s: State, a: Action)
  {
    match a
    case Receive(_) => true
    case Close => true
    case Start(t) => t < |s.tasks| && s.tasks[t].pc.Created?
    case Fire(t) => t < |s.tasks| && s.tasks[t].pc.Asleep? && !s.tasks[t].cancelled
    case PostOk(t) => t < |s.tasks| && s.tasks[t].pc.Posting? && !s.tasks[t].cancelled
    case PostFail(t) => t < |s.tasks| && s.tasks[t].pc.Posting? && !s.tasks[t].cancelled
    case Retry(t) => t < |s.tasks| && s.tasks[t].pc.Pausing? && !s.tasks[t].cancelled
    case Interrupted(t) => t < |s.tasks| && !s.tasks[t].pc.Created? && !s.tasks[t].pc.Done? && s.tasks[t].cancelled
  }

  function Step(cfg: Config, s: State, a: Action): State
    requires Enabled(cfg, s, a)
  {
    match a
    case Receive(e) => ReceiveEvent(cfg, s, e)
    case Close => PostByNewTask(CancelTimer(s))
    case Start(t) => if s.tasks[t].cancelled then MoveTo(s, t, Done) else MoveTo(s, t, Asleep)
    case Fire(t) =>
      if s.queue == [] then End(s, t) else MoveTo(s, t, Posting(s.queue, 0)).(queue := [])
    case PostOk(t) => End(s, t).(delivered := s.delivered + multiset(s.tasks[t].pc.batch))
    case PostFail(t) =>
      var pc := s.tasks[t].pc;
      if pc.attempt < cfg.numRetries then MoveTo(s, t, Pausing(pc.batch, pc.attempt))
      else End(s, t).(queue := s.queue + pc.batch)
    case Retry(t) => MoveTo(s, t, Posting(s.tasks[t].pc.batch, s.tasks[t].pc.attempt + 1))
    case Interrupted(t) => End(s, t).(lost := s.lost + InterruptedBatch(s.tasks[t].pc))
  }

  /** A run from the start, if every step is enabled when its turn comes. */
  function Run(cfg: Config, steps: seq<Action>): Option<State>
  {
    if steps == [] then Some(INIT)
    else
      match Run(cfg, steps[..|steps| - 1])
      case None => None
      case Some(s) =>
        var a := steps[|steps| - 1];
        if Enabled(cfg, s, a) then Some(Step(cfg, s, a)) else None
  }

  // ---------- conservation, counting what is dropped ----------

  lemma {:induction false} HeldUpdate(tasks: seq<Task>, i: nat, task: Task, e: Event)
    requires i < |tasks|
    ensures Held(tasks[i := task], e) + HeldBy(tasks[i], e) == Held(tasks, e) + HeldBy(task, e)
  {
    hide HeldBy;
    var init := tasks[..|tasks| - 1];
    if i < |tasks| - 1 {
      assert tasks[i := task][..|tasks| - 1] == init[i := task];
      HeldUpdate(init, i, task, e);
    } else {
      assert tasks[i := task][..|tasks| - 1] == init;
    }
  }

  lemma HeldAppend(tasks: seq<Task>, task: Task, e: Event)
    ensures Held(tasks + [task], e) == Held(tasks, e) + HeldBy(task, e)
  {
    assert (tasks + [task])[..|tasks|] == tasks;
  }

  /** Occurrences of `e` add up. */
  ghost predicate ConservedFor(s: State, e: Event)
  {
    s.received[e] == s.delivered[e] + Held(s.tasks, e) + multiset(s.queue)[e] + s.lost[e]
  }

  /** The tracked timer is a running timer that has not been cancelled; only timers wait or are
      cancelled; batches are never empty. */
  ghost predicate Orderly(s: State)
  {
    && (s.timer.Some? ==>
          var t := s.timer.value;
          t < |s.tasks| && s.tasks[t].role.Timer? && !s.tasks[t].cancelled && !s.tasks[t].pc.Done?)
    && forall i :: 0 <= i < |s.tasks| ==>
         && (s.tasks[i].cancelled ==> s.tasks[i].role.Timer?)
         && (s.tasks[i].pc.Created? || s.tasks[i].pc.Asleep? ==> s.tasks[i].role.Timer?)
         && (s.tasks[i].pc.Posting? || s.tasks[i].pc.Pausing? ==> s.tasks[i].pc.batch != [])
  }

  lemma CancelTimerKeeps(s: State, e: Event)
    requires ConservedFor(s, e) && Orderly(s)
    ensures ConservedFor(CancelTimer(s), e) && Orderly(CancelTimer(s))
  {
    hide Held;
    if s.timer.Some? { HeldUpdate(s.tasks, s.timer.value, s.tasks[s.timer.value].(cancelled := true), e); }
  }

  lemma PostByNewTaskKeeps(s: State, e: Event)
    requires ConservedFor(s, e) && Orderly(s)
    ensures ConservedFor(PostByNewTask(s), e) && Orderly(PostByNewTask(s))
  {
    hide Held;
    HeldAppend(s.tasks, Task(Caller, Posting(s.queue, 0), false), e);
  }

  lemma ReceiveKeeps(cfg: Config, s: State, event: Event, e: Event)
    requires ConservedFor(s, e) && Orderly(s)
    ensures ConservedFor(ReceiveEvent(cfg, s, event), e) && Orderly(ReceiveEvent(cfg, s, event))
  {
    hide Held;
    var s1 := s.(queue := s.queue + [event], received := s.received + multiset{event});
    assert ConservedFor(s1, e) && Orderly(s1);
    if |s1.queue| >= cfg.bufferSize {
      CancelTimerKeeps(s1, e);
      PostByNewTaskKeeps(CancelTimer(s1), e);
    } else {
      HeldAppend(s1.tasks, Task(Timer, Created, false), e);
    }
  }

  lemma MoveKeeps(s: State, t: TaskId, pc: Pc, queue: seq<Event>, e: Event)
    requires ConservedFor(s, e) && t < |s.tasks|
    requires HeldBy(s.tasks[t].(pc := pc), e) + multiset(queue)[e] == HeldBy(s.tasks[t], e) + multiset(s.queue)[e]
    ensures ConservedFor(MoveTo(s, t, pc).(queue := queue), e)
  {
    hide Held, HeldBy;
    HeldUpdate(s.tasks, t, s.tasks[t].(pc := pc), e);
  }

  lemma EndKeeps(s: State, t: TaskId, queue: seq<Event>, delivered: multiset<Event>, lost: multiset<Event>, e: Event)
    requires ConservedFor(s, e) && t < |s.tasks|
    requires delivered[e] + lost[e] + multiset(queue)[e] ==
             s.delivered[e] + s.lost[e] + multiset(s.queue)[e] + HeldBy(s.tasks[t], e)
    ensures ConservedFor(End(s, t).(queue := queue, delivered := delivered, lost := lost), e)
  {
    hide Held;
    HeldUpdate(s.tasks, t, s.tasks[t].(pc := Done), e);
  }

  lemma TaskStepKeeps(cfg: Config, s: State, a: Action, e: Event)
    requires ConservedFor(s, e) && Enabled(cfg, s, a) && !a.Receive? && !a.Close?
    ensures ConservedFor(Step(cfg, s, a), e)
  {
    hide Held, ConservedFor;
    match a
    case Start(t) => MoveKeeps(s, t, Done, s.queue, e); MoveKeeps(s, t, Asleep, s.queue, e);
    case Fire(t) =>
      if s.queue == [] { EndKeeps(s, t, s.queue, s.delivered, s.lost, e); }
      else { MoveKeeps(s, t, Posting(s.queue, 0), [], e); }
    case PostOk(t) => EndKeeps(s, t, s.queue, s.delivered + multiset(s.tasks[t].pc.batch), s.lost, e);
    case PostFail(t) =>
      var batch, attempt := s.tasks[t].pc.batch, s.tasks[t].pc.attempt;
      if attempt < cfg.numRetries { MoveKeeps(s, t, Pausing(batch, attempt), s.queue, e); }
      else { EndKeeps(s, t, s.queue + batch, s.delivered, s.lost, e); }
    case Retry(t) => MoveKeeps(s, t, Posting(s.tasks[t].pc.batch, s.tasks[t].pc.attempt + 1), s.queue, e);
    case Interrupted(t) => EndKeeps(s, t, s.queue, s.delivered, s.lost + InterruptedBatch(s.tasks[t].pc), e);
  }

  lemma TaskStepOrderly(cfg: Config, s: State, a: Action)
    requires Orderly(s) && Enabled(cfg, s, a) && !a.Receive? && !a.Close?
    ensures Orderly(Step(cfg, s, a))
  {
    hide Orderly;
    TaskIsOrderly(s, a.t);
    match a
    case Start(t) => MoveOrderly(s, t, if s.tasks[t].cancelled then Done else Asleep);
    case Fire(t) =>
      if s.queue == [] { EndOrderly(s, t); } else { MoveOrderly(s, t, Posting(s.queue, 0)); }
      OnlyTasksMatter(Step(cfg, s, a), if s.queue == [] then End(s, t) else MoveTo(s, t, Posting(s.queue, 0)));
    case PostOk(t) => EndOrderly(s, t); OnlyTasksMatter(Step(cfg, s, a), End(s, t));
    case PostFail(t) =>
      var pc := s.tasks[t].pc;
      if pc.attempt < cfg.numRetries {
        MoveOrderly(s, t, Pausing(pc.batch, pc.attempt));
      } else {
        EndOrderly(s, t);
        OnlyTasksMatter(Step(cfg, s, a), End(s, t));
      }
    case Retry(t) => MoveOrderly(s, t, Posting(s.tasks[t].pc.batch, s.tasks[t].pc.attempt + 1));
    case Interrupted(t) => EndOrderly(s, t); OnlyTasksMatter(Step(cfg, s, a), End(s, t));
  }

  lemma TaskIsOrderly(s: State, t: TaskId)
    requires Orderly(s) && t < |s.tasks|
    ensures var task := s.tasks[t];
            && (s.timer == Some(t) ==> !task.cancelled)
            && (task.pc.Created? ==> task.role.Timer?)
            && (task.pc.Posting? || task.pc.Pausing? ==> task.pc.batch != [])
  {
  }

  lemma OnlyTasksMatter(a: State, b: State)
    requires Orderly(b) && a.tasks == b.tasks && a.timer == b.timer
    ensures Orderly(a)
  {
  }

  lemma MoveOrderly(s: State, t: TaskId, pc: Pc)
    requires Orderly(s) && t < |s.tasks|
    requires pc.Done? ==> s.timer != Some(t)
    requires pc.Created? || pc.Asleep? ==> s.tasks[t].role.Timer?
    requires pc.Posting? || pc.Pausing? ==> pc.batch != []
    ensures Orderly(MoveTo(s, t, pc))
  {
  }

  lemma EndOrderly(s: State, t: TaskId)
    requires Orderly(s) && t < |s.tasks|
    ensures Orderly(End(s, t))
  {
  }

  /** Every event received is delivered, in a batch being posted, queued, or dropped by a
      cancellation, as often as it came. */
  lemma {:induction false} RunConserves(cfg: Config, steps: seq<Action>, e: Event)
    requires Run(cfg, steps).Some?
    ensures ConservedFor(Run(cfg, steps).value, e) && Orderly(Run(cfg, steps).value)
  {
    hide ConservedFor, Orderly, Enabled;
    if steps == [] {
      StartsConserved(e);
    } else {
      var s, a := Run(cfg, steps[..|steps| - 1]).value, steps[|steps| - 1];
      RunConserves(cfg, steps[..|steps| - 1], e);
      match a
      case Receive(event) => ReceiveKeeps(cfg, s, event, e);
      case Close => CancelTimerKeeps(s, e); PostByNewTaskKeeps(CancelTimer(s), e);
      case _ => TaskStepKeeps(cfg, s, a, e); TaskStepOrderly(cfg, s, a);
    }
  }

  lemma StartsConserved(e: Event)
    ensures ConservedFor(INIT, e) && Orderly(INIT)
  {
  }

  // ---------- exactly when nothing is dropped ----------

  /** The batch of a cancelled task is doomed: its next step drops it. */
  function DoomedIn(task: Task, e: Event): nat { if task.cancelled then HeldBy(task, e) else 0 }

  function Doomed(tasks: seq<Task>, e: Event): nat
  {
    if tasks == [] then 0 else Doomed(tasks[..|tasks| - 1], e) + DoomedIn(tasks[|tasks| - 1], e)
  }

  function Dropped(s: State, e: Event): nat { s.lost[e] + Doomed(s.tasks, e) }

  /** The strict law: delivered, in a batch that will yet be delivered or requeued, or queued. */
  ghost predicate StrictlyConserved(s: State)
  {
    forall e :: s.received[e] == s.delivered[e] + (Held(s.tasks, e) - Doomed(s.tasks, e)) + multiset(s.queue)[e]
  }

  /** The step cancels a flush timer that is in the middle of its own post. */
  predicate CancelsPost(cfg: Config, s: State, a: Action)
  {
    && (a.Close? || (a.Receive? && |s.queue| + 1 >= cfg.bufferSize))
    && s.timer.Some? && s.timer.value < |s.tasks|
    && (s.tasks[s.timer.value].pc.Posting? || s.tasks[s.timer.value].pc.Pausing?)
  }

  predicate RunCancelsPost(cfg: Config, steps: seq<Action>)
  {
    steps != [] &&
    (RunCancelsPost(cfg, steps[..|steps| - 1]) ||
     (Run(cfg, steps[..|steps| - 1]).Some? &&
      CancelsPost(cfg, Run(cfg, steps[..|steps| - 1]).value, steps[|steps| - 1])))
  }

  lemma {:induction false} DoomedUpdate(tasks: seq<Task>, i: nat, task: Task, e: Event)
    requires i < |tasks|
    ensures Doomed(tasks[i := task], e) + DoomedIn(tasks[i], e) == Doomed(tasks, e) + DoomedIn(task, e)
  {
    hide DoomedIn;
    var init := tasks[..|tasks| - 1];
    if i < |tasks| - 1 {
      assert tasks[i := task][..|tasks| - 1] == init[i := task];
      DoomedUpdate(init, i, task, e);
    } else {
      assert tasks[i := task][..|tasks| - 1] == init;
    }
  }

  lemma DoomedAppend(tasks: seq<Task>, task: Task, e: Event)
    ensures Doomed(tasks + [task], e) == Doomed(tasks, e) + DoomedIn(task, e)
  {
    assert (tasks + [task])[..|tasks|] == tasks;
  }

  function TimerBatch(s: State, e: Event): nat
  {
    if s.timer.Some? && s.timer.value < |s.tasks| then HeldBy(s.tasks[s.timer.value], e) else 0
  }

  lemma CancelDooms(s: State, e: Event)
    requires Orderly(s)
    ensures Dropped(CancelTimer(s), e) == Dropped(s, e) + TimerBatch(s, e) && CancelTimer(s).queue == s.queue
  {
    hide Doomed;
    if s.timer.Some? { DoomedUpdate(s.tasks, s.timer.value, s.tasks[s.timer.value].(cancelled := true), e); }
  }

  /** A step drops exactly the batch of the timer whose post it cancels. */
  lemma StepDrops(cfg: Config, s: State, a: Action, e: Event)
    requires Orderly(s) && Enabled(cfg, s, a)
    ensures Dropped(Step(cfg, s, a), e) == Dropped(s, e) + if CancelsPost(cfg, s, a) then TimerBatch(s, e) else 0
  {
    hide Doomed;
    match a
    case Receive(event) =>
      var s1 := s.(queue := s.queue + [event], received := s.received + multiset{event});
      assert Orderly(s1);
      CancelDooms(s1, e);
      DoomedAppend(CancelTimer(s1).tasks, Task(Caller, Posting(s1.queue, 0), false), e);
      DoomedAppend(s1.tasks, Task(Timer, Created, false), e);
    case Close =>
      CancelDooms(s, e);
      DoomedAppend(CancelTimer(s).tasks, Task(Caller, Posting(s.queue, 0), false), e);
    case _ => TaskStepDrops(cfg, s, a, e);
  }

  /** A task's own step drops nothing that was not doomed. */
  lemma TaskStepDrops(cfg: Config, s: State, a: Action, e: Event)
    requires Orderly(s) && Enabled(cfg, s, a) && TaskStep(a)
    ensures Dropped(Step(cfg, s, a), e) == Dropped(s, e)
  {
    hide Doomed, DoomedIn, Step, Orderly;
    TaskStepChanges(cfg, s, a, e);
    DoomedUpdate(s.tasks, a.t, Step(cfg, s, a).tasks[a.t], e);
  }

  lemma TaskStepChanges(cfg: Config, s: State, a: Action, e: Event)
    requires Orderly(s) && Enabled(cfg, s, a) && TaskStep(a)
    ensures var s' := Step(cfg, s, a);
            && a.t < |s.tasks| == |s'.tasks| && s'.tasks == s.tasks[a.t := s'.tasks[a.t]]
            && s'.lost[e] + DoomedIn(s'.tasks[a.t], e) == s.lost[e] + DoomedIn(s.tasks[a.t], e)
  {
  }

  lemma CancelledPostHasEvents(cfg: Config, s: State, a: Action) returns (e: Event)
    requires Orderly(s) && CancelsPost(cfg, s, a)
    ensures TimerBatch(s, e) > 0
  {
    var batch := s.tasks[s.timer.value].pc.batch;
    e := batch[0];
    assert e in multiset(batch);
  }

  lemma {:induction false} RunDropsIff(cfg: Config, steps: seq<Action>)
    requires Run(cfg, steps).Some?
    ensures (exists e :: Dropped(Run(cfg, steps).value, e) > 0) <==> RunCancelsPost(cfg, steps)
  {
    hide Enabled, Step, CancelsPost, Dropped, Orderly, ConservedFor, TimerBatch;
    if steps == [] {
      forall e ensures Dropped(INIT, e) == 0 { StartsWithNothingDropped(e); }
    } else {
      var before := steps[..|steps| - 1];
      var s, a := Run(cfg, before).value, steps[|steps| - 1];
      RunConserves(cfg, before, 0);
      RunDropsIff(cfg, before);
      forall e ensures Dropped(Run(cfg, steps).value, e) == Dropped(s, e) + if CancelsPost(cfg, s, a) then
          TimerBatch(s, e) else 0 {
        StepDrops(cfg, s, a, e);
      }
      if CancelsPost(cfg, s, a) {
        var e := CancelledPostHasEvents(cfg, s, a);
        assert Dropped(Run(cfg, steps).value, e) > 0;
      }
    }
  }

  lemma StartsWithNothingDropped(e: Event)
    ensures Dropped(INIT, e) == 0
  {
  }

  /** The strict law holds after a run iff no step of it cancelled a timer during its own post. */
  lemma StrictIffNoPostCancelled(cfg: Config, steps: seq<Action>)
    requires Run(cfg, steps).Some?
    ensures StrictlyConserved(Run(cfg, steps).value) <==> !RunCancelsPost(cfg, steps)
  {
    hide Run, RunCancelsPost, Orderly, Held, Doomed;
    var s := Run(cfg, steps).value;
    forall e ensures ConservedFor(s, e) { RunConserves(cfg, steps, e); }
    RunDropsIff(cfg, steps);
    if !RunCancelsPost(cfg, steps) {
      forall e ensures s.received[e] ==
          s.delivered[e] + (Held(s.tasks, e) - Doomed(s.tasks, e)) + multiset(s.queue)[e] {
        assert ConservedFor(s, e) && !(Dropped(s, e) > 0);
      }
    } else {
      var e :| Dropped(s, e) > 0;
      assert ConservedFor(s, e);
    }
  }

  // ---------- events nobody is going to flush ----------

  /** A flush timer that will look at the queue when its delay is over. A task in a post will not: its
      batch is fixed. */
  predicate Waiting(task: Task) { task.role.Timer? && !task.cancelled && (task.pc.Created? || task.pc.Asleep?) }

  ghost predicate SomeWaiting(s: State) { exists i :: 0 <= i < |s.tasks| && Waiting(s.tasks[i]) }

  /** A non-empty queue has a waiting flush timer. */
  ghost predicate Attended(s: State) { s.queue == [] || SomeWaiting(s) }

  predicate TaskStep(a: Action) { !a.Receive? && !a.Close? }

  predicate Fills(cfg: Config, s: State, a: Action) { a.Receive? && |s.queue| + 1 >= cfg.bufferSize }

  predicate Exhausts(cfg: Config, s: State, a: Action)
  {
    && a.PostFail? && a.t < |s.tasks| && s.tasks[a.t].pc.Posting?
    && s.tasks[a.t].pc.attempt >= cfg.numRetries
  }

  /** The step leaves events to nobody: an arrival while the tracked timer is in its own post, or a
      batch put back after the last retry, with no other timer waiting. */
  ghost predicate Strands(cfg: Config, s: State, a: Action)
  {
    !SomeWaiting(s) && ((a.Receive? && !Fills(cfg, s, a) && s.timer.Some?) || Exhausts(cfg, s, a))
  }

  /** The step takes care of stranded events: an arrival that fills the buffer or gets a new timer, or
      the close. */
  predicate Rescues(cfg: Config, s: State, a: Action)
  {
    a.Close? || (a.Receive? && (Fills(cfg, s, a) || s.timer.None?))
  }

  /** The last stranding step of a run has not been followed by a rescuing one. */
  ghost predicate RunStrands(cfg: Config, steps: seq<Action>)
  {
    steps != [] &&
    var before, a := steps[..|steps| - 1], steps[|steps| - 1];
    Run(cfg, before).Some? &&
    if RunStrands(cfg, before) then !Rescues(cfg, Run(cfg, before).value, a)
    else Strands(cfg, Run(cfg, before).value, a)
  }

  /** An arrival is attended iff it fills the buffer, no timer is tracked, or some timer waits. */
  lemma ArrivalAttendedIff(cfg: Config, s: State, e: Event)
    requires Orderly(s)
    ensures Attended(Step(cfg, s, Receive(e))) <==>
            Fills(cfg, s, Receive(e)) || s.timer.None? || SomeWaiting(s)
  {
    var s' := Step(cfg, s, Receive(e));
    if !Fills(cfg, s, Receive(e)) {
      if s.timer.None? {
        assert Waiting(s'.tasks[|s.tasks|]);
      } else {
        assert s'.tasks == s.tasks;
      }
    }
  }

  /** Whether some timer waits is changed by no task step over a queue that is left non-empty. */
  lemma TaskStepWaiting(cfg: Config, s: State, a: Action)
    requires Enabled(cfg, s, a) && TaskStep(a) && Step(cfg, s, a).queue != []
    ensures SomeWaiting(Step(cfg, s, a)) <==> SomeWaiting(s)
  {
    var s' := Step(cfg, s, a);
    assert |s'.tasks| == |s.tasks| && Waiting(s'.tasks[a.t]) == Waiting(s.tasks[a.t]);
    assert forall i :: 0 <= i < |s.tasks| ==> Waiting(s'.tasks[i]) == Waiting(s.tasks[i]);
  }

  lemma TaskStepQueue(cfg: Config, s: State, a: Action)
    requires Orderly(s) && Enabled(cfg, s, a) && TaskStep(a)
    ensures s.queue <= Step(cfg, s, a).queue || Step(cfg, s, a).queue == []
    ensures !SomeWaiting(s) ==> s.queue <= Step(cfg, s, a).queue
    ensures Exhausts(cfg, s, a) ==> Step(cfg, s, a).queue != []
    ensures !Exhausts(cfg, s, a) ==> Step(cfg, s, a).queue == s.queue || Step(cfg, s, a).queue == []
  {
  }

  /** A step leaves the queue unattended iff it strands events, or they were stranded and it does not
      rescue them. */
  lemma UnattendedStepIff(cfg: Config, s: State, a: Action)
    requires Orderly(s) && Enabled(cfg, s, a)
    ensures !Attended(Step(cfg, s, a)) <==> Strands(cfg, s, a) || (!Attended(s) && !Rescues(cfg, s, a))
  {
    hide Step, Enabled, Orderly, SomeWaiting;
    match a
    case Receive(e) => ArrivalAttendedIff(cfg, s, e);
    case Close => CloseEmpties(cfg, s);
    case _ =>
      TaskStepQueue(cfg, s, a);
      if Step(cfg, s, a).queue != [] { TaskStepWaiting(cfg, s, a); }
  }

  lemma CloseEmpties(cfg: Config, s: State)
    ensures Step(cfg, s, Close).queue == []
  {
  }

  /** After a run the queue holds events no timer will flush iff its last stranding step has not been
      followed by a rescuing one. */
  lemma {:induction false} UnattendedIff(cfg: Config, steps: seq<Action>)
    requires Run(cfg, steps).Some?
    ensures !Attended(Run(cfg, steps).value) <==> RunStrands(cfg, steps)
  {
    hide Enabled, Step, Attended, Strands, Rescues, Orderly, ConservedFor;
    if steps == [] {
      StartsAttended();
    } else {
      var before := steps[..|steps| - 1];
      RunConserves(cfg, before, 0);
      UnattendedIff(cfg, before);
      var s, a := Run(cfg, before).value, steps[|steps| - 1];
      UnattendedStepIff(cfg, s, a);
      NotBoth(cfg, s, a);
    }
  }

  lemma StartsAttended()
    ensures Attended(INIT)
  {
  }

  lemma NotBoth(cfg: Config, s: State, a: Action)
    ensures !(Strands(cfg, s, a) && Rescues(cfg, s, a))
  {
  }

  /** Further steps from a state, none of them an arrival or the close. */
  function TaskRun(cfg: Config, s: State, more: seq<Action>): Option<State>
    decreases |more|
  {
    if more == [] then Some(s)
    else if Enabled(cfg, s, more[0]) && TaskStep(more[0]) then TaskRun(cfg, Step(cfg, s, more[0]), more[1..])
    else None
  }

  /** Stranded events stay where they are, in order, whatever the tasks do: only another arrival or the
      close can move them. */
  lemma {:induction false} UnattendedStays(cfg: Config, s: State, more: seq<Action>)
    requires Orderly(s) && !Attended(s)
    ensures var after := TaskRun(cfg, s, more);
            after.Some? ==> s.queue <= after.value.queue && !Attended(after.value)
    decreases |more|
  {
    hide Enabled, Step, SomeWaiting, Orderly, Strands;
    if more != [] && Enabled(cfg, s, more[0]) && TaskStep(more[0]) {
      UnattendedStepIff(cfg, s, more[0]);
      TaskStepQueue(cfg, s, more[0]);
      TaskStepOrderly(cfg, s, more[0]);
      UnattendedStays(cfg, Step(cfg, s, more[0]), more[1..]);
    }
  }

  /** A waiting timer needs no help: its own steps take the whole queue into a post. */
  lemma AttendedCanFlush(cfg: Config, s: State) returns (t: TaskId, steps: seq<Action>)
    requires Orderly(s) && Attended(s) && s.queue != []
    ensures t < |s.tasks| && (steps == [Fire(t)] || steps == [Start(t), Fire(t)])
    ensures Enabled(cfg, s, steps[0])
    ensures |steps| == 1 ==> Step(cfg, s, steps[0]).queue == []
    ensures |steps| == 2 ==>
              && Enabled(cfg, Step(cfg, s, steps[0]), steps[1])
              && Step(cfg, Step(cfg, s, steps[0]), steps[1]).queue == []
  {
    t :| 0 <= t < |s.tasks| && Waiting(s.tasks[t]);
    steps := if s.tasks[t].pc.Asleep? then [Fire(t)] else [Start(t), Fire(t)];
  }

  // ---------- both ways of stranding ----------

  /** An event that arrives while the flush timer is posting gets no timer of its own. */
  lemma StrandedByArrival(cfg: Config, first: Event, second: Event)
    requires cfg.bufferSize > 1
    ensures var steps := [Receive(first)] + [Start(0)] + [Fire(0)] + [Receive(second)];
            && Run(cfg, steps).Some?
            && Run(cfg, steps).value.queue == [second]
            && !Attended(Run(cfg, steps).value)
  {
    var steps, s3 := PostingSteps(cfg, first);
    var s4 := ShapeReceives(cfg, s3, second, Posting([first], 0));
    assert !SomeWaiting(s4);
    OneStep(cfg, steps, Receive(second), s3, s4);
  }

  /** A batch put back after its last retry has no timer either, although nothing else arrived. */
  lemma StrandedByFailure(cfg: Config, event: Event)
    requires cfg.bufferSize > 1 && cfg.numRetries == 0
    ensures var steps := [Receive(event)] + [Start(0)] + [Fire(0)] + [PostFail(0)];
            && Run(cfg, steps).Some?
            && Run(cfg, steps).value.queue == [event]
            && !Attended(Run(cfg, steps).value)
  {
    var steps, s3 := PostingSteps(cfg, event);
    var s4 := Step(cfg, s3, PostFail(0));
    assert s4.queue == [event] && s4.tasks == [Task(Timer, Done, false)];
    assert !SomeWaiting(s4);
    OneStep(cfg, steps, PostFail(0), s3, s4);
  }

  /** Closing the subscriber during the flush timer's own post drops the batch. */
  lemma DroppedByClose(cfg: Config, event: Event)
    requires cfg.bufferSize > 1
    ensures var steps := [Receive(event)] + [Start(0)] + [Fire(0)] + [Close];
            Run(cfg, steps).Some? && RunCancelsPost(cfg, steps) && !StrictlyConserved(Run(cfg, steps).value)
  {
    var before, s := PostingSteps(cfg, event);
    OneStep(cfg, before, Close, s, Step(cfg, s, Close));
    CancelledRun(cfg, before, Close);
  }

  /** So do two arrivals that fill a buffer of two. */
  lemma DroppedByArrivals(cfg: Config, first: Event, second: Event, third: Event)
    requires cfg.bufferSize == 2
    ensures var steps := [Receive(first)] + [Start(0)] + [Fire(0)] + [Receive(second)] + [Receive(third)];
            Run(cfg, steps).Some? && RunCancelsPost(cfg, steps) && !StrictlyConserved(Run(cfg, steps).value)
  {
    var before, s := PostingSteps(cfg, first);
    var s1 := ShapeReceives(cfg, s, second, Posting([first], 0));
    OneStep(cfg, before, Receive(second), s, s1);
    OneStep(cfg, before + [Receive(second)], Receive(third), s1, Step(cfg, s1, Receive(third)));
    CancelledRun(cfg, before + [Receive(second)], Receive(third));
  }

  lemma CancelledRun(cfg: Config, before: seq<Action>, a: Action)
    requires Run(cfg, before + [a]).Some? && Run(cfg, before).Some? && CancelsPost(cfg, Run(cfg, before).value, a)
    ensures RunCancelsPost(cfg, before + [a]) && !StrictlyConserved(Run(cfg, before + [a]).value)
  {
    hide Run, StrictlyConserved;
    assert (before + [a])[..|before|] == before;
    StrictIffNoPostCancelled(cfg, before + [a]);
  }

  /** The run up to the flush timer's own post. */
  lemma PostingSteps(cfg: Config, event: Event) returns (steps: seq<Action>, s: State)
    requires cfg.bufferSize > 1
    ensures steps == [Receive(event)] + [Start(0)] + [Fire(0)]
    ensures Run(cfg, steps) == Some(s) && Shape(s, [], Posting([event], 0))
  {
    var r0: seq<Action> := [];
    assert Run(cfg, r0) == Some(INIT);
    var s1 := Step(cfg, INIT, Receive(event));
    assert Shape(s1, [event], Created);
    var s2 := Step(cfg, s1, Start(0));
    assert Shape(s2, [event], Asleep);
    s := Step(cfg, s2, Fire(0));
    assert Shape(s, [], Posting([event], 0));
    OneStep(cfg, r0, Receive(event), INIT, s1);
    assert r0 + [Receive(event)] == [Receive(event)];
    OneStep(cfg, [Receive(event)], Start(0), s1, s2);
    OneStep(cfg, [Receive(event)] + [Start(0)], Fire(0), s2, s);
    steps := [Receive(event)] + [Start(0)] + [Fire(0)];
  }

  /** One timer task, tracked and not cancelled, with the given position. */
  predicate Shape(s: State, queue: seq<Event>, pc: Pc)
  {
    s.queue == queue && s.timer == Some(0) && s.tasks == [Task(Timer, pc, false)]
  }

  lemma ShapeReceives(cfg: Config, s: State, e: Event, pc: Pc) returns (s': State)
    requires Shape(s, [], pc) && cfg.bufferSize > 1
    ensures Enabled(cfg, s, Receive(e)) && s' == Step(cfg, s, Receive(e)) && Shape(s', [e], pc)
  {
    s' := Step(cfg, s, Receive(e));
  }

  lemma OneStep(cfg: Config, before: seq<Action>, a: Action, s: State, s': State)
    requires Run(cfg, before) == Some(s) && Enabled(cfg, s, a) && Step(cfg, s, a) == s'
    ensures Run(cfg, before + [a]) == Some(s')
  {
    assert (before + [a])[..|before|] == before;
  }

  // ---------- the run tells what was received, delivered and tried ----------

  /** How often `e` arrived. */
  function Arrived(steps: seq<Action>, e: Event): nat
  {
    if steps == [] then 0
    else Arrived(steps[..|steps| - 1], e) + if steps[|steps| - 1] == Receive(e) then 1 else 0
  }

  /** How often `e` was in a batch when a post of that batch succeeded. */
  function PostedOk(cfg: Config, steps: seq<Action>, e: Event): nat
  {
    if steps == [] then 0
    else
      var before, a := steps[..|steps| - 1], steps[|steps| - 1];
      PostedOk(cfg, before, e) +
      if a.PostOk? && Run(cfg, before).Some? && a.t < |Run(cfg, before).value.tasks|
      then HeldBy(Run(cfg, before).value.tasks[a.t], e) else 0
  }

  /** How many posts of task `t` were answered, either way. */
  function Answers(steps: seq<Action>, t: TaskId): nat
  {
    if steps == [] then 0
    else
      var a := steps[|steps| - 1];
      Answers(steps[..|steps| - 1], t) + if a == PostOk(t) || a == PostFail(t) then 1 else 0
  }

  lemma StepRecords(cfg: Config, s: State, a: Action, e: Event)
    requires Enabled(cfg, s, a)
    ensures var s' := Step(cfg, s, a);
            && s'.received[e] == s.received[e] + (if a == Receive(e) then 1 else 0)
            && s'.delivered[e] == s.delivered[e] + (if a.PostOk? then HeldBy(s.tasks[a.t], e) else 0)
  {
  }

  /** What counts as received is exactly what arrived, and what counts as delivered is exactly what was
      posted with success. */
  lemma {:induction false} RunRecords(cfg: Config, steps: seq<Action>, e: Event)
    requires Run(cfg, steps).Some?
    ensures Run(cfg, steps).value.received[e] == Arrived(steps, e)
    ensures Run(cfg, steps).value.delivered[e] == PostedOk(cfg, steps, e)
  {
    hide Enabled, Step, HeldBy;
    if steps != [] {
      var before, a := steps[..|steps| - 1], steps[|steps| - 1];
      RunRecords(cfg, before, e);
      StepRecords(cfg, Run(cfg, before).value, a, e);
      if TaskStep(a) { TaskInRange(cfg, Run(cfg, before).value, a); }
    }
  }

  lemma TaskInRange(cfg: Config, s: State, a: Action)
    requires Enabled(cfg, s, a) && TaskStep(a)
    ensures a.t < |s.tasks|
  {
  }

  /** A task's place against the posts answered so far. */
  predicate Tried(cfg: Config, pc: Pc, answers: nat)
  {
    match pc
    case Created => answers == 0
    case Asleep => answers == 0
    case Posting(_, attempt) => attempt == answers <= cfg.numRetries
    case Pausing(_, attempt) => attempt + 1 == answers <= cfg.numRetries
    case Done => answers <= cfg.numRetries + 1
  }

  lemma OwnStepTries(cfg: Config, s: State, a: Action, answers: nat)
    requires Enabled(cfg, s, a) && TaskStep(a) && Tried(cfg, s.tasks[a.t].pc, answers)
    ensures a.t < |Step(cfg, s, a).tasks|
    ensures Tried(cfg, Step(cfg, s, a).tasks[a.t].pc, answers + if a.PostOk? || a.PostFail? then 1 else 0)
  {
  }

  lemma OtherStepTries(cfg: Config, s: State, a: Action, t: TaskId)
    requires Enabled(cfg, s, a) && (TaskStep(a) ==> a.t != t) && t < |Step(cfg, s, a).tasks|
    ensures t < |s.tasks| ==> Step(cfg, s, a).tasks[t].pc == s.tasks[t].pc
    ensures t >= |s.tasks| ==> Tried(cfg, Step(cfg, s, a).tasks[t].pc, 0)
  {
  }

  lemma StepTries(cfg: Config, s: State, a: Action, t: TaskId, answers: nat)
    requires Enabled(cfg, s, a) && t < |Step(cfg, s, a).tasks|
    requires if t < |s.tasks| then Tried(cfg, s.tasks[t].pc, answers) else answers == 0
    ensures Tried(cfg, Step(cfg, s, a).tasks[t].pc, answers + if a == PostOk(t) || a == PostFail(t) then 1 else 0)
  {
    hide Step, Tried;
    if TaskStep(a) && a.t == t {
      TaskInRange(cfg, s, a);
      OwnStepTries(cfg, s, a, answers);
    } else {
      OtherStepTries(cfg, s, a, t);
    }
  }

  lemma {:induction false} RunTries(cfg: Config, steps: seq<Action>, t: TaskId)
    requires Run(cfg, steps).Some?
    ensures var s := Run(cfg, steps).value;
            if t < |s.tasks| then Tried(cfg, s.tasks[t].pc, Answers(steps, t)) else Answers(steps, t) == 0
  {
    hide Enabled, Step, Tried;
    if steps != [] {
      var before, a := steps[..|steps| - 1], steps[|steps| - 1];
      RunTries(cfg, before, t);
      var s := Run(cfg, before).value;
      TasksGrow(cfg, s, a);
      if t < |Step(cfg, s, a).tasks| { StepTries(cfg, s, a, t, Answers(before, t)); }
    }
  }

  lemma TasksGrow(cfg: Config, s: State, a: Action)
    requires Enabled(cfg, s, a)
    ensures |s.tasks| <= |Step(cfg, s, a).tasks| && (TaskStep(a) ==> a.t < |s.tasks|)
  {
  }

  /** A batch is posted at most `numRetries + 1` times. */
  lemma AttemptsBounded(cfg: Config, steps: seq<Action>, t: TaskId)
    requires Run(cfg, steps).Some?
    ensures Answers(steps, t) <= cfg.numRetries + 1
  {
    hide Run;
    RunTries(cfg, steps, t);
  }

  /** A success delivers the batch and ends the task. */
  lemma SuccessEnds(cfg: Config, s: State, t: TaskId)
    requires Enabled(cfg, s, PostOk(t))
    ensures var s' := Step(cfg, s, PostOk(t));
            && |s'.tasks| == |s.tasks| && s'.tasks[t].pc.Done? && s'.queue == s.queue
            && s'.delivered == s.delivered + multiset(s.tasks[t].pc.batch)
  {
  }

  lemma FailureGoesOn(cfg: Config, s: State, t: TaskId)
    requires Enabled(cfg, s, PostFail(t))
    ensures var s', pc := Step(cfg, s, PostFail(t)), s.tasks[t].pc;
            && |s'.tasks| == |s.tasks|
            && (pc.attempt >= cfg.numRetries ==> s'.tasks[t].pc.Done? && s'.queue == s.queue + pc.batch)
            && (pc.attempt < cfg.numRetries ==>
                  s'.queue == s.queue && s'.tasks[t].pc == Pausing(pc.batch, pc.attempt) && !s'.tasks[t].cancelled)
  {
  }

  lemma PauseGoesOn(cfg: Config, s: State, t: TaskId)
    requires t < |s.tasks| && s.tasks[t].pc.Pausing? && !s.tasks[t].cancelled
    ensures Enabled(cfg, s, Retry(t))
    ensures var s' := Step(cfg, s, Retry(t));
            |s'.tasks| == |s.tasks| && s'.tasks[t].pc.Posting? && s'.tasks[t].pc.batch == s.tasks[t].pc.batch
  {
  }

  /** A failure puts the batch back behind the queue and ends the task iff it is failure number
      `numRetries + 1` of that batch; otherwise the same batch can be posted again after the pause. */
  lemma FailureDecides(cfg: Config, steps: seq<Action>, t: TaskId)
    requires Run(cfg, steps).Some? && Enabled(cfg, Run(cfg, steps).value, PostFail(t))
    ensures var s := Run(cfg, steps).value;
            var s', batch := Step(cfg, s, PostFail(t)), s.tasks[t].pc.batch;
            && t < |s'.tasks|
            && (s'.tasks[t].pc.Done? <==> Answers(steps, t) == cfg.numRetries)
            && s'.queue == s.queue + (if s'.tasks[t].pc.Done? then batch else [])
            && (!s'.tasks[t].pc.Done? ==>
                  Enabled(cfg, s', Retry(t)) && t < |Step(cfg, s', Retry(t)).tasks| &&
                  var again := Step(cfg, s', Retry(t)).tasks[t].pc; again.Posting? && again.batch == batch)
  {
    hide Run, Step;
    RunTries(cfg, steps, t);
    var s := Run(cfg, steps).value;
    FailureGoesOn(cfg, s, t);
    var s' := Step(cfg, s, PostFail(t));
    assert s.queue + [] == s.queue;
    if !s'.tasks[t].pc.Done? { PauseGoesOn(cfg, s', t); }
  }

  // ---------- the subscriber object ----------

  class WebhookSubscriber {
    const cfg: Config
    var queue: seq<Event>
    var flushTimer: Option<TaskId>
    var tasks: seq<Task>
    ghost var received: multiset<Event>
    ghost var delivered: multiset<Event>
    ghost var lost: multiset<Event>

    ghost function Current(): State
      reads this
    {
      State(queue, flushTimer, tasks, received, delivered, lost)
    }

    constructor (cfg: Config)
      ensures this.cfg == cfg && Current() == INIT
    {
      this.cfg := cfg;
      queue, flushTimer, tasks := [], None, [];
      received, delivered, lost := multiset{}, multiset{}, multiset{};
    }

    method CancelFlushTimer()
      modifies this
      ensures Current() == CancelTimer(old(Current()))
    {
      if flushTimer.Some? && flushTimer.value < |tasks| && !tasks[flushTimer.value].pc.Done? {
        tasks := tasks[flushTimer.value := tasks[flushTimer.value].(cancelled := true)];
      }
      flushTimer := None;
    }

    /** `_post_events` up to its first await, called from outside any flush timer. */
    method PostEvents()
      modifies this
      ensures Current() == PostByNewTask(old(Current()))
    {
      if queue == [] { return; }
      var eventsToPost := queue;
      queue := [];
      tasks := tasks + [Task(Caller, Posting(eventsToPost, 0), false)];
    }

    method ReceiveEvent(event: Event)
      modifies this
      ensures Current() == Step(cfg, old(Current()), Receive(event))
    {
      queue := queue + [event];
      received := received + multiset{event};
      if |queue| >= cfg.bufferSize {
        CancelFlushTimer();
        PostEvents();
      } else if flushTimer.None? {
        tasks := tasks + [Task(Timer, Created, false)];
        flushTimer := Some(|tasks| - 1);
      }
    }

    method CloseSubscriber()
      modifies this
      ensures Current() == Step(cfg, old(Current()), Close)
    {
      CancelFlushTimer();
      if queue != [] { PostEvents(); }
    }

    method EndTask(t: TaskId)
      requires t < |tasks|
      modifies this
      ensures Current() == End(old(Current()), t)
    {
      if tasks[t].role.Timer? { flushTimer := None; }
      tasks := tasks[t := tasks[t].(pc := Done)];
    }

    method TimerFires(t: TaskId)
      requires Enabled(cfg, Current(), Fire(t))
      modifies this
      ensures Current() == Step(cfg, old(Current()), Fire(t))
    {
      if queue == [] {
        EndTask(t);
      } else {
        tasks := tasks[t := tasks[t].(pc := Posting(queue, 0))];
        queue := [];
      }
    }

    /** The response to a post attempt: success, a retry after a pause, or re-queueing. */
    method PostAnswered(t: TaskId, ok: bool)
      requires Enabled(cfg, Current(), PostOk(t))
      modifies this
      ensures Current() == Step(cfg, old(Current()), if ok then PostOk(t) else PostFail(t))
    {
      var batch, attempt := tasks[t].pc.batch, tasks[t].pc.attempt;
      if ok {
        EndTask(t);
        delivered := delivered + multiset(batch);
      } else if attempt < cfg.numRetries {
        tasks := tasks[t := tasks[t].(pc := Pausing(batch, attempt))];
      } else {
        queue := queue + batch;
        EndTask(t);
      }
    }
  }
}
