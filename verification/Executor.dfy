/**
 * The single-threaded executor as a protocol (fit-promise/single_threaded_executor.cc).
 *
 * Every block that runs under the dispatcher's mutex is one atomic step.  What a thread
 * does after it has left the mutex (notify the condition variable, delete the
 * dispatcher) is recorded in the state, and a notify in flight is a step of its own.
 * Handles live on arbitrary threads, so any legal step may come next.
 */
module Executor {
  import opened Arithmetic
  import opened Wrappers
  import opened Scheduler

  // ---------------------------------------------------- the mutex-guarded blocks

  /** The dispatcher's fields; ticket 0 means that the current task has no ticket. */
  datatype Guarded = Guarded(sched: Sched, wasShutdown: bool, needWake: bool, current: Ticket)

  /** What is left to do once the mutex is released. */
  datatype After = Return | Notify | Delete

  datatype Wait = GotTasks(tasks: seq<Task>) | AllDone | Sleep

  function LockedSchedule(g: Guarded, task: Task): (Guarded, After) {
    (g.(sched := Enqueue(g.sched, task), needWake := false), if g.needWake then Notify else Return)
  }

  function LockedSuspend(g: Guarded): Guarded
    requires g.current != 0 ==> g.current in g.sched.tickets
  {
    if g.current == 0 then g.(sched := Obtain(g.sched, 2), current := g.sched.next)
    else g.(sched := Duplicate(g.sched, g.current))
  }

  /** One turn of the wait loop; `woken` if the thread comes back from the condition variable. */
  function LockedWait(g: Guarded, woken: bool): (Guarded, Wait) {
    var (sched, tasks) := TakeRunnable(g.sched);
    var g' := g.(sched := sched, needWake := if woken then false else g.needWake);
    if tasks != [] then (g', GotTasks(tasks))
    else if sched.suspended == 0 then (g', AllDone)
    else (g'.(needWake := true), Sleep)
  }

  function LockedFinalize(g: Guarded, task: Option<Task>): (Guarded, Option<Task>)
    requires g.current in g.sched.tickets && 0 < g.sched.tickets[g.current].refs
  {
    var (sched, back) := Finalize(g.sched, g.current, task);
    (g.(sched := sched, current := 0), back)
  }

  function ResolveTicket(s: Sched, t: Ticket, resume: bool): (Sched, Option<Task>)
    requires t in s.tickets && 0 < s.tickets[t].refs
    requires s.tickets[t].task.Some? ==> 0 < s.suspended
  {
    if resume then (Resume(s, t), None) else Release(s, t)
  }

  /** sched is the scheduler after the ticket was resolved. */
  function AfterResolve(g: Guarded, sched: Sched): After {
    if g.wasShutdown then if sched.tickets == map[] then Delete else Return
    else if g.needWake && (sched.runnable != [] || sched.suspended == 0) then Notify
    else Return
  }

  function LockedResolve(g: Guarded, sched: Sched): Guarded {
    g.(sched := sched, needWake := g.needWake && AfterResolve(g, sched) != Notify)
  }

  function LockedShutdown(g: Guarded): (Guarded, seq<Task>, After) {
    var (sched, tasks) := TakeAll(g.sched);
    (g.(sched := sched, wasShutdown := true), tasks, if sched.tickets == map[] then Delete else Return)
  }

  // --------------------------------------------------------------- the protocol

  /** Where the thread that calls run() is.  The front of the batch is the task being run. */
  datatype Runner = Idle | Entering | Asleep | Woken | Executing(batch: seq<Task>)

  /** handles: the tickets of the live suspended_task objects; notifies: threads between
      the mutex and notify_one; frees: how often the dispatcher was deleted. */
  datatype State = State(g: Guarded, runner: Runner, handles: multiset<Ticket>, notifies: nat, frees: nat)

  const INIT: State := State(Guarded(INITIAL, false, false, 0), Idle, multiset{}, 0, 0)

  datatype Step =
    | Schedule(task: Task)
    | Run
    | WaitForTasks
    | Suspend
    | FinishTask(finished: bool)
    | Copy(ticket: Ticket)
    | Resolve(ticket: Ticket, resume: bool)
    | Notified
    | SpuriousWake
    | Shutdown

  function Batch(s: State): seq<Task> {
    if s.runner.Executing? then s.runner.batch else []
  }

  /** A thread can take the step: the executor's owner has not destroyed it, one thread
      runs and does not shut down meanwhile, and a handle is used while it is live. */
  predicate Enabled(s: State, step: Step) {
    var tickets := s.g.sched.tickets;
    match step
    case Schedule(_) => !s.g.wasShutdown
    case Run => !s.g.wasShutdown && s.runner.Idle?
    case WaitForTasks => s.runner.Entering? || s.runner.Woken?
    case Suspend => s.runner.Executing? && (s.g.current in tickets ==> tickets[s.g.current].refs < MAX_REFS)
    case FinishTask(_) => s.runner.Executing? && s.runner.batch != []
    case Copy(t) => t in s.handles && (t in tickets ==> tickets[t].refs < MAX_REFS)
    case Resolve(t, _) => t in s.handles
    case Notified => s.notifies > 0
    case SpuriousWake => s.runner.Asleep?
    case Shutdown => !s.g.wasShutdown && s.runner.Idle?
  }

  /** References are exactly the live handles, plus one for the task that is running.
      The code asserts what follows from it: a used ticket has a record, and so on. */
  ghost predicate Accounted(s: State) {
    && Valid(s.g.sched)
    && (s.g.current != 0 ==> s.g.current in s.g.sched.tickets && s.g.sched.tickets[s.g.current].task.None?)
    && forall t :: RefsOf(s.g.sched, t) == s.handles[t] + One(t == s.g.current != 0)
  }

  ghost function NextSchedule(s: State, task: Task): State {
    var (g, after) := LockedSchedule(s.g, task);
    s.(g := g, notifies := s.notifies + One(after == Notify))
  }

  ghost function NextWait(s: State): State {
    var (g, result) := LockedWait(s.g, s.runner.Woken?);
    match result
    case GotTasks(tasks) => s.(g := g, runner := Executing(tasks))
    case AllDone => s.(g := g, runner := Idle)
    case Sleep => s.(g := g, runner := Asleep)
  }

  ghost function NextSuspend(s: State): State
    requires Accounted(s)
  {
    var g := LockedSuspend(s.g);
    s.(g := g, handles := s.handles + multiset{g.current})
  }

  /** What the task left behind when it returned. */
  function Unfinished(s: State, finished: bool): Option<Task>
    requires s.runner.Executing? && s.runner.batch != []
  {
    if finished then None else Some(s.runner.batch[0])
  }

  /** The task returns; with a ticket it is finalized under the mutex; then it is popped. */
  ghost function NextFinish(s: State, finished: bool): State
    requires Accounted(s) && Enabled(s, FinishTask(finished))
  {
    var rest := s.runner.batch[1..];
    s.(g := if s.g.current == 0 then s.g else LockedFinalize(s.g, Unfinished(s, finished)).0,
       runner := if rest == [] then Entering else Executing(rest))
  }

  ghost function Resolved(s: State, t: Ticket, resume: bool): (Sched, Option<Task>)
    requires Accounted(s) && t in s.handles
  {
    SuspendedIffHolder(s.g.sched);
    ResolveTicket(s.g.sched, t, resume)
  }

  ghost function NextResolve(s: State, t: Ticket, resume: bool): State
    requires Accounted(s) && t in s.handles
  {
    var sched := Resolved(s, t, resume).0;
    s.(g := LockedResolve(s.g, sched),
       handles := s.handles - multiset{t},
       notifies := s.notifies + One(AfterResolve(s.g, sched) == Notify),
       frees := s.frees + One(AfterResolve(s.g, sched) == Delete))
  }

  ghost function NextShutdown(s: State): State {
    var (g, tasks, after) := LockedShutdown(s.g);
    s.(g := g, frees := s.frees + One(after == Delete))
  }

  ghost function Next(s: State, step: Step): State
    requires Accounted(s) && Enabled(s, step)
  {
    match step
    case Schedule(task) => NextSchedule(s, task)
    case Run => s.(runner := Entering)
    case WaitForTasks => NextWait(s)
    case Suspend => NextSuspend(s)
    case FinishTask(finished) => NextFinish(s, finished)
    case Copy(t) => s.(g := s.g.(sched := Duplicate(s.g.sched, t)), handles := s.handles + multiset{t})
    case Resolve(t, resume) => NextResolve(s, t, resume)
    case Notified => s.(notifies := s.notifies - 1, runner := if s.runner.Asleep? then Woken else s.runner)
    case SpuriousWake => s.(runner := Woken)
    case Shutdown => NextShutdown(s)
  }

  // --------------------------------------------------------------- the invariant

  ghost predicate WakeInv(s: State) {
    && (s.g.needWake ==> (s.runner.Asleep? || s.runner.Woken?) && s.g.sched.runnable == [] && s.g.sched.suspended > 0)
    && (s.runner.Asleep? && !s.g.needWake ==> s.notifies > 0)
  }

  ghost predicate LifeInv(s: State) {
    && (s.g.current != 0 ==> s.runner.Executing?)
    && (s.runner.Executing? ==> s.runner.batch != [])
    && (s.g.wasShutdown ==> s.runner.Idle? && s.g.sched.runnable == [] && s.g.sched.suspended == 0)
    && s.frees == One(s.g.wasShutdown && s.g.sched.tickets == map[])
  }

  ghost predicate Inv(s: State) {
    Accounted(s) && WakeInv(s) && LifeInv(s)
  }

  lemma ResolveWakes(s: State, t: Ticket, resume: bool)
    requires Inv(s) && t in s.handles
    ensures WakeInv(NextResolve(s, t, resume))
  {
  }

  lemma ResolveLives(s: State, t: Ticket, resume: bool)
    requires Inv(s) && t in s.handles
    ensures LifeInv(NextResolve(s, t, resume))
  {
    SuspendedIffHolder(s.g.sched);
  }

  lemma FinishAccounted(s: State, finished: bool)
    requires Accounted(s) && Enabled(s, FinishTask(finished))
    ensures Accounted(NextFinish(s, finished))
  {
    if s.g.current != 0 {
      FinalizeValid(s.g.sched, s.g.current, Unfinished(s, finished));
    }
  }

  lemma FinishKeeps(s: State, finished: bool)
    requires Inv(s) && Enabled(s, FinishTask(finished))
    ensures Inv(NextFinish(s, finished))
  {
    FinishAccounted(s, finished);
  }

  lemma SuspendKeeps(s: State)
    requires Inv(s) && Enabled(s, Suspend)
    ensures Inv(NextSuspend(s))
  {
    if s.g.current == 0 { ObtainValid(s.g.sched, 2); } else { DuplicateValid(s.g.sched, s.g.current); }
  }

  lemma WaitKeeps(s: State)
    requires Inv(s) && Enabled(s, WaitForTasks)
    ensures Inv(NextWait(s))
  {
  }

  lemma ScheduleKeeps(s: State, task: Task)
    requires Inv(s) && Enabled(s, Schedule(task))
    ensures Inv(NextSchedule(s, task))
  {
  }

  lemma CopyKeeps(s: State, t: Ticket)
    requires Inv(s) && Enabled(s, Copy(t))
    ensures Inv(Next(s, Copy(t)))
  {
    DuplicateValid(s.g.sched, t);
  }

  lemma ShutdownKeeps(s: State)
    requires Inv(s) && Enabled(s, Shutdown)
    ensures Inv(NextShutdown(s))
  {
    TakeAllValid(s.g.sched);
  }

  lemma ResolveAccounted(s: State, t: Ticket, resume: bool)
    requires Accounted(s) && t in s.handles
    ensures Accounted(NextResolve(s, t, resume))
  {
    if resume { ResumeValid(s.g.sched, t); } else { ReleaseValid(s.g.sched, t); }
  }

  lemma ResolveKeeps(s: State, t: Ticket, resume: bool)
    requires Inv(s) && Enabled(s, Resolve(t, resume))
    ensures Inv(NextResolve(s, t, resume))
  {
    ResolveAccounted(s, t, resume);
    ResolveWakes(s, t, resume);
    ResolveLives(s, t, resume);
  }

  lemma StepKeeps(s: State, step: Step)
    requires Inv(s) && Enabled(s, step)
    ensures Inv(Next(s, step))
  {
    match step {
      case Schedule(task) => ScheduleKeeps(s, task);
      case Run =>
      case WaitForTasks => WaitKeeps(s);
      case Suspend => SuspendKeeps(s);
      case FinishTask(finished) => FinishKeeps(s, finished);
      case Copy(t) => CopyKeeps(s, t);
      case Resolve(t, resume) => ResolveKeeps(s, t, resume);
      case Notified =>
      case SpuriousWake =>
      case Shutdown => ShutdownKeeps(s);
    }
  }

  // -------------------------------------------------------------------- all runs

  ghost predicate Legal(s: State, steps: seq<Step>)
    decreases |steps|
  {
    steps == [] || (Accounted(s) && Enabled(s, steps[0]) && Legal(Next(s, steps[0]), steps[1..]))
  }

  ghost function Exec(s: State, steps: seq<Step>): State
    requires Legal(s, steps)
    decreases |steps|
  {
    if steps == [] then s else Exec(Next(s, steps[0]), steps[1..])
  }

  ghost predicate Reachable(s: State) {
    exists steps :: Legal(INIT, steps) && Exec(INIT, steps) == s
  }

  lemma {:induction false} ExecKeeps(s: State, steps: seq<Step>)
    requires Inv(s) && Legal(s, steps)
    ensures Inv(Exec(s, steps))
    decreases |steps|
  {
    if steps != [] {
      StepKeeps(s, steps[0]);
      ExecKeeps(Next(s, steps[0]), steps[1..]);
    }
  }

  lemma ReachableInv(s: State)
    requires Reachable(s)
    ensures Inv(s)
  {
    var steps :| Legal(INIT, steps) && Exec(INIT, steps) == s;
    assert Holders(INITIAL.tickets) == {};
    ExecKeeps(INIT, steps);
  }

  lemma {:induction false} ExecSnoc(s: State, steps: seq<Step>, step: Step)
    requires Inv(s) && Legal(s, steps) && Enabled(Exec(s, steps), step)
    ensures Inv(Exec(s, steps)) && Legal(s, steps + [step]) && Exec(s, steps + [step]) == Next(Exec(s, steps), step)
    decreases |steps|
  {
    var all := steps + [step];
    if steps == [] {
      assert all[1..] == [] && Legal(Next(s, step), []);
    } else {
      StepKeeps(s, steps[0]);
      ExecSnoc(Next(s, steps[0]), steps[1..], step);
      assert all[0] == steps[0] && all[1..] == steps[1..] + [step];
    }
  }

  /** Every step that some thread can take continues the run: no assertion of the code stops it. */
  lemma ReachableStep(s: State, step: Step)
    requires Reachable(s) && Enabled(s, step)
    ensures Accounted(s) && Reachable(Next(s, step))
  {
    var steps :| Legal(INIT, steps) && Exec(INIT, steps) == s;
    assert Holders(INITIAL.tickets) == {};
    ExecSnoc(INIT, steps, step);
    ExecKeeps(INIT, steps + [step]);
  }

  /** No lost wake-up: the thread sleeps with no notify on its way only while nothing is
      runnable and some live handle belongs to a parked task. */
  lemma NoLostWakeup(s: State)
    requires Reachable(s)
    ensures s.g.needWake ==> s.runner.Asleep? || s.runner.Woken?
    ensures s.runner.Asleep? && s.notifies == 0 ==>
              s.g.needWake && s.g.sched.runnable == [] && exists t :: t in s.handles && Slot(s.g.sched.tickets, t).Some?
  {
    ReachableInv(s);
    if s.runner.Asleep? && s.notifies == 0 {
      SuspendedIffHolder(s.g.sched);
      var t :| t in s.g.sched.tickets && s.g.sched.tickets[t].task.Some?;
      assert RefsOf(s.g.sched, t) > 0;
      assert t in s.handles && Slot(s.g.sched.tickets, t).Some?;
    }
  }

  /** Resuming such a handle queues its task and puts the one notify on its way. */
  lemma ResumeWakesSleeper(s: State, t: Ticket)
    requires Reachable(s) && s.runner.Asleep? && s.notifies == 0
    requires t in s.handles && Slot(s.g.sched.tickets, t).Some? && Accounted(s)
    ensures NextResolve(s, t, true).notifies == 1
    ensures NextResolve(s, t, true).g.sched.runnable == [Slot(s.g.sched.tickets, t).value]
  {
    ReachableInv(s);
  }

  /** run() returns exactly when nothing is runnable and no task is parked. */
  lemma RunReturnsWhenDone(s: State)
    requires Reachable(s) && Enabled(s, WaitForTasks)
    ensures NextWait(s).runner.Idle? <==>
              s.g.sched.runnable == [] && forall t :: t in s.g.sched.tickets ==> s.g.sched.tickets[t].task.None?
  {
    ReachableInv(s);
    SuspendedIffHolder(s.g.sched);
  }

  /** While no task runs, tickets and handles disappear together. */
  lemma TicketsAreHandles(s: State)
    requires Inv(s) && s.g.current == 0
    ensures s.g.sched.tickets == map[] <==> s.handles == multiset{}
  {
    forall t: Ticket
      ensures t in s.g.sched.tickets <==> t in s.handles
    {
      assert t in s.g.sched.tickets <==> RefsOf(s.g.sched, t) > 0;
    }
    if s.handles == multiset{} {
      assert forall t :: t !in s.g.sched.tickets;
    } else {
      var t :| t in s.handles;
      assert t in s.g.sched.tickets;
    }
  }

  /** The dispatcher is deleted at most once, exactly after shutdown and the last handle,
      with everything its destructor asserts; after that only a notify in flight can reach it. */
  lemma DispatcherLifetime(s: State)
    requires Reachable(s)
    ensures s.frees <= 1 && (s.frees == 1 <==> s.g.wasShutdown && s.handles == multiset{})
    ensures s.frees == 1 ==> s.g.sched.runnable == [] && s.g.sched.suspended == 0 && s.g.sched.tickets == map[]
    ensures s.frees == 1 ==> forall step :: Enabled(s, step) ==> step == Notified
  {
    ReachableInv(s);
    if s.g.wasShutdown { TicketsAreHandles(s); }
  }

  // --------------------------------------------------------------- run() comes back

  /** Tasks in the queue, the batch and the table. */
  function Tasks(s: State): nat {
    |s.g.sched.runnable| + |Batch(s)| + s.g.sched.suspended
  }

  /** The running tasks finish, the waiting ones are resumed, and notifies arrive. */
  predicate IsProgress(step: Step) {
    step == FinishTask(true) || step.WaitForTasks? || step.Notified? || (step.Resolve? && step.resume)
  }

  ghost predicate Smaller(s': State, s: State) {
    || Tasks(s') < Tasks(s)
    || (Tasks(s') == Tasks(s) && Waiting(s') < Waiting(s))
    || (Tasks(s') == Tasks(s) && Waiting(s') == Waiting(s) && s'.notifies < s.notifies)
    || (Tasks(s') == Tasks(s) && Waiting(s') == Waiting(s) && s'.notifies == s.notifies && Looking(s') < Looking(s))
  }

  function Waiting(s: State): nat { s.g.sched.suspended }

  function Looking(s: State): nat { if s.runner.Entering? || s.runner.Woken? then 1 else 0 }

  lemma FinishProgress(s: State)
    requires Inv(s) && s.runner.Executing?
    ensures Enabled(s, FinishTask(true)) && Tasks(NextFinish(s, true)) < Tasks(s)
    ensures NextFinish(s, true).g.wasShutdown == s.g.wasShutdown
  {
  }

  lemma ResumeProgress(s: State, t: Ticket)
    requires Inv(s) && !s.g.wasShutdown && s.runner.Asleep? && t in s.handles && Slot(s.g.sched.tickets, t).Some?
    ensures var s' := NextResolve(s, t, true);
            Tasks(s') == Tasks(s) && Waiting(s') < Waiting(s) && !s'.g.wasShutdown
  {
  }

  /** While run() has not come back, some thread can bring it closer to that. */
  lemma ProgressPossible(s: State) returns (step: Step)
    requires Reachable(s) && !s.g.wasShutdown && !s.runner.Idle?
    ensures Accounted(s) && Enabled(s, step) && IsProgress(step)
    ensures Next(s, step).runner.Idle? || Smaller(Next(s, step), s)
    ensures !Next(s, step).g.wasShutdown
  {
    ReachableInv(s);
    match s.runner {
      case Executing(_) =>
        step := FinishTask(true);
        FinishProgress(s);
      case Asleep =>
        if s.notifies > 0 {
          step := Notified;
        } else {
          NoLostWakeup(s);
          var t :| t in s.handles && Slot(s.g.sched.tickets, t).Some?;
          step := Resolve(t, true);
          ResumeProgress(s, t);
        }
      case _ =>
        step := WaitForTasks;
    }
  }

  /** From every reachable state before shutdown, run() can come back: through progress alone, so
      without a spurious wake-up, a dropped handle or a new task. */
  lemma {:induction false} RunCanReturn(s: State) returns (steps: seq<Step>)
    requires Reachable(s) && !s.g.wasShutdown
    ensures Legal(s, steps) && Exec(s, steps).runner.Idle?
    ensures forall step :: step in steps ==> IsProgress(step)
    decreases Tasks(s), Waiting(s), s.notifies, Looking(s)
  {
    if s.runner.Idle? {
      return [];
    }
    var step := ProgressPossible(s);
    ReachableStep(s, step);
    var s' := Next(s, step);
    if s'.runner.Idle? {
      assert Legal(s', []) && [step][1..] == [];
      return [step];
    }
    var rest := RunCanReturn(s');
    steps := [step] + rest;
    assert steps[0] == step && steps[1..] == rest;
  }

  // ------------------------------------------------ notifies in flight at shutdown
  // notify_one is called after the mutex is released, so the dispatcher may be gone by then.

  /** Some step is taken after the dispatcher was deleted. */
  ghost predicate UsesFreed(s: State, steps: seq<Step>)
    requires Legal(s, steps)
    decreases |steps|
  {
    steps != [] && (s.frees > 0 || UsesFreed(Next(s, steps[0]), steps[1..]))
  }

  ghost predicate CanUseFreed(s: State) {
    exists steps :: Legal(s, steps) && UsesFreed(s, steps)
  }

  /** After shutdown nobody starts a new notify. */
  lemma {:induction false} NoNotifyNoUse(s: State, steps: seq<Step>)
    requires Inv(s) && s.g.wasShutdown && s.notifies == 0 && Legal(s, steps)
    ensures !UsesFreed(s, steps)
    decreases |steps|
  {
    if steps != [] {
      var s' := Next(s, steps[0]);
      StepKeeps(s, steps[0]);
      assert steps[0].Copy? || steps[0].Resolve?;
      var t := steps[0].ticket;
      assert RefsOf(s.g.sched, t) > 0;
      NoNotifyNoUse(s', steps[1..]);
    }
  }

  /** If a notify is in flight, dropping the remaining handles frees the dispatcher under it. */
  lemma {:induction false} NotifyReachesFreed(s: State) returns (steps: seq<Step>)
    requires Inv(s) && s.g.wasShutdown && s.notifies > 0
    ensures Legal(s, steps) && UsesFreed(s, steps)
    decreases |s.handles|
  {
    if s.handles == multiset{} {
      TicketsAreHandles(s);
      steps := [Notified];
      assert Legal(Next(s, Notified), []);
      assert steps[1..] == [];
    } else {
      var t :| t in s.handles;
      var drop := Resolve(t, false);
      StepKeeps(s, drop);
      var rest := NotifyReachesFreed(Next(s, drop));
      steps := [drop] + rest;
      assert steps[1..] == rest;
    }
  }

  /** The executor can be destroyed safely if and only if no other thread is still between
      the mutex and notify_one. */
  lemma ShutdownSafeIff(s: State)
    requires Reachable(s) && Enabled(s, Shutdown)
    ensures !CanUseFreed(NextShutdown(s)) <==> s.notifies == 0
  {
    ReachableInv(s);
    var s' := NextShutdown(s);
    StepKeeps(s, Shutdown);
    if s.notifies == 0 {
      forall steps | Legal(s', steps)
        ensures !UsesFreed(s', steps)
      {
        NoNotifyNoUse(s', steps);
      }
    } else {
      var steps := NotifyReachesFreed(s');
    }
  }

  /** Without spurious wake-ups at most one notify is in flight, and only while the thread sleeps. */
  ghost predicate NotifyInv(s: State) {
    s.notifies + One(s.g.needWake) == One(s.runner.Asleep?)
  }

  lemma {:induction false} ExecKeepsNotify(s: State, steps: seq<Step>)
    requires Inv(s) && NotifyInv(s) && Legal(s, steps) && SpuriousWake !in steps
    ensures NotifyInv(Exec(s, steps)) && !UsesFreed(s, steps)
    decreases |steps|
  {
    if steps != [] {
      StepKeeps(s, steps[0]);
      assert steps[0] != SpuriousWake;
      if s.frees > 0 {
        NoNotifyNoUse(s, steps);
      } else {
        assert NotifyInv(Next(s, steps[0]));
        ExecKeepsNotify(Next(s, steps[0]), steps[1..]);
      }
    }
  }

  /** So no run without spurious wake-ups touches a deleted dispatcher. */
  lemma NoSpuriousWakeNoUse(steps: seq<Step>)
    requires Legal(INIT, steps) && SpuriousWake !in steps
    ensures !UsesFreed(INIT, steps)
  {
    assert Holders(INITIAL.tickets) == {};
    ExecKeepsNotify(INIT, steps);
  }

  lemma InitReachable()
    ensures Reachable(INIT)
  {
    assert Legal(INIT, []) && Exec(INIT, []) == INIT;
  }

  lemma OneRunning() returns (s: State)
    ensures Reachable(s) && s.runner == Executing([7]) && s.notifies == 0 && s.handles == multiset{}
    ensures s.g == Guarded(INITIAL, false, false, 0)
  {
    InitReachable();
    s := INIT;
    ReachableStep(s, Schedule(7));
    s := Next(s, Schedule(7));
    ReachableStep(s, Run);
    s := Next(s, Run);
    ReachableStep(s, WaitForTasks);
    s := Next(s, WaitForTasks);
  }

  lemma OneSuspended() returns (s: State)
    ensures Reachable(s) && s.runner == Executing([7]) && s.notifies == 0 && s.handles == multiset{1}
    ensures s.g == Guarded(Sched(2, map[1 := Record(2, false, None)], [], 0), false, false, 1)
  {
    s := OneRunning();
    ReachableStep(s, Suspend);
    s := Next(s, Suspend);
  }

  /** A state in which a task is parked and its runner sleeps. */
  lemma OneSleeper() returns (s: State)
    ensures Reachable(s) && s.runner == Asleep && s.notifies == 0 && s.handles == multiset{1}
    ensures s.g == Guarded(Sched(2, map[1 := Record(1, false, Some(7))], [], 1), false, true, 0)
  {
    s := OneSuspended();
    ReachableStep(s, FinishTask(false));
    s := Next(s, FinishTask(false));
    assert s.g.sched.tickets == map[1 := Record(1, false, Some(7))];
    ReachableStep(s, WaitForTasks);
    s := Next(s, WaitForTasks);
  }

  /** With a spurious wake-up the condition can fail: the thread that resumed the task is
      overtaken before it notifies, the task runs to its end, and run() returns. */
  lemma SpuriousWakeLeavesNotify() returns (s: State)
    ensures Reachable(s) && Enabled(s, Shutdown) && s.notifies > 0
  {
    s := OneSleeper();
    ReachableStep(s, Resolve(1, true));
    s := Next(s, Resolve(1, true));
    assert s.g.sched.tickets == map[] && s.g.sched.runnable == [7] && s.g.sched.suspended == 0 && s.notifies == 1;
    ReachableStep(s, SpuriousWake);
    s := Next(s, SpuriousWake);
    ReachableStep(s, WaitForTasks);
    s := Next(s, WaitForTasks);
    ReachableStep(s, FinishTask(true));
    s := Next(s, FinishTask(true));
    ReachableStep(s, WaitForTasks);
    s := Next(s, WaitForTasks);
  }

  // ------------------------------------------------------- the history of the tasks

  /** Every task ever scheduled, queued, run to its next return, and destroyed. */
  datatype Log = Log(created: multiset<Task>, enqueued: seq<Task>, executed: seq<Task>, destroyed: multiset<Task>)

  const EMPTY: Log := Log(multiset{}, [], [], multiset{})

  /** What the step pushed onto the run queue. */
  ghost function Queued(s: State, s': State): seq<Task> {
    if s.g.sched.runnable <= s'.g.sched.runnable then s'.g.sched.runnable[|s.g.sched.runnable|..] else []
  }

  /** What the runner let run to its next return. */
  ghost function RanBy(s: State, step: Step): seq<Task>
    requires Enabled(s, step)
  {
    if step.FinishTask? then [s.runner.batch[0]] else []
  }

  /** What is destroyed outside the mutex. */
  ghost function DestroyedBy(s: State, step: Step): seq<Task>
    requires Accounted(s) && Enabled(s, step)
  {
    match step
    case FinishTask(finished) => FinishDestroys(s, finished)
    case Resolve(t, resume) => Out(Resolved(s, t, resume).1)
    case Shutdown => LockedShutdown(s.g).1
    case _ => []
  }

  ghost function FinishDestroys(s: State, finished: bool): seq<Task>
    requires Accounted(s) && Enabled(s, FinishTask(finished))
  {
    if s.g.current == 0 || finished then [s.runner.batch[0]] else Out(LockedFinalize(s.g, Unfinished(s, finished)).1)
  }

  ghost function LogStep(s: State, step: Step, log: Log): Log
    requires Accounted(s) && Enabled(s, step)
  {
    Log(log.created + (if step.Schedule? then multiset{step.task} else multiset{}),
        log.enqueued + Queued(s, Next(s, step)),
        log.executed + RanBy(s, step),
        log.destroyed + multiset(DestroyedBy(s, step)))
  }

  ghost function ExecLog(s: State, log: Log, steps: seq<Step>): Log
    requires Legal(s, steps)
    decreases |steps|
  {
    if steps == [] then log else ExecLog(Next(s, steps[0]), LogStep(s, steps[0], log), steps[1..])
  }

  /** First in, first out: what ran, what is in the batch and what is queued is the queue's history. */
  ghost predicate Fifo(s: State, log: Log) {
    !s.g.wasShutdown ==> log.enqueued == log.executed + Batch(s) + s.g.sched.runnable
  }

  /** A task that was scheduled is queued, in the batch, parked or destroyed, once each. */
  ghost predicate Conserved(s: State, log: Log, x: Task) {
    log.created[x] == Total(s, x) + log.destroyed[x]
  }

  ghost function Total(s: State, x: Task): nat {
    Count(s.g.sched, x) + multiset(Batch(s))[x]
  }

  lemma ResolveQueues(s: State, t: Ticket, resume: bool)
    requires Accounted(s) && t in s.handles
    ensures s.g.sched.runnable <= NextResolve(s, t, resume).g.sched.runnable
  {
  }

  lemma FinishQueues(s: State, finished: bool)
    requires Accounted(s) && Enabled(s, FinishTask(finished))
    ensures s.g.sched.runnable <= NextFinish(s, finished).g.sched.runnable
    ensures Batch(s) == [s.runner.batch[0]] + Batch(NextFinish(s, finished))
  {
  }

  /** Steps other than taking the queue only push onto it, and only a return shortens the batch. */
  lemma StepQueues(s: State, step: Step)
    requires Inv(s) && Enabled(s, step)
    ensures !step.WaitForTasks? && !step.Shutdown? ==>
              s.g.sched.runnable <= Next(s, step).g.sched.runnable && Batch(s) == RanBy(s, step) + Batch(Next(s, step))
    ensures step.WaitForTasks? ==>
              s.g.sched.runnable == Batch(Next(s, step)) + Next(s, step).g.sched.runnable && Batch(s) == []
  {
    match step {
      case FinishTask(finished) => FinishQueues(s, finished);
      case Resolve(t, resume) => ResolveQueues(s, t, resume);
      case _ =>
    }
  }

  lemma FifoStep(s: State, s': State, log: Log, log': Log, ran: seq<Task>)
    requires Fifo(s, log) && s'.g.wasShutdown == s.g.wasShutdown
    requires log'.enqueued == log.enqueued + Queued(s, s') && log'.executed == log.executed + ran
    requires (s.g.sched.runnable <= s'.g.sched.runnable && Batch(s) == ran + Batch(s'))
          || (s.g.sched.runnable == Batch(s') && s'.g.sched.runnable == [] && Batch(s) == ran == [])
    ensures Fifo(s', log')
  {
    var r, r', b' := s.g.sched.runnable, s'.g.sched.runnable, Batch(s');
    if r <= r' && Batch(s) == ran + b' {
      assert r' == r + Queued(s, s');
      assert log.executed + (ran + b') == log.executed + ran + b';
    } else {
      assert Queued(s, s') == [];
    }
  }

  lemma StepKeepsFifo(s: State, step: Step, log: Log)
    requires Inv(s) && Enabled(s, step) && Fifo(s, log)
    ensures Fifo(Next(s, step), LogStep(s, step, log))
  {
    if !step.Shutdown? {
      StepQueues(s, step);
      FifoStep(s, Next(s, step), log, LogStep(s, step, log), RanBy(s, step));
    }
  }

  lemma ResolveTotal(s: State, t: Ticket, resume: bool, x: Task)
    requires Inv(s) && t in s.handles
    ensures Total(s, x) == Total(NextResolve(s, t, resume), x) + multiset(Out(Resolved(s, t, resume).1))[x]
  {
    SuspendedIffHolder(s.g.sched);
    if resume { ResumeCount(s.g.sched, t, x); } else { ReleaseCount(s.g.sched, t, x); }
  }

  lemma FinishTotal(s: State, finished: bool, x: Task)
    requires Inv(s) && Enabled(s, FinishTask(finished))
    ensures Total(s, x) == Total(NextFinish(s, finished), x) + multiset(FinishDestroys(s, finished))[x]
  {
    assert s.runner.batch == [s.runner.batch[0]] + s.runner.batch[1..];
    if s.g.current != 0 { FinalizeCount(s.g.sched, s.g.current, Unfinished(s, finished), x); }
  }

  lemma ShutdownTotal(s: State, x: Task)
    requires Inv(s) && Enabled(s, Shutdown)
    ensures Total(s, x) == Total(NextShutdown(s), x) + multiset(LockedShutdown(s.g).1)[x]
  {
    TakeAllCount(s.g.sched, x);
  }

  lemma StepTotal(s: State, step: Step, x: Task)
    requires Inv(s) && Enabled(s, step)
    ensures Total(s, x) + One(step == Schedule(x)) == Total(Next(s, step), x) + multiset(DestroyedBy(s, step))[x]
  {
    match step {
      case Suspend =>
        if s.g.current == 0 { ObtainCount(s.g.sched, 2, x); } else { DuplicateCount(s.g.sched, s.g.current, x); }
      case FinishTask(finished) => FinishTotal(s, finished, x);
      case Copy(t) => DuplicateCount(s.g.sched, t, x);
      case Resolve(t, resume) => ResolveTotal(s, t, resume, x);
      case Shutdown => ShutdownTotal(s, x);
      case _ =>
    }
  }

  lemma StepConserves(s: State, step: Step, log: Log, x: Task)
    requires Inv(s) && Enabled(s, step) && Conserved(s, log, x)
    ensures Conserved(Next(s, step), LogStep(s, step, log), x)
  {
    StepTotal(s, step, x);
  }

  lemma {:induction false} ExecHistory(s: State, log: Log, steps: seq<Step>, x: Task)
    requires Inv(s) && Legal(s, steps) && Fifo(s, log) && Conserved(s, log, x)
    ensures Fifo(Exec(s, steps), ExecLog(s, log, steps)) && Conserved(Exec(s, steps), ExecLog(s, log, steps), x)
    decreases |steps|
  {
    if steps != [] {
      StepKeeps(s, steps[0]);
      StepKeepsFifo(s, steps[0], log);
      StepConserves(s, steps[0], log, x);
      ExecHistory(Next(s, steps[0]), LogStep(s, steps[0], log), steps[1..], x);
    }
  }

  lemma TaskHistory(steps: seq<Step>, x: Task)
    requires Legal(INIT, steps)
    ensures Fifo(Exec(INIT, steps), ExecLog(INIT, EMPTY, steps))
    ensures Conserved(Exec(INIT, steps), ExecLog(INIT, EMPTY, steps), x)
  {
    assert Holders(INITIAL.tickets) == {} == HoldersOf(INITIAL.tickets, x);
    ExecHistory(INIT, EMPTY, steps, x);
  }

  // ------------------------------------------- what resolving and returning do to a task

  /** The other records hold what they held. */
  ghost predicate OthersKept(s: State, s': State, t: Ticket) {
    forall u :: u != t ==> Slot(s'.g.sched.tickets, u) == Slot(s.g.sched.tickets, u)
  }

  /** Dropping a handle never resumes its task: the queue stays as it is, the parked task is
      destroyed exactly if this was the last handle, and otherwise it stays parked. */
  lemma DropDoesNotResume(s: State, t: Ticket)
    requires Inv(s) && t in s.handles
    ensures var (s', task) := (NextResolve(s, t, false), Slot(s.g.sched.tickets, t));
            && s'.g.sched.runnable == s.g.sched.runnable && OthersKept(s, s', t)
            && DestroyedBy(s, Resolve(t, false)) == (if s.handles[t] == 1 then Out(task) else [])
            && (s.handles[t] > 1 ==> Slot(s'.g.sched.tickets, t) == task)
  {
    assert RefsOf(s.g.sched, t) == s.handles[t] + One(t == s.g.current != 0);
  }

  /** Resuming a handle queues the parked task, if there is one, behind the others, destroys none,
      and leaves nothing parked under the ticket. */
  lemma ResumeQueues(s: State, t: Ticket)
    requires Inv(s) && t in s.handles
    ensures var (s', task) := (NextResolve(s, t, true), Slot(s.g.sched.tickets, t));
            && s'.g.sched.runnable == s.g.sched.runnable + Out(task) && OthersKept(s, s', t)
            && DestroyedBy(s, Resolve(t, true)) == [] && Slot(s'.g.sched.tickets, t).None?
  {
    assert s.g.sched.runnable + [] == s.g.sched.runnable;
  }

  /** A notify is sent exactly if the sleeper has asked for it and there is something for it: a task
      to run, or nothing left to wait for. */
  lemma NotifiesExactly(s: State, step: Step)
    requires Inv(s) && Enabled(s, step)
    ensures Next(s, step).notifies == s.notifies + 1 <==>
              && s.g.needWake && !step.Notified?
              && (step.Schedule? || step.Resolve?)
              && (Next(s, step).g.sched.runnable != [] || Next(s, step).g.sched.suspended == 0)
    ensures Next(s, step).notifies <= s.notifies + 1
    ensures Next(s, step).notifies == s.notifies + 1 ==> !Next(s, step).g.needWake
  {
  }

  /** What the steps so far show of the flags of the dispatcher and of its tickets. */
  ghost predicate Noted(s: State, steps: seq<Step>) {
    && (s.g.wasShutdown <==> Shutdown in steps)
    && (forall t: Ticket :: Resolve(t, true) in steps ==> t < s.g.sched.next)
    && (forall t: Ticket :: t in s.g.sched.tickets ==> (s.g.sched.tickets[t].wasResumed <==> Resolve(t, true) in steps))
  }

  /** Records keep their flags, and a new one starts without. */
  ghost predicate FlagsKept(s: State, s': State) {
    && s.g.sched.next <= s'.g.sched.next
    && forall t :: t in s'.g.sched.tickets ==>
         if t in s.g.sched.tickets then s'.g.sched.tickets[t].wasResumed == s.g.sched.tickets[t].wasResumed
         else t == s.g.sched.next && !s'.g.sched.tickets[t].wasResumed
  }

  lemma NotedKept(s: State, s': State, steps: seq<Step>, step: Step)
    requires Noted(s, steps) && FlagsKept(s, s') && !(step.Resolve? && step.resume)
    requires s'.g.wasShutdown == (s.g.wasShutdown || step.Shutdown?)
    ensures Noted(s', steps + [step])
  {
    assert forall x :: x in steps + [step] <==> x in steps || x == step;
  }

  lemma FinishFlags(s: State, finished: bool)
    requires Accounted(s) && Enabled(s, FinishTask(finished))
    ensures FlagsKept(s, NextFinish(s, finished)) && NextFinish(s, finished).g.wasShutdown == s.g.wasShutdown
  {
  }

  lemma DropFlags(s: State, t: Ticket)
    requires Accounted(s) && t in s.handles
    ensures FlagsKept(s, NextResolve(s, t, false)) && NextResolve(s, t, false).g.wasShutdown == s.g.wasShutdown
  {
  }

  lemma ResumeFlags(s: State, t: Ticket)
    requires Accounted(s) && t in s.handles
    ensures var s' := NextResolve(s, t, true);
            && s'.g.wasShutdown == s.g.wasShutdown && s'.g.sched.next == s.g.sched.next && t < s.g.sched.next
            && forall u :: u in s'.g.sched.tickets ==>
                 u in s.g.sched.tickets
                 && s'.g.sched.tickets[u].wasResumed == (u == t || s.g.sched.tickets[u].wasResumed)
  {
    assert RefsOf(s.g.sched, t) > 0;
  }

  lemma NotedResume(s: State, s': State, steps: seq<Step>, t: Ticket)
    requires Noted(s, steps) && s'.g.wasShutdown == s.g.wasShutdown && s'.g.sched.next == s.g.sched.next
    requires t < s.g.sched.next
    requires forall u :: u in s'.g.sched.tickets ==>
               u in s.g.sched.tickets
               && s'.g.sched.tickets[u].wasResumed == (u == t || s.g.sched.tickets[u].wasResumed)
    ensures Noted(s', steps + [Resolve(t, true)])
  {
    assert forall x :: x in steps + [Resolve(t, true)] <==> x in steps || x == Resolve(t, true);
  }

  lemma NotedStep(s: State, steps: seq<Step>, step: Step)
    requires Inv(s) && Enabled(s, step) && Noted(s, steps)
    ensures Noted(Next(s, step), steps + [step])
  {
    match step {
      case Resolve(t, resume) =>
        if resume {
          ResumeFlags(s, t);
          NotedResume(s, NextResolve(s, t, true), steps, t);
          return;
        }
        DropFlags(s, t);
      case FinishTask(finished) => FinishFlags(s, finished);
      case _ =>
    }
    NotedKept(s, Next(s, step), steps, step);
  }

  lemma {:induction false} NotedExec(s: State, before: seq<Step>, steps: seq<Step>)
    requires Inv(s) && Legal(s, steps) && Noted(s, before)
    ensures Noted(Exec(s, steps), before + steps)
    decreases |steps|
  {
    if steps == [] {
      assert before + steps == before;
    } else {
      NotedStep(s, before, steps[0]);
      StepKeeps(s, steps[0]);
      NotedExec(Next(s, steps[0]), before + [steps[0]], steps[1..]);
      assert before + [steps[0]] + steps[1..] == before + steps;
    }
  }

  /** Over all runs: the executor is shut down exactly after a shutdown, and a ticket counts as
      resumed exactly if one of its handles was resumed. */
  lemma FlagsTellHistory(steps: seq<Step>)
    requires Legal(INIT, steps)
    ensures Noted(Exec(INIT, steps), steps)
  {
    assert Holders(INITIAL.tickets) == {};
    NotedExec(INIT, [], steps);
    assert [] + steps == steps;
  }

  /** Over all runs, what becomes of a task that returns: destroyed if it is finished, or did not
      suspend, or is left with no handle and was not resumed; queued again if a handle was resumed
      meanwhile; parked under its ticket otherwise. */
  lemma ReturnedTask(steps: seq<Step>, finished: bool)
    requires Legal(INIT, steps) && Accounted(Exec(INIT, steps)) && Enabled(Exec(INIT, steps), FinishTask(finished))
    ensures var s := Exec(INIT, steps);
            var (s', x, t) := (NextFinish(s, finished), s.runner.batch[0], s.g.current);
            var gone := FinishDestroys(s, finished);
            if finished || t == 0 then
              gone == [x] && s'.g.sched.runnable == s.g.sched.runnable
              && forall u :: Slot(s'.g.sched.tickets, u) == Slot(s.g.sched.tickets, u)
            else if Resolve(t, true) in steps then
              gone == [] && s'.g.sched.runnable == s.g.sched.runnable + [x]
              && forall u :: Slot(s'.g.sched.tickets, u) == Slot(s.g.sched.tickets, u)
            else
              && s'.g.sched.runnable == s.g.sched.runnable && OthersKept(s, s', t)
              && gone == (if s.handles[t] == 0 then [x] else [])
              && Slot(s'.g.sched.tickets, t) == if s.handles[t] == 0 then None else Some(x)
  {
    FlagsTellHistory(steps);
    var s := Exec(INIT, steps);
    assert RefsOf(s.g.sched, s.g.current) == s.handles[s.g.current] + One(s.g.current != 0);
  }

  // ------------------------------------------------------------------- the class

  /** The dispatcher's fields and the blocks its methods run under the mutex.  Each method
      returns what is left to do outside. */
  class Dispatcher {
    const scheduler: TaskScheduler
    var wasShutdown: bool
    var needWake: bool
    var current: Ticket

    ghost function View(): Guarded
      reads this, scheduler
    {
      Guarded(scheduler.View(), wasShutdown, needWake, current)
    }

    ghost predicate Ok()
      reads this, scheduler
    {
      Valid(scheduler.View()) && (current != 0 ==> current in scheduler.tickets)
    }

    constructor ()
      ensures Ok() && fresh(scheduler) && View() == INIT.g
    {
      scheduler := new TaskScheduler();
      wasShutdown, needWake, current := false, false, 0;
    }

    method ScheduleTask(task: Task) returns (after: After)
      requires Ok() && !wasShutdown
      modifies this, scheduler
      ensures Ok() && (View(), after) == LockedSchedule(old(View()), task)
    {
      scheduler.ScheduleTask(task);
      if !needWake {
        return Return;
      }
      needWake := false;
      return Notify;
    }

    method SuspendCurrentTask() returns (ticket: Ticket)
      requires Ok() && !wasShutdown && (current != 0 ==> scheduler.tickets[current].refs < MAX_REFS)
      modifies this, scheduler
      ensures Ok() && View() == LockedSuspend(old(View())) && ticket == current
    {
      if current == 0 {
        current := scheduler.ObtainTicket(2);
      } else {
        scheduler.DuplicateTicket(current);
      }
      ticket := current;
    }

    method WaitForRunnableTasks(woken: bool) returns (result: Wait)
      requires Ok() && !wasShutdown
      modifies this, scheduler
      ensures Ok() && (View(), result) == LockedWait(old(View()), woken)
    {
      if woken {
        needWake := false;
      }
      var tasks := scheduler.TakeRunnableTasks();
      if tasks != [] {
        return GotTasks(tasks);
      }
      if !scheduler.HasSuspendedTasks() {
        return AllDone;
      }
      needWake := true;
      return Sleep;
    }

    method FinalizeCurrentTask(task: Option<Task>) returns (back: Option<Task>)
      requires Ok() && !wasShutdown && current != 0 && scheduler.tickets[current].task.None?
      modifies this, scheduler
      ensures Ok() && (View(), back) == LockedFinalize(old(View()), task)
    {
      back := scheduler.FinalizeTicket(current, task);
      current := 0;
    }

    method DuplicateTicket(ticket: Ticket) returns (copy: Ticket)
      requires Ok() && ticket in scheduler.tickets && scheduler.tickets[ticket].refs < MAX_REFS
      modifies scheduler
      ensures Ok() && View() == old(View()).(sched := Duplicate(old(View().sched), ticket)) && copy == ticket
    {
      scheduler.DuplicateTicket(ticket);
      return ticket;
    }

    method ResolveOne(ticket: Ticket, resume: bool) returns (back: Option<Task>, after: After)
      requires Ok() && ticket in scheduler.tickets && (wasShutdown ==> !needWake)
      requires ticket == current ==> scheduler.tickets[ticket].refs > 1
      modifies this, scheduler
      ensures Ok() && old(scheduler.tickets[ticket].task.Some? ==> 0 < scheduler.suspended)
      ensures var (sched, b) := ResolveTicket(old(View().sched), ticket, resume);
              View() == LockedResolve(old(View()), sched) && back == b && after == AfterResolve(old(View()), sched)
    {
      back := None;
      if resume {
        var _ := scheduler.ResumeTaskWithTicket(ticket);
      } else {
        back := scheduler.ReleaseTicket(ticket);
      }
      if wasShutdown {
        if scheduler.HasOutstandingTickets() {
          return back, Return;
        }
        return back, Delete;
      } else if needWake && (scheduler.HasRunnableTasks() || !scheduler.HasSuspendedTasks()) {
        needWake := false;
        return back, Notify;
      }
      return back, Return;
    }

    method ShutDown() returns (tasks: seq<Task>, after: After)
      requires Ok() && !wasShutdown && current == 0
      modifies this, scheduler
      ensures Ok() && (View(), tasks, after) == LockedShutdown(old(View()))
    {
      wasShutdown := true;
      tasks := scheduler.TakeAllTasks();
      after := if scheduler.HasOutstandingTickets() then Return else Delete;
    }
  }
}
