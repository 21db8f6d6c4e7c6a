/**
 * The run queue and the ticket table of an executor (fit-promise/scheduler.cc).
 *
 * A ticket is the reference-counted name of one suspension.  The functions on
 * `Sched` say what each operation does; class `TaskScheduler` is the code, one method
 * per operation, proved against them.
 */
module Scheduler {
  import opened Arithmetic
  import opened Wrappers

  type Task = nat
  type Ticket = nat

  /** Reference counts are 32 bits wide. */
  const MAX_REFS: nat := 0xFFFF_FFFF

  datatype Record = Record(refs: nat, wasResumed: bool, task: Option<Task>)

  datatype Sched = Sched(next: Ticket, tickets: map<Ticket, Record>, runnable: seq<Task>, suspended: nat)

  const INITIAL: Sched := Sched(1, map[], [], 0)

  function Slot(tickets: map<Ticket, Record>, t: Ticket): Option<Task> {
    if t in tickets then tickets[t].task else None
  }

  /** The tickets whose record holds a task, and those whose record holds this task. */
  ghost function Holders(tickets: map<Ticket, Record>): set<Ticket> {
    set t | t in tickets && tickets[t].task.Some?
  }

  ghost function HoldersOf(tickets: map<Ticket, Record>, task: Task): set<Ticket> {
    set t | t in tickets && tickets[t].task == Some(task)
  }

  /** The tasks parked in records with a ticket below n, in ticket order. */
  function ParkedTasks(tickets: map<Ticket, Record>, n: nat): seq<Task> {
    if n == 0 then []
    else
      var rest := ParkedTasks(tickets, n - 1);
      if Slot(tickets, n - 1).Some? then rest + [Slot(tickets, n - 1).value] else rest
  }

  ghost predicate RecordValid(r: Record) {
    0 < r.refs <= MAX_REFS && (r.task.Some? ==> !r.wasResumed)
  }

  /** What every operation keeps: tickets are nonzero and already issued, a record that
      holds a task was never resumed, and the counter counts the records holding a task. */
  ghost predicate Valid(s: Sched) {
    && 0 < s.next
    && (forall t :: t in s.tickets ==> 0 < t < s.next && RecordValid(s.tickets[t]))
    && s.suspended == |Holders(s.tickets)|
  }

  // ---------------------------------------------------------------- operations

  function Enqueue(s: Sched, task: Task): Sched {
    s.(runnable := s.runnable + [task])
  }

  function Obtain(s: Sched, refs: nat): Sched {
    s.(next := s.next + 1, tickets := s.tickets[s.next := Record(refs, false, None)])
  }

  /** Erases the record once its count is zero, stores it otherwise. */
  function Store(s: Sched, t: Ticket, r: Record): Sched {
    var others := s.tickets - {t};
    s.(tickets := if r.refs == 0 then others else others[t := r])
  }

  function Duplicate(s: Sched, t: Ticket): Sched
    requires t in s.tickets
  {
    Store(s, t, s.tickets[t].(refs := s.tickets[t].refs + 1))
  }

  /** The second component is the task handed back to the caller, if any. */
  function Finalize(s: Sched, t: Ticket, task: Option<Task>): (Sched, Option<Task>)
    requires t in s.tickets && 0 < s.tickets[t].refs
  {
    var r := s.tickets[t].(refs := s.tickets[t].refs - 1);
    if task.None? then (Store(s, t, r), None)
    else if r.wasResumed then (Enqueue(Store(s, t, r), task.value), None)
    else if r.refs > 0 then (Store(s, t, r.(task := task)).(suspended := s.suspended + 1), None)
    else (Store(s, t, r), task)
  }

  function Release(s: Sched, t: Ticket): (Sched, Option<Task>)
    requires t in s.tickets && 0 < s.tickets[t].refs
    requires s.tickets[t].task.Some? ==> 0 < s.suspended
  {
    var r := s.tickets[t].(refs := s.tickets[t].refs - 1);
    if r.refs > 0 then (Store(s, t, r), None)
    else if r.task.Some? then (Store(s, t, r).(suspended := s.suspended - 1), r.task)
    else (Store(s, t, r), None)
  }

  function Resume(s: Sched, t: Ticket): Sched
    requires t in s.tickets && 0 < s.tickets[t].refs
    requires s.tickets[t].task.Some? ==> 0 < s.suspended
  {
    var r := s.tickets[t].(refs := s.tickets[t].refs - 1);
    if r.wasResumed then Store(s, t, r)
    else if r.task.None? then Store(s, t, r.(wasResumed := true))
    else Enqueue(Store(s, t, r.(wasResumed := true, task := None)), r.task.value).(suspended := s.suspended - 1)
  }

  function TakeRunnable(s: Sched): (Sched, seq<Task>) {
    (s.(runnable := []), s.runnable)
  }

  function TakeAll(s: Sched): (Sched, seq<Task>) {
    (s.(runnable := [], suspended := 0, tickets := map t | t in s.tickets :: s.tickets[t].(task := None)),
     s.runnable + ParkedTasks(s.tickets, s.next))
  }

  // ------------------------------------------------- how the parked tasks change

  /** Changing one record changes the holders by that record only. */
  lemma OneRecord(a: map<Ticket, Record>, b: map<Ticket, Record>, t: Ticket)
    requires forall u :: u != t ==> Slot(a, u) == Slot(b, u)
    ensures |Holders(b)| + One(Slot(a, t).Some?) == |Holders(a)| + One(Slot(b, t).Some?)
  {
    assert forall u :: u in Holders(a) <==> Slot(a, u).Some?;
    assert forall u :: u in Holders(b) <==> Slot(b, u).Some?;
    SameElsewhere(Holders(a), Holders(b), t);
  }

  lemma OneRecordOf(a: map<Ticket, Record>, b: map<Ticket, Record>, t: Ticket, x: Task)
    requires forall u :: u != t ==> Slot(a, u) == Slot(b, u)
    ensures |HoldersOf(b, x)| + One(Slot(a, t) == Some(x)) == |HoldersOf(a, x)| + One(Slot(b, t) == Some(x))
  {
    assert forall u :: u in HoldersOf(a, x) <==> Slot(a, u) == Some(x);
    assert forall u :: u in HoldersOf(b, x) <==> Slot(b, u) == Some(x);
    SameElsewhere(HoldersOf(a, x), HoldersOf(b, x), t);
  }

  lemma SameElsewhere(a: set<Ticket>, b: set<Ticket>, t: Ticket)
    requires forall u :: u != t ==> (u in a <==> u in b)
    ensures |a| + One(t in b) == |b| + One(t in a)
  {
    assert a - {t} == b - {t};
    assert a == if t in a then (a - {t}) + {t} else a - {t};
    assert b == if t in b then (b - {t}) + {t} else b - {t};
  }

  /** A parked task keeps the counter above zero, and only a parked task does. */
  lemma SuspendedIffHolder(s: Sched)
    requires Valid(s)
    ensures 0 < s.suspended <==> exists t :: t in s.tickets && s.tickets[t].task.Some?
  {
    if 0 < s.suspended {
      var t :| t in Holders(s.tickets);
    }
    forall t | t in s.tickets && s.tickets[t].task.Some?
      ensures 0 < s.suspended
    {
      assert t in Holders(s.tickets);
    }
  }

  /** Walking the table in order meets every parked task as often as it is parked. */
  lemma {:induction false} ParkedTasksCount(tickets: map<Ticket, Record>, n: nat, x: Task)
    ensures multiset(ParkedTasks(tickets, n))[x] == |set t | t in HoldersOf(tickets, x) && t < n|
  {
    if n > 0 {
      ParkedTasksCount(tickets, n - 1, x);
      var below := set t | t in HoldersOf(tickets, x) && t < n - 1;
      assert (set t | t in HoldersOf(tickets, x) && t < n)
          == if Slot(tickets, n - 1) == Some(x) then below + {n - 1} else below;
    } else {
      assert (set t | t in HoldersOf(tickets, x) && t < n) == {};
    }
  }

  lemma {:induction false} NoneParked(tickets: map<Ticket, Record>, n: nat)
    requires forall t :: t in tickets ==> tickets[t].task.None?
    ensures ParkedTasks(tickets, n) == []
  {
    if n > 0 { NoneParked(tickets, n - 1); }
  }

  // ------------------- each operation keeps the table valid and its references counted

  function RefsOf(s: Sched, t: Ticket): nat {
    if t in s.tickets then s.tickets[t].refs else 0
  }

  lemma ObtainValid(s: Sched, refs: nat)
    requires Valid(s) && 0 < refs <= MAX_REFS
    ensures Valid(Obtain(s, refs)) && s.next !in s.tickets
    ensures forall u :: RefsOf(Obtain(s, refs), u) == RefsOf(s, u) + (if u == s.next then refs else 0)
  {
    OneRecord(s.tickets, Obtain(s, refs).tickets, s.next);
  }

  lemma DuplicateValid(s: Sched, t: Ticket)
    requires Valid(s) && t in s.tickets && s.tickets[t].refs < MAX_REFS
    ensures Valid(Duplicate(s, t))
    ensures forall u :: RefsOf(Duplicate(s, t), u) == RefsOf(s, u) + One(u == t)
  {
    OneRecord(s.tickets, Duplicate(s, t).tickets, t);
  }

  lemma FinalizeValid(s: Sched, t: Ticket, task: Option<Task>)
    requires Valid(s) && t in s.tickets && s.tickets[t].task.None?
    ensures Valid(Finalize(s, t, task).0)
    ensures forall u :: RefsOf(Finalize(s, t, task).0, u) == RefsOf(s, u) - One(u == t)
  {
    OneRecord(s.tickets, Finalize(s, t, task).0.tickets, t);
  }

  lemma ReleaseValid(s: Sched, t: Ticket)
    requires Valid(s) && t in s.tickets
    ensures s.tickets[t].task.Some? ==> 0 < s.suspended
    ensures Valid(Release(s, t).0)
    ensures forall u :: RefsOf(Release(s, t).0, u) == RefsOf(s, u) - One(u == t)
  {
    SuspendedIffHolder(s);
    OneRecord(s.tickets, Release(s, t).0.tickets, t);
  }

  lemma ResumeValid(s: Sched, t: Ticket)
    requires Valid(s) && t in s.tickets
    ensures s.tickets[t].task.Some? ==> 0 < s.suspended
    ensures Valid(Resume(s, t))
    ensures forall u :: RefsOf(Resume(s, t), u) == RefsOf(s, u) - One(u == t)
  {
    SuspendedIffHolder(s);
    OneRecord(s.tickets, Resume(s, t).tickets, t);
  }

  lemma TakeAllValid(s: Sched)
    requires Valid(s)
    ensures Valid(TakeAll(s).0) && TakeAll(s).0.tickets.Keys == s.tickets.Keys
    ensures forall u :: RefsOf(TakeAll(s).0, u) == RefsOf(s, u)
  {
    assert Holders(TakeAll(s).0.tickets) == {};
  }

  // --------------------------------------------- each operation conserves every task

  /** How often a task is in the scheduler, runnable or parked. */
  ghost function Count(s: Sched, x: Task): nat {
    multiset(s.runnable)[x] + |HoldersOf(s.tickets, x)|
  }

  lemma ObtainCount(s: Sched, refs: nat, x: Task)
    requires Valid(s)
    ensures Count(Obtain(s, refs), x) == Count(s, x)
  {
    OneRecordOf(s.tickets, Obtain(s, refs).tickets, s.next, x);
  }

  lemma DuplicateCount(s: Sched, t: Ticket, x: Task)
    requires t in s.tickets
    ensures Count(Duplicate(s, t), x) == Count(s, x)
  {
    OneRecordOf(s.tickets, Duplicate(s, t).tickets, t, x);
  }

  lemma FinalizeCount(s: Sched, t: Ticket, task: Option<Task>, x: Task)
    requires Valid(s) && t in s.tickets && s.tickets[t].task.None?
    ensures Count(Finalize(s, t, task).0, x) + One(Finalize(s, t, task).1 == Some(x)) == Count(s, x)
              + One(task == Some(x))
  {
    OneRecordOf(s.tickets, Finalize(s, t, task).0.tickets, t, x);
  }

  lemma ReleaseCount(s: Sched, t: Ticket, x: Task)
    requires Valid(s) && t in s.tickets && (s.tickets[t].task.Some? ==> 0 < s.suspended)
    ensures Count(Release(s, t).0, x) + One(Release(s, t).1 == Some(x)) == Count(s, x)
  {
    OneRecordOf(s.tickets, Release(s, t).0.tickets, t, x);
  }

  lemma ResumeCount(s: Sched, t: Ticket, x: Task)
    requires Valid(s) && t in s.tickets && (s.tickets[t].task.Some? ==> 0 < s.suspended)
    ensures Count(Resume(s, t), x) == Count(s, x)
  {
    OneRecordOf(s.tickets, Resume(s, t).tickets, t, x);
  }

  lemma TakeAllCount(s: Sched, x: Task)
    requires Valid(s)
    ensures multiset(TakeAll(s).1)[x] == Count(s, x) && Count(TakeAll(s).0, x) == 0
  {
    ParkedTasksCount(s.tickets, s.next, x);
    assert (set t | t in HoldersOf(s.tickets, x) && t < s.next) == HoldersOf(s.tickets, x);
    assert HoldersOf(TakeAll(s).0.tickets, x) == {};
  }

  /** How many records with a lower ticket hold a task. */
  ghost function Before(tickets: map<Ticket, Record>, t: Ticket): nat {
    |set u | u in Holders(tickets) && u < t|
  }

  lemma BeforeNext(tickets: map<Ticket, Record>, t: Ticket)
    ensures Before(tickets, t + 1) == Before(tickets, t) + One(Slot(tickets, t).Some?)
  {
    var below := set u | u in Holders(tickets) && u < t;
    assert (set u | u in Holders(tickets) && u < t + 1) == if Slot(tickets, t).Some? then below + {t} else below;
  }

  lemma {:induction false} ParkedTaskAt(tickets: map<Ticket, Record>, n: nat, t: Ticket)
    requires t < n && Slot(tickets, t).Some?
    ensures |ParkedTasks(tickets, n)| == Before(tickets, n) && Before(tickets, t) < Before(tickets, n)
    ensures ParkedTasks(tickets, n)[Before(tickets, t)] == Slot(tickets, t).value
  {
    BeforeNext(tickets, n - 1);
    ParkedTasksLength(tickets, n - 1);
    if t < n - 1 { ParkedTaskAt(tickets, n - 1, t); }
  }

  lemma {:induction false} ParkedTasksLength(tickets: map<Ticket, Record>, n: nat)
    ensures |ParkedTasks(tickets, n)| == Before(tickets, n)
  {
    if n == 0 {
      assert (set u | u in Holders(tickets) && u < 0) == {};
    } else {
      ParkedTasksLength(tickets, n - 1);
      BeforeNext(tickets, n - 1);
    }
  }

  /** What is taken is the queue in its order and then the parked tasks, each at the place of its
      ticket among those that park one; a record loses its task and keeps the rest. */
  lemma TakeAllOrder(s: Sched, t: Ticket)
    requires Valid(s)
    ensures s.runnable <= TakeAll(s).1 && |TakeAll(s).1| == |s.runnable| + s.suspended
    ensures t in s.tickets && s.tickets[t].task.Some? ==>
              Before(s.tickets, t) < s.suspended
              && TakeAll(s).1[|s.runnable| + Before(s.tickets, t)] == s.tickets[t].task.value
    ensures t in s.tickets ==> t in TakeAll(s).0.tickets && TakeAll(s).0.tickets[t] == s.tickets[t].(task := None)
  {
    ParkedTasksLength(s.tickets, s.next);
    assert (set u | u in Holders(s.tickets) && u < s.next) == Holders(s.tickets);
    if t in s.tickets && s.tickets[t].task.Some? { ParkedTaskAt(s.tickets, s.next, t); }
  }

  // ------------------------------------- order independence of one suspension

  /** What can happen to a ticket once it has been obtained. */
  datatype TicketOp = Dup | Wake | Drop | Finish(task: Option<Task>)

  ghost predicate LegalOp(s: Sched, t: Ticket, op: TicketOp) {
    && t in s.tickets && 0 < s.tickets[t].refs
    && (s.tickets[t].task.Some? ==> 0 < s.suspended)
    && (op.Dup? ==> s.tickets[t].refs < MAX_REFS)
    && (op.Finish? ==> s.tickets[t].task.None?)
  }

  ghost function ApplyOp(s: Sched, t: Ticket, op: TicketOp): (Sched, Option<Task>)
    requires LegalOp(s, t, op)
  {
    match op
    case Dup => (Duplicate(s, t), None)
    case Wake => (Resume(s, t), None)
    case Drop => Release(s, t)
    case Finish(task) => Finalize(s, t, task)
  }

  ghost predicate LegalOps(s: Sched, t: Ticket, ops: seq<TicketOp>)
    decreases |ops|, 0
  {
    ops == [] || (LegalOps(s, t, Front(ops)) && LegalOp(ApplyOps(s, t, Front(ops)).0, t, ops[|ops| - 1]))
  }

  /** The scheduler after the operations, and the tasks handed back for destruction. */
  ghost function ApplyOps(s: Sched, t: Ticket, ops: seq<TicketOp>): (Sched, seq<Task>)
    requires LegalOps(s, t, ops)
    decreases |ops|, 1
  {
    if ops == [] then (s, [])
    else
      var (s1, back) := ApplyOps(s, t, Front(ops));
      var (s2, more) := ApplyOp(s1, t, ops[|ops| - 1]);
      (s2, back + Out(more))
  }

  function Front(ops: seq<TicketOp>): seq<TicketOp>
    requires ops != []
  {
    ops[..|ops| - 1]
  }

  function Out(task: Option<Task>): seq<Task> {
    if task.Some? then [task.value] else []
  }

  /** What a sequence of operations on a ticket adds up to. */
  datatype Summary = Summary(refs: int, woken: bool, finished: bool)

  function Add(sum: Summary, op: TicketOp): Summary {
    Summary(if op.Dup? then sum.refs + 1 else sum.refs - 1, sum.woken || op.Wake?, sum.finished || op.Finish?)
  }

  function Summarize(refs: nat, ops: seq<TicketOp>): Summary {
    if ops == [] then Summary(refs, false, false) else Add(Summarize(refs, Front(ops)), ops[|ops| - 1])
  }

  lemma {:induction false} SummaryOfBag(refs: nat, ops: seq<TicketOp>)
    ensures Summarize(refs, ops).refs == refs + 2 * multiset(ops)[Dup] - |ops|
    ensures Summarize(refs, ops).woken <==> Wake in multiset(ops)
    ensures Summarize(refs, ops).finished <==> exists task :: Finish(task) in multiset(ops)
  {
    if ops != [] {
      SummaryOfBag(refs, Front(ops));
      assert ops == Front(ops) + [ops[|ops| - 1]];
    }
  }

  /** The scheduler and the handed-back tasks that a summary stands for. */
  ghost predicate Outcome(s: Sched, sum: Summary, task: Option<Task>, s': Sched, back: seq<Task>) {
    var unfinished := sum.finished && task.Some?;
    && Valid(s') && s'.next == s.next + 1 && 0 <= sum.refs
    && s'.tickets == (
         if sum.refs == 0 then s.tickets
         else s.tickets[s.next := Record(sum.refs, sum.woken, if unfinished && !sum.woken then task else None)])
    && s'.runnable == (if unfinished && sum.woken then s.runnable + [task.value] else s.runnable)
    && back == (if unfinished && !sum.woken && sum.refs == 0 then [task.value] else [])
  }

  /** One run obtains a ticket and finalizes it once, with `task`; around that, handles are
      copied, resumed and dropped in any order. */
  ghost predicate OneSuspension(s: Sched, refs: nat, ops: seq<TicketOp>, task: Option<Task>) {
    && Valid(s) && 0 < refs <= MAX_REFS
    && LegalOps(Obtain(s, refs), s.next, ops)
    && (forall i :: 0 <= i < |ops| && ops[i].Finish? ==> ops[i] == Finish(task))
    && multiset(ops)[Finish(task)] <= 1
  }

  lemma SuspensionStep(s: Sched, sum: Summary, task: Option<Task>, s1: Sched, back: seq<Task>, op: TicketOp)
    requires Valid(s) && Outcome(s, sum, task, s1, back) && LegalOp(s1, s.next, op)
    requires op.Finish? ==> op.task == task && !sum.finished
    ensures var (s2, more) := ApplyOp(s1, s.next, op);
            Outcome(s, Add(sum, op), task, s2, back + Out(more))
  {
    assert s1.tickets - {s.next} == s.tickets;
    match op {
      case Dup => DuplicateValid(s1, s.next);
      case Wake => ResumeValid(s1, s.next);
      case Drop => ReleaseValid(s1, s.next);
      case Finish(_) => FinalizeValid(s1, s.next, task);
    }
  }

  lemma {:induction false} SuspensionOutcome(s: Sched, refs: nat, ops: seq<TicketOp>, task: Option<Task>)
    requires OneSuspension(s, refs, ops, task)
    ensures var (s', back) := ApplyOps(Obtain(s, refs), s.next, ops);
            Outcome(s, Summarize(refs, ops), task, s', back)
  {
    ObtainValid(s, refs);
    if ops != [] {
      var pre, op := Front(ops), ops[|ops| - 1];
      assert ops == pre + [op];
      SummaryOfBag(refs, pre);
      assert forall i :: 0 <= i < |pre| ==> pre[i] == ops[i];
      SuspensionOutcome(s, refs, pre, task);
      var (s1, back) := ApplyOps(Obtain(s, refs), s.next, pre);
      SuspensionStep(s, Summarize(refs, pre), task, s1, back, op);
    }
  }

  /** However the handles and the finalize interleave, an unfinished task goes to the queue
      exactly once if any handle resumed it, is handed back exactly once if all were dropped,
      and otherwise waits in its record; the ticket is gone exactly when no reference is left. */
  lemma SuspensionResolvesOnce(s: Sched, refs: nat, ops: seq<TicketOp>, task: Task)
    requires OneSuspension(s, refs, ops, Some(task)) && Finish(Some(task)) in ops
    ensures var (s', back) := ApplyOps(Obtain(s, refs), s.next, ops);
            && (s.next in s'.tickets <==> refs + 2 * multiset(ops)[Dup] > |ops|)
            && (Wake in ops ==> s'.runnable == s.runnable + [task] && back == [])
            && (Wake !in ops ==> s'.runnable == s.runnable)
            && (Wake !in ops && s.next in s'.tickets ==> s'.tickets[s.next].task == Some(task) && back == [])
            && (Wake !in ops && s.next !in s'.tickets ==> back == [task])
  {
    SuspensionOutcome(s, refs, ops, Some(task));
    SummaryOfBag(refs, ops);
  }

  /** Two interleavings of the same operations leave the same scheduler behind. */
  lemma SuspensionOrderIndependent(s: Sched, refs: nat, ops: seq<TicketOp>, ops': seq<TicketOp>, task: Option<Task>)
    requires OneSuspension(s, refs, ops, task) && OneSuspension(s, refs, ops', task)
    requires multiset(ops) == multiset(ops')
    ensures ApplyOps(Obtain(s, refs), s.next, ops) == ApplyOps(Obtain(s, refs), s.next, ops')
  {
    SuspensionOutcome(s, refs, ops, task);
    SuspensionOutcome(s, refs, ops', task);
    SummaryOfBag(refs, ops);
    SummaryOfBag(refs, ops');
    assert |ops| == |multiset(ops)| == |multiset(ops')| == |ops'|;
    assert Summarize(refs, ops) == Summarize(refs, ops');
  }

  // ----------------------------------------------------------------- the class

  class TaskScheduler {
    var next: Ticket
    var tickets: map<Ticket, Record>
    var runnable: seq<Task>
    var suspended: nat

    ghost function View(): Sched
      reads this
    {
      Sched(next, tickets, runnable, suspended)
    }

    constructor ()
      ensures View() == INITIAL && Valid(View())
    {
      next, tickets, runnable, suspended := 1, map[], [], 0;
    }

    predicate HasRunnableTasks()
      reads this
    {
      runnable != []
    }

    predicate HasSuspendedTasks()
      reads this
    {
      suspended > 0
    }

    predicate HasOutstandingTickets()
      reads this
    {
      tickets != map[]
    }

    /** The record is updated in place and erased with its last reference. */
    method PutRecord(ticket: Ticket, record: Record)
      modifies this
      ensures View() == Store(old(View()), ticket, record)
    {
      tickets := tickets - {ticket};
      if record.refs > 0 {
        tickets := tickets[ticket := record];
      }
    }

    method ScheduleTask(task: Task)
      requires Valid(View())
      modifies this
      ensures Valid(View()) && View() == Enqueue(old(View()), task)
    {
      runnable := runnable + [task];
    }

    method ObtainTicket(refs: nat) returns (ticket: Ticket)
      requires Valid(View()) && 0 < refs <= MAX_REFS
      modifies this
      ensures Valid(View()) && View() == Obtain(old(View()), refs) && ticket == old(next)
    {
      ObtainValid(View(), refs);
      ticket := next;
      next := next + 1;
      tickets := tickets[ticket := Record(refs, false, None)];
    }

    /** `back` is what is left in the caller's task afterwards. */
    method FinalizeTicket(ticket: Ticket, task: Option<Task>) returns (back: Option<Task>)
      requires Valid(View()) && ticket in tickets && tickets[ticket].task.None?
      modifies this
      ensures Valid(View()) && (View(), back) == Finalize(old(View()), ticket, task)
    {
      FinalizeValid(View(), ticket, task);
      back := task;
      var record := tickets[ticket];
      record := record.(refs := record.refs - 1);
      if task.None? {
        // The task already finished.
      } else if record.wasResumed {
        runnable := runnable + [task.value];
        back := None;
      } else if record.refs > 0 {
        record := record.(task := task);
        suspended := suspended + 1;
        back := None;
      }
      PutRecord(ticket, record);
    }

    method DuplicateTicket(ticket: Ticket)
      requires Valid(View()) && ticket in tickets && tickets[ticket].refs < MAX_REFS
      modifies this
      ensures Valid(View()) && View() == Duplicate(old(View()), ticket)
    {
      DuplicateValid(View(), ticket);
      PutRecord(ticket, tickets[ticket].(refs := tickets[ticket].refs + 1));
    }

    method ReleaseTicket(ticket: Ticket) returns (back: Option<Task>)
      requires Valid(View()) && ticket in tickets
      modifies this
      ensures old(tickets[ticket].task.Some? ==> 0 < suspended)
      ensures Valid(View()) && (View(), back) == Release(old(View()), ticket)
    {
      ReleaseValid(View(), ticket);
      var record := tickets[ticket];
      record := record.(refs := record.refs - 1);
      back := None;
      if record.refs == 0 {
        back := record.task;
        if back.Some? {
          suspended := suspended - 1;
        }
      }
      PutRecord(ticket, record);
    }

    method ResumeTaskWithTicket(ticket: Ticket) returns (didResume: bool)
      requires Valid(View()) && ticket in tickets
      modifies this
      ensures old(tickets[ticket].task.Some? ==> 0 < suspended)
      ensures Valid(View()) && View() == Resume(old(View()), ticket)
      ensures didResume <==> |runnable| == |old(runnable)| + 1
    {
      ResumeValid(View(), ticket);
      didResume := false;
      var record := tickets[ticket];
      record := record.(refs := record.refs - 1);
      if !record.wasResumed {
        record := record.(wasResumed := true);
        if record.task.Some? {
          didResume := true;
          suspended := suspended - 1;
          runnable := runnable + [record.task.value];
          record := record.(task := None);
        }
      }
      PutRecord(ticket, record);
    }

    method TakeRunnableTasks() returns (tasks: seq<Task>)
      requires Valid(View())
      modifies this
      ensures Valid(View()) && (View(), tasks) == TakeRunnable(old(View()))
    {
      tasks := runnable;
      runnable := [];
    }

    /** The table is walked in ticket order, as an ordered map is. */
    method TakeAllTasks() returns (tasks: seq<Task>)
      requires Valid(View())
      modifies this
      ensures Valid(View()) && (View(), tasks) == TakeAll(old(View()))
    {
      ghost var s := View();
      TakeAllValid(s);
      tasks := runnable;
      runnable := [];
      if suspended > 0 {
        for t := 0 to next
          invariant next == s.next && runnable == [] && tickets.Keys == s.tickets.Keys
          invariant forall u :: u in tickets ==>
            tickets[u] == if u < t then s.tickets[u].(task := None) else s.tickets[u]
          invariant tasks == s.runnable + ParkedTasks(s.tickets, t)
          invariant suspended == |Holders(tickets)|
        {
          if t in tickets && tickets[t].task.Some? {
            OneRecord(tickets, tickets[t := tickets[t].(task := None)], t);
            suspended := suspended - 1;
            tasks := tasks + [tickets[t].task.value];
            tickets := tickets[t := tickets[t].(task := None)];
          }
        }
        assert Holders(tickets) == {};
      } else {
        SuspendedIffHolder(s);
        NoneParked(s.tickets, next);
      }
      assert tickets == TakeAll(s).0.tickets;
      assert View() == TakeAll(s).0 && tasks == TakeAll(s).1;
    }
  }
}
