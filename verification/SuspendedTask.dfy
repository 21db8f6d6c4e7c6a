/**
 * The handle to a suspended task (fit-promise/promise.cc): a resolver pointer and a ticket.
 *
 * Handles are copied, moved, assigned, swapped, resumed and dropped by arbitrary code.
 * The executor's protocol speaks of a bag of live tickets instead; this module shows that
 * the handles are such a bag, whatever the program does with them.
 */
module SuspendedTask {
  import opened Arithmetic
  import opened Scheduler
  import opened Executor

  // ----------------------------------------------------------------- the handles

  /** Empty is a null resolver pointer. */
  datatype Handle = Empty | Holding(ticket: Ticket)

  type Name = nat

  /** Every handle object that is alive. */
  type Pool = map<Name, Handle>

  datatype Op =
    | CopyNew(to: Name, from: Name)
    | MoveNew(to: Name, from: Name)
    | CopyAssign(to: Name, from: Name)
    | MoveAssign(to: Name, from: Name)
    | Swap(to: Name, from: Name)
    | ResumeTask(to: Name)
    | Reset(to: Name)
    | Destruct(to: Name)

  predicate CanDo(pool: Pool, op: Op) {
    match op
    case CopyNew(to, from) => to !in pool && from in pool
    case MoveNew(to, from) => to !in pool && from in pool
    case CopyAssign(to, from) => to in pool && from in pool
    case MoveAssign(to, from) => to in pool && from in pool
    case Swap(to, from) => to in pool && from in pool
    case ResumeTask(to) => to in pool
    case Reset(to) => to in pool
    case Destruct(to) => to in pool
  }

  function ResolveCalls(h: Handle, resume: bool): seq<Step> {
    if h.Empty? then [] else [Resolve(h.ticket, resume)]
  }

  function CopyCalls(h: Handle): seq<Step> {
    if h.Empty? then [] else [Copy(h.ticket)]
  }

  /** The calls into the resolver, in order. */
  function Calls(pool: Pool, op: Op): seq<Step>
    requires CanDo(pool, op)
  {
    match op
    case CopyNew(to, from) => CopyCalls(pool[from])
    case MoveNew(to, from) => []
    case CopyAssign(to, from) => if to == from then [] else ResolveCalls(pool[to], false) + CopyCalls(pool[from])
    case MoveAssign(to, from) => if to == from then [] else ResolveCalls(pool[to], false)
    case Swap(to, from) => []
    case ResumeTask(to) => ResolveCalls(pool[to], true)
    case Reset(to) => ResolveCalls(pool[to], false)
    case Destruct(to) => ResolveCalls(pool[to], false)
  }

  function Do(pool: Pool, op: Op): Pool
    requires CanDo(pool, op)
  {
    match op
    case CopyNew(to, from) => pool[to := pool[from]]
    case MoveNew(to, from) => pool[from := Empty][to := pool[from]]
    case CopyAssign(to, from) => pool[to := pool[from]]
    case MoveAssign(to, from) => if to == from then pool else pool[from := Empty][to := pool[from]]
    case Swap(to, from) => pool[to := pool[from]][from := pool[to]]
    case ResumeTask(to) => pool[to := Empty]
    case Reset(to) => pool[to := Empty]
    case Destruct(to) => pool - {to}
  }

  // ------------------------------------------------------- handles are references

  function At(pool: Pool, n: Name): Handle {
    if n in pool then pool[n] else Empty
  }

  ghost function HoldersOfTicket(pool: Pool, t: Ticket): set<Name> {
    set n | n in pool && pool[n] == Holding(t)
  }

  /** The live tickets of the executor are exactly the tickets the handles hold. */
  ghost predicate Backed(pool: Pool, s: State) {
    forall t: Ticket :: s.handles[t] == |HoldersOfTicket(pool, t)|
  }

  lemma OneHandle(a: Pool, b: Pool, n: Name, t: Ticket)
    requires forall m :: m != n ==> At(a, m) == At(b, m)
    ensures |HoldersOfTicket(b, t)| + One(At(a, n) == Holding(t)) == |HoldersOfTicket(a, t)|
              + One(At(b, n) == Holding(t))
  {
    assert forall m :: m in HoldersOfTicket(a, t) <==> At(a, m) == Holding(t);
    assert forall m :: m in HoldersOfTicket(b, t) <==> At(b, m) == Holding(t);
    SameElsewhere(HoldersOfTicket(a, t), HoldersOfTicket(b, t), n);
  }

  /** A ticket can be copied again: 32 bits count more references than there are handles. */
  ghost predicate RoomToCopy(s: State, h: Handle) {
    h.Holding? ==> RefsOf(s.g.sched, h.ticket) < MAX_REFS
  }

  function Bag(h: Handle): multiset<Ticket> {
    if h.Empty? then multiset{} else multiset{h.ticket}
  }

  lemma OneCall(s: State, step: Step)
    requires Inv(s) && Enabled(s, step)
    ensures Legal(s, [step]) && Exec(s, [step]) == Next(s, step) && Inv(Next(s, step))
  {
    StepKeeps(s, step);
    assert [step][1..] == [];
    assert Legal(Next(s, step), []);
  }

  lemma ReleaseRefs(s: State, t: Ticket)
    requires Inv(s) && t in s.handles
    ensures forall u :: RefsOf(NextResolve(s, t, false).g.sched, u) <= RefsOf(s.g.sched, u)
  {
    ReleaseValid(s.g.sched, t);
  }

  ghost predicate Roomy(pool: Pool, s: State, op: Op)
    requires CanDo(pool, op)
  {
    op.CopyNew? || op.CopyAssign? ==> RoomToCopy(s, pool[op.from])
  }

  // ------------------------------------------- threads between the calls they make

  /** flight: the tickets on the stacks of threads, which a handle gave up and the resolver was not
      yet told about, or which the resolver returned and no handle holds yet. */
  datatype Program = Program(pool: Pool, flight: multiset<Ticket>, s: State)

  const START: Program := Program(map[], multiset{}, INIT)

  /** What one thread does at a time: change one handle object, or make one call. */
  datatype Micro =
    | Construct(n: Name)
    | Destroy(n: Name)
    | Detach(n: Name)
    | Attach(n: Name, ticket: Ticket)
    | CallCopy(ticket: Ticket)
    | CallResolve(ticket: Ticket, resume: bool)
    | CallSuspend
    | Other(step: Step)

  ghost predicate CanTake(p: Program, m: Micro) {
    match m
    case Construct(n) => n !in p.pool
    case Destroy(n) => n in p.pool && p.pool[n].Empty?
    case Detach(n) => n in p.pool && p.pool[n].Holding?
    case Attach(n, t) => n in p.pool && p.pool[n].Empty? && t in p.flight
    case CallCopy(t) => (t in p.flight || HoldersOfTicket(p.pool, t) != {}) && RoomToCopy(p.s, Holding(t))
    case CallResolve(t, _) => t in p.flight
    case CallSuspend => Enabled(p.s, Suspend)
    case Other(step) => !step.Copy? && !step.Resolve? && !step.Suspend? && Enabled(p.s, step)
  }

  /** The call into the executor, if the thread makes one. */
  function CallOf(m: Micro): seq<Step> {
    match m
    case CallCopy(t) => [Copy(t)]
    case CallResolve(t, resume) => [Resolve(t, resume)]
    case CallSuspend => [Suspend]
    case Other(step) => [step]
    case _ => []
  }

  ghost function Take(p: Program, m: Micro): Program
    requires Legal(p.s, CallOf(m)) && CanTake(p, m)
  {
    var s := Exec(p.s, CallOf(m));
    match m
    case Construct(n) => p.(pool := p.pool[n := Empty])
    case Destroy(n) => p.(pool := p.pool - {n})
    case Detach(n) => p.(pool := p.pool[n := Empty], flight := p.flight + multiset{p.pool[n].ticket})
    case Attach(n, t) => p.(pool := p.pool[n := Holding(t)], flight := p.flight - multiset{t})
    case CallCopy(t) => p.(s := s, flight := p.flight + multiset{t})
    case CallResolve(t, _) => p.(s := s, flight := p.flight - multiset{t})
    case CallSuspend => p.(s := s, flight := p.flight + multiset{s.g.current})
    case Other(_) => p.(s := s)
  }

  /** The executor counts the tickets in handles and those in flight. */
  ghost predicate Consistent(p: Program) {
    && Inv(p.s)
    && forall t: Ticket :: p.s.handles[t] == |HoldersOfTicket(p.pool, t)| + p.flight[t]
  }

  lemma LiveTicket(p: Program, t: Ticket)
    requires Consistent(p) && (t in p.flight || HoldersOfTicket(p.pool, t) != {})
    ensures t in p.s.handles
  {
    assert p.s.handles[t] == |HoldersOfTicket(p.pool, t)| + p.flight[t];
  }

  lemma OtherKeepsHandles(s: State, step: Step)
    requires Inv(s) && Enabled(s, step) && !step.Copy? && !step.Resolve? && !step.Suspend?
    ensures Next(s, step).handles == s.handles
  {
  }

  lemma CallIsLegal(p: Program, m: Micro)
    requires Consistent(p) && CanTake(p, m)
    ensures Legal(p.s, CallOf(m)) && Inv(Exec(p.s, CallOf(m)))
  {
    match m {
      case CallCopy(t) => LiveTicket(p, t); OneCall(p.s, Copy(t));
      case CallResolve(t, resume) => LiveTicket(p, t); OneCall(p.s, Resolve(t, resume));
      case CallSuspend => OneCall(p.s, Suspend);
      case Other(step) => OneCall(p.s, step);
      case _ =>
    }
  }

  lemma HandleChanges(p: Program, m: Micro)
    requires Consistent(p) && CanTake(p, m) && CallOf(m) == []
    ensures Consistent(Take(p, m))
  {
    var p' := Take(p, m);
    forall t: Ticket
      ensures p'.s.handles[t] == |HoldersOfTicket(p'.pool, t)| + p'.flight[t]
    {
      assert p.s.handles[t] == |HoldersOfTicket(p.pool, t)| + p.flight[t];
      OneHandle(p.pool, p'.pool, m.n, t);
    }
  }

  lemma CallCounts(p: Program, m: Micro)
    requires Consistent(p) && CanTake(p, m) && Legal(p.s, CallOf(m)) && CallOf(m) != []
    ensures var p' := Take(p, m);
            p'.pool == p.pool && forall t: Ticket :: p'.s.handles[t] == |HoldersOfTicket(p.pool, t)| + p'.flight[t]
  {
    match m {
      case CallCopy(t) => LiveTicket(p, t); OneCall(p.s, Copy(t));
      case CallResolve(t, resume) => LiveTicket(p, t); OneCall(p.s, Resolve(t, resume));
      case CallSuspend => OneCall(p.s, Suspend);
      case Other(step) => OneCall(p.s, step); OtherKeepsHandles(p.s, step);
    }
  }

  /** Whatever a thread does next, the executor allows it and the counts stay right. */
  lemma MicroKeeps(p: Program, m: Micro)
    requires Consistent(p) && CanTake(p, m)
    ensures Legal(p.s, CallOf(m)) && Consistent(Take(p, m))
  {
    CallIsLegal(p, m);
    if CallOf(m) == [] { HandleChanges(p, m); } else { CallCounts(p, m); }
  }

  // ---------------------------------------------------------------- all programs

  ghost predicate Happens(p: Program, ms: seq<Micro>)
    decreases |ms|
  {
    ms == [] || (CanTake(p, ms[0]) && Legal(p.s, CallOf(ms[0])) && Happens(Take(p, ms[0]), ms[1..]))
  }

  ghost function Outcome(p: Program, ms: seq<Micro>): Program
    requires Happens(p, ms)
    decreases |ms|
  {
    if ms == [] then p else Outcome(Take(p, ms[0]), ms[1..])
  }

  lemma {:induction false} ReachableExec(s: State, steps: seq<Step>)
    requires Reachable(s) && Legal(s, steps)
    ensures Reachable(Exec(s, steps))
    decreases |steps|
  {
    if steps != [] {
      ReachableStep(s, steps[0]);
      ReachableExec(Next(s, steps[0]), steps[1..]);
    }
  }

  lemma {:induction false} ProgramKeeps(p: Program, ms: seq<Micro>)
    requires Reachable(p.s) && Consistent(p) && Happens(p, ms)
    ensures Consistent(Outcome(p, ms)) && Reachable(Outcome(p, ms).s)
    decreases |ms|
  {
    if ms != [] {
      MicroKeeps(p, ms[0]);
      ReachableExec(p.s, CallOf(ms[0]));
      ProgramKeeps(Take(p, ms[0]), ms[1..]);
    }
  }

  lemma {:induction false} HappensThen(p: Program, a: seq<Micro>, b: seq<Micro>)
    requires Happens(p, a) && Happens(Outcome(p, a), b)
    ensures Happens(p, a + b) && Outcome(p, a + b) == Outcome(Outcome(p, a), b)
    decreases |a|
  {
    if a == [] {
      assert a + b == b;
    } else {
      assert (a + b)[0] == a[0] && (a + b)[1..] == a[1..] + b;
      HappensThen(Take(p, a[0]), a[1..], b);
    }
  }

  lemma HappensOne(p: Program, m: Micro)
    requires Consistent(p) && CanTake(p, m)
    ensures Happens(p, [m]) && Outcome(p, [m]) == Take(p, m) && Consistent(Take(p, m))
  {
    MicroKeeps(p, m);
    assert [m][1..] == [];
    assert Happens(Take(p, m), []);
  }

  lemma StartConsistent()
    ensures Reachable(START.s) && Consistent(START)
  {
    InitReachable();
    ReachableInv(INIT);
    assert forall t: Ticket :: HoldersOfTicket(map[], t) == {};
  }

  /** Every program can go on with whatever some thread can do next: no call is ever refused. */
  lemma HappensSnoc(ms: seq<Micro>, m: Micro)
    requires Happens(START, ms) && CanTake(Outcome(START, ms), m)
    ensures Happens(START, ms + [m])
  {
    StartConsistent();
    ProgramKeeps(START, ms);
    HappensOne(Outcome(START, ms), m);
    HappensThen(START, ms, [m]);
  }

  /** Whatever threads do with their handles, in any interleaving of their single steps, a ticket's
      references are the handles that hold it, plus those in flight, plus one while its task runs;
      and after shutdown the dispatcher is gone exactly when no ticket is held or in flight. */
  lemma HandlesAreReferences(ms: seq<Micro>)
    requires Happens(START, ms)
    ensures var p := Outcome(START, ms);
            && Reachable(p.s)
            && (forall t: Ticket :: RefsOf(p.s.g.sched, t) ==
                  |HoldersOfTicket(p.pool, t)| + p.flight[t] + One(t == p.s.g.current != 0))
            && (p.s.frees == 1 <==>
                  p.s.g.wasShutdown && p.flight == multiset{} && forall n :: n in p.pool ==> p.pool[n].Empty?)
  {
    StartConsistent();
    ProgramKeeps(START, ms);
    var p := Outcome(START, ms);
    DispatcherLifetime(p.s);
    NoHandles(p);
  }

  lemma NoHandles(p: Program)
    requires Consistent(p)
    ensures p.s.handles == multiset{} <==> p.flight == multiset{} && forall n :: n in p.pool ==> p.pool[n].Empty?
  {
    if n :| n in p.pool && p.pool[n].Holding? {
      assert n in HoldersOfTicket(p.pool, p.pool[n].ticket);
      LiveTicket(p, p.pool[n].ticket);
    }
    if t :| t in p.flight { LiveTicket(p, t); }
    if t :| t in p.s.handles {
      assert p.s.handles[t] == |HoldersOfTicket(p.pool, t)| + p.flight[t];
      if t !in p.flight {
        var n :| n in HoldersOfTicket(p.pool, t);
      }
    }
  }

  // -------------------------------------------- an operation, one step at a time

  function ReleaseMicros(n: Name, h: Handle, resume: bool): seq<Micro> {
    if h.Empty? then [] else [Detach(n), CallResolve(h.ticket, resume)]
  }

  function CopyMicros(to: Name, h: Handle): seq<Micro> {
    if h.Empty? then [] else [CallCopy(h.ticket), Attach(to, h.ticket)]
  }

  function MoveMicros(to: Name, from: Name, h: Handle): seq<Micro> {
    if h.Empty? then [] else [Detach(from), Attach(to, h.ticket)]
  }

  function DetachMicros(n: Name, h: Handle): seq<Micro> {
    if h.Empty? then [] else [Detach(n)]
  }

  function AttachMicros(n: Name, h: Handle): seq<Micro> {
    if h.Empty? then [] else [Attach(n, h.ticket)]
  }

  /** What the thread that performs an operation does, in order, if nobody touches these handles
      meanwhile; other threads may do anything else between any two of these. */
  function Micros(pool: Pool, op: Op): seq<Micro>
    requires CanDo(pool, op)
  {
    match op
    case CopyNew(to, from) => [Construct(to)] + CopyMicros(to, pool[from])
    case MoveNew(to, from) => [Construct(to)] + MoveMicros(to, from, pool[from])
    case CopyAssign(to, from) =>
      if to == from then [] else ReleaseMicros(to, pool[to], false) + CopyMicros(to, pool[from])
    case MoveAssign(to, from) =>
      if to == from then [] else ReleaseMicros(to, pool[to], false) + MoveMicros(to, from, pool[from])
    case Swap(to, from) =>
      if to == from then []
      else DetachMicros(to, pool[to]) + DetachMicros(from, pool[from])
           + AttachMicros(to, pool[from]) + AttachMicros(from, pool[to])
    case ResumeTask(to) => ReleaseMicros(to, pool[to], true)
    case Reset(to) => ReleaseMicros(to, pool[to], false)
    case Destruct(to) => ReleaseMicros(to, pool[to], false) + [Destroy(to)]
  }

  /** The steps lead to this program, which is consistent. */
  ghost predicate Leads(p: Program, ms: seq<Micro>, p': Program) {
    Happens(p, ms) && Outcome(p, ms) == p' && Consistent(p')
  }

  lemma LeadsThen(p: Program, a: seq<Micro>, q: Program, b: seq<Micro>, r: Program)
    requires Leads(p, a, q) && Leads(q, b, r)
    ensures Leads(p, a + b, r)
  {
    HappensThen(p, a, b);
  }

  lemma LeadsOne(p: Program, m: Micro)
    requires Consistent(p) && CanTake(p, m)
    ensures Legal(p.s, CallOf(m)) && Leads(p, [m], Take(p, m))
  {
    HappensOne(p, m);
  }

  lemma ReleaseLeads(p: Program, n: Name, resume: bool)
    requires Consistent(p) && n in p.pool
    ensures Legal(p.s, ResolveCalls(p.pool[n], resume))
    ensures Leads(p, ReleaseMicros(n, p.pool[n], resume),
                  p.(pool := p.pool[n := Empty], s := Exec(p.s, ResolveCalls(p.pool[n], resume))))
  {
    if p.pool[n].Empty? {
      assert p.pool[n := Empty] == p.pool;
    } else {
      var t := p.pool[n].ticket;
      LeadsOne(p, Detach(n));
      var q := Take(p, Detach(n));
      LeadsOne(q, CallResolve(t, resume));
      LeadsThen(p, [Detach(n)], q, [CallResolve(t, resume)], Take(q, CallResolve(t, resume)));
      assert [Detach(n)] + [CallResolve(t, resume)] == ReleaseMicros(n, p.pool[n], resume);
      assert p.flight + multiset{t} - multiset{t} == p.flight;
    }
  }

  lemma DetachLeads(p: Program, n: Name)
    requires Consistent(p) && n in p.pool
    ensures Leads(p, DetachMicros(n, p.pool[n]), p.(pool := p.pool[n := Empty], flight := p.flight + Bag(p.pool[n])))
  {
    if p.pool[n].Empty? {
      assert p.pool[n := Empty] == p.pool && p.flight + multiset{} == p.flight;
    } else {
      LeadsOne(p, Detach(n));
    }
  }

  lemma AttachLeads(p: Program, n: Name, h: Handle)
    requires Consistent(p) && n in p.pool && p.pool[n].Empty? && Bag(h) <= p.flight
    ensures Leads(p, AttachMicros(n, h), p.(pool := p.pool[n := h], flight := p.flight - Bag(h)))
  {
    if h.Empty? {
      assert p.pool[n := Empty] == p.pool && p.flight - multiset{} == p.flight;
    } else {
      assert h.ticket in Bag(h);
      LeadsOne(p, Attach(n, h.ticket));
    }
  }

  lemma CopyLeads(p: Program, to: Name, from: Name)
    requires Consistent(p) && to in p.pool && from in p.pool && p.pool[to].Empty? && RoomToCopy(p.s, p.pool[from])
    ensures Legal(p.s, CopyCalls(p.pool[from]))
    ensures Leads(p, CopyMicros(to, p.pool[from]),
                  p.(pool := p.pool[to := p.pool[from]], s := Exec(p.s, CopyCalls(p.pool[from]))))
  {
    if p.pool[from].Empty? {
      assert p.pool[to := Empty] == p.pool;
    } else {
      var t := p.pool[from].ticket;
      assert from in HoldersOfTicket(p.pool, t);
      LeadsOne(p, CallCopy(t));
      var q := Take(p, CallCopy(t));
      AttachLeads(q, to, Holding(t));
      var r := q.(pool := q.pool[to := Holding(t)], flight := q.flight - multiset{t});
      LeadsThen(p, [CallCopy(t)], q, [Attach(to, t)], r);
      assert r.flight == p.flight;
      assert [CallCopy(t)] + [Attach(to, t)] == CopyMicros(to, p.pool[from]);
    }
  }

  lemma MoveLeads(p: Program, to: Name, from: Name)
    requires Consistent(p) && to in p.pool && from in p.pool && to != from && p.pool[to].Empty?
    ensures Leads(p, MoveMicros(to, from, p.pool[from]), p.(pool := p.pool[from := Empty][to := p.pool[from]]))
  {
    var h := p.pool[from];
    DetachLeads(p, from);
    var q := p.(pool := p.pool[from := Empty], flight := p.flight + Bag(h));
    AttachLeads(q, to, h);
    var after := q.(pool := q.pool[to := h], flight := q.flight - Bag(h));
    LeadsThen(p, DetachMicros(from, h), q, AttachMicros(to, h), after);
    assert DetachMicros(from, h) + AttachMicros(to, h) == MoveMicros(to, from, h);
    assert q.flight - Bag(h) == p.flight;
  }

  /** Where an operation leads: its handles, its calls, and nothing left in flight. */
  ghost predicate Splits(p: Program, op: Op)
    requires CanDo(p.pool, op)
  {
    && Legal(p.s, Calls(p.pool, op))
    && Leads(p, Micros(p.pool, op), p.(pool := Do(p.pool, op), s := Exec(p.s, Calls(p.pool, op))))
  }

  lemma {:induction false} ExecThen(s: State, a: seq<Step>, b: seq<Step>)
    requires Legal(s, a) && Legal(Exec(s, a), b)
    ensures Legal(s, a + b) && Exec(s, a + b) == Exec(Exec(s, a), b)
    decreases |a|
  {
    if a == [] {
      assert a + b == b;
    } else {
      assert (a + b)[0] == a[0] && (a + b)[1..] == a[1..] + b;
      ExecThen(Next(s, a[0]), a[1..], b);
    }
  }

  /** Two stretches of steps that make up an operation. */
  lemma ThenSplits(p: Program, op: Op, a: seq<Micro>, q: Program, b: seq<Micro>, r: Program)
    requires CanDo(p.pool, op) && Legal(p.s, Calls(p.pool, op)) && Leads(p, a, q) && Leads(q, b, r)
    requires a + b == Micros(p.pool, op) && r == p.(pool := Do(p.pool, op), s := Exec(p.s, Calls(p.pool, op)))
    ensures Splits(p, op)
  {
    LeadsThen(p, a, q, b, r);
  }

  lemma CopyNewSplits(p: Program, to: Name, from: Name)
    requires Consistent(p) && CanDo(p.pool, CopyNew(to, from)) && RoomToCopy(p.s, p.pool[from])
    ensures Splits(p, CopyNew(to, from))
  {
    LeadsOne(p, Construct(to));
    var q := Take(p, Construct(to));
    CopyLeads(q, to, from);
    var r := q.(pool := q.pool[to := q.pool[from]], s := Exec(q.s, CopyCalls(q.pool[from])));
    assert r.pool == Do(p.pool, CopyNew(to, from));
    ThenSplits(p, CopyNew(to, from), [Construct(to)], q, CopyMicros(to, q.pool[from]), r);
  }

  lemma MoveNewSplits(p: Program, to: Name, from: Name)
    requires Consistent(p) && CanDo(p.pool, MoveNew(to, from))
    ensures Splits(p, MoveNew(to, from))
  {
    LeadsOne(p, Construct(to));
    var q := Take(p, Construct(to));
    MoveLeads(q, to, from);
    var r := q.(pool := q.pool[from := Empty][to := q.pool[from]]);
    assert r.pool == Do(p.pool, MoveNew(to, from));
    ThenSplits(p, MoveNew(to, from), [Construct(to)], q, MoveMicros(to, from, q.pool[from]), r);
  }

  /** Nobody's references grow by a release. */
  lemma ReleaseLeavesRoom(p: Program, n: Name, h: Handle)
    requires Consistent(p) && n in p.pool && RoomToCopy(p.s, h) && Legal(p.s, ResolveCalls(p.pool[n], false))
    ensures RoomToCopy(Exec(p.s, ResolveCalls(p.pool[n], false)), h)
  {
    if p.pool[n].Holding? {
      var t := p.pool[n].ticket;
      assert n in HoldersOfTicket(p.pool, t);
      LiveTicket(p, t);
      ReleaseRefs(p.s, t);
      OneCall(p.s, Resolve(t, false));
    }
  }

  lemma CopyAssignSplits(p: Program, to: Name, from: Name)
    requires Consistent(p) && CanDo(p.pool, CopyAssign(to, from)) && RoomToCopy(p.s, p.pool[from]) && to != from
    ensures Splits(p, CopyAssign(to, from))
  {
    var drop, copy := p.pool[to], p.pool[from];
    ReleaseLeads(p, to, false);
    ReleaseLeavesRoom(p, to, copy);
    var q := p.(pool := p.pool[to := Empty], s := Exec(p.s, ResolveCalls(drop, false)));
    CopyLeads(q, to, from);
    CopyAssignCalls(p, to, from);
    ThenSplits(p, CopyAssign(to, from), ReleaseMicros(to, drop, false), q, CopyMicros(to, copy),
               q.(pool := q.pool[to := copy], s := Exec(q.s, CopyCalls(copy))));
  }

  lemma CopyAssignCalls(p: Program, to: Name, from: Name)
    requires CanDo(p.pool, CopyAssign(to, from)) && to != from && Legal(p.s, ResolveCalls(p.pool[to], false))
    requires Legal(Exec(p.s, ResolveCalls(p.pool[to], false)), CopyCalls(p.pool[from]))
    ensures var (op, copy) := (CopyAssign(to, from), p.pool[from]);
            && Legal(p.s, Calls(p.pool, op)) && p.pool[to := Empty][to := copy] == Do(p.pool, op)
            && Exec(Exec(p.s, ResolveCalls(p.pool[to], false)), CopyCalls(copy)) == Exec(p.s, Calls(p.pool, op))
  {
    ExecThen(p.s, ResolveCalls(p.pool[to], false), CopyCalls(p.pool[from]));
  }

  lemma MoveAssignSplits(p: Program, to: Name, from: Name)
    requires Consistent(p) && CanDo(p.pool, MoveAssign(to, from)) && to != from
    ensures Splits(p, MoveAssign(to, from))
  {
    ReleaseLeads(p, to, false);
    var q := p.(pool := p.pool[to := Empty], s := Exec(p.s, ResolveCalls(p.pool[to], false)));
    MoveLeads(q, to, from);
    var r := q.(pool := q.pool[from := Empty][to := q.pool[from]]);
    assert r.pool == Do(p.pool, MoveAssign(to, from));
    ThenSplits(p, MoveAssign(to, from), ReleaseMicros(to, p.pool[to], false), q, MoveMicros(to, from, q.pool[from]), r);
  }

  lemma DetachBoth(p: Program, to: Name, from: Name)
    requires Consistent(p) && to in p.pool && from in p.pool && to != from
    ensures Leads(p, DetachMicros(to, p.pool[to]) + DetachMicros(from, p.pool[from]),
                  p.(pool := p.pool[to := Empty][from := Empty],
                     flight := p.flight + Bag(p.pool[to]) + Bag(p.pool[from])))
  {
    DetachLeads(p, to);
    var q := p.(pool := p.pool[to := Empty], flight := p.flight + Bag(p.pool[to]));
    DetachLeads(q, from);
    LeadsThen(p, DetachMicros(to, p.pool[to]), q, DetachMicros(from, q.pool[from]),
              q.(pool := q.pool[from := Empty], flight := q.flight + Bag(q.pool[from])));
  }

  lemma AttachBoth(p: Program, to: Name, from: Name, a: Handle, b: Handle)
    requires Consistent(p) && to in p.pool && from in p.pool && to != from
    requires p.pool[to].Empty? && p.pool[from].Empty? && Bag(a) + Bag(b) <= p.flight
    ensures Leads(p, AttachMicros(to, a) + AttachMicros(from, b),
                  p.(pool := p.pool[to := a][from := b], flight := p.flight - Bag(a) - Bag(b)))
  {
    AttachLeads(p, to, a);
    var q := p.(pool := p.pool[to := a], flight := p.flight - Bag(a));
    AttachLeads(q, from, b);
    var after := q.(pool := q.pool[from := b], flight := q.flight - Bag(b));
    LeadsThen(p, AttachMicros(to, a), q, AttachMicros(from, b), after);
  }

  lemma SwapSplits(p: Program, to: Name, from: Name)
    requires Consistent(p) && CanDo(p.pool, Swap(to, from)) && to != from
    ensures Splits(p, Swap(to, from))
  {
    var a, b := p.pool[to], p.pool[from];
    SwapValues(p.pool, p.flight, to, from);
    DetachBoth(p, to, from);
    var q := p.(pool := p.pool[to := Empty][from := Empty], flight := p.flight + Bag(a) + Bag(b));
    AttachBoth(q, to, from, b, a);
    var r := q.(pool := q.pool[to := b][from := a], flight := q.flight - Bag(b) - Bag(a));
    ThenSplits(p, Swap(to, from), DetachMicros(to, a) + DetachMicros(from, b), q,
               AttachMicros(to, b) + AttachMicros(from, a), r);
  }

  lemma SwapValues(pool: Pool, flight: multiset<Ticket>, to: Name, from: Name)
    requires CanDo(pool, Swap(to, from)) && to != from
    ensures var (a, b) := (pool[to], pool[from]);
            && pool[to := Empty][from := Empty][to := b][from := a] == Do(pool, Swap(to, from))
            && (DetachMicros(to, a) + DetachMicros(from, b)) + (AttachMicros(to, b) + AttachMicros(from, a))
               == Micros(pool, Swap(to, from))
    ensures BagsCancel(flight, Bag(pool[to]), Bag(pool[from]))
  {
    var w, x := DetachMicros(to, pool[to]), DetachMicros(from, pool[from]);
    var y, z := AttachMicros(to, pool[from]), AttachMicros(from, pool[to]);
    assert (w + x) + (y + z) == w + x + y + z;
  }

  ghost predicate BagsCancel(flight: multiset<Ticket>, a: multiset<Ticket>, b: multiset<Ticket>) {
    b + a <= flight + a + b && flight + a + b - b - a == flight
  }

  lemma DestructSplits(p: Program, n: Name)
    requires Consistent(p) && n in p.pool
    ensures Splits(p, Destruct(n))
  {
    ReleaseLeads(p, n, false);
    var q := p.(pool := p.pool[n := Empty], s := Exec(p.s, ResolveCalls(p.pool[n], false)));
    LeadsOne(q, Destroy(n));
    assert Take(q, Destroy(n)).pool == p.pool - {n};
    ThenSplits(p, Destruct(n), ReleaseMicros(n, p.pool[n], false), q, [Destroy(n)], Take(q, Destroy(n)));
  }

  lemma SelfSplits(p: Program, op: Op)
    requires Consistent(p) && CanDo(p.pool, op) && Micros(p.pool, op) == [] && Calls(p.pool, op) == []
    requires Do(p.pool, op) == p.pool
    ensures Splits(p, op)
  {
  }

  /** An operation is its steps: undisturbed they make exactly its calls, leave the handles as it
      does, and nothing in flight. */
  lemma OpSplits(p: Program, op: Op)
    requires Consistent(p) && CanDo(p.pool, op) && Roomy(p.pool, p.s, op)
    ensures Splits(p, op)
  {
    match op {
      case CopyNew(to, from) => CopyNewSplits(p, to, from);
      case MoveNew(to, from) => MoveNewSplits(p, to, from);
      case CopyAssign(to, from) => if to == from { SelfSplits(p, op); } else { CopyAssignSplits(p, to, from); }
      case MoveAssign(to, from) => if to == from { SelfSplits(p, op); } else { MoveAssignSplits(p, to, from); }
      case Swap(to, from) => if to == from { SelfSplits(p, op); } else { SwapSplits(p, to, from); }
      case ResumeTask(to) => ReleaseLeads(p, to, true);
      case Reset(to) => ReleaseLeads(p, to, false);
      case Destruct(to) => DestructSplits(p, to);
    }
  }

  /** Between operations, with nothing in flight: every handle operation makes only calls that the
      executor allows, each on a live ticket. */
  lemma OpRuns(pool: Pool, s: State, op: Op)
    requires Inv(s) && Backed(pool, s) && CanDo(pool, op) && Roomy(pool, s, op)
    ensures Legal(s, Calls(pool, op)) && Inv(Exec(s, Calls(pool, op)))
  {
    OpSplits(Program(pool, multiset{}, s), op);
  }

  /** ... and the live tickets stay exactly the tickets the handles hold. */
  lemma OpBacked(pool: Pool, s: State, op: Op)
    requires Inv(s) && Backed(pool, s) && CanDo(pool, op) && Roomy(pool, s, op)
    ensures Legal(s, Calls(pool, op)) && Backed(Do(pool, op), Exec(s, Calls(pool, op)))
  {
    OpSplits(Program(pool, multiset{}, s), op);
    var p := Program(Do(pool, op), multiset{}, Exec(s, Calls(pool, op)));
    assert Consistent(p);
    forall t: Ticket
      ensures p.s.handles[t] == |HoldersOfTicket(p.pool, t)|
    {
      assert p.s.handles[t] == |HoldersOfTicket(p.pool, t)| + p.flight[t];
    }
  }

  lemma CallQueues(s: State, step: Step)
    requires Inv(s) && Enabled(s, step) && (step.Copy? || step.Resolve?)
    ensures Next(s, step).g.sched.runnable == s.g.sched.runnable +
              if step.Resolve? && step.resume then Out(Slot(s.g.sched.tickets, step.ticket)) else []
  {
    assert s.g.sched.runnable + [] == s.g.sched.runnable;
    if step.Resolve? {
      if step.resume { ResumeQueues(s, step.ticket); } else { DropDoesNotResume(s, step.ticket); }
    }
  }

  ghost predicate NoResume(calls: seq<Step>) {
    forall i :: 0 <= i < |calls| ==> calls[i].Copy? || (calls[i].Resolve? && !calls[i].resume)
  }

  lemma {:induction false} NoResumeQueues(s: State, calls: seq<Step>)
    requires Inv(s) && Legal(s, calls) && NoResume(calls)
    ensures Exec(s, calls).g.sched.runnable == s.g.sched.runnable
    decreases |calls|
  {
    if calls != [] {
      CallQueues(s, calls[0]);
      StepKeeps(s, calls[0]);
      NoResumeQueues(Next(s, calls[0]), calls[1..]);
    }
  }

  lemma OnlyResumeCalls(pool: Pool, op: Op)
    requires CanDo(pool, op)
    ensures if op.ResumeTask? then Calls(pool, op) == ResolveCalls(pool[op.to], true) else NoResume(Calls(pool, op))
  {
  }

  /** Only resume_task lets a task run again: it queues the one that is parked under the handle's
      ticket; every other operation leaves the queue as it is. */
  lemma OnlyResumeQueues(pool: Pool, s: State, op: Op)
    requires Inv(s) && Backed(pool, s) && CanDo(pool, op) && Roomy(pool, s, op)
    ensures Legal(s, Calls(pool, op))
    ensures Exec(s, Calls(pool, op)).g.sched.runnable == s.g.sched.runnable +
              if op.ResumeTask? && pool[op.to].Holding? then Out(Slot(s.g.sched.tickets, pool[op.to].ticket)) else []
  {
    OpRuns(pool, s, op);
    OnlyResumeCalls(pool, op);
    assert s.g.sched.runnable + [] == s.g.sched.runnable;
    var calls := Calls(pool, op);
    if op.ResumeTask? && pool[op.to].Holding? {
      CallQueues(s, calls[0]);
      assert calls[1..] == [];
    } else {
      NoResumeQueues(s, calls);
    }
  }

  // ------------------------------------------------------------------- the class

  /** The dispatcher as a handle sees it: what was asked of it. */
  class Resolver {
    var calls: seq<Step>

    constructor ()
      ensures calls == []
    {
      calls := [];
    }

    method DuplicateTicket(ticket: Ticket) returns (copy: Ticket)
      modifies this
      ensures calls == old(calls) + [Copy(ticket)] && copy == ticket
    {
      calls := calls + [Copy(ticket)];
      copy := ticket;
    }

    method ResolveTicket(ticket: Ticket, resume: bool)
      modifies this
      ensures calls == old(calls) + [Resolve(ticket, resume)]
    {
      calls := calls + [Resolve(ticket, resume)];
    }
  }

  /** The calls made to a resolver, if there is one. */
  function CallsOf(r: Resolver?): seq<Step>
    reads r
  {
    if r == null then [] else r.calls
  }

  class SuspendedTask {
    var resolver: Resolver?
    var ticket: Ticket

    function View(): Handle
      reads this
    {
      if resolver == null then Empty else Holding(ticket)
    }

    constructor (r: Resolver, t: Ticket)
      ensures resolver == r && ticket == t
    {
      resolver, ticket := r, t;
    }

    constructor CopyOf(other: SuspendedTask)
      modifies other.resolver
      ensures resolver == other.resolver && View() == other.View()
      ensures resolver != null ==>
                resolver.calls == old(CallsOf(other.resolver)) + CopyCalls(View())
    {
      resolver := other.resolver;
      ticket := 0;
      new;
      if resolver != null {
        var copy := resolver.DuplicateTicket(other.ticket);
        ticket := copy;
      }
    }

    constructor MovedFrom(other: SuspendedTask)
      modifies other
      ensures resolver == old(other.resolver) && View() == old(other.View()) && other.View() == Empty
    {
      resolver, ticket := other.resolver, other.ticket;
      new;
      other.resolver := null;
    }

    /** The ticket is moved out before the call, so the handle is empty while it runs. */
    method ResolveNow(resume: bool)
      modifies this, resolver
      ensures View() == Empty && ticket == old(ticket)
      ensures old(resolver) != null ==>
                old(resolver).calls == old(CallsOf(resolver)) + old(ResolveCalls(View(), resume))
    {
      if resolver != null {
        var cachedResolver, cachedTicket := resolver, ticket;
        resolver := null;
        cachedResolver.ResolveTicket(cachedTicket, resume);
      }
    }

    /** Self-assignment does nothing; otherwise the old ticket is released before the new one
        is duplicated, on whichever resolvers the two handles have. */
    method AssignCopy(other: SuspendedTask)
      modifies this, resolver, other.resolver
      ensures resolver == old(other.resolver) && View() == old(other.View())
      ensures other != this ==> other.resolver == old(other.resolver) && other.ticket == old(other.ticket)
      ensures forall r: Resolver | r == old(resolver) || r == old(other.resolver) ::
                r.calls == old(r.calls)
                           + (if this != other && r == old(resolver) then old(ResolveCalls(View(), false)) else [])
                           + (if this != other && r == old(other.resolver) then old(CopyCalls(other.View())) else [])
    {
      if this != other {
        ResolveNow(false);
        resolver := other.resolver;
        ticket := 0;
        if resolver != null {
          var copy := resolver.DuplicateTicket(other.ticket);
          ticket := copy;
        }
      }
    }

    method AssignMove(other: SuspendedTask)
      modifies this, other, resolver
      ensures View() == old(other.View()) && resolver == old(other.resolver)
      ensures this != other ==> other.View() == Empty
      ensures forall r: Resolver | r == old(resolver) ::
                r.calls == old(r.calls) + if this != other then old(ResolveCalls(View(), false)) else []
    {
      if this != other {
        ResolveNow(false);
        resolver := other.resolver;
        ticket := other.ticket;
        other.resolver := null;
      }
    }

    method SwapWith(other: SuspendedTask)
      modifies this, other
      ensures View() == old(other.View()) && other.View() == old(View())
      ensures resolver == old(other.resolver) && other.resolver == old(resolver)
    {
      if this != other {
        resolver, other.resolver := other.resolver, resolver;
        ticket, other.ticket := other.ticket, ticket;
      }
    }
  }
}
