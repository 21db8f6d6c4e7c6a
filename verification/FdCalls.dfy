/**
 * Calls on the descriptor table by many threads at once (fdio/unistd.cc, fdio/fd.cc, fdio/fdio.cc).
 *
 * A call is split where other threads can get in: every block under fdio_lock that changes one
 * slot, every change of a reference count, the close and the deletion of an object.  dup and dup2
 * keep the lock over several of these; counts can still be changed by others meanwhile.
 *
 * The result is that all runs are serial: there is an order of the calls in which each of them,
 * performed at once, leaves the table and gives the result that it has here.
 */
module FdCalls {
  import opened Arithmetic
  import opened Wrappers
  import opened FdTable

  /** One call; also the name of the object that it makes. */
  type Tid = nat

  datatype Call =
    | OpenNew
    | CloseOf(fd: int)
    | DupOf(fd: int, start: int)
    | Dup2Of(fd: int, target: int)
    | TransferOf(fd: int, orClone: bool)
    | CloneOf(fd: int)

  /** How far a call is.  Placing: it has a reference and is about to put it into a slot.  Taking:
      it is about to ask whether it has the last reference.  Dropping: it is about to drop r, and
      then perhaps another one.  Owning: it brought the count to zero, or asked, and closes and
      deletes the object. */
  datatype Phase =
    | Begun
    | Placing(r: RefId)
    | Taking(r: RefId)
    | Dropping(r: RefId, more: Option<RefId>, out: Outcome)
    | Owning(o: Obj, closed: bool, more: Option<RefId>, out: Outcome)
    | Returned(out: Outcome)

  datatype Thread = Thread(call: Call, phase: Phase)

  /** A call that had its effect, and the result that was decided then. */
  datatype Entry = Entry(tid: Tid, call: Call, out: Outcome)

  /** holder and owner: which call has a reference or an object to close.  made: the objects whose
      calls had their effect.  history: the calls in the order of their effects. */
  datatype World = World(s: State, lock: Option<Tid>, threads: map<Tid, Thread>, holder: map<RefId, Tid>,
                         owner: map<Obj, Tid>, made: set<Obj>, history: seq<Entry>)

  function Initial(): World {
    World(Init(), None, map[], map[], map[], {}, [])
  }

  function OptionSet<T>(x: Option<T>): set<T> {
    if x.Some? then {x.value} else {}
  }

  function Refs(p: Phase): set<RefId> {
    match p
    case Placing(r) => {r}
    case Taking(r) => {r}
    case Dropping(r, more, _) => {r} + OptionSet(more)
    case Owning(_, _, more, _) => OptionSet(more)
    case _ => {}
  }

  function Owned(p: Phase): set<Obj> {
    if p.Owning? then {p.o} else {}
  }

  // ------------------------------------------------------------------ one call at once

  /** Whether an object's own answer is reported depends on who is last, not on the table. */
  function Plain(out: Outcome): Outcome {
    match out
    case Closed(_) => Success
    case Unwrapped(_) => Success
    case Cloned(_) => Success
    case UNAVAILABLE => Success
    case _ => out
  }

  /** A new object is bound to the lowest descriptor, or closed again. */
  function OpenFd(s: State, o: Obj): (State, Outcome) {
    var n := LowestFrom(s.slots, 0);
    if n < |s.slots| then
      (SetSlot(s.(count := s.count[o := 1], closes := s.closes[o := 0]), n, Holds(o)), Fd(n))
    else (s.(closes := s.closes[o := 1]), EMFILE)
  }

  /** The new object is under the lowest descriptor that was available, and everything else stays; or
      there was none, and it is closed. */
  lemma OpenLaw(s: State, o: Obj)
    ensures var (s', out) := OpenFd(s, o);
            if NoneFrom(s, 0) then out == EMFILE && s' == s.(closes := s.closes[o := 1])
            else
              && out.Fd? && IsLowest(s, 0, out.fd) && s'.slots == s.slots[out.fd := Holds(o)]
              && s'.count == s.count[o := 1] && s'.closes == s.closes[o := 0]
              && s'.refs == s.refs && s'.owners == s.owners
  {
  }

  /** The call as one step of a table that nobody else uses. */
  function Serial(s: State, t: Tid, call: Call): (State, Outcome) {
    match call
    case OpenNew => OpenFd(s, t)
    case CloseOf(fd) => CloseFd(s, fd, 0)
    case DupOf(fd, start) => DupFrom(s, fd, start)
    case Dup2Of(fd, target) => Dup2(s, fd, target)
    case TransferOf(fd, orClone) => Transfer(s, fd, 0, if orClone then Some(0) else None)
    case CloneOf(fd) => (s, if Bound(s, fd) then Cloned(0) else INVALID_ARGS)
  }

  // ---------------------------------------------------------------- one call, split up

  predicate NeedsLock(th: Thread) {
    match th.phase
    case Begun => !th.call.OpenNew? && (th.call.DupOf? ==> th.call.start >= 0)
    case Placing(_) => th.call.OpenNew?
    case _ => false
  }

  /** The call goes on to another phase. */
  function Move(w: World, t: Tid, p: Phase, s: State, lock: Option<Tid>, holder: map<RefId, Tid>,
      owner: map<Obj, Tid>): World
    requires t in w.threads
  {
    World(s, lock, w.threads[t := Thread(w.threads[t].call, p)], holder, owner, w.made, w.history)
  }

  function Log(w: World, t: Tid, out: Outcome): seq<Entry>
    requires t in w.threads
  {
    w.history + [Entry(t, w.threads[t].call, Plain(out))]
  }

  /** The same, and the call has its effect on the table now. */
  function Effect(w: World, t: Tid, out: Outcome, p: Phase, s: State, holder: map<RefId, Tid>, made: set<Obj>): World
    requires t in w.threads
  {
    World(s, w.lock, w.threads[t := Thread(w.threads[t].call, p)], holder, w.owner, made, Log(w, t, out))
  }

  function Fail(w: World, t: Tid, out: Outcome): World
    requires t in w.threads
  {
    Effect(w, t, out, Returned(out), w.s, w.holder, w.made)
  }

  /** The slot gives its reference to the call. */
  function Unbind(w: World, t: Tid, fd: int, none: Outcome): World
    requires t in w.threads
  {
    if !Bound(w.s, fd) then Fail(w, t, none)
    else
      var r := w.s.nextRef;
      Effect(w, t, Success, Taking(r), ReleaseSlot(w.s, fd), w.holder[r := t], w.made)
  }

  /** The call gets a new reference to what is in the slot, and keeps the lock if it goes on. */
  function Fetch(w: World, t: Tid, fd: int, status: int): World
    requires t in w.threads && Bound(w.s, fd)
  {
    var r := w.s.nextRef;
    var (s, holder) := (GetRef(w.s, fd), w.holder[r := t]);
    if w.threads[t].call.CloneOf? then
      Effect(w, t, Cloned(status), Dropping(r, None, Cloned(status)), s, holder, w.made)
    else Move(w, t, Placing(r), s, Some(t), holder, w.owner)
  }

  function Begin(w: World, t: Tid, status: int): World
    requires t in w.threads
  {
    match w.threads[t].call
    case OpenNew =>
      var r := w.s.nextRef;
      var s := AddRef(w.s.(count := w.s.count[t := 1], closes := w.s.closes[t := 0]), t);
      Move(w, t, Placing(r), s, w.lock, w.holder[r := t], w.owner)
    case CloseOf(fd) => Unbind(w, t, fd, EBADF)
    case TransferOf(fd, _) => Unbind(w, t, fd, INVALID_ARGS)
    case CloneOf(fd) => if Bound(w.s, fd) then Fetch(w, t, fd, status) else Fail(w, t, INVALID_ARGS)
    case DupOf(fd, start) =>
      if start < 0 then Fail(w, t, EINVAL)
      else if Bound(w.s, fd) then Fetch(w, t, fd, status)
      else Fail(w, t, EBADF)
    case Dup2Of(fd, target) =>
      if IsFd(w.s, target) && Bound(w.s, fd) then Fetch(w, t, fd, status) else Fail(w, t, EBADF)
  }

  /** The reference is put into the lowest slot from start on. */
  function PlaceLowest(w: World, t: Tid, r: RefId, start: nat, made: set<Obj>): World
    requires t in w.threads && r in w.s.refs
  {
    var n := LowestFrom(w.s.slots, start);
    if n < |w.s.slots| then
      Effect(w, t, Fd(n), Dropping(r, None, Fd(n)), PutInto(w.s, n, r, Available), w.holder, made)
    else Effect(w, t, EMFILE, Dropping(r, None, EMFILE), w.s, w.holder, made)
  }

  function PlaceAt(w: World, t: Tid, r: RefId, target: int): World
    requires t in w.threads && r in w.s.refs && IsFd(w.s, target)
  {
    var (p, s, out) := (w.s.nextRef, ReplaceSlot(w.s, target, r), Fd(target));
    if w.s.slots[target].Holds? then
      Effect(w, t, out, Dropping(r, Some(p), out), s, w.holder[p := t], w.made)
    else Effect(w, t, out, Dropping(r, None, out), s, w.holder, w.made)
  }

  function Place(w: World, t: Tid): World
    requires t in w.threads && w.threads[t].phase.Placing? && w.threads[t].phase.r in w.s.refs
  {
    var Thread(call, Placing(r)) := w.threads[t];
    match call
    case OpenNew => PlaceLowest(w, t, r, 0, w.made + {t})
    case DupOf(_, start) => if start < 0 then w else PlaceLowest(w, t, r, start, w.made)
    case Dup2Of(_, target) => if IsFd(w.s, target) then PlaceAt(w, t, r, target) else w
    case _ => w
  }

  /** GetLastReference, and what the call does with the answer. */
  function Take(w: World, t: Tid, status: int): World
    requires t in w.threads && w.threads[t].phase.Taking? && w.threads[t].phase.r in w.s.refs
  {
    var Thread(call, Taking(r)) := w.threads[t];
    var o := w.s.refs[r];
    if Count(w.s, o) == 1 then
      var out := if call.TransferOf? then Unwrapped(status) else Closed(status);
      Move(w, t, Owning(o, false, None, out), TakeLastRef(w.s, r), w.lock, w.holder - {r}, w.owner[o := t])
    else
      var out := if !call.TransferOf? then Success else if call.orClone then Cloned(status) else UNAVAILABLE;
      Move(w, t, Dropping(r, None, out), w.s, w.lock, w.holder, w.owner)
  }

  function Then(more: Option<RefId>, out: Outcome): Phase {
    if more.Some? then Dropping(more.value, None, out) else Returned(out)
  }

  /** A reference is dropped; the lock of dup and dup2 goes with the first one. */
  function DropNext(w: World, t: Tid): World
    requires t in w.threads && w.threads[t].phase.Dropping? && w.threads[t].phase.r in w.s.refs
  {
    var Dropping(r, more, out) := w.threads[t].phase;
    var o := w.s.refs[r];
    var (s, lock, holder) := (DropRef(w.s, r), if w.lock == Some(t) then None else w.lock, w.holder - {r});
    if Count(w.s, o) <= 1 then Move(w, t, Owning(o, false, more, out), s, lock, holder, w.owner[o := t])
    else Move(w, t, Then(more, out), s, lock, holder, w.owner)
  }

  function Own(w: World, t: Tid): World
    requires t in w.threads && w.threads[t].phase.Owning?
  {
    var Owning(o, closed, more, out) := w.threads[t].phase;
    if closed then Move(w, t, Then(more, out), DeleteObject(w.s, o), w.lock, w.holder, w.owner - {o})
    else Move(w, t, Owning(o, true, more, out), CloseObject(w.s, o), w.lock, w.holder, w.owner)
  }

  datatype Event = Start(t: Tid, call: Call) | Go(t: Tid, status: int)

  /** What some thread can do next; status is what an object answers, if it is asked. */
  predicate Possible(w: World, e: Event) {
    match e
    case Start(t, _) => t !in w.threads
    case Go(t, _) =>
      && t in w.threads && !w.threads[t].phase.Returned? && (NeedsLock(w.threads[t]) ==> w.lock.None?)
  }

  /** The references that the call uses exist, and so does the object that it closes. */
  predicate Safe(w: World, e: Event) {
    e.Go? && e.t in w.threads ==>
      match w.threads[e.t].phase
      case Placing(r) => r in w.s.refs
      case Taking(r) => r in w.s.refs
      case Dropping(r, _, _) => r in w.s.refs
      case Owning(o, closed, _, _) => o in w.s.owners && w.s.owners[o] == closed
      case _ => true
  }

  function Happen(w: World, e: Event): World
    requires Possible(w, e) && Safe(w, e)
  {
    match e
    case Start(t, call) => w.(threads := w.threads[t := Thread(call, Begun)])
    case Go(t, status) =>
      match w.threads[t].phase
      case Begun => Begin(w, t, status)
      case Placing(_) => Place(w, t)
      case Taking(_) => Take(w, t, status)
      case Dropping(_, _, _) => DropNext(w, t)
      case Owning(_, _, _, _) => Own(w, t)
  }

  // ------------------------------------------------------------ what the table amounts to

  function CountIn(slots: seq<Slot>, o: Obj): nat {
    |SlotsOf(slots, o)|
  }

  /** The table when all calls are through: an object has the slots that lead to it, and one that
      no slot leads to was closed. */
  function Settled(slots: seq<Slot>, made: set<Obj>): State {
    State(slots, Counts(slots, made), map[], 0, map[], Closes(slots, made))
  }

  function Counts(slots: seq<Slot>, made: set<Obj>): map<Obj, nat> {
    map o | o in made && CountIn(slots, o) > 0 :: CountIn(slots, o)
  }

  function Closes(slots: seq<Slot>, made: set<Obj>): map<Obj, nat> {
    map o | o in made :: if CountIn(slots, o) == 0 then 1 else 0
  }

  ghost predicate SlotsMade(slots: seq<Slot>, made: set<Obj>) {
    forall i :: 0 <= i < |slots| && slots[i].Holds? ==> slots[i].obj in made
  }

  lemma InSlot(slots: seq<Slot>, i: int)
    requires 0 <= i < |slots| && slots[i].Holds?
    ensures CountIn(slots, slots[i].obj) > 0
  {
    assert i in SlotsOf(slots, slots[i].obj);
  }

  lemma NotInSlots(slots: seq<Slot>, made: set<Obj>, o: Obj)
    requires SlotsMade(slots, made) && o !in made
    ensures CountIn(slots, o) == 0
  {
    assert SlotsOf(slots, o) == {};
  }

  /** The counts of two tables differ for one object only. */
  ghost predicate DifferAt(a: seq<Slot>, b: seq<Slot>, o: Obj) {
    forall p :: p != o ==> CountIn(a, p) == CountIn(b, p)
  }

  lemma SlotTaken(slots: seq<Slot>, n: int)
    requires 0 <= n < |slots| && slots[n].Holds?
    ensures var (o, after) := (slots[n].obj, slots[n := Available]);
            DifferAt(slots, after, o) && CountIn(slots, o) == CountIn(after, o) + 1
  {
    var o, after := slots[n].obj, slots[n := Available];
    SlotChange(slots, n, Available, o);
    forall p | p != o
      ensures CountIn(slots, p) == CountIn(after, p)
    {
      SlotChange(slots, n, Available, p);
    }
  }

  lemma SlotGiven(slots: seq<Slot>, n: int, o: Obj)
    requires 0 <= n < |slots| && !slots[n].Holds?
    ensures var after := slots[n := Holds(o)]; DifferAt(slots, after, o) && CountIn(after, o) == CountIn(slots, o) + 1
  {
    var after := slots[n := Holds(o)];
    SlotChange(slots, n, Holds(o), o);
    forall p | p != o
      ensures CountIn(slots, p) == CountIn(after, p)
    {
      SlotChange(slots, n, Holds(o), p);
    }
  }

  lemma CountsDiffer(a: seq<Slot>, b: seq<Slot>, made: set<Obj>, o: Obj)
    requires DifferAt(a, b, o) && o in made
    ensures Counts(b, made) == if CountIn(b, o) == 0 then Counts(a, made) - {o} else Counts(a, made)[o := CountIn(b, o)]
    ensures Closes(b, made) == Closes(a, made)[o := if CountIn(b, o) == 0 then 1 else 0]
  {
  }

  lemma CountsGrow(a: seq<Slot>, b: seq<Slot>, made: set<Obj>, o: Obj)
    requires DifferAt(a, b, o) && o !in made
    ensures Counts(b, made + {o}) == if CountIn(b, o) == 0 then Counts(a, made) else Counts(a, made)[o := CountIn(b, o)]
    ensures Closes(b, made + {o}) == Closes(a, made)[o := if CountIn(b, o) == 0 then 1 else 0]
  {
  }

  lemma SettledRelease(slots: seq<Slot>, made: set<Obj>, fd: int)
    requires 0 <= fd < |slots| && slots[fd].Holds? && slots[fd].obj in made
    ensures Settled(slots[fd := Available], made) == Emptied(Settled(slots, made), fd)
  {
    SlotTaken(slots, fd);
    CountsDiffer(slots, slots[fd := Available], made, slots[fd].obj);
    assert CountIn(slots, slots[fd].obj) > 1 ==> Closes(slots, made)[slots[fd].obj := 0] == Closes(slots, made);
  }

  lemma SettledPut(slots: seq<Slot>, made: set<Obj>, n: int, o: Obj)
    requires 0 <= n < |slots| && !slots[n].Holds? && o in made && CountIn(slots, o) > 0
    ensures Settled(slots[n := Holds(o)], made) == SetSlot(UpRef(Settled(slots, made), o), n, Holds(o))
  {
    SlotGiven(slots, n, o);
    CountsDiffer(slots, slots[n := Holds(o)], made, o);
    assert Closes(slots, made)[o := 0] == Closes(slots, made);
  }

  lemma SettledOpen(slots: seq<Slot>, made: set<Obj>, n: int, o: Obj)
    requires 0 <= n < |slots| && !slots[n].Holds? && o !in made && CountIn(slots, o) == 0
    ensures var s := Settled(slots, made);
            Settled(slots[n := Holds(o)], made + {o}) ==
            SetSlot(s.(count := s.count[o := 1], closes := s.closes[o := 0]), n, Holds(o))
  {
    SlotGiven(slots, n, o);
    CountsGrow(slots, slots[n := Holds(o)], made, o);
  }

  lemma SettledLost(slots: seq<Slot>, made: set<Obj>, o: Obj)
    requires o !in made && CountIn(slots, o) == 0
    ensures var s := Settled(slots, made); Settled(slots, made + {o}) == s.(closes := s.closes[o := 1])
  {
    CountsGrow(slots, slots, made, o);
  }

  lemma CountsCommute(count: map<Obj, nat>, o: Obj, p: Obj, c: nat, d: nat)
    requires o != p
    ensures count[o := c] - {p} == (count - {p})[o := c] && count[o := c][p := d] == count[p := d][o := c]
  {
  }

  /** Replacing what is in a slot by another object is emptying it and filling it. */
  lemma RedirectedIs(s: State, n: int, o: Obj)
    requires IsFd(s, n) && s.slots[n].Holds? && s.slots[n].obj != o
    ensures Redirected(s, n, o) == SetSlot(UpRef(Emptied(s, n), o), n, Holds(o))
  {
    var p := s.slots[n].obj;
    assert s.slots[n := Available][n := Holds(o)] == s.slots[n := Holds(o)];
    if Count(s, p) <= 1 {
      CountsCommute(s.count, o, p, Count(s, o) + 1, 0);
    } else {
      CountsCommute(s.count, o, p, Count(s, o) + 1, s.count[p] - 1);
    }
  }

  lemma RedirectedSame(slots: seq<Slot>, made: set<Obj>, n: int)
    requires 0 <= n < |slots| && slots[n].Holds? && slots[n].obj in made
    ensures Redirected(Settled(slots, made), n, slots[n].obj) == Settled(slots, made)
  {
    var s, o := Settled(slots, made), slots[n].obj;
    InSlot(slots, n);
    var c := s.count[o];
    assert s.count[o := c + 1][o := c] == s.count && slots[n := Holds(o)] == slots;
  }

  lemma SettledReplace(slots: seq<Slot>, made: set<Obj>, n: int, o: Obj)
    requires 0 <= n < |slots| && o in made && CountIn(slots, o) > 0 && SlotsMade(slots, made)
    ensures Settled(slots[n := Holds(o)], made) == Redirected(Settled(slots, made), n, o)
  {
    if !slots[n].Holds? {
      SettledPut(slots, made, n, o);
    } else if slots[n].obj == o {
      assert slots[n := Holds(o)] == slots;
      RedirectedSame(slots, made, n);
    } else {
      var after := slots[n := Available];
      SettledRelease(slots, made, n);
      SlotTaken(slots, n);
      SettledPut(after, made, n, o);
      assert after[n := Holds(o)] == slots[n := Holds(o)];
      RedirectedIs(Settled(slots, made), n, o);
    }
  }

  // ------------------------------------------------------------------- the invariant

  function HeldBy(holder: map<nat, Tid>, t: Tid): set<nat> {
    set r | r in holder && holder[r] == t
  }

  /** What a call has is what its phase says. */
  ghost predicate Accounted(p: Phase, t: Tid, owners: map<Obj, bool>, holder: map<RefId, Tid>, owner: map<Obj, Tid>) {
    && HeldBy(holder, t) == Refs(p) && HeldBy(owner, t) == Owned(p)
    && (p.Owning? ==> p.o in owners && owners[p.o] == p.closed)
    && (p.Dropping? && p.more.Some? ==> p.more.value != p.r)
  }

  /** Every reference and every object to close belongs to one call. */
  ghost predicate Accounts(threads: map<Tid, Thread>, refs: set<RefId>, owners: map<Obj, bool>,
      holder: map<RefId, Tid>, owner: map<Obj, Tid>) {
    && holder.Keys == refs && owner.Keys == owners.Keys
    && (forall r :: r in holder ==> holder[r] in threads)
    && (forall o :: o in owner ==> owner[o] in threads)
    && (forall t :: t in threads ==> Accounted(threads[t].phase, t, owners, holder, owner))
  }

  ghost predicate References(w: World) {
    Accounts(w.threads, w.s.refs.Keys, w.s.owners, w.holder, w.owner)
  }

  /** While a call has the lock, the slot that it read still holds what it got there. */
  ghost predicate Fetched(w: World, t: Tid, fd: int, r: RefId) {
    w.lock == Some(t) && Bound(w.s, fd) && r in w.s.refs && w.s.slots[fd] == Holds(w.s.refs[r])
  }

  ghost predicate PhaseOk(w: World, t: Tid)
    requires t in w.threads
  {
    var th := w.threads[t];
    match th.phase
    case Begun => t !in w.s.closes
    case Placing(r) =>
      (match th.call
       case OpenNew => r in w.s.refs && w.s.refs[r] == t && t !in w.made
       case DupOf(fd, start) => start >= 0 && Fetched(w, t, fd, r)
       case Dup2Of(fd, target) => IsFd(w.s, target) && Fetched(w, t, fd, r)
       case _ => false)
    case Taking(_) => th.call.CloseOf? || th.call.TransferOf?
    case _ => true
  }

  ghost predicate LockOk(w: World) {
    w.lock.Some? ==>
      && w.lock.value in w.threads
      && (w.threads[w.lock.value].phase.Placing? || w.threads[w.lock.value].phase.Dropping?)
      && !w.threads[w.lock.value].call.OpenNew?
  }

  ghost predicate BeingOpened(w: World, o: Obj) {
    o in w.threads && w.threads[o].call.OpenNew? && w.threads[o].phase.Placing?
  }

  ghost predicate MadeOk(w: World) {
    && SlotsMade(w.s.slots, w.made) && w.made <= w.s.closes.Keys && w.made <= w.threads.Keys
    && forall o :: o in w.s.closes && o !in w.made ==> BeingOpened(w, o)
  }

  ghost predicate Tabled(w: World) {
    LockOk(w) && MadeOk(w) && forall t :: t in w.threads ==> PhaseOk(w, t)
  }

  /** The table after the calls, one at a time. */
  function SerialRun(history: seq<Entry>): State {
    if history == [] then Settled(Init().slots, {})
    else
      var last := history[|history| - 1];
      Serial(SerialRun(history[..|history| - 1]), last.tid, last.call).0
  }

  /** The results are those of the calls, one at a time. */
  ghost predicate SerialResults(history: seq<Entry>) {
    history == [] ||
    var (front, last) := (history[..|history| - 1], history[|history| - 1]);
    SerialResults(front) && last.out == Plain(Serial(SerialRun(front), last.tid, last.call).1)
  }

  predicate Pending(th: Thread) {
    th.phase.Begun? || th.phase.Placing?
  }

  /** The result that was decided when the call had its effect. */
  function Result(th: Thread): Outcome
    requires !Pending(th)
  {
    if th.phase.Taking? then Success else Plain(th.phase.out)
  }

  ghost predicate Listed(w: World, t: Tid)
    requires t in w.threads
  {
    var th := w.threads[t];
    if Pending(th) then forall e :: e in w.history ==> e.tid != t
    else Entry(t, th.call, Result(th)) in w.history
  }

  ghost predicate Recorded(w: World) {
    && SerialResults(w.history) && SerialRun(w.history) == Settled(w.s.slots, w.made)
    && (forall i, j :: 0 <= i < j < |w.history| ==> w.history[i].tid != w.history[j].tid)
    && (forall e :: e in w.history ==> e.tid in w.threads)
    && (forall t :: t in w.threads ==> Listed(w, t))
  }

  ghost predicate Coherent(w: World) {
    FdTable.Inv(w.s) && References(w) && Tabled(w) && Recorded(w)
  }

  // ------------------------------------------------------- references stay accounted for

  lemma NewKey(m: map<nat, Tid>, k: nat, t: Tid, u: Tid)
    requires k !in m
    ensures HeldBy(m[k := t], u) == if u == t then HeldBy(m, u) + {k} else HeldBy(m, u)
  {
  }

  lemma GoneKey(m: map<nat, Tid>, k: nat, u: Tid)
    requires k in m
    ensures HeldBy(m - {k}, u) == if u == m[k] then HeldBy(m, u) - {k} else HeldBy(m, u)
  {
  }

  /** Nothing changes hands but what the call t has. */
  ghost predicate SameBut(a: map<nat, Tid>, b: map<nat, Tid>, t: Tid) {
    forall u :: u != t ==> HeldBy(a, u) == HeldBy(b, u)
  }

  lemma KeyAdded(m: map<nat, Tid>, k: nat, t: Tid)
    requires k !in m
    ensures SameBut(m, m[k := t], t) && HeldBy(m[k := t], t) == HeldBy(m, t) + {k}
  {
    forall u { NewKey(m, k, t, u); }
  }

  lemma KeyRemoved(m: map<nat, Tid>, k: nat, t: Tid)
    requires k in m && m[k] == t
    ensures SameBut(m, m - {k}, t) && HeldBy(m - {k}, t) == HeldBy(m, t) - {k}
  {
    forall u { GoneKey(m, k, u); }
  }

  lemma StillHeld(a: map<nat, Tid>, b: map<nat, Tid>, t: Tid, r: nat)
    requires SameBut(a, b, t) && r in b && b[r] != t
    ensures r in a && a[r] == b[r]
  {
    assert r in HeldBy(b, b[r]);
    assert r in HeldBy(a, b[r]);
  }

  /** The other calls' accounts do not change. */
  lemma OthersAccounted(p: Phase, u: Tid, t: Tid, owners: map<Obj, bool>, owners': map<Obj, bool>,
      holder: map<RefId, Tid>, holder': map<RefId, Tid>, owner: map<Obj, Tid>, owner': map<Obj, Tid>)
    requires u != t && SameBut(holder, holder', t) && SameBut(owner, owner', t)
    requires Accounted(p, u, owners, holder, owner)
    requires forall o :: o in owner && owner[o] != t ==> o in owners && o in owners' && owners'[o] == owners[o]
    ensures Accounted(p, u, owners', holder', owner')
  {
    if p.Owning? { assert p.o in HeldBy(owner, u); }
  }

  lemma Handover(threads: map<Tid, Thread>, t: Tid, p: Phase, refs: set<RefId>, refs': set<RefId>,
      owners: map<Obj, bool>, owners': map<Obj, bool>, holder: map<RefId, Tid>, holder': map<RefId, Tid>,
      owner: map<Obj, Tid>, owner': map<Obj, Tid>)
    requires t in threads && Accounts(threads, refs, owners, holder, owner)
    requires holder'.Keys == refs' && owner'.Keys == owners'.Keys
    requires SameBut(holder, holder', t) && SameBut(owner, owner', t)
    requires Accounted(p, t, owners', holder', owner')
    requires forall o :: o in owner && owner[o] != t ==> o in owners && o in owners' && owners'[o] == owners[o]
    ensures Accounts(threads[t := Thread(threads[t].call, p)], refs', owners', holder', owner')
  {
    var threads' := threads[t := Thread(threads[t].call, p)];
    forall r | r in holder'
      ensures holder'[r] in threads'
    {
      if holder'[r] != t { StillHeld(holder, holder', t, r); }
    }
    forall o | o in owner'
      ensures owner'[o] in threads'
    {
      if owner'[o] != t { StillHeld(owner, owner', t, o); }
    }
    forall u | u in threads'
      ensures Accounted(threads'[u].phase, u, owners', holder', owner')
    {
      if u != t { OthersAccounted(threads[u].phase, u, t, owners, owners', holder, holder', owner, owner'); }
    }
  }

  /** A call gets a reference. */
  lemma GainsRef(threads: map<Tid, Thread>, t: Tid, p: Phase, refs: set<RefId>, owners: map<Obj, bool>,
      holder: map<RefId, Tid>, owner: map<Obj, Tid>, r: RefId)
    requires t in threads && Accounts(threads, refs, owners, holder, owner) && r !in refs
    requires Refs(p) == Refs(threads[t].phase) + {r} && Owned(p) == Owned(threads[t].phase) == {}
    requires p.Dropping? && p.more.Some? ==> p.more.value != p.r
    ensures Accounts(threads[t := Thread(threads[t].call, p)], refs + {r}, owners, holder[r := t], owner)
  {
    KeyAdded(holder, r, t);
    assert Accounted(threads[t].phase, t, owners, holder, owner);
    Handover(threads, t, p, refs, refs + {r}, owners, owners, holder, holder[r := t], owner, owner);
  }

  /** A call goes on with what it has. */
  lemma KeepsRefs(threads: map<Tid, Thread>, t: Tid, p: Phase, refs: set<RefId>, owners: map<Obj, bool>,
      holder: map<RefId, Tid>, owner: map<Obj, Tid>)
    requires t in threads && Accounts(threads, refs, owners, holder, owner)
    requires Refs(p) == Refs(threads[t].phase) && Owned(p) == Owned(threads[t].phase) == {}
    requires p.Dropping? ==> p.more.None?
    ensures Accounts(threads[t := Thread(threads[t].call, p)], refs, owners, holder, owner)
  {
    assert Accounted(threads[t].phase, t, owners, holder, owner);
    Handover(threads, t, p, refs, refs, owners, owners, holder, holder, owner, owner);
  }

  /** A call loses a reference. */
  lemma LosesRef(threads: map<Tid, Thread>, t: Tid, p: Phase, refs: set<RefId>, owners: map<Obj, bool>,
      holder: map<RefId, Tid>, owner: map<Obj, Tid>, r: RefId)
    requires t in threads && Accounts(threads, refs, owners, holder, owner) && r in holder && holder[r] == t
    requires Refs(p) == Refs(threads[t].phase) - {r} && Owned(p) == Owned(threads[t].phase) == {}
    requires p.Dropping? ==> p.more.None?
    ensures Accounts(threads[t := Thread(threads[t].call, p)], refs - {r}, owners, holder - {r}, owner)
  {
    KeyRemoved(holder, r, t);
    assert Accounted(threads[t].phase, t, owners, holder, owner);
    Handover(threads, t, p, refs, refs - {r}, owners, owners, holder, holder - {r}, owner, owner);
  }

  /** A call's reference turns into an object that it has to close. */
  lemma BecomesOwner(threads: map<Tid, Thread>, t: Tid, p: Phase, refs: set<RefId>, owners: map<Obj, bool>,
      holder: map<RefId, Tid>, owner: map<Obj, Tid>, r: RefId, o: Obj)
    requires t in threads && Accounts(threads, refs, owners, holder, owner) && r in holder && holder[r] == t
    requires o !in owners && Owned(threads[t].phase) == {} && Refs(p) == Refs(threads[t].phase) - {r}
    requires p.Owning? && p.o == o && !p.closed
    ensures Accounts(threads[t := Thread(threads[t].call, p)], refs - {r}, owners[o := false], holder - {r},
                     owner[o := t])
  {
    KeyRemoved(holder, r, t);
    KeyAdded(owner, o, t);
    assert Accounted(threads[t].phase, t, owners, holder, owner);
    Handover(threads, t, p, refs, refs - {r}, owners, owners[o := false], holder, holder - {r}, owner, owner[o := t]);
  }

  lemma ClosesOwned(threads: map<Tid, Thread>, t: Tid, p: Phase, refs: set<RefId>, owners: map<Obj, bool>,
      holder: map<RefId, Tid>, owner: map<Obj, Tid>)
    requires t in threads && Accounts(threads, refs, owners, holder, owner) && threads[t].phase.Owning?
    requires p == threads[t].phase.(closed := true)
    ensures Accounts(threads[t := Thread(threads[t].call, p)], refs, owners[p.o := true], holder, owner)
  {
    assert Accounted(threads[t].phase, t, owners, holder, owner);
    assert p.o in HeldBy(owner, t);
    Handover(threads, t, p, refs, refs, owners, owners[p.o := true], holder, holder, owner, owner);
  }

  lemma DeletesOwned(threads: map<Tid, Thread>, t: Tid, p: Phase, refs: set<RefId>, owners: map<Obj, bool>,
      holder: map<RefId, Tid>, owner: map<Obj, Tid>, o: Obj)
    requires t in threads && Accounts(threads, refs, owners, holder, owner)
    requires threads[t].phase.Owning? && threads[t].phase.o == o
    requires Refs(p) == Refs(threads[t].phase) && Owned(p) == {} && (p.Dropping? ==> p.more.None?)
    ensures Accounts(threads[t := Thread(threads[t].call, p)], refs, owners - {o}, holder, owner - {o})
  {
    assert Accounted(threads[t].phase, t, owners, holder, owner);
    assert o in HeldBy(owner, t);
    KeyRemoved(owner, o, t);
    assert (owner - {o}).Keys == owner.Keys - {o} && (owners - {o}).Keys == owners.Keys - {o};
    Handover(threads, t, p, refs, refs, owners, owners - {o}, holder, holder, owner, owner - {o});
  }

  /** The call has the reference that its phase names. */
  lemma HasRef(w: World, t: Tid, r: RefId)
    requires References(w) && t in w.threads && r in Refs(w.threads[t].phase)
    ensures r in w.holder && w.holder[r] == t && r in w.s.refs
  {
    assert Accounted(w.threads[t].phase, t, w.s.owners, w.holder, w.owner);
    assert r in HeldBy(w.holder, t);
  }

  /** Of the table's invariant, the accounts only need this. */
  ghost predicate Clean(s: State) {
    s.nextRef !in s.refs && forall r :: r in s.refs ==> s.refs[r] !in s.owners && Count(s, s.refs[r]) > 0
  }

  lemma InvClean(s: State)
    requires FdTable.Inv(s)
    ensures Clean(s)
  {
    forall r | r in s.refs
      ensures s.refs[r] !in s.owners && Count(s, s.refs[r]) > 0
    {
      RefUsable(s, r);
    }
  }

  lemma UnbindRefs(w: World, t: Tid, fd: int, none: Outcome)
    requires References(w) && Clean(w.s) && t in w.threads && w.threads[t].phase.Begun?
    ensures References(Unbind(w, t, fd, none))
  {
    if Bound(w.s, fd) {
      GainsRef(w.threads, t, Taking(w.s.nextRef), w.s.refs.Keys, w.s.owners, w.holder, w.owner, w.s.nextRef);
    } else {
      KeepsRefs(w.threads, t, Returned(none), w.s.refs.Keys, w.s.owners, w.holder, w.owner);
    }
  }

  /** What the fetching call has afterwards. */
  lemma FetchIs(w: World, t: Tid, fd: int, status: int)
    requires t in w.threads && Bound(w.s, fd)
    ensures var (w', r) := (Fetch(w, t, fd, status), w.s.nextRef);
            && w'.threads == w.threads[t := Thread(w.threads[t].call, w'.threads[t].phase)]
            && Refs(w'.threads[t].phase) == {r} && Owned(w'.threads[t].phase) == {}
            && (w'.threads[t].phase.Dropping? ==> w'.threads[t].phase.more.None?)
            && w'.s.refs.Keys == w.s.refs.Keys + {r} && w'.s.owners == w.s.owners
            && w'.holder == w.holder[r := t] && w'.owner == w.owner
  {
  }

  lemma FetchRefs(w: World, t: Tid, fd: int, status: int)
    requires References(w) && Clean(w.s) && t in w.threads && w.threads[t].phase.Begun? && Bound(w.s, fd)
    ensures References(Fetch(w, t, fd, status))
  {
    FetchIs(w, t, fd, status);
    GainWorld(w, Fetch(w, t, fd, status), t, w.s.nextRef);
  }

  lemma GainWorld(w: World, w': World, t: Tid, r: RefId)
    requires References(w) && t in w.threads && t in w'.threads && r !in w.s.refs
    requires w'.threads == w.threads[t := Thread(w.threads[t].call, w'.threads[t].phase)]
    requires Refs(w'.threads[t].phase) == Refs(w.threads[t].phase) + {r}
    requires Owned(w'.threads[t].phase) == Owned(w.threads[t].phase) == {}
    requires w'.threads[t].phase.Dropping? && w'.threads[t].phase.more.Some? ==>
               w'.threads[t].phase.more.value != w'.threads[t].phase.r
    requires w'.s.refs.Keys == w.s.refs.Keys + {r} && w'.s.owners == w.s.owners
    requires w'.holder == w.holder[r := t] && w'.owner == w.owner
    ensures References(w')
  {
    GainsRef(w.threads, t, w'.threads[t].phase, w.s.refs.Keys, w.s.owners, w.holder, w.owner, r);
  }

  lemma FailRefs(w: World, t: Tid, out: Outcome)
    requires References(w) && t in w.threads && w.threads[t].phase.Begun?
    ensures References(Fail(w, t, out))
  {
    KeepsRefs(w.threads, t, Returned(out), w.s.refs.Keys, w.s.owners, w.holder, w.owner);
  }

  lemma OpenRefs(w: World, t: Tid, status: int)
    requires References(w) && Clean(w.s) && t in w.threads && w.threads[t] == Thread(OpenNew, Begun)
    ensures References(Begin(w, t, status))
  {
    GainsRef(w.threads, t, Placing(w.s.nextRef), w.s.refs.Keys, w.s.owners, w.holder, w.owner, w.s.nextRef);
  }

  lemma BeginRefs(w: World, t: Tid, status: int)
    requires References(w) && Clean(w.s) && t in w.threads && w.threads[t].phase.Begun?
    ensures References(Begin(w, t, status))
  {
    match w.threads[t].call {
      case OpenNew => OpenRefs(w, t, status);
      case CloseOf(fd) => UnbindRefs(w, t, fd, EBADF);
      case TransferOf(fd, _) => UnbindRefs(w, t, fd, INVALID_ARGS);
      case CloneOf(fd) => if Bound(w.s, fd) { FetchRefs(w, t, fd, status); } else { FailRefs(w, t, INVALID_ARGS); }
      case DupOf(fd, start) =>
        if start >= 0 && Bound(w.s, fd) {
          FetchRefs(w, t, fd, status);
        } else {
          FailRefs(w, t, if start < 0 then EINVAL else EBADF);
        }
      case Dup2Of(fd, target) =>
        if IsFd(w.s, target) && Bound(w.s, fd) { FetchRefs(w, t, fd, status); } else { FailRefs(w, t, EBADF); }
    }
  }

  lemma PlaceLowestRefs(w: World, t: Tid, r: RefId, start: nat)
    requires References(w) && t in w.threads && w.threads[t].phase == Placing(r) && r in w.s.refs
    ensures References(PlaceLowest(w, t, r, start, w.made))
  {
    var p := PlaceLowest(w, t, r, start, w.made).threads[t].phase;
    KeepsRefs(w.threads, t, p, w.s.refs.Keys, w.s.owners, w.holder, w.owner);
  }

  lemma PlaceOver(w: World, t: Tid, r: RefId, target: int)
    requires t in w.threads && r in w.s.refs && IsFd(w.s, target) && w.s.slots[target].Holds?
    ensures var (w', p, out) := (PlaceAt(w, t, r, target), w.s.nextRef, Fd(target));
            && w'.threads == w.threads[t := Thread(w.threads[t].call, Dropping(r, Some(p), out))]
            && w'.s.refs.Keys == w.s.refs.Keys + {p} && w'.s.owners == w.s.owners
            && w'.holder == w.holder[p := t] && w'.owner == w.owner
  {
  }

  lemma PlaceAtRefs(w: World, t: Tid, r: RefId, target: int)
    requires References(w) && Clean(w.s) && t in w.threads && w.threads[t].phase == Placing(r)
    requires r in w.s.refs && IsFd(w.s, target)
    ensures References(PlaceAt(w, t, r, target))
  {
    if w.s.slots[target].Holds? {
      PlaceOver(w, t, r, target);
      GainWorld(w, PlaceAt(w, t, r, target), t, w.s.nextRef);
    } else {
      KeepsRefs(w.threads, t, Dropping(r, None, Fd(target)), w.s.refs.Keys, w.s.owners, w.holder, w.owner);
    }
  }

  lemma PlaceRefs(w: World, t: Tid)
    requires References(w) && Clean(w.s) && t in w.threads && w.threads[t].phase.Placing? && PhaseOk(w, t)
    ensures w.threads[t].phase.r in w.s.refs && References(Place(w, t))
  {
    var Thread(call, Placing(r)) := w.threads[t];
    match call {
      case OpenNew => PlaceLowestRefs(w, t, r, 0);
      case DupOf(_, start) => PlaceLowestRefs(w, t, r, start);
      case Dup2Of(_, target) => PlaceAtRefs(w, t, r, target);
    }
  }

  lemma TakeRefs(w: World, t: Tid, status: int)
    requires References(w) && Clean(w.s) && t in w.threads && w.threads[t].phase.Taking?
    ensures w.threads[t].phase.r in w.s.refs && References(Take(w, t, status))
  {
    var r := w.threads[t].phase.r;
    HasRef(w, t, r);
    var p, o := Take(w, t, status).threads[t].phase, w.s.refs[r];
    if Count(w.s, o) == 1 {
      BecomesOwner(w.threads, t, p, w.s.refs.Keys, w.s.owners, w.holder, w.owner, r, o);
    } else {
      KeepsRefs(w.threads, t, p, w.s.refs.Keys, w.s.owners, w.holder, w.owner);
    }
  }

  lemma DropRefs(w: World, t: Tid)
    requires References(w) && Clean(w.s) && t in w.threads && w.threads[t].phase.Dropping?
    ensures w.threads[t].phase.r in w.s.refs && References(DropNext(w, t))
  {
    var r := w.threads[t].phase.r;
    HasRef(w, t, r);
    assert Accounted(w.threads[t].phase, t, w.s.owners, w.holder, w.owner);
    var p, o := DropNext(w, t).threads[t].phase, w.s.refs[r];
    if Count(w.s, o) == 1 {
      BecomesOwner(w.threads, t, p, w.s.refs.Keys, w.s.owners, w.holder, w.owner, r, o);
    } else {
      LosesRef(w.threads, t, p, w.s.refs.Keys, w.s.owners, w.holder, w.owner, r);
    }
  }

  lemma OwnRefs(w: World, t: Tid)
    requires References(w) && t in w.threads && w.threads[t].phase.Owning?
    ensures Safe(w, Go(t, 0)) && References(Own(w, t))
  {
    var Owning(o, closed, more, out) := w.threads[t].phase;
    assert Accounted(w.threads[t].phase, t, w.s.owners, w.holder, w.owner);
    if closed {
      DeletesOwned(w.threads, t, Then(more, out), w.s.refs.Keys, w.s.owners, w.holder, w.owner, o);
    } else {
      ClosesOwned(w.threads, t, Owning(o, true, more, out), w.s.refs.Keys, w.s.owners, w.holder, w.owner);
    }
  }

  // ------------------------------------------------------------ the table's own invariant

  /** One step of the table, or none. */
  ghost predicate Stepped(s: State, s': State) {
    s' == s || exists step :: FdTable.Enabled(s, step) && s' == FdTable.Next(s, step)
  }

  lemma StepsBy(s: State, s': State, step: Step)
    requires FdTable.Enabled(s, step) && s' == FdTable.Next(s, step)
    ensures Stepped(s, s')
  {
  }

  lemma UnbindSteps(w: World, t: Tid, fd: int, none: Outcome)
    requires t in w.threads
    ensures Stepped(w.s, Unbind(w, t, fd, none).s)
  {
    if Bound(w.s, fd) { StepsBy(w.s, Unbind(w, t, fd, none).s, Release(fd)); }
  }

  lemma FetchSteps(w: World, t: Tid, fd: int, status: int)
    requires t in w.threads && Bound(w.s, fd)
    ensures Stepped(w.s, Fetch(w, t, fd, status).s)
  {
    StepsBy(w.s, Fetch(w, t, fd, status).s, Get(fd));
  }

  lemma BeginSteps(w: World, t: Tid, status: int)
    requires t in w.threads && w.threads[t].phase.Begun? && t !in w.s.closes
    ensures Stepped(w.s, Begin(w, t, status).s)
  {
    match w.threads[t].call {
      case OpenNew => StepsBy(w.s, Begin(w, t, status).s, Create(t));
      case CloseOf(fd) => UnbindSteps(w, t, fd, EBADF);
      case TransferOf(fd, _) => UnbindSteps(w, t, fd, INVALID_ARGS);
      case CloneOf(fd) => if Bound(w.s, fd) { FetchSteps(w, t, fd, status); }
      case DupOf(fd, _) => if Bound(w.s, fd) { FetchSteps(w, t, fd, status); }
      case Dup2Of(fd, _) => if Bound(w.s, fd) { FetchSteps(w, t, fd, status); }
    }
  }

  lemma PlaceLowestSteps(w: World, t: Tid, r: RefId, start: nat)
    requires t in w.threads && r in w.s.refs
    ensures Stepped(w.s, PlaceLowest(w, t, r, start, w.made).s)
  {
    var n := LowestFrom(w.s.slots, start);
    if n < |w.s.slots| { StepsBy(w.s, PlaceLowest(w, t, r, start, w.made).s, TrySet(n, r)); }
  }

  lemma PlaceSteps(w: World, t: Tid)
    requires t in w.threads && w.threads[t].phase.Placing? && w.threads[t].phase.r in w.s.refs
    ensures Stepped(w.s, Place(w, t).s)
  {
    var Thread(call, Placing(r)) := w.threads[t];
    match call {
      case OpenNew => PlaceLowestSteps(w, t, r, 0);
      case DupOf(_, start) => if start >= 0 { PlaceLowestSteps(w, t, r, start); }
      case Dup2Of(_, target) => if IsFd(w.s, target) { StepsBy(w.s, Place(w, t).s, Replace(target, r)); }
      case _ =>
    }
  }

  /** Every event is at most one step of the table, so everything that holds over all runs of steps
      holds here. */
  lemma HappenSteps(w: World, e: Event)
    requires Possible(w, e) && Safe(w, e) && (e.Go? && w.threads[e.t].phase.Begun? ==> e.t !in w.s.closes)
    ensures Stepped(w.s, Happen(w, e).s)
  {
    if e.Go? {
      match w.threads[e.t].phase {
        case Begun => BeginSteps(w, e.t, e.status);
        case Placing(_) => PlaceSteps(w, e.t);
        case Taking(r) => if Count(w.s, w.s.refs[r]) == 1 { StepsBy(w.s, Take(w, e.t, e.status).s, TakeLast(r)); }
        case Dropping(r, _, _) => StepsBy(w.s, DropNext(w, e.t).s, Drop(r));
        case Owning(o, closed, _, _) => StepsBy(w.s, Own(w, e.t).s, if closed then Delete(o) else Close(o));
      }
    }
  }

  lemma SteppedKeeps(s: State, s': State)
    requires FdTable.Inv(s) && Stepped(s, s')
    ensures FdTable.Inv(s')
  {
    if s' != s {
      var step :| FdTable.Enabled(s, step) && s' == FdTable.Next(s, step);
      FdTable.StepKeeps(s, step);
    }
  }

  // ---------------------------------------------------------------- lock, slots and objects

  ghost predicate OnlyThread(w: World, w': World, t: Tid) {
    && t in w.threads && w'.threads.Keys == w.threads.Keys && w'.threads[t].call == w.threads[t].call
    && forall u :: u in w.threads && u != t ==> w'.threads[u] == w.threads[u]
  }

  ghost predicate OthersRefs(w: World, w': World, t: Tid) {
    forall r :: r in w.s.refs && r in w.holder && w.holder[r] != t ==> r in w'.s.refs && w'.s.refs[r] == w.s.refs[r]
  }

  /** What a step of the call t may change. */
  ghost predicate Frames(w: World, w': World, t: Tid) {
    && OnlyThread(w, w', t) && |w'.s.slots| == |w.s.slots|
    && OthersRefs(w, w', t)
    && (w'.s.slots == w.s.slots || w.lock.None? || w.lock == Some(t))
    && (w.lock.Some? && w.lock != Some(t) ==> w'.lock == w.lock)
    && w'.s.closes.Keys <= w.s.closes.Keys + {t} && w'.made <= w.made + {t}
  }

  /** A step of the call t on its references and objects leaves slots, history and objects alone. */
  ghost predicate Quiet(w: World, w': World, t: Tid) {
    && OnlyThread(w, w', t) && w'.history == w.history && w'.made == w.made
    && w'.s.slots == w.s.slots && w'.s.closes.Keys == w.s.closes.Keys
    && !Pending(w'.threads[t]) && !w'.threads[t].phase.Taking?
    && (w'.lock == w.lock || (w.lock == Some(t) && w'.lock.None?))
  }

  lemma TakeQuiet(w: World, t: Tid, status: int)
    requires t in w.threads && w.threads[t].phase.Taking? && w.threads[t].phase.r in w.s.refs
    ensures var w' := Take(w, t, status);
            && Quiet(w, w', t) && w'.lock == w.lock && Plain(w'.threads[t].phase.out) == Success
            && (w'.s.refs == w.s.refs || w'.s.refs == w.s.refs - {w.threads[t].phase.r})
  {
  }

  lemma DropQuiet(w: World, t: Tid)
    requires t in w.threads && w.threads[t].phase.Dropping? && w.threads[t].phase.r in w.s.refs
    ensures var w' := DropNext(w, t);
            && Quiet(w, w', t) && w'.lock != Some(t) && w'.threads[t].phase.out == w.threads[t].phase.out
            && w'.s.refs == w.s.refs - {w.threads[t].phase.r}
  {
  }

  lemma OwnQuiet(w: World, t: Tid)
    requires t in w.threads && w.threads[t].phase.Owning? && w.threads[t].phase.o in w.s.closes
    ensures var w' := Own(w, t);
            && Quiet(w, w', t) && w'.lock == w.lock && w'.threads[t].phase.out == w.threads[t].phase.out
            && w'.s.refs == w.s.refs
  {
  }

  lemma OthersOk(w: World, w': World, t: Tid, u: Tid)
    requires References(w) && Frames(w, w', t) && u in w.threads && u != t && PhaseOk(w, u)
    ensures PhaseOk(w', u)
  {
    if w.threads[u].phase.Placing? { HasRef(w, u, w.threads[u].phase.r); }
  }

  lemma TabledStep(w: World, w': World, t: Tid)
    requires References(w) && Tabled(w) && Frames(w, w', t) && PhaseOk(w', t) && LockOk(w') && MadeOk(w')
    ensures Tabled(w')
  {
    forall u | u in w'.threads
      ensures PhaseOk(w', u)
    {
      if u != t { OthersOk(w, w', t, u); }
    }
  }

  /** A step that leaves slots and objects alone. */
  lemma MadeStays(w: World, w': World, t: Tid)
    requires MadeOk(w) && OnlyThread(w, w', t) && w'.s.slots == w.s.slots && w'.made == w.made
    requires w'.s.closes.Keys == w.s.closes.Keys && (w.threads[t].phase.Placing? ==> w'.threads[t].phase.Placing?)
    ensures MadeOk(w')
  {
    forall o | o in w'.s.closes && o !in w'.made
      ensures BeingOpened(w', o)
    {
      assert BeingOpened(w, o);
    }
  }

  /** A step that changes one slot. */
  lemma MadeSlot(w: World, w': World, t: Tid, n: int, x: Slot)
    requires MadeOk(w) && OnlyThread(w, w', t) && 0 <= n < |w.s.slots| && w'.s.slots == w.s.slots[n := x]
    requires w.made <= w'.made <= w.s.closes.Keys == w'.s.closes.Keys && (x.Holds? ==> x.obj in w'.made)
    requires w'.made <= w.made + {t} && (w.threads[t].call.OpenNew? ==> t in w'.made)
    ensures MadeOk(w')
  {
    forall o | o in w'.s.closes && o !in w'.made
      ensures BeingOpened(w', o)
    {
      assert BeingOpened(w, o);
    }
  }

  /** After such a step. */
  lemma QuietTabled(w: World, w': World, t: Tid)
    requires References(w) && Tabled(w) && Quiet(w, w', t) && !w.threads[t].phase.Placing?
    requires OthersRefs(w, w', t)
    requires w'.lock != Some(t)
    ensures Tabled(w')
  {
    MadeStays(w, w', t);
    TabledStep(w, w', t);
  }

  lemma FailTabled(w: World, t: Tid, out: Outcome)
    requires References(w) && Tabled(w) && t in w.threads && w.threads[t].phase.Begun?
    ensures Tabled(Fail(w, t, out))
  {
    MadeStays(w, Fail(w, t, out), t);
    TabledStep(w, Fail(w, t, out), t);
  }

  lemma UnbindTabled(w: World, t: Tid, fd: int, none: Outcome)
    requires References(w) && Clean(w.s) && Tabled(w) && t in w.threads && w.threads[t].phase.Begun? && w.lock.None?
    requires w.threads[t].call.CloseOf? || w.threads[t].call.TransferOf?
    ensures Tabled(Unbind(w, t, fd, none))
  {
    if Bound(w.s, fd) {
      MadeSlot(w, Unbind(w, t, fd, none), t, fd, Available);
      TabledStep(w, Unbind(w, t, fd, none), t);
    } else {
      FailTabled(w, t, none);
    }
  }

  lemma FetchTabled(w: World, t: Tid, fd: int, status: int)
    requires References(w) && Clean(w.s) && Tabled(w) && t in w.threads && w.threads[t].phase.Begun? && w.lock.None?
    requires match w.threads[t].call {
               case CloneOf(f) => f == fd
               case DupOf(f, start) => f == fd && start >= 0
               case Dup2Of(f, target) => f == fd && IsFd(w.s, target)
               case _ => false
             }
    requires Bound(w.s, fd)
    ensures Tabled(Fetch(w, t, fd, status))
  {
    MadeStays(w, Fetch(w, t, fd, status), t);
    TabledStep(w, Fetch(w, t, fd, status), t);
  }

  lemma OpenTabled(w: World, t: Tid, status: int)
    requires References(w) && Clean(w.s) && Tabled(w) && t in w.threads && w.threads[t] == Thread(OpenNew, Begun)
    ensures Tabled(Begin(w, t, status))
  {
    var w' := Begin(w, t, status);
    assert PhaseOk(w, t) && t !in w.made;
    TabledStep(w, w', t);
  }

  lemma BeginTabled(w: World, t: Tid, status: int)
    requires References(w) && Clean(w.s) && Tabled(w) && t in w.threads && w.threads[t].phase.Begun?
    requires NeedsLock(w.threads[t]) ==> w.lock.None?
    ensures Tabled(Begin(w, t, status))
  {
    match w.threads[t].call {
      case OpenNew => OpenTabled(w, t, status);
      case CloseOf(fd) => UnbindTabled(w, t, fd, EBADF);
      case TransferOf(fd, _) => UnbindTabled(w, t, fd, INVALID_ARGS);
      case CloneOf(fd) => if Bound(w.s, fd) { FetchTabled(w, t, fd, status); } else { FailTabled(w, t, INVALID_ARGS); }
      case DupOf(fd, start) =>
        if start >= 0 && Bound(w.s, fd) {
          FetchTabled(w, t, fd, status);
        } else {
          FailTabled(w, t, if start < 0 then EINVAL else EBADF);
        }
      case Dup2Of(fd, target) =>
        if IsFd(w.s, target) && Bound(w.s, fd) { FetchTabled(w, t, fd, status); } else { FailTabled(w, t, EBADF); }
    }
  }

  lemma PlaceOpenTabled(w: World, t: Tid, r: RefId)
    requires References(w) && Tabled(w) && t in w.threads && w.threads[t] == Thread(OpenNew, Placing(r)) && w.lock.None?
    requires r in w.s.refs && t in w.s.closes
    ensures Tabled(Place(w, t))
  {
    assert PhaseOk(w, t);
    var n, w' := LowestFrom(w.s.slots, 0), Place(w, t);
    if n < |w.s.slots| { MadeSlot(w, w', t, n, Holds(t)); } else { MadeGrows(w, w', t); }
    assert Frames(w, w', t);
    TabledStep(w, w', t);
  }

  lemma MadeGrows(w: World, w': World, t: Tid)
    requires MadeOk(w) && OnlyThread(w, w', t) && w'.s == w.s && t in w.s.closes && w'.made == w.made + {t}
    ensures MadeOk(w')
  {
    forall o | o in w'.s.closes && o !in w'.made
      ensures BeingOpened(w', o)
    {
      assert BeingOpened(w, o);
    }
  }

  /** Nothing is made by a call that does not open. */
  lemma MadeSame(w: World, w': World, t: Tid)
    requires MadeOk(w) && OnlyThread(w, w', t) && w'.s.slots == w.s.slots && w'.made == w.made
    requires w'.s.closes == w.s.closes && !w.threads[t].call.OpenNew?
    ensures MadeOk(w')
  {
    forall o | o in w'.s.closes && o !in w'.made
      ensures BeingOpened(w', o)
    {
      assert BeingOpened(w, o);
    }
  }

  lemma PlaceDupTabled(w: World, t: Tid, r: RefId, start: nat)
    requires References(w) && Tabled(w) && t in w.threads && w.threads[t].phase == Placing(r) && r in w.s.refs
    requires w.threads[t].call.DupOf? && w.lock == Some(t) && w.s.refs[r] in w.made
    ensures Tabled(PlaceLowest(w, t, r, start, w.made))
  {
    var n, w' := LowestFrom(w.s.slots, start), PlaceLowest(w, t, r, start, w.made);
    if n < |w.s.slots| { MadeSlot(w, w', t, n, Holds(w.s.refs[r])); } else { MadeSame(w, w', t); }
    assert Frames(w, w', t);
    TabledStep(w, w', t);
  }

  lemma PlaceAtIs(w: World, t: Tid, r: RefId, target: int)
    requires Clean(w.s) && t in w.threads && r in w.s.refs && IsFd(w.s, target)
    ensures var w' := PlaceAt(w, t, r, target);
            && w'.s.slots == w.s.slots[target := Holds(w.s.refs[r])] && w'.s.closes == w.s.closes
            && w'.s.owners == w.s.owners && w'.lock == w.lock && w'.made == w.made && w'.owner == w.owner
            && (forall q :: q in w.s.refs ==> q in w'.s.refs && w'.s.refs[q] == w.s.refs[q])
            && OnlyThread(w, w', t) && w'.threads[t].phase.Dropping?
  {
  }

  lemma PlaceAtTabled(w: World, t: Tid, r: RefId, target: int)
    requires References(w) && Clean(w.s) && Tabled(w) && t in w.threads && w.threads[t].phase == Placing(r)
    requires r in w.s.refs && w.threads[t].call.Dup2Of? && w.lock == Some(t) && w.s.refs[r] in w.made
    requires IsFd(w.s, target)
    ensures Tabled(PlaceAt(w, t, r, target))
  {
    var w' := PlaceAt(w, t, r, target);
    PlaceAtIs(w, t, r, target);
    MadeSlot(w, w', t, target, Holds(w.s.refs[r]));
    assert Frames(w, w', t);
    TabledStep(w, w', t);
  }

  lemma PlaceTabled(w: World, t: Tid)
    requires References(w) && Clean(w.s) && Tabled(w) && t in w.threads && w.threads[t].phase.Placing?
    requires NeedsLock(w.threads[t]) ==> w.lock.None?
    requires forall r :: r in w.s.refs ==> w.s.refs[r] in w.s.closes
    ensures w.threads[t].phase.r in w.s.refs && Tabled(Place(w, t))
  {
    var Thread(call, Placing(r)) := w.threads[t];
    assert PhaseOk(w, t);
    match call {
      case OpenNew => PlaceOpenTabled(w, t, r);
      case DupOf(_, start) => PlaceDupTabled(w, t, r, start);
      case Dup2Of(_, target) => PlaceAtTabled(w, t, r, target);
    }
  }

  lemma TakeTabled(w: World, t: Tid, status: int)
    requires References(w) && Tabled(w) && t in w.threads && w.threads[t].phase.Taking?
    requires w.threads[t].phase.r in w.s.refs
    ensures Tabled(Take(w, t, status))
  {
    HasRef(w, t, w.threads[t].phase.r);
    TakeQuiet(w, t, status);
    QuietTabled(w, Take(w, t, status), t);
  }

  lemma DropTabled(w: World, t: Tid)
    requires References(w) && Tabled(w) && t in w.threads && w.threads[t].phase.Dropping?
    requires w.threads[t].phase.r in w.s.refs
    ensures Tabled(DropNext(w, t))
  {
    HasRef(w, t, w.threads[t].phase.r);
    DropQuiet(w, t);
    QuietTabled(w, DropNext(w, t), t);
  }

  lemma OwnTabled(w: World, t: Tid)
    requires References(w) && Tabled(w) && t in w.threads && w.threads[t].phase.Owning?
    requires w.threads[t].phase.o in w.s.closes
    ensures Tabled(Own(w, t))
  {
    OwnQuiet(w, t);
    QuietTabled(w, Own(w, t), t);
  }

  // ------------------------------------------------------------------ the serial order

  lemma SerialSnoc(h: seq<Entry>, e: Entry)
    requires SerialResults(h) && e.out == Plain(Serial(SerialRun(h), e.tid, e.call).1)
    ensures SerialResults(h + [e]) && SerialRun(h + [e]) == Serial(SerialRun(h), e.tid, e.call).0
  {
    var h' := h + [e];
    assert h'[..|h'| - 1] == h && h'[|h'| - 1] == e;
  }

  /** The call t had its effect; the others' entries are as before. */
  lemma ListedAfter(w: World, w': World, t: Tid, e: Entry, u: Tid)
    requires Recorded(w) && OnlyThread(w, w', t) && w'.history == w.history + [e] && e.tid == t
    requires !Pending(w'.threads[t]) && e == Entry(t, w.threads[t].call, Result(w'.threads[t]))
    requires u in w.threads
    ensures Listed(w', u)
  {
    assert e in w'.history;
    if u != t { assert Listed(w, u); }
  }

  lemma RecordStep(w: World, w': World, t: Tid, out: Outcome)
    requires Recorded(w) && OnlyThread(w, w', t) && Pending(w.threads[t]) && !Pending(w'.threads[t])
    requires Result(w'.threads[t]) == Plain(out)
    requires w'.history == w.history + [Entry(t, w.threads[t].call, Plain(out))]
    requires var (s, o) := Serial(Settled(w.s.slots, w.made), t, w.threads[t].call);
             Settled(w'.s.slots, w'.made) == s && Plain(o) == Plain(out)
    ensures Recorded(w')
  {
    var e := Entry(t, w.threads[t].call, Plain(out));
    SerialSnoc(w.history, e);
    assert Listed(w, t);
    forall u | u in w'.threads
      ensures Listed(w', u)
    {
      ListedAfter(w, w', t, e, u);
    }
    forall i, j | 0 <= i < j < |w'.history|
      ensures w'.history[i].tid != w'.history[j].tid
    {
      if j == |w.history| { assert w.history[i] in w.history; }
    }
  }

  lemma QuietStep(w: World, w': World, t: Tid)
    requires Recorded(w) && OnlyThread(w, w', t) && w'.history == w.history
    requires w'.s.slots == w.s.slots && w'.made == w.made && (Pending(w'.threads[t]) <==> Pending(w.threads[t]))
    requires !Pending(w.threads[t]) ==> Result(w'.threads[t]) == Result(w.threads[t])
    ensures Recorded(w')
  {
    forall u | u in w'.threads
      ensures Listed(w', u)
    {
      assert Listed(w, u);
    }
  }

  lemma FailRecorded(w: World, t: Tid, out: Outcome)
    requires Recorded(w) && t in w.threads && Pending(w.threads[t])
    requires Serial(Settled(w.s.slots, w.made), t, w.threads[t].call) == (Settled(w.s.slots, w.made), out)
    ensures Recorded(Fail(w, t, out))
  {
    RecordStep(w, Fail(w, t, out), t, out);
  }

  /** A failing call leaves the table as it is, one at a time too. */
  lemma SerialFails(s: State, t: Tid, call: Call)
    ensures call.CloseOf? && !Bound(s, call.fd) ==> Serial(s, t, call) == (s, EBADF)
    ensures (call.TransferOf? || call.CloneOf?) && !Bound(s, call.fd) ==> Serial(s, t, call) == (s, INVALID_ARGS)
    ensures call.DupOf? && call.start < 0 ==> Serial(s, t, call) == (s, EINVAL)
    ensures call.DupOf? && call.start >= 0 && !Bound(s, call.fd) ==> Serial(s, t, call) == (s, EBADF)
    ensures call.Dup2Of? && !(IsFd(s, call.target) && Bound(s, call.fd)) ==> Serial(s, t, call) == (s, EBADF)
  {
  }

  lemma UnbindRecorded(w: World, t: Tid, fd: int, none: Outcome)
    requires Recorded(w) && SlotsMade(w.s.slots, w.made) && t in w.threads && w.threads[t].phase.Begun?
    requires (w.threads[t].call == CloseOf(fd) && none == EBADF)
             || (w.threads[t].call.TransferOf? && w.threads[t].call.fd == fd && none == INVALID_ARGS)
    ensures Recorded(Unbind(w, t, fd, none))
  {
    var s := Settled(w.s.slots, w.made);
    if Bound(w.s, fd) {
      SettledRelease(w.s.slots, w.made, fd);
      RecordStep(w, Unbind(w, t, fd, none), t, Success);
    } else {
      SerialFails(s, t, w.threads[t].call);
      FailRecorded(w, t, none);
    }
  }

  lemma FetchRecorded(w: World, t: Tid, fd: int, status: int)
    requires Recorded(w) && t in w.threads && w.threads[t].phase.Begun? && Bound(w.s, fd)
    requires w.threads[t].call == CloneOf(fd) || w.threads[t].call.DupOf? || w.threads[t].call.Dup2Of?
    ensures Recorded(Fetch(w, t, fd, status))
  {
    if w.threads[t].call.CloneOf? {
      RecordStep(w, Fetch(w, t, fd, status), t, Cloned(status));
    } else {
      QuietStep(w, Fetch(w, t, fd, status), t);
    }
  }

  lemma BeginRecorded(w: World, t: Tid, status: int)
    requires Recorded(w) && SlotsMade(w.s.slots, w.made) && t in w.threads && w.threads[t].phase.Begun?
    ensures Recorded(Begin(w, t, status))
  {
    SerialFails(Settled(w.s.slots, w.made), t, w.threads[t].call);
    match w.threads[t].call {
      case OpenNew => QuietStep(w, Begin(w, t, status), t);
      case CloseOf(fd) => UnbindRecorded(w, t, fd, EBADF);
      case TransferOf(fd, _) => UnbindRecorded(w, t, fd, INVALID_ARGS);
      case CloneOf(fd) =>
        if Bound(w.s, fd) { FetchRecorded(w, t, fd, status); } else { FailRecorded(w, t, INVALID_ARGS); }
      case DupOf(fd, start) =>
        if start >= 0 && Bound(w.s, fd) {
          FetchRecorded(w, t, fd, status);
        } else {
          FailRecorded(w, t, if start < 0 then EINVAL else EBADF);
        }
      case Dup2Of(fd, target) =>
        if IsFd(w.s, target) && Bound(w.s, fd) { FetchRecorded(w, t, fd, status); } else { FailRecorded(w, t, EBADF); }
    }
  }

  lemma SerialOpen(slots: seq<Slot>, made: set<Obj>, t: Tid)
    requires SlotsMade(slots, made) && t !in made
    ensures var n := LowestFrom(slots, 0);
            Serial(Settled(slots, made), t, OpenNew) ==
            if n < |slots| then (Settled(slots[n := Holds(t)], made + {t}), Fd(n))
            else (Settled(slots, made + {t}), EMFILE)
  {
    var n := LowestFrom(slots, 0);
    NotInSlots(slots, made, t);
    if n < |slots| { SettledOpen(slots, made, n, t); } else { SettledLost(slots, made, t); }
  }

  lemma SerialDup(slots: seq<Slot>, made: set<Obj>, t: Tid, fd: int, start: nat)
    requires SlotsMade(slots, made) && 0 <= fd < |slots| && slots[fd].Holds?
    ensures var n := LowestFrom(slots, start);
            Serial(Settled(slots, made), t, DupOf(fd, start)) ==
            if n < |slots| then (Settled(slots[n := slots[fd]], made), Fd(n)) else (Settled(slots, made), EMFILE)
  {
    var n := LowestFrom(slots, start);
    InSlot(slots, fd);
    if n < |slots| { SettledPut(slots, made, n, slots[fd].obj); }
  }

  lemma SerialDup2(slots: seq<Slot>, made: set<Obj>, t: Tid, fd: int, target: int)
    requires SlotsMade(slots, made) && 0 <= fd < |slots| && slots[fd].Holds? && 0 <= target < |slots|
    ensures Serial(Settled(slots, made), t, Dup2Of(fd, target)) ==
              (Settled(slots[target := slots[fd]], made), Fd(target))
  {
    InSlot(slots, fd);
    SettledReplace(slots, made, target, slots[fd].obj);
  }

  lemma PlaceLowestIs(w: World, t: Tid, r: RefId, start: nat, made: set<Obj>)
    requires t in w.threads && r in w.s.refs
    ensures var (w', n) := (PlaceLowest(w, t, r, start, made), LowestFrom(w.s.slots, start));
            var out := if n < |w.s.slots| then Fd(n) else EMFILE;
            && OnlyThread(w, w', t) && w'.threads[t].phase == Dropping(r, None, out) && w'.made == made
            && w'.history == Log(w, t, out)
            && w'.s.slots == if n < |w.s.slots| then w.s.slots[n := Holds(w.s.refs[r])] else w.s.slots
  {
  }

  lemma PlaceOpenRecorded(w: World, t: Tid, r: RefId)
    requires Recorded(w) && SlotsMade(w.s.slots, w.made) && t in w.threads
    requires w.threads[t] == Thread(OpenNew, Placing(r)) && r in w.s.refs && w.s.refs[r] == t && t !in w.made
    ensures Recorded(Place(w, t))
  {
    var n, w' := LowestFrom(w.s.slots, 0), Place(w, t);
    SerialOpen(w.s.slots, w.made, t);
    PlaceLowestIs(w, t, r, 0, w.made + {t});
    RecordStep(w, w', t, if n < |w.s.slots| then Fd(n) else EMFILE);
  }

  lemma PlaceDupRecorded(w: World, t: Tid, r: RefId, fd: int, start: nat)
    requires Recorded(w) && SlotsMade(w.s.slots, w.made) && t in w.threads
    requires w.threads[t] == Thread(DupOf(fd, start), Placing(r)) && Fetched(w, t, fd, r)
    ensures Recorded(PlaceLowest(w, t, r, start, w.made))
  {
    var n, w' := LowestFrom(w.s.slots, start), PlaceLowest(w, t, r, start, w.made);
    SerialDup(w.s.slots, w.made, t, fd, start);
    PlaceLowestIs(w, t, r, start, w.made);
    RecordStep(w, w', t, if n < |w.s.slots| then Fd(n) else EMFILE);
  }

  lemma PlaceAtRecorded(w: World, t: Tid, r: RefId, fd: int, target: int)
    requires Recorded(w) && Clean(w.s) && SlotsMade(w.s.slots, w.made) && t in w.threads && IsFd(w.s, target)
    requires w.threads[t] == Thread(Dup2Of(fd, target), Placing(r)) && Fetched(w, t, fd, r)
    ensures Recorded(PlaceAt(w, t, r, target))
  {
    SerialDup2(w.s.slots, w.made, t, fd, target);
    PlaceAtIs(w, t, r, target);
    RecordStep(w, PlaceAt(w, t, r, target), t, Fd(target));
  }

  lemma PlaceRecorded(w: World, t: Tid)
    requires Recorded(w) && Clean(w.s) && SlotsMade(w.s.slots, w.made) && t in w.threads
    requires w.threads[t].phase.Placing? && PhaseOk(w, t)
    ensures w.threads[t].phase.r in w.s.refs && Recorded(Place(w, t))
  {
    var Thread(call, Placing(r)) := w.threads[t];
    match call {
      case OpenNew => PlaceOpenRecorded(w, t, r);
      case DupOf(fd, start) => PlaceDupRecorded(w, t, r, fd, start);
      case Dup2Of(fd, target) => PlaceAtRecorded(w, t, r, fd, target);
    }
  }

  lemma TakeRecorded(w: World, t: Tid, status: int)
    requires Recorded(w) && t in w.threads && w.threads[t].phase.Taking? && w.threads[t].phase.r in w.s.refs
    ensures Recorded(Take(w, t, status))
  {
    TakeQuiet(w, t, status);
    QuietStep(w, Take(w, t, status), t);
  }

  lemma DropRecorded(w: World, t: Tid)
    requires Recorded(w) && t in w.threads && w.threads[t].phase.Dropping? && w.threads[t].phase.r in w.s.refs
    ensures Recorded(DropNext(w, t))
  {
    DropQuiet(w, t);
    QuietStep(w, DropNext(w, t), t);
  }

  lemma OwnRecorded(w: World, t: Tid)
    requires Recorded(w) && t in w.threads && w.threads[t].phase.Owning? && w.threads[t].phase.o in w.s.closes
    ensures Recorded(Own(w, t))
  {
    OwnQuiet(w, t);
    QuietStep(w, Own(w, t), t);
  }

  // ------------------------------------------------------------------------- all runs

  /** The references and objects that a call uses exist. */
  lemma AlwaysSafe(w: World, e: Event)
    requires Coherent(w) && Possible(w, e)
    ensures Safe(w, e)
  {
    if e.Go? {
      var p := w.threads[e.t].phase;
      if p.Owning? {
        OwnRefs(w, e.t);
      } else if !p.Begun? {
        HasRef(w, e.t, p.r);
      }
    }
  }

  lemma InvFacts(s: State)
    requires FdTable.Inv(s)
    ensures Clean(s) && forall r :: r in s.refs ==> s.refs[r] in s.closes
    ensures forall o :: o in s.owners ==> o in s.closes
  {
    InvClean(s);
    forall r | r in s.refs
      ensures s.refs[r] in s.closes
    {
      RefUsable(s, r);
    }
  }

  lemma StartRefs(w: World, t: Tid, call: Call)
    requires References(w) && t !in w.threads
    ensures References(Happen(w, Start(t, call)))
  {
    var w' := Happen(w, Start(t, call));
    assert HeldBy(w.holder, t) == {} && HeldBy(w.owner, t) == {};
    forall u | u in w'.threads
      ensures Accounted(w'.threads[u].phase, u, w.s.owners, w.holder, w.owner)
    {
      if u != t { assert Accounted(w.threads[u].phase, u, w.s.owners, w.holder, w.owner); }
    }
  }

  lemma ObjectsAreCalls(w: World)
    requires MadeOk(w)
    ensures forall o :: o in w.s.closes ==> o in w.threads && (o in w.made || w.threads[o].phase.Placing?)
  {
    forall o | o in w.s.closes
      ensures o in w.threads && (o in w.made || w.threads[o].phase.Placing?)
    {
      if o !in w.made { assert BeingOpened(w, o); }
    }
  }

  lemma StartTabled(w: World, t: Tid, call: Call)
    requires Tabled(w) && t !in w.threads
    ensures Tabled(Happen(w, Start(t, call)))
  {
    var w' := Happen(w, Start(t, call));
    ObjectsAreCalls(w);
    forall u | u in w'.threads
      ensures PhaseOk(w', u)
    {
      if u != t { assert PhaseOk(w, u); }
    }
    forall o | o in w'.s.closes && o !in w'.made
      ensures BeingOpened(w', o)
    {
      assert BeingOpened(w, o);
    }
  }

  lemma StartRecorded(w: World, t: Tid, call: Call)
    requires Recorded(w) && t !in w.threads
    ensures Recorded(Happen(w, Start(t, call)))
  {
    var w' := Happen(w, Start(t, call));
    forall u | u in w'.threads
      ensures Listed(w', u)
    {
      if u != t { assert Listed(w, u); }
    }
  }

  lemma StartKeeps(w: World, t: Tid, call: Call)
    requires Coherent(w) && t !in w.threads
    ensures Coherent(Happen(w, Start(t, call)))
  {
    StartRefs(w, t, call);
    StartTabled(w, t, call);
    StartRecorded(w, t, call);
  }

  lemma BeginKeeps(w: World, t: Tid, status: int)
    requires Coherent(w) && Possible(w, Go(t, status)) && w.threads[t].phase.Begun?
    ensures Coherent(Begin(w, t, status))
  {
    InvFacts(w.s);
    assert PhaseOk(w, t);
    BeginSteps(w, t, status);
    SteppedKeeps(w.s, Begin(w, t, status).s);
    BeginRefs(w, t, status);
    BeginTabled(w, t, status);
    BeginRecorded(w, t, status);
  }

  lemma PlaceKeeps(w: World, t: Tid, status: int)
    requires Coherent(w) && Possible(w, Go(t, status)) && w.threads[t].phase.Placing?
    ensures Safe(w, Go(t, status)) && Coherent(Place(w, t))
  {
    InvFacts(w.s);
    assert PhaseOk(w, t);
    PlaceRefs(w, t);
    PlaceSteps(w, t);
    SteppedKeeps(w.s, Place(w, t).s);
    PlaceTabled(w, t);
    PlaceRecorded(w, t);
  }

  lemma TakeKeeps(w: World, t: Tid, status: int)
    requires Coherent(w) && Possible(w, Go(t, status)) && w.threads[t].phase.Taking?
    ensures Safe(w, Go(t, status)) && Coherent(Take(w, t, status))
  {
    InvFacts(w.s);
    TakeRefs(w, t, status);
    HappenSteps(w, Go(t, status));
    SteppedKeeps(w.s, Take(w, t, status).s);
    TakeTabled(w, t, status);
    TakeRecorded(w, t, status);
  }

  lemma DropsKeep(w: World, t: Tid, status: int)
    requires Coherent(w) && Possible(w, Go(t, status)) && w.threads[t].phase.Dropping?
    ensures Safe(w, Go(t, status)) && Coherent(DropNext(w, t))
  {
    InvFacts(w.s);
    DropRefs(w, t);
    HappenSteps(w, Go(t, status));
    SteppedKeeps(w.s, DropNext(w, t).s);
    DropTabled(w, t);
    DropRecorded(w, t);
  }

  lemma OwnKeeps(w: World, t: Tid, status: int)
    requires Coherent(w) && Possible(w, Go(t, status)) && w.threads[t].phase.Owning?
    ensures Safe(w, Go(t, status)) && Coherent(Own(w, t))
  {
    InvFacts(w.s);
    OwnRefs(w, t);
    HappenSteps(w, Go(t, status));
    SteppedKeeps(w.s, Own(w, t).s);
    OwnTabled(w, t);
    OwnRecorded(w, t);
  }

  /** Whatever some thread does next keeps the accounts, the table and the serial order. */
  lemma EventKeeps(w: World, e: Event)
    requires Coherent(w) && Possible(w, e)
    ensures Safe(w, e) && Coherent(Happen(w, e))
  {
    AlwaysSafe(w, e);
    match e {
      case Start(t, call) => StartKeeps(w, t, call);
      case Go(t, status) =>
        match w.threads[t].phase {
          case Begun => BeginKeeps(w, t, status);
          case Placing(_) => PlaceKeeps(w, t, status);
          case Taking(_) => TakeKeeps(w, t, status);
          case Dropping(_, _, _) => DropsKeep(w, t, status);
          case Owning(_, _, _, _) => OwnKeeps(w, t, status);
        }
    }
  }

  ghost predicate Runs(w: World, es: seq<Event>)
    decreases |es|
  {
    es == [] || (Possible(w, es[0]) && Safe(w, es[0]) && Runs(Happen(w, es[0]), es[1..]))
  }

  ghost function After(w: World, es: seq<Event>): World
    requires Runs(w, es)
    decreases |es|
  {
    if es == [] then w else After(Happen(w, es[0]), es[1..])
  }

  lemma {:induction false} RunKeeps(w: World, es: seq<Event>)
    requires Coherent(w) && Runs(w, es)
    ensures Coherent(After(w, es))
    decreases |es|
  {
    if es != [] {
      EventKeeps(w, es[0]);
      RunKeeps(Happen(w, es[0]), es[1..]);
    }
  }

  lemma InitialCoherent()
    ensures Coherent(Initial())
  {
    var w := Initial();
    assert SerialRun([]) == Settled(w.s.slots, w.made);
    assert FdTable.Legal(Init(), []) && FdTable.Exec(Init(), []) == Init();
    FdTable.ReachableInv(Init());
  }

  ghost predicate ReachableWorld(w: World) {
    exists es :: Runs(Initial(), es) && After(Initial(), es) == w
  }

  lemma ReachableCoherent(w: World)
    requires ReachableWorld(w)
    ensures Coherent(w)
  {
    var es :| Runs(Initial(), es) && After(Initial(), es) == w;
    InitialCoherent();
    RunKeeps(Initial(), es);
  }

  lemma {:induction false} RunThen(w: World, a: seq<Event>, b: seq<Event>)
    requires Runs(w, a) && Runs(After(w, a), b)
    ensures Runs(w, a + b) && After(w, a + b) == After(After(w, a), b)
    decreases |a|
  {
    if a == [] {
      assert a + b == b;
    } else {
      assert (a + b)[0] == a[0] && (a + b)[1..] == a[1..] + b;
      RunThen(Happen(w, a[0]), a[1..], b);
    }
  }

  lemma RunOne(w: World, e: Event)
    requires Possible(w, e) && Safe(w, e)
    ensures Runs(w, [e]) && After(w, [e]) == Happen(w, e)
  {
    assert [e][1..] == [];
    assert Runs(Happen(w, e), []);
  }

  /** Whatever some thread can do next continues the run: no reference or object that it uses is gone. */
  lemma NothingDangles(w: World, e: Event)
    requires ReachableWorld(w) && Possible(w, e)
    ensures Safe(w, e) && ReachableWorld(Happen(w, e))
  {
    ReachableCoherent(w);
    AlwaysSafe(w, e);
    var es :| Runs(Initial(), es) && After(Initial(), es) == w;
    RunOne(w, e);
    RunThen(Initial(), es, [e]);
  }

  /** In every run there is an order of the calls in which, performed one at a time, they leave the
      same table and have the same results; a call has its place there once it had its effect. */
  lemma Linearizable(w: World)
    requires ReachableWorld(w)
    ensures SerialResults(w.history) && SerialRun(w.history) == Settled(w.s.slots, w.made)
    ensures forall i, j :: 0 <= i < j < |w.history| ==> w.history[i].tid != w.history[j].tid
    ensures forall t :: t in w.threads && w.threads[t].phase.Returned? ==>
              Entry(t, w.threads[t].call, Plain(w.threads[t].phase.out)) in w.history
    ensures forall t :: t in w.threads && w.threads[t].phase.Begun? ==> forall e :: e in w.history ==> e.tid != t
  {
    ReachableCoherent(w);
    assert forall t :: t in w.threads ==> Listed(w, t);
  }

  /** At most the entry of the call itself is added. */
  ghost predicate Adds(w: World, w': World, t: Tid) {
    || w'.history == w.history
    || (t in w.threads && exists out :: w'.history == w.history + [Entry(t, w.threads[t].call, out)])
  }

  lemma RecordAdds(w: World, w': World, t: Tid, out: Outcome)
    requires t in w.threads && w'.history == Log(w, t, out)
    ensures Adds(w, w', t)
  {
  }

  lemma BeginAdds(w: World, t: Tid, status: int)
    requires t in w.threads && w.threads[t].phase.Begun?
    ensures Adds(w, Begin(w, t, status), t)
  {
    var w' := Begin(w, t, status);
    match w.threads[t].call {
      case OpenNew =>
      case CloseOf(fd) => RecordAdds(w, w', t, if Bound(w.s, fd) then Success else EBADF);
      case TransferOf(fd, _) => RecordAdds(w, w', t, if Bound(w.s, fd) then Success else INVALID_ARGS);
      case CloneOf(fd) => RecordAdds(w, w', t, if Bound(w.s, fd) then Cloned(status) else INVALID_ARGS);
      case DupOf(fd, start) => if w'.history != w.history { RecordAdds(w, w', t, if start < 0 then EINVAL else EBADF); }
      case Dup2Of(fd, target) => if w'.history != w.history { RecordAdds(w, w', t, EBADF); }
    }
  }

  lemma PlaceAdds(w: World, t: Tid)
    requires t in w.threads && w.threads[t].phase.Placing? && w.threads[t].phase.r in w.s.refs
    ensures Adds(w, Place(w, t), t)
  {
    var w' := Place(w, t);
    match w.threads[t].call {
      case OpenNew =>
        var n := LowestFrom(w.s.slots, 0);
        RecordAdds(w, w', t, if n < |w.s.slots| then Fd(n) else EMFILE);
      case DupOf(_, start) =>
        if start >= 0 {
          var n := LowestFrom(w.s.slots, start);
          RecordAdds(w, w', t, if n < |w.s.slots| then Fd(n) else EMFILE);
        }
      case Dup2Of(_, target) => if IsFd(w.s, target) { RecordAdds(w, w', t, Fd(target)); }
      case _ =>
    }
  }

  lemma HappenAdds(w: World, e: Event)
    requires Possible(w, e) && Safe(w, e)
    ensures Adds(w, Happen(w, e), e.t)
  {
    if e.Go? {
      if w.threads[e.t].phase.Begun? { BeginAdds(w, e.t, e.status); }
      if w.threads[e.t].phase.Placing? { PlaceAdds(w, e.t); }
    }
  }

  /** The order of the calls says what the table amounts to before and after. */
  lemma AddedEffect(w: World, w': World, t: Tid)
    requires Recorded(w) && Recorded(w') && Adds(w, w', t)
    ensures var (s, s') := (Settled(w.s.slots, w.made), Settled(w'.s.slots, w'.made));
            if w'.history == w.history then s' == s
            else t in w.threads && s' == Serial(s, t, w.threads[t].call).0
  {
    if w'.history != w.history {
      var out :| w'.history == w.history + [Entry(t, w.threads[t].call, out)];
      assert w'.history[..|w'.history| - 1] == w.history;
    }
  }

  /** Every step either leaves the order alone, and then what the table amounts to as well, or it
      is the effect of its own call. */
  lemma OneEffect(w: World, e: Event)
    requires Coherent(w) && Possible(w, e)
    ensures Safe(w, e) && Adds(w, Happen(w, e), e.t)
    ensures var (w', s) := (Happen(w, e), Settled(w.s.slots, w.made));
            if w'.history == w.history then Settled(w'.s.slots, w'.made) == s
            else e.t in w.threads && Settled(w'.s.slots, w'.made) == Serial(s, e.t, w.threads[e.t].call).0
  {
    EventKeeps(w, e);
    HappenAdds(w, e);
    AddedEffect(w, Happen(w, e), e.t);
  }

  lemma {:induction false} HistoryGrows(w: World, es: seq<Event>)
    requires Coherent(w) && Runs(w, es)
    ensures w.history <= After(w, es).history
    decreases |es|
  {
    if es != [] {
      OneEffect(w, es[0]);
      EventKeeps(w, es[0]);
      HistoryGrows(Happen(w, es[0]), es[1..]);
    }
  }

  /** The order respects time: a call that returned before another one started comes first. */
  lemma OrderRespectsTime(w: World, es: seq<Event>, t: Tid, u: Tid, i: nat, j: nat)
    requires ReachableWorld(w) && Runs(w, es) && t in w.threads && w.threads[t].phase.Returned? && u !in w.threads
    requires var h := After(w, es).history; i < |h| && j < |h| && h[i].tid == t && h[j].tid == u
    ensures i < j
  {
    ReachableCoherent(w);
    RunKeeps(w, es);
    HistoryGrows(w, es);
    var h := After(w, es).history;
    assert Listed(w, t);
    var k :| 0 <= k < |w.history| && w.history[k].tid == t;
    assert h[k] == w.history[k];
    assert k == i;
    forall n | 0 <= n < |w.history|
      ensures h[n].tid in w.threads
    {
      assert h[n] == w.history[n] && w.history[n] in w.history;
    }
  }

  // ------------------------------------------------------------- when all calls returned

  lemma SomebodyHas(w: World)
    requires References(w)
    ensures forall r :: r in w.s.refs ==> w.holder[r] in w.threads && r in Refs(w.threads[w.holder[r]].phase)
    ensures forall o :: o in w.s.owners ==> w.owner[o] in w.threads && o in Owned(w.threads[w.owner[o]].phase)
  {
    forall r | r in w.s.refs
      ensures w.holder[r] in w.threads && r in Refs(w.threads[w.holder[r]].phase)
    {
      var t := w.holder[r];
      assert Accounted(w.threads[t].phase, t, w.s.owners, w.holder, w.owner);
      assert r in HeldBy(w.holder, t);
    }
    forall o | o in w.s.owners
      ensures w.owner[o] in w.threads && o in Owned(w.threads[w.owner[o]].phase)
    {
      var t := w.owner[o];
      assert Accounted(w.threads[t].phase, t, w.s.owners, w.holder, w.owner);
      assert o in HeldBy(w.owner, t);
    }
  }

  lemma NobodyHolds(w: World)
    requires References(w) && forall t :: t in w.threads ==> w.threads[t].phase.Returned?
    ensures w.s.refs == map[] && w.s.owners == map[]
  {
    SomebodyHas(w);
  }

  lemma SettledCounts(s: State, made: set<Obj>)
    requires FdTable.Inv(s) && s.refs == map[] && s.owners == map[] && s.closes.Keys == made && SlotsMade(s.slots, made)
    ensures s.count == Counts(s.slots, made)
  {
    forall o | o in s.count
      ensures o in made && s.count[o] == CountIn(s.slots, o) > 0
    {
      assert RefsOf(s.refs, o) == {};
    }
    forall o | o in made && CountIn(s.slots, o) > 0
      ensures o in s.count
    {
      var i :| i in SlotsOf(s.slots, o);
      assert Alive(s, s.slots[i].obj);
    }
  }

  lemma SettledCloses(s: State, made: set<Obj>)
    requires FdTable.Inv(s) && s.owners == map[] && s.closes.Keys == made && s.count == Counts(s.slots, made)
    ensures s.closes == Closes(s.slots, made)
  {
  }

  /** Once all calls have returned, the table is exactly the serial one: no reference is left, every
      object has as many as slots lead to it, and one that no slot leads to was closed, once. */
  lemma QuietIsSerial(w: World)
    requires ReachableWorld(w) && forall t :: t in w.threads ==> w.threads[t].phase.Returned?
    ensures Same(w.s, SerialRun(w.history))
  {
    ReachableCoherent(w);
    NobodyHolds(w);
    ObjectsAreCalls(w);
    SettledCounts(w.s, w.made);
    SettledCloses(w.s, w.made);
  }

  // ------------------------------------------------------------------ all calls can return

  function Weight(p: Phase): nat {
    match p
    case Begun => 9
    case Placing(_) => 8
    case Taking(_) => 7
    case Dropping(_, more, _) => if more.Some? then 6 else 3
    case Owning(_, closed, more, _) => (if more.Some? then 4 else 1) + One(!closed)
    case Returned(_) => 0
  }

  /** The call is one step nearer to its end, and keeps nobody else's lock. */
  ghost predicate Nearer(w: World, w': World, t: Tid) {
    && OnlyThread(w, w', t) && Weight(w'.threads[t].phase) < Weight(w.threads[t].phase)
    && (w'.lock == w.lock || w'.lock.None? || w'.lock == Some(t))
  }

  lemma BeginNearer(w: World, t: Tid)
    requires t in w.threads && w.threads[t].phase.Begun?
    ensures Nearer(w, Begin(w, t, 0), t)
  {
    match w.threads[t].call {
      case OpenNew =>
      case CloseOf(fd) => UnbindNearer(w, t, fd, EBADF);
      case TransferOf(fd, _) => UnbindNearer(w, t, fd, INVALID_ARGS);
      case CloneOf(fd) => if Bound(w.s, fd) { FetchNearer(w, t, fd); }
      case DupOf(fd, _) => if Bound(w.s, fd) { FetchNearer(w, t, fd); }
      case Dup2Of(fd, _) => if Bound(w.s, fd) { FetchNearer(w, t, fd); }
    }
  }

  lemma UnbindNearer(w: World, t: Tid, fd: int, none: Outcome)
    requires t in w.threads && w.threads[t].phase.Begun?
    ensures Nearer(w, Unbind(w, t, fd, none), t)
  {
  }

  lemma FetchNearer(w: World, t: Tid, fd: int)
    requires t in w.threads && w.threads[t].phase.Begun? && Bound(w.s, fd)
    ensures Nearer(w, Fetch(w, t, fd, 0), t)
  {
  }

  lemma PlaceNearer(w: World, t: Tid)
    requires t in w.threads && w.threads[t].phase.Placing? && PhaseOk(w, t)
    ensures w.threads[t].phase.r in w.s.refs && Nearer(w, Place(w, t), t)
  {
  }

  lemma TakeNearer(w: World, t: Tid)
    requires t in w.threads && w.threads[t].phase.Taking? && w.threads[t].phase.r in w.s.refs
    ensures Nearer(w, Take(w, t, 0), t)
  {
  }

  lemma DropNearer(w: World, t: Tid)
    requires t in w.threads && w.threads[t].phase.Dropping? && w.threads[t].phase.r in w.s.refs
    ensures Nearer(w, DropNext(w, t), t)
  {
  }

  lemma OwnNearer(w: World, t: Tid)
    requires t in w.threads && w.threads[t].phase.Owning?
    ensures Nearer(w, Own(w, t), t)
  {
  }

  lemma GoShrinks(w: World, t: Tid)
    requires Tabled(w) && Possible(w, Go(t, 0)) && Safe(w, Go(t, 0))
    ensures Nearer(w, Happen(w, Go(t, 0)), t)
  {
    match w.threads[t].phase {
      case Begun => BeginNearer(w, t);
      case Placing(_) => assert PhaseOk(w, t); PlaceNearer(w, t);
      case Taking(_) => TakeNearer(w, t);
      case Dropping(_, _, _) => DropNearer(w, t);
      case Owning(_, _, _, _) => OwnNearer(w, t);
    }
  }

  /** A call that nobody keeps from the lock can be carried to its end. */
  lemma {:induction false} FinishOne(w: World, t: Tid) returns (es: seq<Event>)
    requires Coherent(w) && t in w.threads && (w.lock.None? || w.lock == Some(t))
    ensures Runs(w, es) && Coherent(After(w, es)) && OnlyThread(w, After(w, es), t)
    ensures After(w, es).threads[t].phase.Returned? && forall e :: e in es ==> e.Go?
    decreases Weight(w.threads[t].phase)
  {
    if w.threads[t].phase.Returned? {
      return [];
    }
    var e := Go(t, 0);
    EventKeeps(w, e);
    GoShrinks(w, t);
    var w' := Happen(w, e);
    var rest := FinishOne(w', t);
    es := [e] + rest;
    assert es[0] == e && es[1..] == rest;
  }

  function Unfinished(w: World): set<Tid> {
    set t | t in w.threads && !w.threads[t].phase.Returned?
  }

  lemma OneFinished(w: World, w': World, t: Tid)
    requires OnlyThread(w, w', t) && w'.threads[t].phase.Returned? && !w.threads[t].phase.Returned?
    ensures |Unfinished(w')| < |Unfinished(w)|
  {
    assert Unfinished(w') == Unfinished(w) - {t};
  }

  /** From every reachable state all calls can come back, without a new one: nobody waits for ever
      for the lock or for a reference. */
  lemma {:induction false} AllCanReturn(w: World) returns (es: seq<Event>)
    requires Coherent(w)
    ensures Runs(w, es) && (forall e :: e in es ==> e.Go?)
    ensures forall t :: t in After(w, es).threads ==> After(w, es).threads[t].phase.Returned?
    decreases |Unfinished(w)|
  {
    if Unfinished(w) == {} {
      assert forall t :: t in w.threads && !w.threads[t].phase.Returned? ==> t in Unfinished(w);
      return [];
    }
    var t: Tid;
    if w.lock.Some? {
      t := w.lock.value;
    } else {
      t :| t in Unfinished(w);
    }
    var first := FinishOne(w, t);
    OneFinished(w, After(w, first), t);
    var rest := AllCanReturn(After(w, first));
    RunThen(w, first, rest);
    es := first + rest;
  }

  // ---------------------------------------------------- closing one descriptor several times

  /** The call closes or transfers the descriptor, with or without success. */
  predicate Asks(call: Call, fd: int) {
    call == CloseOf(fd) || (call.TransferOf? && call.fd == fd)
  }

  /** The call takes what the descriptor leads to. */
  predicate Takes(e: Entry, fd: int) {
    e.out == Success && Asks(e.call, fd)
  }

  lemma {:induction false} EntryAt(h: seq<Entry>, k: nat)
    requires SerialResults(h) && k < |h|
    ensures var (s, out) := Serial(SerialRun(h[..k]), h[k].tid, h[k].call);
            h[k].out == Plain(out) && SerialRun(h[..k + 1]) == s
  {
    var front := h[..|h| - 1];
    if k == |h| - 1 {
      assert h[..k + 1] == h;
    } else {
      EntryAt(front, k);
      assert front[..k] == h[..k] && front[..k + 1] == h[..k + 1];
    }
  }

  /** Only a call that returns the descriptor binds it. */
  lemma BindsIt(s: State, t: Tid, call: Call, fd: int)
    requires !Bound(s, fd) && Bound(Serial(s, t, call).0, fd)
    ensures Serial(s, t, call).1 == Fd(fd)
  {
  }

  /** Only a close or a transfer that succeeds frees it. */
  lemma FreesIt(s: State, t: Tid, call: Call, fd: int)
    ensures Bound(s, fd) && !Bound(Serial(s, t, call).0, fd) <==>
              Takes(Entry(t, call, Plain(Serial(s, t, call).1)), fd)
  {
  }

  /** The descriptor is bound after the first k calls. */
  ghost predicate BoundAt(h: seq<Entry>, k: nat, fd: int)
    requires k <= |h|
  {
    Bound(SerialRun(h[..k]), fd)
  }

  lemma EntryBinds(h: seq<Entry>, k: nat, fd: int)
    requires SerialResults(h) && k < |h| && !BoundAt(h, k, fd) && BoundAt(h, k + 1, fd)
    ensures h[k].out == Fd(fd)
  {
    EntryAt(h, k);
    BindsIt(SerialRun(h[..k]), h[k].tid, h[k].call, fd);
  }

  lemma EntryTakes(h: seq<Entry>, k: nat, fd: int)
    requires SerialResults(h) && k < |h|
    ensures Takes(h[k], fd) <==> BoundAt(h, k, fd) && !BoundAt(h, k + 1, fd)
  {
    EntryAt(h, k);
    FreesIt(SerialRun(h[..k]), h[k].tid, h[k].call, fd);
  }

  lemma {:induction false} BoundBetween(h: seq<Entry>, i: nat, k: nat, fd: int) returns (m: nat)
    requires SerialResults(h) && i < k <= |h| && !BoundAt(h, i, fd) && BoundAt(h, k, fd)
    ensures i <= m < k && h[m].out == Fd(fd)
    decreases k - i
  {
    if i + 1 == k || BoundAt(h, i + 1, fd) {
      EntryBinds(h, i, fd);
      return i;
    }
    m := BoundBetween(h, i + 1, k, fd);
  }

  lemma {:induction false} FreedBetween(h: seq<Entry>, i: nat, k: nat, fd: int) returns (m: nat)
    requires SerialResults(h) && i < k <= |h| && BoundAt(h, i, fd) && !BoundAt(h, k, fd)
    ensures i <= m < k && Takes(h[m], fd)
    decreases k - i
  {
    if i + 1 == k || !BoundAt(h, i + 1, fd) {
      EntryTakes(h, i, fd);
      return i;
    }
    m := FreedBetween(h, i + 1, k, fd);
  }

  lemma BoundAgain(h: seq<Entry>, i: nat, j: nat, fd: int) returns (k: nat)
    requires SerialResults(h) && i < j < |h| && Takes(h[i], fd) && Takes(h[j], fd)
    ensures i < k < j && h[k].out == Fd(fd)
  {
    EntryTakes(h, i, fd);
    EntryTakes(h, j, fd);
    assert i + 1 != j;
    k := BoundBetween(h, i + 1, j, fd);
  }

  /** Two calls only both get what a descriptor leads to if it was bound again in between. */
  lemma TakenTwice(w: World, i: nat, j: nat, fd: int) returns (k: nat)
    requires ReachableWorld(w) && i < j < |w.history| && Takes(w.history[i], fd) && Takes(w.history[j], fd)
    ensures i < k < j && w.history[k].out == Fd(fd)
  {
    Linearizable(w);
    k := BoundAgain(w.history, i, j, fd);
  }

  lemma AskedAndBound(h: seq<Entry>, k: nat, fd: int)
    requires SerialResults(h) && k < |h| && Asks(h[k].call, fd) && BoundAt(h, k, fd)
    ensures Takes(h[k], fd)
  {
    EntryAt(h, k);
  }

  /** Of any calls that close or transfer a bound descriptor, in any interleaving, exactly one gets
      what it leads to, as long as the descriptor is not bound again. */
  lemma ExactlyOneTakes(w: World, lo: nat, hi: nat, c: nat, fd: int) returns (m: nat)
    requires ReachableWorld(w) && lo <= c < hi <= |w.history| && BoundAt(w.history, lo, fd)
    requires Asks(w.history[c].call, fd) && forall k :: lo <= k < hi ==> w.history[k].out != Fd(fd)
    ensures lo <= m < hi && forall n :: lo <= n < hi ==> (Takes(w.history[n], fd) <==> n == m)
  {
    var h := w.history;
    Linearizable(w);
    if BoundAt(h, c, fd) {
      m := c;
      AskedAndBound(h, c, fd);
    } else {
      m := FreedBetween(h, lo, c, fd);
    }
    forall n | lo <= n < hi && Takes(h[n], fd)
      ensures n == m
    {
      if n < m {
        var k := TakenTwice(w, n, m, fd);
      } else if m < n {
        var k := TakenTwice(w, m, n, fd);
      }
    }
  }

  // --------------------------------------------------------- who reports the close's status

  /** A close reports what the object's own close says exactly if it is the only holder left when
      it asks. */
  lemma CloseReportsIff(w: World, t: Tid, status: int)
    requires Coherent(w) && t in w.threads && w.threads[t].call.CloseOf? && w.threads[t].phase.Taking?
    ensures var r := w.threads[t].phase.r;
            && r in w.s.refs
            && Take(w, t, status).threads[t].phase ==
               (if Holders(w.s, w.s.refs[r]) == 1 then Owning(w.s.refs[r], false, None, Closed(status))
                else Dropping(r, None, Success))
  {
    var r := w.threads[t].phase.r;
    HasRef(w, t, r);
    CountIsHolders(w.s, r);
  }

  /** A transfer unwraps the object exactly if it is the only holder left when it asks; otherwise it
      clones it if it may, and fails if not. */
  lemma TransferUnwrapsIff(w: World, t: Tid, status: int)
    requires Coherent(w) && t in w.threads && w.threads[t].call.TransferOf? && w.threads[t].phase.Taking?
    ensures var r := w.threads[t].phase.r;
            && r in w.s.refs
            && Take(w, t, status).threads[t].phase ==
               (if Holders(w.s, w.s.refs[r]) == 1 then Owning(w.s.refs[r], false, None, Unwrapped(status))
                else Dropping(r, None, if w.threads[t].call.orClone then Cloned(status) else UNAVAILABLE))
  {
    var r := w.threads[t].phase.r;
    HasRef(w, t, r);
    CountIsHolders(w.s, r);
  }

  lemma CountIsHolders(s: State, r: RefId)
    requires FdTable.Inv(s) && r in s.refs
    ensures Count(s, s.refs[r]) == Holders(s, s.refs[r])
  {
    assert Alive(s, s.refs[r]);
  }

  lemma RunFirst(w: World, e: Event, es: seq<Event>)
    requires Possible(w, e) && Safe(w, e) && Runs(Happen(w, e), es)
    ensures Runs(w, [e] + es) && After(w, [e] + es) == After(Happen(w, e), es)
  {
    assert ([e] + es)[0] == e && ([e] + es)[1..] == es;
  }

  // Two calls close the two descriptors of one object, each asks while the other still has its
  // reference, and then both drop theirs.

  /** Calls t and u have a reference to o each, and there is no other. */
  ghost predicate BothHave(w: World, o: Obj, a: int, b: int, t: Tid, u: Tid, p: Phase, q: Phase, r: RefId, r': RefId) {
    && t != u && t in w.threads && u in w.threads && r != r'
    && w.threads[t] == Thread(CloseOf(a), p) && w.threads[u] == Thread(CloseOf(b), q)
    && r in w.s.refs && r' in w.s.refs && w.s.refs[r] == w.s.refs[r'] == o
    && Count(w.s, o) == 2 && o in w.s.closes && w.s.closes[o] == 0
  }

  lemma OneReleases(w: World, o: Obj, t: Tid, a: int, status: int)
    requires w.lock.None? && t in w.threads && w.threads[t] == Thread(CloseOf(a), Begun)
    requires Bound(w.s, a) && w.s.slots[a] == Holds(o)
    ensures Possible(w, Go(t, status)) && Safe(w, Go(t, status))
    ensures var w' := Happen(w, Go(t, status));
            && w'.threads == w.threads[t := Thread(CloseOf(a), Taking(w.s.nextRef))] && w'.lock.None?
            && w'.s == w.s.(slots := w.s.slots[a := Available], refs := w.s.refs[w.s.nextRef := o],
                            nextRef := w.s.nextRef + 1)
  {
  }

  lemma BothRelease(w: World, o: Obj, a: int, b: int, t: Tid, u: Tid, status: int) returns (es: seq<Event>)
    requires w.lock.None? && t != u && t in w.threads && u in w.threads && a != b
    requires w.threads[t] == Thread(CloseOf(a), Begun) && w.threads[u] == Thread(CloseOf(b), Begun)
    requires Bound(w.s, a) && Bound(w.s, b) && w.s.slots[a] == w.s.slots[b] == Holds(o)
    requires Count(w.s, o) == 2 && o in w.s.closes && w.s.closes[o] == 0
    ensures Runs(w, es)
    ensures var n := w.s.nextRef; BothHave(After(w, es), o, a, b, t, u, Taking(n), Taking(n + 1), n, n + 1)
  {
    OneReleases(w, o, t, a, status);
    var w1 := Happen(w, Go(t, status));
    OneReleases(w1, o, u, b, status);
    RunOne(w1, Go(u, status));
    RunFirst(w, Go(t, status), [Go(u, status)]);
    es := [Go(t, status)] + [Go(u, status)];
  }

  lemma OneAsks(w: World, t: Tid, r: RefId, o: Obj, status: int)
    requires t in w.threads && w.threads[t].call.CloseOf? && w.threads[t].phase == Taking(r)
    requires r in w.s.refs && w.s.refs[r] == o && Count(w.s, o) == 2
    ensures Possible(w, Go(t, status)) && Safe(w, Go(t, status))
    ensures Happen(w, Go(t, status)) == Move(w, t, Dropping(r, None, Success), w.s, w.lock, w.holder, w.owner)
  {
  }

  lemma BothAsk(w: World, o: Obj, a: int, b: int, t: Tid, u: Tid, r: RefId, r': RefId, status: int)
      returns (es: seq<Event>)
    requires BothHave(w, o, a, b, t, u, Taking(r), Taking(r'), r, r')
    ensures Runs(w, es)
    ensures BothHave(After(w, es), o, a, b, t, u, Dropping(r, None, Success), Dropping(r', None, Success), r, r')
  {
    OneAsks(w, t, r, o, status);
    var w1 := Happen(w, Go(t, status));
    OneAsks(w1, u, r', o, status);
    RunOne(w1, Go(u, status));
    RunFirst(w, Go(t, status), [Go(u, status)]);
    es := [Go(t, status)] + [Go(u, status)];
  }

  /** The last one drops, closes and deletes. */
  lemma LastDrops(w: World, o: Obj, u: Tid, r: RefId, status: int) returns (es: seq<Event>)
    requires u in w.threads && w.threads[u].phase == Dropping(r, None, Success) && r in w.s.refs && w.s.refs[r] == o
    requires Count(w.s, o) == 1 && o in w.s.closes && w.s.closes[o] == 0
    ensures Runs(w, es)
    ensures After(w, es).threads == w.threads[u := w.threads[u].(phase := Returned(Success))]
    ensures o in After(w, es).s.closes && After(w, es).s.closes[o] == 1
  {
    var e := Go(u, status);
    var w1 := Happen(w, e);
    var w2 := Happen(w1, e);
    RunOne(w2, e);
    RunFirst(w1, e, [e]);
    RunFirst(w, e, [e] + [e]);
    es := [e] + ([e] + [e]);
    assert w1.threads[u].phase == Owning(o, false, None, Success);
    assert w2.threads[u].phase == Owning(o, true, None, Success);
  }

  /** Both calls returned success, and the object was closed once. */
  ghost predicate BothClosed(w: World, o: Obj, a: int, b: int, t: Tid, u: Tid) {
    && t in w.threads && w.threads[t] == Thread(CloseOf(a), Returned(Success))
    && u in w.threads && w.threads[u] == Thread(CloseOf(b), Returned(Success))
    && o in w.s.closes && w.s.closes[o] == 1
  }

  lemma BothDrop(w: World, o: Obj, a: int, b: int, t: Tid, u: Tid, r: RefId, r': RefId, status: int)
      returns (es: seq<Event>)
    requires BothHave(w, o, a, b, t, u, Dropping(r, None, Success), Dropping(r', None, Success), r, r')
    ensures Runs(w, es) && BothClosed(After(w, es), o, a, b, t, u)
  {
    var e := Go(t, status);
    var w1 := Happen(w, e);
    assert Count(w1.s, o) == 1 && w1.threads[t].phase == Returned(Success);
    var rest := LastDrops(w1, o, u, r', status);
    RunFirst(w, e, rest);
    es := [e] + rest;
  }

  lemma TwoSlots(slots: seq<Slot>, a: int, b: int, o: Obj)
    requires 0 <= a < |slots| && 0 <= b < |slots| && a != b && slots[a] == slots[b] == Holds(o)
    ensures CountIn(slots, o) >= 2
  {
    var all := SlotsOf(slots, o);
    assert {a, b} <= all;
    assert |all - {a, b}| == |all| - |{a, b}|;
  }

  /** One at a time, the second of the two closes reports what the object says. */
  lemma SecondReports(slots: seq<Slot>, made: set<Obj>, a: int, b: int, o: Obj, status: int)
    requires 0 <= a < |slots| && 0 <= b < |slots| && a != b && slots[a] == slots[b] == Holds(o)
    requires SlotsMade(slots, made) && CountIn(slots, o) == 2
    ensures CloseFd(CloseFd(Settled(slots, made), a, status).0, b, status).1 == Closed(status)
  {
    SettledRelease(slots, made, a);
    SlotTaken(slots, a);
  }

  lemma BothClose(w: World, o: Obj, a: int, b: int, t: Tid, u: Tid, status: int) returns (es: seq<Event>)
    requires w.lock.None? && t != u && t !in w.threads && u !in w.threads && a != b
    requires Bound(w.s, a) && Bound(w.s, b) && w.s.slots[a] == w.s.slots[b] == Holds(o)
    requires Count(w.s, o) == 2 && o in w.s.closes && w.s.closes[o] == 0
    ensures Runs(w, es) && BothClosed(After(w, es), o, a, b, t, u)
  {
    var e, e' := Start(t, CloseOf(a)), Start(u, CloseOf(b));
    var w1 := Happen(w, e);
    var w2 := Happen(w1, e');
    RunOne(w1, e');
    RunFirst(w, e, [e']);
    var n := w2.s.nextRef;
    var release := BothRelease(w2, o, a, b, t, u, status);
    var w3 := After(w2, release);
    var ask := BothAsk(w3, o, a, b, t, u, n, n + 1, status);
    var drop := BothDrop(After(w3, ask), o, a, b, t, u, n, n + 1, status);
    RunThen(w3, ask, drop);
    RunThen(w2, release, ask + drop);
    RunThen(w, [e] + [e'], release + (ask + drop));
    es := ([e] + [e']) + (release + (ask + drop));
  }

  lemma TwoHolders(s: State, o: Obj, a: int, b: int)
    requires FdTable.Inv(s) && a != b && Bound(s, a) && Bound(s, b) && s.slots[a] == s.slots[b] == Holds(o)
    requires Holders(s, o) == 2
    ensures Count(s, o) == 2 && o in s.closes && s.closes[o] == 0 && CountIn(s.slots, o) == 2
  {
    SlotUsable(s, a);
    TwoSlots(s.slots, a, b, o);
  }

  /** From any state where two descriptors are all that leads to an object, both can be closed at
      the same time so that both closes return success without asking the object, although one at
      a time the second one reports what the object says; it is closed all the same, once. */
  lemma CloseStatusLost(w: World, o: Obj, a: int, b: int, t: Tid, u: Tid, status: int) returns (es: seq<Event>)
    requires Coherent(w) && w.lock.None? && t != u && t !in w.threads && u !in w.threads && a != b
    requires Bound(w.s, a) && Bound(w.s, b) && w.s.slots[a] == w.s.slots[b] == Holds(o) && Holders(w.s, o) == 2
    ensures Runs(w, es) && BothClosed(After(w, es), o, a, b, t, u)
    ensures CloseFd(CloseFd(Settled(w.s.slots, w.made), a, status).0, b, status).1 == Closed(status)
  {
    TwoHolders(w.s, o, a, b);
    SecondReports(w.s.slots, w.made, a, b, o, status);
    es := BothClose(w, o, a, b, t, u, status);
  }

  lemma OpenedNow(w: World, o: Tid) returns (es: seq<Event>)
    requires w == Initial()
    ensures Runs(w, es) && After(w, es).lock.None? && After(w, es).threads == map[o := Thread(OpenNew, Returned(Fd(0)))]
    ensures After(w, es).s == w.s.(slots := w.s.slots[0 := Holds(o)], count := map[o := 1], closes := map[o := 0],
                                   nextRef := 1)
  {
    var e := Go(o, 0);
    var w1 := Happen(w, Start(o, OpenNew));
    var w2 := Happen(w1, e);
    assert LowestFrom(w2.s.slots, 0) == 0;
    var w3 := Happen(w2, e);
    RunOne(w3, e);
    RunFirst(w2, e, [e]);
    RunFirst(w1, e, [e] + [e]);
    RunFirst(w, Start(o, OpenNew), [e] + ([e] + [e]));
    es := [Start(o, OpenNew)] + ([e] + ([e] + [e]));
    assert w3.threads[o].phase == Dropping(0, None, Fd(0));
    assert Happen(w3, e).s.refs == map[];
  }

  lemma DupFetches(w: World, o: Obj, t: Tid)
    requires w.lock.None? && t in w.threads && w.threads[t] == Thread(DupOf(0, 0), Begun)
    requires 0 < |w.s.slots| && w.s.slots[0] == Holds(o) && w.s.count == map[o := 1] && w.s.refs == map[]
    ensures Possible(w, Go(t, 0)) && Safe(w, Go(t, 0))
    ensures var (w', n) := (Happen(w, Go(t, 0)), w.s.nextRef);
            && w'.threads == w.threads[t := Thread(DupOf(0, 0), Placing(n))] && w'.lock == Some(t)
            && w'.s == w.s.(count := map[o := 2], refs := map[n := o], nextRef := n + 1)
  {
  }

  lemma DupPlaces(w: World, o: Obj, t: Tid, n: RefId)
    requires w.lock == Some(t) && t in w.threads && w.threads[t] == Thread(DupOf(0, 0), Placing(n))
    requires |w.s.slots| > 1 && w.s.slots[0] == Holds(o) && w.s.slots[1] == Available
    requires w.s.count == map[o := 2] && w.s.refs == map[n := o]
    ensures Possible(w, Go(t, 0)) && Safe(w, Go(t, 0))
    ensures var w' := Happen(w, Go(t, 0));
            && w'.threads == w.threads[t := Thread(DupOf(0, 0), Dropping(n, None, Fd(1)))] && w'.lock == Some(t)
            && w'.s == w.s.(slots := w.s.slots[1 := Holds(o)], count := map[o := 3])
  {
    assert LowestFrom(w.s.slots, 0) == LowestFrom(w.s.slots, 1) == 1;
  }

  lemma DupDrops(w: World, o: Obj, t: Tid, n: RefId)
    requires w.lock == Some(t) && t in w.threads && w.threads[t] == Thread(DupOf(0, 0), Dropping(n, None, Fd(1)))
    requires w.s.count == map[o := 3] && w.s.refs == map[n := o]
    ensures Possible(w, Go(t, 0)) && Safe(w, Go(t, 0))
    ensures var w' := Happen(w, Go(t, 0));
            && w'.threads == w.threads[t := Thread(DupOf(0, 0), Returned(Fd(1)))] && w'.lock.None?
            && w'.s == w.s.(count := map[o := 2], refs := map[])
  {
  }

  /** After a dup the descriptors 0 and 1 are all that leads to the object. */
  lemma DuppedNow(w: World, o: Tid, t: Tid) returns (es: seq<Event>)
    requires w.lock.None? && t !in w.threads && w.s.refs == map[] && |w.s.slots| > 1
    requires w.s.slots[0] == Holds(o) && w.s.slots[1] == Available && w.s.count == map[o := 1]
    ensures Runs(w, es) && After(w, es).lock.None?
    ensures After(w, es).threads == w.threads[t := Thread(DupOf(0, 0), Returned(Fd(1)))]
    ensures After(w, es).s == w.s.(slots := w.s.slots[1 := Holds(o)], count := map[o := 2], nextRef := w.s.nextRef + 1)
  {
    var e := Go(t, 0);
    var w1 := Happen(w, Start(t, DupOf(0, 0)));
    DupFetches(w1, o, t);
    var w2 := Happen(w1, e);
    DupPlaces(w2, o, t, w.s.nextRef);
    var w3 := Happen(w2, e);
    DupDrops(w3, o, t, w.s.nextRef);
    RunOne(w3, e);
    RunFirst(w2, e, [e]);
    RunFirst(w1, e, [e] + [e]);
    RunFirst(w, Start(t, DupOf(0, 0)), [e] + ([e] + [e]));
    es := [Start(t, DupOf(0, 0))] + ([e] + ([e] + [e]));
  }

  /** Such a state is reachable: one object, opened and duplicated. */
  lemma CanLoseStatus(status: int) returns (w: World)
    ensures ReachableWorld(w) && BothClosed(w, 0, 0, 1, 2, 3)
  {
    var open := OpenedNow(Initial(), 0);
    var w1 := After(Initial(), open);
    var dup := DuppedNow(w1, 0, 1);
    var w2 := After(w1, dup);
    var close := BothClose(w2, 0, 0, 1, 2, 3, status);
    w := After(w2, close);
    RunThen(w1, dup, close);
    RunThen(Initial(), open, dup + close);
  }
}
