/**
 * The descriptor table of fdio: slots that are available, reserved or hold an object, over
 * reference-counted objects that are closed when their last reference goes
 * (fdio/fdio_slot.cc, fdio/fdio_unistd.cc, fdio/unistd.cc, fdio/fdio.cc, fdio/fd.cc,
 * fdio/null.cc, fdio/internal.h).
 *
 * The table is behind a lock, but references travel outside it: between the moment a thread
 * takes an object out of a slot and the moment it decides who closes it, other threads may do
 * anything.  So every slot operation and every change of a reference is a step of its own, and
 * the invariant is proved for all runs of steps; the functions of the C interface are runs.
 */
module FdTable {
  import opened Arithmetic
  import opened Wrappers

  type Obj = nat
  type RefId = nat

  const MAX_FD: nat := 1024

  datatype Slot = Available | Reserved | Holds(obj: Obj)

  /** refs are the references outside the table: RefPtr locals and raw pointers given out.
      An object in owners has one owner left, who closes it and then deletes it; the flag says
      whether close was called.  closes counts the calls of close, for every object ever made. */
  datatype State = State(slots: seq<Slot>, count: map<Obj, nat>, refs: map<RefId, Obj>, nextRef: RefId,
                         owners: map<Obj, bool>, closes: map<Obj, nat>)

  function Init(): State {
    State(seq(MAX_FD, i => Available), map[], map[], 0, map[], map[])
  }

  function SlotsOf(slots: seq<Slot>, o: Obj): set<int> {
    set i | 0 <= i < |slots| && slots[i] == Holds(o)
  }

  function RefsOf(refs: map<RefId, Obj>, o: Obj): set<RefId> {
    set r | r in refs && refs[r] == o
  }

  function Holders(s: State, o: Obj): nat {
    |SlotsOf(s.slots, o)| + |RefsOf(s.refs, o)|
  }

  // ----------------------------------------------------------------------- steps

  datatype Step =
    | Create(o: Obj)
    | Get(fd: int)
    | Release(fd: int)
    | TrySet(fd: int, r: RefId)
    | Replace(fd: int, r: RefId)
    | TryReserve(fd: int)
    | TryFill(fd: int, r: RefId)
    | ReleaseReservation(fd: int)
    | Drop(r: RefId)
    | TakeLast(r: RefId)
    | Export(o: Obj)
    | Close(o: Obj)
    | Delete(o: Obj)

  predicate IsFd(s: State, fd: int) {
    0 <= fd < |s.slots|
  }

  predicate Enabled(s: State, t: Step) {
    match t
    case Create(o) => o !in s.closes
    case Get(fd) => IsFd(s, fd)
    case Release(fd) => IsFd(s, fd)
    case TrySet(fd, r) => IsFd(s, fd) && r in s.refs
    case Replace(fd, r) => IsFd(s, fd) && r in s.refs
    case TryReserve(fd) => IsFd(s, fd)
    case TryFill(fd, r) => IsFd(s, fd) && r in s.refs
    case ReleaseReservation(fd) => IsFd(s, fd)
    case Drop(r) => r in s.refs
    case TakeLast(r) => r in s.refs
    case Export(o) => o in s.owners && !s.owners[o] && Count(s, o) == 1
    case Close(o) => o in s.owners && !s.owners[o]
    case Delete(o) => o in s.owners && s.owners[o]
  }

  function Count(s: State, o: Obj): nat {
    if o in s.count then s.count[o] else 0
  }

  function SetSlot(s: State, fd: int, x: Slot): State
    requires IsFd(s, fd)
  {
    s.(slots := s.slots[fd := x])
  }

  /** A reference of the table's, or a new one, becomes one outside the table. */
  function AddRef(s: State, o: Obj): State {
    s.(refs := s.refs[s.nextRef := o], nextRef := s.nextRef + 1)
  }

  function UpRef(s: State, o: Obj): State {
    s.(count := s.count[o := Count(s, o) + 1])
  }

  /** RefPtr's destructor: whoever brings the count to zero owns the object. */
  function DropRef(s: State, r: RefId): State
    requires r in s.refs
  {
    var o := s.refs[r];
    var n := if Count(s, o) > 0 then Count(s, o) - 1 else 0;
    s.(refs := s.refs - {r}, count := s.count[o := n], owners := if n == 0 then s.owners[o := false] else s.owners)
  }

  /** GetLastReference: with a count of one, the reference turns into ownership. */
  function TakeLastRef(s: State, r: RefId): State
    requires r in s.refs
  {
    var o := s.refs[r];
    if Count(s, o) == 1 then s.(refs := s.refs - {r}, owners := s.owners[o := false]) else s
  }

  function GetRef(s: State, fd: int): State
    requires IsFd(s, fd)
  {
    if s.slots[fd].Holds? then AddRef(UpRef(s, s.slots[fd].obj), s.slots[fd].obj) else s
  }

  function ReleaseSlot(s: State, fd: int): State
    requires IsFd(s, fd)
  {
    if s.slots[fd].Holds? then AddRef(SetSlot(s, fd, Available), s.slots[fd].obj) else s
  }

  function PutInto(s: State, fd: int, r: RefId, when: Slot): State
    requires IsFd(s, fd) && r in s.refs
  {
    if s.slots[fd] == when then SetSlot(UpRef(s, s.refs[r]), fd, Holds(s.refs[r])) else s
  }

  function ReplaceSlot(s: State, fd: int, r: RefId): State
    requires IsFd(s, fd) && r in s.refs
  {
    var s' := SetSlot(UpRef(s, s.refs[r]), fd, Holds(s.refs[r]));
    if s.slots[fd].Holds? then AddRef(s', s.slots[fd].obj) else s'
  }

  /** The owner calls close. */
  function CloseObject(s: State, o: Obj): State {
    var before := if o in s.closes then s.closes[o] else 0;
    s.(owners := s.owners[o := true], closes := s.closes[o := before + 1])
  }

  function DeleteObject(s: State, o: Obj): State {
    s.(owners := s.owners - {o}, count := s.count - {o})
  }

  function Next(s: State, t: Step): State
    requires Enabled(s, t)
  {
    match t
    case Create(o) => AddRef(s.(count := s.count[o := 1], closes := s.closes[o := 0]), o)
    case Get(fd) => GetRef(s, fd)
    case Release(fd) => ReleaseSlot(s, fd)
    case TrySet(fd, r) => PutInto(s, fd, r, Available)
    case Replace(fd, r) => ReplaceSlot(s, fd, r)
    case TryReserve(fd) => if s.slots[fd] == Available then SetSlot(s, fd, Reserved) else s
    case TryFill(fd, r) => PutInto(s, fd, r, Reserved)
    case ReleaseReservation(fd) => if s.slots[fd] == Reserved then SetSlot(s, fd, Available) else s
    case Drop(r) => DropRef(s, r)
    case TakeLast(r) => TakeLastRef(s, r)
    case Export(o) => AddRef(s.(owners := s.owners - {o}), o)
    case Close(o) => CloseObject(s, o)
    case Delete(o) => DeleteObject(s, o)
  }

  // ------------------------------------------------------------------- invariant

  /** Slots and references only lead to objects that exist and have no owner waiting to close them. */
  ghost predicate Alive(s: State, o: Obj) {
    o in s.count && o !in s.owners
  }

  ghost predicate NoDangling(s: State) {
    && (forall i :: 0 <= i < |s.slots| && s.slots[i].Holds? ==> Alive(s, s.slots[i].obj))
    && (forall r :: r in s.refs ==> Alive(s, s.refs[r]) && r < s.nextRef)
  }

  ghost predicate Counted(s: State) {
    forall o :: o in s.count && o !in s.owners ==> s.count[o] == Holders(s, o) && s.count[o] > 0
  }

  ghost predicate ClosedOnce(s: State) {
    && (forall o :: o in s.owners ==> o in s.count)
    && (forall o :: o in s.count ==> o in s.closes)
    && (forall o :: o in s.closes ==> s.closes[o] == One(o !in s.count || (o in s.owners && s.owners[o])))
  }

  ghost predicate Inv(s: State) {
    |s.slots| == MAX_FD && NoDangling(s) && Counted(s) && ClosedOnce(s)
  }

  lemma SlotChange(slots: seq<Slot>, fd: int, x: Slot, o: Obj)
    requires 0 <= fd < |slots|
    ensures |SlotsOf(slots[fd := x], o)| + One(slots[fd] == Holds(o)) == |SlotsOf(slots, o)| + One(x == Holds(o))
  {
    var before, after := SlotsOf(slots, o), SlotsOf(slots[fd := x], o);
    var rest := before - {fd};
    assert before == (if slots[fd] == Holds(o) then rest + {fd} else rest);
    assert after == (if x == Holds(o) then rest + {fd} else rest);
  }

  lemma RefAdded(refs: map<RefId, Obj>, r: RefId, p: Obj, o: Obj)
    requires r !in refs
    ensures |RefsOf(refs[r := p], o)| == |RefsOf(refs, o)| + One(p == o)
  {
    assert RefsOf(refs[r := p], o) == if p == o then RefsOf(refs, o) + {r} else RefsOf(refs, o);
  }

  lemma RefRemoved(refs: map<RefId, Obj>, r: RefId, o: Obj)
    requires r in refs
    ensures |RefsOf(refs, o)| == |RefsOf(refs - {r}, o)| + One(refs[r] == o)
  {
    var rest := RefsOf(refs - {r}, o);
    assert r !in rest && RefsOf(refs, o) == if refs[r] == o then rest + {r} else rest;
  }

  lemma NoneHeld(s: State, o: Obj)
    requires Inv(s) && o !in s.count
    ensures Holders(s, o) == 0
  {
    assert SlotsOf(s.slots, o) == {};
    assert RefsOf(s.refs, o) == {};
  }

  lemma HeldIsCounted(s: State, o: Obj)
    ensures Holders(s, o) > 0 <==>
              || (exists i :: 0 <= i < |s.slots| && s.slots[i] == Holds(o))
              || (exists r :: r in s.refs && s.refs[r] == o)
  {
    if i :| 0 <= i < |s.slots| && s.slots[i] == Holds(o) { assert i in SlotsOf(s.slots, o); }
    if r :| r in s.refs && s.refs[r] == o { assert r in RefsOf(s.refs, o); }
    if SlotsOf(s.slots, o) != {} { var i :| i in SlotsOf(s.slots, o); }
    if RefsOf(s.refs, o) != {} { var r :| r in RefsOf(s.refs, o); }
  }

  lemma CreateKeeps(s: State, o: Obj)
    requires Inv(s) && o !in s.closes
    ensures Inv(Next(s, Create(o)))
  {
    var s' := Next(s, Create(o));
    assert o !in s.count;
    NoneHeld(s, o);
    forall p { RefAdded(s.refs, s.nextRef, o, p); }
  }

  lemma GetKeeps(s: State, fd: int)
    requires Inv(s) && IsFd(s, fd)
    ensures Inv(GetRef(s, fd))
  {
    if s.slots[fd].Holds? {
      forall p { RefAdded(s.refs, s.nextRef, s.slots[fd].obj, p); }
    }
  }

  lemma ReleaseKeeps(s: State, fd: int)
    requires Inv(s) && IsFd(s, fd)
    ensures Inv(ReleaseSlot(s, fd))
  {
    if s.slots[fd].Holds? {
      forall p { RefAdded(s.refs, s.nextRef, s.slots[fd].obj, p); }
      forall p { SlotChange(s.slots, fd, Available, p); }
    }
  }

  lemma PutKeeps(s: State, fd: int, r: RefId, when: Slot)
    requires Inv(s) && IsFd(s, fd) && r in s.refs && !when.Holds?
    ensures Inv(PutInto(s, fd, r, when))
  {
    forall p { SlotChange(s.slots, fd, Holds(s.refs[r]), p); }
  }

  /** replace is a release followed by filling whatever is left there. */
  lemma ReplaceIs(s: State, fd: int, r: RefId)
    requires IsFd(s, fd) && r in s.refs && s.nextRef !in s.refs
    ensures var t := ReleaseSlot(s, fd); ReplaceSlot(s, fd, r) == PutInto(t, fd, r, t.slots[fd])
  {
    var t := ReleaseSlot(s, fd);
    assert ReplaceSlot(s, fd, r).slots == PutInto(t, fd, r, t.slots[fd]).slots;
  }

  lemma ReplaceKeeps(s: State, fd: int, r: RefId)
    requires Inv(s) && IsFd(s, fd) && r in s.refs
    ensures Inv(ReplaceSlot(s, fd, r))
  {
    ReplaceIs(s, fd, r);
    ReleaseKeeps(s, fd);
    PutKeeps(ReleaseSlot(s, fd), fd, r, ReleaseSlot(s, fd).slots[fd]);
  }

  lemma ReservationKeeps(s: State, fd: int, x: Slot)
    requires Inv(s) && IsFd(s, fd) && !s.slots[fd].Holds? && !x.Holds?
    ensures Inv(SetSlot(s, fd, x))
  {
    forall p { SlotChange(s.slots, fd, x, p); }
  }

  /** The last reference is gone: no slot and no other reference leads to the object. */
  lemma LastRef(s: State, r: RefId)
    requires Inv(s) && r in s.refs && Holders(s, s.refs[r]) == 1
    ensures forall i :: 0 <= i < |s.slots| ==> s.slots[i] != Holds(s.refs[r])
    ensures forall q :: q in s.refs && q != r ==> s.refs[q] != s.refs[r]
  {
    var o := s.refs[r];
    assert r in RefsOf(s.refs, o);
    assert SlotsOf(s.slots, o) == {};
    assert forall i :: 0 <= i < |s.slots| && s.slots[i] == Holds(o) ==> i in SlotsOf(s.slots, o);
    RefRemoved(s.refs, r, o);
    assert RefsOf(s.refs - {r}, o) == {};
    assert forall q :: q in s.refs && q != r && s.refs[q] == o ==> q in RefsOf(s.refs - {r}, o);
  }

  lemma DropKeeps(s: State, r: RefId)
    requires Inv(s) && r in s.refs
    ensures Inv(DropRef(s, r))
  {
    if s.count[s.refs[r]] == 1 { LastRef(s, r); }
    forall p { RefRemoved(s.refs, r, p); }
  }

  lemma TakeLastKeeps(s: State, r: RefId)
    requires Inv(s) && r in s.refs
    ensures Inv(TakeLastRef(s, r))
  {
    if s.count[s.refs[r]] == 1 { LastRef(s, r); }
    forall p { RefRemoved(s.refs, r, p); }
  }

  lemma ExportKeeps(s: State, o: Obj)
    requires Inv(s) && Enabled(s, Export(o))
    ensures Inv(Next(s, Export(o)))
  {
    assert SlotsOf(s.slots, o) == {};
    assert RefsOf(s.refs, o) == {};
    forall p { RefAdded(s.refs, s.nextRef, o, p); }
  }

  lemma CloseKeeps(s: State, o: Obj)
    requires Inv(s) && Enabled(s, Close(o))
    ensures Inv(Next(s, Close(o)))
  {
    assert forall p :: Holders(Next(s, Close(o)), p) == Holders(s, p);
  }

  lemma DeleteKeeps(s: State, o: Obj)
    requires Inv(s) && Enabled(s, Delete(o))
    ensures Inv(Next(s, Delete(o)))
  {
    assert forall p :: Holders(Next(s, Delete(o)), p) == Holders(s, p);
  }

  lemma StepKeeps(s: State, t: Step)
    requires Inv(s) && Enabled(s, t)
    ensures Inv(Next(s, t))
  {
    match t {
      case Create(o) => CreateKeeps(s, o);
      case Get(fd) => GetKeeps(s, fd);
      case Release(fd) => ReleaseKeeps(s, fd);
      case TrySet(fd, r) => PutKeeps(s, fd, r, Available);
      case Replace(fd, r) => ReplaceKeeps(s, fd, r);
      case TryReserve(fd) => if s.slots[fd] == Available { ReservationKeeps(s, fd, Reserved); }
      case TryFill(fd, r) => PutKeeps(s, fd, r, Reserved);
      case ReleaseReservation(fd) => if s.slots[fd] == Reserved { ReservationKeeps(s, fd, Available); }
      case Drop(r) => DropKeeps(s, r);
      case TakeLast(r) => TakeLastKeeps(s, r);
      case Export(o) => ExportKeeps(s, o);
      case Close(o) => CloseKeeps(s, o);
      case Delete(o) => DeleteKeeps(s, o);
    }
  }

  // -------------------------------------------------------------------- all runs

  ghost predicate Legal(s: State, steps: seq<Step>)
    decreases |steps|
  {
    steps == [] || (Enabled(s, steps[0]) && Legal(Next(s, steps[0]), steps[1..]))
  }

  ghost function Exec(s: State, steps: seq<Step>): State
    requires Legal(s, steps)
    decreases |steps|
  {
    if steps == [] then s else Exec(Next(s, steps[0]), steps[1..])
  }

  lemma {:induction false} ExecKeeps(s: State, steps: seq<Step>)
    requires Inv(s) && Legal(s, steps)
    ensures Inv(Exec(s, steps))
    decreases |steps|
  {
    if steps != [] {
      StepKeeps(s, steps[0]);
      ExecKeeps(Next(s, steps[0]), steps[1..]);
    }
  }

  ghost predicate Reachable(s: State) {
    exists steps :: Legal(Init(), steps) && Exec(Init(), steps) == s
  }

  lemma ReachableInv(s: State)
    requires Reachable(s)
    ensures Inv(s)
  {
    var steps :| Legal(Init(), steps) && Exec(Init(), steps) == s;
    ExecKeeps(Init(), steps);
  }

  ghost predicate Held(s: State, o: Obj) {
    || (exists i :: 0 <= i < |s.slots| && s.slots[i] == Holds(o))
    || (exists r :: r in s.refs && s.refs[r] == o)
  }

  /** In every run: an object that is held has exactly as many references as holders and was not
      closed; an object that exists but is not held is being closed by its one owner; an object
      that no longer exists was closed exactly once. */
  lemma ObjectLifetime(s: State, o: Obj)
    requires Reachable(s) && o in s.closes
    ensures s.closes[o] <= 1
    ensures Held(s, o) ==> o in s.count && s.count[o] == Holders(s, o) && o !in s.owners && s.closes[o] == 0
    ensures o in s.count && !Held(s, o) ==> o in s.owners && s.closes[o] == One(s.owners[o])
    ensures o !in s.count ==> !Held(s, o) && s.closes[o] == 1
  {
    ReachableInv(s);
    HeldIsCounted(s, o);
  }

  /** close is called at most once over a whole run: once closed, always closed. */
  lemma {:induction false} ClosedStaysClosed(s: State, steps: seq<Step>, o: Obj)
    requires Inv(s) && Legal(s, steps) && o in s.closes && s.closes[o] == 1
    ensures o in Exec(s, steps).closes && Exec(s, steps).closes[o] == 1 && !Held(Exec(s, steps), o)
    decreases |steps|
  {
    if steps == [] {
      HeldIsCounted(s, o);
    } else {
      StepKeeps(s, steps[0]);
      ClosedStaysClosed(Next(s, steps[0]), steps[1..], o);
    }
  }

  /** Reserving, filling and releasing a reservation never take an object out of a slot. */
  lemma ReservationsDisplaceNothing(s: State, t: Step, fd: int)
    requires Enabled(s, t) && IsFd(s, fd) && s.slots[fd].Holds?
    requires t.TryReserve? || t.TryFill? || t.ReleaseReservation? || t.TrySet?
    ensures Next(s, t).slots[fd] == s.slots[fd]
  {
  }

  // --------------------------------------------- what the functions do, undisturbed

  /** Closed, Unwrapped and Cloned carry what the object's own close, unwrap or clone answered. */
  datatype Outcome =
    | Fd(fd: int) | Success | EBADF | EINVAL | EMFILE | INVALID_ARGS | UNAVAILABLE
    | Closed(status: int) | Unwrapped(status: int) | Cloned(status: int)

  predicate Bound(s: State, fd: int) {
    IsFd(s, fd) && s.slots[fd].Holds?
  }

  /** The lowest available descriptor from start on, or the size of the table if there is none. */
  function LowestFrom(slots: seq<Slot>, start: nat): (n: nat)
    ensures n <= |slots| && forall i :: start <= i < n ==> slots[i] != Available
    ensures n < |slots| ==> start <= n && slots[n] == Available
    decreases |slots| - start
  {
    if start >= |slots| then |slots|
    else if slots[start] == Available then start
    else LowestFrom(slots, start + 1)
  }

  /** One holder fewer; without the last one the object is closed and gone. */
  function Lose(s: State, o: Obj): State {
    if Count(s, o) <= 1 then s.(count := s.count - {o}, closes := s.closes[o := 1])
    else s.(count := s.count[o := s.count[o] - 1])
  }

  function LoseRef(s: State, r: RefId): State
    requires r in s.refs
  {
    Lose(s.(refs := s.refs - {r}), s.refs[r])
  }

  function Emptied(s: State, fd: int): State
    requires Bound(s, fd)
  {
    Lose(SetSlot(s, fd, Available), s.slots[fd].obj)
  }

  /** The descriptor leads to o now, and what it led to before has one holder fewer. */
  function Redirected(s: State, fd: int, o: Obj): State
    requires IsFd(s, fd)
  {
    var s' := SetSlot(UpRef(s, o), fd, Holds(o));
    if s.slots[fd].Holds? then Lose(s', s.slots[fd].obj) else s'
  }

  function DupFrom(s: State, fd: int, start: int): (State, Outcome) {
    if start < 0 then (s, EINVAL)
    else if !Bound(s, fd) then (s, EBADF)
    else
      var n := LowestFrom(s.slots, start);
      if n < |s.slots| then (SetSlot(UpRef(s, s.slots[fd].obj), n, s.slots[fd]), Fd(n)) else (s, EMFILE)
  }

  function Dup2(s: State, fd: int, target: int): (State, Outcome) {
    if !IsFd(s, target) || !Bound(s, fd) then (s, EBADF)
    else (Redirected(s, target, s.slots[fd].obj), Fd(target))
  }

  /** close; its result is that of the object only if this was the last holder. */
  function CloseFd(s: State, fd: int, close: int): (State, Outcome) {
    if !Bound(s, fd) then (s, EBADF)
    else (Emptied(s, fd), if Count(s, s.slots[fd].obj) == 1 then Closed(close) else Success)
  }

  /** fdio_bind_to_fd consumes the reference, also when it fails. */
  function BindToFd(s: State, r: RefId, fd: int, start: int): (State, Outcome)
    requires r in s.refs
  {
    if (fd < 0 && start < 0) || fd >= |s.slots| then (LoseRef(s, r), EINVAL)
    else if fd >= 0 then (LoseRef(Redirected(s, fd, s.refs[r]), r), Fd(fd))
    else
      var n := LowestFrom(s.slots, start);
      if n < |s.slots| then (LoseRef(SetSlot(UpRef(s, s.refs[r]), n, Holds(s.refs[r])), r), Fd(n))
      else (LoseRef(s, r), EMFILE)
  }

  /** fdio_unbind_from_fd: only the sole holder is handed out; otherwise the descriptor is lost. */
  function UnbindFromFd(s: State, fd: int): (State, Outcome) {
    if !Bound(s, fd) then (s, INVALID_ARGS)
    else if Count(s, s.slots[fd].obj) == 1 then (ReleaseSlot(s, fd), Success)
    else (Emptied(s, fd), UNAVAILABLE)
  }

  /** fdio_fd_transfer without clone, and fdio_fd_transfer_or_clone with it. */
  function Transfer(s: State, fd: int, unwrap: int, clone: Option<int>): (State, Outcome) {
    if !Bound(s, fd) then (s, INVALID_ARGS)
    else
      (Emptied(s, fd),
       if Count(s, s.slots[fd].obj) == 1 then Unwrapped(unwrap)
       else if clone.Some? then Cloned(clone.value)
       else UNAVAILABLE)
  }

  /** An object that is held: it has a count, and no one closed it or is about to. */
  ghost predicate Usable(s: State, o: Obj) {
    o in s.count && s.count[o] > 0 && o !in s.owners && o in s.closes && s.closes[o] == 0
  }

  ghost predicate FreshRefs(s: State) {
    s.nextRef !in s.refs && s.nextRef + 1 !in s.refs
  }

  lemma SlotUsable(s: State, fd: int)
    requires Inv(s) && Bound(s, fd)
    ensures Usable(s, s.slots[fd].obj) && FreshRefs(s)
  {
    assert Alive(s, s.slots[fd].obj);
  }

  lemma RefUsable(s: State, r: RefId)
    requires Inv(s) && r in s.refs
    ensures Usable(s, s.refs[r]) && FreshRefs(s)
  {
    assert Alive(s, s.refs[r]);
  }

  // ------------------------------------------------------------ laws of descriptors

  ghost predicate Same(s: State, t: State) {
    s.(nextRef := 0) == t.(nextRef := 0)
  }

  /** close closes the object, and reports what the object says to it, exactly when this
      descriptor was its only holder; EBADF exactly if it leads nowhere. */
  lemma CloseClosesLast(s: State, fd: int, close: int)
    requires Inv(s)
    ensures !Bound(s, fd) ==> CloseFd(s, fd, close) == (s, EBADF)
    ensures Bound(s, fd) ==>
              CloseFd(s, fd, close).1 == if Holders(s, s.slots[fd].obj) == 1 then Closed(close) else Success
    ensures Bound(s, fd) ==>
            var (s', o) := (CloseFd(s, fd, close).0, s.slots[fd].obj);
            && s'.slots == s.slots[fd := Available] && s'.refs == s.refs && s'.owners == s.owners
            && (Holders(s, o) == 1 <==> s'.closes[o] == 1) && (o in s'.count <==> Holders(s, o) > 1)
            && (forall p :: p != o ==> Count(s', p) == Count(s, p))
            && (forall p :: p in s.closes && p != o ==> s'.closes[p] == s.closes[p])
  {
    if Bound(s, fd) { HeldIsCounted(s, s.slots[fd].obj); }
  }

  /** Closing a duplicate undoes the dup, wherever the duplicate landed. */
  lemma DupThenClose(s: State, fd: int, start: int, close: int)
    requires Inv(s) && DupFrom(s, fd, start).1.Fd?
    ensures var (s', out) := DupFrom(s, fd, start);
            CloseFd(s', out.fd, close) == (s, Success)
  {
    var (s', out) := DupFrom(s, fd, start);
    var o := s.slots[fd].obj;
    assert Alive(s, o) && s.count[o] > 0;
    assert s'.count[o := s'.count[o] - 1] == s.count;
    assert s'.slots[out.fd := Available] == s.slots;
  }

  /** dup2 onto the descriptor itself changes nothing. */
  lemma Dup2Self(s: State, fd: int)
    requires Inv(s) && Bound(s, fd)
    ensures Dup2(s, fd, fd) == (s, Fd(fd))
  {
    var o := s.slots[fd].obj;
    assert Alive(s, o) && s.count[o] > 0;
    var t := SetSlot(UpRef(s, o), fd, Holds(o));
    assert t.slots == s.slots;
    assert t.count[o := t.count[o] - 1] == s.count;
  }

  lemma RebindRestores(s: State, fd: int)
    requires Bound(s, fd) && Usable(s, s.slots[fd].obj) && FreshRefs(s) && s.count[s.slots[fd].obj] == 1
    ensures Same(LoseRef(Redirected(ReleaseSlot(s, fd), fd, s.slots[fd].obj), s.nextRef), s)
  {
    var o, r := s.slots[fd].obj, s.nextRef;
    assert s.refs[r := o] - {r} == s.refs;
    assert s.slots[fd := Available][fd := Holds(o)] == s.slots;
    assert s.count[o := 2][o := 1] == s.count;
  }

  /** Handing out a sole holder and binding it back to the same descriptor restores the table. */
  lemma UnbindThenBind(s: State, fd: int, start: int)
    requires Inv(s) && UnbindFromFd(s, fd).1 == Success
    ensures BindToFd(UnbindFromFd(s, fd).0, s.nextRef, fd, start).1 == Fd(fd)
    ensures Same(BindToFd(UnbindFromFd(s, fd).0, s.nextRef, fd, start).0, s)
  {
    SlotUsable(s, fd);
    RebindRestores(s, fd);
  }

  /** A descriptor taken over by dup2 while it was reserved stays with its object: the holder of
      the reservation can neither fill nor release it. */
  lemma Dup2BreaksReservation(s: State, fd: int, target: int, r: RefId)
    requires Inv(s) && Bound(s, fd) && IsFd(s, target) && s.slots[target] == Reserved && r in s.refs
    ensures var s' := Dup2(s, fd, target).0;
            && s'.slots[target] == s.slots[fd]
            && Next(s', TryFill(target, r)) == s' && Next(s', ReleaseReservation(target)) == s'
  {
  }

  // ------------------------------------------- where descriptors lead after each function

  /** Counts are holders, and an object without a holder was closed; objects that somebody is
      about to close are left out. */
  ghost predicate Balanced(s: State) {
    forall o :: o in s.closes && o !in s.owners ==>
      Count(s, o) == Holders(s, o) && s.closes[o] == One(Holders(s, o) == 0)
  }

  /** o has lost a holder that is still counted. */
  ghost predicate Overcounted(s: State, o: Obj) {
    && o in s.closes && o !in s.owners && s.closes[o] == 0 && Count(s, o) == Holders(s, o) + 1
    && forall p :: p in s.closes && p !in s.owners && p != o ==>
         Count(s, p) == Holders(s, p) && s.closes[p] == One(Holders(s, p) == 0)
  }

  /** s' has these slots and outside references, and everything else follows from them: who is
      counted how often, and that what lost its last holder was closed. */
  ghost predicate Amounts(s: State, s': State, slots: seq<Slot>, refs: map<RefId, Obj>) {
    && s'.slots == slots && s'.refs == refs && s'.owners == s.owners && s'.closes.Keys == s.closes.Keys
    && Balanced(s') && forall o :: o in s.owners && o in s.closes ==>
         Count(s', o) == Count(s, o) && s'.closes[o] == s.closes[o]
  }

  lemma InvBalanced(s: State)
    requires Inv(s)
    ensures Balanced(s)
  {
    forall o | o in s.closes && o !in s.owners
      ensures Count(s, o) == Holders(s, o) && s.closes[o] == One(Holders(s, o) == 0)
    {
      if o !in s.count { NoneHeld(s, o); }
    }
  }

  lemma LoseBalances(s: State, o: Obj)
    requires Overcounted(s, o)
    ensures Amounts(s, Lose(s, o), s.slots, s.refs)
  {
    var s' := Lose(s, o);
    assert forall p :: Holders(s', p) == Holders(s, p);
  }

  lemma SlotLost(s: State, fd: int, x: Slot)
    requires Balanced(s) && Bound(s, fd) && Usable(s, s.slots[fd].obj) && !x.Holds?
    ensures Overcounted(SetSlot(s, fd, x), s.slots[fd].obj)
  {
    forall p { SlotChange(s.slots, fd, x, p); }
  }

  lemma EmptiedAmounts(s: State, fd: int)
    requires Balanced(s) && Bound(s, fd) && Usable(s, s.slots[fd].obj)
    ensures Amounts(s, Emptied(s, fd), s.slots[fd := Available], s.refs)
  {
    SlotLost(s, fd, Available);
    LoseBalances(SetSlot(s, fd, Available), s.slots[fd].obj);
  }

  lemma FilledAmounts(s: State, n: int, o: Obj)
    requires Balanced(s) && IsFd(s, n) && !s.slots[n].Holds? && Usable(s, o)
    ensures Amounts(s, SetSlot(UpRef(s, o), n, Holds(o)), s.slots[n := Holds(o)], s.refs)
  {
    var s' := SetSlot(UpRef(s, o), n, Holds(o));
    forall p { SlotChange(s.slots, n, Holds(o), p); }
    forall p | p in s'.closes && p !in s'.owners
      ensures Count(s', p) == Holders(s', p) && s'.closes[p] == One(Holders(s', p) == 0)
    {
      assert Count(s, p) == Holders(s, p);
    }
  }

  lemma SlotSwapped(s: State, n: int, o: Obj)
    requires Balanced(s) && Bound(s, n) && Usable(s, s.slots[n].obj) && Usable(s, o)
    ensures Overcounted(SetSlot(UpRef(s, o), n, Holds(o)), s.slots[n].obj)
  {
    var s' := SetSlot(UpRef(s, o), n, Holds(o));
    forall p { SlotChange(s.slots, n, Holds(o), p); }
    forall p | p in s'.closes && p !in s'.owners
      ensures Count(s', p) == Holders(s', p) + One(p == s.slots[n].obj)
    {
      assert Count(s, p) == Holders(s, p);
    }
  }

  lemma RedirectedAmounts(s: State, n: int, o: Obj)
    requires Balanced(s) && IsFd(s, n) && Usable(s, o) && (s.slots[n].Holds? ==> Usable(s, s.slots[n].obj))
    ensures Amounts(s, Redirected(s, n, o), s.slots[n := Holds(o)], s.refs)
  {
    if s.slots[n].Holds? {
      SlotSwapped(s, n, o);
      LoseBalances(SetSlot(UpRef(s, o), n, Holds(o)), s.slots[n].obj);
    } else {
      FilledAmounts(s, n, o);
    }
  }

  lemma LoseRefAmounts(s: State, r: RefId)
    requires Balanced(s) && r in s.refs && Usable(s, s.refs[r])
    ensures Amounts(s, LoseRef(s, r), s.slots, s.refs - {r})
  {
    forall p { RefRemoved(s.refs, r, p); }
    LoseBalances(s.(refs := s.refs - {r}), s.refs[r]);
  }

  /** dup and F_DUPFD: each error exactly when, and otherwise the lowest available descriptor from
      start on leads to the same object, and nothing else changed. */
  lemma DupLaw(s: State, fd: int, start: int)
    requires Inv(s)
    ensures var (s', out) := DupFrom(s, fd, start);
            && (out == EINVAL <==> start < 0)
            && (out == EBADF <==> start >= 0 && !Bound(s, fd))
            && (out == EMFILE <==> start >= 0 && Bound(s, fd) && NoneFrom(s, start))
            && (out.Fd? <==> start >= 0 && Bound(s, fd) && !NoneFrom(s, start))
            && (out.Fd? ==> IsLowest(s, start, out.fd) && Amounts(s, s', s.slots[out.fd := s.slots[fd]], s.refs))
            && (!out.Fd? ==> s' == s)
  {
    InvBalanced(s);
    if start >= 0 && Bound(s, fd) {
      SlotUsable(s, fd);
      var n := LowestFrom(s.slots, start);
      if n < |s.slots| { FilledAmounts(s, n, s.slots[fd].obj); }
    }
  }

  ghost predicate NoneFrom(s: State, start: int) {
    forall i :: 0 <= i < |s.slots| && start <= i ==> s.slots[i] != Available
  }

  ghost predicate IsLowest(s: State, start: int, n: int) {
    && 0 <= n < |s.slots| && start <= n && s.slots[n] == Available
    && forall i :: 0 <= i < n && start <= i ==> s.slots[i] != Available
  }

  /** dup2: the target leads to the object of fd, and what it led to has one holder fewer. */
  lemma Dup2Law(s: State, fd: int, target: int)
    requires Inv(s)
    ensures var (s', out) := Dup2(s, fd, target);
            if Bound(s, fd) && IsFd(s, target) then
              out == Fd(target) && Amounts(s, s', s.slots[target := s.slots[fd]], s.refs)
            else out == EBADF && s' == s
  {
    InvBalanced(s);
    if Bound(s, fd) && IsFd(s, target) {
      SlotUsable(s, fd);
      if s.slots[target].Holds? { SlotUsable(s, target); }
      RedirectedAmounts(s, target, s.slots[fd].obj);
    }
  }

  lemma FilledThenLost(s: State, r: RefId, n: int)
    requires Balanced(s) && r in s.refs && Usable(s, s.refs[r]) && IsFd(s, n)
    requires s.slots[n].Holds? ==> Usable(s, s.slots[n].obj)
    ensures Amounts(s, LoseRef(Redirected(s, n, s.refs[r]), r), s.slots[n := Holds(s.refs[r])], s.refs - {r})
  {
    var o := s.refs[r];
    RedirectedAmounts(s, n, o);
    var s1 := Redirected(s, n, o);
    assert n in SlotsOf(s1.slots, o);
    LoseRefAmounts(s1, r);
  }

  /** fdio_bind_to_fd: the reference is gone in every case.  EINVAL exactly for a descriptor out of
      range or without a place to start; with a descriptor it leads to the object; without one the
      lowest available descriptor from start on does, and EMFILE exactly if there is none. */
  lemma BindLaw(s: State, r: RefId, fd: int, start: int)
    requires Inv(s) && r in s.refs
    ensures var (s', out) := BindToFd(s, r, fd, start);
            && (out == EINVAL <==> (fd < 0 && start < 0) || fd >= |s.slots|)
            && (out == EMFILE <==> fd < 0 <= start && NoneFrom(s, start))
            && (out == EINVAL || out == EMFILE || out.Fd?)
            && (out.Fd? && fd >= 0 ==> out.fd == fd)
            && (out.Fd? && fd < 0 ==> start >= 0 && IsLowest(s, start, out.fd))
            && (out.Fd? ==> IsFd(s, out.fd) && Amounts(s, s', s.slots[out.fd := Holds(s.refs[r])], s.refs - {r}))
            && (!out.Fd? ==> Amounts(s, s', s.slots, s.refs - {r}))
  {
    InvBalanced(s);
    RefUsable(s, r);
    var out := BindToFd(s, r, fd, start).1;
    if out.Fd? {
      if s.slots[out.fd].Holds? { SlotUsable(s, out.fd); }
      FilledThenLost(s, r, out.fd);
    } else {
      LoseRefAmounts(s, r);
    }
  }

  /** fdio_unbind_from_fd: a sole holder is handed out as a new reference; otherwise the descriptor is
      lost and the others keep the object. */
  lemma UnbindLaw(s: State, fd: int)
    requires Inv(s)
    ensures var (s', out) := UnbindFromFd(s, fd);
            if !Bound(s, fd) then out == INVALID_ARGS && s' == s
            else if Holders(s, s.slots[fd].obj) == 1 then
              out == Success
              && Amounts(s, s', s.slots[fd := Available], s.refs[s.nextRef := s.slots[fd].obj]) && s'.closes == s.closes
            else
              out == UNAVAILABLE && Amounts(s, s', s.slots[fd := Available], s.refs) && s'.closes == s.closes
  {
    InvBalanced(s);
    if Bound(s, fd) {
      SlotUsable(s, fd);
      EmptiedAmounts(s, fd);
      ReleaseKeeps(s, fd);
      InvBalanced(ReleaseSlot(s, fd));
    }
  }

  /** fdio_fd_transfer and fdio_fd_transfer_or_clone: the descriptor is lost in every case; a sole
      holder is unwrapped, a shared object cloned or refused. */
  lemma TransferLaw(s: State, fd: int, unwrap: int, clone: Option<int>)
    requires Inv(s)
    ensures var (s', out) := Transfer(s, fd, unwrap, clone);
            if !Bound(s, fd) then out == INVALID_ARGS && s' == s
            else
              && Amounts(s, s', s.slots[fd := Available], s.refs)
              && out == if Holders(s, s.slots[fd].obj) == 1 then Unwrapped(unwrap)
                        else match clone {
                          case Some(status) => Cloned(status)
                          case None => UNAVAILABLE
                        }
  {
    InvBalanced(s);
    if Bound(s, fd) {
      SlotUsable(s, fd);
      EmptiedAmounts(s, fd);
    }
  }

  // --------------------------------------- the functions as runs of the steps above

  /** Dropping a reference ends with the object closed and deleted if it was the last one. */
  lemma DropSteps(s: State, r: RefId)
    requires r in s.refs && Usable(s, s.refs[r])
    ensures var (s1, o) := (DropRef(s, r), s.refs[r]);
            if s.count[o] == 1 then
              Enabled(s1, Close(o)) && Enabled(CloseObject(s1, o), Delete(o))
              && DeleteObject(CloseObject(s1, o), o) == LoseRef(s, r)
            else s1 == LoseRef(s, r)
  {
    var o := s.refs[r];
    assert s.owners[o := false][o := true] - {o} == s.owners;
    assert s.count[o := 0] - {o} == s.count - {o};
  }

  /** So does asking for the last reference first. */
  lemma TakeLastSteps(s: State, r: RefId)
    requires r in s.refs && Usable(s, s.refs[r])
    ensures var (s1, o) := (TakeLastRef(s, r), s.refs[r]);
            if s.count[o] == 1 then
              Enabled(s1, Close(o)) && Enabled(CloseObject(s1, o), Delete(o))
              && DeleteObject(CloseObject(s1, o), o) == LoseRef(s, r)
            else s1 == s
  {
    var o := s.refs[r];
    assert s.owners[o := false][o := true] - {o} == s.owners;
  }

  lemma CloseSteps(s: State, fd: int)
    requires Bound(s, fd) && Usable(s, s.slots[fd].obj) && FreshRefs(s)
    ensures LoseRef(ReleaseSlot(s, fd), s.nextRef) == Emptied(s, fd).(nextRef := s.nextRef + 1)
  {
    assert s.refs[s.nextRef := s.slots[fd].obj] - {s.nextRef} == s.refs;
  }

  lemma DupSteps(s: State, fd: int, start: nat)
    requires Bound(s, fd) && Usable(s, s.slots[fd].obj) && FreshRefs(s)
    ensures var (s1, n, r) := (GetRef(s, fd), LowestFrom(s.slots, start), s.nextRef);
            var s2 := if n < |s.slots| then PutInto(s1, n, r, Available) else s1;
            LoseRef(s2, r) == DupFrom(s, fd, start).0.(nextRef := r + 1)
  {
    var o, r := s.slots[fd].obj, s.nextRef;
    assert s.refs[r := o] - {r} == s.refs;
    var c := s.count[o];
    assert s.count[o := c + 1][o := c] == s.count;
    assert s.count[o := c + 1][o := c + 2][o := c + 1] == s.count[o := c + 1];
  }

  /** The reference that replace returned, if any, is dropped after the one that was passed. */
  function ReplacedAndDropped(s: State, target: int, r: RefId): State
    requires IsFd(s, target) && r in s.refs
  {
    var s' := LoseRef(ReplaceSlot(s, target, r), r);
    if s.slots[target].Holds? && s.nextRef in s'.refs then LoseRef(s', s.nextRef) else s'
  }

  lemma ReplacedRefs(s: State, target: int, r: RefId)
    requires IsFd(s, target) && r in s.refs && s.nextRef !in s.refs
    ensures r in ReplaceSlot(s, target, r).refs
    ensures s.slots[target].Holds? ==> s.nextRef in LoseRef(ReplaceSlot(s, target, r), r).refs
  {
  }

  /** Get, replace and drop move one reference into the slot and what was there out of it. */
  lemma GetReplaceDrop(s: State, fd: int, target: int)
    requires Bound(s, fd) && Usable(s, s.slots[fd].obj) && FreshRefs(s) && IsFd(s, target)
    ensures var (t, o, r) := (s.slots[target], s.slots[fd].obj, s.nextRef);
            LoseRef(ReplaceSlot(GetRef(s, fd), target, r), r) ==
            SetSlot(UpRef(s, o), target, Holds(o)).(refs := if t.Holds? then s.refs[r + 1 := t.obj] else s.refs,
                                                    nextRef := if t.Holds? then r + 2 else r + 1)
  {
    var o, r := s.slots[fd].obj, s.nextRef;
    var c := s.count[o];
    assert s.count[o := c + 1][o := c + 2][o := c + 1] == s.count[o := c + 1];
    if s.slots[target].Holds? {
      var p := s.slots[target].obj;
      assert s.refs[r := o][r + 1 := p] - {r} == s.refs[r + 1 := p];
      return;
    }
    assert s.refs[r := o] - {r} == s.refs;
  }

  lemma Dup2Steps(s: State, fd: int, target: int)
    requires Bound(s, fd) && Usable(s, s.slots[fd].obj) && FreshRefs(s) && IsFd(s, target)
    ensures var s' := ReplacedAndDropped(GetRef(s, fd), target, s.nextRef);
            s' == Redirected(s, target, s.slots[fd].obj).(nextRef := s'.nextRef)
  {
    GetReplaceDrop(s, fd, target);
    if s.slots[target].Holds? {
      assert s.refs[s.nextRef + 1 := s.slots[target].obj] - {s.nextRef + 1} == s.refs;
    }
  }

  /** fdio_bind_to_fd drops what replace returned before it drops its own reference. */
  lemma ReplaceLoses(s: State, fd: int, r: RefId)
    requires IsFd(s, fd) && r in s.refs && s.nextRef !in s.refs
    ensures r in ReplaceSlot(s, fd, r).refs && (s.slots[fd].Holds? ==> s.nextRef in ReplaceSlot(s, fd, r).refs)
    ensures var s1 := ReplaceSlot(s, fd, r);
            (if s.slots[fd].Holds? then LoseRef(s1, s.nextRef)
                else s1) == Redirected(s, fd, s.refs[r]).(nextRef := s1.nextRef)
  {
    if s.slots[fd].Holds? {
      assert s.refs[s.nextRef := s.slots[fd].obj] - {s.nextRef} == s.refs;
    }
  }

  // ------------------------------------------------------------------- the table

  class Table {
    const slots: array<Slot>
    var count: map<Obj, nat>
    var refs: map<RefId, Obj>
    var nextRef: RefId
    var owners: map<Obj, bool>
    ghost var closes: map<Obj, nat>

    ghost function View(): State
      reads this, slots
    {
      State(slots[..], count, refs, nextRef, owners, closes)
    }

    constructor ()
      ensures fresh(slots) && View() == Init() && Inv(View())
    {
      slots := new Slot[MAX_FD](i => Available);
      count, refs, nextRef, owners, closes := map[], map[], 0, map[], map[];
      new;
      assert slots[..] == Init().slots;
    }

    // The slot operations; each is one step.

    method AddReference(o: Obj) returns (r: RefId)
      modifies this
      ensures r == old(nextRef) && View() == AddRef(old(View()), o)
    {
      r := nextRef;
      refs := refs[r := o];
      nextRef := nextRef + 1;
    }

    method UpReference(o: Obj)
      modifies this
      ensures View() == UpRef(old(View()), o)
    {
      count := count[o := (if o in count then count[o] else 0) + 1];
    }

    method SlotGet(fd: int) returns (io: Option<RefId>)
      requires Inv(View()) && 0 <= fd < slots.Length
      modifies this
      ensures Inv(View()) && View() == GetRef(old(View()), fd)
      ensures io == if old(slots[fd]).Holds? then Some(old(nextRef)) else None
    {
      GetKeeps(View(), fd);
      if slots[fd].Holds? {
        UpReference(slots[fd].obj);
        var r := AddReference(slots[fd].obj);
        return Some(r);
      }
      return None;
    }

    method SlotRelease(fd: int) returns (io: Option<RefId>)
      requires Inv(View()) && 0 <= fd < slots.Length
      modifies this, slots
      ensures Inv(View()) && View() == ReleaseSlot(old(View()), fd)
      ensures io == if old(slots[fd]).Holds? then Some(old(nextRef)) else None
    {
      ReleaseKeeps(View(), fd);
      if slots[fd].Holds? {
        var r := AddReference(slots[fd].obj);
        slots[fd] := Available;
        return Some(r);
      }
      return None;
    }

    method SlotTrySet(fd: int, r: RefId) returns (ok: bool)
      requires Inv(View()) && 0 <= fd < slots.Length && r in refs
      modifies this, slots
      ensures Inv(View()) && View() == PutInto(old(View()), fd, r, Available) && ok == (old(slots[fd]) == Available)
    {
      PutKeeps(View(), fd, r, Available);
      if slots[fd] == Available {
        UpReference(refs[r]);
        slots[fd] := Holds(refs[r]);
        return true;
      }
      return false;
    }

    method SlotReplace(fd: int, r: RefId) returns (previous: Option<RefId>)
      requires Inv(View()) && 0 <= fd < slots.Length && r in refs
      modifies this, slots
      ensures Inv(View()) && View() == ReplaceSlot(old(View()), fd, r)
      ensures r in refs && (previous.Some? ==> previous.value in refs)
      ensures previous == if old(slots[fd]).Holds? then Some(old(nextRef)) else None
    {
      ReplaceKeeps(View(), fd, r);
      var was := slots[fd];
      UpReference(refs[r]);
      slots[fd] := Holds(refs[r]);
      if was.Holds? {
        var p := AddReference(was.obj);
        return Some(p);
      }
      return None;
    }

    method SlotTryReserve(fd: int) returns (ok: bool)
      requires Inv(View()) && 0 <= fd < slots.Length
      modifies slots
      ensures Inv(View()) && View() == Next(old(View()), TryReserve(fd)) && ok == (old(slots[fd]) == Available)
    {
      StepKeeps(View(), TryReserve(fd));
      if slots[fd] == Available {
        slots[fd] := Reserved;
        return true;
      }
      return false;
    }

    method SlotTryFill(fd: int, r: RefId) returns (ok: bool)
      requires Inv(View()) && 0 <= fd < slots.Length && r in refs
      modifies this, slots
      ensures Inv(View()) && View() == PutInto(old(View()), fd, r, Reserved) && ok == (old(slots[fd]) == Reserved)
    {
      PutKeeps(View(), fd, r, Reserved);
      if slots[fd] == Reserved {
        UpReference(refs[r]);
        slots[fd] := Holds(refs[r]);
        return true;
      }
      return false;
    }

    method SlotReleaseReservation(fd: int)
      requires Inv(View()) && 0 <= fd < slots.Length
      modifies slots
      ensures Inv(View()) && View() == Next(old(View()), ReleaseReservation(fd))
    {
      StepKeeps(View(), ReleaseReservation(fd));
      if slots[fd] == Reserved {
        slots[fd] := Available;
      }
    }

    // References outside the table.

    /** GetLastReference; true if the reference became ownership. */
    method TryTakeLast(r: RefId) returns (last: bool)
      requires Inv(View()) && r in refs
      modifies this
      ensures Inv(View()) && View() == TakeLastRef(old(View()), r) && last == (old(count[refs[r]]) == 1)
    {
      TakeLastKeeps(View(), r);
      var o := refs[r];
      if count[o] == 1 {
        refs := refs - {r};
        owners := owners[o := false];
        return true;
      }
      return false;
    }

    /** close and delete, by the owner. */
    method Finish(o: Obj)
      requires Inv(View()) && o in owners && !owners[o]
      modifies this
      ensures Inv(View()) && View() == DeleteObject(CloseObject(old(View()), o), o)
    {
      CloseKeeps(View(), o);
      DeleteKeeps(CloseObject(View(), o), o);
      CallClose(o);
      owners := owners - {o};
      count := count - {o};
      assert View() == DeleteObject(CloseObject(old(View()), o), o);
    }

    method CallClose(o: Obj)
      modifies this
      ensures View() == CloseObject(old(View()), o)
    {
      closes := closes[o := (if o in closes then closes[o] else 0) + 1];
      owners := owners[o := true];
    }

    method DownReference(r: RefId) returns (zero: bool)
      requires r in refs && Usable(View(), refs[r])
      modifies this
      ensures View() == DropRef(old(View()), r) && zero == (old(count[refs[r]]) == 1)
    {
      var o := refs[r];
      refs := refs - {r};
      count := count[o := count[o] - 1];
      zero := count[o] == 0;
      if zero {
        owners := owners[o := false];
      }
    }

    /** RefPtr's destructor. */
    method DropReference(r: RefId)
      requires Inv(View()) && r in refs
      modifies this
      ensures Inv(View()) && View() == LoseRef(old(View()), r)
    {
      RefUsable(View(), r);
      DropSteps(View(), r);
      DropKeeps(View(), r);
      var o := refs[r];
      var zero := DownReference(r);
      if zero {
        Finish(o);
      }
    }

    // The functions of the interface.

    method Bind(r: RefId, start: int) returns (fd: Option<int>)
      requires Inv(View()) && r in refs && 0 <= start
      modifies this, slots
      ensures Inv(View())
      ensures var n := LowestFrom(old(slots[..]), start);
              if n < slots.Length then fd == Some(n) && View() == PutInto(old(View()), n, r, Available)
              else fd == None && View() == old(View())
    {
      var i := start;
      ghost var s := View();
      while i < slots.Length
        invariant start <= i && View() == s && Inv(View())
        invariant LowestFrom(s.slots, start) == LowestFrom(s.slots, i)
      {
        assert s.slots[i] == slots[i];
        var ok := SlotTrySet(i, r);
        if ok {
          assert LowestFrom(s.slots, start) == i && View() == PutInto(s, i, r, Available);
          return Some(i);
        }
        assert View() == s;
        i := i + 1;
      }
      assert LowestFrom(s.slots, start) == |s.slots|;
      return None;
    }

    method FdToIo(fd: int) returns (io: Option<RefId>)
      requires Inv(View())
      modifies this
      ensures Inv(View()) && io == if Bound(old(View()), fd) then Some(old(nextRef)) else None
      ensures View() == if IsFd(old(View()), fd) then GetRef(old(View()), fd) else old(View())
    {
      if fd < 0 || fd >= slots.Length {
        return None;
      }
      io := SlotGet(fd);
    }

    method Unbind(fd: int) returns (io: Option<RefId>)
      requires Inv(View())
      modifies this, slots
      ensures Inv(View()) && io == if Bound(old(View()), fd) then Some(old(nextRef)) else None
      ensures View() == if IsFd(old(View()), fd) then ReleaseSlot(old(View()), fd) else old(View())
    {
      if fd < 0 || fd >= slots.Length {
        return None;
      }
      io := SlotRelease(fd);
    }

    method BindAndDrop(r: RefId, start: nat) returns (out: Outcome)
      requires Inv(View()) && r in refs
      modifies this, slots
      ensures Inv(View())
      ensures var (s, n) := (old(View()), LowestFrom(old(slots[..]), start));
              && View() == LoseRef(if n < |s.slots| then PutInto(s, n, r, Available) else s, r)
              && out == if n < |s.slots| then Fd(n) else EMFILE
    {
      var found := Bind(r, start);
      DropReference(r);
      return if found.Some? then Fd(found.value) else EMFILE;
    }

    method ReplaceAndDrop(r: RefId, target: int)
      requires Inv(View()) && r in refs && 0 <= target < slots.Length
      modifies this, slots
      ensures Inv(View())
      ensures View() == ReplacedAndDropped(old(View()), target, r)
    {
      RefUsable(View(), r);
      ReplacedRefs(View(), target, r);
      ghost var s := View();
      var previous := SlotReplace(target, r);
      ghost var s0 := View();
      assert s0 == ReplaceSlot(s, target, r);
      DropReference(r);
      ghost var s1 := LoseRef(s0, r);
      if previous.None? {
        return;
      }
      assert previous.value == s.nextRef && s.nextRef in s1.refs;
      DropReference(previous.value);
      assert View() == LoseRef(s1, s.nextRef);
    }

    /** dup, with a start of zero, and F_DUPFD. */
    method Duplicate(fd: int, start: int) returns (out: Outcome)
      requires Inv(View())
      modifies this, slots
      ensures Inv(View())
      ensures View() == DupFrom(old(View()), fd, start).0.(nextRef := nextRef)
                && out == DupFrom(old(View()), fd, start).1
    {
      if start < 0 {
        return EINVAL;
      }
      var io := FdToIo(fd);
      if io.None? {
        return EBADF;
      }
      SlotUsable(old(View()), fd);
      DupSteps(old(View()), fd, start);
      out := BindAndDrop(io.value, start);
    }

    method DuplicateTo(fd: int, target: int) returns (out: Outcome)
      requires Inv(View())
      modifies this, slots
      ensures Inv(View())
      ensures View() == Dup2(old(View()), fd, target).0.(nextRef := nextRef) && out == Dup2(old(View()), fd, target).1
    {
      if target < 0 || target >= slots.Length {
        return EBADF;
      }
      var io := FdToIo(fd);
      if io.None? {
        return EBADF;
      }
      SlotUsable(old(View()), fd);
      Dup2Steps(old(View()), fd, target);
      ReplaceAndDrop(io.value, target);
      return Fd(target);
    }

    /** close; status is what the object's own close answers. */
    method CloseDescriptor(fd: int, status: int) returns (out: Outcome)
      requires Inv(View())
      modifies this, slots
      ensures Inv(View())
      ensures View() == CloseFd(old(View()), fd, status).0.(nextRef := nextRef)
      ensures out == CloseFd(old(View()), fd, status).1
    {
      var io := Unbind(fd);
      if io.None? {
        return EBADF;
      }
      SlotUsable(old(View()), fd);
      CloseSteps(old(View()), fd);
      out := if count[refs[io.value]] == 1 then Closed(status) else Success;
      LoseTaken(io.value);
    }

    /** What the code does with a reference it took out of a slot, if it does not hand it on. */
    method LoseTaken(r: RefId)
      requires Inv(View()) && r in refs
      modifies this
      ensures Inv(View()) && View() == LoseRef(old(View()), r)
    {
      var o := refs[r];
      RefUsable(View(), r);
      TakeLastSteps(View(), r);
      var last := TryTakeLast(r);
      if last {
        Finish(o);
      } else {
        DropReference(r);
      }
    }

    /** fdio_bind_to_fd; r is the raw pointer that the caller gives up. */
    method BindAt(r: RefId, fd: int, start: int) returns (out: Outcome)
      requires Inv(View()) && r in refs
      modifies this, slots
      ensures Inv(View())
      ensures View() == BindToFd(old(View()), r, fd, start).0.(nextRef := nextRef)
                && out == BindToFd(old(View()), r, fd, start).1
    {
      if (fd < 0 && start < 0) || fd >= slots.Length {
        DropReference(r);
        return EINVAL;
      }
      if fd < 0 {
        out := BindAndDrop(r, start);
        return;
      }
      ghost var s := View();
      ReplaceAt(r, fd);
      DropReference(r);
      assert View() == LoseRef(Redirected(s, fd, s.refs[r]), r).(nextRef := nextRef);
      return Fd(fd);
    }

    method ReplaceAt(r: RefId, fd: int)
      requires Inv(View()) && r in refs && 0 <= fd < slots.Length
      modifies this, slots
      ensures Inv(View()) && r in refs && View() == Redirected(old(View()), fd, old(refs[r])).(nextRef := nextRef)
    {
      RefUsable(View(), r);
      ReplaceLoses(View(), fd, r);
      ghost var goal := Redirected(View(), fd, refs[r]);
      var previous := SlotReplace(fd, r);
      if previous.None? {
        assert View() == goal.(nextRef := nextRef);
        return;
      }
      DropReference(previous.value);
      assert View() == goal.(nextRef := nextRef);
    }

    /** fdio_unbind_from_fd. */
    method UnbindSole(fd: int) returns (out: Outcome)
      requires Inv(View())
      modifies this, slots
      ensures Inv(View())
      ensures View() == UnbindFromFd(old(View()), fd).0.(nextRef := nextRef) && out == UnbindFromFd(old(View()), fd).1
    {
      var io := Unbind(fd);
      if io.None? {
        return INVALID_ARGS;
      }
      SlotUsable(old(View()), fd);
      CloseSteps(old(View()), fd);
      var o := refs[io.value];
      if count[o] == 1 {
        return Success;
      }
      DropReference(io.value);
      return UNAVAILABLE;
    }

    /** fdio_fd_transfer and fdio_fd_transfer_or_clone, which differ in what they do if others hold
        the object; unwrap and clone are the answers of the object's backend. */
    method TransferFrom(fd: int, unwrap: int, clone: Option<int>) returns (out: Outcome)
      requires Inv(View())
      modifies this, slots
      ensures Inv(View())
      ensures View() == Transfer(old(View()), fd, unwrap, clone).0.(nextRef := nextRef)
      ensures out == Transfer(old(View()), fd, unwrap, clone).1
    {
      var io := Unbind(fd);
      if io.None? {
        return INVALID_ARGS;
      }
      SlotUsable(old(View()), fd);
      CloseSteps(old(View()), fd);
      if count[refs[io.value]] == 1 {
        out := Unwrapped(unwrap);
      } else {
        out := if clone.Some? then Cloned(clone.value) else UNAVAILABLE;
      }
      LoseTaken(io.value);
    }

    method AllocatedCount() returns (n: nat)
      ensures n == |set i | 0 <= i < slots.Length && slots[i] != Available|
    {
      n := 0;
      ghost var seen := {};
      for i := 0 to slots.Length
        invariant seen == set j | 0 <= j < i && slots[j] != Available
        invariant n == |seen|
      {
        if slots[i] != Available {
          seen := seen + {i};
          n := n + 1;
        }
      }
    }
  }
}
