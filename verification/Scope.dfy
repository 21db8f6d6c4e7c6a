/**
 * The scope of a set of promises (fit-promise/scope.cc): an intrusive doubly linked list
 * of promise holders, handle counts, and three ways to destroy a holder or the state.
 *
 * Memory is explicit: a holder is an address, and a deleted holder is no longer in the
 * memory, so following a dangling pointer is a lookup that cannot be proved.  Blocks under
 * the mutex and the atomic counter operations are single steps; deletions happen outside
 * the mutex and are steps of their own, so they interleave with everything else.
 */
module Scope {
  import opened Arithmetic

  // ---------------------------------------------------------- memory and pointers

  /** An address; 0 is the null pointer. */
  type Ptr = nat

  datatype Node = Node(next: Ptr, prev: Ptr)

  type Memory = map<Ptr, Node>

  function At(list: seq<Ptr>, i: int): Ptr {
    if 0 <= i < |list| then list[i] else 0
  }

  ghost predicate Distinct(list: seq<Ptr>) {
    forall i, j :: 0 <= i < j < |list| ==> list[i] != list[j]
  }

  /** head is the first node of a doubly linked list of exactly these holders. */
  ghost predicate Linked(mem: Memory, head: Ptr, list: seq<Ptr>) {
    && Distinct(list) && 0 !in list && head == At(list, 0)
    && (forall p :: p in list ==> p in mem)
    && (forall i :: 0 <= i < |list| ==> NodeOk(mem, list, i))
  }

  ghost predicate NodeOk(mem: Memory, list: seq<Ptr>, i: nat)
    requires i < |list|
  {
    list[i] in mem && mem[list[i]] == Node(At(list, i + 1), At(list, i - 1))
  }

  /** The pointer writes of adopt_promise on a new holder. */
  function PushFront(mem: Memory, head: Ptr, h: Ptr): Memory
    requires h in mem && (head != 0 ==> head in mem)
  {
    if head == 0 then mem
    else mem[head := mem[head].(prev := h)][h := mem[h].(next := head)]
  }

  /** The pointer writes of drop_promise.  The second component is the new head. */
  function Unlink(mem: Memory, head: Ptr, h: Ptr): (Memory, Ptr)
    requires h in mem && (mem[h].next != 0 ==> mem[h].next in mem) && (mem[h].prev != 0 ==> mem[h].prev in mem)
  {
    var Node(next, prev) := mem[h];
    var mem1 := if next != 0 then mem[next := mem[next].(prev := prev)] else mem;
    if prev != 0 then (mem1[prev := mem1[prev].(next := next)], head) else (mem1, next)
  }

  ghost function Without(list: seq<Ptr>, k: nat): seq<Ptr>
    requires k < |list|
  {
    list[..k] + list[k + 1..]
  }

  lemma PushFrontLinks(mem: Memory, head: Ptr, list: seq<Ptr>, h: Ptr)
    requires Linked(mem, head, list) && h in mem && mem[h] == Node(0, 0) && h !in list && h != 0
    ensures Linked(PushFront(mem, head, h), h, [h] + list)
  {
    var list', mem' := [h] + list, PushFront(mem, head, h);
    forall i | 0 <= i < |list'|
      ensures NodeOk(mem', list', i)
    {
      if i > 0 { assert NodeOk(mem, list, i - 1); }
    }
  }

  lemma LinkedNeighbours(mem: Memory, head: Ptr, list: seq<Ptr>, k: nat)
    requires Linked(mem, head, list) && k < |list|
    ensures list[k] in mem && mem[list[k]] == Node(At(list, k + 1), At(list, k - 1))
    ensures mem[list[k]].next != 0 ==> mem[list[k]].next in mem
    ensures mem[list[k]].prev != 0 ==> mem[list[k]].prev in mem
  {
    assert NodeOk(mem, list, k);
  }

  /** What is left of the other nodes' pointers: the neighbours skip the unlinked holder. */
  lemma UnlinkAt(mem: Memory, head: Ptr, list: seq<Ptr>, k: nat, j: nat)
    requires Linked(mem, head, list) && k < |list| && j < |list| && j != k
    requires (mem[list[k]].next != 0 ==> mem[list[k]].next in mem)
              && (mem[list[k]].prev != 0 ==> mem[list[k]].prev in mem)
    ensures var mem' := Unlink(mem, head, list[k]).0;
            && list[j] in mem'
            && mem'[list[j]].next == At(list, if j == k - 1 then k + 1 else j + 1)
            && mem'[list[j]].prev == At(list, if j == k + 1 then k - 1 else j - 1)
  {
    LinkedNeighbours(mem, head, list, k);
    LinkedNeighbours(mem, head, list, j);
    assert At(list, k + 1) == list[j] <==> j == k + 1;
    assert At(list, k - 1) == list[j] <==> j == k - 1;
  }

  lemma WithoutAt(list: seq<Ptr>, k: nat, i: int)
    requires k < |list|
    ensures At(Without(list, k), i) == At(list, if i < k then i else i + 1)
  {
  }

  lemma WithoutDistinct(list: seq<Ptr>, k: nat)
    requires k < |list| && Distinct(list)
    ensures Distinct(Without(list, k)) && list[k] !in Without(list, k)
    ensures forall p :: p in list <==> p == list[k] || p in Without(list, k)
  {
    var rest := Without(list, k);
    forall i | 0 <= i < |rest|
      ensures rest[i] == list[if i < k then i else i + 1]
    {
    }
    forall p | p in list && p != list[k]
      ensures p in rest
    {
      var j :| 0 <= j < |list| && list[j] == p;
      assert rest[if j < k then j else j - 1] == p;
    }
  }

  /** Unlinking takes out exactly that holder and leaves a well-formed list. */
  lemma UnlinkLinks(mem: Memory, head: Ptr, list: seq<Ptr>, k: nat)
    requires Linked(mem, head, list) && k < |list|
    ensures mem[list[k]].next != 0 ==> mem[list[k]].next in mem
    ensures mem[list[k]].prev != 0 ==> mem[list[k]].prev in mem
    ensures var (mem', head') := Unlink(mem, head, list[k]); Linked(mem', head', Without(list, k))
  {
    LinkedNeighbours(mem, head, list, k);
    WithoutDistinct(list, k);
    var (mem', head') := Unlink(mem, head, list[k]);
    var rest := Without(list, k);
    WithoutAt(list, k, 0);
    forall i | 0 <= i < |rest|
      ensures NodeOk(mem', rest, i)
    {
      WithoutAt(list, k, i);
      WithoutAt(list, k, i + 1);
      WithoutAt(list, k, i - 1);
      UnlinkAt(mem, head, list, k, if i < k then i else i + 1);
    }
  }

  /** Writes that leave the nodes of a list alone leave the list alone. */
  lemma LinkedElsewhere(mem: Memory, mem': Memory, head: Ptr, list: seq<Ptr>)
    requires Linked(mem, head, list)
    requires forall p :: p in list ==> p in mem' && mem'[p] == mem[p]
    ensures Linked(mem', head, list)
  {
    forall i | 0 <= i < |list|
      ensures NodeOk(mem', list, i)
    {
      assert NodeOk(mem, list, i);
    }
  }

  lemma UnlinkFrame(mem: Memory, head: Ptr, list: seq<Ptr>, k: nat)
    requires Linked(mem, head, list) && k < |list|
    requires (mem[list[k]].next != 0 ==> mem[list[k]].next in mem)
              && (mem[list[k]].prev != 0 ==> mem[list[k]].prev in mem)
    ensures var mem' := Unlink(mem, head, list[k]).0;
            mem'.Keys == mem.Keys && forall p :: p in mem && p !in list ==> mem'[p] == mem[p]
  {
    LinkedNeighbours(mem, head, list, k);
  }

  // ------------------------------------------------------------------- the protocol

  /** The bit of the atomic counter that says that the scope was exited. */
  const SCOPE_EXITED: nat := 0x8000_0000_0000_0000

  /** The scope's state object and the memory its pointers lead into.  counter: running
      promises, plus SCOPE_EXITED. */
  datatype Shared = Shared(mem: Memory, head: Ptr, handleCount: nat, counter: nat, destroyed: bool)

  predicate Exited(sh: Shared) { sh.counter >= SCOPE_EXITED }

  predicate ShouldDeleteSelf(sh: Shared) { sh.destroyed && sh.handleCount == 0 }

  /** Beside the shared state: linked lists the holders head leads to; chain those that an
      exit took and has yet to delete, from chainHead on; dropped those already unlinked or
      aborted, still to be deleted; handles and running the valid and the acquired promise
      handles; pendingFree and frees count decisions to delete the state and deletions. */
  datatype State = State(sh: Shared, linked: seq<Ptr>, chainHead: Ptr, chain: seq<Ptr>, dropped: set<Ptr>,
                         handles: set<Ptr>, running: set<Ptr>, pendingFree: nat, frees: nat,
                         adopted: set<Ptr>, deleted: multiset<Ptr>)

  const INIT: State := State(Shared(map[], 0, 0, 0, false), [], 0, [], {}, {}, {}, 0, 0, {}, multiset{})

  datatype Step =
    | Adopt(h: Ptr)
    | Drop(h: Ptr)
    | Acquire(h: Ptr)
    | Release(h: Ptr)
    | Exit(destroy: bool)
    | DeleteDropped(h: Ptr)
    | DeleteChain
    | FreeState

  /** Some thread can take the step: a new holder has a new address, the scope is used while
      it exists and is not exited while a promise runs, a continuation owns its handle. */
  predicate Enabled(s: State, step: Step) {
    match step
    case Adopt(h) => !s.sh.destroyed && h != 0 && h !in s.adopted
    case Drop(h) => h in s.handles && h !in s.running
    case Acquire(h) => h in s.handles && h !in s.running && |s.running| + 1 < SCOPE_EXITED
    case Release(h) => h in s.running
    case Exit(_) => !s.sh.destroyed && s.running == {}
    case DeleteDropped(h) => h in s.dropped
    case DeleteChain => s.chainHead != 0
    case FreeState => s.pendingFree > 0
  }

  // Each step, as the code takes it.

  function AdoptShared(sh: Shared, h: Ptr): Shared
    requires sh.head != 0 ==> sh.head in sh.mem
  {
    var mem := sh.mem[h := Node(0, 0)];
    if Exited(sh) then sh.(mem := mem)
    else sh.(mem := PushFront(mem, sh.head, h), head := h, handleCount := sh.handleCount + 1)
  }

  predicate Derefs(mem: Memory, h: Ptr) {
    h in mem && (mem[h].next != 0 ==> mem[h].next in mem) && (mem[h].prev != 0 ==> mem[h].prev in mem)
  }

  function DropShared(sh: Shared, h: Ptr): Shared
    requires 0 < sh.handleCount && (!Exited(sh) ==> Derefs(sh.mem, h))
  {
    var sh1 := sh.(handleCount := sh.handleCount - 1);
    if Exited(sh) then sh1
    else
      var (mem, head) := Unlink(sh.mem, sh.head, h);
      sh1.(mem := mem, head := head)
  }

  function ExitShared(sh: Shared, destroy: bool): Shared {
    sh.(destroyed := destroy, counter := SCOPE_EXITED, head := if Exited(sh) then sh.head else 0)
  }

  /** Holders are deleted. */
  function Deleted(sh: Shared, holders: set<Ptr>): Shared {
    sh.(mem := sh.mem - holders)
  }

  // ------------------------------------------------------------------ the invariant

  /** The chain is followed from the front while its front is deleted, so only the forward
      pointers need to be right. */
  ghost predicate Chained(mem: Memory, head: Ptr, list: seq<Ptr>) {
    && Distinct(list) && 0 !in list && head == At(list, 0)
    && (forall p :: p in list ==> p in mem)
    && (forall i :: 0 <= i < |list| ==> NextOk(mem, list, i))
  }

  ghost predicate NextOk(mem: Memory, list: seq<Ptr>, i: nat)
    requires i < |list|
  {
    list[i] in mem && mem[list[i]].next == At(list, i + 1)
  }

  ghost predicate ListInv(s: State) {
    && Linked(s.sh.mem, s.sh.head, s.linked)
    && Chained(s.sh.mem, s.chainHead, s.chain)
    && (if Exited(s.sh) then s.linked == [] else s.chain == [])
  }

  /** A holder is in memory exactly while it is linked, waits in the chain or was dropped. */
  ghost predicate Alive(s: State, p: Ptr) {
    p in s.linked || p in s.chain || p in s.dropped
  }

  ghost predicate MemInv(s: State) {
    && (forall p :: p in s.sh.mem <==> Alive(s, p))
    && (forall p :: p in s.dropped ==> p !in s.linked && p !in s.chain)
    && (forall p :: p in s.sh.mem ==> p in s.adopted)
    && (forall p :: s.deleted[p] == One(p in s.adopted && p !in s.sh.mem))
  }

  ghost predicate CountInv(s: State) {
    && s.sh.handleCount == |s.handles|
    && s.running <= s.handles <= s.adopted
    && (!Exited(s.sh) ==> forall p :: p in s.handles <==> p in s.linked)
    && s.sh.counter == (if Exited(s.sh) then SCOPE_EXITED else |s.running|)
    && (Exited(s.sh) ==> s.running == {})
    && (s.sh.destroyed ==> Exited(s.sh))
    && s.pendingFree + s.frees == One(ShouldDeleteSelf(s.sh))
  }

  ghost predicate Inv(s: State) {
    ListInv(s) && MemInv(s) && CountInv(s)
  }

  lemma HeadAlive(s: State)
    requires Inv(s)
    ensures s.sh.head != 0 ==> s.sh.head in s.sh.mem
    ensures s.chainHead != 0 ==> s.chainHead in s.sh.mem && s.chain != [] && s.chain[0] == s.chainHead
  {
  }

  /** A handle that is dropped before the exit leads to a linked holder with linked neighbours. */
  lemma HandleDerefs(s: State, h: Ptr) returns (k: nat)
    requires Inv(s) && h in s.handles && !Exited(s.sh)
    ensures k < |s.linked| && s.linked[k] == h && Derefs(s.sh.mem, h)
  {
    k :| 0 <= k < |s.linked| && s.linked[k] == h;
    LinkedNeighbours(s.sh.mem, s.sh.head, s.linked, k);
  }

  lemma HandleCounted(s: State, h: Ptr)
    requires Inv(s) && h in s.handles
    ensures 0 < s.sh.handleCount && |s.handles - {h}| == s.sh.handleCount - 1
  {
  }

  /** No step that a thread can take follows a pointer to a deleted holder. */
  ghost predicate Safe(s: State, step: Step) {
    match step
    case Adopt(_) => s.sh.head != 0 ==> s.sh.head in s.sh.mem
    case Drop(h) => 0 < s.sh.handleCount && (!Exited(s.sh) ==> Derefs(s.sh.mem, h))
    case Release(h) => s.sh.counter > 0
    case DeleteDropped(h) => h in s.sh.mem
    case DeleteChain => s.chainHead in s.sh.mem
    case _ => true
  }

  lemma InvSafe(s: State, step: Step)
    requires Inv(s) && Enabled(s, step)
    ensures Safe(s, step)
  {
    HeadAlive(s);
    match step {
      case Drop(h) =>
        HandleCounted(s, h);
        if !Exited(s.sh) { var _ := HandleDerefs(s, h); }
      case _ =>
    }
  }

  // ----------------------------------------------------------------------- the steps

  ghost function NextAdopt(s: State, h: Ptr): State
    requires Safe(s, Adopt(h))
  {
    var s1 := s.(sh := AdoptShared(s.sh, h), adopted := s.adopted + {h});
    if Exited(s.sh) then s1.(dropped := s.dropped + {h})
    else s1.(linked := [h] + s.linked, handles := s.handles + {h})
  }

  ghost function Remove(list: seq<Ptr>, h: Ptr): seq<Ptr> {
    if list == [] then [] else if list[0] == h then list[1..] else [list[0]] + Remove(list[1..], h)
  }

  ghost function NextDrop(s: State, h: Ptr): State
    requires Safe(s, Drop(h))
  {
    var sh := DropShared(s.sh, h);
    var s1 := s.(sh := sh, handles := s.handles - {h});
    if !Exited(s.sh) then s1.(linked := Remove(s.linked, h), dropped := s.dropped + {h})
    else s1.(pendingFree := s.pendingFree + One(ShouldDeleteSelf(sh)))
  }

  function NextAcquire(s: State, h: Ptr): State {
    if Exited(s.sh) then s
    else s.(sh := s.sh.(counter := s.sh.counter + 1), running := s.running + {h})
  }

  function NextRelease(s: State, h: Ptr): State
    requires s.sh.counter > 0
  {
    s.(sh := s.sh.(counter := s.sh.counter - 1), running := s.running - {h})
  }

  ghost function NextExit(s: State, destroy: bool): State {
    var sh := ExitShared(s.sh, destroy);
    var s1 := s.(sh := sh, pendingFree := s.pendingFree + One(ShouldDeleteSelf(sh)));
    if Exited(s.sh) then s1 else s1.(linked := [], chainHead := s.sh.head, chain := s.linked)
  }

  ghost function DeleteHolder(s: State, h: Ptr): State {
    s.(sh := Deleted(s.sh, {h}), deleted := s.deleted + multiset{h})
  }

  ghost function NextDeleteChain(s: State): State
    requires s.chainHead in s.sh.mem
  {
    var next := s.sh.mem[s.chainHead].next;
    DeleteHolder(s, s.chainHead).(chainHead := next, chain := if s.chain == [] then [] else s.chain[1..])
  }

  ghost function Next(s: State, step: Step): State
    requires Enabled(s, step) && Safe(s, step)
  {
    match step
    case Adopt(h) => NextAdopt(s, h)
    case Drop(h) => NextDrop(s, h)
    case Acquire(h) => NextAcquire(s, h)
    case Release(h) => NextRelease(s, h)
    case Exit(destroy) => NextExit(s, destroy)
    case DeleteDropped(h) => DeleteHolder(s, h).(dropped := s.dropped - {h})
    case DeleteChain => NextDeleteChain(s)
    case FreeState => s.(pendingFree := s.pendingFree - 1, frees := s.frees + 1)
  }

  lemma {:induction false} RemoveIsWithout(list: seq<Ptr>, k: nat)
    requires k < |list| && Distinct(list)
    ensures Remove(list, list[k]) == Without(list, k)
  {
    if k == 0 {
      assert Without(list, 0) == list[1..];
    } else {
      assert list[0] != list[k] && list[1..][k - 1] == list[k];
      RemoveIsWithout(list[1..], k - 1);
    }
  }

  /** A new address is neither linked nor chained. */
  lemma NewIsUnlinked(s: State, h: Ptr)
    requires MemInv(s) && h !in s.adopted
    ensures !Alive(s, h) && h !in s.sh.mem
  {
  }

  lemma NewHolderLinks(mem: Memory, head: Ptr, list: seq<Ptr>, h: Ptr)
    requires Linked(mem, head, list) && h !in mem && h != 0 && (head != 0 ==> head in mem)
    ensures Linked(PushFront(mem[h := Node(0, 0)], head, h), h, [h] + list)
    ensures PushFront(mem[h := Node(0, 0)], head, h).Keys == mem.Keys + {h}
  {
    LinkedElsewhere(mem, mem[h := Node(0, 0)], head, list);
    PushFrontLinks(mem[h := Node(0, 0)], head, list, h);
  }

  lemma AdoptList(s: State, h: Ptr)
    requires Inv(s) && Enabled(s, Adopt(h)) && Safe(s, Adopt(h))
    ensures ListInv(NextAdopt(s, h))
    ensures NextAdopt(s, h).sh.mem.Keys == s.sh.mem.Keys + {h}
  {
    NewIsUnlinked(s, h);
    if Exited(s.sh) {
      ChainElsewhere(s.sh.mem, s.sh.mem[h := Node(0, 0)], s.chainHead, s.chain);
    } else {
      NewHolderLinks(s.sh.mem, s.sh.head, s.linked, h);
    }
  }

  lemma AdoptMem(s: State, h: Ptr)
    requires Inv(s) && Enabled(s, Adopt(h)) && Safe(s, Adopt(h))
    requires NextAdopt(s, h).sh.mem.Keys == s.sh.mem.Keys + {h}
    ensures MemInv(NextAdopt(s, h))
  {
    var s' := NextAdopt(s, h);
    assert forall p :: p in s'.sh.mem <==> p in s.sh.mem || p == h;
    assert forall p :: Alive(s', p) <==> Alive(s, p) || p == h;
    assert !Alive(s, h);
  }

  lemma AdoptCount(s: State, h: Ptr)
    requires CountInv(s) && Enabled(s, Adopt(h)) && Safe(s, Adopt(h))
    ensures CountInv(NextAdopt(s, h))
  {
    assert h !in s.handles;
  }

  lemma AdoptKeeps(s: State, h: Ptr)
    requires Inv(s) && Enabled(s, Adopt(h)) && Safe(s, Adopt(h))
    ensures Inv(NextAdopt(s, h))
  {
    AdoptList(s, h);
    AdoptMem(s, h);
    AdoptCount(s, h);
  }

  lemma DropList(s: State, h: Ptr)
    requires Inv(s) && Enabled(s, Drop(h)) && Safe(s, Drop(h)) && !Exited(s.sh)
    ensures ListInv(NextDrop(s, h)) && NextDrop(s, h).sh.mem.Keys == s.sh.mem.Keys
    ensures forall p :: p in s.linked <==> p == h || p in NextDrop(s, h).linked
    ensures h !in NextDrop(s, h).linked
  {
    var k := HandleDerefs(s, h);
    UnlinkLinks(s.sh.mem, s.sh.head, s.linked, k);
    UnlinkFrame(s.sh.mem, s.sh.head, s.linked, k);
    RemoveIsWithout(s.linked, k);
    WithoutDistinct(s.linked, k);
  }

  lemma DropMem(s: State, s': State, h: Ptr)
    requires MemInv(s) && s'.sh.mem.Keys == s.sh.mem.Keys && s'.chain == s.chain == []
    requires s'.adopted == s.adopted && s'.deleted == s.deleted && s'.dropped == s.dropped + {h}
    requires (forall p :: p in s.linked <==> p == h || p in s'.linked) && h !in s'.linked
    ensures MemInv(s')
  {
    assert forall p :: Alive(s', p) <==> Alive(s, p);
    assert forall p :: p in s'.sh.mem <==> p in s.sh.mem;
  }

  lemma DropKeeps(s: State, h: Ptr)
    requires Inv(s) && Enabled(s, Drop(h)) && Safe(s, Drop(h))
    ensures Inv(NextDrop(s, h))
  {
    HandleCounted(s, h);
    if !Exited(s.sh) {
      DropList(s, h);
      DropMem(s, NextDrop(s, h), h);
    }
  }

  lemma ExitKeeps(s: State, destroy: bool)
    requires Inv(s) && Enabled(s, Exit(destroy))
    ensures Inv(NextExit(s, destroy))
  {
    forall i | 0 <= i < |s.linked|
      ensures NextOk(s.sh.mem, s.linked, i)
    {
      assert NodeOk(s.sh.mem, s.linked, i);
    }
  }

  /** A holder leaves the memory and is accounted as deleted. */
  lemma DeletedMem(s: State, s': State, h: Ptr)
    requires MemInv(s) && h in s.sh.mem && s'.sh.mem.Keys == s.sh.mem.Keys - {h}
    requires s'.adopted == s.adopted && s'.deleted == s.deleted + multiset{h} && s'.linked == s.linked
    requires (s'.chain == s.chain && h in s.dropped && s'.dropped == s.dropped - {h})
          || (s.chain == [h] + s'.chain && h !in s'.chain && s'.dropped == s.dropped && h !in s.linked)
    ensures MemInv(s')
  {
    assert forall p :: Alive(s', p) <==> Alive(s, p) && p != h;
    assert forall p :: p in s'.sh.mem <==> p in s.sh.mem && p != h;
  }

  lemma ChainElsewhere(mem: Memory, mem': Memory, head: Ptr, list: seq<Ptr>)
    requires Chained(mem, head, list)
    requires forall p :: p in list ==> p in mem' && mem'[p] == mem[p]
    ensures Chained(mem', head, list)
  {
    forall i | 0 <= i < |list|
      ensures NextOk(mem', list, i)
    {
      assert NextOk(mem, list, i);
    }
  }

  lemma DeleteDroppedKeeps(s: State, h: Ptr)
    requires Inv(s) && Enabled(s, DeleteDropped(h)) && Safe(s, DeleteDropped(h))
    ensures Inv(Next(s, DeleteDropped(h)))
  {
    var s' := Next(s, DeleteDropped(h));
    LinkedElsewhere(s.sh.mem, s'.sh.mem, s.sh.head, s.linked);
    ChainElsewhere(s.sh.mem, s'.sh.mem, s.chainHead, s.chain);
    DeletedMem(s, s', h);
  }

  lemma ChainTail(mem: Memory, head: Ptr, list: seq<Ptr>)
    requires Chained(mem, head, list) && list != []
    ensures Chained(mem - {head}, mem[head].next, list[1..]) && head !in list[1..]
  {
    forall i | 0 <= i < |list[1..]|
      ensures NextOk(mem - {head}, list[1..], i)
    {
      assert NextOk(mem, list, i + 1) && list[1..][i] == list[i + 1];
    }
    assert NextOk(mem, list, 0);
  }

  lemma DeleteChainKeeps(s: State)
    requires Inv(s) && Enabled(s, DeleteChain) && Safe(s, DeleteChain)
    ensures Inv(NextDeleteChain(s))
  {
    HeadAlive(s);
    ChainTail(s.sh.mem, s.chainHead, s.chain);
    assert s.chain == [s.chainHead] + s.chain[1..];
    DeletedMem(s, NextDeleteChain(s), s.chainHead);
  }

  lemma StepKeeps(s: State, step: Step)
    requires Inv(s) && Enabled(s, step)
    ensures Safe(s, step) && Inv(Next(s, step))
  {
    InvSafe(s, step);
    match step {
      case Adopt(h) => AdoptKeeps(s, h);
      case Drop(h) => DropKeeps(s, h);
      case Acquire(h) =>
      case Release(h) =>
      case Exit(destroy) => ExitKeeps(s, destroy);
      case DeleteDropped(h) => DeleteDroppedKeeps(s, h);
      case DeleteChain => DeleteChainKeeps(s);
      case FreeState =>
    }
  }

  // -------------------------------------------------------------------- all runs

  ghost predicate Legal(s: State, steps: seq<Step>)
    decreases |steps|
  {
    steps == [] || (Enabled(s, steps[0]) && Safe(s, steps[0]) && Legal(Next(s, steps[0]), steps[1..]))
  }

  ghost function Exec(s: State, steps: seq<Step>): State
    requires Legal(s, steps)
    decreases |steps|
  {
    if steps == [] then s else Exec(Next(s, steps[0]), steps[1..])
  }

  ghost predicate Reachable(s: State) {
    exists steps :: Legal(INIT, steps) && Exec(INIT, steps) == s
  }

  lemma {:induction false} ExecKeeps(s: State, steps: seq<Step>)
    requires Inv(s) && Legal(s, steps)
    ensures Inv(Exec(s, steps))
    decreases |steps|
  {
    if steps != [] {
      StepKeeps(s, steps[0]);
      ExecKeeps(Next(s, steps[0]), steps[1..]);
    }
  }

  lemma InitInv()
    ensures Inv(INIT)
  {
  }

  lemma ReachableInv(s: State)
    requires Reachable(s)
    ensures Inv(s)
  {
    InitInv();
    var steps :| Legal(INIT, steps) && Exec(INIT, steps) == s;
    ExecKeeps(INIT, steps);
  }

  /** In every reachable state the holders that head leads to form a doubly linked list, until
      the scope is exited of exactly the promises with a live handle, and empty after that. */
  lemma HoldersAreListed(s: State)
    requires Reachable(s)
    ensures Linked(s.sh.mem, s.sh.head, s.linked)
    ensures if Exited(s.sh) then s.sh.head == 0 else forall p :: p in s.handles <==> p in s.linked
  {
    ReachableInv(s);
  }

  lemma {:induction false} ExecSnoc(s: State, steps: seq<Step>, step: Step)
    requires Legal(s, steps) && Enabled(Exec(s, steps), step) && Safe(Exec(s, steps), step)
    ensures Legal(s, steps + [step]) && Exec(s, steps + [step]) == Next(Exec(s, steps), step)
    decreases |steps|
  {
    var all := steps + [step];
    if steps == [] {
      assert all[1..] == [] && Legal(Next(s, step), []);
    } else {
      ExecSnoc(Next(s, steps[0]), steps[1..], step);
      assert all[0] == steps[0] && all[1..] == steps[1..] + [step];
    }
  }

  lemma ReachableStep(s: State, step: Step)
    requires Reachable(s) && Enabled(s, step) && Safe(s, step)
    ensures Reachable(Next(s, step))
  {
    var steps :| Legal(INIT, steps) && Exec(INIT, steps) == s;
    ExecSnoc(INIT, steps, step);
  }

  /** Whatever step some thread takes next, it follows no pointer to a deleted holder, and
      a promise that runs exists. */
  lemma NoDanglingPointer(s: State, step: Step)
    requires Reachable(s) && Enabled(s, step)
    ensures Safe(s, step) && Reachable(Next(s, step))
    ensures forall h :: h in s.running ==> h in s.sh.mem
  {
    ReachableInv(s);
    InvSafe(s, step);
    ReachableStep(s, step);
  }

  /** A promise is destroyed at most once, and never while its handle could still run it. */
  lemma PromiseDestroyedOnce(s: State, p: Ptr)
    requires Reachable(s)
    ensures s.deleted[p] <= 1 && (s.deleted[p] == 1 <==> p in s.adopted && p !in s.sh.mem)
    ensures p in s.handles && !Exited(s.sh) ==> s.deleted[p] == 0
  {
    ReachableInv(s);
  }

  // ------------------------------------------------ what the steps of a run add up to

  ghost predicate ExitIn(steps: seq<Step>) {
    Exit(true) in steps || Exit(false) in steps
  }

  /** The handles that a run leaves valid: of promises adopted before any exit, and not dropped. */
  ghost function ValidHandles(steps: seq<Step>): set<Ptr> {
    if steps == [] then {}
    else
      var (front, last) := (steps[..|steps| - 1], steps[|steps| - 1]);
      if last.Adopt? && !ExitIn(front) then ValidHandles(front) + {last.h}
      else if last.Drop? then ValidHandles(front) - {last.h}
      else ValidHandles(front)
  }

  /** The scope is exited, destroyed and held exactly as the steps so far say. */
  ghost predicate Noted(s: State, steps: seq<Step>) {
    && (s.sh.destroyed <==> Exit(true) in steps)
    && (Exited(s.sh) <==> ExitIn(steps))
    && s.handles == ValidHandles(steps)
  }

  /** Of the invariant, the history only needs this. */
  ghost predicate Counts(s: State, step: Step) {
    && (step.Release? ==> s.sh.counter < SCOPE_EXITED)
    && (step.Acquire? && !Exited(s.sh) ==> s.sh.counter + 1 < SCOPE_EXITED)
  }

  lemma InvCounts(s: State, step: Step)
    requires Inv(s) && Enabled(s, step)
    ensures Safe(s, step) && Counts(s, step)
  {
    InvSafe(s, step);
  }

  lemma ExitNext(steps: seq<Step>, step: Step)
    ensures ExitIn(steps + [step]) <==> ExitIn(steps) || step.Exit?
    ensures Exit(true) in steps + [step] <==> Exit(true) in steps || step == Exit(true)
  {
  }

  lemma NotedStep(s: State, steps: seq<Step>, step: Step)
    requires Enabled(s, step) && Safe(s, step) && Counts(s, step) && Noted(s, steps)
    ensures Noted(Next(s, step), steps + [step])
  {
    var all := steps + [step];
    assert all[..|all| - 1] == steps && all[|all| - 1] == step;
    ExitNext(steps, step);
  }

  lemma {:induction false} NotedExec(s: State, before: seq<Step>, steps: seq<Step>)
    requires Inv(s) && Legal(s, steps) && Noted(s, before)
    ensures Noted(Exec(s, steps), before + steps)
    decreases |steps|
  {
    if steps == [] {
      assert before + steps == before;
      return;
    }
    InvCounts(s, steps[0]);
    NotedStep(s, before, steps[0]);
    StepKeeps(s, steps[0]);
    NotedExec(Next(s, steps[0]), before + [steps[0]], steps[1..]);
    assert before + [steps[0]] + steps[1..] == before + steps;
  }

  /** Over all runs: the scope counts as destroyed exactly after a destroying exit, as exited exactly
      after any exit, and the live handles are those of promises adopted before the exit and not
      dropped. */
  lemma FlagsTellHistory(steps: seq<Step>)
    requires Legal(INIT, steps)
    ensures Noted(Exec(INIT, steps), steps)
  {
    InitInv();
    InitNoted();
    NotedFrom(INIT, steps);
  }

  lemma InitNoted()
    ensures Noted(INIT, [])
  {
  }

  lemma NotedFrom(s: State, steps: seq<Step>)
    requires Inv(s) && Legal(s, steps) && Noted(s, [])
    ensures Noted(Exec(s, steps), steps)
  {
    NotedExec(s, [], steps);
    assert [] + steps == steps;
  }

  /** Over all runs the state object is deleted at most once, exactly after a destroying exit and the
      last handle, with what its destructor asserts; after that only holders remain to be deleted,
      and no thread can reach the state any more. */
  lemma StateLifetime(steps: seq<Step>)
    requires Legal(INIT, steps)
    ensures var s := Exec(INIT, steps);
            && s.pendingFree + s.frees == One(Exit(true) in steps && ValidHandles(steps) == {})
            && (s.frees == 1 || s.pendingFree == 1 ==>
                  s.sh.counter == SCOPE_EXITED && s.sh.destroyed && s.sh.handleCount == 0 && s.sh.head == 0)
            && (s.frees == 1 ==> forall step :: Enabled(s, step) ==> step.DeleteDropped? || step.DeleteChain?)
  {
    InitInv();
    InitNoted();
    LifetimeFrom(INIT, steps);
  }

  lemma LifetimeFrom(init: State, steps: seq<Step>)
    requires Inv(init) && Legal(init, steps) && Noted(init, [])
    ensures var s := Exec(init, steps);
            && s.pendingFree + s.frees == One(Exit(true) in steps && ValidHandles(steps) == {})
            && (s.frees == 1 || s.pendingFree == 1 ==>
                  s.sh.counter == SCOPE_EXITED && s.sh.destroyed && s.sh.handleCount == 0 && s.sh.head == 0)
            && (s.frees == 1 ==> forall step :: Enabled(s, step) ==> step.DeleteDropped? || step.DeleteChain?)
  {
    NotedFrom(init, steps);
    ExecKeeps(init, steps);
    FreedWhenDone(Exec(init, steps));
  }

  lemma FreedWhenDone(s: State)
    requires Inv(s)
    ensures s.pendingFree + s.frees == One(s.sh.destroyed && s.handles == {})
    ensures s.frees == 1 || s.pendingFree == 1 ==>
              s.sh.counter == SCOPE_EXITED && s.sh.destroyed && s.sh.handleCount == 0 && s.sh.head == 0
    ensures s.frees == 1 ==> forall step :: Enabled(s, step) ==> step.DeleteDropped? || step.DeleteChain?
  {
    assert s.handles == {} <==> |s.handles| == 0;
  }

  /** Once the scope was exited and the deletions are done, every promise that was adopted has been
      destroyed, whether or not its handle is still there. */
  lemma ExitDestroysAll(s: State, p: Ptr)
    requires Reachable(s) && Exited(s.sh) && s.chain == [] && s.dropped == {} && p in s.adopted
    ensures s.deleted[p] == 1 && s.sh.mem == map[]
  {
    ReachableInv(s);
    assert forall q :: !Alive(s, q);
    assert s.sh.mem == map[];
  }

  /** A promise can be run exactly until the scope is exited. */
  lemma AcquiresUntilExit(s: State, h: Ptr)
    requires Reachable(s) && Enabled(s, Acquire(h))
    ensures h in Next(s, Acquire(h)).running <==> !Exited(s.sh)
  {
    ReachableInv(s);
  }

  // ------------------------------------------------------------------------ clean-up

  ghost predicate IsCleanup(step: Step) {
    step.DeleteDropped? || step.DeleteChain? || step.FreeState?
  }

  ghost function Work(s: State): nat {
    |s.chain| + |s.dropped| + s.pendingFree
  }

  /** Every deletion lowers the outstanding work by exactly one, and while there is work
      some deletion can be done. */
  lemma CleanupProgress(s: State, step: Step)
    requires Inv(s) && Enabled(s, step) && IsCleanup(step) && Safe(s, step)
    ensures Work(Next(s, step)) == Work(s) - 1
  {
    HeadAlive(s);
  }

  lemma WorkHasStep(s: State) returns (step: Step)
    requires Inv(s) && Work(s) > 0
    ensures Enabled(s, step) && IsCleanup(step)
  {
    if s.chain != [] {
      step := DeleteChain;
    } else if h :| h in s.dropped {
      step := DeleteDropped(h);
    } else {
      assert s.dropped == {};
      step := FreeState;
    }
  }

  /** Once the scope is destroyed, its handles are dropped and the deletions are done, every
      promise that was ever adopted was destroyed exactly once, and so was the state. */
  lemma CleanedUp(s: State)
    requires Reachable(s) && s.sh.destroyed && s.handles == {} && Work(s) == 0
    ensures s.sh.mem == map[] && s.frees == 1 && s.deleted == multiset(s.adopted)
  {
    ReachableInv(s);
    assert forall p :: !Alive(s, p);
    assert s.sh.mem == map[];
  }

  /** The deletions reach that point from any state after the scope's destructor. */
  lemma {:induction false} CleanupTerminates(s: State) returns (s': State)
    requires Reachable(s) && s.sh.destroyed && s.handles == {}
    ensures Reachable(s') && s'.adopted == s.adopted && s'.deleted == multiset(s.adopted) && s'.frees == 1
    decreases Work(s)
  {
    ReachableInv(s);
    if Work(s) == 0 {
      CleanedUp(s);
      s' := s;
    } else {
      var step := WorkHasStep(s);
      NoDanglingPointer(s, step);
      CleanupProgress(s, step);
      s' := CleanupTerminates(Next(s, step));
    }
  }

  // ------------------------------------------------------------------- the class

  /** The state object.  Memory is a field, so that every pointer the methods follow has to
      be shown to lead to a holder that is alive; list names the holders head leads to. */
  class ScopeState {
    var mem: Memory
    var head: Ptr
    var handleCount: nat
    var counter: nat
    var destroyed: bool

    ghost function View(): Shared
      reads this
    {
      Shared(mem, head, handleCount, counter, destroyed)
    }

    constructor ()
      ensures View() == INIT.sh
    {
      mem, head, handleCount, counter, destroyed := map[], 0, 0, 0, false;
    }

    predicate HasExited()
      reads this
    {
      counter >= SCOPE_EXITED
    }

    /** A null result is the invalid handle of an aborted promise. */
    method AdoptPromise(h: Ptr, ghost list: seq<Ptr>) returns (handle: Ptr)
      requires Linked(mem, head, list) && !destroyed && h in mem && mem[h] == Node(0, 0) && h !in list && h != 0
      modifies this
      ensures View() == Deleted(AdoptShared(old(View()), h), if old(HasExited()) then {h} else {})
      ensures if old(HasExited())
              then handle == 0 && mem == old(mem) - {h} && head == old(head) && handleCount == old(handleCount)
              else handle == h && Linked(mem, head, [h] + list) && mem.Keys == old(mem).Keys
                   && handleCount == old(handleCount) + 1
                   && forall p :: p in old(mem) && p != h && p !in list ==> mem[p] == old(mem)[p]
    {
      if !HasExited() {
        PushFrontLinks(mem, head, list, h);
        if head != 0 {
          mem := mem[head := mem[head].(prev := h)];
          mem := mem[h := mem[h].(next := head)];
        }
        head := h;
        handleCount := handleCount + 1;
        return h;
      }
      mem := mem - {h};
      return 0;
    }

    /** The result says that the caller deletes the state. */
    method DropPromise(h: Ptr, ghost list: seq<Ptr>, ghost k: nat) returns (deleteSelf: bool)
      requires h != 0 ==> 0 < handleCount
      requires h != 0 && !HasExited() ==> Linked(mem, head, list) && k < |list| && list[k] == h
      modifies this
      ensures h == 0 ==> View() == old(View())
      ensures h != 0 && old(HasExited()) ==> View() == DropShared(old(View()), h)
      ensures h != 0 && !old(HasExited()) ==>
                (LinkedNeighbours(old(mem), old(head), list, k); View() == Deleted(DropShared(old(View()), h), {h}))
      ensures h != 0 && !old(HasExited()) ==>
                && Linked(mem, head, Without(list, k)) && mem.Keys == old(mem).Keys - {h}
                && forall p :: p in mem && p !in list ==> mem[p] == old(mem)[p]
      ensures deleteSelf <==> h != 0 && old(HasExited()) && destroyed && handleCount == 0
    {
      deleteSelf := false;
      if h == 0 {
        return;
      }
      handleCount := handleCount - 1;
      if !HasExited() {
        UnlinkLinks(mem, head, list, k);
        UnlinkFrame(mem, head, list, k);
        ghost var unlinked := Unlink(mem, head, h);
        var node := mem[h];
        if node.next != 0 {
          mem := mem[node.next := mem[node.next].(prev := node.prev)];
        }
        if node.prev != 0 {
          mem := mem[node.prev := mem[node.prev].(next := node.next)];
        } else {
          head := node.next;
        }
        assert (mem, head) == unlinked;
        WithoutDistinct(list, k);
        LinkedElsewhere(mem, mem - {h}, head, Without(list, k));
        mem := mem - {h};
      } else if destroyed && handleCount == 0 {
        deleteSelf := true;
      }
    }

    method TryAcquirePromise(h: Ptr) returns (holder: Ptr)
      modifies this
      ensures holder == (if h != 0 && !old(HasExited()) then h else 0)
      ensures View() == old(View()).(counter := if holder != 0 then old(counter) + 1 else old(counter))
    {
      if h != 0 {
        var prior := counter;
        counter := counter + 1;
        if prior < SCOPE_EXITED {
          return h;
        }
        counter := counter - 1;
      }
      return 0;
    }

    method ReleasePromise()
      requires counter > 0
      modifies this
      ensures View() == old(View()).(counter := old(counter) - 1)
    {
      counter := counter - 1;
    }

    /** The first exit deletes every linked promise, from the head on, and a later one none. */
    method ExitScope(destroy: bool, ghost list: seq<Ptr>) returns (deleted: seq<Ptr>, deleteSelf: bool)
      requires !destroyed && Linked(mem, head, list) && (!HasExited() ==> counter == 0)
      modifies this
      ensures View() == Deleted(ExitShared(old(View()), destroy), set p | p in deleted)
      ensures deleted == if old(HasExited()) then [] else list
      ensures deleteSelf <==> destroy && handleCount == 0
    {
      var releaseHead := 0;
      ghost var chain: seq<Ptr> := [];
      destroyed := destroy;
      var prior := counter;
      counter := SCOPE_EXITED;
      if prior < SCOPE_EXITED {
        releaseHead := head;
        head := 0;
        chain := list;
      }
      deleteSelf := destroyed && handleCount == 0;
      deleted := [];
      assert Chained(mem, releaseHead, chain) by {
        forall i | 0 <= i < |chain|
          ensures NextOk(mem, chain, i)
        {
          assert NodeOk(mem, list, i);
        }
      }
      ghost var doomed := chain;
      while releaseHead != 0
        invariant doomed == deleted + chain && Chained(mem, releaseHead, chain)
        invariant mem == old(mem) - (set p | p in deleted)
        invariant counter == SCOPE_EXITED && destroyed == destroy && handleCount == old(handleCount)
        invariant head == if old(HasExited()) then old(head) else 0
        decreases |chain|
      {
        var releaseNext := mem[releaseHead].next;
        ChainTail(mem, releaseHead, chain);
        deleted := deleted + [releaseHead];
        mem := mem - {releaseHead};
        chain := chain[1..];
        releaseHead := releaseNext;
      }
    }
  }
}
