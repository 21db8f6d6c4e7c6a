/**
 * The reader/writer file lock (file-lock/file-lock.cc): holders, two maps of waiting
 * requests, and completers that are run when a request is decided.
 */
module FileLock {
  import opened Arithmetic

  /** The kernel object id of a client; 0 is the invalid id. */
  type Koid = nat

  const INVALID: Koid := 0

  /** The name of a request's completer. */
  type Completer = nat

  datatype LockType = READ | WRITE | UNLOCK

  datatype Request = Request(kind: LockType, wait: bool)

  datatype Status = OK | SHOULD_WAIT | BAD_STATE | CANCELED

  /** A completer was run with this status. */
  datatype Completion = Completion(completer: Completer, status: Status)

  type Waiting = map<Koid, Completer>

  datatype State = State(exclusive: Koid, shared: set<Koid>, pendingShared: Waiting, pendingExclusive: Waiting)

  const INITIAL: State := State(INVALID, {}, map[], map[])

  // ------------------------------------------------------------------ ordered maps

  ghost predicate IsLeast(k: Koid, keys: set<Koid>) {
    k in keys && forall j :: j in keys ==> k <= j
  }

  lemma {:induction false} LeastExists(keys: set<Koid>)
    requires keys != {}
    ensures exists k :: IsLeast(k, keys)
    decreases |keys|
  {
    var k :| k in keys;
    var rest := keys - {k};
    if rest == {} {
      assert keys == {k};
      assert IsLeast(k, keys);
    } else {
      assert rest < keys;
      LeastExists(rest);
      var m :| IsLeast(m, rest);
      assert keys == rest + {k};
      assert IsLeast(if k <= m then k else m, keys);
    }
  }

  /** begin() of an ordered map. */
  function First(keys: set<Koid>): (k: Koid)
    requires keys != {}
    ensures IsLeast(k, keys)
  {
    LeastExists(keys);
    assert forall x, y :: IsLeast(x, keys) && IsLeast(y, keys) ==> x == y;
    var k :| k in keys && forall j | j in keys :: k <= j;
    k
  }

  /** The completer of every waiting request is run, in the order of the map. */
  function Told(waiting: Waiting, status: Status): seq<Completion>
    decreases |waiting|
  {
    if waiting == map[] then []
    else
      var k := First(waiting.Keys);
      assert |(waiting - {k}).Keys| == |waiting.Keys - {k}| by { assert (waiting - {k}).Keys == waiting.Keys - {k}; }
      [Completion(waiting[k], status)] + Told(waiting - {k}, status)
  }

  // -------------------------------------------------------------------- operations

  predicate LockInProgress(s: State, owner: Koid) {
    owner in s.pendingExclusive || owner in s.pendingShared
  }

  predicate NoLocksHeld(s: State) {
    s.exclusive == INVALID && s.shared == {} && s.pendingExclusive == map[] && s.pendingShared == map[]
  }

  predicate Holds(s: State, owner: Koid) {
    owner == s.exclusive || owner in s.shared
  }

  /** All waiting readers become holders. */
  function AdmitReaders(s: State): (State, seq<Completion>) {
    (s.(exclusive := INVALID, shared := s.shared + s.pendingShared.Keys, pendingShared := map[]),
     Told(s.pendingShared, OK))
  }

  /** The first waiting writer, if there is one, becomes the holder. */
  function AdmitWriter(s: State): (State, seq<Completion>) {
    if s.pendingExclusive == map[] then (s.(exclusive := INVALID), [])
    else
      var k := First(s.pendingExclusive.Keys);
      (s.(exclusive := k, pendingExclusive := s.pendingExclusive - {k}), [Completion(s.pendingExclusive[k], OK)])
  }

  /** The writer unlocks: the more numerous kind of waiting request goes next, writers on a tie. */
  function ReleaseExclusive(s: State): (State, seq<Completion>) {
    if |s.pendingShared| > |s.pendingExclusive| then AdmitReaders(s) else AdmitWriter(s)
  }

  function ReleaseShared(s: State, owner: Koid): (State, seq<Completion>) {
    var s1 := s.(shared := s.shared - {owner});
    if s1.shared == {} then AdmitWriter(s1) else (s1, [])
  }

  /** Waits if the client agreed to; otherwise it is told that it would have had to. */
  function WaitShared(s: State, owner: Koid, wait: bool, c: Completer): (State, seq<Completion>) {
    if wait then (s.(pendingShared := s.pendingShared[owner := c]), []) else (s, [Completion(c, SHOULD_WAIT)])
  }

  function WaitExclusive(s: State, owner: Koid, wait: bool, c: Completer): (State, seq<Completion>) {
    if wait then (s.(pendingExclusive := s.pendingExclusive[owner := c]), []) else (s, [Completion(c, SHOULD_WAIT)])
  }

  /** A writer that reads from now on lets the waiting readers in. */
  function Downgrade(s: State, owner: Koid): (State, seq<Completion>) {
    AdmitReaders(s.(shared := s.shared + {owner}))
  }

  /** A reader that wants to write gives up its read lock first, whatever comes of it. */
  function Upgrade(s: State, owner: Koid, wait: bool, c: Completer): (State, seq<Completion>) {
    var s1 := s.(shared := s.shared - {owner});
    if s1.shared == {} then Done(s1.(exclusive := owner), c) else WaitExclusive(s1, owner, wait, c)
  }

  /** A request's own completer is run with OK after everybody it let in. */
  function AndDone(r: (State, seq<Completion>), c: Completer): (State, seq<Completion>) {
    (r.0, r.1 + [Completion(c, OK)])
  }

  function Done(s: State, c: Completer): (State, seq<Completion>) {
    (s, [Completion(c, OK)])
  }

  function LockByWriter(s: State, kind: LockType, c: Completer): (State, seq<Completion>) {
    match kind
    case READ => AndDone(Downgrade(s, s.exclusive), c)
    case WRITE => Done(s, c)
    case UNLOCK => AndDone(ReleaseExclusive(s), c)
  }

  function LockUnderWriter(s: State, owner: Koid, req: Request, c: Completer): (State, seq<Completion>) {
    match req.kind
    case READ => WaitShared(s, owner, req.wait, c)
    case WRITE => WaitExclusive(s, owner, req.wait, c)
    case UNLOCK => Done(s, c)
  }

  function LockWithoutWriter(s: State, owner: Koid, req: Request, c: Completer): (State, seq<Completion>) {
    match req.kind
    case READ => Done(s.(shared := s.shared + {owner}), c)
    case WRITE => Upgrade(s, owner, req.wait, c)
    case UNLOCK => if owner in s.shared then AndDone(ReleaseShared(s, owner), c) else Done(s, c)
  }

  /** The state after a request, and the completers it ran, in order. */
  function Lock(s: State, owner: Koid, req: Request, c: Completer): (State, seq<Completion>) {
    if LockInProgress(s, owner) then (s, [Completion(c, BAD_STATE)])
    else if s.exclusive == INVALID then LockWithoutWriter(s, owner, req, c)
    else if owner == s.exclusive then LockByWriter(s, req.kind, c)
    else LockUnderWriter(s, owner, req, c)
  }

  // ------------------------------------------------------------------------ safety

  /** The sets are disjoint; a writer excludes readers; readers wait only for a writer; and
      nobody waits for nothing. */
  ghost predicate Valid(s: State) {
    && INVALID !in s.shared && INVALID !in s.pendingShared && INVALID !in s.pendingExclusive
    && (s.exclusive != INVALID ==> s.shared == {})
    && s.exclusive !in s.pendingShared && s.exclusive !in s.pendingExclusive
    && s.shared !! s.pendingShared.Keys && s.shared !! s.pendingExclusive.Keys
    && s.pendingShared.Keys !! s.pendingExclusive.Keys
    && (s.pendingShared != map[] ==> s.exclusive != INVALID)
    && (s.pendingExclusive != map[] ==> s.exclusive != INVALID || s.shared != {})
  }

  lemma AdmitReadersValid(s: State)
    requires INVALID !in s.shared && INVALID !in s.pendingShared && INVALID !in s.pendingExclusive
    requires s.shared !! s.pendingExclusive.Keys && s.pendingShared.Keys !! s.pendingExclusive.Keys
    requires s.pendingExclusive != map[] ==> s.shared + s.pendingShared.Keys != {}
    ensures Valid(AdmitReaders(s).0)
  {
  }

  lemma AdmitWriterValid(s: State)
    requires INVALID !in s.pendingShared && INVALID !in s.pendingExclusive && s.shared == {}
    requires s.pendingShared.Keys !! s.pendingExclusive.Keys
              && (s.pendingShared != map[] ==> s.pendingExclusive != map[])
    ensures Valid(AdmitWriter(s).0)
  {
  }

  lemma ReleaseExclusiveValid(s: State)
    requires Valid(s) && s.exclusive != INVALID
    ensures Valid(ReleaseExclusive(s).0)
  {
    if |s.pendingShared| > |s.pendingExclusive| {
      assert s.pendingShared.Keys != {};
      AdmitReadersValid(s);
    } else {
      assert s.pendingShared != map[] ==> |s.pendingShared| > 0;
      AdmitWriterValid(s);
    }
  }

  lemma ReleaseSharedValid(s: State, owner: Koid)
    requires Valid(s) && owner in s.shared
    ensures Valid(ReleaseShared(s, owner).0)
  {
    if s.shared - {owner} == {} { AdmitWriterValid(s.(shared := s.shared - {owner})); }
  }

  lemma DowngradeValid(s: State)
    requires Valid(s) && s.exclusive != INVALID
    ensures Valid(Downgrade(s, s.exclusive).0)
  {
    var s1 := s.(shared := s.shared + {s.exclusive});
    assert s.exclusive in s1.shared + s1.pendingShared.Keys;
    AdmitReadersValid(s1);
  }

  lemma UpgradeValid(s: State, owner: Koid, wait: bool, c: Completer)
    requires Valid(s) && s.exclusive == INVALID && owner != INVALID && !LockInProgress(s, owner)
    ensures Valid(Upgrade(s, owner, wait, c).0)
  {
  }

  lemma WaitValid(s: State, owner: Koid, wait: bool, c: Completer)
    requires Valid(s) && s.exclusive != INVALID && owner != INVALID && owner != s.exclusive && !LockInProgress(s, owner)
    ensures Valid(WaitShared(s, owner, wait, c).0) && Valid(WaitExclusive(s, owner, wait, c).0)
  {
  }

  /** Every request, granted or not, keeps the lock's invariant. */
  lemma LockValid(s: State, owner: Koid, req: Request, c: Completer)
    requires Valid(s) && owner != INVALID
    ensures Valid(Lock(s, owner, req, c).0)
  {
    if !LockInProgress(s, owner) {
      if s.exclusive == owner {
        DowngradeValid(s);
        ReleaseExclusiveValid(s);
      } else if s.exclusive != INVALID {
        WaitValid(s, owner, req.wait, c);
      } else if req.kind == WRITE {
        UpgradeValid(s, owner, req.wait, c);
      } else if owner in s.shared {
        ReleaseSharedValid(s, owner);
      }
    }
  }

  // ------------------------------------------------------------- completed exactly once

  ghost function StoredIn(waiting: Waiting, c: Completer): set<Koid> {
    set k | k in waiting && waiting[k] == c
  }

  /** How often a completer is stored, and how often it was run. */
  ghost function Stored(s: State, c: Completer): nat {
    |StoredIn(s.pendingShared, c)| + |StoredIn(s.pendingExclusive, c)|
  }

  ghost function Ran(log: seq<Completion>, c: Completer): nat
  {
    if log == [] then 0 else One(log[0].completer == c) + Ran(log[1..], c)
  }

  lemma RanOne(x: Completion, c: Completer)
    ensures Ran([x], c) == One(x.completer == c)
  {
    assert [x][1..] == [];
  }

  lemma {:induction false} RanAppend(a: seq<Completion>, b: seq<Completion>, c: Completer)
    ensures Ran(a + b, c) == Ran(a, c) + Ran(b, c)
  {
    if a == [] {
      assert a + b == b;
    } else {
      assert (a + b)[1..] == a[1..] + b;
      RanAppend(a[1..], b, c);
    }
  }

  lemma StoredRemoved(waiting: Waiting, k: Koid, c: Completer)
    requires k in waiting
    ensures |StoredIn(waiting, c)| == |StoredIn(waiting - {k}, c)| + One(waiting[k] == c)
  {
    if waiting[k] == c {
      assert StoredIn(waiting, c) == StoredIn(waiting - {k}, c) + {k};
    } else {
      assert StoredIn(waiting, c) == StoredIn(waiting - {k}, c);
    }
  }

  lemma StoredAdded(waiting: Waiting, k: Koid, x: Completer, c: Completer)
    requires k !in waiting
    ensures |StoredIn(waiting[k := x], c)| == |StoredIn(waiting, c)| + One(x == c)
  {
    assert waiting[k := x] - {k} == waiting;
    StoredRemoved(waiting[k := x], k, c);
  }

  lemma {:induction false} TellsAll(waiting: Waiting, status: Status, c: Completer)
    ensures Ran(Told(waiting, status), c) == |StoredIn(waiting, c)|
    ensures forall i :: 0 <= i < |Told(waiting, status)| ==> Told(waiting, status)[i].status == status
    decreases |waiting|
  {
    if waiting == map[] {
      assert StoredIn(waiting, c) == {};
    } else {
      var k := First(waiting.Keys);
      assert (waiting - {k}).Keys == waiting.Keys - {k};
      StoredRemoved(waiting, k, c);
      TellsAll(waiting - {k}, status, c);
      assert Told(waiting, status)[1..] == Told(waiting - {k}, status);
    }
  }

  lemma AdmitReadersRuns(s: State, c: Completer)
    ensures Due(AdmitReaders(s), c) == Stored(s, c)
  {
    TellsAll(s.pendingShared, OK, c);
    assert StoredIn(map[], c) == {};
  }

  lemma AdmitWriterRuns(s: State, c: Completer)
    ensures Due(AdmitWriter(s), c) == Stored(s, c)
  {
    if s.pendingExclusive != map[] {
      var k := First(s.pendingExclusive.Keys);
      StoredRemoved(s.pendingExclusive, k, c);
      RanOne(Completion(s.pendingExclusive[k], OK), c);
    }
  }

  /** Completers run plus completers stored: what a request must conserve. */
  ghost function Due(r: (State, seq<Completion>), c: Completer): nat {
    Ran(r.1, c) + Stored(r.0, c)
  }

  lemma AndDoneRuns(r: (State, seq<Completion>), mine: Completer, c: Completer)
    ensures Due(AndDone(r, mine), c) == Due(r, c) + One(mine == c)
  {
    RanAppend(r.1, [Completion(mine, OK)], c);
    RanOne(Completion(mine, OK), c);
  }

  lemma DoneRuns(s: State, mine: Completer, c: Completer)
    ensures Due(Done(s, mine), c) == Stored(s, c) + One(mine == c)
  {
    RanOne(Completion(mine, OK), c);
  }

  lemma ReleaseRuns(s: State, owner: Koid, c: Completer)
    ensures Due(ReleaseExclusive(s), c) == Stored(s, c)
    ensures Due(Downgrade(s, owner), c) == Stored(s, c)
  {
    AdmitReadersRuns(s, c);
    AdmitWriterRuns(s, c);
    AdmitReadersRuns(s.(shared := s.shared + {owner}), c);
  }

  lemma ReleaseSharedRuns(s: State, owner: Koid, c: Completer)
    ensures Due(ReleaseShared(s, owner), c) == Stored(s, c)
  {
    var s1 := s.(shared := s.shared - {owner});
    assert Stored(s1, c) == Stored(s, c);
    AdmitWriterRuns(s1, c);
  }

  lemma WaitRuns(s: State, owner: Koid, wait: bool, mine: Completer, c: Completer)
    requires !LockInProgress(s, owner)
    ensures Due(WaitShared(s, owner, wait, mine), c) == Stored(s, c) + One(mine == c)
    ensures Due(WaitExclusive(s, owner, wait, mine), c) == Stored(s, c) + One(mine == c)
  {
    StoredAdded(s.pendingShared, owner, mine, c);
    StoredAdded(s.pendingExclusive, owner, mine, c);
    RanOne(Completion(mine, SHOULD_WAIT), c);
  }

  lemma ByWriterRuns(s: State, kind: LockType, mine: Completer, c: Completer)
    ensures Due(LockByWriter(s, kind, mine), c) == Stored(s, c) + One(mine == c)
  {
    ReleaseRuns(s, s.exclusive, c);
    AndDoneRuns(Downgrade(s, s.exclusive), mine, c);
    DoneRuns(s, mine, c);
    AndDoneRuns(ReleaseExclusive(s), mine, c);
  }

  lemma UnderWriterRuns(s: State, owner: Koid, req: Request, mine: Completer, c: Completer)
    requires !LockInProgress(s, owner)
    ensures Due(LockUnderWriter(s, owner, req, mine), c) == Stored(s, c) + One(mine == c)
  {
    WaitRuns(s, owner, req.wait, mine, c);
    DoneRuns(s, mine, c);
  }

  lemma WithoutWriterRuns(s: State, owner: Koid, req: Request, mine: Completer, c: Completer)
    requires !LockInProgress(s, owner)
    ensures Due(LockWithoutWriter(s, owner, req, mine), c) == Stored(s, c) + One(mine == c)
  {
    match req.kind {
      case READ => DoneRuns(s.(shared := s.shared + {owner}), mine, c);
      case WRITE =>
        WaitRuns(s.(shared := s.shared - {owner}), owner, req.wait, mine, c);
        DoneRuns(s.(shared := {}, exclusive := owner), mine, c);
      case UNLOCK =>
        ReleaseSharedRuns(s, owner, c);
        AndDoneRuns(ReleaseShared(s, owner), mine, c);
        DoneRuns(s, mine, c);
    }
  }

  /** Whatever a request does, each completer is run as often as it stops being stored or was
      just passed in: none is lost and none is run twice. */
  lemma LockRuns(s: State, owner: Koid, req: Request, mine: Completer, c: Completer)
    ensures Due(Lock(s, owner, req, mine), c) == Stored(s, c) + One(mine == c)
  {
    if LockInProgress(s, owner) {
      RanOne(Completion(mine, BAD_STATE), c);
    } else if s.exclusive == INVALID {
      WithoutWriterRuns(s, owner, req, mine, c);
    } else if owner == s.exclusive {
      ByWriterRuns(s, req.kind, mine, c);
    } else {
      UnderWriterRuns(s, owner, req, mine, c);
    }
  }

  // -------------------------------------------------------------------- all runs

  datatype Call = Call(owner: Koid, req: Request, completer: Completer)

  ghost function Run(s: State, calls: seq<Call>): (State, seq<Completion>)
    decreases |calls|
  {
    if calls == [] then (s, [])
    else
      var (s1, log) := Lock(s, calls[0].owner, calls[0].req, calls[0].completer);
      var (s2, more) := Run(s1, calls[1..]);
      (s2, log + more)
  }

  ghost function Submitted(calls: seq<Call>, c: Completer): nat
    decreases |calls|
  {
    if calls == [] then 0 else One(calls[0].completer == c) + Submitted(calls[1..], c)
  }

  lemma {:induction false} RunKeeps(s: State, calls: seq<Call>, c: Completer)
    requires Valid(s) && forall i :: 0 <= i < |calls| ==> calls[i].owner != INVALID
    ensures Valid(Run(s, calls).0)
    ensures Ran(Run(s, calls).1, c) + Stored(Run(s, calls).0, c) == Stored(s, c) + Submitted(calls, c)
    decreases |calls|
  {
    if calls != [] {
      var Call(owner, req, mine) := calls[0];
      LockValid(s, owner, req, mine);
      LockRuns(s, owner, req, mine, c);
      var (s1, log) := Lock(s, owner, req, mine);
      RunKeeps(s1, calls[1..], c);
      RanAppend(log, Run(s1, calls[1..]).1, c);
    }
  }

  /** From an unlocked file, over any requests of valid clients: the invariant holds, so a
      writer excludes everybody else and any waiter waits for a holder; and a completer that
      was passed once has either been run exactly once or is stored exactly once. */
  lemma LockSafety(calls: seq<Call>, c: Completer)
    requires forall i :: 0 <= i < |calls| ==> calls[i].owner != INVALID
    ensures Valid(Run(INITIAL, calls).0)
    ensures Ran(Run(INITIAL, calls).1, c) + Stored(Run(INITIAL, calls).0, c) == Submitted(calls, c)
  {
    assert StoredIn(map[], c) == {};
    RunKeeps(INITIAL, calls, c);
  }

  // ------------------------------------------------------------------------- drain

  ghost function Size(s: State): nat {
    One(s.exclusive != INVALID) + |s.shared| + |s.pendingShared| + |s.pendingExclusive|
  }

  lemma AdmitReadersSize(s: State)
    requires Valid(s) && s.exclusive != INVALID
    ensures Size(AdmitReaders(s).0) == Size(s) - 1
  {
    assert |s.shared + s.pendingShared.Keys| == |s.shared| + |s.pendingShared.Keys|;
  }

  lemma AdmitWriterSize(s: State)
    ensures Size(AdmitWriter(s).0) == Size(s) - One(s.exclusive != INVALID) || INVALID in s.pendingExclusive
  {
    if s.pendingExclusive != map[] {
      var k := First(s.pendingExclusive.Keys);
      assert (s.pendingExclusive - {k}).Keys == s.pendingExclusive.Keys - {k};
    }
  }

  ghost predicate AllOk(log: seq<Completion>) {
    forall i :: 0 <= i < |log| ==> log[i].status == OK
  }

  lemma WriterUnlocks(s: State)
    requires Valid(s) && s.exclusive != INVALID
    ensures Size(ReleaseExclusive(s).0) == Size(s) - 1 && AllOk(ReleaseExclusive(s).1)
  {
    TellsAll(s.pendingShared, OK, 0);
    AdmitReadersSize(s);
    AdmitWriterSize(s);
  }

  lemma ReaderUnlocks(s: State, owner: Koid)
    requires Valid(s) && owner in s.shared
    ensures Size(ReleaseShared(s, owner).0) == Size(s) - 1 && AllOk(ReleaseShared(s, owner).1)
  {
    AdmitWriterSize(s.(shared := s.shared - {owner}));
  }

  /** An unlock by a holder takes exactly one client out of the lock and tells everybody it
      wakes that they have it. */
  lemma HolderUnlocks(s: State, owner: Koid, wait: bool, c: Completer)
    requires Valid(s) && owner != INVALID && Holds(s, owner)
    ensures Size(Lock(s, owner, Request(UNLOCK, wait), c).0) == Size(s) - 1
    ensures AllOk(Lock(s, owner, Request(UNLOCK, wait), c).1)
  {
    if owner == s.exclusive { WriterUnlocks(s); } else { ReaderUnlocks(s, owner); }
  }

  /** After an unlock that was not refused, the client has no part in the lock. */
  lemma UnlockLeaves(s: State, owner: Koid, wait: bool, c: Completer)
    requires Valid(s) && owner != INVALID && !LockInProgress(s, owner)
    ensures var s' := Lock(s, owner, Request(UNLOCK, wait), c).0; !Holds(s', owner) && !LockInProgress(s', owner)
  {
  }

  /** Nobody else's lock stands against the request. */
  predicate Compatible(s: State, owner: Koid, kind: LockType) {
    match kind
    case READ => s.exclusive == INVALID || s.exclusive == owner
    case WRITE => s.exclusive == owner || (s.exclusive == INVALID && s.shared <= {owner})
    case UNLOCK => true
  }

  ghost predicate Got(s: State, owner: Koid, kind: LockType) {
    match kind
    case READ => owner in s.shared && s.exclusive == INVALID
    case WRITE => s.exclusive == owner
    case UNLOCK => !Holds(s, owner)
  }

  lemma DowngradeGrants(s: State, c: Completer)
    requires Valid(s) && s.exclusive != INVALID
    ensures var (s', log) := AndDone(Downgrade(s, s.exclusive), c);
            log[|log| - 1] == Completion(c, OK) && AllOk(log) && Got(s', s.exclusive, READ)
                && !LockInProgress(s', s.exclusive)
  {
    TellsAll(s.pendingShared, OK, c);
  }

  /** The answer to a granted request: its own completer is run last, all with OK. */
  ghost predicate Granting(r: (State, seq<Completion>), owner: Koid, kind: LockType, c: Completer) {
    && r.1 != [] && r.1[|r.1| - 1] == Completion(c, OK) && AllOk(r.1)
    && Got(r.0, owner, kind) && !LockInProgress(r.0, owner)
  }

  lemma UnlockGranted(s: State, owner: Koid, wait: bool, c: Completer)
    requires Valid(s) && owner != INVALID && !LockInProgress(s, owner)
    ensures Granting(Lock(s, owner, Request(UNLOCK, wait), c), owner, UNLOCK, c)
  {
    var r := Lock(s, owner, Request(UNLOCK, wait), c);
    assert Got(r.0, owner, UNLOCK) && !LockInProgress(r.0, owner) by { UnlockLeaves(s, owner, wait, c); }
    if !Holds(s, owner) {
      assert r == Done(s, c);
      return;
    }
    assert AllOk(r.1) by { HolderUnlocks(s, owner, wait, c); }
    if s.exclusive == owner {
      assert r == AndDone(ReleaseExclusive(s), c);
      return;
    }
    assert r == AndDone(ReleaseShared(s, owner), c);
  }

  lemma ReadGranted(s: State, owner: Koid, wait: bool, c: Completer)
    requires Valid(s) && owner != INVALID && !LockInProgress(s, owner) && Compatible(s, owner, READ)
    ensures Granting(Lock(s, owner, Request(READ, wait), c), owner, READ, c)
  {
    if s.exclusive == owner { DowngradeGrants(s, c); }
  }

  lemma WriteGranted(s: State, owner: Koid, wait: bool, c: Completer)
    requires Valid(s) && owner != INVALID && !LockInProgress(s, owner) && Compatible(s, owner, WRITE)
    ensures Granting(Lock(s, owner, Request(WRITE, wait), c), owner, WRITE, c)
  {
    if s.exclusive != owner { assert s.shared - {owner} == {}; }
  }

  /** A request that no other lock stands against is granted. */
  lemma CompatibleGranted(s: State, owner: Koid, req: Request, c: Completer)
    requires Valid(s) && owner != INVALID && !LockInProgress(s, owner) && Compatible(s, owner, req.kind)
    ensures Granting(Lock(s, owner, req, c), owner, req.kind, c)
  {
    match req.kind {
      case READ => ReadGranted(s, owner, req.wait, c);
      case WRITE => WriteGranted(s, owner, req.wait, c);
      case UNLOCK => UnlockGranted(s, owner, req.wait, c);
    }
  }

  ghost function StoredIf(waiting: Waiting, stored: bool, owner: Koid, c: Completer): Waiting {
    if stored then waiting[owner := c] else waiting
  }

  /** Any other request is stored or told to wait; the client has lost the lock it had, and
      nobody else's changes. */
  lemma IncompatibleWaits(s: State, owner: Koid, req: Request, c: Completer)
    requires Valid(s) && owner != INVALID && !LockInProgress(s, owner) && !Compatible(s, owner, req.kind)
    ensures var (s', log) := Lock(s, owner, req, c);
            && s'.exclusive == s.exclusive && s'.shared == s.shared - {owner} && !Holds(s', owner)
            && s'.pendingShared == StoredIf(s.pendingShared, req.wait && req.kind == READ, owner, c)
            && s'.pendingExclusive == StoredIf(s.pendingExclusive, req.wait && req.kind == WRITE, owner, c)
            && log == if req.wait then [] else [Completion(c, SHOULD_WAIT)]
  {
    if s.exclusive != INVALID {
      assert s.shared - {owner} == s.shared;
    } else {
      assert s.shared - {owner} != {};
    }
  }

  /** A client that waits is refused, and nothing changes. */
  lemma WaitingRefused(s: State, owner: Koid, req: Request, c: Completer)
    requires Valid(s) && LockInProgress(s, owner)
    ensures Lock(s, owner, req, c) == (s, [Completion(c, BAD_STATE)])
  {
  }

  // ------------------------------------------------------------- who gets in, and in which order

  /** How many of the keys come before k. */
  ghost function Rank(keys: set<Koid>, k: Koid): nat {
    |set j | j in keys && j < k|
  }

  /** Every waiting request is told, each at the place of its client in the order of the ids. */
  ghost predicate ToldInOrder(log: seq<Completion>, waiting: Waiting, status: Status) {
    && |log| == |waiting|
    && forall k :: k in waiting ==>
         Rank(waiting.Keys, k) < |log| && log[Rank(waiting.Keys, k)] == Completion(waiting[k], status)
  }

  lemma RankAfterFirst(keys: set<Koid>, k: Koid)
    requires k in keys
    ensures var first := First(keys);
            if k == first then Rank(keys, k) == 0 else Rank(keys, k) == Rank(keys - {first}, k) + 1
  {
    var first := First(keys);
    var below := set j | j in keys && j < k;
    if k == first {
      assert below == {};
    } else {
      assert below == (set j | j in keys - {first} && j < k) + {first};
    }
  }

  lemma {:induction false} TellsInOrder(waiting: Waiting, status: Status)
    ensures ToldInOrder(Told(waiting, status), waiting, status)
    decreases |waiting|
  {
    if waiting == map[] {
      return;
    }
    var first := First(waiting.Keys);
    var rest := waiting - {first};
    assert rest.Keys == waiting.Keys - {first};
    TellsInOrder(rest, status);
    forall k | k in waiting
      ensures Rank(waiting.Keys, k) < |Told(waiting, status)|
      ensures Told(waiting, status)[Rank(waiting.Keys, k)] == Completion(waiting[k], status)
    {
      RankAfterFirst(waiting.Keys, k);
      if k != first { assert k in rest; }
    }
  }

  /** The waiting writer with the least id gets the lock and is told first; nobody else moves. */
  ghost predicate WriterAdmitted(s: State, s': State, log: seq<Completion>, c: Completer) {
    exists k :: IsLeast(k, s.pendingExclusive.Keys) && AdmittedAs(s, s', log, c, k)
  }

  ghost predicate AdmittedAs(s: State, s': State, log: seq<Completion>, c: Completer, k: Koid)
    requires k in s.pendingExclusive
  {
    && s' == State(k, {}, s.pendingShared, s.pendingExclusive - {k})
    && log == [Completion(s.pendingExclusive[k], OK), Completion(c, OK)]
  }

  lemma AdmitsLeastWriter(s: State, c: Completer)
    requires s.pendingExclusive != map[] && s.shared == {}
    ensures var (s', log) := AndDone(AdmitWriter(s), c); WriterAdmitted(s, s', log, c)
  {
    var k := First(s.pendingExclusive.Keys);
    var (s', log) := AndDone(AdmitWriter(s), c);
    assert AdmittedAs(s, s', log, c, k);
  }

  lemma ToldThenDone(waiting: Waiting, c: Completer)
    ensures var log := Told(waiting, OK) + [Completion(c, OK)];
            && |log| == |waiting| + 1 && log[|waiting|] == Completion(c, OK)
            && ToldInOrder(log[..|waiting|], waiting, OK)
  {
    TellsInOrder(waiting, OK);
    var told := Told(waiting, OK);
    assert (told + [Completion(c, OK)])[..|told|] == told;
  }

  /** When the writer unlocks: with more waiting readers than writers exactly all waiting readers
      hold the lock, told in the order of their ids; otherwise the least waiting writer, while the
      readers go on waiting; and with nobody waiting the lock is free. */
  lemma WriterUnlockAdmits(s: State, wait: bool, c: Completer)
    requires Valid(s) && s.exclusive != INVALID
    ensures var (s', log) := Lock(s, s.exclusive, Request(UNLOCK, wait), c);
            if |s.pendingShared| > |s.pendingExclusive| then
              && s' == State(INVALID, s.pendingShared.Keys, map[], s.pendingExclusive)
              && |log| == |s.pendingShared| + 1 && log[|s.pendingShared|] == Completion(c, OK)
              && ToldInOrder(log[..|s.pendingShared|], s.pendingShared, OK)
            else if s.pendingExclusive != map[] then WriterAdmitted(s, s', log, c)
            else NoLocksHeld(s') && log == [Completion(c, OK)]
  {
    if |s.pendingShared| > |s.pendingExclusive| {
      ToldThenDone(s.pendingShared, c);
      assert s.shared + s.pendingShared.Keys == s.pendingShared.Keys;
    } else if s.pendingExclusive != map[] {
      AdmitsLeastWriter(s, c);
    } else {
      assert |s.pendingShared| == 0;
    }
  }

  /** When a reader unlocks: the last one lets the least waiting writer in, if there is one; the
      others just leave. */
  lemma ReaderUnlockAdmits(s: State, owner: Koid, wait: bool, c: Completer)
    requires Valid(s) && owner in s.shared
    ensures var (s', log) := Lock(s, owner, Request(UNLOCK, wait), c);
            if s.shared == {owner} && s.pendingExclusive != map[] then WriterAdmitted(s, s', log, c)
            else s' == s.(shared := s.shared - {owner}) && log == [Completion(c, OK)]
  {
    if s.shared == {owner} {
      assert s.shared - {owner} == {};
      if s.pendingExclusive != map[] { AdmitsLeastWriter(s.(shared := {}), c); }
    } else {
      assert s.shared == {owner} + (s.shared - {owner});
    }
  }

  /** A writer that asks to read lets all waiting readers in, told in the order of their ids. */
  lemma DowngradeAdmits(s: State, wait: bool, c: Completer)
    requires Valid(s) && s.exclusive != INVALID
    ensures var (s', log) := Lock(s, s.exclusive, Request(READ, wait), c);
            && s' == State(INVALID, s.pendingShared.Keys + {s.exclusive}, map[], s.pendingExclusive)
            && |log| == |s.pendingShared| + 1 && log[|s.pendingShared|] == Completion(c, OK)
            && ToldInOrder(log[..|s.pendingShared|], s.pendingShared, OK)
  {
    var told := Told(s.pendingShared, OK);
    assert s.shared + {s.exclusive} + s.pendingShared.Keys == s.pendingShared.Keys + {s.exclusive};
    assert Lock(s, s.exclusive, Request(READ, wait), c) ==
           (State(INVALID, s.pendingShared.Keys + {s.exclusive}, map[], s.pendingExclusive),
            told + [Completion(c, OK)]);
    ToldThenDone(s.pendingShared, c);
  }

  /** Every other request that is granted lets nobody in: it only gives the client what it asked. */
  lemma GrantMovesNobody(s: State, owner: Koid, req: Request, c: Completer)
    requires Valid(s) && owner != INVALID && !LockInProgress(s, owner) && Compatible(s, owner, req.kind)
    requires s.exclusive == owner ==> req.kind == WRITE
    requires req.kind == UNLOCK ==> !Holds(s, owner)
    ensures var (s', log) := Lock(s, owner, req, c);
            && log == [Completion(c, OK)]
            && s'.pendingShared == s.pendingShared && s'.pendingExclusive == s.pendingExclusive
            && match req.kind {
                 case READ => s'.exclusive == INVALID && s'.shared == s.shared + {owner}
                 case WRITE => s'.exclusive == owner && s'.shared == {}
                 case UNLOCK => s' == s
               }
  {
    if req.kind == WRITE && s.exclusive != owner { assert s.shared - {owner} == {}; }
  }

  lemma SomebodyHolds(s: State) returns (owner: Koid)
    requires Valid(s) && !NoLocksHeld(s)
    ensures owner != INVALID && Holds(s, owner)
  {
    if s.exclusive != INVALID {
      owner := s.exclusive;
    } else {
      assert s.shared != {};
      owner :| owner in s.shared;
    }
  }

  lemma EmptySize(s: State)
    requires Valid(s)
    ensures Size(s) == 0 <==> NoLocksHeld(s)
  {
    assert |s.shared| == 0 <==> s.shared == {};
    assert |s.pendingShared| == 0 <==> s.pendingShared == map[];
    assert |s.pendingExclusive| == 0 <==> s.pendingExclusive == map[];
  }

  /** Each call is an unlock by a client that holds the lock at that point. */
  ghost predicate HolderUnlockRun(s: State, calls: seq<Call>)
    decreases |calls|
  {
    calls == [] || (&& calls[0].owner != INVALID && Holds(s, calls[0].owner) && calls[0].req.kind == UNLOCK
                    && HolderUnlockRun(Lock(s, calls[0].owner, calls[0].req, calls[0].completer).0, calls[1..]))
  }

  lemma {:induction false} UnlockRunDrains(s: State, calls: seq<Call>, c: Completer)
    requires Valid(s) && HolderUnlockRun(s, calls)
    ensures |calls| <= Size(s) && Size(Run(s, calls).0) == Size(s) - |calls| && Valid(Run(s, calls).0)
    ensures AllOk(Run(s, calls).1)
    ensures Ran(Run(s, calls).1, c) + Stored(Run(s, calls).0, c) == Stored(s, c) + Submitted(calls, c)
    decreases |calls|
  {
    if calls != [] {
      var Call(owner, req, mine) := calls[0];
      assert req == Request(UNLOCK, req.wait);
      HolderUnlocks(s, owner, req.wait, mine);
      LockValid(s, owner, req, mine);
      LockRuns(s, owner, req, mine, c);
      var (s1, log) := Lock(s, owner, req, mine);
      UnlockRunDrains(s1, calls[1..], c);
      RanAppend(log, Run(s1, calls[1..]).1, c);
    }
  }

  /** As holders unlock one by one, the lock empties after exactly as many unlocks as there
      were holders and waiters, and by then every waiting request was granted once. */
  lemma DrainGrantsEverybody(s: State, calls: seq<Call>, c: Completer)
    requires Valid(s) && HolderUnlockRun(s, calls) && |calls| == Size(s)
    ensures NoLocksHeld(Run(s, calls).0)
    ensures Ran(Run(s, calls).1, c) == Stored(s, c) + Submitted(calls, c)
    ensures AllOk(Run(s, calls).1)
  {
    UnlockRunDrains(s, calls, c);
    EmptySize(Run(s, calls).0);
    assert StoredIn(map[], c) == {};
  }

  /** Such a run exists from every state: no waiter waits without a holder to unlock. */
  lemma {:induction false} DrainExists(s: State, c: Completer) returns (calls: seq<Call>)
    requires Valid(s)
    ensures HolderUnlockRun(s, calls) && |calls| == Size(s)
    decreases Size(s)
  {
    EmptySize(s);
    if NoLocksHeld(s) {
      calls := [];
    } else {
      var owner := SomebodyHolds(s);
      var call := Call(owner, Request(UNLOCK, false), c);
      HolderUnlocks(s, owner, false, c);
      LockValid(s, owner, call.req, c);
      var rest := DrainExists(Lock(s, owner, call.req, c).0, c);
      calls := [call] + rest;
      assert calls[1..] == rest;
    }
  }

  // -------------------------------------------------------------------- destruction

  /** Completers are one-shot: one that was invoked is empty, and invoking it again ends the
      process. */
  datatype Target = Armed(completer: Completer) | Emptied

  type Targets = map<Koid, Target>

  /** How the destructor ends, and the completers that were run until then. */
  datatype End = Returned(log: seq<Completion>) | Aborted(log: seq<Completion>)

  /** One loop that cancels the clients in keys, in order; it leaves the completers empty. */
  function Cancel(targets: Targets, keys: set<Koid>): (End, Targets)
    requires keys <= targets.Keys
    decreases |keys|
  {
    if keys == {} then (Returned([]), targets)
    else
      var k := First(keys);
      match targets[k]
      case Emptied => (Aborted([]), targets)
      case Armed(c) =>
        var (end, left) := Cancel(targets[k := Emptied], keys - {k});
        (end.(log := [Completion(c, CANCELED)] + end.log), left)
  }

  lemma {:induction false} CancelKeepsKeys(targets: Targets, keys: set<Koid>)
    requires keys <= targets.Keys
    ensures Cancel(targets, keys).1.Keys == targets.Keys
    decreases |keys|
  {
    if keys != {} {
      var k := First(keys);
      if targets[k].Armed? { CancelKeepsKeys(targets[k := Emptied], keys - {k}); }
    }
  }

  function Arm(waiting: Waiting): Targets {
    map k | k in waiting :: Armed(waiting[k])
  }

  /** The destructor, whose two loops both go over the waiting readers. */
  function Destroyed(s: State): End {
    var armed := Arm(s.pendingShared);
    var (first, left) := Cancel(armed, armed.Keys);
    if first.Aborted? then first
    else
      var second := Cancel(left, left.Keys).0;
      second.(log := first.log + second.log)
  }

  /** A loop over completers that were not invoked yet runs them all and empties them. */
  lemma {:induction false} CancelRuns(targets: Targets, waiting: Waiting)
    requires waiting.Keys <= targets.Keys && forall k :: k in waiting ==> targets[k] == Armed(waiting[k])
    ensures var (end, left) := Cancel(targets, waiting.Keys);
            && end == Returned(Told(waiting, CANCELED)) && left.Keys == targets.Keys
            && (forall k :: k in waiting ==> left[k] == Emptied)
            && (forall k :: k in targets && k !in waiting ==> left[k] == targets[k])
    decreases |waiting|
  {
    if waiting == map[] {
      assert waiting.Keys == {};
      return;
    }
    var k := First(waiting.Keys);
    var rest := waiting - {k};
    assert rest.Keys == waiting.Keys - {k};
    CancelRuns(targets[k := Emptied], rest);
  }

  /** So the second loop ends the process at the first waiting reader. */
  lemma DestroyedIs(s: State)
    ensures Destroyed(s) ==
              if s.pendingShared == map[] then Returned([]) else Aborted(Told(s.pendingShared, CANCELED))
  {
    var armed := Arm(s.pendingShared);
    assert armed.Keys == s.pendingShared.Keys;
    CancelRuns(armed, s.pendingShared);
    var (first, left) := Cancel(armed, armed.Keys);
    if s.pendingShared != map[] {
      var k := First(armed.Keys);
      assert left[k] == Emptied;
      assert first.log + [] == first.log;
    }
  }

  /** Over every run of requests: the destructor ends the process exactly if a reader waits, and by
      then every waiting reader was cancelled once, and nobody else. */
  lemma DestroyAbortsIff(calls: seq<Call>, c: Completer)
    requires forall i :: 0 <= i < |calls| ==> calls[i].owner != INVALID
    ensures var s := Run(INITIAL, calls).0;
            && (Destroyed(s).Aborted? <==> s.pendingShared != map[])
            && Ran(Destroyed(s).log, c) == |StoredIn(s.pendingShared, c)|
            && forall i :: 0 <= i < |Destroyed(s).log| ==> Destroyed(s).log[i].status == CANCELED
  {
    var s := Run(INITIAL, calls).0;
    DestroyedIs(s);
    TellsAll(s.pendingShared, CANCELED, c);
    if s.pendingShared == map[] { assert StoredIn(s.pendingShared, c) == {}; }
  }

  /** However it ends, a completer has been run as often as it was submitted, except that those of
      waiting writers never are. */
  lemma DestroyBalance(calls: seq<Call>, c: Completer)
    requires forall i :: 0 <= i < |calls| ==> calls[i].owner != INVALID
    ensures var (s, log) := Run(INITIAL, calls);
            Ran(log + Destroyed(s).log, c) + |StoredIn(s.pendingExclusive, c)| == Submitted(calls, c)
  {
    var (s, log) := Run(INITIAL, calls);
    LockSafety(calls, c);
    DestroyAbortsIff(calls, c);
    RanAppend(log, Destroyed(s).log, c);
  }

  lemma WaitsSomewhere(waiting: Waiting) returns (c: Completer)
    requires waiting != map[]
    ensures |StoredIn(waiting, c)| > 0
  {
    var k := First(waiting.Keys);
    c := waiting[k];
    assert k in StoredIn(waiting, c);
  }

  /** Over every run of requests, the destructor returns and every completer has been run as often
      as it was submitted if and only if nobody waits; without the return, if and only if no
      writer waits. */
  lemma DestroyCompletesOnceIff(calls: seq<Call>)
    requires forall i :: 0 <= i < |calls| ==> calls[i].owner != INVALID
    ensures var (s, log) := Run(INITIAL, calls);
            && ((forall c :: Ran(log + Destroyed(s).log, c) == Submitted(calls, c)) <==> s.pendingExclusive == map[])
            && (Destroyed(s).Returned? && (forall c :: Ran(log + Destroyed(s).log, c) == Submitted(calls, c)) <==>
                s.pendingShared == map[] && s.pendingExclusive == map[])
  {
    var (s, log) := Run(INITIAL, calls);
    DestroyAbortsIff(calls, 0);
    if s.pendingExclusive == map[] {
      forall c
        ensures Ran(log + Destroyed(s).log, c) == Submitted(calls, c)
      {
        DestroyBalance(calls, c);
        assert StoredIn(s.pendingExclusive, c) == {};
      }
      return;
    }
    var c := WaitsSomewhere(s.pendingExclusive);
    DestroyBalance(calls, c);
    assert Ran(log + Destroyed(s).log, c) != Submitted(calls, c);
  }

  /** A client that waits behind a writer. */
  function Behind(kind: LockType): seq<Call> {
    [Call(1, Request(WRITE, true), 10), Call(2, Request(kind, true), 20)]
  }

  lemma BehindWaits(kind: LockType)
    requires kind != UNLOCK
    ensures var s := Run(INITIAL, Behind(kind)).0;
            && s.pendingShared == (if kind == READ then map[2 := 20] else map[])
            && s.pendingExclusive == (if kind == WRITE then map[2 := 20] else map[])
    ensures Submitted(Behind(kind), 20) == 1
  {
    var calls := Behind(kind);
    assert calls[1..] == [calls[1]] && [calls[1]][1..] == [];
    var s := Lock(INITIAL, 1, calls[0].req, 10).0;
    assert Run(s, [calls[1]]).0 == Lock(s, 2, calls[1].req, 20).0;
    assert Submitted([calls[1]], 20) == 1;
  }

  /** With a reader behind a writer, the reader is cancelled and then the process ends. */
  lemma DestroyAbortsOnReader()
    ensures var (s, log) := Run(INITIAL, Behind(READ));
            Destroyed(s).Aborted? && Ran(log + Destroyed(s).log, 20) == 1
  {
    BehindWaits(READ);
    DestroyAbortsIff(Behind(READ), 20);
    DestroyBalance(Behind(READ), 20);
    assert StoredIn(map[], 20) == {};
  }

  /** A writer that waits behind another one is never told that the lock is gone. */
  lemma DestroyMissesWriter()
    ensures var (s, log) := Run(INITIAL, Behind(WRITE));
            Destroyed(s).Returned? && Ran(log + Destroyed(s).log, 20) == 0
  {
    BehindWaits(WRITE);
    DestroyAbortsIff(Behind(WRITE), 20);
    DestroyBalance(Behind(WRITE), 20);
    var waiting: Waiting := map[2 := 20];
    assert StoredIn(waiting, 20) == {2};
  }

  // ------------------------------------------------------------------- the class

  class LockTable {
    var exclusive: Koid
    var shared: set<Koid>
    var pendingShared: Waiting
    var pendingExclusive: Waiting
    var running: bool

    function View(): State
      reads this
    {
      State(exclusive, shared, pendingShared, pendingExclusive)
    }

    constructor ()
      ensures View() == INITIAL && Valid(View()) && running
    {
      exclusive, shared, pendingShared, pendingExclusive, running := INVALID, {}, map[], map[], true;
    }

    /** The completers are run in the order of their map. */
    method RunAll(waiting: Waiting, status: Status) returns (log: seq<Completion>)
      ensures log == Told(waiting, status)
    {
      var rest := waiting;
      log := [];
      while rest != map[]
        invariant log + Told(rest, status) == Told(waiting, status)
        decreases |rest|
      {
        var k := First(rest.Keys);
        assert (rest - {k}).Keys == rest.Keys - {k};
        log := log + [Completion(rest[k], status)];
        rest := rest - {k};
      }
    }

    method GrantReaders() returns (log: seq<Completion>)
      modifies this
      ensures (View().(exclusive := INVALID), log) == AdmitReaders(old(View())) && exclusive == old(exclusive)
      ensures running == old(running)
    {
      var ps := pendingShared;
      pendingShared := map[];
      shared := shared + ps.Keys;
      log := RunAll(ps, OK);
    }

    method GrantFirstWriter() returns (log: seq<Completion>)
      requires exclusive == INVALID
      modifies this
      ensures (View(), log) == AdmitWriter(old(View())) && running == old(running)
    {
      log := [];
      if pendingExclusive != map[] {
        var k := First(pendingExclusive.Keys);
        exclusive := k;
        log := [Completion(pendingExclusive[k], OK)];
        pendingExclusive := pendingExclusive - {k};
      }
    }

    method LockAsWriter(kind: LockType, c: Completer) returns (log: seq<Completion>)
      requires exclusive != INVALID
      modifies this
      ensures (View(), log) == LockByWriter(old(View()), kind, c) && running == old(running)
    {
      match kind
      case READ =>
        shared := shared + {exclusive};
        exclusive := INVALID;
        log := GrantReaders();
        log := log + [Completion(c, OK)];
      case WRITE =>
        log := [Completion(c, OK)];
      case UNLOCK =>
        exclusive := INVALID;
        if |pendingShared| > |pendingExclusive| {
          log := GrantReaders();
        } else {
          log := GrantFirstWriter();
        }
        log := log + [Completion(c, OK)];
    }

    method LockBehindWriter(owner: Koid, req: Request, c: Completer) returns (log: seq<Completion>)
      modifies this
      ensures (View(), log) == LockUnderWriter(old(View()), owner, req, c) && running == old(running)
    {
      log := [];
      match req.kind
      case READ =>
        if req.wait {
          pendingShared := pendingShared[owner := c];
        } else {
          log := [Completion(c, SHOULD_WAIT)];
        }
      case WRITE =>
        if req.wait {
          pendingExclusive := pendingExclusive[owner := c];
        } else {
          log := [Completion(c, SHOULD_WAIT)];
        }
      case UNLOCK =>
        log := [Completion(c, OK)];
    }

    method LockAmongReaders(owner: Koid, req: Request, c: Completer) returns (log: seq<Completion>)
      requires exclusive == INVALID
      modifies this
      ensures (View(), log) == LockWithoutWriter(old(View()), owner, req, c) && running == old(running)
    {
      log := [];
      match req.kind
      case READ =>
        shared := shared + {owner};
        log := [Completion(c, OK)];
      case WRITE =>
        shared := shared - {owner};
        if shared == {} {
          exclusive := owner;
          log := [Completion(c, OK)];
        } else if req.wait {
          pendingExclusive := pendingExclusive[owner := c];
        } else {
          log := [Completion(c, SHOULD_WAIT)];
        }
      case UNLOCK =>
        if owner !in shared {
          log := [Completion(c, OK)];
        } else {
          shared := shared - {owner};
          if pendingExclusive != map[] && shared == {} {
            log := GrantFirstWriter();
          }
          log := log + [Completion(c, OK)];
        }
    }

    method LockFile(owner: Koid, req: Request, c: Completer) returns (log: seq<Completion>)
      requires Valid(View()) && owner != INVALID
      modifies this
      ensures Valid(View()) && running == old(running)
      ensures if running then (View(), log) == Lock(old(View()), owner, req, c)
              else View() == old(View()) && log == [Completion(c, BAD_STATE)]
    {
      LockValid(View(), owner, req, c);
      if !running || LockInProgress(View(), owner) {
        log := [Completion(c, BAD_STATE)];
      } else if exclusive != INVALID {
        if owner == exclusive {
          log := LockAsWriter(req.kind, c);
        } else {
          log := LockBehindWriter(owner, req, c);
        }
      } else {
        log := LockAmongReaders(owner, req, c);
      }
    }

    /** A client is forgotten unless it is waiting or the lock is gone; then it has no part in the
        lock any more. */
    method Forget(owner: Koid, c: Completer) returns (forgotten: bool, log: seq<Completion>)
      requires Valid(View()) && owner != INVALID
      modifies this
      ensures Valid(View()) && running == old(running)
      ensures running ==> (View(), log) == Lock(old(View()), owner, Request(UNLOCK, false), c)
      ensures forgotten <==> running && !old(LockInProgress(View(), owner))
      ensures forgotten ==> !Holds(View(), owner) && !LockInProgress(View(), owner)
      ensures !forgotten ==> View() == old(View()) && log == [Completion(c, BAD_STATE)]
    {
      if running && !LockInProgress(View(), owner) { UnlockLeaves(View(), owner, false, c); }
      log := LockFile(owner, Request(UNLOCK, false), c);
      forgotten := Completion(c, OK) in log;
    }

    /** One loop of the destructor; ok says that the process goes on. */
    method CancelEach(targets: Targets) returns (ok: bool, log: seq<Completion>, left: Targets)
      ensures var (end, rest) := Cancel(targets, targets.Keys);
              end == (if ok then Returned(log) else Aborted(log)) && left == rest
    {
      var keys := targets.Keys;
      ghost var (end, rest) := Cancel(targets, keys);
      log, left := [], targets;
      while keys != {}
        invariant keys <= left.Keys
        invariant var (e, t) := Cancel(left, keys); end == e.(log := log + e.log) && rest == t
        decreases |keys|
      {
        var k := First(keys);
        match left[k]
        case Emptied => return false, log, left;
        case Armed(c) =>
          log := log + [Completion(c, CANCELED)];
          left := left[k := Emptied];
          keys := keys - {k};
      }
      ok := true;
    }

    /** The destructor. */
    method Destroy() returns (end: End)
      modifies this
      ensures end == Destroyed(old(View())) && !running && View() == old(View())
    {
      running := false;
      var armed := Arm(pendingShared);
      var ok, first, left := CancelEach(armed);
      CancelKeepsKeys(armed, armed.Keys);
      if !ok {
        return Aborted(first);
      }
      var again, second, _ := CancelEach(left);
      end := if again then Returned(first + second) else Aborted(first + second);
    }
  }
}
