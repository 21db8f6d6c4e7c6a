/**
 * The two passes of fdio_spawn_vmo over its actions (fdio/spawn.cc): the first one validates and
 * counts, the second one fills arrays of the counted size and hands them to the launcher.
 *
 * What the rest of the system answers (clones, duplicates, the launcher) is a value of World, so
 * every statement is about every such answer.  Flags are the six named bits; the code ignores
 * the others.
 */
module Spawn {
  import opened Arithmetic
  import opened Wrappers
  import CleanPath

  type Handle = nat

  const INVALID: Handle := 0
  const MAX_FD: nat := 1024

  // Process argument types; they are defined by zircon/processargs.h.
  const PA_JOB_DEFAULT: nat := 0x03
  const PA_LDSVC_LOADER: nat := 0x10
  const PA_FD: nat := 0x30
  const PA_CLOCK_UTC: nat := 0x40

  datatype Status = OUT_OF_RANGE | ALREADY_EXISTS | INVALID_ARGS | NOT_SUPPORTED | Other(code: int)

  datatype Action =
    | CloneFd(local: int, target: int)
    | TransferFd(local: int, target: int)
    | AddNsEntry(prefix: Option<string>, handle: Handle)
    | AddHandle(id: nat, handle: Handle)
    | SetName(name: Option<string>)
    | CloneDir(prefix: Option<string>)
    | Unknown

  datatype Flags = Flags(job: bool, ldsvc: bool, cloneNamespace: bool, stdio: bool, cloneEnviron: bool, utcClock: bool)

  datatype Info = Info(id: nat, handle: Handle)

  datatype Name = Name(path: string, handle: Handle)

  /** What a call that makes a handle answers. */
  datatype Reply = Made(handle: Handle) | Failed(status: Status)

  /** How handle_interpreters ended: the loader services that "#!resolve" directives brought, in
      order, and the error that stopped it. */
  datatype Interpreters = Interpreters(loaders: seq<Handle>, error: Option<Status>)

  /** validArgs: there are an executable and an argv.  replies has the answer to each action that
      makes a handle.  Loader services and utcClock may be INVALID. */
  datatype World = World(validArgs: bool, hasEnviron: bool,
                         loader: Reply, interpreters: Interpreters, utcClock: Handle,
                         endpoints: Option<Status>, connect: Option<Status>, addArgs: Option<Status>,
                         addEnvirons: Option<Status>, exportRoot: Option<Status>, rootNamespace: seq<Name>,
                         job: Reply, replies: seq<Reply>, stdio: seq<Reply>, utc: Reply,
                         addHandles: Option<Status>, addNames: Option<Status>)

  // ------------------------------------------------------------------ argument ids

  function HndType(id: nat): nat { id % 0x100 }

  function HndArg(id: nat): nat { id / 0x10000 % 0x10000 }

  function Hnd(kind: nat, arg: int): nat { kind % 0x100 + arg % 0x10000 * 0x10000 }

  /** fd & ~FDIO_FLAG_USE_FOR_STDIO (0x8000), in two's complement. */
  function Mask(fd: int): int {
    if fd / 0x8000 % 2 == 1 then fd - 0x8000 else fd
  }

  /** The descriptor that the spawned process will find under this id. */
  function TargetOf(id: nat): int { Mask(HndArg(id)) }

  predicate IsFdId(id: nat) { HndType(id) == PA_FD }

  lemma MaskRange(target: int)
    requires 0 <= Mask(target) < MAX_FD
    ensures 0 <= target < 0x10000 && target % 0x10000 == target
  {
  }

  lemma TargetOfHnd(target: int)
    requires 0 <= Mask(target) < MAX_FD
    ensures IsFdId(Hnd(PA_FD, target)) && TargetOf(Hnd(PA_FD, target)) == Mask(target)
  {
    MaskRange(target);
    var id := Hnd(PA_FD, target);
    assert id == target * 0x10000 + PA_FD;
    DivUnique(id, 0x10000, target, PA_FD);
    DivUnique(id, 0x100, target * 0x100, PA_FD);
  }

  // ------------------------------------------------------------------- first pass

  predicate RootDir(a: Action) { a.CloneDir? && a.prefix == Some("/") }

  /** An absolute path without a slash at its end, or the root. */
  predicate GoodDir(prefix: string) {
    prefix != [] && prefix[0] == '/' && (|prefix| > 1 ==> prefix[|prefix| - 1] != '/')
  }

  /** Rooted, and the only such path that ends in a slash is the root. */
  lemma GoodDirIff(prefix: string)
    ensures GoodDir(prefix) <==>
            CleanPath.Rooted(prefix) && (CleanPath.EndsWith(prefix, "/") ==> prefix == "/")
  {
    if CleanPath.EndsWith(prefix, "/") { assert prefix[|prefix| - 1..][0] == '/'; }
    if prefix != [] && prefix[|prefix| - 1] == '/' { assert prefix[|prefix| - 1..] == "/"; }
  }

  predicate Acceptable(a: Action, utcClock: bool) {
    match a
    case AddNsEntry(prefix, handle) => handle != INVALID && prefix.Some?
    case AddHandle(id, handle) => handle != INVALID && !(id == PA_CLOCK_UTC && utcClock)
    case SetName(name) => name.Some?
    case CloneDir(prefix) => prefix.Some? && GoodDir(prefix.value)
    case _ => true
  }

  predicate AllAcceptable(actions: seq<Action>, utcClock: bool) {
    forall i :: 0 <= i < |actions| ==> Acceptable(actions[i], utcClock)
  }

  predicate MakesInfo(a: Action) { a.CloneFd? || a.TransferFd? || a.AddHandle? }

  function InfoCount(actions: seq<Action>): nat {
    if actions == [] then 0 else One(MakesInfo(actions[0])) + InfoCount(actions[1..])
  }

  function NameCount(actions: seq<Action>): nat {
    if actions == [] then 0 else One(actions[0].AddNsEntry?) + NameCount(actions[1..])
  }

  function SharedDir(a: Action): seq<string> {
    if a.CloneDir? && a.prefix.Some? && !RootDir(a) then [a.prefix.value] else []
  }

  function SharedDirs(actions: seq<Action>): seq<string> {
    if actions == [] then []
    else SharedDir(actions[0]) + SharedDirs(actions[1..])
  }

  function LastName(argv0: Option<string>, actions: seq<Action>): Option<string>
    decreases |actions|
  {
    if actions == [] then argv0
    else LastName(if actions[0].SetName? then actions[0].name else argv0, actions[1..])
  }

  datatype Counted = Counted(infos: nat, names: nat, dirs: seq<string>, root: bool, name: Option<string>)

  function Count(c: Counted, a: Action): Counted {
    Counted(c.infos + One(MakesInfo(a)), c.names + One(a.AddNsEntry?), c.dirs + SharedDir(a),
            c.root || RootDir(a), if a.SetName? then a.name else c.name)
  }

  function CountAll(c: Counted, actions: seq<Action>): Counted
    decreases |actions|
  {
    if actions == [] then c else CountAll(Count(c, actions[0]), actions[1..])
  }

  lemma RootDirSplit(actions: seq<Action>)
    requires actions != []
    ensures (exists i :: 0 <= i < |actions| && RootDir(actions[i])) <==>
            RootDir(actions[0]) || (exists i :: 0 <= i < |actions[1..]| && RootDir(actions[1..][i]))
  {
    var rest := actions[1..];
    assert forall i :: 0 < i < |actions| ==> actions[i] == rest[i - 1];
    assert forall i :: 0 <= i < |rest| ==> rest[i] == actions[i + 1];
  }

  lemma {:induction false} CountAllIs(c: Counted, actions: seq<Action>)
    ensures CountAll(c, actions) ==
            Counted(c.infos + InfoCount(actions), c.names + NameCount(actions), c.dirs + SharedDirs(actions),
                    c.root || (exists i :: 0 <= i < |actions| && RootDir(actions[i])),
                    LastName(c.name, actions))
    decreases |actions|
  {
    if actions == [] {
      assert c.dirs + [] == c.dirs;
    } else {
      var a, rest := actions[0], actions[1..];
      CountAllIs(Count(c, a), rest);
      assert c.dirs + SharedDir(a) + SharedDirs(rest) == c.dirs + (SharedDir(a) + SharedDirs(rest));
      RootDirSplit(actions);
    }
  }

  /** One turn of the counting loop; None is ZX_ERR_INVALID_ARGS. */
  method CountAction(c: Counted, a: Action, utcClock: bool) returns (r: Option<Counted>)
    ensures r.Some? <==> Acceptable(a, utcClock)
    ensures r.Some? ==> r.value == Count(c, a)
  {
    match a
    case CloneFd(_, _) => return Some(c.(infos := c.infos + 1));
    case TransferFd(_, _) => return Some(c.(infos := c.infos + 1));
    case AddNsEntry(prefix, handle) =>
      if handle == INVALID || prefix.None? {
        return None;
      }
      return Some(c.(names := c.names + 1));
    case AddHandle(id, handle) =>
      if handle == INVALID {
        return None;
      }
      if id == PA_CLOCK_UTC {
        if utcClock {
          return None;
        }
      }
      return Some(c.(infos := c.infos + 1));
    case SetName(n) =>
      if n.None? {
        return None;
      }
      return Some(c.(name := n));
    case CloneDir(prefix) =>
      if prefix.None? {
        return None;
      }
      var len := |prefix.value|;
      if len == 0 || prefix.value[0] != '/' || (len > 1 && prefix.value[len - 1] == '/') {
        return None;
      }
      if len == 1 && prefix.value[0] == '/' {
        assert prefix.value == "/";
        return Some(c.(root := true));
      }
      return Some(c.(dirs := c.dirs + [prefix.value]));
    case Unknown => return Some(c);
  }

  /** The counting loop; it succeeds exactly if all actions are acceptable and there is a name. */
  method CountActions(actions: seq<Action>, utcClock: bool, argv0: Option<string>) returns (r: Option<Counted>)
    ensures r.Some? <==> AllAcceptable(actions, utcClock) && LastName(argv0, actions).Some?
    ensures r.Some? ==>
              && r.value.infos == InfoCount(actions) && r.value.names == NameCount(actions)
              && r.value.dirs == SharedDirs(actions) && r.value.name == LastName(argv0, actions)
              && (r.value.root <==> exists i :: 0 <= i < |actions| && RootDir(actions[i]))
  {
    var c := Counted(0, 0, [], false, argv0);
    CountAllIs(c, actions);
    for i := 0 to |actions|
      invariant forall j :: 0 <= j < i ==> Acceptable(actions[j], utcClock)
      invariant CountAll(c, actions[i..]) == CountAll(Counted(0, 0, [], false, argv0), actions)
    {
      assert actions[i..][1..] == actions[i + 1..] && actions[i..][0] == actions[i];
      var next := CountAction(c, actions[i], utcClock);
      if next.None? {
        return None;
      }
      c := next.value;
    }
    assert actions[|actions|..] == [];
    return if c.name.Some? then Some(c) else None;
  }

  // ------------------------------------------------------------------ second pass

  /** made lists the handles that were made for the new process so far, not those of actions. */
  datatype Outgoing = Outgoing(infos: seq<Info>, names: seq<Name>, fds: set<int>, made: seq<Handle>)

  const NOTHING: Outgoing := Outgoing([], [], {}, [])

  /** The lambda check_fd; the descriptor is marked as used. */
  function CheckFd(fds: set<int>, fd: int): Option<Status> {
    if Mask(fd) < 0 || Mask(fd) >= MAX_FD then Some(OUT_OF_RANGE)
    else if Mask(fd) in fds then Some(ALREADY_EXISTS)
    else None
  }

  function AddInfo(out: Outgoing, info: Info): Outgoing {
    out.(infos := out.infos + [info])
  }

  function AddMade(out: Outgoing, info: Info): Outgoing {
    AddInfo(out, info).(made := out.made + [info.handle])
  }

  function Marked(out: Outgoing, fd: int): Outgoing {
    out.(fds := out.fds + {Mask(fd)})
  }

  function FillFd(out: Outgoing, target: int, reply: Reply): (Outgoing, Option<Status>) {
    match CheckFd(out.fds, target)
    case Some(e) => (out, Some(e))
    case None =>
      match reply
      case Failed(e) => (Marked(out, target), Some(e))
      case Made(h) => (AddMade(Marked(out, target), Info(Hnd(PA_FD, target), h)), None)
  }

  function FillHandle(out: Outgoing, id: nat, handle: Handle): (Outgoing, Option<Status>) {
    if IsFdId(id) then
      match CheckFd(out.fds, TargetOf(id))
      case Some(e) => (out, Some(e))
      case None => (AddInfo(Marked(out, TargetOf(id)), Info(id, handle)), None)
    else (AddInfo(out, Info(id, handle)), None)
  }

  /** One turn of the loop over the actions. */
  function FillOne(out: Outgoing, a: Action, reply: Reply): (Outgoing, Option<Status>) {
    match a
    case CloneFd(_, target) => FillFd(out, target, reply)
    case TransferFd(_, target) => FillFd(out, target, reply)
    case AddNsEntry(prefix, handle) =>
      (out.(names := out.names + [Name(if prefix.Some? then prefix.value else "", handle)]), None)
    case AddHandle(id, handle) => FillHandle(out, id, handle)
    case _ => (out, None)
  }

  /** The loop: what is filled, the error that ended it, and how many actions were consumed. */
  function FillAll(out: Outgoing, actions: seq<Action>, replies: seq<Reply>): (Outgoing, Option<Status>, nat)
    requires |replies| == |actions|
    decreases |actions|
  {
    if actions == [] then (out, None, 0)
    else
      var (out', error) := FillOne(out, actions[0], replies[0]);
      if error.Some? then (out', error, 0)
      else
        var (last, e, n) := FillAll(out', actions[1..], replies[1..]);
        (last, e, n + 1)
  }

  /** Standard descriptors from fd on that no action set; a closed or uncloneable one is skipped. */
  function FillStdio(out: Outgoing, fd: nat, replies: seq<Reply>): (Outgoing, Option<Status>)
    requires fd + |replies| == 3
    decreases |replies|
  {
    if replies == [] then (out, None)
    else if fd in out.fds then FillStdio(out, fd + 1, replies[1..])
    else
      match replies[0]
      case Made(h) => FillStdio(AddMade(out, Info(Hnd(PA_FD, fd), h)), fd + 1, replies[1..])
      case Failed(e) =>
        if e == INVALID_ARGS || e == NOT_SUPPORTED then FillStdio(out, fd + 1, replies[1..]) else (out, Some(e))
  }

  /** The loader services obtained, in order; each one takes the place of the one before it. */
  function Loaders(w: World, flags: Flags): seq<Handle> {
    if !flags.ldsvc then w.interpreters.loaders
    else if w.loader.Made? then [w.loader.handle] + w.interpreters.loaders
    else []
  }

  /** The loader service that is sent, or INVALID. */
  function Ldsvc(w: World, flags: Flags): Handle {
    var loaders := Loaders(w, flags);
    if loaders == [] then INVALID else loaders[|loaders| - 1]
  }

  /** What comes before the actions: the job and the loader service. */
  function Start(w: World, flags: Flags): (Outgoing, Option<Status>) {
    if flags.job && w.job.Failed? then (NOTHING, Some(w.job.status))
    else
      var out := if flags.job then AddMade(NOTHING, Info(PA_JOB_DEFAULT, w.job.handle)) else NOTHING;
      (if Ldsvc(w, flags) != INVALID then AddMade(out, Info(PA_LDSVC_LOADER, Ldsvc(w, flags))) else out, None)
  }

  /** What comes last: the clock. */
  function Finish(out: Outgoing, w: World, flags: Flags): (Outgoing, Option<Status>) {
    if flags.utcClock && w.utcClock != INVALID then
      match w.utc
      case Failed(e) => (out, Some(e))
      case Made(h) => (AddMade(out, Info(PA_CLOCK_UTC, h)), None)
    else (out, None)
  }

  datatype Filled = Filled(out: Outgoing, error: Option<Status>, consumed: nat)

  ghost predicate Answers(w: World, actions: seq<Action>) {
    |w.replies| == |actions| && |w.stdio| == 3
  }

  /** The second pass up to the first message. */
  function Fill(w: World, flags: Flags, actions: seq<Action>): Filled
    requires |w.replies| == |actions| && |w.stdio| == 3
  {
    var (out1, e1) := Start(w, flags);
    if e1.Some? then Filled(out1, e1, 0)
    else
      var (out2, e2, n) := FillAll(out1, actions, w.replies);
      if e2.Some? then Filled(out2, e2, n)
      else
        var (out3, e3) := if flags.stdio then FillStdio(out2, 0, w.stdio) else (out2, None);
        if e3.Some? then Filled(out3, e3, n)
        else
          var (out4, e4) := Finish(out3, w, flags);
          Filled(out4, e4, n)
  }

  /** The capacity that the first pass and the flags add up to. */
  function Capacity(w: World, flags: Flags, actions: seq<Action>): nat {
    InfoCount(actions) + One(flags.job) + (if flags.stdio then 3 else 0)
    + One(flags.utcClock && w.utcClock != INVALID) + One(Ldsvc(w, flags) != INVALID)
  }

  // -------------------------------------------------------- the passes agree on sizes

  lemma {:induction false} FillAllSizes(out: Outgoing, actions: seq<Action>, replies: seq<Reply>)
    requires |replies| == |actions|
    ensures var (last, e, n) := FillAll(out, actions, replies);
            && n <= |actions| && (e.None? ==> n == |actions|)
            && |last.infos| == |out.infos| + InfoCount(actions[..n])
            && |last.names| == |out.names| + NameCount(actions[..n])
            && InfoCount(actions[..n]) <= InfoCount(actions) && NameCount(actions[..n]) <= NameCount(actions)
    decreases |actions|
  {
    if actions != [] {
      var (out', error) := FillOne(out, actions[0], replies[0]);
      if error.None? {
        FillAllSizes(out', actions[1..], replies[1..]);
        var n := FillAll(out, actions, replies).2;
        assert actions[..n][1..] == actions[1..][..n - 1];
      } else {
        assert actions[..0] == [];
      }
    } else {
      assert actions[..0] == [];
    }
  }

  lemma StartSize(w: World, flags: Flags)
    ensures |Start(w, flags).0.infos| <= One(flags.job) + One(Ldsvc(w, flags) != INVALID)
    ensures Start(w, flags).0.names == []
  {
  }

  lemma FillOneSize(out: Outgoing, a: Action, reply: Reply)
    requires FillOne(out, a, reply).1.None?
    ensures |FillOne(out, a, reply).0.infos| == |out.infos| + One(MakesInfo(a))
    ensures |FillOne(out, a, reply).0.names| == |out.names| + One(a.AddNsEntry?)
  {
  }

  lemma {:induction false} FillStdioSize(out: Outgoing, fd: nat, replies: seq<Reply>)
    requires fd + |replies| == 3
    ensures var last := FillStdio(out, fd, replies).0;
            |out.infos| <= |last.infos| <= |out.infos| + |replies| && last.names == out.names
    decreases |replies|
  {
    if replies != [] {
      FillStdioSize(out, fd + 1, replies[1..]);
      if replies[0].Made? {
        FillStdioSize(AddMade(out, Info(Hnd(PA_FD, fd), replies[0].handle)), fd + 1, replies[1..]);
      }
    }
  }

  /** The second pass never needs more than the first one counted, and all names on success. */
  lemma FillFits(w: World, flags: Flags, actions: seq<Action>)
    requires Answers(w, actions)
    ensures var filled := Fill(w, flags, actions);
            && |filled.out.infos| <= Capacity(w, flags, actions) && |filled.out.names| <= NameCount(actions)
            && filled.consumed <= |actions|
            && (filled.error.None? ==> filled.consumed == |actions| && |filled.out.names| == NameCount(actions))
  {
    var (out1, e1) := Start(w, flags);
    if e1.None? {
      FillAllSizes(out1, actions, w.replies);
      assert actions[..|actions|] == actions;
      FillStdioSize(FillAll(out1, actions, w.replies).0, 0, w.stdio);
    }
  }

  // ------------------------------------------------------- no target descriptor twice

  /** Descriptors sent so far are in range, pairwise different, and below `upTo` or marked. */
  ghost predicate Targets(out: Outgoing, upTo: nat) {
    && (forall i :: 0 <= i < |out.infos| && IsFdId(out.infos[i].id) ==>
          var t := TargetOf(out.infos[i].id);
          0 <= t < MAX_FD && (t in out.fds || t < upTo))
    && (forall i, j :: 0 <= i < j < |out.infos| && IsFdId(out.infos[i].id) && IsFdId(out.infos[j].id) ==>
          TargetOf(out.infos[i].id) != TargetOf(out.infos[j].id))
  }

  lemma AddTarget(out: Outgoing, info: Info)
    requires Targets(out, 0) && IsFdId(info.id) && 0 <= TargetOf(info.id) < MAX_FD && TargetOf(info.id) !in out.fds
    ensures Targets(AddMade(out.(fds := out.fds + {TargetOf(info.id)}), info), 0)
  {
  }

  /** Bit 15 is cleared and all others stay. */
  lemma MaskTwice(fd: int)
    ensures Mask(fd) / 0x8000 % 2 == 0 && Mask(Mask(fd)) == Mask(fd)
    ensures Mask(fd) % 0x8000 == fd % 0x8000 && Mask(fd) / 0x10000 == fd / 0x10000
  {
    if fd / 0x8000 % 2 == 1 { assert (fd - 0x8000) / 0x8000 == fd / 0x8000 - 1; }
  }

  lemma FillOneTargets(out: Outgoing, a: Action, reply: Reply)
    requires Targets(out, 0)
    ensures Targets(FillOne(out, a, reply).0, 0)
  {
    match a {
      case CloneFd(_, target) => FillFdTargets(out, target, reply);
      case TransferFd(_, target) => FillFdTargets(out, target, reply);
      case AddHandle(id, handle) => MaskTwice(HndArg(id));
      case _ =>
    }
  }

  lemma FillFdTargets(out: Outgoing, target: int, reply: Reply)
    requires Targets(out, 0)
    ensures Targets(FillFd(out, target, reply).0, 0)
  {
    if CheckFd(out.fds, target).None? && reply.Made? {
      TargetOfHnd(target);
      AddTarget(out, Info(Hnd(PA_FD, target), reply.handle));
    }
  }

  lemma {:induction false} FillAllTargets(out: Outgoing, actions: seq<Action>, replies: seq<Reply>)
    requires |replies| == |actions| && Targets(out, 0)
    ensures Targets(FillAll(out, actions, replies).0, 0)
    decreases |actions|
  {
    if actions != [] {
      FillOneTargets(out, actions[0], replies[0]);
      if FillOne(out, actions[0], replies[0]).1.None? {
        FillAllTargets(FillOne(out, actions[0], replies[0]).0, actions[1..], replies[1..]);
      }
    }
  }

  lemma {:induction false} FillStdioTargets(out: Outgoing, fd: nat, replies: seq<Reply>)
    requires fd + |replies| == 3 && Targets(out, fd)
    ensures Targets(FillStdio(out, fd, replies).0, 3)
    decreases |replies|
  {
    if replies != [] {
      FillStdioTargets(out, fd + 1, replies[1..]);
      if replies[0].Made? && fd !in out.fds {
        TargetOfHnd(fd);
        var out' := AddMade(out, Info(Hnd(PA_FD, fd), replies[0].handle));
        assert Targets(out', fd + 1);
        FillStdioTargets(out', fd + 1, replies[1..]);
      }
    }
  }

  lemma StartTargets(w: World, flags: Flags)
    ensures Targets(Start(w, flags).0, 0)
  {
  }

  lemma FinishTargets(out: Outgoing, w: World, flags: Flags)
    requires Targets(out, 3)
    ensures Targets(Finish(out, w, flags).0, 3)
  {
  }

  /** No descriptor is sent twice, whatever the actions and flags are. */
  lemma NoTargetTwice(w: World, flags: Flags, actions: seq<Action>)
    requires Answers(w, actions)
    ensures Targets(Fill(w, flags, actions).out, 3)
  {
    StartTargets(w, flags);
    var (out1, e1) := Start(w, flags);
    if e1.Some? {
      return;
    }
    FillAllTargets(out1, actions, w.replies);
    var (out2, e2, n) := FillAll(out1, actions, w.replies);
    assert Targets(out2, 3);
    if e2.Some? {
      return;
    }
    FillStdioTargets(out2, 0, w.stdio);
    var (out3, e3) := if flags.stdio then FillStdio(out2, 0, w.stdio) else (out2, None);
    if e3.Some? {
      return;
    }
    FinishTargets(out3, w, flags);
  }

  // ------------------------------------------------------------- handles are conserved

  /** The handles that actions carry, in order. */
  function Carried(actions: seq<Action>): seq<Handle> {
    if actions == [] then []
    else CarriedBy(actions[0]) + Carried(actions[1..])
  }

  function InfoHandles(infos: seq<Info>): seq<Handle> {
    seq(|infos|, i requires 0 <= i < |infos| => infos[i].handle)
  }

  function NameHandles(names: seq<Name>): seq<Handle> {
    seq(|names|, i requires 0 <= i < |names| => names[i].handle)
  }

  function Stored(out: Outgoing): multiset<Handle> {
    multiset(InfoHandles(out.infos)) + multiset(NameHandles(out.names))
  }

  lemma StoredInfo(out: Outgoing, info: Info)
    ensures Stored(AddInfo(out, info)) == Stored(out) + multiset{info.handle}
  {
    assert InfoHandles(out.infos + [info]) == InfoHandles(out.infos) + [info.handle];
  }

  lemma StoredName(out: Outgoing, name: Name)
    ensures Stored(out.(names := out.names + [name])) == Stored(out) + multiset{name.handle}
  {
    assert NameHandles(out.names + [name]) == NameHandles(out.names) + [name.handle];
  }

  lemma {:induction false} CarriedSplit(actions: seq<Action>, n: nat)
    requires n <= |actions|
    ensures Carried(actions) == Carried(actions[..n]) + Carried(actions[n..])
  {
    if n == 0 {
      assert actions[..0] == [] && actions[0..] == actions;
    } else {
      CarriedSplit(actions[1..], n - 1);
      assert actions[..n][1..] == actions[1..][..n - 1] && actions[1..][n - 1..] == actions[n..];
    }
  }

  /** What is stored is what the consumed actions carried and what was made. */
  ghost predicate Balanced(out: Outgoing, carried: multiset<Handle>) {
    Stored(out) == carried + multiset(out.made)
  }

  lemma BalancedMade(out: Outgoing, carried: multiset<Handle>, info: Info)
    requires Balanced(out, carried)
    ensures Balanced(AddMade(out, info), carried)
  {
    StoredInfo(out, info);
  }

  lemma FillFdBalanced(out: Outgoing, carried: multiset<Handle>, target: int, reply: Reply)
    requires Balanced(out, carried)
    ensures Balanced(FillFd(out, target, reply).0, carried)
  {
    if reply.Made? {
      BalancedMade(Marked(out, target), carried, Info(Hnd(PA_FD, target), reply.handle));
    }
  }

  lemma FillHandleBalanced(out: Outgoing, carried: multiset<Handle>, id: nat, handle: Handle)
    requires Balanced(out, carried)
    ensures var (out', e) := FillHandle(out, id, handle);
            Balanced(out', if e.None? then carried + multiset{handle} else carried)
  {
    StoredInfo(out, Info(id, handle));
    StoredInfo(Marked(out, TargetOf(id)), Info(id, handle));
  }

  /** The handle of one action. */
  function CarriedBy(a: Action): seq<Handle> {
    if a.AddNsEntry? || a.AddHandle? then [a.handle] else []
  }

  lemma FillOneBalanced(out: Outgoing, carried: multiset<Handle>, a: Action, reply: Reply)
    requires Balanced(out, carried)
    ensures var (out', e) := FillOne(out, a, reply);
            Balanced(out', if e.None? then carried + multiset(CarriedBy(a)) else carried)
  {
    if a.CloneFd? || a.TransferFd? {
      FillFdBalanced(out, carried, a.target, reply);
      assert carried + multiset(CarriedBy(a)) == carried;
      return;
    }
    if a.AddNsEntry? {
      FillNameBalanced(out, carried, a);
      return;
    }
    if a.AddHandle? {
      FillHandleBalanced(out, carried, a.id, a.handle);
      assert multiset(CarriedBy(a)) == multiset{a.handle};
      return;
    }
    assert carried + multiset(CarriedBy(a)) == carried;
  }

  lemma FillNameBalanced(out: Outgoing, carried: multiset<Handle>, a: Action)
    requires Balanced(out, carried) && a.AddNsEntry?
    ensures Balanced(out.(names := out.names + EntryOf(a)), carried + multiset(CarriedBy(a)))
  {
    StoredName(out, EntryOf(a)[0]);
  }

  lemma CarriedPrefix(actions: seq<Action>, n: nat)
    requires 0 < n <= |actions|
    ensures multiset(Carried(actions[..n])) == multiset(CarriedBy(actions[0]))
              + multiset(Carried(actions[1..][..n - 1]))
  {
    assert actions[..n][1..] == actions[1..][..n - 1];
  }

  lemma {:induction false} FillAllBalanced(out: Outgoing, carried: multiset<Handle>, actions: seq<Action>,
      replies: seq<Reply>)
    requires |replies| == |actions| && Balanced(out, carried)
    ensures var (last, e, n) := FillAll(out, actions, replies);
            n <= |actions| && Balanced(last, carried + multiset(Carried(actions[..n])))
    decreases |actions|
  {
    assert carried + multiset(Carried(actions[..0])) == carried;
    if actions == [] {
      return;
    }
    FillOneBalanced(out, carried, actions[0], replies[0]);
    var (out', error) := FillOne(out, actions[0], replies[0]);
    if error.Some? {
      return;
    }
    var more := carried + multiset(CarriedBy(actions[0]));
    FillAllBalanced(out', more, actions[1..], replies[1..]);
    var n := FillAll(out', actions[1..], replies[1..]).2;
    CarriedPrefix(actions, n + 1);
    assert more + multiset(Carried(actions[1..][..n])) == carried + multiset(Carried(actions[..n + 1]));
  }

  lemma {:induction false} FillStdioBalanced(out: Outgoing, carried: multiset<Handle>, fd: nat, replies: seq<Reply>)
    requires fd + |replies| == 3 && Balanced(out, carried)
    ensures Balanced(FillStdio(out, fd, replies).0, carried)
    decreases |replies|
  {
    if replies != [] {
      FillStdioBalanced(out, carried, fd + 1, replies[1..]);
      if replies[0].Made? {
        var info := Info(Hnd(PA_FD, fd), replies[0].handle);
        BalancedMade(out, carried, info);
        FillStdioBalanced(AddMade(out, info), carried, fd + 1, replies[1..]);
      }
    }
  }

  lemma StartBalanced(w: World, flags: Flags)
    ensures Balanced(Start(w, flags).0, multiset{})
  {
    if flags.job && w.job.Made? { BalancedMade(NOTHING, multiset{}, Info(PA_JOB_DEFAULT, w.job.handle)); }
    if Start(w, flags).1.None? {
      var out := if flags.job then AddMade(NOTHING, Info(PA_JOB_DEFAULT, w.job.handle)) else NOTHING;
      BalancedMade(out, multiset{}, Info(PA_LDSVC_LOADER, Ldsvc(w, flags)));
    }
  }

  lemma FinishBalanced(out: Outgoing, carried: multiset<Handle>, w: World, flags: Flags)
    requires Balanced(out, carried)
    ensures Balanced(Finish(out, w, flags).0, carried)
  {
    if w.utc.Made? { BalancedMade(out, carried, Info(PA_CLOCK_UTC, w.utc.handle)); }
  }

  /** At the first message or the first error, the arrays hold exactly the handles of the consumed
      actions and those made; the other actions still have theirs. */
  lemma FillBalanced(w: World, flags: Flags, actions: seq<Action>)
    requires Answers(w, actions)
    ensures var filled := Fill(w, flags, actions);
            filled.consumed <= |actions| && Balanced(filled.out, multiset(Carried(actions[..filled.consumed])))
  {
    StartBalanced(w, flags);
    var (out1, e1) := Start(w, flags);
    if e1.Some? {
      assert actions[..0] == [];
      return;
    }
    FillAllBalanced(out1, multiset{}, actions, w.replies);
    var (out2, e2, n) := FillAll(out1, actions, w.replies);
    var carried := multiset(Carried(actions[..n]));
    assert Balanced(out2, carried);
    if e2.Some? {
      return;
    }
    FillStdioBalanced(out2, carried, 0, w.stdio);
    var (out3, e3) := if flags.stdio then FillStdio(out2, 0, w.stdio) else (out2, None);
    if e3.Some? {
      return;
    }
    FinishBalanced(out3, carried, w, flags);
  }

  // ------------------------------------------------------------- the cloned namespace

  /** should_clone_namespace, for one prefix. */
  predicate Under(path: string, prefix: string) {
    prefix <= path && (|path| == |prefix| || path[|prefix|] == '/')
  }

  /** The prefix matches whole directory names: its parts are the first parts of the path. */
  lemma {:induction false} UnderIsByParts(path: string, prefix: string)
    ensures Under(path, prefix) <==> CleanPath.Segments(prefix) <= CleanPath.Segments(path)
  {
    if prefix == [] {
      UnderNothing(path);
    } else if path == [] {
      FirstPart(prefix);
      assert prefix[0] == '/' ==> |CleanPath.Segments(prefix)| >= 2;
    } else {
      UnderIsByParts(path[1..], prefix[1..]);
      assert prefix <= path <==> prefix[0] == path[0] && prefix[1..] <= path[1..];
      var p, q := CleanPath.Segments(prefix[1..]), CleanPath.Segments(path[1..]);
      if prefix[0] == path[0] {
        assert Under(path, prefix) <==> Under(path[1..], prefix[1..]);
        if prefix[0] == '/' {
          ConsPrefix([], p, q);
        } else {
          SamePartsExtended(p, q, prefix[0]);
        }
      } else {
        FirstPart(prefix);
        FirstPart(path);
      }
    }
  }

  lemma FirstPart(p: string)
    requires p != []
    ensures var first := CleanPath.Segments(p)[0]; if p[0] == '/' then first == [] else first != [] && first[0] == p[0]
  {
  }

  lemma ConsPrefix(x: string, p: seq<string>, q: seq<string>)
    ensures [x] + p <= [x] + q <==> p <= q
  {
    assert ([x] + p)[1..] == p && ([x] + q)[1..] == q;
    if [x] + p <= [x] + q {
      assert forall i :: 0 <= i < |p| ==> p[i] == ([x] + p)[i + 1] && q[i] == ([x] + q)[i + 1];
    }
  }

  lemma SamePartsExtended(p: seq<string>, q: seq<string>, c: char)
    requires p != [] && q != []
    ensures [[c] + p[0]] + p[1..] <= [[c] + q[0]] + q[1..] <==> p <= q
  {
    var p', q' := [[c] + p[0]] + p[1..], [[c] + q[0]] + q[1..];
    if p' <= q' {
      assert p'[0] == q'[0] && p'[0][1..] == p[0] && q'[0][1..] == q[0];
      assert forall i :: 0 < i < |p| ==> p[i] == p'[i] && q[i] == q'[i];
    }
    if p <= q {
      assert p[0] == q[0];
      assert forall i :: 0 < i < |p| ==> p'[i] == p[i] && q'[i] == q[i];
    }
  }

  lemma UnderNothing(path: string)
    ensures Under(path, []) <==> CleanPath.Segments([]) <= CleanPath.Segments(path)
  {
    if path != [] && path[0] != '/' {
      assert CleanPath.Segments(path)[0] != [];
    }
  }

  predicate ShouldClone(path: string, dirs: seq<string>) {
    exists i :: 0 <= i < |dirs| && Under(path, dirs[i])
  }

  function Kept(names: seq<Name>, dirs: seq<string>): seq<Name> {
    if names == [] then []
    else
      var last := names[|names| - 1];
      Kept(names[..|names| - 1], dirs) + (if ShouldClone(last.path, dirs) then [last] else [])
  }

  function Rejected(names: seq<Name>, dirs: seq<string>): seq<Handle> {
    if names == [] then []
    else
      var last := names[|names| - 1];
      Rejected(names[..|names| - 1], dirs) + (if ShouldClone(last.path, dirs) then [] else [last.handle])
  }

  lemma KeptLast(front: seq<Name>, last: Name, dirs: seq<string>)
    ensures Kept(front + [last], dirs) ==
              if ShouldClone(last.path, dirs) then Kept(front, dirs) + [last] else Kept(front, dirs)
    ensures Rejected(front + [last], dirs) ==
              if ShouldClone(last.path, dirs) then Rejected(front, dirs) else Rejected(front, dirs) + [last.handle]
  {
    assert (front + [last])[..|front|] == front;
  }

  lemma KeptNext(all: seq<Name>, n: nat, dirs: seq<string>)
    requires n < |all|
    ensures var keep := ShouldClone(all[n].path, dirs);
            && Kept(all[..n + 1], dirs) == (if keep then Kept(all[..n], dirs) + [all[n]] else Kept(all[..n], dirs))
            && Rejected(all[..n + 1], dirs) == Rejected(all[..n], dirs) + (if keep then [] else [all[n].handle])
  {
    assert all[..n + 1] == all[..n] + [all[n]];
    KeptLast(all[..n], all[n], dirs);
  }

  lemma {:induction false} KeptOrRejected(names: seq<Name>, dirs: seq<string>)
    ensures multiset(NameHandles(names)) == multiset(NameHandles(Kept(names, dirs))) + multiset(Rejected(names, dirs))
  {
    if names != [] {
      var front, last := names[..|names| - 1], names[|names| - 1];
      KeptOrRejected(front, dirs);
      assert names == front + [last];
      KeptLast(front, last, dirs);
      NameHandlesLast(front, last);
      NameHandlesLast(Kept(front, dirs), last);
    }
  }

  lemma NameHandlesLast(names: seq<Name>, last: Name)
    ensures multiset(NameHandles(names + [last])) == multiset(NameHandles(names)) + multiset{last.handle}
  {
    assert NameHandles(names + [last]) == NameHandles(names) + [last.handle];
  }

  method Matches(path: string, dirs: seq<string>) returns (any: bool)
    ensures any <==> ShouldClone(path, dirs)
  {
    for i := 0 to |dirs|
      invariant forall j :: 0 <= j < i ==> !Under(path, dirs[j])
    {
      if Under(path, dirs[i]) {
        return true;
      }
    }
    return false;
  }

  /** One turn of the filter: the entry moves up, or its handle is closed. */
  method FilterOne(flat: array<Name>, write: nat, read: nat, dirs: seq<string>) returns (next: nat, closed: seq<Handle>)
    requires write <= read < flat.Length
    modifies flat
    ensures var (entry, keep) := (old(flat[read]), ShouldClone(old(flat[read]).path, dirs));
            && next == (if keep then write + 1 else write)
            && flat[..next] == (if keep then old(flat[..write]) + [entry] else old(flat[..write]))
            && closed == (if keep then [] else [entry.handle])
    ensures forall k :: read < k < flat.Length ==> flat[k] == old(flat[k])
  {
    var keep := Matches(flat[read].path, dirs);
    if keep {
      if read != write {
        flat[write] := flat[read];
      }
      return write + 1, [];
    }
    closed := [flat[read].handle];
    flat[read] := flat[read].(handle := INVALID);
    return write, closed;
  }

  /** filter_flat_namespace: in place, in order, and every other handle is closed once.  The
      parallel arrays of paths and handles are one array of pairs here. */
  method FilterFlatNamespace(flat: array<Name>, count: nat, dirs: seq<string>) returns (kept: nat, closed: seq<Handle>)
    requires count <= flat.Length
    modifies flat
    ensures kept <= count && flat[..kept] == Kept(old(flat[..count]), dirs)
    ensures closed == Rejected(old(flat[..count]), dirs)
  {
    ghost var all := flat[..count];
    var read, write := 0, 0;
    closed := [];
    while read < count
      invariant 0 <= write <= read <= count
      invariant forall k :: read <= k < count ==> flat[k] == all[k]
      invariant closed == Rejected(all[..read], dirs)
      invariant flat[..write] == Kept(all[..read], dirs)
    {
      KeptNext(all, read, dirs);
      var gone;
      write, gone := FilterOne(flat, write, read, dirs);
      closed := closed + gone;
      read := read + 1;
    }
    assert all[..count] == all;
    kept := write;
  }

  // ------------------------------------------------------------------ the whole call

  /** infos and names are what the two messages carried; closed is what the function closed;
      made is what it made or was given to hand on, besides what the actions carry; closedFds are
      the descriptors it closed. */
  datatype Final = Final(error: Option<Status>, infos: seq<Info>, names: seq<Name>, closed: multiset<Handle>,
                         made: multiset<Handle>, closedFds: seq<int>)

  function Given(f: Final): multiset<Handle> {
    multiset(InfoHandles(f.infos)) + multiset(NameHandles(f.names))
  }

  function UnsentLoader(w: World, flags: Flags): multiset<Handle> {
    if Start(w, flags).1.Some? && Ldsvc(w, flags) != INVALID then multiset{Ldsvc(w, flags)} else multiset{}
  }

  /** send_handles_and_namespace, with the destructors that run when it returns. */
  function Sent(w: World, flags: Flags, actions: seq<Action>, flat: seq<Name>): Final
    requires |w.replies| == |actions| && |w.stdio| == 3
  {
    var filled := Fill(w, flags, actions);
    var flatHandles := multiset(NameHandles(flat));
    var made := multiset(filled.out.made) + flatHandles + UnsentLoader(w, flags);
    if filled.error.Some? then
      var rest := if filled.consumed <= |actions| then Carried(actions[filled.consumed..]) else [];
      var fds := if filled.consumed <= |actions| then Locals(actions[filled.consumed..]) else [];
      Final(filled.error, [], [], Stored(filled.out) + multiset(rest) + flatHandles + UnsentLoader(w, flags), made, fds)
    else if w.addHandles.Some? then
      Final(w.addHandles, filled.out.infos, [], multiset(NameHandles(filled.out.names)) + flatHandles, made, [])
    else Final(w.addNames, filled.out.infos, filled.out.names + flat, multiset{}, made, [])
  }

  predicate WholeNamespace(flags: Flags, actions: seq<Action>) {
    flags.cloneNamespace || exists i :: 0 <= i < |actions| && RootDir(actions[i])
  }

  function Shared(w: World, flags: Flags, actions: seq<Action>): seq<Name> {
    if WholeNamespace(flags, actions) then w.rootNamespace
    else if SharedDirs(actions) != [] then Kept(w.rootNamespace, SharedDirs(actions))
    else []
  }

  function Unshared(w: World, flags: Flags, actions: seq<Action>): seq<Handle> {
    if WholeNamespace(flags, actions) || SharedDirs(actions) == [] then []
    else Rejected(w.rootNamespace, SharedDirs(actions))
  }

  /** The first error between the passes, in the order of the code; exports says whether the
      namespace of the caller is needed. */
  function Setup(w: World, flags: Flags, exports: bool): Option<Status> {
    if flags.ldsvc && w.loader.Failed? then Some(w.loader.status)
    else if w.interpreters.error.Some? then w.interpreters.error
    else LauncherSetup(w, flags, exports)
  }

  /** Of these, the errors from the launcher on. */
  function LauncherSetup(w: World, flags: Flags, exports: bool): Option<Status> {
    if w.endpoints.Some? then w.endpoints
    else if w.connect.Some? then w.connect
    else if w.addArgs.Some? then w.addArgs
    else if (w.hasEnviron || flags.cloneEnviron) && w.addEnvirons.Some? then w.addEnvirons
    else if exports then w.exportRoot
    else None
  }

  predicate Exports(flags: Flags, actions: seq<Action>) {
    WholeNamespace(flags, actions) || SharedDirs(actions) != []
  }

  /** The handles among them. */
  function Valid(handles: seq<Handle>): multiset<Handle> {
    multiset(handles)[INVALID := 0]
  }

  /** The loader services that another one took the place of. */
  function Superseded(w: World, flags: Flags): multiset<Handle> {
    var loaders := Loaders(w, flags);
    if loaders == [] then multiset{} else Valid(loaders[..|loaders| - 1])
  }

  function Spawned(w: World, flags: Flags, argv0: Option<string>, actions: seq<Action>): Final
    requires |w.replies| == |actions| && |w.stdio| == 3
  {
    if !w.validArgs || !AllAcceptable(actions, flags.utcClock) || LastName(argv0, actions).None? then
      Final(Some(INVALID_ARGS), [], [], multiset(Carried(actions)), multiset{}, Locals(actions))
    else if Setup(w, flags, Exports(flags, actions)).Some? then
      var (error, loaders) := (Setup(w, flags, Exports(flags, actions)), Valid(Loaders(w, flags)));
      Final(error, [], [], multiset(Carried(actions)) + loaders, loaders, Locals(actions))
    else
      var f := Sent(w, flags, actions, Shared(w, flags, actions));
      var dropped := multiset(Unshared(w, flags, actions)) + Superseded(w, flags);
      f.(closed := f.closed + dropped, made := f.made + dropped)
  }

  /** Every handle that the actions carry or that was made is handed on or closed, once, on
      success and on every error. */
  lemma HandlesConsumedOnce(w: World, flags: Flags, argv0: Option<string>, actions: seq<Action>)
    requires Answers(w, actions)
    ensures var f := Spawned(w, flags, argv0, actions);
            multiset(Carried(actions)) + f.made == Given(f) + f.closed
  {
    if !w.validArgs || !AllAcceptable(actions, flags.utcClock) || LastName(argv0, actions).None?
       || Setup(w, flags, Exports(flags, actions)).Some? {
      NothingGiven();
      return;
    }
    if Fill(w, flags, actions).error.Some? {
      ErrorConsumesOnce(w, flags, actions, Shared(w, flags, actions));
    } else {
      SentConsumesOnce(w, flags, actions, Shared(w, flags, actions));
    }
    var f := Sent(w, flags, actions, Shared(w, flags, actions));
    BothSides(multiset(Carried(actions)), f.made, Given(f), f.closed,
              multiset(Unshared(w, flags, actions)) + Superseded(w, flags));
  }

  /** The descriptors that actions give away, in order. */
  function Locals(actions: seq<Action>): seq<int> {
    if actions == [] then [] else LocalOf(actions[0]) + Locals(actions[1..])
  }

  function LocalOf(a: Action): seq<int> {
    if a.TransferFd? then [a.local] else []
  }

  lemma {:induction false} LocalsSplit(actions: seq<Action>, n: nat)
    requires n <= |actions|
    ensures Locals(actions) == Locals(actions[..n]) + Locals(actions[n..])
  {
    if n == 0 {
      assert actions[..0] == [] && actions[0..] == actions;
    } else {
      LocalsSplit(actions[1..], n - 1);
      assert actions[..n][1..] == actions[1..][..n - 1] && actions[1..][n - 1..] == actions[n..];
    }
  }

  lemma {:induction false} FillAllTransfers(out: Outgoing, actions: seq<Action>, replies: seq<Reply>, i: nat)
    requires |replies| == |actions| && i < FillAll(out, actions, replies).2 && i < |actions|
    ensures actions[i].TransferFd? ==> replies[i].Made?
    decreases |actions|
  {
    var (out', error) := FillOne(out, actions[0], replies[0]);
    if i > 0 { FillAllTransfers(out', actions[1..], replies[1..], i - 1); }
  }

  lemma FillTransfers(w: World, flags: Flags, actions: seq<Action>, i: nat)
    requires Answers(w, actions) && i < Fill(w, flags, actions).consumed && i < |actions| && actions[i].TransferFd?
    ensures w.replies[i].Made?
  {
    FillAllTransfers(Start(w, flags).0, actions, w.replies, i);
  }

  lemma SentClosesRest(w: World, flags: Flags, actions: seq<Action>, flat: seq<Name>)
    requires Answers(w, actions)
    ensures var (f, n) := (Sent(w, flags, actions, flat), Fill(w, flags, actions).consumed);
            && n <= |actions| && f.closedFds == Locals(actions[n..])
            && (f.error.None? ==> n == |actions| && f.closedFds == [])
  {
    FillFits(w, flags, actions);
    var n := Fill(w, flags, actions).consumed;
    if n == |actions| { assert actions[n..] == []; }
  }

  /** Every descriptor that an action gives away is either transferred or closed, in order: up to
      some action the transfers were made, and from there on the descriptors are closed. */
  lemma DescriptorsConsumedOnce(w: World, flags: Flags, argv0: Option<string>, actions: seq<Action>) returns (n: nat)
    requires Answers(w, actions)
    ensures var f := Spawned(w, flags, argv0, actions);
            && n <= |actions| && Locals(actions) == Locals(actions[..n]) + f.closedFds
            && (forall i :: 0 <= i < n && actions[i].TransferFd? ==> w.replies[i].Made?)
            && (f.error.None? ==> n == |actions| && f.closedFds == [])
  {
    if !w.validArgs || !AllAcceptable(actions, flags.utcClock) || LastName(argv0, actions).None?
       || Setup(w, flags, Exports(flags, actions)).Some? {
      n := 0;
      LocalsSplit(actions, 0);
      assert actions[0..] == actions;
      return;
    }
    SentClosesRest(w, flags, actions, Shared(w, flags, actions));
    n := Fill(w, flags, actions).consumed;
    LocalsSplit(actions, n);
    forall i | 0 <= i < n && actions[i].TransferFd?
      ensures w.replies[i].Made?
    {
      FillTransfers(w, flags, actions, i);
    }
  }

  lemma NothingGiven()
    ensures multiset(InfoHandles([])) + multiset(NameHandles([])) == multiset{}
  {
    assert InfoHandles([]) == [] && NameHandles([]) == [];
  }

  lemma BothSides(a: multiset<Handle>, b: multiset<Handle>, c: multiset<Handle>, d: multiset<Handle>,
      x: multiset<Handle>)
    requires a + b == c + d
    ensures a + (b + x) == c + (d + x)
  {
    assert a + (b + x) == (a + b) + x;
    assert c + (d + x) == (c + d) + x;
  }

  /** On an error: what is stored and what is left add up. */
  lemma ErrorBalance(carried: multiset<Handle>, rest: multiset<Handle>, made: multiset<Handle>,
      flat: multiset<Handle>, loader: multiset<Handle>)
    ensures (carried + rest) + (made + flat + loader) == (carried + made) + rest + flat + loader
  {
    assert (carried + rest) + (made + flat + loader) == (carried + rest + made) + flat + loader;
    assert carried + rest + made == carried + made + rest;
  }

  lemma ErrorConsumesOnce(w: World, flags: Flags, actions: seq<Action>, flat: seq<Name>)
    requires Answers(w, actions) && Fill(w, flags, actions).error.Some?
    ensures var f := Sent(w, flags, actions, flat);
            multiset(Carried(actions)) + f.made == Given(f) + f.closed
  {
    var filled := Fill(w, flags, actions);
    var n := filled.consumed;
    FillBalanced(w, flags, actions);
    CarriedSplit(actions, n);
    NothingGiven();
    var carried, rest, made := multiset(Carried(actions[..n])), multiset(Carried(actions[n..])),
        multiset(filled.out.made);
    var flatHandles, loader := multiset(NameHandles(flat)), UnsentLoader(w, flags);
    ErrorBalance(carried, rest, made, flatHandles, loader);
    assert multiset(Carried(actions)) == carried + rest;
    assert Stored(filled.out) == carried + made;
    var f := Sent(w, flags, actions, flat);
    assert f.made == made + flatHandles + loader;
    assert f.closed == (carried + made) + rest + flatHandles + loader;
    assert Given(f) + f.closed == f.closed;
  }

  lemma FilledCarriesAll(w: World, flags: Flags, actions: seq<Action>)
    requires Answers(w, actions) && Fill(w, flags, actions).error.None?
    ensures var out := Fill(w, flags, actions).out;
            multiset(Carried(actions)) + multiset(out.made) == Stored(out) && UnsentLoader(w, flags) == multiset{}
  {
    FillBalanced(w, flags, actions);
    FillFits(w, flags, actions);
    assert actions[..Fill(w, flags, actions).consumed] == actions;
  }

  lemma SentConsumesOnce(w: World, flags: Flags, actions: seq<Action>, flat: seq<Name>)
    requires Answers(w, actions) && Fill(w, flags, actions).error.None?
    ensures var f := Sent(w, flags, actions, flat);
            multiset(Carried(actions)) + f.made == Given(f) + f.closed
  {
    FilledCarriesAll(w, flags, actions);
    var out := Fill(w, flags, actions).out;
    var c, m, x := multiset(Carried(actions)), multiset(out.made), multiset(NameHandles(flat));
    var i, n := multiset(InfoHandles(out.infos)), multiset(NameHandles(out.names));
    BothSides(c, m, i, n, x);
    var f := Sent(w, flags, actions, flat);
    assert f.made == m + x;
    if w.addHandles.Some? {
      assert NameHandles([]) == [];
      assert Given(f) == i && f.closed == n + x;
      return;
    }
    assert NameHandles(out.names + flat) == NameHandles(out.names) + NameHandles(flat);
    assert Given(f) == i + (n + x) && f.closed == multiset{};
  }

  /** The entries that actions add, in order. */
  function Entries(actions: seq<Action>): seq<Name> {
    if actions == [] then []
    else EntryOf(actions[0]) + Entries(actions[1..])
  }

  function EntryOf(a: Action): seq<Name> {
    if a.AddNsEntry? then [Name(if a.prefix.Some? then a.prefix.value else "", a.handle)] else []
  }

  lemma FillOneNames(out: Outgoing, a: Action, reply: Reply)
    ensures FillOne(out, a, reply).0.names == out.names + EntryOf(a)
  {
    if !a.AddNsEntry? { assert out.names + [] == out.names; }
  }

  lemma {:induction false} FillAllNames(out: Outgoing, actions: seq<Action>, replies: seq<Reply>)
    requires |replies| == |actions| && FillAll(out, actions, replies).1.None?
    ensures FillAll(out, actions, replies).0.names == out.names + Entries(actions)
    decreases |actions|
  {
    if actions == [] {
      assert out.names + [] == out.names;
      return;
    }
    var out', rest := FillOne(out, actions[0], replies[0]).0, Entries(actions[1..]);
    FillAllNames(out', actions[1..], replies[1..]);
    FillOneNames(out, actions[0], replies[0]);
    NamesAssoc(out.names, EntryOf(actions[0]), rest);
  }

  lemma NamesAssoc(a: seq<Name>, b: seq<Name>, c: seq<Name>)
    ensures (a + b) + c == a + (b + c)
  {
  }

  lemma FilledNames(w: World, flags: Flags, actions: seq<Action>)
    requires Answers(w, actions) && Fill(w, flags, actions).error.None?
    ensures Fill(w, flags, actions).out.names == Entries(actions)
  {
    var out1 := Start(w, flags).0;
    FillAllNames(out1, actions, w.replies);
    FillStdioSize(FillAll(out1, actions, w.replies).0, 0, w.stdio);
    assert out1.names == [] && [] + Entries(actions) == Entries(actions);
  }

  /** A successful call sends the entries of the actions first and then the shared ones, as many
      as it counted, and closes nothing but the entries that are not shared and replaced loaders. */
  lemma SuccessSendsAll(w: World, flags: Flags, argv0: Option<string>, actions: seq<Action>)
    requires Answers(w, actions) && Spawned(w, flags, argv0, actions).error.None?
    ensures var f := Spawned(w, flags, argv0, actions);
            && f.names == Entries(actions) + Shared(w, flags, actions)
            && |f.names| == NameCount(actions) + |Shared(w, flags, actions)|
            && f.closed == multiset(Unshared(w, flags, actions)) + Superseded(w, flags)
            && f.infos == Fill(w, flags, actions).out.infos && |f.infos| <= Capacity(w, flags, actions)
  {
    FillFits(w, flags, actions);
    FilledNames(w, flags, actions);
  }

  // ------------------------------------------------------ the order of namespace entries

  lemma {:induction false} EntriesCounted(actions: seq<Action>)
    ensures |Entries(actions)| == NameCount(actions)
  {
    if actions != [] { EntriesCounted(actions[1..]); }
  }

  ghost predicate Distinct(handles: seq<Handle>) {
    forall i, j :: 0 <= i < j < |handles| ==> handles[i] != handles[j]
  }

  lemma CommuteIff(a: seq<Name>, b: seq<Name>)
    requires Distinct(NameHandles(a + b))
    ensures a + b == b + a <==> a == [] || b == []
  {
    if a != [] && b != [] {
      assert NameHandles(a + b)[0] == a[0].handle && NameHandles(a + b)[|a|] == b[0].handle;
      assert (a + b)[0] == a[0] && (b + a)[0] == b[0];
    }
  }

  /** The header promises the entries of the calling process before those of the actions.  They
      come in that order exactly if one of the two kinds is missing. */
  lemma DocumentedOrderIff(w: World, flags: Flags, argv0: Option<string>, actions: seq<Action>)
    requires Answers(w, actions) && Spawned(w, flags, argv0, actions).error.None?
    requires Distinct(NameHandles(Entries(actions) + Shared(w, flags, actions)))
    ensures var shared := Shared(w, flags, actions);
            Spawned(w, flags, argv0, actions).names == shared + Entries(actions) <==>
            NameCount(actions) == 0 || shared == []
  {
    SuccessSendsAll(w, flags, argv0, actions);
    EntriesCounted(actions);
    CommuteIff(Entries(actions), Shared(w, flags, actions));
  }

  /** The entry that a process sees under a path which drops later entries for the same path. */
  function Winner(names: seq<Name>, path: string): Option<Handle> {
    if names == [] then None
    else if names[0].path == path then Some(names[0].handle)
    else Winner(names[1..], path)
  }

  lemma {:induction false} WinnerOfBoth(a: seq<Name>, b: seq<Name>, path: string)
    ensures Winner(a + b, path) == if Winner(a, path).Some? then Winner(a, path) else Winner(b, path)
  {
    if a == [] {
      assert a + b == b;
    } else {
      assert (a + b)[1..] == a[1..] + b;
      WinnerOfBoth(a[1..], b, path);
    }
  }

  lemma {:induction false} WinnerAt(names: seq<Name>, path: string) returns (i: nat)
    requires Winner(names, path).Some?
    ensures i < |names| && names[i] == Name(path, Winner(names, path).value)
  {
    if names[0].path == path {
      i := 0;
    } else {
      var j := WinnerAt(names[1..], path);
      i := j + 1;
    }
  }

  lemma WinnersDiffer(a: seq<Name>, b: seq<Name>, path: string)
    requires Distinct(NameHandles(a + b)) && Winner(a, path).Some? && Winner(b, path).Some?
    ensures Winner(a, path) != Winner(b, path)
  {
    var i := WinnerAt(a, path);
    var j := WinnerAt(b, path);
    assert NameHandles(a + b)[i] == a[i].handle && NameHandles(a + b)[|a| + j] == b[j].handle;
  }

  /** What the order means for the new process: under every path it sees the entry of an action if
      there is one.  That is what the documented order would give exactly for the paths that do not
      have both an action and a shared entry. */
  lemma DocumentedWinnerIff(w: World, flags: Flags, argv0: Option<string>, actions: seq<Action>, path: string)
    requires Answers(w, actions) && Spawned(w, flags, argv0, actions).error.None?
    requires Distinct(NameHandles(Entries(actions) + Shared(w, flags, actions)))
    ensures var (f, shared) := (Spawned(w, flags, argv0, actions), Shared(w, flags, actions));
            && (Winner(Entries(actions), path).Some? ==> Winner(f.names, path) == Winner(Entries(actions), path))
            && (Winner(f.names, path) == Winner(shared + Entries(actions), path) <==>
                Winner(Entries(actions), path).None? || Winner(shared, path).None?)
  {
    var entries, shared := Entries(actions), Shared(w, flags, actions);
    SuccessSendsAll(w, flags, argv0, actions);
    WinnerOfBoth(entries, shared, path);
    WinnerOfBoth(shared, entries, path);
    if Winner(entries, path).Some? && Winner(shared, path).Some? { WinnersDiffer(entries, shared, path); }
  }

  // An example: adding "/svc" under FDIO_SPAWN_CLONE_NAMESPACE, by a caller that has "/svc" itself.

  const ADD: Action := AddNsEntry(Some("/svc"), 1)
  const CLONE_NAMESPACE: Flags := Flags(false, false, true, false, false, false)
  const NO: Reply := Failed(NOT_SUPPORTED)
  const CALLER: World := World(true, false, NO, Interpreters([], None), INVALID, None, None, None, None, None,
                               [Name("/svc", 2)], NO, [NO], [NO, NO, NO], NO, None, None)

  lemma ExampleFills()
    ensures Fill(CALLER, CLONE_NAMESPACE, [ADD]).error.None?
  {
    FillSucceedsIff(CALLER, CLONE_NAMESPACE, [ADD]);
    assert AllPlaceable([ADD], CALLER.replies, {});
  }

  /** The new process gets the added entry, not that of the caller. */
  lemma DocumentedOrderFails()
    ensures var (f, shared) := (Spawned(CALLER, CLONE_NAMESPACE, Some("child"), [ADD]),
                                Shared(CALLER, CLONE_NAMESPACE, [ADD]));
            && f.error.None? && f.names == [Name("/svc", 1), Name("/svc", 2)]
            && shared + Entries([ADD]) == [Name("/svc", 2), Name("/svc", 1)]
            && Winner(f.names, "/svc") == Some(1) && Winner(shared + Entries([ADD]), "/svc") == Some(2)
  {
    ExampleFills();
    assert LastName(Some("child"), [ADD]) == LastName(Some("child"), []);
    SuccessSendsAll(CALLER, CLONE_NAMESPACE, Some("child"), [ADD]);
  }

  // ------------------------------------------------- when it succeeds, and what it sends

  /** The descriptor that an action sets in the new process. */
  predicate HasTarget(a: Action) {
    a.CloneFd? || a.TransferFd? || (a.AddHandle? && IsFdId(a.id))
  }

  function Target(a: Action): int
    requires HasTarget(a)
  {
    if a.AddHandle? then TargetOf(a.id) else Mask(a.target)
  }

  /** The descriptor is in range and free, and the handle for it could be made. */
  ghost predicate Placeable(a: Action, reply: Reply, used: set<int>) {
    HasTarget(a) ==> 0 <= Target(a) < MAX_FD && Target(a) !in used && (a.AddHandle? || reply.Made?)
  }

  ghost predicate AllPlaceable(actions: seq<Action>, replies: seq<Reply>, used: set<int>)
    requires |replies| == |actions|
  {
    && (forall i :: 0 <= i < |actions| ==> Placeable(actions[i], replies[i], used))
    && (forall i, j :: 0 <= i < j < |actions| && HasTarget(actions[i]) && HasTarget(actions[j]) ==>
          Target(actions[i]) != Target(actions[j]))
  }

  function TargetOfFirst(actions: seq<Action>): set<int> {
    if actions != [] && HasTarget(actions[0]) then {Target(actions[0])} else {}
  }

  function TargetsOf(actions: seq<Action>): set<int> {
    if actions == [] then {} else TargetOfFirst(actions) + TargetsOf(actions[1..])
  }

  function InfoOf(a: Action, reply: Reply): seq<Info> {
    if a.AddHandle? then [Info(a.id, a.handle)]
    else if (a.CloneFd? || a.TransferFd?) && reply.Made? then [Info(Hnd(PA_FD, a.target), reply.handle)]
    else []
  }

  function InfosOf(actions: seq<Action>, replies: seq<Reply>): seq<Info>
    requires |replies| == |actions|
    decreases |actions|
  {
    if actions == [] then [] else InfoOf(actions[0], replies[0]) + InfosOf(actions[1..], replies[1..])
  }

  lemma FillOneSucceedsIff(out: Outgoing, a: Action, reply: Reply)
    ensures FillOne(out, a, reply).1.None? <==> Placeable(a, reply, out.fds)
    ensures FillOne(out, a, reply).1.None? ==>
              && FillOne(out, a, reply).0.infos == out.infos + InfoOf(a, reply)
              && FillOne(out, a, reply).0.fds == out.fds + (if HasTarget(a) then {Target(a)} else {})
  {
    if a.AddHandle? { MaskTwice(HndArg(a.id)); }
    if !MakesInfo(a) { assert out.infos + [] == out.infos; }
  }

  lemma PlaceableSplit(actions: seq<Action>, replies: seq<Reply>, used: set<int>)
    requires |replies| == |actions| && actions != []
    ensures AllPlaceable(actions, replies, used) <==>
              && Placeable(actions[0], replies[0], used)
              && AllPlaceable(actions[1..], replies[1..], used + TargetOfFirst(actions))
  {
    var rest, answers := actions[1..], replies[1..];
    var used' := used + TargetOfFirst(actions);
    assert forall i :: 0 <= i < |rest| ==> rest[i] == actions[i + 1] && answers[i] == replies[i + 1];
    if AllPlaceable(actions, replies, used) {
      forall i | 0 <= i < |rest|
        ensures Placeable(rest[i], answers[i], used')
      {
        assert Placeable(actions[i + 1], replies[i + 1], used);
      }
    }
    if Placeable(actions[0], replies[0], used) && AllPlaceable(rest, answers, used') {
      forall i | 0 <= i < |actions|
        ensures Placeable(actions[i], replies[i], used)
      {
        if i > 0 { assert Placeable(rest[i - 1], answers[i - 1], used'); }
      }
      forall i, j | 0 <= i < j < |actions| && HasTarget(actions[i]) && HasTarget(actions[j])
        ensures Target(actions[i]) != Target(actions[j])
      {
        assert Placeable(rest[j - 1], answers[j - 1], used') && actions[j] == rest[j - 1];
        if i > 0 { assert actions[i] == rest[i - 1]; }
      }
    }
  }

  /** The loop over the actions goes through exactly if the descriptors they set are in range and
      pairwise different and the handles for them can be made; then it adds one handle for each. */
  lemma {:induction false} FillAllSucceedsIff(out: Outgoing, actions: seq<Action>, replies: seq<Reply>)
    requires |replies| == |actions|
    ensures FillAll(out, actions, replies).1.None? <==> AllPlaceable(actions, replies, out.fds)
    ensures FillAll(out, actions, replies).1.None? ==>
              && FillAll(out, actions, replies).0.infos == out.infos + InfosOf(actions, replies)
              && FillAll(out, actions, replies).0.fds == out.fds + TargetsOf(actions)
    decreases |actions|
  {
    if actions == [] {
      assert out.infos + [] == out.infos;
      return;
    }
    FillOneSucceedsIff(out, actions[0], replies[0]);
    PlaceableSplit(actions, replies, out.fds);
    var (out', error) := FillOne(out, actions[0], replies[0]);
    if error.None? {
      FillAllSucceedsIff(out', actions[1..], replies[1..]);
      InfosAssoc(out.infos, InfoOf(actions[0], replies[0]), InfosOf(actions[1..], replies[1..]));
    }
  }

  lemma InfosAssoc(a: seq<Info>, b: seq<Info>, c: seq<Info>)
    ensures (a + b) + c == a + (b + c)
  {
  }

  /** A standard descriptor is cloned exactly if no action set it and it can be cloned. */
  function StdioInfo(fd: nat, used: set<int>, reply: Reply): seq<Info> {
    if fd !in used && reply.Made? then [Info(Hnd(PA_FD, fd), reply.handle)] else []
  }

  predicate StdioFails(fd: nat, used: set<int>, reply: Reply) {
    fd !in used && reply.Failed? && reply.status != INVALID_ARGS && reply.status != NOT_SUPPORTED
  }

  lemma StdioSends(out: Outgoing, replies: seq<Reply>)
    requires |replies| == 3
    ensures FillStdio(out, 0, replies).1.Some? <==> exists fd :: 0 <= fd < 3 && StdioFails(fd, out.fds, replies[fd])
    ensures FillStdio(out, 0, replies).1.None? ==>
              FillStdio(out, 0, replies).0.infos ==
              out.infos + StdioInfo(0, out.fds, replies[0]) + StdioInfo(1, out.fds, replies[1])
                  + StdioInfo(2, out.fds, replies[2])
  {
    StdioStep(out, 0, replies);
    var (out1, e1) := StdioOne(out, 0, replies[0]);
    if e1.Some? {
      assert StdioFails(0, out.fds, replies[0]);
      return;
    }
    StdioStep(out1, 1, replies[1..]);
    var (out2, e2) := StdioOne(out1, 1, replies[1]);
    if e2.Some? {
      assert StdioFails(1, out.fds, replies[1]);
      return;
    }
    assert replies[1..][1..] == replies[2..];
    StdioStep(out2, 2, replies[2..]);
    if StdioOne(out2, 2, replies[2]).1.Some? {
      assert StdioFails(2, out.fds, replies[2]);
    }
  }

  function StdioOne(out: Outgoing, fd: nat, reply: Reply): (r: (Outgoing, Option<Status>))
    ensures r.1.Some? <==> StdioFails(fd, out.fds, reply)
    ensures r.1.None? ==> r.0.infos == out.infos + StdioInfo(fd, out.fds, reply) && r.0.fds == out.fds
  {
    if fd in out.fds then (out, None)
    else
      match reply
      case Made(h) => (AddMade(out, Info(Hnd(PA_FD, fd), h)), None)
      case Failed(e) => (out, if e == INVALID_ARGS || e == NOT_SUPPORTED then None else Some(e))
  }

  lemma StdioStep(out: Outgoing, fd: nat, replies: seq<Reply>)
    requires fd + |replies| == 3 && fd < 3
    ensures var (out', e) := StdioOne(out, fd, replies[0]);
            FillStdio(out, fd, replies) == if e.Some? then (out', e) else FillStdio(out', fd + 1, replies[1..])
  {
  }

  function JobInfo(w: World, flags: Flags): seq<Info> {
    if flags.job && w.job.Made? then [Info(PA_JOB_DEFAULT, w.job.handle)] else []
  }

  function LoaderInfo(w: World, flags: Flags): seq<Info> {
    if Ldsvc(w, flags) != INVALID then [Info(PA_LDSVC_LOADER, Ldsvc(w, flags))] else []
  }

  function StdioInfos(w: World, flags: Flags, used: set<int>): seq<Info>
    requires |w.stdio| == 3
  {
    if !flags.stdio then []
    else StdioInfo(0, used, w.stdio[0]) + StdioInfo(1, used, w.stdio[1]) + StdioInfo(2, used, w.stdio[2])
  }

  function ClockInfo(w: World, flags: Flags): seq<Info> {
    if flags.utcClock && w.utcClock != INVALID && w.utc.Made? then [Info(PA_CLOCK_UTC, w.utc.handle)] else []
  }

  /** The whole second pass up to the first message: exactly when it goes through, and then
      exactly which handles are sent, in which order and under which ids. */
  lemma FillSucceedsIff(w: World, flags: Flags, actions: seq<Action>)
    requires Answers(w, actions)
    ensures Fill(w, flags, actions).error.None? <==>
              && (flags.job ==> w.job.Made?)
              && AllPlaceable(actions, w.replies, {})
              && (flags.stdio ==> forall fd :: 0 <= fd < 3 ==> !StdioFails(fd, TargetsOf(actions), w.stdio[fd]))
              && (flags.utcClock && w.utcClock != INVALID ==> w.utc.Made?)
    ensures Fill(w, flags, actions).error.None? ==>
              Fill(w, flags, actions).out.infos ==
              JobInfo(w, flags) + LoaderInfo(w, flags) + InfosOf(actions, w.replies)
                  + StdioInfos(w, flags, TargetsOf(actions)) + ClockInfo(w, flags)
  {
    var (out1, e1) := Start(w, flags);
    if e1.Some? {
      return;
    }
    StartSends(w, flags);
    FillAllSucceedsIff(out1, actions, w.replies);
    var (out2, e2, n) := FillAll(out1, actions, w.replies);
    if e2.Some? {
      return;
    }
    assert out2.fds == TargetsOf(actions);
    StdioSends(out2, w.stdio);
    var (out3, e3) := if flags.stdio then FillStdio(out2, 0, w.stdio) else (out2, None);
    if e3.Some? {
      return;
    }
    assert out3.infos == out2.infos + StdioInfos(w, flags, TargetsOf(actions));
    assert Finish(out3, w, flags).0.infos == out3.infos + ClockInfo(w, flags) || Finish(out3, w, flags).1.Some?;
  }

  /** The counted capacity is what is sent, up to standard descriptors that are not cloned. */
  lemma CapacityIsUsed(w: World, flags: Flags, actions: seq<Action>)
    requires Answers(w, actions) && Fill(w, flags, actions).error.None?
    ensures |Fill(w, flags, actions).out.infos| + (if flags.stdio then 3 else 0)
              == Capacity(w, flags, actions) + |StdioInfos(w, flags, TargetsOf(actions))|
  {
    FillSucceedsIff(w, flags, actions);
    FillAllSucceedsIff(NOTHING, actions, w.replies);
    FillAllSizes(NOTHING, actions, w.replies);
    assert actions[..|actions|] == actions;
  }

  lemma StartSends(w: World, flags: Flags)
    requires Start(w, flags).1.None?
    ensures Start(w, flags).0.infos == JobInfo(w, flags) + LoaderInfo(w, flags) && Start(w, flags).0.fds == {}
  {
  }

  // ------------------------------------------------------------------ which error it is

  /** The error of two steps, of which the second is only taken if the first goes well. */
  function FirstOf(a: Option<Status>, b: Option<Status>): Option<Status> {
    if a.Some? then a else b
  }

  function FailureOf(reply: Reply): Option<Status> {
    if reply.Failed? then Some(reply.status) else None
  }

  lemma FillOneError(out: Outgoing, a: Action, reply: Reply)
    requires FillOne(out, a, reply).1.Some?
    ensures HasTarget(a)
    ensures FillOne(out, a, reply).1 ==
              if !(0 <= Target(a) < MAX_FD) then Some(OUT_OF_RANGE)
              else if Target(a) in out.fds then Some(ALREADY_EXISTS)
              else if a.AddHandle? then None else FailureOf(reply)
  {
    if a.AddHandle? { MaskTwice(HndArg(a.id)); }
  }

  /** The loop stops at the first action that cannot be placed, which is one that sets a
      descriptor: with OUT_OF_RANGE if that is out of range, with ALREADY_EXISTS if an action before
      it sets it too, and else with the status of the handle that could not be made. */
  lemma {:induction false} ActionError(out: Outgoing, actions: seq<Action>, replies: seq<Reply>)
    requires |replies| == |actions| && FillAll(out, actions, replies).1.Some?
    ensures var (_, e, n) := FillAll(out, actions, replies);
            && n < |actions| && HasTarget(actions[n]) && AllPlaceable(actions[..n], replies[..n], out.fds)
            && var t := Target(actions[n]);
            && (!(0 <= t < MAX_FD) ==> e == Some(OUT_OF_RANGE))
            && (0 <= t < MAX_FD && t in out.fds + TargetsOf(actions[..n]) ==> e == Some(ALREADY_EXISTS))
            && (0 <= t < MAX_FD && t !in out.fds + TargetsOf(actions[..n]) ==>
                !actions[n].AddHandle? && e == FailureOf(replies[n]))
    decreases |actions|
  {
    var (out', error) := FillOne(out, actions[0], replies[0]);
    FillOneSucceedsIff(out, actions[0], replies[0]);
    if error.Some? {
      FillOneError(out, actions[0], replies[0]);
      assert actions[..0] == [];
    } else {
      ActionError(out', actions[1..], replies[1..]);
      var n := FillAll(out, actions, replies).2;
      assert actions[..n][1..] == actions[1..][..n - 1] && replies[..n][1..] == replies[1..][..n - 1];
      PlaceableSplit(actions[..n], replies[..n], out.fds);
      assert out'.fds == out.fds + TargetOfFirst(actions[..n]);
    }
  }

  function StdioError(flags: Flags, fd: nat, used: set<int>, reply: Reply): Option<Status> {
    if flags.stdio && StdioFails(fd, used, reply) then Some(reply.status) else None
  }

  lemma StdioFirst(out: Outgoing, flags: Flags, replies: seq<Reply>)
    requires |replies| == 3 && flags.stdio
    ensures FillStdio(out, 0, replies).1 ==
              FirstOf(StdioError(flags, 0, out.fds, replies[0]),
                      FirstOf(StdioError(flags, 1, out.fds, replies[1]), StdioError(flags, 2, out.fds, replies[2])))
  {
    StdioStep(out, 0, replies);
    var out1 := StdioOne(out, 0, replies[0]).0;
    StdioStep(out1, 1, replies[1..]);
    assert replies[1..][1..] == replies[2..];
    StdioStep(StdioOne(out1, 1, replies[1]).0, 2, replies[2..]);
  }

  /** The error of the second pass, in the order job, actions, standard descriptors, clock. */
  lemma FillError(w: World, flags: Flags, actions: seq<Action>)
    requires Answers(w, actions)
    ensures var used := TargetsOf(actions);
            Fill(w, flags, actions).error ==
            FirstOf(if flags.job then FailureOf(w.job) else None,
              FirstOf(FillAll(Start(w, flags).0, actions, w.replies).1,
                FirstOf(StdioError(flags, 0, used, w.stdio[0]),
                  FirstOf(StdioError(flags, 1, used, w.stdio[1]),
                    FirstOf(StdioError(flags, 2, used, w.stdio[2]),
                      if flags.utcClock && w.utcClock != INVALID then FailureOf(w.utc) else None)))))
  {
    var (out1, e1) := Start(w, flags);
    if e1.Some? {
      return;
    }
    StartSends(w, flags);
    FillAllSucceedsIff(out1, actions, w.replies);
    var (out2, e2, n) := FillAll(out1, actions, w.replies);
    if e2.Some? {
      return;
    }
    assert out2.fds == TargetsOf(actions);
    if flags.stdio { StdioFirst(out2, flags, w.stdio); }
  }

  predicate WellFormed(w: World, flags: Flags, argv0: Option<string>, actions: seq<Action>) {
    w.validArgs && AllAcceptable(actions, flags.utcClock) && LastName(argv0, actions).Some?
  }

  /** The error before anything is sent: arguments and actions, loader service, interpreters,
      channel, connection, arguments, environment, namespace. */
  function EarlyError(w: World, flags: Flags, argv0: Option<string>, actions: seq<Action>): Option<Status> {
    FirstOf(if WellFormed(w, flags, argv0, actions) then None else Some(INVALID_ARGS),
      FirstOf(if flags.ldsvc then FailureOf(w.loader) else None,
        FirstOf(w.interpreters.error,
          FirstOf(w.endpoints,
            FirstOf(w.connect,
              FirstOf(w.addArgs,
                FirstOf(if w.hasEnviron || flags.cloneEnviron then w.addEnvirons else None,
                  if Exports(flags, actions) then w.exportRoot else None)))))))
  }

  /** Which error the whole call returns, and how much of the two messages was sent by then. */
  lemma SpawnError(w: World, flags: Flags, argv0: Option<string>, actions: seq<Action>)
    requires Answers(w, actions)
    ensures var f := Spawned(w, flags, argv0, actions);
            var before := FirstOf(EarlyError(w, flags, argv0, actions), Fill(w, flags, actions).error);
            && f.error == FirstOf(before, FirstOf(w.addHandles, w.addNames))
            && f.infos == (if before.None? then Fill(w, flags, actions).out.infos else [])
            && f.names ==
               if before.None? && w.addHandles.None? then Entries(actions) + Shared(w, flags, actions) else []
  {
    if EarlyError(w, flags, argv0, actions).Some? {
      EarlyStops(w, flags, argv0, actions);
    } else if Fill(w, flags, actions).error.None? {
      FilledNames(w, flags, actions);
    }
  }

  lemma EarlyStops(w: World, flags: Flags, argv0: Option<string>, actions: seq<Action>)
    requires Answers(w, actions) && EarlyError(w, flags, argv0, actions).Some?
    ensures var f := Spawned(w, flags, argv0, actions);
            f.error == EarlyError(w, flags, argv0, actions) && f.infos == [] && f.names == []
  {
  }

  // ------------------------------------------------------- what the first pass promises

  /** The name is that of the last action that sets one, or else the first argument. */
  lemma {:induction false} LastNameIs(argv0: Option<string>, actions: seq<Action>)
    ensures (forall i :: 0 <= i < |actions| ==> !actions[i].SetName?) ==> LastName(argv0, actions) == argv0
    ensures forall i :: 0 <= i < |actions| && actions[i].SetName? && NoNameFrom(actions, i + 1) ==>
              LastName(argv0, actions) == actions[i].name
    decreases |actions|
  {
    if actions != [] {
      var rest := actions[1..];
      LastNameIs(if actions[0].SetName? then actions[0].name else argv0, rest);
      assert forall i :: 0 < i < |actions| ==> actions[i] == rest[i - 1];
      forall i | 0 <= i < |actions| && actions[i].SetName? && NoNameFrom(actions, i + 1)
        ensures LastName(argv0, actions) == actions[i].name
      {
        if i > 0 { assert NoNameFrom(rest, i); }
      }
    }
  }

  ghost predicate NoNameFrom(actions: seq<Action>, n: nat) {
    forall i :: n <= i < |actions| ==> !actions[i].SetName?
  }

  ghost predicate NoClock(infos: seq<Info>) {
    forall i :: 0 <= i < |infos| ==> infos[i].id != PA_CLOCK_UTC
  }

  /** The handles that accepted actions carry are handles, and with FDIO_SPAWN_CLONE_UTC_CLOCK no
      action brings a clock, so that one at most is sent. */
  lemma {:induction false} AcceptedCarry(actions: seq<Action>, replies: seq<Reply>, utcClock: bool)
    requires |replies| == |actions| && AllAcceptable(actions, utcClock)
    ensures INVALID !in Carried(actions)
    ensures utcClock ==> NoClock(InfosOf(actions, replies))
    decreases |actions|
  {
    if actions != [] {
      AcceptedCarry(actions[1..], replies[1..], utcClock);
      FdIsNoClock(actions[0], replies[0]);
      assert utcClock ==> NoClock(InfoOf(actions[0], replies[0]));
    }
  }

  lemma FdIsNoClock(a: Action, reply: Reply)
    ensures !a.AddHandle? ==> NoClock(InfoOf(a, reply))
  {
    if a.CloneFd? || a.TransferFd? {
      DivUnique(Hnd(PA_FD, a.target), 0x100, a.target % 0x10000 * 0x100, PA_FD);
    }
  }

  /** The loader service that is sent is the last one that an interpreter brought, or else that of
      the calling process, if it is asked for. */
  lemma LoaderIsLast(w: World, flags: Flags)
    requires flags.ldsvc ==> w.loader.Made?
    ensures var brought := w.interpreters.loaders;
            Ldsvc(w, flags) ==
            if brought != [] then brought[|brought| - 1] else if flags.ldsvc then w.loader.handle else INVALID
  {
  }

  lemma {:induction false} SharedDirsAre(actions: seq<Action>, dir: string)
    ensures dir in SharedDirs(actions) <==>
            exists i :: 0 <= i < |actions| && actions[i] == CloneDir(Some(dir)) && !RootDir(actions[i])
  {
    if actions != [] {
      SharedDirsAre(actions[1..], dir);
      var rest := actions[1..];
      assert forall i :: 0 < i < |actions| ==> actions[i] == rest[i - 1];
      assert forall i :: 0 <= i < |rest| ==> rest[i] == actions[i + 1];
    }
  }

  lemma {:induction false} KeptAre(names: seq<Name>, dirs: seq<string>, name: Name)
    ensures name in Kept(names, dirs) <==> name in names && ShouldClone(name.path, dirs)
  {
    if names != [] {
      var front, last := names[..|names| - 1], names[|names| - 1];
      KeptAre(front, dirs, name);
      assert names == front + [last];
    }
  }

  /** Some action shares a directory whose parts are the first parts of the path. */
  ghost predicate SharedBy(path: string, actions: seq<Action>, i: nat) {
    && i < |actions| && actions[i].CloneDir? && actions[i].prefix.Some? && !RootDir(actions[i])
    && CleanPath.Segments(actions[i].prefix.value) <= CleanPath.Segments(path)
  }

  lemma ShouldCloneIff(path: string, actions: seq<Action>)
    ensures ShouldClone(path, SharedDirs(actions)) <==> exists i :: SharedBy(path, actions, i)
  {
    var dirs := SharedDirs(actions);
    if ShouldClone(path, dirs) {
      var k :| 0 <= k < |dirs| && Under(path, dirs[k]);
      SharedDirsAre(actions, dirs[k]);
      UnderIsByParts(path, dirs[k]);
      var i: nat :| i < |actions| && actions[i] == CloneDir(Some(dirs[k])) && !RootDir(actions[i]);
      assert SharedBy(path, actions, i);
    }
    if i: nat :| SharedBy(path, actions, i) {
      var dir := actions[i].prefix.value;
      assert actions[i] == CloneDir(Some(dir));
      SharedDirsAre(actions, dir);
      UnderIsByParts(path, dir);
      var k :| 0 <= k < |dirs| && dirs[k] == dir;
    }
  }

  /** The new process gets an entry of the calling one exactly if the whole namespace is shared or
      some action shares a directory above it. */
  lemma SharedIff(w: World, flags: Flags, actions: seq<Action>, name: Name)
    ensures name in Shared(w, flags, actions) <==>
              && name in w.rootNamespace
              && (WholeNamespace(flags, actions) || exists i :: SharedBy(name.path, actions, i))
  {
    KeptAre(w.rootNamespace, SharedDirs(actions), name);
    ShouldCloneIff(name.path, actions);
  }

  // ------------------------------------------------------------------- the arrays

  /** The two Inserters of send_handles_and_namespace and its set of used descriptors. */
  class Outbox {
    const infos: array<Info>
    const names: array<Name>
    const infoCapacity: nat
    const nameCapacity: nat
    var infosUsed: nat
    var namesUsed: nat
    var fds: set<int>
    var made: seq<Handle>

    ghost predicate Valid()
      reads this
    {
      infosUsed <= infoCapacity <= infos.Length && namesUsed <= nameCapacity <= names.Length
    }

    ghost function View(): Outgoing
      reads this, infos, names
      requires Valid()
    {
      Outgoing(infos[..infosUsed], names[..namesUsed], fds, made)
    }

    constructor (infoCapacity: nat, nameCapacity: nat)
      ensures Valid() && View() == NOTHING && fresh(infos) && fresh(names)
      ensures this.infoCapacity == infoCapacity && this.nameCapacity == nameCapacity
    {
      infos := new Info[if infoCapacity > 1 then infoCapacity else 1](_ => Info(0, INVALID));
      names := new Name[if nameCapacity > 1 then nameCapacity else 1](_ => Name("", INVALID));
      this.infoCapacity, this.nameCapacity := infoCapacity, nameCapacity;
      infosUsed, namesUsed, fds, made := 0, 0, {}, [];
    }

    /** AddNext, whose assertion is the precondition. */
    method PutInfo(info: Info)
      requires Valid() && infosUsed < infoCapacity
      modifies this, infos
      ensures Valid() && View() == AddInfo(old(View()), info) && infosUsed == old(infosUsed) + 1
    {
      infos[infosUsed] := info;
      infosUsed := infosUsed + 1;
      assert infos[..infosUsed] == old(infos[..infosUsed]) + [info];
    }

    method PutMade(info: Info)
      requires Valid() && infosUsed < infoCapacity
      modifies this, infos
      ensures Valid() && View() == AddMade(old(View()), info) && infosUsed == old(infosUsed) + 1
    {
      PutInfo(info);
      made := made + [info.handle];
    }

    method PutName(name: Name)
      requires Valid() && namesUsed < nameCapacity
      modifies this, names
      ensures Valid() && View() == old(View()).(names := old(View()).names + [name]) && namesUsed == old(namesUsed) + 1
    {
      names[namesUsed] := name;
      namesUsed := namesUsed + 1;
      assert names[..namesUsed] == old(names[..namesUsed]) + [name];
    }

    method Check(fd: int) returns (error: Option<Status>)
      requires Valid()
      modifies this`fds
      ensures Valid() && error == CheckFd(old(fds), fd)
      ensures View() == if error.None? then Marked(old(View()), fd) else old(View())
    {
      var masked := Mask(fd);
      if masked < 0 || masked >= MAX_FD {
        return Some(OUT_OF_RANGE);
      }
      if masked in fds {
        return Some(ALREADY_EXISTS);
      }
      fds := fds + {masked};
      return None;
    }

    method PutFd(target: int, reply: Reply) returns (error: Option<Status>)
      requires Valid() && infosUsed < infoCapacity
      modifies this, infos
      ensures Valid() && (View(), error) == FillFd(old(View()), target, reply)
    {
      error := Check(target);
      if error.Some? {
        return;
      }
      match reply
      case Failed(e) => return Some(e);
      case Made(h) => PutMade(Info(Hnd(PA_FD, target), h));
    }

    method PutHandle(id: nat, handle: Handle) returns (error: Option<Status>)
      requires Valid() && infosUsed < infoCapacity
      modifies this, infos
      ensures Valid() && (View(), error) == FillHandle(old(View()), id, handle)
    {
      if HndType(id) == PA_FD {
        error := Check(Mask(HndArg(id)));
        if error.Some? {
          return;
        }
      }
      PutInfo(Info(id, handle));
      return None;
    }

    method Consume(a: Action, reply: Reply) returns (error: Option<Status>)
      requires Valid() && (MakesInfo(a) ==> infosUsed < infoCapacity) && (a.AddNsEntry? ==> namesUsed < nameCapacity)
      modifies this, infos, names
      ensures Valid() && (View(), error) == FillOne(old(View()), a, reply)
    {
      match a
      case CloneFd(_, target) => error := PutFd(target, reply);
      case TransferFd(_, target) => error := PutFd(target, reply);
      case AddNsEntry(prefix, handle) =>
        PutName(Name(if prefix.Some? then prefix.value else "", handle));
        error := None;
      case AddHandle(id, handle) => error := PutHandle(id, handle);
      case _ => error := None;
    }

    /** The loop over the consuming iterator; n is how far it got. */
    method ConsumeAll(actions: seq<Action>, replies: seq<Reply>) returns (error: Option<Status>, n: nat)
      requires Valid() && |replies| == |actions|
      requires infosUsed + InfoCount(actions) <= infoCapacity && namesUsed + NameCount(actions) <= nameCapacity
      modifies this, infos, names
      ensures Valid() && (View(), error, n) == FillAll(old(View()), actions, replies)
    {
      ghost var goal := FillAll(View(), actions, replies);
      n := 0;
      while n < |actions|
        invariant 0 <= n <= |actions| && Valid()
        invariant infosUsed + InfoCount(actions[n..]) <= infoCapacity
                  && namesUsed + NameCount(actions[n..]) <= nameCapacity
        invariant var (out, e, m) := FillAll(View(), actions[n..], replies[n..]); goal == (out, e, n + m)
      {
        assert actions[n..][1..] == actions[n + 1..] && replies[n..][1..] == replies[n + 1..];
        ghost var before := View();
        error := Consume(actions[n], replies[n]);
        if error.Some? {
          return;
        }
        FillOneSize(before, actions[n], replies[n]);
        n := n + 1;
      }
      assert actions[n..] == [];
      return None, n;
    }

    method CloneStdio(replies: seq<Reply>) returns (error: Option<Status>)
      requires Valid() && |replies| == 3 && infosUsed + 3 <= infoCapacity
      modifies this, infos
      ensures Valid() && (View(), error) == FillStdio(old(View()), 0, replies)
    {
      var fd := 0;
      while fd < 3
        invariant 0 <= fd <= 3 && Valid() && infosUsed + (3 - fd) <= infoCapacity
        invariant FillStdio(old(View()), 0, replies) == FillStdio(View(), fd, replies[fd..])
      {
        assert replies[fd..][1..] == replies[fd + 1..];
        if fd !in fds {
          match replies[fd]
          case Made(h) => PutMade(Info(Hnd(PA_FD, fd), h));
          case Failed(e) =>
            if e != INVALID_ARGS && e != NOT_SUPPORTED {
              return Some(e);
            }
        }
        fd := fd + 1;
      }
      return None;
    }

    method PutStart(w: World, flags: Flags) returns (error: Option<Status>)
      requires Valid() && View() == NOTHING && One(flags.job) + One(Ldsvc(w, flags) != INVALID) <= infoCapacity
      modifies this, infos
      ensures Valid() && (View(), error) == Start(w, flags)
    {
      if flags.job {
        match w.job
        case Failed(e) => return Some(e);
        case Made(h) => PutMade(Info(PA_JOB_DEFAULT, h));
      }
      if Ldsvc(w, flags) != INVALID {
        PutMade(Info(PA_LDSVC_LOADER, Ldsvc(w, flags)));
      }
      return None;
    }

    method PutClock(w: World, flags: Flags) returns (error: Option<Status>)
      requires Valid() && infosUsed + One(flags.utcClock && w.utcClock != INVALID) <= infoCapacity
      modifies this, infos
      ensures Valid() && (View(), error) == Finish(old(View()), w, flags)
    {
      if flags.utcClock {
        if w.utcClock != INVALID {
          match w.utc
          case Failed(e) => return Some(e);
          case Made(h) => PutMade(Info(PA_CLOCK_UTC, h));
        }
      }
      return None;
    }

    method FillFrom(w: World, flags: Flags, actions: seq<Action>) returns (error: Option<Status>, n: nat)
      requires Valid() && View() == NOTHING && Answers(w, actions)
      requires infoCapacity == Capacity(w, flags, actions) && nameCapacity >= NameCount(actions)
      modifies this, infos, names
      ensures Valid() && Filled(View(), error, n) == Fill(w, flags, actions)
    {
      n := 0;
      error := PutStart(w, flags);
      if error.Some? {
        return;
      }
      ghost var out := View();
      StartSize(w, flags);
      error, n := ConsumeAll(actions, w.replies);
      if error.Some? {
        return;
      }
      FillAllSizes(out, actions, w.replies);
      assert actions[..n] == actions;
      out := View();
      if flags.stdio {
        error := CloneStdio(w.stdio);
        if error.Some? {
          return;
        }
        FillStdioSize(out, 0, w.stdio);
      }
      error := PutClock(w, flags);
    }

    /** The names of the shared namespace come after those of the actions. */
    method PutNames(flat: seq<Name>)
      requires Valid() && namesUsed + |flat| <= nameCapacity
      modifies this, names
      ensures Valid() && View() == old(View()).(names := old(View()).names + flat)
                && namesUsed == old(namesUsed) + |flat|
    {
      for i := 0 to |flat|
        invariant Valid() && namesUsed == old(namesUsed) + i
                  && View() == old(View()).(names := old(View()).names + flat[..i])
      {
        assert flat[..i + 1] == flat[..i] + [flat[i]];
        PutName(flat[i]);
      }
      assert flat[..|flat|] == flat;
    }
  }

  lemma CarriedNext(actions: seq<Action>, i: nat, closed: seq<Handle>, fds: seq<int>)
    requires i < |actions|
    ensures closed + Carried(actions[i..]) == (closed + CarriedBy(actions[i])) + Carried(actions[i + 1..])
    ensures fds + Locals(actions[i..]) == (fds + LocalOf(actions[i])) + Locals(actions[i + 1..])
  {
    assert actions[i..][1..] == actions[i + 1..];
  }

  /** Free, for one action. */
  method Free(a: Action) returns (closed: seq<Handle>, fds: seq<int>)
    ensures closed == CarriedBy(a) && fds == LocalOf(a)
  {
    match a
    case AddNsEntry(_, handle) => return [handle], [];
    case AddHandle(_, handle) => return [handle], [];
    case TransferFd(local, _) => return [], [local];
    case _ => return [], [];
  }

  /** The destructors of SpawnActions and ConsumingIterator. */
  method FreeFrom(actions: seq<Action>, n: nat) returns (closed: seq<Handle>, fds: seq<int>)
    requires n <= |actions|
    ensures closed == Carried(actions[n..]) && fds == Locals(actions[n..])
  {
    closed, fds := [], [];
    for i := n to |actions|
      invariant closed + Carried(actions[i..]) == Carried(actions[n..])
      invariant fds + Locals(actions[i..]) == Locals(actions[n..])
    {
      CarriedNext(actions, i, closed, fds);
      var handles, locals := Free(actions[i]);
      closed, fds := closed + handles, fds + locals;
    }
    assert actions[|actions|..] == [];
  }

  lemma ValidNext(handles: seq<Handle>, i: nat)
    requires i < |handles|
    ensures Valid(handles[..i + 1]) == Valid(handles[..i]) + Valid([handles[i]])
    ensures Valid([handles[i]]) == if handles[i] == INVALID then multiset{} else multiset{handles[i]}
  {
    assert handles[..i + 1] == handles[..i] + [handles[i]];
    assert multiset([handles[i]]) == multiset{handles[i]};
  }

  lemma ReplacedLoader(loaders: seq<Handle>, i: nat, ldsvc: Handle, closed: multiset<Handle>)
    requires i < |loaders|
    requires if i == 0 then ldsvc == INVALID && closed == multiset{}
             else ldsvc == loaders[i - 1] && closed == Valid(loaders[..i - 1])
    ensures Valid(loaders[..i]) == if ldsvc == INVALID then closed else closed + multiset{ldsvc}
  {
    if i == 0 {
      assert loaders[..0] == [];
    } else {
      ValidNext(loaders, i - 1);
    }
  }

  /** Every loader service that is put into ldsvc closes the one that was there. */
  method KeepLastLoader(loaders: seq<Handle>) returns (ldsvc: Handle, closed: multiset<Handle>)
    ensures ldsvc == if loaders == [] then INVALID else loaders[|loaders| - 1]
    ensures closed == if loaders == [] then multiset{} else Valid(loaders[..|loaders| - 1])
  {
    ldsvc, closed := INVALID, multiset{};
    for i := 0 to |loaders|
      invariant ldsvc == if i == 0 then INVALID else loaders[i - 1]
      invariant closed == if i == 0 then multiset{} else Valid(loaders[..i - 1])
    {
      ReplacedLoader(loaders, i, ldsvc, closed);
      if ldsvc != INVALID {
        closed := closed + multiset{ldsvc};
      }
      ldsvc := loaders[i];
    }
  }

  method ExportNamespace(w: World, whole: bool, dirs: seq<string>) returns (flat: seq<Name>, closed: seq<Handle>)
    ensures flat == if whole then w.rootNamespace else if dirs != [] then Kept(w.rootNamespace, dirs) else []
    ensures closed == if !whole && dirs != [] then Rejected(w.rootNamespace, dirs) else []
  {
    if whole {
      return w.rootNamespace, [];
    }
    if dirs == [] {
      return [], [];
    }
    var entries := new Name[|w.rootNamespace|](i requires 0 <= i < |w.rootNamespace| => w.rootNamespace[i]);
    assert entries[..entries.Length] == w.rootNamespace;
    var kept, gone := FilterFlatNamespace(entries, entries.Length, dirs);
    return entries[..kept], gone;
  }

  /** send_handles_and_namespace. */
  method Send(w: World, flags: Flags, actions: seq<Action>, capacity: nat, nameCount: nat, flat: seq<Name>)
      returns (f: Final)
    requires Answers(w, actions) && capacity == Capacity(w, flags, actions) && nameCount == NameCount(actions) + |flat|
    ensures f == Sent(w, flags, actions, flat)
  {
    var box := new Outbox(capacity, nameCount);
    var error, n := box.FillFrom(w, flags, actions);
    FillFits(w, flags, actions);
    var infos, names := box.infos[..box.infosUsed], box.names[..box.namesUsed];
    var flatHandles := multiset(NameHandles(flat));
    var made := multiset(box.made) + flatHandles + UnsentLoader(w, flags);
    if error.Some? {
      var rest, fds := FreeFrom(actions, n);
      var stored := multiset(InfoHandles(infos)) + multiset(NameHandles(names));
      return Final(error, [], [], stored + multiset(rest) + flatHandles + UnsentLoader(w, flags), made, fds);
    }
    if w.addHandles.Some? {
      return Final(w.addHandles, infos, [], multiset(NameHandles(names)) + flatHandles, made, []);
    }
    assert box.namesUsed == |names| == NameCount(actions);
    box.PutNames(flat);
    assert box.namesUsed == nameCount;
    return Final(w.addNames, infos, box.names[..box.namesUsed], multiset{}, made, []);
  }

  method Connect(w: World, flags: Flags, exports: bool) returns (error: Option<Status>)
    ensures error == LauncherSetup(w, flags, exports)
  {
    if w.endpoints.Some? {
      return w.endpoints;
    }
    if w.connect.Some? {
      return w.connect;
    }
    if w.addArgs.Some? {
      return w.addArgs;
    }
    if w.hasEnviron {
      error := w.addEnvirons;
    } else if flags.cloneEnviron {
      error := w.addEnvirons;
    } else {
      error := None;
    }
    if error.None? && exports {
      error := w.exportRoot;
    }
  }

  /** The steps between the passes, with the loader service to send and those it superseded. */
  method Prepare(w: World, flags: Flags, exports: bool)
      returns (error: Option<Status>, ldsvc: Handle, superseded: multiset<Handle>)
    ensures error == Setup(w, flags, exports)
    ensures ldsvc == Ldsvc(w, flags) && superseded == Superseded(w, flags)
  {
    if flags.ldsvc && w.loader.Failed? {
      return Some(w.loader.status), INVALID, multiset{};
    }
    ldsvc, superseded := KeepLastLoader(Loaders(w, flags));
    error := w.interpreters.error;
    if error.None? {
      error := Connect(w, flags, exports);
    }
  }

  /** An error before the second pass: everything the actions hold is released. */
  method Abandon(actions: seq<Action>, error: Option<Status>, loaders: multiset<Handle>) returns (f: Final)
    ensures f == Final(error, [], [], multiset(Carried(actions)) + loaders, loaders, Locals(actions))
  {
    var closed, fds := FreeFrom(actions, 0);
    assert actions[0..] == actions;
    return Final(error, [], [], multiset(closed) + loaders, loaders, fds);
  }

  lemma LastAndSuperseded(w: World, flags: Flags)
    ensures Superseded(w, flags) + Valid([Ldsvc(w, flags)]) == Valid(Loaders(w, flags))
  {
    var loaders := Loaders(w, flags);
    if loaders != [] {
      ValidNext(loaders, |loaders| - 1);
      assert loaders[..|loaders|] == loaders;
    }
  }

  /** spawn_vmo_impl up to the launch message. */
  method SpawnVmo(w: World, flags: Flags, argv0: Option<string>, actions: seq<Action>) returns (f: Final)
    requires Answers(w, actions)
    ensures f == Spawned(w, flags, argv0, actions)
  {
    var counted := None;
    if w.validArgs {
      counted := CountActions(actions, flags.utcClock, argv0);
    }
    if counted.None? {
      f := Abandon(actions, Some(INVALID_ARGS), multiset{});
      return;
    }
    var c := counted.value;
    var whole := flags.cloneNamespace || c.root;
    assert whole == WholeNamespace(flags, actions);
    var error, ldsvc, superseded := Prepare(w, flags, whole || c.dirs != []);
    if error.Some? {
      LastAndSuperseded(w, flags);
      f := Abandon(actions, error, superseded + Valid([ldsvc]));
      return;
    }
    var capacity := c.infos + One(flags.job) + (if flags.stdio then 3 else 0)
                    + One(flags.utcClock && w.utcClock != INVALID) + One(ldsvc != INVALID);
    var flat, closed := ExportNamespace(w, whole, c.dirs);
    assert flat == Shared(w, flags, actions) && closed == Unshared(w, flags, actions);
    f := Send(w, flags, actions, capacity, c.names + |flat|, flat);
    var dropped := multiset(closed) + superseded;
    f := f.(closed := f.closed + dropped, made := f.made + dropped);
  }
}
