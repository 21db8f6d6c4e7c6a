/**
 * The timerfd of fdio (fdio/timer.cc): a deadline, an interval, and a read that delivers how many
 * intervals have passed and moves the deadline past the present.
 *
 * Times and durations are signed 64-bit numbers of nanoseconds whose sums and products saturate,
 * as those of zx::time and zx::duration do.  The clock shows less than the greatest time.
 */
module Timer {
  import opened Arithmetic
  import opened Iovec
  import opened Wrappers

  const MAX: int := 0x7FFF_FFFF_FFFF_FFFF
  const SECOND: int := 1_000_000_000
  const COUNT_SIZE: nat := 8

  type Clock = t: int | 0 <= t < MAX

  function Sat(x: int): int {
    if x > MAX then MAX else x
  }

  /** A deadline of zero means that the timer is not armed. */
  datatype State = State(deadline: int, interval: int)

  datatype ReadResult = TooSmall | ShouldWait | Count(n: int)

  predicate Sound(s: State) {
    0 <= s.deadline <= MAX && 0 <= s.interval <= MAX
  }

  function Read(s: State, capacity: nat, now: Clock): (State, ReadResult) {
    if capacity < COUNT_SIZE then (s, TooSmall)
    else if s.deadline == 0 || s.deadline > now then (s, ShouldWait)
    else if s.interval > 0 then
      var count := (now - s.deadline) / s.interval + 1;
      (s.(deadline := Sat(s.deadline + Sat(s.interval * count))), Count(count))
    else (s.(deadline := 0), Count(1))
  }

  // ------------------------------------------------------------------- catching up

  datatype Attempt = Attempt(capacity: nat, now: Clock)

  /** The state after a sequence of reads and the sum of what they delivered. */
  function ReadAll(s: State, attempts: seq<Attempt>): (State, int) {
    if attempts == [] then (s, 0)
    else
      var (t, sum) := ReadAll(s, attempts[..|attempts| - 1]);
      var (t', r) := Read(t, attempts[|attempts| - 1].capacity, attempts[|attempts| - 1].now);
      (t', if r.Count? then sum + r.n else sum)
  }

  /** How often a timer that is due first and then at every interval is due by some time. */
  function Due(first: int, interval: int, t: int): int
    requires interval > 0
  {
    if t < first then 0 else (t - first) / interval + 1
  }

  function Later(a: int, b: int): int {
    if a < b then b else a
  }

  /** The most that was due at any of the reads that had room for the count. */
  function MostDue(first: int, interval: int, attempts: seq<Attempt>): int
    requires interval > 0
  {
    if attempts == [] then 0
    else
      var front, last := MostDue(first, interval, attempts[..|attempts| - 1]), attempts[|attempts| - 1];
      if last.capacity < COUNT_SIZE then front else Later(front, Due(first, interval, last.now))
  }

  /** After k deliveries in all, the deadline is the k-th point of the grid, or never. */
  ghost predicate OnGrid(s: State, first: int, interval: int, k: int) {
    && 0 < first <= MAX && 0 < interval <= MAX && k >= 0
    && s == State(Sat(first + k * interval), interval)
  }

  lemma DueBeyond(first: int, interval: int, k: int, t: int)
    requires interval > 0 && k >= 0
    ensures Due(first, interval, t) <= k <==> t < first + k * interval
  {
    if t < first {
      MulMono(0, k, interval);
    } else {
      DivBelow(t - first, k, interval);
    }
  }

  lemma CountCatchesUp(first: int, interval: int, k: int, now: int)
    requires 0 < interval && k >= 0 && first + k * interval <= now
    ensures k + ((now - (first + k * interval)) / interval + 1) == Due(first, interval, now)
  {
    MulMono(0, k, interval);
    DivShift(now - (first + k * interval), k, interval);
  }

  /** One read with room for the count keeps the deadline on the grid, beyond the present, and
      delivers what is missing; one without changes nothing. */
  lemma ReadStaysOnGrid(s: State, first: int, interval: int, k: int, now: Clock, capacity: nat)
    requires OnGrid(s, first, interval, k)
    ensures var (s', r) := Read(s, capacity, now);
            var k' := Later(k, Due(first, interval, now));
            if capacity < COUNT_SIZE then s' == s && r == TooSmall
            else
              && OnGrid(s', first, interval, k') && s'.deadline > now
              && (if k' > k then r == Count(k' - k) else r == ShouldWait)
  {
    DueBeyond(first, interval, k, now);
    MulMono(0, k, interval);
    if capacity >= COUNT_SIZE && s.deadline <= now {
      CountCatchesUp(first, interval, k, now);
      var count := (now - s.deadline) / interval + 1;
      assert k * interval + interval * count == (k + count) * interval;
      SatSum(s.deadline, interval * count);
      DueBeyond(first, interval, k + count, now);
    }
  }

  lemma SatSum(a: int, b: int)
    requires 0 <= a
    ensures Sat(a + Sat(b)) == Sat(a + b)
  {
  }

  /** Whatever reads are made and whenever, the counts of a repeating timer sum up to the most that
      was due at any of them, and the deadline is the next point of the grid that began at first. */
  lemma {:induction false} CatchUp(first: int, interval: int, attempts: seq<Attempt>)
    requires 0 < first <= MAX && 0 < interval <= MAX
    ensures var (s, sum) := ReadAll(State(first, interval), attempts);
            sum == MostDue(first, interval, attempts) && OnGrid(s, first, interval, sum)
  {
    if attempts != [] {
      var front, last := attempts[..|attempts| - 1], attempts[|attempts| - 1];
      CatchUp(first, interval, front);
      var (s, sum) := ReadAll(State(first, interval), front);
      ReadStaysOnGrid(s, first, interval, sum, last.now, last.capacity);
    }
  }

  lemma CountMeansDue(s: State, first: int, interval: int, k: int, now: Clock, capacity: nat)
    requires OnGrid(s, first, interval, k) && Read(s, capacity, now).1.Count?
    ensures capacity >= COUNT_SIZE && now >= first && Due(first, interval, now) > k
  {
    DueBeyond(first, interval, k, now);
    MulMono(0, k, interval);
  }

  lemma NextIsLater(s: State, first: int, interval: int, now: Clock)
    requires 0 < interval && now >= first && OnGrid(s, first, interval, Due(first, interval, now))
    ensures s.deadline > now
  {
    DueBeyond(first, interval, Due(first, interval, now), now);
  }

  /** If the last read delivered, exactly what was due by then was delivered, so that one late read
      delivers as much as many timely ones; and the deadline is on the grid, in the future. */
  lemma DeliveredByNow(first: int, interval: int, attempts: seq<Attempt>)
    requires 0 < first <= MAX && 0 < interval <= MAX && attempts != []
    requires var (front, last) := (attempts[..|attempts| - 1], attempts[|attempts| - 1]);
             Read(ReadAll(State(first, interval), front).0, last.capacity, last.now).1.Count?
    ensures var (s, sum) := ReadAll(State(first, interval), attempts);
            var now := attempts[|attempts| - 1].now;
            now >= first && sum == Due(first, interval, now) && OnGrid(s, first, interval, sum) && s.deadline > now
  {
    var front, last := attempts[..|attempts| - 1], attempts[|attempts| - 1];
    CatchUp(first, interval, front);
    CatchUp(first, interval, attempts);
    var (s, k) := ReadAll(State(first, interval), front);
    CountMeansDue(s, first, interval, k, last.now, last.capacity);
    NextIsLater(ReadAll(State(first, interval), attempts).0, first, interval, last.now);
  }

  // ---------------------------------------------------------------------- one shot

  function Successes(s: State, attempts: seq<Attempt>): nat {
    if attempts == [] then 0
    else
      var (t, _) := ReadAll(s, attempts[..|attempts| - 1]);
      Successes(s, attempts[..|attempts| - 1])
      + if Read(t, attempts[|attempts| - 1].capacity, attempts[|attempts| - 1].now).1.Count? then 1 else 0
  }

  ghost predicate SomeDue(first: int, attempts: seq<Attempt>) {
    exists i :: 0 <= i < |attempts| && attempts[i].capacity >= COUNT_SIZE && attempts[i].now >= first
  }

  /** A timer without interval delivers one, once, exactly if some read was made in time. */
  lemma {:induction false} OneShot(first: int, attempts: seq<Attempt>)
    requires 0 < first <= MAX
    ensures var (s, sum) := ReadAll(State(first, 0), attempts);
            if SomeDue(first, attempts) then sum == 1 && Successes(State(first, 0), attempts) == 1 && s == State(0, 0)
            else sum == 0 && Successes(State(first, 0), attempts) == 0 && s == State(first, 0)
  {
    if attempts != [] {
      var front, last := attempts[..|attempts| - 1], attempts[|attempts| - 1];
      OneShot(first, front);
      assert attempts == front + [last];
      assert SomeDue(first, attempts) <==> SomeDue(first, front) || (last.capacity >= COUNT_SIZE && last.now >= first);
    }
  }

  /** A timer that is not armed never delivers, whatever its interval. */
  lemma {:induction false} DisarmedNeverDelivers(interval: int, attempts: seq<Attempt>)
    ensures ReadAll(State(0, interval), attempts) == (State(0, interval), 0)
    ensures Successes(State(0, interval), attempts) == 0
  {
    if attempts != [] { DisarmedNeverDelivers(interval, attempts[..|attempts| - 1]); }
  }

  // ------------------------------------------------------------------- set and get

  datatype Timespec = Timespec(sec: int, nsec: int)

  predicate Rejected(spec: Timespec) {
    spec.sec < 0 || spec.nsec < 0 || spec.sec > MAX / SECOND
  }

  /** A spec is refused exactly if a part is negative or its seconds alone are more than a duration
      can be; too many nanoseconds are not. */
  lemma RejectedIff(spec: Timespec)
    ensures Rejected(spec) <==> spec.sec < 0 || spec.nsec < 0 || spec.sec * SECOND > MAX
  {
  }

  function ToDuration(spec: Timespec): int {
    Sat(spec.sec * SECOND + spec.nsec)
  }

  /** Division that truncates toward zero. */
  function TruncDiv(x: int, d: int): int
    requires d > 0
  {
    if x >= 0 then x / d else -(-x / d)
  }

  function ToTimespec(duration: int): Timespec {
    Timespec(TruncDiv(duration, SECOND), duration - TruncDiv(duration, SECOND) * SECOND)
  }

  lemma DurationRoundTrip(duration: int)
    requires 0 <= duration <= MAX
    ensures !Rejected(ToTimespec(duration)) && ToDuration(ToTimespec(duration)) == duration
    ensures 0 <= ToTimespec(duration).nsec < SECOND
  {
  }

  /** The spec is what the duration that it stands for is written as. */
  predicate Normal(spec: Timespec) {
    spec.nsec < SECOND && spec.sec * SECOND + spec.nsec <= MAX
  }

  lemma TimespecRoundTrip(spec: Timespec)
    requires !Rejected(spec)
    ensures ToTimespec(ToDuration(spec)) == spec <==> Normal(spec)
  {
    DurationRoundTrip(ToDuration(spec));
  }

  /** What timerfd_settime sets: zero disarms, anything else is in the future. */
  function Set(value: Timespec, interval: Timespec, now: Clock): (r: State)
    requires !Rejected(value) && !Rejected(interval)
    ensures Sound(r) && (r.deadline == 0 <==> value == Timespec(0, 0)) && (r.deadline != 0 ==> r.deadline > now)
  {
    var v := ToDuration(value);
    State(if v == 0 then 0 else Sat(now + v), ToDuration(interval))
  }

  /** What is left until the deadline, as timerfd_gettime computes it. */
  function Remaining(s: State, now: Clock): int {
    if s.interval == 0 && s.deadline <= now then 0 else s.deadline - now
  }

  datatype Setting = Setting(value: Timespec, interval: Timespec)

  /** What timerfd_gettime shows. */
  function Shown(s: State, now: Clock): Setting {
    Setting(ToTimespec(Remaining(s, now)), ToTimespec(s.interval))
  }

  /** The time left is not negative exactly if the timer does not repeat or is not behind; it is
      zero for a timer that is not armed only if it does not repeat. */
  lemma RemainingNotNegative(s: State, now: Clock)
    requires Sound(s)
    ensures Remaining(s, now) >= 0 <==> s.interval == 0 || s.deadline >= now
    ensures s.deadline == 0 ==> (Remaining(s, now) == 0 <==> s.interval == 0 || now == 0)
  {
  }

  /** From the setting to the deadline, what is left is the duration asked for, cut off at the
      greatest time, less the time gone by. */
  lemma CountsDown(value: Timespec, interval: Timespec, now: Clock, later: Clock)
    requires !Rejected(value) && !Rejected(interval) && value != Timespec(0, 0)
    requires now <= later <= Set(value, interval, now).deadline
    ensures Remaining(Set(value, interval, now), later) + (later - now) ==
              if now + ToDuration(value) <= MAX then ToDuration(value) else MAX - now
  {
  }

  /** What was just set is shown exactly if both specs are written as durations are, the deadline is
      within the greatest time, and a timer that is disarmed has no interval or the clock is at zero. */
  lemma SetThenShown(value: Timespec, interval: Timespec, now: Clock)
    requires !Rejected(value) && !Rejected(interval)
    ensures Shown(Set(value, interval, now), now) == Setting(value, interval) <==>
              && Normal(value) && Normal(interval) && now + ToDuration(value) <= MAX
              && (value == Timespec(0, 0) ==> interval == Timespec(0, 0) || now == 0)
  {
    TimespecRoundTrip(value);
    TimespecRoundTrip(interval);
    if value != Timespec(0, 0) {
      CountsDown(value, interval, now, now);
      DurationRoundTrip(Remaining(Set(value, interval, now), now));
    }
  }

  /** Disarming with an interval, one second after the start of the clock. */
  lemma DisarmedShowsNegative()
    ensures var s := Set(Timespec(0, 0), Timespec(1, 0), SECOND);
            s.deadline == 0 && Remaining(s, SECOND) == -SECOND && ToTimespec(Remaining(s, SECOND)) == Timespec(-1, 0)
  {
    assert TruncDiv(-SECOND, SECOND) == -1;
  }

  // ------------------------------------------------------------------- the object

  /** A count always fits into eight bytes. */
  lemma CountFits(s: State, capacity: nat, now: Clock)
    requires Sound(s) && Read(s, capacity, now).1.Count?
    ensures 0 < Read(s, capacity, now).1.n < Power(COUNT_SIZE)
  {
    Power8();
    if s.interval > 0 { DivAtMost(now - s.deadline, s.interval); }
  }

  /** What a read leaves in the caller's buffers: the bytes of the count in front and nothing else
      changed, or nothing changed at all. */
  ghost predicate Delivered(v: Vector, r: ReadResult, out: Vector, actual: nat) {
    && SameShape(out, v)
    && match r {
         case Count(n) =>
           && actual == COUNT_SIZE && COUNT_SIZE <= |Flat(v)| && |Flat(out)| == |Flat(v)|
           && Decoded(Flat(out)[..COUNT_SIZE]) == n && Flat(out)[COUNT_SIZE..] == Flat(v)[COUNT_SIZE..]
         case _ => out == v && actual == 0
       }
  }

  lemma CountDelivered(v: Vector, n: nat)
    requires |Flat(v)| >= COUNT_SIZE && n < Power(COUNT_SIZE)
    ensures Delivered(v, Count(n), Filled(v, Encoded(n, COUNT_SIZE)), COUNT_SIZE)
  {
    var bytes := Encoded(n, COUNT_SIZE);
    FilledIs(v, bytes);
    CopyRoundTrip(bytes, v);
    EncodeRoundTrip(n, COUNT_SIZE);
    assert bytes[..COUNT_SIZE] == bytes;
  }

  /** Kernel has the status of arming or cancelling the kernel's timer. */
  datatype SetResult = EBADF | EINVAL | Kernel(status: int) | Done(before: Option<Setting>)

  class TimerFd {
    var deadline: int
    var interval: int

    ghost function View(): State
      reads this
    {
      State(deadline, interval)
    }

    constructor ()
      ensures View() == State(0, 0) && Sound(View())
    {
      deadline, interval := 0, 0;
    }

    /** How many intervals are delivered. */
    method Elapse(now: Clock) returns (count: nat)
      requires Sound(View()) && 0 < deadline <= now
      modifies this
      ensures Sound(View()) && (View(), Count(count)) == Read(old(View()), COUNT_SIZE, now)
    {
      count := 1;
      if interval > 0 {
        count := (now - deadline) / interval + 1;
        MulMono(0, count, interval);
        deadline := Sat(deadline + Sat(interval * count));
      } else {
        deadline := 0;
      }
    }

    method Readv(v: Vector, now: Clock) returns (r: ReadResult, out: Vector, actual: nat)
      requires Sound(View())
      modifies this
      ensures Sound(View()) && (View(), r) == Read(old(View()), |Flat(v)|, now)
      ensures Delivered(v, r, out, actual)
    {
      var capacity := Capacity(v);
      if capacity < COUNT_SIZE {
        return TooSmall, v, 0;
      }
      if deadline == 0 {
        return ShouldWait, v, 0;
      }
      if deadline > now {
        return ShouldWait, v, 0;
      }
      CountFits(View(), capacity, now);
      var count := Elapse(now);
      out, actual := CopyTo(Encoded(count, COUNT_SIZE), v);
      CountDelivered(v, count);
      r := Count(count);
    }

    /** The old setting, if it is asked for, is that at the first look at the clock; an error
        changes nothing. */
    method SetTime(flags: int, value: Timespec, newInterval: Timespec, wantOld: bool, kernel: int, first: Clock,
        now: Clock)
      returns (r: SetResult)
      requires Sound(View())
      modifies this
      ensures Sound(View())
      ensures r == if flags != 0 || Rejected(value) || Rejected(newInterval) then EINVAL
                   else if kernel != 0 then Kernel(kernel)
                   else Done(if wantOld then Some(Shown(old(View()), first)) else None)
      ensures View() == if r.Done? then Set(value, newInterval, now) else old(View())
    {
      if flags != 0 {
        return EINVAL;
      }
      if Rejected(value) {
        return EINVAL;
      }
      if Rejected(newInterval) {
        return EINVAL;
      }
      var before := None;
      if wantOld {
        var setting := GetTime(first);
        before := Some(setting);
      }
      var v := ToDuration(value);
      if kernel != 0 {
        return Kernel(kernel);
      }
      deadline := if v == 0 then 0 else Sat(now + v);
      interval := ToDuration(newInterval);
      return Done(before);
    }

    method GetTime(now: Clock) returns (setting: Setting)
      ensures setting == Shown(View(), now)
    {
      if interval == 0 && deadline <= now {
        return Setting(ToTimespec(0), ToTimespec(interval));
      }
      return Setting(ToTimespec(deadline - now), ToTimespec(interval));
    }
  }

  /** What a descriptor leads to. */
  datatype Lookup = Nothing | OtherObject | Timer(timer: TimerFd)

  /** timerfd_settime. */
  method SetTimeOf(io: Lookup, flags: int, value: Timespec, interval: Timespec, wantOld: bool, kernel: int,
      first: Clock, now: Clock)
    returns (r: SetResult)
    requires io.Timer? ==> Sound(io.timer.View())
    modifies if io.Timer? then {io.timer} else {}
    ensures r == EBADF <==> io.Nothing?
    ensures r == EINVAL <==> io.OtherObject? || (io.Timer? && (flags != 0 || Rejected(value) || Rejected(interval)))
    ensures r.Kernel? ==> kernel != 0 && r.status == kernel
    ensures r.Done? ==>
              && io.Timer? && kernel == 0
              && r.before == if wantOld then Some(Shown(old(io.timer.View()), first)) else None
    ensures io.Timer? ==> io.timer.View() == if r.Done? then Set(value, interval, now) else old(io.timer.View())
  {
    match io
    case Nothing => return EBADF;
    case OtherObject => return EINVAL;
    case Timer(timer) => r := timer.SetTime(flags, value, interval, wantOld, kernel, first, now);
  }

  /** timerfd_gettime. */
  method GetTimeOf(io: Lookup, now: Clock) returns (r: SetResult)
    ensures r == match io {
                   case Nothing => EBADF
                   case OtherObject => EINVAL
                   case Timer(timer) => Done(Some(Shown(timer.View(), now)))
                 }
  {
    match io
    case Nothing => return EBADF;
    case OtherObject => return EINVAL;
    case Timer(timer) =>
      var setting := timer.GetTime(now);
      return Done(Some(setting));
  }
}
