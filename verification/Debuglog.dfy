/**
 * Writing to the debug log (zxio/debuglog.cc, zxio/include/lib/zxio/cpp/vector.h): bytes gather in
 * a buffer that is written as one record at a line end, at an explicit flush or when it is full.
 *
 * Whether char is signed depends on the target, so it is a parameter.  The answers of the log to
 * its writes are a function of the number of the write.
 */
module Debuglog {
  import opened Wrappers

  type Byte = b: int | 0 <= b < 256
  type Status = int

  /** ZX_LOG_RECORD_DATA_MAX of zircon/syscalls/log.h; what follows only needs it to be positive. */
  const RECORD_MAX: nat := 216
  const NEWLINE: Byte := 10
  const NOT_SUPPORTED: Status := -2

  /** An entry of the vector: a null pointer of capacity zero asks for a flush. */
  datatype Entry = FlushMark | Data(bytes: seq<Byte>)

  datatype Symbol = Mark | Char(byte: Byte)

  /** The target and the log: None means that a write succeeds. */
  datatype World = World(signedChar: bool, write: nat -> Option<Status>)

  /** The records that the log took, the bytes waiting, and the number of writes so far. */
  datatype Log = Log(records: seq<seq<Byte>>, pending: seq<Byte>, writes: nat)

  const EMPTY: Log := Log([], [], 0)

  /** c < ' ' */
  predicate IsControl(w: World, b: Byte) {
    b < 32 || (w.signedChar && b >= 128)
  }

  // --------------------------------------------------------------------- a stream

  function Flush(l: Log, w: World): (Log, Option<Status>) {
    (Log(if w.write(l.writes).None? then l.records + [l.pending] else l.records, [], l.writes + 1), w.write(l.writes))
  }

  function Feed(l: Log, s: Symbol, w: World): (Log, Option<Status>) {
    if s == Mark || s.byte == NEWLINE then Flush(l, w)
    else if IsControl(w, s.byte) then (l, None)
    else
      var l' := l.(pending := l.pending + [s.byte]);
      if |l'.pending| == RECORD_MAX then Flush(l', w) else (l', None)
  }

  /** Symbols are fed until a write fails. */
  function FeedAll(l: Log, stream: seq<Symbol>, w: World): (Log, Option<Status>)
    decreases |stream|
  {
    if stream == [] then (l, None)
    else
      var (l', error) := Feed(l, stream[0], w);
      if error.Some? then (l', error) else FeedAll(l', stream[1..], w)
  }

  lemma {:induction false} FeedAppend(l: Log, a: seq<Symbol>, b: seq<Symbol>, w: World)
    ensures FeedAll(l, a + b, w) ==
              if FeedAll(l, a, w).1.Some? then FeedAll(l, a, w) else FeedAll(FeedAll(l, a, w).0, b, w)
    decreases |a|
  {
    if a == [] {
      assert a + b == b;
    } else {
      assert (a + b)[1..] == a[1..] + b;
      FeedAppend(Feed(l, a[0], w).0, a[1..], b, w);
    }
  }

  // ---------------------------------------------------------------------- entries

  function Chars(bytes: seq<Byte>): seq<Symbol> {
    seq(|bytes|, i requires 0 <= i < |bytes| => Char(bytes[i]))
  }

  lemma FeedAllAt(l: Log, bytes: seq<Byte>, i: nat, w: World)
    requires i < |bytes|
    ensures var (l', error) := Feed(l, Char(bytes[i]), w);
            FeedAll(l, Chars(bytes)[i..], w) ==
            if error.Some? then (l', error) else FeedAll(l', Chars(bytes)[i + 1..], w)
  {
    assert Chars(bytes)[i..][1..] == Chars(bytes)[i + 1..];
  }

  lemma FeedMark(l: Log, w: World)
    ensures FeedAll(l, [Mark], w) == Flush(l, w)
  {
    assert [Mark][1..] == [];
  }

  function Symbols(e: Entry): seq<Symbol> {
    match e
    case FlushMark => [Mark]
    case Data(bytes) => Chars(bytes)
  }

  function Capacity(e: Entry): nat {
    if e.Data? then |e.bytes| else 0
  }

  function Stream(vector: seq<Entry>): seq<Symbol> {
    if vector == [] then [] else Symbols(vector[0]) + Stream(vector[1..])
  }

  function Capacities(vector: seq<Entry>): nat {
    if vector == [] then 0 else Capacity(vector[0]) + Capacities(vector[1..])
  }

  /** zxio_do_vector: the total of the entries that went through, and the error that stopped it;
      the error is only returned if the total is zero. */
  function DoVector(l: Log, vector: seq<Entry>, total: nat, w: World): (Log, nat, Option<Status>)
    decreases |vector|
  {
    if vector == [] then (l, total, None)
    else
      var (l', error) := FeedAll(l, Symbols(vector[0]), w);
      if error.Some? then (l', total, if total > 0 then None else error)
      else DoVector(l', vector[1..], total + Capacity(vector[0]), w)
  }

  lemma VectorStep(l: Log, vector: seq<Entry>, i: nat, total: nat, w: World)
    requires i < |vector|
    ensures var (l', error) := FeedAll(l, Symbols(vector[i]), w);
            DoVector(l, vector[i..], total, w) ==
            if error.Some? then (l', total, if total > 0 then None else error)
            else DoVector(l', vector[i + 1..], total + Capacity(vector[i]), w)
  {
    assert vector[i..][1..] == vector[i + 1..];
  }

  lemma StreamStep(l: Log, vector: seq<Entry>, w: World)
    requires vector != []
    ensures var (l', error) := FeedAll(l, Symbols(vector[0]), w);
            FeedAll(l, Stream(vector), w) == if error.Some? then (l', error) else FeedAll(l', Stream(vector[1..]), w)
  {
    FeedAppend(l, Symbols(vector[0]), Stream(vector[1..]), w);
  }

  /** How many entries go through before the first failing write. */
  function Written(l: Log, vector: seq<Entry>, w: World): (n: nat)
    ensures n <= |vector|
    decreases |vector|
  {
    if vector == [] || FeedAll(l, Symbols(vector[0]), w).1.Some? then 0
    else 1 + Written(FeedAll(l, Symbols(vector[0]), w).0, vector[1..], w)
  }

  lemma {:induction false} WrittenIsStream(l: Log, vector: seq<Entry>, w: World)
    ensures FeedAll(l, Stream(vector[..Written(l, vector, w)]), w).1.None?
    ensures FeedAll(l, Stream(vector), w).1.None? <==> Written(l, vector, w) == |vector|
    decreases |vector|
  {
    if vector == [] || FeedAll(l, Symbols(vector[0]), w).1.Some? {
      assert vector[..0] == [];
      if vector != [] { StreamStep(l, vector, w); }
      return;
    }
    var l' := FeedAll(l, Symbols(vector[0]), w).0;
    WrittenIsStream(l', vector[1..], w);
    var n := Written(l', vector[1..], w);
    assert vector[..n + 1][1..] == vector[1..][..n] && vector[..n + 1][0] == vector[0];
    StreamStep(l, vector, w);
    StreamStep(l, vector[..n + 1], w);
  }

  /** The whole vector is written as one stream; what is reported is the size of the entries before
      the first failing write, and the failure itself only if that is zero. */
  lemma {:induction false} VectorIsStream(l: Log, vector: seq<Entry>, total: nat, w: World)
    ensures DoVector(l, vector, total, w).0 == FeedAll(l, Stream(vector), w).0
    ensures DoVector(l, vector, total, w).1 == total + Capacities(vector[..Written(l, vector, w)])
    ensures DoVector(l, vector, total, w).2 ==
              if DoVector(l, vector, total, w).1 > 0 then None else FeedAll(l, Stream(vector), w).1
    decreases |vector|
  {
    if vector == [] {
      assert vector[..0] == [];
      return;
    }
    StreamStep(l, vector, w);
    VectorStep(l, vector, 0, total, w);
    assert vector[0..] == vector;
    var (l', error) := FeedAll(l, Symbols(vector[0]), w);
    if error.Some? {
      assert vector[..0] == [];
      return;
    }
    var rest := vector[1..];
    VectorIsStream(l', rest, total + Capacity(vector[0]), w);
    var n := Written(l', rest, w);
    assert vector[..n + 1][1..] == rest[..n];
    assert Capacities(vector[..n + 1]) == Capacity(vector[0]) + Capacities(rest[..n]);
  }

  // ---------------------------------------------------------- splitting does not matter

  ghost predicate Succeeds(w: World) {
    forall i :: w.write(i).None?
  }

  lemma {:induction false} FeedSucceeds(l: Log, stream: seq<Symbol>, w: World)
    requires Succeeds(w)
    ensures FeedAll(l, stream, w).1.None?
    decreases |stream|
  {
    if stream != [] { FeedSucceeds(Feed(l, stream[0], w).0, stream[1..], w); }
  }

  /** Several calls of writev, one after the other. */
  function WriteCalls(l: Log, calls: seq<seq<Entry>>, w: World): Log
    decreases |calls|
  {
    if calls == [] then l else WriteCalls(DoVector(l, calls[0], 0, w).0, calls[1..], w)
  }

  function CallStream(calls: seq<seq<Entry>>): seq<Symbol> {
    if calls == [] then [] else Stream(calls[0]) + CallStream(calls[1..])
  }

  lemma {:induction false} CallsAreStream(l: Log, calls: seq<seq<Entry>>, w: World)
    requires Succeeds(w)
    ensures WriteCalls(l, calls, w) == FeedAll(l, CallStream(calls), w).0
    decreases |calls|
  {
    if calls != [] {
      VectorIsStream(l, calls[0], 0, w);
      FeedSucceeds(l, Stream(calls[0]), w);
      FeedAppend(l, Stream(calls[0]), CallStream(calls[1..]), w);
      CallsAreStream(DoVector(l, calls[0], 0, w).0, calls[1..], w);
    }
  }

  /** While writes succeed, records and waiting bytes depend on the stream alone, not on how calls
      and entries divide it. */
  lemma ChunkingIndependent(l: Log, a: seq<seq<Entry>>, b: seq<seq<Entry>>, w: World)
    requires Succeeds(w) && CallStream(a) == CallStream(b)
    ensures WriteCalls(l, a, w) == WriteCalls(l, b, w)
  {
    CallsAreStream(l, a, w);
    CallsAreStream(l, b, w);
  }

  // --------------------------------------------------------------- nothing else is lost

  function KeptOf(s: Symbol, w: World): seq<Byte> {
    if s.Char? && s.byte != NEWLINE && !IsControl(w, s.byte) then [s.byte] else []
  }

  /** The stream without marks, line ends and control characters. */
  function Kept(stream: seq<Symbol>, w: World): seq<Byte> {
    if stream == [] then [] else KeptOf(stream[0], w) + Kept(stream[1..], w)
  }

  function Joined(records: seq<seq<Byte>>): seq<Byte> {
    if records == [] then [] else Joined(records[..|records| - 1]) + records[|records| - 1]
  }

  function AllBytes(l: Log): seq<Byte> {
    Joined(l.records) + l.pending
  }

  lemma JoinedLast(records: seq<seq<Byte>>, last: seq<Byte>)
    ensures Joined(records + [last]) == Joined(records) + last
  {
    assert (records + [last])[..|records|] == records;
  }

  lemma FlushKeepsBytes(l: Log, w: World)
    requires w.write(l.writes).None?
    ensures AllBytes(Flush(l, w).0) == AllBytes(l)
  {
    JoinedLast(l.records, l.pending);
  }

  lemma FeedKeepsBytes(l: Log, s: Symbol, w: World)
    requires Feed(l, s, w).1.None?
    ensures AllBytes(Feed(l, s, w).0) == AllBytes(l) + KeptOf(s, w)
  {
    if s == Mark || s.byte == NEWLINE {
      FlushKeepsBytes(l, w);
    } else if !IsControl(w, s.byte) {
      var l' := l.(pending := l.pending + [s.byte]);
      if |l'.pending| == RECORD_MAX { FlushKeepsBytes(l', w); }
    }
  }

  lemma Assoc(a: seq<Byte>, b: seq<Byte>, c: seq<Byte>)
    ensures a + [] == a && (a + b) + c == a + (b + c)
  {
  }

  /** Unless a write fails, records and waiting bytes, joined, are the input without what is dropped. */
  lemma {:induction false} BytesAreKept(l: Log, stream: seq<Symbol>, w: World)
    requires FeedAll(l, stream, w).1.None?
    ensures AllBytes(FeedAll(l, stream, w).0) == AllBytes(l) + Kept(stream, w)
    decreases |stream|
  {
    if stream == [] {
      Assoc(AllBytes(l), [], []);
    } else {
      FeedKeepsBytes(l, stream[0], w);
      BytesAreKept(Feed(l, stream[0], w).0, stream[1..], w);
      Assoc(AllBytes(l), KeptOf(stream[0], w), Kept(stream[1..], w));
    }
  }

  /** A write that fails ends the run: it is the only one that failed, what it returned is returned,
      and of all the bytes before it just those that it carried are lost. */
  lemma {:induction false} FailureLoses(l: Log, stream: seq<Symbol>, w: World) returns (n: nat, lost: seq<Byte>)
    requires FeedAll(l, stream, w).1.Some?
    ensures n < |stream| && FeedAll(l, stream[..n], w).1.None?
    ensures var (before, (after, error)) := (FeedAll(l, stream[..n], w).0, FeedAll(l, stream, w));
            && error == w.write(before.writes) && after == Log(before.records, [], before.writes + 1)
            && lost == before.pending + KeptOf(stream[n], w)
            && AllBytes(after) + lost == AllBytes(l) + Kept(stream[..n + 1], w)
    decreases |stream|
  {
    var (next, error) := Feed(l, stream[0], w);
    if error.Some? {
      n, lost := 0, l.pending + KeptOf(stream[0], w);
      assert stream[..0] == [] && stream[..1] == [stream[0]];
      assert Kept([stream[0]][1..], w) == [];
      Assoc(KeptOf(stream[0], w), [], []);
      Assoc(Joined(l.records), l.pending, KeptOf(stream[0], w));
      Assoc(Joined(l.records), [], []);
    } else {
      n, lost := FailureLoses(next, stream[1..], w);
      n := n + 1;
      assert stream[..n][1..] == stream[1..][..n - 1] && stream[..n + 1][1..] == stream[1..][..n];
      FeedKeepsBytes(l, stream[0], w);
      Assoc(AllBytes(l), KeptOf(stream[0], w), Kept(stream[1..][..n], w));
    }
  }

  /** Every write of a run that does not fail succeeded and made one record. */
  lemma {:induction false} WritesMakeRecords(l: Log, stream: seq<Symbol>, w: World)
    requires FeedAll(l, stream, w).1.None?
    ensures var l' := FeedAll(l, stream, w).0;
            && l.records <= l'.records && |l'.records| - |l.records| == l'.writes - l.writes
            && forall i :: l.writes <= i < l'.writes ==> w.write(i).None?
    decreases |stream|
  {
    if stream != [] { WritesMakeRecords(Feed(l, stream[0], w).0, stream[1..], w); }
  }

  // ------------------------------------------------------------------ records fit

  /** Records are short enough and free of what is dropped, and the buffer has room. */
  ghost predicate Clean(bytes: seq<Byte>, w: World) {
    forall i :: 0 <= i < |bytes| ==> bytes[i] != NEWLINE && !IsControl(w, bytes[i])
  }

  ghost predicate Valid(l: Log, w: World) {
    && |l.pending| < RECORD_MAX && Clean(l.pending, w)
    && forall i :: 0 <= i < |l.records| ==> |l.records[i]| <= RECORD_MAX && Clean(l.records[i], w)
  }

  lemma FeedKeeps(l: Log, s: Symbol, w: World)
    requires Valid(l, w)
    ensures Valid(Feed(l, s, w).0, w)
  {
  }

  lemma {:induction false} FeedAllKeeps(l: Log, stream: seq<Symbol>, w: World)
    requires Valid(l, w)
    ensures Valid(FeedAll(l, stream, w).0, w)
    decreases |stream|
  {
    if stream != [] {
      FeedKeeps(l, stream[0], w);
      if Feed(l, stream[0], w).1.None? {
        FeedAllKeeps(Feed(l, stream[0], w).0, stream[1..], w);
      }
    }
  }

  /** A mark or a line end is one write of what waits, be it nothing, and then nothing waits,
      whether or not the write succeeded. */
  lemma MarkWrites(l: Log, stream: seq<Symbol>, mark: Symbol, w: World)
    requires FeedAll(l, stream, w).1.None? && (mark == Mark || mark == Char(NEWLINE))
    ensures var (before, (after, error)) := (FeedAll(l, stream, w).0, FeedAll(l, stream + [mark], w));
            && after.pending == [] && after.writes == before.writes + 1 && error == w.write(before.writes)
            && after.records == before.records + if error.None? then [before.pending] else []
  {
    FeedAppend(l, stream, [mark], w);
    assert FeedAll(FeedAll(l, stream, w).0, [mark], w) == Feed(FeedAll(l, stream, w).0, mark, w);
  }

  /** Between marks and line ends only full records are written, as many as fill up. */
  lemma {:induction false} LineRecords(l: Log, bytes: seq<Byte>, w: World)
    requires FeedAll(l, Chars(bytes), w).1.None? && NEWLINE !in bytes && |l.pending| < RECORD_MAX
    ensures var (l', kept) := (FeedAll(l, Chars(bytes), w).0, |Kept(Chars(bytes), w)|);
            && |l'.pending| == (|l.pending| + kept) % RECORD_MAX
            && |l'.records| == |l.records| + (|l.pending| + kept) / RECORD_MAX
            && l.records <= l'.records
            && forall i :: |l.records| <= i < |l'.records| ==> |l'.records[i]| == RECORD_MAX
    decreases |bytes|
  {
    if bytes == [] {
      assert Chars(bytes) == [];
    } else {
      var l1, rest := Feed(l, Char(bytes[0]), w).0, bytes[1..];
      assert Chars(bytes)[0] == Char(bytes[0]) && Chars(bytes)[1..] == Chars(rest);
      LineRecords(l1, rest, w);
    }
  }

  // ------------------------------------------------------------------- the object

  class DebuglogFile {
    // Made by the first write.
    var buffer: array?<Byte>
    var used: nat
    ghost var records: seq<seq<Byte>>
    var writes: nat

    ghost predicate Sound()
      reads this
    {
      if buffer == null then used == 0 else buffer.Length == RECORD_MAX && used < RECORD_MAX
    }

    ghost function View(): Log
      reads this, buffer
      requires Sound()
    {
      Log(records, if buffer == null then [] else buffer[..used], writes)
    }

    constructor ()
      ensures Sound() && View() == EMPTY
    {
      buffer, used, records, writes := null, 0, [], 0;
    }

    method WriteRecord(w: World) returns (error: Option<Status>)
      requires buffer != null && buffer.Length == RECORD_MAX && used <= RECORD_MAX
      modifies this
      ensures buffer == old(buffer) && Sound()
      ensures (View(), error) == Flush(Log(old(records), old(buffer[..used]), old(writes)), w)
    {
      error := w.write(writes);
      if error.None? {
        records := records + [buffer[..used]];
      }
      used := 0;
      writes := writes + 1;
    }

    method Put(c: Byte, w: World) returns (error: Option<Status>)
      requires buffer != null && Sound()
      modifies this, buffer
      ensures buffer == old(buffer) && Sound() && (View(), error) == Feed(old(View()), Char(c), w)
    {
      if c == NEWLINE {
        error := WriteRecord(w);
        return;
      }
      if IsControl(w, c) {
        return None;
      }
      buffer[used] := c;
      used := used + 1;
      assert buffer[..used] == old(buffer[..used]) + [c];
      if used == RECORD_MAX {
        error := WriteRecord(w);
        return;
      }
      return None;
    }

    method PutNext(bytes: seq<Byte>, i: nat, w: World, ghost goal: (Log, Option<Status>))
        returns (error: Option<Status>)
      requires buffer != null && Sound() && i < |bytes| && FeedAll(View(), Chars(bytes)[i..], w) == goal
      modifies this, buffer
      ensures buffer == old(buffer) && Sound()
      ensures if error.Some? then (View(), error) == goal else FeedAll(View(), Chars(bytes)[i + 1..], w) == goal
    {
      FeedAllAt(View(), bytes, i, w);
      error := Put(bytes[i], w);
    }

    /** The lambda write, for one entry. */
    method WriteEntry(e: Entry, w: World) returns (error: Option<Status>)
      requires buffer != null && Sound()
      modifies this, buffer
      ensures buffer == old(buffer) && Sound() && (View(), error) == FeedAll(old(View()), Symbols(e), w)
    {
      if e.FlushMark? {
        FeedMark(View(), w);
        error := WriteRecord(w);
        return;
      }
      ghost var goal := FeedAll(View(), Chars(e.bytes), w);
      var i := 0;
      while i < |e.bytes|
        invariant 0 <= i <= |e.bytes| && buffer == old(buffer) && Sound()
        invariant FeedAll(View(), Chars(e.bytes)[i..], w) == goal
      {
        error := PutNext(e.bytes, i, w, goal);
        if error.Some? {
          return;
        }
        i := i + 1;
      }
      return None;
    }

    /** One turn of zxio_do_vector, towards its result. */
    method WriteNext(vector: seq<Entry>, i: nat, total: nat, w: World, ghost goal: (Log, nat, Option<Status>))
      returns (error: Option<Status>, total': nat)
      requires buffer != null && Sound() && i < |vector| && DoVector(View(), vector[i..], total, w) == goal
      modifies this, buffer
      ensures buffer == old(buffer) && Sound()
      ensures if error.Some? then (View(), total', if total' > 0 then None else error) == goal
              else DoVector(View(), vector[i + 1..], total', w) == goal
    {
      VectorStep(View(), vector, i, total, w);
      error := WriteEntry(vector[i], w);
      total' := if error.Some? then total else total + Capacity(vector[i]);
    }

    /** zxio_do_vector. */
    method WriteEntries(vector: seq<Entry>, w: World) returns (error: Option<Status>, total: nat)
      requires buffer != null && Sound()
      modifies this, buffer
      ensures buffer == old(buffer) && Sound()
      ensures (View(), total, error) == DoVector(old(View()), vector, 0, w)
    {
      total := 0;
      ghost var goal := DoVector(View(), vector, 0, w);
      var i := 0;
      while i < |vector|
        invariant 0 <= i <= |vector| && buffer == old(buffer) && Sound()
        invariant DoVector(View(), vector[i..], total, w) == goal
      {
        error, total := WriteNext(vector, i, total, w, goal);
        if error.Some? {
          return if total > 0 then None else error, total;
        }
        i := i + 1;
      }
      return None, total;
    }

    method Writev(vector: seq<Entry>, noFlags: bool, w: World) returns (error: Option<Status>, actual: nat)
      requires Sound()
      modifies this, buffer
      ensures Sound() && (buffer == old(buffer) || fresh(buffer))
      ensures !noFlags ==> error == Some(NOT_SUPPORTED) && View() == old(View())
      ensures noFlags ==> (View(), actual, error) == DoVector(old(View()), vector, 0, w)
    {
      if !noFlags {
        return Some(NOT_SUPPORTED), 0;
      }
      if buffer == null {
        buffer := new Byte[RECORD_MAX](_ => 0);
        used := 0;
      }
      error, actual := WriteEntries(vector, w);
    }
  }
}
