/**
 * Copying a file into a VMO (zxio/get_vmo.cc): large parts are read through mapped windows and
 * the small rest through a buffer, with reads that may be short or have to wait.
 *
 * What the file's server and the kernel answer is given by functions of the number of the call,
 * so every statement is about every behaviour of theirs.
 */
module GetVmo {
  import opened Arithmetic
  import opened Wrappers

  type Byte = bv8
  type Status = int

  const OUT_OF_RANGE: Status := -14
  const MAX_WINDOW: nat := 0x400_0000

  /** The answer to a read and its repetitions: it may block and be waited for a number of times. */
  datatype Answer = Blocks(waited: Option<Status>, after: Answer) | Fails(status: Status) | Got(n: nat)

  /** A failed call is Some. */
  datatype World = World(create: Option<Status>, read: nat -> Answer, map_: nat -> Option<Status>,
      write: nat -> Option<Status>)

  datatype Read = Data(bytes: seq<Byte>) | Error(status: Status)

  datatype Window = Window(offset: nat, length: nat)

  function Min(a: nat, b: nat): nat {
    if a < b then a else b
  }

  /** How many bytes a server that offers n gives: not more than asked for, nor than there are. */
  function Supplied(file: seq<Byte>, offset: nat, len: nat, n: nat): (k: nat)
    ensures k <= len && k <= n && (k > 0 ==> offset + k <= |file|)
  {
    Min(Min(n, len), if offset < |file| then |file| - offset else 0)
  }

  /** read_at: bytes of the file from the offset on, at least one. */
  function ReadFrom(file: seq<Byte>, offset: nat, len: nat, a: Answer): Read {
    match a
    case Blocks(waited, after) => if waited.Some? then Error(waited.value) else ReadFrom(file, offset, len, after)
    case Fails(status) => Error(status)
    case Got(n) =>
      var k := Supplied(file, offset, len, n);
      if k == 0 then Error(OUT_OF_RANGE) else Data(file[offset..offset + k])
  }

  /** Nothing fails, and the read that is answered offers something. */
  ghost predicate Willing(a: Answer) {
    match a
    case Blocks(waited, after) => waited.None? && Willing(after)
    case Fails(_) => false
    case Got(n) => n > 0
  }

  /** The status of the first wait or read that fails; if none does, that the file ended: the
      server offered nothing, or the file is too short. */
  ghost predicate Reported(a: Answer, e: Status, short: bool) {
    match a
    case Blocks(waited, after) => if waited.Some? then e == waited.value else Reported(after, e, short)
    case Fails(status) => e == status
    case Got(n) => (n == 0 || short) && e == OUT_OF_RANGE
  }

  lemma {:induction false} ReadFails(file: seq<Byte>, offset: nat, len: nat, a: Answer)
    requires len > 0
    ensures match ReadFrom(file, offset, len, a) {
              case Data(_) => Willing(a) && offset < |file|
              case Error(e) => Reported(a, e, offset >= |file|)
            }
  {
    if a.Blocks? { ReadFails(file, offset, len, a.after); }
  }

  method ReadAt(file: seq<Byte>, offset: nat, len: nat, answer: Answer) returns (r: Read)
    ensures r == ReadFrom(file, offset, len, answer)
    ensures r.Data? ==>
              && 0 < |r.bytes| <= len && offset + |r.bytes| <= |file|
              && r.bytes == file[offset..offset + |r.bytes|]
  {
    var a := answer;
    while a.Blocks?
      invariant ReadFrom(file, offset, len, a) == ReadFrom(file, offset, len, answer)
      decreases a
    {
      if a.waited.Some? {
        return Error(a.waited.value);
      }
      a := a.after;
    }
    if a.Fails? {
      return Error(a.status);
    }
    var actual := Supplied(file, offset, len, a.n);
    if actual == 0 {
      return Error(OUT_OF_RANGE);
    }
    return Data(file[offset..offset + actual]);
  }

  // ------------------------------------------------------------------------ pages

  function RoundUp(n: nat, page: nat): nat
    requires page > 0
  {
    (n + page - 1) / page * page
  }

  lemma RoundUpBounds(n: nat, page: nat)
    requires page > 0
    ensures n <= RoundUp(n, page) < n + page && RoundUp(n, page) % page == 0
  {
    var m := n + page - 1;
    DivMod(m, page);
    DivUnique(RoundUp(n, page), page, m / page, 0);
  }

  lemma MultipleExact(x: nat, page: nat)
    requires page > 0 && x % page == 0
    ensures x == x / page * page
  {
    DivMod(x, page);
  }

  /** A window from a page boundary on ends inside the VMO if its bytes do. */
  lemma WindowInside(offset: nat, chunk: nat, size: nat, page: nat)
    requires page > 0 && offset % page == 0 && offset + chunk <= size
    ensures offset + RoundUp(chunk, page) <= RoundUp(size, page)
  {
    RoundUpBounds(chunk, page);
    RoundUpBounds(size, page);
    MultipleExact(offset, page);
    MultipleExact(RoundUp(chunk, page), page);
    MultipleExact(RoundUp(size, page), page);
    NoMultipleBetween(offset / page, RoundUp(chunk, page) / page, RoundUp(size, page) / page, page);
  }

  lemma NoMultipleBetween(o: int, a: int, b: int, page: nat)
    requires o * page + a * page < b * page + page
    ensures o * page + a * page <= b * page
  {
    assert (o + a) * page == o * page + a * page;
    assert (b + 1) * page == b * page + page;
    if o + a > b {
      MulMono(b + 1, o + a, page);
    } else {
      MulMono(o + a, b, page);
    }
  }

  lemma DividesTwice(offset: nat, page: nat)
    requires page > 0 && offset % MAX_WINDOW == 0 && MAX_WINDOW % page == 0
    ensures offset % page == 0
  {
    var j, k := MAX_WINDOW / page, offset / MAX_WINDOW;
    MultipleExact(MAX_WINDOW, page);
    assert offset == k * MAX_WINDOW == k * (j * page) == (k * j) * page;
    DivUnique(offset, page, k * j, 0);
  }

  // ------------------------------------------------------------------------- copy

  /** A window starts at a page boundary, is whole pages long and lies inside the VMO. */
  ghost predicate WindowOk(m: Window, page: nat, size: nat)
    requires page > 0
  {
    m.offset % page == 0 && m.length % page == 0 && m.offset + m.length <= RoundUp(size, page)
  }

  ghost predicate WindowsOk(maps: seq<Window>, page: nat, size: nat)
    requires page > 0
  {
    forall i :: 0 <= i < |maps| ==> WindowOk(maps[i], page, size)
  }

  /** The window for the rest of a file from some point on. */
  function WindowAt(start: nat, size: nat, page: nat): Window
    requires page > 0 && start <= size
  {
    Window(start, RoundUp(Min(size - start, MAX_WINDOW), page))
  }

  /** Windows follow each other, one for each start with at least four pages left. */
  ghost predicate Placed(maps: seq<Window>, page: nat, size: nat)
    requires page > 0
  {
    forall i :: 0 <= i < |maps| ==> i * MAX_WINDOW + 4 * page <= size && maps[i] == WindowAt(i * MAX_WINDOW, size, page)
  }

  /** The first bytes are those of the file and the others are zero. */
  ghost predicate Copied(vmo: array<Byte>, file: seq<Byte>, offset: nat)
    reads vmo
  {
    && offset <= vmo.Length && offset <= |file|
    && vmo[..offset] == file[..offset]
    && forall i :: offset <= i < vmo.Length ==> vmo[i] == 0
  }

  /** The calls so far went well. */
  ghost predicate WentWell(w: World, fetches: nat, maps: nat, stores: nat) {
    && w.create.None?
    && (forall i :: 0 <= i < fetches ==> Willing(w.read(i)))
    && (forall i :: 0 <= i < maps ==> w.map_(i).None?) && (forall i :: 0 <= i < stores ==> w.write(i).None?)
  }

  /** The next call of some kind is the one that fails. */
  ghost predicate StoppedBy(w: World, fetches: nat, maps: nat, stores: nat, e: Status, short: bool) {
    Reported(w.read(fetches), e, short) || w.map_(maps) == Some(e) || w.write(stores) == Some(e)
  }

  method WriteBytes(vmo: array<Byte>, file: seq<Byte>, offset: nat, bytes: seq<Byte>)
    requires Copied(vmo, file, offset) && offset + |bytes| <= vmo.Length && offset + |bytes| <= |file|
    requires bytes == file[offset..offset + |bytes|]
    modifies vmo
    ensures Copied(vmo, file, offset + |bytes|)
  {
    ghost var before := vmo[..];
    for i := 0 to |bytes|
      invariant vmo[..offset] == before[..offset] && vmo[offset..offset + i] == bytes[..i]
      invariant forall j :: offset + i <= j < vmo.Length ==> vmo[j] == 0
    {
      vmo[offset + i] := bytes[i];
      assert vmo[offset..offset + i + 1] == vmo[offset..offset + i] + [bytes[i]];
      assert bytes[..i + 1] == bytes[..i] + [bytes[i]];
    }
    ghost var n := offset + |bytes|;
    assert vmo[..n] == vmo[..offset] + vmo[offset..n];
    assert file[..n] == file[..offset] + file[offset..n];
  }

  /** No call fails, and every read that is answered gives something. */
  ghost predicate Cooperative(w: World) {
    && w.create.None?
    && (forall i :: w.map_(i).None?) && (forall i :: w.write(i).None?) && (forall i :: Willing(w.read(i)))
  }

  lemma {:induction false} WillingReads(file: seq<Byte>, offset: nat, len: nat, a: Answer)
    requires Willing(a) && len > 0 && offset < |file|
    ensures ReadFrom(file, offset, len, a).Data?
  {
    if a.Blocks? { WillingReads(file, offset, len, a.after); }
  }

  lemma {:induction false} ReportedShort(a: Answer, e: Status, short: bool)
    requires Reported(a, e, short)
    ensures Reported(a, e, true)
  {
    if a.Blocks? && a.waited.None? { ReportedShort(a.after, e, short); }
  }

  /** The inner loop: one mapped window is filled, through as many reads as it takes. */
  method FillWindow(vmo: array<Byte>, file: seq<Byte>, start: nat, length: nat, window: nat, w: World, call: nat)
    returns (error: Option<Status>, offset: nat, calls: nat)
    requires Copied(vmo, file, start) && start + length <= vmo.Length && length <= window
    modifies vmo
    ensures Copied(vmo, file, offset) && start <= offset <= start + length
    ensures call <= calls && forall i :: call <= i < calls ==> Willing(w.read(i))
    ensures if error.None? then offset == start + length
            else Reported(w.read(calls), error.value, start + length > |file|)
    ensures Cooperative(w) && start + length <= |file| ==> error.None?
  {
    var chunk := length;
    // Where the next read goes in the mapping.
    var buffer := 0;
    offset, calls := start, call;
    while chunk > 0
      invariant 0 <= chunk && chunk + buffer == length && offset == start + buffer && Copied(vmo, file, offset)
      invariant call <= calls && forall i :: call <= i < calls ==> Willing(w.read(i))
    {
      assert buffer + chunk <= window;
      if Cooperative(w) && start + length <= |file| { WillingReads(file, offset, chunk, w.read(calls)); }
      ReadFails(file, offset, chunk, w.read(calls));
      var r := ReadAt(file, offset, chunk, w.read(calls));
      if r.Error? {
        if start + length > |file| { ReportedShort(w.read(calls), r.status, offset >= |file|); }
        return Some(r.status), offset, calls;
      }
      calls := calls + 1;
      WriteBytes(vmo, file, offset, r.bytes);
      buffer := buffer + |r.bytes|;
      offset := offset + |r.bytes|;
      chunk := chunk - |r.bytes|;
    }
    return None, offset, calls;
  }

  /** One turn of the loop with little left: copy through a buffer of a page. */
  method CopySmall(page: nat, vmo: array<Byte>, file: seq<Byte>, start: nat, size: nat, w: World, readCall: nat,
      writeCall: nat)
    returns (error: Option<Status>, offset: nat, calls: nat)
    requires page > 0 && 0 < size && Copied(vmo, file, start) && start + size <= vmo.Length
    modifies vmo
    ensures Copied(vmo, file, offset) && start <= offset <= start + size && (error.None? ==> start < offset)
    ensures if calls == readCall then error.Some? && Reported(w.read(readCall), error.value, start + size > |file|)
            else calls == readCall + 1 && Willing(w.read(readCall)) && error == w.write(writeCall)
    ensures Cooperative(w) && start + size <= |file| ==> error.None?
  {
    var xfer := Min(size, page);
    if Cooperative(w) && start + size <= |file| { WillingReads(file, start, xfer, w.read(readCall)); }
    ReadFails(file, start, xfer, w.read(readCall));
    var r := ReadAt(file, start, xfer, w.read(readCall));
    if r.Error? {
      if start + size > |file| { ReportedShort(w.read(readCall), r.status, start >= |file|); }
      return Some(r.status), start, readCall;
    }
    if w.write(writeCall).Some? {
      return w.write(writeCall), start, readCall + 1;
    }
    WriteBytes(vmo, file, start, r.bytes);
    return None, start + |r.bytes|, readCall + 1;
  }

  /** One turn of the loop with much left: map a window and read into it. */
  method CopyMapped(page: nat, vmo: array<Byte>, file: seq<Byte>, start: nat, size: nat, total: nat, w: World,
      mapCall: nat, readCall: nat)
    returns (error: Option<Status>, mapped: seq<Window>, unmapped: seq<Window>, offset: nat, calls: nat)
    requires page > 0 && MAX_WINDOW % page == 0 && start % MAX_WINDOW == 0 && 0 < size
              && start + size == total <= vmo.Length
    requires Copied(vmo, file, start)
    modifies vmo
    ensures mapped == unmapped && WindowsOk(mapped, page, total)
    ensures Copied(vmo, file, offset) && start <= offset <= total
    ensures readCall <= calls && forall i :: readCall <= i < calls ==> Willing(w.read(i))
    ensures if mapped == [] then error.Some? && error == w.map_(mapCall)
            else mapped == [WindowAt(start, total, page)] && w.map_(mapCall).None?
    ensures if error.None? then offset == start + Min(size, MAX_WINDOW)
            else mapped == [] || Reported(w.read(calls), error.value, total > |file|)
    ensures Cooperative(w) && total <= |file| ==> error.None?
  {
    var chunk := Min(size, MAX_WINDOW);
    var window := RoundUp(chunk, page);
    DividesTwice(start, page);
    RoundUpBounds(chunk, page);
    WindowInside(start, chunk, total, page);
    if w.map_(mapCall).Some? {
      return w.map_(mapCall), [], [], start, readCall;
    }
    mapped := [Window(start, window)];
    error, offset, calls := FillWindow(vmo, file, start, chunk, window, w, readCall);
    if error.Some? && total > |file| {
      ReportedShort(w.read(calls), error.value, start + chunk > |file|);
    }
    unmapped := [Window(start, window)];
  }

  lemma WindowsTogether(a: seq<Window>, b: seq<Window>, page: nat, total: nat)
    requires page > 0 && WindowsOk(a, page, total) && WindowsOk(b, page, total)
    ensures WindowsOk(a + b, page, total)
  {
  }

  lemma NextPlaced(maps: seq<Window>, mapped: seq<Window>, page: nat, size: nat)
    requires page > 0 && Placed(maps, page, size) && |maps| * MAX_WINDOW + 4 * page <= size
    requires mapped == [] || mapped == [WindowAt(|maps| * MAX_WINDOW, size, page)]
    ensures Placed(maps + mapped, page, size)
  {
  }

  ghost predicate Underway(page: nat, size: nat, w: World, offset: nat, maps: seq<Window>, fetches: nat, stores: nat)
    requires page > 0
  {
    && WindowsOk(maps, page, size) && Placed(maps, page, size) && WentWell(w, fetches, |maps|, stores)
    && if offset + 4 * page <= size then offset == |maps| * MAX_WINDOW else size < |maps| * MAX_WINDOW + 4 * page
  }

  /** One turn of the loop. */
  method CopyTurn(page: nat, vmo: array<Byte>, file: seq<Byte>, total: nat, w: World, start: nat, maps0: seq<Window>,
      unmaps0: seq<Window>, fetches0: nat, stores0: nat)
    returns (error: Option<Status>, maps: seq<Window>, unmaps: seq<Window>, offset: nat, fetches: nat, stores: nat)
    requires page > 0 && MAX_WINDOW % page == 0 && start < total <= vmo.Length && maps0 == unmaps0
    requires Copied(vmo, file, start) && Underway(page, total, w, start, maps0, fetches0, stores0)
    modifies vmo
    ensures maps == unmaps && WindowsOk(maps, page, total) && Placed(maps, page, total)
    ensures Copied(vmo, file, offset) && WentWell(w, fetches, |maps|, stores)
    ensures if error.None? then start < offset <= total && Underway(page, total, w, offset, maps, fetches, stores)
            else StoppedBy(w, fetches, |maps|, stores, error.value, total > |file|)
    ensures Cooperative(w) && total <= |file| ==> error.None?
  {
    var size := total - start;
    maps, unmaps, stores := maps0, unmaps0, stores0;
    if size < 4 * page {
      error, offset, fetches := CopySmall(page, vmo, file, start, size, w, fetches0, stores0);
      if error.None? {
        stores := stores + 1;
      }
    } else {
      var mapped, unmapped;
      error, mapped, unmapped, offset, fetches :=
        CopyMapped(page, vmo, file, start, size, total, w, |maps0|, fetches0);
      WindowsTogether(maps0, mapped, page, total);
      NextPlaced(maps0, mapped, page, total);
      maps, unmaps := maps0 + mapped, unmaps0 + unmapped;
    }
  }

  /** read_file_into_vmo.  On success the VMO is the file, zeros up to the page; every mapping is
      undone on every path; and the copy succeeds if no call fails and the file is long enough.
      It goes on exactly while calls go well: the first one that fails gives the error. */
  method ReadFileIntoVmo(page: nat, file: seq<Byte>, attr: Option<Status>, contentSize: nat, w: World)
    returns (error: Option<Status>, copy: seq<Byte>, maps: seq<Window>, unmaps: seq<Window>, fetches: nat, stores: nat)
    requires page > 0 && MAX_WINDOW % page == 0
    ensures maps == unmaps && WindowsOk(maps, page, contentSize) && Placed(maps, page, contentSize)
    ensures error.None? ==> contentSize < |maps| * MAX_WINDOW + 4 * page
    ensures error.None? ==>
              && contentSize <= |file| && |copy| == RoundUp(contentSize, page) && contentSize <= |copy|
              && copy[..contentSize] == file[..contentSize]
              && forall i :: contentSize <= i < |copy| ==> copy[i] == 0
    ensures attr.Some? ==> error == attr && maps == [] && fetches == stores == 0
    ensures attr.None? && w.create.Some? ==> error == w.create && maps == [] && fetches == stores == 0
    ensures attr.None? && w.create.None? ==>
              && WentWell(w, fetches, |maps|, stores)
              && (error.Some? ==> StoppedBy(w, fetches, |maps|, stores, error.value, contentSize > |file|))
    ensures attr.None? && Cooperative(w) && contentSize <= |file| ==> error.None?
  {
    copy, maps, unmaps, fetches, stores := [], [], [], 0, 0;
    if attr.Some? {
      return attr, [], [], [], 0, 0;
    }
    var size, offset := contentSize, 0;
    if w.create.Some? {
      return w.create, [], [], [], 0, 0;
    }
    RoundUpBounds(contentSize, page);
    var vmo := new Byte[RoundUp(contentSize, page)](_ => 0);
    while size > 0
      invariant 0 <= size && offset + size == contentSize && Copied(vmo, file, offset) && maps == unmaps
      invariant Underway(page, contentSize, w, offset, maps, fetches, stores)
      invariant fresh(vmo)
      decreases size
    {
      var start := offset;
      error, maps, unmaps, offset, fetches, stores :=
        CopyTurn(page, vmo, file, contentSize, w, start, maps, unmaps, fetches, stores);
      if error.Some? {
        return;
      }
      size := size - (offset - start);
    }
    assert vmo[..][..contentSize] == vmo[..contentSize];
    return None, vmo[..], maps, unmaps, fetches, stores;
  }
}
