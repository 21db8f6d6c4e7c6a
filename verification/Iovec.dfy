/**
 * Copying to and from the buffers of a vector (fdio/iovec.cc), and the bytes of a count.
 *
 * A vector is the sequence of the contents of its buffers, so they do not overlap.
 */
module Iovec {
  import opened Arithmetic

  type Byte = b: int | 0 <= b < 256

  type Vector = seq<seq<Byte>>

  /** The buffers as one. */
  function Flat(v: Vector): seq<Byte> {
    if v == [] then [] else v[0] + Flat(v[1..])
  }

  lemma {:induction false} FlatSplit(v: Vector, i: nat)
    requires i <= |v|
    ensures Flat(v) == Flat(v[..i]) + Flat(v[i..])
  {
    if i == 0 {
      assert v[..0] == [] && v[0..] == v;
    } else {
      FlatSplit(v[1..], i - 1);
      assert v[1..][..i - 1] == v[..i][1..] && v[1..][i - 1..] == v[i..];
    }
  }

  lemma FlatNext(v: Vector, i: nat)
    requires i < |v|
    ensures Flat(v[..i + 1]) == Flat(v[..i]) + v[i] && Flat(v[i..]) == v[i] + Flat(v[i + 1..])
  {
    FlatSplit(v[..i + 1], i);
    assert v[..i + 1][..i] == v[..i] && v[..i + 1][i..] == [v[i]];
    assert Flat([v[i]]) == v[i] + Flat([]);
    assert v[i..][1..] == v[i + 1..];
  }

  ghost predicate SameShape(v: Vector, w: Vector) {
    |v| == |w| && forall i :: 0 <= i < |v| ==> |v[i]| == |w[i]|
  }

  function Least(a: nat, b: nat): nat {
    if a < b then a else b
  }

  method Capacity(v: Vector) returns (total: nat)
    ensures total == |Flat(v)|
  {
    total := 0;
    for i := 0 to |v|
      invariant total == |Flat(v[..i])|
    {
      FlatNext(v, i);
      total := total + |v[i]|;
    }
    assert v[..|v|] == v;
  }

  /** The first bytes of a sequence are replaced. */
  function Overwritten(s: seq<Byte>, x: seq<Byte>): (r: seq<Byte>)
    requires |x| <= |s|
    ensures |r| == |s| && r[..|x|] == x && r[|x|..] == s[|x|..]
  {
    x + s[|x|..]
  }

  lemma OverwrittenParts(a: seq<Byte>, b: seq<Byte>, x: seq<Byte>, y: seq<Byte>)
    requires |x| == |a| && |y| <= |b|
    ensures Overwritten(a + b, x + y) == x + Overwritten(b, y)
  {
  }

  lemma OverwrittenFront(a: seq<Byte>, b: seq<Byte>, x: seq<Byte>)
    requires |x| <= |a|
    ensures Overwritten(a + b, x) == Overwritten(a, x) + b
  {
  }

  /** What fdio_iovec_copy_to leaves in the buffers. */
  function Filled(v: Vector, bytes: seq<Byte>): (r: Vector)
    ensures |r| == |v|
    decreases |v|
  {
    if v == [] then []
    else
      var n := Least(|v[0]|, |bytes|);
      [Overwritten(v[0], bytes[..n])] + Filled(v[1..], bytes[n..])
  }

  /** The bytes go to the front of the buffers taken as one, as far as there is room, and nothing
      else changes. */
  lemma {:induction false} FilledIs(v: Vector, bytes: seq<Byte>)
    ensures SameShape(Filled(v, bytes), v)
    ensures Flat(Filled(v, bytes)) == Overwritten(Flat(v), bytes[..Least(|Flat(v)|, |bytes|)])
    decreases |v|
  {
    if v == [] {
      assert bytes[..0] == [];
      return;
    }
    var n, rest := Least(|v[0]|, |bytes|), v[1..];
    var left := bytes[n..];
    FilledIs(rest, left);
    var r, k := Filled(v, bytes), Least(|Flat(rest)|, |left|);
    assert r[1..] == Filled(rest, left);
    assert Flat(r) == Overwritten(v[0], bytes[..n]) + Overwritten(Flat(rest), left[..k]);
    if n == |v[0]| {
      assert bytes[..n + k] == bytes[..n] + left[..k] && Overwritten(v[0], bytes[..n]) == bytes[..n];
      OverwrittenParts(v[0], Flat(rest), bytes[..n], left[..k]);
    } else {
      assert left == [] && left[..k] == [] && Overwritten(Flat(rest), []) == Flat(rest);
      OverwrittenFront(v[0], Flat(rest), bytes[..n]);
    }
  }

  lemma {:induction false} FilledWithNothing(v: Vector)
    ensures Filled(v, []) == v
  {
    if v != [] {
      FilledWithNothing(v[1..]);
      assert Overwritten(v[0], []) == v[0];
    }
  }

  lemma FilledNext(v: Vector, i: nat, bytes: seq<Byte>, at: nat, n: nat, out: Vector)
    requires i < |v| && at <= |bytes| && n == Least(|v[i]|, |bytes| - at)
    ensures out + Filled(v[i..], bytes[at..]) ==
            (out + [Overwritten(v[i], bytes[at..at + n])]) + Filled(v[i + 1..], bytes[at + n..])
  {
    assert v[i..][1..] == v[i + 1..];
    assert bytes[at..][..n] == bytes[at..at + n] && bytes[at..][n..] == bytes[at + n..];
  }

  /** fdio_iovec_copy_to. */
  method CopyTo(bytes: seq<Byte>, v: Vector) returns (out: Vector, actual: nat)
    ensures out == Filled(v, bytes) && actual == Least(|Flat(v)|, |bytes|)
  {
    var at, i := 0, 0;
    out := [];
    while i < |v| && at < |bytes|
      invariant i <= |v| && at == Least(|Flat(v[..i])|, |bytes|)
      invariant out + Filled(v[i..], bytes[at..]) == Filled(v, bytes)
      decreases |v| - i
    {
      FlatNext(v, i);
      var chunk := |bytes| - at;
      if chunk > |v[i]| {
        chunk := |v[i]|;
      }
      FilledNext(v, i, bytes, at, chunk, out);
      out := out + [Overwritten(v[i], bytes[at..at + chunk])];
      at := at + chunk;
      i := i + 1;
    }
    FlatSplit(v, i);
    FilledWithNothing(v[i..]);
    assert i < |v| ==> bytes[at..] == [];
    out := out + v[i..];
    actual := at;
  }

  method CopyChunk(buffer: array<Byte>, at: nat, bytes: seq<Byte>, n: nat)
    requires n <= |bytes| && at + n <= buffer.Length
    modifies buffer
    ensures buffer[..at + n] == old(buffer[..at]) + bytes[..n] && buffer[at + n..] == old(buffer[at + n..])
  {
    forall j | 0 <= j < n {
      buffer[at + j] := bytes[j];
    }
  }

  /** fdio_iovec_copy_from: the other way round. */
  method CopyFrom(v: Vector, buffer: array<Byte>) returns (actual: nat)
    modifies buffer
    ensures actual == Least(|Flat(v)|, buffer.Length)
    ensures buffer[..] == Overwritten(old(buffer[..]), Flat(v)[..actual])
  {
    var at, i := 0, 0;
    ghost var before := buffer[..];
    while i < |v| && at < buffer.Length
      invariant i <= |v| && at == Least(|Flat(v[..i])|, buffer.Length)
      invariant buffer[..at] == Flat(v[..i])[..at] && buffer[at..] == before[at..]
      decreases |v| - i
    {
      FlatNext(v, i);
      var chunk := buffer.Length - at;
      if chunk > |v[i]| {
        chunk := |v[i]|;
      }
      assert before[at..][chunk..] == before[at + chunk..];
      CopyChunk(buffer, at, v[i], chunk);
      at := at + chunk;
      i := i + 1;
    }
    FlatSplit(v, i);
    actual := at;
    assert buffer[..] == buffer[..at] + buffer[at..];
    assert Flat(v)[..at] == Flat(v[..i])[..at];
  }

  /** What was copied to a vector with room for it can be copied back from there. */
  lemma CopyRoundTrip(bytes: seq<Byte>, v: Vector)
    requires |bytes| <= |Flat(v)|
    ensures var w := Filled(v, bytes); |bytes| <= |Flat(w)| && Flat(w)[..|bytes|] == bytes
  {
    FilledIs(v, bytes);
    assert bytes[..|bytes|] == bytes;
  }

  // ------------------------------------------------------------- the bytes of a number

  function Power(n: nat): nat {
    if n == 0 then 1 else 256 * Power(n - 1)
  }

  /** A number in little-endian order. */
  function Encoded(x: nat, n: nat): (r: seq<Byte>)
    ensures |r| == n
  {
    if n == 0 then [] else [x % 256] + Encoded(x / 256, n - 1)
  }

  function Decoded(bytes: seq<Byte>): nat {
    if bytes == [] then 0 else bytes[0] + 256 * Decoded(bytes[1..])
  }

  lemma {:induction false} EncodeRoundTrip(x: nat, n: nat)
    requires x < Power(n)
    ensures Decoded(Encoded(x, n)) == x
    decreases n
  {
    if n > 0 {
      EncodeRoundTrip(x / 256, n - 1);
      assert Encoded(x, n)[1..] == Encoded(x / 256, n - 1);
    }
  }

  lemma Power8()
    ensures Power(8) == 0x1_0000_0000_0000_0000
  {
    assert Power(4) == 0x1_0000_0000;
  }
}
