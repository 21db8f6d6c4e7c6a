/**
 * Lexical path cleaning (fdio/cleanpath.cc), after "Lexical File Names in Plan 9".
 *
 * The code is one pass over the bytes that edits an output buffer in place.  The
 * specification splits the path at its slashes and folds the segments over a stack.
 */
module CleanPath {
  import opened Wrappers

  const PATH_MAX: nat := 4096

  const SEP: char := '/'
  const NUL: char := '\0'
  const DOT: string := "."
  const DOTDOT: string := ".."

  // --------------------------------------------------------------- specification

  predicate Rooted(p: string) { p != [] && p[0] == SEP }

  /** The parts between the slashes; there is always at least one. */
  function Segments(p: string): (r: seq<string>)
    ensures r != []
  {
    if p == [] then [[]]
    else
      var rest := Segments(p[1..]);
      if p[0] == SEP then [[]] + rest else [[p[0]] + rest[0]] + rest[1..]
  }

  function Front<T>(s: seq<T>): seq<T>
    requires s != []
  {
    s[..|s| - 1]
  }

  function Last<T>(s: seq<T>): T
    requires s != []
  {
    s[|s| - 1]
  }

  /** Drop empty segments and dots; let a dotdot remove the name before it, vanish at the
      root, and stay at the front of a relative path. */
  function Push(rooted: bool, stack: seq<string>, seg: string): seq<string> {
    if seg == [] || seg == DOT then stack
    else if seg != DOTDOT then stack + [seg]
    else if stack != [] && Last(stack) != DOTDOT then Front(stack)
    else if rooted then stack
    else stack + [DOTDOT]
  }

  function Fold(rooted: bool, stack: seq<string>, segs: seq<string>): seq<string>
    decreases |segs|
  {
    if segs == [] then stack else Fold(rooted, Push(rooted, stack, segs[0]), segs[1..])
  }

  function Join(stack: seq<string>): string {
    if stack == [] then []
    else if |stack| == 1 then stack[0]
    else Join(Front(stack)) + [SEP] + Last(stack)
  }

  function Text(rooted: bool, stack: seq<string>): string {
    if rooted then [SEP] + Join(stack) else Join(stack)
  }

  function Stack(p: string): seq<string> {
    Fold(Rooted(p), [], Segments(p))
  }

  function Render(rooted: bool, stack: seq<string>): string {
    if !rooted && stack == [] then DOT else Text(rooted, stack)
  }

  /** The cleaned path. */
  function Clean(p: string): string {
    Render(Rooted(p), Stack(p))
  }

  /** The path can only name a directory. */
  predicate NamesDir(p: string) {
    var last := Last(Segments(p));
    last == [] || last == DOT || last == DOTDOT
  }

  // --------------------------------------------------------------- text of a stack

  predicate IsName(seg: string) {
    seg != [] && seg != DOT && seg != DOTDOT && SEP !in seg
  }

  /** k dotdots, none if rooted, followed by names: what Push keeps. */
  ghost predicate Shaped(rooted: bool, stack: seq<string>, k: nat) {
    && k <= |stack| && (rooted ==> k == 0)
    && (forall i :: 0 <= i < k ==> stack[i] == DOTDOT)
    && (forall i :: k <= i < |stack| ==> IsName(stack[i]))
  }

  lemma TextPush(rooted: bool, stack: seq<string>, seg: string)
    ensures Text(rooted, stack + [seg]) == Text(rooted, stack) + (if stack == [] then [] else [SEP]) + seg
  {
    if stack == [] {
      assert stack + [seg] == [seg];
      assert Join([seg]) == seg;
      return;
    }
    JoinPush(stack, seg);
    if rooted {
      assert [SEP] + (Join(stack) + [SEP] + seg) == ([SEP] + Join(stack)) + [SEP] + seg;
    }
  }

  lemma JoinPush(stack: seq<string>, seg: string)
    requires stack != []
    ensures Join(stack + [seg]) == Join(stack) + [SEP] + seg
  {
    assert Front(stack + [seg]) == stack;
  }

  lemma {:induction false} TextGrows(rooted: bool, stack: seq<string>, k: nat)
    requires k <= |stack| && forall i :: 0 <= i < |stack| ==> stack[i] != []
    ensures |Text(rooted, stack[..k])| <= |Text(rooted, stack)|
    ensures k < |stack| ==> |Text(rooted, stack[..k])| < |Text(rooted, stack)|
  {
    if k < |stack| {
      assert stack == Front(stack) + [Last(stack)];
      TextPush(rooted, Front(stack), Last(stack));
      assert Front(stack)[..k] == stack[..k];
      TextGrows(rooted, Front(stack), k);
    } else {
      assert stack[..k] == stack;
    }
  }

  // ----------------------------------------------------------------- segments of text

  lemma {:induction false} SegmentsOfName(seg: string)
    requires SEP !in seg
    ensures Segments(seg) == [seg]
  {
    if seg != [] {
      assert seg == [seg[0]] + seg[1..];
      SegmentsOfName(seg[1..]);
    }
  }

  /** A name ends where the rest begins with a slash or is over. */
  lemma {:induction false} SegmentsHead(seg: string, rest: string)
    requires SEP !in seg && (rest == [] || rest[0] == SEP)
    ensures Segments(seg + rest) == [seg] + Segments(rest)[1..] && Segments(rest)[0] == []
  {
    if seg == [] {
      assert seg + rest == rest;
    } else {
      assert (seg + rest)[1..] == seg[1..] + rest && seg == [seg[0]] + seg[1..];
      SegmentsHead(seg[1..], rest);
    }
  }

  lemma {:induction false} SegmentsJoin(a: string, b: string)
    ensures Segments(a + [SEP] + b) == Segments(a) + Segments(b)
  {
    var all := a + [SEP] + b;
    if a == [] {
      assert all[1..] == b;
    } else {
      assert all[1..] == a[1..] + [SEP] + b;
      SegmentsJoin(a[1..], b);
    }
  }

  predicate EndsWith(p: string, end: string) {
    |end| <= |p| && p[|p| - |end|..] == end
  }

  lemma {:induction false} OneSegment(p: string)
    requires |Segments(p)| == 1
    ensures Segments(p) == [p]
  {
    if p != [] {
      OneSegment(p[1..]);
      assert p == [p[0]] + p[1..];
    }
  }

  lemma {:induction false} EndsWithLast(p: string)
    ensures var last := Last(Segments(p)); SEP !in last && (p == last || EndsWith(p, [SEP] + last))
  {
    if p == [] {
      return;
    }
    var rest, last := p[1..], Last(Segments(p[1..]));
    EndsWithLast(rest);
    assert p == [p[0]] + rest;
    if |Segments(rest)| == 1 {
      OneSegment(rest);
    } else {
      SegmentsOfName(last);
      assert Last(Segments(p)) == last && EndsWith(rest, [SEP] + last);
      assert p[|p| - |last| - 1..] == rest[|rest| - |last| - 1..];
    }
  }

  lemma {:induction false} LastAfter(p: string, last: string)
    requires SEP !in last && (p == last || EndsWith(p, [SEP] + last))
    ensures Last(Segments(p)) == last
  {
    SegmentsOfName(last);
    if p != last {
      var a := p[..|p| - |last| - 1];
      assert p[|p| - |last| - 1..][1..] == last;
      assert p == a + [SEP] + last;
      SegmentsJoin(a, last);
    }
  }

  /** How a path ends that can only name a directory. */
  lemma {:induction false} NamesDirIff(p: string)
    ensures NamesDir(p) <==>
              || p == "" || p == "." || p == ".."
              || EndsWith(p, "/") || EndsWith(p, "/.") || EndsWith(p, "/..")
  {
    EndsWithLast(p);
    assert [SEP] + [] == "/" && [SEP] + DOT == "/." && [SEP] + DOTDOT == "/..";
    if p == "" || EndsWith(p, "/") { LastAfter(p, ""); }
    if p == "." || EndsWith(p, "/.") { LastAfter(p, "."); }
    if p == ".." || EndsWith(p, "/..") { LastAfter(p, ".."); }
  }

  lemma {:induction false} SegmentsOfJoin(stack: seq<string>)
    requires stack != [] && forall i :: 0 <= i < |stack| ==> SEP !in stack[i]
    ensures Segments(Join(stack)) == stack
  {
    if |stack| == 1 {
      SegmentsOfName(stack[0]);
    } else {
      SegmentsJoin(Join(Front(stack)), Last(stack));
      SegmentsOfJoin(Front(stack));
      SegmentsOfName(Last(stack));
    }
  }

  lemma {:induction false} FoldAppend(rooted: bool, stack: seq<string>, xs: seq<string>, ys: seq<string>)
    ensures Fold(rooted, stack, xs + ys) == Fold(rooted, Fold(rooted, stack, xs), ys)
    decreases |xs|
  {
    if xs == [] {
      assert xs + ys == ys;
    } else {
      assert (xs + ys)[1..] == xs[1..] + ys;
      FoldAppend(rooted, Push(rooted, stack, xs[0]), xs[1..], ys);
    }
  }

  lemma FoldOne(rooted: bool, stack: seq<string>, seg: string)
    ensures Fold(rooted, stack, [seg]) == Push(rooted, stack, seg)
  {
    assert [seg][1..] == [];
  }

  ghost function PushShape(rooted: bool, stack: seq<string>, k: nat, seg: string): nat {
    if seg == DOTDOT && |stack| == k && !rooted then k + 1 else k
  }

  lemma PushShaped(rooted: bool, stack: seq<string>, k: nat, seg: string)
    requires Shaped(rooted, stack, k) && SEP !in seg
    ensures Shaped(rooted, Push(rooted, stack, seg), PushShape(rooted, stack, k, seg))
  {
  }

  lemma {:induction false} FoldShaped(rooted: bool, stack: seq<string>, k: nat, segs: seq<string>) returns (k': nat)
    requires Shaped(rooted, stack, k) && forall i :: 0 <= i < |segs| ==> SEP !in segs[i]
    ensures Shaped(rooted, Fold(rooted, stack, segs), k')
    decreases |segs|
  {
    if segs == [] {
      k' := k;
    } else {
      PushShaped(rooted, stack, k, segs[0]);
      k' := FoldShaped(rooted, Push(rooted, stack, segs[0]), PushShape(rooted, stack, k, segs[0]), segs[1..]);
    }
  }

  lemma {:induction false} SegmentsHaveNoSep(p: string)
    ensures forall i :: 0 <= i < |Segments(p)| ==> SEP !in Segments(p)[i]
  {
    if p != [] { SegmentsHaveNoSep(p[1..]); }
  }

  lemma StackShaped(p: string) returns (k: nat)
    ensures Shaped(Rooted(p), Stack(p), k)
  {
    SegmentsHaveNoSep(p);
    k := FoldShaped(Rooted(p), [], 0, Segments(p));
  }

  /** Folding a shaped stack gives it back. */
  lemma {:induction false} FoldOfShaped(rooted: bool, stack: seq<string>, k: nat)
    requires Shaped(rooted, stack, k)
    ensures Fold(rooted, [], stack) == stack
    decreases |stack|
  {
    if stack != [] {
      var front, last := Front(stack), Last(stack);
      assert stack == front + [last];
      FoldOfShaped(rooted, front, if k == |stack| then k - 1 else k);
      FoldAppend(rooted, [], front, [last]);
      FoldOne(rooted, front, last);
    }
  }

  /** The text of a shaped stack is read back as that stack. */
  lemma StackOfRender(rooted: bool, stack: seq<string>, k: nat)
    requires Shaped(rooted, stack, k)
    ensures Rooted(Render(rooted, stack)) == rooted && Stack(Render(rooted, stack)) == stack
  {
    FoldOfShaped(rooted, stack, k);
    var p := Render(rooted, stack);
    if stack == [] {
      if rooted {
        assert p[1..] == [];
        assert Segments(p) == [[]] + [[]];
        FoldAppend(true, [], [[]], [[]]);
        FoldOne(true, [], []);
      } else {
        SegmentsOfName(DOT);
        FoldOne(false, [], DOT);
      }
    } else {
      SegmentsOfJoin(stack);
      JoinFirst(stack);
      if rooted {
        assert p[1..] == Join(stack);
        assert Segments(p) == [[]] + stack;
        FoldOne(true, [], []);
        FoldAppend(true, [], [[]], stack);
      } else {
        assert p == Join(stack) && !Rooted(p) && Segments(p) == stack;
      }
    }
  }

  lemma {:induction false} JoinFirst(stack: seq<string>)
    requires stack != [] && stack[0] != []
    ensures Join(stack) != [] && Join(stack)[0] == stack[0][0]
  {
    if |stack| > 1 { JoinFirst(Front(stack)); }
  }

  // ------------------------------------------------------------------- main results

  lemma StackOfClean(p: string)
    ensures Rooted(Clean(p)) == Rooted(p) && Stack(Clean(p)) == Stack(p)
  {
    var k := StackShaped(p);
    StackOfRender(Rooted(p), Stack(p), k);
  }

  /** Cleaning a cleaned path changes nothing. */
  lemma CleanIdempotent(p: string)
    ensures Clean(Clean(p)) == Clean(p)
  {
    StackOfClean(p);
  }

  lemma StackOfJoined(a: string, b: string)
    requires a != []
    ensures Rooted(a + [SEP] + b) == Rooted(a)
    ensures Stack(a + [SEP] + b) == Fold(Rooted(a), Stack(a), Segments(b))
  {
    SegmentsJoin(a, b);
    FoldAppend(Rooted(a), [], Segments(a), Segments(b));
  }

  /** The left part of a join may be cleaned first. */
  lemma CleanJoin(a: string, b: string)
    requires a != []
    ensures Clean(a) != [] && Clean(a + [SEP] + b) == Clean(Clean(a) + [SEP] + b)
  {
    StackOfClean(a);
    CleanNonEmpty(a);
    StackOfJoined(a, b);
    StackOfJoined(Clean(a), b);
  }

  lemma CleanNonEmpty(p: string)
    ensures Clean(p) != []
  {
    var k := StackShaped(p);
    if Stack(p) != [] { JoinFirst(Stack(p)); }
  }

  /** With an empty left part that fails, whatever follows: the slash then makes the path
      absolute, while the dot that stands for nothing keeps it relative. */
  lemma CleanJoinIff(a: string, b: string)
    ensures Clean(a + [SEP] + b) == Clean(Clean(a) + [SEP] + b) <==> a != []
  {
    if a == [] {
      StackOfClean(a + [SEP] + b);
      StackOfClean(Clean(a) + [SEP] + b);
      FoldOne(false, [], []);
      assert Clean(a) == DOT;
    } else {
      CleanJoin(a, b);
    }
  }

  // -------------------------------------------------------------------- what it means

  /** A directory, as the names from the root to it. */
  type Location = seq<string>

  /** One lexical step; the root is its own parent. */
  function WalkSegment(loc: Location, seg: string): Location {
    if seg == [] || seg == DOT then loc
    else if seg != DOTDOT then loc + [seg]
    else if loc == [] then loc
    else Front(loc)
  }

  function WalkSegments(loc: Location, segs: seq<string>): Location
    decreases |segs|
  {
    if segs == [] then loc else WalkSegments(WalkSegment(loc, segs[0]), segs[1..])
  }

  /** Where a path leads from a directory. */
  function Walk(loc: Location, p: string): Location {
    WalkSegments(if Rooted(p) then [] else loc, Segments(p))
  }

  lemma {:induction false} WalkAppend(loc: Location, xs: seq<string>, ys: seq<string>)
    ensures WalkSegments(loc, xs + ys) == WalkSegments(WalkSegments(loc, xs), ys)
    decreases |xs|
  {
    if xs == [] {
      assert xs + ys == ys;
    } else {
      assert (xs + ys)[1..] == xs[1..] + ys;
      WalkAppend(WalkSegment(loc, xs[0]), xs[1..], ys);
    }
  }

  lemma WalkOne(loc: Location, seg: string)
    ensures WalkSegments(loc, [seg]) == WalkSegment(loc, seg)
  {
    assert [seg][1..] == [];
  }

  /** Pushing a segment onto the stack is walking that segment after the stack. */
  lemma WalkPush(rooted: bool, loc: Location, stack: seq<string>, k: nat, seg: string)
    requires Shaped(rooted, stack, k) && (rooted ==> loc == [])
    ensures WalkSegments(loc, Push(rooted, stack, seg)) == WalkSegment(WalkSegments(loc, stack), seg)
  {
    WalkAppend(loc, stack, [seg]);
    WalkOne(WalkSegments(loc, stack), seg);
    if seg == DOTDOT && stack != [] && Last(stack) != DOTDOT {
      assert stack == Front(stack) + [Last(stack)];
      WalkAppend(loc, Front(stack), [Last(stack)]);
      WalkOne(WalkSegments(loc, Front(stack)), Last(stack));
      assert IsName(Last(stack));
    }
  }

  lemma {:induction false} WalkFold(rooted: bool, loc: Location, stack: seq<string>, k: nat, segs: seq<string>)
    requires Shaped(rooted, stack, k) && (rooted ==> loc == [])
    requires forall i :: 0 <= i < |segs| ==> SEP !in segs[i]
    ensures WalkSegments(loc, Fold(rooted, stack, segs)) == WalkSegments(WalkSegments(loc, stack), segs)
    decreases |segs|
  {
    if segs != [] {
      WalkPush(rooted, loc, stack, k, segs[0]);
      PushShaped(rooted, stack, k, segs[0]);
      WalkFold(rooted, loc, Push(rooted, stack, segs[0]), PushShape(rooted, stack, k, segs[0]), segs[1..]);
    }
  }

  lemma WalkOfStack(loc: Location, p: string)
    ensures Walk(loc, p) == WalkSegments(if Rooted(p) then [] else loc, Stack(p))
  {
    SegmentsHaveNoSep(p);
    WalkFold(Rooted(p), if Rooted(p) then [] else loc, [], 0, Segments(p));
  }

  /** Cleaning preserves meaning: from every directory both paths lead to the same place. */
  lemma CleanPreservesWalk(loc: Location, p: string)
    ensures Walk(loc, Clean(p)) == Walk(loc, p)
  {
    StackOfClean(p);
    WalkOfStack(loc, p);
    WalkOfStack(loc, Clean(p));
  }

  /** Walking a joined path is walking its left part and then the right part from there. */
  lemma WalkJoined(loc: Location, a: string, b: string)
    requires a != [] && !Rooted(b)
    ensures Walk(loc, a + [SEP] + b) == Walk(Walk(loc, a), b)
  {
    SegmentsJoin(a, b);
    WalkAppend(if Rooted(a) then [] else loc, Segments(a), Segments(b));
  }

  // A relative stack climbs k levels and then descends; k and the names can be told apart
  // by where it leads from deep enough directories.

  lemma {:induction false} WalkDotDots(loc: Location, k: nat, stack: seq<string>)
    requires k <= |loc| && |stack| == k && forall i :: 0 <= i < k ==> stack[i] == DOTDOT
    ensures WalkSegments(loc, stack) == loc[..|loc| - k]
    decreases k
  {
    if k > 0 {
      WalkDotDots(Front(loc), k - 1, stack[1..]);
      assert Front(loc)[..|loc| - 1 - (k - 1)] == loc[..|loc| - k];
    }
  }

  lemma {:induction false} WalkNames(loc: Location, stack: seq<string>)
    requires forall i :: 0 <= i < |stack| ==> IsName(stack[i])
    ensures WalkSegments(loc, stack) == loc + stack
    decreases |stack|
  {
    if stack != [] {
      WalkNames(loc + [stack[0]], stack[1..]);
      assert loc + [stack[0]] + stack[1..] == loc + stack;
    }
  }

  lemma WalkShaped(rooted: bool, loc: Location, stack: seq<string>, k: nat)
    requires Shaped(rooted, stack, k) && k <= |loc|
    ensures WalkSegments(loc, stack) == loc[..|loc| - k] + stack[k..]
  {
    assert stack == stack[..k] + stack[k..];
    WalkAppend(loc, stack[..k], stack[k..]);
    WalkDotDots(loc, k, stack[..k]);
    WalkNames(loc[..|loc| - k], stack[k..]);
  }

  function Repeat(name: string, n: nat): (loc: Location)
    ensures |loc| == n && forall i :: 0 <= i < n ==> loc[i] == name
  {
    seq(n, _ => name)
  }

  /** From n copies of a name that differs from the first name below, more climbing shows. */
  lemma ClimbsShow(x: seq<string>, i: nat, y: seq<string>, j: nat)
    requires Shaped(false, x, i) && Shaped(false, y, j) && i > j
    ensures exists loc :: WalkSegments(loc, x) != WalkSegments(loc, y)
  {
    var other := if |x| > i && x[i] == "a" then "b" else "a";
    var loc := Repeat(other, i);
    WalkShaped(false, loc, x, i);
    WalkShaped(false, loc, y, j);
    assert WalkSegments(loc, y)[0] == other;
    assert WalkSegments(loc, x) == x[i..];
    assert WalkSegments(loc, x) != WalkSegments(loc, y);
  }

  lemma NamesShow(x: seq<string>, y: seq<string>, k: nat)
    requires Shaped(false, x, k) && Shaped(false, y, k) && x != y
    ensures exists loc :: WalkSegments(loc, x) != WalkSegments(loc, y)
  {
    var loc := Repeat("a", k);
    WalkShaped(false, loc, x, k);
    WalkShaped(false, loc, y, k);
    assert x == x[..k] + x[k..] && y == y[..k] + y[k..];
    assert x[..k] == y[..k];
    assert WalkSegments(loc, x) == x[k..] && WalkSegments(loc, y) == y[k..];
  }

  ghost predicate SameMeaning(p: string, q: string) {
    Rooted(p) == Rooted(q) && forall loc :: Walk(loc, p) == Walk(loc, q)
  }

  lemma SameRootedStack(p: string, q: string)
    requires SameMeaning(p, q) && Rooted(p)
    ensures Stack(p) == Stack(q)
  {
    var i := StackShaped(p);
    var j := StackShaped(q);
    var root: Location := [];
    assert Walk(root, p) == Walk(root, q);
    WalkOfStack(root, p);
    WalkOfStack(root, q);
    WalkShaped(true, root, Stack(p), i);
    WalkShaped(true, root, Stack(q), j);
    assert root[..0] + Stack(p)[0..] == Stack(p) && root[..0] + Stack(q)[0..] == Stack(q);
  }

  lemma SameRelativeStack(p: string, q: string)
    requires SameMeaning(p, q) && !Rooted(p)
    ensures Stack(p) == Stack(q)
  {
    var i := StackShaped(p);
    var j := StackShaped(q);
    var x, y := Stack(p), Stack(q);
    forall loc: Location
      ensures WalkSegments(loc, x) == WalkSegments(loc, y)
    {
      assert Walk(loc, p) == Walk(loc, q);
      WalkOfStack(loc, p);
      WalkOfStack(loc, q);
    }
    if i > j { ClimbsShow(x, i, y, j); }
    if j > i { ClimbsShow(y, j, x, i); }
    if x != y { NamesShow(x, y, i); }
  }

  /** The cleaned path is a normal form: two paths clean to the same text exactly when they
      lead to the same place from every directory (and are both absolute or both relative). */
  lemma CleanIsNormalForm(p: string, q: string)
    ensures Clean(p) == Clean(q) <==> SameMeaning(p, q)
  {
    StackOfClean(p);
    StackOfClean(q);
    if Clean(p) == Clean(q) {
      forall loc
        ensures Walk(loc, p) == Walk(loc, q)
      {
        CleanPreservesWalk(loc, p);
        CleanPreservesWalk(loc, q);
      }
    }
    if SameMeaning(p, q) {
      if Rooted(p) { SameRootedStack(p, q); } else { SameRelativeStack(p, q); }
    }
  }

  // ------------------------------------------------------------------------- the code

  /** The input ends at its first NUL; reading there gives NUL. */
  function CharAt(p: string, i: nat): char {
    if i < |p| then p[i] else NUL
  }

  predicate IsSeparator(c: char) { c == NUL || c == SEP }

  predicate CanIncrement(i: nat) { i < PATH_MAX - 1 }

  /** What a pass that has read up to i still owes: folding the rest gives the result. */
  ghost predicate Pass(p: string, i: nat, rooted: bool, stack: seq<string>, isDir: bool) {
    && i <= |p| && rooted == Rooted(p)
    && Fold(rooted, stack, Segments(p[i..])) == Stack(p)
    && NamesDir(p) == if i == |p| then isDir else NamesDir(p[i..])
  }

  /** The buffer is the text of the stack and dotdot the text of its dotdots.  It is no longer
      than what was read, and shorter where a name begins after another. */
  ghost predicate Buffer(p: string, i: nat, rooted: bool, out: string, dotdot: nat, stack: seq<string>, k: nat) {
    && Shaped(rooted, stack, k) && out == Text(rooted, stack) && dotdot == |Text(rooted, stack[..k])|
    && |out| <= i && (i < |p| && p[i] != SEP && stack != [] ==> |out| < i)
  }

  lemma LastOfCons(x: string, rest: seq<string>)
    requires rest != []
    ensures ([x] + rest)[1..] == rest && Last([x] + rest) == Last(rest)
  {
  }

  lemma {:induction false} SlashFirst(q: string)
    requires q != [] && q[0] == SEP
    ensures Segments(q)[0] == [] && Segments(q)[1..] == Segments(q[1..])
    ensures NamesDir(q) == NamesDir(q[1..])
  {
    LastOfCons([], Segments(q[1..]));
  }

  lemma {:induction false} ReadSlash(p: string, i: nat, rooted: bool, stack: seq<string>, isDir: bool)
    requires Pass(p, i, rooted, stack, isDir) && i < |p| && p[i] == SEP
    ensures Pass(p, i + 1, rooted, stack, true)
  {
    SlashFirst(p[i..]);
    FoldEmptyHead(rooted, stack, Segments(p[i..]));
    assert p[i..][1..] == p[i + 1..];
    if i + 1 == |p| { assert p[i + 1..] == []; }
  }

  lemma FoldHead(rooted: bool, stack: seq<string>, seg: string, tail: seq<string>)
    ensures Fold(rooted, stack, [seg] + tail) == Fold(rooted, Push(rooted, stack, seg), tail)
  {
    assert ([seg] + tail)[1..] == tail;
  }

  lemma FoldEmptyHead(rooted: bool, stack: seq<string>, segs: seq<string>)
    requires segs != [] && segs[0] == []
    ensures Fold(rooted, stack, segs) == Fold(rooted, stack, segs[1..])
  {
  }

  lemma LastOfRest(seg: string, rest: string)
    requires rest == [] || rest[0] == SEP
    ensures Last([seg] + Segments(rest)[1..]) == if rest == [] then seg else Last(Segments(rest))
  {
    var segs := Segments(rest);
    if rest == [] {
      assert segs == [[]];
    } else {
      assert segs == [[]] + Segments(rest[1..]);
      assert ([seg] + segs[1..])[|segs| - 1] == segs[|segs| - 1];
    }
  }

  lemma ReadSegment(p: string, i: nat, j: nat, rooted: bool, stack: seq<string>, isDir: bool)
    requires Pass(p, i, rooted, stack, isDir) && i < j <= |p|
    requires SEP !in p[i..j] && (j < |p| ==> p[j] == SEP)
    ensures Pass(p, j, rooted, Push(rooted, stack, p[i..j]), p[i..j] == DOT || p[i..j] == DOTDOT)
  {
    var seg, rest := p[i..j], p[j..];
    var stack' := Push(rooted, stack, seg);
    assert p[i..] == seg + rest;
    SegmentsHead(seg, rest);
    assert Fold(rooted, stack', Segments(rest)) == Stack(p) by {
      FoldHead(rooted, stack, seg, Segments(rest)[1..]);
      FoldEmptyHead(rooted, stack', Segments(rest));
    }
    assert NamesDir(p) == if j == |p| then seg == DOT || seg == DOTDOT else NamesDir(rest) by {
      LastOfRest(seg, rest);
    }
  }

  lemma ReadDot(p: string, i: nat, rooted: bool, stack: seq<string>, isDir: bool)
    requires Pass(p, i, rooted, stack, isDir) && i < |p| && p[i] == '.' && (i + 1 < |p| ==> p[i + 1] == SEP)
    ensures Pass(p, i + 1, rooted, stack, true)
  {
    assert p[i..i + 1] == DOT;
    ReadSegment(p, i, i + 1, rooted, stack, isDir);
  }

  lemma ReadDotDot(p: string, i: nat, rooted: bool, stack: seq<string>, isDir: bool)
    requires Pass(p, i, rooted, stack, isDir) && i + 1 < |p| && p[i] == p[i + 1] == '.'
              && (i + 2 < |p| ==> p[i + 2] == SEP)
    ensures Pass(p, i + 2, rooted, Push(rooted, stack, DOTDOT), true)
  {
    assert p[i..i + 2] == DOTDOT;
    ReadSegment(p, i, i + 2, rooted, stack, isDir);
  }

  lemma ReadName(p: string, i: nat, j: nat, rooted: bool, stack: seq<string>, isDir: bool)
    requires Pass(p, i, rooted, stack, isDir) && i < j <= |p| && IsName(p[i..j]) && (j < |p| ==> p[j] == SEP)
    ensures Pass(p, j, rooted, stack + [p[i..j]], false)
  {
    ReadSegment(p, i, j, rooted, stack, isDir);
  }

  lemma EmptyRest(p: string, rooted: bool, stack: seq<string>, isDir: bool)
    requires Pass(p, |p|, rooted, stack, isDir)
    ensures stack == Stack(p) && isDir == NamesDir(p)
  {
    assert p[|p|..] == [] && Segments(p[|p|..]) == [[]];
    FoldOne(rooted, stack, []);
  }

  /** Where the text of the stack without its last name ends: at dotdot or at a slash, and
      after the last slash. */
  lemma CutPoint(rooted: bool, stack: seq<string>, k: nat)
    requires Shaped(rooted, stack, k) && k < |stack|
    ensures var text, cut := Text(rooted, stack), |Text(rooted, Front(stack))|;
            && cut < |text| && text[..cut] == Text(rooted, Front(stack))
            && |Text(rooted, stack[..k])| <= cut
            && (cut == |Text(rooted, stack[..k])| || text[cut] == SEP)
            && SEP !in text[cut + 1..]
  {
    var front, last := Front(stack), Last(stack);
    assert stack == front + [last] && front[..k] == stack[..k];
    TextPush(rooted, front, last);
    TextGrows(rooted, front, k);
    var text, cut := Text(rooted, stack), |Text(rooted, front)|;
    if front == [] {
      assert k == 0 && front[..k] == front;
      assert text[cut + 1..] == last[1..];
    } else {
      assert text[cut + 1..] == last;
    }
  }

  /** The last name, and the slash before it, is cut off. */
  method PopName(rooted: bool, buffer: string, dotdot: nat, ghost stack: seq<string>, ghost k: nat)
      returns (out: string)
    requires Shaped(rooted, stack, k) && buffer == Text(rooted, stack) && dotdot == |Text(rooted, stack[..k])|
              && k < |stack|
    ensures out == Text(rooted, Front(stack))
  {
    CutPoint(rooted, stack, k);
    ghost var cut := |Text(rooted, Front(stack))|;
    assert forall i :: cut < i < |buffer| ==> buffer[i] == buffer[cut + 1..][i - cut - 1];
    var lastElem := |buffer| - 1;
    while lastElem > dotdot && buffer[lastElem] != SEP
      invariant cut <= lastElem < |buffer|
    {
      lastElem := lastElem - 1;
    }
    out := buffer[..lastElem];
  }

  lemma PoppedBuffer(p: string, i: nat, rooted: bool, buffer: string, dotdot: nat, stack: seq<string>, k: nat)
    requires Buffer(p, i, rooted, buffer, dotdot, stack, k) && |buffer| > dotdot && i + 2 <= |p|
              && (i + 2 < |p| ==> p[i + 2] == SEP)
    ensures k < |stack| && Push(rooted, stack, DOTDOT) == Front(stack)
    ensures Buffer(p, i + 2, rooted, Text(rooted, Front(stack)), dotdot, Front(stack), k)
  {
    assert stack[..|stack|] == stack;
    TextGrows(rooted, stack, |stack| - 1);
    assert Front(stack)[..k] == stack[..k];
  }

  lemma KeptBuffer(p: string, i: nat, buffer: string, dotdot: nat, stack: seq<string>, k: nat)
    requires Buffer(p, i, false, buffer, dotdot, stack, k) && |buffer| <= dotdot && i + 2 <= |p| && p[i] != SEP
              && (i + 2 < |p| ==> p[i + 2] == SEP)
    ensures k == |stack| && Push(false, stack, DOTDOT) == stack + [DOTDOT]
    ensures var out := (if buffer == [] then [] else buffer + [SEP]) + DOTDOT;
            Buffer(p, i + 2, false, out, |out|, stack + [DOTDOT], k + 1)
  {
    TextGrows(false, stack, k);
    assert stack[..k] == stack;
    TextPush(false, stack, DOTDOT);
    assert (stack + [DOTDOT])[..k + 1] == stack + [DOTDOT];
    if stack != [] { JoinFirst(stack); }
  }

  /** The buffer's side of a dotdot; the input's side is ReadSegment. */
  method PopOrKeep(p: string, i: nat, rooted: bool, buffer: string, dotdot: nat, ghost stack: seq<string>, ghost k: nat)
    returns (out: string, dotdot': nat, ghost k': nat)
    requires Buffer(p, i, rooted, buffer, dotdot, stack, k) && i + 2 <= |p| && p[i] != SEP
              && (i + 2 < |p| ==> p[i + 2] == SEP)
    ensures Buffer(p, i + 2, rooted, out, dotdot', Push(rooted, stack, DOTDOT), k')
  {
    out, dotdot', k' := buffer, dotdot, k;
    if |out| > dotdot {
      PoppedBuffer(p, i, rooted, buffer, dotdot, stack, k);
      out := PopName(rooted, buffer, dotdot, stack, k);
    } else if !rooted {
      KeptBuffer(p, i, buffer, dotdot, stack, k);
      if |out| > 0 {
        out := out + [SEP];
      }
      out := out + DOTDOT;
      dotdot' := |out|;
      k' := k + 1;
    } else {
      TextGrows(rooted, stack, k);
    }
  }

  /** Where the name that starts at i ends. */
  function NameEnd(p: string, i: nat): (j: nat)
    requires i <= |p|
    ensures i <= j <= |p| && SEP !in p[i..j] && (j < |p| ==> p[j] == SEP)
    decreases |p| - i
  {
    if i == |p| || p[i] == SEP then i
    else
      var j := NameEnd(p, i + 1);
      assert p[i..j] == [p[i]] + p[i + 1..j];
      j
  }

  /** Bytes up to the next separator are appended; gives up exactly if they end too late. */
  method CopyName(p: string, i: nat, buffer: string) returns (ok: bool, out: string, j: nat)
    requires i < |p| && NUL !in p && p[i] != SEP && i <= PATH_MAX - 1 && |buffer| <= i
    ensures i <= j <= |p| && out == buffer + p[i..j]
    ensures ok <==> NameEnd(p, i) < PATH_MAX
    ensures j == if ok then NameEnd(p, i) else PATH_MAX - 1
  {
    out, j := buffer, i;
    while !IsSeparator(CharAt(p, j))
      invariant i <= j <= |p| && j <= PATH_MAX - 1 && NameEnd(p, j) == NameEnd(p, i)
      invariant out == buffer + p[i..j]
      decreases |p| - j
    {
      if !CanIncrement(j) {
        return false, out, j;
      }
      assert p[i..j + 1] == p[i..j] + [p[j]];
      out, j := out + [p[j]], j + 1;
    }
    ok := true;
  }

  /** What was copied up to a separator is a name, if it is neither a dot nor a dotdot. */
  lemma CopiedName(p: string, i: nat, j: nat)
    requires i < j <= |p| && NUL !in p && SEP !in p[i..j] && (j < |p| ==> p[j] == SEP)
    requires !(p[i] == '.' && IsSeparator(CharAt(p, i + 1)))
    requires !(p[i] == '.' && CharAt(p, i + 1) == '.' && IsSeparator(CharAt(p, i + 2)))
    ensures IsName(p[i..j])
  {
    var name := p[i..j];
    assert name[0] == p[i] && (|name| > 1 ==> name[1] == p[i + 1]);
  }

  lemma AppendedName(p: string, i: nat, rooted: bool, buffer: string, dotdot: nat, stack: seq<string>, k: nat, j: nat)
    requires Buffer(p, i, rooted, buffer, dotdot, stack, k) && i < j <= |p| && p[i] != SEP
    requires IsName(p[i..j]) && (j < |p| ==> p[j] == SEP)
    ensures Buffer(p, j, rooted, buffer + (if stack == [] then [] else [SEP]) + p[i..j], dotdot, stack + [p[i..j]], k)
  {
    TextPush(rooted, stack, p[i..j]);
    assert (stack + [p[i..j]])[..k] == stack[..k];
  }

  /** A separator is needed exactly if the buffer holds a name already. */
  lemma NeedsSeparator(p: string, i: nat, rooted: bool, buffer: string, dotdot: nat, stack: seq<string>, k: nat)
    requires Buffer(p, i, rooted, buffer, dotdot, stack, k)
    ensures ((rooted && |buffer| != 1) || (!rooted && |buffer| != 0)) <==> stack != []
  {
    if stack != [] { JoinFirst(stack); }
  }

  /** The buffer's side of a name. */
  method AppendName(p: string, i: nat, rooted: bool, buffer: string, dotdot: nat, ghost stack: seq<string>,
      ghost k: nat)
    returns (ok: bool, out: string, j: nat)
    requires Buffer(p, i, rooted, buffer, dotdot, stack, k) && i < |p| && NUL !in p && p[i] != SEP && i <= PATH_MAX - 1
    requires !(p[i] == '.' && IsSeparator(CharAt(p, i + 1)))
    requires !(p[i] == '.' && CharAt(p, i + 1) == '.' && IsSeparator(CharAt(p, i + 2)))
    ensures i <= j <= |p| && |out| <= j && (ok <==> NameEnd(p, i) < PATH_MAX)
    ensures j == if ok then NameEnd(p, i) else PATH_MAX - 1
    ensures ok ==> i < j && IsName(p[i..j]) && Buffer(p, j, rooted, out, dotdot, stack + [p[i..j]], k)
  {
    out := buffer;
    NeedsSeparator(p, i, rooted, buffer, dotdot, stack, k);
    if (rooted && |out| != 1) || (!rooted && |out| != 0) {
      out := out + [SEP];
    }
    ok, out, j := CopyName(p, i, out);
    if ok {
      CopiedName(p, i, j);
      AppendedName(p, i, rooted, buffer, dotdot, stack, k, j);
    }
  }

  /** The pass's local variables, with the stack that the buffer stands for. */
  ghost predicate Turn(p: string, i: nat, rooted: bool, out: string, dotdot: nat, isDir: bool, stack: seq<string>,
      k: nat) {
    && i <= PATH_MAX - 1 && Pass(p, i, rooted, stack, isDir) && Buffer(p, i, rooted, out, dotdot, stack, k)
    && (i < |p| || isDir || stack != [])
  }

  lemma SlashTurn(p: string, i: nat, rooted: bool, out: string, dotdot: nat, was: bool, stack: seq<string>, k: nat)
    requires Turn(p, i, rooted, out, dotdot, was, stack, k) && i < |p| && p[i] == SEP && CanIncrement(i)
    ensures Turn(p, i + 1, rooted, out, dotdot, true, stack, k) && |out| <= i + 1
  {
    ReadSlash(p, i, rooted, stack, was);
  }

  lemma DotTurn(p: string, i: nat, rooted: bool, out: string, dotdot: nat, was: bool, stack: seq<string>, k: nat)
    requires Turn(p, i, rooted, out, dotdot, was, stack, k) && i < |p| && CanIncrement(i)
    requires p[i] == '.' && (i + 1 < |p| ==> p[i + 1] == SEP)
    ensures Turn(p, i + 1, rooted, out, dotdot, true, stack, k) && |out| <= i + 1
  {
    ReadDot(p, i, rooted, stack, was);
  }

  lemma DotDotTurn(p: string, i: nat, rooted: bool, buffer: string, dotdot: nat, was: bool, stack: seq<string>,
      k: nat, out: string, dotdot': nat, stack': seq<string>, k': nat)
    requires Turn(p, i, rooted, buffer, dotdot, was, stack, k) && i + 1 < |p| && CanIncrement(i + 1)
    requires p[i] == p[i + 1] == '.' && (i + 2 < |p| ==> p[i + 2] == SEP)
    requires stack' == Push(rooted, stack, DOTDOT) && Buffer(p, i + 2, rooted, out, dotdot', stack', k')
    ensures Turn(p, i + 2, rooted, out, dotdot', true, stack', k') && |out| <= i + 2
  {
    ReadDotDot(p, i, rooted, stack, was);
  }

  /** A slash or a dot: only the position moves. */
  method SkipOne(p: string, i: nat, rooted: bool, buffer: string, dotdot: nat, ghost stack: seq<string>,
      ghost k: nat, ghost was: bool)
    returns (ok: bool, out: string, j: nat, dotdot': nat, isDir: bool, ghost stack': seq<string>, ghost k': nat)
    requires NUL !in p && i < |p| && Turn(p, i, rooted, buffer, dotdot, was, stack, k)
    requires p[i] == SEP || (p[i] == '.' && IsSeparator(CharAt(p, i + 1)))
    ensures |out| <= j <= PATH_MAX - 1
    ensures if ok then i < j && Turn(p, j, rooted, out, dotdot', isDir, stack', k') else |p| >= PATH_MAX
  {
    out, j, dotdot', isDir, stack', k' := buffer, i, dotdot, true, stack, k;
    ok := CanIncrement(i);
    if ok {
      j := i + 1;
      if p[i] == SEP {
        SlashTurn(p, i, rooted, buffer, dotdot, was, stack, k);
        return;
      }
      DotTurn(p, i, rooted, buffer, dotdot, was, stack, k);
    }
  }

  method ReadOneDotDot(p: string, i: nat, rooted: bool, buffer: string, dotdot: nat, ghost stack: seq<string>,
      ghost k: nat, ghost was: bool)
    returns (ok: bool, out: string, j: nat, dotdot': nat, isDir: bool, ghost stack': seq<string>, ghost k': nat)
    requires NUL !in p && i < |p| && Turn(p, i, rooted, buffer, dotdot, was, stack, k)
    requires p[i] == '.' && CharAt(p, i + 1) == '.' && IsSeparator(CharAt(p, i + 2))
    ensures |out| <= j <= PATH_MAX - 1
    ensures if ok then i < j && Turn(p, j, rooted, out, dotdot', isDir, stack', k') else |p| >= PATH_MAX
  {
    if !CanIncrement(i + 1) {
      return false, buffer, i, dotdot, true, stack, k;
    }
    out, dotdot', k' := PopOrKeep(p, i, rooted, buffer, dotdot, stack, k);
    ok, j, isDir, stack' := true, i + 2, true, Push(rooted, stack, DOTDOT);
    DotDotTurn(p, i, rooted, buffer, dotdot, was, stack, k, out, dotdot', stack', k');
  }

  method ReadOneName(p: string, i: nat, rooted: bool, buffer: string, dotdot: nat, ghost stack: seq<string>,
      ghost k: nat, ghost was: bool)
    returns (ok: bool, out: string, j: nat, dotdot': nat, isDir: bool, ghost stack': seq<string>, ghost k': nat)
    requires NUL !in p && i < |p| && Turn(p, i, rooted, buffer, dotdot, was, stack, k)
    requires p[i] != SEP && !(p[i] == '.' && IsSeparator(CharAt(p, i + 1)))
    requires !(p[i] == '.' && CharAt(p, i + 1) == '.' && IsSeparator(CharAt(p, i + 2)))
    ensures |out| <= j <= PATH_MAX - 1
    ensures if ok then i < j && Turn(p, j, rooted, out, dotdot', isDir, stack', k') else |p| >= PATH_MAX
  {
    dotdot', isDir, stack', k' := dotdot, false, stack, k;
    ok, out, j := AppendName(p, i, rooted, buffer, dotdot, stack, k);
    if ok {
      ReadName(p, i, j, rooted, stack, was);
      stack' := stack + [p[i..j]];
    }
  }

  /** One turn of the pass: a slash, a dot, a dotdot or a name is read. */
  method ReadOne(p: string, i: nat, rooted: bool, buffer: string, dotdot: nat, ghost stack: seq<string>,
      ghost k: nat, ghost was: bool)
    returns (ok: bool, out: string, j: nat, dotdot': nat, isDir: bool, ghost stack': seq<string>, ghost k': nat)
    requires NUL !in p && i < |p| && Turn(p, i, rooted, buffer, dotdot, was, stack, k)
    ensures |out| <= j <= PATH_MAX - 1
    ensures if ok then i < j && Turn(p, j, rooted, out, dotdot', isDir, stack', k') else |p| >= PATH_MAX
  {
    if p[i] == SEP || (p[i] == '.' && IsSeparator(CharAt(p, i + 1))) {
      ok, out, j, dotdot', isDir, stack', k' := SkipOne(p, i, rooted, buffer, dotdot, stack, k, was);
      return;
    }
    if p[i] == '.' && CharAt(p, i + 1) == '.' && IsSeparator(CharAt(p, i + 2)) {
      ok, out, j, dotdot', isDir, stack', k' := ReadOneDotDot(p, i, rooted, buffer, dotdot, stack, k, was);
      return;
    }
    ok, out, j, dotdot', isDir, stack', k' := ReadOneName(p, i, rooted, buffer, dotdot, stack, k, was);
  }

  /** CleanPath: succeeds exactly on paths shorter than PATH_MAX, never outgrows the buffer of
      PATH_MAX - 1 bytes, and then computes the specification. */
  method CleanInto(p: string) returns (ok: bool, out: string, isDir: bool)
    requires NUL !in p
    ensures ok <==> |p| < PATH_MAX
    ensures |out| <= PATH_MAX - 1
    ensures ok ==> out == Clean(p) && isDir == NamesDir(p)
  {
    if CharAt(p, 0) == NUL {
      FoldOne(false, [], []);
      return true, DOT, true;
    }
    var rooted := p[0] == SEP;
    var i: nat := 0;
    out, isDir := [], false;
    ghost var stack: seq<string> := [];
    ghost var k: nat := 0;
    assert p[0..] == p;
    if rooted {
      out := out + [SEP];
      ReadSlash(p, 0, true, [], false);
      i := i + 1;
      isDir := true;
    }
    var dotdot: nat := |out|;
    while CharAt(p, i) != NUL
      invariant Turn(p, i, rooted, out, dotdot, isDir, stack, k)
      decreases |p| - i
    {
      ok, out, i, dotdot, isDir, stack, k := ReadOne(p, i, rooted, out, dotdot, stack, k, isDir);
      if !ok {
        return;
      }
    }
    EmptyRest(p, rooted, stack, isDir);
    assert stack != [] ==> Join(stack) != [] by { if stack != [] { JoinFirst(stack); } }
    if |out| == 0 {
      out := out + DOT;
      isDir := true;
    }
    ok := true;
  }

  // ------------------------------------------------------------------- cleaning shortens

  /** The segments' bytes and one separator each. */
  function Width(segs: seq<string>): nat {
    if segs == [] then 0 else Width(Front(segs)) + |Last(segs)| + 1
  }

  lemma {:induction false} WidthHead(seg: string, segs: seq<string>)
    ensures Width([seg] + segs) == |seg| + 1 + Width(segs)
  {
    if segs == [] {
      assert Front([seg]) == [] && [seg] + segs == [seg];
    } else {
      assert Front([seg] + segs) == [seg] + Front(segs);
      WidthHead(seg, Front(segs));
    }
  }

  lemma {:induction false} WidthOfSegments(p: string)
    ensures Width(Segments(p)) == |p| + 1
  {
    if p == [] {
      WidthHead([], []);
      assert Segments(p) == [[]] + [];
    } else {
      var rest := Segments(p[1..]);
      WidthOfSegments(p[1..]);
      assert rest == [rest[0]] + rest[1..];
      WidthHead(rest[0], rest[1..]);
      if p[0] == SEP { WidthHead([], rest); } else { WidthHead([p[0]] + rest[0], rest[1..]); }
    }
  }

  lemma {:induction false} WidthOfFold(rooted: bool, stack: seq<string>, segs: seq<string>)
    ensures Width(Fold(rooted, stack, segs)) <= Width(stack) + Width(segs)
    decreases |segs|
  {
    if segs != [] {
      var seg := segs[0];
      assert segs == [seg] + segs[1..];
      WidthHead(seg, segs[1..]);
      assert Front(stack + [seg]) == stack;
      WidthOfFold(rooted, Push(rooted, stack, seg), segs[1..]);
    }
  }

  lemma {:induction false} WidthOfJoin(stack: seq<string>)
    requires stack != []
    ensures |Join(stack)| + 1 == Width(stack)
  {
    if |stack| > 1 { WidthOfJoin(Front(stack)); }
  }

  /** A cleaned path is no longer than the path, except that nothing becomes a dot. */
  lemma CleanShortens(p: string)
    ensures |Clean(p)| <= if p == [] then 1 else |p|
  {
    WidthOfSegments(p);
    if Rooted(p) {
      WidthOfSegments(p[1..]);
      assert Segments(p)[1..] == Segments(p[1..]);
      WidthOfFold(true, [], Segments(p[1..]));
    } else {
      WidthOfFold(false, [], Segments(p));
    }
    if Stack(p) != [] { WidthOfJoin(Stack(p)); }
  }

  // ------------------------------------------------- resolving against a working directory

  /** resolve_path: exactly the paths that fit are resolved, and the result leads where the
      relative path leads from the working directory. */
  method ResolvePath(cwd: string, relative: string) returns (ok: bool, out: string)
    requires NUL !in cwd && NUL !in relative && |cwd| <= PATH_MAX - 1
    ensures ok <==> if Rooted(relative) then |relative| < PATH_MAX else |cwd| + 1 + |relative| < PATH_MAX
    ensures ok ==> Clean(out) == out
    ensures ok && cwd != [] ==> forall loc :: Walk(loc, out) == Walk(Walk(loc, cwd), relative)
  {
    var isDir;
    if CharAt(relative, 0) == SEP {
      ok, out, isDir := CleanInto(relative);
      if ok {
        CleanIdempotent(relative);
        forall loc ensures Walk(loc, out) == Walk(Walk(loc, cwd), relative) { CleanPreservesWalk(loc, relative); }
      }
      return;
    }
    if |cwd| + |relative| + 2 > PATH_MAX {
      return false, [];
    }
    var buffer := cwd + [SEP] + relative;
    ok, out, isDir := CleanInto(buffer);
    CleanIdempotent(buffer);
    if cwd != [] {
      forall loc
        ensures Walk(loc, out) == Walk(Walk(loc, cwd), relative)
      {
        CleanPreservesWalk(loc, buffer);
        WalkJoined(loc, cwd, relative);
      }
    }
  }

  const UNREACHABLE: string := "(unreachable)"

  datatype RealPath = NameTooLong | Invalid | NoStat(errno: int) | Resolved(path: string)

  /** realpath, before the copy to the caller: it tells a path that is too long once joined from
      one that is too long by itself, agrees with resolve_path on the others, and asks whether the
      cleaned path exists unless the working directory is unreachable.  stat is what fstatat
      answers for a path, with the errno if it fails. */
  method RealPathOf(cwd: string, filename: string, stat: string -> Option<int>) returns (r: RealPath)
    requires NUL !in cwd && NUL !in filename && |cwd| <= PATH_MAX - 1
    ensures r.NameTooLong? <==> !Rooted(filename) && |cwd| + 1 + |filename| >= PATH_MAX
    ensures r.Invalid? <==> Rooted(filename) && |filename| >= PATH_MAX
    ensures var clean := Clean(if Rooted(filename) then filename else cwd + [SEP] + filename);
            var asks := Rooted(filename) || cwd != UNREACHABLE;
            && (r.NoStat? ==> asks && stat(clean) == Some(r.errno))
            && (r.Resolved? ==> r.path == clean && (asks ==> stat(clean).None?))
  {
    var path, doStat := filename, true;
    if CharAt(filename, 0) != SEP {
      if |cwd| + 1 + |filename| >= PATH_MAX {
        return NameTooLong;
      }
      if cwd == UNREACHABLE {
        doStat := false;
      }
      path := cwd + [SEP] + filename;
    }
    var ok, out, _ := CleanInto(path);
    if !ok {
      return Invalid;
    }
    if doStat {
      match stat(out)
      case Some(errno) => return NoStat(errno);
      case None =>
    }
    return Resolved(out);
  }

  /** Changing into a and then into b is changing into a/b: the working directory may be kept
      clean, and whenever the whole path fits, so does the second step. */
  lemma ResolveTwice(cwd: string, a: string, b: string)
    requires cwd != []
    ensures Clean(Clean(cwd + [SEP] + a) + [SEP] + b) == Clean(cwd + [SEP] + (a + [SEP] + b))
    ensures |Clean(cwd + [SEP] + a) + [SEP] + b| <= |cwd + [SEP] + (a + [SEP] + b)|
  {
    CleanJoin(cwd + [SEP] + a, b);
    CleanShortens(cwd + [SEP] + a);
    assert cwd + [SEP] + a + [SEP] + b == cwd + [SEP] + (a + [SEP] + b);
  }
}
