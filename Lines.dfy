/**
 * The line machinery of the read handle: `iter_slices`, `splitlines` and
 * the pending-line carry of `iter_lines`. A payload is viewed as a sequence
 * of code units (characters for `str`, bytes for `bytes`); its `Kind` says
 * which units end a line.
 */
module Lines {
  import opened Wrappers

  datatype Kind = TextKind | BytesKind

  const CR: int := 13
  const LF: int := 10

  /** The boundaries of `bytes.splitlines` (`\n`, `\r`) and `str.splitlines` (those and eight more). */
  predicate IsBreak(k: Kind, u: int) {
    u == LF || u == CR
    || (k == TextKind && (u == 0x0B || u == 0x0C || u == 0x1C || u == 0x1D || u == 0x1E
                          || u == 0x85 || u == 0x2028 || u == 0x2029))
  }

  predicate NoBreak(s: seq<int>, k: Kind) {
    forall i :: 0 <= i < |s| ==> !IsBreak(k, s[i])
  }

  function Flatten(xs: seq<seq<int>>): seq<int> {
    if xs == [] then [] else xs[0] + Flatten(xs[1..])
  }

  lemma {:induction false} FlattenSnoc(xs: seq<seq<int>>, x: seq<int>)
    ensures Flatten(xs + [x]) == Flatten(xs) + x
  {
    if xs != [] {
      assert (xs + [x])[1..] == xs[1..] + [x];
      FlattenSnoc(xs[1..], x);
    }
  }

  lemma ConcatAssoc<U>(x: seq<U>, y: seq<U>, z: seq<U>)
    ensures x + (y + z) == (x + y) + z
  {
  }

  /** Moving a middle part from what is left to what is done keeps the total. */
  lemma Regroup<U>(done: seq<U>, part: seq<U>, rest: seq<U>, left: seq<U>, total: seq<U>)
    requires done + left == total && left == part + rest
    ensures (done + part) + rest == total
  {
    ConcatAssoc(done, part, rest);
  }

  // ---------------------------------------------------------------------
  // iter_slices

  /** The effective slice length: None or a value <= 0 means the whole input. */
  function Width(n: nat, sliceLength: Option<int>): nat {
    if sliceLength.None? || sliceLength.value <= 0 then n else sliceLength.value
  }

  /** The slices `iter_slices` yields: consecutive, non-empty, all but the last of full width. */
  predicate IsSlicing(s: seq<int>, w: nat, slices: seq<seq<int>>) {
    Flatten(slices) == s
    && (forall i :: 0 <= i < |slices| ==> 0 < |slices[i]| <= w)
    && (forall i :: 0 <= i < |slices| - 1 ==> |slices[i]| == w)
  }

  /** `iter_slices(string, slice_length)`, collected into a list. */
  method IterSlices(s: seq<int>, sliceLength: Option<int>) returns (slices: seq<seq<int>>)
    ensures IsSlicing(s, Width(|s|, sliceLength), slices)
  {
    var w := Width(|s|, sliceLength);
    var pos := 0;
    slices := [];
    while pos < |s|
      invariant 0 <= pos && (|s| > 0 ==> w > 0)
      invariant Flatten(slices) == s[..if pos < |s| then pos else |s|]
      invariant forall i :: 0 <= i < |slices| ==> 0 < |slices[i]| <= w
      invariant forall i :: 0 <= i < |slices| - 1 ==> |slices[i]| == w
      invariant pos < |s| ==> forall i :: 0 <= i < |slices| ==> |slices[i]| == w
      decreases |s| - pos
    {
      var end := if pos + w <= |s| then pos + w else |s|;
      FlattenSnoc(slices, s[pos..end]);
      assert s[..end] == s[..pos] + s[pos..end];
      slices := slices + [s[pos..end]];
      pos := pos + w;
    }
    assert s[..if pos < |s| then pos else |s|] == s;
  }

  // ---------------------------------------------------------------------
  // splitlines

  /** The position of the first line break in `s`, or `|s|`. */
  function FirstBreak(s: seq<int>, k: Kind): (i: nat)
    ensures i <= |s|
    ensures i < |s| ==> IsBreak(k, s[i])
  {
    if s == [] then 0
    else if IsBreak(k, s[0]) then 0
    else 1 + FirstBreak(s[1..], k)
  }

  /** No break comes before the first one. */
  lemma {:induction false} FirstBreakClear(s: seq<int>, k: Kind)
    ensures NoBreak(s[..FirstBreak(s, k)], k)
  {
    if s != [] && !IsBreak(k, s[0]) {
      var j := FirstBreak(s[1..], k);
      FirstBreakClear(s[1..], k);
      assert s[..1 + j] == [s[0]] + s[1..][..j];
    }
  }

  /** The length of the boundary at `i`: two for `\r\n`, one otherwise. */
  function BreakLen(s: seq<int>, i: nat): (n: nat)
    requires i < |s|
    ensures 1 <= n && i + n <= |s|
  {
    if s[i] == CR && i + 1 < |s| && s[i + 1] == LF then 2 else 1
  }

  /** `s.splitlines()`: the lines of `s` without their boundaries. */
  function SplitLines(s: seq<int>, k: Kind): (r: seq<seq<int>>)
    ensures r == [] <==> s == []
    decreases |s|
  {
    if s == [] then []
    else
      var i := FirstBreak(s, k);
      if i == |s| then [s]
      else [s[..i]] + SplitLines(s[i + BreakLen(s, i)..], k)
  }

  /** No line `splitlines` returns contains a boundary. */
  lemma {:induction false} SplitLinesParts(s: seq<int>, k: Kind)
    ensures forall j :: 0 <= j < |SplitLines(s, k)| ==> NoBreak(SplitLines(s, k)[j], k)
    decreases |s|
  {
    if s != [] {
      var i := FirstBreak(s, k);
      FirstBreakClear(s, k);
      if i < |s| {
        var n := i + BreakLen(s, i);
        SplitLinesParts(s[n..], k);
        SplitUnfold(s, k, i, n);
      } else {
        assert s[..i] == s;
      }
    }
  }

  /** Every unit of every line of `s.splitlines()` is a unit of `s`. */
  lemma {:induction false} SplitLinesWithin(s: seq<int>, k: Kind)
    ensures forall j, u :: 0 <= j < |SplitLines(s, k)| && u in SplitLines(s, k)[j] ==> u in s
    decreases |s|
  {
    if s != [] {
      var i := FirstBreak(s, k);
      if i < |s| {
        var n := i + BreakLen(s, i);
        SplitLinesWithin(s[n..], k);
        SplitUnfold(s, k, i, n);
        assert forall u :: u in s[..i] ==> u in s;
        assert forall u :: u in s[n..] ==> u in s;
      }
    }
  }

  /** `sep.join(lines)` */
  function JoinLines(lines: seq<seq<int>>, sep: seq<int>): seq<int> {
    if lines == [] then []
    else if |lines| == 1 then lines[0]
    else lines[0] + sep + JoinLines(lines[1..], sep)
  }

  /** The first break is at `n` when none comes before it and one (or the end) is there. */
  lemma {:induction false} FirstBreakAt(s: seq<int>, n: nat, k: Kind)
    requires n <= |s| && NoBreak(s[..n], k) && (n < |s| ==> IsBreak(k, s[n]))
    ensures FirstBreak(s, k) == n
  {
    if n > 0 {
      assert !IsBreak(k, s[..n][0]);
      assert s[1..][..n - 1] == s[..n][1..];
      FirstBreakAt(s[1..], n - 1, k);
    }
  }

  /** A non-empty run of units without boundaries is a single line. */
  lemma SplitLinesSingle(x: seq<int>, k: Kind)
    requires x != [] && NoBreak(x, k)
    ensures SplitLines(x, k) == [x]
  {
    assert x[..|x|] == x;
    FirstBreakAt(x, |x|, k);
  }

  /** Lines without boundaries, joined by `\n`, split back into the same lines (the last must be non-empty). */
  lemma {:induction false} SplitJoinLines(lines: seq<seq<int>>, k: Kind)
    requires forall j :: 0 <= j < |lines| ==> NoBreak(lines[j], k)
    requires lines != [] ==> lines[|lines| - 1] != []
    ensures SplitLines(JoinLines(lines, [LF]), k) == lines
  {
    if |lines| == 1 {
      SplitLinesSingle(lines[0], k);
    } else if |lines| > 1 {
      var line := lines[0];
      var rest := JoinLines(lines[1..], [LF]);
      var s := line + [LF] + rest;
      assert s[..|line|] == line;
      FirstBreakAt(s, |line|, k);
      assert s[|line| + 1..] == rest;
      SplitJoinLines(lines[1..], k);
      assert lines == [line] + lines[1..];
    }
  }

  // ---------------------------------------------------------------------
  // Splitting a concatenation

  lemma FirstBreakPrefix(a: seq<int>, b: seq<int>, k: Kind)
    requires FirstBreak(a, k) < |a|
    ensures FirstBreak(a + b, k) == FirstBreak(a, k)
  {
    var i := FirstBreak(a, k);
    FirstBreakClear(a, k);
    assert (a + b)[..i] == a[..i];
    FirstBreakAt(a + b, i, k);
  }

  /** One step of `splitlines`: the first line, then the lines after its boundary. */
  lemma SplitUnfold(a: seq<int>, k: Kind, i: nat, n: nat)
    requires i == FirstBreak(a, k) && i < |a| && n == i + BreakLen(a, i)
    ensures SplitLines(a, k) == [a[..i]] + SplitLines(a[n..], k)
  {
  }

  /** The same step on `a + b`, when the boundary lies in `a` and is not a `\r` that `b` completes. */
  lemma SplitStep(a: seq<int>, b: seq<int>, k: Kind, i: nat, n: nat)
    requires i == FirstBreak(a, k) && i < |a| && n == i + BreakLen(a, i)
    requires i + 1 < |a| || !(a[i] == CR && b != [] && b[0] == LF)
    ensures SplitLines(a + b, k) == [a[..i]] + SplitLines(a[n..] + b, k)
  {
    assert FirstBreak(a + b, k) == i by { FirstBreakPrefix(a, b, k); }
    assert BreakLen(a + b, i) == BreakLen(a, i);
    SplitUnfold(a + b, k, i, n);
    assert (a + b)[..i] == a[..i];
    assert (a + b)[n..] == a[n..] + b;
  }

  lemma {:induction false} BreakBeforeEnd(a: seq<int>, k: Kind)
    requires a != [] && IsBreak(k, a[|a| - 1])
    ensures FirstBreak(a, k) < |a|
  {
    if !IsBreak(k, a[0]) {
      assert a[1..][|a[1..]| - 1] == a[|a| - 1];
      BreakBeforeEnd(a[1..], k);
    }
  }

  function Last<U>(s: seq<U>): U
    requires s != []
  {
    s[|s| - 1]
  }

  /** The units after a first boundary that is not at the end keep the last unit. */
  lemma TailKeepsLast(a: seq<int>, n: nat)
    requires n < |a|
    ensures a[n..] != [] && Last(a[n..]) == Last(a)
  {
  }

  /** After a boundary that is not the `\r` of a straddled `\r\n`, the lines of `a + b` are those of `a`, then those of `b`. */
  lemma {:induction false} SplitAfterBreak(a: seq<int>, b: seq<int>, k: Kind)
    requires a != [] && IsBreak(k, Last(a))
    requires !(Last(a) == CR && StartsWithLf(b))
    ensures SplitLines(a + b, k) == SplitLines(a, k) + SplitLines(b, k)
    decreases |a|
  {
    BreakBeforeEnd(a, k);
    var i := FirstBreak(a, k);
    var n := i + BreakLen(a, i);
    if n < |a| {
      TailKeepsLast(a, n);
      SplitAfterBreak(a[n..], b, k);
      AfterBreakStep(a, b, k, i, n);
    } else {
      AfterBreakLast(a, b, k, i, n);
    }
  }

  /** The inductive step of `SplitAfterBreak`: the first line, then the rest. */
  lemma AfterBreakStep(a: seq<int>, b: seq<int>, k: Kind, i: nat, n: nat)
    requires i == FirstBreak(a, k) && i < |a| && n == i + BreakLen(a, i) && n < |a|
    requires SplitLines(a[n..] + b, k) == SplitLines(a[n..], k) + SplitLines(b, k)
    ensures SplitLines(a + b, k) == SplitLines(a, k) + SplitLines(b, k)
  {
    SplitStep(a, b, k, i, n);
    SplitUnfold(a, k, i, n);
    ConcatAssoc([a[..i]], SplitLines(a[n..], k), SplitLines(b, k));
  }

  /** The base case of `SplitAfterBreak`: the first boundary ends `a`. */
  lemma AfterBreakLast(a: seq<int>, b: seq<int>, k: Kind, i: nat, n: nat)
    requires i == FirstBreak(a, k) && i < |a| && n == i + BreakLen(a, i) && n == |a|
    requires !(Last(a) == CR && StartsWithLf(b))
    ensures SplitLines(a + b, k) == SplitLines(a, k) + SplitLines(b, k)
  {
    assert i + 1 < |a| || a[i] == Last(a);
    SplitStep(a, b, k, i, n);
    EmptyTail(a, b, n);
    SplitUnfold(a, k, i, n);
    assert SplitLines(a[n..], k) == [];
    assert [a[..i]] + [] == [a[..i]];
  }

  lemma EmptyTail(a: seq<int>, b: seq<int>, n: nat)
    requires n == |a|
    ensures a[n..] + b == b && a[n..] == []
  {
  }

  /** The first boundary of a run that does not end with one lies before the last unit. */
  lemma BreakInside(a: seq<int>, k: Kind)
    requires a != [] && !IsBreak(k, Last(a)) && FirstBreak(a, k) < |a|
    ensures FirstBreak(a, k) + BreakLen(a, FirstBreak(a, k)) < |a|
  {
  }

  /** A run without boundaries is one line. */
  lemma SplitWhole(a: seq<int>, k: Kind)
    requires a != [] && FirstBreak(a, k) == |a|
    ensures SplitLines(a, k) == [a]
  {
  }

  /** When `a` does not end with a boundary, its last line is non-empty and ends with `a`'s last unit. */
  lemma {:induction false} LastLine(a: seq<int>, k: Kind)
    requires a != [] && !IsBreak(k, Last(a))
    ensures SplitLines(a, k) != [] && Last(SplitLines(a, k)) != []
    ensures Last(Last(SplitLines(a, k))) == Last(a)
    decreases |a|
  {
    var i := FirstBreak(a, k);
    if i == |a| {
      SplitWhole(a, k);
    } else {
      BreakInside(a, k);
      var n := i + BreakLen(a, i);
      TailKeepsLast(a, n);
      LastLine(a[n..], k);
      SplitUnfold(a, k, i, n);
      LastOfCons(a[..i], SplitLines(a[n..], k));
    }
  }

  lemma LastOfCons<U>(x: U, L: seq<U>)
    requires L != []
    ensures Last([x] + L) == Last(L)
  {
  }

  /** Dropping the last line of `[x] + L` and appending `R`. */
  lemma ButLastOfCons<U>(x: U, L: seq<U>, R: seq<U>)
    requires L != []
    ensures ([x] + L)[..|L|] + R == [x] + (L[..|L| - 1] + R)
  {
    assert ([x] + L)[..|L|] == [x] + L[..|L| - 1];
  }

  /** When `a` does not end with a boundary, its last line runs on into `b`. */
  lemma {:induction false} SplitRunOn(a: seq<int>, b: seq<int>, k: Kind)
    requires a != [] && !IsBreak(k, Last(a))
    ensures SplitLines(a, k) != []
    ensures var L := SplitLines(a, k);
      SplitLines(a + b, k) == L[..|L| - 1] + SplitLines(Last(L) + b, k)
    decreases |a|
  {
    var i := FirstBreak(a, k);
    if i == |a| {
      SplitWhole(a, k);
    } else {
      BreakInside(a, k);
      var n := i + BreakLen(a, i);
      TailKeepsLast(a, n);
      SplitRunOn(a[n..], b, k);
      var L' := SplitLines(a[n..], k);
      SplitStep(a, b, k, i, n);
      SplitUnfold(a, k, i, n);
      LastOfCons(a[..i], L');
      ButLastOfCons(a[..i], L', SplitLines(Last(L') + b, k));
    }
  }

  // ---------------------------------------------------------------------
  // iter_lines

  /**
   * The source's test for carrying the last line over to the next chunk:
   * there are lines, the last is non-empty, and it ends with the chunk's
   * last unit.
   */
  predicate HoldsBack(chunk: seq<int>, lines: seq<seq<int>>) {
    lines != [] && lines[|lines| - 1] != [] && chunk != []
    && lines[|lines| - 1][|lines[|lines| - 1]| - 1] == chunk[|chunk| - 1]
  }

  /** That test holds exactly when the chunk is non-empty and does not end with a boundary. */
  lemma HoldsBackIff(chunk: seq<int>, k: Kind)
    ensures HoldsBack(chunk, SplitLines(chunk, k)) <==> chunk != [] && !IsBreak(k, Last(chunk))
  {
    var L := SplitLines(chunk, k);
    if chunk != [] && !IsBreak(k, Last(chunk)) {
      LastLine(chunk, k);
    }
    if HoldsBack(chunk, L) {
      SplitLinesParts(chunk, k);
      assert NoBreak(Last(L), k);
      assert !IsBreak(k, Last(Last(L)));
    }
  }

  /** The units a pending line contributes in front of the next chunk. */
  function Held(pending: Option<seq<int>>): seq<int> {
    if pending.Some? then pending.value else []
  }

  /** A pending line as `iter_lines` keeps it: non-empty and without boundaries. */
  predicate PendingLine(pending: Option<seq<int>>, k: Kind) {
    pending.Some? ==> pending.value != [] && NoBreak(pending.value, k)
  }

  /** One round of the loop: the lines emitted for a chunk, and the new pending line. */
  function CarryStep(pending: Option<seq<int>>, chunk: seq<int>, k: Kind): (seq<seq<int>>, Option<seq<int>>) {
    var c := Held(pending) + chunk;
    var lines := SplitLines(c, k);
    if HoldsBack(c, lines) then (lines[..|lines| - 1], Some(Last(lines))) else (lines, None)
  }

  /** The lines `iter_lines` yields from chunk `n` on, given the pending line carried into it. */
  function LinesFrom(chunks: seq<seq<int>>, n: nat, pending: Option<seq<int>>, k: Kind): seq<seq<int>>
    requires n <= |chunks|
    decreases |chunks| - n
  {
    if n == |chunks| then
      if pending.Some? then [pending.value] else []
    else
      var (lines, next) := CarryStep(pending, chunks[n], k);
      lines + LinesFrom(chunks, n + 1, next, k)
  }

  /** `iter_lines()` over a chunk sequence, collected into a list (default delimiter). */
  method IterLines(chunks: seq<seq<int>>, k: Kind) returns (out: seq<seq<int>>)
    ensures out == LinesFrom(chunks, 0, None, k)
  {
    var pending: Option<seq<int>> := None;
    out := [];
    var n := 0;
    ghost var total := LinesFrom(chunks, 0, None, k);
    while n < |chunks|
      invariant 0 <= n <= |chunks|
      invariant out + LinesFrom(chunks, n, pending, k) == total
    {
      var lines, next := CarryChunk(pending, chunks[n], k);
      Regroup(out, lines, LinesFrom(chunks, n + 1, next, k), LinesFrom(chunks, n, pending, k), total);
      out := out + lines;
      pending := next;
      n := n + 1;
    }
    if pending.Some? {
      out := out + [pending.value];
    }
  }

  /** The body of the `iter_lines` loop for one chunk: the lines it yields and the new pending line. */
  method CarryChunk(pending: Option<seq<int>>, chunk: seq<int>, k: Kind) returns (lines: seq<seq<int>>, next: Option<seq<int>>)
    ensures (lines, next) == CarryStep(pending, chunk, k)
  {
    var c := chunk;
    if pending.Some? {
      c := pending.value + c;
    } else {
      assert c == Held(pending) + chunk;
    }
    lines := SplitLines(c, k);
    if HoldsBack(c, lines) {
      next := Some(lines[|lines| - 1]);
      lines := lines[..|lines| - 1];
    } else {
      next := None;
    }
  }

  /** No chunk from `n` on ends with `\r` while the rest of the stream begins with `\n`. */
  predicate NoStraddledCrLf(chunks: seq<seq<int>>, n: nat)
    requires n <= |chunks|
    decreases |chunks| - n
  {
    n == |chunks|
    || ((chunks[n] != [] && Last(chunks[n]) == CR ==> !StartsWithLf(Flatten(chunks[n + 1..])))
        && NoStraddledCrLf(chunks, n + 1))
  }

  predicate StartsWithLf(s: seq<int>) {
    s != [] && s[0] == LF
  }

  /** An empty chunk changes nothing. */
  lemma CarryEmpty(pending: Option<seq<int>>, k: Kind)
    requires PendingLine(pending, k)
    ensures CarryStep(pending, [], k) == ([], pending)
  {
    var c := Held(pending) + [];
    assert c == Held(pending);
    if pending.Some? {
      SplitLinesSingle(c, k);
    }
  }

  /** A chunk that ends inside a line: all lines but the last are emitted, the last is held. */
  lemma CarryRunOn(pending: Option<seq<int>>, c0: seq<int>, k: Kind)
    requires c0 != [] && !IsBreak(k, Last(c0))
    ensures var L := SplitLines(Held(pending) + c0, k);
      L != [] && CarryStep(pending, c0, k) == (L[..|L| - 1], Some(Last(L)))
      && PendingLine(Some(Last(L)), k)
  {
    var c := Held(pending) + c0;
    LastOfJoin(Held(pending), c0);
    HoldsBackIff(c, k);
    LastLine(c, k);
    SplitLinesParts(c, k);
  }

  /** A chunk that ends with a boundary: every line is emitted and nothing is held. */
  lemma CarryAtBreak(pending: Option<seq<int>>, c0: seq<int>, k: Kind)
    requires c0 != [] && IsBreak(k, Last(c0))
    ensures CarryStep(pending, c0, k) == (SplitLines(Held(pending) + c0, k), None)
  {
    LastOfJoin(Held(pending), c0);
    HoldsBackIff(Held(pending) + c0, k);
  }

  /** One round of the loop, then splitting what follows, splits the whole. */
  lemma CarrySplits(pending: Option<seq<int>>, c0: seq<int>, rest: seq<int>, k: Kind)
    requires PendingLine(pending, k)
    requires c0 != [] && Last(c0) == CR ==> !StartsWithLf(rest)
    ensures PendingLine(CarryStep(pending, c0, k).1, k)
    ensures CarryStep(pending, c0, k).0 + SplitLines(Held(CarryStep(pending, c0, k).1) + rest, k)
         == SplitLines(Held(pending) + c0 + rest, k)
  {
    if c0 == [] {
      CarryEmpty(pending, k);
      EmptyChunk(Held(pending), c0);
    } else if !IsBreak(k, Last(c0)) {
      CarryRunOn(pending, c0, k);
      LastOfJoin(Held(pending), c0);
      SplitRunOn(Held(pending) + c0, rest, k);
    } else {
      CarryAtBreak(pending, c0, k);
      LastOfJoin(Held(pending), c0);
      SplitAfterBreak(Held(pending) + c0, rest, k);
      EmptyChunk([], rest);
    }
  }

  lemma EmptyChunk(p: seq<int>, c: seq<int>)
    requires c == [] || p == []
    ensures c == [] ==> p + c == p
    ensures p == [] ==> p + c == c
  {
  }

  lemma LastOfJoin(p: seq<int>, c: seq<int>)
    requires c != []
    ensures Last(p + c) == Last(c)
  {
  }

  lemma {:induction false} LinesFromSplits(chunks: seq<seq<int>>, n: nat, pending: Option<seq<int>>, k: Kind)
    requires n <= |chunks| && NoStraddledCrLf(chunks, n) && PendingLine(pending, k)
    ensures LinesFrom(chunks, n, pending, k) == SplitLines(Held(pending) + Flatten(chunks[n..]), k)
    decreases |chunks| - n
  {
    var p := Held(pending);
    if n == |chunks| {
      if pending.Some? {
        SplitLinesSingle(p, k);
      }
      assert p + Flatten(chunks[n..]) == p by {
        assert chunks[n..] == [];
      }
    } else {
      var rest := Flatten(chunks[n + 1..]);
      var step := CarryStep(pending, chunks[n], k);
      calc {
        LinesFrom(chunks, n, pending, k);
        step.0 + LinesFrom(chunks, n + 1, step.1, k);
        { CarrySplits(pending, chunks[n], rest, k);
          LinesFromSplits(chunks, n + 1, step.1, k); }
        step.0 + SplitLines(Held(step.1) + rest, k);
        { CarrySplits(pending, chunks[n], rest, k); }
        SplitLines(p + chunks[n] + rest, k);
        { FlattenAt(chunks, n); }
        SplitLines(p + Flatten(chunks[n..]), k);
      }
    }
  }

  lemma FlattenAt(chunks: seq<seq<int>>, n: nat)
    requires n < |chunks|
    ensures forall p: seq<int> {:trigger p + Flatten(chunks[n..])} ::
      p + Flatten(chunks[n..]) == p + chunks[n] + Flatten(chunks[n + 1..])
  {
    assert chunks[n..][0] == chunks[n] && chunks[n..][1..] == chunks[n + 1..];
  }

  /** Without a straddled `\r\n`, `iter_lines` yields exactly the lines of the whole stream. */
  lemma IterLinesAgreesWithSplit(chunks: seq<seq<int>>, k: Kind)
    requires NoStraddledCrLf(chunks, 0)
    ensures LinesFrom(chunks, 0, None, k) == SplitLines(Flatten(chunks), k)
  {
    LinesFromSplits(chunks, 0, None, k);
    assert [] + Flatten(chunks[0..]) == Flatten(chunks) by {
      assert chunks[0..] == chunks;
    }
  }

  /** A `\r\n` split across two chunks yields an extra empty line. */
  lemma StraddledCrLfYieldsEmptyLine()
    ensures LinesFrom([[97, CR], [LF, 98]], 0, None, BytesKind) == [[97], [], [98]]
    ensures SplitLines([97, CR, LF, 98], BytesKind) == [[97], [98]]
  {
    StraddledChunks();
    WholeCrLf();
  }

  lemma StraddledChunks()
    ensures LinesFrom([[97, CR], [LF, 98]], 0, None, BytesKind) == [[97], [], [98]]
  {
    var k := BytesKind;
    var c0: seq<int> := [97, CR];
    var c1: seq<int> := [LF, 98];
    var chunks: seq<seq<int>> := [c0, c1];
    SplitFirstChunk();
    SplitSecondChunk();
    CarryAtBreak(None, c0, k);
    CarryRunOn(None, c1, k);
    assert Held(None) + c0 == c0 && Held(None) + c1 == c1;
    assert LinesFrom(chunks, 0, None, k) == [[97]] + LinesFrom(chunks, 1, None, k);
    assert LinesFrom(chunks, 1, None, k) == [[]] + LinesFrom(chunks, 2, Some([98]), k);
  }

  lemma SplitFirstChunk()
    ensures SplitLines([97, CR], BytesKind) == [[97]]
  {
    var c0: seq<int> := [97, CR];
    assert FirstBreak(c0, BytesKind) == 1;
    assert c0[..1] == [97] && c0[2..] == [];
  }

  lemma SplitSecondChunk()
    ensures SplitLines([LF, 98], BytesKind) == [[], [98]]
  {
    var c1: seq<int> := [LF, 98];
    assert FirstBreak(c1, BytesKind) == 0;
    assert c1[..0] == [] && c1[1..] == [98];
    assert FirstBreak([98], BytesKind) == 1;
    assert SplitLines([98], BytesKind) == [[98]];
  }

  lemma WholeCrLf()
    ensures SplitLines([97, CR, LF, 98], BytesKind) == [[97], [98]]
  {
    var k := BytesKind;
    var w: seq<int> := [97, CR, LF, 98];
    assert FirstBreak(w, k) == 1;
    assert BreakLen(w, 1) == 2;
    assert w[..1] == [97] && w[3..] == [98];
    assert FirstBreak([98], k) == 1;
  }

  // ---------------------------------------------------------------------
  // The first line `iter_lines` yields

  function Head<U>(xs: seq<U>): Option<U> {
    if xs == [] then None else Some(xs[0])
  }

  /** Every unit of a slice is a unit of the whole. */
  lemma {:induction false} FlattenMember(xs: seq<seq<int>>, j: nat, u: int)
    requires j < |xs| && u in xs[j]
    ensures u in Flatten(xs)
  {
    if j > 0 {
      FlattenMember(xs[1..], j - 1, u);
    }
  }

  /** When a run has a boundary, whatever follows it does not change its first line. */
  lemma FirstLineOfConcat(c: seq<int>, rest: seq<int>, k: Kind)
    requires FirstBreak(c, k) < |c|
    ensures SplitLines(c, k) != [] && SplitLines(c + rest, k) != []
    ensures SplitLines(c + rest, k)[0] == SplitLines(c, k)[0] == c[..FirstBreak(c, k)]
  {
    var i := FirstBreak(c, k);
    FirstBreakPrefix(c, rest, k);
    assert (c + rest)[..i] == c[..i];
  }

  /** One round of the loop either emits the first line of its run, or holds the whole run back. */
  lemma CarryFirst(pending: Option<seq<int>>, chunk: seq<int>, k: Kind)
    ensures var c := Held(pending) + chunk;
      var (lines, next) := CarryStep(pending, chunk, k);
      (lines != [] ==> FirstBreak(c, k) < |c| && lines[0] == c[..FirstBreak(c, k)])
      && (lines == [] ==> Held(next) == c && PendingLine(next, k))
  {
    var c := Held(pending) + chunk;
    var L := SplitLines(c, k);
    if c != [] {
      var i := FirstBreak(c, k);
      if i == |c| {
        SplitWhole(c, k);
        FirstBreakClear(c, k);
        assert c[..i] == c;
      } else {
        var n := i + BreakLen(c, i);
        SplitUnfold(c, k, i, n);
        if HoldsBack(c, L) {
          HoldsBackIff(c, k);
          BreakInside(c, k);
          assert |L| >= 2;
        }
      }
    }
  }

  /** `iter_lines` yields the same first line as `splitlines` on the whole stream, whatever the chunks. */
  lemma {:induction false} FirstLineFrom(chunks: seq<seq<int>>, n: nat, pending: Option<seq<int>>, k: Kind)
    requires n <= |chunks| && PendingLine(pending, k)
    ensures Head(LinesFrom(chunks, n, pending, k)) == Head(SplitLines(Held(pending) + Flatten(chunks[n..]), k))
    decreases |chunks| - n
  {
    var p := Held(pending);
    if n == |chunks| {
      assert chunks[n..] == [] && p + Flatten(chunks[n..]) == p;
      if pending.Some? {
        SplitLinesSingle(p, k);
      }
    } else {
      var c := p + chunks[n];
      var rest := Flatten(chunks[n + 1..]);
      var (lines, next) := CarryStep(pending, chunks[n], k);
      FlattenAt(chunks, n);
      assert p + Flatten(chunks[n..]) == c + rest;
      CarryFirst(pending, chunks[n], k);
      if lines != [] {
        FirstLineOfConcat(c, rest, k);
      } else {
        FirstLineFrom(chunks, n + 1, next, k);
      }
    }
  }

  /** The first line `iter_lines` yields over any chunking is the first line of the whole. */
  lemma IterLinesFirstLine(chunks: seq<seq<int>>, k: Kind)
    ensures Head(LinesFrom(chunks, 0, None, k)) == Head(SplitLines(Flatten(chunks), k))
  {
    FirstLineFrom(chunks, 0, None, k);
    assert chunks[0..] == chunks && [] + Flatten(chunks) == Flatten(chunks);
  }
}
