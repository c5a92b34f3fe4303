/** Edit distance: the two-row table, its recursive meaning, and the edit scripts behind it. */
module Suggest {

  function Min(x: nat, y: nat): nat { if x <= y then x else y }

  // ---- The recursive definition

  function Distance(a: string, b: string): nat
    decreases |a| + |b|
  {
    if a == [] then |b|
    else if b == [] then |a|
    else
      var m, n := |a| - 1, |b| - 1;
      var substitution := Distance(a[..m], b[..n]) + (if a[m] != b[n] then 1 else 0);
      var insertion := Distance(a, b[..n]) + 1;
      var deletion := Distance(a[..m], b) + 1;
      Min(Min(substitution, insertion), deletion)
  }

  // ---- The code

  /** Entry of the distance table for the first `i` and `j` characters. */
  function Cell(a: string, b: string, i: nat, j: nat): nat
    requires i <= |a| && j <= |b|
  {
    Distance(a[..i], b[..j])
  }

  lemma CellStep(a: string, b: string, i: nat, j: nat)
    requires i < |a| && j < |b|
    ensures Cell(a, b, i + 1, j + 1) ==
            Min(Min(Cell(a, b, i, j) + (if a[i] != b[j] then 1 else 0), Cell(a, b, i + 1, j) + 1),
                Cell(a, b, i, j + 1) + 1)
  {
    assert a[..i + 1][..i] == a[..i] && b[..j + 1][..j] == b[..j];
  }

  lemma {:induction false} DistanceToSelf(a: string)
    ensures Distance(a, a) == 0
    decreases |a|
  {
    if a != [] {
      DistanceToSelf(a[..|a| - 1]);
    }
  }

  method Levenshtein(left: string, right: string) returns (d: nat)
    ensures d == Distance(left, right)
  {
    if left == right {
      DistanceToSelf(left);
      return 0;
    }
    if left == [] {
      return |right|;
    }
    if right == [] {
      return |left|;
    }
    var n := |right|;
    var previous := new nat[n + 1](j => j);
    var current := new nat[n + 1](_ => 0);
    var i := 0;
    while i < |left|
      invariant 0 <= i <= |left|
      invariant previous != current && previous.Length == current.Length == n + 1
      invariant fresh(previous) && fresh(current)
      invariant forall j :: 0 <= j <= n ==> previous[j] == Cell(left, right, i, j)
    {
      current[0] := i + 1;
      FillRow(left, right, i, previous, current);
      previous, current := current, previous;
      i := i + 1;
    }
    assert left[..|left|] == left && right[..n] == right;
    d := previous[n];
  }

  method FillRow(left: string, right: string, i: nat, previous: array<nat>, current: array<nat>)
    requires i < |left| && previous != current && previous.Length == current.Length == |right| + 1
    requires forall j :: 0 <= j <= |right| ==> previous[j] == Cell(left, right, i, j)
    requires current[0] == i + 1
    modifies current
    ensures forall j :: 0 <= j <= |right| ==> current[j] == Cell(left, right, i + 1, j)
  {
    for j := 0 to |right|
      invariant forall k :: 0 <= k <= j ==> current[k] == Cell(left, right, i + 1, k)
    {
      var substitution := previous[j] + (if left[i] != right[j] then 1 else 0);
      var insertion := current[j] + 1;
      var deletion := previous[j + 1] + 1;
      CellStep(left, right, i, j);
      current[j + 1] := Min(Min(substitution, insertion), deletion);
    }
  }

  // ---- Edit scripts

  datatype Edit = Keep(c: char) | Replace(c: char, d: char) | Insert(d: char) | Delete(c: char)

  function Consumed(e: Edit): string {
    match e
    case Keep(c) => [c]
    case Replace(c, _) => [c]
    case Insert(_) => []
    case Delete(c) => [c]
  }

  function Produced(e: Edit): string {
    match e
    case Keep(c) => [c]
    case Replace(_, d) => [d]
    case Insert(d) => [d]
    case Delete(_) => []
  }

  function Price(e: Edit): nat { if e.Keep? then 0 else 1 }

  function Source(script: seq<Edit>): string {
    if script == [] then [] else Source(script[..|script| - 1]) + Consumed(script[|script| - 1])
  }

  function Target(script: seq<Edit>): string {
    if script == [] then [] else Target(script[..|script| - 1]) + Produced(script[|script| - 1])
  }

  function Cost(script: seq<Edit>): nat {
    if script == [] then 0 else Cost(script[..|script| - 1]) + Price(script[|script| - 1])
  }

  ghost predicate Turns(script: seq<Edit>, a: string, b: string) {
    Source(script) == a && Target(script) == b
  }

  lemma Extend(script: seq<Edit>, e: Edit)
    ensures Source(script + [e]) == Source(script) + Consumed(e)
    ensures Target(script + [e]) == Target(script) + Produced(e)
    ensures Cost(script + [e]) == Cost(script) + Price(e)
  {
    assert (script + [e])[..|script|] == script;
  }

  /** One step at the end of either string changes the distance by at most one. */
  lemma DistanceStep(a: string, b: string, c: char)
    ensures Distance(a + [c], b) <= Distance(a, b) + 1
    ensures Distance(a, b + [c]) <= Distance(a, b) + 1
  {
    assert (a + [c])[..|a|] == a && (b + [c])[..|b|] == b;
  }

  lemma DistanceStepBoth(a: string, b: string, c: char, d: char)
    ensures Distance(a + [c], b + [d]) <= Distance(a, b) + if c == d then 0 else 1
  {
    assert (a + [c])[..|a|] == a && (b + [d])[..|b|] == b;
  }

  lemma DistanceEdit(a: string, b: string, e: Edit)
    ensures Distance(a + Consumed(e), b + Produced(e)) <= Distance(a, b) + Price(e)
  {
    match e
    case Keep(c) => DistanceStepBoth(a, b, c, c);
    case Replace(c, d) => DistanceStepBoth(a, b, c, d);
    case Insert(d) =>
      assert a + [] == a;
      DistanceStep(a, b, d);
    case Delete(c) =>
      assert b + [] == b;
      DistanceStep(a, b, c);
  }

  /** No script is cheaper than the distance. */
  lemma {:induction false} DistanceIsLowerBound(script: seq<Edit>)
    ensures Distance(Source(script), Target(script)) <= Cost(script)
    decreases |script|
  {
    if script != [] {
      var rest, e := script[..|script| - 1], script[|script| - 1];
      DistanceIsLowerBound(rest);
      DistanceEdit(Source(rest), Target(rest), e);
    }
  }

  /** The edit accounts for the whole difference between the two distances. */
  ghost predicate LeavesRest(e: Edit, a: string, b: string, a0: string, b0: string) {
    a == a0 + Consumed(e) && b == b0 + Produced(e) && Distance(a, b) == Distance(a0, b0) + Price(e)
  }

  lemma LastEdit(a: string, b: string) returns (a0: string, b0: string, e: Edit)
    requires a != [] || b != []
    ensures |a0| + |b0| < |a| + |b| && LeavesRest(e, a, b, a0, b0)
  {
    if a == [] {
      a0, b0, e := a, b[..|b| - 1], Insert(b[|b| - 1]);
    } else if b == [] {
      a0, b0, e := a[..|a| - 1], b, Delete(a[|a| - 1]);
    } else {
      a0, b0, e := LastEditOfBoth(a, b);
    }
  }

  lemma LastEditOfBoth(a: string, b: string) returns (a0: string, b0: string, e: Edit)
    requires a != [] && b != []
    ensures |a0| + |b0| < |a| + |b| && LeavesRest(e, a, b, a0, b0)
  {
    var m, n := |a| - 1, |b| - 1;
    assert a[..m] + [a[m]] == a && b[..n] + [b[n]] == b && a + [] == a && b + [] == b;
    if Distance(a, b) == Distance(a, b[..n]) + 1 {
      a0, b0, e := a, b[..n], Insert(b[n]);
    } else if Distance(a, b) == Distance(a[..m], b) + 1 {
      a0, b0, e := a[..m], b, Delete(a[m]);
    } else if a[m] == b[n] {
      a0, b0, e := a[..m], b[..n], Keep(a[m]);
    } else {
      a0, b0, e := a[..m], b[..n], Replace(a[m], b[n]);
    }
  }

  /** Some script costs exactly the distance. */
  lemma {:induction false} DistanceIsAttained(a: string, b: string) returns (script: seq<Edit>)
    ensures Turns(script, a, b) && Cost(script) == Distance(a, b)
    decreases |a| + |b|
  {
    if a == [] && b == [] {
      script := [];
    } else {
      var a0, b0, e := LastEdit(a, b);
      var rest := DistanceIsAttained(a0, b0);
      script := rest + [e];
      Extend(rest, e);
    }
  }

  /** The distance is the cost of the cheapest script. */
  lemma {:induction false} DistanceIsMinimum(a: string, b: string)
    ensures forall script :: Turns(script, a, b) ==> Distance(a, b) <= Cost(script)
    ensures exists script :: Turns(script, a, b) && Cost(script) == Distance(a, b)
  {
    forall script | Turns(script, a, b)
      ensures Distance(a, b) <= Cost(script)
    {
      DistanceIsLowerBound(script);
    }
    var script := DistanceIsAttained(a, b);
  }

  // ---- Distance is a metric

  function Reverse(e: Edit): Edit {
    match e
    case Keep(c) => Keep(c)
    case Replace(c, d) => Replace(d, c)
    case Insert(d) => Delete(d)
    case Delete(c) => Insert(c)
  }

  lemma {:induction false} ReverseScript(script: seq<Edit>) returns (back: seq<Edit>)
    ensures Turns(back, Target(script), Source(script)) && Cost(back) == Cost(script)
    decreases |script|
  {
    if script == [] {
      back := [];
    } else {
      var rest := ReverseScript(script[..|script| - 1]);
      back := rest + [Reverse(script[|script| - 1])];
      Extend(rest, Reverse(script[|script| - 1]));
    }
  }

  lemma {:induction false} DistanceSymmetric(a: string, b: string)
    ensures Distance(a, b) == Distance(b, a)
  {
    DistanceNotLarger(a, b);
    DistanceNotLarger(b, a);
  }

  lemma DistanceNotLarger(a: string, b: string)
    ensures Distance(b, a) <= Distance(a, b)
  {
    var script := DistanceIsAttained(a, b);
    var back := ReverseScript(script);
    DistanceIsLowerBound(back);
  }

  // The effect of two successive edits at the same place, if any is left.
  function Fuse(e: Edit, f: Edit): seq<Edit>
    requires |Produced(e)| == 1 && Produced(e) == Consumed(f)
  {
    if e.Insert? then
      if f.Delete? then [] else [Insert(Produced(f)[0])]
    else if f.Delete? then [Delete(e.c)]
    else if e.c == Produced(f)[0] then [Keep(e.c)]
    else [Replace(e.c, Produced(f)[0])]
  }

  /** The fused edit reads what the first read, writes what the second wrote, and costs no more than both. */
  ghost predicate FusesTo(e: Edit, f: Edit, fused: seq<Edit>) {
    if fused == [] then Consumed(e) == [] && Produced(f) == []
    else
      && fused == [fused[0]] && Consumed(fused[0]) == Consumed(e) && Produced(fused[0]) == Produced(f)
      && Price(fused[0]) <= Price(e) + Price(f)
  }

  lemma FuseMerges(e: Edit, f: Edit)
    requires |Produced(e)| == 1 && Produced(e) == Consumed(f)
    ensures FusesTo(e, f, Fuse(e, f))
  {
  }

  lemma ExtendFused(rest: seq<Edit>, e: Edit, f: Edit)
    requires |Produced(e)| == 1 && Produced(e) == Consumed(f)
    ensures Source(rest + Fuse(e, f)) == Source(rest) + Consumed(e)
    ensures Target(rest + Fuse(e, f)) == Target(rest) + Produced(f)
    ensures Cost(rest + Fuse(e, f)) <= Cost(rest) + Price(e) + Price(f)
  {
    FuseMerges(e, f);
    ExtendMerged(rest, e, f, Fuse(e, f));
  }

  lemma ExtendMerged(rest: seq<Edit>, e: Edit, f: Edit, fused: seq<Edit>)
    requires FusesTo(e, f, fused)
    ensures Source(rest + fused) == Source(rest) + Consumed(e)
    ensures Target(rest + fused) == Target(rest) + Produced(f)
    ensures Cost(rest + fused) <= Cost(rest) + Price(e) + Price(f)
  {
    if fused == [] {
      assert rest + fused == rest;
      assert Source(rest) + [] == Source(rest) && Target(rest) + [] == Target(rest);
    } else {
      Extend(rest, fused[0]);
    }
  }

  /** A script from `a` to `b` followed by one from `b` to `c`, merged into one. */
  lemma {:induction false} MergeScripts(x: seq<Edit>, y: seq<Edit>) returns (z: seq<Edit>)
    requires Target(x) == Source(y)
    ensures Turns(z, Source(x), Target(y)) && Cost(z) <= Cost(x) + Cost(y)
    decreases |x| + |y|, 1
  {
    if y != [] && y[|y| - 1].Insert? {
      var e, y0 := y[|y| - 1], y[..|y| - 1];
      var rest := MergeScripts(x, y0);
      z := rest + [e];
      Extend(rest, e);
    } else if x != [] && x[|x| - 1].Delete? {
      var e, x0 := x[|x| - 1], x[..|x| - 1];
      var rest := MergeScripts(x0, y);
      z := rest + [e];
      Extend(rest, e);
    } else if x == [] && y == [] {
      z := [];
    } else {
      z := MergeLast(x, y);
    }
  }

  lemma {:induction false} MergeLast(x: seq<Edit>, y: seq<Edit>) returns (z: seq<Edit>)
    requires Target(x) == Source(y)
    requires x != [] || y != []
    requires x != [] ==> !x[|x| - 1].Delete?
    requires y != [] ==> !y[|y| - 1].Insert?
    ensures Turns(z, Source(x), Target(y)) && Cost(z) <= Cost(x) + Cost(y)
    decreases |x| + |y|, 0
  {
    assert x != [] && y != [];
    var e, x0 := x[|x| - 1], x[..|x| - 1];
    var f, y0 := y[|y| - 1], y[..|y| - 1];
    assert Target(x0) == Target(x)[..|Target(x)| - 1] == Source(y0);
    assert Produced(e) == [Target(x)[|Target(x)| - 1]] == Consumed(f);
    var rest := MergeScripts(x0, y0);
    z := rest + Fuse(e, f);
    ExtendFused(rest, e, f);
  }

  lemma {:induction false} DistanceTriangle(a: string, b: string, c: string)
    ensures Distance(a, c) <= Distance(a, b) + Distance(b, c)
  {
    var x := DistanceIsAttained(a, b);
    var y := DistanceIsAttained(b, c);
    var z := MergeScripts(x, y);
    DistanceIsLowerBound(z);
  }

  lemma {:induction false} DistanceSeparates(a: string, b: string)
    ensures Distance(a, b) == 0 <==> a == b
  {
    if a == b {
      DistanceToSelf(a);
    } else {
      var script := DistanceIsAttained(a, b);
      CostFreeKeeps(script);
    }
  }

  lemma {:induction false} CostFreeKeeps(script: seq<Edit>)
    ensures Cost(script) == 0 ==> Source(script) == Target(script)
    decreases |script|
  {
    if script != [] {
      CostFreeKeeps(script[..|script| - 1]);
    }
  }
}
