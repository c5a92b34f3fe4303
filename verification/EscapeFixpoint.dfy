/** The loop that recomputes escape summaries until none changes. */
module EscapeFixpoint {
  import opened Wrappers
  import opened Types
  import opened Escape
  import EscapeAnalyzer

  type Summaries = map<DefId, Summary>

  predicate Within(x: Summary, y: Summary) {
    x.heap <= y.heap && x.params <= y.params
  }

  ghost predicate Below(s: Summaries, t: Summaries) {
    s.Keys == t.Keys && forall d :: d in s ==> Within(s[d], t[d])
  }

  ghost predicate OracleBelow(x: Oracle, y: Oracle) {
    y.Everything? || (x.Known? && Below(x.summaries, y.summaries))
  }

  // ---- Escapes are monotone in the summaries; aliases do not depend on them

  lemma {:induction false} CallMonotone(program: Program, x: Oracle, y: Oracle, params: map<LocalId, nat>,
                                        aliases: Aliases, callee: Expr, args: seq<Expr>, n: nat)
    requires OracleBelow(x, y) && n <= |args|
    ensures CallSources(program, x, params, aliases, callee, args, n)
         <= CallSources(program, y, params, aliases, callee, args, n)
    decreases n
  {
    if n > 0 {
      CallMonotone(program, x, y, params, aliases, callee, args, n - 1);
      assert ArgEscapes(program, x, callee, args, n - 1) ==> ArgEscapes(program, y, callee, args, n - 1);
    }
  }

  lemma EventMonotone(program: Program, x: Oracle, y: Oracle, params: map<LocalId, nat>, frame: Frame, ev: Event)
    requires OracleBelow(x, y)
    ensures EventSources(program, x, params, frame, ev) <= EventSources(program, y, params, frame, ev)
  {
    if ev.CallTo? {
      CallMonotone(program, x, y, params, frame.aliases, ev.callee, ev.args, |ev.args|);
    }
  }

  lemma {:induction false} EscapingMonotone(
    program: Program, x: Oracle, y: Oracle, params: map<LocalId, nat>, frame: Frame, evs: seq<Event>)
    requires OracleBelow(x, y)
    ensures Escaping(program, x, params, frame, evs) <= Escaping(program, y, params, frame, evs)
    decreases |evs|
  {
    if evs != [] {
      EventMonotone(program, x, y, params, frame, evs[0]);
      EscapingMonotone(program, x, y, params, NextFrame(params, frame, evs[0]), evs[1..]);
    }
  }

  lemma AnalyzeMonotone(program: Program, x: Oracle, y: Oracle, f: Fn)
    requires OracleBelow(x, y)
    ensures Within(Analyze(program, x, f), Analyze(program, y, f))
  {
    if f.body.Some? {
      EscapingMonotone(program, x, y, ParamMap(f.params), Frame(map[], []), StmtsEvents(f.body.value));
    }
  }

  // ---- Solutions

  ghost predicate DistinctIds(fs: seq<Fn>) {
    forall i, j :: 0 <= i < j < |fs| ==> fs[i].id != fs[j].id
  }

  /** Later functions with the same id replace earlier ones. */
  function Index(fs: seq<Fn>): map<DefId, Fn>
    decreases |fs|
  {
    if fs == [] then map[] else Index(fs[..|fs| - 1])[fs[|fs| - 1].id := fs[|fs| - 1]]
  }

  function ProgramOf(fs: seq<Fn>): Program {
    Program(Index(fs))
  }

  /** What a function's summary has to be, given the others. */
  function Wanted(program: Program, s: Summaries, f: Fn): Summary {
    if f.body.None? then ExternSummary(f) else Analyze(program, Known(s), f)
  }

  ghost predicate Covers(fs: seq<Fn>, s: Summaries) {
    && (forall f :: f in fs ==> f.id in s)
    && (forall d :: d in s ==> exists f :: f in fs && f.id == d)
  }

  ghost predicate Solution(fs: seq<Fn>, s: Summaries) {
    Covers(fs, s) && forall f :: f in fs ==> s[f.id] == Wanted(ProgramOf(fs), s, f)
  }

  ghost predicate Closed(fs: seq<Fn>, s: Summaries) {
    Covers(fs, s) && forall f :: f in fs ==> Within(Wanted(ProgramOf(fs), s, f), s[f.id])
  }

  /** The least solution: it solves the equations and lies below everything closed under them. */
  ghost predicate Least(fs: seq<Fn>, s: Summaries) {
    Solution(fs, s) && forall t :: Closed(fs, t) ==> Below(s, t)
  }

  // ---- The loop

  /** The summaries so far can only grow, and lie below every closed assignment. */
  ghost predicate Ascending(fs: seq<Fn>, s: Summaries) {
    && Covers(fs, s)
    && (forall f :: f in fs ==> Within(s[f.id], Wanted(ProgramOf(fs), s, f)))
    && (forall f :: f in fs && f.body.None? ==> s[f.id] == ExternSummary(f))
    && (forall t :: Closed(fs, t) ==> Below(s, t))
  }

  function Missing(program: Program, fs: seq<Fn>, s: Summaries): nat
    decreases |fs|
  {
    if fs == [] then 0
    else
      var f := fs[|fs| - 1];
      var top := Analyze(program, Everything, f);
      var have := if f.id in s then s[f.id] else Summary({}, {});
      |top.heap - have.heap| + |top.params - have.params| + Missing(program, fs[..|fs| - 1], s)
  }

  lemma UpdateAscends(fs: seq<Fn>, s: Summaries, f: Fn)
    requires Ascending(fs, s) && DistinctIds(fs) && f in fs && f.body.Some?
    ensures Ascending(fs, s[f.id := Wanted(ProgramOf(fs), s, f)])
  {
    var program := ProgramOf(fs);
    var s' := s[f.id := Wanted(program, s, f)];
    assert s'.Keys == s.Keys && Below(s, s');
    forall g | g in fs
      ensures Within(s'[g.id], Wanted(program, s', g))
    {
      AnalyzeMonotone(program, Known(s), Known(s'), g);
    }
    forall t | Closed(fs, t)
      ensures Below(s', t)
    {
      assert Below(s, t);
      AnalyzeMonotone(program, Known(s), Known(t), f);
    }
  }

  lemma {:induction false} MissingMonotone(program: Program, fs: seq<Fn>, s: Summaries, t: Summaries)
    requires Below(s, t)
    ensures Missing(program, fs, t) <= Missing(program, fs, s)
    decreases |fs|
  {
    if fs != [] {
      MissingMonotone(program, fs[..|fs| - 1], s, t);
      var f := fs[|fs| - 1];
      if f.id in s {
        ShrinkDifference(Analyze(program, Everything, f), s[f.id], t[f.id]);
      }
    }
  }

  lemma ShrinkDifference(top: Summary, x: Summary, y: Summary)
    requires Within(x, y)
    ensures |top.heap - y.heap| <= |top.heap - x.heap| && |top.params - y.params| <= |top.params - x.params|
    ensures Within(y, top) && x != y ==>
              |top.heap - y.heap| + |top.params - y.params| < |top.heap - x.heap| + |top.params - x.params|
  {
    SmallerSet(top.heap - y.heap, top.heap - x.heap);
    SmallerSet(top.params - y.params, top.params - x.params);
    if Within(y, top) && x != y {
      if x.heap != y.heap {
        var l :| l in y.heap && l !in x.heap;
        assert l in top.heap - x.heap && l !in top.heap - y.heap;
      } else {
        var p :| p in y.params && p !in x.params;
        assert p in top.params - x.params && p !in top.params - y.params;
      }
    }
  }

  lemma SmallerSet<T>(x: set<T>, y: set<T>)
    requires x <= y
    ensures |x| <= |y|
    ensures x != y ==> |x| < |y|
  {
    assert y == x + (y - x);
    assert |y| == |x| + |y - x|;
  }

  lemma {:induction false} MissingShrinks(program: Program, fs: seq<Fn>, s: Summaries, k: nat, next: Summary)
    requires k < |fs| && fs[k].id in s
    requires Within(s[fs[k].id], next) && Within(next, Analyze(program, Everything, fs[k])) && next != s[fs[k].id]
    ensures Missing(program, fs, s[fs[k].id := next]) < Missing(program, fs, s)
    decreases |fs|
  {
    var t := s[fs[k].id := next];
    assert Below(s, t);
    var last := |fs| - 1;
    MissingMonotone(program, fs[..last], s, t);
    if k == last {
      ShrinkDifference(Analyze(program, Everything, fs[k]), s[fs[k].id], next);
    } else {
      MissingShrinks(program, fs[..last], s, k, next);
      if fs[last].id in s {
        ShrinkDifference(Analyze(program, Everything, fs[last]), s[fs[last].id], t[fs[last].id]);
      }
    }
  }

  function Initial(f: Fn): Summary {
    if f.body.None? then ExternSummary(f) else Summary({}, {})
  }

  method Start(fs: seq<Fn>) returns (s: Summaries)
    requires DistinctIds(fs)
    ensures Covers(fs, s) && forall f :: f in fs ==> s[f.id] == Initial(f)
  {
    s := map[];
    for i := 0 to |fs|
      invariant forall j :: 0 <= j < i ==> fs[j].id in s && s[fs[j].id] == Initial(fs[j])
      invariant forall d :: d in s ==> exists j :: 0 <= j < i && fs[j].id == d
    {
      s := s[fs[i].id := Initial(fs[i])];
    }
  }

  lemma StartAscends(fs: seq<Fn>, s: Summaries)
    requires Covers(fs, s) && forall f :: f in fs ==> s[f.id] == Initial(f)
    ensures Ascending(fs, s)
  {
    forall t | Closed(fs, t)
      ensures Below(s, t)
    {
      assert s.Keys == t.Keys;
      forall d | d in s
        ensures Within(s[d], t[d])
      {
        var f :| f in fs && f.id == d;
      }
    }
  }

  /** Replacing one summary by what it has to be makes progress or changes nothing. */
  lemma {:induction false} RefreshOne(fs: seq<Fn>, s: Summaries, i: nat)
    requires DistinctIds(fs) && Ascending(fs, s) && i < |fs| && fs[i].body.Some?
    ensures var program := ProgramOf(fs);
            var t := s[fs[i].id := Analyze(program, Known(s), fs[i])];
            Ascending(fs, t) && (t != s ==> Missing(program, fs, t) < Missing(program, fs, s))
  {
    var program := ProgramOf(fs);
    var f := fs[i];
    var next := Analyze(program, Known(s), f);
    assert f in fs;
    UpdateAscends(fs, s, f);
    AnalyzeMonotone(program, Known(s), Everything, f);
    if s[f.id] == next {
      assert s[f.id := next] == s;
    } else {
      assert Within(s[f.id], Wanted(program, s, f));
      MissingShrinks(program, fs, s, i, next);
    }
  }

  ghost predicate Settled(fs: seq<Fn>, s: Summaries, f: Fn) {
    f.id in s && s[f.id] == Wanted(ProgramOf(fs), s, f)
  }

  lemma AllSettled(fs: seq<Fn>, s: Summaries)
    requires Covers(fs, s) && forall j :: 0 <= j < |fs| ==> Settled(fs, s, fs[j])
    ensures Solution(fs, s)
  {
    forall f | f in fs
      ensures s[f.id] == Wanted(ProgramOf(fs), s, f)
    {
      var j :| 0 <= j < |fs| && fs[j] == f;
      assert Settled(fs, s, fs[j]);
    }
  }

  /** The summaries after one function was looked at again. */
  method Refresh(fs: seq<Fn>, s: Summaries, i: nat) returns (t: Summaries)
    requires DistinctIds(fs) && Ascending(fs, s) && i < |fs|
    ensures Ascending(fs, t)
    ensures t != s ==> Missing(ProgramOf(fs), fs, t) < Missing(ProgramOf(fs), fs, s)
    ensures t == s ==> Settled(fs, s, fs[i])
  {
    assert fs[i] in fs;
    if fs[i].body.Some? {
      var next := EscapeAnalyzer.AnalyzeFunction(ProgramOf(fs), s, fs[i]);
      RefreshOne(fs, s, i);
      t := s[fs[i].id := next];
    } else {
      t := s;
    }
  }

  method RefreshAll(fs: seq<Fn>, start: Summaries) returns (s: Summaries, changed: bool)
    requires DistinctIds(fs) && Ascending(fs, start)
    ensures Ascending(fs, s)
    ensures changed ==> Missing(ProgramOf(fs), fs, s) < Missing(ProgramOf(fs), fs, start)
    ensures !changed ==> s == start && Solution(fs, s)
  {
    var program := ProgramOf(fs);
    s, changed := start, false;
    for i := 0 to |fs|
      invariant Ascending(fs, s)
      invariant changed ==> Missing(program, fs, s) < Missing(program, fs, start)
      invariant !changed ==> s == start && forall j :: 0 <= j < i ==> Settled(fs, s, fs[j])
    {
      var next := Refresh(fs, s, i);
      if next != s {
        s := next;
        changed := true;
      }
    }
    if !changed {
      AllSettled(fs, s);
    }
  }

  method AnalyzeEscapes(fs: seq<Fn>) returns (s: Summaries)
    requires DistinctIds(fs)
    ensures Least(fs, s)
  {
    s := Start(fs);
    StartAscends(fs, s);
    var changed := true;
    while changed
      invariant Ascending(fs, s)
      invariant !changed ==> Solution(fs, s)
      decreases Missing(ProgramOf(fs), fs, s), if changed then 1 else 0
    {
      s, changed := RefreshAll(fs, s);
    }
  }

  // ---- The order of the functions does not matter

  lemma IndexFinds(fs: seq<Fn>, f: Fn)
    requires DistinctIds(fs) && f in fs
    ensures f.id in Index(fs) && Index(fs)[f.id] == f
    decreases |fs|
  {
    var last := |fs| - 1;
    if f != fs[last] {
      var i :| 0 <= i < |fs| && fs[i] == f;
      assert fs[..last][i] == f;
      IndexFinds(fs[..last], f);
    }
  }

  lemma {:induction false} IndexOnly(fs: seq<Fn>, d: DefId)
    requires d in Index(fs)
    ensures Index(fs)[d] in fs && Index(fs)[d].id == d
    decreases |fs|
  {
    var last := |fs| - 1;
    if d != fs[last].id {
      IndexOnly(fs[..last], d);
    }
  }

  lemma SameIndex(fs: seq<Fn>, gs: seq<Fn>)
    requires DistinctIds(fs) && DistinctIds(gs) && forall f :: f in fs <==> f in gs
    ensures Index(fs) == Index(gs)
  {
    forall d | d in Index(fs)
      ensures d in Index(gs) && Index(gs)[d] == Index(fs)[d]
    {
      IndexOnly(fs, d);
      IndexFinds(gs, Index(fs)[d]);
    }
    forall d | d in Index(gs)
      ensures d in Index(fs)
    {
      IndexOnly(gs, d);
      IndexFinds(fs, Index(gs)[d]);
    }
  }

  lemma BelowBothWays(s: Summaries, t: Summaries)
    requires Below(s, t) && Below(t, s)
    ensures s == t
  {
    forall d | d in s
      ensures s[d] == t[d]
    {
      assert Within(s[d], t[d]) && Within(t[d], s[d]);
    }
  }

  lemma LeastBelow(fs: seq<Fn>, gs: seq<Fn>, s: Summaries, t: Summaries)
    requires DistinctIds(fs) && DistinctIds(gs) && forall f :: f in fs <==> f in gs
    requires Least(fs, s) && Solution(gs, t)
    ensures Below(s, t)
  {
    SameIndex(fs, gs);
    assert Covers(fs, t);
    forall f | f in fs
      ensures Within(Wanted(ProgramOf(fs), t, f), t[f.id])
    {
      assert f in gs;
    }
    assert Closed(fs, t);
  }

  /** Two orders of the same functions lead to the same summaries. */
  lemma OrderDoesNotMatter(fs: seq<Fn>, gs: seq<Fn>, s: Summaries, t: Summaries)
    requires DistinctIds(fs) && DistinctIds(gs) && forall f :: f in fs <==> f in gs
    requires Least(fs, s) && Least(gs, t)
    ensures s == t
  {
    LeastBelow(fs, gs, s, t);
    LeastBelow(gs, fs, t, s);
    BelowBothWays(s, t);
  }
}
