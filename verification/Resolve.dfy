/** Lookup of names through re-exports. */
module Resolve {
  import opened Sequences
  import opened Wrappers

  type ModuleId = nat
  type DefId = nat

  datatype DefKind =
    | TypeAlias | Struct | Enum | EnumVariant | Interface | InterfaceAlias
    | Function | ExternFunction | OpaqueStruct

  datatype Def = Def(name: string, kind: DefKind, exported: bool)

  datatype Import = Import(path: string, alias: Option<string>, exported: bool, target: Option<ModuleId>)

  datatype Module = Module(defs: seq<DefId>, imports: seq<Import>)

  /** Modules and definitions refer to each other by position. */
  datatype Program = Program(modules: seq<Module>, defs: seq<Def>)

  datatype Query = Query(name: string, kinds: seq<DefKind>)

  ghost predicate WellFormed(p: Program) {
    forall m :: 0 <= m < |p.modules| ==>
      && (forall d :: d in p.modules[m].defs ==> d < |p.defs|)
      && (forall i :: i in p.modules[m].imports && i.target.Some? ==> i.target.value < |p.modules|)
  }

  predicate Matches(p: Program, q: Query, d: DefId) {
    d < |p.defs| && p.defs[d].exported && p.defs[d].name == q.name && p.defs[d].kind in q.kinds
  }

  /** The module exports the definition under the name asked for. */
  ghost predicate Offers(p: Program, q: Query, m: ModuleId, d: DefId) {
    && m < |p.modules| && d in p.modules[m].defs
    && d < |p.defs| && p.defs[d].exported && p.defs[d].name == q.name && p.defs[d].kind in q.kinds
  }

  predicate ReExports(i: Import, target: ModuleId) {
    i.exported && i.alias.None? && i.target == Some(target)
  }

  /** The search goes on from `m` to `n`: `m` has no match of its own and re-exports `n`. */
  ghost predicate Leads(p: Program, q: Query, m: ModuleId, n: ModuleId) {
    && m < |p.modules|
    && (forall d :: !Offers(p, q, m, d))
    && exists i :: i in p.modules[m].imports && ReExports(i, n)
  }

  ghost predicate IsTrail(p: Program, q: Query, trail: seq<ModuleId>) {
    trail != [] && forall k :: 0 < k < |trail| ==> Leads(p, q, trail[k - 1], trail[k])
  }

  /** Some trail of re-exports from a root ends in `m`. */
  ghost predicate Reached(p: Program, q: Query, roots: set<ModuleId>, m: ModuleId) {
    exists trail :: IsTrail(p, q, trail) && trail[0] in roots && trail[|trail| - 1] == m
  }

  ghost predicate Candidate(p: Program, q: Query, roots: set<ModuleId>, d: DefId) {
    exists m :: Reached(p, q, roots, m) && Offers(p, q, m, d)
  }

  lemma RootReached(p: Program, q: Query, roots: set<ModuleId>, m: ModuleId)
    requires m in roots
    ensures Reached(p, q, roots, m)
  {
    assert IsTrail(p, q, [m]);
  }

  lemma StepReached(p: Program, q: Query, roots: set<ModuleId>, m: ModuleId, n: ModuleId)
    requires Reached(p, q, roots, m) && Leads(p, q, m, n)
    ensures Reached(p, q, roots, n)
  {
    var trail :| IsTrail(p, q, trail) && trail[0] in roots && trail[|trail| - 1] == m;
    assert IsTrail(p, q, trail + [n]);
  }

  lemma {:induction false} ClosedHoldsTrail(p: Program, q: Query, closed: set<ModuleId>, trail: seq<ModuleId>)
    requires IsTrail(p, q, trail) && trail[0] in closed
    requires forall m, n :: m in closed && Leads(p, q, m, n) ==> n in closed
    ensures trail[|trail| - 1] in closed
    decreases |trail|
  {
    var last := |trail| - 1;
    if last > 0 {
      ClosedHoldsTrail(p, q, closed, trail[..last]);
      assert Leads(p, q, trail[last - 1], trail[last]);
    }
  }

  // ---- The search

  class ExportSearch {
    const p: Program
    const q: Query
    ghost const roots: set<ModuleId>
    var visited: set<ModuleId>
    var out: seq<DefId>

    constructor (p: Program, q: Query, ghost roots: set<ModuleId>)
      requires WellFormed(p)
      ensures this.p == p && this.q == q && this.roots == roots && visited == {} && out == [] && Valid({})
    {
      this.p, this.q, this.roots, visited, out := p, q, roots, {}, [];
    }

    /** `open` holds the modules whose imports are still being followed. */
    ghost predicate Valid(open: set<ModuleId>)
      reads this
    {
      && WellFormed(p)
      && (forall m :: m in visited ==> m < |p.modules| && Reached(p, q, roots, m))
      && (forall m, n :: m in visited && m !in open && Leads(p, q, m, n) ==> n in visited)
      && (forall d :: d in out <==> exists m :: m in visited && Offers(p, q, m, d))
    }

    ghost function Unvisited(): set<ModuleId>
      reads this
    {
      set m | 0 <= m < |p.modules| && m !in visited
    }

    method ExportedBareDefs(m: ModuleId, ghost open: set<ModuleId>)
      requires Valid(open) && m < |p.modules| && Reached(p, q, roots, m)
      modifies this
      ensures Valid(open) && old(visited) <= visited && m in visited
      decreases Unvisited(), 1
    {
      if m in visited {
        return;
      }
      ghost var before := Unvisited();
      var found := Exports(m);
      visited := visited + {m};
      out := out + found;
      assert m in before && m !in Unvisited() && Unvisited() <= before;
      assert forall d :: Offers(p, q, m, d) <==> d in found;
      if found != [] {
        assert Offers(p, q, m, found[0]);
        return;
      }
      Follow(m, open);
    }

    method Exports(m: ModuleId) returns (found: seq<DefId>)
      requires m < |p.modules|
      ensures forall d :: d in found <==> Offers(p, q, m, d)
    {
      found := [];
      var defs := p.modules[m].defs;
      for k := 0 to |defs|
        invariant forall d :: d in found <==> d in defs[..k] && Matches(p, q, d)
      {
        assert defs[..k + 1] == defs[..k] + [defs[k]];
        if Matches(p, q, defs[k]) {
          found := found + [defs[k]];
        }
      }
      assert defs[..|defs|] == defs;
    }

    method Follow(m: ModuleId, ghost open: set<ModuleId>)
      requires Valid(open + {m}) && m in visited && forall d :: !Offers(p, q, m, d)
      modifies this
      ensures Valid(open) && old(visited) <= visited
      decreases Unvisited(), 2
    {
      var imports := p.modules[m].imports;
      for k := 0 to |imports|
        invariant Valid(open + {m}) && old(visited) <= visited
        invariant forall j, n :: 0 <= j < k && ReExports(imports[j], n) ==> n in visited
      {
        var i := imports[k];
        if i.exported && i.alias.None? && i.target.Some? {
          assert i in imports && ReExports(i, i.target.value);
          assert Leads(p, q, m, i.target.value);
          StepReached(p, q, roots, m, i.target.value);
          ExportedBareDefs(i.target.value, open + {m});
        }
      }
    }
  }

  // ---- The lookup

  datatype Outcome =
    | NotFound
    | Found(def: DefId)
    | Ambiguous(candidates: seq<DefId>)
    | UnresolvedImport(path: string)

  /** The definitions follow each other as they first do in `defs`. */
  ghost predicate InOrder(r: seq<DefId>, defs: seq<DefId>) {
    && (forall i :: 0 <= i < |r| ==> r[i] in defs)
    && (forall i, j :: 0 <= i < j < |r| ==> FirstAt(defs, r[i]) < FirstAt(defs, r[j]))
  }

  /** Keeps the first occurrence of each definition, in order. */
  method DedupDefs(defs: seq<DefId>) returns (r: seq<DefId>)
    ensures NoRepeats(r) && (forall d :: d in r <==> d in defs) && InOrder(r, defs)
  {
    r := [];
    var seen: set<DefId> := {};
    for k := 0 to |defs|
      invariant NoRepeats(r) && (forall d :: d in r <==> d in defs[..k]) && (forall d :: d in seen <==> d in r)
      invariant InOrder(r, defs)
    {
      assert defs[..k + 1] == defs[..k] + [defs[k]];
      if defs[k] !in seen {
        assert FirstAt(defs, defs[k]) == k;
        forall i | 0 <= i < |r|
          ensures r[i] in defs && FirstAt(defs, r[i]) < k
        {
          assert r[i] in defs[..k];
        }
        seen := seen + {defs[k]};
        r := r + [defs[k]];
      }
    }
    assert defs[..|defs|] == defs;
  }

  /** The modules that the unaliased imports of a module name. */
  ghost function Roots(imports: seq<Import>): set<ModuleId> {
    set k | 0 <= k < |imports| && imports[k].alias.None? && imports[k].target.Some? :: imports[k].target.value
  }

  /** What the lookup has to answer, given its candidates. */
  ghost predicate Answers(p: Program, q: Query, roots: set<ModuleId>, r: Outcome) {
    match r
    case NotFound => forall d :: !Candidate(p, q, roots, d)
    case Found(def) => forall d :: Candidate(p, q, roots, d) <==> d == def
    case Ambiguous(ds) => |ds| > 1 && NoRepeats(ds) && forall d :: d in ds <==> Candidate(p, q, roots, d)
    case UnresolvedImport(_) => false
  }

  /** Import `k` is the first without alias that leads nowhere. */
  ghost predicate FirstUnresolved(imports: seq<Import>, k: int, path: string) {
    && 0 <= k < |imports| && imports[k].alias.None? && imports[k].target.None? && imports[k].path == path
    && forall j :: 0 <= j < k && imports[j].alias.None? ==> imports[j].target.Some?
  }

  method LookupImportedBare(p: Program, q: Query, m: ModuleId) returns (r: Outcome)
    requires WellFormed(p) && m < |p.modules|
    ensures r.UnresolvedImport? <==> exists i :: i in p.modules[m].imports && i.alias.None? && i.target.None?
    ensures r.UnresolvedImport? ==> exists k :: FirstUnresolved(p.modules[m].imports, k, r.path)
    ensures !r.UnresolvedImport? ==> Answers(p, q, Roots(p.modules[m].imports), r)
  {
    var imports := p.modules[m].imports;
    ghost var roots := Roots(imports);
    var search := new ExportSearch(p, q, roots);
    for k := 0 to |imports|
      invariant fresh(search) && search.p == p && search.q == q && search.roots == roots && search.Valid({})
      invariant forall j :: 0 <= j < k && imports[j].alias.None? ==>
                  imports[j].target.Some? && imports[j].target.value in search.visited
    {
      if imports[k].alias.None? {
        if imports[k].target.None? {
          assert imports[k] in imports && FirstUnresolved(imports, k, imports[k].path);
          return UnresolvedImport(imports[k].path);
        }
        var target := imports[k].target.value;
        assert imports[k] in imports && target in roots;
        RootReached(p, q, roots, target);
        search.ExportedBareDefs(target, {});
      }
    }
    SearchIsExact(search);
    var candidates := DedupDefs(search.out);
    r := Verdict(p, q, roots, candidates);
  }

  function Verdict(p: Program, q: Query, ghost roots: set<ModuleId>, candidates: seq<DefId>): (r: Outcome)
    requires NoRepeats(candidates) && forall d :: d in candidates <==> Candidate(p, q, roots, d)
    ensures Answers(p, q, roots, r)
  {
    if |candidates| == 0 then NotFound
    else if |candidates| == 1 then Found(candidates[0])
    else Ambiguous(candidates)
  }

  /** When all roots have been visited, the search has collected exactly the candidates. */
  lemma SearchIsExact(search: ExportSearch)
    requires search.Valid({}) && search.roots <= search.visited
    ensures forall d :: d in search.out <==> Candidate(search.p, search.q, search.roots, d)
  {
    forall m | Reached(search.p, search.q, search.roots, m)
      ensures m in search.visited
    {
      var trail :| IsTrail(search.p, search.q, trail) && trail[0] in search.roots && trail[|trail| - 1] == m;
      ClosedHoldsTrail(search.p, search.q, search.visited, trail);
    }
  }

  // ---- Independence of the order of imports and definitions

  ghost predicate SameModules(p: Program, r: Program) {
    && p.defs == r.defs && |p.modules| == |r.modules|
    && forall m :: 0 <= m < |p.modules| ==>
         && (forall d :: d in p.modules[m].defs <==> d in r.modules[m].defs)
         && (forall i :: i in p.modules[m].imports <==> i in r.modules[m].imports)
  }

  lemma SameTrails(p: Program, r: Program, q: Query, trail: seq<ModuleId>)
    requires SameModules(p, r) && IsTrail(p, q, trail)
    ensures IsTrail(r, q, trail)
  {
    forall k | 0 < k < |trail|
      ensures Leads(r, q, trail[k - 1], trail[k])
    {
      SameLeads(p, r, q, trail[k - 1], trail[k]);
    }
  }

  lemma SameLeads(p: Program, r: Program, q: Query, m: ModuleId, n: ModuleId)
    requires SameModules(p, r) && Leads(p, q, m, n)
    ensures Leads(r, q, m, n)
  {
    var i :| i in p.modules[m].imports && ReExports(i, n);
    assert i in r.modules[m].imports;
    assert forall d :: Offers(r, q, m, d) ==> Offers(p, q, m, d);
  }

  lemma SameCandidates(p: Program, r: Program, q: Query, roots: set<ModuleId>, d: DefId)
    requires SameModules(p, r) && Candidate(p, q, roots, d)
    ensures Candidate(r, q, roots, d)
  {
    var m :| Reached(p, q, roots, m) && Offers(p, q, m, d);
    var trail :| IsTrail(p, q, trail) && trail[0] in roots && trail[|trail| - 1] == m;
    SameTrails(p, r, q, trail);
    assert Reached(r, q, roots, m) && Offers(r, q, m, d);
  }

  lemma SameRoots(x: seq<Import>, y: seq<Import>)
    requires forall i :: i in x <==> i in y
    ensures Roots(x) == Roots(y)
  {
    forall m | m in Roots(x)
      ensures m in Roots(y)
    {
      var k :| 0 <= k < |x| && x[k].alias.None? && x[k].target == Some(m);
      assert x[k] in y;
    }
    forall m | m in Roots(y)
      ensures m in Roots(x)
    {
      var k :| 0 <= k < |y| && y[k].alias.None? && y[k].target == Some(m);
      assert y[k] in x;
    }
  }

  /** Reordering imports and definitions anywhere changes neither the verdict nor what is found; only the
      order in which an ambiguity is listed can differ. */
  lemma OrderDoesNotMatter(p: Program, r: Program, q: Query, m: ModuleId, x: Outcome, y: Outcome)
    requires SameModules(p, r) && m < |p.modules|
    requires Answers(p, q, Roots(p.modules[m].imports), x) && Answers(r, q, Roots(r.modules[m].imports), y)
    ensures x == y || (x.Ambiguous? && y.Ambiguous? && forall d :: d in x.candidates <==> d in y.candidates)
  {
    var roots := Roots(p.modules[m].imports);
    SameRoots(p.modules[m].imports, r.modules[m].imports);
    forall d
      ensures Candidate(p, q, roots, d) <==> Candidate(r, q, roots, d)
    {
      if Candidate(p, q, roots, d) {
        SameCandidates(p, r, q, roots, d);
      }
      if Candidate(r, q, roots, d) {
        SameCandidates(r, p, q, roots, d);
      }
    }
    VerdictFixed(p, q, roots, x, y);
  }

  lemma VerdictFixed(p: Program, q: Query, roots: set<ModuleId>, x: Outcome, y: Outcome)
    requires Answers(p, q, roots, x) && Answers(p, q, roots, y)
    ensures x == y || (x.Ambiguous? && y.Ambiguous? && forall d :: d in x.candidates <==> d in y.candidates)
  {
    VerdictWitness(p, q, roots, x);
    VerdictWitness(p, q, roots, y);
  }

  lemma VerdictWitness(p: Program, q: Query, roots: set<ModuleId>, x: Outcome)
    requires Answers(p, q, roots, x)
    ensures x.Found? ==> Candidate(p, q, roots, x.def)
    ensures x.Ambiguous? ==>
              && |x.candidates| > 1 && x.candidates[0] != x.candidates[1]
              && Candidate(p, q, roots, x.candidates[0]) && Candidate(p, q, roots, x.candidates[1])
  {
    if x.Ambiguous? {
      assert x.candidates[0] in x.candidates && x.candidates[1] in x.candidates;
    }
  }
}
