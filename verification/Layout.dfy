/** Detection of aggregates that contain themselves by value. */
module Layout {
  import opened Sequences

  type Name = string

  /** For each aggregate, the aggregates it contains by value. */
  type Graph = map<Name, set<Name>>

  function Succ(g: Graph, v: Name): set<Name> {
    if v in g then g[v] else {}
  }

  function Nodes(g: Graph): set<Name> {
    g.Keys + set v, w | v in g && w in g[v] :: w
  }

  ghost predicate IsPath(g: Graph, p: seq<Name>) {
    forall i :: 0 < i < |p| ==> p[i] in Succ(g, p[i - 1])
  }

  ghost predicate IsCycle(g: Graph, c: seq<Name>) {
    |c| >= 2 && c[0] == c[|c| - 1] && IsPath(g, c)
  }

  ghost predicate Acyclic(g: Graph) {
    forall c :: !IsCycle(g, c)
  }

  /** The rank strictly decreases from an aggregate to what it contains. */
  ghost predicate Ranks(g: Graph, rank: map<Name, nat>) {
    forall v, w :: v in g && w in g[v] ==> Drops(rank, v, w)
  }

  ghost predicate Drops(rank: map<Name, nat>, v: Name, w: Name) {
    v in rank && w in rank && rank[w] < rank[v]
  }

  lemma {:induction false} RankAlongPath(g: Graph, rank: map<Name, nat>, p: seq<Name>)
    requires Ranks(g, rank) && |p| >= 2 && IsPath(g, p)
    ensures p[0] in rank && p[|p| - 1] in rank && rank[p[|p| - 1]] < rank[p[0]]
    decreases |p|
  {
    var n := |p| - 1;
    assert p[n] in Succ(g, p[n - 1]);
    assert Drops(rank, p[n - 1], p[n]);
    if n > 1 {
      RankAlongPath(g, rank, p[..n]);
    }
  }

  lemma RankedIsAcyclic(g: Graph, rank: map<Name, nat>)
    requires Ranks(g, rank)
    ensures Acyclic(g)
  {
    forall c
      ensures !IsCycle(g, c)
    {
      if |c| >= 2 && IsPath(g, c) {
        RankAlongPath(g, rank, c);
      }
    }
  }

  lemma PathPush(g: Graph, p: seq<Name>, v: Name)
    requires IsPath(g, p) && (p != [] ==> v in Succ(g, p[|p| - 1]))
    ensures IsPath(g, p + [v])
  {
  }

  lemma CycleFound(g: Graph, p: seq<Name>, pos: nat)
    requires IsPath(g, p) && pos < |p| && p[pos] in Succ(g, p[|p| - 1])
    ensures IsCycle(g, p[pos..] + [p[pos]])
  {
    var c := p[pos..] + [p[pos]];
    forall i | 0 < i < |c|
      ensures c[i] in Succ(g, c[i - 1])
    {
      if i < |c| - 1 {
        assert c[i] == p[pos + i] && c[i - 1] == p[pos + i - 1];
      }
    }
  }

  // ---- Finishing order

  /** Every listed aggregate comes after everything it contains. */
  ghost predicate Finished(g: Graph, order: seq<Name>) {
    NoRepeats(order) && forall i :: 0 <= i < |order| ==> forall w :: w in Succ(g, order[i]) ==> w in order[..i]
  }

  lemma FinishOne(g: Graph, order: seq<Name>, v: Name)
    requires Finished(g, order) && v !in order && forall w :: w in Succ(g, v) ==> w in order
    ensures Finished(g, order + [v])
  {
    var longer := order + [v];
    forall i, w | 0 <= i < |longer| && w in Succ(g, longer[i])
      ensures w in longer[..i]
    {
      if i < |order| {
        assert longer[..i] == order[..i];
      } else {
        assert longer[..i] == order;
      }
    }
  }

  ghost function RankOf(order: seq<Name>): map<Name, nat>
  {
    map v | v in order :: FirstAt(order, v)
  }

  lemma FinishedRanks(g: Graph, order: seq<Name>)
    requires Finished(g, order) && forall v :: v in g ==> v in order
    ensures Ranks(g, RankOf(order))
  {
    forall v, w | v in g && w in g[v]
      ensures Drops(RankOf(order), v, w)
    {
      var i := FirstAt(order, v);
      assert w in Succ(g, order[i]);
      assert w in order[..i];
      var j :| 0 <= j < i && order[j] == w;
      assert FirstAt(order, w) == j;
    }
  }

  // ---- The search

  class Search {
    const g: Graph
    var visiting: seq<Name>
    var visited: set<Name>
    var cycles: seq<seq<Name>>
    ghost var order: seq<Name>

    constructor (g: Graph)
      ensures this.g == g && visiting == [] && visited == {} && cycles == [] && Valid()
    {
      this.g, visiting, visited, cycles, order := g, [], {}, [], [];
    }

    ghost predicate Valid()
      reads this
    {
      && IsPath(g, visiting) && NoRepeats(visiting)
      && (forall v :: v in visiting ==> v in Nodes(g) && v !in visited)
      && (forall i :: 0 <= i < |cycles| ==> IsCycle(g, cycles[i]))
      && (cycles == [] ==> Finished(g, order) && forall v :: v in visited <==> v in order)
    }

    ghost function Unvisited(): set<Name>
      reads this
    {
      set v | v in Nodes(g) && v !in visiting
    }

    method DetectCycleFrom(name: Name)
      requires Valid() && name in Nodes(g)
      requires visiting != [] ==> name in Succ(g, visiting[|visiting| - 1])
      modifies this
      ensures Valid() && visiting == old(visiting) && old(visited) <= visited && old(cycles) <= cycles
      ensures cycles == [] ==> name in visited
      decreases Unvisited(), 0
    {
      if name in visited {
        return;
      }
      var pos := Position(visiting, name);
      if pos < |visiting| {
        CycleFound(g, visiting, pos);
        cycles := cycles + [visiting[pos..] + [name]];
        return;
      }
      PathPush(g, visiting, name);
      ghost var outer := Unvisited();
      visiting := visiting + [name];
      assert name in outer && name !in Unvisited() && Unvisited() <= outer;
      DetectBelow(name);
      Finish(name);
      assert visiting == old(visiting);
    }

    method Finish(name: Name)
      requires Valid() && visiting != [] && visiting[|visiting| - 1] == name
      requires cycles == [] ==> Succ(g, name) <= visited
      modifies this
      ensures Valid() && visiting == old(visiting)[..|old(visiting)| - 1]
      ensures visited == old(visited) + {name} && cycles == old(cycles)
    {
      if cycles == [] {
        FinishOne(g, order, name);
      }
      visiting := visiting[..|visiting| - 1];
      visited := visited + {name};
      order := order + [name];
    }

    method DetectBelow(name: Name)
      requires Valid() && visiting != [] && visiting[|visiting| - 1] == name
      modifies this
      ensures Valid() && visiting == old(visiting) && old(visited) <= visited && old(cycles) <= cycles
      ensures cycles == [] ==> Succ(g, name) <= visited
      decreases Unvisited(), 1
    {
      var rest := Succ(g, name);
      while rest != {}
        invariant Valid() && visiting == old(visiting) && old(visited) <= visited && old(cycles) <= cycles
        invariant rest <= Succ(g, name) && (cycles == [] ==> Succ(g, name) - rest <= visited)
        decreases rest
      {
        var next :| next in rest;
        DetectCycleFrom(next);
        rest := rest - {next};
      }
    }
  }

  method Position(s: seq<Name>, name: Name) returns (pos: nat)
    ensures pos <= |s|
    ensures pos < |s| ==> s[pos] == name
    ensures pos == |s| ==> name !in s
  {
    pos := 0;
    while pos < |s| && s[pos] != name
      invariant pos <= |s| && name !in s[..pos]
    {
      pos := pos + 1;
    }
  }

  /** Nothing is reported exactly when the graph is acyclic, and then a rank exists; whatever is
      reported is a real cycle. The aggregates may be visited in any order. */
  method DetectCycles(g: Graph) returns (cycles: seq<seq<Name>>, ghost rank: map<Name, nat>)
    ensures cycles == [] <==> Acyclic(g)
    ensures cycles == [] ==> Ranks(g, rank)
    ensures forall i :: 0 <= i < |cycles| ==> IsCycle(g, cycles[i])
  {
    var search := new Search(g);
    var rest := g.Keys;
    while rest != {}
      invariant search.Valid() && search.g == g && search.visiting == [] && rest <= g.Keys && fresh(search)
      invariant search.cycles == [] ==> g.Keys - rest <= search.visited
      decreases rest
    {
      var name :| name in rest;
      search.DetectCycleFrom(name);
      rest := rest - {name};
    }
    cycles := search.cycles;
    rank := RankOf(search.order);
    if cycles == [] {
      FinishedRanks(g, search.order);
      RankedIsAcyclic(g, rank);
    } else {
      assert IsCycle(g, cycles[0]);
    }
  }
}
