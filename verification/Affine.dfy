/** Which types hold affine values, found by a search that keeps the nominal types on its path. */
module Affine {
  import opened Wrappers
  import opened Types

  datatype StructInfo = StructInfo(isResource: bool, fields: seq<Ty>)

  /** What the surrounding program knows about types. */
  datatype Env = Env(
    isResourceHandle: Ty -> bool,
    isAsyncFuture: Ty -> bool,
    concreteReturn: Ty -> Option<Ty>,
    genericIsResource: string -> bool,
    structInfo: Ty -> Option<StructInfo>,
    enumPayloads: Ty -> Option<seq<Ty>>)

  /** The type is affine whatever it is made of. */
  predicate IsLeaf(env: Env, t: Ty) {
    || env.isResourceHandle(t)
    || t.GeneratedFuture?
    || (t.Generic? && env.genericIsResource(t.name))
    || (t.Named? && env.isAsyncFuture(t))
    || (t.Named? && env.structInfo(t).Some? && env.structInfo(t).value.isResource)
  }

  /** A value of type `t` holds a value of type `part`. */
  ghost predicate Component(env: Env, t: Ty, part: Ty) {
    || (t.Array? && part == t.elem)
    || (t.OpaqueState? && (part == t.base || exists i :: 0 <= i < |t.state| && t.state[i].ty == part))
    || (t.ClosureInstance? && part in t.captures)
    || (t.OpaqueReturn? && part != t && env.concreteReturn(t) == Some(part))
    || (t.Named? && env.structInfo(t).Some? && part in env.structInfo(t).value.fields)
    || (t.Named? && env.structInfo(t).None? && env.enumPayloads(t).Some? && part in env.enumPayloads(t).value)
  }

  /** The components, in the order of the search. */
  function Parts(env: Env, t: Ty): seq<Ty> {
    match t
    case Array(_, elem) => [elem]
    case OpaqueState(base, state) => [base] + FieldTys(state)
    case ClosureInstance(_, _, _, captures) => captures
    case OpaqueReturn(_, _, _) =>
      var concrete := env.concreteReturn(t);
      if concrete.Some? && concrete.value != t then [concrete.value] else []
    case Named(_, _, _) =>
      if env.structInfo(t).Some? then env.structInfo(t).value.fields
      else if env.enumPayloads(t).Some? then env.enumPayloads(t).value
      else []
    case _ => []
  }

  lemma PartsAreComponents(env: Env, t: Ty, part: Ty)
    ensures part in Parts(env, t) <==> Component(env, t, part)
  {
    if t.OpaqueState? {
      var state := FieldTys(t.state);
      assert part in state <==> exists i :: 0 <= i < |t.state| && t.state[i].ty == part by {
        if part in state {
          var i :| 0 <= i < |state| && state[i] == part;
          assert t.state[i].ty == part;
        }
      }
    }
  }

  /** A chain of by-value components that ends in an affine leaf. */
  ghost predicate IsChain(env: Env, chain: seq<Ty>) {
    && chain != []
    && (forall i :: 0 < i < |chain| ==> Component(env, chain[i - 1], chain[i]))
    && IsLeaf(env, chain[|chain| - 1])
  }

  ghost predicate HoldsAffine(env: Env, t: Ty) {
    exists chain :: IsChain(env, chain) && chain[0] == t
  }

  /** Some chain from `t` meets no type of `avoid`. */
  ghost predicate HoldsAffineAvoiding(env: Env, t: Ty, avoid: set<Ty>) {
    exists chain :: IsChain(env, chain) && chain[0] == t && forall u :: u in avoid ==> u !in chain
  }

  lemma LeafHolds(env: Env, t: Ty)
    requires IsLeaf(env, t)
    ensures HoldsAffine(env, t)
  {
    assert IsChain(env, [t]);
  }

  lemma PartHolds(env: Env, t: Ty, part: Ty)
    requires Component(env, t, part) && HoldsAffine(env, part)
    ensures HoldsAffine(env, t)
  {
    var chain :| IsChain(env, chain) && chain[0] == part;
    LongerChain(env, t, chain);
  }

  lemma LongerChain(env: Env, t: Ty, chain: seq<Ty>)
    requires IsChain(env, chain) && Component(env, t, chain[0])
    ensures IsChain(env, [t] + chain) && ([t] + chain)[0] == t
  {
    forall i | 0 < i < |[t] + chain|
      ensures Component(env, ([t] + chain)[i - 1], ([t] + chain)[i])
    {
      if i > 1 {
        assert Component(env, chain[i - 2], chain[i - 1]);
      }
    }
  }

  lemma TailIsChain(env: Env, chain: seq<Ty>, k: nat)
    requires IsChain(env, chain) && k < |chain|
    ensures IsChain(env, chain[k..])
  {
    var tail := chain[k..];
    forall i | 0 < i < |tail|
      ensures Component(env, tail[i - 1], tail[i])
    {
      assert Component(env, chain[k + i - 1], chain[k + i]);
    }
  }

  /** A chain that starts in `t` can be taken to leave `t` for good: the part after the last `t`. */
  lemma {:induction false} LeavesForGood(env: Env, t: Ty, avoid: set<Ty>, chain: seq<Ty>)
    requires IsChain(env, chain) && t in chain && forall u :: u in avoid ==> u !in chain
    ensures IsLeaf(env, t)
      || exists part :: Component(env, t, part) && HoldsAffineAvoiding(env, part, avoid + {t})
    decreases |chain|
  {
    var k :| 0 <= k < |chain| && chain[k] == t;
    if k < |chain| - 1 {
      var rest := chain[k + 1..];
      TailIsChain(env, chain, k + 1);
      if t in rest {
        LeavesForGood(env, t, avoid, rest);
      } else {
        assert Component(env, t, rest[0]);
        assert HoldsAffineAvoiding(env, rest[0], avoid + {t});
      }
    }
  }

  lemma NextAvoiding(env: Env, t: Ty, avoid: set<Ty>)
    requires HoldsAffineAvoiding(env, t, avoid) && !IsLeaf(env, t)
    ensures exists part :: Component(env, t, part) && HoldsAffineAvoiding(env, part, avoid)
    ensures exists part :: Component(env, t, part) && HoldsAffineAvoiding(env, part, avoid + {t})
  {
    var chain :| IsChain(env, chain) && chain[0] == t && forall u :: u in avoid ==> u !in chain;
    LeavesForGood(env, t, avoid, chain);
    TailIsChain(env, chain, 1);
    assert Component(env, t, chain[1]) && HoldsAffineAvoiding(env, chain[1], avoid);
  }

  // ---- Where the search terminates

  /** `universe` is closed under components, and components shrink in `rank` except below nominal
      types; in particular no opaque return stands for something built from itself. */
  ghost predicate Founded(env: Env, universe: set<Ty>, rank: Ty -> nat) {
    forall t, part :: t in universe && Component(env, t, part) ==>
      part in universe && (!t.Named? ==> rank(part) < rank(t))
  }

  ghost function Unvisited(universe: set<Ty>, visiting: set<Ty>): set<Ty> {
    set t | t in universe && t.Named? && t !in visiting
  }

  class Search {
    const env: Env
    var visiting: set<Ty>

    constructor (env: Env)
      ensures this.env == env && visiting == {}
    {
      this.env, visiting := env, {};
    }

    ghost predicate Correct(t: Ty, affine: bool)
      reads this
    {
      (affine ==> HoldsAffine(env, t)) && (HoldsAffineAvoiding(env, t, visiting) ==> affine)
    }

    method TypeIsAffineInner(t: Ty, ghost universe: set<Ty>, ghost rank: Ty -> nat) returns (affine: bool)
      requires Founded(env, universe, rank) && t in universe
      modifies this
      ensures visiting == old(visiting) && Correct(t, affine)
      decreases Unvisited(universe, visiting), 0, rank(t), 2
    {
      if env.isResourceHandle(t) {
        LeafHolds(env, t);
        return true;
      }
      match t
      case GeneratedFuture(_, _, _, _, _, _) =>
        LeafHolds(env, t);
        return true;
      case Generic(name) =>
        affine := env.genericIsResource(name);
        if affine {
          LeafHolds(env, t);
        }
        NoParts(t, affine);
      case Named(_, _, _) =>
        affine := NamedIsAffine(t, universe, rank);
      case _ =>
        if HoldsAffineAvoiding(env, t, visiting) {
          NextAvoiding(env, t, visiting);
        }
        affine := AnyIsAffine(t, Parts(env, t), universe, rank);
    }

    lemma NoParts(t: Ty, affine: bool)
      requires t.Generic? && affine == IsLeaf(env, t)
      ensures Correct(t, affine)
    {
      if affine {
        LeafHolds(env, t);
      } else if HoldsAffineAvoiding(env, t, visiting) {
        NextAvoiding(env, t, visiting);
      }
    }

    method NamedIsAffine(t: Ty, ghost universe: set<Ty>, ghost rank: Ty -> nat) returns (affine: bool)
      requires Founded(env, universe, rank) && t in universe && t.Named? && !env.isResourceHandle(t)
      modifies this
      ensures visiting == old(visiting) && Correct(t, affine)
      decreases Unvisited(universe, visiting), 0, rank(t), 1
    {
      if env.isAsyncFuture(t) {
        LeafHolds(env, t);
        return true;
      }
      if t in visiting {
        return false;
      }
      if env.structInfo(t).Some? && env.structInfo(t).value.isResource {
        LeafHolds(env, t);
        return true;
      }
      ghost var before := visiting;
      if HoldsAffineAvoiding(env, t, before) {
        NextAvoiding(env, t, before);
      }
      visiting := visiting + {t};
      assert t in Unvisited(universe, before) && t !in Unvisited(universe, visiting);
      affine := AnyIsAffine(t, Parts(env, t), universe, rank);
      visiting := visiting - {t};
    }

    method AnyIsAffine(t: Ty, parts: seq<Ty>, ghost universe: set<Ty>, ghost rank: Ty -> nat) returns (affine: bool)
      requires Founded(env, universe, rank) && t in universe && parts == Parts(env, t)
      requires t.Named? ==> t in visiting
      modifies this
      ensures visiting == old(visiting)
      ensures affine ==> HoldsAffine(env, t)
      ensures !affine ==> forall part :: Component(env, t, part) ==> !HoldsAffineAvoiding(env, part, visiting)
      decreases Unvisited(universe, visiting), if t.Named? then 1 else 0, rank(t), 0
    {
      affine := false;
      forall part
        ensures part in parts <==> Component(env, t, part)
      {
        PartsAreComponents(env, t, part);
      }
      for i := 0 to |parts|
        invariant visiting == old(visiting)
        invariant forall j :: 0 <= j < i ==> !HoldsAffineAvoiding(env, parts[j], visiting)
      {
        affine := TypeIsAffineInner(parts[i], universe, rank);
        if affine {
          PartHolds(env, t, parts[i]);
          return;
        }
      }
    }
  }

  /** The answer is exact, cycles included. */
  method TypeIsAffine(env: Env, t: Ty, ghost universe: set<Ty>, ghost rank: Ty -> nat) returns (affine: bool)
    requires Founded(env, universe, rank) && t in universe
    ensures affine <==> HoldsAffine(env, t)
  {
    var search := new Search(env);
    affine := search.TypeIsAffineInner(t, universe, rank);
    assert HoldsAffine(env, t) ==> HoldsAffineAvoiding(env, t, {});
  }
}
