/** One-sided unification: what `unify_ty` computes, and what its answer means. */
module Unify {
  import opened Types
  import opened Substitution

  /** The component types that unification compares, in the order it visits them. Hidden state,
      opaque return bounds and closure constraints are not among them. */
  function Children(t: Ty): (r: seq<Ty>)
    ensures forall i :: 0 <= i < |r| ==> r[i] < t
  {
    match t
    case Hole(_) => []
    case Prim(_) => []
    case Generic(_) => []
    case OpaqueState(_, _) => []
    case Pointer(_, _, inner) => [inner]
    case Array(_, elem) => [elem]
    case Slice(_, elem) => [elem]
    case Named(_, _, args) => args
    case GeneratedFuture(_, output, _, _, _, state) => [output] + FieldTys(state)
    case DynamicInterface(_, _, args) => args
    case OpaqueReturn(_, args, _) => args
    case Function(_, _, ret, params) => [ret] + params
    case Closure(ret, params, _) => [ret] + params
    case ClosureInstance(_, ret, params, captures) => [ret] + params + captures
  }

  /** The outermost shapes agree, including the number of component types. Future flags and field
      names, interface names and opaque return bounds are not looked at; a bare closure pattern
      without constraints accepts a closure instance. */
  predicate HeadMatches(p: Ty, a: Ty) {
    match p
    case Hole(_) => true
    case Generic(_) => true
    case OpaqueState(_, _) => false
    case Prim(_) => p == a
    case Pointer(nullable, view, _) => a.Pointer? && nullable == a.nullable && view == a.view
    case Array(len, _) => a.Array? && len == a.len
    case Slice(view, _) => a.Slice? && view == a.view
    case Named(defId, name, args) =>
      a.Named? && SameNominal(defId, name, a.defId, a.name) && |args| == |a.args|
    case GeneratedFuture(name, _, _, _, _, state) =>
      a.GeneratedFuture? && name == a.name && |state| == |a.state|
    case DynamicInterface(id, _, args) => a.DynamicInterface? && id == a.interfaceId && |args| == |a.args|
    case OpaqueReturn(keyId, args, _) => a.OpaqueReturn? && keyId == a.keyId && |args| == |a.args|
    case Function(isUnsafe, abi, _, params) =>
      a.Function? && isUnsafe == a.isUnsafe && abi == a.abi && |params| == |a.params|
    case Closure(_, params, constraints) =>
      || (a.Closure? && |params| == |a.params|)
      || (a.ClosureInstance? && constraints.IsEmpty() && |params| == |a.params|)
    case ClosureInstance(id, _, params, captures) =>
      a.ClosureInstance? && id == a.closure && |params| == |a.params| && |captures| == |a.captures|
  }

  /** The components of the actual that face the children of the pattern: a closure instance seen
      as a bare closure does not show its captures. */
  function Facing(p: Ty, a: Ty): (r: seq<Ty>)
    requires HeadMatches(p, a)
    ensures !p.Hole? && !p.Generic? ==> |r| == |Children(p)|
    ensures forall i :: 0 <= i < |r| ==> r[i] < a
  {
    if p.Closure? && a.ClosureInstance? then [a.ret] + a.params else Children(a)
  }

  predicate RefMatches(p: ConstraintRef, a: ConstraintRef) {
    p.name == a.name && |p.args| == |a.args|
  }

  // ---- What the code computes

  /** The answer together with the state the substitution is left in. */
  datatype Outcome = Outcome(ok: bool, subst: Subst)

  ghost predicate Below(ts: seq<Ty>, context: Ty) {
    forall i :: 0 <= i < |ts| ==> ts[i] < context
  }

  ghost predicate RefsBelow(rs: seq<ConstraintRef>, context: Ty) {
    forall i :: 0 <= i < |rs| ==> Below(rs[i].args, context)
  }

  function UnifyTy(p: Ty, a: Ty, s: Subst): Outcome
    decreases p, 3, a
  {
    if p.OpaqueState? then UnifyTy(p.base, a, s)
    else if a.OpaqueState? then UnifyTy(p, a.base, s)
    else if p.Hole? then Outcome(true, s)
    else if p.Generic? then
      if p.name in s && s[p.name] != Generic(p.name) then Outcome(s[p.name] == a, s)
      else Outcome(true, s[p.name := a])
    else if !HeadMatches(p, a) then Outcome(false, s)
    else
      var o := UnifyAll(p, Children(p), Facing(p, a), s);
      if o.ok && p.Closure? && a.Closure? then UnifyBounds(p, a, o.subst) else o
  }

  function UnifyAll(ghost context: Ty, ps: seq<Ty>, qs: seq<Ty>, s: Subst): Outcome
    requires |ps| == |qs| && Below(ps, context)
    decreases context, 0, |ps|
  {
    if ps == [] then Outcome(true, s)
    else
      var o := UnifyTy(ps[0], qs[0], s);
      if o.ok then UnifyAll(context, ps[1..], qs[1..], o.subst) else o
  }

  function UnifyBounds(p: Ty, a: Ty, s: Subst): Outcome
    requires p.Closure? && a.Closure?
    decreases p, 2
  {
    var o := UnifyRefs(p, p.constraints.positive, a.constraints.positive, 0, s);
    if !o.ok then Outcome(false, s)
    else
      var n := UnifyRefs(p, p.constraints.negative, a.constraints.negative, 0, o.subst);
      if n.ok then n else Outcome(false, s)
  }

  /** Backtracking search: the first pattern constraint is matched against the candidates from the
      `k`-th on, each time with the remaining constraints after it. */
  function UnifyRefs(ghost context: Ty, ps: seq<ConstraintRef>, qs: seq<ConstraintRef>, k: nat, s: Subst): Outcome
    requires RefsBelow(ps, context)
    decreases context, 1, |ps|, |qs| - k
  {
    if ps == [] then Outcome(true, s)
    else if k >= |qs| then Outcome(false, s)
    else
      var o := if RefMatches(ps[0], qs[k]) then UnifyAll(context, ps[0].args, qs[k].args, s) else Outcome(false, s);
      var rest := if o.ok then UnifyRefs(context, ps[1..], qs, 0, o.subst) else o;
      if rest.ok then rest else UnifyRefs(context, ps, qs, k + 1, s)
  }

  /** A list of components is unified part by part. */
  lemma {:induction false} UnifyAllSplit(context: Ty, xs: seq<Ty>, ys: seq<Ty>, us: seq<Ty>, vs: seq<Ty>, s: Subst)
    requires |xs| == |us| && |ys| == |vs| && Below(xs, context) && Below(ys, context)
    ensures Below(xs + ys, context)
    ensures var o := UnifyAll(context, xs, us, s);
            UnifyAll(context, xs + ys, us + vs, s) == if o.ok then UnifyAll(context, ys, vs, o.subst) else o
    decreases |xs|
  {
    if xs == [] {
      assert xs + ys == ys && us + vs == vs;
    } else {
      var first := UnifyTy(xs[0], us[0], s);
      assert (xs + ys)[1..] == xs[1..] + ys && (us + vs)[1..] == us[1..] + vs;
      UnifyAllSplit(context, xs[1..], ys, us[1..], vs, first.subst);
    }
  }

  /** The first component that does not fit decides, and what was bound up to and inside it stays bound. */
  lemma FirstMismatchDecides(context: Ty, ps: seq<Ty>, qs: seq<Ty>, k: nat, s: Subst, t: Subst, u: Subst)
    requires |ps| == |qs| && Below(ps, context) && k < |ps|
    requires UnifyAll(context, ps[..k], qs[..k], s) == Outcome(true, t)
    requires UnifyTy(ps[k], qs[k], t) == Outcome(false, u)
    ensures UnifyAll(context, ps, qs, s) == Outcome(false, u)
  {
    assert ps == ps[..k] + ps[k..] && qs == qs[..k] + qs[k..];
    assert ps[k..][0] == ps[k] && qs[k..][0] == qs[k];
    UnifyAllSplit(context, ps[..k], ps[k..], qs[..k], qs[k..], s);
  }

  // ---- What the answer means

  /** The pattern, with its generics read in `s`, describes the actual. */
  predicate Instance(p: Ty, s: Subst, a: Ty)
    decreases p, a
  {
    if p.OpaqueState? then Instance(p.base, s, a)
    else if a.OpaqueState? then Instance(p, s, a.base)
    else if p.Hole? then true
    else if p.Generic? then p.name in s && s[p.name] == a
    else
      && HeadMatches(p, a)
      && (forall i :: 0 <= i < |Children(p)| ==> Instance(Children(p)[i], s, Facing(p, a)[i]))
      && (p.Closure? && a.Closure? ==>
            && RefsInstance(p.constraints.positive, s, a.constraints.positive)
            && RefsInstance(p.constraints.negative, s, a.constraints.negative))
  }

  /** Every constraint of the pattern has a counterpart among those of the actual. */
  predicate RefsInstance(ps: seq<ConstraintRef>, s: Subst, qs: seq<ConstraintRef>)
    decreases ps, qs
  {
    forall i :: 0 <= i < |ps| ==> HasCounterpart(ps[i], s, qs)
  }

  predicate HasCounterpart(p: ConstraintRef, s: Subst, qs: seq<ConstraintRef>)
    decreases p, qs
  {
    exists j :: 0 <= j < |qs| && RefInstance(p, s, qs[j])
  }

  predicate RefInstance(p: ConstraintRef, s: Subst, a: ConstraintRef)
    decreases p, a
  {
    && RefMatches(p, a)
    && forall i :: 0 <= i < |p.args| ==> Instance(p.args[i], s, a.args[i])
  }

  ghost predicate AllInstance(ps: seq<Ty>, s: Subst, qs: seq<Ty>)
    requires |ps| == |qs|
  {
    forall i :: 0 <= i < |ps| ==> Instance(ps[i], s, qs[i])
  }

  /** No generic in a position that unification can reach. */
  predicate Ground(a: Ty)
    decreases a
  {
    && !a.Generic?
    && (a.OpaqueState? ==> Ground(a.base))
    && (forall i :: 0 <= i < |Children(a)| ==> Ground(Children(a)[i]))
    && (a.Closure? ==>
          && (forall i :: 0 <= i < |a.constraints.positive| ==> GroundRef(a.constraints.positive[i]))
          && (forall i :: 0 <= i < |a.constraints.negative| ==> GroundRef(a.constraints.negative[i])))
  }

  predicate GroundRef(a: ConstraintRef)
    decreases a
  {
    forall i :: 0 <= i < |a.args| ==> Ground(a.args[i])
  }

  ghost predicate GroundAll(qs: seq<Ty>) {
    forall i :: 0 <= i < |qs| ==> Ground(qs[i])
  }

  ghost predicate GroundRefs(qs: seq<ConstraintRef>) {
    forall i :: 0 <= i < |qs| ==> GroundRef(qs[i])
  }

  /** Every binding of `s` that is not an identity placeholder is still there. */
  ghost predicate Keeps(s: Subst, t: Subst) {
    forall x :: x in s && s[x] != Generic(x) ==> x in t && t[x] == s[x]
  }

  lemma GroundFacing(p: Ty, a: Ty)
    requires HeadMatches(p, a) && Ground(a)
    ensures GroundAll(Facing(p, a))
  {
    if p.Closure? && a.ClosureInstance? {
      var all := Children(a);
      assert forall i :: 0 <= i < |Facing(p, a)| ==> Facing(p, a)[i] == all[i];
    }
  }

  // ---- Descriptions survive later bindings

  lemma {:induction false} InstanceKept(p: Ty, s: Subst, t: Subst, a: Ty)
    requires Instance(p, s, a) && Keeps(s, t) && Ground(a)
    ensures Instance(p, t, a)
    decreases p, 2, a
  {
    if p.OpaqueState? {
      InstanceKept(p.base, s, t, a);
    } else if a.OpaqueState? {
      InstanceKept(p, s, t, a.base);
    } else if !p.Hole? && !p.Generic? {
      GroundFacing(p, a);
      AllInstanceKept(p, Children(p), s, t, Facing(p, a));
      if p.Closure? && a.Closure? {
        RefsInstanceKept(p, p.constraints.positive, s, t, a.constraints.positive);
        RefsInstanceKept(p, p.constraints.negative, s, t, a.constraints.negative);
      }
    }
  }

  lemma {:induction false} AllInstanceKept(context: Ty, ps: seq<Ty>, s: Subst, t: Subst, qs: seq<Ty>)
    requires |ps| == |qs| && Below(ps, context)
    requires AllInstance(ps, s, qs) && Keeps(s, t) && GroundAll(qs)
    ensures AllInstance(ps, t, qs)
    decreases context, 0
  {
    forall i | 0 <= i < |ps|
      ensures Instance(ps[i], t, qs[i])
    {
      InstanceKept(ps[i], s, t, qs[i]);
    }
  }

  lemma {:induction false} RefsInstanceKept(
    context: Ty, ps: seq<ConstraintRef>, s: Subst, t: Subst, qs: seq<ConstraintRef>)
    requires RefsBelow(ps, context)
    requires RefsInstance(ps, s, qs) && Keeps(s, t) && GroundRefs(qs)
    ensures RefsInstance(ps, t, qs)
    decreases context, 1
  {
    forall i | 0 <= i < |ps|
      ensures HasCounterpart(ps[i], t, qs)
    {
      assert HasCounterpart(ps[i], s, qs);
      var j :| 0 <= j < |qs| && RefInstance(ps[i], s, qs[j]);
      assert GroundRef(qs[j]);
      AllInstanceKept(context, ps[i].args, s, t, qs[j].args);
      assert RefInstance(ps[i], t, qs[j]);
    }
  }

  // ---- Soundness

  ghost predicate Sound(p: Ty, a: Ty, s: Subst) {
    var o := UnifyTy(p, a, s);
    o.ok ==> Keeps(s, o.subst) && Instance(p, o.subst, a)
  }

  /** A successful unification describes the actual and keeps the bindings it was given. */
  lemma {:induction false} UnifySound(p: Ty, a: Ty, s: Subst)
    requires Ground(a)
    ensures Sound(p, a, s)
    decreases p, 4, a
  {
    if p.OpaqueState? {
      UnifySound(p.base, a, s);
      HiddenSound(p, a, s);
    } else if a.OpaqueState? {
      UnifySound(p, a.base, s);
      HiddenSound(p, a, s);
    } else if p.Hole? || p.Generic? || !HeadMatches(p, a) {
      LeafSound(p, a, s);
    } else {
      GroundFacing(p, a);
      UnifyAllSound(p, Children(p), Facing(p, a), s);
      if p.Closure? && a.Closure? {
        UnifyClosureSound(p, a, s);
      } else {
        CompoundSound(p, a, s);
      }
    }
  }

  lemma HiddenSound(p: Ty, a: Ty, s: Subst)
    requires (p.OpaqueState? && Sound(p.base, a, s))
      || (!p.OpaqueState? && a.OpaqueState? && Sound(p, a.base, s))
    ensures Sound(p, a, s)
  {
  }

  lemma LeafSound(p: Ty, a: Ty, s: Subst)
    requires !p.OpaqueState? && !a.OpaqueState?
    requires p.Hole? || p.Generic? || !HeadMatches(p, a)
    ensures Sound(p, a, s)
  {
    var o := UnifyTy(p, a, s);
    assert p.Hole? || p.Generic? || !o.ok;
  }

  lemma CompoundSound(p: Ty, a: Ty, s: Subst)
    requires !p.OpaqueState? && !a.OpaqueState? && !p.Hole? && !p.Generic?
    requires HeadMatches(p, a) && !(p.Closure? && a.Closure?)
    requires var o := UnifyAll(p, Children(p), Facing(p, a), s);
             o.ok ==> Keeps(s, o.subst) && AllInstance(Children(p), o.subst, Facing(p, a))
    ensures Sound(p, a, s)
  {
  }

  lemma {:induction false} UnifyClosureSound(p: Ty, a: Ty, s: Subst)
    requires p.Closure? && a.Closure? && HeadMatches(p, a) && Ground(a) && GroundAll(Facing(p, a))
    requires var o := UnifyAll(p, Children(p), Facing(p, a), s);
             o.ok ==> Keeps(s, o.subst) && AllInstance(Children(p), o.subst, Facing(p, a))
    ensures Sound(p, a, s)
    decreases p, 3
  {
    var o := UnifyAll(p, Children(p), Facing(p, a), s);
    if o.ok {
      UnifyBoundsSound(p, a, o.subst);
      var b := UnifyBounds(p, a, o.subst);
      if b.ok {
        AllInstanceKept(p, Children(p), o.subst, b.subst, Facing(p, a));
      }
    }
  }

  lemma {:induction false} UnifyAllSound(context: Ty, ps: seq<Ty>, qs: seq<Ty>, s: Subst)
    requires |ps| == |qs| && Below(ps, context) && GroundAll(qs)
    ensures var o := UnifyAll(context, ps, qs, s);
            o.ok ==> Keeps(s, o.subst) && AllInstance(ps, o.subst, qs)
    decreases context, 0, |ps|
  {
    if ps != [] {
      UnifySound(ps[0], qs[0], s);
      var first := UnifyTy(ps[0], qs[0], s);
      if first.ok {
        UnifyAllSound(context, ps[1..], qs[1..], first.subst);
        var o := UnifyAll(context, ps[1..], qs[1..], first.subst);
        if o.ok {
          InstanceKept(ps[0], first.subst, o.subst, qs[0]);
          AllInstanceCons(ps, o.subst, qs);
        }
      }
    }
  }

  lemma AllInstanceCons(ps: seq<Ty>, s: Subst, qs: seq<Ty>)
    requires |ps| == |qs| > 0
    requires Instance(ps[0], s, qs[0]) && AllInstance(ps[1..], s, qs[1..])
    ensures AllInstance(ps, s, qs)
  {
    forall i | 0 <= i < |ps|
      ensures Instance(ps[i], s, qs[i])
    {
      if i > 0 {
        assert Instance(ps[1..][i - 1], s, qs[1..][i - 1]);
      }
    }
  }

  lemma {:induction false} UnifyBoundsSound(p: Ty, a: Ty, s: Subst)
    requires p.Closure? && a.Closure?
    requires GroundRefs(a.constraints.positive) && GroundRefs(a.constraints.negative)
    ensures var o := UnifyBounds(p, a, s);
            o.ok ==> && Keeps(s, o.subst)
                     && RefsInstance(p.constraints.positive, o.subst, a.constraints.positive)
                     && RefsInstance(p.constraints.negative, o.subst, a.constraints.negative)
    decreases p, 2
  {
    UnifyRefsSound(p, p.constraints.positive, a.constraints.positive, 0, s);
    var o := UnifyRefs(p, p.constraints.positive, a.constraints.positive, 0, s);
    if o.ok {
      UnifyRefsSound(p, p.constraints.negative, a.constraints.negative, 0, o.subst);
      var n := UnifyRefs(p, p.constraints.negative, a.constraints.negative, 0, o.subst);
      if n.ok {
        RefsInstanceKept(p, p.constraints.positive, o.subst, n.subst, a.constraints.positive);
      }
    }
  }

  lemma {:induction false} UnifyRefsSound(context: Ty, ps: seq<ConstraintRef>, qs: seq<ConstraintRef>, k: nat, s: Subst)
    requires RefsBelow(ps, context) && GroundRefs(qs)
    ensures var o := UnifyRefs(context, ps, qs, k, s);
            o.ok ==> Keeps(s, o.subst) && RefsInstance(ps, o.subst, qs)
    decreases context, 1, |ps|, |qs| - k
  {
    if ps != [] && k < |qs| {
      UnifyRefsSound(context, ps, qs, k + 1, s);
      if RefMatches(ps[0], qs[k]) {
        assert GroundRef(qs[k]);
        UnifyAllSound(context, ps[0].args, qs[k].args, s);
        var o := UnifyAll(context, ps[0].args, qs[k].args, s);
        if o.ok {
          UnifyRefsSound(context, ps[1..], qs, 0, o.subst);
          var rest := UnifyRefs(context, ps[1..], qs, 0, o.subst);
          if rest.ok {
            AllInstanceKept(context, ps[0].args, o.subst, rest.subst, qs[k].args);
            RefsInstanceCons(ps, rest.subst, qs, k);
          }
        }
      }
    }
  }

  lemma RefsInstanceCons(ps: seq<ConstraintRef>, s: Subst, qs: seq<ConstraintRef>, k: nat)
    requires |ps| > 0 && k < |qs| && RefInstance(ps[0], s, qs[k]) && RefsInstance(ps[1..], s, qs)
    ensures RefsInstance(ps, s, qs)
  {
    forall i | 0 <= i < |ps|
      ensures HasCounterpart(ps[i], s, qs)
    {
      if i > 0 {
        assert HasCounterpart(ps[1..][i - 1], s, qs);
      }
    }
  }

  /** Some substitution that keeps `s` describes the actual. */
  ghost predicate Describable(p: Ty, a: Ty, s: Subst) {
    exists t :: Keeps(s, t) && Instance(p, t, a)
  }

  // ---- What a description determines

  ghost predicate Occurs(n: string, p: Ty)
    decreases p
  {
    || p == Generic(n)
    || (p.OpaqueState? && Occurs(n, p.base))
    || exists i :: 0 <= i < |Children(p)| && Occurs(n, Children(p)[i])
  }

  /** Two descriptions of the same actual agree on the generics of the pattern. */
  lemma {:induction false} InstanceDetermines(n: string, p: Ty, s: Subst, t: Subst, a: Ty)
    requires Instance(p, s, a) && Instance(p, t, a) && Occurs(n, p)
    ensures n in s && n in t && s[n] == t[n]
    decreases p, a
  {
    if p.OpaqueState? {
      InstanceDetermines(n, p.base, s, t, a);
    } else if a.OpaqueState? {
      InstanceDetermines(n, p, s, t, a.base);
    } else if !p.Generic? {
      var i :| 0 <= i < |Children(p)| && Occurs(n, Children(p)[i]);
      InstanceDetermines(n, Children(p)[i], s, t, Facing(p, a)[i]);
    }
  }
}
