/** Substitution of generics, with the flattening of hidden state it performs. */
module Substitution {
  import opened Types

  type Subst = map<string, Ty>

  /** Attaches hidden state to a type, merging with the hidden state already there. */
  function OpaqueStateTy(base: Ty, state: seq<Field>): Ty
  {
    if state == [] then base
    else match base
      case OpaqueState(inner, existing) => OpaqueState(inner, existing + state)
      case _ => OpaqueState(base, state)
  }

  function SubstTy(t: Ty, s: Subst): Ty
    decreases t
  {
    match t
    case Hole(_) => t
    case Prim(_) => t
    case Generic(name) => if name in s then s[name] else t
    case Pointer(nullable, view, inner) => Pointer(nullable, view, SubstTy(inner, s))
    case Array(len, elem) => Array(len, SubstTy(elem, s))
    case Slice(view, elem) => Slice(view, SubstTy(elem, s))
    case Named(defId, name, args) => Named(defId, name, SubstTys(args, s))
    case GeneratedFuture(name, output, cancelSafe, abortable, affineState, state) =>
      GeneratedFuture(name, SubstTy(output, s), cancelSafe, abortable, affineState, SubstFields(state, s))
    case OpaqueState(base, state) => OpaqueStateTy(SubstTy(base, s), SubstFields(state, s))
    case DynamicInterface(id, name, args) => DynamicInterface(id, name, SubstTys(args, s))
    case OpaqueReturn(keyId, args, bounds) =>
      OpaqueReturn(keyId, SubstTys(args, s), SubstBounds(bounds, s))
    case Function(isUnsafe, abi, ret, params) =>
      Function(isUnsafe, abi, SubstTy(ret, s), SubstTys(params, s))
    case Closure(ret, params, constraints) =>
      Closure(SubstTy(ret, s), SubstTys(params, s), SubstBounds(constraints, s))
    case ClosureInstance(id, ret, params, captures) =>
      ClosureInstance(id, SubstTy(ret, s), SubstTys(params, s), SubstTys(captures, s))
  }

  function SubstTys(ts: seq<Ty>, s: Subst): (r: seq<Ty>)
    ensures |r| == |ts|
    ensures forall i :: 0 <= i < |ts| ==> r[i] == SubstTy(ts[i], s)
    decreases ts
  {
    if ts == [] then [] else [SubstTy(ts[0], s)] + SubstTys(ts[1..], s)
  }

  function SubstFields(fs: seq<Field>, s: Subst): (r: seq<Field>)
    ensures |r| == |fs|
    ensures forall i :: 0 <= i < |fs| ==> r[i] == Field(fs[i].name, SubstTy(fs[i].ty, s))
    decreases fs
  {
    if fs == [] then [] else [Field(fs[0].name, SubstTy(fs[0].ty, s))] + SubstFields(fs[1..], s)
  }

  function SubstRef(r: ConstraintRef, s: Subst): ConstraintRef
    decreases r
  {
    ConstraintRef(r.defId, r.name, SubstTys(r.args, s))
  }

  function SubstRefs(rs: seq<ConstraintRef>, s: Subst): (r: seq<ConstraintRef>)
    ensures |r| == |rs|
    ensures forall i :: 0 <= i < |rs| ==> r[i] == SubstRef(rs[i], s)
    decreases rs
  {
    if rs == [] then [] else [SubstRef(rs[0], s)] + SubstRefs(rs[1..], s)
  }

  function SubstBounds(b: ConstraintBounds, s: Subst): ConstraintBounds
    decreases b
  {
    ConstraintBounds(SubstRefs(b.positive, s), SubstRefs(b.negative, s))
  }

  /** First `s1`, then `s2`. */
  function Compose(s1: Subst, s2: Subst): Subst
  {
    map x | x in s1.Keys + s2.Keys :: if x in s1 then SubstTy(s1[x], s2) else s2[x]
  }

  lemma {:induction false} OpaqueStateTyAssociates(base: Ty, x: seq<Field>, y: seq<Field>)
    ensures OpaqueStateTy(OpaqueStateTy(base, x), y) == OpaqueStateTy(base, x + y)
  {
    if x == [] {
      assert x + y == y;
    } else if y == [] {
      assert x + y == x;
    } else if base.OpaqueState? {
      assert (base.state + x) + y == base.state + (x + y);
    }
  }

  lemma SubstFieldsConcat(x: seq<Field>, y: seq<Field>, s: Subst)
    ensures SubstFields(x + y, s) == SubstFields(x, s) + SubstFields(y, s)
  {
    var both, joined := SubstFields(x + y, s), SubstFields(x, s) + SubstFields(y, s);
    forall i | 0 <= i < |both|
      ensures both[i] == joined[i]
    {
    }
  }

  /** Substitution commutes with attaching hidden state. */
  lemma {:induction false} SubstOpaqueStateTy(base: Ty, state: seq<Field>, s: Subst)
    ensures SubstTy(OpaqueStateTy(base, state), s)
         == OpaqueStateTy(SubstTy(base, s), SubstFields(state, s))
  {
    if state != [] && base.OpaqueState? {
      SubstFieldsConcat(base.state, state, s);
      OpaqueStateTyAssociates(SubstTy(base.base, s), SubstFields(base.state, s), SubstFields(state, s));
    }
  }

  ghost predicate Composes(t: Ty, s1: Subst, s2: Subst) {
    SubstTy(SubstTy(t, s1), s2) == SubstTy(t, Compose(s1, s2))
  }

  ghost predicate AllCompose(ts: seq<Ty>, s1: Subst, s2: Subst) {
    SubstTys(SubstTys(ts, s1), s2) == SubstTys(ts, Compose(s1, s2))
  }

  ghost predicate FieldsCompose(fs: seq<Field>, s1: Subst, s2: Subst) {
    SubstFields(SubstFields(fs, s1), s2) == SubstFields(fs, Compose(s1, s2))
  }

  ghost predicate BoundsCompose(b: ConstraintBounds, s1: Subst, s2: Subst) {
    SubstBounds(SubstBounds(b, s1), s2) == SubstBounds(b, Compose(s1, s2))
  }

  /** Substituting twice is substituting once with the composed map. */
  lemma {:induction false} SubstComposes(t: Ty, s1: Subst, s2: Subst)
    ensures Composes(t, s1, s2)
    decreases t, 1
  {
    match t
    case Hole(_) =>
    case Prim(_) =>
    case Generic(_) =>
    case Pointer(_, _, inner) => SubstComposes(inner, s1, s2);
    case Array(_, elem) => SubstComposes(elem, s1, s2);
    case Slice(_, elem) => SubstComposes(elem, s1, s2);
    case Named(_, _, args) => SubstTysCompose(args, s1, s2);
    case DynamicInterface(_, _, args) => SubstTysCompose(args, s1, s2);
    case OpaqueState(base, state) =>
      SubstComposes(base, s1, s2);
      SubstFieldsCompose(state, s1, s2);
      OpaqueStateComposes(base, state, s1, s2);
    case _ => CompoundComposes(t, s1, s2);
  }

  lemma {:induction false} CompoundComposes(t: Ty, s1: Subst, s2: Subst)
    requires t.GeneratedFuture? || t.OpaqueReturn? || t.Function? || t.Closure? || t.ClosureInstance?
    ensures Composes(t, s1, s2)
    decreases t, 0
  {
    match t
    case GeneratedFuture(_, output, _, _, _, state) =>
      SubstComposes(output, s1, s2);
      SubstFieldsCompose(state, s1, s2);
      FutureComposes(t, s1, s2);
    case OpaqueReturn(_, args, bounds) =>
      SubstTysCompose(args, s1, s2);
      SubstBoundsCompose(bounds, s1, s2);
      OpaqueReturnComposes(t, s1, s2);
    case Function(_, _, ret, params) =>
      SubstComposes(ret, s1, s2);
      SubstTysCompose(params, s1, s2);
      FunctionComposes(t, s1, s2);
    case Closure(ret, params, constraints) =>
      SubstComposes(ret, s1, s2);
      SubstTysCompose(params, s1, s2);
      SubstBoundsCompose(constraints, s1, s2);
      ClosureComposes(t, s1, s2);
    case ClosureInstance(_, ret, params, captures) =>
      SubstComposes(ret, s1, s2);
      SubstTysCompose(params, s1, s2);
      SubstTysCompose(captures, s1, s2);
      InstanceComposes(t, s1, s2);
  }

  lemma OpaqueStateComposes(base: Ty, state: seq<Field>, s1: Subst, s2: Subst)
    requires Composes(base, s1, s2) && FieldsCompose(state, s1, s2)
    ensures Composes(OpaqueState(base, state), s1, s2)
  {
    SubstOpaqueStateTy(SubstTy(base, s1), SubstFields(state, s1), s2);
  }

  lemma FutureComposes(t: Ty, s1: Subst, s2: Subst)
    requires t.GeneratedFuture? && Composes(t.output, s1, s2) && FieldsCompose(t.state, s1, s2)
    ensures Composes(t, s1, s2)
  {
  }

  lemma OpaqueReturnComposes(t: Ty, s1: Subst, s2: Subst)
    requires t.OpaqueReturn? && AllCompose(t.args, s1, s2) && BoundsCompose(t.bounds, s1, s2)
    ensures Composes(t, s1, s2)
  {
  }

  lemma FunctionComposes(t: Ty, s1: Subst, s2: Subst)
    requires t.Function? && Composes(t.ret, s1, s2) && AllCompose(t.params, s1, s2)
    ensures Composes(t, s1, s2)
  {
  }

  lemma ClosureComposes(t: Ty, s1: Subst, s2: Subst)
    requires t.Closure? && Composes(t.ret, s1, s2) && AllCompose(t.params, s1, s2)
    requires BoundsCompose(t.constraints, s1, s2)
    ensures Composes(t, s1, s2)
  {
  }

  lemma InstanceComposes(t: Ty, s1: Subst, s2: Subst)
    requires t.ClosureInstance? && Composes(t.ret, s1, s2) && AllCompose(t.params, s1, s2)
    requires AllCompose(t.captures, s1, s2)
    ensures Composes(t, s1, s2)
  {
  }

  lemma {:induction false} SubstTysCompose(ts: seq<Ty>, s1: Subst, s2: Subst)
    ensures AllCompose(ts, s1, s2)
    decreases ts
  {
    forall i | 0 <= i < |ts|
      ensures SubstTys(SubstTys(ts, s1), s2)[i] == SubstTys(ts, Compose(s1, s2))[i]
    {
      SubstComposes(ts[i], s1, s2);
    }
  }

  lemma {:induction false} SubstFieldsCompose(fs: seq<Field>, s1: Subst, s2: Subst)
    ensures FieldsCompose(fs, s1, s2)
    decreases fs
  {
    forall i | 0 <= i < |fs|
      ensures SubstFields(SubstFields(fs, s1), s2)[i] == SubstFields(fs, Compose(s1, s2))[i]
    {
      SubstComposes(fs[i].ty, s1, s2);
    }
  }

  lemma {:induction false} SubstRefsCompose(rs: seq<ConstraintRef>, s1: Subst, s2: Subst)
    ensures SubstRefs(SubstRefs(rs, s1), s2) == SubstRefs(rs, Compose(s1, s2))
    decreases rs
  {
    forall i | 0 <= i < |rs|
      ensures SubstRefs(SubstRefs(rs, s1), s2)[i] == SubstRefs(rs, Compose(s1, s2))[i]
    {
      SubstTysCompose(rs[i].args, s1, s2);
    }
  }

  lemma {:induction false} SubstBoundsCompose(b: ConstraintBounds, s1: Subst, s2: Subst)
    ensures BoundsCompose(b, s1, s2)
    decreases b
  {
    SubstRefsCompose(b.positive, s1, s2);
    SubstRefsCompose(b.negative, s1, s2);
  }
}
