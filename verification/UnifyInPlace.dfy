/** `unify_ty` as the code runs it: the substitution is updated in place, a failed attempt leaves it
    half updated, and the constraint search works on trial copies. */
module UnifyInPlace {
  import opened Types
  import opened Substitution
  import opened Unify

  class Bindings {
    var subst: Subst

    constructor (s: Subst)
      ensures subst == s
    {
      subst := s;
    }
  }

  lemma UnifyAllCons(context: Ty, x: Ty, ys: seq<Ty>, u: Ty, vs: seq<Ty>, s: Subst)
    requires |ys| == |vs| && Below([x], context) && Below(ys, context)
    ensures Below([x] + ys, context)
    ensures var o := UnifyTy(x, u, s);
            UnifyAll(context, [x] + ys, [u] + vs, s) == if o.ok then UnifyAll(context, ys, vs, o.subst) else o
  {
    assert [x][0] == x && ([x] + ys)[1..] == ys && ([u] + vs)[1..] == vs;
  }

  lemma UnifyOne(context: Ty, x: Ty, u: Ty, s: Subst)
    requires Below([x], context)
    ensures UnifyAll(context, [x], [u], s) == UnifyTy(x, u, s)
  {
    assert [x][0] == x && [x][1..] == [] && [u][1..] == [];
  }

  method UnifyTyInto(p: Ty, a: Ty, cell: Bindings) returns (ok: bool)
    modifies cell
    ensures Outcome(ok, cell.subst) == UnifyTy(p, a, old(cell.subst))
    decreases p, 4, a
  {
    if p.OpaqueState? {
      ok := UnifyTyInto(p.base, a, cell);
    } else if a.OpaqueState? {
      ok := UnifyTyInto(p, a.base, cell);
    } else if p.Hole? {
      ok := true;
    } else if p.Generic? {
      if p.name in cell.subst && cell.subst[p.name] != Generic(p.name) {
        ok := cell.subst[p.name] == a;
      } else {
        cell.subst := cell.subst[p.name := a];
        ok := true;
      }
    } else if p.Function? || p.Closure? || p.ClosureInstance? {
      ok := UnifyCallableInto(p, a, cell);
    } else {
      ok := UnifyDataInto(p, a, cell);
    }
  }

  method UnifyDataInto(p: Ty, a: Ty, cell: Bindings) returns (ok: bool)
    requires !p.OpaqueState? && !a.OpaqueState? && !p.Hole? && !p.Generic?
    requires !p.Function? && !p.Closure? && !p.ClosureInstance?
    modifies cell
    ensures Outcome(ok, cell.subst) == UnifyTy(p, a, old(cell.subst))
    decreases p, 3
  {
    match p
    case Pointer(nullable, view, inner) =>
      if a.Pointer? && nullable == a.nullable && view == a.view {
        UnifyOne(p, inner, a.inner, cell.subst);
        ok := UnifyTyInto(inner, a.inner, cell);
      } else {
        ok := false;
      }
    case Array(len, elem) =>
      if a.Array? && len == a.len {
        UnifyOne(p, elem, a.elem, cell.subst);
        ok := UnifyTyInto(elem, a.elem, cell);
      } else {
        ok := false;
      }
    case Slice(view, elem) =>
      if a.Slice? && view == a.view {
        UnifyOne(p, elem, a.elem, cell.subst);
        ok := UnifyTyInto(elem, a.elem, cell);
      } else {
        ok := false;
      }
    case Named(defId, name, args) =>
      if a.Named? && SameNominal(defId, name, a.defId, a.name) && |args| == |a.args| {
        ok := UnifyAllInto(p, args, a.args, cell);
      } else {
        ok := false;
      }
    case GeneratedFuture(name, output, _, _, _, state) =>
      if a.GeneratedFuture? && name == a.name && |state| == |a.state| {
        UnifyAllCons(p, output, FieldTys(state), a.output, FieldTys(a.state), cell.subst);
        ok := UnifyTyInto(output, a.output, cell);
        if ok {
          ok := UnifyAllInto(p, FieldTys(state), FieldTys(a.state), cell);
        }
      } else {
        ok := false;
      }
    case DynamicInterface(id, _, args) =>
      if a.DynamicInterface? && id == a.interfaceId && |args| == |a.args| {
        ok := UnifyAllInto(p, args, a.args, cell);
      } else {
        ok := false;
      }
    case OpaqueReturn(keyId, args, _) =>
      if a.OpaqueReturn? && keyId == a.keyId && |args| == |a.args| {
        ok := UnifyAllInto(p, args, a.args, cell);
      } else {
        ok := false;
      }
    case Prim(_) =>
      ok := p == a;
  }

  method UnifyCallableInto(p: Ty, a: Ty, cell: Bindings) returns (ok: bool)
    requires !a.OpaqueState? && (p.Function? || p.Closure? || p.ClosureInstance?)
    modifies cell
    ensures Outcome(ok, cell.subst) == UnifyTy(p, a, old(cell.subst))
    decreases p, 3
  {
    match p
    case Function(isUnsafe, abi, ret, params) =>
      if a.Function? && isUnsafe == a.isUnsafe && abi == a.abi && |params| == |a.params| {
        ok := UnifySignatureInto(p, a, cell);
      } else {
        ok := false;
      }
    case Closure(ret, params, constraints) =>
      if a.Closure? && |params| == |a.params| {
        ok := UnifySignatureInto(p, a, cell);
        if ok {
          ok := UnifyBoundsInto(p, a, cell);
        }
      } else if a.ClosureInstance? && constraints.IsEmpty() && |params| == |a.params| {
        ok := UnifySignatureInto(p, a, cell);
      } else {
        ok := false;
      }
    case ClosureInstance(id, ret, params, captures) =>
      if a.ClosureInstance? && id == a.closure && |params| == |a.params| && |captures| == |a.captures| {
        UnifyAllSplit(p, [ret] + params, captures, [a.ret] + a.params, a.captures, cell.subst);
        ok := UnifySignatureInto(p, a, cell);
        if ok {
          ok := UnifyAllInto(p, captures, a.captures, cell);
        }
      } else {
        ok := false;
      }
  }

  method UnifySignatureInto(p: Ty, a: Ty, cell: Bindings) returns (ok: bool)
    requires p.Function? || p.Closure? || p.ClosureInstance?
    requires (a.Function? || a.Closure? || a.ClosureInstance?) && |p.params| == |a.params|
    modifies cell
    ensures Below([p.ret] + p.params, p)
    ensures Outcome(ok, cell.subst) == UnifyAll(p, [p.ret] + p.params, [a.ret] + a.params, old(cell.subst))
    decreases p, 2
  {
    UnifyAllCons(p, p.ret, p.params, a.ret, a.params, cell.subst);
    ok := UnifyTyInto(p.ret, a.ret, cell);
    if ok {
      ok := UnifyAllInto(p, p.params, a.params, cell);
    }
  }

  method UnifyAllInto(ghost context: Ty, ps: seq<Ty>, qs: seq<Ty>, cell: Bindings) returns (ok: bool)
    requires |ps| == |qs| && Below(ps, context)
    modifies cell
    ensures Outcome(ok, cell.subst) == UnifyAll(context, ps, qs, old(cell.subst))
    decreases context, 0
  {
    var i := 0;
    while i < |ps|
      invariant 0 <= i <= |ps|
      invariant UnifyAll(context, ps, qs, old(cell.subst)) == UnifyAll(context, ps[i..], qs[i..], cell.subst)
    {
      ok := UnifyTyInto(ps[i], qs[i], cell);
      assert ps[i..][1..] == ps[i + 1..] && qs[i..][1..] == qs[i + 1..];
      if !ok {
        return;
      }
      i := i + 1;
    }
    ok := true;
  }

  method UnifyBoundsInto(p: Ty, a: Ty, cell: Bindings) returns (ok: bool)
    requires p.Closure? && a.Closure?
    modifies cell
    ensures Outcome(ok, cell.subst) == UnifyBounds(p, a, old(cell.subst))
    decreases p, 2
  {
    var trial := new Bindings(cell.subst);
    ok := UnifyRefsInto(p, p.constraints.positive, a.constraints.positive, trial);
    if !ok {
      return;
    }
    ok := UnifyRefsInto(p, p.constraints.negative, a.constraints.negative, trial);
    if !ok {
      return;
    }
    cell.subst := trial.subst;
  }

  method UnifyRefsInto(ghost context: Ty, ps: seq<ConstraintRef>, qs: seq<ConstraintRef>, cell: Bindings)
    returns (ok: bool)
    requires RefsBelow(ps, context)
    modifies cell
    ensures Outcome(ok, cell.subst) == UnifyRefs(context, ps, qs, 0, old(cell.subst))
    decreases context, 1, |ps|
  {
    if ps == [] {
      return true;
    }
    var k := 0;
    while k < |qs|
      invariant 0 <= k <= |qs|
      invariant cell.subst == old(cell.subst)
      invariant UnifyRefs(context, ps, qs, 0, cell.subst) == UnifyRefs(context, ps, qs, k, cell.subst)
    {
      if RefMatches(ps[0], qs[k]) {
        var trial := new Bindings(cell.subst);
        ok := UnifyAllInto(context, ps[0].args, qs[k].args, trial);
        if ok {
          ok := UnifyRefsInto(context, ps[1..], qs, trial);
          if ok {
            cell.subst := trial.subst;
            return;
          }
        }
      }
      k := k + 1;
    }
    ok := false;
  }
}
