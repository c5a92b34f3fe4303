/** Assignability, and the equality of types up to hidden state that it builds on. */
module Assign {
  import opened Wrappers
  import opened Types

  predicate ViewCanWeaken(expected: View, actual: View) {
    expected == actual || (expected == ReadOnly && actual == Writable)
  }

  predicate SameAll(ls: seq<Ty>, rs: seq<Ty>)
    decreases ls, rs
  {
    && |ls| == |rs|
    && forall i :: 0 <= i < |ls| ==> Same(ls[i], rs[i])
  }

  predicate SameFields(ls: seq<Field>, rs: seq<Field>)
    decreases ls, rs
  {
    && |ls| == |rs|
    && forall i :: 0 <= i < |ls| ==> ls[i].name == rs[i].name && Same(ls[i].ty, rs[i].ty)
  }

  /** `same_ignoring_opaque_state`. */
  predicate Same(l: Ty, r: Ty)
    decreases l, r
  {
    || l == r
    || match (l, r)
       case (OpaqueState(base, _), _) => Same(base, r)
       case (_, OpaqueState(base, _)) => Same(l, base)
       case (Pointer(ln, lv, li), Pointer(rn, rv, ri)) => ln == rn && lv == rv && Same(li, ri)
       case (Array(ll, le), Array(rl, re)) => ll == rl && Same(le, re)
       case (Slice(lv, le), Slice(rv, re)) => lv == rv && Same(le, re)
       case (Named(ld, ln, la), Named(rd, rn, ra)) => SameNominal(ld, ln, rd, rn) && SameAll(la, ra)
       case (GeneratedFuture(ln, lo, lc, lb, lf, ls), GeneratedFuture(rn, ro, rc, rb, rf, rs)) =>
         ln == rn && lc == rc && lb == rb && lf == rf && Same(lo, ro) && SameFields(ls, rs)
       case (DynamicInterface(ld, _, la), DynamicInterface(rd, _, ra)) => ld == rd && SameAll(la, ra)
       case (Function(lu, lb, lt, lp), Function(ru, rb, rt, rp)) =>
         lu == ru && lb == rb && Same(lt, rt) && SameAll(lp, rp)
       case (Closure(lt, lp, lc), Closure(rt, rp, rc)) => lc == rc && Same(lt, rt) && SameAll(lp, rp)
       case (ClosureInstance(li, lt, lp, lc), ClosureInstance(ri, rt, rp, rc)) =>
         li == ri && Same(lt, rt) && SameAll(lp, rp) && SameAll(lc, rc)
       case _ => false
  }

  /** `expected.can_assign_from(actual)`. */
  predicate CanAssign(expected: Ty, actual: Ty)
    decreases expected, actual
  {
    if expected.OpaqueState? then CanAssign(expected.base, actual)
    else if actual.OpaqueState? then CanAssign(expected, actual.base)
    else if expected.Hole? || actual.Hole? then true
    else if Same(expected, actual) then true
    else match (expected, actual)
      case (Pointer(en, ev, ei), Pointer(an, av, ai)) =>
        || (en && !an && ViewCanWeaken(ev, av) && Same(ei, ai))
        || (en == an && ViewCanWeaken(ev, av) && Same(ei, ai))
      case (Slice(ev, ee), Slice(av, ae)) => ViewCanWeaken(ev, av) && Same(ee, ae)
      case (Function(eu, eb, er, ep), Function(au, ab, ar, ap)) =>
        eb == ab && SameAll(ep, ap) && CanAssign(er, ar) && (!au || eu)
      case (Closure(er, ep, ec), Closure(ar, ap, ac)) =>
        SameAll(ep, ap) && CanAssign(er, ar) && ac.ProvesAll(ec)
      case (Closure(er, ep, ec), ClosureInstance(_, ar, ap, _)) =>
        ec.IsEmpty() && SameAll(ep, ap) && CanAssign(er, ar)
      case _ => false
  }

  // ---- Canonical forms

  /** Hidden state erased wherever `Same` looks through it, and the names it ignores blanked.
      Opaque return keys and closure constraints are compared verbatim, so they stay. */
  function Canon(t: Ty): (r: Ty)
    ensures !r.OpaqueState?
    decreases t
  {
    match t
    case Hole(_) => t
    case Prim(_) => t
    case Generic(_) => t
    case OpaqueReturn(_, _, _) => t
    case OpaqueState(base, _) => Canon(base)
    case Pointer(nullable, view, inner) => Pointer(nullable, view, Canon(inner))
    case Array(len, elem) => Array(len, Canon(elem))
    case Slice(view, elem) => Slice(view, Canon(elem))
    case Named(defId, name, args) =>
      Named(defId, if defId.Some? then "" else name, CanonAll(args))
    case GeneratedFuture(name, output, cancelSafe, abortable, affineState, state) =>
      GeneratedFuture(name, Canon(output), cancelSafe, abortable, affineState, CanonFields(state))
    case DynamicInterface(id, _, args) => DynamicInterface(id, "", CanonAll(args))
    case Function(isUnsafe, abi, ret, params) => Function(isUnsafe, abi, Canon(ret), CanonAll(params))
    case Closure(ret, params, constraints) => Closure(Canon(ret), CanonAll(params), constraints)
    case ClosureInstance(id, ret, params, captures) =>
      ClosureInstance(id, Canon(ret), CanonAll(params), CanonAll(captures))
  }

  function CanonAll(ts: seq<Ty>): (r: seq<Ty>)
    ensures |r| == |ts|
    ensures forall i :: 0 <= i < |ts| ==> r[i] == Canon(ts[i])
    decreases ts
  {
    if ts == [] then [] else [Canon(ts[0])] + CanonAll(ts[1..])
  }

  function CanonFields(fs: seq<Field>): (r: seq<Field>)
    ensures |r| == |fs|
    ensures forall i :: 0 <= i < |fs| ==> r[i] == Field(fs[i].name, Canon(fs[i].ty))
    decreases fs
  {
    if fs == [] then [] else [Field(fs[0].name, Canon(fs[0].ty))] + CanonFields(fs[1..])
  }

  ghost predicate Exact(l: Ty, r: Ty) {
    Same(l, r) <==> Canon(l) == Canon(r)
  }

  ghost predicate AllExact(ls: seq<Ty>, rs: seq<Ty>) {
    SameAll(ls, rs) <==> CanonAll(ls) == CanonAll(rs)
  }

  ghost predicate FieldsExact(ls: seq<Field>, rs: seq<Field>) {
    SameFields(ls, rs) <==> CanonFields(ls) == CanonFields(rs)
  }

  /** `same_ignoring_opaque_state` is equality of canonical forms. */
  lemma {:induction false} SameIsCanonEquality(l: Ty, r: Ty)
    ensures Exact(l, r)
    decreases l, r, 1
  {
    if l.OpaqueState? {
      SameIsCanonEquality(l.base, r);
      HiddenLeftExact(l, r);
    } else if r.OpaqueState? {
      SameIsCanonEquality(l, r.base);
      HiddenRightExact(l, r);
    } else if !Comparable(l, r) {
      LeafExact(l, r);
    } else if l.Pointer? {
      SameIsCanonEquality(l.inner, r.inner);
      ViewExact(l, r);
    } else if l.Array? || l.Slice? {
      SameIsCanonEquality(l.elem, r.elem);
      ViewExact(l, r);
    } else if l.Named? || l.DynamicInterface? {
      SameAllIsCanonEquality(l.args, r.args);
      NominalExact(l, r);
    } else if l.GeneratedFuture? {
      SameIsCanonEquality(l.output, r.output);
      SameFieldsIsCanonEquality(l.state, r.state);
      FutureExact(l, r);
    } else {
      SameIsCanonEquality(l.ret, r.ret);
      SameAllIsCanonEquality(l.params, r.params);
      if l.ClosureInstance? { SameAllIsCanonEquality(l.captures, r.captures); }
      CallableExact(l, r);
    }
  }

  lemma HiddenLeftExact(l: Ty, r: Ty)
    requires l.OpaqueState? && Exact(l.base, r)
    ensures Exact(l, r)
  {
  }

  lemma HiddenRightExact(l: Ty, r: Ty)
    requires !l.OpaqueState? && r.OpaqueState? && Exact(l, r.base)
    ensures Exact(l, r)
  {
  }

  /** Types of different shapes, and the types `Same` compares verbatim. */
  predicate Comparable(l: Ty, r: Ty) {
    match (l, r)
    case (Pointer(_, _, _), Pointer(_, _, _)) => true
    case (Array(_, _), Array(_, _)) => true
    case (Slice(_, _), Slice(_, _)) => true
    case (Named(_, _, _), Named(_, _, _)) => true
    case (DynamicInterface(_, _, _), DynamicInterface(_, _, _)) => true
    case (GeneratedFuture(_, _, _, _, _, _), GeneratedFuture(_, _, _, _, _, _)) => true
    case (Function(_, _, _, _), Function(_, _, _, _)) => true
    case (Closure(_, _, _), Closure(_, _, _)) => true
    case (ClosureInstance(_, _, _, _), ClosureInstance(_, _, _, _)) => true
    case _ => false
  }

  lemma LeafExact(l: Ty, r: Ty)
    requires !l.OpaqueState? && !r.OpaqueState? && !Comparable(l, r)
    ensures Exact(l, r)
  {
  }

  lemma ViewExact(l: Ty, r: Ty)
    requires
      || (l.Pointer? && r.Pointer? && Exact(l.inner, r.inner))
      || (l.Array? && r.Array? && Exact(l.elem, r.elem))
      || (l.Slice? && r.Slice? && Exact(l.elem, r.elem))
    ensures Exact(l, r)
  {
  }

  lemma NominalExact(l: Ty, r: Ty)
    requires (l.Named? && r.Named?) || (l.DynamicInterface? && r.DynamicInterface?)
    requires AllExact(l.args, r.args)
    ensures Exact(l, r)
  {
  }

  lemma FutureExact(l: Ty, r: Ty)
    requires l.GeneratedFuture? && r.GeneratedFuture?
    requires Exact(l.output, r.output) && FieldsExact(l.state, r.state)
    ensures Exact(l, r)
  {
  }

  lemma CallableExact(l: Ty, r: Ty)
    requires (l.Function? && r.Function?) || (l.Closure? && r.Closure?)
      || (l.ClosureInstance? && r.ClosureInstance? && AllExact(l.captures, r.captures))
    requires Exact(l.ret, r.ret) && AllExact(l.params, r.params)
    ensures Exact(l, r)
  {
  }

  lemma {:induction false} SameAllIsCanonEquality(ls: seq<Ty>, rs: seq<Ty>)
    ensures AllExact(ls, rs)
    decreases ls, rs, 0
  {
    if |ls| == |rs| {
      forall i | 0 <= i < |ls|
        ensures Same(ls[i], rs[i]) <==> CanonAll(ls)[i] == CanonAll(rs)[i]
      {
        SameIsCanonEquality(ls[i], rs[i]);
      }
    }
  }

  lemma {:induction false} SameFieldsIsCanonEquality(ls: seq<Field>, rs: seq<Field>)
    ensures FieldsExact(ls, rs)
    decreases ls, rs, 0
  {
    if |ls| == |rs| {
      forall i | 0 <= i < |ls|
        ensures (ls[i].name == rs[i].name && Same(ls[i].ty, rs[i].ty))
           <==> CanonFields(ls)[i] == CanonFields(rs)[i]
      {
        SameIsCanonEquality(ls[i].ty, rs[i].ty);
      }
    }
  }

  // ---- Assignability on canonical forms

  /** The views a reference may be used at, each with a view it may have. */
  const USABLE_VIEWS: set<(View, View)> := {(ReadOnly, ReadOnly), (ReadOnly, Writable), (Writable, Writable)}

  predicate Among(required: seq<ConstraintRef>, given: seq<ConstraintRef>) {
    forall c :: c in required ==> c in given
  }

  /** What a value of type `a` may be used as, on types without hidden state: views and nullability
      weaken, safe functions serve as unsafe ones, returns are covariant, closures may forget
      capabilities, and a closure instance may forget its identity. */
  predicate Weakens(e: Ty, a: Ty)
    decreases e
  {
    || e.Hole? || a.Hole? || e == a
    || (e.Pointer? && a.Pointer? && (e.nullable || !a.nullable) && (e.view, a.view) in USABLE_VIEWS
        && e.inner == a.inner)
    || (e.Slice? && a.Slice? && (e.view, a.view) in USABLE_VIEWS && e.elem == a.elem)
    || (e.Function? && a.Function? && e.abi == a.abi && (a.isUnsafe ==> e.isUnsafe)
        && e.params == a.params && Weakens(e.ret, a.ret))
    || (e.Closure? && a.Closure? && e.params == a.params && Weakens(e.ret, a.ret)
        && Among(e.constraints.positive, a.constraints.positive)
        && Among(e.constraints.negative, a.constraints.negative))
    || (e.Closure? && a.ClosureInstance? && e.params == a.params && Weakens(e.ret, a.ret)
        && e.constraints.positive == [] && e.constraints.negative == [])
  }

  ghost predicate AssignExact(e: Ty, a: Ty) {
    CanAssign(e, a) <==> Weakens(Canon(e), Canon(a))
  }

  /** Assignability depends on canonical forms only. */
  lemma {:induction false} CanAssignIsWeakens(e: Ty, a: Ty)
    ensures AssignExact(e, a)
    decreases e, a
  {
    if e.OpaqueState? {
      CanAssignIsWeakens(e.base, a);
      HiddenAssignExact(e, a);
    } else if a.OpaqueState? {
      CanAssignIsWeakens(e, a.base);
      HiddenAssignExact(e, a);
    } else {
      SameIsCanonEquality(e, a);
      if e.Pointer? && a.Pointer? {
        SameIsCanonEquality(e.inner, a.inner);
        ViewAssignExact(e, a);
      } else if e.Slice? && a.Slice? {
        SameIsCanonEquality(e.elem, a.elem);
        ViewAssignExact(e, a);
      } else if Callables(e, a) {
        SameAllIsCanonEquality(e.params, a.params);
        CanAssignIsWeakens(e.ret, a.ret);
        CallableAssignExact(e, a);
      } else {
        RigidAssignExact(e, a);
      }
    }
  }

  predicate Callables(e: Ty, a: Ty) {
    (e.Function? && a.Function?) || (e.Closure? && (a.Closure? || a.ClosureInstance?))
  }

  lemma HiddenAssignExact(e: Ty, a: Ty)
    requires (e.OpaqueState? && AssignExact(e.base, a))
      || (!e.OpaqueState? && a.OpaqueState? && AssignExact(e, a.base))
    ensures AssignExact(e, a)
  {
  }

  lemma ViewAssignExact(e: Ty, a: Ty)
    requires (e.Pointer? && a.Pointer? && Exact(e.inner, a.inner)) || (e.Slice? && a.Slice? && Exact(e.elem, a.elem))
    requires Exact(e, a)
    ensures AssignExact(e, a)
  {
  }

  lemma RigidAssignExact(e: Ty, a: Ty)
    requires !e.OpaqueState? && !a.OpaqueState? && !(e.Pointer? && a.Pointer?) && !(e.Slice? && a.Slice?)
    requires !Callables(e, a)
    requires Exact(e, a)
    ensures AssignExact(e, a)
  {
  }

  lemma CallableAssignExact(e: Ty, a: Ty)
    requires Callables(e, a)
    requires Exact(e, a) && AllExact(e.params, a.params) && AssignExact(e.ret, a.ret)
    ensures AssignExact(e, a)
  {
  }

  /** No hole is met when following return types from `t`. A closure instance is only ever compared
      for equality, so its return type does not matter. */
  predicate SpineSolid(t: Ty)
    decreases t
  {
    match t
    case Hole(_) => false
    case OpaqueState(base, _) => SpineSolid(base)
    case Function(_, _, ret, _) => SpineSolid(ret)
    case Closure(ret, _, _) => SpineSolid(ret)
    case _ => true
  }

  lemma {:induction false} CanonSpine(t: Ty)
    ensures SpineSolid(Canon(t)) <==> SpineSolid(t)
    decreases t
  {
    if t.OpaqueState? {
      CanonSpine(t.base);
    } else if t.Function? || t.Closure? {
      CanonSpine(t.ret);
    }
  }

  lemma OnlyEmptyAmongEmpty(required: seq<ConstraintRef>, given: seq<ConstraintRef>)
    requires Among(required, given)
    ensures given == [] ==> required == []
  {
    if required != [] {
      assert required[0] in given;
    }
  }

  lemma {:induction false} WeakensTransitive(a: Ty, b: Ty, c: Ty)
    requires Weakens(a, b) && Weakens(b, c) && SpineSolid(b)
    ensures Weakens(a, c)
    decreases b
  {
    if a.Hole? || c.Hole? || a == b || b == c {
    } else if b.Function? || b.Closure? {
      WeakensTransitive(a.ret, b.ret, c.ret);
      if a.Closure? && c.ClosureInstance? {
        OnlyEmptyAmongEmpty(a.constraints.positive, b.constraints.positive);
        OnlyEmptyAmongEmpty(a.constraints.negative, b.constraints.negative);
      }
    }
  }

  /** `t` with the hole at the end of its return spine replaced. */
  function Plug(t: Ty, atom: Atom): (r: Ty)
    ensures !r.OpaqueState?
    decreases t
  {
    match t
    case Hole(_) => Prim(atom)
    case OpaqueState(base, _) => Plug(base, atom)
    case Function(isUnsafe, abi, ret, params) => Function(isUnsafe, abi, Plug(ret, atom), params)
    case Closure(ret, params, constraints) => Closure(Plug(ret, atom), params, constraints)
    case _ => t
  }

  lemma {:induction false} PlugFits(t: Ty, atom: Atom)
    ensures CanAssign(Plug(t, atom), t) && CanAssign(t, Plug(t, atom))
    decreases t
  {
    if t.OpaqueState? {
      PlugFits(t.base, atom);
    } else if t.Function? || t.Closure? {
      PlugFits(t.ret, atom);
      PlugFitsCallable(t, Plug(t, atom));
    } else if !t.Hole? {
      CanAssignReflexive(t);
    }
  }

  lemma PlugFitsCallable(t: Ty, u: Ty)
    requires (t.Function? && u.Function? && u == Function(t.isUnsafe, t.abi, u.ret, t.params))
      || (t.Closure? && u.Closure? && u == Closure(u.ret, t.params, t.constraints))
    requires CanAssign(u.ret, t.ret) && CanAssign(t.ret, u.ret)
    ensures CanAssign(u, t) && CanAssign(t, u)
  {
    assert SameAll(t.params, t.params);
  }

  lemma {:induction false} PlugsDiffer(t: Ty)
    requires !SpineSolid(t)
    ensures !CanAssign(Plug(t, Bool), Plug(t, I32))
    decreases t
  {
    if t.OpaqueState? {
      PlugsDiffer(t.base);
    } else if t.Function? || t.Closure? {
      PlugsDiffer(t.ret);
      CanAssignIsWeakens(Plug(t.ret, Bool), Plug(t.ret, I32));
      CanAssignIsWeakens(Plug(t, Bool), Plug(t, I32));
    }
  }

  lemma CanAssignReflexive(t: Ty)
    ensures CanAssign(t, t)
  {
    CanAssignIsWeakens(t, t);
  }

  lemma CanAssignTransitive(a: Ty, b: Ty, c: Ty)
    requires CanAssign(a, b) && CanAssign(b, c) && SpineSolid(b)
    ensures CanAssign(a, c)
  {
    CanAssignIsWeakens(a, b);
    CanAssignIsWeakens(b, c);
    CanAssignIsWeakens(a, c);
    CanonSpine(b);
    WeakensTransitive(Canon(a), Canon(b), Canon(c));
  }

  /** Assignability composes through `b` exactly when no hole sits on the return spine of `b`. */
  lemma TransitiveIffSpineSolid(b: Ty)
    ensures SpineSolid(b) <==> forall a, c :: CanAssign(a, b) && CanAssign(b, c) ==> CanAssign(a, c)
  {
    if SpineSolid(b) {
      forall a, c | CanAssign(a, b) && CanAssign(b, c)
        ensures CanAssign(a, c)
      {
        CanAssignTransitive(a, b, c);
      }
    } else {
      PlugFits(b, Bool);
      PlugFits(b, I32);
      PlugsDiffer(b);
    }
  }
}
