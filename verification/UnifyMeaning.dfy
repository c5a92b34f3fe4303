/** What unification means, written out constructor by constructor. */
module UnifyMeaning {
  import opened Wrappers
  import opened Types
  import opened Substitution
  import opened Unify
  import opened UnifyBorder

  // ---- What a pattern describes

  /** The pattern, with its generics read in `s`, describes the actual. Hidden state is looked through on both sides.
      Not compared are the flags and field names of futures, the names of interfaces and of types with a definition,
      and the bounds of opaque returns; closures may have more constraints than the pattern asks for, and a closure
      that asks for none describes closure instances. */
  predicate Describes(p: Ty, s: Subst, a: Ty)
    decreases p, a
  {
    match (p, a)
    case (OpaqueState(base, _), _) => Describes(base, s, a)
    case (_, OpaqueState(base, _)) => Describes(p, s, base)
    case (Hole(_), _) => true
    case (Generic(name), _) => name in s && s[name] == a
    case (Prim(x), Prim(y)) => x == y
    case (Pointer(pn, pv, pi), Pointer(an, av, ai)) => pn == an && pv == av && Describes(pi, s, ai)
    case (Array(pl, pe), Array(al, ae)) => pl == al && Describes(pe, s, ae)
    case (Slice(pv, pe), Slice(av, ae)) => pv == av && Describes(pe, s, ae)
    case (Named(Some(pd), _, pa), Named(Some(ad), _, aa)) => pd == ad && DescribesAll(pa, s, aa)
    case (Named(None, pn, pa), Named(None, an, aa)) => pn == an && DescribesAll(pa, s, aa)
    case (GeneratedFuture(pn, po, _, _, _, pf), GeneratedFuture(an, ao, _, _, _, af)) =>
      pn == an && Describes(po, s, ao) && DescribesFields(pf, s, af)
    case (DynamicInterface(pi, _, pa), DynamicInterface(ai, _, aa)) => pi == ai && DescribesAll(pa, s, aa)
    case (OpaqueReturn(pk, pa, _), OpaqueReturn(ak, aa, _)) => pk == ak && DescribesAll(pa, s, aa)
    case (Function(pu, pb, pr, pp), Function(au, ab, ar, ap)) =>
      pu == au && pb == ab && Describes(pr, s, ar) && DescribesAll(pp, s, ap)
    case (Closure(pr, pp, pc), Closure(ar, ap, ac)) =>
      && Describes(pr, s, ar) && DescribesAll(pp, s, ap)
      && Offers(pc.positive, s, ac.positive) && Offers(pc.negative, s, ac.negative)
    case (Closure(pr, pp, pc), ClosureInstance(_, ar, ap, _)) =>
      pc.positive == [] && pc.negative == [] && Describes(pr, s, ar) && DescribesAll(pp, s, ap)
    case (ClosureInstance(pi, pr, pp, pc), ClosureInstance(ai, ar, ap, ac)) =>
      pi == ai && Describes(pr, s, ar) && DescribesAll(pp, s, ap) && DescribesAll(pc, s, ac)
    case _ => false
  }

  predicate DescribesAll(ps: seq<Ty>, s: Subst, qs: seq<Ty>)
    decreases ps, qs
  {
    |ps| == |qs| && forall i :: 0 <= i < |ps| ==> Describes(ps[i], s, qs[i])
  }

  predicate DescribesFields(ps: seq<Field>, s: Subst, qs: seq<Field>)
    decreases ps, qs
  {
    |ps| == |qs| && forall i :: 0 <= i < |ps| ==> Describes(ps[i].ty, s, qs[i].ty)
  }

  /** Every capability of the pattern is among those of the actual. */
  predicate Offers(ps: seq<ConstraintRef>, s: Subst, qs: seq<ConstraintRef>)
    decreases ps, qs
  {
    forall i :: 0 <= i < |ps| ==> Offered(ps[i], s, qs)
  }

  predicate Offered(p: ConstraintRef, s: Subst, qs: seq<ConstraintRef>)
    decreases p, qs
  {
    exists j :: 0 <= j < |qs| && SameCapability(p, s, qs[j])
  }

  predicate SameCapability(p: ConstraintRef, s: Subst, q: ConstraintRef)
    decreases p, q
  {
    p.name == q.name && DescribesAll(p.args, s, q.args)
  }

  // ---- The relation behind the proofs is this one

  lemma {:induction false} InstanceIsDescribes(p: Ty, s: Subst, a: Ty)
    ensures Instance(p, s, a) <==> Describes(p, s, a)
    decreases p, 4, a
  {
    if p.OpaqueState? {
      InstanceIsDescribes(p.base, s, a);
    } else if a.OpaqueState? {
      InstanceIsDescribes(p, s, a.base);
    } else if !p.Hole? && !p.Generic? {
      CompoundIsDescribed(p, s, a);
    }
  }

  lemma {:induction false} AllAreDescribed(context: Ty, ps: seq<Ty>, s: Subst, qs: seq<Ty>)
    requires Below(ps, context) && |ps| == |qs|
    ensures AllInstance(ps, s, qs) <==> DescribesAll(ps, s, qs)
    decreases context, 0, 0
  {
    forall i | 0 <= i < |ps|
      ensures Instance(ps[i], s, qs[i]) <==> Describes(ps[i], s, qs[i])
    {
      InstanceIsDescribes(ps[i], s, qs[i]);
    }
  }

  lemma {:induction false} CompoundIsDescribed(p: Ty, s: Subst, a: Ty)
    requires !p.OpaqueState? && !a.OpaqueState? && !p.Hole? && !p.Generic?
    ensures Instance(p, s, a) <==> Describes(p, s, a)
    decreases p, 3
  {
    if HeadMatches(p, a) {
      PartsInstanceIsDescribed(p, s, a);
      ChildrenAreParts(p, s, a);
    } else {
      OtherHead(p, s, a);
    }
  }

  lemma {:induction false} PartsInstanceIsDescribed(p: Ty, s: Subst, a: Ty)
    requires !p.OpaqueState? && !a.OpaqueState? && !p.Hole? && !p.Generic? && HeadMatches(p, a)
    ensures Instance(p, s, a) <==> PartsDescribed(p, s, a)
    decreases p, 2
  {
    AllAreDescribed(p, Children(p), s, Facing(p, a));
    if p.Closure? && a.Closure? {
      RefsAreOffered(p, p.constraints.positive, s, a.constraints.positive);
      RefsAreOffered(p, p.constraints.negative, s, a.constraints.negative);
    }
  }

  lemma {:induction false} RefsAreOffered(context: Ty, ps: seq<ConstraintRef>, s: Subst, qs: seq<ConstraintRef>)
    requires RefsBelow(ps, context)
    ensures RefsInstance(ps, s, qs) <==> Offers(ps, s, qs)
    decreases context, 1
  {
    forall i | 0 <= i < |ps|
      ensures HasCounterpart(ps[i], s, qs) <==> Offered(ps[i], s, qs)
    {
      RefIsOffered(context, ps[i], s, qs);
    }
  }

  lemma {:induction false} RefIsOffered(context: Ty, p: ConstraintRef, s: Subst, qs: seq<ConstraintRef>)
    requires Below(p.args, context)
    ensures HasCounterpart(p, s, qs) <==> Offered(p, s, qs)
    decreases context, 0, 1
  {
    forall j | 0 <= j < |qs|
      ensures RefInstance(p, s, qs[j]) <==> SameCapability(p, s, qs[j])
    {
      if |p.args| == |qs[j].args| {
        AllAreDescribed(context, p.args, s, qs[j].args);
      }
    }
  }

  /** The components that unification visits are the parts of the type. */
  ghost predicate PartsDescribed(p: Ty, s: Subst, a: Ty)
    requires HeadMatches(p, a)
  {
    && DescribesAll(Children(p), s, Facing(p, a))
    && (p.Closure? && a.Closure? ==>
          Offers(p.constraints.positive, s, a.constraints.positive)
          && Offers(p.constraints.negative, s, a.constraints.negative))
  }

  lemma ConsDescribed(x: Ty, ps: seq<Ty>, s: Subst, y: Ty, qs: seq<Ty>)
    ensures DescribesAll([x] + ps, s, [y] + qs) <==> Describes(x, s, y) && DescribesAll(ps, s, qs)
  {
    if DescribesAll([x] + ps, s, [y] + qs) {
      assert ([x] + ps)[0] == x && ([y] + qs)[0] == y;
      forall i | 0 <= i < |ps|
        ensures Describes(ps[i], s, qs[i])
      {
        assert ([x] + ps)[i + 1] == ps[i] && ([y] + qs)[i + 1] == qs[i];
      }
    }
  }

  lemma ConcatDescribed(ps: seq<Ty>, rs: seq<Ty>, s: Subst, qs: seq<Ty>, ts: seq<Ty>)
    requires |ps| == |qs|
    ensures DescribesAll(ps + rs, s, qs + ts) <==> DescribesAll(ps, s, qs) && DescribesAll(rs, s, ts)
  {
    if DescribesAll(ps + rs, s, qs + ts) {
      forall i | 0 <= i < |ps|
        ensures Describes(ps[i], s, qs[i])
      {
        assert (ps + rs)[i] == ps[i] && (qs + ts)[i] == qs[i];
      }
      forall i | 0 <= i < |rs|
        ensures Describes(rs[i], s, ts[i])
      {
        assert (ps + rs)[|ps| + i] == rs[i] && (qs + ts)[|ps| + i] == ts[i];
      }
    }
  }

  lemma OneDescribed(x: Ty, s: Subst, y: Ty)
    ensures DescribesAll([x], s, [y]) <==> Describes(x, s, y)
  {
    assert [x][0] == x && [y][0] == y;
  }

  lemma FieldsDescribed(ps: seq<Field>, s: Subst, qs: seq<Field>)
    ensures DescribesFields(ps, s, qs) <==> DescribesAll(FieldTys(ps), s, FieldTys(qs))
  {
  }

  lemma PlainParts(p: Ty, s: Subst, a: Ty)
    requires p.Prim? || p.Pointer? || p.Array? || p.Slice? || p.Named? || p.DynamicInterface? || p.OpaqueReturn?
    requires !a.OpaqueState? && HeadMatches(p, a)
    ensures PartsDescribed(p, s, a) <==> Describes(p, s, a)
  {
    if p.Pointer? {
      OneDescribed(p.inner, s, a.inner);
    } else if p.Array? || p.Slice? {
      OneDescribed(p.elem, s, a.elem);
    }
  }

  lemma FutureParts(p: Ty, s: Subst, a: Ty)
    requires p.GeneratedFuture? && HeadMatches(p, a)
    ensures PartsDescribed(p, s, a) <==> Describes(p, s, a)
  {
    ConsDescribed(p.output, FieldTys(p.state), s, a.output, FieldTys(a.state));
    FieldsDescribed(p.state, s, a.state);
  }

  lemma CallableParts(p: Ty, s: Subst, a: Ty)
    requires (p.Function? || p.Closure?) && HeadMatches(p, a)
    ensures PartsDescribed(p, s, a) <==> Describes(p, s, a)
  {
    ConsDescribed(p.ret, p.params, s, a.ret, a.params);
  }

  lemma InstanceParts(p: Ty, s: Subst, a: Ty)
    requires p.ClosureInstance? && HeadMatches(p, a)
    ensures PartsDescribed(p, s, a) <==> Describes(p, s, a)
  {
    ConsDescribed(p.ret, p.params, s, a.ret, a.params);
    ConcatDescribed([p.ret] + p.params, p.captures, s, [a.ret] + a.params, a.captures);
  }

  lemma ChildrenAreParts(p: Ty, s: Subst, a: Ty)
    requires !p.OpaqueState? && !a.OpaqueState? && !p.Hole? && !p.Generic? && HeadMatches(p, a)
    ensures PartsDescribed(p, s, a) <==> Describes(p, s, a)
  {
    if p.GeneratedFuture? {
      FutureParts(p, s, a);
    } else if p.Function? || p.Closure? {
      CallableParts(p, s, a);
    } else if p.ClosureInstance? {
      InstanceParts(p, s, a);
    } else {
      PlainParts(p, s, a);
    }
  }

  /** Where the outermost shapes disagree, nothing is described. */
  lemma OtherHead(p: Ty, s: Subst, a: Ty)
    requires !p.OpaqueState? && !a.OpaqueState? && !HeadMatches(p, a)
    ensures !Describes(p, s, a)
  {
  }

  // ---- What an answer means

  /** If unification with a ground type succeeds, its bindings describe that type by the pattern. */
  lemma UnifyMeans(p: Ty, a: Ty, s: Subst)
    requires Ground(a) && UnifyTy(p, a, s).ok
    ensures Describes(p, UnifyTy(p, a, s).subst, a) && Keeps(s, UnifyTy(p, a, s).subst)
  {
    UnifySound(p, a, s);
    InstanceIsDescribes(p, UnifyTy(p, a, s).subst, a);
  }

  ghost predicate HasDescription(p: Ty, a: Ty, s: Subst) {
    exists t :: Keeps(s, t) && Describes(p, t, a)
  }

  /** On settled patterns unification succeeds if and only if some extension of the bindings describes the actual. */
  lemma UnifyDecides(p: Ty, a: Ty, s: Subst)
    requires Settled(p, Bound(s)) && Ground(a)
    ensures UnifyTy(p, a, s).ok <==> HasDescription(p, a, s)
  {
    UnifyExact(p, a, s);
    forall t
      ensures Instance(p, t, a) <==> Describes(p, t, a)
    {
      InstanceIsDescribes(p, t, a);
    }
  }
}
