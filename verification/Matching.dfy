/** Unification stated through substitution: what the instantiated pattern has to do with the actual. */
module Matching {
  import opened Wrappers
  import opened Types
  import opened Substitution
  import opened Assign
  import opened Unify
  import opened UnifyBorder
  import opened UnifyMeaning

  /** No hidden state in a position that unification can reach. */
  predicate Stateless(a: Ty)
    decreases a
  {
    && !a.OpaqueState?
    && (forall i :: 0 <= i < |Children(a)| ==> Stateless(Children(a)[i]))
    && (a.Closure? ==>
          && (forall i :: 0 <= i < |a.constraints.positive| ==> StatelessRef(a.constraints.positive[i]))
          && (forall i :: 0 <= i < |a.constraints.negative| ==> StatelessRef(a.constraints.negative[i])))
  }

  predicate StatelessRef(a: ConstraintRef)
    decreases a
  {
    forall i :: 0 <= i < |a.args| ==> Stateless(a.args[i])
  }

  lemma SubstChildrenFuture(p: Ty, s: Subst)
    requires p.GeneratedFuture?
    ensures Children(SubstTy(p, s)) == SubstTys(Children(p), s)
  {
    var l, r := Children(SubstTy(p, s)), SubstTys(Children(p), s);
    assert l == [SubstTy(p.output, s)] + FieldTys(SubstFields(p.state, s));
    forall i | 0 <= i < |r|
      ensures l[i] == r[i]
    {
    }
  }

  lemma SubstTysConcat(x: seq<Ty>, y: seq<Ty>, s: Subst)
    ensures SubstTys(x + y, s) == SubstTys(x, s) + SubstTys(y, s)
  {
    var both, joined := SubstTys(x + y, s), SubstTys(x, s) + SubstTys(y, s);
    forall i | 0 <= i < |both|
      ensures both[i] == joined[i]
    {
    }
  }

  lemma SubstTysCons(x: Ty, ys: seq<Ty>, s: Subst)
    ensures SubstTys([x] + ys, s) == [SubstTy(x, s)] + SubstTys(ys, s)
  {
    var both, joined := SubstTys([x] + ys, s), [SubstTy(x, s)] + SubstTys(ys, s);
    forall i | 0 <= i < |both|
      ensures both[i] == joined[i]
    {
    }
  }

  lemma SubstChildrenCallable(p: Ty, s: Subst)
    requires p.Function? || p.Closure?
    ensures Children(SubstTy(p, s)) == SubstTys(Children(p), s)
  {
    SubstTysCons(p.ret, p.params, s);
  }

  lemma SubstChildrenInstance(p: Ty, s: Subst)
    requires p.ClosureInstance?
    ensures Children(SubstTy(p, s)) == SubstTys(Children(p), s)
  {
    SubstTysCons(p.ret, p.params, s);
    SubstTysConcat([p.ret] + p.params, p.captures, s);
  }

  /** Substitution acts on a composite type through its children. */
  lemma SubstChildren(p: Ty, s: Subst)
    requires !p.Hole? && !p.Generic? && !p.OpaqueState?
    ensures Children(SubstTy(p, s)) == SubstTys(Children(p), s)
  {
    if p.GeneratedFuture? {
      SubstChildrenFuture(p, s);
    } else if p.Function? || p.Closure? {
      SubstChildrenCallable(p, s);
    } else if p.ClosureInstance? {
      SubstChildrenInstance(p, s);
    }
  }

  // ---- The relation between an instantiated pattern and the actual

  /** Equal up to what unification does not compare: hidden state, future flags and field names,
      interface names, names of types with a definition, opaque return bounds, closure constraints
      the pattern does not ask for, and the identity of a closure instance. */
  predicate Matches(t: Ty, a: Ty)
    decreases t, a
  {
    if t.OpaqueState? then Matches(t.base, a)
    else if a.OpaqueState? then Matches(t, a.base)
    else
      || t == a
      || match (t, a)
         case (Pointer(tn, tv, ti), Pointer(an, av, ai)) => tn == an && tv == av && Matches(ti, ai)
         case (Array(tl, te), Array(al, ae)) => tl == al && Matches(te, ae)
         case (Slice(tv, te), Slice(av, ae)) => tv == av && Matches(te, ae)
         case (Named(Some(td), _, ta), Named(Some(ad), _, aa)) => td == ad && MatchesAll(ta, aa)
         case (Named(None, tn, ta), Named(None, an, aa)) => tn == an && MatchesAll(ta, aa)
         case (GeneratedFuture(tn, to, _, _, _, tf), GeneratedFuture(an, ao, _, _, _, af)) =>
           tn == an && Matches(to, ao) && MatchesFields(tf, af)
         case (DynamicInterface(ti, _, ta), DynamicInterface(ai, _, aa)) => ti == ai && MatchesAll(ta, aa)
         case (OpaqueReturn(tk, ta, _), OpaqueReturn(ak, aa, _)) => tk == ak && MatchesAll(ta, aa)
         case (Function(tu, tb, tr, tp), Function(au, ab, ar, ap)) =>
           tu == au && tb == ab && Matches(tr, ar) && MatchesAll(tp, ap)
         case (Closure(tr, tp, tc), Closure(ar, ap, ac)) =>
           && Matches(tr, ar) && MatchesAll(tp, ap)
           && RefsMatch(tc.positive, ac.positive) && RefsMatch(tc.negative, ac.negative)
         case (Closure(tr, tp, tc), ClosureInstance(_, ar, ap, _)) =>
           tc.positive == [] && tc.negative == [] && Matches(tr, ar) && MatchesAll(tp, ap)
         case (ClosureInstance(ti, tr, tp, tc), ClosureInstance(ai, ar, ap, ac)) =>
           ti == ai && Matches(tr, ar) && MatchesAll(tp, ap) && MatchesAll(tc, ac)
         case _ => false
  }

  predicate MatchesAll(ts: seq<Ty>, qs: seq<Ty>)
    decreases ts, qs
  {
    |ts| == |qs| && forall i :: 0 <= i < |ts| ==> Matches(ts[i], qs[i])
  }

  predicate MatchesFields(ts: seq<Field>, qs: seq<Field>)
    decreases ts, qs
  {
    |ts| == |qs| && forall i :: 0 <= i < |ts| ==> Matches(ts[i].ty, qs[i].ty)
  }

  predicate RefsMatch(ts: seq<ConstraintRef>, qs: seq<ConstraintRef>)
    decreases ts, qs
  {
    forall i :: 0 <= i < |ts| ==> HasMatch(ts[i], qs)
  }

  predicate HasMatch(t: ConstraintRef, qs: seq<ConstraintRef>)
    decreases t, qs
  {
    exists j :: 0 <= j < |qs| && RefMatch(t, qs[j])
  }

  predicate RefMatch(t: ConstraintRef, q: ConstraintRef)
    decreases t, q
  {
    t.name == q.name && MatchesAll(t.args, q.args)
  }

  /** No hole in a position that unification can reach. */
  predicate HoleFree(p: Ty)
    decreases p
  {
    match p
    case Hole(_) => false
    case Prim(_) => true
    case Generic(_) => true
    case Pointer(_, _, inner) => HoleFree(inner)
    case Array(_, elem) => HoleFree(elem)
    case Slice(_, elem) => HoleFree(elem)
    case Named(_, _, args) => HoleFreeAll(args)
    case GeneratedFuture(_, output, _, _, _, state) => HoleFree(output) && HoleFreeFields(state)
    case OpaqueState(base, _) => HoleFree(base)
    case DynamicInterface(_, _, args) => HoleFreeAll(args)
    case OpaqueReturn(_, args, _) => HoleFreeAll(args)
    case Function(_, _, ret, params) => HoleFree(ret) && HoleFreeAll(params)
    case Closure(ret, params, constraints) =>
      HoleFree(ret) && HoleFreeAll(params) && HoleFreeRefs(constraints.positive) && HoleFreeRefs(constraints.negative)
    case ClosureInstance(_, ret, params, captures) => HoleFree(ret) && HoleFreeAll(params) && HoleFreeAll(captures)
  }

  predicate HoleFreeAll(ps: seq<Ty>)
    decreases ps
  {
    forall i :: 0 <= i < |ps| ==> HoleFree(ps[i])
  }

  predicate HoleFreeFields(ps: seq<Field>)
    decreases ps
  {
    forall i :: 0 <= i < |ps| ==> HoleFree(ps[i].ty)
  }

  predicate HoleFreeRefs(ps: seq<ConstraintRef>)
    decreases ps
  {
    forall i :: 0 <= i < |ps| ==> HoleFreeRef(ps[i])
  }

  predicate HoleFreeRef(p: ConstraintRef)
    decreases p
  {
    HoleFreeAll(p.args)
  }

  lemma MatchesHidden(t: Ty, state: seq<Field>, a: Ty)
    requires Matches(t, a)
    ensures Matches(OpaqueStateTy(t, state), a)
  {
  }

  lemma {:induction false} HiddenActualMatches(t: Ty, a: Ty)
    requires a.OpaqueState? && Matches(t, a.base)
    ensures Matches(t, a)
    decreases t
  {
    if t.OpaqueState? {
      HiddenActualMatches(t.base, a);
    }
  }

  /** The instantiated pattern matches what the pattern describes. */
  lemma {:induction false} DescribedMatches(p: Ty, s: Subst, a: Ty)
    requires Describes(p, s, a) && HoleFree(p)
    ensures Matches(SubstTy(p, s), a)
    decreases p, 3, a
  {
    if p.OpaqueState? {
      DescribedMatches(p.base, s, a);
      MatchesHidden(SubstTy(p.base, s), SubstFields(p.state, s), a);
    } else if a.OpaqueState? {
      DescribedMatches(p, s, a.base);
      HiddenActualMatches(SubstTy(p, s), a);
    } else if !p.Generic? {
      CompoundMatches(p, s, a);
    }
  }

  lemma {:induction false} CompoundMatches(p: Ty, s: Subst, a: Ty)
    requires !p.OpaqueState? && !a.OpaqueState? && !p.Generic?
    requires Describes(p, s, a) && HoleFree(p)
    ensures Matches(SubstTy(p, s), a)
    decreases p, 2
  {
    if p.Pointer? {
      DescribedMatches(p.inner, s, a.inner);
    } else if p.Array? || p.Slice? {
      DescribedMatches(p.elem, s, a.elem);
    } else if p.Named? || p.DynamicInterface? || p.OpaqueReturn? {
      AllMatch(p.args, s, a.args);
      NominalMatches(p, s, a);
    } else if p.GeneratedFuture? {
      DescribedMatches(p.output, s, a.output);
      FieldsMatch(p.state, s, a.state);
    } else if p.Function? || p.Closure? || p.ClosureInstance? {
      DescribedMatches(p.ret, s, a.ret);
      AllMatch(p.params, s, a.params);
      CallableMatches(p, s, a);
    }
  }

  lemma NominalMatches(p: Ty, s: Subst, a: Ty)
    requires p.Named? || p.DynamicInterface? || p.OpaqueReturn?
    requires !a.OpaqueState? && Describes(p, s, a) && MatchesAll(SubstTys(p.args, s), a.args)
    ensures Matches(SubstTy(p, s), a)
  {
  }

  lemma {:induction false} CallableMatches(p: Ty, s: Subst, a: Ty)
    requires p.Function? || p.Closure? || p.ClosureInstance?
    requires !a.OpaqueState? && Describes(p, s, a) && HoleFree(p)
    requires Matches(SubstTy(p.ret, s), a.ret) && MatchesAll(SubstTys(p.params, s), a.params)
    ensures Matches(SubstTy(p, s), a)
    decreases p, 1
  {
    if p.ClosureInstance? {
      AllMatch(p.captures, s, a.captures);
    } else if p.Closure? && a.Closure? {
      RefsDescribedMatch(p.constraints.positive, s, a.constraints.positive);
      RefsDescribedMatch(p.constraints.negative, s, a.constraints.negative);
    }
  }

  lemma {:induction false} AllMatch(ps: seq<Ty>, s: Subst, qs: seq<Ty>)
    requires DescribesAll(ps, s, qs) && HoleFreeAll(ps)
    ensures MatchesAll(SubstTys(ps, s), qs)
    decreases ps
  {
    forall i | 0 <= i < |ps|
      ensures Matches(SubstTys(ps, s)[i], qs[i])
    {
      DescribedMatches(ps[i], s, qs[i]);
    }
  }

  lemma {:induction false} FieldsMatch(ps: seq<Field>, s: Subst, qs: seq<Field>)
    requires DescribesFields(ps, s, qs) && HoleFreeFields(ps)
    ensures MatchesFields(SubstFields(ps, s), qs)
    decreases ps
  {
    forall i | 0 <= i < |ps|
      ensures Matches(SubstFields(ps, s)[i].ty, qs[i].ty)
    {
      DescribedMatches(ps[i].ty, s, qs[i].ty);
    }
  }

  lemma {:induction false} RefsDescribedMatch(ps: seq<ConstraintRef>, s: Subst, qs: seq<ConstraintRef>)
    requires Offers(ps, s, qs) && HoleFreeRefs(ps)
    ensures RefsMatch(SubstRefs(ps, s), qs)
    decreases ps
  {
    var ts := SubstRefs(ps, s);
    forall i | 0 <= i < |ts|
      ensures HasMatch(ts[i], qs)
    {
      assert Offered(ps[i], s, qs);
      var j :| 0 <= j < |qs| && SameCapability(ps[i], s, qs[j]);
      assert HoleFreeRef(ps[i]);
      AllMatch(ps[i].args, s, qs[j].args);
      assert RefMatch(ts[i], qs[j]);
    }
  }

  /** The instantiated pattern matches every instance of the pattern. */
  lemma InstanceMatches(p: Ty, s: Subst, a: Ty)
    requires Instance(p, s, a) && HoleFree(p)
    ensures Matches(SubstTy(p, s), a)
  {
    InstanceIsDescribes(p, s, a);
    DescribedMatches(p, s, a);
  }

  /** Soundness through substitution: the pattern under the final substitution matches the actual, and
      earlier bindings are kept. */
  lemma UnifyThenSubstitute(p: Ty, a: Ty, s: Subst)
    requires HoleFree(p) && Ground(a) && UnifyTy(p, a, s).ok
    ensures Matches(SubstTy(p, UnifyTy(p, a, s).subst), a)
    ensures Keeps(s, UnifyTy(p, a, s).subst)
  {
    UnifyMeans(p, a, s);
    DescribedMatches(p, UnifyTy(p, a, s).subst, a);
  }

  // ---- Where unification compares everything

  /** No hole, future, opaque return or closure in a position that unification can reach. */
  predicate Strict(p: Ty)
    decreases p
  {
    match p
    case Prim(_) => true
    case Generic(_) => true
    case Pointer(_, _, inner) => Strict(inner)
    case Array(_, elem) => Strict(elem)
    case Slice(_, elem) => Strict(elem)
    case Named(_, _, args) => StrictAll(args)
    case OpaqueState(base, _) => Strict(base)
    case DynamicInterface(_, _, args) => StrictAll(args)
    case Function(_, _, ret, params) => Strict(ret) && StrictAll(params)
    case ClosureInstance(_, ret, params, captures) => Strict(ret) && StrictAll(params) && StrictAll(captures)
    case _ => false
  }

  predicate StrictAll(ps: seq<Ty>)
    decreases ps
  {
    forall i :: 0 <= i < |ps| ==> Strict(ps[i])
  }

  lemma CanonHidden(t: Ty, state: seq<Field>)
    ensures Canon(OpaqueStateTy(t, state)) == Canon(t)
  {
  }

  lemma {:induction false} DescribedIsEqual(p: Ty, s: Subst, a: Ty)
    requires Describes(p, s, a) && Strict(p)
    ensures Canon(SubstTy(p, s)) == Canon(a)
    decreases p, a
  {
    if p.OpaqueState? {
      DescribedIsEqual(p.base, s, a);
      CanonHidden(SubstTy(p.base, s), SubstFields(p.state, s));
    } else if a.OpaqueState? {
      DescribedIsEqual(p, s, a.base);
    } else if p.Pointer? {
      DescribedIsEqual(p.inner, s, a.inner);
      ElementIsEqual(p, s, a);
    } else if p.Array? || p.Slice? {
      DescribedIsEqual(p.elem, s, a.elem);
      ElementIsEqual(p, s, a);
    } else if p.Named? || p.DynamicInterface? {
      AllDescribedAreEqual(p.args, s, a.args);
      NominalIsEqual(p, s, a);
    } else if p.Function? || p.ClosureInstance? {
      DescribedIsEqual(p.ret, s, a.ret);
      AllDescribedAreEqual(p.params, s, a.params);
      if p.ClosureInstance? {
        AllDescribedAreEqual(p.captures, s, a.captures);
      }
      CallableIsEqual(p, s, a);
    }
  }

  lemma ElementIsEqual(p: Ty, s: Subst, a: Ty)
    requires (p.Pointer? || p.Array? || p.Slice?) && !a.OpaqueState? && Describes(p, s, a)
    requires p.Pointer? ==> Canon(SubstTy(p.inner, s)) == Canon(a.inner)
    requires p.Array? || p.Slice? ==> Canon(SubstTy(p.elem, s)) == Canon(a.elem)
    ensures Canon(SubstTy(p, s)) == Canon(a)
  {
  }

  lemma NominalIsEqual(p: Ty, s: Subst, a: Ty)
    requires (p.Named? || p.DynamicInterface?) && !a.OpaqueState? && Describes(p, s, a)
    requires CanonAll(SubstTys(p.args, s)) == CanonAll(a.args)
    ensures Canon(SubstTy(p, s)) == Canon(a)
  {
  }

  lemma CallableIsEqual(p: Ty, s: Subst, a: Ty)
    requires (p.Function? || p.ClosureInstance?) && !a.OpaqueState? && Describes(p, s, a)
    requires Canon(SubstTy(p.ret, s)) == Canon(a.ret)
    requires CanonAll(SubstTys(p.params, s)) == CanonAll(a.params)
    requires p.ClosureInstance? ==> CanonAll(SubstTys(p.captures, s)) == CanonAll(a.captures)
    ensures Canon(SubstTy(p, s)) == Canon(a)
  {
  }

  lemma {:induction false} AllDescribedAreEqual(ps: seq<Ty>, s: Subst, qs: seq<Ty>)
    requires DescribesAll(ps, s, qs) && StrictAll(ps)
    ensures CanonAll(SubstTys(ps, s)) == CanonAll(qs)
    decreases ps, qs
  {
    forall i | 0 <= i < |ps|
      ensures CanonAll(SubstTys(ps, s))[i] == CanonAll(qs)[i]
    {
      DescribedIsEqual(ps[i], s, qs[i]);
    }
  }

  /** A strict pattern under the final substitution is the actual, up to hidden state and ignored names. */
  lemma UnifyThenEqual(p: Ty, a: Ty, s: Subst)
    requires Strict(p) && Ground(a) && UnifyTy(p, a, s).ok
    ensures Canon(SubstTy(p, UnifyTy(p, a, s).subst)) == Canon(a)
  {
    UnifyMeans(p, a, s);
    DescribedIsEqual(p, UnifyTy(p, a, s).subst, a);
  }

  // ---- Completeness through substitution

  ghost predicate DescribesItself(p: Ty, t: Subst) {
    Instance(p, t, SubstTy(p, t))
  }

  /** A substitution describes the type it turns the pattern into. */
  lemma {:induction false} SubstDescribes(p: Ty, t: Subst)
    requires Ground(SubstTy(p, t)) && Stateless(SubstTy(p, t))
    ensures DescribesItself(p, t)
    decreases p, 3
  {
    if p.OpaqueState? {
      assert SubstTy(p, t) == SubstTy(p.base, t);
      SubstDescribes(p.base, t);
    } else if !p.Hole? && !p.Generic? {
      CompoundDescribes(p, t);
    }
  }

  lemma HeadMatchesSubst(p: Ty, t: Subst)
    requires !p.Hole? && !p.Generic? && !p.OpaqueState?
    ensures HeadMatches(p, SubstTy(p, t)) && Facing(p, SubstTy(p, t)) == Children(SubstTy(p, t))
    ensures !SubstTy(p, t).OpaqueState?
  {
  }

  lemma {:induction false} CompoundDescribes(p: Ty, t: Subst)
    requires !p.Hole? && !p.Generic? && !p.OpaqueState?
    requires Ground(SubstTy(p, t)) && Stateless(SubstTy(p, t))
    ensures DescribesItself(p, t)
    decreases p, 2
  {
    var a := SubstTy(p, t);
    SubstChildren(p, t);
    HeadMatchesSubst(p, t);
    forall i | 0 <= i < |Children(p)|
      ensures Instance(Children(p)[i], t, Children(a)[i])
    {
      assert Children(a)[i] == SubstTy(Children(p)[i], t);
      SubstDescribes(Children(p)[i], t);
    }
    if p.Closure? {
      RefsDescribe(p, p.constraints.positive, t);
      RefsDescribe(p, p.constraints.negative, t);
    }
  }

  lemma {:induction false} RefsDescribe(context: Ty, rs: seq<ConstraintRef>, t: Subst)
    requires RefsBelow(rs, context) && GroundRefs(SubstRefs(rs, t))
    requires forall i :: 0 <= i < |rs| ==> StatelessRef(SubstRefs(rs, t)[i])
    ensures RefsInstance(rs, t, SubstRefs(rs, t))
    decreases context, 1
  {
    var qs := SubstRefs(rs, t);
    forall i | 0 <= i < |rs|
      ensures HasCounterpart(rs[i], t, qs)
    {
      assert GroundRef(qs[i]) && StatelessRef(qs[i]);
      RefDescribes(context, rs[i], t);
      assert RefInstance(rs[i], t, qs[i]);
    }
  }

  lemma {:induction false} RefDescribes(context: Ty, r: ConstraintRef, t: Subst)
    requires Below(r.args, context) && GroundRef(SubstRef(r, t)) && StatelessRef(SubstRef(r, t))
    ensures RefInstance(r, t, SubstRef(r, t))
    decreases context, 0
  {
    forall i | 0 <= i < |r.args|
      ensures Instance(r.args[i], t, SubstRef(r, t).args[i])
    {
      assert SubstRef(r, t).args[i] == SubstTy(r.args[i], t);
      SubstDescribes(r.args[i], t);
    }
  }

  /** Completeness through substitution: if some substitution that keeps `s` turns a settled pattern into the
      actual, unification succeeds and agrees with it on every generic that no constraint list chooses. */
  lemma UnifyFindsSubstitution(p: Ty, s: Subst, t: Subst)
    requires Settled(p, Bound(s)) && Keeps(s, t) && Ground(SubstTy(p, t)) && Stateless(SubstTy(p, t))
    ensures var o := UnifyTy(p, SubstTy(p, t), s);
            o.ok && forall n :: n in Names(p) && n !in Chosen(p, Bound(s)) ==>
                      n in o.subst && n in t && o.subst[n] == t[n]
  {
    var a := SubstTy(p, t);
    SubstDescribes(p, t);
    UnifyComplete(p, a, s, t);
    UnifySound(p, a, s);
    InstanceBinds(p, UnifyTy(p, a, s).subst, a);
  }
}
