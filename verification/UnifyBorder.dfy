/** How far unification is complete: the constraint search, and what follows it. */
module UnifyBorder {
  import opened Types
  import opened Substitution
  import opened Unify

  // ---- What a pattern visits, in order

  /** The arguments of all constraints, one after the other. */
  function Flat(rs: seq<ConstraintRef>): seq<Ty>
    decreases |rs|
  {
    if rs == [] then [] else rs[0].args + Flat(rs[1..])
  }

  lemma {:induction false} FlatBelow(rs: seq<ConstraintRef>, context: Ty)
    requires RefsBelow(rs, context)
    ensures Below(Flat(rs), context)
    decreases |rs|
  {
    if rs != [] {
      FlatBelow(rs[1..], context);
    }
  }

  /** The components in the order in which unification visits them: the children first, then the positive and
      the negative constraints of a closure. */
  function Items(p: Ty): (r: seq<Ty>)
    ensures forall i :: 0 <= i < |r| ==> r[i] < p
  {
    if p.OpaqueState? then [p.base]
    else if p.Closure? then
      FlatBelow(p.constraints.positive, p);
      FlatBelow(p.constraints.negative, p);
      Children(p) + Flat(p.constraints.positive) + Flat(p.constraints.negative)
    else Children(p)
  }

  /** The generics that unification can meet. */
  ghost function Names(p: Ty): set<string>
    decreases p
  {
    if p.Generic? then {p.name}
    else set i, n | 0 <= i < |Items(p)| && n in Names(Items(p)[i]) :: n
  }

  ghost function NamesOf(ps: seq<Ty>): set<string> {
    set i, n | 0 <= i < |ps| && n in Names(ps[i]) :: n
  }

  lemma NamesOfCons(ps: seq<Ty>)
    requires ps != []
    ensures NamesOf(ps) == Names(ps[0]) + NamesOf(ps[1..])
  {
    forall n | n in NamesOf(ps)
      ensures n in Names(ps[0]) + NamesOf(ps[1..])
    {
      var i :| 0 <= i < |ps| && n in Names(ps[i]);
      if i > 0 {
        assert ps[1..][i - 1] == ps[i];
      }
    }
    forall n | n in NamesOf(ps[1..])
      ensures n in NamesOf(ps)
    {
      var i :| 0 <= i < |ps[1..]| && n in Names(ps[1..][i]);
      assert ps[i + 1] == ps[1..][i];
    }
  }

  lemma NamesOfConcat(xs: seq<Ty>, ys: seq<Ty>)
    ensures NamesOf(xs + ys) == NamesOf(xs) + NamesOf(ys)
  {
    forall n | n in NamesOf(xs) + NamesOf(ys)
      ensures n in NamesOf(xs + ys)
    {
      if n in NamesOf(xs) {
        var i :| 0 <= i < |xs| && n in Names(xs[i]);
        assert (xs + ys)[i] == xs[i];
      } else {
        var i :| 0 <= i < |ys| && n in Names(ys[i]);
        assert (xs + ys)[|xs| + i] == ys[i];
      }
    }
  }

  ghost function Positive(p: Ty): set<string>
    requires p.Closure?
  {
    NamesOf(Flat(p.constraints.positive))
  }

  ghost function Negative(p: Ty): set<string>
    requires p.Closure?
  {
    NamesOf(Flat(p.constraints.negative))
  }

  /** The generics that are first met in a constraint list, when those in `known` were met before: the search
      chooses their bindings. */
  ghost function Chosen(p: Ty, known: set<string>): set<string>
    decreases p, 1
  {
    if p.OpaqueState? then Chosen(p.base, known)
    else if p.Closure? then
      ChosenAll(p, Children(p), known) + (Positive(p) + Negative(p) - (known + NamesOf(Children(p))))
    else ChosenAll(p, Children(p), known)
  }

  ghost function ChosenAll(context: Ty, ps: seq<Ty>, known: set<string>): set<string>
    requires Below(ps, context)
    decreases context, 0, |ps|
  {
    if ps == [] then {} else Chosen(ps[0], known) + ChosenAll(context, ps[1..], known + Names(ps[0]))
  }

  /** No generic that a constraint list chooses is met again behind that list: not in the negative constraints
      behind the positive ones, not in a later component, and not in a later constraint around it. */
  ghost predicate Settled(p: Ty, known: set<string>)
    decreases p, 1
  {
    && SettledAll(p, Items(p), known)
    && (p.Closure? ==> Positive(p) - (known + NamesOf(Children(p))) !! Negative(p))
  }

  ghost predicate SettledAll(context: Ty, ps: seq<Ty>, known: set<string>)
    requires Below(ps, context)
    decreases context, 0, |ps|
  {
    ps == [] || (&& Settled(ps[0], known)
                 && Chosen(ps[0], known) !! NamesOf(ps[1..])
                 && SettledAll(context, ps[1..], known + Names(ps[0])))
  }

  lemma {:induction false} SettledConcat(context: Ty, xs: seq<Ty>, ys: seq<Ty>, known: set<string>)
    requires Below(xs, context) && Below(ys, context) && Below(xs + ys, context)
    ensures SettledAll(context, xs + ys, known) <==>
              && SettledAll(context, xs, known)
              && ChosenAll(context, xs, known) !! NamesOf(ys)
              && SettledAll(context, ys, known + NamesOf(xs))
    decreases |xs|
  {
    if xs == [] {
      assert xs + ys == ys && known + NamesOf(xs) == known;
    } else {
      var more := known + Names(xs[0]);
      assert (xs + ys)[1..] == xs[1..] + ys;
      SettledConcat(context, xs[1..], ys, more);
      NamesOfCons(xs);
      NamesOfConcat(xs[1..], ys);
      assert more + NamesOf(xs[1..]) == known + NamesOf(xs);
    }
  }

  lemma {:induction false} ChosenConcat(context: Ty, xs: seq<Ty>, ys: seq<Ty>, known: set<string>)
    requires Below(xs, context) && Below(ys, context) && Below(xs + ys, context)
    ensures ChosenAll(context, xs + ys, known) ==
            ChosenAll(context, xs, known) + ChosenAll(context, ys, known + NamesOf(xs))
    decreases |xs|
  {
    if xs == [] {
      assert xs + ys == ys && known + NamesOf(xs) == known;
    } else {
      var more := known + Names(xs[0]);
      assert (xs + ys)[1..] == xs[1..] + ys;
      ChosenConcat(context, xs[1..], ys, more);
      NamesOfCons(xs);
      assert more + NamesOf(xs[1..]) == known + NamesOf(xs);
    }
  }

  // ---- Lists that choose nothing

  lemma {:induction false} ChosenIsNew(p: Ty, known: set<string>)
    ensures Chosen(p, known) <= Names(p) - known
    decreases p, 1
  {
    if p.OpaqueState? {
      HiddenNames(p);
      ChosenIsNew(p.base, known);
    } else if !p.Generic? {
      ChosenAllIsNew(p, Children(p), known);
      if p.Closure? {
        ClosureNames(p);
      } else {
        ChildNames(p);
      }
    }
  }

  lemma {:induction false} ChosenAllIsNew(context: Ty, ps: seq<Ty>, known: set<string>)
    requires Below(ps, context)
    ensures ChosenAll(context, ps, known) <= NamesOf(ps) - known
    decreases context, 0, |ps|
  {
    if ps != [] {
      NamesOfCons(ps);
      ChosenIsNew(ps[0], known);
      ChosenAllIsNew(context, ps[1..], known + Names(ps[0]));
    }
  }

  lemma {:induction false} NothingChosenSettles(p: Ty, known: set<string>)
    requires Chosen(p, known) == {}
    ensures Settled(p, known)
    decreases p, 1
  {
    if p.OpaqueState? {
      assert Items(p) == [p.base];
      NothingChosenSettles(p.base, known);
    } else if !p.Closure? {
      NothingChosenSettlesAll(p, Children(p), known);
    } else {
      ClosureChoosesNothing(p, known);
      NothingChosenSettlesAll(p, Items(p), known);
    }
  }

  lemma ClosureChoosesNothing(p: Ty, known: set<string>)
    requires p.Closure? && Chosen(p, known) == {}
    ensures ChosenAll(p, Items(p), known) == {} && Positive(p) <= known + NamesOf(Children(p))
  {
    var lists := Positive(p) + Negative(p);
    assert lists - (known + NamesOf(Children(p))) == {};
    ClosureNames(p);
    ListsChooseNothing(p, Children(p), Flat(p.constraints.positive), Flat(p.constraints.negative), known);
  }

  /** If the components choose nothing and the lists meet only known generics, nothing at all is chosen. */
  lemma ListsChooseNothing(context: Ty, cs: seq<Ty>, ps: seq<Ty>, ns: seq<Ty>, known: set<string>)
    requires Below(cs, context) && Below(ps, context) && Below(ns, context) && Below(cs + ps + ns, context)
    requires ChosenAll(context, cs, known) == {} && NamesOf(ps) + NamesOf(ns) <= known + NamesOf(cs)
    ensures ChosenAll(context, cs + ps + ns, known) == {}
  {
    var met := known + NamesOf(cs);
    assert Below(cs + ps, context);
    ChosenAllIsNew(context, ps, met);
    ChosenAllIsNew(context, ns, met + NamesOf(ps));
    ChosenConcat(context, cs, ps, known);
    NamesOfConcat(cs, ps);
    assert known + NamesOf(cs + ps) == met + NamesOf(ps);
    ChosenConcat(context, cs + ps, ns, known);
  }

  lemma {:induction false} NothingChosenSettlesAll(context: Ty, ps: seq<Ty>, known: set<string>)
    requires Below(ps, context) && ChosenAll(context, ps, known) == {}
    ensures SettledAll(context, ps, known)
    decreases context, 0, |ps|
  {
    if ps != [] {
      NothingChosenSettles(ps[0], known);
      NothingChosenSettlesAll(context, ps[1..], known + Names(ps[0]));
    }
  }

  // ---- Unification binds nothing but the generics of the pattern

  ghost predicate SameOutside(s: Subst, t: Subst, names: set<string>) {
    forall n :: n !in names ==> (n in s <==> n in t) && (n in s ==> s[n] == t[n])
  }

  ghost predicate Framed(p: Ty, a: Ty, s: Subst) {
    SameOutside(s, UnifyTy(p, a, s).subst, Names(p))
  }

  lemma {:induction false} UnifyFrame(p: Ty, a: Ty, s: Subst)
    ensures Framed(p, a, s)
    decreases p, 3, a
  {
    if p.OpaqueState? {
      UnifyFrame(p.base, a, s);
      HiddenNames(p);
    } else if a.OpaqueState? {
      UnifyFrame(p, a.base, s);
    } else if !p.Hole? && !p.Generic? && HeadMatches(p, a) {
      UnifyAllFrame(p, Children(p), Facing(p, a), s);
      if p.Closure? {
        ClosureNames(p);
        UnifyBoundsFrame(p, a, s);
      } else {
        ChildNames(p);
      }
    }
  }

  lemma HiddenNames(p: Ty)
    requires p.OpaqueState?
    ensures Names(p) == Names(p.base)
  {
    assert |Items(p)| == 1 && Items(p)[0] == p.base;
    assert forall n :: n in Names(p.base) ==> n in Names(Items(p)[0]);
  }

  lemma ChildNames(p: Ty)
    requires !p.Generic? && !p.OpaqueState? && !p.Closure?
    ensures Names(p) == NamesOf(Children(p))
  {
    assert Items(p) == Children(p);
  }

  lemma ClosureNames(p: Ty)
    requires p.Closure?
    ensures Names(p) == NamesOf(Children(p)) + Positive(p) + Negative(p)
    ensures Below(Flat(p.constraints.positive), p) && Below(Flat(p.constraints.negative), p)
  {
    FlatBelow(p.constraints.positive, p);
    FlatBelow(p.constraints.negative, p);
    NamesOfConcat(Children(p), Flat(p.constraints.positive));
    NamesOfConcat(Children(p) + Flat(p.constraints.positive), Flat(p.constraints.negative));
    assert Names(p) == NamesOf(Items(p));
  }

  lemma {:induction false} UnifyBoundsFrame(p: Ty, a: Ty, s: Subst)
    requires p.Closure? && !a.OpaqueState? && HeadMatches(p, a)
    requires Names(p) == NamesOf(Children(p)) + Positive(p) + Negative(p)
    requires SameOutside(s, UnifyAll(p, Children(p), Facing(p, a), s).subst, NamesOf(Children(p)))
    ensures Framed(p, a, s)
    decreases p, 2
  {
    var o := UnifyAll(p, Children(p), Facing(p, a), s);
    if o.ok && a.Closure? {
      UnifyRefsFrame(p, p.constraints.positive, a.constraints.positive, 0, o.subst);
      var q := UnifyRefs(p, p.constraints.positive, a.constraints.positive, 0, o.subst);
      UnifyRefsFrame(p, p.constraints.negative, a.constraints.negative, 0, q.subst);
    }
  }

  lemma {:induction false} UnifyAllFrame(context: Ty, ps: seq<Ty>, qs: seq<Ty>, s: Subst)
    requires |ps| == |qs| && Below(ps, context)
    ensures SameOutside(s, UnifyAll(context, ps, qs, s).subst, NamesOf(ps))
    decreases context, 0, |ps|
  {
    if ps != [] {
      NamesOfCons(ps);
      UnifyFrame(ps[0], qs[0], s);
      var o := UnifyTy(ps[0], qs[0], s);
      if o.ok {
        UnifyAllFrame(context, ps[1..], qs[1..], o.subst);
      }
    }
  }

  lemma {:induction false} UnifyRefsFrame(context: Ty, ps: seq<ConstraintRef>, qs: seq<ConstraintRef>, k: nat, s: Subst)
    requires RefsBelow(ps, context)
    ensures UnifyRefs(context, ps, qs, k, s).ok ==>
              SameOutside(s, UnifyRefs(context, ps, qs, k, s).subst, NamesOf(Flat(ps)))
    decreases context, 1, |ps|, |qs| - k
  {
    if ps != [] && k < |qs| {
      NamesOfConcat(ps[0].args, Flat(ps[1..]));
      UnifyRefsFrame(context, ps, qs, k + 1, s);
      if RefMatches(ps[0], qs[k]) {
        UnifyAllFrame(context, ps[0].args, qs[k].args, s);
        var o := UnifyAll(context, ps[0].args, qs[k].args, s);
        if o.ok {
          UnifyRefsFrame(context, ps[1..], qs, 0, o.subst);
        }
      }
    }
  }

  // ---- A description binds every generic of the pattern

  ghost predicate Knows(s: Subst, names: set<string>) {
    forall n :: n in names ==> n in s && s[n] != Generic(n)
  }

  lemma {:induction false} InstanceBinds(p: Ty, s: Subst, a: Ty)
    requires Instance(p, s, a) && Ground(a)
    ensures Knows(s, Names(p))
    decreases p, 2, a
  {
    if p.OpaqueState? {
      InstanceBinds(p.base, s, a);
      HiddenNames(p);
    } else if a.OpaqueState? {
      InstanceBinds(p, s, a.base);
    } else if !p.Hole? && !p.Generic? {
      GroundFacing(p, a);
      AllInstanceBinds(p, Children(p), s, Facing(p, a));
      if p.Closure? {
        ClosureNames(p);
        if a.Closure? {
          RefsInstanceBinds(p, p.constraints.positive, s, a.constraints.positive);
          RefsInstanceBinds(p, p.constraints.negative, s, a.constraints.negative);
        }
      }
    }
  }

  lemma {:induction false} AllInstanceBinds(context: Ty, ps: seq<Ty>, s: Subst, qs: seq<Ty>)
    requires |ps| == |qs| && Below(ps, context) && AllInstance(ps, s, qs) && GroundAll(qs)
    ensures Knows(s, NamesOf(ps))
    decreases context, 0
  {
    forall n | n in NamesOf(ps)
      ensures n in s && s[n] != Generic(n)
    {
      var i :| 0 <= i < |ps| && n in Names(ps[i]);
      InstanceBinds(ps[i], s, qs[i]);
    }
  }

  lemma {:induction false} RefsInstanceBinds(context: Ty, ps: seq<ConstraintRef>, s: Subst, qs: seq<ConstraintRef>)
    requires RefsBelow(ps, context) && RefsInstance(ps, s, qs) && GroundRefs(qs)
    ensures Knows(s, NamesOf(Flat(ps)))
    decreases context, 1, |ps|
  {
    if ps != [] {
      assert HasCounterpart(ps[0], s, qs);
      var j :| 0 <= j < |qs| && RefInstance(ps[0], s, qs[j]);
      assert GroundRef(qs[j]);
      AllInstanceBinds(context, ps[0].args, s, qs[j].args);
      assert forall i :: 0 <= i < |ps[1..]| ==> HasCounterpart(ps[1..][i], s, qs);
      RefsInstanceBinds(context, ps[1..], s, qs);
      NamesOfConcat(ps[0].args, Flat(ps[1..]));
    }
  }

  // ---- Completeness of settled patterns

  /** The bindings of `s` are those of `t`, except for the generics in `free`. */
  ghost predicate KeepsBut(s: Subst, t: Subst, free: set<string>) {
    forall n :: n in s && s[n] != Generic(n) && n !in free ==> n in t && t[n] == s[n]
  }

  /** Unification succeeds; from `t` it departs only where `free` or a constraint list leaves the choice. */
  ghost predicate Arrives(o: Outcome, t: Subst, free: set<string>, known: set<string>) {
    o.ok && KeepsBut(o.subst, t, free) && Knows(o.subst, known)
  }

  lemma {:induction false} ArrivesTy(p: Ty, a: Ty, s: Subst, t: Subst, known: set<string>, free: set<string>)
    requires Settled(p, known) && Instance(p, t, a) && Ground(a)
    requires KeepsBut(s, t, free) && free !! Names(p) && Knows(s, known)
    ensures Arrives(UnifyTy(p, a, s), t, free + Chosen(p, known), known + Names(p))
    decreases p, 4, a
  {
    if p.OpaqueState? {
      HiddenNames(p);
      assert Items(p)[0] == p.base;
      ArrivesTy(p.base, a, s, t, known, free);
    } else if a.OpaqueState? {
      ArrivesTy(p, a.base, s, t, known, free);
    } else if p.Hole? || p.Generic? {
      ArrivesLeaf(p, a, s, t, known, free);
    } else {
      GroundFacing(p, a);
      if p.Closure? {
        ArrivesClosure(p, a, s, t, known, free);
      } else {
        ChildNames(p);
        ArrivesAll(p, Children(p), Facing(p, a), s, t, known, free);
      }
    }
  }

  lemma ArrivesLeaf(p: Ty, a: Ty, s: Subst, t: Subst, known: set<string>, free: set<string>)
    requires p.Hole? || p.Generic?
    requires !a.OpaqueState? && Instance(p, t, a) && Ground(a)
    requires KeepsBut(s, t, free) && free !! Names(p) && Knows(s, known)
    ensures Arrives(UnifyTy(p, a, s), t, free + Chosen(p, known), known + Names(p))
  {
    if p.Generic? {
      assert p.name in Names(p);
    } else {
      assert Items(p) == [] && Names(p) == {};
    }
  }

  lemma {:induction false} ArrivesAll(
    context: Ty, ps: seq<Ty>, qs: seq<Ty>, s: Subst, t: Subst, known: set<string>, free: set<string>)
    requires |ps| == |qs| && Below(ps, context) && SettledAll(context, ps, known)
    requires AllInstance(ps, t, qs) && GroundAll(qs)
    requires KeepsBut(s, t, free) && free !! NamesOf(ps) && Knows(s, known)
    ensures Arrives(UnifyAll(context, ps, qs, s), t, free + ChosenAll(context, ps, known), known + NamesOf(ps))
    decreases context, 0, |ps|
  {
    if ps == [] {
      assert known + NamesOf(ps) == known && free + ChosenAll(context, ps, known) == free;
    } else {
      NamesOfCons(ps);
      ArrivesTy(ps[0], qs[0], s, t, known, free);
      var o := UnifyTy(ps[0], qs[0], s);
      var more, loose := known + Names(ps[0]), free + Chosen(ps[0], known);
      ArrivesAll(context, ps[1..], qs[1..], o.subst, t, more, loose);
      assert more + NamesOf(ps[1..]) == known + NamesOf(ps);
      assert loose + ChosenAll(context, ps[1..], more) == free + ChosenAll(context, ps, known);
    }
  }

  /** The parts of a settled closure pattern. */
  lemma SettledClosure(p: Ty, known: set<string>)
    requires p.Closure? && Settled(p, known)
    ensures Below(Flat(p.constraints.positive), p) && Below(Flat(p.constraints.negative), p)
    ensures var met := known + NamesOf(Children(p));
            && SettledAll(p, Children(p), known)
            && ChosenAll(p, Children(p), known) !! Positive(p) + Negative(p)
            && SettledAll(p, Flat(p.constraints.positive), met)
            && Positive(p) - met !! Negative(p)
            && SettledAll(p, Flat(p.constraints.negative), met + Positive(p))
  {
    ClosureNames(p);
    var cs, ps, ns := Children(p), Flat(p.constraints.positive), Flat(p.constraints.negative);
    NamesOfConcat(cs, ps);
    SettledConcat(p, cs + ps, ns, known);
    SettledConcat(p, cs, ps, known);
    ChosenConcat(p, cs, ps, known);
    assert known + NamesOf(cs + ps) == known + NamesOf(cs) + NamesOf(ps);
  }

  lemma {:induction false} ArrivesClosure(p: Ty, a: Ty, s: Subst, t: Subst, known: set<string>, free: set<string>)
    requires p.Closure? && !a.OpaqueState? && Settled(p, known) && Instance(p, t, a) && Ground(a)
    requires GroundAll(Facing(p, a)) && KeepsBut(s, t, free) && free !! Names(p) && Knows(s, known)
    ensures Arrives(UnifyTy(p, a, s), t, free + Chosen(p, known), known + Names(p))
    decreases p, 3
  {
    SettledClosure(p, known);
    ClosureNames(p);
    ArrivesAll(p, Children(p), Facing(p, a), s, t, known, free);
    var o := UnifyAll(p, Children(p), Facing(p, a), s);
    var met, loose := known + NamesOf(Children(p)), free + ChosenAll(p, Children(p), known);
    ClosureSets(p, known, free);
    if a.Closure? {
      ArrivesBounds(p, a, o.subst, t, met, loose);
    } else {
      NoConstraints(p);
    }
  }

  lemma ClosureSets(p: Ty, known: set<string>, free: set<string>)
    requires p.Closure?
    ensures var met, loose := known + NamesOf(Children(p)), free + ChosenAll(p, Children(p), known);
            && loose + (Positive(p) + Negative(p) - met) == free + Chosen(p, known)
            && met + Positive(p) + Negative(p) == known + Names(p)
            && (Positive(p) + Negative(p) == {} ==> met == known + Names(p) && loose == free + Chosen(p, known))
  {
    ClosureNames(p);
  }

  lemma {:induction false} ArrivesBounds(p: Ty, a: Ty, s: Subst, t: Subst, met: set<string>, free: set<string>)
    requires p.Closure? && a.Closure?
    requires Below(Flat(p.constraints.positive), p) && Below(Flat(p.constraints.negative), p)
    requires SettledAll(p, Flat(p.constraints.positive), met) && Positive(p) - met !! Negative(p)
    requires SettledAll(p, Flat(p.constraints.negative), met + Positive(p))
    requires RefsInstance(p.constraints.positive, t, a.constraints.positive) && GroundRefs(a.constraints.positive)
    requires RefsInstance(p.constraints.negative, t, a.constraints.negative) && GroundRefs(a.constraints.negative)
    requires KeepsBut(s, t, free) && free !! Positive(p) + Negative(p) && Knows(s, met)
    ensures Arrives(UnifyBounds(p, a, s), t, free + (Positive(p) + Negative(p) - met), met + Positive(p) + Negative(p))
    decreases p, 2, 2
  {
    var ps, ns := p.constraints.positive, p.constraints.negative;
    ArrivesLists(p, ps, ns, a.constraints.positive, a.constraints.negative, s, t, met, free);
  }

  lemma {:induction false} ArrivesLists(
    context: Ty, ps: seq<ConstraintRef>, ns: seq<ConstraintRef>, qs: seq<ConstraintRef>, ms: seq<ConstraintRef>,
    s: Subst, t: Subst, met: set<string>, free: set<string>)
    requires RefsBelow(ps, context) && Below(Flat(ps), context) && SettledAll(context, Flat(ps), met)
    requires RefsBelow(ns, context) && Below(Flat(ns), context)
    requires SettledAll(context, Flat(ns), met + NamesOf(Flat(ps))) && NamesOf(Flat(ps)) - met !! NamesOf(Flat(ns))
    requires RefsInstance(ps, t, qs) && GroundRefs(qs) && RefsInstance(ns, t, ms) && GroundRefs(ms)
    requires KeepsBut(s, t, free) && free !! NamesOf(Flat(ps)) + NamesOf(Flat(ns)) && Knows(s, met)
    ensures var q := UnifyRefs(context, ps, qs, 0, s);
            var names := NamesOf(Flat(ps)) + NamesOf(Flat(ns));
            q.ok && Arrives(UnifyRefs(context, ns, ms, 0, q.subst), t, free + (names - met),
                            met + NamesOf(Flat(ps)) + NamesOf(Flat(ns)))
    decreases context, 2, 1
  {
    var first, second := NamesOf(Flat(ps)), NamesOf(Flat(ns));
    ArrivesRefs(context, ps, qs, s, t, met, free);
    StillFree(free, first, second, met);
    ArrivesRefs(context, ns, ms, UnifyRefs(context, ps, qs, 0, s).subst, t, met + first, free + (first - met));
  }

  lemma StillFree(free: set<string>, positive: set<string>, negative: set<string>, met: set<string>)
    requires free !! positive + negative && positive - met !! negative
    ensures free + (positive - met) !! negative
    ensures free + (positive - met) + (negative - (met + positive)) == free + (positive + negative - met)
  {
  }

  lemma NoConstraints(p: Ty)
    requires p.Closure? && p.constraints.IsEmpty()
    ensures Positive(p) == {} && Negative(p) == {}
  {
  }

  /** The search finds an answer if there is one; it may choose the generics that it meets first. */
  lemma {:induction false} ArrivesRefs(
    context: Ty, ps: seq<ConstraintRef>, qs: seq<ConstraintRef>, s: Subst, t: Subst,
    known: set<string>, free: set<string>)
    requires RefsBelow(ps, context) && Below(Flat(ps), context) && SettledAll(context, Flat(ps), known)
    requires RefsInstance(ps, t, qs) && GroundRefs(qs)
    requires KeepsBut(s, t, free) && free !! NamesOf(Flat(ps)) && Knows(s, known)
    ensures Arrives(UnifyRefs(context, ps, qs, 0, s), t, free + (NamesOf(Flat(ps)) - known), known + NamesOf(Flat(ps)))
    decreases context, 2, 0
  {
    SearchSucceeds(context, ps, qs, s, t, known, free);
    var o := UnifyRefs(context, ps, qs, 0, s);
    UnifyRefsFrame(context, ps, qs, 0, s);
    UnifyRefsSound(context, ps, qs, 0, s);
    RefsInstanceBinds(context, ps, o.subst, qs);
  }

  lemma {:induction false} SearchSucceeds(
    context: Ty, ps: seq<ConstraintRef>, qs: seq<ConstraintRef>, s: Subst, t: Subst,
    known: set<string>, free: set<string>)
    requires RefsBelow(ps, context) && Below(Flat(ps), context) && SettledAll(context, Flat(ps), known)
    requires RefsInstance(ps, t, qs) && GroundRefs(qs)
    requires KeepsBut(s, t, free) && free !! NamesOf(Flat(ps)) && Knows(s, known)
    ensures UnifyRefs(context, ps, qs, 0, s).ok
    decreases context, 1, |ps|
  {
    if ps != [] {
      assert HasCounterpart(ps[0], t, qs);
      var j :| 0 <= j < |qs| && RefInstance(ps[0], t, qs[j]);
      CandidateSucceeds(context, ps, qs, j, s, t, known, free);
      EarlierSucceeds(context, ps, qs, 0, j, s);
    }
  }

  lemma {:induction false} CandidateSucceeds(
    context: Ty, ps: seq<ConstraintRef>, qs: seq<ConstraintRef>, j: nat, s: Subst, t: Subst,
    known: set<string>, free: set<string>)
    requires RefsBelow(ps, context) && Below(Flat(ps), context) && SettledAll(context, Flat(ps), known)
    requires RefsInstance(ps, t, qs) && GroundRefs(qs)
    requires KeepsBut(s, t, free) && free !! NamesOf(Flat(ps)) && Knows(s, known)
    requires ps != [] && j < |qs| && RefInstance(ps[0], t, qs[j])
    ensures UnifyRefs(context, ps, qs, j, s).ok
    decreases context, 1, |ps|, 0
  {
    var xs, ys := ps[0].args, Flat(ps[1..]);
    FlatBelow(ps[1..], context);
    SettledConcat(context, xs, ys, known);
    NamesOfConcat(xs, ys);
    assert GroundRef(qs[j]);
    ArrivesAll(context, xs, qs[j].args, s, t, known, free);
    var o := UnifyAll(context, xs, qs[j].args, s);
    assert forall i :: 0 <= i < |ps[1..]| ==> HasCounterpart(ps[1..][i], t, qs);
    SearchSucceeds(context, ps[1..], qs, o.subst, t, known + NamesOf(xs), free + ChosenAll(context, xs, known));
  }

  lemma {:induction false} EarlierSucceeds(
    context: Ty, ps: seq<ConstraintRef>, qs: seq<ConstraintRef>, k: nat, j: nat, s: Subst)
    requires RefsBelow(ps, context) && ps != [] && k <= j < |qs| && UnifyRefs(context, ps, qs, j, s).ok
    ensures UnifyRefs(context, ps, qs, k, s).ok
    decreases j - k
  {
    if k < j {
      EarlierSucceeds(context, ps, qs, k + 1, j, s);
    }
  }

  /** The generics that are bound to more than themselves. */
  ghost function Bound(s: Subst): set<string> {
    set n | n in s && s[n] != Generic(n)
  }

  /** If some substitution that keeps `s` describes the actual, unification of a settled pattern succeeds, and
      agrees with it on all generics that no constraint list chooses. */
  lemma UnifyComplete(p: Ty, a: Ty, s: Subst, t: Subst)
    requires Settled(p, Bound(s)) && Ground(a) && Keeps(s, t) && Instance(p, t, a)
    ensures UnifyTy(p, a, s).ok && KeepsBut(UnifyTy(p, a, s).subst, t, Chosen(p, Bound(s)))
  {
    ArrivesTy(p, a, s, t, Bound(s), {});
    assert {} + Chosen(p, Bound(s)) == Chosen(p, Bound(s));
  }

  /** Unification of a settled pattern decides whether the actual can be described at all. */
  lemma UnifyExact(p: Ty, a: Ty, s: Subst)
    requires Settled(p, Bound(s)) && Ground(a)
    ensures UnifyTy(p, a, s).ok <==> Describable(p, a, s)
  {
    UnifySound(p, a, s);
    forall t | Keeps(s, t) && Instance(p, t, a)
      ensures UnifyTy(p, a, s).ok
    {
      UnifyComplete(p, a, s, t);
    }
  }
}
