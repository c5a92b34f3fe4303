/** Where completeness of unification ends: actuals on which the choice of a constraint list turns out wrong. */
module UnifyLimits {
  import opened Wrappers
  import opened Types
  import opened Substitution
  import opened Unify
  import opened UnifyBorder
  import opened UnifyActuals

  lemma {:induction false} PlainRunAll(context: Ty, ps: seq<Ty>, known: set<string>)
    requires Below(ps, context) && ApartAll(ps)
    ensures var o := UnifyAll(context, ps, MakeAll(ps, {}), Full(known, {}));
            o.ok ==> o.subst == Full(known + NamesOf(ps), {})
    decreases |ps|
  {
    var s := Full(known, {});
    if ps == [] {
      assert known + NamesOf(ps) == known;
    } else {
      var xs := MakeAll(ps, {});
      var o := UnifyTy(ps[0], xs[0], s);
      PlainRun(ps[0], known);
      if o.ok {
        assert xs[1..] == MakeAll(ps[1..], {});
        PlainRunAll(context, ps[1..], known + Names(ps[0]));
        NamesOfCons(ps);
        assert known + Names(ps[0]) + NamesOf(ps[1..]) == known + NamesOf(ps);
      }
    }
  }

  /** The actual is described with all generics `bool`, but unification leaves `g` with another value. */
  ghost predicate Misleads(p: Ty, a: Ty, known: set<string>, g: string, names: set<string>) {
    && Ground(a) && Instance(p, Full(names, {}), a)
    && var o := UnifyTy(p, a, Full(known, {})); o.ok ==> g in o.subst && o.subst[g] == ODD
  }

  ghost predicate MisleadsAll(context: Ty, ps: seq<Ty>, xs: seq<Ty>, known: set<string>, g: string, names: set<string>)
    requires Below(ps, context)
  {
    && |xs| == |ps| && GroundAll(xs) && AllInstance(ps, Full(names, {}), xs)
    && var o := UnifyAll(context, ps, xs, Full(known, {})); o.ok ==> g in o.subst && o.subst[g] == ODD
  }

  /** The actual is described with all generics `bool`, but unification fails. */
  ghost predicate Refutes(p: Ty, a: Ty, known: set<string>, names: set<string>) {
    Ground(a) && Instance(p, Full(names, {}), a) && !UnifyTy(p, a, Full(known, {})).ok
  }

  ghost predicate RefutesAll(context: Ty, ps: seq<Ty>, xs: seq<Ty>, known: set<string>, names: set<string>)
    requires Below(ps, context)
  {
    && |xs| == |ps| && GroundAll(xs) && AllInstance(ps, Full(names, {}), xs)
    && !UnifyAll(context, ps, xs, Full(known, {})).ok
  }

  // ---- Closures whose constraint list offers the wrong value first

  function PositiveTwice(p: Ty, g: string): Ty
    requires p.Closure?
  {
    WithChildren(p, MakeAll(Children(p), {}),
                 ConstraintBounds(Twice(p.constraints.positive, g),
                                  Regroup(p.constraints.negative, MakeAll(Flat(p.constraints.negative), {}))))
  }

  function NegativeTwice(p: Ty, g: string): Ty
    requires p.Closure?
  {
    WithChildren(p, MakeAll(Children(p), {}),
                 ConstraintBounds(Regroup(p.constraints.positive, MakeAll(Flat(p.constraints.positive), {})),
                                  Twice(p.constraints.negative, g)))
  }

  lemma OwnList(rs: seq<ConstraintRef>, names: set<string>)
    requires NamesOf(Flat(rs)) <= names
    ensures var qs := Regroup(rs, MakeAll(Flat(rs), {}));
            GroundRefs(qs) && RefsInstance(rs, Full(names, {}), qs)
  {
    var xs := MakeAll(Flat(rs), {});
    MakeAllDescribed(Flat(rs), names, {});
    RegroupGround(rs, xs);
    RefsDescribed(rs, xs, Full(names, {}), [], []);
    assert [] + Regroup(rs, xs) + [] == Regroup(rs, xs);
  }

  lemma MixedDescribed(p: Ty, bounds: ConstraintBounds, names: set<string>)
    requires p.Closure? && NamesOf(Children(p)) <= names
    requires GroundRefs(bounds.positive) && RefsInstance(p.constraints.positive, Full(names, {}), bounds.positive)
    requires GroundRefs(bounds.negative) && RefsInstance(p.constraints.negative, Full(names, {}), bounds.negative)
    ensures var cs := MakeAll(Children(p), {});
            var a := WithChildren(p, cs, bounds);
            && Ground(a) && Instance(p, Full(names, {}), a)
            && IsCompound(a) && a.Closure? && a.constraints == bounds && HeadMatches(p, a) && Facing(p, a) == cs
  {
    var cs := MakeAll(Children(p), {});
    MakeAllDescribed(Children(p), names, {});
    ClosureDescribed(p, cs, bounds, Full(names, {}));
    ClosureGround(p, cs, bounds);
    WithChildrenFits(p, cs, bounds);
  }

  lemma PositiveMisleads(p: Ty, known: set<string>, g: string, names: set<string>)
    requires p.Closure? && Apart(p) && known + Names(p) <= names
    requires SettledAll(p, Items(p), known) && g in Positive(p) && g !in known + NamesOf(Children(p))
    ensures Misleads(p, PositiveTwice(p, g), known, g, names)
    ensures g in Negative(p) ==> Refutes(p, PositiveTwice(p, g), known, names)
  {
    var rs, ts := p.constraints.positive, p.constraints.negative;
    var met := known + NamesOf(Children(p));
    var a := PositiveTwice(p, g);
    var bounds := ConstraintBounds(Twice(rs, g), Regroup(ts, MakeAll(Flat(ts), {})));
    SettledLists(p, known);
    ApartParts(p);
    ClosureNames(p);
    PlainRunAll(p, Children(p), known);
    TwiceMisleads(p, rs, met, g, names);
    assert Has(UnifyRefs(p, rs, bounds.positive, 0, Full(met, {})).subst, Positive(p), {g});
    OwnList(ts, names);
    MixedDescribed(p, bounds, names);
    assert a == WithChildren(p, MakeAll(Children(p), {}), bounds);
    PositiveRuns(p, a, known, g);
  }

  /** The constraint lists of a pattern whose items are settled. */
  lemma SettledLists(p: Ty, known: set<string>)
    requires p.Closure? && SettledAll(p, Items(p), known)
    ensures Below(Flat(p.constraints.positive), p) && Below(Flat(p.constraints.negative), p)
    ensures var met := known + NamesOf(Children(p));
            && SettledAll(p, Children(p), known)
            && SettledAll(p, Flat(p.constraints.positive), met)
            && SettledAll(p, Flat(p.constraints.negative), met + Positive(p))
  {
    ClosureNames(p);
    var cs, ps, ns := Children(p), Flat(p.constraints.positive), Flat(p.constraints.negative);
    NamesOfConcat(cs, ps);
    SettledConcat(p, cs + ps, ns, known);
    SettledConcat(p, cs, ps, known);
    assert known + NamesOf(cs + ps) == known + NamesOf(cs) + NamesOf(ps);
  }

  lemma PositiveRuns(p: Ty, a: Ty, known: set<string>, g: string)
    requires p.Closure? && Apart(p) && IsCompound(a) && a.Closure? && g in Positive(p)
    requires HeadMatches(p, a) && Facing(p, a) == MakeAll(Children(p), {})
    requires var o := UnifyAll(p, Children(p), Facing(p, a), Full(known, {}));
             o.ok ==> o.subst == Full(known + NamesOf(Children(p)), {})
    requires var s := Full(known + NamesOf(Children(p)), {});
             var q := UnifyRefs(p, p.constraints.positive, a.constraints.positive, 0, s);
             q.ok && Has(q.subst, Positive(p), {g})
    requires a.constraints.negative == Regroup(p.constraints.negative, MakeAll(Flat(p.constraints.negative), {}))
    requires GroundRefs(a.constraints.negative)
    ensures var o := UnifyTy(p, a, Full(known, {}));
            o.ok ==> g in o.subst && o.subst[g] == ODD && g !in Negative(p)
  {
    var ts := p.constraints.negative;
    var q := UnifyRefs(p, p.constraints.positive, a.constraints.positive, 0, Full(known + NamesOf(Children(p)), {}));
    var n := UnifyRefs(p, ts, a.constraints.negative, 0, q.subst);
    UnifyRefsSound(p, ts, a.constraints.negative, 0, q.subst);
    if n.ok {
      ApartParts(p);
      FlatBelow(ts, p);
      ForcedRefs(p, ts, n.subst, {});
    }
  }

  lemma NegativeMisleads(p: Ty, known: set<string>, g: string, names: set<string>)
    requires p.Closure? && Apart(p) && known + Names(p) <= names
    requires SettledAll(p, Items(p), known) && g in Negative(p) && g !in known + NamesOf(Children(p)) + Positive(p)
    ensures Misleads(p, NegativeTwice(p, g), known, g, names)
  {
    var rs, ts := p.constraints.positive, p.constraints.negative;
    var met := known + NamesOf(Children(p));
    var a := NegativeTwice(p, g);
    var bounds := ConstraintBounds(Regroup(rs, MakeAll(Flat(rs), {})), Twice(ts, g));
    SettledLists(p, known);
    ApartParts(p);
    ClosureNames(p);
    PlainRunAll(p, Children(p), known);
    TwiceMisleads(p, ts, met + Positive(p), g, names);
    assert Has(UnifyRefs(p, ts, bounds.negative, 0, Full(met + Positive(p), {})).subst, Negative(p), {g});
    OwnList(rs, names);
    MixedDescribed(p, bounds, names);
    assert a == WithChildren(p, MakeAll(Children(p), {}), bounds);
    NegativeRuns(p, a, known, g);
  }

  lemma NegativeRuns(p: Ty, a: Ty, known: set<string>, g: string)
    requires p.Closure? && Apart(p) && IsCompound(a) && a.Closure? && g in Negative(p)
    requires HeadMatches(p, a) && Facing(p, a) == MakeAll(Children(p), {})
    requires var o := UnifyAll(p, Children(p), Facing(p, a), Full(known, {}));
             o.ok ==> o.subst == Full(known + NamesOf(Children(p)), {})
    requires a.constraints.positive == Regroup(p.constraints.positive, MakeAll(Flat(p.constraints.positive), {}))
    requires var n := UnifyRefs(p, p.constraints.negative, a.constraints.negative, 0,
                                Full(known + NamesOf(Children(p)) + Positive(p), {}));
             n.ok && Has(n.subst, Negative(p), {g})
    ensures var o := UnifyTy(p, a, Full(known, {}));
            o.ok ==> g in o.subst && o.subst[g] == ODD
  {
    var rs, qs := p.constraints.positive, a.constraints.positive;
    var met := known + NamesOf(Children(p));
    var q := UnifyRefs(p, rs, qs, 0, Full(met, {}));
    if q.ok {
      assert rs[0..] == rs && qs[0..] == qs;
      FlatBelow(rs, p);
      SoleCandidates(p, rs, qs, 0, Full(met, {}));
      ApartParts(p);
      PlainRunAll(p, Flat(rs), met);
    }
  }

  // ---- Wherever a list chooses a generic, some actual makes the choice wrong

  lemma {:induction false} Misleading(p: Ty, known: set<string>, g: string, names: set<string>) returns (a: Ty)
    requires Apart(p) && Settled(p, known) && g in Chosen(p, known) && known + Names(p) <= names
    ensures Misleads(p, a, known, g, names)
    decreases p, 1
  {
    if p.OpaqueState? {
      HiddenNames(p);
      assert Items(p)[0] == p.base;
      a := Misleading(p.base, known, g, names);
    } else if p.Closure? && g !in ChosenAll(p, Children(p), known) {
      if g in Positive(p) {
        PositiveMisleads(p, known, g, names);
        a := PositiveTwice(p, g);
      } else {
        NegativeMisleads(p, known, g, names);
        a := NegativeTwice(p, g);
      }
    } else {
      a := MisleadingBelow(p, known, g, names);
    }
  }

  lemma {:induction false} MisleadingBelow(p: Ty, known: set<string>, g: string, names: set<string>) returns (a: Ty)
    requires Apart(p) && IsCompound(p) && Settled(p, known) && known + Names(p) <= names
    requires g in ChosenAll(p, Children(p), known)
    ensures Misleads(p, a, known, g, names)
    decreases p, 0, |Items(p)| + 1
  {
    ItemNames(p);
    ChosenBelow(p, known);
    var xs := MisleadingAll(p, Items(p), known, g, names);
    a := Build(p, xs);
    BuildDescribed(p, xs, Full(names, {}));
    BuildGround(p, xs);
    if UnifyTy(p, a, Full(known, {})).ok {
      BuildRuns(p, xs, Full(known, {}));
    }
  }

  lemma ItemNames(p: Ty)
    requires IsCompound(p)
    ensures NamesOf(Items(p)) == Names(p) && (Apart(p) ==> ApartAll(Items(p)))
  {
  }

  lemma ChosenBelow(p: Ty, known: set<string>)
    requires IsCompound(p)
    ensures ChosenAll(p, Children(p), known) <= ChosenAll(p, Items(p), known)
  {
    if p.Closure? {
      ClosureNames(p);
      var cs, ps, ns := Children(p), Flat(p.constraints.positive), Flat(p.constraints.negative);
      SettledConcat(p, cs + ps, ns, known);
      ChosenConcat(p, cs + ps, ns, known);
      SettledConcat(p, cs, ps, known);
      ChosenConcat(p, cs, ps, known);
    }
  }

  lemma {:induction false} MisleadingAll(context: Ty, ps: seq<Ty>, known: set<string>, g: string, names: set<string>)
      returns (xs: seq<Ty>)
    requires Below(ps, context) && ApartAll(ps) && SettledAll(context, ps, known)
    requires g in ChosenAll(context, ps, known) && known + NamesOf(ps) <= names
    ensures MisleadsAll(context, ps, xs, known, g, names)
    decreases context, 0, |ps|
  {
    NamesOfCons(ps);
    if g in Chosen(ps[0], known) {
      var x := Misleading(ps[0], known, g, names);
      xs := [x] + MakeAll(ps[1..], {});
      MisleadsFirst(context, ps, x, known, g, names);
    } else {
      var more := known + Names(ps[0]);
      var ys := MisleadingAll(context, ps[1..], more, g, names);
      xs := [Make(ps[0], {})] + ys;
      MisleadsLater(context, ps, ys, known, g, names);
    }
  }

  lemma MisleadsFirst(context: Ty, ps: seq<Ty>, x: Ty, known: set<string>, g: string, names: set<string>)
    requires ps != [] && Below(ps, context) && NamesOf(ps[1..]) <= names && Misleads(ps[0], x, known, g, names)
    ensures MisleadsAll(context, ps, [x] + MakeAll(ps[1..], {}), known, g, names)
  {
    var ys := MakeAll(ps[1..], {});
    var xs := [x] + ys;
    assert xs[1..] == ys;
    MakeAllDescribed(ps[1..], names, {});
    AllInstanceCons(ps, Full(names, {}), xs);
    var o := UnifyTy(ps[0], x, Full(known, {}));
    if o.ok {
      UnifyAllSound(context, ps[1..], ys, o.subst);
    }
  }

  lemma MisleadsLater(context: Ty, ps: seq<Ty>, ys: seq<Ty>, known: set<string>, g: string, names: set<string>)
    requires ps != [] && Below(ps, context) && Apart(ps[0]) && Names(ps[0]) <= names
    requires MisleadsAll(context, ps[1..], ys, known + Names(ps[0]), g, names)
    ensures MisleadsAll(context, ps, [Make(ps[0], {})] + ys, known, g, names)
  {
    var xs := [Make(ps[0], {})] + ys;
    assert xs[1..] == ys;
    MakeDescribed(ps[0], names, {});
    AllInstanceCons(ps, Full(names, {}), xs);
    PlainRun(ps[0], known);
  }

  // ---- Every pattern that is not settled has an actual that unification wrongly refuses

  lemma {:induction false} Refuting(p: Ty, known: set<string>, names: set<string>) returns (a: Ty)
    requires Apart(p) && !Settled(p, known) && known + Names(p) <= names
    ensures Refutes(p, a, known, names)
    decreases p, 1
  {
    if p.OpaqueState? {
      HiddenNames(p);
      assert Items(p) == [p.base] && SettledAll(p, Items(p), known) == Settled(p.base, known);
      a := Refuting(p.base, known, names);
    } else if !SettledAll(p, Items(p), known) {
      a := RefutingBelow(p, known, names);
    } else {
      var g :| g in Positive(p) - (known + NamesOf(Children(p))) && g in Negative(p);
      PositiveMisleads(p, known, g, names);
      a := PositiveTwice(p, g);
    }
  }

  lemma {:induction false} RefutingBelow(p: Ty, known: set<string>, names: set<string>) returns (a: Ty)
    requires Apart(p) && IsCompound(p) && !SettledAll(p, Items(p), known) && known + Names(p) <= names
    ensures Refutes(p, a, known, names)
    decreases p, 0, |Items(p)| + 1
  {
    ItemNames(p);
    var xs := RefutingAll(p, Items(p), known, names);
    a := Build(p, xs);
    BuildDescribed(p, xs, Full(names, {}));
    BuildGround(p, xs);
    if UnifyTy(p, a, Full(known, {})).ok {
      BuildRuns(p, xs, Full(known, {}));
    }
  }

  lemma {:induction false} RefutingAll(context: Ty, ps: seq<Ty>, known: set<string>, names: set<string>)
      returns (xs: seq<Ty>)
    requires Below(ps, context) && ApartAll(ps) && !SettledAll(context, ps, known) && known + NamesOf(ps) <= names
    ensures RefutesAll(context, ps, xs, known, names)
    decreases context, 0, |ps|
  {
    NamesOfCons(ps);
    if !Settled(ps[0], known) {
      var x := Refuting(ps[0], known, names);
      xs := [x] + MakeAll(ps[1..], {});
      RefutesFirst(context, ps, x, known, names);
    } else if Chosen(ps[0], known) !! NamesOf(ps[1..]) {
      var ys := RefutingAll(context, ps[1..], known + Names(ps[0]), names);
      xs := [Make(ps[0], {})] + ys;
      RefutesLater(context, ps, ys, known, names);
    } else {
      var g :| g in Chosen(ps[0], known) && g in NamesOf(ps[1..]);
      var x := Misleading(ps[0], known, g, names);
      xs := [x] + MakeAll(ps[1..], {});
      RefutesNext(context, ps, x, known, g, names);
    }
  }

  lemma RefutesFirst(context: Ty, ps: seq<Ty>, x: Ty, known: set<string>, names: set<string>)
    requires ps != [] && Below(ps, context) && NamesOf(ps[1..]) <= names && Refutes(ps[0], x, known, names)
    ensures RefutesAll(context, ps, [x] + MakeAll(ps[1..], {}), known, names)
  {
    var xs := [x] + MakeAll(ps[1..], {});
    assert xs[1..] == MakeAll(ps[1..], {});
    MakeAllDescribed(ps[1..], names, {});
    AllInstanceCons(ps, Full(names, {}), xs);
  }

  lemma RefutesLater(context: Ty, ps: seq<Ty>, ys: seq<Ty>, known: set<string>, names: set<string>)
    requires ps != [] && Below(ps, context) && Apart(ps[0]) && Names(ps[0]) <= names
    requires RefutesAll(context, ps[1..], ys, known + Names(ps[0]), names)
    ensures RefutesAll(context, ps, [Make(ps[0], {})] + ys, known, names)
  {
    var xs := [Make(ps[0], {})] + ys;
    assert xs[1..] == ys;
    MakeDescribed(ps[0], names, {});
    AllInstanceCons(ps, Full(names, {}), xs);
    PlainRun(ps[0], known);
  }

  /** A later component asks for the value that the constraint list did not choose. */
  lemma RefutesNext(context: Ty, ps: seq<Ty>, x: Ty, known: set<string>, g: string, names: set<string>)
    requires ps != [] && Below(ps, context) && ApartAll(ps) && NamesOf(ps[1..]) <= names
    requires Misleads(ps[0], x, known, g, names) && g in NamesOf(ps[1..])
    ensures RefutesAll(context, ps, [x] + MakeAll(ps[1..], {}), known, names)
  {
    var ys := MakeAll(ps[1..], {});
    var xs := [x] + ys;
    assert xs[1..] == ys;
    MakeAllDescribed(ps[1..], names, {});
    AllInstanceCons(ps, Full(names, {}), xs);
    var o := UnifyTy(ps[0], x, Full(known, {}));
    if o.ok {
      UnifyAllSound(context, ps[1..], ys, o.subst);
      var w := UnifyAll(context, ps[1..], ys, o.subst);
      if w.ok {
        ForcedAll(context, ps[1..], w.subst, {});
      }
    }
  }

  // ---- The border

  /** Whatever the generics in `known` are bound to, unification finds a description of every actual that has one. */
  ghost predicate IsComplete(p: Ty, known: set<string>) {
    forall s, a :: Bound(s) == known && Ground(a) && Describable(p, a, s) ==> UnifyTy(p, a, s).ok
  }

  /** Its answer is moreover contained in every description. */
  ghost predicate IsMostGeneral(p: Ty, known: set<string>) {
    forall s, a, t :: Bound(s) == known && Ground(a) && Keeps(s, t) && Instance(p, t, a) ==> GeneralAnswer(p, a, s, t)
  }

  ghost predicate GeneralAnswer(p: Ty, a: Ty, s: Subst, t: Subst) {
    UnifyTy(p, a, s).ok && Keeps(UnifyTy(p, a, s).subst, t)
  }

  lemma FullBinds(known: set<string>, names: set<string>)
    requires known <= names
    ensures Bound(Full(known, {})) == known && Keeps(Full(known, {}), Full(names, {}))
  {
    assert forall n :: n in known ==> n in Full(known, {});
  }

  /** A pattern that asks for no capability twice is complete if and only if it is settled. */
  lemma CompleteIffSettled(p: Ty, known: set<string>)
    requires Apart(p)
    ensures IsComplete(p, known) <==> Settled(p, known)
  {
    if Settled(p, known) {
      SettledIsComplete(p, known);
    } else {
      var names := known + Names(p);
      var a := Refuting(p, known, names);
      FullBinds(known, names);
      assert Describable(p, a, Full(known, {}));
    }
  }

  /** Every settled pattern is complete, whatever it asks for. */
  lemma SettledIsComplete(p: Ty, known: set<string>)
    requires Settled(p, known)
    ensures IsComplete(p, known)
  {
    forall s, a | Bound(s) == known && Ground(a) && Describable(p, a, s)
      ensures UnifyTy(p, a, s).ok
    {
      UnifyExact(p, a, s);
    }
  }

  /** The answer for such a pattern is most general if and only if no constraint list chooses a generic. */
  lemma MostGeneralIffNothingChosen(p: Ty, known: set<string>)
    requires Apart(p)
    ensures IsMostGeneral(p, known) <==> Chosen(p, known) == {}
  {
    if Chosen(p, known) == {} {
      NothingChosenIsMostGeneral(p, known);
    } else if Settled(p, known) {
      ChoiceIsNotGeneral(p, known);
    } else {
      RefusalIsNotGeneral(p, known);
    }
  }

  lemma NothingChosenIsMostGeneral(p: Ty, known: set<string>)
    requires Chosen(p, known) == {}
    ensures IsMostGeneral(p, known)
  {
    NothingChosenSettles(p, known);
    forall s, a, t | Bound(s) == known && Ground(a) && Keeps(s, t) && Instance(p, t, a)
      ensures GeneralAnswer(p, a, s, t)
    {
      UnifyComplete(p, a, s, t);
    }
  }

  lemma NotGeneral(p: Ty, a: Ty, s: Subst, t: Subst)
    requires Ground(a) && Keeps(s, t) && Instance(p, t, a) && !GeneralAnswer(p, a, s, t)
    ensures !IsMostGeneral(p, Bound(s))
  {
  }

  lemma MisledIsNotGeneral(p: Ty, a: Ty, known: set<string>, g: string, names: set<string>)
    requires Misleads(p, a, known, g, names) && known <= names && g in names
    ensures !IsMostGeneral(p, known)
  {
    FullBinds(known, names);
    assert Full(names, {})[g] == BOOL;
    NotGeneral(p, a, Full(known, {}), Full(names, {}));
  }

  lemma ChoiceIsNotGeneral(p: Ty, known: set<string>)
    requires Apart(p) && Settled(p, known) && Chosen(p, known) != {}
    ensures !IsMostGeneral(p, known)
  {
    var names := known + Names(p);
    var g :| g in Chosen(p, known);
    ChosenIsNew(p, known);
    var a := Misleading(p, known, g, names);
    MisledIsNotGeneral(p, a, known, g, names);
  }

  lemma RefusalIsNotGeneral(p: Ty, known: set<string>)
    requires Apart(p) && !Settled(p, known)
    ensures !IsMostGeneral(p, known)
  {
    var names := known + Names(p);
    var a := Refuting(p, known, names);
    FullBinds(known, names);
    NotGeneral(p, a, Full(known, {}), Full(names, {}));
  }

  // ---- Asking twice for the same capability

  /** What one constraint finds, the same constraint behind it finds again. */
  lemma {:induction false} AskTwice(context: Ty, r: ConstraintRef, qs: seq<ConstraintRef>, k: nat, s: Subst)
    requires RefsBelow([r], context) && RefsBelow([r, r], context) && GroundRefs(qs)
    requires UnifyRefs(context, [r], qs, k, s).ok
    ensures UnifyRefs(context, [r, r], qs, k, s).ok
    decreases |qs| - k
  {
    var rs := [r, r];
    assert rs[1..] == [r] && [r][1..] == [];
    if RefMatches(r, qs[k]) && UnifyAll(context, r.args, qs[k].args, s).ok {
      var o := UnifyAll(context, r.args, qs[k].args, s);
      FindAgain(context, r, qs, k, s);
    } else {
      AskTwice(context, r, qs, k + 1, s);
    }
  }

  lemma FindAgain(context: Ty, r: ConstraintRef, qs: seq<ConstraintRef>, k: nat, s: Subst)
    requires RefsBelow([r], context) && Below(r.args, context) && GroundRefs(qs) && k < |qs| && RefMatches(r, qs[k])
    requires UnifyAll(context, r.args, qs[k].args, s).ok
    ensures UnifyRefs(context, [r], qs, 0, UnifyAll(context, r.args, qs[k].args, s).subst).ok
  {
    var o := UnifyAll(context, r.args, qs[k].args, s);
    assert GroundRef(qs[k]);
    UnifyAllSound(context, r.args, qs[k].args, s);
    AllInstanceBinds(context, r.args, o.subst, qs[k].args);
    ChosenAllIsNew(context, r.args, NamesOf(r.args));
    NothingChosenSettlesAll(context, r.args, NamesOf(r.args));
    ArrivesAll(context, r.args, qs[k].args, o.subst, o.subst, NamesOf(r.args), {});
    assert [r][1..] == [];
    EarlierSucceeds(context, [r], qs, 0, k, o.subst);
  }

  function Capability(t: Ty): ConstraintRef { ConstraintRef(0, "Cap", [t]) }

  function CapableClosure(cs: seq<ConstraintRef>): Ty { Closure(Prim(Void), [], ConstraintBounds(cs, [])) }

  /** A closure that can do something with closures that can do something with `T`. */
  function Needs(): ConstraintRef { Capability(Wanted()) }

  /** Asking for it twice: the first answer chooses `T`, the second meets it again. */
  function Repeats(): Ty { CapableClosure([Needs(), Needs()]) }

  /** The second meeting does no harm: this pattern is complete without being settled, because what the first
      constraint found serves the second one as well. */
  lemma RepeatIsHarmless()
    ensures !Settled(Repeats(), {}) && IsComplete(Repeats(), {})
  {
    RepeatIsNotSettled();
    forall s, a | Bound(s) == {} && Ground(a) && Describable(Repeats(), a, s)
      ensures UnifyTy(Repeats(), a, s).ok
    {
      var t :| Keeps(s, t) && Instance(Repeats(), t, a);
      RepeatSucceeds(a, s, t);
    }
  }

  lemma NamesOfOne(p: Ty)
    ensures NamesOf([p]) == Names(p)
  {
    NamesOfCons([p]);
  }

  lemma NamesOfLeaves(g: string)
    ensures NamesOf([Prim(Void)]) == {} && NamesOf([Generic(g)]) == {g}
  {
    NamesOfOne(Prim(Void));
    NamesOfOne(Generic(g));
    assert Names(Generic(g)) == {g} && Names(Prim(Void)) == {};
  }

  lemma LeavesAreSettled(context: Ty, g: string)
    requires Below([Prim(Void), Generic(g)], context)
    ensures SettledAll(context, [Prim(Void), Generic(g)], {}) && ChosenAll(context, [Prim(Void)], {}) == {}
  {
    assert [Prim(Void), Generic(g)][1..] == [Generic(g)] && [Generic(g)][1..] == [] && [Prim(Void)][1..] == [];
    assert Chosen(Prim(Void), {}) == {} && Settled(Prim(Void), {});
    assert Chosen(Generic(g), {}) == {} && Settled(Generic(g), {});
    assert Names(Prim(Void)) == {} && {} + Names(Prim(Void)) == {};
    assert SettledAll(context, [Generic(g)], {});
  }

  /** A closure that asks for one capability of a generic chooses it. */
  lemma ChoosesOne(p: Ty, g: string)
    requires p.Closure? && Children(p) == [Prim(Void)]
    requires Flat(p.constraints.positive) == [Generic(g)] && Flat(p.constraints.negative) == []
    ensures Names(p) == {g} && Chosen(p, {}) == {g} && Settled(p, {})
  {
    NamesOfLeaves(g);
    ClosureNames(p);
    assert Items(p) == [Prim(Void), Generic(g)];
    LeavesAreSettled(p, g);
  }

  lemma InnerNames()
    ensures var w := Wanted();
            Names(w) == {"T"} && Chosen(w, {}) == {"T"} && Settled(w, {})
  {
    var w := Wanted();
    var rs := w.constraints.positive;
    assert rs[1..] == [] && Flat(rs) == [Generic("T")] + Flat(rs[1..]);
    ChoosesOne(w, "T");
  }

  lemma MetAgain(context: Ty, x: Ty, w: Ty, g: string)
    requires Below([x, w, w], context) && Names(x) == {} && g in Chosen(w, {}) && g in Names(w)
    ensures !SettledAll(context, [x, w, w], {})
  {
    assert [x, w, w][1..] == [w, w] && [w, w][1..] == [w] && [w][0] == w;
    assert {} + Names(x) == {} && g in NamesOf([w]);
  }

  lemma FlatCapabilities(w: Ty)
    ensures Flat([Capability(w), Capability(w)]) == [w, w]
  {
    var one, two := [Capability(w)], [Capability(w), Capability(w)];
    assert two[1..] == one && one[1..] == [];
    assert Flat(one) == [w] + Flat(one[1..]) == [w];
    assert Flat(two) == [w] + Flat(two[1..]);
  }

  lemma CapableItems(w: Ty)
    ensures Items(CapableClosure([Capability(w), Capability(w)])) == [Prim(Void), w, w]
  {
    FlatCapabilities(w);
    assert Flat([]) == [];
  }

  lemma MetAgainInside(p: Ty, x: Ty, w: Ty, g: string)
    requires Items(p) == [x, w, w] && Names(x) == {} && g in Chosen(w, {}) && g in Names(w)
    ensures !Settled(p, {})
  {
    MetAgain(p, x, w, g);
  }

  lemma AskedTwice(w: Ty, g: string)
    requires g in Chosen(w, {}) && g in Names(w)
    ensures !Settled(CapableClosure([Capability(w), Capability(w)]), {})
  {
    CapableItems(w);
    MetAgainInside(CapableClosure([Capability(w), Capability(w)]), Prim(Void), w, g);
  }

  lemma RepeatIsNotSettled()
    ensures !Settled(Repeats(), {})
  {
    InnerNames();
    AskedTwice(Wanted(), "T");
  }

  lemma {:induction false} RepeatSucceeds(a: Ty, s: Subst, t: Subst)
    requires Bound(s) == {} && Ground(a) && Instance(Repeats(), t, a)
    ensures UnifyTy(Repeats(), a, s).ok
    decreases a
  {
    var p := Repeats();
    if a.OpaqueState? {
      RepeatSucceeds(a.base, s, t);
    } else {
      var rs, qs := p.constraints.positive, a.constraints.positive;
      GroundFacing(p, a);
      VoidSucceeds(p, Facing(p, a), s, t);
      assert HasCounterpart(rs[0], t, qs);
      OneNeedSucceeds(p, qs, s, t);
      AskTwice(p, Needs(), qs, 0, s);
      assert UnifyRefs(p, p.constraints.negative, a.constraints.negative, 0, UnifyRefs(p, rs, qs, 0, s).subst).ok;
    }
  }

  lemma VoidSucceeds(p: Ty, qs: seq<Ty>, s: Subst, t: Subst)
    requires p.Closure? && Children(p) == [Prim(Void)] && |qs| == 1 && AllInstance(Children(p), t, qs) && GroundAll(qs)
    requires Bound(s) == {}
    ensures UnifyAll(p, Children(p), qs, s) == Outcome(true, s)
  {
    var ps := Children(p);
    assert ps[1..] == [] && Names(Prim(Void)) == {} && NamesOf(ps) == {};
    ChosenAllIsNew(p, ps, {});
    NothingChosenSettlesAll(p, ps, {});
    NothingKept(s, t);
    ArrivesAll(p, ps, qs, s, t, {}, {});
    UnifyAllFrame(p, ps, qs, s);
    SameEverywhere(s, UnifyAll(p, ps, qs, s).subst);
  }

  lemma NothingKept(s: Subst, t: Subst)
    requires Bound(s) == {}
    ensures KeepsBut(s, t, {})
  {
    assert forall n :: n in s ==> n !in Bound(s);
  }

  lemma SameEverywhere(s: Subst, t: Subst)
    requires SameOutside(s, t, {})
    ensures s == t
  {
  }

  lemma OneNeedSucceeds(context: Ty, qs: seq<ConstraintRef>, s: Subst, t: Subst)
    requires RefsBelow([Needs()], context) && HasCounterpart(Needs(), t, qs) && GroundRefs(qs) && Bound(s) == {}
    ensures UnifyRefs(context, [Needs()], qs, 0, s).ok
  {
    var rs, w := [Needs()], Wanted();
    InnerNames();
    FlatBelow(rs, context);
    assert rs[1..] == [] && Flat(rs) == [w] && [w][1..] == [];
    assert NamesOf([]) == {} && SettledAll(context, [w], {});
    NothingKept(s, t);
    SearchSucceeds(context, rs, qs, s, t, {}, {});
  }

  // ---- A concrete pattern that is not complete

  function PairOf(x: Ty, y: Ty): Ty { Named(None, "Pair", [x, y]) }

  function Wanted(): Ty { CapableClosure([Capability(Generic("T"))]) }

  function Offered(): Ty { CapableClosure([Capability(Prim(I32)), Capability(Prim(Bool))]) }

  lemma FirstCandidateWins()
    ensures UnifyBounds(Wanted(), Offered(), map[]) == Outcome(true, map["T" := Prim(I32)])
  {
    var p := Wanted();
    var ps, qs := p.constraints.positive, Offered().constraints.positive;
    assert ps[0].args == [Generic("T")] && qs[0].args == [Prim(I32)];
    assert UnifyTy(Generic("T"), Prim(I32), map[]) == Outcome(true, map["T" := Prim(I32)]);
    assert UnifyAll(p, ps[0].args, qs[0].args, map[]) == Outcome(true, map["T" := Prim(I32)]);
    assert UnifyRefs(p, ps, qs, 0, map[]) == Outcome(true, map["T" := Prim(I32)]);
  }

  lemma ClosureFixesFirst()
    ensures UnifyTy(Wanted(), Offered(), map[]) == Outcome(true, map["T" := Prim(I32)])
  {
    var p, a := Wanted(), Offered();
    FirstCandidateWins();
    assert Children(p) == [Prim(Void)] == Facing(p, a);
    assert UnifyTy(Prim(Void), Prim(Void), map[]) == Outcome(true, map[]);
    assert UnifyAll(p, Children(p), Facing(p, a), map[]) == Outcome(true, map[]);
  }

  lemma SecondCandidateDescribes()
    ensures Instance(Wanted(), map["T" := Prim(Bool)], Offered())
  {
    var p, a := Wanted(), Offered();
    var t: Subst := map["T" := Prim(Bool)];
    assert RefInstance(p.constraints.positive[0], t, a.constraints.positive[1]);
    assert HasCounterpart(p.constraints.positive[0], t, a.constraints.positive);
    assert Children(p) == [Prim(Void)] == Facing(p, a);
  }

  lemma PairFails(p: Ty, a: Ty)
    requires p == PairOf(Wanted(), Generic("T")) && a == PairOf(Offered(), Prim(Bool))
    ensures !UnifyTy(p, a, map[]).ok
  {
    ClosureFixesFirst();
    var bound: Subst := map["T" := Prim(I32)];
    assert !UnifyTy(Generic("T"), Prim(Bool), bound).ok;
    SecondFails(Wanted(), Generic("T"), Offered(), Prim(Bool), map[], bound);
  }

  lemma SecondFails(x: Ty, y: Ty, a: Ty, b: Ty, s: Subst, t: Subst)
    requires UnifyTy(x, a, s) == Outcome(true, t) && !UnifyTy(y, b, t).ok
    ensures !UnifyTy(PairOf(x, y), PairOf(a, b), s).ok
  {
    var p := PairOf(x, y);
    assert [x, y][1..] == [y] && [a, b][1..] == [b];
    assert !UnifyAll(p, [y], [b], t).ok;
    assert !UnifyAll(p, [x, y], [a, b], s).ok;
    assert Children(p) == [x, y] && Facing(p, PairOf(a, b)) == [a, b];
  }

  /** The constraint search does not come back once the closure has been matched: here `T = bool`
      describes the actual, but the first candidate fixes `T = i32` and the second component fails. */
  lemma ConstraintChoiceIsFinal()
    ensures
      var p := PairOf(Wanted(), Generic("T"));
      var a := PairOf(Offered(), Prim(Bool));
      Instance(p, map["T" := Prim(Bool)], a) && !UnifyTy(p, a, map[]).ok
  {
    var p, a := PairOf(Wanted(), Generic("T")), PairOf(Offered(), Prim(Bool));
    PairFails(p, a);
    SecondCandidateDescribes();
    assert Instance(Generic("T"), map["T" := Prim(Bool)], Prim(Bool));
    assert Children(p) == p.args && Facing(p, a) == a.args;
  }
}
