/** Actuals made from a pattern, and how the constraint search runs on them. */
module UnifyActuals {
  import opened Types
  import opened Substitution
  import opened Unify
  import opened UnifyBorder

  // ---- Actuals built from a pattern

  predicate IsCompound(p: Ty) {
    !p.Hole? && !p.Generic? && !p.OpaqueState?
  }

  /** The same head over other children. */
  function WithChildren(p: Ty, cs: seq<Ty>, bounds: ConstraintBounds): Ty
    requires IsCompound(p) && |cs| == |Children(p)|
  {
    match p
    case Prim(_) => p
    case Pointer(nullable, view, _) => Pointer(nullable, view, cs[0])
    case Array(len, _) => Array(len, cs[0])
    case Slice(view, _) => Slice(view, cs[0])
    case Named(defId, name, _) => Named(defId, name, cs)
    case GeneratedFuture(name, _, cancelSafe, abortable, affineState, state) =>
      GeneratedFuture(name, cs[0], cancelSafe, abortable, affineState,
                      seq(|state|, i requires 0 <= i < |state| => Field(state[i].name, cs[i + 1])))
    case DynamicInterface(id, name, _) => DynamicInterface(id, name, cs)
    case OpaqueReturn(keyId, _, _) => OpaqueReturn(keyId, cs, ConstraintBounds([], []))
    case Function(isUnsafe, abi, _, _) => Function(isUnsafe, abi, cs[0], cs[1..])
    case Closure(_, _, _) => Closure(cs[0], cs[1..], bounds)
    case ClosureInstance(id, _, params, _) => ClosureInstance(id, cs[0], cs[1..|params| + 1], cs[|params| + 1..])
  }

  lemma WithChildrenFits(p: Ty, cs: seq<Ty>, bounds: ConstraintBounds)
    requires IsCompound(p) && |cs| == |Children(p)|
    ensures var a := WithChildren(p, cs, bounds);
            && IsCompound(a) && HeadMatches(p, a) && Facing(p, a) == cs && Children(a) == cs
            && a.Closure? == p.Closure? && (p.Closure? ==> a.constraints == bounds)
  {
    if p.GeneratedFuture? {
      var a := WithChildren(p, cs, bounds);
      assert Children(a) == [cs[0]] + FieldTys(a.state) == cs;
    } else if p.ClosureInstance? {
      var n := |p.params| + 1;
      assert [cs[0]] + cs[1..n] + cs[n..] == cs;
    } else if p.Function? || p.Closure? {
      assert [cs[0]] + cs[1..] == cs;
    }
  }

  /** Constraints with the same heads over other arguments. */
  function Regroup(rs: seq<ConstraintRef>, xs: seq<Ty>): (qs: seq<ConstraintRef>)
    requires |xs| == |Flat(rs)|
    ensures |qs| == |rs| && Flat(qs) == xs && forall i :: 0 <= i < |rs| ==> RefMatches(rs[i], qs[i])
    decreases |rs|
  {
    if rs == [] then []
    else
      var n := |rs[0].args|;
      var rest := Regroup(rs[1..], xs[n..]);
      var qs := [ConstraintRef(rs[0].defId, rs[0].name, xs[..n])] + rest;
      assert qs[1..] == rest && xs[..n] + xs[n..] == xs;
      qs
  }

  /** The actual whose items are `xs`: every constraint has just its own counterpart. */
  function Build(p: Ty, xs: seq<Ty>): Ty
    requires IsCompound(p) && |xs| == |Items(p)|
  {
    var n := |Children(p)|;
    WithChildren(p, xs[..n], if p.Closure? then BoundsOf(p, xs[n..]) else ConstraintBounds([], []))
  }

  function BoundsOf(p: Ty, xs: seq<Ty>): ConstraintBounds
    requires p.Closure? && |xs| == |Flat(p.constraints.positive)| + |Flat(p.constraints.negative)|
  {
    var n := |Flat(p.constraints.positive)|;
    ConstraintBounds(Regroup(p.constraints.positive, xs[..n]), Regroup(p.constraints.negative, xs[n..]))
  }

  const BOOL := Prim(Bool)
  const ODD := Prim(I32)

  function Value(odd: set<string>, n: string): Ty {
    if n in odd then ODD else BOOL
  }

  /** The ground type that the pattern describes when the generics in `odd` are `i32` and all others `bool`. */
  function Make(p: Ty, odd: set<string>): Ty
    decreases p
  {
    if p.Hole? then BOOL
    else if p.Generic? then Value(odd, p.name)
    else if p.OpaqueState? then Make(p.base, odd)
    else Build(p, seq(|Items(p)|, i requires 0 <= i < |Items(p)| => Make(Items(p)[i], odd)))
  }

  function MakeAll(ps: seq<Ty>, odd: set<string>): (r: seq<Ty>)
    ensures |r| == |ps|
  {
    seq(|ps|, i requires 0 <= i < |ps| => Make(ps[i], odd))
  }

  /** The bindings that make a pattern with generics in `names` into such a type. */
  function Full(names: set<string>, odd: set<string>): Subst {
    map n | n in names :: Value(odd, n)
  }

  // ---- What such actuals are described by

  lemma {:induction false} RegroupDescribed(rs: seq<ConstraintRef>, xs: seq<Ty>, t: Subst, i: nat)
    requires |xs| == |Flat(rs)| && AllInstance(Flat(rs), t, xs) && i < |rs|
    ensures RefInstance(rs[i], t, Regroup(rs, xs)[i])
    decreases |rs|
  {
    var n := |rs[0].args|;
    assert forall k :: 0 <= k < n ==> Flat(rs)[k] == rs[0].args[k];
    assert forall k :: 0 <= k < |Flat(rs[1..])| ==> Flat(rs)[n + k] == Flat(rs[1..])[k];
    if i > 0 {
      forall k | 0 <= k < |Flat(rs[1..])|
        ensures Instance(Flat(rs[1..])[k], t, xs[n..][k])
      {
        assert Instance(Flat(rs)[n + k], t, xs[n + k]);
      }
      RegroupDescribed(rs[1..], xs[n..], t, i - 1);
    }
  }

  lemma {:induction false} RegroupGround(rs: seq<ConstraintRef>, xs: seq<Ty>)
    requires |xs| == |Flat(rs)| && GroundAll(xs)
    ensures GroundRefs(Regroup(rs, xs))
    decreases |rs|
  {
    if rs != [] {
      var n := |rs[0].args|;
      RegroupGround(rs[1..], xs[n..]);
      var qs := Regroup(rs, xs);
      assert qs == [qs[0]] + Regroup(rs[1..], xs[n..]);
      assert GroundRef(qs[0]);
    }
  }

  lemma RefsDescribed(
    rs: seq<ConstraintRef>, xs: seq<Ty>, t: Subst, before: seq<ConstraintRef>, after: seq<ConstraintRef>)
    requires |xs| == |Flat(rs)| && AllInstance(Flat(rs), t, xs)
    ensures RefsInstance(rs, t, before + Regroup(rs, xs) + after)
  {
    var qs := before + Regroup(rs, xs) + after;
    forall i | 0 <= i < |rs|
      ensures HasCounterpart(rs[i], t, qs)
    {
      RegroupDescribed(rs, xs, t, i);
      assert qs[|before| + i] == Regroup(rs, xs)[i];
    }
  }

  lemma ClosureDescribed(p: Ty, cs: seq<Ty>, bounds: ConstraintBounds, t: Subst)
    requires p.Closure? && |cs| == |Children(p)| && AllInstance(Children(p), t, cs)
    requires RefsInstance(p.constraints.positive, t, bounds.positive)
    requires RefsInstance(p.constraints.negative, t, bounds.negative)
    ensures Instance(p, t, WithChildren(p, cs, bounds))
  {
    WithChildrenFits(p, cs, bounds);
  }

  lemma ClosureGround(p: Ty, cs: seq<Ty>, bounds: ConstraintBounds)
    requires p.Closure? && |cs| == |Children(p)| && GroundAll(cs)
    requires GroundRefs(bounds.positive) && GroundRefs(bounds.negative)
    ensures Ground(WithChildren(p, cs, bounds))
  {
    WithChildrenFits(p, cs, bounds);
  }

  /** The items of a closure pattern and of an actual built from it, part by part. */
  lemma ClosureParts(p: Ty, xs: seq<Ty>)
    requires p.Closure? && |xs| == |Items(p)|
    ensures var n, m := |Children(p)|, |Flat(p.constraints.positive)|;
            && Items(p)[..n] == Children(p)
            && Items(p)[n..n + m] == Flat(p.constraints.positive)
            && Items(p)[n + m..] == Flat(p.constraints.negative)
            && xs[..n] + xs[n..n + m] + xs[n + m..] == xs
            && Build(p, xs) == WithChildren(p, xs[..n], BoundsOf(p, xs[n..]))
            && BoundsOf(p, xs[n..]).positive == Regroup(p.constraints.positive, xs[n..n + m])
            && BoundsOf(p, xs[n..]).negative == Regroup(p.constraints.negative, xs[n + m..])
  {
    var n, m := |Children(p)|, |Flat(p.constraints.positive)|;
    assert xs[n..][..m] == xs[n..n + m] && xs[n..][m..] == xs[n + m..];
  }

  lemma SliceDescribed(ps: seq<Ty>, xs: seq<Ty>, t: Subst, lo: nat, hi: nat)
    requires |ps| == |xs| && lo <= hi <= |ps| && AllInstance(ps, t, xs)
    ensures AllInstance(ps[lo..hi], t, xs[lo..hi])
  {
    forall i | 0 <= i < hi - lo
      ensures Instance(ps[lo..hi][i], t, xs[lo..hi][i])
    {
      assert Instance(ps[lo + i], t, xs[lo + i]);
    }
  }

  lemma BuildDescribed(p: Ty, xs: seq<Ty>, t: Subst)
    requires IsCompound(p) && |xs| == |Items(p)| && AllInstance(Items(p), t, xs)
    ensures Instance(p, t, Build(p, xs))
  {
    if p.Closure? {
      BuiltClosureDescribed(p, xs, t);
    } else {
      assert xs[..|xs|] == xs;
      WithChildrenFits(p, xs, ConstraintBounds([], []));
    }
  }

  lemma BuiltClosureDescribed(p: Ty, xs: seq<Ty>, t: Subst)
    requires p.Closure? && |xs| == |Items(p)| && AllInstance(Items(p), t, xs)
    ensures Instance(p, t, Build(p, xs))
  {
    var n, m := |Children(p)|, |Flat(p.constraints.positive)|;
    ClosureParts(p, xs);
    SliceDescribed(Items(p), xs, t, 0, n);
    SliceDescribed(Items(p), xs, t, n, n + m);
    SliceDescribed(Items(p), xs, t, n + m, |xs|);
    BoundsDescribed(p, xs[n..n + m], xs[n + m..], t);
    ClosureDescribed(p, xs[..n], BoundsOf(p, xs[n..]), t);
  }

  lemma BoundsDescribed(p: Ty, xs: seq<Ty>, ys: seq<Ty>, t: Subst)
    requires p.Closure? && |xs| == |Flat(p.constraints.positive)| && |ys| == |Flat(p.constraints.negative)|
    requires AllInstance(Flat(p.constraints.positive), t, xs) && AllInstance(Flat(p.constraints.negative), t, ys)
    ensures RefsInstance(p.constraints.positive, t, Regroup(p.constraints.positive, xs))
    ensures RefsInstance(p.constraints.negative, t, Regroup(p.constraints.negative, ys))
  {
    OwnRefsDescribed(p.constraints.positive, xs, t);
    OwnRefsDescribed(p.constraints.negative, ys, t);
  }

  lemma OwnRefsDescribed(rs: seq<ConstraintRef>, xs: seq<Ty>, t: Subst)
    requires |xs| == |Flat(rs)| && AllInstance(Flat(rs), t, xs)
    ensures RefsInstance(rs, t, Regroup(rs, xs))
  {
    RefsDescribed(rs, xs, t, [], []);
    assert [] + Regroup(rs, xs) + [] == Regroup(rs, xs);
  }

  lemma BuildGround(p: Ty, xs: seq<Ty>)
    requires IsCompound(p) && |xs| == |Items(p)| && GroundAll(xs)
    ensures Ground(Build(p, xs))
  {
    if p.Closure? {
      var n, m := |Children(p)|, |Flat(p.constraints.positive)|;
      ClosureParts(p, xs);
      RegroupGround(p.constraints.positive, xs[n..n + m]);
      RegroupGround(p.constraints.negative, xs[n + m..]);
      ClosureGround(p, xs[..n], BoundsOf(p, xs[n..]));
    } else {
      assert xs[..|xs|] == xs;
      WithChildrenFits(p, xs, ConstraintBounds([], []));
    }
  }

  lemma {:induction false} MakeDescribed(p: Ty, names: set<string>, odd: set<string>)
    requires Names(p) <= names
    ensures Instance(p, Full(names, odd), Make(p, odd)) && Ground(Make(p, odd)) && !Make(p, odd).OpaqueState?
    decreases p
  {
    if p.OpaqueState? {
      HiddenNames(p);
      MakeDescribed(p.base, names, odd);
    } else if IsCompound(p) {
      var xs := MakeAll(Items(p), odd);
      forall i | 0 <= i < |xs|
        ensures Instance(Items(p)[i], Full(names, odd), xs[i]) && Ground(xs[i])
      {
        MakeDescribed(Items(p)[i], names, odd);
      }
      MakeIsBuild(p, odd);
      BuildDescribed(p, xs, Full(names, odd));
      BuildGround(p, xs);
    }
  }

  lemma MakeIsBuild(p: Ty, odd: set<string>)
    requires IsCompound(p)
    ensures Make(p, odd) == Build(p, MakeAll(Items(p), odd)) && IsCompound(Make(p, odd))
  {
    var xs := seq(|Items(p)|, i requires 0 <= i < |Items(p)| => Make(Items(p)[i], odd));
    assert xs == MakeAll(Items(p), odd);
    var n := |Children(p)|;
    WithChildrenFits(p, xs[..n], if p.Closure? then BoundsOf(p, xs[n..]) else ConstraintBounds([], []));
  }

  lemma MakeAllDescribed(ps: seq<Ty>, names: set<string>, odd: set<string>)
    requires NamesOf(ps) <= names
    ensures AllInstance(ps, Full(names, odd), MakeAll(ps, odd)) && GroundAll(MakeAll(ps, odd))
  {
    forall i | 0 <= i < |ps|
      ensures Instance(ps[i], Full(names, odd), MakeAll(ps, odd)[i]) && Ground(MakeAll(ps, odd)[i])
    {
      assert Names(ps[i]) <= NamesOf(ps);
      MakeDescribed(ps[i], names, odd);
    }
  }

  // ---- Patterns that ask for no capability twice

  /** No two constraints of a list have the same name and number of arguments. */
  ghost predicate NoneTwice(rs: seq<ConstraintRef>) {
    forall i, j :: 0 <= i < j < |rs| ==> !RefMatches(rs[i], rs[j])
  }

  ghost predicate Apart(p: Ty)
    decreases p
  {
    && (p.Closure? ==> NoneTwice(p.constraints.positive) && NoneTwice(p.constraints.negative))
    && forall i :: 0 <= i < |Items(p)| ==> Apart(Items(p)[i])
  }

  ghost predicate ApartAll(ps: seq<Ty>) {
    forall i :: 0 <= i < |ps| ==> Apart(ps[i])
  }

  ghost predicate SameHeads(rs: seq<ConstraintRef>, qs: seq<ConstraintRef>) {
    |rs| <= |qs| && forall i :: 0 <= i < |rs| ==> RefMatches(rs[i], qs[i])
  }

  /** The generics of `ps` have the values they were given. */
  ghost predicate Has(s: Subst, names: set<string>, odd: set<string>) {
    forall n :: n in names ==> n in s && s[n] == Value(odd, n)
  }

  /** What describes the actual made from a pattern can only have the values it was made with. */
  lemma {:induction false} Forced(p: Ty, s: Subst, odd: set<string>)
    requires Apart(p) && Instance(p, s, Make(p, odd))
    ensures Has(s, Names(p), odd)
    decreases p, 2
  {
    if p.OpaqueState? {
      HiddenNames(p);
      assert Items(p)[0] == p.base;
      Forced(p.base, s, odd);
    } else if IsCompound(p) {
      MakeIsBuild(p, odd);
      if p.Closure? {
        ForcedClosure(p, s, odd);
      } else {
        var xs := MakeAll(Items(p), odd);
        assert xs[..|xs|] == xs;
        WithChildrenFits(p, xs, ConstraintBounds([], []));
        ChildNames(p);
        ForcedAll(p, Children(p), s, odd);
      }
    }
  }

  lemma {:induction false} ForcedAll(context: Ty, ps: seq<Ty>, s: Subst, odd: set<string>)
    requires Below(ps, context) && ApartAll(ps) && AllInstance(ps, s, MakeAll(ps, odd))
    ensures Has(s, NamesOf(ps), odd)
    decreases context, 0, 0
  {
    forall n | n in NamesOf(ps)
      ensures n in s && s[n] == Value(odd, n)
    {
      var i :| 0 <= i < |ps| && n in Names(ps[i]);
      Forced(ps[i], s, odd);
    }
  }

  lemma {:induction false} ForcedClosure(p: Ty, s: Subst, odd: set<string>)
    requires p.Closure? && Apart(p) && Instance(p, s, Build(p, MakeAll(Items(p), odd)))
    ensures Has(s, Names(p), odd)
    decreases p, 1
  {
    ClosureNames(p);
    ApartParts(p);
    ClosureInstanceParts(p, s, odd);
    ForcedAll(p, Children(p), s, odd);
    ForcedRefs(p, p.constraints.positive, s, odd);
    ForcedRefs(p, p.constraints.negative, s, odd);
  }

  /** What the made actual says about the parts of a closure. */
  lemma ClosureInstanceParts(p: Ty, s: Subst, odd: set<string>)
    requires p.Closure? && Instance(p, s, Build(p, MakeAll(Items(p), odd)))
    ensures AllInstance(Children(p), s, MakeAll(Children(p), odd))
    ensures RefsInstance(p.constraints.positive, s,
                         Regroup(p.constraints.positive, MakeAll(Flat(p.constraints.positive), odd)))
    ensures RefsInstance(p.constraints.negative, s,
                         Regroup(p.constraints.negative, MakeAll(Flat(p.constraints.negative), odd)))
  {
    var xs, n := MakeAll(Items(p), odd), |Children(p)|;
    ClosureParts(p, xs);
    MakeAllParts(p, odd);
    WithChildrenFits(p, xs[..n], BoundsOf(p, xs[n..]));
  }

  lemma MakeThree(ps: seq<Ty>, qs: seq<Ty>, rs: seq<Ty>, odd: set<string>)
    ensures var xs, n, m := MakeAll(ps + qs + rs, odd), |ps|, |qs|;
            && xs[..n] == MakeAll(ps, odd)
            && xs[n..n + m] == MakeAll(qs, odd)
            && xs[n + m..] == MakeAll(rs, odd)
  {
  }

  lemma MakeAllParts(p: Ty, odd: set<string>)
    requires p.Closure?
    ensures var xs := MakeAll(Items(p), odd);
            var n, m := |Children(p)|, |Flat(p.constraints.positive)|;
            && xs[..n] == MakeAll(Children(p), odd)
            && xs[n..n + m] == MakeAll(Flat(p.constraints.positive), odd)
            && xs[n + m..] == MakeAll(Flat(p.constraints.negative), odd)
  {
    MakeThree(Children(p), Flat(p.constraints.positive), Flat(p.constraints.negative), odd);
  }

  lemma ApartSlice(ps: seq<Ty>, lo: nat, hi: nat)
    requires lo <= hi <= |ps| && ApartAll(ps)
    ensures ApartAll(ps[lo..hi])
  {
  }

  lemma ApartParts(p: Ty)
    requires p.Closure? && Apart(p)
    ensures ApartAll(Children(p)) && ApartAll(Flat(p.constraints.positive)) && ApartAll(Flat(p.constraints.negative))
  {
    var n, m := |Children(p)|, |Flat(p.constraints.positive)|;
    ClosureParts(p, Items(p));
    ApartSlice(Items(p), 0, n);
    ApartSlice(Items(p), n, n + m);
    ApartSlice(Items(p), n + m, |Items(p)|);
  }

  /** If no constraint is asked for twice, each one has its counterpart in its own place. */
  lemma OwnCounterpart(rs: seq<ConstraintRef>, qs: seq<ConstraintRef>, s: Subst, i: nat)
    requires NoneTwice(rs) && SameHeads(rs, qs) && |qs| == |rs| && RefsInstance(rs, s, qs) && i < |rs|
    ensures RefInstance(rs[i], s, qs[i])
  {
    var j := Counterpart(rs[i], s, qs);
    OnlyOneMatches(rs, qs, i);
  }

  lemma Counterpart(r: ConstraintRef, s: Subst, qs: seq<ConstraintRef>) returns (j: nat)
    requires HasCounterpart(r, s, qs)
    ensures j < |qs| && RefInstance(r, s, qs[j]) && RefMatches(r, qs[j])
  {
    j :| 0 <= j < |qs| && RefInstance(r, s, qs[j]);
  }

  lemma {:induction false} ForcedRefs(context: Ty, rs: seq<ConstraintRef>, s: Subst, odd: set<string>)
    requires RefsBelow(rs, context) && Below(Flat(rs), context) && NoneTwice(rs) && ApartAll(Flat(rs))
    requires RefsInstance(rs, s, Regroup(rs, MakeAll(Flat(rs), odd)))
    ensures Has(s, NamesOf(Flat(rs)), odd)
    decreases context, 0, 1
  {
    var xs := MakeAll(Flat(rs), odd);
    forall i | 0 <= i < |rs|
      ensures RefInstance(rs[i], s, Regroup(rs, xs)[i])
    {
      OwnCounterpart(rs, Regroup(rs, xs), s, i);
    }
    RegroupAll(rs, xs, s);
    ForcedAll(context, Flat(rs), s, odd);
  }

  lemma {:induction false} RegroupAll(rs: seq<ConstraintRef>, xs: seq<Ty>, s: Subst)
    requires |xs| == |Flat(rs)| && forall i :: 0 <= i < |rs| ==> RefInstance(rs[i], s, Regroup(rs, xs)[i])
    ensures AllInstance(Flat(rs), s, xs)
    decreases |rs|
  {
    if rs != [] {
      var n := |rs[0].args|;
      var qs, rest := Regroup(rs, xs), Regroup(rs[1..], xs[n..]);
      assert qs[0].args == xs[..n] && qs[1..] == rest;
      assert RefInstance(rs[0], s, qs[0]);
      forall i | 0 <= i < |rs[1..]|
        ensures RefInstance(rs[1..][i], s, rest[i])
      {
        assert RefInstance(rs[i + 1], s, qs[i + 1]);
      }
      RegroupAll(rs[1..], xs[n..], s);
      forall k | 0 <= k < |xs|
        ensures Instance(Flat(rs)[k], s, xs[k])
      {
        if k < n {
          assert Instance(rs[0].args[k], s, qs[0].args[k]);
        } else {
          assert Instance(Flat(rs[1..])[k - n], s, xs[n..][k - n]);
        }
      }
    }
  }

  // ---- How the search runs on such actuals

  /** Candidates with another head are passed over. */
  lemma {:induction false} PassOver(
    context: Ty, ps: seq<ConstraintRef>, qs: seq<ConstraintRef>, k: nat, j: nat, s: Subst)
    requires RefsBelow(ps, context) && ps != [] && k <= j <= |qs|
    requires forall i :: k <= i < j ==> !RefMatches(ps[0], qs[i])
    ensures UnifyRefs(context, ps, qs, k, s) == UnifyRefs(context, ps, qs, j, s)
    decreases j - k
  {
    if k < j {
      PassOver(context, ps, qs, k + 1, j, s);
    }
  }

  lemma OnlyOneMatches(rs: seq<ConstraintRef>, qs: seq<ConstraintRef>, j: nat)
    requires NoneTwice(rs) && |qs| == |rs| && SameHeads(rs, qs) && j < |rs|
    ensures forall i :: 0 <= i < |qs| && i != j ==> !RefMatches(rs[j], qs[i])
  {
  }

  lemma SoleStep(context: Ty, ps: seq<ConstraintRef>, qs: seq<ConstraintRef>, j: nat, s: Subst)
    requires RefsBelow(ps, context) && ps != [] && j < |qs| && UnifyRefs(context, ps, qs, 0, s).ok
    requires forall i :: 0 <= i < |qs| && i != j ==> !RefMatches(ps[0], qs[i])
    ensures RefMatches(ps[0], qs[j])
    ensures var o := UnifyAll(context, ps[0].args, qs[j].args, s);
            o.ok && UnifyRefs(context, ps, qs, 0, s) == UnifyRefs(context, ps[1..], qs, 0, o.subst)
  {
    PassOver(context, ps, qs, 0, j, s);
    PassOver(context, ps, qs, j + 1, |qs|, s);
  }

  /** If every constraint has just its own counterpart, the search is plain unification of all arguments. */
  lemma {:induction false} SoleCandidates(
    context: Ty, rs: seq<ConstraintRef>, qs: seq<ConstraintRef>, j: nat, s: Subst)
    requires RefsBelow(rs, context) && NoneTwice(rs) && |qs| == |rs| && SameHeads(rs, qs) && j <= |rs|
    requires Below(Flat(rs[j..]), context) && |Flat(rs[j..])| == |Flat(qs[j..])|
    requires UnifyRefs(context, rs[j..], qs, 0, s).ok
    ensures UnifyAll(context, Flat(rs[j..]), Flat(qs[j..]), s) == UnifyRefs(context, rs[j..], qs, 0, s)
    decreases |rs| - j
  {
    if j < |rs| {
      assert rs[j..][1..] == rs[j + 1..] && qs[j..][1..] == qs[j + 1..] && qs[j..][0] == qs[j];
      OnlyOneMatches(rs, qs, j);
      SoleStep(context, rs[j..], qs, j, s);
      var o := UnifyAll(context, rs[j].args, qs[j].args, s);
      FlatBelow(rs[j + 1..], context);
      UnifyAllSplit(context, rs[j].args, Flat(rs[j + 1..]), qs[j].args, Flat(qs[j + 1..]), s);
      SoleCandidates(context, rs, qs, j + 1, o.subst);
    }
  }

  lemma BuildRuns(p: Ty, xs: seq<Ty>, s: Subst)
    requires Apart(p) && IsCompound(p) && |xs| == |Items(p)| && UnifyTy(p, Build(p, xs), s).ok
    ensures UnifyAll(p, Items(p), xs, s) == UnifyTy(p, Build(p, xs), s)
  {
    if p.Closure? {
      ClosureRuns(p, xs, s);
    } else {
      assert xs[..|xs|] == xs;
      WithChildrenFits(p, xs, ConstraintBounds([], []));
    }
  }

  lemma ClosureRuns(p: Ty, xs: seq<Ty>, s: Subst)
    requires p.Closure? && Apart(p) && |xs| == |Items(p)| && UnifyTy(p, Build(p, xs), s).ok
    ensures UnifyAll(p, Items(p), xs, s) == UnifyTy(p, Build(p, xs), s)
  {
    var n, m := |Children(p)|, |Flat(p.constraints.positive)|;
    var cs, ps, ns := xs[..n], xs[n..n + m], xs[n + m..];
    ClosureParts(p, xs);
    ClosureNames(p);
    var a := Build(p, xs);
    WithChildrenFits(p, cs, BoundsOf(p, xs[n..]));
    var o := UnifyAll(p, Children(p), cs, s);
    BoundsRun(p, a, ps, ns, o.subst);
    UnifyAllSplit(p, Children(p), Flat(p.constraints.positive), cs, ps, s);
    UnifyAllSplit(p, Children(p) + Flat(p.constraints.positive), Flat(p.constraints.negative), cs + ps, ns, s);
  }

  lemma BoundsRun(p: Ty, a: Ty, ps: seq<Ty>, ns: seq<Ty>, s: Subst)
    requires p.Closure? && Apart(p) && a.Closure? && UnifyBounds(p, a, s).ok
    requires |ps| == |Flat(p.constraints.positive)| && a.constraints.positive == Regroup(p.constraints.positive, ps)
    requires |ns| == |Flat(p.constraints.negative)| && a.constraints.negative == Regroup(p.constraints.negative, ns)
    requires Below(Flat(p.constraints.positive), p) && Below(Flat(p.constraints.negative), p)
    ensures var q := UnifyAll(p, Flat(p.constraints.positive), ps, s);
            q.ok && UnifyAll(p, Flat(p.constraints.negative), ns, q.subst) == UnifyBounds(p, a, s)
  {
    var rs, qs := p.constraints.positive, a.constraints.positive;
    assert rs[0..] == rs && qs[0..] == qs;
    SoleCandidates(p, rs, qs, 0, s);
    var q := UnifyRefs(p, rs, qs, 0, s);
    var ts, us := p.constraints.negative, a.constraints.negative;
    assert ts[0..] == ts && us[0..] == us;
    SoleCandidates(p, ts, us, 0, q.subst);
  }

  /** After unification with the actual made from a pattern, its generics have the values it was made with. */
  lemma PlainRun(p: Ty, known: set<string>)
    requires Apart(p)
    ensures var o := UnifyTy(p, Make(p, {}), Full(known, {}));
            o.ok ==> o.subst == Full(known + Names(p), {})
  {
    var a, s := Make(p, {}), Full(known, {});
    var o := UnifyTy(p, a, s);
    if o.ok {
      MakeDescribed(p, Names(p), {});
      UnifySound(p, a, s);
      Forced(p, o.subst, {});
      UnifyFrame(p, a, s);
      FullGrows(known, Names(p), o.subst);
    }
  }

  lemma FullGrows(known: set<string>, names: set<string>, t: Subst)
    requires SameOutside(Full(known, {}), t, names) && Has(t, names, {}) && Keeps(Full(known, {}), t)
    ensures t == Full(known + names, {})
  {
    var u := Full(known + names, {});
    forall n
      ensures (n in t <==> n in u) && (n in t ==> t[n] == u[n])
    {
      assert n in known <==> n in Full(known, {});
    }
  }

  /** Against its own counterparts the search takes the first block of candidates. */
  lemma {:induction false} OwnFirst(
    context: Ty, rs: seq<ConstraintRef>, qs: seq<ConstraintRef>, j: nat, s: Subst, t: Subst,
    known: set<string>, free: set<string>)
    requires RefsBelow(rs, context) && NoneTwice(rs) && SameHeads(rs, qs) && GroundRefs(qs) && j <= |rs|
    requires forall i :: 0 <= i < |rs| ==> RefInstance(rs[i], t, qs[i])
    requires Below(Flat(rs[j..]), context) && SettledAll(context, Flat(rs[j..]), known)
    requires KeepsBut(s, t, free) && free !! NamesOf(Flat(rs[j..])) && Knows(s, known)
    ensures var o := UnifyRefs(context, rs[j..], qs, 0, s);
            o.ok && Keeps(s, o.subst) && forall i :: j <= i < |rs| ==> RefInstance(rs[i], o.subst, qs[i])
    decreases |rs| - j
  {
    if j < |rs| {
      var xs, ys := rs[j].args, Flat(rs[j + 1..]);
      assert rs[j..][1..] == rs[j + 1..];
      FlatBelow(rs[j + 1..], context);
      SettledConcat(context, xs, ys, known);
      NamesOfConcat(xs, ys);
      assert GroundRef(qs[j]);
      ArrivesAll(context, xs, qs[j].args, s, t, known, free);
      var o := UnifyAll(context, xs, qs[j].args, s);
      OwnFirst(context, rs, qs, j + 1, o.subst, t, known + NamesOf(xs), free + ChosenAll(context, xs, known));
      OwnStep(context, rs, qs, j, s);
    }
  }

  lemma OwnStep(context: Ty, rs: seq<ConstraintRef>, qs: seq<ConstraintRef>, j: nat, s: Subst)
    requires RefsBelow(rs, context) && NoneTwice(rs) && SameHeads(rs, qs) && GroundRefs(qs) && j < |rs|
    requires var o := UnifyAll(context, rs[j].args, qs[j].args, s);
             var rest := UnifyRefs(context, rs[j + 1..], qs, 0, o.subst);
             o.ok && rest.ok && Keeps(o.subst, rest.subst)
    ensures var o := UnifyAll(context, rs[j].args, qs[j].args, s);
            var rest := UnifyRefs(context, rs[j + 1..], qs, 0, o.subst);
            && UnifyRefs(context, rs[j..], qs, 0, s) == rest
            && Keeps(s, rest.subst) && RefInstance(rs[j], rest.subst, qs[j])
  {
    var ps := rs[j..];
    var o := UnifyAll(context, rs[j].args, qs[j].args, s);
    var rest := UnifyRefs(context, rs[j + 1..], qs, 0, o.subst);
    assert ps[0] == rs[j] && ps[1..] == rs[j + 1..];
    assert forall i :: 0 <= i < j ==> !RefMatches(ps[0], qs[i]);
    PassOver(context, ps, qs, 0, j, s);
    assert GroundRef(qs[j]);
    UnifyAllSound(context, rs[j].args, qs[j].args, s);
    AllInstanceKept(context, rs[j].args, o.subst, rest.subst, qs[j].args);
  }

  function Twice(rs: seq<ConstraintRef>, g: string): seq<ConstraintRef> {
    Regroup(rs, MakeAll(Flat(rs), {g})) + Regroup(rs, MakeAll(Flat(rs), {}))
  }

  /** A list that offers the wrong value first makes the search choose it. */
  /** The list of actual constraints is described with all generics `bool`; its first half also with the odd one. */
  lemma TwiceMade(rs: seq<ConstraintRef>, odd: seq<Ty>, even: seq<Ty>, t: Subst)
    requires |odd| == |even| == |Flat(rs)| && GroundAll(odd) && GroundAll(even) && AllInstance(Flat(rs), t, even)
    ensures var qs := Regroup(rs, odd) + Regroup(rs, even);
            GroundRefs(qs) && RefsInstance(rs, t, qs) && SameHeads(rs, qs)
  {
    RegroupGround(rs, odd);
    RegroupGround(rs, even);
    RefsDescribed(rs, even, t, Regroup(rs, odd), []);
    assert Regroup(rs, odd) + Regroup(rs, even) + [] == Regroup(rs, odd) + Regroup(rs, even);
  }

  lemma TwiceDescribed(rs: seq<ConstraintRef>, g: string, names: set<string>)
    requires NamesOf(Flat(rs)) <= names
    ensures GroundRefs(Twice(rs, g)) && RefsInstance(rs, Full(names, {}), Twice(rs, g)) && SameHeads(rs, Twice(rs, g))
    ensures forall i :: 0 <= i < |rs| ==> RefInstance(rs[i], Full(names, {g}), Twice(rs, g)[i])
  {
    var odd, even := MakeAll(Flat(rs), {g}), MakeAll(Flat(rs), {});
    MakeAllDescribed(Flat(rs), names, {g});
    MakeAllDescribed(Flat(rs), names, {});
    TwiceMade(rs, odd, even, Full(names, {}));
    assert Twice(rs, g) == Regroup(rs, odd) + Regroup(rs, even);
    forall i | 0 <= i < |rs|
      ensures RefInstance(rs[i], Full(names, {g}), Twice(rs, g)[i])
    {
      RegroupDescribed(rs, odd, Full(names, {g}), i);
    }
  }

  lemma TwiceMisleads(context: Ty, rs: seq<ConstraintRef>, known: set<string>, g: string, names: set<string>)
    requires RefsBelow(rs, context) && Below(Flat(rs), context) && NoneTwice(rs) && ApartAll(Flat(rs))
    requires SettledAll(context, Flat(rs), known) && g !in known && known + NamesOf(Flat(rs)) <= names
    ensures GroundRefs(Twice(rs, g)) && RefsInstance(rs, Full(names, {}), Twice(rs, g))
    ensures var o := UnifyRefs(context, rs, Twice(rs, g), 0, Full(known, {}));
            o.ok && Keeps(Full(known, {}), o.subst) && Has(o.subst, NamesOf(Flat(rs)), {g})
  {
    var odd := MakeAll(Flat(rs), {g});
    var qs, t, s := Twice(rs, g), Full(names, {g}), Full(known, {});
    TwiceDescribed(rs, g, names);
    assert rs[0..] == rs;
    OwnFirst(context, rs, qs, 0, s, t, known, {});
    var o := UnifyRefs(context, rs, qs, 0, s);
    RegroupAll(rs, odd, o.subst);
    ForcedAll(context, Flat(rs), o.subst, {g});
  }
}
