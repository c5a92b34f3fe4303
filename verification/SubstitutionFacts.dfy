/** What substitution does to the generics of a type, and when it leaves a type alone. */
module SubstitutionFacts {
  import opened Types
  import opened Substitution

  // ---- The generics of a type

  /** Every generic of the type, those in hidden state, bounds and constraints included. */
  function Generics(t: Ty): set<string>
    decreases t
  {
    match t
    case Hole(_) => {}
    case Prim(_) => {}
    case Generic(name) => {name}
    case Pointer(_, _, inner) => Generics(inner)
    case Array(_, elem) => Generics(elem)
    case Slice(_, elem) => Generics(elem)
    case Named(_, _, args) => GenericsOfAll(args)
    case GeneratedFuture(_, output, _, _, _, state) => Generics(output) + GenericsOfFields(state)
    case OpaqueState(base, state) => Generics(base) + GenericsOfFields(state)
    case DynamicInterface(_, _, args) => GenericsOfAll(args)
    case OpaqueReturn(_, args, bounds) =>
      GenericsOfAll(args) + (GenericsOfRefs(bounds.positive) + GenericsOfRefs(bounds.negative))
    case Function(_, _, ret, params) => Generics(ret) + GenericsOfAll(params)
    case Closure(ret, params, constraints) =>
      Generics(ret) + GenericsOfAll(params)
      + (GenericsOfRefs(constraints.positive) + GenericsOfRefs(constraints.negative))
    case ClosureInstance(_, ret, params, captures) => Generics(ret) + GenericsOfAll(params) + GenericsOfAll(captures)
  }

  function GenericsOfAll(ts: seq<Ty>): set<string>
    decreases ts
  {
    if ts == [] then {} else Generics(ts[0]) + GenericsOfAll(ts[1..])
  }

  function GenericsOfFields(fs: seq<Field>): set<string>
    decreases fs
  {
    if fs == [] then {} else Generics(fs[0].ty) + GenericsOfFields(fs[1..])
  }

  function GenericsOfRefs(rs: seq<ConstraintRef>): set<string>
    decreases rs
  {
    if rs == [] then {} else GenericsOfAll(rs[0].args) + GenericsOfRefs(rs[1..])
  }

  /** The generics that take the place of `names`: unbound ones stay, bound ones become those of their types. */
  function Replaced(names: set<string>, s: Subst): set<string> {
    (names - s.Keys) + (set n, x | n in names && n in s && x in Generics(s[n]) :: x)
  }

  lemma ReplacedUnion(a: set<string>, b: set<string>, s: Subst)
    ensures Replaced(a + b, s) == Replaced(a, s) + Replaced(b, s)
  {
  }

  lemma {:induction false} GenericsOfStateConcat(x: seq<Field>, y: seq<Field>)
    ensures GenericsOfFields(x + y) == GenericsOfFields(x) + GenericsOfFields(y)
    decreases x
  {
    if x == [] {
      assert x + y == y;
    } else {
      assert (x + y)[1..] == x[1..] + y;
      GenericsOfStateConcat(x[1..], y);
    }
  }

  lemma GenericsOfHidden(base: Ty, state: seq<Field>)
    ensures Generics(OpaqueStateTy(base, state)) == Generics(base) + GenericsOfFields(state)
  {
    if base.OpaqueState? {
      GenericsOfStateConcat(base.state, state);
    }
  }

  ghost predicate Replaces(t: Ty, s: Subst) {
    Generics(SubstTy(t, s)) == Replaced(Generics(t), s)
  }

  ghost predicate ReplacesAll(ts: seq<Ty>, s: Subst) {
    GenericsOfAll(SubstTys(ts, s)) == Replaced(GenericsOfAll(ts), s)
  }

  ghost predicate ReplacesFields(fs: seq<Field>, s: Subst) {
    GenericsOfFields(SubstFields(fs, s)) == Replaced(GenericsOfFields(fs), s)
  }

  ghost predicate ReplacesRefs(rs: seq<ConstraintRef>, s: Subst) {
    GenericsOfRefs(SubstRefs(rs, s)) == Replaced(GenericsOfRefs(rs), s)
  }

  /** The generics of a substituted type are exactly those that replace the generics of the type. */
  lemma {:induction false} SubstReplaces(t: Ty, s: Subst)
    ensures Replaces(t, s)
    decreases t, 1
  {
    match t
    case Hole(_) =>
    case Prim(_) =>
    case Generic(_) =>
    case Pointer(_, _, inner) => SubstReplaces(inner, s);
    case Array(_, elem) => SubstReplaces(elem, s);
    case Slice(_, elem) => SubstReplaces(elem, s);
    case Named(_, _, args) => SubstReplacesAll(args, s);
    case DynamicInterface(_, _, args) => SubstReplacesAll(args, s);
    case GeneratedFuture(_, output, _, _, _, state) =>
      SubstReplaces(output, s);
      SubstReplacesFields(state, s);
      FutureReplaces(t, s);
    case OpaqueState(base, state) =>
      SubstReplaces(base, s);
      SubstReplacesFields(state, s);
      HiddenReplaces(base, state, s);
    case _ => CompoundReplaces(t, s);
  }

  lemma {:induction false} CompoundReplaces(t: Ty, s: Subst)
    requires t.OpaqueReturn? || t.Function? || t.Closure? || t.ClosureInstance?
    ensures Replaces(t, s)
    decreases t, 0
  {
    match t
    case OpaqueReturn(_, args, bounds) =>
      SubstReplacesAll(args, s);
      SubstReplacesRefs(bounds.positive, s);
      SubstReplacesRefs(bounds.negative, s);
      OpaqueReturnReplaces(t, s);
    case Function(_, _, ret, params) =>
      SubstReplaces(ret, s);
      SubstReplacesAll(params, s);
      ReplacedUnion(Generics(ret), GenericsOfAll(params), s);
    case Closure(ret, params, constraints) =>
      SubstReplaces(ret, s);
      SubstReplacesAll(params, s);
      SubstReplacesRefs(constraints.positive, s);
      SubstReplacesRefs(constraints.negative, s);
      ClosureReplaces(t, s);
    case ClosureInstance(_, ret, params, captures) =>
      SubstReplaces(ret, s);
      SubstReplacesAll(params, s);
      SubstReplacesAll(captures, s);
      InstanceReplaces(t, s);
  }

  lemma FutureReplaces(t: Ty, s: Subst)
    requires t.GeneratedFuture? && Replaces(t.output, s) && ReplacesFields(t.state, s)
    ensures Replaces(t, s)
  {
    ReplacedUnion(Generics(t.output), GenericsOfFields(t.state), s);
  }

  lemma HiddenReplaces(base: Ty, state: seq<Field>, s: Subst)
    requires Replaces(base, s) && ReplacesFields(state, s)
    ensures Replaces(OpaqueState(base, state), s)
  {
    GenericsOfHidden(SubstTy(base, s), SubstFields(state, s));
    ReplacedUnion(Generics(base), GenericsOfFields(state), s);
  }

  lemma ReplacedUnionOfThree(a: set<string>, b: set<string>, c: set<string>, s: Subst)
    ensures Replaced(a + (b + c), s) == Replaced(a, s) + (Replaced(b, s) + Replaced(c, s))
  {
    ReplacedUnion(b, c, s);
    ReplacedUnion(a, b + c, s);
  }

  lemma OpaqueReturnReplaces(t: Ty, s: Subst)
    requires t.OpaqueReturn? && ReplacesAll(t.args, s)
    requires ReplacesRefs(t.bounds.positive, s) && ReplacesRefs(t.bounds.negative, s)
    ensures Replaces(t, s)
  {
    var positive, negative := GenericsOfRefs(t.bounds.positive), GenericsOfRefs(t.bounds.negative);
    ReplacedUnionOfThree(GenericsOfAll(t.args), positive, negative, s);
  }

  lemma ClosureReplaces(t: Ty, s: Subst)
    requires t.Closure? && Replaces(t.ret, s) && ReplacesAll(t.params, s)
    requires ReplacesRefs(t.constraints.positive, s) && ReplacesRefs(t.constraints.negative, s)
    ensures Replaces(t, s)
  {
    var shape := Generics(t.ret) + GenericsOfAll(t.params);
    ReplacedUnion(Generics(t.ret), GenericsOfAll(t.params), s);
    ReplacedUnionOfThree(shape, GenericsOfRefs(t.constraints.positive), GenericsOfRefs(t.constraints.negative), s);
  }

  lemma InstanceReplaces(t: Ty, s: Subst)
    requires t.ClosureInstance? && Replaces(t.ret, s) && ReplacesAll(t.params, s) && ReplacesAll(t.captures, s)
    ensures Replaces(t, s)
  {
    ReplacedUnion(Generics(t.ret), GenericsOfAll(t.params), s);
    ReplacedUnion(Generics(t.ret) + GenericsOfAll(t.params), GenericsOfAll(t.captures), s);
  }

  lemma {:induction false} SubstReplacesAll(ts: seq<Ty>, s: Subst)
    ensures ReplacesAll(ts, s)
    decreases ts
  {
    if ts != [] {
      SubstReplaces(ts[0], s);
      SubstReplacesAll(ts[1..], s);
      ReplacedUnion(Generics(ts[0]), GenericsOfAll(ts[1..]), s);
    }
  }

  lemma {:induction false} SubstReplacesFields(fs: seq<Field>, s: Subst)
    ensures ReplacesFields(fs, s)
    decreases fs
  {
    if fs != [] {
      SubstReplaces(fs[0].ty, s);
      SubstReplacesFields(fs[1..], s);
      ReplacedUnion(Generics(fs[0].ty), GenericsOfFields(fs[1..]), s);
    }
  }

  lemma {:induction false} SubstReplacesRefs(rs: seq<ConstraintRef>, s: Subst)
    ensures ReplacesRefs(rs, s)
    decreases rs
  {
    if rs != [] {
      SubstReplacesAll(rs[0].args, s);
      SubstReplacesRefs(rs[1..], s);
      ReplacedUnion(GenericsOfAll(rs[0].args), GenericsOfRefs(rs[1..]), s);
    }
  }

  /** Where every binding is a type without generics, exactly the unbound generics remain. */
  lemma OnlyUnboundRemain(t: Ty, s: Subst)
    requires forall n :: n in s ==> Generics(s[n]) == {}
    ensures Generics(SubstTy(t, s)) == Generics(t) - s.Keys
  {
    SubstReplaces(t, s);
  }

  // ---- Types that substitution rebuilds as they were

  /** Hidden state is never empty and never sits on hidden state, anywhere in the type. */
  predicate Flat(t: Ty)
    decreases t
  {
    match t
    case Hole(_) => true
    case Prim(_) => true
    case Generic(_) => true
    case Pointer(_, _, inner) => Flat(inner)
    case Array(_, elem) => Flat(elem)
    case Slice(_, elem) => Flat(elem)
    case Named(_, _, args) => FlatAll(args)
    case GeneratedFuture(_, output, _, _, _, state) => Flat(output) && FlatFields(state)
    case OpaqueState(base, state) => state != [] && !base.OpaqueState? && Flat(base) && FlatFields(state)
    case DynamicInterface(_, _, args) => FlatAll(args)
    case OpaqueReturn(_, args, bounds) => FlatAll(args) && FlatRefs(bounds.positive) && FlatRefs(bounds.negative)
    case Function(_, _, ret, params) => Flat(ret) && FlatAll(params)
    case Closure(ret, params, constraints) =>
      Flat(ret) && FlatAll(params) && FlatRefs(constraints.positive) && FlatRefs(constraints.negative)
    case ClosureInstance(_, ret, params, captures) => Flat(ret) && FlatAll(params) && FlatAll(captures)
  }

  predicate FlatAll(ts: seq<Ty>)
    decreases ts
  {
    ts == [] || (Flat(ts[0]) && FlatAll(ts[1..]))
  }

  predicate FlatFields(fs: seq<Field>)
    decreases fs
  {
    fs == [] || (Flat(fs[0].ty) && FlatFields(fs[1..]))
  }

  predicate FlatRefs(rs: seq<ConstraintRef>)
    decreases rs
  {
    rs == [] || (FlatAll(rs[0].args) && FlatRefs(rs[1..]))
  }

  lemma {:induction false} FlatConcat(x: seq<Field>, y: seq<Field>)
    requires FlatFields(x) && FlatFields(y)
    ensures FlatFields(x + y)
    decreases x
  {
    if x == [] {
      assert x + y == y;
    } else {
      assert (x + y)[1..] == x[1..] + y;
      FlatConcat(x[1..], y);
    }
  }

  lemma FlatHidden(base: Ty, state: seq<Field>)
    requires Flat(base) && FlatFields(state)
    ensures Flat(OpaqueStateTy(base, state))
  {
    if base.OpaqueState? {
      FlatConcat(base.state, state);
    }
  }

  ghost predicate FlatOn(names: set<string>, s: Subst) {
    forall n :: n in names && n in s ==> Flat(s[n])
  }

  /** Substitution flattens: what it puts together is flat, whatever the type was. */
  lemma {:induction false} SubstFlattens(t: Ty, s: Subst)
    requires FlatOn(Generics(t), s)
    ensures Flat(SubstTy(t, s))
    decreases t
  {
    match t
    case Hole(_) =>
    case Prim(_) =>
    case Generic(_) =>
    case Pointer(_, _, inner) => SubstFlattens(inner, s);
    case Array(_, elem) => SubstFlattens(elem, s);
    case Slice(_, elem) => SubstFlattens(elem, s);
    case Named(_, _, args) => SubstFlattensAll(args, s);
    case DynamicInterface(_, _, args) => SubstFlattensAll(args, s);
    case GeneratedFuture(_, output, _, _, _, state) =>
      SubstFlattens(output, s);
      SubstFlattensFields(state, s);
    case OpaqueState(base, state) =>
      SubstFlattens(base, s);
      SubstFlattensFields(state, s);
      FlatHidden(SubstTy(base, s), SubstFields(state, s));
    case OpaqueReturn(_, args, bounds) =>
      SubstFlattensAll(args, s);
      SubstFlattensRefs(bounds.positive, s);
      SubstFlattensRefs(bounds.negative, s);
    case Function(_, _, ret, params) =>
      SubstFlattens(ret, s);
      SubstFlattensAll(params, s);
    case Closure(ret, params, constraints) =>
      SubstFlattens(ret, s);
      SubstFlattensAll(params, s);
      SubstFlattensRefs(constraints.positive, s);
      SubstFlattensRefs(constraints.negative, s);
    case ClosureInstance(_, ret, params, captures) =>
      SubstFlattens(ret, s);
      SubstFlattensAll(params, s);
      SubstFlattensAll(captures, s);
  }

  lemma {:induction false} SubstFlattensAll(ts: seq<Ty>, s: Subst)
    requires FlatOn(GenericsOfAll(ts), s)
    ensures FlatAll(SubstTys(ts, s))
    decreases ts
  {
    if ts != [] {
      SubstFlattens(ts[0], s);
      SubstFlattensAll(ts[1..], s);
    }
  }

  lemma {:induction false} SubstFlattensFields(fs: seq<Field>, s: Subst)
    requires FlatOn(GenericsOfFields(fs), s)
    ensures FlatFields(SubstFields(fs, s))
    decreases fs
  {
    if fs != [] {
      SubstFlattens(fs[0].ty, s);
      SubstFlattensFields(fs[1..], s);
    }
  }

  lemma {:induction false} SubstFlattensRefs(rs: seq<ConstraintRef>, s: Subst)
    requires FlatOn(GenericsOfRefs(rs), s)
    ensures FlatRefs(SubstRefs(rs, s))
    decreases rs
  {
    if rs != [] {
      SubstFlattensAll(rs[0].args, s);
      SubstFlattensRefs(rs[1..], s);
    }
  }

  lemma {:induction false} FlatStays(t: Ty, s: Subst)
    requires Flat(t) && Generics(t) !! s.Keys
    ensures SubstTy(t, s) == t
    decreases t
  {
    match t
    case Hole(_) =>
    case Prim(_) =>
    case Generic(_) =>
    case Pointer(_, _, inner) => FlatStays(inner, s);
    case Array(_, elem) => FlatStays(elem, s);
    case Slice(_, elem) => FlatStays(elem, s);
    case Named(_, _, args) => FlatAllStay(args, s);
    case DynamicInterface(_, _, args) => FlatAllStay(args, s);
    case GeneratedFuture(_, output, _, _, _, state) =>
      FlatStays(output, s);
      FlatFieldsStay(state, s);
    case OpaqueState(base, state) =>
      FlatStays(base, s);
      FlatFieldsStay(state, s);
    case OpaqueReturn(_, args, bounds) =>
      FlatAllStay(args, s);
      FlatRefsStay(bounds.positive, s);
      FlatRefsStay(bounds.negative, s);
    case Function(_, _, ret, params) =>
      FlatStays(ret, s);
      FlatAllStay(params, s);
    case Closure(ret, params, constraints) =>
      FlatStays(ret, s);
      FlatAllStay(params, s);
      FlatRefsStay(constraints.positive, s);
      FlatRefsStay(constraints.negative, s);
    case ClosureInstance(_, ret, params, captures) =>
      FlatStays(ret, s);
      FlatAllStay(params, s);
      FlatAllStay(captures, s);
  }

  lemma {:induction false} FlatAllStay(ts: seq<Ty>, s: Subst)
    requires FlatAll(ts) && GenericsOfAll(ts) !! s.Keys
    ensures SubstTys(ts, s) == ts
    decreases ts
  {
    if ts != [] {
      FlatStays(ts[0], s);
      FlatAllStay(ts[1..], s);
    }
  }

  lemma {:induction false} FlatFieldsStay(fs: seq<Field>, s: Subst)
    requires FlatFields(fs) && GenericsOfFields(fs) !! s.Keys
    ensures SubstFields(fs, s) == fs
    decreases fs
  {
    if fs != [] {
      FlatStays(fs[0].ty, s);
      FlatFieldsStay(fs[1..], s);
    }
  }

  lemma {:induction false} FlatRefsStay(rs: seq<ConstraintRef>, s: Subst)
    requires FlatRefs(rs) && GenericsOfRefs(rs) !! s.Keys
    ensures SubstRefs(rs, s) == rs
    decreases rs
  {
    if rs != [] {
      FlatAllStay(rs[0].args, s);
      FlatRefsStay(rs[1..], s);
    }
  }

  /** A type without bound generics comes out as it went in if and only if its hidden state is flat. */
  lemma UntouchedIffFlat(t: Ty, s: Subst)
    requires Generics(t) !! s.Keys
    ensures SubstTy(t, s) == t <==> Flat(t)
  {
    if Flat(t) {
      FlatStays(t, s);
    } else {
      SubstFlattens(t, s);
    }
  }
}
