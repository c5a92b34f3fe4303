/** What leaves a function, defined on its statements and expressions, and that the analysis finds exactly that. */
module EscapeMeaning {
  import opened Wrappers
  import opened Types
  import opened Escape
  import opened EscapeAnalyzer
  import EscapeFixpoint

  // ---- What a value points to

  function Innermost(t: Ty): Ty
    decreases t
  {
    if t.Array? then Innermost(t.elem) else t
  }

  /** A value of the type, or an element of it, may hold a reference. */
  predicate MayPoint(t: Ty) {
    var u := Innermost(t);
    u.Pointer? || u.Slice? || u.DynamicInterface? || u.Function? || u.Closure? || u.ClosureInstance? || u.Named?
  }

  /** The expression forms whose value is made of the values of all operands. */
  const FORWARDING: set<NodeOp> := {
    Move, SliceToConst, RawSliceFromPtr, StructLiteral, EnumLiteral, ArrayLiteral, ArrayRepeat,
    FunctionToClosure, RetainClosure, Cast, Try, Binary,
    Await, AsyncBlockOn, AsyncSelect, AsyncSleep, AsyncSpawn, AsyncTaskCancel, AsyncTaskIsFinished,
    MetaIntoRepr, MetaFromRepr, MetaAsRefRepr,
    ActorSpawn, ActorSend, ActorStop, ActorJoin
  }

  /** The expression forms whose operands are kept beyond the call. */
  const PUBLISHING: set<NodeOp> := {
    MetaAsRefRepr, MakeDynamicInterface, ErrorBox, ReportBox, CloneMessage,
    DynamicInterfaceCall, RetainedClosureInterfaceCall
  }

  /** A reference to the local refers to this storage: that of the argument when the local is a parameter. */
  predicate Names(params: map<LocalId, nat>, id: LocalId, src: Source) {
    || (id in params && src.OfParam? && src.index == params[id])
    || (id !in params && src.OfLocal? && src.id == id)
  }

  /** The value of the local points to this storage: as last assigned, or as passed in. */
  predicate Carries(params: map<LocalId, nat>, aliases: Aliases, id: LocalId, ty: Ty, src: Source) {
    || (id in aliases && src in aliases[id])
    || (id !in aliases && id in params && MayPoint(ty) && src.OfParam? && src.index == params[id])
  }

  predicate PointsTo(params: map<LocalId, nat>, aliases: Aliases, e: Expr, src: Source)
    decreases e
  {
    match e.kind
    case Local(id) => Carries(params, aliases, id, e.ty, src)
    case AddressOf(Expr(_, Local(id))) => Names(params, id, src)
    case AddressOf(operand) => PointsTo(params, aliases, operand, src)
    case ArrayToSlice(Expr(_, Local(id))) => Names(params, id, src)
    case ArrayToSlice(operand) => PointsTo(params, aliases, operand, src)
    case SliceOf(Expr(Array(_, _), Local(id)), _) => Names(params, id, src)
    case SliceOf(base, _) => PointsTo(params, aliases, base, src)
    case Closure(captures, _) =>
      exists i :: 0 <= i < |captures| && Carries(params, aliases, captures[i].id, captures[i].ty, src)
    case UnsafeBlock(_, Some(value)) => PointsTo(params, aliases, value, src)
    case Node(op, children) =>
      op in FORWARDING && exists i :: 0 <= i < |children| && PointsTo(params, aliases, children[i], src)
    case _ => false
  }

  lemma {:induction false} CarriesPointerIsMayPoint(t: Ty)
    ensures CarriesPointer(t) <==> MayPoint(t)
    decreases t
  {
    if t.Array? {
      CarriesPointerIsMayPoint(t.elem);
    }
  }

  lemma LocalSourcesAreCarried(params: map<LocalId, nat>, aliases: Aliases, id: LocalId, ty: Ty, src: Source)
    ensures src in LocalSources(params, aliases, id, ty) <==> Carries(params, aliases, id, ty, src)
  {
    CarriesPointerIsMayPoint(ty);
  }

  /** The computed sources of an expression are exactly what its value points to. */
  lemma {:induction false} SourcesArePointedTo(params: map<LocalId, nat>, aliases: Aliases, e: Expr, src: Source)
    ensures src in Sources(params, aliases, e) <==> PointsTo(params, aliases, e, src)
    decreases e
  {
    match e.kind
    case Local(id) => LocalSourcesAreCarried(params, aliases, id, e.ty, src);
    case AddressOf(operand) => SourcesArePointedTo(params, aliases, operand, src);
    case ArrayToSlice(operand) => SourcesArePointedTo(params, aliases, operand, src);
    case SliceOf(base, _) => SourcesArePointedTo(params, aliases, base, src);
    case Closure(captures, _) =>
      forall i | 0 <= i < |captures|
        ensures src in LocalSources(params, aliases, captures[i].id, captures[i].ty)
           <==> Carries(params, aliases, captures[i].id, captures[i].ty, src)
      {
        LocalSourcesAreCarried(params, aliases, captures[i].id, captures[i].ty, src);
      }
    case UnsafeBlock(_, value) =>
      if value.Some? {
        SourcesArePointedTo(params, aliases, value.value, src);
      }
    case Node(op, children) => AnySourcePointedTo(params, aliases, children, src);
    case _ =>
  }

  lemma {:induction false} AnySourcePointedTo(
      params: map<LocalId, nat>, aliases: Aliases, es: seq<Expr>, src: Source)
    ensures src in AllSources(params, aliases, es)
       <==> exists i :: 0 <= i < |es| && PointsTo(params, aliases, es[i], src)
    decreases es
  {
    if es != [] {
      SourcesArePointedTo(params, aliases, es[0], src);
      AnySourcePointedTo(params, aliases, es[1..], src);
      assert forall i :: 0 < i < |es| ==> es[i] == es[1..][i - 1];
    }
  }

  // ---- What locals alias as a body is scanned

  function Pointed(c: Context, a: Aliases, e: Expr): set<Source> {
    Sources(c.params, a, e)
  }

  /** The local now points to what the value points to. */
  function Assigned(c: Context, a: Aliases, id: LocalId, value: Expr): Aliases {
    if Pointed(c, a, value) == {} then a - {id} else a[id := Pointed(c, a, value)]
  }

  function AfterExpr(c: Context, a: Aliases, e: Expr): Aliases
    decreases e
  {
    match e.kind
    case Local(_) => a
    case FunctionRef(_) => a
    case Constant => a
    case AddressOf(operand) => AfterExpr(c, a, operand)
    case ArrayToSlice(operand) => AfterExpr(c, a, operand)
    case SliceOf(base, limits) => AfterExprs(c, AfterExpr(c, a, base), limits)
    case Call(callee, args) => AfterExprs(c, AfterExpr(c, a, callee), args)
    case Closure(_, body) => AfterStmts(c, a, body)
    case UnsafeBlock(statements, value) => AfterAnyExpr(c, AfterStmts(c, a, statements), value)
    case Node(_, children) => AfterExprs(c, a, children)
  }

  function AfterAnyExpr(c: Context, a: Aliases, e: Option<Expr>): Aliases
    decreases e
  {
    match e
    case None => a
    case Some(value) => AfterExpr(c, a, value)
  }

  function AfterExprs(c: Context, a: Aliases, es: seq<Expr>): Aliases
    decreases es
  {
    if es == [] then a else AfterExprs(c, AfterExpr(c, a, es[0]), es[1..])
  }

  function AfterStmt(c: Context, a: Aliases, s: Stmt): Aliases
    decreases s
  {
    match s
    case Block(statements) => AfterStmts(c, a, statements)
    case VarDecl(id, None) => a - {id}
    case VarDecl(id, Some(init)) => Assigned(c, AfterExpr(c, a, init), id, init)
    case Assign(target, value) =>
      var b := AfterExpr(c, AfterExpr(c, a, target), value);
      (match target.kind
       case Local(id) => Assigned(c, b, id, value)
       case _ => b)
    case If(cond, thenBlock, elseBranch) =>
      AfterAnyStmt(c, AfterStmts(c, AfterExpr(c, a, cond), thenBlock), elseBranch)
    case While(cond, body) => AfterStmts(c, AfterExpr(c, a, cond), body)
    case For(start, test, step, body) =>
      var b := AfterAnyExpr(c, AfterAnyStmt(c, a, start), test);
      AfterStmts(c, AfterAnyStmt(c, b, step), body)
    case Switch(scrutinee, cases, default) =>
      var b := AfterExpr(c, a, scrutinee);
      AfterStmts(c, AfterCases(c, b, Pointed(c, b, scrutinee), cases), default)
    case Effect(expr) => AfterExpr(c, a, expr)
    case Return(result) => AfterAnyExpr(c, a, result)
    case Skip => a
  }

  function AfterAnyStmt(c: Context, a: Aliases, s: Option<Stmt>): Aliases
    decreases s
  {
    match s
    case None => a
    case Some(statement) => AfterStmt(c, a, statement)
  }

  function AfterStmts(c: Context, a: Aliases, ss: seq<Stmt>): Aliases
    decreases ss
  {
    if ss == [] then a else AfterStmts(c, AfterStmt(c, a, ss[0]), ss[1..])
  }

  /** The patterns of the cases bind parts of a value that points to `whole`. */
  function AfterCases(c: Context, a: Aliases, whole: set<Source>, cs: seq<Case>): Aliases
    decreases cs
  {
    if cs == [] then a
    else AfterCases(c, AfterStmts(c, AfterPattern(a, whole, cs[0].pattern), cs[0].statements), whole, cs[1..])
  }

  function AfterPattern(a: Aliases, whole: set<Source>, p: Pattern): Aliases
    decreases p
  {
    match p
    case Wildcard => a
    case Binding(id, ty) => if MayPoint(ty) then a[id := whole] else a - {id}
    case Variant(payload) => AfterPatterns(a, whole, payload)
  }

  function AfterPatterns(a: Aliases, whole: set<Source>, ps: seq<Pattern>): Aliases
    decreases ps
  {
    if ps == [] then a else AfterPatterns(AfterPattern(a, whole, ps[0]), whole, ps[1..])
  }

  // ---- What leaves

  /** A value that leaves the function, with what the locals alias at that point. */
  datatype Departure = Departure(value: Expr, aliases: Aliases)

  /** A callee keeps its `i`-th argument: by its summary, or by its signature when it has no body. */
  predicate Keeps(c: Context, def: DefId, i: nat)
    requires def in c.program.functions
  {
    if def in c.summaries then i in c.summaries[def].params
    else
      var f := c.program.functions[def];
      !f.noescape && i < |f.params| && MayPoint(f.params[i].ty)
  }

  /** The `i`-th argument of the call is kept; unknown callees keep every argument that may point. */
  predicate KeptByCall(c: Context, callee: Expr, args: seq<Expr>, i: nat)
    requires i < |args|
  {
    match callee.kind
    case FunctionRef(def) => if def in c.program.functions then Keeps(c, def, i) else MayPoint(args[i].ty)
    case _ => MayPoint(args[i].ty)
  }

  function KeptArgs(c: Context, a: Aliases, callee: Expr, args: seq<Expr>): set<Departure> {
    set i | 0 <= i < |args| && KeptByCall(c, callee, args, i) :: Departure(args[i], a)
  }

  function LeavingExpr(c: Context, a: Aliases, e: Expr): set<Departure>
    decreases e
  {
    match e.kind
    case Local(_) => {}
    case FunctionRef(_) => {}
    case Constant => {}
    case AddressOf(operand) => LeavingExpr(c, a, operand)
    case ArrayToSlice(operand) => LeavingExpr(c, a, operand)
    case SliceOf(base, limits) => LeavingExpr(c, a, base) + LeavingExprs(c, AfterExpr(c, a, base), limits)
    case Call(callee, args) =>
      LeavingExpr(c, a, callee) + LeavingExprs(c, AfterExpr(c, a, callee), args)
      + KeptArgs(c, AfterExpr(c, a, e), callee, args)
    case Closure(_, body) => LeavingStmts(c, a, body)
    case UnsafeBlock(statements, value) =>
      LeavingStmts(c, a, statements) + LeavingAnyExpr(c, AfterStmts(c, a, statements), value)
    case Node(op, children) =>
      if op in PUBLISHING then LeavingOperands(c, a, children) else LeavingExprs(c, a, children)
  }

  function LeavingAnyExpr(c: Context, a: Aliases, e: Option<Expr>): set<Departure>
    decreases e
  {
    match e
    case None => {}
    case Some(value) => LeavingExpr(c, a, value)
  }

  function LeavingExprs(c: Context, a: Aliases, es: seq<Expr>): set<Departure>
    decreases es
  {
    if es == [] then {} else LeavingExpr(c, a, es[0]) + LeavingExprs(c, AfterExpr(c, a, es[0]), es[1..])
  }

  /** Every operand leaves too, as soon as it is evaluated. */
  function LeavingOperands(c: Context, a: Aliases, es: seq<Expr>): set<Departure>
    decreases es
  {
    if es == [] then {}
    else
      var b := AfterExpr(c, a, es[0]);
      LeavingExpr(c, a, es[0]) + {Departure(es[0], b)} + LeavingOperands(c, b, es[1..])
  }

  function LeavingStmt(c: Context, a: Aliases, s: Stmt): set<Departure>
    decreases s
  {
    match s
    case Block(statements) => LeavingStmts(c, a, statements)
    case VarDecl(_, init) => LeavingAnyExpr(c, a, init)
    case Assign(target, value) =>
      var b := AfterExpr(c, a, target);
      LeavingExpr(c, a, target) + LeavingExpr(c, b, value)
      + (match target.kind
         case Local(_) => {}
         case _ => {Departure(value, AfterExpr(c, b, value))})
    case If(cond, thenBlock, elseBranch) =>
      var b := AfterExpr(c, a, cond);
      LeavingExpr(c, a, cond) + LeavingStmts(c, b, thenBlock)
      + LeavingAnyStmt(c, AfterStmts(c, b, thenBlock), elseBranch)
    case While(cond, body) => LeavingExpr(c, a, cond) + LeavingStmts(c, AfterExpr(c, a, cond), body)
    case For(start, test, step, body) =>
      var b := AfterAnyStmt(c, a, start);
      var d := AfterAnyExpr(c, b, test);
      LeavingAnyStmt(c, a, start) + LeavingAnyExpr(c, b, test) + LeavingAnyStmt(c, d, step)
      + LeavingStmts(c, AfterAnyStmt(c, d, step), body)
    case Switch(scrutinee, cases, default) =>
      var b := AfterExpr(c, a, scrutinee);
      var whole := Pointed(c, b, scrutinee);
      LeavingExpr(c, a, scrutinee) + LeavingCases(c, b, whole, cases)
      + LeavingStmts(c, AfterCases(c, b, whole, cases), default)
    case Effect(expr) => LeavingExpr(c, a, expr)
    case Return(None) => {}
    case Return(Some(value)) => LeavingExpr(c, a, value) + {Departure(value, AfterExpr(c, a, value))}
    case Skip => {}
  }

  function LeavingAnyStmt(c: Context, a: Aliases, s: Option<Stmt>): set<Departure>
    decreases s
  {
    match s
    case None => {}
    case Some(statement) => LeavingStmt(c, a, statement)
  }

  function LeavingStmts(c: Context, a: Aliases, ss: seq<Stmt>): set<Departure>
    decreases ss
  {
    if ss == [] then {} else LeavingStmt(c, a, ss[0]) + LeavingStmts(c, AfterStmt(c, a, ss[0]), ss[1..])
  }

  function LeavingCases(c: Context, a: Aliases, whole: set<Source>, cs: seq<Case>): set<Departure>
    decreases cs
  {
    if cs == [] then {}
    else
      var b := AfterPattern(a, whole, cs[0].pattern);
      LeavingStmts(c, b, cs[0].statements) + LeavingCases(c, AfterStmts(c, b, cs[0].statements), whole, cs[1..])
  }

  // ---- The events of a scan say the same

  function SourcesOf(c: Context, ds: set<Departure>): set<Source> {
    set d, s | d in ds && s in Pointed(c, d.aliases, d.value) :: s
  }

  /** The events take the aliases from `a` to `b`, and what escapes are the departures. */
  ghost predicate Agrees(c: Context, stack: seq<set<Source>>, evs: seq<Event>, a: Aliases, b: Aliases,
                         ds: set<Departure>) {
    && FrameAfter(c.params, Frame(a, stack), evs) == Frame(b, stack)
    && Escaped(c, Frame(a, stack), evs) == SourcesOf(c, ds)
  }

  lemma NothingAgrees(c: Context, stack: seq<set<Source>>, a: Aliases)
    ensures Agrees(c, stack, [], a, a, {})
  {
  }

  lemma SourcesOfUnion(c: Context, x: set<Departure>, y: set<Departure>)
    ensures SourcesOf(c, x + y) == SourcesOf(c, x) + SourcesOf(c, y)
  {
  }

  lemma AgreesThen(c: Context, stack: seq<set<Source>>, x: seq<Event>, y: seq<Event>,
                   a: Aliases, b: Aliases, d: Aliases, xs: set<Departure>, ys: set<Departure>)
    requires Agrees(c, stack, x, a, b, xs) && Agrees(c, stack, y, b, d, ys)
    ensures Agrees(c, stack, x + y, a, d, xs + ys)
  {
    FramesConcat(c, Frame(a, stack), x, y);
    SourcesOfUnion(c, xs, ys);
  }

  lemma OneEvent(c: Context, frame: Frame, ev: Event)
    ensures FrameAfter(c.params, frame, [ev]) == NextFrame(c.params, frame, ev)
    ensures Escaped(c, frame, [ev]) == EventSources(c.program, Known(c.summaries), c.params, frame, ev)
  {
    assert [ev][1..] == [];
    assert FrameAfter(c.params, NextFrame(c.params, frame, ev), []) == NextFrame(c.params, frame, ev);
    assert Escaped(c, NextFrame(c.params, frame, ev), []) == {};
  }

  lemma PublishAgrees(c: Context, stack: seq<set<Source>>, a: Aliases, value: Expr)
    ensures Agrees(c, stack, [Publish(value)], a, a, {Departure(value, a)})
  {
    OneEvent(c, Frame(a, stack), Publish(value));
    var d := Departure(value, a);
    assert SourcesOf(c, {d}) == Pointed(c, a, value) by {
      assert d in {d} && d.aliases == a && d.value == value;
    }
  }

  lemma BindAgrees(c: Context, stack: seq<set<Source>>, a: Aliases, id: LocalId, value: Expr)
    ensures Agrees(c, stack, [Bind(id, value)], a, Assigned(c, a, id, value), {})
  {
    OneEvent(c, Frame(a, stack), Bind(id, value));
  }

  lemma UnbindAgrees(c: Context, stack: seq<set<Source>>, a: Aliases, id: LocalId)
    ensures Agrees(c, stack, [Unbind(id)], a, a - {id}, {})
  {
    OneEvent(c, Frame(a, stack), Unbind(id));
  }

  lemma KeptIsEscaping(c: Context, callee: Expr, args: seq<Expr>, i: nat)
    requires i < |args|
    ensures ArgEscapes(c.program, Known(c.summaries), callee, args, i) <==> KeptByCall(c, callee, args, i)
  {
    CarriesPointerIsMayPoint(args[i].ty);
    if callee.kind.FunctionRef? && callee.kind.def in c.program.functions {
      var f := c.program.functions[callee.kind.def];
      if i < |f.params| {
        CarriesPointerIsMayPoint(f.params[i].ty);
      }
    }
  }

  lemma {:induction false} CallSourcesAre(c: Context, a: Aliases, callee: Expr, args: seq<Expr>, n: nat, s: Source)
    requires n <= |args|
    ensures s in CallSources(c.program, Known(c.summaries), c.params, a, callee, args, n)
       <==> exists i :: 0 <= i < n && KeptByCall(c, callee, args, i) && s in Pointed(c, a, args[i])
    decreases n
  {
    if n > 0 {
      CallSourcesAre(c, a, callee, args, n - 1, s);
      KeptIsEscaping(c, callee, args, n - 1);
    }
  }

  lemma CallAgrees(c: Context, stack: seq<set<Source>>, a: Aliases, callee: Expr, args: seq<Expr>)
    ensures Agrees(c, stack, [CallTo(callee, args)], a, a, KeptArgs(c, a, callee, args))
  {
    OneEvent(c, Frame(a, stack), CallTo(callee, args));
    var ds := KeptArgs(c, a, callee, args);
    forall s
      ensures s in CallSources(c.program, Known(c.summaries), c.params, a, callee, args, |args|)
         <==> s in SourcesOf(c, ds)
    {
      CallSourcesAre(c, a, callee, args, |args|, s);
      if s in SourcesOf(c, ds) {
        var d :| d in ds && s in Pointed(c, d.aliases, d.value);
        var i :| 0 <= i < |args| && KeptByCall(c, callee, args, i) && d == Departure(args[i], a);
      } else {
        forall i | 0 <= i < |args| && KeptByCall(c, callee, args, i)
          ensures s !in Pointed(c, a, args[i])
        {
          assert Departure(args[i], a) in ds;
        }
      }
    }
  }

  lemma {:induction false} ExprAgrees(c: Context, stack: seq<set<Source>>, a: Aliases, e: Expr)
    ensures Agrees(c, stack, ExprEvents(e), a, AfterExpr(c, a, e), LeavingExpr(c, a, e))
    decreases e
  {
    match e.kind
    case Local(_) => NothingAgrees(c, stack, a);
    case FunctionRef(_) => NothingAgrees(c, stack, a);
    case Constant => NothingAgrees(c, stack, a);
    case AddressOf(operand) => ExprAgrees(c, stack, a, operand);
    case ArrayToSlice(operand) => ExprAgrees(c, stack, a, operand);
    case SliceOf(base, limits) =>
      var b := AfterExpr(c, a, base);
      ExprAgrees(c, stack, a, base);
      ExprsAgree(c, stack, b, limits);
      AgreesThen(c, stack, ExprEvents(base), ExprsEvents(limits, false), a, b, AfterExprs(c, b, limits),
                 LeavingExpr(c, a, base), LeavingExprs(c, b, limits));
    case Call(callee, args) =>
      var b := AfterExpr(c, a, callee);
      var d := AfterExprs(c, b, args);
      ExprAgrees(c, stack, a, callee);
      ExprsAgree(c, stack, b, args);
      CallAgrees(c, stack, d, callee, args);
      AgreesThen(c, stack, ExprEvents(callee), ExprsEvents(args, false), a, b, d,
                 LeavingExpr(c, a, callee), LeavingExprs(c, b, args));
      AgreesThen(c, stack, ExprEvents(callee) + ExprsEvents(args, false), [CallTo(callee, args)], a, d, d,
                 LeavingExpr(c, a, callee) + LeavingExprs(c, b, args), KeptArgs(c, d, callee, args));
    case Closure(_, body) => StmtsAgree(c, stack, a, body);
    case UnsafeBlock(statements, value) =>
      var b := AfterStmts(c, a, statements);
      StmtsAgree(c, stack, a, statements);
      AnyExprAgrees(c, stack, b, value);
      AgreesThen(c, stack, StmtsEvents(statements), AnyExprEvents(value), a, b, AfterAnyExpr(c, b, value),
                 LeavingStmts(c, a, statements), LeavingAnyExpr(c, b, value));
    case Node(op, children) =>
      assert Publishes(op) <==> op in PUBLISHING;
      if op in PUBLISHING {
        OperandsAgree(c, stack, a, children);
      } else {
        ExprsAgree(c, stack, a, children);
      }
  }

  function AnyExprEvents(e: Option<Expr>): seq<Event> {
    if e.Some? then ExprEvents(e.value) else []
  }

  function AnyStmtEvents(s: Option<Stmt>): seq<Event> {
    if s.Some? then StmtEvents(s.value) else []
  }

  lemma {:induction false} AnyExprAgrees(c: Context, stack: seq<set<Source>>, a: Aliases, e: Option<Expr>)
    ensures Agrees(c, stack, AnyExprEvents(e), a, AfterAnyExpr(c, a, e), LeavingAnyExpr(c, a, e))
    decreases e
  {
    match e
    case None => NothingAgrees(c, stack, a);
    case Some(value) => ExprAgrees(c, stack, a, value);
  }

  lemma {:induction false} ExprsAgree(c: Context, stack: seq<set<Source>>, a: Aliases, es: seq<Expr>)
    ensures Agrees(c, stack, ExprsEvents(es, false), a, AfterExprs(c, a, es), LeavingExprs(c, a, es))
    decreases es
  {
    if es == [] {
      NothingAgrees(c, stack, a);
    } else {
      var b := AfterExpr(c, a, es[0]);
      ExprAgrees(c, stack, a, es[0]);
      ExprsAgree(c, stack, b, es[1..]);
      AgreesThen(c, stack, ExprEvents(es[0]), ExprsEvents(es[1..], false), a, b, AfterExprs(c, b, es[1..]),
                 LeavingExpr(c, a, es[0]), LeavingExprs(c, b, es[1..]));
      assert ExprEvents(es[0]) + [] == ExprEvents(es[0]);
    }
  }

  lemma {:induction false} OperandsAgree(c: Context, stack: seq<set<Source>>, a: Aliases, es: seq<Expr>)
    ensures Agrees(c, stack, ExprsEvents(es, true), a, AfterExprs(c, a, es), LeavingOperands(c, a, es))
    decreases es
  {
    if es == [] {
      NothingAgrees(c, stack, a);
    } else {
      var b := AfterExpr(c, a, es[0]);
      ExprAgrees(c, stack, a, es[0]);
      PublishAgrees(c, stack, b, es[0]);
      OperandsAgree(c, stack, b, es[1..]);
      AgreesThen(c, stack, ExprEvents(es[0]), [Publish(es[0])], a, b, b,
                 LeavingExpr(c, a, es[0]), {Departure(es[0], b)});
      AgreesThen(c, stack, ExprEvents(es[0]) + [Publish(es[0])], ExprsEvents(es[1..], true), a, b,
                 AfterExprs(c, b, es[1..]), LeavingExpr(c, a, es[0]) + {Departure(es[0], b)},
                 LeavingOperands(c, b, es[1..]));
    }
  }

  lemma {:induction false} StmtAgrees(c: Context, stack: seq<set<Source>>, a: Aliases, s: Stmt)
    ensures Agrees(c, stack, StmtEvents(s), a, AfterStmt(c, a, s), LeavingStmt(c, a, s))
    decreases s, 1
  {
    match s
    case Block(statements) => StmtsAgree(c, stack, a, statements);
    case VarDecl(id, None) => UnbindAgrees(c, stack, a, id);
    case VarDecl(id, Some(init)) =>
      var b := AfterExpr(c, a, init);
      ExprAgrees(c, stack, a, init);
      BindAgrees(c, stack, b, id, init);
      AgreesThen(c, stack, ExprEvents(init), [Bind(id, init)], a, b, Assigned(c, b, id, init),
                 LeavingExpr(c, a, init), {});
    case Assign(target, value) => AssignAgrees(c, stack, a, target, value);
    case If(_, _, _) => IfAgrees(c, stack, a, s);
    case While(cond, body) =>
      var b := AfterExpr(c, a, cond);
      ExprAgrees(c, stack, a, cond);
      StmtsAgree(c, stack, b, body);
      AgreesThen(c, stack, ExprEvents(cond), StmtsEvents(body), a, b, AfterStmts(c, b, body),
                 LeavingExpr(c, a, cond), LeavingStmts(c, b, body));
    case For(_, _, _, _) => ForAgrees(c, stack, a, s);
    case Switch(_, _, _) => SwitchAgrees(c, stack, a, s);
    case Effect(expr) => ExprAgrees(c, stack, a, expr);
    case Return(None) => NothingAgrees(c, stack, a);
    case Return(Some(value)) =>
      var b := AfterExpr(c, a, value);
      ExprAgrees(c, stack, a, value);
      PublishAgrees(c, stack, b, value);
      AgreesThen(c, stack, ExprEvents(value), [Publish(value)], a, b, b,
                 LeavingExpr(c, a, value), {Departure(value, b)});
    case Skip => NothingAgrees(c, stack, a);
  }

  lemma {:induction false} AssignAgrees(c: Context, stack: seq<set<Source>>, a: Aliases, target: Expr, value: Expr)
    ensures var s := Assign(target, value);
            Agrees(c, stack, StmtEvents(s), a, AfterStmt(c, a, s), LeavingStmt(c, a, s))
    decreases Assign(target, value), 0
  {
    var b := AfterExpr(c, a, target);
    var d := AfterExpr(c, b, value);
    var evs, ds := ExprEvents(target) + ExprEvents(value), LeavingExpr(c, a, target) + LeavingExpr(c, b, value);
    ExprAgrees(c, stack, a, target);
    ExprAgrees(c, stack, b, value);
    AgreesThen(c, stack, ExprEvents(target), ExprEvents(value), a, b, d,
               LeavingExpr(c, a, target), LeavingExpr(c, b, value));
    if target.kind.Local? {
      BindAgrees(c, stack, d, target.kind.id, value);
      AgreesThen(c, stack, evs, [Bind(target.kind.id, value)], a, d, Assigned(c, d, target.kind.id, value), ds, {});
    } else {
      PublishAgrees(c, stack, d, value);
      AgreesThen(c, stack, evs, [Publish(value)], a, d, d, ds, {Departure(value, d)});
    }
  }

  lemma {:induction false} IfAgrees(c: Context, stack: seq<set<Source>>, a: Aliases, s: Stmt)
    requires s.If?
    ensures Agrees(c, stack, StmtEvents(s), a, AfterStmt(c, a, s), LeavingStmt(c, a, s))
    decreases s, 0
  {
    var If(cond, thenBlock, elseBranch) := s;
    var b := AfterExpr(c, a, cond);
    var d := AfterStmts(c, b, thenBlock);
    ExprAgrees(c, stack, a, cond);
    StmtsAgree(c, stack, b, thenBlock);
    AnyStmtAgrees(c, stack, d, elseBranch);
    AgreesThen(c, stack, ExprEvents(cond), StmtsEvents(thenBlock), a, b, d,
               LeavingExpr(c, a, cond), LeavingStmts(c, b, thenBlock));
    AgreesThen(c, stack, ExprEvents(cond) + StmtsEvents(thenBlock), AnyStmtEvents(elseBranch), a, d,
               AfterAnyStmt(c, d, elseBranch), LeavingExpr(c, a, cond) + LeavingStmts(c, b, thenBlock),
               LeavingAnyStmt(c, d, elseBranch));
  }

  lemma {:induction false} ForAgrees(c: Context, stack: seq<set<Source>>, a: Aliases, s: Stmt)
    requires s.For?
    ensures Agrees(c, stack, StmtEvents(s), a, AfterStmt(c, a, s), LeavingStmt(c, a, s))
    decreases s, 0
  {
    var For(start, test, step, body) := s;
    var b := AfterAnyStmt(c, a, start);
    var d := AfterAnyExpr(c, b, test);
    var e := AfterAnyStmt(c, d, step);
    AnyStmtAgrees(c, stack, a, start);
    AnyExprAgrees(c, stack, b, test);
    AnyStmtAgrees(c, stack, d, step);
    StmtsAgree(c, stack, e, body);
    var x, y := AnyStmtEvents(start), AnyExprEvents(test);
    var xs, ys := LeavingAnyStmt(c, a, start), LeavingAnyExpr(c, b, test);
    AgreesThen(c, stack, x, y, a, b, d, xs, ys);
    AgreesThen(c, stack, x + y, AnyStmtEvents(step), a, d, e, xs + ys, LeavingAnyStmt(c, d, step));
    AgreesThen(c, stack, x + y + AnyStmtEvents(step), StmtsEvents(body), a, e, AfterStmts(c, e, body),
               xs + ys + LeavingAnyStmt(c, d, step), LeavingStmts(c, e, body));
  }

  lemma {:induction false} AnyStmtAgrees(c: Context, stack: seq<set<Source>>, a: Aliases, s: Option<Stmt>)
    ensures Agrees(c, stack, AnyStmtEvents(s), a, AfterAnyStmt(c, a, s), LeavingAnyStmt(c, a, s))
    decreases s
  {
    match s
    case None => NothingAgrees(c, stack, a);
    case Some(statement) => StmtAgrees(c, stack, a, statement);
  }

  lemma {:induction false} StmtsAgree(c: Context, stack: seq<set<Source>>, a: Aliases, ss: seq<Stmt>)
    ensures Agrees(c, stack, StmtsEvents(ss), a, AfterStmts(c, a, ss), LeavingStmts(c, a, ss))
    decreases ss
  {
    if ss == [] {
      NothingAgrees(c, stack, a);
    } else {
      var b := AfterStmt(c, a, ss[0]);
      StmtAgrees(c, stack, a, ss[0]);
      StmtsAgree(c, stack, b, ss[1..]);
      AgreesThen(c, stack, StmtEvents(ss[0]), StmtsEvents(ss[1..]), a, b, AfterStmts(c, b, ss[1..]),
                 LeavingStmt(c, a, ss[0]), LeavingStmts(c, b, ss[1..]));
    }
  }

  lemma {:induction false} PatternAgrees(
      c: Context, stack: seq<set<Source>>, whole: set<Source>, a: Aliases, p: Pattern)
    ensures Agrees(c, stack + [whole], PatternEvents(p), a, AfterPattern(a, whole, p), {})
    decreases p
  {
    match p
    case Wildcard => NothingAgrees(c, stack + [whole], a);
    case Binding(id, ty) =>
      CarriesPointerIsMayPoint(ty);
      OneEvent(c, Frame(a, stack + [whole]), BindPattern(id, CarriesPointer(ty)));
    case Variant(payload) => PatternsAgree(c, stack, whole, a, payload);
  }

  lemma {:induction false} PatternsAgree(
      c: Context, stack: seq<set<Source>>, whole: set<Source>, a: Aliases, ps: seq<Pattern>)
    ensures Agrees(c, stack + [whole], PatternsEvents(ps), a, AfterPatterns(a, whole, ps), {})
    decreases ps
  {
    if ps == [] {
      NothingAgrees(c, stack + [whole], a);
    } else {
      var b := AfterPattern(a, whole, ps[0]);
      PatternAgrees(c, stack, whole, a, ps[0]);
      PatternsAgree(c, stack, whole, b, ps[1..]);
      AgreesThen(c, stack + [whole], PatternEvents(ps[0]), PatternsEvents(ps[1..]), a, b,
                 AfterPatterns(b, whole, ps[1..]), {}, {});
    }
  }

  lemma {:induction false} CasesAgree(
      c: Context, stack: seq<set<Source>>, whole: set<Source>, a: Aliases, cs: seq<Case>)
    ensures Agrees(c, stack + [whole], CasesEvents(cs), a, AfterCases(c, a, whole, cs), LeavingCases(c, a, whole, cs))
    decreases cs
  {
    var inner := stack + [whole];
    if cs == [] {
      NothingAgrees(c, inner, a);
    } else {
      var b := AfterPattern(a, whole, cs[0].pattern);
      var d := AfterStmts(c, b, cs[0].statements);
      PatternAgrees(c, stack, whole, a, cs[0].pattern);
      StmtsAgree(c, inner, b, cs[0].statements);
      CasesAgree(c, stack, whole, d, cs[1..]);
      AgreesThen(c, inner, PatternEvents(cs[0].pattern), StmtsEvents(cs[0].statements), a, b, d,
                 {}, LeavingStmts(c, b, cs[0].statements));
      AgreesThen(c, inner, PatternEvents(cs[0].pattern) + StmtsEvents(cs[0].statements), CasesEvents(cs[1..]), a, d,
                 AfterCases(c, d, whole, cs[1..]), {} + LeavingStmts(c, b, cs[0].statements),
                 LeavingCases(c, d, whole, cs[1..]));
    }
  }

  /** The branches run with the scrutinee on the stack, which is left as it was. */
  lemma BranchesAgree(c: Context, stack: seq<set<Source>>, a: Aliases, b: Aliases, scrutinee: Expr,
                      evs: seq<Event>, ds: set<Departure>)
    requires Agrees(c, stack + [Pointed(c, a, scrutinee)], evs, a, b, ds)
    ensures Agrees(c, stack, [EnterSwitch(scrutinee)] + evs + [LeaveSwitch], a, b, ds)
  {
    var inner := stack + [Pointed(c, a, scrutinee)];
    OneEvent(c, Frame(a, stack), EnterSwitch(scrutinee));
    OneEvent(c, Frame(b, inner), LeaveSwitch);
    assert inner[..|inner| - 1] == stack;
    FramesConcat(c, Frame(a, stack), [EnterSwitch(scrutinee)], evs);
    FramesConcat(c, Frame(a, stack), [EnterSwitch(scrutinee)] + evs, [LeaveSwitch]);
  }

  lemma {:induction false} SwitchAgrees(c: Context, stack: seq<set<Source>>, a: Aliases, s: Stmt)
    requires s.Switch?
    ensures Agrees(c, stack, StmtEvents(s), a, AfterStmt(c, a, s), LeavingStmt(c, a, s))
    decreases s, 0
  {
    var Switch(scrutinee, cases, default) := s;
    var b := AfterExpr(c, a, scrutinee);
    var whole := Pointed(c, b, scrutinee);
    var d := AfterCases(c, b, whole, cases);
    var e := AfterStmts(c, d, default);
    ExprAgrees(c, stack, a, scrutinee);
    CasesAgree(c, stack, whole, b, cases);
    StmtsAgree(c, stack + [whole], d, default);
    var evs := CasesEvents(cases) + StmtsEvents(default);
    var ds := LeavingCases(c, b, whole, cases) + LeavingStmts(c, d, default);
    AgreesThen(c, stack + [whole], CasesEvents(cases), StmtsEvents(default), b, d, e,
               LeavingCases(c, b, whole, cases), LeavingStmts(c, d, default));
    BranchesAgree(c, stack, b, e, scrutinee, evs, ds);
    AgreesThen(c, stack, ExprEvents(scrutinee), [EnterSwitch(scrutinee)] + evs + [LeaveSwitch], a, b, e,
               LeavingExpr(c, a, scrutinee), ds);
    SwitchEvents(s);
    assert LeavingStmt(c, a, s) == LeavingExpr(c, a, scrutinee) + ds;
  }

  lemma SwitchEvents(s: Stmt)
    requires s.Switch?
    ensures StmtEvents(s) == ExprEvents(s.scrutinee)
              + ([EnterSwitch(s.scrutinee)] + (CasesEvents(s.cases) + StmtsEvents(s.default)) + [LeaveSwitch])
  {
  }

  // ---- The answer of the analysis

  /** The values that leave the function. */
  function Departures(program: Program, summaries: map<DefId, Summary>, f: Fn): set<Departure> {
    match f.body
    case None => {}
    case Some(body) => LeavingStmts(Context(program, summaries, ParamMap(f.params)), map[], body)
  }

  /** Some value that leaves the function points to the storage. */
  ghost predicate LeavesIn(params: map<LocalId, nat>, ds: set<Departure>, src: Source) {
    exists d :: d in ds && PointsTo(params, d.aliases, d.value, src)
  }

  lemma SourcesLeave(c: Context, ds: set<Departure>, src: Source)
    ensures src in SourcesOf(c, ds) <==> LeavesIn(c.params, ds, src)
  {
    forall d | d in ds
      ensures src in Pointed(c, d.aliases, d.value) <==> PointsTo(c.params, d.aliases, d.value, src)
    {
      SourcesArePointedTo(c.params, d.aliases, d.value, src);
    }
  }

  lemma AnalysisIsDepartures(program: Program, summaries: map<DefId, Summary>, f: Fn)
    ensures var c := Context(program, summaries, ParamMap(f.params));
            Analyze(program, Known(summaries), f) == ToSummary(SourcesOf(c, Departures(program, summaries, f)))
  {
    if f.body.Some? {
      StmtsAgree(Context(program, summaries, ParamMap(f.params)), [], map[], f.body.value);
    }
  }

  /** The analysis of a function puts a local on the heap, or reports a parameter, if and only if some value
      that leaves the function points to it. */
  lemma WhatEscapes(program: Program, summaries: map<DefId, Summary>, f: Fn, id: LocalId, i: nat)
    ensures var params, ds := ParamMap(f.params), Departures(program, summaries, f);
            var answer := Analyze(program, Known(summaries), f);
            && (id in answer.heap <==> LeavesIn(params, ds, OfLocal(id)))
            && (i in answer.params <==> LeavesIn(params, ds, OfParam(i)))
  {
    var c := Context(program, summaries, ParamMap(f.params));
    var ds := Departures(program, summaries, f);
    AnalysisIsDepartures(program, summaries, f);
    SourcesLeave(c, ds, OfLocal(id));
    SourcesLeave(c, ds, OfParam(i));
  }

  /** In the summaries that the whole analysis arrives at, the summary of every function with a body is exactly
      what leaves it when its callees keep what their summaries say. */
  lemma SolutionIsWhatLeaves(fs: seq<Fn>, s: map<DefId, Summary>, f: Fn, id: LocalId, i: nat)
    requires EscapeFixpoint.Solution(fs, s) && f in fs && f.body.Some?
    ensures var params, ds := ParamMap(f.params), Departures(EscapeFixpoint.ProgramOf(fs), s, f);
            && f.id in s
            && (id in s[f.id].heap <==> LeavesIn(params, ds, OfLocal(id)))
            && (i in s[f.id].params <==> LeavesIn(params, ds, OfParam(i)))
  {
    WhatEscapes(EscapeFixpoint.ProgramOf(fs), s, f, id, i);
  }

  /** A local stands for the last parameter that declares it. */
  lemma {:induction false} ParamsByLocal(params: seq<Param>, id: LocalId)
    ensures id in ParamMap(params) <==> exists i :: 0 <= i < |params| && params[i].local == Some(id)
    ensures id in ParamMap(params) ==>
              var i := ParamMap(params)[id];
              && i < |params| && params[i].local == Some(id)
              && forall j :: i < j < |params| ==> params[j].local != Some(id)
    decreases |params|
  {
    if params != [] {
      ParamsByLocal(params[..|params| - 1], id);
    }
  }
}
