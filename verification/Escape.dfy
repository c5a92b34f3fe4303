/** Interprocedural escape analysis: what one pass over a body computes. */
module Escape {
  import opened Wrappers
  import opened Types

  type LocalId = nat

  // ---- Checked bodies

  datatype Capture = Capture(id: LocalId, ty: Ty)

  datatype Expr = Expr(ty: Ty, kind: Kind)

  datatype Kind =
    | Local(id: LocalId)
    | FunctionRef(def: DefId)
    | Constant                                          // literals, generic references, type queries
    | AddressOf(operand: Expr)
    | ArrayToSlice(operand: Expr)
    | SliceOf(base: Expr, limits: seq<Expr>)
    | Call(callee: Expr, args: seq<Expr>)
    | Closure(captures: seq<Capture>, body: seq<Stmt>)
    | UnsafeBlock(statements: seq<Stmt>, value: Option<Expr>)
    | Node(op: NodeOp, children: seq<Expr>)

  /** The expression forms that treat all their operands alike. */
  datatype NodeOp =
    | Move | SliceToConst | RawSliceFromPtr | StructLiteral | EnumLiteral | ArrayLiteral | ArrayRepeat
    | FunctionToClosure | RetainClosure | Cast | Try | Binary
    | Await | AsyncBlockOn | AsyncSelect | AsyncSleep | AsyncSpawn | AsyncTaskCancel | AsyncTaskIsFinished
    | MetaIntoRepr | MetaFromRepr | MetaAsRefRepr
    | ActorSpawn | ActorSend | ActorStop | ActorJoin
    | UnaryOther | Field | Arrow | Index
    | MakeDynamicInterface | ErrorBox | ReportBox | CloneMessage
    | DynamicInterfaceCall | RetainedClosureInterfaceCall

  /** The result may point to whatever the operands point to. */
  predicate Forwards(op: NodeOp) {
    match op
    case UnaryOther => false
    case Field => false
    case Arrow => false
    case Index => false
    case MakeDynamicInterface => false
    case ErrorBox => false
    case ReportBox => false
    case CloneMessage => false
    case DynamicInterfaceCall => false
    case RetainedClosureInterfaceCall => false
    case _ => true
  }

  /** The operands leave the function. */
  predicate Publishes(op: NodeOp) {
    match op
    case MetaAsRefRepr => true
    case MakeDynamicInterface => true
    case ErrorBox => true
    case ReportBox => true
    case CloneMessage => true
    case DynamicInterfaceCall => true
    case RetainedClosureInterfaceCall => true
    case _ => false
  }

  datatype Pattern = Wildcard | Binding(id: LocalId, ty: Ty) | Variant(payload: seq<Pattern>)

  datatype Case = Case(pattern: Pattern, statements: seq<Stmt>)

  /** The clauses of `for` are statements of the forms VarDecl, Assign and Effect. */
  datatype Stmt =
    | Block(statements: seq<Stmt>)
    | VarDecl(id: LocalId, init: Option<Expr>)
    | Assign(target: Expr, value: Expr)
    | If(cond: Expr, thenBlock: seq<Stmt>, elseBranch: Option<Stmt>)
    | While(cond: Expr, body: seq<Stmt>)
    | For(start: Option<Stmt>, test: Option<Expr>, step: Option<Stmt>, body: seq<Stmt>)
    | Switch(scrutinee: Expr, cases: seq<Case>, default: seq<Stmt>)
    | Effect(expr: Expr)                                // expression statements, defer, cleanup
    | Return(result: Option<Expr>)
    | Skip                                              // break, continue

  datatype Param = Param(local: Option<LocalId>, ty: Ty)

  datatype Fn = Fn(id: DefId, noescape: bool, params: seq<Param>, body: Option<seq<Stmt>>)

  predicate CarriesPointer(t: Ty) {
    match t
    case Pointer(_, _, _) => true
    case Slice(_, _) => true
    case DynamicInterface(_, _, _) => true
    case Function(_, _, _, _) => true
    case Closure(_, _, _) => true
    case ClosureInstance(_, _, _, _) => true
    case Array(_, elem) => CarriesPointer(elem)
    case Named(_, _, _) => true
    case _ => false
  }

  // ---- What a pass does, as a list of events

  /** The points of a pass that touch its state, in the order they happen. */
  datatype Event =
    | Bind(id: LocalId, value: Expr)                    // the local now aliases what the value points to
    | Unbind(id: LocalId)
    | Publish(value: Expr)
    | CallTo(callee: Expr, args: seq<Expr>)
    | EnterSwitch(scrutinee: Expr)
    | BindPattern(id: LocalId, carries: bool)           // aliases the scrutinee of the innermost switch
    | LeaveSwitch

  function ExprEvents(e: Expr): seq<Event>
    decreases e, 0
  {
    match e.kind
    case Local(_) => []
    case FunctionRef(_) => []
    case Constant => []
    case AddressOf(operand) => ExprEvents(operand)
    case ArrayToSlice(operand) => ExprEvents(operand)
    case SliceOf(base, limits) => ExprEvents(base) + ExprsEvents(limits, false)
    case Call(callee, args) => ExprEvents(callee) + ExprsEvents(args, false) + [CallTo(callee, args)]
    case Closure(_, body) => StmtsEvents(body)
    case UnsafeBlock(statements, value) =>
      StmtsEvents(statements) + if value.Some? then ExprEvents(value.value) else []
    case Node(op, children) => ExprsEvents(children, Publishes(op))
  }

  function ExprsEvents(es: seq<Expr>, publish: bool): seq<Event>
    decreases es, 0
  {
    if es == [] then []
    else ExprEvents(es[0]) + (if publish then [Publish(es[0])] else []) + ExprsEvents(es[1..], publish)
  }

  function AssignEvents(target: Expr, value: Expr): seq<Event>
    decreases target, value, 1
  {
    [if target.kind.Local? then Bind(target.kind.id, value) else Publish(value)]
  }

  function StmtEvents(s: Stmt): seq<Event>
    decreases s, 2
  {
    match s
    case Block(statements) => StmtsEvents(statements)
    case VarDecl(id, init) => if init.Some? then ExprEvents(init.value) + [Bind(id, init.value)] else [Unbind(id)]
    case Assign(target, value) => ExprEvents(target) + ExprEvents(value) + AssignEvents(target, value)
    case If(cond, thenBlock, elseBranch) =>
      ExprEvents(cond) + StmtsEvents(thenBlock) + if elseBranch.Some? then StmtEvents(elseBranch.value) else []
    case While(cond, body) => ExprEvents(cond) + StmtsEvents(body)
    case For(start, test, step, body) =>
      (if start.Some? then StmtEvents(start.value) else []) + (if test.Some? then ExprEvents(test.value) else [])
      + (if step.Some? then StmtEvents(step.value) else []) + StmtsEvents(body)
    case Switch(scrutinee, cases, default) =>
      ExprEvents(scrutinee) + [EnterSwitch(scrutinee)] + CasesEvents(cases) + StmtsEvents(default) + [LeaveSwitch]
    case Effect(expr) => ExprEvents(expr)
    case Return(result) => if result.Some? then ExprEvents(result.value) + [Publish(result.value)] else []
    case Skip => []
  }

  function StmtsEvents(ss: seq<Stmt>): seq<Event>
    decreases ss, 0
  {
    if ss == [] then [] else StmtEvents(ss[0]) + StmtsEvents(ss[1..])
  }

  function CasesEvents(cs: seq<Case>): seq<Event>
    decreases cs, 0
  {
    if cs == [] then []
    else PatternEvents(cs[0].pattern) + StmtsEvents(cs[0].statements) + CasesEvents(cs[1..])
  }

  function PatternEvents(p: Pattern): seq<Event>
    decreases p, 1
  {
    match p
    case Wildcard => []
    case Binding(id, ty) => [BindPattern(id, CarriesPointer(ty))]
    case Variant(payload) => PatternsEvents(payload)
  }

  function PatternsEvents(ps: seq<Pattern>): seq<Event>
    decreases ps, 0
  {
    if ps == [] then [] else PatternEvents(ps[0]) + PatternsEvents(ps[1..])
  }

  // ---- Storage sources

  datatype Source = OfLocal(id: LocalId) | OfParam(index: nat)

  type Aliases = map<LocalId, set<Source>>

  /** The storage named by taking the address of a local. */
  function StorageOf(params: map<LocalId, nat>, id: LocalId): Source {
    if id in params then OfParam(params[id]) else OfLocal(id)
  }

  function LocalSources(params: map<LocalId, nat>, aliases: Aliases, id: LocalId, ty: Ty): set<Source> {
    if id in aliases then aliases[id]
    else if id in params && CarriesPointer(ty) then {OfParam(params[id])}
    else {}
  }

  function Sources(params: map<LocalId, nat>, aliases: Aliases, e: Expr): set<Source>
    decreases e
  {
    match e.kind
    case Local(id) => LocalSources(params, aliases, id, e.ty)
    case AddressOf(operand) =>
      if operand.kind.Local? then {StorageOf(params, operand.kind.id)} else Sources(params, aliases, operand)
    case ArrayToSlice(operand) =>
      if operand.kind.Local? then {StorageOf(params, operand.kind.id)} else Sources(params, aliases, operand)
    case SliceOf(base, _) =>
      if base.ty.Array? && base.kind.Local? then {StorageOf(params, base.kind.id)}
      else Sources(params, aliases, base)
    case Closure(captures, _) =>
      set c, s | c in captures && s in LocalSources(params, aliases, c.id, c.ty) :: s
    case UnsafeBlock(_, value) => if value.Some? then Sources(params, aliases, value.value) else {}
    case Node(op, children) => if Forwards(op) then AllSources(params, aliases, children) else {}
    case _ => {}
  }

  function AllSources(params: map<LocalId, nat>, aliases: Aliases, es: seq<Expr>): set<Source>
    decreases es
  {
    if es == [] then {} else Sources(params, aliases, es[0]) + AllSources(params, aliases, es[1..])
  }

  // ---- Running the events

  /** The aliases of the locals, and the sources of the enclosing switch scrutinees. */
  datatype Frame = Frame(aliases: Aliases, scrutinees: seq<set<Source>>)

  function NextFrame(params: map<LocalId, nat>, frame: Frame, ev: Event): Frame {
    match ev
    case Bind(id, value) =>
      var sources := Sources(params, frame.aliases, value);
      frame.(aliases := if sources == {} then frame.aliases - {id} else frame.aliases[id := sources])
    case Unbind(id) => frame.(aliases := frame.aliases - {id})
    case EnterSwitch(scrutinee) =>
      frame.(scrutinees := frame.scrutinees + [Sources(params, frame.aliases, scrutinee)])
    case BindPattern(id, carries) =>
      if carries && frame.scrutinees != [] then
        frame.(aliases := frame.aliases[id := frame.scrutinees[|frame.scrutinees| - 1]])
      else frame.(aliases := frame.aliases - {id})
    case LeaveSwitch =>
      if frame.scrutinees == [] then frame else frame.(scrutinees := frame.scrutinees[..|frame.scrutinees| - 1])
    case Publish(_) => frame
    case CallTo(_, _) => frame
  }

  datatype Summary = Summary(heap: set<LocalId>, params: set<nat>)

  /** What is known about callees: their summaries, or that every argument escapes. */
  datatype Oracle = Known(summaries: map<DefId, Summary>) | Everything

  datatype Program = Program(functions: map<DefId, Fn>)

  function ExternSummary(f: Fn): Summary {
    if f.noescape then Summary({}, {})
    else Summary({}, set i | 0 <= i < |f.params| && CarriesPointer(f.params[i].ty))
  }

  predicate EscapesThrough(program: Program, oracle: Oracle, def: DefId, i: nat)
    requires def in program.functions
  {
    match oracle
    case Known(summaries) =>
      i in (if def in summaries then summaries[def] else ExternSummary(program.functions[def])).params
    case Everything => true
  }

  /** Argument `i` of the call leaves the caller. */
  predicate ArgEscapes(program: Program, oracle: Oracle, callee: Expr, args: seq<Expr>, i: nat)
    requires i < |args|
  {
    if callee.kind.FunctionRef? && callee.kind.def in program.functions then
      EscapesThrough(program, oracle, callee.kind.def, i)
    else CarriesPointer(args[i].ty)
  }

  /** What escapes through the first `n` arguments of a call. */
  function CallSources(program: Program, oracle: Oracle, params: map<LocalId, nat>, aliases: Aliases,
                       callee: Expr, args: seq<Expr>, n: nat): set<Source>
    requires n <= |args|
  {
    if n == 0 then {}
    else
      CallSources(program, oracle, params, aliases, callee, args, n - 1)
      + if ArgEscapes(program, oracle, callee, args, n - 1) then Sources(params, aliases, args[n - 1]) else {}
  }

  function EventSources(program: Program, oracle: Oracle, params: map<LocalId, nat>, frame: Frame, ev: Event)
    : set<Source>
  {
    match ev
    case Publish(value) => Sources(params, frame.aliases, value)
    case CallTo(callee, args) => CallSources(program, oracle, params, frame.aliases, callee, args, |args|)
    case _ => {}
  }

  function FrameAfter(params: map<LocalId, nat>, frame: Frame, evs: seq<Event>): Frame
    decreases |evs|
  {
    if evs == [] then frame else FrameAfter(params, NextFrame(params, frame, evs[0]), evs[1..])
  }

  /** Everything that escapes while the events run. */
  function Escaping(program: Program, oracle: Oracle, params: map<LocalId, nat>, frame: Frame, evs: seq<Event>)
    : set<Source>
    decreases |evs|
  {
    if evs == [] then {}
    else
      EventSources(program, oracle, params, frame, evs[0])
      + Escaping(program, oracle, params, NextFrame(params, frame, evs[0]), evs[1..])
  }

  function ToSummary(sources: set<Source>): Summary {
    Summary(set s | s in sources && s.OfLocal? :: s.id, set s | s in sources && s.OfParam? :: s.index)
  }

  function ParamMap(params: seq<Param>): map<LocalId, nat>
    decreases |params|
  {
    if params == [] then map[]
    else
      var earlier, last := ParamMap(params[..|params| - 1]), params[|params| - 1];
      if last.local.Some? then earlier[last.local.value := |params| - 1] else earlier
  }

  /** `analyze_function`. */
  function Analyze(program: Program, oracle: Oracle, f: Fn): Summary {
    if f.body.None? then Summary({}, {})
    else ToSummary(Escaping(program, oracle, ParamMap(f.params), Frame(map[], []), StmtsEvents(f.body.value)))
  }
}
