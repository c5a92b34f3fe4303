/** The monomorphization worklist as functions on its state. */
module Mono {
  import opened Wrappers
  import opened Types

  /** An implementation of an interface that some expression needs: a witness for a dynamic value, an awaitable,
      a message that can be cloned. */
  datatype Want = Want(interfaceId: DefId, args: seq<Ty>, receiver: Ty)

  /** A function body, reduced to its references to functions, its references to generic templates, and the
      implementations it needs. `wants` are tried in order. `seen` is a note of the model: how many
      implementations the program had when the body was rewritten. */
  datatype Body =
    | Ref(def: DefId)
    | Generic(template: DefId, args: seq<Ty>)
    | Uses(wants: seq<Want>, seen: nat)
    | Node(children: seq<Body>)

  datatype Fn = Fn(def: DefId, body: Option<Body>)

  datatype Key = Key(template: DefId, args: seq<Ty>)

  type Diagnostic = string

  datatype Outcome<+T> = Fine(value: T) | Failed(diagnostics: seq<Diagnostic>)

  datatype Head = Head(interfaceId: DefId, args: seq<Ty>, receiver: Option<Ty>)

  datatype Impl = Impl(head: Head, fn: DefId)

  /** What checking a generic instance gives: its function, and the functions and implementations generated
      for it. */
  datatype Instance = Instance(fn: Fn, generated: seq<Fn>, impls: seq<Impl>)

  /** What the worklist is given: the templates, the type checker, the test for growing type arguments, and the
      test whether an implementation serves a want. The checker sees how often it was called before, so its
      answers may depend on anything it keeps. */
  datatype Setting = Setting(
    templates: set<DefId>,
    check: (nat, Key, DefId, nat) -> Outcome<Instance>,
    grows: (seq<Ty>, seq<Ty>) -> bool,
    serves: (Head, Want) -> bool)

  datatype State = State(
    functions: map<DefId, Fn>,
    impls: seq<Impl>,
    processed: map<DefId, Fn>,
    queued: set<DefId>,
    worklist: seq<DefId>,
    instances: map<Key, DefId>,
    chains: map<DefId, seq<Key>>,
    nextDef: nat,
    calls: nat,
    diagnostics: seq<Diagnostic>)

  function Mark(s: State, d: DefId): State {
    if d in s.processed || d !in s.functions || d in s.queued then s
    else s.(queued := s.queued + {d}, worklist := s.worklist + [d])
  }

  // ---- Implementations

  /** The function of the first implementation that serves the want. */
  function FirstServing(c: Setting, impls: seq<Impl>, w: Want): Option<DefId>
    decreases |impls|
  {
    if impls == [] then None
    else if c.serves(impls[0].head, w) then Some(impls[0].fn)
    else FirstServing(c, impls[1..], w)
  }

  function Lookup(c: Setting, impls: seq<Impl>, wants: seq<Want>): Option<DefId>
    decreases |wants|
  {
    if wants == [] then None
    else
      var found := FirstServing(c, impls, wants[0]);
      if found.Some? then found else Lookup(c, impls, wants[1..])
  }

  /** New implementations are appended, unless the program has one for the same interface and types. */
  function AddImpls(impls: seq<Impl>, more: seq<Impl>): (r: seq<Impl>)
    ensures impls <= r
    decreases |more|
  {
    if more == [] then impls
    else if exists i :: 0 <= i < |impls| && impls[i].head == more[0].head then AddImpls(impls, more[1..])
    else AddImpls(impls + [more[0]], more[1..])
  }

  function ImplIds(impls: seq<Impl>): (r: seq<DefId>)
    ensures |r| == |impls| && forall i :: 0 <= i < |impls| ==> r[i] == impls[i].fn
  {
    if impls == [] then [] else [impls[0].fn] + ImplIds(impls[1..])
  }

  // ---- Instances

  function Occurrences(stack: seq<Key>, template: DefId): seq<Key> {
    if stack == [] then []
    else
      var rest := Occurrences(stack[1..], template);
      if stack[0].template == template then [stack[0]] + rest else rest
  }

  /** The template was already expanded twice on the way here, and the type arguments still grow. */
  predicate InfiniteGrowth(c: Setting, stack: seq<Key>, key: Key) {
    var same := Occurrences(stack, key.template);
    |same| >= 2 && c.grows(same[|same| - 1].args, key.args)
  }

  function Above(n: nat, ids: seq<DefId>): (r: nat)
    ensures n <= r && forall i :: 0 <= i < |ids| ==> ids[i] < r
    decreases |ids|
  {
    if ids == [] then n
    else
      var m := if n <= ids[0] then ids[0] + 1 else n;
      Above(m, ids[1..])
  }

  function Ids(fs: seq<Fn>): (r: seq<DefId>)
    ensures |r| == |fs| && forall i :: 0 <= i < |fs| ==> r[i] == fs[i].def
  {
    if fs == [] then [] else [fs[0].def] + Ids(fs[1..])
  }

  function AddAll(m: map<DefId, Fn>, fs: seq<Fn>): map<DefId, Fn>
    decreases |fs|
  {
    if fs == [] then m else AddAll(m[fs[0].def := fs[0]], fs[1..])
  }

  function Instantiate(c: Setting, s: State, stack: seq<Key>, key: Key): (State, Outcome<DefId>) {
    if key in s.instances then (s, Fine(s.instances[key]))
    else if key.template !in c.templates then (s, Failed(["missing generic function template"]))
    else if InfiniteGrowth(c, stack, key) then (s, Failed(["infinite generic instantiation cycle"]))
    else
      var id := s.nextDef;
      var started := s.(nextDef := id + 1, calls := s.calls + 1);
      match c.check(s.calls, key, id, id + 1)
      case Failed(diagnostics) => (started, Failed(diagnostics))
      case Fine(instance) => (Mark(AddInstance(started, stack, key, id, instance), id), Fine(id))
  }

  function AddInstance(s: State, stack: seq<Key>, key: Key, id: DefId, instance: Instance): State {
    var impls := AddImpls(s.impls, instance.impls);
    s.(nextDef := Above(Above(s.nextDef, ImplIds(impls[|s.impls|..])), Ids(instance.generated)),
       impls := impls,
       functions := AddAll(s.functions, instance.generated)[id := instance.fn],
       instances := s.instances[key := id],
       chains := s.chains[id := stack + [key]])
  }

  // ---- Bodies

  function Rewrite(c: Setting, s: State, stack: seq<Key>, e: Body): (State, Outcome<Body>)
    decreases e, 0
  {
    match e
    case Ref(d) => (Mark(s, d), Fine(e))
    case Generic(template, args) =>
      var (t, id) := Instantiate(c, s, stack, Key(template, args));
      (t, match id case Fine(d) => Fine(Ref(d)) case Failed(diagnostics) => Failed(diagnostics))
    case Uses(wants, _) =>
      var found := Lookup(c, s.impls, wants);
      (if found.Some? then Mark(s, found.value) else s, Fine(Uses(wants, |s.impls|)))
    case Node(children) =>
      var (t, r) := RewriteAll(c, s, stack, children);
      (t, match r case Fine(es) => Fine(Node(es)) case Failed(diagnostics) => Failed(diagnostics))
  }

  /** Children from left to right, up to the first that fails. */
  function RewriteAll(c: Setting, s: State, stack: seq<Key>, es: seq<Body>): (State, Outcome<seq<Body>>)
    decreases es, 1
  {
    if es == [] then (s, Fine([]))
    else
      var (t, first) := Rewrite(c, s, stack, es[0]);
      if first.Failed? then (t, Failed(first.diagnostics))
      else
        var (u, rest) := RewriteAll(c, t, stack, es[1..]);
        (u, match rest case Fine(more) => Fine([first.value] + more) case Failed(diagnostics) => Failed(diagnostics))
  }

  // ---- The worklist

  function Chain(s: State, d: DefId): seq<Key> {
    if d in s.chains then s.chains[d] else []
  }

  function Process(c: Setting, s: State, d: DefId): State {
    if d in s.processed || d !in s.functions then s
    else
      var f := s.functions[d];
      if f.body.None? then s.(processed := s.processed[d := f])
      else
        var (t, r) := Rewrite(c, s, Chain(s, d), f.body.value);
        match r
        case Fine(body) => t.(processed := t.processed[d := Fn(f.def, Some(body))])
        case Failed(diagnostics) =>
          t.(processed := t.processed[d := Fn(f.def, None)], diagnostics := t.diagnostics + diagnostics)
  }

  function Step(c: Setting, s: State): State
    requires s.worklist != []
  {
    Process(c, s.(worklist := s.worklist[1..]), s.worklist[0])
  }

  /** The state after at most `n` turns of the loop. */
  function Run(c: Setting, s: State, n: nat): State
    decreases n
  {
    if n == 0 || s.worklist == [] then s else Run(c, Step(c, s), n - 1)
  }

  function MarkAll(s: State, roots: seq<DefId>): State
    decreases |roots|
  {
    if roots == [] then s else MarkAll(Mark(s, roots[0]), roots[1..])
  }

  /** The checked program: its functions, its implementations, all definitions of the resolver. */
  datatype Program = Program(functions: seq<Fn>, impls: seq<Impl>, defs: seq<DefId>)

  function New(p: Program): State {
    State(AddAll(map[], p.functions), p.impls, map[], {}, [], map[], map[],
          Above(Above(Above(0, Ids(p.functions)), ImplIds(p.impls)), p.defs), 0, [])
  }

  function Start(p: Program, roots: seq<DefId>): State {
    MarkAll(New(p), roots)
  }
}
