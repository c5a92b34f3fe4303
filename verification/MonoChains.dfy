/** Where instances come from: the chain of an instance is that of the function that asked for it, and one more. */
module MonoChains {
  import opened Wrappers
  import opened Types
  import opened Mono
  import opened MonoClosure

  /** The body refers to the template with the type arguments. */
  ghost predicate Mentions(e: Body, k: Key)
    decreases e
  {
    match e
    case Ref(_) => false
    case Generic(template, args) => k.template == template && k.args == args
    case Uses(_, _) => false
    case Node(children) => MentionedIn(children, k)
  }

  ghost predicate MentionedIn(es: seq<Body>, k: Key)
    decreases es
  {
    exists i :: 0 <= i < |es| && Mentions(es[i], k)
  }

  /** How the function came about: by these expansions, or by none if it is no instance. */
  ghost function Path(s: State, d: DefId): seq<Key> {
    if d in s.chains then s.chains[d] else []
  }

  ghost predicate MentionedBy(s: State, d: DefId, k: Key) {
    d in s.functions && s.functions[d].body.Some? && Mentions(s.functions[d].body.value, k)
  }

  /** The instance was asked for in the body of `d`. */
  ghost predicate AskedBy(s: State, k: Key, d: DefId)
    requires k in s.instances
  {
    && d in s.queued && MentionedBy(s, d, k)
    && Path(s, s.instances[k]) == Path(s, d) + [k]
  }

  ghost predicate Lineage(s: State) {
    forall k :: k in s.instances ==> exists d :: AskedBy(s, k, d)
  }

  ghost predicate Numbered(s: State) {
    forall d :: d in s.chains ==> d < s.nextDef
  }

  ghost predicate ChainsKept(s: State, t: State) {
    && s.nextDef <= t.nextDef
    && (forall d :: d in s.chains ==> d in t.chains && t.chains[d] == s.chains[d])
    && (forall d :: d in t.chains && d !in s.chains ==> s.nextDef <= d)
    && (forall k :: k in s.instances ==> k in t.instances && t.instances[k] == s.instances[k])
  }

  /** Every new instance is mentioned, and its chain is the stack and its key. */
  ghost predicate Asks(s: State, t: State, stack: seq<Key>, mentioned: Key -> bool) {
    forall k :: k in t.instances && k !in s.instances ==>
      mentioned(k) && t.instances[k] in t.chains && t.chains[t.instances[k]] == stack + [k]
  }

  lemma MarkAsks(s: State, d: DefId)
    requires Numbered(s)
    ensures Numbered(Mark(s, d)) && ChainsKept(s, Mark(s, d)) && Mark(s, d).instances == s.instances
  {
  }

  lemma AddedAsks(s: State, stack: seq<Key>, key: Key, instance: Instance)
    requires Numbered(s) && key !in s.instances
    ensures var t := Added(s, stack, key, instance);
            Numbered(t) && ChainsKept(s, t) && Asks(s, t, stack, k => k == key)
  {
  }

  lemma InstantiateAsks(c: Setting, s: State, stack: seq<Key>, key: Key)
    requires Numbered(s)
    ensures var t := Instantiate(c, s, stack, key).0;
            Numbered(t) && ChainsKept(s, t) && Asks(s, t, stack, k => k == key)
  {
    if key !in s.instances && key.template in c.templates && !InfiniteGrowth(c, stack, key) {
      InstantiateChecks(c, s, stack, key);
      match c.check(s.calls, key, s.nextDef, s.nextDef + 1)
      case Fine(instance) => AddedAsks(s, stack, key, instance);
      case Failed(_) =>
    }
  }

  lemma AsksThen(s: State, t: State, u: State, stack: seq<Key>, x: Key -> bool, y: Key -> bool, both: Key -> bool)
    requires ChainsKept(s, t) && ChainsKept(t, u) && Asks(s, t, stack, x) && Asks(t, u, stack, y)
    requires forall k :: x(k) || y(k) ==> both(k)
    ensures ChainsKept(s, u) && Asks(s, u, stack, both)
  {
  }

  lemma {:induction false} RewriteAsks(c: Setting, s: State, stack: seq<Key>, e: Body)
    requires Numbered(s)
    ensures var t := Rewrite(c, s, stack, e).0;
            Numbered(t) && ChainsKept(s, t) && Asks(s, t, stack, k => Mentions(e, k))
    decreases e, 0
  {
    match e
    case Ref(d) => MarkAsks(s, d);
    case Generic(template, args) =>
      InstantiateAsks(c, s, stack, Key(template, args));
    case Uses(wants, _) =>
      var found := Lookup(c, s.impls, wants);
      if found.Some? {
        MarkAsks(s, found.value);
      }
    case Node(children) =>
      RewriteAllAsks(c, s, stack, children);
  }

  lemma {:induction false} RewriteAllAsks(c: Setting, s: State, stack: seq<Key>, es: seq<Body>)
    requires Numbered(s)
    ensures var t := RewriteAll(c, s, stack, es).0;
            Numbered(t) && ChainsKept(s, t)
            && Asks(s, t, stack, k => MentionedIn(es, k))
    decreases es, 1
  {
    if es != [] {
      RewriteAsks(c, s, stack, es[0]);
      var (t, first) := Rewrite(c, s, stack, es[0]);
      if first.Fine? {
        RewriteAllAsks(c, t, stack, es[1..]);
        var u := RewriteAll(c, t, stack, es[1..]).0;
        forall k | MentionedIn(es[1..], k)
          ensures MentionedIn(es, k)
        {
          var i :| 0 <= i < |es[1..]| && Mentions(es[1..][i], k);
          assert Mentions(es[i + 1], k);
        }
        AsksThen(s, t, u, stack, k => Mentions(es[0], k),
                 k => MentionedIn(es[1..], k),
                 k => MentionedIn(es, k));
      }
    }
  }

  // ---- Over the whole run

  lemma {:induction false} ProcessAsks(c: Setting, s: State, d: DefId)
    requires Numbered(s)
    ensures var t := Process(c, s, d);
            && Numbered(t) && ChainsKept(s, t)
            && Asks(s, t, Path(s, d), k => MentionedBy(s, d, k))
  {
    if d !in s.processed && d in s.functions && s.functions[d].body.Some? {
      RewriteAsks(c, s, Path(s, d), s.functions[d].body.value);
    }
  }

  lemma StepAsks(c: Setting, s: State)
    requires Numbered(s) && s.worklist != []
    ensures var t, d := Step(c, s), s.worklist[0];
            ChainsKept(s, t) && Asks(s, t, Path(s, d), k => MentionedBy(s, d, k))
  {
    ProcessAsks(c, Popped(s), s.worklist[0]);
  }

  lemma AskedStays(s: State, t: State, k: Key, d: DefId)
    requires k in s.instances && AskedBy(s, k, d) && ChainsKept(s, t) && s.queued <= t.queued
    requires Numbered(s) && d < s.nextDef && d in t.functions && t.functions[d] == s.functions[d]
    requires s.instances[k] in s.chains
    ensures AskedBy(t, k, d)
  {
  }

  /** The invariant of the loop, with the origin of every instance. */
  ghost predicate Traced(first: nat, c: Setting, s: State, roots: set<DefId>) {
    Inv(first, c, s, roots) && Lineage(s)
  }

  lemma LineageStays(first: nat, c: Setting, s: State, t: State, d: DefId)
    requires Fresh(first, c, s) && Scoped(s) && Lineage(s) && ChainsKept(s, t) && s.queued <= t.queued
    requires forall x :: x in s.functions ==> x in t.functions && t.functions[x] == s.functions[x]
    requires d in s.queued && d in s.functions
    requires Asks(s, t, Path(s, d), k => MentionedBy(s, d, k))
    ensures Lineage(t)
  {
    forall k | k in t.instances
      ensures exists x :: AskedBy(t, k, x)
    {
      if k in s.instances {
        var x :| AskedBy(s, k, x);
        assert IsInstance(first, s, k, s.instances[k]);
        AskedStays(s, t, k, x);
      } else {
        assert AskedBy(t, k, d);
      }
    }
  }

  lemma TurnTraces(first: nat, c: Setting, s: State, roots: set<DefId>)
    requires Honest(c) && Traced(first, c, s, roots) && s.worklist != []
    ensures Traced(first, c, Step(c, s), roots)
  {
    var t, body, diagnostics := StepKeeps(first, c, s, roots);
    FilesKeeps(s, t, s.worklist[0], body, diagnostics, Step(c, s));
    StepAsks(c, s);
    LineageStays(first, c, s, Step(c, s), s.worklist[0]);
  }

  /** In every state of every run, each instance was asked for by a function that was taken up, in whose body its
      template and type arguments stand, and its chain is the chain of that function and itself. */
  lemma InstancesAreAskedFor(c: Setting, p: Program, roots: seq<DefId>, n: nat)
    requires Honest(c) && WellScoped(p, roots)
    ensures Lineage(Run(c, Start(p, roots), n))
  {
    var first, start := New(p).nextDef, Start(p, roots);
    StartInv(c, p, roots);
    StartHasNoInstances(p, roots);
    var holds := (t: State) => Traced(first, c, t, Set(roots));
    forall t | holds(t) && t.worklist != []
      ensures holds(Step(c, t))
    {
      TurnTraces(first, c, t, Set(roots));
    }
    RunPreserves(c, start, n, holds);
  }

  lemma {:induction false} MarkAllAsks(s: State, roots: seq<DefId>)
    ensures MarkAll(s, roots).instances == s.instances
    decreases |roots|
  {
    if roots != [] {
      MarkAllAsks(Mark(s, roots[0]), roots[1..]);
    }
  }

  lemma StartHasNoInstances(p: Program, roots: seq<DefId>)
    ensures Start(p, roots).instances == map[]
  {
    MarkAllAsks(New(p), roots);
  }
}
