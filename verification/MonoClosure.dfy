/** What monomorphization guarantees: closed under references and found implementations, minimal, with fresh and
    unique instances. */
module MonoClosure {
  import opened Sequences
  import opened Wrappers
  import opened Types
  import opened Mono

  // ---- References

  ghost function Refs(e: Body): set<DefId>
    decreases e, 0
  {
    match e
    case Ref(d) => {d}
    case Generic(_, _) => {}
    case Uses(_, _) => {}
    case Node(children) => RefsOfAll(children)
  }

  ghost function RefsOfAll(es: seq<Body>): set<DefId>
    decreases es, 1
  {
    if es == [] then {} else Refs(es[0]) + RefsOfAll(es[1..])
  }

  ghost function RefsOf(f: Fn): set<DefId> {
    if f.body.Some? then Refs(f.body.value) else {}
  }

  /** The functions that a rewritten body needs: those it refers to, and the implementations that were found for
      it among those the program had at that moment. */
  ghost function Needs(c: Setting, impls: seq<Impl>, e: Body): set<DefId>
    decreases e, 0
  {
    match e
    case Ref(d) => {d}
    case Generic(_, _) => {}
    case Uses(wants, seen) => FoundAt(c, impls, wants, seen)
    case Node(children) => NeedsOfAll(c, impls, children)
  }

  ghost function NeedsOfAll(c: Setting, impls: seq<Impl>, es: seq<Body>): set<DefId>
    decreases es, 1
  {
    if es == [] then {} else Needs(c, impls, es[0]) + NeedsOfAll(c, impls, es[1..])
  }

  ghost function FoundAt(c: Setting, impls: seq<Impl>, wants: seq<Want>, seen: nat): set<DefId> {
    if seen > |impls| then {}
    else match Lookup(c, impls[..seen], wants)
         case None => {}
         case Some(d) => {d}
  }

  ghost function NeedsOf(c: Setting, impls: seq<Impl>, f: Fn): set<DefId> {
    if f.body.Some? then Needs(c, impls, f.body.value) else {}
  }

  /** All notes in the body are about implementations the program has. */
  ghost predicate SeenWithin(e: Body, n: nat)
    decreases e, 0
  {
    match e
    case Ref(_) => true
    case Generic(_, _) => true
    case Uses(_, seen) => seen <= n
    case Node(children) => SeenWithinAll(children, n)
  }

  ghost predicate SeenWithinAll(es: seq<Body>, n: nat)
    decreases es, 1
  {
    es == [] || (SeenWithin(es[0], n) && SeenWithinAll(es[1..], n))
  }

  ghost predicate SeenIn(f: Fn, n: nat) {
    f.body.Some? ==> SeenWithin(f.body.value, n)
  }

  /** Later implementations do not change what was found. */
  lemma {:induction false} NeedsStay(c: Setting, impls: seq<Impl>, more: seq<Impl>, e: Body)
    requires impls <= more && SeenWithin(e, |impls|)
    ensures Needs(c, more, e) == Needs(c, impls, e) && SeenWithin(e, |more|)
    decreases e, 0
  {
    match e
    case Ref(_) =>
    case Generic(_, _) =>
    case Uses(wants, seen) => assert more[..seen] == impls[..seen];
    case Node(children) => NeedsOfAllStay(c, impls, more, children);
  }

  lemma {:induction false} NeedsOfAllStay(c: Setting, impls: seq<Impl>, more: seq<Impl>, es: seq<Body>)
    requires impls <= more && SeenWithinAll(es, |impls|)
    ensures NeedsOfAll(c, more, es) == NeedsOfAll(c, impls, es) && SeenWithinAll(es, |more|)
    decreases es, 1
  {
    if es != [] {
      NeedsStay(c, impls, more, es[0]);
      NeedsOfAllStay(c, impls, more, es[1..]);
    }
  }

  ghost predicate Below(ds: set<DefId>, n: nat) {
    forall d :: d in ds ==> d < n
  }

  /** `r` is `e` with every generic reference replaced by the instance for it, and nothing else changed. */
  ghost predicate Replaced(e: Body, r: Body, instances: map<Key, DefId>)
    decreases e, 0
  {
    match e
    case Ref(_) => r == e
    case Generic(template, args) => Key(template, args) in instances && r == Ref(instances[Key(template, args)])
    case Uses(wants, _) => r.Uses? && r.wants == wants
    case Node(children) => r.Node? && ReplacedAll(children, r.children, instances)
  }

  ghost predicate ReplacedAll(es: seq<Body>, rs: seq<Body>, instances: map<Key, DefId>)
    decreases es, 1
  {
    if es == [] then rs == []
    else rs != [] && Replaced(es[0], rs[0], instances) && ReplacedAll(es[1..], rs[1..], instances)
  }

  ghost predicate IsGeneric(e: Body)
    decreases e
  {
    match e
    case Ref(_) => false
    case Generic(_, _) => true
    case Uses(_, _) => false
    case Node(children) => exists i :: 0 <= i < |children| && IsGeneric(children[i])
  }

  /** A replaced body holds no generic reference. */
  lemma {:induction false} ReplacedIsConcrete(e: Body, r: Body, instances: map<Key, DefId>)
    requires Replaced(e, r, instances)
    ensures !IsGeneric(r)
    decreases e, 0
  {
    if e.Node? {
      ReplacedAllAreConcrete(e.children, r.children, instances);
    }
  }

  lemma {:induction false} ReplacedAllAreConcrete(es: seq<Body>, rs: seq<Body>, instances: map<Key, DefId>)
    requires ReplacedAll(es, rs, instances)
    ensures forall i :: 0 <= i < |rs| ==> !IsGeneric(rs[i])
    decreases es, 1
  {
    if es != [] {
      ReplacedIsConcrete(es[0], rs[0], instances);
      ReplacedAllAreConcrete(es[1..], rs[1..], instances);
      assert forall i :: 0 < i < |rs| ==> rs[i] == rs[1..][i - 1];
    }
  }

  // ---- The type checker's part

  /** The checker hands out only identifiers at or above the bound, refers only to functions that exist or that
      it hands out, and says why it refuses. */
  ghost predicate Honest(c: Setting) {
    forall calls: nat, key: Key, id: DefId, bound: nat :: Answers(c.check(calls, key, id, bound), id, bound)
  }

  ghost predicate Answers(answer: Outcome<Instance>, id: DefId, bound: nat) {
    match answer
    case Failed(diagnostics) => diagnostics != []
    case Fine(instance) =>
      && instance.fn.def == id
      && (forall i :: 0 <= i < |instance.generated| ==> bound <= instance.generated[i].def)
      && Below(RefsOf(instance.fn), Above(bound, Ids(instance.generated)))
      && (forall i :: 0 <= i < |instance.generated| ==>
            Below(RefsOf(instance.generated[i]), Above(bound, Ids(instance.generated))))
  }

  lemma {:induction false} AboveMonotone(n: nat, m: nat, ids: seq<DefId>)
    requires n <= m
    ensures Above(n, ids) <= Above(m, ids)
    decreases |ids|
  {
    if ids != [] {
      AboveMonotone(if n <= ids[0] then ids[0] + 1 else n, if m <= ids[0] then ids[0] + 1 else m, ids[1..]);
    }
  }

  // ---- Invariants

  /** Every function is filed under its own identifier, and neither a reference nor an implementation is an
      identifier not yet handed out. */
  ghost predicate Scoped(s: State) {
    && (forall d :: d in s.functions ==>
          d < s.nextDef && s.functions[d].def == d && Below(RefsOf(s.functions[d]), s.nextDef))
    && ImplsBelow(s.impls, s.nextDef)
  }

  ghost predicate ImplsBelow(impls: seq<Impl>, n: nat) {
    forall i :: 0 <= i < |impls| ==> impls[i].fn < n
  }

  /** What was queued is known, and either done, or waiting once, or being worked on. */
  ghost predicate Queue(s: State, active: set<DefId>) {
    && (forall d :: d in s.queued <==> d in s.processed || d in s.worklist || d in active)
    && (forall d :: d in s.queued ==> d in s.functions)
    && (forall d :: d in s.worklist ==> d !in s.processed && d !in active)
    && (forall d :: d in active ==> d !in s.processed)
    && NoRepeats(s.worklist)
  }

  /** Instances are new functions, one per template and type arguments, each with its chain of expansions. */
  ghost predicate Fresh(first: nat, c: Setting, s: State) {
    && first <= s.nextDef
    && (forall k :: k in s.instances ==> IsInstance(first, s, k, s.instances[k]))
    && (forall d :: d in s.chains ==> d < s.nextDef && Steady(c, s.chains[d]))
  }

  ghost predicate IsInstance(first: nat, s: State, k: Key, d: DefId) {
    && first <= d < s.nextDef && d in s.queued
    && d in s.chains && s.chains[d] != [] && s.chains[d][|s.chains[d]| - 1] == k
  }

  /** On no way down the chain did a template expanded twice before go on growing. */
  ghost predicate Steady(c: Setting, chain: seq<Key>) {
    forall i, j, n :: 0 <= i < j < n < |chain| && Again(chain, i, j, n) ==> !c.grows(chain[j].args, chain[n].args)
  }

  /** The template at `n` also stands at `i` and, for the last time before `n`, at `j`. */
  ghost predicate Again(chain: seq<Key>, i: nat, j: nat, n: nat)
    requires i < j < n < |chain|
  {
    && chain[i].template == chain[j].template == chain[n].template
    && forall k :: j < k < n ==> chain[k].template != chain[n].template
  }

  /** Every instance is the function that the checker gave for it, and no function generated beside an instance
      has the identifier of one. */
  ghost predicate Origins(c: Setting, s: State) {
    forall k :: k in s.instances ==> FromChecker(c, s, k, s.instances[k])
  }

  ghost predicate FromChecker(c: Setting, s: State, k: Key, d: DefId) {
    exists n: nat :: Stored(c, s, k, d, n)
  }

  ghost predicate Stored(c: Setting, s: State, k: Key, d: DefId, n: nat) {
    match c.check(n, k, d, d + 1)
    case Failed(_) => false
    case Fine(instance) =>
      && d in s.functions && s.functions[d] == instance.fn
      && forall i :: 0 <= i < |instance.generated| ==> Separate(s, instance.generated[i].def)
  }

  ghost predicate Separate(s: State, d: DefId) {
    d in s.functions && forall k :: k in s.instances ==> s.instances[k] != d
  }

  lemma OriginsStay(c: Setting, s: State, t: State)
    requires Origins(c, s) && t.instances == s.instances && t.functions == s.functions
    ensures Origins(c, t)
  {
    forall k | k in t.instances
      ensures FromChecker(c, t, k, t.instances[k])
    {
      OriginStays(c, s, t, k, s.instances[k]);
    }
  }

  lemma OriginStays(c: Setting, s: State, t: State, k: Key, d: DefId)
    requires FromChecker(c, s, k, d) && t.instances == s.instances && t.functions == s.functions
    ensures FromChecker(c, t, k, d)
  {
    var n: nat :| Stored(c, s, k, d, n);
    var generated := c.check(n, k, d, d + 1).value.generated;
    assert forall i :: 0 <= i < |generated| ==> Separate(s, generated[i].def);
    assert Stored(c, t, k, d, n);
  }

  ghost predicate Good(first: nat, c: Setting, s: State, active: set<DefId>) {
    Scoped(s) && Queue(s, active) && Fresh(first, c, s) && Origins(c, s)
  }

  /** Nothing is lost or changed, and what is new has a new identifier. */
  ghost predicate Extends(s: State, t: State) {
    && s.nextDef <= t.nextDef
    && (forall d :: d in s.functions ==> d in t.functions && t.functions[d] == s.functions[d])
    && (forall d :: d in t.functions && d !in s.functions ==> s.nextDef <= d)
    && (forall k :: k in s.instances ==> k in t.instances && t.instances[k] == s.instances[k])
    && s.queued <= t.queued && s.impls <= t.impls
    && t.processed == s.processed && t.diagnostics == s.diagnostics
  }

  lemma ExtendsTransitive(s: State, t: State, u: State)
    requires Extends(s, t) && Extends(t, u)
    ensures Extends(s, u)
  {
  }

  lemma {:induction false} ReplacedGrows(e: Body, r: Body, m: map<Key, DefId>, n: map<Key, DefId>)
    requires Replaced(e, r, m) && forall k :: k in m ==> k in n && n[k] == m[k]
    ensures Replaced(e, r, n)
    decreases e, 0
  {
    if e.Node? {
      ReplacedAllGrow(e.children, r.children, m, n);
    }
  }

  lemma {:induction false} ReplacedAllGrow(es: seq<Body>, rs: seq<Body>, m: map<Key, DefId>, n: map<Key, DefId>)
    requires ReplacedAll(es, rs, m) && forall k :: k in m ==> k in n && n[k] == m[k]
    ensures ReplacedAll(es, rs, n)
    decreases es, 1
  {
    if es != [] {
      ReplacedGrows(es[0], rs[0], m, n);
      ReplacedAllGrow(es[1..], rs[1..], m, n);
    }
  }

  // ---- Marking

  lemma {:induction false} MarkKeeps(first: nat, c: Setting, s: State, active: set<DefId>, d: DefId)
    requires Good(first, c, s, active)
    ensures Good(first, c, Mark(s, d), active) && Extends(s, Mark(s, d))
    ensures Mark(s, d).queued <= s.queued + {d} && (d in s.functions ==> d in Mark(s, d).queued)
  {
    MarkQueues(s, active, d);
    OriginsStay(c, s, Mark(s, d));
  }

  lemma MarkQueues(s: State, active: set<DefId>, d: DefId)
    requires Queue(s, active)
    ensures Queue(Mark(s, d), active)
  {
  }

  // ---- Instantiation

  lemma {:induction false} AddAllAdds(m: map<DefId, Fn>, fs: seq<Fn>, d: DefId)
    ensures d in AddAll(m, fs) <==> d in m || d in Ids(fs)
    ensures d in m && d !in Ids(fs) ==> AddAll(m, fs)[d] == m[d]
    ensures d in Ids(fs) ==> AddAll(m, fs)[d] in fs && AddAll(m, fs)[d].def == d
    decreases |fs|
  {
    if fs != [] {
      AddAllAdds(m[fs[0].def := fs[0]], fs[1..], d);
      assert Ids(fs) == [fs[0].def] + Ids(fs[1..]);
    }
  }

  lemma SteadyGrows(c: Setting, stack: seq<Key>, key: Key)
    requires Steady(c, stack) && !InfiniteGrowth(c, stack, key)
    ensures Steady(c, stack + [key])
  {
    var chain := stack + [key];
    GrowthByPlace(c, stack, key);
    forall i, j, n | 0 <= i < j < n < |chain| && Again(chain, i, j, n)
      ensures !c.grows(chain[j].args, chain[n].args)
    {
      if n < |stack| {
        assert Again(stack, i, j, n) by {
          assert forall k :: j < k < n ==> chain[k] == stack[k];
        }
      } else {
        assert Last(stack, key.template, j) by {
          assert forall k :: j < k < n ==> chain[k] == stack[k];
        }
        assert !GrowsFrom(c, stack, key, i, j);
      }
    }
  }

  // ---- When a growing expansion is refused

  /** The template stands at `j` for the last time. */
  ghost predicate Last(stack: seq<Key>, template: DefId, j: nat) {
    && j < |stack| && stack[j].template == template
    && forall k :: j < k < |stack| ==> stack[k].template != template
  }

  /** The template of the key was expanded at `i` and last at `j`, and since then its type arguments grew. */
  ghost predicate GrowsFrom(c: Setting, stack: seq<Key>, key: Key, i: nat, j: nat) {
    && i < j && Last(stack, key.template, j) && stack[i].template == key.template
    && c.grows(stack[j].args, key.args)
  }

  ghost predicate Growing(c: Setting, stack: seq<Key>, key: Key) {
    exists i: nat, j: nat :: GrowsFrom(c, stack, key, i, j)
  }

  lemma {:induction false} OccurrencesConcat(x: seq<Key>, y: seq<Key>, template: DefId)
    ensures Occurrences(x + y, template) == Occurrences(x, template) + Occurrences(y, template)
    decreases |x|
  {
    if x == [] {
      assert x + y == y;
    } else {
      assert (x + y)[1..] == x[1..] + y;
      OccurrencesConcat(x[1..], y, template);
    }
  }

  lemma {:induction false} NoOccurrence(stack: seq<Key>, template: DefId)
    ensures Occurrences(stack, template) == [] <==> forall k :: 0 <= k < |stack| ==> stack[k].template != template
    decreases |stack|
  {
    if stack != [] {
      NoOccurrence(stack[1..], template);
      assert forall k :: 1 <= k < |stack| ==> stack[k] == stack[1..][k - 1];
    }
  }

  /** What stands last is the last occurrence, and the others are before it. */
  lemma LastOccurrence(stack: seq<Key>, template: DefId, j: nat)
    requires Last(stack, template, j)
    ensures Occurrences(stack, template) == Occurrences(stack[..j], template) + [stack[j]]
  {
    assert stack == stack[..j] + ([stack[j]] + stack[j + 1..]);
    OccurrencesConcat(stack[..j], [stack[j]] + stack[j + 1..], template);
    OccurrencesConcat([stack[j]], stack[j + 1..], template);
    NoOccurrence(stack[j + 1..], template);
    assert Occurrences([stack[j]], template) == [stack[j]] + Occurrences([stack[j]][1..], template);
  }

  lemma {:induction false} LastPlace(stack: seq<Key>, template: DefId) returns (j: nat)
    requires Occurrences(stack, template) != []
    ensures Last(stack, template, j)
  {
    NoOccurrence(stack, template);
    j := |stack| - 1;
    while stack[j].template != template
      invariant j < |stack| && forall k :: j < k < |stack| ==> stack[k].template != template
      decreases j
    {
      j := j - 1;
    }
  }

  /** The test of the code, by places on the stack. */
  lemma GrowthByPlace(c: Setting, stack: seq<Key>, key: Key)
    ensures InfiniteGrowth(c, stack, key) <==> Growing(c, stack, key)
  {
    if InfiniteGrowth(c, stack, key) {
      var j := LastPlace(stack, key.template);
      LastOccurrence(stack, key.template, j);
      NoOccurrence(stack[..j], key.template);
      var i :| 0 <= i < j && stack[..j][i].template == key.template;
      assert GrowsFrom(c, stack, key, i, j);
    }
    if Growing(c, stack, key) {
      var i: nat, j: nat :| GrowsFrom(c, stack, key, i, j);
      LastOccurrence(stack, key.template, j);
      NoOccurrence(stack[..j], key.template);
      assert stack[..j][i].template == key.template;
    }
  }

  /** Instantiation gives a known instance back, refuses unknown templates and growing type arguments before the
      checker is asked, and otherwise answers what the checker answers. */
  lemma InstantiateDecides(c: Setting, s: State, stack: seq<Key>, key: Key)
    ensures var (t, r) := Instantiate(c, s, stack, key);
            if key in s.instances then t == s && r == Fine(s.instances[key])
            else if key.template !in c.templates then t == s && r == Failed(["missing generic function template"])
            else if Growing(c, stack, key) then t == s && r == Failed(["infinite generic instantiation cycle"])
            else
              match c.check(s.calls, key, s.nextDef, s.nextDef + 1)
              case Failed(diagnostics) =>
                r == Failed(diagnostics) && t == s.(nextDef := s.nextDef + 1, calls := s.calls + 1)
              case Fine(instance) =>
                && r == Fine(s.nextDef) && t.calls == s.calls + 1 && t.instances == s.instances[key := s.nextDef]
                && s.nextDef in t.functions && t.functions[s.nextDef] == instance.fn
                && t.chains == s.chains[s.nextDef := stack + [key]]
  {
    GrowthByPlace(c, stack, key);
  }

  ghost function Started(s: State): State {
    s.(nextDef := s.nextDef + 1, calls := s.calls + 1)
  }

  ghost function Added(s: State, stack: seq<Key>, key: Key, instance: Instance): State {
    Mark(AddInstance(Started(s), stack, key, s.nextDef, instance), s.nextDef)
  }

  lemma AddedFunctions(s: State, stack: seq<Key>, key: Key, instance: Instance, d: DefId)
    requires Scoped(s) && Answers(Fine(instance), s.nextDef, s.nextDef + 1)
    ensures var t := Added(s, stack, key, instance);
            && (d in s.functions ==> d in t.functions && t.functions[d] == s.functions[d])
            && (d in t.functions && d !in s.functions ==>
                  && s.nextDef <= d < t.nextDef && t.functions[d].def == d
                  && Below(RefsOf(t.functions[d]), t.nextDef))
  {
    AddAllAdds(s.functions, instance.generated, d);
    AddedBound(s, stack, key, instance);
  }

  /** What an instance brings lies below the next identifier. */
  lemma AddedBound(s: State, stack: seq<Key>, key: Key, instance: Instance)
    ensures var t := Added(s, stack, key, instance);
            && s.nextDef < Above(s.nextDef + 1, Ids(instance.generated)) <= t.nextDef
            && ImplsBelow(t.impls[|s.impls|..], t.nextDef)
  {
    var impls := AddImpls(s.impls, instance.impls)[|s.impls|..];
    var raised := Above(s.nextDef + 1, ImplIds(impls));
    AboveMonotone(s.nextDef + 1, raised, Ids(instance.generated));
  }

  lemma AddedScoped(s: State, stack: seq<Key>, key: Key, instance: Instance)
    requires Scoped(s) && Answers(Fine(instance), s.nextDef, s.nextDef + 1)
    ensures Scoped(Added(s, stack, key, instance))
  {
    var t := Added(s, stack, key, instance);
    forall d | d in t.functions
      ensures d < t.nextDef && t.functions[d].def == d && Below(RefsOf(t.functions[d]), t.nextDef)
    {
      AddedFunctions(s, stack, key, instance, d);
    }
    AddedBound(s, stack, key, instance);
    forall i | 0 <= i < |t.impls|
      ensures t.impls[i].fn < t.nextDef
    {
      if i < |s.impls| {
        assert t.impls[i] == s.impls[i];
      } else {
        assert t.impls[i] == t.impls[|s.impls|..][i - |s.impls|];
      }
    }
  }

  lemma AddedExtends(s: State, stack: seq<Key>, key: Key, instance: Instance)
    requires Scoped(s) && Answers(Fine(instance), s.nextDef, s.nextDef + 1) && key !in s.instances
    ensures Extends(s, Added(s, stack, key, instance))
  {
    AddedBound(s, stack, key, instance);
    forall d
      ensures var t := Added(s, stack, key, instance);
              && (d in s.functions ==> d in t.functions && t.functions[d] == s.functions[d])
              && (d in t.functions && d !in s.functions ==> s.nextDef <= d)
    {
      AddedFunctions(s, stack, key, instance, d);
    }
  }

  lemma AddedQueue(s: State, active: set<DefId>, stack: seq<Key>, key: Key, instance: Instance)
    requires Scoped(s) && Queue(s, active) && Answers(Fine(instance), s.nextDef, s.nextDef + 1) && key !in s.instances
    ensures var t := Added(s, stack, key, instance);
            Queue(t, active) && t.queued == s.queued + {s.nextDef} && s.nextDef in t.functions
  {
    AddedExtends(s, stack, key, instance);
    var t := Added(s, stack, key, instance);
    assert s.nextDef !in s.queued;
    assert t.worklist == s.worklist + [s.nextDef];
  }

  lemma AddedFresh(first: nat, c: Setting, s: State, stack: seq<Key>, key: Key, instance: Instance)
    requires Fresh(first, c, s) && Steady(c, stack) && !InfiniteGrowth(c, stack, key) && key !in s.instances
    requires var t := Added(s, stack, key, instance);
             t.queued == s.queued + {s.nextDef} && s.nextDef < t.nextDef
    ensures Fresh(first, c, Added(s, stack, key, instance))
  {
    SteadyGrows(c, stack, key);
  }

  lemma AddedOrigins(c: Setting, s: State, stack: seq<Key>, key: Key, instance: Instance)
    requires Scoped(s) && Origins(c, s) && key !in s.instances && Answers(Fine(instance), s.nextDef, s.nextDef + 1)
    requires c.check(s.calls, key, s.nextDef, s.nextDef + 1) == Fine(instance)
    requires forall k :: k in s.instances ==> s.instances[k] < s.nextDef
    ensures Origins(c, Added(s, stack, key, instance))
  {
    var t, id := Added(s, stack, key, instance), s.nextDef;
    AddedExtends(s, stack, key, instance);
    forall k | k in t.instances
      ensures FromChecker(c, t, k, t.instances[k])
    {
      if k == key {
        forall i | 0 <= i < |instance.generated|
          ensures Separate(t, instance.generated[i].def)
        {
          AddAllAdds(s.functions, instance.generated, instance.generated[i].def);
          assert Ids(instance.generated)[i] == instance.generated[i].def;
        }
        assert Stored(c, t, key, id, s.calls);
      } else {
        OlderOrigin(c, s, stack, key, instance, k);
      }
    }
  }

  lemma OlderOrigin(c: Setting, s: State, stack: seq<Key>, key: Key, instance: Instance, k: Key)
    requires Scoped(s) && k in s.instances && k != key && FromChecker(c, s, k, s.instances[k])
    requires Extends(s, Added(s, stack, key, instance))
    ensures FromChecker(c, Added(s, stack, key, instance), k, s.instances[k])
  {
    var t, d := Added(s, stack, key, instance), s.instances[k];
    var n: nat :| Stored(c, s, k, d, n);
    var generated := c.check(n, k, d, d + 1).value.generated;
    forall i | 0 <= i < |generated|
      ensures Separate(t, generated[i].def)
    {
      assert Separate(s, generated[i].def);
    }
    assert Stored(c, t, k, d, n);
  }

  ghost predicate Instantiated(
    first: nat, c: Setting, s: State, active: set<DefId>, key: Key, t: State, r: Outcome<DefId>)
  {
    match r
    case Failed(diagnostics) => Good(first, c, t, active) && Extends(s, t) && diagnostics != []
    case Fine(d) =>
      && Good(first, c, t, active) && Extends(s, t)
      && key in t.instances && t.instances[key] == d && t.queued <= s.queued + {d}
  }

  lemma AddedKeeps(first: nat, c: Setting, s: State, active: set<DefId>, stack: seq<Key>, key: Key, instance: Instance)
    requires Good(first, c, s, active) && Steady(c, stack) && !InfiniteGrowth(c, stack, key) && key !in s.instances
    requires Answers(Fine(instance), s.nextDef, s.nextDef + 1)
    requires c.check(s.calls, key, s.nextDef, s.nextDef + 1) == Fine(instance)
    ensures Instantiated(first, c, s, active, key, Added(s, stack, key, instance), Fine(s.nextDef))
  {
    AddedBound(s, stack, key, instance);
    AddedOrigins(c, s, stack, key, instance);
    AddedScoped(s, stack, key, instance);
    AddedExtends(s, stack, key, instance);
    AddedQueue(s, active, stack, key, instance);
    AddedFresh(first, c, s, stack, key, instance);
  }

  lemma StartedKeeps(first: nat, c: Setting, s: State, active: set<DefId>)
    requires Good(first, c, s, active)
    ensures Good(first, c, Started(s), active) && Extends(s, Started(s))
  {
    OriginsStay(c, s, Started(s));
  }

  lemma KnownInstance(first: nat, c: Setting, s: State, active: set<DefId>, key: Key)
    requires Good(first, c, s, active) && key in s.instances
    ensures Instantiated(first, c, s, active, key, s, Fine(s.instances[key]))
  {
  }

  lemma NoInstance(
    first: nat, c: Setting, s: State, active: set<DefId>, key: Key, t: State, diagnostics: seq<Diagnostic>)
    requires Good(first, c, s, active) && (t == s || t == Started(s)) && diagnostics != []
    ensures Instantiated(first, c, s, active, key, t, Failed(diagnostics))
  {
    StartedKeeps(first, c, s, active);
  }

  lemma InstantiateChecks(c: Setting, s: State, stack: seq<Key>, key: Key)
    requires key !in s.instances && key.template in c.templates && !InfiniteGrowth(c, stack, key)
    ensures Instantiate(c, s, stack, key) ==
            match c.check(s.calls, key, s.nextDef, s.nextDef + 1)
            case Fine(instance) => (Added(s, stack, key, instance), Fine(s.nextDef))
            case Failed(diagnostics) => (Started(s), Failed(diagnostics))
  {
  }

  lemma CheckedKeeps(first: nat, c: Setting, s: State, active: set<DefId>, stack: seq<Key>, key: Key)
    requires Honest(c) && Good(first, c, s, active) && Steady(c, stack)
    requires key !in s.instances && key.template in c.templates && !InfiniteGrowth(c, stack, key)
    ensures var result := Instantiate(c, s, stack, key);
            Instantiated(first, c, s, active, key, result.0, result.1)
  {
    InstantiateChecks(c, s, stack, key);
    var answer := c.check(s.calls, key, s.nextDef, s.nextDef + 1);
    assert Answers(answer, s.nextDef, s.nextDef + 1);
    match answer
    case Fine(instance) => AddedKeeps(first, c, s, active, stack, key, instance);
    case Failed(diagnostics) => NoInstance(first, c, s, active, key, Started(s), diagnostics);
  }

  lemma InstantiateKeeps(first: nat, c: Setting, s: State, active: set<DefId>, stack: seq<Key>, key: Key)
    requires Honest(c) && Good(first, c, s, active) && Steady(c, stack)
    ensures var result := Instantiate(c, s, stack, key);
            Instantiated(first, c, s, active, key, result.0, result.1)
  {
    var result := Instantiate(c, s, stack, key);
    if key in s.instances {
      KnownInstance(first, c, s, active, key);
    } else if key.template !in c.templates || InfiniteGrowth(c, stack, key) {
      NoInstance(first, c, s, active, key, s, result.1.diagnostics);
    } else {
      CheckedKeeps(first, c, s, active, stack, key);
    }
  }

  // ---- Rewriting a body

  /** Known functions among these are queued. */
  ghost predicate Marked(ds: set<DefId>, s: State) {
    forall d :: d in ds && d in s.functions ==> d in s.queued
  }

  lemma MarkedStays(ds: set<DefId>, s: State, t: State)
    requires Marked(ds, s) && Below(ds, s.nextDef) && Extends(s, t)
    ensures Marked(ds, t) && Below(ds, t.nextDef)
  {
  }

  /** What rewriting leads to: on success the replaced body, whose known references are queued, and nothing
      queued beside them. */
  ghost predicate Rewritten(first: nat, c: Setting, s: State, active: set<DefId>, e: Body, t: State, r: Outcome<Body>) {
    match r
    case Failed(diagnostics) => Good(first, c, t, active) && Extends(s, t) && diagnostics != []
    case Fine(body) =>
      && Good(first, c, t, active) && Extends(s, t) && Replaced(e, body, t.instances)
      && SeenWithin(body, |t.impls|) && Taken(s, Needs(c, t.impls, body), t)
  }

  ghost predicate Taken(s: State, ds: set<DefId>, t: State) {
    Below(ds, t.nextDef) && Marked(ds, t) && t.queued <= s.queued + ds
  }

  ghost predicate RewrittenAll(
    first: nat, c: Setting, s: State, active: set<DefId>, es: seq<Body>, t: State, r: Outcome<seq<Body>>)
  {
    match r
    case Failed(diagnostics) => Good(first, c, t, active) && Extends(s, t) && diagnostics != []
    case Fine(bodies) =>
      && Good(first, c, t, active) && Extends(s, t) && ReplacedAll(es, bodies, t.instances)
      && SeenWithinAll(bodies, |t.impls|) && Taken(s, NeedsOfAll(c, t.impls, bodies), t)
  }

  lemma {:induction false} RewriteKeeps(first: nat, c: Setting, s: State, active: set<DefId>, stack: seq<Key>, e: Body)
    requires Honest(c) && Good(first, c, s, active) && Steady(c, stack) && Below(Refs(e), s.nextDef)
    ensures var (t, r) := Rewrite(c, s, stack, e);
            Rewritten(first, c, s, active, e, t, r)
    decreases e, 0
  {
    match e
    case Ref(d) => RefRewritten(first, c, s, active, stack, e);
    case Generic(template, args) =>
      InstantiateKeeps(first, c, s, active, stack, Key(template, args));
      GenericRewritten(first, c, s, active, stack, e);
    case Uses(wants, _) => UsesRewritten(first, c, s, active, stack, e);
    case Node(children) =>
      RewriteAllKeeps(first, c, s, active, stack, children);
      NodeRewritten(first, c, s, active, stack, e);
  }

  lemma RefRewritten(first: nat, c: Setting, s: State, active: set<DefId>, stack: seq<Key>, e: Body)
    requires e.Ref? && Good(first, c, s, active) && e.def < s.nextDef
    ensures var (t, r) := Rewrite(c, s, stack, e);
            Rewritten(first, c, s, active, e, t, r)
  {
    MarkKeeps(first, c, s, active, e.def);
  }

  lemma NodeRewritten(first: nat, c: Setting, s: State, active: set<DefId>, stack: seq<Key>, e: Body)
    requires e.Node?
    requires var (t, r) := RewriteAll(c, s, stack, e.children);
             RewrittenAll(first, c, s, active, e.children, t, r)
    ensures var (t, r) := Rewrite(c, s, stack, e);
            Rewritten(first, c, s, active, e, t, r)
  {
  }

  lemma GenericRewritten(first: nat, c: Setting, s: State, active: set<DefId>, stack: seq<Key>, e: Body)
    requires e.Generic?
    requires var key := Key(e.template, e.args);
             var (t, id) := Instantiate(c, s, stack, key);
             Instantiated(first, c, s, active, key, t, id)
    ensures var (t, r) := Rewrite(c, s, stack, e);
            Rewritten(first, c, s, active, e, t, r)
  {
  }

  lemma {:induction false} FoundIsBelow(c: Setting, impls: seq<Impl>, wants: seq<Want>, n: nat)
    requires ImplsBelow(impls, n)
    ensures Lookup(c, impls, wants).Some? ==> Lookup(c, impls, wants).value < n
    decreases |wants|
  {
    if wants != [] {
      FirstIsBelow(c, impls, wants[0], n);
      FoundIsBelow(c, impls, wants[1..], n);
    }
  }

  lemma {:induction false} FirstIsBelow(c: Setting, impls: seq<Impl>, w: Want, n: nat)
    requires ImplsBelow(impls, n)
    ensures FirstServing(c, impls, w).Some? ==> FirstServing(c, impls, w).value < n
    decreases |impls|
  {
    if impls != [] {
      FirstIsBelow(c, impls[1..], w, n);
    }
  }

  lemma UsesRewritten(first: nat, c: Setting, s: State, active: set<DefId>, stack: seq<Key>, e: Body)
    requires e.Uses? && Good(first, c, s, active)
    ensures var (t, r) := Rewrite(c, s, stack, e);
            Rewritten(first, c, s, active, e, t, r)
  {
    var found := Lookup(c, s.impls, e.wants);
    assert s.impls[..|s.impls|] == s.impls;
    FoundIsBelow(c, s.impls, e.wants, s.nextDef);
    if found.Some? {
      MarkKeeps(first, c, s, active, found.value);
      assert Needs(c, s.impls, Uses(e.wants, |s.impls|)) == {found.value};
    } else {
      assert Needs(c, s.impls, Uses(e.wants, |s.impls|)) == {};
    }
  }

  lemma {:induction false} RewriteAllKeeps(
    first: nat, c: Setting, s: State, active: set<DefId>, stack: seq<Key>, es: seq<Body>)
    requires Honest(c) && Good(first, c, s, active) && Steady(c, stack) && Below(RefsOfAll(es), s.nextDef)
    ensures var (t, r) := RewriteAll(c, s, stack, es);
            RewrittenAll(first, c, s, active, es, t, r)
    decreases es, 1
  {
    if es != [] {
      RewriteKeeps(first, c, s, active, stack, es[0]);
      var (t, head) := Rewrite(c, s, stack, es[0]);
      if head.Fine? {
        RewriteAllKeeps(first, c, t, active, stack, es[1..]);
        var (u, rest) := RewriteAll(c, t, stack, es[1..]);
        ExtendsTransitive(s, t, u);
        if rest.Fine? {
          NeedsStay(c, t.impls, u.impls, head.value);
          BothTaken(s, Needs(c, t.impls, head.value), t, NeedsOfAll(c, u.impls, rest.value), u);
          ReplacedGrows(es[0], head.value, t.instances, u.instances);
          ConsReplaced(c, es, head.value, rest.value, u);
        }
      }
    }
  }

  lemma BothTaken(s: State, ds: set<DefId>, t: State, es: set<DefId>, u: State)
    requires Extends(t, u) && Taken(s, ds, t) && Taken(t, es, u)
    ensures Taken(s, ds + es, u)
  {
    MarkedStays(ds, t, u);
  }

  lemma ConsReplaced(c: Setting, es: seq<Body>, head: Body, rest: seq<Body>, s: State)
    requires es != [] && Replaced(es[0], head, s.instances) && ReplacedAll(es[1..], rest, s.instances)
    requires SeenWithin(head, |s.impls|) && SeenWithinAll(rest, |s.impls|)
    ensures ReplacedAll(es, [head] + rest, s.instances) && SeenWithinAll([head] + rest, |s.impls|)
    ensures NeedsOfAll(c, s.impls, [head] + rest) == Needs(c, s.impls, head) + NeedsOfAll(c, s.impls, rest)
  {
    assert ([head] + rest)[1..] == rest;
  }

  // ---- The worklist

  /** A processed function is the known one with its generic references replaced, and what it needs is queued. */
  ghost predicate Finished(c: Setting, s: State, d: DefId)
    requires d in s.processed
  {
    && d in s.functions
    && s.processed[d].def == d
    && (match s.functions[d].body
        case None => s.processed[d].body == None
        case Some(e) => s.processed[d].body.Some? && Replaced(e, s.processed[d].body.value, s.instances))
    && SeenIn(s.processed[d], |s.impls|)
    && Below(NeedsOf(c, s.impls, s.processed[d]), s.nextDef)
    && Marked(NeedsOf(c, s.impls, s.processed[d]), s)
  }

  /** A set of functions that holds the roots and whatever the processed bodies of its members need. */
  ghost predicate Closing(c: Setting, s: State, roots: set<DefId>, ds: set<DefId>) {
    && roots <= ds
    && forall d :: d in ds && d in s.processed ==> (NeedsOf(c, s.impls, s.processed[d]) * s.functions.Keys) <= ds
  }

  /** Only what is needed was queued. */
  ghost predicate Needed(c: Setting, s: State, roots: set<DefId>) {
    forall ds :: Closing(c, s, roots, ds) ==> s.queued <= ds
  }

  ghost predicate Inv(first: nat, c: Setting, s: State, roots: set<DefId>) {
    && Good(first, c, s, {})
    && roots <= s.queued
    && (s.diagnostics == [] ==> Needed(c, s, roots) && forall d :: d in s.processed ==> Finished(c, s, d))
  }

  lemma FinishedStays(c: Setting, s: State, t: State, d: DefId)
    requires d in s.processed && Finished(c, s, d) && Extends(s, t)
    ensures Finished(c, t, d)
  {
    if s.processed[d].body.Some? {
      NeedsStay(c, s.impls, t.impls, s.processed[d].body.value);
    }
    MarkedStays(NeedsOf(c, s.impls, s.processed[d]), s, t);
    if s.functions[d].body.Some? {
      ReplacedGrows(s.functions[d].body.value, s.processed[d].body.value, s.instances, t.instances);
    }
  }

  ghost function Popped(s: State): State
    requires s.worklist != []
  {
    s.(worklist := s.worklist[1..])
  }

  ghost function Filed(t: State, d: DefId, body: Option<Body>, diagnostics: seq<Diagnostic>): State {
    t.(processed := t.processed[d := Fn(d, body)], diagnostics := t.diagnostics + diagnostics)
  }

  lemma PoppedGood(first: nat, c: Setting, s: State)
    requires Good(first, c, s, {}) && s.worklist != []
    ensures Good(first, c, Popped(s), {s.worklist[0]})
  {
    PoppedQueue(s);
    OriginsStay(c, s, Popped(s));
  }

  lemma PoppedQueue(s: State)
    requires Queue(s, {}) && s.worklist != []
    ensures Queue(Popped(s), {s.worklist[0]})
  {
    assert s.worklist == [s.worklist[0]] + s.worklist[1..];
  }

  lemma FiledGood(first: nat, c: Setting, t: State, d: DefId, body: Option<Body>, diagnostics: seq<Diagnostic>)
    requires Good(first, c, t, {d})
    ensures Good(first, c, Filed(t, d, body, diagnostics), {})
  {
    OriginsStay(c, t, Filed(t, d, body, diagnostics));
  }

  /** The rewritten body and its state, before it is filed: no diagnostics, what it needs taken. */
  ghost predicate Ready(c: Setting, s: State, d: DefId, t: State, body: Option<Body>)
    requires s.worklist != []
  {
    && d == s.worklist[0] && d in s.functions && d in s.queued
    && Extends(Popped(s), t)
    && (match s.functions[d].body
        case None => body == None
        case Some(e) => body.Some? && Replaced(e, body.value, t.instances))
    && SeenIn(Fn(d, body), |t.impls|)
    && Taken(s, NeedsOf(c, t.impls, Fn(d, body)), t)
  }

  lemma FiledFinished(c: Setting, s: State, d: DefId, t: State, body: Option<Body>)
    requires s.worklist != [] && Ready(c, s, d, t, body) && forall x :: x in s.processed ==> Finished(c, s, x)
    ensures var q := Filed(t, d, body, []);
            forall x :: x in q.processed ==> Finished(c, q, x)
  {
    var q := Filed(t, d, body, []);
    forall x | x in q.processed
      ensures Finished(c, q, x)
    {
      if x != d {
        assert Finished(c, Popped(s), x);
        FinishedStays(c, Popped(s), t, x);
      }
    }
  }

  lemma FiledNeeded(c: Setting, s: State, roots: set<DefId>, d: DefId, t: State, body: Option<Body>)
    requires s.worklist != [] && Ready(c, s, d, t, body) && Needed(c, s, roots)
    requires forall x :: x in s.processed ==> Finished(c, s, x)
    requires d !in s.processed && forall x :: x in t.queued ==> x in t.functions
    ensures Needed(c, Filed(t, d, body, []), roots)
  {
    var q := Filed(t, d, body, []);
    forall ds | Closing(c, q, roots, ds)
      ensures q.queued <= ds
    {
      ClosingBefore(c, s, roots, d, t, body, ds);
      assert NeedsOf(c, q.impls, q.processed[d]) * q.functions.Keys <= ds;
    }
  }

  lemma ClosingBefore(c: Setting, s: State, roots: set<DefId>, d: DefId, t: State, body: Option<Body>, ds: set<DefId>)
    requires s.worklist != [] && Ready(c, s, d, t, body) && d !in s.processed
    requires Closing(c, Filed(t, d, body, []), roots, ds)
    requires forall x :: x in s.processed ==> Finished(c, s, x)
    ensures Closing(c, s, roots, ds)
  {
    var q := Filed(t, d, body, []);
    forall x | x in ds && x in s.processed
      ensures NeedsOf(c, s.impls, s.processed[x]) * s.functions.Keys <= ds
    {
      assert q.processed[x] == s.processed[x] && Finished(c, s, x);
      if s.processed[x].body.Some? {
        NeedsStay(c, s.impls, q.impls, s.processed[x].body.value);
      }
      assert NeedsOf(c, q.impls, q.processed[x]) * q.functions.Keys <= ds;
    }
  }

  lemma FiledInv(first: nat, c: Setting, s: State, roots: set<DefId>, d: DefId, t: State, body: Option<Body>)
    requires Inv(first, c, s, roots) && s.worklist != [] && Ready(c, s, d, t, body) && Good(first, c, t, {d})
    ensures Inv(first, c, Filed(t, d, body, []), roots)
  {
    FiledGood(first, c, t, d, body, []);
    if s.diagnostics == [] {
      FiledFinished(c, s, d, t, body);
      FiledNeeded(c, s, roots, d, t, body);
    }
  }

  lemma FailedInv(
    first: nat, c: Setting, s: State, roots: set<DefId>, d: DefId, t: State, diagnostics: seq<Diagnostic>)
    requires Inv(first, c, s, roots) && s.worklist != [] && Extends(Popped(s), t) && Good(first, c, t, {d})
    requires diagnostics != []
    ensures Inv(first, c, Filed(t, d, None, diagnostics), roots)
  {
    FiledGood(first, c, t, d, None, diagnostics);
  }

  /** One turn of the loop takes the first function, which was not processed before, and files it. */
  ghost predicate Files(s: State, t: State, d: DefId, body: Option<Body>, diagnostics: seq<Diagnostic>, next: State)
    requires s.worklist != []
  {
    d == s.worklist[0] && d !in s.processed && Extends(Popped(s), t) && next == Filed(t, d, body, diagnostics)
  }

  lemma StepWithBody(first: nat, c: Setting, s: State, roots: set<DefId>)
      returns (t: State, body: Option<Body>, diagnostics: seq<Diagnostic>)
    requires Honest(c) && Inv(first, c, s, roots) && s.worklist != []
    requires s.worklist[0] in s.functions && s.functions[s.worklist[0]].body.Some?
    ensures Inv(first, c, Step(c, s), roots) && Files(s, t, s.worklist[0], body, diagnostics, Step(c, s))
  {
    var d := s.worklist[0];
    var e := s.functions[d].body.value;
    PoppedGood(first, c, s);
    var result := Rewrite(c, Popped(s), Chain(Popped(s), d), e);
    RewriteKeeps(first, c, Popped(s), {d}, Chain(Popped(s), d), e);
    StepFiles(c, s, d, e);
    t := result.0;
    if result.1.Fine? {
      body, diagnostics := Some(result.1.value), [];
      FiledInv(first, c, s, roots, d, t, body);
    } else {
      body, diagnostics := None, result.1.diagnostics;
      FailedInv(first, c, s, roots, d, t, diagnostics);
    }
  }

  lemma StepFiles(c: Setting, s: State, d: DefId, e: Body)
    requires s.worklist != [] && s.worklist[0] == d && d !in s.processed
    requires d in s.functions && s.functions[d] == Fn(d, Some(e))
    ensures var (t, r) := Rewrite(c, Popped(s), Chain(Popped(s), d), e);
            Step(c, s) == match r
                          case Fine(body) => Filed(t, d, Some(body), [])
                          case Failed(diagnostics) => Filed(t, d, None, diagnostics)
  {
  }

  lemma StepWithoutBody(first: nat, c: Setting, s: State, roots: set<DefId>)
    requires Inv(first, c, s, roots) && s.worklist != []
    requires s.worklist[0] in s.functions && s.functions[s.worklist[0]].body.None?
    ensures Inv(first, c, Step(c, s), roots) && Files(s, Popped(s), s.worklist[0], None, [], Step(c, s))
  {
    PoppedGood(first, c, s);
    assert Step(c, s) == Filed(Popped(s), s.worklist[0], None, []);
    FiledInv(first, c, s, roots, s.worklist[0], Popped(s), None);
  }

  /** One turn of the loop keeps the invariant. */
  lemma StepKeeps(first: nat, c: Setting, s: State, roots: set<DefId>)
      returns (t: State, body: Option<Body>, diagnostics: seq<Diagnostic>)
    requires Honest(c) && Inv(first, c, s, roots) && s.worklist != []
    ensures Inv(first, c, Step(c, s), roots) && Files(s, t, s.worklist[0], body, diagnostics, Step(c, s))
  {
    if s.functions[s.worklist[0]].body.Some? {
      t, body, diagnostics := StepWithBody(first, c, s, roots);
    } else {
      t, body, diagnostics := Popped(s), None, [];
      StepWithoutBody(first, c, s, roots);
    }
  }

  /** Functions and processed functions are only ever added. */
  ghost predicate Keeps(s: State, t: State) {
    && (forall d :: d in s.functions ==> d in t.functions && t.functions[d] == s.functions[d])
    && (forall d :: d in s.processed ==> d in t.processed && t.processed[d] == s.processed[d])
  }

  lemma FilesKeeps(s: State, t: State, d: DefId, body: Option<Body>, diagnostics: seq<Diagnostic>, next: State)
    requires s.worklist != [] && Files(s, t, d, body, diagnostics, next)
    ensures Keeps(s, next) && |next.processed| == |s.processed| + 1
  {
  }

  lemma KeepsTransitive(s: State, t: State, u: State)
    requires Keeps(s, t) && Keeps(t, u)
    ensures Keeps(s, u)
  {
  }

  /** One turn keeps the invariant and what was done, and processes one function more. */
  lemma {:induction false} TurnKeeps(first: nat, c: Setting, s: State, roots: set<DefId>)
    requires Honest(c) && Inv(first, c, s, roots) && s.worklist != []
    ensures Inv(first, c, Step(c, s), roots) && Keeps(s, Step(c, s)) && |Step(c, s).processed| == |s.processed| + 1
  {
    var t, body, diagnostics := StepKeeps(first, c, s, roots);
    FilesKeeps(s, t, s.worklist[0], body, diagnostics, Step(c, s));
  }

  /** What every turn keeps holds of every state the loop gets to. */
  lemma {:induction false} RunPreserves(c: Setting, s: State, n: nat, holds: State -> bool)
    requires holds(s) && forall t :: holds(t) && t.worklist != [] ==> holds(Step(c, t))
    ensures holds(Run(c, s, n))
    decreases n
  {
    if n > 0 && s.worklist != [] {
      RunPreserves(c, Step(c, s), n - 1, holds);
    }
  }

  ghost predicate Progress(first: nat, c: Setting, s: State, roots: set<DefId>, t: State) {
    Inv(first, c, t, roots) && Keeps(s, t)
  }

  lemma TurnProgresses(first: nat, c: Setting, s: State, roots: set<DefId>, t: State)
    requires Honest(c) && Progress(first, c, s, roots, t) && t.worklist != []
    ensures Progress(first, c, s, roots, Step(c, t))
  {
    TurnKeeps(first, c, t, roots);
    KeepsTransitive(s, t, Step(c, t));
  }

  /** Whatever state the loop gets to satisfies the invariant, and keeps what was done before. */
  lemma RunKeeps(first: nat, c: Setting, s: State, roots: set<DefId>, n: nat)
    requires Honest(c) && Inv(first, c, s, roots)
    ensures Inv(first, c, Run(c, s, n), roots) && Keeps(s, Run(c, s, n))
  {
    var holds := (t: State) => Progress(first, c, s, roots, t);
    forall t | holds(t) && t.worklist != []
      ensures holds(Step(c, t))
    {
      TurnProgresses(first, c, s, roots, t);
    }
    RunPreserves(c, s, n, holds);
  }

  // ---- The start

  /** References of the program are to definitions of the program, and the roots are functions of it. */
  ghost predicate WellScoped(p: Program, roots: seq<DefId>) {
    && (forall i :: 0 <= i < |p.functions| ==> Below(RefsOf(p.functions[i]), New(p).nextDef))
    && (forall i :: 0 <= i < |roots| ==> roots[i] in New(p).functions)
  }

  ghost function Set(ds: seq<DefId>): set<DefId> {
    set d | d in ds
  }

  lemma NewGood(c: Setting, p: Program, roots: seq<DefId>)
    requires WellScoped(p, roots)
    ensures Good(New(p).nextDef, c, New(p), {})
  {
    var s := New(p);
    forall d | d in s.functions
      ensures d < s.nextDef && s.functions[d].def == d && Below(RefsOf(s.functions[d]), s.nextDef)
    {
      AddAllAdds(map[], p.functions, d);
    }
  }

  lemma {:induction false} MarkAllKeeps(first: nat, c: Setting, s: State, roots: seq<DefId>)
    requires Good(first, c, s, {}) && forall i :: 0 <= i < |roots| ==> roots[i] in s.functions
    ensures var t := MarkAll(s, roots);
            Good(first, c, t, {}) && Extends(s, t) && t.queued == s.queued + Set(roots)
    decreases |roots|
  {
    if roots != [] {
      MarkKeeps(first, c, s, {}, roots[0]);
      MarkAllKeeps(first, c, Mark(s, roots[0]), roots[1..]);
      ExtendsTransitive(s, Mark(s, roots[0]), MarkAll(s, roots));
      assert Set(roots) == {roots[0]} + Set(roots[1..]);
    }
  }

  lemma StartInv(c: Setting, p: Program, roots: seq<DefId>)
    requires WellScoped(p, roots)
    ensures Inv(New(p).nextDef, c, Start(p, roots), Set(roots)) && Keeps(New(p), Start(p, roots))
  {
    NewGood(c, p, roots);
    MarkAllKeeps(New(p).nextDef, c, New(p), roots);
  }

  // ---- The result

  /** The processed functions are the roots and all that they need, each with its generic references replaced. */
  ghost predicate Closed(c: Setting, s: State, roots: set<DefId>) {
    && roots <= s.processed.Keys
    && forall d :: d in s.processed ==> ClosedAt(c, s, d)
  }

  ghost predicate ClosedAt(c: Setting, s: State, d: DefId)
    requires d in s.processed
  {
    && Finished(c, s, d)
    && NeedsOf(c, s.impls, s.processed[d]) * s.functions.Keys <= s.processed.Keys
    && (s.processed[d].body.Some? ==> !IsGeneric(s.processed[d].body.value))
  }

  /** No definition of the program has an instance's identifier, and no two instances share one. */
  ghost predicate Unique(p: Program, s: State) {
    && (forall k, l :: k in s.instances && l in s.instances && s.instances[k] == s.instances[l] ==> k == l)
    && (forall k :: k in s.instances ==>
          NewId(p, s.instances[k]) && s.instances[k] in s.processed && HasOrigin(s, s.instances[k], k))
  }

  /** The chain of expansions that led to the instance ends in its template and type arguments. */
  ghost predicate HasOrigin(s: State, d: DefId, k: Key) {
    d in s.chains && s.chains[d] != [] && s.chains[d][|s.chains[d]| - 1] == k
  }

  ghost predicate NewId(p: Program, d: DefId) {
    d !in Ids(p.functions) && d !in ImplIds(p.impls) && d !in p.defs
  }

  /** If the worklist runs empty without a diagnostic, the processed functions are closed under reference, are
      the least such set, and contain every instance under an identifier of its own. */
  lemma {:induction false} Monomorphized(c: Setting, p: Program, roots: seq<DefId>, n: nat)
    requires Honest(c) && WellScoped(p, roots)
    requires var s := Run(c, Start(p, roots), n); s.worklist == [] && s.diagnostics == []
    ensures var s := Run(c, Start(p, roots), n);
            && Keeps(New(p), s)
            && Closed(c, s, Set(roots))
            && (forall ds :: Closing(c, s, Set(roots), ds) ==> s.processed.Keys <= ds)
            && Unique(p, s)
            && Origins(c, s)
  {
    StartInv(c, p, roots);
    RunKeeps(New(p).nextDef, c, Start(p, roots), Set(roots), n);
    DrainedIsClosed(c, p, Run(c, Start(p, roots), n), Set(roots));
  }

  lemma DrainedIsClosed(c: Setting, p: Program, s: State, roots: set<DefId>)
    requires Inv(New(p).nextDef, c, s, roots) && s.worklist == [] && s.diagnostics == []
    ensures Closed(c, s, roots) && (forall ds :: Closing(c, s, roots, ds) ==> s.processed.Keys <= ds) && Unique(p, s)
  {
    assert s.queued == s.processed.Keys;
    forall d | d in s.processed
      ensures ClosedAt(c, s, d)
    {
      FinishedIsClosed(c, s, d);
    }
    InstancesAreUnique(c, p, s);
  }

  lemma FinishedIsClosed(c: Setting, s: State, d: DefId)
    requires d in s.processed && Finished(c, s, d) && s.queued == s.processed.Keys
    ensures ClosedAt(c, s, d)
  {
    if s.functions[d].body.Some? {
      ReplacedIsConcrete(s.functions[d].body.value, s.processed[d].body.value, s.instances);
    }
  }

  lemma InstancesAreUnique(c: Setting, p: Program, s: State)
    requires Fresh(New(p).nextDef, c, s) && s.queued == s.processed.Keys
    ensures Unique(p, s)
  {
    forall k | k in s.instances
      ensures NewId(p, s.instances[k])
    {
      assert IsInstance(New(p).nextDef, s, k, s.instances[k]);
    }
  }
}
