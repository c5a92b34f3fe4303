/** When the processed functions also hold every implementation that the finished program finds for them. */
module MonoUses {
  import opened Wrappers
  import opened Types
  import opened Mono
  import opened MonoClosure

  // ---- What a later implementation changes

  ghost predicate Serves(c: Setting, impls: seq<Impl>, w: Want) {
    exists i :: 0 <= i < |impls| && c.serves(impls[i].head, w)
  }

  lemma {:induction false} FirstIffServes(c: Setting, impls: seq<Impl>, w: Want)
    ensures FirstServing(c, impls, w).Some? <==> Serves(c, impls, w)
    decreases |impls|
  {
    if impls != [] {
      FirstIffServes(c, impls[1..], w);
      if Serves(c, impls, w) && !c.serves(impls[0].head, w) {
        var i :| 0 <= i < |impls| && c.serves(impls[i].head, w);
        assert impls[1..][i - 1] == impls[i];
      }
    }
  }

  lemma {:induction false} FirstInPrefix(c: Setting, impls: seq<Impl>, n: nat, w: Want)
    requires n <= |impls|
    ensures var early := FirstServing(c, impls[..n], w);
            if early.Some? then FirstServing(c, impls, w) == early
            else FirstServing(c, impls, w) == FirstServing(c, impls[n..], w)
    decreases n
  {
    if n > 0 {
      assert impls[..n][1..] == impls[1..][..n - 1];
      assert impls[1..][n - 1..] == impls[n..];
      FirstInPrefix(c, impls[1..], n - 1, w);
    } else {
      assert impls[n..] == impls;
    }
  }

  /** Some want that nothing served at first is served later, and no earlier want was served at first. */
  ghost predicate Overtaken(c: Setting, impls: seq<Impl>, wants: seq<Want>, seen: nat)
    decreases |wants|
  {
    && seen <= |impls|
    && wants != []
    && !Serves(c, impls[..seen], wants[0])
    && (Serves(c, impls[seen..], wants[0]) || Overtaken(c, impls, wants[1..], seen))
  }

  ghost predicate IsLate(impls: seq<Impl>, seen: nat, found: Option<DefId>) {
    found.Some? && exists j :: seen <= j < |impls| && impls[j].fn == found.value
  }

  lemma {:induction false} FirstIsMember(c: Setting, impls: seq<Impl>, w: Want)
    ensures var found := FirstServing(c, impls, w);
            found.Some? ==> exists j :: 0 <= j < |impls| && impls[j].fn == found.value
    decreases |impls|
  {
    if impls != [] && !c.serves(impls[0].head, w) {
      FirstIsMember(c, impls[1..], w);
      var found := FirstServing(c, impls, w);
      if found.Some? {
        var j :| 0 <= j < |impls[1..]| && impls[1..][j].fn == found.value;
        assert impls[j + 1].fn == found.value;
      }
    }
  }

  /** A use keeps what was found for it, unless it was overtaken; then a later implementation takes its place. */
  lemma {:induction false} LookupInPrefix(c: Setting, impls: seq<Impl>, wants: seq<Want>, seen: nat)
    requires seen <= |impls|
    ensures if Overtaken(c, impls, wants, seen) then IsLate(impls, seen, Lookup(c, impls, wants))
            else Lookup(c, impls, wants) == Lookup(c, impls[..seen], wants)
    decreases |wants|
  {
    if wants != [] {
      var w := wants[0];
      FirstInPrefix(c, impls, seen, w);
      FirstIffServes(c, impls[..seen], w);
      FirstIffServes(c, impls[seen..], w);
      if FirstServing(c, impls, w).None? {
        LookupInPrefix(c, impls, wants[1..], seen);
      } else if FirstServing(c, impls[..seen], w).None? {
        FirstIsMember(c, impls[seen..], w);
        var j :| 0 <= j < |impls[seen..]| && impls[seen..][j].fn == FirstServing(c, impls, w).value;
        assert impls[seen + j].fn == FirstServing(c, impls, w).value;
      }
    }
  }

  // ---- Closed under uses

  /** The implementations that the program now finds for the body are processed, if they are known functions. */
  ghost predicate Served(c: Setting, s: State, e: Body)
    decreases e, 0
  {
    match e
    case Ref(_) => true
    case Generic(_, _) => true
    case Uses(wants, _) => ServedUse(c, s, wants)
    case Node(children) => ServedAll(c, s, children)
  }

  ghost predicate ServedAll(c: Setting, s: State, es: seq<Body>)
    decreases es, 1
  {
    es == [] || (Served(c, s, es[0]) && ServedAll(c, s, es[1..]))
  }

  ghost predicate ServedUse(c: Setting, s: State, wants: seq<Want>) {
    match Lookup(c, s.impls, wants)
    case None => true
    case Some(d) => d in s.functions ==> d in s.processed
  }

  ghost predicate ServedBy(c: Setting, s: State, f: Fn) {
    f.body.Some? ==> Served(c, s, f.body.value)
  }

  ghost predicate ClosedUnderUses(c: Setting, s: State) {
    forall d :: d in s.processed ==> ServedBy(c, s, s.processed[d])
  }

  /** No use of the body was overtaken. */
  ghost predicate InTime(c: Setting, s: State, e: Body)
    decreases e, 0
  {
    match e
    case Ref(_) => true
    case Generic(_, _) => true
    case Uses(wants, seen) => !Overtaken(c, s.impls, wants, seen)
    case Node(children) => InTimeAll(c, s, children)
  }

  ghost predicate InTimeAll(c: Setting, s: State, es: seq<Body>)
    decreases es, 1
  {
    es == [] || (InTime(c, s, es[0]) && InTimeAll(c, s, es[1..]))
  }

  lemma UseInTimeIsServed(c: Setting, s: State, wants: seq<Want>, seen: nat)
    requires seen <= |s.impls| && !Overtaken(c, s.impls, wants, seen)
    requires FoundAt(c, s.impls, wants, seen) * s.functions.Keys <= s.processed.Keys
    ensures ServedUse(c, s, wants)
  {
    LookupInPrefix(c, s.impls, wants, seen);
    var found := Lookup(c, s.impls, wants);
    if found.Some? {
      assert FoundAt(c, s.impls, wants, seen) == {found.value};
    }
  }

  lemma {:induction false} InTimeIsServed(c: Setting, s: State, e: Body)
    requires InTime(c, s, e) && SeenWithin(e, |s.impls|)
    requires Needs(c, s.impls, e) * s.functions.Keys <= s.processed.Keys
    ensures Served(c, s, e)
    decreases e, 0
  {
    match e
    case Ref(_) =>
    case Generic(_, _) =>
    case Uses(wants, seen) => UseInTimeIsServed(c, s, wants, seen);
    case Node(children) => InTimeAllAreServed(c, s, children);
  }

  lemma {:induction false} InTimeAllAreServed(c: Setting, s: State, es: seq<Body>)
    requires InTimeAll(c, s, es) && SeenWithinAll(es, |s.impls|)
    requires NeedsOfAll(c, s.impls, es) * s.functions.Keys <= s.processed.Keys
    ensures ServedAll(c, s, es)
    decreases es, 1
  {
    if es != [] {
      InTimeIsServed(c, s, es[0]);
      InTimeAllAreServed(c, s, es[1..]);
    }
  }

  /** A finished run in which no use was overtaken is closed under uses. */
  lemma InTimeIsClosed(c: Setting, p: Program, roots: seq<DefId>, n: nat)
    requires Honest(c) && WellScoped(p, roots) && Done(Run(c, Start(p, roots), n))
    requires var s := Run(c, Start(p, roots), n);
             forall d :: d in s.processed && s.processed[d].body.Some? ==> InTime(c, s, s.processed[d].body.value)
    ensures ClosedUnderUses(c, Run(c, Start(p, roots), n))
  {
    Monomorphized(c, p, roots, n);
    var s := Run(c, Start(p, roots), n);
    forall d | d in s.processed && s.processed[d].body.Some?
      ensures ServedBy(c, s, s.processed[d])
    {
      assert ClosedAt(c, s, d);
      InTimeIsServed(c, s, s.processed[d].body.value);
    }
  }

  ghost predicate Done(s: State) {
    s.worklist == [] && s.diagnostics == []
  }

  // ---- Before the run

  /** All implementations that come with instances have one of these heads. */
  ghost predicate AddsOnly(c: Setting, may: Head -> bool) {
    forall calls: nat, key: Key, id: DefId, bound: nat :: BringsOnly(c.check(calls, key, id, bound), may)
  }

  ghost predicate BringsOnly(answer: Outcome<Instance>, may: Head -> bool) {
    match answer
    case Failed(_) => true
    case Fine(instance) => AllMay(instance.impls, may)
  }

  ghost predicate AllMay(impls: seq<Impl>, may: Head -> bool) {
    forall i :: 0 <= i < |impls| ==> may(impls[i].head)
  }

  /** What an implementation that comes with an instance may serve, an implementation of the program serves. */
  ghost predicate Foreseen(c: Setting, impls: seq<Impl>, may: Head -> bool) {
    forall h: Head, w: Want :: may(h) && c.serves(h, w) ==> Serves(c, impls, w)
  }

  ghost predicate Grown(impls: seq<Impl>, may: Head -> bool, s: State) {
    impls <= s.impls && AllMay(s.impls[|impls|..], may)
  }

  lemma {:induction false} AddImplsMay(impls: seq<Impl>, more: seq<Impl>, n: nat, may: Head -> bool)
    requires n <= |impls| && AllMay(impls[n..], may) && AllMay(more, may)
    ensures AllMay(AddImpls(impls, more)[n..], may)
    decreases |more|
  {
    if more != [] {
      assert AllMay(more[1..], may);
      if exists i :: 0 <= i < |impls| && impls[i].head == more[0].head {
        AddImplsMay(impls, more[1..], n, may);
      } else {
        assert (impls + [more[0]])[n..] == impls[n..] + [more[0]];
        AddImplsMay(impls + [more[0]], more[1..], n, may);
      }
    }
  }

  lemma InstantiateGrows(c: Setting, impls: seq<Impl>, may: Head -> bool, s: State, stack: seq<Key>, key: Key)
    requires AddsOnly(c, may) && Grown(impls, may, s)
    ensures Grown(impls, may, Instantiate(c, s, stack, key).0)
  {
    if key !in s.instances && key.template in c.templates && !InfiniteGrowth(c, stack, key) {
      InstantiateChecks(c, s, stack, key);
      var answer := c.check(s.calls, key, s.nextDef, s.nextDef + 1);
      assert BringsOnly(answer, may);
      if answer.Fine? {
        AddedGrows(impls, may, s, stack, key, answer.value);
      }
    }
  }

  lemma AddedGrows(impls: seq<Impl>, may: Head -> bool, s: State, stack: seq<Key>, key: Key, instance: Instance)
    requires Grown(impls, may, s) && AllMay(instance.impls, may)
    ensures Grown(impls, may, Added(s, stack, key, instance))
  {
    AddImplsMay(s.impls, instance.impls, |impls|, may);
  }

  /** All notes in the body are at least this. */
  ghost predicate SeenFrom(e: Body, n: nat)
    decreases e, 0
  {
    match e
    case Ref(_) => true
    case Generic(_, _) => true
    case Uses(_, seen) => n <= seen
    case Node(children) => SeenFromAll(children, n)
  }

  ghost predicate SeenFromAll(es: seq<Body>, n: nat)
    decreases es, 1
  {
    es == [] || (SeenFrom(es[0], n) && SeenFromAll(es[1..], n))
  }

  ghost predicate Noted(r: Outcome<Body>, n: nat) {
    match r case Failed(_) => true case Fine(body) => SeenFrom(body, n)
  }

  ghost predicate NotedAll(r: Outcome<seq<Body>>, n: nat) {
    match r case Failed(_) => true case Fine(bodies) => SeenFromAll(bodies, n)
  }

  lemma {:induction false} RewriteGrows(c: Setting, impls: seq<Impl>, may: Head -> bool, s: State, stack: seq<Key>,
      e: Body)
    requires AddsOnly(c, may) && Grown(impls, may, s)
    ensures var (t, r) := Rewrite(c, s, stack, e);
            Grown(impls, may, t) && Noted(r, |impls|)
    decreases e, 0
  {
    match e
    case Ref(_) =>
    case Generic(template, args) => InstantiateGrows(c, impls, may, s, stack, Key(template, args));
    case Uses(_, _) =>
    case Node(children) => RewriteAllGrows(c, impls, may, s, stack, children);
  }

  lemma {:induction false} RewriteAllGrows(c: Setting, impls: seq<Impl>, may: Head -> bool, s: State,
      stack: seq<Key>, es: seq<Body>)
    requires AddsOnly(c, may) && Grown(impls, may, s)
    ensures var (t, r) := RewriteAll(c, s, stack, es);
            Grown(impls, may, t) && NotedAll(r, |impls|)
    decreases es, 1
  {
    if es != [] {
      RewriteGrows(c, impls, may, s, stack, es[0]);
      var (t, first) := Rewrite(c, s, stack, es[0]);
      if first.Fine? {
        RewriteAllGrows(c, impls, may, t, stack, es[1..]);
        var (u, rest) := RewriteAll(c, t, stack, es[1..]);
        if rest.Fine? {
          assert ([first.value] + rest.value)[1..] == rest.value;
        }
      }
    }
  }

  ghost predicate Recorded(impls: seq<Impl>, may: Head -> bool, s: State) {
    && Grown(impls, may, s)
    && forall d :: d in s.processed && s.processed[d].body.Some? ==> SeenFrom(s.processed[d].body.value, |impls|)
  }

  lemma StepRecords(c: Setting, impls: seq<Impl>, may: Head -> bool, s: State)
    requires AddsOnly(c, may) && Recorded(impls, may, s) && s.worklist != []
    ensures Recorded(impls, may, Step(c, s))
  {
    var d, t := s.worklist[0], s.(worklist := s.worklist[1..]);
    if d !in t.processed && d in t.functions && t.functions[d].body.Some? {
      RewriteGrows(c, impls, may, t, Chain(t, d), t.functions[d].body.value);
      RewriteProcesses(c, t, Chain(t, d), t.functions[d].body.value);
    }
  }

  /** Rewriting a body processes nothing. */
  lemma {:induction false} RewriteProcesses(c: Setting, s: State, stack: seq<Key>, e: Body)
    ensures Rewrite(c, s, stack, e).0.processed == s.processed
    decreases e, 0
  {
    match e
    case Ref(_) =>
    case Generic(_, _) =>
    case Uses(_, _) =>
    case Node(children) => RewriteAllProcesses(c, s, stack, children);
  }

  lemma {:induction false} RewriteAllProcesses(c: Setting, s: State, stack: seq<Key>, es: seq<Body>)
    ensures RewriteAll(c, s, stack, es).0.processed == s.processed
    decreases es, 1
  {
    if es != [] {
      RewriteProcesses(c, s, stack, es[0]);
      RewriteAllProcesses(c, Rewrite(c, s, stack, es[0]).0, stack, es[1..]);
    }
  }

  lemma RunRecords(c: Setting, impls: seq<Impl>, may: Head -> bool, s: State, n: nat)
    requires AddsOnly(c, may) && Recorded(impls, may, s)
    ensures Recorded(impls, may, Run(c, s, n))
  {
    forall t | Recorded(impls, may, t) && t.worklist != []
      ensures Recorded(impls, may, Step(c, t))
    {
      StepRecords(c, impls, may, t);
    }
    RunPreserves(c, s, n, t => Recorded(impls, may, t));
  }

  lemma {:induction false} StartRecords(s: State, roots: seq<DefId>)
    ensures MarkAll(s, roots).impls == s.impls && MarkAll(s, roots).processed == s.processed
    decreases |roots|
  {
    if roots != [] {
      StartRecords(Mark(s, roots[0]), roots[1..]);
    }
  }

  lemma ServedFromStart(c: Setting, impls: seq<Impl>, may: Head -> bool, all: seq<Impl>, w: Want, seen: nat)
    requires Foreseen(c, impls, may) && impls <= all && AllMay(all[|impls|..], may) && |impls| <= seen <= |all|
    requires Serves(c, all[seen..], w)
    ensures Serves(c, all[..seen], w)
  {
    var j :| 0 <= j < |all[seen..]| && c.serves(all[seen..][j].head, w);
    assert all[seen..][j] == all[|impls|..][seen + j - |impls|];
    var i :| 0 <= i < |impls| && c.serves(impls[i].head, w);
    assert all[..seen][i] == impls[i];
  }

  lemma {:induction false} NotOvertaken(c: Setting, impls: seq<Impl>, may: Head -> bool, all: seq<Impl>,
      wants: seq<Want>, seen: nat)
    requires Foreseen(c, impls, may) && impls <= all && AllMay(all[|impls|..], may) && |impls| <= seen <= |all|
    ensures !Overtaken(c, all, wants, seen)
    decreases |wants|
  {
    if wants != [] {
      NotOvertaken(c, impls, may, all, wants[1..], seen);
      if Serves(c, all[seen..], wants[0]) {
        ServedFromStart(c, impls, may, all, wants[0], seen);
      }
    }
  }

  lemma {:induction false} ForeseenInTime(c: Setting, impls: seq<Impl>, may: Head -> bool, s: State, e: Body)
    requires Foreseen(c, impls, may) && Grown(impls, may, s) && SeenFrom(e, |impls|)
    ensures InTime(c, s, e)
    decreases e, 0
  {
    match e
    case Ref(_) =>
    case Generic(_, _) =>
    case Uses(wants, seen) =>
      if seen <= |s.impls| {
        NotOvertaken(c, impls, may, s.impls, wants, seen);
      }
    case Node(children) => ForeseenAllInTime(c, impls, may, s, children);
  }

  lemma {:induction false} ForeseenAllInTime(c: Setting, impls: seq<Impl>, may: Head -> bool, s: State,
      es: seq<Body>)
    requires Foreseen(c, impls, may) && Grown(impls, may, s) && SeenFromAll(es, |impls|)
    ensures InTimeAll(c, s, es)
    decreases es, 1
  {
    if es != [] {
      ForeseenInTime(c, impls, may, s, es[0]);
      ForeseenAllInTime(c, impls, may, s, es[1..]);
    }
  }

  /** If what instances bring is foreseen, every finished run is closed under uses. */
  lemma ForeseenIsClosed(c: Setting, may: Head -> bool, p: Program, roots: seq<DefId>, n: nat)
    requires Honest(c) && AddsOnly(c, may) && Foreseen(c, p.impls, may)
    requires WellScoped(p, roots) && Done(Run(c, Start(p, roots), n))
    ensures ClosedUnderUses(c, Run(c, Start(p, roots), n))
  {
    StartRecords(New(p), roots);
    RunRecords(c, p.impls, may, Start(p, roots), n);
    var s := Run(c, Start(p, roots), n);
    forall d | d in s.processed && s.processed[d].body.Some?
      ensures InTime(c, s, s.processed[d].body.value)
    {
      ForeseenInTime(c, p.impls, may, s, s.processed[d].body.value);
    }
    InTimeIsClosed(c, p, roots, n);
  }

  // ---- An implementation that comes too late

  /** The root first needs an implementation that nothing serves, and then an instance. */
  function Hasty(w: Want, template: DefId): Body {
    Node([Uses([w], 0), Body.Generic(template, [])])
  }

  /** The identifier of the root; the next one is the template. */
  function HastyRoot(impls: seq<Impl>): DefId {
    Above(0, ImplIds(impls))
  }

  /** One root and one template, with identifiers that no implementation has. */
  function HastyProgram(impls: seq<Impl>, w: Want): Program {
    var root := HastyRoot(impls);
    Program([Fn(root, Some(Hasty(w, root + 1)))], impls, [root, root + 1])
  }

  /** The checker whose instances bring one generated function, which implements the interface. */
  function Bringing(c: Setting, h: Head, template: DefId): Setting {
    c.(templates := {template},
       check := (calls: nat, key: Key, id: DefId, bound: nat) =>
         Fine(Instance(Fn(id, None), [Fn(bound, None)], [Impl(h, bound)])))
  }

  lemma BringingIsHonest(c: Setting, h: Head, template: DefId, may: Head -> bool)
    requires may(h)
    ensures Honest(Bringing(c, h, template)) && AddsOnly(Bringing(c, h, template), may)
  {
  }

  lemma HastyStart(c: Setting, h: Head, impls: seq<Impl>, w: Want)
    ensures var p, root := HastyProgram(impls, w), HastyRoot(impls);
            var s := Start(p, [root]);
            && WellScoped(p, [root]) && OwnTemplates(Bringing(c, h, root + 1), p)
            && AtHastyStart(s, root, w) && s.impls == impls
  {
    var p, root := HastyProgram(impls, w), HastyRoot(impls);
    var f := Fn(root, Some(Hasty(w, root + 1)));
    var none: map<DefId, Fn> := map[];
    assert AddAll(none, [f]) == AddAll(none[root := f], []);
    assert Start(p, [root]) == MarkAll(Mark(New(p), root), []);
    assert Ids(p.functions) == [root];
    assert p.defs[1] == root + 1;
    HastyRefs(w, root + 1);
  }

  lemma HastyRefs(w: Want, template: DefId)
    ensures Refs(Hasty(w, template)) == {}
  {
    var es, generic := Hasty(w, template).children, Body.Generic(template, []);
    assert es[1..] == [generic];
    assert RefsOfAll([generic]) == Refs(generic) + RefsOfAll([]);
    assert RefsOfAll(es) == Refs(es[0]) + RefsOfAll(es[1..]);
  }

  lemma RewriteCons(c: Setting, s: State, es: seq<Body>, t: State, first: Body, u: State, rest: seq<Body>)
    requires es != [] && Rewrite(c, s, [], es[0]) == (t, Fine(first))
    requires RewriteAll(c, t, [], es[1..]) == (u, Fine(rest))
    ensures RewriteAll(c, s, [], es) == (u, Fine([first] + rest))
  {
  }

  lemma RewriteTwo(c: Setting, s: State, e: Body, f: Body, t: State, first: Body, u: State, second: Body)
    requires Rewrite(c, s, [], e) == (t, Fine(first)) && Rewrite(c, t, [], f) == (u, Fine(second))
    ensures Rewrite(c, s, [], Node([e, f])) == (u, Fine(Node([first, second])))
  {
    assert [e, f][1..] == [f] && [f][1..] == [];
    assert RewriteAll(c, u, [], []) == (u, Fine([]));
    RewriteCons(c, t, [f], u, second, u, []);
    assert [second] + [] == [second];
    RewriteCons(c, s, [e, f], t, first, u, [second]);
    assert [first] + [second] == [first, second];
  }

  /** The first turn looks the want up in vain, and then takes the instance with its implementation. */
  lemma HastyFirst(b: Setting, w: Want, s: State, template: DefId, instance: Instance)
    requires !Serves(b, s.impls, w) && s.instances == map[] && template in b.templates
    requires b.check(s.calls, Key(template, []), s.nextDef, s.nextDef + 1) == Fine(instance)
    ensures Rewrite(b, s, [], Hasty(w, template))
            == (Added(s, [], Key(template, []), instance), Fine(Node([Uses([w], |s.impls|), Ref(s.nextDef)])))
  {
    InVain(b, s, w);
    InstantiateChecks(b, s, [], Key(template, []));
    RewriteTwo(b, s, Uses([w], 0), Body.Generic(template, []),
               s, Uses([w], |s.impls|), Added(s, [], Key(template, []), instance), Ref(s.nextDef));
  }

  lemma InVain(c: Setting, s: State, w: Want)
    requires !Serves(c, s.impls, w)
    ensures Rewrite(c, s, [], Uses([w], 0)) == (s, Fine(Uses([w], |s.impls|)))
  {
    FirstIffServes(c, s.impls, w);
    assert Lookup(c, s.impls, [w]) == Lookup(c, s.impls, [w][1..]);
  }

  lemma HastyAdded(s: State, h: Head, root: DefId, key: Key)
    requires s.worklist == [] && s.processed == map[] && s.queued == {root} && s.functions.Keys == {root}
    requires root < s.nextDef && forall i :: 0 <= i < |s.impls| ==> s.impls[i].head != h
    ensures var n := s.nextDef;
            var t := Added(s, [], key, Bringer(h, n));
            && t.impls == s.impls + [Impl(h, n + 1)]
            && t.functions == s.functions[n + 1 := Fn(n + 1, None)][n := Fn(n, None)]
            && t.worklist == [n] && t.processed == map[] && t.diagnostics == s.diagnostics
  {
    var n := s.nextDef;
    assert AddImpls(s.impls, [Impl(h, n + 1)]) == AddImpls(s.impls + [Impl(h, n + 1)], []);
    assert AddAll(s.functions, [Fn(n + 1, None)]) == AddAll(s.functions[n + 1 := Fn(n + 1, None)], []);
  }

  /** The state with only the hasty root known and queued. */
  ghost predicate AtHastyStart(s: State, root: DefId, w: Want) {
    && s.functions == map[root := Fn(root, Some(Hasty(w, root + 1)))] && s.queued == {root} && s.worklist == [root]
    && s.processed == map[] && s.instances == map[] && s.chains == map[] && s.calls == 0 && s.diagnostics == []
    && root < s.nextDef
  }

  /** The instance that brings a generated function, which implements the interface. */
  function Bringer(h: Head, id: DefId): Instance {
    Instance(Fn(id, None), [Fn(id + 1, None)], [Impl(h, id + 1)])
  }

  lemma HastyTurn(b: Setting, s: State, root: DefId, h: Head, w: Want)
    requires AtHastyStart(s, root, w) && root + 1 in b.templates && !Serves(b, s.impls, w)
    requires b.check(0, Key(root + 1, []), s.nextDef, s.nextDef + 1) == Fine(Bringer(h, s.nextDef))
    requires forall i :: 0 <= i < |s.impls| ==> s.impls[i].head != h
    ensures var t, n := Step(b, s), s.nextDef;
            && t.impls == s.impls + [Impl(h, n + 1)] && t.worklist == [n] && t.diagnostics == []
            && t.functions == s.functions[n + 1 := Fn(n + 1, None)][n := Fn(n, None)]
            && t.processed == map[root := Fn(root, Some(Node([Uses([w], |s.impls|), Ref(n)])))]
  {
    var popped := s.(worklist := []);
    assert s.(worklist := s.worklist[1..]) == popped;
    HastyFirst(b, w, popped, root + 1, Bringer(h, s.nextDef));
    HastyAdded(popped, h, root, Key(root + 1, []));
  }

  /** The run ends with the generated function known and serving the root, but not processed. */
  lemma HastyRun(b: Setting, s: State, root: DefId, h: Head, w: Want)
    requires AtHastyStart(s, root, w) && root + 1 in b.templates && b.serves(h, w) && !Serves(b, s.impls, w)
    requires b.check(0, Key(root + 1, []), s.nextDef, s.nextDef + 1) == Fine(Bringer(h, s.nextDef))
    ensures Done(Run(b, s, 2)) && !ClosedUnderUses(b, Run(b, s, 2))
  {
    var t, n := Step(b, s), s.nextDef;
    HastyTurn(b, s, root, h, w);
    LastTurn(b, t, n);
    assert Run(b, s, 2) == Run(b, t, 1);
    LateLookup(b, s.impls, h, w, n + 1);
    NotServed(b, Run(b, t, 1), w, root, Uses([w], |s.impls|), Ref(n), n + 1);
  }

  /** A turn on a function without a body, when nothing else waits, ends the run. */
  lemma LastTurn(c: Setting, s: State, d: DefId)
    requires s.worklist == [d] && d !in s.processed && d in s.functions && s.functions[d].body.None?
    ensures Run(c, s, 1) == s.(worklist := [], processed := s.processed[d := s.functions[d]])
  {
    assert s.(worklist := s.worklist[1..]) == s.(worklist := []);
    assert Run(c, s, 1) == Run(c, Step(c, s), 0);
  }

  lemma LateLookup(b: Setting, impls: seq<Impl>, h: Head, w: Want, d: DefId)
    requires b.serves(h, w) && !Serves(b, impls, w)
    ensures Lookup(b, impls + [Impl(h, d)], [w]) == Some(d)
  {
    var all := impls + [Impl(h, d)];
    assert all[..|impls|] == impls && all[|impls|..] == [Impl(h, d)];
    FirstIffServes(b, impls, w);
    FirstInPrefix(b, all, |impls|, w);
  }

  lemma ServedFirst(c: Setting, s: State, e: Body, f: Body)
    ensures Served(c, s, Node([e, f])) ==> Served(c, s, e)
  {
    assert Served(c, s, Node([e, f])) ==> ServedAll(c, s, [e, f]);
  }

  lemma NotServed(c: Setting, s: State, w: Want, root: DefId, e: Body, f: Body, d: DefId)
    requires Lookup(c, s.impls, [w]) == Some(d) && d in s.functions && d !in s.processed
    requires e.Uses? && e.wants == [w] && root in s.processed && s.processed[root].body == Some(Node([e, f]))
    ensures !ClosedUnderUses(c, s)
  {
    assert !ServedUse(c, s, [w]);
    ServedFirst(c, s, e, f);
    assert !ServedBy(c, s, s.processed[root]);
  }

  /** If something is not foreseen, a program with these implementations has a finished run that is not closed. */
  lemma UnforeseenIsMissed(c: Setting, impls: seq<Impl>, may: Head -> bool, h: Head, w: Want)
    requires may(h) && c.serves(h, w) && !Serves(c, impls, w)
    ensures var p, root := HastyProgram(impls, w), HastyRoot(impls);
            var b := Bringing(c, h, root + 1);
            && RunsToEnd(c, impls, may, b, p, [root], 2)
            && !ClosedUnderUses(b, Run(b, Start(p, [root]), 2))
  {
    var p, root := HastyProgram(impls, w), HastyRoot(impls);
    var b := Bringing(c, h, root + 1);
    BringingIsHonest(c, h, root + 1, may);
    HastyStart(c, h, impls, w);
    HastyRun(b, Start(p, [root]), root, h, w);
  }

  // ---- The border

  /** The templates are definitions of the program, and none of its functions. */
  ghost predicate OwnTemplates(c: Setting, p: Program) {
    forall d :: d in c.templates ==> d in p.defs && d !in Ids(p.functions)
  }

  /** A finished run of an honest checker that brings only what it may, on a program with these implementations. */
  ghost predicate RunsToEnd(
    c: Setting, impls: seq<Impl>, may: Head -> bool, b: Setting, p: Program, roots: seq<DefId>, n: nat)
  {
    && b.serves == c.serves && Honest(b) && AddsOnly(b, may)
    && p.impls == impls && WellScoped(p, roots) && OwnTemplates(b, p)
    && Done(Run(b, Start(p, roots), n))
  }

  ghost predicate AlwaysClosed(c: Setting, impls: seq<Impl>, may: Head -> bool) {
    forall b: Setting, p, roots, n :: RunsToEnd(c, impls, may, b, p, roots, n) ==>
      ClosedUnderUses(b, Run(b, Start(p, roots), n))
  }

  /** With these implementations, and instances that bring only what they may, all finished runs are closed under
      uses if and only if what instances may bring is foreseen. */
  lemma ForeseenIffAlwaysClosed(c: Setting, impls: seq<Impl>, may: Head -> bool)
    ensures Foreseen(c, impls, may) <==> AlwaysClosed(c, impls, may)
  {
    if Foreseen(c, impls, may) {
      forall b: Setting, p, roots, n | RunsToEnd(c, impls, may, b, p, roots, n)
        ensures ClosedUnderUses(b, Run(b, Start(p, roots), n))
      {
        ForeseenFor(c, b, impls, may);
        ForeseenIsClosed(b, may, p, roots, n);
      }
    } else {
      var h: Head, w: Want :| may(h) && c.serves(h, w) && !Serves(c, impls, w);
      UnforeseenIsMissed(c, impls, may, h, w);
    }
  }

  lemma ForeseenFor(c: Setting, b: Setting, impls: seq<Impl>, may: Head -> bool)
    requires b.serves == c.serves && Foreseen(c, impls, may)
    ensures Foreseen(b, impls, may)
  {
    forall h: Head, w: Want | may(h) && b.serves(h, w)
      ensures Serves(b, impls, w)
    {
      assert Serves(c, impls, w);
      var i :| 0 <= i < |impls| && c.serves(impls[i].head, w);
    }
  }
}
