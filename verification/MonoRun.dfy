/** The monomorphization context as an object: its methods compute the functions of the worklist in place. */
module MonoRun {
  import opened Wrappers
  import opened Types
  import opened Mono

  class MonoContext {
    const setting: Setting
    var functionsByDef: map<DefId, Fn>
    var impls: seq<Impl>
    var processed: map<DefId, Fn>
    var queued: set<DefId>
    var worklist: seq<DefId>
    var genericInstances: map<Key, DefId>
    var genericChains: map<DefId, seq<Key>>
    var currentStack: seq<Key>
    var nextDef: nat
    var calls: nat
    var diagnostics: seq<Diagnostic>

    ghost function Snapshot(): State
      reads this
    {
      State(functionsByDef, impls, processed, queued, worklist, genericInstances, genericChains,
            nextDef, calls, diagnostics)
    }

    constructor (c: Setting, p: Program)
      ensures setting == c && Snapshot() == New(p) && currentStack == []
    {
      setting := c;
      impls := p.impls;
      processed, queued, worklist, genericInstances, genericChains := map[], {}, [], map[], map[];
      currentStack, calls, diagnostics := [], 0, [];
      new;
      InsertFunctions(map[], p.functions);
      nextDef := 0;
      RaiseNextDef(Ids(p.functions));
      RaiseNextDef(ImplIds(p.impls));
      RaiseNextDef(p.defs);
    }

    /** The functions by identifier: later ones replace earlier ones. */
    method InsertFunctions(base: map<DefId, Fn>, fs: seq<Fn>)
      modifies this`functionsByDef
      ensures functionsByDef == AddAll(base, fs)
    {
      functionsByDef := base;
      for i := 0 to |fs|
        invariant AddAll(functionsByDef, fs[i..]) == AddAll(base, fs)
      {
        functionsByDef := functionsByDef[fs[i].def := fs[i]];
        assert fs[i..][0] == fs[i] && fs[i..][1..] == fs[i + 1..];
      }
    }

    method RaiseNextDef(ids: seq<DefId>)
      modifies this`nextDef
      ensures nextDef == Above(old(nextDef), ids)
    {
      for i := 0 to |ids|
        invariant Above(nextDef, ids[i..]) == Above(old(nextDef), ids)
      {
        assert ids[i..][0] == ids[i] && ids[i..][1..] == ids[i + 1..];
        if nextDef <= ids[i] {
          nextDef := ids[i] + 1;
        }
      }
    }

    method MarkFunction(d: DefId)
      modifies this`queued, this`worklist
      ensures Snapshot() == Mark(old(Snapshot()), d)
    {
      if d in processed || d !in functionsByDef {
        return;
      }
      if d !in queued {
        queued := queued + {d};
        worklist := worklist + [d];
      }
    }

    method InstantiateGeneric(key: Key) returns (r: Outcome<DefId>)
      modifies this
      ensures (Snapshot(), r) == Instantiate(setting, old(Snapshot()), old(currentStack), key)
      ensures currentStack == old(currentStack)
    {
      if key in genericInstances {
        return Fine(genericInstances[key]);
      }
      if key.template !in setting.templates {
        return Failed(["missing generic function template"]);
      }
      if InfiniteGrowth(setting, currentStack, key) {
        return Failed(["infinite generic instantiation cycle"]);
      }
      r := CheckGeneric(key);
    }

    /** A new instance is checked, and what the checker gives is taken over. */
    method CheckGeneric(key: Key) returns (r: Outcome<DefId>)
      requires key !in genericInstances && key.template in setting.templates
      requires !InfiniteGrowth(setting, currentStack, key)
      modifies this
      ensures (Snapshot(), r) == Instantiate(setting, old(Snapshot()), old(currentStack), key)
      ensures currentStack == old(currentStack)
    {
      var id := nextDef;
      nextDef := nextDef + 1;
      calls := calls + 1;
      var answer := setting.check(calls - 1, key, id, nextDef);
      if answer.Failed? {
        return Failed(answer.diagnostics);
      }
      TakeInstance(key, id, answer.value);
      MarkFunction(id);
      r := Fine(id);
    }

    method TakeInstance(key: Key, id: DefId, instance: Instance)
      modifies this
      ensures Snapshot() == AddInstance(old(Snapshot()), old(currentStack), key, id, instance)
      ensures currentStack == old(currentStack)
    {
      TakeImpls(instance.impls);
      RaiseNextDef(Ids(instance.generated));
      InsertFunctions(functionsByDef, instance.generated);
      genericInstances := genericInstances[key := id];
      genericChains := genericChains[id := currentStack + [key]];
      functionsByDef := functionsByDef[id := instance.fn];
    }

    /** Implementations that the program has already are skipped; each of the others raises the next identifier. */
    method TakeImpls(more: seq<Impl>)
      modifies this`impls, this`nextDef
      ensures impls == AddImpls(old(impls), more)
      ensures nextDef == Above(old(nextDef), ImplIds(impls[|old(impls)|..]))
    {
      assert ImplIds([]) == [];
      for i := 0 to |more|
        invariant old(impls) <= impls && AddImpls(impls, more[i..]) == AddImpls(old(impls), more)
        invariant nextDef == Above(old(nextDef), ImplIds(impls[|old(impls)|..]))
      {
        assert more[i..][0] == more[i] && more[i..][1..] == more[i + 1..];
        if !(exists j :: 0 <= j < |impls| && impls[j].head == more[i].head) {
          ghost var added := impls[|old(impls)|..];
          AboveOne(old(nextDef), added, more[i]);
          impls := impls + [more[i]];
          assert impls[|old(impls)|..] == added + [more[i]];
          if nextDef <= more[i].fn {
            nextDef := more[i].fn + 1;
          }
        }
      }
    }

    method RewriteExpr(e: Body) returns (r: Outcome<Body>)
      modifies this
      ensures (Snapshot(), r) == Rewrite(setting, old(Snapshot()), old(currentStack), e)
      ensures currentStack == old(currentStack)
      decreases e, 0
    {
      match e
      case Ref(d) =>
        MarkFunction(d);
        r := Fine(e);
      case Generic(template, args) =>
        var id := InstantiateGeneric(Key(template, args));
        match id {
          case Fine(d) => r := Fine(Ref(d));
          case Failed(ds) => r := Failed(ds);
        }
      case Uses(wants, _) =>
        var found := FindImpl(wants);
        if found.Some? {
          MarkFunction(found.value);
        }
        r := Fine(Uses(wants, |impls|));
      case Node(children) =>
        var all := RewriteChildren(children);
        match all {
          case Fine(es) => r := Fine(Node(es));
          case Failed(ds) => r := Failed(ds);
        }
    }

    /** The first implementation that serves the first want that is served at all. */
    method FindImpl(wants: seq<Want>) returns (found: Option<DefId>)
      ensures found == Lookup(setting, impls, wants)
    {
      for i := 0 to |wants|
        invariant Lookup(setting, impls, wants) == Lookup(setting, impls, wants[i..])
      {
        assert wants[i..][0] == wants[i] && wants[i..][1..] == wants[i + 1..];
        for j := 0 to |impls|
          invariant FirstServing(setting, impls, wants[i]) == FirstServing(setting, impls[j..], wants[i])
        {
          assert impls[j..][0] == impls[j] && impls[j..][1..] == impls[j + 1..];
          if setting.serves(impls[j].head, wants[i]) {
            return Some(impls[j].fn);
          }
        }
      }
      found := None;
    }

    method RewriteChildren(es: seq<Body>) returns (r: Outcome<seq<Body>>)
      modifies this
      ensures (Snapshot(), r) == RewriteAll(setting, old(Snapshot()), old(currentStack), es)
      ensures currentStack == old(currentStack)
      decreases es, 1
    {
      var out: seq<Body> := [];
      assert es[0..] == es;
      ThenNothing(RewriteAll(setting, Snapshot(), currentStack, es));
      for i := 0 to |es|
        invariant currentStack == old(currentStack)
        invariant RewriteAll(setting, old(Snapshot()), currentStack, es) ==
                  Then(out, RewriteAll(setting, Snapshot(), currentStack, es[i..]))
      {
        assert es[i..][0] == es[i] && es[i..][1..] == es[i + 1..];
        var first := RewriteExpr(es[i]);
        if first.Failed? {
          return Failed(first.diagnostics);
        }
        ThenOne(out, first.value, RewriteAll(setting, Snapshot(), currentStack, es[i + 1..]));
        out := out + [first.value];
      }
      assert es[|es|..] == [] && out + [] == out;
      r := Fine(out);
    }

    method ProcessFunction(d: DefId)
      modifies this
      ensures Snapshot() == Process(setting, old(Snapshot()), d) && currentStack == old(currentStack)
    {
      if d in processed || d !in functionsByDef {
        return;
      }
      var f := functionsByDef[d];
      var previous := currentStack;
      currentStack := if d in genericChains then genericChains[d] else [];
      if f.body.Some? {
        var body := RewriteExpr(f.body.value);
        match body {
          case Fine(e) => f := Fn(f.def, Some(e));
          case Failed(ds) =>
            f := Fn(f.def, None);
            diagnostics := diagnostics + ds;
        }
      }
      currentStack := previous;
      processed := processed[d := f];
    }

    /** The worklist loop, for at most `turns` turns. */
    method Drain(turns: nat)
      modifies this
      ensures Snapshot() == Run(setting, old(Snapshot()), turns)
    {
      var n := turns;
      while n > 0 && worklist != []
        invariant Run(setting, Snapshot(), n) == Run(setting, old(Snapshot()), turns)
        decreases n
      {
        var d := worklist[0];
        worklist := worklist[1..];
        ProcessFunction(d);
        n := n - 1;
      }
    }

    method MarkRoots(roots: seq<DefId>)
      modifies this`queued, this`worklist
      ensures Snapshot() == MarkAll(old(Snapshot()), roots)
    {
      for i := 0 to |roots|
        invariant MarkAll(Snapshot(), roots[i..]) == MarkAll(old(Snapshot()), roots)
      {
        assert roots[i..][0] == roots[i] && roots[i..][1..] == roots[i + 1..];
        MarkFunction(roots[i]);
      }
    }
  }

  lemma {:induction false} AboveOne(n: nat, impls: seq<Impl>, more: Impl)
    ensures Above(n, ImplIds(impls + [more])) ==
            if Above(n, ImplIds(impls)) <= more.fn then more.fn + 1 else Above(n, ImplIds(impls))
    decreases |impls|
  {
    if impls == [] {
      assert impls + [more] == [more] && [more][1..] == [];
    } else {
      assert (impls + [more])[1..] == impls[1..] + [more];
      AboveOne(if n <= impls[0].fn then impls[0].fn + 1 else n, impls[1..], more);
    }
  }

  /** The results so far in front of the results to come. */
  ghost function Then(out: seq<Body>, rest: (State, Outcome<seq<Body>>)): (State, Outcome<seq<Body>>) {
    (rest.0, match rest.1 case Fine(more) => Fine(out + more) case Failed(diagnostics) => Failed(diagnostics))
  }

  lemma ThenNothing(rest: (State, Outcome<seq<Body>>))
    ensures Then([], rest) == rest
  {
    if rest.1.Fine? {
      assert [] + rest.1.value == rest.1.value;
    }
  }

  lemma ThenOne(out: seq<Body>, first: Body, rest: (State, Outcome<seq<Body>>))
    ensures Then(out, Then([first], rest)) == Then(out + [first], rest)
  {
    if rest.1.Fine? {
      assert out + ([first] + rest.1.value) == out + [first] + rest.1.value;
    }
  }

  /** The whole pass: the roots are marked and the worklist is drained, for at most `turns` turns. */
  method Monomorphize(c: Setting, p: Program, roots: seq<DefId>, turns: nat)
      returns (functions: map<DefId, Fn>, diagnostics: seq<Diagnostic>, drained: bool)
    ensures var s := Run(c, Start(p, roots), turns);
            functions == s.processed && diagnostics == s.diagnostics && drained == (s.worklist == [])
  {
    var context := new MonoContext(c, p);
    context.MarkRoots(roots);
    context.Drain(turns);
    functions, diagnostics, drained := context.processed, context.diagnostics, context.worklist == [];
  }
}
