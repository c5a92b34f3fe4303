/** One pass over a function body as the code runs it: aliases and escapes updated while scanning. */
module EscapeAnalyzer {
  import opened Wrappers
  import opened Types
  import opened Escape

  datatype Context = Context(program: Program, summaries: map<DefId, Summary>, params: map<LocalId, nat>)

  /** The state of a pass; the scrutinees are those of the enclosing switches. */
  datatype Pass = Pass(frame: Frame, escape: Summary)

  function Both(x: Summary, y: Summary): Summary {
    Summary(x.heap + y.heap, x.params + y.params)
  }

  function Escaped(c: Context, frame: Frame, evs: seq<Event>): set<Source> {
    Escaping(c.program, Known(c.summaries), c.params, frame, evs)
  }

  function Replay(c: Context, p: Pass, evs: seq<Event>): Pass {
    Pass(FrameAfter(c.params, p.frame, evs), Both(p.escape, ToSummary(Escaped(c, p.frame, evs))))
  }

  lemma {:induction false} FramesConcat(c: Context, frame: Frame, a: seq<Event>, b: seq<Event>)
    ensures FrameAfter(c.params, frame, a + b) == FrameAfter(c.params, FrameAfter(c.params, frame, a), b)
    ensures Escaped(c, frame, a + b) == Escaped(c, frame, a) + Escaped(c, FrameAfter(c.params, frame, a), b)
    decreases |a|
  {
    if a == [] {
      assert a + b == b;
    } else {
      assert (a + b)[1..] == a[1..] + b;
      FramesConcat(c, NextFrame(c.params, frame, a[0]), a[1..], b);
    }
  }

  lemma BothOfUnion(e: Summary, x: set<Source>, y: set<Source>)
    ensures Both(e, ToSummary(x + y)) == Both(Both(e, ToSummary(x)), ToSummary(y))
  {
  }

  /** Running two lists of events one after the other. */
  lemma ReplayConcat(c: Context, p: Pass, a: seq<Event>, b: seq<Event>)
    ensures Replay(c, p, a + b) == Replay(c, Replay(c, p, a), b)
  {
    FramesConcat(c, p.frame, a, b);
    BothOfUnion(p.escape, Escaped(c, p.frame, a), Escaped(c, FrameAfter(c.params, p.frame, a), b));
  }

  lemma ReplayNothing(c: Context, p: Pass)
    ensures Replay(c, p, []) == p
  {
    assert Escaped(c, p.frame, []) == {};
  }

  lemma ReplayOne(c: Context, p: Pass, ev: Event)
    ensures Replay(c, p, [ev]) ==
            Pass(NextFrame(c.params, p.frame, ev),
                 Both(p.escape, ToSummary(EventSources(c.program, Known(c.summaries), c.params, p.frame, ev))))
  {
    var next := NextFrame(c.params, p.frame, ev);
    assert [ev][1..] == [] && Escaped(c, next, [ev][1..]) == {} && FrameAfter(c.params, next, [ev][1..]) == next;
    assert Escaped(c, p.frame, [ev])
        == EventSources(c.program, Known(c.summaries), c.params, p.frame, ev) + Escaped(c, next, [ev][1..]);
  }

  lemma ReplayEnter(c: Context, p: Pass, e: Expr)
    ensures Replay(c, p, [EnterSwitch(e)]) == Inside(p, Sources(c.params, p.frame.aliases, e))
  {
    ReplayOne(c, p, EnterSwitch(e));
  }

  lemma ReplayLeave(c: Context, p: Pass, sources: set<Source>)
    ensures Replay(c, Inside(p, sources), [LeaveSwitch]) == p
  {
    ReplayOne(c, Inside(p, sources), LeaveSwitch);
    assert (p.frame.scrutinees + [sources])[..|p.frame.scrutinees|] == p.frame.scrutinees;
  }

  /** The same pass with one more scrutinee around it. */
  function Inside(p: Pass, sources: set<Source>): Pass {
    p.(frame := p.frame.(scrutinees := p.frame.scrutinees + [sources]))
  }

  lemma ReplaySwitch(c: Context, p: Pass, s: Stmt)
    requires s.Switch?
    ensures var entered := Replay(c, Replay(c, p, ExprEvents(s.scrutinee)), [EnterSwitch(s.scrutinee)]);
            var done := Replay(c, Replay(c, entered, CasesEvents(s.cases)), StmtsEvents(s.default));
            Replay(c, p, StmtEvents(s)) == Replay(c, done, [LeaveSwitch])
  {
    var enter := ExprEvents(s.scrutinee) + [EnterSwitch(s.scrutinee)];
    ReplayConcat(c, p, ExprEvents(s.scrutinee), [EnterSwitch(s.scrutinee)]);
    ReplayConcat(c, p, enter, CasesEvents(s.cases));
    ReplayConcat(c, p, enter + CasesEvents(s.cases), StmtsEvents(s.default));
    ReplayConcat(c, p, enter + CasesEvents(s.cases) + StmtsEvents(s.default), [LeaveSwitch]);
  }

  class FunctionAnalyzer {
    const c: Context
    var aliases: Aliases
    var escape: Summary

    constructor (c: Context)
      ensures this.c == c && Now([]) == Pass(Frame(map[], []), Summary({}, {}))
    {
      this.c, aliases, escape := c, map[], Summary({}, {});
    }

    ghost function Now(scrutinees: seq<set<Source>>): Pass
      reads this
    {
      Pass(Frame(aliases, scrutinees), escape)
    }

    method EscapeSources(value: Expr, ghost scrutinees: seq<set<Source>>)
      modifies this
      ensures Now(scrutinees) == Replay(c, old(Now(scrutinees)), [Publish(value)])
    {
      ReplayOne(c, Now(scrutinees), Publish(value));
      escape := Both(escape, ToSummary(Sources(c.params, aliases, value)));
    }

    method UpdateAlias(id: LocalId, value: Expr, ghost scrutinees: seq<set<Source>>)
      modifies this
      ensures Now(scrutinees) == Replay(c, old(Now(scrutinees)), [Bind(id, value)])
    {
      ReplayOne(c, Now(scrutinees), Bind(id, value));
      var sources := Sources(c.params, aliases, value);
      if sources == {} {
        aliases := aliases - {id};
      } else {
        aliases := aliases[id := sources];
      }
    }

    method ApplyCallEscape(callee: Expr, args: seq<Expr>, ghost scrutinees: seq<set<Source>>)
      modifies this
      ensures Now(scrutinees) == Replay(c, old(Now(scrutinees)), [CallTo(callee, args)])
    {
      ReplayOne(c, Now(scrutinees), CallTo(callee, args));
      ghost var before := escape;
      for i := 0 to |args|
        invariant aliases == old(aliases)
        invariant escape == Both(before, ToSummary(Through(callee, args, i)))
      {
        if ArgEscapes(c.program, Known(c.summaries), callee, args, i) {
          BothOfUnion(before, Through(callee, args, i), Sources(c.params, aliases, args[i]));
          escape := Both(escape, ToSummary(Sources(c.params, aliases, args[i])));
        }
      }
    }

    ghost function Through(callee: Expr, args: seq<Expr>, n: nat): set<Source>
      requires n <= |args|
      reads this
    {
      CallSources(c.program, Known(c.summaries), c.params, aliases, callee, args, n)
    }

    method ScanExpr(e: Expr, ghost scrutinees: seq<set<Source>>)
      modifies this
      ensures Now(scrutinees) == Replay(c, old(Now(scrutinees)), ExprEvents(e))
      decreases e, 0
    {
      ghost var start := Now(scrutinees);
      match e.kind
      case Local(_) => ReplayNothing(c, start);
      case FunctionRef(_) => ReplayNothing(c, start);
      case Constant => ReplayNothing(c, start);
      case AddressOf(operand) => ScanExpr(operand, scrutinees);
      case ArrayToSlice(operand) => ScanExpr(operand, scrutinees);
      case SliceOf(base, limits) =>
        ReplayConcat(c, start, ExprEvents(base), ExprsEvents(limits, false));
        ScanExpr(base, scrutinees);
        ScanExprs(limits, false, scrutinees);
      case Call(callee, args) =>
        ReplayConcat(c, start, ExprEvents(callee), ExprsEvents(args, false));
        ReplayConcat(c, start, ExprEvents(callee) + ExprsEvents(args, false), [CallTo(callee, args)]);
        ScanExpr(callee, scrutinees);
        ScanExprs(args, false, scrutinees);
        ApplyCallEscape(callee, args, scrutinees);
      case Closure(_, body) => ScanStmts(body, scrutinees);
      case UnsafeBlock(statements, value) =>
        ScanStmts(statements, scrutinees);
        if value.Some? {
          ReplayConcat(c, start, StmtsEvents(statements), ExprEvents(value.value));
          ScanExpr(value.value, scrutinees);
        } else {
          assert StmtsEvents(statements) + [] == StmtsEvents(statements);
        }
      case Node(op, children) => ScanExprs(children, Publishes(op), scrutinees);
    }

    method ScanExprs(es: seq<Expr>, publish: bool, ghost scrutinees: seq<set<Source>>)
      modifies this
      ensures Now(scrutinees) == Replay(c, old(Now(scrutinees)), ExprsEvents(es, publish))
      decreases es, 0
    {
      ghost var start := Now(scrutinees);
      for i := 0 to |es|
        invariant Replay(c, start, ExprsEvents(es, publish))
                  == Replay(c, Now(scrutinees), ExprsEvents(es[i..], publish))
      {
        ghost var rest := ExprsEvents(es[i + 1..], publish);
        ghost var here := if publish then [Publish(es[i])] else [];
        assert es[i..][1..] == es[i + 1..];
        assert ExprsEvents(es[i..], publish) == ExprEvents(es[i]) + here + rest;
        ReplayConcat(c, Now(scrutinees), ExprEvents(es[i]) + here, rest);
        ReplayConcat(c, Now(scrutinees), ExprEvents(es[i]), here);
        ScanExpr(es[i], scrutinees);
        if publish {
          EscapeSources(es[i], scrutinees);
        } else {
          ReplayNothing(c, Now(scrutinees));
        }
      }
      ReplayNothing(c, Now(scrutinees));
    }

    method ScanStmts(ss: seq<Stmt>, ghost scrutinees: seq<set<Source>>)
      modifies this
      ensures Now(scrutinees) == Replay(c, old(Now(scrutinees)), StmtsEvents(ss))
      decreases ss, 0
    {
      ghost var start := Now(scrutinees);
      for i := 0 to |ss|
        invariant Replay(c, start, StmtsEvents(ss)) == Replay(c, Now(scrutinees), StmtsEvents(ss[i..]))
      {
        assert ss[i..][1..] == ss[i + 1..];
        ReplayConcat(c, Now(scrutinees), StmtEvents(ss[i]), StmtsEvents(ss[i + 1..]));
        ScanStmt(ss[i], scrutinees);
      }
      ReplayNothing(c, Now(scrutinees));
    }

    method ScanStmt(s: Stmt, ghost scrutinees: seq<set<Source>>)
      modifies this
      ensures Now(scrutinees) == Replay(c, old(Now(scrutinees)), StmtEvents(s))
      decreases s, 3
    {
      ghost var start := Now(scrutinees);
      match s
      case Block(statements) => ScanStmts(statements, scrutinees);
      case VarDecl(id, init) =>
        if init.Some? {
          ReplayConcat(c, start, ExprEvents(init.value), [Bind(id, init.value)]);
          ScanExpr(init.value, scrutinees);
          UpdateAlias(id, init.value, scrutinees);
        } else {
          ReplayOne(c, start, Unbind(id));
          aliases := aliases - {id};
        }
      case Assign(target, value) => ScanAssign(s, scrutinees);
      case If(cond, thenBlock, elseBranch) =>
        ReplayConcat(c, start, ExprEvents(cond), StmtsEvents(thenBlock));
        ScanExpr(cond, scrutinees);
        ScanStmts(thenBlock, scrutinees);
        if elseBranch.Some? {
          ReplayConcat(c, start, ExprEvents(cond) + StmtsEvents(thenBlock), StmtEvents(elseBranch.value));
          ScanStmt(elseBranch.value, scrutinees);
        } else {
          assert StmtEvents(s) == ExprEvents(cond) + StmtsEvents(thenBlock);
        }
      case While(cond, body) =>
        ReplayConcat(c, start, ExprEvents(cond), StmtsEvents(body));
        ScanExpr(cond, scrutinees);
        ScanStmts(body, scrutinees);
      case For(_, _, _, _) => ScanFor(s, scrutinees);
      case Switch(_, _, _) => ScanSwitch(s, scrutinees);
      case Effect(expr) => ScanExpr(expr, scrutinees);
      case Return(result) =>
        if result.Some? {
          ReplayConcat(c, start, ExprEvents(result.value), [Publish(result.value)]);
          ScanExpr(result.value, scrutinees);
          EscapeSources(result.value, scrutinees);
        } else {
          ReplayNothing(c, start);
        }
      case Skip => ReplayNothing(c, start);
    }

    method ScanAssign(s: Stmt, ghost scrutinees: seq<set<Source>>)
      requires s.Assign?
      modifies this
      ensures Now(scrutinees) == Replay(c, old(Now(scrutinees)), StmtEvents(s))
      decreases s, 2
    {
      ghost var start := Now(scrutinees);
      ReplayConcat(c, start, ExprEvents(s.target), ExprEvents(s.value));
      ReplayConcat(c, start, ExprEvents(s.target) + ExprEvents(s.value), AssignEvents(s.target, s.value));
      ScanExpr(s.target, scrutinees);
      ScanExpr(s.value, scrutinees);
      if s.target.kind.Local? {
        UpdateAlias(s.target.kind.id, s.value, scrutinees);
      } else {
        EscapeSources(s.value, scrutinees);
      }
    }

    method ScanFor(s: Stmt, ghost scrutinees: seq<set<Source>>)
      requires s.For?
      modifies this
      ensures Now(scrutinees) == Replay(c, old(Now(scrutinees)), StmtEvents(s))
      decreases s, 2
    {
      ghost var start := Now(scrutinees);
      ghost var a := if s.start.Some? then StmtEvents(s.start.value) else [];
      ghost var b := if s.test.Some? then ExprEvents(s.test.value) else [];
      ghost var d := if s.step.Some? then StmtEvents(s.step.value) else [];
      ReplayConcat(c, start, a, b);
      ReplayConcat(c, start, a + b, d);
      ReplayConcat(c, start, a + b + d, StmtsEvents(s.body));
      if s.start.Some? {
        ScanStmt(s.start.value, scrutinees);
      } else {
        ReplayNothing(c, Now(scrutinees));
      }
      if s.test.Some? {
        ScanExpr(s.test.value, scrutinees);
      } else {
        ReplayNothing(c, Now(scrutinees));
      }
      if s.step.Some? {
        ScanStmt(s.step.value, scrutinees);
      } else {
        ReplayNothing(c, Now(scrutinees));
      }
      ScanStmts(s.body, scrutinees);
    }

    method ScanSwitch(s: Stmt, ghost scrutinees: seq<set<Source>>)
      requires s.Switch?
      modifies this
      ensures Now(scrutinees) == Replay(c, old(Now(scrutinees)), StmtEvents(s))
      decreases s, 2
    {
      ReplaySwitch(c, Now(scrutinees), s);
      ScanExpr(s.scrutinee, scrutinees);
      var sources := Sources(c.params, aliases, s.scrutinee);
      ReplayEnter(c, Now(scrutinees), s.scrutinee);
      ScanArms(s, sources, scrutinees + [sources]);
      ReplayLeave(c, Now(scrutinees), sources);
    }

    method ScanArms(s: Stmt, sources: set<Source>, ghost scrutinees: seq<set<Source>>)
      requires s.Switch? && scrutinees != [] && scrutinees[|scrutinees| - 1] == sources
      modifies this
      ensures Now(scrutinees)
              == Replay(c, Replay(c, old(Now(scrutinees)), CasesEvents(s.cases)), StmtsEvents(s.default))
      decreases s, 1
    {
      ScanCases(s.cases, sources, scrutinees);
      ScanStmts(s.default, scrutinees);
    }

    method ScanCases(cs: seq<Case>, sources: set<Source>, ghost scrutinees: seq<set<Source>>)
      requires scrutinees != [] && scrutinees[|scrutinees| - 1] == sources
      modifies this
      ensures Now(scrutinees) == Replay(c, old(Now(scrutinees)), CasesEvents(cs))
      decreases cs, 0
    {
      ghost var start := Now(scrutinees);
      for i := 0 to |cs|
        invariant Replay(c, start, CasesEvents(cs)) == Replay(c, Now(scrutinees), CasesEvents(cs[i..]))
      {
        ghost var p, b := PatternEvents(cs[i].pattern), StmtsEvents(cs[i].statements);
        assert cs[i..][1..] == cs[i + 1..];
        assert CasesEvents(cs[i..]) == p + b + CasesEvents(cs[i + 1..]);
        ReplayConcat(c, Now(scrutinees), p + b, CasesEvents(cs[i + 1..]));
        ReplayConcat(c, Now(scrutinees), p, b);
        UpdatePatternAliases(cs[i].pattern, sources, scrutinees);
        ScanStmts(cs[i].statements, scrutinees);
      }
      ReplayNothing(c, Now(scrutinees));
    }

    method UpdatePatternAliases(p: Pattern, sources: set<Source>, ghost scrutinees: seq<set<Source>>)
      requires scrutinees != [] && scrutinees[|scrutinees| - 1] == sources
      modifies this
      ensures Now(scrutinees) == Replay(c, old(Now(scrutinees)), PatternEvents(p))
      decreases p
    {
      ghost var start := Now(scrutinees);
      match p
      case Wildcard => ReplayNothing(c, start);
      case Binding(id, ty) =>
        ReplayOne(c, start, BindPattern(id, CarriesPointer(ty)));
        if CarriesPointer(ty) {
          aliases := aliases[id := sources];
        } else {
          aliases := aliases - {id};
        }
      case Variant(payload) =>
        for i := 0 to |payload|
          invariant Replay(c, start, PatternsEvents(payload))
                    == Replay(c, Now(scrutinees), PatternsEvents(payload[i..]))
        {
          assert payload[i..][1..] == payload[i + 1..];
          ReplayConcat(c, Now(scrutinees), PatternEvents(payload[i]), PatternsEvents(payload[i + 1..]));
          UpdatePatternAliases(payload[i], sources, scrutinees);
        }
        ReplayNothing(c, Now(scrutinees));
    }
  }

  /** A whole pass over one function. */
  method AnalyzeFunction(program: Program, summaries: map<DefId, Summary>, f: Fn) returns (s: Summary)
    ensures s == Analyze(program, Known(summaries), f)
  {
    var analyzer := new FunctionAnalyzer(Context(program, summaries, ParamMap(f.params)));
    if f.body.Some? {
      analyzer.ScanStmts(f.body.value, []);
    }
    s := analyzer.escape;
  }
}
