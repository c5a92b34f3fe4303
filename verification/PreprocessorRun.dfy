/** The preprocessor as the code runs it: cursors, counters and diagnostics updated in loops. */
module PreprocessorRun {
  import opened Wrappers
  import opened Preprocessor

  class ConfigExprParser {
    const ts: seq<Token>
    const c: Config
    var pos: nat
    var diags: nat

    constructor (ts: seq<Token>, c: Config, pos: nat)
      ensures this.ts == ts && this.c == c && this.pos == pos && diags == 0
    {
      this.ts, this.c, this.pos, diags := ts, c, pos, 0;
    }

    twostate predicate Moved(value: bool, r: Parsed)
      reads this
    {
      value == r.value && pos == r.pos && diags == old(diags) + r.diags
    }

    method ParseOr() returns (value: bool)
      requires pos <= |ts|
      modifies this
      ensures Moved(value, Preprocessor.ParseOr(ts, c, old(pos)))
      decreases |ts| - pos, 6
    {
      value := ParseAnd();
      while At(ts, pos, PipePipe)
        invariant old(pos) <= pos <= |ts| && diags >= old(diags)
        invariant Preprocessor.ParseOr(ts, c, old(pos)) == OrTail(ts, c, Parsed(value, pos, diags - old(diags)))
        decreases |ts| - pos
      {
        pos := pos + 1;
        var right := ParseAnd();
        value := right || value;
      }
    }

    method ParseAnd() returns (value: bool)
      requires pos <= |ts|
      modifies this
      ensures Moved(value, Preprocessor.ParseAnd(ts, c, old(pos)))
      decreases |ts| - pos, 4
    {
      value := ParseUnary();
      while At(ts, pos, AmpAmp)
        invariant old(pos) <= pos <= |ts| && diags >= old(diags)
        invariant Preprocessor.ParseAnd(ts, c, old(pos)) == AndTail(ts, c, Parsed(value, pos, diags - old(diags)))
        decreases |ts| - pos
      {
        pos := pos + 1;
        var right := ParseUnary();
        value := right && value;
      }
    }

    method ParseUnary() returns (value: bool)
      requires pos <= |ts|
      modifies this
      ensures Moved(value, Preprocessor.ParseUnary(ts, c, old(pos)))
      decreases |ts| - pos, 2
    {
      if At(ts, pos, Bang) {
        pos := pos + 1;
        var inner := ParseUnary();
        value := !inner;
      } else {
        value := ParsePrimary();
      }
    }

    method ParsePrimary() returns (value: bool)
      requires pos <= |ts|
      modifies this
      ensures Moved(value, Preprocessor.ParsePrimary(ts, c, old(pos)))
      decreases |ts| - pos, 1
    {
      if At(ts, pos, LParen) {
        pos := pos + 1;
        value := ParseOr();
        Expect(RParen);
        return;
      }
      if !At(ts, pos, Ident) {
        diags := diags + 1;
        return false;
      }
      value := ParseCall();
    }

    /** A function name with its parenthesised string. */
    method ParseCall() returns (value: bool)
      requires At(ts, pos, Ident)
      modifies this
      ensures Moved(value, Preprocessor.ParsePrimary(ts, c, old(pos)))
    {
      var name := ts[pos].lexeme;
      pos := pos + 1;
      Expect(LParen);
      if !At(ts, pos, String) {
        diags := diags + 1;
        return false;
      }
      var raw := ts[pos].lexeme;
      pos := pos + 1;
      Expect(RParen);
      var result := EvalCall(c, name, Decode(raw));
      if result.None? {
        diags := diags + 1;
        return false;
      }
      value := result.value;
    }

    method Expect(k: Kind)
      modifies this
      ensures pos == old(pos) + (if At(ts, old(pos), k) then 1 else 0)
      ensures diags == old(diags) + (if At(ts, old(pos), k) then 0 else 1)
    {
      if At(ts, pos, k) {
        pos := pos + 1;
      } else {
        diags := diags + 1;
      }
    }
  }

  lemma JoinAssociates(x: Output, y: Output, z: Output)
    ensures Join(x, Join(y, z)) == Join(Join(x, y), z)
  {
    assert x.tokens + (y.tokens + z.tokens) == x.tokens + y.tokens + z.tokens;
  }

  /** What the first branch of a gate emits and reports, and where it ends. */
  ghost predicate IsBranch(ts: seq<Token>, c: Config, pos: nat, selected: bool, here: Output)
    requires OpensBranch(ts, pos)
  {
    match Condition(ts, c, pos)
    case Parsed(value, start, diags) =>
      var r := if !selected && value then Range(ts, c, start, ZERO, AtBranchEnd)
               else Output([], FindEnd(ts, start, 0), 0);
      here == Output(r.tokens, r.pos, diags + r.diags)
  }

  /** What was emitted so far, followed by what the rest of the gate emits, is the whole output. */
  ghost predicate GateGoes(ts: seq<Token>, c: Config, sofar: Output, selected: bool, whole: Output)
    requires OpensBranch(ts, sofar.pos)
  {
    match Gate(ts, c, sofar.pos, selected)
    case Output(tokens, pos, diags) => whole == Output(sofar.tokens + tokens, pos, sofar.diags + diags)
  }

  lemma GateStarts(ts: seq<Token>, c: Config, pos: nat)
    requires OpensBranch(ts, pos)
    ensures GateGoes(ts, c, Output([], pos, 0), false, Gate(ts, c, pos, false))
  {
    var whole := Gate(ts, c, pos, false);
    assert [] + whole.tokens == whole.tokens;
  }

  lemma GateGoesOn(ts: seq<Token>, c: Config, sofar: Output, selected: bool, here: Output, whole: Output)
    requires OpensBranch(ts, sofar.pos) && GateGoes(ts, c, sofar, selected, whole)
    requires IsBranch(ts, c, sofar.pos, selected, here) && (At(ts, here.pos, HashElif) || At(ts, here.pos, HashElse))
    ensures GateGoes(ts, c, Join(sofar, here), selected || Condition(ts, c, sofar.pos).value, whole)
  {
    JoinAssociates(sofar, here, Gate(ts, c, here.pos, selected || Condition(ts, c, sofar.pos).value));
  }

  lemma GateEnds(ts: seq<Token>, c: Config, sofar: Output, selected: bool, here: Output, whole: Output)
    requires OpensBranch(ts, sofar.pos) && GateGoes(ts, c, sofar, selected, whole)
    requires IsBranch(ts, c, sofar.pos, selected, here) && !At(ts, here.pos, HashElif) && !At(ts, here.pos, HashElse)
    ensures whole == Output(sofar.tokens + here.tokens,
                            if At(ts, here.pos, HashEndif) then here.pos + 1 else here.pos,
                            sofar.diags + here.diags + if here.pos == |ts| || At(ts, here.pos, Eof) then 1 else 0)
  {
  }

  /** What was emitted so far, followed by what the range goes on to emit, is the whole output. */
  ghost predicate Goes(ts: seq<Token>, c: Config, sofar: Output, d: Depths, stops: Stops, whole: Output)
    requires sofar.pos <= |ts|
  {
    match sofar
    case Output(_, pos, _) => whole == Join(sofar, Range(ts, c, pos, d, stops))
  }

  lemma FirstStep(ts: seq<Token>, c: Config, start: nat, stops: Stops)
    requires start <= |ts|
    ensures Goes(ts, c, Output([], start, 0), ZERO, stops, Range(ts, c, start, ZERO, stops))
  {
    var whole := Range(ts, c, start, ZERO, stops);
    assert [] + whole.tokens == whole.tokens;
  }

  /** One token more; a directive inside brackets is reported. */
  ghost function Further(ts: seq<Token>, sofar: Output): Output
    requires sofar.pos < |ts|
  {
    var t := ts[sofar.pos];
    Output(sofar.tokens + [t], sofar.pos + 1, sofar.diags + if IsDirective(t.kind) then 1 else 0)
  }

  /** One token further, outside the gate language or inside brackets. */
  lemma PlainStep(ts: seq<Token>, c: Config, sofar: Output, d: Depths, stops: Stops, whole: Output)
    requires sofar.pos < |ts| && ts[sofar.pos].kind != Eof && Goes(ts, c, sofar, d, stops, whole)
    requires d == ZERO ==> !StopsAt(stops, ts[sofar.pos].kind) && ts[sofar.pos].kind != HashIf
    ensures Goes(ts, c, Further(ts, sofar), NextDepths(d, ts[sofar.pos].kind), stops, whole)
  {
    var t := ts[sofar.pos];
    var here := Output([t], sofar.pos + 1, if IsDirective(t.kind) then 1 else 0);
    var rest := Range(ts, c, sofar.pos + 1, NextDepths(d, t.kind), stops);
    assert Range(ts, c, sofar.pos, d, stops) == Join(here, rest);
    JoinAssociates(sofar, here, rest);
  }

  /** One gate further. */
  lemma GateStep(ts: seq<Token>, c: Config, sofar: Output, stops: Stops, whole: Output)
    requires At(ts, sofar.pos, HashIf) && Goes(ts, c, sofar, ZERO, stops, whole)
    ensures Goes(ts, c, Join(sofar, Gate(ts, c, sofar.pos, false)), ZERO, stops, whole)
  {
    var gate := Gate(ts, c, sofar.pos, false);
    JoinAssociates(sofar, gate, Range(ts, c, gate.pos, ZERO, stops));
  }

  lemma LastStep(ts: seq<Token>, c: Config, sofar: Output, d: Depths, stops: Stops, whole: Output)
    requires sofar.pos <= |ts| && Goes(ts, c, sofar, d, stops, whole)
    requires sofar.pos == |ts| || ts[sofar.pos].kind == Eof || (d == ZERO && StopsAt(stops, ts[sofar.pos].kind))
    ensures whole == sofar
  {
    assert sofar.tokens + [] == sofar.tokens;
  }

  class ConfigPreprocessor {
    const ts: seq<Token>
    const c: Config
    var diags: nat

    constructor (ts: seq<Token>, c: Config)
      ensures this.ts == ts && this.c == c && diags == 0
    {
      this.ts, this.c, diags := ts, c, 0;
    }

    method ProcessRange(start: nat, stops: Stops) returns (out: seq<Token>, pos: nat)
      requires start <= |ts|
      modifies this
      ensures diags >= old(diags)
      ensures Output(out, pos, diags - old(diags)) == Range(ts, c, start, ZERO, stops)
      decreases |ts| - start, 2
    {
      out, pos := [], start;
      var d := ZERO;
      ghost var whole := Range(ts, c, start, ZERO, stops);
      ghost var sofar := Output([], start, 0);
      FirstStep(ts, c, start, stops);
      while pos < |ts|
        invariant start <= pos <= |ts| && diags >= old(diags)
        invariant sofar == Output(out, pos, diags - old(diags))
        invariant Goes(ts, c, sofar, d, stops, whole)
        decreases |ts| - pos
      {
        var kind := ts[pos].kind;
        if d == ZERO && StopsAt(stops, kind) {
          break;
        }
        if kind == HashIf && d == ZERO {
          GateStep(ts, c, sofar, stops, whole);
          sofar := Join(sofar, Gate(ts, c, pos, false));
          var more, next := ProcessIf(pos);
          out, pos := out + more, next;
          continue;
        }
        if kind == Eof {
          break;
        }
        PlainStep(ts, c, sofar, d, stops, whole);
        sofar := Further(ts, sofar);
        if IsDirective(kind) {
          diags := diags + 1;
        }
        d := NextDepths(d, kind);
        out, pos := out + [ts[pos]], pos + 1;
      }
      LastStep(ts, c, sofar, d, stops, whole);
    }

    method ProcessIf(start: nat) returns (out: seq<Token>, pos: nat)
      requires At(ts, start, HashIf)
      modifies this
      ensures diags >= old(diags)
      ensures Output(out, pos, diags - old(diags)) == Gate(ts, c, start, false)
      decreases |ts| - start, 1
    {
      out, pos := [], start;
      var selected := false;
      ghost var whole := Gate(ts, c, start, false);
      GateStarts(ts, c, start);
      while true
        invariant start <= pos && OpensBranch(ts, pos) && diags >= old(diags)
        invariant GateGoes(ts, c, Output(out, pos, diags - old(diags)), selected, whole)
        decreases |ts| - pos
      {
        ghost var sofar := Output(out, pos, diags - old(diags));
        var branch, end, active := ProcessBranch(pos, selected);
        ghost var here := Output(branch, end, diags - old(diags) - sofar.diags);
        if At(ts, end, HashElif) || At(ts, end, HashElse) {
          GateGoesOn(ts, c, sofar, selected, here, whole);
          out, pos, selected := out + branch, end, selected || active;
        } else {
          GateEnds(ts, c, sofar, selected, here, whole);
          out := out + branch;
          pos := LeaveGate(end);
          return;
        }
      }
    }

    /** Behind the last branch: the endif is skipped, and its absence at the end of the file is reported. */
    method LeaveGate(end: nat) returns (pos: nat)
      modifies this
      ensures pos == if At(ts, end, HashEndif) then end + 1 else end
      ensures diags == old(diags) + if end == |ts| || At(ts, end, Eof) then 1 else 0
    {
      pos := end;
      if At(ts, end, HashEndif) {
        pos := end + 1;
      } else if end == |ts| || At(ts, end, Eof) {
        diags := diags + 1;
      }
    }

    /** The condition and body of one branch. */
    method ProcessBranch(start: nat, selected: bool) returns (branch: seq<Token>, end: nat, active: bool)
      requires OpensBranch(ts, start)
      modifies this
      ensures diags >= old(diags) && start < end <= |ts|
      ensures active == (!selected && Condition(ts, c, start).value)
      ensures IsBranch(ts, c, start, selected, Output(branch, end, diags - old(diags)))
      decreases |ts| - start, 0
    {
      var pos := start + 1;
      active := !selected;
      if ts[start].kind != HashElse {
        var parser := new ConfigExprParser(ts, c, pos);
        var value := parser.ParseOr();
        pos := parser.pos;
        diags := diags + parser.diags;
        active := !selected && value;
      }
      end := FindBranchEnd(pos);
      branch := [];
      if active {
        branch, end := ProcessRange(pos, AtBranchEnd);
      }
    }

    method FindBranchEnd(start: nat) returns (pos: nat)
      requires start <= |ts|
      ensures pos == FindEnd(ts, start, 0)
    {
      pos := start;
      var nested := 0;
      while pos < |ts|
        invariant start <= pos <= |ts| && FindEnd(ts, start, 0) == FindEnd(ts, pos, nested)
      {
        var kind := ts[pos].kind;
        if kind == HashIf {
          nested := nested + 1;
        } else if kind == HashElif || kind == HashElse || kind == HashEndif {
          if nested == 0 {
            return;
          }
          if kind == HashEndif {
            nested := nested - 1;
          }
        } else if kind == Eof {
          return;
        }
        pos := pos + 1;
      }
    }
  }

  method PreprocessConfigLossy(ts: seq<Token>, c: Config) returns (out: seq<Token>, diags: nat)
    ensures (out, diags) == Preprocess(ts, c)
  {
    if ts == [] {
      return ts, 0;
    }
    var preprocessor := new ConfigPreprocessor(ts, c);
    var body, pos := preprocessor.ProcessRange(0, AtEof);
    diags := preprocessor.diags;
    if !At(ts, pos, Eof) {
      diags := diags + 1;
    }
    out := body + [ts[|ts| - 1]];
  }
}
