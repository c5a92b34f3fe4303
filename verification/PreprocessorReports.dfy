/** What the preprocessor reports: what silence says about any token list, and what happens on bad ones. */
module PreprocessorReports {
  import opened Wrappers
  import opened Preprocessor
  import opened PreprocessorFacts
  import opened Conditions

  // ---- The grammar of conditions, with parentheses wherever they may stand

  /** The text that a string token stands for: what is between its quotes, or the token if it is not quoted. */
  ghost predicate StandsFor(raw: string, text: string) {
    raw == Quoted(text) || (raw == text && forall t :: raw != Quoted(t))
  }

  ghost predicate Asks(name: string, raw: string, test: Test) {
    match test
    case HasFeature(text) => name == "has_feature" && StandsFor(raw, text)
    case IsTargetOs(text) => name == "is_target_os" && StandsFor(raw, text)
    case IsTargetArch(text) => name == "is_target_arch" && StandsFor(raw, text)
    case UnknownFn(_, _) => false
  }

  /** The tokens from `pos` up to `end` are a condition: disjunctions at level 0, conjunctions at level 1. */
  ghost predicate Reads(ts: seq<Token>, pos: nat, level: nat, e: Cond, end: nat)
    requires level <= 2
    decreases e, if end > pos then end - pos else 0, 2 - level, 1
  {
    pos <= end <= |ts| &&
    match level
    case 0 => Reads(ts, pos, 1, e, end) || (e.Or? && exists m :: pos <= m < end && Joined(ts, pos, 0, e, m, end))
    case 1 => Reads(ts, pos, 2, e, end) || (e.And? && exists m :: pos <= m < end && Joined(ts, pos, 1, e, m, end))
    case _ => Operand(ts, pos, e, end)
  }

  ghost predicate Joined(ts: seq<Token>, pos: nat, level: nat, e: Cond, m: nat, end: nat)
    requires (level == 0 && e.Or?) || (level == 1 && e.And?)
    decreases e, if end > pos then end - pos else 0, 2 - level, 0
  {
    && At(ts, m, if level == 0 then PipePipe else AmpAmp)
    && Reads(ts, pos, level, e.l, m) && Reads(ts, m + 1, level + 1, e.r, end)
  }

  /** A negation, a condition in parentheses, or a call. */
  ghost predicate Operand(ts: seq<Token>, pos: nat, e: Cond, end: nat)
    decreases e, if end > pos then end - pos else 0, 0, 0
  {
    || (e.Not? && At(ts, pos, Bang) && Reads(ts, pos + 1, 2, e.c, end))
    || (pos + 2 <= end && At(ts, pos, LParen) && Reads(ts, pos + 1, 0, e, end - 1) && At(ts, end - 1, RParen))
    || (e.Call? && CallReads(ts, pos, e.test, end))
  }

  ghost predicate CallReads(ts: seq<Token>, pos: nat, test: Test, end: nat) {
    && end == pos + 4 && At(ts, pos, Ident) && At(ts, pos + 1, LParen) && At(ts, pos + 2, String)
    && At(ts, pos + 3, RParen) && Asks(ts[pos].lexeme, ts[pos + 2].lexeme, test)
  }

  /** The parse is that of a condition of the grammar, with its truth value. */
  ghost predicate IsRead(ts: seq<Token>, c: Config, pos: nat, level: nat, e: Cond, r: Parsed)
    requires level <= 2
  {
    Known(e) && Reads(ts, pos, level, e, r.pos) && r.value == Holds(c, e)
  }

  lemma {:induction false} OrTailReports(ts: seq<Token>, c: Config, acc: Parsed)
    requires acc.pos <= |ts|
    ensures acc.diags <= OrTail(ts, c, acc).diags
    decreases |ts| - acc.pos
  {
    if At(ts, acc.pos, PipePipe) {
      var right := ParseAnd(ts, c, acc.pos + 1);
      OrTailReports(ts, c, Parsed(right.value || acc.value, right.pos, acc.diags + right.diags));
    }
  }

  lemma {:induction false} AndTailReports(ts: seq<Token>, c: Config, acc: Parsed)
    requires acc.pos <= |ts|
    ensures acc.diags <= AndTail(ts, c, acc).diags
    decreases |ts| - acc.pos
  {
    if At(ts, acc.pos, AmpAmp) {
      var right := ParseUnary(ts, c, acc.pos + 1);
      AndTailReports(ts, c, Parsed(right.value && acc.value, right.pos, acc.diags + right.diags));
    }
  }

  /** Where nothing is reported, a condition of the grammar was read. */
  lemma {:induction false} SilentOr(ts: seq<Token>, c: Config, pos: nat) returns (e: Cond)
    requires pos <= |ts| && ParseOr(ts, c, pos).diags == 0
    ensures IsRead(ts, c, pos, 0, e, ParseOr(ts, c, pos))
    decreases |ts| - pos, 6
  {
    var first := ParseAnd(ts, c, pos);
    OrTailReports(ts, c, first);
    var l := SilentAnd(ts, c, pos);
    e := SilentOrTail(ts, c, pos, first, l);
  }

  lemma {:induction false} SilentOrTail(ts: seq<Token>, c: Config, pos: nat, acc: Parsed, l: Cond) returns (e: Cond)
    requires pos <= acc.pos <= |ts| && acc.diags == 0 && OrTail(ts, c, acc).diags == 0
    requires IsRead(ts, c, pos, 0, l, acc)
    ensures IsRead(ts, c, pos, 0, e, OrTail(ts, c, acc))
    decreases |ts| - acc.pos, 5
  {
    if At(ts, acc.pos, PipePipe) {
      var right := ParseAnd(ts, c, acc.pos + 1);
      var next := Parsed(right.value || acc.value, right.pos, acc.diags + right.diags);
      OrTailReports(ts, c, next);
      var r := SilentAnd(ts, c, acc.pos + 1);
      assert Joined(ts, pos, 0, Or(l, r), acc.pos, next.pos);
      e := SilentOrTail(ts, c, pos, next, Or(l, r));
    } else {
      e := l;
    }
  }

  lemma {:induction false} SilentAnd(ts: seq<Token>, c: Config, pos: nat) returns (e: Cond)
    requires pos <= |ts| && ParseAnd(ts, c, pos).diags == 0
    ensures IsRead(ts, c, pos, 1, e, ParseAnd(ts, c, pos))
    decreases |ts| - pos, 4
  {
    var first := ParseUnary(ts, c, pos);
    AndTailReports(ts, c, first);
    var l := SilentUnary(ts, c, pos);
    e := SilentAndTail(ts, c, pos, first, l);
  }

  lemma {:induction false} SilentAndTail(ts: seq<Token>, c: Config, pos: nat, acc: Parsed, l: Cond) returns (e: Cond)
    requires pos <= acc.pos <= |ts| && acc.diags == 0 && AndTail(ts, c, acc).diags == 0
    requires IsRead(ts, c, pos, 1, l, acc)
    ensures IsRead(ts, c, pos, 1, e, AndTail(ts, c, acc))
    decreases |ts| - acc.pos, 3
  {
    if At(ts, acc.pos, AmpAmp) {
      var right := ParseUnary(ts, c, acc.pos + 1);
      var next := Parsed(right.value && acc.value, right.pos, acc.diags + right.diags);
      AndTailReports(ts, c, next);
      var r := SilentUnary(ts, c, acc.pos + 1);
      assert Joined(ts, pos, 1, And(l, r), acc.pos, next.pos);
      e := SilentAndTail(ts, c, pos, next, And(l, r));
    } else {
      e := l;
    }
  }

  lemma {:induction false} SilentUnary(ts: seq<Token>, c: Config, pos: nat) returns (e: Cond)
    requires pos <= |ts| && ParseUnary(ts, c, pos).diags == 0
    ensures IsRead(ts, c, pos, 2, e, ParseUnary(ts, c, pos))
    decreases |ts| - pos, 2
  {
    if At(ts, pos, Bang) {
      var x := SilentUnary(ts, c, pos + 1);
      e := Not(x);
    } else if At(ts, pos, LParen) {
      e := SilentOr(ts, c, pos + 1);
    } else {
      e := SilentCall(ts, c, pos);
    }
  }

  lemma SilentCall(ts: seq<Token>, c: Config, pos: nat) returns (e: Cond)
    requires pos <= |ts| && !At(ts, pos, LParen) && ParsePrimary(ts, c, pos).diags == 0
    ensures IsRead(ts, c, pos, 2, e, ParsePrimary(ts, c, pos))
  {
    var name, raw := ts[pos].lexeme, ts[pos + 2].lexeme;
    var test := TestOf(name, raw);
    e := Call(test);
    assert CallReads(ts, pos, test, pos + 4);
  }

  lemma TestOf(name: string, raw: string) returns (test: Test)
    requires name in {"has_feature", "is_target_os", "is_target_arch"}
    ensures Asks(name, raw, test)
    ensures forall c: Config :: EvalCall(c, name, Decode(raw)) == Some(Holds(c, Call(test)))
  {
    DecodeStandsFor(raw);
    test := if name == "has_feature" then HasFeature(Decode(raw))
            else if name == "is_target_os" then IsTargetOs(Decode(raw))
            else IsTargetArch(Decode(raw));
  }

  lemma DecodeStandsFor(raw: string)
    ensures StandsFor(raw, Decode(raw))
  {
    DecodeText(raw, Decode(raw));
    if t :| raw == Quoted(t) {
      DecodeText(raw, t);
    }
  }

  // ---- Silence means that gates are closed

  /** Gates opened minus gates closed between two positions. */
  function Open(ts: seq<Token>, from: nat, end: nat): int
    requires from <= end <= |ts|
    decreases end - from
  {
    if from == end then 0
    else Open(ts, from, end - 1) + Weight(ts[end - 1].kind, HashIf, HashEndif)
  }

  lemma {:induction false} OpenJoins(ts: seq<Token>, from: nat, middle: nat, end: nat)
    requires from <= middle <= end <= |ts|
    ensures Open(ts, from, end) == Open(ts, from, middle) + Open(ts, middle, end)
    decreases end
  {
    if middle < end {
      OpenJoins(ts, from, middle, end - 1);
    }
  }

  lemma OpenOne(ts: seq<Token>, pos: nat)
    requires pos < |ts|
    ensures Open(ts, pos, pos + 1) == Weight(ts[pos].kind, HashIf, HashEndif)
  {
    assert Open(ts, pos, pos) == 0;
  }

  ghost predicate NoDirective(ts: seq<Token>, from: nat, end: nat)
    requires end <= |ts|
  {
    forall i :: from <= i < end ==> !IsDirective(ts[i].kind)
  }

  lemma {:induction false} NoGates(ts: seq<Token>, from: nat, end: nat)
    requires from <= end <= |ts| && NoDirective(ts, from, end)
    ensures Open(ts, from, end) == 0
    decreases end
  {
    if from < end {
      NoGates(ts, from, end - 1);
    }
  }

  lemma {:induction false} ConditionsHoldNoDirective(ts: seq<Token>, pos: nat, level: nat, e: Cond, end: nat)
    requires level <= 2 && Reads(ts, pos, level, e, end)
    ensures NoDirective(ts, pos, end)
    decreases e, end - pos, 2 - level, 1
  {
    if level == 2 {
      OperandsHoldNoDirective(ts, pos, e, end);
    } else if Reads(ts, pos, level + 1, e, end) {
      ConditionsHoldNoDirective(ts, pos, level + 1, e, end);
    } else {
      var m :| pos <= m < end && Joined(ts, pos, level, e, m, end);
      ConditionsHoldNoDirective(ts, pos, level, e.l, m);
      ConditionsHoldNoDirective(ts, m + 1, level + 1, e.r, end);
    }
  }

  lemma {:induction false} OperandsHoldNoDirective(ts: seq<Token>, pos: nat, e: Cond, end: nat)
    requires pos <= end <= |ts| && Operand(ts, pos, e, end)
    ensures NoDirective(ts, pos, end)
    decreases e, end - pos, 0, 0
  {
    if e.Not? && At(ts, pos, Bang) && Reads(ts, pos + 1, 2, e.c, end) {
      ConditionsHoldNoDirective(ts, pos + 1, 2, e.c, end);
    } else if pos + 2 <= end && At(ts, pos, LParen) && Reads(ts, pos + 1, 0, e, end - 1) {
      ConditionsHoldNoDirective(ts, pos + 1, 0, e, end - 1);
    }
  }

  /** The condition of a branch opens and closes nothing, if nothing is reported. */
  lemma SilentCondition(ts: seq<Token>, c: Config, pos: nat)
    requires OpensBranch(ts, pos) && Condition(ts, c, pos).diags == 0
    ensures Open(ts, pos + 1, Condition(ts, c, pos).pos) == 0
  {
    if ts[pos].kind != HashElse {
      var e := SilentOr(ts, c, pos + 1);
      ConditionsHoldNoDirective(ts, pos + 1, 0, e, Condition(ts, c, pos).pos);
      NoGates(ts, pos + 1, Condition(ts, c, pos).pos);
    }
  }

  /** A search that ends at a directive has closed as many gates as were open. */
  lemma {:induction false} SkippedIsBalanced(ts: seq<Token>, pos: nat, nested: nat)
    requires pos <= |ts|
    ensures var end := FindEnd(ts, pos, nested);
            end < |ts| && ts[end].kind != Eof ==>
              ts[end].kind in {HashElif, HashElse, HashEndif} && Open(ts, pos, end) + nested == 0
    decreases |ts| - pos
  {
    if pos < |ts| && ts[pos].kind != Eof && !(IsDirective(ts[pos].kind) && ts[pos].kind != HashIf && nested == 0) {
      var inner := if ts[pos].kind == HashIf then nested + 1
                   else if ts[pos].kind == HashEndif then nested - 1 else nested;
      SkippedIsBalanced(ts, pos + 1, inner);
      OpenOne(ts, pos);
      OpenJoins(ts, pos, pos + 1, FindEnd(ts, pos, nested));
    }
  }

  lemma {:induction false} BranchStops(ts: seq<Token>, c: Config, pos: nat, d: Depths)
    requires pos <= |ts|
    ensures var end := Range(ts, c, pos, d, AtBranchEnd).pos;
            end < |ts| && ts[end].kind != Eof ==> ts[end].kind in {HashElif, HashElse, HashEndif}
    decreases |ts| - pos
  {
    if pos < |ts| && !(d == ZERO && StopsAt(AtBranchEnd, ts[pos].kind)) {
      if ts[pos].kind == HashIf && d == ZERO {
        BranchStops(ts, c, Gate(ts, c, pos, false).pos, d);
      } else if ts[pos].kind != Eof {
        BranchStops(ts, c, pos + 1, NextDepths(d, ts[pos].kind));
      }
    }
  }

  lemma {:induction false} SilentRangeIsBalanced(ts: seq<Token>, c: Config, pos: nat, d: Depths, stops: Stops)
    requires pos <= |ts| && Range(ts, c, pos, d, stops).diags == 0
    ensures Open(ts, pos, Range(ts, c, pos, d, stops).pos) == 0
    decreases |ts| - pos, 2
  {
    var end := Range(ts, c, pos, d, stops).pos;
    if pos < |ts| && !(d == ZERO && StopsAt(stops, ts[pos].kind)) {
      if ts[pos].kind == HashIf && d == ZERO {
        var gate := Gate(ts, c, pos, false);
        SilentGateIsBalanced(ts, c, pos, false);
        SilentRangeIsBalanced(ts, c, gate.pos, d, stops);
        OpenJoins(ts, pos, gate.pos, end);
      } else if ts[pos].kind != Eof {
        SilentRangeIsBalanced(ts, c, pos + 1, NextDepths(d, ts[pos].kind), stops);
        OpenOne(ts, pos);
        OpenJoins(ts, pos, pos + 1, end);
      }
    }
  }

  /** What a branch passes over, behind its condition. */
  function BranchEnd(ts: seq<Token>, c: Config, pos: nat, selected: bool): (end: nat)
    requires OpensBranch(ts, pos)
    ensures pos < end <= |ts|
  {
    var cond := Condition(ts, c, pos);
    if !selected && cond.value then Range(ts, c, cond.pos, ZERO, AtBranchEnd).pos else FindEnd(ts, cond.pos, 0)
  }

  lemma {:induction false} SilentGateIsBalanced(ts: seq<Token>, c: Config, pos: nat, selected: bool)
    requires OpensBranch(ts, pos) && Gate(ts, c, pos, selected).diags == 0
    ensures Open(ts, pos, Gate(ts, c, pos, selected).pos) == if ts[pos].kind == HashIf then 0 else -1
    decreases |ts| - pos, 1
  {
    var cond := Condition(ts, c, pos);
    var end := BranchEnd(ts, c, pos, selected);
    SilentBranchIsBalanced(ts, c, pos, selected);
    if At(ts, end, HashElif) || At(ts, end, HashElse) {
      var active := !selected && cond.value;
      SilentGateIsBalanced(ts, c, end, selected || active);
      OpenJoins(ts, pos, end, Gate(ts, c, pos, selected).pos);
    } else {
      OpenOne(ts, end);
      OpenJoins(ts, pos, end, end + 1);
    }
  }

  lemma {:induction false} SilentBranchIsBalanced(ts: seq<Token>, c: Config, pos: nat, selected: bool)
    requires OpensBranch(ts, pos) && Gate(ts, c, pos, selected).diags == 0
    ensures var end := BranchEnd(ts, c, pos, selected);
            && end < |ts| && ts[end].kind in {HashElif, HashElse, HashEndif}
            && Open(ts, pos, end) == if ts[pos].kind == HashIf then 1 else 0
    decreases |ts| - pos, 0
  {
    var cond := Condition(ts, c, pos);
    var end := BranchEnd(ts, c, pos, selected);
    SilentCondition(ts, c, pos);
    OpenOne(ts, pos);
    OpenJoins(ts, pos, pos + 1, cond.pos);
    if !selected && cond.value {
      BranchStops(ts, c, cond.pos, ZERO);
      SilentRangeIsBalanced(ts, c, cond.pos, ZERO, AtBranchEnd);
    } else {
      SkippedIsBalanced(ts, cond.pos, 0);
    }
    OpenJoins(ts, pos, cond.pos, end);
  }

  /** If nothing is reported, as many gates are closed as are opened, in taken and in skipped branches. */
  lemma SilentIsBalanced(ts: seq<Token>, c: Config, end: nat)
    requires end < |ts| && ts[end].kind == Eof && NoEof(ts, 0, end) && Preprocess(ts, c).1 == 0
    ensures Open(ts, 0, end) == 0
  {
    var r := Range(ts, c, 0, ZERO, AtEof);
    SilentRangeIsBalanced(ts, c, 0, ZERO, AtEof);
    RangeNoEof(ts, c, 0, ZERO, AtEof);
    TopRangeStopsAtEof(ts, c, 0, ZERO);
  }

  // ---- What is reported on bad lists

  /** A list without end marker is reported, unless it is empty. */
  lemma MissingEndIsReported(ts: seq<Token>, c: Config)
    requires NoEof(ts, 0, |ts|)
    ensures Preprocess(ts, c).1 > 0 <==> ts != []
  {
  }

  /** The counters behind the tokens up to `end`, when they were `d` in front of them. */
  function DepthsAt(ts: seq<Token>, pos: nat, end: nat, d: Depths): Depths
    requires pos <= end <= |ts|
    decreases end - pos
  {
    if pos == end then d else DepthsAt(ts, pos + 1, end, NextDepths(d, ts[pos].kind))
  }

  lemma {:induction false} DepthsAtLast(ts: seq<Token>, pos: nat, end: nat, d: Depths)
    requires pos < end <= |ts|
    ensures DepthsAt(ts, pos, end, d) == NextDepths(DepthsAt(ts, pos, end - 1, d), ts[end - 1].kind)
    decreases end - pos
  {
    if pos < end - 1 {
      DepthsAtLast(ts, pos + 1, end, NextDepths(d, ts[pos].kind));
    }
  }

  /** They count what is open in these tokens. */
  lemma {:induction false} DepthsAreThoseOpen(ts: seq<Token>, pos: nat, end: nat)
    requires pos <= end <= |ts|
    ensures DepthsAt(ts, pos, end, ZERO) == DepthsAfter(ts[pos..end])
    decreases end - pos
  {
    if pos < end {
      DepthsAtLast(ts, pos, end, ZERO);
      DepthsAreThoseOpen(ts, pos, end - 1);
      assert ts[pos..end][..end - pos - 1] == ts[pos..end - 1];
    }
  }

  lemma {:induction false} DirectiveInBrackets(ts: seq<Token>, c: Config, pos: nat, end: nat, d: Depths, stops: Stops)
    requires pos <= end < |ts| && NoEof(ts, pos, end) && NoDirective(ts, pos, end) && IsDirective(ts[end].kind)
    requires DepthsAt(ts, pos, end, d) != ZERO
    ensures var r := Range(ts, c, pos, d, stops); ts[pos..end + 1] <= r.tokens && r.diags > 0
    decreases end - pos
  {
    if pos < end {
      DirectiveInBrackets(ts, c, pos + 1, end, NextDepths(d, ts[pos].kind), stops);
      assert ts[pos..end + 1] == [ts[pos]] + ts[pos + 1..end + 1];
    }
  }

  lemma {:induction false} DirectiveOutside(ts: seq<Token>, c: Config, pos: nat, end: nat, d: Depths)
    requires pos <= end < |ts| && NoEof(ts, pos, end) && NoDirective(ts, pos, end)
    requires DepthsAt(ts, pos, end, d) == ZERO && ts[end].kind in {HashElif, HashElse, HashEndif}
    ensures Range(ts, c, pos, d, AtBranchEnd) == Output(ts[pos..end], end, 0)
    decreases end - pos
  {
    if pos < end {
      DirectiveOutside(ts, c, pos + 1, end, NextDepths(d, ts[pos].kind));
      assert ts[pos..end] == [ts[pos]] + ts[pos + 1..end];
    }
  }

  /** The first directive of a range: inside brackets it is emitted and reported; outside, one that ends a
      branch is left for the gate, and nothing is reported. */
  lemma FirstDirective(ts: seq<Token>, c: Config, start: nat, end: nat, stops: Stops)
    requires start <= end < |ts| && NoEof(ts, start, end) && NoDirective(ts, start, end) && IsDirective(ts[end].kind)
    ensures var r, open := Range(ts, c, start, ZERO, stops), DepthsAfter(ts[start..end]);
            && (open != ZERO ==> ts[start..end + 1] <= r.tokens && r.diags > 0)
            && (open == ZERO && stops == AtBranchEnd && ts[end].kind != HashIf ==> r == Output(ts[start..end], end, 0))
  {
    DepthsAreThoseOpen(ts, start, end);
    if DepthsAt(ts, start, end, ZERO) != ZERO {
      DirectiveInBrackets(ts, c, start, end, ZERO, stops);
    } else if stops == AtBranchEnd && ts[end].kind != HashIf {
      DirectiveOutside(ts, c, start, end, ZERO);
    }
  }

  /** A condition that is no call, no negation and not in parentheses is false and reported where it stands. */
  lemma MissingConditionIsFalse(ts: seq<Token>, c: Config, pos: nat)
    requires pos <= |ts| && !(pos < |ts| && ts[pos].kind in {Bang, LParen, Ident, AmpAmp, PipePipe})
    ensures ParseOr(ts, c, pos) == Parsed(false, pos, 1)
  {
    assert ParseUnary(ts, c, pos) == Parsed(false, pos, 1);
    assert ParseAnd(ts, c, pos) == Parsed(false, pos, 1);
  }

  /** A name without a string behind it is false, and reported at least once. */
  lemma MissingTextIsFalse(ts: seq<Token>, c: Config, pos: nat)
    requires At(ts, pos, Ident) && !At(ts, pos + if At(ts, pos + 1, LParen) then 2 else 1, String)
    ensures var r := ParseUnary(ts, c, pos); !r.value && r.diags == if At(ts, pos + 1, LParen) then 1 else 2
  {
  }
}
