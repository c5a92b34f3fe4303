/** What preprocessing does to every token list, well formed or not. */
module PreprocessorFacts {
  import opened Preprocessor

  // ---- End markers are never passed over

  /** No end marker between two positions. */
  ghost predicate NoEof(ts: seq<Token>, from: nat, to: nat)
    requires to <= |ts|
  {
    forall i :: from <= i < to ==> ts[i].kind != Eof
  }

  lemma {:induction false} ParseOrNoEof(ts: seq<Token>, c: Config, pos: nat)
    requires pos <= |ts|
    ensures NoEof(ts, pos, ParseOr(ts, c, pos).pos)
    decreases |ts| - pos, 6
  {
    ParseAndNoEof(ts, c, pos);
    OrTailNoEof(ts, c, ParseAnd(ts, c, pos));
  }

  lemma {:induction false} OrTailNoEof(ts: seq<Token>, c: Config, acc: Parsed)
    requires acc.pos <= |ts|
    ensures NoEof(ts, acc.pos, OrTail(ts, c, acc).pos)
    decreases |ts| - acc.pos, 5
  {
    if At(ts, acc.pos, PipePipe) {
      ParseAndNoEof(ts, c, acc.pos + 1);
      var right := ParseAnd(ts, c, acc.pos + 1);
      OrTailNoEof(ts, c, Parsed(right.value || acc.value, right.pos, acc.diags + right.diags));
    }
  }

  lemma {:induction false} ParseAndNoEof(ts: seq<Token>, c: Config, pos: nat)
    requires pos <= |ts|
    ensures NoEof(ts, pos, ParseAnd(ts, c, pos).pos)
    decreases |ts| - pos, 4
  {
    ParseUnaryNoEof(ts, c, pos);
    AndTailNoEof(ts, c, ParseUnary(ts, c, pos));
  }

  lemma {:induction false} AndTailNoEof(ts: seq<Token>, c: Config, acc: Parsed)
    requires acc.pos <= |ts|
    ensures NoEof(ts, acc.pos, AndTail(ts, c, acc).pos)
    decreases |ts| - acc.pos, 3
  {
    if At(ts, acc.pos, AmpAmp) {
      ParseUnaryNoEof(ts, c, acc.pos + 1);
      var right := ParseUnary(ts, c, acc.pos + 1);
      AndTailNoEof(ts, c, Parsed(right.value && acc.value, right.pos, acc.diags + right.diags));
    }
  }

  lemma {:induction false} ParseUnaryNoEof(ts: seq<Token>, c: Config, pos: nat)
    requires pos <= |ts|
    ensures NoEof(ts, pos, ParseUnary(ts, c, pos).pos)
    decreases |ts| - pos, 2
  {
    if At(ts, pos, Bang) {
      ParseUnaryNoEof(ts, c, pos + 1);
    } else if At(ts, pos, LParen) {
      ParseOrNoEof(ts, c, pos + 1);
    }
  }

  lemma {:induction false} FindEndNoEof(ts: seq<Token>, pos: nat, nested: nat)
    requires pos <= |ts|
    ensures NoEof(ts, pos, FindEnd(ts, pos, nested))
    decreases |ts| - pos
  {
    if pos < |ts| && ts[pos].kind != Eof {
      if ts[pos].kind == HashIf {
        FindEndNoEof(ts, pos + 1, nested + 1);
      } else if !(IsDirective(ts[pos].kind) && nested == 0) {
        FindEndNoEof(ts, pos + 1, if ts[pos].kind == HashEndif then nested - 1 else nested);
      }
    }
  }

  lemma {:induction false} RangeNoEof(ts: seq<Token>, c: Config, pos: nat, d: Depths, stops: Stops)
    requires pos <= |ts|
    ensures NoEof(ts, pos, Range(ts, c, pos, d, stops).pos)
    decreases |ts| - pos, 2
  {
    if pos < |ts| && !(d == ZERO && StopsAt(stops, ts[pos].kind)) {
      if ts[pos].kind == HashIf && d == ZERO {
        GateNoEof(ts, c, pos, false);
        RangeNoEof(ts, c, Gate(ts, c, pos, false).pos, d, stops);
      } else if ts[pos].kind != Eof {
        RangeNoEof(ts, c, pos + 1, NextDepths(d, ts[pos].kind), stops);
      }
    }
  }

  lemma NoEofJoins(ts: seq<Token>, from: nat, middle: nat, to: nat)
    requires middle <= to <= |ts| && NoEof(ts, from, middle) && NoEof(ts, middle, to)
    ensures NoEof(ts, from, to)
  {
  }

  lemma {:induction false} GateNoEof(ts: seq<Token>, c: Config, pos: nat, selected: bool)
    requires OpensBranch(ts, pos)
    ensures NoEof(ts, pos, Gate(ts, c, pos, selected).pos)
    decreases |ts| - pos, 1
  {
    var cond := Condition(ts, c, pos);
    var active := !selected && cond.value;
    if ts[pos].kind != HashElse {
      ParseOrNoEof(ts, c, pos + 1);
    }
    assert NoEof(ts, pos, cond.pos);
    RangeNoEof(ts, c, cond.pos, ZERO, AtBranchEnd);
    FindEndNoEof(ts, cond.pos, 0);
    var end := if active then Range(ts, c, cond.pos, ZERO, AtBranchEnd).pos else FindEnd(ts, cond.pos, 0);
    NoEofJoins(ts, pos, cond.pos, end);
    if At(ts, end, HashElif) || At(ts, end, HashElse) {
      GateNoEof(ts, c, end, selected || active);
    }
  }

  // ---- Emitted tokens come from the input

  /** `x` is obtained from `y` by leaving tokens out. */
  ghost predicate IsSubsequence(x: seq<Token>, y: seq<Token>)
    decreases |y|
  {
    if x == [] then true
    else if y == [] then false
    else (x[0] == y[0] && IsSubsequence(x[1..], y[1..])) || IsSubsequence(x, y[1..])
  }

  lemma {:induction false} SkipFront(x: seq<Token>, skipped: seq<Token>, y: seq<Token>)
    requires IsSubsequence(x, y)
    ensures IsSubsequence(x, skipped + y)
    decreases |skipped|
  {
    if skipped == [] {
      assert skipped + y == y;
    } else {
      SkipFront(x, skipped[1..], y);
      assert (skipped + y)[1..] == skipped[1..] + y;
    }
  }

  lemma {:induction false} SubsequenceConcat(a: seq<Token>, b: seq<Token>, x: seq<Token>, y: seq<Token>)
    requires IsSubsequence(a, b) && IsSubsequence(x, y)
    ensures IsSubsequence(a + x, b + y)
    decreases |b|
  {
    if a == [] {
      assert a + x == x;
      SkipFront(x, b, y);
    } else {
      assert (b + y)[1..] == b[1..] + y && (a + x)[1..] == a[1..] + x;
      if a[0] == b[0] && IsSubsequence(a[1..], b[1..]) {
        SubsequenceConcat(a[1..], b[1..], x, y);
      } else {
        SubsequenceConcat(a, b[1..], x, y);
      }
    }
  }

  /** Emitted tokens come from the tokens passed over, without end markers; a directive among them has
      been reported. */
  ghost predicate Faithful(ts: seq<Token>, pos: nat, r: Output)
    requires pos <= r.pos <= |ts|
  {
    && IsSubsequence(r.tokens, ts[pos..r.pos])
    && forall i :: 0 <= i < |r.tokens| ==>
         r.tokens[i].kind != Eof && (IsDirective(r.tokens[i].kind) ==> r.diags > 0)
  }

  lemma FaithfulJoin(ts: seq<Token>, pos: nat, x: Output, y: Output)
    requires pos <= x.pos <= y.pos <= |ts|
    requires Faithful(ts, pos, x) && Faithful(ts, x.pos, y)
    ensures Faithful(ts, pos, Join(x, y))
  {
    SubsequenceConcat(x.tokens, ts[pos..x.pos], y.tokens, ts[x.pos..y.pos]);
    assert ts[pos..x.pos] + ts[x.pos..y.pos] == ts[pos..y.pos];
  }

  /** The same tokens, with more passed over and more reported, are still faithful. */
  lemma FaithfulWiden(ts: seq<Token>, pos: nat, from: nat, x: Output, y: Output)
    requires pos <= from <= x.pos <= y.pos <= |ts| && x.diags <= y.diags && x.tokens == y.tokens
    requires Faithful(ts, from, x)
    ensures Faithful(ts, pos, y)
  {
    SkipFront(x.tokens, ts[pos..from], ts[from..x.pos]);
    assert ts[pos..from] + ts[from..x.pos] == ts[pos..x.pos];
    SubsequenceConcat(x.tokens, ts[pos..x.pos], [], ts[x.pos..y.pos]);
    assert ts[pos..x.pos] + ts[x.pos..y.pos] == ts[pos..y.pos] && x.tokens + [] == x.tokens;
  }

  lemma {:induction false} RangeFaithful(ts: seq<Token>, c: Config, pos: nat, d: Depths, stops: Stops)
    requires pos <= |ts|
    ensures Faithful(ts, pos, Range(ts, c, pos, d, stops))
    decreases |ts| - pos, 2
  {
    if pos == |ts| || (d == ZERO && StopsAt(stops, ts[pos].kind)) {
    } else if ts[pos].kind == HashIf && d == ZERO {
      var gate := Gate(ts, c, pos, false);
      GateFaithful(ts, c, pos, false);
      RangeFaithful(ts, c, gate.pos, d, stops);
      FaithfulJoin(ts, pos, gate, Range(ts, c, gate.pos, d, stops));
    } else if ts[pos].kind != Eof {
      var here := Output([ts[pos]], pos + 1, if IsDirective(ts[pos].kind) then 1 else 0);
      assert ts[pos..pos + 1] == [ts[pos]];
      RangeFaithful(ts, c, pos + 1, NextDepths(d, ts[pos].kind), stops);
      FaithfulJoin(ts, pos, here, Range(ts, c, pos + 1, NextDepths(d, ts[pos].kind), stops));
    }
  }

  lemma {:induction false} GateFaithful(ts: seq<Token>, c: Config, pos: nat, selected: bool)
    requires OpensBranch(ts, pos)
    ensures Faithful(ts, pos, Gate(ts, c, pos, selected))
    decreases |ts| - pos, 1
  {
    var cond := Condition(ts, c, pos);
    var active := !selected && cond.value;
    var branch := if active then Range(ts, c, cond.pos, ZERO, AtBranchEnd) else Output([], FindEnd(ts, cond.pos, 0), 0);
    if active {
      RangeFaithful(ts, c, cond.pos, ZERO, AtBranchEnd);
    }
    var sofar := Output(branch.tokens, branch.pos, cond.diags + branch.diags);
    FaithfulWiden(ts, pos, cond.pos, branch, sofar);
    if At(ts, branch.pos, HashElif) || At(ts, branch.pos, HashElse) {
      GateFaithful(ts, c, branch.pos, selected || active);
      FaithfulJoin(ts, pos, sofar, Gate(ts, c, branch.pos, selected || active));
    } else {
      FaithfulWiden(ts, pos, cond.pos, branch, Gate(ts, c, pos, selected));
    }
  }

  // ---- The whole list

  ghost predicate Terminated(ts: seq<Token>) {
    ts != [] && ts[|ts| - 1].kind == Eof
  }

  lemma {:induction false} TopRangeStopsAtEof(ts: seq<Token>, c: Config, pos: nat, d: Depths)
    requires pos <= |ts|
    ensures var r := Range(ts, c, pos, d, AtEof); r.pos == |ts| || ts[r.pos].kind == Eof
    decreases |ts| - pos
  {
    if pos < |ts| && ts[pos].kind != Eof {
      if ts[pos].kind == HashIf && d == ZERO {
        TopRangeStopsAtEof(ts, c, Gate(ts, c, pos, false).pos, d);
      } else {
        TopRangeStopsAtEof(ts, c, pos + 1, NextDepths(d, ts[pos].kind));
      }
    }
  }

  /** On a list that ends in the end marker the closing check of the preprocessor never fires. */
  lemma ClosingCheckIsQuiet(ts: seq<Token>, c: Config)
    requires Terminated(ts)
    ensures Preprocess(ts, c).1 == Range(ts, c, 0, ZERO, AtEof).diags
  {
    TopRangeStopsAtEof(ts, c, 0, ZERO);
    RangeNoEof(ts, c, 0, ZERO, AtEof);
  }

  /** Preprocessing only leaves tokens out and keeps the end marker. */
  lemma OutputIsSubsequence(ts: seq<Token>, c: Config)
    requires Terminated(ts)
    ensures IsSubsequence(Preprocess(ts, c).0, ts)
    ensures Terminated(Preprocess(ts, c).0)
    ensures forall i :: 0 <= i < |Preprocess(ts, c).0| - 1 ==> Preprocess(ts, c).0[i].kind != Eof
  {
    var r := Range(ts, c, 0, ZERO, AtEof);
    var last := |ts| - 1;
    RangeFaithful(ts, c, 0, ZERO, AtEof);
    RangeNoEof(ts, c, 0, ZERO, AtEof);
    assert r.pos <= last;
    SkipFront([ts[last]], ts[r.pos..last], [ts[last]]);
    SubsequenceConcat(r.tokens, ts[0..r.pos], [ts[last]], ts[r.pos..last] + [ts[last]]);
    assert ts[0..r.pos] + (ts[r.pos..last] + [ts[last]]) == ts;
  }

  /** Tokens without directives pass through unchanged, whatever the depths. */
  lemma {:induction false} CleanRange(ts: seq<Token>, c: Config, pos: nat, d: Depths)
    requires Terminated(ts) && pos < |ts|
    requires forall i :: 0 <= i < |ts| - 1 ==> ts[i].kind != Eof && !IsDirective(ts[i].kind)
    ensures Range(ts, c, pos, d, AtEof) == Output(ts[pos..|ts| - 1], |ts| - 1, 0)
    decreases |ts| - pos
  {
    if pos < |ts| - 1 {
      CleanRange(ts, c, pos + 1, NextDepths(d, ts[pos].kind));
      assert ts[pos..|ts| - 1] == [ts[pos]] + ts[pos + 1..|ts| - 1];
    }
  }

  /** Without diagnostics the output holds no directive, and preprocessing it again changes nothing. */
  lemma CleanOutputIsStable(ts: seq<Token>, c: Config)
    requires Terminated(ts) && Preprocess(ts, c).1 == 0
    ensures forall i :: 0 <= i < |Preprocess(ts, c).0| ==> !IsDirective(Preprocess(ts, c).0[i].kind)
    ensures Preprocess(Preprocess(ts, c).0, c) == (Preprocess(ts, c).0, 0)
  {
    var out := Preprocess(ts, c).0;
    CleanOutput(ts, c);
    OutputIsSubsequence(ts, c);
    CleanRange(out, c, 0, ZERO);
    assert out[0..|out| - 1] + [out[|out| - 1]] == out;
  }

  lemma CleanOutput(ts: seq<Token>, c: Config)
    requires Terminated(ts) && Preprocess(ts, c).1 == 0
    ensures forall i :: 0 <= i < |Preprocess(ts, c).0| ==> !IsDirective(Preprocess(ts, c).0[i].kind)
  {
    RangeFaithful(ts, c, 0, ZERO, AtEof);
  }

  // ---- What the bracket counters count

  function DepthsAfter(x: seq<Token>): Depths {
    if x == [] then ZERO else NextDepths(DepthsAfter(x[..|x| - 1]), x[|x| - 1].kind)
  }

  function Weight(k: Kind, open: Kind, close: Kind): int {
    if k == open then 1 else if k == close then -1 else 0
  }

  /** Opening brackets minus closing ones. */
  function Net(x: seq<Token>, open: Kind, close: Kind): int {
    if x == [] then 0 else Net(x[..|x| - 1], open, close) + Weight(x[|x| - 1].kind, open, close)
  }

  /** The largest surplus of opening brackets at the end of the tokens. */
  ghost predicate IsSurplus(x: seq<Token>, open: Kind, close: Kind, n: nat) {
    && (exists k :: 0 <= k <= |x| && Net(x[k..], open, close) == n)
    && (forall k :: 0 <= k <= |x| ==> Net(x[k..], open, close) <= n)
  }

  lemma NetGrows(x: seq<Token>, t: Token, open: Kind, close: Kind, k: nat)
    requires k <= |x|
    ensures Net((x + [t])[k..], open, close) == Net(x[k..], open, close) + Weight(t.kind, open, close)
  {
    assert (x + [t])[k..] == x[k..] + [t];
    assert (x[k..] + [t])[..|x| - k] == x[k..];
  }

  lemma SurplusGrows(x: seq<Token>, t: Token, open: Kind, close: Kind, n: nat)
    requires IsSurplus(x, open, close, n)
    ensures var m := n + Weight(t.kind, open, close);
            IsSurplus(x + [t], open, close, if m < 0 then 0 else m)
  {
    var y := x + [t];
    forall k | 0 <= k <= |x|
      ensures Net(y[k..], open, close) == Net(x[k..], open, close) + Weight(t.kind, open, close)
    {
      NetGrows(x, t, open, close, k);
    }
    assert y[|y|..] == [];
    assert Net(y[|y|..], open, close) == 0;
    var k :| 0 <= k <= |x| && Net(x[k..], open, close) == n;
    assert Net(y[k..], open, close) == n + Weight(t.kind, open, close);
  }

  /** The number of brackets of one kind that are open. */
  ghost predicate Counts(x: seq<Token>, d: Depths) {
    && IsSurplus(x, LParen, RParen, d.paren)
    && IsSurplus(x, LBrace, RBrace, d.brace)
    && IsSurplus(x, LBracket, RBracket, d.bracket)
  }

  lemma NothingIsOpen(open: Kind, close: Kind)
    ensures IsSurplus([], open, close, 0)
  {
    var none: seq<Token> := [];
    assert none[0..] == none && Net(none[0..], open, close) == 0;
  }

  lemma CountsGrow(x: seq<Token>, t: Token, d: Depths)
    requires Counts(x, d)
    ensures Counts(x + [t], NextDepths(d, t.kind))
  {
    SurplusGrows(x, t, LParen, RParen, d.paren);
    SurplusGrows(x, t, LBrace, RBrace, d.brace);
    SurplusGrows(x, t, LBracket, RBracket, d.bracket);
  }

  /** Each counter is the number of brackets of its kind that are open. */
  lemma {:induction false} CountersCount(x: seq<Token>)
    ensures Counts(x, DepthsAfter(x))
    decreases |x|
  {
    if x == [] {
      NothingIsOpen(LParen, RParen);
      NothingIsOpen(LBrace, RBrace);
      NothingIsOpen(LBracket, RBracket);
    } else {
      var rest, t := x[..|x| - 1], x[|x| - 1];
      assert x == rest + [t];
      CountersCount(rest);
      CountsGrow(rest, t, DepthsAfter(rest));
    }
  }
}
