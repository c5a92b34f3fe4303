/** Gate conditions: printed syntax, truth values, and what the parser makes of them. */
module Conditions {
  import opened Wrappers
  import opened Preprocessor
  import opened TokenLists

  // ---- Conditions

  /** What a condition asks the configuration. An unknown function is asked with any string token. */
  datatype Test =
    | HasFeature(text: string)
    | IsTargetOs(text: string)
    | IsTargetArch(text: string)
    | UnknownFn(name: string, raw: string)

  datatype Cond = Call(test: Test) | Not(c: Cond) | And(l: Cond, r: Cond) | Or(l: Cond, r: Cond)

  /** Only the three configuration functions are used. */
  predicate Known(e: Cond) {
    match e
    case Call(test) => !test.UnknownFn?
    case Not(x) => Known(x)
    case And(l, r) => Known(l) && Known(r)
    case Or(l, r) => Known(l) && Known(r)
  }

  predicate Holds(c: Config, e: Cond)
    requires Known(e)
  {
    match e
    case Call(HasFeature(text)) => text in c.features
    case Call(IsTargetOs(text)) => text == c.os
    case Call(IsTargetArch(text)) => text == c.arch
    case Call(UnknownFn(_, _)) => false
    case Not(x) => !Holds(c, x)
    case And(l, r) => Holds(c, l) && Holds(c, r)
    case Or(l, r) => Holds(c, l) || Holds(c, r)
  }

  // ---- Concrete syntax

  /** The name of a function and the string token behind it, with its quotes. */
  function Spelling(test: Test): (string, string) {
    match test
    case HasFeature(text) => ("has_feature", Quoted(text))
    case IsTargetOs(text) => ("is_target_os", Quoted(text))
    case IsTargetArch(text) => ("is_target_arch", Quoted(text))
    case UnknownFn(name, raw) => (name, raw)
  }

  function Quoted(text: string): string {
    ['"'] + text + ['"']
  }

  function Level(e: Cond): nat {
    match e
    case Or(_, _) => 0
    case And(_, _) => 1
    case _ => 2
  }

  function Tok(k: Kind): Token { Token(k, "") }

  /** The condition in concrete syntax, parenthesised only where the context binds tighter. */
  function Print(e: Cond, level: nat): seq<Token>
    decreases e, 1
  {
    if Level(e) < level then [Tok(LParen)] + Bare(e) + [Tok(RParen)] else Bare(e)
  }

  function Bare(e: Cond): seq<Token>
    decreases e, 0
  {
    match e
    case Call(test) => [Token(Ident, Spelling(test).0), Tok(LParen), Token(String, Spelling(test).1), Tok(RParen)]
    case Not(x) => [Tok(Bang)] + Print(x, 2)
    case And(l, r) => Print(l, 1) + [Tok(AmpAmp)] + Print(r, 2)
    case Or(l, r) => Print(l, 0) + [Tok(PipePipe)] + Print(r, 1)
  }

  // ---- Parsing a printed condition

  lemma OrStep(ts: seq<Token>, c: Config, acc: Parsed, right: Parsed)
    requires acc.pos < |ts| && At(ts, acc.pos, PipePipe) && ParseAnd(ts, c, acc.pos + 1) == right
    ensures OrTail(ts, c, acc) == OrTail(ts, c, Parsed(right.value || acc.value, right.pos, acc.diags + right.diags))
  {
  }

  lemma AndStep(ts: seq<Token>, c: Config, acc: Parsed, right: Parsed)
    requires acc.pos < |ts| && At(ts, acc.pos, AmpAmp) && ParseUnary(ts, c, acc.pos + 1) == right
    ensures AndTail(ts, c, acc) == AndTail(ts, c, Parsed(right.value && acc.value, right.pos, acc.diags + right.diags))
  {
  }

  lemma OperandsStand(ts: seq<Token>, pos: nat, l: seq<Token>, op: Token, r: seq<Token>)
    requires Stands(ts, pos, l + [op] + r)
    ensures Stands(ts, pos, l) && pos + |l| < |ts| && ts[pos + |l|] == op && Stands(ts, pos + |l| + 1, r)
  {
    StandsSplit(ts, pos, l + [op], r);
    StandsSplit(ts, pos, l, [op]);
    StandsOne(ts, pos + |l|, op);
  }

  ghost predicate UnaryReads(ts: seq<Token>, c: Config, pos: nat, e: Cond, size: nat)
    requires Known(e)
  {
    pos <= |ts| && ParseUnary(ts, c, pos) == Parsed(Holds(c, e), pos + size, 0)
  }

  /** After a conjunct the loop of `parse_and` carries on from its value. */
  ghost predicate AndReads(ts: seq<Token>, c: Config, pos: nat, e: Cond, size: nat)
    requires Known(e)
  {
    match Parsed(Holds(c, e), pos + size, 0)
    case Parsed(value, end, diags) =>
      end <= |ts| && ParseAnd(ts, c, pos) == AndTail(ts, c, Parsed(value, end, diags))
  }

  /** After a disjunct the loop of `parse_or` carries on from its value. */
  ghost predicate OrReads(ts: seq<Token>, c: Config, pos: nat, e: Cond, size: nat)
    requires Known(e)
  {
    match Parsed(Holds(c, e), pos + size, 0)
    case Parsed(value, end, diags) =>
      end <= |ts| && ParseOr(ts, c, pos) == OrTail(ts, c, Parsed(value, end, diags))
  }

  ghost predicate ConjunctionReads(ts: seq<Token>, c: Config, pos: nat, e: Cond, size: nat)
    requires Known(e)
  {
    pos <= |ts| && ParseAnd(ts, c, pos) == Parsed(Holds(c, e), pos + size, 0)
  }

  // The position of a lemma in the recursion: parenthesised conditions start over.
  function UnaryRank(e: Cond): nat { if Level(e) < 2 then 19 else 1 }

  function AndRank(e: Cond): nat { if e.Or? then 21 else 14 }

  lemma {:induction false} ParseUnaryPrinted(ts: seq<Token>, c: Config, pos: nat, e: Cond)
    requires Known(e) && Stands(ts, pos, Print(e, 2))
    ensures UnaryReads(ts, c, pos, e, |Print(e, 2)|)
    decreases e, UnaryRank(e)
  {
    if Level(e) < 2 {
      ParseParenthesised(ts, c, pos, e);
    } else if e.Not? {
      assert Print(e, 2) == [Tok(Bang)] + Print(e.c, 2);
      StandsSplit(ts, pos, [Tok(Bang)], Print(e.c, 2));
      StandsOne(ts, pos, Tok(Bang));
      ParseUnaryPrinted(ts, c, pos + 1, e.c);
    } else {
      ParseCall(ts, c, pos, e);
    }
  }

  lemma ParseCall(ts: seq<Token>, c: Config, pos: nat, e: Cond)
    requires e.Call? && Known(e) && Stands(ts, pos, Bare(e))
    ensures UnaryReads(ts, c, pos, e, 4)
  {
    CallStands(ts, pos, e);
    EvalIsTruth(c, e.test);
  }

  lemma CallStands(ts: seq<Token>, pos: nat, e: Cond)
    requires e.Call? && Stands(ts, pos, Bare(e))
    ensures At(ts, pos, Ident) && At(ts, pos + 1, LParen) && At(ts, pos + 2, String) && At(ts, pos + 3, RParen)
    ensures ts[pos].lexeme == Spelling(e.test).0 && ts[pos + 2].lexeme == Spelling(e.test).1
  {
    var x := Bare(e);
    assert ts[pos + 0] == x[0] && ts[pos + 1] == x[1] && ts[pos + 2] == x[2] && ts[pos + 3] == x[3];
  }

  /** The quotes are taken off, and a string without both quotes is left as it is. */
  lemma DecodeText(raw: string, text: string)
    ensures Decode(Quoted(text)) == text
    ensures (forall t :: raw != Quoted(t)) ==> Decode(raw) == raw
  {
    assert Quoted(text)[1..|Quoted(text)| - 1] == text;
    if |raw| >= 2 && raw[0] == '"' && raw[|raw| - 1] == '"' {
      assert raw == Quoted(raw[1..|raw| - 1]);
    }
  }

  /** The evaluator decides the three functions by the fields of the configuration, and no others. */
  lemma EvalIsTruth(c: Config, test: Test)
    ensures var (name, raw) := Spelling(test);
            && (!test.UnknownFn? ==> EvalCall(c, name, Decode(raw)) == Some(Holds(c, Call(test))))
            && (test.UnknownFn? && name !in {"has_feature", "is_target_os", "is_target_arch"} ==>
                  EvalCall(c, name, Decode(raw)) == None)
  {
    if !test.UnknownFn? {
      DecodeText("", test.text);
    }
  }

  /** A call of an unknown function is read to its end, is false, and is reported. */
  lemma UnknownCallIsReported(ts: seq<Token>, c: Config, pos: nat, e: Cond)
    requires e.Call? && e.test.UnknownFn? && Stands(ts, pos, Bare(e))
    requires e.test.name !in {"has_feature", "is_target_os", "is_target_arch"}
    ensures ParseUnary(ts, c, pos) == Parsed(false, pos + 4, 1)
  {
    CallStands(ts, pos, e);
    EvalIsTruth(c, e.test);
  }

  lemma {:induction false} ParseParenthesised(ts: seq<Token>, c: Config, pos: nat, e: Cond)
    requires Known(e) && Stands(ts, pos, [Tok(LParen)] + Bare(e) + [Tok(RParen)])
    ensures UnaryReads(ts, c, pos, e, |Bare(e)| + 2)
    decreases e, 18
  {
    StandsSplit(ts, pos, [Tok(LParen)] + Bare(e), [Tok(RParen)]);
    StandsSplit(ts, pos, [Tok(LParen)], Bare(e));
    StandsOne(ts, pos, Tok(LParen));
    StandsOne(ts, pos + 1 + |Bare(e)|, Tok(RParen));
    ParseOrPrinted(ts, c, pos + 1, e);
  }

  lemma {:induction false} ParseAndPrinted(ts: seq<Token>, c: Config, pos: nat, e: Cond)
    requires Known(e) && Stands(ts, pos, Print(e, 1))
    ensures AndReads(ts, c, pos, e, |Print(e, 1)|)
    decreases e, AndRank(e)
  {
    if e.And? {
      var l, r := |Print(e.l, 1)|, |Print(e.r, 2)|;
      ConjunctsStand(ts, pos, e);
      ParseAndPrinted(ts, c, pos, e.l);
      ParseUnaryPrinted(ts, c, pos + l + 1, e.r);
      AndReadsAnd(ts, c, pos, e, l, r);
    } else {
      assert Print(e, 1) == Print(e, 2);
      ParseUnaryPrinted(ts, c, pos, e);
      AndReadsUnary(ts, c, pos, e, |Print(e, 1)|);
    }
  }

  lemma ConjunctsStand(ts: seq<Token>, pos: nat, e: Cond)
    requires e.And? && Stands(ts, pos, Print(e, 1))
    ensures var l, r := Print(e.l, 1), Print(e.r, 2);
            && |Print(e, 1)| == |l| + 1 + |r|
            && Stands(ts, pos, l) && At(ts, pos + |l|, AmpAmp) && Stands(ts, pos + |l| + 1, r)
  {
    var l, r := Print(e.l, 1), Print(e.r, 2);
    assert Print(e, 1) == l + [Tok(AmpAmp)] + r;
    OperandsStand(ts, pos, l, Tok(AmpAmp), r);
  }

  lemma AndReadsUnary(ts: seq<Token>, c: Config, pos: nat, e: Cond, size: nat)
    requires Known(e) && UnaryReads(ts, c, pos, e, size) && pos + size <= |ts|
    ensures AndReads(ts, c, pos, e, size)
  {
  }

  lemma {:induction false} ParseOrTailPrinted(ts: seq<Token>, c: Config, pos: nat, e: Cond)
    requires Known(e) && Stands(ts, pos, Print(e, 0)) && !At(ts, pos + |Print(e, 0)|, AmpAmp)
    ensures OrReads(ts, c, pos, e, |Print(e, 0)|)
    decreases e, 16
  {
    if e.Or? {
      var l, r := |Print(e.l, 0)|, |Print(e.r, 1)|;
      DisjunctsStand(ts, pos, e);
      ParseOrTailPrinted(ts, c, pos, e.l);
      ParseConjunction(ts, c, pos + l + 1, e.r);
      OrReadsOr(ts, c, pos, e, l, r);
    } else {
      assert Print(e, 0) == Print(e, 1);
      ParseConjunction(ts, c, pos, e);
    }
  }

  lemma DisjunctsStand(ts: seq<Token>, pos: nat, e: Cond)
    requires e.Or? && Stands(ts, pos, Print(e, 0))
    ensures var l, r := Print(e.l, 0), Print(e.r, 1);
            && |Print(e, 0)| == |l| + 1 + |r|
            && Stands(ts, pos, l) && At(ts, pos + |l|, PipePipe) && Stands(ts, pos + |l| + 1, r)
  {
    var l, r := Print(e.l, 0), Print(e.r, 1);
    assert Print(e, 0) == l + [Tok(PipePipe)] + r;
    OperandsStand(ts, pos, l, Tok(PipePipe), r);
  }

  lemma OrReadsOr(ts: seq<Token>, c: Config, pos: nat, e: Cond, l: nat, r: nat)
    requires e.Or? && Known(e) && OrReads(ts, c, pos, e.l, l)
    requires At(ts, pos + l, PipePipe) && ConjunctionReads(ts, c, pos + l + 1, e.r, r)
    ensures OrReads(ts, c, pos, e, l + 1 + r)
  {
    OrStep(ts, c, Parsed(Holds(c, e.l), pos + l, 0), Parsed(Holds(c, e.r), pos + l + 1 + r, 0));
  }

  lemma AndReadsAnd(ts: seq<Token>, c: Config, pos: nat, e: Cond, l: nat, r: nat)
    requires e.And? && Known(e) && AndReads(ts, c, pos, e.l, l)
    requires At(ts, pos + l, AmpAmp) && UnaryReads(ts, c, pos + l + 1, e.r, r)
    ensures AndReads(ts, c, pos, e, l + 1 + r)
  {
    AndStep(ts, c, Parsed(Holds(c, e.l), pos + l, 0), Parsed(Holds(c, e.r), pos + l + 1 + r, 0));
  }

  lemma {:induction false} ParseConjunction(ts: seq<Token>, c: Config, pos: nat, e: Cond)
    requires Known(e) && Stands(ts, pos, Print(e, 1)) && !At(ts, pos + |Print(e, 1)|, AmpAmp)
    ensures ConjunctionReads(ts, c, pos, e, |Print(e, 1)|)
    decreases e, AndRank(e) + 1
  {
    ParseAndPrinted(ts, c, pos, e);
  }

  /** Parsing consumes exactly the printed condition, computes its truth value and reports nothing. */
  lemma {:induction false} ParseOrPrinted(ts: seq<Token>, c: Config, pos: nat, e: Cond)
    requires Known(e) && Stands(ts, pos, Bare(e))
    requires !At(ts, pos + |Bare(e)|, AmpAmp) && !At(ts, pos + |Bare(e)|, PipePipe)
    ensures ParseOr(ts, c, pos) == Parsed(Holds(c, e), pos + |Bare(e)|, 0)
    decreases e, 17
  {
    assert Print(e, 0) == Bare(e);
    ParseOrTailPrinted(ts, c, pos, e);
  }
}
