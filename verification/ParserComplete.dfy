/** What the grammar derives, the parser reads. */
module ParserComplete {
  import opened Wrappers
  import opened Parser
  import opened Grammar

  // ---- What the parser makes of the tokens from `pos` on: `e`, up to `end`

  ghost predicate Yields(ts: seq<Token>, pos: nat, level: nat, e: Expr, end: nat)
    requires pos <= |ts| && 1 <= level <= UNARY
  {
    match ParseBinary(ts, pos, level)
    case Ok(found, stop) => found == e && stop == end
    case Fail => false
  }

  ghost predicate UnaryYields(ts: seq<Token>, pos: nat, e: Expr, end: nat)
    requires pos <= |ts|
  {
    match ParseUnary(ts, pos)
    case Ok(found, stop) => found == e && stop == end
    case Fail => false
  }

  ghost predicate PrimaryYields(ts: seq<Token>, pos: nat, e: Expr, end: nat)
    requires pos <= |ts|
  {
    match ParsePrimary(ts, pos)
    case Ok(found, stop) => found == e && stop == end
    case Fail => false
  }

  ghost predicate SuffixYields(ts: seq<Token>, pos: nat, suffix: Suffix, end: nat)
    requires pos <= |ts|
  {
    match ParseSuffix(ts, pos)
    case Next(found, stop) => found == suffix && stop == end
    case _ => false
  }

  ghost predicate ArgsYield(ts: seq<Token>, pos: nat, sofar: seq<Expr>, all: seq<Expr>, end: nat)
    requires pos <= |ts|
  {
    match ParseArgs(ts, pos, sofar)
    case Parsed(found, stop) => found == all && stop == end
    case NoArgs => false
  }

  /** The loop of the rung carries on with `e` from `end`. */
  ghost predicate Continues(ts: seq<Token>, pos: nat, level: nat, e: Expr, end: nat)
    requires pos <= |ts| && end <= |ts| && 1 <= level < UNARY
  {
    match BinaryTail(ts, e, end, level)
    case Ok(found, stop) => ParseBinary(ts, pos, level) == Ok(found, stop)
    case Fail => ParseBinary(ts, pos, level).Fail?
  }

  /** The loop over postfix operators carries on with `e` from `end`. */
  ghost predicate PostfixContinues(ts: seq<Token>, pos: nat, e: Expr, end: nat)
    requires pos <= |ts| && end <= |ts|
  {
    match PostfixTail(ts, e, end)
    case Ok(found, stop) => ParsePostfix(ts, pos) == Ok(found, stop)
    case Fail => ParsePostfix(ts, pos).Fail?
  }

  // ---- Single steps of the parser

  lemma UnaryIsOperand(ts: seq<Token>, pos: nat, e: Expr, end: nat)
    requires pos <= |ts| && UnaryYields(ts, pos, e, end) && !At(ts, end, As)
    ensures Yields(ts, pos, UNARY, e, end)
  {
  }

  lemma LoopStops(ts: seq<Token>, pos: nat, level: nat, e: Expr, end: nat)
    requires pos <= |ts| && end <= |ts| && 1 <= level < UNARY
    requires Continues(ts, pos, level, e, end) && !HasOp(ts, end, level)
    ensures Yields(ts, pos, level, e, end)
  {
  }

  lemma LoopStarts(ts: seq<Token>, pos: nat, level: nat, e: Expr, end: nat)
    requires pos <= |ts| && end <= |ts| && 1 <= level < UNARY && Yields(ts, pos, level + 1, e, end)
    ensures Continues(ts, pos, level, e, end)
  {
  }

  lemma LoopSteps(ts: seq<Token>, pos: nat, level: nat, left: Expr, middle: nat, op: BinaryOp, right: Expr, end: nat)
    requires pos <= |ts| && middle < |ts| && end <= |ts| && 1 <= level < UNARY
    requires Continues(ts, pos, level, left, middle)
    requires HasOp(ts, middle, level) && BinaryOpOf(ts[middle].kind) == Some(op)
    requires Yields(ts, middle + 1, level + 1, right, end)
    ensures Continues(ts, pos, level, Binary(op, left, right), end)
  {
    assert BinaryTail(ts, left, middle, level) == BinaryTail(ts, Binary(op, left, right), end, level);
  }

  lemma PrefixSteps(ts: seq<Token>, pos: nat, op: UnaryOp, operand: Expr, end: nat)
    requires At(ts, pos, UnaryKind(op)) && UnaryYields(ts, pos + 1, operand, end)
    ensures UnaryYields(ts, pos, Unary(op, operand), end)
  {
  }

  lemma PostfixStops(ts: seq<Token>, pos: nat, e: Expr, end: nat)
    requires pos < |ts| && end <= |ts| && PostfixContinues(ts, pos, e, end) && EndsPostfix(ts, end)
    requires UnaryOpOf(ts[pos].kind).None?
    ensures UnaryYields(ts, pos, e, end)
  {
    assert ParseSuffix(ts, end) == Stop;
  }

  lemma PostfixStarts(ts: seq<Token>, pos: nat, e: Expr, end: nat)
    requires pos <= |ts| && end <= |ts| && PrimaryYields(ts, pos, e, end)
    ensures PostfixContinues(ts, pos, e, end)
  {
  }

  lemma PostfixSteps(ts: seq<Token>, pos: nat, base: Expr, middle: nat, suffix: Suffix, end: nat)
    requires pos <= |ts| && middle <= |ts| && end <= |ts|
    requires PostfixContinues(ts, pos, base, middle) && SuffixYields(ts, middle, suffix, end)
    ensures PostfixContinues(ts, pos, Postfix(base, suffix), end)
  {
  }

  lemma ParenthesesStep(ts: seq<Token>, pos: nat, e: Expr, end: nat)
    requires At(ts, pos, LParen) && Yields(ts, pos + 1, 1, e, end) && At(ts, end, RParen)
    ensures PrimaryYields(ts, pos, e, end + 1)
  {
    assert ParseExpr(ts, pos + 1) == Ok(e, end);
  }

  lemma IndexStep(ts: seq<Token>, pos: nat, index: Expr, end: nat)
    requires At(ts, pos, LBracket) && Yields(ts, pos + 1, 1, index, end) && At(ts, end, RBracket)
    ensures SuffixYields(ts, pos, Index(index), end + 1)
  {
    assert ParseExpr(ts, pos + 1) == Ok(index, end);
  }

  lemma CallStep(ts: seq<Token>, pos: nat, args: seq<Expr>, end: nat)
    requires At(ts, pos, LParen) && ArgsYield(ts, pos + 1, [], args, end)
    ensures SuffixYields(ts, pos, Call(args), end)
  {
  }

  lemma LastArgStep(ts: seq<Token>, pos: nat, sofar: seq<Expr>, arg: Expr, end: nat)
    requires pos <= |ts| && Yields(ts, pos, 1, arg, end) && !At(ts, pos, RParen) && At(ts, end, RParen)
    ensures ArgsYield(ts, pos, sofar, sofar + [arg], end + 1)
  {
    assert ParseExpr(ts, pos) == Ok(arg, end);
  }

  lemma ArgStep(ts: seq<Token>, pos: nat, sofar: seq<Expr>, arg: Expr, middle: nat, all: seq<Expr>, end: nat)
    requires pos <= |ts| && Yields(ts, pos, 1, arg, middle) && !At(ts, pos, RParen) && At(ts, middle, Comma)
    requires ArgsYield(ts, middle + 1, sofar + [arg], all, end)
    ensures ArgsYield(ts, pos, sofar, all, end)
  {
    assert ParseExpr(ts, pos) == Ok(arg, middle);
  }

  // ---- Completeness: what the grammar derives is parsed

  lemma {:induction false} ParsesOperand(ts: seq<Token>, pos: nat, level: nat, e: Expr, end: nat)
    requires pos <= end <= |ts| && 1 <= level <= UNARY && Derives(ts, pos, level, e, end) && Ends(ts, end, level - 1)
    ensures Yields(ts, pos, level, e, end)
    decreases end - pos, POSTFIX - level, 4
  {
    if level == UNARY {
      ParsesUnary(ts, pos, e, end);
      UnaryIsOperand(ts, pos, e, end);
    } else {
      EndsMore(ts, end, level - 1, level);
      ParsesChain(ts, pos, level, e, end);
      LoopStops(ts, pos, level, e, end);
    }
  }

  lemma {:induction false} ParsesChain(ts: seq<Token>, pos: nat, level: nat, e: Expr, end: nat)
    requires pos <= end <= |ts| && 1 <= level < UNARY && Derives(ts, pos, level, e, end) && Ends(ts, end, level)
    ensures Continues(ts, pos, level, e, end)
    decreases end - pos, POSTFIX - level, 3
  {
    if Derives(ts, pos, level + 1, e, end) {
      ParsesOperand(ts, pos, level + 1, e, end);
      LoopStarts(ts, pos, level, e, end);
    } else {
      assert Produces(ts, pos, level, e, end);
      var middle :| pos < middle < end && Operands(ts, pos, level, e, middle, end);
      ParsesOperands(ts, pos, e, middle, end);
    }
  }

  lemma {:induction false} ParsesOperands(ts: seq<Token>, pos: nat, e: Expr, middle: nat, end: nat)
    requires e.Binary? && e.bop != Less && pos < middle < end <= |ts|
    requires Operands(ts, pos, Strength(e.bop), e, middle, end) && Ends(ts, end, Strength(e.bop))
    ensures Continues(ts, pos, Strength(e.bop), e, end)
    decreases end - pos, POSTFIX - Strength(e.bop), 2
  {
    var level := Strength(e.bop);
    OperatorEnds(ts, middle, e.bop);
    ParsesChain(ts, pos, level, e.left, middle);
    ParsesOperand(ts, middle + 1, level + 1, e.right, end);
    LoopSteps(ts, pos, level, e.left, middle, e.bop, e.right, end);
  }

  lemma {:induction false} ParsesUnary(ts: seq<Token>, pos: nat, e: Expr, end: nat)
    requires pos <= end <= |ts| && Derives(ts, pos, UNARY, e, end) && EndsPostfix(ts, end)
    ensures UnaryYields(ts, pos, e, end)
    decreases end - pos, 1, 3
  {
    if Derives(ts, pos, POSTFIX, e, end) {
      FirstToken(ts, pos, POSTFIX, e, end);
      ParsesPostfix(ts, pos, e, end);
      PostfixStops(ts, pos, e, end);
    } else {
      ParsesUnary(ts, pos + 1, e.operand, end);
      PrefixSteps(ts, pos, e.uop, e.operand, end);
    }
  }

  lemma {:induction false} ParsesPostfix(ts: seq<Token>, pos: nat, e: Expr, end: nat)
    requires pos <= end <= |ts| && Derives(ts, pos, POSTFIX, e, end)
    ensures PostfixContinues(ts, pos, e, end)
    decreases end - pos, 0, 2
  {
    if Primary(ts, pos, e, end) {
      ParsesPrimary(ts, pos, e, end);
      PostfixStarts(ts, pos, e, end);
    } else {
      assert Produces(ts, pos, POSTFIX, e, end);
      var middle :| pos < middle < end && Suffixed(ts, pos, e, middle, end);
      ParsesPostfix(ts, pos, e.base, middle);
      ParsesSuffix(ts, middle, e.suffix, end);
      PostfixSteps(ts, pos, e.base, middle, e.suffix, end);
    }
  }

  lemma {:induction false} ParsesPrimary(ts: seq<Token>, pos: nat, e: Expr, end: nat)
    requires pos <= end <= |ts| && Primary(ts, pos, e, end)
    ensures PrimaryYields(ts, pos, e, end)
    decreases end - pos, 0, 1
  {
    if e.Name? && PathDerives(ts, pos, e.path, end) {
      ParsesName(ts, pos, e.path, end);
    } else if e.Lit? && end == pos + 1 && LiteralOf(ts[pos]) == Some(e.literal) {
    } else {
      CloserEnds(ts, end - 1);
      ParsesOperand(ts, pos + 1, 1, e, end - 1);
      ParenthesesStep(ts, pos, e, end - 1);
    }
  }

  lemma ParsesName(ts: seq<Token>, pos: nat, path: seq<string>, end: nat)
    requires PathDerives(ts, pos, path, end)
    ensures PrimaryYields(ts, pos, Name(path), end)
  {
    ParsesSegments(ts, pos + 1, [path[0]], path[1..], end);
    assert [path[0]] + path[1..] == path;
  }

  lemma {:induction false} ParsesSuffix(ts: seq<Token>, pos: nat, suffix: Suffix, end: nat)
    requires pos <= end <= |ts| && SuffixDerives(ts, pos, suffix, end)
    ensures SuffixYields(ts, pos, suffix, end)
    decreases end - pos, 0, 2
  {
    if suffix.Index? {
      ParsesIndex(ts, pos, suffix.index, end);
    } else if suffix.Call? {
      ParsesArgs(ts, pos + 1, [], suffix.args, end);
      assert [] + suffix.args == suffix.args;
      CallStep(ts, pos, suffix.args, end);
    }
  }

  lemma {:induction false} ParsesIndex(ts: seq<Token>, pos: nat, index: Expr, end: nat)
    requires pos + 2 <= end <= |ts| && At(ts, pos, LBracket) && At(ts, end - 1, RBracket)
    requires Derives(ts, pos + 1, 1, index, end - 1)
    ensures SuffixYields(ts, pos, Index(index), end)
    decreases end - pos, 0, 1
  {
    CloserEnds(ts, end - 1);
    ParsesOperand(ts, pos + 1, 1, index, end - 1);
    IndexStep(ts, pos, index, end - 1);
  }

  lemma {:induction false} ParsesArgs(ts: seq<Token>, pos: nat, sofar: seq<Expr>, args: seq<Expr>, end: nat)
    requires pos <= end <= |ts| && ArgsDerive(ts, pos, args, end)
    ensures ArgsYield(ts, pos, sofar, sofar + args, end)
    decreases end - pos, 0, 1
  {
    if args == [] {
      assert sofar + args == sofar;
    } else {
      var middle :| pos < middle < end && FirstArg(ts, pos, args, middle, end);
      ParsesFirstArg(ts, pos, sofar, args, middle, end);
    }
  }

  lemma {:induction false} ParsesFirstArg(
    ts: seq<Token>, pos: nat, sofar: seq<Expr>, args: seq<Expr>, middle: nat, end: nat)
    requires args != [] && pos < middle < end <= |ts| && FirstArg(ts, pos, args, middle, end)
    ensures ArgsYield(ts, pos, sofar, sofar + args, end)
    decreases end - pos, 0, 0
  {
    FirstToken(ts, pos, 1, args[0], middle);
    CloserEnds(ts, middle);
    ParsesOperand(ts, pos, 1, args[0], middle);
    if At(ts, middle, Comma) {
      ParsesArgs(ts, middle + 1, sofar + [args[0]], args[1..], end);
      assert sofar + [args[0]] + args[1..] == sofar + args;
      ArgStep(ts, pos, sofar, args[0], middle, sofar + args, end);
    } else {
      assert sofar + args == sofar + [args[0]];
      LastArgStep(ts, pos, sofar, args[0], middle);
    }
  }
}
