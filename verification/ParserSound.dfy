/** What the parser reads, the grammar derives. */
module ParserSound {
  import opened Wrappers
  import opened Parser
  import opened Grammar

  // ---- Soundness: what is parsed, the grammar derives

  /** What the parser finds at one rung is derived, and the token behind it does not continue it. */
  ghost predicate BinaryReads(ts: seq<Token>, pos: nat, level: nat)
    requires pos <= |ts| && 1 <= level <= UNARY
  {
    match ParseBinary(ts, pos, level)
    case Ok(e, end) => Reads(ts, pos, level, e, end)
    case Fail => true
  }

  lemma {:induction false} BinarySound(ts: seq<Token>, pos: nat, level: nat)
    requires pos <= |ts| && 1 <= level <= UNARY
    ensures BinaryReads(ts, pos, level)
    decreases |ts| - pos, 19 - level, 1
  {
    var r := ParseBinary(ts, pos, level);
    if level == UNARY {
      UnarySound(ts, pos);
    } else {
      var first := ParseBinary(ts, pos, level + 1);
      BinarySound(ts, pos, level + 1);
      if first.Ok? {
        BinaryTailSound(ts, pos, first.expr, first.pos, level);
      }
    }
  }

  /** What the loop over one rung finds from `pos` on is derived from `start` on. */
  ghost predicate TailReads(ts: seq<Token>, start: nat, left: Expr, pos: nat, level: nat)
    requires pos <= |ts| && 1 <= level < UNARY
  {
    match BinaryTail(ts, left, pos, level)
    case Ok(e, end) => Reads(ts, start, level, e, end)
    case Fail => true
  }

  lemma TailStops(ts: seq<Token>, start: nat, left: Expr, pos: nat, level: nat)
    requires start <= pos <= |ts| && 1 <= level < UNARY && !HasOp(ts, pos, level)
    requires Derives(ts, start, level, left, pos) && Ends(ts, pos, level)
    ensures TailReads(ts, start, left, pos, level)
  {
  }

  lemma {:induction false} BinaryTailSound(ts: seq<Token>, start: nat, left: Expr, pos: nat, level: nat)
    requires start <= pos <= |ts| && 1 <= level < UNARY
    requires Derives(ts, start, level, left, pos) && Ends(ts, pos, level)
    ensures TailReads(ts, start, left, pos, level)
    decreases |ts| - pos, 19 - level, 0
  {
    if !HasOp(ts, pos, level) {
      TailStops(ts, start, left, pos, level);
    } else {
      var right := ParseBinary(ts, pos + 1, level + 1);
      BinarySound(ts, pos + 1, level + 1);
      if right.Ok? {
        var op := BinaryOpOf(ts[pos].kind).value;
        TailSteps(ts, start, left, pos, level, op, right.expr, right.pos);
        BinaryTailSound(ts, start, Binary(op, left, right.expr), right.pos, level);
      }
    }
  }

  /** One turn of the loop: the longer expression is derived, and the loop goes on from there. */
  lemma TailSteps(
    ts: seq<Token>, start: nat, left: Expr, pos: nat, level: nat, op: BinaryOp, right: Expr, end: nat)
    requires start <= pos < |ts| && 1 <= level < UNARY && Derives(ts, start, level, left, pos) && Ends(ts, pos, level)
    requires HasOp(ts, pos, level) && BinaryOpOf(ts[pos].kind) == Some(op)
    requires BinaryReads(ts, pos + 1, level + 1) && ParseBinary(ts, pos + 1, level + 1) == Ok(right, end)
    ensures pos < end <= |ts| && Derives(ts, start, level, Binary(op, left, right), end) && Ends(ts, end, level)
    ensures TailReads(ts, start, Binary(op, left, right), end, level) ==> TailReads(ts, start, left, pos, level)
  {
    StepDerives(ts, start, level, left, pos, op, right, end);
    assert BinaryTail(ts, left, pos, level) == BinaryTail(ts, Binary(op, left, right), end, level);
  }

  lemma StepDerives(
    ts: seq<Token>, start: nat, level: nat, left: Expr, middle: nat, op: BinaryOp, right: Expr, end: nat)
    requires start <= middle < end <= |ts| && 1 <= level < UNARY
    requires HasOp(ts, middle, level) && BinaryOpOf(ts[middle].kind) == Some(op) && Ends(ts, middle, level)
    requires Derives(ts, start, level, left, middle) && Derives(ts, middle + 1, level + 1, right, end)
    ensures Derives(ts, start, level, Binary(op, left, right), end)
  {
    assert At(ts, middle, BinaryKind(op));
    OperandsDerive(ts, start, level, Binary(op, left, right), middle, end);
  }

  lemma OperandsDerive(ts: seq<Token>, start: nat, level: nat, e: Expr, middle: nat, end: nat)
    requires start <= middle < end <= |ts| && 1 <= level < UNARY
    requires e.Binary? && e.bop != Less && Strength(e.bop) == level && At(ts, middle, BinaryKind(e.bop))
    requires Derives(ts, start, level, e.left, middle) && Derives(ts, middle + 1, level + 1, e.right, end)
    ensures Derives(ts, start, level, e, end)
  {
    FirstToken(ts, start, level, e.left, middle);
    FirstToken(ts, middle + 1, level + 1, e.right, end);
    assert Operands(ts, start, level, e, middle, end);
    assert Produces(ts, start, level, e, end);
  }

  lemma {:induction false} UnarySound(ts: seq<Token>, pos: nat)
    requires pos <= |ts|
    ensures var r := ParseUnary(ts, pos);
            r.Ok? ==> Derives(ts, pos, UNARY, r.expr, r.pos) && EndsPostfix(ts, r.pos)
    decreases |ts| - pos, 7, 0
  {
    if pos < |ts| {
      if UnaryOpOf(ts[pos].kind).Some? {
        UnarySound(ts, pos + 1);
        var operand := ParseUnary(ts, pos + 1);
        if operand.Ok? {
          PrefixDerives(ts, pos, UnaryOpOf(ts[pos].kind).value, operand.expr, operand.pos);
        }
      } else {
        PostfixSound(ts, pos);
      }
    }
  }

  lemma PrefixDerives(ts: seq<Token>, pos: nat, op: UnaryOp, operand: Expr, end: nat)
    requires pos < end <= |ts| && UnaryOpOf(ts[pos].kind) == Some(op) && Derives(ts, pos + 1, UNARY, operand, end)
    ensures Derives(ts, pos, UNARY, Unary(op, operand), end)
  {
    assert Produces(ts, pos, UNARY, Unary(op, operand), end);
  }

  lemma {:induction false} PostfixSound(ts: seq<Token>, pos: nat)
    requires pos <= |ts|
    ensures var r := ParsePostfix(ts, pos);
            r.Ok? ==> Derives(ts, pos, POSTFIX, r.expr, r.pos) && EndsPostfix(ts, r.pos)
    decreases |ts| - pos, 6, 0
  {
    PrimarySound(ts, pos);
    var primary := ParsePrimary(ts, pos);
    if primary.Ok? {
      PrimaryDerives(ts, pos, primary.expr, primary.pos);
      PostfixTailSound(ts, pos, primary.expr, primary.pos);
    }
  }

  lemma PrimaryDerives(ts: seq<Token>, pos: nat, e: Expr, end: nat)
    requires pos <= end <= |ts| && Primary(ts, pos, e, end)
    ensures Derives(ts, pos, POSTFIX, e, end)
  {
    assert Produces(ts, pos, POSTFIX, e, end);
  }

  lemma {:induction false} PostfixTailSound(ts: seq<Token>, start: nat, base: Expr, pos: nat)
    requires start < pos <= |ts| && Derives(ts, start, POSTFIX, base, pos)
    ensures var r := PostfixTail(ts, base, pos);
            r.Ok? ==> Derives(ts, start, POSTFIX, r.expr, r.pos) && EndsPostfix(ts, r.pos)
    decreases |ts| - pos, 5, 1
  {
    var step := ParseSuffix(ts, pos);
    if step.Next? {
      SuffixSound(ts, pos);
      SuffixedDerives(ts, start, base, pos, step.suffix, step.pos);
      PostfixTailSound(ts, start, Postfix(base, step.suffix), step.pos);
    } else if step.Stop? {
      StopEnds(ts, pos);
    }
  }

  lemma StopEnds(ts: seq<Token>, pos: nat)
    requires pos <= |ts| && ParseSuffix(ts, pos).Stop?
    ensures EndsPostfix(ts, pos)
  {
  }

  lemma SuffixedDerives(ts: seq<Token>, start: nat, base: Expr, middle: nat, suffix: Suffix, end: nat)
    requires start <= middle < end <= |ts|
    requires Derives(ts, start, POSTFIX, base, middle) && SuffixDerives(ts, middle, suffix, end)
    ensures Derives(ts, start, POSTFIX, Postfix(base, suffix), end)
  {
    FirstToken(ts, start, POSTFIX, base, middle);
    assert Suffixed(ts, start, Postfix(base, suffix), middle, end);
    assert Produces(ts, start, POSTFIX, Postfix(base, suffix), end);
  }

  lemma {:induction false} SuffixSound(ts: seq<Token>, pos: nat)
    requires pos <= |ts|
    ensures var r := ParseSuffix(ts, pos);
            r.Next? ==> SuffixDerives(ts, pos, r.suffix, r.pos)
    decreases |ts| - pos, 5, 0
  {
    if At(ts, pos, LParen) {
      ArgsSound(ts, pos + 1, []);
      CallDerives(ts, pos);
    } else if At(ts, pos, LBracket) {
      BinarySound(ts, pos + 1, 1);
      IndexDerives(ts, pos);
    } else {
      SelectionDerives(ts, pos);
    }
  }

  lemma CallDerives(ts: seq<Token>, pos: nat)
    requires At(ts, pos, LParen)
    requires var args := ParseArgs(ts, pos + 1, []);
             args.Parsed? ==> ArgsDerive(ts, pos + 1, args.args, args.pos)
    ensures var r := ParseSuffix(ts, pos);
            r.Next? ==> SuffixDerives(ts, pos, r.suffix, r.pos)
  {
  }

  lemma IndexDerives(ts: seq<Token>, pos: nat)
    requires At(ts, pos, LBracket)
    requires var index := ParseExpr(ts, pos + 1);
             index.Ok? ==> Derives(ts, pos + 1, 1, index.expr, index.pos)
    ensures var r := ParseSuffix(ts, pos);
            r.Next? ==> SuffixDerives(ts, pos, r.suffix, r.pos)
  {
  }

  lemma SelectionDerives(ts: seq<Token>, pos: nat)
    requires pos <= |ts| && !At(ts, pos, LParen) && !At(ts, pos, LBracket)
    ensures var r := ParseSuffix(ts, pos);
            r.Next? ==> SuffixDerives(ts, pos, r.suffix, r.pos)
  {
  }

  /** The arguments read from `pos` on are those behind the ones already read. */
  lemma {:induction false} ArgsSound(ts: seq<Token>, pos: nat, sofar: seq<Expr>)
    requires pos <= |ts|
    ensures var r := ParseArgs(ts, pos, sofar);
            r.Parsed? ==> sofar <= r.args && ArgsDerive(ts, pos, r.args[|sofar|..], r.pos)
    decreases |ts| - pos, 21, 0
  {
    var r := ParseArgs(ts, pos, sofar);
    if At(ts, pos, RParen) {
      assert sofar[|sofar|..] == [];
    } else if r.Parsed? {
      var arg := ParseExpr(ts, pos);
      BinarySound(ts, pos, 1);
      if At(ts, arg.pos, Comma) {
        ArgsSound(ts, arg.pos + 1, sofar + [arg.expr]);
      }
      FirstArgDerives(ts, pos, r.args[|sofar|..], arg.expr, arg.pos, r.pos);
    }
  }

  lemma FirstArgDerives(ts: seq<Token>, pos: nat, args: seq<Expr>, arg: Expr, middle: nat, end: nat)
    requires pos < middle < end <= |ts| && args != [] && args[0] == arg && Derives(ts, pos, 1, arg, middle)
    requires if At(ts, middle, Comma) then ArgsDerive(ts, middle + 1, args[1..], end)
             else |args| == 1 && At(ts, middle, RParen) && end == middle + 1
    ensures ArgsDerive(ts, pos, args, end)
  {
    assert FirstArg(ts, pos, args, middle, end);
  }

  lemma {:induction false} PrimarySound(ts: seq<Token>, pos: nat)
    requires pos <= |ts|
    ensures var r := ParsePrimary(ts, pos);
            r.Ok? ==> Primary(ts, pos, r.expr, r.pos)
    decreases |ts| - pos, 4, 0
  {
    if At(ts, pos, Ident) {
      NameSound(ts, pos);
    } else if At(ts, pos, LParen) {
      BinarySound(ts, pos + 1, 1);
    }
  }

  lemma NameSound(ts: seq<Token>, pos: nat)
    requires At(ts, pos, Ident)
    ensures var r := ParsePrimary(ts, pos);
            r.Ok? ==> Primary(ts, pos, r.expr, r.pos)
  {
    PathSound(ts, pos + 1, [ts[pos].lexeme]);
  }

  lemma {:induction false} PathSound(ts: seq<Token>, pos: nat, sofar: seq<string>)
    requires pos <= |ts|
    ensures var r := ParsePath(ts, pos, sofar);
            r.Ok? ==> r.expr.Name? && sofar <= r.expr.path && SegmentsDerive(ts, pos, r.expr.path[|sofar|..], r.pos)
    decreases |ts| - pos
  {
    var r := ParsePath(ts, pos, sofar);
    if At(ts, pos, ColonColon) && At(ts, pos + 1, Ident) {
      var more := sofar + [ts[pos + 1].lexeme];
      PathSound(ts, pos + 2, more);
      if r.Ok? {
        var rest := r.expr.path[|sofar|..];
        assert rest[0] == more[|sofar|] && rest[1..] == r.expr.path[|more|..];
      }
    }
  }
}
