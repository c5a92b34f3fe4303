/** Printing with as few parentheses as the binding strengths allow, and parsing back. */
module ParserRoundTrip {
  import opened Wrappers
  import opened Parser
  import opened TokenLists
  import opened Grammar
  import opened ParserComplete
  import opened ParserSound
  import opened ParserExact

  // ---- Printing

  function Prec(e: Expr): (r: nat)
    ensures 1 <= r <= POSTFIX
  {
    match e
    case Binary(op, _, _) => Strength(op)
    case Unary(_, _) => UNARY
    case _ => POSTFIX
  }

  function Tok(k: Kind): Token { Token(k, "") }

  function LiteralToken(l: Literal): (t: Token)
    ensures LiteralOf(t) == Some(l)
  {
    match l
    case Integer(text) => Token(Int, text)
    case Real(text) => Token(Float, text)
    case Character(text) => Token(CharLit, text)
    case Text(text) => Token(String, text)
    case Boolean(value) => if value then Tok(True) else Tok(False)
    case NullPointer => Tok(Null)
  }

  /** The expression where something of at least strength `level` is expected. */
  function Print(e: Expr, level: nat): seq<Token>
    decreases e, 1
  {
    if Prec(e) < level then [Tok(LParen)] + Bare(e) + [Tok(RParen)] else Bare(e)
  }

  function Bare(e: Expr): seq<Token>
    decreases e, 0
  {
    match e
    case Name(path) => PrintPath(path)
    case Lit(literal) => [LiteralToken(literal)]
    case Unary(op, operand) => [Tok(UnaryKind(op))] + Print(operand, UNARY)
    case Binary(op, left, right) =>
      Print(left, Strength(op)) + [Tok(BinaryKind(op))] + Print(right, Strength(op) + 1)
    case Postfix(base, suffix) => Print(base, POSTFIX) + PrintSuffix(suffix)
  }

  function PrintSuffix(suffix: Suffix): (r: seq<Token>)
    ensures |r| > 0 && r[0].kind != ColonColon
    decreases suffix, 0
  {
    match suffix
    case Field(name) => [Tok(Dot), Token(Ident, name)]
    case Through(name) => [Tok(Arrow), Token(Ident, name)]
    case Index(index) => [Tok(LBracket)] + Print(index, 1) + [Tok(RBracket)]
    case Call(args) => [Tok(LParen)] + PrintArgs(args)
    case Try => [Tok(Question)]
  }

  function PrintPath(path: seq<string>): seq<Token> {
    if path == [] then [] else [Token(Ident, path[0])] + PrintSegments(path[1..])
  }

  function PrintSegments(path: seq<string>): seq<Token> {
    if path == [] then [] else [Tok(ColonColon), Token(Ident, path[0])] + PrintSegments(path[1..])
  }

  /** The arguments with separating commas and the closing parenthesis. */
  function PrintArgs(args: seq<Expr>): seq<Token>
    decreases args, 1
  {
    if args == [] then [Tok(RParen)]
    else Print(args[0], 1) + PrintMoreArgs(args[1..])
  }

  function PrintMoreArgs(args: seq<Expr>): (r: seq<Token>)
    decreases args, 2
  {
    if args == [] then [Tok(RParen)] else [Tok(Comma)] + PrintArgs(args)
  }

  // ---- Which printed expressions can be read

  /** Where the expression is printed from `pos` on, its names are read as names and end where they end, and the
      operator `<` is not used. */
  ghost predicate Clear(ts: seq<Token>, pos: nat, e: Expr, level: nat)
    decreases e, 1
  {
    ClearBare(ts, if Prec(e) < level then pos + 1 else pos, e)
  }

  ghost predicate ClearBare(ts: seq<Token>, pos: nat, e: Expr)
    decreases e, 0
  {
    match e
    case Name(path) => ClearPath(ts, pos, path)
    case Lit(_) => true
    case Unary(_, operand) => Clear(ts, pos + 1, operand, UNARY)
    case Binary(op, left, right) =>
      && op != Less
      && Clear(ts, pos, left, Strength(op))
      && Clear(ts, pos + |Print(left, Strength(op))| + 1, right, Strength(op) + 1)
    case Postfix(base, suffix) =>
      Clear(ts, pos, base, POSTFIX) && ClearSuffix(ts, pos + |Print(base, POSTFIX)|, suffix)
  }

  ghost predicate ClearPath(ts: seq<Token>, pos: nat, path: seq<string>) {
    path != [] && pos < |ts| && !StartsOther(ts, pos) && !At(ts, pos + |PrintPath(path)|, ColonColon)
  }

  ghost predicate ClearSuffix(ts: seq<Token>, pos: nat, suffix: Suffix)
    decreases suffix, 0
  {
    match suffix
    case Field(_) => !At(ts, pos + 2, ColonColon)
    case Through(_) => true
    case Index(index) => Clear(ts, pos + 1, index, 1)
    case Call(args) => ClearArgs(ts, pos + 1, args)
    case Try => true
  }

  ghost predicate ClearArgs(ts: seq<Token>, pos: nat, args: seq<Expr>)
    decreases args, 2
  {
    args == [] || (Clear(ts, pos, args[0], 1) && ClearArgs(ts, pos + |Print(args[0], 1)| + 1, args[1..]))
  }

  // ---- Where the parts of a printed expression stand

  lemma ParenthesesStand(ts: seq<Token>, pos: nat, x: seq<Token>, open: Kind, close: Kind)
    requires Stands(ts, pos, [Tok(open)] + x + [Tok(close)])
    ensures At(ts, pos, open) && Stands(ts, pos + 1, x) && At(ts, pos + 1 + |x|, close)
  {
    StandsSplit(ts, pos, [Tok(open)] + x, [Tok(close)]);
    StandsSplit(ts, pos, [Tok(open)], x);
    StandsOne(ts, pos, Tok(open));
    StandsOne(ts, pos + 1 + |x|, Tok(close));
  }

  lemma OperatorStands(ts: seq<Token>, pos: nat, left: seq<Token>, op: Kind, right: seq<Token>)
    requires Stands(ts, pos, left + [Tok(op)] + right)
    ensures Stands(ts, pos, left) && At(ts, pos + |left|, op) && Stands(ts, pos + |left| + 1, right)
  {
    StandsSplit(ts, pos, left + [Tok(op)], right);
    StandsSplit(ts, pos, left, [Tok(op)]);
    StandsOne(ts, pos + |left|, Tok(op));
  }

  lemma PrefixStands(ts: seq<Token>, pos: nat, op: Kind, x: seq<Token>)
    requires Stands(ts, pos, [Tok(op)] + x)
    ensures At(ts, pos, op) && Stands(ts, pos + 1, x)
  {
    StandsSplit(ts, pos, [Tok(op)], x);
    StandsOne(ts, pos, Tok(op));
  }

  lemma SuffixStands(ts: seq<Token>, pos: nat, base: seq<Token>, suffix: Suffix)
    requires Stands(ts, pos, base + PrintSuffix(suffix))
    ensures Stands(ts, pos, base) && Stands(ts, pos + |base|, PrintSuffix(suffix)) && !At(ts, pos + |base|, ColonColon)
  {
    StandsSplit(ts, pos, base, PrintSuffix(suffix));
    assert ts[pos + |base| + 0] == PrintSuffix(suffix)[0];
  }

  // ---- What is printed, the grammar derives

  lemma {:induction false} PrintDerives(ts: seq<Token>, pos: nat, e: Expr, level: nat)
    requires 1 <= level <= POSTFIX && Stands(ts, pos, Print(e, level)) && Clear(ts, pos, e, level)
    ensures Derives(ts, pos, level, e, pos + |Print(e, level)|)
    decreases e, 3
  {
    if Prec(e) < level {
      var end := pos + 1 + |Bare(e)|;
      ParenthesesStand(ts, pos, Bare(e), LParen, RParen);
      BareDerives(ts, pos + 1, e);
      ParenthesesDerive(ts, pos, e, end, level);
    } else {
      BareDerives(ts, pos, e);
      Climb(ts, pos, level, e, pos + |Bare(e)|, Prec(e));
    }
  }

  lemma ParenthesesDerive(ts: seq<Token>, pos: nat, e: Expr, end: nat, level: nat)
    requires pos < end < |ts| && At(ts, pos, LParen) && At(ts, end, RParen) && 1 <= level <= POSTFIX
    requires Derives(ts, pos + 1, Prec(e), e, end)
    ensures Derives(ts, pos, level, e, end + 1)
  {
    Climb(ts, pos + 1, 1, e, end, Prec(e));
    PrimaryDerives(ts, pos, e, end + 1);
    Climb(ts, pos, level, e, end + 1, POSTFIX);
  }

  lemma {:induction false} BareDerives(ts: seq<Token>, pos: nat, e: Expr)
    requires Stands(ts, pos, Bare(e)) && ClearBare(ts, pos, e)
    ensures Derives(ts, pos, Prec(e), e, pos + |Bare(e)|)
    decreases e, 2
  {
    if e.Binary? {
      BinaryDerives(ts, pos, e);
    } else if e.Unary? {
      PrefixStands(ts, pos, UnaryKind(e.uop), Print(e.operand, UNARY));
      PrintDerives(ts, pos + 1, e.operand, UNARY);
      PrefixDerives(ts, pos, e.uop, e.operand, pos + |Bare(e)|);
    } else if e.Postfix? {
      PostfixDerives(ts, pos, e);
    } else {
      LeafDerives(ts, pos, e);
    }
  }

  lemma {:induction false} BinaryDerives(ts: seq<Token>, pos: nat, e: Expr)
    requires e.Binary? && Stands(ts, pos, Bare(e)) && ClearBare(ts, pos, e)
    ensures Derives(ts, pos, Strength(e.bop), e, pos + |Bare(e)|)
    decreases e, 1
  {
    var level := Strength(e.bop);
    BinaryStands(ts, pos, e);
    PrintedOperandsDerive(ts, pos, e, level, pos + |Print(e.left, level)|, pos + |Bare(e)|);
  }

  lemma {:induction false} PrintedOperandsDerive(
    ts: seq<Token>, pos: nat, e: Expr, level: nat, middle: nat, end: nat)
    requires e.Binary? && e.bop != Less && level == Strength(e.bop) && At(ts, middle, BinaryKind(e.bop))
    requires Stands(ts, pos, Print(e.left, level)) && Clear(ts, pos, e.left, level)
    requires Stands(ts, middle + 1, Print(e.right, level + 1)) && Clear(ts, middle + 1, e.right, level + 1)
    requires middle == pos + |Print(e.left, level)| && end == middle + 1 + |Print(e.right, level + 1)|
    ensures end <= |ts| && Derives(ts, pos, level, e, end)
    decreases e, 0
  {
    OperandDerives(ts, pos, e.left, level, middle);
    OperandDerives(ts, middle + 1, e.right, level + 1, end);
    JoinOperands(ts, pos, e, middle, end);
  }

  lemma {:induction false} OperandDerives(ts: seq<Token>, pos: nat, e: Expr, level: nat, end: nat)
    requires 1 <= level <= POSTFIX && Stands(ts, pos, Print(e, level)) && Clear(ts, pos, e, level)
    requires end == pos + |Print(e, level)|
    ensures pos <= end <= |ts| && Derives(ts, pos, level, e, end)
    decreases e, 4
  {
    PrintDerives(ts, pos, e, level);
  }

  lemma BinaryStands(ts: seq<Token>, pos: nat, e: Expr)
    requires e.Binary? && Stands(ts, pos, Bare(e)) && ClearBare(ts, pos, e)
    ensures var level := Strength(e.bop);
            var middle := pos + |Print(e.left, level)|;
            && e.bop != Less && Stands(ts, pos, Print(e.left, level)) && Clear(ts, pos, e.left, level)
            && At(ts, middle, BinaryKind(e.bop)) && pos + |Bare(e)| == middle + 1 + |Print(e.right, level + 1)|
            && Stands(ts, middle + 1, Print(e.right, level + 1)) && Clear(ts, middle + 1, e.right, level + 1)
  {
    var level := Strength(e.bop);
    OperatorStands(ts, pos, Print(e.left, level), BinaryKind(e.bop), Print(e.right, level + 1));
  }

  lemma JoinOperands(ts: seq<Token>, pos: nat, e: Expr, middle: nat, end: nat)
    requires e.Binary? && e.bop != Less && pos <= middle < end <= |ts| && At(ts, middle, BinaryKind(e.bop))
    requires Derives(ts, pos, Strength(e.bop), e.left, middle)
    requires Derives(ts, middle + 1, Strength(e.bop) + 1, e.right, end)
    ensures Derives(ts, pos, Strength(e.bop), e, end)
  {
    OperandsDerive(ts, pos, Strength(e.bop), e, middle, end);
  }

  lemma {:induction false} PostfixDerives(ts: seq<Token>, pos: nat, e: Expr)
    requires e.Postfix? && Stands(ts, pos, Bare(e)) && ClearBare(ts, pos, e)
    ensures Derives(ts, pos, POSTFIX, e, pos + |Bare(e)|)
    decreases e, 0
  {
    var middle := pos + |Print(e.base, POSTFIX)|;
    SuffixStands(ts, pos, Print(e.base, POSTFIX), e.suffix);
    PrintDerives(ts, pos, e.base, POSTFIX);
    PrintSuffixDerives(ts, middle, e.suffix);
    SuffixedDerives(ts, pos, e.base, middle, e.suffix, pos + |Bare(e)|);
  }

  lemma LeafDerives(ts: seq<Token>, pos: nat, e: Expr)
    requires (e.Name? || e.Lit?) && Stands(ts, pos, Bare(e)) && ClearBare(ts, pos, e)
    ensures Derives(ts, pos, POSTFIX, e, pos + |Bare(e)|)
  {
    if e.Name? {
      PathStands(ts, pos, e.path);
    } else {
      StandsOne(ts, pos, LiteralToken(e.literal));
    }
    PrimaryDerives(ts, pos, e, pos + |Bare(e)|);
  }

  lemma PathStands(ts: seq<Token>, pos: nat, path: seq<string>)
    requires Stands(ts, pos, PrintPath(path)) && ClearPath(ts, pos, path)
    ensures PathDerives(ts, pos, path, pos + |PrintPath(path)|)
  {
    StandsSplit(ts, pos, [Token(Ident, path[0])], PrintSegments(path[1..]));
    StandsOne(ts, pos, Token(Ident, path[0]));
    SegmentsStand(ts, pos + 1, path[1..]);
  }

  lemma {:induction false} SegmentsStand(ts: seq<Token>, pos: nat, path: seq<string>)
    requires Stands(ts, pos, PrintSegments(path)) && !At(ts, pos + |PrintSegments(path)|, ColonColon)
    ensures SegmentsDerive(ts, pos, path, pos + |PrintSegments(path)|)
    decreases |path|
  {
    if path != [] {
      var first := [Tok(ColonColon), Token(Ident, path[0])];
      StandsSplit(ts, pos, first, PrintSegments(path[1..]));
      StandsTwo(ts, pos, Tok(ColonColon), Token(Ident, path[0]));
      SegmentsStand(ts, pos + 2, path[1..]);
    }
  }

  lemma {:induction false} PrintSuffixDerives(ts: seq<Token>, pos: nat, suffix: Suffix)
    requires Stands(ts, pos, PrintSuffix(suffix)) && ClearSuffix(ts, pos, suffix)
    ensures SuffixDerives(ts, pos, suffix, pos + |PrintSuffix(suffix)|)
    decreases suffix, 1
  {
    match suffix
    case Field(name) => StandsTwo(ts, pos, Tok(Dot), Token(Ident, name));
    case Through(name) => StandsTwo(ts, pos, Tok(Arrow), Token(Ident, name));
    case Index(index) => PrintIndexDerives(ts, pos, suffix);
    case Call(args) =>
      PrefixStands(ts, pos, LParen, PrintArgs(args));
      PrintArgsDerive(ts, pos + 1, args);
    case Try => StandsOne(ts, pos, Tok(Question));
  }

  lemma {:induction false} PrintIndexDerives(ts: seq<Token>, pos: nat, suffix: Suffix)
    requires suffix.Index? && Stands(ts, pos, PrintSuffix(suffix)) && ClearSuffix(ts, pos, suffix)
    ensures SuffixDerives(ts, pos, suffix, pos + |PrintSuffix(suffix)|)
    decreases suffix, 0
  {
    ParenthesesStand(ts, pos, Print(suffix.index, 1), LBracket, RBracket);
    PrintDerives(ts, pos + 1, suffix.index, 1);
  }

  lemma {:induction false} PrintArgsDerive(ts: seq<Token>, pos: nat, args: seq<Expr>)
    requires Stands(ts, pos, PrintArgs(args)) && ClearArgs(ts, pos, args)
    ensures ArgsDerive(ts, pos, args, pos + |PrintArgs(args)|)
    decreases args, 0
  {
    if args == [] {
      StandsOne(ts, pos, Tok(RParen));
    } else {
      PrintedArgsStand(ts, pos, args);
      PrintDerives(ts, pos, args[0], 1);
      PrintMoreArgsDerive(ts, pos, args, pos + |Print(args[0], 1)|);
    }
  }

  lemma {:induction false} PrintMoreArgsDerive(ts: seq<Token>, pos: nat, args: seq<Expr>, middle: nat)
    requires args != [] && pos <= middle && Stands(ts, middle, PrintMoreArgs(args[1..]))
    requires ClearArgs(ts, middle + 1, args[1..]) && Derives(ts, pos, 1, args[0], middle)
    ensures ArgsDerive(ts, pos, args, middle + |PrintMoreArgs(args[1..])|)
    decreases args[1..], 1
  {
    MoreArgsStand(ts, middle, args[1..]);
    if |args| > 1 {
      PrintArgsDerive(ts, middle + 1, args[1..]);
    }
    JoinArgs(ts, pos, args, middle, middle + |PrintMoreArgs(args[1..])|);
  }

  lemma JoinArgs(ts: seq<Token>, pos: nat, args: seq<Expr>, middle: nat, end: nat)
    requires args != [] && pos <= middle < end <= |ts| && Derives(ts, pos, 1, args[0], middle)
    requires if |args| == 1 then At(ts, middle, RParen) && end == middle + 1
             else At(ts, middle, Comma) && ArgsDerive(ts, middle + 1, args[1..], end)
    ensures ArgsDerive(ts, pos, args, end)
  {
    FirstToken(ts, pos, 1, args[0], middle);
    FirstArgDerives(ts, pos, args, args[0], middle, end);
  }

  lemma PrintedArgsStand(ts: seq<Token>, pos: nat, args: seq<Expr>)
    requires args != [] && Stands(ts, pos, PrintArgs(args))
    ensures var first, more := Print(args[0], 1), PrintMoreArgs(args[1..]);
            && Stands(ts, pos, first) && Stands(ts, pos + |first|, more) && |PrintArgs(args)| == |first| + |more|
  {
    var first, more := Print(args[0], 1), PrintMoreArgs(args[1..]);
    assert PrintArgs(args) == first + more;
    StandsSplit(ts, pos, first, more);
  }

  lemma MoreArgsStand(ts: seq<Token>, pos: nat, args: seq<Expr>)
    requires Stands(ts, pos, PrintMoreArgs(args))
    ensures if args == [] then At(ts, pos, RParen) && |PrintMoreArgs(args)| == 1
            else
              && At(ts, pos, Comma) && Stands(ts, pos + 1, PrintArgs(args))
              && |PrintMoreArgs(args)| == 1 + |PrintArgs(args)|
  {
    if args == [] {
      StandsOne(ts, pos, Tok(RParen));
    } else {
      PrefixStands(ts, pos, Comma, PrintArgs(args));
    }
  }

  // ---- No shorter list of tokens reads the same

  lemma {:induction false} PathIsShortest(ts: seq<Token>, pos: nat, path: seq<string>, end: nat)
    requires SegmentsDerive(ts, pos, path, end)
    ensures end == pos + |PrintSegments(path)| && !At(ts, end, ColonColon)
    decreases |path|
  {
    if path != [] {
      PathIsShortest(ts, pos + 2, path[1..], end);
    }
  }

  lemma PrintGrows(e: Expr, level: nat, high: nat)
    requires level <= high
    ensures |Bare(e)| <= |Print(e, level)| <= |Print(e, high)| <= |Bare(e)| + 2
  {
  }

  /** However an expression is written, with whatever parentheses and trailing commas: it takes at least as many
      tokens as its printed form, and what takes no more is clear. */
  lemma {:induction false} PrintIsShortest(ts: seq<Token>, pos: nat, level: nat, e: Expr, end: nat)
    requires pos <= end <= |ts| && 1 <= level <= POSTFIX && Derives(ts, pos, level, e, end)
    ensures |Print(e, level)| <= end - pos
    ensures end == pos + |Print(e, level)| ==> Clear(ts, pos, e, level)
    decreases end - pos, POSTFIX - level, 2
  {
    if level < POSTFIX && Derives(ts, pos, level + 1, e, end) {
      PrintIsShortest(ts, pos, level + 1, e, end);
      PrintGrows(e, level, level + 1);
    } else {
      ProductIsShortest(ts, pos, level, e, end);
    }
  }

  lemma {:induction false} ProductIsShortest(ts: seq<Token>, pos: nat, level: nat, e: Expr, end: nat)
    requires pos <= end <= |ts| && 1 <= level <= POSTFIX && Produces(ts, pos, level, e, end)
    ensures |Print(e, level)| <= end - pos
    ensures end == pos + |Print(e, level)| ==> Clear(ts, pos, e, level)
    decreases end - pos, POSTFIX - level, 1
  {
    if level == POSTFIX && Primary(ts, pos, e, end) {
      PrimaryIsShortest(ts, pos, e, end);
    } else if e.Binary? {
      var middle :| pos < middle < end && Operands(ts, pos, level, e, middle, end);
      OperandsAreShortest(ts, pos, level, e, middle, end);
    } else if e.Unary? {
      PrintIsShortest(ts, pos + 1, UNARY, e.operand, end);
    } else {
      var middle :| pos < middle < end && Suffixed(ts, pos, e, middle, end);
      SuffixedIsShortest(ts, pos, e, middle, end);
    }
  }

  lemma {:induction false} OperandsAreShortest(
    ts: seq<Token>, pos: nat, level: nat, e: Expr, middle: nat, end: nat)
    requires e.Binary? && pos < middle < end <= |ts| && Strength(e.bop) == level && e.bop != Less
    requires Derives(ts, pos, level, e.left, middle) && Derives(ts, middle + 1, level + 1, e.right, end)
    ensures |Print(e, level)| <= end - pos
    ensures end == pos + |Print(e, level)| ==> Clear(ts, pos, e, level)
    decreases end - pos, POSTFIX - level, 0
  {
    PrintIsShortest(ts, pos, level, e.left, middle);
    PrintIsShortest(ts, middle + 1, level + 1, e.right, end);
    JoinShortest(ts, pos, e, middle, end);
  }

  lemma JoinShortest(ts: seq<Token>, pos: nat, e: Expr, middle: nat, end: nat)
    requires e.Binary? && pos < middle < end && e.bop != Less
    requires var l := |Print(e.left, Strength(e.bop))|;
             l <= middle - pos && (middle == pos + l ==> Clear(ts, pos, e.left, Strength(e.bop)))
    requires var r := |Print(e.right, Strength(e.bop) + 1)|;
             r <= end - middle - 1 && (end == middle + 1 + r ==> Clear(ts, middle + 1, e.right, Strength(e.bop) + 1))
    ensures |Print(e, Strength(e.bop))| <= end - pos
    ensures end == pos + |Print(e, Strength(e.bop))| ==> Clear(ts, pos, e, Strength(e.bop))
  {
    BinaryLength(e);
    if end == pos + |Print(e, Strength(e.bop))| {
      BinaryIsClear(ts, pos, e);
    }
  }

  lemma BinaryLength(e: Expr)
    requires e.Binary?
    ensures var level := Strength(e.bop);
            |Print(e, level)| == |Print(e.left, level)| + 1 + |Print(e.right, level + 1)|
  {
  }

  lemma BinaryIsClear(ts: seq<Token>, pos: nat, e: Expr)
    requires e.Binary? && e.bop != Less && Clear(ts, pos, e.left, Strength(e.bop))
    requires Clear(ts, pos + |Print(e.left, Strength(e.bop))| + 1, e.right, Strength(e.bop) + 1)
    ensures ClearBare(ts, pos, e) && Clear(ts, pos, e, Strength(e.bop))
  {
  }

  lemma {:induction false} SuffixedIsShortest(ts: seq<Token>, pos: nat, e: Expr, middle: nat, end: nat)
    requires e.Postfix? && pos < middle < end <= |ts| && Suffixed(ts, pos, e, middle, end)
    ensures |Print(e, POSTFIX)| <= end - pos
    ensures end == pos + |Print(e, POSTFIX)| ==> Clear(ts, pos, e, POSTFIX)
    decreases end - pos, 0, 0
  {
    PrintIsShortest(ts, pos, POSTFIX, e.base, middle);
    SuffixIsShortest(ts, middle, e.suffix, end);
  }

  lemma {:induction false} PrimaryIsShortest(ts: seq<Token>, pos: nat, e: Expr, end: nat)
    requires pos <= end <= |ts| && Primary(ts, pos, e, end)
    ensures |Print(e, POSTFIX)| <= end - pos
    ensures end == pos + |Print(e, POSTFIX)| ==> Clear(ts, pos, e, POSTFIX)
    decreases end - pos, 0, 0
  {
    if e.Name? && PathDerives(ts, pos, e.path, end) {
      PathIsShortest(ts, pos + 1, e.path[1..], end);
    } else if !(e.Lit? && end == pos + 1) {
      PrintIsShortest(ts, pos + 1, 1, e, end - 1);
      ParenthesesAreShortest(ts, pos, e, end);
    }
  }

  lemma ParenthesesAreShortest(ts: seq<Token>, pos: nat, e: Expr, end: nat)
    requires pos + 2 <= end && |Print(e, 1)| <= end - pos - 2
    requires end - 1 == pos + 1 + |Print(e, 1)| ==> Clear(ts, pos + 1, e, 1)
    ensures |Print(e, POSTFIX)| <= end - pos
    ensures end == pos + |Print(e, POSTFIX)| ==> Clear(ts, pos, e, POSTFIX)
  {
    PrintGrows(e, 1, POSTFIX);
  }

  lemma {:induction false} SuffixIsShortest(ts: seq<Token>, pos: nat, suffix: Suffix, end: nat)
    requires pos <= end <= |ts| && SuffixDerives(ts, pos, suffix, end)
    ensures |PrintSuffix(suffix)| <= end - pos
    ensures end == pos + |PrintSuffix(suffix)| ==> ClearSuffix(ts, pos, suffix)
    decreases end - pos, 0, 0
  {
    if suffix.Index? {
      PrintIsShortest(ts, pos + 1, 1, suffix.index, end - 1);
    } else if suffix.Call? {
      ArgsAreShortest(ts, pos + 1, suffix.args, end);
    }
  }

  lemma {:induction false} ArgsAreShortest(ts: seq<Token>, pos: nat, args: seq<Expr>, end: nat)
    requires pos <= end <= |ts| && ArgsDerive(ts, pos, args, end)
    ensures |PrintArgs(args)| <= end - pos
    ensures end == pos + |PrintArgs(args)| ==> ClearArgs(ts, pos, args)
    decreases end - pos, 0, 1
  {
    if args != [] {
      var middle :| pos < middle < end && FirstArg(ts, pos, args, middle, end);
      FirstArgIsShortest(ts, pos, args, middle, end);
    }
  }

  lemma {:induction false} FirstArgIsShortest(ts: seq<Token>, pos: nat, args: seq<Expr>, middle: nat, end: nat)
    requires args != [] && pos < middle < end <= |ts| && FirstArg(ts, pos, args, middle, end)
    ensures |PrintArgs(args)| <= end - pos
    ensures end == pos + |PrintArgs(args)| ==> ClearArgs(ts, pos, args)
    decreases end - pos, 0, 0
  {
    PrintIsShortest(ts, pos, 1, args[0], middle);
    if At(ts, middle, Comma) {
      ArgsAreShortest(ts, middle + 1, args[1..], end);
      CommaIsShortest(ts, pos, args, middle, end);
    } else {
      CloserIsShortest(ts, pos, args, middle);
    }
  }

  /** The first argument is written shortest, if no longer than printed. */
  ghost predicate FirstFits(ts: seq<Token>, pos: nat, e: Expr, middle: nat) {
    match e
    case _ =>
      pos + |Print(e, 1)| <= middle && (middle == pos + |Print(e, 1)| ==> Clear(ts, pos, e, 1))
  }

  lemma CommaIsShortest(ts: seq<Token>, pos: nat, args: seq<Expr>, middle: nat, end: nat)
    requires args != [] && FirstFits(ts, pos, args[0], middle) && middle + 1 + |PrintArgs(args[1..])| <= end
    requires end == middle + 1 + |PrintArgs(args[1..])| ==> ClearArgs(ts, middle + 1, args[1..])
    ensures |PrintArgs(args)| <= end - pos
    ensures end == pos + |PrintArgs(args)| ==> ClearArgs(ts, pos, args)
  {
    ArgsLength(args);
    ConsClear(ts, pos, args);
  }

  lemma CloserIsShortest(ts: seq<Token>, pos: nat, args: seq<Expr>, middle: nat)
    requires |args| == 1 && FirstFits(ts, pos, args[0], middle)
    ensures |PrintArgs(args)| <= middle + 1 - pos
    ensures middle + 1 == pos + |PrintArgs(args)| ==> ClearArgs(ts, pos, args)
  {
    ArgsLength(args);
    ConsClear(ts, pos, args);
  }

  lemma ConsClear(ts: seq<Token>, pos: nat, args: seq<Expr>)
    requires args != []
    ensures ClearArgs(ts, pos, args)
            <==> Clear(ts, pos, args[0], 1) && ClearArgs(ts, pos + |Print(args[0], 1)| + 1, args[1..])
    ensures |args| == 1 ==> (ClearArgs(ts, pos, args) <==> Clear(ts, pos, args[0], 1))
  {
  }

  lemma ArgsLength(args: seq<Expr>)
    requires args != []
    ensures |args| == 1 ==> args[1..] == [] && |PrintArgs(args)| == |Print(args[0], 1)| + 1
    ensures |args| > 1 ==> |PrintArgs(args)| == |Print(args[0], 1)| + 1 + |PrintArgs(args[1..])|
    ensures |PrintArgs([])| == 1
  {
  }

  // ---- The round trip

  /** Wherever an expression is printed, parsing gives it back and stops exactly behind it if and only if its names
      are read as names there and the next token does not continue it. */
  lemma RoundTrip(ts: seq<Token>, pos: nat, e: Expr)
    requires Stands(ts, pos, Print(e, 1))
    ensures var end := pos + |Print(e, 1)|;
            ParseExpr(ts, pos) == Ok(e, end) <==> Clear(ts, pos, e, 1) && Ends(ts, end, 0)
  {
    var end := pos + |Print(e, 1)|;
    ParserIsExact(ts, pos, 1, e, end);
    if Clear(ts, pos, e, 1) {
      PrintDerives(ts, pos, e, 1);
    }
    if Derives(ts, pos, 1, e, end) {
      PrintIsShortest(ts, pos, 1, e, end);
    }
  }

  lemma ReadsBack(ts: seq<Token>, e: Expr)
    requires ts == Print(e, 1)
    ensures ParseExpr(ts, 0) == Ok(e, |ts|) <==> Clear(ts, 0, e, 1)
  {
    WholeStands(ts);
    NothingFollows(ts);
    RoundTrip(ts, 0, e);
  }

  lemma WholeStands(ts: seq<Token>)
    ensures Stands(ts, 0, ts)
  {
  }

  lemma NothingFollows(ts: seq<Token>)
    ensures Ends(ts, |ts|, 0)
  {
  }

  /** Different expressions that can be read are printed differently. */
  lemma PrintIsInjective(e: Expr, f: Expr)
    requires Print(e, 1) == Print(f, 1)
    requires Clear(Print(e, 1), 0, e, 1) && Clear(Print(f, 1), 0, f, 1)
    ensures e == f
  {
    ReadsBack(Print(e, 1), e);
    ReadsBack(Print(f, 1), f);
  }

  // ---- Words that are not always names

  /** The name `async` is in the way of a closure only in front of a bar. */
  lemma AsyncBar(op: BinaryOp)
    requires op != Less
    ensures var e := Binary(op, Name(["async"]), Name(["x"]));
            ParseExpr(Print(e, 1), 0) == Ok(e, 3) <==> op != Or && op != BitOr
  {
    var ts := [Token(Ident, "async"), Tok(BinaryKind(op)), Token(Ident, "x")];
    AsyncStarts(op, ts);
    NamesRead(op, "async", "x", ts);
  }

  lemma NamesRead(op: BinaryOp, left: string, right: string, ts: seq<Token>)
    requires op != Less && ts == [Token(Ident, left), Tok(BinaryKind(op)), Token(Ident, right)]
    ensures var e := Binary(op, Name([left]), Name([right]));
            && Print(e, 1) == ts
            && (ParseExpr(ts, 0) == Ok(e, 3) <==> !StartsOther(ts, 0) && !StartsOther(ts, 2))
  {
    PrintNames(op, left, right);
    ReadsBack(ts, Binary(op, Name([left]), Name([right])));
    NamesAreClear(op, left, right, ts);
  }

  lemma PrintNames(op: BinaryOp, left: string, right: string)
    ensures Print(Binary(op, Name([left]), Name([right])), 1)
            == [Token(Ident, left), Tok(BinaryKind(op)), Token(Ident, right)]
  {
    PrintName(left, Strength(op));
    PrintName(right, Strength(op) + 1);
  }

  lemma NamesAreClear(op: BinaryOp, left: string, right: string, ts: seq<Token>)
    requires op != Less && ts == [Token(Ident, left), Tok(BinaryKind(op)), Token(Ident, right)]
    ensures Clear(ts, 0, Binary(op, Name([left]), Name([right])), 1) <==> !StartsOther(ts, 0) && !StartsOther(ts, 2)
  {
    PrintName(left, Strength(op));
    NameIsClear(ts, 0, left, Strength(op));
    NameIsClear(ts, 2, right, Strength(op) + 1);
  }

  lemma PrintName(x: string, level: nat)
    requires level <= POSTFIX
    ensures Print(Name([x]), level) == [Token(Ident, x)]
  {
    assert PrintSegments([x][1..]) == [];
  }

  lemma NameIsClear(ts: seq<Token>, pos: nat, x: string, level: nat)
    requires level <= POSTFIX && pos < |ts|
    ensures Clear(ts, pos, Name([x]), level) <==> !StartsOther(ts, pos) && !At(ts, pos + 1, ColonColon)
  {
    PrintName(x, level);
  }

  lemma AsyncStarts(op: BinaryOp, ts: seq<Token>)
    requires ts == [Token(Ident, "async"), Tok(BinaryKind(op)), Token(Ident, "x")]
    ensures StartsOther(ts, 0) <==> op == Or || op == BitOr
    ensures !StartsOther(ts, 2)
  {
    assert ts[0].lexeme[1] == 's' && "await"[1] == 'w';
    assert At(ts, 1, Pipe) || At(ts, 1, PipePipe) <==> op == Or || op == BitOr;
  }

  predicate IsContextual(name: string) {
    name == "await" || name == "async" || name == "select" || name == "biased"
  }

  /** Names have a first segment that is no contextual keyword, and the operator `<` is not used. */
  predicate Ordinary(e: Expr)
    decreases e
  {
    match e
    case Name(path) => path != [] && !IsContextual(path[0])
    case Lit(_) => true
    case Unary(_, operand) => Ordinary(operand)
    case Binary(op, left, right) => op != Less && Ordinary(left) && Ordinary(right)
    case Postfix(base, suffix) => Ordinary(base) && OrdinarySuffix(suffix)
  }

  predicate OrdinarySuffix(suffix: Suffix)
    decreases suffix
  {
    match suffix
    case Index(index) => Ordinary(index)
    case Call(args) => forall i :: 0 <= i < |args| ==> Ordinary(args[i])
    case _ => true
  }

  /** Without contextual keywords an expression is clear wherever it is printed and no `::` follows. */
  lemma {:induction false} OrdinaryIsClear(ts: seq<Token>, pos: nat, e: Expr, level: nat)
    requires Ordinary(e) && Stands(ts, pos, Print(e, level)) && !At(ts, pos + |Print(e, level)|, ColonColon)
    ensures Clear(ts, pos, e, level)
    decreases e, 2
  {
    if Prec(e) < level {
      ParenthesesStand(ts, pos, Bare(e), LParen, RParen);
      OrdinaryBareIsClear(ts, pos + 1, e);
    } else {
      OrdinaryBareIsClear(ts, pos, e);
    }
  }

  lemma {:induction false} OrdinaryBareIsClear(ts: seq<Token>, pos: nat, e: Expr)
    requires Ordinary(e) && Stands(ts, pos, Bare(e)) && !At(ts, pos + |Bare(e)|, ColonColon)
    ensures ClearBare(ts, pos, e)
    decreases e, 1
  {
    match e
    case Name(path) => OrdinaryPathIsClear(ts, pos, path);
    case Lit(_) =>
    case Unary(op, operand) =>
      PrefixStands(ts, pos, UnaryKind(op), Print(operand, UNARY));
      OrdinaryIsClear(ts, pos + 1, operand, UNARY);
    case Binary(_, _, _) => OrdinaryBinaryIsClear(ts, pos, e);
    case Postfix(_, _) => OrdinaryPostfixIsClear(ts, pos, e);
  }

  lemma OrdinaryPathIsClear(ts: seq<Token>, pos: nat, path: seq<string>)
    requires path != [] && !IsContextual(path[0])
    requires Stands(ts, pos, PrintPath(path)) && !At(ts, pos + |PrintPath(path)|, ColonColon)
    ensures ClearPath(ts, pos, path)
  {
    StandsSplit(ts, pos, [Token(Ident, path[0])], PrintSegments(path[1..]));
    StandsOne(ts, pos, Token(Ident, path[0]));
  }

  lemma {:induction false} OrdinaryPostfixIsClear(ts: seq<Token>, pos: nat, e: Expr)
    requires e.Postfix? && Ordinary(e) && Stands(ts, pos, Bare(e)) && !At(ts, pos + |Bare(e)|, ColonColon)
    ensures ClearBare(ts, pos, e)
    decreases e, 0
  {
    var base := Print(e.base, POSTFIX);
    SuffixStands(ts, pos, base, e.suffix);
    OrdinaryIsClear(ts, pos, e.base, POSTFIX);
    OrdinarySuffixIsClear(ts, pos + |base|, e.suffix);
    PostfixIsClear(ts, pos, e);
  }

  lemma PostfixIsClear(ts: seq<Token>, pos: nat, e: Expr)
    requires e.Postfix? && Clear(ts, pos, e.base, POSTFIX)
    requires ClearSuffix(ts, pos + |Print(e.base, POSTFIX)|, e.suffix)
    ensures ClearBare(ts, pos, e)
  {
  }

  lemma {:induction false} OrdinaryBinaryIsClear(ts: seq<Token>, pos: nat, e: Expr)
    requires e.Binary? && Ordinary(e) && Stands(ts, pos, Bare(e)) && !At(ts, pos + |Bare(e)|, ColonColon)
    ensures ClearBare(ts, pos, e)
    decreases e, 0
  {
    var level := Strength(e.bop);
    var l, r := Print(e.left, level), Print(e.right, level + 1);
    OperatorStands(ts, pos, l, BinaryKind(e.bop), r);
    OrdinaryIsClear(ts, pos, e.left, level);
    OrdinaryIsClear(ts, pos + |l| + 1, e.right, level + 1);
    BinaryIsClear(ts, pos, e);
  }

  lemma {:induction false} OrdinarySuffixIsClear(ts: seq<Token>, pos: nat, suffix: Suffix)
    requires OrdinarySuffix(suffix) && Stands(ts, pos, PrintSuffix(suffix))
    requires !At(ts, pos + |PrintSuffix(suffix)|, ColonColon)
    ensures ClearSuffix(ts, pos, suffix)
    decreases suffix, 0
  {
    if suffix.Index? {
      ParenthesesStand(ts, pos, Print(suffix.index, 1), LBracket, RBracket);
      OrdinaryIsClear(ts, pos + 1, suffix.index, 1);
    } else if suffix.Call? {
      PrefixStands(ts, pos, LParen, PrintArgs(suffix.args));
      OrdinaryArgsAreClear(ts, pos + 1, suffix.args);
    }
  }

  lemma {:induction false} OrdinaryArgsAreClear(ts: seq<Token>, pos: nat, args: seq<Expr>)
    requires Stands(ts, pos, PrintArgs(args)) && forall i :: 0 <= i < |args| ==> Ordinary(args[i])
    ensures ClearArgs(ts, pos, args)
    decreases args, 2
  {
    if args != [] {
      var middle := pos + |Print(args[0], 1)|;
      PrintedArgsStand(ts, pos, args);
      MoreArgsStand(ts, middle, args[1..]);
      OrdinaryIsClear(ts, pos, args[0], 1);
      OrdinaryMoreArgsAreClear(ts, middle, args[1..]);
    }
  }

  lemma {:induction false} OrdinaryMoreArgsAreClear(ts: seq<Token>, pos: nat, args: seq<Expr>)
    requires args != [] ==> Stands(ts, pos + 1, PrintArgs(args))
    requires forall i :: 0 <= i < |args| ==> Ordinary(args[i])
    ensures ClearArgs(ts, pos + 1, args)
    decreases args, 3
  {
    if args != [] {
      OrdinaryArgsAreClear(ts, pos + 1, args);
    }
  }
}
