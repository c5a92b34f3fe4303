/** The grammar of core expressions, as a relation on token lists. */
module Grammar {
  import opened Wrappers
  import opened Parser

  // ---- The grammar

  function UnaryKind(op: UnaryOp): (k: Kind)
    ensures UnaryOpOf(k) == Some(op)
  {
    match op
    case Not => Bang
    case Neg => Minus
    case BitNot => Tilde
    case Addr => Amp
    case Deref => Star
  }

  function BinaryKind(op: BinaryOp): (k: Kind)
    ensures BinaryOpOf(k) == Some(op) && k != ColonColon
  {
    match op
    case Or => PipePipe
    case And => AmpAmp
    case BitOr => Pipe
    case BitXor => Caret
    case BitAnd => Amp
    case Eq => EqEq
    case Ne => BangEq
    case Less => Lt
    case Le => LtEq
    case Greater => Gt
    case Ge => GtEq
    case Shl => LtLt
    case Shr => GtGt
    case Add => Plus
    case Sub => Minus
    case Mul => Star
    case Div => Slash
    case Rem => Percent
  }

  /** The tokens from `pos` up to `end` read as `e` where an expression of the given strength is expected:
      strengths 1 to 10 are the binary operators, then the unary ones, then the postfix ones. */
  ghost predicate Derives(ts: seq<Token>, pos: nat, level: nat, e: Expr, end: nat)
    requires pos <= end <= |ts| && 1 <= level <= POSTFIX
    decreases end - pos, POSTFIX - level, 2
  {
    || (level < POSTFIX && Derives(ts, pos, level + 1, e, end))
    || Produces(ts, pos, level, e, end)
  }

  /** The productions of one strength. Binary operators associate to the left. */
  ghost predicate Produces(ts: seq<Token>, pos: nat, level: nat, e: Expr, end: nat)
    requires pos <= end <= |ts| && 1 <= level <= POSTFIX
    decreases end - pos, POSTFIX - level, 1
  {
    match e
    case Binary(op, left, right) =>
      if Strength(op) == level && op != Less then
        exists middle :: pos < middle < end && Operands(ts, pos, level, e, middle, end)
      else level == POSTFIX && Primary(ts, pos, e, end)
    case Unary(op, operand) =>
      if level == UNARY then pos < end && At(ts, pos, UnaryKind(op)) && Derives(ts, pos + 1, UNARY, operand, end)
      else level == POSTFIX && Primary(ts, pos, e, end)
    case Postfix(base, suffix) =>
      && level == POSTFIX
      && (|| Primary(ts, pos, e, end)
          || exists middle :: pos < middle < end && Suffixed(ts, pos, e, middle, end))
    case _ => level == POSTFIX && Primary(ts, pos, e, end)
  }

  ghost predicate Operands(ts: seq<Token>, pos: nat, level: nat, e: Expr, middle: nat, end: nat)
    requires e.Binary? && pos < middle < end <= |ts| && 1 <= level < UNARY
    decreases end - pos, POSTFIX - level, 0
  {
    && Derives(ts, pos, level, e.left, middle)
    && At(ts, middle, BinaryKind(e.bop))
    && Derives(ts, middle + 1, level + 1, e.right, end)
  }

  ghost predicate Suffixed(ts: seq<Token>, pos: nat, e: Expr, middle: nat, end: nat)
    requires e.Postfix? && pos < middle < end <= |ts|
    decreases end - pos, 0, 0
  {
    Derives(ts, pos, POSTFIX, e.base, middle) && SuffixDerives(ts, middle, e.suffix, end)
  }

  /** A name, a literal, or any expression in parentheses. */
  ghost predicate Primary(ts: seq<Token>, pos: nat, e: Expr, end: nat)
    requires pos <= end <= |ts|
    decreases end - pos, 0, 0
  {
    || (e.Name? && PathDerives(ts, pos, e.path, end))
    || (e.Lit? && end == pos + 1 && LiteralOf(ts[pos]) == Some(e.literal))
    || (pos + 2 <= end && At(ts, pos, LParen) && Derives(ts, pos + 1, 1, e, end - 1) && At(ts, end - 1, RParen))
  }

  /** Identifiers separated by `::`, as many as there are. */
  ghost predicate PathDerives(ts: seq<Token>, pos: nat, path: seq<string>, end: nat) {
    && pos < |ts| && ts[pos].kind == Ident && !StartsOther(ts, pos)
    && path != [] && path[0] == ts[pos].lexeme
    && SegmentsDerive(ts, pos + 1, path[1..], end)
  }

  ghost predicate SegmentsDerive(ts: seq<Token>, pos: nat, path: seq<string>, end: nat)
    decreases |path|
  {
    if path == [] then pos == end && !At(ts, pos, ColonColon)
    else
      && At(ts, pos, ColonColon) && At(ts, pos + 1, Ident) && ts[pos + 1].lexeme == path[0]
      && SegmentsDerive(ts, pos + 2, path[1..], end)
  }

  ghost predicate SuffixDerives(ts: seq<Token>, pos: nat, suffix: Suffix, end: nat)
    requires pos <= end <= |ts|
    decreases end - pos, 0, 0
  {
    match suffix
    case Field(name) => DottedName(ts, pos, Dot, name, end) && !At(ts, end, ColonColon)
    case Through(name) => DottedName(ts, pos, Arrow, name, end)
    case Index(index) =>
      pos + 2 <= end && At(ts, pos, LBracket) && Derives(ts, pos + 1, 1, index, end - 1) && At(ts, end - 1, RBracket)
    case Call(args) => pos < end && At(ts, pos, LParen) && ArgsDerive(ts, pos + 1, args, end)
    case Try => At(ts, pos, Question) && end == pos + 1
  }

  ghost predicate DottedName(ts: seq<Token>, pos: nat, mark: Kind, name: string, end: nat) {
    At(ts, pos, mark) && At(ts, pos + 1, Ident) && ts[pos + 1].lexeme == name && end == pos + 2
  }

  /** Arguments separated by commas, with the closing parenthesis; a comma may precede it. */
  ghost predicate ArgsDerive(ts: seq<Token>, pos: nat, args: seq<Expr>, end: nat)
    requires pos <= end <= |ts|
    decreases end - pos, 0, 1
  {
    if args == [] then At(ts, pos, RParen) && end == pos + 1
    else exists middle :: pos < middle < end && FirstArg(ts, pos, args, middle, end)
  }

  ghost predicate FirstArg(ts: seq<Token>, pos: nat, args: seq<Expr>, middle: nat, end: nat)
    requires args != [] && pos < middle < end <= |ts|
    decreases end - pos, 0, 0
  {
    && Derives(ts, pos, 1, args[0], middle)
    && (|| (|args| == 1 && At(ts, middle, RParen) && end == middle + 1)
        || (At(ts, middle, Comma) && ArgsDerive(ts, middle + 1, args[1..], end)))
  }

  // ---- What may follow an expression

  function KindAt(ts: seq<Token>, pos: nat): Kind {
    if pos < |ts| then ts[pos].kind else Eof
  }

  /** The token does not continue a postfix expression. */
  predicate EndsPostfix(ts: seq<Token>, pos: nat) {
    match KindAt(ts, pos)
    case Lt => false
    case LParen => false
    case Dot => false
    case Arrow => false
    case LBracket => false
    case Question => false
    case _ => true
  }

  /** Nor a cast, nor a binary expression of strength above `level`. */
  predicate Ends(ts: seq<Token>, pos: nat, level: nat) {
    match KindAt(ts, pos)
    case As => false
    case _ => EndsPostfix(ts, pos) && StrengthAt(ts, pos) <= level
  }

  /** What a parse of the given strength says about the tokens: they derive the result, and cannot go on. */
  ghost predicate Reads(ts: seq<Token>, pos: nat, level: nat, e: Expr, end: nat)
    requires 1 <= level <= UNARY
  {
    pos <= end <= |ts| && Derives(ts, pos, level, e, end) && Ends(ts, end, level - 1)
  }

  lemma CloserEnds(ts: seq<Token>, pos: nat)
    requires At(ts, pos, RParen) || At(ts, pos, RBracket) || At(ts, pos, Comma)
    ensures Ends(ts, pos, 0)
  {
  }

  lemma OperatorEnds(ts: seq<Token>, pos: nat, op: BinaryOp)
    requires At(ts, pos, BinaryKind(op)) && op != Less
    ensures Ends(ts, pos, Strength(op)) && HasOp(ts, pos, Strength(op)) && BinaryOpOf(ts[pos].kind) == Some(op)
  {
  }

  lemma EndsMore(ts: seq<Token>, pos: nat, level: nat, more: nat)
    requires Ends(ts, pos, level) && level <= more
    ensures Ends(ts, pos, more)
  {
  }

  // ---- What an expression starts with

  /** Never with a closing parenthesis; and a postfix expression never with a unary operator. */
  lemma {:induction false} FirstToken(ts: seq<Token>, pos: nat, level: nat, e: Expr, end: nat)
    requires pos <= end <= |ts| && 1 <= level <= POSTFIX && Derives(ts, pos, level, e, end)
    ensures pos < end && !At(ts, pos, RParen)
    ensures level == POSTFIX ==> UnaryOpOf(ts[pos].kind).None?
    decreases end - pos, POSTFIX - level
  {
    if level < POSTFIX && Derives(ts, pos, level + 1, e, end) {
      FirstToken(ts, pos, level + 1, e, end);
    } else {
      assert Produces(ts, pos, level, e, end);
      if level < UNARY {
        var middle :| pos < middle < end && Operands(ts, pos, level, e, middle, end);
        FirstToken(ts, pos, level, e.left, middle);
      } else if level == POSTFIX && !Primary(ts, pos, e, end) {
        var middle :| pos < middle < end && Suffixed(ts, pos, e, middle, end);
        FirstToken(ts, pos, POSTFIX, e.base, middle);
      } else if level == POSTFIX && e.Name? && PathDerives(ts, pos, e.path, end) {
        ParsesSegments(ts, pos + 1, [], e.path[1..], end);
      }
    }
  }

  /** An expression of some strength stands wherever less is expected. */
  lemma {:induction false} Climb(ts: seq<Token>, pos: nat, level: nat, e: Expr, end: nat, high: nat)
    requires pos <= end <= |ts| && 1 <= level <= high <= POSTFIX && Derives(ts, pos, high, e, end)
    ensures Derives(ts, pos, level, e, end)
    decreases high - level
  {
    if level < high {
      Climb(ts, pos, level + 1, e, end, high);
    }
  }

  lemma {:induction false} ParsesSegments(ts: seq<Token>, pos: nat, sofar: seq<string>, path: seq<string>, end: nat)
    requires pos <= |ts| && SegmentsDerive(ts, pos, path, end)
    ensures ParsePath(ts, pos, sofar) == Ok(Name(sofar + path), end)
    decreases |path|
  {
    if path == [] {
      assert sofar + path == sofar;
    } else {
      ParsesSegments(ts, pos + 2, sofar + [path[0]], path[1..], end);
      assert sofar + [path[0]] + path[1..] == sofar + path;
    }
  }
}
