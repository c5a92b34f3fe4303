/** The ladder of binary operators and the words that are not always names, as tables of their own. */
module ParserLadder {
  import opened Wrappers
  import opened Parser
  import opened TokenLists
  import opened Grammar
  import opened ParserRoundTrip

  // ---- The operators

  const BINARY_OPERATORS: map<Kind, BinaryOp> := map[
    PipePipe := Or, AmpAmp := And, Pipe := BitOr, Caret := BitXor, Amp := BitAnd, EqEq := Eq, BangEq := Ne,
    Lt := Less, LtEq := Le, Gt := Greater, GtEq := Ge, LtLt := Shl, GtGt := Shr,
    Plus := Add, Minus := Sub, Star := Mul, Slash := Div, Percent := Rem]

  const UNARY_OPERATORS: map<Kind, UnaryOp> := map[
    Bang := Not, Minus := Neg, Tilde := BitNot, Amp := Addr, Star := Deref]

  /** The parser takes the tokens of the tables for these operators, and no others for any. */
  lemma OperatorsOf(k: Kind)
    ensures BinaryOpOf(k) == if k in BINARY_OPERATORS then Some(BINARY_OPERATORS[k]) else None
    ensures UnaryOpOf(k) == if k in UNARY_OPERATORS then Some(UNARY_OPERATORS[k]) else None
  {
    BinaryOperatorOf(k);
  }

  lemma BinaryOperatorOf(k: Kind)
    ensures BinaryOpOf(k) == if k in BINARY_OPERATORS then Some(BINARY_OPERATORS[k]) else None
  {
  }

  // ---- The rungs

  /** The binary operators by their tokens, from the loosest to the tightest. */
  const RUNGS: seq<set<Kind>> := [
    {PipePipe}, {AmpAmp}, {Pipe}, {Caret}, {Amp}, {EqEq, BangEq}, {Lt, LtEq, Gt, GtEq}, {LtLt, GtGt},
    {Plus, Minus}, {Star, Slash, Percent}]

  /** The first operator stands on the same rung as the second or on a tighter one. */
  ghost predicate BindsNoLooser(k: Kind, l: Kind) {
    exists i, j :: 0 <= j <= i < |RUNGS| && k in RUNGS[i] && l in RUNGS[j]
  }

  /** The rung that the parser gives to an operator is the one of the table. */
  lemma RungOf(op: BinaryOp, i: nat)
    requires i < |RUNGS|
    ensures BinaryKind(op) in RUNGS[i] <==> Strength(op) == i + 1
  {
  }

  /** At each rung the parser takes the tokens of that rung and no others. */
  lemma RungTakes(ts: seq<Token>, pos: nat, i: nat)
    requires i < |RUNGS|
    ensures HasOp(ts, pos, i + 1) <==> pos < |ts| && ts[pos].kind in RUNGS[i]
  {
    if pos < |ts| && BinaryOpOf(ts[pos].kind).Some? {
      var op := BinaryOpOf(ts[pos].kind).value;
      KindOf(ts[pos].kind, op);
      RungOf(op, i);
    }
  }

  lemma KindOf(k: Kind, op: BinaryOp)
    requires BinaryOpOf(k) == Some(op)
    ensures BinaryKind(op) == k
  {
  }

  lemma BindsByStrength(k: BinaryOp, l: BinaryOp)
    ensures BindsNoLooser(BinaryKind(k), BinaryKind(l)) <==> Strength(l) <= Strength(k)
  {
    var i, j := Strength(k) - 1, Strength(l) - 1;
    RungOf(k, i);
    RungOf(l, j);
    if BindsNoLooser(BinaryKind(k), BinaryKind(l)) {
      var a, b :| 0 <= b <= a < |RUNGS| && BinaryKind(k) in RUNGS[a] && BinaryKind(l) in RUNGS[b];
      RungOf(k, a);
      RungOf(l, b);
    }
  }

  // ---- How two operators nest

  /** How `x op y pq z` is grouped: to the left, unless the second operator stands on a tighter rung. */
  ghost function Grouped(x: Expr, op: BinaryOp, y: Expr, pq: BinaryOp, z: Expr): Expr {
    if BindsNoLooser(BinaryKind(op), BinaryKind(pq)) then Binary(pq, Binary(op, x, y), z)
    else Binary(op, x, Binary(pq, y, z))
  }

  /** The three operands, each a name, a literal, a postfix or a unary expression, with the operators between them. */
  function Row(x: Expr, op: BinaryOp, y: Expr, pq: BinaryOp, z: Expr): seq<Token> {
    Bare(x) + [Tok(BinaryKind(op))] + Bare(y) + [Tok(BinaryKind(pq))] + Bare(z)
  }

  lemma BareBinary(op: BinaryOp, l: Expr, r: Expr)
    requires Prec(l) >= Strength(op) && Prec(r) > Strength(op)
    ensures Print(Binary(op, l, r), 1) == Bare(Binary(op, l, r)) == Bare(l) + [Tok(BinaryKind(op))] + Bare(r)
  {
    assert Print(l, Strength(op)) == Bare(l) && Print(r, Strength(op) + 1) == Bare(r);
  }

  lemma RowIsPrinted(x: Expr, op: BinaryOp, y: Expr, pq: BinaryOp, z: Expr)
    requires Prec(x) >= UNARY && Prec(y) >= UNARY && Prec(z) >= UNARY
    ensures Print(Grouped(x, op, y, pq, z), 1) == Row(x, op, y, pq, z)
  {
    BindsByStrength(op, pq);
    if Strength(pq) <= Strength(op) {
      BareBinary(op, x, y);
      BareBinary(pq, Binary(op, x, y), z);
    } else {
      BareBinary(pq, y, z);
      BareBinary(op, x, Binary(pq, y, z));
      Regroup(Bare(x), [Tok(BinaryKind(op))], Bare(y), [Tok(BinaryKind(pq))], Bare(z));
    }
  }

  lemma Regroup(a: seq<Token>, b: seq<Token>, c: seq<Token>, d: seq<Token>, e: seq<Token>)
    ensures a + b + c + d + e == a + b + (c + d + e)
  {
  }

  /** For every two operators and all such operands the parser groups as the table says. */
  lemma HowOperatorsNest(ts: seq<Token>, pos: nat, x: Expr, op: BinaryOp, y: Expr, pq: BinaryOp, z: Expr)
    requires Prec(x) >= UNARY && Prec(y) >= UNARY && Prec(z) >= UNARY
    requires Stands(ts, pos, Row(x, op, y, pq, z)) && Clear(ts, pos, Grouped(x, op, y, pq, z), 1)
    requires Ends(ts, pos + |Row(x, op, y, pq, z)|, 0)
    ensures ParseExpr(ts, pos) == Ok(Grouped(x, op, y, pq, z), pos + |Row(x, op, y, pq, z)|)
  {
    RowIsPrinted(x, op, y, pq, z);
    RoundTrip(ts, pos, Grouped(x, op, y, pq, z));
  }

  // ---- Words that are not always names

  datatype Piece = Word(text: string) | Mark(kind: Kind)

  /** What starts with an identifier and is no name: an await, an async closure, a select. */
  const OTHERS: seq<seq<Piece>> := [
    [Word("await")],
    [Word("async"), Mark(PipePipe)],
    [Word("async"), Mark(Pipe)],
    [Word("select"), Mark(LBrace)],
    [Word("biased"), Word("select"), Mark(LBrace)]]

  ghost predicate IsPiece(ts: seq<Token>, pos: nat, p: Piece) {
    match p
    case Word(text) => At(ts, pos, Ident) && ts[pos].lexeme == text
    case Mark(kind) => At(ts, pos, kind)
  }

  ghost predicate Spelled(ts: seq<Token>, pos: nat, ps: seq<Piece>) {
    forall i :: 0 <= i < |ps| ==> IsPiece(ts, pos + i, ps[i])
  }

  /** An identifier is not read as a name exactly if one of these starts with it. */
  lemma NotNames(ts: seq<Token>, pos: nat)
    requires At(ts, pos, Ident)
    ensures StartsOther(ts, pos) <==> exists i :: 0 <= i < |OTHERS| && Spelled(ts, pos, OTHERS[i])
  {
    SpelledOne(ts, pos, OTHERS[0]);
    SpelledTwo(ts, pos, OTHERS[1]);
    SpelledTwo(ts, pos, OTHERS[2]);
    SpelledTwo(ts, pos, OTHERS[3]);
    SpelledThree(ts, pos, OTHERS[4]);
  }

  lemma SpelledOne(ts: seq<Token>, pos: nat, ps: seq<Piece>)
    requires |ps| == 1
    ensures Spelled(ts, pos, ps) <==> IsPiece(ts, pos, ps[0])
  {
    assert pos + 0 == pos;
  }

  lemma SpelledTwo(ts: seq<Token>, pos: nat, ps: seq<Piece>)
    requires |ps| == 2
    ensures Spelled(ts, pos, ps) <==> IsPiece(ts, pos, ps[0]) && IsPiece(ts, pos + 1, ps[1])
  {
    assert pos + 0 == pos;
  }

  lemma SpelledThree(ts: seq<Token>, pos: nat, ps: seq<Piece>)
    requires |ps| == 3
    ensures Spelled(ts, pos, ps) <==>
              IsPiece(ts, pos, ps[0]) && IsPiece(ts, pos + 1, ps[1]) && IsPiece(ts, pos + 2, ps[2])
  {
    assert pos + 0 == pos;
  }
}
