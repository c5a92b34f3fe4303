/** The expression ladder of the parser: what it computes on the core expression language. */
module Parser {
  import opened Wrappers

  datatype Kind =
    | Ident | Int | Float | CharLit | String | True | False | Null
    | PipePipe | AmpAmp | Pipe | Caret | Amp | EqEq | BangEq
    | Lt | LtEq | Gt | GtEq | LtLt | GtGt | Plus | Minus | Star | Slash | Percent
    | Bang | Tilde
    | LParen | RParen | LBrace | LBracket | RBracket | Comma | Dot | DotDot | Arrow | ColonColon | Question | As
    | Other | Eof

  datatype Token = Token(kind: Kind, lexeme: string)

  datatype UnaryOp = Not | Neg | BitNot | Addr | Deref

  datatype BinaryOp =
    | Or | And | BitOr | BitXor | BitAnd | Eq | Ne | Less | Le | Greater | Ge | Shl | Shr
    | Add | Sub | Mul | Div | Rem

  datatype Literal = Integer(text: string) | Real(text: string) | Character(text: string) | Text(text: string)
                   | Boolean(value: bool) | NullPointer

  datatype Expr =
    | Name(path: seq<string>)
    | Lit(literal: Literal)
    | Unary(uop: UnaryOp, operand: Expr)
    | Binary(bop: BinaryOp, left: Expr, right: Expr)
    | Postfix(base: Expr, suffix: Suffix)

  /** What a postfix operator adds to its base. */
  datatype Suffix = Field(name: string) | Through(name: string) | Index(index: Expr) | Call(args: seq<Expr>) | Try

  predicate At(ts: seq<Token>, pos: nat, k: Kind) {
    pos < |ts| && ts[pos].kind == k
  }

  function UnaryOpOf(k: Kind): Option<UnaryOp> {
    match k
    case Bang => Some(Not)
    case Minus => Some(Neg)
    case Tilde => Some(BitNot)
    case Amp => Some(Addr)
    case Star => Some(Deref)
    case _ => None
  }

  function BinaryOpOf(k: Kind): Option<BinaryOp> {
    match k
    case PipePipe => Some(Or)
    case AmpAmp => Some(And)
    case Pipe => Some(BitOr)
    case Caret => Some(BitXor)
    case Amp => Some(BitAnd)
    case EqEq => Some(Eq)
    case BangEq => Some(Ne)
    case Lt => Some(Less)
    case LtEq => Some(Le)
    case Gt => Some(Greater)
    case GtEq => Some(Ge)
    case LtLt => Some(Shl)
    case GtGt => Some(Shr)
    case Plus => Some(Add)
    case Minus => Some(Sub)
    case Star => Some(Mul)
    case Slash => Some(Div)
    case Percent => Some(Rem)
    case _ => None
  }

  /** The binding strength of a binary operator, from 1 to 10. */
  function Strength(op: BinaryOp): nat {
    match op
    case Or => 1
    case And => 2
    case BitOr => 3
    case BitXor => 4
    case BitAnd => 5
    case Eq => 6
    case Ne => 6
    case Less => 7
    case Le => 7
    case Greater => 7
    case Ge => 7
    case Shl => 8
    case Shr => 8
    case Add => 9
    case Sub => 9
    case Mul => 10
    case Div => 10
    case Rem => 10
  }

  /** The strength of the operator at `pos`, or 0 if there is none. */
  function StrengthAt(ts: seq<Token>, pos: nat): nat {
    if pos < |ts| && BinaryOpOf(ts[pos].kind).Some? then Strength(BinaryOpOf(ts[pos].kind).value) else 0
  }

  /** The operator at `pos` belongs to the given rung of the ladder. */
  predicate HasOp(ts: seq<Token>, pos: nat, level: nat) {
    pos < |ts| && BinaryOpOf(ts[pos].kind).Some? && StrengthAt(ts, pos) == level
  }

  /** An expression and the position behind it; anything that records a diagnostic or leaves the core
      language is a failure. */
  datatype Result = Ok(expr: Expr, pos: nat) | Fail

  datatype Step = Next(suffix: Suffix, pos: nat) | Stop | Wrong

  datatype Args = Parsed(args: seq<Expr>, pos: nat) | NoArgs

  const UNARY: nat := 11
  const POSTFIX: nat := 12

  function ParseExpr(ts: seq<Token>, pos: nat): (r: Result)
    requires pos <= |ts|
    ensures r.Ok? ==> pos < r.pos <= |ts|
    decreases |ts| - pos, 20
  {
    ParseBinary(ts, pos, 1)
  }

  function ParseBinary(ts: seq<Token>, pos: nat, level: nat): (r: Result)
    requires pos <= |ts| && 1 <= level <= UNARY
    ensures r.Ok? ==> pos < r.pos <= |ts|
    decreases |ts| - pos, 19 - level, 1
  {
    if level == UNARY then
      var operand := ParseUnary(ts, pos);
      if operand.Ok? && At(ts, operand.pos, As) then Fail else operand
    else
      var first := ParseBinary(ts, pos, level + 1);
      if first.Ok? then BinaryTail(ts, first.expr, first.pos, level) else Fail
  }

  function BinaryTail(ts: seq<Token>, left: Expr, pos: nat, level: nat): (r: Result)
    requires pos <= |ts| && 1 <= level < UNARY
    ensures r.Ok? ==> pos <= r.pos <= |ts|
    decreases |ts| - pos, 19 - level, 0
  {
    if !HasOp(ts, pos, level) then Ok(left, pos)
    else
      var op := BinaryOpOf(ts[pos].kind).value;
      var right := ParseBinary(ts, pos + 1, level + 1);
      if right.Ok? then BinaryTail(ts, Binary(op, left, right.expr), right.pos, level) else Fail
  }

  function ParseUnary(ts: seq<Token>, pos: nat): (r: Result)
    requires pos <= |ts|
    ensures r.Ok? ==> pos < r.pos <= |ts|
    decreases |ts| - pos, 7, 0
  {
    if pos == |ts| then Fail
    else
      var op := UnaryOpOf(ts[pos].kind);
      if op.Some? then
        var operand := ParseUnary(ts, pos + 1);
        if operand.Ok? then Ok(Unary(op.value, operand.expr), operand.pos) else Fail
      else ParsePostfix(ts, pos)
  }

  function ParsePostfix(ts: seq<Token>, pos: nat): (r: Result)
    requires pos <= |ts|
    ensures r.Ok? ==> pos < r.pos <= |ts|
    decreases |ts| - pos, 6, 0
  {
    var primary := ParsePrimary(ts, pos);
    if primary.Ok? then PostfixTail(ts, primary.expr, primary.pos) else Fail
  }

  /** The loop over postfix operators. */
  function PostfixTail(ts: seq<Token>, base: Expr, pos: nat): (r: Result)
    requires pos <= |ts|
    ensures r.Ok? ==> pos <= r.pos <= |ts|
    decreases |ts| - pos, 5, 1
  {
    match ParseSuffix(ts, pos)
    case Next(suffix, next) => PostfixTail(ts, Postfix(base, suffix), next)
    case Stop => Ok(base, pos)
    case Wrong => Fail
  }

  /** One postfix operator, if there is one at `pos`. */
  function ParseSuffix(ts: seq<Token>, pos: nat): (r: Step)
    requires pos <= |ts|
    ensures r.Next? ==> pos < r.pos <= |ts|
    decreases |ts| - pos, 5, 0
  {
    if At(ts, pos, Lt) then Wrong
    else if At(ts, pos, LParen) then
      var args := ParseArgs(ts, pos + 1, []);
      if args.Parsed? then Next(Call(args.args), args.pos) else Wrong
    else if At(ts, pos, Dot) then
      if At(ts, pos + 1, Ident) && !At(ts, pos + 2, ColonColon) then Next(Field(ts[pos + 1].lexeme), pos + 2) else Wrong
    else if At(ts, pos, Arrow) then
      if At(ts, pos + 1, Ident) then Next(Through(ts[pos + 1].lexeme), pos + 2) else Wrong
    else if At(ts, pos, LBracket) then
      var index := ParseExpr(ts, pos + 1);
      if index.Ok? && At(ts, index.pos, RBracket) then Next(Index(index.expr), index.pos + 1) else Wrong
    else if At(ts, pos, Question) then Next(Try, pos + 1)
    else Stop
  }

  /** The arguments from `pos` on, after those already read; a trailing comma is accepted. */
  function ParseArgs(ts: seq<Token>, pos: nat, sofar: seq<Expr>): (r: Args)
    requires pos <= |ts|
    ensures r.Parsed? ==> pos < r.pos <= |ts|
    decreases |ts| - pos, 21, 0
  {
    if At(ts, pos, RParen) then Parsed(sofar, pos + 1)
    else
      var arg := ParseExpr(ts, pos);
      if arg.Fail? then NoArgs
      else if At(ts, arg.pos, Comma) then ParseArgs(ts, arg.pos + 1, sofar + [arg.expr])
      else if At(ts, arg.pos, RParen) then Parsed(sofar + [arg.expr], arg.pos + 1)
      else NoArgs
  }

  /** An identifier that starts an await, a closure or a select instead of a name. */
  predicate StartsOther(ts: seq<Token>, pos: nat)
    requires pos < |ts|
  {
    || ts[pos].lexeme == "await"
    || (ts[pos].lexeme == "async" && (At(ts, pos + 1, PipePipe) || At(ts, pos + 1, Pipe)))
    || (ts[pos].lexeme == "select" && At(ts, pos + 1, LBrace))
    || (ts[pos].lexeme == "biased" && At(ts, pos + 1, Ident) && ts[pos + 1].lexeme == "select"
        && At(ts, pos + 2, LBrace))
  }

  function ParsePrimary(ts: seq<Token>, pos: nat): (r: Result)
    requires pos <= |ts|
    ensures r.Ok? ==> pos < r.pos <= |ts|
    decreases |ts| - pos, 4, 0
  {
    if pos == |ts| then Fail
    else if ts[pos].kind == Ident then
      if StartsOther(ts, pos) then Fail else ParsePath(ts, pos + 1, [ts[pos].lexeme])
    else if ts[pos].kind == LParen then
      var inner := ParseExpr(ts, pos + 1);
      if inner.Ok? && At(ts, inner.pos, RParen) then Ok(inner.expr, inner.pos + 1) else Fail
    else
      var literal := LiteralOf(ts[pos]);
      if literal.Some? then Ok(Lit(literal.value), pos + 1) else Fail
  }

  function ParsePath(ts: seq<Token>, pos: nat, path: seq<string>): (r: Result)
    requires pos <= |ts|
    ensures r.Ok? ==> pos <= r.pos <= |ts|
    decreases |ts| - pos
  {
    if At(ts, pos, ColonColon) then
      if At(ts, pos + 1, Ident) then ParsePath(ts, pos + 2, path + [ts[pos + 1].lexeme]) else Fail
    else Ok(Name(path), pos)
  }

  function LiteralOf(t: Token): Option<Literal> {
    match t.kind
    case Int => Some(Integer(t.lexeme))
    case Float => Some(Real(t.lexeme))
    case CharLit => Some(Character(t.lexeme))
    case String => Some(Text(t.lexeme))
    case True => Some(Boolean(true))
    case False => Some(Boolean(false))
    case Null => Some(NullPointer)
    case _ => None
  }
}
