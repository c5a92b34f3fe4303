/** The parser decides the grammar. */
module ParserExact {
  import opened Parser
  import opened Grammar
  import opened ParserComplete
  import opened ParserSound

  /** The parser succeeds with an expression and a place to stop exactly if the tokens up to that place derive
      the expression and the token there cannot continue it. */
  lemma ParserIsExact(ts: seq<Token>, pos: nat, level: nat, e: Expr, end: nat)
    requires pos <= |ts| && 1 <= level <= UNARY
    ensures Yields(ts, pos, level, e, end) <==> Reads(ts, pos, level, e, end)
  {
    BinarySound(ts, pos, level);
    if Reads(ts, pos, level, e, end) {
      ParsesOperand(ts, pos, level, e, end);
    }
  }

  /** Tokens have at most one reading: no two expressions, nor two ends, compete. */
  lemma Unambiguous(ts: seq<Token>, pos: nat, e: Expr, end: nat, f: Expr, stop: nat)
    requires pos <= |ts| && Reads(ts, pos, 1, e, end) && Reads(ts, pos, 1, f, stop)
    ensures e == f && end == stop
  {
    ParserIsExact(ts, pos, 1, e, end);
    ParserIsExact(ts, pos, 1, f, stop);
  }
}
