/** The recursive-descent methods over a moving position, proved against the functions of the ladder. */
module ParserRun {
  import opened Wrappers
  import opened Parser

  class ExprParser {
    const tokens: seq<Token>
    var pos: nat

    constructor (ts: seq<Token>)
      ensures tokens == ts && pos == 0 && Valid()
    {
      tokens := ts;
      pos := 0;
    }

    ghost predicate Valid()
      reads this
    {
      pos <= |tokens|
    }

    /** The outcome of a method is that of the function: the same expression, and the position behind it. */
    ghost predicate Agrees(found: Option<Expr>, r: Result)
      reads this
    {
      match r
      case Ok(e, end) => found == Some(e) && pos == end
      case Fail => found == None
    }

    method Eat(k: Kind) returns (eaten: bool)
      requires Valid()
      modifies this
      ensures Valid() && eaten == At(tokens, old(pos), k)
      ensures pos == old(pos) + if eaten then 1 else 0
    {
      eaten := pos < |tokens| && tokens[pos].kind == k;
      if eaten {
        pos := pos + 1;
      }
    }

    method ParseExpr() returns (found: Option<Expr>)
      requires Valid()
      modifies this
      ensures Valid() && Agrees(found, Parser.ParseExpr(tokens, old(pos)))
      decreases |tokens| - pos, 20
    {
      found := ParseBinary(1);
    }

    /** One rung of the ladder: an operand of the next rung, then as many operators of this one as there are. */
    method ParseBinary(level: nat) returns (found: Option<Expr>)
      requires Valid() && 1 <= level <= UNARY
      modifies this
      ensures Valid() && Agrees(found, Parser.ParseBinary(tokens, old(pos), level))
      decreases |tokens| - pos, 19 - level, 1
    {
      if level == UNARY {
        found := ParseCast();
        return;
      }
      found := ParseBinary(level + 1);
      if found.None? {
        return;
      }
      var e := found.value;
      while pos < |tokens| && BinaryOpOf(tokens[pos].kind).Some? && StrengthAt(tokens, pos) == level
        invariant Valid() && old(pos) < pos
        invariant Parser.ParseBinary(tokens, old(pos), level) == BinaryTail(tokens, e, pos, level)
        decreases |tokens| - pos
      {
        var op := BinaryOpOf(tokens[pos].kind).value;
        pos := pos + 1;
        var right := ParseBinary(level + 1);
        if right.None? {
          return None;
        }
        e := Binary(op, e, right.value);
      }
      found := Some(e);
    }

    method ParseCast() returns (found: Option<Expr>)
      requires Valid()
      modifies this
      ensures Valid() && Agrees(found, Parser.ParseBinary(tokens, old(pos), UNARY))
      decreases |tokens| - pos, 8, 0
    {
      found := ParseUnary();
      if found.Some? {
        var cast := Eat(As);
        if cast {
          found := None;
        }
      }
    }

    method ParseUnary() returns (found: Option<Expr>)
      requires Valid()
      modifies this
      ensures Valid() && Agrees(found, Parser.ParseUnary(tokens, old(pos)))
      decreases |tokens| - pos, 7, 0
    {
      if pos == |tokens| {
        return None;
      }
      var op := UnaryOpOf(tokens[pos].kind);
      if op.Some? {
        pos := pos + 1;
        found := ParseUnary();
        if found.Some? {
          found := Some(Unary(op.value, found.value));
        }
      } else {
        found := ParsePostfix();
      }
    }

    method ParsePostfix() returns (found: Option<Expr>)
      requires Valid()
      modifies this
      ensures Valid() && Agrees(found, Parser.ParsePostfix(tokens, old(pos)))
      decreases |tokens| - pos, 6, 0
    {
      found := ParsePrimary();
      if found.Some? {
        found := ParsePostfixTail(found.value);
      }
    }

    method ParsePostfixTail(base: Expr) returns (found: Option<Expr>)
      requires Valid()
      modifies this
      ensures Valid() && Agrees(found, PostfixTail(tokens, base, old(pos)))
      decreases |tokens| - pos, 5, 1
    {
      var e := base;
      while true
        invariant Valid() && old(pos) <= pos
        invariant PostfixTail(tokens, base, old(pos)) == PostfixTail(tokens, e, pos)
        decreases |tokens| - pos
      {
        var step := ParseSuffix();
        match step
        case Next(suffix, _) => e := Postfix(e, suffix);
        case Stop => return Some(e);
        case Wrong => return None;
      }
    }

    /** One turn of the loop over postfix operators. */
    method ParseSuffix() returns (step: Step)
      requires Valid()
      modifies this
      ensures Valid() && step == Parser.ParseSuffix(tokens, old(pos))
      ensures step.Next? ==> pos == step.pos
      ensures step.Stop? ==> pos == old(pos)
      decreases |tokens| - pos, 5, 0
    {
      if pos == |tokens| {
        return Stop;
      }
      match tokens[pos].kind
      case Lt => step := Wrong;
      case LParen =>
        pos := pos + 1;
        var args := ParseArgs();
        step := if args.Some? then Next(Call(args.value), pos) else Wrong;
      case Dot =>
        pos := pos + 1;
        var name := ExpectIdent();
        step := if name.Some? && !At(tokens, pos, ColonColon) then Next(Field(name.value), pos) else Wrong;
      case Arrow =>
        pos := pos + 1;
        var name := ExpectIdent();
        step := if name.Some? then Next(Through(name.value), pos) else Wrong;
      case LBracket =>
        pos := pos + 1;
        var index := ParseExpr();
        if index.None? {
          return Wrong;
        }
        var closed := Eat(RBracket);
        step := if closed then Next(Index(index.value), pos) else Wrong;
      case Question =>
        pos := pos + 1;
        step := Next(Try, pos);
      case _ => step := Stop;
    }

    method ExpectIdent() returns (name: Option<string>)
      requires Valid()
      modifies this
      ensures Valid()
      ensures if At(tokens, old(pos), Ident) then name == Some(tokens[old(pos)].lexeme) && pos == old(pos) + 1
              else name == None && pos == old(pos)
    {
      if pos < |tokens| && tokens[pos].kind == Ident {
        name := Some(tokens[pos].lexeme);
        pos := pos + 1;
      } else {
        name := None;
      }
    }

    method ParseArgs() returns (args: Option<seq<Expr>>)
      requires Valid()
      modifies this
      ensures Valid()
      ensures match Parser.ParseArgs(tokens, old(pos), [])
              case Parsed(all, end) => args == Some(all) && pos == end
              case NoArgs => args == None
      decreases |tokens| - pos, 21, 0
    {
      var list: seq<Expr> := [];
      var closed := Eat(RParen);
      while !closed
        invariant Valid() && old(pos) <= pos
        invariant Parser.ParseArgs(tokens, old(pos), []) ==
                  if closed then Parsed(list, pos) else Parser.ParseArgs(tokens, pos, list)
        invariant !closed ==> !At(tokens, pos, RParen)
        decreases |tokens| - pos, !closed
      {
        var arg := ParseExpr();
        if arg.None? {
          return None;
        }
        list := list + [arg.value];
        var more := Eat(Comma);
        closed := Eat(RParen);
        if !more && !closed {
          return None;
        }
      }
      args := Some(list);
    }

    method ParsePrimary() returns (found: Option<Expr>)
      requires Valid()
      modifies this
      ensures Valid() && Agrees(found, Parser.ParsePrimary(tokens, old(pos)))
      decreases |tokens| - pos, 4, 0
    {
      if pos == |tokens| {
        return None;
      }
      if tokens[pos].kind == Ident {
        if StartsOther(tokens, pos) {
          return None;
        }
        found := ParseName();
      } else if tokens[pos].kind == LParen {
        pos := pos + 1;
        found := ParseExpr();
        if found.Some? {
          var closed := Eat(RParen);
          if !closed {
            found := None;
          }
        }
      } else {
        var literal := LiteralOf(tokens[pos]);
        if literal.Some? {
          pos := pos + 1;
          found := Some(Lit(literal.value));
        } else {
          found := None;
        }
      }
    }

    method ParseName() returns (found: Option<Expr>)
      requires pos < |tokens| && tokens[pos].kind == Ident
      modifies this
      ensures Valid() && Agrees(found, ParsePath(tokens, old(pos) + 1, [tokens[old(pos)].lexeme]))
    {
      ghost var first := tokens[pos].lexeme;
      var path := [tokens[pos].lexeme];
      pos := pos + 1;
      while pos < |tokens| && tokens[pos].kind == ColonColon
        invariant Valid() && old(pos) < pos
        invariant ParsePath(tokens, old(pos) + 1, [first]) == ParsePath(tokens, pos, path)
        decreases |tokens| - pos
      {
        pos := pos + 1;
        var segment := ExpectIdent();
        if segment.None? {
          return None;
        }
        path := path + [segment.value];
      }
      found := Some(Name(path));
    }
  }
}
