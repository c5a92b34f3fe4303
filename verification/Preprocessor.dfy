/** Conditional compilation: what the token preprocessor computes. */
module Preprocessor {
  import opened Wrappers

  datatype Kind =
    | HashIf | HashElif | HashElse | HashEndif
    | LParen | RParen | LBrace | RBrace | LBracket | RBracket
    | PipePipe | AmpAmp | Bang | Ident | String
    | Other | Eof

  datatype Token = Token(kind: Kind, lexeme: string)

  datatype Config = Config(os: string, arch: string, features: set<string>)

  predicate IsDirective(k: Kind) {
    k == HashIf || k == HashElif || k == HashElse || k == HashEndif
  }

  predicate At(ts: seq<Token>, pos: nat, k: Kind) {
    pos < |ts| && ts[pos].kind == k
  }

  // ---- Configuration expressions

  function EvalCall(c: Config, name: string, value: string): Option<bool> {
    if name == "has_feature" then Some(value in c.features)
    else if name == "is_target_os" then Some(c.os == value)
    else if name == "is_target_arch" then Some(c.arch == value)
    else None
  }

  function Decode(raw: string): string {
    if |raw| >= 2 && raw[0] == '"' && raw[|raw| - 1] == '"' then raw[1..|raw| - 1] else raw
  }

  /** Value, position reached, and number of diagnostics. */
  datatype Parsed = Parsed(value: bool, pos: nat, diags: nat)

  function ParseOr(ts: seq<Token>, c: Config, pos: nat): (r: Parsed)
    requires pos <= |ts|
    ensures pos <= r.pos <= |ts|
    decreases |ts| - pos, 6
  {
    OrTail(ts, c, ParseAnd(ts, c, pos))
  }

  function OrTail(ts: seq<Token>, c: Config, acc: Parsed): (r: Parsed)
    requires acc.pos <= |ts|
    ensures acc.pos <= r.pos <= |ts|
    decreases |ts| - acc.pos, 5
  {
    if At(ts, acc.pos, PipePipe) then
      var right := ParseAnd(ts, c, acc.pos + 1);
      OrTail(ts, c, Parsed(right.value || acc.value, right.pos, acc.diags + right.diags))
    else acc
  }

  function ParseAnd(ts: seq<Token>, c: Config, pos: nat): (r: Parsed)
    requires pos <= |ts|
    ensures pos <= r.pos <= |ts|
    decreases |ts| - pos, 4
  {
    AndTail(ts, c, ParseUnary(ts, c, pos))
  }

  function AndTail(ts: seq<Token>, c: Config, acc: Parsed): (r: Parsed)
    requires acc.pos <= |ts|
    ensures acc.pos <= r.pos <= |ts|
    decreases |ts| - acc.pos, 3
  {
    if At(ts, acc.pos, AmpAmp) then
      var right := ParseUnary(ts, c, acc.pos + 1);
      AndTail(ts, c, Parsed(right.value && acc.value, right.pos, acc.diags + right.diags))
    else acc
  }

  function ParseUnary(ts: seq<Token>, c: Config, pos: nat): (r: Parsed)
    requires pos <= |ts|
    ensures pos <= r.pos <= |ts|
    decreases |ts| - pos, 2
  {
    if At(ts, pos, Bang) then
      var inner := ParseUnary(ts, c, pos + 1);
      inner.(value := !inner.value)
    else ParsePrimary(ts, c, pos)
  }

  function ParsePrimary(ts: seq<Token>, c: Config, pos: nat): (r: Parsed)
    requires pos <= |ts|
    ensures pos <= r.pos <= |ts|
    decreases |ts| - pos, 1
  {
    if At(ts, pos, LParen) then Expect(ts, RParen, ParseOr(ts, c, pos + 1))
    else if !At(ts, pos, Ident) then Parsed(false, pos, 1)
    else
      var open := Expect(ts, LParen, Parsed(false, pos + 1, 0));
      if !At(ts, open.pos, String) then Parsed(false, open.pos, open.diags + 1)
      else
        var close := Expect(ts, RParen, Parsed(false, open.pos + 1, open.diags));
        var value := EvalCall(c, ts[pos].lexeme, Decode(ts[open.pos].lexeme));
        if value.Some? then close.(value := value.value) else Parsed(false, close.pos, close.diags + 1)
  }

  /** Steps over a token of the given kind, or reports that it is missing. */
  function Expect(ts: seq<Token>, k: Kind, p: Parsed): (r: Parsed)
    requires p.pos <= |ts|
    ensures p.pos <= r.pos <= |ts| && r.value == p.value
  {
    if At(ts, p.pos, k) then p.(pos := p.pos + 1) else p.(diags := p.diags + 1)
  }

  // ---- Ranges and gates

  datatype Depths = Depths(paren: nat, brace: nat, bracket: nat)

  const ZERO: Depths := Depths(0, 0, 0)

  function Less(n: nat): nat { if n == 0 then 0 else n - 1 }

  function NextDepths(d: Depths, k: Kind): Depths {
    match k
    case LParen => d.(paren := d.paren + 1)
    case RParen => d.(paren := Less(d.paren))
    case LBrace => d.(brace := d.brace + 1)
    case RBrace => d.(brace := Less(d.brace))
    case LBracket => d.(bracket := d.bracket + 1)
    case RBracket => d.(bracket := Less(d.bracket))
    case _ => d
  }

  /** Where a range stops, outside all brackets: the whole file at its end, a branch at the next branch. */
  datatype Stops = AtEof | AtBranchEnd

  predicate StopsAt(stops: Stops, k: Kind) {
    match stops
    case AtEof => k == Eof
    case AtBranchEnd => k == HashElif || k == HashElse || k == HashEndif
  }

  /** Tokens emitted, position reached, and number of diagnostics. */
  datatype Output = Output(tokens: seq<Token>, pos: nat, diags: nat)

  function Join(x: Output, y: Output): Output {
    Output(x.tokens + y.tokens, y.pos, x.diags + y.diags)
  }

  function Range(ts: seq<Token>, c: Config, pos: nat, d: Depths, stops: Stops): (r: Output)
    requires pos <= |ts|
    ensures pos <= r.pos <= |ts|
    decreases |ts| - pos, 2
  {
    if pos == |ts| || (d == ZERO && StopsAt(stops, ts[pos].kind)) then Output([], pos, 0)
    else if ts[pos].kind == HashIf && d == ZERO then
      var gate := Gate(ts, c, pos, false);
      Join(gate, Range(ts, c, gate.pos, d, stops))
    else if ts[pos].kind == Eof then Output([], pos, 0)
    else
      var here := Output([ts[pos]], pos + 1, if IsDirective(ts[pos].kind) then 1 else 0);
      Join(here, Range(ts, c, pos + 1, NextDepths(d, ts[pos].kind), stops))
  }

  predicate OpensBranch(ts: seq<Token>, pos: nat) {
    At(ts, pos, HashIf) || At(ts, pos, HashElif) || At(ts, pos, HashElse)
  }

  /** The condition of the branch that the directive at `pos` opens; else branches have none. */
  function Condition(ts: seq<Token>, c: Config, pos: nat): (r: Parsed)
    requires OpensBranch(ts, pos)
    ensures pos < r.pos <= |ts|
    decreases |ts| - pos, 0
  {
    if ts[pos].kind == HashElse then Parsed(true, pos + 1, 0) else ParseOr(ts, c, pos + 1)
  }

  /** One branch and the rest of its gate; `selected` tells whether an earlier branch was emitted. */
  function Gate(ts: seq<Token>, c: Config, pos: nat, selected: bool): (r: Output)
    requires OpensBranch(ts, pos)
    ensures pos < r.pos <= |ts|
    decreases |ts| - pos, 1
  {
    var cond := Condition(ts, c, pos);
    var active := !selected && cond.value;
    var branch := if active then Range(ts, c, cond.pos, ZERO, AtBranchEnd) else Output([], FindEnd(ts, cond.pos, 0), 0);
    var sofar := Output(branch.tokens, branch.pos, cond.diags + branch.diags);
    if At(ts, branch.pos, HashElif) || At(ts, branch.pos, HashElse) then
      Join(sofar, Gate(ts, c, branch.pos, selected || active))
    else if At(ts, branch.pos, HashEndif) then sofar.(pos := branch.pos + 1)
    else if branch.pos == |ts| || At(ts, branch.pos, Eof) then sofar.(diags := sofar.diags + 1)
    else sofar
  }

  function FindEnd(ts: seq<Token>, pos: nat, nested: nat): (r: nat)
    requires pos <= |ts|
    ensures pos <= r <= |ts|
    decreases |ts| - pos
  {
    if pos == |ts| || ts[pos].kind == Eof then pos
    else if ts[pos].kind == HashIf then FindEnd(ts, pos + 1, nested + 1)
    else if IsDirective(ts[pos].kind) && nested == 0 then pos
    else FindEnd(ts, pos + 1, if ts[pos].kind == HashEndif then nested - 1 else nested)
  }

  /** The whole token list; the last token is taken to be the end marker. */
  function Preprocess(ts: seq<Token>, c: Config): (seq<Token>, nat) {
    if ts == [] then (ts, 0)
    else
      var r := Range(ts, c, 0, ZERO, AtEof);
      (r.tokens + [ts[|ts| - 1]], r.diags + if At(ts, r.pos, Eof) then 0 else 1)
  }
}
