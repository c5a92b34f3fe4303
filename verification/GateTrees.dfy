/** Gate trees: what preprocessing means for well-nested input. */
module GateTrees {
  import opened Preprocessor
  import opened PreprocessorFacts
  import opened Conditions
  import opened TokenLists

  /** Plain tokens and gates, in order. */
  datatype Items =
    | Nothing
    | Plain(token: Token, rest: Items)
    | Gated(gate: Branches, rest: Items)

  /** The branches of a gate from one directive on. */
  datatype Branches =
    | EndIf
    | Else(body: Items)
    | When(cond: Cond, body: Items, next: Branches)

  // ---- Concrete syntax

  function Flat(items: Items): seq<Token> {
    match items
    case Nothing => []
    case Plain(token, rest) => [token] + Flat(rest)
    case Gated(gate, rest) => FlatGate(gate, HashIf) + Flat(rest)
  }

  /** A conditional branch is introduced by `directive`, later ones by elif. */
  function FlatGate(g: Branches, directive: Kind): seq<Token> {
    match g
    case EndIf => [Tok(HashEndif)]
    case Else(body) => [Tok(HashElse)] + Flat(body) + [Tok(HashEndif)]
    case When(cond, body, next) => [Tok(directive)] + Bare(cond) + Flat(body) + FlatGate(next, HashElif)
  }

  // ---- Meaning

  /** The tokens that remain: those of the first branch whose condition holds, or of the else branch,
      of each gate, recursively. */
  function Meaning(c: Config, items: Items): seq<Token>
    requires WellFormed(c, items)
  {
    match items
    case Nothing => []
    case Plain(token, rest) => [token] + Meaning(c, rest)
    case Gated(gate, rest) => GateMeaning(c, gate) + Meaning(c, rest)
  }

  function GateMeaning(c: Config, g: Branches): seq<Token>
    requires WellFormedGate(c, g, false)
  {
    match g
    case EndIf => []
    case Else(body) => Meaning(c, body)
    case When(cond, body, next) => if Holds(c, cond) then Meaning(c, body) else GateMeaning(c, next)
  }

  /** Gates start with a condition, and plain tokens are neither directives nor end markers. */
  predicate Nested(items: Items) {
    match items
    case Nothing => true
    case Plain(token, rest) => !IsDirective(token.kind) && token.kind != Eof && Nested(rest)
    case Gated(gate, rest) => gate.When? && NestedGate(gate) && Nested(rest)
  }

  predicate NestedGate(g: Branches) {
    match g
    case EndIf => true
    case Else(body) => Nested(body)
    case When(_, body, next) => Nested(body) && NestedGate(next)
  }

  /** Moreover, in the gates that are reached, conditions use known functions, and no conditional body begins with
      an operator that would continue its condition. */
  predicate WellFormed(c: Config, items: Items) {
    match items
    case Nothing => true
    case Plain(token, rest) => !IsDirective(token.kind) && token.kind != Eof && WellFormed(c, rest)
    case Gated(gate, rest) => gate.When? && WellFormedGate(c, gate, false) && WellFormed(c, rest)
  }

  /** The conditions of a gate that is reached are all read; the gates inside its branches are reached in the branch
      that is taken, if none was `selected` before. */
  predicate WellFormedGate(c: Config, g: Branches, selected: bool) {
    match g
    case EndIf => true
    case Else(body) => if selected then Nested(body) else WellFormed(c, body)
    case When(cond, body, next) =>
      && Known(cond) && !StartsWithOperator(body)
      && (if !selected && Holds(c, cond) then WellFormed(c, body) else Nested(body))
      && WellFormedGate(c, next, selected || Holds(c, cond))
  }

  predicate StartsWithOperator(items: Items) {
    items.Plain? && (items.token.kind == AmpAmp || items.token.kind == PipePipe)
  }

  /** The depths behind the items. */
  function EndDepths(items: Items, d: Depths): Depths {
    match items
    case Nothing => d
    case Plain(token, rest) => EndDepths(rest, NextDepths(d, token.kind))
    case Gated(_, rest) => EndDepths(rest, ZERO)
  }

  /** From the given depths, gates stand outside all brackets, and selected branches end outside all brackets. */
  predicate Tidy(c: Config, items: Items, d: Depths)
    requires WellFormed(c, items)
  {
    match items
    case Nothing => true
    case Plain(token, rest) => Tidy(c, rest, NextDepths(d, token.kind))
    case Gated(gate, rest) => d == ZERO && TidyGate(c, gate) && Tidy(c, rest, ZERO)
  }

  predicate TidyGate(c: Config, g: Branches)
    requires WellFormedGate(c, g, false)
  {
    match g
    case EndIf => true
    case Else(body) => TidyBody(c, body)
    case When(cond, body, next) => if Holds(c, cond) then TidyBody(c, body) else TidyGate(c, next)
  }

  predicate TidyBody(c: Config, body: Items)
    requires WellFormed(c, body)
  {
    Tidy(c, body, ZERO) && EndDepths(body, ZERO) == ZERO
  }

  // ---- Where the parts of a flattened tree stand

  function Size(items: Items): nat {
    match items
    case Nothing => 0
    case Plain(_, rest) => 1 + Size(rest)
    case Gated(gate, rest) => GateSize(gate) + Size(rest)
  }

  function GateSize(g: Branches): nat {
    match g
    case EndIf => 1
    case Else(body) => 2 + Size(body)
    case When(cond, body, next) => 1 + |Bare(cond)| + Size(body) + GateSize(next)
  }

  /** The items are found in the token list from `pos` on. */
  ghost predicate Laid(ts: seq<Token>, pos: nat, items: Items)
    decreases items
  {
    match items
    case Nothing => pos <= |ts|
    case Plain(token, rest) => pos < |ts| && ts[pos] == token && Laid(ts, pos + 1, rest)
    case Gated(gate, rest) => LaidGate(ts, pos, gate, HashIf) && Laid(ts, pos + GateSize(gate), rest)
  }

  ghost predicate LaidGate(ts: seq<Token>, pos: nat, g: Branches, directive: Kind)
    decreases g
  {
    match g
    case EndIf => At(ts, pos, HashEndif)
    case Else(body) => At(ts, pos, HashElse) && Laid(ts, pos + 1, body) && At(ts, pos + 1 + Size(body), HashEndif)
    case When(cond, body, next) =>
      && At(ts, pos, directive)
      && Stands(ts, pos + 1, Bare(cond))
      && Laid(ts, pos + 1 + |Bare(cond)|, body)
      && LaidGate(ts, pos + 1 + |Bare(cond)| + Size(body), next, HashElif)
  }

  lemma {:induction false} FlatSize(items: Items)
    ensures |Flat(items)| == Size(items)
    decreases items
  {
    match items
    case Nothing =>
    case Plain(_, rest) => FlatSize(rest);
    case Gated(gate, rest) =>
      FlatGateSize(gate, HashIf);
      FlatSize(rest);
  }

  lemma {:induction false} FlatGateSize(g: Branches, directive: Kind)
    ensures |FlatGate(g, directive)| == GateSize(g)
    decreases g
  {
    match g
    case EndIf =>
    case Else(body) => FlatSize(body);
    case When(_, body, next) =>
      FlatSize(body);
      FlatGateSize(next, HashElif);
  }

  lemma {:induction false} FlatIsLaid(ts: seq<Token>, pos: nat, items: Items)
    requires Stands(ts, pos, Flat(items))
    ensures Laid(ts, pos, items)
    decreases items
  {
    match items
    case Nothing =>
    case Plain(token, rest) =>
      StandsSplit(ts, pos, [token], Flat(rest));
      StandsOne(ts, pos, token);
      FlatIsLaid(ts, pos + 1, rest);
    case Gated(gate, rest) =>
      StandsSplit(ts, pos, FlatGate(gate, HashIf), Flat(rest));
      FlatGateIsLaid(ts, pos, gate, HashIf);
      FlatGateSize(gate, HashIf);
      FlatIsLaid(ts, pos + GateSize(gate), rest);
  }

  lemma {:induction false} FlatGateIsLaid(ts: seq<Token>, pos: nat, g: Branches, directive: Kind)
    requires Stands(ts, pos, FlatGate(g, directive))
    ensures LaidGate(ts, pos, g, directive)
    decreases g, 1
  {
    if g.EndIf? {
      StandsOne(ts, pos, Tok(HashEndif));
    } else if g.Else? {
      ElseStands(ts, pos, Tok(HashElse), Flat(g.body), Tok(HashEndif));
      FlatSize(g.body);
      FlatIsLaid(ts, pos + 1, g.body);
    } else {
      FlatBranchIsLaid(ts, pos, g, directive);
    }
  }

  lemma {:induction false} FlatBranchIsLaid(ts: seq<Token>, pos: nat, g: Branches, directive: Kind)
    requires g.When? && Stands(ts, pos, FlatGate(g, directive))
    ensures LaidGate(ts, pos, g, directive)
    decreases g, 0
  {
    var body := pos + 1 + |Bare(g.cond)|;
    FlatBranch(ts, pos, g, directive);
    FlatIsLaid(ts, body, g.body);
    FlatGateIsLaid(ts, body + Size(g.body), g.next, HashElif);
    BranchIsLaid(ts, pos, g, directive, body);
  }

  lemma FlatBranch(ts: seq<Token>, pos: nat, g: Branches, directive: Kind)
    requires g.When? && Stands(ts, pos, FlatGate(g, directive))
    ensures At(ts, pos, directive) && Stands(ts, pos + 1, Bare(g.cond))
    ensures Stands(ts, pos + 1 + |Bare(g.cond)|, Flat(g.body))
    ensures Stands(ts, pos + 1 + |Bare(g.cond)| + Size(g.body), FlatGate(g.next, HashElif))
  {
    FlatSize(g.body);
    WhenStands(ts, pos, Tok(directive), Bare(g.cond), Flat(g.body), FlatGate(g.next, HashElif));
  }

  lemma BranchIsLaid(ts: seq<Token>, pos: nat, g: Branches, directive: Kind, body: nat)
    requires g.When? && At(ts, pos, directive) && Stands(ts, pos + 1, Bare(g.cond)) && body == pos + 1 + |Bare(g.cond)|
    requires Laid(ts, body, g.body) && LaidGate(ts, body + Size(g.body), g.next, HashElif)
    ensures LaidGate(ts, pos, g, directive)
  {
  }

  lemma ElseStands(ts: seq<Token>, pos: nat, open: Token, x: seq<Token>, close: Token)
    requires Stands(ts, pos, [open] + x + [close])
    ensures pos + 1 + |x| < |ts| && ts[pos] == open && Stands(ts, pos + 1, x) && ts[pos + 1 + |x|] == close
  {
    StandsSplit(ts, pos, [open] + x, [close]);
    StandsSplit(ts, pos, [open], x);
    StandsOne(ts, pos, open);
    StandsOne(ts, pos + 1 + |x|, close);
  }

  lemma WhenStands(ts: seq<Token>, pos: nat, open: Token, x: seq<Token>, y: seq<Token>, z: seq<Token>)
    requires Stands(ts, pos, [open] + x + y + z)
    ensures pos < |ts| && ts[pos] == open
    ensures Stands(ts, pos + 1, x) && Stands(ts, pos + 1 + |x|, y) && Stands(ts, pos + 1 + |x| + |y|, z)
  {
    StandsSplit(ts, pos, [open] + x + y, z);
    StandsSplit(ts, pos, [open] + x, y);
    StandsSplit(ts, pos, [open], x);
    StandsOne(ts, pos, open);
  }

  /** Laid items end within the token list. */
  lemma {:induction false} LaidFits(ts: seq<Token>, pos: nat, items: Items)
    requires Laid(ts, pos, items)
    ensures pos + Size(items) <= |ts|
    decreases items
  {
    match items
    case Nothing =>
    case Plain(_, rest) => LaidFits(ts, pos + 1, rest);
    case Gated(gate, rest) => LaidFits(ts, pos + GateSize(gate), rest);
  }

  // ---- Skipping

  ghost predicate AllPlain(x: seq<Token>) {
    forall i :: 0 <= i < |x| ==> !IsDirective(x[i].kind) && x[i].kind != Eof
  }

  /** A token position and how many gates deep it is. */
  datatype Place = Place(pos: nat, nested: nat)

  /** Looking for the end of a branch from either place leads to the same end. */
  ghost predicate SameEnd(ts: seq<Token>, here: Place, there: Place) {
    match here
    case Place(pos, nested) =>
      pos <= |ts| && there.pos <= |ts| && FindEnd(ts, pos, nested) == FindEnd(ts, there.pos, there.nested)
  }

  lemma SkipToken(ts: seq<Token>, pos: nat, nested: nat)
    requires pos < |ts| && !IsDirective(ts[pos].kind) && ts[pos].kind != Eof
    ensures SameEnd(ts, Place(pos, nested), Place(pos + 1, nested))
  {
  }

  lemma SkipIf(ts: seq<Token>, pos: nat, nested: nat)
    requires At(ts, pos, HashIf)
    ensures SameEnd(ts, Place(pos, nested), Place(pos + 1, nested + 1))
  {
  }

  lemma SkipMiddle(ts: seq<Token>, pos: nat, nested: nat)
    requires At(ts, pos, HashElif) || At(ts, pos, HashElse)
    ensures SameEnd(ts, Place(pos, nested + 1), Place(pos + 1, nested + 1))
  {
  }

  lemma SkipEndif(ts: seq<Token>, pos: nat, nested: nat)
    requires At(ts, pos, HashEndif)
    ensures SameEnd(ts, Place(pos, nested + 1), Place(pos + 1, nested))
  {
  }

  lemma SameEndTransitive(ts: seq<Token>, here: Place, there: Place, beyond: Place)
    requires SameEnd(ts, here, there) && SameEnd(ts, there, beyond)
    ensures SameEnd(ts, here, beyond)
  {
  }

  lemma {:induction false} SkipPlain(ts: seq<Token>, pos: nat, x: seq<Token>, nested: nat)
    requires Stands(ts, pos, x) && AllPlain(x)
    ensures SameEnd(ts, Place(pos, nested), Place(pos + |x|, nested))
    decreases |x|
  {
    if x != [] {
      assert [x[0]] + x[1..] == x;
      StandsSplit(ts, pos, [x[0]], x[1..]);
      StandsOne(ts, pos, x[0]);
      SkipToken(ts, pos, nested);
      SkipPlain(ts, pos + 1, x[1..], nested);
      SameEndTransitive(ts, Place(pos, nested), Place(pos + 1, nested), Place(pos + |x|, nested));
    }
  }

  lemma {:induction false} BareIsPlain(e: Cond)
    ensures AllPlain(Bare(e))
    decreases e, 0
  {
    match e
    case Call(_) =>
    case Not(x) => PrintIsPlain(x, 2);
    case And(l, r) =>
      PrintIsPlain(l, 1);
      PrintIsPlain(r, 2);
    case Or(l, r) =>
      PrintIsPlain(l, 0);
      PrintIsPlain(r, 1);
  }

  lemma {:induction false} PrintIsPlain(e: Cond, level: nat)
    ensures AllPlain(Print(e, level))
    decreases e, 1
  {
    BareIsPlain(e);
  }

  /** The search for the end of a branch steps over whole items. */
  lemma {:induction false} SkipItems(ts: seq<Token>, pos: nat, items: Items, nested: nat)
    requires Nested(items) && Laid(ts, pos, items)
    ensures SameEnd(ts, Place(pos, nested), Place(pos + Size(items), nested))
    decreases items, 3
  {
    if items.Plain? {
      SkipFirst(ts, pos, items, nested);
    } else if items.Gated? {
      SkipFirstGate(ts, pos, items, nested);
    }
  }

  lemma {:induction false} SkipFirst(ts: seq<Token>, pos: nat, items: Items, nested: nat)
    requires items.Plain? && Nested(items) && Laid(ts, pos, items)
    ensures SameEnd(ts, Place(pos, nested), Place(pos + Size(items), nested))
    decreases items, 2
  {
    SkipToken(ts, pos, nested);
    SkipItems(ts, pos + 1, items.rest, nested);
    SameEndTransitive(ts, Place(pos, nested), Place(pos + 1, nested), Place(pos + 1 + Size(items.rest), nested));
  }

  lemma {:induction false} SkipFirstGate(ts: seq<Token>, pos: nat, items: Items, nested: nat)
    requires items.Gated? && Nested(items) && Laid(ts, pos, items)
    ensures SameEnd(ts, Place(pos, nested), Place(pos + Size(items), nested))
    decreases items, 2
  {
    var middle := pos + GateSize(items.gate);
    SkipWholeGate(ts, pos, items.gate, nested);
    SkipItems(ts, middle, items.rest, nested);
    SameEndTransitive(ts, Place(pos, nested), Place(middle, nested), Place(middle + Size(items.rest), nested));
  }

  lemma {:induction false} SkipWholeGate(ts: seq<Token>, pos: nat, g: Branches, nested: nat)
    requires g.When? && NestedGate(g) && LaidGate(ts, pos, g, HashIf)
    ensures SameEnd(ts, Place(pos, nested), Place(pos + GateSize(g), nested))
    decreases g, 2
  {
    SkipIf(ts, pos, nested);
    SkipBranch(ts, pos, g, HashIf, nested);
    SameEndTransitive(ts, Place(pos, nested), Place(pos + 1, nested + 1), Place(pos + GateSize(g), nested));
  }

  /** The rest of a gate, seen from inside, one level deeper. */
  lemma {:induction false} SkipGate(ts: seq<Token>, pos: nat, g: Branches, nested: nat)
    requires NestedGate(g) && LaidGate(ts, pos, g, HashElif)
    ensures SameEnd(ts, Place(pos, nested + 1), Place(pos + GateSize(g), nested))
    decreases g, 2
  {
    if g.EndIf? {
      SkipEndif(ts, pos, nested);
    } else if g.Else? {
      SkipMiddle(ts, pos, nested);
      SkipElse(ts, pos + 1, g.body, nested);
      SameEndTransitive(ts, Place(pos, nested + 1), Place(pos + 1, nested + 1), Place(pos + GateSize(g), nested));
    } else {
      SkipMiddle(ts, pos, nested);
      SkipBranch(ts, pos, g, HashElif, nested);
      SameEndTransitive(ts, Place(pos, nested + 1), Place(pos + 1, nested + 1), Place(pos + GateSize(g), nested));
    }
  }

  lemma {:induction false} SkipElse(ts: seq<Token>, pos: nat, body: Items, nested: nat)
    requires Nested(body) && Laid(ts, pos, body) && At(ts, pos + Size(body), HashEndif)
    ensures SameEnd(ts, Place(pos, nested + 1), Place(pos + Size(body) + 1, nested))
    decreases body, 4
  {
    var end := pos + Size(body);
    SkipItems(ts, pos, body, nested + 1);
    ThenEndif(ts, Place(pos, nested + 1), end, nested);
  }

  lemma ThenEndif(ts: seq<Token>, here: Place, end: nat, nested: nat)
    requires SameEnd(ts, here, Place(end, nested + 1)) && At(ts, end, HashEndif)
    ensures SameEnd(ts, here, Place(end + 1, nested))
  {
    SkipEndif(ts, end, nested);
    SameEndTransitive(ts, here, Place(end, nested + 1), Place(end + 1, nested));
  }

  lemma {:induction false} SkipBranch(ts: seq<Token>, pos: nat, g: Branches, directive: Kind, nested: nat)
    requires g.When? && NestedGate(g) && LaidGate(ts, pos, g, directive)
    ensures SameEnd(ts, Place(pos + 1, nested + 1), Place(pos + GateSize(g), nested))
    decreases g, 1
  {
    SkipParts(ts, pos + 1, pos + 1 + |Bare(g.cond)|, g, nested);
  }

  lemma {:induction false} SkipParts(ts: seq<Token>, pos: nat, body: nat, g: Branches, nested: nat)
    requires g.When? && NestedGate(g) && body == pos + |Bare(g.cond)|
    requires Stands(ts, pos, Bare(g.cond)) && Laid(ts, body, g.body)
    requires LaidGate(ts, body + Size(g.body), g.next, HashElif)
    ensures SameEnd(ts, Place(pos, nested + 1), Place(body + Size(g.body) + GateSize(g.next), nested))
    decreases g, 0
  {
    SkipHead(ts, pos, g.cond, g.body, nested + 1);
    SkipRest(ts, pos, body + Size(g.body), g.next, nested);
  }

  lemma {:induction false} SkipRest(ts: seq<Token>, pos: nat, middle: nat, g: Branches, nested: nat)
    requires NestedGate(g) && LaidGate(ts, middle, g, HashElif)
    requires SameEnd(ts, Place(pos, nested + 1), Place(middle, nested + 1))
    ensures SameEnd(ts, Place(pos, nested + 1), Place(middle + GateSize(g), nested))
    decreases g, 3
  {
    SkipGate(ts, middle, g, nested);
    SameEndTransitive(ts, Place(pos, nested + 1), Place(middle, nested + 1), Place(middle + GateSize(g), nested));
  }

  lemma {:induction false} SkipHead(ts: seq<Token>, pos: nat, cond: Cond, body: Items, nested: nat)
    requires Nested(body) && Stands(ts, pos, Bare(cond)) && Laid(ts, pos + |Bare(cond)|, body)
    ensures SameEnd(ts, Place(pos, nested), Place(pos + |Bare(cond)| + Size(body), nested))
    decreases body, 5
  {
    SkipCondition(ts, pos, cond, nested);
    ThenItems(ts, Place(pos, nested), pos + |Bare(cond)|, body, nested);
  }

  lemma SkipCondition(ts: seq<Token>, pos: nat, cond: Cond, nested: nat)
    requires Stands(ts, pos, Bare(cond))
    ensures SameEnd(ts, Place(pos, nested), Place(pos + |Bare(cond)|, nested))
  {
    BareIsPlain(cond);
    SkipPlain(ts, pos, Bare(cond), nested);
  }

  lemma {:induction false} ThenItems(ts: seq<Token>, here: Place, pos: nat, items: Items, nested: nat)
    requires SameEnd(ts, here, Place(pos, nested)) && Nested(items) && Laid(ts, pos, items)
    ensures SameEnd(ts, here, Place(pos + Size(items), nested))
    decreases items, 4
  {
    SkipItems(ts, pos, items, nested);
    SameEndTransitive(ts, here, Place(pos, nested), Place(pos + Size(items), nested));
  }

  // ---- Running

  /** Where a range stands: a token position and the bracket depths there. */
  datatype Spot = Spot(pos: nat, depths: Depths)

  /** From `here` on, the range emits `x` without reports and goes on at `later`. */
  ghost predicate Emits(ts: seq<Token>, c: Config, here: Spot, stops: Stops, x: seq<Token>, later: Spot)
    requires here.pos <= |ts| && later.pos <= |ts|
  {
    match Range(ts, c, later.pos, later.depths, stops)
    case Output(tokens, end, diags) => Range(ts, c, here.pos, here.depths, stops) == Output(x + tokens, end, diags)
  }

  ghost predicate GateEmits(ts: seq<Token>, c: Config, pos: nat, selected: bool, x: seq<Token>, later: nat)
    requires OpensBranch(ts, pos)
  {
    match Gate(ts, c, pos, selected)
    case Output(tokens, end, diags) => tokens == x && end == later && diags == 0
  }

  lemma EmitNothing(ts: seq<Token>, c: Config, here: Spot, stops: Stops)
    requires here.pos <= |ts|
    ensures Emits(ts, c, here, stops, [], here)
  {
    var r := Range(ts, c, here.pos, here.depths, stops);
    assert [] + r.tokens == r.tokens;
  }

  lemma EmitPlain(ts: seq<Token>, c: Config, pos: nat, d: Depths, stops: Stops, x: seq<Token>, later: Spot)
    requires pos < |ts| && later.pos <= |ts| && !IsDirective(ts[pos].kind) && ts[pos].kind != Eof
    requires Emits(ts, c, Spot(pos + 1, NextDepths(d, ts[pos].kind)), stops, x, later)
    ensures Emits(ts, c, Spot(pos, d), stops, [ts[pos]] + x, later)
  {
    var r := Range(ts, c, later.pos, later.depths, stops);
    assert [ts[pos]] + (x + r.tokens) == [ts[pos]] + x + r.tokens;
  }

  lemma EmitGate(
    ts: seq<Token>, c: Config, pos: nat, stops: Stops, x: seq<Token>, middle: nat, y: seq<Token>, later: Spot)
    requires At(ts, pos, HashIf) && GateEmits(ts, c, pos, false, x, middle) && middle <= |ts| && later.pos <= |ts|
    requires Emits(ts, c, Spot(middle, ZERO), stops, y, later)
    ensures Emits(ts, c, Spot(pos, ZERO), stops, x + y, later)
  {
    var r := Range(ts, c, later.pos, later.depths, stops);
    assert x + (y + r.tokens) == x + y + r.tokens;
  }

  /** Where a range stands behind the items. */
  function Behind(pos: nat, items: Items, d: Depths): Spot {
    Spot(pos + Size(items), EndDepths(items, d))
  }

  /** From `pos` on, the range emits the meaning of the items and goes on behind them. */
  ghost predicate Runs(ts: seq<Token>, c: Config, pos: nat, items: Items, d: Depths, stops: Stops)
    requires WellFormed(c, items)
  {
    match Behind(pos, items, d)
    case Spot(end, depths) =>
      end <= |ts| && pos <= |ts| && Emits(ts, c, Spot(pos, d), stops, Meaning(c, items), Spot(end, depths))
  }

  /** A range over flattened items emits their meaning. */
  lemma {:induction false} RangeOnItems(ts: seq<Token>, c: Config, pos: nat, items: Items, d: Depths, stops: Stops)
    requires WellFormed(c, items) && Tidy(c, items, d) && Laid(ts, pos, items)
    ensures Runs(ts, c, pos, items, d, stops)
    decreases items, 4
  {
    if items.Nothing? {
      RangeOnNothing(ts, c, pos, items, d, stops);
    } else if items.Plain? {
      RangeOnPlain(ts, c, pos, items, d, stops);
    } else {
      RangeOnGated(ts, c, pos, items, d, stops);
    }
  }

  lemma RangeOnNothing(ts: seq<Token>, c: Config, pos: nat, items: Items, d: Depths, stops: Stops)
    requires items.Nothing? && Laid(ts, pos, items)
    ensures Runs(ts, c, pos, items, d, stops)
  {
    EmitNothing(ts, c, Spot(pos, d), stops);
  }

  lemma {:induction false} RangeOnPlain(ts: seq<Token>, c: Config, pos: nat, items: Items, d: Depths, stops: Stops)
    requires items.Plain? && WellFormed(c, items) && Tidy(c, items, d) && Laid(ts, pos, items)
    ensures Runs(ts, c, pos, items, d, stops)
    decreases items, 3
  {
    var next := NextDepths(d, items.token.kind);
    RangeOnItems(ts, c, pos + 1, items.rest, next, stops);
    EmitPlain(ts, c, pos, d, stops, Meaning(c, items.rest), Behind(pos + 1, items.rest, next));
  }

  lemma {:induction false} RangeOnGated(ts: seq<Token>, c: Config, pos: nat, items: Items, d: Depths, stops: Stops)
    requires items.Gated? && WellFormed(c, items) && Tidy(c, items, d) && Laid(ts, pos, items)
    ensures Runs(ts, c, pos, items, d, stops)
    decreases items, 3
  {
    var middle := pos + GateSize(items.gate);
    WholeGateRuns(ts, c, pos, items.gate);
    RangeOnItems(ts, c, middle, items.rest, ZERO, stops);
    RunGate(ts, c, pos, items, stops);
  }

  lemma RunGate(ts: seq<Token>, c: Config, pos: nat, items: Items, stops: Stops)
    requires items.Gated? && WellFormed(c, items) && At(ts, pos, HashIf)
    requires GateEmits(ts, c, pos, false, GateMeaning(c, items.gate), pos + GateSize(items.gate))
    requires Runs(ts, c, pos + GateSize(items.gate), items.rest, ZERO, stops)
    ensures Runs(ts, c, pos, items, ZERO, stops)
  {
    var middle := pos + GateSize(items.gate);
    var x, y, later := GateMeaning(c, items.gate), Meaning(c, items.rest), Behind(middle, items.rest, ZERO);
    RunsTo(ts, c, middle, items.rest, ZERO, stops);
    EmitGate(ts, c, pos, stops, x, middle, y, later);
    GatedParts(c, pos, items);
    RunsFrom(ts, c, pos, items, ZERO, stops, x + y, later);
  }

  lemma RunsTo(ts: seq<Token>, c: Config, pos: nat, items: Items, d: Depths, stops: Stops)
    requires WellFormed(c, items) && Runs(ts, c, pos, items, d, stops)
    ensures pos <= |ts| && Behind(pos, items, d).pos <= |ts|
    ensures Emits(ts, c, Spot(pos, d), stops, Meaning(c, items), Behind(pos, items, d))
  {
  }

  lemma RunsFrom(
    ts: seq<Token>, c: Config, pos: nat, items: Items, d: Depths, stops: Stops, x: seq<Token>, later: Spot)
    requires WellFormed(c, items) && x == Meaning(c, items) && later == Behind(pos, items, d)
    requires pos <= |ts| && later.pos <= |ts| && Emits(ts, c, Spot(pos, d), stops, x, later)
    ensures Runs(ts, c, pos, items, d, stops)
  {
  }

  lemma GatedParts(c: Config, pos: nat, items: Items)
    requires items.Gated? && WellFormed(c, items)
    ensures Meaning(c, items) == GateMeaning(c, items.gate) + Meaning(c, items.rest)
    ensures Behind(pos, items, ZERO) == Behind(pos + GateSize(items.gate), items.rest, ZERO)
  {
  }

  lemma {:induction false} WholeGateRuns(ts: seq<Token>, c: Config, pos: nat, gate: Branches)
    requires gate.When? && WellFormedGate(c, gate, false) && TidyGate(c, gate) && LaidGate(ts, pos, gate, HashIf)
    ensures At(ts, pos, HashIf) && GateEmits(ts, c, pos, false, GateMeaning(c, gate), pos + GateSize(gate))
    decreases gate, 4
  {
    GateRuns(ts, c, pos, gate, HashIf, false);
  }

  /** What a gate emits when an earlier branch has or has not been taken. */
  function Pending(c: Config, g: Branches, selected: bool): seq<Token>
    requires WellFormedGate(c, g, selected)
  {
    if selected then [] else GateMeaning(c, g)
  }

  /** The gate at `pos` emits the meaning of the branch it selects and ends behind its endif. */
  lemma {:induction false} GateRuns(ts: seq<Token>, c: Config, pos: nat, g: Branches, directive: Kind, selected: bool)
    requires WellFormedGate(c, g, selected) && (selected || TidyGate(c, g)) && LaidGate(ts, pos, g, directive)
    requires directive == HashElif || directive == HashIf
    requires !g.EndIf?
    ensures OpensBranch(ts, pos) && GateEmits(ts, c, pos, selected, Pending(c, g, selected), pos + GateSize(g))
    decreases g, 3
  {
    if g.Else? {
      ElseRuns(ts, c, pos, g, selected);
    } else {
      WhenRuns(ts, c, pos, g, directive, selected);
    }
  }

  lemma BranchEnds(ts: seq<Token>, c: Config, pos: nat, d: Depths, x: seq<Token>, later: nat)
    requires pos <= |ts| && later < |ts| && StopsAt(AtBranchEnd, ts[later].kind)
    requires Emits(ts, c, Spot(pos, d), AtBranchEnd, x, Spot(later, ZERO))
    ensures Range(ts, c, pos, d, AtBranchEnd) == Output(x, later, 0)
  {
    assert x + [] == x;
  }

  lemma {:induction false} ElseRuns(ts: seq<Token>, c: Config, pos: nat, g: Branches, selected: bool)
    requires g.Else? && WellFormedGate(c, g, selected) && (selected || TidyGate(c, g)) && LaidGate(ts, pos, g, HashElif)
    ensures OpensBranch(ts, pos) && GateEmits(ts, c, pos, selected, Pending(c, g, selected), pos + GateSize(g))
    decreases g, 1
  {
    var end := pos + 1 + Size(g.body);
    if selected {
      BodySkipped(ts, pos + 1, g.body, end);
      SkippedEmits(ts, c, pos, true, true, pos + 1, end);
      LastBranch(ts, c, pos, true, [], end);
    } else {
      BodyTaken(ts, c, pos + 1, g.body, end);
      TakenEmits(ts, c, pos, pos + 1, Meaning(c, g.body), end);
      LastBranch(ts, c, pos, false, Meaning(c, g.body), end);
    }
  }

  /** The tokens behind a condition do not continue it. */
  lemma ConditionReads(ts: seq<Token>, c: Config, pos: nat, g: Branches, directive: Kind)
    requires g.When? && Known(g.cond) && LaidGate(ts, pos, g, directive)
    requires !StartsWithOperator(g.body) && (g.body.Gated? ==> g.body.gate.When?)
    requires directive == HashElif || directive == HashIf
    ensures OpensBranch(ts, pos) && Condition(ts, c, pos) == Parsed(Holds(c, g.cond), pos + 1 + |Bare(g.cond)|, 0)
  {
    var body := pos + 1 + |Bare(g.cond)|;
    NotAnOperator(ts, body, g.body, g.next);
    ConditionEnds(ts, c, pos, g.cond);
  }

  lemma ConditionEnds(ts: seq<Token>, c: Config, pos: nat, cond: Cond)
    requires At(ts, pos, HashIf) || At(ts, pos, HashElif)
    requires Known(cond) && Stands(ts, pos + 1, Bare(cond))
    requires !At(ts, pos + 1 + |Bare(cond)|, AmpAmp) && !At(ts, pos + 1 + |Bare(cond)|, PipePipe)
    ensures Condition(ts, c, pos) == Parsed(Holds(c, cond), pos + 1 + |Bare(cond)|, 0)
  {
    ParseOrPrinted(ts, c, pos + 1, cond);
  }

  lemma GateOpens(ts: seq<Token>, pos: nat, g: Branches)
    requires LaidGate(ts, pos, g, HashElif)
    ensures At(ts, pos, HashEndif) || At(ts, pos, HashElse) || At(ts, pos, HashElif)
    ensures g.EndIf? <==> At(ts, pos, HashEndif)
  {
  }

  lemma NotAnOperator(ts: seq<Token>, pos: nat, body: Items, g: Branches)
    requires Laid(ts, pos, body) && LaidGate(ts, pos + Size(body), g, HashElif)
    requires !StartsWithOperator(body) && (body.Gated? ==> body.gate.When?)
    ensures !At(ts, pos, AmpAmp) && !At(ts, pos, PipePipe)
  {
    if body.Nothing? {
      GateOpens(ts, pos, g);
    } else if body.Gated? {
      assert LaidGate(ts, pos, body.gate, HashIf);
    }
  }

  /** What the branch opened at `pos` emits, and where it ends. */
  ghost predicate BranchEmits(ts: seq<Token>, c: Config, pos: nat, selected: bool, x: seq<Token>, end: nat)
    requires OpensBranch(ts, pos)
  {
    match Condition(ts, c, pos)
    case Parsed(value, body, diags) =>
      && diags == 0
      && (if !selected && value then Range(ts, c, body, ZERO, AtBranchEnd) == Output(x, end, 0)
          else x == [] && FindEnd(ts, body, 0) == end)
  }

  lemma LastBranch(ts: seq<Token>, c: Config, pos: nat, selected: bool, x: seq<Token>, end: nat)
    requires OpensBranch(ts, pos) && BranchEmits(ts, c, pos, selected, x, end) && At(ts, end, HashEndif)
    ensures GateEmits(ts, c, pos, selected, x, end + 1)
  {
  }

  lemma MoreBranches(
    ts: seq<Token>, c: Config, pos: nat, selected: bool, x: seq<Token>, end: nat, y: seq<Token>, later: nat)
    requires OpensBranch(ts, pos) && BranchEmits(ts, c, pos, selected, x, end)
    requires At(ts, end, HashElif) || At(ts, end, HashElse)
    requires end <= |ts| && GateEmits(ts, c, end, selected || Condition(ts, c, pos).value, y, later)
    ensures GateEmits(ts, c, pos, selected, x + y, later)
  {
  }

  lemma TakenEmits(ts: seq<Token>, c: Config, pos: nat, body: nat, x: seq<Token>, end: nat)
    requires OpensBranch(ts, pos) && Condition(ts, c, pos) == Parsed(true, body, 0)
    requires Range(ts, c, body, ZERO, AtBranchEnd) == Output(x, end, 0)
    ensures BranchEmits(ts, c, pos, false, x, end)
  {
  }

  lemma SkippedEmits(ts: seq<Token>, c: Config, pos: nat, selected: bool, value: bool, body: nat, end: nat)
    requires OpensBranch(ts, pos) && Condition(ts, c, pos) == Parsed(value, body, 0)
    requires (selected || !value) && FindEnd(ts, body, 0) == end
    ensures BranchEmits(ts, c, pos, selected, [], end)
  {
  }

  lemma {:induction false} BodyTaken(ts: seq<Token>, c: Config, pos: nat, body: Items, next: nat)
    requires WellFormed(c, body) && TidyBody(c, body) && Laid(ts, pos, body) && next == pos + Size(body)
    requires At(ts, next, HashEndif) || At(ts, next, HashElse) || At(ts, next, HashElif)
    ensures pos <= |ts| && Range(ts, c, pos, ZERO, AtBranchEnd) == Output(Meaning(c, body), next, 0)
    decreases body, 5
  {
    RangeOnItems(ts, c, pos, body, ZERO, AtBranchEnd);
    assert Behind(pos, body, ZERO) == Spot(next, ZERO);
    BranchEnds(ts, c, pos, ZERO, Meaning(c, body), next);
  }

  lemma BodySkipped(ts: seq<Token>, pos: nat, body: Items, next: nat)
    requires Nested(body) && Laid(ts, pos, body) && next == pos + Size(body)
    requires At(ts, next, HashEndif) || At(ts, next, HashElse) || At(ts, next, HashElif)
    ensures pos <= |ts| && FindEnd(ts, pos, 0) == next
  {
    SkipItems(ts, pos, body, 0);
  }

  lemma {:induction false} BodyRuns(ts: seq<Token>, c: Config, pos: nat, g: Branches, directive: Kind, selected: bool)
    requires g.When? && Known(g.cond) && LaidGate(ts, pos, g, directive)
    requires !StartsWithOperator(g.body) && (g.body.Gated? ==> g.body.gate.When?)
    requires if !selected && Holds(c, g.cond) then WellFormed(c, g.body) && TidyBody(c, g.body) else Nested(g.body)
    requires directive == HashElif || directive == HashIf
    ensures OpensBranch(ts, pos)
    ensures BranchEmits(ts, c, pos, selected, if !selected && Holds(c, g.cond) then Meaning(c, g.body) else [],
                        pos + 1 + |Bare(g.cond)| + Size(g.body))
    decreases g, 0
  {
    var start := pos + 1 + |Bare(g.cond)|;
    ConditionReads(ts, c, pos, g, directive);
    GateOpens(ts, start + Size(g.body), g.next);
    BranchRuns(ts, c, pos, selected, Holds(c, g.cond), start, g.body);
  }

  lemma {:induction false} BranchRuns(
    ts: seq<Token>, c: Config, pos: nat, selected: bool, value: bool, start: nat, body: Items)
    requires OpensBranch(ts, pos) && Condition(ts, c, pos) == Parsed(value, start, 0) && Laid(ts, start, body)
    requires if !selected && value then WellFormed(c, body) && TidyBody(c, body) else Nested(body)
    requires var next := start + Size(body); At(ts, next, HashEndif) || At(ts, next, HashElse) || At(ts, next, HashElif)
    ensures BranchEmits(ts, c, pos, selected, if !selected && value then Meaning(c, body) else [], start + Size(body))
    decreases body, 7
  {
    if !selected && value {
      TakenBodyRuns(ts, c, pos, start, body);
    } else {
      SkippedBodyRuns(ts, c, pos, selected, value, start, body);
    }
  }

  lemma {:induction false} TakenBodyRuns(ts: seq<Token>, c: Config, pos: nat, start: nat, body: Items)
    requires OpensBranch(ts, pos) && Condition(ts, c, pos) == Parsed(true, start, 0)
    requires WellFormed(c, body) && TidyBody(c, body) && Laid(ts, start, body)
    requires var next := start + Size(body); At(ts, next, HashEndif) || At(ts, next, HashElse) || At(ts, next, HashElif)
    ensures BranchEmits(ts, c, pos, false, Meaning(c, body), start + Size(body))
    decreases body, 6
  {
    BodyTaken(ts, c, start, body, start + Size(body));
    TakenEmits(ts, c, pos, start, Meaning(c, body), start + Size(body));
  }

  lemma SkippedBodyRuns(
    ts: seq<Token>, c: Config, pos: nat, selected: bool, value: bool, start: nat, body: Items)
    requires OpensBranch(ts, pos) && Condition(ts, c, pos) == Parsed(value, start, 0) && (selected || !value)
    requires Nested(body) && Laid(ts, start, body)
    requires var next := start + Size(body); At(ts, next, HashEndif) || At(ts, next, HashElse) || At(ts, next, HashElif)
    ensures BranchEmits(ts, c, pos, selected, [], start + Size(body))
  {
    BodySkipped(ts, start, body, start + Size(body));
    SkippedEmits(ts, c, pos, selected, value, start, start + Size(body));
  }

  lemma {:induction false} WhenRuns(ts: seq<Token>, c: Config, pos: nat, g: Branches, directive: Kind, selected: bool)
    requires g.When? && WellFormedGate(c, g, selected) && (selected || TidyGate(c, g))
    requires LaidGate(ts, pos, g, directive)
    requires directive == HashElif || directive == HashIf
    ensures OpensBranch(ts, pos) && GateEmits(ts, c, pos, selected, Pending(c, g, selected), pos + GateSize(g))
    decreases g, 1
  {
    var next := pos + 1 + |Bare(g.cond)| + Size(g.body);
    var taken := !selected && Holds(c, g.cond);
    var x := if taken then Meaning(c, g.body) else [];
    ConditionReads(ts, c, pos, g, directive);
    BodyRuns(ts, c, pos, g, directive, selected);
    GateOpens(ts, next, g.next);
    PendingWhen(c, g, selected);
    if g.next.EndIf? {
      LastBranch(ts, c, pos, selected, x, next);
    } else {
      GateRuns(ts, c, next, g.next, HashElif, selected || taken);
      MoreBranches(ts, c, pos, selected, x, next, Pending(c, g.next, selected || taken), next + GateSize(g.next));
    }
  }

  lemma PendingWhen(c: Config, g: Branches, selected: bool)
    requires g.When? && WellFormedGate(c, g, selected)
    ensures var taken := !selected && Holds(c, g.cond);
            var x := if taken then Meaning(c, g.body) else [];
            && Pending(c, g, selected) == x + Pending(c, g.next, selected || taken)
            && (g.next.EndIf? ==> Pending(c, g, selected) == x)
  {
    if g.next.EndIf? {
      assert GateMeaning(c, g.next) == [];
    }
  }

  /** Preprocessing a whole file of items leaves exactly their meaning and reports nothing. The file may end
      inside brackets. */
  lemma PreprocessItems(c: Config, items: Items, eof: Token)
    requires WellFormed(c, items) && Tidy(c, items, ZERO) && eof.kind == Eof
    ensures Preprocess(Flat(items) + [eof], c) == (Meaning(c, items) + [eof], 0)
  {
    var ts := Flat(items) + [eof];
    assert Stands(ts, 0, Flat(items));
    FlatIsLaid(ts, 0, items);
    FlatSize(items);
    RangeOnItems(ts, c, 0, items, ZERO, AtEof);
    assert Range(ts, c, |Flat(items)|, EndDepths(items, ZERO), AtEof) == Output([], |Flat(items)|, 0);
    assert Meaning(c, items) + [] == Meaning(c, items);
  }

  // ---- What the depths count

  /** The plain tokens behind the last gate, after `sofar`. */
  function Tail(items: Items, sofar: seq<Token>): seq<Token> {
    match items
    case Nothing => sofar
    case Plain(token, rest) => Tail(rest, sofar + [token])
    case Gated(_, rest) => Tail(rest, [])
  }

  /** The depths behind the items are the numbers of brackets open since the last gate. */
  lemma {:induction false} EndDepthsCount(items: Items, sofar: seq<Token>)
    ensures EndDepths(items, DepthsAfter(sofar)) == DepthsAfter(Tail(items, sofar))
    decreases items
  {
    match items
    case Nothing =>
    case Plain(token, rest) =>
      assert (sofar + [token])[..|sofar|] == sofar;
      EndDepthsCount(rest, sofar + [token]);
    case Gated(_, rest) => EndDepthsCount(rest, []);
  }

  /** A branch that is taken ends outside all brackets: every bracket opened since its last gate is closed. */
  lemma TidyBodyIsBalanced(c: Config, body: Items)
    requires WellFormed(c, body) && TidyBody(c, body)
    ensures IsSurplus(Tail(body, []), LParen, RParen, 0)
    ensures IsSurplus(Tail(body, []), LBrace, RBrace, 0)
    ensures IsSurplus(Tail(body, []), LBracket, RBracket, 0)
  {
    EndDepthsCount(body, []);
    CountersCount(Tail(body, []));
  }
}
