/** The grammar of expressions (src/lparser.c, subexpr, and its priority table). */
module CodeGrammar {
  import opened Basics
  import opened CodeMachine
  import opened CodeExp
  import opened CodeExpr
  import opened CodeLayers

  /** Tokens; a name is given by the register of the local variable it stands for. */
  datatype Token =
    | TkNil | TkTrue | TkFalse | TkNumber(n: real) | TkName(reg: nat) | TkOpen | TkClose
    | TkNot | TkMinus | TkPlus | TkStar | TkSlash | TkPercent | TkCaret
    | TkEq | TkNe | TkLt | TkLe | TkGt | TkGe | TkAnd | TkOr | TkOther

  /** getunopr */
  function GetUnOpr(t: Token): Option<UnOp> {
    match t
    case TkNot => Some(Negate)
    case TkMinus => Some(Minus)
    case _ => None
  }

  /** getbinopr */
  function GetBinOpr(t: Token): Option<BinOp> {
    match t
    case TkPlus => Some(Numeric(Add))
    case TkMinus => Some(Numeric(Sub))
    case TkStar => Some(Numeric(Mul))
    case TkSlash => Some(Numeric(Div))
    case TkPercent => Some(Numeric(Mod))
    case TkCaret => Some(Numeric(Pow))
    case TkNe => Some(Relational(NE))
    case TkEq => Some(Relational(EQ))
    case TkLt => Some(Relational(LT))
    case TkLe => Some(Relational(LE))
    case TkGt => Some(Relational(GT))
    case TkGe => Some(Relational(GE))
    case TkAnd => Some(And)
    case TkOr => Some(Or)
    case _ => None
  }

  /** priority[op].left */
  function Left(op: BinOp): nat {
    match op
    case Numeric(a) => (match a case Add => 6 case Sub => 6 case Pow => 10 case _ => 7)
    case Relational(_) => 3
    case And => 2
    case Or => 1
  }

  /** priority[op].right: exponentiation is right associative. */
  function Right(op: BinOp): nat { if op == Numeric(Pow) then 9 else Left(op) }

  const UNARY_PRIORITY: nat := 8

  // ---------------------------------------------------------------- what the tokens denote

  function UnToken(u: UnOp): Token { if u == Minus then TkMinus else TkNot }

  function BinToken(op: BinOp): Token {
    match op
    case Numeric(a) =>
      (match a case Add => TkPlus case Sub => TkMinus case Mul => TkStar case Div => TkSlash case Mod => TkPercent case _ => TkCaret)
    case Relational(r) => (match r case EQ => TkEq case NE => TkNe case LT => TkLt case LE => TkLe case GT => TkGt case GE => TkGe)
    case And => TkAnd
    case Or => TkOr
  }

  /** The tokens of an expression, from left to right. */
  function Flatten(x: Expr): seq<Token> {
    match x
    case ENil => [TkNil]
    case ETrue => [TkTrue]
    case EFalse => [TkFalse]
    case ENum(n) => [TkNumber(n)]
    case ELocal(i) => [TkName(i)]
    case EParen(y) => [TkOpen] + Flatten(y) + [TkClose]
    case EUnary(u, y) => [UnToken(u)] + Flatten(y)
    case EBinary(op, y, z) => Flatten(y) + [BinToken(op)] + Flatten(z)
  }

  /** No operator at the right edge of the tree would rather have taken an operator of left priority p. */
  predicate RightEdge(x: Expr, p: nat) {
    match x
    case EUnary(_, y) => UNARY_PRIORITY >= p && RightEdge(y, p)
    case EBinary(op, _, z) => Right(op) >= p && RightEdge(z, p)
    case _ => true
  }

  /** All operators at the left edge of the tree bind stronger than q. */
  predicate LeftEdge(x: Expr, q: nat) {
    match x
    case EBinary(op, y, _) => Left(op) > q && LeftEdge(y, q)
    case _ => true
  }

  /** The tree follows the precedence of operators (section 2.5.6 of the Lua 5.1 Reference Manual). */
  predicate Precedence(x: Expr) {
    match x
    case EParen(y) => Precedence(y)
    case EUnary(_, y) => Precedence(y) && LeftEdge(y, UNARY_PRIORITY)
    case EBinary(op, y, z) => Precedence(y) && Precedence(z) && RightEdge(y, Left(op)) && LeftEdge(z, Right(op)) && op != Numeric(Unm)
    case _ => true
  }

  function NextOp(toks: seq<Token>, pos: nat): Option<BinOp> { if pos < |toks| then GetBinOpr(toks[pos]) else None }

  /** x is what the tokens pos..end denote, up to an operator that binds no stronger than `limit`. */
  ghost predicate Denotes(toks: seq<Token>, pos: nat, end: nat, x: Expr, limit: nat, nact: nat) {
    && pos < end <= |toks| && Flatten(x) == toks[pos..end] && Precedence(x) && LeftEdge(x, limit) && Scoped(x, nact)
    && (NextOp(toks, end).Some? ==> RightEdge(x, Left(NextOp(toks, end).value)))
  }

  /** simpleexp, for the expressions that need no code. */
  function SimpleExp(t: Token, nact: nat): Option<(Expr, Kind)> {
    match t
    case TkNil => Some((ENil, VNil))
    case TkTrue => Some((ETrue, VTrue))
    case TkFalse => Some((EFalse, VFalse))
    case TkNumber(n) => Some((ENum(n), VKNum(n)))
    case TkName(reg) => if reg < nact then Some((ELocal(reg), VLocal(reg))) else None
    case _ => None
  }

  // ---------------------------------------------------------------- the parser as a function

  /** What subexpr recognises from `pos` on, and where it stops. */
  function Parse(toks: seq<Token>, pos: nat, limit: nat, nact: nat): (p: Option<(Expr, nat)>)
    requires pos <= |toks|
    ensures p.Some? ==> pos < p.value.1 <= |toks|
    decreases |toks| - pos, 1
  {
    match ParseFirst(toks, pos, nact)
    case None => None
    case Some((x, mid)) => ParseRest(toks, mid, x, limit, nact)
  }

  function ParseFirst(toks: seq<Token>, pos: nat, nact: nat): (p: Option<(Expr, nat)>)
    requires pos <= |toks|
    ensures p.Some? ==> pos < p.value.1 <= |toks|
    decreases |toks| - pos, 0
  {
    if pos == |toks| then None
    else if GetUnOpr(toks[pos]).Some? then
      match Parse(toks, pos + 1, UNARY_PRIORITY, nact)
      case None => None
      case Some((y, end)) => Some((EUnary(GetUnOpr(toks[pos]).value, y), end))
    else if toks[pos] == TkOpen then
      match Parse(toks, pos + 1, 0, nact)
      case None => None
      case Some((y, end)) => if end < |toks| && toks[end] == TkClose then Some((EParen(y), end + 1)) else None
    else
      match SimpleExp(toks[pos], nact)
      case None => None
      case Some((y, _)) => Some((y, pos + 1))
  }

  function ParseRest(toks: seq<Token>, mid: nat, x: Expr, limit: nat, nact: nat): (p: Option<(Expr, nat)>)
    requires mid <= |toks|
    ensures p.Some? ==> mid <= p.value.1 <= |toks|
    decreases |toks| - mid, 2
  {
    if NextOp(toks, mid).Some? && Left(NextOp(toks, mid).value) > limit then
      var op := NextOp(toks, mid).value;
      match Parse(toks, mid + 1, Right(op), nact)
      case None => None
      case Some((y, end)) => ParseRest(toks, end, EBinary(op, x, y), limit, nact)
    else Some((x, mid))
  }

  // ---------------------------------------------------------------- it recognises exactly the expressions

  lemma UnaryDenotes(toks: seq<Token>, pos: nat, end: nat, u: UnOp, x: Expr, limit: nat, nact: nat)
    requires pos < |toks| && GetUnOpr(toks[pos]) == Some(u) && Denotes(toks, pos + 1, end, x, UNARY_PRIORITY, nact)
    requires NextOp(toks, end).Some? ==> Left(NextOp(toks, end).value) <= UNARY_PRIORITY
    ensures Denotes(toks, pos, end, EUnary(u, x), limit, nact)
  {
    UnaryTogether(toks, pos, end);
  }

  lemma ParenDenotes(toks: seq<Token>, pos: nat, end: nat, x: Expr, limit: nat, nact: nat)
    requires pos < |toks| && toks[pos] == TkOpen && Denotes(toks, pos + 1, end, x, 0, nact) && end < |toks| && toks[end] == TkClose
    ensures Denotes(toks, pos, end + 1, EParen(x), limit, nact)
  {
    ParenTogether(toks, pos, end);
  }

  lemma UnaryTogether(toks: seq<Token>, pos: nat, end: nat)
    requires pos < end <= |toks|
    ensures toks[pos..end] == [toks[pos]] + toks[pos + 1..end]
  {
  }

  lemma ParenTogether(toks: seq<Token>, pos: nat, end: nat)
    requires pos < end < |toks| && toks[pos] == TkOpen && toks[end] == TkClose
    ensures toks[pos..end + 1] == [TkOpen] + toks[pos + 1..end] + [TkClose]
  {
  }

  lemma ParenTokens(a: seq<Token>, f: seq<Token>, b: seq<Token>)
    requires a == [] && b == []
    ensures a + [TkOpen] + (f + [TkClose] + b) == [TkOpen] + f + [TkClose]
  {
  }

  /** Taking a range of tokens apart at one token, and putting it together. */
  lemma Apart(toks: seq<Token>, pos: nat, end: nat, a: seq<Token>, t: Token, b: seq<Token>)
    requires pos <= end <= |toks| && toks[pos..end] == a + [t] + b
    ensures var mid := pos + |a|; mid < end && toks[pos..mid] == a && toks[mid] == t && toks[mid + 1..end] == b
  {
    var f, mid := toks[pos..end], pos + |a|;
    assert |f| == |a| + 1 + |b|;
    assert f[..|a|] == a && f[|a|] == t && f[|a| + 1..] == b;
  }

  lemma Together(toks: seq<Token>, pos: nat, mid: nat, end: nat)
    requires pos <= mid < end <= |toks|
    ensures toks[pos..end] == toks[pos..mid] + [toks[mid]] + toks[mid + 1..end]
  {
  }

  lemma BinaryDenotes(toks: seq<Token>, pos: nat, mid: nat, end: nat, op: BinOp, x: Expr, y: Expr, limit: nat, nact: nat)
    requires Denotes(toks, pos, mid, x, limit, nact) && NextOp(toks, mid) == Some(op) && Left(op) > limit
    requires Denotes(toks, mid + 1, end, y, Right(op), nact) && (NextOp(toks, end).Some? ==> Left(NextOp(toks, end).value) <= Right(op))
    ensures Denotes(toks, pos, end, EBinary(op, x, y), limit, nact)
  {
    Together(toks, pos, mid, end);
    BinTokenOf(toks[mid]);
  }

  lemma BinTokenOf(t: Token)
    ensures GetBinOpr(t).Some? ==> BinToken(GetBinOpr(t).value) == t && GetBinOpr(t).value != Numeric(Unm)
  {
  }

  /** The next operator, if any, is left to the caller. */
  ghost predicate Stops(toks: seq<Token>, end: nat, limit: nat) { NextOp(toks, end).Some? ==> Left(NextOp(toks, end).value) <= limit }

  lemma {:induction false} ParseSound(toks: seq<Token>, pos: nat, limit: nat, nact: nat)
    requires pos <= |toks|
    ensures var p := Parse(toks, pos, limit, nact); p.Some? ==> Denotes(toks, pos, p.value.1, p.value.0, limit, nact) && Stops(toks, p.value.1, limit)
    decreases |toks| - pos, 1
  {
    FirstSound(toks, pos, limit, nact);
    var f := ParseFirst(toks, pos, nact);
    if f.Some? { RestSound(toks, pos, f.value.1, f.value.0, limit, nact); }
  }

  lemma {:induction false} FirstSound(toks: seq<Token>, pos: nat, limit: nat, nact: nat)
    requires pos <= |toks|
    ensures var p := ParseFirst(toks, pos, nact); p.Some? ==> Denotes(toks, pos, p.value.1, p.value.0, limit, nact)
    decreases |toks| - pos, 0
  {
    if pos < |toks| {
      var u := GetUnOpr(toks[pos]);
      if u.Some? {
        ParseSound(toks, pos + 1, UNARY_PRIORITY, nact);
        var p := Parse(toks, pos + 1, UNARY_PRIORITY, nact);
        if p.Some? { UnaryDenotes(toks, pos, p.value.1, u.value, p.value.0, limit, nact); }
      } else if toks[pos] == TkOpen {
        ParseSound(toks, pos + 1, 0, nact);
        var p := Parse(toks, pos + 1, 0, nact);
        if p.Some? && p.value.1 < |toks| && toks[p.value.1] == TkClose { ParenDenotes(toks, pos, p.value.1, p.value.0, limit, nact); }
      } else {
        assert toks[pos..pos + 1] == [toks[pos]];
      }
    }
  }

  lemma {:induction false} RestSound(toks: seq<Token>, pos: nat, mid: nat, x: Expr, limit: nat, nact: nat)
    requires Denotes(toks, pos, mid, x, limit, nact)
    ensures var p := ParseRest(toks, mid, x, limit, nact); p.Some? ==> Denotes(toks, pos, p.value.1, p.value.0, limit, nact) && Stops(toks, p.value.1, limit)
    decreases |toks| - mid, 2
  {
    var op := NextOp(toks, mid);
    if op.Some? && Left(op.value) > limit {
      ParseSound(toks, mid + 1, Right(op.value), nact);
      var p := Parse(toks, mid + 1, Right(op.value), nact);
      if p.Some? {
        BinaryDenotes(toks, pos, mid, p.value.1, op.value, x, p.value.0, limit, nact);
        RestSound(toks, pos, p.value.1, EBinary(op.value, x, p.value.0), limit, nact);
      }
    }
  }

  lemma {:induction false} LeftEdgeZero(x: Expr)
    ensures LeftEdge(x, 0)
  {
    if x.EBinary? { LeftEdgeZero(x.x); }
  }

  /** Every tree that follows the precedence rules is recognised from its tokens. */
  lemma {:induction false} ParseComplete(toks: seq<Token>, pos: nat, end: nat, x: Expr, limit: nat, nact: nat)
    requires Denotes(toks, pos, end, x, limit, nact)
    ensures Parse(toks, pos, limit, nact) == ParseRest(toks, end, x, limit, nact)
    decreases x, 1
  {
    match x
    case EParen(y) => ParenComplete(toks, pos, end, y, limit, nact);
    case EUnary(u, y) => UnaryComplete(toks, pos, end, u, y, limit, nact);
    case EBinary(op, y, z) => BinaryComplete(toks, pos, end, op, y, z, limit, nact);
    case _ => assert toks[pos] == toks[pos..end][0];
  }

  lemma {:induction false} ParenComplete(toks: seq<Token>, pos: nat, end: nat, y: Expr, limit: nat, nact: nat)
    requires Denotes(toks, pos, end, EParen(y), limit, nact)
    ensures Parse(toks, pos, limit, nact) == ParseRest(toks, end, EParen(y), limit, nact)
    decreases EParen(y), 0
  {
    ParenParts(toks, pos, end, y, limit, nact);
    ParseComplete(toks, pos + 1, end - 1, y, 0, nact);
    RestStops(toks, end - 1, y, 0, nact);
  }

  lemma ParenParts(toks: seq<Token>, pos: nat, end: nat, y: Expr, limit: nat, nact: nat)
    requires Denotes(toks, pos, end, EParen(y), limit, nact)
    ensures pos + 1 < end && toks[pos] == TkOpen && toks[end - 1] == TkClose && Denotes(toks, pos + 1, end - 1, y, 0, nact)
  {
    FlattenNonEmpty(y);
    LeftEdgeZero(y);
    ParenApart(toks, pos, end, Flatten(y));
  }

  lemma ParenApart(toks: seq<Token>, pos: nat, end: nat, f: seq<Token>)
    requires pos <= end <= |toks| && toks[pos..end] == [TkOpen] + f + [TkClose]
    ensures pos + 1 < end && toks[pos] == TkOpen && toks[end - 1] == TkClose && toks[pos + 1..end - 1] == f
  {
    ParenTokens([], f, []);
    Apart(toks, pos, end, [], TkOpen, f + [TkClose] + []);
    Apart(toks, pos + 1, end, f, TkClose, []);
  }

  lemma BinaryParts(toks: seq<Token>, pos: nat, end: nat, op: BinOp, y: Expr, z: Expr, limit: nat, nact: nat) returns (mid: nat)
    requires Denotes(toks, pos, end, EBinary(op, y, z), limit, nact)
    ensures Denotes(toks, pos, mid, y, limit, nact) && NextOp(toks, mid) == Some(op) && mid + 1 < end
    ensures Denotes(toks, mid + 1, end, z, Right(op), nact) && Stops(toks, end, Right(op))
  {
    mid := pos + |Flatten(y)|;
    FlattenNonEmpty(y);
    FlattenNonEmpty(z);
    Apart(toks, pos, end, Flatten(y), BinToken(op), Flatten(z));
    assert GetBinOpr(BinToken(op)) == Some(op);
  }

  lemma {:induction false} UnaryComplete(toks: seq<Token>, pos: nat, end: nat, u: UnOp, y: Expr, limit: nat, nact: nat)
    requires Denotes(toks, pos, end, EUnary(u, y), limit, nact)
    ensures Parse(toks, pos, limit, nact) == ParseRest(toks, end, EUnary(u, y), limit, nact)
    decreases EUnary(u, y), 0
  {
    FlattenNonEmpty(y);
    assert [] + [UnToken(u)] + Flatten(y) == [UnToken(u)] + Flatten(y);
    Apart(toks, pos, end, [], UnToken(u), Flatten(y));
    ParseComplete(toks, pos + 1, end, y, UNARY_PRIORITY, nact);
    RestStops(toks, end, y, UNARY_PRIORITY, nact);
  }

  lemma {:induction false} BinaryComplete(toks: seq<Token>, pos: nat, end: nat, op: BinOp, y: Expr, z: Expr, limit: nat, nact: nat)
    requires Denotes(toks, pos, end, EBinary(op, y, z), limit, nact)
    ensures Parse(toks, pos, limit, nact) == ParseRest(toks, end, EBinary(op, y, z), limit, nact)
    decreases EBinary(op, y, z), 0
  {
    var mid := BinaryParts(toks, pos, end, op, y, z, limit, nact);
    ParseComplete(toks, pos, mid, y, limit, nact);
    ParseComplete(toks, mid + 1, end, z, Right(op), nact);
    RestStops(toks, end, z, Right(op), nact);
    RestStep(toks, mid, y, limit, nact, op, z, end);
  }

  lemma RestStops(toks: seq<Token>, end: nat, x: Expr, limit: nat, nact: nat)
    requires end <= |toks| && Stops(toks, end, limit)
    ensures ParseRest(toks, end, x, limit, nact) == Some((x, end))
  {
  }

  lemma RestStep(toks: seq<Token>, mid: nat, x: Expr, limit: nat, nact: nat, op: BinOp, y: Expr, end: nat)
    requires mid < |toks| && NextOp(toks, mid) == Some(op) && Left(op) > limit && Parse(toks, mid + 1, Right(op), nact) == Some((y, end))
    ensures ParseRest(toks, mid, x, limit, nact) == ParseRest(toks, end, EBinary(op, x, y), limit, nact)
  {
  }

  lemma FlattenNonEmpty(x: Expr)
    ensures |Flatten(x)| > 0
  {
  }

  // ---------------------------------------------------------------- the priorities are those of the layers

  /** The priorities of the topmost operator. */
  ghost function TopLeft(x: Expr): nat { if x.EBinary? then Left(x.op) else 99 }

  ghost function TopRight(x: Expr): nat { if x.EBinary? then Right(x.op) else if x.EUnary? then UNARY_PRIORITY else 99 }

  ghost predicate IsPriority(p: nat) { p == 1 || p == 2 || p == 3 || p == 6 || p == 7 || p == 10 }

  /** In a tree that follows the priorities only the topmost operator matters for what is around it. */
  lemma {:induction false} EdgeTop(x: Expr)
    requires Precedence(x)
    ensures forall q: nat :: q <= 9 ==> (LeftEdge(x, q) <==> TopLeft(x) > q)
    ensures forall p: nat :: IsPriority(p) ==> (RightEdge(x, p) <==> TopRight(x) >= p)
  {
    match x
    case EUnary(_, y) => EdgeTop(y);
    case EBinary(op, y, z) =>
      EdgeTop(y);
      EdgeTop(z);
      assert IsPriority(Left(op)) && Right(op) <= 9;
    case _ =>
  }

  /** What each layer has, in terms of priorities. */
  ghost predicate InLayers(x: Expr) {
    && (Atom(x) <==> Precedence(x) && TopRight(x) >= 10)
    && (UnaryLayer(x) <==> Precedence(x) && TopLeft(x) >= 10)
    && (ProductLayer(x) <==> Precedence(x) && TopLeft(x) >= 7)
    && (SumLayer(x) <==> Precedence(x) && TopLeft(x) >= 6)
    && (RelationLayer(x) <==> Precedence(x) && TopLeft(x) >= 3)
    && (AndLayer(x) <==> Precedence(x) && TopLeft(x) >= 2)
    && (Layered(x) <==> Precedence(x))
  }

  /** A binary operator follows the priorities if the topmost operators of its operands do. */
  lemma BinaryEdges(op: BinOp, y: Expr, z: Expr)
    ensures Precedence(EBinary(op, y, z)) <==> op != Numeric(Unm) && Precedence(y) && Precedence(z) && TopRight(y) >= Left(op) && TopLeft(z) > Right(op)
  {
    assert IsPriority(Left(op)) && Right(op) <= 9;
    if Precedence(y) { EdgeTop(y); }
    if Precedence(z) { EdgeTop(z); }
  }

  lemma NumericLayers(a: ArithOp, y: Expr, z: Expr)
    requires InLayers(y) && InLayers(z)
    ensures InLayers(EBinary(Numeric(a), y, z))
  {
    BinaryEdges(Numeric(a), y, z);
    match a
    case Pow =>
    case Mul =>
    case Div =>
    case Mod =>
    case Add =>
    case Sub =>
    case Unm =>
  }

  lemma OtherLayers(op: BinOp, y: Expr, z: Expr)
    requires InLayers(y) && InLayers(z) && !op.Numeric?
    ensures InLayers(EBinary(op, y, z))
  {
    BinaryEdges(op, y, z);
    match op
    case Relational(_) =>
    case And =>
    case Or =>
  }

  /** The priorities are those of the layers. */
  lemma {:induction false} LayersIff(x: Expr)
    ensures InLayers(x)
  {
    match x
    case EParen(y) => LayersIff(y);
    case EUnary(_, y) =>
      LayersIff(y);
      if Precedence(y) { EdgeTop(y); }
    case EBinary(op, y, z) =>
      LayersIff(y);
      LayersIff(z);
      if op.Numeric? { NumericLayers(op.op, y, z); } else { OtherLayers(op, y, z); }
    case _ =>
  }

  /** subexpr recognises exactly the token sequences of expressions, read by the precedence of operators. */
  lemma ParseExact(toks: seq<Token>, x: Expr, nact: nat)
    ensures Parse(toks, 0, 0, nact) == Some((x, |toks|)) <==> Flatten(x) == toks && Layered(x) && Scoped(x, nact)
  {
    LayersIff(x);
    if Parse(toks, 0, 0, nact) == Some((x, |toks|)) {
      ParseSound(toks, 0, 0, nact);
      assert toks[0..|toks|] == toks;
    }
    if Flatten(x) == toks && Precedence(x) && Scoped(x, nact) {
      assert toks[0..|toks|] == toks;
      LeftEdgeZero(x);
      FlattenNonEmpty(x);
      ParseComplete(toks, 0, |toks|, x, 0, nact);
    }
  }

  /** The precedence of operators leaves one reading only. */
  lemma OneReading(x: Expr, y: Expr, nact: nat)
    requires Flatten(x) == Flatten(y) && Layered(x) && Layered(y) && Scoped(x, nact) && Scoped(y, nact)
    ensures x == y
  {
    ParseExact(Flatten(x), x, nact);
    ParseExact(Flatten(x), y, nact);
  }

  // ---------------------------------------------------------------- registers

  function Max(a: nat, b: nat): nat { if a > b then a else b }

  /** So many registers are enough for the temporary values. */
  function Need(x: Expr): nat {
    match x
    case EParen(y) => Need(y)
    case EUnary(_, y) => Need(y)
    case EBinary(_, y, z) => Max(3, Max(Need(y), Need(z) + 1))
    case _ => 1
  }

  /** No more are needed than second operands are nested, and two. */
  lemma {:induction false} NeedSmall(x: Expr)
    ensures Need(x) <= RightNesting(x) + 2
  {
    match x
    case EParen(y) => NeedSmall(y);
    case EUnary(_, y) => NeedSmall(y);
    case EBinary(_, y, z) => NeedSmall(y); NeedSmall(z);
    case _ =>
  }

  lemma {:induction false} NeedPositive(x: Expr)
    ensures Need(x) >= 1
  {
    match x
    case EParen(y) => NeedPositive(y);
    case EUnary(_, y) => NeedPositive(y);
    case _ =>
  }

  /** What is recognised later needs no fewer registers. */
  lemma {:induction false} NeedGrows(toks: seq<Token>, mid: nat, x: Expr, limit: nat, nact: nat)
    requires mid <= |toks|
    ensures var p := ParseRest(toks, mid, x, limit, nact); p.Some? ==> Need(x) <= Need(p.value.0)
    decreases |toks| - mid
  {
    var op := NextOp(toks, mid);
    if op.Some? && Left(op.value) > limit {
      var p := Parse(toks, mid + 1, Right(op.value), nact);
      if p.Some? { NeedGrows(toks, p.value.1, EBinary(op.value, x, p.value.0), limit, nact); }
    }
  }
}
