/** Expressions (sections 2.5.1 to 2.5.3 of the Lua 5.1 Reference Manual), their values, and what it means
    that code computes them. */
module CodeExpr {
  import opened Basics
  import opened CodeMachine
  import opened CodeLists
  import opened CodeRun
  import opened CodeState
  import opened CodeExp
  import opened CodeValue
  import opened CodeOps

  datatype Relation = EQ | NE | LT | LE | GT | GE

  datatype BinOp = Numeric(op: ArithOp) | Relational(rel: Relation) | And | Or

  datatype UnOp = Minus | Negate

  datatype Expr =
    | ENil | ETrue | EFalse
    | ENum(n: real)
    | ELocal(i: nat)
    | EUnary(u: UnOp, x: Expr)
    | EBinary(op: BinOp, x: Expr, y: Expr)
    | EParen(x: Expr)

  // ---------------------------------------------------------------- values

  /** Arithmetic and comparison of two values; `None` is a run-time error. */
  function BinaryValue(env: Env, op: BinOp, v: Value, w: Value): Option<Value> {
    match op
    case Numeric(a) => ArithValue(env, a, v, w)
    case Relational(EQ) => Some(Bool(v == w))
    case Relational(NE) => Some(Bool(v != w))
    case Relational(LT) => if v.Num? && w.Num? then Some(Bool(v.n < w.n)) else None
    case Relational(LE) => if v.Num? && w.Num? then Some(Bool(v.n <= w.n)) else None
    case Relational(GT) => if v.Num? && w.Num? then Some(Bool(v.n > w.n)) else None
    case Relational(GE) => if v.Num? && w.Num? then Some(Bool(v.n >= w.n)) else None
    case And => Some(if IsFalse(v) then v else w)
    case Or => Some(if IsFalse(v) then w else v)
  }

  function UnaryValue(env: Env, u: UnOp, v: Value): Option<Value> {
    match u
    case Minus => ArithValue(env, Unm, v, v)
    case Negate => Some(Bool(IsFalse(v)))
  }

  /** Direct evaluation. The second operand of `and` and `or` is evaluated only if necessary. */
  function Eval(env: Env, x: Expr, r: Regs): Option<Value> {
    match x
    case ENil => Some(Nil)
    case ETrue => Some(Bool(true))
    case EFalse => Some(Bool(false))
    case ENum(n) => Some(Num(n))
    case ELocal(i) => Some(Get(r, i))
    case EParen(y) => Eval(env, y, r)
    case EUnary(u, y) => (match Eval(env, y, r) case None => None case Some(v) => UnaryValue(env, u, v))
    case EBinary(op, y, z) =>
      match Eval(env, y, r)
      case None => None
      case Some(v) =>
        if (op == And && IsFalse(v)) || (op == Or && !IsFalse(v)) then Some(v)
        else match Eval(env, z, r) case None => None case Some(w) => BinaryValue(env, op, v, w)
  }

  /** Only local variables below n occur. */
  predicate Scoped(x: Expr, n: nat) {
    match x
    case ELocal(i) => i < n
    case EParen(y) => Scoped(y, n)
    case EUnary(_, y) => Scoped(y, n)
    case EBinary(_, y, z) => Scoped(y, n) && Scoped(z, n)
    case _ => true
  }

  lemma {:induction false} EvalAgree(env: Env, x: Expr, n: nat, r: Regs, r': Regs)
    requires Scoped(x, n) && Agree(n, r, r')
    ensures Eval(env, x, r') == Eval(env, x, r)
  {
    match x
    case EParen(y) => EvalAgree(env, y, n, r, r');
    case EUnary(_, y) => EvalAgree(env, y, n, r, r');
    case EBinary(_, y, z) => EvalAgree(env, y, n, r, r'); EvalAgree(env, z, n, r, r');
    case _ =>
  }

  // ---------------------------------------------------------------- code for an expression

  /** What the expression should come to, if the code before it had outcome `o`. */
  ghost function Expect(env: Env, o: Outcome, x: Expr): Meaning {
    match o
    case End(r) => (match Eval(env, x, r) case None => Fail case Some(v) => Val(r, v))
    case AtJump(j, r) => Out(j, r)
    case Error => Fail
    case Stuck => Bad
  }

  /** The code emitted since s0 computes x, in every environment and for all registers, without changing
      registers below n. */
  ghost predicate Computes(s0: Unfinished, x: Expr, s: Unfinished, k: Kind, l: Lists, n: nat, ks: Env, nact: nat) {
    forall env: Env, r: Regs :: Extends(ks, env) && Entry(r, nact) ==> Like(n, Expect(env, Run(env, s0, r), x), Den(env, s, k, l, r))
  }

  lemma ComputesTrans(s0: Unfinished, x: Expr, s: Unfinished, k: Kind, l: Lists, s': Unfinished, k': Kind, l': Lists, n: nat, ks: Env, ks': Env, nact: nat)
    requires Computes(s0, x, s, k, l, n, ks, nact) && Same(s, k, l, s', k', l', n, ks', nact) && Extends(ks, ks')
    ensures Computes(s0, x, s', k', l', n, ks', nact)
  {
    forall env: Env, r: Regs | Extends(ks', env) && Entry(r, nact) ensures Like(n, Expect(env, Run(env, s0, r), x), Den(env, s', k', l', r)) {
      assert Like(n, Expect(env, Run(env, s0, r), x), Den(env, s, k, l, r));
      assert Like(n, Den(env, s, k, l, r), Den(env, s', k', l', r));
    }
  }

  /** The descriptor of a constant or a local variable. */
  ghost predicate Leaf(x: Expr, k: Kind) {
    match x
    case ENil => k == VNil
    case ETrue => k == VTrue
    case EFalse => k == VFalse
    case ENum(n) => k == VKNum(n)
    case ELocal(i) => k == VLocal(i)
    case _ => false
  }

  lemma LeafComputes(s: Unfinished, x: Expr, k: Kind, n: nat, ks: Env, nact: nat)
    requires Leaf(x, k)
    ensures Computes(s, x, s, k, NoLists, n, ks, nact)
  {
    forall env: Env, r: Regs | Extends(ks, env) && Entry(r, nact) ensures Like(n, Expect(env, Run(env, s, r), x), Den(env, s, k, NoLists, r)) { }
  }

  // ---------------------------------------------------------------- two operands

  /** Kinds whose value does not depend on code still to be placed. */
  predicate Stable(k: Kind) { k.VKNum? || k.VK? || k.VNonReloc? }

  ghost function StableValue(env: Env, k: Kind, r: Regs): Value
    requires Stable(k)
  {
    if k.VKNum? then Num(k.nval) else if k.VK? then Get(env.k, k.info) else Get(r, k.info)
  }

  /** The operation on a first operand that is at hand and the second operand's meaning. */
  ghost function Combined(env: Env, op: BinOp, k: Kind, d: Meaning): Meaning
    requires Stable(k)
  {
    if d.Val? then match BinaryValue(env, op, StableValue(env, k, d.regs), d.v) case None => Fail case Some(v) => Val(d.regs, v) else d
  }

  /** The register of the first operand is below those the second one may use. */
  predicate Below(k: Kind, n: nat) { k.VNonReloc? ==> k.info < n }

  lemma PairLike(env: Env, s0: Unfinished, x: Expr, y: Expr, op: BinOp, s2: Unfinished, k1: Kind, s3: Unfinished, k2: Kind, l2: Lists, n: nat, m: nat, nact: nat, r: Regs)
    requires Stable(k1) && Below(k1, m) && n <= m && nact <= n && op != And && op != Or && Scoped(y, nact)
    requires Like(n, Expect(env, Run(env, s0, r), x), Den(env, s2, k1, NoLists, r))
    requires Like(m, Expect(env, Run(env, s2, r), y), Den(env, s3, k2, l2, r))
    ensures Like(n, Expect(env, Run(env, s0, r), EBinary(op, x, y)), Combined(env, op, k1, Den(env, s3, k2, l2, r)))
  {
    var o0, o2 := Run(env, s0, r), Run(env, s2, r);
    if o0.End? && Eval(env, x, o0.regs).Some? && o2.End? {
      EvalAgree(env, y, nact, o0.regs, o2.regs);
      var d := Den(env, s3, k2, l2, r);
      if d.Val? { assert k1.VNonReloc? ==> Get(d.regs, k1.info) == Get(o2.regs, k1.info); }
    }
  }

  /** For every run. */
  ghost predicate CombinesAll(s0: Unfinished, z: Expr, op: BinOp, k1: Kind, s3: Unfinished, k2: Kind, l2: Lists, n: nat, ks: Env, nact: nat)
    requires Stable(k1)
  {
    forall env: Env, r: Regs :: Extends(ks, env) && Entry(r, nact) ==> Like(n, Expect(env, Run(env, s0, r), z), Combined(env, op, k1, Den(env, s3, k2, l2, r)))
  }

  lemma PairAll(s0: Unfinished, x: Expr, y: Expr, op: BinOp, s2: Unfinished, k1: Kind, s3: Unfinished, k2: Kind, l2: Lists, n: nat, m: nat, ks2: Env, ks: Env, nact: nat)
    requires Stable(k1) && Below(k1, m) && n <= m && nact <= n && op != And && op != Or && Scoped(y, nact)
    requires Computes(s0, x, s2, k1, NoLists, n, ks2, nact) && Extends(ks2, ks) && Computes(s2, y, s3, k2, l2, m, ks, nact)
    ensures CombinesAll(s0, EBinary(op, x, y), op, k1, s3, k2, l2, n, ks, nact)
  {
    forall env: Env, r: Regs | Extends(ks, env) && Entry(r, nact)
      ensures Like(n, Expect(env, Run(env, s0, r), EBinary(op, x, y)), Combined(env, op, k1, Den(env, s3, k2, l2, r)))
    {
      assert Like(n, Expect(env, Run(env, s0, r), x), Den(env, s2, k1, NoLists, r));
      assert Like(m, Expect(env, Run(env, s2, r), y), Den(env, s3, k2, l2, r));
      PairLike(env, s0, x, y, op, s2, k1, s3, k2, l2, n, m, nact, r);
    }
  }

  // ---------------------------------------------------------------- and, or

  ghost function Joined2(l: Lists, x: seq<nat>, side: bool): Lists { if side then Lists(l.t + x, l.f) else Lists(l.t, l.f + x) }

  /** Exits of the first operand become exits of the whole expression. */
  lemma JoinDen(env: Env, s: Unfinished, k: Kind, l: Lists, code': seq<Instr>, x: seq<nat>, side: bool, r: Regs)
    requires KindOk(s, k) && Wf(Pre(s, k)) && Exits(l) <= s.hold && Elems(x) <= s.hold && Elems(x) !! Exits(l) && |r| == MAXSTACK
    requires Rewired(s.code, code', Elems(SideOf(l, side)))
    ensures var d := Den(env, s, k, l, r);
      Den(env, s.(code := code'), k, Joined2(l, x, side), r) ==
        if d.Out? && d.j in x then Sided(JumpValue(s.code, d.j, d.regs, side), d.regs, side) else d
  {
    RewiredPre(s, k, code', Elems(SideOf(l, side)));
    NeutralRun(env, Pre(s, k), Pre(s.(code := code'), k).code, r);
    assert Pre(s.(code := code'), k) == Pre(s, k).(code := Pre(s.(code := code'), k).code);
    var o := Run(env, Pre(s, k), r);
    if o.AtJump? {
      ExitApart(l, x, o.j);
      RewiredValue(s.code, code', Elems(SideOf(l, side)), o.j, o.regs, true);
      RewiredValue(s.code, code', Elems(SideOf(l, side)), o.j, o.regs, false);
    }
  }

  lemma ExitApart(l: Lists, x: seq<nat>, j: nat)
    requires Elems(x) !! Exits(l)
    ensures j in x ==> j !in l.t && j !in l.f
  {
    assert (j in l.t <==> j in Elems(l.t)) && (j in l.f <==> j in Elems(l.f)) && (j in x <==> j in Elems(x));
  }

  /** Changing links of pending jumps does not touch the instructions the descriptor stands for. */
  lemma RewiredPre(s: Unfinished, k: Kind, code': seq<Instr>, x: set<nat>)
    requires KindOk(s, k) && Wf(Pre(s, k)) && x <= s.hold && Rewired(s.code, code', x)
    ensures Neutral(Pre(s, k).code, Pre(s.(code := code'), k).code, Pend(Pre(s, k)))
    ensures KindOk(s.(code := code'), k) && Wf(Pre(s.(code := code'), k))
    ensures forall env, r :: KindValue(env, code', k, r) == KindValue(env, s.code, k, r)
  {
    var p := Pre(s, k);
    forall j | j in x ensures j < |p.code| { assert NoTarget(p.code, j); }
    NeutralWf(p, Pre(s.(code := code'), k).code);
    assert Pre(s.(code := code'), k) == p.(code := Pre(s.(code := code'), k).code);
  }

  /** `x and y` (side false) and `x or y` (side true). */
  lemma LogicLike(env: Env, s0: Unfinished, x: Expr, y: Expr, side: bool, d1: Meaning, s2: Unfinished, xl: seq<nat>, s3: Unfinished, k: Kind, l: Lists, code': seq<Instr>, n: nat, nact: nat, r: Regs)
    requires |r| == MAXSTACK && nact <= n && Scoped(y, nact)
    requires Like(n, Expect(env, Run(env, s0, r), x), d1) && Branches(env, d1, s2, xl, side, n, r)
    requires Like(n, Expect(env, Run(env, s2, r), y), Den(env, s3, k, l, r))
    requires KindOk(s3, k) && Wf(Pre(s3, k)) && Exits(l) <= s3.hold && Elems(xl) <= s3.hold && Elems(xl) !! Exits(l)
    requires Rewired(s3.code, code', Elems(SideOf(l, side))) && Frame(s2.code, s3.code, Elems(xl))
    requires Run(env, s0, r).AtJump? ==> Run(env, s0, r).j !in xl
    ensures Like(n, Expect(env, Run(env, s0, r), EBinary(if side then Or else And, x, y)), Den(env, s3.(code := code'), k, Joined2(l, xl, side), r))
  {
    JoinDen(env, s3, k, l, code', xl, side, r);
    var o2 := Run(env, s2, r);
    if o2.AtJump? && o2.j in xl { assert o2.j in Elems(xl) && Kept(s2.code, s3.code, o2.j); }
    LogicCases(env, Run(env, s0, r), x, y, side, d1, s2.code, o2, xl, s3.code, Den(env, s3, k, l, r), n, nact);
  }

  /** The same on outcomes: o0 before the first operand, o2 between the operands, d3 after the second. */
  lemma LogicCases(env: Env, o0: Outcome, x: Expr, y: Expr, side: bool, d1: Meaning, code2: seq<Instr>, o2: Outcome, xl: seq<nat>, code3: seq<Instr>, d3: Meaning, n: nat, nact: nat)
    requires nact <= n && Scoped(y, nact) && (o0.AtJump? ==> o0.j !in xl)
    requires Like(n, Expect(env, o0, x), d1) && BranchOutcome(d1, code2, o2, xl, side, n) && Like(n, Expect(env, o2, y), d3)
    requires o2.AtJump? && o2.j in xl ==> JumpValue(code3, o2.j, o2.regs, side) == JumpValue(code2, o2.j, o2.regs, side)
    ensures var dj := if d3.Out? && d3.j in xl then Sided(JumpValue(code3, d3.j, d3.regs, side), d3.regs, side) else d3;
      Like(n, Expect(env, o0, EBinary(if side then Or else And, x, y)), dj)
  {
    if o0.End? && o2.End? && Eval(env, x, o0.regs).Some? { EvalAgree(env, y, nact, o0.regs, o2.regs); }
  }
}
