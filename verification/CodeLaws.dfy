/** What expressions mean (sections 2.5.1 to 2.5.3 of the Lua 5.1 Reference Manual), one law for each kind. Together
    the laws fix Eval. */
module CodeLaws {
  import opened Basics
  import opened CodeMachine
  import opened CodeExpr

  /** Only nil and false are false. */
  predicate Falsy(v: Value) { match v case Nil => true case Bool(b) => !b case Num(_) => false }

  lemma LeafLaws(env: Env, n: real, i: nat, x: Expr, r: Regs)
    ensures Eval(env, ENil, r) == Some(Nil) && Eval(env, ETrue, r) == Some(Bool(true)) && Eval(env, EFalse, r) == Some(Bool(false))
    ensures Eval(env, ENum(n), r) == Some(Num(n)) && Eval(env, EParen(x), r) == Eval(env, x, r)
    ensures i < |r| ==> Eval(env, ELocal(i), r) == Some(r[i])
  {
  }

  /** Operators are strict except for the second operand of `and` and `or`. */
  lemma ErrorLaws(env: Env, u: UnOp, op: BinOp, x: Expr, y: Expr, r: Regs)
    ensures Eval(env, x, r) == None ==> Eval(env, EUnary(u, x), r) == None && Eval(env, EBinary(op, x, y), r) == None
    ensures op != And && op != Or && Eval(env, y, r) == None ==> Eval(env, EBinary(op, x, y), r) == None
  {
  }

  /** Arithmetic works on numbers, with the first operand first. */
  lemma ArithmeticLaw(env: Env, op: ArithOp, x: Expr, y: Expr, v: Value, w: Value, r: Regs)
    requires Eval(env, x, r) == Some(v) && Eval(env, y, r) == Some(w)
    ensures Eval(env, EBinary(Numeric(op), x, y), r) == if v.Num? && w.Num? then Some(Num(env.num(op, v.n, w.n))) else None
    ensures Eval(env, EUnary(Minus, x), r) == if v.Num? then Some(Num(env.num(Unm, v.n, v.n))) else None
  {
  }

  /** Any values can be compared for equality, and numbers for order. */
  lemma RelationLaw(env: Env, x: Expr, y: Expr, v: Value, w: Value, r: Regs)
    requires Eval(env, x, r) == Some(v) && Eval(env, y, r) == Some(w)
    ensures Eval(env, EBinary(Relational(EQ), x, y), r) == Some(Bool(v == w))
    ensures Eval(env, EBinary(Relational(NE), x, y), r) == Some(Bool(v != w))
    ensures v.Num? && w.Num? ==>
      && Eval(env, EBinary(Relational(LT), x, y), r) == Some(Bool(v.n < w.n)) && Eval(env, EBinary(Relational(LE), x, y), r) == Some(Bool(v.n <= w.n))
      && Eval(env, EBinary(Relational(GT), x, y), r) == Some(Bool(w.n < v.n)) && Eval(env, EBinary(Relational(GE), x, y), r) == Some(Bool(w.n <= v.n))
    ensures !(v.Num? && w.Num?) ==> forall rel :: rel != EQ && rel != NE ==> Eval(env, EBinary(Relational(rel), x, y), r) == None
  {
  }

  /** `not` always gives a boolean; `and` and `or` give one of their operands, and the second one only if
      the first does not decide. */
  lemma LogicLaw(env: Env, x: Expr, y: Expr, v: Value, r: Regs)
    requires Eval(env, x, r) == Some(v)
    ensures Eval(env, EUnary(Negate, x), r) == Some(Bool(Falsy(v)))
    ensures Eval(env, EBinary(And, x, y), r) == if Falsy(v) then Some(v) else Eval(env, y, r)
    ensures Eval(env, EBinary(Or, x, y), r) == if Falsy(v) then Eval(env, y, r) else Some(v)
  {
  }
}
