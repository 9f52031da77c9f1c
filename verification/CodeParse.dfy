/** The expression parser that drives the code generator (src/lparser.c, subexpr), and the main theorem:
    the code it produces computes the expression that its input denotes. */
module CodeParse {
  import opened Basics
  import opened CodeMachine
  import opened CodeLists
  import opened CodeRun
  import opened CodeState
  import opened CodeGen
  import opened CodeExp
  import opened CodeValue
  import opened CodeOps
  import opened CodeEmit
  import opened CodeExpr
  import opened CodeArith
  import opened CodeOperators
  import opened CodeLayers
  import opened CodeGrammar

  // ---------------------------------------------------------------- subexpr

  lemma LeafCompiled(s: Unfinished, ks: Env, x: Expr, k: Kind, base: nat, nact: nat)
    requires Wf(s) && Leaf(x, k) && nact <= base <= MAXSTACK && Scoped(x, nact)
    ensures Compiled(s, ks, x, s, ExpDesc(k, NO_JUMP, NO_JUMP), NoLists, ks, base, base, nact)
  {
    LeafComputes(s, x, k, base, ks, nact);
    forall j | j in s.hold ensures Kept(s.code, s.code, j) { assert NoTarget(s.code, j); }
    MovesSame(s, s, NoLists);
  }

  lemma ParenCompiled(s0: Unfinished, ks0: Env, x: Expr, s: Unfinished, e: ExpDesc, l: Lists, ks: Env, base: nat, free: nat, nact: nat)
    requires Compiled(s0, ks0, x, s, e, l, ks, base, free, nact)
    ensures Compiled(s0, ks0, EParen(x), s, DischargeVars(e), l, ks, base, free, nact)
  {
    VarsConvert(s, e, l, ks, base, nact);
    ComputesTrans(s0, x, s, e.k, l, s, DischargeVars(e).k, l, base, ks, ks, nact);
    forall env: Env, r: Regs | Extends(ks, env) && Entry(r, nact)
      ensures Like(base, Expect(env, Run(env, s0, r), EParen(x)), Den(env, s, DischargeVars(e).k, l, r))
    {
      assert Like(base, Expect(env, Run(env, s0, r), x), Den(env, s, DischargeVars(e).k, l, r));
    }
  }

  /** subexpr: `simpleexp` or a unary operator with its operand, then binary operators that bind stronger
      than `limit`. It succeeds on every expression for which there are enough registers. */
  method Subexpr(fs: FuncState, toks: seq<Token>, pos: nat, limit: nat) returns (ok: bool, e: ExpDesc, end: nat, ghost x: Expr, ghost l: Lists)
    requires Ready(fs) && Wf(fs.View()) && fs.nactvar <= fs.freereg <= MAXSTACK && pos <= |toks|
    modifies fs
    ensures ok ==>
      && Ready(fs) && Parse(toks, pos, limit, fs.nactvar) == Some((x, end))
      && Compiled(old(fs.View()), old(fs.Consts()), x, fs.View(), e, l, fs.Consts(), old(fs.freereg), fs.freereg, fs.nactvar)
    ensures var p := Parse(toks, pos, limit, fs.nactvar); p.Some? && old(fs.freereg) + Need(p.value.0) < MAXSTACK ==> ok
    decreases |toks| - pos, 2
  {
    ghost var s0, ks0, base := fs.View(), fs.Consts(), fs.freereg;
    ok, e, end, x, l := First(fs, toks, pos);
    ghost var f := ParseFirst(toks, pos, fs.nactvar);
    if f.Some? { NeedGrows(toks, f.value.1, f.value.0, limit, fs.nactvar); }
    if !ok { return; }
    while NextOp(toks, end).Some? && Left(NextOp(toks, end).value) > limit
      invariant Ready(fs) && end <= |toks| && Parse(toks, pos, limit, fs.nactvar) == ParseRest(toks, end, x, limit, fs.nactvar)
      invariant Compiled(s0, ks0, x, fs.View(), e, l, fs.Consts(), base, fs.freereg, fs.nactvar)
      decreases |toks| - end
    {
      ghost var mid, y := end, x;
      ok, e, end, x, l := Rest(fs, toks, end, e, s0, ks0, x, l, base);
      RestNeed(toks, mid, y, limit, fs.nactvar);
      if !ok { return; }
    }
  }

  /** The next step of the parser needs no more registers than the whole expression. */
  lemma RestNeed(toks: seq<Token>, mid: nat, x: Expr, limit: nat, nact: nat)
    requires mid < |toks| && NextOp(toks, mid).Some? && Left(NextOp(toks, mid).value) > limit
    ensures var op := NextOp(toks, mid).value; var q := Parse(toks, mid + 1, Right(op), nact); var p := ParseRest(toks, mid, x, limit, nact);
      && (p.Some? ==> q.Some? && Need(EBinary(op, x, q.value.0)) <= Need(p.value.0))
      && (q.Some? ==> p == ParseRest(toks, q.value.1, EBinary(op, x, q.value.0), limit, nact))
  {
    var op := NextOp(toks, mid).value;
    var q := Parse(toks, mid + 1, Right(op), nact);
    if q.Some? { NeedGrows(toks, q.value.1, EBinary(op, x, q.value.0), limit, nact); }
  }

  /** subexpr, before the first binary operator. */
  method First(fs: FuncState, toks: seq<Token>, pos: nat) returns (ok: bool, e: ExpDesc, end: nat, ghost x: Expr, ghost l: Lists)
    requires Ready(fs) && Wf(fs.View()) && fs.nactvar <= fs.freereg <= MAXSTACK && pos <= |toks|
    modifies fs
    ensures ok ==>
      && Ready(fs) && ParseFirst(toks, pos, fs.nactvar) == Some((x, end))
      && Compiled(old(fs.View()), old(fs.Consts()), x, fs.View(), e, l, fs.Consts(), old(fs.freereg), fs.freereg, fs.nactvar)
    ensures var p := ParseFirst(toks, pos, fs.nactvar); p.Some? && old(fs.freereg) + Need(p.value.0) < MAXSTACK ==> ok
    decreases |toks| - pos, 1
  {
    ghost var s0, ks0, base := fs.View(), fs.Consts(), fs.freereg;
    ok, e, end, x, l := false, ExpDesc(VNil, NO_JUMP, NO_JUMP), pos, ENil, NoLists;
    if pos == |toks| { return; }
    var u := GetUnOpr(toks[pos]);
    if u.Some? {
      ok, e, end, x, l := Subexpr(fs, toks, pos + 1, UNARY_PRIORITY);
      if !ok { return; }
      var st;
      NeedPositive(x);
      st, e, l := Prefix(fs, u.value, e, s0, ks0, x, l, base);
      ok := st.Fine?;
      x := EUnary(u.value, x);
    } else if toks[pos] == TkOpen {
      ok, e, end, x, l := Subexpr(fs, toks, pos + 1, 0);
      if !ok { return; }
      if end == |toks| || toks[end] != TkClose { ok := false; return; }
      ParenCompiled(s0, ks0, x, fs.View(), e, l, fs.Consts(), base, fs.freereg, fs.nactvar);
      e, end, x := DischargeVars(e), end + 1, EParen(x);
    } else {
      var leaf := SimpleExp(toks[pos], fs.nactvar);
      if leaf.None? { return; }
      ok, e, end, x := true, ExpDesc(leaf.value.1, NO_JUMP, NO_JUMP), pos + 1, leaf.value.0;
      LeafCompiled(s0, ks0, x, e.k, base, fs.nactvar);
    }
  }

  /** subexpr, one binary operator and its second operand. */
  method Rest(fs: FuncState, toks: seq<Token>, mid: nat, e1: ExpDesc, ghost s0: Unfinished, ghost ks0: Env, ghost x: Expr, ghost l1: Lists, ghost base: nat)
    returns (ok: bool, e: ExpDesc, end: nat, ghost z: Expr, ghost l: Lists)
    requires Ready(fs) && mid < |toks| && NextOp(toks, mid).Some?
    requires Compiled(s0, ks0, x, fs.View(), e1, l1, fs.Consts(), base, fs.freereg, fs.nactvar) && Wf(s0)
    modifies fs
    ensures var op := NextOp(toks, mid).value; var q := Parse(toks, mid + 1, Right(op), fs.nactvar);
      && (ok ==> Ready(fs) && q.Some? && end == q.value.1 && z == EBinary(op, x, q.value.0))
      && (ok ==> Compiled(s0, ks0, z, fs.View(), e, l, fs.Consts(), base, fs.freereg, fs.nactvar))
      && (q.Some? && base + Need(EBinary(op, x, q.value.0)) < MAXSTACK ==> ok)
    decreases |toks| - mid, 1
  {
    var op := NextOp(toks, mid).value;
    ghost var y;
    BinTokenOf(toks[mid]);
    match op {
      case And => ok, e, end, y, l := LogicRest(fs, toks, mid, false, e1, s0, ks0, x, l1, base);
      case Or => ok, e, end, y, l := LogicRest(fs, toks, mid, true, e1, s0, ks0, x, l1, base);
      case Numeric(a) => ok, e, end, y, l := ArithRest(fs, toks, mid, a, e1, s0, ks0, x, l1, base);
      case Relational(rel) => ok, e, end, y, l := CompareRest(fs, toks, mid, rel, e1, s0, ks0, x, l1, base);
    }
    z := EBinary(op, x, y);
  }

  /** The second operand of a binary operator. */
  method Second(fs: FuncState, toks: seq<Token>, pos: nat, limit: nat) returns (ok: bool, e: ExpDesc, end: nat, ghost x: Expr, ghost l: Lists)
    requires Ready(fs) && Wf(fs.View()) && fs.nactvar <= fs.freereg <= MAXSTACK && pos <= |toks|
    modifies fs
    ensures ok ==>
      && Ready(fs) && Parse(toks, pos, limit, fs.nactvar) == Some((x, end)) && Scoped(x, fs.nactvar)
      && Compiled(old(fs.View()), old(fs.Consts()), x, fs.View(), e, l, fs.Consts(), old(fs.freereg), fs.freereg, fs.nactvar)
    ensures var p := Parse(toks, pos, limit, fs.nactvar); p.Some? && old(fs.freereg) + Need(p.value.0) < MAXSTACK ==> ok
    decreases |toks| - pos, 3
  {
    ParseSound(toks, pos, limit, fs.nactvar);
    ok, e, end, x, l := Subexpr(fs, toks, pos, limit);
  }

  method LogicRest(fs: FuncState, toks: seq<Token>, mid: nat, side: bool, e1: ExpDesc, ghost s0: Unfinished, ghost ks0: Env, ghost x: Expr, ghost l1: Lists, ghost base: nat)
    returns (ok: bool, e: ExpDesc, end: nat, ghost y: Expr, ghost l: Lists)
    requires Ready(fs) && mid < |toks| && Compiled(s0, ks0, x, fs.View(), e1, l1, fs.Consts(), base, fs.freereg, fs.nactvar) && Wf(s0)
    modifies fs
    ensures var o := if side then Or else And; var q := Parse(toks, mid + 1, Right(o), fs.nactvar);
      && (ok ==> Ready(fs) && q == Some((y, end)) && Compiled(s0, ks0, EBinary(o, x, y), fs.View(), e, l, fs.Consts(), base, fs.freereg, fs.nactvar))
      && (q.Some? && base + Need(EBinary(o, x, q.value.0)) < MAXSTACK ==> ok)
    decreases |toks| - mid, 0
  {
    ok, e, end, y, l := false, e1, mid, ENil, NoLists;
    var st, head, xl := InfixLogic(fs, e1, side, s0, ks0, x, l1, base);
    if st.TooComplex? { return; }
    ghost var s2, ks2 := fs.View(), fs.Consts();
    ghost var l2;
    var e2;
    ok, e2, end, y, l2 := Second(fs, toks, mid + 1, Right(if side then Or else And));
    if !ok { return; }
    e, l := PosfixLogic(fs, side, head, e2, s0, ks0, x, y, s2, ks2, xl, l2, base);
  }

  method ArithRest(fs: FuncState, toks: seq<Token>, mid: nat, op: ArithOp, e1: ExpDesc, ghost s0: Unfinished, ghost ks0: Env, ghost x: Expr, ghost l1: Lists, ghost base: nat)
    returns (ok: bool, e: ExpDesc, end: nat, ghost y: Expr, ghost l: Lists)
    requires Ready(fs) && mid < |toks| && Compiled(s0, ks0, x, fs.View(), e1, l1, fs.Consts(), base, fs.freereg, fs.nactvar) && op != Unm
    modifies fs
    ensures var o := Numeric(op); var q := Parse(toks, mid + 1, Right(o), fs.nactvar);
      && (ok ==> Ready(fs) && q == Some((y, end)) && Compiled(s0, ks0, EBinary(o, x, y), fs.View(), e, l, fs.Consts(), base, fs.freereg, fs.nactvar))
      && (q.Some? && base + Need(EBinary(o, x, q.value.0)) < MAXSTACK ==> ok)
    decreases |toks| - mid, 0
  {
    ok, e, end, y, l := false, e1, mid, ENil, NoLists;
    var st, e1' := InfixOperand(fs, e1, true, s0, ks0, x, l1, base);
    if st.TooComplex? { return; }
    ghost var s2, ks2, b2 := fs.View(), fs.Consts(), fs.freereg;
    ghost var l2;
    var e2;
    ok, e2, end, y, l2 := Second(fs, toks, mid + 1, Right(Numeric(op)));
    if !ok { return; }
    st, e := PosfixArith(fs, op, e1', e2, s0, ks0, x, y, s2, ks2, l2, base, b2);
    ok := st.Fine?;
  }

  method CompareRest(fs: FuncState, toks: seq<Token>, mid: nat, rel: Relation, e1: ExpDesc, ghost s0: Unfinished, ghost ks0: Env, ghost x: Expr, ghost l1: Lists, ghost base: nat)
    returns (ok: bool, e: ExpDesc, end: nat, ghost y: Expr, ghost l: Lists)
    requires Ready(fs) && mid < |toks| && Compiled(s0, ks0, x, fs.View(), e1, l1, fs.Consts(), base, fs.freereg, fs.nactvar)
    modifies fs
    ensures var o := Relational(rel); var q := Parse(toks, mid + 1, Right(o), fs.nactvar);
      && (ok ==> Ready(fs) && q == Some((y, end)) && Compiled(s0, ks0, EBinary(o, x, y), fs.View(), e, l, fs.Consts(), base, fs.freereg, fs.nactvar))
      && (q.Some? && base + Need(EBinary(o, x, q.value.0)) < MAXSTACK ==> ok)
    decreases |toks| - mid, 0
  {
    ok, e, end, y, l := false, e1, mid, ENil, NoLists;
    var st, e1' := InfixOperand(fs, e1, false, s0, ks0, x, l1, base);
    if st.TooComplex? { return; }
    ghost var s2, ks2, b2 := fs.View(), fs.Consts(), fs.freereg;
    ghost var l2;
    var e2;
    ok, e2, end, y, l2 := Second(fs, toks, mid + 1, Right(Relational(rel)));
    if !ok { return; }
    st, e := PosfixCompare(fs, rel, e1', e2, s0, ks0, x, y, s2, ks2, l2, base, b2);
    ok := st.Fine?;
  }

  // ---------------------------------------------------------------- the main theorem

  /** The code puts the value of the expression into `reg` and changes no local variable; it raises an
      error exactly if direct evaluation does. */
  ghost predicate Correct(env: Env, code: seq<Instr>, x: Expr, reg: nat, nact: nat, r: Regs) {
    match Eval(env, x, r)
    case None => Exec(env, code, {}, 0, r) == Error
    case Some(v) => var o := Exec(env, code, {}, 0, r); o.End? && Get(o.regs, reg) == v && Agree(nact, r, o.regs)
  }

  ghost predicate AllCorrect(num: (ArithOp, real, real) -> real, k: seq<Value>, code: seq<Instr>, x: Expr, reg: nat, nact: nat) {
    forall env: Env, r: Regs :: env.num == num && k <= env.k && Entry(r, nact) ==> Correct(env, code, x, reg, nact, r)
  }

  /** The whole compilation of an expression in a function with the given parameters: subexpr and
      luaK_exp2nextreg; the instruction that follows resolves the jumps to it. */
  method CompileExpression(toks: seq<Token>, nactvar: nat, num: (ArithOp, real, real) -> real)
    returns (ok: bool, code: seq<Instr>, k: seq<Value>, reg: nat, ghost x: Expr)
    requires nactvar < MAXSTACK
    ensures ok ==>
      && Flatten(x) == toks && Layered(x) && Scoped(x, nactvar)
      && Closed(code) && AllCorrect(num, k, code, x, reg, nactvar)
    ensures forall y: Expr :: Flatten(y) == toks && Layered(y) && Scoped(y, nactvar) && nactvar + Need(y) < MAXSTACK ==> ok
  {
    forall y: Expr | Flatten(y) == toks && Layered(y) && Scoped(y, nactvar)
      ensures Parse(toks, 0, 0, nactvar) == Some((y, |toks|)) && Need(y) >= 1
    {
      ParseExact(toks, y, nactvar);
      NeedPositive(y);
    }
    var fs := new FuncState(nactvar, num);
    ok, code, k, reg, x := false, [], [], nactvar, ENil;
    ghost var s0, ks0 := fs.View(), fs.Consts();
    FreshWf();
    var e, end;
    ghost var l;
    ok, e, end, x, l := Subexpr(fs, toks, 0, 0);
    if !ok { return; }
    if end < |toks| { ok := false; return; }
    ParseExact(toks, x, nactvar);
    ghost var s1, ks1 := fs.View(), fs.Consts();
    var st;
    ghost var e0 := e;
    st, e := Exp2NextReg(fs, e, l, nactvar);
    if st.TooComplex? { ok := false; return; }
    ComputesTrans(s0, x, s1, e0.k, l, fs.View(), e.k, NoLists, nactvar, ks1, fs.Consts(), nactvar);
    MovesTrans(s0, NoLists, s1, l, fs.View(), NoLists);
    ghost var s2 := fs.View();
    code := PatchListAux(fs.code, fs.jpc, |fs.code|, NO_REG, |fs.code|, fs.jl);
    k, reg := fs.k, e.k.info;
    Finale(s0, s2, code, x, reg, nactvar, fs.Consts());
  }

  lemma FreshWf()
    ensures Wf(Unfinished([], {}, [], -1)) && IsList([], NO_JUMP, [])
  {
  }

  lemma Finale(s0: Unfinished, s: Unfinished, code: seq<Instr>, x: Expr, reg: nat, nact: nat, ks: Env)
    requires s0 == Unfinished([], {}, [], -1) && s.hold == {} && Discharges(s, code)
    requires Computes(s0, x, s, VNonReloc(reg), NoLists, nact, ks, nact)
    ensures Closed(code) && AllCorrect(ks.num, ks.k, code, x, reg, nact)
  {
    DischargeWf(s, code);
    var p := Discharged(s, code);
    assert Pend(p) == {};
    SoundLimit(code, {}, p.lasttarget, |code|);
    forall env: Env, r: Regs | env.num == ks.num && ks.k <= env.k && Entry(r, nact) ensures Correct(env, code, x, reg, nact, r) {
      DischargeRun(env, s, code, r);
      assert Like(nact, Expect(env, Run(env, s0, r), x), Den(env, s, VNonReloc(reg), NoLists, r));
      assert Run(env, s0, r) == End(r);
    }
  }

  /** Compile and run: the machine leaves the value of the expression in the register, keeps all local
      variables, and fails exactly when direct evaluation fails. */
  method CompileAndRun(toks: seq<Token>, nactvar: nat, num: (ArithOp, real, real) -> real, r0: Regs)
    returns (ok: bool, out: Outcome, reg: nat, ghost x: Expr, ghost env: Env)
    requires nactvar < MAXSTACK && Entry(r0, nactvar)
    ensures ok ==> Flatten(x) == toks && Layered(x) && env.num == num
    ensures ok ==> match Eval(env, x, r0)
      case None => out == Error
      case Some(v) => out.End? && Get(out.regs, reg) == v && Agree(nactvar, r0, out.regs)
    ensures forall y: Expr :: Flatten(y) == toks && Layered(y) && Scoped(y, nactvar) && nactvar + Need(y) < MAXSTACK ==> ok
  {
    var code, k;
    ok, code, k, reg, x := CompileExpression(toks, nactvar, num);
    out, env := Error, Env(num, k);
    if ok {
      assert Correct(Env(num, k), code, x, reg, nactvar, r0);
      out := Execute(Env(num, k), code, r0);
    }
  }
}
