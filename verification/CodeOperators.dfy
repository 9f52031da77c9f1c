/** Operators (src/lcode.c, luaK_prefix, luaK_infix, luaK_posfix): code for an expression out of code for
    its operands. */
module CodeOperators {
  import opened Basics
  import opened CodeMachine
  import opened CodeLists
  import opened CodeRun
  import opened CodeState
  import opened CodeGen
  import opened CodeExp
  import opened CodeValue
  import opened CodeOps
  import opened CodeEmit
  import opened CodeBranch
  import opened CodeExpr
  import opened CodeArith

  // ---------------------------------------------------------------- between the operands

  /** Going on means that the first operand of `and` (side false) was true, of `or` (side true) false. */
  ghost predicate Guards(s0: Unfinished, x: Expr, s: Unfinished, xl: seq<nat>, side: bool, n: nat, ks: Env, nact: nat) {
    forall env: Env, r: Regs :: Extends(ks, env) && Entry(r, nact) ==> Branches(env, Expect(env, Run(env, s0, r), x), s, xl, side, n, r)
  }

  lemma GuardsAll(s0: Unfinished, x: Expr, s1: Unfinished, k: Kind, l: Lists, s: Unfinished, xl: seq<nat>, side: bool, n: nat, ks1: Env, ks: Env, nact: nat)
    requires Computes(s0, x, s1, k, l, n, ks1, nact) && Extends(ks1, ks) && BranchesAll(s1, k, l, s, xl, side, n, ks, nact)
    ensures Guards(s0, x, s, xl, side, n, ks, nact)
  {
    forall env: Env, r: Regs | Extends(ks, env) && Entry(r, nact) ensures Branches(env, Expect(env, Run(env, s0, r), x), s, xl, side, n, r) {
      assert Like(n, Expect(env, Run(env, s0, r), x), Den(env, s1, k, l, r));
      assert Branches(env, Den(env, s1, k, l, r), s, xl, side, n, r);
    }
  }

  /** The first operand of `and` and `or` has become a branch. */
  ghost predicate Guarded(s0: Unfinished, ks0: Env, x: Expr, s: Unfinished, head: int, xl: seq<nat>, side: bool, ks: Env, base: nat, nact: nat) {
    && Wf(s) && IsList(s.code, head, xl) && Moves(s0, NoLists, s, OneSide(xl, side)) && Extends(ks0, ks)
    && Guards(s0, x, s, xl, side, base, ks, nact)
  }

  /** The first operand of any other operator is at hand, in a register or as a constant. */
  ghost predicate AtHand(s0: Unfinished, ks0: Env, x: Expr, s: Unfinished, e: ExpDesc, ks: Env, base: nat, free: nat, nact: nat) {
    && Wf(s) && Moves(s0, NoLists, s, NoLists) && Extends(ks0, ks)
    && e.t == NO_JUMP && e.f == NO_JUMP && Stable(e.k) && Holds(e.k, base, free, nact) && free <= MAXSTACK && Below(e.k, free)
    && (e.k.VK? ==> e.k.info <= MAXINDEXRK) && Computes(s0, x, s, e.k, NoLists, base, ks, nact)
  }

  /** luaK_infix for `and` and `or`. */
  method InfixLogic(fs: FuncState, e: ExpDesc, side: bool, ghost s0: Unfinished, ghost ks0: Env, ghost x: Expr, ghost l: Lists, ghost base: nat) returns (st: Status, head: int, ghost xl: seq<nat>)
    requires Ready(fs) && Compiled(s0, ks0, x, fs.View(), e, l, fs.Consts(), base, fs.freereg, fs.nactvar)
    modifies fs
    ensures base + 1 < MAXSTACK ==> st.Fine?
    ensures st.Fine? ==> Ready(fs) && fs.freereg == base && Guarded(s0, ks0, x, fs.View(), head, xl, side, fs.Consts(), base, fs.nactvar)
  {
    ghost var s, ks := fs.View(), fs.Consts();
    if side { st, head, xl := GoIfFalse(fs, e, l, base); } else { st, head, xl := GoIfTrue(fs, e, l, base); }
    if st.TooComplex? { return; }
    GuardsAll(s0, x, s, e.k, l, fs.View(), xl, side, base, ks, fs.Consts(), fs.nactvar);
    MovesTrans(s0, NoLists, s, l, fs.View(), OneSide(xl, side));
  }

  /** luaK_infix for arithmetic operators (which leave numerals alone) and for comparisons. */
  method InfixOperand(fs: FuncState, e0: ExpDesc, numeric: bool, ghost s0: Unfinished, ghost ks0: Env, ghost x: Expr, ghost l: Lists, ghost base: nat) returns (st: Status, e: ExpDesc)
    requires Ready(fs) && Compiled(s0, ks0, x, fs.View(), e0, l, fs.Consts(), base, fs.freereg, fs.nactvar)
    modifies fs
    ensures base + 1 < MAXSTACK ==> st.Fine?
    ensures st.Fine? ==> Ready(fs) && AtHand(s0, ks0, x, fs.View(), e, fs.Consts(), base, fs.freereg, fs.nactvar) && (e.k.VKNum? ==> numeric)
  {
    ghost var s, ks := fs.View(), fs.Consts();
    NoJumps(s, e0, l);
    if numeric && IsNumeral(e0) { return Fine, e0; }
    var o;
    st, e, o := Exp2RK(fs, e0, l, base);
    if st.TooComplex? { return; }
    MovesTrans(s0, NoLists, s, l, fs.View(), NoLists);
    ComputesTrans(s0, x, s, e0.k, l, fs.View(), e.k, NoLists, base, ks, fs.Consts(), fs.nactvar);
  }

  // ---------------------------------------------------------------- and, or

  lemma LogicAll(s0: Unfinished, x: Expr, y: Expr, side: bool, s2: Unfinished, xl: seq<nat>, s3: Unfinished, k: Kind, l: Lists, code': seq<Instr>, n: nat, ks2: Env, ks: Env, nact: nat)
    requires nact <= n && Scoped(y, nact) && Wf(s0)
    requires Guards(s0, x, s2, xl, side, n, ks2, nact) && Extends(ks2, ks) && Computes(s2, y, s3, k, l, n, ks, nact)
    requires KindOk(s3, k) && Wf(Pre(s3, k)) && Exits(l) <= s3.hold && Elems(xl) <= s3.hold && Elems(xl) !! Exits(l)
    requires Rewired(s3.code, code', Elems(SideOf(l, side))) && Frame(s2.code, s3.code, Elems(xl)) && Elems(xl) !! s0.hold
    ensures Computes(s0, EBinary(if side then Or else And, x, y), s3.(code := code'), k, Joined2(l, xl, side), n, ks, nact)
  {
    var z := EBinary(if side then Or else And, x, y);
    forall env: Env, r: Regs | Extends(ks, env) && Entry(r, nact)
      ensures Like(n, Expect(env, Run(env, s0, r), z), Den(env, s3.(code := code'), k, Joined2(l, xl, side), r))
    {
      var d1 := Expect(env, Run(env, s0, r), x);
      assert Branches(env, d1, s2, xl, side, n, r);
      assert Like(n, Expect(env, Run(env, s2, r), y), Den(env, s3, k, l, r));
      if Run(env, s0, r).AtJump? { HeldBelow(env, s0, r); }
      LogicLike(env, s0, x, y, side, d1, s2, xl, s3, k, l, code', n, nact, r);
    }
  }

  /** The patch lists when the exits of the first operand join those of the second. */
  lemma JoinMoves(s0: Unfinished, s2: Unfinished, xl: seq<nat>, side: bool, s3: Unfinished, k: Kind, l: Lists, code': seq<Instr>)
    requires Moves(s0, NoLists, s2, OneSide(xl, side)) && Moves(s2, NoLists, s3, l) && KindOk(s3, k) && Wf(Pre(s3, k))
    requires Rewired(s3.code, code', Elems(SideOf(l, side)))
    ensures var s' := s3.(code := code'); Moves(s0, NoLists, s', Joined2(l, xl, side)) && KindOk(s', k) && Wf(Pre(s', k))
  {
    ElemsAppend(SideOf(l, side), xl);
    assert Exits(Joined2(l, xl, side)) == Exits(l) + Elems(xl);
    RewiredPre(s3, k, code', Elems(SideOf(l, side)));
    assert s0.hold - Exits(NoLists) == s0.hold && s2.hold - Exits(NoLists) == s2.hold;
    assert Exits(OneSide(xl, side)) == Elems(xl);
    FrameSubset(s2.code, s3.code, s0.hold, s2.hold);
    FrameTrans(s0.code, s2.code, s3.code, s0.hold);
    forall j | j in s0.hold ensures Kept(s0.code, code', j) {
      assert Kept(s0.code, s3.code, j);
      RewiredKept(s3.code, code', Elems(SideOf(l, side)), j);
    }
  }

  /** luaK_posfix for `and` (side false) and `or` (side true). */
  method PosfixLogic(fs: FuncState, side: bool, head: int, e2: ExpDesc, ghost s0: Unfinished, ghost ks0: Env, ghost x: Expr, ghost y: Expr,
    ghost s2: Unfinished, ghost ks2: Env, ghost xl: seq<nat>, ghost l2: Lists, ghost base: nat) returns (e: ExpDesc, ghost l: Lists)
    requires Ready(fs) && Wf(s0) && Scoped(y, fs.nactvar) && Guarded(s0, ks0, x, s2, head, xl, side, ks2, base, fs.nactvar)
    requires Compiled(s2, ks2, y, fs.View(), e2, l2, fs.Consts(), base, fs.freereg, fs.nactvar)
    modifies fs`code
    ensures Ready(fs) && Compiled(s0, ks0, EBinary(if side then Or else And, x, y), fs.View(), e, l, fs.Consts(), base, fs.freereg, fs.nactvar)
  {
    ghost var s3 := fs.View();
    e := DischargeVars(e2);
    VarsConvert(s3, e2, l2, fs.Consts(), base, fs.nactvar);
    ComputesTrans(s2, y, s3, e2.k, l2, s3, e.k, l2, base, fs.Consts(), fs.Consts(), fs.nactvar);
    assert Exits(OneSide(xl, side)) == Elems(xl) && s2.hold - Exits(NoLists) == s2.hold && s0.hold - Exits(NoLists) == s0.hold;
    FrameSubset(s2.code, s3.code, Elems(xl), s2.hold);
    FrameList(s2.code, s3.code, Elems(xl), head, xl);
    var h;
    fs.code, h := Concat(fs.code, if side then e.t else e.f, head, SideOf(l2, side), xl);
    JoinLists(s3, e, l2, xl, side, fs.code, h, fs.jpc);
    LogicAll(s0, x, y, side, s2, xl, s3, e.k, l2, fs.code, base, ks2, fs.Consts(), fs.nactvar);
    JoinMoves(s0, s2, xl, side, s3, e.k, l2, fs.code);
    e := if side then e.(t := h) else e.(f := h);
    l := Joined2(l2, xl, side);
    assert fs.View() == s3.(code := fs.code);
  }

  lemma JoinLists(s: Unfinished, e: ExpDesc, l: Lists, x: seq<nat>, side: bool, code': seq<Instr>, head: int, jpc: int)
    requires ListsOk(s, e, l) && IsList(s.code, jpc, s.jl) && Wf(Pre(s, e.k)) && Elems(x) <= s.hold && Elems(x) !! Exits(l)
    requires |code'| == |s.code| && IsList(code', head, SideOf(l, side) + x)
    requires forall i :: 0 <= i < |s.code| && i !in Elems(SideOf(l, side)) ==> code'[i] == s.code[i]
    requires forall i :: 0 <= i < |s.code| && i in Elems(SideOf(l, side)) ==> code'[i].Jmp?
    ensures Rewired(s.code, code', Elems(SideOf(l, side))) && IsList(code', jpc, s.jl)
    ensures ListsOk(s.(code := code'), if side then e.(t := head) else e.(f := head), Joined2(l, x, side))
  {
    var y := Elems(SideOf(l, side));
    ListJumps(s.code, if side then e.t else e.f, SideOf(l, side));
    assert Rewired(s.code, code', y);
    UntouchedList(s.code, code', y, if side then e.f else e.t, SideOf(l, !side));
    UntouchedList(s.code, code', y, jpc, s.jl);
    ElemsAppend(SideOf(l, side), x);
  }

  // ---------------------------------------------------------------- arithmetic and comparisons

  /** Both operands are at hand. */
  ghost predicate Paired(s0: Unfinished, ks0: Env, z: Expr, op: BinOp, k1: Kind, s: Unfinished, k2: Kind, ks: Env, base: nat, nact: nat) {
    && Wf(s) && Moves(s0, NoLists, s, NoLists) && Extends(ks0, ks) && Stable(k1) && Stable(k2)
    && CombinesAll(s0, z, op, k1, s, k2, NoLists, base, ks, nact)
  }

  /** The second operand, when the first one is at hand. */
  method SecondOperand(fs: FuncState, e1: ExpDesc, e2: ExpDesc, ghost op: BinOp, ghost s0: Unfinished, ghost ks0: Env, ghost x: Expr, ghost y: Expr,
    ghost s2: Unfinished, ghost ks2: Env, ghost l2: Lists, ghost base: nat, ghost b2: nat) returns (st: Status, e: ExpDesc, o: nat)
    requires Ready(fs) && Scoped(y, fs.nactvar) && op != And && op != Or && AtHand(s0, ks0, x, s2, e1, ks2, base, b2, fs.nactvar)
    requires Compiled(s2, ks2, y, fs.View(), e2, l2, fs.Consts(), b2, fs.freereg, fs.nactvar)
    modifies fs
    ensures b2 + 1 < MAXSTACK ==> st.Fine?
    ensures st.Fine? ==>
      && Ready(fs) && Operand(e, o, b2, fs.freereg, fs.nactvar)
      && Paired(s0, ks0, EBinary(op, x, y), op, e1.k, fs.View(), e.k, fs.Consts(), base, fs.nactvar)
  {
    ghost var s3, ks3, z := fs.View(), fs.Consts(), EBinary(op, x, y);
    PairAll(s0, x, y, op, s2, e1.k, s3, e2.k, l2, base, b2, ks2, ks3, fs.nactvar);
    st, e, o := Exp2RK(fs, e2, l2, b2);
    if st.TooComplex? { return; }
    CombinesTrans(s0, z, op, e1.k, s3, e2.k, l2, fs.View(), e.k, NoLists, base, b2, ks3, fs.Consts(), fs.nactvar);
    MovesTrans(s0, NoLists, s2, NoLists, s3, l2);
    MovesTrans(s0, NoLists, s3, l2, fs.View(), NoLists);
  }

  /** luaK_exp2RK on a descriptor that is an operand already. */
  function OperandOf(e: ExpDesc): nat
    requires e.k.VK? || e.k.VNonReloc?
  {
    if e.k.VK? then e.k.info + BITRK else e.k.info
  }

  /** codearith: the temporary registers are freed, the upper one first. */
  method FreeBoth(fs: FuncState, e1: ExpDesc, e2: ExpDesc, o1: nat, o2: nat, ghost base: nat, ghost b2: nat, ghost b3: nat)
    requires Field(e1.k, o1) && Field(e2.k, o2) && Holds(e2.k, b2, b3, fs.nactvar) && fs.freereg <= MAXSTACK
    requires (Holds(e1.k, base, b2, fs.nactvar) && fs.freereg == b3) || (base == b2 && Holds(e1.k, b3, fs.freereg, fs.nactvar))
    modifies fs`freereg
    ensures fs.freereg == base
  {
    if o1 > o2 {
      if e1.k.VNonReloc? { fs.FreeReg(e1.k.info); }
      if e2.k.VNonReloc? { fs.FreeReg(e2.k.info); }
    } else {
      if e2.k.VNonReloc? { fs.FreeReg(e2.k.info); }
      if e1.k.VNonReloc? { fs.FreeReg(e1.k.info); }
    }
  }

  /** codearith: the first operand, if it is a numeral, comes after the second. */
  method FirstOperand(fs: FuncState, e1: ExpDesc, ghost op: BinOp, ghost s0: Unfinished, ghost ks0: Env, ghost z: Expr, ghost k2: Kind, ghost base: nat) returns (st: Status, e: ExpDesc, o: nat)
    requires Ready(fs) && Paired(s0, ks0, z, op, e1.k, fs.View(), k2, fs.Consts(), base, fs.nactvar) && e1.t == NO_JUMP && e1.f == NO_JUMP
    requires Below(k2, fs.freereg) && base <= fs.freereg <= MAXSTACK && fs.nactvar <= base && (e1.k.VK? ==> e1.k.info <= MAXINDEXRK) && Below(e1.k, fs.freereg)
    modifies fs
    ensures old(fs.freereg) + 1 < MAXSTACK ==> st.Fine?
    ensures st.Fine? ==>
      && Ready(fs) && Field(e.k, o) && Paired(s0, ks0, z, op, e.k, fs.View(), k2, fs.Consts(), base, fs.nactvar)
      && (if e1.k.VKNum? then Holds(e.k, old(fs.freereg), fs.freereg, fs.nactvar) else e == e1 && fs.freereg == old(fs.freereg)) && fs.freereg <= MAXSTACK
  {
    ghost var s, ks, m := fs.View(), fs.Consts(), fs.freereg;
    if !e1.k.VKNum? { return Fine, e1, OperandOf(e1); }
    st, e, o := Exp2RK(fs, e1, NoLists, m);
    if st.TooComplex? { return; }
    FirstLoaded(s0, z, op, e1.k, k2, s, fs.View(), e.k, base, m, ks, fs.Consts(), fs.nactvar);
    MovesTrans(s0, NoLists, s, NoLists, fs.View(), NoLists);
  }

  /** luaK_posfix for arithmetic: codearith. */
  method PosfixArith(fs: FuncState, op: ArithOp, e1: ExpDesc, e2: ExpDesc, ghost s0: Unfinished, ghost ks0: Env, ghost x: Expr, ghost y: Expr,
    ghost s2: Unfinished, ghost ks2: Env, ghost l2: Lists, ghost base: nat, ghost b2: nat) returns (st: Status, e: ExpDesc)
    requires Ready(fs) && Scoped(y, fs.nactvar) && op != Unm && AtHand(s0, ks0, x, s2, e1, ks2, base, b2, fs.nactvar)
    requires Compiled(s2, ks2, y, fs.View(), e2, l2, fs.Consts(), b2, fs.freereg, fs.nactvar)
    modifies fs
    ensures b2 + 2 < MAXSTACK ==> st.Fine?
    ensures st.Fine? ==> Ready(fs) && Compiled(s0, ks0, EBinary(Numeric(op), x, y), fs.View(), e, NoLists, fs.Consts(), base, fs.freereg, fs.nactvar)
  {
    var c := ConstFolding(Env(fs.num, []), op, e1, e2);
    if c.Some? {
      e := e1.(k := VKNum(c.value));
      Folded(fs.View(), fs.Consts(), op, e1, e2, c.value, s0, ks0, x, y, s2, ks2, l2, base, b2, fs.freereg, fs.nactvar);
      return Fine, e;
    }
    var e2', o2;
    e := e1;
    st, e2', o2 := SecondOperand(fs, e1, e2, Numeric(op), s0, ks0, x, y, s2, ks2, l2, base, b2);
    if st.TooComplex? { return; }
    ghost var b3 := fs.freereg;
    var e1', o1;
    st, e1', o1 := FirstOperand(fs, e1, Numeric(op), s0, ks0, EBinary(Numeric(op), x, y), e2'.k, base);
    if st.TooComplex? { return; }
    FreeBoth(fs, e1', e2', o1, o2, base, b2, b3);
    ghost var s4 := fs.View();
    e := EmitArith(fs, op, o1, o2, s0, EBinary(Numeric(op), x, y), e1'.k, e2'.k, base);
    EmitCompiled(s0, s4, fs.View());
  }

  /** One more instruction, no list changed. */
  lemma EmitCompiled(s0: Unfinished, s: Unfinished, s': Unfinished)
    requires Moves(s0, NoLists, s, NoLists) && s'.hold == s.hold && Frame(s.code, s'.code, s.hold)
    ensures Moves(s0, NoLists, s', NoLists)
  {
    MovesSame(s, s', NoLists);
    MovesTrans(s0, NoLists, s, NoLists, s', NoLists);
  }

  lemma Folded(s: Unfinished, ks: Env, op: ArithOp, e1: ExpDesc, e2: ExpDesc, c: real, s0: Unfinished, ks0: Env, x: Expr, y: Expr,
    s2: Unfinished, ks2: Env, l2: Lists, base: nat, b2: nat, free: nat, nact: nat)
    requires Scoped(y, nact) && op != Unm && AtHand(s0, ks0, x, s2, e1, ks2, base, b2, nact) && Compiled(s2, ks2, y, s, e2, l2, ks, b2, free, nact)
    requires ConstFolding(Env(ks.num, []), op, e1, e2) == Some(c)
    ensures Compiled(s0, ks0, EBinary(Numeric(op), x, y), s, e1.(k := VKNum(c)), NoLists, ks, base, free, nact)
  {
    NoJumps(s, e2, l2);
    PairAll(s0, x, y, Numeric(op), s2, e1.k, s, e2.k, l2, base, b2, ks2, ks, nact);
    FoldComputes(s0, EBinary(Numeric(op), x, y), op, e1.k.nval, e2.k.nval, s, base, ks, nact);
    MovesTrans(s0, NoLists, s2, NoLists, s, l2);
  }

  /** luaK_posfix for comparisons: codecomp. */
  method PosfixCompare(fs: FuncState, rel: Relation, e1: ExpDesc, e2: ExpDesc, ghost s0: Unfinished, ghost ks0: Env, ghost x: Expr, ghost y: Expr,
    ghost s2: Unfinished, ghost ks2: Env, ghost l2: Lists, ghost base: nat, ghost b2: nat) returns (st: Status, e: ExpDesc)
    requires Ready(fs) && Scoped(y, fs.nactvar) && AtHand(s0, ks0, x, s2, e1, ks2, base, b2, fs.nactvar) && !e1.k.VKNum?
    requires Compiled(s2, ks2, y, fs.View(), e2, l2, fs.Consts(), b2, fs.freereg, fs.nactvar)
    modifies fs
    ensures b2 + 1 < MAXSTACK ==> st.Fine?
    ensures st.Fine? ==> Ready(fs) && Compiled(s0, ks0, EBinary(Relational(rel), x, y), fs.View(), e, NoLists, fs.Consts(), base, fs.freereg, fs.nactvar)
  {
    var e2', o2;
    e := e1;
    var o1 := OperandOf(e1);
    st, e2', o2 := SecondOperand(fs, e1, e2, Relational(rel), s0, ks0, x, y, s2, ks2, l2, base, b2);
    if st.TooComplex? { return; }
    FreeExp(fs, e2', b2);
    FreeExp(fs, e1, base);
    ghost var s4 := fs.View();
    e := EmitCompare(fs, rel, o1, o2, s0, EBinary(Relational(rel), x, y), e1.k, e2'.k, base);
    EmitCompiled(s0, s4, fs.View());
  }

  // ---------------------------------------------------------------- unary operators

  lemma NotComputes(s0: Unfinished, x: Expr, s: Unfinished, k: Kind, l: Lists, s': Unfinished, k': Kind, l': Lists, n: nat, ks: Env, ks': Env, nact: nat)
    requires Computes(s0, x, s, k, l, n, ks, nact) && Extends(ks, ks') && Negates(s, k, l, s', k', l', n, ks', nact)
    ensures Computes(s0, EUnary(Negate, x), s', k', l', n, ks', nact)
  {
    forall env: Env, r: Regs | Extends(ks', env) && Entry(r, nact)
      ensures Like(n, Expect(env, Run(env, s0, r), EUnary(Negate, x)), Den(env, s', k', l', r))
    {
      assert Like(n, Expect(env, Run(env, s0, r), x), Den(env, s, k, l, r));
      assert Like(n, Negated(Den(env, s, k, l, r)), Den(env, s', k', l', r));
    }
  }

  /** luaK_prefix */
  method Prefix(fs: FuncState, u: UnOp, e0: ExpDesc, ghost s0: Unfinished, ghost ks0: Env, ghost x: Expr, ghost l0: Lists, ghost base: nat) returns (st: Status, e: ExpDesc, ghost l: Lists)
    requires Ready(fs) && Compiled(s0, ks0, x, fs.View(), e0, l0, fs.Consts(), base, fs.freereg, fs.nactvar)
    modifies fs
    ensures base + 1 < MAXSTACK ==> st.Fine?
    ensures st.Fine? ==> Ready(fs) && Compiled(s0, ks0, EUnary(u, x), fs.View(), e, l, fs.Consts(), base, fs.freereg, fs.nactvar)
  {
    ghost var s, ks := fs.View(), fs.Consts();
    if u == Negate {
      l := Lists(l0.f, l0.t);
      st, e := CodeNot(fs, e0, l0, base);
      if st.TooComplex? { return; }
      NotComputes(s0, x, s, e0.k, l0, fs.View(), e.k, l, base, ks, fs.Consts(), fs.nactvar);
      MovesTrans(s0, NoLists, s, l0, fs.View(), l);
    } else {
      l := NoLists;
      st, e := PrefixMinus(fs, e0, s0, ks0, x, l0, base);
    }
  }

  /** luaK_prefix for the unary minus. */
  method PrefixMinus(fs: FuncState, e0: ExpDesc, ghost s0: Unfinished, ghost ks0: Env, ghost x: Expr, ghost l: Lists, ghost base: nat) returns (st: Status, e: ExpDesc)
    requires Ready(fs) && Compiled(s0, ks0, x, fs.View(), e0, l, fs.Consts(), base, fs.freereg, fs.nactvar)
    modifies fs
    ensures base + 1 < MAXSTACK ==> st.Fine?
    ensures st.Fine? ==> Ready(fs) && Compiled(s0, ks0, EUnary(Minus, x), fs.View(), e, NoLists, fs.Consts(), base, fs.freereg, fs.nactvar)
  {
    ghost var s, ks := fs.View(), fs.Consts();
    NoJumps(s, e0, l);
    var c := ConstFolding(Env(fs.num, []), Unm, e0, ExpDesc(VKNum(0.0), NO_JUMP, NO_JUMP));
    if c.Some? {
      FoldMinus(s0, x, e0.k.nval, s, base, ks, fs.nactvar);
      return Fine, e0.(k := VKNum(c.value));
    }
    st, e := Exp2AnyReg(fs, e0, l, base);
    if st.TooComplex? { return; }
    var reg := e.k.info;
    ComputesTrans(s0, x, s, e0.k, l, fs.View(), e.k, NoLists, base, ks, fs.Consts(), fs.nactvar);
    MovesTrans(s0, NoLists, s, l, fs.View(), NoLists);
    FreeExp(fs, e, base);
    ghost var s4 := fs.View();
    e := EmitMinus(fs, reg, s0, x, base);
    EmitCompiled(s0, s4, fs.View());
  }
}
