/** Arithmetic and comparisons (src/lcode.c, constfolding, codearith, codecomp). */
module CodeArith {
  import opened Basics
  import opened CodeMachine
  import opened CodeLists
  import opened CodeRun
  import opened CodeState
  import opened CodeGen
  import opened CodeExp
  import opened CodeValue
  import opened CodeOps
  import opened CodeEmit
  import opened CodeExpr

  // ---------------------------------------------------------------- lemmas for every run

  /** The second operand is converted; the first one is out of reach. */
  lemma CombinesTrans(s0: Unfinished, z: Expr, op: BinOp, k1: Kind, s: Unfinished, k: Kind, l: Lists, s': Unfinished, k': Kind, l': Lists, n: nat, m: nat, ks: Env, ks': Env, nact: nat)
    requires Stable(k1) && Below(k1, m) && n <= m && CombinesAll(s0, z, op, k1, s, k, l, n, ks, nact)
    requires Same(s, k, l, s', k', l', m, ks', nact) && Extends(ks, ks')
    ensures CombinesAll(s0, z, op, k1, s', k', l', n, ks', nact)
  {
    forall env: Env, r: Regs | Extends(ks', env) && Entry(r, nact)
      ensures Like(n, Expect(env, Run(env, s0, r), z), Combined(env, op, k1, Den(env, s', k', l', r)))
    {
      var d, d' := Den(env, s, k, l, r), Den(env, s', k', l', r);
      assert Like(n, Expect(env, Run(env, s0, r), z), Combined(env, op, k1, d));
      assert Like(m, d, d');
      CombinedLike(env, op, k1, d, d', n, m);
    }
  }

  lemma CombinedLike(env: Env, op: BinOp, k1: Kind, d: Meaning, d': Meaning, n: nat, m: nat)
    requires Stable(k1) && Below(k1, m) && n <= m && Like(m, d, d')
    ensures Like(n, Combined(env, op, k1, d), Combined(env, op, k1, d'))
  {
    if d.Val? { assert StableValue(env, k1, d'.regs) == StableValue(env, k1, d.regs); }
  }

  /** A numeral as first operand is loaded after the second operand. */
  lemma FirstLoaded(s0: Unfinished, z: Expr, op: BinOp, k1: Kind, k2: Kind, s: Unfinished, s': Unfinished, k1': Kind, n: nat, m: nat, ks: Env, ks': Env, nact: nat)
    requires Stable(k1) && Stable(k2) && Stable(k1') && Below(k2, m) && n <= m && CombinesAll(s0, z, op, k1, s, k2, NoLists, n, ks, nact)
    requires k1.VKNum? && Same(s, k1, NoLists, s', k1', NoLists, m, ks', nact) && Extends(ks, ks')
    ensures CombinesAll(s0, z, op, k1', s', k2, NoLists, n, ks', nact)
  {
    forall env: Env, r: Regs | Extends(ks', env) && Entry(r, nact)
      ensures Like(n, Expect(env, Run(env, s0, r), z), Combined(env, op, k1', Den(env, s', k2, NoLists, r)))
    {
      assert Like(n, Expect(env, Run(env, s0, r), z), Combined(env, op, k1, Den(env, s, k2, NoLists, r)));
      assert Like(m, Den(env, s, k1, NoLists, r), Den(env, s', k1', NoLists, r));
      LoadedLike(env, op, k1, k2, k1', s, s', n, m, r);
    }
  }

  lemma LoadedLike(env: Env, op: BinOp, k1: Kind, k2: Kind, k1': Kind, s: Unfinished, s': Unfinished, n: nat, m: nat, r: Regs)
    requires Stable(k1) && Stable(k2) && Stable(k1') && Below(k2, m) && n <= m && k1.VKNum?
    requires Like(m, Den(env, s, k1, NoLists, r), Den(env, s', k1', NoLists, r))
    ensures Like(n, Combined(env, op, k1, Den(env, s, k2, NoLists, r)), Combined(env, op, k1', Den(env, s', k2, NoLists, r)))
  {
    var o, o' := Run(env, s, r), Run(env, s', r);
    if o.End? && o'.End? { assert StableValue(env, k2, o'.regs) == StableValue(env, k2, o.regs); }
  }

  /** The operand field `o` gives the value of the descriptor. */
  predicate Field(k: Kind, o: nat) {
    match k
    case VK(i) => o == i + BITRK
    case VNonReloc(reg) => reg < BITRK && o == reg
    case _ => false
  }

  lemma FieldValue(env: Env, k: Kind, o: nat, r: Regs)
    requires Field(k, o)
    ensures Stable(k) && RK(env, r, o) == StableValue(env, k, r)
  {
  }

  /** An arithmetic instruction on two operands. */
  lemma ArithComputes(s0: Unfinished, z: Expr, op: ArithOp, k1: Kind, k2: Kind, s: Unfinished, c1: seq<Instr>, o1: nat, o2: nat, n: nat, ks: Env, nact: nat)
    requires op != Unm && Field(k1, o1) && Field(k2, o2) && Discharges(s, c1) && CombinesAll(s0, z, Numeric(op), k1, s, k2, NoLists, n, ks, nact)
    ensures Computes(s0, z, Unfinished(c1 + [Arith(op, 0, o1, o2)], s.hold, [], s.lasttarget), VReloc(|c1|), NoLists, n, ks, nact)
  {
    var i := Arith(op, 0, o1, o2);
    var s' := Unfinished(c1 + [i], s.hold, [], s.lasttarget);
    assert Pre(s', VReloc(|c1|)) == Discharged(s, c1) && s'.code[|c1|] == i;
    forall env: Env, r: Regs | Extends(ks, env) && Entry(r, nact)
      ensures Like(n, Expect(env, Run(env, s0, r), z), Den(env, s', VReloc(|c1|), NoLists, r))
    {
      DischargeRun(env, s, c1, r);
      var o := Run(env, s, r);
      if o.End? { FieldValue(env, k1, o1, o.regs); FieldValue(env, k2, o2, o.regs); }
      assert Den(env, s', VReloc(|c1|), NoLists, r) == Combined(env, Numeric(op), k1, Den(env, s, k2, NoLists, r));
    }
  }

  /** The instruction for a relation: `<` and `<=` also serve for `>` and `>=`, with operands exchanged. */
  function CompareInstr(rel: Relation, o1: nat, o2: nat): Instr {
    match rel
    case EQ => Compare(Eq, true, o1, o2)
    case NE => Compare(Eq, false, o1, o2)
    case LT => Compare(Lt, true, o1, o2)
    case LE => Compare(Le, true, o1, o2)
    case GT => Compare(Lt, true, o2, o1)
    case GE => Compare(Le, true, o2, o1)
  }

  lemma CompareComputes(s0: Unfinished, z: Expr, rel: Relation, k1: Kind, k2: Kind, s: Unfinished, c1: seq<Instr>, o1: nat, o2: nat, n: nat, ks: Env, nact: nat)
    requires Field(k1, o1) && Field(k2, o2) && Discharges(s, c1) && CombinesAll(s0, z, Relational(rel), k1, s, k2, NoLists, n, ks, nact)
    ensures Computes(s0, z, Unfinished(c1 + [CompareInstr(rel, o1, o2), Jmp(NO_JUMP)], s.hold, [], s.lasttarget), VJmp(|c1| + 1), NoLists, n, ks, nact)
  {
    var i := CompareInstr(rel, o1, o2);
    var s' := Unfinished(c1 + [i, Jmp(NO_JUMP)], s.hold, [], s.lasttarget);
    assert Pre(s', VJmp(|c1| + 1)) == Discharged(s, c1) && s'.code[|c1|] == i;
    forall env: Env, r: Regs | Extends(ks, env) && Entry(r, nact)
      ensures Like(n, Expect(env, Run(env, s0, r), z), Den(env, s', VJmp(|c1| + 1), NoLists, r))
    {
      DischargeRun(env, s, c1, r);
      var o := Run(env, s, r);
      if o.End? { FieldValue(env, k1, o1, o.regs); FieldValue(env, k2, o2, o.regs); ComparedValue(env, rel, k1, k2, o1, o2, o.regs); }
      assert Den(env, s', VJmp(|c1| + 1), NoLists, r) == Combined(env, Relational(rel), k1, Den(env, s, k2, NoLists, r));
    }
  }

  lemma ComparedValue(env: Env, rel: Relation, k1: Kind, k2: Kind, o1: nat, o2: nat, r: Regs)
    requires Field(k1, o1) && Field(k2, o2)
    ensures Stable(k1) && Stable(k2)
    ensures Compared(env, CompareInstr(rel, o1, o2), r) == BinaryValue(env, Relational(rel), StableValue(env, k1, r), StableValue(env, k2, r))
  {
    FieldValue(env, k1, o1, r);
    FieldValue(env, k2, o2, r);
  }

  lemma MinusComputes(s0: Unfinished, x: Expr, reg: nat, s: Unfinished, c1: seq<Instr>, n: nat, ks: Env, nact: nat)
    requires Discharges(s, c1) && Computes(s0, x, s, VNonReloc(reg), NoLists, n, ks, nact)
    ensures Computes(s0, EUnary(Minus, x), Unfinished(c1 + [Arith(Unm, 0, reg, 0)], s.hold, [], s.lasttarget), VReloc(|c1|), NoLists, n, ks, nact)
  {
    var i := Arith(Unm, 0, reg, 0);
    var s' := Unfinished(c1 + [i], s.hold, [], s.lasttarget);
    assert Pre(s', VReloc(|c1|)) == Discharged(s, c1) && s'.code[|c1|] == i;
    forall env: Env, r: Regs | Extends(ks, env) && Entry(r, nact)
      ensures Like(n, Expect(env, Run(env, s0, r), EUnary(Minus, x)), Den(env, s', VReloc(|c1|), NoLists, r))
    {
      DischargeRun(env, s, c1, r);
      assert Like(n, Expect(env, Run(env, s0, r), x), Den(env, s, VNonReloc(reg), NoLists, r));
    }
  }

  // ---------------------------------------------------------------- constant folding

  predicate IsNumeral(e: ExpDesc) { e.k.VKNum? && e.t == NO_JUMP && e.f == NO_JUMP }

  /** constfolding: division by zero is left to the machine. */
  function ConstFolding(env: Env, op: ArithOp, e1: ExpDesc, e2: ExpDesc): Option<real> {
    if !IsNumeral(e1) || !IsNumeral(e2) then None
    else if (op == Div || op == Mod) && e2.k.nval == 0.0 then None
    else Some(Calc(env, op, e1.k.nval, if op == Unm then e1.k.nval else e2.k.nval))
  }

  /** Exactly operations on two numerals are folded, except division and modulo by zero. */
  lemma FoldsWhen(env: Env, op: ArithOp, e1: ExpDesc, e2: ExpDesc)
    ensures !(e1.k.VKNum? && e2.k.VKNum?) || e1.t != -1 || e1.f != -1 || e2.t != -1 || e2.f != -1 ==> ConstFolding(env, op, e1, e2) == None
    ensures forall a: real, b: real :: e1 == ExpDesc(VKNum(a), -1, -1) && e2 == ExpDesc(VKNum(b), -1, -1) ==>
      ConstFolding(env, op, e1, e2) ==
        if b == 0.0 && (op == Div || op == Mod) then None
        else if op == Unm then Some(env.num(op, a, a))
        else Some(env.num(op, a, b))
  {
  }

  lemma FoldComputes(s0: Unfinished, z: Expr, op: ArithOp, a: real, b: real, s: Unfinished, n: nat, ks: Env, nact: nat)
    requires CombinesAll(s0, z, Numeric(op), VKNum(a), s, VKNum(b), NoLists, n, ks, nact)
    ensures Computes(s0, z, s, VKNum(Calc(ks, op, a, b)), NoLists, n, ks, nact)
  {
    forall env: Env, r: Regs | Extends(ks, env) && Entry(r, nact)
      ensures Like(n, Expect(env, Run(env, s0, r), z), Den(env, s, VKNum(Calc(ks, op, a, b)), NoLists, r))
    {
      assert Like(n, Expect(env, Run(env, s0, r), z), Combined(env, Numeric(op), VKNum(a), Den(env, s, VKNum(b), NoLists, r)));
    }
  }

  lemma FoldMinus(s0: Unfinished, x: Expr, a: real, s: Unfinished, n: nat, ks: Env, nact: nat)
    requires Computes(s0, x, s, VKNum(a), NoLists, n, ks, nact)
    ensures Computes(s0, EUnary(Minus, x), s, VKNum(Calc(ks, Unm, a, a)), NoLists, n, ks, nact)
  {
    forall env: Env, r: Regs | Extends(ks, env) && Entry(r, nact)
      ensures Like(n, Expect(env, Run(env, s0, r), EUnary(Minus, x)), Den(env, s, VKNum(Calc(ks, Unm, a, a)), NoLists, r))
    {
      assert Like(n, Expect(env, Run(env, s0, r), x), Den(env, s, VKNum(a), NoLists, r));
    }
  }

  // ---------------------------------------------------------------- instructions

  /** What an expression's code has to promise its enclosing expression. */
  ghost predicate Compiled(s0: Unfinished, ks0: Env, x: Expr, s: Unfinished, e: ExpDesc, l: Lists, ks: Env, base: nat, free: nat, nact: nat) {
    && ExpOk(s, e, l) && Moves(s0, NoLists, s, l) && Extends(ks0, ks) && !e.k.VK? && Holds(e.k, base, free, nact) && free <= MAXSTACK
    && Computes(s0, x, s, e.k, l, base, ks, nact)
  }

  /** Emitting one more instruction keeps all pending jumps. */
  lemma EmitMoves(s: Unfinished, c1: seq<Instr>, ext: seq<Instr>)
    requires Discharges(s, c1)
    ensures Frame(s.code, c1 + ext, s.hold) && Wf(Discharged(s, c1))
  {
    DischargeWf(s, c1);
    FrameAppend(s.code, c1, ext, s.hold);
  }

  /** codearith, the instruction. */
  method EmitArith(fs: FuncState, op: ArithOp, o1: nat, o2: nat, ghost s0: Unfinished, ghost z: Expr, ghost k1: Kind, ghost k2: Kind, ghost base: nat) returns (e: ExpDesc)
    requires Ready(fs) && Wf(fs.View()) && op != Unm && Field(k1, o1) && Field(k2, o2)
    requires CombinesAll(s0, z, Numeric(op), k1, fs.View(), k2, NoLists, base, fs.Consts(), fs.nactvar)
    modifies fs`code, fs`jpc, fs`jl
    ensures Ready(fs) && ExpOk(fs.View(), e, NoLists) && Frame(old(fs.code), fs.code, fs.hold) && e.k.VReloc?
    ensures Computes(s0, z, fs.View(), e.k, NoLists, base, fs.Consts(), fs.nactvar)
  {
    ghost var s := fs.View();
    var at, c1 := fs.Code(Arith(op, 0, o1, o2));
    e := ExpDesc(VReloc(at), NO_JUMP, NO_JUMP);
    EmitMoves(s, c1, [Arith(op, 0, o1, o2)]);
    ArithComputes(s0, z, op, k1, k2, s, c1, o1, o2, base, fs.Consts(), fs.nactvar);
    RelocOk(s, c1, Arith(op, 0, o1, o2));
    assert fs.View() == Unfinished(c1 + [Arith(op, 0, o1, o2)], s.hold, [], s.lasttarget);
  }

  /** codecomp, the instruction and its jump. */
  method EmitCompare(fs: FuncState, rel: Relation, o1: nat, o2: nat, ghost s0: Unfinished, ghost z: Expr, ghost k1: Kind, ghost k2: Kind, ghost base: nat) returns (e: ExpDesc)
    requires Ready(fs) && Wf(fs.View()) && Field(k1, o1) && Field(k2, o2)
    requires CombinesAll(s0, z, Relational(rel), k1, fs.View(), k2, NoLists, base, fs.Consts(), fs.nactvar)
    modifies fs`code, fs`jpc, fs`jl, fs`hold
    ensures Ready(fs) && ExpOk(fs.View(), e, NoLists) && Frame(old(fs.code), fs.code, fs.hold) && e.k.VJmp? && fs.hold == old(fs.hold)
    ensures Computes(s0, z, fs.View(), e.k, NoLists, base, fs.Consts(), fs.nactvar)
  {
    ghost var s := fs.View();
    var i := CompareInstr(rel, o1, o2);
    var j, c1 := fs.CondJump(i);
    e := ExpDesc(VJmp(j), NO_JUMP, NO_JUMP);
    EmitMoves(s, c1, [i, Jmp(NO_JUMP)]);
    assert j in s.hold ==> NoTarget(s.code, j);
    fs.hold := fs.hold - {j};
    CompareComputes(s0, z, rel, k1, k2, s, c1, o1, o2, base, fs.Consts(), fs.nactvar);
    assert fs.hold == s.hold;
    assert Pre(fs.View(), e.k) == Discharged(s, c1);
  }

  /** codearith for the unary minus. */
  method EmitMinus(fs: FuncState, reg: nat, ghost s0: Unfinished, ghost x: Expr, ghost base: nat) returns (e: ExpDesc)
    requires Ready(fs) && Wf(fs.View())
    requires Computes(s0, x, fs.View(), VNonReloc(reg), NoLists, base, fs.Consts(), fs.nactvar)
    modifies fs`code, fs`jpc, fs`jl
    ensures Ready(fs) && ExpOk(fs.View(), e, NoLists) && Frame(old(fs.code), fs.code, fs.hold) && e.k.VReloc?
    ensures Computes(s0, EUnary(Minus, x), fs.View(), e.k, NoLists, base, fs.Consts(), fs.nactvar)
  {
    ghost var s := fs.View();
    var at, c1 := fs.Code(Arith(Unm, 0, reg, 0));
    e := ExpDesc(VReloc(at), NO_JUMP, NO_JUMP);
    EmitMoves(s, c1, [Arith(Unm, 0, reg, 0)]);
    MinusComputes(s0, x, reg, s, c1, base, fs.Consts(), fs.nactvar);
    RelocOk(s, c1, Arith(Unm, 0, reg, 0));
    assert fs.View() == Unfinished(c1 + [Arith(Unm, 0, reg, 0)], s.hold, [], s.lasttarget);
  }

  lemma RelocOk(s: Unfinished, c1: seq<Instr>, i: Instr)
    requires Discharges(s, c1) && i.Arith?
    ensures ExpOk(Unfinished(c1 + [i], s.hold, [], s.lasttarget), ExpDesc(VReloc(|c1|), NO_JUMP, NO_JUMP), NoLists)
  {
    DischargeWf(s, c1);
    assert Pre(Unfinished(c1 + [i], s.hold, [], s.lasttarget), VReloc(|c1|)) == Discharged(s, c1);
  }
}
