/** The virtual machine for call-free expressions (src/lvm.c, luaV_execute; src/lopcodes.h). */
module CodeMachine {
  import opened Basics

  datatype Value = Nil | Bool(b: bool) | Num(n: real)

  datatype ArithOp = Add | Sub | Mul | Div | Mod | Pow | Unm

  datatype CompareOp = Eq | Lt | Le

  /** Operands b and c of Arith and Compare are registers or constants. In Test and TestSet, `c` is
      the field C of the instruction, and `a` in Compare its field A. */
  datatype Instr =
    | Move(a: nat, b: nat)
    | LoadK(a: nat, bx: nat)
    | LoadBool(a: nat, val: bool, skip: bool)
    | LoadNil(a: nat, b: nat)
    | Arith(op: ArithOp, a: nat, b: nat, c: nat)
    | Not(a: nat, b: nat)
    | Jmp(sbx: int)
    | Compare(cmp: CompareOp, cond: bool, b: nat, c: nat)
    | Test(a: nat, cond: bool)
    | TestSet(a: nat, b: nat, cond: bool)

  const MAXSTACK: nat := 250
  const NO_REG: nat := 255
  const NO_JUMP: int := -1
  const BITRK: nat := 256
  const MAXINDEXRK: nat := 255

  /** Registers of a function. */
  type Regs = seq<Value>

  /** Arithmetic on numbers is any function; `k` are the constants of the function. */
  datatype Env = Env(num: (ArithOp, real, real) -> real, k: seq<Value>)

  /** More constants. */
  ghost predicate Extends(env: Env, env': Env) { env'.num == env.num && env.k <= env'.k }

  function Calc(env: Env, op: ArithOp, x: real, y: real): real { env.num(op, x, y) }

  function Get(r: Regs, i: nat): Value { if i < |r| then r[i] else Nil }

  /** A write outside the frame has no effect. */
  function Put(r: Regs, i: nat, v: Value): Regs { if i < |r| then r[i := v] else r }

  /** ISK, INDEXK, RKASK */
  predicate IsK(x: nat) { x >= BITRK }

  function RK(env: Env, r: Regs, x: nat): Value {
    if IsK(x) then Get(env.k, x - BITRK) else Get(r, x)
  }

  /** l_isfalse */
  predicate IsFalse(v: Value) { v == Nil || v == Bool(false) }

  /** arith_op: numbers only, anything else is an error. */
  function ArithValue(env: Env, op: ArithOp, x: Value, y: Value): Option<Value> {
    if x.Num? && y.Num? then Some(Num(Calc(env, op, x.n, y.n))) else None
  }

  /** equalobj, luaV_lessthan, lessequal */
  function CompareValue(op: CompareOp, x: Value, y: Value): Option<bool> {
    match op
    case Eq => Some(x == y)
    case Lt => if x.Num? && y.Num? then Some(x.n < y.n) else None
    case Le => if x.Num? && y.Num? then Some(x.n <= y.n) else None
  }

  /** OP_LOADNIL sets the registers a..b. */
  function SetNil(r: Regs, a: nat, b: nat): (r': Regs)
    ensures |r'| == |r|
    ensures forall i :: 0 <= i < |r| ==> r'[i] == if a <= i <= b then Nil else r[i]
  {
    seq(|r|, i requires 0 <= i < |r| => if a <= i <= b then Nil else r[i])
  }

  /** Instructions that compute a value for register A from the other operands. */
  function Operate(env: Env, i: Instr, r: Regs): Option<Value> {
    match i
    case Move(_, b) => Some(Get(r, b))
    case LoadK(_, bx) => Some(Get(env.k, bx))
    case Arith(op, _, b, c) => if op == Unm then ArithValue(env, op, Get(r, b), Get(r, b)) else ArithValue(env, op, RK(env, r, b), RK(env, r, c))
    case Not(_, b) => Some(Bool(IsFalse(Get(r, b))))
    case _ => None
  }

  /** OP_EQ, OP_LT, OP_LE, OP_TEST, OP_TESTSET: an instruction that is followed by a jump. */
  predicate TestMode(i: Instr) { i.Compare? || i.Test? || i.TestSet? }

  datatype Outcome = End(regs: Regs) | AtJump(j: nat, regs: Regs) | Error | Stuck

  /** What executing one instruction leads to. */
  datatype Effect = Goto(pc: int, regs: Regs) | Halt(out: Outcome)

  /** One round of the main loop. `pend` are the jumps without a target yet; the machine stops there. */
  function Step(env: Env, code: seq<Instr>, pend: set<nat>, pc: nat, r: Regs): Effect
    requires pc < |code|
  {
    match code[pc]
    case Jmp(d) => if pc in pend then Halt(AtJump(pc, r)) else Goto(pc + 1 + d, r)
    case Compare(op, a, b, c) =>
      (match CompareValue(op, RK(env, r, b), RK(env, r, c))
       case None => Halt(Error)
       case Some(t) => Goto(if t == a then pc + 1 else pc + 2, r))
    case Test(a, c) => Goto(if IsFalse(Get(r, a)) != c then pc + 1 else pc + 2, r)
    case TestSet(a, b, c) =>
      if IsFalse(Get(r, b)) != c then Goto(pc + 1, Put(r, a, Get(r, b))) else Goto(pc + 2, r)
    case LoadBool(a, b, skip) => Goto(if skip then pc + 2 else pc + 1, Put(r, a, Bool(b)))
    case LoadNil(a, b) => Goto(pc + 1, SetNil(r, a, b))
    case _ =>
      (match Operate(env, code[pc], r)
       case None => Halt(Error)
       case Some(v) => Goto(pc + 1, Put(r, code[pc].a, v)))
  }

  /** A whole run, for code whose jumps all go forward. */
  function Exec(env: Env, code: seq<Instr>, pend: set<nat>, pc: int, r: Regs): Outcome
    decreases |code| - pc
  {
    if pc == |code| then End(r)
    else if pc < 0 || pc > |code| then Stuck
    else
      match Step(env, code, pend, pc, r)
      case Halt(o) => o
      case Goto(pc', r') => if pc' <= pc then Stuck else Exec(env, code, pend, pc', r')
  }

  // ---------------------------------------------------------------- the interpreter loop

  lemma ThroughJump(env: Env, code: seq<Instr>, pc: nat, r: Regs)
    requires pc < |code| && code[pc].Jmp? && code[pc].sbx >= 0
    ensures Exec(env, code, {}, pc, r) == Exec(env, code, {}, pc + 1 + code[pc].sbx, r)
  {
  }

  /** luaV_execute, the tests: OP_EQ, OP_LT, OP_LE, OP_TEST and OP_TESTSET fetch the offset of the
      jump that follows them. */
  method ExecuteTest(env: Env, code: seq<Instr>, pc0: nat, r0: Regs) returns (ok: bool, pc: nat, r: Regs)
    requires pc0 < |code| && TestMode(code[pc0]) && Sound(code, {}, |code|, pc0) && Sound(code, {}, |code|, pc0 + 1)
    ensures !ok ==> Exec(env, code, {}, pc0, r0) == Error
    ensures ok ==> pc0 < pc <= |code| && Exec(env, code, {}, pc, r) == Exec(env, code, {}, pc0, r0)
  {
    var i, taken := code[pc0], false;
    pc, r, ok := pc0 + 1, r0, true;
    if i.Compare? {
      var t := CompareValue(i.cmp, RK(env, r, i.b), RK(env, r, i.c));
      if t.None? { ok := false; return; }
      taken := t.value == i.cond;
    } else if i.Test? {
      taken := IsFalse(Get(r, i.a)) != i.cond;
    } else if IsFalse(Get(r, i.b)) != i.cond {
      r := Put(r, i.a, Get(r, i.b));
      taken := true;
    }
    ThroughJump(env, code, pc, r);
    if taken { pc := pc + code[pc].sbx; }
    pc := pc + 1;
  }

  /** luaV_execute over the finished code. */
  method Execute(env: Env, code: seq<Instr>, r0: Regs) returns (out: Outcome)
    requires Closed(code)
    ensures out == Exec(env, code, {}, 0, r0)
  {
    var pc, r := 0, r0;
    while pc < |code|
      invariant 0 <= pc <= |code|
      invariant Exec(env, code, {}, pc, r) == Exec(env, code, {}, 0, r0)
      decreases |code| - pc
    {
      var i := code[pc];
      assert Sound(code, {}, |code|, pc);
      if TestMode(i) {
        assert Sound(code, {}, |code|, pc + 1);
        var ok;
        ok, pc, r := ExecuteTest(env, code, pc, r);
        if !ok { return Error; }
      } else if i.Jmp? {
        pc := pc + 1 + i.sbx;
      } else if i.LoadBool? {
        r := Put(r, i.a, Bool(i.val));
        pc := if i.skip then pc + 2 else pc + 1;
      } else if i.LoadNil? {
        r := SetNil(r, i.a, i.b);
        pc := pc + 1;
      } else {
        var v := Operate(env, i, r);
        if v.None? { return Error; }
        r := Put(r, i.a, v.value);
        pc := pc + 1;
      }
    }
    out := End(r);
  }

  /** Every jump goes forward and not past the end, and every test is followed by a jump. */
  ghost predicate Closed(code: seq<Instr>) {
    forall i :: 0 <= i < |code| ==> Sound(code, {}, |code|, i)
  }

  /** Control may continue at t: not between a test and its jump. */
  ghost predicate Landing(code: seq<Instr>, t: int) { 0 <= t <= |code| && (t > 0 ==> !TestMode(code[t - 1])) }

  /** The instruction at i leads to landing positions in i+1..lim only, or stops. */
  ghost predicate Sound(code: seq<Instr>, pend: set<nat>, lim: int, i: nat)
    requires i < |code|
  {
    && (code[i].Jmp? && i !in pend ==> i < i + 1 + code[i].sbx <= lim && Landing(code, i + 1 + code[i].sbx))
    && (code[i].LoadBool? && code[i].skip ==> i + 2 <= lim && Landing(code, i + 2))
    && (TestMode(code[i]) ==> i + 1 < |code| && code[i + 1].Jmp?)
  }
}
