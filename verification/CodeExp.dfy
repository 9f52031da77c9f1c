/** Expression descriptors (src/lparser.h, expdesc) and what they mean: the value that an expression
    whose code may still be incomplete is going to have. */
module CodeExp {
  import opened Basics
  import opened CodeMachine
  import opened CodeLists
  import opened CodeRun
  import opened CodeState

  datatype Kind =
    | VNil | VTrue | VFalse
    | VK(info: nat)           // index in the constants
    | VKNum(nval: real)
    | VLocal(info: nat)       // a local variable's register
    | VNonReloc(info: nat)    // the register that has the value
    | VReloc(info: nat)       // position of an instruction that can put its result in any register
    | VJmp(info: nat)         // position of the jump of a comparison

  /** `t` and `f` are the patch lists of jumps that exit when true and when false. */
  datatype ExpDesc = ExpDesc(k: Kind, t: int, f: int)

  /** The jumps on the lists of a descriptor. */
  datatype Lists = Lists(t: seq<nat>, f: seq<nat>)

  ghost function Exits(l: Lists): set<nat> { Elems(l.t) + Elems(l.f) }

  /** The code without the instructions whose result the descriptor stands for. */
  ghost function Pre(s: Unfinished, k: Kind): Unfinished {
    match k
    case VReloc(_) => if |s.code| >= 1 then s.(code := s.code[..|s.code| - 1]) else s
    case VJmp(_) => if |s.code| >= 2 then s.(code := s.code[..|s.code| - 2]) else s
    case _ => s
  }

  /** Instructions and comparisons that wait for a register or a target are the last ones emitted. */
  ghost predicate KindOk(s: Unfinished, k: Kind) {
    match k
    case VReloc(i) => i == |s.code| - 1 && (s.code[i].Arith? || s.code[i].Not?) && s.jl == []
    case VJmp(i) => 1 <= i == |s.code| - 1 && s.code[i] == Jmp(NO_JUMP) && s.code[i - 1].Compare? && s.jl == []
    case _ => true
  }

  ghost predicate ListsOk(s: Unfinished, e: ExpDesc, l: Lists) {
    IsList(s.code, e.t, l.t) && IsList(s.code, e.f, l.f) && Elems(l.t) !! Elems(l.f) && Exits(l) <= s.hold
  }

  ghost predicate ExpOk(s: Unfinished, e: ExpDesc, l: Lists) { KindOk(s, e.k) && Wf(Pre(s, e.k)) && ListsOk(s, e, l) }

  // ---------------------------------------------------------------- meaning

  /** The value that the descriptor itself stands for, when control reaches the end. */
  function KindValue(env: Env, code: seq<Instr>, k: Kind, r: Regs): Option<Value> {
    match k
    case VNil => Some(Nil)
    case VTrue => Some(Bool(true))
    case VFalse => Some(Bool(false))
    case VK(i) => Some(Get(env.k, i))
    case VKNum(x) => Some(Num(x))
    case VLocal(i) => Some(Get(r, i))
    case VNonReloc(i) => Some(Get(r, i))
    case VReloc(i) => if i < |code| then Operate(env, code[i], r) else None
    case VJmp(i) => if 1 <= i <= |code| && code[i - 1].Compare? then Compared(env, code[i - 1], r) else None
  }

  function Compared(env: Env, i: Instr, r: Regs): Option<Value>
    requires i.Compare?
  {
    match CompareValue(i.cmp, RK(env, r, i.b), RK(env, r, i.c)) case None => None case Some(t) => Some(Bool(t == i.cond))
  }

  /** What the expression comes to: its value (with the registers at that time), an error, or an exit
      to a jump of an enclosing expression. */
  datatype Meaning = Val(regs: Regs, v: Value) | Fail | Out(j: nat, regs: Regs) | Bad

  ghost function Exit(code: seq<Instr>, l: Lists, j: nat, r: Regs): Meaning {
    if j in l.t then Sided(JumpValue(code, j, r, true), r, true)
    else if j in l.f then Sided(JumpValue(code, j, r, false), r, false)
    else Out(j, r)
  }

  /** Exits on the `true` list must be true, those on the `false` list false. */
  function Sided(v: Value, r: Regs, side: bool): Meaning { if IsFalse(v) == side then Bad else Val(r, v) }

  ghost function Means(env: Env, code: seq<Instr>, k: Kind, l: Lists, o: Outcome): Meaning {
    match o
    case End(r) => (match KindValue(env, code, k, r) case None => Fail case Some(v) => Val(r, v))
    case AtJump(j, r) => Exit(code, l, j, r)
    case Error => Fail
    case Stuck => Bad
  }

  ghost function Den(env: Env, s: Unfinished, k: Kind, l: Lists, r: Regs): Meaning {
    Means(env, s.code, k, l, Run(env, Pre(s, k), r))
  }

  /** The same, except for registers from n on. */
  ghost predicate Agree(n: nat, r: Regs, r': Regs) { |r| == |r'| && forall i :: 0 <= i < n && i < |r| ==> r[i] == r'[i] }

  ghost predicate Like(n: nat, d: Meaning, d': Meaning) {
    match d
    case Val(r, v) => d'.Val? && d'.v == v && Agree(n, r, d'.regs)
    case Bad => true
    case _ => d' == d
  }

  /** Registers when a function is entered: those that are no parameters are nil. */
  ghost predicate Entry(r: Regs, nact: nat) { |r| == MAXSTACK && forall i :: nact <= i < MAXSTACK ==> r[i] == Nil }

  /** The second descriptor means what the first did, in every environment and for all registers, and
      registers below n were not changed on the way. */
  ghost predicate Same(s: Unfinished, k: Kind, l: Lists, s': Unfinished, k': Kind, l': Lists, n: nat, ks: Env, nact: nat) {
    forall env: Env, r: Regs :: Extends(ks, env) && Entry(r, nact) ==> Like(n, Den(env, s, k, l, r), Den(env, s', k', l', r))
  }

  lemma SameTrans(s: Unfinished, k: Kind, l: Lists, s1: Unfinished, k1: Kind, l1: Lists, s2: Unfinished, k2: Kind, l2: Lists, n: nat, ks1: Env, ks2: Env, nact: nat)
    requires Same(s, k, l, s1, k1, l1, n, ks1, nact) && Same(s1, k1, l1, s2, k2, l2, n, ks2, nact) && Extends(ks1, ks2)
    ensures Same(s, k, l, s2, k2, l2, n, ks2, nact)
  {
    forall env: Env, r: Regs | Extends(ks2, env) && Entry(r, nact) ensures Like(n, Den(env, s, k, l, r), Den(env, s2, k2, l2, r)) {
      assert Like(n, Den(env, s, k, l, r), Den(env, s1, k1, l1, r));
      assert Like(n, Den(env, s1, k1, l1, r), Den(env, s2, k2, l2, r));
    }
  }

  // ---------------------------------------------------------------- putting a value into a register

  lemma ExitKept(code: seq<Instr>, code': seq<Instr>, l: Lists, j: nat, r: Regs)
    requires Frame(code, code', Exits(l))
    ensures Exit(code', l, j, r) == Exit(code, l, j, r)
  {
    if j in l.t || j in l.f { assert j in Exits(l) && Kept(code, code', j); }
  }

  /** The instruction puts the value of the descriptor into `reg`. */
  ghost predicate Delivers(env: Env, code: seq<Instr>, k: Kind, i: Instr, reg: nat, r: Regs)
    requires Plain(i)
  {
    Performed(env, i, r) == match KindValue(env, code, k, r) case None => Error case Some(v) => End(Put(r, reg, v))
  }

  /** Discharging a descriptor with one more instruction, emitted after code that runs like the old. */
  lemma DeliverLike(env: Env, s: Unfinished, k: Kind, l: Lists, p: Unfinished, i: Instr, reg: nat, n: nat, r: Regs)
    requires Wf(p) && p.jl == [] && Plain(i) && n <= reg < MAXSTACK && |r| == MAXSTACK
    requires Run(env, p, r) == Run(env, Pre(s, k), r) && Frame(s.code, p.code, Exits(l))
    requires var o := Run(env, p, r); o.End? ==> Delivers(env, s.code, k, i, reg, o.regs)
    ensures Like(n, Den(env, s, k, l, r), Den(env, Appended(p, [i], {}), VNonReloc(reg), l, r))
  {
    var o := Run(env, p, r);
    PlainRun(env, p, i, r);
    RunLength(env, p, r);
    FrameAppend(s.code, p.code, [i], Exits(l));
    if o.AtJump? { ExitKept(s.code, p.code + [i], l, o.j, o.regs); }
  }

  lemma FrameAppend(code: seq<Instr>, code': seq<Instr>, ext: seq<Instr>, x: set<nat>)
    requires Frame(code, code', x)
    ensures Frame(code, code' + ext, x)
  {
    forall j | j in x ensures Kept(code, code' + ext, j) { assert Kept(code, code', j); }
  }

  lemma FrameTrans(code: seq<Instr>, code1: seq<Instr>, code2: seq<Instr>, x: set<nat>)
    requires Frame(code, code1, x) && Frame(code1, code2, x)
    ensures Frame(code, code2, x)
  {
    forall j | j in x ensures Kept(code, code2, j) { assert Kept(code, code1, j) && Kept(code1, code2, j); }
  }
}
