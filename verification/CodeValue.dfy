/** How the operations of src/lcode.c that turn a descriptor into a register, a branch or its negation
    keep its meaning. All lemmas are about one run; the operations state them for every run. */
module CodeValue {
  import opened Basics
  import opened CodeMachine
  import opened CodeLists
  import opened CodeRun
  import opened CodeState
  import opened CodeExp

  // ---------------------------------------------------------------- luaK_nil

  lemma SetNilOne(r: Regs, reg: nat)
    ensures SetNil(r, reg, reg) == Put(r, reg, Nil)
  {
  }

  /** At the start of a function, registers above the parameters are nil already. */
  lemma NilAtStart(env: Env, s: Unfinished, l: Lists, reg: nat, n: nat, nact: nat, r: Regs)
    requires s.code == [] && s.jl == [] && nact <= reg && Entry(r, nact)
    ensures Like(n, Den(env, s, VNil, l, r), Den(env, s, VNonReloc(reg), l, r))
  {
  }

  ghost function Widened(s: Unfinished, b: nat): Unfinished
    requires |s.code| > 0 && s.code[|s.code| - 1].LoadNil?
  {
    s.(code := s.code[..|s.code| - 1] + [LoadNil(s.code[|s.code| - 1].a, b)])
  }

  /** The previous OP_LOADNIL is extended to cover one more register. */
  lemma NilWidened(env: Env, s: Unfinished, l: Lists, reg: nat, n: nat, r: Regs)
    requires Wf(s) && |s.code| > 0 && s.lasttarget < |s.code| && s.code[|s.code| - 1].LoadNil? && |r| == MAXSTACK && Exits(l) <= s.hold
    requires var i := s.code[|s.code| - 1]; i.a <= reg <= i.b + 1
    requires n <= reg
    ensures var b := s.code[|s.code| - 1].b; var s' := Widened(s, if reg > b then reg else b);
      Like(n, Den(env, s, VNil, l, r), Den(env, s', VNonReloc(reg), l, r)) && Wf(s') && Frame(s.code, s'.code, s.hold)
  {
    var m := |s.code| - 1;
    var i := s.code[m];
    var b := if reg > i.b then reg else i.b;
    var p := s.(code := s.code[..m]);
    ChopWf(s);
    var s' := Widened(s, b);
    assert s' == Appended(p, [LoadNil(i.a, b)], {}) by { assert s.hold + {} == s.hold; }
    PlainRun(env, p, i, r);
    PlainRun(env, p, LoadNil(i.a, b), r);
    PlainWf(p, i);
    PlainWf(p, LoadNil(i.a, b));
    WidenedFrame(s, b);
    var o := Run(env, p, r);
    RunLength(env, p, r);
    if o.AtJump? { FrameSubset(s.code, s'.code, Exits(l), s.hold); ExitKept(s.code, s'.code, l, o.j, o.regs); }
  }

  lemma FrameSubset(code: seq<Instr>, code': seq<Instr>, x: set<nat>, y: set<nat>)
    requires Frame(code, code', y) && x <= y
    ensures Frame(code, code', x)
  {
  }

  lemma WidenedFrame(s: Unfinished, b: nat)
    requires Wf(s) && |s.code| > 0 && s.code[|s.code| - 1].LoadNil?
    ensures Frame(s.code, Widened(s, b).code, s.hold)
  {
    forall j | j in s.hold ensures Kept(s.code, Widened(s, b).code, j) { assert NoTarget(s.code, j); }
  }

  // ---------------------------------------------------------------- comparisons

  /** A comparison is a jump on the `true` list, and false otherwise. */
  ghost function Adopted(s: Unfinished): Unfinished
    requires |s.code| > 0
  {
    s.(hold := s.hold + {|s.code| - 1})
  }

  lemma AdoptedWf(s: Unfinished, k: Kind)
    requires k.VJmp? && KindOk(s, k) && Wf(Pre(s, k))
    ensures Wf(Adopted(s)) && Adopted(s) == Appended(Pre(s, k), [s.code[k.info - 1], Jmp(NO_JUMP)], {k.info}) && k.info !in s.hold
  {
    var p, i, j := Pre(s, k), s.code[k.info - 1], k.info;
    assert s.code == p.code + [i, Jmp(NO_JUMP)];
    TestWf(p, i, NO_JUMP);
    assert j in s.hold ==> NoTarget(p.code, j);
  }

  lemma JmpAsFalse(env: Env, s: Unfinished, k: Kind, l: Lists, r: Regs)
    requires k.VJmp? && KindOk(s, k) && Wf(Pre(s, k)) && Exits(l) <= s.hold
    ensures Den(env, Adopted(s), VFalse, Lists(l.t + [k.info], l.f), r) == Den(env, s, k, l, r)
  {
    AdoptedWf(s, k);
    var p, i, j := Pre(s, k), s.code[k.info - 1], k.info;
    TestRun(env, p, i, NO_JUMP, r);
    var o := Run(env, p, r);
    if o.AtJump? { HeldBelow(env, p, r); }
    assert j in l.f ==> j in Exits(l);
  }

  /** A run that stops does so at a jump on hold. */
  lemma HeldBelow(env: Env, s: Unfinished, r: Regs)
    requires Run(env, s, r).AtJump?
    ensures Run(env, s, r).j in s.hold && Run(env, s, r).j < |s.code|
  {
    ExecPending(env, s.code, Pend(s), 0, r);
  }

  lemma {:induction false} ExecPending(env: Env, code: seq<Instr>, pend: set<nat>, pc: nat, r: Regs)
    ensures var o := Exec(env, code, pend, pc, r); o.AtJump? ==> o.j in pend && o.j < |code|
    decreases |code| - pc
  {
    if pc < |code| {
      var e := Step(env, code, pend, pc, r);
      if e.Goto? && e.pc > pc { ExecPending(env, code, pend, e.pc, e.regs); }
    }
  }

  // ---------------------------------------------------------------- exp2reg

  /** `a` runs like `s`, and at its end the value of the descriptor is in `reg`. */
  ghost predicate Settled(env: Env, s: Unfinished, k: Kind, a: Unfinished, reg: nat, n: nat, r: Regs) {
    var o, o' := Run(env, s, r), Run(env, a, r);
    if o.End? then o'.End? && Agree(n, o.regs, o'.regs) && KindValue(env, s.code, k, o.regs) == Some(Get(o'.regs, reg)) else o' == o
  }

  /** All exits go to the end, with their values in `reg`. */
  lemma FinishLike(env: Env, s: Unfinished, k: Kind, l: Lists, a: Unfinished, code4: seq<Instr>, code5: seq<Instr>, reg: nat, pf: int, pt: int, n: nat, r: Regs)
    requires |r| == MAXSTACK && n <= reg && !k.VReloc? && !k.VJmp?
    requires Settled(env, s, k, a, reg, n, r) && Frame(s.code, a.code, Exits(l)) && Elems(l.t) !! Elems(l.f) && Exits(l) <= a.hold
    requires Finishing(a, code4, Elems(l.f), reg, pf, false)
    requires Finishing(Finished(a, code4, Elems(l.f)), code5, Elems(l.t), reg, pt, true)
    ensures Like(n, Den(env, s, k, l, r), Den(env, Finished(Finished(a, code4, Elems(l.f)), code5, Elems(l.t)), VNonReloc(reg), Lists([], []), r))
  {
    FinishRun(env, a, code4, Elems(l.f), reg, pf, false, r);
    FinishRun(env, Finished(a, code4, Elems(l.f)), code5, Elems(l.t), reg, pt, true, r);
    var o := Run(env, s, r);
    RunLength(env, s, r);
    if o.AtJump? && o.j in Exits(l) {
      assert Kept(s.code, a.code, o.j);
      assert (o.j in l.t <==> o.j in Elems(l.t)) && (o.j in l.f <==> o.j in Elems(l.f));
      if o.j in l.t { FinishKept(a, code4, l, reg, pf, o.j); }
      PutGet(o.regs, reg, n, JumpValue(s.code, o.j, o.regs, o.j in l.t));
    }
  }

  lemma PutGet(r: Regs, reg: nat, n: nat, v: Value)
    requires n <= reg < |r|
    ensures Get(Put(r, reg, v), reg) == v && Agree(n, r, Put(r, reg, v))
  {
  }

  lemma FinishKept(a: Unfinished, code4: seq<Instr>, l: Lists, reg: nat, pf: int, j: nat)
    requires Finishing(a, code4, Elems(l.f), reg, pf, false) && j in l.t && Elems(l.t) !! Elems(l.f) && Exits(l) <= a.hold
    ensures Kept(a.code, code4, j)
  {
    FinishWf(a, code4, Elems(l.f), reg, pf, false);
    assert j in Elems(l.t);
  }

  ghost function Bools(reg: nat): seq<Instr> { [LoadBool(reg, false, true), LoadBool(reg, true, false)] }

  /** The code with the two loads of booleans behind it. */
  ghost function WithBools(s: Unfinished, reg: nat): Unfinished { Appended(s, Bools(reg), {}).(lasttarget := |s.code| + 2) }

  lemma BoolsWf(s: Unfinished, reg: nat)
    requires Wf(s) && s.jl == []
    ensures Wf(WithBools(s, reg)) && Frame(s.code, WithBools(s, reg).code, s.hold)
    ensures var c := WithBools(s, reg).code; LoadsBool(c, |s.code|, reg, false) && LoadsBool(c, |s.code| + 1, reg, true)
  {
    EndLands(s.code, Pend(s), s.lasttarget);
    AppendWf(s, Bools(reg), {}, |s.code| + 2);
  }

  lemma BoolsRun(env: Env, s: Unfinished, reg: nat, r: Regs)
    requires Wf(s) && s.jl == []
    ensures var o := Run(env, s, r); Run(env, WithBools(s, reg), r) == if o.End? then End(Put(o.regs, reg, Bool(false))) else o
  {
    AppendRun(env, s, Bools(reg), {}, r);
    var o := Run(env, s, r);
    if o.End? { LoadsEnd(env, s.code + Bools(reg), s.hold + {}, |s.code|, reg, false, o.regs); }
  }

  /** exp2reg for a comparison: falling through loads false. */
  lemma FalseSettled(env: Env, s: Unfinished, reg: nat, n: nat, r: Regs)
    requires Wf(s) && s.jl == [] && n <= reg < MAXSTACK && |r| == MAXSTACK
    ensures Settled(env, s, VFalse, WithBools(s, reg), reg, n, r)
  {
    BoolsRun(env, s, reg, r);
    RunLength(env, s, r);
  }

  /** exp2reg for a value in its register: a jump leads over the two loads. */
  ghost function Skipped(s: Unfinished, d: int, reg: nat): Unfinished {
    var a := WithBools(Held(s, d), reg);
    Here(a, a.code, [|s.code|] + s.jl)
  }

  lemma SkippedWf(s: Unfinished, d: int, reg: nat)
    requires Wf(s)
    ensures Wf(Skipped(s, d, reg)) && Frame(s.code, Skipped(s, d, reg).code, s.hold) && s.hold <= Skipped(s, d, reg).hold
    ensures var c := Skipped(s, d, reg).code; LoadsBool(c, |s.code| + 1, reg, false) && LoadsBool(c, |s.code| + 2, reg, true)
  {
    HoldWf(s, d);
    BoolsWf(Held(s, d), reg);
    var a := WithBools(Held(s, d), reg);
    ElemsAppend([|s.code|], s.jl);
    HereWf(a, a.code, [|s.code|] + s.jl);
    FrameSubset(s.code, Held(s, d).code, s.hold, Pend(s));
    FrameSubset(Held(s, d).code, a.code, s.hold, Held(s, d).hold);
    FrameTrans(s.code, Held(s, d).code, a.code, s.hold);
    forall j | j in s.hold ensures j in Skipped(s, d, reg).hold { assert NoTarget(s.code, j); }
  }

  lemma SkipSettled(env: Env, s: Unfinished, d: int, reg: nat, n: nat, r: Regs)
    requires Wf(s) && |r| == MAXSTACK
    ensures Settled(env, s, VNonReloc(reg), Skipped(s, d, reg), reg, n, r)
  {
    HoldWf(s, d);
    BoolsWf(Held(s, d), reg);
    var a, l := WithBools(Held(s, d), reg), [|s.code|] + s.jl;
    ElemsAppend([|s.code|], s.jl);
    HoldRun(env, s, d, r);
    BoolsRun(env, Held(s, d), reg, r);
    HereRun(env, a, a.code, l, r);
    var o := Run(env, s, r);
    if o.AtJump? { HeldBelow(env, s, r); }
  }

  // ---------------------------------------------------------------- luaK_goiftrue and luaK_goiffalse

  /** The test at n goes on when the value of the descriptor is on the other side, and otherwise jumps,
      delivering the value. */
  ghost predicate Splits(env: Env, code: seq<Instr>, k: Kind, i: Instr, n: nat, side: bool, r: Regs)
    requires TestMode(i)
  {
    match KindValue(env, code, k, r)
    case None => Tested(env, i, n, r) == Error
    case Some(v) =>
      if IsFalse(v) == side then Tested(env, i, n, r) == End(r)
      else Tested(env, i, n, r) == AtJump(n + 1, r) && v == if i.TestSet? then Get(r, i.b) else Bool(side)
  }

  /** OP_TESTSET on the register that has the value. */
  lemma TestSetSplits(env: Env, code: seq<Instr>, reg: nat, n: nat, side: bool, r: Regs)
    requires |r| == MAXSTACK
    ensures Splits(env, code, VNonReloc(reg), TestSet(NO_REG, reg, side), n, side, r)
  {
  }

  /** OP_TEST in place of an OP_NOT. */
  lemma NotSplits(env: Env, code: seq<Instr>, i: nat, n: nat, side: bool, r: Regs)
    requires i < |code| && code[i].Not?
    ensures Splits(env, code, VReloc(i), Test(code[i].b, !side), n, side, r)
  {
  }

  /** A comparison, inverted if it is to jump when false. */
  lemma CompareSplits(env: Env, code: seq<Instr>, i: nat, n: nat, side: bool, r: Regs)
    requires 1 <= i < |code| && code[i - 1].Compare?
    ensures var c := code[i - 1]; Splits(env, code, VJmp(i), if side then c else Compare(c.cmp, !c.cond, c.b, c.c), n, side, r)
  {
  }

  /** s1 goes on where the value of the descriptor is on the other side than `side`, and stops at a jump
      in `fork` that delivers the value where it is on that side. */
  ghost predicate Forks(env: Env, s: Unfinished, k: Kind, s1: Unfinished, fork: seq<nat>, side: bool, r: Regs) {
    var o, o' := Run(env, Pre(s, k), r), Run(env, s1, r);
    if o.End? then
      match KindValue(env, s.code, k, o.regs)
      case None => o' == Error
      case Some(v) =>
        if IsFalse(v) == side then o' == o
        else o'.AtJump? && o'.j in fork && o'.regs == o.regs && JumpValue(s1.code, o'.j, o'.regs, side) == v
    else o' == o
  }

  lemma SplitForks(env: Env, s: Unfinished, k: Kind, p: Unfinished, i: Instr, side: bool, r: Regs)
    requires Wf(p) && p.jl == [] && TestMode(i) && Run(env, p, r) == Run(env, Pre(s, k), r)
    requires var o := Run(env, p, r); o.End? ==> Splits(env, s.code, k, i, |p.code|, side, o.regs)
    ensures Forks(env, s, k, Appended(p, [i, Jmp(NO_JUMP)], {|p.code| + 1}), [|p.code| + 1], side, r)
  {
    TestRun(env, p, i, NO_JUMP, r);
  }

  /** A constant that is always on the other side needs no test. */
  lemma ConstantForks(env: Env, s: Unfinished, k: Kind, side: bool, r: Regs)
    requires if side then k == VNil || k == VFalse else k == VTrue || k.VKNum?
    ensures Forks(env, s, k, s, [], side, r)
  {
  }

  /** What a branch makes of the meaning of its condition. */
  ghost predicate Branches(env: Env, d: Meaning, s: Unfinished, x: seq<nat>, side: bool, n: nat, r: Regs) {
    BranchOutcome(d, s.code, Run(env, s, r), x, side, n)
  }

  ghost predicate BranchOutcome(d: Meaning, code: seq<Instr>, o: Outcome, x: seq<nat>, side: bool, n: nat) {
    match d
    case Val(r1, v) =>
      if IsFalse(v) == side then o.End? && Agree(n, r1, o.regs)
      else o.AtJump? && o.j in x && Agree(n, r1, o.regs) && JumpValue(code, o.j, o.regs, side) == v
    case Fail => o == Error
    case Out(j, r1) => o == AtJump(j, r1)
    case Bad => true
  }

  ghost function SideOf(l: Lists, side: bool): seq<nat> { if side then l.t else l.f }

  lemma RewiredValue(code: seq<Instr>, code': seq<Instr>, x: set<nat>, j: nat, r: Regs, side: bool)
    requires Rewired(code, code', x)
    ensures JumpValue(code', j, r, side) == JumpValue(code, j, r, side)
  {
  }

  lemma BranchLike(env: Env, s: Unfinished, k: Kind, l: Lists, s1: Unfinished, fork: seq<nat>, code': seq<Instr>, y: set<nat>, side: bool, n: nat, r: Regs)
    requires |r| == MAXSTACK && Forks(env, s, k, s1, fork, side, r) && Frame(s.code, s1.code, Exits(l)) && Elems(l.t) !! Elems(l.f)
    requires Wf(s1) && Exits(l) <= s1.hold && Elems(fork) !! Exits(l) && Rewired(s1.code, code', y) && y <= Pend(s1)
    ensures Branches(env, Den(env, s, k, l, r), Here(s1, code', SideOf(l, !side)), SideOf(l, side) + fork, side, n, r)
  {
    RewiredNeutral(s1, code', y);
    var lo := SideOf(l, !side);
    HereRun(env, s1, code', lo, r);
    var o, o1 := Run(env, Pre(s, k), r), Run(env, s1, r);
    if o1.AtJump? {
      RewiredValue(s1.code, code', y, o1.j, o1.regs, side);
      if o1.j in Exits(l) { assert Kept(s.code, s1.code, o1.j); }
      ForkApart(l, fork, o1.j);
    }
  }

  lemma ForkApart(l: Lists, fork: seq<nat>, j: nat)
    requires Elems(l.t) !! Elems(l.f) && Elems(fork) !! Exits(l)
    ensures !(j in l.t && j in l.f) && (j in fork ==> j !in l.t && j !in l.f) && (j in Exits(l) <==> j in l.t || j in l.f)
  {
    assert (j in l.t <==> j in Elems(l.t)) && (j in l.f <==> j in Elems(l.f)) && (j in fork <==> j in Elems(fork));
  }

  // ---------------------------------------------------------------- codenot

  ghost function Negated(d: Meaning): Meaning { if d.Val? then Val(d.regs, Bool(IsFalse(d.v))) else d }

  /** The new descriptor stands for the negation, with the lists as they were. */
  ghost predicate Flips(env: Env, s: Unfinished, k: Kind, s': Unfinished, k': Kind, r: Regs) {
    var o := Run(env, Pre(s, k), r);
    && Run(env, Pre(s', k'), r) == o
    && (o.End? ==>
      match KindValue(env, s.code, k, o.regs)
      case None => KindValue(env, s'.code, k', o.regs) == None
      case Some(v) => KindValue(env, s'.code, k', o.regs) == Some(Bool(IsFalse(v))))
  }

  /** The lists change places, and their jumps deliver no values any more. */
  lemma SwapLike(env: Env, s: Unfinished, k: Kind, l: Lists, s1: Unfinished, k1: Kind, code': seq<Instr>, n: nat, r: Regs)
    requires |r| == MAXSTACK && Flips(env, s, k, s1, k1, r) && Frame(s.code, s1.code, Exits(l)) && Elems(l.t) !! Elems(l.f)
    requires KindOk(s1, k1) && Wf(Pre(s1, k1)) && Exits(l) <= s1.hold && Dropped(s1.code, code', Exits(l))
    ensures Like(n, Negated(Den(env, s, k, l, r)), Den(env, s1.(code := code'), k1, Lists(l.f, l.t), r))
  {
    var s2 := s1.(code := code');
    DropPre(s1, k1, l, code');
    NeutralRun(env, Pre(s1, k1), Pre(s2, k1).code, r);
    assert Pre(s2, k1) == Pre(s1, k1).(code := Pre(s2, k1).code);
    var o := Run(env, Pre(s, k), r);
    if o.AtJump? { ExitSwapped(s.code, s1.code, code', l, n, o.j, o.regs); }
  }

  lemma ExitSwapped(code: seq<Instr>, code1: seq<Instr>, code': seq<Instr>, l: Lists, n: nat, j: nat, r: Regs)
    requires Frame(code, code1, Exits(l)) && Elems(l.t) !! Elems(l.f) && Dropped(code1, code', Exits(l))
    ensures Like(n, Negated(Exit(code, l, j, r)), Exit(code', Lists(l.f, l.t), j, r))
  {
    ForkApart(l, [], j);
    if j in Exits(l) { DroppedValue(code1, code', Exits(l), j); }
  }

  lemma DroppedValue(code: seq<Instr>, code': seq<Instr>, x: set<nat>, j: nat)
    requires Dropped(code, code', x) && j in x
    ensures !HasValue(code', j)
  {
    if 1 <= j <= |code'| { assert code'[j - 1] == if j in x && code[j - 1].TestSet? then Test(code[j - 1].b, code[j - 1].cond) else code[j - 1]; }
  }

  lemma DropPre(s: Unfinished, k: Kind, l: Lists, code': seq<Instr>)
    requires KindOk(s, k) && Wf(Pre(s, k)) && Exits(l) <= s.hold && Dropped(s.code, code', Exits(l))
    ensures Neutral(Pre(s, k).code, Pre(s.(code := code'), k).code, Pend(Pre(s, k)))
    ensures forall env, r :: KindValue(env, code', k, r) == KindValue(env, s.code, k, r)
    ensures KindOk(s.(code := code'), k) && Wf(Pre(s.(code := code'), k))
  {
    var p := Pre(s, k);
    forall i | 0 <= i < |s.code| && i + 1 in Exits(l) && s.code[i].TestSet? ensures s.code[i].a == NO_REG && i + 1 < |p.code| {
      assert NoTarget(p.code, i + 1);
    }
    NeutralWf(p, Pre(s.(code := code'), k).code);
    assert Pre(s.(code := code'), k) == p.(code := Pre(s.(code := code'), k).code);
  }
}
