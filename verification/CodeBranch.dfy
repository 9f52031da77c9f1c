/** Conditional jumps and negation (src/lcode.c, jumponcond, luaK_goiftrue, luaK_goiffalse, codenot). */
module CodeBranch {
  import opened CodeMachine
  import opened CodeLists
  import opened CodeRun
  import opened CodeState
  import opened CodeGen
  import opened CodeExp
  import opened CodeValue
  import opened CodeOps
  import opened CodeEmit

  ghost predicate ForksAll(s: Unfinished, k: Kind, s1: Unfinished, fork: seq<nat>, side: bool, ks: Env, nact: nat) {
    forall env: Env, r: Regs :: Extends(ks, env) && Entry(r, nact) ==> Forks(env, s, k, s1, fork, side, r)
  }

  /** The code behind the branch is reached with the value on the other side than `side`; on that side,
      the jumps in `x` are taken and deliver the value. */
  ghost predicate BranchesAll(s: Unfinished, k: Kind, l: Lists, s': Unfinished, x: seq<nat>, side: bool, n: nat, ks: Env, nact: nat) {
    forall env: Env, r: Regs :: Extends(ks, env) && Entry(r, nact) ==> Branches(env, Den(env, s, k, l, r), s', x, side, n, r)
  }

  /** The state after a test, and its jump. */
  ghost predicate Forked(s: Unfinished, s1: Unfinished, fork: seq<nat>) {
    Wf(s1) && s1.hold == s.hold + Elems(fork) && Elems(fork) !! s.hold && Frame(s.code, s1.code, s.hold)
  }

  lemma TestAll(s: Unfinished, k: Kind, p: Unfinished, i: Instr, side: bool, ks: Env, nact: nat)
    requires Wf(p) && p.jl == [] && p.hold == s.hold && TestMode(i) && (i.TestSet? ==> i.a == NO_REG) && Frame(s.code, p.code, s.hold)
    requires forall env: Env, r: Regs :: |r| == MAXSTACK ==> Run(env, p, r) == Run(env, Pre(s, k), r)
    requires forall env: Env, r: Regs :: |r| == MAXSTACK ==> Splits(env, s.code, k, i, |p.code|, side, r)
    ensures var s1 := Appended(p, [i, Jmp(NO_JUMP)], {|p.code| + 1}); ForksAll(s, k, s1, [|p.code| + 1], side, ks, nact) && Forked(s, s1, [|p.code| + 1])
  {
    var j: nat := |p.code| + 1;
    var s1 := Appended(p, [i, Jmp(NO_JUMP)], {j});
    TestWf(p, i, NO_JUMP);
    FrameTrans(s.code, p.code, s1.code, s.hold);
    assert Elems([j]) == {j};
    assert j in s.hold ==> NoTarget(p.code, j);
    forall env: Env, r: Regs | Extends(ks, env) && Entry(r, nact) ensures Forks(env, s, k, s1, [j], side, r) {
      RunLength(env, p, r);
      SplitForks(env, s, k, p, i, side, r);
    }
  }

  /** condjump with OP_TESTSET on the register that has the value. */
  method TestRegister(fs: FuncState, reg: nat, side: bool, ghost e: ExpDesc, ghost l: Lists) returns (j: nat)
    requires Ready(fs) && ExpOk(fs.View(), e, l) && e.k == VNonReloc(reg)
    modifies fs`code, fs`jpc, fs`jl, fs`hold
    ensures Ready(fs) && ForksAll(old(fs.View()), e.k, fs.View(), [j], side, fs.Consts(), fs.nactvar) && Forked(old(fs.View()), fs.View(), [j])
    ensures IsList(fs.code, j, [j]) && fs.jl == []
  {
    ghost var s, c1 := fs.View(), fs.code;
    var i := TestSet(NO_REG, reg, side);
    j, c1 := fs.CondJump(i);
    TestSetAll(s, c1, reg, side, fs.Consts(), fs.nactvar);
    assert fs.View() == Appended(Discharged(s, c1), [i, Jmp(NO_JUMP)], {j});
    assert Link(fs.code, [j], 0);
  }

  lemma TestSetAll(s: Unfinished, c1: seq<Instr>, reg: nat, side: bool, ks: Env, nact: nat)
    requires Discharges(s, c1)
    ensures var s1 := Appended(Discharged(s, c1), [TestSet(NO_REG, reg, side), Jmp(NO_JUMP)], {|c1| + 1});
      ForksAll(s, VNonReloc(reg), s1, [|c1| + 1], side, ks, nact) && Forked(s, s1, [|c1| + 1])
  {
    var p, i := Discharged(s, c1), TestSet(NO_REG, reg, side);
    DischargeWf(s, c1);
    forall env: Env, r: Regs | |r| == MAXSTACK
      ensures Run(env, p, r) == Run(env, s, r) && Splits(env, s.code, VNonReloc(reg), i, |c1|, side, r)
    {
      DischargeRun(env, s, c1, r);
      TestSetSplits(env, s.code, reg, |c1|, side, r);
    }
    TestAll(s, VNonReloc(reg), p, i, side, ks, nact);
  }

  /** jumponcond on an OP_NOT: the instruction is removed, and its operand is tested the other way. */
  method TestNegated(fs: FuncState, side: bool, ghost e: ExpDesc, ghost l: Lists) returns (j: nat)
    requires Ready(fs) && ExpOk(fs.View(), e, l) && e.k.VReloc? && fs.code[e.k.info].Not?
    modifies fs`code, fs`jpc, fs`jl, fs`hold
    ensures Ready(fs) && ForksAll(old(fs.View()), e.k, fs.View(), [j], side, fs.Consts(), fs.nactvar) && Forked(old(fs.View()), fs.View(), [j])
    ensures IsList(fs.code, j, [j]) && fs.jl == []
  {
    ghost var s, c1 := fs.View(), fs.code;
    var at := |fs.code| - 1;
    var i := Test(fs.code[at].b, !side);
    fs.code := fs.code[..at];
    ghost var p := fs.View();
    RelocFrame(s, e.k, s.code[at]);
    j, c1 := fs.CondJump(i);
    NothingPatched(p.code, c1, |c1|, |c1|);
    forall env: Env, r: Regs | |r| == MAXSTACK ensures Run(env, p, r) == Run(env, Pre(s, e.k), r) && Splits(env, s.code, e.k, i, |p.code|, side, r) {
      NotSplits(env, s.code, at, |p.code|, side, r);
    }
    TestAll(s, e.k, p, i, side, fs.Consts(), fs.nactvar);
    assert fs.View() == Appended(p, [i, Jmp(NO_JUMP)], {j});
    assert Link(fs.code, [j], 0);
  }

  /** A comparison becomes a test for the side; invertjump if it is to jump when false. */
  method TestCompare(fs: FuncState, side: bool, ghost e: ExpDesc, ghost l: Lists) returns (j: nat)
    requires Ready(fs) && ExpOk(fs.View(), e, l) && e.k.VJmp?
    modifies fs`code, fs`hold
    ensures Ready(fs) && ForksAll(old(fs.View()), e.k, fs.View(), [j], side, fs.Consts(), fs.nactvar) && Forked(old(fs.View()), fs.View(), [j])
    ensures IsList(fs.code, j, [j]) && fs.jl == []
  {
    ghost var s := fs.View();
    j := |fs.code| - 1;
    var c := fs.code[j - 1];
    var i := if side then c else Compare(c.cmp, !c.cond, c.b, c.c);
    fs.code := fs.code[j - 1 := i];
    fs.hold := fs.hold + {j};
    ghost var p := Pre(s, e.k);
    CompareFrame(s, e.k);
    forall env: Env, r: Regs | |r| == MAXSTACK ensures Splits(env, s.code, e.k, i, |p.code|, side, r) {
      CompareSplits(env, s.code, j, |p.code|, side, r);
    }
    TestAll(s, e.k, p, i, side, fs.Consts(), fs.nactvar);
    assert fs.code == p.code + [i, Jmp(NO_JUMP)];
    assert fs.View() == Appended(p, [i, Jmp(NO_JUMP)], {j});
    assert Link(fs.code, [j], 0);
  }

  lemma CompareFrame(s: Unfinished, k: Kind)
    requires k.VJmp? && KindOk(s, k) && Wf(Pre(s, k))
    ensures Frame(s.code, Pre(s, k).code, s.hold)
  {
    forall j | j in s.hold ensures Kept(s.code, Pre(s, k).code, j) { assert NoTarget(Pre(s, k).code, j); }
  }

  /** discharge2anyreg */
  method Discharge2AnyReg(fs: FuncState, e0: ExpDesc, ghost l: Lists, ghost base: nat) returns (st: Status, e: ExpDesc)
    requires Ready(fs) && ExpOk(fs.View(), e0, l) && Holds(e0.k, base, fs.freereg, fs.nactvar) && fs.freereg <= MAXSTACK && !e0.k.VJmp? && !e0.k.VLocal?
    modifies fs
    ensures base + 1 < MAXSTACK ==> st.Fine?
    ensures st.Fine? ==>
      && Ready(fs) && e.k.VNonReloc? && e == e0.(k := e.k) && Holds(e.k, base, fs.freereg, fs.nactvar) && fs.freereg <= MAXSTACK
      && Converts(old(fs.View()), e0, l, old(fs.Consts()), fs.View(), e, l, fs.Consts(), base, fs.nactvar)
  {
    if e0.k.VNonReloc? {
      ConvertsSelf(fs.View(), e0, l, fs.Consts(), base, fs.nactvar);
      return Fine, e0;
    }
    e := e0;
    st := fs.ReserveRegs(1);
    if st.TooComplex? { return; }
    e := Discharge2Reg(fs, e0, fs.freereg - 1, l, base);
  }

  /** jumponcond: a jump that is taken when the value is on the side `cond`. */
  method JumpOnCond(fs: FuncState, e: ExpDesc, cond: bool, ghost l: Lists, ghost base: nat) returns (st: Status, j: nat, ghost s1: Unfinished, ghost e1: ExpDesc)
    requires Ready(fs) && ExpOk(fs.View(), e, l) && Holds(e.k, base, fs.freereg, fs.nactvar) && fs.freereg <= MAXSTACK && !e.k.VJmp? && !e.k.VLocal?
    modifies fs
    ensures base + 1 < MAXSTACK ==> st.Fine?
    ensures st.Fine? ==>
      && Ready(fs) && fs.freereg == base && IsList(fs.code, j, [j]) && fs.jl == []
      && Converts(old(fs.View()), e, l, old(fs.Consts()), s1, e1, l, fs.Consts(), base, fs.nactvar) && e1 == e.(k := e1.k)
      && ForksAll(s1, e1.k, fs.View(), [j], cond, fs.Consts(), fs.nactvar) && Forked(s1, fs.View(), [j])
  {
    s1, e1 := fs.View(), e;
    j := 0;
    if e.k.VReloc? && fs.code[e.k.info].Not? {
      ConvertsSelf(s1, e, l, fs.Consts(), base, fs.nactvar);
      j := TestNegated(fs, cond, e, l);
      st := Fine;
      return;
    }
    var e2;
    st, e2 := Discharge2AnyReg(fs, e, l, base);
    if st.TooComplex? { return; }
    FreeExp(fs, e2, base);
    s1, e1 := fs.View(), e2;
    j := TestRegister(fs, e2.k.info, cond, e2, l);
  }

  lemma RewiredTrans(code: seq<Instr>, code1: seq<Instr>, code2: seq<Instr>, x: set<nat>, y: set<nat>)
    requires Rewired(code, code1, x) && Rewired(code1, code2, y)
    ensures Rewired(code, code2, x + y)
  {
  }

  /** For every run, what BranchLike says about one. */
  lemma BranchAll(s: Unfinished, k: Kind, l: Lists, s1: Unfinished, fork: seq<nat>, code': seq<Instr>, y: set<nat>, side: bool, n: nat, ks: Env, nact: nat)
    requires ForksAll(s, k, s1, fork, side, ks, nact) && Forked(s, s1, fork) && Exits(l) <= s.hold && Elems(l.t) !! Elems(l.f)
    requires Rewired(s1.code, code', y) && y <= Pend(s1)
    ensures BranchesAll(s, k, l, Here(s1, code', SideOf(l, !side)), SideOf(l, side) + fork, side, n, ks, nact)
  {
    FrameSubset(s.code, s1.code, Exits(l), s.hold);
    var s', x := Here(s1, code', SideOf(l, !side)), SideOf(l, side) + fork;
    forall env: Env, r: Regs | Extends(ks, env) && Entry(r, nact) ensures Branches(env, Den(env, s, k, l, r), s', x, side, n, r) {
      assert Forks(env, s, k, s1, fork, side, r);
      BranchLike(env, s, k, l, s1, fork, code', y, side, n, r);
    }
  }

  /** The lists of an expression after a branch: only those on the side are left. */
  ghost function OneSide(x: seq<nat>, side: bool): Lists { if side then Lists(x, []) else Lists([], x) }

  /** luaK_goiftrue and luaK_goiffalse, last part: the new jump joins the list of its side, and the jumps
      on the other list lead here. */
  method Divert(fs: FuncState, sideList: int, otherList: int, list: int, side: bool, ghost e: ExpDesc, ghost l: Lists, ghost s: Unfinished, ghost fork: seq<nat>, ghost n: nat)
    returns (head: int)
    requires Ready(fs) && Forked(s, fs.View(), fork) && ExpOk(s, e, l) && IsList(fs.code, list, fork) && ForksAll(s, e.k, fs.View(), fork, side, fs.Consts(), fs.nactvar)
    requires sideList == (if side then e.t else e.f) && otherList == (if side then e.f else e.t)
    modifies fs`code, fs`jpc, fs`jl, fs`hold, fs`lasttarget
    ensures Ready(fs) && Wf(fs.View()) && IsList(fs.code, head, SideOf(l, side) + fork)
    ensures Moves(s, l, fs.View(), OneSide(SideOf(l, side) + fork, side))
    ensures BranchesAll(s, e.k, l, fs.View(), SideOf(l, side) + fork, side, n, fs.Consts(), fs.nactvar)
  {
    ghost var s1, x, lo := fs.View(), SideOf(l, side), SideOf(l, !side);
    FrameList(s.code, s1.code, s.hold, e.t, l.t);
    FrameList(s.code, s1.code, s.hold, e.f, l.f);
    fs.code, head := Concat(fs.code, sideList, list, x, fork);
    ghost var c2 := fs.code;
    assert Rewired(s1.code, c2, Elems(x));
    UntouchedList(s1.code, c2, Elems(x), fs.jpc, fs.jl);
    UntouchedList(s1.code, c2, Elems(x), otherList, lo);
    fs.PatchToHere(otherList, lo);
    ElemsAppend(x, fork);
    UntouchedList(c2, fs.code, Elems(s1.jl), head, x + fork);
    RewiredTrans(s1.code, c2, fs.code, Elems(x), Elems(s1.jl));
    BranchAll(s, e.k, l, s1, fork, fs.code, Elems(x) + Elems(s1.jl), side, n, fs.Consts(), fs.nactvar);
    assert fs.View() == Here(s1, fs.code, lo);
    DivertMoves(s, l, s1, fork, fs.code, side);
  }

  lemma UntouchedList(code: seq<Instr>, code': seq<Instr>, x: set<nat>, head: int, l: seq<nat>)
    requires Rewired(code, code', x) && IsList(code, head, l) && Elems(l) !! x
    ensures IsList(code', head, l)
  {
    forall i | 0 <= i < |l| ensures l[i] < |code'| && code'[l[i]] == code[l[i]] { assert l[i] in Elems(l) && IsJump(code, l[i]); }
    ListFrame(code, code', head, l);
  }

  lemma DivertMoves(s: Unfinished, l: Lists, s1: Unfinished, fork: seq<nat>, code': seq<Instr>, side: bool)
    requires Forked(s, s1, fork) && Exits(l) <= s.hold && Elems(l.t) !! Elems(l.f)
    requires Rewired(s1.code, code', Elems(SideOf(l, side)) + Elems(s1.jl))
    ensures var s' := Here(s1, code', SideOf(l, !side)); Wf(s') && Moves(s, l, s', OneSide(SideOf(l, side) + fork, side))
  {
    var x, y := SideOf(l, side), Elems(SideOf(l, side)) + Elems(s1.jl);
    var s', l' := Here(s1, code', SideOf(l, !side)), OneSide(x + fork, side);
    ElemsAppend(x, fork);
    assert Exits(l') == Elems(x) + Elems(fork);
    RewiredNeutral(s1, code', y);
    HereWf(s1, code', SideOf(l, !side));
    assert s'.hold == (s.hold - Exits(l)) + Exits(l');
    forall j | j in s.hold - Exits(l) ensures Kept(s.code, code', j) {
      assert Kept(s.code, s1.code, j);
      RewiredKept(s1.code, code', y, j);
    }
  }

  lemma RewiredKept(code: seq<Instr>, code': seq<Instr>, x: set<nat>, j: nat)
    requires Rewired(code, code', x) && j < |code| && j !in x
    ensures Kept(code, code', j)
  {
  }

  /** A meaning that is like another one branches like it. */
  lemma BranchesLike(s: Unfinished, k: Kind, l: Lists, s1: Unfinished, k1: Kind, l1: Lists, s': Unfinished, x: seq<nat>, side: bool, n: nat, ks1: Env, ks: Env, nact: nat)
    requires Same(s, k, l, s1, k1, l1, n, ks1, nact) && Extends(ks1, ks) && BranchesAll(s1, k1, l1, s', x, side, n, ks, nact)
    ensures BranchesAll(s, k, l, s', x, side, n, ks, nact)
  {
    forall env: Env, r: Regs | Extends(ks, env) && Entry(r, nact) ensures Branches(env, Den(env, s, k, l, r), s', x, side, n, r) {
      assert Like(n, Den(env, s, k, l, r), Den(env, s1, k1, l1, r));
      assert Branches(env, Den(env, s1, k1, l1, r), s', x, side, n, r);
    }
  }

  /** What a branch on an expression promises; `head` starts the list of the jumps on its side. */
  ghost predicate Branched(s: Unfinished, e: ExpDesc, l: Lists, ks: Env, s': Unfinished, head: int, x: seq<nat>, side: bool, ks': Env, base: nat, nact: nat) {
    && Wf(s') && IsList(s'.code, head, x) && Moves(s, l, s', OneSide(x, side)) && Extends(ks, ks')
    && BranchesAll(s, e.k, l, s', x, side, base, ks', nact)
  }

  lemma BranchedTrans(s: Unfinished, e: ExpDesc, l: Lists, ks: Env, s1: Unfinished, e1: ExpDesc, l1: Lists, ks1: Env, s': Unfinished, head: int, x: seq<nat>, side: bool, ks': Env, base: nat, nact: nat)
    requires Converts(s, e, l, ks, s1, e1, l1, ks1, base, nact) && Branched(s1, e1, l1, ks1, s', head, x, side, ks', base, nact)
    ensures Branched(s, e, l, ks, s', head, x, side, ks', base, nact)
  {
    MovesTrans(s, l, s1, l1, s', OneSide(x, side));
    BranchesLike(s, e.k, l, s1, e1.k, l1, s', x, side, base, ks1, ks', nact);
  }

  /** The constant needs no test: control always goes on. */
  lemma ConstantAll(s: Unfinished, e: ExpDesc, l: Lists, side: bool, ks: Env, nact: nat)
    requires ExpOk(s, e, l) && if side then e.k == VNil || e.k == VFalse else e.k == VTrue || e.k.VKNum?
    ensures ForksAll(s, e.k, s, [], side, ks, nact) && Forked(s, s, [])
  {
    SelfFrame(s, e.k);
    forall env: Env, r: Regs | Extends(ks, env) && Entry(r, nact) ensures Forks(env, s, e.k, s, [], side, r) { ConstantForks(env, s, e.k, side, r); }
  }

  /** The common end of luaK_goiftrue and luaK_goiffalse. */
  method Branch(fs: FuncState, e: ExpDesc, side: bool, constant: bool, ghost l: Lists, ghost base: nat) returns (st: Status, head: int, ghost x: seq<nat>)
    requires Ready(fs) && ExpOk(fs.View(), e, l) && Holds(e.k, base, fs.freereg, fs.nactvar) && fs.freereg <= MAXSTACK && !e.k.VLocal?
    requires constant ==> if side then e.k == VNil || e.k == VFalse else e.k == VTrue || e.k.VKNum?
    modifies fs
    ensures base + 1 < MAXSTACK ==> st.Fine?
    ensures st.Fine? ==> Ready(fs) && fs.freereg == base && Branched(old(fs.View()), e, l, old(fs.Consts()), fs.View(), head, x, side, fs.Consts(), base, fs.nactvar)
  {
    ghost var s, ks, s1, e1 := fs.View(), fs.Consts(), fs.View(), e;
    ghost var fork: seq<nat> := [];
    var pc := NO_JUMP;
    st, x, head := Fine, [], NO_JUMP;
    ConvertsSelf(s, e, l, ks, base, fs.nactvar);
    if constant {
      ConstantAll(s, e, l, side, fs.Consts(), fs.nactvar);
    } else if e.k.VJmp? {
      pc := TestCompare(fs, side, e, l);
      fork := [pc];
    } else {
      st, pc, s1, e1 := JumpOnCond(fs, e, side, l, base);
      if st.TooComplex? { return; }
      fork := [pc];
    }
    ghost var ks1 := fs.Consts();
    head := Divert(fs, if side then e.t else e.f, if side then e.f else e.t, pc, side, e1, l, s1, fork, base);
    x := SideOf(l, side) + fork;
    BranchedTrans(s, e, l, ks, s1, e1, l, ks1, fs.View(), head, x, side, fs.Consts(), base, fs.nactvar);
  }

  /** luaK_goiftrue: go on if the expression is true; otherwise the jumps on the list are taken. */
  method GoIfTrue(fs: FuncState, e0: ExpDesc, ghost l: Lists, ghost base: nat) returns (st: Status, f: int, ghost x: seq<nat>)
    requires Ready(fs) && ExpOk(fs.View(), e0, l) && Holds(e0.k, base, fs.freereg, fs.nactvar) && fs.freereg <= MAXSTACK && !e0.k.VK?
    modifies fs
    ensures base + 1 < MAXSTACK ==> st.Fine?
    ensures st.Fine? ==> Ready(fs) && fs.freereg == base && Branched(old(fs.View()), e0, l, old(fs.Consts()), fs.View(), f, x, false, fs.Consts(), base, fs.nactvar)
  {
    ghost var s, ks := fs.View(), fs.Consts();
    var e := DischargeVars(e0);
    VarsConvert(s, e0, l, ks, base, fs.nactvar);
    st, f, x := Branch(fs, e, false, e.k == VTrue || e.k.VKNum?, l, base);
    if st.Fine? { BranchedTrans(s, e0, l, ks, s, e, l, ks, fs.View(), f, x, false, fs.Consts(), base, fs.nactvar); }
  }

  /** luaK_goiffalse: go on if the expression is false; otherwise the jumps on the list are taken. */
  method GoIfFalse(fs: FuncState, e0: ExpDesc, ghost l: Lists, ghost base: nat) returns (st: Status, t: int, ghost x: seq<nat>)
    requires Ready(fs) && ExpOk(fs.View(), e0, l) && Holds(e0.k, base, fs.freereg, fs.nactvar) && fs.freereg <= MAXSTACK && !e0.k.VK?
    modifies fs
    ensures base + 1 < MAXSTACK ==> st.Fine?
    ensures st.Fine? ==> Ready(fs) && fs.freereg == base && Branched(old(fs.View()), e0, l, old(fs.Consts()), fs.View(), t, x, true, fs.Consts(), base, fs.nactvar)
  {
    ghost var s, ks := fs.View(), fs.Consts();
    var e := DischargeVars(e0);
    VarsConvert(s, e0, l, ks, base, fs.nactvar);
    st, t, x := Branch(fs, e, true, e.k == VNil || e.k == VFalse, l, base);
    if st.Fine? { BranchedTrans(s, e0, l, ks, s, e, l, ks, fs.View(), t, x, true, fs.Consts(), base, fs.nactvar); }
  }

  // ---------------------------------------------------------------- codenot

  ghost predicate FlipsAll(s: Unfinished, k: Kind, s': Unfinished, k': Kind, ks: Env, nact: nat) {
    forall env: Env, r: Regs :: Extends(ks, env) && Entry(r, nact) ==> Flips(env, s, k, s', k', r)
  }

  /** The second descriptor means the negation of what the first did. */
  ghost predicate Negates(s: Unfinished, k: Kind, l: Lists, s': Unfinished, k': Kind, l': Lists, n: nat, ks: Env, nact: nat) {
    forall env: Env, r: Regs :: Extends(ks, env) && Entry(r, nact) ==> Like(n, Negated(Den(env, s, k, l, r)), Den(env, s', k', l', r))
  }

  lemma SwapAll(s: Unfinished, k: Kind, l: Lists, s1: Unfinished, k1: Kind, code': seq<Instr>, n: nat, ks: Env, nact: nat)
    requires FlipsAll(s, k, s1, k1, ks, nact) && Frame(s.code, s1.code, Exits(l)) && Elems(l.t) !! Elems(l.f)
    requires KindOk(s1, k1) && Wf(Pre(s1, k1)) && Exits(l) <= s1.hold && Dropped(s1.code, code', Exits(l))
    ensures Negates(s, k, l, s1.(code := code'), k1, Lists(l.f, l.t), n, ks, nact)
  {
    forall env: Env, r: Regs | Extends(ks, env) && Entry(r, nact)
      ensures Like(n, Negated(Den(env, s, k, l, r)), Den(env, s1.(code := code'), k1, Lists(l.f, l.t), r))
    {
      assert Flips(env, s, k, s1, k1, r);
      SwapLike(env, s, k, l, s1, k1, code', n, r);
    }
  }

  lemma DroppedTrans(code: seq<Instr>, code1: seq<Instr>, code2: seq<Instr>, x: set<nat>, y: set<nat>)
    requires Dropped(code, code1, x) && Dropped(code1, code2, y)
    ensures Dropped(code, code2, x + y)
  {
  }

  lemma DroppedList(code: seq<Instr>, code': seq<Instr>, x: set<nat>, head: int, l: seq<nat>)
    requires Dropped(code, code', x) && IsList(code, head, l)
    ensures IsList(code', head, l)
  {
    forall i | 0 <= i < |l| ensures l[i] < |code'| && code'[l[i]] == code[l[i]] { assert IsJump(code, l[i]); }
    ListFrame(code, code', head, l);
  }

  lemma DroppedFrame(s: Unfinished, k: Kind, code': seq<Instr>, x: set<nat>)
    requires Wf(Pre(s, k)) && Dropped(s.code, code', x) && x <= s.hold
    ensures Frame(s.code, code', s.hold - x)
  {
    forall j | j in s.hold - x ensures Kept(s.code, code', j) { assert NoTarget(Pre(s, k).code, j); }
  }

  /** codenot, first part: the descriptor's own value is negated. */
  method FlipKind(fs: FuncState, e: ExpDesc, ghost l: Lists, ghost base: nat) returns (st: Status, k: Kind, ghost s1: Unfinished, ghost e1: ExpDesc)
    requires Ready(fs) && ExpOk(fs.View(), e, l) && Holds(e.k, base, fs.freereg, fs.nactvar) && fs.freereg <= MAXSTACK && !e.k.VK? && !e.k.VLocal?
    modifies fs
    ensures base + 1 < MAXSTACK ==> st.Fine?
    ensures st.Fine? ==>
      && Ready(fs) && fs.freereg == base && fs.hold == s1.hold && KindOk(fs.View(), k) && Wf(Pre(fs.View(), k))
      && Frame(s1.code, fs.code, s1.hold) && FlipsAll(s1, e1.k, fs.View(), k, fs.Consts(), fs.nactvar) && e1 == e.(k := e1.k)
      && Converts(old(fs.View()), e, l, old(fs.Consts()), s1, e1, l, fs.Consts(), base, fs.nactvar)
      && (k == VTrue || k == VFalse || k.VReloc? || k.VJmp?)
  {
    st, s1, e1, k := Fine, fs.View(), e, VTrue;
    ConvertsSelf(s1, e, l, fs.Consts(), base, fs.nactvar);
    SelfFrame(s1, e.k);
    if e.k.VNil? || e.k.VFalse? {
      k := VTrue;
    } else if e.k.VKNum? || e.k.VTrue? {
      k := VFalse;
    } else if e.k.VJmp? {
      InvertJump(fs, e, l);
      k := e.k;
    } else {
      var e2;
      st, e2 := Discharge2AnyReg(fs, e, l, base);
      if st.TooComplex? { return; }
      FreeExp(fs, e2, base);
      s1, e1 := fs.View(), e2;
      k := EmitNot(fs, e2.k.info, e2, l);
    }
  }

  /** invertjump on a comparison. */
  method InvertJump(fs: FuncState, e: ExpDesc, ghost l: Lists)
    requires Ready(fs) && ExpOk(fs.View(), e, l) && e.k.VJmp?
    modifies fs`code
    ensures Ready(fs) && KindOk(fs.View(), e.k) && Wf(Pre(fs.View(), e.k)) && Frame(old(fs.code), fs.code, fs.hold)
    ensures FlipsAll(old(fs.View()), e.k, fs.View(), e.k, fs.Consts(), fs.nactvar)
  {
    ghost var s := fs.View();
    var at := e.k.info - 1;
    var c := fs.code[at];
    fs.code := fs.code[at := Compare(c.cmp, !c.cond, c.b, c.c)];
    assert Pre(fs.View(), e.k) == Pre(s, e.k);
    forall j | j in s.hold ensures Kept(s.code, fs.code, j) { assert NoTarget(Pre(s, e.k).code, j); }
  }

  /** OP_NOT on the register that has the value. */
  method EmitNot(fs: FuncState, reg: nat, ghost e: ExpDesc, ghost l: Lists) returns (k: Kind)
    requires Ready(fs) && ExpOk(fs.View(), e, l) && e.k == VNonReloc(reg)
    modifies fs`code, fs`jpc, fs`jl
    ensures Ready(fs) && k.VReloc? && KindOk(fs.View(), k) && Wf(Pre(fs.View(), k)) && Frame(old(fs.code), fs.code, fs.hold)
    ensures FlipsAll(old(fs.View()), e.k, fs.View(), k, fs.Consts(), fs.nactvar)
  {
    ghost var s := fs.View();
    var at, c1 := fs.Code(Not(0, reg));
    k := VReloc(at);
    DischargeWf(s, c1);
    FrameAppend(s.code, c1, [Not(0, reg)], s.hold);
    assert Pre(fs.View(), k) == Discharged(s, c1);
    NotFlips(s, c1, fs.View(), reg, fs.Consts(), fs.nactvar);
  }

  lemma NotFlips(s: Unfinished, c1: seq<Instr>, s': Unfinished, reg: nat, ks: Env, nact: nat)
    requires Discharges(s, c1) && s' == Unfinished(c1 + [Not(0, reg)], s.hold, [], s.lasttarget)
    ensures FlipsAll(s, VNonReloc(reg), s', VReloc(|c1|), ks, nact)
  {
    assert Pre(s', VReloc(|c1|)) == Discharged(s, c1) && s'.code[|c1|] == Not(0, reg);
    forall env: Env, r: Regs | Extends(ks, env) && Entry(r, nact) ensures Flips(env, s, VNonReloc(reg), s', VReloc(|c1|), r) {
      DischargeRun(env, s, c1, r);
    }
  }

  /** codenot: the value is negated, the lists change places, and their jumps stop delivering values. */
  method CodeNot(fs: FuncState, e0: ExpDesc, ghost l: Lists, ghost base: nat) returns (st: Status, e: ExpDesc)
    requires Ready(fs) && ExpOk(fs.View(), e0, l) && Holds(e0.k, base, fs.freereg, fs.nactvar) && fs.freereg <= MAXSTACK && !e0.k.VK?
    modifies fs
    ensures base + 1 < MAXSTACK ==> st.Fine?
    ensures st.Fine? ==>
      && Ready(fs) && fs.freereg == base && Holds(e.k, base, fs.freereg, fs.nactvar) && !e.k.VK? && Extends(old(fs.Consts()), fs.Consts())
      && ExpOk(fs.View(), e, Lists(l.f, l.t)) && Moves(old(fs.View()), l, fs.View(), Lists(l.f, l.t))
      && Negates(old(fs.View()), e0.k, l, fs.View(), e.k, Lists(l.f, l.t), base, fs.Consts(), fs.nactvar)
  {
    ghost var s, ks := fs.View(), fs.Consts();
    e := DischargeVars(e0);
    VarsConvert(s, e0, l, ks, base, fs.nactvar);
    ghost var s1, e1;
    ghost var ev := e;
    var k;
    st, k, s1, e1 := FlipKind(fs, e, l, base);
    if st.TooComplex? { return; }
    ConvertsTrans(s, e0, l, ks, s, ev, l, ks, s1, e1, l, fs.Consts(), base, fs.nactvar);
    e := ExpDesc(k, e.f, e.t);
    DropValues(fs, e, l, k, s1, e1, base);
    NegatesTrans(s, e0.k, l, s1, e1.k, l, fs.View(), k, Lists(l.f, l.t), base, fs.Consts(), fs.nactvar);
    MovesTrans(s, l, s1, l, fs.View(), Lists(l.f, l.t));
  }

  /** codenot, last part: removevalues on both lists. */
  method DropValues(fs: FuncState, e: ExpDesc, ghost l: Lists, ghost k: Kind, ghost s1: Unfinished, ghost e1: ExpDesc, ghost base: nat)
    requires Ready(fs) && ExpOk(s1, e1, l) && fs.hold == s1.hold && KindOk(fs.View(), k) && Wf(Pre(fs.View(), k)) && e == ExpDesc(k, e1.f, e1.t)
    requires Frame(s1.code, fs.code, s1.hold) && FlipsAll(s1, e1.k, fs.View(), k, fs.Consts(), fs.nactvar)
    modifies fs`code
    ensures Ready(fs) && ExpOk(fs.View(), e, Lists(l.f, l.t)) && Moves(s1, l, fs.View(), Lists(l.f, l.t))
    ensures Negates(s1, e1.k, l, fs.View(), k, Lists(l.f, l.t), base, fs.Consts(), fs.nactvar)
  {
    ghost var s2 := fs.View();
    FrameList(s1.code, s2.code, s1.hold, e.f, l.t);
    FrameList(s1.code, s2.code, s1.hold, e.t, l.f);
    fs.code := RemoveValues(fs.code, e.f, l.t);
    ghost var c3 := fs.code;
    DroppedList(s2.code, c3, Elems(l.t), e.t, l.f);
    DroppedList(s2.code, c3, Elems(l.t), e.f, l.t);
    DroppedList(s2.code, c3, Elems(l.t), fs.jpc, fs.jl);
    fs.code := RemoveValues(fs.code, e.t, l.f);
    DroppedList(c3, fs.code, Elems(l.f), e.t, l.f);
    DroppedList(c3, fs.code, Elems(l.f), e.f, l.t);
    DroppedList(c3, fs.code, Elems(l.f), fs.jpc, fs.jl);
    DroppedTrans(s2.code, c3, fs.code, Elems(l.t), Elems(l.f));
    DropDone(s1, e1.k, l, s2, k, fs.code, base, fs.Consts(), fs.nactvar);
    assert fs.View() == s2.(code := fs.code);
  }

  lemma DropDone(s: Unfinished, k: Kind, l: Lists, s1: Unfinished, k1: Kind, code': seq<Instr>, n: nat, ks: Env, nact: nat)
    requires FlipsAll(s, k, s1, k1, ks, nact) && Frame(s.code, s1.code, s.hold) && s1.hold == s.hold && Elems(l.t) !! Elems(l.f)
    requires KindOk(s1, k1) && Wf(Pre(s1, k1)) && Exits(l) <= s1.hold && Dropped(s1.code, code', Exits(l))
    ensures var s' := s1.(code := code');
      && Negates(s, k, l, s', k1, Lists(l.f, l.t), n, ks, nact) && Moves(s, l, s', Lists(l.f, l.t))
      && KindOk(s', k1) && Wf(Pre(s', k1))
  {
    FrameSubset(s.code, s1.code, Exits(l), s.hold);
    FrameSubset(s.code, s1.code, s.hold - Exits(l), s.hold);
    SwapAll(s, k, l, s1, k1, code', n, ks, nact);
    DropPre(s1, k1, l, code');
    DroppedFrame(s1, k1, code', Exits(l));
    FrameTrans(s.code, s1.code, code', s.hold - Exits(l));
    assert Exits(Lists(l.f, l.t)) == Exits(l);
  }

  lemma NegatesTrans(s: Unfinished, k: Kind, l: Lists, s1: Unfinished, k1: Kind, l1: Lists, s2: Unfinished, k2: Kind, l2: Lists, n: nat, ks: Env, nact: nat)
    requires Same(s, k, l, s1, k1, l1, n, ks, nact) && Negates(s1, k1, l1, s2, k2, l2, n, ks, nact)
    ensures Negates(s, k, l, s2, k2, l2, n, ks, nact)
  {
    forall env: Env, r: Regs | Extends(ks, env) && Entry(r, nact) ensures Like(n, Negated(Den(env, s, k, l, r)), Den(env, s2, k2, l2, r)) {
      assert Like(n, Den(env, s, k, l, r), Den(env, s1, k1, l1, r));
      assert Like(n, Negated(Den(env, s1, k1, l1, r)), Den(env, s2, k2, l2, r));
    }
  }
}
