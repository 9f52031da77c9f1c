/** From descriptors to registers and operands (src/lcode.c, discharge2reg to luaK_exp2RK). */
module CodeEmit {
  import opened CodeMachine
  import opened CodeLists
  import opened CodeRun
  import opened CodeState
  import opened CodeGen
  import opened CodeExp
  import opened CodeValue
  import opened CodeOps

  /** The list of jumps to the next instruction is in order. */
  ghost predicate Ready(fs: FuncState)
    reads fs
  {
    IsList(fs.code, fs.jpc, fs.jl)
  }

  /** The descriptor e' means what e meant, registers below n are kept, and so are the patch lists of
      enclosing expressions. */
  ghost predicate Converts(s: Unfinished, e: ExpDesc, l: Lists, ks: Env, s': Unfinished, e': ExpDesc, l': Lists, ks': Env, n: nat, nact: nat) {
    ExpOk(s', e', l') && Moves(s, l, s', l') && Same(s, e.k, l, s', e'.k, l', n, ks', nact) && Extends(ks, ks')
  }

  lemma ConvertsTrans(s: Unfinished, e: ExpDesc, l: Lists, ks: Env, s1: Unfinished, e1: ExpDesc, l1: Lists, ks1: Env, s2: Unfinished, e2: ExpDesc, l2: Lists, ks2: Env, n: nat, nact: nat)
    requires Converts(s, e, l, ks, s1, e1, l1, ks1, n, nact) && Converts(s1, e1, l1, ks1, s2, e2, l2, ks2, n, nact)
    ensures Converts(s, e, l, ks, s2, e2, l2, ks2, n, nact)
  {
    MovesTrans(s, l, s1, l1, s2, l2);
    SameTrans(s, e.k, l, s1, e1.k, l1, s2, e2.k, l2, n, ks1, ks2, nact);
  }

  lemma ConvertsSelf(s: Unfinished, e: ExpDesc, l: Lists, ks: Env, n: nat, nact: nat)
    requires ExpOk(s, e, l)
    ensures Converts(s, e, l, ks, s, e, l, ks, n, nact)
  {
    SelfFrame(s, e.k);
    MovesSame(s, s, l);
  }

  lemma SelfFrame(s: Unfinished, k: Kind)
    requires Wf(Pre(s, k))
    ensures Frame(s.code, s.code, s.hold)
  {
    forall j | j in s.hold ensures Kept(s.code, s.code, j) { assert NoTarget(Pre(s, k).code, j); }
  }

  /** luaK_dischargevars */
  function DischargeVars(e: ExpDesc): ExpDesc { if e.k.VLocal? then e.(k := VNonReloc(e.k.info)) else e }

  lemma VarsConvert(s: Unfinished, e: ExpDesc, l: Lists, ks: Env, n: nat, nact: nat)
    requires ExpOk(s, e, l)
    ensures Converts(s, e, l, ks, s, DischargeVars(e), l, ks, n, nact)
  {
    SelfFrame(s, e.k);
    MovesSame(s, s, l);
  }

  /** luaK_nil for one register. */
  method EmitNil(fs: FuncState, reg: nat, ghost e: ExpDesc, ghost l: Lists, ghost n: nat)
    requires Ready(fs) && ExpOk(fs.View(), e, l) && e.k.VNil? && n <= reg < MAXSTACK
    modifies fs`code, fs`jpc, fs`jl
    ensures Ready(fs)
    ensures Converts(old(fs.View()), e, l, fs.Consts(), fs.View(), e.(k := VNonReloc(reg)), l, fs.Consts(), n, fs.nactvar)
  {
    if |fs.code| > fs.lasttarget {
      if |fs.code| == 0 {
        if reg >= fs.nactvar {
          NilStartAll(fs.View(), e, l, reg, n, fs.Consts(), fs.nactvar);
          return;
        }
      } else {
        var prev := fs.code[|fs.code| - 1];
        if prev.LoadNil? && prev.a <= reg <= prev.b + 1 {
          NilWidenedAll(fs.View(), e, l, reg, n, fs.Consts(), fs.nactvar);
          if reg > prev.b {
            fs.code := fs.code[..|fs.code| - 1] + [LoadNil(prev.a, reg)];
          } else {
            assert fs.code == fs.code[..|fs.code| - 1] + [prev];
          }
          return;
        }
      }
    }
    var i := LoadNil(reg, reg);
    forall env: Env, r: Regs | Extends(fs.Consts(), env) && |r| == MAXSTACK ensures Delivers(env, fs.code, VNil, i, reg, r) { SetNilOne(r, reg); }
    EmitPlain(fs, i, reg, e, l, n);
  }

  /** One more instruction puts the value into its register. */
  method EmitPlain(fs: FuncState, i: Instr, reg: nat, ghost e: ExpDesc, ghost l: Lists, ghost n: nat)
    requires Ready(fs) && ExpOk(fs.View(), e, l) && !e.k.VReloc? && !e.k.VJmp? && n <= reg < MAXSTACK && Plain(i)
    requires forall env: Env, r: Regs :: Extends(fs.Consts(), env) && |r| == MAXSTACK ==> Delivers(env, fs.code, e.k, i, reg, r)
    modifies fs`code, fs`jpc, fs`jl
    ensures Ready(fs)
    ensures Converts(old(fs.View()), e, l, fs.Consts(), fs.View(), e.(k := VNonReloc(reg)), l, fs.Consts(), n, fs.nactvar)
  {
    ghost var s := fs.View();
    var at, c1 := fs.Code(i);
    DeliverAll(s, e, l, c1, i, reg, n, fs.Consts(), fs.nactvar);
    assert s.hold + {} == s.hold;
    assert fs.View() == Appended(Discharged(s, c1), [i], {});
  }

  /** discharge2reg */
  method Discharge2Reg(fs: FuncState, e0: ExpDesc, reg: nat, ghost l: Lists, ghost n: nat) returns (e: ExpDesc)
    requires Ready(fs) && ExpOk(fs.View(), e0, l) && n <= reg < MAXSTACK
    modifies fs`code, fs`jpc, fs`jl, fs`k
    ensures Ready(fs) && e == if e0.k.VJmp? then e0 else e0.(k := VNonReloc(reg))
    ensures Converts(old(fs.View()), e0, l, old(fs.Consts()), fs.View(), e, l, fs.Consts(), n, fs.nactvar)
    ensures e0.k.VJmp? ==> unchanged(fs)
  {
    ghost var s, ks := fs.View(), fs.Consts();
    e := DischargeVars(e0);
    VarsConvert(s, e0, l, ks, n, fs.nactvar);
    match e.k {
      case VNil => EmitNil(fs, reg, e, l, n);
      case VTrue => EmitPlain(fs, LoadBool(reg, true, false), reg, e, l, n);
      case VFalse => EmitPlain(fs, LoadBool(reg, false, false), reg, e, l, n);
      case VK(i) => EmitPlain(fs, LoadK(reg, i), reg, e, l, n);
      case VKNum(x) =>
        var i := fs.AddK(Num(x));
        EmitPlain(fs, LoadK(reg, i), reg, e, l, n);
      case VReloc(i) =>
        RelocAll(s, e, l, reg, n, ks, fs.nactvar);
        fs.code := fs.code[i := SetA(fs.code[i], reg)];
        FrameList(s.code, fs.code, {}, fs.jpc, fs.jl);
      case VNonReloc(b) =>
        if b != reg { EmitPlain(fs, Move(reg, b), reg, e, l, n); } else { ConvertsSelf(s, e, l, ks, n, fs.nactvar); }
      case VJmp(_) => return;
    }
    ConvertsTrans(s, e0, l, ks, s, e, l, ks, fs.View(), e.(k := VNonReloc(reg)), l, fs.Consts(), n, fs.nactvar);
    e := e.(k := VNonReloc(reg));
  }

  // ---------------------------------------------------------------- exp2reg

  predicate HasJumps(e: ExpDesc) { e.t != e.f }

  /** Disjoint lists start at the same place only if both are empty. */
  lemma NoJumps(s: Unfinished, e: ExpDesc, l: Lists)
    requires ListsOk(s, e, l)
    ensures !HasJumps(e) <==> l == NoLists
  {
    if l.t != [] && l.f != [] { assert l.t[0] in Elems(l.t) && l.f[0] in Elems(l.f); }
    if l.t != [] { assert IsJump(s.code, l.t[0]); }
    if l.f != [] { assert IsJump(s.code, l.f[0]); }
  }

  /** code_label */
  method CodeLabel(fs: FuncState, reg: nat, b: bool, skip: bool) returns (at: nat)
    requires IsList(fs.code, fs.jpc, fs.jl) && fs.jl == []
    modifies fs`code, fs`jpc, fs`jl, fs`lasttarget
    ensures at == |old(fs.code)| && fs.code == old(fs.code) + [LoadBool(reg, b, skip)] && fs.jpc == NO_JUMP && fs.jl == []
    ensures fs.lasttarget == at
  {
    fs.lasttarget := |fs.code|;
    ghost var c1;
    at, c1 := fs.Code(LoadBool(reg, b, skip));
    NothingPatched(old(fs.code), c1, |c1|, |c1|);
  }

  /** The code that loads booleans for the jumps that need them; `jmp` says that the expression is a
      comparison, whose jump was put on the `true` list. */
  method EmitBools(fs: FuncState, jmp: bool, reg: nat, ghost n: nat) returns (pf: nat, pt: nat)
    requires Ready(fs) && Wf(fs.View()) && n <= reg < MAXSTACK && (jmp ==> fs.jl == [])
    modifies fs`code, fs`jpc, fs`jl, fs`lasttarget, fs`hold
    ensures Ready(fs) && |old(fs.code)| <= pf && |old(fs.code)| <= pt
    ensures var s, a, k := old(fs.View()), fs.View(), if jmp then VFalse else VNonReloc(reg);
      && SettledAll(s, k, a, reg, n, fs.Consts(), fs.nactvar) && Wf(a) && Frame(s.code, a.code, s.hold) && a.hold == s.hold
      && a.lasttarget == |a.code| && LoadsBool(a.code, pf, reg, false) && LoadsBool(a.code, pt, reg, true)
  {
    ghost var s := fs.View();
    if jmp {
      pf := CodeLabel(fs, reg, false, true);
      pt := CodeLabel(fs, reg, true, false);
      fs.lasttarget := |fs.code|;
      assert fs.code == s.code + Bools(reg) && s.hold + {} == s.hold;
      assert fs.View() == WithBools(s, reg);
      FalseSettledAll(s, reg, n, fs.Consts(), fs.nactvar);
      BoolsWf(s, reg);
    } else {
      pf, pt := SkipBools(fs, reg, n);
    }
  }

  method SkipBools(fs: FuncState, reg: nat, ghost n: nat) returns (pf: nat, pt: nat)
    requires Ready(fs) && Wf(fs.View()) && n <= reg < MAXSTACK
    modifies fs`code, fs`jpc, fs`jl, fs`lasttarget, fs`hold
    ensures Ready(fs) && |old(fs.code)| <= pf && |old(fs.code)| <= pt
    ensures var s, a := old(fs.View()), fs.View();
      && SettledAll(s, VNonReloc(reg), a, reg, n, fs.Consts(), fs.nactvar) && Wf(a) && Frame(s.code, a.code, s.hold) && a.hold == s.hold
      && a.lasttarget == |a.code| && LoadsBool(a.code, pf, reg, false) && LoadsBool(a.code, pt, reg, true)
  {
    ghost var s := fs.View();
    var fj := fs.Jump();
    ghost var l, h := [fj] + s.jl, fs.View();
    ghost var d := fs.code[fj].sbx;
    pf := CodeLabel(fs, reg, false, true);
    pt := CodeLabel(fs, reg, true, false);
    assert fs.code == h.code + Bools(reg) && h.hold + {} == h.hold;
    ghost var a := WithBools(h, reg);
    ElemsAppend([fj], s.jl);
    HoldWf(s, d);
    BoolsWf(h, reg);
    FrameList(h.code, fs.code, h.hold, fj, l);
    fs.PatchToHere(fj, l);
    assert fs.code == a.code;
    assert fs.View() == Skipped(s, d, reg);
    SkipSettledAll(s, d, reg, n, fs.Consts(), fs.nactvar);
    SkippedWf(s, d, reg);
  }

  lemma ReadyBools(s: Unfinished, a: Unfinished, l: Lists, reg: nat, pf: int, pt: int, need: bool)
    requires Wf(s) && Exits(l) <= s.hold && Frame(s.code, a.code, s.hold)
    requires if need then |s.code| <= pf && |s.code| <= pt && LoadsBool(a.code, pf, reg, false) && LoadsBool(a.code, pt, reg, true)
      else forall j :: j in Exits(l) ==> HasValue(s.code, j)
    ensures BoolsReady(a, Exits(l), reg, pf, pt)
  {
    forall j | j in Exits(l) && !HasValue(a.code, j)
      ensures j < pf && j < pt && LoadsBool(a.code, pf, reg, false) && LoadsBool(a.code, pt, reg, true)
    {
      assert NoTarget(s.code, j) && Kept(s.code, a.code, j);
    }
  }

  /** exp2reg: the `false` list is patched first, then the `true` list. */
  method PatchExits(fs: FuncState, e: ExpDesc, reg: nat, pf: int, pt: int, ghost l: Lists) returns (ghost code4: seq<Instr>)
    requires Ready(fs) && Wf(fs.View()) && ListsOk(fs.View(), e, l) && fs.lasttarget == |fs.code| && reg < MAXSTACK
    requires BoolsReady(fs.View(), Exits(l), reg, pf, pt)
    modifies fs`code, fs`hold
    ensures Ready(fs) && BothPatched(old(fs.View()), l, code4, fs.code, reg, pf, pt)
    ensures fs.View() == Patched2(old(fs.View()), l, code4, fs.code)
  {
    ghost var a := fs.View();
    var final := |fs.code|;
    fs.code := PatchListAux(fs.code, e.f, final, reg, pf, l.f);
    code4 := fs.code;
    FinishWf(a, code4, Elems(l.f), reg, pf, false);
    FrameList(a.code, code4, Pend(a) - Elems(l.f), e.t, l.t);
    FrameList(a.code, code4, Pend(a) - Elems(l.f), fs.jpc, fs.jl);
    fs.code := PatchListAux(fs.code, e.t, final, reg, pt, l.t);
    fs.hold := fs.hold - Elems(l.f) - Elems(l.t);
    FinishBoth(a, l, code4, fs.code, reg, pf, pt);
    PatchedKeeps(code4, fs.code, Elems(l.t), final, reg, pt, fs.jpc, fs.jl);
  }

  lemma PatchedKeeps(code: seq<Instr>, code': seq<Instr>, x: set<nat>, vt: int, reg: nat, dt: int, head: int, l: seq<nat>)
    requires Patched(code, code', x, vt, reg, dt) && IsList(code, head, l) && Elems(l) !! x
    ensures IsList(code', head, l)
  {
    forall i | 0 <= i < |l| ensures l[i] < |code'| && code'[l[i]] == code[l[i]] {
      assert l[i] in Elems(l) && IsJump(code, l[i]);
      assert code'[l[i]] == PatchedInstr(code, x, vt, reg, dt, l[i]);
    }
    ListFrame(code, code', head, l);
  }

  /** exp2reg, once the descriptor's own value is in `reg` (or it is a comparison): all jumps lead here. */
  method CloseLists(fs: FuncState, e: ExpDesc, jmp: bool, reg: nat, ghost l: Lists, ghost n: nat)
    requires Ready(fs) && ExpOk(fs.View(), e, l) && n <= reg < MAXSTACK
    requires e.k == (if jmp then VFalse else VNonReloc(reg)) && (jmp ==> fs.jl == [] && exists j :: j in Exits(l) && !HasValue(fs.code, j))
    modifies fs`code, fs`jpc, fs`jl, fs`lasttarget, fs`hold
    ensures Ready(fs)
    ensures Converts(old(fs.View()), e, l, fs.Consts(), fs.View(), ExpDesc(VNonReloc(reg), NO_JUMP, NO_JUMP), NoLists, fs.Consts(), n, fs.nactvar)
  {
    ghost var s := fs.View();
    var pf, pt := NO_JUMP, NO_JUMP;
    var need := NeedValue(fs.code, e.t, l.t);
    if !need { need := NeedValue(fs.code, e.f, l.f); }
    if need {
      pf, pt := EmitBools(fs, jmp, reg, n);
    } else {
      PlainSettled(s, reg, n, fs.Consts(), fs.nactvar);
    }
    fs.lasttarget := |fs.code|;
    ghost var a := fs.View();
    ReadyBools(s, a, l, reg, pf, pt, need);
    ListsKept(s, a, e, l);
    ghost var code4 := PatchExits(fs, e, reg, pf, pt, l);
    FinishAll(s, e.k, l, a, code4, fs.code, reg, pf, pt, n, fs.Consts(), fs.nactvar);
  }

  /** exp2reg: the value of the expression goes to `reg`, whichever way it is computed. */
  method Exp2Reg(fs: FuncState, e0: ExpDesc, reg: nat, ghost l0: Lists, ghost n: nat) returns (e: ExpDesc)
    requires Ready(fs) && ExpOk(fs.View(), e0, l0) && n <= reg < MAXSTACK
    modifies fs`code, fs`jpc, fs`jl, fs`k, fs`lasttarget, fs`hold
    ensures Ready(fs) && e == ExpDesc(VNonReloc(reg), NO_JUMP, NO_JUMP)
    ensures Converts(old(fs.View()), e0, l0, old(fs.Consts()), fs.View(), e, NoLists, fs.Consts(), n, fs.nactvar)
  {
    ghost var s0, ks0 := fs.View(), fs.Consts();
    e := Discharge2Reg(fs, e0, reg, l0, n);
    ghost var s1, ks1, e1, l := fs.View(), fs.Consts(), e, l0;
    var jmp := e.k.VJmp?;
    if jmp {
      e, l := JoinCompare(fs, e, l, n);
      ConvertsTrans(s0, e0, l0, ks0, s1, e1, l0, ks1, fs.View(), e, l, fs.Consts(), n, fs.nactvar);
    }
    ghost var s2, e2 := fs.View(), e;
    NoJumps(s2, e, l);
    if HasJumps(e) {
      CloseLists(fs, e, jmp, reg, l, n);
      ConvertsTrans(s0, e0, l0, ks0, s2, e2, l, ks1, fs.View(), ExpDesc(VNonReloc(reg), NO_JUMP, NO_JUMP), NoLists, fs.Consts(), n, fs.nactvar);
    }
    e := ExpDesc(VNonReloc(reg), NO_JUMP, NO_JUMP);
  }

  /** The jump of a comparison goes to the `true` list. */
  method JoinCompare(fs: FuncState, e0: ExpDesc, ghost l0: Lists, ghost n: nat) returns (e: ExpDesc, ghost l: Lists)
    requires Ready(fs) && ExpOk(fs.View(), e0, l0) && e0.k.VJmp?
    modifies fs`code, fs`hold
    ensures Ready(fs) && e.k == VFalse && l == Lists(l0.t + [e0.k.info], l0.f)
    ensures HasJumps(e) && exists j :: j in Exits(l) && !HasValue(fs.code, j)
    ensures Converts(old(fs.View()), e0, l0, fs.Consts(), fs.View(), e, l, fs.Consts(), n, fs.nactvar)
  {
    ghost var s := fs.View();
    var j := e0.k.info;
    AdoptedWf(s, e0.k);
    assert Link(fs.code, [j], 0);
    assert j in Elems(l0.t) ==> j in Exits(l0);
    var t;
    fs.code, t := Concat(fs.code, e0.t, j, l0.t, [j]);
    fs.hold := fs.hold + {j};
    l := Lists(l0.t + [j], l0.f);
    e := ExpDesc(VFalse, t, e0.f);
    AdoptAll(s, e0, l0, fs.code, t, n, fs.Consts(), fs.nactvar);
    assert fs.View() == Adopted(s).(code := fs.code);
    assert l.t[|l0.t|] == j;
    assert j in Exits(l) && !HasValue(fs.code, j);
    NoJumps(fs.View(), e, l);
  }

  // ---------------------------------------------------------------- registers

  /** An expression compiled when `base` was the first free register holds at most that one. */
  predicate Holds(k: Kind, base: nat, free: nat, nact: nat) {
    match k
    case VNonReloc(reg) => nact <= base && if reg >= nact then reg == base && free == base + 1 else free == base
    case VLocal(reg) => reg < nact <= base && free == base
    case _ => nact <= base && free == base
  }

  /** freeexp */
  method FreeExp(fs: FuncState, e: ExpDesc, ghost base: nat)
    requires Holds(e.k, base, fs.freereg, fs.nactvar) && fs.freereg <= MAXSTACK
    modifies fs`freereg
    ensures fs.freereg == base
  {
    if e.k.VNonReloc? { fs.FreeReg(e.k.info); }
  }

  /** luaK_exp2nextreg */
  method Exp2NextReg(fs: FuncState, e0: ExpDesc, ghost l: Lists, ghost base: nat) returns (st: Status, e: ExpDesc)
    requires Ready(fs) && ExpOk(fs.View(), e0, l) && Holds(e0.k, base, fs.freereg, fs.nactvar) && fs.freereg <= MAXSTACK
    modifies fs
    ensures base + 1 < MAXSTACK ==> st.Fine?
    ensures st.Fine? ==>
      && Ready(fs) && e == ExpDesc(VNonReloc(base), NO_JUMP, NO_JUMP) && fs.freereg == base + 1 < MAXSTACK
      && Converts(old(fs.View()), e0, l, old(fs.Consts()), fs.View(), e, NoLists, fs.Consts(), base, fs.nactvar)
  {
    ghost var s, ks := fs.View(), fs.Consts();
    e := DischargeVars(e0);
    ghost var e1 := e;
    VarsConvert(s, e0, l, ks, base, fs.nactvar);
    FreeExp(fs, e, base);
    st := fs.ReserveRegs(1);
    if st.TooComplex? { return; }
    e := Exp2Reg(fs, e, fs.freereg - 1, l, base);
    ConvertsTrans(s, e0, l, ks, s, e1, l, ks, fs.View(), e, NoLists, fs.Consts(), base, fs.nactvar);
  }

  /** What luaK_exp2anyreg promises: the value is in a register. */
  ghost predicate InReg(e: ExpDesc, base: nat, free: nat, nact: nat) {
    e.k.VNonReloc? && e.t == NO_JUMP && e.f == NO_JUMP && Holds(e.k, base, free, nact) && free <= MAXSTACK && e.k.info < free
  }

  /** luaK_exp2anyreg */
  method Exp2AnyReg(fs: FuncState, e0: ExpDesc, ghost l: Lists, ghost base: nat) returns (st: Status, e: ExpDesc)
    requires Ready(fs) && ExpOk(fs.View(), e0, l) && Holds(e0.k, base, fs.freereg, fs.nactvar) && fs.freereg <= MAXSTACK
    modifies fs
    ensures base + 1 < MAXSTACK ==> st.Fine?
    ensures st.Fine? ==>
      && Ready(fs) && InReg(e, base, fs.freereg, fs.nactvar)
      && Converts(old(fs.View()), e0, l, old(fs.Consts()), fs.View(), e, NoLists, fs.Consts(), base, fs.nactvar)
  {
    ghost var s, ks := fs.View(), fs.Consts();
    e := DischargeVars(e0);
    VarsConvert(s, e0, l, ks, base, fs.nactvar);
    NoJumps(s, e, l);
    if e.k.VNonReloc? {
      if !HasJumps(e) { return Fine, e; }
      if e.k.info >= fs.nactvar {
        ghost var e1 := e;
        e := Exp2Reg(fs, e, e.k.info, l, base);
        ConvertsTrans(s, e0, l, ks, s, e1, l, ks, fs.View(), e, NoLists, fs.Consts(), base, fs.nactvar);
        return Fine, e;
      }
    }
    ghost var e1 := e;
    st, e := Exp2NextReg(fs, e, l, base);
    if st.Fine? { ConvertsTrans(s, e0, l, ks, s, e1, l, ks, fs.View(), e, NoLists, fs.Consts(), base, fs.nactvar); }
  }

  /** luaK_exp2val */
  method Exp2Val(fs: FuncState, e0: ExpDesc, ghost l: Lists, ghost base: nat) returns (st: Status, e: ExpDesc)
    requires Ready(fs) && ExpOk(fs.View(), e0, l) && Holds(e0.k, base, fs.freereg, fs.nactvar) && fs.freereg <= MAXSTACK
    modifies fs
    ensures base + 1 < MAXSTACK ==> st.Fine?
    ensures st.Fine? ==>
      && Ready(fs) && Holds(e.k, base, fs.freereg, fs.nactvar) && fs.freereg <= MAXSTACK && !e.k.VLocal?
      && Converts(old(fs.View()), e0, l, old(fs.Consts()), fs.View(), e, NoLists, fs.Consts(), base, fs.nactvar)
  {
    NoJumps(fs.View(), e0, l);
    if HasJumps(e0) {
      st, e := Exp2AnyReg(fs, e0, l, base);
    } else {
      VarsConvert(fs.View(), e0, l, fs.Consts(), base, fs.nactvar);
      st, e := Fine, DischargeVars(e0);
    }
  }

  /** The operand `o` stands for the value of the descriptor. */
  ghost predicate Operand(e: ExpDesc, o: nat, base: nat, free: nat, nact: nat) {
    && e.t == NO_JUMP && e.f == NO_JUMP && Holds(e.k, base, free, nact) && free <= MAXSTACK
    && match e.k
       case VK(i) => i <= MAXINDEXRK && o == i + BITRK
       case VNonReloc(reg) => reg < free && o == reg
       case _ => false
  }

  /** luaK_exp2RK: a constant operand if it fits, otherwise a register. */
  method Exp2RK(fs: FuncState, e0: ExpDesc, ghost l: Lists, ghost base: nat) returns (st: Status, e: ExpDesc, o: nat)
    requires Ready(fs) && ExpOk(fs.View(), e0, l) && Holds(e0.k, base, fs.freereg, fs.nactvar) && fs.freereg <= MAXSTACK
    modifies fs
    ensures base + 1 < MAXSTACK ==> st.Fine?
    ensures st.Fine? ==>
      && Ready(fs) && Operand(e, o, base, fs.freereg, fs.nactvar)
      && Converts(old(fs.View()), e0, l, old(fs.Consts()), fs.View(), e, NoLists, fs.Consts(), base, fs.nactvar)
  {
    ghost var s, ks := fs.View(), fs.Consts();
    o := 0;
    st, e := Exp2Val(fs, e0, l, base);
    if st.TooComplex? { return; }
    ghost var s1, ks1, e1 := fs.View(), fs.Consts(), e;
    if e.k.VKNum? || e.k.VTrue? || e.k.VFalse? || e.k.VNil? {
      if |fs.k| <= MAXINDEXRK {
        var v := if e.k.VNil? then Nil else if e.k.VKNum? then Num(e.k.nval) else Bool(e.k.VTrue?);
        var i := fs.AddK(v);
        e := e.(k := VK(i));
        ConstantConvert(s1, e1, e, ks1, fs.Consts(), v, base, fs.nactvar);
        ConvertsTrans(s, e0, l, ks, s1, e1, NoLists, ks1, fs.View(), e, NoLists, fs.Consts(), base, fs.nactvar);
        o := i + BITRK;
        return;
      }
    } else if e.k.VK? && e.k.info <= MAXINDEXRK {
      o := e.k.info + BITRK;
      return;
    }
    st, e := Exp2AnyReg(fs, e, NoLists, base);
    if st.TooComplex? { return; }
    ConvertsTrans(s, e0, l, ks, s1, e1, NoLists, ks1, fs.View(), e, NoLists, fs.Consts(), base, fs.nactvar);
    o := e.k.info;
  }

  /** A literal is replaced by an index in the constants. */
  lemma ConstantConvert(s: Unfinished, e: ExpDesc, e': ExpDesc, ks: Env, ks': Env, v: Value, n: nat, nact: nat)
    requires ExpOk(s, e, NoLists) && (e.k.VKNum? || e.k.VTrue? || e.k.VFalse? || e.k.VNil?)
    requires v == if e.k.VNil? then Nil else if e.k.VKNum? then Num(e.k.nval) else Bool(e.k.VTrue?)
    requires e'.k.VK? && e' == e.(k := e'.k) && Extends(ks, ks') && e'.k.info < |ks'.k| && ks'.k[e'.k.info] == v
    ensures Converts(s, e, NoLists, ks, s, e', NoLists, ks', n, nact)
  {
    SelfFrame(s, e.k);
    MovesSame(s, s, NoLists);
  }
}
