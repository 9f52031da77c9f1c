/** The lemmas on single runs, stated for every run, together with what happens to the patch lists. */
module CodeOps {
  import opened CodeMachine
  import opened CodeLists
  import opened CodeRun
  import opened CodeState
  import opened CodeExp
  import opened CodeValue

  /** The jumps of enclosing expressions stay pending and untouched; `l` is replaced by `l'`. */
  ghost predicate Moves(s: Unfinished, l: Lists, s': Unfinished, l': Lists) {
    && s'.hold == (s.hold - Exits(l)) + Exits(l') && Exits(l') !! (s.hold - Exits(l))
    && Frame(s.code, s'.code, s.hold - Exits(l))
  }

  lemma MovesTrans(s: Unfinished, l: Lists, s1: Unfinished, l1: Lists, s2: Unfinished, l2: Lists)
    requires Moves(s, l, s1, l1) && Moves(s1, l1, s2, l2)
    ensures Moves(s, l, s2, l2)
  {
    assert s1.hold - Exits(l1) == s.hold - Exits(l);
    FrameTrans(s.code, s1.code, s2.code, s.hold - Exits(l));
  }

  lemma MovesSame(s: Unfinished, s': Unfinished, l: Lists)
    requires s'.hold == s.hold && Exits(l) <= s.hold && Frame(s.code, s'.code, s.hold)
    ensures Moves(s, l, s', l)
  {
    FrameSubset(s.code, s'.code, s.hold - Exits(l), s.hold);
  }

  lemma ListsKept(s: Unfinished, s': Unfinished, e: ExpDesc, l: Lists)
    requires ListsOk(s, e, l) && s'.hold == s.hold && Frame(s.code, s'.code, s.hold)
    ensures ListsOk(s', e, l)
  {
    FrameList(s.code, s'.code, s.hold, e.t, l.t);
    FrameList(s.code, s'.code, s.hold, e.f, l.f);
  }

  // ---------------------------------------------------------------- discharge2reg

  lemma DeliverAll(s: Unfinished, e: ExpDesc, l: Lists, c1: seq<Instr>, i: Instr, reg: nat, n: nat, ks: Env, nact: nat)
    requires ExpOk(s, e, l) && !e.k.VReloc? && !e.k.VJmp? && Plain(i) && n <= reg < MAXSTACK
    requires Patched(s.code, c1, Elems(s.jl), |s.code|, NO_REG, |s.code|)
    requires forall env: Env, r: Regs :: Extends(ks, env) && |r| == MAXSTACK ==> Delivers(env, s.code, e.k, i, reg, r)
    ensures var s' := Appended(Discharged(s, c1), [i], {});
      && Same(s, e.k, l, s', VNonReloc(reg), l, n, ks, nact) && ExpOk(s', e.(k := VNonReloc(reg)), l) && Moves(s, l, s', l)
  {
    var p := Discharged(s, c1);
    var s' := Appended(p, [i], {});
    DischargeWf(s, c1);
    PlainWf(p, i);
    FrameTrans(s.code, c1, s'.code, s.hold);
    ListsKept(s, s', e, l);
    MovesSame(s, s', l);
    FrameSubset(s.code, c1, Exits(l), s.hold);
    forall env: Env, r: Regs | Extends(ks, env) && Entry(r, nact) ensures Like(n, Den(env, s, e.k, l, r), Den(env, s', VNonReloc(reg), l, r)) {
      DischargeRun(env, s, c1, r);
      RunLength(env, p, r);
      DeliverLike(env, s, e.k, l, p, i, reg, n, r);
    }
  }

  function SetA(i: Instr, reg: nat): Instr
    requires i.Arith? || i.Not?
  {
    if i.Arith? then Arith(i.op, reg, i.b, i.c) else Not(reg, i.b)
  }

  /** The instruction that waits for its register gets it. */
  lemma RelocAll(s: Unfinished, e: ExpDesc, l: Lists, reg: nat, n: nat, ks: Env, nact: nat)
    requires ExpOk(s, e, l) && e.k.VReloc? && n <= reg < MAXSTACK
    ensures var s' := s.(code := s.code[e.k.info := SetA(s.code[e.k.info], reg)]);
      && Same(s, e.k, l, s', VNonReloc(reg), l, n, ks, nact) && ExpOk(s', e.(k := VNonReloc(reg)), l) && Moves(s, l, s', l)
  {
    var p, at := Pre(s, e.k), e.k.info;
    var i := SetA(s.code[at], reg);
    var s' := s.(code := s.code[at := i]);
    assert s' == Appended(p, [i], {}) by { assert s.hold + {} == s.hold; }
    PlainWf(p, i);
    RelocFrame(s, e.k, i);
    ListsKept(s, s', e, l);
    MovesSame(s, s', l);
    forall env: Env, r: Regs | Extends(ks, env) && Entry(r, nact) ensures Like(n, Den(env, s, e.k, l, r), Den(env, s', VNonReloc(reg), l, r)) {
      RunLength(env, p, r);
      FrameSubset(s.code, p.code, Exits(l), s.hold);
      DeliverLike(env, s, e.k, l, p, i, reg, n, r);
    }
  }

  /** The last instruction is no pending jump, nor the test of one. */
  lemma RelocFrame(s: Unfinished, k: Kind, i: Instr)
    requires k.VReloc? && KindOk(s, k) && Wf(Pre(s, k)) && !i.TestSet?
    ensures Frame(s.code, s.code[k.info := i], s.hold) && Frame(s.code, Pre(s, k).code, s.hold)
  {
    forall j | j in s.hold ensures Kept(s.code, s.code[k.info := i], j) && Kept(s.code, Pre(s, k).code, j) { assert NoTarget(Pre(s, k).code, j); }
  }

  lemma NilStartAll(s: Unfinished, e: ExpDesc, l: Lists, reg: nat, n: nat, ks: Env, nact: nat)
    requires ExpOk(s, e, l) && e.k.VNil? && s.code == [] && s.lasttarget < 0 && nact <= reg
    ensures Same(s, e.k, l, s, VNonReloc(reg), l, n, ks, nact) && ExpOk(s, e.(k := VNonReloc(reg)), l) && Moves(s, l, s, l)
  {
    MovesSame(s, s, l);
    forall env: Env, r: Regs | Extends(ks, env) && Entry(r, nact) ensures Like(n, Den(env, s, e.k, l, r), Den(env, s, VNonReloc(reg), l, r)) {
      NilAtStart(env, s, l, reg, n, nact, r);
    }
  }

  lemma NilWidenedAll(s: Unfinished, e: ExpDesc, l: Lists, reg: nat, n: nat, ks: Env, nact: nat)
    requires ExpOk(s, e, l) && e.k.VNil? && |s.code| > 0 && s.lasttarget < |s.code| && s.code[|s.code| - 1].LoadNil? && n <= reg
    requires var i := s.code[|s.code| - 1]; i.a <= reg <= i.b + 1
    ensures var b := s.code[|s.code| - 1].b; var s' := Widened(s, if reg > b then reg else b);
      Same(s, e.k, l, s', VNonReloc(reg), l, n, ks, nact) && ExpOk(s', e.(k := VNonReloc(reg)), l) && Moves(s, l, s', l)
  {
    var b := s.code[|s.code| - 1].b;
    var s' := Widened(s, if reg > b then reg else b);
    var r0: Regs := seq(MAXSTACK, _ => Nil);
    NilWidened(Env((o, x, y) => 0.0, []), s, l, reg, n, r0);
    ListsKept(s, s', e, l);
    MovesSame(s, s', l);
    forall env: Env, r: Regs | Extends(ks, env) && Entry(r, nact) ensures Like(n, Den(env, s, e.k, l, r), Den(env, s', VNonReloc(reg), l, r)) {
      NilWidened(env, s, l, reg, n, r);
    }
  }

  // ---------------------------------------------------------------- exp2reg

  /** Jumps that deliver no value find the loads of booleans. */
  ghost predicate BoolsReady(a: Unfinished, x: set<nat>, reg: nat, pf: int, pt: int) {
    forall j :: j in x && !HasValue(a.code, j) ==> j < pf && j < pt && LoadsBool(a.code, pf, reg, false) && LoadsBool(a.code, pt, reg, true)
  }

  ghost predicate BothPatched(a: Unfinished, l: Lists, code4: seq<Instr>, code5: seq<Instr>, reg: nat, pf: int, pt: int) {
    && Wf(a) && a.lasttarget == |a.code| && Exits(l) <= a.hold && Elems(l.t) !! Elems(l.f) && reg < MAXSTACK
    && BoolsReady(a, Exits(l), reg, pf, pt)
    && Patched(a.code, code4, Elems(l.f), |a.code|, reg, pf) && Patched(code4, code5, Elems(l.t), |a.code|, reg, pt)
  }

  ghost function Patched2(a: Unfinished, l: Lists, code4: seq<Instr>, code5: seq<Instr>): Unfinished {
    Finished(Finished(a, code4, Elems(l.f)), code5, Elems(l.t))
  }

  lemma FinishBoth(a: Unfinished, l: Lists, code4: seq<Instr>, code5: seq<Instr>, reg: nat, pf: int, pt: int)
    requires BothPatched(a, l, code4, code5, reg, pf, pt)
    ensures Finishing(a, code4, Elems(l.f), reg, pf, false)
    ensures Finishing(Finished(a, code4, Elems(l.f)), code5, Elems(l.t), reg, pt, true)
    ensures Wf(Patched2(a, l, code4, code5)) && Frame(a.code, code5, a.hold - Exits(l))
    ensures Patched2(a, l, code4, code5).hold == a.hold - Exits(l)
  {
    FinishWf(a, code4, Elems(l.f), reg, pf, false);
    var a4 := Finished(a, code4, Elems(l.f));
    forall j | j in Elems(l.t) && !HasValue(code4, j) ensures j < pt && LoadsBool(code4, pt, reg, true) {
      assert Kept(a.code, code4, j);
    }
    FinishWf(a4, code5, Elems(l.t), reg, pt, true);
    FrameSubset(a.code, code4, a.hold - Exits(l), Pend(a) - Elems(l.f));
    FrameSubset(code4, code5, a.hold - Exits(l), Pend(a4) - Elems(l.t));
    FrameTrans(a.code, code4, code5, a.hold - Exits(l));
  }

  ghost predicate SettledAll(s: Unfinished, k: Kind, a: Unfinished, reg: nat, n: nat, ks: Env, nact: nat) {
    forall env: Env, r: Regs :: Extends(ks, env) && Entry(r, nact) ==> Settled(env, s, k, a, reg, n, r)
  }

  const NoLists: Lists := Lists([], [])

  lemma FinishAll(s: Unfinished, k: Kind, l: Lists, a: Unfinished, code4: seq<Instr>, code5: seq<Instr>, reg: nat, pf: int, pt: int, n: nat, ks: Env, nact: nat)
    requires !k.VReloc? && !k.VJmp? && n <= reg && SettledAll(s, k, a, reg, n, ks, nact)
    requires BothPatched(a, l, code4, code5, reg, pf, pt) && Frame(s.code, a.code, s.hold) && a.hold == s.hold
    ensures var s' := Patched2(a, l, code4, code5);
      && Same(s, k, l, s', VNonReloc(reg), NoLists, n, ks, nact)
      && ExpOk(s', ExpDesc(VNonReloc(reg), NO_JUMP, NO_JUMP), NoLists) && Moves(s, l, s', NoLists)
  {
    FinishBoth(a, l, code4, code5, reg, pf, pt);
    FrameSubset(s.code, a.code, Exits(l), s.hold);
    FrameSubset(s.code, a.code, s.hold - Exits(l), s.hold);
    FrameTrans(s.code, a.code, code5, s.hold - Exits(l));
    var s' := Patched2(a, l, code4, code5);
    forall env: Env, r: Regs | Extends(ks, env) && Entry(r, nact) ensures Like(n, Den(env, s, k, l, r), Den(env, s', VNonReloc(reg), NoLists, r)) {
      assert Settled(env, s, k, a, reg, n, r);
      FinishLike(env, s, k, l, a, code4, code5, reg, pf, pt, n, r);
    }
  }

  /** No loads needed: the value is in its register already. */
  lemma PlainSettled(s: Unfinished, reg: nat, n: nat, ks: Env, nact: nat)
    requires Wf(s)
    ensures var a := s.(lasttarget := |s.code|); SettledAll(s, VNonReloc(reg), a, reg, n, ks, nact) && Wf(a) && Frame(s.code, a.code, s.hold)
  {
    var a := s.(lasttarget := |s.code|);
    SoundLimit(s.code, Pend(s), s.lasttarget, |s.code|);
    forall j | j in s.hold ensures Kept(s.code, a.code, j) { assert NoTarget(s.code, j); }
    forall env: Env, r: Regs | Extends(ks, env) && Entry(r, nact) ensures Settled(env, s, VNonReloc(reg), a, reg, n, r) { }
  }

  lemma SkipSettledAll(s: Unfinished, d: int, reg: nat, n: nat, ks: Env, nact: nat)
    requires Wf(s)
    ensures var a := Skipped(s, d, reg);
      SettledAll(s, VNonReloc(reg), a, reg, n, ks, nact) && Wf(a) && Frame(s.code, a.code, s.hold) && a.hold == s.hold
  {
    SkippedWf(s, d, reg);
    SkippedHold(s, d, reg);
    forall env: Env, r: Regs | Extends(ks, env) && Entry(r, nact) ensures Settled(env, s, VNonReloc(reg), Skipped(s, d, reg), reg, n, r) {
      SkipSettled(env, s, d, reg, n, r);
    }
  }

  lemma SkippedHold(s: Unfinished, d: int, reg: nat)
    requires Wf(s)
    ensures Skipped(s, d, reg).hold == s.hold
  {
    ElemsAppend([|s.code|], s.jl);
    assert |s.code| in s.hold ==> NoTarget(s.code, |s.code|);
    assert Elems([|s.code|]) == {|s.code|};
  }

  lemma FalseSettledAll(s: Unfinished, reg: nat, n: nat, ks: Env, nact: nat)
    requires Wf(s) && s.jl == [] && n <= reg < MAXSTACK
    ensures var a := WithBools(s, reg); SettledAll(s, VFalse, a, reg, n, ks, nact) && Wf(a) && Frame(s.code, a.code, s.hold) && a.hold == s.hold
  {
    BoolsWf(s, reg);
    forall env: Env, r: Regs | Extends(ks, env) && Entry(r, nact) ensures Settled(env, s, VFalse, WithBools(s, reg), reg, n, r) {
      FalseSettled(env, s, reg, n, r);
    }
  }

  /** exp2reg puts the jump of a comparison on the `true` list. */
  lemma AdoptAll(s: Unfinished, e: ExpDesc, l: Lists, code': seq<Instr>, t: int, n: nat, ks: Env, nact: nat)
    requires ExpOk(s, e, l) && e.k.VJmp?
    requires Rewired(s.code, code', Elems(l.t)) && IsList(code', t, l.t + [e.k.info])
    ensures var s', l' := Adopted(s).(code := code'), Lists(l.t + [e.k.info], l.f);
      && Same(s, e.k, l, s', VFalse, l', n, ks, nact) && ExpOk(s', ExpDesc(VFalse, t, e.f), l') && Moves(s, l, s', l')
  {
    var j := e.k.info;
    var s', l' := Adopted(s).(code := code'), Lists(l.t + [j], l.f);
    AdoptedWf(s, e.k);
    RewiredNeutral(Adopted(s), code', Elems(l.t));
    NeutralWf(Adopted(s), code');
    ElemsAppend(l.t, [j]);
    assert Elems([j]) == {j};
    assert Exits(l') == Exits(l) + {j};
    assert Frame(s.code, code', Elems(l.f));
    FrameList(s.code, code', Elems(l.f), e.f, l.f);
    assert s'.hold == (s.hold - Exits(l)) + Exits(l');
    forall env: Env, r: Regs | Extends(ks, env) && Entry(r, nact) ensures Like(n, Den(env, s, e.k, l, r), Den(env, s', VFalse, l', r)) {
      JmpAsFalse(env, s, e.k, l, r);
      NeutralRun(env, Adopted(s), code', r);
      RewiredMeaning(env, Adopted(s).code, code', Elems(l.t), VFalse, l', Run(env, s', r));
    }
  }

  lemma RewiredMeaning(env: Env, code: seq<Instr>, code': seq<Instr>, x: set<nat>, k: Kind, l: Lists, o: Outcome)
    requires Rewired(code, code', x) && !k.VReloc? && !k.VJmp?
    ensures Means(env, code', k, l, o) == Means(env, code, k, l, o)
  {
    if o.AtJump? {
      RewiredValue(code, code', x, o.j, o.regs, true);
      RewiredValue(code, code', x, o.j, o.regs, false);
    }
  }
}
