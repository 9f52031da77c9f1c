/** Running unfinished code. What the code generator has emitted so far is run up to its end, or up to
    a jump that still waits for its target. Jumps on the list `jpc` wait for the next instruction, so
    reaching one of them counts as reaching the end. */
module CodeRun {
  import opened CodeMachine
  import opened CodeLists

  /** The code so far; `jl` are the jumps on the list `jpc`, `hold` those on all other patch lists. */
  datatype Unfinished = Unfinished(code: seq<Instr>, hold: set<nat>, jl: seq<nat>, lasttarget: int)

  ghost function Pend(s: Unfinished): set<nat> { s.hold + Elems(s.jl) }

  /** The test of a pending jump delivers its value to no register yet. */
  ghost predicate NoTarget(code: seq<Instr>, j: nat) { IsJump(code, j) && (HasValue(code, j) ==> code[j - 1].a == NO_REG) }

  ghost predicate AllSound(code: seq<Instr>, pend: set<nat>, lim: int) { forall i :: 0 <= i < |code| ==> Sound(code, pend, lim, i) }

  ghost predicate AllPending(code: seq<Instr>, pend: set<nat>) { forall j :: j in pend ==> NoTarget(code, j) }

  /** Pending jumps are jumps, and control never goes past `lasttarget` other than step by step. */
  ghost predicate Wf(s: Unfinished) {
    && s.hold !! Elems(s.jl) && AllPending(s.code, Pend(s)) && AllSound(s.code, Pend(s), s.lasttarget)
    && -1 <= s.lasttarget <= |s.code| && (s.jl != [] ==> s.lasttarget == |s.code|)
  }

  ghost function ToEnd(o: Outcome, jl: seq<nat>): Outcome {
    if o.AtJump? && o.j in jl then End(o.regs) else o
  }

  ghost function Run(env: Env, s: Unfinished, r: Regs): Outcome {
    ToEnd(Exec(env, s.code, Pend(s), 0, r), s.jl)
  }

  // ---------------------------------------------------------------- more code

  /** A step leads to a landing position of the old code. */
  lemma StepLands(env: Env, code: seq<Instr>, pend: set<nat>, pc: nat, r: Regs)
    requires pc < |code| && Sound(code, pend, |code|, pc) && (TestMode(code[pc]) ==> Sound(code, pend, |code|, pc + 1))
    ensures var e := Step(env, code, pend, pc, r);
      e.Goto? ==> pc < e.pc <= |code| && |e.regs| == |r| && (Landing(code, e.pc) || (TestMode(code[pc]) && e.pc == pc + 1))
  {
  }

  /** Code that is appended runs where the old code ended. */
  lemma {:induction false} ExecAppend(env: Env, code: seq<Instr>, code2: seq<Instr>, pend: set<nat>, pend2: set<nat>, pc: nat, r: Regs)
    requires AllSound(code, pend, |code|) && pc <= |code| <= |code2| && code2[..|code|] == code
    requires forall i: nat :: i < |code| ==> (i in pend <==> i in pend2)
    ensures var o := Exec(env, code, pend, pc, r);
      Exec(env, code2, pend2, pc, r) == if o.End? then Exec(env, code2, pend2, |code|, o.regs) else o
    decreases |code| - pc
  {
    if pc < |code| {
      assert Sound(code, pend, |code|, pc);
      assert TestMode(code[pc]) ==> Sound(code, pend, |code|, pc + 1);
      StepLands(env, code, pend, pc, r);
      assert code2[pc] == code[pc];
      var e := Step(env, code, pend, pc, r);
      assert Step(env, code2, pend2, pc, r) == e;
      if e.Goto? { ExecAppend(env, code, code2, pend, pend2, e.pc, e.regs); }
    }
  }

  // ---------------------------------------------------------------- changes that do not matter

  /** Offsets of pending jumps may change, and their tests may cease to deliver values. */
  ghost predicate Neutral(code: seq<Instr>, code': seq<Instr>, pend: set<nat>) {
    && |code'| == |code|
    && forall i :: 0 <= i < |code| ==>
      || code'[i] == code[i]
      || (i in pend && code[i].Jmp? && code'[i].Jmp?)
      || (code[i].TestSet? && code[i].a == NO_REG && code'[i] == Test(code[i].b, code[i].cond))
  }

  lemma {:induction false} ExecNeutral(env: Env, code: seq<Instr>, code': seq<Instr>, pend: set<nat>, pc: nat, r: Regs)
    requires Neutral(code, code', pend) && |r| == MAXSTACK
    ensures Exec(env, code', pend, pc, r) == Exec(env, code, pend, pc, r)
    decreases |code| - pc
  {
    if pc < |code| {
      var e := Step(env, code, pend, pc, r);
      StepNeutral(env, code, code', pend, pc, r);
      if e.Goto? && e.pc > pc { ExecNeutral(env, code, code', pend, e.pc, e.regs); }
    }
  }

  lemma StepNeutral(env: Env, code: seq<Instr>, code': seq<Instr>, pend: set<nat>, pc: nat, r: Regs)
    requires Neutral(code, code', pend) && |r| == MAXSTACK && pc < |code|
    ensures Step(env, code', pend, pc, r) == Step(env, code, pend, pc, r)
    ensures Step(env, code, pend, pc, r).Goto? ==> |Step(env, code, pend, pc, r).regs| == MAXSTACK
  {
    assert code'[pc] == code[pc] || (pc in pend && code[pc].Jmp? && code'[pc].Jmp?)
      || (code[pc].TestSet? && code[pc].a == NO_REG && code'[pc] == Test(code[pc].b, code[pc].cond));
  }

  // ---------------------------------------------------------------- jumps that get their targets

  /** Registers when a patched jump is taken. */
  function Carry(code: seq<Instr>, j: nat, reg: nat, r: Regs): Regs {
    if HasValue(code, j) then Put(r, reg, Get(r, code[j - 1].b)) else r
  }

  function Dest(code: seq<Instr>, j: nat, vt: int, dt: int): int { if HasValue(code, j) then vt else dt }

  /** Where a run goes on that used to stop at a jump in `l`. */
  function Resume(env: Env, code: seq<Instr>, code': seq<Instr>, pend: set<nat>, l: set<nat>, vt: int, reg: nat, dt: int, o: Outcome): Outcome {
    if o.AtJump? && o.j in l then Exec(env, code', pend - l, Dest(code, o.j, vt, dt), Carry(code, o.j, reg, o.regs)) else o
  }

  ghost predicate Patching(code: seq<Instr>, code': seq<Instr>, pend: set<nat>, l: set<nat>, vt: int, reg: nat, dt: int) {
    && Patched(code, code', l, vt, reg, dt) && l <= pend && AllPending(code, pend) && AllSound(code, pend, |code|)
    && forall j :: j in l ==> j < Dest(code, j, vt, dt)
  }

  lemma {:induction false} ExecPatch(env: Env, code: seq<Instr>, code': seq<Instr>, pend: set<nat>, l: set<nat>, vt: int, reg: nat, dt: int, pc: nat, r: Regs)
    requires Patching(code, code', pend, l, vt, reg, dt) && |r| == MAXSTACK && Landing(code, pc)
    ensures Exec(env, code', pend - l, pc, r) == Resume(env, code, code', pend, l, vt, reg, dt, Exec(env, code, pend, pc, r))
    decreases |code| - pc
  {
    if pc < |code| {
      assert Sound(code, pend, |code|, pc);
      assert TestMode(code[pc]) ==> Sound(code, pend, |code|, pc + 1);
      StepLands(env, code, pend, pc, r);
      var e := Step(env, code, pend, pc, r);
      if pc + 1 in l && TestMode(code[pc]) {
        PatchedTest(env, code, code', pend, l, vt, reg, dt, pc, r);
        if e.Goto? && e.pc == pc + 2 { ExecPatch(env, code, code', pend, l, vt, reg, dt, pc + 2, r); }
      } else {
        PatchedStep(env, code, code', pend, l, vt, reg, dt, pc, r);
        if e.Goto? {
          if TestMode(code[pc]) && e.pc == pc + 1 {
            JumpStep(env, code, code', pend, l, vt, reg, dt, pc + 1, e.regs);
            TestJump(env, code, pend, pc, r);
            TestJump(env, code', pend - l, pc, r);
            if pc + 1 !in pend { ExecPatch(env, code, code', pend, l, vt, reg, dt, pc + 2 + code[pc + 1].sbx, e.regs); }
          } else {
            ExecPatch(env, code, code', pend, l, vt, reg, dt, e.pc, e.regs);
          }
        }
      }
    }
  }

  /** A test whose jump is taken. */
  lemma TestJump(env: Env, code: seq<Instr>, pend: set<nat>, pc: nat, r: Regs)
    requires pc + 1 < |code| && code[pc + 1].Jmp? && (pc + 1 !in pend ==> code[pc + 1].sbx >= 0)
    requires Step(env, code, pend, pc, r).Goto? && Step(env, code, pend, pc, r).pc == pc + 1
    ensures var r1 := Step(env, code, pend, pc, r).regs;
      Exec(env, code, pend, pc, r) == if pc + 1 in pend then AtJump(pc + 1, r1) else Exec(env, code, pend, pc + 2 + code[pc + 1].sbx, r1)
  {
    var r1 := Step(env, code, pend, pc, r).regs;
    assert Exec(env, code, pend, pc, r) == Exec(env, code, pend, pc + 1, r1);
  }

  /** An instruction that is neither patched nor tests for a patched jump. */
  lemma PatchedStep(env: Env, code: seq<Instr>, code': seq<Instr>, pend: set<nat>, l: set<nat>, vt: int, reg: nat, dt: int, pc: nat, r: Regs)
    requires Patching(code, code', pend, l, vt, reg, dt) && pc < |code| && Landing(code, pc) && !(pc + 1 in l && TestMode(code[pc]))
    ensures pc !in l ==> Step(env, code', pend - l, pc, r) == Step(env, code, pend, pc, r)
    ensures pc in l ==> Exec(env, code', pend - l, pc, r) == Resume(env, code, code', pend, l, vt, reg, dt, Exec(env, code, pend, pc, r))
  {
    assert code'[pc] == PatchedInstr(code, l, vt, reg, dt, pc);
    assert pc in l ==> NoTarget(code, pc);
  }

  /** The jump behind a test, when it is not one of those patched. */
  lemma JumpStep(env: Env, code: seq<Instr>, code': seq<Instr>, pend: set<nat>, l: set<nat>, vt: int, reg: nat, dt: int, j: nat, r: Regs)
    requires Patching(code, code', pend, l, vt, reg, dt) && j !in l && IsJump(code, j)
    ensures code'[j] == code[j]
    ensures Step(env, code', pend - l, j, r) == Step(env, code, pend, j, r)
  {
    assert code'[j] == PatchedInstr(code, l, vt, reg, dt, j);
  }

  /** The test that controls a patched jump, together with the jump. */
  lemma PatchedTest(env: Env, code: seq<Instr>, code': seq<Instr>, pend: set<nat>, l: set<nat>, vt: int, reg: nat, dt: int, pc: nat, r: Regs)
    requires Patching(code, code', pend, l, vt, reg, dt) && |r| == MAXSTACK && pc + 1 < |code| && pc + 1 in l && TestMode(code[pc])
    ensures var e := Step(env, code, pend, pc, r);
      if e.Halt? || e.pc == pc + 2 then Step(env, code', pend - l, pc, r) == e && (e.Goto? ==> e.regs == r)
      else Exec(env, code', pend - l, pc, r) == Resume(env, code, code', pend, l, vt, reg, dt, Exec(env, code, pend, pc, r))
  {
    var j := pc + 1;
    assert NoTarget(code, j);
    assert code'[pc] == PatchedInstr(code, l, vt, reg, dt, pc);
    assert code'[j] == PatchedInstr(code, l, vt, reg, dt, j);
    var e := Step(env, code, pend, pc, r);
    if e.Goto? && e.pc == pc + 1 {
      assert e.regs == r;
      var e' := Step(env, code', pend - l, pc, r);
      assert e' == Goto(j, Carry(code, j, reg, r));
      assert Step(env, code', pend - l, j, e'.regs) == Goto(Dest(code, j, vt, dt), e'.regs);
      assert Exec(env, code', pend - l, pc, r) == Exec(env, code', pend - l, j, e'.regs);
      assert Exec(env, code', pend - l, j, e'.regs) == Exec(env, code', pend - l, Dest(code, j, vt, dt), e'.regs);
      assert Exec(env, code, pend, pc, r) == Exec(env, code, pend, j, r) == AtJump(j, r);
    }
  }
}
