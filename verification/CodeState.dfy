/** What the basic operations of the code generator (src/lcode.c) do to a run of the unfinished code. */
module CodeState {
  import opened Basics
  import opened CodeMachine
  import opened CodeLists
  import opened CodeRun

  /** The jump and the test that lets it deliver a value are untouched. */
  ghost predicate Kept(code: seq<Instr>, code': seq<Instr>, j: nat) {
    && j < |code| && j < |code'| && code'[j] == code[j]
    && (HasValue(code', j) <==> HasValue(code, j)) && (HasValue(code, j) ==> code'[j - 1] == code[j - 1])
  }

  ghost predicate Frame(code: seq<Instr>, code': seq<Instr>, x: set<nat>) { forall j :: j in x ==> Kept(code, code', j) }

  lemma FrameList(code: seq<Instr>, code': seq<Instr>, x: set<nat>, head: int, l: seq<nat>)
    requires Frame(code, code', x) && IsList(code, head, l) && Elems(l) <= x
    ensures IsList(code', head, l)
  {
    forall i | 0 <= i < |l| ensures l[i] < |code'| && code'[l[i]] == code[l[i]] { assert l[i] in Elems(l) && Kept(code, code', l[i]); }
    ListFrame(code, code', head, l);
  }

  lemma {:induction false} ExecLength(env: Env, code: seq<Instr>, pend: set<nat>, pc: nat, r: Regs)
    ensures var o := Exec(env, code, pend, pc, r); o.End? || o.AtJump? ==> |o.regs| == |r|
    decreases |code| - pc
  {
    if pc < |code| {
      var e := Step(env, code, pend, pc, r);
      assert e.Goto? ==> |e.regs| == |r|;
      if e.Goto? && e.pc > pc { ExecLength(env, code, pend, e.pc, e.regs); }
    }
  }

  lemma RunLength(env: Env, s: Unfinished, r: Regs)
    ensures var o := Run(env, s, r); o.End? || o.AtJump? ==> |o.regs| == |r|
  {
    ExecLength(env, s.code, Pend(s), 0, r);
  }

  // ---------------------------------------------------------------- dischargejpc

  ghost function Discharged(s: Unfinished, code1: seq<Instr>): Unfinished { Unfinished(code1, s.hold, [], s.lasttarget) }

  ghost predicate Discharges(s: Unfinished, code1: seq<Instr>) {
    Wf(s) && Patched(s.code, code1, Elems(s.jl), |s.code|, NO_REG, |s.code|)
  }

  lemma LandingKept(code: seq<Instr>, code': seq<Instr>, t: int)
    requires |code'| == |code| && (forall i :: 0 <= i < |code| ==> (TestMode(code'[i]) <==> TestMode(code[i])))
    ensures Landing(code', t) <==> Landing(code, t)
  {
  }

  lemma EndLands(code: seq<Instr>, pend: set<nat>, lim: int)
    requires AllSound(code, pend, lim)
    ensures Landing(code, |code|)
  {
    if |code| > 0 { assert Sound(code, pend, lim, |code| - 1); }
  }

  lemma DischargeRun(env: Env, s: Unfinished, code1: seq<Instr>, r: Regs)
    requires Discharges(s, code1) && |r| == MAXSTACK
    ensures Run(env, Discharged(s, code1), r) == Run(env, s, r)
  {
    var l, n := Elems(s.jl), |s.code|;
    SoundLimit(s.code, Pend(s), s.lasttarget, n);
    forall j | j in l ensures j < Dest(s.code, j, n, n) { assert NoTarget(s.code, j); }
    ExecPatch(env, s.code, code1, Pend(s), l, n, NO_REG, n, 0, r);
    ExecLength(env, s.code, Pend(s), 0, r);
    assert Pend(s) - l == s.hold;
    assert Pend(Discharged(s, code1)) == s.hold;
  }

  lemma SoundLimit(code: seq<Instr>, pend: set<nat>, lim: int, lim2: int)
    requires AllSound(code, pend, lim) && lim <= lim2
    ensures AllSound(code, pend, lim2)
  {
    forall i | 0 <= i < |code| ensures Sound(code, pend, lim2, i) { assert Sound(code, pend, lim, i); }
  }

  lemma DischargeWf(s: Unfinished, code1: seq<Instr>)
    requires Discharges(s, code1)
    ensures Wf(Discharged(s, code1)) && Frame(s.code, code1, s.hold) && (s.jl == [] ==> code1 == s.code)
    ensures |code1| == |s.code|
  {
    var l, n := Elems(s.jl), |s.code|;
    forall i | 0 <= i < n ensures TestMode(code1[i]) <==> TestMode(s.code[i]) {
      assert code1[i] == PatchedInstr(s.code, l, n, NO_REG, n, i);
      if i in l { assert NoTarget(s.code, i); }
    }
    EndLands(s.code, Pend(s), s.lasttarget);
    assert Pend(Discharged(s, code1)) == s.hold;
    forall j | j in s.hold ensures NoTarget(code1, j) && Kept(s.code, code1, j) {
      HeldKept(s, code1, l, n, NO_REG, n, j);
    }
    forall i | 0 <= i < n ensures Sound(code1, s.hold, s.lasttarget, i) { DischargeSound(s, code1, i); }
  }

  /** A jump that is not patched keeps its test. */
  lemma HeldKept(s: Unfinished, code1: seq<Instr>, l: set<nat>, vt: int, reg: nat, dt: int, j: nat)
    requires AllPending(s.code, Pend(s)) && Patched(s.code, code1, l, vt, reg, dt) && l <= Pend(s) && j in Pend(s) && j !in l
    ensures NoTarget(code1, j) && Kept(s.code, code1, j)
  {
    assert NoTarget(s.code, j);
    assert code1[j] == PatchedInstr(s.code, l, vt, reg, dt, j);
    if j > 0 {
      assert code1[j - 1] == PatchedInstr(s.code, l, vt, reg, dt, j - 1);
      if j - 1 in l { assert NoTarget(s.code, j - 1); }
    }
  }

  lemma DischargeSound(s: Unfinished, code1: seq<Instr>, i: nat)
    requires Discharges(s, code1) && i < |s.code| && Landing(s.code, |s.code|)
    requires forall x :: 0 <= x < |s.code| ==> (TestMode(code1[x]) <==> TestMode(s.code[x]))
    ensures Sound(code1, s.hold, s.lasttarget, i)
  {
    var l, n := Elems(s.jl), |s.code|;
    assert Sound(s.code, Pend(s), s.lasttarget, i);
    assert code1[i] == PatchedInstr(s.code, l, n, NO_REG, n, i);
    if i in l { assert NoTarget(s.code, i); }
    if i + 1 < n {
      assert code1[i + 1] == PatchedInstr(s.code, l, n, NO_REG, n, i + 1);
      if i + 1 in l { assert NoTarget(s.code, i + 1); }
    }
    LandingKept(s.code, code1, n);
    if code1[i].Jmp? { LandingKept(s.code, code1, i + 1 + code1[i].sbx); }
    LandingKept(s.code, code1, i + 2);
  }

  // ---------------------------------------------------------------- luaK_code

  ghost function Appended(s: Unfinished, ext: seq<Instr>, more: set<nat>): Unfinished {
    Unfinished(s.code + ext, s.hold + more, [], s.lasttarget)
  }

  /** Positions of the appended code. */
  ghost predicate Within(s: Unfinished, ext: seq<Instr>, more: set<nat>) {
    forall j :: j in more ==> |s.code| <= j < |s.code| + |ext|
  }

  lemma AppendRun(env: Env, s: Unfinished, ext: seq<Instr>, more: set<nat>, r: Regs)
    requires Wf(s) && s.jl == [] && Within(s, ext, more)
    ensures var o := Run(env, s, r);
      Run(env, Appended(s, ext, more), r) == if o.End? then Exec(env, s.code + ext, s.hold + more, |s.code|, o.regs) else o
  {
    SoundLimit(s.code, Pend(s), s.lasttarget, |s.code|);
    assert Pend(s) == s.hold && Pend(Appended(s, ext, more)) == s.hold + more;
    forall i: nat | i < |s.code| ensures i in s.hold <==> i in s.hold + more { }
    ExecAppend(env, s.code, s.code + ext, s.hold, s.hold + more, 0, r);
  }

  lemma AppendWf(s: Unfinished, ext: seq<Instr>, more: set<nat>, lim: int)
    requires Wf(s) && s.jl == [] && Within(s, ext, more) && s.lasttarget <= lim <= |s.code| + |ext|
    requires forall i :: |s.code| <= i < |s.code| + |ext| ==> Sound(s.code + ext, s.hold + more, lim, i)
    requires forall j :: j in more ==> NoTarget(s.code + ext, j)
    ensures Wf(Appended(s, ext, more).(lasttarget := lim)) && Frame(s.code, s.code + ext, s.hold)
  {
    var code2 := s.code + ext;
    forall i | 0 <= i < |code2| ensures Sound(code2, s.hold + more, lim, i) {
      if i < |s.code| { assert Sound(s.code, Pend(s), s.lasttarget, i); }
    }
    assert Pend(Appended(s, ext, more)) == s.hold + more;
    forall j | j in s.hold ensures NoTarget(code2, j) && Kept(s.code, code2, j) { assert NoTarget(s.code, j); }
  }

  /** An instruction after which control goes on with the next one. */
  predicate Plain(i: Instr) { !i.Jmp? && !TestMode(i) && !(i.LoadBool? && i.skip) }

  function Performed(env: Env, i: Instr, r: Regs): Outcome
    requires Plain(i)
  {
    match i
    case LoadBool(a, b, _) => End(Put(r, a, Bool(b)))
    case LoadNil(a, b) => End(SetNil(r, a, b))
    case _ => match Operate(env, i, r) case None => Error case Some(v) => End(Put(r, i.a, v))
  }

  lemma PlainRun(env: Env, s: Unfinished, i: Instr, r: Regs)
    requires Wf(s) && s.jl == [] && Plain(i)
    ensures var o := Run(env, s, r); Run(env, Appended(s, [i], {}), r) == if o.End? then Performed(env, i, o.regs) else o
  {
    AppendRun(env, s, [i], {}, r);
    var o := Run(env, s, r);
    if o.End? { PlainExec(env, s.code, i, s.hold + {}, o.regs); }
  }

  lemma PlainExec(env: Env, code: seq<Instr>, i: Instr, pend: set<nat>, r: Regs)
    requires Plain(i)
    ensures Exec(env, code + [i], pend, |code|, r) == Performed(env, i, r)
  {
    assert (code + [i])[|code|] == i;
  }

  lemma PlainWf(s: Unfinished, i: Instr)
    requires Wf(s) && s.jl == [] && Plain(i)
    ensures Wf(Appended(s, [i], {})) && Frame(s.code, s.code + [i], s.hold)
  {
    AppendWf(s, [i], {}, s.lasttarget);
  }

  // ---------------------------------------------------------------- condjump

  /** A test and its jump, which is left pending. */
  lemma TestRun(env: Env, s: Unfinished, i: Instr, d: int, r: Regs)
    requires Wf(s) && s.jl == [] && TestMode(i)
    ensures var o, n := Run(env, s, r), |s.code|;
      Run(env, Appended(s, [i, Jmp(d)], {n + 1}), r) == if o.End? then Tested(env, i, n, o.regs) else o
  {
    var n := |s.code|;
    AppendRun(env, s, [i, Jmp(d)], {n + 1}, r);
    var o := Run(env, s, r);
    if o.End? { TestExec(env, s.code, i, d, s.hold + {n + 1}, o.regs); }
  }

  /** A test at position n with a pending jump. */
  function Tested(env: Env, i: Instr, n: nat, r: Regs): Outcome
    requires TestMode(i)
  {
    match i
    case Compare(op, a, b, c) =>
      (match CompareValue(op, RK(env, r, b), RK(env, r, c)) case None => Error case Some(t) => if t == a then AtJump(n + 1, r) else End(r))
    case Test(a, c) => if IsFalse(Get(r, a)) != c then AtJump(n + 1, r) else End(r)
    case TestSet(a, b, c) => if IsFalse(Get(r, b)) != c then AtJump(n + 1, Put(r, a, Get(r, b))) else End(r)
  }

  lemma TestExec(env: Env, code: seq<Instr>, i: Instr, d: int, pend: set<nat>, r: Regs)
    requires TestMode(i) && |code| + 1 in pend
    ensures Exec(env, code + [i, Jmp(d)], pend, |code|, r) == Tested(env, i, |code|, r)
  {
    var code2, n := code + [i, Jmp(d)], |code|;
    assert code2[n] == i && code2[n + 1] == Jmp(d);
    var e := Step(env, code2, pend, n, r);
    if e.Goto? && e.pc == n + 1 { TestJump(env, code2, pend, n, r); }
  }

  lemma TestWf(s: Unfinished, i: Instr, d: int)
    requires Wf(s) && s.jl == [] && TestMode(i) && (i.TestSet? ==> i.a == NO_REG)
    ensures Wf(Appended(s, [i, Jmp(d)], {|s.code| + 1})) && Frame(s.code, s.code + [i, Jmp(d)], s.hold)
  {
    AppendWf(s, [i, Jmp(d)], {|s.code| + 1}, s.lasttarget);
  }

  // ---------------------------------------------------------------- luaK_jump

  ghost function Held(s: Unfinished, d: int): Unfinished {
    Unfinished(s.code + [Jmp(d)], s.hold + {|s.code|} + Elems(s.jl), [], s.lasttarget)
  }

  /** The run now stops at the new jump, or at one of those that waited for this position. */
  lemma HoldRun(env: Env, s: Unfinished, d: int, r: Regs)
    requires Wf(s)
    ensures var o, o' := Run(env, s, r), Run(env, Held(s, d), r);
      if o.End? then o'.AtJump? && (o'.j == |s.code| || o'.j in s.jl) && o'.regs == o.regs else o' == o
  {
    var n := |s.code|;
    var h := Held(s, d);
    SoundLimit(s.code, Pend(s), s.lasttarget, n);
    assert Pend(h) == Pend(s) + {n};
    forall i: nat | i < n ensures i in Pend(s) <==> i in Pend(h) { }
    ExecAppend(env, s.code, h.code, Pend(s), Pend(h), 0, r);
    var o := Exec(env, s.code, Pend(s), 0, r);
    if o.End? { assert h.code[n] == Jmp(d); }
  }

  lemma HoldWf(s: Unfinished, d: int)
    requires Wf(s)
    ensures Wf(Held(s, d)) && Frame(s.code, s.code + [Jmp(d)], Pend(s))
  {
    var h := Held(s, d);
    assert Pend(h) == Pend(s) + {|s.code|};
    forall i | 0 <= i < |h.code| ensures Sound(h.code, Pend(h), h.lasttarget, i) {
      if i < |s.code| { assert Sound(s.code, Pend(s), s.lasttarget, i); }
    }
    forall j | j in Pend(h) ensures NoTarget(h.code, j) && (j in Pend(s) ==> Kept(s.code, h.code, j)) {
      if j in Pend(s) {
        assert NoTarget(s.code, j);
      } else if |s.code| > 0 {
        assert Sound(s.code, Pend(s), s.lasttarget, |s.code| - 1);
      }
    }
  }

  // ---------------------------------------------------------------- harmless changes

  lemma NeutralRun(env: Env, s: Unfinished, code': seq<Instr>, r: Regs)
    requires Neutral(s.code, code', Pend(s)) && |r| == MAXSTACK
    ensures Run(env, s.(code := code'), r) == Run(env, s, r)
  {
    ExecNeutral(env, s.code, code', Pend(s), 0, r);
  }

  lemma NeutralWf(s: Unfinished, code': seq<Instr>)
    requires Wf(s) && Neutral(s.code, code', Pend(s))
    ensures Wf(s.(code := code'))
  {
    var s' := s.(code := code');
    forall i | 0 <= i < |s.code| ensures TestMode(code'[i]) <==> TestMode(s.code[i]) { }
    forall i | 0 <= i < |s.code| ensures Sound(code', Pend(s), s.lasttarget, i) {
      assert Sound(s.code, Pend(s), s.lasttarget, i);
      if code'[i].Jmp? { LandingKept(s.code, code', i + 1 + code'[i].sbx); }
      LandingKept(s.code, code', i + 2);
      if i + 1 < |s.code| { assert code'[i + 1].Jmp? <==> s.code[i + 1].Jmp?; }
    }
    forall j | j in Pend(s) ensures NoTarget(code', j) { assert NoTarget(s.code, j); }
  }

  lemma NothingPatched(code: seq<Instr>, code': seq<Instr>, vt: int, dt: int)
    requires Patched(code, code', Elems([]), vt, NO_REG, dt)
    ensures code' == code
  {
    forall i | 0 <= i < |code| ensures code'[i] == code[i] { assert code'[i] == PatchedInstr(code, Elems([]), vt, NO_REG, dt, i); }
  }

  /** Only offsets of jumps in `x` differ. */
  ghost predicate Rewired(code: seq<Instr>, code': seq<Instr>, x: set<nat>) {
    |code'| == |code| && forall i :: 0 <= i < |code| ==> code'[i] == code[i] || (i in x && code[i].Jmp? && code'[i].Jmp?)
  }

  lemma RewiredNeutral(s: Unfinished, code': seq<Instr>, x: set<nat>)
    requires Rewired(s.code, code', x) && x <= Pend(s)
    ensures Neutral(s.code, code', Pend(s)) && forall y :: y !! x && (forall j :: j in y ==> j < |s.code|) ==> Frame(s.code, code', y)
  {
  }

  // ---------------------------------------------------------------- luaK_patchtohere

  ghost function Here(s: Unfinished, code': seq<Instr>, l: seq<nat>): Unfinished {
    Unfinished(code', s.hold - Elems(l), s.jl + l, |s.code|)
  }

  lemma HereRun(env: Env, s: Unfinished, code': seq<Instr>, l: seq<nat>, r: Regs)
    requires Wf(s) && Neutral(s.code, code', Pend(s)) && Elems(l) <= s.hold && |r| == MAXSTACK
    ensures Run(env, Here(s, code', l), r) == ToEnd(Run(env, s, r), l)
  {
    NeutralRun(env, s, code', r);
    HerePend(s, code', l);
  }

  lemma HerePend(s: Unfinished, code': seq<Instr>, l: seq<nat>)
    requires Elems(l) <= s.hold
    ensures Pend(Here(s, code', l)) == Pend(s)
  {
    ElemsAppend(s.jl, l);
  }

  lemma HereWf(s: Unfinished, code': seq<Instr>, l: seq<nat>)
    requires Wf(s) && Neutral(s.code, code', Pend(s)) && Elems(l) <= s.hold
    ensures Wf(Here(s, code', l))
  {
    NeutralWf(s, code');
    HerePend(s, code', l);
    ElemsAppend(s.jl, l);
    SoundLimit(code', Pend(s), s.lasttarget, |code'|);
  }

  // ---------------------------------------------------------------- taking the last instruction away

  /** The code without its last instruction, when no jump leads behind it. */
  lemma ChopWf(s: Unfinished)
    requires Wf(s) && |s.code| > 0 && s.lasttarget < |s.code| && Plain(s.code[|s.code| - 1])
    ensures s.jl == [] && Wf(s.(code := s.code[..|s.code| - 1]))
    ensures Appended(s.(code := s.code[..|s.code| - 1]), [s.code[|s.code| - 1]], {}) == s
  {
    var n := |s.code| - 1;
    var p := s.(code := s.code[..n]);
    assert s.code == p.code + [s.code[n]];
    assert s.hold + {} == s.hold;
    forall j | j in Pend(p) ensures NoTarget(p.code, j) { assert NoTarget(s.code, j); }
    forall i | 0 <= i < n ensures Sound(p.code, Pend(p), p.lasttarget, i) { assert Sound(s.code, Pend(s), s.lasttarget, i); }
  }

  // ---------------------------------------------------------------- jumps to the end

  /** At p, a boolean is loaded and then the end is reached. */
  ghost predicate LoadsBool(code: seq<Instr>, p: int, reg: nat, b: bool) {
    && 0 <= p < |code| && Landing(code, p)
    && ((p + 1 == |code| && code[p] == LoadBool(reg, b, false)) || (p + 2 == |code| && code[p] == LoadBool(reg, b, true)))
  }

  /** The jumps in `l` go to the end with their value in `reg`: those that deliver a value directly,
      the others by way of `dt`. */
  ghost predicate Finishing(s: Unfinished, code': seq<Instr>, l: set<nat>, reg: nat, dt: int, b: bool) {
    && Wf(s) && s.lasttarget == |s.code| && l <= s.hold && reg < MAXSTACK
    && Patched(s.code, code', l, |s.code|, reg, dt)
    && forall j :: j in l && !HasValue(s.code, j) ==> j < dt && LoadsBool(s.code, dt, reg, b)
  }

  ghost function Finished(s: Unfinished, code': seq<Instr>, l: set<nat>): Unfinished { s.(code := code', hold := s.hold - l) }

  /** The value that a jump delivers: what its test tested, or the side it is on. */
  function JumpValue(code: seq<Instr>, j: nat, r: Regs, side: bool): Value {
    if HasValue(code, j) then Get(r, code[j - 1].b) else Bool(side)
  }

  lemma FinishRun(env: Env, s: Unfinished, code': seq<Instr>, l: set<nat>, reg: nat, dt: int, b: bool, r: Regs)
    requires Finishing(s, code', l, reg, dt, b) && |r| == MAXSTACK
    ensures var o := Run(env, s, r);
      Run(env, Finished(s, code', l), r) == if o.AtJump? && o.j in l then End(Put(o.regs, reg, JumpValue(s.code, o.j, o.regs, b))) else o
  {
    var n := |s.code|;
    forall j | j in l ensures j < Dest(s.code, j, n, dt) { assert NoTarget(s.code, j); }
    ExecPatch(env, s.code, code', Pend(s), l, n, reg, dt, 0, r);
    assert Pend(Finished(s, code', l)) == Pend(s) - l;
    var o := Exec(env, s.code, Pend(s), 0, r);
    if o.AtJump? && o.j in l && !HasValue(s.code, o.j) {
      assert code'[dt] == PatchedInstr(s.code, l, n, reg, dt, dt);
      LoadsEnd(env, code', Pend(s) - l, dt, reg, b, o.regs);
    }
  }

  lemma LoadsEnd(env: Env, code: seq<Instr>, pend: set<nat>, p: nat, reg: nat, b: bool, r: Regs)
    requires p < |code| && ((p + 1 == |code| && code[p] == LoadBool(reg, b, false)) || (p + 2 == |code| && code[p] == LoadBool(reg, b, true)))
    ensures Exec(env, code, pend, p, r) == End(Put(r, reg, Bool(b)))
  {
  }

  lemma FinishWf(s: Unfinished, code': seq<Instr>, l: set<nat>, reg: nat, dt: int, b: bool)
    requires Finishing(s, code', l, reg, dt, b)
    ensures Wf(Finished(s, code', l)) && Frame(s.code, code', Pend(s) - l) && |code'| == |s.code|
    ensures forall p, v :: LoadsBool(s.code, p, reg, v) ==> LoadsBool(code', p, reg, v)
  {
    var n := |s.code|;
    forall i | 0 <= i < n ensures (TestMode(code'[i]) <==> TestMode(s.code[i])) && (s.code[i].LoadBool? ==> code'[i] == s.code[i]) {
      assert code'[i] == PatchedInstr(s.code, l, n, reg, dt, i);
      if i in l { assert NoTarget(s.code, i); }
    }
    EndLands(s.code, Pend(s), s.lasttarget);
    assert Pend(Finished(s, code', l)) == Pend(s) - l;
    forall j | j in Pend(s) - l ensures NoTarget(code', j) && Kept(s.code, code', j) { HeldKept(s, code', l, n, reg, dt, j); }
    forall i | 0 <= i < n ensures Sound(code', Pend(s) - l, n, i) { FinishSound(s, code', l, reg, dt, b, i); }
  }

  lemma FinishSound(s: Unfinished, code': seq<Instr>, l: set<nat>, reg: nat, dt: int, b: bool, i: nat)
    requires Finishing(s, code', l, reg, dt, b) && i < |s.code| && Landing(s.code, |s.code|)
    requires forall x :: 0 <= x < |s.code| ==> (TestMode(code'[x]) <==> TestMode(s.code[x]))
    ensures Sound(code', Pend(s) - l, |s.code|, i)
  {
    var n := |s.code|;
    assert Sound(s.code, Pend(s), s.lasttarget, i);
    assert code'[i] == PatchedInstr(s.code, l, n, reg, dt, i);
    if i in l { assert NoTarget(s.code, i); }
    if i + 1 < n {
      assert code'[i + 1] == PatchedInstr(s.code, l, n, reg, dt, i + 1);
      if i + 1 in l { assert NoTarget(s.code, i + 1); }
    }
    LandingKept(s.code, code', n);
    LandingKept(s.code, code', dt);
    if code'[i].Jmp? { LandingKept(s.code, code', i + 1 + code'[i].sbx); }
    LandingKept(s.code, code', i + 2);
  }
}
