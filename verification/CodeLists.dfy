/** Patch lists (src/lcode.c): lists of pending jumps threaded through the jump offsets of the code
    array itself. Each list refines a finite sequence of distinct jump positions. */
module CodeLists {
  import opened CodeMachine

  /** getjump: an offset that points to itself ends the list. */
  function GetJump(code: seq<Instr>, pc: nat): int
    requires pc < |code| && code[pc].Jmp?
  {
    if code[pc].sbx == NO_JUMP then NO_JUMP else pc + 1 + code[pc].sbx
  }

  /** fixjump */
  function FixJump(code: seq<Instr>, pc: nat, dest: int): (code': seq<Instr>)
    requires pc < |code| && code[pc].Jmp?
    ensures |code'| == |code|
  {
    code[pc := Jmp(dest - (pc + 1))]
  }

  ghost predicate IsJump(code: seq<Instr>, j: nat) { j < |code| && code[j].Jmp? }

  ghost predicate Distinct(l: seq<nat>) { forall i, j :: 0 <= i < j < |l| ==> l[i] != l[j] }

  ghost function Elems(l: seq<nat>): set<nat> { set j | j in l }

  /** The element behind position i of the list. */
  ghost function After(l: seq<nat>, i: nat): int { if i < |l| then l[i] else NO_JUMP }

  /** Element i of the list leads to element i + 1. */
  ghost predicate Link(code: seq<Instr>, l: seq<nat>, i: nat) {
    i < |l| && IsJump(code, l[i]) && GetJump(code, l[i]) == After(l, i + 1)
  }

  /** The list that starts at `head` has exactly the jumps `l`, in this order. */
  ghost predicate IsList(code: seq<Instr>, head: int, l: seq<nat>) {
    && head == After(l, 0) && Distinct(l) && (forall i :: 0 <= i < |l| ==> IsJump(code, l[i]))
    && forall i :: 0 <= i < |l| ==> Link(code, l, i)
  }

  /** Lists survive changes elsewhere. */
  lemma ListFrame(code: seq<Instr>, code': seq<Instr>, head: int, l: seq<nat>)
    requires IsList(code, head, l) && forall i :: 0 <= i < |l| ==> l[i] < |code'| && code'[l[i]] == code[l[i]]
    ensures IsList(code', head, l)
  {
    forall i | 0 <= i < |l| ensures Link(code', l, i) { assert Link(code, l, i); }
  }

  lemma ListJumps(code: seq<Instr>, head: int, l: seq<nat>)
    requires IsList(code, head, l)
    ensures forall j :: j in Elems(l) ==> IsJump(code, j)
  {
  }

  lemma ElemsAppend(a: seq<nat>, b: seq<nat>)
    ensures Elems(a + b) == Elems(a) + Elems(b)
  {
  }

  // ---------------------------------------------------------------- joining lists

  /** luaK_concat: only the offset of the last jump of the first list changes. */
  method Concat(code: seq<Instr>, l1: int, l2: int, ghost a: seq<nat>, ghost b: seq<nat>) returns (code': seq<Instr>, head: int)
    requires IsList(code, l1, a) && IsList(code, l2, b) && Elems(a) !! Elems(b)
    ensures IsList(code', head, a + b) && |code'| == |code|
    ensures forall i :: 0 <= i < |code| && i !in Elems(a) ==> code'[i] == code[i]
    ensures forall i :: 0 <= i < |code| && i in Elems(a) ==> code'[i].Jmp?
    ensures a == [] || b == [] ==> code' == code
  {
    code', head := code, l1;
    if l2 == NO_JUMP {
      assert a + b == a;
    } else if l1 == NO_JUMP {
      head := l2;
      assert a + b == b;
    } else {
      var list := l1;
      ghost var n := 0;
      assert Link(code, a, 0);
      while GetJump(code, list) != NO_JUMP
        invariant 0 <= n < |a| && list == a[n] && Link(code, a, n)
        decreases |a| - n
      {
        assert n + 1 < |a| && Link(code, a, n + 1);
        list := GetJump(code, list);
        n := n + 1;
      }
      code' := FixJump(code, list, l2);
      Joined(code, code', l1, l2, a, b);
    }
  }

  lemma Joined(code: seq<Instr>, code': seq<Instr>, l1: int, l2: int, a: seq<nat>, b: seq<nat>)
    requires IsList(code, l1, a) && IsList(code, l2, b) && Elems(a) !! Elems(b) && a != [] && b != []
    requires code' == FixJump(code, a[|a| - 1], l2)
    ensures IsList(code', l1, a + b)
  {
    forall i | 0 <= i < |b| ensures b[i] !in a { assert b[i] in Elems(b); }
    var last := a[|a| - 1];
    assert IsJump(code, last);
    forall i | 0 <= i < |a + b| ensures Link(code', a + b, i) {
      if i < |a| { assert Link(code, a, i); } else { assert Link(code, b, i - |a|); }
    }
    DistinctAppend(a, b);
  }

  lemma DistinctAppend(a: seq<nat>, b: seq<nat>)
    requires Distinct(a) && Distinct(b) && Elems(a) !! Elems(b)
    ensures Distinct(a + b)
  {
    forall i, j | 0 <= i < j < |a + b| ensures (a + b)[i] != (a + b)[j] {
      if i < |a| <= j { assert a[i] in Elems(a) && b[j - |a|] in Elems(b); }
    }
  }

  // ---------------------------------------------------------------- jumps that carry a value

  /** The jump is controlled by an OP_TESTSET, so it can deliver the value it tested. */
  predicate HasValue(code: seq<Instr>, j: nat) { 1 <= j <= |code| && code[j - 1].TestSet? }

  /** need_value: some jump of the list delivers no value. */
  method NeedValue(code: seq<Instr>, list0: int, ghost l: seq<nat>) returns (need: bool)
    requires IsList(code, list0, l)
    ensures need <==> exists j :: j in Elems(l) && !HasValue(code, j)
  {
    var list := list0;
    ghost var n := 0;
    while list != NO_JUMP
      invariant 0 <= n <= |l| && list == After(l, n)
      invariant forall i :: 0 <= i < n ==> HasValue(code, l[i])
      decreases |l| - n
    {
      assert Link(code, l, n);
      if !HasValue(code, list) {
        assert l[n] in Elems(l);
        return true;
      }
      list := GetJump(code, list);
      n := n + 1;
    }
    return false;
  }

  /** patchtestreg on the instruction that controls a jump. */
  function Retarget(i: Instr, reg: nat): Instr
    requires i.TestSet?
  {
    if reg != NO_REG && reg != i.b then TestSet(reg, i.b, i.cond) else Test(i.b, i.cond)
  }

  // ---------------------------------------------------------------- patching a list

  /** The instruction at i after the jumps in `s` got their targets: `vt` for those that deliver a
      value (to register `reg`), and `dt` for the others. */
  function PatchedInstr(code: seq<Instr>, s: set<nat>, vt: int, reg: nat, dt: int, i: nat): Instr
    requires i < |code|
  {
    if i in s then Jmp((if HasValue(code, i) then vt else dt) - (i + 1))
    else if i + 1 in s && code[i].TestSet? then Retarget(code[i], reg)
    else code[i]
  }

  ghost predicate Patched(code: seq<Instr>, code': seq<Instr>, s: set<nat>, vt: int, reg: nat, dt: int) {
    |code'| == |code| && forall i :: 0 <= i < |code| ==> code'[i] == PatchedInstr(code, s, vt, reg, dt, i)
  }

  method PatchOne(code: seq<Instr>, j: nat, vt: int, reg: nat, dt: int) returns (code': seq<Instr>)
    requires IsJump(code, j)
    ensures Patched(code, code', {j}, vt, reg, dt)
  {
    if HasValue(code, j) {
      code' := code[j - 1 := Retarget(code[j - 1], reg)];
      code' := FixJump(code', j, vt);
    } else {
      code' := FixJump(code, j, dt);
    }
  }

  lemma PatchMore(code: seq<Instr>, code1: seq<Instr>, code2: seq<Instr>, s: set<nat>, j: nat, vt: int, reg: nat, dt: int)
    requires Patched(code, code1, s, vt, reg, dt) && Patched(code1, code2, {j}, vt, reg, dt)
    requires IsJump(code, j) && j !in s && forall i :: i in s ==> IsJump(code, i)
    ensures Patched(code, code2, s + {j}, vt, reg, dt)
  {
    assert HasValue(code1, j) == HasValue(code, j);
    forall i | 0 <= i < |code| ensures code2[i] == PatchedInstr(code, s + {j}, vt, reg, dt, i) {
      assert code2[i] == PatchedInstr(code1, {j}, vt, reg, dt, i);
      assert code1[i] == PatchedInstr(code, s, vt, reg, dt, i);
    }
  }

  /** patchlistaux: exactly the jumps of the list, and the tests that control them, change. */
  method PatchListAux(code: seq<Instr>, list0: int, vt: int, reg: nat, dt: int, ghost l: seq<nat>) returns (code': seq<Instr>)
    requires IsList(code, list0, l)
    ensures Patched(code, code', Elems(l), vt, reg, dt)
  {
    var list := list0;
    code' := code;
    ghost var n := 0;
    assert l[..0] == [];
    while list != NO_JUMP
      invariant 0 <= n <= |l| && list == After(l, n)
      invariant Patched(code, code', Elems(l[..n]), vt, reg, dt)
      invariant forall i :: n <= i < |l| ==> code'[l[i]] == code[l[i]]
      decreases |l| - n
    {
      assert Link(code, l, n);
      var next := GetJump(code', list);
      ghost var before := code';
      code' := PatchOne(code', list, vt, reg, dt);
      PatchMore(code, before, code', Elems(l[..n]), l[n], vt, reg, dt);
      assert l[..n + 1] == l[..n] + [l[n]];
      assert Elems(l[..n + 1]) == Elems(l[..n]) + {l[n]};
      list := next;
      n := n + 1;
    }
    assert l[..n] == l;
  }

  // ---------------------------------------------------------------- dropping values

  ghost predicate Dropped(code: seq<Instr>, code': seq<Instr>, s: set<nat>) {
    && |code'| == |code|
    && forall i :: 0 <= i < |code| ==> code'[i] == if i + 1 in s && code[i].TestSet? then Test(code[i].b, code[i].cond) else code[i]
  }

  lemma DropMore(code: seq<Instr>, code1: seq<Instr>, code2: seq<Instr>, s: set<nat>, j: nat)
    requires Dropped(code, code1, s) && IsJump(code, j)
    requires code2 == if HasValue(code1, j) then code1[j - 1 := Retarget(code1[j - 1], NO_REG)] else code1
    ensures Dropped(code, code2, s + {j}) && IsJump(code2, j) && code2[j] == code[j]
  {
  }

  /** removevalues: no jump of the list delivers a value any more. */
  method RemoveValues(code: seq<Instr>, list0: int, ghost l: seq<nat>) returns (code': seq<Instr>)
    requires IsList(code, list0, l)
    ensures Dropped(code, code', Elems(l))
  {
    var list := list0;
    code' := code;
    ghost var n := 0;
    assert l[..0] == [];
    while list != NO_JUMP
      invariant 0 <= n <= |l| && list == After(l, n)
      invariant Dropped(code, code', Elems(l[..n]))
      decreases |l| - n
    {
      assert Link(code, l, n);
      ghost var before := code';
      if HasValue(code', list) { code' := code'[list - 1 := Retarget(code'[list - 1], NO_REG)]; }
      DropMore(code, before, code', Elems(l[..n]), l[n]);
      assert l[..n + 1] == l[..n] + [l[n]];
      assert Elems(l[..n + 1]) == Elems(l[..n]) + {l[n]};
      list := GetJump(code', list);
      n := n + 1;
    }
    assert l[..n] == l;
  }
}
