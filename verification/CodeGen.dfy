/** The code generator's basic operations on the function being compiled (src/lcode.c). */
module CodeGen {
  import opened CodeMachine
  import opened CodeLists
  import opened CodeRun
  import opened CodeState

  /** A raised syntax error ends the compilation. */
  datatype Status = Fine | TooComplex

  class FuncState {
    const num: (ArithOp, real, real) -> real   // arithmetic, for constant folding
    const nactvar: nat               // number of active local variables
    var code: seq<Instr>
    var k: seq<Value>                // constants
    var jpc: int                     // list of pending jumps to the next instruction
    var lasttarget: int              // last position that is a jump target
    var freereg: nat                 // first free register
    ghost var hold: set<nat>         // the jumps on other patch lists
    ghost var jl: seq<nat>           // the jumps on the list jpc

    ghost function View(): Unfinished
      reads this
    {
      Unfinished(code, hold, jl, lasttarget)
    }

    ghost function Consts(): Env
      reads this
    {
      Env(num, k)
    }

    constructor (nactvar: nat, num: (ArithOp, real, real) -> real)
      requires nactvar < MAXSTACK
      ensures code == [] && k == [] && jpc == NO_JUMP && hold == {} && jl == [] && lasttarget == -1
      ensures freereg == nactvar == this.nactvar && this.num == num
    {
      this.nactvar, this.num := nactvar, num;
      code, k, jpc, lasttarget, freereg, hold, jl := [], [], NO_JUMP, -1, nactvar, {}, [];
    }

    /** luaK_code: the jumps that wait for this position get it as their target. */
    method Code(i: Instr) returns (at: nat, ghost c1: seq<Instr>)
      requires IsList(code, jpc, jl)
      modifies this`code, this`jpc, this`jl
      ensures Patched(old(code), c1, Elems(old(jl)), |old(code)|, NO_REG, |old(code)|)
      ensures code == c1 + [i] && at == |c1| && jpc == NO_JUMP && jl == []
    {
      code := PatchListAux(code, jpc, |code|, NO_REG, |code|, jl);
      jpc, jl := NO_JUMP, [];
      c1, at := code, |code|;
      code := code + [i];
    }

    /** luaK_jump: jumps to here are kept on hold, on the list of the new jump. */
    method Jump() returns (j: nat)
      requires IsList(code, jpc, jl)
      modifies this`code, this`jpc, this`jl, this`hold
      ensures j == |old(code)| && IsList(code, j, [j] + old(jl)) && IsJump(code, j) && jpc == NO_JUMP
      ensures View() == Held(old(View()), code[j].sbx) && (old(jl) == [] ==> code[j].sbx == NO_JUMP)
    {
      ghost var l := jl;
      var saved := jpc;
      var head;
      jpc, jl := NO_JUMP, [];
      ghost var c1;
      j, c1 := Code(Jmp(NO_JUMP));
      NothingPatched(old(code), c1, |old(code)|, |old(code)|);
      assert IsList(code, j, [j]) by { assert Link(code, [j], 0); }
      forall i | 0 <= i < |l| ensures l[i] < |code| && code[l[i]] == old(code)[l[i]] { assert l[i] in Elems(l); }
      ListFrame(old(code), code, saved, l);
      ghost var before := code;
      code, head := Concat(code, j, saved, [j], l);
      hold := hold + {j} + Elems(l);
      assert code[..j] == old(code);
    }

    /** condjump: a test and its jump. */
    method CondJump(i: Instr) returns (j: nat, ghost c1: seq<Instr>)
      requires IsList(code, jpc, jl)
      modifies this`code, this`jpc, this`jl, this`hold
      ensures Patched(old(code), c1, Elems(old(jl)), |old(code)|, NO_REG, |old(code)|)
      ensures code == c1 + [i, Jmp(NO_JUMP)] && j == |c1| + 1 && jpc == NO_JUMP && jl == [] && hold == old(hold) + {j}
    {
      var at;
      at, c1 := Code(i);
      j := Jump();
      assert code[..j] == c1 + [i];
    }

    /** luaK_patchtohere */
    method PatchToHere(list: int, ghost l: seq<nat>)
      requires IsList(code, jpc, jl) && IsList(code, list, l) && Elems(l) <= hold && hold !! Elems(jl)
      modifies this`code, this`jpc, this`jl, this`hold, this`lasttarget
      ensures View() == Here(old(View()), code, l) && IsList(code, jpc, jl) && Rewired(old(code), code, Elems(old(jl)))
    {
      lasttarget := |code|;
      code, jpc := Concat(code, jpc, list, jl, l);
      hold, jl := hold - Elems(l), jl + l;
    }

    /** luaK_patchlist: to a position that there is already, or to here. */
    method PatchList(list: int, target: nat, ghost l: seq<nat>)
      requires IsList(code, jpc, jl) && IsList(code, list, l) && Elems(l) <= hold && hold !! Elems(jl) && target <= |code|
      modifies this`code, this`jpc, this`jl, this`hold, this`lasttarget
      ensures hold == old(hold) - Elems(l)
      ensures target == |old(code)| ==> View() == Here(old(View()), code, l) && IsList(code, jpc, jl) && Rewired(old(code), code, Elems(old(jl)))
      ensures target < |old(code)| ==> Patched(old(code), code, Elems(l), target, NO_REG, target) && jpc == old(jpc) && jl == old(jl) && lasttarget == old(lasttarget)
    {
      if target == |code| { PatchToHere(list, l); return; }
      code := PatchListAux(code, list, target, NO_REG, target, l);
      hold := hold - Elems(l);
    }

    /** luaK_checkstack and luaK_reserveregs */
    method ReserveRegs(n: nat) returns (st: Status)
      modifies this`freereg
      ensures if st.Fine? then freereg == old(freereg) + n < MAXSTACK else unchanged(this) && old(freereg) + n >= MAXSTACK
    {
      if freereg + n >= MAXSTACK { return TooComplex; }
      freereg := freereg + n;
      return Fine;
    }

    /** freereg */
    method FreeReg(reg: nat)
      requires !IsK(reg) && reg >= nactvar ==> freereg == reg + 1
      modifies this`freereg
      ensures freereg == if !IsK(reg) && reg >= nactvar then reg else old(freereg)
    {
      if !IsK(reg) && reg >= nactvar { freereg := freereg - 1; }
    }

    /** addk: the index of a constant, which is added unless it is there. */
    method AddK(v: Value) returns (i: nat)
      modifies this`k
      ensures old(k) <= k && i < |k| && k[i] == v && |k| <= |old(k)| + 1 && i <= |old(k)|
    {
      i := 0;
      while i < |k|
        invariant 0 <= i <= |k|
      {
        if k[i] == v { return; }
        i := i + 1;
      }
      k := k + [v];
    }
  }
}
