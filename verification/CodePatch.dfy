/** Whole sequences of jump operations (src/lcode.c, luaK_jump to luaK_concat). Lists threaded through the
    code refine finite lists of pending jumps; when a list is patched, its jumps and no others are resolved. */
module CodePatch {
  import opened CodeMachine
  import opened CodeLists
  import opened CodeRun
  import opened CodeState
  import opened CodeGen

  /** The parser's side: instructions that are no jumps, new jumps, and its list variables by number. */
  datatype Op = Emit(i: Instr) | NewJump | Join(a: nat, b: nat) | ToHere(a: nat) | ToTarget(a: nat, target: nat)

  /** What was emitted, the jumps to the next instruction, the pending jumps of each list, and the targets of
      the jumps that are resolved. */
  datatype Pending = Pending(emitted: seq<Instr>, here: seq<nat>, lists: seq<seq<nat>>, target: map<nat, int>)

  predicate Can(p: Pending, op: Op) {
    match op
    case Emit(i) => !i.Jmp?
    case NewJump => true
    case Join(a, b) => a < |p.lists| && b < |p.lists| && a != b
    case ToHere(a) => a < |p.lists|
    case ToTarget(a, t) => a < |p.lists| && t <= |p.emitted|
  }

  ghost function Resolved(target: map<nat, int>, l: seq<nat>, t: int): map<nat, int> {
    map j | j in target.Keys + Elems(l) :: if j in Elems(l) then t else target[j]
  }

  ghost function Next(p: Pending, op: Op): Pending
    requires Can(p, op)
  {
    var n := |p.emitted|;
    match op
    case Emit(i) => Pending(p.emitted + [i], [], p.lists, Resolved(p.target, p.here, n))
    case NewJump => Pending(p.emitted + [Jmp(NO_JUMP)], [], p.lists + [[n] + p.here], p.target)
    case Join(a, b) => p.(lists := p.lists[a := p.lists[a] + p.lists[b]][b := []])
    case ToHere(a) => p.(here := p.here + p.lists[a], lists := p.lists[a := []])
    case ToTarget(a, t) =>
      if t == n then p.(here := p.here + p.lists[a], lists := p.lists[a := []])
      else p.(lists := p.lists[a := []], target := Resolved(p.target, p.lists[a], t))
  }

  ghost predicate CanAll(p: Pending, ops: seq<Op>)
    decreases |ops|
  {
    ops == [] || (Can(p, ops[0]) && CanAll(Next(p, ops[0]), ops[1..]))
  }

  ghost function Final(p: Pending, ops: seq<Op>): Pending
    requires CanAll(p, ops)
    decreases |ops|
  {
    if ops == [] then p else Final(Next(p, ops[0]), ops[1..])
  }

  // ---------------------------------------------------------------- the code and what it stands for

  ghost function List(p: Pending, k: int): seq<nat> { if 0 <= k < |p.lists| then p.lists[k] else if k == -1 then p.here else [] }

  /** No jump is on two lists, or on a list and resolved. */
  ghost predicate Apart(p: Pending) {
    && (forall a, b :: -1 <= a < b < |p.lists| ==> Elems(List(p, a)) !! Elems(List(p, b)))
    && forall a :: -1 <= a < |p.lists| ==> Elems(List(p, a)) !! p.target.Keys
  }

  ghost predicate OnList(p: Pending, j: nat) { exists a :: -1 <= a < |p.lists| && j in Elems(List(p, a)) }

  /** Every jump is on a list or resolved. */
  ghost predicate Covered(p: Pending) {
    forall j: nat :: j < |p.emitted| && p.emitted[j].Jmp? <==> j in p.target || OnList(p, j)
  }

  /** The i-th instruction: a resolved jump has its target; a test whose jump is resolved no longer delivers
      a value; a pending jump has some offset; everything else is as emitted. */
  ghost predicate Stands(p: Pending, code: seq<Instr>, i: nat)
    requires i < |p.emitted| == |code|
  {
    if i in p.target then code[i] == Jmp(p.target[i] - (i + 1))
    else if p.emitted[i].Jmp? then code[i].Jmp?
    else if p.emitted[i].TestSet? && i + 1 in p.target then code[i] == Test(p.emitted[i].b, p.emitted[i].cond)
    else code[i] == p.emitted[i]
  }

  ghost predicate Code(p: Pending, code: seq<Instr>) { |code| == |p.emitted| && forall i :: 0 <= i < |code| ==> Stands(p, code, i) }

  ghost predicate Lists(p: Pending, code: seq<Instr>, jpc: int, heads: seq<int>) {
    IsList(code, jpc, p.here) && |heads| == |p.lists| && forall k :: 0 <= k < |heads| ==> IsList(code, heads[k], p.lists[k])
  }

  ghost predicate Tracks(p: Pending, code: seq<Instr>, jpc: int, heads: seq<int>) {
    Apart(p) && Covered(p) && Code(p, code) && Lists(p, code, jpc, heads)
  }

  /** All jumps on the parser's lists. */
  ghost predicate Holds(p: Pending, hold: set<nat>) { forall j :: j in hold <==> exists k :: 0 <= k < |p.lists| && j in Elems(List(p, k)) }

  // ---------------------------------------------------------------- the abstract steps keep jumps apart

  lemma JoinApart(p: Pending, a: nat, b: nat)
    requires Apart(p) && Covered(p) && Can(p, Join(a, b))
    ensures Apart(Next(p, Join(a, b))) && Covered(Next(p, Join(a, b)))
  {
    var q := Next(p, Join(a, b));
    ElemsAppend(p.lists[a], p.lists[b]);
    assert forall k :: k != a && k != b ==> List(q, k) == List(p, k);
    assert Elems(List(q, a)) == Elems(List(p, a)) + Elems(List(p, b)) && Elems(List(q, b)) == {};
    forall j: nat ensures OnList(q, j) <==> OnList(p, j) { }
  }

  lemma HereApart(p: Pending, a: nat)
    requires Apart(p) && Covered(p) && Can(p, ToHere(a))
    ensures Apart(Next(p, ToHere(a))) && Covered(Next(p, ToHere(a)))
  {
    var q := Next(p, ToHere(a));
    ElemsAppend(p.here, p.lists[a]);
    assert forall k :: k != a && k != -1 ==> List(q, k) == List(p, k);
    assert Elems(List(q, -1)) == Elems(List(p, -1)) + Elems(List(p, a)) && Elems(List(q, a)) == {};
    forall j: nat ensures OnList(q, j) <==> OnList(p, j) { }
  }

  /** The jumps of list k are resolved, and leave it. */
  ghost function Settled(p: Pending, k: int, t: int): Pending
    requires -1 <= k < |p.lists|
  {
    var q := p.(target := Resolved(p.target, List(p, k), t));
    if k == -1 then q.(here := []) else q.(lists := q.lists[k := []])
  }

  lemma SettledApart(p: Pending, k: int, t: int)
    requires Apart(p) && Covered(p) && -1 <= k < |p.lists|
    ensures Apart(Settled(p, k, t)) && Covered(Settled(p, k, t))
  {
    var q := Settled(p, k, t);
    assert forall x :: x != k ==> List(q, x) == List(p, x);
    assert List(q, k) == [] && q.target.Keys == p.target.Keys + Elems(List(p, k));
    forall j: nat ensures j in q.target || OnList(q, j) <==> j in p.target || OnList(p, j) { }
  }

  lemma Bounds(p: Pending)
    requires Covered(p)
    ensures forall j: nat :: j in p.target || OnList(p, j) ==> j < |p.emitted| && p.emitted[j].Jmp?
  {
  }

  /** patchlistaux on a list: the code stands for the same, with the list's jumps resolved. */
  lemma SettledTracks(p: Pending, code: seq<Instr>, code': seq<Instr>, jpc: int, heads: seq<int>, k: int, t: int)
    requires Tracks(p, code, jpc, heads) && -1 <= k < |p.lists| && Patched(code, code', Elems(List(p, k)), t, NO_REG, t)
    ensures k == -1 ==> Tracks(Settled(p, k, t), code', NO_JUMP, heads)
    ensures k >= 0 ==> Tracks(Settled(p, k, t), code', jpc, heads[k := NO_JUMP])
  {
    var q, l := Settled(p, k, t), List(p, k);
    SettledApart(p, k, t);
    forall i | 0 <= i < |code'| ensures Stands(q, code', i) { SettledStands(p, code, code', k, t, i); }
    forall x, head | -1 <= x < |p.lists| && x != k && IsList(code, head, List(p, x)) ensures IsList(code', head, List(p, x)) {
      UntouchedList(p, code, code', k, t, x, head);
    }
    assert k >= 0 ==> IsList(code, jpc, List(p, -1));
    forall x | 0 <= x < |p.lists| && x != k ensures IsList(code', heads[x], p.lists[x]) { assert List(p, x) == p.lists[x]; }
  }

  lemma SettledStands(p: Pending, code: seq<Instr>, code': seq<Instr>, k: int, t: int, i: nat)
    requires Apart(p) && Covered(p) && Code(p, code) && -1 <= k < |p.lists| && i < |code|
    requires Patched(code, code', Elems(List(p, k)), t, NO_REG, t)
    ensures Stands(Settled(p, k, t), code', i)
  {
    var l, q := Elems(List(p, k)), Settled(p, k, t);
    assert Stands(p, code, i);
    ListedIsJump(p, k, i);
    ListedIsJump(p, k, i + 1);
    StandsStep(p, q, code, code', l, t, i);
  }

  lemma ListedIsJump(p: Pending, k: int, j: nat)
    requires Covered(p) && Apart(p) && -1 <= k < |p.lists|
    ensures j in Elems(List(p, k)) ==> j < |p.emitted| && p.emitted[j].Jmp? && j !in p.target
    ensures j in p.target ==> j < |p.emitted| && p.emitted[j].Jmp?
  {
    if j in Elems(List(p, k)) { assert OnList(p, j); }
  }

  lemma StandsStep(p: Pending, q: Pending, code: seq<Instr>, code': seq<Instr>, l: set<nat>, t: int, i: nat)
    requires |p.emitted| == |code| == |code'| && i < |code| && Stands(p, code, i) && code'[i] == PatchedInstr(code, l, t, NO_REG, t, i)
    requires q.emitted == p.emitted && q.target.Keys == p.target.Keys + l && forall j :: j in q.target ==> q.target[j] == if j in l then t else p.target[j]
    requires i in l ==> p.emitted[i].Jmp?
    requires i in p.target ==> p.emitted[i].Jmp?
    ensures Stands(q, code', i)
  {
  }

  /** The other lists are untouched. */
  lemma UntouchedList(p: Pending, code: seq<Instr>, code': seq<Instr>, k: int, t: int, x: int, head: int)
    requires Apart(p) && -1 <= k < |p.lists| && -1 <= x < |p.lists| && x != k
    requires IsList(code, head, List(p, x)) && Patched(code, code', Elems(List(p, k)), t, NO_REG, t)
    ensures IsList(code', head, List(p, x))
  {
    var l := List(p, x);
    forall i | 0 <= i < |l| ensures l[i] < |code'| && code'[l[i]] == code[l[i]] {
      assert l[i] in Elems(l);
      assert code'[l[i]] == PatchedInstr(code, Elems(List(p, k)), t, NO_REG, t, l[i]);
    }
    ListFrame(code, code', head, l);
  }

  lemma LongerLists(p: Pending, code: seq<Instr>, jpc: int, heads: seq<int>, i: Instr)
    requires Lists(p, code, jpc, heads)
    ensures Lists(p, code + [i], jpc, heads)
  {
    ListFrame(code, code + [i], jpc, p.here);
    forall k | 0 <= k < |heads| ensures IsList(code + [i], heads[k], p.lists[k]) { ListFrame(code, code + [i], heads[k], p.lists[k]); }
  }

  lemma LongerCode(p: Pending, q: Pending, code: seq<Instr>, i: Instr, e: Instr)
    requires Covered(p) && Code(p, code) && q.emitted == p.emitted + [e] && q.target == p.target
    requires if e.Jmp? then i.Jmp? else i == e
    ensures Code(q, code + [i])
  {
    assert forall j: nat :: j in p.target ==> j < |p.emitted|;
    forall x | 0 <= x < |code + [i]| ensures Stands(q, code + [i], x) {
      if x < |code| { assert Stands(p, code, x); }
    }
  }

  /** An instruction at the end changes nothing else. */
  lemma Extended(p: Pending, code: seq<Instr>, jpc: int, heads: seq<int>, i: Instr)
    requires Tracks(p, code, jpc, heads) && !i.Jmp?
    ensures Tracks(p.(emitted := p.emitted + [i]), code + [i], jpc, heads)
  {
    var q := p.(emitted := p.emitted + [i]);
    LongerApart(p, i);
    LongerCode(p, q, code, i, i);
    LongerLists(p, code, jpc, heads, i);
  }

  lemma LongerApart(p: Pending, i: Instr)
    requires Apart(p) && Covered(p) && !i.Jmp?
    ensures var q := p.(emitted := p.emitted + [i]); Apart(q) && Covered(q)
  {
    var q := p.(emitted := p.emitted + [i]);
    Bounds(p);
    forall x ensures List(q, x) == List(p, x) { }
    forall j: nat ensures OnList(q, j) <==> OnList(p, j) { }
  }

  /** A new jump, with those that waited for this position, is a list of its own. */
  lemma Jumped(p: Pending, code: seq<Instr>, jpc: int, heads: seq<int>, d: int)
    requires Tracks(p, code, jpc, heads) && IsList(code + [Jmp(d)], |code|, [|code|] + p.here)
    ensures Tracks(Next(p, NewJump), code + [Jmp(d)], NO_JUMP, heads + [|code|])
  {
    var q, n, code' := Next(p, NewJump), |code|, code + [Jmp(d)];
    JumpedApart(p);
    LongerCode(p, q, code, Jmp(d), Jmp(NO_JUMP));
    LongerLists(p, code, jpc, heads, Jmp(d));
  }

  lemma JumpedApart(p: Pending)
    requires Apart(p) && Covered(p)
    ensures Apart(Next(p, NewJump)) && Covered(Next(p, NewJump))
  {
    var q := Next(p, NewJump);
    forall a, b | -1 <= a < b < |q.lists| ensures Elems(List(q, a)) !! Elems(List(q, b)) { JumpedElems(p, a); JumpedElems(p, b); }
    forall a | -1 <= a < |q.lists| ensures Elems(List(q, a)) !! q.target.Keys { JumpedElems(p, a); }
    JumpedCovered(p);
  }

  /** What list a has after a jump: it is an old list, or the new jump and those that waited. */
  lemma JumpedElems(p: Pending, a: int)
    requires Apart(p) && Covered(p) && -1 <= a <= |p.lists|
    ensures var n, l := |p.emitted|, Elems(List(Next(p, NewJump), a));
      && l == (if a == -1 then {} else if a == |p.lists| then {n} + Elems(List(p, -1)) else Elems(List(p, a)))
      && (a < |p.lists| ==> n !in l) && n !in p.target
  {
    if a < |p.lists| { ListedIsJump(p, a, |p.emitted|); }
    ListedIsJump(p, -1, |p.emitted|);
    ElemsAppend([|p.emitted|], p.here);
  }

  lemma JumpedCovered(p: Pending)
    requires Covered(p)
    ensures Covered(Next(p, NewJump))
  {
    forall j: nat ensures OnList(Next(p, NewJump), j) <==> OnList(p, j) || j == |p.emitted| { JumpedOn(p, j); }
    Bounds(p);
  }

  lemma JumpedOn(p: Pending, j: nat)
    ensures OnList(Next(p, NewJump), j) <==> OnList(p, j) || j == |p.emitted|
  {
    var q, m := Next(p, NewJump), |p.lists|;
    ElemsAppend([|p.emitted|], p.here);
    assert Elems(List(q, m)) == {|p.emitted|} + Elems(List(p, -1));
    assert forall x :: 0 <= x < m ==> List(q, x) == List(p, x);
    if OnList(p, j) {
      var a :| -1 <= a < m && j in Elems(List(p, a));
      assert j in Elems(List(q, if a == -1 then m else a));
    }
    if j == |p.emitted| { assert j in Elems(List(q, m)); }
  }

  /** Concatenation: only offsets of jumps of the first list change. */
  lemma Spliced(p: Pending, code: seq<Instr>, code': seq<Instr>, jpc: int, heads: seq<int>, q: Pending, a: int, head: int)
    requires Tracks(p, code, jpc, heads) && Apart(q) && Covered(q) && -1 <= a < |p.lists|
    requires q == p.(here := q.here, lists := q.lists) && |q.lists| == |p.lists|
    requires forall x :: -1 <= x < |p.lists| && x != a ==> List(q, x) == List(p, x) || List(q, x) == []
    requires IsList(code', head, List(q, a)) && Rewired(code, code', Elems(List(p, a)))
    ensures Code(q, code')
    ensures forall x, h :: -1 <= x < |p.lists| && x != a && List(q, x) == List(p, x) && IsList(code, h, List(p, x)) ==> IsList(code', h, List(p, x))
  {
    forall i | 0 <= i < |code'| ensures Stands(q, code', i) {
      assert Stands(p, code, i);
      if i in Elems(List(p, a)) { assert OnList(p, i); }
    }
    forall x, h | -1 <= x < |p.lists| && x != a && IsList(code, h, List(p, x)) ensures IsList(code', h, List(p, x)) {
      var l := List(p, x);
      forall i | 0 <= i < |l| ensures l[i] < |code'| && code'[l[i]] == code[l[i]] { assert l[i] in Elems(l); }
      ListFrame(code, code', h, l);
    }
  }

  // ---------------------------------------------------------------- running the operations

  lemma HoldParts(p: Pending, hold: set<nat>, a: nat)
    requires Holds(p, hold) && Apart(p) && a < |p.lists|
    ensures Elems(p.lists[a]) <= hold && hold !! Elems(p.here)
  {
    assert List(p, a) == p.lists[a] && List(p, -1) == p.here;
  }

  lemma HoldLess(p: Pending, hold: set<nat>, q: Pending, a: nat)
    requires Holds(p, hold) && Apart(p) && a < |p.lists| && q.lists == p.lists[a := []]
    ensures Holds(q, hold - Elems(p.lists[a]))
  {
    assert forall x :: 0 <= x < |p.lists| && x != a ==> List(q, x) == List(p, x);
    assert List(q, a) == [] && List(p, a) == p.lists[a];
    forall j ensures j in hold - Elems(p.lists[a]) <==> exists k :: 0 <= k < |q.lists| && j in Elems(List(q, k)) {
      if j in hold && j !in Elems(p.lists[a]) {
        var k :| 0 <= k < |p.lists| && j in Elems(List(p, k));
        assert j in Elems(List(q, k));
      }
      if k :| 0 <= k < |q.lists| && j in Elems(List(q, k)) { assert j in Elems(List(p, k)); }
    }
  }

  ghost predicate Good(fs: FuncState, heads: seq<int>, p: Pending)
    reads fs
  {
    Tracks(p, fs.code, fs.jpc, heads) && fs.jl == p.here && Holds(p, fs.hold)
  }

  method DoEmit(fs: FuncState, heads: seq<int>, i: Instr, ghost p: Pending)
    requires Good(fs, heads, p) && !i.Jmp?
    modifies fs
    ensures Good(fs, heads, Next(p, Emit(i)))
  {
    var at, c1 := fs.Code(i);
    SettledTracks(p, old(fs.code), c1, old(fs.jpc), heads, -1, |old(fs.code)|);
    ghost var q := Settled(p, -1, |old(fs.code)|);
    Extended(q, c1, NO_JUMP, heads, i);
    assert Next(p, Emit(i)) == q.(emitted := q.emitted + [i]);
    assert forall x :: 0 <= x < |p.lists| ==> List(Next(p, Emit(i)), x) == List(p, x);
  }

  method DoJump(fs: FuncState, heads: seq<int>, ghost p: Pending) returns (heads': seq<int>)
    requires Good(fs, heads, p)
    modifies fs
    ensures Good(fs, heads', Next(p, NewJump))
  {
    var j := fs.Jump();
    heads' := heads + [j];
    Jumped(p, old(fs.code), old(fs.jpc), heads, fs.code[j].sbx);
    JumpHolds(p, old(fs.hold));
  }

  lemma JumpHolds(p: Pending, hold: set<nat>)
    requires Holds(p, hold)
    ensures Holds(Next(p, NewJump), hold + {|p.emitted|} + Elems(p.here))
  {
    var q, m := Next(p, NewJump), |p.lists|;
    ElemsAppend([|p.emitted|], p.here);
    assert Elems(List(q, m)) == {|p.emitted|} + Elems(p.here);
    assert forall x :: 0 <= x < m ==> List(q, x) == List(p, x);
    forall j ensures j in hold + {|p.emitted|} + Elems(p.here) <==> exists k :: 0 <= k < |q.lists| && j in Elems(List(q, k)) {
      if j in hold {
        var k :| 0 <= k < m && j in Elems(List(p, k));
        assert j in Elems(List(q, k));
      }
      if j in {|p.emitted|} + Elems(p.here) { assert j in Elems(List(q, m)); }
      if k :| 0 <= k < |q.lists| && j in Elems(List(q, k)) { assert k < m ==> j in Elems(List(p, k)); }
    }
  }

  method DoJoin(fs: FuncState, heads: seq<int>, a: nat, b: nat, ghost p: Pending) returns (heads': seq<int>)
    requires Good(fs, heads, p) && Can(p, Join(a, b))
    modifies fs
    ensures Good(fs, heads', Next(p, Join(a, b)))
  {
    ghost var q := Next(p, Join(a, b));
    assert List(p, a) == p.lists[a] && List(p, b) == p.lists[b];
    var code, head := Concat(fs.code, heads[a], heads[b], p.lists[a], p.lists[b]);
    JoinApart(p, a, b);
    ElemsAppend(p.lists[a], p.lists[b]);
    assert Rewired(fs.code, code, Elems(p.lists[a])) by { ListJumps(fs.code, heads[a], p.lists[a]); }
    Spliced(p, fs.code, code, fs.jpc, heads, q, a, head);
    heads' := heads[a := head][b := NO_JUMP];
    assert List(q, -1) == List(p, -1);
    forall x | 0 <= x < |heads'| ensures IsList(code, heads'[x], q.lists[x]) {
      if x != a && x != b { assert List(q, x) == List(p, x); }
    }
    JoinHolds(p, fs.hold, a, b);
    fs.code := code;
  }

  lemma JoinHolds(p: Pending, hold: set<nat>, a: nat, b: nat)
    requires Holds(p, hold) && Can(p, Join(a, b))
    ensures Holds(Next(p, Join(a, b)), hold)
  {
    var q := Next(p, Join(a, b));
    ElemsAppend(p.lists[a], p.lists[b]);
    assert Elems(List(q, a)) == Elems(List(p, a)) + Elems(List(p, b)) && List(q, b) == [];
    assert forall x :: 0 <= x < |p.lists| && x != a && x != b ==> List(q, x) == List(p, x);
    forall j ensures j in hold <==> exists k :: 0 <= k < |q.lists| && j in Elems(List(q, k)) {
      if j in hold {
        var k :| 0 <= k < |p.lists| && j in Elems(List(p, k));
        assert j in Elems(List(q, if k == b then a else k));
      }
      if k :| 0 <= k < |q.lists| && j in Elems(List(q, k)) { assert j in Elems(List(p, k)) || (k == a && j in Elems(List(p, b))); }
    }
  }

  method DoHere(fs: FuncState, heads: seq<int>, a: nat, ghost p: Pending) returns (heads': seq<int>)
    requires Good(fs, heads, p) && Can(p, ToHere(a))
    modifies fs
    ensures Good(fs, heads', Next(p, ToHere(a)))
  {
    HoldParts(p, fs.hold, a);
    fs.PatchToHere(heads[a], p.lists[a]);
    heads' := heads[a := NO_JUMP];
    HereTracks(p, old(fs.code), fs.code, old(fs.jpc), fs.jpc, heads, a);
    HoldLess(p, old(fs.hold), Next(p, ToHere(a)), a);
  }

  lemma HereTracks(p: Pending, code: seq<Instr>, code': seq<Instr>, jpc: int, jpc': int, heads: seq<int>, a: nat)
    requires Tracks(p, code, jpc, heads) && a < |p.lists| && Rewired(code, code', Elems(p.here)) && IsList(code', jpc', p.here + p.lists[a])
    ensures Tracks(Next(p, ToHere(a)), code', jpc', heads[a := NO_JUMP])
  {
    var q := Next(p, ToHere(a));
    HereApart(p, a);
    assert forall x :: 0 <= x < |p.lists| && x != a ==> List(q, x) == List(p, x);
    Spliced(p, code, code', jpc, heads, q, -1, jpc');
    forall x | 0 <= x < |heads| && x != a ensures IsList(code', heads[x], q.lists[x]) { assert List(q, x) == List(p, x) && IsList(code, heads[x], List(p, x)); }
  }

  lemma TargetTracks(p: Pending, code: seq<Instr>, code': seq<Instr>, jpc: int, jpc': int, heads: seq<int>, a: nat, t: nat)
    requires Tracks(p, code, jpc, heads) && a < |p.lists| && t <= |code|
    requires t == |code| ==> Rewired(code, code', Elems(p.here)) && IsList(code', jpc', p.here + p.lists[a])
    requires t < |code| ==> Patched(code, code', Elems(p.lists[a]), t, NO_REG, t) && jpc' == jpc
    ensures Tracks(Next(p, ToTarget(a, t)), code', jpc', heads[a := NO_JUMP])
  {
    if t == |code| {
      HereTracks(p, code, code', jpc, jpc', heads, a);
      ToEndIsHere(p, a);
    } else {
      SettledTracks(p, code, code', jpc, heads, a, t);
      ToTargetSettles(p, a, t);
    }
  }

  lemma ToEndIsHere(p: Pending, a: nat)
    requires a < |p.lists|
    ensures Next(p, ToTarget(a, |p.emitted|)) == Next(p, ToHere(a))
  {
  }

  lemma ToTargetSettles(p: Pending, a: nat, t: nat)
    requires a < |p.lists| && t < |p.emitted|
    ensures Next(p, ToTarget(a, t)) == Settled(p, a, t) && List(p, a) == p.lists[a]
  {
  }

  method DoTarget(fs: FuncState, heads: seq<int>, a: nat, t: nat, ghost p: Pending) returns (heads': seq<int>)
    requires Good(fs, heads, p) && Can(p, ToTarget(a, t))
    modifies fs
    ensures Good(fs, heads', Next(p, ToTarget(a, t)))
  {
    HoldParts(p, fs.hold, a);
    fs.PatchList(heads[a], t, p.lists[a]);
    heads' := heads[a := NO_JUMP];
    TargetTracks(p, old(fs.code), fs.code, old(fs.jpc), fs.jpc, heads, a, t);
    HoldLess(p, old(fs.hold), Next(p, ToTarget(a, t)), a);
  }

  const Nothing: Pending := Pending([], [], [], map[])

  /** Any sequence of these operations keeps every list free of cycles and all lists apart, and the code is
      what they prescribe: exactly the jumps of patched lists have targets, the last they were given, and no
      instruction changes other than those jumps and the tests in front of them. */
  method RunOps(fs: FuncState, ops: seq<Op>) returns (heads: seq<int>)
    requires fs.code == [] && fs.jpc == NO_JUMP && fs.jl == [] && fs.hold == {} && CanAll(Nothing, ops)
    modifies fs
    ensures Tracks(Final(Nothing, ops), fs.code, fs.jpc, heads)
  {
    heads := [];
    var i := 0;
    ghost var p := Nothing;
    while i < |ops|
      invariant 0 <= i <= |ops| && Good(fs, heads, p) && CanAll(p, ops[i..]) && Final(p, ops[i..]) == Final(Nothing, ops)
    {
      assert ops[i..][0] == ops[i] && ops[i..][1..] == ops[i + 1..];
      match ops[i] {
        case Emit(x) => DoEmit(fs, heads, x, p);
        case NewJump => heads := DoJump(fs, heads, p);
        case Join(a, b) => heads := DoJoin(fs, heads, a, b, p);
        case ToHere(a) => heads := DoHere(fs, heads, a, p);
        case ToTarget(a, t) => heads := DoTarget(fs, heads, a, t, p);
      }
      p := Next(p, ops[i]);
      i := i + 1;
    }
  }
}
