/** Upvalues (src/lfunc.c; OP_GETUPVAL, OP_SETUPVAL, OP_CLOSE and OP_CLOSURE of src/lvm.c; correctstack of
    src/ldo.c). They refine reference cells that closures share with the variables on the stack. */
module Upvalues {

  /** Values are told apart by numbers. */
  type Value = int

  /** Where an upvalue's value is: at an address in the stack, or in the upvalue itself. */
  datatype Pointer = InStack(addr: int) | Own

  /** `next` is the next upvalue of the open list, or -1. */
  datatype UpVal = UpVal(v: Pointer, value: Value, next: int)

  // ---------------------------------------------------------------- the open list

  ghost function After(l: seq<nat>, i: nat): int { if i < |l| then l[i] else -1 }

  ghost predicate Link(uv: seq<UpVal>, l: seq<nat>, i: nat) { i < |l| && l[i] < |uv| && uv[l[i]].next == After(l, i + 1) }

  /** The list that starts at `head` has exactly the upvalues l. */
  ghost predicate Chain(uv: seq<UpVal>, head: int, l: seq<nat>) {
    head == After(l, 0) && (forall i :: 0 <= i < |l| ==> l[i] < |uv|) && forall i :: 0 <= i < |l| ==> Link(uv, l, i)
  }

  /** The address of an open upvalue. */
  function Addr(uv: seq<UpVal>, u: nat): int { if u < |uv| && uv[u].v.InStack? then uv[u].v.addr else 0 }

  /** The upvalues of the list are those that are open. */
  ghost predicate Members(uv: seq<UpVal>, l: seq<nat>) { forall u :: 0 <= u < |uv| ==> (u in l <==> uv[u].v.InStack?) }

  /** The list is strictly descending by stack address, so there is at most one upvalue for each slot. */
  ghost predicate Descending(uv: seq<UpVal>, l: seq<nat>) { forall i, j :: 0 <= i < j < |l| ==> Addr(uv, l[i]) > Addr(uv, l[j]) }

  // ---------------------------------------------------------------- reference cells

  /** The state as a program sees it: every slot and every upvalue stands for a cell. */
  datatype Cells = Cells(slot: seq<nat>, cell: seq<nat>, store: map<nat, Value>)

  /** Each slot is a cell of its own. */
  ghost predicate SlotsApart(c: Cells) { forall i, j :: 0 <= i < j < |c.slot| ==> c.slot[i] != c.slot[j] }

  ghost predicate SlotsHold(c: Cells, stack: seq<Value>) {
    |c.slot| == |stack| && forall i :: 0 <= i < |stack| ==> c.slot[i] in c.store && c.store[c.slot[i]] == stack[i]
  }

  /** An open upvalue is the cell of its slot; a closed one is a cell of its own and has the value. */
  ghost predicate UpValOk(c: Cells, uv: seq<UpVal>, base: int, u: nat)
    requires u < |uv| == |c.cell|
  {
    match uv[u].v
    case InStack(a) => 0 <= a - base < |c.slot| && c.cell[u] == c.slot[a - base]
    case Own => c.cell[u] in c.store && c.store[c.cell[u]] == uv[u].value && c.cell[u] !in c.slot
  }

  ghost predicate UpValsOk(c: Cells, uv: seq<UpVal>, base: int) {
    && |uv| == |c.cell| && (forall u :: 0 <= u < |uv| ==> UpValOk(c, uv, base, u))
    && (forall u, w :: 0 <= u < w < |uv| ==> c.cell[u] != c.cell[w])
  }

  ghost predicate Refines(c: Cells, stack: seq<Value>, uv: seq<UpVal>, base: int) {
    SlotsApart(c) && SlotsHold(c, stack) && UpValsOk(c, uv, base)
  }

  /** A write to the cell of a slot. */
  lemma SlotWritten(c: Cells, stack: seq<Value>, uv: seq<UpVal>, base: int, i: nat, v: Value)
    requires Refines(c, stack, uv, base) && i < |stack|
    ensures Refines(c.(store := c.store[c.slot[i] := v]), stack[i := v], uv, base)
  {
    var c' := c.(store := c.store[c.slot[i] := v]);
    forall u | 0 <= u < |uv| ensures UpValOk(c', uv, base, u) { assert UpValOk(c, uv, base, u); }
  }

  /** A write to the cell of a closed upvalue. */
  lemma ClosedWritten(c: Cells, stack: seq<Value>, uv: seq<UpVal>, base: int, w: nat, v: Value)
    requires Refines(c, stack, uv, base) && w < |uv| && uv[w].v.Own?
    ensures Refines(c.(store := c.store[c.cell[w] := v]), stack, uv[w := uv[w].(value := v)], base)
  {
    var c', uv' := c.(store := c.store[c.cell[w] := v]), uv[w := uv[w].(value := v)];
    assert UpValOk(c, uv, base, w);
    forall u | 0 <= u < |uv| ensures UpValOk(c', uv', base, u) { assert UpValOk(c, uv, base, u); }
  }

  // ---------------------------------------------------------------- a new upvalue in the list

  /** luaF_findupval: the new upvalue is chained in the proper position, between `prev` and `at`. */
  ghost function Inserted(l: seq<nat>, k: nat, u: nat): seq<nat>
    requires k <= |l|
  {
    l[..k] + [u] + l[k..]
  }

  function LinkIn(uv: seq<UpVal>, prev: int, u: int): seq<UpVal> { if 0 <= prev < |uv| then uv[prev := uv[prev].(next := u)] else uv }

  ghost function Prev(l: seq<nat>, k: nat): int
    requires k <= |l|
  {
    if k == 0 then -1 else l[k - 1]
  }

  lemma InsertChain(uv: seq<UpVal>, head: int, l: seq<nat>, k: nat, x: UpVal)
    requires Chain(uv, head, l) && k <= |l| && x.next == After(l, k) && Descending(uv, l)
    ensures Chain(LinkIn(uv + [x], Prev(l, k), |uv|), if k == 0 then |uv| else head, Inserted(l, k, |uv|))
  {
    var u := |uv|;
    var uv', l' := LinkIn(uv + [x], Prev(l, k), u), Inserted(l, k, u);
    if k > 0 { assert l[k - 1] < |uv|; }
    forall i | 0 <= i < |l'| ensures Link(uv', l', i) {
      if i < k { assert Link(uv, l, i); } else if i > k { assert Link(uv, l, i - 1); }
    }
  }

  lemma InsertMembers(uv: seq<UpVal>, l: seq<nat>, k: nat, x: UpVal)
    requires Members(uv, l) && k <= |l| && x.v.InStack? && (forall i :: 0 <= i < |l| ==> l[i] < |uv|)
    ensures Members(LinkIn(uv + [x], Prev(l, k), |uv|), Inserted(l, k, |uv|))
  {
    assert l == l[..k] + l[k..];
  }

  lemma InsertDescending(uv: seq<UpVal>, l: seq<nat>, k: nat, x: UpVal)
    requires Descending(uv, l) && k <= |l| && x.v.InStack? && (forall i :: 0 <= i < |l| ==> l[i] < |uv|)
    requires forall i :: 0 <= i < |l| ==> if i < k then Addr(uv, l[i]) > x.v.addr else Addr(uv, l[i]) < x.v.addr
    ensures Descending(LinkIn(uv + [x], Prev(l, k), |uv|), Inserted(l, k, |uv|))
  {
    var u := |uv|;
    var uv', l' := LinkIn(uv + [x], Prev(l, k), u), Inserted(l, k, u);
    forall w: nat | w < u ensures Addr(uv', w) == Addr(uv, w) { }
    forall i, j | 0 <= i < j < |l'| ensures Addr(uv', l'[i]) > Addr(uv', l'[j]) { }
  }

  lemma InsertList(uv: seq<UpVal>, head: int, l: seq<nat>, k: nat, x: UpVal)
    requires Chain(uv, head, l) && Members(uv, l) && Descending(uv, l) && k <= |l| && x.next == After(l, k) && x.v.InStack?
    requires forall i :: 0 <= i < |l| ==> if i < k then Addr(uv, l[i]) > x.v.addr else Addr(uv, l[i]) < x.v.addr
    ensures var uv', l' := LinkIn(uv + [x], Prev(l, k), |uv|), Inserted(l, k, |uv|);
      Chain(uv', if Prev(l, k) == -1 then |uv| else head, l') && Members(uv', l') && Descending(uv', l')
  {
    InsertChain(uv, head, l, k, x);
    InsertMembers(uv, l, k, x);
    InsertDescending(uv, l, k, x);
  }

  /** A new upvalue for slot i, which had none, is the cell of that slot. */
  lemma InsertCells(c: Cells, stack: seq<Value>, uv: seq<UpVal>, base: int, l: seq<nat>, k: nat, x: UpVal)
    requires Refines(c, stack, uv, base) && k <= |l| && x.v.InStack? && 0 <= x.v.addr - base < |stack|
    requires forall u :: 0 <= u < |uv| && uv[u].v.InStack? ==> uv[u].v.addr != x.v.addr
    ensures Refines(c.(cell := c.cell + [c.slot[x.v.addr - base]]), stack, LinkIn(uv + [x], Prev(l, k), |uv|), base)
  {
    var c', uv' := c.(cell := c.cell + [c.slot[x.v.addr - base]]), LinkIn(uv + [x], Prev(l, k), |uv|);
    forall u | 0 <= u < |uv'| ensures UpValOk(c', uv', base, u) { if u < |uv| { assert UpValOk(c, uv, base, u); } }
    forall u | 0 <= u < |uv| ensures c.cell[u] != c.slot[x.v.addr - base] { assert UpValOk(c, uv, base, u); }
  }

  lemma PushCells(c: Cells, stack: seq<Value>, uv: seq<UpVal>, base: int, id: nat, v: Value)
    requires Refines(c, stack, uv, base) && id !in c.store
    ensures Refines(Cells(c.slot + [id], c.cell, c.store[id := v]), stack + [v], uv, base)
  {
    var c' := Cells(c.slot + [id], c.cell, c.store[id := v]);
    forall u | 0 <= u < |uv| ensures UpValOk(c', uv, base, u) { assert UpValOk(c, uv, base, u); }
  }

  /** Slots that no open upvalue refers to can be given up. */
  lemma PopCells(c: Cells, stack: seq<Value>, uv: seq<UpVal>, base: int, n: nat)
    requires Refines(c, stack, uv, base) && n <= |stack| && forall u :: 0 <= u < |uv| && uv[u].v.InStack? ==> Addr(uv, u) < base + n
    ensures Refines(c.(slot := c.slot[..n]), stack[..n], uv, base)
  {
    var c' := c.(slot := c.slot[..n]);
    forall u | 0 <= u < |uv| ensures UpValOk(c', uv, base, u) { assert UpValOk(c, uv, base, u); }
  }

  // ---------------------------------------------------------------- closing

  /** The first upvalue of the list is closed: it takes the value with it. */
  function Closed(uv: seq<UpVal>, u: nat, v: Value): seq<UpVal>
    requires u < |uv|
  {
    uv[u := UpVal(Own, v, -1)]
  }

  /** The variable in slot i ends: the slot becomes a new cell with the same value. */
  ghost function Renewed(c: Cells, i: nat, id: nat, v: Value): Cells
    requires i < |c.slot|
  {
    c.(slot := c.slot[i := id], store := c.store[id := v])
  }

  lemma CloseCells(c: Cells, stack: seq<Value>, uv: seq<UpVal>, base: int, u: nat, id: nat)
    requires Refines(c, stack, uv, base) && u < |uv| && uv[u].v.InStack? && id !in c.store
    requires forall w :: 0 <= w < |uv| && uv[w].v.InStack? && uv[w].v.addr == uv[u].v.addr ==> w == u
    ensures var i := uv[u].v.addr - base; 0 <= i < |stack| && Refines(Renewed(c, i, id, stack[i]), stack, Closed(uv, u, stack[i]), base)
  {
    assert UpValOk(c, uv, base, u);
    var i := uv[u].v.addr - base;
    var c', uv' := Renewed(c, i, id, stack[i]), Closed(uv, u, stack[i]);
    forall w | 0 <= w < |uv| ensures UpValOk(c', uv', base, w) { assert UpValOk(c, uv, base, w); }
  }

  lemma CloseList(uv: seq<UpVal>, head: int, l: seq<nat>, v: Value)
    requires Chain(uv, head, l) && Members(uv, l) && Descending(uv, l) && l != []
    ensures l[0] < |uv| && uv[l[0]].v.InStack?
    ensures var uv' := Closed(uv, l[0], v); Chain(uv', uv[l[0]].next, l[1..]) && Members(uv', l[1..]) && Descending(uv', l[1..])
  {
    assert Link(uv, l, 0);
    var uv' := Closed(uv, l[0], v);
    forall i | 0 <= i < |l[1..]| ensures Link(uv', l[1..], i) { assert Link(uv, l, i + 1) && Addr(uv, l[0]) > Addr(uv, l[i + 1]); }
    forall i | 1 <= i < |l| ensures l[i] != l[0] { assert Addr(uv, l[0]) > Addr(uv, l[i]); }
  }

  /** No two open upvalues have the same address. */
  lemma OnlyOne(uv: seq<UpVal>, l: seq<nat>)
    requires Members(uv, l) && Descending(uv, l)
    ensures forall u: nat, w: nat :: u < |uv| && w < |uv| && uv[u].v.InStack? && uv[w].v.InStack? && uv[u].v.addr == uv[w].v.addr ==> u == w
  {
    forall u: nat, w: nat | u < |uv| && w < |uv| && uv[u].v.InStack? && uv[w].v.InStack? && uv[u].v.addr == uv[w].v.addr ensures u == w {
      var i :| 0 <= i < |l| && l[i] == u;
      var j :| 0 <= j < |l| && l[j] == w;
      assert i < j ==> Addr(uv, u) > Addr(uv, w);
      assert j < i ==> Addr(uv, w) > Addr(uv, u);
    }
  }

  /** If the walk found no upvalue at the level, there is none. */
  lemma NoneThere(uv: seq<UpVal>, l: seq<nat>, k: nat, level: int)
    requires Members(uv, l) && k <= |l| && forall i :: 0 <= i < |l| ==> if i < k then Addr(uv, l[i]) > level else Addr(uv, l[i]) < level
    ensures forall u :: 0 <= u < |uv| && uv[u].v.InStack? ==> uv[u].v.addr != level
  {
    forall u | 0 <= u < |uv| && uv[u].v.InStack? ensures uv[u].v.addr != level {
      var i :| 0 <= i < |l| && l[i] == u;
    }
  }

  lemma HeadHighest(uv: seq<UpVal>, l: seq<nat>, head: int, u: nat)
    requires Chain(uv, head, l) && Members(uv, l) && Descending(uv, l) && u < |uv| && uv[u].v.InStack?
    ensures head != -1 && Addr(uv, head) >= Addr(uv, u)
  {
    var i :| 0 <= i < |l| && l[i] == u;
    assert i > 0 ==> Addr(uv, l[0]) > Addr(uv, l[i]);
  }

  // ---------------------------------------------------------------- moving the stack

  /** The first k upvalues of the list have followed the stack. */
  ghost predicate Moved(uv: seq<UpVal>, uv': seq<UpVal>, l: seq<nat>, k: nat, d: int) {
    && |uv'| == |uv| && k <= |l| && (forall u :: 0 <= u < |uv| ==> (u !in l[..k] ==> uv'[u] == uv[u]))
    && (forall u :: 0 <= u < |uv| && u in l[..k] ==> uv[u].v.InStack? && uv'[u] == uv[u].(v := InStack(uv[u].v.addr + d)))
  }

  lemma MovedNext(uv: seq<UpVal>, uv1: seq<UpVal>, uv2: seq<UpVal>, l: seq<nat>, k: nat, d: int)
    requires Moved(uv, uv1, l, k, d) && k < |l| && l[k] < |uv| && uv[l[k]].v.InStack? && Descending(uv, l)
    requires uv2 == uv1[l[k] := uv[l[k]].(v := InStack(uv[l[k]].v.addr + d))]
    ensures Moved(uv, uv2, l, k + 1, d)
  {
    assert l[..k + 1] == l[..k] + [l[k]];
  }

  /** The loop of correctstack over the open list. */
  method MoveOpen(uv: seq<UpVal>, head: int, d: int, ghost l: seq<nat>) returns (uv': seq<UpVal>)
    requires Chain(uv, head, l) && Members(uv, l) && Descending(uv, l)
    ensures Moved(uv, uv', l, |l|, d)
  {
    uv' := uv;
    var p := head;
    ghost var k := 0;
    while p != -1
      invariant 0 <= k <= |l| && p == After(l, k) && Moved(uv, uv', l, k, d)
      decreases |l| - k
    {
      assert Link(uv, l, k) && l[k] in l;
      NotYet(uv, l, k);
      ghost var before := uv';
      uv' := uv'[p := uv'[p].(v := InStack(uv'[p].v.addr + d))];
      MovedNext(uv, before, uv', l, k, d);
      p, k := uv'[p].next, k + 1;
    }
  }

  lemma NotYet(uv: seq<UpVal>, l: seq<nat>, k: nat)
    requires Descending(uv, l) && k < |l|
    ensures l[k] !in l[..k]
  {
    forall i | 0 <= i < k ensures l[i] != l[k] { assert Addr(uv, l[i]) > Addr(uv, l[k]); }
  }

  lemma AllMoved(uv: seq<UpVal>, uv': seq<UpVal>, head: int, l: seq<nat>, d: int)
    requires Moved(uv, uv', l, |l|, d) && Chain(uv, head, l) && Members(uv, l) && Descending(uv, l)
    ensures Chain(uv', head, l) && Members(uv', l) && Descending(uv', l)
  {
    assert l[..|l|] == l;
    forall i | 0 <= i < |l| ensures Link(uv', l, i) && Addr(uv', l[i]) == Addr(uv, l[i]) + d { assert Link(uv, l, i) && l[i] in l; }
  }

  lemma MovedCells(c: Cells, stack: seq<Value>, uv: seq<UpVal>, uv': seq<UpVal>, base: int, newbase: int, l: seq<nat>)
    requires Refines(c, stack, uv, base) && Moved(uv, uv', l, |l|, newbase - base) && Members(uv, l)
    ensures Refines(c, stack, uv', newbase)
  {
    assert l[..|l|] == l;
    forall u | 0 <= u < |uv| ensures UpValOk(c, uv', newbase, u) { assert UpValOk(c, uv, base, u); }
  }

  // ---------------------------------------------------------------- the thread

  /** How a new closure gets an upvalue: from the enclosing function's stack frame, or from its upvalues
      (the OP_MOVE and OP_GETUPVAL that follow OP_CLOSURE). */
  datatype Capture = FromSlot(addr: int) | FromUpvalue(i: nat)

  /** The cell is that of the slot or of the enclosing closure's upvalue. */
  ghost predicate Captured(c: Cells, base: int, cl: seq<nat>, x: Capture, id: nat) {
    match x
    case FromSlot(a) => 0 <= a - base < |c.slot| && id == c.slot[a - base]
    case FromUpvalue(i) => i < |cl| && cl[i] < |c.cell| && id == c.cell[cl[i]]
  }

  class Thread {
    var base: int                // address of the stack
    var stack: seq<Value>
    var uv: seq<UpVal>           // all upvalues
    var openupval: int           // head of the open list
    ghost var ol: seq<nat>
    ghost var cells: Cells
    ghost var nextid: nat

    ghost predicate Valid()
      reads this
    {
      && Chain(uv, openupval, ol) && Members(uv, ol) && Descending(uv, ol) && Refines(cells, stack, uv, base)
      && forall id :: id in cells.store ==> id < nextid
    }

    /** An empty stack and no upvalues. */
    constructor (base: int)
      ensures Valid() && this.base == base && stack == [] && uv == [] && cells == Cells([], [], map[])
    {
      this.base, stack, uv, openupval, ol := base, [], [], -1, [];
      cells, nextid := Cells([], [], map[]), 0;
    }

    /** A new local variable: a slot with a cell of its own. */
    method Push(v: Value)
      requires Valid()
      modifies this
      ensures Valid() && base == old(base) && stack == old(stack) + [v] && uv == old(uv)
      ensures exists id :: id !in old(cells.store) && cells == Cells(old(cells.slot) + [id], old(cells.cell), old(cells.store)[id := v])
    {
      PushCells(cells, stack, uv, base, nextid, v);
      stack := stack + [v];
      cells, nextid := Cells(cells.slot + [nextid], cells.cell, cells.store[nextid := v]), nextid + 1;
    }

    // -------------------------------------------------------------- reads and writes

    /** OP_GETUPVAL: what was last written to the variable. */
    method GetUpval(u: nat) returns (v: Value)
      requires Valid() && u < |uv|
      ensures cells.cell[u] in cells.store && v == cells.store[cells.cell[u]]
    {
      assert UpValOk(cells, uv, base, u);
      match uv[u].v
      case InStack(a) => v := stack[a - base];
      case Own => v := uv[u].value;
    }

    /** OP_SETUPVAL */
    method SetUpval(u: nat, v: Value)
      requires Valid() && u < |uv|
      modifies this`stack, this`uv, this`cells
      ensures Valid() && cells == old(cells).(store := old(cells.store)[old(cells.cell[u]) := v])
      ensures |stack| == old(|stack|) && |uv| == old(|uv|)
    {
      assert UpValOk(cells, uv, base, u);
      match uv[u].v {
        case InStack(a) =>
          SlotWritten(cells, stack, uv, base, a - base, v);
          stack := stack[a - base := v];
        case Own =>
          ClosedWritten(cells, stack, uv, base, u, v);
          ghost var uv0 := uv;
          uv := uv[u := uv[u].(value := v)];
          forall i | 0 <= i < |ol| ensures Link(uv, ol, i) { assert Link(uv0, ol, i); }
      }
      cells := cells.(store := cells.store[cells.cell[u] := v]);
    }

    /** An assignment to a local variable. */
    method SetSlot(i: nat, v: Value)
      requires Valid() && i < |stack|
      modifies this`stack, this`cells
      ensures Valid() && cells == old(cells).(store := old(cells.store)[old(cells.slot[i]) := v]) && |stack| == old(|stack|)
    {
      SlotWritten(cells, stack, uv, base, i, v);
      stack := stack[i := v];
      cells := cells.(store := cells.store[cells.slot[i] := v]);
    }

    method GetSlot(i: nat) returns (v: Value)
      requires Valid() && i < |stack|
      ensures cells.slot[i] in cells.store && v == cells.store[cells.slot[i]]
    {
      v := stack[i];
    }

    // -------------------------------------------------------------- luaF_findupval

    /** The walk along the open list: the upvalue of the slot, or the place where it belongs. */
    method Locate(level: int) returns (p: int, prev: int, ghost k: nat)
      requires Chain(uv, openupval, ol) && Members(uv, ol) && Descending(uv, ol)
      ensures k <= |ol| && p == After(ol, k) && prev == Prev(ol, k)
      ensures forall i :: 0 <= i < |ol| ==> if i < k then Addr(uv, ol[i]) > level else Addr(uv, ol[i]) <= level
    {
      p, prev, k := openupval, -1, 0;
      while p != -1 && Addr(uv, p) > level
        invariant 0 <= k <= |ol| && p == After(ol, k) && prev == Prev(ol, k)
        invariant forall i :: 0 <= i < k ==> Addr(uv, ol[i]) > level
        decreases |ol| - k
      {
        assert Link(uv, ol, k);
        prev, p, k := p, uv[p].next, k + 1;
      }
    }

    /** luaF_findupval: the one upvalue of the slot, found or made. */
    method FindUpval(level: int) returns (u: nat)
      requires Valid() && 0 <= level - base < |stack|
      modifies this
      ensures Valid() && base == old(base) && stack == old(stack) && u < |uv| && cells.cell[u] == cells.slot[level - base]
      ensures old(cells.cell) <= cells.cell && cells == old(cells).(cell := cells.cell)
    {
      var p, prev, k := Locate(level);
      if p != -1 && Addr(uv, p) == level {
        assert ol[k] in ol && UpValOk(cells, uv, base, p);
        return p;
      }
      u := NewUpval(level, p, prev, k);
    }

    /** luaF_findupval, the rest: a new upvalue is chained in the proper position. */
    method NewUpval(level: int, p: int, prev: int, ghost k: nat) returns (u: nat)
      requires Valid() && 0 <= level - base < |stack| && k <= |ol| && p == After(ol, k) && prev == Prev(ol, k)
      requires forall i :: 0 <= i < |ol| ==> if i < k then Addr(uv, ol[i]) > level else Addr(uv, ol[i]) < level
      modifies this
      ensures Valid() && base == old(base) && stack == old(stack) && u == old(|uv|) < |uv|
      ensures cells == old(cells).(cell := old(cells.cell) + [old(cells.slot[level - base])])
    {
      u := |uv|;
      var x := UpVal(InStack(level), 0, p);
      NoneThere(uv, ol, k, level);
      InsertList(uv, openupval, ol, k, x);
      InsertCells(cells, stack, uv, base, ol, k, x);
      uv := LinkIn(uv + [x], prev, u);
      if prev == -1 { openupval := u; }
      ol := Inserted(ol, k, u);
      cells := cells.(cell := cells.cell + [cells.slot[level - base]]);
    }

    // -------------------------------------------------------------- luaF_close

    /** One round of luaF_close. */
    method CloseHead()
      requires Valid() && openupval != -1
      modifies this
      ensures Valid() && base == old(base) && stack == old(stack) && |uv| == old(|uv|)
      ensures ol == old(ol)[1..] && uv == Closed(old(uv), old(ol)[0], uv[old(ol)[0]].value)
      ensures cells.cell == old(cells.cell) && (forall id :: id in old(cells.store) ==> id in cells.store && cells.store[id] == old(cells.store)[id])
      ensures |cells.slot| == old(|cells.slot|) && forall i :: 0 <= i < |cells.slot| && i != Addr(old(uv), old(ol)[0]) - base ==> cells.slot[i] == old(cells.slot)[i]
    {
      var u := openupval;
      assert Link(uv, ol, 0);
      ghost var i := uv[u].v.addr - base;
      OnlyOne(uv, ol);
      CloseCells(cells, stack, uv, base, u, nextid);
      var v := stack[uv[u].v.addr - base];
      CloseList(uv, openupval, ol, v);
      openupval := uv[u].next;
      uv := Closed(uv, u, v);
      ol := ol[1..];
      cells, nextid := Renewed(cells, i, nextid, v), nextid + 1;
    }

    /** luaF_close: exactly the upvalues at or above the level are closed. They keep their cells, so what
        closures see does not change, and later uses of the slots do not affect them. */
    method Close(level: int)
      requires Valid()
      modifies this
      ensures Valid() && base == old(base) && stack == old(stack) && |uv| == old(|uv|)
      ensures forall u :: 0 <= u < |uv| ==> (uv[u].v.InStack? <==> old(uv)[u].v.InStack? && Addr(old(uv), u) < level) && (uv[u].v.InStack? ==> uv[u].v == old(uv)[u].v)
      ensures cells.cell == old(cells.cell) && (forall id :: id in old(cells.store) ==> id in cells.store && cells.store[id] == old(cells.store)[id])
      ensures |cells.slot| == old(|cells.slot|) && forall i :: 0 <= i < |cells.slot| && base + i < level ==> cells.slot[i] == old(cells.slot)[i]
    {
      ghost var uv0 := uv;
      while openupval != -1 && Addr(uv, openupval) >= level
        invariant Valid() && base == old(base) && stack == old(stack) && |uv| == |uv0|
        invariant forall u :: 0 <= u < |uv| ==> uv[u] == uv0[u] || (uv[u].v.Own? && uv0[u].v.InStack? && Addr(uv0, u) >= level)
        invariant cells.cell == old(cells.cell) && (forall id :: id in old(cells.store) ==> id in cells.store && cells.store[id] == old(cells.store)[id])
        invariant |cells.slot| == old(|cells.slot|) && forall i :: 0 <= i < |cells.slot| && base + i < level ==> cells.slot[i] == old(cells.slot)[i]
        decreases |ol|
      {
        assert Link(uv, ol, 0);
        CloseHead();
      }
      forall u | 0 <= u < |uv| && uv[u].v.InStack? ensures Addr(uv, u) < level { HeadHighest(uv, ol, openupval, u); }
    }

    /** The end of a block: OP_CLOSE for its slots, which the stack then gives up. */
    method Leave(n: nat)
      requires Valid() && n <= |stack|
      modifies this
      ensures Valid() && base == old(base) && stack == old(stack)[..n] && cells.cell == old(cells.cell)
      ensures |cells.slot| == n && forall i :: 0 <= i < n ==> cells.slot[i] == old(cells.slot)[i]
      ensures forall id :: id in old(cells.store) ==> id in cells.store && cells.store[id] == old(cells.store)[id]
    {
      Close(base + n);
      PopCells(cells, stack, uv, base, n);
      stack := stack[..n];
      cells := cells.(slot := cells.slot[..n]);
    }

    // -------------------------------------------------------------- the stack moves

    /** correctstack: the stack is now at another address; all open upvalues follow it. */
    method CorrectStack(newbase: int)
      requires Valid()
      modifies this`base, this`uv
      ensures Valid() && base == newbase && |uv| == old(|uv|)
    {
      ghost var uv0 := uv;
      uv := MoveOpen(uv, openupval, newbase - base, ol);
      AllMoved(uv0, uv, openupval, ol, newbase - base);
      MovedCells(cells, stack, uv0, uv, base, newbase, ol);
      base := newbase;
    }

    // -------------------------------------------------------------- OP_CLOSURE

    /** The upvalues of a new closure: shared with the enclosing closure, or those of slots of its frame. */
    method MakeClosure(cl: seq<nat>, captures: seq<Capture>) returns (ncl: seq<nat>)
      requires Valid() && forall i :: 0 <= i < |cl| ==> cl[i] < |uv|
      requires forall j :: 0 <= j < |captures| ==> if captures[j].FromSlot? then 0 <= captures[j].addr - base < |stack| else captures[j].i < |cl|
      modifies this
      ensures Valid() && base == old(base) && stack == old(stack) && |ncl| == |captures| && cells == old(cells).(cell := cells.cell) && old(cells.cell) <= cells.cell
      ensures forall j :: 0 <= j < |ncl| ==> ncl[j] < |uv| && Captured(cells, base, cl, captures[j], cells.cell[ncl[j]])
    {
      ncl := [];
      var j := 0;
      while j < |captures|
        invariant 0 <= j == |ncl| <= |captures| && Valid() && base == old(base) && stack == old(stack)
        invariant cells == old(cells).(cell := cells.cell) && old(cells.cell) <= cells.cell
        invariant forall i :: 0 <= i < |ncl| ==> ncl[i] < |uv| && Captured(cells, base, cl, captures[i], cells.cell[ncl[i]])
      {
        match captures[j] {
          case FromUpvalue(i) => ncl := ncl + [cl[i]];
          case FromSlot(a) =>
            var u := FindUpval(a);
            ncl := ncl + [u];
        }
        j := j + 1;
      }
    }
  }
}
