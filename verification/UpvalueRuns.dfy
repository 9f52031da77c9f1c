/** Whole runs over local variables and closures: with upvalues, every read gives what a machine with one
    shared cell for each variable gives. */
module UpvalueRuns {
  import opened Upvalues

  // ---------------------------------------------------------------- variables as shared cells

  /** Variables are numbered in the order of their declaration, and `store` has their values. A closure is
      the list of variables that it captured. */
  datatype Vars = Vars(slot: seq<nat>, closures: seq<seq<nat>>, store: seq<Value>)

  /** What a new closure captures: a local variable, or a variable of the closure it is made in. */
  datatype Outer = Local(i: nat) | Shared(j: nat)

  /** Leave ends the block: its variables, those from slot n on, are out of scope. Reallocate moves the stack. */
  datatype Op =
    | Declare(v: Value)
    | Assign(i: nat, v: Value)
    | Read(i: nat)
    | Capturing(parent: nat, outers: seq<Outer>)
    | SetShared(k: nat, j: nat, v: Value)
    | GetShared(k: nat, j: nat)
    | Leave(n: nat)
    | Reallocate(addr: int)

  predicate HasShared(a: Vars, k: nat, j: nat) { k < |a.closures| && j < |a.closures[k]| }

  predicate CanCapture(a: Vars, parent: nat, x: Outer) {
    match x
    case Local(i) => i < |a.slot|
    case Shared(j) => HasShared(a, parent, j)
  }

  /** The operation is about variables and closures that there are. */
  predicate Can(a: Vars, op: Op) {
    match op
    case Declare(_) => true
    case Assign(i, _) => i < |a.slot|
    case Read(i) => i < |a.slot|
    case Capturing(parent, outers) => parent < |a.closures| && forall j :: 0 <= j < |outers| ==> CanCapture(a, parent, outers[j])
    case SetShared(k, j, _) => HasShared(a, k, j)
    case GetShared(k, j) => HasShared(a, k, j)
    case Leave(n) => n <= |a.slot|
    case Reallocate(_) => true
  }

  function CapturedVar(a: Vars, parent: nat, x: Outer): nat
    requires CanCapture(a, parent, x)
  {
    match x
    case Local(i) => a.slot[i]
    case Shared(j) => a.closures[parent][j]
  }

  function Put(store: seq<Value>, x: nat, v: Value): seq<Value> { if x < |store| then store[x := v] else store }

  function Got(store: seq<Value>, x: nat): Value { if x < |store| then store[x] else 0 }

  function Next(a: Vars, op: Op): Vars
    requires Can(a, op)
  {
    match op
    case Declare(v) => Vars(a.slot + [|a.store|], a.closures, a.store + [v])
    case Assign(i, v) => a.(store := Put(a.store, a.slot[i], v))
    case Capturing(parent, outers) =>
      a.(closures := a.closures + [seq(|outers|, j requires 0 <= j < |outers| => CapturedVar(a, parent, outers[j]))])
    case SetShared(k, j, v) => a.(store := Put(a.store, a.closures[k][j], v))
    case Leave(n) => a.(slot := a.slot[..n])
    case _ => a
  }

  /** What the operation reads: at most one value. */
  function Output(a: Vars, op: Op): seq<Value>
    requires Can(a, op)
  {
    match op
    case Read(i) => [Got(a.store, a.slot[i])]
    case GetShared(k, j) => [Got(a.store, a.closures[k][j])]
    case _ => []
  }

  predicate CanAll(a: Vars, ops: seq<Op>)
    decreases |ops|
  {
    ops == [] || (Can(a, ops[0]) && CanAll(Next(a, ops[0]), ops[1..]))
  }

  function Outputs(a: Vars, ops: seq<Op>): seq<Value>
    requires CanAll(a, ops)
    decreases |ops|
  {
    if ops == [] then [] else Output(a, ops[0]) + Outputs(Next(a, ops[0]), ops[1..])
  }

  /** The main function has no upvalues. */
  const Start: Vars := Vars([], [[]], [])

  // ---------------------------------------------------------------- the two machines side by side

  /** `name[x]` is the cell that stands for variable x. */
  ghost predicate NamesOk(name: seq<nat>, store: seq<Value>, c: Cells) {
    && |name| == |store| && (forall x, y :: 0 <= x < y < |name| ==> name[x] != name[y])
    && forall x :: 0 <= x < |name| ==> name[x] in c.store && c.store[name[x]] == store[x]
  }

  ghost predicate SlotsOk(name: seq<nat>, slot: seq<nat>, cslot: seq<nat>) {
    |slot| == |cslot| && forall i :: 0 <= i < |slot| ==> slot[i] < |name| && cslot[i] == name[slot[i]]
  }

  ghost predicate ClosureOk(name: seq<nat>, vs: seq<nat>, us: seq<nat>, cell: seq<nat>) {
    |vs| == |us| && forall j :: 0 <= j < |vs| ==> us[j] < |cell| && vs[j] < |name| && cell[us[j]] == name[vs[j]]
  }

  ghost predicate ClosuresOk(name: seq<nat>, vss: seq<seq<nat>>, uss: seq<seq<nat>>, cell: seq<nat>) {
    |vss| == |uss| && forall k :: 0 <= k < |vss| ==> ClosureOk(name, vss[k], uss[k], cell)
  }

  ghost predicate Agrees(a: Vars, name: seq<nat>, uss: seq<seq<nat>>, c: Cells) {
    NamesOk(name, a.store, c) && SlotsOk(name, a.slot, c.slot) && ClosuresOk(name, a.closures, uss, c.cell)
  }

  lemma Declared(a: Vars, name: seq<nat>, uss: seq<seq<nat>>, c: Cells, id: nat, v: Value)
    requires Agrees(a, name, uss, c) && id !in c.store
    ensures Agrees(Next(a, Declare(v)), name + [id], uss, Cells(c.slot + [id], c.cell, c.store[id := v]))
  {
    forall k | 0 <= k < |uss| ensures ClosureOk(name + [id], a.closures[k], uss[k], c.cell) { assert ClosureOk(name, a.closures[k], uss[k], c.cell); }
  }

  lemma Stored(a: Vars, name: seq<nat>, uss: seq<seq<nat>>, c: Cells, x: nat, v: Value)
    requires Agrees(a, name, uss, c) && x < |name|
    ensures Agrees(a.(store := Put(a.store, x, v)), name, uss, c.(store := c.store[name[x] := v]))
  {
  }

  /** More upvalues: the old ones keep their cells. */
  lemma MoreCells(name: seq<nat>, vss: seq<seq<nat>>, uss: seq<seq<nat>>, cell: seq<nat>, cell': seq<nat>)
    requires ClosuresOk(name, vss, uss, cell) && cell <= cell'
    ensures ClosuresOk(name, vss, uss, cell')
  {
    forall k | 0 <= k < |uss| ensures ClosureOk(name, vss[k], uss[k], cell') { assert ClosureOk(name, vss[k], uss[k], cell); }
  }

  /** The closure's captures, in terms of stack addresses. */
  function Sources(base: int, outers: seq<Outer>): (s: seq<Capture>)
    ensures |s| == |outers|
  {
    seq(|outers|, j requires 0 <= j < |outers| => match outers[j] case Local(i) => FromSlot(base + i) case Shared(u) => FromUpvalue(u))
  }

  lemma Captures(a: Vars, name: seq<nat>, uss: seq<seq<nat>>, c: Cells, c': Cells, base: int, parent: nat, outers: seq<Outer>, us: seq<nat>)
    requires Agrees(a, name, uss, c) && c' == c.(cell := c'.cell) && c.cell <= c'.cell && Can(a, Capturing(parent, outers)) && |us| == |outers|
    requires forall j :: 0 <= j < |us| ==> us[j] < |c'.cell| && Captured(c', base, uss[parent], Sources(base, outers)[j], c'.cell[us[j]])
    ensures Agrees(Next(a, Capturing(parent, outers)), name, uss + [us], c')
  {
    var vs := seq(|outers|, j requires 0 <= j < |outers| => CapturedVar(a, parent, outers[j]));
    MoreCells(name, a.closures, uss, c.cell, c'.cell);
    assert ClosureOk(name, a.closures[parent], uss[parent], c'.cell);
    forall j | 0 <= j < |us| ensures vs[j] < |name| && c'.cell[us[j]] == name[vs[j]] {
      assert CanCapture(a, parent, outers[j]) && Captured(c', base, uss[parent], Sources(base, outers)[j], c'.cell[us[j]]);
    }
    assert ClosureOk(name, vs, us, c'.cell);
    assert Next(a, Capturing(parent, outers)).closures == a.closures + [vs];
  }

  /** The slots below n are the same variables as before, and no cell was lost. */
  lemma Left(a: Vars, name: seq<nat>, uss: seq<seq<nat>>, c: Cells, c': Cells, n: nat)
    requires Agrees(a, name, uss, c) && n <= |a.slot| && c'.cell == c.cell && |c'.slot| == n
    requires forall i :: 0 <= i < n ==> c'.slot[i] == c.slot[i]
    requires forall id :: id in c.store ==> id in c'.store && c'.store[id] == c.store[id]
    ensures Agrees(Next(a, Leave(n)), name, uss, c')
  {
  }

  /** All upvalues of the closures exist. */
  lemma UpvaluesThere(a: Vars, name: seq<nat>, uss: seq<seq<nat>>, c: Cells, k: nat)
    requires Agrees(a, name, uss, c) && k < |uss|
    ensures |uss[k]| == |a.closures[k]| && forall j :: 0 <= j < |uss[k]| ==> uss[k][j] < |c.cell| && a.closures[k][j] < |name| && c.cell[uss[k][j]] == name[a.closures[k][j]]
  {
    assert ClosureOk(name, a.closures[k], uss[k], c.cell);
  }

  // ---------------------------------------------------------------- runs

  /** One operation on the thread, whose closures are `uss`. */
  method Do(t: Thread, uss: seq<seq<nat>>, op: Op, ghost a: Vars, ghost name: seq<nat>) returns (uss': seq<seq<nat>>, out: seq<Value>, ghost name': seq<nat>)
    requires t.Valid() && Agrees(a, name, uss, t.cells) && Can(a, op)
    modifies t
    ensures t.Valid() && Agrees(Next(a, op), name', uss', t.cells) && out == Output(a, op)
  {
    uss', out, name' := uss, [], name;
    ghost var c := t.cells;
    SizesAgree(t);
    match op {
      case Declare(v) =>
        t.Push(v);
        name' := NewName(a, name, uss, c, t.cells, v);
      case Assign(i, v) =>
        t.SetSlot(i, v);
        Stored(a, name, uss, c, a.slot[i], v);
      case Read(i) =>
        var v := t.GetSlot(i);
        out := [v];
      case SetShared(k, j, v) =>
        UpvaluesThere(a, name, uss, c, k);
        t.SetUpval(uss[k][j], v);
        Stored(a, name, uss, c, a.closures[k][j], v);
      case GetShared(k, j) =>
        UpvaluesThere(a, name, uss, c, k);
        var v := t.GetUpval(uss[k][j]);
        out := [v];
      case Capturing(parent, outers) =>
        UpvaluesThere(a, name, uss, c, parent);
        var us := t.MakeClosure(uss[parent], Sources(t.base, outers));
        Captures(a, name, uss, c, t.cells, t.base, parent, outers, us);
        uss' := uss + [us];
      case Leave(n) =>
        t.Leave(n);
        Left(a, name, uss, c, t.cells, n);
      case Reallocate(addr) =>
        t.CorrectStack(addr);
    }
  }

  lemma SizesAgree(t: Thread)
    requires t.Valid()
    ensures |t.stack| == |t.cells.slot| && |t.uv| == |t.cells.cell|
  {
  }

  ghost method NewName(a: Vars, name: seq<nat>, uss: seq<seq<nat>>, c: Cells, c': Cells, v: Value) returns (name': seq<nat>)
    requires Agrees(a, name, uss, c) && exists id :: id !in c.store && c' == Cells(c.slot + [id], c.cell, c.store[id := v])
    ensures Agrees(Next(a, Declare(v)), name', uss, c')
  {
    var id :| id !in c.store && c' == Cells(c.slot + [id], c.cell, c.store[id := v]);
    Declared(a, name, uss, c, id, v);
    name' := name + [id];
  }

  /** Every read through a slot or through any closure, in any run, before and after the variable's block
      was left and wherever the stack is, gives the last value that was written to the variable. */
  method Replay(ops: seq<Op>, addr: int) returns (out: seq<Value>)
    requires CanAll(Start, ops)
    ensures out == Outputs(Start, ops)
  {
    var t := new Thread(addr);
    var uss := [[]];
    out := [];
    var i := 0;
    ghost var a, name := Start, [];
    while i < |ops|
      invariant 0 <= i <= |ops| && fresh(t) && t.Valid() && Agrees(a, name, uss, t.cells)
      invariant CanAll(a, ops[i..]) && out + Outputs(a, ops[i..]) == Outputs(Start, ops)
    {
      assert ops[i..][0] == ops[i] && ops[i..][1..] == ops[i + 1..];
      var o;
      ghost var before := out;
      uss, o, name := Do(t, uss, ops[i], a, name);
      out := out + o;
      Append(before, o, Outputs(Next(a, ops[i]), ops[i + 1..]));
      a := Next(a, ops[i]);
      i := i + 1;
    }
    assert out + [] == out;
  }

  lemma Append(a: seq<Value>, b: seq<Value>, c: seq<Value>)
    ensures (a + b) + c == a + (b + c)
  {
  }
}
