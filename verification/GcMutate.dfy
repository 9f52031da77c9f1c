/** What the running program does to the heap between collector steps: allocation, stores with
    their write barriers, unbarriered stack stores, upvalue capture and closing, interning. */
module GcMutate {
  import opened GcHeap
  import opened GcMark
  import opened GcCollect

  /** How OP_CLOSURE fills an upvalue of the new closure: from a stack slot of the running function
      (`name` is given to the upvalue if one has to be created), or from the enclosing closure. */
  datatype Capture = FromSlot(slot: nat, name: Ref) | FromParent(up: Ref)

  datatype Action =
    | Alloc(r: Ref, object: Object, chain: nat)
    | Intern(str: Ref)
    | Fix(str: Ref)
    | WriteStack(th: Ref, stack: seq<Val>)
    | SetGlobals(th: Ref, globals: Val)
    | SetEntry(t: Ref, i: nat, key: Val, val: Val)
    | Relay(t: Ref, entries: seq<Entry>, moved: seq<Val>)
    | SetMeta(t: Ref, mt: Val, weakKey: bool, weakValue: bool)
    | SetField(o: Ref, i: nat, v: Val)
    | SetUpval(u: Ref, v: Val)
    | NewClosure(r: Ref, env: Val, proto: Val, caps: seq<Capture>)
    | Close(level: nat)
    | SetBasicMeta(i: nat, v: Val)
    | Resume(th: Ref)
    | Rechain(strt: seq<seq<Ref>>)

  // ---------------------------------------------------------------- allocation

  function IndexOf(l: seq<Ref>, x: Ref): (i: nat)
    ensures i <= |l| && (x in l ==> i < |l| && l[i] == x)
  {
    if l == [] || l[0] == x then 0 else 1 + IndexOf(l[1..], x)
  }

  /** luaS_newudata: userdata are chained right behind the main thread. */
  function LinkAfterMain(s: State, r: Ref): State {
    var i := IndexOf(s.rootgc, s.main);
    if i >= |s.rootgc| then LinkFront(s, r)
    else s.(rootgc := s.rootgc[..i + 1] + [r] + s.rootgc[i + 1..],
            sweepAt := if s.sweepAt <= i + 1 then s.sweepAt else s.sweepAt + 1)
  }

  /** luaC_link, newlstr and luaS_newudata: a new object is in the current white. */
  function AddObject(s: State, r: Ref, o: Object, chain: nat): (s': State)
    requires Keyed(s)
    ensures Keyed(s') && s.heap.Keys <= s'.heap.Keys
  {
    var s1 := s.(heap := s.heap[r := o], color := s.color[r := White(s.cw)]);
    if o.Str? then
      if chain < |s.strt| then s1.(strt := s.strt[chain := [r] + s.strt[chain]]) else s1
    else if o.Udata? then LinkAfterMain(s1, r)
    else LinkFront(s1, r)
  }

  /** A store to a stack slot, a push or a pop: no barrier. */
  function PutStack(s: State, th: Ref, st: seq<Val>): (s': State)
    requires Keyed(s)
    ensures Keyed(s') && s.heap.Keys <= s'.heap.Keys
  {
    if th in s.heap && s.heap[th].Thread? then s.(heap := s.heap[th := s.heap[th].(stack := st)]) else s
  }

  function Push(s: State, v: Val): (s': State)
    requires Keyed(s)
    ensures Keyed(s') && s.heap.Keys <= s'.heap.Keys
  {
    if s.running in s.heap && s.heap[s.running].Thread?
    then PutStack(s, s.running, s.heap[s.running].stack + [v]) else s
  }

  /** changewhite on a dead object that the program gets hold of again. */
  function Revive(s: State, r: Ref): (s': State)
    requires Keyed(s)
    ensures Keyed(s') && s.heap.Keys <= s'.heap.Keys
  {
    if IsDead(s, r) then s.(color := s.color[r := White(s.cw)]) else s
  }

  // ---------------------------------------------------------------- barriered stores

  /** luaC_barrierback through luaC_barriert / luaC_objbarriert. */
  function BarrierBack(s: State, t: Ref, v: Val): (s': State)
    requires Keyed(s)
    ensures Keyed(s') && s'.heap == s.heap
  {
    if v.Obj? && IsWhite(s.color, v.ref) && t in s.color && s.color[t] == Black
    then s.(color := s.color[t := Gray], grayagain := [t] + s.grayagain) else s
  }

  function EntryStored(o: Object, i: nat, key: Val, val: Val): Object
    requires o.Table?
  {
    if i < |o.entries| then o.(entries := o.entries[i := Entry(key, val)])
    else o.(entries := o.entries + [Entry(key, val)])
  }

  /** Entry `i` of the table does not hold `key` yet. */
  predicate NewAt(o: Object, i: nat, key: Val)
    requires o.Table?
  {
    i >= |o.entries| || o.entries[i].key != key
  }

  /** luaV_settable on an existing entry, or newkey with its own barrier for the key, which takes
      a further entry or one without a value. */
  function StoreEntry(s: State, t: Ref, i: nat, key: Val, val: Val): (s': State)
    requires Keyed(s)
    ensures Keyed(s') && s.heap.Keys <= s'.heap.Keys
  {
    if t !in s.heap || !s.heap[t].Table? then s
    else
      var s1 := s.(heap := s.heap[t := EntryStored(s.heap[t], i, key, val)]);
      BarrierBack(if NewAt(s.heap[t], i, key) then BarrierBack(s1, t, key) else s1, t, val)
  }

  /** One luaC_barriert after the other. */
  function BarrierBacks(s: State, t: Ref, vs: seq<Val>): (s': State)
    requires Keyed(s)
    ensures Keyed(s') && s'.heap == s.heap
    decreases |vs|
  {
    if vs == [] then s else BarrierBacks(BarrierBack(s, t, vs[0]), t, vs[1..])
  }

  /** resize, or newkey moving a colliding node: the entries are laid out anew, and newkey runs its
      barrier for every key it re-inserts (`moved`). */
  function RelayEntries(s: State, t: Ref, es: seq<Entry>, moved: seq<Val>): (s': State)
    requires Keyed(s)
    ensures Keyed(s') && s.heap.Keys <= s'.heap.Keys
  {
    if t !in s.heap || !s.heap[t].Table? then s
    else BarrierBacks(s.(heap := s.heap[t := s.heap[t].(entries := es)]), t, moved)
  }

  /** lua_setmetatable on a table. */
  function StoreMeta(s: State, t: Ref, mt: Val, wk: bool, wv: bool): (s': State)
    requires Keyed(s)
    ensures Keyed(s') && s.heap.Keys <= s'.heap.Keys
  {
    if t !in s.heap || !s.heap[t].Table? then s
    else BarrierBack(s.(heap := s.heap[t := s.heap[t].(meta := mt, weakKey := wk, weakValue := wv)]), t, mt)
  }

  function FieldStored(o: Object, i: nat, v: Val): Object {
    match o
    case Udata(m, e) => if i == 0 then Udata(v, e) else Udata(m, v)
    case Closure(e, ps) => if i < |ps| then Closure(e, ps[i := v]) else Closure(v, ps)
    case Proto(ps) => if i < |ps| then Proto(ps[i := v]) else Proto(ps + [v])
    case UpVal(h) => if h.Closed? then UpVal(Closed(v)) else o
    case _ => o
  }

  /** Stores into closures, prototypes, userdata and closed upvalues use the forward barrier. */
  function StoreField(s: State, o: Ref, i: nat, v: Val): (s': State)
    requires Keyed(s)
    ensures Keyed(s') && s.heap.Keys <= s'.heap.Keys
  {
    if o !in s.heap then s else Barrier(s.(heap := s.heap[o := FieldStored(s.heap[o], i, v)]), o, v)
  }

  /** OP_SETUPVAL: through an open upvalue it writes a stack slot. */
  function StoreUpval(s: State, u: Ref, v: Val): (s': State)
    requires Keyed(s)
    ensures Keyed(s') && s.heap.Keys <= s'.heap.Keys
  {
    if u !in s.heap || !s.heap[u].UpVal? then s
    else
      match s.heap[u].home
      case Closed(_) => StoreField(s, u, 0, v)
      case Open(th, slot) =>
        if th in s.heap && s.heap[th].Thread? && slot < |s.heap[th].stack|
        then Barrier(PutStack(s, th, s.heap[th].stack[slot := v]), u, v) else s
  }

  // ---------------------------------------------------------------- upvalues

  /** How far luaF_findupval walks down a thread's list: past the upvalues of higher slots. */
  function Search(h: Heap, l: seq<Ref>, slot: nat): (n: nat)
    ensures n <= |l|
  {
    if l == [] || !(l[0] in h && IsOpen(h[l[0]]) && h[l[0]].home.slot > slot) then 0
    else 1 + Search(h, l[1..], slot)
  }

  /** luaF_findupval for a slot of the running thread: the upvalue found or created. */
  function FindUpval(s: State, slot: nat, name: Ref): (r: (State, Ref))
    requires Keyed(s)
    ensures Keyed(r.0)
  {
    var th := s.running;
    if th !in s.heap || !s.heap[th].Thread? then (s, name)
    else
      var l := s.heap[th].openUpvals;
      var n := Search(s.heap, l, slot);
      if n < |l| && l[n] in s.heap && IsOpen(s.heap[l[n]]) && s.heap[l[n]].home.slot == slot then (Revive(s, l[n]), l[n])
      else
        var h := s.heap[name := UpVal(Open(th, slot))];
        (s.(heap := h[th := s.heap[th].(openUpvals := l[..n] + [name] + l[n..])],
            color := s.color[name := White(s.cw)],
            uvhead := [name] + s.uvhead),
         name)
  }

  function CaptureAll(s: State, caps: seq<Capture>): (r: (State, seq<Val>))
    requires Keyed(s)
    ensures Keyed(r.0)
    decreases |caps|
  {
    if caps == [] then (s, [])
    else
      match caps[0]
      case FromParent(up) =>
        var (s2, ups) := CaptureAll(s, caps[1..]);
        (s2, [Obj(up)] + ups)
      case FromSlot(slot, name) =>
        var (s1, u) := FindUpval(s, slot, name);
        var (s2, ups) := CaptureAll(s1, caps[1..]);
        (s2, [Obj(u)] + ups)
  }

  /** OP_CLOSURE: no collector step can happen before the closure is on the stack. */
  function MakeClosure(s: State, r: Ref, env: Val, proto: Val, caps: seq<Capture>): (s': State)
    requires Keyed(s)
    ensures Keyed(s')
  {
    var (s1, ups) := CaptureAll(s, caps);
    Push(AddObject(s1, r, Closure(env, [proto] + ups), 0), Obj(r))
  }

  // ---------------------------------------------------------------- actions

  function Mutate(s: State, a: Action): (s': State)
    requires Keyed(s)
    ensures Keyed(s')
  {
    match a
    case Alloc(r, o, chain) => Push(AddObject(s, r, o, chain), Obj(r))
    case Intern(r) => Push(Revive(s, r), Obj(r))
    case Fix(r) => s.(fixed := s.fixed + {r})
    case WriteStack(th, st) => PutStack(s, th, st)
    case SetGlobals(th, g) =>
      if th in s.heap && s.heap[th].Thread? then Barrier(s.(heap := s.heap[th := s.heap[th].(globals := g)]), th, g) else s
    case SetEntry(t, i, key, val) => StoreEntry(s, t, i, key, val)
    case Relay(t, es, moved) => RelayEntries(s, t, es, moved)
    case SetMeta(t, mt, wk, wv) => StoreMeta(s, t, mt, wk, wv)
    case SetField(o, i, v) => StoreField(s, o, i, v)
    case SetUpval(u, v) => StoreUpval(s, u, v)
    case NewClosure(r, env, proto, caps) => MakeClosure(s, r, env, proto, caps)
    case Close(level) => CloseUpvals(s, s.running, level)
    case SetBasicMeta(i, v) => if i < |s.mt| then s.(mt := s.mt[i := v]) else s
    case Resume(th) => s.(running := th)
    case Rechain(strt) => if s.phase == SweepString then s else s.(strt := strt)
  }
}
