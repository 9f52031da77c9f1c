/** The collector state (the GC fields of global_State) and the collector's own steps
    (src/lgc.c). Finalizers are not part of this model, so `tmudata` is always empty. */
module GcCollect {
  import opened Basics
  import opened GcHeap
  import opened GcMark

  datatype Phase = Pause | Propagate | SweepString | Sweep | Finalize

  datatype State = State(
    heap: Heap,
    color: Colors,
    gray: seq<Ref>, grayagain: seq<Ref>, weak: seq<Ref>,
    cw: bool,                               // the current white
    phase: Phase,
    rootgc: seq<Ref>, sweepAt: nat,         // all other objects, and the sweep pointer into that list
    strt: seq<seq<Ref>>, sweepStr: nat,     // the string table's chains, and the next chain to sweep
    uvhead: seq<Ref>,                       // every open upvalue
    fixed: set<Ref>,                        // objects with the FIXED bit
    main: Ref, running: Ref, registry: Val, mt: seq<Val>)

  const SWEEP_MAX: nat := 40

  function Roots(s: State): set<Ref> {
    {s.main, s.running} + ValRefs([s.registry]) + ValRefs(s.mt)
  }

  function ValRefs(vs: seq<Val>): set<Ref> { set v | v in vs && v.Obj? :: v.ref }

  function MarksOf(s: State): Marks { Marks(s.color, s.gray) }

  function WithMarks(s: State, m: Marks): State { s.(color := m.color, gray := m.gray) }

  predicate Keyed(s: State) { s.heap.Keys == s.color.Keys }

  // ---------------------------------------------------------------- mark phase

  /** The values of a table that traversetable marks besides the metatable. */
  function TableKids(es: seq<Entry>, weakKey: bool, weakValue: bool): seq<Val> {
    if es == [] then []
    else
      (if es[0].val == Nil then [] else
       (if weakKey then [] else [es[0].key]) + (if weakValue then [] else [es[0].val]))
      + TableKids(es[1..], weakKey, weakValue)
  }

  /** removeentry: a collectable key is turned into a dead key. */
  function RemoveKey(k: Val): Val { if k.Obj? then DeadKey else k }

  /** removeentry on every entry that has no value. */
  function RemoveEmpty(es: seq<Entry>): seq<Entry> {
    seq(|es|, i requires 0 <= i < |es| => if es[i].val == Nil then Entry(RemoveKey(es[i].key), Nil) else es[i])
  }

  /** What a traversal of `o` leaves of it: entries without a value lose their keys, except in
      a table with weak keys and weak values, which traversetable leaves early. */
  function Pruned(o: Object): Object {
    if o.Table? && !(o.weakKey && o.weakValue) then o.(entries := RemoveEmpty(o.entries)) else o
  }

  /** The values that propagatemark marks for `o`. */
  function Kids(o: Object): seq<Val> {
    match o
    case Table(mt, es, wk, wv) => [mt] + (if wk && wv then [] else TableKids(es, wk, wv))
    case Closure(env, ps) => [env] + ps
    case Proto(ps) => ps
    case Thread(g, st, _) => [g] + st
    case _ => []
  }

  predicate IsWeak(o: Object) { o.Table? && (o.weakKey || o.weakValue) }

  /** Blacken `o`, which becomes `ob`, and mark `kids`; threads go to `grayagain` and weak tables to
      `weak`, and both stay gray. */
  function Traversed(s: State, o: Ref, ob: Object, kids: seq<Val>): (s': State)
    requires Keyed(s) && s.gray != [] && o in s.heap
    ensures Keyed(s')
    ensures |Whites(s'.color)| < |Whites(s.color)| || (|Whites(s'.color)| == |Whites(s.color)| && |s'.gray| < |s.gray|)
  {
    var h := s.heap[o := ob];
    var m0 := Marks(s.color[o := Black], s.gray[1..]);
    var m := MarkVals(h, m0, kids);
    var color := if ob.Thread? || IsWeak(ob) then m.color[o := Gray] else m.color;
    assert Whites(m0.color) <= Whites(s.color) && Whites(color) <= Whites(m.color);
    SubsetSize(Whites(m0.color), Whites(s.color)); SubsetSize(Whites(color), Whites(m.color));
    s.(heap := h, color := color, gray := m.gray,
       grayagain := if ob.Thread? then [o] + s.grayagain else s.grayagain,
       weak := if IsWeak(ob) then [o] + s.weak else s.weak)
  }

  /** propagatemark: take one object off the gray list and traverse it. */
  function PropagateMark(s: State): (s': State)
    requires Keyed(s) && s.gray != []
    ensures Keyed(s')
    ensures |Whites(s'.color)| < |Whites(s.color)| || (|Whites(s'.color)| == |Whites(s.color)| && |s'.gray| < |s.gray|)
  {
    var o := s.gray[0];
    if o !in s.heap then s.(gray := s.gray[1..])
    else Traversed(s, o, Pruned(s.heap[o]), Kids(s.heap[o]))
  }

  /** propagateall */
  function PropagateAll(s: State): (s': State)
    requires Keyed(s)
    ensures Keyed(s') && s'.gray == []
    decreases |Whites(s.color)|, |s.gray|
  {
    if s.gray == [] then s else PropagateAll(PropagateMark(s))
  }

  /** The values markroot marks: the main thread, its globals, the registry and the basic metatables. */
  function RootValues(s: State): seq<Val> {
    [Obj(s.main), Globals(s), s.registry] + s.mt
  }

  function Globals(s: State): Val {
    if s.main in s.heap && s.heap[s.main].Thread? then s.heap[s.main].globals else Nil
  }

  /** markroot: start a cycle. */
  function MarkRoot(s: State): (s': State)
    requires Keyed(s)
    ensures Keyed(s')
  {
    var m := MarkVals(s.heap, Marks(s.color, []), RootValues(s));
    WithMarks(s, m).(grayagain := [], weak := [], phase := Propagate)
  }

  /** remarkupvals: a gray upvalue is open, and its stack slot may have been overwritten. */
  function RemarkUpvals(h: Heap, m: Marks, uvs: seq<Ref>): (m': Marks)
    requires h.Keys == m.color.Keys
    ensures m'.color.Keys == m.color.Keys
    decreases |uvs|
  {
    if uvs == [] then m else RemarkUpvals(h, Remark(h, m, uvs[0]), uvs[1..])
  }

  function Remark(h: Heap, m: Marks, u: Ref): (m': Marks)
    requires h.Keys == m.color.Keys
    ensures m'.color.Keys == m.color.Keys
  {
    if u in h && h[u].UpVal? && m.color[u] == Gray then MarkVal(h, m, UpValue(h, h[u].home)) else m
  }

  /** iscleared, without its side effect on strings. */
  predicate IsCleared(h: Heap, c: Colors, v: Val) {
    v.Obj? && v.ref in h && !h[v.ref].Str? && IsWhite(c, v.ref)
  }

  /** stringmark, as iscleared applies it to strings found in a weak table. */
  function StringMark(h: Heap, c: Colors, v: Val): Colors {
    if v.Obj? && v.ref in h && h[v.ref].Str? && IsWhite(c, v.ref) then c[v.ref := Gray] else c
  }

  /** One entry of cleartable's loops: the strings marked, and the entry left behind. */
  function ClearEntry(h: Heap, c: Colors, e: Entry): (Colors, Entry) {
    if e.val == Nil then (c, e)
    else if IsCleared(h, c, e.key) then (c, Entry(RemoveKey(e.key), Nil))
    else
      var c1 := StringMark(h, c, e.key);
      if IsCleared(h, c1, e.val) then (c1, Entry(RemoveKey(e.key), Nil))
      else (StringMark(h, c1, e.val), e)
  }

  function ClearEntries(h: Heap, c: Colors, es: seq<Entry>): (r: (Colors, seq<Entry>))
    ensures |r.1| == |es| && r.0.Keys == c.Keys
  {
    if es == [] then (c, [])
    else
      var (c1, e) := ClearEntry(h, c, es[0]);
      var (c2, rest) := ClearEntries(h, c1, es[1..]);
      (c2, [e] + rest)
  }

  /** cleartable over a list of weak tables. */
  function ClearTables(s: State, tables: seq<Ref>): (s': State)
    requires Keyed(s)
    ensures Keyed(s')
    decreases |tables|
  {
    if tables == [] then s
    else
      var t := tables[0];
      if t !in s.heap || !s.heap[t].Table? then ClearTables(s, tables[1..])
      else
        var (c, es) := ClearEntries(s.heap, s.color, s.heap[t].entries);
        ClearTables(s.(color := c, heap := s.heap[t := s.heap[t].(entries := es)]), tables[1..])
  }

  /** atomic's first round: what remarkupvals finds. */
  function FirstRound(s: State): (s': State)
    requires Keyed(s)
    ensures Keyed(s') && s'.gray == []
  {
    PropagateAll(WithMarks(s, RemarkUpvals(s.heap, MarksOf(s), s.uvhead)))
  }

  /** Its second round: the weak tables again, the running thread and the basic metatables. */
  function SecondRound(s: State): (s': State)
    requires Keyed(s)
    ensures Keyed(s') && s'.gray == []
  {
    var s1 := s.(gray := s.weak, weak := []);
    PropagateAll(WithMarks(s1, MarkVals(s1.heap, MarksOf(s1), [Obj(s1.running)] + s1.mt)))
  }

  /** Its last round: the objects the backward barrier caught, and the threads. */
  function LastRound(s: State): (s': State)
    requires Keyed(s)
    ensures Keyed(s') && s'.gray == []
  {
    PropagateAll(s.(gray := s.grayagain, grayagain := []))
  }

  /** atomic, up to the point where the weak tables are cleared. */
  function MarkRest(s: State): (s': State)
    requires Keyed(s)
    ensures Keyed(s')
  {
    LastRound(SecondRound(FirstRound(s)))
  }

  /** atomic, up to the point where it flips the current white. */
  function FinishMarking(s: State): (s': State)
    requires Keyed(s)
    ensures Keyed(s')
  {
    var s1 := MarkRest(s);
    ClearTables(s1, s1.weak)
  }

  /** The end of atomic: the current white becomes the dead one and the sweep starts over. */
  function Flip(s: State): State {
    s.(cw := !s.cw, sweepStr := 0, sweepAt := 0, phase := SweepString)
  }

  /** atomic: finish marking without interruption, clear weak tables, flip the current white. */
  function Atomic(s: State): (s': State)
    requires Keyed(s)
    ensures Keyed(s')
  {
    Flip(FinishMarking(s))
  }

  // ---------------------------------------------------------------- sweep phase

  /** isdead: the object carries the other white. */
  predicate IsDead(s: State, r: Ref) { r in s.color && s.color[r] == White(!s.cw) }

  /** The objects sweeplist frees: the FIXED bit is part of its dead mask. */
  predicate Doomed(s: State, r: Ref) { IsDead(s, r) && r !in s.fixed }

  function Keep(l: seq<Ref>, dead: set<Ref>): (k: seq<Ref>)
    ensures forall r :: r in k <==> r in l && r !in dead
    ensures |k| <= |l|
  {
    if l == [] then [] else (if l[0] in dead then [] else [l[0]]) + Keep(l[1..], dead)
  }

  /** The elements of a chain that do not survive a sweep of it. */
  function DoomedIn(s: State, chain: seq<Ref>): set<Ref> { set r | r in chain && (r in s.heap ==> Doomed(s, r)) }

  /** sweepwholelist on a chain of strings or of open upvalues; the caller relinks the chain. */
  function SweepChain(s: State, chain: seq<Ref>): (s': State)
    requires Keyed(s)
    ensures Keyed(s')
  {
    var dead := DoomedIn(s, chain);
    s.(heap := map r | r in s.heap && r !in dead :: s.heap[r],
       color := map r | r in s.color && r !in dead :: if r in chain then White(s.cw) else s.color[r],
       uvhead := Keep(s.uvhead, dead))
  }

  /** singlestep's GCSsweepstring case. */
  function SweepStrings(s: State): (s': State)
    requires Keyed(s)
    ensures Keyed(s')
  {
    if s.sweepStr >= |s.strt| then s.(phase := Sweep)
    else
      var chain := s.strt[s.sweepStr];
      SweepChain(s, chain).(strt := s.strt[s.sweepStr := Keep(chain, DoomedIn(s, chain))],
                            sweepStr := s.sweepStr + 1,
                            phase := if s.sweepStr + 1 >= |s.strt| then Sweep else SweepString)
  }

  /** luaC_link and luaC_linkupval: new objects go to the front. While the sweep pointer is still at
      the head of the list it stays there; otherwise it keeps designating the same object. */
  function LinkFront(s: State, r: Ref): State {
    s.(rootgc := [r] + s.rootgc, sweepAt := if s.sweepAt == 0 then 0 else s.sweepAt + 1)
  }

  /** luaC_barrierf */
  function BarrierForward(s: State, o: Ref, v: Ref): (s': State)
    requires Keyed(s)
    ensures Keyed(s') && s'.heap == s.heap
  {
    if o !in s.color then s
    else if s.phase == Propagate then WithMarks(s, MarkVal(s.heap, MarksOf(s), Obj(v)))
    else s.(color := s.color[o := White(s.cw)])
  }

  /** The macros luaC_barrier and luaC_objbarrier. */
  function Barrier(s: State, o: Ref, v: Val): (s': State)
    requires Keyed(s)
    ensures Keyed(s') && s'.heap == s.heap
  {
    if v.Obj? && IsWhite(s.color, v.ref) && o in s.color && s.color[o] == Black
    then BarrierForward(s, o, v.ref) else s
  }

  /** luaC_linkupval: a closed upvalue joins the ordinary objects. */
  function LinkUpval(s: State, u: Ref): (s': State)
    requires Keyed(s) && u in s.heap && s.heap[u].UpVal?
    ensures Keyed(s')
  {
    var s1 := LinkFront(s, u);
    if s.color[u] != Gray then s1
    else if s.phase == Propagate then
      Barrier(s1.(color := s1.color[u := Black]), u, UpValue(s1.heap, s1.heap[u].home))
    else s1.(color := s1.color[u := White(s1.cw)])
  }

  predicate HasOpen(s: State, th: Ref, level: nat) {
    th in s.heap && s.heap[th].Thread? && s.heap[th].openUpvals != [] &&
    var u := s.heap[th].openUpvals[0];
    u != th && u in s.heap && IsOpen(s.heap[u]) && s.heap[u].home.slot >= level
  }

  /** One iteration of luaF_close. */
  function CloseHead(s: State, th: Ref): (s': State)
    requires Keyed(s) && HasOpen(s, th, 0)
    ensures Keyed(s')
  {
    var u := s.heap[th].openUpvals[0];
    var s1 := s.(heap := s.heap[th := s.heap[th].(openUpvals := s.heap[th].openUpvals[1..])],
                 uvhead := Keep(s.uvhead, {u}));
    if IsDead(s, u) then s1.(heap := s1.heap - {u}, color := s1.color - {u})
    else LinkUpval(s1.(heap := s1.heap[u := UpVal(Closed(UpValue(s.heap, s.heap[u].home)))]), u)
  }

  /** luaF_close */
  function CloseUpvals(s: State, th: Ref, level: nat): (s': State)
    requires Keyed(s)
    ensures Keyed(s')
    decreases if th in s.heap && s.heap[th].Thread? then |s.heap[th].openUpvals| else 0
  {
    if !HasOpen(s, th, level) then s
    else
      var s1 := CloseHead(s, th);
      CloseHeadThread(s, th);
      CloseUpvals(s1, th, level)
  }

  lemma CloseHeadThread(s: State, th: Ref)
    requires Keyed(s) && HasOpen(s, th, 0)
    ensures th in CloseHead(s, th).heap
    ensures CloseHead(s, th).heap[th] == s.heap[th].(openUpvals := s.heap[th].openUpvals[1..])
  {
  }

  /** The nested sweepwholelist on the open upvalues of a thread. */
  function SweepOpen(s: State, th: Ref): (s': State)
    requires Keyed(s) && th in s.heap && s.heap[th].Thread?
    ensures Keyed(s')
  {
    var chain := s.heap[th].openUpvals;
    var s1 := SweepChain(s, chain);
    if th !in s1.heap then s1
    else s1.(heap := s1.heap[th := s1.heap[th].(openUpvals := Keep(chain, DoomedIn(s, chain)))])
  }

  /** freeobj; freeing a thread closes its open upvalues first (luaE_freethread). */
  function FreeObject(s: State, r: Ref): (s': State)
    requires Keyed(s)
    ensures Keyed(s')
  {
    var s1 := CloseUpvals(s, r, 0);
    s1.(heap := s1.heap - {r}, color := s1.color - {r})
  }

  /** sweeplist's nested call: a thread's open upvalues are swept before the thread itself. */
  function Nested(s: State): (s': State)
    requires Keyed(s) && s.sweepAt < |s.rootgc|
    ensures Keyed(s') && s'.rootgc == s.rootgc && s'.sweepAt == s.sweepAt
  {
    var r := s.rootgc[s.sweepAt];
    if r in s.heap && s.heap[r].Thread? then SweepOpen(s, r) else s
  }

  function Unlink(s: State): State
    requires s.sweepAt < |s.rootgc|
  {
    s.(rootgc := s.rootgc[..s.sweepAt] + s.rootgc[s.sweepAt + 1..])
  }

  /** The rest of an iteration of sweeplist: free the object under the sweep pointer or whiten it. */
  function Settle(s: State): (s': State)
    requires Keyed(s) && s.sweepAt < |s.rootgc|
    ensures Keyed(s')
  {
    var r := s.rootgc[s.sweepAt];
    if Doomed(s, r) then FreeObject(Unlink(s), r)
    else if r in s.color then s.(color := s.color[r := White(s.cw)], sweepAt := s.sweepAt + 1)
    else s.(sweepAt := s.sweepAt + 1)
  }

  /** One iteration of sweeplist on the list of ordinary objects. */
  function SweepOne(s: State): (s': State)
    requires Keyed(s) && s.sweepAt < |s.rootgc|
    ensures Keyed(s')
  {
    Settle(Nested(s))
  }

  predicate More(s: State) { s.sweepAt < |s.rootgc| }

  /** Up to n iterations of a loop body on the list of ordinary objects. */
  function Iterate(body: State -> State, s: State, n: nat): State
    decreases n
  {
    if n == 0 || !More(s) then s else Iterate(body, body(s), n - 1)
  }

  /** A property that the body keeps, the loop keeps. */
  lemma {:induction false} IterateKeeps(body: State -> State, s: State, n: nat, p: State -> bool)
    requires p(s) && forall x {:trigger body(x)} :: p(x) && More(x) ==> p(body(x))
    ensures p(Iterate(body, s, n))
    decreases n
  {
    if n > 0 && More(s) { IterateKeeps(body, body(s), n - 1, p); }
  }

  /** A measure that the body decreases, a loop that runs at all decreases. */
  lemma {:induction false} IterateLess(body: State -> State, s: State, n: nat, p: State -> bool, m: State -> int)
    requires p(s) && forall x {:trigger body(x)} :: p(x) && More(x) ==> p(body(x)) && m(body(x)) < m(x)
    ensures m(Iterate(body, s, n)) <= m(s)
    ensures n > 0 && More(s) ==> m(Iterate(body, s, n)) < m(s)
    decreases n
  {
    if n > 0 && More(s) { IterateLess(body, body(s), n - 1, p, m); }
  }

  lemma IterateOnce(body: State -> State, s: State, n: nat, s1: State)
    requires n > 0 && More(s) && body(s) == s1
    ensures Iterate(body, s, n) == Iterate(body, s1, n - 1)
  {
  }

  function SweepBody(s: State): State { if Keyed(s) && More(s) then SweepOne(s) else s }

  /** sweeplist(L, g->sweepgc, n) */
  function SweepList(s: State, n: nat): (s': State)
    requires Keyed(s)
    ensures Keyed(s')
  {
    IterateKeeps(SweepBody, s, n, Keyed);
    Iterate(SweepBody, s, n)
  }

  // ---------------------------------------------------------------- the state machine

  /** singlestep */
  function SingleStep(s: State): (s': State)
    requires Keyed(s)
    ensures Keyed(s')
  {
    match s.phase
    case Pause => MarkRoot(s)
    case Propagate => if s.gray != [] then PropagateMark(s) else Atomic(s)
    case SweepString => SweepStrings(s)
    case Sweep =>
      var s1 := SweepList(s, SWEEP_MAX);
      if s1.sweepAt >= |s1.rootgc| then s1.(phase := Finalize) else s1
    case Finalize => s.(phase := Pause)
  }
}
