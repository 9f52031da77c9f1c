/** What the program's steps do, as the program sees it: new objects come into its hands, stores store, and all
    else stays as it was, whatever the barriers and the collector's phase. */
module GcEffects {
  import opened GcHeap
  import opened GcMark
  import opened GcCollect
  import opened GcTricolor
  import opened GcAtomic
  import opened GcInvariant
  import opened GcClose
  import opened GcSweep
  import opened GcFrame
  import opened GcMutate
  import opened GcProgram
  import opened GcAlloc
  import opened GcSafety

  /** Every old object other than `but` is just the same. */
  ghost predicate OthersSame(s: State, s': State, but: set<Ref>) {
    forall x :: x in s.heap && x !in but ==> x in s'.heap && s'.heap[x] == s.heap[x]
  }

  /** The value is pushed on the stack of the running thread, which is otherwise the same. */
  ghost predicate Pushed(s: State, s': State, v: Val) {
    && s'.running == s.running && s.running in s.heap && s.heap[s.running].Thread? && s.running in s'.heap
    && s'.heap[s.running].Thread? && s'.heap[s.running].stack == s.heap[s.running].stack + [v]
    && s'.heap[s.running].globals == s.heap[s.running].globals
  }

  /** What is on top of the running thread's stack is reachable. */
  lemma PushedReached(s: State, s': State, r: Ref)
    requires Pushed(s, s', Obj(r))
    ensures Reached(s', r)
  {
    var st := s'.heap[s'.running].stack;
    assert st[|st| - 1] == Obj(r);
    assert Obj(r) in st;
    RootReachable(s'.heap, Roots(s'), s'.running);
    StepReachable(s'.heap, Roots(s'), s'.running, r);
  }

  lemma RunningThere(s: State)
    requires Inv(s)
    ensures s.running in s.heap && s.heap[s.running].Thread?
  {
  }

  // ---------------------------------------------------------------- new objects

  /** A new object is the one asked for, and the program holds it. */
  lemma AllocEffect(s: State, r: Ref, o: Object, chain: nat)
    requires Inv(s) && Enabled(s, Alloc(r, o, chain))
    ensures var s' := Mutate(s, Alloc(r, o, chain));
      r !in s.heap && r in s'.heap && s'.heap[r] == o && s'.heap.Keys == s.heap.Keys + {r}
      && Pushed(s, s', Obj(r)) && Reached(s', r) && OthersSame(s, s', {s.running})
  {
    RunningThere(s);
    AddEffect(s, r, o, chain);
    PushedReached(s, Mutate(s, Alloc(r, o, chain)), r);
  }

  /** Linking a new object and pushing it. */
  lemma AddEffect(s: State, r: Ref, o: Object, chain: nat)
    requires Keyed(s) && r !in s.heap && s.running in s.heap && s.heap[s.running].Thread?
    ensures var s' := Push(AddObject(s, r, o, chain), Obj(r));
      r in s'.heap && s'.heap[r] == o && s'.heap.Keys == s.heap.Keys + {r} && Pushed(s, s', Obj(r)) && OthersSame(s, s', {s.running})
  {
    AddedHeap(s, r, o, chain);
    var s1 := AddObject(s, r, o, chain);
    assert Push(s1, Obj(r)).heap == s1.heap[s.running := s.heap[s.running].(stack := s.heap[s.running].stack + [Obj(r)])];
  }

  lemma AddedHeap(s: State, r: Ref, o: Object, chain: nat)
    requires Keyed(s)
    ensures AddObject(s, r, o, chain).heap == s.heap[r := o] && AddObject(s, r, o, chain).running == s.running
  {
  }

  /** An interned string that was dead already is alive again, and the program holds it. */
  lemma InternEffect(s: State, r: Ref)
    requires Inv(s) && Enabled(s, Intern(r))
    ensures var s' := Mutate(s, Intern(r));
      r in s.heap && s'.heap.Keys == s.heap.Keys && Pushed(s, s', Obj(r)) && Reached(s', r) && Live(s', r) && OthersSame(s, s', {s.running})
  {
    RunningThere(s);
    var s' := Mutate(s, Intern(r));
    PushedReached(s, s', r);
    MutateInv(s, Intern(r));
    ReachableLive(s', r);
  }

  /** The upvalue of a new closure: that of the enclosing closure, or one that is open on the slot. */
  ghost predicate CapturedBy(s: State, th: Ref, c: Capture, v: Val) {
    match c
    case FromParent(up) => v == Obj(up)
    case FromSlot(slot, _) => v.Obj? && v.ref in s.heap && s.heap[v.ref] == UpVal(Open(th, slot))
  }

  ghost predicate AllCaptured(s: State, th: Ref, caps: seq<Capture>, ups: seq<Val>) {
    |ups| == |caps| && forall i :: 0 <= i < |caps| ==> CapturedBy(s, th, caps[i], ups[i])
  }

  lemma FindUpvalEffect(s: State, slot: nat, name: Ref)
    requires Inv(s) && slot < |s.heap[s.running].stack| && name !in s.heap
    ensures var (s1, u) := FindUpval(s, slot, name);
      s1.running == s.running && OthersSame(s, s1, {s.running}) && u in s1.heap && s1.heap[u] == UpVal(Open(s.running, slot))
      && s.running in s1.heap && s1.heap[s.running] == s.heap[s.running].(openUpvals := s1.heap[s.running].openUpvals)
  {
    RunningThere(s);
    FindUpvalInv(s, slot, name);
  }

  lemma {:induction false} CaptureEffect(s: State, caps: seq<Capture>)
    requires Inv(s) && CanCapture(s, caps)
    ensures var (s1, ups) := CaptureAll(s, caps);
      s1.running == s.running && OthersSame(s, s1, {s.running}) && AllCaptured(s1, s.running, caps, ups)
      && s.running in s1.heap && s1.heap[s.running].Thread? && s1.heap[s.running] == s.heap[s.running].(openUpvals := s1.heap[s.running].openUpvals)
    decreases |caps|
  {
    RunningThere(s);
    if caps != [] {
      var (s2, ups) := CaptureAll(s, caps);
      match caps[0]
      case FromParent(up) =>
        CaptureEffect(s, caps[1..]);
      case FromSlot(slot, name) =>
        FindUpvalInv(s, slot, name);
        FindUpvalEffect(s, slot, name);
        var (s1, u) := FindUpval(s, slot, name);
        CaptureEffect(s1, caps[1..]);
        assert u != s.running;
    }
  }

  /** A new closure has the environment, the prototype and the captured upvalues asked for, and the program
      holds it. */
  lemma NewClosureEffect(s: State, r: Ref, env: Val, proto: Val, caps: seq<Capture>) returns (ups: seq<Val>)
    requires Inv(s) && Enabled(s, NewClosure(r, env, proto, caps))
    ensures var s' := Mutate(s, NewClosure(r, env, proto, caps));
      r !in s.heap && r in s'.heap && s'.heap[r] == Closure(env, [proto] + ups) && AllCaptured(s', s.running, caps, ups)
      && Pushed(s, s', Obj(r)) && Reached(s', r) && OthersSame(s, s', {s.running})
  {
    RunningThere(s);
    CaptureEffect(s, caps);
    CaptureKeepsAll(s, caps);
    var s1 := CaptureAll(s, caps).0;
    ups := CaptureAll(s, caps).1;
    AddEffect(s1, r, Closure(env, [proto] + ups), 0);
    StillCaptured(s1, Mutate(s, NewClosure(r, env, proto, caps)), s.running, caps, ups);
    PushedReached(s, Mutate(s, NewClosure(r, env, proto, caps)), r);
  }

  lemma StillCaptured(s1: State, s': State, th: Ref, caps: seq<Capture>, ups: seq<Val>)
    requires OthersSame(s1, s', {th}) && AllCaptured(s1, th, caps, ups) && th in s1.heap && s1.heap[th].Thread?
    ensures AllCaptured(s', th, caps, ups)
  {
    forall i | 0 <= i < |caps| ensures CapturedBy(s', th, caps[i], ups[i]) { assert CapturedBy(s1, th, caps[i], ups[i]); }
  }

  lemma CaptureKeepsAll(s: State, caps: seq<Capture>)
    requires Keyed(s)
    ensures s.heap.Keys <= CaptureAll(s, caps).0.heap.Keys
  {
    forall r | r in s.heap ensures r in CaptureAll(s, caps).0.heap { CaptureKeeps(s, caps, r); }
  }

  // ---------------------------------------------------------------- stores

  /** A stack gets the values, and nothing else changes. */
  lemma WriteStackEffect(s: State, th: Ref, st: seq<Val>)
    requires Inv(s) && Enabled(s, WriteStack(th, st))
    ensures var s' := Mutate(s, WriteStack(th, st));
      s'.heap.Keys == s.heap.Keys && s'.heap[th] == Thread(s.heap[th].globals, st, s.heap[th].openUpvals) && OthersSame(s, s', {th})
  {
  }

  lemma SetGlobalsEffect(s: State, th: Ref, g: Val)
    requires Inv(s) && Enabled(s, SetGlobals(th, g))
    ensures var s' := Mutate(s, SetGlobals(th, g));
      s'.heap.Keys == s.heap.Keys && s'.heap[th] == Thread(g, s.heap[th].stack, s.heap[th].openUpvals) && OthersSame(s, s', {th})
  {
  }

  /** The table has the entry, and its other entries are the same. */
  lemma SetEntryEffect(s: State, t: Ref, i: nat, key: Val, val: Val)
    requires Inv(s) && Enabled(s, SetEntry(t, i, key, val))
    ensures var s', es := Mutate(s, SetEntry(t, i, key, val)), s.heap[t].entries;
      && s'.heap.Keys == s.heap.Keys && OthersSame(s, s', {t}) && s'.heap[t].Table? && s'.heap[t] == s.heap[t].(entries := s'.heap[t].entries)
      && var es' := s'.heap[t].entries; var at := if i < |es| then i else |es|;
      && |es'| == (if i < |es| then |es| else |es| + 1) && es'[at] == Entry(key, val)
      && forall j :: 0 <= j < |es| && j != at ==> es'[j] == es[j]
  {
  }

  lemma RelayEffect(s: State, t: Ref, es: seq<Entry>, moved: seq<Val>)
    requires Inv(s) && Enabled(s, Relay(t, es, moved))
    ensures var s' := Mutate(s, Relay(t, es, moved));
      s'.heap.Keys == s.heap.Keys && s'.heap[t] == Table(s.heap[t].meta, es, s.heap[t].weakKey, s.heap[t].weakValue) && OthersSame(s, s', {t})
  {
  }

  lemma SetMetaEffect(s: State, t: Ref, mt: Val, wk: bool, wv: bool)
    requires Inv(s) && Enabled(s, SetMeta(t, mt, wk, wv))
    ensures var s' := Mutate(s, SetMeta(t, mt, wk, wv));
      s'.heap.Keys == s.heap.Keys && s'.heap[t] == Table(mt, s.heap[t].entries, wk, wv) && OthersSame(s, s', {t})
  {
  }

  /** The field of a userdata, closure, prototype or closed upvalue has the value; its other fields are the same. */
  lemma SetFieldEffect(s: State, o: Ref, i: nat, v: Val)
    requires Inv(s) && Enabled(s, SetField(o, i, v))
    ensures var s', was := Mutate(s, SetField(o, i, v)), s.heap[o];
      && s'.heap.Keys == s.heap.Keys && OthersSame(s, s', {o})
      && var now := s'.heap[o];
      && (was.Udata? ==> now == if i == 0 then Udata(v, was.env) else Udata(was.meta, v))
      && (was.Closure? && i >= |was.parts| ==> now == Closure(v, was.parts))
      && (was.Closure? && i < |was.parts| ==> now.Closure? && now.env == was.env && PartSet(was.parts, now.parts, i, v))
      && (was.Proto? && i < |was.parts| ==> now.Proto? && PartSet(was.parts, now.parts, i, v))
      && (was.Proto? && i >= |was.parts| ==> now == Proto(was.parts + [v]))
      && (was.UpVal? && was.home.Closed? ==> now == UpVal(Closed(v)))
      && (was.Str? || was.Thread? || IsOpen(was) ==> now == was)
  {
  }

  ghost predicate PartSet(ps: seq<Val>, ps': seq<Val>, i: nat, v: Val) {
    |ps'| == |ps| && i < |ps| && ps'[i] == v && forall j :: 0 <= j < |ps| && j != i ==> ps'[j] == ps[j]
  }

  /** A write through an upvalue is read back through it; it changes the upvalue itself, or the one slot of the
      stack that it designates. */
  lemma SetUpvalEffect(s: State, u: Ref, v: Val)
    requires Inv(s) && Enabled(s, SetUpval(u, v))
    ensures var s' := Mutate(s, SetUpval(u, v));
      && s'.heap.Keys == s.heap.Keys && s'.heap[u].UpVal? && UpValue(s'.heap, s'.heap[u].home) == v
      && (s.heap[u].home.Closed? ==> OthersSame(s, s', {u}))
      && (s.heap[u].home.Open? ==>
            var th := s.heap[u].home.thread;
            && th in s.heap && s.heap[th].Thread? && OthersSame(s, s', {th}) && s'.heap[th].Thread?
            && s'.heap[th] == s.heap[th].(stack := s'.heap[th].stack) && PartSet(s.heap[th].stack, s'.heap[th].stack, s.heap[u].home.slot, v))
  {
    assert UpvalOk(s, u);
    if s.heap[u].home.Open? { assert s.heap[u].home.thread != u; }
  }

  /** The other steps change no object. */
  lemma RootEffects(s: State, i: nat, v: Val, th: Ref, r: Ref, strt: seq<seq<Ref>>)
    ensures Keyed(s) ==>
      && Mutate(s, SetBasicMeta(i, v)).heap == s.heap && Mutate(s, Resume(th)).heap == s.heap && Mutate(s, Fix(r)).heap == s.heap && Mutate(s, Rechain(strt)).heap == s.heap
      && (i < |s.mt| ==> Mutate(s, SetBasicMeta(i, v)).mt == s.mt[i := v])
      && Mutate(s, Resume(th)).running == th && Mutate(s, Fix(r)).fixed == s.fixed + {r}
  {
  }

  // ---------------------------------------------------------------- closing upvalues

  ghost predicate SameSeen(h: Heap, h': Heap) { forall x :: x in h' ==> x in h && SameObject(h, h', x) }

  lemma SameSeenTrans(a: Heap, b: Heap, c: Heap)
    requires SameSeen(a, b) && SameSeen(b, c)
    ensures SameSeen(a, c)
  {
    forall x | x in c ensures x in a && SameObject(a, c, x) { assert x in b; }
  }

  lemma CloseHeadHeap(s: State, th: Ref)
    requires Keyed(s) && HasOpen(s, th, 0)
    ensures CloseHead(s, th).heap == if IsDead(s, HeadOf(s, th)) then Freed(s, th).heap else Closing(s, th).heap
  {
    CloseHeadSplit(s, th);
  }

  lemma CloseHeadSeen(s: State, th: Ref)
    requires Keyed(s) && HasOpen(s, th, 0)
    ensures var s', u := CloseHead(s, th), HeadOf(s, th);
      && s'.heap.Keys == (if IsDead(s, u) then s.heap.Keys - {u} else s.heap.Keys)
      && (!IsDead(s, u) ==> s'.heap[u].UpVal? && s'.heap[u].home.Closed?)
      && (forall x :: x in s'.heap && x != u && x != th ==> s'.heap[x] == s.heap[x])
  {
    CloseHeadHeap(s, th);
  }

  lemma CloseHeadSame(s: State, th: Ref)
    requires Keyed(s) && OpenLists(s) && HasOpen(s, th, 0)
    ensures SameSeen(s.heap, CloseHead(s, th).heap)
  {
    CloseHeadHeap(s, th);
    var s' := CloseHead(s, th);
    forall x | x in s'.heap ensures x in s.heap && SameObject(s.heap, s'.heap, x) { ClosedSame(s, th, x); }
  }

  lemma CloseHeadDead(s: State, th: Ref)
    requires InvOut(s, {}) && HasOpen(s, th, 0)
    ensures forall x :: IsDead(CloseHead(s, th), x) ==> IsDead(s, x)
  {
    CloseHeadSplit(s, th);
    CloseHeadInv(s, th, {});
    if s.phase == Propagate {
      assert NoDead(CloseHead(s, th));
    }
  }

  lemma HeadOpen(s: State, th: Ref, level: nat)
    requires InvOut(s, {}) && HasOpen(s, th, level)
    ensures var u := HeadOf(s, th); u in s.heap && IsOpen(s.heap[u]) && s.heap[u].home.thread == th && s.heap[u].home.slot >= level
  {
    assert ThreadOk(s, th);
    assert HeadOf(s, th) in s.heap[th].openUpvals;
  }

  /** What luaF_close leaves: only dead upvalues are freed, none of the thread's at or above the level is open, and
      those below it are as they were. */
  ghost predicate ClosedFrom(s: State, s': State, th: Ref, level: nat) {
    && SameSeen(s.heap, s'.heap)
    && (forall x :: x in s.heap && x !in s'.heap ==> IsDead(s, x) && IsOpen(s.heap[x]) && s.heap[x].home.thread == th && s.heap[x].home.slot >= level)
    && (forall x :: x in s'.heap && IsOpen(s'.heap[x]) ==> s'.heap[x] == s.heap[x] && (s.heap[x].home.thread == th ==> s.heap[x].home.slot < level))
    && (forall x :: x in s.heap && IsOpen(s.heap[x]) && (s.heap[x].home.thread != th || s.heap[x].home.slot < level) ==> x in s'.heap && s'.heap[x] == s.heap[x])
  }

  lemma NoneOpen(s: State, th: Ref, level: nat)
    requires InvOut(s, {}) && th in s.heap && s.heap[th].Thread? && !HasOpen(s, th, level)
    ensures ClosedFrom(s, s, th, level)
  {
    forall x | x in s.heap && IsOpen(s.heap[x]) && s.heap[x].home.thread == th ensures s.heap[x].home.slot < level {
      assert UpvalOk(s, x) && ThreadOk(s, th);
      var l := s.heap[th].openUpvals;
      assert x in l;
      var i :| 0 <= i < |l| && l[i] == x;
      assert l[0] in l && UpvalOk(s, l[0]);
      if i > 0 { assert Slot(s.heap, l[0]) > Slot(s.heap, l[i]); }
    }
  }

  lemma {:induction false} CloseEffect(s: State, th: Ref, level: nat)
    requires InvOut(s, {}) && th in s.heap && s.heap[th].Thread?
    ensures ClosedFrom(s, CloseUpvals(s, th, level), th, level)
    decreases |s.heap[th].openUpvals|
  {
    if HasOpen(s, th, level) {
      var s1, u := CloseHead(s, th), HeadOf(s, th);
      CloseHeadThread(s, th);
      CloseHeadInv(s, th, {});
      CloseHeadSame(s, th);
      CloseHeadSeen(s, th);
      CloseHeadDead(s, th);
      HeadOpen(s, th, level);
      CloseEffect(s1, th, level);
      CloseMore(s, s1, CloseUpvals(s1, th, level), th, level, u);
    } else {
      NoneOpen(s, th, level);
    }
  }

  lemma CloseMore(s: State, s1: State, s2: State, th: Ref, level: nat, u: Ref)
    requires ClosedFrom(s1, s2, th, level) && u in s.heap && IsOpen(s.heap[u]) && s.heap[u].home.thread == th && s.heap[u].home.slot >= level
    requires SameSeen(s.heap, s1.heap) && s1.heap.Keys == (if IsDead(s, u) then s.heap.Keys - {u} else s.heap.Keys)
    requires !IsDead(s, u) ==> s1.heap[u].UpVal? && s1.heap[u].home.Closed?
    requires forall x :: x in s1.heap && x != u && x != th ==> s1.heap[x] == s.heap[x]
    requires forall x :: x in s1.heap && IsDead(s1, x) ==> IsDead(s, x)
    requires th in s.heap && s.heap[th].Thread? && th in s1.heap && s1.heap[th].Thread?
    ensures ClosedFrom(s, s2, th, level)
  {
    SameSeenTrans(s.heap, s1.heap, s2.heap);
  }

  /** OP_CLOSE, and the end of a function. */
  lemma CloseStepEffect(s: State, level: nat)
    requires Inv(s)
    ensures ClosedFrom(s, Mutate(s, Close(level)), s.running, level)
  {
    RunningThere(s);
    CloseEffect(s, s.running, level);
  }

  // ---------------------------------------------------------------- the program is not held up

  /** In every state the program can allocate, can store what it reaches into a table it reaches, and can
      overwrite all of its stack. */
  lemma AlwaysEnabled(s: State, r: Ref, t: Ref, i: nat, v: Ref)
    requires Inv(s)
    ensures r !in s.heap ==> Enabled(s, Alloc(r, Table(Nil, [], false, false), 0)) && Enabled(s, Alloc(r, Str, 0))
    ensures Reached(s, t) && t in s.heap && s.heap[t].Table? && Reached(s, v) && i >= |s.heap[t].entries| ==> Enabled(s, SetEntry(t, i, Obj(v), Obj(v)))
    ensures Enabled(s, WriteStack(s.running, seq(|s.heap[s.running].stack|, _ => Obj(s.running))))
  {
    RunningThere(s);
    RootReachable(s.heap, Roots(s), s.running);
    assert ThreadOk(s, s.running);
    forall u | u in s.heap[s.running].openUpvals ensures Slot(s.heap, u) < |s.heap[s.running].stack| { assert UpvalOk(s, u); }
  }
}
