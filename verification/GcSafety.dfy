/** The program's steps, restricted to what it can reach, keep the invariant; and neither they
    nor the collector's steps free anything live. */
module GcSafety {
  import opened GcHeap
  import opened GcMark
  import opened GcCollect
  import opened GcTricolor
  import opened GcAtomic
  import opened GcInvariant
  import opened GcClose
  import opened GcSweep
  import opened GcFrame
  import opened GcMutate
  import opened GcProgram
  import opened GcAlloc

  /** A value the program can have in its hands. */
  ghost predicate Held(s: State, v: Val) { v != DeadKey && (v.Obj? ==> Reached(s, v.ref)) }

  ghost predicate CanCapture(s: State, caps: seq<Capture>)
    requires Keyed(s)
    decreases |caps|
  {
    caps == [] ||
    match caps[0]
    case FromParent(up) => Reached(s, up) && up in s.heap && s.heap[up].UpVal? && CanCapture(s, caps[1..])
    case FromSlot(slot, name) =>
      && s.running in s.heap && s.heap[s.running].Thread? && slot < |s.heap[s.running].stack| && name !in s.heap
      && CanCapture(FindUpval(s, slot, name).0, caps[1..])
  }

  /** The program only passes around what it can reach; otherwise its steps are unrestricted. */
  ghost predicate Enabled(s: State, a: Action)
    requires Keyed(s)
  {
    match a
    case Alloc(r, o, chain) =>
      && r !in s.heap && !IsOpen(o) && chain < |s.strt| && (o.Thread? ==> o.openUpvals == [])
      && (forall q :: Points(s.heap[r := o], r, q) ==> Reached(s, q))
    case Intern(r) => r in s.heap && s.heap[r].Str?
    case Fix(r) => r in s.heap && s.heap[r].Str?
    case WriteStack(th, st) =>
      && Reached(s, th) && th in s.heap && s.heap[th].Thread? && (forall v :: v in st ==> Held(s, v))
      && (forall u :: u in s.heap[th].openUpvals ==> Slot(s.heap, u) < |st|)
    case SetGlobals(th, g) => Reached(s, th) && th in s.heap && s.heap[th].Thread? && Held(s, g)
    case SetEntry(t, i, key, val) =>
      && Reached(s, t) && t in s.heap && s.heap[t].Table? && Held(s, key) && key != Nil && Held(s, val)
      && (i < |s.heap[t].entries| ==> s.heap[t].entries[i].key == key || s.heap[t].entries[i].val == Nil)
    case Relay(t, es, _) => Reached(s, t) && t in s.heap && s.heap[t].Table? && LaidFrom(es, s.heap[t].entries)
    case SetMeta(t, mt, _, _) => Reached(s, t) && t in s.heap && s.heap[t].Table? && Held(s, mt)
    case SetField(o, _, v) => Reached(s, o) && o in s.heap && !s.heap[o].Table? && Held(s, v)
    case SetUpval(u, v) => Reached(s, u) && u in s.heap && s.heap[u].UpVal? && Held(s, v)
    case NewClosure(r, env, proto, caps) =>
      && Held(s, env) && Held(s, proto) && CanCapture(s, caps) && r !in CaptureAll(s, caps).0.heap
    case Close(_) => true
    case SetBasicMeta(_, v) => Held(s, v)
    case Resume(th) => Reached(s, th) && th in s.heap && s.heap[th].Thread?
    case Rechain(strt) => StringTable(s.(strt := strt))
  }

  // ---------------------------------------------------------------- closures

  /** Capturing upvalues keeps the invariant and yields live upvalues. */
  lemma {:induction false} CaptureInv(s: State, caps: seq<Capture>)
    requires Inv(s) && CanCapture(s, caps)
    ensures var (s', ups) := CaptureAll(s, caps);
      && Inv(s') && s'.strt == s.strt
      && (forall v :: v in ups ==> v.Obj? && Live(s', v.ref))
      && (forall x :: Live(s, x) ==> Live(s', x))
    decreases |caps|
  {
    if caps != [] {
      match caps[0]
      case FromParent(up) =>
        ReachableLive(s, up);
        CaptureInv(s, caps[1..]);
      case FromSlot(slot, name) =>
        FindUpvalInv(s, slot, name);
        CaptureInv(FindUpval(s, slot, name).0, caps[1..]);
    }
  }

  lemma NewClosureInv(s: State, r: Ref, env: Val, proto: Val, caps: seq<Capture>)
    requires Inv(s) && LiveVal(s, env) && LiveVal(s, proto) && CanCapture(s, caps)
    requires r !in CaptureAll(s, caps).0.heap
    ensures Inv(MakeClosure(s, r, env, proto, caps))
  {
    CaptureInv(s, caps);
    var (s1, ups) := CaptureAll(s, caps);
    var o := Closure(env, [proto] + ups);
    forall q | Points(s1.heap[r := o], r, q) ensures Live(s1, q) {
      if env != Obj(q) && proto != Obj(q) { assert Obj(q) in ups; }
    }
    AddInv(s1, r, o, 0);
    PushInv(AddObject(s1, r, o, 0), Obj(r));
  }

  // ---------------------------------------------------------------- small steps

  lemma FixInv(s: State, r: Ref)
    requires Inv(s) && r in s.heap && s.heap[r].Str?
    ensures Inv(s.(fixed := s.fixed + {r}))
  {
    var s' := s.(fixed := s.fixed + {r});
    assert Roots(s') == Roots(s);
    forall x | x in Roots(s') ensures Live(s', x) { assert Live(s, x); }
    FieldOnly(s, s');
  }

  lemma ResumeInv(s: State, th: Ref)
    requires Inv(s) && Live(s, th) && s.heap[th].Thread?
    ensures Inv(s.(running := th))
  {
    var s' := s.(running := th);
    forall x | x in Roots(s') ensures Live(s', x) { assert x in Roots(s) || x == th; assert Live(s, x); }
    FieldOnly(s, s');
  }

  lemma BasicMetaInv(s: State, i: nat, v: Val)
    requires Inv(s) && LiveVal(s, v) && i < |s.mt|
    ensures Inv(s.(mt := s.mt[i := v]))
  {
    var s' := s.(mt := s.mt[i := v]);
    forall r | r in Roots(s') ensures Live(s', r) {
      if r in ValRefs(s'.mt) && r !in Roots(s) {
        assert Obj(r) in s'.mt;
        assert Obj(r) in s.mt || v == Obj(r);
      }
      assert Live(s, r);
    }
    FieldOnly(s, s');
  }

  /** Changing roots, fixed strings or basic metatables touches neither objects nor colours. */
  lemma FieldOnly(s: State, s': State)
    requires Inv(s)
    requires s' == s.(fixed := s'.fixed, running := s'.running, mt := s'.mt)
    requires Anchors(s') && forall r :: r in Roots(s') ==> Live(s', r)
    ensures Inv(s')
  {
    assert forall r :: Live(s', r) <==> Live(s, r);
    forall u ensures UpvalOk(s', u) { assert UpvalOk(s, u); }
    forall th ensures ThreadOk(s', th) { assert ThreadOk(s, th); }
    FieldPhase(s, s');
  }

  lemma FieldPhase(s: State, s': State)
    requires PhaseOk(s, {})
    requires s' == s.(fixed := s'.fixed, running := s'.running, mt := s'.mt)
    ensures PhaseOk(s', {})
  {
    assert forall r :: AheadInRoot(s', r) <==> AheadInRoot(s, r);
    assert forall r :: OnList(s', r) <==> OnList(s, r);
    assert forall r :: CurrentWhite(s', r) <==> CurrentWhite(s, r);
    forall r | r in s'.heap && Ahead(s, r) ensures Ahead(s', r) { }
  }

  /** luaS_resize moves strings between chains, but never during the string sweep. */
  lemma RechainInv(s: State, strt: seq<seq<Ref>>)
    requires Inv(s) && s.phase != SweepString && StringTable(s.(strt := strt))
    ensures Inv(s.(strt := strt))
  {
    var s' := s.(strt := strt);
    assert Roots(s') == Roots(s);
    assert forall r :: Live(s', r) <==> Live(s, r);
    forall u ensures UpvalOk(s', u) { assert UpvalOk(s, u); }
    forall th ensures ThreadOk(s', th) { assert ThreadOk(s, th); }
    assert forall r :: AheadInRoot(s', r) <==> AheadInRoot(s, r);
    assert forall r :: OnList(s', r) <==> OnList(s, r);
    assert forall r :: CurrentWhite(s', r) <==> CurrentWhite(s, r);
    forall r | r in s'.heap && Ahead(s, r) ensures Ahead(s', r) { }
  }

  // ---------------------------------------------------------------- every program step

  lemma HeldLive(s: State, v: Val)
    requires Inv(s) && Held(s, v)
    ensures LiveVal(s, v)
  {
    if v.Obj? { ReachableLive(s, v.ref); }
  }

  /** Every step of the program keeps the invariant. */
  lemma MutateInv(s: State, a: Action)
    requires Inv(s) && Enabled(s, a)
    ensures Inv(Mutate(s, a))
  {
    match a
    case Alloc(r, o, chain) =>
      forall q | Points(s.heap[r := o], r, q) ensures Live(s, q) { assert Reached(s, q); ReachableLive(s, q); }
      AddInv(s, r, o, chain);
      PushInv(AddObject(s, r, o, chain), Obj(r));
    case Intern(r) => ReviveInv(s, r); PushInv(Revive(s, r), Obj(r));
    case Fix(r) => FixInv(s, r);
    case WriteStack(th, st) =>
      ReachableLive(s, th);
      forall v | v in st ensures LiveVal(s, v) { HeldLive(s, v); }
      WriteStackInv(s, th, st);
    case SetGlobals(th, g) => ReachableLive(s, th); HeldLive(s, g); SetGlobalsInv(s, th, g);
    case SetEntry(t, i, key, val) =>
      ReachableLive(s, t); HeldLive(s, key); HeldLive(s, val);
      SetEntryInv(s, t, i, key, val);
    case Relay(t, es, moved) => ReachableLive(s, t); RelayInv(s, t, es, moved);
    case SetMeta(t, mt, wk, wv) => ReachableLive(s, t); HeldLive(s, mt); SetMetaInv(s, t, mt, wk, wv);
    case SetField(o, i, v) => ReachableLive(s, o); HeldLive(s, v); SetFieldInv(s, o, i, v);
    case SetUpval(u, v) => ReachableLive(s, u); HeldLive(s, v); SetUpvalInv(s, u, v);
    case NewClosure(r, env, proto, caps) =>
      HeldLive(s, env); HeldLive(s, proto);
      NewClosureInv(s, r, env, proto, caps);
    case Close(level) => CloseUpvalsInv(s, s.running, level, {});
    case SetBasicMeta(i, v) => HeldLive(s, v); if i < |s.mt| { BasicMetaInv(s, i, v); }
    case Resume(th) => ReachableLive(s, th); ResumeInv(s, th);
    case Rechain(strt) => if s.phase != SweepString { RechainInv(s, strt); }
  }

  // ---------------------------------------------------------------- nothing live is freed

  lemma MarkStepKeeps(s: State)
    requires Inv(s) && (s.phase == Pause || s.phase == Propagate || s.phase == Finalize)
    ensures SingleStep(s).heap.Keys == s.heap.Keys
  {
    if s.phase == Propagate {
      if s.gray != [] { PropagateMarkFrame(s); } else { AtomicMarks(s); }
    }
  }

  /** No collector step frees a live object. */
  lemma CollectorKeeps(s: State, r: Ref)
    requires Inv(s) && Live(s, r)
    ensures r in SingleStep(s).heap
  {
    if s.phase == SweepString || s.phase == Sweep {
      SweepStepFrame(s);
      FrameLive(s, SingleStep(s), r);
    } else {
      MarkStepKeeps(s);
    }
  }

  lemma CloseHeadKeeps(s: State, th: Ref, r: Ref)
    requires InvOut(s, {}) && HasOpen(s, th, 0) && Live(s, r)
    ensures Live(CloseHead(s, th), r)
  {
    var u := HeadOf(s, th);
    CloseHeadSplit(s, th);
    assert UpvalOk(s, u);
    if !IsDead(s, u) {
      CloseHeadInv(s, th, {});
      if s.phase == Propagate {
        assert r in CloseHead(s, th).heap;
        assert NoDead(CloseHead(s, th));
      }
    }
  }

  lemma {:induction false} CloseKeeps(s: State, th: Ref, level: nat, r: Ref)
    requires InvOut(s, {}) && Live(s, r)
    ensures r in CloseUpvals(s, th, level).heap
    decreases if th in s.heap && s.heap[th].Thread? then |s.heap[th].openUpvals| else 0
  {
    if HasOpen(s, th, level) {
      CloseHeadThread(s, th);
      CloseHeadInv(s, th, {});
      CloseHeadKeeps(s, th, r);
      CloseKeeps(CloseHead(s, th), th, level, r);
    }
  }

  lemma {:induction false} CaptureKeeps(s: State, caps: seq<Capture>, r: Ref)
    requires Keyed(s) && r in s.heap
    ensures r in CaptureAll(s, caps).0.heap
    decreases |caps|
  {
    if caps != [] {
      match caps[0]
      case FromParent(_) => CaptureKeeps(s, caps[1..], r);
      case FromSlot(slot, name) => CaptureKeeps(FindUpval(s, slot, name).0, caps[1..], r);
    }
  }

  lemma PlainKeeps(s: State, a: Action, r: Ref)
    requires Keyed(s) && r in s.heap && !a.Close? && !a.NewClosure?
    ensures r in Mutate(s, a).heap
  {
  }

  /** No step of the program frees a live object: luaF_close frees only dead upvalues. */
  lemma ProgramKeeps(s: State, a: Action, r: Ref)
    requires Inv(s) && Live(s, r)
    ensures r in Mutate(s, a).heap
  {
    match a
    case Close(level) => CloseKeeps(s, s.running, level, r);
    case NewClosure(_, _, _, caps) => CaptureKeeps(s, caps, r);
    case _ => PlainKeeps(s, a, r);
  }
}
