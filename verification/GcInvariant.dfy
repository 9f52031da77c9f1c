/** The invariant of the whole machine, phase by phase. */
module GcInvariant {
  import opened GcHeap
  import opened GcMark
  import opened GcCollect
  import opened GcTricolor
  import opened GcAtomic

  predicate Ordinary(h: Heap, r: Ref) { r in h && !h[r].Str? && !IsOpen(h[r]) }

  /** `rootgc` holds exactly the objects that are neither strings nor open upvalues, each once.
      `out` are objects that sweeplist has unlinked and is about to free. */
  ghost predicate RootList(s: State, out: set<Ref>) {
    && NoDup(s.rootgc) && s.sweepAt <= |s.rootgc|
    && (forall r :: r in s.rootgc <==> Ordinary(s.heap, r) && r !in out)
  }

  predicate InTable(strt: seq<seq<Ref>>, r: Ref) { exists i :: 0 <= i < |strt| && r in strt[i] }

  /** The chains of the string table hold exactly the strings, each in one chain. */
  ghost predicate StringTable(s: State) {
    && |s.strt| > 0
    && (forall r :: InTable(s.strt, r) <==> r in s.heap && s.heap[r].Str?)
    && (forall i, j, r :: 0 <= i < |s.strt| && 0 <= j < |s.strt| && r in s.strt[i] && r in s.strt[j] ==> i == j)
  }

  function Slot(h: Heap, u: Ref): int { if u in h && IsOpen(h[u]) then h[u].home.slot else -1 }

  /** An open upvalue points into the stack of a thread that has it on its list. */
  ghost predicate UpvalOk(s: State, u: Ref) {
    u in s.heap && IsOpen(s.heap[u]) ==>
      var th := s.heap[u].home.thread;
      && th in s.heap && s.heap[th].Thread? && s.heap[u].home.slot < |s.heap[th].stack|
      && u in s.heap[th].openUpvals && u in s.uvhead
      && u in s.color && s.color[u] != Black
  }

  /** A thread's list holds its open upvalues, strictly descending by stack slot. */
  ghost predicate ThreadOk(s: State, th: Ref) {
    th in s.heap && s.heap[th].Thread? ==>
      var l := s.heap[th].openUpvals;
      && (forall u :: u in l ==> u in s.heap && IsOpen(s.heap[u]) && s.heap[u].home.thread == th)
      && (forall i, j :: 0 <= i < j < |l| ==> Slot(s.heap, l[i]) > Slot(s.heap, l[j]))
  }

  ghost predicate OpenLists(s: State) {
    && (forall u :: UpvalOk(s, u))
    && (forall th :: ThreadOk(s, th))
    && (forall u :: u in s.uvhead ==> u in s.heap && IsOpen(s.heap[u]))
  }

  ghost predicate Anchors(s: State) {
    && s.main in s.heap && s.heap[s.main].Thread? && s.main in s.fixed
    && s.running in s.heap && s.heap[s.running].Thread?
    && (forall r :: r in s.fixed ==> r in s.heap && (r == s.main || s.heap[r].Str?))
  }

  ghost predicate Structure(s: State, out: set<Ref>) {
    Keyed(s) && RootList(s, out) && StringTable(s) && OpenLists(s) && Anchors(s)
  }

  predicate Live(s: State, r: Ref) { r in s.heap && r in s.color && s.color[r] != White(!s.cw) }

  /** Roots are not dead, and nothing that is not dead refers to a dead or freed object. */
  ghost predicate Alive(s: State) {
    && (forall r :: r in Roots(s) ==> Live(s, r))
    && (forall r, q :: Live(s, r) && Points(s.heap, r, q) ==> Live(s, q))
  }

  ghost predicate CurrentWhite(s: State, r: Ref) { r in s.color && s.color[r] == White(s.cw) }

  ghost predicate AllCurrent(s: State) { forall r :: r in s.heap ==> CurrentWhite(s, r) }

  ghost predicate NoDead(s: State) { forall r :: r in s.color ==> s.color[r] != White(!s.cw) }

  /** The mark phase: tri-colour, no dead objects, and the roots of markroot are marked. */
  ghost predicate Marking(s: State) {
    && Tricolor(s) && NoDead(s)
    && IsMarked(s.color, s.main)
    && (s.registry.Obj? ==> IsMarked(s.color, s.registry.ref))
  }

  ghost predicate AheadInRoot(s: State, r: Ref) { exists i :: s.sweepAt <= i < |s.rootgc| && s.rootgc[i] == r }

  ghost predicate AheadInStrings(s: State, r: Ref) {
    s.phase == SweepString && exists i :: s.sweepStr <= i < |s.strt| && r in s.strt[i]
  }

  /** The sweep will still come to `r`. */
  ghost predicate Ahead(s: State, r: Ref) {
    || AheadInStrings(s, r)
    || AheadInRoot(s, r)
    || (r in s.heap && IsOpen(s.heap[r]) && AheadInRoot(s, s.heap[r].home.thread))
  }

  /** Every object is in the current white or still ahead of the sweep. */
  ghost predicate Swept(s: State, out: set<Ref>) {
    forall r :: r in s.heap && r !in out ==> CurrentWhite(s, r) || Ahead(s, r)
  }

  ghost predicate PhaseOk(s: State, out: set<Ref>) {
    match s.phase
    case Pause => AllCurrent(s)
    case Propagate => Marking(s)
    case SweepString => s.sweepAt == 0 && s.sweepStr < |s.strt| && Swept(s, out)
    case Sweep => Swept(s, out)
    case Finalize => AllCurrent(s)
  }

  ghost predicate Inv(s: State) { Structure(s, {}) && Alive(s) && PhaseOk(s, {}) }

  // ---------------------------------------------------------------- reachable means live

  /** The program can get at `r` from the roots. */
  ghost predicate Reached(s: State, r: Ref) { Reachable(s.heap, Roots(s), r) }

  /** In every state that satisfies the invariant, what the program can reach is allocated and not dead. */
  lemma ReachableLive(s: State, r: Ref)
    requires Alive(s) && Keyed(s)
    requires Reachable(s.heap, Roots(s), r)
    ensures Live(s, r)
  {
    var p :| PathTo(s.heap, Roots(s), p, r);
    var live := set x | x in s.heap && Live(s, x);
    ReachableWithin(s.heap, Roots(s), p, r, live);
  }

  // ---------------------------------------------------------------- marking keeps the structure

  lemma MarkFrameStructure(s: State, s': State)
    requires Structure(s, {}) && MarkFrame(s, s') && Tricolor(s')
    ensures Structure(s', {})
  {
    assert forall r :: r in s.heap ==> Like(s.heap[r], s'.heap[r]);
    MarkFrameLists(s, s');
    MarkFrameOpen(s, s');
  }

  lemma MarkFrameLists(s: State, s': State)
    requires Structure(s, {}) && MarkFrame(s, s')
    ensures RootList(s', {}) && StringTable(s') && Anchors(s')
  {
    assert forall r :: r in s.heap ==> Like(s.heap[r], s'.heap[r]);
    assert forall r :: Ordinary(s'.heap, r) <==> Ordinary(s.heap, r);
    assert forall r :: r in s.heap ==> (s.heap[r].Str? <==> s'.heap[r].Str?);
  }

  lemma MarkFrameOpen(s: State, s': State)
    requires OpenLists(s) && MarkFrame(s, s') && Tricolor(s')
    ensures OpenLists(s')
  {
    assert forall r :: r in s.heap ==> Like(s.heap[r], s'.heap[r]);
    forall u ensures UpvalOk(s', u) {
      assert UpvalOk(s, u) && ShapeOk(s'.heap, s'.color, u);
    }
    forall th ensures ThreadOk(s', th) {
      assert ThreadOk(s, th);
      assert forall u :: Slot(s'.heap, u) == Slot(s.heap, u);
    }
  }

  /** While nothing is dead, `Alive` only says that no reference dangles, and marking keeps that. */
  lemma MarkFrameAlive(s: State, s': State)
    requires Alive(s) && NoDead(s) && MarkFrame(s, s')
    ensures Alive(s') && NoDead(s')
  {
    forall r | r in s'.color ensures s'.color[r] != White(!s'.cw) {
      if IsWhite(s'.color, r) { assert !IsMarked(s.color, r); assert IsWhite(s.color, r); }
    }
    assert Roots(s') == Roots(s);
    forall r | r in s.heap ensures Live(s', r) && Live(s, r) { assert r in s.color && r in s'.color; }
    forall r, q | Live(s', r) && Points(s'.heap, r, q) ensures Live(s', q) {
      assert Points(s.heap, r, q) && Live(s, r);
      assert Live(s, q);
    }
  }

  lemma PropagateMarkInv(s: State)
    requires Inv(s) && s.phase == Propagate && s.gray != []
    ensures Inv(PropagateMark(s))
  {
    var s' := PropagateMark(s);
    PropagateMarkTricolor(s);
    PropagateMarkFrame(s);
    MarkFrameStructure(s, s');
    MarkFrameAlive(s, s');
  }

  // ---------------------------------------------------------------- markroot

  lemma AliveNoDangle(s: State)
    requires Keyed(s) && Alive(s) && NoDead(s)
    ensures NoDangle(s.heap)
  {
    forall r, q | Points(s.heap, r, q) ensures q in s.heap { assert Live(s, r); assert Live(s, q); }
  }

  /** With every object in the current white and the lists empty there is nothing to violate. */
  lemma BlankTricolor(s: State)
    requires Structure(s, {}) && Alive(s) && AllCurrent(s) && s.gray == [] && s.grayagain == [] && s.weak == []
    ensures Tricolor(s) && NoDead(s)
  {
    forall r ensures ShapeOk(s.heap, s.color, r) && BlackOk(s.heap, s.color, r) && !OnList(s, r) {
      if r in s.heap { assert CurrentWhite(s, r); }
    }
    forall r | r in s.color ensures s.color[r] != White(!s.cw) { assert r in s.heap; assert CurrentWhite(s, r); }
    AliveNoDangle(s);
  }

  /** markroot may start wherever every object is in the current white. */
  lemma MarkRootInv(s: State)
    requires Structure(s, {}) && Alive(s) && AllCurrent(s)
    ensures Inv(MarkRoot(s)) && MarkRoot(s).phase == Propagate
  {
    var s0 := s.(gray := [], grayagain := [], weak := []);
    PhaseOnly(s, s0);
    BlankTricolor(s0);
    var vs := RootValues(s);
    TricolorSettled(s0);
    MarkMore(s0, vs, true, true, true);
    var s1 := WithMarks(s0, MarkVals(s0.heap, MarksOf(s0), vs));
    MarkFrameStructure(s0, s1);
    MarkFrameAlive(s0, s1);
    RootsMarked(s1, vs);
    EnterPropagate(s1);
  }

  lemma EnterPropagate(s: State)
    requires Structure(s, {}) && Alive(s) && Marking(s)
    ensures Inv(s.(phase := Propagate))
  {
    var s' := s.(phase := Propagate);
    PhaseOnly(s, s');
    assert forall r :: OnList(s', r) <==> OnList(s, r);
  }

  lemma RootsMarked(s: State, vs: seq<Val>)
    requires Alive(s) && Keyed(s) && Obj(s.main) in vs && s.registry in vs && ValsMarked(s, vs)
    ensures IsMarked(s.color, s.main) && (s.registry.Obj? ==> IsMarked(s.color, s.registry.ref))
  {
    assert s.main in Roots(s);
    assert Live(s, s.main) && Obj(s.main).Obj?;
    if s.registry.Obj? { assert s.registry in [s.registry]; assert s.registry.ref in Roots(s); assert Live(s, s.registry.ref); }
  }

  /** Structure and liveness do not depend on the phase or on the gray lists. */
  lemma PhaseOnly(s: State, s': State)
    requires Structure(s, {}) && Alive(s)
    requires s' == s.(phase := s'.phase, gray := s'.gray, grayagain := s'.grayagain, weak := s'.weak)
    ensures Structure(s', {}) && Alive(s')
  {
    assert Roots(s') == Roots(s);
    assert forall r :: Live(s', r) <==> Live(s, r);
    assert forall u :: UpvalOk(s, u) ==> UpvalOk(s', u);
    assert forall th :: ThreadOk(s, th) ==> ThreadOk(s', th);
  }

  // ---------------------------------------------------------------- atomic

  /** Just before atomic flips the white, the marks are closed under references. */
  lemma AtomicMarks(s: State)
    requires Structure(s, {}) && Marking(s)
    ensures var s' := FinishMarking(s);
      && MarkFrame(s, s') && MarkedClosed(s')
      && (forall u :: u in s'.heap && IsOpen(s'.heap[u]) ==> s'.color[u] != Black)
      && ValsMarked(s', [Obj(s.running)] + s.mt)
  {
    forall u | u in s.heap && IsOpen(s.heap[u]) ensures u in s.uvhead { assert UpvalOk(s, u); }
    MarkRestOk(s);
    ClearTablesOk(MarkRest(s), MarkRest(s).weak);
    ClearedMarks(s, MarkRest(s), FinishMarking(s));
  }

  lemma ClearedMarks(s: State, s1: State, s': State)
    requires Tricolor(s1) && s1.gray == [] && Settled(s1, false, false, false) && AgainThreads(s1)
    requires MarkFrame(s, s1) && ValsMarked(s1, [Obj(s.running)] + s.mt)
    requires Cleared(s1, s') && forall t :: t in s1.weak ==> EntriesClean(s', t)
    ensures MarkFrame(s, s') && MarkedClosed(s')
    ensures forall u :: u in s'.heap && IsOpen(s'.heap[u]) ==> s'.color[u] != Black
    ensures ValsMarked(s', [Obj(s.running)] + s.mt)
  {
    ClearedClosed(s1, s');
    MarkFrameTrans(s, s1, s');
    forall u | u in s'.heap && IsOpen(s'.heap[u]) ensures s'.color[u] != Black {
      assert Like(s1.heap[u], s'.heap[u]);
      assert ShapeOk(s1.heap, s1.color, u);
    }
  }

  /** Flipping the white turns "marked" into "not dead". */
  lemma FlipAlive(s: State)
    requires Keyed(s) && NoDead(s) && Alive(s) && MarkedClosed(s)
    requires forall r :: r in Roots(s) ==> IsMarked(s.color, r)
    ensures Alive(Flip(s))
  {
    var s' := Flip(s);
    assert Roots(s') == Roots(s);
    assert forall r :: Live(s', r) <==> r in s.heap && IsMarked(s.color, r);
    forall r, q | Live(s', r) && Points(s'.heap, r, q) ensures Live(s', q) {
      assert IsMarked(s.color, r) && Live(s, r);
      assert Live(s, q);
      assert KidsMarked(s.heap, s.color, r);
    }
  }

  lemma FlipStructure(s: State, s0: State)
    requires Structure(s0, {}) && MarkFrame(s0, s)
    requires forall u :: u in s.heap && IsOpen(s.heap[u]) ==> s.color[u] != Black
    ensures Structure(Flip(s), {})
  {
    var s' := Flip(s);
    MarkFrameLists(s0, s);
    assert forall r :: r in s0.heap ==> Like(s0.heap[r], s.heap[r]);
    forall u ensures UpvalOk(s', u) { assert UpvalOk(s0, u); }
    forall th ensures ThreadOk(s', th) {
      assert ThreadOk(s0, th);
      assert forall u :: Slot(s'.heap, u) == Slot(s0.heap, u);
    }
  }

  /** At the start of the sweep everything is still ahead. */
  lemma AllAhead(s: State, r: Ref)
    requires Structure(s, {}) && s.phase == SweepString && s.sweepStr == 0 && s.sweepAt == 0
    requires r in s.heap
    ensures Ahead(s, r)
  {
    if s.heap[r].Str? {
      assert InTable(s.strt, r);
    } else if IsOpen(s.heap[r]) {
      assert UpvalOk(s, r);
      assert Ordinary(s.heap, s.heap[r].home.thread);
      assert s.heap[r].home.thread in s.rootgc;
    } else {
      assert Ordinary(s.heap, r);
      assert r in s.rootgc;
    }
  }

  /** All roots are marked when marking is finished: two since markroot, the others in atomic. */
  lemma RootsFinished(s: State, s1: State)
    requires Marking(s) && Alive(s1) && MarkFrame(s, s1) && ValsMarked(s1, [Obj(s.running)] + s.mt)
    ensures forall r :: r in Roots(s1) ==> IsMarked(s1.color, r)
  {
    forall r | r in Roots(s1) ensures IsMarked(s1.color, r) {
      assert Live(s1, r);
      if r in ValRefs(s.mt) || r == s.running { assert Obj(r) in [Obj(s.running)] + s.mt; }
      else { assert IsMarked(s.color, r); }
    }
  }

  lemma AtomicInv(s: State)
    requires Inv(s) && s.phase == Propagate
    ensures Inv(Atomic(s)) && Atomic(s).phase == SweepString
  {
    AtomicMarks(s);
    var s1 := FinishMarking(s);
    MarkFrameAlive(s, s1);
    RootsFinished(s, s1);
    FlipAlive(s1);
    FlipStructure(s1, s);
    FlipSwept(Flip(s1));
  }

  lemma FlipSwept(s: State)
    requires Structure(s, {}) && s.phase == SweepString && s.sweepStr == 0 && s.sweepAt == 0
    ensures PhaseOk(s, {})
  {
    forall r | r in s.heap ensures Ahead(s, r) { AllAhead(s, r); }
  }
}
