/** What the sweep leaves behind: it frees only doomed objects and changes no surviving value. */
module GcFrame {
  import opened GcHeap
  import opened GcMark
  import opened GcCollect
  import opened GcTricolor
  import opened GcAtomic
  import opened GcInvariant
  import opened GcClose
  import opened GcSweep

  /** A surviving object as the program sees it. Only a thread's list of open upvalues may change,
      and an upvalue may have been closed, which keeps its value. */
  ghost predicate SameObject(h: Heap, h': Heap, r: Ref)
    requires r in h && r in h'
  {
    match h[r]
    case Thread(_, _, _) => h'[r].Thread? && h'[r] == h[r].(openUpvals := h'[r].openUpvals)
    case UpVal(home) => h'[r].UpVal? && UpValue(h', h'[r].home) == UpValue(h, home)
    case _ => h'[r] == h[r]
  }

  ghost predicate SweepFrame(s: State, s': State) {
    && Keyed(s) && Keyed(s')
    && s'.cw == s.cw && s'.fixed == s.fixed && s'.main == s.main && s'.running == s.running
    && s'.registry == s.registry && s'.mt == s.mt
    && (forall r :: r in s'.heap ==> r in s.heap && SameObject(s.heap, s'.heap, r))
    && (forall r :: r in s.heap && r !in s'.heap ==> Doomed(s, r))
    && (forall r :: r in s'.heap ==> s'.color[r] == s.color[r] || (s'.color[r] == White(s.cw) && !Doomed(s, r)))
  }

  lemma SamePoints(h: Heap, h': Heap, r: Ref, q: Ref)
    requires r in h && r in h' && SameObject(h, h', r)
    ensures Points(h', r, q) <==> Points(h, r, q)
  {
  }

  lemma FrameRefl(s: State)
    requires Keyed(s)
    ensures SweepFrame(s, s)
  {
  }

  lemma FrameTrans(a: State, b: State, c: State)
    requires SweepFrame(a, b) && SweepFrame(b, c)
    ensures SweepFrame(a, c)
  {
    forall r | r in c.heap ensures r in a.heap && SameObject(a.heap, c.heap, r) { assert r in b.heap; }
    forall r | r in a.heap && r !in c.heap ensures Doomed(a, r) {
      if r in b.heap { assert Doomed(b, r); }
    }
  }

  /** The sweep keeps everything live. */
  lemma FrameLive(s: State, s': State, r: Ref)
    requires SweepFrame(s, s') && Live(s, r)
    ensures Live(s', r)
  {
    assert !Doomed(s, r);
  }

  // ---------------------------------------------------------------- the pieces

  lemma CloseHeadFrame(s: State, th: Ref)
    requires InvOut(s, {th}) && s.phase == Sweep && HasOpen(s, th, 0)
    ensures SweepFrame(s, CloseHead(s, th))
  {
    CloseHeadSplit(s, th);
    assert UpvalOk(s, HeadOf(s, th));
    HeadNotFixed(s, th);
    forall r | r in s.heap ensures SameObject(s.heap, Closing(s, th).heap, r)
                               && (r in Freed(s, th).heap ==> SameObject(s.heap, Freed(s, th).heap, r)) {
      ClosedSame(s, th, r);
    }
    if IsDead(s, HeadOf(s, th)) { FreedFrame(s, th); } else { ClosingFrame(s, th); }
  }

  lemma HeadNotFixed(s: State, th: Ref)
    requires Anchors(s) && HasOpen(s, th, 0)
    ensures HeadOf(s, th) !in s.fixed
  {
  }

  lemma FreedFrame(s: State, th: Ref)
    requires Keyed(s) && HasOpen(s, th, 0) && Doomed(s, HeadOf(s, th))
    requires forall r :: r in Freed(s, th).heap ==> r in s.heap && SameObject(s.heap, Freed(s, th).heap, r)
    ensures SweepFrame(s, Freed(s, th))
  {
  }

  lemma ClosingFrame(s: State, th: Ref)
    requires Keyed(s) && HasOpen(s, th, 0) && s.phase == Sweep && !IsDead(s, HeadOf(s, th))
    requires forall r :: r in s.heap ==> SameObject(s.heap, Closing(s, th).heap, r)
    ensures SweepFrame(s, LinkColor(Closing(s, th), HeadOf(s, th)))
  {
  }

  lemma ClosedSame(s: State, th: Ref, r: Ref)
    requires OpenLists(s) && HasOpen(s, th, 0) && r in s.heap
    ensures SameObject(s.heap, Closing(s, th).heap, r)
    ensures r in Freed(s, th).heap ==> SameObject(s.heap, Freed(s, th).heap, r)
  {
    assert UpvalOk(s, r) && UpvalOk(s, HeadOf(s, th));
  }

  lemma {:induction false} CloseAllFrame(s: State, r: Ref)
    requires InvOut(s, {r}) && s.phase == Sweep && r in s.heap && r !in s.fixed && !Live(s, r)
    ensures SweepFrame(s, CloseUpvals(s, r, 0))
    decreases if s.heap[r].Thread? then |s.heap[r].openUpvals| else 0
  {
    if HasOpen(s, r, 0) {
      CloseHeadThread(s, r);
      CloseHeadInv(s, r, {r});
      CloseHeadOther(s, r);
      CloseHeadFrame(s, r);
      CloseAllFrame(CloseHead(s, r), r);
      FrameTrans(s, CloseHead(s, r), CloseUpvals(s, r, 0));
    } else {
      FrameRefl(s);
    }
  }

  lemma DropFrame(s: State, r: Ref)
    requires ToFree(s, r)
    ensures SweepFrame(s, s.(heap := s.heap - {r}, color := s.color - {r}))
  {
    var s' := s.(heap := s.heap - {r}, color := s.color - {r});
    forall x | x in s'.heap ensures SameObject(s.heap, s'.heap, x) {
      assert UpvalOk(s, x);
    }
  }

  lemma FreeObjectFrame(s: State, r: Ref)
    requires InvOut(s, {r}) && s.phase == Sweep && r in s.heap && r !in s.fixed && !Live(s, r)
    ensures SweepFrame(s, FreeObject(s, r))
  {
    CloseAll(s, r);
    CloseAllFrame(s, r);
    DropFrame(CloseUpvals(s, r, 0), r);
    FrameTrans(s, CloseUpvals(s, r, 0), FreeObject(s, r));
  }

  lemma SweepOpenSame(s: State, th: Ref, x: Ref)
    requires Structure(s, {}) && th in s.heap && s.heap[th].Thread? && x in SweepOpen(s, th).heap
    ensures x in s.heap && SameObject(s.heap, SweepOpen(s, th).heap, x)
  {
    SweepOpenFacts(s, th);
    assert UpvalOk(s, x);
  }

  lemma SweepOpenFrame(s: State, th: Ref)
    requires Structure(s, {}) && th in s.heap && s.heap[th].Thread?
    ensures SweepFrame(s, SweepOpen(s, th))
  {
    var s' := SweepOpen(s, th);
    forall x | x in s'.heap ensures x in s.heap && SameObject(s.heap, s'.heap, x) { SweepOpenSame(s, th, x); }
    SweepOpenFacts(s, th);
  }

  lemma NestedFrame(s: State)
    requires Inv(s) && s.phase == Sweep && s.sweepAt < |s.rootgc|
    ensures SweepFrame(s, Nested(s))
  {
    var r := s.rootgc[s.sweepAt];
    if r in s.heap && s.heap[r].Thread? { SweepOpenFrame(s, r); } else { FrameRefl(s); }
  }

  lemma SettleFrame(s: State)
    requires Inv(s) && s.phase == Sweep && s.sweepAt < |s.rootgc| && UpvalsSwept(s, s.rootgc[s.sweepAt])
    ensures SweepFrame(s, Settle(s))
  {
    var r := s.rootgc[s.sweepAt];
    if Doomed(s, r) {
      UnlinkInv(s);
      FreeObjectFrame(Unlink(s), r);
      UnlinkFrame(s, FreeObject(Unlink(s), r));
    } else {
      WhitenFrame(s, r);
    }
  }

  lemma UnlinkFrame(s: State, s': State)
    requires Keyed(s) && s.sweepAt < |s.rootgc| && SweepFrame(Unlink(s), s')
    ensures SweepFrame(s, s')
  {
  }

  lemma WhitenFrame(s: State, r: Ref)
    requires Keyed(s) && s.sweepAt < |s.rootgc| && r == s.rootgc[s.sweepAt] && !Doomed(s, r)
    ensures SweepFrame(s, Settle(s))
  {
  }

  lemma SweepOneFrame(s: State)
    requires Inv(s) && s.phase == Sweep && s.sweepAt < |s.rootgc|
    ensures SweepFrame(s, SweepOne(s))
  {
    NestedInv(s);
    NestedFrame(s);
    SettleFrame(Nested(s));
    FrameTrans(s, Nested(s), SweepOne(s));
  }

  lemma SweepListFrame(s: State, n: nat)
    requires Inv(s) && s.phase == Sweep
    ensures SweepFrame(s, SweepList(s, n))
  {
    var p := (x: State) => Inv(x) && x.phase == Sweep && SweepFrame(s, x);
    FrameRefl(s);
    forall x | p(x) && Keyed(x) && x.sweepAt < |x.rootgc| ensures p(SweepOne(x)) {
      SweepOneInv(x);
      SweepOneFrame(x);
      FrameTrans(s, x, SweepOne(x));
    }
    SweepListKeeps(s, n, p);
  }

  lemma SweepStringsFrame(s: State)
    requires Inv(s) && s.phase == SweepString
    ensures SweepFrame(s, SweepStrings(s))
  {
    var s', chain := SweepStrings(s), s.strt[s.sweepStr];
    forall r | r in chain ensures r in s.heap && s.heap[r].Str? { assert InTable(s.strt, r); }
    forall x | x in s'.heap ensures SameObject(s.heap, s'.heap, x) { assert UpvalOk(s, x); }
  }

  /** Every step of the sweep phases, as the program sees it. */
  lemma SweepStepFrame(s: State)
    requires Inv(s) && (s.phase == SweepString || s.phase == Sweep)
    ensures SweepFrame(s, SingleStep(s))
  {
    if s.phase == SweepString { SweepStringsFrame(s); } else { SweepListFrame(s, SWEEP_MAX); }
  }
}
