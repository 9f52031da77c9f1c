/** luaC_fullgc: it terminates from every phase, and marks only what is reachable by strong references. */
module GcFull {
  import opened GcHeap
  import opened GcMark
  import opened GcCollect
  import opened GcTricolor
  import opened GcAtomic
  import opened GcInvariant
  import opened GcClose
  import opened GcSweep
  import opened GcFrame
  import opened GcStrong

  // ---------------------------------------------------------------- termination

  function Rank(p: Phase): nat {
    match p
    case Pause => 0
    case Finalize => 1
    case Sweep => 2
    case SweepString => 3
    case Propagate => 4
  }

  /** What is left to do within a phase. An upvalue that is closed while its thread is freed leaves
      `uvhead` and may join the part of rootgc that is still to be swept. */
  function Left(s: State): int {
    match s.phase
    case Propagate => |Whites(s.color)|
    case SweepString => |s.strt| - s.sweepStr
    case Sweep => ToSweep(s)
    case _ => 0
  }

  function ToSweep(s: State): int { |s.rootgc| - s.sweepAt + |s.uvhead| }

  lemma {:induction false} KeepShorter(l: seq<Ref>, u: Ref)
    requires u in l
    ensures |Keep(l, {u})| < |l|
  {
    if l[0] != u { assert u in l[1..]; KeepShorter(l[1..], u); }
  }

  lemma CloseHeadLeft(s: State, th: Ref)
    requires InvOut(s, {th}) && s.phase == Sweep && HasOpen(s, th, 0)
    ensures ToSweep(CloseHead(s, th)) <= ToSweep(s)
  {
    assert UpvalOk(s, HeadOf(s, th));
    KeepShorter(s.uvhead, HeadOf(s, th));
    CloseHeadSplit(s, th);
  }

  lemma {:induction false} CloseAllLeft(s: State, r: Ref)
    requires InvOut(s, {r}) && s.phase == Sweep && r in s.heap && r !in s.fixed && !Live(s, r)
    ensures ToSweep(CloseUpvals(s, r, 0)) <= ToSweep(s)
    decreases if s.heap[r].Thread? then |s.heap[r].openUpvals| else 0
  {
    if HasOpen(s, r, 0) {
      CloseHeadThread(s, r);
      CloseHeadInv(s, r, {r});
      CloseHeadOther(s, r);
      CloseHeadLeft(s, r);
      CloseAllLeft(CloseHead(s, r), r);
    }
  }

  lemma SettleLeft(s: State)
    requires Inv(s) && s.phase == Sweep && s.sweepAt < |s.rootgc| && UpvalsSwept(s, s.rootgc[s.sweepAt])
    ensures ToSweep(Settle(s)) < ToSweep(s)
  {
    var r := s.rootgc[s.sweepAt];
    assert r in s.rootgc;
    assert Ordinary(s.heap, r);
    if Doomed(s, r) {
      UnlinkInv(s);
      CloseAllLeft(Unlink(s), r);
    }
  }

  lemma SweepOneLeft(s: State)
    requires Inv(s) && s.phase == Sweep && s.sweepAt < |s.rootgc|
    ensures ToSweep(SweepOne(s)) < ToSweep(s)
  {
    NestedInv(s);
    SettleLeft(Nested(s));
    var r := s.rootgc[s.sweepAt];
    if r in s.heap && s.heap[r].Thread? { SweepOpenFacts(s, r); }
  }

  lemma LeftKept(p: State -> bool)
    requires forall x :: p(x) <==> Inv(x) && x.phase == Sweep
    ensures forall x {:trigger SweepBody(x)} :: p(x) && More(x) ==> p(SweepBody(x)) && ToSweep(SweepBody(x)) < ToSweep(x)
  {
    forall x | p(x) && More(x) ensures p(SweepBody(x)) && ToSweep(SweepBody(x)) < ToSweep(x) {
      SweepOneInv(x);
      SweepOneLeft(x);
    }
  }

  lemma SweepListLeft(s: State, n: nat)
    requires Inv(s) && s.phase == Sweep && s.sweepAt < |s.rootgc| && n > 0
    ensures ToSweep(SweepList(s, n)) < ToSweep(s)
  {
    var p := (x: State) => Inv(x) && x.phase == Sweep;
    LeftKept(p);
    IterateLess(SweepBody, s, n, p, ToSweep);
  }

  /** Every step out of a phase other than Pause moves the cycle forward. */
  lemma StepProgress(s: State)
    requires Inv(s) && s.phase != Pause
    ensures var s' := SingleStep(s);
      || Rank(s'.phase) < Rank(s.phase)
      || (s'.phase == s.phase && Left(s) >= 0 && (Left(s') < Left(s) || (Left(s') == Left(s) && |s'.gray| < |s.gray|)))
  {
    if s.phase == Sweep {
      if s.sweepAt < |s.rootgc| { SweepListLeft(s, SWEEP_MAX); SweepListInv(s, SWEEP_MAX); }
    }
  }

  /** The loops of luaC_fullgc: singlestep until a phase is reached. */
  ghost function RunTo(s: State, stop: Phase): (s': State)
    requires Inv(s) && (stop == Pause || (stop == Finalize && s.phase != Pause))
    ensures Inv(s') && s'.phase == stop
    decreases Rank(s.phase), Left(s), |s.gray|
  {
    if s.phase == stop then s
    else
      SingleStepInv(s); StepProgress(s); NotPastFinalize(s);
      RunTo(SingleStep(s), stop)
  }

  lemma NotPastFinalize(s: State)
    requires Inv(s) && s.phase != Pause
    ensures SingleStep(s).phase == Pause ==> s.phase == Finalize
  {
    if s.phase == Sweep { SweepListInv(s, SWEEP_MAX); }
  }

  /** luaC_fullgc's opening: a mark phase that has begun is abandoned without flipping the white. */
  function StartSweep(s: State): State {
    if s.phase == Pause || s.phase == Propagate
    then s.(sweepStr := 0, sweepAt := 0, gray := [], grayagain := [], weak := [], phase := SweepString)
    else s
  }

  lemma StartSweepInv(s: State)
    requires Inv(s)
    ensures Inv(StartSweep(s)) && StartSweep(s).phase != Pause && StartSweep(s).phase != Propagate
    ensures StartSweep(s).heap == s.heap && Roots(StartSweep(s)) == Roots(s)
    ensures s.phase == Pause || s.phase == Propagate ==> NoDead(StartSweep(s))
  {
    var s' := StartSweep(s);
    if s.phase == Pause || s.phase == Propagate {
      assert Roots(s') == Roots(s);
      assert forall r :: Live(s', r) <==> Live(s, r);
      forall u ensures UpvalOk(s', u) { assert UpvalOk(s, u); }
      forall th ensures ThreadOk(s', th) { assert ThreadOk(s, th); }
      FlipSwept(s');
      forall r | r in s.color ensures s.color[r] != White(!s.cw) {
        if s.phase == Pause { assert r in s.heap; assert CurrentWhite(s, r); }
      }
    }
  }

  /** luaC_fullgc */
  ghost function FullGc(s: State): (s': State)
    requires Inv(s)
    ensures Inv(s') && s'.phase == Pause
  {
    StartSweepInv(s);
    var s1 := RunTo(StartSweep(s), Finalize);
    MarkRootInv(s1);
    RunTo(MarkRoot(s1), Pause)
  }

  // ---------------------------------------------------------------- marking reaches only the reachable

  /** If `p` holds of everything marked and is closed under references, marking a value of `p`
      keeps it so. */
  lemma {:induction false} MarkValWithin(h: Heap, m: Marks, v: Val, p: Ref -> bool)
    requires h.Keys == m.color.Keys
    requires forall r :: IsMarked(m.color, r) ==> p(r)
    requires ClosedSet(h, p)
    requires v.Obj? ==> p(v.ref)
    ensures forall r :: IsMarked(MarkVal(h, m, v).color, r) ==> p(r)
    decreases |Whites(m.color)|, 0
  {
    if v.Obj? && IsWhite(m.color, v.ref) {
      var r := v.ref;
      FewerWhites(m.color, r, Gray); FewerWhites(m.color, r, Black);
      if h[r].Udata? {
        var m0 := m.(color := m.color[r := Black]);
        assert forall x :: IsMarked(m0.color, x) ==> IsMarked(m.color, x) || x == r;
        var kids := [h[r].meta, h[r].env];
        assert forall k :: k in kids && k.Obj? ==> Holds(h, r, k.ref);
        MarkValsWithin(h, m0, kids, p);
      } else if h[r].UpVal? {
        var m0 := m.(color := m.color[r := Gray]);
        assert forall x :: IsMarked(m0.color, x) ==> IsMarked(m.color, x) || x == r;
        var kids := [UpValue(h, h[r].home)];
        assert forall k :: k in kids && k.Obj? ==> Holds(h, r, k.ref);
        MarkValsWithin(h, m0, kids, p);
        var m1 := MarkVals(h, m0, kids);
        assert forall x :: IsMarked(m1.color[r := Black], x) ==> IsMarked(m1.color, x) || x == r;
      } else {
        assert forall x :: IsMarked(MarkVal(h, m, v).color, x) ==> IsMarked(m.color, x) || x == r;
      }
    }
  }

  lemma {:induction false} MarkValsWithin(h: Heap, m: Marks, vs: seq<Val>, p: Ref -> bool)
    requires h.Keys == m.color.Keys
    requires forall r :: IsMarked(m.color, r) ==> p(r)
    requires ClosedSet(h, p)
    requires forall v :: v in vs && v.Obj? ==> p(v.ref)
    ensures forall r :: IsMarked(MarkVals(h, m, vs).color, r) ==> p(r)
    decreases |Whites(m.color)|, 1 + |vs|
  {
    if vs != [] {
      MarkValWithin(h, m, vs[0], p);
      MarkValsWithin(h, MarkVal(h, m, vs[0]), vs[1..], p);
    }
  }

  lemma KidsHeld(h: Heap, o: Ref, q: Ref)
    requires o in h && Traversable(h[o]) && Obj(q) in Kids(h[o])
    ensures Holds(h, o, q)
  {
  }

  ghost predicate MarkedIn(s: State, p: Ref -> bool) { forall r :: IsMarked(s.color, r) ==> p(r) }

  /** Everything that an object of `p` refers to strongly is in `p`. */
  ghost predicate ClosedSet(h: Heap, p: Ref -> bool) { forall r, q :: p(r) && Holds(h, r, q) ==> p(q) }

  lemma PrunedHolds(h: Heap, o: Ref, r: Ref, q: Ref)
    requires o in h
    ensures Holds(h[o := Pruned(h[o])], r, q) <==> Holds(h, r, q)
  {
    PrunedKids(h[o]);
    PrunedPoints(h, o, r, q);
  }

  lemma PropagateMarkWithin(s: State, p: Ref -> bool)
    requires Tricolor(s) && s.gray != [] && MarkedIn(s, p) && ClosedSet(s.heap, p)
    ensures MarkedIn(PropagateMark(s), p) && ClosedSet(PropagateMark(s).heap, p)
  {
    var o, s' := s.gray[0], PropagateMark(s);
    assert OnList(s, o);
    assert IsMarked(s.color, o);
    var h, m0 := s'.heap, Popped(s);
    forall r, q | p(r) && Holds(h, r, q) ensures p(q) { PrunedHolds(s.heap, o, r, q); }
    forall v | v in Kids(s.heap[o]) && v.Obj? ensures p(v.ref) { KidsHeld(s.heap, o, v.ref); }
    assert forall r :: IsMarked(m0.color, r) ==> IsMarked(s.color, r);
    MarkValsWithin(h, m0, Kids(s.heap[o]), p);
    var m := MarkVals(h, m0, Kids(s.heap[o]));
    assert forall r :: IsMarked(s'.color, r) ==> IsMarked(m.color, r) || r == o;
  }

  lemma {:induction false} PropagateAllWithin(s: State, p: Ref -> bool)
    requires Tricolor(s) && MarkedIn(s, p) && ClosedSet(s.heap, p)
    ensures MarkedIn(PropagateAll(s), p) && ClosedSet(PropagateAll(s).heap, p)
    decreases |Whites(s.color)|, |s.gray|
  {
    if s.gray != [] {
      PropagateMarkWithin(s, p);
      PropagateMarkTricolor(s);
      PropagateAllWithin(PropagateMark(s), p);
    }
  }

  lemma {:induction false} RemarkWithin(h: Heap, m: Marks, uvs: seq<Ref>, p: Ref -> bool)
    requires h.Keys == m.color.Keys && ClosedSet(h, p)
    requires forall r :: IsMarked(m.color, r) ==> p(r)
    ensures forall r :: IsMarked(RemarkUpvals(h, m, uvs).color, r) ==> p(r)
    decreases |uvs|
  {
    if uvs != [] {
      var u := uvs[0];
      if GrayUpval(h, m.color, u) {
        assert IsMarked(m.color, u);
        assert UpValue(h, h[u].home).Obj? ==> Holds(h, u, UpValue(h, h[u].home).ref);
        MarkValWithin(h, m, UpValue(h, h[u].home), p);
      }
      RemarkWithin(h, Remark(h, m, u), uvs[1..], p);
    }
  }

  lemma FirstRoundWithin(s: State, p: Ref -> bool)
    requires Tricolor(s) && UvheadFull(s) && MarkedIn(s, p) && ClosedSet(s.heap, p)
    ensures MarkedIn(FirstRound(s), p) && ClosedSet(FirstRound(s).heap, p)
  {
    RemarkSettled(s);
    RemarkWithin(s.heap, MarksOf(s), s.uvhead, p);
    PropagateAllWithin(WithMarks(s, RemarkUpvals(s.heap, MarksOf(s), s.uvhead)), p);
  }

  lemma SecondRoundWithin(s: State, p: Ref -> bool)
    requires Tricolor(s) && s.gray == [] && Settled(s, true, true, false) && MarkedIn(s, p) && ClosedSet(s.heap, p)
    requires p(s.running) && forall v :: v in s.mt && v.Obj? ==> p(v.ref)
    ensures MarkedIn(SecondRound(s), p) && ClosedSet(SecondRound(s).heap, p)
  {
    var s2 := s.(gray := s.weak, weak := []);
    MoveLists(s, s2, false);
    var vs := [Obj(s2.running)] + s2.mt;
    MarkMore(s2, vs, true, false, false);
    assert forall v :: v in vs && v.Obj? ==> p(v.ref);
    MarkValsWithin(s2.heap, MarksOf(s2), vs, p);
    PropagateAllWithin(WithMarks(s2, MarkVals(s2.heap, MarksOf(s2), vs)), p);
  }

  lemma LastRoundWithin(s: State, p: Ref -> bool)
    requires Tricolor(s) && s.gray == [] && Settled(s, true, false, false) && MarkedIn(s, p) && ClosedSet(s.heap, p)
    ensures MarkedIn(LastRound(s), p)
  {
    var s1 := s.(gray := s.grayagain, grayagain := []);
    MoveLists(s, s1, true);
    PropagateAllWithin(s1, p);
  }

  /** Marking to the end stays within a closed set that holds the roots. */
  lemma MarkRestWithin(s: State, p: Ref -> bool)
    requires Tricolor(s) && UvheadFull(s) && MarkedIn(s, p) && ClosedSet(s.heap, p)
    requires p(s.running) && forall v :: v in s.mt && v.Obj? ==> p(v.ref)
    ensures MarkedIn(MarkRest(s), p)
  {
    FirstRoundOk(s);
    FirstRoundWithin(s, p);
    SecondRoundOk(FirstRound(s));
    SecondRoundWithin(FirstRound(s), p);
    LastRoundWithin(SecondRound(FirstRound(s)), p);
  }
}
