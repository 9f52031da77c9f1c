/** luaF_close keeps the machine's invariant in every phase: it is called by the running program
    and, through luaE_freethread, by the sweep. */
module GcClose {
  import opened GcHeap
  import opened GcMark
  import opened GcCollect
  import opened GcTricolor
  import opened GcAtomic
  import opened GcInvariant

  function HeadOf(s: State, th: Ref): Ref
    requires HasOpen(s, th, 0)
  {
    s.heap[th].openUpvals[0]
  }

  /** The state after the head upvalue of `th` has left the open lists, still open. */
  function Unlinked(s: State, th: Ref): State
    requires HasOpen(s, th, 0)
  {
    s.(heap := s.heap[th := s.heap[th].(openUpvals := s.heap[th].openUpvals[1..])],
       uvhead := Keep(s.uvhead, {HeadOf(s, th)}))
  }

  /** The state after a live upvalue has been closed and linked, before luaC_linkupval looks at its colour. */
  function Closing(s: State, th: Ref): State
    requires HasOpen(s, th, 0)
  {
    var u := HeadOf(s, th);
    var s1 := Unlinked(s, th);
    LinkFront(s1.(heap := s1.heap[u := UpVal(Closed(UpValue(s.heap, s.heap[u].home)))]), u)
  }

  /** The state after a dead upvalue has been freed instead. */
  function Freed(s: State, th: Ref): State
    requires HasOpen(s, th, 0)
  {
    var u := HeadOf(s, th);
    var s1 := Unlinked(s, th);
    s1.(heap := s1.heap - {u}, color := s1.color - {u})
  }

  /** Closing copies the slot's value, so no reference changes. */
  lemma ClosingPoints(s: State, th: Ref, x: Ref, q: Ref)
    requires HasOpen(s, th, 0)
    ensures Points(Closing(s, th).heap, x, q) <==> Points(s.heap, x, q)
  {
  }

  lemma FreedPoints(s: State, th: Ref, x: Ref, q: Ref)
    requires HasOpen(s, th, 0)
    ensures Points(Freed(s, th).heap, x, q) <==> Points(s.heap, x, q) && x != HeadOf(s, th)
  {
  }

  // ---------------------------------------------------------------- structure

  lemma HeadUnique(s: State, th: Ref)
    requires ThreadOk(s, th) && HasOpen(s, th, 0)
    ensures HeadOf(s, th) !in s.heap[th].openUpvals[1..]
    ensures forall u :: u in s.heap[th].openUpvals <==> u == HeadOf(s, th) || u in s.heap[th].openUpvals[1..]
  {
    var l := s.heap[th].openUpvals;
    assert forall j :: 0 <= j < |l[1..]| ==> l[1..][j] == l[j + 1] && Slot(s.heap, l[0]) > Slot(s.heap, l[1..][j]);
  }

  /** Leaving the open lists is what closing and freeing have in common. */
  lemma LeaveLists(s: State, th: Ref, s': State)
    requires OpenLists(s) && Keyed(s) && Keyed(s') && HasOpen(s, th, 0)
    requires s'.uvhead == Keep(s.uvhead, {HeadOf(s, th)})
    requires HeadOf(s, th) in s'.heap ==> s'.heap[HeadOf(s, th)].UpVal? && s'.heap[HeadOf(s, th)].home.Closed?
    requires forall r :: r != HeadOf(s, th) ==> (r in s'.heap <==> r in s.heap)
    requires forall r :: r in s.heap && r != HeadOf(s, th) ==> s'.heap[r] == Unlinked(s, th).heap[r] && s'.color[r] == s.color[r]
    ensures OpenLists(s')
  {
    var u := HeadOf(s, th);
    assert ThreadOk(s, th);
    HeadUnique(s, th);
    forall x ensures UpvalOk(s', x) { assert UpvalOk(s, x); }
    forall t ensures ThreadOk(s', t) {
      assert ThreadOk(s, t);
      if t in s'.heap && s'.heap[t].Thread? { ListSurvives(s, th, s', t); }
    }
  }

  lemma ListSurvives(s: State, th: Ref, s': State, t: Ref)
    requires ThreadOk(s, t) && HasOpen(s, th, 0) && ThreadOk(s, th)
    requires t in s'.heap && t in s.heap && s'.heap[t].Thread? && s'.heap[t] == Unlinked(s, th).heap[t]
    requires forall r :: r != HeadOf(s, th) ==> (r in s'.heap <==> r in s.heap)
    requires forall r :: r in s.heap && r != HeadOf(s, th) && r in s'.heap ==> s'.heap[r] == Unlinked(s, th).heap[r]
    ensures ThreadOk(s', t)
  {
    var u, l, l' := HeadOf(s, th), s.heap[t].openUpvals, s'.heap[t].openUpvals;
    HeadUnique(s, th);
    assert l' == if t == th then l[1..] else l;
    assert u !in l' by { assert s.heap[u].home.thread == th; }
    forall x | x in l' ensures x in s'.heap && s'.heap[x] == s.heap[x] {
      assert x in l;
      assert x in s.heap && IsOpen(s.heap[x]);
    }
    forall i, j | 0 <= i < j < |l'| ensures Slot(s'.heap, l'[i]) > Slot(s'.heap, l'[j]) {
      assert l'[i] in l' && l'[j] in l';
      if t == th { assert l[i + 1] == l'[i] && l[j + 1] == l'[j]; }
    }
  }

  lemma ClosingStructure(s: State, th: Ref, out: set<Ref>)
    requires Structure(s, out) && HasOpen(s, th, 0) && out <= s.heap.Keys && (forall r :: r in out ==> Ordinary(s.heap, r))
    ensures Structure(Closing(s, th), out)
  {
    var s', u := Closing(s, th), HeadOf(s, th);
    LeaveLists(s, th, s');
    assert forall r :: Ordinary(s'.heap, r) <==> Ordinary(s.heap, r) || r == u;
    assert forall r :: r in s'.rootgc <==> r in s.rootgc || r == u;
    assert u !in s.rootgc by { assert !Ordinary(s.heap, u); }
    ConsNoDup(u, s.rootgc);
    assert forall r :: r in s'.heap && s'.heap[r].Str? <==> r in s.heap && s.heap[r].Str?;
  }

  lemma FreedStructure(s: State, th: Ref, out: set<Ref>)
    requires Structure(s, out) && HasOpen(s, th, 0)
    ensures Structure(Freed(s, th), out)
  {
    var s', u := Freed(s, th), HeadOf(s, th);
    LeaveLists(s, th, s');
    assert forall r :: Ordinary(s'.heap, r) <==> Ordinary(s.heap, r);
    assert forall r :: r in s'.heap && s'.heap[r].Str? <==> r in s.heap && s.heap[r].Str?;
  }

  // ---------------------------------------------------------------- liveness and phases

  lemma ClosingAlive(s: State, th: Ref)
    requires Alive(s) && HasOpen(s, th, 0)
    ensures Alive(Closing(s, th))
  {
    var s' := Closing(s, th);
    assert Roots(s') == Roots(s);
    assert forall r :: Live(s', r) <==> Live(s, r);
    forall r, q | Live(s', r) && Points(s'.heap, r, q) ensures Live(s', q) { ClosingPoints(s, th, r, q); }
  }

  lemma FreedAlive(s: State, th: Ref)
    requires Alive(s) && HasOpen(s, th, 0) && IsDead(s, HeadOf(s, th))
    ensures Alive(Freed(s, th))
  {
    var s' := Freed(s, th);
    assert Roots(s') == Roots(s);
    assert forall r :: Live(s', r) <==> Live(s, r);
    forall r, q | Live(s', r) && Points(s'.heap, r, q) ensures Live(s', q) { FreedPoints(s, th, r, q); }
  }

  lemma LinkAhead(s: State, th: Ref, r: Ref)
    requires HasOpen(s, th, 0) && r in s.heap && r != HeadOf(s, th) && Ahead(s, r)
    ensures Ahead(Closing(s, th), r) && Ahead(Freed(s, th), r)
  {
    var s' := Closing(s, th);
    forall x | AheadInRoot(s, x) ensures AheadInRoot(s', x) {
      var i :| s.sweepAt <= i < |s.rootgc| && s.rootgc[i] == x;
      assert s'.rootgc[i + 1] == x;
    }
  }

  lemma FreedPhase(s: State, th: Ref, out: set<Ref>)
    requires Keyed(s) && HasOpen(s, th, 0) && PhaseOk(s, out) && IsDead(s, HeadOf(s, th))
    ensures PhaseOk(Freed(s, th), out)
  {
    var s', u := Freed(s, th), HeadOf(s, th);
    assert s.phase == SweepString || s.phase == Sweep by {
      assert AllCurrent(s) ==> CurrentWhite(s, u);
    }
    forall r | r in s'.heap && r !in out ensures CurrentWhite(s', r) || Ahead(s', r) {
      if Ahead(s, r) { LinkAhead(s, th, r); }
    }
  }

  /** Outside the mark phase a closed upvalue ends up in the current white. */
  lemma ClosingSwept(s: State, th: Ref, out: set<Ref>)
    requires Keyed(s) && HasOpen(s, th, 0) && PhaseOk(s, out) && s.phase != Propagate
    requires !IsDead(s, HeadOf(s, th)) && s.color[HeadOf(s, th)] != Black
    ensures PhaseOk(LinkColor(Closing(s, th), HeadOf(s, th)), out)
  {
    var s1, u := Closing(s, th), HeadOf(s, th);
    var s' := LinkColor(s1, u);
    assert CurrentWhite(s', u);
    if s.phase == SweepString || s.phase == Sweep {
      forall r | r in s'.heap && r !in out && r != u ensures CurrentWhite(s', r) || Ahead(s', r) {
        if Ahead(s, r) {
          LinkAhead(s, th, r);
          assert forall x :: AheadInRoot(s1, x) <==> AheadInRoot(s', x);
        }
      }
    } else {
      assert forall r :: r in s.heap ==> CurrentWhite(s, r);
      assert AllCurrent(s');
    }
  }

  /** luaC_linkupval after the linking itself. */
  function LinkColor(s: State, u: Ref): (s': State)
    requires Keyed(s) && u in s.heap && s.heap[u].UpVal?
    ensures Keyed(s')
  {
    if s.color[u] != Gray then s
    else if s.phase == Propagate then Barrier(s.(color := s.color[u := Black]), u, UpValue(s.heap, s.heap[u].home))
    else s.(color := s.color[u := White(s.cw)])
  }

  lemma CloseHeadSplit(s: State, th: Ref)
    requires Keyed(s) && HasOpen(s, th, 0)
    ensures CloseHead(s, th) == if IsDead(s, HeadOf(s, th)) then Freed(s, th) else LinkColor(Closing(s, th), HeadOf(s, th))
  {
  }

  /** Recolouring changes neither structure nor liveness. */
  lemma LinkColorKeeps(s: State, u: Ref, out: set<Ref>)
    requires Structure(s, out) && Alive(s) && u in s.heap && s.heap[u].UpVal? && s.heap[u].home.Closed?
    requires !IsDead(s, u) && s.phase != Propagate
    ensures Structure(LinkColor(s, u), out) && Alive(LinkColor(s, u))
  {
    var s' := LinkColor(s, u);
    assert Roots(s') == Roots(s);
    assert forall r :: Live(s', r) <==> Live(s, r);
    forall x ensures UpvalOk(s', x) { assert UpvalOk(s, x); }
    forall t ensures ThreadOk(s', t) { assert ThreadOk(s, t); }
  }

  // ---------------------------------------------------------------- the mark phase

  /** Before its barrier runs, a just-closed gray upvalue is black with a possibly white value. */
  lemma ClosingTricolor(s: State, th: Ref)
    requires Structure(s, {}) && Marking(s) && HasOpen(s, th, 0)
    ensures var s1, u := Closing(s, th), HeadOf(s, th);
      && GrayLists(s1) && NoDead(s1)
      && (forall r :: r != u ==> ShapeOk(s1.heap, s1.color, r) && BlackOk(s1.heap, s1.color, r))
      && s1.color[u] != Black
  {
    var s1, u := Closing(s, th), HeadOf(s, th);
    assert UpvalOk(s, u);
    assert forall r :: OnList(s1, r) <==> OnList(s, r);
    forall r | r != u ensures ShapeOk(s1.heap, s1.color, r) && BlackOk(s1.heap, s1.color, r) {
      assert ShapeOk(s.heap, s.color, r) && BlackOk(s.heap, s.color, r);
      ClosingBlack(s, th, r);
    }
  }

  lemma ClosingBlack(s: State, th: Ref, r: Ref)
    requires HasOpen(s, th, 0) && BlackOk(s.heap, s.color, r)
    ensures BlackOk(Closing(s, th).heap, s.color, r)
  {
    forall q | Points(Closing(s, th).heap, r, q) ensures Points(s.heap, r, q) { ClosingPoints(s, th, r, q); }
  }

  /** The barrier of luaC_linkupval restores the invariant for the upvalue it blackened. */
  lemma LinkColorTricolor(s: State, u: Ref)
    requires Keyed(s) && s.phase == Propagate && GrayLists(s) && NoDangle(s.heap)
    requires u in s.heap && s.heap[u].UpVal? && s.heap[u].home.Closed? && s.color[u] != Black
    requires forall r :: r != u ==> ShapeOk(s.heap, s.color, r) && BlackOk(s.heap, s.color, r)
    ensures Tricolor(LinkColor(s, u)) && MarkFrame(s, LinkColor(s, u))
  {
    if s.color[u] == Gray {
      var s1 := s.(color := s.color[u := Black]);
      var v := UpValue(s.heap, s.heap[u].home);
      LinkColorMarks(s, u);
      Blackened(s, u);
      UpvalueMarked(s1, u);
      BarrierDone(s1, u, MarkVal(s.heap, MarksOf(s1), v));
      BarrierFrame(s, u, MarkVal(s.heap, MarksOf(s1), v));
    } else {
      assert forall r :: r != u ==> ShapeOk(s.heap, s.color, r);
    }
  }

  lemma LinkColorMarks(s: State, u: Ref)
    requires Keyed(s) && s.phase == Propagate && u in s.heap && s.heap[u].UpVal? && s.color[u] == Gray
    ensures var s1 := s.(color := s.color[u := Black]);
      LinkColor(s, u) == WithMarks(s1, MarkVal(s.heap, MarksOf(s1), UpValue(s.heap, s.heap[u].home)))
  {
  }

  lemma Blackened(s: State, u: Ref)
    requires Keyed(s) && GrayLists(s) && u in s.heap && s.heap[u].UpVal? && s.color[u] == Gray
    requires forall r :: r != u ==> ShapeOk(s.heap, s.color, r) && BlackOk(s.heap, s.color, r)
    ensures var s1 := s.(color := s.color[u := Black]);
      GrayLists(s1) && forall r :: r != u ==> ShapeOk(s1.heap, s1.color, r) && BlackOk(s1.heap, s1.color, r)
  {
    var s1 := s.(color := s.color[u := Black]);
    assert forall r :: OnList(s1, r) <==> OnList(s, r);
    forall r | r != u ensures ShapeOk(s.heap, s1.color, r) && BlackOk(s.heap, s1.color, r) {
      assert ShapeOk(s.heap, s.color, r) && BlackOk(s.heap, s.color, r);
    }
  }

  lemma UpvalueMarked(s: State, u: Ref)
    requires Keyed(s) && u in s.heap && s.heap[u].UpVal?
    ensures var m := MarkVal(s.heap, MarksOf(s), UpValue(s.heap, s.heap[u].home));
      Extends(s.heap, MarksOf(s), m) && KidsMarked(s.heap, m.color, u)
  {
    MarkValExtends(s.heap, MarksOf(s), UpValue(s.heap, s.heap[u].home));
  }

  lemma BarrierDone(s: State, u: Ref, m: Marks)
    requires Keyed(s) && GrayLists(s) && NoDangle(s.heap) && m.color.Keys == s.color.Keys
    requires u in s.heap && s.heap[u].UpVal? && s.heap[u].home.Closed? && s.color[u] == Black
    requires forall r :: r != u ==> ShapeOk(s.heap, s.color, r) && BlackOk(s.heap, s.color, r)
    requires Extends(s.heap, MarksOf(s), m) && KidsMarked(s.heap, m.color, u)
    ensures Tricolor(WithMarks(s, m))
  {
    ExtendLists(s, MarksOf(s), m);
    assert IsMarked(s.color, u);
    forall r ensures ShapeOk(s.heap, m.color, r) && BlackOk(s.heap, m.color, r) {
      if r != u { ExtendOk(s.heap, MarksOf(s), m, r); }
    }
  }

  lemma BarrierFrame(s: State, u: Ref, m: Marks)
    requires Keyed(s) && m.color.Keys == s.color.Keys && u in s.color && s.color[u] == Gray
    requires Keeps(s.color[u := Black], m.color)
    ensures MarkFrame(s, WithMarks(s, m))
  {
    assert forall r :: IsMarked(s.color, r) ==> IsMarked(s.color[u := Black], r);
    assert forall r :: IsWhite(s.color, r) ==> IsWhite(s.color[u := Black], r);
  }

  // ---------------------------------------------------------------- luaF_close

  ghost predicate InvOut(s: State, out: set<Ref>) {
    && Structure(s, out) && Alive(s) && PhaseOk(s, out)
    && (forall r :: r in out ==> Ordinary(s.heap, r)) && (s.phase == Propagate ==> out == {})
  }

  lemma CloseHeadInv(s: State, th: Ref, out: set<Ref>)
    requires InvOut(s, out) && HasOpen(s, th, 0)
    ensures InvOut(CloseHead(s, th), out)
  {
    var u, s1 := HeadOf(s, th), Closing(s, th);
    assert UpvalOk(s, u);
    CloseHeadSplit(s, th);
    if IsDead(s, u) {
      FreedStructure(s, th, out);
      FreedAlive(s, th);
      FreedPhase(s, th, out);
    } else {
      ClosingStructure(s, th, out);
      ClosingAlive(s, th);
      if s.phase == Propagate {
        ClosingMarking(s, th);
      } else {
        LinkColorKeeps(s1, u, out);
        ClosingSwept(s, th, out);
      }
    }
    OutStays(s, th, out);
  }

  lemma ClosingMarking(s: State, th: Ref)
    requires InvOut(s, {}) && s.phase == Propagate && HasOpen(s, th, 0)
    requires Structure(Closing(s, th), {}) && Alive(Closing(s, th))
    ensures InvOut(LinkColor(Closing(s, th), HeadOf(s, th)), {})
  {
    var u, s1 := HeadOf(s, th), Closing(s, th);
    ClosingTricolor(s, th);
    AliveNoDangle(s1);
    LinkColorTricolor(s1, u);
    MarkFrameStructure(s1, LinkColor(s1, u));
    MarkFrameAlive(s1, LinkColor(s1, u));
  }

  lemma OutStays(s: State, th: Ref, out: set<Ref>)
    requires Keyed(s) && HasOpen(s, th, 0) && forall r :: r in out ==> Ordinary(s.heap, r)
    ensures forall r :: r in out ==> Ordinary(CloseHead(s, th).heap, r)
    ensures CloseHead(s, th).phase == s.phase
  {
    CloseHeadSplit(s, th);
  }

  /** luaF_close keeps the invariant, whatever the phase and the level. */
  lemma {:induction false} CloseUpvalsInv(s: State, th: Ref, level: nat, out: set<Ref>)
    requires InvOut(s, out)
    ensures InvOut(CloseUpvals(s, th, level), out)
    decreases if th in s.heap && s.heap[th].Thread? then |s.heap[th].openUpvals| else 0
  {
    if HasOpen(s, th, level) {
      CloseHeadThread(s, th);
      CloseHeadInv(s, th, out);
      CloseUpvalsInv(CloseHead(s, th), th, level, out);
    }
  }
}
