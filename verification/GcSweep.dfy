/** The sweep keeps the machine's invariant and frees only dead objects. */
module GcSweep {
  import opened GcHeap
  import opened GcMark
  import opened GcCollect
  import opened GcTricolor
  import opened GcAtomic
  import opened GcInvariant
  import opened GcClose

  /** Dropping objects that hold no stack an open upvalue points into changes no other reference. */
  lemma DropPoints(h: Heap, h': Heap, dead: set<Ref>, x: Ref, q: Ref)
    requires h' == map r | r in h && r !in dead :: h[r]
    requires forall u :: u in h' && IsOpen(h[u]) ==> h[u].home.thread !in dead
    ensures Points(h', x, q) <==> Points(h, x, q) && x !in dead
  {
  }

  // ---------------------------------------------------------------- strings

  lemma SweepStringsStructure(s: State)
    requires Structure(s, {}) && s.sweepStr < |s.strt|
    ensures Structure(SweepStrings(s), {})
  {
    var s', b := SweepStrings(s), s.sweepStr;
    var chain := s.strt[b];
    var dead := DoomedIn(s, chain);
    forall r | r in chain ensures r in s.heap && s.heap[r].Str? { assert InTable(s.strt, r); }
    assert forall r :: Ordinary(s'.heap, r) <==> Ordinary(s.heap, r);
    StringTableSwept(s);
    forall u ensures UpvalOk(s', u) { assert UpvalOk(s, u); }
    forall th ensures ThreadOk(s', th) {
      assert ThreadOk(s, th);
      assert forall u :: u in s.heap && IsOpen(s.heap[u]) ==> Slot(s'.heap, u) == Slot(s.heap, u);
    }
  }

  lemma StringTableSwept(s: State)
    requires Structure(s, {}) && s.sweepStr < |s.strt|
    ensures StringTable(SweepStrings(s))
  {
    var s', b := SweepStrings(s), s.sweepStr;
    var chain := s.strt[b];
    var dead := DoomedIn(s, chain);
    assert forall i, r :: 0 <= i < |s.strt| && r in s'.strt[i] ==> r in s.strt[i];
    forall r | InTable(s'.strt, r) ensures r in s'.heap && s'.heap[r].Str? {
      var i :| 0 <= i < |s'.strt| && r in s'.strt[i];
      assert InTable(s.strt, r);
      assert i != b ==> r !in chain;
    }
    forall r | r in s'.heap && s'.heap[r].Str? ensures InTable(s'.strt, r) {
      assert InTable(s.strt, r);
      var i :| 0 <= i < |s.strt| && r in s.strt[i];
      assert r in s'.strt[i];
    }
  }

  lemma SweepStringsAlive(s: State)
    requires Structure(s, {}) && Alive(s) && s.sweepStr < |s.strt|
    ensures Alive(SweepStrings(s))
    ensures forall r :: Live(s, r) ==> Live(SweepStrings(s), r)
  {
    var s', chain := SweepStrings(s), s.strt[s.sweepStr];
    var dead := DoomedIn(s, chain);
    assert Roots(s') == Roots(s);
    forall r | r in chain ensures r in s.heap && s.heap[r].Str? { assert InTable(s.strt, r); }
    forall u | u in s'.heap && IsOpen(s.heap[u]) ensures s.heap[u].home.thread !in dead { assert UpvalOk(s, u); }
    forall r, q | Live(s', r) && Points(s'.heap, r, q) ensures Live(s', q) {
      DropPoints(s.heap, s'.heap, dead, r, q);
      assert r !in chain;
      assert Live(s, r);
    }
  }

  lemma SweepStringsPhase(s: State)
    requires Structure(s, {}) && s.phase == SweepString && PhaseOk(s, {})
    ensures PhaseOk(SweepStrings(s), {})
  {
    var s', b := SweepStrings(s), s.sweepStr;
    var chain := s.strt[b];
    forall r | r in s'.heap ensures CurrentWhite(s', r) || Ahead(s', r) {
      if r !in chain && !CurrentWhite(s, r) {
        assert Ahead(s, r);
        assert forall x :: AheadInRoot(s, x) ==> AheadInRoot(s', x);
        if AheadInStrings(s, r) {
          var i :| s.sweepStr <= i < |s.strt| && r in s.strt[i];
          assert i > b && r in s'.strt[i];
        }
      }
    }
  }

  lemma SweepStringsInv(s: State)
    requires Inv(s) && s.phase == SweepString
    ensures Inv(SweepStrings(s))
    ensures forall r :: Live(s, r) ==> Live(SweepStrings(s), r)
  {
    SweepStringsStructure(s);
    SweepStringsAlive(s);
    SweepStringsPhase(s);
  }

  // ---------------------------------------------------------------- the open upvalues of one thread

  ghost predicate Descending(h: Heap, l: seq<Ref>) {
    forall i, j :: 0 <= i < j < |l| ==> Slot(h, l[i]) > Slot(h, l[j])
  }

  lemma {:induction false} KeepDescending(h: Heap, l: seq<Ref>, dead: set<Ref>)
    requires Descending(h, l)
    ensures Descending(h, Keep(l, dead))
    decreases |l|
  {
    if l != [] {
      KeepDescending(h, l[1..], dead);
      assert forall j :: 0 <= j < |l[1..]| ==> l[1..][j] == l[j + 1];
      ConsDescending(h, l[0], Keep(l[1..], dead));
    }
  }

  lemma ConsDescending(h: Heap, x: Ref, l: seq<Ref>)
    requires Descending(h, l) && forall u :: u in l ==> Slot(h, x) > Slot(h, u)
    ensures Descending(h, [x] + l)
  {
  }

  /** What the nested sweep of a thread's open upvalues amounts to. */
  lemma SweepOpenFacts(s: State, th: Ref)
    requires Structure(s, {}) && th in s.heap && s.heap[th].Thread?
    ensures var s', dead := SweepOpen(s, th), DoomedIn(s, s.heap[th].openUpvals);
      && (forall u :: u in s.heap[th].openUpvals ==> u in s.heap && IsOpen(s.heap[u]) && u !in s.fixed)
      && th !in dead && th in s'.heap
      && s'.heap.Keys == s.heap.Keys - dead
      && (forall r :: r in s'.heap && r != th ==> s'.heap[r] == s.heap[r])
      && s'.heap[th] == s.heap[th].(openUpvals := Keep(s.heap[th].openUpvals, dead))
      && (forall r :: r in s'.heap ==> s'.color[r] == if r in s.heap[th].openUpvals then White(s.cw) else s.color[r])
      && s' == s.(heap := s'.heap, color := s'.color, uvhead := Keep(s.uvhead, dead))
  {
    assert ThreadOk(s, th);
  }

  lemma SweepOpenLists(s: State, th: Ref)
    requires Structure(s, {}) && th in s.heap && s.heap[th].Thread?
    ensures OpenLists(SweepOpen(s, th))
  {
    var s', chain := SweepOpen(s, th), s.heap[th].openUpvals;
    var dead := DoomedIn(s, chain);
    SweepOpenFacts(s, th);
    forall u ensures UpvalOk(s', u) {
      assert UpvalOk(s, u);
      if u in s'.heap && IsOpen(s'.heap[u]) { assert s'.heap[u] == s.heap[u]; }
    }
    forall t ensures ThreadOk(s', t) {
      assert ThreadOk(s, t);
      if t in s'.heap && s'.heap[t].Thread? { SweptList(s, th, t); }
    }
  }

  lemma SweptList(s: State, th: Ref, t: Ref)
    requires Structure(s, {}) && th in s.heap && s.heap[th].Thread? && t in s.heap && s.heap[t].Thread?
    requires t in SweepOpen(s, th).heap
    ensures ThreadOk(SweepOpen(s, th), t)
  {
    var s', l := SweepOpen(s, th), s.heap[t].openUpvals;
    var dead := DoomedIn(s, s.heap[th].openUpvals);
    SweepOpenFacts(s, th);
    assert ThreadOk(s, t) && ThreadOk(s, th);
    var l' := s'.heap[t].openUpvals;
    forall u | u in l' ensures u in s'.heap && s'.heap[u] == s.heap[u] {
      assert u in l;
      assert IsOpen(s.heap[u]);
    }
    if t == th { KeepDescending(s.heap, l, dead); }
    forall i, j | 0 <= i < j < |l'| ensures Slot(s'.heap, l'[i]) > Slot(s'.heap, l'[j]) {
      assert l'[i] in l' && l'[j] in l';
    }
  }

  lemma SweepOpenStructure(s: State, th: Ref)
    requires Structure(s, {}) && th in s.heap && s.heap[th].Thread?
    ensures Structure(SweepOpen(s, th), {})
  {
    var s' := SweepOpen(s, th);
    SweepOpenFacts(s, th);
    SweepOpenLists(s, th);
    forall r ensures (Ordinary(s'.heap, r) <==> Ordinary(s.heap, r)) && (r in s'.heap && s'.heap[r].Str? <==> r in s.heap && s.heap[r].Str?) {
    }
  }

  lemma SweepOpenAlive(s: State, th: Ref)
    requires Structure(s, {}) && Alive(s) && th in s.heap && s.heap[th].Thread?
    ensures Alive(SweepOpen(s, th))
    ensures forall r :: Live(SweepOpen(s, th), r) <==> Live(s, r)
  {
    var s' := SweepOpen(s, th);
    SweepOpenFacts(s, th);
    assert Roots(s') == Roots(s);
    forall r ensures Live(s', r) <==> Live(s, r) {
      if r in s.heap[th].openUpvals { assert r in s.heap && IsOpen(s.heap[r]); }
    }
    forall r, q | Live(s', r) && Points(s'.heap, r, q) ensures Live(s', q) {
      SweepOpenPoints(s, th, r, q);
    }
  }

  lemma SweepOpenPoints(s: State, th: Ref, r: Ref, q: Ref)
    requires Structure(s, {}) && th in s.heap && s.heap[th].Thread? && r in SweepOpen(s, th).heap
    ensures Points(SweepOpen(s, th).heap, r, q) <==> Points(s.heap, r, q)
  {
    SweepOpenFacts(s, th);
    if IsOpen(s.heap[r]) { assert UpvalOk(s, r); OpenPoints(s.heap, SweepOpen(s, th).heap, r, q); }
    else if r != th { assert SweepOpen(s, th).heap[r] == s.heap[r]; }
  }

  lemma OpenPoints(h: Heap, h': Heap, u: Ref, q: Ref)
    requires u in h && u in h' && IsOpen(h[u]) && h'[u] == h[u]
    requires var th := h[u].home.thread; th in h && th in h' && h[th].Thread? && h'[th].Thread? && h'[th].stack == h[th].stack
    ensures Points(h', u, q) <==> Points(h, u, q)
  {
  }

  lemma SweepOpenPhase(s: State, th: Ref)
    requires Structure(s, {}) && s.phase == Sweep && PhaseOk(s, {}) && th in s.heap && s.heap[th].Thread?
    ensures PhaseOk(SweepOpen(s, th), {})
    ensures UpvalsSwept(SweepOpen(s, th), th)
  {
    var s' := SweepOpen(s, th);
    SweepOpenFacts(s, th);
    SweepOpenLists(s, th);
    assert ThreadOk(s', th);
    assert forall x :: AheadInRoot(s', x) <==> AheadInRoot(s, x);
    forall r | r in s'.heap ensures CurrentWhite(s', r) || Ahead(s', r) {
      assert CurrentWhite(s, r) || Ahead(s, r);
    }
  }

  // ---------------------------------------------------------------- freeing one object

  /** `r` has just been unlinked from rootgc and has no swept-over open upvalue left. */
  ghost predicate ToFree(s: State, r: Ref) {
    && InvOut(s, {r}) && s.phase == Sweep
    && r in s.heap && r !in s.fixed && !Live(s, r)
    && (s.heap[r].Thread? ==> s.heap[r].openUpvals == [])
  }

  /** An unlinked object on which no open upvalue depends can be dropped. */
  lemma DropInv(s: State, r: Ref)
    requires ToFree(s, r)
    ensures Inv(s.(heap := s.heap - {r}, color := s.color - {r}))
  {
    var s' := s.(heap := s.heap - {r}, color := s.color - {r});
    DropAlive(s, r);
    assert Ordinary(s.heap, r);
    assert forall x :: Ordinary(s'.heap, x) <==> Ordinary(s.heap, x) && x != r;
    assert forall x :: x in s'.heap && s'.heap[x].Str? <==> x in s.heap && s.heap[x].Str?;
    DropLists(s, r);
    assert forall x :: AheadInRoot(s', x) <==> AheadInRoot(s, x);
  }

  lemma DropAlive(s: State, r: Ref)
    requires ToFree(s, r)
    ensures Alive(s.(heap := s.heap - {r}, color := s.color - {r}))
  {
    var s' := s.(heap := s.heap - {r}, color := s.color - {r});
    assert s'.heap == map x | x in s.heap && x !in {r} :: s.heap[x];
    forall u | u in s.heap && IsOpen(s.heap[u]) ensures s.heap[u].home.thread != r { assert UpvalOk(s, u); }
    assert Roots(s') == Roots(s);
    forall x, q ensures Points(s'.heap, x, q) <==> Points(s.heap, x, q) && x !in {r} {
      DropPoints(s.heap, s'.heap, {r}, x, q);
    }
    assert forall x :: Live(s', x) <==> Live(s, x);
  }

  lemma DropLists(s: State, r: Ref)
    requires ToFree(s, r)
    ensures OpenLists(s.(heap := s.heap - {r}, color := s.color - {r}))
  {
    var s' := s.(heap := s.heap - {r}, color := s.color - {r});
    assert Ordinary(s.heap, r);
    forall u ensures UpvalOk(s', u) { assert UpvalOk(s, u); }
    forall th ensures ThreadOk(s', th) {
      assert ThreadOk(s, th);
      assert forall u :: u in s.heap && IsOpen(s.heap[u]) ==> Slot(s'.heap, u) == Slot(s.heap, u);
    }
    forall u | u in s'.uvhead ensures u in s'.heap && IsOpen(s'.heap[u]) { assert u in s.heap; }
  }

  /** luaF_close(L1, L1->stack) leaves no open upvalue on the thread and the thread itself dead. */
  lemma {:induction false} CloseAll(s: State, r: Ref)
    requires InvOut(s, {r}) && s.phase == Sweep && r in s.heap && r !in s.fixed && !Live(s, r)
    ensures ToFree(CloseUpvals(s, r, 0), r)
    decreases if s.heap[r].Thread? then |s.heap[r].openUpvals| else 0
  {
    if s.heap[r].Thread? && s.heap[r].openUpvals != [] { NonemptyHasOpen(s, r); }
    if HasOpen(s, r, 0) {
      CloseHeadThread(s, r);
      CloseHeadInv(s, r, {r});
      CloseHeadOther(s, r);
      CloseAll(CloseHead(s, r), r);
    }
  }

  lemma NonemptyHasOpen(s: State, r: Ref)
    requires ThreadOk(s, r) && r in s.heap && s.heap[r].Thread? && s.heap[r].openUpvals != []
    ensures HasOpen(s, r, 0)
  {
    assert s.heap[r].openUpvals[0] in s.heap[r].openUpvals;
  }

  /** In the sweep, closing an upvalue does not recolour the thread. */
  lemma CloseHeadOther(s: State, r: Ref)
    requires Keyed(s) && HasOpen(s, r, 0) && s.phase == Sweep
    ensures var s' := CloseHead(s, r);
      s'.phase == Sweep && s'.fixed == s.fixed && s'.cw == s.cw && r in s'.color && s'.color[r] == s.color[r]
  {
    CloseHeadSplit(s, r);
  }

  lemma FreeObjectInv(s: State, r: Ref)
    requires InvOut(s, {r}) && s.phase == Sweep && r in s.heap && r !in s.fixed && !Live(s, r)
    ensures Inv(FreeObject(s, r)) && FreeObject(s, r).phase == Sweep
  {
    CloseAll(s, r);
    DropInv(CloseUpvals(s, r, 0), r);
  }

  // ---------------------------------------------------------------- sweeplist

  ghost predicate UpvalsSwept(s: State, r: Ref) {
    r in s.heap && s.heap[r].Thread? ==> forall u :: u in s.heap[r].openUpvals ==> CurrentWhite(s, u)
  }

  lemma PassAhead(s: State, s': State, x: Ref)
    requires NoDup(s.rootgc) && s.sweepAt < |s.rootgc| && x != s.rootgc[s.sweepAt] && AheadInRoot(s, x)
    requires (s'.rootgc == s.rootgc && s'.sweepAt == s.sweepAt + 1)
          || (s'.rootgc == s.rootgc[..s.sweepAt] + s.rootgc[s.sweepAt + 1..] && s'.sweepAt == s.sweepAt)
    ensures AheadInRoot(s', x)
  {
    var i :| s.sweepAt <= i < |s.rootgc| && s.rootgc[i] == x;
    if s'.rootgc != s.rootgc { assert s'.rootgc[i - 1] == x; }
  }

  lemma UnlinkInv(s: State)
    requires Inv(s) && s.phase == Sweep && s.sweepAt < |s.rootgc| && UpvalsSwept(s, s.rootgc[s.sweepAt])
    ensures InvOut(Unlink(s), {s.rootgc[s.sweepAt]})
  {
    UnlinkRoot(s);
    UnlinkRest(s, Unlink(s));
    forall x | x in s.heap && x != s.rootgc[s.sweepAt] ensures CurrentWhite(Unlink(s), x) || Ahead(Unlink(s), x) {
      PassSwept(s, Unlink(s), x);
    }
  }

  lemma UnlinkRest(s: State, s': State)
    requires Structure(s, {}) && Alive(s) && s' == s.(rootgc := s'.rootgc)
    ensures StringTable(s') && OpenLists(s') && Anchors(s') && Alive(s') && Keyed(s')
  {
    assert Roots(s') == Roots(s);
    assert forall x :: Live(s', x) <==> Live(s, x);
    forall u ensures UpvalOk(s', u) { assert UpvalOk(s, u); }
    forall th ensures ThreadOk(s', th) { assert ThreadOk(s, th); }
  }

  lemma UnlinkRoot(s: State)
    requires RootList(s, {}) && s.sweepAt < |s.rootgc|
    ensures RootList(Unlink(s), {s.rootgc[s.sweepAt]}) && Ordinary(s.heap, s.rootgc[s.sweepAt])
  {
    var s', r, at := Unlink(s), s.rootgc[s.sweepAt], s.sweepAt;
    assert r in s.rootgc;
    assert forall i :: 0 <= i < |s'.rootgc| ==> s'.rootgc[i] == if i < at then s.rootgc[i] else s.rootgc[i + 1];
    assert forall x :: x in s'.rootgc ==> x in s.rootgc && x != r;
    forall x | x in s.rootgc && x != r ensures x in s'.rootgc {
      var i :| 0 <= i < |s.rootgc| && s.rootgc[i] == x;
      assert s'.rootgc[if i < at then i else i - 1] == x;
    }
  }

  /** Moving the sweep pointer past an object leaves every other object swept or still ahead. */
  lemma PassSwept(s: State, s': State, x: Ref)
    requires Inv(s) && s.phase == Sweep && s.sweepAt < |s.rootgc| && UpvalsSwept(s, s.rootgc[s.sweepAt])
    requires x in s.heap && x != s.rootgc[s.sweepAt] && s'.heap == s.heap && s'.cw == s.cw && s'.phase == s.phase
    requires x in s'.color && s'.color[x] == s.color[x]
    requires (s'.rootgc == s.rootgc && s'.sweepAt == s.sweepAt + 1)
          || (s'.rootgc == s.rootgc[..s.sweepAt] + s.rootgc[s.sweepAt + 1..] && s'.sweepAt == s.sweepAt)
    ensures CurrentWhite(s', x) || Ahead(s', x)
  {
    if !CurrentWhite(s, x) {
      assert Ahead(s, x);
      if AheadInRoot(s, x) { PassAhead(s, s', x); }
      else {
        var th := s.heap[x].home.thread;
        assert UpvalOk(s, x);
        assert th != s.rootgc[s.sweepAt];
        PassAhead(s, s', th);
      }
    }
  }

  /** The object under the sweep pointer is kept: it becomes white again. */
  lemma KeepInv(s: State)
    requires Inv(s) && s.phase == Sweep && s.sweepAt < |s.rootgc| && UpvalsSwept(s, s.rootgc[s.sweepAt])
    requires !Doomed(s, s.rootgc[s.sweepAt])
    ensures Inv(s.(color := s.color[s.rootgc[s.sweepAt] := White(s.cw)], sweepAt := s.sweepAt + 1))
  {
    var r := s.rootgc[s.sweepAt];
    var s' := s.(color := s.color[r := White(s.cw)], sweepAt := s.sweepAt + 1);
    assert r in s.rootgc;
    assert Ordinary(s.heap, r);
    assert Live(s, r) by { assert s.main in Roots(s); assert Live(s, s.main); }
    assert Roots(s') == Roots(s);
    assert forall x :: Live(s', x) <==> Live(s, x);
    forall u ensures UpvalOk(s', u) { assert UpvalOk(s, u); }
    forall th ensures ThreadOk(s', th) { assert ThreadOk(s, th); }
    forall x | x in s'.heap ensures CurrentWhite(s', x) || Ahead(s', x) {
      if x != r { PassSwept(s, s', x); }
    }
  }

  lemma NestedInv(s: State)
    requires Inv(s) && s.phase == Sweep && s.sweepAt < |s.rootgc|
    ensures var s1, r := Nested(s), s.rootgc[s.sweepAt];
      && Inv(s1) && s1.phase == Sweep && s1.rootgc == s.rootgc && s1.sweepAt == s.sweepAt
      && UpvalsSwept(s1, r) && (forall x :: Live(s1, x) <==> Live(s, x))
  {
    var r := s.rootgc[s.sweepAt];
    if r in s.heap && s.heap[r].Thread? {
      SweepOpenFacts(s, r);
      SweepOpenStructure(s, r);
      SweepOpenAlive(s, r);
      SweepOpenPhase(s, r);
    }
  }

  lemma SettleInv(s: State)
    requires Inv(s) && s.phase == Sweep && s.sweepAt < |s.rootgc| && UpvalsSwept(s, s.rootgc[s.sweepAt])
    ensures Inv(Settle(s)) && Settle(s).phase == Sweep
  {
    var r := s.rootgc[s.sweepAt];
    assert r in s.rootgc;
    assert Ordinary(s.heap, r);
    if Doomed(s, r) {
      UnlinkInv(s);
      FreeObjectInv(Unlink(s), r);
    } else {
      KeepInv(s);
    }
  }

  lemma SweepOneInv(s: State)
    requires Inv(s) && s.phase == Sweep && s.sweepAt < |s.rootgc|
    ensures Inv(SweepOne(s)) && SweepOne(s).phase == Sweep
  {
    NestedInv(s);
    SettleInv(Nested(s));
  }

  /** A property that every iteration keeps, a run of sweeplist keeps. */
  lemma SweepListKeeps(s: State, n: nat, p: State -> bool)
    requires Keyed(s) && p(s)
    requires forall x {:trigger SweepOne(x)} :: p(x) && Keyed(x) && x.sweepAt < |x.rootgc| ==> p(SweepOne(x))
    ensures p(SweepList(s, n))
  {
    var q := (x: State) => Keyed(x) && p(x);
    forall x | q(x) && More(x) ensures q(SweepBody(x)) { assert SweepBody(x) == SweepOne(x); }
    IterateKeeps(SweepBody, s, n, q);
  }

  lemma SweepListInv(s: State, n: nat)
    requires Inv(s) && s.phase == Sweep
    ensures Inv(SweepList(s, n)) && SweepList(s, n).phase == Sweep
  {
    var p := (x: State) => Inv(x) && x.phase == Sweep;
    forall x | p(x) && Keyed(x) && x.sweepAt < |x.rootgc| ensures p(SweepOne(x)) { SweepOneInv(x); }
    SweepListKeeps(s, n, p);
  }

  /** When the sweep pointer is at the end, every object is in the current white. */
  lemma SweepDone(s: State)
    requires Inv(s) && s.phase == Sweep && s.sweepAt >= |s.rootgc|
    ensures AllCurrent(s) && Inv(s.(phase := Finalize))
  {
    forall r | r in s.heap ensures CurrentWhite(s, r) { assert !AheadInRoot(s, r); }
    PhaseOnly(s, s.(phase := Finalize));
  }

  /** Every collector step, in every phase, keeps the invariant. */
  lemma SingleStepInv(s: State)
    requires Inv(s)
    ensures Inv(SingleStep(s))
  {
    match s.phase
    case Pause => MarkRootInv(s);
    case Propagate => if s.gray != [] { PropagateMarkInv(s); } else { AtomicInv(s); }
    case SweepString => SweepStringsInv(s);
    case Sweep =>
      SweepListInv(s, SWEEP_MAX);
      if SweepList(s, SWEEP_MAX).sweepAt >= |SweepList(s, SWEEP_MAX).rootgc| { SweepDone(SweepList(s, SWEEP_MAX)); }
    case Finalize => PhaseOnly(s, s.(phase := Pause));
  }
}
