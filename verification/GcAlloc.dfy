/** Allocation, interning and upvalue capture keep the machine's invariant. */
module GcAlloc {
  import opened GcHeap
  import opened GcMark
  import opened GcCollect
  import opened GcTricolor
  import opened GcAtomic
  import opened GcInvariant
  import opened GcClose
  import opened GcMutate
  import opened GcProgram

  /** An object as allocation makes it. */
  ghost predicate Newborn(s: State, r: Ref, o: Object, chain: nat) {
    && r !in s.heap && !IsOpen(o) && chain < |s.strt|
    && (o.Thread? ==> o.openUpvals == [])
    && (forall q :: Points(s.heap[r := o], r, q) ==> Live(s, q))
  }

  // ---------------------------------------------------------------- lists

  lemma InsertNoDup(l: seq<Ref>, i: nat, r: Ref)
    requires NoDup(l) && i <= |l| && r !in l
    ensures NoDup(l[..i] + [r] + l[i..])
    ensures forall x :: x in l[..i] + [r] + l[i..] <==> x in l || x == r
  {
    var l' := l[..i] + [r] + l[i..];
    forall x | x in l ensures x in l' {
      var j :| 0 <= j < |l| && l[j] == x;
      assert l'[if j < i then j else j + 1] == x;
    }
    forall a, b | 0 <= a < b < |l'| ensures l'[a] != l'[b] {
      assert l'[a] == if a < i then l[a] else if a == i then r else l[a - 1];
      assert l'[b] == if b < i then l[b] else if b == i then r else l[b - 1];
    }
  }

  /** Linking puts `r` on rootgc and leaves everything that was ahead of the sweep ahead. */
  ghost predicate Linked(s: State, s': State, r: Ref) {
    && NoDup(s'.rootgc) && s'.sweepAt <= |s'.rootgc|
    && (forall x :: x in s'.rootgc <==> x in s.rootgc || x == r)
    && (forall x :: AheadInRoot(s, x) ==> AheadInRoot(s', x))
    && (s.sweepAt == 0 ==> s'.sweepAt == 0)
  }

  lemma LinkFrontLinks(s: State, r: Ref)
    requires NoDup(s.rootgc) && s.sweepAt <= |s.rootgc| && r !in s.rootgc
    ensures Linked(s, LinkFront(s, r), r)
  {
    var s' := LinkFront(s, r);
    ConsNoDup(r, s.rootgc);
    forall x | AheadInRoot(s, x) ensures AheadInRoot(s', x) {
      var i :| s.sweepAt <= i < |s.rootgc| && s.rootgc[i] == x;
      assert s'.rootgc[i + 1] == x;
    }
  }

  lemma LinkAfterMainLinks(s: State, r: Ref)
    requires NoDup(s.rootgc) && s.sweepAt <= |s.rootgc| && r !in s.rootgc
    ensures Linked(s, LinkAfterMain(s, r), r)
  {
    var s', i := LinkAfterMain(s, r), IndexOf(s.rootgc, s.main);
    if i >= |s.rootgc| {
      LinkFrontLinks(s, r);
    } else {
      InsertNoDup(s.rootgc, i + 1, r);
      forall x | AheadInRoot(s, x) ensures AheadInRoot(s', x) {
        var j :| s.sweepAt <= j < |s.rootgc| && s.rootgc[j] == x;
        assert s'.rootgc[if j < i + 1 then j else j + 1] == x;
      }
    }
  }

  // ---------------------------------------------------------------- one new object

  lemma AddFacts(s: State, r: Ref, o: Object, chain: nat)
    requires Structure(s, {}) && Newborn(s, r, o, chain)
    ensures var s' := AddObject(s, r, o, chain);
      && s'.heap == s.heap[r := o] && s'.color == s.color[r := White(s.cw)]
      && s' == s.(heap := s'.heap, color := s'.color, rootgc := s'.rootgc, sweepAt := s'.sweepAt, strt := s'.strt)
      && (if o.Str? then s'.rootgc == s.rootgc && s'.sweepAt == s.sweepAt && s'.strt == s.strt[chain := [r] + s.strt[chain]]
          else s'.strt == s.strt && Linked(s, s', r))
  {
    assert r !in s.rootgc by { assert !Ordinary(s.heap, r); }
    var s1 := s.(heap := s.heap[r := o], color := s.color[r := White(s.cw)]);
    LinkFrontLinks(s1, r);
    LinkAfterMainLinks(s1, r);
    assert forall x :: AheadInRoot(s, x) <==> AheadInRoot(s1, x);
  }

  lemma AddStructure(s: State, r: Ref, o: Object, chain: nat)
    requires Structure(s, {}) && Newborn(s, r, o, chain)
    ensures Structure(AddObject(s, r, o, chain), {})
  {
    var s' := AddObject(s, r, o, chain);
    AddFacts(s, r, o, chain);
    assert forall x :: Ordinary(s'.heap, x) <==> Ordinary(s.heap, x) || (x == r && !o.Str?);
    AddStrings(s, r, o, chain);
    forall u ensures UpvalOk(s', u) { assert UpvalOk(s, u); }
    forall th ensures ThreadOk(s', th) {
      assert ThreadOk(s, th);
      assert forall u :: u in s.heap ==> Slot(s'.heap, u) == Slot(s.heap, u);
    }
  }

  lemma AddStrings(s: State, r: Ref, o: Object, chain: nat)
    requires Structure(s, {}) && Newborn(s, r, o, chain)
    ensures StringTable(AddObject(s, r, o, chain))
  {
    var s' := AddObject(s, r, o, chain);
    AddFacts(s, r, o, chain);
    assert !InTable(s.strt, r);
    assert forall i :: 0 <= i < |s.strt| ==> r !in s.strt[i];
    if o.Str? {
      assert forall i, x :: 0 <= i < |s.strt| ==> (x in s'.strt[i] <==> x in s.strt[i] || (i == chain && x == r));
      assert r in s'.strt[chain];
      assert forall x :: InTable(s.strt, x) ==> InTable(s'.strt, x);
      assert forall x :: InTable(s'.strt, x) ==> InTable(s.strt, x) || x == r;
      assert InTable(s'.strt, r);
    }
    assert forall x :: x in s'.heap && s'.heap[x].Str? <==> (x in s.heap && s.heap[x].Str?) || (x == r && o.Str?);
  }

  lemma AddPoints(s: State, r: Ref, o: Object, x: Ref, q: Ref)
    requires Structure(s, {}) && r !in s.heap && x in s.heap
    ensures Points(s.heap[r := o], x, q) <==> Points(s.heap, x, q)
  {
    assert UpvalOk(s, x);
  }

  lemma AddAlive(s: State, r: Ref, o: Object, chain: nat)
    requires Structure(s, {}) && Alive(s) && Newborn(s, r, o, chain)
    ensures Alive(AddObject(s, r, o, chain)) && Live(AddObject(s, r, o, chain), r)
    ensures forall x :: Live(s, x) ==> Live(AddObject(s, r, o, chain), x)
  {
    var s' := AddObject(s, r, o, chain);
    AddFacts(s, r, o, chain);
    assert Roots(s') == Roots(s);
    assert forall x :: Live(s', x) <==> Live(s, x) || x == r;
    forall x, q | Live(s', x) && Points(s'.heap, x, q) ensures Live(s', q) {
      if x != r { AddPoints(s, r, o, x, q); }
    }
  }

  lemma AddPhase(s: State, r: Ref, o: Object, chain: nat)
    requires Structure(s, {}) && Alive(s) && PhaseOk(s, {}) && Newborn(s, r, o, chain)
    ensures PhaseOk(AddObject(s, r, o, chain), {})
  {
    var s' := AddObject(s, r, o, chain);
    AddFacts(s, r, o, chain);
    if s.phase == Propagate {
      AddMarking(s, r, o, chain);
    } else {
      assert CurrentWhite(s', r);
      assert forall x :: CurrentWhite(s, x) ==> CurrentWhite(s', x);
      assert forall x :: AheadInRoot(s, x) ==> AheadInRoot(s', x);
      forall x | x in s.heap && Ahead(s, x) ensures Ahead(s', x) {
        if AheadInStrings(s, x) {
          var i :| s.sweepStr <= i < |s.strt| && x in s.strt[i];
          assert x in s'.strt[i];
        }
      }
    }
  }

  lemma AddMarking(s: State, r: Ref, o: Object, chain: nat)
    requires Structure(s, {}) && Alive(s) && Marking(s) && Newborn(s, r, o, chain)
    ensures Marking(AddObject(s, r, o, chain))
  {
    var s' := AddObject(s, r, o, chain);
    AddFacts(s, r, o, chain);
    assert forall x :: OnList(s', x) <==> OnList(s, x);
    forall x ensures ShapeOk(s'.heap, s'.color, x) && BlackOk(s'.heap, s'.color, x) {
      assert ShapeOk(s.heap, s.color, x) && BlackOk(s.heap, s.color, x);
      if x in s.color && s.color[x] == Black { AddBlack(s, r, o, x); }
    }
    AddAlive(s, r, o, chain);
    AliveNoDangle(s');
  }

  /** No black object can refer to an object that did not exist. */
  lemma AddBlack(s: State, r: Ref, o: Object, x: Ref)
    requires Structure(s, {}) && r !in s.heap && x in s.color && s.color[x] == Black && BlackOk(s.heap, s.color, x)
    requires ShapeOk(s.heap, s.color, x)
    requires NoDangle(s.heap)
    ensures BlackOk(s.heap[r := o], s.color[r := White(s.cw)], x)
  {
    var c := s.color[r := White(s.cw)];
    forall q | Points(s.heap[r := o], x, q) && q in c ensures !c[q].White? {
      AddPoints(s, r, o, x, q);
      assert Points(s.heap, x, q);
    }
  }

  lemma AddInv(s: State, r: Ref, o: Object, chain: nat)
    requires Inv(s) && Newborn(s, r, o, chain)
    ensures Inv(AddObject(s, r, o, chain)) && Live(AddObject(s, r, o, chain), r)
  {
    AddStructure(s, r, o, chain);
    AddAlive(s, r, o, chain);
    AddPhase(s, r, o, chain);
  }

  // ---------------------------------------------------------------- getting hold of a dead object again

  /** changewhite on a dead string, or on a dead upvalue of a live thread. */
  lemma ReviveInv(s: State, r: Ref)
    requires Inv(s) && r in s.heap && (s.heap[r].Str? || (IsOpen(s.heap[r]) && Live(s, s.heap[r].home.thread)))
    ensures Inv(Revive(s, r)) && Live(Revive(s, r), r) && Revive(s, r).heap == s.heap
    ensures forall x :: Live(s, x) ==> Live(Revive(s, r), x)
  {
    if IsDead(s, r) {
      var s' := Revive(s, r);
      assert Roots(s') == Roots(s);
      assert forall x :: Live(s', x) <==> Live(s, x) || x == r;
      forall x, q | Live(s', x) && Points(s'.heap, x, q) ensures Live(s', q) {
        if x == r { assert UpvalOk(s, r); assert Points(s.heap, s.heap[r].home.thread, q); }
      }
      forall u ensures UpvalOk(s', u) { assert UpvalOk(s, u); }
      forall th ensures ThreadOk(s', th) { assert ThreadOk(s, th); }
      RevivePhase(s, r);
    }
  }

  lemma RevivePhase(s: State, r: Ref)
    requires Inv(s) && IsDead(s, r)
    ensures PhaseOk(Revive(s, r), {})
  {
    var s' := Revive(s, r);
    assert s.phase == SweepString || s.phase == Sweep by { assert AllCurrent(s) ==> CurrentWhite(s, r); }
    assert forall x :: AheadInRoot(s', x) <==> AheadInRoot(s, x);
    forall x | x in s'.heap ensures CurrentWhite(s', x) || Ahead(s', x) {
      assert CurrentWhite(s, x) || Ahead(s, x);
      assert Ahead(s, x) ==> Ahead(s', x);
    }
  }

  // ---------------------------------------------------------------- luaF_findupval

  lemma {:induction false} SearchSplits(h: Heap, l: seq<Ref>, slot: nat)
    requires forall u :: u in l ==> u in h && IsOpen(h[u])
    requires forall i, j :: 0 <= i < j < |l| ==> Slot(h, l[i]) > Slot(h, l[j])
    ensures forall i :: 0 <= i < Search(h, l, slot) ==> Slot(h, l[i]) > slot
    ensures forall i :: Search(h, l, slot) <= i < |l| ==> Slot(h, l[i]) <= slot
    decreases |l|
  {
    if l != [] {
      assert l[0] in l;
      var t := l[1..];
      assert forall i :: 0 <= i < |t| ==> t[i] == l[i + 1];
      SearchSplits(h, t, slot);
      if Slot(h, l[0]) > slot {
        forall i | 0 <= i < Search(h, l, slot) ensures Slot(h, l[i]) > slot { if i > 0 { assert t[i - 1] == l[i]; } }
        forall i | Search(h, l, slot) <= i < |l| ensures Slot(h, l[i]) <= slot { assert t[i - 1] == l[i]; }
      }
    }
  }

  /** The list position luaF_findupval stops at. */
  function At(s: State, slot: nat): nat
    requires s.running in s.heap && s.heap[s.running].Thread?
  {
    Search(s.heap, s.heap[s.running].openUpvals, slot)
  }

  ghost predicate Found(s: State, slot: nat)
    requires s.running in s.heap && s.heap[s.running].Thread?
  {
    var l := s.heap[s.running].openUpvals;
    At(s, slot) < |l| && Slot(s.heap, l[At(s, slot)]) == slot
  }

  /** The case in which a new open upvalue is created. */
  function Created(s: State, slot: nat, name: Ref): State
    requires s.running in s.heap && s.heap[s.running].Thread?
  {
    var th := s.running;
    var l, n := s.heap[th].openUpvals, At(s, slot);
    s.(heap := s.heap[name := UpVal(Open(th, slot))][th := s.heap[th].(openUpvals := l[..n] + [name] + l[n..])],
       color := s.color[name := White(s.cw)],
       uvhead := [name] + s.uvhead)
  }

  lemma InsertDescends(h: Heap, h': Heap, l: seq<Ref>, n: nat, u: Ref, slot: nat)
    requires n <= |l| && Slot(h', u) == slot
    requires forall i, j :: 0 <= i < j < |l| ==> Slot(h, l[i]) > Slot(h, l[j])
    requires forall i :: 0 <= i < |l| ==> Slot(h', l[i]) == Slot(h, l[i])
    requires forall i :: 0 <= i < n ==> Slot(h, l[i]) > slot
    requires forall i :: n <= i < |l| ==> Slot(h, l[i]) < slot
    ensures var k := l[..n] + [u] + l[n..]; forall i, j :: 0 <= i < j < |k| ==> Slot(h', k[i]) > Slot(h', k[j])
  {
    var k := l[..n] + [u] + l[n..];
    forall i, j | 0 <= i < j < |k| ensures Slot(h', k[i]) > Slot(h', k[j]) {
      assert k[i] == if i < n then l[i] else if i == n then u else l[i - 1];
      assert k[j] == if j < n then l[j] else if j == n then u else l[j - 1];
    }
  }

  lemma CreatedLists(s: State, slot: nat, name: Ref)
    requires Structure(s, {}) && slot < |s.heap[s.running].stack| && name !in s.heap && !Found(s, slot)
    ensures OpenLists(Created(s, slot, name))
  {
    var th, s' := s.running, Created(s, slot, name);
    MemberInsert(s.heap[th].openUpvals, At(s, slot), name);
    forall u ensures UpvalOk(s', u) { assert UpvalOk(s, u); }
    forall t ensures ThreadOk(s', t) {
      if t == th { CreatedThread(s, slot, name); } else { CreatedOther(s, slot, name, t); }
    }
  }

  lemma CreatedOther(s: State, slot: nat, name: Ref, t: Ref)
    requires Structure(s, {}) && name !in s.heap && t != s.running
    ensures ThreadOk(Created(s, slot, name), t)
  {
    var s' := Created(s, slot, name);
    assert ThreadOk(s, t);
    assert forall u :: u in s.heap ==> Slot(s'.heap, u) == Slot(s.heap, u);
  }

  lemma CreatedThread(s: State, slot: nat, name: Ref)
    requires Structure(s, {}) && name !in s.heap && !Found(s, slot)
    ensures ThreadOk(Created(s, slot, name), s.running)
  {
    var th, s' := s.running, Created(s, slot, name);
    var l, n := s.heap[th].openUpvals, At(s, slot);
    assert ThreadOk(s, th);
    SearchSplits(s.heap, l, slot);
    MemberInsert(l, n, name);
    forall i | n <= i < |l| ensures Slot(s.heap, l[i]) < slot { if i > n { assert Slot(s.heap, l[n]) > Slot(s.heap, l[i]); } }
    forall i | 0 <= i < |l| ensures Slot(s'.heap, l[i]) == Slot(s.heap, l[i]) { assert l[i] in l; }
    InsertDescends(s.heap, s'.heap, l, n, name, slot);
  }

  lemma MemberInsert(l: seq<Ref>, n: nat, x: Ref)
    requires n <= |l|
    ensures forall u :: u in l[..n] + [x] + l[n..] <==> u in l || u == x
  {
    assert l == l[..n] + l[n..];
  }

  lemma CreatedStructure(s: State, slot: nat, name: Ref)
    requires Structure(s, {}) && slot < |s.heap[s.running].stack| && name !in s.heap && !Found(s, slot)
    ensures Structure(Created(s, slot, name), {})
  {
    var s' := Created(s, slot, name);
    CreatedLists(s, slot, name);
    assert forall x :: Ordinary(s'.heap, x) <==> Ordinary(s.heap, x);
    assert forall x :: x in s'.heap && s'.heap[x].Str? <==> x in s.heap && s.heap[x].Str?;
  }

  lemma CreatedPoints(s: State, slot: nat, name: Ref, x: Ref, q: Ref)
    requires Structure(s, {}) && slot < |s.heap[s.running].stack| && name !in s.heap
    ensures x in s.heap ==> (Points(Created(s, slot, name).heap, x, q) <==> Points(s.heap, x, q))
    ensures Points(Created(s, slot, name).heap, name, q) ==> Points(s.heap, s.running, q)
  {
    if x in s.heap { assert UpvalOk(s, x); }
  }

  lemma CreatedAlive(s: State, slot: nat, name: Ref)
    requires Structure(s, {}) && Alive(s) && slot < |s.heap[s.running].stack| && name !in s.heap
    ensures Alive(Created(s, slot, name)) && Live(Created(s, slot, name), name)
    ensures forall x :: Live(s, x) ==> Live(Created(s, slot, name), x)
  {
    var s' := Created(s, slot, name);
    assert Roots(s') == Roots(s);
    assert s.running in Roots(s);
    assert forall x :: Live(s', x) <==> Live(s, x) || x == name;
    forall x, q | Live(s', x) && Points(s'.heap, x, q) ensures Live(s', q) { CreatedPoints(s, slot, name, x, q); }
  }

  lemma CreatedPhase(s: State, slot: nat, name: Ref)
    requires Structure(s, {}) && Alive(s) && PhaseOk(s, {}) && slot < |s.heap[s.running].stack| && name !in s.heap
    ensures PhaseOk(Created(s, slot, name), {})
  {
    var s' := Created(s, slot, name);
    if s.phase == Propagate {
      CreatedMarking(s, slot, name);
    } else {
      assert CurrentWhite(s', name);
      assert forall x :: CurrentWhite(s, x) ==> CurrentWhite(s', x);
      assert forall x :: AheadInRoot(s, x) <==> AheadInRoot(s', x);
      forall x | x in s.heap && Ahead(s, x) ensures Ahead(s', x) { }
    }
  }

  lemma CreatedMarking(s: State, slot: nat, name: Ref)
    requires Structure(s, {}) && Alive(s) && Marking(s) && slot < |s.heap[s.running].stack| && name !in s.heap
    ensures Marking(Created(s, slot, name))
  {
    var s' := Created(s, slot, name);
    assert forall x :: OnList(s', x) <==> OnList(s, x);
    CreatedAlive(s, slot, name);
    assert NoDead(s');
    AliveNoDangle(s');
    forall x ensures ShapeOk(s'.heap, s'.color, x) && BlackOk(s'.heap, s'.color, x) {
      assert ShapeOk(s.heap, s.color, x) && BlackOk(s.heap, s.color, x);
      if x in s.color && s.color[x] == Black { CreatedBlack(s, slot, name, x); }
    }
  }

  lemma CreatedBlack(s: State, slot: nat, name: Ref, x: Ref)
    requires Structure(s, {}) && slot < |s.heap[s.running].stack| && name !in s.heap && NoDangle(s.heap)
    requires x in s.color && s.color[x] == Black && ShapeOk(s.heap, s.color, x) && BlackOk(s.heap, s.color, x)
    ensures BlackOk(Created(s, slot, name).heap, Created(s, slot, name).color, x)
  {
    forall q | Points(Created(s, slot, name).heap, x, q) ensures Points(s.heap, x, q) { CreatedPoints(s, slot, name, x, q); }
  }

  /** luaF_findupval keeps the invariant and returns a live upvalue for the slot. */
  lemma FindUpvalInv(s: State, slot: nat, name: Ref)
    requires Inv(s) && slot < |s.heap[s.running].stack| && name !in s.heap
    ensures var (s', u) := FindUpval(s, slot, name);
      && Inv(s') && Live(s', u) && s'.running == s.running && s'.strt == s.strt
      && s'.running in s'.heap && s'.heap[s'.running].Thread? && s'.heap[s'.running].stack == s.heap[s.running].stack
      && (forall x :: Live(s, x) ==> Live(s', x))
      && u in s'.heap && s'.heap[u] == UpVal(Open(s.running, slot))
  {
    var th := s.running;
    var l, n := s.heap[th].openUpvals, At(s, slot);
    assert ThreadOk(s, th);
    if Found(s, slot) {
      assert l[n] in l;
      assert s.running in Roots(s);
      ReviveInv(s, l[n]);
    } else {
      assert n < |l| ==> l[n] in l;
      assert FindUpval(s, slot, name) == (Created(s, slot, name), name);
      CreatedStructure(s, slot, name);
      CreatedAlive(s, slot, name);
      CreatedPhase(s, slot, name);
    }
  }
}
