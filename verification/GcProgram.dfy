/** Every step of the running program keeps the machine's invariant. */
module GcProgram {
  import opened GcHeap
  import opened GcMark
  import opened GcCollect
  import opened GcTricolor
  import opened GcAtomic
  import opened GcInvariant
  import opened GcClose
  import opened GcMutate

  ghost predicate LiveVal(s: State, v: Val) { v.Obj? ==> Live(s, v.ref) }

  // ---------------------------------------------------------------- replacing one object

  predicate SameKind(a: Object, b: Object) {
    && a.Str? == b.Str? && a.Udata? == b.Udata? && a.Table? == b.Table? && a.Closure? == b.Closure?
    && a.Proto? == b.Proto? && a.UpVal? == b.UpVal? && a.Thread? == b.Thread?
    && (a.UpVal? ==> (a == b || (a.home.Closed? && b.home.Closed?)))
    && (a.Thread? ==> b.openUpvals == a.openUpvals)
  }

  function Replaced(s: State, o: Ref, ob: Object): State { s.(heap := s.heap[o := ob]) }

  ghost predicate Fits(s: State, o: Ref, ob: Object) {
    && o in s.heap && SameKind(s.heap[o], ob)
    && (ob.Thread? ==> forall u :: u in ob.openUpvals ==> Slot(s.heap, u) < |ob.stack|)
  }

  lemma ReplaceStructure(s: State, o: Ref, ob: Object)
    requires Structure(s, {}) && Fits(s, o, ob)
    ensures Structure(Replaced(s, o, ob), {})
  {
    var s' := Replaced(s, o, ob);
    assert forall r :: Ordinary(s'.heap, r) <==> Ordinary(s.heap, r);
    assert forall r :: r in s'.heap && s'.heap[r].Str? <==> r in s.heap && s.heap[r].Str?;
    forall u ensures UpvalOk(s', u) { assert UpvalOk(s, u); }
    forall th ensures ThreadOk(s', th) {
      assert ThreadOk(s, th);
      assert forall u :: Slot(s'.heap, u) == Slot(s.heap, u);
    }
  }

  /** References into the replaced object's new contents must be live. */
  lemma ReplaceAlive(s: State, o: Ref, ob: Object)
    requires Alive(s) && Keyed(s) && Fits(s, o, ob)
    requires forall x, q :: Live(s, x) && Points(s.heap[o := ob], x, q) && !Points(s.heap, x, q) ==> Live(s, q)
    ensures Alive(Replaced(s, o, ob))
  {
    var s' := Replaced(s, o, ob);
    assert Roots(s') == Roots(s);
    assert forall r :: Live(s', r) <==> Live(s, r);
  }

  /** Only the object itself, and upvalues open into its stack, can gain references. */
  lemma ReplacePoints(h: Heap, o: Ref, ob: Object, x: Ref, q: Ref)
    requires o in h && SameKind(h[o], ob) && x in h
    requires Points(h[o := ob], x, q) && !Points(h, x, q)
    ensures x == o || (IsOpen(h[x]) && h[x].home.thread == o && ob.Thread?
                       && h[x].home.slot < |ob.stack| && ob.stack[h[x].home.slot] == Obj(q))
  {
  }

  lemma ReplaceQuiet(s: State, o: Ref, ob: Object)
    requires Keyed(s) && Fits(s, o, ob) && PhaseOk(s, {}) && s.phase != Propagate
    ensures PhaseOk(Replaced(s, o, ob), {})
  {
    var s' := Replaced(s, o, ob);
    assert forall r :: AheadInRoot(s', r) <==> AheadInRoot(s, r);
    assert forall r :: CurrentWhite(s', r) <==> CurrentWhite(s, r);
    forall r | r in s'.heap && Ahead(s, r) ensures Ahead(s', r) { }
  }

  /** In the mark phase only a black `o` itself can be left pointing to something white. */
  ghost predicate TricolorBut(s: State, o: Ref) {
    && Keyed(s) && GrayLists(s) && NoDead(s) && NoDangle(s.heap)
    && (forall r :: ShapeOk(s.heap, s.color, r))
    && (forall r :: r != o ==> BlackOk(s.heap, s.color, r))
    && IsMarked(s.color, s.main) && (s.registry.Obj? ==> IsMarked(s.color, s.registry.ref))
  }

  lemma ReplaceTricolor(s: State, o: Ref, ob: Object)
    requires Structure(s, {}) && Marking(s) && Fits(s, o, ob) && Alive(Replaced(s, o, ob))
    ensures TricolorBut(Replaced(s, o, ob), o)
  {
    var s' := Replaced(s, o, ob);
    assert forall r :: OnList(s', r) <==> OnList(s, r);
    AliveNoDangle(s');
    forall r ensures ShapeOk(s'.heap, s'.color, r) { assert ShapeOk(s.heap, s.color, r); }
    forall r | r != o ensures BlackOk(s'.heap, s'.color, r) {
      assert BlackOk(s.heap, s.color, r) && ShapeOk(s.heap, s.color, r);
      if r in s'.color && s'.color[r] == Black {
        forall q | Points(s'.heap, r, q) ensures Points(s.heap, r, q) {
          if !Points(s.heap, r, q) { ReplacePoints(s.heap, o, ob, r, q); }
        }
      }
    }
  }

  lemma TricolorWhole(s: State, o: Ref)
    requires TricolorBut(s, o) && BlackOk(s.heap, s.color, o)
    ensures Marking(s)
  {
  }

  // ---------------------------------------------------------------- recolouring one object outside the mark phase

  lemma RecolorQuiet(s: State, o: Ref, k: Color)
    requires Inv(s) && (s.phase == SweepString || s.phase == Sweep) && o in s.color && s.color[o] == Black
    requires k == White(s.cw) || k == Gray
    ensures Inv(s.(color := s.color[o := k]))
  {
    var s' := s.(color := s.color[o := k]);
    assert Roots(s') == Roots(s);
    assert forall r :: Live(s', r) <==> Live(s, r);
    forall u ensures UpvalOk(s', u) { assert UpvalOk(s, u); }
    forall th ensures ThreadOk(s', th) { assert ThreadOk(s, th); }
    assert forall r :: AheadInRoot(s', r) <==> AheadInRoot(s, r);
    forall r | r in s'.heap ensures CurrentWhite(s', r) || Ahead(s', r) {
      assert CurrentWhite(s, r) || Ahead(s, r);
      assert Ahead(s, r) ==> Ahead(s', r);
    }
  }

  lemma BlackSweeping(s: State, o: Ref)
    requires Inv(s) && s.phase != Propagate && o in s.color && s.color[o] == Black
    ensures s.phase == SweepString || s.phase == Sweep
  {
    assert AllCurrent(s) ==> CurrentWhite(s, o);
  }

  /** Pushing on `grayagain` outside the mark phase changes nothing that matters. */
  lemma AgainQuiet(s: State, l: seq<Ref>)
    requires Inv(s) && s.phase != Propagate
    ensures Inv(s.(grayagain := l))
  {
    var s' := s.(grayagain := l);
    PhaseOnly(s, s');
    assert forall r :: AheadInRoot(s', r) <==> AheadInRoot(s, r);
    assert forall r :: CurrentWhite(s', r) <==> CurrentWhite(s, r);
    forall r | r in s'.heap && Ahead(s, r) ensures Ahead(s', r) { }
  }

  // ---------------------------------------------------------------- the forward barrier

  /** `o` may gain a reference to `v` only, and does not hold keys. */
  ghost predicate Gains(s: State, o: Ref, ob: Object, v: Val) {
    && o in s.heap
    && (forall q :: Points(s.heap[o := ob], o, q) ==> Points(s.heap, o, q) || v == Obj(q))
  }

  lemma ForwardMarking(s: State, o: Ref, v: Val)
    requires TricolorBut(s, o) && s.phase == Propagate && Structure(s, {}) && Alive(s)
    requires o in s.heap && !s.heap[o].Table?
    requires o in s.color && s.color[o] == Black ==> forall q :: Points(s.heap, o, q) && IsWhite(s.color, q) ==> v == Obj(q)
    ensures Inv(Barrier(s, o, v))
  {
    if v.Obj? && IsWhite(s.color, v.ref) && s.color[o] == Black {
      var m := MarkVal(s.heap, MarksOf(s), v);
      MarkValExtends(s.heap, MarksOf(s), v);
      assert Barrier(s, o, v) == WithMarks(s, m);
      BarrierRestores(s, o, v, m);
    } else {
      assert Barrier(s, o, v) == s;
      TricolorWhole(s, o);
    }
  }

  lemma BarrierRestores(s: State, o: Ref, v: Val, m: Marks)
    requires TricolorBut(s, o) && s.phase == Propagate && Structure(s, {}) && Alive(s)
    requires o in s.heap && !s.heap[o].Table? && s.color[o] == Black && v.Obj?
    requires forall q :: Points(s.heap, o, q) && IsWhite(s.color, q) ==> v == Obj(q)
    requires m.color.Keys == s.color.Keys && Extends(s.heap, MarksOf(s), m) && (v.ref in s.heap ==> IsMarked(m.color, v.ref))
    ensures Inv(WithMarks(s, m))
  {
    var s' := WithMarks(s, m);
    ExtendLists(s, MarksOf(s), m);
    forall r ensures ShapeOk(s.heap, m.color, r) && BlackOk(s.heap, m.color, r) {
      if r != o { ExtendOk(s.heap, MarksOf(s), m, r); } else { BlackAgain(s, o, v, m); }
    }
    ExtendAdvances(s, m);
    MarkFrameStructure(s, s');
    MarkFrameAlive(s, s');
  }

  lemma BlackAgain(s: State, o: Ref, v: Val, m: Marks)
    requires Keyed(s) && o in s.heap && !s.heap[o].Table? && s.color[o] == Black && v.Obj? && ShapeOk(s.heap, s.color, o)
    requires forall q :: Points(s.heap, o, q) && IsWhite(s.color, q) ==> v == Obj(q)
    requires m.color.Keys == s.color.Keys && Keeps(s.color, m.color) && (v.ref in s.heap ==> IsMarked(m.color, v.ref))
    ensures ShapeOk(s.heap, m.color, o) && BlackOk(s.heap, m.color, o)
  {
    assert IsMarked(s.color, o);
    forall q | Points(s.heap, o, q) && q in m.color ensures !m.color[q].White? {
      if IsMarked(s.color, q) { assert m.color[q] == s.color[q]; } else { assert IsWhite(s.color, q); }
    }
  }

  /** A store of a live value into a live object, followed by the forward barrier. */
  lemma StoreForward(s: State, o: Ref, ob: Object, v: Val)
    requires Inv(s) && Live(s, o) && LiveVal(s, v) && Fits(s, o, ob) && Gains(s, o, ob, v)
    requires !ob.Table? && (ob.Thread? ==> ob.stack == s.heap[o].stack)
    ensures Inv(Barrier(Replaced(s, o, ob), o, v))
  {
    var s1 := Replaced(s, o, ob);
    ReplaceStructure(s, o, ob);
    forall x, q | Live(s, x) && Points(s1.heap, x, q) && !Points(s.heap, x, q) ensures Live(s, q) {
      ReplacePoints(s.heap, o, ob, x, q);
      GainedOnly(s, o, ob, v, x, q);
    }
    ReplaceAlive(s, o, ob);
    if s.phase == Propagate {
      ReplaceTricolor(s, o, ob);
      assert BlackOk(s.heap, s.color, o);
      ForwardMarking(s1, o, v);
    } else {
      ReplaceQuiet(s, o, ob);
      if v.Obj? && IsWhite(s1.color, v.ref) && s1.color[o] == Black {
        BlackSweeping(s1, o);
        RecolorQuiet(s1, o, White(s1.cw));
      }
    }
  }

  lemma GainedOnly(s: State, o: Ref, ob: Object, v: Val, x: Ref, q: Ref)
    requires Structure(s, {}) && Fits(s, o, ob) && Gains(s, o, ob, v) && LiveVal(s, v) && x in s.heap
    requires ob.Thread? ==> ob.stack == s.heap[o].stack
    requires Points(s.heap[o := ob], x, q) && !Points(s.heap, x, q)
    ensures Live(s, q)
  {
    ReplacePoints(s.heap, o, ob, x, q);
  }

  lemma SetFieldInv(s: State, o: Ref, i: nat, v: Val)
    requires Inv(s) && Live(s, o) && LiveVal(s, v) && !s.heap[o].Table?
    ensures Inv(StoreField(s, o, i, v))
  {
    FieldFits(s, o, i, v);
    StoreForward(s, o, FieldStored(s.heap[o], i, v), v);
  }

  lemma FieldFits(s: State, o: Ref, i: nat, v: Val)
    requires Structure(s, {}) && o in s.heap && !s.heap[o].Table?
    ensures var ob := FieldStored(s.heap[o], i, v);
      Fits(s, o, ob) && Gains(s, o, ob, v) && !ob.Table? && (ob.Thread? ==> ob.stack == s.heap[o].stack)
  {
    assert ThreadOk(s, o);
    forall u | s.heap[o].Thread? && u in s.heap[o].openUpvals ensures Slot(s.heap, u) < |s.heap[o].stack| { assert UpvalOk(s, u); }
  }

  lemma SetGlobalsInv(s: State, th: Ref, g: Val)
    requires Inv(s) && Live(s, th) && LiveVal(s, g) && s.heap[th].Thread?
    ensures Inv(Barrier(s.(heap := s.heap[th := s.heap[th].(globals := g)]), th, g))
  {
    assert ThreadOk(s, th);
    forall u | u in s.heap[th].openUpvals ensures Slot(s.heap, u) < |s.heap[th].stack| { assert UpvalOk(s, u); }
    StoreForward(s, th, s.heap[th].(globals := g), g);
  }

  // ---------------------------------------------------------------- stack stores

  /** A stack store needs no barrier: threads and open upvalues are never black. */
  lemma PutStackInv(s: State, th: Ref, st: seq<Val>)
    requires Inv(s) && th in s.heap && s.heap[th].Thread? && Fits(s, th, s.heap[th].(stack := st))
    requires forall x, q :: Live(s, x) && Points(PutStack(s, th, st).heap, x, q) && !Points(s.heap, x, q) ==> Live(s, q)
    ensures Inv(PutStack(s, th, st))
  {
    var ob := s.heap[th].(stack := st);
    ReplaceStructure(s, th, ob);
    ReplaceAlive(s, th, ob);
    if s.phase == Propagate {
      ReplaceTricolor(s, th, ob);
      assert ShapeOk(s.heap, s.color, th);
      TricolorWhole(Replaced(s, th, ob), th);
    } else {
      ReplaceQuiet(s, th, ob);
    }
  }

  lemma WriteStackInv(s: State, th: Ref, st: seq<Val>)
    requires Inv(s) && Live(s, th) && s.heap[th].Thread?
    requires forall v :: v in st ==> LiveVal(s, v)
    requires forall u :: u in s.heap[th].openUpvals ==> Slot(s.heap, u) < |st|
    ensures Inv(PutStack(s, th, st))
  {
    var ob := s.heap[th].(stack := st);
    forall x, q | Live(s, x) && Points(s.heap[th := ob], x, q) && !Points(s.heap, x, q) ensures Live(s, q) {
      ReplacePoints(s.heap, th, ob, x, q);
      assert Obj(q) in st;
    }
    PutStackInv(s, th, st);
  }

  lemma PushInv(s: State, v: Val)
    requires Inv(s) && LiveVal(s, v)
    ensures Inv(Push(s, v))
  {
    var th := s.running;
    assert th in Roots(s);
    assert Live(s, th) && ThreadOk(s, th);
    forall x | x in s.heap[th].stack ensures LiveVal(s, x) {
      if x.Obj? { assert Points(s.heap, th, x.ref); }
    }
    forall u | u in s.heap[th].openUpvals ensures Slot(s.heap, u) < |s.heap[th].stack| { assert UpvalOk(s, u); }
    WriteStackInv(s, th, s.heap[th].stack + [v]);
  }

  lemma SetUpvalInv(s: State, u: Ref, v: Val)
    requires Inv(s) && Live(s, u) && s.heap[u].UpVal? && LiveVal(s, v)
    ensures Inv(StoreUpval(s, u, v))
  {
    if s.heap[u].home.Closed? {
      SetFieldInv(s, u, 0, v);
    } else {
      var th, slot := s.heap[u].home.thread, s.heap[u].home.slot;
      assert UpvalOk(s, u) && ThreadOk(s, th);
      var st := s.heap[th].stack[slot := v];
      forall w | w in s.heap[th].openUpvals ensures Slot(s.heap, w) < |st| { assert UpvalOk(s, w); }
      forall x, q | Live(s, x) && Points(PutStack(s, th, st).heap, x, q) && !Points(s.heap, x, q) ensures Live(s, q) {
        SlotGains(s, th, slot, v, x, q);
      }
      PutStackInv(s, th, st);
    }
  }

  lemma SlotGains(s: State, th: Ref, slot: nat, v: Val, x: Ref, q: Ref)
    requires th in s.heap && s.heap[th].Thread? && slot < |s.heap[th].stack| && x in s.heap && LiveVal(s, v)
    requires var ob := s.heap[th].(stack := s.heap[th].stack[slot := v]); Points(s.heap[th := ob], x, q) && !Points(s.heap, x, q)
    ensures Live(s, q)
  {
    var st := s.heap[th].stack;
    ReplacePoints(s.heap, th, s.heap[th].(stack := st[slot := v]), x, q);
    assert Obj(q) in st[slot := v] && Obj(q) !in st ==> v == Obj(q);
  }

  // ---------------------------------------------------------------- the backward barrier

  /** Table `t` may have become black-with-a-white-reference through `v` only. */
  ghost predicate OwesOnly(s: State, t: Ref, v: Val) {
    t in s.color && s.color[t] == Black && !BlackOk(s.heap, s.color, t) ==> v.Obj? && IsWhite(s.color, v.ref)
  }

  lemma BackMarking(s: State, t: Ref, v: Val)
    requires TricolorBut(s, t) && s.phase == Propagate && Structure(s, {}) && Alive(s)
    requires t in s.heap && s.heap[t].Table? && OwesOnly(s, t, v)
    ensures Inv(BarrierBack(s, t, v))
  {
    if v.Obj? && IsWhite(s.color, v.ref) && s.color[t] == Black {
      GrayedBack(s, t);
    } else {
      TricolorWhole(s, t);
    }
  }

  lemma GrayedBack(s: State, t: Ref)
    requires TricolorBut(s, t) && s.phase == Propagate && Structure(s, {}) && Alive(s)
    requires t in s.heap && s.heap[t].Table? && s.color[t] == Black
    ensures Inv(s.(color := s.color[t := Gray], grayagain := [t] + s.grayagain))
  {
    var s' := s.(color := s.color[t := Gray], grayagain := [t] + s.grayagain);
    assert !OnList(s, t);
    ConsNoDup(t, s.grayagain);
    assert forall r :: r != t ==> (OnList(s', r) <==> OnList(s, r));
    forall r ensures ShapeOk(s'.heap, s'.color, r) && BlackOk(s'.heap, s'.color, r) {
      assert ShapeOk(s.heap, s.color, r);
      if r != t { assert BlackOk(s.heap, s.color, r); RecolorOk(s.heap, s.color, t, r, s'.color); }
    }
    assert MarkFrame(s, s');
    MarkFrameStructure(s, s');
    MarkFrameAlive(s, s');
  }

  /** Storing live values into a live table, then running the backward barrier for one of them. */
  lemma StoreBack(s: State, t: Ref, ob: Object, v: Val)
    requires Inv(s) && Live(s, t) && s.heap[t].Table? && ob.Table?
    requires forall q :: Points(s.heap[t := ob], t, q) && !Points(s.heap, t, q) ==> Live(s, q)
    requires s.phase == Propagate ==> OwesOnly(Replaced(s, t, ob), t, v)
    ensures Inv(BarrierBack(Replaced(s, t, ob), t, v))
  {
    var s1 := Replaced(s, t, ob);
    ReplaceStructure(s, t, ob);
    forall x, q | Live(s, x) && Points(s1.heap, x, q) && !Points(s.heap, x, q) ensures Live(s, q) {
      ReplacePoints(s.heap, t, ob, x, q);
    }
    ReplaceAlive(s, t, ob);
    if s.phase == Propagate {
      ReplaceTricolor(s, t, ob);
      BackMarking(s1, t, v);
    } else {
      ReplaceQuiet(s, t, ob);
      if v.Obj? && IsWhite(s1.color, v.ref) && s1.color[t] == Black {
        BlackSweeping(s1, t);
        RecolorQuiet(s1, t, Gray);
        AgainQuiet(s1.(color := s1.color[t := Gray]), [t] + s1.grayagain);
      }
    }
  }

  lemma EntryPoints(es: seq<Entry>, i: nat, e: Entry, q: Ref)
    requires var es' := if i < |es| then es[i := e] else es + [e]; EntriesPoint(es', q)
    ensures EntriesPoint(es, q) || e.key == Obj(q) || e.val == Obj(q)
  {
    var es' := if i < |es| then es[i := e] else es + [e];
    var j :| 0 <= j < |es'| && es'[j].val != Nil && (es'[j].key == Obj(q) || es'[j].val == Obj(q));
    if j < |es| && j != i { assert es[j] == es'[j]; }
  }

  lemma EntryStoredPoints(h: Heap, t: Ref, i: nat, key: Val, val: Val, q: Ref)
    requires t in h && h[t].Table? && Points(h[t := EntryStored(h[t], i, key, val)], t, q)
    ensures Points(h, t, q) || key == Obj(q) || val == Obj(q)
  {
    if h[t].meta != Obj(q) { EntryPoints(h[t].entries, i, Entry(key, val), q); }
  }

  /** A black table owes the barrier for the stored value, or for the key if that is new as well. */
  lemma EntryOwes(s: State, t: Ref, i: nat, key: Val, val: Val)
    requires t in s.heap && s.heap[t].Table? && BlackOk(s.heap, s.color, t) && Keyed(s) && LiveVal(s, key)
    ensures var s1 := Replaced(s, t, EntryStored(s.heap[t], i, key, val));
      t in s.color && s.color[t] == Black && !BlackOk(s1.heap, s1.color, t) ==>
        (val.Obj? && IsWhite(s.color, val.ref)) || (NewAt(s.heap[t], i, key) && key.Obj? && IsWhite(s.color, key.ref))
  {
    var ob := EntryStored(s.heap[t], i, key, val);
    var s1 := Replaced(s, t, ob);
    if t in s.color && s.color[t] == Black && !(val.Obj? && IsWhite(s.color, val.ref))
       && !(NewAt(s.heap[t], i, key) && key.Obj? && IsWhite(s.color, key.ref)) {
      assert key.Obj? ==> IsMarked(s.color, key.ref);
      forall q | Points(s1.heap, t, q) && q in s.color ensures !s.color[q].White? {
        EntryStoredPoints(s.heap, t, i, key, val, q);
        assert Points(s.heap, t, q) ==> !s.color[q].White?;
      }
      forall j | 0 <= j < |ob.entries| && ob.entries[j].key.Obj? ensures IsMarked(s.color, ob.entries[j].key.ref) {
        if j < |s.heap[t].entries| && j != i { assert ob.entries[j] == s.heap[t].entries[j]; }
      }
    }
  }

  lemma SetEntryInv(s: State, t: Ref, i: nat, key: Val, val: Val)
    requires Inv(s) && Live(s, t) && s.heap[t].Table? && LiveVal(s, key) && LiveVal(s, val)
    ensures Inv(StoreEntry(s, t, i, key, val))
  {
    var ob := EntryStored(s.heap[t], i, key, val);
    var s1 := Replaced(s, t, ob);
    forall q | Points(s1.heap, t, q) && !Points(s.heap, t, q) ensures Live(s, q) {
      EntryStoredPoints(s.heap, t, i, key, val, q);
    }
    if s.phase == Propagate { assert BlackOk(s.heap, s.color, t); EntryOwes(s, t, i, key, val); }
    if !NewAt(s.heap[t], i, key) || !(key.Obj? && IsWhite(s1.color, key.ref)) {
      assert NewAt(s.heap[t], i, key) ==> BarrierBack(s1, t, key) == s1;
      StoreBack(s, t, ob, val);
    } else {
      StoreBack(s, t, ob, key);
      assert BarrierBack(BarrierBack(s1, t, key), t, val) == BarrierBack(s1, t, key);
    }
  }

  lemma {:induction false} BarrierBacksInv(s: State, t: Ref, vs: seq<Val>)
    requires Inv(s) && Live(s, t) && s.heap[t].Table?
    ensures Inv(BarrierBacks(s, t, vs))
    decreases |vs|
  {
    if vs != [] {
      if s.phase == Propagate { assert BlackOk(s.heap, s.color, t); }
      assert Replaced(s, t, s.heap[t]) == s;
      StoreBack(s, t, s.heap[t], vs[0]);
      BackLive(s, t, vs[0], t);
      BarrierBacksInv(BarrierBack(s, t, vs[0]), t, vs[1..]);
    }
  }

  lemma BackLive(s: State, t: Ref, v: Val, r: Ref)
    requires Keyed(s) && Live(s, r)
    ensures Live(BarrierBack(s, t, v), r)
  {
  }

  /** Every entry of the new layout is an old one, or has neither a value nor an object for a key. */
  ghost predicate LaidFrom(es: seq<Entry>, es0: seq<Entry>) {
    forall i :: 0 <= i < |es| ==> es[i] in es0 || (!es[i].key.Obj? && es[i].val == Nil)
  }

  lemma LaidPoints(es: seq<Entry>, es0: seq<Entry>, q: Ref)
    requires LaidFrom(es, es0) && EntriesPoint(es, q)
    ensures EntriesPoint(es0, q)
  {
    var j :| 0 <= j < |es| && es[j].val != Nil && (es[j].key == Obj(q) || es[j].val == Obj(q));
    assert es[j] in es0;
  }

  lemma LaidBlack(s: State, t: Ref, es: seq<Entry>)
    requires t in s.heap && s.heap[t].Table? && BlackOk(s.heap, s.color, t) && LaidFrom(es, s.heap[t].entries)
    ensures BlackOk(s.heap[t := s.heap[t].(entries := es)], s.color, t)
  {
    var h := s.heap[t := s.heap[t].(entries := es)];
    if t in s.color && s.color[t] == Black {
      forall q | Points(h, t, q) && q in s.color ensures !s.color[q].White? {
        if h[t].meta != Obj(q) { LaidPoints(es, s.heap[t].entries, q); }
        assert Points(s.heap, t, q);
      }
      forall i | 0 <= i < |es| && es[i].key.Obj? ensures IsMarked(s.color, es[i].key.ref) {
        assert es[i] in s.heap[t].entries;
      }
    }
  }

  /** Rebuilding a table's entry vector keeps the invariant, whatever barriers run for its keys. */
  lemma RelayInv(s: State, t: Ref, es: seq<Entry>, moved: seq<Val>)
    requires Inv(s) && Live(s, t) && s.heap[t].Table? && LaidFrom(es, s.heap[t].entries)
    ensures Inv(RelayEntries(s, t, es, moved))
  {
    var ob := s.heap[t].(entries := es);
    var s1 := Replaced(s, t, ob);
    forall q | Points(s1.heap, t, q) ensures Points(s.heap, t, q) {
      if ob.meta != Obj(q) { LaidPoints(es, s.heap[t].entries, q); }
    }
    if s.phase == Propagate { assert BlackOk(s.heap, s.color, t); LaidBlack(s, t, es); }
    StoreBack(s, t, ob, Nil);
    assert BarrierBack(s1, t, Nil) == s1;
    assert Live(s1, t);
    BarrierBacksInv(s1, t, moved);
  }

  lemma SetMetaInv(s: State, t: Ref, mt: Val, wk: bool, wv: bool)
    requires Inv(s) && Live(s, t) && s.heap[t].Table? && LiveVal(s, mt)
    ensures Inv(StoreMeta(s, t, mt, wk, wv))
  {
    var ob := s.heap[t].(meta := mt, weakKey := wk, weakValue := wv);
    var s1 := Replaced(s, t, ob);
    assert forall q :: Points(s1.heap, t, q) ==> Points(s.heap, t, q) || mt == Obj(q);
    if s.phase == Propagate {
      assert BlackOk(s.heap, s.color, t);
      if t in s.color && s.color[t] == Black && !(mt.Obj? && IsWhite(s.color, mt.ref)) {
        forall q | Points(s1.heap, t, q) && q in s.color ensures !s.color[q].White? {
          assert Points(s.heap, t, q) ==> !s.color[q].White?;
        }
      }
    }
    StoreBack(s, t, ob, mt);
  }
}
