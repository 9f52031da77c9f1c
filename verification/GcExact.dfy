/** A full collection is exact: it keeps the objects that are reachable by strong references, the fixed ones
    and the strings that weak tables hold on to; it clears exactly the weak entries of other objects. */
module GcExact {
  import opened GcHeap
  import opened GcMark
  import opened GcCollect
  import opened GcTricolor
  import opened GcAtomic
  import opened GcInvariant
  import opened GcClose
  import opened GcSweep
  import opened GcFrame
  import opened GcStrong
  import opened GcWeak
  import opened GcFull

  ghost function StrongSet(s: State): Ref -> bool { (r: Ref) => StrongReached(s, r) }

  ghost function WeakReached(s: State): set<Ref> { set t | t in s.heap && IsWeak(s.heap[t]) && StrongReached(s, t) }

  /** A string in a weak table that is reachable: the table holds it like a strong one, unless it is the value
      of a key that goes. */
  ghost predicate StringSaved(s: State, r: Ref) {
    r in s.heap && s.heap[r].Str? && SavedBy(s.heap, StrongSet(s), WeakReached(s), r)
  }

  /** What a collection that starts now does not free, besides the fixed objects. */
  ghost predicate Kept(s: State, r: Ref) { StrongReached(s, r) || StringSaved(s, r) }

  // ---------------------------------------------------------------- what becomes of the objects

  /** Entries without a value may lose their key in a traversal. */
  ghost predicate EntriesSurvive(es: seq<Entry>, es': seq<Entry>) {
    |es'| == |es| &&
    forall i :: 0 <= i < |es| ==> es'[i] == es[i] || (es[i].val == Nil && es'[i] == Entry(DeadIfObject(es[i].key), Nil))
  }

  /** What marking leaves of an object. */
  ghost predicate Survives(h: Heap, h': Heap, r: Ref)
    requires r in h && r in h'
  {
    if h[r].Table? then Like(h[r], h'[r]) && EntriesSurvive(h[r].entries, h'[r].entries)
    else SameObject(h, h', r)
  }

  lemma SurvivesTrans(a: Heap, b: Heap, c: Heap, r: Ref)
    requires r in a && r in b && r in c && Survives(a, b, r) && Survives(b, c, r)
    ensures Survives(a, c, r)
  {
  }

  lemma {:induction false} SurvivesKids(es: seq<Entry>, es': seq<Entry>, wk: bool, wv: bool)
    requires EntriesSurvive(es, es')
    ensures TableKids(es', wk, wv) == TableKids(es, wk, wv)
    decreases |es|
  {
    if es != [] { SurvivesKids(es[1..], es'[1..], wk, wv); }
  }

  lemma SurvivesHolds(h: Heap, h': Heap, r: Ref, q: Ref)
    requires r in h && r in h' && Survives(h, h', r)
    ensures Holds(h', r, q) <==> Holds(h, r, q)
  {
    if h[r].Table? { SurvivesKids(h[r].entries, h'[r].entries, h[r].weakKey, h[r].weakValue); } else { SamePoints(h, h', r, q); }
  }

  ghost predicate AllSurvive(h: Heap, h': Heap) {
    h.Keys == h'.Keys && forall r :: r in h ==> Survives(h, h', r)
  }

  lemma AllSurviveTrans(a: Heap, b: Heap, c: Heap)
    requires AllSurvive(a, b) && AllSurvive(b, c)
    ensures AllSurvive(a, c)
  {
    forall r | r in a ensures Survives(a, c, r) { SurvivesTrans(a, b, c, r); }
  }

  lemma AllSurviveRefl(h: Heap)
    ensures AllSurvive(h, h)
  {
    forall r | r in h ensures Survives(h, h, r) { }
  }

  /** An entry after a collection: as EntryLeft says, except that an entry without a value may lose its key. */
  ghost predicate EntryAfter(h: Heap, p: Ref -> bool, weak: bool, e: Entry, e': Entry) {
    var l := if weak then EntryLeft(h, p, e) else e;
    e' == l || (l.val == Nil && e' == Entry(DeadIfObject(l.key), Nil))
  }

  ghost predicate EntriesAfter(h: Heap, p: Ref -> bool, weak: bool, es: seq<Entry>, es': seq<Entry>) {
    |es'| == |es| && forall i :: 0 <= i < |es| ==> EntryAfter(h, p, weak, es[i], es'[i])
  }

  /** What a collection leaves of an object: only entries of weak tables are cleared. */
  ghost predicate SurvivesAs(h: Heap, p: Ref -> bool, h': Heap, r: Ref)
    requires r in h && r in h'
  {
    if h[r].Table? then Like(h[r], h'[r]) && EntriesAfter(h, p, IsWeak(h[r]) && p(r), h[r].entries, h'[r].entries)
    else SameObject(h, h', r)
  }

  lemma SurvivesThen(h: Heap, p: Ref -> bool, h1: Heap, h2: Heap, r: Ref)
    requires r in h && r in h1 && r in h2 && SurvivesAs(h, p, h1, r) && SameObject(h1, h2, r)
    ensures SurvivesAs(h, p, h2, r)
  {
  }

  // ---------------------------------------------------------------- marking, when it is not interleaved with the program

  /** Weak tables that have been traversed are on the list `weak`. */
  ghost predicate WeakListed(s: State) {
    && (forall t :: t in s.heap && t in s.color && IsWeak(s.heap[t]) ==> s.color[t] != Black)
    && forall t :: t in s.weak ==> t in s.heap && IsWeak(s.heap[t])
  }

  lemma ExtendListed(s: State, m: Marks)
    requires Keyed(s) && m.color.Keys == s.color.Keys && Extends(s.heap, MarksOf(s), m) && WeakListed(s)
    ensures WeakListed(WithMarks(s, m))
  {
    forall t | t in s.heap && IsWeak(s.heap[t]) ensures m.color[t] != Black {
      if IsMarked(s.color, t) { assert m.color[t] == s.color[t]; }
      else if IsMarked(m.color, t) { assert IsWhite(s.color, t); assert NewlyMarked(s.heap, m, t); }
    }
  }

  lemma PropagateMarkListed(s: State)
    requires Tricolor(s) && s.gray != [] && WeakListed(s)
    ensures WeakListed(PropagateMark(s)) && AllSurvive(s.heap, PropagateMark(s).heap)
  {
    assert OnList(s, s.gray[0]);
    forall r | r in s.heap ensures Survives(s.heap, PropagateMark(s).heap, r) { }
    forall t | t in s.heap && IsWeak(s.heap[t]) ensures PropagateMark(s).color[t] != Black { TraversedListed(s, t); }
  }

  lemma TraversedListed(s: State, t: Ref)
    requires Tricolor(s) && s.gray != [] && WeakListed(s) && t in s.heap && IsWeak(s.heap[t])
    ensures PropagateMark(s).color[t] != Black
  {
    var o := s.gray[0];
    assert OnList(s, o);
    var h, m0 := PoppedHeap(s), Popped(s);
    MarkValsExtends(h, m0, Kids(s.heap[o]));
    var m := MarkVals(h, m0, Kids(s.heap[o]));
    if t != o {
      if IsMarked(m0.color, t) { assert m.color[t] == s.color[t]; }
      else if IsMarked(m.color, t) { assert IsWhite(m0.color, t); assert NewlyMarked(h, m, t); }
    }
  }

  lemma {:induction false} PropagateAllListed(s: State)
    requires Tricolor(s) && WeakListed(s)
    ensures WeakListed(PropagateAll(s)) && AllSurvive(s.heap, PropagateAll(s).heap)
    decreases |Whites(s.color)|, |s.gray|
  {
    if s.gray == [] {
      AllSurviveRefl(s.heap);
    } else {
      PropagateMarkListed(s);
      PropagateMarkTricolor(s);
      PropagateAllListed(PropagateMark(s));
      AllSurviveTrans(s.heap, PropagateMark(s).heap, PropagateAll(s).heap);
    }
  }

  lemma FirstRoundListed(s: State)
    requires Tricolor(s) && UvheadFull(s) && WeakListed(s)
    ensures WeakListed(FirstRound(s)) && AllSurvive(s.heap, FirstRound(s).heap)
  {
    RemarkSettled(s);
    RemarkOk(s.heap, MarksOf(s), s.uvhead);
    ExtendListed(s, RemarkUpvals(s.heap, MarksOf(s), s.uvhead));
    PropagateAllListed(WithMarks(s, RemarkUpvals(s.heap, MarksOf(s), s.uvhead)));
  }

  lemma SecondRoundListed(s: State)
    requires Tricolor(s) && s.gray == [] && Settled(s, true, true, false) && WeakListed(s)
    ensures WeakListed(SecondRound(s)) && AllSurvive(s.heap, SecondRound(s).heap)
  {
    var s2 := s.(gray := s.weak, weak := []);
    MoveLists(s, s2, false);
    var vs := [Obj(s2.running)] + s2.mt;
    MarkMore(s2, vs, true, false, false);
    MarkValsExtends(s2.heap, MarksOf(s2), vs);
    ExtendListed(s2, MarkVals(s2.heap, MarksOf(s2), vs));
    PropagateAllListed(WithMarks(s2, MarkVals(s2.heap, MarksOf(s2), vs)));
  }

  lemma LastRoundListed(s: State)
    requires Tricolor(s) && s.gray == [] && Settled(s, true, false, false) && WeakListed(s)
    ensures WeakListed(LastRound(s)) && AllSurvive(s.heap, LastRound(s).heap)
  {
    var s1 := s.(gray := s.grayagain, grayagain := []);
    MoveLists(s, s1, true);
    PropagateAllListed(s1);
  }

  lemma MarkRestListed(s: State)
    requires Tricolor(s) && UvheadFull(s) && WeakListed(s)
    ensures WeakListed(MarkRest(s)) && AllSurvive(s.heap, MarkRest(s).heap)
  {
    FirstRoundOk(s);
    FirstRoundListed(s);
    SecondRoundOk(FirstRound(s));
    SecondRoundListed(FirstRound(s));
    LastRoundListed(SecondRound(FirstRound(s)));
    AllSurviveTrans(s.heap, FirstRound(s).heap, SecondRound(FirstRound(s)).heap);
    AllSurviveTrans(s.heap, SecondRound(FirstRound(s)).heap, MarkRest(s).heap);
  }

  /** When marking is over, the list has exactly the marked weak tables. */
  lemma WeakExact(y: State)
    requires Tricolor(y) && y.gray == [] && AgainThreads(y) && WeakListed(y)
    ensures NoDup(y.weak) && forall t :: t in y.weak <==> t in y.heap && IsWeak(y.heap[t]) && IsMarked(y.color, t)
  {
    forall t | t in y.heap && IsWeak(y.heap[t]) && IsMarked(y.color, t) ensures t in y.weak { assert OnList(y, t); }
    forall t | t in y.weak ensures IsMarked(y.color, t) { assert OnList(y, t); }
  }

  // ---------------------------------------------------------------- one cycle, seen from its start

  ghost predicate SameRoots(b: State, x: State) {
    x.fixed == b.fixed && x.main == b.main && x.running == b.running && x.registry == b.registry && x.mt == b.mt
  }

  /** While marking: only objects reachable at the start `b` are marked. */
  ghost predicate MarkCycle(b: State, x: State) {
    && SameRoots(b, x) && AllSurvive(b.heap, x.heap) && WeakListed(x)
    && MarkedIn(x, StrongSet(b))
  }

  /** While sweeping: the objects kept are live, the others are fixed, doomed or gone. */
  ghost predicate SweepCycle(b: State, x: State) {
    && SameRoots(b, x)
    && (forall r :: r in x.heap ==> r in b.heap && SurvivesAs(b.heap, StrongSet(b), x.heap, r))
    && (forall r :: Kept(b, r) ==> Live(x, r))
    && (forall r :: r in b.fixed ==> r in x.heap)
    && (forall r :: r in x.heap && !Kept(b, r) && r !in b.fixed ==> Doomed(x, r))
  }

  lemma ClosedReached(b: State, h: Heap)
    requires AllSurvive(b.heap, h)
    ensures ClosedSet(h, StrongSet(b))
  {
    forall r, q | StrongReached(b, r) && Holds(h, r, q) ensures StrongReached(b, q) {
      SurvivesHolds(b.heap, h, r, q);
      StepStrong(b, r, q);
    }
  }

  lemma RootsReached(b: State)
    ensures StrongReached(b, b.main) && StrongReached(b, b.running)
    ensures b.registry.Obj? ==> StrongReached(b, b.registry.ref)
    ensures forall v :: v in b.mt && v.Obj? ==> StrongReached(b, v.ref)
  {
    RootStrong(b, b.main);
    RootStrong(b, b.running);
    if b.registry.Obj? { assert b.registry in [b.registry]; RootStrong(b, b.registry.ref); }
    forall v | v in b.mt && v.Obj? ensures StrongReached(b, v.ref) { RootStrong(b, v.ref); }
  }

  lemma StartCycle(b: State)
    requires Structure(b, {}) && Alive(b) && AllCurrent(b)
    ensures MarkCycle(b, MarkRoot(b))
  {
    AllSurviveRefl(b.heap);
    StartWithin(b);
    StartListed(b);
  }

  lemma StartWithin(b: State)
    requires Structure(b, {}) && AllCurrent(b)
    ensures MarkedIn(MarkRoot(b), StrongSet(b))
  {
    var p, vs := StrongSet(b), RootValues(b);
    AllSurviveRefl(b.heap);
    ClosedReached(b, b.heap);
    RootsReached(b);
    forall v | v in vs && v.Obj? ensures p(v.ref) {
      if v == Globals(b) && v.Obj? { assert Holds(b.heap, b.main, v.ref); }
    }
    forall r ensures !IsMarked(b.color, r) { if r in b.heap { assert CurrentWhite(b, r); } }
    MarkValsWithin(b.heap, Marks(b.color, []), vs, p);
  }

  lemma StartListed(b: State)
    requires Keyed(b) && AllCurrent(b)
    ensures WeakListed(MarkRoot(b))
  {
    var b0 := b.(gray := [], grayagain := [], weak := []);
    var m := MarkVals(b.heap, MarksOf(b0), RootValues(b));
    MarkValsExtends(b.heap, MarksOf(b0), RootValues(b));
    forall t | t in b.heap ensures b.color[t] != Black { assert CurrentWhite(b, t); }
    ExtendListed(b0, m);
    assert MarkRoot(b).color == m.color;
  }

  lemma PropagateCycle(b: State, x: State)
    requires Inv(x) && x.phase == Propagate && x.gray != [] && MarkCycle(b, x)
    ensures MarkCycle(b, PropagateMark(x))
  {
    ClosedReached(b, x.heap);
    PropagateMarkWithin(x, StrongSet(b));
    PropagateMarkListed(x);
    AllSurviveTrans(b.heap, x.heap, PropagateMark(x).heap);
  }

  // ---------------------------------------------------------------- atomic

  /** Before the weak tables are cleared: exactly what is reachable is marked. */
  ghost predicate Marked(b: State, y: State) {
    && SameRoots(b, y) && AllSurvive(b.heap, y.heap) && Keyed(y)
    && (forall r :: IsMarked(y.color, r) <==> StrongReached(b, r))
    && NoDup(y.weak) && forall t :: t in y.weak <==> t in WeakReached(b)
  }

  lemma RestMarked(b: State, x: State)
    requires Inv(x) && x.phase == Propagate && MarkCycle(b, x)
    ensures Marked(b, MarkRest(x)) && MarkFrame(x, MarkRest(x))
  {
    var y := MarkRest(x);
    forall u | u in x.heap && IsOpen(x.heap[u]) ensures u in x.uvhead { assert UpvalOk(x, u); }
    MarkRestOk(x);
    MarkRestListed(x);
    AllSurviveTrans(b.heap, x.heap, y.heap);
    ClosedReached(b, x.heap);
    RootsReached(b);
    MarkRestWithin(x, StrongSet(b));
    MarkedRoots(x, y);
    forall r | StrongReached(b, r) ensures IsMarked(y.color, r) { ReachedMarked(b, y, r); }
    WeakExact(y);
    forall t ensures t in y.weak <==> t in WeakReached(b) { WeakSame(b, y, t); }
  }

  lemma WeakSame(b: State, y: State, t: Ref)
    requires AllSurvive(b.heap, y.heap)
    ensures t in b.heap <==> t in y.heap
    ensures t in b.heap ==> (IsWeak(b.heap[t]) <==> IsWeak(y.heap[t]))
  {
    if t in b.heap { assert Survives(b.heap, y.heap, t); }
  }

  lemma MarkedRoots(x: State, y: State)
    requires Inv(x) && Marking(x) && MarkFrame(x, y) && ValsMarked(y, [Obj(x.running)] + x.mt)
    ensures Roots(y) == Roots(x) && forall r :: r in Roots(y) ==> IsMarked(y.color, r)
  {
    MarkFrameAlive(x, y);
    RootsFinished(x, y);
  }

  lemma ReachedMarked(b: State, y: State, r: Ref)
    requires Roots(y) == Roots(b) && AllSurvive(b.heap, y.heap) && forall m :: m in Roots(y) ==> IsMarked(y.color, m)
    requires Tricolor(y) && y.gray == [] && Settled(y, false, false, false) && AgainThreads(y)
    requires StrongReached(b, r)
    ensures IsMarked(y.color, r)
  {
    var live := set m | m in y.color && IsMarked(y.color, m);
    RestClosed(y);
    forall m, q | m in live && Holds(b.heap, m, q) ensures q in live { SurvivesHolds(b.heap, y.heap, m, q); }
    StrongWithin(b, live, r);
  }

  lemma MarkedSame(b: State, y: State)
    requires Marked(b, y)
    ensures SameKept(b.heap, StrongSet(b), y.heap, MarkSet(y.color))
  {
    forall r | r in b.heap ensures y.heap[r].Str? == b.heap[r].Str? && MarkSet(y.color)(r) == StrongSet(b)(r) {
      assert Survives(b.heap, y.heap, r);
    }
  }

  /** Clearing the weak tables leaves of every object what SurvivesAs says. */
  lemma ClearedSurvive(b: State, y: State, f: State, r: Ref)
    requires Marked(b, y) && ClearedExactly(y, f, SetOf(y.weak)) && r in b.heap
    ensures r in f.heap && SurvivesAs(b.heap, StrongSet(b), f.heap, r)
  {
    assert Survives(b.heap, y.heap, r);
    MarkedSame(b, y);
    var p, q := StrongSet(b), MarkSet(y.color);
    if b.heap[r].Table? {
      var es, es1, weak := b.heap[r].entries, y.heap[r].entries, IsWeak(b.heap[r]) && p(r);
      assert r in y.weak <==> weak;
      assert f.heap[r] == if weak then y.heap[r].(entries := AllLeft(y.heap, q, es1)) else y.heap[r];
      forall i | 0 <= i < |es| ensures EntryAfter(b.heap, p, weak, es[i], f.heap[r].entries[i]) {
        SameLeft(b.heap, p, y.heap, q, es1[i], 0);
        assert es1[i] == es[i] || (es[i].val == Nil && es1[i] == Entry(DeadIfObject(es[i].key), Nil));
      }
    } else {
      SameValues(b.heap, y.heap, f, y, r);
    }
  }

  /** Objects that are no tables are untouched by clearing. */
  lemma SameValues(h: Heap, h1: Heap, f: State, y: State, r: Ref)
    requires r in h && h1 == y.heap && r in h1 && SameObject(h, h1, r) && !h[r].Table? && ClearedExactly(y, f, SetOf(y.weak))
    ensures r in f.heap && SameObject(h, f.heap, r)
  {
    KindsLeft(y, f, SetOf(y.weak));
    assert f.heap[r] == h1[r];
    if h[r].UpVal? && h1[r].home.Open? {
      var th := h1[r].home.thread;
      if th in h1 && h1[th].Thread? { assert f.heap[th] == h1[th]; }
    }
  }

  lemma {:induction false} SavedSurvives(h: Heap, p: Ref -> bool, es: seq<Entry>, es': seq<Entry>, q: Ref)
    requires EntriesSurvive(es, es')
    ensures SavedIn(h, p, es', q) <==> SavedIn(h, p, es, q)
  {
    forall i | 0 <= i < |es| ensures Saves(h, p, es'[i], q) <==> Saves(h, p, es[i], q) { }
  }

  lemma SavedSame(b: State, y: State, q: Ref)
    requires Marked(b, y)
    ensures SavedBy(y.heap, MarkSet(y.color), SetOf(y.weak), q) <==> SavedBy(b.heap, StrongSet(b), WeakReached(b), q)
  {
    MarkedSame(b, y);
    forall t | t in WeakReached(b) && t in b.heap
      ensures y.heap[t].Table? == b.heap[t].Table?
      ensures b.heap[t].Table? ==>
        (SavedIn(y.heap, MarkSet(y.color), y.heap[t].entries, q) <==> SavedIn(b.heap, StrongSet(b), b.heap[t].entries, q))
    {
      assert Survives(b.heap, y.heap, t);
      if b.heap[t].Table? {
        LeftSame(b.heap, StrongSet(b), y.heap, MarkSet(y.color), y.heap[t].entries);
        SavedSurvives(b.heap, StrongSet(b), b.heap[t].entries, y.heap[t].entries, q);
      }
    }
  }

  /** Afterwards exactly what is kept is marked. */
  lemma ClearedKept(b: State, y: State, f: State, r: Ref)
    requires Marked(b, y) && ClearedExactly(y, f, SetOf(y.weak)) && r in b.heap
    ensures r in f.color && (IsMarked(f.color, r) <==> Kept(b, r))
  {
    SavedSame(b, y, r);
    assert Survives(b.heap, y.heap, r);
    assert r in y.color;
  }

  /** The flip: what is kept is live, all else is dead. */
  lemma AtomicCycle(b: State, x: State)
    requires Inv(x) && x.phase == Propagate && MarkCycle(b, x) && forall r :: r in b.fixed ==> r in b.heap
    ensures SweepCycle(b, Atomic(x))
  {
    var y, f := MarkRest(x), FinishMarking(x);
    RestMarked(b, x);
    forall t | t in y.weak ensures t in y.heap && y.heap[t].Table? { WeakSame(b, y, t); }
    ClearTablesExact(y, y.weak);
    AtomicMarks(x);
    FlipCycle(b, x, y, f);
  }

  lemma FlipCycle(b: State, x: State, y: State, f: State)
    requires Marked(b, y) && ClearedExactly(y, f, SetOf(y.weak)) && NoDead(x) && MarkFrame(x, f) && SameRoots(b, f)
    requires forall r :: r in b.fixed ==> r in b.heap
    ensures SweepCycle(b, Flip(f))
  {
    var e := Flip(f);
    assert f.heap.Keys == b.heap.Keys;
    forall r | r in e.heap ensures r in b.heap && SurvivesAs(b.heap, StrongSet(b), e.heap, r) { ClearedSurvive(b, y, f, r); }
    forall r | Kept(b, r) ensures Live(e, r) { KeptThere(b, y, r); FlipColor(b, x, y, f, r); }
    forall r | r in e.heap && !Kept(b, r) && r !in b.fixed ensures Doomed(e, r) { FlipColor(b, x, y, f, r); }
  }

  lemma FlipColor(b: State, x: State, y: State, f: State, r: Ref)
    requires Marked(b, y) && ClearedExactly(y, f, SetOf(y.weak)) && NoDead(x) && MarkFrame(x, f) && r in b.heap
    ensures r in f.heap && r in f.color && (Kept(b, r) ==> Live(Flip(f), r)) && (!Kept(b, r) ==> IsDead(Flip(f), r))
  {
    ClearedKept(b, y, f, r);
    Whiteness(x, f, r);
  }

  lemma Whiteness(x: State, f: State, r: Ref)
    requires NoDead(x) && MarkFrame(x, f) && r in f.heap
    ensures IsMarked(f.color, r) || f.color[r] == White(f.cw)
  {
    if !IsMarked(f.color, r) {
      assert IsWhite(f.color, r) && !IsMarked(x.color, r);
      assert IsWhite(x.color, r);
    }
  }

  lemma KeptThere(b: State, y: State, r: Ref)
    requires Marked(b, y) && Kept(b, r)
    ensures r in b.heap
  {
  }

  lemma FrameCycle(b: State, x: State, x': State)
    requires SweepFrame(x, x') && SweepCycle(b, x)
    ensures SweepCycle(b, x')
  {
    forall r | r in x'.heap ensures r in b.heap && SurvivesAs(b.heap, StrongSet(b), x'.heap, r) {
      SurvivesThen(b.heap, StrongSet(b), x.heap, x'.heap, r);
    }
    forall r | Kept(b, r) ensures Live(x', r) { FrameLive(x, x', r); }
    forall r | r in b.fixed ensures r in x'.heap { assert !Doomed(x, r); }
  }

  lemma SweepStepCycle(b: State, x: State)
    requires Inv(x) && (x.phase == SweepString || x.phase == Sweep) && SweepCycle(b, x)
    ensures SweepCycle(b, SingleStep(x))
  {
    SweepStepFrame(x);
    FrameCycle(b, x, SingleStep(x));
  }

  ghost predicate Cycle(b: State, x: State) {
    if x.phase == Propagate then MarkCycle(b, x) else SweepCycle(b, x)
  }

  lemma StepCycle(b: State, x: State)
    requires Inv(x) && x.phase != Pause && Cycle(b, x) && forall r :: r in b.fixed ==> r in b.heap
    ensures Cycle(b, SingleStep(x))
  {
    match x.phase
    case Propagate => if x.gray != [] { PropagateCycle(b, x); } else { AtomicCycle(b, x); }
    case SweepString => SweepStepCycle(b, x);
    case Sweep => SweepStepCycle(b, x); SweepListInv(x, SWEEP_MAX);
    case Finalize => assert forall r :: Live(SingleStep(x), r) <==> Live(x, r);
  }

  lemma {:induction false} RunCycle(b: State, x: State)
    requires Inv(x) && Cycle(b, x) && forall r :: r in b.fixed ==> r in b.heap
    ensures Cycle(b, RunTo(x, Pause))
    decreases Rank(x.phase), Left(x), |x.gray|
  {
    if x.phase != Pause {
      SingleStepInv(x); StepProgress(x);
      StepCycle(b, x);
      RunCycle(b, SingleStep(x));
    }
  }

  /** The pending sweep that luaC_fullgc finishes first. */
  lemma {:induction false} RunSweepFrame(x: State)
    requires Inv(x) && (x.phase == SweepString || x.phase == Sweep || x.phase == Finalize)
    ensures SweepFrame(x, RunTo(x, Finalize))
    decreases Rank(x.phase), Left(x), |x.gray|
  {
    if x.phase == Finalize {
      FrameRefl(x);
    } else {
      SingleStepInv(x); StepProgress(x); NotPastFinalize(x);
      SweepStepFrame(x);
      RunSweepFrame(SingleStep(x));
      FrameTrans(x, SingleStep(x), RunTo(x, Finalize));
    }
  }

  // ---------------------------------------------------------------- the sweep in front

  /** A sweep changes neither what is reachable nor the reachable objects. */
  lemma FrameStrong(x: State, x': State, r: Ref)
    requires SweepFrame(x, x') && Alive(x) && Alive(x')
    ensures StrongReached(x, r) <==> StrongReached(x', r)
  {
    assert Roots(x') == Roots(x);
    forall y, z | StrongReached(x, y) && StrongReached(x', y) ensures Holds(x.heap, y, z) <==> Holds(x'.heap, y, z) {
      StrongIsReached(x', y);
      ReachableLive(x', y);
      SameHolds(x.heap, x'.heap, y, z);
    }
    if StrongReached(x, r) { StrongTransfer(x, x', r); }
    if StrongReached(x', r) { StrongTransfer(x', x, r); }
  }

  lemma SameHolds(h: Heap, h': Heap, r: Ref, q: Ref)
    requires r in h && r in h' && SameObject(h, h', r)
    ensures Holds(h', r, q) <==> Holds(h, r, q)
  {
    if !h[r].Table? { SamePoints(h, h', r, q); }
  }

  /** What a reachable table refers to, in any way, is there before and after. */
  lemma EntryThere(x: State, x': State, t: Ref, i: nat)
    requires SweepFrame(x, x') && Alive(x) && StrongReached(x, t) && t in x.heap && x.heap[t].Table?
    requires i < |x.heap[t].entries| && x.heap[t].entries[i].val != Nil
    ensures var e := x.heap[t].entries[i];
      && (e.key.Obj? ==> e.key.ref in x.heap && e.key.ref in x'.heap)
      && (e.val.Obj? ==> e.val.ref in x.heap && e.val.ref in x'.heap)
  {
    var e := x.heap[t].entries[i];
    StrongIsReached(x, t);
    ReachableLive(x, t);
    if e.key.Obj? { assert EntriesPoint(x.heap[t].entries, e.key.ref); FrameLive(x, x', e.key.ref); }
    if e.val.Obj? { assert EntriesPoint(x.heap[t].entries, e.val.ref); FrameLive(x, x', e.val.ref); }
  }

  lemma FrameEntry(x: State, x': State, t: Ref, i: nat, q: Ref)
    requires SweepFrame(x, x') && Alive(x) && Alive(x') && StrongReached(x, t) && t in x.heap && x.heap[t].Table? && i < |x.heap[t].entries|
    ensures var e := x.heap[t].entries[i];
      && EntryLeft(x'.heap, StrongSet(x'), e) == EntryLeft(x.heap, StrongSet(x), e)
      && (Saves(x'.heap, StrongSet(x'), e, q) <==> Saves(x.heap, StrongSet(x), e, q))
  {
    var e := x.heap[t].entries[i];
    if e.val != Nil {
      EntryThere(x, x', t, i);
      if e.key.Obj? { FrameStrong(x, x', e.key.ref); assert SameObject(x.heap, x'.heap, e.key.ref); }
      if e.val.Obj? { FrameStrong(x, x', e.val.ref); assert SameObject(x.heap, x'.heap, e.val.ref); }
    }
  }

  /** Reachable tables are the same before and after. */
  lemma FrameTable(x: State, x': State, t: Ref)
    requires SweepFrame(x, x') && Alive(x) && Alive(x')
    ensures t in WeakReached(x) <==> t in WeakReached(x')
    ensures StrongReached(x, t) && t in x.heap ==> t in x'.heap && (x.heap[t].Table? || x'.heap[t].Table? ==> x'.heap[t] == x.heap[t])
  {
    FrameStrong(x, x', t);
    if StrongReached(x, t) {
      StrongIsReached(x, t);
      ReachableLive(x, t);
      FrameLive(x, x', t);
      assert SameObject(x.heap, x'.heap, t);
    }
  }

  lemma FrameSaved(x: State, x': State, t: Ref, q: Ref)
    requires SweepFrame(x, x') && Alive(x) && Alive(x') && StrongReached(x, t) && t in x.heap && x.heap[t].Table?
    ensures SavedIn(x'.heap, StrongSet(x'), x.heap[t].entries, q) <==> SavedIn(x.heap, StrongSet(x), x.heap[t].entries, q)
  {
    forall i | 0 <= i < |x.heap[t].entries|
      ensures Saves(x'.heap, StrongSet(x'), x.heap[t].entries[i], q) <==> Saves(x.heap, StrongSet(x), x.heap[t].entries[i], q)
    {
      FrameEntry(x, x', t, i, q);
    }
  }

  /** The pending sweep does not change what a collection keeps. */
  lemma FrameKept(x: State, x': State, r: Ref)
    requires SweepFrame(x, x') && Alive(x) && Alive(x')
    ensures Kept(x, r) <==> Kept(x', r)
    ensures Kept(x, r) && r in x.heap ==> r in x'.heap
  {
    FrameStrong(x, x', r);
    if StrongReached(x, r) { FrameTable(x, x', r); }
    if StringSaved(x, r) {
      var t :| t in WeakReached(x) && t in x.heap && x.heap[t].Table? && SavedIn(x.heap, StrongSet(x), x.heap[t].entries, r);
      FrameTable(x, x', t);
      FrameSaved(x, x', t, r);
      SavedThere(x, x', t, r);
      assert SavedIn(x'.heap, StrongSet(x'), x'.heap[t].entries, r);
    }
    if StringSaved(x', r) {
      var t :| t in WeakReached(x') && t in x'.heap && x'.heap[t].Table? && SavedIn(x'.heap, StrongSet(x'), x'.heap[t].entries, r);
      FrameTable(x, x', t);
      FrameSaved(x, x', t, r);
      assert SavedIn(x.heap, StrongSet(x), x.heap[t].entries, r);
      assert r in x.heap && SameObject(x.heap, x'.heap, r);
    }
  }

  lemma SavedThere(x: State, x': State, t: Ref, q: Ref)
    requires SweepFrame(x, x') && Alive(x) && StrongReached(x, t) && t in x.heap && x.heap[t].Table?
    requires SavedIn(x.heap, StrongSet(x), x.heap[t].entries, q) && q in x.heap && x.heap[q].Str?
    ensures q in x'.heap && x'.heap[q].Str?
  {
    var i :| 0 <= i < |x.heap[t].entries| && Saves(x.heap, StrongSet(x), x.heap[t].entries[i], q);
    EntryThere(x, x', t, i);
    assert SameObject(x.heap, x'.heap, q);
  }

  lemma FrameSurvives(x: State, b: State, e: State, r: Ref)
    requires SweepFrame(x, b) && Alive(x) && Alive(b) && r in e.heap && r in b.heap && SurvivesAs(b.heap, StrongSet(b), e.heap, r)
    ensures r in x.heap && SurvivesAs(x.heap, StrongSet(x), e.heap, r)
  {
    assert SameObject(x.heap, b.heap, r);
    FrameStrong(x, b, r);
    if x.heap[r].Table? {
      forall i | 0 <= i < |x.heap[r].entries| && StrongReached(x, r)
        ensures EntryLeft(b.heap, StrongSet(b), x.heap[r].entries[i]) == EntryLeft(x.heap, StrongSet(x), x.heap[r].entries[i])
      {
        FrameEntry(x, b, r, i, 0);
      }
    }
  }

  // ---------------------------------------------------------------- luaC_fullgc

  /** At the end of a sweep nothing is doomed any more. */
  lemma CycleEnd(b: State, e: State)
    requires SweepCycle(b, e) && AllCurrent(e) && forall r :: Kept(b, r) ==> r in b.heap
    ensures forall r :: r in e.heap <==> r in b.heap && (Kept(b, r) || r in b.fixed)
    ensures forall r :: r in e.heap ==> r in b.heap && SurvivesAs(b.heap, StrongSet(b), e.heap, r)
  {
    forall r | r in e.heap ensures Kept(b, r) || r in b.fixed { assert CurrentWhite(e, r); }
  }

  lemma KeptAlive(b: State, r: Ref)
    requires Alive(b) && Keyed(b) && Kept(b, r)
    ensures r in b.heap
  {
    if StrongReached(b, r) { StrongIsReached(b, r); ReachableLive(b, r); }
  }

  /** The cycle luaC_fullgc then runs keeps exactly what is kept or fixed at its start. */
  lemma CycleExact(b: State)
    requires Inv(b) && b.phase == Finalize && Inv(MarkRoot(b))
    ensures var e := RunTo(MarkRoot(b), Pause);
      && (forall r :: r in e.heap <==> r in b.heap && (Kept(b, r) || r in b.fixed))
      && (forall r :: r in e.heap ==> r in b.heap && SurvivesAs(b.heap, StrongSet(b), e.heap, r))
  {
    StartCycle(b);
    RunCycle(b, MarkRoot(b));
    forall r | Kept(b, r) ensures r in b.heap { KeptAlive(b, r); }
    CycleEnd(b, RunTo(MarkRoot(b), Pause));
  }

  /** Full collection, from any phase: what is left is exactly what is reachable by strong references, the
      fixed objects and the strings that weak tables save; exactly the weak entries of objects that go are
      cleared, all other contents are kept, and every survivor ends in the current white. */
  lemma FullGcExact(s: State)
    requires Inv(s)
    ensures var e := FullGc(s);
      && (forall r :: r in e.heap <==> r in s.heap && (Kept(s, r) || r in s.fixed))
      && (forall r :: r in e.heap ==> r in s.heap && SurvivesAs(s.heap, StrongSet(s), e.heap, r))
      && AllCurrent(e) && e.phase == Pause
  {
    StartSweepInv(s);
    var s0 := StartSweep(s);
    RunSweepFrame(s0);
    var b := RunTo(s0, Finalize);
    MarkRootInv(b);
    CycleExact(b);
    SameStart(s, s0);
    EndExact(s, s0, b, RunTo(MarkRoot(b), Pause));
  }

  lemma SameStart(s: State, s0: State)
    requires s0.heap == s.heap && Roots(s0) == Roots(s)
    ensures forall r :: Kept(s0, r) <==> Kept(s, r)
    ensures forall r :: StrongSet(s0)(r) == StrongSet(s)(r)
  {
    assert forall r :: StrongReached(s0, r) <==> StrongReached(s, r);
    assert WeakReached(s0) == WeakReached(s);
    forall q, es ensures SavedIn(s.heap, StrongSet(s0), es, q) <==> SavedIn(s.heap, StrongSet(s), es, q) {
      LeftSame(s.heap, StrongSet(s), s.heap, StrongSet(s0), es);
    }
  }

  lemma EndExact(s: State, s0: State, b: State, e: State)
    requires s0.heap == s.heap && s0.fixed == s.fixed && SweepFrame(s0, b) && Alive(s0) && Alive(b) && Anchors(s)
    requires (forall r :: Kept(s0, r) <==> Kept(s, r)) && forall r :: StrongSet(s0)(r) == StrongSet(s)(r)
    requires forall r :: r in e.heap <==> r in b.heap && (Kept(b, r) || r in b.fixed)
    requires forall r :: r in e.heap ==> r in b.heap && SurvivesAs(b.heap, StrongSet(b), e.heap, r)
    ensures forall r :: r in e.heap <==> r in s.heap && (Kept(s, r) || r in s.fixed)
    ensures forall r :: r in e.heap ==> r in s.heap && SurvivesAs(s.heap, StrongSet(s), e.heap, r)
  {
    forall r ensures Kept(s, r) <==> Kept(b, r) { FrameKept(s0, b, r); }
    forall r | r in s.heap && (Kept(s, r) || r in s.fixed) ensures r in b.heap {
      FrameKept(s0, b, r);
      if r in s.fixed { assert !Doomed(s0, r); }
    }
    forall r | r in e.heap ensures r in s.heap && SurvivesAs(s.heap, StrongSet(s), e.heap, r) {
      FrameSurvives(s0, b, e, r);
      AsBefore(s.heap, StrongSet(s0), StrongSet(s), e.heap, r);
    }
  }

  lemma AsBefore(h: Heap, p: Ref -> bool, p': Ref -> bool, h': Heap, r: Ref)
    requires r in h && r in h' && SurvivesAs(h, p, h', r) && forall x :: p'(x) == p(x)
    ensures SurvivesAs(h, p', h', r)
  {
    if h[r].Table? {
      forall i | 0 <= i < |h[r].entries| ensures EntryAfter(h, p', IsWeak(h[r]) && p'(r), h[r].entries[i], h'[r].entries[i]) {
        assert EntryAfter(h, p, IsWeak(h[r]) && p(r), h[r].entries[i], h'[r].entries[i]);
        SameLeft(h, p, h, p', h[r].entries[i], 0);
      }
    }
  }

  /** Without weak tables: exactly the unreachable objects that are not fixed are freed. */
  lemma FullGcPlain(s: State)
    requires Inv(s) && NoWeak(s.heap)
    ensures forall r :: r in FullGc(s).heap <==> r in s.heap && (Reached(s, r) || r in s.fixed)
  {
    FullGcExact(s);
    forall r ensures Kept(s, r) <==> Reached(s, r) { StrongIffReached(s, r); }
  }
}
