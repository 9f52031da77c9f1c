/** The end of the mark phase: after atomic, whatever a marked object points to is marked. */
module GcAtomic {
  import opened GcHeap
  import opened GcMark
  import opened GcCollect
  import opened GcTricolor

  /** Objects as marking leaves them: only the entries of tables may have changed. */
  predicate Like(o: Object, o': Object) {
    if o.Table? then
      o'.Table? && o'.meta == o.meta && o'.weakKey == o.weakKey && o'.weakValue == o.weakValue
    else o' == o
  }

  /** Same objects, and no reference that was not there before. */
  ghost predicate Shrinks(h: Heap, h': Heap) {
    && h.Keys == h'.Keys
    && (forall r :: r in h ==> Like(h[r], h'[r]))
    && (forall r, q :: Points(h', r, q) ==> Points(h, r, q))
  }

  /** What every part of marking leaves alone. */
  ghost predicate MarkFrame(s: State, s': State) {
    && s' == s.(heap := s'.heap, color := s'.color, gray := s'.gray, grayagain := s'.grayagain, weak := s'.weak)
    && Keyed(s) && Keyed(s')
    && Shrinks(s.heap, s'.heap)
    && (forall r :: IsMarked(s.color, r) ==> IsMarked(s'.color, r))
    && (forall r :: IsWhite(s.color, r) && IsWhite(s'.color, r) ==> s'.color[r] == s.color[r])
  }

  /** The traversal does not drop references either. */
  ghost predicate KeepsPoints(h: Heap, h': Heap) {
    forall r, q :: Points(h, r, q) ==> Points(h', r, q)
  }

  lemma MarkFrameTrans(a: State, b: State, c: State)
    requires MarkFrame(a, b) && MarkFrame(b, c)
    ensures MarkFrame(a, c)
  {
    forall r | r in a.heap ensures Like(a.heap[r], c.heap[r]) {
      assert Like(a.heap[r], b.heap[r]) && Like(b.heap[r], c.heap[r]);
    }
    forall r | IsWhite(a.color, r) && IsWhite(c.color, r) ensures c.color[r] == a.color[r] {
      assert !IsMarked(b.color, r);
      assert IsWhite(b.color, r);
    }
  }

  lemma PropagateMarkFrame(s: State)
    requires Tricolor(s) && s.gray != []
    ensures MarkFrame(s, PropagateMark(s)) && KeepsPoints(s.heap, PropagateMark(s).heap)
  {
    var o, s' := s.gray[0], PropagateMark(s);
    assert OnList(s, o);
    forall r, q ensures Points(s'.heap, r, q) <==> Points(s.heap, r, q) { PrunedPoints(s.heap, o, r, q); }
    PropagateMarkColors(s);
  }

  lemma PropagateMarkColors(s: State)
    requires Tricolor(s) && s.gray != []
    ensures forall r :: IsMarked(s.color, r) ==> IsMarked(PropagateMark(s).color, r)
    ensures forall r :: IsWhite(s.color, r) && IsWhite(PropagateMark(s).color, r) ==> PropagateMark(s).color[r] == s.color[r]
  {
    var o, m0 := s.gray[0], Popped(s);
    assert OnList(s, o);
    MarkValsKeeps(PoppedHeap(s), m0, Kids(s.heap[o]));
    assert forall r :: IsMarked(s.color, r) ==> IsMarked(m0.color, r);
    assert forall r :: IsWhite(s.color, r) ==> IsWhite(m0.color, r) && m0.color[r] == s.color[r];
  }

  // ---------------------------------------------------------------- gray objects that are done

  /** A gray object on which nothing is left to do: its strong references are marked. */
  ghost predicate GrayOk(h: Heap, c: Colors, r: Ref) {
    r in h && r in c && c[r] == Gray ==>
      && (h[r].Table? ==> StrongMarked(c, h[r]))
      && (h[r].Thread? || h[r].UpVal? ==> KidsMarked(h, c, r))
  }

  /** All gray objects are done except those waiting on the gray list and, as the flags say, those
      on `grayagain`, those on `weak`, and the open upvalues. */
  ghost predicate Settled(s: State, again: bool, weak: bool, upvals: bool) {
    forall r :: r in s.heap && !Waiting(s, r, again, weak, upvals) ==> GrayOk(s.heap, s.color, r)
  }

  ghost predicate Waiting(s: State, r: Ref, again: bool, weak: bool, upvals: bool) {
    || r in s.gray
    || (again && r in s.grayagain)
    || (weak && r in s.weak)
    || (upvals && r in s.heap && IsOpen(s.heap[r]))
  }

  lemma TricolorSettled(s: State)
    requires Tricolor(s)
    ensures Settled(s, true, true, true)
  {
    forall r | r in s.heap && !Waiting(s, r, true, true, true) ensures GrayOk(s.heap, s.color, r) {
      assert ShapeOk(s.heap, s.color, r);
      if s.color[r] == Gray { assert !OnList(s, r); }
    }
  }

  lemma GrayOkStays(h: Heap, m: Marks, m': Marks, r: Ref)
    requires h.Keys == m.color.Keys == m'.color.Keys && Extends(h, m, m')
    requires GrayOk(h, m.color, r)
    ensures r in m'.gray || GrayOk(h, m'.color, r)
  {
    MarkedStays(h, m, m', r);
    assert forall q :: IsMarked(m.color, q) ==> !IsWhite(m'.color, q);
    if r in h && m'.color[r] == Gray {
      if IsWhite(m.color, r) {
        assert NewlyMarked(h, m', r);
      } else {
        assert IsMarked(m.color, r) && m.color[r] == Gray;
        assert forall v :: v in Kids(h[r]) && v.Obj? && !IsWhite(m.color, v.ref) ==> !IsWhite(m'.color, v.ref);
      }
    }
  }

  lemma ExtendSettled(s: State, m: Marks, again: bool, weak: bool, upvals: bool)
    requires Keyed(s) && m.color.Keys == s.color.Keys && Extends(s.heap, MarksOf(s), m)
    requires Settled(s, again, weak, upvals)
    ensures Settled(WithMarks(s, m), again, weak, upvals)
  {
    var s' := WithMarks(s, m);
    forall r | r in s.heap && !Waiting(s', r, again, weak, upvals) ensures GrayOk(s'.heap, s'.color, r) {
      assert !Waiting(s, r, again, weak, upvals);
      GrayOkStays(s.heap, MarksOf(s), m, r);
    }
  }

  lemma PropagateMarkSettled(s: State, again: bool, weak: bool, upvals: bool)
    requires Tricolor(s) && s.gray != [] && Settled(s, again, weak, upvals)
    ensures Settled(PropagateMark(s), again, weak, upvals)
  {
    var o, s' := s.gray[0], PropagateMark(s);
    assert OnList(s, o);
    TraversedOk(s);
    forall r | r in s'.heap && !Waiting(s', r, again, weak, upvals) ensures GrayOk(s'.heap, s'.color, r) {
      if r == o { TraversedGrayOk(s); } else { OtherSettled(s, r, again, weak, upvals); }
    }
  }

  lemma TraversedGrayOk(s: State)
    requires Tricolor(s) && s.gray != []
    ensures GrayOk(PropagateMark(s).heap, PropagateMark(s).color, s.gray[0])
  {
    TraversedOk(s);
    PrunedKids(s.heap[s.gray[0]]);
    assert OnList(s, s.gray[0]);
  }

  lemma PrunedKids(o: Object)
    ensures Kids(Pruned(o)) == Kids(o)
  {
    if o.Table? { RemoveEmptyKids(o.entries, o.weakKey, o.weakValue); }
  }

  lemma {:induction false} RemoveEmptyKids(es: seq<Entry>, wk: bool, wv: bool)
    ensures TableKids(RemoveEmpty(es), wk, wv) == TableKids(es, wk, wv)
  {
    if es != [] {
      assert RemoveEmpty(es)[1..] == RemoveEmpty(es[1..]);
      RemoveEmptyKids(es[1..], wk, wv);
    }
  }

  lemma OtherSettled(s: State, r: Ref, again: bool, weak: bool, upvals: bool)
    requires Tricolor(s) && s.gray != [] && Settled(s, again, weak, upvals) && r != s.gray[0]
    requires r in s.heap && !Waiting(PropagateMark(s), r, again, weak, upvals)
    ensures GrayOk(PropagateMark(s).heap, PropagateMark(s).color, r)
  {
    var o, s' := s.gray[0], PropagateMark(s);
    assert OnList(s, o);
    var h, m0 := s'.heap, Popped(s);
    MarkValsExtends(h, m0, Kids(s.heap[o]));
    var m := MarkVals(h, m0, Kids(s.heap[o]));
    assert r !in s.gray by { assert forall x :: x in m0.gray ==> x in m.gray; }
    assert !Waiting(s, r, again, weak, upvals);
    PoppedGrayOk(s, r);
    GrayOkStays(h, m0, m, r);
    assert IsMarked(m0.color, o);
    assert forall q :: IsWhite(s'.color, q) <==> IsWhite(m.color, q);
  }

  lemma PoppedGrayOk(s: State, r: Ref)
    requires Tricolor(s) && s.gray != [] && r != s.gray[0] && GrayOk(s.heap, s.color, r)
    ensures GrayOk(PoppedHeap(s), Popped(s).color, r)
  {
    assert OnList(s, s.gray[0]);
    forall q ensures Points(PoppedHeap(s), r, q) <==> Points(s.heap, r, q) { PrunedPoints(s.heap, s.gray[0], r, q); }
  }

  ghost predicate AgainThreads(s: State) {
    forall r :: r in s.grayagain ==> r in s.heap && s.heap[r].Thread?
  }

  /** What a run of propagatemark keeps, besides the invariants. */
  ghost predicate Advances(s: State, s': State) {
    MarkFrame(s, s') && KeepsPoints(s.heap, s'.heap) && (AgainThreads(s) ==> AgainThreads(s'))
  }

  lemma AdvancesTrans(a: State, b: State, c: State)
    requires Advances(a, b) && Advances(b, c)
    ensures Advances(a, c)
  {
    MarkFrameTrans(a, b, c);
  }

  lemma PropagateMarkAdvances(s: State)
    requires Tricolor(s) && s.gray != []
    ensures Advances(s, PropagateMark(s))
  {
    PropagateMarkFrame(s);
    assert OnList(s, s.gray[0]);
  }

  /** propagateall empties the gray list and keeps everything established so far. */
  lemma {:induction false} PropagateAllOk(s: State, again: bool, weak: bool, upvals: bool)
    requires Tricolor(s) && Settled(s, again, weak, upvals)
    ensures Tricolor(PropagateAll(s)) && Settled(PropagateAll(s), again, weak, upvals)
    ensures Advances(s, PropagateAll(s))
    decreases |Whites(s.color)|, |s.gray|
  {
    if s.gray != [] {
      PropagateMarkTricolor(s);
      PropagateMarkSettled(s, again, weak, upvals);
      PropagateAllOk(PropagateMark(s), again, weak, upvals);
      PropagateMarkAdvances(s);
      AdvancesTrans(s, PropagateMark(s), PropagateAll(s));
    }
  }

  // ---------------------------------------------------------------- remarkupvals

  ghost predicate GrayUpval(h: Heap, c: Colors, u: Ref) {
    u in h && u in c && h[u].UpVal? && c[u] == Gray
  }

  /** After remarkupvals the slot of every gray open upvalue on the list is marked. */
  lemma {:induction false} RemarkOk(h: Heap, m: Marks, uvs: seq<Ref>)
    requires h.Keys == m.color.Keys
    ensures Extends(h, m, RemarkUpvals(h, m, uvs))
    ensures forall u :: u in uvs && GrayUpval(h, m.color, u) ==> KidsMarked(h, RemarkUpvals(h, m, uvs).color, u)
    decreases |uvs|
  {
    if uvs == [] {
      ExtendsRefl(h, m);
    } else {
      var m1 := Remark(h, m, uvs[0]);
      RemarkOne(h, m, uvs[0]);
      RemarkOk(h, m1, uvs[1..]);
      var m2 := RemarkUpvals(h, m1, uvs[1..]);
      ExtendsTrans(h, m, m1, m2);
      forall u | u in uvs && GrayUpval(h, m.color, u) ensures KidsMarked(h, m2.color, u) {
        assert IsMarked(m.color, u);
        if u == uvs[0] { MarkedStays(h, m1, m2, u); } else { assert u in uvs[1..] && GrayUpval(h, m1.color, u); }
      }
    }
  }

  lemma RemarkOne(h: Heap, m: Marks, u: Ref)
    requires h.Keys == m.color.Keys
    ensures Extends(h, m, Remark(h, m, u))
    ensures GrayUpval(h, m.color, u) ==> KidsMarked(h, Remark(h, m, u).color, u)
  {
    if GrayUpval(h, m.color, u) { MarkValExtends(h, m, UpValue(h, h[u].home)); } else { ExtendsRefl(h, m); }
  }

  ghost predicate UvheadFull(s: State) {
    forall u :: u in s.heap && IsOpen(s.heap[u]) ==> u in s.uvhead
  }

  lemma RemarkSettled(s: State)
    requires Tricolor(s) && UvheadFull(s)
    ensures var s' := WithMarks(s, RemarkUpvals(s.heap, MarksOf(s), s.uvhead));
      Tricolor(s') && MarkFrame(s, s') && Settled(s', true, true, false)
  {
    var m := RemarkUpvals(s.heap, MarksOf(s), s.uvhead);
    RemarkOk(s.heap, MarksOf(s), s.uvhead);
    ExtendTricolor(s, m);
    var s' := WithMarks(s, m);
    TricolorSettled(s');
    forall r | r in s'.heap && !Waiting(s', r, true, true, false) ensures GrayOk(s'.heap, s'.color, r) {
      if Waiting(s', r, true, true, true) && m.color[r] == Gray {
        if s.color[r] == Gray {
          assert GrayUpval(s.heap, s.color, r);
        } else {
          assert Keeps(s.color, m.color);
          assert NewlyMarked(s.heap, m, r);
        }
      }
    }
  }

  // ---------------------------------------------------------------- atomic

  /** `gray = weak` and `gray = grayagain`: moving a whole list to the empty gray list. */
  lemma MoveLists(s: State, s': State, again: bool)
    requires Tricolor(s) && s.gray == []
    requires s' == if again then s.(gray := s.grayagain, grayagain := []) else s.(gray := s.weak, weak := [])
    requires Settled(s, true, !again, false)
    ensures Tricolor(s') && Settled(s', !again, false, false) && Advances(s, s')
  {
    assert forall r :: OnList(s', r) <==> OnList(s, r);
    forall r | r in s'.heap && !Waiting(s', r, !again, false, false) ensures GrayOk(s'.heap, s'.color, r) {
      assert !Waiting(s, r, true, !again, false);
    }
  }

  lemma ExtendAdvances(s: State, m: Marks)
    requires Keyed(s) && m.color.Keys == s.color.Keys && Keeps(s.color, m.color)
    ensures Advances(s, WithMarks(s, m))
  {
  }

  /** Marking more values keeps the invariants and marks those values. */
  lemma MarkMore(s: State, vs: seq<Val>, again: bool, weak: bool, upvals: bool)
    requires Tricolor(s) && Settled(s, again, weak, upvals)
    ensures var s' := WithMarks(s, MarkVals(s.heap, MarksOf(s), vs));
      Tricolor(s') && Settled(s', again, weak, upvals) && Advances(s, s') && ValsMarked(s', vs)
  {
    MarkValsExtends(s.heap, MarksOf(s), vs);
    var m := MarkVals(s.heap, MarksOf(s), vs);
    ExtendTricolor(s, m);
    ExtendSettled(s, m, again, weak, upvals);
    ExtendAdvances(s, m);
  }

  ghost predicate ValsMarked(s: State, vs: seq<Val>) {
    forall v :: v in vs && v.Obj? && v.ref in s.heap ==> IsMarked(s.color, v.ref)
  }

  lemma FirstRoundOk(s: State)
    requires Tricolor(s) && UvheadFull(s)
    ensures var s' := FirstRound(s); Tricolor(s') && Settled(s', true, true, false) && MarkFrame(s, s')
  {
    var s0 := WithMarks(s, RemarkUpvals(s.heap, MarksOf(s), s.uvhead));
    RemarkSettled(s);
    PropagateAllOk(s0, true, true, false);
    MarkFrameTrans(s, s0, FirstRound(s));
  }

  lemma SecondRoundOk(s: State)
    requires Tricolor(s) && s.gray == [] && Settled(s, true, true, false)
    ensures var s' := SecondRound(s);
      Tricolor(s') && Settled(s', true, false, false) && MarkFrame(s, s') && ValsMarked(s', [Obj(s.running)] + s.mt)
  {
    var s2 := s.(gray := s.weak, weak := []);
    MoveLists(s, s2, false);
    var vs := [Obj(s2.running)] + s2.mt;
    MarkMore(s2, vs, true, false, false);
    var s3 := WithMarks(s2, MarkVals(s2.heap, MarksOf(s2), vs));
    PropagateAllOk(s3, true, false, false);
    MarkFrameTrans(s, s2, s3);
    MarkFrameTrans(s, s3, SecondRound(s));
    MarkedKeeps(s3, SecondRound(s), vs);
  }

  lemma MarkedKeeps(s: State, s': State, vs: seq<Val>)
    requires MarkFrame(s, s') && ValsMarked(s, vs)
    ensures ValsMarked(s', vs)
  {
  }

  lemma LastRoundOk(s: State)
    requires Tricolor(s) && s.gray == [] && Settled(s, true, false, false)
    ensures var s' := LastRound(s);
      Tricolor(s') && Settled(s', false, false, false) && MarkFrame(s, s') && AgainThreads(s')
  {
    var s1 := s.(gray := s.grayagain, grayagain := []);
    MoveLists(s, s1, true);
    PropagateAllOk(s1, false, false, false);
    MarkFrameTrans(s, s1, LastRound(s));
  }

  /** At the end of marking every gray object is done and the running thread and basic
      metatables are marked. */
  lemma MarkRestOk(s: State)
    requires Tricolor(s) && UvheadFull(s)
    ensures var s' := MarkRest(s);
      && Tricolor(s') && s'.gray == [] && Settled(s', false, false, false) && AgainThreads(s')
      && MarkFrame(s, s') && ValsMarked(s', [Obj(s.running)] + s.mt)
  {
    FirstRoundOk(s);
    SecondRoundOk(FirstRound(s));
    LastRoundOk(SecondRound(FirstRound(s)));
    MarkFrameTrans(s, FirstRound(s), SecondRound(FirstRound(s)));
    MarkFrameTrans(s, SecondRound(FirstRound(s)), MarkRest(s));
    MarkedKeeps(SecondRound(FirstRound(s)), MarkRest(s), [Obj(s.running)] + s.mt);
  }

  // ---------------------------------------------------------------- weak tables

  lemma ClearEntryOk(h: Heap, c: Colors, e: Entry)
    requires h.Keys == c.Keys
    ensures var (c', e') := ClearEntry(h, c, e);
      && c'.Keys == c.Keys && StringsOnly(h, c, c')
      && (e'.val != Nil ==> e' == e && EntryMarked(c', e'))
  {
  }

  /** The only colours that change are those of strings, from white to gray. */
  ghost predicate StringsOnly(h: Heap, c: Colors, c': Colors)
    requires h.Keys == c.Keys == c'.Keys
  {
    forall r :: r in c ==> c'[r] == c[r] || (h[r].Str? && c[r].White? && c'[r] == Gray)
  }

  ghost predicate EntryMarked(c: Colors, e: Entry) {
    && (e.key.Obj? ==> !IsWhite(c, e.key.ref))
    && (e.val.Obj? ==> !IsWhite(c, e.val.ref))
  }

  lemma {:induction false} ClearEntriesOk(h: Heap, c: Colors, es: seq<Entry>)
    requires h.Keys == c.Keys
    ensures var (c', es') := ClearEntries(h, c, es);
      && StringsOnly(h, c, c')
      && (forall i :: 0 <= i < |es| && es'[i].val != Nil ==> es'[i] == es[i] && EntryMarked(c', es'[i]))
    decreases |es|
  {
    if es != [] {
      var (c1, e) := ClearEntry(h, c, es[0]);
      ClearEntryOk(h, c, es[0]);
      ClearEntriesOk(h, c1, es[1..]);
      var (c2, rest) := ClearEntries(h, c1, es[1..]);
      var es' := [e] + rest;
      forall i | 0 <= i < |es| && es'[i].val != Nil ensures es'[i] == es[i] && EntryMarked(c2, es'[i]) {
        if i > 0 { assert rest[i - 1] == es[1..][i - 1]; }
      }
    }
  }

  /** No live entry of the table refers to a white object. */
  ghost predicate EntriesClean(s: State, t: Ref) {
    t in s.heap && s.heap[t].Table? ==>
      forall i :: 0 <= i < |s.heap[t].entries| && s.heap[t].entries[i].val != Nil ==>
        EntryMarked(s.color, s.heap[t].entries[i])
  }

  /** What clearing tables changes. */
  ghost predicate Cleared(s: State, s': State) {
    && MarkFrame(s, s') && s'.gray == s.gray && s'.grayagain == s.grayagain && s'.weak == s.weak
    && StringsOnly(s.heap, s.color, s'.color)
    && (forall t :: EntriesClean(s, t) ==> EntriesClean(s', t))
  }

  lemma ClearOneOk(s: State, t: Ref)
    requires Keyed(s) && t in s.heap && s.heap[t].Table?
    ensures var (c, es) := ClearEntries(s.heap, s.color, s.heap[t].entries);
      var s' := s.(color := c, heap := s.heap[t := s.heap[t].(entries := es)]);
      Cleared(s, s') && EntriesClean(s', t)
  {
    var (c, es) := ClearEntries(s.heap, s.color, s.heap[t].entries);
    var s' := s.(color := c, heap := s.heap[t := s.heap[t].(entries := es)]);
    ClearEntriesOk(s.heap, s.color, s.heap[t].entries);
    forall r, q | Points(s'.heap, r, q) ensures Points(s.heap, r, q) {
      if r == t && EntriesPoint(es, q) {
        var i :| 0 <= i < |es| && es[i].val != Nil && (es[i].key == Obj(q) || es[i].val == Obj(q));
        assert es[i] == s.heap[t].entries[i];
      }
    }
    assert StringsOnly(s.heap, s.color, c);
    assert forall r :: r in s.color && !IsWhite(s.color, r) ==> !IsWhite(c, r);
    forall x | EntriesClean(s, x) ensures EntriesClean(s', x) {
    }
  }

  lemma ClearedTrans(a: State, b: State, c: State)
    requires Cleared(a, b) && Cleared(b, c)
    ensures Cleared(a, c)
  {
    MarkFrameTrans(a, b, c);
    forall r | r in a.color ensures c.color[r] == a.color[r] || (a.heap[r].Str? && a.color[r].White? && c.color[r] == Gray) {
      assert Like(a.heap[r], b.heap[r]);
    }
  }

  lemma {:induction false} ClearTablesOk(s: State, tables: seq<Ref>)
    requires Keyed(s)
    ensures Cleared(s, ClearTables(s, tables))
    ensures forall t :: t in tables ==> EntriesClean(ClearTables(s, tables), t)
    decreases |tables|
  {
    if tables != [] {
      var t := tables[0];
      if t !in s.heap || !s.heap[t].Table? {
        ClearTablesOk(s, tables[1..]);
        ClearSkips(s, ClearTables(s, tables[1..]), t);
      } else {
        var (c, es) := ClearEntries(s.heap, s.color, s.heap[t].entries);
        var s1 := s.(color := c, heap := s.heap[t := s.heap[t].(entries := es)]);
        ClearOneOk(s, t);
        ClearTablesOk(s1, tables[1..]);
        ClearedTrans(s, s1, ClearTables(s1, tables[1..]));
      }
      assert forall x :: x in tables ==> x == t || x in tables[1..];
    }
  }

  lemma ClearSkips(s: State, s': State, t: Ref)
    requires Cleared(s, s') && (t !in s.heap || !s.heap[t].Table?)
    ensures EntriesClean(s', t)
  {
    if t in s.heap { assert Like(s.heap[t], s'.heap[t]); }
  }

  /** Everything a marked object points to is marked. */
  ghost predicate MarkedClosed(s: State) {
    forall r :: IsMarked(s.color, r) ==> KidsMarked(s.heap, s.color, r)
  }

  /** When marking is over and the weak tables are cleared, the marked objects are closed under
      references of every kind. */
  lemma ClearedClosed(s: State, s': State)
    requires Tricolor(s) && s.gray == [] && Settled(s, false, false, false) && AgainThreads(s)
    requires Cleared(s, s') && forall t :: t in s.weak ==> EntriesClean(s', t)
    ensures MarkedClosed(s')
  {
    forall r | IsMarked(s'.color, r) ensures KidsMarked(s'.heap, s'.color, r) {
      assert Like(s.heap[r], s'.heap[r]);
      if IsMarked(s.color, r) {
        assert !Waiting(s, r, false, false, false);
        assert GrayOk(s.heap, s.color, r) && BlackOk(s.heap, s.color, r) && ShapeOk(s.heap, s.color, r);
        if KidsMarked(s.heap, s.color, r) {
          forall q | Points(s'.heap, r, q) && q in s'.color ensures !s'.color[q].White? {
            assert Points(s.heap, r, q);
            assert IsMarked(s.color, q);
          }
        } else {
          assert s.heap[r].Table? && OnList(s, r);
          WeakTableClosed(s, s', r);
        }
      }
    }
  }

  lemma WeakTableClosed(s: State, s': State, r: Ref)
    requires Cleared(s, s') && r in s.heap && s.heap[r].Table?
    requires StrongMarked(s.color, s.heap[r]) && EntriesClean(s', r)
    ensures KidsMarked(s'.heap, s'.color, r)
  {
    assert Like(s.heap[r], s'.heap[r]);
    forall q | Points(s'.heap, r, q) && q in s'.color ensures !s'.color[q].White? {
      if s'.heap[r].meta == Obj(q) {
        assert s.heap[r].meta in Kids(s.heap[r]);
        assert IsMarked(s.color, q);
      } else {
        var es := s'.heap[r].entries;
        var i :| 0 <= i < |es| && es[i].val != Nil && (es[i].key == Obj(q) || es[i].val == Obj(q));
        assert EntryMarked(s'.color, es[i]);
      }
    }
  }
}
