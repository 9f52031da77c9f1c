/** The tri-colour invariant of the mark phase, and why marking keeps it. */
module GcTricolor {
  import opened GcHeap
  import opened GcMark
  import opened GcCollect

  /** Strings, threads and open upvalues are never black; userdata and closed upvalues never gray. */
  ghost predicate ShapeOk(h: Heap, c: Colors, r: Ref) {
    r in h && r in c ==>
      && (c[r] == Black ==> !h[r].Str? && !h[r].Thread? && !IsOpen(h[r]))
      && (c[r] == Gray ==> !h[r].Udata? && (h[r].UpVal? ==> h[r].home.Open?))
  }

  /** The key of every entry of a table is allocated and marked, also where the entry has no value:
      storing into such an entry again does not go through the key's barrier. */
  ghost predicate KeysMarked(h: Heap, c: Colors, r: Ref) {
    r in h && h[r].Table? ==>
      forall i :: 0 <= i < |h[r].entries| && h[r].entries[i].key.Obj? ==> IsMarked(c, h[r].entries[i].key.ref)
  }

  ghost predicate NoDangle(h: Heap) { forall r, q :: Points(h, r, q) ==> q in h }

  ghost predicate BlackOk(h: Heap, c: Colors, r: Ref) {
    r in c && c[r] == Black ==> KidsMarked(h, c, r) && KeysMarked(h, c, r)
  }

  ghost predicate Disjoint(a: seq<Ref>, b: seq<Ref>) { forall r :: r in a ==> r !in b }

  /** Exactly the gray tables, closures, prototypes and threads are on a list, each once. */
  ghost predicate GrayLists(s: State) {
    && NoDup(s.gray) && NoDup(s.grayagain) && NoDup(s.weak)
    && Disjoint(s.gray, s.grayagain) && Disjoint(s.gray, s.weak) && Disjoint(s.grayagain, s.weak)
    && (forall r :: r in s.gray ==> OnList(s, r))
    && (forall r :: r in s.grayagain ==> OnList(s, r) && (s.heap[r].Table? || s.heap[r].Thread?))
    && (forall r :: r in s.weak ==> OnList(s, r) && s.heap[r].Table?)
    && (forall r :: OnList(s, r) ==> r in s.gray || r in s.grayagain || r in s.weak)
  }

  ghost predicate OnList(s: State, r: Ref) {
    r in s.heap && r in s.color && s.color[r] == Gray && Traversable(s.heap[r])
  }

  /** No black object points to a white one, and the gray lists are in order. */
  ghost predicate Tricolor(s: State) {
    && Keyed(s)
    && (forall r :: ShapeOk(s.heap, s.color, r))
    && (forall r :: BlackOk(s.heap, s.color, r))
    && GrayLists(s) && NoDangle(s.heap)
  }

  // ---------------------------------------------------------------- marking keeps it

  lemma MarkedStays(h: Heap, m: Marks, m': Marks, r: Ref)
    requires h.Keys == m.color.Keys == m'.color.Keys
    requires Keeps(m.color, m'.color)
    ensures KidsMarked(h, m.color, r) ==> KidsMarked(h, m'.color, r)
    ensures KeysMarked(h, m.color, r) ==> KeysMarked(h, m'.color, r)
  {
    assert forall q :: q in m.color && !m.color[q].White? ==> IsMarked(m.color, q);
    assert forall q :: IsMarked(m.color, q) ==> IsMarked(m'.color, q);
  }

  /** An object that was fine before an extension of the marks is fine after. */
  lemma ExtendOk(h: Heap, m: Marks, m': Marks, r: Ref)
    requires h.Keys == m.color.Keys == m'.color.Keys
    requires Extends(h, m, m')
    requires ShapeOk(h, m.color, r) && BlackOk(h, m.color, r)
    ensures ShapeOk(h, m'.color, r) && BlackOk(h, m'.color, r)
  {
    MarkedStays(h, m, m', r);
    if r in h {
      if IsMarked(m.color, r) {
        assert m'.color[r] == m.color[r];
      } else if IsMarked(m'.color, r) {
        assert IsWhite(m.color, r);
        assert NewlyMarked(h, m', r);
      }
    }
  }

  /** The gray list after an extension still holds distinct gray objects, off the other lists. */
  lemma ExtendLists(s: State, m: Marks, m': Marks)
    requires s.heap.Keys == m.color.Keys == m'.color.Keys
    requires Extends(s.heap, m, m')
    requires GrayLists(WithMarks(s, m))
    ensures GrayLists(WithMarks(s, m'))
  {
    var s', s0 := WithMarks(s, m'), WithMarks(s, m);
    var add := Added(m, m');
    forall r | OnList(s0, r) ensures OnList(s', r) { assert IsMarked(m.color, r); }
    forall r | r in add ensures OnList(s', r) && !OnList(s0, r) { assert IsWhite(m.color, r); }
    forall i, j | 0 <= i < j < |add + m.gray| ensures (add + m.gray)[i] != (add + m.gray)[j] {
      if i < |add| <= j { assert add[i] in add && m.gray[j - |add|] in m.gray; }
    }
    forall r | OnList(s', r) ensures r in s'.gray || r in s.grayagain || r in s.weak {
      if IsMarked(m.color, r) { assert OnList(s0, r); }
      else { assert IsWhite(m.color, r) && IsMarked(m'.color, r); assert NewlyMarked(s.heap, m', r); }
    }
  }

  lemma ExtendTricolor(s: State, m: Marks)
    requires Tricolor(s) && m.color.Keys == s.color.Keys
    requires Extends(s.heap, MarksOf(s), m)
    ensures Tricolor(WithMarks(s, m))
  {
    forall r ensures ShapeOk(s.heap, m.color, r) && BlackOk(s.heap, m.color, r) {
      ExtendOk(s.heap, MarksOf(s), m, r);
    }
    ExtendLists(s, MarksOf(s), m);
  }

  // ---------------------------------------------------------------- propagatemark

  lemma PrunedEntries(es: seq<Entry>, q: Ref)
    ensures EntriesPoint(RemoveEmpty(es), q) <==> EntriesPoint(es, q)
  {
    var es' := RemoveEmpty(es);
    assert forall i :: 0 <= i < |es| && es[i].val != Nil ==> es'[i] == es[i];
    assert forall i :: 0 <= i < |es| ==> es'[i].val == es[i].val;
    if EntriesPoint(es, q) {
      var i :| 0 <= i < |es| && es[i].val != Nil && (es[i].key == Obj(q) || es[i].val == Obj(q));
      assert es'[i] == es[i];
    }
    if EntriesPoint(es', q) {
      var i :| 0 <= i < |es'| && es'[i].val != Nil && (es'[i].key == Obj(q) || es'[i].val == Obj(q));
      assert es'[i] == es[i];
    }
  }

  /** Pruning an object changes no reference. */
  lemma PrunedPoints(h: Heap, o: Ref, r: Ref, q: Ref)
    requires o in h
    ensures Points(h[o := Pruned(h[o])], r, q) <==> Points(h, r, q)
  {
    if h[o].Table? { PrunedEntries(h[o].entries, q); }
  }

  lemma {:induction false} TableKidsHold(es: seq<Entry>, wk: bool, wv: bool, i: nat)
    requires i < |es| && es[i].val != Nil
    ensures !wk ==> es[i].key in TableKids(es, wk, wv)
    ensures !wv ==> es[i].val in TableKids(es, wk, wv)
    decreases |es|
  {
    if i > 0 { TableKidsHold(es[1..], wk, wv, i - 1); }
  }

  /** Everything `o` refers to strongly (so, for an object that is not a weak table, everything)
      is among the values propagatemark marks. */
  lemma KidsCover(h: Heap, o: Ref, q: Ref)
    requires o in h && Traversable(h[o]) && !IsWeak(h[o])
    ensures Points(h, o, q) ==> Obj(q) in Kids(h[o])
  {
    if h[o].Table? && EntriesPoint(h[o].entries, q) {
      var es := h[o].entries;
      var i :| 0 <= i < |es| && es[i].val != Nil && (es[i].key == Obj(q) || es[i].val == Obj(q));
      TableKidsHold(es, false, false, i);
    }
  }

  /** The values of a weak table that are still strong are marked. */
  ghost predicate StrongMarked(c: Colors, o: Object) {
    forall v :: v in Kids(o) && v.Obj? ==> !IsWhite(c, v.ref)
  }

  /** The marks right after propagatemark has coloured `o` and taken it off the list. */
  function Popped(s: State): Marks
    requires s.gray != []
  {
    Marks(s.color[s.gray[0] := Black], s.gray[1..])
  }

  function PoppedHeap(s: State): Heap
    requires s.gray != []
  {
    var o := s.gray[0];
    if o in s.heap then s.heap[o := Pruned(s.heap[o])] else s.heap
  }

  /** What propagatemark establishes for the object it traverses. */
  lemma TraversedOk(s: State)
    requires Tricolor(s) && s.gray != []
    ensures var s', o := PropagateMark(s), s.gray[0];
      && o in s.heap && s'.heap == s.heap[o := Pruned(s.heap[o])]
      && ShapeOk(s'.heap, s'.color, o) && BlackOk(s'.heap, s'.color, o)
      && StrongMarked(s'.color, s.heap[o])
      && (!IsWeak(s.heap[o]) ==> KidsMarked(s'.heap, s'.color, o))
  {
    var o, s' := s.gray[0], PropagateMark(s);
    assert OnList(s, o);
    var h := s'.heap;
    var m0 := Popped(s);
    MarkValsExtends(h, m0, Kids(s.heap[o]));
    var m := MarkVals(h, m0, Kids(s.heap[o]));
    assert IsMarked(m0.color, o);
    assert m.color[o] == Black;
    if !IsWeak(s.heap[o]) {
      forall q | Points(h, o, q) && q in s'.color ensures !s'.color[q].White? {
        PrunedPoints(s.heap, o, o, q);
        KidsCover(s.heap, o, q);
      }
    }
    if s'.color[o] == Black && s.heap[o].Table? {
      TraversedKeys(s, s'.color);
    }
  }

  /** After a strong table is traversed no entry, empty or not, has a white key. */
  lemma TraversedKeys(s: State, c: Colors)
    requires s.gray != [] && s.gray[0] in s.heap && NoDangle(s.heap) && c.Keys == s.heap.Keys
    requires var o := s.heap[s.gray[0]]; o.Table? && !IsWeak(o) && StrongMarked(c, o)
    ensures KeysMarked(PoppedHeap(s), c, s.gray[0])
  {
    var r := s.gray[0];
    var o := s.heap[r];
    forall i | 0 <= i < |Pruned(o).entries| && Pruned(o).entries[i].key.Obj?
      ensures IsMarked(c, Pruned(o).entries[i].key.ref)
    {
      TableKidsHoldIf(o.entries, i);
      assert EntriesPoint(o.entries, o.entries[i].key.ref);
      assert Points(s.heap, r, o.entries[i].key.ref);
    }
  }

  lemma TableKidsHoldIf(es: seq<Entry>, i: nat)
    requires i < |es|
    ensures es[i].val != Nil ==> es[i].key in TableKids(es, false, false)
  {
    if es[i].val != Nil { TableKidsHold(es, false, false, i); }
  }

  /** The objects propagatemark does not traverse keep their part of the invariant. */
  lemma OthersOk(s: State, r: Ref)
    requires Tricolor(s) && s.gray != [] && r != s.gray[0]
    ensures ShapeOk(PropagateMark(s).heap, PropagateMark(s).color, r)
    ensures BlackOk(PropagateMark(s).heap, PropagateMark(s).color, r)
  {
    var o, s' := s.gray[0], PropagateMark(s);
    assert OnList(s, o);
    var h := s'.heap;
    var m0 := Popped(s);
    MarkValsExtends(h, m0, Kids(s.heap[o]));
    var m := MarkVals(h, m0, Kids(s.heap[o]));
    PopKeeps(s, r);
    ExtendOk(h, m0, m, r);
    RecolorOk(h, m.color, o, r, s'.color);
  }

  lemma PopKeeps(s: State, r: Ref)
    requires Tricolor(s) && s.gray != [] && r != s.gray[0]
    ensures ShapeOk(PoppedHeap(s), Popped(s).color, r) && BlackOk(PoppedHeap(s), Popped(s).color, r)
  {
    var o, h := s.gray[0], PoppedHeap(s);
    assert ShapeOk(s.heap, s.color, r) && BlackOk(s.heap, s.color, r) && OnList(s, o);
    if r in s.color && s.color[r] == Black {
      forall q | Points(h, r, q) && q in s.color ensures !Popped(s).color[q].White? {
        PrunedPoints(s.heap, o, r, q);
      }
    }
  }

  lemma RecolorOk(h: Heap, c: Colors, o: Ref, r: Ref, c': Colors)
    requires ShapeOk(h, c, r) && BlackOk(h, c, r) && r != o && IsMarked(c, o)
    requires c' == c || c' == c[o := Gray]
    ensures ShapeOk(h, c', r) && BlackOk(h, c', r)
  {
  }

  lemma PropagateMarkLists(s: State)
    requires Tricolor(s) && s.gray != []
    ensures GrayLists(PropagateMark(s))
  {
    var o := s.gray[0];
    assert OnList(s, o);
    var t := s.(heap := PoppedHeap(s));
    MarkValsExtends(t.heap, Popped(s), Kids(s.heap[o]));
    var m := MarkVals(t.heap, Popped(s), Kids(s.heap[o]));
    PopLists(s);
    ExtendLists(t, Popped(s), m);
    assert IsMarked(Popped(s).color, o);
    PushLists(WithMarks(t, m), o, PropagateMark(s));
  }

  /** Putting a traversed thread on `grayagain`, or a traversed weak table on `weak`. */
  lemma PushLists(t: State, o: Ref, s': State)
    requires Keyed(t) && GrayLists(t) && o in t.color && t.color[o] == Black
    requires s' == if t.heap[o].Thread? then t.(color := t.color[o := Gray], grayagain := [o] + t.grayagain)
                   else if IsWeak(t.heap[o]) then t.(color := t.color[o := Gray], weak := [o] + t.weak)
                   else t
    ensures GrayLists(s')
  {
    assert !OnList(t, o);
    ConsNoDup(o, t.grayagain);
    ConsNoDup(o, t.weak);
    assert forall r :: r != o ==> (OnList(s', r) <==> OnList(t, r));
  }

  lemma ConsNoDup(o: Ref, l: seq<Ref>)
    requires NoDup(l) && o !in l
    ensures NoDup([o] + l)
  {
  }

  lemma PopLists(s: State)
    requires Tricolor(s) && s.gray != []
    ensures GrayLists(WithMarks(s.(heap := PoppedHeap(s)), Popped(s)))
  {
    var o := s.gray[0];
    var t := WithMarks(s.(heap := PoppedHeap(s)), Popped(s));
    assert OnList(s, o);
    assert forall r :: OnList(t, r) <==> OnList(s, r) && r != o;
    assert forall r :: r in s.gray <==> r == o || r in t.gray;
    assert forall j :: 0 <= j < |t.gray| ==> t.gray[j] == s.gray[j + 1];
  }

  /** propagatemark keeps the tri-colour invariant. */
  lemma PropagateMarkTricolor(s: State)
    requires Tricolor(s) && s.gray != []
    ensures Tricolor(PropagateMark(s))
  {
    var s' := PropagateMark(s);
    TraversedOk(s);
    forall r ensures ShapeOk(s'.heap, s'.color, r) && BlackOk(s'.heap, s'.color, r) {
      if r != s.gray[0] { OthersOk(s, r); }
    }
    PropagateMarkLists(s);
    forall r, q | Points(s'.heap, r, q) ensures q in s'.heap { PrunedPoints(s.heap, s.gray[0], r, q); }
  }
}
