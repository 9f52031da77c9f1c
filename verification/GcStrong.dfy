/** Strong references: those that the collector follows. The keys of a table with weak keys and the values
    of one with weak values are not among them. */
module GcStrong {
  import opened GcHeap
  import opened GcMark
  import opened GcCollect
  import opened GcTricolor
  import opened GcAtomic
  import opened GcInvariant

  /** Object `r` refers to `q` strongly. */
  predicate Holds(h: Heap, r: Ref, q: Ref) {
    r in h && if h[r].Table? then Obj(q) in Kids(h[r]) else Points(h, r, q)
  }

  /** The heap with all weak references blanked. */
  ghost function Strong(h: Heap): Heap { map r | r in h :: StrongObject(h[r]) }

  function StrongObject(o: Object): Object {
    if o.Table? then o.(entries := StrongEntries(o.entries, o.weakKey, o.weakValue)) else o
  }

  function StrongEntries(es: seq<Entry>, wk: bool, wv: bool): (r: seq<Entry>) {
    if es == [] then [] else [StrongEntry(es[0], wk, wv)] + StrongEntries(es[1..], wk, wv)
  }

  function StrongEntry(e: Entry, wk: bool, wv: bool): Entry {
    Entry(if wk then Nil else e.key, if e.val == Nil then Nil else if wv then Prim(0) else e.val)
  }

  lemma {:induction false} StrongKids(es: seq<Entry>, wk: bool, wv: bool, q: Ref)
    ensures EntriesPoint(StrongEntries(es, wk, wv), q) <==> Obj(q) in TableKids(es, wk, wv)
    decreases |es|
  {
    if es != [] {
      StrongKids(es[1..], wk, wv, q);
      ConsPoint(StrongEntry(es[0], wk, wv), StrongEntries(es[1..], wk, wv), q);
    }
  }

  lemma ConsPoint(e: Entry, es: seq<Entry>, q: Ref)
    ensures EntriesPoint([e] + es, q) <==> (e.val != Nil && (e.key == Obj(q) || e.val == Obj(q))) || EntriesPoint(es, q)
  {
    var l := [e] + es;
    if EntriesPoint(l, q) {
      var i :| 0 <= i < |l| && l[i].val != Nil && (l[i].key == Obj(q) || l[i].val == Obj(q));
      if i > 0 { assert es[i - 1] == l[i]; }
    }
    if EntriesPoint(es, q) {
      var i :| 0 <= i < |es| && es[i].val != Nil && (es[i].key == Obj(q) || es[i].val == Obj(q));
      assert l[i + 1] == es[i];
    }
    if e.val != Nil && (e.key == Obj(q) || e.val == Obj(q)) { assert l[0] == e; }
  }

  lemma {:induction false} NoKids(es: seq<Entry>, q: Ref)
    ensures Obj(q) !in TableKids(es, true, true)
    decreases |es|
  {
    if es != [] { NoKids(es[1..], q); }
  }

  lemma StrongPoints(h: Heap, r: Ref, q: Ref)
    ensures Points(Strong(h), r, q) <==> Holds(h, r, q)
  {
    if r in h && h[r].Table? {
      StrongKids(h[r].entries, h[r].weakKey, h[r].weakValue, q);
      NoKids(h[r].entries, q);
    }
  }

  /** Strong references are references; without weak tables all are. */
  lemma HoldsPoints(h: Heap, r: Ref, q: Ref)
    ensures Holds(h, r, q) ==> Points(h, r, q)
    ensures r in h && !IsWeak(h[r]) ==> (Holds(h, r, q) <==> Points(h, r, q))
  {
    if r in h && h[r].Table? {
      var o := h[r];
      StrongKids(o.entries, o.weakKey, o.weakValue, q);
      NoKids(o.entries, q);
      BlankPoints(o.entries, o.weakKey, o.weakValue, q);
    }
  }

  lemma {:induction false} BlankPoints(es: seq<Entry>, wk: bool, wv: bool, q: Ref)
    ensures EntriesPoint(StrongEntries(es, wk, wv), q) ==> EntriesPoint(es, q)
    ensures !wk && !wv ==> StrongEntries(es, wk, wv) == es
    decreases |es|
  {
    if es != [] {
      BlankPoints(es[1..], wk, wv, q);
      ConsPoint(StrongEntry(es[0], wk, wv), StrongEntries(es[1..], wk, wv), q);
      ConsPoint(es[0], es[1..], q);
      assert [es[0]] + es[1..] == es;
    }
  }

  // ---------------------------------------------------------------- reachability by strong references

  ghost predicate StrongReached(s: State, r: Ref) { Reachable(Strong(s.heap), Roots(s), r) }

  lemma RootStrong(s: State, r: Ref)
    requires r in Roots(s)
    ensures StrongReached(s, r)
  {
    RootReachable(Strong(s.heap), Roots(s), r);
  }

  lemma StepStrong(s: State, r: Ref, q: Ref)
    requires StrongReached(s, r) && Holds(s.heap, r, q)
    ensures StrongReached(s, q)
  {
    StrongPoints(s.heap, r, q);
    StepReachable(Strong(s.heap), Roots(s), r, q);
  }

  /** What is reachable by strong references in one state is so in another that keeps those references. */
  lemma StrongTransfer(s: State, s': State, r: Ref)
    requires StrongReached(s, r) && Roots(s') == Roots(s)
    requires forall x, y :: StrongReached(s, x) && StrongReached(s', x) && Holds(s.heap, x, y) ==> Holds(s'.heap, x, y)
    ensures StrongReached(s', r)
  {
    var p :| PathTo(Strong(s.heap), Roots(s), p, r);
    forall x | x in Roots(s) ensures StrongReached(s', x) { RootStrong(s', x); }
    forall x, y | StrongReached(s, x) && Points(Strong(s.heap), x, y) && StrongReached(s', x) ensures StrongReached(s', y) {
      StrongPoints(s.heap, x, y);
      StepStrong(s', x, y);
    }
    ReachableTransfer(Strong(s.heap), Strong(s'.heap), Roots(s), Roots(s'), p, r);
  }

  /** A set of objects that holds the roots and is closed under strong references holds everything that is
      reachable by them. */
  lemma StrongWithin(s: State, live: set<Ref>, r: Ref)
    requires Roots(s) <= live && (forall x, y :: x in live && Holds(s.heap, x, y) ==> y in live) && StrongReached(s, r)
    ensures r in live
  {
    var p :| PathTo(Strong(s.heap), Roots(s), p, r);
    forall x, y | x in live && Points(Strong(s.heap), x, y) ensures y in live { StrongPoints(s.heap, x, y); }
    ReachableWithin(Strong(s.heap), Roots(s), p, r, live);
  }

  lemma StrongIsReached(s: State, r: Ref)
    requires StrongReached(s, r)
    ensures Reached(s, r)
  {
    var p :| PathTo(Strong(s.heap), Roots(s), p, r);
    forall x | x in Roots(s) ensures Reached(s, x) { RootReachable(s.heap, Roots(s), x); }
    forall x, y | StrongReached(s, x) && Points(Strong(s.heap), x, y) && Reached(s, x) ensures Reached(s, y) {
      StrongPoints(s.heap, x, y);
      HoldsPoints(s.heap, x, y);
      StepReachable(s.heap, Roots(s), x, y);
    }
    ReachableTransfer(Strong(s.heap), s.heap, Roots(s), Roots(s), p, r);
  }

  ghost predicate NoWeak(h: Heap) { forall r :: r in h ==> !IsWeak(h[r]) }

  /** Without weak tables there is no difference. */
  lemma StrongIffReached(s: State, r: Ref)
    requires NoWeak(s.heap)
    ensures StrongReached(s, r) <==> Reached(s, r)
  {
    if StrongReached(s, r) { StrongIsReached(s, r); }
    if Reached(s, r) {
      var p :| PathTo(s.heap, Roots(s), p, r);
      forall x | x in Roots(s) ensures StrongReached(s, x) { RootStrong(s, x); }
      forall x, y | Reached(s, x) && Points(s.heap, x, y) && StrongReached(s, x) ensures StrongReached(s, y) {
        HoldsPoints(s.heap, x, y);
        StepStrong(s, x, y);
      }
      ReachableTransfer(s.heap, Strong(s.heap), Roots(s), Roots(s), p, r);
    }
  }

  // ---------------------------------------------------------------- the end of marking

  /** When marking is over, the marks are closed under strong references. */
  lemma RestClosed(y: State)
    requires Tricolor(y) && y.gray == [] && Settled(y, false, false, false) && AgainThreads(y)
    ensures forall r, q :: IsMarked(y.color, r) && Holds(y.heap, r, q) ==> IsMarked(y.color, q)
  {
    forall r, q | IsMarked(y.color, r) && Holds(y.heap, r, q) ensures IsMarked(y.color, q) {
      HoldsPoints(y.heap, r, q);
      assert q in y.heap;
      assert !Waiting(y, r, false, false, false);
      assert GrayOk(y.heap, y.color, r) && BlackOk(y.heap, y.color, r) && ShapeOk(y.heap, y.color, r);
      if y.color[r] == Gray && !y.heap[r].Table? && !y.heap[r].Thread? && !y.heap[r].UpVal? {
        assert OnList(y, r);
      }
    }
  }
}
