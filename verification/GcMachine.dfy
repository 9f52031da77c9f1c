/** The collector as src/lgc.c runs it: a global_State whose fields are updated in place, with
    loops over the lists. Each method is proved against the step function it implements. */
module GcMachine {
  import opened GcHeap
  import opened GcMark
  import opened GcCollect
  import opened GcTricolor
  import opened GcAtomic
  import opened GcInvariant
  import opened GcSweep
  import opened GcFrame
  import opened GcFull
  import opened GcMutate
  import opened GcSafety
  import opened GcStrong
  import opened GcExact

  lemma MarkRootIs(s: State, m: Marks, roots: seq<Val>)
    requires Keyed(s) && roots == RootValues(s) && m == MarkVals(s.heap, Marks(s.color, []), roots)
    ensures MarkRoot(s) == WithMarks(s, m).(grayagain := [], weak := [], phase := Propagate)
  {
  }

  /** What atomic's rounds need from each other. */
  lemma RoundsOk(s: State)
    requires Tricolor(s) && UvheadFull(s)
    ensures Tricolor(FirstRound(s)) && Settled(FirstRound(s), true, true, false)
    ensures Tricolor(SecondRound(FirstRound(s))) && Settled(SecondRound(FirstRound(s)), true, false, false)
  {
    FirstRoundOk(s);
    SecondRoundOk(FirstRound(s));
  }

  lemma UvheadIsFull(s: State)
    requires Structure(s, {})
    ensures UvheadFull(s) && forall u :: u in s.uvhead ==> u in s.heap && IsOpen(s.heap[u])
  {
    forall u | u in s.heap && IsOpen(s.heap[u]) ensures u in s.uvhead { assert UpvalOk(s, u); }
  }

  class GlobalState {
    var heap: Heap
    var color: Colors
    var gray: seq<Ref>
    var grayagain: seq<Ref>
    var weak: seq<Ref>
    var cw: bool
    var phase: Phase
    var rootgc: seq<Ref>
    var sweepAt: nat
    var strt: seq<seq<Ref>>
    var sweepStr: nat
    var uvhead: seq<Ref>
    // the collector only reads these
    const fixed: set<Ref>
    const main: Ref
    const running: Ref
    const registry: Val
    const mt: seq<Val>

    constructor (s: State)
      ensures View() == s
    {
      heap, color, gray, grayagain, weak, cw, phase := s.heap, s.color, s.gray, s.grayagain, s.weak, s.cw, s.phase;
      rootgc, sweepAt, strt, sweepStr, uvhead := s.rootgc, s.sweepAt, s.strt, s.sweepStr, s.uvhead;
      fixed, main, running, registry, mt := s.fixed, s.main, s.running, s.registry, s.mt;
    }

    function View(): State
      reads this
    {
      State(heap, color, gray, grayagain, weak, cw, phase, rootgc, sweepAt, strt, sweepStr, uvhead, fixed, main, running, registry, mt)
    }

    // -------------------------------------------------------------- marking

    /** markvalue with reallymarkobject inlined. */
    method MarkValue(v: Val)
      requires Keyed(View())
      modifies this`color, this`gray
      ensures Marks(color, gray) == MarkVal(heap, old(Marks(color, gray)), v)
      decreases |Whites(color)|, 0
    {
      if v.Obj? && v.ref in color && color[v.ref].White? {
        var r := v.ref;
        FewerWhites(color, r, Gray); FewerWhites(color, r, Black);
        match heap[r] {
          case Str =>
            color := color[r := Gray];
          case Udata(m, e) =>
            color := color[r := Black];
            MarkValues([m, e]);
          case UpVal(home) =>
            color := color[r := Gray];
            MarkValues([UpValue(heap, home)]);
            if home.Closed? { color := color[r := Black]; }
          case _ =>
            color := color[r := Gray];
            gray := [r] + gray;
        }
      }
    }

    /** The marking loops over vectors of values. */
    method MarkValues(vs: seq<Val>)
      requires Keyed(View())
      modifies this`color, this`gray
      ensures Marks(color, gray) == MarkVals(heap, old(Marks(color, gray)), vs)
      decreases |Whites(color)|, 1 + |vs|
    {
      var i := 0;
      while i < |vs|
        invariant i <= |vs| && Keyed(View()) && |Whites(color)| <= old(|Whites(color)|)
        invariant MarkVals(heap, Marks(color, gray), vs[i..]) == MarkVals(heap, old(Marks(color, gray)), vs)
      {
        assert vs[i..][1..] == vs[i + 1..];
        MarkValue(vs[i]);
        i := i + 1;
      }
    }

    /** propagatemark */
    method PropagateMarkStep()
      requires Keyed(View()) && gray != [] && gray[0] in heap
      modifies this`heap, this`color, this`gray, this`grayagain, this`weak
      ensures View() == PropagateMark(old(View()))
    {
      var o := gray[0];
      Traverse(o, Pruned(heap[o]), Kids(heap[o]));
    }

    /** traversetable, traverseclosure, traverseproto and traversestack. */
    method Traverse(o: Ref, ob: Object, kids: seq<Val>)
      requires Keyed(View()) && gray != [] && o in heap
      modifies this`heap, this`color, this`gray, this`grayagain, this`weak
      ensures View() == Traversed(old(View()), o, ob, kids)
    {
      heap, color, gray := heap[o := ob], color[o := Black], gray[1..];
      MarkValues(kids);
      Requeue(o, ob);
    }

    /** The end of a traversal: weak tables and threads stay gray, on lists of their own. */
    method Requeue(o: Ref, ob: Object)
      modifies this`color, this`grayagain, this`weak
      ensures color == if ob.Thread? || IsWeak(ob) then old(color)[o := Gray] else old(color)
      ensures grayagain == if ob.Thread? then [o] + old(grayagain) else old(grayagain)
      ensures weak == if IsWeak(ob) then [o] + old(weak) else old(weak)
    {
      if IsWeak(ob) { weak := [o] + weak; }
      if ob.Thread? { grayagain := [o] + grayagain; }
      if IsWeak(ob) || ob.Thread? { color := color[o := Gray]; }
    }

    /** propagateall */
    method PropagateEverything()
      requires Tricolor(View())
      modifies this`heap, this`color, this`gray, this`grayagain, this`weak
      ensures View() == PropagateAll(old(View())) && Tricolor(View()) && gray == []
    {
      while gray != []
        invariant Tricolor(View())
        invariant PropagateAll(View()) == PropagateAll(old(View()))
        decreases |Whites(color)|, |gray|
      {
        assert OnList(View(), gray[0]);
        PropagateMarkTricolor(View());
        PropagateMarkStep();
      }
    }

    method RootList() returns (roots: seq<Val>)
      requires main in heap && heap[main].Thread?
      ensures roots == RootValues(View())
    {
      roots := [Obj(main), heap[main].globals, registry] + mt;
    }

    /** markroot */
    method StartMark()
      requires Keyed(View()) && main in heap && heap[main].Thread?
      modifies this`color, this`gray, this`grayagain, this`weak, this`phase
      ensures View() == MarkRoot(old(View()))
    {
      var roots := RootList();
      gray, grayagain, weak := [], [], [];
      MarkValues(roots);
      phase := Propagate;
      MarkRootIs(old(View()), Marks(color, gray), roots);
    }

    /** remarkupvals */
    method RemarkOpen()
      requires Keyed(View()) && forall u :: u in uvhead ==> u in heap && IsOpen(heap[u])
      modifies this`color, this`gray
      ensures Marks(color, gray) == RemarkUpvals(heap, old(Marks(color, gray)), uvhead)
    {
      var i := 0;
      while i < |uvhead|
        invariant i <= |uvhead| && Keyed(View())
        invariant RemarkUpvals(heap, Marks(color, gray), uvhead[i..]) == RemarkUpvals(heap, old(Marks(color, gray)), uvhead)
      {
        assert uvhead[i..][1..] == uvhead[i + 1..];
        var u := uvhead[i];
        if color[u] == Gray { MarkValue(UpValue(heap, heap[u].home)); }
        i := i + 1;
      }
    }

    /** The loops of cleartable over one table. */
    method ClearOneTable(t: Ref)
      requires Keyed(View()) && t in heap && heap[t].Table?
      modifies this`heap, this`color
      ensures var r := ClearEntries(old(heap), old(color), old(heap[t].entries));
        color == r.0 && heap == old(heap)[t := old(heap[t]).(entries := r.1)]
    {
      var es := heap[t].entries;
      var kept: seq<Entry> := [];
      var i := 0;
      assert es[0..] == es && kept + ClearEntries(heap, color, es).1 == ClearEntries(heap, color, es).1;
      while i < |es|
        invariant 0 <= i <= |es| && heap == old(heap)
        invariant var r := ClearEntries(old(heap), color, es[i..]);
          (r.0, kept + r.1) == ClearEntries(old(heap), old(color), es)
      {
        assert es[i..][1..] == es[i + 1..];
        var (c, e) := ClearEntry(heap, color, es[i]);
        ghost var r := ClearEntries(old(heap), c, es[i + 1..]);
        assert kept + ([e] + r.1) == (kept + [e]) + r.1;
        color, kept := c, kept + [e];
        i := i + 1;
      }
      assert kept + [] == kept;
      heap := heap[t := heap[t].(entries := kept)];
    }

    /** cleartable */
    method ClearWeak()
      requires Keyed(View())
      modifies this`heap, this`color
      ensures View() == ClearTables(old(View()), weak)
    {
      var i := 0;
      while i < |weak|
        invariant i <= |weak| && Keyed(View())
        invariant ClearTables(View(), weak[i..]) == ClearTables(old(View()), weak)
        invariant View() == old(View()).(heap := heap, color := color)
      {
        assert weak[i..][1..] == weak[i + 1..];
        if weak[i] in heap && heap[weak[i]].Table? { ClearOneTable(weak[i]); }
        i := i + 1;
      }
    }

    /** atomic, first round. */
    method MarkFirstRound()
      requires Tricolor(View()) && UvheadFull(View()) && forall u :: u in uvhead ==> u in heap && IsOpen(heap[u])
      modifies this`heap, this`color, this`gray, this`grayagain, this`weak
      ensures View() == FirstRound(old(View()))
    {
      RemarkSettled(View());
      RemarkOpen();
      PropagateEverything();
    }

    method MarkSecondRound()
      requires Tricolor(View()) && gray == [] && Settled(View(), true, true, false)
      modifies this`heap, this`color, this`gray, this`grayagain, this`weak
      ensures View() == SecondRound(old(View()))
    {
      MoveLists(View(), View().(gray := weak, weak := []), false);
      gray, weak := weak, [];
      MarkMore(View(), [Obj(running)] + mt, true, false, false);
      MarkValues([Obj(running)] + mt);
      PropagateEverything();
    }

    method MarkLastRound()
      requires Tricolor(View()) && gray == [] && Settled(View(), true, false, false)
      modifies this`heap, this`color, this`gray, this`grayagain, this`weak
      ensures View() == LastRound(old(View()))
    {
      MoveLists(View(), View().(gray := grayagain, grayagain := []), true);
      gray, grayagain := grayagain, [];
      PropagateEverything();
    }

    method MarkRounds()
      requires Tricolor(View()) && UvheadFull(View()) && forall u :: u in uvhead ==> u in heap && IsOpen(heap[u])
      modifies this`heap, this`color, this`gray, this`grayagain, this`weak
      ensures View() == MarkRest(old(View()))
    {
      RoundsOk(View());
      MarkFirstRound();
      MarkSecondRound();
      MarkLastRound();
    }

    /** atomic */
    method FinishMark()
      requires Tricolor(View()) && UvheadFull(View()) && forall u :: u in uvhead ==> u in heap && IsOpen(heap[u])
      modifies this`heap, this`color, this`gray, this`grayagain, this`weak, this`cw, this`sweepStr, this`sweepAt, this`phase
      ensures View() == Atomic(old(View()))
    {
      MarkRounds();
      ClearWeak();
      cw, sweepStr, sweepAt, phase := !cw, 0, 0, SweepString;
    }

    // -------------------------------------------------------------- sweeping

    /** One element of such a chain. */
    method SweepElement(r: Ref) returns (keep: bool)
      requires Keyed(View())
      modifies this`heap, this`color, this`uvhead
      ensures View() == SweepElem(old(View()), r)
      ensures keep == (r in old(heap) && !Doomed(old(View()), r))
    {
      keep := r in heap && !(color[r] == White(!cw) && r !in fixed);
      if keep {
        color := color[r := White(cw)];
      } else {
        heap, color, uvhead := heap - {r}, color - {r}, Keep(uvhead, {r});
      }
    }

    /** sweeplist on a chain whose elements own no chain of their own. */
    method SweepWholeList(chain: seq<Ref>) returns (kept: seq<Ref>)
      requires Keyed(View())
      modifies this`heap, this`color, this`uvhead
      ensures View() == SweepChain(old(View()), chain)
      ensures kept == Keep(chain, DoomedIn(old(View()), chain))
    {
      ghost var s := View();
      kept := [];
      var i := 0;
      while i < |chain|
        invariant 0 <= i <= |chain| && Keyed(View())
        invariant View() == SweepEach(s, chain[..i]) && kept == KeepEach(s, chain[..i])
      {
        assert chain[..i + 1][..i] == chain[..i];
        var keep := SweepElement(chain[i]);
        if keep { kept := kept + [chain[i]]; }
        i := i + 1;
      }
      assert chain[..i] == chain;
      SweepEachIsChain(s, chain);
    }

    /** singlestep's string case: one chain of the string table. */
    method SweepNextChain()
      requires Keyed(View()) && sweepStr < |strt|
      modifies this`heap, this`color, this`uvhead, this`strt, this`sweepStr, this`phase
      ensures View() == SweepStrings(old(View()))
    {
      var kept := SweepWholeList(strt[sweepStr]);
      strt := strt[sweepStr := kept];
      sweepStr := sweepStr + 1;
      phase := if sweepStr >= |strt| then Sweep else SweepString;
    }

    /** luaC_barrierf */
    method BarrierF(o: Ref, v: Ref)
      requires Keyed(View()) && o in color
      modifies this`color, this`gray
      ensures View() == BarrierForward(old(View()), o, v)
    {
      if phase == Propagate { MarkValue(Obj(v)); } else { color := color[o := White(cw)]; }
    }

    /** luaC_barrierback, behind the macro luaC_barriert. */
    method BarrierT(t: Ref, v: Val)
      requires Keyed(View()) && t in color
      modifies this`color, this`grayagain
      ensures View() == BarrierBack(old(View()), t, v)
    {
      if v.Obj? && v.ref in color && color[v.ref].White? && color[t] == Black {
        color := color[t := Gray];
        grayagain := [t] + grayagain;
      }
    }

    /** luaC_linkupval */
    method LinkClosed(u: Ref)
      requires Keyed(View()) && u in heap && heap[u].UpVal?
      modifies this`rootgc, this`sweepAt, this`color, this`gray
      ensures View() == LinkUpval(old(View()), u)
    {
      rootgc := [u] + rootgc;
      if sweepAt != 0 { sweepAt := sweepAt + 1; }
      if color[u] == Gray {
        if phase == Propagate {
          color := color[u := Black];
          var v := UpValue(heap, heap[u].home);
          if v.Obj? && v.ref in color && color[v.ref].White? { BarrierF(u, v.ref); }
        } else {
          color := color[u := White(cw)];
        }
      }
    }

    /** luaF_close */
    method CloseFrom(th: Ref, level: nat)
      requires Keyed(View()) && th in heap && heap[th].Thread?
      modifies this`heap, this`color, this`gray, this`uvhead, this`rootgc, this`sweepAt
      ensures View() == CloseUpvals(old(View()), th, level)
    {
      while HasOpen(View(), th, level)
        invariant Keyed(View()) && th in heap && heap[th].Thread?
        invariant CloseUpvals(View(), th, level) == CloseUpvals(old(View()), th, level)
        decreases |heap[th].openUpvals|
      {
        CloseHeadThread(View(), th);
        CloseTop(th);
      }
    }

    /** The body of luaF_close's loop. */
    method CloseTop(th: Ref)
      requires Keyed(View()) && HasOpen(View(), th, 0)
      modifies this`heap, this`color, this`gray, this`uvhead, this`rootgc, this`sweepAt
      ensures View() == CloseHead(old(View()), th)
    {
      var u := heap[th].openUpvals[0];
      var v := UpValue(heap, heap[u].home);
      heap := heap[th := heap[th].(openUpvals := heap[th].openUpvals[1..])];
      uvhead := Keep(uvhead, {u});
      if color[u] == White(!cw) {
        heap, color := heap - {u}, color - {u};
      } else {
        heap := heap[u := UpVal(Closed(v))];
        LinkClosed(u);
      }
    }

    /** sweeplist on the list of ordinary objects, at most n of them. */
    method SweepObjects(n: nat, ghost body: State -> State)
      requires Keyed(View()) && forall x {:trigger SweepOne(x)} :: Keyed(x) && More(x) ==> body(x) == SweepOne(x)
      modifies this`heap, this`color, this`gray, this`uvhead, this`rootgc, this`sweepAt
      ensures View() == Iterate(body, old(View()), n)
    {
      var count := n;
      while count > 0 && sweepAt < |rootgc|
        invariant Keyed(View()) && Iterate(body, View(), count) == Iterate(body, old(View()), n)
        decreases count
      {
        ghost var before := View();
        SweepNext();
        IterateOnce(body, before, count, View());
        count := count - 1;
      }
    }

    /** The body of sweeplist's loop. */
    method SweepNext()
      requires Keyed(View()) && sweepAt < |rootgc|
      modifies this`heap, this`color, this`gray, this`uvhead, this`rootgc, this`sweepAt
      ensures View() == SweepOne(old(View()))
    {
      SweepNested();
      SettleNext();
    }

    /** sweeplist's nested call. */
    method SweepNested()
      requires Keyed(View()) && sweepAt < |rootgc|
      modifies this`heap, this`color, this`uvhead
      ensures View() == Nested(old(View()))
    {
      var r := rootgc[sweepAt];
      if r in heap && heap[r].Thread? { SweepOpenOf(r); }
    }

    /** The rest of an iteration. */
    method SettleNext()
      requires Keyed(View()) && sweepAt < |rootgc|
      modifies this`heap, this`color, this`gray, this`uvhead, this`rootgc, this`sweepAt
      ensures View() == Settle(old(View()))
    {
      var r := rootgc[sweepAt];
      if Doomed(View(), r) {
        rootgc := rootgc[..sweepAt] + rootgc[sweepAt + 1..];
        Free(r);
      } else {
        if r in color { color := color[r := White(cw)]; }
        sweepAt := sweepAt + 1;
      }
    }

    /** The nested sweepwholelist on a thread's open upvalues. */
    method SweepOpenOf(th: Ref)
      requires Keyed(View()) && th in heap && heap[th].Thread?
      modifies this`heap, this`color, this`uvhead
      ensures View() == SweepOpen(old(View()), th)
    {
      var kept := SweepWholeList(heap[th].openUpvals);
      if th in heap { heap := heap[th := heap[th].(openUpvals := kept)]; }
    }

    /** freeobj */
    method Free(r: Ref)
      requires Keyed(View()) && r in heap
      modifies this`heap, this`color, this`gray, this`uvhead, this`rootgc, this`sweepAt
      ensures View() == FreeObject(old(View()), r)
    {
      if heap[r].Thread? { CloseFrom(r, 0); }
      heap, color := heap - {r}, color - {r};
    }

    // -------------------------------------------------------------- the state machine

    /** singlestep */
    method StepBody()
      requires Ready(View())
      modifies this
      ensures View() == SingleStep(old(View()))
    {
      match phase {
        case Pause => StartMark();
        case Propagate => if gray != [] { PropagateMarkStep(); } else { FinishMark(); }
        case SweepString => SweepNextChain();
        case Sweep =>
          SweepObjects(SWEEP_MAX, SweepBody);
          if sweepAt >= |rootgc| { phase := Finalize; }
        case Finalize => phase := Pause;
      }
    }

    /** singlestep implements the step function, keeps the invariant, and frees nothing the
        program can reach. */
    method Step()
      requires Inv(View())
      modifies this
      ensures View() == SingleStep(old(View())) && Inv(View())
      ensures forall r :: old(Reached(View(), r)) ==> r in heap
    {
      StepReady(View());
      StepKeepsReached(View());
      SingleStepInv(View());
      StepBody();
    }

    /** luaC_fullgc's opening. */
    method AbandonMark()
      modifies this`sweepStr, this`sweepAt, this`gray, this`grayagain, this`weak, this`phase
      ensures View() == StartSweep(old(View()))
    {
      if phase == Pause || phase == Propagate {
        sweepStr, sweepAt := 0, 0;
        gray, grayagain, weak := [], [], [];
        phase := SweepString;
      }
    }

    /** luaC_fullgc: it keeps exactly what is reachable by strong references or fixed, and the strings that
        weak tables save; without weak tables it frees exactly the unreachable objects that are not fixed. */
    method FullCollection()
      requires Inv(View())
      modifies this
      ensures View() == FullGc(old(View())) && Inv(View()) && phase == Pause
      ensures forall r :: r in heap <==> r in old(heap) && (old(Kept(View(), r)) || r in fixed)
      ensures old(NoWeak(heap)) ==>
                forall r :: r in heap <==> r in old(heap) && (old(Reached(View(), r)) || r in fixed)
    {
      ghost var s := View();
      StartSweepInv(s);
      AbandonMark();
      RunUntil(Finalize);
      MarkRootInv(View());
      StepReady(View());
      StartMark();
      RunUntil(Pause);
      FullGcExact(s);
      if NoWeak(s.heap) { FullGcPlain(s); }
    }

    /** The loops of luaC_fullgc. */
    method RunUntil(stop: Phase)
      requires Inv(View()) && (stop == Pause || (stop == Finalize && phase != Pause))
      modifies this
      ensures View() == RunTo(old(View()), stop)
    {
      while phase != stop
        invariant Inv(View()) && (stop == Pause || (stop == Finalize && phase != Pause))
        invariant RunTo(View(), stop) == RunTo(old(View()), stop)
        decreases Rank(phase), Left(View()), |gray|
      {
        StepProgress(View());
        NotPastFinalize(View());
        Step();
      }
    }
  }

  /** What a collector step may rely on in its phase. */
  ghost predicate Ready(s: State) {
    && Keyed(s) && s.main in s.heap && s.heap[s.main].Thread?
    && (s.phase == Propagate && s.gray != [] ==> s.gray[0] in s.heap)
    && (s.phase == Propagate ==> Tricolor(s) && UvheadFull(s) && forall u :: u in s.uvhead ==> u in s.heap && IsOpen(s.heap[u]))
    && (s.phase == SweepString ==> s.sweepStr < |s.strt|)
  }

  lemma StepReady(s: State)
    requires Inv(s)
    ensures Ready(s)
  {
    UvheadIsFull(s);
    if s.phase == Propagate && s.gray != [] { assert OnList(s, s.gray[0]); }
  }

  lemma StepKeepsReached(s: State)
    requires Inv(s)
    ensures forall r :: Reached(s, r) ==> r in SingleStep(s).heap
  {
    forall r | Reached(s, r) ensures r in SingleStep(s).heap { ReachableLive(s, r); CollectorKeeps(s, r); }
  }

  lemma SweepChainEmpty(s: State)
    requires Keyed(s)
    ensures SweepChain(s, []) == s
  {
    KeepAll(s.uvhead);
    assert DoomedIn(s, []) == {};
    assert (map r | r in s.heap && r !in DoomedIn(s, []) :: s.heap[r]) == s.heap;
  }

  lemma {:induction false} KeepAll(l: seq<Ref>)
    ensures Keep(l, {}) == l
  {
    if l != [] { KeepAll(l[1..]); }
  }

  lemma {:induction false} KeepTwice(l: seq<Ref>, a: set<Ref>, b: set<Ref>)
    ensures Keep(Keep(l, a), b) == Keep(l, a + b)
  {
    if l != [] {
      KeepTwice(l[1..], a, b);
      var k := Keep(l[1..], a);
      if l[0] in a {
        assert Keep(l, a) == k;
      } else {
        assert Keep(l, a) == [l[0]] + k && ([l[0]] + k)[1..] == k;
      }
    }
  }

  lemma {:induction false} KeepSnoc(l: seq<Ref>, x: Ref, a: set<Ref>)
    ensures Keep(l + [x], a) == Keep(l, a) + (if x in a then [] else [x])
  {
    if l != [] {
      assert (l + [x])[1..] == l[1..] + [x];
      KeepSnoc(l[1..], x, a);
    }
  }

  lemma {:induction false} KeepSame(l: seq<Ref>, a: set<Ref>, b: set<Ref>)
    requires forall r :: r in l ==> (r in a <==> r in b)
    ensures Keep(l, a) == Keep(l, b)
  {
    if l != [] { KeepSame(l[1..], a, b); }
  }

  function SweepElem(s: State, r: Ref): State
    requires Keyed(s)
  {
    if r in s.heap && !Doomed(s, r) then s.(color := s.color[r := White(s.cw)])
    else s.(heap := s.heap - {r}, color := s.color - {r}, uvhead := Keep(s.uvhead, {r}))
  }

  /** Element by element, and the elements that stay in the chain. */
  function SweepEach(s: State, chain: seq<Ref>): (s': State)
    requires Keyed(s)
    ensures Keyed(s')
  {
    if chain == [] then s else SweepElem(SweepEach(s, chain[..|chain| - 1]), chain[|chain| - 1])
  }

  function KeepEach(s: State, chain: seq<Ref>): seq<Ref>
    requires Keyed(s)
  {
    if chain == [] then []
    else
      var n := |chain| - 1;
      var t := SweepEach(s, chain[..n]);
      KeepEach(s, chain[..n]) + if chain[n] in t.heap && !Doomed(t, chain[n]) then [chain[n]] else []
  }

  lemma {:induction false} SweepEachIsChain(s: State, chain: seq<Ref>)
    requires Keyed(s)
    ensures SweepEach(s, chain) == SweepChain(s, chain)
    ensures KeepEach(s, chain) == Keep(chain, DoomedIn(s, chain))
  {
    if chain == [] {
      SweepChainEmpty(s);
    } else {
      var c, r := chain[..|chain| - 1], chain[|chain| - 1];
      assert chain == c + [r];
      SweepEachIsChain(s, c);
      SweepSnoc(s, c, r);
      KeepSnoc(c, r, DoomedIn(s, chain));
      KeepSame(c, DoomedIn(s, c), DoomedIn(s, chain));
    }
  }

  lemma SweepSnoc(s: State, c: seq<Ref>, r: Ref)
    requires Keyed(s)
    ensures var t := SweepChain(s, c);
      SweepChain(s, c + [r]) == SweepElem(t, r) && (r in DoomedIn(s, c + [r]) <==> r !in t.heap || Doomed(t, r))
  {
    var d, d' := DoomedIn(s, c), DoomedIn(s, c + [r]);
    var t, t' := SweepChain(s, c), SweepChain(s, c + [r]);
    if r in s.heap && !Doomed(s, r) {
      assert d' == d;
      assert t'.color == t.color[r := White(t.cw)];
    } else {
      assert d' == d + {r};
      KeepTwice(s.uvhead, d, {r});
      assert t'.heap == t.heap - {r};
      assert t'.color == t.color - {r};
    }
  }
}
