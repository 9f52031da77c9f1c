/** Safety over whole runs: however the program and the collector interleave, no object that
    the program can reach is ever freed. */
module GcRuns {
  import opened GcHeap
  import opened GcMark
  import opened GcCollect
  import opened GcTricolor
  import opened GcInvariant
  import opened GcSweep
  import opened GcFrame
  import opened GcFull
  import opened GcMutate
  import opened GcSafety
  import opened GcEffects

  /** One step of the machine: a collector step, one of the two extra moves of luaC_fullgc
      (abandoning a mark phase, and starting a cycle right after a sweep), or a program step. */
  datatype Step = Collect | Abandon | Restart | Act(action: Action)

  /** `s'` is what `step` makes of `s`. The only thing asked of `s` itself is that every object
      has a colour, without which the collector's functions have no meaning; that a run keeps
      more than that is what RunInv proves. */
  ghost predicate Next(s: State, step: Step, s': State) {
    Keyed(s) &&
    match step
    case Collect => s' == SingleStep(s)
    case Abandon => s' == StartSweep(s)
    case Restart => s.phase == Finalize && s' == MarkRoot(s)
    case Act(a) => Enabled(s, a) && s' == Mutate(s, a)
  }

  /** The state lua_newstate builds: a main thread with its globals table, and the registry. */
  function InitialState(chains: nat): State {
    State(map[0 := Thread(Obj(1), [Nil], []), 1 := Table(Nil, [], false, false), 2 := Table(Nil, [], false, false)],
          map[0 := White(false), 1 := White(false), 2 := White(false)],
          [], [], [], false, Pause, [2, 1, 0], 0, seq(chains + 1, _ => []), 0, [], {0}, 0, 0, Obj(2), seq(9, _ => Nil))
  }

  lemma InitialInv(chains: nat)
    ensures Inv(InitialState(chains))
  {
    InitialStructure(chains);
    InitialAlive(chains);
  }

  lemma InitialStructure(chains: nat)
    ensures Structure(InitialState(chains), {})
  {
    var s := InitialState(chains);
    assert forall r :: !InTable(s.strt, r);
    assert forall r :: r in s.rootgc <==> Ordinary(s.heap, r);
  }

  lemma InitialAlive(chains: nat)
    ensures Alive(InitialState(chains)) && AllCurrent(InitialState(chains))
  {
    var s := InitialState(chains);
    assert ValRefs(s.mt) == {};
    forall r, q | Points(s.heap, r, q) ensures q in {1} { }
    assert Roots(s) <= {0, 2};
  }

  /** A run: steps from the initial state, whatever their order. */
  ghost predicate IsRun(run: seq<State>, steps: seq<Step>, chains: nat) {
    && |run| == |steps| + 1 && run[0] == InitialState(chains)
    && forall i :: 0 <= i < |steps| ==> Next(run[i], steps[i], run[i + 1])
  }

  /** Every step keeps the invariant. */
  lemma NextInv(s: State, step: Step, s': State)
    requires Inv(s) && Next(s, step, s')
    ensures Inv(s')
  {
    match step
    case Collect => SingleStepInv(s);
    case Abandon => StartSweepInv(s);
    case Restart => MarkRootInv(s);
    case Act(a) => MutateInv(s, a);
  }

  /** No step frees an object that is reachable when the step is taken. */
  lemma NextKeeps(s: State, step: Step, s': State, r: Ref)
    requires Inv(s) && Next(s, step, s') && Reached(s, r)
    ensures r in s.heap && r in s'.heap
  {
    ReachableLive(s, r);
    match step
    case Collect => CollectorKeeps(s, r);
    case Abandon =>
    case Restart =>
    case Act(a) => ProgramKeeps(s, a, r);
  }

  lemma {:induction false} RunInv(run: seq<State>, steps: seq<Step>, chains: nat, i: nat)
    requires IsRun(run, steps, chains) && i <= |steps|
    ensures Inv(run[i])
  {
    if i == 0 {
      InitialInv(chains);
    } else {
      RunInv(run, steps, chains, i - 1);
      NextInv(run[i - 1], steps[i - 1], run[i]);
    }
  }

  /** Safety: in every state of every run, everything the program can reach is allocated, and
      the next step, whatever it is, does not free any of it. */
  lemma RunSafe(run: seq<State>, steps: seq<Step>, chains: nat, i: nat, r: Ref)
    requires IsRun(run, steps, chains) && i <= |steps| && Reached(run[i], r)
    ensures r in run[i].heap
    ensures i < |steps| ==> r in run[i + 1].heap
  {
    RunInv(run, steps, chains, i);
    ReachableLive(run[i], r);
    if i < |steps| { NextKeeps(run[i], steps[i], run[i + 1], r); }
  }

  /** What a step of the program creates is in its hands afterwards: the new object is allocated, as asked for,
      and reachable, so that RunSafe is about it as well. */
  lemma RunAllocates(run: seq<State>, steps: seq<Step>, chains: nat, i: nat, r: Ref, o: Object, chain: nat)
    requires IsRun(run, steps, chains) && i < |steps| && steps[i] == Act(Alloc(r, o, chain))
    ensures r !in run[i].heap && r in run[i + 1].heap && run[i + 1].heap[r] == o && Reached(run[i + 1], r)
  {
    RunInv(run, steps, chains, i);
    assert Next(run[i], steps[i], run[i + 1]);
    StepAllocates(run[i], run[i + 1], r, o, chain);
  }

  lemma StepAllocates(s: State, s': State, r: Ref, o: Object, chain: nat)
    requires Inv(s) && Next(s, Act(Alloc(r, o, chain)), s')
    ensures r !in s.heap && r in s'.heap && s'.heap[r] == o && Reached(s', r)
  {
    AllocEffect(s, r, o, chain);
  }

  /** In every state of every run, no black object points to a white one while the collector
      marks, and nothing reachable is in the dead white while it sweeps. */
  lemma RunColors(run: seq<State>, steps: seq<Step>, chains: nat, i: nat, r: Ref, q: Ref)
    requires IsRun(run, steps, chains) && i <= |steps|
    ensures run[i].phase == Propagate && r in run[i].color && run[i].color[r] == Black && Points(run[i].heap, r, q) ==>
              q in run[i].color && !run[i].color[q].White?
    ensures Reached(run[i], r) ==> !IsDead(run[i], r)
  {
    var s := run[i];
    RunInv(run, steps, chains, i);
    if Reached(s, r) { ReachableLive(s, r); }
    if s.phase == Propagate && r in s.color && s.color[r] == Black && Points(s.heap, r, q) {
      assert BlackOk(s.heap, s.color, r);
      assert KidsMarked(s.heap, s.color, r) && NoDangle(s.heap);
    }
  }
}
