/** The collected heap of src/lgc.c: objects, the references between them, and reachability.
    Every collectable object is named by a `Ref`; its colour lives in a separate map, so that
    the marking code can be followed without touching the object graph. */
module GcHeap {

  type Ref = nat

  /** A tagged value (TValue). `DeadKey` is the tag a table entry's key gets from `removeentry`. */
  datatype Val = Nil | Prim(n: int) | Obj(ref: Ref) | DeadKey

  /** One slot of a table: an array cell (its key is then a `Prim`) or a hash node. */
  datatype Entry = Entry(key: Val, val: Val)

  /** Where an upvalue's `v` pointer points: into a thread's stack, or into the upvalue itself. */
  datatype Home = Open(thread: Ref, slot: nat) | Closed(val: Val)

  datatype Object =
    | Str
    | Udata(meta: Val, env: Val)
    | Table(meta: Val, entries: seq<Entry>, weakKey: bool, weakValue: bool)
    | Closure(env: Val, parts: seq<Val>)
    | Proto(parts: seq<Val>)
    | UpVal(home: Home)
    | Thread(globals: Val, stack: seq<Val>, openUpvals: seq<Ref>)

  type Heap = map<Ref, Object>

  predicate IsOpen(o: Object) { o.UpVal? && o.home.Open? }

  /** The objects `reallymarkobject` puts on the gray list. */
  predicate Traversable(o: Object) { o.Table? || o.Closure? || o.Proto? || o.Thread? }

  /** The value an upvalue's `v` pointer designates. */
  function UpValue(h: Heap, home: Home): Val {
    match home
    case Closed(v) => v
    case Open(th, slot) =>
      if th in h && h[th].Thread? && slot < |h[th].stack| then h[th].stack[slot] else Nil
  }

  /** The references a table exposes to the program: entries with a nil value do not count. */
  predicate EntriesPoint(es: seq<Entry>, q: Ref) {
    exists i :: 0 <= i < |es| && es[i].val != Nil && (es[i].key == Obj(q) || es[i].val == Obj(q))
  }

  /** Object `r` refers to `q`, strongly or through a weak slot. */
  predicate Points(h: Heap, r: Ref, q: Ref) {
    r in h &&
    match h[r]
    case Str => false
    case Udata(m, e) => m == Obj(q) || e == Obj(q)
    case Table(m, es, _, _) => m == Obj(q) || EntriesPoint(es, q)
    case Closure(e, ps) => e == Obj(q) || Obj(q) in ps
    case Proto(ps) => Obj(q) in ps
    case UpVal(home) => UpValue(h, home) == Obj(q)
    case Thread(g, st, _) => g == Obj(q) || Obj(q) in st
  }

  /** `p` is a chain of references that starts at a root and ends at `r`. */
  ghost predicate PathTo(h: Heap, roots: set<Ref>, p: seq<Ref>, r: Ref)
    decreases |p|
  {
    |p| > 0 && p[|p|-1] == r &&
    if |p| == 1 then r in roots
    else Points(h, p[|p|-2], r) && PathTo(h, roots, p[..|p|-1], p[|p|-2])
  }

  ghost predicate Reachable(h: Heap, roots: set<Ref>, r: Ref) {
    exists p: seq<Ref> :: PathTo(h, roots, p, r)
  }

  lemma RootReachable(h: Heap, roots: set<Ref>, r: Ref)
    requires r in roots
    ensures Reachable(h, roots, r)
  {
    assert PathTo(h, roots, [r], r);
  }

  lemma StepReachable(h: Heap, roots: set<Ref>, r: Ref, q: Ref)
    requires Reachable(h, roots, r) && Points(h, r, q)
    ensures Reachable(h, roots, q)
  {
    var p :| PathTo(h, roots, p, r);
    assert (p + [q])[..|p|] == p;
    assert PathTo(h, roots, p + [q], q);
  }

  /** A set that holds the roots and is closed under `Points` holds everything reachable. */
  lemma {:induction false} ReachableWithin(h: Heap, roots: set<Ref>, p: seq<Ref>, r: Ref, live: set<Ref>)
    requires PathTo(h, roots, p, r)
    requires roots <= live
    requires forall x, y :: x in live && Points(h, x, y) ==> y in live
    ensures r in live
    decreases |p|
  {
    if |p| > 1 {
      ReachableWithin(h, roots, p[..|p|-1], p[|p|-2], live);
    }
  }

  /** Reachability only looks at what reachable objects point to. */
  lemma {:induction false} ReachableTransfer(h: Heap, h': Heap, roots: set<Ref>, roots': set<Ref>, p: seq<Ref>, r: Ref)
    requires PathTo(h, roots, p, r)
    requires forall x :: x in roots ==> Reachable(h', roots', x)
    requires forall x, y :: Reachable(h, roots, x) && Points(h, x, y) && Reachable(h', roots', x) ==> Reachable(h', roots', y)
    ensures Reachable(h', roots', r)
    decreases |p|
  {
    if |p| > 1 {
      ReachableTransfer(h, h', roots, roots', p[..|p|-1], p[|p|-2]);
      assert Reachable(h, roots, p[|p|-2]);
    }
  }
}
