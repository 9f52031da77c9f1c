/** Weak tables in a collection: atomic clears exactly the entries that refer weakly to an unmarked object
    other than a string, and marks exactly the strings of the others. */
module GcWeak {
  import opened GcHeap
  import opened GcMark
  import opened GcCollect
  import opened GcTricolor
  import opened GcAtomic
  import opened GcInvariant
  import opened GcStrong

  // ---------------------------------------------------------------- one entry

  /** The value is an object other than a string that is not in `p`. */
  ghost predicate Gone(h: Heap, p: Ref -> bool, v: Val) { v.Obj? && v.ref in h && !h[v.ref].Str? && !p(v.ref) }

  /** A key that is an object is marked as dead in an entry that is emptied; other keys stay. */
  function DeadIfObject(k: Val): Val { match k case Obj(_) => DeadKey case _ => k }

  /** What is left of an entry of a weak table, when `p` are the objects that are kept. */
  ghost function EntryLeft(h: Heap, p: Ref -> bool, e: Entry): Entry {
    if e.val != Nil && (Gone(h, p, e.key) || Gone(h, p, e.val)) then Entry(DeadIfObject(e.key), Nil) else e
  }

  /** The entry saves `q` if that is a string: as its key, or as its value, even of an entry that goes. */
  ghost predicate Saves(h: Heap, p: Ref -> bool, e: Entry, q: Ref) {
    e.val != Nil && !Gone(h, p, e.key) && (e.key == Obj(q) || e.val == Obj(q))
  }

  ghost predicate SavedIn(h: Heap, p: Ref -> bool, es: seq<Entry>, q: Ref) { exists i :: 0 <= i < |es| && Saves(h, p, es[i], q) }

  ghost function SavesSet(h: Heap, p: Ref -> bool, e: Entry): Ref -> bool { (q: Ref) => Saves(h, p, e, q) }

  ghost function SavedInSet(h: Heap, p: Ref -> bool, es: seq<Entry>): Ref -> bool { (q: Ref) => SavedIn(h, p, es, q) }

  ghost function Either(g1: Ref -> bool, g2: Ref -> bool): Ref -> bool { (q: Ref) => g1(q) || g2(q) }

  ghost function AllLeft(h: Heap, p: Ref -> bool, es: seq<Entry>): (r: seq<Entry>)
    ensures |r| == |es| && forall i :: 0 <= i < |es| ==> r[i] == EntryLeft(h, p, es[i])
  {
    seq(|es|, i requires 0 <= i < |es| => EntryLeft(h, p, es[i]))
  }

  /** Only what is kept and where strings are matters. */
  ghost predicate SameKept(h: Heap, p: Ref -> bool, h': Heap, p': Ref -> bool) {
    h.Keys == h'.Keys && forall r :: r in h ==> h'[r].Str? == h[r].Str? && (!h[r].Str? ==> p'(r) == p(r))
  }

  lemma SameLeft(h: Heap, p: Ref -> bool, h': Heap, p': Ref -> bool, e: Entry, q: Ref)
    requires SameKept(h, p, h', p')
    ensures EntryLeft(h', p', e) == EntryLeft(h, p, e) && (Saves(h', p', e, q) <==> Saves(h, p, e, q))
  {
  }

  ghost function MarkSet(c: Colors): Ref -> bool { (r: Ref) => IsMarked(c, r) }

  /** The strings of `g` that were white are marked, and nothing else. */
  ghost predicate Grown(h: Heap, c: Colors, c': Colors, g: Ref -> bool) {
    c'.Keys == c.Keys == h.Keys && forall q :: q in c ==> c'[q] == if h[q].Str? && c[q].White? && g(q) then Gray else c[q]
  }

  lemma GrownSame(h: Heap, c: Colors, c': Colors, g: Ref -> bool)
    requires Grown(h, c, c', g)
    ensures SameKept(h, MarkSet(c), h, MarkSet(c'))
  {
    forall r | r in h && !h[r].Str? ensures MarkSet(c')(r) == MarkSet(c)(r) { assert c'[r] == c[r]; }
  }

  lemma ClearEntryExact(h: Heap, c: Colors, e: Entry)
    requires h.Keys == c.Keys
    ensures ClearEntry(h, c, e).1 == EntryLeft(h, MarkSet(c), e)
    ensures Grown(h, c, ClearEntry(h, c, e).0, SavesSet(h, MarkSet(c), e))
  {
    assert forall v: Val :: IsCleared(h, c, v) <==> Gone(h, MarkSet(c), v);
    assert forall v: Val, c1: Colors :: c1 == StringMark(h, c, e.key) ==> (IsCleared(h, c1, v) <==> IsCleared(h, c, v));
  }

  lemma GrownTrans(h: Heap, a: Colors, b: Colors, c: Colors, g1: Ref -> bool, g2: Ref -> bool)
    requires Grown(h, a, b, g1) && Grown(h, b, c, g2)
    ensures Grown(h, a, c, Either(g1, g2))
  {
    forall q | q in a ensures c[q] == if h[q].Str? && a[q].White? && (g1(q) || g2(q)) then Gray else a[q] { assert q in b; }
  }

  lemma GrownBy(h: Heap, c: Colors, c': Colors, g: Ref -> bool, g': Ref -> bool)
    requires Grown(h, c, c', g) && forall q :: g(q) <==> g'(q)
    ensures Grown(h, c, c', g')
  {
  }

  // ---------------------------------------------------------------- one table, and all of them

  lemma {:induction false} ClearEntriesExact(h: Heap, c: Colors, es: seq<Entry>)
    requires h.Keys == c.Keys
    ensures ClearEntries(h, c, es).1 == AllLeft(h, MarkSet(c), es)
    ensures Grown(h, c, ClearEntries(h, c, es).0, SavedInSet(h, MarkSet(c), es))
    decreases |es|
  {
    if es != [] {
      var (c1, e) := ClearEntry(h, c, es[0]);
      ClearEntryExact(h, c, es[0]);
      ClearEntriesExact(h, c1, es[1..]);
      EntriesStep(h, c, c1, ClearEntries(h, c1, es[1..]).0, es);
    }
  }

  lemma EntriesStep(h: Heap, c: Colors, c1: Colors, c2: Colors, es: seq<Entry>)
    requires es != [] && Grown(h, c, c1, SavesSet(h, MarkSet(c), es[0])) && Grown(h, c1, c2, SavedInSet(h, MarkSet(c1), es[1..]))
    ensures Grown(h, c, c2, SavedInSet(h, MarkSet(c), es))
    ensures AllLeft(h, MarkSet(c), es) == [EntryLeft(h, MarkSet(c), es[0])] + AllLeft(h, MarkSet(c1), es[1..])
  {
    var p, p1, rest := MarkSet(c), MarkSet(c1), es[1..];
    GrownSame(h, c, c1, SavesSet(h, p, es[0]));
    LeftSame(h, p, h, p1, rest);
    GrownTrans(h, c, c1, c2, SavesSet(h, p, es[0]), SavedInSet(h, p1, rest));
    forall q ensures SavedInSet(h, p, es)(q) <==> Either(SavesSet(h, p, es[0]), SavedInSet(h, p1, rest))(q) { SavedCons(h, p, es, q); }
    GrownBy(h, c, c2, Either(SavesSet(h, p, es[0]), SavedInSet(h, p1, rest)), SavedInSet(h, p, es));
  }

  lemma LeftSame(h: Heap, p: Ref -> bool, h': Heap, p': Ref -> bool, es: seq<Entry>)
    requires SameKept(h, p, h', p')
    ensures AllLeft(h', p', es) == AllLeft(h, p, es) && forall q :: SavedIn(h', p', es, q) <==> SavedIn(h, p, es, q)
  {
    forall i | 0 <= i < |es| ensures EntryLeft(h', p', es[i]) == EntryLeft(h, p, es[i]) { SameLeft(h, p, h', p', es[i], 0); }
    forall q, i | 0 <= i < |es| ensures Saves(h', p', es[i], q) <==> Saves(h, p, es[i], q) { SameLeft(h, p, h', p', es[i], q); }
  }

  lemma SavedCons(h: Heap, p: Ref -> bool, es: seq<Entry>, q: Ref)
    requires es != []
    ensures SavedIn(h, p, es, q) <==> Saves(h, p, es[0], q) || SavedIn(h, p, es[1..], q)
  {
    if SavedIn(h, p, es, q) {
      var i :| 0 <= i < |es| && Saves(h, p, es[i], q);
      if i > 0 { assert es[1..][i - 1] == es[i]; }
    }
    if SavedIn(h, p, es[1..], q) {
      var i :| 0 <= i < |es[1..]| && Saves(h, p, es[1..][i], q);
      assert es[i + 1] == es[1..][i];
    }
  }

  /** A string that an entry of one of the tables saves. */
  ghost predicate SavedBy(h: Heap, p: Ref -> bool, tables: set<Ref>, q: Ref) {
    exists t :: t in tables && t in h && h[t].Table? && SavedIn(h, p, h[t].entries, q)
  }

  ghost function SavedBySet(h: Heap, p: Ref -> bool, tables: set<Ref>): Ref -> bool { (q: Ref) => SavedBy(h, p, tables, q) }

  /** What clearing some tables makes of the heap. */
  ghost predicate TablesLeft(h: Heap, h': Heap, p: Ref -> bool, tables: set<Ref>) {
    h'.Keys == h.Keys && forall r :: r in h ==>
      h'[r] == if r in tables && h[r].Table? then h[r].(entries := AllLeft(h, p, h[r].entries)) else h[r]
  }

  ghost predicate ClearedExactly(s: State, s': State, tables: set<Ref>) {
    && Keyed(s) && s' == s.(heap := s'.heap, color := s'.color)
    && TablesLeft(s.heap, s'.heap, MarkSet(s.color), tables)
    && Grown(s.heap, s.color, s'.color, SavedBySet(s.heap, MarkSet(s.color), tables))
  }

  lemma ClearOneExact(s: State, t: Ref)
    requires Keyed(s) && t in s.heap && s.heap[t].Table?
    ensures var (c, es) := ClearEntries(s.heap, s.color, s.heap[t].entries);
      ClearedExactly(s, s.(color := c, heap := s.heap[t := s.heap[t].(entries := es)]), {t})
  {
    var es := s.heap[t].entries;
    ClearEntriesExact(s.heap, s.color, es);
    var p := MarkSet(s.color);
    forall q ensures SavedBy(s.heap, p, {t}, q) <==> SavedIn(s.heap, p, es, q) { assert t in {t}; }
    GrownBy(s.heap, s.color, ClearEntries(s.heap, s.color, es).0, SavedInSet(s.heap, p, es), SavedBySet(s.heap, p, {t}));
  }

  /** Clearing one table and then others that do not include it. */
  lemma ClearMore(s: State, s1: State, s2: State, t: Ref, rest: set<Ref>)
    requires ClearedExactly(s, s1, {t}) && ClearedExactly(s1, s2, rest) && t !in rest
    ensures ClearedExactly(s, s2, {t} + rest)
  {
    var p, p1 := MarkSet(s.color), MarkSet(s1.color);
    GrownSame(s.heap, s.color, s1.color, SavedBySet(s.heap, p, {t}));
    KindsLeft(s, s1, {t});
    assert SameKept(s.heap, p, s1.heap, p1);
    MoreTables(s.heap, p, s1.heap, p1, s2.heap, t, rest);
    forall q ensures SavedBy(s1.heap, p1, rest, q) <==> SavedBy(s.heap, p, rest, q) { RestSaved(s, s1, t, rest, q); }
    assert Grown(s.heap, s1.color, s2.color, SavedBySet(s1.heap, p1, rest));
    MoreColors(s.heap, s.color, s1.color, s2.color, {t}, rest, SavedBySet(s1.heap, p1, rest));
  }

  lemma MoreTables(h: Heap, p: Ref -> bool, h1: Heap, p1: Ref -> bool, h2: Heap, t: Ref, rest: set<Ref>)
    requires SameKept(h, p, h1, p1) && TablesLeft(h, h1, p, {t}) && TablesLeft(h1, h2, p1, rest) && t !in rest
    ensures TablesLeft(h, h2, p, {t} + rest)
  {
    forall r | r in h
      ensures h2[r] == if r in {t} + rest && h[r].Table? then h[r].(entries := AllLeft(h, p, h[r].entries)) else h[r]
    {
      if r in rest && h[r].Table? { LeftSame(h, p, h1, p1, h[r].entries); }
    }
  }

  lemma MoreColors(h: Heap, c: Colors, c1: Colors, c2: Colors, a: set<Ref>, b: set<Ref>, g: Ref -> bool)
    requires Grown(h, c, c1, SavedBySet(h, MarkSet(c), a)) && Grown(h, c1, c2, g) && forall q :: g(q) <==> SavedBy(h, MarkSet(c), b, q)
    ensures Grown(h, c, c2, SavedBySet(h, MarkSet(c), a + b))
  {
    var p := MarkSet(c);
    GrownTrans(h, c, c1, c2, SavedBySet(h, p, a), g);
    forall q ensures Either(SavedBySet(h, p, a), g)(q) <==> SavedBySet(h, p, a + b)(q) { }
    GrownBy(h, c, c2, Either(SavedBySet(h, p, a), g), SavedBySet(h, p, a + b));
  }

  lemma KindsLeft(s: State, s': State, tables: set<Ref>)
    requires ClearedExactly(s, s', tables)
    ensures forall r :: r in s.heap ==> r in s'.heap && s'.heap[r].Str? == s.heap[r].Str? && s'.heap[r].Table? == s.heap[r].Table?
  {
  }

  lemma RestSaved(s: State, s1: State, t: Ref, rest: set<Ref>, q: Ref)
    requires ClearedExactly(s, s1, {t}) && t !in rest && SameKept(s.heap, MarkSet(s.color), s1.heap, MarkSet(s1.color))
    ensures SavedBy(s1.heap, MarkSet(s1.color), rest, q) <==> SavedBy(s.heap, MarkSet(s.color), rest, q)
  {
    var p, p1 := MarkSet(s.color), MarkSet(s1.color);
    forall r | r in rest && r in s.heap && s.heap[r].Table? ensures SavedIn(s1.heap, p1, s1.heap[r].entries, q) <==> SavedIn(s.heap, p, s.heap[r].entries, q) {
      assert s1.heap[r] == s.heap[r];
      LeftSame(s.heap, p, s1.heap, p1, s.heap[r].entries);
    }
    KindsLeft(s, s1, {t});
  }

  ghost function SetOf(l: seq<Ref>): set<Ref> { set r | r in l }

  lemma NothingCleared(s: State)
    requires Keyed(s)
    ensures ClearedExactly(s, s, {})
  {
  }

  /** cleartable over a list of tables. */
  lemma {:induction false} ClearTablesExact(s: State, tables: seq<Ref>)
    requires Keyed(s) && NoDup(tables) && forall t :: t in tables ==> t in s.heap && s.heap[t].Table?
    ensures ClearedExactly(s, ClearTables(s, tables), SetOf(tables))
    decreases |tables|
  {
    if tables == [] {
      NothingCleared(s);
      assert SetOf(tables) == {};
    } else {
      var t, rest := tables[0], tables[1..];
      var (c, es) := ClearEntries(s.heap, s.color, s.heap[t].entries);
      var s1 := s.(color := c, heap := s.heap[t := s.heap[t].(entries := es)]);
      ClearOneExact(s, t);
      KindsLeft(s, s1, {t});
      assert forall i, j :: 0 <= i < j < |rest| ==> rest[i] == tables[i + 1] && rest[j] == tables[j + 1];
      ClearTablesExact(s1, rest);
      forall i | 0 <= i < |rest| ensures rest[i] != t { assert rest[i] == tables[i + 1]; }
      assert SetOf(tables) == {t} + SetOf(rest);
      ClearMore(s, s1, ClearTables(s1, rest), t, SetOf(rest));
    }
  }
}
