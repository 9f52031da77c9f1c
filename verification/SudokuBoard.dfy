/** The board and the propagation of determined cells (src/sudoku.lua, Cell and Board). */
module SudokuBoard {
  import opened Basics
  import opened SudokuGrid
  import opened SudokuSound

  /** What a rule returns: whether it eliminated something, or the error "Board inconsistent". */
  datatype Result = Done(e: bool) | Inconsistent

  ghost function AllCells(n: nat): set<Pos> {
    set r1: nat, c1: nat, r2: nat, c2: nat | r1 <= n && c1 <= n && r2 <= n && c2 <= n && OnBoard(n, Pos(r1, c1, r2, c2)) :: Pos(r1, c1, r2, c2)
  }

  ghost predicate Ok(n: nat, c: Cands, det: set<Pos>) { n > 0 && OnlyCells(n, c) && forall p :: p in det ==> OnBoard(n, p) }

  /** How many cells are not determined. */
  ghost function Open(n: nat, det: set<Pos>): nat { |AllCells(n) - det| }

  lemma OpenLess(n: nat, det: set<Pos>, p: Pos)
    requires OnBoard(n, p) && p !in det
    ensures Open(n, det + {p}) < Open(n, det)
  {
    assert p in AllCells(n);
    assert AllCells(n) - det == (AllCells(n) - (det + {p})) + {p};
  }

  lemma OpenMore(n: nat, det: set<Pos>, det': set<Pos>)
    requires det <= det'
    ensures Open(n, det') <= Open(n, det)
  {
    SubsetSize(AllCells(n) - det', AllCells(n) - det);
  }

  /** The value of a determined cell is possible nowhere else in its houses, except perhaps for the cells
      in `pend` whose determination is still being propagated. */
  ghost predicate Clean(c: Cands, det: set<Pos>, pend: set<Pos>) {
    forall x, y :: x in c && y in c && x.0 in det && x.0 !in pend && x.1 == y.1 && x.0 != y.0 ==> !SameHouse(x.0, y.0)
  }

  lemma CleanLess(c: Cands, det: set<Pos>, c': Cands, pend: set<Pos>)
    requires c' <= c
    ensures StaysClean(c, det, c', det, pend)
  {
  }

  /** A clean board is not spoilt. Boards that are not clean occur as well: after "Board inconsistent" the
      commands of src/sudoku.lua go on working on the half-propagated board. */
  ghost predicate StaysClean(c: Cands, det: set<Pos>, c': Cands, det': set<Pos>, pend: set<Pos>) {
    Clean(c, det, pend) ==> Clean(c', det', pend)
  }

  /** No solution is lost. */
  ghost predicate Preserves(n: nat, c: Cands, c': Cands) { c' <= c && forall g: Grid :: Solution(n, g, c) ==> Solution(n, g, c') }

  /** Exactly the solutions with digit d in cell p are left. */
  ghost predicate NarrowTo(n: nat, c: Cands, c': Cands, p: Pos, d: int) {
    && c' <= c && (forall x :: x in c' && x.0 == p ==> x.1 == d)
    && forall g: Grid :: Solution(n, g, c) && p in g && g[p] == d ==> Solution(n, g, c')
  }

  ghost predicate NoSolution(n: nat, c: Cands) { forall g: Grid :: !Solution(n, g, c) }

  lemma Fewer(n: nat, g: Grid, c: Cands, c': Cands)
    requires c' <= c && Solution(n, g, c')
    ensures Solution(n, g, c)
  {
  }

  lemma PreservesTrans(n: nat, c: Cands, c1: Cands, c2: Cands)
    requires Preserves(n, c, c1) && Preserves(n, c1, c2)
    ensures Preserves(n, c, c2)
  {
  }

  /** Nothing is lost, and nothing can be gained by fewer candidates. */
  lemma PreservesSame(n: nat, c: Cands, c': Cands)
    requires Preserves(n, c, c')
    ensures SameSolutions(n, c, c')
  {
    forall g: Grid ensures Solution(n, g, c) <==> Solution(n, g, c') { if Solution(n, g, c') { Fewer(n, g, c, c'); } }
  }

  // ---------------------------------------------------------------- visiting the cells of a house

  /** The cells of `s` among the first i cells of a house. */
  ghost function Seen(n: nat, h: House, s: set<Pos>, i: nat): set<Pos>
    requires n > 0
  {
    if i == 0 then {} else if CellAt(n, h, i - 1) in s then Seen(n, h, s, i - 1) + {CellAt(n, h, i - 1)} else Seen(n, h, s, i - 1)
  }

  lemma {:induction false} SeenIn(n: nat, h: House, s: set<Pos>, i: nat, p: Pos)
    requires n > 0 && IsHouse(n, h) && i <= Digits(n)
    ensures p in Seen(n, h, s, i) <==> p in s && OnBoard(n, p) && InHouse(h, p) && IndexIn(n, h, p) < i
  {
    if i > 0 {
      SeenIn(n, h, s, i - 1, p);
      CellIndex(n, h, i - 1);
    }
    if OnBoard(n, p) && InHouse(h, p) { IndexCell(n, h, p); }
  }

  lemma SeenNew(n: nat, h: House, s: set<Pos>, i: nat)
    requires n > 0 && IsHouse(n, h) && i < Digits(n)
    ensures CellAt(n, h, i) !in Seen(n, h, s, i)
  {
    CellIndex(n, h, i);
    SeenIn(n, h, s, i, CellAt(n, h, i));
  }

  lemma SeenAll(n: nat, h: House, s: set<Pos>)
    requires n > 0 && IsHouse(n, h) && forall p :: p in s ==> OnBoard(n, p) && InHouse(h, p)
    ensures Seen(n, h, s, Digits(n)) == s
  {
    forall p ensures p in Seen(n, h, s, Digits(n)) <==> p in s {
      SeenIn(n, h, s, Digits(n), p);
      if p in s { IndexCell(n, h, p); }
    }
  }

  /** The candidates after those in `e` were removed from the first i cells of a house. */
  ghost function Swept(n: nat, c: Cands, e: Cands, h: House, i: nat): Cands
    requires n > 0
  {
    if i == 0 then c else Swept(n, c, e, h, i - 1) - Of(e, CellAt(n, h, i - 1))
  }

  ghost function Of(e: Cands, p: Pos): Cands { set x | x in e && x.0 == p }

  lemma {:induction false} SweptIn(n: nat, c: Cands, e: Cands, h: House, i: nat, x: (Pos, int))
    requires n > 0 && IsHouse(n, h) && i <= Digits(n)
    ensures x in Swept(n, c, e, h, i) <==> x in c && !(x in e && OnBoard(n, x.0) && InHouse(h, x.0) && IndexIn(n, h, x.0) < i)
  {
    if i > 0 {
      SweptIn(n, c, e, h, i - 1, x);
      CellIndex(n, h, i - 1);
    }
    if OnBoard(n, x.0) && InHouse(h, x.0) { IndexCell(n, h, x.0); }
  }

  lemma SweptAll(n: nat, c: Cands, e: Cands, h: House)
    requires n > 0 && IsHouse(n, h) && forall x :: x in e ==> OnBoard(n, x.0) && InHouse(h, x.0)
    ensures Swept(n, c, e, h, Digits(n)) == c - e
  {
    forall x ensures x in Swept(n, c, e, h, Digits(n)) <==> x in c - e {
      SweptIn(n, c, e, h, Digits(n), x);
      if x in e { IndexCell(n, h, x.0); }
    }
  }

  /** A cell not visited yet still has all its candidates. */
  lemma SweptLater(n: nat, c: Cands, e: Cands, h: House, i: nat, d: int)
    requires n > 0 && IsHouse(n, h) && i < Digits(n)
    ensures var q := CellAt(n, h, i); OnBoard(n, q) && InHouse(h, q) && ((q, d) in Swept(n, c, e, h, i) <==> (q, d) in c)
  {
    CellIndex(n, h, i);
    SweptIn(n, c, e, h, i, (CellAt(n, h, i), d));
  }

  lemma {:induction false} SweptLess(n: nat, c: Cands, e: Cands, h: House, i: nat)
    requires n > 0
    ensures Swept(n, c, e, h, i) <= c
  {
    if i > 0 { SweptLess(n, c, e, h, i - 1); }
  }

  /** What the removal of one digit means for one cell. */
  lemma StrikeOf(n: nat, c: Cands, h: House, d: int, s: Skip, q: Pos)
    requires InHouse(h, q)
    ensures Of(Strike(c, h, d, s), q) == if (q, d) in c && !Skips(s, q) then {(q, d)} else {}
  {
  }

  /** Solutions with digit d in cell p are not lost. */
  ghost predicate KeepsWith(n: nat, c: Cands, c': Cands, p: Pos, d: int) {
    c' <= c && forall g: Grid :: Solution(n, g, c) && p in g && g[p] == d ==> Solution(n, g, c')
  }

  lemma StrikeKeeps(n: nat, c: Cands, h: House, p: Pos, d: int)
    requires OnBoard(n, p) && InHouse(h, p)
    ensures KeepsWith(n, c, c - Strike(c, h, d, Only(p)), p, d)
  {
    forall g: Grid | Solution(n, g, c) && p in g && g[p] == d ensures Solution(n, g, c - Strike(c, h, d, Only(p))) { PeerSound(n, g, c, h, p, d); }
  }

  lemma KeepsTrans(n: nat, c: Cands, c1: Cands, c2: Cands, p: Pos, d: int)
    requires KeepsWith(n, c, c1, p, d) && (KeepsWith(n, c1, c2, p, d) || Preserves(n, c1, c2))
    ensures KeepsWith(n, c, c2, p, d)
  {
  }

  /** The other candidates of a cell. */
  ghost function Others(c: Cands, p: Pos, d: int): Cands { set x | x in c && x.0 == p && x.1 != d }

  lemma SingletonKeeps(n: nat, c: Cands, p: Pos, d: int)
    requires OnBoard(n, p)
    ensures KeepsWith(n, c, c - Others(c, p, d), p, d)
  {
    var c' := c - Others(c, p, d);
    forall g: Grid | Solution(n, g, c) && p in g && g[p] == d ensures Solution(n, g, c') {
      forall q | OnBoard(n, q) && q in g ensures (q, g[q]) in c' { }
    }
  }

  /** The digit of p is gone from its three houses, so p is clean. */
  lemma CleanNow(c: Cands, det: set<Pos>, pend: set<Pos>, p: Pos, d: int)
    requires (forall x :: x in c && x.0 == p ==> x.1 == d)
    requires Strike(c, Square(p.r1, p.c1), d, Only(p)) == {} && Strike(c, Row(p.r1, p.r2), d, Only(p)) == {} && Strike(c, Column(p.c1, p.c2), d, Only(p)) == {}
    ensures Clean(c, det, pend + {p}) ==> Clean(c, det, pend)
  {
    forall x, y | Clean(c, det, pend + {p}) && x in c && y in c && x.0 in det && x.0 !in pend && x.1 == y.1 && x.0 != y.0 ensures !SameHouse(x.0, y.0) {
      if x.0 == p {
        assert y !in Strike(c, Square(p.r1, p.c1), d, Only(p)) && y !in Strike(c, Row(p.r1, p.r2), d, Only(p)) && y !in Strike(c, Column(p.c1, p.c2), d, Only(p));
      }
    }
  }

  lemma StrikeEmpty(c: Cands, c': Cands, h: House, d: int, s: Skip)
    requires c' <= c - Strike(c, h, d, s)
    ensures Strike(c', h, d, s) == {}
  {
  }

  lemma StrikeLess(c: Cands, c': Cands, h: House, d: int, s: Skip)
    requires c' <= c && Strike(c, h, d, s) == {}
    ensures Strike(c', h, d, s) == {}
  {
    assert Strike(c', h, d, s) <= Strike(c, h, d, s);
  }

  lemma NoValue(n: nat, c: Cands, q: Pos)
    requires OnBoard(n, q) && CellValues(c, q) == {}
    ensures NoSolution(n, c) && Stuck(n, c)
  {
    forall g: Grid ensures !Solution(n, g, c) { if Solution(n, g, c) { SingletonSound(n, g, c, q); } }
  }

  /** The only value of a cell is its digit in every solution. */
  lemma OneValue(n: nat, c: Cands, c': Cands, q: Pos, d: int)
    requires OnBoard(n, q) && |CellValues(c, q)| <= 1 && (q, d) in c && NarrowTo(n, c, c', q, d)
    ensures Preserves(n, c, c')
  {
    forall g: Grid | Solution(n, g, c) ensures Solution(n, g, c') {
      SingletonSound(n, g, c, q);
      assert d in CellValues(c, q);
    }
  }

  /** Some cell has no candidate left: what Cell:first reports as "Board inconsistent". */
  ghost predicate Stuck(n: nat, c: Cands) { exists q :: OnBoard(n, q) && CellValues(c, q) == {} }

  /** What every propagation step promises, when it started with candidates c and determined cells det. */
  ghost predicate Progress(n: nat, c: Cands, det: set<Pos>, c': Cands, det': set<Pos>, pend: set<Pos>, res: Result) {
    && Ok(n, c', det') && c' <= c && det <= det'
    && (res.Done? ==> StaysClean(c, det, c', det', pend) && (res.e <==> c' != c))
    && (res.Inconsistent? ==> NoSolution(n, c') && Stuck(n, c'))
  }

  class Board {
    const n: nat
    var cand: Cands
    var det: set<Pos>

    /** mk_board: everything is possible. */
    constructor (n: nat)
      requires n > 0
      ensures this.n == n && det == {} && Ok(n, cand, det) && Clean(cand, det, {})
      ensures forall p, d :: OnBoard(n, p) && IsDigit(n, d) ==> (p, d) in cand
    {
      this.n := n;
      this.cand := set r1: nat, c1: nat, r2: nat, c2: nat, d: nat |
        r1 <= n && c1 <= n && r2 <= n && c2 <= n && d <= n * n && OnBoard(n, Pos(r1, c1, r2, c2)) && IsDigit(n, d) :: (Pos(r1, c1, r2, c2), d as int);
      this.det := {};
    }

    // -------------------------------------------------------------- one cell

    /** Cell:singleton */
    method Singleton(p: Pos, d: int) returns (e: bool)
      modifies this`cand
      requires OnlyCells(n, cand)
      ensures cand == old(cand) - Others(old(cand), p, d)
      ensures e <==> cand != old(cand)
    {
      e := false;
      var i := 1;
      while i <= n * n
        invariant 1 <= i
        invariant cand == old(cand) - set x | x in old(cand) && x.0 == p && x.1 != d && x.1 < i
        invariant e <==> cand != old(cand)
        decreases n * n + 1 - i
      {
        if i != d && (p, i) in cand {
          cand := cand - {(p, i)};
          e := true;
        }
        i := i + 1;
      }
    }

    /** Cell:unknowns */
    method Unknowns(p: Pos) returns (u: nat)
      requires OnlyCells(n, cand)
      ensures u == |CellValues(cand, p)|
    {
      u := 0;
      var i := 1;
      ghost var s: set<int> := {};
      while i <= n * n
        invariant 1 <= i <= n * n + 1
        invariant (forall d :: d in s <==> (p, d) in cand && 1 <= d < i) && u == |s|
      {
        if (p, i) in cand { u, s := u + 1, s + {i}; }
        i := i + 1;
      }
      forall d ensures d in s <==> d in CellValues(cand, p) {
        assert (p, d) in cand ==> IsDigit(n, d);
      }
      assert s == CellValues(cand, p);
    }

    /** Cell:first; 0 stands for the error "Board inconsistent". */
    method First(p: Pos) returns (d: nat)
      requires OnlyCells(n, cand)
      ensures if d == 0 then CellValues(cand, p) == {} else (p, d) in cand
    {
      d := 1;
      while d <= n * n
        invariant 1 <= d <= n * n + 1
        invariant forall i :: 1 <= i < d ==> (p, i) !in cand
      {
        if (p, d) in cand { return; }
        d := d + 1;
      }
      d := 0;
    }

    // -------------------------------------------------------------- propagation

    /** The digit is eliminated in a house, except in some cells; the determined cells are counted. */
    method StrikeHouse(h: House, d: int, s: Skip) returns (e: bool, m: nat)
      requires n > 0 && IsHouse(n, h) && OnlyCells(n, cand)
      modifies this`cand
      ensures cand == old(cand) - Strike(old(cand), h, d, s) && (e <==> cand != old(cand))
      ensures m == |Seen(n, h, det, Digits(n))|
    {
      ghost var c, E := cand, Strike(cand, h, d, s);
      e, m := false, 0;
      var i := 0;
      while i < n * n
        invariant 0 <= i <= Digits(n) && cand == Swept(n, c, E, h, i)
        invariant (e <==> cand != c) && m == |Seen(n, h, det, i)|
      {
        var q := CellAt(n, h, i);
        SweptLater(n, c, E, h, i, d);
        StrikeOf(n, c, h, d, s, q);
        SeenNew(n, h, det, i);
        SweptLess(n, c, E, h, i);
        if !Skips(s, q) && (q, d) in cand {
          cand := cand - {(q, d)};
          e := true;
        }
        if q in det { m := m + 1; }
        i := i + 1;
      }
      SweptAll(n, c, E, h);
    }

    /** Board:determine. It does nothing unless d is possible in an undetermined cell; then exactly the
        solutions with d in that cell remain, also if the board turns out to be inconsistent. */
    method Determine(p: Pos, d: int, ghost pend: set<Pos>) returns (res: Result)
      requires Ok(n, cand, det) && OnBoard(n, p)
      modifies this
      ensures Progress(n, old(cand), old(det), cand, det, pend, res)
      ensures if old((p, d) in cand && p !in det) then p in det && NarrowTo(n, old(cand), cand, p, d) else res == Done(false) && unchanged(this)
      decreases Open(n, det), 1
    {
      if (p, d) !in cand || p in det { return Done(false); }
      ghost var c0, pend' := cand, pend + {p};
      OpenLess(n, det, p);
      det := det + {p};
      var e := Singleton(p, d);
      SingletonKeeps(n, c0, p, d);
      CleanLess(c0, old(det), cand, pend);
      res := SpreadAll(p, d, c0, pend');
      if res.Done? {
        CleanNow(cand, det, pend, p, d);
        res := Done(e || res.e);
      }
    }

    /** The square, the row and the column of a cell that was determined. */
    method SpreadAll(p: Pos, d: int, ghost c0: Cands, ghost pend: set<Pos>) returns (res: Result)
      requires Ok(n, cand, det) && OnBoard(n, p) && p in det && p in pend && KeepsWith(n, c0, cand, p, d)
      modifies this
      ensures Progress(n, old(cand), old(det), cand, det, pend, res) && KeepsWith(n, c0, cand, p, d)
      ensures res.Done? ==> Strike(cand, Square(p.r1, p.c1), d, Only(p)) == {} && Strike(cand, Row(p.r1, p.r2), d, Only(p)) == {}
      ensures res.Done? ==> Strike(cand, Column(p.c1, p.c2), d, Only(p)) == {}
      decreases Open(n, det), 5
    {
      ghost var d0 := det;
      res := SpreadOver(Square(p.r1, p.c1), p, d, c0, pend);
      if res.Inconsistent? { return; }
      var e := res.e;
      ghost var c1 := cand;
      OpenMore(n, d0, det);
      res := SpreadOver(Row(p.r1, p.r2), p, d, c0, pend);
      if res.Inconsistent? { return; }
      e := e || res.e;
      ghost var c2 := cand;
      OpenMore(n, d0, det);
      res := SpreadOver(Column(p.c1, p.c2), p, d, c0, pend);
      if res.Inconsistent? { return; }
      StrikeLess(c1, cand, Square(p.r1, p.c1), d, Only(p));
      StrikeLess(c2, cand, Row(p.r1, p.r2), d, Only(p));
      res := Done(e || res.e);
    }

    /** One of the three parts of Board:determine: the digit is struck from a house, and if one cell of the
        house is left undetermined, it is looked at. */
    method SpreadOver(h: House, p: Pos, d: int, ghost c0: Cands, ghost pend: set<Pos>) returns (res: Result)
      requires Ok(n, cand, det) && OnBoard(n, p) && InHouse(h, p) && IsHouse(n, h) && p in det && p in pend && KeepsWith(n, c0, cand, p, d)
      modifies this
      ensures Progress(n, old(cand), old(det), cand, det, pend, res) && KeepsWith(n, c0, cand, p, d)
      ensures res.Done? ==> Strike(cand, h, d, Only(p)) == {}
      decreases Open(n, det), 4
    {
      ghost var c := cand;
      var e, m := StrikeHouse(h, d, Only(p));
      StrikeKeeps(n, c, h, p, d);
      KeepsTrans(n, c0, c, cand, p, d);
      CleanLess(c, det, cand, pend);
      res := Done(e);
      ghost var c1 := cand;
      if m == n * n - 1 {
        res := FinishHouse(h, pend);
        KeepsTrans(n, c0, c1, cand, p, d);
        if res.Done? { res := Done(res.e || e); }
      }
      StrikeEmpty(c, cand, h, d, Only(p));
    }

    /** Propagation to the undetermined cells of a house. */
    method FinishHouse(h: House, ghost pend: set<Pos>) returns (res: Result)
      requires Ok(n, cand, det) && IsHouse(n, h)
      modifies this
      ensures Progress(n, old(cand), old(det), cand, det, pend, res) && Preserves(n, old(cand), cand)
      decreases Open(n, det), 3
    {
      ghost var c0, d0 := cand, det;
      var e := false;
      var i := 0;
      while i < n * n
        invariant Ok(n, cand, det) && cand <= c0 && d0 <= det && StaysClean(c0, d0, cand, det, pend) && (e <==> cand != c0) && Preserves(n, c0, cand)
      {
        var q := CellAt(n, h, i);
        CellIndex(n, h, i);
        if q !in det {
          ghost var c1 := cand;
          OpenMore(n, d0, det);
          res := PropagateElimination(q, pend);
          PreservesTrans(n, c0, c1, cand);
          if res.Inconsistent? { return; }
          e := res.e || e;
        }
        i := i + 1;
      }
      res := Done(e);
    }

    /** Board:propagate_elimination */
    method PropagateElimination(q: Pos, ghost pend: set<Pos>) returns (res: Result)
      requires Ok(n, cand, det) && OnBoard(n, q)
      modifies this
      ensures Progress(n, old(cand), old(det), cand, det, pend, res) && Preserves(n, old(cand), cand)
      ensures res == Done(false) ==> q in det || |CellValues(cand, q)| >= 2
      ensures old(q in det || |CellValues(cand, q)| >= 2) ==> res == Done(false) && unchanged(this)
      ensures old(q !in det && |CellValues(cand, q)| < 2) ==> res.Inconsistent? || q in det
      ensures old(q !in det && CellValues(cand, q) == {}) ==> res.Inconsistent?
      decreases Open(n, det), 2
    {
      var u := Unknowns(q);
      if u > 1 || q in det { return Done(false); }
      var d := First(q);
      ghost var c := cand;
      if d == 0 {
        NoValue(n, cand, q);
        return Inconsistent;
      }
      assert d in CellValues(c, q);
      res := Determine(q, d, pend);
      OneValue(n, c, cand, q, d);
    }
  }
}
