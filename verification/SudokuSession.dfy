/** Whole sessions (src/sudoku.lua, eval): commands one after the other on a loaded board, which stays in use when
    a command ends with "Board inconsistent". */
module SudokuSession {
  import opened SudokuGrid
  import opened SudokuSound
  import opened SudokuBoard
  import opened SudokuRules
  import opened SudokuSolve
  import opened SudokuPuzzle

  /** The commands that work on the board. Each rule is for any house or pair of houses, so it stands for the
      commands that the source has for squares, rows and columns. */
  datatype Command =
    | Place(h: House, d: int)
    | Look(q: Pos)
    | Meet(h1: House, h2: House, d: int)
    | Hidden(h: House, d1: int, d2: int)
    | Naked(h: House, d1: int, d2: int)
    | Propagate
    | Simplify
    | TryAll
    | SolveIt

  predicate CommandOk(n: nat, c: Command) {
    match c
    case Place(h, d) => IsHouse(n, h) && IsDigit(n, d)
    case Look(q) => OnBoard(n, q)
    case Meet(h1, h2, d) => IsHouse(n, h1) && IsHouse(n, h2) && IsDigit(n, d)
    case Hidden(h, d1, d2) => IsHouse(n, h) && IsDigit(n, d1) && IsDigit(n, d2)
    case Naked(h, d1, d2) => IsHouse(n, h) && IsDigit(n, d1) && IsDigit(n, d2)
    case _ => true
  }

  /** The board is clean, or a cell has no candidate left. */
  ghost predicate Sane(n: nat, c: Cands, det: set<Pos>) { Clean(c, det, {}) || Stuck(n, c) }

  lemma StuckStays(n: nat, c: Cands, c': Cands)
    requires c' <= c && Stuck(n, c)
    ensures Stuck(n, c')
  {
    var q :| OnBoard(n, q) && CellValues(c, q) == {};
    assert forall d :: d in CellValues(c', q) ==> d in CellValues(c, q);
    assert CellValues(c', q) == {};
  }

  lemma SaneStays(n: nat, c: Cands, det: set<Pos>, c': Cands, det': set<Pos>, res: Result)
    requires Progress(n, c, det, c', det', {}, res) && Sane(n, c, det)
    ensures Sane(n, c', det')
  {
    if Stuck(n, c) { StuckStays(n, c, c'); }
  }

  lemma ShrunkSane(n: nat, c: Cands, det: set<Pos>, c': Cands)
    requires c' <= c && Sane(n, c, det)
    ensures Sane(n, c', det)
  {
    CleanLess(c, det, c', {});
    if Stuck(n, c) { StuckStays(n, c, c'); }
  }

  /** What the command does: a rule for one house determines or removes exactly what it is about, or leaves the
      board alone; the drivers go on until they have nothing more to do. */
  ghost predicate Effect(n: nat, c: Cands, det: set<Pos>, c': Cands, det': set<Pos>, command: Command, res: Result)
    requires n > 0
  {
    match command
    case Place(h, d) => if |PlacesOf(c, h, d)| == 1 then PlacesOf(c, h, d) <= det' else res == Done(false) && c' == c && det' == det
    case Look(q) =>
      if q in det || |CellValues(c, q)| >= 2 then res == Done(false) && c' == c && det' == det
      else if CellValues(c, q) == {} then res.Inconsistent?
      else res.Inconsistent? || q in det'
    case Meet(h1, h2, d) => det' == det && c' == if Strike(c, h1, d, All(h2)) == {} then c - Strike(c, h2, d, All(h1)) else c
    case Hidden(h, d1, d2) => det' == det && c' == if d1 != d2 then c - HiddenStrike(c, h, d1, d2) else c
    case Naked(h, d1, d2) => det' == det && c' == if d1 != d2 then c - NakedStrike(n, c, h, d1, d2) else c
    case Propagate => res.Done? ==> Settled(n, c', det')
    case Simplify => res.Done? ==> Settled(n, c', det') && AllPlacesFixed(n, c', det')
    case TryAll => res == Done(false) ==> Fixpoint(n, c', det')
    case SolveIt => res.Done? ==> Fixpoint(n, c', det')
  }

  /** One command, on any board. The result tells whether candidates were eliminated. */
  method Perform(b: Board, c: Command) returns (res: Result)
    requires Ok(b.n, b.cand, b.det) && CommandOk(b.n, c)
    modifies b
    ensures Ok(b.n, b.cand, b.det) && Preserves(b.n, old(b.cand), b.cand) && old(b.det) <= b.det
    ensures res.Inconsistent? ==> NoSolution(b.n, b.cand)
    ensures res.Done? ==> (res.e <==> b.cand != old(b.cand))
    ensures Effect(b.n, old(b.cand), old(b.det), b.cand, b.det, c, res)
    ensures Sane(b.n, old(b.cand), old(b.det)) ==> Sane(b.n, b.cand, b.det)
  {
    ghost var n, c0, d0 := b.n, b.cand, b.det;
    match c {
      case Place(h, d) => res := OnePlace(b, h, d);
      case Look(q) => res := b.PropagateElimination(q, {});
      case Meet(h1, h2, d) => res := Intersect(b, h1, h2, d);
      case Hidden(h, d1, d2) => res := TwoPlaces(b, h, d1, d2);
      case Naked(h, d1, d2) => res := SamePair(b, h, d1, d2);
      case Propagate => res := PropagateAllSingletons(b);
      case Simplify => res := Simp(b);
      case TryAll => res := AllRules(b);
      case SolveIt => res := Solve(b); SamePreserves(n, c0, b.cand);
    }
    if Sane(n, c0, d0) {
      if c.Meet? || c.Hidden? || c.Naked? { ShrunkSane(n, c0, d0, b.cand); } else { SaneStays(n, c0, d0, b.cand, b.det, res); }
    }
  }

  lemma SamePreserves(n: nat, c: Cands, c': Cands)
    requires c' <= c && SameSolutions(n, c, c')
    ensures Preserves(n, c, c')
  {
  }

  /** A puzzle is loaded and any commands are given, some of which may raise the error. The board stays
      compatible with exactly the grids that agree with the givens; and as soon as every cell has one candidate
      and none is left undetermined, these form a valid grid, which is the only one that agrees. */
  method Session(n: nat, items: seq<nat>, commands: seq<Command>) returns (ok: bool, b: Board)
    requires n > 0 && |items| == Digits(n) * Digits(n) && (forall i :: 0 <= i < |items| ==> items[i] <= Digits(n))
    requires forall i :: 0 <= i < |commands| ==> CommandOk(n, commands[i])
    ensures b.n == n && Ok(n, b.cand, b.det)
    ensures ok ==> Exact(n, b.cand, items, |items|)
    ensures !ok ==> forall g: Grid :: IsGrid(n, g) ==> !Agrees(n, g, items, |items|)
    ensures ok && Settled(n, b.cand, b.det) && OneEach(n, b.cand) ==>
      && Clean(b.cand, b.det, {}) && UniqueGrid(n, ReadOff(n, b.cand), items)
  {
    ok, b := Load(n, items);
    if !ok { return; }
    var i := 0;
    while i < |commands|
      invariant 0 <= i <= |commands| && fresh(b) && b.n == n && Ok(n, b.cand, b.det)
      invariant Exact(n, b.cand, items, |items|) && Sane(n, b.cand, b.det)
    {
      ghost var c := b.cand;
      var res := Perform(b, commands[i]);
      ExactStays(n, c, b.cand, items);
      i := i + 1;
    }
    if Settled(n, b.cand, b.det) && OneEach(n, b.cand) { SaneSolved(n, b.cand, b.det, items); }
  }

  /** The grid is valid, agrees with the givens, and no other one does. */
  ghost predicate UniqueGrid(n: nat, r: Grid, items: seq<nat>)
    requires n > 0
  {
    && IsGrid(n, r) && Agrees(n, r, items, |items|)
    && forall g: Grid, p :: IsGrid(n, g) && Agrees(n, g, items, |items|) && OnBoard(n, p) ==> p in g && p in r && g[p] == r[p]
  }

  lemma ExactStays(n: nat, c: Cands, c': Cands, items: seq<nat>)
    requires n > 0 && Preserves(n, c, c') && Exact(n, c, items, |items|)
    ensures Exact(n, c', items, |items|)
  {
    PreservesSame(n, c, c');
  }

  lemma SaneSolved(n: nat, c: Cands, det: set<Pos>, items: seq<nat>)
    requires n > 0 && Ok(n, c, det) && Sane(n, c, det) && Settled(n, c, det) && OneEach(n, c) && Exact(n, c, items, |items|)
    ensures Clean(c, det, {}) && UniqueGrid(n, ReadOff(n, c), items)
  {
    forall q | OnBoard(n, q) ensures CellValues(c, q) != {} { assert |CellValues(c, q)| == 1; }
    SolvedGrid(n, c, det);
    var r := ReadOff(n, c);
    assert Solution(n, r, c);
    forall p | OnBoard(n, p) ensures p in r { ReadOffAt(n, c, p); }
  }
}
