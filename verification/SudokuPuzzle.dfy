/** Reading a puzzle and solving it (src/sudoku.lua, board and cmds.solve). */
module SudokuPuzzle {
  import opened Basics
  import opened SudokuGrid
  import opened SudokuSound
  import opened SudokuBoard
  import opened SudokuSolve

  // ---------------------------------------------------------------- givens

  /** Where the cell's item is in a puzzle: row by row from the top, and in each row from left to right. */
  function ItemIndex(n: nat, p: Pos): int { ((p.r1 - 1) * n + p.r2 - 1) * (n * n) + (p.c1 - 1) * n + p.c2 - 1 }

  function ItemAt(items: seq<nat>, i: int): nat { if 0 <= i < |items| then items[i] else 0 }

  /** The grid has the digits that the first k items give; 0 stands for no digit. */
  ghost predicate Agrees(n: nat, g: Grid, items: seq<nat>, k: nat) {
    forall p :: OnBoard(n, p) && ItemIndex(n, p) < k && ItemAt(items, ItemIndex(n, p)) != 0 ==> p in g && g[p] == ItemAt(items, ItemIndex(n, p))
  }

  lemma MulSucc(a: int, m: int)
    ensures a * m + m == (a + 1) * m
  {
  }

  lemma RowInside(n: nat, a: nat, b: nat)
    requires 1 <= a <= n && 1 <= b <= n
    ensures 0 <= (a - 1) * n + b - 1 < n * n
  {
    MulLess(n, a - 1, n);
  }

  /** Every cell has an item of its own. */
  lemma ItemInside(n: nat, p: Pos)
    requires OnBoard(n, p)
    ensures 0 <= ItemIndex(n, p) < Digits(n) * Digits(n)
  {
    var row, col, m := (p.r1 - 1) * n + p.r2 - 1, (p.c1 - 1) * n + p.c2 - 1, n * n;
    RowInside(n, p.r1, p.r2);
    RowInside(n, p.c1, p.c2);
    MulLess(m, row, m);
  }

  lemma SameParts(m: nat, a: nat, b: nat, c: nat, d: nat)
    requires b < m && d < m && a * m + b == c * m + d
    ensures a == c && b == d
  {
    DivMod(m, a, b);
    DivMod(m, c, d);
  }

  lemma ItemUnique(n: nat, p: Pos, q: Pos)
    requires OnBoard(n, p) && OnBoard(n, q) && ItemIndex(n, p) == ItemIndex(n, q)
    ensures p == q
  {
    RowInside(n, p.r1, p.r2); RowInside(n, p.c1, p.c2);
    RowInside(n, q.r1, q.r2); RowInside(n, q.c1, q.c2);
    SameParts(n * n, (p.r1 - 1) * n + p.r2 - 1, (p.c1 - 1) * n + p.c2 - 1, (q.r1 - 1) * n + q.r2 - 1, (q.c1 - 1) * n + q.c2 - 1);
    SameParts(n, p.r1 - 1, p.r2 - 1, q.r1 - 1, q.r2 - 1);
    SameParts(n, p.c1 - 1, p.c2 - 1, q.c1 - 1, q.c2 - 1);
  }

  /** The candidates are compatible with exactly the valid grids that agree with the givens. */
  ghost predicate Exact(n: nat, c: Cands, items: seq<nat>, k: nat) {
    forall g: Grid :: Solution(n, g, c) <==> IsGrid(n, g) && Agrees(n, g, items, k)
  }

  /** Agreeing with one more item. */
  lemma AgreesStep(n: nat, g: Grid, items: seq<nat>, p: Pos, k: nat)
    requires OnBoard(n, p) && ItemIndex(n, p) == k < |items|
    ensures Agrees(n, g, items, k + 1) <==> Agrees(n, g, items, k) && (items[k] != 0 ==> p in g && g[p] == items[k])
  {
    forall q | OnBoard(n, q) && ItemIndex(n, q) == k ensures q == p { ItemUnique(n, q, p); }
    if Agrees(n, g, items, k + 1) { assert ItemAt(items, ItemIndex(n, p)) == items[k]; }
  }

  lemma GivenStep(n: nat, c: Cands, c2: Cands, items: seq<nat>, p: Pos, k: nat)
    requires n > 0 && OnBoard(n, p) && ItemIndex(n, p) == k < |items| && Exact(n, c, items, k) && items[k] != 0
    requires var d := items[k]; var c1 := c - Others(c, p, d); c2 == c1 || NarrowTo(n, c1, c2, p, d)
    ensures Exact(n, c2, items, k + 1)
  {
    var d := items[k];
    var c1 := c - Others(c, p, d);
    SingletonKeeps(n, c, p, d);
    forall g: Grid ensures Solution(n, g, c2) <==> IsGrid(n, g) && Agrees(n, g, items, k + 1) {
      AgreesStep(n, g, items, p, k);
      if Solution(n, g, c2) {
        Fewer(n, g, c, c2);
        assert (p, g[p]) in c1;
      }
      if IsGrid(n, g) && Agrees(n, g, items, k + 1) {
        assert Solution(n, g, c) && g[p] == d;
      }
    }
  }

  lemma NoGivenStep(n: nat, c: Cands, items: seq<nat>, p: Pos, k: nat)
    requires OnBoard(n, p) && ItemIndex(n, p) == k < |items| && Exact(n, c, items, k) && items[k] == 0
    ensures Exact(n, c, items, k + 1)
  {
    forall g: Grid ensures Solution(n, g, c) <==> IsGrid(n, g) && Agrees(n, g, items, k + 1) { AgreesStep(n, g, items, p, k); }
  }

  lemma StartExact(n: nat, c: Cands, items: seq<nat>)
    requires n > 0 && forall p, d :: OnBoard(n, p) && IsDigit(n, d) ==> (p, d) in c
    ensures Exact(n, c, items, 0)
  {
    forall g: Grid ensures Agrees(n, g, items, 0) {
      forall p | OnBoard(n, p) ensures ItemIndex(n, p) >= 0 { ItemInside(n, p); }
    }
  }

  /** More givens only rule out more grids. */
  lemma AgreesLess(n: nat, g: Grid, items: seq<nat>, k: nat, m: nat)
    requires Agrees(n, g, items, m) && k <= m
    ensures Agrees(n, g, items, k)
  {
  }

  /** No valid grid agrees with the givens. */
  ghost predicate Hopeless(n: nat, items: seq<nat>) { forall g: Grid :: IsGrid(n, g) ==> !Agrees(n, g, items, |items|) }

  /** Where the items of a row begin. */
  function RowStart(n: nat, r1: nat, r2: nat): int { ((r1 - 1) * n + r2 - 1) * (n * n) }

  lemma RowStarts(n: nat, r1: nat, r2: nat)
    ensures RowStart(n, r1, r2) + n * n == RowStart(n, r1, r2 + 1) && RowStart(n, r1, n + 1) == RowStart(n, r1 + 1, 1)
    ensures RowStart(n, 1, 1) == 0 && RowStart(n, n + 1, 1) == Digits(n) * Digits(n)
  {
    MulSucc((r1 - 1) * n + r2 - 1, n * n);
    MulSucc(r1 - 1, n);
  }

  /** A cell's place in its row. */
  function InRow(n: nat, c1: nat, c2: nat): int { (c1 - 1) * n + c2 - 1 }

  lemma InRows(n: nat, c1: nat)
    ensures InRow(n, c1, n + 1) == InRow(n, c1 + 1, 1) && InRow(n, 1, 1) == 0 && InRow(n, n + 1, 1) == n * n
  {
    MulSucc(c1 - 1, n);
  }

  /** The first i items are entered. */
  ghost predicate Entered(b: Board, items: seq<nat>, i: int)
    reads b
  {
    Ok(b.n, b.cand, b.det) && Clean(b.cand, b.det, {}) && |items| == Digits(b.n) * Digits(b.n) && i >= 0 && Exact(b.n, b.cand, items, i)
  }

  /** board: all items are entered and propagated. `ok` is false if the board turns out inconsistent, and
      then no valid grid agrees with the givens. */
  method Load(n: nat, items: seq<nat>) returns (ok: bool, b: Board)
    requires n > 0 && |items| == Digits(n) * Digits(n) && forall i :: 0 <= i < |items| ==> items[i] <= Digits(n)
    ensures fresh(b) && b.n == n && Ok(n, b.cand, b.det)
    ensures ok ==> Clean(b.cand, b.det, {}) && Exact(n, b.cand, items, |items|)
    ensures !ok ==> forall g: Grid :: IsGrid(n, g) ==> !Agrees(n, g, items, |items|)
  {
    b := new Board(n);
    StartExact(n, b.cand, items);
    RowStarts(n, 1, 1);
    var i, r1 := 0, 1;
    while r1 <= n
      invariant 1 <= r1 <= n + 1 && fresh(b) && b.n == n && i == RowStart(n, r1, 1) && Entered(b, items, i)
    {
      var r2 := 1;
      while r2 <= n
        invariant 1 <= r2 <= n + 1 && fresh(b) && b.n == n && i == RowStart(n, r1, r2) && Entered(b, items, i)
      {
        ok, i := LoadRow(b, items, r1, r2, i);
        if !ok { return; }
        RowStarts(n, r1, r2);
        r2 := r2 + 1;
      }
      RowStarts(n, r1, 1);
      r1 := r1 + 1;
    }
    RowStarts(n, 1, 1);
    ok := true;
  }

  /** The items of one row of the board. */
  method LoadRow(b: Board, items: seq<nat>, r1: nat, r2: nat, i0: nat) returns (ok: bool, i: nat)
    requires Side(b.n, r1) && Side(b.n, r2) && i0 == RowStart(b.n, r1, r2) && Entered(b, items, i0)
    modifies b
    ensures Ok(b.n, b.cand, b.det)
    ensures ok ==> i == i0 + b.n * b.n && Entered(b, items, i)
    ensures !ok ==> Hopeless(b.n, items)
  {
    i := i0;
    var c1 := 1;
    InRows(b.n, 1);
    while c1 <= b.n
      invariant 1 <= c1 <= b.n + 1 && i == i0 + InRow(b.n, c1, 1) && Entered(b, items, i)
    {
      var c2 := 1;
      while c2 <= b.n
        invariant 1 <= c2 <= b.n + 1 && i == i0 + InRow(b.n, c1, c2) && Entered(b, items, i)
      {
        ok := Enter(b, items, Pos(r1, c1, r2, c2), i);
        if !ok { return; }
        i, c2 := i + 1, c2 + 1;
      }
      InRows(b.n, c1);
      c1 := c1 + 1;
    }
    InRows(b.n, 1);
    ok := true;
  }

  /** One item of the puzzle: the cell becomes a singleton and is determined. */
  method Enter(b: Board, items: seq<nat>, p: Pos, i: nat) returns (ok: bool)
    requires OnBoard(b.n, p) && i == ItemIndex(b.n, p) && Entered(b, items, i)
    modifies b
    ensures Ok(b.n, b.cand, b.det)
    ensures ok ==> Entered(b, items, i + 1)
    ensures !ok ==> Hopeless(b.n, items)
  {
    ItemInside(b.n, p);
    var d := items[i];
    if d == 0 {
      NoGivenStep(b.n, b.cand, items, p, i);
      return true;
    }
    ghost var c := b.cand;
    var e := b.Singleton(p, d);
    CleanLess(c, b.det, b.cand, {});
    var res := b.Determine(p, d, {});
    GivenStep(b.n, c, b.cand, items, p, i);
    ok := res.Done?;
    if !ok {
      forall g: Grid | IsGrid(b.n, g) ensures !Agrees(b.n, g, items, |items|) {
        assert !Solution(b.n, g, b.cand);
        if Agrees(b.n, g, items, |items|) { AgreesLess(b.n, g, items, i + 1, |items|); }
      }
    }
  }

  // ---------------------------------------------------------------- a solved board

  ghost predicate OneEach(n: nat, c: Cands) { forall p :: OnBoard(n, p) ==> |CellValues(c, p)| == 1 }

  ghost function TheOne<T>(s: set<T>): (x: T)
    requires |s| == 1
    ensures x in s && s == {x}
  {
    var x :| x in s;
    SubsetSize({x}, s);
    x
  }

  ghost function ReadOff(n: nat, c: Cands): Grid
    requires OneEach(n, c)
  {
    map p | p in AllCells(n) :: TheOne(CellValues(c, p))
  }

  lemma ReadOffAt(n: nat, c: Cands, p: Pos)
    requires OneEach(n, c) && OnBoard(n, p)
    ensures p in ReadOff(n, c) && (p, ReadOff(n, c)[p]) in c && forall d :: (p, d) in c ==> d == ReadOff(n, c)[p]
  {
    assert p in AllCells(n);
    var x := TheOne(CellValues(c, p));
    forall d | (p, d) in c ensures d == x { assert d in CellValues(c, p); }
  }

  /** If every cell has one candidate and is determined, the grid is valid exactly if the board is clean,
      and there is no other solution. */
  lemma SolvedGrid(n: nat, c: Cands, det: set<Pos>)
    requires Ok(n, c, det) && Settled(n, c, det) && OneEach(n, c)
    ensures Solution(n, ReadOff(n, c), c) <==> Clean(c, det, {})
    ensures forall g: Grid, p :: Solution(n, g, c) && OnBoard(n, p) ==> p in g && g[p] == ReadOff(n, c)[p]
  {
    var r := ReadOff(n, c);
    forall p | OnBoard(n, p) ensures p in r && (p, r[p]) in c && IsDigit(n, r[p]) && p in det { ReadOffAt(n, c, p); }
    forall p, q | Clean(c, det, {}) && OnBoard(n, p) && OnBoard(n, q) && p != q && SameHouse(p, q) && p in r && q in r ensures r[p] != r[q] {
      assert (p, r[p]) in c && (q, r[q]) in c;
    }
    forall x, y | Solution(n, r, c) && x in c && y in c && x.1 == y.1 && x.0 != y.0 ensures !SameHouse(x.0, y.0) {
      ReadOffAt(n, c, x.0); ReadOffAt(n, c, y.0);
    }
    forall g: Grid, p | Solution(n, g, c) && OnBoard(n, p) ensures p in g && g[p] == r[p] { ReadOffAt(n, c, p); assert (p, g[p]) in c; }
  }

  datatype Verdict = NoGrid | Solved | Open

  /** Loading and solving: "inconsistent" means that no valid grid agrees with the givens; if every cell ends
      up with one candidate, they form a valid grid, which is the only one that agrees with the givens; in
      any case the candidates are compatible with exactly the grids that agree with the givens. */
  method LoadAndSolve(n: nat, items: seq<nat>) returns (v: Verdict, b: Board)
    requires n > 0 && |items| == Digits(n) * Digits(n) && forall i :: 0 <= i < |items| ==> items[i] <= Digits(n)
    ensures b.n == n
    ensures v == NoGrid ==> forall g: Grid :: IsGrid(n, g) ==> !Agrees(n, g, items, |items|)
    ensures v != NoGrid ==> Exact(n, b.cand, items, |items|) && Fixpoint(n, b.cand, b.det)
    ensures v == Solved <==> v != NoGrid && OneEach(n, b.cand)
    ensures v == Solved ==> var r := ReadOff(n, b.cand);
      && IsGrid(n, r) && Agrees(n, r, items, |items|)
      && forall g: Grid, p :: IsGrid(n, g) && Agrees(n, g, items, |items|) && OnBoard(n, p) ==> p in g && g[p] == r[p]
  {
    var ok;
    ok, b := Load(n, items);
    if !ok { return NoGrid, b; }
    ghost var c := b.cand;
    var res := Solve(b);
    assert Exact(n, b.cand, items, |items|);
    if res.Inconsistent? {
      forall g: Grid | IsGrid(n, g) ensures !Agrees(n, g, items, |items|) { assert !Solution(n, g, b.cand); }
      return NoGrid, b;
    }
    var one := AllOne(b);
    if one {
      SolvedGrid(n, b.cand, b.det);
      assert Solution(n, ReadOff(n, b.cand), b.cand);
      return Solved, b;
    }
    v := Verdict.Open;
  }

  /** Whether every cell has exactly one candidate. */
  method AllOne(b: Board) returns (one: bool)
    requires Ok(b.n, b.cand, b.det)
    ensures one <==> OneEach(b.n, b.cand)
  {
    var row := 1;
    while row <= b.n * b.n
      invariant 1 <= row <= b.n * b.n + 1
      invariant forall p :: OnBoard(b.n, p) && RowNumber(b.n, p) < row ==> |CellValues(b.cand, p)| == 1
    {
      var h := RowOf(b.n, row);
      var i := 0;
      while i < b.n * b.n
        invariant 0 <= i <= Digits(b.n)
        invariant forall p :: OnBoard(b.n, p) && InHouse(h, p) && IndexIn(b.n, h, p) < i ==> |CellValues(b.cand, p)| == 1
      {
        var q := CellAt(b.n, h, i);
        CellIndex(b.n, h, i);
        var u := b.Unknowns(q);
        if u != 1 { return false; }
        forall p | OnBoard(b.n, p) && InHouse(h, p) && IndexIn(b.n, h, p) == i ensures p == q { IndexCell(b.n, h, p); }
        i := i + 1;
      }
      forall p | OnBoard(b.n, p) && RowNumber(b.n, p) == row ensures InHouse(h, p) && IndexIn(b.n, h, p) < i {
        SpreadOnto(b.n, p.r1, p.r2);
        IndexCell(b.n, h, p);
      }
      row := row + 1;
    }
    forall p | OnBoard(b.n, p) ensures RowNumber(b.n, p) < row { SpreadOnto(b.n, p.r1, p.r2); }
    return true;
  }

  // ---------------------------------------------------------------- puzzles as text

  /** strip_string keeps dots and the digits 1 to 9. */
  predicate Item(c: char) { c == '.' || '1' <= c <= '9' }

  function Strip(s: string): string { if s == [] then [] else if Item(s[0]) then [s[0]] + Strip(s[1..]) else Strip(s[1..]) }

  function Translate(c: char): nat { if '1' <= c <= '9' then c as nat - '0' as nat else 0 }

  lemma {:induction false} StripItems(s: string)
    ensures forall i :: 0 <= i < |Strip(s)| ==> Item(Strip(s)[i])
  {
    if s != [] { StripItems(s[1..]); }
  }

  /** Stripping works on each character by itself: dots and digits stay, in their order, and all else goes. */
  lemma {:induction false} StripEach(s: string, c: char, t: string)
    ensures Strip([]) == []
    ensures Strip(s + [c] + t) == Strip(s) + (if c in ".123456789" then [c] else []) + Strip(t)
    decreases |s|
  {
    var all := s + [c] + t;
    if s == [] {
      assert all[1..] == t;
    } else {
      assert all[0] == s[0] && all[1..] == s[1..] + [c] + t;
      StripEach(s[1..], c, t);
    }
  }

  /** The grid has the digits of the text, which gives the nine rows from the top, each from left to right. */
  ghost predicate FromText(g: Grid, t: string)
    requires |t| == 81
  {
    forall r1, r2, c1, c2 :: 1 <= r1 <= 3 && 1 <= r2 <= 3 && 1 <= c1 <= 3 && 1 <= c2 <= 3 ==>
      GivenBy(g, Pos(r1, c1, r2, c2), t[((r1 - 1) * 3 + r2 - 1) * 9 + (c1 - 1) * 3 + c2 - 1])
  }

  /** A digit is the cell's value, and a dot says nothing. */
  ghost predicate GivenBy(g: Grid, p: Pos, c: char) { '1' <= c <= '9' ==> p in g && g[p] == c as int - '0' as int }

  lemma TextAgrees(g: Grid, t: string, items: seq<nat>)
    requires |t| == |items| == 81 && forall i :: 0 <= i < 81 ==> items[i] == Translate(t[i])
    ensures Agrees(3, g, items, 81) <==> FromText(g, t)
  {
    forall r1, r2, c1, c2 | 1 <= r1 <= 3 && 1 <= r2 <= 3 && 1 <= c1 <= 3 && 1 <= c2 <= 3
      ensures var p, i := Pos(r1, c1, r2, c2), ((r1 - 1) * 3 + r2 - 1) * 9 + (c1 - 1) * 3 + c2 - 1;
        && OnBoard(3, p) && ItemIndex(3, p) == i && 0 <= i < 81
        && (GivenBy(g, p, t[i]) <==> (ItemAt(items, i) != 0 ==> p in g && g[p] == ItemAt(items, i)))
    {
      assert OnBoard(3, Pos(r1, c1, r2, c2));
    }
    if FromText(g, t) {
      forall p | OnBoard(3, p) && ItemAt(items, ItemIndex(3, p)) != 0 ensures p in g && g[p] == ItemAt(items, ItemIndex(3, p)) {
        assert p == Pos(p.r1, p.c1, p.r2, p.c2);
        assert GivenBy(g, Pos(p.r1, p.c1, p.r2, p.c2), t[((p.r1 - 1) * 3 + p.r2 - 1) * 9 + (p.c1 - 1) * 3 + p.c2 - 1]);
      }
    }
  }

  /** board on a text, for boards of side 3, and solve; `ok` is false if there are not 81 items. */
  method ReadAndSolve(s: string) returns (ok: bool, v: Verdict, b: Board)
    ensures ok <==> |Strip(s)| == 81
    ensures ok && v == NoGrid ==> forall g: Grid :: IsGrid(3, g) ==> !FromText(g, Strip(s))
    ensures ok && v == Solved ==> OneEach(3, b.cand) && var r := ReadOff(3, b.cand);
      && IsGrid(3, r) && FromText(r, Strip(s))
      && forall g: Grid, p :: IsGrid(3, g) && FromText(g, Strip(s)) && OnBoard(3, p) ==> p in g && g[p] == r[p]
    ensures ok && v == Verdict.Open ==> forall g: Grid :: Solution(3, g, b.cand) <==> IsGrid(3, g) && FromText(g, Strip(s))
  {
    var t := Strip(s);
    StripItems(s);
    if |t| != 81 {
      b := new Board(3);
      return false, NoGrid, b;
    }
    var items := seq(81, i requires 0 <= i < 81 => Translate(t[i]));
    v, b := LoadAndSolve(3, items);
    ok := true;
    forall g: Grid ensures Agrees(3, g, items, 81) <==> FromText(g, t) { TextAgrees(g, t, items); }
  }
}
