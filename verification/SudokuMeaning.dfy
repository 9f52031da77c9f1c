/** What the four coordinates of src/sudoku.lua mean on the whole board, whose rows and columns are numbered from 0
    here: squares, rows, columns and valid grids in plain terms. */
module SudokuMeaning {
  import opened SudokuGrid
  import opened SudokuSolve

  /** The cell in a row and a column of the board. */
  function Cell(n: nat, row: nat, col: nat): Pos
    requires n > 0
  {
    Pos(row / n + 1, col / n + 1, row % n + 1, col % n + 1)
  }

  /** In one row, in one column or in one square. */
  predicate Related(n: nat, r: nat, c: nat, r': nat, c': nat)
    requires n > 0
  {
    r == r' || c == c' || (r / n == r' / n && c / n == c' / n)
  }

  lemma SameLine(n: nat, i: nat, j: nat)
    requires n > 0
    ensures i == j <==> i / n == j / n && i % n == j % n
  {
    assert i == (i / n) * n + i % n && j == (j / n) * n + j % n;
  }

  lemma CellRelated(n: nat, r: nat, c: nat, r': nat, c': nat)
    requires n > 0
    ensures SameHouse(Cell(n, r, c), Cell(n, r', c')) <==> Related(n, r, c, r', c')
    ensures Cell(n, r, c) == Cell(n, r', c') <==> r == r' && c == c'
  {
    SameLine(n, r, r');
    SameLine(n, c, c');
  }

  lemma Quotient(n: nat, i: nat)
    requires n > 0
    ensures i < n * n <==> i / n < n
  {
    assert i == (i / n) * n + i % n;
    if i / n < n { MulLess(n, i / n, n); } else { MulMono(n, n, i / n); }
  }

  lemma Combined(n: nat, a: nat, b: nat)
    requires n > 0 && a < n && b < n
    ensures a * n + b < n * n && (a * n + b) / n == a && (a * n + b) % n == b
  {
    DivMod(n, a, b);
    MulLess(n, a, n);
  }

  /** Every cell is in one row and one column. */
  lemma CellOnto(n: nat, p: Pos) returns (row: nat, col: nat)
    requires n > 0 && OnBoard(n, p)
    ensures row < n * n && col < n * n && Cell(n, row, col) == p
  {
    var a, b, c, d := p.r1 - 1, p.r2 - 1, p.c1 - 1, p.c2 - 1;
    Combined(n, a, b);
    Combined(n, c, d);
    row, col := a * n + b, c * n + d;
  }

  lemma CellThere(n: nat, row: nat, col: nat)
    requires n > 0 && row < n * n && col < n * n
    ensures OnBoard(n, Cell(n, row, col))
  {
    Quotient(n, row);
    Quotient(n, col);
  }

  ghost predicate HasDigit(n: nat, g: Grid, row: nat, col: nat)
    requires n > 0
  {
    Cell(n, row, col) in g && 1 <= g[Cell(n, row, col)] <= n * n
  }

  ghost predicate Differ(n: nat, g: Grid, r: nat, c: nat, r': nat, c': nat)
    requires n > 0
  {
    var p, q := Cell(n, r, c), Cell(n, r', c'); p in g && q in g ==> g[p] != g[q]
  }

  /** Every cell has a digit, and no row, column or square has a digit twice. */
  ghost predicate Valid(n: nat, g: Grid)
    requires n > 0
  {
    && (forall r: nat, c: nat :: r < n * n && c < n * n ==> HasDigit(n, g, r, c))
    && forall r: nat, c: nat, r': nat, c': nat :: r < n * n && c < n * n && r' < n * n && c' < n * n && (r != r' || c != c') && Related(n, r, c, r', c') ==>
         Differ(n, g, r, c, r', c')
  }

  lemma GridMeaning(n: nat, g: Grid)
    requires n > 0
    ensures IsGrid(n, g) <==> Valid(n, g)
  {
    if IsGrid(n, g) { GridValid(n, g); }
    if Valid(n, g) { ValidGrid(n, g); }
  }

  lemma GridValid(n: nat, g: Grid)
    requires n > 0 && IsGrid(n, g)
    ensures Valid(n, g)
  {
    forall r: nat, c: nat | r < n * n && c < n * n ensures HasDigit(n, g, r, c) { CellThere(n, r, c); }
    forall r: nat, c: nat, r': nat, c': nat | r < n * n && c < n * n && r' < n * n && c' < n * n && (r != r' || c != c') && Related(n, r, c, r', c')
      ensures Differ(n, g, r, c, r', c')
    {
      CellThere(n, r, c);
      CellThere(n, r', c');
      CellRelated(n, r, c, r', c');
    }
  }

  lemma ValidGrid(n: nat, g: Grid)
    requires n > 0 && Valid(n, g)
    ensures IsGrid(n, g)
  {
    forall p | OnBoard(n, p) ensures p in g && IsDigit(n, g[p]) {
      var r, c := CellOnto(n, p);
      assert HasDigit(n, g, r, c);
    }
    forall p, q | OnBoard(n, p) && OnBoard(n, q) && p != q && SameHouse(p, q) && p in g && q in g ensures g[p] != g[q] {
      var r, c := CellOnto(n, p);
      var r', c' := CellOnto(n, q);
      CellRelated(n, r, c, r', c');
      assert Differ(n, g, r, c, r', c');
    }
  }

  lemma SpreadAt(n: nat, i: nat)
    requires n > 0 && i < n * n
    ensures Spread(n, i + 1) == (true, i / n + 1, i % n + 1) && i / n < n
  {
    Quotient(n, i);
    assert i == (i / n) * n + i % n;
    SpreadOnto(n, i / n + 1, i % n + 1);
  }

  /** The houses that the commands name by row and column numbers, which count from 1. */
  lemma RowMeaning(n: nat, row: nat, r: nat, c: nat)
    requires n > 0 && row < n * n
    ensures IsHouse(n, RowOf(n, row + 1)) && (InHouse(RowOf(n, row + 1), Cell(n, r, c)) <==> r == row)
  {
    SpreadAt(n, row);
    SameLine(n, r, row);
  }

  lemma ColumnMeaning(n: nat, col: nat, r: nat, c: nat)
    requires n > 0 && col < n * n
    ensures IsHouse(n, ColumnOf(n, col + 1)) && (InHouse(ColumnOf(n, col + 1), Cell(n, r, c)) <==> c == col)
  {
    SpreadAt(n, col);
    SameLine(n, c, col);
  }

  lemma SquareMeaning(n: nat, row: nat, col: nat, r: nat, c: nat)
    requires n > 0 && row < n * n && col < n * n
    ensures IsHouse(n, SquareOf(n, row + 1, col + 1))
    ensures InHouse(SquareOf(n, row + 1, col + 1), Cell(n, r, c)) <==> r / n == row / n && c / n == col / n
  {
    SpreadAt(n, row);
    SpreadAt(n, col);
  }
}
