/** Sudoku boards of side n (src/sudoku.lua works with n = 3): cells, houses and solutions. */
module SudokuGrid {
  import opened Basics

  /** A cell, as in board[r1][c1][r2][c2]: square (r1, c1), and in it row r2 and column c2. */
  datatype Pos = Pos(r1: nat, c1: nat, r2: nat, c2: nat)

  predicate Side(n: nat, i: nat) { 1 <= i <= n }

  predicate OnBoard(n: nat, p: Pos) { Side(n, p.r1) && Side(n, p.c1) && Side(n, p.r2) && Side(n, p.c2) }

  function Digits(n: nat): nat { n * n }

  predicate IsDigit(n: nat, d: int) { 1 <= d <= Digits(n) }

  /** A square, a row or a column. */
  datatype House = Square(a: nat, b: nat) | Row(a: nat, b: nat) | Column(a: nat, b: nat)

  predicate IsHouse(n: nat, h: House) { Side(n, h.a) && Side(n, h.b) }

  predicate InHouse(h: House, p: Pos) {
    match h
    case Square(r1, c1) => p.r1 == r1 && p.c1 == c1
    case Row(r1, r2) => p.r1 == r1 && p.r2 == r2
    case Column(c1, c2) => p.c1 == c1 && p.c2 == c2
  }

  /** The cells of a house in the order in which the two nested loops over it visit them. */
  function CellAt(n: nat, h: House, m: nat): Pos
    requires n > 0
  {
    var i, j := m / n + 1, m % n + 1;
    match h
    case Square(r1, c1) => Pos(r1, c1, i, j)
    case Row(r1, r2) => Pos(r1, i, r2, j)
    case Column(c1, c2) => Pos(i, c1, j, c2)
  }

  /** When the loops visit the cell. */
  function IndexIn(n: nat, h: House, p: Pos): int {
    match h
    case Square(_, _) => (p.r2 - 1) * n + p.c2 - 1
    case Row(_, _) => (p.c1 - 1) * n + p.c2 - 1
    case Column(_, _) => (p.r1 - 1) * n + p.r2 - 1
  }

  lemma DivMod(n: nat, i: nat, j: nat)
    requires n > 0 && j < n
    ensures (i * n + j) / n == i && (i * n + j) % n == j
  {
    var m := i * n + j;
    assert m == (m / n) * n + m % n;
    if m / n < i { MulLess(n, m / n, i); } else if m / n > i { MulLess(n, i, m / n); }
  }

  lemma MulLess(n: nat, a: nat, b: nat)
    requires a < b
    ensures a * n + n <= b * n
  {
    assert (a + 1) * n <= b * n by { if a + 1 < b { MulMono(n, a + 1, b); } }
  }

  lemma MulMono(n: nat, a: nat, b: nat)
    requires a <= b
    ensures a * n <= b * n
  {
  }

  lemma IndexCell(n: nat, h: House, p: Pos)
    requires n > 0 && OnBoard(n, p) && InHouse(h, p)
    ensures 0 <= IndexIn(n, h, p) < Digits(n) && CellAt(n, h, IndexIn(n, h, p)) == p
  {
    var i, j := if h.Square? then p.r2 else if h.Row? then p.c1 else p.r1, if h.Column? then p.r2 else p.c2;
    DivMod(n, i - 1, j - 1);
    MulLess(n, i - 1, n);
  }

  lemma CellIndex(n: nat, h: House, m: nat)
    requires n > 0 && IsHouse(n, h) && m < Digits(n)
    ensures var p := CellAt(n, h, m); OnBoard(n, p) && InHouse(h, p) && IndexIn(n, h, p) == m
  {
    assert m == (m / n) * n + m % n;
    if m / n >= n { MulMono(n, n, m / n); }
  }

  // ---------------------------------------------------------------- solutions

  predicate SameHouse(p: Pos, q: Pos) {
    (p.r1 == q.r1 && p.c1 == q.c1) || (p.r1 == q.r1 && p.r2 == q.r2) || (p.c1 == q.c1 && p.c2 == q.c2)
  }

  type Grid = map<Pos, int>

  /** A complete valid grid: every cell has a digit, and no two cells of a house have the same. */
  ghost predicate IsGrid(n: nat, g: Grid) {
    && (forall p :: OnBoard(n, p) ==> p in g && IsDigit(n, g[p]))
    && (forall p, q :: OnBoard(n, p) && OnBoard(n, q) && p != q && SameHouse(p, q) && p in g && q in g ==> g[p] != g[q])
  }

  /** The possible values of the cells. */
  type Cands = set<(Pos, int)>

  ghost predicate Compatible(n: nat, g: Grid, c: Cands) { forall p :: OnBoard(n, p) && p in g ==> (p, g[p]) in c }

  ghost predicate Solution(n: nat, g: Grid, c: Cands) { IsGrid(n, g) && Compatible(n, g, c) }

  /** The same complete valid grids are compatible with both. */
  ghost predicate SameSolutions(n: nat, c: Cands, c': Cands) { forall g: Grid :: Solution(n, g, c) <==> Solution(n, g, c') }

  lemma Shared(h: House, p: Pos, q: Pos)
    requires InHouse(h, p) && InHouse(h, q)
    ensures SameHouse(p, q)
  {
  }

  // ---------------------------------------------------------------- every digit has a place in every house

  ghost function Upto(k: nat): set<int> { if k == 0 then {} else Upto(k - 1) + {k} }

  lemma {:induction false} UptoSize(k: nat)
    ensures |Upto(k)| == k && forall x :: x in Upto(k) <==> 1 <= x <= k
  {
    if k > 0 { UptoSize(k - 1); }
  }

  ghost predicate NoRepeats(s: seq<int>) { forall i, j :: 0 <= i < j < |s| ==> s[i] != s[j] }

  ghost function Values(s: seq<int>): set<int> { set x | x in s }

  lemma {:induction false} ValuesSize(s: seq<int>)
    requires NoRepeats(s)
    ensures |Values(s)| == |s|
    decreases |s|
  {
    if s == [] {
      assert Values(s) == {};
    } else {
      var t, x := s[..|s| - 1], s[|s| - 1];
      ValuesSize(t);
      assert s == t + [x] && x !in t;
      assert Values(s) == Values(t) + {x};
    }
  }

  /** The values of a house, in the order of its cells. */
  ghost function HouseValues(n: nat, g: Grid, h: House): seq<int>
    requires n > 0
  {
    seq(Digits(n), m requires 0 <= m < Digits(n) => var p := CellAt(n, h, m); if p in g then g[p] else 0)
  }

  lemma PlaceFor(n: nat, g: Grid, h: House, d: int) returns (p: Pos)
    requires n > 0 && IsGrid(n, g) && IsHouse(n, h) && IsDigit(n, d)
    ensures OnBoard(n, p) && InHouse(h, p) && p in g && g[p] == d
  {
    var s := HouseValues(n, g, h);
    forall m | 0 <= m < Digits(n) ensures var q := CellAt(n, h, m); OnBoard(n, q) && InHouse(h, q) && q in g && s[m] == g[q] && IsDigit(n, s[m]) {
      CellIndex(n, h, m);
    }
    assert NoRepeats(s) by {
      forall i, j | 0 <= i < j < |s| ensures s[i] != s[j] {
        CellIndex(n, h, i);
        CellIndex(n, h, j);
        Shared(h, CellAt(n, h, i), CellAt(n, h, j));
      }
    }
    ValuesSize(s);
    UptoSize(Digits(n));
    SubsetSize(Values(s), Upto(Digits(n)));
    assert d in Values(s);
    var m :| 0 <= m < |s| && s[m] == d;
    p := CellAt(n, h, m);
  }

  /** In a house, the place of a digit is unique. */
  lemma OnePlaceFor(n: nat, g: Grid, h: House, p: Pos, q: Pos)
    requires IsGrid(n, g) && OnBoard(n, p) && OnBoard(n, q) && InHouse(h, p) && InHouse(h, q) && p in g && q in g && g[p] == g[q]
    ensures p == q
  {
    Shared(h, p, q);
  }
}
