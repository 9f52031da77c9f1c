/** The drivers (src/sudoku.lua): simp, all and solve apply the rules until none eliminates anything, and
    board reads a puzzle. */
module SudokuSolve {
  import opened Basics
  import opened SudokuGrid
  import opened SudokuSound
  import opened SudokuBoard
  import opened SudokuRules

  // ---------------------------------------------------------------- indices

  /** spread: a row or column number as a pair of coordinates; `false` is the error "Bad index number". */
  function Spread(n: nat, index: int): (r: (bool, nat, nat))
    requires n > 0
    ensures r.0 <==> 1 <= index <= n * n
    ensures r.0 ==> Side(n, r.1) && Side(n, r.2) && index == (r.1 - 1) * n + r.2
  {
    if index < 1 || index > n * n then (false, 0, 0)
    else
      CeilDiv(n, index);
      (true, (index + n - 1) / n, (index - 1) % n + 1)
  }

  lemma CeilDiv(n: nat, index: nat)
    requires n > 0 && 1 <= index <= n * n
    ensures (index + n - 1) / n == (index - 1) / n + 1 <= n && index == ((index - 1) / n) * n + (index - 1) % n + 1
  {
    var q, r := (index - 1) / n, (index - 1) % n;
    assert index - 1 == q * n + r;
    assert index + n - 1 == (q + 1) * n + r;
    DivMod(n, q + 1, r);
    if q >= n { MulMono(n, n, q); }
  }

  /** Every pair of coordinates is reached. */
  lemma SpreadOnto(n: nat, a: nat, b: nat)
    requires n > 0 && Side(n, a) && Side(n, b)
    ensures var i := (a - 1) * n + b; 1 <= i <= n * n && Spread(n, i) == (true, a, b)
  {
    var i := (a - 1) * n + b;
    MulLess(n, a - 1, n);
    DivMod(n, a - 1, b - 1);
    CeilDiv(n, i);
  }

  function RowOf(n: nat, row: int): House
    requires n > 0
  {
    var r := Spread(n, row); Row(r.1, r.2)
  }

  function ColumnOf(n: nat, col: int): House
    requires n > 0
  {
    var c := Spread(n, col); Column(c.1, c.2)
  }

  function SquareOf(n: nat, row: int, col: int): House
    requires n > 0
  {
    Square(Spread(n, row).1, Spread(n, col).1)
  }

  // ---------------------------------------------------------------- simp

  /** No undetermined cell has fewer than two candidates. */
  ghost predicate Settled(n: nat, c: Cands, det: set<Pos>) { forall p :: OnBoard(n, p) ==> p in det || |CellValues(c, p)| >= 2 }

  ghost predicate AllPlacesFixed(n: nat, c: Cands, det: set<Pos>) { forall h, d :: IsHouse(n, h) && IsDigit(n, d) ==> OnePlaceFixed(c, det, h, d) }

  lemma FixedMore(c: Cands, det: set<Pos>, det': set<Pos>, h: House, d: int)
    requires OnePlaceFixed(c, det, h, d) && det <= det'
    ensures OnePlaceFixed(c, det', h, d)
  {
  }

  /** The state between two rules. */
  ghost predicate Between(b: Board, c: Cands, det: set<Pos>, e: bool)
    reads b
  {
    && Ok(b.n, b.cand, b.det) && b.cand <= c && det <= b.det && StaysClean(c, det, b.cand, b.det, {}) && (e <==> b.cand != c)
    && Preserves(b.n, c, b.cand)
  }

  /** One pass of propagate_all_singletons over the cells, row by row. */
  method PropagatePass(b: Board) returns (res: Result)
    requires Ok(b.n, b.cand, b.det)
    modifies b
    ensures Progress(b.n, old(b.cand), old(b.det), b.cand, b.det, {}, res) && Preserves(b.n, old(b.cand), b.cand)
    ensures res == Done(false) ==> Settled(b.n, b.cand, b.det)
  {
    ghost var c0, d0 := b.cand, b.det;
    var f := false;
    var row := 1;
    while row <= b.n * b.n
      invariant 1 <= row <= b.n * b.n + 1 && Between(b, c0, d0, f)
      invariant !f ==> forall p :: OnBoard(b.n, p) && RowNumber(b.n, p) < row ==> p in b.det || |CellValues(b.cand, p)| >= 2
    {
      ghost var c1 := b.cand;
      res := PropagateRow(b, row);
      PreservesTrans(b.n, c0, c1, b.cand);
      if res.Inconsistent? { return; }
      f := res.e || f;
      row := row + 1;
    }
    forall p | OnBoard(b.n, p) ensures RowNumber(b.n, p) < row { SpreadOnto(b.n, p.r1, p.r2); }
    res := Done(f);
  }

  function RowNumber(n: nat, p: Pos): int { (p.r1 - 1) * n + p.r2 }

  method PropagateRow(b: Board, row: nat) returns (res: Result)
    requires Ok(b.n, b.cand, b.det) && 1 <= row <= b.n * b.n
    modifies b
    ensures Progress(b.n, old(b.cand), old(b.det), b.cand, b.det, {}, res) && Preserves(b.n, old(b.cand), b.cand)
    ensures res == Done(false) ==> forall p :: OnBoard(b.n, p) && RowNumber(b.n, p) == row ==> p in b.det || |CellValues(b.cand, p)| >= 2
  {
    ghost var c0, d0 := b.cand, b.det;
    var h := RowOf(b.n, row);
    var f := false;
    var i := 0;
    while i < b.n * b.n
      invariant 0 <= i <= Digits(b.n) && Between(b, c0, d0, f)
      invariant !f ==> forall p :: OnBoard(b.n, p) && InHouse(h, p) && IndexIn(b.n, h, p) < i ==> p in b.det || |CellValues(b.cand, p)| >= 2
    {
      var q := CellAt(b.n, h, i);
      CellIndex(b.n, h, i);
      ghost var c1 := b.cand;
      res := b.PropagateElimination(q, {});
      PreservesTrans(b.n, c0, c1, b.cand);
      if res.Inconsistent? { return; }
      f := res.e || f;
      forall p | OnBoard(b.n, p) && InHouse(h, p) && IndexIn(b.n, h, p) == i ensures p == q { IndexCell(b.n, h, p); }
      i := i + 1;
    }
    forall p | OnBoard(b.n, p) && RowNumber(b.n, p) == row ensures InHouse(h, p) && IndexIn(b.n, h, p) < i {
      SpreadOnto(b.n, p.r1, p.r2);
      IndexCell(b.n, h, p);
    }
    res := Done(f);
  }

  /** propagate_all_singletons */
  method PropagateAllSingletons(b: Board) returns (res: Result)
    requires Ok(b.n, b.cand, b.det)
    modifies b
    ensures Progress(b.n, old(b.cand), old(b.det), b.cand, b.det, {}, res) && Preserves(b.n, old(b.cand), b.cand)
    ensures res.Done? ==> Settled(b.n, b.cand, b.det)
  {
    ghost var c0, d0 := b.cand, b.det;
    var e := false;
    while true
      invariant Between(b, c0, d0, e)
      decreases |b.cand|
    {
      ghost var c1 := b.cand;
      res := PropagatePass(b);
      PreservesTrans(b.n, c0, c1, b.cand);
      if res.Inconsistent? { return; }
      if !res.e { return Done(e); }
      SubsetSize(b.cand, c1);
      e := true;
    }
  }

  datatype HouseKind = Squares | Rows | Columns

  function HouseAt(n: nat, kind: HouseKind, index: int): House
    requires n > 0
  {
    var s := Spread(n, index);
    match kind
    case Squares => Square(s.1, s.2)
    case Rows => Row(s.1, s.2)
    case Columns => Column(s.1, s.2)
  }

  predicate OfKind(kind: HouseKind, h: House) {
    match kind
    case Squares => h.Square?
    case Rows => h.Row?
    case Columns => h.Column?
  }

  lemma HouseAtOnto(n: nat, kind: HouseKind, h: House)
    requires n > 0 && IsHouse(n, h) && OfKind(kind, h)
    ensures var i := (h.a - 1) * n + h.b; 1 <= i <= n * n && HouseAt(n, kind, i) == h
  {
    SpreadOnto(n, h.a, h.b);
  }

  /** The one-place rule for one digit in all squares, all rows or all columns. */
  method OnePlaceForDigit(b: Board, kind: HouseKind, d: int) returns (res: Result)
    requires Ok(b.n, b.cand, b.det) && IsDigit(b.n, d)
    modifies b
    ensures Progress(b.n, old(b.cand), old(b.det), b.cand, b.det, {}, res) && Preserves(b.n, old(b.cand), b.cand)
    ensures res == Done(false) ==> forall h :: IsHouse(b.n, h) && OfKind(kind, h) ==> OnePlaceFixed(b.cand, b.det, h, d)
  {
    ghost var c0, d0 := b.cand, b.det;
    var e := false;
    var i := 1;
    while i <= b.n * b.n
      invariant 1 <= i <= b.n * b.n + 1 && Between(b, c0, d0, e)
      invariant !e ==> forall j :: 1 <= j < i ==> OnePlaceFixed(b.cand, b.det, HouseAt(b.n, kind, j), d)
    {
      ghost var c1, d1 := b.cand, b.det;
      res := OnePlace(b, HouseAt(b.n, kind, i), d);
      PreservesTrans(b.n, c0, c1, b.cand);
      if res.Inconsistent? { return; }
      e := res.e || e;
      if !e {
        forall j | 1 <= j < i ensures OnePlaceFixed(b.cand, b.det, HouseAt(b.n, kind, j), d) { FixedMore(c1, d1, b.det, HouseAt(b.n, kind, j), d); }
      }
      i := i + 1;
    }
    if !e {
      forall h | IsHouse(b.n, h) && OfKind(kind, h) ensures OnePlaceFixed(b.cand, b.det, h, d) { HouseAtOnto(b.n, kind, h); }
    }
    res := Done(e);
  }

  ghost predicate KindFixed(n: nat, c: Cands, det: set<Pos>, kind: HouseKind, lim: int) {
    forall h, d :: IsHouse(n, h) && OfKind(kind, h) && 1 <= d < lim ==> OnePlaceFixed(c, det, h, d)
  }

  lemma KindMore(n: nat, c: Cands, det: set<Pos>, det': set<Pos>, kind: HouseKind, lim: int)
    requires KindFixed(n, c, det, kind, lim) && det <= det'
    ensures KindFixed(n, c, det', kind, lim)
  {
    forall h, d | IsHouse(n, h) && OfKind(kind, h) && 1 <= d < lim ensures OnePlaceFixed(c, det', h, d) { FixedMore(c, det, det', h, d); }
  }

  /** one_place_in_all_squares, one_place_in_all_rows, one_place_in_all_columns */
  method OnePlaceInAll(b: Board, kind: HouseKind) returns (res: Result)
    requires Ok(b.n, b.cand, b.det)
    modifies b
    ensures Progress(b.n, old(b.cand), old(b.det), b.cand, b.det, {}, res) && Preserves(b.n, old(b.cand), b.cand)
    ensures res == Done(false) ==> KindFixed(b.n, b.cand, b.det, kind, b.n * b.n + 1)
  {
    ghost var c0, d0 := b.cand, b.det;
    var e := false;
    var d := 1;
    while d <= b.n * b.n
      invariant 1 <= d <= b.n * b.n + 1 && Between(b, c0, d0, e)
      invariant !e ==> KindFixed(b.n, b.cand, b.det, kind, d)
    {
      ghost var c1, d1 := b.cand, b.det;
      res := OnePlaceForDigit(b, kind, d);
      PreservesTrans(b.n, c0, c1, b.cand);
      if res.Inconsistent? { return; }
      e := res.e || e;
      if !e { KindMore(b.n, c1, d1, b.det, kind, d); }
      d := d + 1;
    }
    res := Done(e);
  }

  /** One round of simp: the first rule that eliminates something ends it. */
  method SimpRound(b: Board) returns (res: Result)
    requires Ok(b.n, b.cand, b.det)
    modifies b
    ensures Progress(b.n, old(b.cand), old(b.det), b.cand, b.det, {}, res) && Preserves(b.n, old(b.cand), b.cand)
    ensures res == Done(false) ==> Settled(b.n, b.cand, b.det) && AllPlacesFixed(b.n, b.cand, b.det)
  {
    res := PropagateAllSingletons(b);
    if res.Inconsistent? || res.e { return; }
    ghost var c := b.cand;
    res := OnePlaceInAll(b, Squares);
    if res.Inconsistent? || res.e { return; }
    ghost var d1 := b.det;
    res := OnePlaceInAll(b, Rows);
    if res.Inconsistent? || res.e { return; }
    ghost var d2 := b.det;
    KindMore(b.n, c, d1, d2, Squares, b.n * b.n + 1);
    res := OnePlaceInAll(b, Columns);
    if res.Inconsistent? || res.e { return; }
    KindMore(b.n, c, d2, b.det, Squares, b.n * b.n + 1);
    KindMore(b.n, c, d2, b.det, Rows, b.n * b.n + 1);
    KindsAll(b.n, c, b.det);
  }

  lemma KindsAll(n: nat, c: Cands, det: set<Pos>)
    requires KindFixed(n, c, det, Squares, n * n + 1) && KindFixed(n, c, det, Rows, n * n + 1) && KindFixed(n, c, det, Columns, n * n + 1)
    ensures AllPlacesFixed(n, c, det)
  {
    forall h, d | IsHouse(n, h) && IsDigit(n, d) ensures OnePlaceFixed(c, det, h, d) {
      assert OfKind(Squares, h) || OfKind(Rows, h) || OfKind(Columns, h);
    }
  }

  /** Board:simp */
  method Simp(b: Board) returns (res: Result)
    requires Ok(b.n, b.cand, b.det)
    modifies b
    ensures Progress(b.n, old(b.cand), old(b.det), b.cand, b.det, {}, res) && Preserves(b.n, old(b.cand), b.cand)
    ensures res.Done? ==> Settled(b.n, b.cand, b.det) && AllPlacesFixed(b.n, b.cand, b.det)
  {
    ghost var c0, d0 := b.cand, b.det;
    var e := false;
    while true
      invariant Between(b, c0, d0, e)
      decreases |b.cand|
    {
      ghost var c1 := b.cand;
      res := SimpRound(b);
      PreservesTrans(b.n, c0, c1, b.cand);
      if res.Inconsistent? { return; }
      e := e || res.e;
      if !res.e { return Done(e); }
      SubsetSize(b.cand, c1);
    }
  }

  // ---------------------------------------------------------------- all and solve

  /** The four intersection rules with these arguments eliminate nothing. */
  ghost predicate MeetFixed(n: nat, c: Cands, d: int, row: int, col: int)
    requires n > 0
  {
    && MeetStrike(c, SquareOf(n, row, col), RowOf(n, row), d) == {} && MeetStrike(c, SquareOf(n, row, col), ColumnOf(n, col), d) == {}
    && MeetStrike(c, RowOf(n, row), SquareOf(n, row, col), d) == {} && MeetStrike(c, ColumnOf(n, col), SquareOf(n, row, col), d) == {}
  }

  lemma NoStrike(c: Cands, e: Cands)
    requires e <= c && c - e == c
    ensures e == {}
  {
    assert e == c - (c - e);
  }

  /** The four intersection rules for a digit, a row and a column; the first that eliminates something ends it. */
  method MeetRules(b: Board, d: int, row: int, col: int) returns (res: Result)
    requires Ok(b.n, b.cand, b.det) && IsDigit(b.n, d) && IsDigit(b.n, row) && IsDigit(b.n, col)
    modifies b`cand
    ensures res.Done? && Shrinks(b.n, old(b.cand), b.cand, res.e)
    ensures res == Done(false) ==> MeetFixed(b.n, b.cand, d, row, col)
  {
    var sq, rw, cl := SquareOf(b.n, row, col), RowOf(b.n, row), ColumnOf(b.n, col);
    ghost var c := b.cand;
    res := Intersect(b, sq, rw, d);
    if res.e { return; }
    NoStrike(c, MeetStrike(c, sq, rw, d));
    res := Intersect(b, sq, cl, d);
    if res.e { return; }
    NoStrike(c, MeetStrike(c, sq, cl, d));
    res := Intersect(b, rw, sq, d);
    if res.e { return; }
    NoStrike(c, MeetStrike(c, rw, sq, d));
    res := Intersect(b, cl, sq, d);
    if res.e { return; }
    NoStrike(c, MeetStrike(c, cl, sq, d));
  }

  /** The loops of Board:all over the intersection rules. */
  method AllMeets(b: Board) returns (res: Result)
    requires Ok(b.n, b.cand, b.det)
    modifies b`cand
    ensures res.Done? && Shrinks(b.n, old(b.cand), b.cand, res.e)
    ensures res == Done(false) ==> forall d, row, col :: IsDigit(b.n, d) && IsDigit(b.n, row) && IsDigit(b.n, col) ==> MeetFixed(b.n, b.cand, d, row, col)
  {
    ghost var c := b.cand;
    var d := 1;
    while d <= b.n * b.n
      invariant 1 <= d <= b.n * b.n + 1 && b.cand == c
      invariant forall d', row, col :: 1 <= d' < d && IsDigit(b.n, row) && IsDigit(b.n, col) ==> MeetFixed(b.n, c, d', row, col)
    {
      var row := 1;
      while row <= b.n * b.n
        invariant 1 <= row <= b.n * b.n + 1 && b.cand == c
        invariant forall r, col :: 1 <= r < row && IsDigit(b.n, col) ==> MeetFixed(b.n, c, d, r, col)
      {
        var col := 1;
        while col <= b.n * b.n
          invariant 1 <= col <= b.n * b.n + 1 && b.cand == c
          invariant forall k :: 1 <= k < col ==> MeetFixed(b.n, c, d, row, k)
        {
          res := MeetRules(b, d, row, col);
          if res.e { return; }
          col := col + 1;
        }
        row := row + 1;
      }
      d := d + 1;
    }
    res := Done(false);
  }

  ghost predicate PairFixed(n: nat, c: Cands, h: House, d1: int, d2: int) { HiddenStrike(c, h, d1, d2) == {} && NakedStrike(n, c, h, d1, d2) == {} }

  /** The two pair rules for a house; the first that eliminates something ends it. */
  method PairRules(b: Board, h: House, d1: int, d2: int) returns (res: Result)
    requires Ok(b.n, b.cand, b.det) && IsHouse(b.n, h) && IsDigit(b.n, d1) && IsDigit(b.n, d2) && d1 != d2
    modifies b`cand
    ensures res.Done? && Shrinks(b.n, old(b.cand), b.cand, res.e)
    ensures res == Done(false) ==> PairFixed(b.n, b.cand, h, d1, d2)
  {
    ghost var c := b.cand;
    res := TwoPlaces(b, h, d1, d2);
    if res.e { return; }
    NoStrike(c, HiddenStrike(c, h, d1, d2));
    res := SamePair(b, h, d1, d2);
    if res.e { return; }
    NoStrike(c, NakedStrike(b.n, c, h, d1, d2));
  }

  /** The loops of Board:all for one pair of digits: columns, then rows and the squares of each row. */
  method PairLoops(b: Board, d1: int, d2: int) returns (res: Result)
    requires Ok(b.n, b.cand, b.det) && IsDigit(b.n, d1) && IsDigit(b.n, d2) && d1 != d2
    modifies b`cand
    ensures res.Done? && Shrinks(b.n, old(b.cand), b.cand, res.e)
    ensures res == Done(false) ==> forall h :: IsHouse(b.n, h) ==> PairFixed(b.n, b.cand, h, d1, d2)
  {
    res := PairColumns(b, d1, d2);
    if res.e { return; }
    res := PairRows(b, d1, d2);
    if res.e { return; }
    PairHouses(b.n, b.cand, d1, d2);
  }

  method PairRows(b: Board, d1: int, d2: int) returns (res: Result)
    requires Ok(b.n, b.cand, b.det) && IsDigit(b.n, d1) && IsDigit(b.n, d2) && d1 != d2
    modifies b`cand
    ensures res.Done? && Shrinks(b.n, old(b.cand), b.cand, res.e)
    ensures res == Done(false) ==> forall k :: IsDigit(b.n, k) ==> RowFixed(b.n, b.cand, k, d1, d2)
  {
    ghost var c := b.cand;
    var digits := b.n * b.n;
    var row := 1;
    while row <= digits
      invariant 1 <= row <= digits + 1 && b.cand == c
      invariant forall k :: 1 <= k < row ==> RowFixed(b.n, c, k, d1, d2)
    {
      res := PairRow(b, row, d1, d2);
      if res.e { return; }
      row := row + 1;
    }
    res := Done(false);
  }

  method PairColumns(b: Board, d1: int, d2: int) returns (res: Result)
    requires Ok(b.n, b.cand, b.det) && IsDigit(b.n, d1) && IsDigit(b.n, d2) && d1 != d2
    modifies b`cand
    ensures res.Done? && Shrinks(b.n, old(b.cand), b.cand, res.e)
    ensures res == Done(false) ==> forall k :: IsDigit(b.n, k) ==> PairFixed(b.n, b.cand, ColumnOf(b.n, k), d1, d2)
  {
    ghost var c := b.cand;
    var col := 1;
    while col <= b.n * b.n
      invariant 1 <= col <= b.n * b.n + 1 && b.cand == c
      invariant forall k :: 1 <= k < col ==> PairFixed(b.n, c, ColumnOf(b.n, k), d1, d2)
    {
      res := PairRules(b, ColumnOf(b.n, col), d1, d2);
      if res.e { return; }
      col := col + 1;
    }
    res := Done(false);
  }

  /** Neither in the row nor in the squares it meets do the pair rules eliminate anything. */
  ghost predicate RowFixed(n: nat, c: Cands, row: int, d1: int, d2: int)
    requires n > 0
  {
    PairFixed(n, c, RowOf(n, row), d1, d2) && forall j :: IsDigit(n, j) ==> PairFixed(n, c, SquareOf(n, row, j), d1, d2)
  }

  method PairRow(b: Board, row: int, d1: int, d2: int) returns (res: Result)
    requires Ok(b.n, b.cand, b.det) && IsDigit(b.n, d1) && IsDigit(b.n, d2) && d1 != d2 && IsDigit(b.n, row)
    modifies b`cand
    ensures res.Done? && Shrinks(b.n, old(b.cand), b.cand, res.e)
    ensures res == Done(false) ==> RowFixed(b.n, b.cand, row, d1, d2)
  {
    ghost var c := b.cand;
    res := PairRules(b, RowOf(b.n, row), d1, d2);
    if res.e { return; }
    var col := 1;
    while col <= b.n * b.n
      invariant 1 <= col <= b.n * b.n + 1 && b.cand == c
      invariant forall j :: 1 <= j < col ==> PairFixed(b.n, c, SquareOf(b.n, row, j), d1, d2)
    {
      res := PairRules(b, SquareOf(b.n, row, col), d1, d2);
      if res.e { return; }
      col := col + 1;
    }
    res := Done(false);
  }

  lemma PairHouses(n: nat, c: Cands, d1: int, d2: int)
    requires n > 0
    requires (forall k :: IsDigit(n, k) ==> PairFixed(n, c, ColumnOf(n, k), d1, d2)) && (forall k :: IsDigit(n, k) ==> RowFixed(n, c, k, d1, d2))
    ensures forall h :: IsHouse(n, h) ==> PairFixed(n, c, h, d1, d2)
  {
    forall h | IsHouse(n, h) ensures PairFixed(n, c, h, d1, d2) { PairHouse(n, c, h, d1, d2); }
  }

  lemma PairHouse(n: nat, c: Cands, h: House, d1: int, d2: int)
    requires n > 0 && IsHouse(n, h)
    requires (forall k :: IsDigit(n, k) ==> PairFixed(n, c, ColumnOf(n, k), d1, d2)) && (forall k :: IsDigit(n, k) ==> RowFixed(n, c, k, d1, d2))
    ensures PairFixed(n, c, h, d1, d2)
  {
    match h
    case Column(x, y) => SpreadOnto(n, x, y); assert ColumnOf(n, (x - 1) * n + y) == h;
    case Row(x, y) => SpreadOnto(n, x, y); assert RowFixed(n, c, (x - 1) * n + y, d1, d2);
    case Square(x, y) =>
      SpreadOnto(n, x, 1);
      SpreadOnto(n, y, 1);
      assert RowFixed(n, c, (x - 1) * n + 1, d1, d2) && SquareOf(n, (x - 1) * n + 1, (y - 1) * n + 1) == h;
  }

  /** The loops of Board:all over pairs of digits. */
  method AllPairs(b: Board) returns (res: Result)
    requires Ok(b.n, b.cand, b.det)
    modifies b`cand
    ensures res.Done? && Shrinks(b.n, old(b.cand), b.cand, res.e)
    ensures res == Done(false) ==> forall h, d1, d2 :: IsHouse(b.n, h) && IsDigit(b.n, d1) && IsDigit(b.n, d2) && d1 != d2 ==> PairFixed(b.n, b.cand, h, d1, d2)
  {
    ghost var c := b.cand;
    var d1 := 1;
    while d1 <= b.n * b.n
      invariant 1 <= d1 <= b.n * b.n + 1 && b.cand == c
      invariant forall h, x, y :: IsHouse(b.n, h) && 1 <= x < d1 && IsDigit(b.n, y) && x != y ==> PairFixed(b.n, c, h, x, y)
    {
      var d2 := 1;
      while d2 <= b.n * b.n
        invariant 1 <= d2 <= b.n * b.n + 1 && b.cand == c
        invariant forall h, y :: IsHouse(b.n, h) && 1 <= y < d2 && d1 != y ==> PairFixed(b.n, c, h, d1, y)
      {
        if d1 != d2 {
          res := PairLoops(b, d1, d2);
          if res.e { return; }
        }
        d2 := d2 + 1;
      }
      d1 := d1 + 1;
    }
    res := Done(false);
  }

  /** No rule with any arguments can eliminate anything. */
  ghost predicate Fixpoint(n: nat, c: Cands, det: set<Pos>)
    requires n > 0
  {
    && Settled(n, c, det) && AllPlacesFixed(n, c, det)
    && (forall d, row, col :: IsDigit(n, d) && IsDigit(n, row) && IsDigit(n, col) ==> MeetFixed(n, c, d, row, col))
    && (forall h, d1, d2 :: IsHouse(n, h) && IsDigit(n, d1) && IsDigit(n, d2) && d1 != d2 ==> PairFixed(n, c, h, d1, d2))
  }

  /** Board:all */
  method AllRules(b: Board) returns (res: Result)
    requires Ok(b.n, b.cand, b.det)
    modifies b
    ensures Progress(b.n, old(b.cand), old(b.det), b.cand, b.det, {}, res) && Preserves(b.n, old(b.cand), b.cand)
    ensures res == Done(false) ==> Fixpoint(b.n, b.cand, b.det)
  {
    res := Simp(b);
    if res.Inconsistent? || res.e { return; }
    ghost var c := b.cand;
    res := AllMeets(b);
    CleanLess(c, b.det, b.cand, {});
    if res.e { return; }
    res := AllPairs(b);
    CleanLess(c, b.det, b.cand, {});
  }

  /** cmds.solve: on every board it ends, with the same solutions as at the start; if it ends normally, no
      rule can eliminate anything more. */
  method Solve(b: Board) returns (res: Result)
    requires Ok(b.n, b.cand, b.det)
    modifies b
    ensures Progress(b.n, old(b.cand), old(b.det), b.cand, b.det, {}, res) && SameSolutions(b.n, old(b.cand), b.cand)
    ensures res.Done? ==> Fixpoint(b.n, b.cand, b.det)
  {
    ghost var c0, d0 := b.cand, b.det;
    var e := false;
    while true
      invariant Between(b, c0, d0, e)
      decreases |b.cand|
    {
      ghost var c1 := b.cand;
      res := AllRules(b);
      PreservesTrans(b.n, c0, c1, b.cand);
      PreservesSame(b.n, c0, b.cand);
      if res.Inconsistent? { return; }
      e := e || res.e;
      if !res.e { return Done(e); }
      SubsetSize(b.cand, c1);
    }
  }
}
