/** Why the rules of src/sudoku.lua are sound: what they eliminate is in no solution. */
module SudokuSound {
  import opened Basics
  import opened SudokuGrid

  /** Cells of a house that a rule leaves alone. */
  datatype Skip = Only(p: Pos) | All(h: House)

  predicate Skips(s: Skip, p: Pos) {
    match s
    case Only(q) => p == q
    case All(h) => InHouse(h, p)
  }

  /** The candidates d in house h, except in the cells left alone. */
  ghost function Strike(c: Cands, h: House, d: int, s: Skip): Cands { set x | x in c && x.1 == d && InHouse(h, x.0) && !Skips(s, x.0) }

  /** If p has the digit d, no other cell of a house of p has it. */
  lemma PeerSound(n: nat, g: Grid, c: Cands, h: House, p: Pos, d: int)
    requires Solution(n, g, c) && OnBoard(n, p) && InHouse(h, p) && p in g && g[p] == d
    ensures Solution(n, g, c - Strike(c, h, d, Only(p)))
  {
    forall q | OnBoard(n, q) && q in g ensures (q, g[q]) in c - Strike(c, h, d, Only(p)) {
      if (q, g[q]) in Strike(c, h, d, Only(p)) { OnePlaceFor(n, g, h, p, q); }
    }
  }

  /** One row in square, one column in square, one square for row, one square for column: if d is in
      house a only where it meets house b, it is nowhere else in b. */
  lemma IntersectSound(n: nat, g: Grid, c: Cands, a: House, b: House, d: int)
    requires n > 0 && Solution(n, g, c) && IsHouse(n, a) && IsDigit(n, d) && Strike(c, a, d, All(b)) == {}
    ensures Solution(n, g, c - Strike(c, b, d, All(a)))
  {
    var p := PlaceFor(n, g, a, d);
    assert (p, d) in c;
    assert InHouse(b, p) by {
      assert !InHouse(b, p) ==> (p, d) in Strike(c, a, d, All(b));
    }
    forall q | OnBoard(n, q) && q in g ensures (q, g[q]) in c - Strike(c, b, d, All(a)) {
      if (q, g[q]) in Strike(c, b, d, All(a)) { OnePlaceFor(n, g, b, p, q); }
    }
  }

  // ---------------------------------------------------------------- subsets of any size

  /** The cells of a house that have a digit of D in the grid. */
  ghost function Places(n: nat, g: Grid, h: House, D: set<int>): set<Pos> {
    set p | p in g.Keys && OnBoard(n, p) && InHouse(h, p) && g[p] in D
  }

  lemma {:induction false} PlacesSize(n: nat, g: Grid, h: House, D: set<int>)
    requires n > 0 && IsGrid(n, g) && IsHouse(n, h) && forall d :: d in D ==> IsDigit(n, d)
    ensures |Places(n, g, h, D)| == |D|
    decreases |D|
  {
    if |D| == 0 {
      assert Places(n, g, h, D) == {};
    } else {
      var d := Any(D);
      var p := PlaceFor(n, g, h, d);
      PlacesSize(n, g, h, D - {d});
      forall q | q in Places(n, g, h, D) && g[q] == d ensures q == p { OnePlaceFor(n, g, h, p, q); }
      assert Places(n, g, h, D) == Places(n, g, h, D - {d}) + {p};
    }
  }

  lemma Any<T>(s: set<T>) returns (x: T)
    requires |s| > 0
    ensures x in s
  {
    x :| x in s;
  }

  /** Hidden subset: if the digits of D have as many places in a house as there are digits, those places
      have no other digits. */
  lemma HiddenSubset(n: nat, g: Grid, c: Cands, h: House, D: set<int>, P: set<Pos>)
    requires n > 0 && Solution(n, g, c) && IsHouse(n, h) && |P| == |D| && (forall d :: d in D ==> IsDigit(n, d))
    requires forall x :: x in c && InHouse(h, x.0) && x.1 in D ==> x.0 in P
    ensures forall p :: p in P ==> p in g && g[p] in D
  {
    PlacesSize(n, g, h, D);
    forall p | p in Places(n, g, h, D) ensures p in P { assert (p, g[p]) in c; }
    SubsetSize(Places(n, g, h, D), P);
  }

  /** Naked subset: if as many cells of a house as there are digits in D can have digits of D only, no other
      cell of the house has one. */
  lemma NakedSubset(n: nat, g: Grid, c: Cands, h: House, D: set<int>, P: set<Pos>)
    requires n > 0 && Solution(n, g, c) && IsHouse(n, h) && |P| == |D| && (forall d :: d in D ==> IsDigit(n, d))
    requires (forall p :: p in P ==> OnBoard(n, p) && InHouse(h, p)) && (forall x :: x in c && x.0 in P ==> x.1 in D)
    ensures forall q :: OnBoard(n, q) && InHouse(h, q) && q !in P && q in g ==> g[q] !in D
  {
    PlacesSize(n, g, h, D);
    forall p | p in P ensures p in Places(n, g, h, D) { assert (p, g[p]) in c; }
    SubsetSize(P, Places(n, g, h, D));
    forall q | OnBoard(n, q) && InHouse(h, q) && q !in P && q in g ensures g[q] !in D { assert q !in Places(n, g, h, D); }
  }

  // ---------------------------------------------------------------- pairs

  /** The cells of a house where d1 or d2 is possible. */
  ghost function PairPlaces(c: Cands, h: House, d1: int, d2: int): set<Pos> {
    set x | x in c && InHouse(h, x.0) && (x.1 == d1 || x.1 == d2) :: x.0
  }

  /** What two_places_for_pair eliminates. */
  ghost function HiddenStrike(c: Cands, h: House, d1: int, d2: int): Cands {
    if |PairPlaces(c, h, d1, d2)| == 2 then set x | x in c && x.0 in PairPlaces(c, h, d1, d2) && x.1 != d1 && x.1 != d2 else {}
  }

  lemma HiddenSound(n: nat, g: Grid, c: Cands, h: House, d1: int, d2: int)
    requires n > 0 && Solution(n, g, c) && IsHouse(n, h) && IsDigit(n, d1) && IsDigit(n, d2) && d1 != d2
    ensures Solution(n, g, c - HiddenStrike(c, h, d1, d2))
  {
    var P := PairPlaces(c, h, d1, d2);
    if |P| == 2 {
      assert |{d1, d2}| == 2;
      HiddenSubset(n, g, c, h, {d1, d2}, P);
    }
  }

  /** The cell can have d1 and d2, and nothing else (only_pair_present). */
  ghost predicate OnlyPair(n: nat, c: Cands, p: Pos, d1: int, d2: int) {
    d1 != d2 && forall i :: IsDigit(n, i) ==> ((p, i) in c <==> i == d1 || i == d2)
  }

  ghost function NakedPlaces(n: nat, c: Cands, h: House, d1: int, d2: int): set<Pos> {
    set p | p in PairPlaces(c, h, d1, d2) && OnlyPair(n, c, p, d1, d2)
  }

  /** What same_pair eliminates. */
  ghost function NakedStrike(n: nat, c: Cands, h: House, d1: int, d2: int): Cands {
    if |NakedPlaces(n, c, h, d1, d2)| == 2
    then set x | x in c && InHouse(h, x.0) && x.0 !in NakedPlaces(n, c, h, d1, d2) && (x.1 == d1 || x.1 == d2) else {}
  }

  /** Candidates are digits of cells of the board. */
  ghost predicate OnlyCells(n: nat, c: Cands) { forall x :: x in c ==> OnBoard(n, x.0) && IsDigit(n, x.1) }

  lemma NakedSound(n: nat, g: Grid, c: Cands, h: House, d1: int, d2: int)
    requires n > 0 && Solution(n, g, c) && OnlyCells(n, c) && IsHouse(n, h) && IsDigit(n, d1) && IsDigit(n, d2) && d1 != d2
    ensures Solution(n, g, c - NakedStrike(n, c, h, d1, d2))
  {
    var P := NakedPlaces(n, c, h, d1, d2);
    if |P| == 2 {
      assert |{d1, d2}| == 2;
      NakedSubset(n, g, c, h, {d1, d2}, P);
    }
  }

  // ---------------------------------------------------------------- one place, one candidate

  /** The cells of a house where d is possible. */
  ghost function PlacesOf(c: Cands, h: House, d: int): set<Pos> { set x | x in c && InHouse(h, x.0) && x.1 == d :: x.0 }

  lemma OnePlaceSound(n: nat, g: Grid, c: Cands, h: House, d: int, p: Pos)
    requires n > 0 && Solution(n, g, c) && IsHouse(n, h) && IsDigit(n, d) && |PlacesOf(c, h, d)| == 1 && p in PlacesOf(c, h, d)
    ensures p in g && g[p] == d
  {
    var q := PlaceFor(n, g, h, d);
    assert (q, d) in c;
    assert q in PlacesOf(c, h, d);
    SubsetSize({p}, PlacesOf(c, h, d));
  }

  ghost function CellValues(c: Cands, p: Pos): set<int> { set x | x in c && x.0 == p :: x.1 }

  lemma SingletonSound(n: nat, g: Grid, c: Cands, p: Pos)
    requires Solution(n, g, c) && OnBoard(n, p) && |CellValues(c, p)| <= 1
    ensures p in g && g[p] in CellValues(c, p) && forall d :: d in CellValues(c, p) ==> g[p] == d
  {
    assert (p, g[p]) in c;
    assert g[p] in CellValues(c, p);
    SubsetSize({g[p]}, CellValues(c, p));
  }
}
