/** The elimination rules (src/sudoku.lua). The source writes each rule out for squares, rows and columns;
    here the house is a parameter. */
module SudokuRules {
  import opened Basics
  import opened SudokuGrid
  import opened SudokuSound
  import opened SudokuBoard

  // ---------------------------------------------------------------- one place

  /** Where d has only one place in a house, that cell is determined. */
  ghost predicate OnePlaceFixed(c: Cands, det: set<Pos>, h: House, d: int) {
    |PlacesOf(c, h, d)| == 1 ==> forall p :: p in PlacesOf(c, h, d) ==> p in det
  }

  lemma PlacesOfIn(n: nat, c: Cands, h: House, d: int)
    requires OnlyCells(n, c)
    ensures forall p :: p in PlacesOf(c, h, d) <==> (p, d) in c && InHouse(h, p)
    ensures forall p :: p in PlacesOf(c, h, d) ==> OnBoard(n, p) && InHouse(h, p)
  {
    forall p ensures p in PlacesOf(c, h, d) <==> (p, d) in c && InHouse(h, p) {
      if (p, d) in c && InHouse(h, p) { var x := (p, d); assert x in c && x.0 == p; }
    }
  }

  /** The counting loop of the one-place rules. */
  method CountPlaces(b: Board, h: House, d: int) returns (m: nat)
    requires Ok(b.n, b.cand, b.det) && IsHouse(b.n, h)
    ensures m == |PlacesOf(b.cand, h, d)|
  {
    ghost var s := PlacesOf(b.cand, h, d);
    PlacesOfIn(b.n, b.cand, h, d);
    m := 0;
    var i := 0;
    while i < b.n * b.n
      invariant 0 <= i <= Digits(b.n) && m == |Seen(b.n, h, s, i)|
    {
      var q := CellAt(b.n, h, i);
      CellIndex(b.n, h, i);
      SeenNew(b.n, h, s, i);
      if (q, d) in b.cand { m := m + 1; }
      i := i + 1;
    }
    SeenAll(b.n, h, s);
  }

  /** one_place_in_square, one_place_in_row, one_place_in_column */
  method OnePlace(b: Board, h: House, d: int) returns (res: Result)
    requires Ok(b.n, b.cand, b.det) && IsHouse(b.n, h) && IsDigit(b.n, d)
    modifies b
    ensures Progress(b.n, old(b.cand), old(b.det), b.cand, b.det, {}, res) && Preserves(b.n, old(b.cand), b.cand)
    ensures res == Done(false) ==> OnePlaceFixed(b.cand, b.det, h, d)
    ensures if |PlacesOf(old(b.cand), h, d)| == 1 then PlacesOf(old(b.cand), h, d) <= b.det else res == Done(false) && unchanged(b)
  {
    var m := CountPlaces(b, h, d);
    if m != 1 { return Done(false); }
    ghost var c := b.cand;
    PlacesOfIn(b.n, c, h, d);
    ghost var p := Any(PlacesOf(c, h, d));
    SubsetSize({p}, PlacesOf(c, h, d));
    IndexCell(b.n, h, p);
    var e := false;
    var i := 0;
    while i < b.n * b.n
      invariant 0 <= i <= Digits(b.n)
      invariant if i <= IndexIn(b.n, h, p) then !e && b.cand == c && b.det == old(b.det)
        else p in b.det && Preserves(b.n, c, b.cand) && (e <==> b.cand != c)
      invariant Ok(b.n, b.cand, b.det) && b.cand <= c && old(b.det) <= b.det && StaysClean(c, old(b.det), b.cand, b.det, {})
    {
      var q := CellAt(b.n, h, i);
      CellIndex(b.n, h, i);
      if (q, d) in b.cand {
        assert q in PlacesOf(c, h, d);
        res := DetermineOnly(b, h, d, q);
        if res.Inconsistent? { return; }
        e := res.e || e;
      }
      i := i + 1;
    }
    res := Done(e);
  }

  /** Determining the only place for a digit in a house loses no solution. */
  method DetermineOnly(b: Board, h: House, d: int, p: Pos) returns (res: Result)
    requires Ok(b.n, b.cand, b.det) && IsHouse(b.n, h) && IsDigit(b.n, d) && OnBoard(b.n, p)
    requires |PlacesOf(b.cand, h, d)| == 1 && p in PlacesOf(b.cand, h, d)
    modifies b
    ensures Progress(b.n, old(b.cand), old(b.det), b.cand, b.det, {}, res) && Preserves(b.n, old(b.cand), b.cand) && p in b.det
  {
    ghost var c := b.cand;
    PlacesOfIn(b.n, c, h, d);
    res := b.Determine(p, d, {});
    forall g: Grid | Solution(b.n, g, c) ensures Solution(b.n, g, b.cand) { OnePlaceSound(b.n, g, c, h, d, p); }
  }

  /** Candidates are eliminated (if `e` says so), but no solution. */
  ghost predicate Shrinks(n: nat, c: Cands, c': Cands, e: bool) { Preserves(n, c, c') && (e <==> c' != c) }

  // ---------------------------------------------------------------- intersections

  /** What the rule eliminates: if d is in house a only where it meets b, it is struck from the rest of b. */
  ghost function MeetStrike(c: Cands, a: House, b: House, d: int): Cands {
    if Strike(c, a, d, All(b)) == {} then Strike(c, b, d, All(a)) else {}
  }

  /** one_row_in_square, one_column_in_square, one_square_for_row, one_square_for_column */
  method Intersect(b: Board, h1: House, h2: House, d: int) returns (res: Result)
    requires Ok(b.n, b.cand, b.det) && IsHouse(b.n, h1) && IsHouse(b.n, h2) && IsDigit(b.n, d)
    modifies b`cand
    ensures res.Done? && Shrinks(b.n, old(b.cand), b.cand, res.e)
    ensures b.cand == old(b.cand) - MeetStrike(old(b.cand), h1, h2, d)
  {
    ghost var c := b.cand;
    var yes := Confined(b, h1, h2, d);
    if !yes { return Done(false); }
    var e, m := b.StrikeHouse(h2, d, All(h1));
    forall g: Grid | Solution(b.n, g, c) ensures Solution(b.n, g, b.cand) { IntersectSound(b.n, g, c, h1, h2, d); }
    res := Done(e);
  }

  /** The first loop of these rules: d is possible in h1 only where it meets h2. */
  method Confined(b: Board, h1: House, h2: House, d: int) returns (yes: bool)
    requires Ok(b.n, b.cand, b.det) && IsHouse(b.n, h1)
    ensures yes <==> Strike(b.cand, h1, d, All(h2)) == {}
  {
    ghost var s := set x | x in Strike(b.cand, h1, d, All(h2)) :: x.0;
    assert forall p :: p in s <==> (p, d) in Strike(b.cand, h1, d, All(h2));
    var i := 0;
    while i < b.n * b.n
      invariant 0 <= i <= Digits(b.n) && Seen(b.n, h1, s, i) == {}
    {
      var q := CellAt(b.n, h1, i);
      CellIndex(b.n, h1, i);
      if !InHouse(h2, q) && (q, d) in b.cand {
        assert (q, d) in Strike(b.cand, h1, d, All(h2));
        return false;
      }
      i := i + 1;
    }
    SeenAll(b.n, h1, s);
    assert forall x :: x in Strike(b.cand, h1, d, All(h2)) ==> x.0 in s;
    return true;
  }

  // ---------------------------------------------------------------- hidden pairs

  lemma PairPlacesIn(n: nat, c: Cands, h: House, d1: int, d2: int)
    requires OnlyCells(n, c)
    ensures forall p :: p in PairPlaces(c, h, d1, d2) <==> InHouse(h, p) && ((p, d1) in c || (p, d2) in c)
    ensures forall p :: p in PairPlaces(c, h, d1, d2) ==> OnBoard(n, p) && InHouse(h, p)
  {
    forall p ensures p in PairPlaces(c, h, d1, d2) <==> InHouse(h, p) && ((p, d1) in c || (p, d2) in c) {
      if InHouse(h, p) && (p, d1) in c { var x := (p, d1); assert x in c && x.0 == p && x.1 == d1; }
      if InHouse(h, p) && (p, d2) in c { var x := (p, d2); assert x in c && x.0 == p && x.1 == d2; }
    }
  }

  method CountPair(b: Board, h: House, d1: int, d2: int) returns (m: nat)
    requires Ok(b.n, b.cand, b.det) && IsHouse(b.n, h)
    ensures m == |PairPlaces(b.cand, h, d1, d2)|
  {
    ghost var s := PairPlaces(b.cand, h, d1, d2);
    PairPlacesIn(b.n, b.cand, h, d1, d2);
    m := 0;
    var i := 0;
    while i < b.n * b.n
      invariant 0 <= i <= Digits(b.n) && m == |Seen(b.n, h, s, i)|
    {
      var q := CellAt(b.n, h, i);
      CellIndex(b.n, h, i);
      SeenNew(b.n, h, s, i);
      if (q, d1) in b.cand || (q, d2) in b.cand { m := m + 1; }
      i := i + 1;
    }
    SeenAll(b.n, h, s);
  }

  /** The other candidates of a cell. */
  ghost function Rest(c: Cands, p: Pos, d1: int, d2: int): Cands { set x | x in c && x.0 == p && x.1 != d1 && x.1 != d2 }

  /** The innermost loop of two_places_for_pair. */
  method KeepOnly(b: Board, p: Pos, d1: int, d2: int) returns (e: bool)
    requires OnlyCells(b.n, b.cand)
    modifies b`cand
    ensures b.cand == old(b.cand) - Rest(old(b.cand), p, d1, d2) && (e <==> b.cand != old(b.cand))
  {
    e := false;
    var d := 1;
    while d <= b.n * b.n
      invariant 1 <= d
      invariant b.cand == old(b.cand) - set x | x in old(b.cand) && x.0 == p && x.1 != d1 && x.1 != d2 && x.1 < d
      invariant e <==> b.cand != old(b.cand)
      decreases b.n * b.n + 1 - d
    {
      if d != d1 && d != d2 && (p, d) in b.cand {
        b.cand := b.cand - {(p, d)};
        e := true;
      }
      d := d + 1;
    }
  }

  lemma HiddenOf(n: nat, c: Cands, c': Cands, h: House, d1: int, d2: int, q: Pos)
    requires OnlyCells(n, c) && |PairPlaces(c, h, d1, d2)| == 2 && InHouse(h, q) && c' <= c && forall d :: (q, d) in c' <==> (q, d) in c
    ensures if (q, d1) in c' || (q, d2) in c' then c' - Rest(c', q, d1, d2) == c' - Of(HiddenStrike(c, h, d1, d2), q)
      else c' == c' - Of(HiddenStrike(c, h, d1, d2), q)
  {
    PairPlacesIn(n, c, h, d1, d2);
    var E := HiddenStrike(c, h, d1, d2);
    forall x ensures x in Of(E, q) <==> x in c && x.0 == q && q in PairPlaces(c, h, d1, d2) && x.1 != d1 && x.1 != d2 { }
    forall x | x in c && x.0 == q ensures x in c' { assert x == (q, x.1); }
  }

  /** two_places_for_pair_in_square, two_places_for_pair_in_row, two_places_for_pair_in_column */
  method TwoPlaces(b: Board, h: House, d1: int, d2: int) returns (res: Result)
    requires Ok(b.n, b.cand, b.det) && IsHouse(b.n, h) && IsDigit(b.n, d1) && IsDigit(b.n, d2)
    modifies b`cand
    ensures res.Done? && Shrinks(b.n, old(b.cand), b.cand, res.e)
    ensures b.cand == old(b.cand) - if d1 == d2 then {} else HiddenStrike(old(b.cand), h, d1, d2)
  {
    if d1 == d2 { return Done(false); }
    ghost var c, E := b.cand, HiddenStrike(b.cand, h, d1, d2);
    var m := CountPair(b, h, d1, d2);
    if m != 2 { return Done(false); }
    var e := false;
    var i := 0;
    while i < b.n * b.n
      invariant 0 <= i <= Digits(b.n) && b.cand == Swept(b.n, c, E, h, i) && (e <==> b.cand != c)
    {
      var q := CellAt(b.n, h, i);
      CellIndex(b.n, h, i);
      forall d ensures (q, d) in b.cand <==> (q, d) in c { SweptLater(b.n, c, E, h, i, d); }
      SweptLess(b.n, c, E, h, i);
      HiddenOf(b.n, c, b.cand, h, d1, d2, q);
      if (q, d1) in b.cand || (q, d2) in b.cand {
        var f := KeepOnly(b, q, d1, d2);
        e := e || f;
      }
      i := i + 1;
    }
    HiddenIn(b.n, c, h, d1, d2);
    SweptAll(b.n, c, E, h);
    forall g: Grid | Solution(b.n, g, c) ensures Solution(b.n, g, b.cand) { HiddenSound(b.n, g, c, h, d1, d2); }
    res := Done(e);
  }

  lemma HiddenIn(n: nat, c: Cands, h: House, d1: int, d2: int)
    requires OnlyCells(n, c)
    ensures forall x :: x in HiddenStrike(c, h, d1, d2) ==> OnBoard(n, x.0) && InHouse(h, x.0)
  {
    PairPlacesIn(n, c, h, d1, d2);
  }

  // ---------------------------------------------------------------- naked pairs

  /** Cell:only_pair_present */
  method OnlyPairPresent(b: Board, p: Pos, d1: int, d2: int) returns (yes: bool)
    ensures yes <==> OnlyPair(b.n, b.cand, p, d1, d2)
  {
    if d1 == d2 { return false; }
    var i := 1;
    while i <= b.n * b.n
      invariant 1 <= i && forall j :: 1 <= j < i ==> ((p, j) in b.cand <==> j == d1 || j == d2)
      decreases b.n * b.n + 1 - i
    {
      if (i == d1 || i == d2) != ((p, i) in b.cand) { return false; }
      i := i + 1;
    }
    return true;
  }

  lemma NakedPlacesIn(n: nat, c: Cands, h: House, d1: int, d2: int)
    requires OnlyCells(n, c) && IsDigit(n, d1)
    ensures forall p :: p in NakedPlaces(n, c, h, d1, d2) <==> InHouse(h, p) && OnlyPair(n, c, p, d1, d2)
    ensures forall p :: p in NakedPlaces(n, c, h, d1, d2) ==> OnBoard(n, p) && InHouse(h, p)
  {
    PairPlacesIn(n, c, h, d1, d2);
  }

  method CountNaked(b: Board, h: House, d1: int, d2: int) returns (m: nat)
    requires Ok(b.n, b.cand, b.det) && IsHouse(b.n, h) && IsDigit(b.n, d1)
    ensures m == |NakedPlaces(b.n, b.cand, h, d1, d2)|
  {
    ghost var s := NakedPlaces(b.n, b.cand, h, d1, d2);
    NakedPlacesIn(b.n, b.cand, h, d1, d2);
    m := 0;
    var i := 0;
    while i < b.n * b.n
      invariant 0 <= i <= Digits(b.n) && m == |Seen(b.n, h, s, i)|
    {
      var q := CellAt(b.n, h, i);
      CellIndex(b.n, h, i);
      SeenNew(b.n, h, s, i);
      var yes := OnlyPairPresent(b, q, d1, d2);
      if yes { m := m + 1; }
      i := i + 1;
    }
    SeenAll(b.n, h, s);
  }

  lemma NakedOf(n: nat, c: Cands, c': Cands, h: House, d1: int, d2: int, q: Pos)
    requires OnlyCells(n, c) && IsDigit(n, d1) && |NakedPlaces(n, c, h, d1, d2)| == 2 && InHouse(h, q) && c' <= c && forall d :: (q, d) in c' <==> (q, d) in c
    ensures OnlyPair(n, c', q, d1, d2) <==> OnlyPair(n, c, q, d1, d2)
    ensures if OnlyPair(n, c, q, d1, d2) then c' == c' - Of(NakedStrike(n, c, h, d1, d2), q)
      else c' - {(q, d1), (q, d2)} == c' - Of(NakedStrike(n, c, h, d1, d2), q)
  {
    NakedPlacesIn(n, c, h, d1, d2);
  }

  method StrikePair(b: Board, q: Pos, d1: int, d2: int) returns (e: bool)
    modifies b`cand
    ensures b.cand == old(b.cand) - {(q, d1), (q, d2)} && (e <==> b.cand != old(b.cand))
  {
    e := false;
    if (q, d1) in b.cand { b.cand, e := b.cand - {(q, d1)}, true; }
    if (q, d2) in b.cand { b.cand, e := b.cand - {(q, d2)}, true; }
  }

  /** same_pair_in_square, same_pair_in_row, same_pair_in_column */
  method SamePair(b: Board, h: House, d1: int, d2: int) returns (res: Result)
    requires Ok(b.n, b.cand, b.det) && IsHouse(b.n, h) && IsDigit(b.n, d1) && IsDigit(b.n, d2)
    modifies b`cand
    ensures res.Done? && Shrinks(b.n, old(b.cand), b.cand, res.e)
    ensures b.cand == old(b.cand) - if d1 == d2 then {} else NakedStrike(b.n, old(b.cand), h, d1, d2)
  {
    if d1 == d2 { return Done(false); }
    ghost var c, E := b.cand, NakedStrike(b.n, b.cand, h, d1, d2);
    var m := CountNaked(b, h, d1, d2);
    if m != 2 { return Done(false); }
    var e := false;
    var i := 0;
    while i < b.n * b.n
      invariant 0 <= i <= Digits(b.n) && b.cand == Swept(b.n, c, E, h, i) && (e <==> b.cand != c)
    {
      var q := CellAt(b.n, h, i);
      CellIndex(b.n, h, i);
      forall d ensures (q, d) in b.cand <==> (q, d) in c { SweptLater(b.n, c, E, h, i, d); }
      SweptLess(b.n, c, E, h, i);
      NakedOf(b.n, c, b.cand, h, d1, d2, q);
      var yes := OnlyPairPresent(b, q, d1, d2);
      if !yes {
        var f := StrikePair(b, q, d1, d2);
        e := e || f;
      }
      i := i + 1;
    }
    SweptAll(b.n, c, E, h);
    forall g: Grid | Solution(b.n, g, c) ensures Solution(b.n, g, b.cand) { NakedSound(b.n, g, c, h, d1, d2); }
    res := Done(e);
  }
}
