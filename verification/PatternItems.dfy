/** Which characters a single item of a pattern matches, and where the item ends (section 5.4.1 of the Lua 5.1
    Reference Manual), and that the functions of src/lstrlib.c decide just that. */
module PatternItems {
  import opened Basics
  import opened PatternSyntax

  /** Texts and patterns end with a zero byte. */
  lemma TextEnds(t: string, p: int)
    ensures At(t, p) == if 0 <= p <= |t| then (t + ['\0'])[p] else '\0'
  {
  }

  // ---------------------------------------------------------------- classes

  /** The class that a lower-case letter stands for, as ranges of character codes. */
  predicate ClassHas(letter: char, c: int) {
    match letter
    case 'a' => 65 <= c <= 90 || 97 <= c <= 122
    case 'c' => 0 <= c <= 31 || c == 127
    case 'd' => 48 <= c <= 57
    case 'l' => 97 <= c <= 122
    case 'p' => 33 <= c <= 47 || 58 <= c <= 64 || 91 <= c <= 96 || 123 <= c <= 126
    case 's' => 9 <= c <= 13 || c == 32
    case 'u' => 65 <= c <= 90
    case 'w' => 48 <= c <= 57 || 65 <= c <= 90 || 97 <= c <= 122
    case 'x' => 48 <= c <= 57 || 65 <= c <= 70 || 97 <= c <= 102
    case 'z' => c == 0
    case _ => false
  }

  /** %x: a lower-case class letter stands for its class, an upper-case one for all other characters, and any
      other character for itself. */
  predicate EscapeHas(x: char, c: char) {
    if x in "acdlpsuwxz" then ClassHas(x, c as int)
    else if x in "ACDLPSUWXZ" then !ClassHas((x as int + 32) as char, c as int)
    else x == c
  }

  lemma ClassIff(c: char, x: char)
    ensures MatchClass(c, x) <==> EscapeHas(x, c)
  {
  }

  // ---------------------------------------------------------------- sets

  /** The members of a set: classes, ranges and single characters. */
  datatype Member = Class(cl: char) | Range(lo: char, hi: char) | Single(c: char)

  predicate Has(m: Member, c: char) {
    match m
    case Class(x) => EscapeHas(x, c)
    case Range(lo, hi) => lo <= c <= hi
    case Single(x) => x == c
  }

  /** The text between the brackets as a list of members. */
  function Members(t: string, p: nat, ec: int): seq<Member>
    decreases ec - p
  {
    if p >= ec then []
    else if At(t, p) == '%' then [Class(At(t, p + 1))] + Members(t, p + 2, ec)
    else if At(t, p + 1) == '-' && p + 2 < ec then [Range(At(t, p), At(t, p + 2))] + Members(t, p + 3, ec)
    else [Single(At(t, p))] + Members(t, p + 1, ec)
  }

  ghost predicate SomeHas(ms: seq<Member>, c: char) { exists m :: m in ms && Has(m, c) }

  /** The test stops at the first member that has the character; the set is the union of its members. */
  lemma {:induction false} InSetIff(t: string, c: char, p: nat, ec: int)
    ensures InSet(t, c, p, ec) <==> SomeHas(Members(t, p, ec), c)
    decreases ec - p
  {
    if p < ec {
      var n := if At(t, p) == '%' then p + 2 else if At(t, p + 1) == '-' && p + 2 < ec then p + 3 else p + 1;
      InSetIff(t, c, n, ec);
      ClassIff(c, At(t, p + 1));
      OneMember(Members(t, p, ec)[0], Members(t, n, ec), c);
    }
  }

  lemma OneMember(m: Member, ms: seq<Member>, c: char)
    ensures SomeHas([m] + ms, c) <==> Has(m, c) || SomeHas(ms, c)
  {
    assert m in [m] + ms;
    assert forall x :: x in ms ==> x in [m] + ms;
  }

  /** [set] has the characters of its members, and [^set] all others; the brackets are at p and ec. */
  ghost predicate SetHas(t: string, c: char, p: nat, ec: int) {
    if At(t, p + 1) == '^' then !SomeHas(Members(t, p + 2, ec), c) else SomeHas(Members(t, p + 1, ec), c)
  }

  lemma SetIff(t: string, c: char, p: nat, ec: int)
    ensures MatchBracket(t, c, p, ec) <==> SetHas(t, c, p, ec)
  {
    InSetIff(t, c, p + 1, ec);
    InSetIff(t, c, p + 2, ec);
  }

  // ---------------------------------------------------------------- single items

  /** The item from p to ep matches c: a dot anything, %x as above, a set what it has, and any other character
      itself. */
  ghost predicate ItemHas(t: string, c: char, p: nat, ep: int) {
    match At(t, p)
    case '.' => true
    case '%' => EscapeHas(At(t, p + 1), c)
    case '[' => SetHas(t, c, p, ep - 1)
    case x => x == c
  }

  lemma ItemHasIff(t: string, c: char, p: nat, ep: int)
    ensures SingleMatch(t, c, p, ep) <==> ItemHas(t, c, p, ep)
  {
    SetIff(t, c, p, ep - 1);
    ClassIff(c, At(t, p + 1));
  }

  // ---------------------------------------------------------------- where items end

  /** The next position in a set where a member or the closing bracket may be: escaped characters are skipped. */
  function Skip(t: string, p: nat): nat { if At(t, p) == '%' && At(t, p + 1) != '\0' then p + 2 else p + 1 }

  /** One gets from p to q by such steps, without passing the end of the pattern. */
  predicate Boundary(t: string, p: nat, q: nat)
    decreases |t| + 1 - p
  {
    p == q || (p < |t| && At(t, p) != '\0' && Boundary(t, Skip(t, p), q))
  }

  lemma {:induction false} BoundaryAhead(t: string, p: nat, q: nat)
    requires Boundary(t, p, q)
    ensures p <= q
    decreases |t| + 1 - p
  {
    if p != q { BoundaryAhead(t, Skip(t, p), q); }
  }

  /** A closing bracket: the first ] that is not escaped and not the first character of the set. */
  ghost predicate Closes(t: string, p: nat, q: nat) {
    && At(t, p) != '\0' && Boundary(t, Skip(t, p), q) && At(t, q) == ']'
    && forall x: nat :: Boundary(t, Skip(t, p), x) && x < q ==> At(t, x) != ']'
  }

  /** A set whose text begins at p ends behind its closing bracket, and is malformed exactly if it has none. */
  lemma {:induction false} SetEndFirst(t: string, p: nat)
    ensures match SetEnd(t, p)
      case Some(e) => Closes(t, p, e - 1)
      case None => forall q: nat :: !Closes(t, p, q)
    decreases |t| + 1 - p
  {
    var n := Skip(t, p);
    if At(t, p) == '\0' {
    } else if At(t, n) == ']' {
      forall x: nat | Boundary(t, n, x) ensures x >= n { BoundaryAhead(t, n, x); }
    } else {
      if n < |t| { SetEndFirst(t, n); }
      forall q: nat | Boundary(t, n, q) && At(t, q) == ']' ensures n < |t| && At(t, n) != '\0' && Boundary(t, Skip(t, n), q) { }
      forall q: nat ensures Closes(t, p, q) <==> n < |t| && Closes(t, n, q) { ClosesNext(t, p, q); }
    }
  }

  lemma ClosesNext(t: string, p: nat, q: nat)
    requires At(t, p) != '\0' && At(t, Skip(t, p)) != ']'
    ensures Closes(t, p, q) <==> Skip(t, p) < |t| && Closes(t, Skip(t, p), q)
  {
  }

  /** Where an item ends: behind its one character, behind the character that follows a %, or behind the closing
      bracket of a set; None is a malformed pattern. */
  lemma ItemEnd(t: string, p: nat)
    requires At(t, p) != '\0'
    ensures At(t, p) != '%' && At(t, p) != '[' ==> ClassEnd(t, p) == Some(p + 1)
    ensures At(t, p) == '%' ==> ClassEnd(t, p) == if At(t, p + 1) == '\0' then None else Some(p + 2)
    ensures At(t, p) == '[' ==>
      var first := if At(t, p + 1) == '^' then p + 2 else p + 1;
      match ClassEnd(t, p)
      case Some(e) => Closes(t, first, e - 1)
      case None => forall q: nat :: !Closes(t, first, q)
  {
    SetEndFirst(t, p + 1);
    SetEndFirst(t, p + 2);
  }
}
