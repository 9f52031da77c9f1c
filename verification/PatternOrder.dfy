/** What the loops of src/lstrlib.c settle for: where balanced text ends, and which number of repetitions the
    matcher takes. */
module PatternOrder {
  import opened Basics
  import opened PatternSyntax
  import opened PatternMatch

  // ---------------------------------------------------------------- balanced text

  /** How many more closers than openers there are from s up to k; a delimiter that is both is a closer. */
  function Excess(src: string, s: nat, k: nat, b: char, e: char): int
    requires k <= |src|
    decreases k - s
  {
    if k <= s then 0
    else (if src[s] == e then 1 else if src[s] == b then -1 else 0) + Excess(src, s + 1, k, b, e)
  }

  ghost predicate Below(src: string, s: nat, k: nat, b: char, e: char, open: nat)
    requires k <= |src|
  {
    Excess(src, s, k, b, e) < open
  }

  /** %b: with `open` delimiters open at s, the text ends at the first place where as many closers more than
      openers have come, if there is one. */
  lemma {:induction false} BalanceFirst(src: string, s: nat, b: char, e: char, open: nat)
    requires s <= |src| && open >= 1
    ensures var r := BalanceEnd(src, s, b, e, open);
      && (r != -1 ==> Excess(src, s, r, b, e) == open && forall k: nat :: k < r ==> Below(src, s, k, b, e, open))
      && (r == -1 ==> forall k: nat :: k <= |src| ==> Below(src, s, k, b, e, open))
    decreases |src| - s
  {
    var r := BalanceEnd(src, s, b, e, open);
    if s < |src| && !(src[s] == e && open == 1) {
      var next: nat := if src[s] == e then open - 1 else if src[s] == b then open + 1 else open;
      BalanceFirst(src, s + 1, b, e, next);
      assert r == BalanceEnd(src, s + 1, b, e, next);
      forall k: nat | k <= |src| && (r == -1 || k < r) ensures Below(src, s, k, b, e, open) {
        assert Below(src, s + 1, k, b, e, next);
      }
    }
  }

  // ---------------------------------------------------------------- priority

  /** The rest of the pattern matches (or is malformed) after i repetitions. */
  ghost predicate Goes(src: string, pat: string, s: nat, i: nat, ep: nat, caps: seq<Capture>) {
    s + i <= |src| && Matches(src, pat, s + i, ep + 1, caps)
  }

  ghost predicate Matches(src: string, pat: string, s: nat, p: nat, caps: seq<Capture>)
    requires s <= |src|
  {
    exists a :: Derives(src, pat, s, p, caps, a)
  }

  lemma GoesIff(src: string, pat: string, s: nat, i: nat, ep: nat, caps: seq<Capture>)
    requires s + i <= |src|
    ensures Goes(src, pat, s, i, ep, caps) <==> Answers(src, pat, s + i, ep + 1, caps) != []
  {
    var l := Answers(src, pat, s + i, ep + 1, caps);
    if Goes(src, pat, s, i, ep, caps) {
      var a :| Derives(src, pat, s + i, ep + 1, caps, a);
      AnswersIff(src, pat, s + i, ep + 1, caps, a);
    }
    if l != [] {
      assert l[0] in l;
      AnswersIff(src, pat, s + i, ep + 1, caps, l[0]);
    }
  }

  /** The first answer of a list of alternatives is that of the i-th alternative. */
  ghost predicate FirstOf(l: seq<Answer>, src: string, pat: string, s: nat, i: nat, ep: nat, caps: seq<Capture>) {
    s + i <= |src| && l != [] && Answers(src, pat, s + i, ep + 1, caps) != [] && l[0] == Answers(src, pat, s + i, ep + 1, caps)[0]
  }

  lemma {:induction false} LongestFirst(src: string, pat: string, s: nat, p: nat, ep: nat, caps: seq<Capture>, n: nat) returns (i: nat)
    requires s + n <= |src| && p < ep <= |pat| && Longest(src, pat, s, p, ep, caps, n) != []
    ensures i <= n && FirstOf(Longest(src, pat, s, p, ep, caps, n), src, pat, s, i, ep, caps)
    ensures forall j: nat :: i < j <= n ==> !Goes(src, pat, s, j, ep, caps)
    decreases n
  {
    var here := Answers(src, pat, s + n, ep + 1, caps);
    i := n;
    if here == [] {
      GoesIff(src, pat, s, n, ep, caps);
      i := LongestFirst(src, pat, s, p, ep, caps, n - 1);
    }
  }

  lemma {:induction false} ShortestFirst(src: string, pat: string, s: nat, p: nat, ep: nat, caps: seq<Capture>) returns (i: nat)
    requires s <= |src| && p < ep <= |pat| && Shortest(src, pat, s, p, ep, caps) != []
    ensures i <= Repetitions(src, pat, s, p, ep) && FirstOf(Shortest(src, pat, s, p, ep, caps), src, pat, s, i, ep, caps)
    ensures forall j: nat :: j < i ==> !Goes(src, pat, s, j, ep, caps)
    decreases |src| - s
  {
    var here := Answers(src, pat, s, ep + 1, caps);
    i := 0;
    if here == [] {
      GoesIff(src, pat, s, 0, ep, caps);
      var k := ShortestFirst(src, pat, s + 1, p, ep, caps);
      i := k + 1;
      forall j: nat | j < i ensures !Goes(src, pat, s, j, ep, caps) {
        assert j > 0 ==> !Goes(src, pat, s + 1, j - 1, ep, caps);
      }
    }
  }

  /** One number of repetitions is tried before another. */
  predicate Sooner(q: char, i: nat, j: nat) { if q == '-' then i < j else i > j }

  /** The number of repetitions that the matcher settles for: the item can be repeated so often, the rest of
      the pattern goes on from there, and with no number that is tried sooner does it. */
  ghost predicate Settles(src: string, pat: string, s: nat, p: nat, ep: nat, caps: seq<Capture>, i: nat)
    requires s <= |src|
  {
    && Run(src, pat, s, i, p, ep) && Allowed(At(pat, ep), i) && Goes(src, pat, s, i, ep, caps)
    && forall j: nat :: Run(src, pat, s, j, p, ep) && Allowed(At(pat, ep), j) && Sooner(At(pat, ep), j, i) ==> !Goes(src, pat, s, j, ep, caps)
  }

  /** Priority: `*`, `+` and `?` settle for the most repetitions with which the rest of the pattern matches,
      `-` for the fewest; and the match found is then the first match of the rest from there. */
  lemma Priority(src: string, pat: string, s: nat, p: nat, ep: nat, caps: seq<Capture>) returns (i: nat)
    requires s <= |src| && At(pat, p) != '\0' && ClassEnd(pat, p) == Some(ep) && At(pat, ep) in "?*+-"
    requires ItemAnswers(src, pat, s, p, caps) != []
    ensures Settles(src, pat, s, p, ep, caps, i) && FirstOf(ItemAnswers(src, pat, s, p, caps), src, pat, s, i, ep, caps)
  {
    var q, n := At(pat, ep), Repetitions(src, pat, s, p, ep);
    forall j: nat ensures Run(src, pat, s, j, p, ep) <==> j <= n { RunIff(src, pat, s, j, p, ep); }
    if q == '*' {
      i := LongestFirst(src, pat, s, p, ep, caps, n);
    } else if q == '-' {
      i := ShortestFirst(src, pat, s, p, ep, caps);
    } else if q == '+' {
      i := PlusFirst(src, pat, s, p, ep, caps);
    } else {
      i := OptionFirst(src, pat, s, p, ep, caps);
    }
    GoesIff(src, pat, s, i, ep, caps);
  }

  lemma PlusFirst(src: string, pat: string, s: nat, p: nat, ep: nat, caps: seq<Capture>) returns (i: nat)
    requires s < |src| && p < ep <= |pat| && SingleMatch(pat, src[s], p, ep)
    requires Longest(src, pat, s + 1, p, ep, caps, Repetitions(src, pat, s + 1, p, ep)) != []
    ensures 1 <= i <= Repetitions(src, pat, s, p, ep)
    ensures FirstOf(Longest(src, pat, s + 1, p, ep, caps, Repetitions(src, pat, s + 1, p, ep)), src, pat, s, i, ep, caps)
    ensures forall j: nat :: i < j <= Repetitions(src, pat, s, p, ep) ==> !Goes(src, pat, s, j, ep, caps)
  {
    var k := LongestFirst(src, pat, s + 1, p, ep, caps, Repetitions(src, pat, s + 1, p, ep));
    i := k + 1;
    forall j: nat | i < j <= Repetitions(src, pat, s, p, ep) ensures !Goes(src, pat, s, j, ep, caps) {
      assert !Goes(src, pat, s + 1, j - 1, ep, caps);
    }
  }

  lemma OptionFirst(src: string, pat: string, s: nat, p: nat, ep: nat, caps: seq<Capture>) returns (i: nat)
    requires s <= |src| && At(pat, p) != '\0' && ClassEnd(pat, p) == Some(ep) && At(pat, ep) == '?' && ItemAnswers(src, pat, s, p, caps) != []
    ensures i <= 1 && i <= Repetitions(src, pat, s, p, ep) && FirstOf(ItemAnswers(src, pat, s, p, caps), src, pat, s, i, ep, caps)
    ensures i == 0 && Repetitions(src, pat, s, p, ep) >= 1 ==> !Goes(src, pat, s, 1, ep, caps)
  {
    var m := s < |src| && SingleMatch(pat, src[s], p, ep);
    i := 0;
    if m {
      GoesIff(src, pat, s, 1, ep, caps);
      if Answers(src, pat, s + 1, ep + 1, caps) != [] { i := 1; }
    }
  }
}
