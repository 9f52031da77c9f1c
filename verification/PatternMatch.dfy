/** The backtracking matcher (src/lstrlib.c, match and its helpers). What a pattern matches is given by the
    list of all its matches, most preferred first; the matcher, which changes and undoes captures in place,
    finds the first one. */
module PatternMatch {
  import opened Basics
  import opened PatternSyntax
  import opened PatternItems

  const UNFINISHED: int := -1
  const POSITION: int := -2
  const MAXCAPTURES: nat := 32

  datatype Capture = Capture(init: int, len: int)

  /** A match (where it ends and what was captured), or an error in the pattern that is met on the way. */
  datatype Answer = Match(end: nat, caps: seq<Capture>) | Malformed

  // ---------------------------------------------------------------- captures

  /** capture_to_close: the last unfinished capture, or -1. */
  function ToClose(caps: seq<Capture>): (l: int)
    ensures -1 <= l < |caps|
    ensures l >= 0 ==> caps[l].len == UNFINISHED && forall i :: l < i < |caps| ==> caps[i].len != UNFINISHED
    ensures l == -1 ==> forall i :: 0 <= i < |caps| ==> caps[i].len != UNFINISHED
  {
    if caps == [] then -1
    else if caps[|caps| - 1].len == UNFINISHED then |caps| - 1
    else ToClose(caps[..|caps| - 1])
  }

  /** check_capture: the capture that %1 to %9 refers to, or -1. */
  function CheckCapture(caps: seq<Capture>, d: char): (l: int)
    ensures -1 <= l < |caps|
  {
    var l := d as int - '1' as int;
    if l < 0 || l >= |caps| || caps[l].len == UNFINISHED then -1 else l
  }

  /** match_capture: the captured text occurs again at s. A position capture never does. */
  predicate Repeats(src: string, s: nat, c: Capture) {
    0 <= c.len && 0 <= c.init <= c.init + c.len <= |src| && s + c.len <= |src| && src[s..s + c.len] == src[c.init..c.init + c.len]
  }

  /** The loop of matchbalance: where the text in balance ends, or -1. */
  function BalanceEnd(src: string, s: nat, b: char, e: char, cont: nat): (r: int)
    ensures r == -1 || s < r <= |src|
    decreases |src| - s
  {
    if s >= |src| then -1
    else if src[s] == e then if cont <= 1 then s + 1 else BalanceEnd(src, s + 1, b, e, cont - 1)
    else BalanceEnd(src, s + 1, b, e, if src[s] == b then cont + 1 else cont)
  }

  // ---------------------------------------------------------------- all matches

  /** How often the item at p can be repeated from s on. */
  function Repetitions(src: string, pat: string, s: nat, p: nat, ep: nat): (n: nat)
    ensures s <= |src| ==> s + n <= |src|
    decreases |src| - s
  {
    if s < |src| && SingleMatch(pat, src[s], p, ep) then 1 + Repetitions(src, pat, s + 1, p, ep) else 0
  }

  /** All ways in which the pattern from p on matches at s, most preferred first. */
  ghost function Answers(src: string, pat: string, s: nat, p: nat, caps: seq<Capture>): seq<Answer>
    requires s <= |src|
    decreases |pat| + 1 - p, 2, 0
  {
    var c := At(pat, p);
    if c == '\0' then [Match(s, caps)]
    else if c == '(' then
      if |caps| >= MAXCAPTURES then [Malformed]
      else if At(pat, p + 1) == ')' then Answers(src, pat, s, p + 2, caps + [Capture(s, POSITION)])
      else Answers(src, pat, s, p + 1, caps + [Capture(s, UNFINISHED)])
    else if c == ')' then
      var l := ToClose(caps);
      if l == -1 then [Malformed] else Answers(src, pat, s, p + 1, caps[l := Capture(caps[l].init, s - caps[l].init)])
    else if c == ESC && At(pat, p + 1) == 'b' then
      if At(pat, p + 2) == '\0' || At(pat, p + 3) == '\0' then [Malformed]
      else if s == |src| || src[s] != At(pat, p + 2) then []
      else var e := BalanceEnd(src, s + 1, At(pat, p + 2), At(pat, p + 3), 1); if e == -1 then [] else Answers(src, pat, e, p + 4, caps)
    else if c == ESC && At(pat, p + 1) == 'f' then
      if At(pat, p + 2) != '[' then [Malformed]
      else (
        match ClassEnd(pat, p + 2)
        case None => [Malformed]
        case Some(ep) =>
          if MatchBracket(pat, At(src, s - 1), p + 2, ep - 1) || !MatchBracket(pat, At(src, s), p + 2, ep - 1) then [] else Answers(src, pat, s, ep, caps)
      )
    else if c == ESC && IsDigit(At(pat, p + 1)) then
      var l := CheckCapture(caps, At(pat, p + 1));
      if l == -1 then [Malformed]
      else if Repeats(src, s, caps[l]) then Answers(src, pat, s + caps[l].len, p + 2, caps) else []
    else if c == '$' && At(pat, p + 1) == '\0' then if s == |src| then [Match(s, caps)] else []
    else ItemAnswers(src, pat, s, p, caps)
  }

  /** A single-character item with its suffix. */
  ghost function ItemAnswers(src: string, pat: string, s: nat, p: nat, caps: seq<Capture>): seq<Answer>
    requires s <= |src| && At(pat, p) != '\0'
    decreases |pat| + 1 - p, 1, 0
  {
    match ClassEnd(pat, p)
    case None => [Malformed]
    case Some(ep) =>
      var m := s < |src| && SingleMatch(pat, src[s], p, ep);
      if At(pat, ep) == '?' then (if m then Answers(src, pat, s + 1, ep + 1, caps) else []) + Answers(src, pat, s, ep + 1, caps)
      else if At(pat, ep) == '*' then Longest(src, pat, s, p, ep, caps, Repetitions(src, pat, s, p, ep))
      else if At(pat, ep) == '+' then if m then Longest(src, pat, s + 1, p, ep, caps, Repetitions(src, pat, s + 1, p, ep)) else []
      else if At(pat, ep) == '-' then Shortest(src, pat, s, p, ep, caps)
      else if m then Answers(src, pat, s + 1, ep, caps) else []
  }

  /** At most n repetitions, the more the better. */
  ghost function Longest(src: string, pat: string, s: nat, p: nat, ep: nat, caps: seq<Capture>, n: nat): seq<Answer>
    requires s + n <= |src| && p < ep <= |pat|
    decreases |pat| + 1 - p, 0, n
  {
    Answers(src, pat, s + n, ep + 1, caps) + if n == 0 then [] else Longest(src, pat, s, p, ep, caps, n - 1)
  }

  /** Any number of repetitions, the fewer the better. */
  ghost function Shortest(src: string, pat: string, s: nat, p: nat, ep: nat, caps: seq<Capture>): seq<Answer>
    requires s <= |src| && p < ep <= |pat|
    decreases |pat| + 1 - p, 0, |src| - s
  {
    Answers(src, pat, s, ep + 1, caps) +
      if s < |src| && SingleMatch(pat, src[s], p, ep) then Shortest(src, pat, s + 1, p, ep, caps) else []
  }

  // ---------------------------------------------------------------- what can match at all

  /** i characters from s on all match the item. */
  ghost predicate Run(src: string, pat: string, s: nat, i: nat, p: nat, ep: nat) {
    s + i <= |src| && forall k :: s <= k < s + i ==> ItemHas(pat, src[k], p, ep)
  }

  lemma {:induction false} RunIff(src: string, pat: string, s: nat, i: nat, p: nat, ep: nat)
    requires s <= |src|
    ensures Run(src, pat, s, i, p, ep) <==> i <= Repetitions(src, pat, s, p, ep)
    decreases i
  {
    if i > 0 {
      if s < |src| { ItemHasIff(pat, src[s], p, ep); }
      if s < |src| && SingleMatch(pat, src[s], p, ep) {
        RunIff(src, pat, s + 1, i - 1, p, ep);
      }
    }
  }

  /** There is such a capture, and it is closed or a position. */
  predicate Finished(caps: seq<Capture>, l: int) { 0 <= l < |caps| && caps[l].len != UNFINISHED }

  /** The text of the capture, character by character, is at s again. */
  ghost predicate Again(src: string, s: nat, c: Capture) {
    && c.len >= 0 && c.init >= 0 && c.init + c.len <= |src| && s + c.len <= |src|
    && forall k :: s <= k < s + c.len ==> src[k] == src[c.init + k - s]
  }

  lemma AgainIff(src: string, s: nat, c: Capture)
    ensures Repeats(src, s, c) <==> Again(src, s, c)
  {
    if Repeats(src, s, c) {
      forall k | s <= k < s + c.len ensures src[k] == src[c.init + k - s] { assert src[s..s + c.len][k - s] == src[c.init..c.init + c.len][k - s]; }
    }
  }

  /** The pattern from p on matches at s in this way, whatever the preference. */
  ghost predicate Derives(src: string, pat: string, s: nat, p: nat, caps: seq<Capture>, a: Answer)
    requires s <= |src|
    decreases |pat| + 1 - p, 1
  {
    var c := At(pat, p);
    if c == '\0' then a == Match(s, caps)
    else if c == '(' then
      if |caps| >= 32 then a == Malformed
      else if At(pat, p + 1) == ')' then Derives(src, pat, s, p + 2, caps + [Capture(s, POSITION)], a)
      else Derives(src, pat, s, p + 1, caps + [Capture(s, UNFINISHED)], a)
    else if c == ')' then
      var l := ToClose(caps);
      if l == -1 then a == Malformed else Derives(src, pat, s, p + 1, caps[l := Capture(caps[l].init, s - caps[l].init)], a)
    else if c == ESC && At(pat, p + 1) == 'b' then
      if At(pat, p + 2) == '\0' || At(pat, p + 3) == '\0' then a == Malformed
      else
        && s < |src| && src[s] == At(pat, p + 2)
        && var e := BalanceEnd(src, s + 1, At(pat, p + 2), At(pat, p + 3), 1); e != -1 && Derives(src, pat, e, p + 4, caps, a)
    else if c == ESC && At(pat, p + 1) == 'f' then
      if At(pat, p + 2) != '[' then a == Malformed
      else (
        match ClassEnd(pat, p + 2)
        case None => a == Malformed
        case Some(ep) =>
          !SetHas(pat, At(src, s - 1), p + 2, ep - 1) && SetHas(pat, At(src, s), p + 2, ep - 1) && Derives(src, pat, s, ep, caps, a)
      )
    else if c == ESC && '0' <= At(pat, p + 1) <= '9' then
      var l := At(pat, p + 1) as int - '1' as int;
      if !Finished(caps, l) then a == Malformed else Again(src, s, caps[l]) && Derives(src, pat, s + caps[l].len, p + 2, caps, a)
    else if c == '$' && At(pat, p + 1) == '\0' then s == |src| && a == Match(s, caps)
    else DerivesItem(src, pat, s, p, caps, a)
  }

  predicate Allowed(q: char, i: nat) { (q == '?' ==> i <= 1) && (q == '+' ==> i >= 1) }

  /** `?` allows none or one, `*` and `-` any number, `+` one or more characters that match the item. */
  ghost predicate DerivesItem(src: string, pat: string, s: nat, p: nat, caps: seq<Capture>, a: Answer)
    requires s <= |src| && At(pat, p) != '\0'
    decreases |pat| + 1 - p, 0
  {
    match ClassEnd(pat, p)
    case None => a == Malformed
    case Some(ep) =>
      var q := At(pat, ep);
      if q == '?' || q == '*' || q == '+' || q == '-' then
        exists i: nat :: Run(src, pat, s, i, p, ep) && Allowed(q, i) && Derives(src, pat, s + i, ep + 1, caps, a)
      else Run(src, pat, s, 1, p, ep) && Derives(src, pat, s + 1, ep, caps, a)
  }

  /** After i repetitions, the rest of the pattern matches in this way. */
  ghost predicate AfterRun(src: string, pat: string, s: nat, i: nat, ep: nat, caps: seq<Capture>, a: Answer) {
    s + i <= |src| && a in Answers(src, pat, s + i, ep + 1, caps)
  }

  lemma {:induction false} LongestIff(src: string, pat: string, s: nat, p: nat, ep: nat, caps: seq<Capture>, n: nat, a: Answer)
    requires s + n <= |src| && p < ep <= |pat|
    ensures a in Longest(src, pat, s, p, ep, caps, n) <==> exists i: nat :: i <= n && AfterRun(src, pat, s, i, ep, caps, a)
    decreases n
  {
    var here := Answers(src, pat, s + n, ep + 1, caps);
    assert AfterRun(src, pat, s, n, ep, caps, a) <==> a in here;
    if n == 0 {
      assert Longest(src, pat, s, p, ep, caps, n) == here + [];
    } else {
      LongestIff(src, pat, s, p, ep, caps, n - 1, a);
      var rest := Longest(src, pat, s, p, ep, caps, n - 1);
      assert Longest(src, pat, s, p, ep, caps, n) == here + rest;
      InEither(here, rest, a);
      MoreRuns(src, pat, s, n, ep, caps, a);
    }
  }

  lemma InEither(x: seq<Answer>, y: seq<Answer>, a: Answer)
    ensures a in x + y <==> a in x || a in y
  {
  }

  lemma MoreRuns(src: string, pat: string, s: nat, n: nat, ep: nat, caps: seq<Capture>, a: Answer)
    requires n > 0
    ensures (exists i: nat :: i <= n && AfterRun(src, pat, s, i, ep, caps, a)) <==>
      AfterRun(src, pat, s, n, ep, caps, a) || exists i: nat :: i <= n - 1 && AfterRun(src, pat, s, i, ep, caps, a)
  {
  }

  lemma OneMore(src: string, pat: string, s: nat, s1: nat, n: nat, ep: nat, caps: seq<Capture>, a: Answer)
    requires s1 == s + 1
    ensures (exists i: nat :: i <= n && AfterRun(src, pat, s1, i, ep, caps, a)) <==> exists i: nat :: 1 <= i <= n + 1 && AfterRun(src, pat, s, i, ep, caps, a)
  {
    if i: nat :| i <= n && AfterRun(src, pat, s1, i, ep, caps, a) { assert AfterRun(src, pat, s, i + 1, ep, caps, a); }
    if i: nat :| 1 <= i <= n + 1 && AfterRun(src, pat, s, i, ep, caps, a) { assert AfterRun(src, pat, s1, i - 1, ep, caps, a); }
  }

  lemma {:induction false} ShortestIff(src: string, pat: string, s: nat, p: nat, ep: nat, caps: seq<Capture>, a: Answer)
    requires s <= |src| && p < ep <= |pat|
    ensures a in Shortest(src, pat, s, p, ep, caps) <==> exists i: nat :: i <= Repetitions(src, pat, s, p, ep) && AfterRun(src, pat, s, i, ep, caps, a)
    decreases |src| - s
  {
    var here := Answers(src, pat, s, ep + 1, caps);
    assert AfterRun(src, pat, s, 0, ep, caps, a) <==> a in here;
    if s < |src| && SingleMatch(pat, src[s], p, ep) {
      ShortestIff(src, pat, s + 1, p, ep, caps, a);
      var n := Repetitions(src, pat, s + 1, p, ep);
      assert Shortest(src, pat, s, p, ep, caps) == here + Shortest(src, pat, s + 1, p, ep, caps);
      OneMore(src, pat, s, s + 1, n, ep, caps, a);
    } else {
      assert Shortest(src, pat, s, p, ep, caps) == here + [];
    }
  }

  /** Every match is in the list, and nothing else. */
  lemma {:induction false} AnswersIff(src: string, pat: string, s: nat, p: nat, caps: seq<Capture>, a: Answer)
    requires s <= |src|
    ensures a in Answers(src, pat, s, p, caps) <==> Derives(src, pat, s, p, caps, a)
    decreases |pat| + 1 - p, 2
  {
    var c := At(pat, p);
    if c == '\0' {
    } else if c == '(' {
      if |caps| < MAXCAPTURES {
        if At(pat, p + 1) == ')' { AnswersIff(src, pat, s, p + 2, caps + [Capture(s, POSITION)], a); }
        else { AnswersIff(src, pat, s, p + 1, caps + [Capture(s, UNFINISHED)], a); }
      }
    } else if c == ')' {
      var l := ToClose(caps);
      if l != -1 { AnswersIff(src, pat, s, p + 1, caps[l := Capture(caps[l].init, s - caps[l].init)], a); }
    } else if c == ESC && (At(pat, p + 1) == 'b' || At(pat, p + 1) == 'f' || IsDigit(At(pat, p + 1))) {
      EscapesIff(src, pat, s, p, caps, a);
    } else if c == '$' && At(pat, p + 1) == '\0' {
    } else {
      ItemIff(src, pat, s, p, caps, a);
    }
  }

  /** %b, %f and the back references. */
  lemma {:induction false} EscapesIff(src: string, pat: string, s: nat, p: nat, caps: seq<Capture>, a: Answer)
    requires s <= |src| && At(pat, p) == ESC && (At(pat, p + 1) == 'b' || At(pat, p + 1) == 'f' || IsDigit(At(pat, p + 1)))
    ensures a in Answers(src, pat, s, p, caps) <==> Derives(src, pat, s, p, caps, a)
    decreases |pat| + 1 - p, 1
  {
    if At(pat, p + 1) == 'b' {
      if At(pat, p + 2) != '\0' && At(pat, p + 3) != '\0' && s < |src| && src[s] == At(pat, p + 2) {
        var e := BalanceEnd(src, s + 1, At(pat, p + 2), At(pat, p + 3), 1);
        if e != -1 { AnswersIff(src, pat, e, p + 4, caps, a); }
      }
    } else if At(pat, p + 1) == 'f' {
      if At(pat, p + 2) == '[' && ClassEnd(pat, p + 2).Some? {
        SetIff(pat, At(src, s - 1), p + 2, ClassEnd(pat, p + 2).value - 1);
        SetIff(pat, At(src, s), p + 2, ClassEnd(pat, p + 2).value - 1);
        AnswersIff(src, pat, s, ClassEnd(pat, p + 2).value, caps, a);
      }
    } else {
      var l := CheckCapture(caps, At(pat, p + 1));
      if l != -1 { AgainIff(src, s, caps[l]); }
      if l != -1 && Repeats(src, s, caps[l]) { AnswersIff(src, pat, s + caps[l].len, p + 2, caps, a); }
    }
  }

  lemma {:induction false} ItemIff(src: string, pat: string, s: nat, p: nat, caps: seq<Capture>, a: Answer)
    requires s <= |src| && At(pat, p) != '\0'
    ensures a in ItemAnswers(src, pat, s, p, caps) <==> DerivesItem(src, pat, s, p, caps, a)
    decreases |pat| + 1 - p, 1
  {
    if ClassEnd(pat, p).Some? {
      var ep := ClassEnd(pat, p).value;
      var q := At(pat, ep);
      RunIff(src, pat, s, 1, p, ep);
      if q == '?' || q == '*' || q == '+' || q == '-' {
        SuffixIff(src, pat, s, p, ep, caps, a);
        RunsDerive(src, pat, s, p, ep, q, caps, a);
      } else if s < |src| {
        AnswersIff(src, pat, s + 1, ep, caps, a);
      }
    }
  }

  /** Some allowed number of repetitions leads to the answer. */
  ghost predicate SomeRun(src: string, pat: string, s: nat, p: nat, ep: nat, q: char, caps: seq<Capture>, a: Answer)
    requires s <= |src|
  {
    exists i: nat :: i <= Repetitions(src, pat, s, p, ep) && Allowed(q, i) && AfterRun(src, pat, s, i, ep, caps, a)
  }

  lemma {:induction false} RunsDerive(src: string, pat: string, s: nat, p: nat, ep: nat, q: char, caps: seq<Capture>, a: Answer)
    requires s <= |src| && p < ep <= |pat|
    ensures SomeRun(src, pat, s, p, ep, q, caps, a) <==> exists i: nat :: Run(src, pat, s, i, p, ep) && Allowed(q, i) && Derives(src, pat, s + i, ep + 1, caps, a)
    decreases |pat| + 1 - p, 0
  {
    if SomeRun(src, pat, s, p, ep, q, caps, a) {
      var i: nat :| i <= Repetitions(src, pat, s, p, ep) && Allowed(q, i) && AfterRun(src, pat, s, i, ep, caps, a);
      RunIff(src, pat, s, i, p, ep);
      AnswersIff(src, pat, s + i, ep + 1, caps, a);
    }
    if i: nat :| Run(src, pat, s, i, p, ep) && Allowed(q, i) && Derives(src, pat, s + i, ep + 1, caps, a) {
      RunIff(src, pat, s, i, p, ep);
      AnswersIff(src, pat, s + i, ep + 1, caps, a);
      assert AfterRun(src, pat, s, i, ep, caps, a);
    }
  }

  /** The suffixes, as numbers of repetitions. */
  lemma SuffixIff(src: string, pat: string, s: nat, p: nat, ep: nat, caps: seq<Capture>, a: Answer)
    requires s <= |src| && At(pat, p) != '\0' && ClassEnd(pat, p) == Some(ep) && At(pat, ep) in "?*+-"
    ensures a in ItemAnswers(src, pat, s, p, caps) <==> SomeRun(src, pat, s, p, ep, At(pat, ep), caps, a)
  {
    var q, n := At(pat, ep), Repetitions(src, pat, s, p, ep);
    if q == '*' {
      LongestIff(src, pat, s, p, ep, caps, n, a);
    } else if q == '-' {
      ShortestIff(src, pat, s, p, ep, caps, a);
    } else if q == '+' {
      PlusIff(src, pat, s, p, ep, caps, a);
    } else {
      OptionIff(src, pat, s, p, ep, caps, a);
    }
  }

  lemma PlusIff(src: string, pat: string, s: nat, p: nat, ep: nat, caps: seq<Capture>, a: Answer)
    requires s <= |src| && p < ep <= |pat|
    ensures (s < |src| && SingleMatch(pat, src[s], p, ep) && a in Longest(src, pat, s + 1, p, ep, caps, Repetitions(src, pat, s + 1, p, ep))) <==>
      SomeRun(src, pat, s, p, ep, '+', caps, a)
  {
    if s < |src| && SingleMatch(pat, src[s], p, ep) {
      var n := Repetitions(src, pat, s + 1, p, ep);
      LongestIff(src, pat, s + 1, p, ep, caps, n, a);
      OneMore(src, pat, s, s + 1, n, ep, caps, a);
    }
  }

  lemma OptionIff(src: string, pat: string, s: nat, p: nat, ep: nat, caps: seq<Capture>, a: Answer)
    requires s <= |src| && p < ep <= |pat|
    ensures (s < |src| && SingleMatch(pat, src[s], p, ep) && a in Answers(src, pat, s + 1, ep + 1, caps)) || a in Answers(src, pat, s, ep + 1, caps) <==>
      SomeRun(src, pat, s, p, ep, '?', caps, a)
  {
    assert AfterRun(src, pat, s, 0, ep, caps, a) <==> a in Answers(src, pat, s, ep + 1, caps);
    if s < |src| { assert AfterRun(src, pat, s, 1, ep, caps, a) <==> a in Answers(src, pat, s + 1, ep + 1, caps); }
  }
}
