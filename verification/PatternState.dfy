/** The matcher's state and its mutually recursive functions (src/lstrlib.c, MatchState, match, max_expand,
    min_expand, start_capture, end_capture, matchbalance; str_find_aux). */
module PatternState {
  import opened Basics
  import opened PatternSyntax
  import opened PatternMatch

  /** NULL, the end of a match, or a raised error. */
  datatype Result = Null | End(e: nat) | Raised

  /** The result is the first answer; without any, the captures are as before. */
  ghost predicate First(r: Result, a: seq<Answer>, before: seq<Capture>, after: seq<Capture>) {
    if a == [] then r == Null && after == before
    else match a[0] case Malformed => r == Raised case Match(e, c) => r == End(e) && after == c
  }

  lemma FirstOfTwo(r: Result, a: seq<Answer>, b: seq<Answer>, before: seq<Capture>, after: seq<Capture>)
    requires First(r, a, before, after)
    ensures r != Null ==> First(r, a + b, before, after)
    ensures r == Null ==> a == [] && a + b == b && after == before
  {
    if a != [] { assert (a + b)[0] == a[0]; }
  }

  /** The answers with fewer than n repetitions. */
  ghost function Fewer(src: string, pat: string, s: nat, p: nat, ep: nat, caps: seq<Capture>, n: nat): seq<Answer>
    requires s + n <= |src| + 1 && p < ep <= |pat|
  {
    if n == 0 then [] else Longest(src, pat, s, p, ep, caps, n - 1)
  }

  lemma FewerSplit(src: string, pat: string, s: nat, p: nat, ep: nat, caps: seq<Capture>, i: nat) returns (here: seq<Answer>)
    requires s + i <= |src| && p < ep <= |pat|
    ensures here == Answers(src, pat, s + i, ep + 1, caps) && Fewer(src, pat, s, p, ep, caps, i + 1) == here + Fewer(src, pat, s, p, ep, caps, i)
  {
    here := Answers(src, pat, s + i, ep + 1, caps);
  }

  lemma MoreSplit(src: string, pat: string, s: nat, p: nat, ep: nat, caps: seq<Capture>) returns (here: seq<Answer>, more: seq<Answer>)
    requires s <= |src| && p < ep <= |pat|
    ensures here == Answers(src, pat, s, ep + 1, caps) && Shortest(src, pat, s, p, ep, caps) == here + more
    ensures more == if s < |src| && SingleMatch(pat, src[s], p, ep) then Shortest(src, pat, s + 1, p, ep, caps) else []
  {
    here := Answers(src, pat, s, ep + 1, caps);
    more := if s < |src| && SingleMatch(pat, src[s], p, ep) then Shortest(src, pat, s + 1, p, ep, caps) else [];
  }

  class MatchState {
    const src: string
    const pat: string
    var level: nat                  // number of captures
    var capture: seq<Capture>

    ghost predicate Ok()
      reads this
    {
      |capture| == MAXCAPTURES && level <= MAXCAPTURES
    }

    ghost function Caps(): seq<Capture>
      reads this
    {
      if level <= |capture| then capture[..level] else []
    }

    constructor (src: string, pat: string)
      ensures this.src == src && this.pat == pat && Ok() && Caps() == []
    {
      this.src, this.pat, level, capture := src, pat, 0, seq(MAXCAPTURES, _ => Capture(0, 0));
    }

    /** matchbalance, from the character behind the opening one. */
    method MatchBalance(s0: nat, b: char, e: char) returns (r: int)
      ensures r == BalanceEnd(src, s0, b, e, 1)
    {
      var s, cont := s0, 1;
      while s < |src|
        invariant cont >= 1 && BalanceEnd(src, s0, b, e, 1) == BalanceEnd(src, s, b, e, cont)
        decreases |src| - s
      {
        if src[s] == e {
          cont := cont - 1;
          if cont == 0 { return s + 1; }
        } else if src[s] == b {
          cont := cont + 1;
        }
        s := s + 1;
      }
      r := -1;
    }

    /** capture_to_close */
    method CaptureToClose() returns (l: int)
      requires Ok()
      ensures l == ToClose(Caps())
    {
      l := level - 1;
      ghost var caps := Caps();
      while l >= 0
        invariant -1 <= l < |caps| && ToClose(caps) == ToClose(caps[..l + 1])
      {
        assert caps[..l + 1][..l] == caps[..l] && caps[..l + 1][l] == capture[l];
        if capture[l].len == UNFINISHED { return; }
        l := l - 1;
      }
    }

    /** The first loop of max_expand. */
    method CountRun(s: nat, p: nat, ep: nat) returns (i: nat)
      requires s <= |src|
      ensures i == Repetitions(src, pat, s, p, ep) && s + i <= |src|
    {
      i := 0;
      while s + i < |src| && SingleMatch(pat, src[s + i], p, ep)
        invariant s + i <= |src| && Repetitions(src, pat, s, p, ep) == i + Repetitions(src, pat, s + i, p, ep)
        decreases |src| - s - i
      {
        i := i + 1;
      }
    }

    /** max_expand: as many repetitions as possible first, then fewer. */
    method MaxExpand(s: nat, p: nat, ep: nat) returns (r: Result)
      requires Ok() && s <= |src| && p < ep <= |pat|
      modifies this
      ensures Ok() && First(r, Longest(src, pat, s, p, ep, old(Caps()), Repetitions(src, pat, s, p, ep)), old(Caps()), Caps())
      decreases |pat| + 1 - p, 0
    {
      var i: int := CountRun(s, p, ep);
      ghost var n, caps := i, Caps();
      ghost var all := Longest(src, pat, s, p, ep, caps, n);
      while i >= 0
        invariant -1 <= i <= n && Ok() && Caps() == caps
        invariant all == Fewer(src, pat, s, p, ep, caps, i + 1)
      {
        ghost var here := FewerSplit(src, pat, s, p, ep, caps, i);
        r := DoMatch(s + i, ep + 1);
        FirstOfTwo(r, here, Fewer(src, pat, s, p, ep, caps, i), caps, Caps());
        if r != Null { return; }
        i := i - 1;
      }
      r := Null;
    }

    /** min_expand: as few repetitions as possible first, then more. */
    method MinExpand(s0: nat, p: nat, ep: nat) returns (r: Result)
      requires Ok() && s0 <= |src| && p < ep <= |pat|
      modifies this
      ensures Ok() && First(r, Shortest(src, pat, s0, p, ep, old(Caps())), old(Caps()), Caps())
      decreases |pat| + 1 - p, 0
    {
      var s := s0;
      ghost var caps := Caps();
      ghost var all := Shortest(src, pat, s0, p, ep, caps);
      while true
        invariant s0 <= s <= |src| && Ok() && Caps() == caps && all == Shortest(src, pat, s, p, ep, caps)
        decreases |src| - s
      {
        ghost var here, more := MoreSplit(src, pat, s, p, ep, caps);
        r := DoMatch(s, ep + 1);
        FirstOfTwo(r, here, more, caps, Caps());
        if r != Null { return; }
        if s < |src| && SingleMatch(pat, src[s], p, ep) { s := s + 1; } else { return Null; }
      }
    }

    /** start_capture */
    method StartCapture(s: nat, p: nat, what: int) returns (r: Result)
      requires Ok() && s <= |src| && p <= |pat| + 1
      modifies this
      ensures Ok()
      ensures if |old(Caps())| >= MAXCAPTURES then r == Raised
        else First(r, Answers(src, pat, s, p, old(Caps()) + [Capture(s, what)]), old(Caps()), Caps())
      decreases |pat| + 1 - p, 4
    {
      if level >= MAXCAPTURES { return Raised; }
      ghost var caps := Caps();
      capture := capture[level := Capture(s, what)];
      level := level + 1;
      assert Caps() == caps + [Capture(s, what)];
      r := DoMatch(s, p);
      if r == Null {
        level := level - 1;
        assert Caps() == (caps + [Capture(s, what)])[..|caps|] == caps;
      }
    }

    /** end_capture */
    method EndCapture(s: nat, p: nat) returns (r: Result)
      requires Ok() && s <= |src| && p <= |pat| + 1
      modifies this
      ensures Ok()
      ensures var l := ToClose(old(Caps()));
        if l == -1 then r == Raised
        else First(r, Answers(src, pat, s, p, old(Caps())[l := Capture(old(Caps())[l].init, s - old(Caps())[l].init)]), old(Caps()), Caps())
      decreases |pat| + 1 - p, 4
    {
      ghost var caps := Caps();
      var l := CaptureToClose();
      if l == -1 { return Raised; }
      var init := capture[l].init;
      capture := capture[l := Capture(init, s - init)];
      ghost var caps' := caps[l := Capture(init, s - init)];
      assert Caps() == caps';
      r := DoMatch(s, p);
      if r == Null {
        assert capture[l] == Caps()[l];
        capture := capture[l := Capture(capture[l].init, UNFINISHED)];
        assert Caps() == caps'[l := Capture(init, UNFINISHED)] == caps;
      }
    }

    /** match: the first of all answers. Tail calls become iterations. */
    method DoMatch(s0: nat, p0: nat) returns (r: Result)
      requires Ok() && s0 <= |src| && p0 <= |pat| + 1
      modifies this
      ensures Ok() && First(r, Answers(src, pat, s0, p0, old(Caps())), old(Caps()), Caps())
      decreases |pat| + 1 - p0, 3
    {
      var s: nat, p: nat := s0, p0;
      ghost var caps := Caps();
      while true
        invariant s <= |src| && p0 <= p <= |pat| + 1 && Ok() && Caps() == caps
        invariant Answers(src, pat, s0, p0, caps) == Answers(src, pat, s, p, caps)
        decreases |pat| + 1 - p
      {
        var next;
        next, r, s, p := Round(s, p);
        if !next { return; }
      }
    }

    /** One round of match: a result, or where to go on. */
    method Round(s0: nat, p0: nat) returns (next: bool, r: Result, s: nat, p: nat)
      requires Ok() && s0 <= |src| && p0 <= |pat| + 1
      modifies this
      ensures Ok() && s <= |src|
      ensures if next then p0 < p <= |pat| && Caps() == old(Caps()) && Answers(src, pat, s0, p0, old(Caps())) == Answers(src, pat, s, p, Caps())
        else First(r, Answers(src, pat, s0, p0, old(Caps())), old(Caps()), Caps())
      decreases |pat| + 1 - p0, 2
    {
      s, p, next, r := s0, p0, false, Null;
      var c := At(pat, p);
      if c == '\0' {
        r := End(s);
      } else if c == '(' {
        if At(pat, p + 1) == ')' { r := StartCapture(s, p + 2, POSITION); } else { r := StartCapture(s, p + 1, UNFINISHED); }
      } else if c == ')' {
        r := EndCapture(s, p + 1);
      } else if c == ESC && (At(pat, p + 1) == 'b' || At(pat, p + 1) == 'f' || IsDigit(At(pat, p + 1))) {
        next, r, s, p := Special(s, p);
      } else if c == '$' && At(pat, p + 1) == '\0' {
        if s == |src| { r := End(s); }
      } else {
        next, r, s, p := Item(s, p);
      }
    }

    /** match, the items %b, %f and %1 to %9. */
    method Special(s0: nat, p0: nat) returns (next: bool, r: Result, s: nat, p: nat)
      requires Ok() && s0 <= |src| && At(pat, p0) == ESC && (At(pat, p0 + 1) == 'b' || At(pat, p0 + 1) == 'f' || IsDigit(At(pat, p0 + 1)))
      ensures s <= |src|
      ensures if next then p0 < p <= |pat| && Answers(src, pat, s0, p0, Caps()) == Answers(src, pat, s, p, Caps())
        else First(r, Answers(src, pat, s0, p0, Caps()), Caps(), Caps())
    {
      s, p, next, r := s0, p0, false, Null;
      if At(pat, p + 1) == 'b' {
        if At(pat, p + 2) == '\0' || At(pat, p + 3) == '\0' { r := Raised; return; }
        if s < |src| && src[s] == At(pat, p + 2) {
          var e := MatchBalance(s + 1, At(pat, p + 2), At(pat, p + 3));
          if e != -1 { next, s, p := true, e, p + 4; }
        }
      } else if At(pat, p + 1) == 'f' {
        if At(pat, p + 2) != '[' { r := Raised; return; }
        var ep := ClassEnd(pat, p + 2);
        if ep.None? { r := Raised; return; }
        if !MatchBracket(pat, At(src, s - 1), p + 2, ep.value - 1) && MatchBracket(pat, At(src, s), p + 2, ep.value - 1) {
          next, p := true, ep.value;
        }
      } else {
        var l := CheckCapture(capture[..level], At(pat, p + 1));
        if l == -1 { r := Raised; return; }
        if Repeats(src, s, capture[l]) { next, s, p := true, s + capture[l].len, p + 2; }
      }
    }

    /** match, a single-character item with its suffix. */
    method Item(s0: nat, p0: nat) returns (next: bool, r: Result, s: nat, p: nat)
      requires Ok() && s0 <= |src| && At(pat, p0) != '\0'
      modifies this
      ensures Ok() && s <= |src|
      ensures if next then p0 < p <= |pat| && Caps() == old(Caps()) && ItemAnswers(src, pat, s0, p0, old(Caps())) == Answers(src, pat, s, p, Caps())
        else First(r, ItemAnswers(src, pat, s0, p0, old(Caps())), old(Caps()), Caps())
      decreases |pat| + 1 - p0, 1
    {
      s, p, next, r := s0, p0, false, Null;
      var e := ClassEnd(pat, p);
      if e.None? { r := Raised; return; }
      var ep := e.value;
      var m := s < |src| && SingleMatch(pat, src[s], p, ep);
      ghost var caps := Caps();
      if At(pat, ep) == '?' {
        if m {
          r := DoMatch(s + 1, ep + 1);
          FirstOfTwo(r, Answers(src, pat, s + 1, ep + 1, caps), Answers(src, pat, s, ep + 1, caps), caps, Caps());
          if r != Null { return; }
        } else {
          assert [] + Answers(src, pat, s, ep + 1, caps) == Answers(src, pat, s, ep + 1, caps);
        }
        next, p := true, ep + 1;
      } else if At(pat, ep) == '*' {
        r := MaxExpand(s, p, ep);
      } else if At(pat, ep) == '+' {
        if m { r := MaxExpand(s + 1, p, ep); }
      } else if At(pat, ep) == '-' {
        r := MinExpand(s, p, ep);
      } else if m {
        next, s, p := true, s + 1, ep;
      }
    }

    /** str_find_aux, the search with a pattern: the first position from `init` on where the pattern matches,
        and its most preferred match there; with an anchor, only `init` is tried. */
    method Find(init: nat, p: nat, anchor: bool) returns (r: Result, s: nat)
      requires Ok() && init <= |src| && p <= |pat|
      modifies this
      ensures Ok() && init <= s && (anchor ==> s == init)
      ensures forall x :: init <= x < s && x <= |src| ==> Answers(src, pat, x, p, []) == []
      ensures if r == Null then s == |src| || anchor else s <= |src|
      ensures s <= |src| && First(r, Answers(src, pat, s, p, []), [], Caps())
    {
      s := init;
      while true
        invariant init <= s <= |src| && Ok() && (anchor ==> s == init)
        invariant forall x :: init <= x < s ==> Answers(src, pat, x, p, []) == []
        decreases |src| - s
      {
        level := 0;
        assert Caps() == [];
        r := DoMatch(s, p);
        if r != Null || s == |src| || anchor { return; }
        s := s + 1;
      }
    }
  }
}
