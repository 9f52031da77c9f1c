/** Single characters and character classes of patterns (src/lstrlib.c; section 5.4.1 of the Lua 5.1 Reference
    Manual), in the C locale. */
module PatternSyntax {
  import opened Basics

  /** The character at p; a pattern ends with a zero byte. */
  function At(t: string, p: int): char { if 0 <= p < |t| then t[p] else '\0' }

  const ESC: char := '%'

  predicate IsUpper(c: char) { 'A' <= c <= 'Z' }
  predicate IsLower(c: char) { 'a' <= c <= 'z' }
  predicate IsAlpha(c: char) { IsUpper(c) || IsLower(c) }
  predicate IsDigit(c: char) { '0' <= c <= '9' }
  predicate IsAlnum(c: char) { IsAlpha(c) || IsDigit(c) }
  predicate IsControl(c: char) { c as int < 32 || c as int == 127 }
  predicate IsSpace(c: char) { c == ' ' || 9 <= c as int <= 13 }
  predicate IsPunct(c: char) { 33 <= c as int <= 126 && !IsAlnum(c) }
  predicate IsHex(c: char) { IsDigit(c) || 'a' <= c <= 'f' || 'A' <= c <= 'F' }

  function ToLower(c: char): char { if IsUpper(c) then (c as int + 32) as char else c }

  /** match_class */
  predicate MatchClass(c: char, cl: char) {
    var l := ToLower(cl);
    if l in "acdlpsuwxz" then
      var res :=
        if l == 'a' then IsAlpha(c) else if l == 'c' then IsControl(c) else if l == 'd' then IsDigit(c)
        else if l == 'l' then IsLower(c) else if l == 'p' then IsPunct(c) else if l == 's' then IsSpace(c)
        else if l == 'u' then IsUpper(c) else if l == 'w' then IsAlnum(c) else if l == 'x' then IsHex(c) else c == '\0';
      IsLower(cl) == res
    else cl == c
  }

  /** The loop of classend inside brackets: where the set ends, or an error. */
  function SetEnd(t: string, p: nat): (e: Option<nat>)
    ensures e.Some? ==> p < e.value <= |t|
    decreases |t| + 1 - p
  {
    if At(t, p) == '\0' then None
    else
      var q := if At(t, p) == ESC && At(t, p + 1) != '\0' then p + 2 else p + 1;
      if At(t, q) == ']' then Some(q + 1) else if q < |t| then SetEnd(t, q) else None
  }

  /** classend: the position behind a single-character item. */
  function ClassEnd(t: string, p: nat): (e: Option<nat>)
    requires At(t, p) != '\0'
    ensures e.Some? ==> p < e.value <= |t|
  {
    if At(t, p) == ESC then if At(t, p + 1) == '\0' then None else Some(p + 2)
    else if At(t, p) == '[' then SetEnd(t, if At(t, p + 1) == '^' then p + 2 else p + 1)
    else Some(p + 1)
  }

  /** The loop of matchbracketclass: c is in the set between p and ec. */
  predicate InSet(t: string, c: char, p: nat, ec: int)
    decreases ec - p
  {
    if p >= ec then false
    else if At(t, p) == ESC then MatchClass(c, At(t, p + 1)) || InSet(t, c, p + 2, ec)
    else if At(t, p + 1) == '-' && p + 2 < ec then (At(t, p) <= c <= At(t, p + 2)) || InSet(t, c, p + 3, ec)
    else At(t, p) == c || InSet(t, c, p + 1, ec)
  }

  /** matchbracketclass */
  predicate MatchBracket(t: string, c: char, p: nat, ec: int) {
    if At(t, p + 1) == '^' then !InSet(t, c, p + 2, ec) else InSet(t, c, p + 1, ec)
  }

  /** singlematch */
  predicate SingleMatch(t: string, c: char, p: nat, ep: int) {
    if At(t, p) == '.' then true
    else if At(t, p) == ESC then MatchClass(c, At(t, p + 1))
    else if At(t, p) == '[' then MatchBracket(t, c, p, ep - 1)
    else At(t, p) == c
  }
}
