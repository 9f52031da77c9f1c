/** string.format("%q") against the lexer (src/lstrlib.c, addquoted; src/llex.c, read_string): reading a quoted
    string gives the string back. */
module Quoting {
  import opened Basics

  // ---------------------------------------------------------------- quoting

  function QuoteChar(c: char): string {
    if c == '"' || c == '\\' || c == '\n' then ['\\', c]
    else if c == '\r' then "\\r"
    else if c == '\0' then "\\000"
    else [c]
  }

  function QuoteBody(s: string): string { if s == [] then [] else QuoteChar(s[0]) + QuoteBody(s[1..]) }

  function Quote(s: string): string { ['"'] + QuoteBody(s) + ['"'] }

  /** addquoted */
  method AddQuoted(s: string) returns (b: string)
    ensures b == Quote(s)
  {
    b := ['"'];
    var i := 0;
    while i < |s|
      invariant 0 <= i <= |s| && b + QuoteBody(s[i..]) == ['"'] + QuoteBody(s)
    {
      assert s[i..][1..] == s[i + 1..];
      Regroup(b, QuoteChar(s[i]), QuoteBody(s[i + 1..]));
      if s[i] == '"' || s[i] == '\\' || s[i] == '\n' {
        b := b + ['\\', s[i]];
      } else if s[i] == '\r' {
        b := b + "\\r";
      } else if s[i] == '\0' {
        b := b + "\\000";
      } else {
        b := b + [s[i]];
      }
      i := i + 1;
    }
    assert b + [] == b;
    b := b + ['"'];
  }

  lemma Regroup(a: string, b: string, c: string)
    ensures (a + b) + c == a + (b + c)
  {
  }

  // ---------------------------------------------------------------- reading

  predicate IsDigit(c: char) { '0' <= c <= '9' }

  function DigitValue(c: char): nat
    requires IsDigit(c)
  {
    c as nat - '0' as nat
  }

  /** \ddd: the value of up to k more digits from j on, and where they end. */
  function Digits(t: string, j: nat, k: nat, c: nat): (nat, nat)
    requires j <= |t|
    ensures j <= Digits(t, j, k, c).1 <= |t|
    decreases k
  {
    if k > 0 && j < |t| && IsDigit(t[j]) then Digits(t, j + 1, k - 1, 10 * c + DigitValue(t[j])) else (c, j)
  }

  predicate IsNewline(c: char) { c == '\n' || c == '\r' }

  /** inclinenumber skips \n, \r, \n\r or \r\n. */
  function SkipNewline(t: string, j: nat): (k: nat)
    requires j < |t|
    ensures j < k <= |t|
  {
    if j + 1 < |t| && IsNewline(t[j + 1]) && t[j + 1] != t[j] then j + 2 else j + 1
  }

  /** \a, \b, \f, \n, \r, \t, \v */
  function Simple(e: char): Option<char> {
    if e == 'a' then Some(7 as char) else if e == 'b' then Some(8 as char) else if e == 'f' then Some(12 as char)
    else if e == 'n' then Some('\n') else if e == 'r' then Some('\r') else if e == 't' then Some('\t') else if e == 'v' then Some(11 as char)
    else None
  }

  /** One character of the string and where the next one starts; None is an error. */
  function Next(t: string, i: nat): (r: Option<(char, nat)>)
    requires i < |t|
    ensures r.Some? ==> i < r.value.1 <= |t|
  {
    if IsNewline(t[i]) then None
    else if t[i] != '\\' then Some((t[i], i + 1))
    else if i + 1 == |t| then None
    else
      var e := t[i + 1];
      if Simple(e).Some? then Some((Simple(e).value, i + 2))
      else if IsNewline(e) then Some(('\n', SkipNewline(t, i + 1)))
      else if IsDigit(e) then
        var d := Digits(t, i + 1, 3, 0);
        if d.0 > 255 then None else Some((d.0 as char, d.1))
      else Some((e, i + 2))
  }

  /** The rest of a string literal from i on, and where it ends. */
  function Scan(t: string, i: nat, del: char): Option<(string, nat)>
    decreases |t| - i
  {
    if i >= |t| then None
    else if t[i] == del then Some(([], i + 1))
    else
      match Next(t, i)
      case None => None
      case Some((c, j)) => match Scan(t, j, del) case None => None case Some((s, k)) => Some(([c] + s, k))
  }

  /** The lexer's state: what it reads, where it is, and the token so far. */
  class LexState {
    const input: string
    var pos: nat
    var buff: string
    var linenumber: nat

    constructor (input: string)
      ensures this.input == input && pos == 0 && buff == []
    {
      this.input, pos, buff, linenumber := input, 0, [], 1;
    }

    /** The escape \ddd of read_string. */
    method ReadDecimal() returns (c: nat)
      requires pos < |input| && IsDigit(input[pos])
      modifies this`pos
      ensures (c, pos) == Digits(input, old(pos), 3, 0)
    {
      var i := 0;
      c := 0;
      while i < 3 && pos < |input| && IsDigit(input[pos])
        invariant 0 <= i <= 3 && old(pos) <= pos <= |input| && Digits(input, old(pos), 3, 0) == Digits(input, pos, 3 - i, c)
        decreases 3 - i
      {
        c := 10 * c + DigitValue(input[pos]);
        pos := pos + 1;
        i := i + 1;
      }
    }

    /** One round of read_string behind a backslash. */
    method ReadEscape() returns (ok: bool)
      requires pos + 1 < |input| && input[pos] == '\\'
      modifies this`pos, this`buff, this`linenumber
      ensures var n := Next(input, old(pos)); ok <==> n.Some?
      ensures ok ==> var n := Next(input, old(pos)).value; buff == old(buff) + [n.0] && pos == n.1
    {
      pos := pos + 1;
      var e := input[pos];
      if Simple(e).Some? {
        buff := buff + [Simple(e).value];
        pos := pos + 1;
      } else if IsNewline(e) {
        buff := buff + ['\n'];
        pos := SkipNewline(input, pos);
        linenumber := linenumber + 1;
      } else if IsDigit(e) {
        var c := ReadDecimal();
        if c > 255 { return false; }
        buff := buff + [c as char];
      } else {
        buff := buff + [e];
        pos := pos + 1;
      }
      return true;
    }

    /** read_string, behind the opening delimiter; None is a syntax error. */
    method ReadString(del: char) returns (r: Option<string>)
      requires pos <= |input|
      modifies this
      ensures match Scan(input, old(pos), del) case None => r == None case Some((s, k)) => r == Some(s) && pos == k
    {
      ghost var start := pos;
      buff := [];
      assert Scan(input, pos, del).Some? ==> [] + Scan(input, pos, del).value.0 == Scan(input, pos, del).value.0;
      while pos < |input| && input[pos] != del
        invariant pos <= |input|
        invariant Scan(input, start, del) == (match Scan(input, pos, del) case None => None case Some((s, k)) => Some((buff + s, k)))
        decreases |input| - pos
      {
        ghost var i, before := pos, buff;
        if IsNewline(input[pos]) { return None; }
        if input[pos] == '\\' {
          if pos + 1 == |input| { return None; }
          var ok := ReadEscape();
          if !ok { return None; }
        } else {
          buff := buff + [input[pos]];
          pos := pos + 1;
        }
        ScanStep(input, i, del, before);
      }
      if pos == |input| { return None; }
      pos := pos + 1;
      assert buff + [] == buff;
      r := Some(buff);
    }
  }

  lemma ScanStep(t: string, i: nat, del: char, acc: string)
    requires i < |t| && t[i] != del && Next(t, i).Some?
    ensures var n := Next(t, i).value;
      (match Scan(t, i, del) case None => None case Some((s, k)) => Some((acc + s, k))) ==
      (match Scan(t, n.1, del) case None => None case Some((s, k)) => Some((acc + [n.0] + s, k)))
  {
    var n := Next(t, i).value;
    var r := Scan(t, n.1, del);
    if r.Some? { Regroup(acc, [n.0], r.value.0); }
  }

  // ---------------------------------------------------------------- the round trip

  /** A carriage return never follows a newline unquoted, so the lexer does not take the two as one. */
  lemma NoReturn(s: string, rest: string)
    ensures (QuoteBody(s) + (['"'] + rest))[0] != '\r'
  {
    if s != [] { assert QuoteBody(s)[0] == QuoteChar(s[0])[0]; }
  }

  /** One quoted character is read back; the digits of \000 never run on into what follows. */
  lemma NextBack(t: string, i: nat, c: char, rest: string) returns (j: nat)
    requires c as int < 256 && rest != [] && rest[0] != '\r' && i <= |t| && t[i..] == QuoteChar(c) + rest
    ensures i < |t| && t[i] != '"' && Next(t, i) == Some((c, j)) && j == i + |QuoteChar(c)| <= |t| && t[j..] == rest
  {
    j := i + |QuoteChar(c)|;
    var f, q := t[i..], QuoteChar(c);
    assert t[i] == f[0] == q[0];
    if |q| > 1 { assert t[i + 1] == f[1] == q[1]; }
    if |q| == 2 { assert t[i + 2] == f[2] == rest[0]; }
    if c == '\0' {
      assert t[i + 2] == f[2] == '0' && t[i + 3] == f[3] == '0';
      assert Digits(t, i + 3, 1, 0) == Digits(t, i + 4, 0, 0);
      assert Digits(t, i + 2, 2, 0) == Digits(t, i + 3, 1, 0);
    }
    assert t[i + |q|..] == f[|q|..];
  }

  /** What is still to be read at i: the quoted characters of s and a closing quote. */
  ghost predicate Ahead(t: string, rest: string, i: nat, s: string) { Bytes(s) && i <= |t| && t[i..] == QuoteBody(s) + (['"'] + rest) }

  function After(i: nat, s: string): nat { if s == [] then i else i + |QuoteChar(s[0])| }

  lemma AheadStep(t: string, rest: string, i: nat, s: string)
    requires Ahead(t, rest, i, s) && s != []
    ensures i < |t| && t[i] != '"' && Next(t, i) == Some((s[0], After(i, s))) && Ahead(t, rest, After(i, s), s[1..])
  {
    Regroup(QuoteChar(s[0]), QuoteBody(s[1..]), ['"'] + rest);
    NoReturn(s[1..], rest);
    var j := NextBack(t, i, s[0], QuoteBody(s[1..]) + (['"'] + rest));
  }

  lemma AheadEnd(t: string, rest: string, i: nat)
    requires Ahead(t, rest, i, [])
    ensures i < |t| && t[i] == '"'
  {
    assert t[i..][0] == '"';
  }

  /** Character by character, for any way of saying what is ahead. */
  lemma {:induction false} ScanAll(t: string, h: (nat, string) -> bool, i: nat, s: string)
    requires h(i, s)
    requires forall j: nat {:trigger h(j, [])} :: h(j, []) ==> j < |t| && t[j] == '"'
    requires forall j: nat, x: string {:trigger h(j, x)} :: h(j, x) && x != [] ==>
      j < |t| && t[j] != '"' && Next(t, j) == Some((x[0], After(j, x))) && h(After(j, x), x[1..])
    ensures Scan(t, i, '"').Some? && Scan(t, i, '"').value.0 == s && Scan(t, i, '"').value.1 >= 1 && h(Scan(t, i, '"').value.1 - 1, [])
    decreases |s|
  {
    if s != [] {
      ScanAll(t, h, After(i, s), s[1..]);
      assert s == [s[0]] + s[1..];
    }
  }

  lemma ScanBack(t: string, i: nat, s: string, rest: string)
    requires Ahead(t, rest, i, s)
    ensures Scan(t, i, '"') == Some((s, |t| - |rest|))
  {
    var h := (j: nat, x: string) => Ahead(t, rest, j, x);
    forall j: nat | h(j, []) ensures j < |t| && t[j] == '"' { AheadEnd(t, rest, j); }
    forall j: nat, x: string | h(j, x) && x != []
      ensures j < |t| && t[j] != '"' && Next(t, j) == Some((x[0], After(j, x))) && h(After(j, x), x[1..])
    {
      AheadStep(t, rest, j, x);
    }
    ScanAll(t, h, i, s);
    var e := Scan(t, i, '"').value.1;
    assert Ahead(t, rest, e - 1, []);
    assert |t[e - 1..]| == 1 + |rest|;
  }

  // ---------------------------------------------------------------- what is written and read

  /** What stands for a character: quotes, backslashes and newlines get a backslash, carriage returns and zeros are
      written out, and all else is itself. */
  function Written(c: char): string {
    match c as int
    case 34 => "\\\""
    case 92 => "\\\\"
    case 10 => "\\\n"
    case 13 => "\\r"
    case 0 => "\\000"
    case _ => [c]
  }

  /** The output is that for each character, in order, between quotes. */
  lemma {:induction false} QuoteEach(s: string, c: char, t: string)
    ensures Quote([]) == "\"\"" && QuoteBody([]) == [] && Quote(s) == "\"" + QuoteBody(s) + "\""
    ensures QuoteBody(s + [c] + t) == QuoteBody(s) + Written(c) + QuoteBody(t)
    decreases |s|
  {
    var all := s + [c] + t;
    if s == [] {
      assert all[0] == c && all[1..] == t;
    } else {
      assert all[0] == s[0] && all[1..] == s[1..] + [c] + t;
      QuoteEach(s[1..], c, t);
    }
  }

  /** Outside of escapes: line breaks are errors, and all else is itself. */
  lemma PlainLaw(t: string, i: nat)
    requires i < |t| && t[i] != '\\'
    ensures Next(t, i) == if t[i] == '\n' || t[i] == '\r' then None else Some((t[i], i + 1))
  {
  }

  /** The escapes that are no numbers (section 2.1 of the Lua 5.1 Reference Manual): the letters a b f n r t v, a line
      break, which counts as one newline also if it has two characters, and any other character, which is itself. */
  lemma EscapeLaw(t: string, i: nat)
    requires i < |t| && t[i] == '\\'
    ensures i + 1 == |t| ==> Next(t, i) == None
    ensures i + 1 < |t| ==>
      var e, j := t[i + 1], i + 2;
      && (e == 'a' ==> Next(t, i) == Some((7 as char, j))) && (e == 'b' ==> Next(t, i) == Some((8 as char, j)))
      && (e == 't' ==> Next(t, i) == Some((9 as char, j))) && (e == 'n' ==> Next(t, i) == Some((10 as char, j)))
      && (e == 'v' ==> Next(t, i) == Some((11 as char, j))) && (e == 'f' ==> Next(t, i) == Some((12 as char, j)))
      && (e == 'r' ==> Next(t, i) == Some((13 as char, j)))
      && (e == '\n' ==> Next(t, i) == Some(('\n', if j < |t| && t[j] == '\r' then j + 1 else j)))
      && (e == '\r' ==> Next(t, i) == Some(('\n', if j < |t| && t[j] == '\n' then j + 1 else j)))
      && (e !in "abtnvfr\n\r0123456789" ==> Next(t, i) == Some((e, j)))
  {
  }

  ghost predicate DigitAt(t: string, j: nat) { j < |t| && '0' <= t[j] <= '9' }

  function Worth(t: string, j: nat): int { if j < |t| then t[j] as int - '0' as int else 0 }

  /** A backslash and up to three digits: the character with that code, or an error beyond 255. */
  lemma DecimalLaw(t: string, i: nat)
    requires i < |t| && t[i] == '\\' && DigitAt(t, i + 1)
    ensures !DigitAt(t, i + 2) ==> Next(t, i) == Some((Worth(t, i + 1) as char, i + 2))
    ensures DigitAt(t, i + 2) && !DigitAt(t, i + 3) ==> Next(t, i) == Some(((Worth(t, i + 1) * 10 + Worth(t, i + 2)) as char, i + 3))
    ensures DigitAt(t, i + 2) && DigitAt(t, i + 3) ==>
      var code := Worth(t, i + 1) * 100 + Worth(t, i + 2) * 10 + Worth(t, i + 3);
      Next(t, i) == if code > 255 then None else Some((code as char, i + 4))
  {
    var a := Worth(t, i + 1);
    assert Digits(t, i + 1, 3, 0) == Digits(t, i + 2, 2, a);
    if DigitAt(t, i + 2) {
      var b := 10 * a + Worth(t, i + 2);
      assert Digits(t, i + 2, 2, a) == Digits(t, i + 3, 1, b);
      if DigitAt(t, i + 3) { assert Digits(t, i + 3, 1, b) == Digits(t, i + 4, 0, 10 * b + Worth(t, i + 3)); }
    }
  }

  predicate Bytes(s: string) { forall k :: 0 <= k < |s| ==> s[k] as int < 256 }

  /** Reading the output of addquoted gives back exactly the string, whatever follows. */
  method QuoteAndRead(s: string, rest: string) returns (r: Option<string>, end: nat)
    requires Bytes(s)
    ensures r == Some(s) && end == |Quote(s)|
  {
    var b := AddQuoted(s);
    var ls := new LexState(b + rest);
    ls.pos := 1;
    assert (b + rest)[1..] == QuoteBody(s) + (['"'] + rest);
    ScanBack(b + rest, 1, s, rest);
    r := ls.ReadString('"');
    end := ls.pos;
  }
}
