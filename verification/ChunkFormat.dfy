/** The format of precompiled chunks (src/ldump.c, src/lundump.c): the bytes of a function, and the function
    that bytes stand for. Sizes are those of a machine with 32-bit integers and 64-bit size_t and numbers. */
module ChunkFormat {
  import opened Basics

  type Byte = b: int | 0 <= b < 256

  /** A value and what follows it, or an error. */
  datatype Parsed<+T> = Got(value: T, rest: seq<Byte>) | Bad

  // ---------------------------------------------------------------- numbers

  function Power(w: nat): nat { if w == 0 then 1 else 256 * Power(w - 1) }

  /** w bytes, least significant first. */
  function EncNat(w: nat, x: nat): (s: seq<Byte>)
    ensures |s| == w
  {
    if w == 0 then [] else [x % 256] + EncNat(w - 1, x / 256)
  }

  function DecNat(s: seq<Byte>): nat { if s == [] then 0 else s[0] + 256 * DecNat(s[1..]) }

  lemma {:induction false} NatRoundTrip(w: nat, x: nat)
    requires x < Power(w)
    ensures DecNat(EncNat(w, x)) == x
  {
    if w > 0 {
      NatRoundTrip(w - 1, x / 256);
      assert EncNat(w, x)[1..] == EncNat(w - 1, x / 256);
    }
  }

  function Take(n: nat, s: seq<Byte>): (r: Parsed<seq<Byte>>)
    ensures r.Got? ==> |r.value| == n && s == r.value + r.rest
  {
    if |s| >= n then Got(s[..n], s[n..]) else Bad
  }

  lemma TakeExact(a: seq<Byte>, tail: seq<Byte>)
    ensures Take(|a|, a + tail) == Got(a, tail)
  {
  }

  function ReadNat(w: nat, s: seq<Byte>): (r: Parsed<nat>)
    ensures r.Got? ==> |r.rest| == |s| - w
  {
    match Take(w, s) case Bad => Bad case Got(b, rest) => Got(DecNat(b), rest)
  }

  lemma ReadNatBack(w: nat, x: nat, tail: seq<Byte>)
    requires x < Power(w)
    ensures ReadNat(w, EncNat(w, x) + tail) == Got(x, tail)
  {
    TakeExact(EncNat(w, x), tail);
    NatRoundTrip(w, x);
  }

  const INT: nat := 4
  const SIZE: nat := 8
  const NUMBER: nat := 8
  const INSTRUCTION: nat := 4
  const MAXINT: nat := 0x7fff_ffff

  /** LoadInt: negative integers are errors. */
  function ReadInt(s: seq<Byte>): (r: Parsed<nat>)
    ensures r.Got? ==> |r.rest| < |s|
  {
    match ReadNat(INT, s) case Bad => Bad case Got(x, rest) => if x > MAXINT then Bad else Got(x, rest)
  }

  lemma PowerInt()
    ensures Power(INT) == 0x1_0000_0000 && Power(1) == 256 && Power(SIZE) == 0x1_0000_0000_0000_0000
  {
    assert Power(2) == 65536;
    assert Power(4) == 256 * (256 * Power(2));
    assert Power(8) == 256 * (256 * (256 * (256 * Power(4))));
  }

  lemma ReadIntBack(x: nat, tail: seq<Byte>)
    requires x <= MAXINT
    ensures ReadInt(EncNat(INT, x) + tail) == Got(x, tail)
  {
    PowerInt();
    ReadNatBack(INT, x, tail);
  }

  // ---------------------------------------------------------------- strings

  /** A string, or null. */
  type Str = Option<seq<Byte>>

  ghost predicate StrOk(s: Str) { s.Some? ==> |s.value| + 1 < Power(SIZE) }

  /** DumpString: the size counts a trailing zero; null has size 0. */
  function EncStr(s: Str): seq<Byte> {
    match s
    case None => EncNat(SIZE, 0)
    case Some(t) => EncNat(SIZE, |t| + 1) + (t + [0])
  }

  /** LoadString */
  function ReadStr(s: seq<Byte>): (r: Parsed<Str>)
    ensures r.Got? ==> |r.rest| < |s|
  {
    match ReadNat(SIZE, s)
    case Bad => Bad
    case Got(size, rest) =>
      if size == 0 then Got(None, rest) else match Take(size, rest) case Bad => Bad case Got(b, rest') => Got(Some(b[..size - 1]), rest')
  }

  lemma ReadStrBack(s: Str, tail: seq<Byte>)
    requires StrOk(s)
    ensures ReadStr(EncStr(s) + tail) == Got(s, tail)
  {
    PowerInt();
    if s.None? {
      ReadNatBack(SIZE, 0, tail);
    } else {
      var t := s.value + [0];
      assert EncStr(s) + tail == EncNat(SIZE, |s.value| + 1) + (t + tail);
      ReadNatBack(SIZE, |s.value| + 1, t + tail);
      TakeExact(t, tail);
      assert t[..|s.value|] == s.value;
    }
  }

  // ---------------------------------------------------------------- vectors

  /** n numbers of w bytes. */
  function EncVec(w: nat, v: seq<nat>): seq<Byte> { if v == [] then [] else EncNat(w, v[0]) + EncVec(w, v[1..]) }

  function ReadVec(w: nat, n: nat, s: seq<Byte>): (r: Parsed<seq<nat>>)
    ensures r.Got? ==> |r.rest| <= |s| && |r.value| == n
  {
    if n == 0 then Got([], s)
    else
      match ReadNat(w, s)
      case Bad => Bad
      case Got(x, rest) => match ReadVec(w, n - 1, rest) case Bad => Bad case Got(v, rest') => Got([x] + v, rest')
  }

  lemma {:induction false} ReadVecBack(w: nat, v: seq<nat>, tail: seq<Byte>)
    requires forall i :: 0 <= i < |v| ==> v[i] < Power(w)
    ensures ReadVec(w, |v|, EncVec(w, v) + tail) == Got(v, tail)
    decreases |v|
  {
    if v != [] {
      var rest := EncVec(w, v[1..]) + tail;
      assert EncVec(w, v) + tail == EncNat(w, v[0]) + rest;
      ReadNatBack(w, v[0], rest);
      ReadVecBack(w, v[1..], tail);
      VecStep(w, |v|, EncVec(w, v) + tail, v[0], rest, v[1..], tail);
      assert v == [v[0]] + v[1..];
    } else {
      assert EncVec(w, v) + tail == tail;
    }
  }

  lemma VecStep(w: nat, n: nat, s: seq<Byte>, x: nat, rest: seq<Byte>, v: seq<nat>, tail: seq<Byte>)
    requires n > 0 && ReadNat(w, s) == Got(x, rest) && ReadVec(w, n - 1, rest) == Got(v, tail)
    ensures ReadVec(w, n, s) == Got([x] + v, tail)
  {
  }

  // ---------------------------------------------------------------- lists

  function App<S, T>(f: S -> T, x: S): T { f(x) }

  function EncList<T>(enc: T -> seq<Byte>, v: seq<T>): seq<Byte> { if v == [] then [] else App(enc, v[0]) + EncList(enc, v[1..]) }

  /** The decoder makes progress. */
  ghost predicate Consumes<T(!new)>(dec: seq<Byte> -> Parsed<T>) { forall s :: App(dec, s).Got? ==> |App(dec, s).rest| < |s| }

  function ReadList<T>(dec: seq<Byte> -> Parsed<T>, n: nat, s: seq<Byte>): (r: Parsed<seq<T>>)
    ensures r.Got? ==> |r.value| == n
  {
    if n == 0 then Got([], s)
    else
      match App(dec, s)
      case Bad => Bad
      case Got(x, rest) => match ReadList(dec, n - 1, rest) case Bad => Bad case Got(v, rest') => Got([x] + v, rest')
  }

  lemma {:induction false} ReadListLess<T(!new)>(dec: seq<Byte> -> Parsed<T>, n: nat, s: seq<Byte>)
    requires Consumes(dec)
    ensures ReadList(dec, n, s).Got? ==> |ReadList(dec, n, s).rest| <= |s|
  {
    if n > 0 && App(dec, s).Got? { ReadListLess(dec, n - 1, App(dec, s).rest); }
  }

  /** The decoder inverts the encoder on the elements of the list. */
  ghost predicate Inverts<T(!new)>(enc: T -> seq<Byte>, dec: seq<Byte> -> Parsed<T>, x: T) { forall tail :: App(dec, App(enc, x) + tail) == Got(x, tail) }

  lemma {:induction false} ReadListBack<T(!new)>(enc: T -> seq<Byte>, dec: seq<Byte> -> Parsed<T>, v: seq<T>, tail: seq<Byte>)
    requires forall i :: 0 <= i < |v| ==> Inverts(enc, dec, v[i])
    ensures ReadList(dec, |v|, EncList(enc, v) + tail) == Got(v, tail)
    decreases |v|
  {
    if v != [] {
      var rest := EncList(enc, v[1..]) + tail;
      assert EncList(enc, v) + tail == App(enc, v[0]) + rest;
      assert Inverts(enc, dec, v[0]);
      ReadListBack(enc, dec, v[1..], tail);
      assert v == [v[0]] + v[1..];
    } else {
      assert EncList(enc, v) + tail == tail;
    }
  }
}
