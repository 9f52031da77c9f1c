/** Whole function prototypes as bytes (src/ldump.c, src/lundump.c): loading inverts dumping. */
module ChunkProto {
  import opened Basics
  import opened ChunkFormat
  import opened ChunkFunction

  const MAXCCALLS: nat := 200

  // ---------------------------------------------------------------- the fields before the constants

  /** What a function's dump begins with. */
  datatype Head = Head(source: Str, linedefined: nat, lastlinedefined: nat, nups: Byte, numparams: Byte, isvararg: Byte, maxstacksize: Byte, code: seq<nat>)

  function HeadOf(f: Proto, source: Str): Head {
    Head(source, f.linedefined, f.lastlinedefined, f.nups, f.numparams, f.isvararg, f.maxstacksize, f.code)
  }

  function EncHead(h: Head): seq<Byte> {
    EncStr(h.source) + (EncNat(INT, h.linedefined) + (EncNat(INT, h.lastlinedefined) +
      ([h.nups, h.numparams, h.isvararg, h.maxstacksize] + EncVector(INSTRUCTION, h.code))))
  }

  function ReadHead(s: seq<Byte>): (r: Parsed<Head>)
    ensures r.Got? ==> |r.rest| < |s|
  {
    match ReadStr(s)
    case Bad => Bad
    case Got(source, s1) =>
      match ReadInt(s1)
      case Bad => Bad
      case Got(a, s2) =>
        match ReadInt(s2)
        case Bad => Bad
        case Got(b, s3) =>
          match Take(4, s3)
          case Bad => Bad
          case Got(c, s4) =>
            match ReadVector(INSTRUCTION, s4)
            case Bad => Bad
            case Got(code, s5) => Got(Head(source, a, b, c[0], c[1], c[2], c[3], code), s5)
  }

  ghost predicate HeadOk(h: Head) {
    && StrOk(h.source) && h.linedefined <= MAXINT && h.lastlinedefined <= MAXINT
    && |h.code| <= MAXINT && (forall i :: 0 <= i < |h.code| ==> h.code[i] < Power(INSTRUCTION))
  }

  lemma HeadBack(h: Head, tail: seq<Byte>)
    requires HeadOk(h)
    ensures ReadHead(EncHead(h) + tail) == Got(h, tail)
  {
    var flags := [h.nups, h.numparams, h.isvararg, h.maxstacksize];
    var t4 := EncVector(INSTRUCTION, h.code) + tail;
    var t3 := flags + t4;
    var t2 := EncNat(INT, h.lastlinedefined) + t3;
    var t1 := EncNat(INT, h.linedefined) + t2;
    assert EncHead(h) + tail == EncStr(h.source) + t1;
    ReadStrBack(h.source, t1);
    ReadIntBack(h.linedefined, t2);
    ReadIntBack(h.lastlinedefined, t3);
    TakeExact(flags, t4);
    VectorBack(INSTRUCTION, h.code, tail);
  }

  // ---------------------------------------------------------------- functions

  /** The source that is dumped: none if it is that of the enclosing function. */
  function DumpedSource(f: Proto, parent: Str, strip: bool): Str { if f.source == parent || strip then None else f.source }

  /** DumpFunction */
  function EncProto(f: Proto, parent: Str, strip: bool): seq<Byte>
    decreases f
  {
    EncHead(HeadOf(f, DumpedSource(f, parent, strip))) + (EncCounted(EncConst, f.k) +
      (EncNat(INT, |f.p|) + (EncProtos(f.p, f.source, strip) + EncDebug(f, strip))))
  }

  function EncProtos(ps: seq<Proto>, parent: Str, strip: bool): seq<Byte>
    decreases ps
  {
    if ps == [] then [] else EncProto(ps[0], parent, strip) + EncProtos(ps[1..], parent, strip)
  }

  /** luaG_checkcode */
  type Check = Proto -> bool

  function Accepts(check: Check, f: Proto): bool { check(f) }

  /** LoadFunction */
  function ReadProto(check: Check, depth: nat, parent: Str, s: seq<Byte>): (r: Parsed<Proto>)
    ensures r.Got? ==> |r.rest| < |s|
    decreases |s|, 1
  {
    if depth + 1 > MAXCCALLS then Bad
    else
      match ReadHead(s)
      case Bad => Bad
      case Got(h, s1) => ReadTail(check, depth, if h.source == None then parent else h.source, h, s1, |s|)
  }

  /** LoadFunction, from the constants on. */
  function ReadTail(check: Check, depth: nat, source: Str, h: Head, s: seq<Byte>, ghost bound: nat): (r: Parsed<Proto>)
    requires |s| < bound
    ensures r.Got? ==> |r.rest| < bound
    decreases bound, 0
  {
    match ReadCounted(ReadConst, s)
    case Bad => Bad
    case Got(k, s2) =>
      CountedLess(ReadConst, s);
      match ReadInt(s2)
      case Bad => Bad
      case Got(n, s3) =>
        match ReadProtos(check, depth + 1, n, source, s3)
        case Bad => Bad
        case Got(ps, s4) =>
          match ReadDebug(s4)
          case Bad => Bad
          case Got((lines, vars, ups), s5) =>
            DebugLess(s4);
            var f := Whole(source, h, k, ps, lines, vars, ups);
            if Accepts(check, f) then Got(f, s5) else Bad
  }

  lemma CountedLess<T(!new)>(dec: seq<Byte> -> Parsed<T>, s: seq<Byte>)
    requires Consumes(dec)
    ensures ReadCounted(dec, s).Got? ==> |ReadCounted(dec, s).rest| < |s|
  {
    if ReadInt(s).Got? { ReadListLess(dec, ReadInt(s).value, ReadInt(s).rest); }
  }

  lemma DebugLess(s: seq<Byte>)
    ensures ReadDebug(s).Got? ==> |ReadDebug(s).rest| < |s|
  {
    if ReadVector(INT, s).Got? {
      var s1 := ReadVector(INT, s).rest;
      CountedLess(ReadLocVar, s1);
      if ReadCounted(ReadLocVar, s1).Got? { CountedLess(ReadStr, ReadCounted(ReadLocVar, s1).rest); }
    }
  }

  function ReadProtos(check: Check, depth: nat, n: nat, parent: Str, s: seq<Byte>): (r: Parsed<seq<Proto>>)
    ensures r.Got? ==> |r.rest| <= |s| && |r.value| == n
    decreases |s|, 2
  {
    if n == 0 then Got([], s)
    else
      match ReadProto(check, depth, parent, s)
      case Bad => Bad
      case Got(f, rest) => match ReadProtos(check, depth, n - 1, parent, rest) case Bad => Bad case Got(ps, rest') => Got([f] + ps, rest')
  }

  // ---------------------------------------------------------------- the round trip

  /** The source that a loaded function has, if its enclosing function has `loaded`. */
  function LoadedSource(f: Proto, parent: Str, loaded: Str, strip: bool): Str {
    if DumpedSource(f, parent, strip) == None then loaded else f.source
  }

  /** What comes back from a dump: missing sources are inherited, and debug information may be stripped. */
  function Restored(f: Proto, parent: Str, loaded: Str, strip: bool): Proto
    decreases f
  {
    var source := LoadedSource(f, parent, loaded, strip);
    var g := if strip then f.(lineinfo := [], locvars := [], upvalues := []) else f;
    g.(source := source, p := RestoredAll(f.p, f.source, source, strip))
  }

  function RestoredAll(ps: seq<Proto>, parent: Str, loaded: Str, strip: bool): (r: seq<Proto>)
    ensures |r| == |ps|
    decreases ps
  {
    if ps == [] then [] else [Restored(ps[0], parent, loaded, strip)] + RestoredAll(ps[1..], parent, loaded, strip)
  }

  /** All numbers fit into their fields. */
  ghost predicate ProtoOk(f: Proto)
    decreases f
  {
    && HeadOk(HeadOf(f, f.source)) && DebugOk(f)
    && |f.k| <= MAXINT && (forall i :: 0 <= i < |f.k| ==> ConstOk(f.k[i]))
    && |f.p| <= MAXINT && forall i :: 0 <= i < |f.p| ==> ProtoOk(f.p[i])
  }

  /** Functions are nested at most n deep. */
  ghost predicate Depth(f: Proto, n: nat)
    decreases f
  {
    n > 0 && forall i :: 0 <= i < |f.p| ==> Depth(f.p[i], n - 1)
  }

  /** The code check accepts the function and all functions in it. */
  ghost predicate AllAccepted(check: Check, f: Proto)
    decreases f
  {
    check(f) && forall i :: 0 <= i < |f.p| ==> AllAccepted(check, f.p[i])
  }

  /** Depth, sizes and the code check allow the function to be loaded. */
  ghost predicate Loadable(check: Check, depth: nat, f: Proto, r: Proto) {
    depth <= MAXCCALLS && ProtoOk(f) && Depth(f, MAXCCALLS - depth) && AllAccepted(check, r)
  }

  lemma LoadableParts(check: Check, depth: nat, f: Proto, parent: Str, loaded: Str, strip: bool)
    requires Loadable(check, depth, f, Restored(f, parent, loaded, strip))
    ensures var rs := RestoredAll(f.p, f.source, LoadedSource(f, parent, loaded, strip), strip);
      depth < MAXCCALLS && |f.p| <= MAXINT && forall i :: 0 <= i < |f.p| ==> Loadable(check, depth + 1, f.p[i], rs[i])
  {
    var r, rs := Restored(f, parent, loaded, strip), RestoredAll(f.p, f.source, LoadedSource(f, parent, loaded, strip), strip);
    assert r.p == rs;
    forall i | 0 <= i < |f.p| ensures Loadable(check, depth + 1, f.p[i], rs[i]) { assert AllAccepted(check, r.p[i]) && ProtoOk(f.p[i]) && Depth(f.p[i], MAXCCALLS - depth - 1); }
  }

  lemma EncProtosSplit(ps: seq<Proto>, parent: Str, strip: bool, tail: seq<Byte>)
    requires ps != []
    ensures EncProtos(ps, parent, strip) + tail == EncProto(ps[0], parent, strip) + (EncProtos(ps[1..], parent, strip) + tail)
  {
  }

  lemma {:induction false} ProtosBack(check: Check, depth: nat, ps: seq<Proto>, parent: Str, loaded: Str, strip: bool, tail: seq<Byte>)
    requires forall i :: 0 <= i < |ps| ==> Loadable(check, depth, ps[i], RestoredAll(ps, parent, loaded, strip)[i])
    ensures ReadProtos(check, depth, |ps|, loaded, EncProtos(ps, parent, strip) + tail) == Got(RestoredAll(ps, parent, loaded, strip), tail)
    decreases ps
  {
    if ps == [] {
      assert EncProtos(ps, parent, strip) + tail == tail;
    } else {
      var rest := EncProtos(ps[1..], parent, strip) + tail;
      var all, more := RestoredAll(ps, parent, loaded, strip), RestoredAll(ps[1..], parent, loaded, strip);
      assert all == [Restored(ps[0], parent, loaded, strip)] + more;
      assert Loadable(check, depth, ps[0], all[0]);
      forall i | 0 <= i < |more| ensures Loadable(check, depth, ps[1..][i], more[i]) { assert Loadable(check, depth, ps[i + 1], all[i + 1]); }
      EncProtosSplit(ps, parent, strip, tail);
      ProtoBack(check, depth, ps[0], parent, loaded, strip, rest);
      ProtosBack(check, depth, ps[1..], parent, loaded, strip, tail);
      ProtosStep(check, depth, |ps|, loaded, EncProtos(ps, parent, strip) + tail, all[0], rest, more, tail);
    }
  }

  lemma ProtosStep(check: Check, depth: nat, n: nat, parent: Str, s: seq<Byte>, f: Proto, rest: seq<Byte>, ps: seq<Proto>, tail: seq<Byte>)
    requires n > 0 && ReadProto(check, depth, parent, s) == Got(f, rest) && ReadProtos(check, depth, n - 1, parent, rest) == Got(ps, tail)
    ensures ReadProtos(check, depth, n, parent, s) == Got([f] + ps, tail)
  {
  }

  /** The parts of a function, one after the other. */
  lemma TailStep(check: Check, depth: nat, source: Str, h: Head, s: seq<Byte>, bound: nat, k: seq<Const>, s2: seq<Byte>, n: nat, s3: seq<Byte>,
    ps: seq<Proto>, s4: seq<Byte>, lines: seq<nat>, vars: seq<LocVar>, ups: seq<Str>, s5: seq<Byte>)
    requires |s| < bound && ReadCounted(ReadConst, s) == Got(k, s2) && ReadInt(s2) == Got(n, s3)
    requires |s3| < bound && ReadProtos(check, depth + 1, n, source, s3) == Got(ps, s4) && ReadDebug(s4) == Got((lines, vars, ups), s5)
    requires Accepts(check, Whole(source, h, k, ps, lines, vars, ups))
    ensures ReadTail(check, depth, source, h, s, bound) == Got(Whole(source, h, k, ps, lines, vars, ups), s5)
  {
  }

  function Whole(source: Str, h: Head, k: seq<Const>, ps: seq<Proto>, lines: seq<nat>, vars: seq<LocVar>, ups: seq<Str>): Proto {
    Proto(source, h.linedefined, h.lastlinedefined, h.nups, h.numparams, h.isvararg, h.maxstacksize, h.code, k, ps, lines, vars, ups)
  }

  /** What follows the head of a function. */
  function EncTail(f: Proto, strip: bool, tail: seq<Byte>): seq<Byte> {
    EncCounted(EncConst, f.k) + (EncNat(INT, |f.p|) + (EncProtos(f.p, f.source, strip) + (EncDebug(f, strip) + tail)))
  }

  lemma EncProtoSplit(f: Proto, parent: Str, strip: bool, tail: seq<Byte>)
    ensures EncProto(f, parent, strip) + tail == EncHead(HeadOf(f, DumpedSource(f, parent, strip))) + EncTail(f, strip, tail)
  {
    Regroup(EncHead(HeadOf(f, DumpedSource(f, parent, strip))), EncCounted(EncConst, f.k), EncNat(INT, |f.p|), EncProtos(f.p, f.source, strip), EncDebug(f, strip), tail);
  }

  lemma Regroup(h: seq<Byte>, a: seq<Byte>, b: seq<Byte>, c: seq<Byte>, d: seq<Byte>, t: seq<Byte>)
    ensures (h + (a + (b + (c + d)))) + t == h + (a + (b + (c + (d + t))))
  {
    assert (c + d) + t == c + (d + t);
    assert (b + (c + d)) + t == b + ((c + d) + t);
    assert (a + (b + (c + d))) + t == a + ((b + (c + d)) + t);
  }

  /** Loading what was dumped gives the function back, and consumes exactly its bytes. */
  lemma {:induction false} ProtoBack(check: Check, depth: nat, f: Proto, parent: Str, loaded: Str, strip: bool, tail: seq<Byte>)
    requires Loadable(check, depth, f, Restored(f, parent, loaded, strip))
    ensures ReadProto(check, depth, loaded, EncProto(f, parent, strip) + tail) == Got(Restored(f, parent, loaded, strip), tail)
    decreases f, 1
  {
    var source, h := LoadedSource(f, parent, loaded, strip), HeadOf(f, DumpedSource(f, parent, strip));
    LoadableParts(check, depth, f, parent, loaded, strip);
    EncProtoSplit(f, parent, strip, tail);
    HeadOkAny(f, parent, strip);
    HeadBack(h, EncTail(f, strip, tail));
    ProtosBack(check, depth + 1, f.p, f.source, source, strip, EncDebug(f, strip) + tail);
    TailBack(check, depth, f, source, h, RestoredAll(f.p, f.source, source, strip), strip, tail, |EncHead(h) + EncTail(f, strip, tail)|);
    HeadStep(check, depth, loaded, EncHead(h) + EncTail(f, strip, tail), h, EncTail(f, strip, tail), source);
  }

  lemma HeadOkAny(f: Proto, parent: Str, strip: bool)
    requires ProtoOk(f)
    ensures HeadOk(HeadOf(f, DumpedSource(f, parent, strip)))
  {
    assert HeadOk(HeadOf(f, f.source));
  }

  lemma HeadStep(check: Check, depth: nat, parent: Str, s: seq<Byte>, h: Head, s1: seq<Byte>, source: Str)
    requires depth < MAXCCALLS && ReadHead(s) == Got(h, s1) && source == if h.source == None then parent else h.source
    ensures ReadProto(check, depth, parent, s) == ReadTail(check, depth, source, h, s1, |s|)
  {
  }

  /** A function with its fields as loaded. */
  function Rebuilt(f: Proto, source: Str, ps: seq<Proto>, strip: bool): Proto {
    var g := if strip then f.(lineinfo := [], locvars := [], upvalues := []) else f;
    g.(source := source, p := ps)
  }

  lemma TailBack(check: Check, depth: nat, f: Proto, source: Str, h: Head, ps: seq<Proto>, strip: bool, tail: seq<Byte>, bound: nat)
    requires ProtoOk(f) && h == HeadOf(f, h.source) && Accepts(check, Rebuilt(f, source, ps, strip)) && |EncTail(f, strip, tail)| < bound
    requires ReadProtos(check, depth + 1, |f.p|, source, EncProtos(f.p, f.source, strip) + (EncDebug(f, strip) + tail)) == Got(ps, EncDebug(f, strip) + tail)
    ensures ReadTail(check, depth, source, h, EncTail(f, strip, tail), bound) == Got(Rebuilt(f, source, ps, strip), tail)
  {
    var t4 := EncDebug(f, strip) + tail;
    var t3 := EncProtos(f.p, f.source, strip) + t4;
    var t2 := EncNat(INT, |f.p|) + t3;
    forall i | 0 <= i < |f.k| ensures Inverts(EncConst, ReadConst, f.k[i]) { ConstBack(f.k[i]); }
    CountedBack(EncConst, ReadConst, f.k, t2);
    ReadIntBack(|f.p|, t3);
    DebugBack(f, strip, tail);
    var g := Rebuilt(f, source, ps, strip);
    assert g == Whole(source, h, f.k, ps, g.lineinfo, g.locvars, g.upvalues);
    TailStep(check, depth, source, h, EncTail(f, strip, tail), bound, f.k, t2, |f.p|, t3, ps, t4, g.lineinfo, g.locvars, g.upvalues, tail);
  }

  /** Every function has a source. */
  ghost predicate Sourced(f: Proto)
    decreases f
  {
    f.source.Some? && forall i :: 0 <= i < |f.p| ==> Sourced(f.p[i])
  }

  /** Without stripping, nothing is lost. */
  lemma {:induction false} RestoredSame(f: Proto, parent: Str, loaded: Str)
    requires Sourced(f) && (f.source == parent ==> loaded == parent)
    ensures Restored(f, parent, loaded, false) == f
    decreases f
  {
    RestoredAllSame(f.p, f.source);
  }

  lemma {:induction false} RestoredAllSame(ps: seq<Proto>, source: Str)
    requires forall i :: 0 <= i < |ps| ==> Sourced(ps[i])
    ensures RestoredAll(ps, source, source, false) == ps
    decreases ps
  {
    if ps != [] {
      RestoredSame(ps[0], source, source);
      RestoredAllSame(ps[1..], source);
    }
  }

  /** Only functions with sources come back as they were. */
  lemma {:induction false} SameSourced(f: Proto, parent: Str, loaded: Str)
    requires Restored(f, parent, loaded, false) == f && loaded.Some?
    ensures Sourced(f)
    decreases f
  {
    AllSameSourced(f.p, f.source, f.source);
  }

  lemma {:induction false} AllSameSourced(ps: seq<Proto>, parent: Str, loaded: Str)
    requires RestoredAll(ps, parent, loaded, false) == ps && loaded.Some?
    ensures forall i :: 0 <= i < |ps| ==> Sourced(ps[i])
    decreases ps
  {
    if ps != [] {
      var rest := RestoredAll(ps[1..], parent, loaded, false);
      assert RestoredAll(ps, parent, loaded, false)[1..] == rest;
      SameSourced(ps[0], parent, loaded);
      AllSameSourced(ps[1..], parent, loaded);
      forall i | 0 <= i < |ps| ensures Sourced(ps[i]) { assert i > 0 ==> ps[i] == ps[1..][i - 1]; }
    }
  }

  /** luaU_undump after luaU_dump rebuilds the same function exactly if it and all functions in it have a
      source: a missing one comes back as that of the enclosing function, or as the name that luaU_undump
      passes down. In any case the function loaded is Restored, and exactly its bytes are consumed. */
  lemma RoundTrip(check: Check, f: Proto, name: Str, tail: seq<Byte>)
    requires ProtoOk(f) && Depth(f, MAXCCALLS) && name.Some? && AllAccepted(check, Restored(f, None, name, false))
    ensures ReadProto(check, 0, name, EncProto(f, None, false) + tail) == Got(f, tail) <==> Sourced(f)
  {
    ProtoBack(check, 0, f, None, name, false, tail);
    if Sourced(f) { RestoredSame(f, None, name); }
    if Restored(f, None, name, false) == f { SameSourced(f, None, name); }
  }

  /** Neither the function nor one in it has debug information or a source of its own. */
  ghost predicate Bare(f: Proto, source: Str)
    decreases f
  {
    f.source == source && f.lineinfo == [] && f.locvars == [] && f.upvalues == [] && forall i :: 0 <= i < |f.p| ==> Bare(f.p[i], source)
  }

  lemma {:induction false} StrippedBare(f: Proto, parent: Str, loaded: Str)
    ensures Bare(Restored(f, parent, loaded, true), loaded)
    ensures Bare(f, loaded) ==> Restored(f, parent, loaded, true) == f
    decreases f
  {
    StrippedAllBare(f.p, f.source, loaded);
  }

  lemma {:induction false} StrippedAllBare(ps: seq<Proto>, parent: Str, loaded: Str)
    ensures forall i :: 0 <= i < |ps| ==> Bare(RestoredAll(ps, parent, loaded, true)[i], loaded)
    ensures (forall i :: 0 <= i < |ps| ==> Bare(ps[i], loaded)) ==> RestoredAll(ps, parent, loaded, true) == ps
    decreases ps
  {
    if ps != [] {
      StrippedBare(ps[0], parent, loaded);
      StrippedAllBare(ps[1..], parent, loaded);
    }
  }

  /** A stripped dump comes back without debug information, and rebuilds the same function exactly if
      there was none and every source is the name that luaU_undump passes down. */
  lemma StripTrip(check: Check, f: Proto, name: Str, tail: seq<Byte>)
    requires ProtoOk(f) && Depth(f, MAXCCALLS) && AllAccepted(check, Restored(f, None, name, true))
    ensures var r := ReadProto(check, 0, name, EncProto(f, None, true) + tail);
      r.Got? && r.rest == tail && Bare(r.value, name) && (r.value == f <==> Bare(f, name))
  {
    ProtoBack(check, 0, f, None, name, true, tail);
    StrippedBare(f, None, name);
  }
}
