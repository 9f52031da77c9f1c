/** Buffered streams and the loading and dumping of chunks (src/lzio.c, src/lundump.c, src/ldump.c). However
    the reader cuts the bytes into blocks, what is loaded depends on the bytes only. */
module ChunkStream {
  import opened Basics
  import opened ChunkFormat
  import opened ChunkFunction
  import opened ChunkProto

  // ---------------------------------------------------------------- luaZ_read

  /** What the reader is going to deliver; an empty block is the end. */
  function Flat(blocks: seq<seq<Byte>>): seq<Byte> {
    if blocks == [] || blocks[0] == [] then [] else blocks[0] + Flat(blocks[1..])
  }

  lemma CopyPart(data: seq<Byte>, buffer: seq<Byte>, m: nat, f: seq<Byte>)
    requires m <= |buffer|
    ensures (data + buffer[..m]) + (buffer[m..] + f) == data + (buffer + f)
  {
  }

  class Stream {
    var buffer: seq<Byte>              // what is left of the current block
    var blocks: seq<seq<Byte>>         // what the reader has not delivered yet
    ghost var rest: seq<Byte>          // all bytes to come

    ghost predicate Valid()
      reads this
    {
      rest == buffer + Flat(blocks)
    }

    constructor (blocks: seq<seq<Byte>>)
      ensures Valid() && rest == Flat(blocks)
    {
      buffer, this.blocks, rest := [], blocks, Flat(blocks);
    }

    /** luaZ_lookahead, with luaZ_fill: is there another byte? */
    method Lookahead() returns (more: bool)
      requires Valid()
      modifies this`buffer, this`blocks
      ensures Valid() && (more <==> rest != []) && (more ==> buffer != [])
    {
      if buffer == [] {
        if blocks == [] || blocks[0] == [] { return false; }
        buffer, blocks := blocks[0], blocks[1..];
      }
      return true;
    }

    /** luaZ_read: exactly n bytes, across blocks, or not enough. */
    method Read(n0: nat) returns (ok: bool, data: seq<Byte>)
      requires Valid()
      modifies this
      ensures Valid() && if ok then Take(n0, old(rest)) == Got(data, rest) else Take(n0, old(rest)) == Bad
    {
      var n := n0;
      data := [];
      while n > 0
        invariant 0 <= n && n + |data| == n0 && Valid() && old(rest) == data + rest
      {
        var more := Lookahead();
        if !more { return false, []; }
        var m := if n <= |buffer| then n else |buffer|;
        CopyPart(data, buffer, m, Flat(blocks));
        data := data + buffer[..m];
        buffer := buffer[m..];
        rest := buffer + Flat(blocks);
        n := n - m;
      }
      TakeExact(data, rest);
      return true, data;
    }
  }

  // ---------------------------------------------------------------- loading

  datatype Loaded<+T> = Ok(v: T) | Failed

  /** The method did on the stream what the function does on its bytes. */
  ghost predicate Did<T>(r: Loaded<T>, rest: seq<Byte>, p: Parsed<T>) {
    match p
    case Bad => r == Failed
    case Got(v, rest') => r == Ok(v) && rest == rest'
  }

  method LoadNat(z: Stream, w: nat) returns (r: Loaded<nat>)
    requires z.Valid()
    modifies z
    ensures z.Valid() && Did(r, z.rest, ReadNat(w, old(z.rest)))
  {
    var ok, b := z.Read(w);
    r := if ok then Ok(DecNat(b)) else Failed;
  }

  method LoadInt(z: Stream) returns (r: Loaded<nat>)
    requires z.Valid()
    modifies z
    ensures z.Valid() && Did(r, z.rest, ReadInt(old(z.rest)))
  {
    r := LoadNat(z, INT);
    if r.Ok? && r.v > MAXINT { r := Failed; }
  }

  method LoadString(z: Stream) returns (r: Loaded<Str>)
    requires z.Valid()
    modifies z
    ensures z.Valid() && Did(r, z.rest, ReadStr(old(z.rest)))
  {
    var size := LoadNat(z, SIZE);
    if size.Failed? { return Failed; }
    if size.v == 0 { return Ok(None); }
    var ok, b := z.Read(size.v);
    r := if ok then Ok(Some(b[..size.v - 1])) else Failed;
  }

  /** A result with the elements loaded before put in front. */
  function Extend<T>(acc: seq<T>, p: Parsed<seq<T>>): Parsed<seq<T>> { match p case Bad => Bad case Got(v, rest) => Got(acc + v, rest) }

  lemma ExtendVec(w: nat, n: nat, s: seq<Byte>, acc: seq<nat>, x: nat, rest: seq<Byte>)
    requires n > 0 && ReadNat(w, s) == Got(x, rest)
    ensures Extend(acc, ReadVec(w, n, s)) == Extend(acc + [x], ReadVec(w, n - 1, rest))
  {
    var p := ReadVec(w, n - 1, rest);
    if p.Got? { assert acc + ([x] + p.value) == (acc + [x]) + p.value; }
  }

  lemma ExtendList<T>(dec: seq<Byte> -> Parsed<T>, n: nat, s: seq<Byte>, acc: seq<T>, x: T, rest: seq<Byte>)
    requires n > 0 && App(dec, s) == Got(x, rest)
    ensures Extend(acc, ReadList(dec, n, s)) == Extend(acc + [x], ReadList(dec, n - 1, rest))
  {
    var p := ReadList(dec, n - 1, rest);
    if p.Got? { assert acc + ([x] + p.value) == (acc + [x]) + p.value; }
  }

  lemma ExtendBad<T>(dec: seq<Byte> -> Parsed<T>, n: nat, s: seq<Byte>, acc: seq<T>)
    requires n > 0 && App(dec, s) == Bad
    ensures Extend(acc, ReadList(dec, n, s)) == Bad
  {
  }

  lemma ExtendNone<T>(p: Parsed<seq<T>>)
    ensures Extend([], p) == p
  {
    if p.Got? { assert [] + p.value == p.value; }
  }

  /** LoadCode and the line numbers of LoadDebug. */
  method LoadVector(z: Stream, w: nat) returns (r: Loaded<seq<nat>>)
    requires z.Valid()
    modifies z
    ensures z.Valid() && Did(r, z.rest, ReadVector(w, old(z.rest)))
  {
    var n := LoadInt(z);
    if n.Failed? { return Failed; }
    ghost var s := z.rest;
    var v: seq<nat> := [];
    var i := 0;
    ExtendNone(ReadVec(w, n.v, s));
    while i < n.v
      invariant z.Valid() && 0 <= i <= n.v && ReadVec(w, n.v, s) == Extend(v, ReadVec(w, n.v - i, z.rest))
    {
      ghost var s1 := z.rest;
      var x := LoadNat(z, w);
      if x.Failed? { return Failed; }
      ExtendVec(w, n.v - i, s1, v, x.v, z.rest);
      v := v + [x.v];
      i := i + 1;
    }
    assert v + [] == v;
    r := Ok(v);
  }

  method LoadConst(z: Stream) returns (r: Loaded<Const>)
    requires z.Valid()
    modifies z
    ensures z.Valid() && Did(r, z.rest, ReadConst(old(z.rest)))
  {
    var ok, b := z.Read(1);
    if !ok { return Failed; }
    var t := b[0];
    if t == TNIL {
      r := Ok(KNil);
    } else if t == TBOOLEAN {
      ghost var s := z.rest;
      ok, b := z.Read(1);
      r := if ok then Ok(KBool(b[0] != 0)) else Failed;
    } else if t == TNUMBER {
      var x := LoadNat(z, NUMBER);
      r := if x.Ok? then Ok(KNumber(x.v)) else Failed;
    } else if t == TSTRING {
      var x := LoadString(z);
      r := if x.Ok? then Ok(KString(x.v)) else Failed;
    } else {
      r := Failed;
    }
  }

  /** LoadConstants, the first loop. */
  method LoadConstants(z: Stream) returns (r: Loaded<seq<Const>>)
    requires z.Valid()
    modifies z
    ensures z.Valid() && Did(r, z.rest, ReadCounted(ReadConst, old(z.rest)))
  {
    var n := LoadInt(z);
    if n.Failed? { return Failed; }
    r := LoadConstList(z, n.v);
  }

  method LoadConstList(z: Stream, n: nat) returns (r: Loaded<seq<Const>>)
    requires z.Valid()
    modifies z
    ensures z.Valid() && Did(r, z.rest, ReadList(ReadConst, n, old(z.rest)))
  {
    ghost var all := ReadList(ReadConst, n, z.rest);
    var v: seq<Const> := [];
    var i := 0;
    ghost var left := n;
    ExtendNone(all);
    while i < n
      invariant z.Valid() && 0 <= i <= n && left == n - i && all == Extend(v, ReadList(ReadConst, left, z.rest))
    {
      ghost var s1 := z.rest;
      var x := LoadConst(z);
      if x.Failed? {
        ExtendBad(ReadConst, left, s1, v);
        return Failed;
      }
      ExtendList(ReadConst, left, s1, v, x.v, z.rest);
      v := v + [x.v];
      left := left - 1;
      i := i + 1;
    }
    assert v + [] == v;
    r := Ok(v);
  }

  method LoadLocVar(z: Stream) returns (r: Loaded<LocVar>)
    requires z.Valid()
    modifies z
    ensures z.Valid() && Did(r, z.rest, ReadLocVar(old(z.rest)))
  {
    var name := LoadString(z);
    if name.Failed? { return Failed; }
    var a := LoadInt(z);
    if a.Failed? { return Failed; }
    var b := LoadInt(z);
    if b.Failed? { return Failed; }
    r := Ok(LocVar(name.v, a.v, b.v));
  }

  method LoadLocVars(z: Stream) returns (r: Loaded<seq<LocVar>>)
    requires z.Valid()
    modifies z
    ensures z.Valid() && Did(r, z.rest, ReadCounted(ReadLocVar, old(z.rest)))
  {
    var n := LoadInt(z);
    if n.Failed? { return Failed; }
    r := LoadLocVarList(z, n.v);
  }

  method LoadLocVarList(z: Stream, n: nat) returns (r: Loaded<seq<LocVar>>)
    requires z.Valid()
    modifies z
    ensures z.Valid() && Did(r, z.rest, ReadList(ReadLocVar, n, old(z.rest)))
  {
    ghost var all := ReadList(ReadLocVar, n, z.rest);
    var v: seq<LocVar> := [];
    var i := 0;
    ghost var left, p := n, all;
    ExtendNone(all);
    while i < n
      invariant z.Valid() && 0 <= i <= n && left == n - i && p == ReadList(ReadLocVar, left, z.rest) && all == Extend(v, p)
    {
      var x;
      x, p := LoadNextLocVar(z, left, v, p);
      if x.Failed? { return Failed; }
      v := v + [x.v];
      left := left - 1;
      i := i + 1;
    }
    assert v + [] == v;
    r := Ok(v);
  }

  /** One local variable, and what that leaves to be loaded. */
  method LoadNextLocVar(z: Stream, ghost left: nat, ghost v: seq<LocVar>, ghost p: Parsed<seq<LocVar>>) returns (x: Loaded<LocVar>, ghost q: Parsed<seq<LocVar>>)
    requires z.Valid() && left > 0 && p == ReadList(ReadLocVar, left, z.rest)
    modifies z
    ensures z.Valid() && (x.Failed? ==> Extend(v, p) == Bad)
    ensures x.Ok? ==> q == ReadList(ReadLocVar, left - 1, z.rest) && Extend(v, p) == Extend(v + [x.v], q)
  {
    ghost var s := z.rest;
    x := LoadLocVar(z);
    if x.Failed? {
      ExtendBad(ReadLocVar, left, s, v);
      q := Bad;
    } else {
      ExtendList(ReadLocVar, left, s, v, x.v, z.rest);
      q := ReadList(ReadLocVar, left - 1, z.rest);
    }
  }

  method LoadStrings(z: Stream) returns (r: Loaded<seq<Str>>)
    requires z.Valid()
    modifies z
    ensures z.Valid() && Did(r, z.rest, ReadCounted(ReadStr, old(z.rest)))
  {
    var n := LoadInt(z);
    if n.Failed? { return Failed; }
    r := LoadStringList(z, n.v);
  }

  method LoadStringList(z: Stream, n: nat) returns (r: Loaded<seq<Str>>)
    requires z.Valid()
    modifies z
    ensures z.Valid() && Did(r, z.rest, ReadList(ReadStr, n, old(z.rest)))
  {
    ghost var all := ReadList(ReadStr, n, z.rest);
    var v: seq<Str> := [];
    var i := 0;
    ghost var left := n;
    ExtendNone(all);
    while i < n
      invariant z.Valid() && 0 <= i <= n && left == n - i && all == Extend(v, ReadList(ReadStr, left, z.rest))
    {
      ghost var s1 := z.rest;
      var x := LoadString(z);
      if x.Failed? {
        ExtendBad(ReadStr, left, s1, v);
        return Failed;
      }
      ExtendList(ReadStr, left, s1, v, x.v, z.rest);
      v := v + [x.v];
      left := left - 1;
      i := i + 1;
    }
    assert v + [] == v;
    r := Ok(v);
  }

  method LoadDebug(z: Stream) returns (r: Loaded<(seq<nat>, seq<LocVar>, seq<Str>)>)
    requires z.Valid()
    modifies z
    ensures z.Valid() && Did(r, z.rest, ReadDebug(old(z.rest)))
  {
    var lines := LoadVector(z, INT);
    if lines.Failed? { return Failed; }
    var vars := LoadLocVars(z);
    if vars.Failed? { return Failed; }
    var ups := LoadStrings(z);
    if ups.Failed? { return Failed; }
    r := Ok((lines.v, vars.v, ups.v));
  }

  method LoadHead(z: Stream) returns (r: Loaded<Head>)
    requires z.Valid()
    modifies z
    ensures z.Valid() && Did(r, z.rest, ReadHead(old(z.rest)))
  {
    var source := LoadString(z);
    if source.Failed? { return Failed; }
    var a := LoadInt(z);
    if a.Failed? { return Failed; }
    var b := LoadInt(z);
    if b.Failed? { return Failed; }
    var ok, c := z.Read(4);
    if !ok { return Failed; }
    var code := LoadVector(z, INSTRUCTION);
    if code.Failed? { return Failed; }
    r := Ok(Head(source.v, a.v, b.v, c[0], c[1], c[2], c[3], code.v));
  }

  /** LoadConstants, the second loop: the nested functions. */
  method LoadProtos(z: Stream, check: Check, depth: nat, n: nat, parent: Str) returns (r: Loaded<seq<Proto>>)
    requires z.Valid()
    modifies z
    ensures z.Valid() && Did(r, z.rest, ReadProtos(check, depth, n, parent, old(z.rest)))
    decreases |z.rest|, 2, 0
  {
    if n == 0 { return Ok([]); }
    var f := LoadFunction(z, check, depth, parent);
    if f.Failed? { return Failed; }
    var ps := LoadProtos(z, check, depth, n - 1, parent);
    r := if ps.Ok? then Ok([f.v] + ps.v) else Failed;
  }

  /** LoadFunction, from the constants on. */
  method LoadRest(z: Stream, check: Check, depth: nat, source: Str, h: Head, ghost bound: nat) returns (r: Loaded<Proto>)
    requires z.Valid() && |z.rest| < bound
    modifies z
    ensures z.Valid() && Did(r, z.rest, ReadTail(check, depth, source, h, old(z.rest), bound))
    decreases bound, 0, 0
  {
    CountedLess(ReadConst, z.rest);
    var k := LoadConstants(z);
    if k.Failed? { return Failed; }
    var n := LoadInt(z);
    if n.Failed? { return Failed; }
    var ps := LoadProtos(z, check, depth + 1, n.v, source);
    if ps.Failed? { return Failed; }
    var d := LoadDebug(z);
    if d.Failed? { return Failed; }
    var f := Whole(source, h, k.v, ps.v, d.v.0, d.v.1, d.v.2);
    r := if Accepts(check, f) then Ok(f) else Failed;
  }

  /** LoadFunction: nested too deep, cut short, malformed or refused by the code check are errors. */
  method LoadFunction(z: Stream, check: Check, depth: nat, parent: Str) returns (r: Loaded<Proto>)
    requires z.Valid()
    modifies z
    ensures z.Valid() && Did(r, z.rest, ReadProto(check, depth, parent, old(z.rest)))
    decreases |z.rest|, 1, 0
  {
    if depth + 1 > MAXCCALLS { return Failed; }
    ghost var bound := |z.rest|;
    var h := LoadHead(z);
    if h.Failed? { return Failed; }
    r := LoadRest(z, check, depth, if h.v.source == None then parent else h.v.source, h.v, bound);
  }

  // ---------------------------------------------------------------- chunks

  /** luaU_header: signature, version, format, byte order, and the sizes of the types. */
  const HEADER: seq<Byte> := [27, 76, 117, 97, 0x51, 0, 1, 4, 8, 4, 8, 0]

  function EncChunk(f: Proto, strip: bool): seq<Byte> { HEADER + EncProto(f, None, strip) }

  /** luaU_undump */
  method Undump(z: Stream, check: Check, name: Str) returns (r: Loaded<Proto>)
    requires z.Valid()
    modifies z
    ensures z.Valid()
    ensures |old(z.rest)| >= 12 && old(z.rest)[..12] == HEADER ==> Did(r, z.rest, ReadProto(check, 0, name, old(z.rest)[12..]))
    ensures !(|old(z.rest)| >= 12 && old(z.rest)[..12] == HEADER) ==> r == Failed
  {
    var ok, h := z.Read(12);
    if !ok || h != HEADER { return Failed; }
    r := LoadFunction(z, check, 0, name);
  }

  /** luaU_undump of what luaU_dump wrote, with any bytes behind it and in any blocks: exactly the dump is
      consumed, and without stripping the function comes back as it was exactly if all sources are there. */
  method DumpUndump(f: Proto, strip: bool, check: Check, name: Str, blocks: seq<seq<Byte>>, ghost tail: seq<Byte>) returns (r: Loaded<Proto>, z: Stream)
    requires ProtoOk(f) && Depth(f, MAXCCALLS) && name.Some? && AllAccepted(check, Restored(f, None, name, strip))
    requires Flat(blocks) == EncChunk(f, strip) + tail
    ensures z.Valid() && z.rest == tail && r == Ok(Restored(f, None, name, strip))
    ensures !strip ==> (r == Ok(f) <==> Sourced(f))
    ensures strip ==> (r == Ok(f) <==> Bare(f, name))
  {
    z := new Stream(blocks);
    ChunkParts(EncProto(f, None, strip), tail);
    ProtoBack(check, 0, f, None, name, strip, tail);
    if strip { StripTrip(check, f, name, tail); } else { RoundTrip(check, f, name, tail); }
    assert z.rest[12..] == EncProto(f, None, strip) + tail;
    r := Undump(z, check, name);
  }

  lemma ChunkParts(e: seq<Byte>, tail: seq<Byte>)
    ensures var s := (HEADER + e) + tail; |s| >= 12 && s[..12] == HEADER && s[12..] == e + tail
  {
  }

  // ---------------------------------------------------------------- dumping

  /** What the writer has received. */
  class Sink {
    var out: seq<Byte>

    constructor ()
      ensures out == []
    {
      out := [];
    }

    /** DumpBlock */
    method Write(b: seq<Byte>)
      modifies this
      ensures out == old(out) + b
    {
      out := out + b;
    }
  }

  method DumpVector(d: Sink, w: nat, v: seq<nat>)
    modifies d
    ensures d.out == old(d.out) + EncVector(w, v)
  {
    d.Write(EncNat(INT, |v|));
    ghost var start := d.out;
    var i := 0;
    while i < |v|
      invariant 0 <= i <= |v| && d.out + EncVec(w, v[i..]) == start + EncVec(w, v)
    {
      VecAt(w, v, i);
      Assoc(d.out, EncNat(w, v[i]), EncVec(w, v[i + 1..]));
      d.Write(EncNat(w, v[i]));
      i := i + 1;
    }
    assert d.out + [] == d.out;
    Assoc(old(d.out), EncNat(INT, |v|), EncVec(w, v));
  }

  lemma VecAt(w: nat, v: seq<nat>, i: nat)
    requires i < |v|
    ensures EncVec(w, v[i..]) == EncNat(w, v[i]) + EncVec(w, v[i + 1..])
  {
    assert v[i..][1..] == v[i + 1..];
  }

  lemma ListAt<T>(enc: T -> seq<Byte>, v: seq<T>, i: nat)
    requires i < |v|
    ensures EncList(enc, v[i..]) == App(enc, v[i]) + EncList(enc, v[i + 1..])
  {
    assert v[i..][1..] == v[i + 1..];
  }

  lemma Assoc(a: seq<Byte>, b: seq<Byte>, c: seq<Byte>)
    ensures (a + b) + c == a + (b + c)
  {
  }

  method DumpInt(d: Sink, x: nat)
    modifies d
    ensures d.out == old(d.out) + EncNat(INT, x)
  {
    d.Write(EncNat(INT, x));
  }

  method DumpChar(d: Sink, b: Byte)
    modifies d
    ensures d.out == old(d.out) + [b]
  {
    d.Write([b]);
  }

  /** A missing string is dumped as size 0, an empty one as its zero byte. */
  method DumpString(d: Sink, s: Str)
    modifies d
    ensures d.out == old(d.out) + EncStr(s)
  {
    if s == None { d.Write(EncNat(SIZE, 0)); return; }
    var size := |s.value| + 1;
    d.Write(EncNat(SIZE, size));
    Assoc(old(d.out), EncNat(SIZE, size), s.value + [0]);
    d.Write(s.value + [0]);
  }

  /** One constant: its type, and its value if the type leaves a choice. */
  method DumpConstant(d: Sink, c: Const)
    modifies d
    ensures d.out == old(d.out) + EncConst(c)
  {
    match c
    case KNil => DumpChar(d, TNIL);
    case KBool(b) =>
      DumpChar(d, TBOOLEAN);
      DumpChar(d, if b then 1 else 0);
    case KNumber(x) =>
      DumpChar(d, TNUMBER);
      d.Write(EncNat(NUMBER, x));
    case KString(s) =>
      DumpChar(d, TSTRING);
      DumpString(d, s);
  }

  /** The first loop of DumpConstants. */
  method DumpConstants(d: Sink, v: seq<Const>)
    modifies d
    ensures d.out == old(d.out) + EncCounted(EncConst, v)
  {
    DumpInt(d, |v|);
    ghost var start := d.out;
    var i := 0;
    while i < |v|
      invariant 0 <= i <= |v| && d.out + EncList(EncConst, v[i..]) == start + EncList(EncConst, v)
    {
      ListAt(EncConst, v, i);
      Assoc(d.out, EncConst(v[i]), EncList(EncConst, v[i + 1..]));
      DumpConstant(d, v[i]);
      i := i + 1;
    }
    assert d.out + [] == d.out;
    Assoc(old(d.out), EncNat(INT, |v|), EncList(EncConst, v));
  }

  method DumpLocVar(d: Sink, v: LocVar)
    modifies d
    ensures d.out == old(d.out) + EncLocVar(v)
  {
    DumpString(d, v.varname);
    DumpInt(d, v.startpc);
    DumpInt(d, v.endpc);
  }

  method DumpLocVars(d: Sink, v: seq<LocVar>)
    modifies d
    ensures d.out == old(d.out) + EncCounted(EncLocVar, v)
  {
    DumpInt(d, |v|);
    ghost var start := d.out;
    var i := 0;
    while i < |v|
      invariant 0 <= i <= |v| && d.out + EncList(EncLocVar, v[i..]) == start + EncList(EncLocVar, v)
    {
      ListAt(EncLocVar, v, i);
      Assoc(d.out, EncLocVar(v[i]), EncList(EncLocVar, v[i + 1..]));
      DumpLocVar(d, v[i]);
      i := i + 1;
    }
    assert d.out + [] == d.out;
    Assoc(old(d.out), EncNat(INT, |v|), EncList(EncLocVar, v));
  }

  method DumpUpvalNames(d: Sink, v: seq<Str>)
    modifies d
    ensures d.out == old(d.out) + EncCounted(EncStr, v)
  {
    DumpInt(d, |v|);
    ghost var start := d.out;
    var i := 0;
    while i < |v|
      invariant 0 <= i <= |v| && d.out + EncList(EncStr, v[i..]) == start + EncList(EncStr, v)
    {
      ListAt(EncStr, v, i);
      Assoc(d.out, EncStr(v[i]), EncList(EncStr, v[i + 1..]));
      DumpString(d, v[i]);
      i := i + 1;
    }
    assert d.out + [] == d.out;
    Assoc(old(d.out), EncNat(INT, |v|), EncList(EncStr, v));
  }

  /** DumpDebug: lines, local variables and names of upvalues, or three zeros. */
  method DumpDebug(d: Sink, f: Proto, strip: bool)
    modifies d
    ensures d.out == old(d.out) + EncDebug(f, strip)
  {
    DumpVector(d, INT, if strip then [] else f.lineinfo);
    DumpLocVars(d, if strip then [] else f.locvars);
    DumpUpvalNames(d, if strip then [] else f.upvalues);
    ghost var e := if strip then f.(lineinfo := [], locvars := [], upvalues := []) else f;
    Assoc(old(d.out), EncVector(INT, e.lineinfo), EncCounted(EncLocVar, e.locvars));
    Assoc(old(d.out), EncVector(INT, e.lineinfo) + EncCounted(EncLocVar, e.locvars), EncCounted(EncStr, e.upvalues));
    Assoc(EncVector(INT, e.lineinfo), EncCounted(EncLocVar, e.locvars), EncCounted(EncStr, e.upvalues));
  }

  /** DumpFunction, up to and including DumpCode. */
  method DumpHead(d: Sink, f: Proto, parent: Str, strip: bool)
    modifies d
    ensures d.out == old(d.out) + EncHead(HeadOf(f, DumpedSource(f, parent, strip)))
  {
    DumpString(d, if f.source == parent || strip then None else f.source);
    DumpInt(d, f.linedefined);
    DumpInt(d, f.lastlinedefined);
    DumpChar(d, f.nups);
    DumpChar(d, f.numparams);
    DumpChar(d, f.isvararg);
    DumpChar(d, f.maxstacksize);
    ghost var flags := [f.nups, f.numparams, f.isvararg, f.maxstacksize];
    ghost var source := EncStr(DumpedSource(f, parent, strip));
    FourBytes(old(d.out) + source + EncNat(INT, f.linedefined) + EncNat(INT, f.lastlinedefined), f.nups, f.numparams, f.isvararg, f.maxstacksize);
    DumpVector(d, INSTRUCTION, f.code);
    FiveParts(old(d.out), source, EncNat(INT, f.linedefined), EncNat(INT, f.lastlinedefined), flags, EncVector(INSTRUCTION, f.code));
  }

  lemma FourBytes(s: seq<Byte>, a: Byte, b: Byte, c: Byte, d: Byte)
    ensures s + [a] + [b] + [c] + [d] == s + [a, b, c, d]
  {
  }

  lemma FiveParts(s: seq<Byte>, a: seq<Byte>, b: seq<Byte>, c: seq<Byte>, d: seq<Byte>, e: seq<Byte>)
    ensures s + a + b + c + d + e == s + (a + (b + (c + (d + e))))
  {
    Assoc(s, a, b);
    Assoc(s, a + b, c);
    Assoc(s, a + b + c, d);
    Assoc(s, a + b + c + d, e);
    assert a + b + c + d + e == a + (b + (c + (d + e)));
  }

  /** DumpFunction */
  method DumpFunction(d: Sink, f: Proto, parent: Str, strip: bool)
    modifies d
    ensures d.out == old(d.out) + EncProto(f, parent, strip)
    decreases f, 1
  {
    DumpHead(d, f, parent, strip);
    DumpConstants(d, f.k);
    DumpInt(d, |f.p|);
    DumpProtos(d, f, strip);
    DumpDebug(d, f, strip);
    DumpedParts(old(d.out), f, parent, strip);
  }

  lemma DumpedParts(s: seq<Byte>, f: Proto, parent: Str, strip: bool)
    ensures s + EncHead(HeadOf(f, DumpedSource(f, parent, strip))) + EncCounted(EncConst, f.k) + EncNat(INT, |f.p|) + EncProtos(f.p, f.source, strip) + EncDebug(f, strip)
      == s + EncProto(f, parent, strip)
  {
    FiveParts(s, EncHead(HeadOf(f, DumpedSource(f, parent, strip))), EncCounted(EncConst, f.k), EncNat(INT, |f.p|), EncProtos(f.p, f.source, strip), EncDebug(f, strip));
  }

  /** The second loop of DumpConstants: the nested functions are dumped in order, with this function's
      source as their parent's. */
  method DumpProtos(d: Sink, f: Proto, strip: bool)
    modifies d
    ensures d.out == old(d.out) + EncProtos(f.p, f.source, strip)
    decreases f, 0
  {
    ghost var start := d.out;
    var i := 0;
    while i < |f.p|
      invariant 0 <= i <= |f.p| && d.out + EncProtos(f.p[i..], f.source, strip) == start + EncProtos(f.p, f.source, strip)
    {
      ProtosAt(f.p, f.source, strip, i);
      Assoc(d.out, EncProto(f.p[i], f.source, strip), EncProtos(f.p[i + 1..], f.source, strip));
      DumpFunction(d, f.p[i], f.source, strip);
      i := i + 1;
    }
    assert d.out + [] == d.out;
  }

  lemma ProtosAt(ps: seq<Proto>, source: Str, strip: bool, i: nat)
    requires i < |ps|
    ensures EncProtos(ps[i..], source, strip) == EncProto(ps[i], source, strip) + EncProtos(ps[i + 1..], source, strip)
  {
    assert ps[i..][1..] == ps[i + 1..];
  }

  /** luaU_dump */
  method Dump(f: Proto, strip: bool) returns (d: Sink)
    ensures d.out == EncChunk(f, strip)
  {
    d := new Sink();
    d.Write(HEADER);
    DumpFunction(d, f, None, strip);
  }
}
