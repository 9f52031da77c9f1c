/** Functions as bytes (src/ldump.c, DumpFunction; src/lundump.c, LoadFunction), and the round trip. */
module ChunkFunction {
  import opened ChunkFormat

  datatype Const = KNil | KBool(b: bool) | KNumber(bits: nat) | KString(s: Str)

  datatype LocVar = LocVar(varname: Str, startpc: nat, endpc: nat)

  /** A function prototype; line numbers and instructions are given by their bits. */
  datatype Proto = Proto(source: Str, linedefined: nat, lastlinedefined: nat, nups: Byte, numparams: Byte, isvararg: Byte, maxstacksize: Byte,
    code: seq<nat>, k: seq<Const>, p: seq<Proto>, lineinfo: seq<nat>, locvars: seq<LocVar>, upvalues: seq<Str>)

  const TNIL: Byte := 0
  const TBOOLEAN: Byte := 1
  const TNUMBER: Byte := 3
  const TSTRING: Byte := 4

  // ---------------------------------------------------------------- constants and debug information

  /** One step of DumpConstants. */
  function EncConst(c: Const): seq<Byte> {
    match c
    case KNil => [TNIL]
    case KBool(b) => [TBOOLEAN, if b then 1 else 0]
    case KNumber(x) => [TNUMBER] + EncNat(NUMBER, x)
    case KString(s) => [TSTRING] + EncStr(s)
  }

  /** One step of LoadConstants. */
  function ReadConst(s: seq<Byte>): (r: Parsed<Const>)
    ensures r.Got? ==> |r.rest| < |s|
  {
    if s == [] then Bad
    else if s[0] == TNIL then Got(KNil, s[1..])
    else if s[0] == TBOOLEAN then if |s| < 2 then Bad else Got(KBool(s[1] != 0), s[2..])
    else if s[0] == TNUMBER then match ReadNat(NUMBER, s[1..]) case Bad => Bad case Got(x, rest) => Got(KNumber(x), rest)
    else if s[0] == TSTRING then match ReadStr(s[1..]) case Bad => Bad case Got(t, rest) => Got(KString(t), rest)
    else Bad
  }

  ghost predicate ConstOk(c: Const) { (c.KNumber? ==> c.bits < Power(NUMBER)) && (c.KString? ==> StrOk(c.s)) }

  lemma ConstBack(c: Const)
    requires ConstOk(c)
    ensures Inverts(EncConst, ReadConst, c)
  {
    forall tail ensures ReadConst(EncConst(c) + tail) == Got(c, tail) {
      var s := EncConst(c) + tail;
      match c
      case KNumber(x) => assert s[1..] == EncNat(NUMBER, x) + tail; ReadNatBack(NUMBER, x, tail);
      case KString(t) => assert s[1..] == EncStr(t) + tail; ReadStrBack(t, tail);
      case KNil => assert s[1..] == tail;
      case KBool(_) => assert s[2..] == tail;
    }
  }

  function EncLocVar(v: LocVar): seq<Byte> { EncStr(v.varname) + (EncNat(INT, v.startpc) + EncNat(INT, v.endpc)) }

  function ReadLocVar(s: seq<Byte>): (r: Parsed<LocVar>)
    ensures r.Got? ==> |r.rest| < |s|
  {
    match ReadStr(s)
    case Bad => Bad
    case Got(name, s1) =>
      match ReadInt(s1)
      case Bad => Bad
      case Got(a, s2) => match ReadInt(s2) case Bad => Bad case Got(b, s3) => Got(LocVar(name, a, b), s3)
  }

  ghost predicate LocVarOk(v: LocVar) { StrOk(v.varname) && v.startpc <= MAXINT && v.endpc <= MAXINT }

  lemma LocVarBack(v: LocVar)
    requires LocVarOk(v)
    ensures Inverts(EncLocVar, ReadLocVar, v)
  {
    forall tail ensures ReadLocVar(EncLocVar(v) + tail) == Got(v, tail) {
      var t2 := EncNat(INT, v.endpc) + tail;
      var t1 := EncNat(INT, v.startpc) + t2;
      assert EncLocVar(v) + tail == EncStr(v.varname) + t1;
      ReadStrBack(v.varname, t1);
      ReadIntBack(v.startpc, t2);
      ReadIntBack(v.endpc, tail);
    }
  }

  /** A count and a list. */
  function EncCounted<T>(enc: T -> seq<Byte>, v: seq<T>): seq<Byte> { EncNat(INT, |v|) + EncList(enc, v) }

  function ReadCounted<T>(dec: seq<Byte> -> Parsed<T>, s: seq<Byte>): Parsed<seq<T>> {
    match ReadInt(s) case Bad => Bad case Got(n, rest) => ReadList(dec, n, rest)
  }

  lemma CountedBack<T(!new)>(enc: T -> seq<Byte>, dec: seq<Byte> -> Parsed<T>, v: seq<T>, tail: seq<Byte>)
    requires |v| <= MAXINT && forall i :: 0 <= i < |v| ==> Inverts(enc, dec, v[i])
    ensures ReadCounted(dec, EncCounted(enc, v) + tail) == Got(v, tail)
  {
    assert EncCounted(enc, v) + tail == EncNat(INT, |v|) + (EncList(enc, v) + tail);
    ReadIntBack(|v|, EncList(enc, v) + tail);
    ReadListBack(enc, dec, v, tail);
  }

  /** DumpVector and the loading of a vector. */
  function EncVector(w: nat, v: seq<nat>): seq<Byte> { EncNat(INT, |v|) + EncVec(w, v) }

  function ReadVector(w: nat, s: seq<Byte>): (r: Parsed<seq<nat>>)
    ensures r.Got? ==> |r.rest| < |s|
  {
    match ReadInt(s) case Bad => Bad case Got(n, rest) => ReadVec(w, n, rest)
  }

  lemma VectorBack(w: nat, v: seq<nat>, tail: seq<Byte>)
    requires |v| <= MAXINT && forall i :: 0 <= i < |v| ==> v[i] < Power(w)
    ensures ReadVector(w, EncVector(w, v) + tail) == Got(v, tail)
  {
    assert EncVector(w, v) + tail == EncNat(INT, |v|) + (EncVec(w, v) + tail);
    ReadIntBack(|v|, EncVec(w, v) + tail);
    ReadVecBack(w, v, tail);
  }

  /** DumpDebug; nothing is left of it in a stripped chunk. */
  function EncDebug(f: Proto, strip: bool): seq<Byte> {
    var e := if strip then f.(lineinfo := [], locvars := [], upvalues := []) else f;
    EncVector(INT, e.lineinfo) + (EncCounted(EncLocVar, e.locvars) + EncCounted(EncStr, e.upvalues))
  }

  /** LoadDebug */
  function ReadDebug(s: seq<Byte>): Parsed<(seq<nat>, seq<LocVar>, seq<Str>)> {
    match ReadVector(INT, s)
    case Bad => Bad
    case Got(lines, s1) =>
      match ReadCounted(ReadLocVar, s1)
      case Bad => Bad
      case Got(vars, s2) => match ReadCounted(ReadStr, s2) case Bad => Bad case Got(ups, s3) => Got((lines, vars, ups), s3)
  }

  ghost predicate DebugOk(f: Proto) {
    && |f.lineinfo| <= MAXINT && (forall i :: 0 <= i < |f.lineinfo| ==> f.lineinfo[i] < Power(INT))
    && |f.locvars| <= MAXINT && (forall i :: 0 <= i < |f.locvars| ==> LocVarOk(f.locvars[i]))
    && |f.upvalues| <= MAXINT && (forall i :: 0 <= i < |f.upvalues| ==> StrOk(f.upvalues[i]))
  }

  lemma DebugBack(f: Proto, strip: bool, tail: seq<Byte>)
    requires DebugOk(f)
    ensures ReadDebug(EncDebug(f, strip) + tail) == Got(if strip then ([], [], []) else (f.lineinfo, f.locvars, f.upvalues), tail)
  {
    var e := if strip then f.(lineinfo := [], locvars := [], upvalues := []) else f;
    var t2 := EncCounted(EncStr, e.upvalues) + tail;
    var t1 := EncCounted(EncLocVar, e.locvars) + t2;
    assert EncDebug(f, strip) + tail == EncVector(INT, e.lineinfo) + t1;
    VectorBack(INT, e.lineinfo, t1);
    forall i | 0 <= i < |e.locvars| ensures Inverts(EncLocVar, ReadLocVar, e.locvars[i]) { LocVarBack(e.locvars[i]); }
    CountedBack(EncLocVar, ReadLocVar, e.locvars, t2);
    forall i | 0 <= i < |e.upvalues| ensures Inverts(EncStr, ReadStr, e.upvalues[i]) {
      forall t ensures ReadStr(EncStr(e.upvalues[i]) + t) == Got(e.upvalues[i], t) { ReadStrBack(e.upvalues[i], t); }
    }
    CountedBack(EncStr, ReadStr, e.upvalues, tail);
  }
}
