/** The bytes of precompiled chunks, written out (src/ldump.c, src/lundump.c, luaU_header): together with the order
    of the parts, which the dumping methods follow, this fixes the format. */
module ChunkBytes {
  import opened Basics
  import opened ChunkFormat
  import opened ChunkFunction
  import opened ChunkProto
  import opened ChunkStream

  /** A byte of a number, counted from the least significant one. */
  function ByteOf(x: nat, i: nat): Byte
    decreases i
  {
    if i == 0 then x % 256 else ByteOf(x / 256, i - 1)
  }

  function Four(x: nat): seq<Byte> { [x % 256, (x / 256) % 256, (x / 0x1_0000) % 256, (x / 0x100_0000) % 256] }

  lemma {:induction false} NatBytes(w: nat, x: nat, i: nat)
    requires i < w
    ensures EncNat(w, x)[i] == ByteOf(x, i)
    decreases w
  {
    if i > 0 { NatBytes(w - 1, x / 256, i - 1); }
  }

  /** Integers and instructions have four bytes, sizes and numbers eight, the least significant first. */
  lemma NumberBytes(x: nat)
    ensures EncNat(INT, x) == Four(x) == EncNat(INSTRUCTION, x)
    ensures |EncNat(SIZE, x)| == 8 == |EncNat(NUMBER, x)| && EncNat(SIZE, x)[..4] == Four(x)
    ensures x < 0x1_0000_0000 ==> EncNat(SIZE, x) == Four(x) + [0, 0, 0, 0]
    ensures forall i :: 0 <= i < 8 ==> EncNat(SIZE, x)[i] == ByteOf(x, i) == EncNat(NUMBER, x)[i]
  {
    var a := x / 256;
    var b := a / 256;
    var c := b / 256;
    var d := c / 256;
    Quotients(x);
    assert EncNat(4, x) == [x % 256] + EncNat(3, a) && EncNat(3, a) == [a % 256] + EncNat(2, b) && EncNat(2, b) == [b % 256] + EncNat(1, c);
    assert EncNat(1, c) == [c % 256] + EncNat(0, d);
    assert EncNat(8, x) == [x % 256] + EncNat(7, a) && EncNat(7, a) == [a % 256] + EncNat(6, b) && EncNat(6, b) == [b % 256] + EncNat(5, c);
    assert EncNat(5, c) == [c % 256] + EncNat(4, d);
    assert EncNat(8, x) == Four(x) + EncNat(4, d);
    if d == 0 { Zeros(); }
    forall i | 0 <= i < 8 ensures EncNat(8, x)[i] == ByteOf(x, i) { NatBytes(8, x, i); }
  }

  lemma Quotients(x: nat)
    ensures x / 256 / 256 == x / 0x1_0000 && x / 256 / 256 / 256 == x / 0x100_0000 && x / 256 / 256 / 256 / 256 == x / 0x1_0000_0000
  {
  }

  lemma Zeros()
    ensures EncNat(4, 0) == [0, 0, 0, 0]
  {
    assert EncNat(3, 0) == [0] + EncNat(2, 0) && EncNat(2, 0) == [0] + EncNat(1, 0) && EncNat(1, 0) == [0] + EncNat(0, 0);
  }

  /** Integers up to INT_MAX are read back, and those with the sign bit are errors. */
  lemma IntRange(x: nat, tail: seq<Byte>)
    requires x < 0x1_0000_0000
    ensures ReadInt(Four(x) + tail) == if x <= 0x7fff_ffff then Got(x, tail) else Bad
  {
    PowerInt();
    NumberBytes(x);
    ReadNatBack(INT, x, tail);
  }

  /** A string is its size with the trailing zero, and its bytes; a null string is the size 0. */
  lemma StringBytes(t: seq<Byte>)
    requires |t| < 0xffff_ffff
    ensures EncStr(None) == [0, 0, 0, 0, 0, 0, 0, 0]
    ensures EncStr(Some(t)) == Four(|t| + 1) + [0, 0, 0, 0] + t + [0]
  {
    NumberBytes(0);
    NumberBytes(|t| + 1);
  }

  /** A constant is the number of its type and its value. */
  lemma ConstantBytes(x: nat, t: seq<Byte>)
    requires |t| < 0xffff_ffff
    ensures EncConst(KNil) == [0] && EncConst(KBool(false)) == [1, 0] && EncConst(KBool(true)) == [1, 1]
    ensures |EncConst(KNumber(x))| == 9 && EncConst(KNumber(x))[0] == 3 && forall i :: 0 <= i < 8 ==> EncConst(KNumber(x))[i + 1] == ByteOf(x, i)
    ensures EncConst(KString(Some(t))) == [4] + Four(|t| + 1) + [0, 0, 0, 0] + t + [0]
  {
    NumberBytes(x);
    StringBytes(t);
  }

  /** A chunk begins with ESC "Lua", the version 5.1 and format 0, the byte order, and the sizes of int, size_t,
      instructions and numbers, which are not integral. */
  lemma HeaderBytes(f: Proto, strip: bool)
    ensures |EncChunk(f, strip)| >= 12 && EncChunk(f, strip)[..12] == [27, 76, 117, 97, 0x51, 0, 1, 4, 8, 4, 8, 0]
    ensures EncChunk(f, strip)[12..] == EncProto(f, None, strip)
  {
  }

  /** A whole function without constants, functions and debug information. */
  lemma FunctionBytes(name: seq<Byte>, i: nat, n: Byte, p: Byte, v: Byte, m: Byte)
    requires |name| < 0xffff_ffff
    ensures EncProto(Proto(Some(name), 1, 2, n, p, v, m, [i], [], [], [], [], []), None, false) ==
      (Four(|name| + 1) + [0, 0, 0, 0] + name + [0]) + ([1, 0, 0, 0] + ([2, 0, 0, 0] + ([n, p, v, m] + ([1, 0, 0, 0] + Four(i)))))
      + ([0, 0, 0, 0] + ([0, 0, 0, 0] + ([] + ([0, 0, 0, 0] + ([0, 0, 0, 0] + [0, 0, 0, 0])))))
  {
    StringBytes(name);
    NumberBytes(0); NumberBytes(1); NumberBytes(2); NumberBytes(i);
    assert EncVec(INSTRUCTION, [i]) == Four(i) by { assert [i][1..] == []; assert EncVec(INSTRUCTION, []) == []; }
  }

  /** Functions nested 200 deep are accepted, deeper ones are not. */
  lemma DepthLimit(check: Check, depth: nat, f: Proto, parent: Str, tail: seq<Byte>)
    ensures depth >= 200 ==> ReadProto(check, depth, parent, EncProto(f, parent, false) + tail) == Bad
    ensures depth < 200 && ProtoOk(f) && f.p == [] && f.source.Some? && f.source != parent && check(f) ==>
      ReadProto(check, depth, parent, EncProto(f, parent, false) + tail) == Got(f, tail)
  {
    if depth < 200 && ProtoOk(f) && f.p == [] && f.source.Some? && f.source != parent && check(f) {
      assert Restored(f, parent, parent, false) == f;
      ProtoBack(check, depth, f, parent, parent, false, tail);
    }
  }
}
