/** What luaU_undump accepts (src/lundump.c): functions within all limits and with a source each, whatever the
    bytes; so a loaded function survives any number of further dumps. */
module ChunkLoaded {
  import opened Basics
  import opened ChunkFormat
  import opened ChunkFunction
  import opened ChunkProto

  // ---------------------------------------------------------------- the parts are within their limits

  lemma {:induction false} DecBound(s: seq<Byte>)
    ensures DecNat(s) < Power(|s|)
    decreases |s|
  {
    if s != [] { DecBound(s[1..]); }
  }

  lemma ReadNatOk(w: nat, s: seq<Byte>)
    ensures ReadNat(w, s).Got? ==> ReadNat(w, s).value < Power(w)
  {
    if |s| >= w { DecBound(s[..w]); }
  }

  lemma ReadStrOk(s: seq<Byte>)
    ensures ReadStr(s).Got? ==> StrOk(ReadStr(s).value)
  {
    ReadNatOk(SIZE, s);
  }

  lemma {:induction false} ReadVecOk(w: nat, n: nat, s: seq<Byte>)
    ensures ReadVec(w, n, s).Got? ==> forall i :: 0 <= i < n ==> ReadVec(w, n, s).value[i] < Power(w)
    decreases n
  {
    if n > 0 && ReadNat(w, s).Got? {
      ReadNatOk(w, s);
      ReadVecOk(w, n - 1, ReadNat(w, s).rest);
    }
  }

  ghost predicate VecOk(w: nat, v: seq<nat>) { |v| <= MAXINT && forall i :: 0 <= i < |v| ==> v[i] < Power(w) }

  lemma ReadVectorOk(w: nat, s: seq<Byte>)
    ensures ReadVector(w, s).Got? ==> VecOk(w, ReadVector(w, s).value)
  {
    if ReadInt(s).Got? { ReadVecOk(w, ReadInt(s).value, ReadInt(s).rest); }
  }

  /** All that the decoder yields is in `ok`. */
  ghost predicate Yields<T(!new)>(dec: seq<Byte> -> Parsed<T>, ok: T -> bool) { forall s :: App(dec, s).Got? ==> ok(App(dec, s).value) }

  lemma {:induction false} ReadListOk<T(!new)>(dec: seq<Byte> -> Parsed<T>, ok: T -> bool, n: nat, s: seq<Byte>)
    requires Yields(dec, ok)
    ensures ReadList(dec, n, s).Got? ==> forall i :: 0 <= i < n ==> ok(ReadList(dec, n, s).value[i])
    decreases n
  {
    if n > 0 && App(dec, s).Got? { ReadListOk(dec, ok, n - 1, App(dec, s).rest); }
  }

  ghost predicate ListOk<T(!new)>(ok: T -> bool, v: seq<T>) { |v| <= MAXINT && forall i :: 0 <= i < |v| ==> ok(v[i]) }

  lemma ReadCountedOk<T(!new)>(dec: seq<Byte> -> Parsed<T>, ok: T -> bool, s: seq<Byte>)
    requires Yields(dec, ok)
    ensures ReadCounted(dec, s).Got? ==> ListOk(ok, ReadCounted(dec, s).value)
  {
    if ReadInt(s).Got? { ReadListOk(dec, ok, ReadInt(s).value, ReadInt(s).rest); }
  }

  ghost const OkConst: Const -> bool := c => ConstOk(c)
  ghost const OkVar: LocVar -> bool := v => LocVarOk(v)
  ghost const OkStr: Str -> bool := s => StrOk(s)

  lemma ConstsYield()
    ensures Yields(ReadConst, OkConst)
  {
    forall s | App(ReadConst, s).Got? ensures OkConst(App(ReadConst, s).value) {
      if s[0] == TNUMBER { ReadNatOk(NUMBER, s[1..]); }
      if s[0] == TSTRING { ReadStrOk(s[1..]); }
    }
  }

  lemma VarsYield()
    ensures Yields(ReadLocVar, OkVar)
  {
    forall s | App(ReadLocVar, s).Got? ensures OkVar(App(ReadLocVar, s).value) { ReadStrOk(s); }
  }

  lemma StrsYield()
    ensures Yields(ReadStr, OkStr)
  {
    forall s | App(ReadStr, s).Got? ensures OkStr(App(ReadStr, s).value) { ReadStrOk(s); }
  }

  lemma ReadHeadOk(s: seq<Byte>)
    ensures ReadHead(s).Got? ==> HeadOk(ReadHead(s).value)
  {
    if ReadHead(s).Got? {
      ReadStrOk(s);
      var s4 := Take(4, ReadInt(ReadInt(ReadStr(s).rest).rest).rest).rest;
      ReadVectorOk(INSTRUCTION, s4);
    }
  }

  ghost predicate DebugFits(d: (seq<nat>, seq<LocVar>, seq<Str>)) { VecOk(INT, d.0) && ListOk(OkVar, d.1) && ListOk(OkStr, d.2) }

  lemma ReadDebugOk(s: seq<Byte>)
    ensures ReadDebug(s).Got? ==> DebugFits(ReadDebug(s).value)
  {
    if ReadDebug(s).Got? {
      ReadVectorOk(INT, s);
      var s1 := ReadVector(INT, s).rest;
      VarsYield();
      ReadCountedOk(ReadLocVar, OkVar, s1);
      StrsYield();
      ReadCountedOk(ReadStr, OkStr, ReadCounted(ReadLocVar, s1).rest);
    }
  }

  // ---------------------------------------------------------------- whole functions

  /** The function can be dumped and loaded again at the same depth. */
  ghost predicate Sturdy(check: Check, depth: nat, f: Proto) {
    depth <= MAXCCALLS && ProtoOk(f) && Depth(f, MAXCCALLS - depth) && AllAccepted(check, f) && Sourced(f)
  }

  lemma WholeSturdy(check: Check, depth: nat, source: Str, h: Head, k: seq<Const>, ps: seq<Proto>, d: (seq<nat>, seq<LocVar>, seq<Str>))
    requires depth < MAXCCALLS && source.Some? && StrOk(source) && HeadOk(h) && ListOk(OkConst, k) && |ps| <= MAXINT && DebugFits(d)
    requires forall i :: 0 <= i < |ps| ==> Sturdy(check, depth + 1, ps[i])
    requires Accepts(check, Whole(source, h, k, ps, d.0, d.1, d.2))
    ensures Sturdy(check, depth, Whole(source, h, k, ps, d.0, d.1, d.2))
  {
    var f := Whole(source, h, k, ps, d.0, d.1, d.2);
    forall i | 0 <= i < |d.1| ensures LocVarOk(d.1[i]) { assert OkVar(d.1[i]); }
    forall i | 0 <= i < |d.2| ensures StrOk(d.2[i]) { assert OkStr(d.2[i]); }
    forall i | 0 <= i < |k| ensures ConstOk(k[i]) { assert OkConst(k[i]); }
    assert DebugOk(f) && HeadOk(HeadOf(f, f.source));
    forall i | 0 <= i < |f.p| ensures ProtoOk(f.p[i]) && Depth(f.p[i], MAXCCALLS - depth - 1) && AllAccepted(check, f.p[i]) && Sourced(f.p[i]) {
      assert Sturdy(check, depth + 1, ps[i]);
    }
  }

  /** Whatever is loaded is within all limits, and every function in it has a source. */
  lemma {:induction false} LoadedSturdy(check: Check, depth: nat, parent: Str, s: seq<Byte>)
    requires parent.Some? && StrOk(parent)
    ensures ReadProto(check, depth, parent, s).Got? ==> Sturdy(check, depth, ReadProto(check, depth, parent, s).value)
    decreases |s|, 1
  {
    if ReadProto(check, depth, parent, s).Got? {
      var h, s1 := ReadHead(s).value, ReadHead(s).rest;
      ReadHeadOk(s);
      LoadedTail(check, depth, if h.source == None then parent else h.source, h, s1, |s|);
    }
  }

  lemma {:induction false} LoadedTail(check: Check, depth: nat, source: Str, h: Head, s: seq<Byte>, bound: nat)
    requires depth < MAXCCALLS && source.Some? && StrOk(source) && HeadOk(h) && |s| < bound
    ensures ReadTail(check, depth, source, h, s, bound).Got? ==> Sturdy(check, depth, ReadTail(check, depth, source, h, s, bound).value)
    decreases bound, 0
  {
    if ReadTail(check, depth, source, h, s, bound).Got? {
      ConstsYield();
      ReadCountedOk(ReadConst, OkConst, s);
      CountedLess(ReadConst, s);
      var k, s2 := ReadCounted(ReadConst, s).value, ReadCounted(ReadConst, s).rest;
      var n, s3 := ReadInt(s2).value, ReadInt(s2).rest;
      LoadedProtos(check, depth + 1, n, source, s3);
      var ps, s4 := ReadProtos(check, depth + 1, n, source, s3).value, ReadProtos(check, depth + 1, n, source, s3).rest;
      ReadDebugOk(s4);
      WholeSturdy(check, depth, source, h, k, ps, ReadDebug(s4).value);
    }
  }

  lemma {:induction false} LoadedProtos(check: Check, depth: nat, n: nat, parent: Str, s: seq<Byte>)
    requires parent.Some? && StrOk(parent)
    ensures var r := ReadProtos(check, depth, n, parent, s); r.Got? ==> forall i :: 0 <= i < n ==> Sturdy(check, depth, r.value[i])
    decreases |s|, 2
  {
    var r := ReadProtos(check, depth, n, parent, s);
    if n > 0 && r.Got? {
      LoadedSturdy(check, depth, parent, s);
      var rest := ReadProto(check, depth, parent, s).rest;
      LoadedProtos(check, depth, n - 1, parent, rest);
      var ps := ReadProtos(check, depth, n - 1, parent, rest).value;
      forall i | 0 <= i < n ensures Sturdy(check, depth, r.value[i]) { assert i > 0 ==> r.value[i] == ps[i - 1]; }
    }
  }

  /** A function that was loaded comes back unchanged from another dump, under whatever name. */
  lemma LoadedAgain(check: Check, name: Str, s: seq<Byte>, again: Str, tail: seq<Byte>)
    requires name.Some? && StrOk(name) && again.Some? && ReadProto(check, 0, name, s).Got?
    ensures var f := ReadProto(check, 0, name, s).value;
      Sourced(f) && ReadProto(check, 0, again, EncProto(f, None, false) + tail) == Got(f, tail)
  {
    LoadedSturdy(check, 0, name, s);
    var f := ReadProto(check, 0, name, s).value;
    RestoredSame(f, None, again);
    RoundTrip(check, f, again, tail);
  }

  /** The smallest function without a source. */
  const NULLSOURCE: Proto := Proto(None, 0, 0, 0, 0, 0, 2, [], [], [], [], [], [])

  /** A function that was neither compiled nor loaded may lack a source; then it comes back with the given name. */
  lemma NullSource(check: Check, name: seq<Byte>)
    requires check(NULLSOURCE.(source := Some(name)))
    ensures ReadProto(check, 0, Some(name), EncProto(NULLSOURCE, None, false)) == Got(NULLSOURCE.(source := Some(name)), [])
    ensures !Sourced(NULLSOURCE)
  {
    ProtoBack(check, 0, NULLSOURCE, None, Some(name), false, []);
    assert EncProto(NULLSOURCE, None, false) + [] == EncProto(NULLSOURCE, None, false);
  }
}
