/** Marking (src/lgc.c, reallymarkobject and the traverse functions). */
module GcMark {
  import opened Basics
  import opened GcHeap

  /** The colour bits of `marked`: one of the two whites, gray (no bit set) or black. */
  datatype Color = White(w: bool) | Gray | Black

  type Colors = map<Ref, Color>

  /** What marking changes: the colours and the gray list. */
  datatype Marks = Marks(color: Colors, gray: seq<Ref>)

  predicate IsWhite(c: Colors, r: Ref) { r in c && c[r].White? }

  /** Refs that carry a non-white colour. */
  predicate IsMarked(c: Colors, r: Ref) { r in c && !c[r].White? }

  function Whites(c: Colors): set<Ref> { set r | r in c && c[r].White? }

  lemma FewerWhites(c: Colors, r: Ref, k: Color)
    requires IsWhite(c, r) && !k.White?
    ensures Whites(c[r := k]) == Whites(c) - {r}
    ensures |Whites(c[r := k])| < |Whites(c)|
  {
    assert Whites(c[r := k]) == Whites(c) - {r};
    assert r in Whites(c);
  }

  /** markvalue / markobject followed by reallymarkobject. */
  function MarkVal(h: Heap, m: Marks, v: Val): (m': Marks)
    requires h.Keys == m.color.Keys
    ensures m'.color.Keys == m.color.Keys && |Whites(m'.color)| <= |Whites(m.color)|
    ensures Whites(m'.color) <= Whites(m.color)
    ensures m'.gray == m.gray || |Whites(m'.color)| < |Whites(m.color)|
    decreases |Whites(m.color)|, 0
  {
    if !v.Obj? || !IsWhite(m.color, v.ref) then m
    else
      var r := v.ref;
      FewerWhites(m.color, r, Gray); FewerWhites(m.color, r, Black);
      match h[r]
      case Str => m.(color := m.color[r := Gray])
      case Udata(mt, env) => MarkVals(h, m.(color := m.color[r := Black]), [mt, env])
      case UpVal(home) =>
        var m1 := MarkVals(h, m.(color := m.color[r := Gray]), [UpValue(h, home)]);
        if home.Closed? then
          assert Whites(m1.color[r := Black]) <= Whites(m1.color);
          SubsetSize(Whites(m1.color[r := Black]), Whites(m1.color));
          m1.(color := m1.color[r := Black])
        else m1
      case _ => Marks(m.color[r := Gray], [r] + m.gray)
  }

  /** The loops over array parts, node vectors, constants, upvalues and stack slots. */
  function MarkVals(h: Heap, m: Marks, vs: seq<Val>): (m': Marks)
    requires h.Keys == m.color.Keys
    ensures m'.color.Keys == m.color.Keys && |Whites(m'.color)| <= |Whites(m.color)|
    ensures Whites(m'.color) <= Whites(m.color)
    ensures m'.gray == m.gray || |Whites(m'.color)| < |Whites(m.color)|
    decreases |Whites(m.color)|, 1 + |vs|
  {
    if vs == [] then m else MarkVals(h, MarkVal(h, m, vs[0]), vs[1..])
  }

  /** Everything `r` points to is marked. */
  ghost predicate KidsMarked(h: Heap, c: Colors, r: Ref) {
    forall q :: Points(h, r, q) && q in c ==> !c[q].White?
  }

  /** What one run of marking does to an object that was white before and is marked after. */
  ghost predicate NewlyMarked(h: Heap, m': Marks, r: Ref)
    requires r in h && r in m'.color
  {
    match h[r]
    case Str => m'.color[r] == Gray
    case Udata(_, _) => m'.color[r] == Black && KidsMarked(h, m'.color, r)
    case UpVal(home) => m'.color[r] == (if home.Closed? then Black else Gray) && KidsMarked(h, m'.color, r)
    case _ => m'.color[r] == Gray && r in m'.gray
  }

  ghost predicate NoDup(s: seq<Ref>) { forall i, j :: 0 <= i < j < |s| ==> s[i] != s[j] }

  /** `m'` extends `m`: marked objects keep their colour, the gray list grows at the front by
      distinct objects that were white, and every newly marked object is as `NewlyMarked` says. */
  ghost predicate Extends(h: Heap, m: Marks, m': Marks)
    requires h.Keys == m.color.Keys == m'.color.Keys
  {
    && Keeps(m.color, m'.color)
    && (forall r :: IsWhite(m.color, r) && IsMarked(m'.color, r) ==> NewlyMarked(h, m', r))
    && GrayGrows(h, m, m')
  }

  /** Marked objects keep their colour; objects still white keep their white. */
  ghost predicate Keeps(c: Colors, c': Colors)
    requires c.Keys == c'.Keys
  {
    && (forall r :: IsMarked(c, r) ==> c'[r] == c[r])
    && (forall r :: IsWhite(c, r) && IsWhite(c', r) ==> c'[r] == c[r])
  }

  ghost predicate GrayGrows(h: Heap, m: Marks, m': Marks)
    requires h.Keys == m.color.Keys == m'.color.Keys
  {
    |m.gray| <= |m'.gray| && m'.gray == Added(m, m') + m.gray && Fresh(h, m, m', Added(m, m'))
  }

  /** The part of the gray list that marking put in front. */
  function Added(m: Marks, m': Marks): seq<Ref>
    requires |m.gray| <= |m'.gray|
  {
    m'.gray[..|m'.gray| - |m.gray|]
  }

  ghost predicate Fresh(h: Heap, m: Marks, m': Marks, added: seq<Ref>)
    requires h.Keys == m.color.Keys == m'.color.Keys
  {
    NoDup(added) && forall r :: r in added ==> IsWhite(m.color, r) && m'.color[r] == Gray && Traversable(h[r])
  }

  lemma ExtendsRefl(h: Heap, m: Marks)
    requires h.Keys == m.color.Keys
    ensures Extends(h, m, m)
  {
    assert Added(m, m) == [];
  }

  lemma ExtendsTrans(h: Heap, a: Marks, b: Marks, c: Marks)
    requires h.Keys == a.color.Keys == b.color.Keys == c.color.Keys
    requires Extends(h, a, b) && Extends(h, b, c)
    ensures Extends(h, a, c)
  {
    FreshTrans(h, a, b, c);
    forall r | IsWhite(a.color, r) && IsMarked(c.color, r) ensures NewlyMarked(h, c, r) {
      if IsMarked(b.color, r) {
        NewlyMarkedStays(h, b, c, r);
      }
    }
    forall r | IsMarked(a.color, r) ensures c.color[r] == a.color[r] {
      assert b.color[r] == a.color[r];
    }
  }

  lemma NewlyMarkedStays(h: Heap, b: Marks, c: Marks, r: Ref)
    requires h.Keys == b.color.Keys == c.color.Keys
    requires r in h && NewlyMarked(h, b, r) && IsMarked(b.color, r) && Extends(h, b, c)
    ensures NewlyMarked(h, c, r)
  {
    assert c.color[r] == b.color[r];
    assert r in b.gray ==> r in c.gray;
    if KidsMarked(h, b.color, r) {
      forall q | Points(h, r, q) && q in c.color ensures !c.color[q].White? {
        assert IsMarked(b.color, q);
      }
    }
  }

  lemma FreshTrans(h: Heap, a: Marks, b: Marks, c: Marks)
    requires h.Keys == a.color.Keys == b.color.Keys == c.color.Keys
    requires Keeps(a.color, b.color) && Keeps(b.color, c.color)
    requires GrayGrows(h, a, b) && GrayGrows(h, b, c)
    ensures GrayGrows(h, a, c)
  {
    var n1, n2 := Added(a, b), Added(b, c);
    assert c.gray == (n2 + n1) + a.gray;
    assert Added(a, c) == n2 + n1;
    forall r | r in n2 + n1 ensures IsWhite(a.color, r) && c.color[r] == Gray && Traversable(h[r]) {
      if r in n2 { assert IsWhite(b.color, r); if IsMarked(a.color, r) { assert b.color[r] == a.color[r]; } }
      else { assert IsMarked(b.color, r); }
    }
    forall i, j | 0 <= i < j < |n2 + n1| ensures (n2 + n1)[i] != (n2 + n1)[j] {
      if i < |n2| <= j {
        assert n2[i] in n2 && n1[j - |n2|] in n1;
        assert IsWhite(b.color, n2[i]) && IsMarked(b.color, n1[j - |n2|]);
      }
    }
  }

  /** Marking a value extends the marks and leaves the value marked. */
  lemma {:induction false} MarkValExtends(h: Heap, m: Marks, v: Val)
    requires h.Keys == m.color.Keys
    ensures Extends(h, m, MarkVal(h, m, v))
    ensures v.Obj? && v.ref in h ==> IsMarked(MarkVal(h, m, v).color, v.ref)
    decreases |Whites(m.color)|, 0, 1
  {
    if !v.Obj? || !IsWhite(m.color, v.ref) {
      ExtendsRefl(h, m);
    } else {
      var r := v.ref;
      FewerWhites(m.color, r, Gray); FewerWhites(m.color, r, Black);
      if h[r].Udata? || h[r].UpVal? {
        MarkValInner(h, m, r);
        InnerExtends(h, m, r);
      } else {
        MarkLeaf(h, m, r);
      }
    }
  }

  /** The values reallymarkobject marks right away, and the colour the object has meanwhile. */
  function Inner(h: Heap, r: Ref): seq<Val>
    requires r in h && (h[r].Udata? || h[r].UpVal?)
  {
    if h[r].Udata? then [h[r].meta, h[r].env] else [UpValue(h, h[r].home)]
  }

  function FirstColor(o: Object): Color { if o.Udata? then Black else Gray }

  function Entered(h: Heap, m: Marks, r: Ref): Marks
    requires r in h
  {
    m.(color := m.color[r := FirstColor(h[r])])
  }

  /** The upvalue's final colour, once its value is marked. */
  function Exited(h: Heap, m: Marks, r: Ref): Marks
    requires r in h
  {
    if h[r].UpVal? && h[r].home.Closed? then m.(color := m.color[r := Black]) else m
  }

  lemma MarkValInner(h: Heap, m: Marks, r: Ref)
    requires h.Keys == m.color.Keys && IsWhite(m.color, r) && (h[r].Udata? || h[r].UpVal?)
    ensures MarkVal(h, m, Obj(r)) == Exited(h, MarkVals(h, Entered(h, m, r), Inner(h, r)), r)
  {
  }

  lemma {:induction false} InnerExtends(h: Heap, m: Marks, r: Ref)
    requires h.Keys == m.color.Keys && IsWhite(m.color, r) && (h[r].Udata? || h[r].UpVal?)
    requires |Whites(Entered(h, m, r).color)| < |Whites(m.color)|
    ensures var m1 := MarkVals(h, Entered(h, m, r), Inner(h, r));
      Extends(h, m, Exited(h, m1, r)) && IsMarked(Exited(h, m1, r).color, r)
    decreases |Whites(m.color)|, 0, 0
  {
    var m0, kids := Entered(h, m, r), Inner(h, r);
    MarkValsExtends(h, m0, kids);
    var m1 := MarkVals(h, m0, kids);
    InnerCovers(h, r);
    MarkedAround(h, m, r, m1, kids);
  }

  lemma InnerCovers(h: Heap, r: Ref)
    requires r in h && (h[r].Udata? || h[r].UpVal?)
    ensures forall q :: Points(h, r, q) ==> Obj(q) in Inner(h, r)
  {
  }

  /** Strings are just marked; tables, closures, prototypes and threads join the gray list. */
  lemma MarkLeaf(h: Heap, m: Marks, r: Ref)
    requires h.Keys == m.color.Keys && IsWhite(m.color, r)
    requires h[r].Str? || Traversable(h[r])
    ensures Extends(h, m, MarkVal(h, m, Obj(r))) && IsMarked(MarkVal(h, m, Obj(r)).color, r)
  {
    assert Added(m, MarkVal(h, m, Obj(r))) == if h[r].Str? then [] else [r];
  }

  lemma {:induction false} MarkValsExtends(h: Heap, m: Marks, vs: seq<Val>)
    requires h.Keys == m.color.Keys
    ensures Extends(h, m, MarkVals(h, m, vs))
    ensures forall v :: v in vs && v.Obj? && v.ref in h ==> IsMarked(MarkVals(h, m, vs).color, v.ref)
    decreases |Whites(m.color)|, 1 + |vs|
  {
    if vs == [] {
      ExtendsRefl(h, m);
    } else {
      var m1 := MarkVal(h, m, vs[0]);
      MarkValExtends(h, m, vs[0]);
      MarkValsExtends(h, m1, vs[1..]);
      ExtendsTrans(h, m, m1, MarkVals(h, m1, vs[1..]));
      var m2 := MarkVals(h, m1, vs[1..]);
      forall v | v in vs && v.Obj? && v.ref in h ensures IsMarked(m2.color, v.ref) {
        if v == vs[0] { assert m2.color[v.ref] == m1.color[v.ref]; } else { assert v in vs[1..]; }
      }
    }
  }

  lemma MarkValsKeeps(h: Heap, m: Marks, vs: seq<Val>)
    requires h.Keys == m.color.Keys
    ensures Keeps(m.color, MarkVals(h, m, vs).color)
  {
    MarkValsExtends(h, m, vs);
  }

  /** Colouring `r`, marking all it points to, and then fixing r's own colour extends `m`. */
  lemma MarkedAround(h: Heap, m: Marks, r: Ref, m1: Marks, kids: seq<Val>)
    requires h.Keys == m.color.Keys == m1.color.Keys
    requires IsWhite(m.color, r) && (h[r].Udata? || h[r].UpVal?)
    requires Extends(h, Entered(h, m, r), m1)
    requires forall q :: Points(h, r, q) ==> Obj(q) in kids
    requires forall v :: v in kids && v.Obj? && v.ref in h ==> IsMarked(m1.color, v.ref)
    ensures Extends(h, m, Exited(h, m1, r)) && IsMarked(Exited(h, m1, r).color, r)
  {
    var m0, m2 := Entered(h, m, r), Exited(h, m1, r);
    assert IsMarked(m0.color, r);
    assert KidsMarked(h, m2.color, r);
    AroundKeeps(h, m, r, m1);
    AroundGray(h, m, r, m1);
    forall x | IsWhite(m.color, x) && IsMarked(m2.color, x) ensures NewlyMarked(h, m2, x) {
      if x != r {
        assert IsWhite(m0.color, x) && IsMarked(m1.color, x);
        assert NewlyMarked(h, m1, x);
        assert KidsMarked(h, m1.color, x) ==> KidsMarked(h, m2.color, x);
      }
    }
  }

  lemma AroundKeeps(h: Heap, m: Marks, r: Ref, m1: Marks)
    requires h.Keys == m.color.Keys == m1.color.Keys && IsWhite(m.color, r)
    requires Keeps(Entered(h, m, r).color, m1.color)
    ensures Keeps(m.color, Exited(h, m1, r).color)
  {
    var m0, m2 := Entered(h, m, r), Exited(h, m1, r);
    forall x | IsMarked(m.color, x) ensures m2.color[x] == m.color[x] { assert IsMarked(m0.color, x); }
    forall x | IsWhite(m.color, x) && IsWhite(m2.color, x) ensures m2.color[x] == m.color[x] {
      assert IsMarked(m0.color, r);
      assert x != r && IsWhite(m0.color, x) && IsWhite(m1.color, x);
    }
  }

  lemma AroundGray(h: Heap, m: Marks, r: Ref, m1: Marks)
    requires h.Keys == m.color.Keys == m1.color.Keys && IsWhite(m.color, r)
    requires GrayGrows(h, Entered(h, m, r), m1)
    ensures GrayGrows(h, m, Exited(h, m1, r))
  {
    var m0, m2 := Entered(h, m, r), Exited(h, m1, r);
    assert Added(m, m2) == Added(m0, m1);
    forall x | x in Added(m, m2) ensures IsWhite(m.color, x) && m2.color[x] == Gray && Traversable(h[x]) {
      assert IsWhite(m0.color, x);
      assert x != r;
    }
  }
}
