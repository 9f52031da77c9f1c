/** table.sort (src/ltablib.c, auxsort): quicksort with the median of three elements as pivot, in place, with
    recursion on the smaller part only. */
module Quicksort {
  import opened TableSizes

  type Order<!T> = (T, T) -> bool

  function Lt<T>(lt: Order<T>, x: T, y: T): bool { lt(x, y) }

  /** x may come before y. */
  predicate Le<T>(lt: Order<T>, x: T, y: T) { !lt(y, x) }

  /** The order function is a strict weak order on these elements; what it says of others does not matter. */
  ghost predicate StrictWeak<T>(lt: Order<T>, e: multiset<T>) {
    forall x, y, z {:trigger Consistent(lt, x, y, z)} | x in e && y in e && z in e :: Consistent(lt, x, y, z)
  }

  predicate Consistent<T>(lt: Order<T>, x: T, y: T, z: T) {
    && !lt(x, x)
    && (lt(x, y) && lt(y, z) ==> lt(x, z))
    && (lt(x, y) ==> lt(x, z) || lt(z, y))
  }

  lemma LeTrans<T>(lt: Order<T>, e: multiset<T>, x: T, y: T, z: T)
    requires StrictWeak(lt, e) && x in e && y in e && z in e && Le(lt, x, y) && Le(lt, y, z)
    ensures Le(lt, x, z)
  {
    assert Consistent(lt, z, x, y);
  }

  lemma LtLe<T>(lt: Order<T>, e: multiset<T>, x: T, y: T)
    requires StrictWeak(lt, e) && x in e && y in e && lt(x, y)
    ensures Le(lt, x, y)
  {
    assert Consistent(lt, x, y, x);
  }

  /** Without an order function the order of numbers is used, and it is one. */
  lemma NumbersOrdered(e: multiset<int>)
    ensures StrictWeak((x: int, y: int) => x < y, e)
  {
  }

  // ---------------------------------------------------------------- permutations of a range

  /** t has the elements of s, rearranged within l..u. */
  ghost predicate Perm<T>(s: seq<T>, t: seq<T>, l: int, u: int) {
    && 0 <= l <= u + 1 <= |s| == |t| && multiset(s) == multiset(t)
    && forall k :: 0 <= k < |s| && (k < l || k > u) ==> t[k] == s[k]
  }

  lemma PermTrans<T>(s: seq<T>, t: seq<T>, v: seq<T>, l: int, u: int)
    requires Perm(s, t, l, u) && Perm(t, v, l, u)
    ensures Perm(s, v, l, u)
  {
  }

  lemma PermSelf<T>(s: seq<T>, l: int, u: int)
    requires 0 <= l <= u + 1 <= |s|
    ensures Perm(s, s, l, u)
  {
  }

  /** A permutation of a part is one of the whole. */
  lemma PermWider<T>(s: seq<T>, t: seq<T>, l: int, u: int, l': int, u': int)
    requires Perm(s, t, l, u) && 0 <= l' <= l && u <= u' < |s|
    ensures Perm(s, t, l', u')
  {
  }

  function Swapped<T>(s: seq<T>, i: int, j: int): seq<T>
    requires 0 <= i < |s| && 0 <= j < |s|
  {
    s[i := s[j]][j := s[i]]
  }

  lemma SwapPerm<T>(s: seq<T>, i: int, j: int)
    requires 0 <= i <= j < |s|
    ensures Perm(s, Swapped(s, i, j), i, j)
  {
    var t := Swapped(s, i, j);
    if i < j {
      assert s == s[..i] + [s[i]] + s[i + 1..j] + [s[j]] + s[j + 1..];
      assert t == s[..i] + [s[j]] + s[i + 1..j] + [s[i]] + s[j + 1..];
    } else {
      assert t == s;
    }
  }

  /** All elements of l..u may come before p, or after p. */
  ghost predicate Below<T>(lt: Order<T>, s: seq<T>, l: int, u: int, p: T) { forall k :: l <= k <= u && 0 <= k < |s| ==> Le(lt, s[k], p) }

  ghost predicate Above<T>(lt: Order<T>, s: seq<T>, l: int, u: int, p: T) { forall k :: l <= k <= u && 0 <= k < |s| ==> Le(lt, p, s[k]) }

  lemma PermSlice<T>(s: seq<T>, t: seq<T>, l: int, u: int)
    requires Perm(s, t, l, u)
    ensures multiset(s[l..u + 1]) == multiset(t[l..u + 1])
  {
    assert s == s[..l] + s[l..u + 1] + s[u + 1..] && t == t[..l] + t[l..u + 1] + t[u + 1..];
    assert s[..l] == t[..l] && s[u + 1..] == t[u + 1..];
    Cancel(multiset(s[..l]), multiset(s[l..u + 1]), multiset(t[l..u + 1]), multiset(s[u + 1..]));
  }

  lemma Cancel<T>(a: multiset<T>, x: multiset<T>, y: multiset<T>, b: multiset<T>)
    requires a + x + b == a + y + b
    ensures x == y
  {
    forall e ensures x[e] == y[e] { assert (a + x + b)[e] == a[e] + x[e] + b[e] && (a + y + b)[e] == a[e] + y[e] + b[e]; }
  }

  /** Every element of the range was there before. */
  lemma PermSource<T>(s: seq<T>, t: seq<T>, l: int, u: int, k: int) returns (m: int)
    requires Perm(s, t, l, u) && l <= k <= u
    ensures l <= m <= u && s[m] == t[k]
  {
    PermSlice(s, t, l, u);
    assert t[k] == t[l..u + 1][k - l];
    assert t[k] in multiset(s[l..u + 1]);
    var i :| 0 <= i < |s[l..u + 1]| && s[l..u + 1][i] == t[k];
    m := l + i;
  }

  lemma PermBelow<T>(lt: Order<T>, s: seq<T>, t: seq<T>, l: int, u: int, p: T)
    requires Perm(s, t, l, u) && Below(lt, s, l, u, p)
    ensures Below(lt, t, l, u, p)
  {
    forall k | l <= k <= u ensures Le(lt, t[k], p) { var m := PermSource(s, t, l, u, k); }
  }

  lemma PermAbove<T>(lt: Order<T>, s: seq<T>, t: seq<T>, l: int, u: int, p: T)
    requires Perm(s, t, l, u) && Above(lt, s, l, u, p)
    ensures Above(lt, t, l, u, p)
  {
    forall k | l <= k <= u ensures Le(lt, p, t[k]) { var m := PermSource(s, t, l, u, k); }
  }

  // ---------------------------------------------------------------- partition

  /** set2 after two reads: exchange two elements of a range. */
  method Swap<T>(a: array<T>, i: int, j: int, ghost l: int, ghost u: int)
    requires 0 <= l <= i <= u < a.Length && l <= j <= u
    modifies a
    ensures a[..] == Swapped(old(a[..]), i, j) && Perm(old(a[..]), a[..], l, u)
  {
    ghost var s := a[..];
    a[i], a[j] := a[j], a[i];
    assert a[..] == Swapped(s, i, j);
    if i <= j { SwapPerm(s, i, j); PermWider(s, a[..], i, j, l, u); } else { SwapSym(s, i, j); SwapPerm(s, j, i); PermWider(s, a[..], j, i, l, u); }
  }

  lemma SwapSym<T>(s: seq<T>, i: int, j: int)
    requires 0 <= i < |s| && 0 <= j < |s|
    ensures Swapped(s, i, j) == Swapped(s, j, i)
  {
  }

  /** The first step: a[l] and a[u] in order. */
  method OrderEnds<T>(a: array<T>, lt: Order<T>, l: int, u: int)
    requires StrictWeak(lt, multiset(a[..])) && 0 <= l < u < a.Length
    modifies a
    ensures Perm(old(a[..]), a[..], l, u) && Le(lt, a[l], a[u])
  {
    PermSelf(a[..], l, u);
    if Lt(lt, a[u], a[l]) {
      LtLe(lt, multiset(a[..]), a[u], a[l]);
      Swap(a, l, u, l, u);
    }
  }

  /** The second step: the middle element goes between them. */
  method OrderMiddle<T>(a: array<T>, lt: Order<T>, l: int, i: int, u: int)
    requires StrictWeak(lt, multiset(a[..])) && 0 <= l < i < u < a.Length && Le(lt, a[l], a[u])
    modifies a
    ensures Perm(old(a[..]), a[..], l, u) && Le(lt, a[l], a[i]) && Le(lt, a[i], a[u])
  {
    PermSelf(a[..], l, u);
    if Lt(lt, a[i], a[l]) {
      LtLe(lt, multiset(a[..]), a[i], a[l]);
      Swap(a, i, l, l, u);
    } else if Lt(lt, a[u], a[i]) {
      LtLe(lt, multiset(a[..]), a[u], a[i]);
      Swap(a, i, u, l, u);
    }
  }

  // ---------------------------------------------------------------- partition

  /** a[l..i] <= p <= a[j..u], and p is the last but one. */
  ghost predicate Split<T>(lt: Order<T>, s: seq<T>, l: int, u: int, i: int, j: int, p: T) {
    0 <= l && l + 2 <= u < |s| && s[u - 1] == p && Below(lt, s, l, i, p) && Above(lt, s, j, u, p)
  }

  /** repeat ++i until a[i] >= p; the pivot itself stops the loop before the range ends,
      so the test i > u that raises "invalid order function" never holds. */
  method ScanUp<T>(a: array<T>, lt: Order<T>, i0: int, ghost l: int, u: int, p: T) returns (i: int)
    requires StrictWeak(lt, multiset(a[..])) && 0 <= l <= i0 < u - 1 && u < a.Length && a[u - 1] == p && Below(lt, a[..], l, i0, p)
    ensures i0 < i <= u - 1 && Below(lt, a[..], l, i - 1, p) && Le(lt, p, a[i])
  {
    i := i0 + 1;
    while Lt(lt, a[i], p)
      invariant i0 < i <= u - 1 && Below(lt, a[..], l, i - 1, p)
      decreases u - i
    {
      LtLe(lt, multiset(a[..]), a[i], p);
      assert i != u - 1;
      i := i + 1;
    }
  }

  /** repeat --j until a[j] <= p; the first element stops the loop, so j < l never holds. */
  method ScanDown<T>(a: array<T>, lt: Order<T>, j0: int, l: int, ghost u: int, p: T) returns (j: int)
    requires StrictWeak(lt, multiset(a[..])) && 0 <= l < j0 <= u < a.Length && p in multiset(a[..]) && Le(lt, a[l], p) && Above(lt, a[..], j0, u, p)
    ensures l <= j < j0 && Above(lt, a[..], j + 1, u, p) && Le(lt, a[j], p)
  {
    j := j0 - 1;
    while Lt(lt, p, a[j])
      invariant l <= j < j0 && Above(lt, a[..], j + 1, u, p)
      decreases j - l
    {
      LtLe(lt, multiset(a[..]), p, a[j]);
      assert j != l;
      j := j - 1;
    }
  }

  /** The loop around the pivot. The result is the place where the pivot belongs. */
  method Partition<T>(a: array<T>, lt: Order<T>, l: int, u: int, p: T) returns (i: int)
    requires StrictWeak(lt, multiset(a[..])) && 0 <= l && l + 3 <= u < a.Length && a[u - 1] == p && Le(lt, a[l], p) && Le(lt, p, a[u])
    modifies a
    ensures Perm(old(a[..]), a[..], l, u) && l < i < u
    ensures a[i] == p && Below(lt, a[..], l, i, p) && Above(lt, a[..], i, u, p)
  {
    ghost var s, t := a[..], a[..];
    PermSelf(s, l, u);
    assert s[u - 1] == p && Consistent(lt, p, p, p);
    i := l;
    var j := u - 1;
    while true
      invariant l <= i <= j <= u - 1 && i < u - 1 && l < j && a[..] == t && |t| == a.Length
      invariant Perm(s, t, l, u) && Split(lt, t, l, u, i, j, p) && Le(lt, t[l], p)
      decreases j - i, j
    {
      i := ScanUp(a, lt, i, l, u, p);
      assert a[..][u - 1] == p;
      j := ScanDown(a, lt, j, l, u, p);
      if j < i { break; }
      ghost var v := Swapped(t, i, j);
      SwapSplit(lt, t, l, u, i, j, p);
      Swap(a, i, j, l, u);
      PermTrans(s, t, v, l, u);
      t := v;
    }
    PivotIn(lt, t, l, u, i, j, p);
    Swap(a, u - 1, i, l, u);
    PermTrans(s, t, a[..], l, u);
  }

  lemma SwapSplit<T>(lt: Order<T>, t: seq<T>, l: int, u: int, i: int, j: int, p: T)
    requires 0 <= l < i <= j < u - 1 && u < |t| && t[u - 1] == p && Le(lt, t[l], p)
    requires Below(lt, t, l, i - 1, p) && Le(lt, p, t[i]) && Above(lt, t, j + 1, u, p) && Le(lt, t[j], p)
    ensures Split(lt, Swapped(t, i, j), l, u, i, j, p) && Le(lt, Swapped(t, i, j)[l], p)
  {
  }

  lemma PivotIn<T>(lt: Order<T>, t: seq<T>, l: int, u: int, i: int, j: int, p: T)
    requires StrictWeak(lt, multiset(t)) && 0 <= l < i <= u - 1 && u < |t| && t[u - 1] == p && j < i
    requires Below(lt, t, l, i - 1, p) && Le(lt, p, t[i]) && Above(lt, t, j + 1, u, p)
    ensures var v := Swapped(t, u - 1, i); v[i] == p && Below(lt, v, l, i, p) && Above(lt, v, i, u, p)
  {
    assert Consistent(lt, p, p, p);
  }

  // ---------------------------------------------------------------- the whole sort

  ghost predicate Sorted<T>(lt: Order<T>, s: seq<T>, l: int, u: int) { forall x, y :: l <= x < y <= u && 0 <= x && y < |s| ==> Le(lt, s[x], s[y]) }

  /** Of the range l0..u0, only l..u may still be out of order. */
  ghost predicate SortedBut<T>(lt: Order<T>, s: seq<T>, l0: int, u0: int, l: int, u: int) {
    forall x, y :: l0 <= x < y <= u0 && 0 <= x && y < |s| && (x < l || y > u) ==> Le(lt, s[x], s[y])
  }

  /** Rearranging the part that is not in order yet does no harm. */
  lemma SortedButPerm<T>(lt: Order<T>, s: seq<T>, t: seq<T>, l0: int, u0: int, l: int, u: int)
    requires 0 <= l0 <= l <= u + 1 && u <= u0 < |s| && Perm(s, t, l, u) && SortedBut(lt, s, l0, u0, l, u)
    ensures SortedBut(lt, t, l0, u0, l, u)
  {
    forall x, y | l0 <= x < y <= u0 && (x < l || y > u) ensures Le(lt, t[x], t[y]) {
      var x', y' := x, y;
      if l <= x <= u { x' := PermSource(s, t, l, u, x); }
      if l <= y <= u { y' := PermSource(s, t, l, u, y); }
      assert t[x] == s[x'] && t[y] == s[y'];
    }
  }

  /** The part below the pivot has been sorted. */
  lemma LeftDone<T>(lt: Order<T>, v: seq<T>, w: seq<T>, l0: int, u0: int, l: int, i: int, u: int, p: T)
    requires StrictWeak(lt, multiset(v)) && 0 <= l0 <= l < i < u <= u0 < |v| && SortedBut(lt, v, l0, u0, l, u)
    requires v[i] == p && Below(lt, v, l, i, p) && Above(lt, v, i, u, p) && Perm(v, w, l, i - 1) && Sorted(lt, w, l, i - 1)
    ensures SortedBut(lt, w, l0, u0, i + 1, u)
  {
    PermWider(v, w, l, i - 1, l, u);
    SortedButPerm(lt, v, w, l0, u0, l, u);
    PermBelow(lt, v, w, l, i - 1, p);
    forall x, y | l0 <= x < y <= u0 && (x < i + 1 || y > u) ensures Le(lt, w[x], w[y]) {
      if l <= x && y <= u { if x < i < y { LeTrans(lt, multiset(w), w[x], p, w[y]); } }
    }
  }

  /** The part above the pivot has been sorted. */
  lemma RightDone<T>(lt: Order<T>, v: seq<T>, w: seq<T>, l0: int, u0: int, l: int, i: int, u: int, p: T)
    requires StrictWeak(lt, multiset(v)) && 0 <= l0 <= l < i < u <= u0 < |v| && SortedBut(lt, v, l0, u0, l, u)
    requires v[i] == p && Below(lt, v, l, i, p) && Above(lt, v, i, u, p) && Perm(v, w, i + 1, u) && Sorted(lt, w, i + 1, u)
    ensures SortedBut(lt, w, l0, u0, l, i - 1)
  {
    PermWider(v, w, i + 1, u, l, u);
    SortedButPerm(lt, v, w, l0, u0, l, u);
    PermAbove(lt, v, w, i + 1, u, p);
    forall x, y | l0 <= x < y <= u0 && (x < l || y > i - 1) ensures Le(lt, w[x], w[y]) {
      if l <= x && y <= u { if x < i < y { LeTrans(lt, multiset(w), w[x], p, w[y]); } }
    }
  }

  /** Two or three elements are in order after the first steps. */
  lemma FewDone<T>(lt: Order<T>, s: seq<T>, l0: int, u0: int, l: int, u: int)
    requires StrictWeak(lt, multiset(s)) && 0 <= l0 <= l < u <= u0 < |s| && u - l <= 2 && SortedBut(lt, s, l0, u0, l, u)
    requires if u - l == 1 then Le(lt, s[l], s[u]) else Le(lt, s[l], s[l + 1]) && Le(lt, s[l + 1], s[u])
    ensures Sorted(lt, s, l0, u0)
  {
    if u - l == 2 { LeTrans(lt, multiset(s), s[l], s[l + 1], s[u]); }
  }

  /** One round of auxsort: the first comparisons and, for four or more elements, the partition. */
  method Round<T>(a: array<T>, lt: Order<T>, l: int, u: int) returns (i: int)
    requires StrictWeak(lt, multiset(a[..])) && 0 <= l < u < a.Length
    modifies a
    ensures Perm(old(a[..]), a[..], l, u)
    ensures if u - l == 1 then Le(lt, a[l], a[u]) else if u - l == 2 then Le(lt, a[l], a[l + 1]) && Le(lt, a[l + 1], a[u])
      else l < i < u && Below(lt, a[..], l, i, a[i]) && Above(lt, a[..], i, u, a[i])
  {
    ghost var s := a[..];
    OrderEnds(a, lt, l, u);
    i := l;
    if u - l == 1 { return; }
    i := (l + u) / 2;
    ghost var t := a[..];
    OrderMiddle(a, lt, l, i, u);
    PermTrans(s, t, a[..], l, u);
    if u - l == 2 { return; }
    t := a[..];
    i := AroundPivot(a, lt, l, i, u);
    PermTrans(s, t, a[..], l, u);
  }

  /** The middle element becomes the pivot: it is put last but one, and the rest is divided. */
  method AroundPivot<T>(a: array<T>, lt: Order<T>, l: int, m: int, u: int) returns (i: int)
    requires StrictWeak(lt, multiset(a[..])) && 0 <= l && l + 3 <= u < a.Length && l < m < u - 1 && Le(lt, a[l], a[m]) && Le(lt, a[m], a[u])
    modifies a
    ensures Perm(old(a[..]), a[..], l, u) && l < i < u && Below(lt, a[..], l, i, a[i]) && Above(lt, a[..], i, u, a[i])
  {
    ghost var s := a[..];
    var p := a[m];
    Swap(a, m, u - 1, l, u);
    ghost var t := a[..];
    assert t == Swapped(s, m, u - 1);
    i := Partition(a, lt, l, u, p);
    PermTrans(s, t, a[..], l, u);
  }

  /** In terms of the order function itself: no element is less than one before it. */
  lemma SortedAt<T>(a: array<T>, lt: Order<T>, l: int, u: int)
    requires 0 <= l <= u + 1 <= a.Length && Sorted(lt, a[..], l, u)
    ensures forall x, y :: l <= x < y <= u ==> !lt(a[y], a[x])
  {
    forall x, y | l <= x < y <= u ensures !lt(a[y], a[x]) { assert Le(lt, a[..][x], a[..][y]); }
  }

  /** auxsort: the range is sorted, nothing else is touched, no order function that is a strict weak order is
      reported as invalid, and at most log2 of the size calls are nested. */
  method AuxSort<T>(a: array<T>, lt: Order<T>, l0: int, u0: int) returns (ghost depth: nat)
    requires StrictWeak(lt, multiset(a[..])) && 0 <= l0 <= u0 + 1 <= a.Length
    modifies a
    ensures Perm(old(a[..]), a[..], l0, u0) && Sorted(lt, a[..], l0, u0)
    ensures forall x, y :: l0 <= x < y <= u0 ==> !lt(a[y], a[x])
    ensures if u0 - l0 + 1 <= 1 then depth == 0 else Pow2(depth) <= u0 - l0 + 1
    decreases u0 - l0, 1
  {
    ghost var s := a[..];
    PermSelf(s, l0, u0);
    depth := 0;
    var l, u := l0, u0;
    while l < u
      invariant l0 <= l <= u + 1 && u <= u0 && Perm(s, a[..], l0, u0) && SortedBut(lt, a[..], l0, u0, l, u)
      invariant depth == 0 || Pow2(depth) <= u0 - l0 + 1
      decreases u - l
    {
      ghost var t := a[..];
      var i := Round(a, lt, l, u);
      SortedButPerm(lt, t, a[..], l0, u0, l, u);
      PermWider(t, a[..], l, u, l0, u0);
      PermTrans(s, t, a[..], l0, u0);
      if u - l <= 2 {
        FewDone(lt, a[..], l0, u0, l, u);
        SortedAt(a, lt, l0, u0);
        return;
      }
      t := a[..];
      ghost var d;
      l, u, d := SmallerPart(a, lt, l0, u0, l, i, u);
      PermTrans(s, t, a[..], l0, u0);
      if d + 1 > depth { depth := d + 1; }
    }
    SortedAt(a, lt, l0, u0);
  }

  /** auxsort, last part: the smaller part is sorted by a recursive call, the larger one is left. */
  method SmallerPart<T>(a: array<T>, lt: Order<T>, ghost l0: int, ghost u0: int, l: int, i: int, u: int) returns (l': int, u': int, ghost d: nat)
    requires StrictWeak(lt, multiset(a[..])) && 0 <= l0 <= l < i < u <= u0 < a.Length && u - l >= 3 && SortedBut(lt, a[..], l0, u0, l, u)
    requires Below(lt, a[..], l, i, a[i]) && Above(lt, a[..], i, u, a[i])
    modifies a
    ensures Perm(old(a[..]), a[..], l0, u0) && l <= l' <= u' + 1 && u' <= u && u' - l' < u - l && SortedBut(lt, a[..], l0, u0, l', u')
    ensures Pow2(d + 1) <= u - l + 1
    decreases u - l, 0
  {
    ghost var v := a[..];
    if i - l < u - i {
      d := AuxSort(a, lt, l, i - 1);
      LeftDone(lt, v, a[..], l0, u0, l, i, u, v[i]);
      PermWider(v, a[..], l, i - 1, l0, u0);
      l', u' := i + 1, u;
    } else {
      d := AuxSort(a, lt, i + 1, u);
      RightDone(lt, v, a[..], l0, u0, l, i, u, v[i]);
      PermWider(v, a[..], i + 1, u, l0, u0);
      l', u' := l, i - 1;
    }
  }

  /** table.sort */
  method Sort<T>(a: array<T>, lt: Order<T>)
    requires StrictWeak(lt, multiset(a[..]))
    modifies a
    ensures multiset(a[..]) == multiset(old(a[..])) && forall x, y :: 0 <= x < y < a.Length ==> !lt(a[y], a[x])
  {
    ghost var d := AuxSort(a, lt, 0, a.Length - 1);
  }
}
