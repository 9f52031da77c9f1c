/** Counting the keys of a table before it grows (src/ltable.c, numusearray, numusehash, countint).
    The keys are tallied in the order in which the code meets them; the tally depends on the set of
    keys only. */
module TableCount {
  import opened Basics
  import opened TableChain
  import opened TableSizes
  import opened TableParts

  /** The key is a candidate for the array part. */
  predicate Cand(k: Key) { k.Int? && 0 < k.n <= MAXASIZE }

  predicate Live<V>(n: Node<V>) { n.key.Some? && n.val.Some? }

  /** The keys of an array part that are below i and have a value. */
  ghost function ArrayKeys<V>(arr: seq<Option<V>>, i: nat): seq<Key>
    requires i <= |arr| + 1
  {
    if i <= 1 then [] else if arr[i - 2].Some? then ArrayKeys(arr, i - 1) + [Int(i - 1)] else ArrayKeys(arr, i - 1)
  }

  /** The keys with a value in nodes i and above, last node first. */
  ghost function NodeKeys<V>(node: seq<Node<V>>, i: nat): seq<Key>
    requires i <= |node|
    decreases |node| - i
  {
    if i == |node| then [] else if Live(node[i]) then NodeKeys(node, i + 1) + [node[i].key.value] else NodeKeys(node, i + 1)
  }

  ghost function SliceOf(x: int): (j: nat)
    requires 1 <= x
    ensures InSlice(x, j)
  {
    if x == 1 then 0 else 1 + SliceOf((x + 1) / 2)
  }

  ghost function AddTo(nums: seq<nat>, j: nat, c: nat): (r: seq<nat>) { if j < |nums| then nums[j := nums[j] + c] else nums }

  ghost function Bump(nums: seq<nat>, k: Key): seq<nat> { if Cand(k) then AddTo(nums, SliceOf(k.n), 1) else nums }

  function Zeros(): seq<nat> { seq(MAXBITS + 1, _ => 0) }

  /** The counts after meeting the keys `ks`. */
  ghost function Tally(nums: seq<nat>, ks: seq<Key>): (r: seq<nat>)
    ensures |r| == |nums|
  {
    if ks == [] then nums else Bump(Tally(nums, ks[..|ks| - 1]), ks[|ks| - 1])
  }

  ghost function Cands(ks: seq<Key>): nat {
    if ks == [] then 0 else Cands(ks[..|ks| - 1]) + if Cand(ks[|ks| - 1]) then 1 else 0
  }

  lemma TallyLast(nums: seq<nat>, ks: seq<Key>, k: Key)
    ensures Tally(nums, ks + [k]) == Bump(Tally(nums, ks), k)
    ensures Cands(ks + [k]) == Cands(ks) + if Cand(k) then 1 else 0
  {
    assert (ks + [k])[..|ks|] == ks;
  }

  lemma {:induction false} TallyAppend(nums: seq<nat>, a: seq<Key>, b: seq<Key>)
    ensures Tally(nums, a + b) == Tally(Tally(nums, a), b) && Cands(a + b) == Cands(a) + Cands(b)
    decreases |b|
  {
    if b == [] {
      assert a + b == a;
    } else {
      var c, k := b[..|b| - 1], b[|b| - 1];
      assert b == c + [k] && a + b == (a + c) + [k];
      TallyAppend(nums, a, c);
      TallyLast(nums, a + c, k);
      TallyLast(Tally(nums, a), c, k);
    }
  }

  /** All candidates of the array part count. */
  lemma {:induction false} ArrayCands<V>(arr: seq<Option<V>>, i: nat)
    requires i <= |arr| + 1 && |arr| <= MAXASIZE
    ensures Cands(ArrayKeys(arr, i)) == |ArrayKeys(arr, i)|
  {
    if i > 1 {
      ArrayCands(arr, i - 1);
      if arr[i - 2].Some? { TallyLast([], ArrayKeys(arr, i - 1), Int(i - 1)); }
    }
  }

  /** Positions i..j-1 all belong to slice lg, so they count there. */
  lemma {:induction false} SliceTally<V>(arr: seq<Option<V>>, i: nat, j: nat, nums: seq<nat>, lg: nat)
    requires 1 <= i <= j <= |arr| + 1 && |arr| <= MAXASIZE && lg < |nums|
    requires j - 1 <= Pow2(lg) && (i == j || lg == 0 || Pow2(lg - 1) < i)
    ensures |ArrayKeys(arr, i)| <= |ArrayKeys(arr, j)|
    ensures Tally(nums, ArrayKeys(arr, j)) == AddTo(Tally(nums, ArrayKeys(arr, i)), lg, |ArrayKeys(arr, j)| - |ArrayKeys(arr, i)|)
    decreases j
  {
    var t := Tally(nums, ArrayKeys(arr, i));
    if i == j {
      AddMore(t, lg, 0);
    } else {
      SliceTally(arr, i, j - 1, nums, lg);
      SliceStep(arr, j - 1, nums, lg, t, |ArrayKeys(arr, j - 1)| - |ArrayKeys(arr, i)|);
    }
  }

  lemma SliceStep<V>(arr: seq<Option<V>>, j: nat, nums: seq<nat>, lg: nat, t: seq<nat>, c: nat)
    requires 1 <= j <= |arr| <= MAXASIZE && InSlice(j, lg) && Tally(nums, ArrayKeys(arr, j)) == AddTo(t, lg, c)
    ensures Tally(nums, ArrayKeys(arr, j + 1)) == AddTo(t, lg, c + |ArrayKeys(arr, j + 1)| - |ArrayKeys(arr, j)|)
  {
    if arr[j - 1].Some? {
      TallyLast(nums, ArrayKeys(arr, j), Int(j));
      BumpSlice(Tally(nums, ArrayKeys(arr, j)), j, lg);
      AddMore(t, lg, c);
    }
  }

  lemma AddMore(nums: seq<nat>, j: nat, c: nat)
    ensures AddTo(AddTo(nums, j, c), j, 1) == AddTo(nums, j, c + 1)
    ensures AddTo(nums, j, 0) == nums
  {
  }

  lemma BumpSlice(nums: seq<nat>, x: nat, j: nat)
    requires 1 <= x <= MAXASIZE && InSlice(x, j)
    ensures Bump(nums, Int(x)) == AddTo(nums, j, 1)
  {
    OneSlice(x, SliceOf(x), j);
  }

  /** The first position of slice lg, or the end of the array if that comes before. */
  ghost function FirstOf(lg: nat, n: nat): (i: nat)
    ensures 1 <= i <= n + 1
  {
    if lg == 0 then 1 else if Pow2(lg - 1) < n then Pow2(lg - 1) + 1 else n + 1
  }

  lemma SliceFrom<V>(arr: seq<Option<V>>, lg: nat, lim: nat, nums: seq<nat>)
    requires |arr| <= MAXASIZE && lg < |nums| && lim == if Pow2(lg) > |arr| then |arr| else Pow2(lg)
    ensures FirstOf(lg + 1, |arr|) == lim + 1 && FirstOf(lg, |arr|) <= lim + 1
    ensures var i := FirstOf(lg, |arr|);
      && |ArrayKeys(arr, i)| <= |ArrayKeys(arr, lim + 1)|
      && Tally(nums, ArrayKeys(arr, lim + 1)) == AddTo(Tally(nums, ArrayKeys(arr, i)), lg, |ArrayKeys(arr, lim + 1)| - |ArrayKeys(arr, i)|)
  {
    SliceTally(arr, FirstOf(lg, |arr|), lim + 1, nums, lg);
  }

  // ---------------------------------------------------------------- what the tally means

  ghost predicate Distinct(ks: seq<Key>) { forall a, b :: 0 <= a < b < |ks| ==> ks[a] != ks[b] }

  ghost function Elements(ks: seq<Key>): set<Key> { set k | k in ks }

  /** The keys that are candidates for the array part. */
  ghost function IntsOf(s: set<Key>): set<int> { set k | k in s && Cand(k) :: k.n }

  lemma ElementsLast(ks: seq<Key>, k: Key)
    requires k !in ks
    ensures Elements(ks + [k]) == Elements(ks) + {k}
    ensures IntsOf(Elements(ks + [k])) == if Cand(k) then IntsOf(Elements(ks)) + {k.n} else IntsOf(Elements(ks))
    ensures Cand(k) ==> k.n !in IntsOf(Elements(ks))
  {
    assert Elements(ks + [k]) == Elements(ks) + {k};
  }

  /** The tally of distinct keys counts their candidates slice by slice. */
  lemma {:induction false} TallyCounts(ks: seq<Key>)
    requires Distinct(ks)
    ensures Counts(Tally(Zeros(), ks), IntsOf(Elements(ks)))
    ensures Cands(ks) == |IntsOf(Elements(ks))| && |ks| == |Elements(ks)|
    decreases |ks|
  {
    if ks == [] {
      CountsEmpty();
      assert IntsOf(Elements(ks)) == {};
    } else {
      var c, k := ks[..|ks| - 1], ks[|ks| - 1];
      assert ks == c + [k] && k !in c;
      TallyCounts(c);
      ElementsLast(c, k);
      if Cand(k) {
        SliceBound(k.n, SliceOf(k.n));
        CountsAdd(Tally(Zeros(), c), IntsOf(Elements(c)), k.n, SliceOf(k.n));
      }
    }
  }

  lemma SliceBound(x: int, j: nat)
    requires 1 <= x <= MAXASIZE && InSlice(x, j)
    ensures j <= MAXBITS
  {
    MaxSize();
    if j > MAXBITS { Pow2Mono(MAXBITS, j - 1); }
  }

  // ---------------------------------------------------------------- the keys of a table

  lemma {:induction false} ArrayKeysIn<V>(arr: seq<Option<V>>, i: nat, k: Key)
    requires i <= |arr| + 1
    ensures k in ArrayKeys(arr, i) <==> k.Int? && 1 <= k.n < i && arr[k.n - 1].Some?
  {
    if i > 1 { ArrayKeysIn(arr, i - 1, k); }
  }

  lemma {:induction false} ArrayKeysDistinct<V>(arr: seq<Option<V>>, i: nat)
    requires i <= |arr| + 1
    ensures Distinct(ArrayKeys(arr, i))
  {
    if i > 1 { ArrayKeysDistinct(arr, i - 1); ArrayKeysIn(arr, i - 1, Int(i - 1)); }
  }

  lemma {:induction false} NodeKeysIn<V>(node: seq<Node<V>>, l: Links, i: nat, k: Key)
    requires i <= |node| && Located(node, l)
    ensures k in NodeKeys(node, i) <==> k in l.at && l.at[k] >= i && Live(node[l.at[k]])
    decreases |node| - i
  {
    if i < |node| { NodeKeysIn(node, l, i + 1, k); }
  }

  lemma {:induction false} NodeKeysDistinct<V>(node: seq<Node<V>>, l: Links, i: nat)
    requires i <= |node| && Located(node, l)
    ensures Distinct(NodeKeys(node, i))
    decreases |node| - i
  {
    if i < |node| {
      NodeKeysDistinct(node, l, i + 1);
      if Live(node[i]) { NodeKeysIn(node, l, i + 1, node[i].key.value); }
    }
  }

  lemma DistinctAppend(a: seq<Key>, b: seq<Key>)
    requires Distinct(a) && Distinct(b) && forall k :: k in a ==> k !in b
    ensures Distinct(a + b)
  {
    forall i, j | 0 <= i < j < |a + b| ensures (a + b)[i] != (a + b)[j] {
      if i < |a| <= j { assert a[i] in a && b[j - |a|] in b; }
    }
  }

  ghost function TableKeys<V>(arr: seq<Option<V>>, node: seq<Node<V>>, k: Key): seq<Key> {
    ArrayKeys(arr, |arr| + 1) + NodeKeys(node, 0) + [k]
  }

  /** The table's keys and the new one, each once. */
  lemma AllKeys<V>(arr: seq<Option<V>>, node: seq<Node<V>>, l: Links, m: map<Key, V>, k: Key)
    requires Holds(arr, node, l.at, m) && Apart(|arr|, l.at) && Located(node, l) && k !in m
    requires forall i :: 0 <= i < |node| && node[i].key.None? ==> node[i].val.None?
    ensures Distinct(TableKeys(arr, node, k)) && Elements(TableKeys(arr, node, k)) == m.Keys + {k}
  {
    var a, h := ArrayKeys(arr, |arr| + 1), NodeKeys(node, 0);
    ArrayKeysDistinct(arr, |arr| + 1);
    NodeKeysDistinct(node, l, 0);
    forall x ensures (x in m <==> x in a || x in h) && (x in a ==> x !in h) {
      assert ValueAt(arr, node, l.at, x) == Lookup(m, x);
      ArrayKeysIn(arr, |arr| + 1, x);
      NodeKeysIn(node, l, 0, x);
    }
    DistinctAppend(a, h);
    assert k !in a + h;
    DistinctAppend(a + h, [k]);
    forall x ensures x in Elements(TableKeys(arr, node, k)) <==> x in m.Keys + {k} {
      assert x in (a + h) + [k] <==> x in a || x in h || x == k;
    }
  }

  /** What the three counting steps of rehash arrive at. */
  lemma TableTally<V>(arr: seq<Option<V>>, node: seq<Node<V>>, l: Links, m: map<Key, V>, k: Key)
    requires Holds(arr, node, l.at, m) && Apart(|arr|, l.at) && Located(node, l) && |arr| <= MAXASIZE && k !in m
    requires forall i :: 0 <= i < |node| && node[i].key.None? ==> node[i].val.None?
    ensures var a, h, s := ArrayKeys(arr, |arr| + 1), NodeKeys(node, 0), IntsOf(m.Keys + {k});
      && Counts(Bump(Tally(Tally(Zeros(), a), h), k), s)
      && |a| + Cands(h) + (if Cand(k) then 1 else 0) == |s| && |a| + |h| == |m|
  {
    TallyParts(ArrayKeys(arr, |arr| + 1), NodeKeys(node, 0), k);
    ArrayCands(arr, |arr| + 1);
    AllKeys(arr, node, l, m, k);
    TallyCounts(TableKeys(arr, node, k));
    assert |m.Keys + {k}| == |m.Keys| + 1;
  }

  lemma TallyParts(a: seq<Key>, h: seq<Key>, k: Key)
    ensures Bump(Tally(Tally(Zeros(), a), h), k) == Tally(Zeros(), a + h + [k])
    ensures Cands(a + h + [k]) == Cands(a) + Cands(h) + if Cand(k) then 1 else 0
  {
    TallyAppend(Zeros(), a, h);
    TallyLast(Zeros(), a + h, k);
  }

  // ---------------------------------------------------------------- the counting loops

  /** numusearray, one slice. */
  method CountSlice<V>(arr: seq<Option<V>>, i0: nat, lim: nat, lg: nat, nums: array<nat>) returns (lc: nat)
    requires 1 <= i0 <= lim + 1 && lim <= |arr| && lg < nums.Length
    modifies nums
    ensures lc == |ArrayKeys(arr, lim + 1)| - |ArrayKeys(arr, i0)| && nums[..] == AddTo(old(nums[..]), lg, lc)
  {
    lc := 0;
    var i := i0;
    while i <= lim
      invariant i0 <= i <= lim + 1
      invariant lc == |ArrayKeys(arr, i)| - |ArrayKeys(arr, i0)|
    {
      if arr[i - 1].Some? { lc := lc + 1; }
      i := i + 1;
    }
    nums[lg] := nums[lg] + lc;
  }

  /** numusearray: the live entries of the array part, counted slice by slice. */
  method NumUseArray<V>(arr: seq<Option<V>>, nums: array<nat>) returns (ause: nat)
    requires |arr| <= MAXASIZE && nums.Length == MAXBITS + 1
    modifies nums
    ensures nums[..] == Tally(old(nums[..]), ArrayKeys(arr, |arr| + 1)) && ause == |ArrayKeys(arr, |arr| + 1)|
  {
    ghost var start: seq<nat> := nums[..];
    ause := 0;
    var i, lg, ttlg := 1, 0, 1;
    MaxSize();
    while lg <= MAXBITS
      invariant 0 <= lg <= MAXBITS + 1 && ttlg == Pow2(lg)
      invariant i == FirstOf(lg, |arr|)
      invariant nums[..] == Tally(start, ArrayKeys(arr, i)) && ause == |ArrayKeys(arr, i)|
    {
      var lim := ttlg;
      if lim > |arr| {
        lim := |arr|;
        if i > lim { break; }
      }
      SliceFrom(arr, lg, lim, start);
      var lc := CountSlice(arr, i, lim, lg, nums);
      ause := ause + lc;
      i, lg, ttlg := lim + 1, lg + 1, ttlg * 2;
    }
  }

  /** countint */
  method CountInt(k: Key, nums: array<nat>) returns (c: nat)
    requires nums.Length == MAXBITS + 1
    modifies nums
    ensures nums[..] == Bump(old(nums[..]), k) && c == if Cand(k) then 1 else 0
  {
    if k.Int? && 0 < k.n <= MAXASIZE {
      var j := CeilLog2(k.n);
      BumpSlice(nums[..], k.n, j);
      SliceBound(k.n, j);
      nums[j] := nums[j] + 1;
      return 1;
    }
    return 0;
  }

  /** numusehash: the live entries of the hash part, from the last node to the first. */
  method NumUseHash<V>(node: seq<Node<V>>, nums: array<nat>) returns (totaluse: nat, ause: nat)
    requires nums.Length == MAXBITS + 1 && (forall i :: 0 <= i < |node| && node[i].key.None? ==> node[i].val.None?)
    modifies nums
    ensures nums[..] == Tally(old(nums[..]), NodeKeys(node, 0))
    ensures totaluse == |NodeKeys(node, 0)| && ause == Cands(NodeKeys(node, 0))
  {
    ghost var start: seq<nat> := nums[..];
    totaluse, ause := 0, 0;
    var i := |node|;
    while i > 0
      invariant 0 <= i <= |node|
      invariant nums[..] == Tally(start, NodeKeys(node, i))
      invariant totaluse == |NodeKeys(node, i)| && ause == Cands(NodeKeys(node, i))
    {
      i := i - 1;
      if node[i].val.Some? {
        TallyLast(start, NodeKeys(node, i + 1), node[i].key.value);
        var c := CountInt(node[i].key.value, nums);
        ause := ause + c;
        totaluse := totaluse + 1;
      }
    }
  }

  /** rehash, first half: the sliced counts of all integer keys and the total number of keys. */
  method CountKeys<V>(arr: seq<Option<V>>, node: seq<Node<V>>, k: Key, ghost l: Links, ghost m: map<Key, V>)
    returns (nums: array<nat>, nasize: nat, totaluse: nat)
    requires Holds(arr, node, l.at, m) && Apart(|arr|, l.at) && Located(node, l) && |arr| <= MAXASIZE && k !in m
    requires forall i :: 0 <= i < |node| && node[i].key.None? ==> node[i].val.None?
    ensures Counts(nums[..], IntsOf(m.Keys + {k})) && nasize == |IntsOf(m.Keys + {k})| && totaluse == |m| + 1
  {
    nums := new nat[MAXBITS + 1](_ => 0);
    assert nums[..] == Zeros();
    nasize := NumUseArray(arr, nums);
    totaluse := nasize;
    var hashuse, ause := NumUseHash(node, nums);
    totaluse, nasize := totaluse + hashuse, nasize + ause;
    var c := CountInt(k, nums);
    nasize := nasize + c;
    totaluse := totaluse + 1;
    TableTally(arr, node, l, m, k);
  }

  // ---------------------------------------------------------------- what goes where

  ghost function Ints(a: set<int>): set<Key> { set x | x in a :: Int(x) }

  lemma Pick<T>(s: set<T>) returns (x: T)
    requires |s| > 0
    ensures x in s
  {
    x :| x in s;
  }

  lemma {:induction false} IntsSize(a: set<int>)
    ensures |Ints(a)| == |a|
    decreases a
  {
    if |a| == 0 {
      assert Ints(a) == {};
    } else {
      var x := Pick(a);
      IntsSize(a - {x});
      assert Ints(a) == Ints(a - {x}) + {Int(x)};
    }
  }

  lemma SplitSize<T>(s: set<T>, a: set<T>, b: set<T>)
    requires forall x :: (x in s <==> x in a || x in b) && !(x in a && x in b)
    ensures s == a + b && |s| == |a| + |b|
  {
    assert s == a + b;
    assert a !! b;
  }

  /** The optimal size is within the limit. */
  lemma SizeBound(s: set<int>, n: nat)
    requires Optimal(s, n) && forall x :: x in s ==> 1 <= x <= MAXASIZE
    ensures n <= MAXASIZE
  {
    if n != 0 {
      MaxSize();
      var i: nat :| n == Pow2(i) && Candidate(s, n);
      SubsetSize(UpTo(s, n), s);
      SizeStep(s, i);
      Pow2Mono(i, MAXBITS);
    }
  }

  /** How many nodes are needed beside an array part of size n when k is added. */
  ghost function NodesFor<V>(m: map<Key, V>, k: Key, n: nat): nat { |HashKeys(m, n)| + if InRange(n, k) then 0 else 1 }

  /** With k, the entries can be laid out in an array part of the optimal size and a hash part within its limit. */
  ghost predicate Fits<V>(m: map<Key, V>, k: Key) {
    exists n: nat :: Optimal(IntsOf(m.Keys + {k}), n) && NodesFor(m, k, n) <= MAXASIZE
  }

  lemma FitsAt<V>(m: map<Key, V>, k: Key, n: nat)
    requires Optimal(IntsOf(m.Keys + {k}), n)
    ensures Fits(m, k) <==> NodesFor(m, k, n) <= MAXASIZE
  {
    forall x: nat | Optimal(IntsOf(m.Keys + {k}), x) ensures x == n { OneOptimal(IntsOf(m.Keys + {k}), x, n); }
  }

  lemma OneOptimal(s: set<int>, x: nat, y: nat)
    requires Optimal(s, x) && Optimal(s, y)
    ensures x == y
  {
    if x != 0 { var i: nat :| x == Pow2(i) && Candidate(s, x); }
    if y != 0 { var i: nat :| y == Pow2(i) && Candidate(s, y); }
  }

  /** How many entries are left for the hash part, and the new key is counted where it goes. */
  lemma SplitKeys<V>(m: map<Key, V>, k: Key, n: nat)
    requires k !in m && n <= MAXASIZE
    ensures var na := |UpTo(IntsOf(m.Keys + {k}), n)|;
      |HashKeys(m, n)| == |m| + 1 - na - (if InRange(n, k) then 0 else 1)
  {
    var keys, rest := m.Keys + {k}, if InRange(n, k) then {} else {k};
    var u, h := UpTo(IntsOf(keys), n), HashKeys(m, n);
    forall x ensures (x in keys <==> x in Ints(u) || x in h + rest) && !(x in Ints(u) && x in h + rest) {
      KeySplit(keys, n, x);
    }
    SplitSize(keys, Ints(u), h + rest);
    SplitSize(h + rest, h, rest);
    IntsSize(u);
    SplitSize(keys, m.Keys, {k});
  }

  lemma KeySplit(keys: set<Key>, n: nat, x: Key)
    requires n <= MAXASIZE
    ensures x in Ints(UpTo(IntsOf(keys), n)) <==> x in keys && InRange(n, x)
  {
    if x in keys && InRange(n, x) { assert x.n in IntsOf(keys); }
  }
}
