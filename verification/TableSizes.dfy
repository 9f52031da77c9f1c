/** Sizing the array part (src/ltable.c, computesizes and the counting functions; src/lobject.c,
    luaO_log2). The keys to be placed are given as a finite set of positive integers. */
module TableSizes {
  import opened Basics

  const MAXBITS: nat := 26
  const MAXASIZE: nat := 0x400_0000

  function Pow2(n: nat): (p: nat)
    ensures p >= 1
  {
    if n == 0 then 1 else 2 * Pow2(n - 1)
  }

  lemma MaxSize()
    ensures Pow2(MAXBITS) == MAXASIZE
  {
    assert Pow2(13) == 0x2000;
    Pow2Add(13, 13);
  }

  lemma {:induction false} Pow2Mono(a: nat, b: nat)
    requires a <= b
    ensures Pow2(a) <= Pow2(b)
    ensures a < b ==> 2 * Pow2(a) <= Pow2(b)
  {
    if a < b { Pow2Mono(a, b - 1); }
  }

  lemma {:induction false} Pow2Add(a: nat, b: nat)
    ensures Pow2(a + b) == Pow2(a) * Pow2(b)
  {
    if a > 0 { Pow2Add(a - 1, b); }
  }

  // ---------------------------------------------------------------- logarithms

  /** The table of luaO_log2: one more than the base-2 logarithm, and 0 for 0. */
  function Log8(x: nat): (l: nat)
    requires x < 256
    ensures if x == 0 then l == 0 else l >= 1 && Pow2(l - 1) <= x < Pow2(l)
  {
    assert Pow2(0) == 1 && Pow2(1) == 2 && Pow2(2) == 4 && Pow2(3) == 8 && Pow2(4) == 16;
    assert Pow2(5) == 32 && Pow2(6) == 64 && Pow2(7) == 128 && Pow2(8) == 256;
    if x == 0 then 0 else if x < 2 then 1 else if x < 4 then 2 else if x < 8 then 3 else if x < 16 then 4
    else if x < 32 then 5 else if x < 64 then 6 else if x < 128 then 7 else 8
  }

  /** luaO_log2: the integer part of the base-2 logarithm, and -1 for 0. */
  method Log2(x0: nat) returns (r: int)
    ensures x0 == 0 ==> r == -1
    ensures x0 > 0 ==> r >= 0 && Pow2(r) <= x0 < Pow2(r + 1)
  {
    var l: int := -1;
    var x := x0;
    ghost var shift: nat := 0;
    while x >= 256
      invariant shift == l + 1 && Pow2(shift) * x <= x0 < Pow2(shift) * (x + 1)
      invariant if x0 == 0 then x == 0 && shift == 0 else x > 0
    {
      Shift8(shift, x, x0);
      l := l + 8;
      x := x / 256;
      shift := shift + 8;
    }
    var t := Log8(x);
    if x > 0 { Log2Done(shift, x, x0, t); }
    r := l + t;
  }

  lemma Shift8(s: nat, x: nat, x0: nat)
    requires x >= 256 && Pow2(s) * x <= x0 < Pow2(s) * (x + 1)
    ensures Pow2(s + 8) * (x / 256) <= x0 < Pow2(s + 8) * (x / 256 + 1) && x / 256 > 0
  {
    Pow2Add(s, 8);
    assert Pow2(8) == 256 by { assert Pow2(4) == 16; Pow2Add(4, 4); }
    var q := x / 256;
    assert Pow2(s + 8) * q == Pow2(s) * (256 * q);
    assert Pow2(s + 8) * (q + 1) == Pow2(s) * (256 * q + 256);
    MulMono(Pow2(s), 256 * q, x);
    MulMono(Pow2(s), x + 1, 256 * q + 256);
  }

  lemma MulMono(p: nat, a: nat, b: nat)
    requires a <= b
    ensures p * a <= p * b
  {
  }

  lemma Log2Done(s: nat, x: nat, x0: nat, t: nat)
    requires t >= 1 && Pow2(t - 1) <= x < Pow2(t) && Pow2(s) * x <= x0 < Pow2(s) * (x + 1)
    ensures Pow2(s + t - 1) <= x0 < Pow2(s + t)
  {
    Pow2Add(s, t - 1); Pow2Add(s, t);
    MulMono(Pow2(s), Pow2(t - 1), x);
    MulMono(Pow2(s), x + 1, Pow2(t));
  }

  // ---------------------------------------------------------------- slices

  /** Slice j of the positive integers: those greater than 2^(j-1) and at most 2^j. */
  predicate InSlice(x: int, j: nat) { x >= 1 && x <= Pow2(j) && (j == 0 || Pow2(j - 1) < x) }

  /** ceillog2(x): the slice that x belongs to. */
  method CeilLog2(x: nat) returns (j: nat)
    requires x >= 1
    ensures InSlice(x, j)
  {
    var l := Log2(x - 1);
    j := l + 1;
  }

  lemma OneSlice(x: int, i: nat, j: nat)
    requires InSlice(x, i) && InSlice(x, j)
    ensures i == j
  {
    if i < j { Pow2Mono(i, j - 1); } else if j < i { Pow2Mono(j, i - 1); }
  }

  ghost function Slice(s: set<int>, j: nat): set<int> { set x | x in s && InSlice(x, j) }

  ghost function UpTo(s: set<int>, n: nat): set<int> { set x | x in s && 1 <= x <= n }

  /** nums[j] is the number of keys in slice j. */
  ghost predicate Counts(nums: seq<nat>, s: set<int>) {
    |nums| == MAXBITS + 1 && forall j :: 0 <= j <= MAXBITS ==> nums[j] == |Slice(s, j)|
  }

  lemma CountsEmpty()
    ensures Counts(seq(MAXBITS + 1, _ => 0), {})
  {
    assert forall j: nat :: Slice({}, j) == {};
  }

  /** Counting one more key. */
  lemma CountsAdd(nums: seq<nat>, s: set<int>, x: int, j: nat)
    requires Counts(nums, s) && x !in s && j <= MAXBITS && InSlice(x, j)
    ensures Counts(nums[j := nums[j] + 1], s + {x})
  {
    forall i | 0 <= i <= MAXBITS ensures nums[j := nums[j] + 1][i] == |Slice(s + {x}, i)| {
      if i == j {
        assert Slice(s + {x}, i) == Slice(s, i) + {x};
      } else {
        if InSlice(x, i) { OneSlice(x, i, j); }
        assert Slice(s + {x}, i) == Slice(s, i);
      }
    }
  }

  lemma UpToSplit(s: set<int>, j: nat)
    requires j > 0
    ensures UpTo(s, Pow2(j)) == UpTo(s, Pow2(j - 1)) + Slice(s, j)
    ensures |UpTo(s, Pow2(j))| == |UpTo(s, Pow2(j - 1))| + |Slice(s, j)|
  {
    assert UpTo(s, Pow2(j)) == UpTo(s, Pow2(j - 1)) + Slice(s, j);
    assert UpTo(s, Pow2(j - 1)) !! Slice(s, j);
  }

  lemma UpToOne(s: set<int>)
    ensures UpTo(s, Pow2(0)) == Slice(s, 0)
  {
  }

  /** A set of integers from 1..n has at most n elements. */
  lemma {:induction false} UpToBound(s: set<int>, n: nat)
    ensures |UpTo(s, n)| <= n
  {
    if n == 0 {
      assert UpTo(s, 0) == {};
    } else {
      UpToBound(s, n - 1);
      var a, b := UpTo(s, n), UpTo(s, n - 1);
      if n in s { assert a == b + {n}; } else { assert a == b; }
    }
  }

  // ---------------------------------------------------------------- computesizes

  /** An array part of size n would be more than half full. */
  ghost predicate Candidate(s: set<int>, n: nat) { |UpTo(s, n)| > n / 2 }

  /** The best array size: the largest power of two that is a candidate, or 0. */
  ghost predicate Optimal(s: set<int>, n: nat) {
    && (n == 0 || (exists i: nat :: n == Pow2(i) && Candidate(s, n)))
    && forall i: nat :: Candidate(s, Pow2(i)) ==> Pow2(i) <= n
  }

  /** If slice i is empty, 2^i cannot be a candidate unless i is 0. */
  lemma EmptySlice(s: set<int>, i: nat)
    requires |Slice(s, i)| == 0
    ensures !Candidate(s, Pow2(i))
  {
    if i == 0 { UpToOne(s); } else { UpToSplit(s, i); UpToBound(s, Pow2(i - 1)); }
  }

  /** Once all keys are counted, larger slices are empty. */
  lemma AllCounted(s: set<int>, i: nat, j: nat)
    requires i < j && |UpTo(s, Pow2(i))| == |s|
    ensures !Candidate(s, Pow2(j))
  {
    Pow2Mono(i, j);
    assert UpTo(s, Pow2(i)) <= UpTo(s, Pow2(j)) <= s;
    SubsetSize(UpTo(s, Pow2(j)), s);
    UpToBound(s, Pow2(i));
  }

  /** A power of two of at least twice the number of keys is no candidate. */
  lemma TooLarge(s: set<int>, j: nat)
    requires Pow2(j) / 2 >= |s|
    ensures !Candidate(s, Pow2(j))
  {
    SubsetSize(UpTo(s, Pow2(j)), s);
  }

  lemma SizeStep(s: set<int>, i: nat)
    requires Pow2(i) / 2 < |s| && forall x :: x in s ==> 1 <= x <= MAXASIZE
    ensures i <= MAXBITS
    ensures |UpTo(s, Pow2(i))| == (if i == 0 then 0 else |UpTo(s, Pow2(i - 1))|) + |Slice(s, i)|
    ensures |Slice(s, i)| == 0 ==> !Candidate(s, Pow2(i))
  {
    MaxSize();
    assert UpTo(s, MAXASIZE) == s;
    UpToBound(s, MAXASIZE);
    if i > MAXBITS { Pow2Mono(MAXBITS, i); assert false; }
    if i == 0 { UpToOne(s); } else { UpToSplit(s, i); }
    if |Slice(s, i)| == 0 { EmptySlice(s, i); }
  }

  /** n is the best size among the powers of two below 2^i. */
  ghost predicate BestBelow(s: set<int>, n: nat, i: nat) {
    && (n == 0 || (exists j: nat :: n == Pow2(j) && Candidate(s, n)))
    && forall j: nat :: j < i && Candidate(s, Pow2(j)) ==> Pow2(j) <= n
  }

  lemma BestStep(s: set<int>, n: nat, i: nat)
    requires BestBelow(s, n, i)
    ensures if Candidate(s, Pow2(i)) then BestBelow(s, Pow2(i), i + 1) else BestBelow(s, n, i + 1)
  {
    forall j: nat | j < i ensures Pow2(j) <= Pow2(i) { Pow2Mono(j, i); }
  }

  /** The early exit: all keys lie in 1..2^i. */
  lemma BestEarly(s: set<int>, n: nat, i: nat)
    requires BestBelow(s, n, i + 1) && |UpTo(s, Pow2(i))| == |s|
    ensures Optimal(s, n)
  {
    forall j: nat | Candidate(s, Pow2(j)) ensures Pow2(j) <= n {
      if j > i { AllCounted(s, i, j); }
    }
  }

  /** The regular exit: there are too few keys for a larger size. */
  lemma BestLast(s: set<int>, n: nat, i: nat)
    requires BestBelow(s, n, i) && Pow2(i) / 2 >= |s|
    ensures Optimal(s, n)
  {
    forall j: nat | Candidate(s, Pow2(j)) ensures Pow2(j) <= n {
      if j >= i { Pow2Mono(i, j); TooLarge(s, j); }
    }
  }

  /** computesizes: from the sliced counts alone, the optimal array size and the exact number of
      keys that go there, although it skips empty slices and stops early. */
  method ComputeSizes(nums: seq<nat>, narray: nat, ghost s: set<int>) returns (n: nat, na: nat)
    requires Counts(nums, s) && narray == |s| && (forall x :: x in s ==> 1 <= x <= MAXASIZE)
    ensures Optimal(s, n) && na == |UpTo(s, n)|
  {
    var a := 0;
    n, na := 0, 0;
    assert UpTo(s, 0) == {};
    var i, twotoi := 0, 1;
    while twotoi / 2 < narray
      invariant twotoi == Pow2(i) && BestBelow(s, n, i)
      invariant a == if i == 0 then 0 else |UpTo(s, Pow2(i - 1))|
      invariant na == |UpTo(s, n)|
      decreases 2 * narray - twotoi
    {
      SizeStep(s, i);
      BestStep(s, n, i);
      if nums[i] > 0 {
        a := a + nums[i];
        if a > twotoi / 2 { n, na := twotoi, a; }
      }
      if a == narray {
        BestEarly(s, n, i);
        return;
      }
      i, twotoi := i + 1, twotoi * 2;
    }
    BestLast(s, n, i);
  }
}
