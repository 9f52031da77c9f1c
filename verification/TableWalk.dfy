/** Traversal and length of a table (src/ltable.c, luaH_next and luaH_getn), on its two parts. */
module TableWalk {
  import opened Basics
  import opened TableChain
  import opened TableParts

  /** The traversal index of a key: array slots come first, then the nodes. */
  ghost function Index(n: nat, at: map<Key, nat>, k: Key): int {
    if InRange(n, k) then k.n - 1 else if k in at then n + at[k] else -1
  }

  lemma IndexInjective<V>(n: nat, node: seq<Node<V>>, l: Links, j: Key, k: Key)
    requires Located(node, l) && Index(n, l.at, j) == Index(n, l.at, k) != -1
    ensures j == k
  {
  }

  /** A key that holds a value has an index. */
  lemma IndexOf<V>(arr: seq<Option<V>>, node: seq<Node<V>>, at: map<Key, nat>, m: map<Key, V>, k: Key)
    requires Holds(arr, node, at, m) && k in m
    ensures 0 <= Index(|arr|, at, k) < |arr| + |node|
    ensures var i := Index(|arr|, at, k); ValueIn(arr, node, i) == Some(m[k])
  {
    assert ValueAt(arr, node, at, k) == Lookup(m, k);
  }

  /** The value at a traversal index. */
  function ValueIn<V>(arr: seq<Option<V>>, node: seq<Node<V>>, i: nat): Option<V>
    requires i < |arr| + |node|
  {
    if i < |arr| then arr[i] else node[i - |arr|].val
  }

  /** The two scanning loops of luaH_next: the first index from i on with a value. */
  method FindLive<V>(arr: seq<Option<V>>, node: seq<Node<V>>, i0: nat) returns (i: nat)
    requires i0 <= |arr| + |node|
    ensures i0 <= i <= |arr| + |node|
    ensures i < |arr| + |node| ==> ValueIn(arr, node, i).Some?
    ensures forall x :: i0 <= x < i ==> ValueIn(arr, node, x).None?
  {
    i := i0;
    while i < |arr|
      invariant i0 <= i <= |arr| + |node|
      invariant forall x :: i0 <= x < i ==> ValueIn(arr, node, x).None?
    {
      if arr[i].Some? { return; }
      i := i + 1;
    }
    var j := i - |arr|;
    while j < |node|
      invariant 0 <= j <= |node| && i0 <= j + |arr|
      invariant forall x :: i0 <= x < j + |arr| ==> ValueIn(arr, node, x).None?
    {
      if node[j].val.Some? { return j + |arr|; }
      j := j + 1;
    }
    i := j + |arr|;
  }

  /** The key at a traversal index that has a value. */
  lemma KeyOf<V>(arr: seq<Option<V>>, node: seq<Node<V>>, l: Links, m: map<Key, V>, i: nat) returns (k: Key)
    requires Holds(arr, node, l.at, m) && Apart(|arr|, l.at) && Located(node, l)
    requires forall x :: 0 <= x < |node| && node[x].key.None? ==> node[x].val.None?
    requires i < |arr| + |node| && ValueIn(arr, node, i).Some?
    ensures k in m && Some(m[k]) == ValueIn(arr, node, i) && Index(|arr|, l.at, k) == i
    ensures if i < |arr| then k == Int(i + 1) else node[i - |arr|].key == Some(k)
  {
    k := if i < |arr| then Int(i + 1) else node[i - |arr|].key.value;
    assert ValueAt(arr, node, l.at, k) == Lookup(m, k);
  }

  /** What luaH_next yields: an entry, the end of the traversal, or the error for a key it does not know. */
  datatype Visit<V> = Entry(key: Key, val: V) | End | BadKey

  /** `r` is the entry of `m` with the smallest index above `cur`. */
  ghost predicate Follows<V>(m: map<Key, V>, n: nat, at: map<Key, nat>, cur: int, r: Visit<V>) {
    match r
    case BadKey => false
    case End => forall k :: k in m ==> Index(n, at, k) <= cur
    case Entry(k, v) =>
      && Lookup(m, k) == Some(v) && Index(n, at, k) > cur
      && forall j :: j in m && Index(n, at, j) > cur ==> Index(n, at, j) >= Index(n, at, k)
  }

  /** luaH_next, once the index of the previous key is known. */
  method EntryAfter<V>(arr: seq<Option<V>>, node: seq<Node<V>>, cur: int, ghost l: Links, ghost m: map<Key, V>) returns (r: Visit<V>)
    requires Holds(arr, node, l.at, m) && Apart(|arr|, l.at) && Located(node, l)
    requires forall x :: 0 <= x < |node| && node[x].key.None? ==> node[x].val.None?
    requires -1 <= cur < |arr| + |node|
    ensures Follows(m, |arr|, l.at, cur, r)
  {
    var j := FindLive(arr, node, cur + 1);
    forall k | k in m ensures Index(|arr|, l.at, k) > cur ==> |arr| + |node| > Index(|arr|, l.at, k) >= j {
      IndexOf(arr, node, l.at, m, k);
    }
    if j == |arr| + |node| { return End; }
    ghost var k := KeyOf(arr, node, l, m, j);
    if j < |arr| { return Entry(Int(j + 1), arr[j].value); }
    r := Entry(node[j - |arr|].key.value, node[j - |arr|].val.value);
  }

  /** The entries of `m`, each exactly once. */
  ghost predicate EachOnce<V>(m: map<Key, V>, visited: seq<(Key, V)>) {
    && (forall i :: 0 <= i < |visited| ==> Lookup(m, visited[i].0) == Some(visited[i].1))
    && (forall i, j :: 0 <= i < j < |visited| ==> visited[i].0 != visited[j].0)
    && (forall k :: k in m ==> exists i :: 0 <= i < |visited| && visited[i].0 == k)
  }

  /** Entries behind `cur` have not changed. */
  ghost predicate Ahead<V>(m: map<Key, V>, m': map<Key, V>, n: nat, at: map<Key, nat>, cur: int) {
    forall k :: Index(n, at, k) > cur ==> Lookup(m', k) == Lookup(m, k)
  }

  lemma AheadStored<V>(m: map<Key, V>, m': map<Key, V>, n: nat, at: map<Key, nat>, cur: int, k: Key, v: Option<V>)
    requires Ahead(m, m', n, at, cur) && Index(n, at, k) <= cur
    ensures Ahead(m, Stored(m', k, v), n, at, cur)
  {
    forall x | Index(n, at, x) > cur ensures Lookup(Stored(m', k, v), x) == Lookup(m, x) {
      assert Lookup(m', x) == Lookup(m, x);
    }
  }

  /** `visited` lists the entries of `m` up to traversal index `cur`. */
  ghost predicate Seen<V>(m: map<Key, V>, n: nat, at: map<Key, nat>, cur: int, visited: seq<(Key, V)>) {
    && (forall i :: 0 <= i < |visited| ==> Lookup(m, visited[i].0) == Some(visited[i].1) && Index(n, at, visited[i].0) <= cur)
    && (forall i, j :: 0 <= i < j < |visited| ==> visited[i].0 != visited[j].0)
    && (forall k :: k in m && Index(n, at, k) <= cur ==> exists i :: 0 <= i < |visited| && visited[i].0 == k)
  }

  lemma SeenNext<V>(m: map<Key, V>, m': map<Key, V>, node: seq<Node<V>>, n: nat, l: Links, cur: int, visited: seq<(Key, V)>, r: Visit<V>)
    requires Seen(m, n, l.at, cur, visited) && Located(node, l) && cur >= -1 && Ahead(m, m', n, l.at, cur) && Follows(m', n, l.at, cur, r)
    ensures r.Entry? ==> Seen(m, n, l.at, Index(n, l.at, r.key), visited + [(r.key, r.val)])
    ensures r.End? ==> EachOnce(m, visited)
  {
    if r.End? {
      forall k | k in m ensures Index(n, l.at, k) <= cur { assert Index(n, l.at, k) > cur ==> Lookup(m', k) == Lookup(m, k); }
    } else {
      var k := r.key;
      var w := visited + [(k, r.val)];
      assert Lookup(m', k) == Lookup(m, k);
      forall x | x in m && Index(n, l.at, x) <= Index(n, l.at, k) ensures exists i :: 0 <= i < |w| && w[i].0 == x {
        if Index(n, l.at, x) <= cur {
          var i :| 0 <= i < |visited| && visited[i].0 == x;
          assert w[i].0 == x;
        } else {
          assert Lookup(m', x) == Lookup(m, x);
          IndexInjective(n, node, l, x, k);
          assert w[|visited|].0 == x;
        }
      }
    }
  }

  // ---------------------------------------------------------------- length

  /** A border (section 2.5.5 of the Lua 5.1 Reference Manual). */
  ghost predicate Border<V>(m: map<Key, V>, n: int) { n >= 0 && (n == 0 || Int(n) in m) && Int(n + 1) !in m }

  /** luaH_getn, the binary search in the array part. */
  method ArrayBorder<V>(arr: seq<Option<V>>) returns (i: nat)
    requires |arr| > 0 && arr[|arr| - 1].None?
    ensures i < |arr| && (i == 0 || arr[i - 1].Some?) && arr[i].None?
  {
    var j := |arr|;
    i := 0;
    while j - i > 1
      invariant 0 <= i < j <= |arr| && (i == 0 || arr[i - 1].Some?) && arr[j - 1].None?
    {
      var m := (i + j) / 2;
      if arr[m - 1].None? { j := m; } else { i := m; }
    }
  }

  ghost function FirstInts(n: nat): set<Key> { if n == 0 then {} else FirstInts(n - 1) + {Int(n)} }

  lemma {:induction false} FirstIntsSize(n: nat)
    ensures |FirstInts(n)| == n && forall k :: k in FirstInts(n) ==> k.Int? && 1 <= k.n <= n
  {
    if n > 0 { FirstIntsSize(n - 1); }
  }

  /** A map with the keys 1..n has at least n entries, so the linear search of luaH_getn ends. */
  lemma LinearBound<V>(m: map<Key, V>, n: nat)
    requires forall x :: 1 <= x <= n ==> Int(x) in m
    ensures n <= |m|
  {
    FirstIntsSize(n);
    SubsetSize(FirstInts(n), m.Keys);
  }
}
