/** A table as two parts, an array and a hash part (src/ltable.c), and the map they hold together. */
module TableParts {
  import opened Basics
  import opened TableChain

  /** The value a table with these parts holds for `k`. */
  ghost function ValueAt<V>(arr: seq<Option<V>>, node: seq<Node<V>>, at: map<Key, nat>, k: Key): Option<V> {
    if InRange(|arr|, k) then arr[k.n - 1]
    else if k in at && at[k] < |node| then node[at[k]].val else None
  }

  /** `k` is an index of an array part of size n. */
  predicate InRange(n: nat, k: Key) { k.Int? && 1 <= k.n <= n }

  /** A place that holds a value. */
  datatype Slot = ArraySlot(i: nat) | NodeSlot(n: nat)

  ghost function Lookup<V>(m: map<Key, V>, k: Key): Option<V> { if k in m then Some(m[k]) else None }

  ghost function Stored<V>(m: map<Key, V>, k: Key, v: Option<V>): map<Key, V> {
    match v
    case Some(x) => m[k := x]
    case None => m - {k}
  }

  lemma StoredLookup<V>(m: map<Key, V>, k: Key, v: Option<V>, x: Key)
    ensures Lookup(Stored(m, k, v), x) == if x == k then v else Lookup(m, x)
  {
  }

  lemma StoredSize<V>(m: map<Key, V>, k: Key, v: Option<V>)
    ensures |Stored(m, k, v)| <= |m| + 1
  {
    SubsetSize(Stored(m, k, v).Keys, m.Keys + {k});
  }

  /** The map after a sequence of stores. */
  ghost function Replay<V>(m: map<Key, V>, ops: seq<(Key, Option<V>)>): map<Key, V> {
    if ops == [] then m else Stored(Replay(m, ops[..|ops| - 1]), ops[|ops| - 1].0, ops[|ops| - 1].1)
  }

  /** A lookup sees the last value stored under the key. */
  lemma {:induction false} LastStored<V>(m: map<Key, V>, ops: seq<(Key, Option<V>)>, k: Key, i: nat)
    requires i <= |ops| && (forall j :: i <= j < |ops| ==> ops[j].0 != k) && (i > 0 ==> ops[i - 1].0 == k)
    ensures Lookup(Replay(m, ops), k) == if i > 0 then ops[i - 1].1 else Lookup(m, k)
    decreases |ops|
  {
    if ops != [] {
      StoredLookup(Replay(m, ops[..|ops| - 1]), ops[|ops| - 1].0, ops[|ops| - 1].1, k);
      if i < |ops| { LastStored(m, ops[..|ops| - 1], k, i); }
    }
  }

  /** The keys of `m` that do not belong in an array part of size n. */
  ghost function HashKeys<V>(m: map<Key, V>, n: nat): set<Key> { set k | k in m && !InRange(n, k) }

  // ---------------------------------------------------------------- free nodes

  ghost predicate Occupied(at: map<Key, nat>, i: nat) { exists k :: k in at && at[k] == i }

  lemma {:induction false} InjectiveSize(at: map<Key, nat>, n: nat)
    requires forall k :: k in at ==> at[k] < n
    requires forall j, k :: j in at && k in at && at[j] == at[k] ==> j == k
    ensures |at| <= n
    ensures (forall i: nat :: i < n ==> Occupied(at, i)) ==> |at| == n
    decreases n
  {
    if n == 0 {
      assert forall k :: k !in at;
      assert at == map[];
    } else if Occupied(at, n - 1) {
      var k :| k in at && at[k] == n - 1;
      var rest := at - {k};
      InjectiveSize(rest, n - 1);
      assert rest.Keys == at.Keys - {k};
      assert |rest.Keys| == |at.Keys| - 1;
      if forall i: nat :: i < n ==> Occupied(at, i) {
        forall i: nat | i < n - 1 ensures Occupied(rest, i) {
          assert Occupied(at, i);
          var x :| x in at && at[x] == i;
          assert x in rest && rest[x] == i;
        }
      }
    } else {
      assert forall k :: k in at ==> at[k] != n - 1;
      InjectiveSize(at, n - 1);
    }
  }

  /** If there are fewer keys than nodes, some node has no key. */
  lemma FreeNode<V>(node: seq<Node<V>>, l: Links)
    requires Located(node, l)
    ensures |l.at| <= |node|
    ensures (forall i :: 0 <= i < |node| ==> node[i].key.Some?) ==> |l.at| == |node|
  {
    InjectiveSize(l.at, |node|);
    if forall i :: 0 <= i < |node| ==> node[i].key.Some? {
      forall i: nat | i < |node| ensures Occupied(l.at, i) {
        assert node[i].key.value in l.at && l.at[node[i].key.value] == i;
      }
    }
  }

  // ---------------------------------------------------------------- the parts of a table

  /** The two parts hold exactly `m`. */
  ghost predicate Holds<V>(arr: seq<Option<V>>, node: seq<Node<V>>, at: map<Key, nat>, m: map<Key, V>) {
    forall k :: ValueAt(arr, node, at, k) == Lookup(m, k)
  }

  /** Of an array part that has only grown, the new slots are empty. */
  lemma Padded<V>(a: seq<Option<V>>, a': seq<Option<V>>, node: seq<Node<V>>, at: map<Key, nat>, m: map<Key, V>)
    requires Holds(a, node, at, m) && |a| <= |a'| && a'[..|a|] == a && forall i :: |a| <= i < |a'| ==> a'[i] == None
    ensures forall k :: ValueAt(a', node, at, k) == if InRange(|a'|, k) && !InRange(|a|, k) then None else Lookup(m, k)
  {
    forall k ensures ValueAt(a', node, at, k) == if InRange(|a'|, k) && !InRange(|a|, k) then None else Lookup(m, k) {
      assert ValueAt(a, node, at, k) == Lookup(m, k);
      assert InRange(|a|, k) ==> a'[..|a|][k.n - 1] == a'[k.n - 1];
    }
  }

  lemma NothingHidden<V>(a: seq<Option<V>>, a': seq<Option<V>>, node: seq<Node<V>>, at: map<Key, nat>, m: map<Key, V>)
    requires Holds(a, node, at, m) && |a| <= |a'| && (|a| < |a'| ==> Apart(|a'|, at))
    requires forall k :: ValueAt(a', node, at, k) == if InRange(|a'|, k) && !InRange(|a|, k) then None else Lookup(m, k)
    ensures Holds(a', node, at, m)
  {
    forall k ensures ValueAt(a', node, at, k) == Lookup(m, k) { assert ValueAt(a, node, at, k) == Lookup(m, k); }
  }

  /** If there are as many keys outside 1..n as nodes, the nodes hold just these keys. */
  lemma AllNodesUsed<V>(arr: seq<Option<V>>, node: seq<Node<V>>, l: Links, m: map<Key, V>, n: nat)
    requires Located(node, l) && Holds(arr, node, l.at, m) && |arr| <= n && |node| <= |HashKeys(m, n)|
    ensures l.at.Keys == HashKeys(m, n) && Apart(n, l.at)
  {
    forall k | k in HashKeys(m, n) ensures k in l.at { assert ValueAt(arr, node, l.at, k) == Lookup(m, k); }
    FreeNode(node, l);
    assert |l.at.Keys| == |l.at|;
    SubsetSize(HashKeys(m, n), l.at.Keys);
  }

  /** A free node is one that no key has, so there are fewer keys than nodes. */
  lemma FreeLess<V>(node: seq<Node<V>>, l: Links, n: nat, k: Key)
    requires Located(node, l) && n < |node| && node[n].key.None? && k !in l.at
    ensures |l.at| < |node|
  {
    InjectiveSize(l.at[k := n], |node|);
  }

  /** Nodes without a key are below `lim`, except possibly one. */
  ghost predicate FreeBelow<V>(node: seq<Node<V>>, lim: int, but: int) {
    forall i :: 0 <= i < |node| && node[i].key.None? ==> i < lim || i == but
  }

  /** Keys of the hash part have no place in the array part. */
  ghost predicate Apart(n: nat, at: map<Key, nat>) { forall k :: k in at ==> !InRange(n, k) }

  // ---------------------------------------------------------------- the placements keep the contents

  /** The two parts are well formed and hold `m`. */
  ghost predicate Parts<V>(pos: MainPosition, arr: seq<Option<V>>, node: seq<Node<V>>, l: Links, m: map<Key, V>) {
    Chained(pos, node, l) && Apart(|arr|, l.at) && Holds(arr, node, l.at, m)
  }

  /** The parts after `n` was taken. */
  ghost predicate Moves<V>(pos: MainPosition, arr: seq<Option<V>>, node: seq<Node<V>>, l: Links, m: map<Key, V>, n: nat) {
    Parts(pos, arr, node, l, m) && FreeBelow(node, n, -1)
  }

  /** `k` is not in the table, and `n` is a free node. */
  ghost predicate Placing<V>(pos: MainPosition, arr: seq<Option<V>>, node: seq<Node<V>>, l: Links, k: Key, n: nat) {
    && Bounded(pos) && k !in l.at && !InRange(|arr|, k) && n < |node| && node[n].key.None?
  }

  lemma MovedParts<V>(pos: MainPosition, arr: seq<Option<V>>, node: seq<Node<V>>, l: Links, m: map<Key, V>, k: Key, n: nat, p: nat) returns (l': Links)
    requires Parts(pos, arr, node, l, m) && FreeBelow(node, n, n) && Placing(pos, arr, node, l, k, n) && p < |node|
    requires Main(pos, k, |node|) < |node| && node[Main(pos, k, |node|)].key.Some? && node[p].next == Main(pos, k, |node|)
    requires Main(pos, node[Main(pos, k, |node|)].key.value, |node|) != Main(pos, k, |node|)
    ensures var mp := Main(pos, k, |node|);
      && p != mp && n != mp && p != n
      && Moves(pos, arr, node[p := node[p].(next := n)][n := node[mp]][mp := Node(Some(k), None, -1)], l', m, n)
      && l'.at.Keys == l.at.Keys + {k} && l'.at[k] == mp
  {
    l' := PlaceMoved(pos, node, l, k, n, p);
    var mp := Main(pos, k, |node|);
    MovedHolds(arr, node, l.at, m, k, n, p, mp);
    MovedFree(node, k, n, p, mp);
  }

  lemma MovedFree<V>(node: seq<Node<V>>, k: Key, n: nat, p: nat, mp: nat)
    requires n < |node| && p < |node| && mp < |node| && FreeBelow(node, n, n) && node[mp].key.Some? && n != mp
    ensures FreeBelow(node[p := node[p].(next := n)][n := node[mp]][mp := Node(Some(k), None, -1)], n, -1)
  {
  }

  lemma MovedHolds<V>(arr: seq<Option<V>>, node: seq<Node<V>>, at: map<Key, nat>, m: map<Key, V>, k: Key, n: nat, p: nat, mp: nat)
    requires Holds(arr, node, at, m) && Apart(|arr|, at) && !InRange(|arr|, k) && k !in at
    requires n < |node| && p < |node| && mp < |node| && n != mp && p != mp && p != n && node[mp].key.Some? && node[n].key.None?
    requires Located(node, Links(at, [], []))
    ensures var node' := node[p := node[p].(next := n)][n := node[mp]][mp := Node(Some(k), None, -1)];
      var at' := at[node[mp].key.value := n][k := mp];
      Holds(arr, node', at', m) && Apart(|arr|, at')
  {
  }

  lemma BehindParts<V>(pos: MainPosition, arr: seq<Option<V>>, node: seq<Node<V>>, l: Links, m: map<Key, V>, k: Key, n: nat) returns (l': Links)
    requires Parts(pos, arr, node, l, m) && FreeBelow(node, n, n) && Placing(pos, arr, node, l, k, n) && OwnMain(pos, node, Main(pos, k, |node|))
    ensures var mp := Main(pos, k, |node|);
      && n != mp && node[n].val.None?
      && Moves(pos, arr, node[n := Node(Some(k), None, node[mp].next)][mp := node[mp].(next := n)], l', m, n)
      && l'.at == l.at[k := n]
  {
    l' := PlaceBehind(pos, node, l, k, n);
    assert Unused(node, l, n);
    BehindHolds(arr, node, l.at, m, k, n, Main(pos, k, |node|));
    BehindFree(node, k, n, Main(pos, k, |node|));
  }

  lemma BehindFree<V>(node: seq<Node<V>>, k: Key, n: nat, mp: nat)
    requires n < |node| && mp < |node| && FreeBelow(node, n, n) && n != mp && node[mp].key.Some?
    ensures FreeBelow(node[n := Node(Some(k), None, node[mp].next)][mp := node[mp].(next := n)], n, -1)
  {
  }

  lemma BehindHolds<V>(arr: seq<Option<V>>, node: seq<Node<V>>, at: map<Key, nat>, m: map<Key, V>, k: Key, n: nat, mp: nat)
    requires Holds(arr, node, at, m) && Apart(|arr|, at) && !InRange(|arr|, k) && k !in at
    requires n < |node| && mp < |node| && n != mp && node[n].key.None?
    requires Located(node, Links(at, [], []))
    ensures var node' := node[n := Node(Some(k), None, node[mp].next)][mp := node[mp].(next := n)];
      Holds(arr, node', at[k := n], m) && Apart(|arr|, at[k := n])
  {
  }

  lemma MainParts<V>(pos: MainPosition, arr: seq<Option<V>>, node: seq<Node<V>>, l: Links, m: map<Key, V>, k: Key) returns (l': Links)
    requires Parts(pos, arr, node, l, m) && Bounded(pos) && |node| > 0 && k !in l.at && !InRange(|arr|, k)
    requires node[Main(pos, k, |node|)].val.None?
    ensures var mp := Main(pos, k, |node|);
      && Parts(pos, arr, node[mp := node[mp].(key := Some(k))], l', m)
      && l'.at.Keys <= l.at.Keys + {k} && k in l'.at && l'.at[k] == mp
  {
    PlaceMain(pos, node, l, k);
    MainHolds(arr, node, l.at, m, k, Main(pos, k, |node|));
    l' := MainLinks(node, l, k, Main(pos, k, |node|));
  }

  lemma MainHolds<V>(arr: seq<Option<V>>, node: seq<Node<V>>, at: map<Key, nat>, m: map<Key, V>, k: Key, mp: nat)
    requires Holds(arr, node, at, m) && Apart(|arr|, at) && !InRange(|arr|, k) && k !in at
    requires mp < |node| && node[mp].val.None?
    requires Located(node, Links(at, [], []))
    ensures var at' := MainLinks(node, Links(at, [], []), k, mp).at;
      Holds(arr, node[mp := node[mp].(key := Some(k))], at', m) && Apart(|arr|, at')
  {
  }

  lemma ArrayHolds<V>(arr: seq<Option<V>>, node: seq<Node<V>>, at: map<Key, nat>, m: map<Key, V>, k: Key, v: Option<V>)
    requires Holds(arr, node, at, m) && InRange(|arr|, k)
    ensures Holds(arr[k.n - 1 := v], node, at, Stored(m, k, v))
  {
    forall x ensures ValueAt(arr[k.n - 1 := v], node, at, x) == Lookup(Stored(m, k, v), x) {
      assert ValueAt(arr, node, at, x) == Lookup(m, x);
    }
  }

  lemma NodeHolds<V>(arr: seq<Option<V>>, node: seq<Node<V>>, l: Links, m: map<Key, V>, k: Key, v: Option<V>)
    requires Holds(arr, node, l.at, m) && !InRange(|arr|, k) && k in l.at && Located(node, l)
    ensures var n := l.at[k]; Holds(arr, node[n := node[n].(val := v)], l.at, Stored(m, k, v))
  {
    var n := l.at[k];
    forall x ensures ValueAt(arr, node[n := node[n].(val := v)], l.at, x) == Lookup(Stored(m, k, v), x) {
      assert ValueAt(arr, node, l.at, x) == Lookup(m, x);
    }
  }

  // ---------------------------------------------------------------- moving entries to new parts

  /** The entries of `m` moved so far: those in 1..n, and those whose node is at position j or above. */
  ghost function Keep<V>(m: map<Key, V>, n: nat, at: map<Key, nat>, j: nat): map<Key, V> {
    map k | k in m && (InRange(n, k) || (k in at && at[k] >= j)) :: m[k]
  }

  lemma RoomFor(at: map<Key, nat>, room: set<Key>, k: Key)
    requires at.Keys <= room
    ensures |at| <= |room|
    ensures k in room && k !in at ==> |at| < |room|
  {
    SubsetSize(at.Keys, room);
    if k in room && k !in at { SubsetSize(at.Keys, room - {k}); }
  }

  lemma StartHolds<V>(arr: seq<Option<V>>, oldarr: seq<Option<V>>, nold: seq<Node<V>>, node: seq<Node<V>>, at: map<Key, nat>, m: map<Key, V>, n: nat)
    requires Holds(oldarr, nold, at, m) && Apart(|oldarr|, at) && (forall k :: k in at ==> at[k] < |nold|)
    requires n <= |arr| && n <= |oldarr| && arr[..n] == oldarr[..n] && (n == |arr| || n == |oldarr|)
    requires forall i :: n <= i < |arr| ==> arr[i] == None
    ensures Holds(arr, node, map[], Keep(m, n, at, |nold|))
  {
    forall k ensures ValueAt(arr, node, map[], k) == Lookup(Keep(m, n, at, |nold|), k) {
      assert ValueAt(oldarr, nold, at, k) == Lookup(m, k);
    }
  }

  lemma KeepNext<V>(arr: seq<Option<V>>, node: seq<Node<V>>, at: map<Key, nat>, m: map<Key, V>, i: nat)
    requires Holds(arr, node, at, m) && i < |arr|
    ensures var k := Int(i + 1);
      if arr[i].Some? then k in m && arr[i] == Some(m[k]) && Keep(m, i + 1, at, |node|) == Keep(m, i, at, |node|)[k := m[k]]
      else Keep(m, i + 1, at, |node|) == Keep(m, i, at, |node|)
  {
    assert ValueAt(arr, node, at, Int(i + 1)) == Lookup(m, Int(i + 1));
  }

  lemma KeepNode<V>(arr: seq<Option<V>>, node: seq<Node<V>>, at: map<Key, nat>, m: map<Key, V>, j: nat)
    requires Holds(arr, node, at, m) && Apart(|arr|, at) && j < |node| && Located(node, Links(at, [], []))
    requires node[j].key.None? ==> node[j].val.None?
    ensures var a, b := Keep(m, |arr|, at, j + 1), Keep(m, |arr|, at, j);
      if node[j].val.Some? then var k := node[j].key.value; k in m && node[j].val == Some(m[k]) && b == a[k := m[k]] else b == a
  {
    var a, b := Keep(m, |arr|, at, j + 1), Keep(m, |arr|, at, j);
    if node[j].key.Some? {
      var k := node[j].key.value;
      assert ValueAt(arr, node, at, k) == Lookup(m, k);
      assert forall x :: x in at && at[x] == j ==> x == k;
    } else {
      assert forall x :: x in at ==> at[x] != j;
    }
  }

  lemma KeepAll<V>(arr: seq<Option<V>>, node: seq<Node<V>>, at: map<Key, nat>, m: map<Key, V>)
    requires Holds(arr, node, at, m)
    ensures Keep(m, |arr|, at, 0) == m
  {
    forall k | k in m ensures k in Keep(m, |arr|, at, 0) { assert ValueAt(arr, node, at, k) == Lookup(m, k); }
  }

  /** newkey when the main position is taken, with a free node `n`: the nodes afterwards and the node
      of the new key. */
  method Collide<V>(pos: MainPosition, node: seq<Node<V>>, k: Key, n: nat, mp: nat, ghost arr: seq<Option<V>>, ghost l: Links, ghost m: map<Key, V>)
    returns (node': seq<Node<V>>, to: nat, ghost l': Links)
    requires Parts(pos, arr, node, l, m) && Placing(pos, arr, node, l, k, n) && FreeBelow(node, n, n)
    requires mp == Main(pos, k, |node|) && node[mp].key.Some?
    ensures Parts(pos, arr, node', l', m) && |node'| == |node| && FreeBelow(node', n, -1)
    ensures l'.at.Keys == l.at.Keys + {k} && l'.at[k] == to
  {
    var othern := Main(pos, node[mp].key.value, |node|);
    if othern != mp {
      assert Reaches(l, othern, mp);
      var p := FindPrevious(pos, node, mp, othern, l);
      l' := MovedParts(pos, arr, node, l, m, k, n, p);
      node' := node[p := node[p].(next := n)];     // the predecessor leads to `n` now
      node' := node'[n := node[mp]];               // where the colliding node goes, link and all
      node' := node'[mp := Node(Some(k), None, -1)];
      to := mp;
    } else {
      l' := BehindParts(pos, arr, node, l, m, k, n);
      node' := node[n := Node(Some(k), None, node[mp].next)];
      node' := node'[mp := node[mp].(next := n)];
      to := n;
    }
  }
}
