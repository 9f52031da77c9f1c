/** The hash part of a table (src/ltable.c): a chained scatter table with Brent's variation.
    The `next` links form disjoint chains; `id` names the chain a node is on and `ord` orders the
    nodes along it, so that one node is reachable from another exactly when both are on the same
    chain and the first does not come later. */
module TableChain {
  import opened Basics

  /** A key that is an integer may live in the array part; all other keys are told apart by a number. */
  datatype Key = Int(n: int) | Other(id: nat)

  /** A hash node; `None` is nil, and `next` is -1 at the end of a chain. */
  datatype Node<V> = Node(key: Option<Key>, val: Option<V>, next: int)

  /** The main position of a key in a hash part of a given size. */
  type MainPosition = (Key, nat) -> nat

  function Main(pos: MainPosition, k: Key, n: nat): nat { pos(k, n) }

  ghost predicate Bounded(pos: MainPosition) { forall k: Key, n: nat :: n > 0 ==> Main(pos, k, n) < n }

  /** What ties the nodes together; it exists only for the proof. */
  datatype Links = Links(at: map<Key, nat>, id: seq<nat>, ord: seq<real>)

  /** `m` holds a key whose main position it is. */
  ghost predicate OwnMain<V>(pos: MainPosition, node: seq<Node<V>>, m: nat) {
    m < |node| && node[m].key.Some? && Main(pos, node[m].key.value, |node|) == m
  }

  ghost predicate SameChain(l: Links, i: nat, j: nat) { i < |l.id| && j < |l.id| && l.id[i] == l.id[j] }

  ghost predicate Reaches(l: Links, i: nat, j: nat) {
    SameChain(l, i, j) && i < |l.ord| && j < |l.ord| && l.ord[i] <= l.ord[j]
  }

  /** `at` is the inverse of the nodes' keys, so no key is in two nodes. */
  ghost predicate Located<V>(node: seq<Node<V>>, l: Links) {
    && (forall k :: k in l.at ==> l.at[k] < |node| && node[l.at[k]].key == Some(k))
    && (forall i :: 0 <= i < |node| && node[i].key.Some? ==> node[i].key.value in l.at && l.at[node[i].key.value] == i)
  }

  /** Every key is reachable from its main position, and the node there is in its own main position. */
  ghost predicate Homed<V>(pos: MainPosition, node: seq<Node<V>>, l: Links) {
    forall k :: k in l.at ==> OwnMain(pos, node, Main(pos, k, |node|)) && Reaches(l, Main(pos, k, |node|), l.at[k])
  }

  /** `next` leads to the node that follows on the same chain. */
  ghost predicate NextOk<V>(node: seq<Node<V>>, l: Links, i: nat)
    requires i < |node| == |l.id| == |l.ord|
  {
    if node[i].next == -1 then forall x :: 0 <= x < |node| && SameChain(l, x, i) ==> l.ord[x] <= l.ord[i]
    else
      var j := node[i].next;
      && 0 <= j < |node| && SameChain(l, i, j) && l.ord[i] < l.ord[j]
      && (forall x :: 0 <= x < |node| && SameChain(l, x, i) ==> l.ord[x] <= l.ord[i] || l.ord[j] <= l.ord[x])
  }

  /** A node without a key has never been used: it is alone on its chain. */
  ghost predicate Unused<V>(node: seq<Node<V>>, l: Links, i: nat)
    requires i < |node| == |l.id|
  {
    node[i].key.None? ==>
      node[i].val.None? && node[i].next == -1 && forall x :: 0 <= x < |node| && SameChain(l, x, i) ==> x == i
  }

  ghost predicate Chained<V>(pos: MainPosition, node: seq<Node<V>>, l: Links) {
    && |node| == |l.id| == |l.ord|
    && Located(node, l) && Homed(pos, node, l)
    && (forall i :: 0 <= i < |node| ==> NextOk(node, l, i))
    && (forall i, j :: 0 <= i < |node| && 0 <= j < |node| && SameChain(l, i, j) && l.ord[i] == l.ord[j] ==> i == j)
    && (forall i :: 0 <= i < |node| ==> Unused(node, l, i))
  }

  // ---------------------------------------------------------------- fresh hash parts

  function EmptyNodes<V>(n: nat): seq<Node<V>> { seq(n, _ => Node(None, None, -1)) }

  ghost function EmptyLinks(n: nat): Links { Links(map[], seq(n, i => i), seq(n, _ => 0.0)) }

  lemma EmptyChained<V>(pos: MainPosition, n: nat)
    ensures Chained(pos, EmptyNodes<V>(n), EmptyLinks(n))
  {
  }

  // ---------------------------------------------------------------- changing a value

  /** Storing a value in a node that has a key touches no link. */
  lemma ValueChained<V>(pos: MainPosition, node: seq<Node<V>>, l: Links, i: nat, v: Option<V>)
    requires Chained(pos, node, l) && i < |node| && node[i].key.Some?
    ensures Chained(pos, node[i := node[i].(val := v)], l)
  {
    var node' := node[i := node[i].(val := v)];
    forall k | k in l.at ensures OwnMain(pos, node', Main(pos, k, |node'|)) { assert OwnMain(pos, node, Main(pos, k, |node|)); }
    forall x | 0 <= x < |node| ensures NextOk(node', l, x) && Unused(node', l, x) {
      assert NextOk(node, l, x) && Unused(node, l, x);
    }
  }

  // ---------------------------------------------------------------- the three ways newkey places a key

  /** The main position has no value: the key goes there, replacing a key without a value if any. */
  ghost function MainLinks<V>(node: seq<Node<V>>, l: Links, k: Key, m: nat): Links
    requires m < |node|
  {
    l.(at := (if node[m].key.Some? then l.at - {node[m].key.value} else l.at)[k := m])
  }

  lemma PlaceMain<V>(pos: MainPosition, node: seq<Node<V>>, l: Links, k: Key)
    requires Bounded(pos) && |node| > 0 && Chained(pos, node, l) && k !in l.at && node[Main(pos, k, |node|)].val.None?
    ensures var m := Main(pos, k, |node|); Chained(pos, node[m := node[m].(key := Some(k))], MainLinks(node, l, k, m))
  {
    var m := Main(pos, k, |node|);
    var l', node' := MainLinks(node, l, k, m), node[m := node[m].(key := Some(k))];
    MainLocated(pos, node, l, k);
    forall x | x in l'.at ensures OwnMain(pos, node', Main(pos, x, |node'|)) && Reaches(l', Main(pos, x, |node'|), l'.at[x]) {
      if x != k {
        assert OwnMain(pos, node, Main(pos, x, |node|)) && Reaches(l, Main(pos, x, |node|), l.at[x]);
      }
    }
    assert forall x, y :: SameChain(l', x, y) <==> SameChain(l, x, y);
    forall x | 0 <= x < |node| ensures NextOk(node', l', x) && Unused(node', l', x) {
      assert NextOk(node, l, x) && Unused(node, l, x);
    }
  }

  lemma MainLocated<V>(pos: MainPosition, node: seq<Node<V>>, l: Links, k: Key)
    requires Bounded(pos) && |node| > 0 && Located(node, l) && k !in l.at
    ensures var m := Main(pos, k, |node|); Located(node[m := node[m].(key := Some(k))], MainLinks(node, l, k, m))
  {
  }

  /** The colliding node is in its main position: the key goes to the free node `n`, right behind it. */
  lemma PlaceBehind<V>(pos: MainPosition, node: seq<Node<V>>, l: Links, k: Key, n: nat) returns (l': Links)
    requires Bounded(pos) && Chained(pos, node, l) && k !in l.at && n < |node| && node[n].key.None?
    requires OwnMain(pos, node, Main(pos, k, |node|))
    ensures var m := Main(pos, k, |node|);
      var node' := node[n := Node(Some(k), None, node[m].next)][m := node[m].(next := n)];
      Chained(pos, node', l') && l'.at == l.at[k := n]
  {
    var m := Main(pos, k, |node|);
    assert NextOk(node, l, m) && Unused(node, l, n);
    var o := if node[m].next == -1 then l.ord[m] + 1.0 else (l.ord[m] + l.ord[node[m].next]) / 2.0;
    l' := Links(l.at[k := n], l.id[n := l.id[m]], l.ord[n := o]);
    var node' := node[n := Node(Some(k), None, node[m].next)][m := node[m].(next := n)];
    assert n != m;
    assert forall x, y :: x != n && y != n ==> (SameChain(l', x, y) <==> SameChain(l, x, y));
    assert forall x :: x != n && 0 <= x < |node| ==> (SameChain(l', x, n) <==> SameChain(l, x, m));
    BehindHomed(pos, node, l, k, n, node', l');
    forall x | 0 <= x < |node| ensures NextOk(node', l', x) && Unused(node', l', x) {
      BehindNext(pos, node, l, k, n, node', l', x);
    }
    forall i, j | 0 <= i < |node| && 0 <= j < |node| && SameChain(l', i, j) && l'.ord[i] == l'.ord[j] ensures i == j {
      if i != n && j != n { assert SameChain(l, i, j); }
    }
  }

  ghost predicate Behind<V>(pos: MainPosition, node: seq<Node<V>>, l: Links, k: Key, n: nat, node': seq<Node<V>>, l': Links) {
    && Bounded(pos) && Chained(pos, node, l) && k !in l.at && n < |node| && node[n].key.None?
    && OwnMain(pos, node, Main(pos, k, |node|))
    && var m := Main(pos, k, |node|);
    && n != m
    && node' == node[n := Node(Some(k), None, node[m].next)][m := node[m].(next := n)]
    && |l'.id| == |l'.ord| == |node|
    && l' == Links(l.at[k := n], l.id[n := l.id[m]], l.ord[n := l'.ord[n]])
    && l.ord[m] < l'.ord[n] && (node[m].next != -1 ==> 0 <= node[m].next < |node| && l'.ord[n] < l.ord[node[m].next])
  }

  lemma BehindHomed<V>(pos: MainPosition, node: seq<Node<V>>, l: Links, k: Key, n: nat, node': seq<Node<V>>, l': Links)
    requires Behind(pos, node, l, k, n, node', l')
    ensures Located(node', l') && Homed(pos, node', l')
  {
    var m := Main(pos, k, |node|);
    assert forall i :: 0 <= i < |node| && i != n ==> node'[i].key == node[i].key;
    forall x | x in l'.at ensures OwnMain(pos, node', Main(pos, x, |node'|)) && Reaches(l', Main(pos, x, |node'|), l'.at[x]) {
      if x != k { BehindOther(pos, node, l, k, n, node', l', x); }
    }
  }

  lemma BehindOther<V>(pos: MainPosition, node: seq<Node<V>>, l: Links, k: Key, n: nat, node': seq<Node<V>>, l': Links, x: Key)
    requires Behind(pos, node, l, k, n, node', l') && x in l.at && x != k
    ensures OwnMain(pos, node', Main(pos, x, |node'|)) && Reaches(l', Main(pos, x, |node'|), l'.at[x])
  {
    assert OwnMain(pos, node, Main(pos, x, |node|)) && Reaches(l, Main(pos, x, |node|), l.at[x]);
    assert Main(pos, x, |node|) != n && l.at[x] != n;
  }

  lemma BehindNext<V>(pos: MainPosition, node: seq<Node<V>>, l: Links, k: Key, n: nat, node': seq<Node<V>>, l': Links, x: nat)
    requires Behind(pos, node, l, k, n, node', l') && x < |node|
    ensures NextOk(node', l', x) && Unused(node', l', x)
  {
    var m := Main(pos, k, |node|);
    assert NextOk(node, l, x) && Unused(node, l, x) && NextOk(node, l, m) && Unused(node, l, n);
    assert forall y :: y != n && x != n && 0 <= y < |node| ==> (SameChain(l', y, x) <==> SameChain(l, y, x));
    assert forall y :: y != n && 0 <= y < |node| ==> (SameChain(l', y, n) <==> SameChain(l, y, m));
    assert x != n ==> (SameChain(l', n, x) <==> SameChain(l, m, x));
    assert x != n && node[x].next != -1 ==> node[x].next != n;
  }

  // ---------------------------------------------------------------- moving the colliding node away

  /** The node at `m` is not in its main position. Its chain is redone with the free node `n` in place
      of `m` (`p` is the node before it), and the new key takes `m`. */
  ghost predicate Moved<V>(pos: MainPosition, node: seq<Node<V>>, l: Links, k: Key, n: nat, p: nat, node': seq<Node<V>>, l': Links) {
    && Bounded(pos) && Chained(pos, node, l) && k !in l.at && n < |node| && p < |node| && node[n].key.None?
    && var m := Main(pos, k, |node|);
    && m < |node| && node[m].key.Some? && Main(pos, node[m].key.value, |node|) != m && node[p].next == m
    && n != m && p != m && p != n
    && node' == node[p := node[p].(next := n)][n := node[m]][m := Node(Some(k), None, -1)]
    && l' == Links(l.at[node[m].key.value := n][k := m], l.id[n := l.id[m]][m := l.id[n]], l.ord[n := l.ord[m]][m := l.ord[n]])
  }

  lemma PlaceMoved<V>(pos: MainPosition, node: seq<Node<V>>, l: Links, k: Key, n: nat, p: nat) returns (l': Links)
    requires Bounded(pos) && Chained(pos, node, l) && k !in l.at && n < |node| && p < |node| && node[n].key.None?
    requires Main(pos, k, |node|) < |node| && node[Main(pos, k, |node|)].key.Some? && node[p].next == Main(pos, k, |node|)
    requires Main(pos, node[Main(pos, k, |node|)].key.value, |node|) != Main(pos, k, |node|)
    ensures var m := Main(pos, k, |node|);
      && n != m && p != m && p != n
      && Chained(pos, node[p := node[p].(next := n)][n := node[m]][m := Node(Some(k), None, -1)], l')
      && l'.at == l.at[node[m].key.value := n][k := m]
  {
    var m := Main(pos, k, |node|);
    assert NextOk(node, l, p) && Unused(node, l, n);
    l' := Links(l.at[node[m].key.value := n][k := m], l.id[n := l.id[m]][m := l.id[n]], l.ord[n := l.ord[m]][m := l.ord[n]]);
    var node' := node[p := node[p].(next := n)][n := node[m]][m := Node(Some(k), None, -1)];
    MovedLocated(pos, node, l, k, n, p, node', l');
    MovedHomed(pos, node, l, k, n, p, node', l');
    forall x | 0 <= x < |node| ensures NextOk(node', l', x) && Unused(node', l', x) {
      MovedNext(pos, node, l, k, n, p, node', l', x);
      MovedUnused(pos, node, l, k, n, p, node', l', x);
    }
    forall i, j | 0 <= i < |node| && 0 <= j < |node| && SameChain(l', i, j) && l'.ord[i] == l'.ord[j] ensures i == j {
      MovedDistinct(pos, node, l, k, n, p, node', l', i, j);
    }
  }

  lemma MovedDistinct<V>(pos: MainPosition, node: seq<Node<V>>, l: Links, k: Key, n: nat, p: nat, node': seq<Node<V>>, l': Links, i: nat, j: nat)
    requires Moved(pos, node, l, k, n, p, node', l') && i < |node| && j < |node|
    requires |l'.ord| == |node| && SameChain(l', i, j) && l'.ord[i] == l'.ord[j]
    ensures i == j
  {
    var m := Main(pos, k, |node|);
    MovedChains(pos, node, l, k, n, p, node', l', i);
    MovedChains(pos, node, l, k, n, p, node', l', j);
    assert SameChain(l, Was(i, n, m), Was(j, n, m));
  }

  /** Where the links of node `x` were before `n` and `m` changed places. */
  function Was(x: nat, n: nat, m: nat): nat { if x == n then m else if x == m then n else x }

  lemma MovedChains<V>(pos: MainPosition, node: seq<Node<V>>, l: Links, k: Key, n: nat, p: nat, node': seq<Node<V>>, l': Links, x: nat)
    requires Moved(pos, node, l, k, n, p, node', l') && x < |node|
    ensures |l'.id| == |l'.ord| == |node|
    ensures var m := Main(pos, k, |node|); l'.id[x] == l.id[Was(x, n, m)] && l'.ord[x] == l.ord[Was(x, n, m)]
  {
  }

  lemma MovedLocated<V>(pos: MainPosition, node: seq<Node<V>>, l: Links, k: Key, n: nat, p: nat, node': seq<Node<V>>, l': Links)
    requires Moved(pos, node, l, k, n, p, node', l')
    ensures Located(node', l')
  {
    var m := Main(pos, k, |node|);
    assert node'[n].key == node[m].key && node'[m].key == Some(k);
    assert forall i :: 0 <= i < |node| && i != n && i != m ==> node'[i].key == node[i].key;
  }

  /** No key has `m` as its main position: the node there would be in its own. */
  lemma MovedHomed<V>(pos: MainPosition, node: seq<Node<V>>, l: Links, k: Key, n: nat, p: nat, node': seq<Node<V>>, l': Links)
    requires Moved(pos, node, l, k, n, p, node', l')
    ensures Homed(pos, node', l')
  {
    var m := Main(pos, k, |node|);
    forall x | x in l'.at ensures OwnMain(pos, node', Main(pos, x, |node'|)) && Reaches(l', Main(pos, x, |node'|), l'.at[x]) {
      if x != k {
        var a := Main(pos, x, |node|);
        assert OwnMain(pos, node, a) && Reaches(l, a, l.at[x]);
        assert a != m && a != n;
        MovedChains(pos, node, l, k, n, p, node', l', a);
        MovedChains(pos, node, l, k, n, p, node', l', l'.at[x]);
        assert Was(l'.at[x], n, m) == l.at[x];
      }
    }
  }

  /** Chains and their order are as before, with `n` and `m` exchanged. */
  lemma MovedSame<V>(pos: MainPosition, node: seq<Node<V>>, l: Links, k: Key, n: nat, p: nat, node': seq<Node<V>>, l': Links, x: nat)
    requires Moved(pos, node, l, k, n, p, node', l') && x < |node|
    ensures |node'| == |l'.id| == |l'.ord| == |node|
    ensures var m := Main(pos, k, |node|); forall y: nat :: y < |node| ==>
      l'.ord[y] == l.ord[Was(y, n, m)] && (SameChain(l', y, x) <==> SameChain(l, Was(y, n, m), Was(x, n, m)))
  {
    var m := Main(pos, k, |node|);
    forall y: nat | y < |node|
      ensures l'.ord[y] == l.ord[Was(y, n, m)] && (SameChain(l', y, x) <==> SameChain(l, Was(y, n, m), Was(x, n, m)))
    {
      MovedChains(pos, node, l, k, n, p, node', l', y);
      MovedChains(pos, node, l, k, n, p, node', l', x);
    }
  }

  lemma MovedUnused<V>(pos: MainPosition, node: seq<Node<V>>, l: Links, k: Key, n: nat, p: nat, node': seq<Node<V>>, l': Links, x: nat)
    requires Moved(pos, node, l, k, n, p, node', l') && x < |node|
    ensures |node'| == |l'.id| == |l'.ord| && Unused(node', l', x)
  {
    MovedSame(pos, node, l, k, n, p, node', l', x);
    assert Unused(node, l, x);
    assert x != n ==> node'[x].key.None? ==> node[x].key.None?;
  }

  lemma MovedNext<V>(pos: MainPosition, node: seq<Node<V>>, l: Links, k: Key, n: nat, p: nat, node': seq<Node<V>>, l': Links, x: nat)
    requires Moved(pos, node, l, k, n, p, node', l') && x < |node|
    ensures |node'| == |l'.id| == |l'.ord| && NextOk(node', l', x)
  {
    var m := Main(pos, k, |node|);
    var w := Was(x, n, m);
    MovedSame(pos, node, l, k, n, p, node', l', x);
    assert NextOk(node, l, w) && Unused(node, l, n);
    if x == m {
      assert forall y :: 0 <= y < |node| && SameChain(l', y, m) ==> y == m;
    } else {
      if node[w].next == m { OnlyPredecessor(pos, node, l, p, w); }
      assert node[w].next != n;
    }
  }

  /** A node has at most one node before it. */
  lemma OnlyPredecessor<V>(pos: MainPosition, node: seq<Node<V>>, l: Links, p: nat, q: nat)
    requires Chained(pos, node, l) && p < |node| && q < |node| && node[p].next == node[q].next && node[p].next != -1
    ensures p == q
  {
    assert NextOk(node, l, p) && NextOk(node, l, q);
  }

  // ---------------------------------------------------------------- walking along the chains

  /** Nodes that follow `n` on its chain: what a walk along `next` still has to visit. */
  ghost function Following(l: Links, n: nat): set<nat> {
    set x: nat | x < |l.ord| && SameChain(l, x, n) && n < |l.ord| && l.ord[n] < l.ord[x]
  }

  /** The chain walk shared by luaH_get, luaH_getnum and luaH_getstr: the key's node, or -1. */
  method FindNode<V>(pos: MainPosition, node: seq<Node<V>>, k: Key, ghost l: Links) returns (i: int)
    requires Bounded(pos) && |node| > 0 && Chained(pos, node, l)
    ensures if k in l.at then i == l.at[k] else i == -1
  {
    var n := Main(pos, k, |node|);
    if k in l.at { assert Reaches(l, n, l.at[k]); }
    while true
      invariant 0 <= n < |node|
      invariant k in l.at ==> Reaches(l, n, l.at[k])
      decreases Following(l, n)
    {
      assert NextOk(node, l, n);
      if node[n].key == Some(k) { return n; }
      if node[n].next == -1 { return -1; }
      var j := node[n].next;
      assert j in Following(l, n) && j !in Following(l, j);
      assert Following(l, j) <= Following(l, n);
      n := j;
    }
  }

  /** The walk in newkey that looks for the node before `mp`. */
  method FindPrevious<V>(ghost pos: MainPosition, node: seq<Node<V>>, mp: nat, start: nat, ghost l: Links) returns (p: nat)
    requires Chained(pos, node, l) && mp < |node| && start < |node| && start != mp && Reaches(l, start, mp)
    ensures p < |node| && node[p].next == mp
  {
    p := start;
    while node[p].next != mp
      invariant p < |node| && p != mp && Reaches(l, p, mp)
      decreases Following(l, p)
    {
      assert NextOk(node, l, p);
      var j := node[p].next;
      assert j in Following(l, p) && j !in Following(l, j);
      assert Following(l, j) <= Following(l, p);
      p := j;
    }
  }
}
