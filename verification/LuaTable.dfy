/** Hybrid array/hash tables (src/ltable.c). The table refines a finite map. */
module LuaTable {
  import opened Basics
  import opened TableChain
  import opened TableSizes
  import opened TableParts
  import opened TableCount
  import opened TableWalk

  /** MAX_INT of src/llimits.h. */
  const MAXINT: nat := 0x7fff_fffd

  class Table<V> {
    const pos: MainPosition
    var arr: seq<Option<V>>
    var node: seq<Node<V>>
    var lsizenode: nat
    var dummy: bool               // the hash part is the shared dummy node
    var lastfree: int             // no node at or above it is free
    ghost var links: Links
    ghost var contents: map<Key, V>

    ghost predicate Sized()
      reads this
    {
      && Bounded(pos) && |node| == Pow2(lsizenode) && lsizenode <= MAXBITS && |arr| <= MAXASIZE
      && lastfree <= |node|
      && (dummy ==> |node| == 1 && node[0].key.None? && lastfree <= 0)
    }

    ghost predicate Valid()
      reads this
    {
      Sized() && Parts(pos, arr, node, links, contents) && FreeBelow(node, if dummy then 1 else lastfree, -1)
    }

    /** There is a place for `k` without growing the table. */
    ghost predicate Room(k: Key)
      reads this
    {
      InRange(|arr|, k) || k in links.at || (!dummy && |links.at| < |node|)
    }

    /** luaH_set finds a place for `k` without a rehash: there is room, or the main position can be taken over. */
    ghost predicate Placeable(k: Key)
      requires Bounded(pos) && |node| > 0
      reads this
    {
      Room(k) || (!dummy && node[Main(pos, k, |node|)].val.None?)
    }

    /** The slot belongs to `k`. */
    ghost predicate SlotFor(s: Slot, k: Key)
      reads this
    {
      match s
      case ArraySlot(i) => InRange(|arr|, k) && i == k.n - 1
      case NodeSlot(i) => !InRange(|arr|, k) && k in links.at && links.at[k] == i
    }

    /** luaH_new */
    constructor (pos: MainPosition, narray: nat, nhash: nat)
      requires Bounded(pos) && narray <= MAXASIZE && nhash <= MAXASIZE
      ensures Valid() && contents == map[] && this.pos == pos && |arr| == narray && nhash <= |node|
    {
      this.pos := pos;
      arr, contents, node, lsizenode, dummy, lastfree, links := seq(narray, _ => None), map[], [], 0, true, 0, EmptyLinks(0);
      new;
      var ok := SetNodeVector(nhash);
    }

    // -------------------------------------------------------------- lookup

    /** luaH_get returns a slot or the nil object. */
    method Find(k: Key) returns (s: Option<Slot>)
      requires Bounded(pos) && |node| > 0 && Chained(pos, node, links) && Apart(|arr|, links.at)
      ensures s.Some? <==> InRange(|arr|, k) || k in links.at
      ensures s.Some? ==> SlotFor(s.value, k)
    {
      if k.Int? && 1 <= k.n <= |arr| { return Some(ArraySlot(k.n - 1)); }
      var i := FindNode(pos, node, k, links);
      s := if i == -1 then None else Some(NodeSlot(i));
    }

    /** luaH_get followed by a read of the slot; nil is no key. */
    method Get(key: Option<Key>) returns (v: Option<V>)
      requires Valid()
      ensures v == if key.Some? then Lookup(contents, key.value) else None
    {
      if key.None? { return None; }
      assert ValueAt(arr, node, links.at, key.value) == Lookup(contents, key.value);
      var s := Find(key.value);
      match s
      case None => v := None;
      case Some(ArraySlot(i)) => v := arr[i];
      case Some(NodeSlot(n)) => v := node[n].val;
    }

    // -------------------------------------------------------------- insertion

    /** getfreepos */
    method GetFreePos() returns (n: int)
      requires Sized() && Located(node, links) && FreeBelow(node, if dummy then 1 else lastfree, -1)
      modifies this`lastfree
      ensures Sized() && FreeBelow(node, if dummy then 1 else lastfree, n)
      ensures n != -1 ==> 0 <= n < |node| && node[n].key.None? && !dummy && lastfree == n
      ensures n == -1 ==> dummy || |links.at| == |node|
    {
      while lastfree > 0
        invariant Sized() && FreeBelow(node, if dummy then 1 else lastfree, -1)
        decreases lastfree
      {
        lastfree := lastfree - 1;
        if node[lastfree].key.None? { return lastfree; }
      }
      lastfree := lastfree - 1;
      FreeNode(node, links);
      n := -1;
    }

    /** luaH_set for a key that may be stored: the key's slot, made if need be. The contents do not
        change. `ok` is false ("table overflow") exactly if the key has no place and a hash part for all keys
        would exceed its limit. */
    method Set(k: Key) returns (ok: bool, s: Slot)
      requires Valid()
      modifies this
      ensures Valid() && contents == old(contents) && (ok ==> SlotFor(s, k))
      ensures ok <==> old(Placeable(k)) || Fits(old(contents), k)
      ensures old(Room(k)) ==> ok && SameSizes(old(arr), old(|node|), old(dummy)) && links.at.Keys <= old(links.at.Keys) + {k}
      ensures old(|contents|) < MAXASIZE ==> ok
      ensures old(InRange(|arr|, k) || k in links.at) ==> unchanged(this)
      decreases if Room(k) then 0 else 2, 2
    {
      var f := Find(k);
      if f.Some? { return true, f.value; }
      ok, s := NewKey(k);
    }

    /** "table overflow" in resize, for any sizes: nothing has moved, but the array part may have grown already.
        Keys that are now in its range read as nil; all others have their values. */
    ghost predicate Overflowed(a: seq<Option<V>>, nodes: seq<Node<V>>, l: Links, m: map<Key, V>)
      reads this
    {
      && node == nodes && links == l && contents == m && |a| <= |arr|
      && forall k :: ValueAt(arr, node, links.at, k) == if InRange(|arr|, k) && !InRange(|a|, k) then None else Lookup(m, k)
    }

    ghost predicate SameSizes(a: seq<Option<V>>, n: nat, d: bool)
      reads this
    {
      arr == a && |node| == n && dummy == d
    }

    /** newkey */
    method NewKey(k: Key) returns (ok: bool, s: Slot)
      requires Valid() && !InRange(|arr|, k) && k !in links.at
      modifies this
      ensures Valid() && contents == old(contents) && (ok ==> SlotFor(s, k))
      ensures ok <==> old(Placeable(k)) || Fits(old(contents), k)
      ensures old(Room(k)) ==> ok && SameSizes(old(arr), old(|node|), old(dummy)) && links.at.Keys <= old(links.at.Keys) + {k}
      ensures old(|contents|) < MAXASIZE ==> ok
      decreases if Room(k) then 0 else 2, 1
    {
      var mp := Main(pos, k, |node|);
      assert Unused(node, links, mp);
      if node[mp].val.Some? || dummy {
        var n := GetFreePos();
        if n == -1 {
          assert !old(Room(k));
          ok := Rehash(k);
          if !ok { s := ArraySlot(0); return; }
          ok, s := Set(k);
          return;
        }
        FreeLess(node, links, n, k);
        node, mp, links := Collide(pos, node, k, n, mp, arr, links, contents);
      } else {
        links := MainParts(pos, arr, node, links, contents, k);
        node := node[mp := node[mp].(key := Some(k))];
      }
      return true, NodeSlot(mp);
    }

    /** Storing a value in the slot of a key (setobj on the result of luaH_set). */
    method Store(s: Slot, ghost k: Key, v: Option<V>)
      requires Valid() && SlotFor(s, k)
      modifies this`arr, this`node, this`contents
      ensures Valid() && SameSizes(arr, old(|node|), dummy) && |arr| == old(|arr|)
      ensures contents == Stored(old(contents), k, v)
    {
      match s {
        case ArraySlot(i) =>
          ArrayHolds(arr, node, links.at, contents, k, v);
          arr := arr[i := v];
        case NodeSlot(n) =>
          NodeHolds(arr, node, links, contents, k, v);
          ValueChained(pos, node, links, n, v);
          node := node[n := node[n].(val := v)];
      }
      contents := Stored(contents, k, v);
    }

    // -------------------------------------------------------------- rehash

    /** setnodevector: a fresh hash part with at least `size` nodes, or the dummy node. */
    method SetNodeVector(size: nat) returns (ok: bool)
      requires Bounded(pos)
      modifies this`node, this`lsizenode, this`dummy, this`lastfree, this`links
      ensures ok <==> size <= MAXASIZE
      ensures !ok ==> unchanged(this)
      ensures ok ==> node == EmptyNodes(|node|) && links == EmptyLinks(|node|) && Chained(pos, node, links)
      ensures ok ==> |node| == Pow2(lsizenode) && lsizenode <= MAXBITS && dummy == (size == 0)
      ensures ok ==> if size == 0 then lsizenode == 0 && lastfree == 0 else InSlice(size, lsizenode) && lastfree == |node|
    {
      if size == 0 {
        node, lsizenode, dummy, lastfree := EmptyNodes(1), 0, true, 0;
      } else {
        var lsize := CeilLog2(size);
        MaxSize();
        if lsize > MAXBITS {
          Pow2Mono(MAXBITS, lsize - 1);
          return false;
        }
        Pow2Mono(lsize, MAXBITS);
        node, lsizenode, dummy, lastfree := EmptyNodes(Pow2(lsize)), lsize, false, Pow2(lsize);
      }
      links := EmptyLinks(|node|);
      EmptyChained<V>(pos, |node|);
      ok := true;
    }

    /** The new parts have room for every entry of `all`. */
    ghost predicate Refilling(all: map<Key, V>, nhsize: nat)
      reads this
    {
      && Valid() && links.at.Keys <= HashKeys(all, |arr|)
      && |HashKeys(all, |arr|)| <= nhsize <= |node| && dummy == (nhsize == 0)
    }

    /** Part of resize: one entry finds its place again, and no second rehash can happen. */
    method ReInsert(k: Key, v: Option<V>, ghost all: map<Key, V>, ghost nhsize: nat)
      requires Refilling(all, nhsize) && k in all && v == Some(all[k])
      modifies this
      ensures Refilling(all, nhsize) && contents == old(contents)[k := all[k]] && |arr| == old(|arr|)
      decreases 1, 0
    {
      RoomFor(links.at, HashKeys(all, |arr|), k);
      var ok, s := Set(k);
      Store(s, k, v);
    }

    /** resize: all entries move to parts of the new sizes. The array part may shrink or grow. */
    method Resize(nasize: nat, nhsize: nat) returns (ok: bool)
      requires Valid() && nasize <= MAXASIZE && |HashKeys(contents, nasize)| <= nhsize
      modifies this
      ensures ok <==> nhsize <= MAXASIZE
      ensures ok ==> Valid() && contents == old(contents) && |arr| == nasize
      ensures !ok ==> Overflowed(old(arr), old(node), old(links), old(contents))
      ensures !ok ==> dummy == old(dummy) && lastfree == old(lastfree) && lsizenode == old(lsizenode)
      ensures !ok ==> |arr| == if nasize < |old(arr)| then |old(arr)| else nasize
      ensures ok ==> nhsize <= |node| && dummy == (nhsize == 0) && links.at.Keys <= HashKeys(contents, nasize)
      decreases 1, 2
    {
      ghost var all, at0 := contents, links.at;
      forall i | 0 <= i < |node| ensures node[i].key.None? ==> node[i].val.None? { assert Unused(node, links, i); }
      var oldarr, nold := arr, node;
      if nasize > |arr| { arr := arr + seq(nasize - |arr|, _ => None); }
      ok := SetNodeVector(nhsize);
      if !ok { Padded(oldarr, arr, node, links.at, contents); return; }
      var n := if nasize < |oldarr| then nasize else |oldarr|;
      arr := arr[..nasize];
      contents := Keep(all, n, at0, |nold|);
      StartHolds(arr, oldarr, nold, node, at0, all, n);
      RefillSlice(oldarr, n, nold, at0, all, nhsize);
      RefillNodes(oldarr, nold, at0, all, nhsize);
      KeepAll(oldarr, nold, at0, all);
    }

    /** resize: the entries of the vanishing slice are inserted again. */
    method RefillSlice(oldarr: seq<Option<V>>, n: nat, ghost nold: seq<Node<V>>, ghost at0: map<Key, nat>, ghost all: map<Key, V>, ghost nhsize: nat)
      requires Refilling(all, nhsize) && contents == Keep(all, n, at0, |nold|)
      requires n <= |oldarr| && Holds(oldarr, nold, at0, all)
      modifies this
      ensures Refilling(all, nhsize) && contents == Keep(all, |oldarr|, at0, |nold|) && |arr| == old(|arr|)
      decreases 1, 1
    {
      var i := n;
      while i < |oldarr|
        invariant n <= i <= |oldarr|
        invariant Refilling(all, nhsize) && contents == Keep(all, i, at0, |nold|) && |arr| == old(|arr|)
      {
        KeepNext(oldarr, nold, at0, all, i);
        if oldarr[i].Some? { ReInsert(Int(i + 1), oldarr[i], all, nhsize); }
        i := i + 1;
      }
    }

    /** resize: the entries of the old hash part are inserted again, from the last node to the first. */
    method RefillNodes(ghost oldarr: seq<Option<V>>, nold: seq<Node<V>>, ghost at0: map<Key, nat>, ghost all: map<Key, V>, ghost nhsize: nat)
      requires Refilling(all, nhsize) && contents == Keep(all, |oldarr|, at0, |nold|)
      requires Holds(oldarr, nold, at0, all) && Apart(|oldarr|, at0) && Located(nold, Links(at0, [], []))
      requires forall j :: 0 <= j < |nold| && nold[j].key.None? ==> nold[j].val.None?
      modifies this
      ensures Refilling(all, nhsize) && contents == Keep(all, |oldarr|, at0, 0) && |arr| == old(|arr|)
      decreases 1, 1
    {
      var j := |nold|;
      while j > 0
        invariant 0 <= j <= |nold|
        invariant Refilling(all, nhsize) && contents == Keep(all, |oldarr|, at0, j) && |arr| == old(|arr|)
      {
        j := j - 1;
        KeepNode(oldarr, nold, at0, all, j);
        if nold[j].val.Some? { ReInsert(nold[j].key.value, nold[j].val, all, nhsize); }
      }
    }

    /** rehash: room for one more key, with an array part of the optimal size. If it overflows, all nodes are in
        use and no key has moved into the range of the array part, so nothing is lost. */
    method Rehash(k: Key) returns (ok: bool)
      requires Valid() && !Room(k)
      modifies this
      ensures Valid() && contents == old(contents)
      ensures ok <==> Fits(old(contents), k)
      ensures ok ==> Room(k) && Optimal(IntsOf(contents.Keys + {k}), |arr|)
      ensures |old(contents)| < MAXASIZE ==> ok
      decreases 1, 3
    {
      assert ValueAt(arr, node, links.at, k) == Lookup(contents, k);
      forall i | 0 <= i < |node| ensures node[i].key.None? ==> node[i].val.None? { assert Unused(node, links, i); }
      var nums, nasize, totaluse := CountKeys(arr, node, k, links, contents);
      ghost var s := IntsOf(contents.Keys + {k});
      var n, na := ComputeSizes(nums[..], nasize, s);
      SizeBound(s, n);
      SplitKeys(contents, k, n);
      FitsAt(contents, k, n);
      ghost var a := arr;
      ok := Resize(n, totaluse - na);
      if ok {
        RoomFor(links.at, HashKeys(contents, n), k);
      } else {
        MaxSize();
        Pow2Mono(lsizenode, MAXBITS);
        if |a| < n { AllNodesUsed(a, node, links, contents, n); }
        NothingHidden(a, arr, node, links.at, contents);
      }
    }

    // -------------------------------------------------------------- the whole operation

    /** A store t[key] = v: luaH_set and an assignment to the slot. A nil key is an error. */
    method Put(key: Option<Key>, v: Option<V>) returns (ok: bool)
      requires Valid()
      modifies this
      ensures Valid() && (ok ==> key.Some?) && contents == if ok then Stored(old(contents), key.value, v) else old(contents)
      ensures key.Some? ==> (ok <==> old(Placeable(key.value)) || Fits(old(contents), key.value))
      ensures key.Some? && |old(contents)| < MAXASIZE ==> ok
      ensures key.None? ==> !ok && unchanged(this)
      ensures key.Some? && old(InRange(|arr|, key.value) || key.value in links.at) ==>
        ok && links == old(links) && |arr| == old(|arr|) && |node| == old(|node|)
    {
      if key.None? { return false; }
      var s;
      ok, s := Set(key.value);
      if ok { Store(s, key.value, v); }
    }

    // -------------------------------------------------------------- traversal

    /** luaH_next: the entry with the smallest traversal index behind that of `key`. */
    method Next(key: Option<Key>) returns (r: Visit<V>)
      requires Valid()
      ensures r.BadKey? <==> key.Some? && Index(|arr|, links.at, key.value) == -1
      ensures r.BadKey? || Follows(contents, |arr|, links.at, if key.Some? then Index(|arr|, links.at, key.value) else -1, r)
    {
      var i := -1;
      if key.Some? {
        var s := Find(key.value);
        match s {
          case None => return BadKey;
          case Some(ArraySlot(n)) => i := n;
          case Some(NodeSlot(n)) => i := n + |arr|;
        }
      }
      forall x | 0 <= x < |node| ensures node[x].key.None? ==> node[x].val.None? { assert Unused(node, links, x); }
      r := EntryAfter(arr, node, i, links, contents);
    }

    /** The traversal so far: an entry of the table at the start for each index up to `cur`, with nothing
        changed behind it. */
    ghost predicate Walked(start: map<Key, V>, l: Links, n: nat, nn: nat, cur: int, visited: seq<(Key, V)>)
      reads this
    {
      && Valid() && links == l && |arr| == n && |node| == nn && -1 <= cur < n + nn
      && Seen(start, n, l.at, cur, visited) && Ahead(start, contents, n, l.at, cur)
      && forall k :: k in start ==> Index(n, l.at, k) > -1
    }

    /** Assignments to entries already visited, in any order and number. */
    method Assign(visited: seq<(Key, V)>, edits: seq<(nat, Option<V>)>, ghost start: map<Key, V>, ghost l: Links, ghost n: nat, ghost nn: nat, ghost cur: int)
      requires Walked(start, l, n, nn, cur, visited)
      modifies this
      ensures Walked(start, l, n, nn, cur, visited)
    {
      var i := 0;
      while i < |edits|
        invariant 0 <= i <= |edits| && Walked(start, l, n, nn, cur, visited)
      {
        var (j, v) := edits[i];
        if j < |visited| {
          var k := visited[j].0;
          assert Lookup(start, k) == Some(visited[j].1) && -1 < Index(n, l.at, k) <= cur;
          AheadStored(start, contents, n, l.at, cur, k, v);
          var ok := Put(Some(k), v);
        }
        i := i + 1;
      }
    }

    /** A whole traversal by luaH_next. After each visit the program may assign to any entries that it has
        visited, in particular nil. Every entry is still visited exactly once, with the value it had. */
    method Traverse(edits: seq<(Key, V)> -> seq<(nat, Option<V>)>) returns (visited: seq<(Key, V)>)
      requires Valid()
      modifies this
      ensures Valid() && EachOnce(old(contents), visited)
    {
      visited := [];
      ghost var start, l, n, nn := contents, links, |arr|, |node|;
      ghost var cur := -1;
      var key: Option<Key> := None;
      forall k | k in start ensures Index(n, l.at, k) > -1 { IndexOf(arr, node, l.at, start, k); }
      while true
        invariant Walked(start, l, n, nn, cur, visited)
        invariant cur == if key.Some? then Index(n, l.at, key.value) else -1
        invariant key.Some? ==> cur != -1
        decreases n + nn - cur
      {
        var r := Next(key);
        SeenNext(start, contents, node, n, l, cur, visited, r);
        if r == End { return; }
        IndexOf(arr, node, links.at, contents, r.key);
        assert forall k :: Index(n, l.at, k) > Index(n, l.at, r.key) ==> Index(n, l.at, k) > cur;
        visited := visited + [(r.key, r.val)];
        key := Some(r.key);
        cur := Index(n, l.at, r.key);
        Assign(visited, edits(visited), start, l, n, nn, cur);
      }
    }

    // -------------------------------------------------------------- length

    /** luaH_getn returns a border. */
    method GetN() returns (i: nat)
      requires Valid()
      ensures Border(contents, i)
    {
      var j := |arr|;
      if j > 0 && arr[j - 1].None? {
        i := ArrayBorder(arr);
        assert ValueAt(arr, node, links.at, Int(i)) == Lookup(contents, Int(i));
        assert ValueAt(arr, node, links.at, Int(i + 1)) == Lookup(contents, Int(i + 1));
        return;
      }
      assert ValueAt(arr, node, links.at, Int(j)) == Lookup(contents, Int(j));
      if dummy {
        assert ValueAt(arr, node, links.at, Int(j + 1)) == Lookup(contents, Int(j + 1));
        return j;
      }
      i := UnboundSearch(j);
    }

    /** unbound_search: doubling, then a binary search, or a linear search if doubling overflows. */
    method UnboundSearch(j0: nat) returns (i: nat)
      requires Valid() && (j0 == 0 || Int(j0) in contents)
      ensures Border(contents, i)
    {
      var j := j0;
      i := j;
      j := j + 1;
      var v := Get(Some(Int(j)));
      while v.Some?
        invariant i < j && (i == 0 || Int(i) in contents) && v == Lookup(contents, Int(j))
        invariant j <= MAXINT || j == j0 + 1
        decreases MAXINT + MAXINT + j0 - j
      {
        i := j;
        j := j * 2;
        if j > MAXINT { i := LinearSearch(); return; }
        v := Get(Some(Int(j)));
      }
      while j - i > 1
        invariant i < j && (i == 0 || Int(i) in contents) && Int(j) !in contents
      {
        var m := (i + j) / 2;
        v := Get(Some(Int(m)));
        if v.None? { j := m; } else { i := m; }
      }
    }

    method LinearSearch() returns (n: nat)
      requires Valid()
      ensures Border(contents, n)
    {
      var i := 1;
      var v := Get(Some(Int(1)));
      while v.Some?
        invariant i >= 1 && v == Lookup(contents, Int(i))
        invariant forall x :: 1 <= x < i ==> Int(x) in contents
        decreases |contents| + 1 - i
      {
        LinearBound(contents, i);
        i := i + 1;
        v := Get(Some(Int(i)));
      }
      n := i - 1;
    }
  }

  /** Any sequence of stores, with all the rehashes they cause, is a sequence of map updates. A store that
      overflows changes nothing, and it does so only if the keys cannot be laid out within the limits. */
  method StoreAll<V>(t: Table<V>, ops: seq<(Key, Option<V>)>) returns (done: seq<bool>)
    requires t.Valid()
    modifies t
    ensures |done| == |ops| && t.Valid() && t.contents == Replay(old(t.contents), Done(ops, done))
    ensures OnlyMisfits(old(t.contents), ops, done)
    ensures old(|t.contents|) + |ops| <= MAXASIZE ==> forall i :: 0 <= i < |ops| ==> done[i]
  {
    ghost var m := t.contents;
    done := [];
    var i := 0;
    while i < |ops|
      invariant 0 <= i == |done| <= |ops| && t.Valid() && t.contents == Replay(m, Done(ops[..i], done))
      invariant OnlyMisfits(m, ops, done)
      invariant |m| + |ops| <= MAXASIZE ==> |t.contents| <= |m| + i && forall j :: 0 <= j < i ==> done[j]
    {
      StoredSize(t.contents, ops[i].0, ops[i].1);
      ghost var before := done;
      var ok := t.Put(Some(ops[i].0), ops[i].1);
      done := done + [ok];
      OneMore(m, ops, before, ok);
      i := i + 1;
    }
    assert ops[..i] == ops;
  }

  /** Every store that failed did so because, with its key, the contents at that time do not fit. */
  ghost predicate OnlyMisfits<V>(m: map<Key, V>, ops: seq<(Key, Option<V>)>, done: seq<bool>)
    requires |done| <= |ops|
  {
    forall i :: 0 <= i < |done| && !done[i] ==> !Fits(Replay(m, Done(ops[..i], done[..i])), ops[i].0)
  }

  /** The stores that took place. */
  ghost function Done<V>(ops: seq<(Key, Option<V>)>, done: seq<bool>): seq<(Key, Option<V>)>
    requires |done| == |ops|
  {
    if ops == [] then []
    else if done[|ops| - 1] then Done(ops[..|ops| - 1], done[..|ops| - 1]) + [ops[|ops| - 1]]
    else Done(ops[..|ops| - 1], done[..|ops| - 1])
  }

  lemma OneMore<V>(m: map<Key, V>, ops: seq<(Key, Option<V>)>, done: seq<bool>, ok: bool)
    requires |done| < |ops|
    ensures var i := |done|; var c := Replay(m, Done(ops[..i], done));
      Replay(m, Done(ops[..i + 1], done + [ok])) == if ok then Stored(c, ops[i].0, ops[i].1) else c
    ensures OnlyMisfits(m, ops, done) && (ok || !Fits(Replay(m, Done(ops[..|done|], done)), ops[|done|].0)) ==> OnlyMisfits(m, ops, done + [ok])
  {
    var i := |done|;
    assert ops[..i + 1][..i] == ops[..i] && (done + [ok])[..i] == done;
    var d := Done(ops[..i], done);
    assert (d + [ops[i]])[..|d|] == d;
    forall j | 0 <= j < i && OnlyMisfits(m, ops, done) && !done[j] ensures !Fits(Replay(m, Done(ops[..j], (done + [ok])[..j])), ops[j].0) {
      assert (done + [ok])[..j] == done[..j];
    }
  }
}
