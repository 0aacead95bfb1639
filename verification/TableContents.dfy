/** What a Lua table holds, over its array part and its hash part together
    (lua-5.1/ltable.c:10-21), and what insertions and the moving of entries between
    the parts do to it. */
module TableContents {
  import opened HashNodes
  import opened TableCounts

  predicate InRange(k: Key, n: int) {
    k.Integer? && 1 <= k.n <= n
  }

  /** The value of a key: the array part answers for 1..|arr|, the nodes for the rest. */
  ghost function LookupIn(arr: seq<Value>, node: seq<Node>, k: Key): Value {
    if InRange(k, |arr|) then arr[k.n - 1] else NodeLookup(node, k)
  }

  /** Keys of the array part are not in the hash part. */
  ghost predicate NoOverlap(n: nat, node: seq<Node>) {
    forall i :: 0 <= i < |node| && node[i].key.Live? ==> !InRange(node[i].key.key, n)
  }

  /** All free nodes are below `lastfree`. */
  ghost predicate FreeBelow(node: seq<Node>, lastfree: int) {
    forall i :: 0 <= i < |node| && lastfree <= i ==> node[i].key != Free
  }

  ghost predicate TableOk(hash: HashFunction, arr: seq<Value>, node: seq<Node>, rank: seq<nat>, lastfree: int,
                          dummy: bool) {
    && NodesOk(hash, node, rank) && |arr| <= MAXASIZE && NoOverlap(|arr|, node) && lastfree <= |node|
    && if dummy then node == [EMPTY_NODE] && lastfree <= 0 else FreeBelow(node, lastfree)
  }

  lemma NodesFacts(hash: HashFunction, node: seq<Node>, rank: seq<nat>)
    requires NodesOk(hash, node, rank)
    ensures |node| > 0 && LinksOk(node, rank) && KeysUnique(node) && FreeOk(node) && DeadAreNil(node)
  {
  }

  lemma TableFacts(hash: HashFunction, arr: seq<Value>, node: seq<Node>, rank: seq<nat>, lastfree: int, dummy: bool)
    requires TableOk(hash, arr, node, rank, lastfree, dummy)
    ensures NodesOk(hash, node, rank) && NoOverlap(|arr|, node) && |arr| <= MAXASIZE
  {
  }

  /** A key is reached from its main position. */
  lemma HomeReaches(hash: HashFunction, node: seq<Node>, rank: seq<nat>, i: nat)
    requires NodesOk(hash, node, rank) && i < |node| && node[i].key != Free
    ensures Reaches(node, rank, MainPosition(hash, |node|, node[i].key.key), i)
  {
    assert KeyPlaced(hash, node, rank, i);
  }

  // ----- inserting a key -----

  ghost predicate SameContents(arr: seq<Value>, node: seq<Node>, arr': seq<Value>, node': seq<Node>) {
    forall k :: LookupIn(arr', node', k) == LookupIn(arr, node, k)
  }

  lemma HomeTable(hash: HashFunction, arr: seq<Value>, node: seq<Node>, rank: seq<nat>, lastfree: int, k: Key)
    requires TableOk(hash, arr, node, rank, lastfree, false) && !InRange(k, |arr|) && !HasKey(node, k)
    requires node[MainPosition(hash, |node|, k)].val == Nil
    ensures var mp := MainPosition(hash, |node|, k);
      var node' := node[mp := node[mp].(key := Live(k))];
      && TableOk(hash, arr, node', rank, lastfree, false) && SameContents(arr, node, arr, node')
      && UsedCount(node') <= UsedCount(node) + 1
  {
    var mp := MainPosition(hash, |node|, k);
    var node' := node[mp := node[mp].(key := Live(k))];
    PutHome(hash, node, rank, k);
    UsedUpdate(node, mp, node'[mp]);
    forall k'
      ensures NodeLookup(node', k') == NodeLookup(node, k')
    {
      PutHomeLookup(node, mp, k, k');
    }
    hide NodesOk, UsedCount;
  }

  lemma ChainedTable(hash: HashFunction, arr: seq<Value>, node: seq<Node>, rank: seq<nat>, lastfree: int, n: nat,
                     k: Key)
    requires TableOk(hash, arr, node, rank, lastfree, false) && !InRange(k, |arr|) && !HasKey(node, k)
    requires n < |node| && node[n].key == Free && FreeBelow(node, n + 1)
    requires var mp := MainPosition(hash, |node|, k);
      node[mp].val != Nil && MainPosition(hash, |node|, node[mp].key.key) == mp
    ensures var mp := MainPosition(hash, |node|, k);
      var node' := Chained(node, mp, n, k);
      && TableOk(hash, arr, node', Spread(rank, mp, n), n, false) && SameContents(arr, node, arr, node')
      && UsedCount(node') <= UsedCount(node) + 1
  {
    hide NodesOk, UsedCount, Reaches, KeysUnique;
    NodesFacts(hash, node, rank);
    var mp := MainPosition(hash, |node|, k);
    var node' := Chained(node, mp, n, k);
    PutChained(hash, node, rank, n, k);
    NodesFacts(hash, node', Spread(rank, mp, n));
    UsedUpdate(node, n, node'[n]);
    UsedUpdate(node[n := node'[n]], mp, node'[mp]);
    forall k'
      ensures NodeLookup(node', k') == NodeLookup(node, k')
    {
      PutChainedLookup(node, mp, n, k, k');
    }
  }

  lemma MovedRoom(size: nat, node: seq<Node>, prev: nat, mp: nat, n: nat, k: Key)
    requires NoOverlap(size, node) && FreeBelow(node, n + 1) && !InRange(k, size)
    requires prev < |node| && mp < |node| && n < |node| && node[mp].key != Free
    ensures NoOverlap(size, Moved(node, prev, mp, n, k)) && FreeBelow(Moved(node, prev, mp, n, k), n)
  {
  }

  lemma MovedUsed(node: seq<Node>, prev: nat, mp: nat, n: nat, k: Key)
    requires prev < |node| && mp < |node| && n < |node| && node[n] == EMPTY_NODE
    ensures UsedCount(Moved(node, prev, mp, n, k)) <= UsedCount(node) + 1
  {
    hide UsedCount;
    var one := node[prev := node[prev].(next := n)];
    UsedUpdate(node, prev, one[prev]);
    UsedUpdate(one, n, node[mp]);
    UsedUpdate(one[n := node[mp]], mp, Moved(node, prev, mp, n, k)[mp]);
  }

  lemma MovedTable(hash: HashFunction, arr: seq<Value>, node: seq<Node>, rank: seq<nat>, lastfree: int, prev: nat,
                   n: nat, k: Key)
    requires TableOk(hash, arr, node, rank, lastfree, false) && !InRange(k, |arr|) && !HasKey(node, k)
    requires n < |node| && node[n].key == Free && FreeBelow(node, n + 1) && prev < |node|
    requires var mp := MainPosition(hash, |node|, k);
      node[prev].next == mp && node[mp].val != Nil && MainPosition(hash, |node|, node[mp].key.key) != mp
    ensures var mp := MainPosition(hash, |node|, k);
      var node' := Moved(node, prev, mp, n, k);
      && TableOk(hash, arr, node', rank[n := rank[mp]], n, false) && SameContents(arr, node, arr, node')
      && UsedCount(node') <= UsedCount(node) + 1
  {
    hide NodesOk, UsedCount, Reaches, KeysUnique, NoOverlap, FreeBelow, Moved;
    NodesFacts(hash, node, rank);
    var mp := MainPosition(hash, |node|, k);
    var node' := Moved(node, prev, mp, n, k);
    PutMoved(hash, node, rank, prev, n, k);
    NodesFacts(hash, node', rank[n := rank[mp]]);
    MovedUsed(node, prev, mp, n, k);
    MovedRoom(|arr|, node, prev, mp, n, k);
    forall k'
      ensures NodeLookup(node', k') == NodeLookup(node, k')
    {
      PutMovedLookup(node, prev, mp, n, k, k');
    }
  }

  // ----- the keys in use -----

  ghost function ArrayKeys(arr: seq<Value>): set<Key> {
    set i | 0 <= i < |arr| && arr[i] != Nil :: Integer(i + 1)
  }

  ghost function NodeKeys(node: seq<Node>): set<Key> {
    set i | 0 <= i < |node| && node[i].key.Live? && node[i].val != Nil :: node[i].key.key
  }

  ghost function AllKeys(arr: seq<Value>, node: seq<Node>): set<Key> {
    ArrayKeys(arr) + NodeKeys(node)
  }

  lemma KeysAreLookups(arr: seq<Value>, node: seq<Node>, k: Key)
    requires KeysUnique(node) && NoOverlap(|arr|, node)
    ensures k in AllKeys(arr, node) <==> LookupIn(arr, node, k) != Nil
  {
    if InRange(k, |arr|) {
      assert k.n - 1 + 1 == k.n;
      assert k in ArrayKeys(arr) <==> arr[k.n - 1] != Nil by {
        if arr[k.n - 1] != Nil { assert Integer((k.n - 1) + 1) in ArrayKeys(arr); }
      }
    } else if HasKey(node, k) {
      LookupAt(node, IndexOf(node, k));
    }
  }

  /** The keys that do not belong in an array part of size `n`. */
  ghost function Beyond(keys: set<Key>, n: int): set<Key> {
    set k | k in keys && !InRange(k, n)
  }

  lemma BeyondSize(keys: set<Key>, n: nat)
    ensures |Beyond(keys, n)| == |keys| - |UpTo(keys, n)|
  {
    assert keys == Beyond(keys, n) + UpTo(keys, n);
    assert Beyond(keys, n) !! UpTo(keys, n);
  }

  // ----- moving the entries to parts of new sizes -----

  /** Of the entries of the old parts, exactly those with keys in `done` are in the new
      parts, and every node in use holds one of them. */
  ghost predicate Resized(arr0: seq<Value>, node0: seq<Node>, arr: seq<Value>, node: seq<Node>, done: set<Key>) {
    && (forall k :: LookupIn(arr, node, k) == if k in done then LookupIn(arr0, node0, k) else Nil)
    && UsedCount(node) <= |Beyond(done, |arr|)|
  }

  /** While an entry is missing there is room for it. */
  lemma RoomForMore(arr0: seq<Value>, node0: seq<Node>, n: nat, size: nat, done: set<Key>, k: Key)
    requires |Beyond(AllKeys(arr0, node0), n)| <= size
    requires Beyond(done, n) <= AllKeys(arr0, node0) && k in AllKeys(arr0, node0) && k !in done && !InRange(k, n)
    ensures |Beyond(done, n)| < size
  {
    SubsetSize(Beyond(done, n) + {k}, Beyond(AllKeys(arr0, node0), n));
  }

  lemma ResizedStep(arr0: seq<Value>, node0: seq<Node>, arr: seq<Value>, node: seq<Node>, done: set<Key>,
                    arr': seq<Value>, node': seq<Node>, k: Key)
    requires Resized(arr0, node0, arr, node, done) && |arr'| == |arr| && k !in done
    requires forall k' ::
      LookupIn(arr', node', k') == if k' == k then LookupIn(arr0, node0, k) else LookupIn(arr, node, k')
    requires UsedCount(node') <= UsedCount(node) + (if InRange(k, |arr|) then 0 else 1)
    ensures Resized(arr0, node0, arr', node', done + {k})
  {
    if InRange(k, |arr|) {
      assert Beyond(done + {k}, |arr|) == Beyond(done, |arr|);
    } else {
      assert Beyond(done + {k}, |arr|) == Beyond(done, |arr|) + {k};
    }
  }

  /** When every key in use has been moved, the contents are as before. */
  lemma ResizedAll(arr0: seq<Value>, node0: seq<Node>, arr: seq<Value>, node: seq<Node>, done: set<Key>)
    requires Resized(arr0, node0, arr, node, done) && AllKeys(arr0, node0) <= done
    requires KeysUnique(node0) && NoOverlap(|arr0|, node0)
    ensures SameContents(arr0, node0, arr, node)
  {
    hide AllKeys, LookupIn, UsedCount, NoOverlap, KeysUnique;
    forall k
      ensures LookupIn(arr, node, k) == LookupIn(arr0, node0, k)
    {
      KeysAreLookups(arr0, node0, k);
    }
  }

  /** The integer keys 1..n. */
  ghost function RangeKeys(n: nat): set<Key> {
    if n == 0 then {} else RangeKeys(n - 1) + {Integer(n)}
  }

  lemma {:induction false} InRangeKeys(k: Key, n: nat)
    ensures k in RangeKeys(n) <==> InRange(k, n)
  {
    if n > 0 { InRangeKeys(k, n - 1); }
  }

  /** Before anything is moved: the new array part holds what the parts share and the
      new nodes are empty. */
  lemma NothingMoved(arr0: seq<Value>, node0: seq<Node>, arr: seq<Value>, size: nat)
    requires forall i :: 0 <= i < |arr| ==> arr[i] == if i < |arr0| then arr0[i] else Nil
    ensures var m := if |arr| < |arr0| then |arr| else |arr0|;
      Resized(arr0, node0, arr, EmptyNodes(size), RangeKeys(m)) && Beyond(RangeKeys(m), |arr|) == {}
  {
    var m := if |arr| < |arr0| then |arr| else |arr0|;
    UsedEmpty(EmptyNodes(size));
    forall k
      ensures LookupIn(arr, EmptyNodes(size), k) == if k in RangeKeys(m) then LookupIn(arr0, node0, k) else Nil
    {
      InRangeKeys(k, m);
    }
    forall k: Key | k in RangeKeys(m)
      ensures InRange(k, |arr|)
    {
      InRangeKeys(k, m);
    }
  }

  lemma EmptyTable(hash: HashFunction, arr: seq<Value>, size: nat, rank: seq<nat>, dummy: bool)
    requires size > 0 && |rank| == size && |arr| <= MAXASIZE && (dummy ==> size == 1)
    ensures TableOk(hash, arr, EmptyNodes(size), rank, if dummy then 0 else size, dummy)
  {
    hide NodesOk;
    EmptyOk(hash, size, rank);
  }

  lemma ResizedCount(arr0: seq<Value>, node0: seq<Node>, arr: seq<Value>, node: seq<Node>, done: set<Key>)
    requires Resized(arr0, node0, arr, node, done)
    ensures UsedCount(node) <= |Beyond(done, |arr|)|
  {
  }

  lemma ArrayEntry(arr0: seq<Value>, node0: seq<Node>, i: nat)
    requires i < |arr0| && arr0[i] != Nil
    ensures Integer(i + 1) in AllKeys(arr0, node0) && LookupIn(arr0, node0, Integer(i + 1)) == arr0[i]
  {
  }

  lemma NodeEntry(arr0: seq<Value>, node0: seq<Node>, i: nat)
    requires KeysUnique(node0) && FreeOk(node0) && DeadAreNil(node0) && NoOverlap(|arr0|, node0)
    requires i < |node0| && node0[i].val != Nil
    ensures node0[i].key.Live? && node0[i].key.key in AllKeys(arr0, node0)
    ensures LookupIn(arr0, node0, node0[i].key.key) == node0[i].val
    ensures forall j :: 0 <= j < i ==> node0[j].key != node0[i].key
  {
    LookupAt(node0, i);
  }

  lemma NodesNotDone(node0: seq<Node>, n: nat, done: set<Key>)
    requires NoOverlap(n, node0) && done <= RangeKeys(n)
    ensures forall j :: 0 <= j < |node0| && node0[j].key.Live? ==> node0[j].key.key !in done
  {
    forall j | 0 <= j < |node0| && node0[j].key.Live?
      ensures node0[j].key.key !in done
    {
      InRangeKeys(node0[j].key.key, n);
    }
  }

  lemma NodesDone(arr0: seq<Value>, node0: seq<Node>, done: set<Key>)
    requires ArrayKeys(arr0) <= done
    requires forall j :: 0 <= j < |node0| && node0[j].key.Live? && node0[j].val != Nil ==> node0[j].key.key in done
    ensures AllKeys(arr0, node0) <= done
  {
  }

  lemma ArrayInRange(arr: seq<Value>)
    ensures ArrayKeys(arr) <= RangeKeys(|arr|)
  {
    forall i | 0 <= i < |arr| && arr[i] != Nil
      ensures Integer(i + 1) in RangeKeys(|arr|)
    {
      InRangeKeys(Integer(i + 1), |arr|);
    }
  }

  // ----- counting them -----

  lemma NoArrayKeys(arr: seq<Value>)
    ensures ArrayKeys(arr[..0]) == {}
  {
  }

  /** The element at index `i` of the array part as part of slice `lg`. */
  lemma NextArrayKey(arr: seq<Value>, i: nat, lg: nat)
    requires 1 <= i <= |arr| && i <= Pow2(lg) && (lg == 0 || Pow2(lg - 1) < i)
    ensures InSlice(i, lg) && Integer(i) !in ArrayKeys(arr[..i - 1])
    ensures ArrayKeys(arr[..i]) == ArrayKeys(arr[..i - 1]) + (if arr[i - 1] != Nil then {Integer(i)} else {})
  {
    var one := arr[..i - 1];
    forall k
      ensures k in ArrayKeys(arr[..i]) <==> k in ArrayKeys(one) || (arr[i - 1] != Nil && k == Integer(i))
    {
      if k in ArrayKeys(arr[..i]) {
        var j :| 0 <= j < i && arr[..i][j] != Nil && k == Integer(j + 1);
        if j < i - 1 { assert one[j] == arr[j]; }
      }
      if k in ArrayKeys(one) {
        var j :| 0 <= j < i - 1 && one[j] != Nil && k == Integer(j + 1);
        assert arr[..i][j] == one[j];
      }
      if arr[i - 1] != Nil && k == Integer(i) { assert arr[..i][i - 1] == arr[i - 1]; }
    }
  }

  /** The count `lc` of slice `lg` so far goes on with the element at index `i`. */
  lemma CountOne(nums: seq<nat>, arr: seq<Value>, i: nat, lg: nat, lc: nat)
    requires 1 <= i <= |arr| && i <= Pow2(lg) && (lg == 0 || Pow2(lg - 1) < i) && lg <= MAXBITS < |nums|
    requires NumsOk(nums[lg := nums[lg] + lc], ArrayKeys(arr[..i - 1]))
    ensures var more := if arr[i - 1] != Nil then 1 else 0;
      && NumsOk(nums[lg := nums[lg] + lc + more], ArrayKeys(arr[..i]))
      && |ArrayKeys(arr[..i])| == |ArrayKeys(arr[..i - 1])| + more
  {
    hide NumsOk, ArrayKeys, InSlice;
    NextArrayKey(arr, i, lg);
    var counted := nums[lg := nums[lg] + lc];
    if arr[i - 1] != Nil {
      AddInteger(counted, ArrayKeys(arr[..i - 1]), Integer(i), lg);
      assert nums[lg := nums[lg] + lc + 1] == counted[lg := counted[lg] + 1];
    }
  }

  lemma NoNodeKeys(node: seq<Node>, base: set<Key>)
    ensures NodeKeys(node[|node|..]) == {} && base + NodeKeys(node[|node|..]) == base
    ensures UpTo(NodeKeys(node[|node|..]), MAXASIZE) == {}
  {
  }

  lemma NextNodeKey(node: seq<Node>, i: nat)
    requires KeysUnique(node) && FreeOk(node) && DeadAreNil(node) && i < |node|
    ensures node[i].val == Nil ==> NodeKeys(node[i..]) == NodeKeys(node[i + 1..])
    ensures node[i].val != Nil ==>
      && node[i].key.Live? && node[i].key.key !in NodeKeys(node[i + 1..])
      && NodeKeys(node[i..]) == NodeKeys(node[i + 1..]) + {node[i].key.key}
    ensures NodeKeys(node[i..]) <= NodeKeys(node)
  {
    var s, t := node[i..], node[i + 1..];
    assert forall j :: 0 <= j < |t| ==> t[j] == s[j + 1] == node[i + 1 + j];
    assert s[0] == node[i];
    forall k
      ensures k in NodeKeys(s) <==> k in NodeKeys(t) || (node[i].val != Nil && k == node[i].key.key)
    {
      if k in NodeKeys(s) {
        var j :| 0 <= j < |s| && s[j].key.Live? && s[j].val != Nil && s[j].key.key == k;
        if j > 0 { assert t[j - 1] == s[j]; }
      }
      if k in NodeKeys(t) {
        var j :| 0 <= j < |t| && t[j].key.Live? && t[j].val != Nil && t[j].key.key == k;
        assert s[j + 1] == t[j];
      }
    }
  }

  lemma UpToNext(keys: set<Key>, k: Key, m: nat)
    requires k !in keys
    ensures |UpTo(keys + {k}, m)| == |UpTo(keys, m)| + (if InRange(k, m) then 1 else 0)
  {
    if InRange(k, m) {
      assert UpTo(keys + {k}, m) == UpTo(keys, m) + {k};
    } else {
      assert UpTo(keys + {k}, m) == UpTo(keys, m);
    }
  }

  lemma NumsStart(nums: seq<nat>)
    requires |nums| == MAXBITS + 1 && forall b :: 0 <= b <= MAXBITS ==> nums[b] == 0
    ensures NumsOk(nums, {})
  {
    forall b | 0 <= b <= MAXBITS
      ensures Slice({}, b) == {}
    {
    }
  }

  lemma KeysDisjoint(arr: seq<Value>, node: seq<Node>, k: Key)
    requires NoOverlap(|arr|, node)
    requires !InRange(k, |arr|) && !HasKey(node, k)
    ensures ArrayKeys(arr) !! NodeKeys(node) && k !in AllKeys(arr, node)
  {
  }

  /** What a rehash has counted: the integer keys that fit an array part, and all keys. */
  lemma RehashCounts(arr: seq<Value>, node: seq<Node>, k: Key, nasize: nat, totaluse: nat, ause: nat, c: nat)
    requires ArrayKeys(arr) !! NodeKeys(node) && k !in AllKeys(arr, node) && |arr| <= MAXASIZE
    requires ause == |UpTo(NodeKeys(node), MAXASIZE)| && c == if InRange(k, MAXASIZE) then 1 else 0
    requires nasize == |ArrayKeys(arr)| + ause + c && totaluse == |ArrayKeys(arr)| + |NodeKeys(node)| + 1
    ensures nasize == |UpTo(AllKeys(arr, node) + {k}, MAXASIZE)| && totaluse == |AllKeys(arr, node) + {k}|
  {
    UpToNext(AllKeys(arr, node), k, MAXASIZE);
    assert UpTo(AllKeys(arr, node), MAXASIZE) == ArrayKeys(arr) + UpTo(NodeKeys(node), MAXASIZE);
  }

  /** The sizes of a rehash leave every key a place, and one more for the pending key. */
  lemma RehashRoom(keys: set<Key>, k: Key, size: nat, na: nat, totaluse: nat)
    requires k !in keys && na == |UpTo(keys + {k}, size)| && totaluse == |keys + {k}|
    ensures totaluse >= na
    ensures |Beyond(keys, size)| == totaluse - na - (if InRange(k, size) then 0 else 1)
  {
    BeyondSize(keys + {k}, size);
    BeyondSize(keys, size);
    UpToNext(keys, k, size);
  }

  lemma CountNodeKey(node: seq<Node>, i: nat, base: set<Key>)
    requires KeysUnique(node) && FreeOk(node) && DeadAreNil(node) && i < |node| && base !! NodeKeys(node)
    ensures node[i].val == Nil ==> NodeKeys(node[i..]) == NodeKeys(node[i + 1..])
    ensures node[i].val != Nil ==>
      && node[i].key.Live? && node[i].key.key !in base + NodeKeys(node[i + 1..])
      && base + NodeKeys(node[i..]) == base + NodeKeys(node[i + 1..]) + {node[i].key.key}
      && |NodeKeys(node[i..])| == |NodeKeys(node[i + 1..])| + 1
      && |UpTo(NodeKeys(node[i..]), MAXASIZE)| == |UpTo(NodeKeys(node[i + 1..]),
          MAXASIZE)| + (if InRange(node[i].key.key, MAXASIZE) then 1 else 0)
  {
    hide NodeKeys, KeysUnique, FreeOk, DeadAreNil;
    NextNodeKey(node, i);
    if node[i].val != Nil { UpToNext(NodeKeys(node[i + 1..]), node[i].key.key, MAXASIZE); }
  }

  lemma NodeKeysLast(node: seq<Node>)
    requires node != []
    ensures var last := node[|node| - 1];
      NodeKeys(node) <= NodeKeys(node[..|node| - 1]) + if last.key.Live? then {last.key.key} else {}
  {
    var last := |node| - 1;
    var init := node[..last];
    forall k | k in NodeKeys(node)
      ensures k in NodeKeys(init) || (node[last].key.Live? && k == node[last].key.key)
    {
      var i :| 0 <= i < |node| && node[i].key.Live? && node[i].val != Nil && node[i].key.key == k;
      if i < last { assert init[i] == node[i]; }
    }
  }

  lemma {:induction false} NodeKeysBound(node: seq<Node>)
    ensures |NodeKeys(node)| <= |node|
  {
    if node != [] {
      hide NodeKeys;
      var last, init := node[|node| - 1], node[..|node| - 1];
      NodeKeysBound(init);
      NodeKeysLast(node);
      SubsetSize(NodeKeys(node), NodeKeys(init) + if last.key.Live? then {last.key.key} else {});
    }
  }

  lemma ArrayKeysBound(arr: seq<Value>)
    ensures |ArrayKeys(arr)| <= |arr|
  {
    assert UpTo(ArrayKeys(arr), |arr|) == ArrayKeys(arr);
    UpToBound(ArrayKeys(arr), |arr|);
  }

  lemma BeyondNodes(arr: seq<Value>, node: seq<Node>, n: nat)
    requires |arr| <= n
    ensures |Beyond(AllKeys(arr, node), n)| <= |node|
  {
    NodeKeysBound(node);
    SubsetSize(Beyond(AllKeys(arr, node), n), NodeKeys(node));
  }

  lemma BeyondDummy(arr: seq<Value>, n: nat)
    requires |arr| <= n
    ensures |Beyond(AllKeys(arr, EmptyNodes(1)), n)| == 0
  {
    assert Beyond(AllKeys(arr, EmptyNodes(1)), n) == {};
  }

  lemma DummyFacts(hash: HashFunction, arr: seq<Value>, node: seq<Node>, rank: seq<nat>, lastfree: int, dummy: bool)
    requires TableOk(hash, arr, node, rank, lastfree, dummy) && dummy
    ensures node == EmptyNodes(1) && forall k :: NodeLookup(node, k) == Nil
  {
    assert EmptyNodes(1) == [EMPTY_NODE];
  }
}
