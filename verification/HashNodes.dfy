/** The hash part of a Lua table: a chained scatter table with Brent's variation
    (lua-5.1/ltable.c:7-21, 96-113, 382-429). Nodes are values here; `LuaTable`
    updates them in place. */
module HashNodes {

  datatype Value = Nil | Val(v: int)

  /** Keys that a table accepts. `Integer` stands for numbers equal to a C `int`,
      `Number` for the others; `Object` and `Text` are collectable. */
  datatype Key = Integer(n: int) | Number(id: int) | Boolean(b: bool) | LightUserdata(p: int) | Text(id: int)
               | Object(id: int)

  predicate Collectable(k: Key) {
    k.Text? || k.Object?
  }

  /** The key field of a node: nil, a key, or a key left dead by the collector. */
  datatype NodeKey = Free | Live(key: Key) | Dead(key: Key)

  /** `next` is the index of the next node of the chain, or -1. */
  datatype Node = Node(key: NodeKey, val: Value, next: int)

  type HashFunction = Key -> nat

  const EMPTY_NODE := Node(Free, Nil, -1)

  /** `mainposition`. The size is a power of two; keys that tend to be even are taken
      modulo an odd number. */
  function MainPosition(hash: HashFunction, size: nat, k: Key): (i: nat)
    requires size > 0
    ensures i < size
  {
    if k.Text? || k.Boolean? then hash(k) % size
    else if size == 1 then 0
    else if size % 2 == 0 then hash(k) % (size - 1)
    else hash(k) % size
  }

  // ----- chains -----

  /** Links stay inside the node vector and go down in rank, so chains end. */
  ghost predicate LinksOk(node: seq<Node>, rank: seq<nat>) {
    && |rank| == |node|
    && forall i :: 0 <= i < |node| ==> -1 <= node[i].next < |node| && (node[i].next >= 0 ==>
        rank[node[i].next] < rank[i])
  }

  /** The chain from `i` comes to `j`. */
  ghost predicate Reaches(node: seq<Node>, rank: seq<nat>, i: nat, j: nat)
    requires LinksOk(node, rank) && i < |node|
    decreases rank[i]
  {
    i == j || (node[i].next >= 0 && Reaches(node, rank, node[i].next, j))
  }

  /** No two nodes are linked to the same node: chains never run together from
      different nodes. */
  ghost predicate SinglyLinked(node: seq<Node>) {
    forall i, j :: 0 <= i < j < |node| && node[i].next >= 0 ==> node[i].next != node[j].next
  }

  ghost predicate FreeOk(node: seq<Node>) {
    && (forall i :: 0 <= i < |node| && node[i].key == Free ==> node[i] == EMPTY_NODE)
    && (forall i :: 0 <= i < |node| && 0 <= node[i].next < |node| ==> node[node[i].next].key != Free)
  }

  ghost predicate KeysUnique(node: seq<Node>) {
    forall i, j :: 0 <= i < j < |node| && node[i].key.Live? ==> node[i].key != node[j].key
  }

  ghost predicate DeadAreNil(node: seq<Node>) {
    forall i :: 0 <= i < |node| && node[i].key.Dead? ==> node[i].val == Nil
  }

  predicate Used(n: Node) {
    n.key != Free
  }

  /** A key is found from its main position. A key out of its main position leaves
      that position to a key at home there. */
  ghost predicate KeyPlaced(hash: HashFunction, node: seq<Node>, rank: seq<nat>, i: nat)
    requires LinksOk(node, rank) && i < |node|
  {
    node[i].key != Free ==>
      var mp := MainPosition(hash, |node|, node[i].key.key);
      && Reaches(node, rank, mp, i)
      && node[mp].key != Free && MainPosition(hash, |node|, node[mp].key.key) == mp
  }

  /** A live key comes before a dead key equal to it (an object freed and allocated
      again at its address), so a search for either meets the live one first. */
  ghost predicate LiveFirst(node: seq<Node>, rank: seq<nat>)
    requires |rank| == |node|
  {
    forall i, j :: 0 <= i < |node| && 0 <= j < |node| && node[i].key.Live? && node[j].key == Dead(node[i].key.key) ==>
      rank[j] < rank[i]
  }

  ghost predicate NodesOk(hash: HashFunction, node: seq<Node>, rank: seq<nat>) {
    && |node| > 0 && LinksOk(node, rank) && SinglyLinked(node) && FreeOk(node) && KeysUnique(node) && DeadAreNil(node)
    && LiveFirst(node, rank)
    && forall i :: 0 <= i < |node| ==> KeyPlaced(hash, node, rank, i)
  }

  /** The nodes differ in nothing but their values. */
  ghost predicate SameKeys(node: seq<Node>, node': seq<Node>) {
    |node'| == |node| && forall i :: 0 <= i < |node| ==> node'[i].key == node[i].key && node'[i].next == node[i].next
  }

  // ----- what the nodes hold -----

  ghost predicate HasKey(node: seq<Node>, k: Key) {
    exists i :: 0 <= i < |node| && node[i].key == Live(k)
  }

  ghost function IndexOf(node: seq<Node>, k: Key): (i: nat)
    requires HasKey(node, k)
    ensures i < |node| && node[i].key == Live(k)
  {
    var i :| 0 <= i < |node| && node[i].key == Live(k); i
  }

  ghost function NodeLookup(node: seq<Node>, k: Key): Value {
    if HasKey(node, k) then node[IndexOf(node, k)].val else Nil
  }

  lemma LookupAt(node: seq<Node>, i: nat)
    requires KeysUnique(node) && i < |node| && node[i].key.Live?
    ensures NodeLookup(node, node[i].key.key) == node[i].val && IndexOf(node, node[i].key.key) == i
  {
  }

  // ----- inserting a key -----

  lemma {:induction false} ReachesSameLinks(node: seq<Node>, node': seq<Node>, rank: seq<nat>, i: nat, j: nat)
    requires LinksOk(node, rank) && LinksOk(node', rank) && i < |node|
    requires forall x :: 0 <= x < |node| ==> node'[x].next == node[x].next
    ensures Reaches(node, rank, i, j) <==> Reaches(node', rank, i, j)
    decreases rank[i]
  {
    if i != j && node[i].next >= 0 { ReachesSameLinks(node, node', rank, node[i].next, j); }
  }

  lemma {:induction false} ReachesDown(node: seq<Node>, rank: seq<nat>, i: nat, j: nat)
    requires LinksOk(node, rank) && i < |node| && Reaches(node, rank, i, j)
    ensures j < |node| && (i == j || rank[j] < rank[i])
    decreases rank[i]
  {
    if i != j { ReachesDown(node, rank, node[i].next, j); }
  }

  /** Dead keys equal to `k` come after its main position. */
  lemma DeadBelow(hash: HashFunction, node: seq<Node>, rank: seq<nat>, k: Key, j: nat)
    requires NodesOk(hash, node, rank) && j < |node| && node[j].key == Dead(k)
    ensures var mp := MainPosition(hash, |node|, k);
      && (j == mp || rank[j] < rank[mp])
      && node[mp].key != Free && MainPosition(hash, |node|, node[mp].key.key) == mp
  {
    assert KeyPlaced(hash, node, rank, j);
    ReachesDown(node, rank, MainPosition(hash, |node|, k), j);
  }

  /** The main position is empty: the key goes there and the chain stays as it is. */
  lemma PutHome(hash: HashFunction, node: seq<Node>, rank: seq<nat>, k: Key)
    requires NodesOk(hash, node, rank) && !HasKey(node, k)
    requires node[MainPosition(hash, |node|, k)].val == Nil
    ensures var mp := MainPosition(hash, |node|, k);
      NodesOk(hash, node[mp := node[mp].(key := Live(k))], rank)
  {
    hide LiveFirst, KeyPlaced, MainPosition, LinksOk;
    var mp := MainPosition(hash, |node|, k);
    var node' := node[mp := node[mp].(key := Live(k))];
    HomeLiveFirst(hash, node, rank, k);
    HomePlaced(hash, node, rank, k);
    assert SinglyLinked(node') by { hide FreeOk, KeysUnique, DeadAreNil; }
    assert FreeOk(node') by { hide SinglyLinked, KeysUnique, DeadAreNil; }
    assert KeysUnique(node') by { hide SinglyLinked, FreeOk, DeadAreNil; }
  }

  lemma HomePlaced(hash: HashFunction, node: seq<Node>, rank: seq<nat>, k: Key)
    requires NodesOk(hash, node, rank)
    ensures var mp := MainPosition(hash, |node|, k);
      var node' := node[mp := node[mp].(key := Live(k))];
      LinksOk(node', rank) && forall i :: 0 <= i < |node'| ==> KeyPlaced(hash, node', rank, i)
  {
    hide KeysUnique, DeadAreNil, SinglyLinked, LiveFirst, FreeOk;
    var mp := MainPosition(hash, |node|, k);
    var node' := node[mp := node[mp].(key := Live(k))];
    assert LinksOk(node', rank);
    forall i | 0 <= i < |node'|
      ensures KeyPlaced(hash, node', rank, i)
    {
      assert KeyPlaced(hash, node, rank, i);
      if i == mp {
        assert Reaches(node', rank, mp, i);
      } else if node'[i].key != Free {
        ReachesSameLinks(node, node', rank, MainPosition(hash, |node|, node[i].key.key), i);
      }
    }
  }

  lemma HomeLiveFirst(hash: HashFunction, node: seq<Node>, rank: seq<nat>, k: Key)
    requires NodesOk(hash, node, rank)
    ensures var mp := MainPosition(hash, |node|, k); LiveFirst(node[mp := node[mp].(key := Live(k))], rank)
  {
    var mp := MainPosition(hash, |node|, k);
    forall j | 0 <= j < |node| && j != mp && node[j].key == Dead(k)
      ensures rank[j] < rank[mp]
    {
      DeadBelow(hash, node, rank, k, j);
    }
    hide NodesOk, Reaches;
    LiveFirstOf(hash, node, rank);
  }

  lemma LiveFirstOf(hash: HashFunction, node: seq<Node>, rank: seq<nat>)
    requires NodesOk(hash, node, rank)
    ensures |rank| == |node| && LiveFirst(node, rank)
  {
  }

  /** The nodes after a key has gone to the free node `n`, chained behind the key that
      is at home in `mp`. */
  function Chained(node: seq<Node>, mp: nat, n: nat, k: Key): seq<Node>
    requires mp < |node| && n < |node|
  {
    node[n := Node(Live(k), Nil, node[mp].next)][mp := node[mp].(next := n)]
  }

  /** Doubling the ranks makes room for one more between neighbours. */
  function Spread(rank: seq<nat>, mp: nat, n: nat): seq<nat>
    requires mp < |rank| && n < |rank|
  {
    seq(|rank|, i requires 0 <= i < |rank| => if i == n then 2 * rank[mp] else 2 * rank[i] + 1)
  }

  lemma ChainedLinks(node: seq<Node>, rank: seq<nat>, mp: nat, n: nat, k: Key)
    requires LinksOk(node, rank) && SinglyLinked(node) && FreeOk(node) && mp < |node| && n < |node| && n != mp
    requires node[n].key == Free
    requires node[mp].key != Free
    ensures LinksOk(Chained(node, mp, n, k), Spread(rank, mp, n)) && SinglyLinked(Chained(node, mp, n, k))
    ensures FreeOk(Chained(node, mp, n, k))
  {
    var node' := Chained(node, mp, n, k);
    forall i | 0 <= i < |node| && node[i].next >= 0
      ensures node[i].next != n
    {
      assert node[node[i].next].key != Free;
    }
  }

  lemma {:induction false} ChainedReaches(node: seq<Node>, rank: seq<nat>, mp: nat, n: nat, k: Key, i: nat, j: nat)
    requires LinksOk(node, rank) && FreeOk(node) && mp < |node| && n < |node| && n != mp && node[n].key == Free
    requires LinksOk(Chained(node, mp, n, k), Spread(rank, mp, n)) && i < |node| && i != n && Reaches(node, rank, i, j)
    ensures Reaches(Chained(node, mp, n, k), Spread(rank, mp, n), i, j)
    decreases rank[i]
  {
    if i != j {
      assert node[node[i].next].key != Free;
      ChainedReaches(node, rank, mp, n, k, node[i].next, j);
    }
  }

  lemma ChainedLiveFirst(hash: HashFunction, node: seq<Node>, rank: seq<nat>, n: nat, k: Key)
    requires NodesOk(hash, node, rank) && n < |node| && node[n].key == Free
    requires var mp := MainPosition(hash, |node|, k); node[mp].key.Live? && node[mp].key != Live(k)
    ensures var mp := MainPosition(hash, |node|, k); LiveFirst(Chained(node, mp, n, k), Spread(rank, mp, n))
  {
    var mp := MainPosition(hash, |node|, k);
    forall j | 0 <= j < |node| && node[j].key == Dead(k)
      ensures rank[j] < rank[mp]
    {
      DeadBelow(hash, node, rank, k, j);
    }
    LiveFirstOf(hash, node, rank);
    hide NodesOk, Reaches;
    var node' := Chained(node, mp, n, k);
    assert forall i :: 0 <= i < |node| && i != n ==> node'[i].key == node[i].key;
  }

  /** The new key goes to a free node, behind the key at home in its main position. */
  lemma PutChained(hash: HashFunction, node: seq<Node>, rank: seq<nat>, n: nat, k: Key)
    requires NodesOk(hash, node, rank) && !HasKey(node, k) && n < |node| && node[n].key == Free
    requires var mp := MainPosition(hash, |node|, k);
      node[mp].val != Nil && MainPosition(hash, |node|, node[mp].key.key) == mp
    ensures var mp := MainPosition(hash, |node|, k);
      NodesOk(hash, Chained(node, mp, n, k), Spread(rank, mp, n))
  {
    hide LiveFirst, LinksOk, SinglyLinked, KeyPlaced, Spread;
    var mp := MainPosition(hash, |node|, k);
    ChainedLinks(node, rank, mp, n, k);
    ChainedLiveFirst(hash, node, rank, n, k);
    ChainedPlaced(hash, node, rank, n, k);
  }

  lemma ChainedPlaced(hash: HashFunction, node: seq<Node>, rank: seq<nat>, n: nat, k: Key)
    requires NodesOk(hash, node, rank) && n < |node| && node[n].key == Free
    requires var mp := MainPosition(hash, |node|, k);
      && node[mp].val != Nil && node[mp].key != Free && MainPosition(hash, |node|, node[mp].key.key) == mp && n != mp
      && LinksOk(Chained(node, mp, n, k), Spread(rank, mp, n))
    ensures var mp := MainPosition(hash, |node|, k);
      var node', rank' := Chained(node, mp, n, k), Spread(rank, mp, n);
      forall i :: 0 <= i < |node'| ==> KeyPlaced(hash, node', rank', i)
  {
    hide KeysUnique, DeadAreNil, SinglyLinked, LiveFirst;
    var mp := MainPosition(hash, |node|, k);
    var node', rank' := Chained(node, mp, n, k), Spread(rank, mp, n);
    forall i | 0 <= i < |node'|
      ensures KeyPlaced(hash, node', rank', i)
    {
      if i == n {
        assert Reaches(node', rank', n, n);
        assert Reaches(node', rank', mp, n);
      } else if node'[i].key != Free {
        assert KeyPlaced(hash, node, rank, i);
        var p := MainPosition(hash, |node|, node[i].key.key);
        ChainedReaches(node, rank, mp, n, k, p, i);
      }
    }
  }

  /** The nodes after the key in `mp`, which is not at home there, has moved to the
      free node `n`; `prev` is the node linked to `mp`. */
  function Moved(node: seq<Node>, prev: nat, mp: nat, n: nat, k: Key): seq<Node>
    requires prev < |node| && mp < |node| && n < |node|
  {
    node[prev := node[prev].(next := n)][n := node[mp]][mp := Node(Live(k), Nil, -1)]
  }

  lemma MovedLinks(node: seq<Node>, rank: seq<nat>, prev: nat, mp: nat, n: nat, k: Key)
    requires LinksOk(node, rank) && SinglyLinked(node) && FreeOk(node) && prev < |node| && mp < |node| && n < |node|
    requires node[prev].next == mp && node[n].key == Free && node[mp].key != Free
    ensures LinksOk(Moved(node, prev, mp, n, k), rank[n := rank[mp]]) && SinglyLinked(Moved(node, prev, mp, n, k))
    ensures FreeOk(Moved(node, prev, mp, n, k))
  {
    hide SinglyLinked, LinksOk, FreeOk, Moved;
    NothingLinks(node, rank, prev, mp, n);
    MovedFree(node, prev, mp, n, k);
    MovedSingly(node, rank, prev, mp, n, k);
    MovedRank(node, rank, prev, mp, n, k);
  }

  lemma NothingLinks(node: seq<Node>, rank: seq<nat>, prev: nat, mp: nat, n: nat)
    requires LinksOk(node, rank) && SinglyLinked(node) && FreeOk(node) && prev < |node| && mp < |node| && n < |node|
    requires node[prev].next == mp && node[n].key == Free
    ensures forall i :: 0 <= i < |node| ==> node[i].next != n && (i != prev ==> node[i].next != mp)
  {
    forall i | 0 <= i < |node| && node[i].next >= 0
      ensures node[i].next != n && (i != prev ==> node[i].next != mp)
    {
      assert node[node[i].next].key != Free;
    }
  }

  lemma MovedFree(node: seq<Node>, prev: nat, mp: nat, n: nat, k: Key)
    requires FreeOk(node) && prev < |node| && mp < |node| && n < |node| && node[mp].key != Free
    requires forall i :: 0 <= i < |node| ==> node[i].next != n && (i != prev ==> node[i].next != mp)
    requires node[prev].next == mp
    ensures FreeOk(Moved(node, prev, mp, n, k))
  {
    var node' := Moved(node, prev, mp, n, k);
    forall i | 0 <= i < |node'| && 0 <= node'[i].next < |node'|
      ensures node'[node'[i].next].key != Free
    {
      if i != n && i != prev && i != mp { assert node[node[i].next].key != Free; }
    }
  }

  lemma MovedSingly(node: seq<Node>, rank: seq<nat>, prev: nat, mp: nat, n: nat, k: Key)
    requires LinksOk(node, rank) && SinglyLinked(node) && prev < |node| && mp < |node| && n < |node|
    requires forall i :: 0 <= i < |node| ==> node[i].next != n && (i != prev ==> node[i].next != mp)
    requires node[prev].next == mp
    ensures SinglyLinked(Moved(node, prev, mp, n, k))
  {
  }

  lemma MovedRank(node: seq<Node>, rank: seq<nat>, prev: nat, mp: nat, n: nat, k: Key)
    requires LinksOk(node, rank) && prev < |node| && mp < |node| && n < |node| && node[prev].next == mp
    requires forall i :: 0 <= i < |node| ==> node[i].next != n && (i != prev ==> node[i].next != mp)
    ensures LinksOk(Moved(node, prev, mp, n, k), rank[n := rank[mp]])
  {
  }

  /** Where a node of the old chain is after the move. */
  function Relocated(mp: nat, n: nat, i: nat): nat {
    if i == mp then n else i
  }

  lemma {:induction false} MovedReaches(node: seq<Node>, rank: seq<nat>, prev: nat, mp: nat, n: nat, k: Key, i: nat,
                                        j: nat)
    requires LinksOk(node, rank) && SinglyLinked(node) && FreeOk(node) && prev < |node| && mp < |node| && n < |node|
    requires node[prev].next == mp && node[n].key == Free && node[mp].key != Free
    requires LinksOk(Moved(node, prev, mp, n, k), rank[n := rank[mp]])
    requires i < |node| && i != n && Reaches(node, rank, i, j)
    ensures Reaches(Moved(node, prev, mp, n, k), rank[n := rank[mp]], Relocated(mp, n, i), Relocated(mp, n, j))
    decreases rank[i]
  {
    if i != j {
      var next := node[i].next;
      assert node[next].key != Free;
      MovedReaches(node, rank, prev, mp, n, k, next, j);
      assert i != prev ==> next != mp;
    }
  }

  lemma MovedKeys(node: seq<Node>, prev: nat, mp: nat, n: nat, k: Key)
    requires KeysUnique(node) && DeadAreNil(node) && !HasKey(node, k) && prev < |node| && mp < |node| && n < |node|
    requires prev != mp && prev != n && node[n].key == Free && n != mp
    ensures KeysUnique(Moved(node, prev, mp, n, k)) && DeadAreNil(Moved(node, prev, mp, n, k))
  {
    var node' := Moved(node, prev, mp, n, k);
    assert forall i :: 0 <= i < |node| && i != n && i != mp ==> node'[i].key == node[i].key;
  }

  lemma MovedPlaced(hash: HashFunction, node: seq<Node>, rank: seq<nat>, prev: nat, n: nat, k: Key, i: nat)
    requires NodesOk(hash, node, rank) && n < |node| && node[n].key == Free && prev < |node| && i < |node|
    requires var mp := MainPosition(hash, |node|, k);
      && node[prev].next == mp && node[mp].key != Free && MainPosition(hash, |node|, node[mp].key.key) != mp
      && LinksOk(Moved(node, prev, mp, n, k), rank[n := rank[mp]])
    ensures var mp := MainPosition(hash, |node|, k); KeyPlaced(hash, Moved(node, prev, mp, n, k),
        rank[n := rank[mp]], i)
  {
    var mp := MainPosition(hash, |node|, k);
    var node' := Moved(node, prev, mp, n, k);
    if i != mp && node'[i].key != Free {
      var was := if i == n then mp else i;
      assert KeyPlaced(hash, node, rank, was) && node'[i].key == node[was].key;
      var p := MainPosition(hash, |node|, node[was].key.key);
      assert p != mp && p != n && node'[p].key == node[p].key;
      hide KeysUnique, DeadAreNil;
      MovedReaches(node, rank, prev, mp, n, k, p, was);
    }
  }

  lemma MovedLiveFirst(hash: HashFunction, node: seq<Node>, rank: seq<nat>, prev: nat, n: nat, k: Key)
    requires NodesOk(hash, node, rank) && n < |node| && node[n].key == Free && prev < |node|
    requires var mp := MainPosition(hash, |node|, k);
      node[prev].next == mp && node[mp].key != Free && MainPosition(hash, |node|, node[mp].key.key) != mp
    ensures var mp := MainPosition(hash, |node|, k); LiveFirst(Moved(node, prev, mp, n, k), rank[n := rank[mp]])
  {
    var mp := MainPosition(hash, |node|, k);
    forall j | 0 <= j < |node|
      ensures node[j].key != Dead(k)
    {
      if node[j].key == Dead(k) { DeadBelow(hash, node, rank, k, j); }
    }
    LiveFirstOf(hash, node, rank);
    var node' := Moved(node, prev, mp, n, k);
    assert prev != mp && prev != n && n != mp;
    hide NodesOk, Reaches;
    assert forall i :: 0 <= i < |node| && i != n && i != mp ==> node'[i].key == node[i].key;
    assert node'[n].key == node[mp].key && node'[mp].key == Live(k);
  }

  /** A key that is not at home in the main position gives way to the new key. */
  lemma PutMoved(hash: HashFunction, node: seq<Node>, rank: seq<nat>, prev: nat, n: nat, k: Key)
    requires NodesOk(hash, node, rank) && !HasKey(node, k) && n < |node| && node[n].key == Free && prev < |node|
    requires var mp := MainPosition(hash, |node|, k);
      node[prev].next == mp && node[mp].key != Free && MainPosition(hash, |node|, node[mp].key.key) != mp
    ensures var mp := MainPosition(hash, |node|, k);
      NodesOk(hash, Moved(node, prev, mp, n, k), rank[n := rank[mp]])
  {
    var mp := MainPosition(hash, |node|, k);
    var node', rank' := Moved(node, prev, mp, n, k), rank[n := rank[mp]];
    MovedLinks(node, rank, prev, mp, n, k);
    MovedKeys(node, prev, mp, n, k);
    MovedLiveFirst(hash, node, rank, prev, n, k);
    hide LiveFirst, KeysUnique, DeadAreNil, SinglyLinked, FreeOk;
    forall i | 0 <= i < |node'|
      ensures KeyPlaced(hash, node', rank', i)
    {
      MovedPlaced(hash, node, rank, prev, n, k, i);
    }
  }

  // ----- what insertion does to the contents -----

  /** An entry with a value is found with that value; without one, nothing is found. */
  lemma LookupIs(node: seq<Node>, k: Key, v: Value)
    requires KeysUnique(node) && v != Nil
    ensures NodeLookup(node, k) == v <==> exists i :: 0 <= i < |node| && node[i].key == Live(k) && node[i].val == v
  {
    if i :| 0 <= i < |node| && node[i].key == Live(k) && node[i].val == v {
      LookupAt(node, i);
    }
  }

  /** Two node vectors with the same nonempty entries look the same. */
  lemma SameEntries(node: seq<Node>, node': seq<Node>, k: Key)
    requires KeysUnique(node) && KeysUnique(node')
    requires forall i :: 0 <= i < |node| && node[i].key == Live(k) && node[i].val != Nil ==>
      exists j :: 0 <= j < |node'| && node'[j].key == Live(k) && node'[j].val == node[i].val
    requires forall j :: 0 <= j < |node'| && node'[j].key == Live(k) && node'[j].val != Nil ==>
      exists i :: 0 <= i < |node| && node[i].key == Live(k) && node[i].val == node'[j].val
    ensures NodeLookup(node, k) == NodeLookup(node', k)
  {
    var v, w := NodeLookup(node, k), NodeLookup(node', k);
    if v != Nil { LookupIs(node, k, v); LookupIs(node', k, v); }
    if w != Nil { LookupIs(node, k, w); LookupIs(node', k, w); }
  }

  lemma PutHomeLookup(node: seq<Node>, mp: nat, k: Key, k': Key)
    requires KeysUnique(node) && mp < |node| && node[mp].val == Nil
    requires KeysUnique(node[mp := node[mp].(key := Live(k))])
    ensures NodeLookup(node[mp := node[mp].(key := Live(k))], k') == NodeLookup(node, k')
  {
    var node' := node[mp := node[mp].(key := Live(k))];
    forall i | 0 <= i < |node| && node[i].key == Live(k') && node[i].val != Nil
      ensures exists j :: 0 <= j < |node'| && node'[j].key == Live(k') && node'[j].val == node[i].val
    {
      assert node'[i] == node[i];
    }
    forall i | 0 <= i < |node'| && node'[i].key == Live(k') && node'[i].val != Nil
      ensures exists j :: 0 <= j < |node| && node[j].key == Live(k') && node[j].val == node'[i].val
    {
      assert node'[i] == node[i];
    }
    SameEntries(node, node', k');
  }

  lemma PutChainedLookup(node: seq<Node>, mp: nat, n: nat, k: Key, k': Key)
    requires KeysUnique(node) && mp < |node| && n < |node| && n != mp && node[n] == EMPTY_NODE
    requires KeysUnique(Chained(node, mp, n, k))
    ensures NodeLookup(Chained(node, mp, n, k), k') == NodeLookup(node, k')
  {
    var node' := Chained(node, mp, n, k);
    forall i | 0 <= i < |node| && node[i].key == Live(k') && node[i].val != Nil
      ensures exists j :: 0 <= j < |node'| && node'[j].key == Live(k') && node'[j].val == node[i].val
    {
      assert node'[i].key == node[i].key && node'[i].val == node[i].val;
    }
    forall i | 0 <= i < |node'| && node'[i].key == Live(k') && node'[i].val != Nil
      ensures exists j :: 0 <= j < |node| && node[j].key == Live(k') && node[j].val == node'[i].val
    {
      assert node'[i].key == node[i].key && node'[i].val == node[i].val;
    }
    SameEntries(node, node', k');
  }

  lemma PutMovedLookup(node: seq<Node>, prev: nat, mp: nat, n: nat, k: Key, k': Key)
    requires KeysUnique(node) && prev < |node| && mp < |node| && n < |node| && prev != mp && prev != n && n != mp
    requires node[n] == EMPTY_NODE && KeysUnique(Moved(node, prev, mp, n, k))
    ensures NodeLookup(Moved(node, prev, mp, n, k), k') == NodeLookup(node, k')
  {
    var node' := Moved(node, prev, mp, n, k);
    forall i | 0 <= i < |node| && node[i].key == Live(k') && node[i].val != Nil
      ensures exists j :: 0 <= j < |node'| && node'[j].key == Live(k') && node'[j].val == node[i].val
    {
      var j := Relocated(mp, n, i);
      assert node'[j].key == node[i].key && node'[j].val == node[i].val;
    }
    forall j | 0 <= j < |node'| && node'[j].key == Live(k') && node'[j].val != Nil
      ensures exists i :: 0 <= i < |node| && node[i].key == Live(k') && node[i].val == node'[j].val
    {
      var i := if j == n then mp else j;
      assert node'[j].key == node[i].key && node'[j].val == node[i].val;
    }
    SameEntries(node, node', k');
  }

  /** Writing the value of an entry. */
  lemma WriteOk(hash: HashFunction, node: seq<Node>, rank: seq<nat>, i: nat, v: Value)
    requires NodesOk(hash, node, rank) && i < |node| && node[i].key.Live?
    ensures NodesOk(hash, node[i := node[i].(val := v)], rank)
    ensures forall k ::
      NodeLookup(node[i := node[i].(val := v)], k) == if Live(k) == node[i].key then v else NodeLookup(node, k)
  {
    var node' := node[i := node[i].(val := v)];
    forall j | 0 <= j < |node'|
      ensures KeyPlaced(hash, node', rank, j)
    {
      hide KeysUnique, DeadAreNil, SinglyLinked, LiveFirst;
      assert KeyPlaced(hash, node, rank, j);
      if node'[j].key != Free { ReachesSameLinks(node, node', rank, MainPosition(hash, |node|, node'[j].key.key), j); }
    }
    forall k
      ensures NodeLookup(node', k) == if Live(k) == node[i].key then v else NodeLookup(node, k)
    {
      WriteLookup(node, i, v, k);
    }
  }

  lemma WriteLookup(node: seq<Node>, i: nat, v: Value, k: Key)
    requires KeysUnique(node) && i < |node| && node[i].key.Live?
    ensures NodeLookup(node[i := node[i].(val := v)], k) == if Live(k) == node[i].key then v else NodeLookup(node, k)
  {
    var node' := node[i := node[i].(val := v)];
    if Live(k) == node[i].key {
      LookupAt(node', i);
    } else if HasKey(node, k) {
      var j := IndexOf(node, k);
      LookupAt(node, j);
      LookupAt(node', j);
    } else {
      assert forall j :: 0 <= j < |node| ==> node'[j].key == node[j].key;
    }
  }

  function EmptyNodes(size: nat): (node: seq<Node>)
    ensures |node| == size && forall i :: 0 <= i < size ==> node[i] == EMPTY_NODE
  {
    seq(size, _ => EMPTY_NODE)
  }

  /** A node vector without entries. */
  lemma EmptyOk(hash: HashFunction, size: nat, rank: seq<nat>)
    requires size > 0 && |rank| == size
    ensures NodesOk(hash, EmptyNodes(size), rank)
    ensures forall k :: NodeLookup(EmptyNodes(size), k) == Nil
  {
  }

  /** The collector may leave keys of empty entries dead (`removeentry`). */
  function Buried(n: Node): Node {
    if n.val == Nil && n.key.Live? && Collectable(n.key.key) then n.(key := Dead(n.key.key)) else n
  }

  lemma BuryOk(hash: HashFunction, node: seq<Node>, rank: seq<nat>, i: nat)
    requires NodesOk(hash, node, rank) && i < |node|
    ensures NodesOk(hash, node[i := Buried(node[i])], rank)
    ensures forall k :: NodeLookup(node[i := Buried(node[i])], k) == NodeLookup(node, k)
  {
    var node' := node[i := Buried(node[i])];
    forall j | 0 <= j < |node'|
      ensures KeyPlaced(hash, node', rank, j)
    {
      hide KeysUnique, DeadAreNil, SinglyLinked, LiveFirst;
      assert KeyPlaced(hash, node, rank, j);
      if node'[j].key != Free { ReachesSameLinks(node, node', rank, MainPosition(hash, |node|, node'[j].key.key), j); }
    }
    forall k
      ensures NodeLookup(node', k) == NodeLookup(node, k)
    {
      BuryLookup(node, i, k);
    }
  }

  lemma BuryLookup(node: seq<Node>, i: nat, k: Key)
    requires KeysUnique(node) && i < |node| && KeysUnique(node[i := Buried(node[i])])
    ensures NodeLookup(node[i := Buried(node[i])], k) == NodeLookup(node, k)
  {
    var node' := node[i := Buried(node[i])];
    assert forall j :: 0 <= j < |node| && node[j].val != Nil ==> node'[j] == node[j];
    assert forall j :: 0 <= j < |node| && node'[j].val != Nil ==> node'[j] == node[j];
    SameEntries(node, node', k);
  }

  // ----- counting -----

  /** How many nodes hold a key, live, empty or dead. */
  ghost function UsedCount(node: seq<Node>): (n: nat)
    ensures n <= |node|
  {
    if node == [] then 0 else UsedCount(node[..|node|-1]) + (if Used(node[|node|-1]) then 1 else 0)
  }

  lemma {:induction false} UsedLess(node: seq<Node>)
    requires UsedCount(node) < |node|
    ensures exists i :: 0 <= i < |node| && node[i].key == Free
  {
    var last := |node| - 1;
    if Used(node[last]) {
      var init := node[..last];
      UsedLess(init);
      var i :| 0 <= i < |init| && init[i].key == Free;
      assert node[i].key == Free;
    }
  }

  lemma {:induction false} UsedUpdate(node: seq<Node>, i: nat, n: Node)
    requires i < |node|
    ensures UsedCount(node[i := n]) == UsedCount(node) - (if Used(node[i]) then 1 else 0) + (if Used(n) then 1 else 0)
  {
    var last := |node| - 1;
    if i == last {
      assert node[i := n][..last] == node[..last];
    } else {
      assert node[i := n][..last] == node[..last][i := n];
      UsedUpdate(node[..last], i, n);
    }
  }

  lemma {:induction false} UsedEmpty(node: seq<Node>)
    requires forall i :: 0 <= i < |node| ==> node[i].key == Free
    ensures UsedCount(node) == 0
  {
    if node != [] { UsedEmpty(node[..|node|-1]); }
  }
}
