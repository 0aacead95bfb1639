/** Length and traversal of Lua tables (lua-5.1/ltable.c:126-179, 528-576). */
module TableWalk {
  import opened HashNodes
  import opened TableCounts
  import opened TableContents
  import opened LuaTable

  // ----- the length -----

  /** A boundary: `t[n]` is not nil (or `n` is 0) and `t[n+1]` is nil. */
  ghost predicate Boundary(t: Table, n: nat)
    requires t.sizearray <= t.arr.Length
    reads t, t.arr, t.node
  {
    (n == 0 || t.Lookup(Integer(n)) != Nil) && t.Lookup(Integer(n + 1)) == Nil
  }

  /** A table has fewer keys than there are integers in a C `int`. */
  lemma FewKeys(t: Table)
    requires t.Valid()
    ensures |t.Keys()| < MAX_INT
  {
    hide NodesOk, ArrayKeys, NodeKeys;
    var a, n := t.arr[..t.sizearray], t.node[..];
    TableFacts(t.hash, a, n, t.rank, t.lastfree, t.dummy);
    Pow2Max();
    Pow2Monotone(t.lsizenode, MAXBITS);
    ArrayKeysBound(a);
    NodeKeysBound(n);
    var k := ArrayKeys(a) * NodeKeys(n);
    assert AllKeys(a, n) == ArrayKeys(a) + (NodeKeys(n) - ArrayKeys(a));
    SubsetSize(NodeKeys(n) - ArrayKeys(a), NodeKeys(n));
  }

  lemma KeyIsLookup(t: Table, k: Key)
    requires t.Valid()
    ensures k in t.Keys() <==> t.Lookup(k) != Nil
  {
    KeysAreLookups(t.arr[..t.sizearray], t.node[..], k);
  }

  /** The keys 1..i cannot outnumber the keys. */
  lemma {:induction false} RunOfKeys(t: Table, i: nat)
    requires t.Valid() && forall j :: 1 <= j <= i ==> t.Lookup(Integer(j)) != Nil
    ensures i <= |t.Keys()|
  {
    forall k | k in RangeKeys(i)
      ensures k in t.Keys()
    {
      InRangeKeys(k, i);
      KeyIsLookup(t, k);
    }
    SubsetSize(RangeKeys(i), t.Keys());
    RangeKeysSize(i);
  }

  lemma {:induction false} RangeKeysSize(n: nat)
    ensures |RangeKeys(n)| == n
  {
    if n > 0 {
      RangeKeysSize(n - 1);
      InRangeKeys(Integer(n), n - 1);
    }
  }

  /** `unbound_search`. The linear search of an overfull index range stays in range. */
  method UnboundSearch(t: Table, start: nat) returns (n: nat)
    requires t.Valid() && start < MAX_INT && (start == 0 || t.Lookup(Integer(start)) != Nil)
    ensures Boundary(t, n)
  {
    hide TableOk, LookupIn;
    var i: nat, j: nat := start, start + 1;
    var v := t.Get(At(Integer(j)));
    while v != Nil
      invariant i < j <= MAX_INT && (i == 0 || t.Lookup(Integer(i)) != Nil) && v == t.Lookup(Integer(j))
      decreases MAX_INT - j
    {
      i := j;
      j := j * 2;
      if j > MAX_INT {
        n := LinearSearch(t);
        return;
      }
      v := t.Get(At(Integer(j)));
    }
    while j - i > 1
      invariant i < j <= MAX_INT && (i == 0 || t.Lookup(Integer(i)) != Nil) && t.Lookup(Integer(j)) == Nil
    {
      var m := (i + j) / 2;
      v := t.Get(At(Integer(m)));
      if v == Nil { j := m; } else { i := m; }
    }
    n := i;
  }

  method LinearSearch(t: Table) returns (n: nat)
    requires t.Valid()
    ensures Boundary(t, n)
  {
    hide TableOk, LookupIn;
    var i: nat := 1;
    var v := t.Get(At(Integer(1)));
    while v != Nil
      invariant i >= 1 && v == t.Lookup(Integer(i)) && forall j :: 1 <= j < i ==> t.Lookup(Integer(j)) != Nil
      decreases |t.Keys()| - i
    {
      RunOfKeys(t, i);
      FewKeys(t);
      assert i < MAX_INT;
      i := i + 1;
      v := t.Get(At(Integer(i)));
    }
    n := i - 1;
  }

  /** `luaH_getn`. */
  method GetN(t: Table) returns (n: nat)
    requires t.Valid()
    ensures Boundary(t, n)
  {
    hide NodesOk, NodeLookup;
    var j: nat := t.sizearray;
    if j > 0 && t.arr[j - 1] == Nil {
      var i: nat := 0;
      while j - i > 1
        invariant i < j <= t.sizearray && (i == 0 || t.arr[i - 1] != Nil) && t.arr[j - 1] == Nil
      {
        var m := (i + j) / 2;
        if t.arr[m - 1] == Nil { j := m; } else { i := m; }
      }
      n := i;
    } else if t.dummy {
      DummyFacts(t.hash, t.arr[..t.sizearray], t.node[..], t.rank, t.lastfree, t.dummy);
      n := j;
    } else {
      n := UnboundSearch(t, j);
    }
  }

  // ----- traversal -----

  /** What a traversal sees of a table: its slots, array first, then nodes. */
  datatype View = View(hash: HashFunction, arr: seq<Value>, node: seq<Node>, rank: seq<nat>)

  ghost function ViewOf(t: Table): View
    requires t.sizearray <= t.arr.Length
    reads t, t.arr, t.node
  {
    View(t.hash, t.arr[..t.sizearray], t.node[..], t.rank)
  }

  ghost predicate ViewOk(v: View) {
    NodesOk(v.hash, v.node, v.rank) && NoOverlap(|v.arr|, v.node)
  }

  function Slots(v: View): nat {
    |v.arr| + |v.node|
  }

  function SlotValue(v: View, p: nat): Value
    requires p < Slots(v)
  {
    if p < |v.arr| then v.arr[p] else v.node[p - |v.arr|].val
  }

  /** A node whose key is `k`, alive or dead. */
  predicate Holder(n: Node, k: Key) {
    n.key == Live(k) || n.key == Dead(k)
  }

  /** The slot that a search for `k` comes to first. */
  ghost predicate FirstHolder(node: seq<Node>, rank: seq<nat>, i: nat, k: Key) {
    && i < |node| == |rank| && Holder(node[i], k)
    && forall j :: 0 <= j < |node| && Holder(node[j], k) && j != i ==> rank[j] < rank[i]
  }

  ghost predicate PositionOf(v: View, k: Key, p: nat) {
    if InRange(k, |v.arr|) then p == k.n - 1
    else p >= |v.arr| && FirstHolder(v.node, v.rank, p - |v.arr|, k)
  }

  /** The slot of an entry is the position of its key. */
  lemma EntryPosition(v: View, p: nat)
    requires ViewOk(v) && p < Slots(v) && SlotValue(v, p) != Nil
    ensures p >= |v.arr| ==> v.node[p - |v.arr|].key.Live?
    ensures PositionOf(v, if p < |v.arr| then Integer(p + 1) else v.node[p - |v.arr|].key.key, p)
  {
    hide Reaches, KeyPlaced, SinglyLinked;
    NodesFacts(v.hash, v.node, v.rank);
    LiveFirstOf(v.hash, v.node, v.rank);
  }

  /** What may happen between two steps of a traversal: existing entries get values,
      nil included, and the collector buries keys of empty entries. */
  ghost predicate Touched(v: View, w: View) {
    && w.hash == v.hash && |w.arr| == |v.arr| && |w.node| == |v.node| && w.rank == v.rank
    && forall i :: 0 <= i < |v.node| ==>
      && w.node[i].next == v.node[i].next
      && (w.node[i].key == v.node[i].key || (v.node[i].key.Live? && w.node[i].key == Dead(v.node[i].key.key)))
  }

  lemma PositionKept(v: View, w: View, k: Key, p: nat)
    requires Touched(v, w) && PositionOf(v, k, p)
    ensures PositionOf(w, k, p)
  {
  }

  lemma PositionUnique(v: View, k: Key, p: nat, q: nat)
    requires PositionOf(v, k, p) && PositionOf(v, k, q)
    ensures p == q
  {
  }

  lemma ViewFacts(t: Table)
    requires t.Valid()
    ensures ViewOk(ViewOf(t))
  {
    TableFacts(t.hash, t.arr[..t.sizearray], t.node[..], t.rank, t.lastfree, t.dummy);
  }

  lemma HoldersReached(v: View, k: Key, i: nat)
    requires ViewOk(v) && i < |v.node| && Holder(v.node[i], k)
    ensures Reaches(v.node, v.rank, MainPosition(v.hash, |v.node|, k), i)
  {
    HomeReaches(v.hash, v.node, v.rank, i);
  }

  lemma FirstOfReached(v: View, k: Key, r: nat)
    requires ViewOk(v) && r < |v.node| && Holder(v.node[r], k)
    requires forall i :: 0 <= i < |v.node| && Holder(v.node[i], k) ==> Reaches(v.node, v.rank, r, i)
    ensures FirstHolder(v.node, v.rank, r, k)
  {
    hide KeyPlaced, SinglyLinked, KeysUnique, Reaches;
    forall j | 0 <= j < |v.node| && Holder(v.node[j], k) && j != r
      ensures v.rank[j] < v.rank[r]
    {
      ReachesDown(v.node, v.rank, r, j);
    }
  }

  /** The chain search of `findindex`, which takes dead keys too. */
  method SearchHolder(t: Table, k: Key) returns (r: int)
    requires t.Valid()
    ensures r >= 0 ==> FirstHolder(t.node[..], t.rank, r, k)
    ensures r < 0 ==> forall i :: 0 <= i < t.node.Length ==> !Holder(t.node[i], k)
  {
    hide TableOk, ViewOk, NodesOk, FirstHolder, KeysUnique, FreeOk, DeadAreNil;
    ghost var v := ViewOf(t);
    ghost var s := v.node;
    ViewFacts(t);
    TableFacts(t.hash, v.arr, s, t.rank, t.lastfree, t.dummy);
    NodesFacts(t.hash, s, t.rank);
    r := MainPosition(t.hash, t.node.Length, k);
    forall i | 0 <= i < |s| && Holder(s[i], k)
      ensures Reaches(s, t.rank, r, i)
    {
      HoldersReached(v, k, i);
    }
    while true
      invariant 0 <= r < t.node.Length && s == t.node[..] && LinksOk(s, t.rank)
      invariant forall i :: 0 <= i < |s| && Holder(s[i], k) ==> Reaches(s, t.rank, r, i)
      decreases t.rank[r]
    {
      if t.node[r].key == Live(k) || t.node[r].key == Dead(k) {
        FirstOfReached(v, k, r);
        return;
      }
      if t.node[r].next < 0 { return -1; }
      r := t.node[r].next;
    }
  }

  datatype Step = Entry(key: Key, val: Value) | End | InvalidKey

  /** The slot before which a traversal that has come to `index` has nothing left to do. */
  ghost predicate Reached(v: View, index: Index, p: int) {
    match index
    case NilIndex => p == -1
    case NaNIndex => false
    case At(k) => p >= 0 && PositionOf(v, k, p)
  }

  /** `findindex`. */
  method FindIndex(t: Table, index: Index) returns (ok: bool, p: int)
    requires t.Valid()
    ensures ok ==> Reached(ViewOf(t), index, p) && p < Slots(ViewOf(t))
    ensures !ok ==> forall q :: !Reached(ViewOf(t), index, q)
  {
    hide TableOk, FirstHolder;
    match index
    case NilIndex => ok, p := true, -1;
    case NaNIndex => ok, p := false, 0;
    case At(k) =>
      if k.Integer? && 1 <= k.n <= t.sizearray {
        ok, p := true, k.n - 1;
      } else {
        var r := SearchHolder(t, k);
        ok, p := r >= 0, r + t.sizearray;
        if ok {
          HolderBound(t.node[..], t.rank, r, k);
        } else {
          forall q
            ensures !Reached(ViewOf(t), index, q)
          {
            if Reached(ViewOf(t), index, q) { HolderBound(t.node[..], t.rank, q - t.sizearray, k); }
          }
        }
      }
  }

  lemma HolderBound(node: seq<Node>, rank: seq<nat>, i: nat, k: Key)
    requires FirstHolder(node, rank, i, k)
    ensures i < |node| && Holder(node[i], k)
  {
  }

  /** The first slot after `p` that is not empty. */
  ghost predicate FirstAfter(v: View, p: int, q: nat) {
    && p < q < Slots(v) && SlotValue(v, q) != Nil
    && forall x :: p < x < q && 0 <= x ==> SlotValue(v, x) == Nil
  }

  ghost predicate NoneAfter(v: View, p: int) {
    forall x: nat :: p < x < Slots(v) ==> SlotValue(v, x) == Nil
  }

  /** `luaH_next`. */
  method Next(t: Table, index: Index) returns (s: Step, ghost p: int, ghost q: int)
    requires t.Valid()
    ensures s.InvalidKey? ==> forall x :: !Reached(ViewOf(t), index, x)
    ensures !s.InvalidKey? ==> Reached(ViewOf(t), index, p)
    ensures s.Entry? ==>
      && q >= 0 && FirstAfter(ViewOf(t), p, q) && s.val == SlotValue(ViewOf(t), q) && PositionOf(ViewOf(t), s.key, q)
    ensures s.Entry? ==> t.Lookup(s.key) == s.val
    ensures s.End? ==> NoneAfter(ViewOf(t), p)
  {
    hide TableOk, PositionOf, ViewOk, Reached;
    ghost var v := ViewOf(t);
    var ok, i := FindIndex(t, index);
    p, q := i, i;
    if !ok { return InvalidKey, p, q; }
    assert i >= -1 by { ReachedBound(v, index, i); }
    i := i + 1;
    while i < t.sizearray
      invariant p < i && 0 <= i && forall x: nat :: p < x < i && x < Slots(v) ==> SlotValue(v, x) == Nil
    {
      if t.arr[i] != Nil {
        q := i;
        assert FirstAfter(v, p, q);
        EntryFound(t, q);
        return Entry(Integer(i + 1), t.arr[i]), p, q;
      }
      i := i + 1;
    }
    i := i - t.sizearray;
    while i < t.node.Length
      invariant 0 <= i && p < i + t.sizearray
      invariant forall x: nat :: p < x < i + t.sizearray && x < Slots(v) ==> SlotValue(v, x) == Nil
    {
      if t.node[i].val != Nil {
        q := i + t.sizearray;
        assert FirstAfter(v, p, q);
        EntryFound(t, q);
        return Entry(t.node[i].key.key, t.node[i].val), p, q;
      }
      i := i + 1;
    }
    s := End;
  }

  lemma ReachedBound(v: View, index: Index, p: int)
    requires Reached(v, index, p)
    ensures p >= -1
  {
  }

  lemma EntryFound(t: Table, q: nat)
    requires t.Valid() && q < Slots(ViewOf(t)) && SlotValue(ViewOf(t), q) != Nil
    ensures q >= t.sizearray ==> t.node[q - t.sizearray].key.Live?
    ensures var k := if q < t.sizearray then Integer(q + 1) else t.node[q - t.sizearray].key.key;
      PositionOf(ViewOf(t), k, q) && t.Lookup(k) == SlotValue(ViewOf(t), q)
  {
    hide NodesOk, NodeLookup, TableOk;
    ViewFacts(t);
    EntryPosition(ViewOf(t), q);
    TableFacts(t.hash, t.arr[..t.sizearray], t.node[..], t.rank, t.lastfree, t.dummy);
    NodesFacts(t.hash, t.node[..], t.rank);
    if q >= t.sizearray { LookupAt(t.node[..], q - t.sizearray); }
  }

  // ----- whole traversals -----

  /** The key last found leads back to its slot, whatever happened to the entries in
      between, so `luaH_next` goes on from there. */
  lemma Resumes(v: View, w: View, k: Key, q: nat, p: int)
    requires PositionOf(v, k, q) && Touched(v, w)
    ensures Reached(w, At(k), p) <==> p == q
  {
    PositionKept(v, w, k, q);
    if Reached(w, At(k), p) { PositionUnique(w, k, p, q); }
  }

  /** The slot found before the one with number `i`. */
  function SlotBefore(visited: seq<nat>, i: nat): int {
    if 0 < i <= |visited| then visited[i - 1] else -1
  }

  ghost predicate StepAt(views: seq<View>, visited: seq<nat>, i: nat)
    requires i < |views| && i < |visited|
  {
    FirstAfter(views[i], SlotBefore(visited, i), visited[i])
  }

  /** A traversal that began at nil and has seen the slots `visited`: `views[i]` is the
      table when slot `visited[i]` was found, and the last view is the present one. */
  ghost predicate Traversal(views: seq<View>, visited: seq<nat>) {
    && |views| == |visited| + 1
    && (forall i :: 0 <= i < |visited| ==> Touched(views[i], views[i + 1]))
    && forall i :: 0 <= i < |visited| ==> StepAt(views, visited, i)
  }

  lemma {:induction false} SlotsKept(views: seq<View>, visited: seq<nat>, i: nat)
    requires Traversal(views, visited) && i < |views|
    ensures Slots(views[i]) == Slots(views[0])
  {
    if i > 0 { SlotsKept(views, visited, i - 1); }
  }

  /** The slots found go strictly up, so none is found twice. */
  lemma {:induction false} VisitedIncrease(views: seq<View>, visited: seq<nat>, i: nat, j: nat)
    requires Traversal(views, visited) && i < j < |visited|
    ensures visited[i] < visited[j]
    decreases j - i
  {
    assert StepAt(views, visited, j);
    if i + 1 < j { VisitedIncrease(views, visited, i, j - 1); }
  }

  /** A finished traversal has found every slot that was not empty when it was passed. */
  lemma {:induction false} AllVisited(views: seq<View>, visited: seq<nat>, p: nat, n: nat)
    requires Traversal(views, visited) && n <= |visited| && p < Slots(views[0])
    requires forall i :: 0 <= i < |views| ==> p < Slots(views[i]) && SlotValue(views[i], p) != Nil
    requires if n == |visited| then NoneAfter(views[n], SlotBefore(visited, n)) else p < visited[n]
    ensures p in visited
  {
    SlotsKept(views, visited, n);
    var before := SlotBefore(visited, n);
    assert SlotValue(views[n], p) != Nil;
    if n < |visited| { assert StepAt(views, visited, n); }
    if p <= before {
      if p < visited[n - 1] { AllVisited(views, visited, p, n - 1); }
    }
  }

  // ----- what may happen between two steps -----

  /** Assigning to a key that has a slot, nil included, does not disturb a traversal. */
  method Assign(t: Table, k: Key, v: Value)
    requires t.Valid() && t.HasSlot(k)
    modifies t, t.arr, t.node
    ensures t.Valid() && t.arr == old(t.arr) && t.node == old(t.node)
    ensures Touched(old(ViewOf(t)), ViewOf(t))
    ensures forall k' :: t.Lookup(k') == if k' == k then v else old(t.Lookup(k'))
  {
    hide TableOk, SameKeys, Touched;
    ghost var w := ViewOf(t);
    var ok := t.Put(k, v);
    SameKeysTouched(w, ViewOf(t));
  }

  lemma SameKeysTouched(v: View, w: View)
    requires w.hash == v.hash && |w.arr| == |v.arr| && SameKeys(v.node, w.node) && w.rank == v.rank
    ensures Touched(v, w)
  {
  }

  /** Nor does the collector, when it marks the key of an empty entry as dead. */
  method Bury(t: Table, i: nat)
    requires t.Valid() && i < t.node.Length && t.node[i].val == Nil
    modifies t.node
    ensures t.Valid() && Touched(old(ViewOf(t)), ViewOf(t))
    ensures forall k :: t.Lookup(k) == old(t.Lookup(k))
  {
    hide TableOk;
    t.RemoveEntry(i);
  }

  /** What a program and the collector may do to the table between two steps. */
  datatype Change = Assigned(key: Key, val: Value) | Buried(i: nat)

  /** Changes to slots that are there; others are not made. */
  method MakeChanges(t: Table, changes: seq<Change>)
    requires t.Valid()
    modifies t, t.arr, t.node
    ensures t.Valid() && t.arr == old(t.arr) && t.node == old(t.node)
    ensures Touched(old(ViewOf(t)), ViewOf(t))
  {
    hide TableOk, Touched;
    ghost var v := ViewOf(t);
    TouchedRefl(v);
    var c := 0;
    while c < |changes|
      invariant t.Valid() && t.arr == old(t.arr) && t.node == old(t.node) && Touched(v, ViewOf(t))
    {
      ghost var u := ViewOf(t);
      match changes[c] {
        case Assigned(k, x) =>
          var p := t.Find(k);
          if p.Hit? {
            SlotFound(t, p.slot, k);
            Assign(t, k, x);
            TouchedTrans(v, u, ViewOf(t));
          }
        case Buried(i) =>
          if i < t.node.Length && t.node[i].val == Nil {
            Bury(t, i);
            TouchedTrans(v, u, ViewOf(t));
          }
      }
      c := c + 1;
    }
  }

  lemma SlotFound(t: Table, p: Slot, k: Key)
    requires t.Valid() && t.SlotOf(p, k)
    ensures t.HasSlot(k)
  {
  }

  lemma TouchedRefl(v: View)
    ensures Touched(v, v)
  {
  }

  lemma TouchedTrans(u: View, v: View, w: View)
    requires Touched(u, v) && Touched(v, w)
    ensures Touched(u, w)
  {
    forall i | 0 <= i < |u.node|
      ensures w.node[i].next == u.node[i].next
      ensures w.node[i].key == u.node[i].key || (u.node[i].key.Live? && w.node[i].key == Dead(u.node[i].key.key))
    {
      assert v.node[i].next == u.node[i].next;
    }
  }

  // ----- the keys of a traversal -----

  ghost function ViewLookup(v: View, k: Key): Value {
    LookupIn(v.arr, v.node, k)
  }

  /** The keys found, with their slots and the views in which they were found. */
  ghost predicate Found(views: seq<View>, visited: seq<nat>, keys: seq<Key>) {
    && |keys| == |visited| <= |views|
    && forall i :: 0 <= i < |keys| ==> PositionOf(views[i], keys[i], visited[i]) && ViewLookup(views[i], keys[i]) != Nil
  }

  lemma {:induction false} PositionStays(views: seq<View>, visited: seq<nat>, k: Key, p: nat, i: nat, j: nat)
    requires Traversal(views, visited) && i <= j < |views| && PositionOf(views[i], k, p)
    ensures PositionOf(views[j], k, p)
    decreases j - i
  {
    if i < j {
      PositionStays(views, visited, k, p, i, j - 1);
      PositionKept(views[j - 1], views[j], k, p);
    }
  }

  /** No key is found twice. */
  lemma KeysDiffer(views: seq<View>, visited: seq<nat>, keys: seq<Key>, i: nat, j: nat)
    requires Traversal(views, visited) && Found(views, visited, keys) && i < j < |keys|
    ensures keys[i] != keys[j]
  {
    if keys[i] == keys[j] {
      PositionStays(views, visited, keys[i], visited[i], i, j);
      PositionUnique(views[j], keys[i], visited[i], visited[j]);
      VisitedIncrease(views, visited, i, j);
      assert false;
    }
  }

  /** A key with a value has a slot that holds it. */
  lemma KeyPosition(v: View, k: Key) returns (p: nat)
    requires ViewOk(v) && ViewLookup(v, k) != Nil
    ensures PositionOf(v, k, p) && p < Slots(v) && SlotValue(v, p) == ViewLookup(v, k)
    ensures !InRange(k, |v.arr|) ==> v.node[p - |v.arr|].key == Live(k)
  {
    hide Reaches, KeyPlaced, SinglyLinked;
    NodesFacts(v.hash, v.node, v.rank);
    LiveFirstOf(v.hash, v.node, v.rank);
    if InRange(k, |v.arr|) {
      p := k.n - 1;
    } else {
      assert HasKey(v.node, k);
      p := |v.arr| + HashNodes.IndexOf(v.node, k);
    }
  }

  /** A key that has a value throughout a finished traversal has been found. */
  lemma KeyFound(views: seq<View>, visited: seq<nat>, keys: seq<Key>, k: Key)
    requires Traversal(views, visited) && Found(views, visited, keys)
    requires (forall i :: 0 <= i < |views| ==> ViewOk(views[i]))
    requires NoneAfter(views[|visited|], SlotBefore(visited, |visited|))
    requires forall i :: 0 <= i < |views| ==> ViewLookup(views[i], k) != Nil
    ensures k in keys
  {
    hide ViewOk, PositionOf, NoneAfter;
    var p := KeyPosition(views[0], k);
    forall i | 0 <= i < |views|
      ensures p < Slots(views[i]) && SlotValue(views[i], p) != Nil
    {
      PositionStays(views, visited, k, p, 0, i);
      var q := KeyPosition(views[i], k);
      PositionUnique(views[i], k, p, q);
    }
    AllVisited(views, visited, p, |visited|);
    var i :| 0 <= i < |visited| && visited[i] == p;
    PositionStays(views, visited, k, p, 0, i);
    SameKeyAt(views[i], k, keys[i], p);
  }

  lemma SameKeyAt(v: View, k: Key, k': Key, p: nat)
    requires ViewOk(v) && PositionOf(v, k, p) && PositionOf(v, k', p) && ViewLookup(v, k) != Nil
    requires ViewLookup(v, k') != Nil
    ensures k == k'
  {
    hide ViewOk;
    var q := KeyPosition(v, k);
    var q' := KeyPosition(v, k');
    PositionUnique(v, k, p, q);
    PositionUnique(v, k', p, q');
  }

  /** From where the traversal is, only one slot is reached. */
  lemma Continues(v: View, w: View, index: Index, last: int)
    requires Touched(v, w)
    requires (index == NilIndex && last == -1) || (index.At? && last >= 0 && PositionOf(v, index.key, last))
    ensures forall p :: Reached(w, index, p) <==> p == last
  {
    hide Touched, PositionOf;
    forall p
      ensures Reached(w, index, p) <==> p == last
    {
      if index.At? {
        if p >= 0 { Resumes(v, w, index.key, last, p); }
        Resumes(v, w, index.key, last, last);
      }
    }
  }

  lemma FirstBound(v: View, p: int, q: nat)
    requires FirstAfter(v, p, q)
    ensures p < q < Slots(v)
  {
  }

  /** A traversal under way: the keys, values and slots found, and the views of the table
      in which they were. */
  ghost predicate Walked(views: seq<View>, visited: seq<nat>, keys: seq<Key>, vals: seq<Value>) {
    && |views| == |visited| == |keys| == |vals|
    && (forall i :: 0 <= i < |views| ==> ViewOk(views[i]) && PositionOf(views[i], keys[i], visited[i]))
    && (forall i :: 0 <= i < |views| ==> vals[i] == ViewLookup(views[i], keys[i]) != Nil)
    && (forall i :: 0 <= i < |views| - 1 ==> Touched(views[i], views[i + 1]))
    && forall i :: 0 <= i < |views| ==> StepAt(views, visited, i)
  }

  lemma WalkedOn(views: seq<View>, visited: seq<nat>, keys: seq<Key>, vals: seq<Value>, v: View, k: Key, x: Value,
                 q: nat)
    requires Walked(views, visited, keys, vals) && ViewOk(v) && (views != [] ==> Touched(views[|views| - 1], v))
    requires FirstAfter(v, SlotBefore(visited, |visited|), q) && PositionOf(v, k, q) && x == ViewLookup(v, k) != Nil
    ensures Walked(views + [v], visited + [q], keys + [k], vals + [x])
  {
    hide ViewOk, PositionOf, ViewLookup, Touched, FirstAfter;
    forall i | 0 <= i <= |views|
      ensures StepAt(views + [v], visited + [q], i)
    {
      if i < |views| { assert StepAt(views, visited, i); }
    }
  }

  lemma EntryFacts(t: Table, p: int, q: nat, k: Key, x: Value)
    requires t.sizearray <= t.arr.Length && FirstAfter(ViewOf(t), p, q) && x == SlotValue(ViewOf(t), q)
    requires t.Lookup(k) == x
    ensures x == ViewLookup(ViewOf(t), k) != Nil
  {
  }

  lemma Finished(views: seq<View>, visited: seq<nat>, keys: seq<Key>, vals: seq<Value>, v: View)
    requires Walked(views, visited, keys, vals) && ViewOk(v) && (views != [] ==> Touched(views[|views| - 1], v))
    requires NoneAfter(v, SlotBefore(visited, |visited|))
    ensures forall i, j :: 0 <= i < j < |keys| ==> keys[i] != keys[j]
    ensures forall k :: (forall i :: 0 <= i <= |views| ==> ViewLookup((views + [v])[i], k) != Nil) ==> k in keys
    ensures forall i :: 0 <= i < |keys| ==> vals[i] == ViewLookup((views + [v])[i], keys[i]) != Nil
    ensures forall i :: 0 <= i < |keys| ==> Touched((views + [v])[i], (views + [v])[i + 1])
  {
    hide ViewOk, NoneAfter, ViewLookup, Touched, PositionOf, FirstAfter;
    var all := views + [v];
    forall i | 0 <= i < |visited|
      ensures StepAt(all, visited, i)
    {
      assert StepAt(views, visited, i);
    }
    assert Traversal(all, visited) && Found(all, visited, keys);
    hide Traversal, Found;
    forall i, j | 0 <= i < j < |keys|
      ensures keys[i] != keys[j]
    {
      KeysDiffer(all, visited, keys, i, j);
    }
    forall k | forall i :: 0 <= i <= |views| ==> ViewLookup(all[i], k) != Nil
      ensures k in keys
    {
      KeyFound(all, visited, keys, k);
    }
  }

  /** The loop `for k in next, t`: before each step the changes `script[n]` are made. No
      key is returned twice; every key that keeps a value throughout is returned; a key
      is returned with the value it has at that moment; and the key last returned
      always leads on, so `luaH_next` raises no error. */
  method Walk(t: Table, script: seq<seq<Change>>) returns (keys: seq<Key>, vals: seq<Value>, ghost views: seq<View>)
    requires t.Valid()
    modifies t, t.arr, t.node
    ensures t.Valid() && |keys| == |vals| && |views| == |keys| + 1
    ensures forall i :: 0 <= i < |keys| ==> vals[i] == ViewLookup(views[i], keys[i]) != Nil
    ensures forall i, j :: 0 <= i < j < |keys| ==> keys[i] != keys[j]
    ensures forall k :: (forall i :: 0 <= i < |views| ==> ViewLookup(views[i], k) != Nil) ==> k in keys
    ensures Touched(old(ViewOf(t)), views[0]) && forall i :: 0 <= i < |keys| ==> Touched(views[i], views[i + 1])
  {
    hide TableOk, Touched, PositionOf, ViewOk, FirstAfter, NoneAfter, SlotValue, Reached, Walked, ViewLookup;
    keys, vals, views := [], [], [];
    ghost var visited: seq<nat> := [];
    var index := NilIndex;
    ghost var start, seen := ViewOf(t), ViewOf(t);
    TouchedRefl(start);
    WalkedNowhere();
    while true
      invariant t.Valid() && t.arr == old(t.arr) && t.node == old(t.node) && Walked(views, visited, keys, vals)
      invariant |views| == |visited| == |keys| && seen == if views == [] then start else views[|views| - 1]
      invariant index == if keys == [] then NilIndex else At(keys[|keys| - 1])
      invariant views != [] ==>
        && PositionOf(seen, keys[|keys| - 1], SlotBefore(visited, |visited|)) && Touched(start, views[0])
      invariant Touched(seen, ViewOf(t)) && Slots(seen) == Slots(start)
      invariant SlotBefore(visited, |visited|) < Slots(start)
      decreases Slots(start) - SlotBefore(visited, |visited|)
    {
      ghost var u := ViewOf(t);
      MakeChanges(t, if |keys| < |script| then script[|keys|] else []);
      ghost var v := ViewOf(t);
      TouchedTrans(seen, u, v);
      TouchedSlots(seen, v);
      ViewFacts(t);
      Continues(seen, v, index, SlotBefore(visited, |visited|));
      var s, p, q := Next(t, index);
      assert ViewOf(t) == v && Reached(v, index, SlotBefore(visited, |visited|));
      assert !s.InvalidKey? && p == SlotBefore(visited, |visited|);
      if s.Entry? {
        EntryFacts(t, p, q, s.key, s.val);
        WalkedOn(views, visited, keys, vals, v, s.key, s.val, q);
        FirstBound(v, p, q);
        keys, vals, visited, views := keys + [s.key], vals + [s.val], visited + [q], views + [v];
        index, seen := At(s.key), v;
        TouchedRefl(v);
      } else {
        Finished(views, visited, keys, vals, v);
        WalkedSize(views, visited, keys, vals);
        views := views + [v];
        return;
      }
    }
  }

  lemma WalkedNowhere()
    ensures Walked([], [], [], [])
  {
  }

  lemma WalkedSize(views: seq<View>, visited: seq<nat>, keys: seq<Key>, vals: seq<Value>)
    requires Walked(views, visited, keys, vals)
    ensures |vals| == |keys|
  {
  }

  lemma TouchedSlots(v: View, w: View)
    requires Touched(v, w)
    ensures Slots(v) == Slots(w)
  {
  }
}
