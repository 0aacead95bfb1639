/** Lua tables as `ltable.c` changes them in place (lua-5.1/ltable.c). */
module LuaTable {
  import opened HashNodes
  import opened TableCounts
  import opened TableContents

  const MAX_INT: nat := 0x7FFF_FFFD

  /** What a program may index a table with. */
  datatype Index = NilIndex | NaNIndex | At(key: Key)

  /** The slot of a key: `TValue *` in the source. */
  datatype Slot = InArray(i: nat) | InNode(n: nat)

  /** What a search for a key finds. */
  datatype Search = Hit(slot: Slot) | Miss

  datatype SetError = IndexIsNil | IndexIsNaN | TableOverflow

  datatype Result<+T> = Ok(value: T) | Err(error: SetError)

  class Table {
    const hash: HashFunction
    var arr: array<Value>
    var sizearray: nat
    var node: array<Node>
    var lsizenode: nat
    var dummy: bool  // the node vector is the shared `dummynode`
    var lastfree: int
    ghost var rank: seq<nat>

    ghost predicate Valid()
      reads this, arr, node
    {
      && sizearray <= arr.Length && lsizenode <= MAXBITS && node.Length == Pow2(lsizenode)
      && TableOk(hash, arr[..sizearray], node[..], rank, lastfree, dummy)
    }

    ghost function Lookup(k: Key): Value
      requires sizearray <= arr.Length
      reads this, arr, node
    {
      LookupIn(arr[..sizearray], node[..], k)
    }

    ghost function Keys(): set<Key>
      requires sizearray <= arr.Length
      reads this, arr, node
    {
      AllKeys(arr[..sizearray], node[..])
    }

    ghost predicate HasRoom()
      reads this, node
    {
      !dummy && UsedCount(node[..]) < node.Length
    }

    /** A new entry for `k` can be made without a rehash. */
    ghost predicate Settled(k: Key)
      reads this, node
    {
      InRange(k, sizearray) || HasKey(node[..], k) || HasRoom()
    }

    ghost predicate SlotOf(p: Slot, k: Key)
      requires sizearray <= arr.Length
      reads this, arr, node
    {
      match p
      case InArray(i) => i < sizearray && k == Integer(i + 1)
      case InNode(n) => n < node.Length && node[n].key == Live(k) && !InRange(k, sizearray)
    }

    // ----- search -----

    /** The loop of `luaH_getnum`, `luaH_getstr` and `luaH_get` down a chain. */
    method SearchChain(k: Key) returns (r: int)
      requires Valid()
      ensures r >= 0 ==> r < node.Length && node[r].key == Live(k)
      ensures r < 0 ==> !HasKey(node[..], k)
    {
      hide KeysUnique, FreeOk, DeadAreNil, SinglyLinked, LiveFirst, NoOverlap, FreeBelow;
      ghost var s := node[..];
      r := MainPosition(hash, node.Length, k);
      assert forall i :: 0 <= i < node.Length && s[i].key == Live(k) ==>
        KeyPlaced(hash, s, rank, i) && Reaches(s, rank, r, i);
      while true
        invariant 0 <= r < node.Length && s == node[..] && LinksOk(s, rank)
        invariant forall i :: 0 <= i < node.Length && s[i].key == Live(k) ==> Reaches(s, rank, r, i)
        decreases rank[r]
      {
        if node[r].key == Live(k) { return; }
        if node[r].next < 0 { return -1; }
        r := node[r].next;
      }
    }

    /** `luaH_get`, finding the slot of a key. */
    method Find(k: Key) returns (p: Search)
      requires Valid()
      ensures p.Hit? ==> SlotOf(p.slot, k)
      ensures p.Miss? ==> !InRange(k, sizearray) && !HasKey(node[..], k) && Lookup(k) == Nil
    {
      if k.Integer? && 1 <= k.n <= sizearray {
        p := Hit(InArray(k.n - 1));
      } else {
        var r := SearchChain(k);
        p := if r >= 0 then Hit(InNode(r)) else Miss;
      }
    }

    method Read(p: Slot, ghost k: Key) returns (v: Value)
      requires Valid() && SlotOf(p, k)
      ensures v == Lookup(k)
    {
      match p
      case InArray(i) => v := arr[i];
      case InNode(n) =>
        LookupAt(node[..], n);
        v := node[n].val;
    }

    /** `luaH_get`. */
    method Get(index: Index) returns (v: Value)
      requires Valid()
      ensures v == if index.At? then Lookup(index.key) else Nil
    {
      v := Nil;
      if index.At? {
        var p := Find(index.key);
        if p.Hit? { v := Read(p.slot, index.key); }
      }
    }

    /** Assignment through a slot. */
    method Write(p: Slot, ghost k: Key, v: Value)
      requires Valid() && SlotOf(p, k)
      modifies arr, node
      ensures Valid()
      ensures forall k' :: Lookup(k') == if k' == k then v else old(Lookup(k'))
      ensures UsedCount(node[..]) == old(UsedCount(node[..])) && SameKeys(old(node[..]), node[..])
      ensures forall i :: sizearray <= i < arr.Length ==> arr[i] == old(arr[i])
    {
      match p
      case InArray(i) =>
        arr[i] := v;
        assert arr[..sizearray] == old(arr[..sizearray])[i := v];
      case InNode(n) =>
        WriteNode(n, k, v);
    }

    method WriteNode(n: nat, ghost k: Key, v: Value)
      requires Valid() && SlotOf(InNode(n), k)
      modifies node
      ensures Valid()
      ensures forall k' :: Lookup(k') == if k' == k then v else old(Lookup(k'))
      ensures UsedCount(node[..]) == old(UsedCount(node[..])) && SameKeys(old(node[..]), node[..])
    {
      hide NodesOk, UsedCount, NodeLookup;
      ghost var s := node[..];
      node[n] := node[n].(val := v);
      assert node[..] == s[n := s[n].(val := v)];
      WriteOk(hash, s, rank, n, v);
      UsedUpdate(s, n, node[n]);
    }

    /** There is a slot for `k`: an assignment to it changes no more than a value. */
    ghost predicate HasSlot(k: Key)
      reads this, node
    {
      InRange(k, sizearray) || HasKey(node[..], k)
    }

    // ----- insertion -----

    /** `getfreepos`. */
    method GetFreePos() returns (n: int)
      requires Valid()
      modifies `lastfree
      ensures n >= 0 ==> n < node.Length && node[n].key == Free && lastfree == n && !dummy && FreeBelow(node[..], n + 1)
      ensures n < 0 ==> Valid() && !HasRoom()
    {
      hide NodesOk, UsedCount;
      while true
        invariant lastfree <= node.Length && if dummy then node[..] == [EMPTY_NODE]
            && lastfree <= 0 else FreeBelow(node[..], lastfree)
        decreases lastfree
      {
        lastfree := lastfree - 1;
        if lastfree < 0 {
          n := -1;
          if HasRoom() { UsedLess(node[..]); }
          return;
        }
        if node[lastfree].key == Free {
          n := lastfree;
          return;
        }
      }
    }

    /** The node linked to `mp`: the loop at ltable.c:416. */
    method Previous(start: nat, mp: nat) returns (prev: nat)
      requires LinksOk(node[..], rank) && start < node.Length && mp != start && Reaches(node[..], rank, start, mp)
      ensures prev < node.Length && node[prev].next == mp
    {
      prev := start;
      while node[prev].next != mp
        invariant prev < node.Length && prev != mp && Reaches(node[..], rank, prev, mp)
        decreases rank[prev]
      {
        prev := node[prev].next;
      }
    }

    /** `newkey` when the main position is empty. */
    method PutAtHome(mp: nat, k: Key)
      requires Valid() && !dummy && !InRange(k, sizearray) && !HasKey(node[..], k)
      requires mp == MainPosition(hash, node.Length, k) && node[mp].val == Nil
      modifies node
      ensures Valid() && SlotOf(InNode(mp), k)
      ensures forall k' :: Lookup(k') == old(Lookup(k'))
      ensures UsedCount(node[..]) <= old(UsedCount(node[..])) + 1
    {
      hide NodesOk, UsedCount, NodeLookup;
      ghost var s := node[..];
      HomeTable(hash, arr[..sizearray], s, rank, lastfree, k);
      node[mp] := node[mp].(key := Live(k));
      assert node[..] == s[mp := s[mp].(key := Live(k))];
    }

    lemma TakenKey(mp: nat)
      requires mp < node.Length && node[mp].val != Nil && sizearray <= arr.Length
      requires exists lf :: TableOk(hash, arr[..sizearray], node[..], rank, lf, false)
      ensures node[mp].key != Free
    {
      hide UsedCount, Reaches;
      NodesFacts(hash, node[..], rank);
    }

    /** The colliding node moves from its chain to `n`, and the new key takes its place. */
    method MoveColliding(mp: nat, n: nat, k: Key)
      requires sizearray <= arr.Length && lsizenode <= MAXBITS && node.Length == Pow2(lsizenode) && !dummy
      requires exists lf :: TableOk(hash, arr[..sizearray], node[..], rank, lf, false)
      requires !InRange(k, sizearray) && !HasKey(node[..], k)
      requires mp == MainPosition(hash, node.Length, k) && node[mp].val != Nil
      requires n < node.Length && node[n].key == Free && lastfree == n && FreeBelow(node[..], n + 1)
      requires MainPosition(hash, node.Length, node[mp].key.key) != mp
      modifies `rank, node
      ensures Valid() && SlotOf(InNode(mp), k)
      ensures forall k' :: Lookup(k') == old(Lookup(k'))
      ensures UsedCount(node[..]) <= old(UsedCount(node[..])) + 1
    {
      hide NodesOk, UsedCount, NodeLookup, Reaches;
      ghost var s, a := node[..], arr[..sizearray];
      ghost var lf :| TableOk(hash, a, s, rank, lf, false);
      NodesFacts(hash, s, rank);
      HomeReaches(hash, s, rank, mp);
      var prev := Previous(MainPosition(hash, node.Length, node[mp].key.key), mp);
      MovedTable(hash, a, s, rank, lf, prev, n, k);
      node[prev] := node[prev].(next := n);
      node[n] := node[mp];
      node[mp] := node[mp].(next := -1).(val := Nil);
      node[mp] := node[mp].(key := Live(k));
      assert node[..] == Moved(s, prev, mp, n, k);
      rank := rank[n := rank[mp]];
    }

    /** The new key goes to `n`, in the chain of the node at its main position. */
    method ChainNew(mp: nat, n: nat, k: Key)
      requires sizearray <= arr.Length && lsizenode <= MAXBITS && node.Length == Pow2(lsizenode) && !dummy
      requires exists lf :: TableOk(hash, arr[..sizearray], node[..], rank, lf, false)
      requires !InRange(k, sizearray) && !HasKey(node[..], k)
      requires mp == MainPosition(hash, node.Length, k) && node[mp].val != Nil
      requires n < node.Length && node[n].key == Free && lastfree == n && FreeBelow(node[..], n + 1)
      requires MainPosition(hash, node.Length, node[mp].key.key) == mp
      modifies `rank, node
      ensures Valid() && SlotOf(InNode(n), k)
      ensures forall k' :: Lookup(k') == old(Lookup(k'))
      ensures UsedCount(node[..]) <= old(UsedCount(node[..])) + 1
    {
      hide NodesOk, UsedCount, NodeLookup, Reaches;
      ghost var s, a := node[..], arr[..sizearray];
      ghost var lf :| TableOk(hash, a, s, rank, lf, false);
      NodesFacts(hash, s, rank);
      ChainedTable(hash, a, s, rank, lf, n, k);
      node[n] := node[n].(next := node[mp].next);
      node[mp] := node[mp].(next := n);
      node[n] := node[n].(key := Live(k));
      assert node[..] == Chained(s, mp, n, k);
      rank := Spread(rank, mp, n);
    }

    /** `newkey` when the main position is taken and `n` is free: if the colliding key is
        out of its main position it moves to `n`, otherwise the new key goes there. */
    method PutColliding(mp: nat, n: nat, k: Key) returns (p: nat)
      requires sizearray <= arr.Length && lsizenode <= MAXBITS && node.Length == Pow2(lsizenode) && !dummy
      requires exists lf :: TableOk(hash, arr[..sizearray], node[..], rank, lf, false)
      requires !InRange(k, sizearray) && !HasKey(node[..], k)
      requires mp == MainPosition(hash, node.Length, k) && node[mp].val != Nil
      requires n < node.Length && node[n].key == Free && lastfree == n && FreeBelow(node[..], n + 1)
      modifies `rank, node
      ensures Valid() && SlotOf(InNode(p), k)
      ensures forall k' :: Lookup(k') == old(Lookup(k'))
      ensures UsedCount(node[..]) <= old(UsedCount(node[..])) + 1
    {
      hide TableOk, UsedCount, NodeLookup, HasKey, FreeBelow, Lookup, Valid, InRange;
      TakenKey(mp);
      var othern := MainPosition(hash, node.Length, node[mp].key.key);
      if othern != mp {
        MoveColliding(mp, n, k);
        p := mp;
      } else {
        ChainNew(mp, n, k);
        p := n;
      }
    }

    /** `newkey`. */
    method NewKey(k: Key) returns (p: Result<Slot>)
      requires Valid() && !InRange(k, sizearray) && !HasKey(node[..], k)
      modifies this, arr, node
      ensures p.Ok? ==> Valid() && SlotOf(p.value, k) && forall k' :: Lookup(k') == old(Lookup(k'))
      ensures p.Err? ==> p.error == TableOverflow && |old(Keys())| >= MAXASIZE && !old(HasRoom())
      ensures old(HasRoom()) ==>
        && arr == old(arr) && node == old(node) && sizearray == old(sizearray) && arr[..] == old(arr[..])
        && UsedCount(node[..]) <= old(UsedCount(node[..])) + 1 && !dummy
      ensures (arr == old(arr) || fresh(arr)) && (node == old(node) || fresh(node))
      decreases if HasRoom() then 0 else 1, 4
    {
      hide NodesOk, UsedCount, NodeLookup, AllKeys, FreeBelow, NoOverlap, TableOk;
      assert NodesOk(hash, node[..], rank) by { TableFacts(hash, arr[..sizearray], node[..], rank, lastfree, dummy); }
      NodesFacts(hash, node[..], rank);
      var mp := MainPosition(hash, node.Length, k);
      if node[mp].val != Nil || dummy {
        ghost var lf := lastfree;
        var n := GetFreePos();
        if n < 0 {
          var ok := Rehash(k);
          if ok {
            p := Set(k);
          } else {
            p := Err(TableOverflow);
          }
        } else {
          assert TableOk(hash, arr[..sizearray], node[..], rank, lf, false);
          var q := PutColliding(mp, n, k);
          p := Ok(InNode(q));
        }
      } else {
        PutAtHome(mp, k);
        p := Ok(InNode(mp));
      }
    }

    /** `luaH_set` for a key that is neither nil nor NaN. */
    method Set(k: Key) returns (p: Result<Slot>)
      requires Valid()
      modifies this, arr, node
      ensures p.Ok? ==> Valid() && SlotOf(p.value, k) && forall k' :: Lookup(k') == old(Lookup(k'))
      ensures p.Err? ==> p.error == TableOverflow && |old(Keys())| >= MAXASIZE && !old(Settled(k))
      ensures old(Settled(k)) ==>
        && arr == old(arr) && node == old(node) && sizearray == old(sizearray) && dummy == old(dummy)
        && arr[..] == old(arr[..])
        && UsedCount(node[..]) <= old(UsedCount(node[..])) + (if InRange(k, sizearray) then 0 else 1)
      ensures old(HasSlot(k)) ==> p.Ok? && node == old(node) && node[..] == old(node[..]) && rank == old(rank)
      ensures (arr == old(arr) || fresh(arr)) && (node == old(node) || fresh(node))
      decreases if Settled(k) then 0 else 1, 5
    {
      hide NodesOk, UsedCount, NodeLookup, AllKeys, FreeBelow, NoOverlap, TableOk;
      var s := Find(k);
      if s.Hit? {
        p := Ok(s.slot);
      } else {
        p := NewKey(k);
      }
    }

    /** `luaH_set` and the assignment to the slot it returns. */
    method Put(k: Key, v: Value) returns (ok: bool)
      requires Valid()
      modifies this, arr, node
      ensures ok ==> Valid() && forall k' :: Lookup(k') == if k' == k then v else old(Lookup(k'))
      ensures !ok ==> |old(Keys())| >= MAXASIZE && !old(Settled(k))
      ensures old(Settled(k)) ==>
        && arr == old(arr) && node == old(node) && sizearray == old(sizearray) && dummy == old(dummy)
        && arr[sizearray..] == old(arr[sizearray..])
        && UsedCount(node[..]) <= old(UsedCount(node[..])) + (if InRange(k, sizearray) then 0 else 1)
      ensures old(HasSlot(k)) ==> ok && SameKeys(old(node[..]), node[..]) && rank == old(rank)
      ensures (arr == old(arr) || fresh(arr)) && (node == old(node) || fresh(node))
      decreases if Settled(k) then 0 else 1, 6
    {
      hide NodesOk, UsedCount, NodeLookup, AllKeys, FreeBelow, NoOverlap, TableOk;
      var p := Set(k);
      if p.Ok? { Write(p.value, k, v); }
      ok := p.Ok?;
    }

    // ----- rehash -----

    /** `setarrayvector`, growing. */
    method SetArrayVector(size: nat)
      requires sizearray <= arr.Length && sizearray <= size
      modifies `arr, `sizearray
      ensures fresh(arr) && arr.Length == size == sizearray
      ensures forall i :: 0 <= i < size ==> arr[i] == if i < old(sizearray) then old(arr[i]) else Nil
    {
      var a := new Value[size](i requires 0 <= i < size reads this, arr =>
        if i < sizearray <= arr.Length then arr[i] else Nil);
      arr, sizearray := a, size;
    }

    /** The reallocation that ends a shrink. */
    method ShrinkArray()
      requires sizearray <= arr.Length
      modifies `arr
      ensures fresh(arr) && arr.Length == sizearray && arr[..sizearray] == old(arr[..sizearray])
    {
      arr := new Value[sizearray](i requires 0 <= i < sizearray reads this, arr =>
        if i < sizearray <= arr.Length then arr[i] else Nil);
    }

    /** `setnodevector`. */
    method SetNodeVector(size: nat) returns (ok: bool)
      requires sizearray <= arr.Length && sizearray <= MAXASIZE
      modifies `node, `lsizenode, `dummy, `lastfree, `rank
      ensures ok <==> size <= MAXASIZE
      ensures ok ==>
        && Valid() && fresh(node) && node[..] == EmptyNodes(node.Length) && size <= node.Length
        && (dummy <==> size == 0)
      ensures ok ==>
        && |rank| == node.Length && lastfree == (if dummy then 0 else node.Length) && (dummy ==> node.Length == 1)
      ensures !ok ==> node == old(node)
    {
      hide TableOk, NodesOk, Pow2;
      var lsize := 0;
      Pow2Max();
      if size > 0 {
        lsize := CeilLog2(size);
        if lsize > MAXBITS {
          Pow2Monotone(MAXBITS, lsize - 1);
          return false;
        }
        Pow2Monotone(lsize, MAXBITS);
      }
      ok := true;
      var length := Pow2(lsize);
      node := new Node[length](_ => EMPTY_NODE);
      lsizenode, dummy, lastfree := lsize, size == 0, if size == 0 then 0 else length;
      rank := seq(length, _ => 0);
      assert node[..] == EmptyNodes(length);
      EmptyTable(hash, arr[..sizearray], length, rank, dummy);
    }

    /** While a resize moves the entries `done` out of the old parts. */
    ghost predicate Moving(arr0: seq<Value>, node0: seq<Node>, done: set<Key>, nhsize: nat)
      reads this, arr, node
    {
      && Valid() && Resized(arr0, node0, arr[..sizearray], node[..], done)
      && Beyond(done, sizearray) <= AllKeys(arr0, node0)
      && |Beyond(AllKeys(arr0, node0), sizearray)| <= nhsize <= node.Length && (dummy ==> nhsize == 0)
    }

    /** Moves one entry. It cannot lead to another rehash. */
    method Reinsert(k: Key, v: Value, ghost arr0: seq<Value>, ghost node0: seq<Node>, ghost done: set<Key>,
                    ghost nhsize: nat)
      requires Moving(arr0, node0, done, nhsize) && k in AllKeys(arr0, node0) && k !in done
      requires v == LookupIn(arr0, node0, k)
      modifies this, arr, node
      ensures Moving(arr0, node0, done + {k}, nhsize)
      ensures arr == old(arr) && node == old(node) && sizearray == old(sizearray)
      ensures arr[sizearray..] == old(arr[sizearray..])
      decreases 1, 0
    {
      hide UsedCount, LookupIn, AllKeys, TableOk, Resized, HasKey, UpTo;
      ghost var a, n := arr[..sizearray], node[..];
      assert Settled(k) by {
        if !InRange(k, sizearray) {
          RoomForMore(arr0, node0, sizearray, nhsize, done, k);
          ResizedCount(arr0, node0, a, n, done);
        }
      }
      var ok := Put(k, v);
      forall k'
        ensures LookupIn(arr[..sizearray], node[..], k') == if k' == k then v else LookupIn(a, n, k')
      {
        assert LookupIn(arr[..sizearray], node[..], k') == Lookup(k');
      }
      ResizedStep(arr0, node0, a, n, done, arr[..sizearray], node[..], k);
    }

    /** The loop of `resize` over the slice that leaves the array part. */
    method ReinsertSlice(oldasize: nat, ghost arr0: seq<Value>, ghost node0: seq<Node>,
                         ghost nhsize: nat) returns (ghost done: set<Key>)
      requires Moving(arr0, node0, RangeKeys(sizearray), nhsize) && sizearray <= oldasize == |arr0|
      requires oldasize <= arr.Length && arr[..oldasize] == arr0
      modifies this, arr, node
      ensures Moving(arr0, node0, done, nhsize) && done <= RangeKeys(oldasize) && ArrayKeys(arr0) <= done
      ensures arr == old(arr) && node == old(node) && sizearray == old(sizearray)
      decreases 1, 1
    {
      hide Moving, AllKeys, LookupIn;
      done := RangeKeys(sizearray);
      forall k | InRange(k, sizearray)
        ensures k in done
      {
        InRangeKeys(k, sizearray);
      }
      var i := sizearray;
      while i < oldasize
        invariant sizearray <= i <= oldasize && arr == old(arr) && node == old(node) && sizearray == old(sizearray)
        invariant oldasize <= arr.Length && arr[sizearray..] == old(arr[sizearray..])
        invariant Moving(arr0, node0, done, nhsize) && done <= RangeKeys(i)
        invariant forall j :: 0 <= j < i && arr0[j] != Nil ==> Integer(j + 1) in done
      {
        assert arr[i] == arr0[i] by {
          assert arr[i] == arr[sizearray..][i - sizearray] == old(arr[sizearray..])[i - sizearray];
          assert old(arr[..oldasize])[i] == arr0[i];
        }
        if arr[i] != Nil {
          ghost var k := Integer(i + 1);
          ArrayEntry(arr0, node0, i);
          InRangeKeys(k, i);
          InRangeKeys(k, i + 1);
          Reinsert(Integer(i + 1), arr[i], arr0, node0, done, nhsize);
          done := done + {k};
        }
        i := i + 1;
      }
    }

    /** The loop of `resize` over the old hash part. */
    method ReinsertNodes(nold: array<Node>, ghost arr0: seq<Value>, ghost node0: seq<Node>, ghost done0: set<Key>,
                         ghost nhsize: nat)
        returns (ghost done: set<Key>)
      requires Moving(arr0, node0, done0, nhsize) && done0 <= RangeKeys(|arr0|) && ArrayKeys(arr0) <= done0
      requires nold != node && nold[..] == node0 && KeysUnique(node0) && FreeOk(node0) && DeadAreNil(node0)
      requires NoOverlap(|arr0|, node0)
      modifies this, arr, node
      ensures Moving(arr0, node0, done, nhsize) && AllKeys(arr0, node0) <= done
      ensures arr == old(arr) && node == old(node) && sizearray == old(sizearray)
      decreases 1, 1
    {
      hide Moving, LookupIn, AllKeys, NoOverlap, FreeOk, DeadAreNil, KeysUnique;
      done := done0;
      var i := nold.Length;
      NodesNotDone(node0, |arr0|, done0);
      while i > 0
        invariant 0 <= i <= nold.Length && arr == old(arr) && node == old(node) && sizearray == old(sizearray)
        invariant nold[..] == node0
        invariant Moving(arr0, node0, done, nhsize) && done0 <= done
        invariant forall j :: i <= j < |node0| && node0[j].key.Live? && node0[j].val != Nil ==> node0[j].key.key in done
        invariant forall j :: 0 <= j < i && node0[j].key.Live? && node0[j].val != Nil ==> node0[j].key.key !in done
      {
        i := i - 1;
        assert nold[i] == node0[i];
        if nold[i].val != Nil {
          NodeEntry(arr0, node0, i);
          Reinsert(nold[i].key.key, nold[i].val, arr0, node0, done, nhsize);
          done := done + {node0[i].key.key};
        }
      }
      assert AllKeys(arr0, node0) <= done by { NodesDone(arr0, node0, done); }
    }

    lemma FinishMoving(arr0: seq<Value>, node0: seq<Node>, done: set<Key>, nhsize: nat)
      requires Moving(arr0, node0, done, nhsize) && AllKeys(arr0, node0) <= done && KeysUnique(node0)
      requires NoOverlap(|arr0|, node0)
      ensures forall k :: Lookup(k) == LookupIn(arr0, node0, k)
      ensures UsedCount(node[..]) <= |Beyond(AllKeys(arr0, node0), sizearray)| && nhsize <= node.Length
      ensures (dummy ==> nhsize == 0)
    {
      hide LookupIn, UsedCount, AllKeys;
      ResizedAll(arr0, node0, arr[..sizearray], node[..], done);
      SubsetSize(Beyond(done, sizearray), Beyond(AllKeys(arr0, node0), sizearray));
    }

    /** `resize`. */
    method Resize(nasize: nat, nhsize: nat) returns (ok: bool)
      requires Valid() && nasize <= MAXASIZE && |Beyond(Keys(), nasize)| <= nhsize
      modifies this, arr, node
      ensures ok <==> nhsize <= MAXASIZE
      ensures ok ==>
        && Valid() && sizearray == nasize && (forall k :: Lookup(k) == old(Lookup(k)))
        && UsedCount(node[..]) <= |Beyond(old(Keys()), nasize)| && nhsize <= node.Length && (dummy ==> nhsize == 0)
      ensures (arr == old(arr) || fresh(arr)) && (node == old(node) || fresh(node))
      decreases 1, 2
    {
      hide TableOk, AllKeys, LookupIn, UsedCount, Resized, KeysUnique, NoOverlap, FreeOk, DeadAreNil, NodesOk;
      ghost var arr0, node0 := arr[..sizearray], node[..];
      TableFacts(hash, arr0, node0, rank, lastfree, dummy);
      NodesFacts(hash, node0, rank);
      var oldasize, nold := sizearray, node;
      if nasize > oldasize { SetArrayVector(nasize); }
      ok := SetNodeVector(nhsize);
      if ok {
        ghost var done := RangeKeys(oldasize);
        if nasize < oldasize {
          NothingMoved(arr0, node0, arr[..nasize], node.Length);
          sizearray := nasize;
          EmptyTable(hash, arr[..nasize], node.Length, rank, dummy);
          done := ReinsertSlice(oldasize, arr0, node0, nhsize);
          ShrinkArray();
        } else {
          NothingMoved(arr0, node0, arr[..nasize], node.Length);
          ArrayInRange(arr0);
        }
        done := ReinsertNodes(nold, arr0, node0, done, nhsize);
        FinishMoving(arr0, node0, done, nhsize);
      }
    }

    /** `numusearray`. */
    method NumUseArray(nums: array<nat>) returns (ause: nat)
      requires sizearray <= arr.Length && sizearray <= MAXASIZE && NumsOk(nums[..], {})
      modifies nums
      ensures NumsOk(nums[..], ArrayKeys(arr[..sizearray])) && ause == |ArrayKeys(arr[..sizearray])|
    {
      hide NumsOk, ArrayKeys, InSlice;
      ghost var a := arr[..sizearray];
      NumsLength(nums[..], {});
      NoArrayKeys(a);
      var lg, ttlg, i := 0, 1, 1;
      ause := 0;
      while lg <= MAXBITS
        invariant 0 <= lg <= MAXBITS + 1 && ttlg == Pow2(lg) && nums.Length == MAXBITS + 1 && a == arr[..sizearray]
        invariant 1 <= i <= sizearray + 1 && (lg == 0 ==> i == 1)
        invariant (lg > 0 ==> i == 1 + if Pow2(lg - 1) <= sizearray then Pow2(lg - 1) else sizearray)
        invariant NumsOk(nums[..], ArrayKeys(a[..i - 1])) && ause == |ArrayKeys(a[..i - 1])|
      {
        var lc, lim := 0, ttlg;
        if lim > sizearray {
          lim := sizearray;
          if i > lim { break; }
        }
        ghost var start := i;
        assert nums[..][lg := nums[lg] + lc] == nums[..];
        while i <= lim
          invariant start <= i <= sizearray + 1 && i <= lim + 1 && nums.Length == MAXBITS + 1
          invariant NumsOk(nums[..][lg := nums[lg] + lc], ArrayKeys(a[..i - 1])) && ause + lc == |ArrayKeys(a[..i - 1])|
        {
          CountOne(nums[..], a, i, lg, lc);
          if arr[i - 1] != Nil { lc := lc + 1; }
          i := i + 1;
        }
        nums[lg] := nums[lg] + lc;
        ause := ause + lc;
        lg, ttlg := lg + 1, ttlg * 2;
      }
      Pow2Max();
      assert a[..i - 1] == a;
    }

    /** `numusehash`. */
    method NumUseHash(nums: array<nat>, ghost base: set<Key>) returns (totaluse: nat, ause: nat)
      requires Valid() && NumsOk(nums[..], base) && base !! NodeKeys(node[..])
      modifies nums
      ensures NumsOk(nums[..], base + NodeKeys(node[..]))
      ensures totaluse == |NodeKeys(node[..])| && ause == |UpTo(NodeKeys(node[..]), MAXASIZE)|
    {
      hide NumsOk, NodeKeys, TableOk, UpTo, KeysUnique, FreeOk, DeadAreNil, LinksOk, NodesOk, NoOverlap;
      ghost var n := node[..];
      TableFacts(hash, arr[..sizearray], n, rank, lastfree, dummy);
      NodesFacts(hash, n, rank);
      totaluse, ause := 0, 0;
      var i := node.Length;
      NoNodeKeys(n, base);
      while i > 0
        invariant 0 <= i <= node.Length && n == node[..]
        invariant NumsOk(nums[..], base + NodeKeys(n[i..]))
        invariant totaluse == |NodeKeys(n[i..])| && ause == |UpTo(NodeKeys(n[i..]), MAXASIZE)|
      {
        i := i - 1;
        CountNodeKey(n, i, base);
        if node[i].val != Nil {
          var c := CountInt(node[i].key.key, nums, base + NodeKeys(n[i + 1..]));
          ause := ause + c;
          totaluse := totaluse + 1;
        }
      }
      assert n[0..] == n;
    }

    /** `rehash`: afterwards there is room for the pending key. */
    method Rehash(k: Key) returns (ok: bool)
      requires Valid() && !InRange(k, sizearray) && !HasKey(node[..], k)
      modifies this, arr, node
      ensures ok ==> Valid() && Settled(k) && (forall k' :: Lookup(k') == old(Lookup(k')))
      ensures ok ==> exists na :: BestSize(old(Keys()) + {k}, sizearray, na)
      ensures !ok ==> |old(Keys())| >= MAXASIZE
      ensures (arr == old(arr) || fresh(arr)) && (node == old(node) || fresh(node))
      decreases 1, 3
    {
      hide NumsOk, TableOk, LookupIn, UsedCount, BestSize, ArrayKeys, NodeKeys, UpTo, HasKey, NoOverlap;
      ghost var a, n := arr[..sizearray], node[..];
      TableFacts(hash, a, n, rank, lastfree, dummy);
      KeysDisjoint(a, n, k);
      var nums := new nat[MAXBITS + 1](_ => 0);
      NumsStart(nums[..]);
      var nasize := NumUseArray(nums);
      var totaluse, ause := NumUseHash(nums, ArrayKeys(a));
      totaluse, nasize := totaluse + nasize, nasize + ause;
      var c := CountInt(k, nums, AllKeys(a, n));
      nasize, totaluse := nasize + c, totaluse + 1;
      ghost var keys := AllKeys(a, n) + {k};
      RehashCounts(a, n, k, nasize, totaluse, ause, c);
      var size, na := ComputeSizes(nums, nasize, keys);
      RehashRoom(AllKeys(a, n), k, size, na, totaluse);
      ok := Resize(size, totaluse - na);
    }

    // ----- the table seen from outside -----

    /** `luaH_new`. Only the vectors are made; there are no entries. */
    constructor (hash: HashFunction, narray: nat)
      requires narray <= MAXASIZE
      ensures Valid() && fresh(arr) && fresh(node) && sizearray == narray && dummy && forall k :: Lookup(k) == Nil
    {
      this.hash := hash;
      arr := new Value[narray](_ => Nil);
      sizearray := narray;
      node := new Node[1](_ => EMPTY_NODE);
      lsizenode, dummy, lastfree := 0, true, 0;
      rank := [0];
      new;
      assert node[..] == EmptyNodes(1);
      EmptyTable(hash, arr[..sizearray], 1, rank, true);
      NothingMoved(arr[..sizearray], [], arr[..sizearray], 1);
    }

    /** `lua_rawset`: only the entry of the key changes, whatever moves. */
    method RawSet(index: Index, v: Value) returns (r: Result<()>)
      requires Valid()
      modifies this, arr, node
      ensures index.NilIndex? <==> r == Err(IndexIsNil)
      ensures index.NaNIndex? <==> r == Err(IndexIsNaN)
      ensures r == Err(TableOverflow) ==> |old(Keys())| >= MAXASIZE && !old(Settled(index.key))
      ensures r.Ok? ==> Valid() && forall k :: Lookup(k) == if k == index.key then v else old(Lookup(k))
      ensures index.NilIndex? || index.NaNIndex? ==> Valid() && forall k :: Lookup(k) == old(Lookup(k))
    {
      match index
      case NilIndex => r := Err(IndexIsNil);
      case NaNIndex => r := Err(IndexIsNaN);
      case At(k) =>
        var ok := Put(k, v);
        r := if ok then Ok(()) else Err(TableOverflow);
    }

    /** `luaH_resizearray`, as its callers use it: the array part grows. */
    method ResizeArray(nasize: nat)
      requires Valid() && sizearray <= nasize <= MAXASIZE
      modifies this, arr, node
      ensures Valid() && sizearray == nasize && forall k :: Lookup(k) == old(Lookup(k))
    {
      hide TableOk, LookupIn, UsedCount;
      var nsize := if dummy then 0 else node.Length;
      TableFacts(hash, arr[..sizearray], node[..], rank, lastfree, dummy);
      Pow2Max();
      Pow2Monotone(lsizenode, MAXBITS);
      BeyondNodes(arr[..sizearray], node[..], nasize);
      if dummy {
        DummyFacts(hash, arr[..sizearray], node[..], rank, lastfree, dummy);
        BeyondDummy(arr[..sizearray], nasize);
      }
      var ok := Resize(nasize, nsize);
    }

    /** `removeentry`: the collector marks the keys of empty entries as dead. */
    method RemoveEntry(i: nat)
      requires Valid() && i < node.Length && node[i].val == Nil
      modifies node
      ensures Valid() && node[..] == old(node[..])[i := Buried(old(node[i]))] && forall k :: Lookup(k) == old(Lookup(k))
    {
      hide NodesOk, NodeLookup;
      BuryOk(hash, node[..], rank, i);
      ghost var n := node[..];
      if node[i].key.Live? && Collectable(node[i].key.key) {
        node[i] := node[i].(key := Dead(node[i].key.key));
      }
      assert node[..] == n[i := Buried(n[i])];
    }
  }
}
