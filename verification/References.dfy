/** References to values in a table, with the free ones in a list threaded through the
    table itself (lua-5.1/lauxlib.c:475-506). */
module References {
  import opened HashNodes
  import opened LuaTable
  import opened TableWalk
  import opened TableCounts

  const REFNIL := -1
  const FREELIST_REF := 0

  /** `lua_tointeger`: nil counts as 0. */
  function ToInteger(v: Value): int {
    if v.Nil? then 0 else v.v
  }

  /** What a table holds at its integer keys. */
  type Cells = int -> Value

  /** What the free list holds before its element `i`. */
  ghost function Link(c: Cells, free: seq<int>, i: nat): Value
    requires i <= |free|
  {
    c(if i == 0 then FREELIST_REF else free[i - 1])
  }

  /** The list that starts at `FREELIST_REF` runs through `free`. */
  ghost predicate Threaded(c: Cells, free: seq<int>) {
    && (forall i :: 0 <= i < |free| ==> Link(c, free, i) == Val(free[i]))
    && ToInteger(Link(c, free, |free|)) == 0
  }

  ghost predicate ListOk(size: nat, free: seq<int>) {
    && (forall i :: 0 <= i < |free| ==> 1 <= free[i] <= size)
    && (forall i, j :: 0 <= i < j < |free| ==> free[i] != free[j])
  }

  ghost predicate LiveHold(c: Cells, size: nat, free: seq<int>) {
    && (forall r :: 1 <= r <= size && r !in free ==> c(r) != Nil)
    && (forall r :: r > size ==> c(r) == Nil)
  }

  /** The references 1..size are live, and hold values, or free. */
  ghost predicate RefsOk(c: Cells, size: nat, free: seq<int>) {
    Threaded(c, free) && ListOk(size, free) && LiveHold(c, size, free)
  }

  /** The references in use. */
  ghost function LiveRefs(size: nat, free: seq<int>): set<int> {
    set r | 1 <= r <= size && r !in free
  }

  ghost predicate Changed(c: Cells, c': Cells, r: int, v: Value) {
    forall i :: c'(i) == if i == r then v else c(i)
  }

  /** Taking the first free reference off the list. */
  lemma TakeFree(c: Cells, c1: Cells, c2: Cells, size: nat, free: seq<int>, v: Value)
    requires RefsOk(c, size, free) && free != [] && v != Nil
    requires Changed(c, c1, FREELIST_REF, c(free[0])) && Changed(c1, c2, free[0], v)
    ensures RefsOk(c2, size, free[1..])
    ensures free[0] !in LiveRefs(size, free) && LiveRefs(size, free[1..]) == LiveRefs(size, free) + {free[0]}
    ensures c2(free[0]) == v && forall x :: x in LiveRefs(size, free) ==> c2(x) == c(x)
  {
    hide Threaded, LiveHold;
    TakeThreaded(c, c1, c2, size, free, v);
    ListTail(size, free);
    TakeLive(c, c1, c2, size, free, v);
    hide ListOk;
  }

  lemma ListTail(size: nat, free: seq<int>)
    requires ListOk(size, free) && free != []
    ensures ListOk(size, free[1..]) && free[0] !in free[1..] && forall x :: x in free <==>
      x == free[0] || x in free[1..]
  {
  }

  lemma TakeLive(c: Cells, c1: Cells, c2: Cells, size: nat, free: seq<int>, v: Value)
    requires LiveHold(c, size, free) && free != [] && 1 <= free[0] <= size && v != Nil
    requires Changed(c, c1, FREELIST_REF, c(free[0])) && Changed(c1, c2, free[0], v)
    ensures LiveHold(c2, size, free[1..])
  {
    assert forall x :: x in free ==> x == free[0] || x in free[1..];
  }

  lemma TakeThreaded(c: Cells, c1: Cells, c2: Cells, size: nat, free: seq<int>, v: Value)
    requires Threaded(c, free) && ListOk(size, free) && free != []
    requires Changed(c, c1, FREELIST_REF, c(free[0])) && Changed(c1, c2, free[0], v)
    ensures Threaded(c2, free[1..])
  {
    var rest := free[1..];
    forall i | 0 <= i <= |rest|
      ensures Link(c2, rest, i) == Link(c, free, i + 1)
    {
      if i > 0 { assert rest[i - 1] == free[i] != free[0]; }
    }
  }

  lemma MakeNew(c: Cells, c': Cells, size: nat, v: Value)
    requires RefsOk(c, size, []) && v != Nil && Changed(c, c', size + 1, v)
    ensures RefsOk(c', size + 1, []) && LiveRefs(size + 1, []) == LiveRefs(size, []) + {size + 1}
  {
  }

  /** With an empty free list the only boundary is the number of references. */
  lemma OnlyBoundary(c: Cells, size: nat, n: nat)
    requires RefsOk(c, size, []) && (n == 0 || c(n) != Nil) && c(n + 1) == Nil
    ensures n == size
  {
  }

  lemma PutFree(c: Cells, c1: Cells, c2: Cells, size: nat, free: seq<int>, r: int)
    requires RefsOk(c, size, free) && r in LiveRefs(size, free)
    requires Changed(c, c1, r, c(FREELIST_REF)) && Changed(c1, c2, FREELIST_REF, Val(r))
    ensures RefsOk(c2, size, [r] + free) && LiveRefs(size, [r] + free) == LiveRefs(size, free) - {r}
    ensures forall x :: x in LiveRefs(size, [r] + free) ==> c2(x) == c(x)
  {
    hide Threaded, LiveHold;
    PutThreaded(c, c1, c2, size, free, r);
    PutLive(c, c1, c2, size, free, r);
    assert forall x :: x in [r] + free <==> x == r || x in free;
  }

  lemma PutLive(c: Cells, c1: Cells, c2: Cells, size: nat, free: seq<int>, r: int)
    requires LiveHold(c, size, free) && 1 <= r <= size
    requires Changed(c, c1, r, c(FREELIST_REF)) && Changed(c1, c2, FREELIST_REF, Val(r))
    ensures LiveHold(c2, size, [r] + free)
  {
    assert forall x :: x in [r] + free <==> x == r || x in free;
  }

  lemma PutThreaded(c: Cells, c1: Cells, c2: Cells, size: nat, free: seq<int>, r: int)
    requires Threaded(c, free) && ListOk(size, free) && 1 <= r <= size && r !in free
    requires Changed(c, c1, r, c(FREELIST_REF)) && Changed(c1, c2, FREELIST_REF, Val(r))
    ensures Threaded(c2, [r] + free)
  {
    hide Link;
    var longer := [r] + free;
    forall i | 0 <= i < |longer|
      ensures Link(c2, longer, i) == Val(longer[i])
    {
      if i == 0 {
        LinkHead(c2, longer);
      } else {
        assert longer[i] == free[i - 1] && Link(c, free, i - 1) == Val(free[i - 1]);
        PutLink(c, c1, c2, size, free, r, i - 1);
      }
    }
    PutLink(c, c1, c2, size, free, r, |free|);
  }

  /** What the list held it still holds, one element later. */
  lemma PutLink(c: Cells, c1: Cells, c2: Cells, size: nat, free: seq<int>, r: int, i: nat)
    requires ListOk(size, free) && 1 <= r <= size && r !in free && i <= |free|
    requires Changed(c, c1, r, c(FREELIST_REF)) && Changed(c1, c2, FREELIST_REF, Val(r))
    ensures Link(c2, [r] + free, i + 1) == Link(c, free, i)
  {
    if i > 0 { assert ([r] + free)[i] == free[i - 1] && free[i - 1] in free; }
  }

  lemma LinkHead(c: Cells, free: seq<int>)
    ensures Link(c, free, 0) == c(FREELIST_REF)
  {
  }

  class RefTable {
    const t: Table
    ghost var size: nat
    ghost var free: seq<int>

    constructor (hash: HashFunction)
      ensures Valid() && fresh(t) && fresh(t.arr) && fresh(t.node) && Live() == {}
    {
      t := new Table(hash, 0);
      size, free := 0, [];
    }

    ghost function Cell(): Cells
      requires t.sizearray <= t.arr.Length
      reads t, t.arr, t.node
    {
      var arr, node := t.arr[..t.sizearray], t.node[..];
      i => TableContents.LookupIn(arr, node, Integer(i))
    }

    ghost predicate Valid()
      reads this, t, t.arr, t.node
    {
      t.Valid() && RefsOk(Cell(), size, free)
    }

    ghost function Live(): set<int>
      reads this
    {
      LiveRefs(size, free)
    }

    /** Raw assignment at an integer key. */
    method SetI(r: int, v: Value) returns (ok: bool)
      requires t.Valid()
      modifies t, t.arr, t.node
      ensures ok ==> t.Valid() && Changed(old(Cell()), Cell(), r, v)
      ensures !ok ==> |old(t.Keys())| >= MAXASIZE && old(Cell()(r)) == Nil
      ensures ok && old(Cell()(r)) != Nil ==> |t.Keys()| <= |old(t.Keys())|
      ensures (t.arr == old(t.arr) || fresh(t.arr)) && (t.node == old(t.node) || fresh(t.node))
    {
      hide TableContents.TableOk, TableContents.LookupIn;
      ghost var keys := t.Keys();
      forall k
        ensures k in keys <==> t.Lookup(k) != Nil
      {
        KeyIsLookup(t, k);
      }
      if t.Lookup(Integer(r)) != Nil { SlotThere(Integer(r)); }
      ok := t.Put(Integer(r), v);
      if ok {
        forall k
          ensures k in t.Keys() <==> t.Lookup(k) != Nil
        {
          KeyIsLookup(t, k);
        }
        if old(t.Lookup(Integer(r))) != Nil { SubsetSize(t.Keys(), keys); }
        forall i
          ensures Cell()(i) == if i == r then v else old(Cell()(i))
        {
          assert Cell()(i) == t.Lookup(Integer(i)) && old(Cell()(i) == t.Lookup(Integer(i)));
        }
      }
    }

    lemma SlotThere(k: Key)
      requires t.Valid() && t.Lookup(k) != Nil
      ensures t.HasSlot(k)
    {
    }

    method GetI(r: int) returns (v: Value)
      requires t.Valid()
      ensures v == Cell()(r)
    {
      v := t.Get(Index.At(Integer(r)));
    }

    /** The first free reference is taken off the list. */
    method TakeFirst(n: int, v: Value) returns (ok: bool)
      requires Valid() && v != Nil && free != [] && n == free[0]
      modifies this, t, t.arr, t.node
      ensures ok ==>
        && Valid() && n !in old(Live()) && Live() == old(Live()) + {n} && Cell()(n) == v
        && forall x :: x in old(Live()) ==> Cell()(x) == old(Cell()(x))
      ensures !ok ==> |old(t.Keys())| >= MAXASIZE
    {
      hide TableContents.TableOk, TableContents.LookupIn, TableContents.AllKeys, RefsOk, LiveRefs, Changed, Table.Keys;
      ghost var c := Cell();
      FirstFree(c, size, free);
      var next := GetI(n);
      ok := SetI(FREELIST_REF, next);  // there is a slot, which holds `n`
      ghost var c1 := Cell();
      ok := SetI(n, v);
      if ok {
        TakeFree(c, c1, Cell(), size, free, v);
        LiveBounds(size, free);
        free := free[1..];
      }
    }

    /** With no free reference, the next number is one. */
    method MakeNext(v: Value) returns (ok: bool, n: int)
      requires Valid() && v != Nil && free == []
      modifies this, t, t.arr, t.node
      ensures ok ==>
        && Valid() && n !in old(Live()) && Live() == old(Live()) + {n} && Cell()(n) == v
        && forall x :: x in old(Live()) ==> Cell()(x) == old(Cell()(x))
      ensures !ok ==> |old(t.Keys())| >= MAXASIZE
    {
      hide TableContents.TableOk, TableContents.LookupIn, RefsOk, LiveRefs, Boundary;
      ghost var c := Cell();
      n := GetN(t);
      assert n == size by { BoundaryCells(n); OnlyBoundary(c, size, n); }
      n := n + 1;
      ok := SetI(n, v);
      if ok {
        MakeNew(c, Cell(), size, v);
        LiveBounds(size, []);
        size := n;
      }
    }

    /** `luaL_ref`: the reference is not one in use, and no other is disturbed. It fails only
        for want of room in the table. */
    method Ref(v: Value) returns (r: Result<int>)
      requires Valid()
      modifies this, t, t.arr, t.node
      ensures v == Nil ==> r == Ok(REFNIL) && Valid() && Live() == old(Live()) && Cell() == old(Cell())
      ensures r.Ok? && v != Nil ==>
        && Valid() && r.value !in old(Live()) && Live() == old(Live()) + {r.value} && Cell()(r.value) == v
        && forall x :: x in old(Live()) ==> Cell()(x) == old(Cell()(x))
      ensures r.Err? ==> r.error == TableOverflow && |old(t.Keys())| >= MAXASIZE
    {
      hide TableContents.TableOk, TableContents.LookupIn, RefsOk, LiveRefs;
      if v == Nil { return Ok(REFNIL); }
      FirstFree(Cell(), size, free);
      var ref := GetI(FREELIST_REF);
      var n, ok := ToInteger(ref), false;
      if n != 0 {
        ok := TakeFirst(n, v);
      } else {
        ok, n := MakeNext(v);
      }
      r := if ok then Ok(n) else Err(TableOverflow);
    }

    lemma BoundaryCells(n: nat)
      requires t.Valid() && Boundary(t, n)
      ensures (n == 0 || Cell()(n) != Nil) && Cell()(n + 1) == Nil
    {
    }

    /** `luaL_unref` of a reference in use, or of one that stands for nil. */
    method Unref(r: int) returns (ok: bool)
      requires Valid() && (r in Live() || r < 0)
      modifies this, t, t.arr, t.node
      ensures ok ==> Valid() && Live() == old(Live()) - {r} && forall x :: x in Live() ==> Cell()(x) == old(Cell()(x))
      ensures !ok ==> |old(t.Keys())| >= MAXASIZE
    {
      hide TableContents.TableOk, TableContents.LookupIn, TableContents.AllKeys, RefsOk, LiveRefs, Changed, Table.Keys;
      LiveBounds(size, free);
      if r < 0 { return true; }
      ghost var c := Cell();
      var first := GetI(FREELIST_REF);
      LiveValue(c, size, free, r);
      ok := SetI(r, first);  // there is a slot, which holds the value
      ghost var c1 := Cell();
      ok := SetI(FREELIST_REF, Val(r));
      if ok {
        PutFree(c, c1, Cell(), size, free, r);
        free := [r] + free;
      }
    }
  }

  lemma FirstFree(c: Cells, size: nat, free: seq<int>)
    requires RefsOk(c, size, free)
    ensures ToInteger(c(FREELIST_REF)) == if free == [] then 0 else free[0]
    ensures free != [] ==> free[0] != 0
  {
    assert c(FREELIST_REF) == Link(c, free, 0);
  }

  lemma LiveValue(c: Cells, size: nat, free: seq<int>, r: int)
    requires RefsOk(c, size, free) && r in LiveRefs(size, free)
    ensures c(r) != Nil
  {
  }

  lemma LiveBounds(size: nat, free: seq<int>)
    ensures forall r :: r in LiveRefs(size, free) ==> 1 <= r <= size
  {
  }
}
