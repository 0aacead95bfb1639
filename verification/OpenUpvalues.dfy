/** Upvalues while no collection runs (lua-5.1/lfunc.c:53-112, lua-5.1/ldo.c:126-149,
    lua-5.1/lvm.c:422-451): closures share the variables they have captured. */
module OpenUpvalues {

  type Value = int

  // ----- the ring of open upvalues -----

  /** The links of an open upvalue in the ring of all (`u.l`). */
  class Link {
    var prevOpen: Link?
    var nextOpen: Link?

    constructor ()
      ensures prevOpen == nextOpen == null
    {
      prevOpen, nextOpen := null, null;
    }
  }

  /** A ring linked in both directions. */
  ghost predicate Ring(ring: seq<Link>)
    reads ring
  {
    && ring != [] && (forall i, j :: 0 <= i < j < |ring| ==> ring[i] != ring[j])
    && (forall i :: 0 <= i < |ring| - 1 ==> ring[i].nextOpen == ring[i + 1] && ring[i + 1].prevOpen == ring[i])
    && ring[|ring| - 1].nextOpen == ring[0] && ring[0].prevOpen == ring[|ring| - 1]
  }

  ghost function Objects(q: seq<Link>): set<Link> {
    set u | u in q
  }

  /** The double linking of a new upvalue behind the head of the ring. */
  method LinkBehind(head: Link, uv: Link, ghost ring: seq<Link>)
    requires Ring(ring) && head == ring[0] && uv !in ring
    modifies (Objects(ring) + {uv})`prevOpen, (Objects(ring) + {uv})`nextOpen
    ensures Ring([head, uv] + ring[1..])
  {
    ghost var n, longer := |ring|, [head, uv] + ring[1..];
    var after := head.nextOpen;
    assert after == if n == 1 then head else ring[1];
    uv.prevOpen := head;
    uv.nextOpen := after;
    after.prevOpen := uv;
    head.nextOpen := uv;
    assert longer[0] == head && longer[1] == uv && |longer| == n + 1;
    forall i | 1 <= i < n
      ensures longer[i + 1] == ring[i]
    {
    }
    forall i | 2 <= i < n
      ensures longer[i].nextOpen == longer[i + 1] && longer[i + 1].prevOpen == longer[i]
    {
      assert ring[i - 1].nextOpen == old(ring[i - 1].nextOpen) == ring[i];
      assert ring[i].prevOpen == old(ring[i].prevOpen) == ring[i - 1];
    }
    forall i, j | 0 <= i < j < |longer|
      ensures longer[i] != longer[j]
    {
      if i >= 2 {
        assert longer[i] == ring[i - 1] && longer[j] == ring[j - 1];
      } else if j >= 2 {
        assert longer[j] == ring[j - 1];
      }
    }
  }

  /** `unlinkupval`. */
  method Unlink(uv: Link, ghost ring: seq<Link>, ghost k: nat)
    requires Ring(ring) && 0 < k < |ring| && ring[k] == uv
    modifies Objects(ring)`prevOpen, Objects(ring)`nextOpen
    ensures Ring(ring[..k] + ring[k + 1..])
  {
    ghost var n, shorter := |ring|, ring[..k] + ring[k + 1..];
    assert ring[k - 1].nextOpen == uv && uv.prevOpen == ring[k - 1];
    assert uv.nextOpen == if k + 1 < n then ring[k + 1] else ring[0];
    uv.nextOpen.prevOpen := uv.prevOpen;
    uv.prevOpen.nextOpen := uv.nextOpen;
    forall i | 0 <= i < n - 1
      ensures shorter[i] == if i < k then ring[i] else ring[i + 1]
    {
    }
    forall i | 0 <= i < n - 2
      ensures shorter[i].nextOpen == shorter[i + 1] && shorter[i + 1].prevOpen == shorter[i]
    {
      var j := if i < k then i else i + 1;
      assert i != k - 1 ==> ring[j].nextOpen == old(ring[j].nextOpen) == ring[j + 1];
      assert i != k - 1 ==> ring[j + 1].prevOpen == old(ring[j + 1].prevOpen) == ring[j];
    }
  }

  // ----- the upvalues of a thread -----

  /** Where an upvalue points to: a slot of the stack, or its own field once it is closed. */
  datatype Place = Slot(address: int) | Own

  /** `UpVal`. */
  datatype UpVal = UpVal(v: Place, value: Value)

  /** A thread: its stack, which begins at the address `base`, and the list of its open upvalues,
      the head first. An upvalue is named by a number that stands for its address. */
  datatype State = State(base: int, stack: seq<Value>, open: seq<nat>, upvals: map<nat, UpVal>, unused: nat)
  {
    /** The variables in scope are in slots of the stack. */
    predicate InScope(l: nat) {
      l < |stack|
    }

    function Address(u: nat): int
      requires u in upvals && upvals[u].v.Slot?
    {
      upvals[u].v.address
    }

    /** The open upvalues, in the order of their slots from the top of the stack down. */
    ghost predicate OpenOk() {
      && (forall i :: 0 <= i < |open| ==> open[i] in upvals && upvals[open[i]].v.Slot?)
      && (forall i, j :: 0 <= i < j < |open| ==> Address(open[i]) > Address(open[j]))
      && (forall u :: u in upvals && upvals[u].v.Slot? ==> u in open)
      && (forall u :: u in upvals ==> u < unused)
      && (forall u :: u in upvals && upvals[u].v.Slot? ==> |stack| > upvals[u].v.address - base >= 0)
    }
  }

  // ----- variables, as the manual tells of them -----

  /** Each variable has a cell. A slot stands for it as long as the variable is in scope, and every
      closure that has captured the variable refers to it for ever, by a name. */
  datatype Model = Model(slotCell: seq<nat>, cells: map<nat, Value>, cellOf: map<nat, nat>, unused: nat, names: nat)
  {
    ghost predicate Ok() {
      && (forall l :: 0 <= l < |slotCell| ==> slotCell[l] in cells)
      && (forall l, m :: 0 <= l < m < |slotCell| ==> slotCell[l] != slotCell[m])
      && (forall u :: u in cellOf ==> cellOf[u] in cells)
      && (forall u, w :: u in cellOf && w in cellOf && cellOf[u] == cellOf[w] ==> u == w)
      && (forall c :: c in cells ==> c < unused) && (forall u :: u in cellOf ==> u < names)
    }
  }

  /** What is in an upvalue is what is in the cell of its variable, and likewise for slots. */
  ghost predicate Agrees(s: State, m: Model, u: nat)
    requires u in s.upvals && u in m.cellOf && s.OpenOk() && m.Ok() && |m.slotCell| == |s.stack|
  {
    match s.upvals[u].v
    case Slot(a) => m.cellOf[u] == m.slotCell[a - s.base]
    case Own => m.cells[m.cellOf[u]] == s.upvals[u].value && m.cellOf[u] !in m.slotCell
  }

  ghost predicate Simulates(s: State, m: Model) {
    && s.OpenOk() && m.Ok() && |m.slotCell| == |s.stack| && m.cellOf.Keys == s.upvals.Keys && m.names == s.unused
    && (forall l :: 0 <= l < |s.stack| ==> m.cells[m.slotCell[l]] == s.stack[l])
    && (forall u :: u in s.upvals ==> Agrees(s, m, u))
  }

  // ----- operations -----

  /** `OP_GETUPVAL`. */
  function Get(s: State, u: nat): Value
    requires s.OpenOk() && u in s.upvals
  {
    match s.upvals[u].v
    case Slot(a) => s.stack[a - s.base]
    case Own => s.upvals[u].value
  }

  /** `OP_SETUPVAL`. */
  function Set(s: State, u: nat, x: Value): State
    requires s.OpenOk() && u in s.upvals
  {
    match s.upvals[u].v
    case Slot(a) => s.(stack := s.stack[a - s.base := x])
    case Own => s.(upvals := s.upvals[u := UpVal(Own, x)])
  }

  /** A register is assigned to. */
  function Assign(s: State, l: nat, x: Value): State
    requires s.InScope(l)
  {
    s.(stack := s.stack[l := x])
  }

  /** How many open upvalues are above a level. */
  function Above(s: State, level: int): (n: nat)
    requires s.OpenOk()
    ensures n <= |s.open| && (forall i :: 0 <= i < n ==> s.Address(s.open[i]) > level)
    ensures n < |s.open| ==> s.Address(s.open[n]) <= level
  {
    AboveFrom(s, level, 0)
  }

  function AboveFrom(s: State, level: int, k: nat): (n: nat)
    requires s.OpenOk() && k <= |s.open| && forall i :: 0 <= i < k ==> s.Address(s.open[i]) > level
    ensures k <= n <= |s.open| && (forall i :: 0 <= i < n ==> s.Address(s.open[i]) > level)
    ensures n < |s.open| ==> s.Address(s.open[n]) <= level
    decreases |s.open| - k
  {
    if k < |s.open| && s.Address(s.open[k]) > level then AboveFrom(s, level, k + 1) else k
  }

  /** `luaF_findupval`: the upvalue of the variable in slot `l`. */
  function Find(s: State, l: nat): nat
    requires s.OpenOk() && s.InScope(l)
  {
    var n := Above(s, s.base + l);
    if n < |s.open| && s.Address(s.open[n]) == s.base + l then s.open[n] else s.unused
  }

  function Found(s: State, l: nat): State
    requires s.OpenOk() && s.InScope(l)
  {
    var n, u := Above(s, s.base + l), Find(s, l);
    if u != s.unused then s
    else
      s.(open := s.open[..n] + [u] + s.open[n..], upvals := s.upvals[u := UpVal(Slot(s.base + l), 0)], unused := u + 1)
  }

  /** The first open upvalue is closed. */
  function CloseFirst(s: State): State
    requires s.OpenOk() && s.open != []
  {
    var u := s.open[0];
    s.(open := s.open[1..], upvals := s.upvals[u := UpVal(Own, s.stack[s.Address(u) - s.base])])
  }

  lemma ClosedOrder(s: State)
    requires s.OpenOk() && s.open != []
    ensures forall u :: u in CloseFirst(s).open ==>
      u in CloseFirst(s).upvals && u in s.upvals && CloseFirst(s).upvals[u] == s.upvals[u]
  {
    forall i | 0 <= i < |s.open| - 1
      ensures s.open[1..][i] != s.open[0]
    {
      assert s.Address(s.open[0]) > s.Address(s.open[i + 1]);
    }
  }

  lemma SlotsLeft(s: State)
    requires s.OpenOk() && s.open != []
    ensures forall w :: w in CloseFirst(s).upvals && CloseFirst(s).upvals[w].v.Slot? ==>
      w in s.open[1..] && w in s.upvals && CloseFirst(s).upvals[w] == s.upvals[w]
  {
    forall w | w in CloseFirst(s).upvals && CloseFirst(s).upvals[w].v.Slot?
      ensures w in s.open[1..]
    {
      var i :| 0 <= i < |s.open| && s.open[i] == w;
      assert i > 0 && s.open[1..][i - 1] == w;
    }
  }

  lemma CloseFirstOk(s: State)
    requires s.OpenOk() && s.open != []
    ensures CloseFirst(s).OpenOk()
  {
    ClosedOrder(s);
    SlotsLeft(s);
    forall i | 0 <= i < |CloseFirst(s).open|
      ensures CloseFirst(s).open[i] == s.open[i + 1] && CloseFirst(s).open[i] in CloseFirst(s).open
    {
    }
  }

  /** `luaF_close`. */
  function Close(s: State, level: nat): (t: State)
    requires s.OpenOk()
    ensures t.OpenOk()
    decreases |s.open|
  {
    if s.open != [] && s.Address(s.open[0]) >= s.base + level then CloseFirstOk(s); Close(CloseFirst(s), level) else s
  }

  /** `luaD_reallocstack` with `correctstack`: the stack moves. */
  function Move(s: State, base: int): State {
    s.(base := base, upvals := map u | u in s.upvals :: Moved(s.upvals[u], base - s.base))
  }

  /** A slot more is in use. */
  function Enter(s: State, x: Value): State {
    s.(stack := s.stack + [x])
  }

  function Moved(uv: UpVal, delta: int): UpVal {
    match uv.v
    case Slot(a) => uv.(v := Slot(a + delta))
    case Own => uv
  }

  /** The list does not depend on the values. */
  lemma OpenSame(s: State, t: State)
    requires s.OpenOk() && t.open == s.open && t.unused == s.unused && t.base == s.base && |t.stack| == |s.stack|
    requires t.upvals.Keys == s.upvals.Keys && forall u :: u in s.upvals ==> t.upvals[u].v == s.upvals[u].v
    ensures t.OpenOk()
  {
  }

  // ----- each operation does to the variables what the manual says -----

  lemma GetAgrees(s: State, m: Model, u: nat)
    requires Simulates(s, m) && u in s.upvals
    ensures Get(s, u) == m.cells[m.cellOf[u]]
  {
    assert Agrees(s, m, u);
  }

  /** A write goes to the cell of the variable. */
  function Written(m: Model, c: nat, x: Value): Model {
    m.(cells := m.cells[c := x])
  }

  lemma WrittenOk(m: Model, c: nat, x: Value)
    requires m.Ok() && c in m.cells
    ensures Written(m, c, x).Ok()
  {
  }

  lemma AssignAgrees(s: State, m: Model, l: nat, x: Value)
    requires Simulates(s, m) && s.InScope(l)
    ensures Simulates(Assign(s, l, x), Written(m, m.slotCell[l], x))
  {
    var s', m' := Assign(s, l, x), Written(m, m.slotCell[l], x);
    OpenSame(s, s');
    WrittenOk(m, m.slotCell[l], x);
    forall w | w in s'.upvals
      ensures Agrees(s', m', w)
    {
      assert Agrees(s, m, w);
    }
  }

  lemma SetAgrees(s: State, m: Model, u: nat, x: Value)
    requires Simulates(s, m) && u in s.upvals
    ensures Simulates(Set(s, u, x), Written(m, m.cellOf[u], x))
  {
    hide Simulates, Agrees;
    PlaceOf(s, m, u);
    if s.upvals[u].v.Slot? {
      AssignAgrees(s, m, s.Address(u) - s.base, x);
    } else {
      SetClosedAgrees(s, m, u, x);
    }
  }

  lemma PlaceOf(s: State, m: Model, u: nat)
    requires Simulates(s, m) && u in s.upvals
    ensures s.OpenOk() && u in m.cellOf && |m.slotCell| == |s.stack|
    ensures
      var v := s.upvals[u].v;
      v.Slot? ==> |s.stack| > v.address - s.base >= 0 && m.cellOf[u] == m.slotCell[v.address - s.base]
  {
    assert Agrees(s, m, u);
  }

  lemma SetClosedAgrees(s: State, m: Model, u: nat, x: Value)
    requires Simulates(s, m) && u in s.upvals && s.upvals[u].v == Own
    ensures Simulates(Set(s, u, x), Written(m, m.cellOf[u], x))
  {
    hide State.OpenOk, Model.Ok;
    var s', m' := Set(s, u, x), Written(m, m.cellOf[u], x);
    assert Agrees(s, m, u);
    OpenSame(s, s');
    CellIn(m, u);
    WrittenOk(m, m.cellOf[u], x);
    forall w | w in s'.upvals
      ensures Agrees(s', m', w)
    {
      assert Agrees(s, m, w);
      if m.cellOf[u] == m.cellOf[w] { CellsDiffer(m, u, w); }
    }
    forall l | 0 <= l < |s'.stack|
      ensures m'.cells[m'.slotCell[l]] == s'.stack[l]
    {
      assert m.slotCell[l] in m.slotCell;
    }
  }

  lemma CellIn(m: Model, u: nat)
    requires m.Ok() && u in m.cellOf
    ensures m.cellOf[u] in m.cells
  {
  }

  lemma CellsDiffer(m: Model, u: nat, w: nat)
    requires m.Ok() && u in m.cellOf && w in m.cellOf && m.cellOf[u] == m.cellOf[w]
    ensures u == w
  {
  }

  lemma InsertHas(open: seq<nat>, k: nat, u: nat)
    requires k <= |open|
    ensures forall w :: w in open[..k] + [u] + open[k..] <==> w in open || w == u
  {
    assert open == open[..k] + open[k..];
  }

  /** A slot that no open upvalue points to has not been captured. */
  lemma NotCaptured(s: State, m: Model, l: nat)
    requires Simulates(s, m) && s.InScope(l) && Find(s, l) == s.unused
    ensures forall u :: u in m.cellOf ==> m.cellOf[u] != m.slotCell[l]
  {
    forall u | u in m.cellOf
      ensures m.cellOf[u] != m.slotCell[l]
    {
      assert Agrees(s, m, u);
      if s.upvals[u].v == Slot(s.base + l) { PointedTo(s, u, l); }
    }
  }

  lemma PointedTo(s: State, u: nat, l: nat)
    requires s.OpenOk() && s.InScope(l) && u in s.upvals && s.upvals[u].v == Slot(s.base + l)
    ensures Find(s, l) == u && u != s.unused
  {
    var i :| 0 <= i < |s.open| && s.open[i] == u;
    var n := Above(s, s.base + l);
    assert forall k :: 0 <= k < i ==> s.Address(s.open[k]) > s.base + l;
    assert s.Address(s.open[i]) == s.base + l;
  }

  lemma FindNew(s: State, l: nat)
    requires s.OpenOk() && s.InScope(l) && Find(s, l) == s.unused
    ensures
      var n := Above(s, s.base + l);
      (n < |s.open| ==> s.Address(s.open[n]) < s.base + l) && Found(s, l).open == s.open[..n] + [s.unused] + s.open[n..]
  {
    hide AboveFrom;
    var n := Above(s, s.base + l);
    assert n < |s.open| ==> s.open[n] in s.upvals;
  }

  /** The place of each upvalue in the list after one is put in. */
  lemma InsertAt(open: seq<nat>, n: nat, u: nat)
    requires n <= |open|
    ensures
      var longer := open[..n] + [u] + open[n..];
      |longer| == |open| + 1 &&
      forall i :: 0 <= i < |longer| ==> longer[i] == if i < n then open[i] else if i == n then u else open[i - 1]
  {
  }

  ghost predicate Descending(q: seq<int>) {
    forall i, j :: 0 <= i < j < |q| ==> q[i] > q[j]
  }

  lemma DescendingInsert(q: seq<int>, n: nat, a: int)
    requires Descending(q) && n <= |q| && (forall i :: 0 <= i < n ==> q[i] > a) && (n < |q| ==> q[n] < a)
    ensures Descending(q[..n] + [a] + q[n..])
  {
  }

  function Addresses(s: State): (q: seq<int>)
    requires s.OpenOk()
    ensures |q| == |s.open| && Descending(q)
  {
    seq(|s.open|, i requires 0 <= i < |s.open| => s.Address(s.open[i]))
  }

  /** The addresses in the list after one upvalue is put in. */
  function Longer(s: State, l: nat): seq<int>
    requires s.OpenOk()
  {
    var q, n := Addresses(s), Above(s, s.base + l);
    q[..n] + [s.base + l] + q[n..]
  }

  lemma FoundPlace(s: State, l: nat, i: nat)
    requires s.OpenOk() && s.InScope(l) && Find(s, l) == s.unused && i < |Found(s, l).open|
    ensures
      var t := Found(s, l);
      |Longer(s, l)| == |t.open| && t.open[i] in t.upvals && t.upvals[t.open[i]].v == Slot(Longer(s, l)[i])
  {
    hide Find, Above, Descending;
    var n := Above(s, s.base + l);
    FindNew(s, l);
    InsertAt(s.open, n, s.unused);
    FoundIs(s, l);
  }

  lemma FoundOrder(s: State, l: nat)
    requires s.OpenOk() && s.InScope(l) && Find(s, l) == s.unused
    ensures
      var t := Found(s, l);
      && (forall i :: 0 <= i < |t.open| ==> t.open[i] in t.upvals && t.upvals[t.open[i]].v.Slot?)
      && (forall i, j :: 0 <= i < j < |t.open| ==> t.Address(t.open[i]) > t.Address(t.open[j]))
  {
    hide Find, Found, Above, Descending, State.OpenOk, Longer;
    var t := Found(s, l);
    LongerDescends(s, l);
    DescendingMeans(Longer(s, l));
    forall i | 0 <= i < |t.open|
      ensures |Longer(s, l)| == |t.open| && t.open[i] in t.upvals && t.upvals[t.open[i]].v == Slot(Longer(s, l)[i])
    {
      FoundPlace(s, l, i);
    }
  }

  lemma LongerDescends(s: State, l: nat)
    requires s.OpenOk() && s.InScope(l) && Find(s, l) == s.unused
    ensures Descending(Longer(s, l))
  {
    hide Descending, AboveFrom;
    var q, n := Addresses(s), Above(s, s.base + l);
    FindNew(s, l);
    DescendingInsert(q, n, s.base + l);
  }

  lemma DescendingMeans(q: seq<int>)
    requires Descending(q)
    ensures forall i, j :: 0 <= i < j < |q| ==> q[i] > q[j]
  {
  }

  lemma FoundOpen(s: State, l: nat)
    requires s.OpenOk() && s.InScope(l) && Find(s, l) == s.unused
    ensures Found(s, l).OpenOk()
  {
    hide Find, Above, State.Address;
    FoundOrder(s, l);
    var t, u := Found(s, l), s.unused;
    FindNew(s, l);
    InsertHas(s.open, Above(s, s.base + l), u);
    FoundIs(s, l);
    forall w | w in t.upvals
      ensures w < t.unused && (t.upvals[w].v.Slot? ==> w in t.open && |t.stack| > t.upvals[w].v.address - t.base >= 0)
    {
      assert w != u ==> w in s.upvals && t.upvals[w] == s.upvals[w];
    }
  }

  /** The name of a variable: the one it has, or the next. */
  ghost function NameOf(m: Model, l: nat): nat
    requires l < |m.slotCell|
  {
    if exists u :: u in m.cellOf && m.cellOf[u] == m.slotCell[l]
    then var u :| u in m.cellOf && m.cellOf[u] == m.slotCell[l]; u
    else m.names
  }

  /** The variable in slot `l` is captured. */
  ghost function Captured(m: Model, l: nat): Model
    requires l < |m.slotCell|
  {
    var u := NameOf(m, l);
    m.(cellOf := m.cellOf[u := m.slotCell[l]], names := if u == m.names then u + 1 else m.names)
  }

  /** Whoever captures a variable refers to its cell; the upvalue is new only if nobody has yet. */
  lemma FoundAgrees(s: State, m: Model, l: nat)
    requires Simulates(s, m) && s.InScope(l)
    ensures Simulates(Found(s, l), Captured(m, l)) && Find(s, l) == NameOf(m, l)
    ensures forall u :: u in m.cellOf && m.cellOf[u] == m.slotCell[l] ==> Find(s, l) == u
  {
    forall u | u in m.cellOf && m.cellOf[u] == m.slotCell[l]
      ensures Find(s, l) == u
    {
      assert Agrees(s, m, u);
      assert m.slotCell[l] in m.slotCell;
      PointedTo(s, u, l);
    }
    if Find(s, l) == s.unused {
      FoundNew(s, m, l);
    } else {
      assert Agrees(s, m, Find(s, l));
      assert Captured(m, l) == m;
    }
  }

  lemma NameNew(m: Model, l: nat)
    requires m.Ok() && l < |m.slotCell| && forall u :: u in m.cellOf ==> m.cellOf[u] != m.slotCell[l]
    ensures NameOf(m, l) == m.names && Captured(m, l).Ok()
    ensures Captured(m, l) == m.(cellOf := m.cellOf[m.names := m.slotCell[l]], names := m.names + 1)
  {
  }

  lemma FoundNew(s: State, m: Model, l: nat)
    requires Simulates(s, m) && s.InScope(l) && Find(s, l) == s.unused
    ensures NameOf(m, l) == s.unused && Simulates(Found(s, l), Captured(m, l))
  {
    hide State.OpenOk, Model.Ok, Find, Above, Found, NameOf, Captured;
    NotCaptured(s, m, l);
    NameNew(m, l);
    var s', m' := Found(s, l), Captured(m, l);
    FoundOpen(s, l);
    NotUsed(s);
    FoundIs(s, l);
    forall w | w in s'.upvals
      ensures Agrees(s', m', w)
    {
      assert w != s.unused ==> Agrees(s, m, w);
    }
  }

  lemma NotUsed(s: State)
    requires s.OpenOk()
    ensures s.unused !in s.upvals && s.unused !in s.open
  {
  }

  lemma FoundIs(s: State, l: nat)
    requires s.OpenOk() && s.InScope(l) && Find(s, l) == s.unused
    ensures Found(s, l).base == s.base && Found(s, l).stack == s.stack
    ensures Found(s, l).upvals == s.upvals[s.unused := UpVal(Slot(s.base + l), 0)] && Found(s, l).unused == s.unused + 1
  {
  }

  // ----- variables that go out of scope -----


  lemma SomeOpen(s: State, w: nat)
    requires s.OpenOk() && w in s.upvals && s.upvals[w].v.Slot?
    ensures s.open != []
  {
  }

  lemma SlotIn(m: Model, l: nat)
    requires m.Ok() && l < |m.slotCell|
    ensures m.slotCell[l] in m.cells
  {
  }

  lemma OtherSlot(s: State, w: nat)
    requires s.OpenOk() && s.open != [] && w in s.upvals && s.upvals[w].v.Slot? && w != s.open[0]
    ensures s.Address(w) < s.Address(s.open[0])
  {
    var i :| 0 <= i < |s.open| && s.open[i] == w;
  }


  /** Closures keep the variables of the block, slots below it keep theirs, and none of the slots of
      the block stands for a variable that some closure refers to. */
  ghost predicate Detached(m: Model, m': Model, level: nat) {
    && m'.cellOf == m.cellOf && |m'.slotCell| == |m.slotCell|
    && (forall c :: c in m.cells ==> c in m'.cells && m'.cells[c] == m.cells[c])
    && (forall l :: 0 <= l < |m.slotCell| && l < level ==> m'.slotCell[l] == m.slotCell[l])
    && (forall l, u :: level <= l < |m.slotCell| && u in m.cellOf ==> m'.slotCell[l] != m.cellOf[u])
  }

  lemma FirstOpen(s: State)
    requires s.OpenOk() && s.open != []
    ensures s.open[0] in s.upvals && s.upvals[s.open[0]].v.Slot? && 0 <= s.Address(s.open[0]) - s.base < |s.stack|
  {
  }

  /** The cells of the slots from the level on, when they get new ones. */
  predicate IsNew(m: Model, level: nat, c: nat) {
    m.unused + level <= c < m.unused + |m.slotCell|
  }

  function SlotValue(m: Model, l: nat): Value
    requires m.Ok() && l < |m.slotCell|
  {
    m.cells[m.slotCell[l]]
  }

  function NewCells(m: Model, level: nat): map<nat, Value>
    requires m.Ok()
  {
    map c: nat | c < m.unused + |m.slotCell| && IsNew(m, level, c) :: SlotValue(m, c - m.unused)
  }

  /** Variables from the level on go out of scope: their slots stand for new ones, which begin
      with the values there are. */
  function Closed(m: Model, level: nat): Model
    requires m.Ok()
  {
    var n := |m.slotCell|;
    m.(slotCell := seq(n, l requires 0 <= l < n => if l < level then m.slotCell[l] else m.unused + l),
       cells := m.cells + NewCells(m, level), unused := m.unused + n)
  }

  lemma ClosedSame(m: Model, level: nat)
    requires m.Ok()
    ensures var m' := Closed(m, level);
      && |m'.slotCell| == |m.slotCell| && m'.cellOf == m.cellOf && m'.names == m.names
      && m'.unused == m.unused + |m.slotCell|
      && (forall l :: 0 <= l < |m.slotCell| ==> m'.slotCell[l] == if l < level then m.slotCell[l] else m.unused + l)
      && (forall c :: c in m.cells ==> c in m'.cells && m'.cells[c] == m.cells[c] && c < m.unused)
      && (forall c :: c in m'.cells ==> c < m'.unused)
  {
  }

  lemma ClosedValue(m: Model, level: nat, l: nat)
    requires m.Ok() && l < |m.slotCell|
    ensures var m' := Closed(m, level);
      m'.slotCell[l] in m'.cells && m'.cells[m'.slotCell[l]] == m.cells[m.slotCell[l]]
  {
    ClosedSame(m, level);
    if l >= level { assert IsNew(m, level, m.unused + l); }
  }

  /** Cells of slots from the level on are left to the closures. */
  lemma ClosedSlots(m: Model, level: nat, c: nat)
    requires m.Ok() && c in m.cells
    ensures c in Closed(m, level).slotCell <==> exists l :: 0 <= l < |m.slotCell| && l < level && m.slotCell[l] == c
  {
    hide Closed;
    ClosedSame(m, level);
    var m' := Closed(m, level);
    forall l | 0 <= l < |m.slotCell| && l < level && m.slotCell[l] == c
      ensures c in m'.slotCell
    {
      assert m'.slotCell[l] == c;
    }
  }

  lemma ClosedOk(m: Model, level: nat)
    requires m.Ok()
    ensures Closed(m, level).Ok() && Detached(m, Closed(m, level), level)
  {
    hide Closed;
    ClosedSame(m, level);
    var m' := Closed(m, level);
    forall l, u | level <= l < |m.slotCell| && u in m.cellOf
      ensures m'.slotCell[l] != m.cellOf[u]
    {
      assert m.cellOf[u] in m.cells;
    }
    forall l | 0 <= l < |m.slotCell|
      ensures m'.slotCell[l] in m'.cells
    {
      ClosedValue(m, level, l);
    }
  }

  /** Closing does to the variables what going out of scope means. */
  lemma CloseAgrees(s: State, m: Model, level: nat)
    requires Simulates(s, m)
    ensures Simulates(Close(s, level), Closed(m, level)) && Detached(m, Closed(m, level), level)
  {
    hide State.OpenOk, Model.Ok, Close, Closed, Detached, Agrees;
    var s', m' := Close(s, level), Closed(m, level);
    CloseSame(s, level);
    ClosedOk(m, level);
    ClosedSame(m, level);
    forall u | u in s'.upvals
      ensures Agrees(s', m', u)
    {
      ClosedAgrees(s, m, level, u);
    }
    forall l | 0 <= l < |s.stack|
      ensures m'.slotCell[l] in m'.cells && m'.cells[m'.slotCell[l]] == s.stack[l]
    {
      ClosedValue(m, level, l);
    }
  }

  lemma ClosedAgrees(s: State, m: Model, level: nat, u: nat)
    requires Simulates(s, m) && u in s.upvals && u in Close(s, level).upvals && Closed(m, level).Ok()
    requires |Closed(m, level).slotCell| == |Close(s, level).stack| && Closed(m, level).cellOf == m.cellOf
    ensures Agrees(Close(s, level), Closed(m, level), u)
  {
    hide State.OpenOk, Model.Ok, Close, Closed;
    CloseExact(s, level, u);
    CloseSame(s, level);
    ClosedSame(m, level);
    assert Agrees(s, m, u);
    PlaceOf(s, m, u);
    CellIn(m, u);
    ClosedSlots(m, level, m.cellOf[u]);
    if s.upvals[u].v.Slot? {
      SlotsDiffer(m, s.Address(u) - s.base);
    } else {
      assert forall l :: 0 <= l < |m.slotCell| ==> m.slotCell[l] in m.slotCell;
    }
  }

  lemma SlotsDiffer(m: Model, l: nat)
    requires m.Ok() && l < |m.slotCell|
    ensures forall k :: 0 <= k < |m.slotCell| && k != l ==> m.slotCell[k] != m.slotCell[l]
  {
  }

  lemma {:induction false} CloseSame(s: State, level: nat)
    requires s.OpenOk()
    ensures var t := Close(s, level);
      t.stack == s.stack && t.base == s.base && t.unused == s.unused && t.upvals.Keys == s.upvals.Keys
    decreases |s.open|
  {
    hide State.OpenOk;
    if s.open != [] { FirstOpen(s); }
    if s.open != [] && s.Address(s.open[0]) >= s.base + level {
      CloseFirstOk(s);
      CloseSame(CloseFirst(s), level);
    }
  }


  lemma GetFirst(s: State, u: nat)
    requires s.OpenOk() && s.open != [] && u in s.upvals && CloseFirst(s).OpenOk()
    ensures Get(CloseFirst(s), u) == Get(s, u)
    ensures CloseFirst(s).upvals[u] == if u == s.open[0] then UpVal(Own, Get(s, u)) else s.upvals[u]
  {
  }

  /** `luaF_close` closes exactly the upvalues of the slots from the level on, with their values. */
  lemma {:induction false} CloseExact(s: State, level: nat, u: nat)
    requires s.OpenOk() && u in s.upvals
    ensures
      var t := Close(s, level);
      u in t.upvals && t.upvals.Keys == s.upvals.Keys && t.stack == s.stack &&
      t.upvals[u] ==
      if s.upvals[u].v.Slot? && s.Address(u) >= s.base + level then UpVal(Own, Get(s, u)) else s.upvals[u]
    decreases |s.open|
  {
    hide State.OpenOk, Get;
    if s.open != [] { FirstOpen(s); }
    if s.open != [] && s.Address(s.open[0]) >= s.base + level {
      CloseFirstOk(s);
      CloseExact(CloseFirst(s), level, u);
      assert CloseFirst(s).upvals.Keys == s.upvals.Keys;
      GetFirst(s, u);
    } else if s.upvals[u].v.Slot? {
      SomeOpen(s, u);
      if u != s.open[0] { OtherSlot(s, u); }
    }
  }

  // ----- the stack grows and moves -----

  /** A new variable comes into scope. */
  function Entered(m: Model, x: Value): Model {
    m.(slotCell := m.slotCell + [m.unused], cells := m.cells[m.unused := x], unused := m.unused + 1)
  }

  lemma EnterAgrees(s: State, m: Model, x: Value)
    requires Simulates(s, m)
    ensures Simulates(Enter(s, x), Entered(m, x))
  {
    hide Model.Ok;
    var s', m' := Enter(s, x), Entered(m, x);
    EnteredOk(m, x);
    forall u | u in s'.upvals
      ensures Agrees(s', m', u)
    {
      assert Agrees(s, m, u);
      CellIn(m, u);
    }
    forall l | 0 <= l < |s'.stack|
      ensures m'.cells[m'.slotCell[l]] == s'.stack[l]
    {
      if l < |s.stack| { SlotIn(m, l); }
    }
  }

  lemma EnteredOk(m: Model, x: Value)
    requires m.Ok()
    ensures Entered(m, x).Ok() && m.unused !in m.cells
  {
  }

  /** Moving the stack changes nothing that a program can see. */
  lemma MoveAgrees(s: State, m: Model, base: int)
    requires Simulates(s, m)
    ensures Simulates(Move(s, base), m)
  {
    hide Model.Ok;
    MoveOpen(s, base);
    forall u | u in s.upvals
      ensures Agrees(Move(s, base), m, u)
    {
      assert Agrees(s, m, u);
    }
  }

  lemma MoveOpen(s: State, base: int)
    requires s.OpenOk()
    ensures Move(s, base).OpenOk()
  {
  }

  // ----- whole runs -----

  datatype Op = GetOp(u: nat) | SetOp(u: nat, x: Value) | ReadOp(l: nat) | AssignOp(l: nat, x: Value)
              | CaptureOp(l: nat) | CloseOp(level: nat) | EnterOp(x: Value) | MoveOp(base: int)

  predicate Enabled(s: State, op: Op) {
    match op
    case GetOp(u) => u in s.upvals
    case SetOp(u, _) => u in s.upvals
    case ReadOp(l) => s.InScope(l)
    case AssignOp(l, _) => s.InScope(l)
    case CaptureOp(l) => s.InScope(l)
    case _ => true
  }

  function Do(s: State, op: Op): State
    requires s.OpenOk() && Enabled(s, op)
  {
    match op
    case GetOp(_) => s
    case SetOp(u, x) => Set(s, u, x)
    case ReadOp(_) => s
    case AssignOp(l, x) => Assign(s, l, x)
    case CaptureOp(l) => Found(s, l)
    case CloseOp(level) => Close(s, level)
    case EnterOp(x) => Enter(s, x)
    case MoveOp(base) => Move(s, base)
  }

  /** The variable there is. */
  predicate Possible(m: Model, op: Op) {
    match op
    case GetOp(u) => u in m.cellOf
    case SetOp(u, _) => u in m.cellOf
    case ReadOp(l) => l < |m.slotCell|
    case AssignOp(l, _) => l < |m.slotCell|
    case CaptureOp(l) => l < |m.slotCell|
    case _ => true
  }

  /** What the operation means for the variables. */
  ghost function Meaning(m: Model, op: Op): Model
    requires m.Ok() && Possible(m, op)
  {
    match op
    case GetOp(_) => m
    case SetOp(u, x) => Written(m, m.cellOf[u], x)
    case ReadOp(_) => m
    case AssignOp(l, x) => Written(m, m.slotCell[l], x)
    case CaptureOp(l) => Captured(m, l)
    case CloseOp(level) => Closed(m, level)
    case EnterOp(x) => Entered(m, x)
    case MoveOp(_) => m
  }

  lemma DoAgrees(s: State, m: Model, op: Op)
    requires Simulates(s, m)
    ensures Enabled(s, op) <==> Possible(m, op)
    ensures Possible(m, op) ==> Simulates(Do(s, op), Meaning(m, op))
  {
    hide Find, Closed, Close, Found, Captured, Set, State.OpenOk, Model.Ok, Agrees;
    if Possible(m, op) {
      match op
      case GetOp(_) =>
      case SetOp(u, x) => SetAgrees(s, m, u, x);
      case ReadOp(_) =>
      case AssignOp(l, x) => AssignAgrees(s, m, l, x);
      case CaptureOp(l) => FoundAgrees(s, m, l);
      case CloseOp(level) => CloseAgrees(s, m, level);
      case EnterOp(x) => EnterAgrees(s, m, x);
      case MoveOp(base) => MoveAgrees(s, m, base);
    }
  }

  /** Each operation of a run can be done when its turn comes. */
  ghost predicate EnabledRun(s: State, ops: seq<Op>)
    decreases |ops|
  {
    ops == [] || (s.OpenOk() && Enabled(s, ops[0]) && EnabledRun(Do(s, ops[0]), ops[1..]))
  }

  /** What closures read from upvalues, and the function from slots, in a run. */
  function Reads(s: State, ops: seq<Op>): seq<Value>
    requires EnabledRun(s, ops)
    decreases |ops|
  {
    if ops == [] then []
    else
      (match ops[0] { case GetOp(u) => [Get(s, u)] case ReadOp(l) => [s.stack[l]] case _ => [] })
      + Reads(Do(s, ops[0]), ops[1..])
  }

  ghost predicate PossibleRun(m: Model, ops: seq<Op>)
    decreases |ops|
  {
    ops == [] || (m.Ok() && Possible(m, ops[0]) && PossibleRun(Meaning(m, ops[0]), ops[1..]))
  }

  /** What they would read if every variable were a cell. */
  ghost function CellReads(m: Model, ops: seq<Op>): seq<Value>
    requires PossibleRun(m, ops)
    decreases |ops|
  {
    if ops == [] then []
    else
      (match ops[0] {
         case GetOp(u) => [m.cells[m.cellOf[u]]]
         case ReadOp(l) => [m.cells[m.slotCell[l]]]
         case _ => []
       })
      + CellReads(Meaning(m, ops[0]), ops[1..])
  }

  /** A program cannot tell upvalues and a moving stack from variables with a cell each. */
  lemma {:induction false} RunsAgree(s: State, m: Model, ops: seq<Op>)
    requires Simulates(s, m) && PossibleRun(m, ops)
    ensures EnabledRun(s, ops) && Reads(s, ops) == CellReads(m, ops)
    decreases |ops|
  {
    hide Do, Meaning, Agrees, Get;
    if ops != [] {
      DoAgrees(s, m, ops[0]);
      if ops[0].GetOp? { GetAgrees(s, m, ops[0].u); }
      RunsAgree(Do(s, ops[0]), Meaning(m, ops[0]), ops[1..]);
    }
  }

  // ----- the thread as it is updated in place -----

  /** The ring has the head first, and then the links of the upvalues `order`: all that have one. */
  ghost predicate OrderIs(head: Link, ring: seq<Link>, order: seq<nat>, links: map<nat, Link>) {
    && |ring| == |order| + 1 && ring[0] == head
    && (forall i :: 0 <= i < |order| ==> order[i] in links && ring[i + 1] == links[order[i]])
    && (forall u :: u in links <==> u in order)
  }

  lemma PlaceIn(head: Link, ring: seq<Link>, order: seq<nat>, links: map<nat, Link>, u: nat) returns (k: nat)
    requires OrderIs(head, ring, order, links) && Ring(ring) && u in links
    ensures k < |order| && |ring| == |order| + 1 && order[k] == u && ring[k + 1] == links[u]
    ensures forall i, j :: 0 <= i < j < |ring| ==> ring[i] != ring[j]
  {
    k :| 0 <= k < |order| && order[k] == u;
  }

  lemma OrderAdded(head: Link, ring: seq<Link>, order: seq<nat>, links: map<nat, Link>, u: nat, link: Link)
    requires OrderIs(head, ring, order, links) && u !in links
    ensures ring != [] && ring[0] == head
    ensures OrderIs(head, [head, link] + ring[1..], [u] + order, links[u := link])
  {
  }

  lemma ExceptAt<T>(q: seq<T>, k: nat, r: seq<T>)
    requires k < |q| && r == q[..k] + q[k + 1..]
    ensures |r| == |q| - 1 && forall i :: 0 <= i < k ==> r[i] == q[i]
    ensures forall i :: k <= i < |r| ==> r[i] == q[i + 1]
  {
  }

  /** What is left in order when one upvalue and its link are gone. */
  lemma OrderOfOthers(head: Link, ring: seq<Link>, order: seq<nat>, links: map<nat, Link>, k: nat, fewer: seq<Link>,
                      less: seq<nat>)
    requires OrderIs(head, ring, order, links) && k < |order| && |fewer| == |less| + 1 == |order|
    requires forall i :: 0 <= i < k ==> less[i] == order[i]
    requires forall i :: k <= i < |less| ==> less[i] == order[i + 1]
    requires forall i :: 0 <= i < k + 1 ==> fewer[i] == ring[i]
    requires forall i :: k + 1 <= i < |fewer| ==> fewer[i] == ring[i + 1]
    requires forall i :: 0 <= i < |order| && i != k ==> order[i] != order[k]
    requires forall u :: u in less <==> u in order && u != order[k]
    ensures OrderIs(head, fewer, less, links - {order[k]})
  {
    forall i | 0 <= i < |less|
      ensures less[i] in links && less[i] != order[k] && fewer[i + 1] == links[less[i]]
    {
      assert i < k ==> fewer[i + 1] == ring[i + 1];
      assert i >= k ==> fewer[i + 1] == ring[i + 2];
    }
  }

  lemma OrderRemoved(head: Link, ring: seq<Link>, order: seq<nat>, links: map<nat, Link>, k: nat)
    requires OrderIs(head, ring, order, links) && k < |order|
    requires forall i, j :: 0 <= i < j < |ring| ==> ring[i] != ring[j]
    ensures OrderIs(head, ring[..k + 1] + ring[k + 2..], order[..k] + order[k + 1..], links - {order[k]})
  {
    forall i | 0 <= i < |order| && i != k
      ensures order[i] != order[k]
    {
      assert ring[i + 1] != ring[k + 1];
    }
    WithoutOne(order, k);
    var less, fewer := order[..k] + order[k + 1..], ring[..k + 1] + ring[k + 2..];
    ExceptAt(order, k, less);
    ExceptAt(ring, k + 1, fewer);
    hide OrderIs;
    OrderOfOthers(head, ring, order, links, k, fewer, less);
  }

  /** The pointers of a `CallInfo` into the stack. */
  datatype CallInfo = CallInfo(top: int, base: int, func: int)

  function Shifted(ci: CallInfo, delta: int): CallInfo {
    CallInfo(ci.top + delta, ci.base + delta, ci.func + delta)
  }

  /** When all open upvalues have been moved, the stack has. */
  lemma MovedAll(s: State, upvals: map<nat, UpVal>, base: int)
    requires s.OpenOk() && upvals.Keys == s.upvals.Keys
    requires forall j :: 0 <= j < |s.open| ==> upvals[s.open[j]] == Moved(s.upvals[s.open[j]], base - s.base)
    requires forall u :: u in s.upvals && u !in s.open ==> upvals[u] == s.upvals[u]
    ensures upvals == Move(s, base).upvals
  {
    OpenAll(s);
    hide State.OpenOk;
    forall u | u in upvals
      ensures upvals[u] == Moved(s.upvals[u], base - s.base)
    {
      if u in s.open { var j :| 0 <= j < |s.open| && s.open[j] == u; }
    }
  }

  class Thread {
    var base: int
    var stack: seq<Value>
    var open: seq<nat>
    var upvals: map<nat, UpVal>
    var unused: nat
    var top: int
    var frame: int  // `base` of the source, of the function that runs
    var calls: seq<CallInfo>
    const uvhead: Link  // the head of the ring
    var links: map<nat, Link>
    ghost var order: seq<nat>  // the open upvalues in the order of the ring
    ghost var ring: seq<Link>

    constructor (size: nat, address: int)
      ensures View().OpenOk() && View() == State(address, seq(size, _ => 0), [], map[], 0) && Linked()
      ensures fresh(Objects(ring))
    {
      base, stack, open, upvals, unused := address, seq(size, _ => 0), [], map[], 0;
      top, frame, calls := address, address, [];
      uvhead := new Link();
      links, order, ring := map[], [], [uvhead];
      new;
      uvhead.prevOpen, uvhead.nextOpen := uvhead, uvhead;
    }

    /** The ring runs through the links of exactly the open upvalues. */
    ghost predicate Linked()
      reads this, Objects(ring)
    {
      OrderIs(uvhead, ring, order, links) && Ring(ring) && forall u :: u in links <==> u in open
    }

    ghost function View(): State
      reads this
    {
      State(base, stack, open, upvals, unused)
    }

    /** Goes down the list to the place of a level. */
    method Search(level: int) returns (i: nat)
      requires View().OpenOk()
      ensures i == Above(View(), level)
    {
      i := 0;
      while i < |open| && upvals[open[i]].v.address > level
        invariant i <= |open| && forall j :: 0 <= j < i ==> View().Address(open[j]) > level
        invariant Above(View(), level) == AboveFrom(View(), level, i)
        decreases |open| - i
      {
        i := i + 1;
      }
    }

    /** `luaF_findupval`. */
    method FindUpval(l: nat) returns (u: nat)
      requires View().OpenOk() && View().InScope(l) && Linked()
      modifies this, Objects(ring)
      ensures u == Find(old(View()), l) && View() == Found(old(View()), l) && View().OpenOk() && Linked()
      ensures fresh(Objects(ring) - old(Objects(ring)))
    {
      hide State.OpenOk, Ring, OrderIs, AboveFrom;
      ghost var s := View();
      var level := base + l;
      var i := Search(level);
      InList(s, i);
      if i < |open| && upvals[open[i]].v.address == level { return open[i]; }
      FoundOpen(s, l);
      NotUsed(s);
      u := unused;
      AddLink(u);
      upvals := upvals[u := UpVal(Slot(level), 0)];
      InsertHas(open, i, u);
      open := open[..i] + [u] + open[i..];
      unused := unused + 1;
    }

    /** A new upvalue joins the ring. */
    method AddLink(u: nat)
      requires OrderIs(uvhead, ring, order, links) && Ring(ring) && u !in links
      modifies this`links, this`order, this`ring, Objects(ring)
      ensures links.Keys == old(links.Keys) + {u} && OrderIs(uvhead, ring, order, links) && Ring(ring)
      ensures fresh(Objects(ring) - old(Objects(ring)))
    {
      hide Ring, OrderIs;
      ghost var before := ring;
      var link := new Link();
      OrderAdded(uvhead, ring, order, links, u, link);
      assert link !in before;
      LinkBehind(uvhead, link, before);
      ring := [uvhead, link] + before[1..];
      links := links[u := link];
      order := [u] + order;
      assert Objects(ring) <= Objects(before) + {link};
    }

    /** A closed upvalue leaves the ring. */
    method RemoveLink(u: nat)
      requires OrderIs(uvhead, ring, order, links) && Ring(ring) && u in links
      modifies this`links, this`order, this`ring, Objects(ring)
      ensures links == old(links) - {u} && OrderIs(uvhead, ring, order, links) && Ring(ring)
        && Objects(ring) <= old(Objects(ring))
    {
      hide Ring, OrderIs;
      ghost var k := PlaceIn(uvhead, ring, order, links, u);
      OrderRemoved(uvhead, ring, order, links, k);
      Unlink(links[u], ring, k + 1);
      ring := ring[..k + 1] + ring[k + 2..];
      order := order[..k] + order[k + 1..];
      links := links - {u};
    }

    /** `luaF_close`. */
    method CloseUpvals(level: nat)
      requires View().OpenOk() && Linked()
      modifies this`open, this`upvals, this`links, this`order, this`ring, Objects(ring)
      ensures View() == Close(old(View()), level) && Linked() && Objects(ring) <= old(Objects(ring))
    {
      hide State.OpenOk, Ring, OrderIs;
      ghost var s := View();
      if open != [] { FirstOpen(View()); }
      while open != [] && upvals[open[0]].v.address >= base + level
        invariant View().OpenOk() && Close(View(), level) == Close(s, level)
        invariant open != [] ==> open[0] in upvals && upvals[open[0]].v.Slot?
        invariant Linked() && Objects(ring) <= old(Objects(ring))
        decreases |open|
      {
        ghost var before := View();
        CloseFirstOk(before);
        var u := open[0];
        FirstOpen(before);
        RemoveLink(u);
        OpenTail(before);
        open := open[1..];
        upvals := upvals[u := UpVal(Own, stack[upvals[u].v.address - base])];
        assert View() == CloseFirst(before);
        if open != [] { FirstOpen(View()); }
      }
    }

    /** `correctstack`, after the stack has moved to a new address: all pointers into it keep
        their distance from its beginning. */
    method CorrectStack(newbase: int)
      requires View().OpenOk()
      modifies this`base, this`upvals, this`top, this`frame, this`calls
      ensures View() == Move(old(View()), newbase) && (old(Linked()) ==> Linked())
      ensures top - base == old(top - base) && frame - base == old(frame - base) && |calls| == |old(calls)|
      ensures forall i :: 0 <= i < |calls| ==> calls[i] == Shifted(old(calls)[i], base - old(base))
    {
      hide State.OpenOk, Ring, OrderIs, Move;
      var oldbase := base;
      base := newbase;
      top := (top - oldbase) + base;
      CorrectUpvals(oldbase);
      var i := 0;
      while i < |calls|
        modifies this`calls
        invariant 0 <= i <= |calls| == |old(calls)|
        invariant forall j :: 0 <= j < |calls| ==>
          calls[j] == if j < i then Shifted(old(calls)[j], base - oldbase) else old(calls)[j]
      {
        var ci := calls[i];
        calls := calls[i := CallInfo((ci.top - oldbase) + base, (ci.base - oldbase) + base,
            (ci.func - oldbase) + base)];
        i := i + 1;
      }
      frame := (frame - oldbase) + base;
    }

    /** The loop of `correctstack` over the open upvalues. */
    method CorrectUpvals(oldbase: int)
      requires State(oldbase, stack, open, upvals, unused).OpenOk()
      modifies this`upvals
      ensures View() == Move(State(oldbase, stack, open, old(upvals), unused), base)
    {
      hide State.OpenOk;
      ghost var s := State(oldbase, stack, open, upvals, unused);
      OpenAll(s);
      var i := 0;
      while i < |open|
        invariant 0 <= i <= |open| && upvals.Keys == s.upvals.Keys
        invariant forall j :: 0 <= j < i ==> upvals[open[j]] == Moved(s.upvals[open[j]], base - oldbase)
        invariant forall u :: u in s.upvals && u !in open[..i] ==> upvals[u] == s.upvals[u]
        decreases |open| - i
      {
        var u := open[i];
        NotBefore(s, i);
        var uv := upvals[u];
        upvals := upvals[u := uv.(v := Slot((uv.v.address - oldbase) + base))];
        i := i + 1;
      }
      assert open[..i] == open;
      MovedAll(s, upvals, base);
    }
  }

  lemma NotBefore(s: State, i: nat)
    requires s.OpenOk() && i < |s.open|
    ensures s.open[i] in s.upvals && s.upvals[s.open[i]].v.Slot? && s.open[i] !in s.open[..i]
  {
    forall j | 0 <= j < i
      ensures s.open[j] != s.open[i]
    {
      assert s.Address(s.open[j]) > s.Address(s.open[i]);
    }
  }

  lemma OpenAll(s: State)
    requires s.OpenOk()
    ensures forall i :: 0 <= i < |s.open| ==> s.open[i] in s.upvals
    ensures forall u :: u in s.upvals ==> (u in s.open <==> s.upvals[u].v.Slot?)
  {
  }

  lemma WithoutOne(q: seq<nat>, k: nat)
    requires k < |q| && forall i :: 0 <= i < |q| && i != k ==> q[i] != q[k]
    ensures forall u :: u in q[..k] + q[k + 1..] <==> u in q && u != q[k]
  {
    assert q == q[..k] + [q[k]] + q[k + 1..];
  }

  lemma OpenTail(s: State)
    requires s.OpenOk() && s.open != []
    ensures forall u :: u in s.open[1..] <==> u in s.open && u != s.open[0]
  {
    forall i | 1 <= i < |s.open|
      ensures s.open[i] != s.open[0]
    {
      assert s.Address(s.open[0]) > s.Address(s.open[i]);
    }
  }

  lemma InList(s: State, i: nat)
    requires s.OpenOk()
    ensures i < |s.open| ==> s.open[i] in s.upvals && s.upvals[s.open[i]].v.Slot? && s.open[i] != s.unused
  {
  }
}
