/** The invariant of the collector, kept by every step of the collector and of the program. */
module CollectorInvariant {
  import opened LuaObjects
  import opened Marking
  import opened Collector

  // ----- where objects are -----

  predicate OnRootList(h: Heap, o: Ref) {
    o in h && !h[o].Str? && !IsOpen(h, o)
  }

  /** Every object that is neither a string nor an open upvalue is on `rootgc`
      once, apart from those in `gone`, which a sweep has just unlinked. */
  ghost predicate RootListOk(s: State, gone: set<Ref>) {
    && NoDuplicates(s.rootgc) && s.sweepgc <= |s.rootgc|
    && (forall o :: o in s.rootgc ==> OnRootList(s.heap, o) && o !in gone)
    && (forall o :: OnRootList(s.heap, o) && o !in gone ==> o in s.rootgc)
  }

  ghost predicate BucketOk(s: State, b: nat)
    requires b < |s.strt|
  {
    && NoDuplicates(s.strt[b])
    && forall o :: o in s.strt[b] ==> o in s.heap && s.heap[o].Str? && s.heap[o].hash % |s.strt| == b
  }

  /** Every string is in the bucket of its hash and nowhere else. */
  ghost predicate StringsOk(s: State) {
    && |s.strt| > 0
    && (forall b :: 0 <= b < |s.strt| ==> BucketOk(s, b))
    && (forall o :: o in s.heap && s.heap[o].Str? ==> o in s.strt[s.heap[o].hash % |s.strt|])
  }

  predicate OpenIn(h: Heap, u: Ref, th: Ref) {
    IsOpen(h, u) && h[u].v.thread == th
  }

  /** An open upvalue stands for a slot of its thread, which lists it. */
  predicate UpValOk(h: Heap, u: Ref)
    requires IsOpen(h, u)
  {
    var th := h[u].v.thread;
    th in h && h[th].Thread? && h[u].v.level < |h[th].stack| && u in h[th].openupval
  }

  /** The open upvalues of a thread, from the top of the stack down. */
  ghost predicate OpenListOk(h: Heap, th: Ref)
    requires th in h && h[th].Thread?
  {
    var open := h[th].openupval;
    && (forall u :: u in open ==> OpenIn(h, u, th))
    && (forall i, j :: 0 <= i < j < |open| && IsOpen(h, open[i]) && IsOpen(h, open[j]) ==>
        h[open[i]].v.level > h[open[j]].v.level)
  }

  ghost predicate OpenUpvalsOk(s: State) {
    && (forall u :: IsOpen(s.heap, u) ==> UpValOk(s.heap, u))
    && (forall th :: th in s.heap && s.heap[th].Thread? ==> OpenListOk(s.heap, th))
    && NoDuplicates(s.uvhead)
    && (forall u :: u in s.uvhead <==> IsOpen(s.heap, u))
  }

  ghost predicate HeapOk(s: State, gone: set<Ref>) {
    && s.marks.color.Keys == s.heap.Keys
    && RootListOk(s, gone) && StringsOk(s) && OpenUpvalsOk(s)
    && s.mainthread in s.heap && s.heap[s.mainthread].Thread?
    && s.running in s.heap && s.heap[s.running].Thread?
    && (forall o :: o in s.fixed ==> o in s.heap && (s.heap[o].Str? || o == s.mainthread))
  }

  // ----- what is alive -----

  predicate Live(s: State, o: Ref) {
    o in s.heap && !IsDead(s, o)
  }

  ghost function Roots(s: State): set<Ref> {
    {s.mainthread, s.running} + (if s.registry.Obj? then {s.registry.ref} else {}) +
    (set v | v in s.mt && v.Some? :: v.value)
  }

  ghost predicate RefsLive(s: State, o: Ref) {
    forall r :: PointsTo(s.heap, o, r) ==> Live(s, r)
  }

  ghost predicate LiveClosed(s: State) {
    && (forall r :: r in Roots(s) ==> Live(s, r))
    && (forall o :: Live(s, o) ==> RefsLive(s, o))
  }

  predicate IsFresh(s: State, o: Ref) {
    o in s.marks.color && s.marks.color[o] == White(s.currentwhite)
  }

  /** A swept object is white for the next cycle, and so are the upvalues open in it. */
  ghost predicate Swept(s: State, o: Ref) {
    IsFresh(s, o) && forall u :: u in OpenList(s, o) ==> IsFresh(s, u)
  }

  /** What lies behind the sweep pointer is swept, and no open upvalue is black. */
  ghost predicate SweptOk(s: State) {
    && (forall i :: 0 <= i < s.sweepgc <= |s.rootgc| ==> Swept(s, s.rootgc[i]))
    && (forall u :: IsOpen(s.heap, u) ==> !IsBlack(s, u))
  }

  ghost predicate BucketSwept(s: State, b: nat) {
    b < |s.strt| ==> forall o :: o in s.strt[b] ==> IsFresh(s, o)
  }

  ghost predicate AllFresh(s: State) {
    forall o :: o in s.heap ==> IsFresh(s, o)
  }

  ghost predicate PhaseOk(s: State) {
    match s.gcstate
    case Pause => AllFresh(s)
    case Finalize => AllFresh(s)
    case Propagate =>
      && MarkOk(s.heap, s.marks, {}, Running)
      && (forall o :: o in s.heap ==> !IsDead(s, o))
      && Marked(s.marks, s.mainthread) && (s.registry.Obj? ==> Marked(s.marks, s.registry.ref))
    case SweepString =>
      && SweptOk(s) && s.sweepgc == 0 && s.sweepstrgc < |s.strt|
      && forall b :: 0 <= b < s.sweepstrgc ==> BucketSwept(s, b)
    case Sweep =>
      && SweptOk(s)
      && forall b :: 0 <= b < |s.strt| ==> BucketSwept(s, b)
  }

  ghost predicate Inv(s: State) {
    HeapOk(s, {}) && LiveClosed(s) && PhaseOk(s)
  }

  // ----- what the program sees of an object -----

  ghost predicate SameView(h: Heap, h': Heap, o: Ref) {
    && o in h && o in h'
    && (h[o].UpVal? ==> h'[o].UpVal? && UpValue(h, h[o].v) == UpValue(h', h'[o].v))
    && (h[o].Thread? ==> h'[o].Thread? && h[o].gt == h'[o].gt && h[o].stack == h'[o].stack)
    && (!h[o].UpVal? && !h[o].Thread? ==> h[o] == h'[o])
  }

  /** A change the program cannot notice: whatever is alive stays, with the contents
      it had, and of the dead only fixed objects come back. */
  ghost predicate Spares(s: State, s': State) {
    && s'.mainthread == s.mainthread && s'.running == s.running
    && s'.registry == s.registry && s'.mt == s.mt && s'.fixed == s.fixed
    && (forall o :: Live(s, o) ==> Live(s', o) && SameView(s.heap, s'.heap, o))
    && (forall o :: Live(s', o) ==> Live(s, o) || o in s.fixed)
  }

  lemma SparesTransitive(a: State, b: State, c: State)
    requires Spares(a, b) && Spares(b, c)
    ensures Spares(a, c)
  {
  }

  // ----- sweeping one object -----

  /** What a sweep keeps, between its rounds. */
  ghost predicate SweepInv(s: State, gone: set<Ref>) {
    HeapOk(s, gone) && LiveClosed(s) && SweptOk(s)
  }

  lemma WhitenOk(s: State, o: Ref, gone: set<Ref>)
    requires SweepInv(s, gone) && o in s.heap && Survives(s, o)
    ensures SweepInv(MakeWhite(s, o), gone) && Spares(s, MakeWhite(s, o))
  {
    hide HeapOk, SweptOk, LiveClosed, Spares;
    SurvivorKind(s, o, gone);
    RecolorHeapOk(s, MakeWhite(s, o), gone);
    WhitenSwept(s, o);
    WhitenLive(s, o);
  }

  lemma SurvivorKind(s: State, o: Ref, gone: set<Ref>)
    requires HeapOk(s, gone) && LiveClosed(s) && o in s.heap && Survives(s, o)
    ensures o in s.marks.color && (!IsDead(s, o) || s.heap[o].Str?)
  {
    assert s.mainthread in Roots(s);
  }

  lemma RecolorHeapOk(s: State, s': State, gone: set<Ref>)
    requires HeapOk(s, gone) && s' == s.(marks := s'.marks) && s'.marks.color.Keys == s.marks.color.Keys
    ensures HeapOk(s', gone)
  {
    forall b | 0 <= b < |s.strt|
      ensures BucketOk(s', b)
    {
      assert BucketOk(s, b);
    }
  }

  lemma WhitenSwept(s: State, o: Ref)
    requires SweptOk(s)
    ensures SweptOk(MakeWhite(s, o))
  {
    var s' := MakeWhite(s, o);
    forall i | 0 <= i < s'.sweepgc <= |s'.rootgc|
      ensures Swept(s', s'.rootgc[i])
    {
      assert Swept(s, s.rootgc[i]);
      forall u | u in OpenList(s', s'.rootgc[i])
        ensures IsFresh(s', u)
      {
        assert u in OpenList(s, s.rootgc[i]);
      }
    }
  }

  lemma WhitenLive(s: State, o: Ref)
    requires LiveClosed(s) && o in s.heap
    requires !IsDead(s, o) || s.heap[o].Str?
    ensures LiveClosed(MakeWhite(s, o)) && (Survives(s, o) ==> Spares(s, MakeWhite(s, o)))
  {
    var s' := MakeWhite(s, o);
    assert forall x :: Live(s, x) ==> Live(s', x);
    forall x | Live(s', x)
      ensures RefsLive(s', x)
    {
      if Live(s, x) { assert RefsLive(s, x); }
    }
  }

  lemma SameViewSameRefs(h: Heap, h': Heap, o: Ref, r: Ref)
    requires SameView(h, h', o)
    ensures PointsTo(h, o, r) <==> PointsTo(h', o, r)
  {
  }

  /** Liveness carries over a change that kills nothing alive and revives nothing but strings. */
  lemma SparesLive(s: State, s': State)
    requires LiveClosed(s) && Spares(s, s')
    requires forall o :: Live(s', o) ==> Live(s, o) || s'.heap[o].Str?
    ensures LiveClosed(s')
  {
    forall o | Live(s', o)
      ensures RefsLive(s', o)
    {
      if Live(s, o) {
        forall r | PointsTo(s'.heap, o, r)
          ensures Live(s', r)
        {
          SameViewSameRefs(s.heap, s'.heap, o, r);
          assert RefsLive(s, o);
        }
      }
    }
    assert Roots(s') == Roots(s);
  }

  lemma {:induction false} WithoutOk(q: seq<Ref>, x: Ref)
    requires NoDuplicates(q)
    ensures NoDuplicates(Without(q, x)) && |Without(q, x)| == |q| - (if x in q then 1 else 0)
    ensures forall y :: y in Without(q, x) <==> y in q && y != x
  {
    if q != [] && q[0] != x {
      WithoutOk(q[1..], x);
      var w := Without(q[1..], x);
      assert Without(q, x) == [q[0]] + w;
      assert q[0] !in w;
    }
  }

  lemma RemoveAtOk(q: seq<Ref>, i: nat)
    requires NoDuplicates(q) && i < |q|
    ensures NoDuplicates(RemoveAt(q, i))
    ensures forall y :: y in RemoveAt(q, i) <==> y in q && y != q[i]
  {
    var w := RemoveAt(q, i);
    forall y | y in q && y != q[i]
      ensures y in w
    {
      var k :| 0 <= k < |q| && q[k] == y;
      assert w[if k < i then k else k - 1] == y;
    }
  }

  // ----- freeing a dead open upvalue -----

  /** The state after a dead upvalue of an open list has been unlinked and freed. */
  ghost predicate OpenFreed(s: State, th: Ref, i: nat, s': State) {
    && i < |OpenList(s, th)|
    && var u := OpenList(s, th)[i];
    && s'.heap == s.heap[th := s.heap[th].(openupval := RemoveAt(OpenList(s, th), i))] - {u}
    && s' == s.(heap := s'.heap, uvhead := Without(s.uvhead, u), marks := s.marks.(color := s.marks.color - {u}))
  }

  lemma FreeOpenShape(s: State, th: Ref, i: nat, gone: set<Ref>)
    requires HeapOk(s, gone) && i < |OpenList(s, th)|
    ensures OpenFreed(s, th, i, FreeUpVal(DropOpen(s, th, i), OpenList(s, th)[i]))
  {
    assert OpenListOk(s.heap, th);
    var u := OpenList(s, th)[i];
    assert u in s.heap[th].openupval;
    assert OpenIn(s.heap, u, th);
  }

  lemma FreeOpenOk(s: State, th: Ref, i: nat, s': State, gone: set<Ref>)
    requires SweepInv(s, gone) && OpenFreed(s, th, i, s') && IsDead(s, OpenList(s, th)[i])
    ensures SweepInv(s', gone) && Spares(s, s')
  {
    hide OpenUpvalsOk, StringsOk, RootListOk, OpenListOk, LiveClosed, SweptOk, Spares, IsDead;
    var u := OpenList(s, th)[i];
    OpenAt(s, th, i);
    FreeOpenUpvals(s, th, i, s');
    FreeOpenLists(s, th, i, s', gone);
    FreeOpenLive(s, th, i, s');
    assert s.heap[u].UpVal?;
    assert s'.marks.color.Keys == s'.heap.Keys;
  }

  lemma OpenAt(s: State, th: Ref, i: nat)
    requires OpenUpvalsOk(s) && i < |OpenList(s, th)|
    ensures OpenIn(s.heap, OpenList(s, th)[i], th)
  {
    assert OpenListOk(s.heap, th) && OpenList(s, th)[i] in s.heap[th].openupval;
  }

  lemma OpenListDistinct(h: Heap, th: Ref)
    requires th in h && h[th].Thread? && OpenListOk(h, th)
    ensures NoDuplicates(h[th].openupval)
  {
    var open := h[th].openupval;
    forall i, j | 0 <= i < j < |open|
      ensures open[i] != open[j]
    {
      assert OpenIn(h, open[i], th) && OpenIn(h, open[j], th);
    }
  }

  lemma FreeOpenUpvals(s: State, th: Ref, i: nat, s': State)
    requires OpenUpvalsOk(s) && OpenFreed(s, th, i, s')
    ensures OpenUpvalsOk(s')
  {
    hide UpValOk, OpenListOk, RemoveAt, Without;
    var u := OpenList(s, th)[i];
    OpenAt(s, th, i);
    WithoutOk(s.uvhead, u);
    OpenListDistinct(s.heap, th);
    RemoveAtOk(OpenList(s, th), i);
    assert forall x :: IsOpen(s'.heap, x) <==> IsOpen(s.heap, x) && x != u;
    forall x | IsOpen(s'.heap, x)
      ensures UpValOk(s'.heap, x)
    {
      FreeOpenUpValOk(s, th, i, s', x);
    }
    forall t | t in s'.heap && s'.heap[t].Thread?
      ensures OpenListOk(s'.heap, t)
    {
      FreeOpenRest(s, th, i, s', t);
    }
  }

  lemma FreeOpenRest(s: State, th: Ref, i: nat, s': State, t: Ref)
    requires OpenFreed(s, th, i, s') && OpenIn(s.heap, OpenList(s, th)[i], th) && NoDuplicates(OpenList(s, th))
    requires t in s'.heap && s'.heap[t].Thread? && OpenListOk(s.heap, t)
    ensures OpenListOk(s'.heap, t)
  {
    hide RemoveAt, Without;
    var u := OpenList(s, th)[i];
    RemoveAtOk(OpenList(s, th), i);
    if t == th {
      RemoveAtDescending(s.heap, th, i);
    } else {
      assert forall x :: x in s.heap[t].openupval ==> OpenIn(s.heap, x, t);
    }
    FreeOpenListOk(s.heap, s'.heap, u, t, th);
  }

  lemma FreeOpenUpValOk(s: State, th: Ref, i: nat, s': State, x: Ref)
    requires OpenFreed(s, th, i, s') && OpenIn(s.heap, OpenList(s, th)[i], th) && IsOpen(s'.heap, x)
    requires UpValOk(s.heap, x)
    requires forall y :: y in OpenList(s, th) && y != OpenList(s, th)[i] ==> y in RemoveAt(OpenList(s, th), i)
    ensures UpValOk(s'.heap, x)
  {
    hide RemoveAt, Without;
  }

  lemma FreeOpenListOk(h: Heap, h': Heap, u: Ref, t: Ref, th: Ref)
    requires t in h && h[t].Thread? && OpenListOk(h, t) && OpenIn(h, u, th) && th in h && h[th].Thread?
    requires forall x :: x in h && x != u ==> x in h' && (x != th ==> h'[x] == h[x])
    requires t in h' && h'[t].Thread? && th in h' && h'[th].Thread?
    requires forall x :: x in h'[t].openupval ==> x in h[t].openupval && x != u
    requires var open := h'[t].openupval;
      forall a, b :: 0 <= a < b < |open| && IsOpen(h, open[a]) && IsOpen(h, open[b]) ==>
          h[open[a]].v.level > h[open[b]].v.level
    ensures OpenListOk(h', t)
  {
    forall x | x in h'[t].openupval
      ensures OpenIn(h', x, t) && h'[x] == h[x]
    {
      assert OpenIn(h, x, t);
    }
  }

  lemma RemoveAtDescending(h: Heap, th: Ref, i: nat)
    requires th in h && h[th].Thread? && OpenListOk(h, th) && i < |h[th].openupval|
    ensures var open' := RemoveAt(h[th].openupval, i);
      forall a, b :: 0 <= a < b < |open'| && IsOpen(h, open'[a]) && IsOpen(h, open'[b]) ==>
          h[open'[a]].v.level > h[open'[b]].v.level
  {
    var open := h[th].openupval;
    var open' := RemoveAt(open, i);
    forall a, b | 0 <= a < b < |open'| && IsOpen(h, open'[a]) && IsOpen(h, open'[b])
      ensures h[open'[a]].v.level > h[open'[b]].v.level
    {
      assert open'[a] == open[if a < i then a else a + 1];
      assert open'[b] == open[if b < i then b else b + 1];
    }
  }

  lemma FreeOpenLists(s: State, th: Ref, i: nat, s': State, gone: set<Ref>)
    requires RootListOk(s, gone) && StringsOk(s) && OpenFreed(s, th, i, s') && OpenIn(s.heap, OpenList(s, th)[i], th)
    ensures RootListOk(s', gone) && StringsOk(s')
  {
    forall b | 0 <= b < |s'.strt|
      ensures BucketOk(s', b)
    {
      assert BucketOk(s, b);
    }
  }

  lemma FreeOpenLive(s: State, th: Ref, i: nat, s': State)
    requires LiveClosed(s) && SweptOk(s) && OpenFreed(s, th, i, s')
    requires IsDead(s, OpenList(s, th)[i]) && OpenIn(s.heap, OpenList(s, th)[i], th)
    ensures LiveClosed(s') && Spares(s, s') && SweptOk(s')
  {
    var u := OpenList(s, th)[i];
    assert forall o :: Live(s, o) ==> o != u && Live(s', o) && SameView(s.heap, s'.heap, o);
    assert forall x :: IsOpen(s'.heap, x) ==> IsOpen(s.heap, x) && x != u;
    SparesLive(s, s');
    forall k | 0 <= k < s'.sweepgc <= |s'.rootgc|
      ensures Swept(s', s'.rootgc[k])
    {
      var o := s.rootgc[k];
      assert Swept(s, o);
      forall x | x in OpenList(s', o)
        ensures IsFresh(s', x)
      {
        assert x in OpenList(s, o);
      }
    }
  }

  // ----- sweeping open upvalues and strings -----

  /** What sweeping the upvalues of a thread leaves alone. */
  ghost predicate SameButOpen(s: State, s': State, th: Ref) {
    && s' == s.(heap := s'.heap, marks := s.marks.(color := s'.marks.color), uvhead := s'.uvhead)
    && (forall o :: OnRootList(s'.heap, o) <==> OnRootList(s.heap, o))
    && (forall o :: OnRootList(s.heap, o) && o != th ==> s'.heap[o] == s.heap[o])
    && (forall o :: OnRootList(s.heap, o) ==> IsDead(s', o) == IsDead(s, o))
    && (forall o :: o in s.heap && s.heap[o].Str? ==>
      o in s'.heap && s'.heap[o].Str? && IsFresh(s', o) == IsFresh(s, o))
    && |s'.uvhead| <= |s.uvhead|
    && (th in s.heap && s.heap[th].Thread? ==> th in s'.heap && s'.heap[th].Thread?)
  }

  lemma SameButOpenTransitive(a: State, b: State, c: State, th: Ref)
    requires SameButOpen(a, b, th) && SameButOpen(b, c, th)
    ensures SameButOpen(a, c, th)
  {
  }

  ghost predicate PrefixFresh(s: State, th: Ref, i: nat) {
    i <= |OpenList(s, th)| && forall j :: 0 <= j < i ==> IsFresh(s, OpenList(s, th)[j])
  }

  /** Sweeping the open upvalues of a thread frees the dead ones and whitens the others. */
  lemma {:induction false} SweepOpenOk(s: State, th: Ref, i: nat)
    requires SweepInv(s, {}) && PrefixFresh(s, th, i)
    ensures SweepInv(SweepOpen(s, th, i), {}) && Spares(s, SweepOpen(s, th, i))
    ensures SameButOpen(s, SweepOpen(s, th, i), th)
    ensures PrefixFresh(SweepOpen(s, th, i), th, |OpenList(SweepOpen(s, th, i), th)|)
    decreases |OpenList(s, th)| - i
  {
    hide HeapOk, LiveClosed, SweptOk, Spares, SameButOpen;
    if i < |OpenList(s, th)| {
      var u := OpenList(s, th)[i];
      OpenListed(s, th, i, {});
      var s1 := if Survives(s, u) then MakeWhite(s, u) else FreeUpVal(DropOpen(s, th, i), u);
      SweepOpenStep(s, th, i);
      SweepOpenOk(s1, th, if Survives(s, u) then i + 1 else i);
      SparesTransitive(s, s1, SweepOpen(s, th, i));
      SameButOpenTransitive(s, s1, SweepOpen(s, th, i), th);
    } else {
      SameState(s, th);
    }
  }

  lemma SameState(s: State, th: Ref)
    ensures Spares(s, s) && SameButOpen(s, s, th)
  {
  }

  lemma OpenListed(s: State, th: Ref, i: nat, gone: set<Ref>)
    requires HeapOk(s, gone) && i < |OpenList(s, th)|
    ensures OpenIn(s.heap, OpenList(s, th)[i], th) && OpenList(s, th)[i] in s.marks.color
    ensures OpenList(s, th)[i] !in s.fixed
  {
    assert OpenListOk(s.heap, th);
    assert OpenList(s, th)[i] in s.heap[th].openupval;
  }

  lemma SweepOpenStep(s: State, th: Ref, i: nat)
    requires SweepInv(s, {}) && PrefixFresh(s, th, i) && i < |OpenList(s, th)|
    ensures var u := OpenList(s, th)[i];
      var s1 := if Survives(s, u) then MakeWhite(s, u) else FreeUpVal(DropOpen(s, th, i), u);
      && SweepInv(s1, {}) && Spares(s, s1) && SameButOpen(s, s1, th)
      && PrefixFresh(s1, th, if Survives(s, u) then i + 1 else i)
      && |OpenList(s1, th)| == if Survives(s, u) then |OpenList(s, th)| else |OpenList(s, th)| - 1
  {
    hide LiveClosed, SweptOk, Spares, RootListOk, StringsOk, OpenUpvalsOk, SameButOpen;
    var u := OpenList(s, th)[i];
    OpenListed(s, th, i, {});
    if Survives(s, u) {
      WhitenOk(s, u, {});
      WhitenedSame(s, th, u, MakeWhite(s, u));
    } else {
      FreeOpenShape(s, th, i, {});
      FreeOpenOk(s, th, i, FreeUpVal(DropOpen(s, th, i), u), {});
      OpenFreedSame(s, th, i, u, FreeUpVal(DropOpen(s, th, i), u));
    }
  }

  lemma WhitenedSame(s: State, th: Ref, u: Ref, s': State)
    requires s' == MakeWhite(s, u) && OpenIn(s.heap, u, th)
    ensures SameButOpen(s, s', th)
  {
  }

  lemma OpenFreedSame(s: State, th: Ref, i: nat, u: Ref, s': State)
    requires OpenFreed(s, th, i, s') && OpenList(s, th)[i] == u && OpenIn(s.heap, u, th) && OpenUpvalsOk(s)
    ensures SameButOpen(s, s', th)
  {
    WithoutOk(s.uvhead, u);
    hide OpenUpvalsOk;
  }

  /** What sweeping a bucket leaves alone: all that is not a string, and the other buckets. */
  ghost predicate SameButBucket(s: State, s': State, b: nat) {
    && s' == s.(heap := s'.heap, marks := s.marks.(color := s'.marks.color), strt := s'.strt)
    && |s'.strt| == |s.strt|
    && (forall k :: 0 <= k < |s.strt| && k != b ==>
      s'.strt[k] == s.strt[k] && (BucketSwept(s, k) ==> BucketSwept(s', k)))
  }

  lemma SameButBucketTransitive(a: State, b: State, c: State, k: nat)
    requires SameButBucket(a, b, k) && SameButBucket(b, c, k)
    ensures SameButBucket(a, c, k)
  {
  }

  ghost predicate BucketPrefixFresh(s: State, b: nat, i: nat) {
    b < |s.strt| && i <= |s.strt[b]| && forall j :: 0 <= j < i ==> IsFresh(s, s.strt[b][j])
  }

  /** Sweeping a bucket frees its dead strings and whitens the others. */
  lemma {:induction false} SweepBucketOk(s: State, b: nat, i: nat)
    requires SweepInv(s, {}) && BucketPrefixFresh(s, b, i)
    ensures SweepInv(SweepBucket(s, b, i), {}) && Spares(s, SweepBucket(s, b, i))
    ensures SameButBucket(s, SweepBucket(s, b, i), b)
    ensures BucketSwept(SweepBucket(s, b, i), b)
    decreases |s.strt[b]| - i
  {
    hide HeapOk, LiveClosed, SweptOk, Spares, SameButBucket;
    if i < |s.strt[b]| {
      var o := s.strt[b][i];
      var s1 := SweepBucketRound(s, b, i);
      SweepBucketStep(s, b, i);
      SweepBucketOk(s1, b, if Survives(s, o) then i + 1 else i);
      SparesTransitive(s, s1, SweepBucket(s, b, i));
      SameButBucketTransitive(s, s1, SweepBucket(s, b, i), b);
    } else {
      SameBucketState(s, b);
    }
  }

  ghost function SweepBucketRound(s: State, b: nat, i: nat): State
    requires b < |s.strt| && i < |s.strt[b]|
  {
    var o := s.strt[b][i];
    if Survives(s, o) then MakeWhite(s, o)
    else Release(s.(strt := s.strt[b := RemoveAt(s.strt[b], i)]), o)
  }

  lemma SameBucketState(s: State, b: nat)
    ensures Spares(s, s) && SameButBucket(s, s, b)
  {
  }

  lemma SweepBucketStep(s: State, b: nat, i: nat)
    requires SweepInv(s, {}) && BucketPrefixFresh(s, b, i) && i < |s.strt[b]|
    ensures var o := s.strt[b][i];
      var s1 := SweepBucketRound(s, b, i);
      && SweepInv(s1, {}) && Spares(s, s1) && SameButBucket(s, s1, b)
      && BucketPrefixFresh(s1, b, if Survives(s, o) then i + 1 else i)
      && |s1.strt[b]| == if Survives(s, o) then |s.strt[b]| else |s.strt[b]| - 1
  {
    var o := s.strt[b][i];
    hide HeapOk, LiveClosed, SweptOk, Spares, SameButBucket;
    StringListed(s, b, i);
    SweepBucketSame(s, b, i);
    SweepBucketPrefix(s, b, i);
    hide BucketPrefixFresh, BucketSwept;
    if Survives(s, o) {
      WhitenOk(s, o, {});
    } else {
      FreeStringOk(s, b, i);
    }
  }

  lemma StringListed(s: State, b: nat, i: nat)
    requires SweepInv(s, {}) && b < |s.strt| && i < |s.strt[b]|
    ensures s.strt[b][i] in s.heap && s.heap[s.strt[b][i]].Str? && s.strt[b][i] in s.marks.color
    ensures forall k :: 0 <= k < |s.strt| && k != b ==> s.strt[b][i] !in s.strt[k]
  {
    assert BucketOk(s, b) && s.strt[b][i] in s.strt[b];
    forall k | 0 <= k < |s.strt| && k != b
      ensures s.strt[b][i] !in s.strt[k]
    {
      assert BucketOk(s, k);
    }
  }

  lemma ThreadsLive(s: State)
    requires LiveClosed(s)
    ensures Live(s, s.mainthread) && Live(s, s.running)
  {
    assert s.mainthread in Roots(s) && s.running in Roots(s);
  }

  lemma SweepBucketPrefix(s: State, b: nat, i: nat)
    requires BucketPrefixFresh(s, b, i) && i < |s.strt[b]| && s.strt[b][i] in s.marks.color
    ensures var o := s.strt[b][i];
      var s1 := SweepBucketRound(s, b, i);
      && BucketPrefixFresh(s1, b, if Survives(s, o) then i + 1 else i)
      && |s1.strt[b]| == if Survives(s, o) then |s.strt[b]| else |s.strt[b]| - 1
  {
    var o := s.strt[b][i];
    var s1 := SweepBucketRound(s, b, i);
    if !Survives(s, o) {
      assert forall j :: 0 <= j < i ==> s1.strt[b][j] == s.strt[b][j];
    }
  }

  lemma SweepBucketSame(s: State, b: nat, i: nat)
    requires SweepInv(s, {}) && b < |s.strt| && i < |s.strt[b]|
    ensures SameButBucket(s, SweepBucketRound(s, b, i), b)
  {
    StringListed(s, b, i);
  }

  lemma FreeStringOk(s: State, b: nat, i: nat)
    requires SweepInv(s, {}) && b < |s.strt| && i < |s.strt[b]| && !Survives(s, s.strt[b][i])
    ensures SweepInv(SweepBucketRound(s, b, i), {}) && Spares(s, SweepBucketRound(s, b, i))
  {
    hide StringsOk, RootListOk, OpenUpvalsOk, LiveClosed, SweptOk, Spares;
    var o, s' := s.strt[b][i], SweepBucketRound(s, b, i);
    StringListed(s, b, i);
    FreeStringLists(s, b, i);
    FreeStringOpen(s, o, s');
    ThreadsLive(s);
    FreeStringLive(s, o, s');
  }

  lemma FreeStringLive(s: State, o: Ref, s': State)
    requires LiveClosed(s) && SweptOk(s) && IsDead(s, o) && o in s.heap && s.heap[o].Str?
    requires s' == s.(strt := s'.strt, heap := s.heap - {o}, marks := s.marks.(color := s.marks.color - {o}))
    ensures LiveClosed(s') && SweptOk(s') && Spares(s, s')
  {
    assert forall x :: Live(s, x) ==> x != o && Live(s', x) && SameView(s.heap, s'.heap, x);
    assert forall x :: IsOpen(s'.heap, x) ==> IsOpen(s.heap, x) && x != o;
    SparesLive(s, s');
    forall k | 0 <= k < s'.sweepgc <= |s'.rootgc|
      ensures Swept(s', s'.rootgc[k])
    {
      assert Swept(s, s.rootgc[k]);
      forall u | u in OpenList(s', s'.rootgc[k])
        ensures IsFresh(s', u)
      {
        assert u in OpenList(s, s.rootgc[k]);
      }
    }
  }

  lemma FreeStringLists(s: State, b: nat, i: nat)
    requires RootListOk(s, {}) && StringsOk(s) && b < |s.strt| && i < |s.strt[b]|
    ensures RootListOk(SweepBucketRound(s, b, i), {}) && StringsOk(SweepBucketRound(s, b, i))
  {
    var o, s' := s.strt[b][i], SweepBucketRound(s, b, i);
    assert BucketOk(s, b) && o in s.strt[b];
    RemoveAtOk(s.strt[b], i);
    forall k | 0 <= k < |s'.strt|
      ensures BucketOk(s', k)
    {
      assert BucketOk(s, k);
    }
  }

  lemma FreeStringOpen(s: State, o: Ref, s': State)
    requires OpenUpvalsOk(s) && o in s.heap && s.heap[o].Str?
    requires s'.uvhead == s.uvhead && s'.heap == s.heap - {o}
    ensures OpenUpvalsOk(s')
  {
    assert forall x :: IsOpen(s'.heap, x) <==> IsOpen(s.heap, x);
    forall t | t in s'.heap && s'.heap[t].Thread?
      ensures OpenListOk(s'.heap, t)
    {
      assert OpenListOk(s.heap, t);
      assert forall u :: OpenIn(s'.heap, u, t) <==> OpenIn(s.heap, u, t);
    }
  }

  // ----- closing an upvalue -----

  /** The heap after the first upvalue `u` of a thread has been closed. */
  ghost function ClosedHeap(s: State, th: Ref, u: Ref): Heap
    requires |OpenList(s, th)| > 0 && IsOpen(s.heap, u)
  {
    s.heap[th := s.heap[th].(openupval := RemoveAt(OpenList(s, th), 0))]
          [u := UpVal(Closed(UpValue(s.heap, s.heap[u].v)))]
  }

  /** The state after `u` has been closed and linked, apart from its colour. */
  ghost predicate ClosedFirst(s: State, th: Ref, u: Ref, s': State) {
    && |OpenList(s, th)| > 0 && OpenList(s, th)[0] == u && OpenIn(s.heap, u, th)
    && s'.heap == ClosedHeap(s, th, u)
    && s' == Link(s, u).(heap := s'.heap, uvhead := Without(s.uvhead, u), marks := s'.marks)
  }

  lemma CloseFirstShape(s: State, th: Ref, gone: set<Ref>)
    requires HeapOk(s, gone) && |OpenList(s, th)| > 0
    ensures var u := OpenList(s, th)[0];
      && IsOpen(s.heap, u) && IsOpen(DropOpen(s, th, 0).heap, u) && u != th
      && ClosedFirst(s, th, u, LinkUpVal(CloseOne(DropOpen(s, th, 0), u), u))
  {
    hide RootListOk, StringsOk, OpenUpvalsOk, Without, RemoveAt, MarkObject;
    OpenListed(s, th, 0, gone);
    var u := OpenList(s, th)[0];
    var s1 := DropOpen(s, th, 0);
    var s2 := CloseOne(s1, u);
    assert s2.heap == ClosedHeap(s, th, u);
  }

  lemma CloseHeapOk(s: State, th: Ref, u: Ref, s': State, gone: set<Ref>)
    requires HeapOk(s, gone) && u !in gone && ClosedFirst(s, th, u, s') && s'.marks.color.Keys == s.marks.color.Keys
    ensures HeapOk(s', gone)
  {
    hide RootListOk, StringsOk, OpenUpvalsOk;
    CloseLists(s, th, u, s', gone);
    CloseOpen(s, th, u, s');
  }

  lemma CloseLists(s: State, th: Ref, u: Ref, s': State, gone: set<Ref>)
    requires RootListOk(s, gone) && StringsOk(s) && u !in gone && ClosedFirst(s, th, u, s')
    ensures RootListOk(s', gone) && StringsOk(s')
  {
    forall b | 0 <= b < |s'.strt|
      ensures BucketOk(s', b)
    {
      assert BucketOk(s, b);
    }
    assert forall o :: OnRootList(s'.heap, o) <==> OnRootList(s.heap, o) || o == u;
  }

  lemma CloseOpen(s: State, th: Ref, u: Ref, s': State)
    requires OpenUpvalsOk(s) && ClosedFirst(s, th, u, s')
    ensures OpenUpvalsOk(s')
  {
    WithoutOk(s.uvhead, u);
    assert OpenListOk(s.heap, th);
    OpenListDistinct(s.heap, th);
    RemoveAtOk(OpenList(s, th), 0);
    assert forall x :: IsOpen(s'.heap, x) <==> IsOpen(s.heap, x) && x != u;
    forall x | IsOpen(s'.heap, x)
      ensures UpValOk(s'.heap, x)
    {
      assert UpValOk(s.heap, x);
    }
    forall t | t in s'.heap && s'.heap[t].Thread?
      ensures OpenListOk(s'.heap, t)
    {
      assert OpenListOk(s.heap, t);
      if t == th {
        RemoveAtDescending(s.heap, th, 0);
      }
      FreeOpenListOk(s.heap, s'.heap, u, t, th);
    }
  }

  /** Closing an upvalue does not change what any object shows. */
  lemma CloseSameView(s: State, th: Ref, u: Ref, s': State, o: Ref)
    requires OpenUpvalsOk(s) && ClosedFirst(s, th, u, s') && o in s.heap
    ensures SameView(s.heap, s'.heap, o)
  {
    assert UpValOk(s.heap, u);
    if IsOpen(s.heap, o) { assert UpValOk(s.heap, o); }
  }

  /** Closing while sweeping. */
  lemma CloseSweepOk(s: State, th: Ref, u: Ref, s': State, gone: set<Ref>)
    requires SweepInv(s, gone) && u !in gone && ClosedFirst(s, th, u, s') && !IsDead(s, u)
    requires s'.marks == (if IsGray(s, u) then Paint(s.marks, u, White(s.currentwhite)) else s.marks)
    ensures SweepInv(s', gone) && Spares(s, s')
  {
    hide RootListOk, StringsOk, OpenUpvalsOk, LiveClosed, SweptOk, Spares;
    assert u in s.heap && s'.currentwhite == s.currentwhite;
    assert forall o :: o in s.heap ==> o in s'.marks.color && IsDead(s', o) == IsDead(s, o);
    hide ClosedFirst;
    CloseHeapOk(s, th, u, s', gone);
    CloseLive(s, th, u, s', gone);
    CloseSwept(s, th, u, s', gone);
  }

  lemma CloseLive(s: State, th: Ref, u: Ref, s': State, gone: set<Ref>)
    requires HeapOk(s, gone) && LiveClosed(s) && ClosedFirst(s, th, u, s')
    requires forall o :: o in s.heap ==> o in s'.marks.color && IsDead(s', o) == IsDead(s, o)
    ensures LiveClosed(s') && Spares(s, s')
  {
    assert s'.heap.Keys == s.heap.Keys;
    forall o | Live(s, o)
      ensures Live(s', o) && SameView(s.heap, s'.heap, o)
    {
      CloseSameView(s, th, u, s', o);
    }
    hide HeapOk;
    SparesLive(s, s');
  }

  lemma CloseSwept(s: State, th: Ref, u: Ref, s': State, gone: set<Ref>)
    requires HeapOk(s, gone) && SweptOk(s) && ClosedFirst(s, th, u, s') && !IsDead(s, u) && u !in gone
    requires s'.marks == (if IsGray(s, u) then Paint(s.marks, u, White(s.currentwhite)) else s.marks)
    ensures SweptOk(s')
  {
    hide RootListOk, StringsOk, OpenUpvalsOk, RemoveAt, Without, IsFresh, UpValue;
    assert forall x :: IsOpen(s'.heap, x) ==> IsOpen(s.heap, x) && x != u;
    forall k | 0 <= k < s'.sweepgc <= |s'.rootgc|
      ensures Swept(s', s'.rootgc[k])
    {
      if k == 0 {
        CloseFreshOne(s, th, u, s');
      } else {
        assert s'.rootgc[k] == s.rootgc[k - 1];
        CloseSweptOne(s, th, u, s', s.rootgc[k - 1]);
      }
    }
  }

  lemma CloseFreshOne(s: State, th: Ref, u: Ref, s': State)
    requires ClosedFirst(s, th, u, s') && !IsDead(s, u) && !IsBlack(s, u) && s.marks.color.Keys == s.heap.Keys
    requires s'.marks == (if IsGray(s, u) then Paint(s.marks, u, White(s.currentwhite)) else s.marks)
    ensures Swept(s', u)
  {
    hide RemoveAt, Without, UpValue;
  }

  lemma CloseSweptOne(s: State, th: Ref, u: Ref, s': State, o: Ref)
    requires ClosedFirst(s, th, u, s') && Swept(s, o)
    requires s'.marks == (if IsGray(s, u) then Paint(s.marks, u, White(s.currentwhite)) else s.marks)
    ensures Swept(s', o)
  {
    hide Without, UpValue;
    forall x | x in OpenList(s', o)
      ensures IsFresh(s', x)
    {
      assert x in OpenList(s, o);
    }
  }

  /** What closing the upvalues of a thread leaves alone. */
  ghost predicate SameButClosed(s: State, s': State, th: Ref) {
    && s' == s.(heap := s'.heap, marks := s'.marks, uvhead := s'.uvhead, rootgc := s'.rootgc, sweepgc := s'.sweepgc)
    && s'.heap.Keys <= s.heap.Keys
    && (forall o :: o in s.heap && (o == th || s.heap[o].Str?) ==>
      o in s'.heap && (IsDead(s', o) == IsDead(s, o)) && (IsFresh(s', o) == IsFresh(s, o)))
    && (th in s.heap && s.heap[th].Thread? ==> s'.heap[th].Thread?)
    && (forall o :: o in s'.heap ==> o in s.heap && s.heap[o].Str? == s'.heap[o].Str?)
    && |s'.rootgc| - s'.sweepgc + |s'.uvhead| <= |s.rootgc| - s.sweepgc + |s.uvhead|
  }

  lemma SameButClosedTransitive(a: State, b: State, c: State, th: Ref)
    requires SameButClosed(a, b, th) && SameButClosed(b, c, th)
    ensures SameButClosed(a, c, th)
  {
  }

  ghost function CloseRound(s: State, th: Ref): State
    requires |OpenList(s, th)| > 0
  {
    var u := OpenList(s, th)[0];
    var s1 := DropOpen(s, th, 0);
    if IsDead(s, u) then FreeUpVal(s1, u) else if IsOpen(s1.heap, u) then LinkUpVal(CloseOne(s1, u), u) else s1
  }

  lemma CloseRoundOk(s: State, th: Ref, gone: set<Ref>)
    requires SweepInv(s, gone) && s.gcstate != Propagate && (forall g :: g in gone ==> g == th)
    requires |OpenList(s, th)| > 0
    ensures SweepInv(CloseRound(s, th), gone) && Spares(s, CloseRound(s, th))
    ensures SameButClosed(s, CloseRound(s, th), th)
    ensures |OpenList(CloseRound(s, th), th)| == |OpenList(s, th)| - 1
  {
    hide RootListOk, StringsOk, OpenUpvalsOk, LiveClosed, SweptOk, Spares, SameButClosed;
    var u, s1 := OpenList(s, th)[0], CloseRound(s, th);
    OpenListed(s, th, 0, gone);
    CloseFirstShape(s, th, gone);
    CloseRoundSame(s, th, gone);
    if IsDead(s, u) {
      FreeOpenShape(s, th, 0, gone);
      FreeOpenOk(s, th, 0, s1, gone);
    } else {
      CloseSweepOk(s, th, u, s1, gone);
    }
  }

  lemma CloseRoundSame(s: State, th: Ref, gone: set<Ref>)
    requires HeapOk(s, gone) && s.gcstate != Propagate && |OpenList(s, th)| > 0
    ensures SameButClosed(s, CloseRound(s, th), th)
    ensures |OpenList(CloseRound(s, th), th)| == |OpenList(s, th)| - 1
  {
    var u, s1 := OpenList(s, th)[0], CloseRound(s, th);
    OpenListed(s, th, 0, gone);
    CloseFirstShape(s, th, gone);
    FreeOpenShape(s, th, 0, gone);
    WithoutOk(s.uvhead, u);
    assert u in s.uvhead;
    hide HeapOk;
    if IsDead(s, u) {
      FreedSame(s, th, u, s1);
    } else {
      hide OpenFreed;
      ClosedSame(s, th, u, s1);
    }
  }

  lemma FreedSame(s: State, th: Ref, u: Ref, s': State)
    requires OpenFreed(s, th, 0, s') && OpenList(s, th)[0] == u && OpenIn(s.heap, u, th)
    requires |Without(s.uvhead, u)| == |s.uvhead| - 1
    ensures SameButClosed(s, s', th) && |OpenList(s', th)| == |OpenList(s, th)| - 1
  {
  }

  lemma ClosedSame(s: State, th: Ref, u: Ref, s': State)
    requires ClosedFirst(s, th, u, s') && |Without(s.uvhead, u)| == |s.uvhead| - 1
    requires s'.marks == (if IsGray(s, u) then Paint(s.marks, u, White(s.currentwhite)) else s.marks)
    ensures SameButClosed(s, s', th) && |OpenList(s', th)| == |OpenList(s, th)| - 1
  {
  }

  /** Closing upvalues while sweeping frees the dead ones and keeps the others. */
  lemma {:induction false} CloseUpvalsSweepOk(s: State, th: Ref, level: nat, gone: set<Ref>)
    requires SweepInv(s, gone) && s.gcstate != Propagate && (forall g :: g in gone ==> g == th)
    requires th in s.heap && s.heap[th].Thread?
    ensures var s' := CloseUpvals(s, th, level); SweepInv(s', gone) && Spares(s, s') && SameButClosed(s, s', th)
    ensures level == 0 ==> OpenList(CloseUpvals(s, th, level), th) == []
    decreases |OpenList(s, th)|
  {
    hide HeapOk, LiveClosed, SweptOk, Spares;
    SameState(s, th);
    if |OpenList(s, th)| > 0 {
      var u := OpenList(s, th)[0];
      OpenListed(s, th, 0, gone);
      CloseFirstShape(s, th, gone);
      if s.heap[u].v.level >= level {
        var s1 := CloseRound(s, th);
        CloseRoundOk(s, th, gone);
        CloseUpvalsSweepOk(s1, th, level, gone);
        hide SweepInv, SameButClosed;
        assert CloseUpvals(s, th, level) == CloseUpvals(s1, th, level);
        SparesTransitive(s, s1, CloseUpvals(s, th, level));
        SameButClosedTransitive(s, s1, CloseUpvals(s, th, level), th);
      }
    }
  }

  // ----- sweeping one object of rootgc -----

  ghost predicate BucketsSwept(s: State) {
    forall b :: 0 <= b < |s.strt| ==> BucketSwept(s, b)
  }

  /** What is left to sweep. Closing an upvalue may put it in front of the sweep. */
  function SweepLeft(s: State): int {
    |s.rootgc| - s.sweepgc + |s.uvhead|
  }

  /** What a round of `sweeplist` on `rootgc` changes. */
  ghost predicate SweepRound(s: State, s': State) {
    && s' == s.(heap := s'.heap, marks := s'.marks, uvhead := s'.uvhead, rootgc := s'.rootgc, sweepgc := s'.sweepgc)
    && (forall o :: o in s.heap && s.heap[o].Str? ==>
      o in s'.heap && s'.heap[o].Str? && IsFresh(s', o) == IsFresh(s, o))
  }

  lemma BucketsKept(s: State, s': State, gone: set<Ref>)
    requires HeapOk(s, gone) && BucketsSwept(s) && SweepRound(s, s')
    ensures BucketsSwept(s')
  {
    forall b | 0 <= b < |s'.strt|
      ensures BucketSwept(s', b)
    {
      assert BucketOk(s, b) && BucketSwept(s, b);
    }
  }

  /** Only the lists of the sweep or the phase have changed. */
  ghost predicate SameObjects(s: State, s': State) {
    s' == s.(rootgc := s'.rootgc, sweepgc := s'.sweepgc, sweepstrgc := s'.sweepstrgc, gcstate := s'.gcstate)
  }

  lemma SameObjectsOk(s: State, s': State)
    requires SameObjects(s, s') && StringsOk(s) && OpenUpvalsOk(s) && LiveClosed(s)
    ensures StringsOk(s') && OpenUpvalsOk(s') && LiveClosed(s') && Spares(s, s')
  {
    forall b | 0 <= b < |s'.strt|
      ensures BucketOk(s', b)
    {
      assert BucketOk(s, b);
    }
    forall o | Live(s', o)
      ensures RefsLive(s', o)
    {
      assert RefsLive(s, o);
    }
    assert Roots(s') == Roots(s);
  }

  lemma PassOk(s: State, o: Ref)
    requires SweepInv(s, {}) && s.sweepgc < |s.rootgc| && s.rootgc[s.sweepgc] == o && Swept(s, o)
    ensures SweepInv(s.(sweepgc := s.sweepgc + 1), {}) && Spares(s, s.(sweepgc := s.sweepgc + 1))
  {
    var s' := s.(sweepgc := s.sweepgc + 1);
    PassSwept(s, s');
    hide SweptOk, StringsOk, OpenUpvalsOk, LiveClosed, Spares;
    SameObjectsOk(s, s');
  }

  lemma PassSwept(s: State, s': State)
    requires SweptOk(s) && SameObjects(s, s') && s'.sweepgc <= |s'.rootgc|
    requires forall i :: 0 <= i < s'.sweepgc ==> Swept(s, s'.rootgc[i])
    ensures SweptOk(s')
  {
    forall i | 0 <= i < s'.sweepgc
      ensures Swept(s', s'.rootgc[i])
    {
      assert Swept(s, s'.rootgc[i]);
      forall u | u in OpenList(s', s'.rootgc[i])
        ensures IsFresh(s', u)
      {
        assert u in OpenList(s, s'.rootgc[i]);
      }
    }
  }

  lemma UnlinkOk(s: State, i: nat)
    requires SweepInv(s, {}) && i == s.sweepgc < |s.rootgc|
    ensures SweepInv(s.(rootgc := RemoveAt(s.rootgc, i)), {s.rootgc[i]})
    ensures Spares(s, s.(rootgc := RemoveAt(s.rootgc, i)))
  {
    hide StringsOk, OpenUpvalsOk, LiveClosed, Spares, SweptOk, RootListOk;
    var s' := s.(rootgc := RemoveAt(s.rootgc, i));
    UnlinkLists(s, i);
    SameObjectsOk(s, s');
  }

  lemma UnlinkLists(s: State, i: nat)
    requires RootListOk(s, {}) && SweptOk(s) && i == s.sweepgc < |s.rootgc|
    ensures RootListOk(s.(rootgc := RemoveAt(s.rootgc, i)), {s.rootgc[i]})
    ensures SweptOk(s.(rootgc := RemoveAt(s.rootgc, i)))
  {
    var s' := s.(rootgc := RemoveAt(s.rootgc, i));
    RemoveAtOk(s.rootgc, i);
    forall k | 0 <= k < i
      ensures Swept(s, s'.rootgc[k])
    {
      assert s.rootgc[k] == s'.rootgc[k];
    }
    PassSwept(s, s');
  }

  lemma ReleaseOk(s: State, o: Ref)
    requires SweepInv(s, {o}) && OnRootList(s.heap, o) && IsDead(s, o) && o !in s.fixed && OpenList(s, o) == []
    ensures SweepInv(Release(s, o), {}) && Spares(s, Release(s, o))
  {
    hide RootListOk, StringsOk, OpenUpvalsOk, LiveClosed, SweptOk, Spares;
    ReleaseLists(s, o);
    ReleaseOpen(s, o);
    ThreadsLive(s);
    ReleaseLive(s, o);
    ReleaseSwept(s, o);
  }

  lemma ReleaseLists(s: State, o: Ref)
    requires RootListOk(s, {o}) && StringsOk(s) && OnRootList(s.heap, o)
    ensures RootListOk(Release(s, o), {}) && StringsOk(Release(s, o))
  {
    var s' := Release(s, o);
    forall b | 0 <= b < |s'.strt|
      ensures BucketOk(s', b)
    {
      assert BucketOk(s, b);
    }
    assert forall x :: OnRootList(s'.heap, x) <==> OnRootList(s.heap, x) && x != o;
  }

  lemma ReleaseOpen(s: State, o: Ref)
    requires OpenUpvalsOk(s) && OnRootList(s.heap, o) && OpenList(s, o) == []
    ensures OpenUpvalsOk(Release(s, o))
  {
    var s' := Release(s, o);
    assert forall x :: IsOpen(s'.heap, x) <==> IsOpen(s.heap, x);
    forall u | IsOpen(s'.heap, u)
      ensures UpValOk(s'.heap, u)
    {
      assert UpValOk(s.heap, u);
    }
    forall t | t in s'.heap && s'.heap[t].Thread?
      ensures OpenListOk(s'.heap, t)
    {
      assert OpenListOk(s.heap, t);
      assert forall u :: OpenIn(s'.heap, u, t) <==> OpenIn(s.heap, u, t);
    }
  }

  lemma ReleaseLive(s: State, o: Ref)
    requires OpenUpvalsOk(s) && LiveClosed(s) && IsDead(s, o) && OpenList(s, o) == []
    ensures LiveClosed(Release(s, o)) && Spares(s, Release(s, o))
  {
    var s' := Release(s, o);
    forall x | Live(s, x)
      ensures Live(s', x) && SameView(s.heap, s'.heap, x)
    {
      if IsOpen(s.heap, x) { assert UpValOk(s.heap, x); }
    }
    hide OpenUpvalsOk;
    SparesLive(s, s');
  }

  lemma ReleaseSwept(s: State, o: Ref)
    requires SweptOk(s) && IsDead(s, o) && OnRootList(s.heap, o)
    ensures SweptOk(Release(s, o))
  {
    var s' := Release(s, o);
    assert forall x :: IsOpen(s'.heap, x) ==> IsOpen(s.heap, x) && x != o;
    forall k | 0 <= k < s'.sweepgc <= |s'.rootgc|
      ensures Swept(s', s'.rootgc[k])
    {
      assert Swept(s, s.rootgc[k]);
      forall u | u in OpenList(s', s'.rootgc[k])
        ensures IsFresh(s', u)
      {
        assert u in OpenList(s, s.rootgc[k]);
      }
    }
  }

  /** An object that survives is whitened and passed. */
  lemma SurvivorPassed(s: State, o: Ref)
    requires SweepInv(s, {}) && s.sweepgc < |s.rootgc| && s.rootgc[s.sweepgc] == o && Survives(s, o)
    requires PrefixFresh(s, o, |OpenList(s, o)|)
    ensures SweepInv(PassOrFree(s, o), {}) && Spares(s, PassOrFree(s, o))
    ensures SweepRound(s, PassOrFree(s, o)) && SweepLeft(PassOrFree(s, o)) < SweepLeft(s)
  {
    hide RootListOk, StringsOk, OpenUpvalsOk, LiveClosed, SweptOk, Spares;
    RootListed(s, o, {});
    var s1 := MakeWhite(s, o);
    WhitenOk(s, o, {});
    PassOk(s1, o);
    SparesTransitive(s, s1, PassOrFree(s, o));
  }

  /** A dead object is unlinked and freed. */
  lemma DeadFreed(s: State, o: Ref)
    requires SweepInv(s, {}) && s.sweepgc < |s.rootgc| && s.rootgc[s.sweepgc] == o && !Survives(s, o)
    requires s.gcstate == Sweep
    ensures SweepInv(PassOrFree(s, o), {}) && Spares(s, PassOrFree(s, o))
    ensures SweepRound(s, PassOrFree(s, o)) && SweepLeft(PassOrFree(s, o)) < SweepLeft(s)
  {
    hide RootListOk, StringsOk, OpenUpvalsOk, LiveClosed, SweptOk, Spares;
    RootListed(s, o, {});
    hide HeapOk;
    var s1 := s.(rootgc := RemoveAt(s.rootgc, s.sweepgc));
    UnlinkOk(s, s.sweepgc);
    FreeObjOk(s1, o);
    SparesTransitive(s, s1, PassOrFree(s, o));
  }

  /** One round of `sweeplist` on `rootgc`. */
  lemma SweepOneOk(s: State)
    requires SweepInv(s, {}) && s.gcstate == Sweep && s.sweepgc < |s.rootgc|
    ensures SweepInv(SweepOne(s), {}) && Spares(s, SweepOne(s))
    ensures SweepRound(s, SweepOne(s)) && SweepLeft(SweepOne(s)) < SweepLeft(s)
  {
    hide HeapOk, LiveClosed, SweptOk, Spares, PassOrFree;
    var o := s.rootgc[s.sweepgc];
    var s1 := SweepOpen(s, o, 0);
    SweepOpenOk(s, o, 0);
    if Survives(s1, o) { SurvivorPassed(s1, o); } else { DeadFreed(s1, o); }
    SparesTransitive(s, s1, SweepOne(s));
  }

  lemma RootListed(s: State, o: Ref, gone: set<Ref>)
    requires HeapOk(s, gone) && o in s.rootgc
    ensures OnRootList(s.heap, o) && o in s.marks.color && o !in gone
  {
  }

  lemma FreeObjOk(s: State, o: Ref)
    requires SweepInv(s, {o}) && s.gcstate == Sweep && OnRootList(s.heap, o) && IsDead(s, o) && o !in s.fixed
    ensures SweepInv(FreeObj(s, o), {}) && Spares(s, FreeObj(s, o)) && SweepRound(s, FreeObj(s, o))
    ensures SweepLeft(FreeObj(s, o)) <= SweepLeft(s)
  {
    hide RootListOk, StringsOk, OpenUpvalsOk, LiveClosed, SweptOk, Spares;
    if s.heap[o].Thread? {
      var s1 := CloseUpvals(s, o, 0);
      CloseUpvalsSweepOk(s, o, 0, {o});
      ReleaseOk(s1, o);
      SparesTransitive(s, s1, FreeObj(s, o));
    } else {
      ReleaseOk(s, o);
    }
  }

  lemma {:induction false} SweepListOk(s: State, count: nat)
    requires SweepInv(s, {}) && s.gcstate == Sweep
    ensures SweepInv(SweepList(s, count), {}) && Spares(s, SweepList(s, count)) && SweepRound(s, SweepList(s, count))
    ensures SweepLeft(SweepList(s, count)) <= SweepLeft(s)
    ensures count > 0 && s.sweepgc < |s.rootgc| ==> SweepLeft(SweepList(s, count)) < SweepLeft(s)
    decreases count
  {
    hide SweepInv, Spares;
    SameState(s, 0);
    if count > 0 && s.sweepgc < |s.rootgc| {
      SweepOneOk(s);
      SweepListOk(SweepOne(s), count - 1);
      SparesTransitive(s, SweepOne(s), SweepList(s, count));
    }
  }

  // ----- the steps of the collector -----

  /** What a collector step guarantees the program: each reachable object is
      still there, and shows the contents it had. */
  ghost predicate KeepsReachable(s: State, s': State) {
    && s'.mainthread == s.mainthread && s'.running == s.running
    && s'.registry == s.registry && s'.mt == s.mt && s'.fixed == s.fixed
    && forall o :: Reachable(s.heap, Roots(s), o) ==> SameView(s.heap, s'.heap, o)
  }

  /** A reachable object is never one the sweep will collect. */
  lemma ReachableLive(s: State, o: Ref)
    requires LiveClosed(s) && Reachable(s.heap, Roots(s), o)
    ensures Live(s, o)
  {
    var alive := set x | x in s.heap && Live(s, x);
    forall x, r | x in alive && PointsTo(s.heap, x, r)
      ensures r in alive
    {
      assert RefsLive(s, x);
    }
    ReachableInside(s.heap, Roots(s), alive, o);
  }

  lemma SparesKeeps(s: State, s': State)
    requires LiveClosed(s) && Spares(s, s')
    ensures KeepsReachable(s, s')
  {
    forall o | Reachable(s.heap, Roots(s), o)
      ensures SameView(s.heap, s'.heap, o)
    {
      ReachableLive(s, o);
    }
  }

  lemma NothingDangles(s: State)
    requires LiveClosed(s) && s.marks.color.Keys == s.heap.Keys && forall o :: o in s.heap ==> !IsDead(s, o)
    ensures NoDangling(s.heap)
  {
    forall o, r | PointsTo(s.heap, o, r)
      ensures r in s.heap
    {
      assert Live(s, o) && RefsLive(s, o);
    }
  }

  lemma MarkRootStepOk(s: State)
    requires HeapOk(s, {}) && LiveClosed(s) && AllFresh(s)
    ensures Inv(MarkRootStep(s)) && Spares(s, MarkRootStep(s))
  {
    hide RootListOk, StringsOk, OpenUpvalsOk, MarkOk;
    var s' := MarkRootStep(s);
    NothingDangles(s);
    MarkRootOk(s.heap, s.marks.color, s.mainthread, s.registry, s.mt);
    RootsAllocated(s);
    assert s'.marks.color.Keys == s.heap.Keys;
    GrowLive(s, s');
    RecolorHeapOk(s.(gcstate := Propagate), s', {}) by { SameObjectsHeapOk(s, s.(gcstate := Propagate)); }
  }

  lemma SameObjectsHeapOk(s: State, s': State)
    requires HeapOk(s, {}) && s' == s.(gcstate := s'.gcstate)
    ensures HeapOk(s', {})
  {
    forall b | 0 <= b < |s'.strt|
      ensures BucketOk(s', b)
    {
      assert BucketOk(s, b);
    }
  }

  lemma RootsAllocated(s: State)
    requires LiveClosed(s)
    ensures s.registry.Obj? ==> s.registry.ref in s.heap
    ensures s.mainthread in s.heap && s.running in s.heap && forall r :: Some(r) in s.mt ==> r in s.heap
  {
    assert s.registry.Obj? ==> s.registry.ref in Roots(s);
    assert s.mainthread in Roots(s) && s.running in Roots(s);
    forall r | Some(r) in s.mt
      ensures r in s.heap
    {
      assert Some(r).value in Roots(s);
    }
  }

  /** Marking while nothing is dead kills nothing. */
  lemma GrowLive(s: State, s': State)
    requires LiveClosed(s) && s' == s.(marks := s'.marks, gcstate := s'.gcstate)
    requires s.marks.color.Keys == s.heap.Keys == s'.marks.color.Keys
    requires forall o :: IsWhite(s'.marks, o) ==> IsWhite(s.marks, o) && s'.marks.color[o] == s.marks.color[o]
    requires forall o :: o in s.heap ==> !IsDead(s, o)
    ensures LiveClosed(s') && Spares(s, s') && forall o :: o in s'.heap ==> !IsDead(s', o)
  {
    assert forall o :: o in s.heap ==> Live(s', o) && Live(s, o);
    SparesLive(s, s');
  }

  lemma PropagateStepOk(s: State)
    requires Inv(s) && s.gcstate == Propagate && s.marks.gray != []
    ensures Inv(SingleStep(s)) && Spares(s, SingleStep(s))
  {
    var s' := s.(marks := PropagateMark(s.heap, s.marks));
    PropagateMarkOk(s.heap, s.marks, Running);
    assert s.marks.gray[0] in s.heap;
    assert s.marks.color.Keys == s.heap.Keys == s'.marks.color.Keys;
    GrowLive(s, s');
    RecolorHeapOk(s, s', {});
  }

  /** After the atomic step the marked objects are the live ones. */
  lemma AtomicStepOk(s: State)
    requires Inv(s) && s.gcstate == Propagate && s.marks.gray == []
    ensures Inv(AtomicStep(s)) && KeepsReachable(s, AtomicStep(s))
    ensures forall o :: Live(AtomicStep(s), o) <==> Marked(AtomicStep(s).marks, o)
  {
    hide RootListOk, StringsOk, OpenUpvalsOk, MarkOk, MarkComplete, LiveClosed, ListsOk, Grows, PhaseOk;
    var s' := AtomicStep(s);
    AtomicRoots(s);
    AtomicLive(s, s'.marks);
    AtomicHeapOk(s, s'.marks);
    forall o | Reachable(s.heap, Roots(s), o)
      ensures SameView(s.heap, s'.heap, o)
    {
      ReachableLive(s, o);
    }
  }

  lemma AtomicRoots(s: State)
    requires Inv(s) && s.gcstate == Propagate && s.marks.gray == []
    ensures var m := AtomicStep(s).marks;
      && MarkComplete(s.heap, m) && ListsOk(s.heap, m, {}) && Grows(s.marks, m)
      && (forall r :: r in Roots(s) ==> Marked(m, r))
      && s.marks.color.Keys == m.color.Keys == s.heap.Keys && (forall o :: o in s.heap ==> !IsDead(s, o))
  {
    hide RootListOk, StringsOk, LiveClosed, MarkComplete, ListsOk, AtomicMarks;
    RootsAllocated(s);
    AtomicMarksOk(s.heap, s.marks, s.uvhead, s.running, s.mt);
    hide *;
    AtomicRootsMarked(s, AtomicStep(s).marks);
  }

  lemma AtomicRootsMarked(s: State, m: Marks)
    requires Marked(m, s.mainthread) && Marked(m, s.running) && (s.registry.Obj? ==> Marked(m, s.registry.ref))
    requires forall r :: Some(r) in s.mt ==> Marked(m, r)
    ensures forall r :: r in Roots(s) ==> Marked(m, r)
  {
    forall r | r in Roots(s)
      ensures Marked(m, r)
    {
      if r != s.mainthread && r != s.running && s.registry != Obj(r) { assert Some(r) in s.mt; }
    }
  }

  /** The state when the atomic step hands a finished marking to the sweep. */
  function Flip(s: State, m: Marks): State {
    s.(marks := m, currentwhite := !s.currentwhite, sweepstrgc := 0, sweepgc := 0, gcstate := SweepString)
  }

  lemma AtomicLive(s: State, m: Marks)
    requires s.marks.color.Keys == s.heap.Keys && (forall o :: o in s.heap ==> !IsDead(s, o))
    requires MarkComplete(s.heap, m) && Grows(s.marks, m)
    requires forall r :: r in Roots(s) ==> Marked(m, r)
    ensures LiveClosed(Flip(s, m)) && forall o :: Live(Flip(s, m), o) <==> Marked(m, o)
  {
    var s' := Flip(s, m);
    assert Roots(s') == Roots(s);
    forall o
      ensures Live(s', o) <==> Marked(m, o)
    {
      if IsWhite(m, o) { assert !IsDead(s, o); }
    }
    forall o | Live(s', o)
      ensures RefsLive(s', o)
    {
      assert RefsMarked(s.heap, m, o);
    }
  }

  lemma FlipRoots(s: State, m: Marks)
    requires RootListOk(s, {})
    ensures RootListOk(Flip(s, m), {})
  {
  }

  lemma FlipOpen(s: State, m: Marks)
    requires OpenUpvalsOk(s)
    ensures OpenUpvalsOk(Flip(s, m))
  {
  }

  lemma FlipStrings(s: State, m: Marks)
    requires StringsOk(s)
    ensures StringsOk(Flip(s, m))
  {
    forall b | 0 <= b < |s.strt|
      ensures BucketOk(Flip(s, m), b)
    {
      assert BucketOk(s, b);
    }
  }

  lemma AtomicHeapOk(s: State, m: Marks)
    requires HeapOk(s, {}) && m.color.Keys == s.heap.Keys && ListsOk(s.heap, m, {})
    ensures HeapOk(Flip(s, m), {}) && PhaseOk(Flip(s, m))
  {
    FlipStarts(s, m);
    hide RootListOk, StringsOk, OpenUpvalsOk, ListsOk, SweptOk;
    FlipRoots(s, m);
    FlipOpen(s, m);
    FlipStrings(s, m);
  }

  /** Nothing has been swept yet. */
  lemma FlipStarts(s: State, m: Marks)
    requires StringsOk(s) && m.color.Keys == s.heap.Keys && ListsOk(s.heap, m, {})
    ensures SweptOk(Flip(s, m)) && 0 < |s.strt|
  {
  }

  lemma SweepStringStepOk(s: State)
    requires Inv(s) && s.gcstate == SweepString
    ensures Inv(SingleStep(s)) && Spares(s, SingleStep(s))
  {
    hide HeapOk, LiveClosed, SweptOk, Spares;
    var b := s.sweepstrgc;
    var s1 := SweepBucket(s, b, 0);
    SweepBucketOk(s, b, 0);
    var s2 := SingleStep(s);
    RephaseOk(s1, s2);
    SparesTransitive(s, s1, s2);
    hide SweepInv;
    forall k | 0 <= k < s2.sweepstrgc <= |s2.strt|
      ensures BucketSwept(s2, k)
    {
      assert BucketSwept(s1, k);
    }
  }

  /** Moving on to another phase. */
  lemma RephaseOk(s: State, s': State)
    requires SweepInv(s, {}) && s' == s.(gcstate := s'.gcstate, sweepstrgc := s'.sweepstrgc)
    ensures SweepInv(s', {}) && Spares(s, s')
  {
    hide RootListOk, StringsOk, OpenUpvalsOk, LiveClosed, SweptOk, Spares;
    SameObjectsOk(s, s');
    RootsKept(s, s');
  }

  lemma RootsKept(s: State, s': State)
    requires RootListOk(s, {}) && SweptOk(s) && s' == s.(gcstate := s'.gcstate, sweepstrgc := s'.sweepstrgc)
    ensures RootListOk(s', {}) && SweptOk(s')
  {
    forall i | 0 <= i < s'.sweepgc <= |s'.rootgc|
      ensures Swept(s, s'.rootgc[i])
    {
      assert Swept(s, s.rootgc[i]);
    }
    if s'.sweepgc <= |s'.rootgc| { PassSwept(s, s'); }
  }

  /** When the sweep has passed everything, every object has the current white. */
  lemma SweptAllFresh(s: State)
    requires SweepInv(s, {}) && BucketsSwept(s) && s.sweepgc == |s.rootgc|
    ensures AllFresh(s)
  {
    forall o | o in s.heap
      ensures IsFresh(s, o)
    {
      if s.heap[o].Str? {
        assert BucketSwept(s, s.heap[o].hash % |s.strt|);
      } else if IsOpen(s.heap, o) {
        assert UpValOk(s.heap, o);
        var th := s.heap[o].v.thread;
        assert th in s.rootgc;
        var i :| 0 <= i < |s.rootgc| && s.rootgc[i] == th;
        assert Swept(s, s.rootgc[i]) && o in OpenList(s, th);
      } else {
        assert o in s.rootgc;
        var i :| 0 <= i < |s.rootgc| && s.rootgc[i] == o;
        assert Swept(s, s.rootgc[i]);
      }
    }
  }

  lemma SweepStepOk(s: State)
    requires Inv(s) && s.gcstate == Sweep
    ensures Inv(SingleStep(s)) && Spares(s, SingleStep(s))
    ensures SingleStep(s).gcstate == Sweep || SingleStep(s).gcstate == Finalize
    ensures SingleStep(s).gcstate == Sweep ==> SweepLeft(SingleStep(s)) < SweepLeft(s)
  {
    hide RootListOk, StringsOk, OpenUpvalsOk, LiveClosed, Spares;
    var s1, s2 := SweepList(s, GCSWEEPMAX), SingleStep(s);
    SweepListOk(s, GCSWEEPMAX);
    BucketsKept(s, s1, {});
    RootListBound(s1);
    if s1.sweepgc >= |s1.rootgc| {
      SweptAllFresh(s1);
      RephaseOk(s1, s2);
      SparesTransitive(s, s1, s2);
    }
  }

  lemma RootListBound(s: State)
    requires RootListOk(s, {})
    ensures s.sweepgc <= |s.rootgc|
  {
  }

  /** Every step of the collector, in every state, keeps the invariant and takes
      nothing from the program. */
  lemma SingleStepOk(s: State)
    requires Inv(s)
    ensures Inv(SingleStep(s)) && KeepsReachable(s, SingleStep(s))
  {
    hide HeapOk, PhaseOk, LiveClosed, Spares, KeepsReachable;
    match s.gcstate
    case Pause =>
      PauseStepOk(s);
      SparesKeeps(s, SingleStep(s));
    case Propagate =>
      GrayAllocated(s);
      if s.marks.gray != [] {
        PropagateStepOk(s);
        SparesKeeps(s, SingleStep(s));
      } else {
        AtomicStepOk(s);
      }
    case SweepString =>
      SweepStringStepOk(s);
      SparesKeeps(s, SingleStep(s));
    case Sweep =>
      SweepStepOk(s);
      SparesKeeps(s, SingleStep(s));
    case Finalize =>
      FinalizeStepOk(s);
      SparesKeeps(s, SingleStep(s));
  }

  lemma PauseStepOk(s: State)
    requires Inv(s) && s.gcstate == Pause
    ensures Inv(SingleStep(s)) && Spares(s, SingleStep(s))
  {
    hide HeapOk, LiveClosed, Spares;
    MarkRootStepOk(s);
  }

  lemma GrayAllocated(s: State)
    requires Inv(s) && s.gcstate == Propagate
    ensures s.marks.gray != [] ==> s.marks.gray[0] in s.heap
  {
    if s.marks.gray != [] { assert s.marks.gray[0] in s.marks.gray; }
  }

  lemma FinalizeStepOk(s: State)
    requires Inv(s) && s.gcstate == Finalize
    ensures Inv(SingleStep(s)) && Spares(s, SingleStep(s))
  {
    var s' := SingleStep(s);
    assert AllFresh(s');
    hide AllFresh, RootListOk, StringsOk, OpenUpvalsOk, LiveClosed, Spares;
    SameObjectsOk(s, s');
    RootListFrame(s, s');
  }

  lemma RootListFrame(s: State, s': State)
    requires RootListOk(s, {}) && s' == s.(gcstate := s'.gcstate)
    ensures RootListOk(s', {})
  {
  }
}
