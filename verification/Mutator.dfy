/** What a running program does to the heap between collector steps: allocation,
    stores with their barriers, stack writes without one, upvalues
    (lua-5.1/lgc.c:658-706, lua-5.1/lfunc.c:53-112, lua-5.1/lstring.c:50-110, lua-5.1/lvm.c). */
module Mutator {
  import opened LuaObjects
  import opened Marking
  import opened Collector
  import opened CollectorInvariant

  datatype Op =
    | CollectorStep
    | NewObject(o: Ref, body: Object)
    | NewUdata(o: Ref, body: Object)
    | NewString(o: Ref, hash: nat)
    | FindString(o: Ref)
    | FindUpVal(th: Ref, level: nat, o: Ref)
    | Close(th: Ref, level: nat)
    | SetStack(th: Ref, gt: Value, stack: seq<Value>, v: Value)
    | SetUpVal(uv: Ref, v: Value)
    | Store(o: Ref, body: Object, v: Value)
    | TableStore(o: Ref, body: Object, key: Value, v: Value)
    | SetBasicMetatables(mt: seq<Option<Ref>>)
    | SwitchThread(th: Ref)
    | SetRegistry(v: Value)
    | FixString(o: Ref)

  // ----- the operations -----

  /** A new object is white. */
  function Allocate(s: State, o: Ref, body: Object): State {
    s.(heap := s.heap[o := body], marks := Paint(s.marks, o, White(s.currentwhite)))
  }

  /** The position of `x`, or the length of the list. */
  function IndexOf(q: seq<Ref>, x: Ref): (i: nat)
    ensures i <= |q| && (x in q ==> i < |q| && q[i] == x)
  {
    if q == [] || q[0] == x then 0 else 1 + IndexOf(q[1..], x)
  }

  /** `luaS_newudata`: userdata go behind the main thread. */
  function LinkUdata(s: State, o: Ref): State {
    var i := IndexOf(s.rootgc, s.mainthread);
    if i == |s.rootgc| then s
    else s.(rootgc := s.rootgc[..i+1] + [o] + s.rootgc[i+1..], sweepgc := if s.sweepgc > i + 1
        then s.sweepgc + 1 else s.sweepgc)
  }

  /** `newlstr`. */
  function LinkString(s: State, o: Ref, hash: nat): State {
    if |s.strt| == 0 then s
    else s.(strt := s.strt[hash % |s.strt| := [o] + s.strt[hash % |s.strt|]])
  }

  /** `changewhite` on a dead object: it is alive again. */
  function Resurrect(s: State, o: Ref): State {
    if IsDead(s, o) then MakeWhite(s, o) else s
  }

  /** How many upvalues of an open list stand above `level`. */
  function OpenAbove(h: Heap, open: seq<Ref>, level: nat): (i: nat)
    ensures i <= |open|
  {
    if open == [] || !IsOpen(h, open[0]) || h[open[0]].v.level <= level then 0
    else 1 + OpenAbove(h, open[1..], level)
  }

  predicate HasOpen(s: State, th: Ref, level: nat) {
    var open := OpenList(s, th);
    var i := OpenAbove(s.heap, open, level);
    i < |open| && IsOpen(s.heap, open[i]) && s.heap[open[i]].v.level == level
  }

  /** `luaF_findupval`: the upvalue open for a slot, or a new one. */
  function FoundUpVal(s: State, th: Ref, level: nat, o: Ref): Ref {
    if HasOpen(s, th, level) then OpenList(s, th)[OpenAbove(s.heap, OpenList(s, th), level)] else o
  }

  function FindOrMakeUpVal(s: State, th: Ref, level: nat, o: Ref): State
    requires th in s.heap && s.heap[th].Thread?
  {
    var open := OpenList(s, th);
    var i := OpenAbove(s.heap, open, level);
    if HasOpen(s, th, level) then Resurrect(s, open[i])
    else
      var s1 := Allocate(s, o, UpVal(Open(th, level)));
      s1.(heap := s1.heap[th := s.heap[th].(openupval := open[..i] + [o] + open[i..])], uvhead := [o] + s.uvhead)
  }

  /** Writes through an upvalue: into the stack slot or into the upvalue itself. */
  function WriteUpVal(s: State, uv: Ref, v: Value): State
    requires uv in s.heap && s.heap[uv].UpVal?
  {
    match s.heap[uv].v
    case Closed(_) => Barrier(s.(heap := s.heap[uv := UpVal(Closed(v))]), uv, v)
    case Open(th, level) =>
      if th in s.heap && s.heap[th].Thread? && level < |s.heap[th].stack| then
        Barrier(s.(heap := s.heap[th := s.heap[th].(stack := s.heap[th].stack[level := v])]), uv, v)
      else s
  }

  function Do(s: State, op: Op): State
    requires Enabled(s, op)
  {
    match op
    case CollectorStep => SingleStep(s)
    case NewObject(o, body) => Link(Allocate(s, o, body), o)
    case NewUdata(o, body) => LinkUdata(Allocate(s, o, body), o)
    case NewString(o, hash) => LinkString(Allocate(s, o, Str(hash)), o, hash)
    case FindString(o) => Resurrect(s, o)
    case FindUpVal(th, level, o) => FindOrMakeUpVal(s, th, level, o)
    case Close(th, level) => CloseUpvals(s, th, level)
    case SetStack(th, gt, stack, _) => s.(heap := s.heap[th := s.heap[th].(gt := gt, stack := stack)])
    case SetUpVal(uv, v) => WriteUpVal(s, uv, v)
    case Store(o, body, v) => Barrier(s.(heap := s.heap[o := body]), o, v)
    case TableStore(o, body, key, v) => BarrierT(BarrierT(s.(heap := s.heap[o := body]), o, key), o, v)
    case SetBasicMetatables(mt) => s.(mt := mt)
    case SwitchThread(th) => s.(running := th)
    case SetRegistry(v) => s.(registry := v)
    case FixString(o) => s.(fixed := s.fixed + {o})
  }

  // ----- when a program can do them -----

  predicate ValueLive(s: State, v: Value) {
    v.Obj? ==> Live(s, v.ref)
  }

  predicate SameKind(a: Object, b: Object) {
    match a
    case Str(_) => b.Str?
    case Udata(_, _) => b.Udata?
    case UpVal(c) => b.UpVal? && (c.Open? <==> b.v.Open?)
    case CClosure(_, _) => b.CClosure?
    case LClosure(_, _, _) => b.LClosure?
    case Table(_, _, _) => b.Table?
    case Thread(_, _, _) => b.Thread?
    case Proto(_, _, _, _, _) => b.Proto?
  }

  ghost predicate NewRefs(s: State, body: Object, was: Object, v: Value, w: Value) {
    forall r :: Holds(s.heap, body, r) ==> Holds(s.heap, was, r) || v == Obj(r) || w == Obj(r)
  }

  /** A program follows references it holds, so it only works on live objects; the
      addresses of new objects are free. The one thing it may find dead is a string
      in the string table or an upvalue on an open list. */
  ghost predicate Enabled(s: State, op: Op) {
    match op
    case CollectorStep => true
    case NewObject(o, body) =>
      && o !in s.heap && !body.Str? && !(body.UpVal? && body.v.Open?) && (body.Thread? ==> body.openupval == [])
      && forall r :: Holds(s.heap, body, r) ==> Live(s, r)
    case NewUdata(o, body) => o !in s.heap && body.Udata? && forall r :: Holds(s.heap, body, r) ==> Live(s, r)
    case NewString(o, _) => o !in s.heap
    case FindString(o) => o in s.heap && s.heap[o].Str?
    case FindUpVal(th, level, o) =>
      Live(s, th) && s.heap[th].Thread? && level < |s.heap[th].stack| && o !in s.heap
    case Close(th, level) => Live(s, th) && s.heap[th].Thread?
    case SetStack(th, gt, stack, v) =>
      && Live(s, th) && s.heap[th].Thread? && ValueLive(s, v)
      && (forall r :: gt == Obj(r) || Obj(r) in stack ==> PointsTo(s.heap, th, r) || v == Obj(r))
      && (forall u :: OpenIn(s.heap, u, th) ==> s.heap[u].v.level < |stack|)
    case SetUpVal(uv, v) => Live(s, uv) && s.heap[uv].UpVal? && ValueLive(s, v)
    case Store(o, body, v) =>
      && Live(s, o) && ValueLive(s, v) && SameKind(s.heap[o], body)
      && (body.Udata? || body.CClosure? || body.LClosure? || body.Proto? || (body.UpVal? && body.v.Closed?))
      && NewRefs(s, body, s.heap[o], v, Nil)
    case TableStore(o, body, key, v) =>
      && Live(s, o) && ValueLive(s, key) && ValueLive(s, v) && s.heap[o].Table? && body.Table?
      && NewRefs(s, body, s.heap[o], key, v)
    case SetBasicMetatables(mt) => forall r :: Some(r) in mt ==> Live(s, r)
    case SwitchThread(th) => Live(s, th) && s.heap[th].Thread?
    case SetRegistry(v) => s.gcstate == Pause && ValueLive(s, v)  // only while the state is being made
    case FixString(o) => Live(s, o) && s.heap[o].Str?
  }

  // ----- allocation -----

  /** Old objects look the same after an allocation. */
  lemma AllocateSameView(s: State, o: Ref, body: Object, x: Ref)
    requires o !in s.heap && OpenUpvalsOk(s) && x in s.heap
    ensures SameView(s.heap, s.heap[o := body], x)
  {
    if IsOpen(s.heap, x) { assert UpValOk(s.heap, x); }
  }

  lemma AllocateLive(s: State, o: Ref, body: Object, s': State)
    requires OpenUpvalsOk(s) && LiveClosed(s) && o !in s.heap && o !in s.marks.color
    requires s'.heap == s.heap[o := body] && s'.marks == Paint(s.marks, o, White(s.currentwhite))
    requires s'.currentwhite == s.currentwhite && Roots(s') == Roots(s)
    requires forall r :: Holds(s'.heap, body, r) ==> Live(s, r)
    ensures LiveClosed(s')
  {
    forall x | Live(s', x)
      ensures RefsLive(s', x)
    {
      if x != o {
        assert Live(s, x) && RefsLive(s, x);
        AllocateSameView(s, o, body, x);
        forall r | PointsTo(s'.heap, x, r)
          ensures Live(s', r)
        {
          SameViewSameRefs(s.heap, s'.heap, x, r);
        }
      }
    }
  }

  lemma AllocateMarkOk(s: State, o: Ref, body: Object)
    requires MarkOk(s.heap, s.marks, {}, Running) && OpenUpvalsOk(s) && o !in s.heap
    requires forall r :: Holds(s.heap[o := body], body, r) ==> r in s.heap
    ensures MarkOk(s.heap[o := body], Paint(s.marks, o, White(s.currentwhite)), {}, Running)
  {
    var h', m' := s.heap[o := body], Paint(s.marks, o, White(s.currentwhite));
    assert forall x :: Marked(m', x) <==> Marked(s.marks, x);
    forall x, r | PointsTo(h', x, r)
      ensures r in h' && (x != o ==> PointsTo(s.heap, x, r))
    {
      if x != o {
        AllocateSameView(s, o, body, x);
        SameViewSameRefs(s.heap, h', x, r);
      }
    }
    forall x | x in h' && m'.color[x] == Black
      ensures RefsMarked(h', m', x)
    {
      assert RefsMarked(s.heap, s.marks, x);
    }
  }

  lemma AllocateOpen(s: State, o: Ref, body: Object, s': State)
    requires OpenUpvalsOk(s) && o !in s.heap && !(body.UpVal? && body.v.Open?)
    requires (body.Thread? ==> body.openupval == [])
    requires s'.heap == s.heap[o := body] && s'.uvhead == s.uvhead
    ensures OpenUpvalsOk(s')
  {
    assert forall x :: IsOpen(s'.heap, x) <==> IsOpen(s.heap, x);
    forall u | IsOpen(s'.heap, u)
      ensures UpValOk(s'.heap, u)
    {
      assert UpValOk(s.heap, u);
    }
    forall t | t in s'.heap && s'.heap[t].Thread?
      ensures OpenListOk(s'.heap, t)
    {
      if t != o {
        assert OpenListOk(s.heap, t);
        assert forall u :: OpenIn(s.heap, u, t) ==> OpenIn(s'.heap, u, t);
      }
    }
  }

  lemma AllocateStrings(s: State, o: Ref, body: Object, s': State)
    requires StringsOk(s) && o !in s.heap && !body.Str?
    requires s'.heap == s.heap[o := body] && s'.strt == s.strt
    ensures StringsOk(s')
  {
    forall b | 0 <= b < |s'.strt|
      ensures BucketOk(s', b)
    {
      assert BucketOk(s, b);
    }
  }

  lemma AllocateSwept(s: State, o: Ref, body: Object, s': State)
    requires HeapOk(s, {}) && SweptOk(s) && o !in s.heap && !(body.UpVal? && body.v.Open?)
    requires (body.Thread? ==> body.openupval == [])
    requires s'.heap == s.heap[o := body] && s'.marks == Paint(s.marks, o, White(s.currentwhite))
    requires s'.currentwhite == s.currentwhite
    requires forall i :: 0 <= i < s'.sweepgc <= |s'.rootgc| ==>
      s'.rootgc[i] == o || exists k :: 0 <= k < s.sweepgc <= |s.rootgc| && s.rootgc[k] == s'.rootgc[i]
    ensures SweptOk(s')
  {
    assert forall x :: IsOpen(s'.heap, x) <==> IsOpen(s.heap, x);
    forall i | 0 <= i < s'.sweepgc <= |s'.rootgc|
      ensures Swept(s', s'.rootgc[i])
    {
      var x := s'.rootgc[i];
      if x != o {
        assert Swept(s, x);
        forall u | u in OpenList(s', x)
          ensures IsFresh(s', u)
        {
          assert u in OpenList(s, x);
        }
      }
    }
  }

  /** The phase of the collector does not mind a new white object. */
  lemma AllocatePhase(s: State, o: Ref, body: Object, s': State)
    requires Inv(s) && o !in s.heap
    requires s' == Allocate(s, o, body).(rootgc := s'.rootgc, sweepgc := s'.sweepgc)
    requires (s.sweepgc == 0 ==> s'.sweepgc == 0) && !body.Str?
    requires s.gcstate == SweepString || s.gcstate == Sweep ==> SweptOk(s')
    requires forall r :: Holds(s'.heap, body, r) ==> r in s.heap
    ensures PhaseOk(s')
  {
    match s.gcstate
    case Propagate =>
      AllocatePropagate(s, o, body, s');
    case SweepString =>
      AllocateBuckets(s, o, body, s', s.sweepstrgc);
    case Sweep =>
      AllocateBuckets(s, o, body, s', |s.strt|);
    case _ =>
  }

  lemma AllocatePropagate(s: State, o: Ref, body: Object, s': State)
    requires Inv(s) && s.gcstate == Propagate && o !in s.heap
    requires s' == Allocate(s, o, body).(rootgc := s'.rootgc, sweepgc := s'.sweepgc)
    requires forall r :: Holds(s'.heap, body, r) ==> r in s.heap
    ensures PhaseOk(s')
  {
    hide OpenUpvalsOk, RootListOk, StringsOk, LiveClosed, MarkOk;
    AllocateMarkOk(s, o, body);
  }

  lemma AllocateBuckets(s: State, o: Ref, body: Object, s': State, n: nat)
    requires StringsOk(s) && o !in s.heap && n <= |s.strt| && forall b :: 0 <= b < n ==> BucketSwept(s, b)
    requires s' == Allocate(s, o, body).(rootgc := s'.rootgc, sweepgc := s'.sweepgc)
    ensures forall b :: 0 <= b < n ==> BucketSwept(s', b)
  {
    forall b | 0 <= b < n
      ensures BucketSwept(s', b)
    {
      assert BucketSwept(s, b) && BucketOk(s, b);
    }
  }

  lemma InvFacts(s: State)
    requires Inv(s)
    ensures s.gcstate == SweepString || s.gcstate == Sweep ==> SweptOk(s)
    ensures s.gcstate == SweepString ==> s.sweepgc == 0
    ensures s.mainthread in s.rootgc && forall r :: Live(s, r) ==> r in s.heap
  {
    hide StringsOk, OpenUpvalsOk, SweptOk, LiveClosed;
  }

  lemma NewObjectOk(s: State, o: Ref, body: Object)
    requires Inv(s) && Enabled(s, NewObject(o, body))
    ensures Inv(Do(s, NewObject(o, body)))
  {
    hide RootListOk, StringsOk, OpenUpvalsOk, SweptOk, LiveClosed, PhaseOk, Live, Holds;
    InvFacts(s);
    var s' := Do(s, NewObject(o, body));
    HoldsSame(s, o, body);
    LinkRoots(s, o, body);
    AllocateOpen(s, o, body, s');
    AllocateStrings(s, o, body, s');
    AllocateLive(s, o, body, s');
    if s.gcstate == SweepString || s.gcstate == Sweep {
      LinkSwept(s, o, body);
    }
    hide Inv;
    AllocatePhase(s, o, body, s');
  }

  lemma HoldsSame(s: State, o: Ref, body: Object)
    requires o !in s.heap && !(body.UpVal? && body.v.Open?)
    ensures forall r :: Holds(s.heap[o := body], body, r) <==> Holds(s.heap, body, r)
  {
  }

  lemma LinkRoots(s: State, o: Ref, body: Object)
    requires RootListOk(s, {}) && o !in s.heap && !body.Str? && !(body.UpVal? && body.v.Open?)
    ensures RootListOk(Link(Allocate(s, o, body), o), {})
  {
    var s' := Link(Allocate(s, o, body), o);
    assert forall x :: OnRootList(s'.heap, x) <==> OnRootList(s.heap, x) || x == o;
    assert o !in s.rootgc;
  }

  lemma LinkSwept(s: State, o: Ref, body: Object)
    requires HeapOk(s, {}) && SweptOk(s) && o !in s.heap && !(body.UpVal? && body.v.Open?)
    requires (body.Thread? ==> body.openupval == [])
    ensures SweptOk(Link(Allocate(s, o, body), o))
  {
    var s' := Link(Allocate(s, o, body), o);
    forall i | 0 <= i < s'.sweepgc <= |s'.rootgc|
      ensures s'.rootgc[i] == o || exists k :: 0 <= k < s.sweepgc <= |s.rootgc| && s.rootgc[k] == s'.rootgc[i]
    {
      if i > 0 { assert s.rootgc[i - 1] == s'.rootgc[i]; }
    }
    AllocateSwept(s, o, body, s');
  }

  lemma NewUdataOk(s: State, o: Ref, body: Object)
    requires Inv(s) && Enabled(s, NewUdata(o, body))
    ensures Inv(Do(s, NewUdata(o, body)))
  {
    hide RootListOk, StringsOk, OpenUpvalsOk, SweptOk, LiveClosed, PhaseOk, Live, Holds;
    InvFacts(s);
    var s' := Do(s, NewUdata(o, body));
    HoldsSame(s, o, body);
    LinkUdataRoots(s, o, body);
    AllocateOpen(s, o, body, s');
    AllocateStrings(s, o, body, s');
    AllocateLive(s, o, body, s');
    if s.gcstate == SweepString || s.gcstate == Sweep {
      LinkUdataSwept(s, o, body);
    }
    hide Inv;
    AllocatePhase(s, o, body, s');
  }

  lemma LinkUdataRoots(s: State, o: Ref, body: Object)
    requires RootListOk(s, {}) && o !in s.heap && body.Udata? && s.mainthread in s.rootgc
    ensures RootListOk(LinkUdata(Allocate(s, o, body), o), {})
  {
    hide IndexOf, NoDuplicates, Paint;
    var s' := LinkUdata(Allocate(s, o, body), o);
    assert forall x :: OnRootList(s'.heap, x) <==> OnRootList(s.heap, x) || x == o;
    assert o !in s.rootgc;
    hide OnRootList;
    Inserted(s.rootgc, IndexOf(s.rootgc, s.mainthread) + 1, o);
  }

  lemma Inserted(q: seq<Ref>, n: nat, o: Ref)
    requires NoDuplicates(q) && o !in q && n <= |q|
    ensures var q' := q[..n] + [o] + q[n..];
      NoDuplicates(q') && |q'| == |q| + 1 && forall x :: x in q' <==> x in q || x == o
  {
    forall x
      ensures x in q[..n] + [o] + q[n..] <==> x in q || x == o
    {
      InsertHas(q, n, o, x);
    }
  }

  lemma LinkUdataSwept(s: State, o: Ref, body: Object)
    requires HeapOk(s, {}) && SweptOk(s) && o !in s.heap && body.Udata?
    ensures SweptOk(LinkUdata(Allocate(s, o, body), o))
  {
    var s' := LinkUdata(Allocate(s, o, body), o);
    var n := IndexOf(s.rootgc, s.mainthread);
    forall i | 0 <= i < s'.sweepgc <= |s'.rootgc|
      ensures s'.rootgc[i] == o || exists k :: 0 <= k < s.sweepgc <= |s.rootgc| && s.rootgc[k] == s'.rootgc[i]
    {
      if n < |s.rootgc| && i > n + 1 { assert s.rootgc[i - 1] == s'.rootgc[i]; }
          else if i <= n { assert s.rootgc[i] == s'.rootgc[i]; }
    }
    AllocateSwept(s, o, body, s');
  }

  lemma NewStringOk(s: State, o: Ref, hash: nat)
    requires Inv(s) && Enabled(s, NewString(o, hash))
    ensures Inv(Do(s, NewString(o, hash)))
  {
    hide RootListOk, StringsOk, OpenUpvalsOk, SweptOk, LiveClosed, PhaseOk, Live;
    InvFacts(s);
    var s' := Do(s, NewString(o, hash));
    NewStringLists(s, o, hash);
    AllocateOpen(s, o, Str(hash), s');
    if s.gcstate == SweepString || s.gcstate == Sweep {
      AllocateSwept(s, o, Str(hash), s');
    }
    AllocateLive(s, o, Str(hash), s');
    hide Inv;
    NewStringPhase(s, o, hash);
  }

  lemma NewStringLists(s: State, o: Ref, hash: nat)
    requires RootListOk(s, {}) && StringsOk(s) && o !in s.heap
    ensures RootListOk(LinkString(Allocate(s, o, Str(hash)), o, hash), {})
    ensures StringsOk(LinkString(Allocate(s, o, Str(hash)), o, hash))
  {
    var s' := LinkString(Allocate(s, o, Str(hash)), o, hash);
    assert forall x :: OnRootList(s'.heap, x) <==> OnRootList(s.heap, x);
    forall b | 0 <= b < |s'.strt|
      ensures BucketOk(s', b)
    {
      assert BucketOk(s, b);
      assert o !in s.strt[b];
    }
  }

  lemma NewStringPhase(s: State, o: Ref, hash: nat)
    requires Inv(s) && o !in s.heap
    requires s.gcstate == SweepString || s.gcstate == Sweep ==> SweptOk(Do(s, NewString(o, hash)))
    ensures PhaseOk(Do(s, NewString(o, hash)))
  {
    var s' := Do(s, NewString(o, hash));
    match s.gcstate
    case Propagate => NewStringPropagate(s, o, hash);
    case SweepString => NewStringBuckets(s, o, hash, s.sweepstrgc);
    case Sweep => NewStringBuckets(s, o, hash, |s.strt|);
    case _ =>
  }

  lemma NewStringPropagate(s: State, o: Ref, hash: nat)
    requires Inv(s) && o !in s.heap && s.gcstate == Propagate
    ensures PhaseOk(Do(s, NewString(o, hash)))
  {
    hide OpenUpvalsOk, RootListOk, StringsOk, LiveClosed, MarkOk;
    AllocateMarkOk(s, o, Str(hash));
  }

  lemma NewStringBuckets(s: State, o: Ref, hash: nat, n: nat)
    requires StringsOk(s) && o !in s.heap && n <= |s.strt| && forall b :: 0 <= b < n ==> BucketSwept(s, b)
    ensures forall b :: 0 <= b < n ==> BucketSwept(LinkString(Allocate(s, o, Str(hash)), o, hash), b)
  {
    var s' := LinkString(Allocate(s, o, Str(hash)), o, hash);
    forall b | 0 <= b < n
      ensures BucketSwept(s', b)
    {
      assert BucketSwept(s, b) && BucketOk(s, b);
    }
  }

  // ----- objects found dead -----

  /** A dead string found in the string table is alive again. */
  lemma FindStringOk(s: State, o: Ref)
    requires Inv(s) && Enabled(s, FindString(o))
    ensures Inv(Do(s, FindString(o))) && Live(Do(s, FindString(o)), o)
  {
    if IsDead(s, o) {
      ResurrectOk(s, o);
      WhitenLive(s, o);
    }
  }

  /** Only a sweep leaves dead objects; giving one the current white keeps the lists. */
  lemma ResurrectOk(s: State, o: Ref)
    requires Inv(s) && IsDead(s, o) && o in s.heap
    ensures HeapOk(MakeWhite(s, o), {}) && PhaseOk(MakeWhite(s, o))
  {
    hide HeapOk;
    var s' := MakeWhite(s, o);
    RecolorHeapOk(s, s', {});
    if s.gcstate == SweepString || s.gcstate == Sweep {
      WhitenSwept(s, o);
      forall b | BucketSwept(s, b)
        ensures BucketSwept(s', b)
      {
      }
    }
  }

  function LevelOf(h: Heap, u: Ref): nat {
    if IsOpen(h, u) then h[u].v.level else 0
  }

  ghost predicate Descending(h: Heap, open: seq<Ref>) {
    forall i, j :: 0 <= i < j < |open| ==> LevelOf(h, open[i]) > LevelOf(h, open[j])
  }

  lemma {:induction false} OpenAboveOk(h: Heap, th: Ref, open: seq<Ref>, level: nat)
    requires (forall i :: 0 <= i < |open| ==> OpenIn(h, open[i], th)) && Descending(h, open)
    ensures var n := OpenAbove(h, open, level);
      && (forall i :: 0 <= i < n ==> LevelOf(h, open[i]) > level)
      && (forall i :: n <= i < |open| ==> LevelOf(h, open[i]) <= level)
      && (forall i :: n < i < |open| ==> LevelOf(h, open[i]) < level)
  {
    if open != [] && LevelOf(h, open[0]) > level {
      var rest := open[1..];
      assert forall i :: 0 <= i < |rest| ==> rest[i] == open[i+1];
      OpenAboveOk(h, th, rest, level);
    }
  }

  lemma OpenListDescending(h: Heap, th: Ref)
    requires th in h && h[th].Thread? && OpenListOk(h, th)
    ensures forall i :: 0 <= i < |h[th].openupval| ==> OpenIn(h, h[th].openupval[i], th)
    ensures Descending(h, h[th].openupval)
  {
    var open := h[th].openupval;
    forall i | 0 <= i < |open|
      ensures OpenIn(h, open[i], th)
    {
      assert open[i] in open;
    }
  }

  /** The search finds the upvalue of the slot if there is one: captures of a slot
      share it. */
  lemma FindsOpen(s: State, th: Ref, level: nat, u: Ref)
    requires OpenUpvalsOk(s) && th in s.heap && s.heap[th].Thread?
    requires OpenIn(s.heap, u, th) && s.heap[u].v.level == level
    ensures HasOpen(s, th, level) && FoundUpVal(s, th, level, u) == u
  {
    var open := OpenList(s, th);
    assert UpValOk(s.heap, u) && OpenListOk(s.heap, th);
    var k :| 0 <= k < |open| && open[k] == u;
    OpenListDescending(s.heap, th);
    OpenAboveOk(s.heap, th, open, level);
    assert LevelOf(s.heap, open[k]) == level;
  }

  /** Finding an upvalue that died revives it; otherwise a new white one is listed. */
  lemma FindUpValOk(s: State, th: Ref, level: nat, o: Ref)
    requires Inv(s) && Enabled(s, FindUpVal(th, level, o))
    ensures var s', u := Do(s, FindUpVal(th, level, o)), FoundUpVal(s, th, level, o);
      && Inv(s') && Live(s', u) && OpenIn(s'.heap, u, th) && s'.heap[u].v.level == level
  {
    if HasOpen(s, th, level) {
      var u := FoundUpVal(s, th, level, o);
      assert u in s.heap[th].openupval && OpenListOk(s.heap, th);
      assert OpenIn(s.heap, u, th);
      if IsDead(s, u) {
        ResurrectOk(s, u);
        RevivedUpValLive(s, u);
      }
    } else {
      NewUpValOk(s, th, level, o);
    }
  }

  /** An upvalue open in a live thread can only hold a live value. */
  lemma RevivedUpValLive(s: State, u: Ref)
    requires LiveClosed(s) && IsOpen(s.heap, u) && Live(s, s.heap[u].v.thread)
    requires s.heap[s.heap[u].v.thread].Thread?
    ensures LiveClosed(MakeWhite(s, u))
  {
    var s', th := MakeWhite(s, u), s.heap[u].v.thread;
    assert RefsLive(s, th);
    assert forall x :: Live(s, x) ==> Live(s', x);
    forall x | Live(s', x)
      ensures RefsLive(s', x)
    {
      if x == u {
        forall r | PointsTo(s.heap, u, r)
          ensures Live(s', r)
        {
          assert PointsTo(s.heap, th, r);
        }
      } else {
        assert RefsLive(s, x);
      }
    }
    assert Roots(s') == Roots(s);
  }

  lemma NewUpValOk(s: State, th: Ref, level: nat, o: Ref)
    requires Inv(s) && Enabled(s, FindUpVal(th, level, o)) && !HasOpen(s, th, level)
    ensures var s' := Do(s, FindUpVal(th, level, o));
      Inv(s') && Live(s', o) && OpenIn(s'.heap, o, th) && s'.heap[o].v.level == level
  {
    hide RootListOk, StringsOk, OpenUpvalsOk, LiveClosed, SweptOk, PhaseOk;
    var s' := Do(s, FindUpVal(th, level, o));
    NewUpValOpen(s, th, level, o);
    NewUpValLists(s, th, level, o);
    NewUpValLive(s, th, level, o);
    NewUpValPhase(s, th, level, o);
  }

  lemma InsertHas(open: seq<Ref>, n: nat, o: Ref, x: Ref)
    requires n <= |open|
    ensures x in open[..n] + [o] + open[n..] <==> x in open || x == o
  {
    assert open == open[..n] + open[n..];
  }

  /** The open list after the insertion still goes down. */
  lemma InsertDescending(h: Heap, h': Heap, open: seq<Ref>, n: nat, o: Ref)
    requires n <= |open| && Descending(h, open)
    requires forall i :: 0 <= i < |open| ==> LevelOf(h', open[i]) == LevelOf(h, open[i])
    requires forall i :: 0 <= i < n ==> LevelOf(h, open[i]) > LevelOf(h', o)
    requires forall i :: n <= i < |open| ==> LevelOf(h, open[i]) < LevelOf(h', o)
    ensures Descending(h', open[..n] + [o] + open[n..])
  {
    var open' := open[..n] + [o] + open[n..];
    forall i, j | 0 <= i < j < |open'|
      ensures LevelOf(h', open'[i]) > LevelOf(h', open'[j])
    {
      var a, b := if i < n then i else i - 1, if j < n then j else j - 1;
      if i == n {
        assert open'[j] == open[b];
      } else if j == n {
        assert open'[i] == open[a];
      } else {
        assert open'[i] == open[a] && open'[j] == open[b];
      }
    }
  }

  lemma NewUpValOpen(s: State, th: Ref, level: nat, o: Ref)
    requires OpenUpvalsOk(s) && th in s.heap && s.heap[th].Thread? && level < |s.heap[th].stack| && o !in s.heap
    requires !HasOpen(s, th, level)
    ensures OpenUpvalsOk(FindOrMakeUpVal(s, th, level, o))
  {
    assert OpenListOk(s.heap, th);
    NewUpValSorted(s, th, level, o);
    NewUpValListed(s, FindOrMakeUpVal(s, th, level, o), th, level, o, OpenAbove(s.heap, OpenList(s, th), level));
  }

  lemma NewUpValSorted(s: State, th: Ref, level: nat, o: Ref)
    requires th in s.heap && s.heap[th].Thread? && OpenListOk(s.heap, th) && o !in s.heap
    requires !HasOpen(s, th, level)
    ensures var s' := FindOrMakeUpVal(s, th, level, o); Descending(s'.heap, OpenList(s', th))
  {
    var s' := FindOrMakeUpVal(s, th, level, o);
    var open := OpenList(s, th);
    var n := OpenAbove(s.heap, open, level);
    OpenListDescending(s.heap, th);
    OpenAboveOk(s.heap, th, open, level);
    if n < |open| {
      assert OpenIn(s.heap, open[n], th) && LevelOf(s.heap, open[n]) != level;
    }
    InsertDescending(s.heap, s'.heap, open, n, o);
  }

  lemma NewUpValListed(s: State, s': State, th: Ref, level: nat, o: Ref, n: nat)
    requires OpenUpvalsOk(s) && th in s.heap && s.heap[th].Thread? && level < |s.heap[th].stack| && o !in s.heap
    requires n <= |OpenList(s, th)|
    requires s'.heap == s.heap[o := UpVal(Open(th, level))][th := s.heap[th].(openupval := OpenList(s,
        th)[..n] + [o] + OpenList(s, th)[n..])]
    requires Descending(s'.heap, OpenList(s', th)) && s'.uvhead == [o] + s.uvhead
    ensures OpenUpvalsOk(s')
  {
    assert forall x :: IsOpen(s'.heap, x) <==> IsOpen(s.heap, x) || x == o;
    assert o !in s.uvhead && UpValOk(s'.heap, o);
    forall u | IsOpen(s.heap, u)
      ensures UpValOk(s'.heap, u)
    {
      InsertHas(OpenList(s, th), n, o, u);
      assert UpValOk(s.heap, u);
    }
    forall t | t in s.heap && s.heap[t].Thread?
      ensures OpenListOk(s'.heap, t)
    {
      assert OpenListOk(s.heap, t);
      forall x | x in OpenList(s', th)
        ensures x in OpenList(s, th) || x == o
      {
        InsertHas(OpenList(s, th), n, o, x);
      }
      NewUpValListOk(s, th, s', t, o);
    }
  }

  lemma NewUpValListOk(s: State, th: Ref, s': State, t: Ref, o: Ref)
    requires t in s.heap && t in s'.heap && s.heap[t].Thread? && s'.heap[t].Thread? && OpenListOk(s.heap, t)
    requires forall x :: IsOpen(s.heap, x) ==> x in s'.heap && s'.heap[x] == s.heap[x]
    requires OpenIn(s'.heap, o, th)
    requires if t == th then Descending(s'.heap, s'.heap[t].openupval) && forall x :: x in s'.heap[t].openupval ==>
        x in s.heap[t].openupval || x == o
      else s'.heap[t].openupval == s.heap[t].openupval
    ensures OpenListOk(s'.heap, t)
  {
    assert forall u :: OpenIn(s.heap, u, t) ==> OpenIn(s'.heap, u, t);
    var open := s'.heap[t].openupval;
    forall i, j | 0 <= i < j < |open| && IsOpen(s'.heap, open[i]) && IsOpen(s'.heap, open[j])
      ensures s'.heap[open[i]].v.level > s'.heap[open[j]].v.level
    {
      if t == th { assert LevelOf(s'.heap, open[i]) > LevelOf(s'.heap, open[j]); }
      else { assert OpenIn(s.heap, open[i], t) && OpenIn(s.heap, open[j], t); }
    }
  }

  lemma NewUpValLists(s: State, th: Ref, level: nat, o: Ref)
    requires RootListOk(s, {}) && StringsOk(s) && th in s.heap && s.heap[th].Thread? && o !in s.heap
    requires !HasOpen(s, th, level)
    ensures RootListOk(FindOrMakeUpVal(s, th, level, o), {}) && StringsOk(FindOrMakeUpVal(s, th, level, o))
  {
    var s' := FindOrMakeUpVal(s, th, level, o);
    assert forall x :: OnRootList(s'.heap, x) <==> OnRootList(s.heap, x);
    forall b | 0 <= b < |s'.strt|
      ensures BucketOk(s', b)
    {
      assert BucketOk(s, b);
    }
  }

  lemma NewUpValView(s: State, th: Ref, level: nat, o: Ref, x: Ref)
    requires OpenUpvalsOk(s) && th in s.heap && s.heap[th].Thread? && o !in s.heap && !HasOpen(s, th, level)
    requires x in s.heap
    ensures SameView(s.heap, FindOrMakeUpVal(s, th, level, o).heap, x)
  {
    if IsOpen(s.heap, x) { assert UpValOk(s.heap, x); }
  }

  lemma NewUpValLive(s: State, th: Ref, level: nat, o: Ref)
    requires OpenUpvalsOk(s) && LiveClosed(s) && o !in s.heap && o !in s.marks.color
    requires Live(s, th) && s.heap[th].Thread? && level < |s.heap[th].stack| && !HasOpen(s, th, level)
    ensures LiveClosed(FindOrMakeUpVal(s, th, level, o))
  {
    var s' := FindOrMakeUpVal(s, th, level, o);
    assert Roots(s') == Roots(s);
    forall x | Live(s', x)
      ensures RefsLive(s', x)
    {
      forall r | PointsTo(s'.heap, x, r)
        ensures Live(s', r)
      {
        if x == o {
          assert PointsTo(s.heap, th, r) && RefsLive(s, th);
        } else {
          NewUpValView(s, th, level, o, x);
          SameViewSameRefs(s.heap, s'.heap, x, r);
          assert RefsLive(s, x);
        }
      }
    }
  }

  lemma NewUpValPhase(s: State, th: Ref, level: nat, o: Ref)
    requires Inv(s) && Enabled(s, FindUpVal(th, level, o)) && !HasOpen(s, th, level)
    ensures PhaseOk(FindOrMakeUpVal(s, th, level, o))
  {
    hide RootListOk, StringsOk, OpenUpvalsOk, LiveClosed, SweptOk, BucketSwept, MarkOk, HasOpen;
    match s.gcstate
    case Propagate => NewUpValPropagate(s, th, level, o);
    case SweepString => NewUpValSweeping(s, th, level, o, s.sweepstrgc);
    case Sweep => NewUpValSweeping(s, th, level, o, |s.strt|);
    case _ =>
  }

  lemma NewUpValSweeping(s: State, th: Ref, level: nat, o: Ref, n: nat)
    requires HeapOk(s, {}) && SweptOk(s) && o !in s.heap && th in s.heap && s.heap[th].Thread? && !HasOpen(s, th, level)
    requires n <= |s.strt| && forall b :: 0 <= b < n ==> BucketSwept(s, b)
    ensures SweptOk(FindOrMakeUpVal(s, th, level, o))
    ensures forall b :: 0 <= b < n ==> BucketSwept(FindOrMakeUpVal(s, th, level, o), b)
  {
    hide RootListOk, StringsOk, OpenUpvalsOk, SweptOk, BucketSwept;
    RootgcAllocated(s);
    NewUpValSwept(s, th, level, o);
    NewUpValBuckets(s, th, level, o, n);
  }

  lemma RootgcAllocated(s: State)
    requires RootListOk(s, {})
    ensures forall i :: 0 <= i < |s.rootgc| ==> s.rootgc[i] in s.heap
  {
    assert forall i :: 0 <= i < |s.rootgc| ==> s.rootgc[i] in s.rootgc;
  }

  lemma NewUpValPropagate(s: State, th: Ref, level: nat, o: Ref)
    requires Inv(s) && s.gcstate == Propagate && Enabled(s, FindUpVal(th, level, o)) && !HasOpen(s, th, level)
    ensures PhaseOk(FindOrMakeUpVal(s, th, level, o))
  {
    hide RootListOk, StringsOk, OpenUpvalsOk, LiveClosed, MarkOk;
    NewUpValMarkOk(s, th, level, o);
  }

  lemma NewUpValRefs(s: State, th: Ref, level: nat, o: Ref, x: Ref, r: Ref)
    requires NoDangling(s.heap) && OpenUpvalsOk(s)
    requires th in s.heap && s.heap[th].Thread? && level < |s.heap[th].stack| && o !in s.heap && !HasOpen(s, th, level)
    requires PointsTo(FindOrMakeUpVal(s, th, level, o).heap, x, r)
    ensures r in FindOrMakeUpVal(s, th, level, o).heap && (x != o ==> PointsTo(s.heap, x, r))
  {
    var s' := FindOrMakeUpVal(s, th, level, o);
    if x == o {
      assert PointsTo(s.heap, th, r);
    } else {
      NewUpValView(s, th, level, o, x);
      SameViewSameRefs(s.heap, s'.heap, x, r);
    }
  }

  /** A new white open upvalue is on no gray list. */
  lemma NewWhite(h: Heap, m: Marks, o: Ref, body: Object, current: bool)
    requires Marking.ListsOk(h, m, {}) && o !in h && body.UpVal? && body.v.Open?
    ensures Marking.ListsOk(h[o := body], Paint(m, o, White(current)), {})
  {
    hide NoDuplicates;
  }

  /** The lists do not depend on what a thread holds. */
  lemma SameThreadLists(h: Heap, m: Marks, th: Ref, body: Object)
    requires Marking.ListsOk(h, m, {}) && th in h && h[th].Thread? && body.Thread?
    ensures Marking.ListsOk(h[th := body], m, {})
  {
    hide NoDuplicates;
  }

  lemma NewUpValGray(s: State, th: Ref, level: nat, o: Ref)
    requires Marking.ListsOk(s.heap, s.marks, {})
    requires th in s.heap && s.heap[th].Thread? && o !in s.heap && !HasOpen(s, th, level)
    ensures var s' := FindOrMakeUpVal(s, th, level, o);
      && Marking.ListsOk(s'.heap, s'.marks, {}) && (forall x :: Marked(s'.marks, x) <==> Marked(s.marks, x))
      && s'.marks.color.Keys == s'.heap.Keys && s.marks.color.Keys == s.heap.Keys
      && forall x :: x in s'.heap && s'.marks.color[x] == Black ==> x in s.heap && s.marks.color[x] == Black
  {
    var s' := FindOrMakeUpVal(s, th, level, o);
    NewWhite(s.heap, s.marks, o, UpVal(Open(th, level)), s.currentwhite);
    SameThreadLists(s.heap[o := UpVal(Open(th, level))], s'.marks, th, s'.heap[th]);
    hide OpenAbove, Marking.ListsOk;
    SameKeys(s.heap, s.marks);
  }

  lemma SameKeys(h: Heap, m: Marks)
    requires Marking.ListsOk(h, m, {})
    ensures m.color.Keys == h.Keys
  {
  }

  lemma NewUpValMarkOk(s: State, th: Ref, level: nat, o: Ref)
    requires MarkOk(s.heap, s.marks, {}, Running) && OpenUpvalsOk(s)
    requires th in s.heap && s.heap[th].Thread? && level < |s.heap[th].stack| && o !in s.heap && !HasOpen(s, th, level)
    ensures MarkOk(FindOrMakeUpVal(s, th, level, o).heap, FindOrMakeUpVal(s, th, level, o).marks, {}, Running)
  {
    hide OpenUpvalsOk, Marking.ListsOk, PointsTo, OpenAbove;
    var s' := FindOrMakeUpVal(s, th, level, o);
    NewUpValGray(s, th, level, o);
    forall x, r | PointsTo(s'.heap, x, r)
      ensures r in s'.heap && (x != o ==> PointsTo(s.heap, x, r))
    {
      NewUpValRefs(s, th, level, o, x, r);
    }
    forall x | x in s'.heap && s'.marks.color[x] == Black
      ensures RefsMarked(s'.heap, s'.marks, x)
    {
      assert RefsMarked(s.heap, s.marks, x);
    }
  }

  lemma NewUpValSwept(s: State, th: Ref, level: nat, o: Ref)
    requires SweptOk(s) && o !in s.heap && th in s.heap && s.heap[th].Thread? && !HasOpen(s, th, level)
    requires forall i :: 0 <= i < |s.rootgc| ==> s.rootgc[i] in s.heap
    ensures SweptOk(FindOrMakeUpVal(s, th, level, o))
  {
    var s' := FindOrMakeUpVal(s, th, level, o);
    assert forall x :: IsOpen(s'.heap, x) <==> IsOpen(s.heap, x) || x == o;
    forall i | 0 <= i < s'.sweepgc <= |s'.rootgc|
      ensures Swept(s', s'.rootgc[i])
    {
      var x := s.rootgc[i];
      assert Swept(s, x);
      forall u | u in OpenList(s', x)
        ensures IsFresh(s', u)
      {
        if u != o {
          assert u in OpenList(s, x) by { var n := OpenAbove(s.heap, OpenList(s, th), level); assert OpenList(s,
              th) == OpenList(s, th)[..n] + OpenList(s, th)[n..]; }
        }
      }
    }
  }

  lemma NewUpValBuckets(s: State, th: Ref, level: nat, o: Ref, n: nat)
    requires StringsOk(s) && o !in s.heap && th in s.heap && s.heap[th].Thread? && !HasOpen(s, th, level)
    requires n <= |s.strt| && forall b :: 0 <= b < n ==> BucketSwept(s, b)
    ensures forall b :: 0 <= b < n ==> BucketSwept(FindOrMakeUpVal(s, th, level, o), b)
  {
    var s' := FindOrMakeUpVal(s, th, level, o);
    forall b | 0 <= b < n
      ensures BucketSwept(s', b)
    {
      assert BucketSwept(s, b) && BucketOk(s, b);
    }
  }

  // ----- closing upvalues -----

  /** The invariant of marking only depends on what objects show, and on the kind of `u`. */
  lemma ViewMarkOk(h: Heap, h': Heap, m: Marks, u: Ref)
    requires MarkOk(h, m, {}, Running) && h'.Keys == h.Keys
    requires forall o :: o in h ==> SameView(h, h', o) && Listable(h[o]) == Listable(h'[o])
    requires forall o ::
      o in h && o != u ==>
        KindColor(h'[o], m.color[o]) && (h[o].Table? ==> h'[o].Table?) && (h[o].Thread? ==> h'[o].Thread?)
    requires u in h ==> !Listable(h[u])
    ensures MarkOk(h', m, {u}, Running)
    ensures u in h && KindColor(h'[u], m.color[u]) ==> MarkOk(h', m, {}, Running)
  {
    forall o, r | PointsTo(h', o, r)
      ensures PointsTo(h, o, r)
    {
      SameViewSameRefs(h, h', o, r);
    }
    forall o | o in h' && m.color[o] == Black
      ensures RefsMarked(h', m, o)
    {
      assert RefsMarked(h, m, o);
    }
  }

  lemma CloseMarkOk(s: State, th: Ref, u: Ref, s': State)
    requires HeapOk(s, {}) && MarkOk(s.heap, s.marks, {}, Running) && ClosedFirst(s, th, u, s')
    ensures MarkOk(s'.heap, s.marks, {u}, Running)
    ensures KindColor(s'.heap[u], s.marks.color[u]) ==> MarkOk(s'.heap, s.marks, {}, Running)
  {
    forall o | o in s.heap
      ensures SameView(s.heap, s'.heap, o) && Listable(s.heap[o]) == Listable(s'.heap[o])
    {
      CloseSameView(s, th, u, s', o);
    }
    KindsFit(s.heap, s.marks);
    CloseKinds(s, th, u, s');
    hide MarkOk, HeapOk, SameView, ClosedFirst, KindColor, Listable;
    ViewMarkOk(s.heap, s'.heap, s.marks, u);
  }

  lemma KindsFit(h: Heap, m: Marks)
    requires MarkOk(h, m, {}, Running)
    ensures m.color.Keys == h.Keys && forall o :: o in h ==> KindColor(h[o], m.color[o])
  {
  }

  lemma CloseKinds(s: State, th: Ref, u: Ref, s': State)
    requires s.marks.color.Keys == s.heap.Keys && forall o :: o in s.heap ==> KindColor(s.heap[o], s.marks.color[o])
    requires ClosedFirst(s, th, u, s')
    ensures s'.heap.Keys == s.heap.Keys && u in s.heap && !Listable(s.heap[u])
    ensures forall o :: o in s.heap && o != u ==>
      && KindColor(s'.heap[o], s.marks.color[o])
      && (s.heap[o].Table? ==> s'.heap[o].Table?) && (s.heap[o].Thread? ==> s'.heap[o].Thread?)
  {
    hide KindColor;
    forall o | o in s.heap && o != u
      ensures KindColor(s'.heap[o], s.marks.color[o])
    {
      CloseKind(s, th, u, s', o, s.marks.color[o]);
    }
  }

  lemma CloseKind(s: State, th: Ref, u: Ref, s': State, o: Ref, c: Color)
    requires ClosedFirst(s, th, u, s') && o in s.heap && o != u && KindColor(s.heap[o], c)
    ensures o in s'.heap && KindColor(s'.heap[o], c)
  {
  }

  lemma BlackenOk(h: Heap, m: Marks, u: Ref)
    requires MarkOk(h, m, {u}, Running) && u in h && !Listable(h[u]) && m.color[u] == Gray
    ensures MarkOk(h, Paint(m, u, Black), {u}, Running) && Grows(m, Paint(m, u, Black))
  {
    var m1 := Paint(m, u, Black);
    assert forall x :: Marked(m1, x) <==> Marked(m, x);
    forall x | x in h && m1.color[x] == Black && x != u
      ensures RefsMarked(h, m1, x)
    {
      assert RefsMarked(h, m, x);
    }
  }

  /** The marks after a closed upvalue has been blackened and its value has passed the barrier. */
  function BarrieredMarks(h: Heap, m: Marks, u: Ref): Marks
    requires u in h && h[u].UpVal?
  {
    var m1 := Paint(m, u, Black);
    var v := UpValue(h, h[u].v);
    if v.Obj? && IsWhite(m1, v.ref) then MarkObject(h, m1, v.ref) else m1
  }

  /** A closed upvalue that had been marked turns black and passes the barrier. */
  lemma CloseBarrier(h: Heap, m: Marks, u: Ref)
    requires MarkOk(h, m, {u}, Running) && u in h && h[u].UpVal? && h[u].v.Closed? && m.color[u] == Gray
    ensures MarkOk(h, BarrieredMarks(h, m, u), {}, Running) && Grows(m, BarrieredMarks(h, m, u))
  {
    hide MarkOk, Advances, RefsMarked;
    var v := h[u].v.value;
    var m1, m2 := Paint(m, u, Black), BarrieredMarks(h, m, u);
    BlackenOk(h, m, u);
    if v.Obj? {
      assert m2 == MarkObject(h, m1, v.ref);
      MarkObjectOk(h, m1, v.ref, {u}, Running);
      AdvancesGrows(m, m1, m2, u);
    }
    UpValRefs(h, m2, u, {u}, Running);
    assert {} + {u} == {u};
    DropException(h, m2, u, {}, Running);
  }

  lemma AdvancesGrows(a: Marks, b: Marks, c: Marks, u: Ref)
    requires Grows(a, b) && (Advances(b, c) || b == c) && Marked(b, u)
    ensures Grows(a, c) && Marked(c, u) && c.color[u] == b.color[u]
  {
  }

  lemma CloseRoundMarks(s: State, th: Ref, u: Ref, s': State)
    requires s.gcstate == Propagate && ClosedFirst(s, th, u, s') && s' == CloseRound(s, th) && !IsDead(s, u)
    ensures s'.marks == if IsGray(s, u) then BarrieredMarks(s'.heap, s.marks, u) else s.marks
  {
  }

  lemma CloseMarks(s: State, th: Ref, u: Ref, s': State)
    requires HeapOk(s, {}) && MarkOk(s.heap, s.marks, {}, Running) && s.gcstate == Propagate && !IsDead(s, u)
    requires ClosedFirst(s, th, u, s') && s' == CloseRound(s, th)
    ensures MarkOk(s'.heap, s'.marks, {}, Running) && Grows(s.marks, s'.marks)
  {
    assert u in s.heap && KindColor(s.heap[u], s.marks.color[u]);
    hide RootListOk, StringsOk, OpenUpvalsOk, MarkOk;
    CloseRoundMarks(s, th, u, s');
    CloseMarkOk(s, th, u, s');
    hide CloseRound, HeapOk;
    if IsGray(s, u) {
      CloseBarrier(s'.heap, s.marks, u);
    }
  }

  lemma ClosePropagateRound(s: State, th: Ref)
    requires Inv(s) && s.gcstate == Propagate && |OpenList(s, th)| > 0
    ensures Inv(CloseRound(s, th)) && |OpenList(CloseRound(s, th), th)| == |OpenList(s, th)| - 1
    ensures forall o :: Live(s, o) ==> Live(CloseRound(s, th), o)
    ensures CloseRound(s, th).gcstate == Propagate && th in CloseRound(s, th).heap && CloseRound(s, th).heap[th].Thread?
  {
    hide RootListOk, StringsOk, OpenUpvalsOk, LiveClosed, MarkOk;
    var u, s1 := OpenList(s, th)[0], CloseRound(s, th);
    OpenListed(s, th, 0, {});
    CloseFirstShape(s, th, {});
    CloseMarks(s, th, u, s1);
    GrowsKeepsAlive(s, s1);
    CloseHeapOk(s, th, u, s1, {});
    CloseLive(s, th, u, s1, {});
  }

  lemma GrowsKeepsAlive(s: State, s': State)
    requires Grows(s.marks, s'.marks) && s'.currentwhite == s.currentwhite && s.marks.color.Keys == s.heap.Keys
    requires forall o :: o in s.heap ==> !IsDead(s, o)
    ensures forall o :: o in s.heap ==> o in s'.marks.color && IsDead(s', o) == IsDead(s, o)
    ensures forall o :: Marked(s.marks, o) ==> Marked(s'.marks, o)
  {
    forall o | o in s.heap
      ensures o in s'.marks.color && !IsDead(s', o)
    {
      if IsWhite(s'.marks, o) { assert !IsDead(s, o); }
    }
  }

  lemma CloseRestRound(s: State, th: Ref)
    requires Inv(s) && (s.gcstate == Pause || s.gcstate == Finalize) && |OpenList(s, th)| > 0
    ensures Inv(CloseRound(s, th)) && |OpenList(CloseRound(s, th), th)| == |OpenList(s, th)| - 1
    ensures forall o :: Live(s, o) ==> Live(CloseRound(s, th), o)
    ensures CloseRound(s, th).gcstate == s.gcstate && th in CloseRound(s, th).heap && CloseRound(s, th).heap[th].Thread?
  {
    hide RootListOk, StringsOk, OpenUpvalsOk, LiveClosed;
    var u, s1 := OpenList(s, th)[0], CloseRound(s, th);
    OpenListed(s, th, 0, {});
    CloseFirstShape(s, th, {});
    CloseRoundSame(s, th, {});
    assert IsFresh(s, u) && s1.marks == s.marks;
    CloseHeapOk(s, th, u, s1, {});
    CloseLive(s, th, u, s1, {});
  }

  /** Closing upvalues keeps the invariant in every phase, and frees nothing alive. */
  lemma {:induction false} CloseOk(s: State, th: Ref, level: nat)
    requires Inv(s) && th in s.heap && s.heap[th].Thread?
    ensures Inv(CloseUpvals(s, th, level))
    ensures forall o :: Live(s, o) ==> Live(CloseUpvals(s, th, level), o)
    decreases |OpenList(s, th)|
  {
    hide HeapOk, LiveClosed, PhaseOk;
    if s.gcstate == SweepString || s.gcstate == Sweep {
      CloseWhileSweeping(s, th, level);
    } else if |OpenList(s, th)| > 0 {
      var u := OpenList(s, th)[0];
      OpenListed(s, th, 0, {});
      CloseFirstShape(s, th, {});
      if s.heap[u].v.level >= level {
        if s.gcstate == Propagate { ClosePropagateRound(s, th); } else { CloseRestRound(s, th); }
        CloseOk(CloseRound(s, th), th, level);
      }
    }
  }

  lemma CloseWhileSweeping(s: State, th: Ref, level: nat)
    requires Inv(s) && th in s.heap && s.heap[th].Thread? && (s.gcstate == SweepString || s.gcstate == Sweep)
    ensures Inv(CloseUpvals(s, th, level))
    ensures forall o :: Live(s, o) ==> Live(CloseUpvals(s, th, level), o)
  {
    hide RootListOk, StringsOk, OpenUpvalsOk, LiveClosed, SweptOk;
    var s' := CloseUpvals(s, th, level);
    CloseUpvalsSweepOk(s, th, level, {});
    if s.gcstate == SweepString { CloseKeepsStart(s, th, level); }
    CloseKeepsBuckets(s, s', th, if s.gcstate == SweepString then s.sweepstrgc else |s.strt|);
  }

  lemma {:induction false} CloseKeepsStart(s: State, th: Ref, level: nat)
    requires s.sweepgc == 0
    ensures CloseUpvals(s, th, level).sweepgc == 0
    decreases |OpenList(s, th)|
  {
    hide LinkUpVal, FreeUpVal, DropOpen, CloseOne;
    if |OpenList(s, th)| > 0 {
      var u := OpenList(s, th)[0];
      if IsOpen(s.heap, u) && s.heap[u].v.level >= level && u != th {
        RoundKeepsStart(s, th, u);
        var s1 := DropOpen(s, th, 0);
        CloseKeepsStart(if IsDead(s, u) then FreeUpVal(s1, u) else LinkUpVal(CloseOne(s1, u), u), th, level);
      }
    }
  }

  lemma RoundKeepsStart(s: State, th: Ref, u: Ref)
    requires |OpenList(s, th)| > 0 && s.sweepgc == 0 && IsOpen(s.heap, u) && u != th
    ensures var s1 := DropOpen(s, th, 0);
      && IsOpen(s1.heap, u) && |OpenList(FreeUpVal(s1, u), th)| < |OpenList(s, th)| && FreeUpVal(s1, u).sweepgc == 0
      && |OpenList(LinkUpVal(CloseOne(s1, u), u), th)| < |OpenList(s, th)| && LinkUpVal(CloseOne(s1, u), u).sweepgc == 0
  {
    hide Without, UpValue, MarkObject;
  }

  lemma CloseKeepsBuckets(s: State, s': State, th: Ref, n: nat)
    requires StringsOk(s) && SameButClosed(s, s', th) && n <= |s.strt| && forall b :: 0 <= b < n ==> BucketSwept(s, b)
    ensures forall b :: 0 <= b < n ==> BucketSwept(s', b)
  {
    forall b | 0 <= b < n
      ensures BucketSwept(s', b)
    {
      assert BucketSwept(s, b) && BucketOk(s, b);
    }
  }

  // ----- stores -----

  /** A change of the contents of one object: what it now refers to was referred to
      before, or is one of two live values. */
  ghost predicate Stored(s: State, s': State, o: Ref, v: Value, w: Value) {
    && o in s.heap && s'.heap.Keys == s.heap.Keys
    && s' == s.(heap := s'.heap)
    && (forall x :: x in s.heap && x != o ==> s'.heap[x] == s.heap[x])
    && SameKind(s.heap[o], s'.heap[o])
    && (s.heap[o].UpVal? && s.heap[o].v.Open? ==> s'.heap[o] == s.heap[o])
    && (s.heap[o].Thread? ==>
      s'.heap[o].openupval == s.heap[o].openupval &&
      forall u :: OpenIn(s.heap, u, o) ==> s.heap[u].v.level < |s'.heap[o].stack|)
    && (s.heap[o].Str? ==> s'.heap[o] == s.heap[o])
    && (forall r :: Holds(s'.heap, s'.heap[o], r) ==> Holds(s.heap, s.heap[o], r) || v == Obj(r) || w == Obj(r))
    && ValueLive(s, v) && ValueLive(s, w)
  }

  lemma StoredHeapOk(s: State, s': State, o: Ref, v: Value, w: Value)
    requires HeapOk(s, {}) && Stored(s, s', o, v, w)
    ensures HeapOk(s', {})
  {
    hide RootListOk, StringsOk, OpenUpvalsOk;
    StoredLists(s, s', o, v, w);
    StoredOpen(s, s', o, v, w);
  }

  lemma StoredLists(s: State, s': State, o: Ref, v: Value, w: Value)
    requires RootListOk(s, {}) && StringsOk(s) && Stored(s, s', o, v, w)
    ensures RootListOk(s', {}) && StringsOk(s')
  {
    hide Holds;
    assert forall x :: OnRootList(s'.heap, x) <==> OnRootList(s.heap, x);
    forall b | 0 <= b < |s'.strt|
      ensures BucketOk(s', b)
    {
      assert BucketOk(s, b);
    }
  }

  lemma StoredOpen(s: State, s': State, o: Ref, v: Value, w: Value)
    requires OpenUpvalsOk(s) && Stored(s, s', o, v, w)
    ensures OpenUpvalsOk(s')
  {
    hide Holds;
    assert forall x :: IsOpen(s'.heap, x) <==> IsOpen(s.heap, x);
    assert forall x :: IsOpen(s.heap, x) ==> s'.heap[x] == s.heap[x];
    forall u | IsOpen(s'.heap, u)
      ensures UpValOk(s'.heap, u)
    {
      assert UpValOk(s.heap, u);
    }
    forall t | t in s'.heap && s'.heap[t].Thread?
      ensures OpenListOk(s'.heap, t)
    {
      assert OpenListOk(s.heap, t);
      assert forall u :: OpenIn(s.heap, u, t) <==> OpenIn(s'.heap, u, t);
    }
  }

  /** What an object other than the one stored to refers to: the same, except that
      an upvalue open in a thread follows the new stack. */
  lemma StoredRefs(s: State, s': State, o: Ref, v: Value, w: Value, x: Ref, r: Ref)
    requires OpenUpvalsOk(s) && Stored(s, s', o, v, w) && PointsTo(s'.heap, x, r) && x != o
    ensures PointsTo(s.heap, x, r) || (OpenIn(s.heap, x, o) && s.heap[o].Thread? && PointsTo(s'.heap, o, r))
  {
    if IsOpen(s.heap, x) {
      assert UpValOk(s.heap, x);
    }
  }

  lemma StoredLive(s: State, s': State, o: Ref, v: Value, w: Value)
    requires OpenUpvalsOk(s) && LiveClosed(s) && Stored(s, s', o, v, w) && Live(s, o)
    ensures LiveClosed(s')
  {
    forall x | Live(s', x)
      ensures RefsLive(s', x)
    {
      assert Live(s, x) && RefsLive(s, x) && RefsLive(s, o);
      forall r | PointsTo(s'.heap, x, r)
        ensures Live(s', r)
      {
        if x != o { StoredRefs(s, s', o, v, w, x, r); }
        assert PointsTo(s.heap, x, r) || PointsTo(s.heap, o, r) || v == Obj(r) || w == Obj(r);
      }
    }
    assert Roots(s') == Roots(s);
  }

  lemma StoredSwept(s: State, s': State, o: Ref, v: Value, w: Value)
    requires SweptOk(s) && Stored(s, s', o, v, w)
    ensures SweptOk(s')
  {
    hide Holds;
    assert forall x :: IsOpen(s'.heap, x) <==> IsOpen(s.heap, x);
    forall i | 0 <= i < s'.sweepgc <= |s'.rootgc|
      ensures Swept(s', s'.rootgc[i])
    {
      assert Swept(s, s.rootgc[i]);
      forall u | u in OpenList(s', s'.rootgc[i])
        ensures IsFresh(s', u)
      {
        assert u in OpenList(s, s.rootgc[i]);
      }
    }
  }

  lemma StoredNoDangling(s: State, s': State, o: Ref, v: Value, w: Value)
    requires OpenUpvalsOk(s) && NoDangling(s.heap) && Stored(s, s', o, v, w)
    ensures NoDangling(s'.heap)
  {
    forall x, r | PointsTo(s'.heap, x, r)
      ensures r in s'.heap
    {
      if x != o { StoredRefs(s, s', o, v, w, x, r); }
      assert PointsTo(s.heap, x, r) || PointsTo(s.heap, o, r) || v == Obj(r) || w == Obj(r);
    }
  }

  lemma StoredEdges(s: State, s': State, o: Ref, v: Value, w: Value)
    requires OpenUpvalsOk(s) && NoBlackToWhite(s.heap, s.marks, {}) && ListsOk(s.heap, s.marks, {})
    requires Stored(s, s', o, v, w)
    ensures NoBlackToWhite(s'.heap, s.marks, {o})
  {
    forall x | x in s'.heap && x in s.marks.color && s.marks.color[x] == Black && x != o
      ensures RefsMarked(s'.heap, s.marks, x)
    {
      assert RefsMarked(s.heap, s.marks, x);
      forall r | PointsTo(s'.heap, x, r)
        ensures Marked(s.marks, r)
      {
        StoredRefs(s, s', o, v, w, x, r);
      }
    }
  }

  /** A store breaks the marking invariant at most at the object stored to, and
      there only if it was black. */
  lemma StoredMarkOk(s: State, s': State, o: Ref, v: Value, w: Value)
    requires OpenUpvalsOk(s) && MarkOk(s.heap, s.marks, {}, Running) && Stored(s, s', o, v, w)
    ensures MarkOk(s'.heap, s.marks, {o}, Running)
    ensures s.marks.color[o] != Black ==> MarkOk(s'.heap, s.marks, {}, Running)
    ensures s.marks.color[o] == Black ==>
      forall r :: PointsTo(s'.heap, o, r) ==> Marked(s.marks, r) || v == Obj(r) || w == Obj(r)
  {
    StoredNoDangling(s, s', o, v, w);
    StoredEdges(s, s', o, v, w);
    hide NoDangling;
    if s.marks.color[o] == Black { assert RefsMarked(s.heap, s.marks, o); }
  }

  /** A store that needs no barrier, because the object is not black. */
  lemma StoredOk(s: State, s': State, o: Ref, v: Value, w: Value)
    requires Inv(s) && Stored(s, s', o, v, w) && LiveClosed(s')
    ensures HeapOk(s', {}) && (!IsBlack(s, o) || s.gcstate != Propagate ==> PhaseOk(s'))
  {
    hide RootListOk, StringsOk, OpenUpvalsOk, LiveClosed, SweptOk, MarkOk, Stored;
    StoredHeapOk(s, s', o, v, w);
    match s.gcstate
    case Propagate =>
      StoredMarkOk(s, s', o, v, w);
      StoredAlive(s, s', o, v, w);
    case SweepString => StoredSwept(s, s', o, v, w); StoredBuckets(s, s', o, v, w);
    case Sweep => StoredSwept(s, s', o, v, w); StoredBuckets(s, s', o, v, w);
    case _ => StoredAlive(s, s', o, v, w);
  }

  lemma StoredAlive(s: State, s': State, o: Ref, v: Value, w: Value)
    requires Stored(s, s', o, v, w)
    ensures s' == s.(heap := s'.heap) && o in s.heap
    ensures AllFresh(s) ==> AllFresh(s')
    ensures (forall x :: x in s.heap ==> !IsDead(s, x)) ==> forall x :: x in s'.heap ==> !IsDead(s', x)
  {
  }

  lemma StoredBuckets(s: State, s': State, o: Ref, v: Value, w: Value)
    requires Stored(s, s', o, v, w)
    ensures s' == s.(heap := s'.heap)
    ensures forall b :: BucketSwept(s, b) ==> BucketSwept(s', b)
  {
  }

  // ----- the barriers -----

  /** The forward barrier mends what a store to a black object may have broken. */
  lemma BarrierOk(s: State, s1: State, o: Ref, v: Value)
    requires Inv(s) && Stored(s, s1, o, v, Nil) && Live(s, o)
    requires s.heap[o].UpVal? || s.heap[o].Udata? || s.heap[o].CClosure? || s.heap[o].LClosure? || s.heap[o].Proto?
    ensures Inv(Barrier(s1, o, v))
  {
    StoredLive(s, s1, o, v, Nil);
    StoredOk(s, s1, o, v, Nil);
    if ValueIsWhite(s1, v) && IsBlack(s1, o) {
      if s.gcstate == Propagate {
        BarrierMarks(s, s1, o, v);
      } else {
        BarrierSweep(s1, o);
      }
    } else if s.gcstate == Propagate && IsBlack(s, o) {
      BarrierNotNeeded(s, s1, o, v, Nil);
    }
  }

  /** The value stored into the black object was marked already. */
  lemma BarrierNotNeeded(s: State, s1: State, o: Ref, v: Value, w: Value)
    requires Inv(s) && s.gcstate == Propagate && Stored(s, s1, o, v, w) && IsBlack(s, o)
    requires !ValueIsWhite(s, v) && !ValueIsWhite(s, w)
    ensures PhaseOk(s1)
  {
    hide RootListOk, StringsOk, LiveClosed, MarkOk;
    StoredMarkOk(s, s1, o, v, w);
    StoredAlive(s, s1, o, v, w);
    KindStored(s, s1, o, v, w);
    assert ValueLive(s, v) && ValueLive(s, w);
    assert RefsMarked(s1.heap, s1.marks, o);
    assert {} + {o} == {o};
    DropException(s1.heap, s1.marks, o, {}, Running);
  }

  lemma KindStored(s: State, s1: State, o: Ref, v: Value, w: Value)
    requires Inv(s) && s.gcstate == Propagate && Stored(s, s1, o, v, w)
    ensures KindColor(s1.heap[o], s1.marks.color[o]) && o in s1.marks.color
  {
    assert KindColor(s.heap[o], s.marks.color[o]);
  }

  lemma BarrierMarks(s: State, s1: State, o: Ref, v: Value)
    requires Inv(s) && s.gcstate == Propagate && Stored(s, s1, o, v, Nil) && IsBlack(s, o) && ValueIsWhite(s, v)
    requires HeapOk(s1, {}) && LiveClosed(s1)
    ensures Inv(BarrierF(s1, o, v.ref))
  {
    hide RootListOk, StringsOk, OpenUpvalsOk, LiveClosed, MarkOk, Advances;
    var s2 := BarrierF(s1, o, v.ref);
    StoredMarkOk(s, s1, o, v, Nil);
    StoredAlive(s, s1, o, v, Nil);
    KindStored(s, s1, o, v, Nil);
    MarkObjectOk(s1.heap, s1.marks, v.ref, {o}, Running);
    AdvancesGrows(s1.marks, s1.marks, s2.marks, o);
    BarrierRefs(s, s1, s2, o, v);
    assert {} + {o} == {o};
    DropException(s2.heap, s2.marks, o, {}, Running);
    GrowsKeepsAlive(s1, s2);
    RecolorHeapOk(s1, s2, {});
    RecolorLive(s1, s2);
  }

  lemma BarrierRefs(s: State, s1: State, s2: State, o: Ref, v: Value)
    requires forall r :: PointsTo(s1.heap, o, r) ==> Marked(s1.marks, r) || v == Obj(r)
    requires s2.heap == s1.heap && Grows(s1.marks, s2.marks) && v.Obj? && Marked(s2.marks, v.ref)
    ensures RefsMarked(s2.heap, s2.marks, o)
  {
  }

  lemma RecolorLive(s: State, s': State)
    requires LiveClosed(s) && s' == s.(marks := s'.marks)
    requires forall o :: o in s.heap ==> IsDead(s', o) == IsDead(s, o)
    ensures LiveClosed(s')
  {
    forall o | Live(s', o)
      ensures RefsLive(s', o)
    {
      assert RefsLive(s, o);
    }
    assert Roots(s') == Roots(s);
  }

  /** While sweeping, a barrier just whitens the object. */
  lemma BarrierSweep(s: State, o: Ref)
    requires HeapOk(s, {}) && LiveClosed(s) && PhaseOk(s) && IsBlack(s, o) && s.gcstate != Propagate
    ensures Inv(MakeWhite(s, o))
  {
    hide RootListOk, StringsOk, OpenUpvalsOk, LiveClosed, HeapOk;
    RecolorHeapOk(s, MakeWhite(s, o), {});
    RecolorLive(s, MakeWhite(s, o));
    if s.gcstate == SweepString || s.gcstate == Sweep {
      WhitenSwept(s, o);
      hide SweptOk;
      forall b | BucketSwept(s, b)
        ensures BucketSwept(MakeWhite(s, o), b)
      {
      }
    }
  }

  /** The back barrier: the table is gray again and will be traversed once more. */
  lemma BarrierBackOk(s: State, s1: State, t: Ref, v: Value, w: Value)
    requires Inv(s) && s.gcstate == Propagate && Stored(s, s1, t, v, w) && IsBlack(s, t) && s.heap[t].Table?
    requires HeapOk(s1, {}) && LiveClosed(s1)
    ensures Inv(BarrierBack(s1, t))
  {
    hide RootListOk, StringsOk, OpenUpvalsOk, LiveClosed, MarkOk;
    var s2 := BarrierBack(s1, t);
    StoredMarkOk(s, s1, t, v, w);
    StoredAlive(s, s1, t, v, w);
    BackMarkOk(s1.heap, s1.marks, t);
    assert forall o :: Marked(s1.marks, o) ==> Marked(s2.marks, o);
    RecolorHeapOk(s1, s2, {});
    RecolorLive(s1, s2);
  }

  lemma BackMarkOk(h: Heap, m: Marks, t: Ref)
    requires MarkOk(h, m, {t}, Running) && t in h && h[t].Table? && m.color[t] == Black
    ensures MarkOk(h, Paint(m, t, Gray).(grayagain := [t] + m.grayagain), {}, Running)
  {
    var m' := Paint(m, t, Gray).(grayagain := [t] + m.grayagain);
    assert forall x :: Marked(m', x) <==> Marked(m, x);
    assert t !in m.gray && t !in m.grayagain;
    forall x | x in h && m'.color[x] == Black
      ensures RefsMarked(h, m', x)
    {
      assert RefsMarked(h, m, x);
    }
  }

  lemma BackSweepOk(s: State, t: Ref)
    requires HeapOk(s, {}) && LiveClosed(s) && PhaseOk(s) && IsBlack(s, t) && s.gcstate != Propagate && t in s.heap
    requires s.heap[t].Table?
    ensures Inv(BarrierBack(s, t))
  {
    hide RootListOk, StringsOk, OpenUpvalsOk, LiveClosed, HeapOk;
    var s' := BarrierBack(s, t);
    RecolorHeapOk(s, s', {});
    RecolorLive(s, s');
    if s.gcstate == SweepString || s.gcstate == Sweep {
      forall i | 0 <= i < s'.sweepgc <= |s'.rootgc|
        ensures Swept(s', s'.rootgc[i])
      {
        assert Swept(s, s.rootgc[i]);
        forall u | u in OpenList(s', s'.rootgc[i])
          ensures IsFresh(s', u)
        {
          assert u in OpenList(s, s.rootgc[i]);
        }
      }
      assert SweptOk(s');
      hide SweptOk;
      forall b | BucketSwept(s, b)
        ensures BucketSwept(s', b)
      {
      }
    }
  }

  /** The two stores of a new table entry, each with its back barrier. */
  lemma TableBarrierOk(s: State, s1: State, t: Ref, key: Value, v: Value)
    requires Inv(s) && Stored(s, s1, t, key, v) && Live(s, t) && s.heap[t].Table?
    ensures Inv(BarrierT(BarrierT(s1, t, key), t, v))
  {
    StoredLive(s, s1, t, key, v);
    StoredOk(s, s1, t, key, v);
    hide HeapOk, LiveClosed;
    if IsBlack(s1, t) && (ValueIsWhite(s1, key) || ValueIsWhite(s1, v)) {
      assert BarrierT(BarrierT(s1, t, key), t, v) == BarrierBack(s1, t);
      hide PhaseOk;
      if s.gcstate == Propagate { BarrierBackOk(s, s1, t, key, v); } else { BackSweepOk(s1, t); }
    } else if s.gcstate == Propagate && IsBlack(s, t) {
      BarrierNotNeeded(s, s1, t, key, v);
    }
  }

  // ----- every operation -----

  lemma SetStackStored(s: State, th: Ref, gt: Value, stack: seq<Value>, v: Value)
    requires Enabled(s, SetStack(th, gt, stack, v))
    ensures Stored(s, Do(s, SetStack(th, gt, stack, v)), th, v, Nil) && Live(s, th)
    ensures th in s.heap && s.heap[th].Thread?
  {
  }

  lemma SetStackOk(s: State, th: Ref, gt: Value, stack: seq<Value>, v: Value)
    requires Inv(s) && Enabled(s, SetStack(th, gt, stack, v))
    ensures Inv(Do(s, SetStack(th, gt, stack, v)))
  {
    hide RootListOk, StringsOk, OpenUpvalsOk, LiveClosed, PhaseOk, Stored, Live, ValueLive;
    var s' := Do(s, SetStack(th, gt, stack, v));
    SetStackStored(s, th, gt, stack, v);
    ThreadNotBlack(s, th);
    StoredLive(s, s', th, v, Nil);
    StoredOk(s, s', th, v, Nil);
  }

  lemma ThreadNotBlack(s: State, th: Ref)
    requires Inv(s) && s.gcstate == Propagate ==> th in s.heap && (s.heap[th].Thread? || IsOpen(s.heap, th))
    ensures Inv(s) && s.gcstate == Propagate ==> !IsBlack(s, th)
  {
    if Inv(s) && s.gcstate == Propagate { assert KindColor(s.heap[th], s.marks.color[th]); }
  }

  /** Writing through an open upvalue needs no barrier: it is a stack write. */
  lemma SetUpValOk(s: State, uv: Ref, v: Value)
    requires Inv(s) && Enabled(s, SetUpVal(uv, v))
    ensures Inv(Do(s, SetUpVal(uv, v)))
  {
    match s.heap[uv].v
    case Closed(_) =>
      var s1 := s.(heap := s.heap[uv := UpVal(Closed(v))]);
      assert Stored(s, s1, uv, v, Nil);
      BarrierOk(s, s1, uv, v);
    case Open(th, level) =>
      SetOpenUpValOk(s, uv, v);
  }

  /** The thread of an open upvalue need not be alive; nothing alive but its
      upvalues can see its stack then. */
  lemma SetOpenUpValOk(s: State, uv: Ref, v: Value)
    requires Inv(s) && Enabled(s, SetUpVal(uv, v)) && IsOpen(s.heap, uv)
    ensures Inv(Do(s, SetUpVal(uv, v)))
  {
    hide LiveClosed, PhaseOk;
    var th, level := s.heap[uv].v.thread, s.heap[uv].v.level;
    assert UpValOk(s.heap, uv);
    var s1 := s.(heap := s.heap[th := s.heap[th].(stack := s.heap[th].stack[level := v])]);
    SetSlotStored(s, s1, th, level, v);
    SetSlotLive(s, s1, th, level, v);
    ThreadNotBlack(s, th);
    OpenNotBlack(s, uv);
    StoredOk(s, s1, th, v, Nil);
  }

  lemma SetSlotStored(s: State, s1: State, th: Ref, level: nat, v: Value)
    requires OpenUpvalsOk(s) && th in s.heap && s.heap[th].Thread? && level < |s.heap[th].stack| && ValueLive(s, v)
    requires s1 == s.(heap := s.heap[th := s.heap[th].(stack := s.heap[th].stack[level := v])])
    ensures Stored(s, s1, th, v, Nil)
  {
    forall u | OpenIn(s.heap, u, th)
      ensures s.heap[u].v.level < |s.heap[th].stack|
    {
      assert UpValOk(s.heap, u);
    }
  }

  lemma SetSlotLive(s: State, s1: State, th: Ref, level: nat, v: Value)
    requires OpenUpvalsOk(s) && LiveClosed(s) && Stored(s, s1, th, v, Nil) && s.heap[th].Thread?
    requires level < |s.heap[th].stack|
    requires s1.heap[th] == s.heap[th].(stack := s.heap[th].stack[level := v])
    ensures LiveClosed(s1)
  {
    forall x | Live(s1, x)
      ensures RefsLive(s1, x)
    {
      assert Live(s, x) && RefsLive(s, x);
      forall r | PointsTo(s1.heap, x, r)
        ensures Live(s1, r)
      {
        if IsOpen(s.heap, x) { assert UpValOk(s.heap, x); }
        assert PointsTo(s.heap, x, r) || v == Obj(r);
      }
    }
    assert Roots(s1) == Roots(s);
  }

  lemma OpenNotBlack(s: State, u: Ref)
    requires Inv(s) && IsOpen(s.heap, u)
    ensures !IsBlack(s, u)
  {
    if s.gcstate == Propagate { assert KindColor(s.heap[u], s.marks.color[u]); }
  }

  lemma StoreOk(s: State, o: Ref, body: Object, v: Value)
    requires Inv(s) && Enabled(s, Store(o, body, v))
    ensures Inv(Do(s, Store(o, body, v)))
  {
    var s1 := s.(heap := s.heap[o := body]);
    assert Stored(s, s1, o, v, Nil);
    BarrierOk(s, s1, o, v);
  }

  lemma TableStoreOk(s: State, t: Ref, body: Object, key: Value, v: Value)
    requires Inv(s) && Enabled(s, TableStore(t, body, key, v))
    ensures Inv(Do(s, TableStore(t, body, key, v)))
  {
    hide HeapOk, LiveClosed, PhaseOk, Inv;
    var s1 := s.(heap := s.heap[t := body]);
    assert Stored(s, s1, t, key, v);
    TableBarrierOk(s, s1, t, key, v);
  }

  lemma SetRootsOk(s: State, s': State)
    requires Inv(s) && s' == s.(mt := s'.mt, running := s'.running)
    requires (forall r :: Some(r) in s'.mt ==> Live(s, r)) && Live(s, s'.running) && s.heap[s'.running].Thread?
    ensures Inv(s')
  {
    hide RootListOk, OpenUpvalsOk, MarkOk;
    forall o | Live(s', o)
      ensures RefsLive(s', o)
    {
      assert RefsLive(s, o);
    }
    forall r | r in Roots(s')
      ensures Live(s', r)
    {
      if r != s'.mainthread && r != s'.running && s'.registry != Obj(r) { assert Some(r) in s'.mt; }
          else { assert r in Roots(s) || r == s'.running; }
    }
    SetRootsLists(s, s');
  }

  lemma SetRootsLists(s: State, s': State)
    requires Inv(s) && s' == s.(mt := s'.mt, running := s'.running)
    ensures RootListOk(s', {}) && StringsOk(s') && OpenUpvalsOk(s') && PhaseOk(s')
  {
    hide LiveClosed, MarkOk, RootListOk, OpenUpvalsOk;
    assert StringsOk(s') by {
      forall b | 0 <= b < |s'.strt| ensures BucketOk(s', b) { assert BucketOk(s, b); }
    }
    hide StringsOk;
    SetRootsSwept(s, s');
    SetRootsFrame(s, s');
    hide SweptOk;
    forall b | BucketSwept(s, b)
      ensures BucketSwept(s', b)
    {
    }
  }

  lemma SetRootsFrame(s: State, s': State)
    requires s' == s.(mt := s'.mt, running := s'.running)
    ensures RootListOk(s, {}) ==> RootListOk(s', {})
    ensures OpenUpvalsOk(s) ==> OpenUpvalsOk(s')
  {
  }

  lemma SetRootsSwept(s: State, s': State)
    requires s' == s.(mt := s'.mt, running := s'.running)
    ensures SweptOk(s) ==> SweptOk(s')
  {
    if SweptOk(s) {
      forall i | 0 <= i < s'.sweepgc <= |s'.rootgc|
        ensures Swept(s', s'.rootgc[i])
      {
        assert Swept(s, s.rootgc[i]);
        assert OpenList(s', s'.rootgc[i]) == OpenList(s, s.rootgc[i]);
      }
    }
  }

  /** A change that no list and no open upvalue shows. */
  lemma SameLists(s: State, s': State)
    requires s' == s.(registry := s'.registry, fixed := s'.fixed)
    ensures RootListOk(s, {}) ==> RootListOk(s', {})
    ensures OpenUpvalsOk(s) ==> OpenUpvalsOk(s')
    ensures StringsOk(s) ==> StringsOk(s')
  {
    if StringsOk(s) {
      forall b | 0 <= b < |s.strt|
        ensures BucketOk(s', b)
      {
        assert BucketOk(s, b);
      }
    }
  }

  lemma SetRegistryOk(s: State, v: Value)
    requires Inv(s) && s.gcstate == Pause && ValueLive(s, v)
    ensures Inv(s.(registry := v))
  {
    hide RootListOk, StringsOk, OpenUpvalsOk;
    var s' := s.(registry := v);
    SameLists(s, s');
    forall o | Live(s', o)
      ensures RefsLive(s', o)
    {
      assert RefsLive(s, o);
    }
    forall r | r in Roots(s')
      ensures Live(s', r)
    {
      if v != Obj(r) { assert r in Roots(s); }
    }
  }

  lemma FixStringOk(s: State, o: Ref)
    requires Inv(s) && Live(s, o) && s.heap[o].Str?
    ensures Inv(s.(fixed := s.fixed + {o}))
  {
    hide RootListOk, StringsOk, OpenUpvalsOk, MarkOk;
    var s' := s.(fixed := s.fixed + {o});
    SameLists(s, s');
    assert Roots(s') == Roots(s);
    forall x | Live(s', x)
      ensures RefsLive(s', x)
    {
      assert RefsLive(s, x);
    }
    FixPhase(s, s');
  }

  lemma FixPhase(s: State, s': State)
    requires s' == s.(fixed := s'.fixed) && PhaseOk(s)
    ensures PhaseOk(s')
  {
    hide MarkOk;
    if s.gcstate == SweepString || s.gcstate == Sweep {
      forall i | 0 <= i < s'.sweepgc <= |s'.rootgc|
        ensures Swept(s', s'.rootgc[i])
      {
        assert Swept(s, s.rootgc[i]) && OpenList(s', s.rootgc[i]) == OpenList(s, s.rootgc[i]);
      }
      forall b | BucketSwept(s, b)
        ensures BucketSwept(s', b)
      {
      }
    }
  }

  /** Every enabled operation of the program, and every step of the collector, keeps
      the invariant. */
  lemma DoOk(s: State, op: Op)
    requires Inv(s) && Enabled(s, op)
    ensures Inv(Do(s, op))
  {
    hide Inv;
    match op
    case CollectorStep => SingleStepOk(s);
    case NewObject(o, body) => NewObjectOk(s, o, body);
    case NewUdata(o, body) => NewUdataOk(s, o, body);
    case NewString(o, hash) => NewStringOk(s, o, hash);
    case FindString(o) => FindStringOk(s, o);
    case FindUpVal(th, level, o) => FindUpValOk(s, th, level, o);
    case Close(th, level) => CloseOk(s, th, level);
    case SetStack(th, gt, stack, v) => SetStackOk(s, th, gt, stack, v);
    case SetUpVal(uv, v) => SetUpValOk(s, uv, v);
    case Store(o, body, v) => StoreOk(s, o, body, v);
    case TableStore(o, body, key, v) => TableStoreOk(s, o, body, key, v);
    case SetBasicMetatables(mt) => RunningLive(s); SetRootsOk(s, Do(s, op));
    case SwitchThread(th) => RunningLive(s); SetRootsOk(s, Do(s, op));
    case SetRegistry(v) => SetRegistryOk(s, v);
    case FixString(o) => FixStringOk(s, o);
  }

  lemma RunningLive(s: State)
    requires Inv(s)
    ensures Live(s, s.running) && s.heap[s.running].Thread? && forall r :: Some(r) in s.mt ==> Live(s, r)
  {
    assert s.running in Roots(s);
    forall r | Some(r) in s.mt
      ensures Live(s, r)
    {
      assert Some(r).value in Roots(s);
    }
  }

  // ----- whole runs -----

  ghost predicate EnabledRun(s: State, ops: seq<Op>)
    decreases |ops|
  {
    ops == [] || (Enabled(s, ops[0]) && EnabledRun(Do(s, ops[0]), ops[1..]))
  }

  /** No step of the run frees an object that was reachable, and no collector step
      changes what a reachable object shows. */
  ghost predicate SafeRun(s: State, ops: seq<Op>)
    requires EnabledRun(s, ops)
    decreases |ops|
  {
    ops == [] ||
    (&& (forall o :: Reachable(s.heap, Roots(s), o) ==> o in Do(s, ops[0]).heap)
     && (ops[0] == CollectorStep ==> KeepsReachable(s, Do(s, ops[0])))
     && SafeRun(Do(s, ops[0]), ops[1..]))
  }

  function Run(s: State, ops: seq<Op>): State
    requires EnabledRun(s, ops)
    decreases |ops|
  {
    if ops == [] then s else Run(Do(s, ops[0]), ops[1..])
  }

  /** No operation frees a live object. */
  lemma DoFreesNothingLive(s: State, op: Op, o: Ref)
    requires Inv(s) && Enabled(s, op) && Reachable(s.heap, Roots(s), o)
    ensures o in Do(s, op).heap
  {
    ReachableLive(s, o);
    hide Inv, LiveClosed;
    match op
    case CollectorStep => SingleStepOk(s);
    case Close(th, level) => CloseOk(s, th, level);
    case _ => OthersFreeNothing(s, op, o);
  }

  lemma FindKeepsHeap(s: State, th: Ref, level: nat, o: Ref)
    requires th in s.heap && s.heap[th].Thread?
    ensures s.heap.Keys <= FindOrMakeUpVal(s, th, level, o).heap.Keys
  {
  }

  lemma WriteKeepsHeap(s: State, uv: Ref, v: Value)
    requires uv in s.heap && s.heap[uv].UpVal?
    ensures s.heap.Keys <= WriteUpVal(s, uv, v).heap.Keys
  {
  }

  lemma BarriersKeepHeap(s: State, o: Ref)
    ensures forall v :: Barrier(s, o, v).heap == s.heap && BarrierT(s, o, v).heap == s.heap
  {
  }

  lemma OthersFreeNothing(s: State, op: Op, o: Ref)
    requires Enabled(s, op) && op != CollectorStep && !op.Close? && o in s.heap
    ensures o in Do(s, op).heap
  {
    hide Holds, NewRefs, PointsTo, ValueLive, OpenIn, SameKind, FindOrMakeUpVal, WriteUpVal, Barrier, BarrierT;
    match op
    case FindUpVal(th, level, r) =>
      FindKeepsHeap(s, th, level, r);
    case SetUpVal(uv, v) =>
      WriteKeepsHeap(s, uv, v);
    case Store(r, body, v) =>
      BarriersKeepHeap(s.(heap := s.heap[r := body]), r);
    case TableStore(r, body, key, v) =>
      var s1 := s.(heap := s.heap[r := body]);
      BarriersKeepHeap(s1, r);
      BarriersKeepHeap(BarrierT(s1, r, key), r);
    case _ =>
  }

  /** Whatever the program does and however collector steps are mixed in, the
      invariant holds throughout and nothing reachable is ever freed. */
  lemma {:induction false} RunSafe(s: State, ops: seq<Op>)
    requires Inv(s) && EnabledRun(s, ops)
    ensures Inv(Run(s, ops)) && SafeRun(s, ops)
    decreases |ops|
  {
    hide Inv, KeepsReachable;
    if ops != [] {
      DoOk(s, ops[0]);
      forall o | Reachable(s.heap, Roots(s), o)
        ensures o in Do(s, ops[0]).heap
      {
        DoFreesNothingLive(s, ops[0], o);
      }
      if ops[0] == CollectorStep { SingleStepOk(s); }
      RunSafe(Do(s, ops[0]), ops[1..]);
    }
  }

  /** The state `lua_newstate` starts from: the main thread alone. */
  function Initial(main: Ref, buckets: nat, tags: nat): State {
    var color := map[main := White(false)];
    State(map[main := Thread(Nil, [], [])], Marks(color, [], []), {main}, Pause, false, [main], 0,
          seq(buckets, _ => []), 0, [], main, main, Nil, seq(tags, _ => None))
  }

  lemma InitialOk(main: Ref, buckets: nat, tags: nat)
    requires buckets > 0
    ensures Inv(Initial(main, buckets, tags))
  {
    var s := Initial(main, buckets, tags);
    assert Roots(s) == {main};
    forall b | 0 <= b < |s.strt|
      ensures BucketOk(s, b)
    {
    }
  }
}
