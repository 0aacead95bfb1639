/** The collector as the source runs it: one global state updated in place
    (lua-5.1/lgc.c, lua-5.1/lfunc.c). Every method is tied to its specification in
    `Marking`, `Collector`, `Mutator` or `FullCollection`. */
module CollectorMachine {
  import opened LuaObjects
  import opened Marking
  import opened Collector
  import opened CollectorInvariant
  import opened Mutator
  import opened FullCollection

  lemma RootFacts(s: State)
    requires Inv(s) && AllFresh(s)
    ensures NoDangling(s.heap) && s.mainthread in s.heap && s.heap[s.mainthread].Thread?
    ensures (s.registry.Obj? ==> s.registry.ref in s.heap) && forall r :: Some(r) in s.mt ==> r in s.heap
  {
    NothingDangles(s);
    RootsAllocated(s);
  }

  /** What an upvalue refers to is allocated, if nothing dangles. */
  lemma UpValueThere(h: Heap, u: Ref)
    requires u in h && h[u].UpVal? && NoDangling(h)
    ensures var v := UpValue(h, h[u].v); v.Obj? ==> v.ref in h
  {
    var v := UpValue(h, h[u].v);
    assert v.Obj? ==> PointsTo(h, u, v.ref);
  }

  /** One round of the sweep of the open upvalues of a thread. */
  lemma SweepOpenAt(s: State, th: Ref, i: nat)
    requires OpenUpvalsOk(s) && th in s.heap && s.heap[th].Thread?
    ensures i >= |OpenList(s, th)| ==> SweepOpen(s, th, i) == s
    ensures i < |OpenList(s, th)| ==>
      var u := OpenList(s, th)[i];
      var s1 := if Survives(s, u) then MakeWhite(s, u) else Collector.FreeUpVal(DropOpen(s, th, i), u);
      && u in s.heap && s.heap[u].UpVal? && u != th && th in s1.heap && s1.heap[th].Thread? && OpenUpvalsOk(s1)
      && |OpenList(s1, th)| == (if Survives(s, u) then |OpenList(s, th)| else |OpenList(s, th)| - 1)
      && SweepOpen(s, th, i) == SweepOpen(s1, th, if Survives(s, u) then i + 1 else i)
  {
    if i < |OpenList(s, th)| {
      OpenAt(s, th, i);
      hide UpValOk, OpenListOk, Without;
      var u := OpenList(s, th)[i];
      if !Survives(s, u) { FreeOpenUpvals(s, th, i, Collector.FreeUpVal(DropOpen(s, th, i), u)); }
    }
  }

  class GlobalState {
    var heap: Heap
    var color: map<Ref, Color>
    var gray: seq<Ref>
    var grayagain: seq<Ref>
    var fixed: set<Ref>
    var gcstate: GcState
    var currentwhite: bool
    var rootgc: seq<Ref>
    var sweepgc: nat
    var strt: seq<seq<Ref>>
    var sweepstrgc: nat
    var uvhead: seq<Ref>
    var mainthread: Ref
    var running: Ref
    var registry: Value
    var mt: seq<Option<Ref>>

    ghost function M(): Marks
      reads this
    {
      Marks(color, gray, grayagain)
    }

    ghost function View(): State
      reads this
    {
      State(heap, M(), fixed, gcstate, currentwhite, rootgc, sweepgc, strt, sweepstrgc, uvhead, mainthread, running,
          registry, mt)
    }

    ghost predicate Valid()
      reads this
    {
      Inv(View())
    }

    // ----- marking -----

    /** The macro `markobject`. */
    method MarkObject(o: Ref)
      requires NoDangling(heap) && o in heap
      modifies this`color, this`gray
      ensures M() == Marking.MarkObject(heap, old(M()), o)
      decreases Whites(M()), 1
    {
      if o in color && color[o].White? { ReallyMarkObject(o); }
    }

    /** The macro `markvalue`. */
    method MarkValue(v: Value)
      requires NoDangling(heap) && (v.Obj? ==> v.ref in heap)
      modifies this`color, this`gray
      ensures M() == Marking.MarkValue(heap, old(M()), v)
      decreases Whites(M()), 2
    {
      if v.Obj? { MarkObject(v.ref); }
    }

    method ReallyMarkObject(o: Ref)
      requires NoDangling(heap) && o in heap && IsWhite(M(), o)
      modifies this`color, this`gray
      ensures M() == Marking.ReallyMarkObject(heap, old(M()), o)
      decreases Whites(M()), 0
    {
      color := color[o := Gray];
      assert M() == Paint(old(M()), o, Gray);
      match heap[o]
      case Str(_) =>
      case Udata(metatable, env) =>
        color := color[o := Black];  // nothing in it waits to be traversed
        assert M() == Paint(old(M()), o, Black);
        assert metatable.Some? ==> PointsTo(heap, o, metatable.value);
        assert PointsTo(heap, o, env);
        if metatable.Some? { MarkObject(metatable.value); }
        MarkObject(env);
      case UpVal(c) =>
        var v := UpValue(heap, c);
        assert v.Obj? ==> PointsTo(heap, o, v.ref);
        MarkValue(v);
        if c.Closed? { color := color[o := Black]; }  // its slot may change without a barrier
      case _ => gray := [o] + gray;
    }

    /** Marks the values of a list, first to last. */
    method MarkList(vs: seq<Value>)
      requires NoDangling(heap) && forall r :: Obj(r) in vs ==> r in heap
      modifies this`color, this`gray
      ensures M() == MarkValues(heap, old(M()), vs)
    {
      var i := 0;
      while i < |vs|
        invariant i <= |vs| && MarkValues(heap, M(), vs[i..]) == MarkValues(heap, old(M()), vs)
      {
        assert vs[i] in vs && vs[i..][1..] == vs[i+1..];
        MarkValue(vs[i]);
        i := i + 1;
      }
    }

    method MarkOption(v: Option<Ref>)
      requires NoDangling(heap) && (v.Some? ==> v.value in heap)
      modifies this`color, this`gray
      ensures M() == Marking.MarkValue(heap, old(M()), OptionValue(v))
    {
      if v.Some? { MarkObject(v.value); }
    }

    /** Marks the objects of a list of optional references. */
    method MarkOptions(vs: seq<Option<Ref>>)
      requires NoDangling(heap) && forall r :: Some(r) in vs ==> r in heap
      modifies this`color, this`gray
      ensures M() == MarkValues(heap, old(M()), OptionValues(vs))
    {
      var i := 0;
      while i < |vs|
        invariant i <= |vs|
        invariant MarkValues(heap, M(), OptionValues(vs[i..])) == MarkValues(heap, old(M()), OptionValues(vs))
      {
        assert OptionValues(vs[i..])[0] == OptionValue(vs[i]) && OptionValues(vs[i..])[1..] == OptionValues(vs[i+1..]);
        assert vs[i].Some? ==> Some(vs[i].value) in vs;
        MarkOption(vs[i]);
        i := i + 1;
      }
      assert vs[i..] == [];
    }

    /** The array part of a table, from the end. */
    method MarkArray(arr: seq<Value>)
      requires NoDangling(heap) && forall r :: Obj(r) in arr ==> r in heap
      modifies this`color, this`gray
      ensures M() == MarkValues(heap, old(M()), Backwards(arr))
    {
      var i := |arr|;
      assert arr[..i] == arr;
      while i > 0
        invariant 0 <= i <= |arr|
        invariant MarkValues(heap, M(), Backwards(arr[..i])) == MarkValues(heap, old(M()), Backwards(arr))
      {
        i := i - 1;
        assert arr[..i+1][..i] == arr[..i] && arr[i] in arr;
        assert ([arr[i]] + Backwards(arr[..i]))[1..] == Backwards(arr[..i]);
        MarkValue(arr[i]);
      }
    }

    /** The hash part of a table, from the end; empty entries are passed over. */
    method MarkNodes(node: seq<Node>)
      requires NoDangling(heap) && forall r :: HoldsEntry(node, r) ==> r in heap
      modifies this`color, this`gray
      ensures M() == MarkValues(heap, old(M()), EntriesBackwards(node))
    {
      var i := |node|;
      assert node[..i] == node;
      while i > 0
        invariant 0 <= i <= |node|
        invariant MarkValues(heap, M(), EntriesBackwards(node[..i])) == MarkValues(heap, old(M()),
            EntriesBackwards(node))
      {
        i := i - 1;
        var n := node[i];
        assert node[..i+1][..i] == node[..i];
        ghost var rest := EntriesBackwards(node[..i]);
        if n.val != Nil {
          assert n.key.Obj? ==> HoldsEntry(node, n.key.ref);
          assert n.val.Obj? ==> HoldsEntry(node, n.val.ref);
          assert ([n.key, n.val] + rest)[1..] == [n.val] + rest && ([n.val] + rest)[1..] == rest;
          MarkValue(n.key);
          MarkValue(n.val);
        } else {
          assert [] + rest == rest;
        }
      }
      assert node[..0] == [];
    }

    /** `traversetable`, for a table that is not weak. */
    method TraverseTable(o: Ref)
      requires NoDangling(heap) && o in heap && heap[o].Table?
      modifies this`color, this`gray
      ensures M() == MarkValues(heap, old(M()), Children(heap, o))
    {
      var metatable, arr, node := heap[o].metatable, heap[o].arr, heap[o].node;
      assert metatable.Some? ==> PointsTo(heap, o, metatable.value);
      forall r | Obj(r) in arr || HoldsEntry(node, r) ensures r in heap { assert PointsTo(heap, o, r); }
      assert Children(heap, o)[1..] == Backwards(arr) + EntriesBackwards(node);
      MarkOption(metatable);
      MarkAppend(heap, M(), Backwards(arr), EntriesBackwards(node));
      MarkArray(arr);
      MarkNodes(node);
    }

    /** `traverseclosure`. */
    method TraverseClosure(o: Ref)
      requires NoDangling(heap) && o in heap && (heap[o].CClosure? || heap[o].LClosure?)
      modifies this`color, this`gray
      ensures M() == MarkValues(heap, old(M()), Children(heap, o))
    {
      var env := heap[o].env;
      assert PointsTo(heap, o, env);
      MarkObject(env);
      assert MarkValues(heap, M(), Children(heap, o)[1..]) == MarkValues(heap, old(M()), Children(heap, o));
      if heap[o].CClosure? {
        var up := heap[o].upvalue;
        assert Children(heap, o)[1..] == up;
        forall r | Obj(r) in up ensures r in heap { assert PointsTo(heap, o, r); }
        MarkList(up);
      } else {
        var p, up := heap[o].p, heap[o].upvals;
        ghost var all := MarkValues(heap, old(M()), Children(heap, o));
        assert Children(heap, o)[1..] == [Obj(p)] + RefValues(up);
        assert ([Obj(p)] + RefValues(up))[1..] == RefValues(up);
        assert PointsTo(heap, o, p);
        MarkObject(p);
        var i := 0;
        assert up[0..] == up;
        while i < |up|
          invariant i <= |up| && MarkValues(heap, M(), RefValues(up[i..])) == all
        {
          assert RefValues(up[i..])[0] == Obj(up[i]) && RefValues(up[i..])[1..] == RefValues(up[i+1..]);
          assert up[i] in up && PointsTo(heap, o, up[i]);
          MarkObject(up[i]);
          i := i + 1;
        }
        assert up[i..] == [];
      }
    }

    /** `traversestack`. */
    method TraverseStack(o: Ref)
      requires NoDangling(heap) && o in heap && heap[o].Thread?
      modifies this`color, this`gray
      ensures M() == MarkValues(heap, old(M()), Children(heap, o))
    {
      var gt, stack := heap[o].gt, heap[o].stack;
      assert gt.Obj? ==> PointsTo(heap, o, gt.ref);
      assert Children(heap, o)[1..] == stack;
      MarkValue(gt);
      forall r | Obj(r) in stack ensures r in heap { assert PointsTo(heap, o, r); }
      MarkList(stack);
    }

    /** `traverseproto`: source, constants, upvalue names, nested prototypes, names of locals. */
    method TraverseProto(o: Ref)
      requires NoDangling(heap) && o in heap && heap[o].Proto?
      modifies this`color, this`gray
      ensures M() == MarkValues(heap, old(M()), Children(heap, o))
    {
      var f := heap[o];
      ghost var rest := f.k + (OptionValues(f.upvalues) + (OptionValues(f.protos) + OptionValues(f.locvars)));
      assert f.source.Some? ==> PointsTo(heap, o, f.source.value);
      assert Children(heap, o)[1..] == rest;
      MarkOption(f.source);
      forall r | Obj(r) in f.k ensures r in heap { assert PointsTo(heap, o, r); }
      MarkList(f.k);
      MarkAppend(heap, Marking.MarkValue(heap, old(M()), OptionValue(f.source)), f.k,
                 OptionValues(f.upvalues) + (OptionValues(f.protos) + OptionValues(f.locvars)));
      MarkAppend(heap, M(), OptionValues(f.upvalues), OptionValues(f.protos) + OptionValues(f.locvars));
      forall r | Some(r) in f.upvalues ensures r in heap { assert PointsTo(heap, o, r); }
      MarkOptions(f.upvalues);
      MarkAppend(heap, M(), OptionValues(f.protos), OptionValues(f.locvars));
      forall r | Some(r) in f.protos ensures r in heap { assert PointsTo(heap, o, r); }
      MarkOptions(f.protos);
      forall r | Some(r) in f.locvars ensures r in heap { assert PointsTo(heap, o, r); }
      MarkOptions(f.locvars);
    }

    /** `propagatemark`. */
    method PropagateMark()
      requires NoDangling(heap) && gray != [] && gray[0] in heap && Listable(heap[gray[0]])
      requires gray[0] in color && color[gray[0]] == Gray
      modifies this`color, this`gray, this`grayagain
      ensures M() == Marking.PropagateMark(heap, old(M()))
    {
      var o := gray[0];
      color := color[o := Black];
      gray := gray[1..];
      match heap[o]
      case Table(_, _, _) => TraverseTable(o);
      case CClosure(_, _) => TraverseClosure(o);
      case LClosure(_, _, _) => TraverseClosure(o);
      case Thread(_, _, _) =>
        grayagain := [o] + grayagain;
        color := color[o := Gray];
        assert color == old(color);
        TraverseStack(o);
      case Proto(_, _, _, _, _) => TraverseProto(o);
    }

    method PropagateAll()
      requires MarkOk(heap, M(), {}, Running)
      modifies this`color, this`gray, this`grayagain
      ensures M() == Marking.PropagateAll(heap, old(M()))
    {
      hide MarkOk;
      while gray != []
        invariant MarkOk(heap, M(), {}, Running)
        invariant Marking.PropagateAll(heap, M()) == Marking.PropagateAll(heap, old(M()))
        decreases Whites(M()), |gray|
      {
        GrayFirst(heap, M());
        PropagateMarkOk(heap, M(), Running);
        PropagateMark();
      }
    }

    /** The marking of `markroot`. */
    method MarkRoots()
      requires NoDangling(heap) && mainthread in heap && heap[mainthread].Thread?
      requires (registry.Obj? ==> registry.ref in heap) && forall r :: Some(r) in mt ==> r in heap
      modifies this`color, this`gray, this`grayagain
      ensures M() == Marking.MarkRoot(heap, old(color), mainthread, registry, mt)
    {
      gray := [];
      grayagain := [];
      MarkObject(mainthread);
      var gt := heap[mainthread].gt;
      assert gt.Obj? ==> PointsTo(heap, mainthread, gt.ref);
      ghost var all := MarkValues(heap, M(), [gt, registry] + OptionValues(mt));
      assert ([gt, registry] + OptionValues(mt))[1..] == [registry] + OptionValues(mt);
      assert ([registry] + OptionValues(mt))[1..] == OptionValues(mt);
      MarkValue(gt);
      assert MarkValues(heap, M(), [registry] + OptionValues(mt)) == all;
      MarkValue(registry);
      MarkOptions(mt);
    }

    /** `markroot`. */
    method MarkRoot()
      requires Valid() && AllFresh(View())
      modifies this`color, this`gray, this`grayagain, this`gcstate
      ensures View() == MarkRootStep(old(View()))
    {
      hide Inv, AllFresh, NoDangling, Marking.MarkRoot;
      RootFacts(View());
      MarkRoots();
      gcstate := Propagate;
    }

    /** `remarkupvals`. */
    method RemarkUpvals()
      requires NoDangling(heap) && (forall u :: u in uvhead ==> IsOpen(heap, u)) && color.Keys == heap.Keys
      modifies this`color, this`gray
      ensures M() == Marking.RemarkUpvals(heap, old(M()), uvhead)
    {
      var i := 0;
      while i < |uvhead|
        invariant i <= |uvhead| && color.Keys == heap.Keys
        invariant Marking.RemarkUpvals(heap, M(), uvhead[i..]) == Marking.RemarkUpvals(heap, old(M()), uvhead)
      {
        var uv := uvhead[i];
        assert uv in uvhead && uvhead[i..][1..] == uvhead[i+1..];
        if color[uv] == Gray {
          var v := UpValue(heap, heap[uv].v);
          assert v.Obj? ==> PointsTo(heap, uv, v.ref);
          MarkValue(v);
        }
        i := i + 1;
      }
    }

    /** The marking of `atomic`. */
    method MarkAtomic()
      requires MarkOk(heap, M(), {}, Running) && gray == [] && running in heap
      requires (forall u :: u in uvhead ==> IsOpen(heap, u)) && forall r :: Some(r) in mt ==> r in heap
      modifies this`color, this`gray, this`grayagain
      ensures M() == AtomicMarks(heap, old(M()), uvhead, running, mt)
    {
      hide MarkOk;
      AtomicIsRun(heap, M(), uvhead, running, mt);
      RemarkUpvals();
      PropagateAll();
      MarkObject(running);
      MarkOptions(mt);
      PropagateAll();
      gray := grayagain;
      grayagain := [];
      PropagateAll();
    }

    /** `atomic`. */
    method Atomic()
      requires Valid() && gcstate == Propagate && gray == []
      modifies this
      ensures View() == AtomicStep(old(View()))
    {
      hide Inv, MarkOk, AtomicMarks;
      AtomicFacts(View());
      ghost var s := View();
      MarkAtomic();
      assert View() == s.(marks := AtomicMarks(s.heap, s.marks, s.uvhead, s.running, s.mt));
      currentwhite := !currentwhite;
      sweepstrgc := 0;
      sweepgc := 0;
      gcstate := SweepString;
    }

    // ----- barriers and linking -----

    /** `luaC_barrierf`. */
    method BarrierF(o: Ref, v: Ref)
      requires NoDangling(heap) && v in heap && IsWhite(M(), v)
      modifies this`color, this`gray
      ensures View() == Collector.BarrierF(old(View()), o, v)
    {
      if gcstate == Propagate {
        ReallyMarkObject(v);  // no black object points to a white one
      } else {
        color := color[o := White(currentwhite)];  // later stores into `o` need no barrier
      }
    }

    /** `luaC_barrierback`. */
    method BarrierBack(t: Ref)
      modifies this`color, this`grayagain
      ensures View() == Collector.BarrierBack(old(View()), t)
    {
      color := color[t := Gray];
      grayagain := [t] + grayagain;
    }

    /** `luaC_link`. */
    method Link(o: Ref, body: Object)
      modifies this`heap, this`color, this`rootgc, this`sweepgc
      ensures View() == Collector.Link(Allocate(old(View()), o, body), o)
    {
      heap := heap[o := body];
      color := color[o := White(currentwhite)];
      rootgc := [o] + rootgc;
      sweepgc := if sweepgc == 0 then 0 else sweepgc + 1;
    }

    /** `luaC_linkupval`: the upvalue has just been closed. */
    method LinkUpVal(u: Ref)
      requires u in heap && heap[u].UpVal? && (gcstate == Propagate ==> NoDangling(heap))
      modifies this`color, this`gray, this`rootgc, this`sweepgc
      ensures View() == Collector.LinkUpVal(old(View()), u)
    {
      hide Marking.MarkObject, PointsTo;
      rootgc := [u] + rootgc;
      sweepgc := if sweepgc == 0 then 0 else sweepgc + 1;
      if u in color && color[u] == Gray {
        if gcstate == Propagate {
          color := color[u := Black];  // it can no longer be rescanned with its stack
          var v := UpValue(heap, heap[u].v);
          UpValueThere(heap, u);
          if v.Obj? && v.ref in color && color[v.ref].White? { BarrierF(u, v.ref); }
        } else {
          color := color[u := White(currentwhite)];
        }
      }
    }

    /** `unlinkupval`. */
    method UnlinkUpVal(u: Ref)
      modifies this`uvhead
      ensures uvhead == Without(old(uvhead), u)
    {
      var i := 0;
      while i < |uvhead| && uvhead[i] != u
        invariant i <= |uvhead| && uvhead == old(uvhead)
        invariant Without(uvhead, u) == uvhead[..i] + Without(uvhead[i..], u)
      {
        assert uvhead[i..][1..] == uvhead[i+1..];
        assert uvhead[..i] + ([uvhead[i]] + Without(uvhead[i+1..], u)) == uvhead[..i+1] + Without(uvhead[i+1..], u);
        i := i + 1;
      }
      if i < |uvhead| {
        assert uvhead[i..][1..] == uvhead[i+1..];
        uvhead := uvhead[..i] + uvhead[i+1..];
      }
    }

    /** `luaF_freeupval`. */
    method FreeUpVal(u: Ref)
      requires u in heap && heap[u].UpVal?
      modifies this`heap, this`color, this`uvhead
      ensures View() == Collector.FreeUpVal(old(View()), u)
    {
      if heap[u].v.Open? { UnlinkUpVal(u); }
      heap := heap - {u};
      color := color - {u};
    }

    /** One upvalue of `luaF_close`: the first of the open list. */
    method CloseFirst(th: Ref)
      requires |OpenList(View(), th)| > 0 && IsOpen(heap, OpenList(View(), th)[0]) && OpenList(View(), th)[0] != th
      requires gcstate == Propagate ==> NoDangling(CloseOne(DropOpen(View(), th, 0), OpenList(View(), th)[0]).heap)
      modifies this`heap, this`color, this`gray, this`rootgc, this`sweepgc, this`uvhead
      ensures View() == CloseRound(old(View()), th)
    {
      var u := heap[th].openupval[0];
      heap := heap[th := heap[th].(openupval := RemoveAt(heap[th].openupval, 0))];
      if u in color && color[u] == White(!currentwhite) {
        FreeUpVal(u);
      } else {
        UnlinkUpVal(u);
        heap := heap[u := UpVal(Closed(UpValue(heap, heap[u].v)))];
        LinkUpVal(u);
      }
    }

    /** `luaF_close`. */
    method Close(th: Ref, level: nat, ghost gone: set<Ref>)
      requires HeapOk(View(), gone) && th in heap && heap[th].Thread? && (forall g :: g in gone ==> g == th)
      requires gcstate == Propagate ==> Inv(View()) && gone == {}
      modifies this
      ensures View() == CloseUpvals(old(View()), th, level)
    {
      hide HeapOk, LiveClosed, PhaseOk, CloseRound;
      while heap[th].openupval != [] && UpLevel(heap[th].openupval[0]) >= level
        invariant HeapOk(View(), gone) && (gcstate == Propagate ==> Inv(View()) && gone == {})
        invariant th in heap && heap[th].Thread?
        invariant CloseUpvals(View(), th, level) == CloseUpvals(old(View()), th, level)
        decreases |heap[th].openupval|
      {
        CloseStep(View(), th, level, gone);
        CloseFirst(th);
      }
      CloseStop(View(), th, level, gone);
    }

    /** The loop of `luaF_findupval`: how many open upvalues stand above the level. */
    method CountAbove(th: Ref, level: nat) returns (i: nat)
      requires th in heap && heap[th].Thread? && OpenListOk(heap, th)
      ensures i == OpenAbove(heap, heap[th].openupval, level)
    {
      var open := heap[th].openupval;
      OpenListDescending(heap, th);
      i := 0;
      while i < |open| && UpLevel(open[i]) > level
        invariant i <= |open| && OpenAbove(heap, open, level) == i + OpenAbove(heap, open[i..], level)
      {
        assert open[i..][1..] == open[i+1..];
        i := i + 1;
      }
    }

    /** `luaF_findupval`. `o` is the address of the upvalue made when there is none. */
    method FindUpVal(th: Ref, level: nat, o: Ref) returns (u: Ref)
      requires th in heap && heap[th].Thread? && OpenListOk(heap, th)
      modifies this`heap, this`color, this`uvhead
      ensures View() == FindOrMakeUpVal(old(View()), th, level, o)
      ensures u == FoundUpVal(old(View()), th, level, o)
    {
      hide OpenAbove, OpenListOk;
      var thread := heap[th];
      var open := thread.openupval;
      var i := CountAbove(th, level);
      if i < |open| && UpLevel(open[i]) == level {
        u := open[i];
        if u in color && color[u] == White(!currentwhite) { color := color[u := White(currentwhite)]; }
      } else {
        u := o;
        heap := heap[u := UpVal(Open(th, level))];
        color := color[u := White(currentwhite)];
        heap := heap[th := thread.(openupval := open[..i] + [u] + open[i..])];
        uvhead := [u] + uvhead;
      }
    }

    // ----- sweeping -----

    /** A dead upvalue is taken off the list of its thread and freed. */
    method FreeOpen(th: Ref, i: nat)
      requires th in heap && heap[th].Thread? && i < |heap[th].openupval|
      requires heap[th].openupval[i] != th && heap[th].openupval[i] in heap && heap[heap[th].openupval[i]].UpVal?
      modifies this`heap, this`color, this`uvhead
      ensures View() == Collector.FreeUpVal(DropOpen(old(View()), th, i), old(heap[th].openupval[i]))
    {
      var u := heap[th].openupval[i];
      heap := heap[th := heap[th].(openupval := RemoveAt(heap[th].openupval, i))];
      FreeUpVal(u);
    }

    /** `sweepwholelist` on the open upvalues of a thread. */
    method SweepUpvals(th: Ref)
      requires th in heap && heap[th].Thread? && OpenUpvalsOk(View())
      modifies this`heap, this`color, this`uvhead
      ensures View() == SweepOpen(old(View()), th, 0)
    {
      hide OpenUpvalsOk, SweepOpen, DropOpen, Collector.FreeUpVal;
      var i := 0;
      SweepOpenAt(View(), th, i);
      while i < |heap[th].openupval|
        invariant th in heap && heap[th].Thread? && OpenUpvalsOk(View())
        invariant SweepOpen(View(), th, i) == SweepOpen(old(View()), th, 0)
        invariant i >= |heap[th].openupval| ==> SweepOpen(View(), th, i) == View()
        decreases |heap[th].openupval| - i
      {
        ghost var s := View();
        var u := heap[th].openupval[i];
        SweepOpenAt(s, th, i);
        if u !in color || color[u] != White(!currentwhite) || u in fixed {
          color := color[u := White(currentwhite)];
          i := i + 1;
        } else {
          FreeOpen(th, i);
        }
        SweepOpenAt(View(), th, i);
      }
    }

    /** `sweepwholelist` on a bucket of the string table. */
    method SweepStrings(b: nat)
      requires b < |strt|
      modifies this`heap, this`color, this`strt
      ensures View() == SweepBucket(old(View()), b, 0)
    {
      var i := 0;
      while i < |strt[b]|
        invariant |strt| == old(|strt|) && SweepBucket(View(), b, i) == SweepBucket(old(View()), b, 0)
        decreases |strt[b]| - i
      {
        var o := strt[b][i];
        if o !in color || color[o] != White(!currentwhite) || o in fixed {
          color := color[o := White(currentwhite)];
          i := i + 1;
        } else {
          strt := strt[b := RemoveAt(strt[b], i)];
          heap := heap - {o};
          color := color - {o};
        }
      }
    }

    /** `sweeplist` on `rootgc`: looks at `count` objects at most. */
    method SweepRoots(count: nat)
      requires SweepInv(View(), {}) && gcstate == Sweep
      modifies this
      ensures View() == SweepList(old(View()), count)
    {
      hide HeapOk, LiveClosed, SweptOk, SweepOne;
      var n := count;
      while n > 0 && sweepgc < |rootgc|
        invariant SweepInv(View(), {}) && gcstate == Sweep
        invariant SweepList(View(), n) == SweepList(old(View()), count)
      {
        SweepOneOk(View());
        SweepRoot();
        n := n - 1;
      }
    }

    /** One round of `sweeplist`. */
    method SweepRoot()
      requires SweepInv(View(), {}) && gcstate == Sweep && sweepgc < |rootgc|
      modifies this
      ensures View() == SweepOne(old(View()))
    {
      hide HeapOk, OpenUpvalsOk, LiveClosed, SweptOk, SweepOpen, Collector.PassOrFree;
      var o := rootgc[sweepgc];
      SweepRootFacts(View(), o);
      if heap[o].Thread? { SweepUpvals(o); }
      PassOrFree(o);
    }

    method PassOrFree(o: Ref)
      requires o in heap && sweepgc < |rootgc| && gcstate != Propagate
      requires HeapOk(View().(rootgc := RemoveAt(rootgc, sweepgc)), {o})
      modifies this
      ensures View() == Collector.PassOrFree(old(View()), o)
    {
      hide HeapOk, FreeObj;
      if o !in color || color[o] != White(!currentwhite) || o in fixed {
        color := color[o := White(currentwhite)];
        sweepgc := sweepgc + 1;
      } else {
        rootgc := RemoveAt(rootgc, sweepgc);
        FreeObject(o);
      }
    }

    /** `freeobj`: a thread closes its upvalues first. */
    method FreeObject(o: Ref)
      requires HeapOk(View(), {o}) && o in heap && gcstate != Propagate
      modifies this
      ensures View() == FreeObj(old(View()), o)
    {
      hide HeapOk;
      if heap[o].Thread? { Close(o, 0, {o}); }
      heap := heap - {o};
      color := color - {o};
    }

    // ----- the step machine -----

    /** `singlestep`. */
    method SingleStep()
      requires Valid()
      modifies this
      ensures Valid() && View() == Collector.SingleStep(old(View()))
    {
      hide Inv, AllFresh, NoDangling, SweepInv, Marking.PropagateMark, MarkRootStep, AtomicStep, SweepBucket, SweepList;
      SingleStepOk(View());
      StepFacts(View());
      match gcstate
      case Pause => MarkRoot();
      case Propagate =>
        if gray != [] { PropagateMark(); } else { Atomic(); }
      case SweepString =>
        SweepStrings(sweepstrgc);
        sweepstrgc := sweepstrgc + 1;
        if sweepstrgc >= |strt| { gcstate := Sweep; }
      case Sweep =>
        SweepRoots(GCSWEEPMAX);
        if sweepgc >= |rootgc| { gcstate := Finalize; }
      case Finalize => gcstate := Pause;
    }

    /** The first loop of `luaC_fullgc`: finishes a pending sweep. */
    method FinishPendingSweep()
      requires Valid() && gcstate != Pause && gcstate != Propagate
      modifies this
      ensures Valid() && View() == FinishSweep(old(View())) && gcstate == Finalize
    {
      hide Inv, Collector.SingleStep;
      while gcstate != Finalize
        invariant Valid() && gcstate != Pause && gcstate != Propagate
        invariant FinishSweep(View()) == FinishSweep(old(View()))
        decreases Rank(gcstate), SweepWork(View())
      {
        SingleStepOk(View());
        StepProgress(View());
        SingleStep();
      }
    }

    /** Its second loop: runs the new cycle to its end. */
    method FinishWholeCycle()
      requires Valid()
      modifies this
      ensures Valid() && View() == FinishCycle(old(View())) && gcstate == Pause
    {
      hide Inv, Collector.SingleStep;
      while gcstate != Pause
        invariant Valid() && FinishCycle(View()) == FinishCycle(old(View()))
        decreases Rank(gcstate), ToMark(View()), SweepWork(View())
      {
        SingleStepOk(View());
        StepProgress(View());
        SingleStep();
      }
    }

    /** `luaC_fullgc`. */
    method FullCollect()
      requires Valid()
      modifies this
      ensures Valid() && View() == FullGc(old(View())) && gcstate == Pause
    {
      hide Inv, AllFresh, MarkRootStep, FinishSweep, FinishCycle, Spares, KeepsReachable;
      ghost var s := View();
      StartFullOk(s);
      FinishSweepOk(StartFull(s));
      RestartOk(FinishSweep(StartFull(s)));
      if gcstate == Pause || gcstate == Propagate {
        sweepstrgc := 0;
        sweepgc := 0;
        gray := [];
        grayagain := [];
        gcstate := SweepString;
      }
      assert View() == StartFull(s);
      FinishPendingSweep();
      FinalizeFresh(View());
      MarkRoot();
      FinishWholeCycle();
    }

    /** The stack position an open upvalue points to. */
    function UpLevel(u: Ref): int
      reads this
    {
      if IsOpen(heap, u) then heap[u].v.level else -1
    }
  }

  /** One round of closing keeps the lists in order. */
  lemma CloseStep(s: State, th: Ref, level: nat, gone: set<Ref>)
    requires HeapOk(s, gone) && (s.gcstate == Propagate ==> Inv(s) && gone == {}) && (forall g :: g in gone ==> g == th)
    requires |OpenList(s, th)| > 0
    requires (IsOpen(s.heap, OpenList(s, th)[0]) ==> s.heap[OpenList(s, th)[0]].v.level >= level)
    ensures var u, s' := OpenList(s, th)[0], CloseRound(s, th);
      && IsOpen(s.heap, u) && IsOpen(DropOpen(s, th, 0).heap, u) && u != th
      && HeapOk(s', gone) && (s'.gcstate == Propagate ==> Inv(s')) && th in s'.heap && s'.heap[th].Thread?
      && |OpenList(s', th)| == |OpenList(s, th)| - 1
      && CloseUpvals(s, th, level) == CloseUpvals(s', th, level)
      && (s.gcstate == Propagate ==> NoDangling(CloseOne(DropOpen(s, th, 0), u).heap))
  {
    hide RootListOk, StringsOk, OpenUpvalsOk, LiveClosed, PhaseOk;
    var u := OpenList(s, th)[0];
    OpenListed(s, th, 0, gone);
    CloseFirstShape(s, th, gone);
    if s.gcstate == Propagate {
      ClosePropagateRound(s, th);
      ClosedDangling(s, th);
    } else {
      CloseRoundSame(s, th, gone);
      CloseRoundHeap(s, th, gone);
    }
  }

  lemma ClosedDangling(s: State, th: Ref)
    requires |OpenList(s, th)| > 0 && HeapOk(s, {}) && PhaseOk(s) && s.gcstate == Propagate
    ensures var u := OpenList(s, th)[0];
      IsOpen(DropOpen(s, th, 0).heap, u) && NoDangling(CloseOne(DropOpen(s, th, 0), u).heap)
  {
    var u := OpenList(s, th)[0];
    OpenListed(s, th, 0, {});
    CloseFirstShape(s, th, {});
    var s' := LinkUpVal(CloseOne(DropOpen(s, th, 0), u), u);
    forall o, r | PointsTo(s'.heap, o, r)
      ensures r in s'.heap
    {
      CloseSameView(s, th, u, s', o);
      SameViewSameRefs(s.heap, s'.heap, o, r);
    }
  }

  lemma CloseRoundHeap(s: State, th: Ref, gone: set<Ref>)
    requires HeapOk(s, gone) && s.gcstate != Propagate && |OpenList(s, th)| > 0 && (forall g :: g in gone ==> g == th)
    ensures HeapOk(CloseRound(s, th), gone)
  {
    hide RootListOk, StringsOk, OpenUpvalsOk;
    var u, s' := OpenList(s, th)[0], CloseRound(s, th);
    OpenListed(s, th, 0, gone);
    CloseFirstShape(s, th, gone);
    if IsDead(s, u) {
      FreeOpenShape(s, th, 0, gone);
      FreeOpenUpvals(s, th, 0, s');
      FreeOpenLists(s, th, 0, s', gone);
    } else {
      CloseHeapOk(s, th, u, s', gone);
    }
  }

  lemma CloseStop(s: State, th: Ref, level: nat, gone: set<Ref>)
    requires HeapOk(s, gone)
    requires OpenList(s, th) == [] || (IsOpen(s.heap, OpenList(s, th)[0]) ==>
        s.heap[OpenList(s, th)[0]].v.level < level)
    ensures CloseUpvals(s, th, level) == s
  {
    if OpenList(s, th) != [] { OpenListed(s, th, 0, gone); }
  }

  lemma SweepRootFacts(s: State, o: Ref)
    requires SweepInv(s, {}) && s.gcstate == Sweep && s.sweepgc < |s.rootgc| && s.rootgc[s.sweepgc] == o
    ensures var s1 := SweepOpen(s, o, 0);
      && o in s.heap && OpenUpvalsOk(s) && (!s.heap[o].Thread? ==> s1 == s)
      && o in s1.heap && s1.rootgc == s.rootgc && s1.sweepgc == s.sweepgc && s1.gcstate == s.gcstate
      && HeapOk(s1.(rootgc := RemoveAt(s1.rootgc, s1.sweepgc)), {o})
  {
    SweepOpenOk(s, o, 0);
    RootListed(s, o, {});
    UnlinkOk(SweepOpen(s, o, 0), s.sweepgc);
  }

  /** What a step of the collector may count on in its phase. */
  lemma StepFacts(s: State)
    requires Inv(s)
    ensures s.gcstate == Pause ==> AllFresh(s)
    ensures s.gcstate == Propagate && s.marks.gray != [] ==>
      NoDangling(s.heap) && s.marks.gray[0] in s.heap && Listable(s.heap[s.marks.gray[0]]) &&
      s.marks.gray[0] in s.marks.color && s.marks.color[s.marks.gray[0]] == Gray
    ensures s.gcstate == SweepString ==> s.sweepstrgc < |s.strt|
    ensures s.gcstate == Sweep ==> SweepInv(s, {})
  {
    if s.gcstate == Propagate && s.marks.gray != [] { GrayFirst(s.heap, s.marks); }
  }

  lemma FinalizeFresh(s: State)
    requires Inv(s) && s.gcstate == Finalize
    ensures AllFresh(s)
  {
  }

  lemma GrayFirst(h: Heap, m: Marks)
    requires MarkOk(h, m, {}, Running) && m.gray != []
    ensures NoDangling(h) && m.gray[0] in h && Listable(h[m.gray[0]]) && m.gray[0] in m.color
    ensures m.color[m.gray[0]] == Gray
  {
    assert m.gray[0] in m.gray;
  }

  lemma AtomicFacts(s: State)
    requires Inv(s) && s.gcstate == Propagate
    ensures MarkOk(s.heap, s.marks, {}, Running) && (forall u :: u in s.uvhead ==> IsOpen(s.heap, u))
    ensures s.running in s.heap && forall r :: Some(r) in s.mt ==> r in s.heap
  {
    RootsAllocated(s);
  }

  /** The invariant of marking holds at each stage of the atomic step. */
  lemma AtomicIsRun(h: Heap, m: Marks, uvhead: seq<Ref>, running: Ref, mt: seq<Option<Ref>>)
    requires MarkOk(h, m, {}, Running)
    ensures var m0 := Marking.RemarkUpvals(h, m, uvhead);
      var m1 := Marking.PropagateAll(h, m0);
      var m2 := MarkValues(h, Marking.MarkObject(h, m1, running), OptionValues(mt));
      var m3 := Marking.PropagateAll(h, m2);
      && NoDangling(h) && m.color.Keys == h.Keys
      && MarkOk(h, m0, {}, Running) && MarkOk(h, m2, {}, Running)
      && MarkOk(h, m3.(gray := m3.grayagain, grayagain := []), {}, Running)
  {
    assert NoDangling(h) && m.color.Keys == h.Keys;
    hide MarkOk, NoDangling;
    RemarkUpvalsRunning(h, m, uvhead);
    var m0 := Marking.RemarkUpvals(h, m, uvhead);
    PropagateAllOk(h, m0, Running);
    var m1 := Marking.PropagateAll(h, m0);
    MarkObjectOk(h, m1, running, {}, Running);
    var m2 := Marking.MarkObject(h, m1, running);
    MarkValuesOk(h, m2, OptionValues(mt), {}, Running);
    PropagateAllOk(h, MarkValues(h, m2, OptionValues(mt)), Running);
    SwapOk(h, Marking.PropagateAll(h, MarkValues(h, m2, OptionValues(mt))));
  }

  lemma {:induction false} RemarkUpvalsRunning(h: Heap, m: Marks, uvs: seq<Ref>)
    requires MarkOk(h, m, {}, Running)
    ensures MarkOk(h, Marking.RemarkUpvals(h, m, uvs), {}, Running)
    decreases |uvs|
  {
    hide MarkOk;
    if uvs != [] {
      var uv := uvs[0];
      if IsOpen(h, uv) && uv in m.color && m.color[uv] == Gray {
        MarkValueOk(h, m, UpValue(h, h[uv].v), {}, Running);
        RemarkUpvalsRunning(h, Marking.MarkValue(h, m, UpValue(h, h[uv].v)), uvs[1..]);
      } else {
        RemarkUpvalsRunning(h, m, uvs[1..]);
      }
    }
  }

  lemma {:induction false} MarkAppend(h: Heap, m: Marks, a: seq<Value>, b: seq<Value>)
    ensures MarkValues(h, m, a + b) == MarkValues(h, MarkValues(h, m, a), b)
    decreases |a|
  {
    if a == [] {
      assert a + b == b;
    } else {
      assert (a + b)[1..] == a[1..] + b;
      MarkAppend(h, Marking.MarkValue(h, m, a[0]), a[1..], b);
    }
  }
}
