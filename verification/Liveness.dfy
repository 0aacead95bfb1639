/** What is alive, given by the fields of every kind of object (lua-5.1/lobject.h, lua-5.1/lstate.h):
    the objects that are in every set which holds what the state names and is closed under the
    fields of its members. That is what the collector leaves. */
module Liveness {

  import opened LuaObjects
  import opened Collector
  import opened CollectorInvariant
  import opened Mutator
  import opened FullCollection

  predicate Has(a: iset<Ref>, v: Value) {
    v.Obj? ==> v.ref in a
  }

  predicate HasOption(a: iset<Ref>, v: Option<Ref>) {
    v.Some? ==> v.value in a
  }

  /** Everything that the fields of an object name is in the set; of a table with its metatable,
      array and entries whose value is not nil, of an open upvalue the slot of the stack. */
  ghost predicate HasFields(h: Heap, b: Object, a: iset<Ref>) {
    match b
    case Str(_) => true
    case Udata(metatable, env) => HasOption(a, metatable) && env in a
    case UpVal(Closed(v)) => Has(a, v)
    case UpVal(Open(th, level)) =>
      th in h && h[th].Thread? && level < |h[th].stack| ==> Has(a, h[th].stack[level])
    case CClosure(env, upvalue) => env in a && forall i :: 0 <= i < |upvalue| ==> Has(a, upvalue[i])
    case LClosure(env, p, upvals) => env in a && p in a && forall i :: 0 <= i < |upvals| ==> upvals[i] in a
    case Table(metatable, arr, node) =>
      && HasOption(a, metatable) && (forall i :: 0 <= i < |arr| ==> Has(a, arr[i]))
      && forall i :: 0 <= i < |node| && node[i].val != Nil ==> Has(a, node[i].key) && Has(a, node[i].val)
    case Thread(gt, stack, _) => Has(a, gt) && forall i :: 0 <= i < |stack| ==> Has(a, stack[i])
    case Proto(source, k, upvalues, protos, locvars) =>
      && HasOption(a, source) && (forall i :: 0 <= i < |k| ==> Has(a, k[i]))
      && (forall i :: 0 <= i < |upvalues| ==> HasOption(a, upvalues[i]))
      && (forall i :: 0 <= i < |protos| ==> HasOption(a, protos[i]))
      && (forall i :: 0 <= i < |locvars| ==> HasOption(a, locvars[i]))
  }

  /** The set holds the main thread, the thread that runs, the registry and the metatables of the
      basic types, and all that the fields of its members name. */
  ghost predicate Complete(s: State, a: iset<Ref>) {
    && s.mainthread in a && s.running in a && Has(a, s.registry)
    && (forall i :: 0 <= i < |s.mt| ==> HasOption(a, s.mt[i]))
    && forall o :: o in a && o in s.heap ==> HasFields(s.heap, s.heap[o], a)
  }

  ghost predicate Alive(s: State, o: Ref) {
    forall a: iset<Ref> :: Complete(s, a) ==> o in a
  }

  lemma FieldsHeld(h: Heap, b: Object, a: iset<Ref>)
    ensures HasFields(h, b, a) <==> forall r :: Holds(h, b, r) ==> r in a
  {
    if HasFields(h, b, a) { HeldInside(h, b, a); }
    if forall r :: Holds(h, b, r) ==> r in a { InsideHeld(h, b, a); }
  }

  lemma HeldInside(h: Heap, b: Object, a: iset<Ref>)
    requires HasFields(h, b, a)
    ensures forall r :: Holds(h, b, r) ==> r in a
  {
  }

  lemma InsideHeld(h: Heap, b: Object, a: iset<Ref>)
    requires forall r :: Holds(h, b, r) ==> r in a
    ensures HasFields(h, b, a)
  {
    match b
    case UpVal(c) => assert UpValue(h, c).Obj? ==> Holds(h, b, UpValue(h, c).ref);
    case CClosure(env, up) =>
      assert Holds(h, b, env);
      ValuesHeld(h, b, up, a);
    case LClosure(env, p, up) =>
      assert Holds(h, b, env) && Holds(h, b, p);
      assert forall i :: 0 <= i < |up| ==> Holds(h, b, up[i]);
    case Udata(mt, env) =>
      assert Holds(h, b, env) && (mt.Some? ==> Holds(h, b, mt.value));
    case Table(mt, arr, node) =>
      assert mt.Some? ==> Holds(h, b, mt.value);
      ValuesHeld(h, b, arr, a);
      forall i | 0 <= i < |node| && node[i].val != Nil
        ensures Has(a, node[i].key) && Has(a, node[i].val)
      {
        assert node[i].key.Obj? ==> HoldsEntry(node, node[i].key.ref) && Holds(h, b, node[i].key.ref);
        assert node[i].val.Obj? ==> HoldsEntry(node, node[i].val.ref) && Holds(h, b, node[i].val.ref);
      }
    case Thread(gt, stack, _) =>
      assert gt.Obj? ==> Holds(h, b, gt.ref);
      ValuesHeld(h, b, stack, a);
    case Proto(src, k, up, p, lv) =>
      assert src.Some? ==> Holds(h, b, src.value);
      ValuesHeld(h, b, k, a);
      OptionsHeld(h, b, up, a);
      OptionsHeld(h, b, p, a);
      OptionsHeld(h, b, lv, a);
    case _ =>
  }

  lemma ValuesHeld(h: Heap, b: Object, vs: seq<Value>, a: iset<Ref>)
    requires forall r :: Holds(h, b, r) ==> r in a
    requires forall r :: Obj(r) in vs ==> Holds(h, b, r)
    ensures forall i :: 0 <= i < |vs| ==> Has(a, vs[i])
  {
    forall i | 0 <= i < |vs| && vs[i].Obj?
      ensures vs[i].ref in a
    {
      assert Obj(vs[i].ref) in vs;
    }
  }

  lemma OptionsHeld(h: Heap, b: Object, vs: seq<Option<Ref>>, a: iset<Ref>)
    requires forall r :: Holds(h, b, r) ==> r in a
    requires forall r :: Some(r) in vs ==> Holds(h, b, r)
    ensures forall i :: 0 <= i < |vs| ==> HasOption(a, vs[i])
  {
    forall i | 0 <= i < |vs| && vs[i].Some?
      ensures vs[i].value in a
    {
      assert Some(vs[i].value) in vs;
    }
  }

  /** A set is complete exactly if it holds the roots and follows every reference. */
  lemma CompleteIs(s: State, a: iset<Ref>)
    ensures Complete(s, a) <==>
            (forall r :: r in Roots(s) ==> r in a) && forall o, r :: o in a && PointsTo(s.heap, o, r) ==> r in a
  {
    hide Holds, HasFields;
    forall o | o in s.heap
      ensures HasFields(s.heap, s.heap[o], a) <==> forall r :: Holds(s.heap, s.heap[o], r) ==> r in a
    {
      FieldsHeld(s.heap, s.heap[o], a);
    }
    if forall r :: r in Roots(s) ==> r in a {
      forall i | 0 <= i < |s.mt| && s.mt[i].Some?
        ensures s.mt[i].value in a
      {
        assert s.mt[i] in s.mt && s.mt[i].value in Roots(s);
      }
    }
  }

  lemma {:induction false} PathInside(s: State, a: iset<Ref>, path: seq<Ref>)
    requires Complete(s, a) && IsPath(s.heap, Roots(s), path)
    ensures path[|path| - 1] in a
  {
    hide Complete, PointsTo, Roots;
    CompleteIs(s, a);
    if |path| > 1 {
      var init := path[..|path| - 1];
      assert IsPath(s.heap, Roots(s), init);
      PathInside(s, a, init);
      assert PointsTo(s.heap, path[|path| - 2], path[|path| - 1]);
    }
  }

  /** The chains of references lead to what is alive, and to nothing else. */
  lemma ReachableIsAlive(s: State, o: Ref)
    ensures Reachable(s.heap, Roots(s), o) <==> Alive(s, o)
  {
    hide Complete, PointsTo, Roots;
    if Reachable(s.heap, Roots(s), o) {
      var path :| IsPath(s.heap, Roots(s), path) && path[|path| - 1] == o;
      forall a: iset<Ref> | Complete(s, a)
        ensures o in a
      {
        PathInside(s, a, path);
      }
    }
    if Alive(s, o) {
      var a := iset r | Reachable(s.heap, Roots(s), r);
      CompleteReachable(s, a);
      assert o in a;
    }
  }

  lemma CompleteReachable(s: State, a: iset<Ref>)
    requires a == iset r | Reachable(s.heap, Roots(s), r)
    ensures Complete(s, a)
  {
    hide Complete, PointsTo, Roots, Reachable;
    CompleteIs(s, a);
    forall r | r in Roots(s)
      ensures r in a
    {
      RootReachable(s.heap, Roots(s), r);
    }
    forall x, r | x in a && PointsTo(s.heap, x, r)
      ensures r in a
    {
      StepReachable(s.heap, Roots(s), x, r);
    }
  }

  /** A full collection leaves what is alive and what is fixed, and frees everything else. */
  lemma CollectsGarbage(s: State, o: Ref)
    requires Inv(s)
    ensures o in FullGc(s).heap <==> Alive(s, o) || o in s.fixed
  {
    hide Inv, FullGc, Alive, Reachable, Roots;
    FullGcExact(s);
    ReachableIsAlive(s, o);
  }

  /** Whatever a program and the collector do in turns, what is alive in the end is still there. */
  lemma NothingLost(s: State, ops: seq<Op>, o: Ref)
    requires Inv(s) && EnabledRun(s, ops) && Alive(Run(s, ops), o)
    ensures o in Run(s, ops).heap
  {
    hide Alive, Reachable, Roots;
    RunSafe(s, ops);
    ReachableIsAlive(Run(s, ops), o);
    ReachableLive(Run(s, ops), o);
  }
}
