/** The mark phase of the collector: colours, gray lists and the traversal of
    each kind of object (lua-5.1/lgc.c:69-325). */
module Marking {
  import opened LuaObjects

  /** The colour bits of an object's `marked` field. The two whites take turns:
      one is given to new objects, the other is what a sweep collects. */
  datatype Color = White(bit: bool) | Gray | Black

  datatype Marks = Marks(color: map<Ref, Color>, gray: seq<Ref>, grayagain: seq<Ref>)

  predicate IsWhite(m: Marks, o: Ref) {
    o in m.color && m.color[o].White?
  }

  predicate Marked(m: Marks, o: Ref) {
    o in m.color && !m.color[o].White?
  }

  ghost function Whites(m: Marks): set<Ref> {
    set o | o in m.color && m.color[o].White?
  }

  function Paint(m: Marks, o: Ref, c: Color): (m': Marks)
    ensures IsWhite(m, o) && !c.White? ==> Whites(m') == Whites(m) - {o}
  {
    m.(color := m.color[o := c])
  }

  /** Turns `o` gray and puts it first on the gray list. */
  function Shade(m: Marks, o: Ref): (m': Marks)
    ensures IsWhite(m, o) ==> Whites(m') == Whites(m) - {o}
  {
    Paint(m, o, Gray).(gray := [o] + m.gray)
  }

  // ----- marking one object -----

  /** `markobject`: marks `o` if it is white. */
  function MarkObject(h: Heap, m: Marks, o: Ref): (m': Marks)
    ensures m'.color.Keys == m.color.Keys
    ensures m' == m || Whites(m') < Whites(m)
    decreases Whites(m), 1
  {
    if IsWhite(m, o) && o in h then ReallyMarkObject(h, m, o) else m
  }

  /** `markvalue`. */
  function MarkValue(h: Heap, m: Marks, v: Value): (m': Marks)
    ensures m'.color.Keys == m.color.Keys
    ensures m' == m || Whites(m') < Whites(m)
    decreases Whites(m), 2
  {
    if v.Obj? then MarkObject(h, m, v.ref) else m
  }

  function MarkOption(h: Heap, m: Marks, v: Option<Ref>): (m': Marks)
    ensures m'.color.Keys == m.color.Keys
    ensures m' == m || Whites(m') < Whites(m)
    decreases Whites(m), 2
  {
    if v.Some? then MarkObject(h, m, v.value) else m
  }

  function ReallyMarkObject(h: Heap, m: Marks, o: Ref): (m': Marks)
    requires IsWhite(m, o) && o in h
    ensures m'.color.Keys == m.color.Keys
    ensures Whites(m') <= Whites(m) - {o}
    decreases Whites(m), 0
  {
    match h[o]
    case Str(_) => Paint(m, o, Gray)
    case Udata(mt, env) =>
      MarkObject(h, MarkOption(h, Paint(m, o, Black), mt), env)
    case UpVal(c) =>
      var m1 := MarkValue(h, Paint(m, o, Gray), UpValue(h, c));
      if c.Closed? then Paint(m1, o, Black) else m1  // its slot may change without a barrier
    case _ => Shade(m, o)
  }

  /** Marks a list of values, first to last. */
  function MarkValues(h: Heap, m: Marks, vs: seq<Value>): (m': Marks)
    ensures m' == m || Whites(m') < Whites(m)
    decreases |vs|
  {
    if vs == [] then m else MarkValues(h, MarkValue(h, m, vs[0]), vs[1..])
  }

  // ----- traversing one object -----

  function OptionValue(v: Option<Ref>): Value {
    if v.Some? then Obj(v.value) else Nil
  }

  function OptionValues(vs: seq<Option<Ref>>): seq<Value> {
    seq(|vs|, i requires 0 <= i < |vs| => OptionValue(vs[i]))
  }

  function RefValues(rs: seq<Ref>): seq<Value> {
    seq(|rs|, i requires 0 <= i < |rs| => Obj(rs[i]))
  }

  /** The values of a list from the last to the first. */
  function Backwards(vs: seq<Value>): seq<Value> {
    if vs == [] then [] else [vs[|vs|-1]] + Backwards(vs[..|vs|-1])
  }

  /** Keys and values of the nonempty entries, from the last entry to the first. */
  function EntriesBackwards(node: seq<Node>): seq<Value> {
    if node == [] then []
    else
      var n := node[|node|-1];
      (if n.val == Nil then [] else [n.key, n.val]) + EntriesBackwards(node[..|node|-1])
  }

  /** The values a traversal of `o` marks, in order. */
  function Children(h: Heap, o: Ref): seq<Value>
    requires o in h
  {
    match h[o]
    case Table(mt, arr, node) => [OptionValue(mt)] + (Backwards(arr) + EntriesBackwards(node))
    case CClosure(env, up) => [Obj(env)] + up
    case LClosure(env, p, up) => [Obj(env), Obj(p)] + RefValues(up)
    case Thread(gt, stack, _) => [gt] + stack
    case Proto(src, k, up, p, lv) =>
      [OptionValue(src)] + (k + (OptionValues(up) + (OptionValues(p) + OptionValues(lv))))
    case _ => []
  }

  /** Takes the first gray object off its list. A thread never turns black: it
      waits on `grayagain` for the atomic step. */
  function TakeGray(h: Heap, m: Marks): (m': Marks)
    requires m.gray != [] && m.gray[0] in h
    ensures Whites(m') <= Whites(m) && |m'.gray| < |m.gray|
  {
    var o := m.gray[0];
    if h[o].Thread? then m.(gray := m.gray[1..], grayagain := [o] + m.grayagain)
    else Paint(m, o, Black).(gray := m.gray[1..])
  }

  /** `propagatemark`: traverses one gray object. */
  function PropagateMark(h: Heap, m: Marks): Marks
    requires m.gray != [] && m.gray[0] in h
  {
    MarkValues(h, TakeGray(h, m), Children(h, m.gray[0]))
  }

  function PropagateAll(h: Heap, m: Marks): (m': Marks)
    decreases Whites(m), |m.gray|
  {
    if m.gray == [] || m.gray[0] !in h then m else PropagateAll(h, PropagateMark(h, m))
  }

  // ----- the two ends of the mark phase -----

  /** `markroot`: starts a mark phase from the main thread, its globals, the
      registry and the metatables of the basic types. */
  function MarkRoot(h: Heap, color: map<Ref, Color>, mainthread: Ref, registry: Value, mt: seq<Option<Ref>>): Marks {
    var m1 := MarkObject(h, Marks(color, [], []), mainthread);
    var globals := if mainthread in h && h[mainthread].Thread? then h[mainthread].gt else Nil;
    MarkValues(h, m1, [globals, registry] + OptionValues(mt))
  }

  /** `remarkupvals`: marks the values of the open upvalues that are gray. */
  function RemarkUpvals(h: Heap, m: Marks, uvs: seq<Ref>): (m': Marks)
    decreases |uvs|
  {
    if uvs == [] then m
    else
      var uv := uvs[0];
      var m1 := if IsOpen(h, uv) && uv in m.color && m.color[uv] == Gray then MarkValue(h, m, UpValue(h,
          h[uv].v)) else m;
      RemarkUpvals(h, m1, uvs[1..])
  }

  /** The marking done by `atomic`, from an empty gray list. */
  function AtomicMarks(h: Heap, m: Marks, uvhead: seq<Ref>, running: Ref, mt: seq<Option<Ref>>): Marks {
    var m1 := PropagateAll(h, RemarkUpvals(h, m, uvhead));
    var m2 := PropagateAll(h, MarkValues(h, MarkObject(h, m1, running), OptionValues(mt)));
    PropagateAll(h, m2.(gray := m2.grayagain, grayagain := []))
  }

  // ----- the invariant of the mark phase -----

  /** Which colours a kind of object can have. */
  predicate KindColor(b: Object, c: Color) {
    match b
    case Str(_) => c != Black
    case Thread(_, _, _) => c != Black
    case Udata(_, _) => c != Gray
    case UpVal(Open(_, _)) => c != Black
    case UpVal(Closed(_)) => c != Gray
    case _ => true
  }

  predicate NoDuplicates(s: seq<Ref>) {
    forall i, j :: 0 <= i < j < |s| ==> s[i] != s[j]
  }

  /** Colours fit kinds, apart from the objects in `except`; the gray objects that must be traversed are exactly
      those on the two lists, each of them once. */
  ghost predicate ListsOk(h: Heap, m: Marks, except: set<Ref>) {
    && m.color.Keys == h.Keys
    && (forall o :: o in h && o !in except ==> KindColor(h[o], m.color[o]))
    && NoDuplicates(m.gray) && NoDuplicates(m.grayagain)
    && (forall o :: o in m.gray ==> o !in m.grayagain && o in h && m.color[o] == Gray && Listable(h[o]))
    && (forall o :: o in m.grayagain ==> o in h && m.color[o] == Gray && (h[o].Table? || h[o].Thread?))
    && (forall o :: o in h && m.color[o] == Gray && Listable(h[o]) ==> o in m.gray || o in m.grayagain)
  }

  ghost predicate RefsMarked(h: Heap, m: Marks, o: Ref) {
    forall r :: PointsTo(h, o, r) ==> Marked(m, r)
  }

  /** No black object, apart from those in `except`, points to a white one. */
  ghost predicate NoBlackToWhite(h: Heap, m: Marks, except: set<Ref>) {
    forall o :: o in h && o in m.color && m.color[o] == Black && o !in except ==> RefsMarked(h, m, o)
  }

  ghost predicate NoDangling(h: Heap) {
    forall o, r :: PointsTo(h, o, r) ==> r in h
  }


  /** Marked open upvalues have marked values. */
  ghost predicate OpenValuesMarked(h: Heap, m: Marks, except: set<Ref>) {
    forall o :: IsOpen(h, o) && Marked(m, o) && o !in except ==> RefsMarked(h, m, o)
  }

  /** Objects put back to `grayagain` have been traversed. */
  ghost predicate AgainDone(h: Heap, m: Marks, except: set<Ref>) {
    forall o :: o in m.grayagain && o !in except ==> RefsMarked(h, m, o)
  }

  /** What is known of stacks, which change without a barrier: nothing while the
      program runs; inside the atomic step first that no gray upvalue, apart from
      the pending ones, hides a white value, at the end that no traversed thread does. */
  datatype Phase = Running | Remarked(pending: set<Ref>) | Last

  ghost predicate MarkOk(h: Heap, m: Marks, except: set<Ref>, phase: Phase) {
    && ListsOk(h, m, except) && NoBlackToWhite(h, m, except) && NoDangling(h)
    && (phase.Remarked? ==> OpenValuesMarked(h, m, except + phase.pending))
    && (phase == Last ==> OpenValuesMarked(h, m, except))
    && (phase == Last ==> AgainDone(h, m, except))
  }

  /** No object turns white; white objects may become gray or black. */
  ghost predicate Grows(m: Marks, m': Marks) {
    && m'.color.Keys == m.color.Keys
    && (forall o :: Marked(m, o) ==> Marked(m', o))
    && (forall o :: IsWhite(m', o) ==> IsWhite(m, o) && m'.color[o] == m.color[o])
  }

  /** How marking changes the marks: marked objects also keep their colour. */
  ghost predicate Advances(m: Marks, m': Marks) {
    && Grows(m, m')
    && (forall o :: Marked(m, o) ==> m'.color[o] == m.color[o])
    && m'.grayagain == m.grayagain
  }

  /** Only objects of `s` are marked. */
  ghost predicate MarksWithin(m: Marks, s: set<Ref>) {
    forall o :: Marked(m, o) ==> o in s
  }

  lemma AdvancesTransitive(a: Marks, b: Marks, c: Marks)
    requires Advances(a, b) && Advances(b, c)
    ensures Advances(a, c)
  {
  }

  /** Turning a white object gray or black and nothing else. */
  lemma PaintOk(h: Heap, m: Marks, o: Ref, c: Color, except: set<Ref>, phase: Phase)
    requires MarkOk(h, m, except, phase) && IsWhite(m, o) && !c.White? && !Listable(h[o])
    ensures MarkOk(h, Paint(m, o, c), except + {o}, phase) && Advances(m, Paint(m, o, c))
  {
    var m' := Paint(m, o, c);
    assert forall x :: Marked(m, x) ==> Marked(m', x);
    forall x | x in h && m'.color[x] == Black && x !in except + {o}
      ensures RefsMarked(h, m', x)
    {
      assert RefsMarked(h, m, x);
    }
  }

  lemma ShadeOk(h: Heap, m: Marks, o: Ref, except: set<Ref>, phase: Phase)
    requires MarkOk(h, m, except, phase) && IsWhite(m, o) && Listable(h[o])
    ensures MarkOk(h, Shade(m, o), except, phase) && Advances(m, Shade(m, o))
  {
    var m' := Shade(m, o);
    assert forall x :: Marked(m, x) ==> Marked(m', x);
    forall x | x in h && m'.color[x] == Black && x !in except
      ensures RefsMarked(h, m', x)
    {
      assert RefsMarked(h, m, x);
    }
  }

  /** Once its references are marked, an object is no exception any more. */
  lemma DropException(h: Heap, m: Marks, o: Ref, except: set<Ref>, phase: Phase)
    requires MarkOk(h, m, except + {o}, phase) && RefsMarked(h, m, o)
    requires o in h ==> KindColor(h[o], m.color[o])
    ensures MarkOk(h, m, except, phase)
  {
  }

  /** One `markobject` keeps the invariant and marks its object. */
  lemma {:induction false} MarkObjectOk(h: Heap, m: Marks, o: Ref, except: set<Ref>, phase: Phase)
    requires MarkOk(h, m, except, phase)
    ensures MarkOk(h, MarkObject(h, m, o), except, phase) && Advances(m, MarkObject(h, m, o))
    ensures o in h ==> Marked(MarkObject(h, m, o), o)
    decreases Whites(m)
  {
    if IsWhite(m, o) && o in h {
      match h[o]
      case Str(_) =>
        PaintOk(h, m, o, Gray, except, phase);
        DropException(h, Paint(m, o, Gray), o, except, phase);
      case Udata(mt, env) => MarkUdataOk(h, m, o, except, phase);
      case UpVal(c) => MarkUpValOk(h, m, o, except, phase);
      case _ => ShadeOk(h, m, o, except, phase);
    }
  }

  lemma MarkedStays(a: Marks, b: Marks, o: Ref)
    requires Advances(a, b) && Marked(a, o)
    ensures Marked(b, o) && b.color[o] == a.color[o]
  {
  }

  lemma {:induction false} MarkUdataOk(h: Heap, m: Marks, o: Ref, except: set<Ref>, phase: Phase)
    requires MarkOk(h, m, except, phase) && IsWhite(m, o) && o in h && h[o].Udata?
    ensures MarkOk(h, MarkObject(h, m, o), except, phase) && Advances(m, MarkObject(h, m, o))
    ensures Marked(MarkObject(h, m, o), o)
    decreases Whites(m), 0
  {
    hide MarkOk, Advances, RefsMarked;
    var m1 := Paint(m, o, Black);
    PaintOk(h, m, o, Black, except, phase);
    var mt, env := h[o].metatable, h[o].env;
    var m2 := MarkOption(h, m1, mt);
    if mt.Some? {
      MarkObjectOk(h, m1, mt.value, except + {o}, phase);
      AdvancesTransitive(m, m1, m2);
    }
    var m3 := MarkObject(h, m2, env);
    MarkObjectOk(h, m2, env, except + {o}, phase);
    AdvancesTransitive(m, m2, m3);
    MarkedStays(m1, m2, o);
    MarkedStays(m2, m3, o);
    UdataRefs(h, m2, m3, o, except + {o}, phase);
    DropException(h, m3, o, except, phase);
  }

  lemma UdataRefs(h: Heap, m: Marks, m': Marks, o: Ref, except: set<Ref>, phase: Phase)
    requires MarkOk(h, m, except, phase) && Advances(m, m') && o in h && h[o].Udata?
    requires h[o].metatable.Some? && h[o].metatable.value in h ==> Marked(m, h[o].metatable.value)
    requires h[o].env in h ==> Marked(m', h[o].env)
    ensures RefsMarked(h, m', o)
  {
    forall r | PointsTo(h, o, r)
      ensures Marked(m', r)
    {
      assert r in h;
      assert r == h[o].env || h[o].metatable == Some(r);
    }
  }

  lemma {:induction false} MarkUpValOk(h: Heap, m: Marks, o: Ref, except: set<Ref>, phase: Phase)
    requires MarkOk(h, m, except, phase) && IsWhite(m, o) && o in h && h[o].UpVal?
    ensures MarkOk(h, MarkObject(h, m, o), except, phase) && Advances(m, MarkObject(h, m, o))
    ensures Marked(MarkObject(h, m, o), o)
    decreases Whites(m), 0
  {
    hide MarkOk, Advances, RefsMarked;
    var m1 := Paint(m, o, Gray);
    PaintOk(h, m, o, Gray, except, phase);
    var v := UpValue(h, h[o].v);
    var m2 := MarkValue(h, m1, v);
    if v.Obj? {
      MarkObjectOk(h, m1, v.ref, except + {o}, phase);
      AdvancesTransitive(m, m1, m2);
      MarkedStays(m1, m2, o);
    }
    UpValRefs(h, m2, o, except + {o}, phase);
    if h[o].v.Closed? {
      RepaintOk(h, m, m2, o, except, phase);
      UpValRefs(h, Paint(m2, o, Black), o, except + {o}, phase);
      DropException(h, Paint(m2, o, Black), o, except, phase);
    } else {
      DropException(h, m2, o, except, phase);
    }
  }

  lemma UpValRefs(h: Heap, m: Marks, o: Ref, except: set<Ref>, phase: Phase)
    requires MarkOk(h, m, except, phase) && o in h && h[o].UpVal?
    requires UpValue(h, h[o].v).Obj? && UpValue(h, h[o].v).ref in h ==> Marked(m, UpValue(h, h[o].v).ref)
    ensures RefsMarked(h, m, o)
  {
  }

  /** A gray object that is on no list turns black. */
  lemma RepaintOk(h: Heap, m0: Marks, m: Marks, o: Ref, except: set<Ref>, phase: Phase)
    requires MarkOk(h, m, except + {o}, phase) && Advances(m0, m) && IsWhite(m0, o)
    requires o in h && !Listable(h[o]) && Marked(m, o)
    ensures MarkOk(h, Paint(m, o, Black), except + {o}, phase) && Advances(m0, Paint(m, o, Black))
    ensures forall r :: Marked(m, r) ==> Marked(Paint(m, o, Black), r)
  {
    var m' := Paint(m, o, Black);
    assert forall x :: Marked(m, x) ==> Marked(m', x);
    forall x | x in h && m'.color[x] == Black && x !in except + {o}
      ensures RefsMarked(h, m', x)
    {
      assert RefsMarked(h, m, x);
    }
  }

  lemma MarkValueOk(h: Heap, m: Marks, v: Value, except: set<Ref>, phase: Phase)
    requires MarkOk(h, m, except, phase)
    ensures MarkOk(h, MarkValue(h, m, v), except, phase) && Advances(m, MarkValue(h, m, v))
    ensures v.Obj? && v.ref in h ==> Marked(MarkValue(h, m, v), v.ref)
  {
    if v.Obj? { MarkObjectOk(h, m, v.ref, except, phase); }
  }

  lemma {:induction false} MarkValuesOk(h: Heap, m: Marks, vs: seq<Value>, except: set<Ref>, phase: Phase)
    requires MarkOk(h, m, except, phase)
    ensures MarkOk(h, MarkValues(h, m, vs), except, phase) && Advances(m, MarkValues(h, m, vs))
    ensures forall r :: Obj(r) in vs && r in h ==> Marked(MarkValues(h, m, vs), r)
    decreases |vs|
  {
    if vs != [] {
      var m1, m2 := MarkValue(h, m, vs[0]), MarkValues(h, m, vs);
      MarkValueOk(h, m, vs[0], except, phase);
      MarkValuesOk(h, m1, vs[1..], except, phase);
      hide MarkOk, Advances;
      AdvancesTransitive(m, m1, m2);
      forall r | Obj(r) in vs && r in h
        ensures Marked(m2, r)
      {
        if vs[0] == Obj(r) { MarkedStays(m1, m2, r); } else { assert Obj(r) in vs[1..]; }
      }
    }
  }

  // ----- traversals reach exactly what the object points to -----

  lemma {:induction false} BackwardsHas(vs: seq<Value>, v: Value)
    ensures v in Backwards(vs) <==> v in vs
  {
    if vs != [] {
      BackwardsHas(vs[..|vs|-1], v);
      assert vs == vs[..|vs|-1] + [vs[|vs|-1]];
    }
  }

  lemma {:induction false} EntriesHave(node: seq<Node>, r: Ref)
    ensures Obj(r) in EntriesBackwards(node) <==> HoldsEntry(node, r)
  {
    if node != [] {
      var init, n := node[..|node|-1], node[|node|-1];
      EntriesHave(init, r);
      assert forall i :: 0 <= i < |init| ==> init[i] == node[i];
      if HoldsEntry(init, r) {
        var i :| 0 <= i < |init| && init[i].val != Nil && (init[i].key == Obj(r) || init[i].val == Obj(r));
        assert HoldsEntry(node, r);
      }
    }
  }

  lemma OptionsHave(vs: seq<Option<Ref>>, r: Ref)
    ensures Obj(r) in OptionValues(vs) <==> Some(r) in vs
  {
    if Some(r) in vs {
      var i :| 0 <= i < |vs| && vs[i] == Some(r);
      assert OptionValues(vs)[i] == Obj(r);
    }
  }

  lemma RefsHave(rs: seq<Ref>, r: Ref)
    ensures Obj(r) in RefValues(rs) <==> r in rs
  {
    if r in rs {
      var i :| 0 <= i < |rs| && rs[i] == r;
      assert RefValues(rs)[i] == Obj(r);
    }
  }

  /** The traversal of an object visits exactly its references. */
  lemma ChildrenAreRefs(h: Heap, o: Ref, r: Ref)
    requires o in h && Listable(h[o])
    ensures Obj(r) in Children(h, o) <==> PointsTo(h, o, r)
  {
    match h[o]
    case Table(mt, arr, node) => BackwardsHas(arr, Obj(r)); EntriesHave(node, r);
    case LClosure(env, p, up) => RefsHave(up, r);
    case Proto(src, k, up, p, lv) => OptionsHave(up, r); OptionsHave(p, r); OptionsHave(lv, r);
    case _ =>
  }

  lemma TakeGrayOk(h: Heap, m: Marks, phase: Phase)
    requires MarkOk(h, m, {}, phase) && m.gray != []
    ensures MarkOk(h, TakeGray(h, m), {m.gray[0]}, phase) && Grows(m, TakeGray(h, m))
  {
    hide NoBlackToWhite, OpenValuesMarked, AgainDone, PointsTo;
    var o, m' := m.gray[0], TakeGray(h, m);
    TakeGrayLists(h, m);
    TakeGrayRefs(h, m);
    GrowsAgain(h, m, m', o, phase);
  }

  lemma TakeGrayLists(h: Heap, m: Marks)
    requires ListsOk(h, m, {}) && m.gray != []
    ensures ListsOk(h, TakeGray(h, m), {m.gray[0]})
  {
    WithoutFirst(m.gray);
    hide NoDuplicates;
    if h[m.gray[0]].Thread? { WithFirst(m.gray[0], m.grayagain); }
  }

  lemma WithoutFirst(q: seq<Ref>)
    requires NoDuplicates(q) && q != []
    ensures NoDuplicates(q[1..]) && forall x :: x in q[1..] <==> x in q && x != q[0]
  {
    assert q == [q[0]] + q[1..];
  }

  lemma WithFirst(o: Ref, q: seq<Ref>)
    requires NoDuplicates(q) && o !in q
    ensures NoDuplicates([o] + q)
  {
  }

  lemma TakeGrayRefs(h: Heap, m: Marks)
    requires NoBlackToWhite(h, m, {}) && m.gray != [] && m.gray[0] in h && m.color.Keys == h.Keys
    ensures NoBlackToWhite(h, TakeGray(h, m), {m.gray[0]}) && Grows(m, TakeGray(h, m))
    ensures forall x :: x in TakeGray(h, m).grayagain ==> x in m.grayagain || x == m.gray[0]
    ensures forall x :: Marked(TakeGray(h, m), x) ==> Marked(m, x) || x == m.gray[0]
  {
    var m' := TakeGray(h, m);
    assert forall x :: Marked(m, x) ==> Marked(m', x);
    forall x | x in h && x in m'.color && m'.color[x] == Black && x != m.gray[0]
      ensures RefsMarked(h, m', x)
    {
      assert RefsMarked(h, m, x);
    }
  }

  /** What the later phases of marking promise survives when only `o` is newly marked. */
  lemma GrowsAgain(h: Heap, m: Marks, m': Marks, o: Ref, phase: Phase)
    requires Grows(m, m') && (forall x :: Marked(m', x) ==> Marked(m, x) || x == o)
    requires forall x :: x in m'.grayagain ==> x in m.grayagain || x == o
    ensures phase.Remarked? && OpenValuesMarked(h, m, {} + phase.pending) ==>
        OpenValuesMarked(h, m', {o} + phase.pending)
    ensures OpenValuesMarked(h, m, {}) ==> OpenValuesMarked(h, m', {o})
    ensures AgainDone(h, m, {}) ==> AgainDone(h, m', {o})
  {
    assert forall x :: RefsMarked(h, m, x) ==> RefsMarked(h, m', x);
  }

  /** Traversing one gray object keeps the invariant. */
  lemma PropagateMarkOk(h: Heap, m: Marks, phase: Phase)
    requires MarkOk(h, m, {}, phase) && m.gray != []
    ensures MarkOk(h, PropagateMark(h, m), {}, phase) && Grows(m, PropagateMark(h, m))
  {
    var o, m1, m2 := m.gray[0], TakeGray(h, m), PropagateMark(h, m);
    TakeGrayOk(h, m, phase);
    MarkValuesOk(h, m1, Children(h, o), {o}, phase);
    forall r | PointsTo(h, o, r)
      ensures Marked(m2, r)
    {
      ChildrenAreRefs(h, o, r);
    }
    DropException(h, m2, o, {}, phase);
  }

  lemma {:induction false} PropagateAllOk(h: Heap, m: Marks, phase: Phase)
    requires MarkOk(h, m, {}, phase)
    ensures MarkOk(h, PropagateAll(h, m), {}, phase) && Grows(m, PropagateAll(h, m))
    ensures PropagateAll(h, m).gray == []
    decreases Whites(m), |m.gray|
  {
    if m.gray != [] {
      PropagateMarkOk(h, m, phase);
      PropagateAllOk(h, PropagateMark(h, m), phase);
    }
  }

  // ----- the atomic step -----

  lemma {:induction false} RemarkUpvalsOk(h: Heap, m: Marks, uvs: seq<Ref>, pending: set<Ref>)
    requires MarkOk(h, m, {}, Remarked(pending)) && forall u :: u in pending ==> u in uvs
    ensures MarkOk(h, RemarkUpvals(h, m, uvs), {}, Remarked({})) && Advances(m, RemarkUpvals(h, m, uvs))
    decreases |uvs|
  {
    if uvs == [] {
      assert pending == {};
    } else {
      var uv := uvs[0];
      var m1 := if IsOpen(h, uv) && uv in m.color && m.color[uv] == Gray then MarkValue(h, m, UpValue(h,
          h[uv].v)) else m;
      if m1 != m {
        MarkValueOk(h, m, UpValue(h, h[uv].v), {}, Remarked(pending));
      }
      if IsOpen(h, uv) && Marked(m, uv) {
        MarkValueOk(h, m, UpValue(h, h[uv].v), {}, Remarked(pending));
        assert RefsMarked(h, m1, uv);
      }
      assert MarkOk(h, m1, {}, Remarked(pending - {uv}));
      RemarkUpvalsOk(h, m1, uvs[1..], pending - {uv});
    }
  }

  /** Nothing is left to mark: every marked object has only marked references. */
  ghost predicate MarkComplete(h: Heap, m: Marks) {
    && m.color.Keys == h.Keys
    && (forall o :: Marked(m, o) ==> RefsMarked(h, m, o))
    && NoDangling(h)
  }

  /** The atomic step ends the marking: it marks the running thread and the basic
      metatables, and leaves no reference from a marked object to a white one. */
  lemma AtomicMarksOk(h: Heap, m: Marks, uvhead: seq<Ref>, running: Ref, mt: seq<Option<Ref>>)
    requires MarkOk(h, m, {}, Running) && m.gray == []
    requires forall u :: IsOpen(h, u) ==> u in uvhead
    ensures var m' := AtomicMarks(h, m, uvhead, running, mt);
      && MarkComplete(h, m') && ListsOk(h, m', {}) && Grows(m, m')
      && (running in h ==> Marked(m', running))
      && (forall r :: Some(r) in mt && r in h ==> Marked(m', r))
  {
    var pending := set u | IsOpen(h, u) && u in h;
    assert MarkOk(h, m, {}, Remarked(pending));
    var m0 := RemarkUpvals(h, m, uvhead);
    RemarkUpvalsOk(h, m, uvhead, pending);
    var m1 := PropagateAll(h, m0);
    PropagateAllOk(h, m0, Remarked({}));
    var m2 := MarkObject(h, m1, running);
    MarkObjectOk(h, m1, running, {}, Remarked({}));
    var m3 := MarkValues(h, m2, OptionValues(mt));
    MarkValuesOk(h, m2, OptionValues(mt), {}, Remarked({}));
    var m4 := PropagateAll(h, m3);
    PropagateAllOk(h, m3, Remarked({}));
    var m5 := m4.(gray := m4.grayagain, grayagain := []);
    AgainOk(h, m4);
    PropagateAllOk(h, m5, Last);
    forall r | Some(r) in mt && r in h
      ensures Marked(m3, r)
    {
      OptionsHave(mt, r);
    }
    LastIsComplete(h, PropagateAll(h, m5));
  }

  lemma AgainOk(h: Heap, m: Marks)
    requires MarkOk(h, m, {}, Remarked({})) && m.gray == []
    ensures MarkOk(h, m.(gray := m.grayagain, grayagain := []), {}, Last)
    ensures Grows(m, m.(gray := m.grayagain, grayagain := []))
  {
    var m' := m.(gray := m.grayagain, grayagain := []);
    assert forall o :: Marked(m, o) <==> Marked(m', o);
    forall o | o in h && m'.color[o] == Black
      ensures RefsMarked(h, m', o)
    {
      assert RefsMarked(h, m, o);
    }
    forall o | IsOpen(h, o) && Marked(m', o)
      ensures RefsMarked(h, m', o)
    {
      assert RefsMarked(h, m, o);
    }
  }

  lemma LastIsComplete(h: Heap, m: Marks)
    requires MarkOk(h, m, {}, Last) && m.gray == []
    ensures MarkComplete(h, m)
  {
    forall o | Marked(m, o)
      ensures RefsMarked(h, m, o)
    {
      if m.color[o] == Gray && !Listable(h[o]) && !IsOpen(h, o) {
        assert h[o].Str?;
      }
    }
  }

  /** A new mark phase starts with everything white. */
  lemma MarkRootOk(h: Heap, color: map<Ref, Color>, mainthread: Ref, registry: Value, mt: seq<Option<Ref>>)
    requires color.Keys == h.Keys && NoDangling(h) && forall o :: o in h ==> color[o].White?
    ensures MarkOk(h, MarkRoot(h, color, mainthread, registry, mt), {}, Running)
    ensures Grows(Marks(color, [], []), MarkRoot(h, color, mainthread, registry, mt))
    ensures mainthread in h ==> Marked(MarkRoot(h, color, mainthread, registry, mt), mainthread)
    ensures registry.Obj? && registry.ref in h ==> Marked(MarkRoot(h, color, mainthread, registry, mt), registry.ref)
  {
    var m0 := Marks(color, [], []);
    var m1 := MarkObject(h, m0, mainthread);
    var globals := if mainthread in h && h[mainthread].Thread? then h[mainthread].gt else Nil;
    MarkObjectOk(h, m0, mainthread, {}, Running);
    MarkValuesOk(h, m1, [globals, registry] + OptionValues(mt), {}, Running);
    assert registry == ([globals, registry] + OptionValues(mt))[1];
  }

  // ----- only what is reachable gets marked -----

  lemma {:induction false} MarkObjectWithin(h: Heap, m: Marks, o: Ref, s: set<Ref>)
    requires ClosedUnder(h, s) && MarksWithin(m, s) && o in s
    ensures MarksWithin(MarkObject(h, m, o), s)
    decreases Whites(m)
  {
    if IsWhite(m, o) && o in h {
      match h[o]
      case Udata(mt, env) =>
        var m1 := Paint(m, o, Black);
        if mt.Some? {
          assert PointsTo(h, o, mt.value);
          MarkObjectWithin(h, m1, mt.value, s);
        }
        assert PointsTo(h, o, env);
        MarkObjectWithin(h, MarkOption(h, m1, mt), env, s);
      case UpVal(c) =>
        if UpValue(h, c).Obj? {
          assert PointsTo(h, o, UpValue(h, c).ref);
          MarkObjectWithin(h, Paint(m, o, Gray), UpValue(h, c).ref, s);
        }
        var m1 := MarkValue(h, Paint(m, o, Gray), UpValue(h, c));
        assert forall x :: Marked(Paint(m1, o, Black), x) ==> x == o || Marked(m1, x);
      case _ =>
    }
  }

  lemma {:induction false} MarkValuesWithin(h: Heap, m: Marks, vs: seq<Value>, s: set<Ref>)
    requires ClosedUnder(h, s) && MarksWithin(m, s) && forall r :: Obj(r) in vs ==> r in s
    ensures MarksWithin(MarkValues(h, m, vs), s)
    decreases |vs|
  {
    if vs != [] {
      if vs[0].Obj? { MarkObjectWithin(h, m, vs[0].ref, s); }
      MarkValuesWithin(h, MarkValue(h, m, vs[0]), vs[1..], s);
    }
  }

  lemma PropagateMarkWithin(h: Heap, m: Marks, s: set<Ref>)
    requires ClosedUnder(h, s) && MarksWithin(m, s)
    requires m.gray != [] && m.gray[0] in h && Listable(h[m.gray[0]]) && m.gray[0] in s
    ensures MarksWithin(PropagateMark(h, m), s)
  {
    var o := m.gray[0];
    forall r | Obj(r) in Children(h, o)
      ensures r in s
    {
      ChildrenAreRefs(h, o, r);
    }
    MarkValuesWithin(h, TakeGray(h, m), Children(h, o), s);
  }

  lemma {:induction false} PropagateAllWithin(h: Heap, m: Marks, s: set<Ref>)
    requires MarkOk(h, m, {}, Running) && ClosedUnder(h, s) && MarksWithin(m, s)
    ensures MarksWithin(PropagateAll(h, m), s)
    decreases Whites(m), |m.gray|
  {
    if m.gray != [] {
      assert m.gray[0] in m.gray;
      PropagateMarkWithin(h, m, s);
      PropagateMarkOk(h, m, Running);
      PropagateAllWithin(h, PropagateMark(h, m), s);
    }
  }

  lemma {:induction false} RemarkUpvalsWithin(h: Heap, m: Marks, uvs: seq<Ref>, s: set<Ref>)
    requires MarkOk(h, m, {}, Running) && ClosedUnder(h, s) && MarksWithin(m, s)
    ensures MarksWithin(RemarkUpvals(h, m, uvs), s) && MarkOk(h, RemarkUpvals(h, m, uvs), {}, Running)
    decreases |uvs|
  {
    if uvs != [] {
      var uv := uvs[0];
      var m1 := if IsOpen(h, uv) && uv in m.color && m.color[uv] == Gray then MarkValue(h, m, UpValue(h,
          h[uv].v)) else m;
      if m1 != m {
        var v := UpValue(h, h[uv].v);
        assert v.Obj? && PointsTo(h, uv, v.ref) && Marked(m, uv);
        MarkObjectWithin(h, m, v.ref, s);
        MarkValueOk(h, m, v, {}, Running);
      }
      RemarkUpvalsWithin(h, m1, uvs[1..], s);
    }
  }

  /** The atomic step marks nothing outside a set that is closed under references
      and holds its roots and all that was marked before. */
  lemma AtomicMarksWithin(h: Heap, m: Marks, uvhead: seq<Ref>, running: Ref, mt: seq<Option<Ref>>, s: set<Ref>)
    requires MarkOk(h, m, {}, Running) && m.gray == [] && ClosedUnder(h, s) && MarksWithin(m, s)
    requires running in s && forall r :: Some(r) in mt ==> r in s
    ensures MarksWithin(AtomicMarks(h, m, uvhead, running, mt), s)
  {
    var m0 := RemarkUpvals(h, m, uvhead);
    RemarkUpvalsWithin(h, m, uvhead, s);
    var m1 := PropagateAll(h, m0);
    PropagateAllWithin(h, m0, s);
    PropagateAllOk(h, m0, Running);
    var m2 := MarkObject(h, m1, running);
    MarkObjectWithin(h, m1, running, s);
    MarkObjectOk(h, m1, running, {}, Running);
    var m3 := MarkValues(h, m2, OptionValues(mt));
    forall r | Obj(r) in OptionValues(mt)
      ensures r in s
    {
      OptionsHave(mt, r);
    }
    MarkValuesWithin(h, m2, OptionValues(mt), s);
    MarkValuesOk(h, m2, OptionValues(mt), {}, Running);
    var m4 := PropagateAll(h, m3);
    PropagateAllWithin(h, m3, s);
    PropagateAllOk(h, m3, Running);
    var m5 := m4.(gray := m4.grayagain, grayagain := []);
    assert forall o :: Marked(m5, o) ==> Marked(m4, o);
    SwapOk(h, m4);
    PropagateAllWithin(h, m5, s);
  }

  lemma SwapOk(h: Heap, m: Marks)
    requires MarkOk(h, m, {}, Running) && m.gray == []
    ensures MarkOk(h, m.(gray := m.grayagain, grayagain := []), {}, Running)
  {
    var m' := m.(gray := m.grayagain, grayagain := []);
    assert forall o :: Marked(m, o) <==> Marked(m', o);
    forall o | o in h && m'.color[o] == Black
      ensures RefsMarked(h, m', o)
    {
      assert RefsMarked(h, m, o);
    }
  }

  lemma MarkRootWithin(h: Heap, color: map<Ref, Color>, mainthread: Ref, registry: Value, mt: seq<Option<Ref>>,
                       s: set<Ref>)
    requires ClosedUnder(h, s) && forall o :: o in color ==> color[o].White?
    requires mainthread in s && (registry.Obj? ==> registry.ref in s) && forall r :: Some(r) in mt ==> r in s
    ensures MarksWithin(MarkRoot(h, color, mainthread, registry, mt), s)
  {
    var m0 := Marks(color, [], []);
    MarkObjectWithin(h, m0, mainthread, s);
    var globals := if mainthread in h && h[mainthread].Thread? then h[mainthread].gt else Nil;
    forall r | Obj(r) in [globals, registry] + OptionValues(mt)
      ensures r in s
    {
      OptionsHave(mt, r);
      assert globals == Obj(r) ==> PointsTo(h, mainthread, r);
    }
    MarkValuesWithin(h, MarkObject(h, m0, mainthread), [globals, registry] + OptionValues(mt), s);
  }
}
