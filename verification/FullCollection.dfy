/** A full collection: it ends, and what it leaves is what the program can reach
    (lua-5.1/lgc.c:499-510, 554-655). */
module FullCollection {
  import opened LuaObjects
  import opened Marking
  import opened Collector
  import opened CollectorInvariant

  function Natural(n: int): nat {
    if n < 0 then 0 else n
  }

  /** What is left of the string sweep, then of the object sweep. */
  function SweepWork(s: State): nat {
    match s.gcstate
    case SweepString => Natural(|s.strt| - s.sweepstrgc)
    case Sweep => Natural(SweepLeft(s))
    case _ => |s.marks.gray|
  }

  function Rank(g: GcState): nat {
    match g
    case Propagate => 4
    case SweepString => 3
    case Sweep => 2
    case Finalize => 1
    case Pause => 0
  }

  /** White objects left to mark; none once the marking is over. */
  ghost function ToMark(s: State): set<Ref> {
    if s.gcstate == Propagate then Whites(s.marks) else {}
  }

  /** A later phase, fewer white objects, or less work in the phase. */
  ghost predicate Progress(s: State, s': State) {
    || Rank(s'.gcstate) < Rank(s.gcstate)
    || (s'.gcstate == s.gcstate && ToMark(s') < ToMark(s))
    || (s'.gcstate == s.gcstate && ToMark(s') == ToMark(s) && SweepWork(s') < SweepWork(s))
  }

  /** Every step of a cycle makes progress. */
  lemma StepProgress(s: State)
    requires Inv(s) && s.gcstate != Pause && Inv(SingleStep(s))
    ensures Progress(s, SingleStep(s))
    ensures s.gcstate == SweepString ==> SingleStep(s).gcstate == SweepString || SingleStep(s).gcstate == Sweep
    ensures s.gcstate == Sweep ==> SingleStep(s).gcstate == Sweep || SingleStep(s).gcstate == Finalize
  {
    hide HeapOk, LiveClosed, PhaseOk;
    match s.gcstate
    case Propagate => GrayAllocated(s); PropagateProgress(s);
    case SweepString => BucketStepSame(s);
    case Sweep => SweepProgress(s);
    case Finalize =>
  }

  lemma SweepProgress(s: State)
    requires Inv(s) && s.gcstate == Sweep && Inv(SingleStep(s))
    ensures Progress(s, SingleStep(s))
    ensures SingleStep(s).gcstate == Sweep || SingleStep(s).gcstate == Finalize
  {
    hide SingleStep, LiveClosed, PhaseOk, RootListOk, StringsOk, OpenUpvalsOk;
    SweepStepOk(s);
    RootListBound(SingleStep(s));
  }

  lemma PropagateProgress(s: State)
    requires s.gcstate == Propagate && (s.marks.gray != [] ==> s.marks.gray[0] in s.heap)
    ensures var s' := SingleStep(s);
      || s'.gcstate == SweepString
      || (s'.gcstate == Propagate && Whites(s'.marks) < Whites(s.marks))
      || (s'.gcstate == Propagate && Whites(s'.marks) == Whites(s.marks) && |s'.marks.gray| < |s.marks.gray|)
  {
  }

  lemma BucketStepSame(s: State)
    requires Inv(s) && s.gcstate == SweepString
    ensures |SingleStep(s).strt| == |s.strt| && s.sweepstrgc < |s.strt|
  {
    hide HeapOk, LiveClosed;
    SweepBucketOk(s, s.sweepstrgc, 0);
  }

  /** Steps until the cycle is over. */
  ghost function FinishCycle(s: State): State
    requires Inv(s)
    decreases Rank(s.gcstate), ToMark(s), SweepWork(s)
  {
    if s.gcstate == Pause then s
    else
      hide HeapOk, LiveClosed, PhaseOk;
      SingleStepOk(s);
      StepProgress(s);
      FinishCycle(SingleStep(s))
  }

  /** Steps until the pending sweep is over. */
  ghost function FinishSweep(s: State): State
    requires Inv(s) && s.gcstate != Pause && s.gcstate != Propagate
    decreases Rank(s.gcstate), SweepWork(s)
  {
    if s.gcstate == Finalize then s
    else
      hide HeapOk, LiveClosed, PhaseOk;
      SingleStepOk(s);
      StepProgress(s);
      FinishSweep(SingleStep(s))
  }

  /** The start of `luaC_fullgc`: a cycle that has not begun to sweep is given up. */
  function StartFull(s: State): State {
    if s.gcstate == Pause || s.gcstate == Propagate then
      s.(sweepstrgc := 0, sweepgc := 0, marks := s.marks.(gray := [], grayagain := []), gcstate := SweepString)
    else s
  }

  /** `luaC_fullgc`. */
  ghost function FullGc(s: State): State
    requires Inv(s)
  {
    StartFullOk(s);
    var s1 := StartFull(s);
    FinishSweepOk(s1);
    var s2 := FinishSweep(s1);
    RestartOk(s2);
    FinishCycle(MarkRootStep(s2))
  }

  lemma StartFullOk(s: State)
    requires Inv(s)
    ensures Inv(StartFull(s)) && Spares(s, StartFull(s))
    ensures StartFull(s).gcstate != Pause && StartFull(s).gcstate != Propagate
  {
    hide RootListOk, StringsOk, OpenUpvalsOk, LiveClosed, MarkOk, Spares, BucketSwept, HeapOk, IsBlack;
    if s.gcstate == Pause || s.gcstate == Propagate {
      var s' := StartFull(s);
      forall u | IsOpen(s'.heap, u)
        ensures !IsBlack(s', u)
      {
        StartNotBlack(s, u);
      }
      StartFrame(s, s');
      Buckets(s);
    } else {
      SameState(s, 0);
    }
  }

  lemma Buckets(s: State)
    requires HeapOk(s, {})
    ensures |s.strt| > 0
  {
  }

  lemma StartNotBlack(s: State, u: Ref)
    requires Inv(s) && (s.gcstate == Pause || s.gcstate == Propagate) && IsOpen(s.heap, u)
    ensures !IsBlack(s, u) && !IsBlack(StartFull(s), u)
  {
    if s.gcstate == Propagate { assert KindColor(s.heap[u], s.marks.color[u]); }
  }

  lemma StartFrame(s: State, s': State)
    requires HeapOk(s, {}) && LiveClosed(s)
    requires s' == s.(sweepstrgc := 0, sweepgc := 0, marks := s.marks.(gray := [], grayagain := []),
        gcstate := SweepString)
    ensures HeapOk(s', {}) && LiveClosed(s') && Spares(s, s')
  {
    var s1 := s.(sweepstrgc := 0, sweepgc := 0, gcstate := SweepString);
    SameObjectsOk(s, s1);
    RecolorHeapOk(s1, s', {});
    hide RootListOk, StringsOk, OpenUpvalsOk;
    forall o | Live(s', o)
      ensures RefsLive(s', o)
    {
      assert RefsLive(s, o);
    }
    assert Roots(s') == Roots(s);
  }

  lemma RestartOk(s: State)
    requires Inv(s) && s.gcstate == Finalize
    ensures Inv(MarkRootStep(s)) && Spares(s, MarkRootStep(s))
  {
    hide HeapOk, LiveClosed, Spares;
    MarkRootStepOk(s);
  }

  /** A change that keeps what is reachable also makes nothing else reachable. */
  lemma {:induction false} PathBack(s: State, s': State, path: seq<Ref>)
    requires KeepsReachable(s, s') && IsPath(s'.heap, Roots(s'), path)
    ensures Reachable(s.heap, Roots(s), path[|path|-1])
  {
    assert Roots(s') == Roots(s);
    if |path| == 1 {
      RootReachable(s.heap, Roots(s), path[0]);
    } else {
      var init := path[..|path|-1];
      var x, o := path[|path|-2], path[|path|-1];
      assert IsPath(s'.heap, Roots(s'), init);
      PathBack(s, s', init);
      assert PointsTo(s'.heap, x, o) && init[|init|-1] == x;
      SameViewSameRefs(s.heap, s'.heap, x, o);
      StepReachable(s.heap, Roots(s), x, o);
    }
  }

  lemma {:induction false} PathForth(s: State, s': State, path: seq<Ref>)
    requires KeepsReachable(s, s') && IsPath(s.heap, Roots(s), path)
    ensures Reachable(s'.heap, Roots(s'), path[|path|-1])
  {
    assert Roots(s') == Roots(s);
    if |path| == 1 {
      RootReachable(s'.heap, Roots(s'), path[0]);
    } else {
      var init := path[..|path|-1];
      var x, o := path[|path|-2], path[|path|-1];
      assert IsPath(s.heap, Roots(s), init);
      PathForth(s, s', init);
      assert PointsTo(s.heap, x, o) && init[|init|-1] == x;
      assert Reachable(s.heap, Roots(s), x);
      SameViewSameRefs(s.heap, s'.heap, x, o);
      StepReachable(s'.heap, Roots(s'), x, o);
    }
  }

  /** A collector step neither loses nor adds anything reachable. */
  lemma SameReachable(s: State, s': State, o: Ref)
    requires KeepsReachable(s, s')
    ensures Reachable(s.heap, Roots(s), o) <==> Reachable(s'.heap, Roots(s'), o)
  {
    if Reachable(s.heap, Roots(s), o) {
      var path :| IsPath(s.heap, Roots(s), path) && path[|path|-1] == o;
      PathForth(s, s', path);
    }
    if Reachable(s'.heap, Roots(s'), o) {
      var path :| IsPath(s'.heap, Roots(s'), path) && path[|path|-1] == o;
      PathBack(s, s', path);
    }
  }

  lemma KeepsTransitive(a: State, b: State, c: State)
    requires KeepsReachable(a, b) && KeepsReachable(b, c)
    ensures KeepsReachable(a, c)
  {
    forall o | Reachable(a.heap, Roots(a), o)
      ensures SameView(a.heap, c.heap, o)
    {
      SameReachable(a, b, o);
      assert SameView(a.heap, b.heap, o) && SameView(b.heap, c.heap, o);
    }
  }

  lemma KeepsItself(s: State)
    requires LiveClosed(s)
    ensures KeepsReachable(s, s)
  {
    SameState(s, 0);
    SparesKeeps(s, s);
  }

  lemma {:induction false} FinishSweepOk(s: State)
    requires Inv(s) && s.gcstate != Pause && s.gcstate != Propagate
    ensures Inv(FinishSweep(s)) && FinishSweep(s).gcstate == Finalize && KeepsReachable(s, FinishSweep(s))
    decreases Rank(s.gcstate), SweepWork(s)
  {
    hide HeapOk, LiveClosed, PhaseOk, KeepsReachable;
    KeepsItself(s);
    if s.gcstate != Finalize {
      SingleStepOk(s);
      StepProgress(s);
      FinishSweepOk(SingleStep(s));
      KeepsTransitive(s, SingleStep(s), FinishSweep(s));
    }
  }

  // ----- nothing unreachable survives -----

  /** During a cycle begun with a full marking, what is marked, and later what is
      alive, stays inside `reach`. */
  ghost predicate Within(s: State, reach: set<Ref>) {
    if s.gcstate == Propagate then
      ClosedUnder(s.heap, reach) && Roots(s) <= reach && MarksWithin(s.marks, reach)
    else forall o :: Live(s, o) ==> o in reach || o in s.fixed
  }

  lemma StepWithin(s: State, reach: set<Ref>)
    requires Inv(s) && Within(s, reach) && s.gcstate != Pause
    ensures Within(SingleStep(s), reach) && SingleStep(s).fixed == s.fixed
  {
    match s.gcstate
    case Propagate => PropagateWithin(s, reach);
    case SweepString => hide HeapOk, LiveClosed, PhaseOk; SweepStringStepOk(s);
    case Sweep => hide HeapOk, LiveClosed, PhaseOk, SingleStep; SweepStepOk(s);
    case Finalize => hide HeapOk, LiveClosed, PhaseOk;
  }

  lemma PropagateWithin(s: State, reach: set<Ref>)
    requires Inv(s) && Within(s, reach) && s.gcstate == Propagate
    ensures Within(SingleStep(s), reach) && SingleStep(s).fixed == s.fixed
  {
    hide RootListOk, StringsOk, OpenUpvalsOk, LiveClosed;
    GrayAllocated(s);
    if s.marks.gray != [] {
      assert s.marks.gray[0] in s.marks.gray;
      PropagateMarkWithin(s.heap, s.marks, reach);
      hide ClosedUnder, MarksWithin, PropagateMark;
    } else {
      AtomicStepOk(s);
      AtomicWithin(s, reach);
      hide Inv, ClosedUnder, MarksWithin, AtomicMarks;
    }
  }

  lemma AtomicWithin(s: State, reach: set<Ref>)
    requires Inv(s) && Within(s, reach) && s.gcstate == Propagate && s.marks.gray == []
    ensures MarksWithin(AtomicMarks(s.heap, s.marks, s.uvhead, s.running, s.mt), reach)
  {
    hide HeapOk, LiveClosed, ClosedUnder, MarksWithin, MarkOk;
    RootsIn(s, reach);
    AtomicMarksWithin(s.heap, s.marks, s.uvhead, s.running, s.mt, reach);
  }

  lemma RootsIn(s: State, reach: set<Ref>)
    requires Roots(s) <= reach
    ensures s.mainthread in reach && s.running in reach && (s.registry.Obj? ==> s.registry.ref in reach)
    ensures forall r :: Some(r) in s.mt ==> r in reach
  {
    forall r | Some(r) in s.mt
      ensures r in reach
    {
      assert Some(r).value in Roots(s);
    }
  }

  lemma {:induction false} FinishCycleOk(s: State, reach: set<Ref>)
    requires Inv(s) && Within(s, reach)
    ensures Inv(FinishCycle(s)) && FinishCycle(s).gcstate == Pause && KeepsReachable(s, FinishCycle(s))
    ensures Within(FinishCycle(s), reach) && FinishCycle(s).fixed == s.fixed
    decreases Rank(s.gcstate), ToMark(s), SweepWork(s)
  {
    hide HeapOk, LiveClosed, PhaseOk, KeepsReachable, Within;
    KeepsItself(s);
    if s.gcstate != Pause {
      SingleStepOk(s);
      StepProgress(s);
      StepWithin(s, reach);
      FinishCycleOk(SingleStep(s), reach);
      KeepsTransitive(s, SingleStep(s), FinishCycle(s));
    }
  }

  /** A full collection, started in any state, ends; it leaves exactly the objects that
      were reachable and the fixed ones, all white for the next cycle, and the
      contents of the reachable ones untouched. */
  lemma FullGcExact(s: State)
    requires Inv(s)
    ensures var s' := FullGc(s);
      && Inv(s') && s'.gcstate == Pause && AllFresh(s') && KeepsReachable(s, s')
      && forall o :: o in s'.heap <==> Reachable(s.heap, Roots(s), o) || o in s.fixed
  {
    hide HeapOk, LiveClosed, PhaseOk, KeepsReachable, Spares, Within;
    var s1 := StartFull(s);
    StartFullOk(s);
    SparesKeeps(s, s1);
    FinishSweepOk(s1);
    var s2 := FinishSweep(s1);
    KeepsTransitive(s, s1, s2);
    RestartOk(s2);
    var s3 := MarkRootStep(s2);
    SparesKeeps(s2, s3);
    KeepsTransitive(s, s2, s3);
    var reach := RestartWithin(s2);
    FinishCycleOk(s3, reach);
    var s4 := FinishCycle(s3);
    KeepsTransitive(s, s3, s4);
    assert s4 == FullGc(s);
    SurvivorsExact(s, s3, s4, reach);
  }

  /** At the start of the marking, take the reachable objects. */
  lemma RestartWithin(s: State) returns (reach: set<Ref>)
    requires Inv(s) && s.gcstate == Finalize && Inv(MarkRootStep(s)) && Spares(s, MarkRootStep(s))
    ensures Within(MarkRootStep(s), reach)
    ensures forall o :: o in reach ==> Reachable(MarkRootStep(s).heap, Roots(MarkRootStep(s)), o)
  {
    var s' := MarkRootStep(s);
    reach := set o | o in s.heap && Reachable(s.heap, Roots(s), o);
    assert Roots(s') == Roots(s);
    hide RootListOk, StringsOk, OpenUpvalsOk, MarkOk, Spares;
    ReachClosed(s, reach);
    RootsIn(s, reach);
    FinalizeWhite(s);
    hide Reachable, LiveClosed, PhaseOk, HeapOk, Roots, ClosedUnder, MarksWithin, PointsTo, Inv;
    MarkRootWithin(s.heap, s.marks.color, s.mainthread, s.registry, s.mt, reach);
  }

  lemma ReachClosed(s: State, reach: set<Ref>)
    requires Inv(s) && s.gcstate == Finalize && reach == set o | o in s.heap && Reachable(s.heap, Roots(s), o)
    ensures Roots(s) <= reach && ClosedUnder(s.heap, reach)
  {
    hide RootListOk, StringsOk, OpenUpvalsOk;
    forall r | r in Roots(s)
      ensures r in reach
    {
      RootReachable(s.heap, Roots(s), r);
      assert Live(s, r);
    }
    forall o, r | o in reach && PointsTo(s.heap, o, r)
      ensures r in reach
    {
      StepReachable(s.heap, Roots(s), o, r);
      assert Live(s, o) && RefsLive(s, o);
    }
  }

  lemma FinalizeWhite(s: State)
    requires Inv(s) && s.gcstate == Finalize
    ensures forall o :: o in s.marks.color ==> s.marks.color[o].White?
  {
    hide RootListOk, StringsOk, OpenUpvalsOk, LiveClosed;
    assert AllFresh(s);
  }

  lemma SurvivorsExact(s: State, s3: State, s4: State, reach: set<Ref>)
    requires KeepsReachable(s, s3) && KeepsReachable(s, s4) && s3.fixed == s.fixed
    requires Inv(s4) && s4.gcstate == Pause && Within(s4, reach) && s4.fixed == s.fixed
    requires forall o :: o in reach ==> Reachable(s3.heap, Roots(s3), o)
    ensures AllFresh(s4) && forall o :: o in s4.heap <==> Reachable(s.heap, Roots(s), o) || o in s.fixed
  {
    forall o
      ensures o in s4.heap <==> Reachable(s.heap, Roots(s), o) || o in s.fixed
    {
      SameReachable(s, s3, o);
      if o in s4.heap {
        assert IsFresh(s4, o) && Live(s4, o);
      }
    }
  }
}
