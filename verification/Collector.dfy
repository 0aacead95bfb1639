/** The state of the incremental collector and its steps: write barriers, linking,
    closing of upvalues, sweeping and the step machine (lua-5.1/lgc.c, lua-5.1/lfunc.c). */
module Collector {
  import opened LuaObjects
  import opened Marking

  datatype GcState = Pause | Propagate | SweepString | Sweep | Finalize

  /** `global_State`. The pointer `sweepgc` is the number of objects of `rootgc`
      in front of the link it points to. */
  datatype State = State(
    heap: Heap,
    marks: Marks,
    fixed: set<Ref>,
    gcstate: GcState,
    currentwhite: bool,
    rootgc: seq<Ref>,
    sweepgc: nat,
    strt: seq<seq<Ref>>,
    sweepstrgc: nat,
    uvhead: seq<Ref>,
    mainthread: Ref,
    running: Ref,
    registry: Value,
    mt: seq<Option<Ref>>)

  const GCSWEEPMAX: nat := 40

  /** `isdead`: the object has the white that a sweep collects. */
  predicate IsDead(s: State, o: Ref) {
    o in s.marks.color && s.marks.color[o] == White(!s.currentwhite)
  }

  predicate IsBlack(s: State, o: Ref) {
    o in s.marks.color && s.marks.color[o] == Black
  }

  predicate IsGray(s: State, o: Ref) {
    o in s.marks.color && s.marks.color[o] == Gray
  }

  function MakeWhite(s: State, o: Ref): State {
    s.(marks := Paint(s.marks, o, White(s.currentwhite)))
  }

  function OpenList(s: State, th: Ref): seq<Ref> {
    if th in s.heap && s.heap[th].Thread? then s.heap[th].openupval else []
  }

  function RemoveAt(q: seq<Ref>, i: nat): seq<Ref>
    requires i < |q|
  {
    q[..i] + q[i+1..]
  }

  /** A list without its first `x`. */
  function Without(q: seq<Ref>, x: Ref): seq<Ref> {
    if q == [] then [] else if q[0] == x then q[1..] else [q[0]] + Without(q[1..], x)
  }

  /** Takes the i-th upvalue off the open list of a thread. */
  function DropOpen(s: State, th: Ref, i: nat): State
    requires i < |OpenList(s, th)|
  {
    s.(heap := s.heap[th := s.heap[th].(openupval := RemoveAt(OpenList(s, th), i))])
  }

  /** Gives the memory of an object back. */
  function Release(s: State, o: Ref): State {
    s.(heap := s.heap - {o}, marks := s.marks.(color := s.marks.color - {o}))
  }

  /** `luaF_freeupval`. */
  function FreeUpVal(s: State, u: Ref): State {
    Release(if IsOpen(s.heap, u) then s.(uvhead := Without(s.uvhead, u)) else s, u)
  }

  // ----- barriers -----

  /** `luaC_barrierf`: marks the value, or gives up on the black object while sweeping. */
  function BarrierF(s: State, o: Ref, v: Ref): State {
    if s.gcstate == Propagate then s.(marks := MarkObject(s.heap, s.marks, v)) else MakeWhite(s, o)
  }

  /** `luaC_barrierback`: the table turns gray again. */
  function BarrierBack(s: State, t: Ref): State {
    s.(marks := Paint(s.marks, t, Gray).(grayagain := [t] + s.marks.grayagain))
  }

  predicate ValueIsWhite(s: State, v: Value) {
    v.Obj? && IsWhite(s.marks, v.ref)
  }

  /** The macro `luaC_barrier`. */
  function Barrier(s: State, p: Ref, v: Value): State {
    if ValueIsWhite(s, v) && IsBlack(s, p) then BarrierF(s, p, v.ref) else s
  }

  /** The macro `luaC_barriert`. */
  function BarrierT(s: State, t: Ref, v: Value): State {
    if ValueIsWhite(s, v) && IsBlack(s, t) then BarrierBack(s, t) else s
  }

  // ----- linking and closing -----

  /** Puts an object first on `rootgc`; a sweep that has not begun will still visit it. */
  function Link(s: State, o: Ref): State {
    s.(rootgc := [o] + s.rootgc, sweepgc := if s.sweepgc == 0 then 0 else s.sweepgc + 1)
  }

  /** `luaC_linkupval`. */
  function LinkUpVal(s: State, u: Ref): State {
    var s1 := Link(s, u);
    if IsGray(s1, u) then
      if s1.gcstate == Propagate then
        var s2 := s1.(marks := Paint(s1.marks, u, Black));
        Barrier(s2, u, if u in s.heap && s.heap[u].UpVal? then UpValue(s.heap, s.heap[u].v) else Nil)
      else MakeWhite(s1, u)
    else s1
  }

  /** Moves the value of an open upvalue into the upvalue. */
  function CloseOne(s: State, u: Ref): State
    requires IsOpen(s.heap, u)
  {
    s.(uvhead := Without(s.uvhead, u),
       heap := s.heap[u := UpVal(Closed(UpValue(s.heap, s.heap[u].v)))])
  }

  /** `luaF_close`: closes the upvalues of a thread at `level` and above. */
  function CloseUpvals(s: State, th: Ref, level: nat): State
    decreases |OpenList(s, th)|
  {
    if OpenList(s, th) == [] then s
    else
      var u := OpenList(s, th)[0];
      if !IsOpen(s.heap, u) || s.heap[u].v.level < level || u == th then s
      else
        var s1 := DropOpen(s, th, 0);
        CloseUpvals(if IsDead(s, u) then FreeUpVal(s1, u) else LinkUpVal(CloseOne(s1, u), u), th, level)
  }

  // ----- sweeping -----

  predicate Survives(s: State, o: Ref) {
    !IsDead(s, o) || o in s.fixed
  }

  /** Sweeps the open upvalues of a thread from the i-th on. */
  function SweepOpen(s: State, th: Ref, i: nat): State
    decreases |OpenList(s, th)| - i
  {
    if i >= |OpenList(s, th)| then s
    else
      var u := OpenList(s, th)[i];
      if Survives(s, u) then SweepOpen(MakeWhite(s, u), th, i + 1)
      else SweepOpen(FreeUpVal(DropOpen(s, th, i), u), th, i)
  }

  /** Sweeps a bucket of the string table from the i-th string on. */
  function SweepBucket(s: State, b: nat, i: nat): State
    requires b < |s.strt|
    decreases |s.strt[b]| - i
  {
    if i >= |s.strt[b]| then s
    else
      var o := s.strt[b][i];
      if Survives(s, o) then SweepBucket(MakeWhite(s, o), b, i + 1)
      else SweepBucket(Release(s.(strt := s.strt[b := RemoveAt(s.strt[b], i)]), o), b, i)
  }

  /** `freeobj` for the kinds of object on `rootgc`. */
  function FreeObj(s: State, o: Ref): State {
    if o in s.heap && s.heap[o].Thread? then Release(CloseUpvals(s, o, 0), o) else Release(s, o)
  }

  /** The object under the sweep pointer is whitened and passed, or unlinked and freed. */
  function PassOrFree(s: State, o: Ref): State {
    if Survives(s, o) || s.sweepgc >= |s.rootgc| then MakeWhite(s, o).(sweepgc := s.sweepgc + 1)
    else FreeObj(s.(rootgc := RemoveAt(s.rootgc, s.sweepgc)), o)
  }

  /** One round of the loop of `sweeplist` over `rootgc`. */
  function SweepOne(s: State): State
    requires s.sweepgc < |s.rootgc|
  {
    var o := s.rootgc[s.sweepgc];
    PassOrFree(SweepOpen(s, o, 0), o)
  }

  function SweepList(s: State, count: nat): State
    decreases count
  {
    if count == 0 || s.sweepgc >= |s.rootgc| then s else SweepList(SweepOne(s), count - 1)
  }

  // ----- the step machine -----

  function MarkRootStep(s: State): State {
    s.(marks := MarkRoot(s.heap, s.marks.color, s.mainthread, s.registry, s.mt), gcstate := Propagate)
  }

  /** `atomic`: ends the marking and turns all that is still white into garbage. */
  function AtomicStep(s: State): State {
    s.(marks := AtomicMarks(s.heap, s.marks, s.uvhead, s.running, s.mt),
       currentwhite := !s.currentwhite, sweepstrgc := 0, sweepgc := 0, gcstate := SweepString)
  }

  /** `singlestep`. */
  function SingleStep(s: State): State {
    match s.gcstate
    case Pause => MarkRootStep(s)
    case Propagate =>
      if s.marks.gray != [] && s.marks.gray[0] in s.heap then s.(marks := PropagateMark(s.heap, s.marks))
      else AtomicStep(s)
    case SweepString =>
      var s1 := if s.sweepstrgc < |s.strt| then SweepBucket(s, s.sweepstrgc, 0) else s;
      s1.(sweepstrgc := s.sweepstrgc + 1, gcstate := if s.sweepstrgc + 1 >= |s1.strt| then Sweep else SweepString)
    case Sweep =>
      var s1 := SweepList(s, GCSWEEPMAX);
      if s1.sweepgc >= |s1.rootgc| then s1.(gcstate := Finalize) else s1
    case Finalize => s.(gcstate := Pause)
  }
}
