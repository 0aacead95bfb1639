/** The steps of `luaK_goiftrue`, `luaK_goiffalse` and `codenot`, on the code and its
    lists (lua-5.1/lcode.c:511-621). */
module CodeBranches {
  import opened LuaVM
  import opened Expressions
  import opened PatchLists
  import opened ExpClaims
  import opened ExpSteps
  import opened ExpOperators
  import opened ExpLogic
  import opened ExpBranches
  import opened ExpValues
  import opened CodeShape

  /** An expression has been made to decide: the jumps `pl`, besides the list of the
      deciding truth value, leave; everything else is to lead here. */
  ghost predicate BranchReady(m: Machine, s: Snap, jl: seq<nat>, t: int, f: int, pc: int, d: Desc, pl: seq<nat>,
                              sp: Span, x: Expr, sense: bool) {
    && Branch(m, s, Leaving(d, sense) + pl, Extended(s.code, sp, Passing(d, sense)), x, sense)
    && sp.to == jl && sp.tov == ValueJumps(s.code, jl)
    && OwnList(s, jl, t, d.tl, sp.end, sp) && OwnList(s, jl, f, d.fl, sp.end, sp) && OwnList(s, jl, pc, pl, sp.end, sp)
    && Apart(d.tl, d.fl) && Apart(pl, d.tl) && Apart(pl, d.fl)
    && Own(jl, sp) && BeginsAt(s.code, sp) && sp.start <= sp.end == |s.code|
    && Tracked(s.pend, sp, Elems(jl) + Elems(d.tl) + Elems(d.fl) + Elems(pl))
  }

  lemma PassLists(s: Snap, jl: seq<nat>, t: int, f: int, d: Desc, sp: Span)
    requires ListsOk(s, jl, t, f, d, sp) && sp.end == |s.code| == Settled(d, sp.end) && !d.k.VJMP?
    ensures OwnList(s, jl, t, d.tl, sp.end, sp) && OwnList(s, jl, f, d.fl, sp.end, sp)
    ensures OwnList(s, jl, NO_JUMP, [], sp.end, sp) && Own(jl, sp) && BeginsAt(s.code, sp) && sp.start <= sp.end
    ensures Apart(d.tl, d.fl) && Apart([], d.tl) && Apart([], d.fl) && ListsUntouched(d, sp, {})
    ensures Tracked(s.pend, sp, Elems(jl) + Elems(d.tl) + Elems(d.fl) + Elems([]))
  {
    hide BeginsAt, IsList;
    BeginsHere(s, jl, t, f, d, sp);
    NoList(s.code);
    assert Pending(jl, d) == Elems(jl) + Elems(d.tl) + Elems(d.fl) + Elems([]);
  }

  /** A constant of the right truth: nothing to do. */
  lemma PassMeans(m: Machine, s: Snap, jl: seq<nat>, t: int, f: int, d: Desc, sp: Span, x: Expr, sense: bool)
    requires ListsOk(s, jl, t, f, d, sp) && Claim(m, s, d, sp, Whole(x)) && SnapOk(s) && sp.end == |s.code|
      && sp.to == jl
    requires sp.tov == ValueJumps(s.code, jl) && Passes(FormOf(m, x), sense)
    requires !d.k.VRELOCABLE? && !d.k.VJMP? && !d.k.VNONRELOC?
    requires forall w: Frame, r :: s.k <= w.k ==> Truthy(ValueOf(w, r, d)) == sense
    ensures BranchReady(m, s, jl, t, f, NO_JUMP, d, [], sp, x, sense)
  {
    hide Claim, Branch, ListsOk, OwnList, Own, Apart, BeginsAt, Tracked, ListsUntouched, MainBranch, ValueJumps, Later;
    PassLists(s, jl, t, f, d, sp);
    NoTestAt(s, |s.code|);
    LaterRefl(s, |s.code|);
    ConstantPasses(m, s, d, sp, FormOf(m, x), sense);
    ClaimBranch(m, s, d, sp, s, [], sp, {}, x, sense);
  }

  /** A constant of the other truth: an unconditional jump, with the jumps on hold. */
  lemma JumpMeans(m: Machine, s: Snap, jl: seq<nat>, t: int, f: int, d: Desc, sp: Span, x: Expr, s2: Snap, pc: int,
                  sense: bool)
    requires ListsOk(s, jl, t, f, d, sp) && Claim(m, s, d, sp, Whole(x)) && SnapOk(s) && sp.end == |s.code|
      && sp.to == jl
    requires sp.tov == ValueJumps(s.code, jl) && FormOf(m, x) == Literal(Bool(!sense)) && JumpsIn(s.code, jl)
    requires !d.k.VRELOCABLE? && !d.k.VJMP? && !d.k.VNONRELOC?
    requires forall w: Frame, r :: s.k <= w.k ==> Truthy(ValueOf(w, r, d)) != sense
    requires |s2.code| == |s.code| + 1 && s2.code[..|s.code|] == s.code && s2.pend == s.pend + {|s.code|} && s2.k == s.k
    requires IsList(s2.code, pc, [|s.code|] + jl) && Elems(jl) <= s.pend
    ensures BranchReady(m, s2, [], t, f, pc, d, [|s.code|] + jl, sp.(end := sp.end + 1, to := [], tov := {}), x, sense)
    ensures Grown(s, s2, sp)
  {
    var l, sp2 := |s.code|, sp.(end := sp.end + 1, to := [], tov := {});
    JumpLists(s, jl, t, f, d, sp, s2, pc);
    BeginsHere(s, jl, t, f, d, sp);
    ConstantJumps(m, s, d, sp, s2, FormOf(m, x), sense);
    hide Claim, Branch, ListsOk, OwnList, IsList, Own, Apart, BeginsAt, MainBranch, SnapOk;
    ClaimBranch(m, s, d, sp, s2, [l] + jl, sp2, {}, x, sense);
  }

  lemma JumpLists(s: Snap, jl: seq<nat>, t: int, f: int, d: Desc, sp: Span, s2: Snap, pc: int)
    requires ListsOk(s, jl, t, f, d, sp) && SnapOk(s) && sp.end == |s.code| == Settled(d, sp.end)
    requires |s2.code| == |s.code| + 1 && s2.code[..|s.code|] == s.code && s2.pend == s.pend + {|s.code|} && s2.k == s.k
    requires IsList(s2.code, pc, [|s.code|] + jl) && Elems(jl) <= s.pend
    ensures var pl, sp2 := [|s.code|] + jl, sp.(end := sp.end + 1, to := [], tov := {});
      && OwnList(s2, [], t, d.tl, sp2.end, sp2) && OwnList(s2, [], f, d.fl, sp2.end, sp2)
      && OwnList(s2, [], pc, pl, sp2.end, sp2)
      && Apart(d.tl, d.fl) && Apart(pl, d.tl) && Apart(pl, d.fl) && Own([], sp2) && BeginsAt(s2.code, sp2)
      && sp2.start <= sp2.end
      && Later(s, |s.code|, s2, {}) && Grown(s, s2, sp)
  {
    hide Evolves, SnapOk, ListsOk, OwnList, Grown, Later, IsList, BeginsAt, Own, Apart, Untouched;
    var l, pl, sp2 := |s.code|, [|s.code|] + jl, sp.(end := sp.end + 1, to := [], tov := {});
    BeginsHere(s, jl, t, f, d, sp);
    OwnOf(s, jl, t, f, d, sp);
    OwnBoth(s, jl, t, f, d, sp, l);
    NoTestAt(s, l);
    UnsettledLater(s, l, s2);
    GrownBy(s, l, s2, {}, sp);
    JumpJoins(s, jl, t, d.tl, sp, s2);
    JumpJoins(s, jl, f, d.fl, sp, s2);
    OwnEnd(s2, [], t, d.tl, l + 1, sp, sp2);
    OwnEnd(s2, [], f, d.fl, l + 1, sp, sp2);
    OwnNone(sp2);
    SnapPending(s);
    JumpsBefore(s, jl);
    JumpOwn(s, jl, pc, sp, s2, sp2);
  }

  /** A list beside the pending jumps is beside the jump they join. */
  lemma JumpJoins(s: Snap, jl: seq<nat>, t: int, l: seq<nat>, sp: Span, s2: Snap)
    requires OwnList(s, jl, t, l, |s.code|, sp) && Later(s, |s.code|, s2, {}) && |s2.code| == |s.code| + 1
    ensures OwnList(s2, [], t, l, |s.code| + 1, sp) && Apart([|s.code|] + jl, l)
  {
    hide Evolves, IsList;
    OwnLater(s, |s.code|, s2, {}, jl, [], t, l, sp);
    OwnMore(s2, [], t, l, |s.code|, |s.code| + 1, sp);
    assert forall p :: p in [|s.code|] + jl ==> p == |s.code| || p in jl;
  }

  lemma JumpOwn(s: Snap, jl: seq<nat>, pc: int, sp: Span, s2: Snap, sp2: Span)
    requires IsList(s2.code, pc, [|s.code|] + jl) && s2.pend == s.pend + {|s.code|} && Elems(jl) <= s.pend
    requires Own(jl, sp)
    requires sp2.start == sp.start <= |s.code| && sp2.from == sp.from && forall p :: p in jl ==> p < |s.code|
    ensures OwnList(s2, [], pc, [|s.code|] + jl, |s.code| + 1, sp2)
  {
    hide IsList;
    assert forall p :: p in [|s.code|] + jl ==> p == |s.code| || p in jl;
    assert forall p :: p in jl ==> p in Elems(jl);
  }

  lemma JumpsBefore(s: Snap, jl: seq<nat>)
    requires PendingOk(s.code, s.pend) && Elems(jl) <= s.pend
    ensures forall p :: p in jl ==> p < |s.code|
  {
    assert forall p :: p in jl ==> p in Elems(jl);
  }

  // ----- comparisons -----

  /** `invertjump`, or no change. */
  function Turned(code: seq<Instr>, pc: int, invert: bool): seq<Instr> {
    if invert && 0 <= pc < |code| && code[pc].Cmp? then code[pc := Inverted(code[pc])] else code
  }

  lemma TurnedShape(s: Snap, pc: nat, invert: bool, max: nat, nups: nat)
    requires ShapeOk(s, max, nups) && pc < |s.code| && s.code[pc].Cmp?
    ensures ShapeOk(s.(code := Turned(s.code, pc, invert)), max, nups)
  {
    var t := s.(code := Turned(s.code, pc, invert));
    forall i | 0 <= i < |t.code|
      ensures FitsAt(t.code, t.pend, max, |t.k|, nups, i)
    {
      assert FitsAt(s.code, s.pend, max, |s.k|, nups, i);
      if i + 1 < |s.code| { assert t.code[i + 1].Jmp? <==> s.code[i + 1].Jmp?; }
    }
  }

  /** A pending comparison, turned or not, with the lists before it. */
  ghost predicate ComparisonEnds(s: Snap, t: int, f: int, d: Desc, sp: Span, max: nat, nups: nat) {
    && ShapeOk(s, max, nups) && ListsOk(s, [], t, f, d, sp) && sp.end == |s.code| >= 2 && sp.to == [] && sp.tov == {}
    && d.k == VJMP(sp.end - 1) && s.code[sp.end - 1] == Jmp(NO_JUMP) && s.code[sp.end - 2].Cmp?
    && s.code[sp.end - 2].a <= 1
    && sp.end - 1 in s.pend
  }

  lemma TurnedLists(s: Snap, t: int, f: int, d: Desc, sp: Span, invert: bool, max: nat, nups: nat)
    requires ComparisonEnds(s, t, f, d, sp, max, nups)
    ensures var s2 := s.(code := Turned(s.code, sp.end - 2, invert));
      && ShapeOk(s2, max, nups) && OwnList(s2, [], t, d.tl, sp.end - 2, sp) && OwnList(s2, [], f, d.fl, sp.end - 2, sp)
      && Later(s, sp.end - 2, s2, {}) && Grown(s, s2, sp) && BeginsAt(s2.code, sp)
  {
    hide Evolves, SnapOk, ShapeOk;
    var pc: nat := sp.end - 2;
    var s2 := s.(code := Turned(s.code, pc, invert));
    TurnedShape(s, pc, invert, max, nups);
    ShapeSnap(s, max, nups);
    NoTestAt(s, pc);
    UnsettledLater(s, pc, s2);
    GrownBy(s, pc, s2, {}, sp);
    OwnLater(s, pc, s2, {}, [], [], t, d.tl, sp);
    OwnLater(s, pc, s2, {}, [], [], f, d.fl, sp);
  }

  lemma EndsFacts(s: Snap, t: int, f: int, d: Desc, sp: Span, max: nat, nups: nat)
    requires ComparisonEnds(s, t, f, d, sp, max, nups)
    ensures ListsOk(s, [], t, f, d, sp) && sp.end == |s.code| >= 2 && d.k == VJMP(sp.end - 1)
    ensures s.code[sp.end - 1] == Jmp(NO_JUMP) && sp.end - 1 in s.pend && Settled(d, sp.end) == sp.end - 2
  {
  }

  lemma TurnedReady(s: Snap, t: int, f: int, d: Desc, sp: Span, sense: bool, max: nat, nups: nat, info: nat)
    requires ComparisonEnds(s, t, f, d, sp, max, nups) && info == sp.end - 1
    ensures var s2, pl := s.(code := Turned(s.code, sp.end - 2, sense)), [info];
      && OwnList(s2, [], t, d.tl, sp.end, sp) && OwnList(s2, [], f, d.fl, sp.end, sp)
      && OwnList(s2, [], info, pl, sp.end, sp)
      && Apart(d.tl, d.fl) && Apart(pl, d.tl) && Apart(pl, d.fl) && Own([], sp) && BeginsAt(s2.code, sp)
      && sp.start <= sp.end == |s2.code| && Tracked(s2.pend, sp, Elems([]) + Elems(d.tl) + Elems(d.fl) + Elems(pl))
      && ShapeOk(s2, max, nups) && Grown(s, s2, sp)
  {
    hide ComparisonEnds, ShapeOk, Later, Grown, OwnList, BeginsAt, ListsOk, Own, Apart, Tracked, Turned, Elems,
      Settled;
    EndsFacts(s, t, f, d, sp, max, nups);
    var pc: nat := sp.end - 2;
    var s2 := s.(code := Turned(s.code, pc, sense));
    TurnedEnd(s.code, pc, sense);
    TurnedLists(s, t, f, d, sp, sense, max, nups);
    BeginsHere(s, [], t, f, d, sp);
    OwnOf(s, [], t, f, d, sp);
    OneMore(s2, t, f, d, sp, pc, info);
    ComparisonTracked(s, t, f, d, sp);
  }

  lemma ComparisonMeans(m: Machine, s: Snap, t: int, f: int, d: Desc, sp: Span, x: Expr, sense: bool, max: nat,
                        nups: nat)
    requires ComparisonEnds(s, t, f, d, sp, max, nups) && Claim(m, s, d, sp, Whole(x)) && FormOf(m, x).Boolean?
    ensures var s2 := s.(code := Turned(s.code, sp.end - 2, sense));
      && BranchReady(m, s2, [], t, f, sp.end - 1, d, [sp.end - 1], sp, x, sense) && ShapeOk(s2, max, nups)
      && Grown(s, s2, sp)
  {
    hide Branch, ShapeOk, Later, Grown, OwnList, BeginsAt, ListsOk, Own, Apart, Tracked, Turned, Leaving, Passing,
      Elems,
      Claim;
    ComparisonBranch(m, s, t, f, d, sp, x, sense, max, nups);
    TurnedReady(s, t, f, d, sp, sense, max, nups, sp.end - 1);
  }

  lemma ComparisonTracked(s: Snap, t: int, f: int, d: Desc, sp: Span)
    requires ListsOk(s, [], t, f, d, sp) && sp.end >= 1 && d.k == VJMP(sp.end - 1)
    ensures Tracked(s.pend, sp, Elems([]) + Elems(d.tl) + Elems(d.fl) + Elems([sp.end - 1]))
  {
    hide OwnList, BeginsAt;
  }

  lemma TurnedEnd(code: seq<Instr>, pc: nat, invert: bool)
    requires pc + 1 < |code|
    ensures |Turned(code, pc, invert)| == |code| && Turned(code, pc, invert)[pc + 1] == code[pc + 1]
  {
  }

  lemma ComparisonBranch(m: Machine, s: Snap, t: int, f: int, d: Desc, sp: Span, x: Expr, sense: bool, max: nat,
                         nups: nat)
    requires ComparisonEnds(s, t, f, d, sp, max, nups) && Claim(m, s, d, sp, Whole(x)) && FormOf(m, x).Boolean?
    ensures var s2 := s.(code := Turned(s.code, sp.end - 2, sense));
      Branch(m, s2, Leaving(d, sense) + [sp.end - 1], Extended(s2.code, sp, Passing(d, sense)), x, sense)
  {
    hide Claim, Branch, MainBranch, ShapeOk, Later, Grown, OwnList, BeginsAt, ListsOk, Own, Apart, ListsUntouched,
      PendingOk, Leaving, Passing;
    var s2 := s.(code := Turned(s.code, sp.end - 2, sense));
    TurnedLists(s, t, f, d, sp, sense, max, nups);
    ShapePending(s, max, nups);
    ShapePending(s2, max, nups);
    ComparisonDecides(m, s, d, sp, s2, sense);
    BeginsHere(s, [], t, f, d, sp);
    ClaimBranch(m, s, d, sp, s2, [sp.end - 1], sp, {}, x, sense);
  }

  lemma ShapePending(s: Snap, max: nat, nups: nat)
    requires ShapeOk(s, max, nups)
    ensures PendingOk(s.code, s.pend) && TestsJump(s.code)
  {
    ShapeSnap(s, max, nups);
  }

  /** The lists, and a jump made last. */
  lemma OneMore(s: Snap, t: int, f: int, d: Desc, sp: Span, n: nat, info: nat)
    requires OwnList(s, [], t, d.tl, n, sp) && OwnList(s, [], f, d.fl, n, sp) && n <= info < |s.code| == sp.end
    requires sp.start <= info
    requires s.code[info] == Jmp(NO_JUMP) && info in s.pend
    ensures OwnList(s, [], t, d.tl, sp.end, sp) && OwnList(s, [], f, d.fl, sp.end, sp)
    ensures OwnList(s, [], info, [info], sp.end, sp)
    ensures Apart([info], d.tl) && Apart([info], d.fl) && Own([], sp)
  {
    OwnMore(s, [], t, d.tl, n, sp.end, sp);
    OwnMore(s, [], f, d.fl, n, sp.end, sp);
  }

  // ----- tests of registers -----

  lemma RegisterMeans(m: Machine, s: Snap, jl: seq<nat>, t: int, f: int, d: Desc, sp: Span, x: Expr, sense: bool,
                      max: nat, nups: nat)
    requires ShapeOk(s, max, nups) && JumpsHere(s, jl) && ListsOk(s, jl, t, f, d, sp) && Claim(m, s, d, sp, Whole(x))
    requires d.k.VNONRELOC? && d.k.info < max && NeedsTest(FormOf(m, x), sense)
    requires sp.end == |s.code| && sp.to == jl
    ensures var s2 := EmitTest(s, jl, TestSet(NO_REG, d.k.info, if sense then 0 else 1));
      && BranchReady(m, s2, [], t, f, sp.end + 1, d, [sp.end + 1], Coded(sp, 2), x, sense) && ShapeOk(s2, max, nups)
      && Grown(s, s2, sp)
  {
    hide Claim, Branch, MainBranch, ShapeOk, Later, SnapOk, ListsOk, OwnList, Grown, BeginsAt, ListsUntouched, JumpsIn,
      PendingOk, EmitTest, Own, Apart, Tracked, Elems, Leaving, Passing;
    var i := TestSet(NO_REG, d.k.info, if sense then 0 else 1);
    var s2, l := EmitTest(s, jl, i), |s.code|;
    ShapeSnap(s, max, nups);
    SnapPending(s);
    EmitTestShape(s, jl, i, max, nups);
    NoTestAt(s, l);
    EmitTestLater(s, jl, i, l);
    BeginsHere(s, jl, t, f, d, sp);
    RegisterDecides(m, s, d, sp, FormOf(m, x), sense);
    TestEnds(s, jl, i);
    ClaimBranch(m, s, d, sp, s2, [l + 1], Coded(sp, 2), Elems(jl), x, sense);
    RegisterLists(s, jl, t, f, d, sp, i);
  }

  lemma RegisterLists(s: Snap, jl: seq<nat>, t: int, f: int, d: Desc, sp: Span, i: Instr)
    requires ListsOk(s, jl, t, f, d, sp) && SnapOk(s) && sp.end == |s.code| && JumpsHere(s, jl) && d.k.VNONRELOC?
    ensures var s2, a, pl := EmitTest(s, jl, i), Coded(sp, 2), [sp.end + 1];
      && OwnList(s2, [], t, d.tl, a.end, a) && OwnList(s2, [], f, d.fl, a.end, a)
      && OwnList(s2, [], sp.end + 1, pl, a.end, a)
      && Apart(d.tl, d.fl) && Apart(pl, d.tl) && Apart(pl, d.fl) && Own([], a) && BeginsAt(s2.code, a)
      && Grown(s, s2, sp)
      && Tracked(s2.pend, a, Elems([]) + Elems(d.tl) + Elems(d.fl) + Elems(pl))
  {
    hide SnapOk, ListsOk, OwnList, Grown, BeginsAt, EmitTest, Own, Apart;
    BeginsHere(s, jl, t, f, d, sp);
    TestEnds(s, jl, i);
    TestLists(s, jl, t, f, d, sp, i);
    TrackedOf(s, jl, t, f, d, sp);
    TestPend(s, jl, i, sp, Elems(d.tl) + Elems(d.fl));
    OneMore(EmitTest(s, jl, i), t, f, d, Coded(sp, 2), sp.end, sp.end + 1);
  }

  /** The end of the code after `condjump`. */
  lemma TestEnds(s: Snap, j: seq<nat>, i: Instr)
    ensures var c := EmitTest(s, j, i).code; |c| == |s.code| + 2 && c[|s.code|] == i && c[|s.code| + 1] == Jmp(NO_JUMP)
    ensures |s.code| + 1 in EmitTest(s, j, i).pend && EmitTest(s, j, i).k == s.k
  {
  }

  /** A test leaves its own jump pending. */
  lemma TestPend(s: Snap, j: seq<nat>, i: Instr, sp: Span, known: set<nat>)
    requires Tracked(s.pend, sp, Elems(j) + known)
    ensures Tracked(EmitTest(s, j, i).pend, Coded(sp, 2), known + {|s.code| + 1})
  {
  }

  lemma TestLists(s: Snap, jl: seq<nat>, t: int, f: int, d: Desc, sp: Span, i: Instr)
    requires ListsOk(s, jl, t, f, d, sp) && SnapOk(s) && sp.end == |s.code| == Settled(d, sp.end) && JumpsHere(s, jl)
    ensures var s2 := EmitTest(s, jl, i);
      && OwnList(s2, [], t, d.tl, sp.end, Coded(sp, 2)) && OwnList(s2, [], f, d.fl, sp.end, Coded(sp, 2))
      && Apart(d.tl, d.fl) && BeginsAt(s2.code, Coded(sp, 2)) && Grown(s, s2, sp)
  {
    hide EmitTest, SnapOk, Grown;
    var l := |s.code|;
    NoTestAt(s, l);
    GrownEmitTest(s, l, jl, i, sp);
    OwnEmitTest(s, l, jl, i, t, d.tl, sp);
    OwnEmitTest(s, l, jl, i, f, d.fl, sp);
    OwnEnd(EmitTest(s, jl, i), [], t, d.tl, l, sp, Coded(sp, 2));
    OwnEnd(EmitTest(s, jl, i), [], f, d.fl, l, sp, Coded(sp, 2));
  }

  // ----- tests that replace a `not` -----

  /** The code with its last instruction, a `not`, replaced by a test of its operand. */
  function NotReplaced(code: seq<Instr>, sense: bool): seq<Instr> {
    if code == [] || !code[|code| - 1].Not? then code
    else code[..|code| - 1] + [Test(code[|code| - 1].b, if sense then 1 else 0)] + [Jmp(NO_JUMP)]
  }

  lemma NotMeans(m: Machine, s: Snap, t: int, f: int, d: Desc, sp: Span, x: Expr, sense: bool, max: nat, nups: nat)
    requires ShapeOk(s, max, nups) && ListsOk(s, [], t, f, d, sp) && Claim(m, s, d, sp, Whole(x))
      && sp.end == |s.code| >= 1
    requires sp.to == [] && sp.tov == {} && FormOf(m, x).Boolean?
    requires d.k.VRELOCABLE? && s.code[sp.end - 1].Not?
    ensures var s2 := s.(code := NotReplaced(s.code, sense), pend := s.pend + {sp.end});
      && BranchReady(m, s2, [], t, f, sp.end, d, [sp.end], sp.(end := sp.end + 1), x, sense) && ShapeOk(s2, max, nups)
      && Grown(s, s2, sp)
  {
    hide Claim, Branch, MainBranch, ShapeOk, ListsOk, Later, Grown, SnapOk, OwnList, Leaving, Passing;
    var pc: nat := sp.end - 1;
    var s2, sp2 := s.(code := NotReplaced(s.code, sense), pend := s.pend + {sp.end}), sp.(end := sp.end + 1);
    NotLists(s, t, f, d, sp, sense, max, nups);
    NotBranch(m, s, t, f, d, sp, x, sense, max, nups);
    BeginsHere(s, [], t, f, d, sp);
    TrackedOf(s, [], t, f, d, sp);
    assert |s2.code| == |s.code| + 1 && s2.code[sp.end] == Jmp(NO_JUMP);
    hide NotReplaced;
    OneMore(s2, t, f, d, sp2, pc, sp.end);
  }

  lemma NotBranch(m: Machine, s: Snap, t: int, f: int, d: Desc, sp: Span, x: Expr, sense: bool, max: nat, nups: nat)
    requires ShapeOk(s, max, nups) && ListsOk(s, [], t, f, d, sp) && Claim(m, s, d, sp, Whole(x))
      && sp.end == |s.code| >= 1
    requires sp.to == [] && sp.tov == {} && FormOf(m, x).Boolean?
    requires d.k.VRELOCABLE? && s.code[sp.end - 1].Not?
    ensures var s2 := s.(code := NotReplaced(s.code, sense), pend := s.pend + {sp.end});
      Branch(m, s2, Leaving(d, sense) + [sp.end], Extended(s2.code, sp.(end := sp.end + 1), Passing(d, sense)), x,
        sense)
  {
    hide Claim, Branch, MainBranch, ShapeOk, ListsOk, Later, Grown, SnapOk, OwnList, ListsUntouched, PendingOk,
      BeginsAt, Leaving, Passing;
    var pc: nat := sp.end - 1;
    var s2, sp2 := s.(code := NotReplaced(s.code, sense), pend := s.pend + {sp.end}), sp.(end := sp.end + 1);
    NotLists(s, t, f, d, sp, sense, max, nups);
    BeginsHere(s, [], t, f, d, sp);
    ShapeSnap(s, max, nups);
    ShapeSnap(s2, max, nups);
    SnapPending(s);
    SnapPending(s2);
    assert |s2.code| == |s.code| + 1 && s2.code[pc] == Test(s.code[pc].b, if sense then 1 else 0);
    hide NotReplaced;
    NotDecides(m, s, d, sp, s2, sense);
    ClaimBranch(m, s, d, sp, s2, [sp.end], sp2, {}, x, sense);
  }

  lemma NotLists(s: Snap, t: int, f: int, d: Desc, sp: Span, sense: bool, max: nat, nups: nat)
    requires ShapeOk(s, max, nups) && ListsOk(s, [], t, f, d, sp) && sp.end == |s.code| >= 1 && d.k.VRELOCABLE?
    requires s.code[sp.end - 1].Not?
    ensures var s2, sp2 := s.(code := NotReplaced(s.code, sense), pend := s.pend + {sp.end}), sp.(end := sp.end + 1);
      && ShapeOk(s2, max, nups) && OwnList(s2, [], t, d.tl, sp.end - 1, sp2)
      && OwnList(s2, [], f, d.fl, sp.end - 1, sp2)
      && Later(s, sp.end - 1, s2, {}) && Grown(s, s2, sp) && BeginsAt(s2.code, sp2) && Apart(d.tl, d.fl)
  {
    hide ShapeOk, ListsOk, NotReplaced, Later, Grown, OwnList, BeginsAt, Apart, IsList;
    var pc: nat := sp.end - 1;
    var s2 := s.(code := NotReplaced(s.code, sense), pend := s.pend + {sp.end});
    NotShape(s, sense, max, nups);
    NotLater(s, sense, max, nups);
    OwnOf(s, [], t, f, d, sp);
    OwnBoth(s, [], t, f, d, sp, pc);
    CutLists(s, pc, s2, t, f, d, sp, sp.(end := sp.end + 1));
  }

  lemma NotLater(s: Snap, sense: bool, max: nat, nups: nat)
    requires ShapeOk(s, max, nups) && s.code != [] && s.code[|s.code| - 1].Not?
    ensures Later(s, |s.code| - 1, s.(code := NotReplaced(s.code, sense), pend := s.pend + {|s.code|}), {})
  {
    hide ShapeOk, SnapOk;
    var pc: nat := |s.code| - 1;
    ShapeSnap(s, max, nups);
    NoTestAt(s, pc);
    UnsettledLater(s, pc, s.(code := NotReplaced(s.code, sense), pend := s.pend + {|s.code|}));
  }

  /** Lists before position `n` stay when only later code changes. */
  lemma CutLists(s: Snap, n: nat, s2: Snap, t: int, f: int, d: Desc, sp: Span, sp2: Span)
    requires Later(s, n, s2, {}) && OwnList(s, [], t, d.tl, n, sp) && OwnList(s, [], f, d.fl, n, sp)
    requires BeginsAt(s.code, sp) && sp.start <= n
    requires sp2.start == sp.start && sp2.from == sp.from && Untouched(d.tl, n, {}) && Untouched(d.fl, n, {})
    ensures OwnList(s2, [], t, d.tl, n, sp2) && OwnList(s2, [], f, d.fl, n, sp2) && Grown(s, s2, sp)
    ensures BeginsAt(s2.code, sp2)
  {
    hide Later, Grown, OwnList, BeginsAt;
    GrownBy(s, n, s2, {}, sp);
    OwnLater(s, n, s2, {}, [], [], t, d.tl, sp);
    OwnLater(s, n, s2, {}, [], [], f, d.fl, sp);
    OwnEnd(s2, [], t, d.tl, n, sp, sp2);
    OwnEnd(s2, [], f, d.fl, n, sp, sp2);
  }

  lemma NotShape(s: Snap, sense: bool, max: nat, nups: nat)
    requires ShapeOk(s, max, nups) && s.code != [] && s.code[|s.code| - 1].Not?
    ensures ShapeOk(s.(code := NotReplaced(s.code, sense), pend := s.pend + {|s.code|}), max, nups)
  {
    var t := s.(code := NotReplaced(s.code, sense), pend := s.pend + {|s.code|});
    forall i | 0 <= i < |t.code|
      ensures FitsAt(t.code, t.pend, max, |t.k|, nups, i)
    {
      if i < |s.code| { assert FitsAt(s.code, s.pend, max, |s.k|, nups, i); }
    }
  }

  lemma OwnBoth(s: Snap, jl: seq<nat>, t: int, f: int, d: Desc, sp: Span, n: nat)
    requires ListsOk(s, jl, t, f, d, sp) && n == Settled(d, sp.end)
    ensures OwnList(s, jl, t, d.tl, n, sp) && OwnList(s, jl, f, d.fl, n, sp)
    ensures Untouched(d.tl, n, {}) && Untouched(d.fl, n, {})
  {
  }

  // ----- joining the lists -----

  /** The decision is made: the list `l` leaves, everything else is to lead here. */
  ghost predicate DecidedAt(m: Machine, s: Snap, jl: seq<nat>, head: int, l: seq<nat>, sp: Span, x: Expr, sense: bool) {
    && Branch(m, s, l, sp, x, sense) && sp.to == jl && sp.tov == ValueJumps(s.code, jl)
    && sp.start <= sp.end == |s.code|
    && OwnList(s, jl, head, l, sp.end, sp) && Own(jl, sp) && BeginsAt(s.code, sp)
    && Tracked(s.pend, sp, Elems(jl) + Elems(l))
  }

  function Head(t: int, f: int, sense: bool): int {
    if sense then f else t
  }

  /** The first link: the new jumps join the list that leaves. */
  lemma LeavingLinked(m: Machine, s: Snap, jpc: int, jl: seq<nat>, t: int, f: int, pc: int, d: Desc, pl: seq<nat>,
                      sp: Span, x: Expr, sense: bool,
                      s1: Snap, max: nat, nups: nat)
    requires BranchReady(m, s, jl, t, f, pc, d, pl, sp, x, sense) && ShapeOk(s, max, nups) && IsList(s.code, jpc, jl)
    requires Leaving(d, sense) != [] ==> Leaving(d, sense)[|Leaving(d, sense)| - 1] < |s.code|
    requires s1 == s.(code := Linked(s.code, Leaving(d, sense), pl))
    ensures Relinked(s, s1) && Grown(s, s1, sp) && BeginsAt(s1.code, sp) && ShapeOk(s1, max, nups)
    ensures IsList(s1.code, Head(f, t, sense), Passing(d, sense)) && IsList(s1.code, jpc, jl)
    ensures forall p :: p in jl ==> p !in Passing(d, sense)
  {
    hide ShapeOk, Relinked, Grown, BeginsAt, Branch;
    var l, p := Leaving(d, sense), Passing(d, sense);
    ListJumps(s.code, Head(t, f, sense), l);
    LinkedRelinked(s, l, pl, s1, sp);
    RelinkedShape(s, s1, max, nups);
    assert Apart(l, p) && Apart(l, jl) && Apart(jl, p);
    LinkedBeside(s, l, pl, Head(f, t, sense), p);
    LinkedBeside(s, l, pl, jpc, jl);
  }

  lemma ReadyFacts(m: Machine, s: Snap, jl: seq<nat>, t: int, f: int, pc: int, d: Desc, pl: seq<nat>, sp: Span, x: Expr,
                   sense: bool)
    requires BranchReady(m, s, jl, t, f, pc, d, pl, sp, x, sense)
    ensures IsList(s.code, Head(t, f, sense), Leaving(d, sense)) && IsList(s.code, pc, pl)
    ensures Apart(Leaving(d, sense), pl)
    ensures Leaving(d, sense) != [] ==> Leaving(d, sense)[|Leaving(d, sense)| - 1] < |s.code|
    ensures sp.start <= sp.end == |s.code|
  {
    ListEnds(s.code, Head(t, f, sense), Leaving(d, sense));
  }

  /** The second link: the list of the other truth value joins what leads here. */
  lemma PassingLinked(m: Machine, s: Snap, jpc: int, jl: seq<nat>, t: int, f: int, pc: int, d: Desc, pl: seq<nat>,
                      sp: Span, x: Expr, sense: bool,
                      s1: Snap, s2: Snap, head: int, max: nat, nups: nat)
    requires BranchReady(m, s, jl, t, f, pc, d, pl, sp, x, sense) && Relinked(s, s1) && Grown(s, s1, sp)
    requires BeginsAt(s1.code, sp) && ShapeOk(s1, max, nups)
    requires IsList(s1.code, head, Leaving(d, sense) + pl) && IsList(s1.code, jpc, jl) && Elems(jl) <= s.pend
    requires s2 == s1.(code := Linked(s1.code, jl, Passing(d, sense))) && (jl != [] ==> jl[|jl| - 1] < |s1.code|)
    ensures var sp2 := Extended(s2.code, sp, Passing(d, sense));
      DecidedAt(m, s2, sp2.to, head, Leaving(d, sense) + pl, sp2, x, sense) && ShapeOk(s2, max, nups)
          && Grown(s, s2, sp)
    ensures Elems(jl + Passing(d, sense)) <= s2.pend && |s2.code| == |s.code|
  {
    hide ShapeOk, Grown, BeginsAt, IsList, Linked;
    var l, sp2 := Leaving(d, sense) + pl, Extended(s2.code, sp, Passing(d, sense));
    ListJumps(s1.code, jpc, jl);
    PassingOwn(m, s, jl, t, f, pc, d, pl, sp, x, sense);
    RelinkedSize(s, s1);
    LinkedRelinked(s1, jl, Passing(d, sense), s2, sp);
    RelinkedSize(s1, s2);
    RelinkedShape(s1, s2, max, nups);
    LinkedBeside(s1, jl, Passing(d, sense), head, l);
    GrownTrans(s, s1, s2, sp);
    DecidesRelinked(m, s, jl, t, f, pc, d, pl, sp, x, sense, s1, s2);
    ValuesRelinked(s, s1, sp2.to);
    ValuesRelinked(s1, s2, sp2.to);
    OwnRelinked(s, s2, l, sp, head, sp2);
  }

  lemma RelinkedSize(s: Snap, t: Snap)
    requires Relinked(s, t)
    ensures |t.code| == |s.code| && t.pend == s.pend && t.k == s.k
  {
  }

  lemma PassingOwn(m: Machine, s: Snap, jl: seq<nat>, t: int, f: int, pc: int, d: Desc, pl: seq<nat>, sp: Span, x: Expr,
                   sense: bool)
    requires BranchReady(m, s, jl, t, f, pc, d, pl, sp, x, sense) && Elems(jl) <= s.pend
    ensures var l, to := Leaving(d, sense) + pl, jl + Passing(d, sense);
      && Elems(l) <= s.pend && Apart(l, to) && Untouched(l, sp.end, {}) && Own(l, sp) && Own(to, sp) && Own(jl, sp)
      && Apart(jl, l)
      && (l != [] ==> sp.start < sp.end) && Elems(to) <= s.pend && sp.start <= sp.end == |s.code|
  {
    hide Branch, IsList, BeginsAt;
    var l, p := Leaving(d, sense), Passing(d, sense);
    assert Elems(l + pl) == Elems(l) + Elems(pl) && Elems(jl + p) == Elems(jl) + Elems(p);
    assert Apart(l, p) && Apart(pl, p) && Apart(l, jl) && Apart(pl, jl);
  }

  lemma DecidesRelinked(m: Machine, s: Snap, jl: seq<nat>, t: int, f: int, pc: int, d: Desc, pl: seq<nat>, sp: Span,
                        x: Expr, sense: bool, s1: Snap, s2: Snap)
    requires BranchReady(m, s, jl, t, f, pc, d, pl, sp, x, sense) && Relinked(s, s1) && Relinked(s1, s2)
    ensures Branch(m, s2, Leaving(d, sense) + pl, Extended(s.code, sp, Passing(d, sense)), x, sense)
  {
    hide Branch, Relinked;
    var l, sp2 := Leaving(d, sense) + pl, Extended(s.code, sp, Passing(d, sense));
    BranchRelinked(m, s, l, s1, sp2, x, sense);
    BranchRelinked(m, s1, l, s2, sp2, x, sense);
  }

  lemma OwnRelinked(s: Snap, s2: Snap, l: seq<nat>, sp: Span, head: int, sp2: Span)
    requires Elems(l) <= s.pend && Apart(l, sp2.to) && Untouched(l, sp.end, {}) && Own(l, sp) && Own(sp2.to, sp)
    requires sp2 == sp.(to := sp2.to, tov := sp2.tov)
    requires IsList(s2.code, head, l) && s2.pend == s.pend && BeginsAt(s2.code, sp) && (l != [] ==> sp.start < sp.end)
    ensures OwnList(s2, sp2.to, head, l, sp2.end, sp2) && Own(sp2.to, sp2) && BeginsAt(s2.code, sp2)
  {
  }

  lemma TestSize(s: Snap, j: seq<nat>, i: Instr)
    ensures |EmitTest(s, j, i).code| == |s.code| + 2 && EmitTest(s, j, i).k == s.k
  {
  }

  /** With no jumps to here, a test is just added. */
  lemma NothingHere(s: Snap, code: seq<Instr>, c: nat, sense: bool)
    requires code != [] && code[|code| - 1].Not? && s.code == code[..|code| - 1] && c == (if sense then 1 else 0)
    ensures var i := Test(code[|code| - 1].b, c);
      EmitTest(s, [], i) == s.(code := NotReplaced(code, sense), pend := s.pend + {|code|})
  {
    EmittedNothing(s.code, Test(code[|code| - 1].b, c));
    assert Elems([]) == {};
  }

  lemma JumpShape(s: Snap, s2: Snap, max: nat, nups: nat)
    requires ShapeOk(s, max, nups) && |s2.code| == |s.code| + 1 && s2.code[..|s.code|] == s.code
    requires s2.code[|s.code|].Jmp?
    requires s2.pend == s.pend + {|s.code|} && s2.k == s.k
    ensures ShapeOk(s2, max, nups)
  {
    forall i | 0 <= i < |s2.code|
      ensures FitsAt(s2.code, s2.pend, max, |s2.k|, nups, i)
    {
      if i < |s.code| {
        assert s2.code[i] == s.code[i];
        assert FitsAt(s.code, s.pend, max, |s.k|, nups, i);
        if i + 1 < |s.code| { assert s2.code[i + 1] == s.code[i + 1]; }
      }
    }
  }

  // ----- not -----

  function Swapped(d: Desc, kind: ExpKind): Desc {
    Desc(kind, d.fl, d.tl)
  }

  /** `not` of a constant. */
  lemma NotConstant(m: Machine, s: Snap, d: Desc, sp: Span, kind: ExpKind)
    requires !d.k.VRELOCABLE? && !d.k.VJMP? && !d.k.VNONRELOC? && (kind == VTRUE || kind == VFALSE)
    requires forall w: Frame, r :: s.k <= w.k ==> Truthy(ValueOf(w, r, d)) == (kind == VFALSE)
    ensures MainNot(m, s.code, d, sp, s, Swapped(d, kind), sp.(valued := false))
  {
    hide ArrivesWith;
    var d2, sp2 := Swapped(d, kind), sp.(valued := false);
    forall w, o, r, way | Final(w, s, sp.end) && |r| == MAXSTACK && Main(m, w, o, r, way, s.code, d, sp)
      ensures MainYields(m, w, o, r, Negated(way), s.code, d2, sp2)
    {
      assert ValueOf(w, r, d2) == Bool(kind == VTRUE);
      assert Keeps(r, r, sp2.free, Idle(sp2)) && Main(m, w, o, r, Negated(way), s.code, d2, sp2);
    }
  }

  /** `not` of a comparison inverts it. */
  lemma NotComparison(m: Machine, s: Snap, d: Desc, sp: Span)
    requires d.k.VJMP? && sp.end == |s.code| >= 2 && s.code[sp.end - 2].Cmp? && s.code[sp.end - 2].a <= 1
    ensures MainNot(m, s.code, d, sp, s.(code := Turned(s.code, sp.end - 2, true)), Swapped(d, d.k),
        sp.(valued := false))
  {
    hide Goes, Final;
    var pc: nat := sp.end - 2;
    var s2, d2, sp2 := s.(code := Turned(s.code, pc, true)), Swapped(d, d.k), sp.(valued := false);
    forall w, o, r, way | Final(w, s2, pc) && |r| == MAXSTACK && Main(m, w, o, r, way, s.code, d, sp)
      ensures MainYields(m, w, o, r, Negated(way), s2.code, d2, sp2)
    {
      assert Keeps(r, r, sp2.free, Idle(sp2)) && Main(m, w, o, r, Negated(way), s2.code, d2, sp2);
    }
  }

  /** `not` of a value in a register is an instruction. */
  lemma NotRegister(m: Machine, s: Snap, j: seq<nat>, d: Desc, sp: Span)
    requires SnapOk(s) && JumpsIn(s.code, j) && sp.end == |s.code| && sp.to == j && d.k.VNONRELOC?
    ensures MainNot(m, s.code, d, sp, Emit(s, j, Not(0, d.k.info)), Swapped(d, VRELOCABLE(sp.end)), Coded(sp,
        1).(valued := false))
  {
    hide Goes, Arrives, ArrivesWith, SnapOk, JumpsIn, Emitted;
    var i := Not(0, d.k.info);
    var s2, d2, sp2, l := Emit(s, j, i), Swapped(d, VRELOCABLE(sp.end)), Coded(sp, 1).(valued := false), sp.end;
    forall w, o, r, way | Final(w, s2, l) && |r| == MAXSTACK && Main(m, w, o, r, way, s.code, d, sp)
      ensures MainYields(m, w, o, r, Negated(way), s2.code, d2, sp2)
    {
      SameConstants(s, j, i);
      ArrivesAtAll(m, w, o, l, j, sp.tov, r, CarriedTo(d, sp.free, way.c));
      Discharged(m, w, o, r, s, j, i, s.k, l);
      assert Keeps(r, r, sp2.free, Idle(sp2)) && Main(m, w, o, r, Negated(way), s2.code, d2, sp2);
    }
  }

  // ----- removing values -----

  /** The snapshot after `removevalues` on both lists. */
  function Valueless(s: Snap, tl: seq<nat>, fl: seq<nat>): Snap {
    s.(code := WithoutValues(WithoutValues(s.code, fl), tl))
  }

  lemma ValuelessAt(s: Snap, tl: seq<nat>, fl: seq<nat>, i: nat)
    requires i < |s.code|
    ensures Valueless(s, tl, fl).code[i] == if (i + 1 in tl || i + 1 in fl)
        && s.code[i].TestSet? then Test(s.code[i].b, s.code[i].c) else s.code[i]
  {
  }

  lemma ValuelessLater(s: Snap, n: nat, tl: seq<nat>, fl: seq<nat>)
    requires n <= |s.code| && JumpsIn(s.code, tl) && JumpsIn(s.code, fl) && Elems(tl) + Elems(fl) <= s.pend
    requires (n > 0 ==> !s.code[n - 1].TestSet?)
    ensures Later(s, n, Valueless(s, tl, fl), Elems(tl) + Elems(fl))
  {
    var t := Valueless(s, tl, fl);
    forall i | 0 <= i < n
      ensures EvolvesAt(s.code, s.pend, t.code, t.pend, Elems(tl) + Elems(fl), i)
    {
      ValuelessAt(s, tl, fl, i);
    }
  }

  lemma ValuelessShape(s: Snap, tl: seq<nat>, fl: seq<nat>, max: nat, nups: nat)
    requires ShapeOk(s, max, nups)
    ensures ShapeOk(Valueless(s, tl, fl), max, nups)
  {
    var t := Valueless(s, tl, fl);
    forall i | 0 <= i < |t.code|
      ensures FitsAt(t.code, t.pend, max, |t.k|, nups, i)
    {
      ValuelessAt(s, tl, fl, i);
      if i + 1 < |s.code| { ValuelessAt(s, tl, fl, i + 1); }
      assert FitsAt(s.code, s.pend, max, |s.k|, nups, i);
    }
    forall p | p in t.pend
      ensures p < |t.code| && t.code[p].Jmp?
    {
      ValuelessAt(s, tl, fl, p);
    }
    if s.code != [] { ValuelessAt(s, tl, fl, |s.code| - 1); }
  }

  lemma ValuelessList(s: Snap, tl: seq<nat>, fl: seq<nat>, head: int, l: seq<nat>)
    requires IsList(s.code, head, l)
    ensures IsList(Valueless(s, tl, fl).code, head, l)
  {
    ListJumps(s.code, head, l);
    forall p | p in l
      ensures Valueless(s, tl, fl).code[p] == s.code[p]
    {
      ValuelessAt(s, tl, fl, p);
    }
  }

  /** Claims that promise no values do not mind. */
  lemma ClaimUnvalued(m: Machine, s: Snap, d: Desc, sp: Span, t: Snap, touched: set<nat>, x: Meaning)
    requires Claim(m, s, d, sp, x) && !sp.valued && Later(s, Settled(d, sp.end), t, touched)
    requires d.k.VRELOCABLE? ==> InstrAt(t.code, sp.end - 1) == InstrAt(s.code, sp.end - 1)
    requires d.k.VJMP? ==> InstrAt(t.code, sp.end - 2) == InstrAt(s.code, sp.end - 2)
    ensures Claim(m, t, d, sp, x)
  {
    hide Final, Fails, ArrivesWith, Keeps, Means, Goes, InstrAt, Later, Starts, AtJump;
    forall w, o, r0, c | Final(w, t, Settled(d, sp.end)) && Starts(m, w, o, r0, c, sp)
      ensures Yields(m, w, o, r0, Means(m, w.up, r0, x, c), t.code, d, sp)
    {
      FinalEarlier(w, s, Settled(d, sp.end), t, Settled(d, sp.end), touched);
      var way := Means(m, w.up, r0, x, c);
      if !Raises(m, w, o, way) {
        var r :| YieldsWith(m, w, o, r0, r, way, s.code, d, sp);
        assert YieldsWith(m, w, o, r0, r, way, t.code, d, sp);
      }
    }
  }

  /** After `codenot`, from the claim with the lists exchanged. */
  lemma ValuelessMeans(m: Machine, s: Snap, t: int, f: int, d: Desc, sp: Span, x: Expr, max: nat, nups: nat)
    requires ShapeOk(s, max, nups) && ListsOk(s, sp.to, t, f, d, sp)
    requires Claim(m, s, d, sp.(valued := false), Whole(Unary(Negate, x)))
    requires sp.end == |s.code| && (d.k.VJMP? ==> sp.end >= 2 && s.code[sp.end - 2].Cmp?)
    requires (d.k.VRELOCABLE? ==> sp.end >= 1 && IsReloc(s.code[sp.end - 1]))
    ensures var s2 := Valueless(s, d.tl, d.fl);
      ShapeOk(s2, max, nups) && ListsOk(s2, sp.to, t, f, d, sp) && Claim(m, s2, d, sp, Whole(Unary(Negate, x)))
          && Grown(s, s2, sp)
  {
    hide ShapeOk, SnapOk, Claim, Later, Valueless, IsList, BeginsAt;
    var s2 := Valueless(s, d.tl, d.fl);
    var n := Settled(d, sp.end);
    ValuelessShape(s, d.tl, d.fl, max, nups);
    OwnOf(s, sp.to, t, f, d, sp);
    ListJumps(s.code, t, d.tl);
    ListJumps(s.code, f, d.fl);
    ShapeSnap(s, max, nups);
    NoTestAt(s, n);
    ValuelessLater(s, n, d.tl, d.fl);
    ValuelessLast(s, d, sp);
    GrownBy(s, n, s2, Elems(d.tl) + Elems(d.fl), sp);
    ClaimUnvalued(m, s, d, sp.(valued := false), s2, Elems(d.tl) + Elems(d.fl), Whole(Unary(Negate, x)));
    NoValues(m, s2, d, sp, x);
    ValuelessLists(s, t, f, d, sp);
  }

  lemma ValuelessLast(s: Snap, d: Desc, sp: Span)
    requires JumpsIn(s.code, d.tl) && JumpsIn(s.code, d.fl) && sp.end == |s.code|
    requires (d.k.VJMP? ==> sp.end >= 2 && s.code[sp.end - 2].Cmp?)
    requires (d.k.VRELOCABLE? ==> sp.end >= 1 && IsReloc(s.code[sp.end - 1]))
    ensures var s2 := Valueless(s, d.tl, d.fl);
      && (forall p :: p in d.tl || p in d.fl ==> !SetsValue(s2.code, p))
      && (d.k.VRELOCABLE? ==> InstrAt(s2.code, sp.end - 1) == InstrAt(s.code, sp.end - 1))
      && (d.k.VJMP? ==> InstrAt(s2.code, sp.end - 2) == InstrAt(s.code, sp.end - 2))
  {
    var s2 := Valueless(s, d.tl, d.fl);
    forall p | p in d.tl || p in d.fl
      ensures !SetsValue(s2.code, p)
    {
      if p >= 1 { ValuelessAt(s, d.tl, d.fl, p - 1); }
    }
    if sp.end >= 1 { ValuelessAt(s, d.tl, d.fl, sp.end - 1); }
    if sp.end >= 2 { ValuelessAt(s, d.tl, d.fl, sp.end - 2); }
  }

  lemma ValuelessLists(s: Snap, t: int, f: int, d: Desc, sp: Span)
    requires ListsOk(s, sp.to, t, f, d, sp) && BeginsAt(Valueless(s, d.tl, d.fl).code, sp)
    ensures ListsOk(Valueless(s, d.tl, d.fl), sp.to, t, f, d, sp)
  {
    ValuelessList(s, d.tl, d.fl, t, d.tl);
    ValuelessList(s, d.tl, d.fl, f, d.fl);
  }

  /** The lists of a descriptor may change roles. */
  lemma SwappedLists(s: Snap, jl: seq<nat>, t: int, f: int, d: Desc, kind: ExpKind, sp: Span)
    requires ListsOk(s, jl, t, f, d, sp) && Settled(d, sp.end) <= Settled(Swapped(d, kind), sp.end)
    requires (d.k.VJMP? ==> kind == d.k)
    ensures ListsOk(s, jl, f, t, Swapped(d, kind), sp)
  {
  }

  lemma ConstantNegated(m: Machine, s: Snap, t: int, f: int, d: Desc, sp: Span, kind: ExpKind, x: Expr, max: nat,
                        nups: nat)
    requires ShapeOk(s, max, nups) && ListsOk(s, sp.to, t, f, d, sp) && Claim(m, s, d, sp, Whole(x))
      && sp.end == |s.code|
    requires !d.k.VRELOCABLE? && !d.k.VJMP? && !d.k.VNONRELOC? && (kind == VTRUE || kind == VFALSE)
    requires forall w: Frame, r :: s.k <= w.k ==> Truthy(ValueOf(w, r, d)) == (kind == VFALSE)
    ensures ListsOk(s, sp.to, f, t, Swapped(d, kind), sp)
    ensures Claim(m, s, Swapped(d, kind), sp.(valued := false), Whole(Unary(Negate, x)))
  {
    hide ListsOk, ShapeOk, Claim, ValueOf, MainNot, SnapOk, BeginsAt;
    ShapeSnap(s, max, nups);
    BeginsHere(s, sp.to, t, f, d, sp);
    NoTestAt(s, |s.code|);
    LaterRefl(s, |s.code|);
    NotConstant(m, s, d, sp, kind);
    SwappedLists(s, sp.to, t, f, d, kind, sp);
    ClaimNot(m, s, d, sp, s, Swapped(d, kind), sp.(valued := false), {}, x);
  }

  lemma SwappedPending(d: Desc, end: nat)
    ensures Pending([], Swapped(d, d.k)) == Pending([], d) && Settled(Swapped(d, d.k), end) == Settled(d, end)
  {
  }

  lemma NegatedLists(s: Snap, t: int, f: int, d: Desc, sp: Span, max: nat, nups: nat)
    requires ComparisonEnds(s, t, f, d, sp, max, nups)
    ensures var s2 := s.(code := Turned(s.code, sp.end - 2, true));
      ListsOk(s2, [], f, t, Swapped(d, d.k), sp)
  {
    hide ComparisonEnds, ShapeOk, Later, Grown, OwnList, BeginsAt, ListsOk, Own, Apart, Tracked, ListsUntouched,
      PendingOk, Pending, Settled, Turned;
    var s2 := s.(code := Turned(s.code, sp.end - 2, true));
    EndsFacts(s, t, f, d, sp, max, nups);
    TurnedLists(s, t, f, d, sp, true, max, nups);
    BeginsHere(s, [], t, f, d, sp);
    OwnOf(s, [], t, f, d, sp);
    TrackedOf(s, [], t, f, d, sp);
    SwappedPending(d, sp.end);
    MakeLists(s2, [], f, t, Swapped(d, d.k), sp);
  }

  lemma ComparisonNegatedClaim(m: Machine, s: Snap, t: int, f: int, d: Desc, sp: Span, x: Expr, max: nat, nups: nat)
    requires ComparisonEnds(s, t, f, d, sp, max, nups) && Claim(m, s, d, sp, Whole(x))
    requires var s2 := s.(code := Turned(s.code, sp.end - 2, true)); Later(s, sp.end - 2, s2, {})
    ensures var s2 := s.(code := Turned(s.code, sp.end - 2, true));
      Claim(m, s2, Swapped(d, d.k), sp.(valued := false), Whole(Unary(Negate, x)))
  {
    hide Turned, Tracked, Evolves, Claim, MainNot, ShapeOk, Later, Grown, OwnList, BeginsAt, ListsOk, Own, Apart,
         ListsUntouched, PendingOk;
    var s2 := s.(code := Turned(s.code, sp.end - 2, true));
    BeginsHere(s, [], t, f, d, sp);
    NotComparison(m, s, d, sp);
    ClaimNot(m, s, d, sp, s2, Swapped(d, d.k), sp.(valued := false), {}, x);
  }

  lemma ComparisonNegated(m: Machine, s: Snap, t: int, f: int, d: Desc, sp: Span, x: Expr, max: nat, nups: nat)
    requires ComparisonEnds(s, t, f, d, sp, max, nups) && Claim(m, s, d, sp, Whole(x))
    ensures var s2 := s.(code := Turned(s.code, sp.end - 2, true));
      && ShapeOk(s2, max, nups) && ListsOk(s2, [], f, t, Swapped(d, d.k), sp)
      && Claim(m, s2, Swapped(d, d.k), sp.(valued := false), Whole(Unary(Negate, x)))
      && Grown(s, s2, sp)
  {
    hide Turned, Evolves, Claim, ShapeOk, Later, Grown, OwnList, BeginsAt, ListsOk;
    TurnedLists(s, t, f, d, sp, true, max, nups);
    ComparisonNegatedClaim(m, s, t, f, d, sp, x, max, nups);
    NegatedLists(s, t, f, d, sp, max, nups);
  }

  lemma MakeLists(s: Snap, jl: seq<nat>, t: int, f: int, d: Desc, sp: Span)
    requires OwnList(s, jl, t, d.tl, Settled(d, sp.end), sp) && OwnList(s, jl, f, d.fl, Settled(d, sp.end), sp)
    requires (Apart(d.tl, d.fl) || Apart(d.fl, d.tl)) && jl == [] && BeginsAt(s.code, sp)
    requires sp.start <= Settled(d, sp.end)
    requires Tracked(s.pend, sp, Pending(jl, d))
    ensures ListsOk(s, jl, t, f, d, sp)
  {
  }

  lemma RegisterNegated(m: Machine, s: Snap, t: int, f: int, d: Desc, sp: Span, x: Expr, max: nat, nups: nat)
    requires ShapeOk(s, max, nups) && JumpsHere(s, sp.to) && ListsOk(s, sp.to, t, f, d, sp)
      && Claim(m, s, d, sp, Whole(x))
    requires sp.end == |s.code|
    requires d.k.VNONRELOC? && d.k.info < max && max > 0
    ensures var s2, d2 := Emit(s, sp.to, Not(0, d.k.info)), Swapped(d, VRELOCABLE(sp.end));
      && ShapeOk(s2, max, nups) && ListsOk(s2, [], f, t, d2, Coded(sp, 1))
      && Claim(m, s2, d2, Coded(sp, 1).(valued := false), Whole(Unary(Negate, x)))
      && Grown(s, s2, sp)
  {
    hide ListsOk, ShapeOk, Claim, MainNot, SnapOk, BeginsAt, Emit, Later, Grown;
    var i, dr := Not(0, d.k.info), d.(k := VRELOCABLE(sp.end));
    var s2 := Emit(s, sp.to, i);
    BeginsHere(s, sp.to, t, f, d, sp);
    ShapeSnap(s, max, nups);
    EmitLists(s, sp.to, i, max, nups, t, f, d, dr, sp);
    NoTestAt(s, |s.code|);
    EmitLater(s, |s.code|, sp.to, i, s.k);
    SameConstants(s, sp.to, i);
    NotRegister(m, s, sp.to, d, sp);
    SwappedLists(s2, [], t, f, dr, VRELOCABLE(sp.end), Coded(sp, 1));
    ClaimNot(m, s, d, sp, s2, Swapped(d, VRELOCABLE(sp.end)), Coded(sp, 1).(valued := false), Elems(sp.to), x);
  }

  lemma ValuelessFirst(s: Snap, fl: seq<nat>, t: int, tl: seq<nat>)
    requires IsList(s.code, t, tl)
    ensures IsList(WithoutValues(s.code, fl), t, tl)
  {
    ListJumps(s.code, t, tl);
    forall p | p in tl
      ensures WithoutValues(s.code, fl)[p] == s.code[p]
    {
    }
  }

  /** Nothing but tests that set values changes. */
  lemma ValuelessHere(s: Snap, d: Desc, jpc: int, jl: seq<nat>, i: nat)
    requires IsList(s.code, jpc, jl)
    ensures IsList(Valueless(s, d.tl, d.fl).code, jpc, jl)
    ensures forall i :: 0 <= i < |s.code| ==>
      Valueless(s, d.tl, d.fl).code[i] == s.code[i] || (Valueless(s, d.tl, d.fl).code[i].Test? && s.code[i].TestSet?)
  {
    ValuelessList(s, d.tl, d.fl, jpc, jl);
    forall i | 0 <= i < |s.code|
      ensures Valueless(s, d.tl, d.fl).code[i] == s.code[i] || (Valueless(s, d.tl, d.fl).code[i].Test?
          && s.code[i].TestSet?)
    {
      ValuelessAt(s, d.tl, d.fl, i);
    }
  }

  /** Jumps of other lists copy what they copied. */
  lemma ValuelessValues(s: Snap, jl: seq<nat>, t: int, f: int, d: Desc, sp: Span)
    requires ListsOk(s, jl, t, f, d, sp)
    ensures ValueJumps(Valueless(s, d.tl, d.fl).code, jl) == ValueJumps(s.code, jl)
  {
    forall p | p in jl
      ensures SetsValue(Valueless(s, d.tl, d.fl).code, p) <==> SetsValue(s.code, p)
    {
      if 1 <= p <= |s.code| { ValuelessAt(s, d.tl, d.fl, p - 1); }
    }
  }
}
