/** What a run of finished code does: the meaning of the claims of the code generator, for
    code whose jumps all have their targets. */
module CompiledRuns {
  import opened LuaVM
  import opened Expressions
  import opened PatchLists
  import opened ExpClaims
  import opened ExpSteps
  import opened ExpValues
  import opened CodeShape
  import opened Opcodes
  import opened CodeChecker

  /** In the code of `w` the jumps `j` go to position `target`. */
  ghost predicate LeadTo(w: Frame, j: seq<nat>, target: int) {
    forall p :: p in j ==> p < |w.code| && w.code[p] == Jmp(target - (p + 1)) && !SetsValue(w.code, p)
  }

  /** The code of `w` has been made from `s`, with the jumps `j` leading to the end of `s`. */
  ghost predicate Resolved(w: Frame, s: Snap, j: seq<nat>) {
    Final(w, s, |s.code|) && LeadTo(w, j, |s.code|)
  }

  ghost predicate Kept(r0: Regs, r: Regs, free: nat) {
    |r| == |r0| && forall i :: 0 <= i < free && i < |r| ==> r[i] == r0[i]
  }

  /** A run from position `start` comes to position `end` with the value in register `reg`
      and the registers below `free` as they were, or raises the error of the expression. */
  ghost predicate Computes(m: Machine, w: Frame, start: nat, r0: Regs, ev: Option<Value>, end: nat, reg: nat,
                           free: nat) {
    match ev
    case None => Fails(m, w, State(start, r0))
    case Some(v) => exists r :: Goes(m, w, State(start, r0), State(end, r)) && Reg(r, reg) == v && Kept(r0, r, free)
  }

  /** A run from position `start` goes on at `yes` or at `no`, as the truth says. */
  ghost predicate Chooses(m: Machine, w: Frame, start: nat, r0: Regs, truth: Option<bool>, yes: nat, no: nat,
                          free: nat) {
    match truth
    case None => Fails(m, w, State(start, r0))
    case Some(b) => exists r :: Goes(m, w, State(start, r0), State(if b then yes else no, r)) && Kept(r0, r, free)
  }

  lemma StartsHere(m: Machine, w: Frame, r0: Regs, sp: Span)
    requires |r0| == MAXSTACK && Entered(w, r0, sp)
    ensures Starts(m, w, State(sp.start, r0), r0, None, sp)
  {
    hide Goes;
    Stays(m, w, State(sp.start, r0));
  }

  /** The end of the span does not matter at its beginning. */
  lemma SameEntry(w: Frame, r0: Regs, sp: Span, sp': Span)
    requires Entered(w, r0, sp) && sp'.start == sp.start && sp'.falls == sp.falls && sp'.free == sp.free
    ensures Entered(w, r0, sp')
  {
  }

  /** A value that has been claimed to be in a register gets there. */
  lemma ValueRuns(m: Machine, s: Snap, j: seq<nat>, reg: nat, sp: Span, x: Expr, w: Frame, r0: Regs)
    requires Claim(m, s, RegDesc(reg), sp, Operand(x)) && sp.end == |s.code| && sp.to == j
    requires Resolved(w, s, j) && |r0| == MAXSTACK && Entered(w, r0, sp)
    ensures Computes(m, w, sp.start, r0, Computed(m, w.up, r0, x), |s.code|, reg, sp.free)
  {
    hide Goes, Fails, AtJump, Final, Entered, WayOf, InPlace;
    var o, way := State(sp.start, r0), Means(m, w.up, r0, Operand(x), None);
    StartsHere(m, w, r0, sp);
    assert Yields(m, w, o, r0, way, s.code, RegDesc(reg), sp);
    if !Raises(m, w, o, way) {
      var r :| YieldsWith(m, w, o, r0, r, way, s.code, RegDesc(reg), sp);
      ArrivesAtAll(m, w, o, sp.end, sp.to, sp.tov, r, CarriedTo(RegDesc(reg), sp.free, way.c));
      Arrived(m, w, o, |s.code|, j, r);
    }
  }

  /** A condition that has been claimed to decide where control goes does. */
  lemma BranchRuns(m: Machine, s: Snap, j: seq<nat>, l: seq<nat>, sp: Span, x: Expr, w: Frame, r0: Regs, no: nat)
    requires Branch(m, s, l, sp, x, true) && sp.end == |s.code| && sp.to == j
    requires Resolved(w, s, j) && LeadTo(w, l, no) && |r0| == MAXSTACK && Entered(w, r0, sp)
    ensures Chooses(m, w, sp.start, r0, ComputedTruth(m, w.up, r0, x), |s.code|, no, sp.free)
  {
    hide Goes, Fails, AtJump, Final, Entered, Going;
    var o, g := State(sp.start, r0), Going(m, w.up, r0, x, true, None);
    StartsHere(m, w, r0, sp);
    assert Decides(m, w, o, r0, g, s.code, l, sp, true);
    if !Raises(m, w, o, g) {
      var r :| DecidesWith(m, w, o, r0, r, g, s.code, l, sp, true);
      if g.side {
        if sp.valued { ArrivesAtAll(m, w, o, sp.end, sp.to, sp.tov, r, g.c); }
        Arrived(m, w, o, |s.code|, j, r);
      } else {
        var p :| p in l && AtJump(m, w, o, p, r);
        Lands(m, w, o, p, r, no);
      }
      assert Kept(r0, r, sp.free);
    }
  }

  // ----- code that is complete -----

  lemma FinalItself(s: Snap, up: seq<Value>)
    requires PendingOk(s.code, s.pend)
    ensures Final(Frame(s.code, s.k, up), s, |s.code|)
  {
  }

  /** What one more instruction does to what has been claimed: the jumps that were to lead
      here do. */
  lemma EmitResolves(s: Snap, j: seq<nat>, i: Instr, w: Frame, n: nat)
    requires SnapOk(s) && JumpsIn(s.code, j) && Elems(j) <= s.pend && |s.code| < n && Final(w, Emit(s, j, i), n)
    ensures Resolved(w, s, j) && |s.code| < |w.code| && (!i.LoadNil? ==> w.code[|s.code|] == i)
  {
    hide Final, Emitted, Patched;
    var l := |s.code|;
    assert Emit(s, j, i).(k := s.k) == Emit(s, j, i);
    EmittedHere(w, s, j, i, s.k, n);
    NoTestAt(s, l);
    EmitLater(s, l, j, i, s.k);
    FinalEarlier(w, s, l, Emit(s, j, i), n, Elems(j));
    EmitLeads(s, j, i, w, n);
  }

  lemma EmitLeads(s: Snap, j: seq<nat>, i: Instr, w: Frame, n: nat)
    requires SnapOk(s) && JumpsIn(s.code, j) && |s.code| < n && Final(w, Emit(s, j, i), n)
    ensures LeadTo(w, j, |s.code|)
  {
    hide Patched;
    forall p | p in j
      ensures p < |w.code| && w.code[p] == Jmp(|s.code| - (p + 1)) && !SetsValue(w.code, p)
    {
      PatchedTargets(w.code, s.code, s.pend, j, |s.code|, NO_REG, |s.code|, [i], n, p);
    }
  }

  // ----- conditions -----

  /** Where no value is promised, only the truth of the expression matters. */
  lemma BranchTruth(m: Machine, s: Snap, l: seq<nat>, sp: Span, x: Expr, sense: bool)
    requires Branch(m, s, l, sp, Unary(Negate, Unary(Negate, x)), sense) && !sp.valued
    ensures Branch(m, s, l, sp, x, sense)
  {
    hide Final, Starts, Arrives, AtJump, Fails, Keeps, Going;
    forall w, o, r0, c | Final(w, s, sp.end) && Starts(m, w, o, r0, c, sp)
      ensures Decides(m, w, o, r0, Going(m, w.up, r0, x, sense, c), s.code, l, sp, sense)
    {
      var g, g2 := Going(m, w.up, r0, x, sense, c), Going(m, w.up, r0, Unary(Negate, Unary(Negate, x)), sense, c);
      GoingTwice(m, w.up, r0, x, sense, c);
      assert Decides(m, w, o, r0, g2, s.code, l, sp, sense);
      if !Raises(m, w, o, g) {
        var r :| DecidesWith(m, w, o, r0, r, g2, s.code, l, sp, sense);
        assert DecidesWith(m, w, o, r0, r, g, s.code, l, sp, sense);
      }
    }
  }

  lemma GoingTwice(m: Machine, up: seq<Value>, r: Regs, x: Expr, sense: bool, c: Option<Value>)
    ensures var g, g2 := Going(m, up, r, x, sense, c), Going(m, up, r, Unary(Negate, Unary(Negate, x)), sense, c);
      (g.Raised? <==> g2.Raised?) && (g.Left? ==> g2.side == g.side)
  {
    var way := WayOf(m, up, r, x, c);
    assert WayOf(m, up, r, Unary(Negate, x), c) == Negated(way);
    assert WayOf(m, up, r, Unary(Negate, Unary(Negate, x)), c) == Negated(Negated(way));
  }

  // ----- complete functions -----

  /** Jumps have their targets in the code, and no instruction skips its end. */
  ghost predicate JumpsInside(code: seq<Instr>) {
    && (forall i :: 0 <= i < |code| && code[i].Jmp? ==> 0 <= i + 1 + code[i].sbx < |code|)
    && (forall i :: 0 <= i < |code| && code[i].LoadBool? && code[i].c != 0 ==> i + 2 < |code|)
    && (forall i :: 0 <= i < |code| && IsTest(code[i]) ==> i + 2 < |code|)
  }

  ghost predicate OffsetsOk(code: seq<Instr>) {
    forall i :: 0 <= i < |code| && code[i].Jmp? ==> OffsetOk(code[i].sbx)
  }

  /** The code as words. */
  ghost function Words(code: seq<Instr>): (r: seq<Instruction>)
    requires OffsetsOk(code)
    ensures |r| == |code| && forall i :: 0 <= i < |code| ==> r[i] == Encode(code[i])
  {
    seq(|code|, i requires 0 <= i < |code| => Encode(code[i]))
  }

  /** The operands of an instruction that fits are as the checker asks. */
  lemma FitsOperands(p: Proto, i: Instr)
    requires Fits(i, false, p.maxstacksize, |p.k|, p.nups) && (i.Jmp? ==> OffsetOk(i.sbx)) && 2 <= p.maxstacksize
    ensures var w := Encode(i);
      var mode := ModeOf(w.op);
      && !w.op.Unknown? && w.a < p.maxstacksize && !CountFollows(w) && mode.test == IsTest(i)
      && (mode.format.IABC? ==> ArgOk(p, w.b, mode.b) && ArgOk(p, w.c, mode.c))
      && (mode.format.IABx? ==> Bx(w) < |p.k|) && (mode.format.IAsBx? <==> i.Jmp?)
      && (i.Jmp? ==> SBx(w) == i.sbx)
  {
    hide Bx, SBx;
    if i.Jmp? { assert SBx(Encode(i)) == i.sbx by { WordOffset(i.sbx); } }
  }

  lemma WordOffset(sbx: int)
    requires -(MAXARG_SBX as int) <= sbx
    ensures SBx(Encode(Jmp(sbx))) == sbx
  {
  }

  /** What the code generator keeps of an instruction is what the checker asks of it. */
  lemma FitsChecked(p: Proto, code: seq<Instr>, pc: nat)
    requires OffsetsOk(code) && p.code == Words(code) && pc < |code| && JumpsInside(code) && 2 <= p.maxstacksize
    requires FitsAt(code, {}, p.maxstacksize, |p.k|, p.nups, pc)
    ensures CheckAt(p, pc) && !CountFollows(p.code[pc])
  {
    hide Words, OffsetsOk, Fits, Bx, SBx, ArgOk, OperatorOk, ModeOf;
    var i := code[pc];
    assert p.code[pc] == Encode(i);
    FitsOperands(p, i);
    if IsTest(i) { assert p.code[pc + 1] == Encode(code[pc + 1]); }
    if i.Jmp? && pc + 1 + i.sbx > 0 {
      assert p.code[pc + i.sbx] == Encode(code[pc + i.sbx]);
    }
    FitsOperator(p, code, pc);
  }

  lemma FitsOperator(p: Proto, code: seq<Instr>, pc: nat)
    requires OffsetsOk(code) && p.code == Words(code) && pc < |code| && JumpsInside(code)
    requires FitsAt(code, {}, p.maxstacksize, |p.k|, p.nups, pc) && OperandsOk(p, pc)
    ensures OperatorOk(p, pc)
  {
    hide Words, OffsetsOk, OperandsOk, Bx, SBx, RkFits;
    assert p.code[pc] == Encode(code[pc]);
  }

  /** What all instructions meet, the checker finds. */
  lemma {:induction false} CheckedAll(p: Proto, pc: nat)
    requires forall i :: 0 <= i < |p.code| ==> CheckAt(p, i) && !CountFollows(p.code[i])
    ensures CheckedFrom(p, pc, |p.code|)
    decreases |p.code| - pc
  {
    hide CheckAt;
    if pc < |p.code| { CheckedAll(p, pc + 1); }
  }

  lemma EmittedInside(s: Snap, j: seq<nat>, i: Instr, max: nat, nups: nat)
    requires ShapeOk(s, max, nups) && JumpsHere(s, j) && s.pend <= Elems(j) && i.Return?
    ensures JumpsInside(Emit(s, j, i).code)
  {
    var n, c := |s.code|, Emit(s, j, i).code;
    forall x | 0 <= x < n
      ensures c[x].Jmp? ==> 0 <= x + 1 + c[x].sbx <= n
      ensures c[x].LoadBool? && c[x].c != 0 ==> x + 1 < n
      ensures IsTest(c[x]) ==> x + 1 < n
    {
      assert FitsAt(s.code, s.pend, max, |s.k|, nups, x);
      assert c[x] == PatchedAt(s.code, j, n, NO_REG, n, x);
    }
  }

  /** The code after `luaK_ret` for one value in register `first`, and the `return` that
      ends every function. */
  ghost function Returned(s: Snap, j: seq<nat>, first: nat): Snap {
    Emit(Emit(s, j, Return(first, 2)), [], Return(0, 1))
  }

  lemma ReturnedShape(s: Snap, j: seq<nat>, first: nat, sp: Span, max: nat, nups: nat)
    requires ShapeOk(s, max, nups) && JumpsHere(s, j) && first < max && Tracked(s.pend, sp, Elems(j)) && sp.start == 0
    ensures ShapeOk(Emit(s, j, Return(first, 2)), max, nups) && Emit(s, j, Return(first, 2)).pend == {}
    ensures ShapeOk(Returned(s, j, first), max, nups) && Returned(s, j, first).pend == {}
  {
    hide ShapeOk, CodeFits, PendingOk, Patched, Emitted, TailOk;
    EmitShape(s, j, Return(first, 2), max, nups);
    EmitShape(Emit(s, j, Return(first, 2)), [], Return(0, 1), max, nups);
  }

  /** A run of `w` from its beginning returns one value, with the locals as they were. */
  ghost predicate Returns(m: Machine, w: Frame, r0: Regs, ev: Option<Value>, nactvar: nat) {
    match ev
    case None => Fails(m, w, State(0, r0))
    case Some(v) => exists pc: nat, r ::
      && Goes(m, w, State(0, r0), State(pc, r)) && pc < |w.code| && w.code[pc].Return? && w.code[pc].b == 2
      && Reg(r, w.code[pc].a) == v && Kept(r0, r, nactvar)
  }

  lemma ReturnedRuns(m: Machine, s: Snap, j: seq<nat>, first: nat, sp: Span, x: Expr, max: nat, nups: nat,
                     up: seq<Value>, r0: Regs)
    requires Claim(m, s, RegDesc(first), sp, Operand(x)) && sp.start == 0 && sp.end == |s.code| && sp.to == j
    requires Tracked(s.pend, sp, Elems(j))
    requires ShapeOk(s, max, nups) && JumpsHere(s, j) && first < max && |r0| == MAXSTACK && Clean(r0, sp.free)
    ensures var t := Returned(s, j, first); Returns(m, Frame(t.code, t.k, up), r0, Computed(m, up, r0, x), sp.free)
  {
    hide Claim, Computed, ShapeOk, SnapOk, Final, Goes, Emit, Computes, Resolved, PendingOk;
    var i, t1, t := Return(first, 2), Emit(s, j, Return(first, 2)), Returned(s, j, first);
    var w := Frame(t.code, t.k, up);
    ReturnedShape(s, j, first, sp, max, nups);
    ShapeSnap(s, max, nups);
    ShapeSnap(t1, max, nups);
    ShapeSnap(t, max, nups);
    SnapPending(t);
    FinalItself(t, up);
    SizeOfEmit(t1, [], Return(0, 1));
    EmitResolves(t1, [], Return(0, 1), w, |t.code|);
    ResolvedFinal(w, t1);
    SizeOfEmit(s, j, i);
    EmitResolves(s, j, i, w, |t1.code|);
    assert Entered(w, r0, sp);
    ValueRuns(m, s, j, first, sp, x, w, r0);
    ComputedReturns(m, w, r0, Computed(m, up, r0, x), |s.code|, first, sp.free);
  }

  lemma ResolvedFinal(w: Frame, s: Snap)
    requires Resolved(w, s, [])
    ensures Final(w, s, |s.code|)
  {
  }

  lemma ComputedReturns(m: Machine, w: Frame, r0: Regs, ev: Option<Value>, n: nat, first: nat, free: nat)
    requires Computes(m, w, 0, r0, ev, n, first, free) && n < |w.code| && w.code[n] == Return(first, 2)
    ensures Returns(m, w, r0, ev, free)
  {
    hide Goes, Fails;
    if ev.Some? {
      var r :| Goes(m, w, State(0, r0), State(n, r)) && Reg(r, first) == ev.value && Kept(r0, r, free);
    }
  }

  /** The code of a function that only returns under a condition: the condition, a `return`
      under it, to whose end the jumps `l` lead, and the `return` that ends the function. */
  ghost function Conditional(s: Snap, j: seq<nat>, l: seq<nat>): Snap {
    Emit(Emit(s, j, Return(0, 1)), l, Return(0, 1))
  }

  lemma ConditionalShape(s: Snap, j: seq<nat>, head: int, l: seq<nat>, sp: Span, max: nat, nups: nat)
    requires ShapeOk(s, max, nups) && JumpsHere(s, j) && OwnList(s, j, head, l, |s.code|, sp) && max > 0
    requires sp.start == 0
    requires Tracked(s.pend, sp, Elems(j) + Elems(l))
    ensures var t1 := Emit(s, j, Return(0, 1));
      ShapeOk(t1, max, nups) && IsList(t1.code, head, l) && Elems(l) == t1.pend && JumpsIn(t1.code, l)
    ensures Reach(l, |s.code| + 1) ==> ShapeOk(Conditional(s, j, l), max, nups) && Conditional(s, j, l).pend == {}
  {
    hide ShapeOk, CodeFits, PendingOk, Patched, Emitted, TailOk, IsList, Reach, Later, Own;
    var t1, n := Emit(s, j, Return(0, 1)), |s.code|;
    ShapeSnap(s, max, nups);
    NoTestAt(s, n);
    EmitLater(s, n, j, Return(0, 1), s.k);
    assert t1.(k := s.k) == t1;
    EmitShape(s, j, Return(0, 1), max, nups);
    assert Untouched(l, n, Elems(j));
    OwnLater(s, n, t1, Elems(j), j, [], head, l, sp);
    ListJumps(t1.code, head, l);
    SizeOfEmit(s, j, Return(0, 1));
    if Reach(l, n + 1) { EmitShape(t1, l, Return(0, 1), max, nups); }
  }

  lemma ConditionalRuns(m: Machine, s: Snap, j: seq<nat>, head: int, l: seq<nat>, sp: Span, x: Expr, max: nat,
                        nups: nat, up: seq<Value>, r0: Regs)
    requires Branch(m, s, l, sp, x, true) && sp.start == 0 && sp.end == |s.code| && sp.to == j && max > 0
    requires ShapeOk(s, max, nups) && JumpsHere(s, j) && OwnList(s, j, head, l, |s.code|, sp)
    requires Tracked(s.pend, sp, Elems(j) + Elems(l))
    requires Reach(l, |s.code| + 1) && |r0| == MAXSTACK && Clean(r0, sp.free)
    ensures var t := Conditional(s, j, l);
      Chooses(m, Frame(t.code, t.k, up), 0, r0, ComputedTruth(m, up, r0, x), |s.code|, |s.code| + 1, sp.free)
  {
    hide Branch, ComputedTruth, ShapeOk, SnapOk, Final, Goes, Emit, Chooses, Resolved, PendingOk, OwnList, IsList,
      Reach;
    var i := Return(0, 1);
    var t1, t := Emit(s, j, i), Conditional(s, j, l);
    var w := Frame(t.code, t.k, up);
    ConditionalShape(s, j, head, l, sp, max, nups);
    ShapeSnap(s, max, nups);
    ShapeSnap(t1, max, nups);
    ShapeSnap(t, max, nups);
    SnapPending(t);
    FinalItself(t, up);
    SizeOfEmit(t1, l, i);
    SizeOfEmit(s, j, i);
    EmitResolves(t1, l, i, w, |t.code|);
    ResolvedParts(w, t1, l);
    EmitResolves(s, j, i, w, |t1.code|);
    assert Entered(w, r0, sp);
    BranchRuns(m, s, j, l, sp, x, w, r0, |s.code| + 1);
  }

  lemma ResolvedParts(w: Frame, s: Snap, j: seq<nat>)
    requires Resolved(w, s, j)
    ensures Final(w, s, |s.code|) && LeadTo(w, j, |s.code|)
  {
  }

  lemma EmittedLast(s: Snap, j: seq<nat>, i: Instr)
    ensures var c := Emit(s, j, i).code; |c| == |s.code| + 1 && c[|s.code|] == i
  {
  }

  lemma ConditionalEnds(s: Snap, j: seq<nat>, head: int, l: seq<nat>, sp: Span, max: nat, nups: nat)
    requires ShapeOk(s, max, nups) && JumpsHere(s, j) && OwnList(s, j, head, l, |s.code|, sp)
    requires Tracked(s.pend, sp, Elems(j) + Elems(l))
    requires Reach(l, |s.code| + 1) && sp.start == 0 && max > 0
    ensures var t := Conditional(s, j, l);
      |t.code| == |s.code| + 2 && t.code[|s.code|] == Return(0, 1) == t.code[|s.code| + 1]
  {
    hide ShapeOk, OwnList, Reach, Emit, Tracked;
    var t1 := Emit(s, j, Return(0, 1));
    ConditionalShape(s, j, head, l, sp, max, nups);
    EmittedLast(s, j, Return(0, 1));
    EmittedLast(t1, l, Return(0, 1));
    LastKept(t1, l, Return(0, 1));
  }

  /** Patching does not reach an instruction that is no jump and not the test of one. */
  lemma LastKept(s: Snap, j: seq<nat>, i: Instr)
    requires s.code != [] && JumpsIn(s.code, j) && s.code[|s.code| - 1].Return?
    ensures Emit(s, j, i).code[|s.code| - 1] == s.code[|s.code| - 1]
  {
    var l := |s.code|;
    assert Patched(s.code, j, l, NO_REG, l)[l - 1] == PatchedAt(s.code, j, l, NO_REG, l, l - 1);
  }
}
