/** Expressions that decide where control goes: `luaK_goiftrue` (`sense` true) and
    `luaK_goiffalse` (lua-5.1/lcode.c:511-586). */
module ExpBranches {
  import opened LuaVM
  import opened Expressions
  import opened PatchLists
  import opened ExpClaims
  import opened ExpSteps
  import opened ExpOperators

  /** Main ways through `d1` go on or leave through `l`, as the truth of the value says. */
  ghost predicate MainBranch(m: Machine, code1: seq<Instr>, d1: Desc, sp1: Span, s2: Snap, l: seq<nat>, sp2: Span,
                             form: Form, sense: bool) {
    forall w, o, r, way ::
      (Final(w, s2, sp2.end) && |r| == MAXSTACK && Main(m, w, o, r, way, code1, d1, sp1)) ==>
        Decides(m, w, o, r, GoIf(form, sense, way), s2.code, l, sp2, sense)
  }

  function Leaving(d: Desc, sense: bool): seq<nat> {
    if sense then d.fl else d.tl
  }

  function Passing(d: Desc, sense: bool): seq<nat> {
    if sense then d.tl else d.fl
  }

  /** The span when the jumps `more` are to lead to its end too. */
  function Extended(code: seq<Instr>, sp: Span, more: seq<nat>): Span {
    sp.(to := sp.to + more, tov := ValueJumps(code, sp.to + more))
  }

  lemma ExitsMore(m: Machine, w: Frame, o: State, code: seq<Instr>, l1: seq<nat>, l2: seq<nat>, r: Regs,
                  c: Option<Value>, valued: bool)
    requires ExitsWith(m, w, o, code, l1, r, c, valued) || ExitsWith(m, w, o, code, l2, r, c, valued)
    ensures ExitsWith(m, w, o, code, l1 + l2, r, c, valued)
  {
    hide AtJump, Brings;
    if p :| p in l1 && AtJump(m, w, o, p, r) && (valued ==> c == Brings(w, SetsValue(code, p), p, r)) {
      assert p in l1 + l2;
    } else {
      var p :| p in l2 && AtJump(m, w, o, p, r) && (valued ==> c == Brings(w, SetsValue(code, p), p, r));
      assert p in l1 + l2;
    }
  }

  lemma EndsMore(m: Machine, w: Frame, o: State, code: seq<Instr>, sp: Span, more: seq<nat>, r: Regs, c: Option<Value>)
    requires Ends(m, w, o, r, c, sp) || ExitsWith(m, w, o, code, more, r, c, sp.valued)
    requires sp.tov == ValueJumps(code, sp.to)
    ensures Ends(m, w, o, r, c, Extended(code, sp, more))
  {
    hide AtJump, Goes, Brings, SetsValue;
    var to := sp.to + more;
    if Ends(m, w, o, r, c, sp) {
      if p :| p in sp.to && AtJump(m, w, o, p, r) && (sp.valued ==> c == Brings(w, p in sp.tov, p, r)) {
        assert p in to && (p in ValueJumps(code, to) <==> SetsValue(code, p));
      }
    } else {
      var p :| p in more && AtJump(m, w, o, p, r) && (sp.valued ==> c == Brings(w, SetsValue(code, p), p, r));
      assert p in to && (p in ValueJumps(code, to) <==> SetsValue(code, p));
    }
  }

  lemma DecidesOn(m: Machine, w: Frame, o: State, r0: Regs, r: Regs, g: Way, code: seq<Instr>, d: Desc, l: seq<nat>,
                  sp1: Span, sp2: Span, sense: bool)
    requires Keeps(r0, r, sp1.free, Idle(sp1)) && Decides(m, w, o, r, g, code, l, sp2, sense) && sp1.free == sp2.free
    requires (Idle(sp2) ==> Idle(sp1)) && sp2.tov == ValueJumps(code, sp2.to)
    ensures Decides(m, w, o, r0, g, code, Leaving(d, sense) + l, Extended(code, sp2, Passing(d, sense)), sense)
  {
    hide Ends, ExitsWith, Fails, ValueJumps;
    if !Raises(m, w, o, g) {
      var r' :| DecidesWith(m, w, o, r, r', g, code, l, sp2, sense);
      if g.side == sense {
        EndsMore(m, w, o, code, sp2, Passing(d, sense), r', g.c);
      } else {
        ExitsMore(m, w, o, code, Leaving(d, sense), l, r', g.c, sp2.valued);
      }
      assert DecidesWith(m, w, o, r0, r', g, code, Leaving(d, sense) + l, Extended(code, sp2, Passing(d, sense)),
        sense);
    }
  }

  lemma LeavesDecide(m: Machine, w: Frame, o: State, r0: Regs, r: Regs, way: Way, s1: Snap, d: Desc, sp1: Span,
                     s2: Snap, l: seq<nat>, sp2: Span, touched: set<nat>, sense: bool)
    requires Keeps(r0, r, sp1.free, Idle(sp1)) && Leaves(m, w, o, r, way, s1.code, d, sp1.valued)
    requires Later(s1, Settled(d, sp1.end), s2, touched) && ListsUntouched(d, sp1, touched)
    requires PendingOk(s1.code, s1.pend) && sp2.tov == ValueJumps(s2.code, sp2.to)
    requires sp2.free == sp1.free && sp2.valued == sp1.valued && (Idle(sp2) ==> Idle(sp1))
    ensures Decides(m, w, o, r0, way, s2.code, Leaving(d, sense) + l, Extended(s2.code, sp2, Passing(d, sense)), sense)
  {
    hide Ends, ExitsWith, Later, PendingOk, Untouched, ValueJumps;
    var list := if way.side then d.tl else d.fl;
    ExitsLater(m, w, o, s1, Settled(d, sp1.end), s2, touched, list, r, way.c, sp1.valued);
    if way.side == sense {
      EndsMore(m, w, o, s2.code, sp2, list, r, way.c);
    } else {
      ExitsMore(m, w, o, s2.code, list, l, r, way.c, sp2.valued);
    }
    assert DecidesWith(m, w, o, r0, r, way, s2.code, Leaving(d, sense) + l, Extended(s2.code, sp2, Passing(d, sense)),
        sense);
  }

  /** From what the code says of the value to what it says of where control goes. The
      list of the other truth value leads on with the main way. */
  lemma ClaimBranch(m: Machine, s1: Snap, d: Desc, sp1: Span, s2: Snap, l: seq<nat>, sp2: Span, touched: set<nat>,
                    x: Expr, sense: bool)
    requires Claim(m, s1, d, sp1, Whole(x)) && Later(s1, Settled(d, sp1.end), s2, touched)
    requires ListsUntouched(d, sp1, touched) && PendingOk(s1.code, s1.pend)
    requires SameStart(sp1, sp2) && sp1.start <= sp1.end <= sp2.end && sp2.tov == ValueJumps(s2.code, sp2.to)
    requires MainBranch(m, s1.code, d, sp1, s2, l, sp2, FormOf(m, x), sense)
    ensures Branch(m, s2, Leaving(d, sense) + l, Extended(s2.code, sp2, Passing(d, sense)), x, sense)
  {
    hide Final, Main, Later, Fails, ListsUntouched, PendingOk, Keeps, Decides, Leaving, Passing, ValueJumps, WayOf;
    var sp := Extended(s2.code, sp2, Passing(d, sense));
    forall w, o, r0, c | Final(w, s2, sp.end) && Starts(m, w, o, r0, c, sp)
      ensures Decides(m, w, o, r0, Going(m, w.up, r0, x, sense, c), s2.code, Leaving(d, sense) + l, sp, sense)
    {
      FinalEarlier(w, s1, Settled(d, sp1.end), s2, sp2.end, touched);
      StartsSame(m, w, o, r0, c, sp, sp1);
      var way := WayOf(m, w.up, r0, x, c);
      var g := GoIf(FormOf(m, x), sense, way);
      assert Means(m, w.up, r0, Whole(x), c) == way;
      assert Yields(m, w, o, r0, way, s1.code, d, sp1);
      if Raises(m, w, o, way) {
        RaisesDecides(m, w, o, r0, g, s2.code, Leaving(d, sense) + l, sp, sense);
      } else {
        var r :| YieldsWith(m, w, o, r0, r, way, s1.code, d, sp1);
        if Main(m, w, o, r, way, s1.code, d, sp1) {
          KeepsSize(r0, r, sp1);
          DecidesOn(m, w, o, r0, r, g, s2.code, d, l, sp1, sp2, sense);
        } else {
          LeavesDecide(m, w, o, r0, r, way, s1, d, sp1, s2, l, sp2, touched, sense);
        }
      }
    }
  }

  lemma RaisesDecides(m: Machine, w: Frame, o: State, r0: Regs, g: Way, code: seq<Instr>, l: seq<nat>, sp: Span,
                      sense: bool)
    requires Raises(m, w, o, g)
    ensures Decides(m, w, o, r0, g, code, l, sp, sense)
  {
  }

  lemma KeepsSize(r0: Regs, r: Regs, sp: Span)
    requires Keeps(r0, r, sp.free, Idle(sp))
    ensures |r| == |r0|
  {
  }

  // ----- the main ways -----

  /** A constant of the right truth lets control through. */
  lemma ConstantPasses(m: Machine, s: Snap, d: Desc, sp: Span, form: Form, sense: bool)
    requires !d.k.VRELOCABLE? && !d.k.VJMP? && !d.k.VNONRELOC? && Passes(form, sense)
    requires forall w: Frame, r :: s.k <= w.k ==> Truthy(ValueOf(w, r, d)) == sense
    ensures MainBranch(m, s.code, d, sp, s, [], sp, form, sense)
  {
    hide ArrivesWith, ValueOf;
    forall w, o, r, way | Final(w, s, sp.end) && |r| == MAXSTACK && Main(m, w, o, r, way, s.code, d, sp)
      ensures Decides(m, w, o, r, GoIf(form, sense, way), s.code, [], sp, sense)
    {
      ArrivesAtAll(m, w, o, sp.end, sp.to, sp.tov, r, way.c);
      assert DecidesWith(m, w, o, r, r, GoIf(form, sense, way), s.code, [], sp, sense);
    }
  }

  /** A constant of the other truth always jumps. The jumps that were to lead here are
      kept on hold with the new one. */
  lemma ConstantJumps(m: Machine, s: Snap, d: Desc, sp: Span, s2: Snap, form: Form, sense: bool)
    requires !d.k.VRELOCABLE? && !d.k.VJMP? && !d.k.VNONRELOC? && form == Literal(Bool(!sense))
    requires SnapOk(s) && sp.end == |s.code| && sp.tov == ValueJumps(s.code, sp.to) && JumpsIn(s.code, sp.to)
    requires forall w: Frame, r :: s.k <= w.k ==> Truthy(ValueOf(w, r, d)) != sense
    requires |s2.code| == |s.code| + 1 && s2.code[..|s.code|] == s.code && s2.pend == s.pend + {|s.code|} && s2.k == s.k
    ensures MainBranch(m, s.code, d, sp, s2, [|s.code|] + sp.to, sp.(end := sp.end + 1, to := [], tov := {}), form,
      sense)
  {
    hide Goes, ValueOf;
    var l, sp2 := |s.code|, sp.(end := sp.end + 1, to := [], tov := {});
    forall w, o, r, way | Final(w, s2, l + 1) && |r| == MAXSTACK && Main(m, w, o, r, way, s.code, d, sp)
      ensures Decides(m, w, o, r, GoIf(form, sense, way), s2.code, [l] + sp.to, sp2, sense)
    {
      NoTestLast(w, s, s2);
      ExitsHeld(m, w, o, r, way.c, s, sp, s2);
      hide Final, SnapOk;
      assert DecidesWith(m, w, o, r, r, GoIf(form, sense, way), s2.code, [l] + sp.to, sp2, sense);
    }
  }

  lemma ExitsHeld(m: Machine, w: Frame, o: State, r: Regs, c: Option<Value>, s: Snap, sp: Span, s2: Snap)
    requires ArrivesWith(m, w, o, |s.code|, sp.to, sp.tov, r, c) && sp.tov == ValueJumps(s.code, sp.to)
    requires JumpsIn(s.code, sp.to) && |s2.code| == |s.code| + 1 && s2.code[..|s.code|] == s.code && SnapOk(s)
    requires |s.code| < |w.code| && (|s.code| >= 1 ==> !IsTest(w.code[|s.code| - 1]))
    ensures ExitsWith(m, w, o, s2.code, [|s.code|] + sp.to, r, c, sp.valued)
  {
    hide Goes;
    var l := |s.code|;
    if c == None && Goes(m, w, o, State(l, r)) {
      NoTestBefore(s.code, l);
      assert AtJump(m, w, o, l, r) && l in [l] + sp.to && !SetsValue(s2.code, l);
    } else {
      hide AtJump, Brings, SnapOk;
      var p :| p in sp.to && AtJump(m, w, o, p, r) && c == Brings(w, p in sp.tov, p, r);
      assert p in [l] + sp.to;
      if p >= 1 { assert s2.code[p - 1] == s.code[p - 1]; }
      assert SetsValue(s2.code, p) <==> p in sp.tov;
    }
  }

  lemma NoTestLast(w: Frame, s: Snap, s2: Snap)
    requires SnapOk(s) && |s2.code| == |s.code| + 1 && s2.code[..|s.code|] == s.code && s2.pend == s.pend + {|s.code|}
    requires Final(w, s2, |s2.code|)
    ensures |s.code| < |w.code| && (|s.code| >= 1 ==> !IsTest(w.code[|s.code| - 1]))
  {
    var l := |s.code|;
    if l >= 1 {
      assert CompatAt(w.code, s2.code, s2.pend, l - 1) && s2.code[l - 1] == s.code[l - 1];
      NoTestBefore(s.code, l);
    }
  }

  /** A test in finished code goes to the jump after it or past that jump. */
  lemma TestGoes(m: Machine, w: Frame, o: State, pc: nat, r: Regs)
    requires Goes(m, w, o, State(pc, r)) && pc + 1 < |w.code| && IsTest(w.code[pc])
    ensures var t := Accepts(m, w, r, w.code[pc]);
      && (t == None ==> Fails(m, w, o))
      && (t == Some(true) ==> AtJump(m, w, o, pc + 1, r))
      && (t == Some(false) ==> Goes(m, w, o, State(pc + 2, r)))
  {
    hide Goes, Accepts, Fails;
    var t := Accepts(m, w, r, w.code[pc]);
    if t == None {
      StepFails(m, w, o, State(pc, r));
    } else if t == Some(false) {
      StepOn(m, w, o, State(pc, r), State(pc + 2, r));
    }
  }

  /** Where a test decides: what a run does from the test on. */
  lemma TestDecides(m: Machine, w: Frame, o: State, pc: nat, r: Regs, g: Way, code: seq<Instr>, sp: Span, sense: bool)
    requires Goes(m, w, o, State(pc, r)) && pc + 1 < |w.code| && IsTest(w.code[pc]) && sp.end == pc + 2
    requires sp.to == [] && sp.tov == {} && !g.Fell?
    requires var t := Accepts(m, w, r, w.code[pc]);
      if t.None? then g.Raised? else g.Left? && t.value == (g.side != sense)
    requires g.Left? ==> g.c == if g.side == sense then None else Brings(w, SetsValue(code, pc + 1), pc + 1, r)
    ensures Decides(m, w, o, r, g, code, [pc + 1], sp, sense)
  {
    hide Goes, Accepts, Fails, AtJump, Brings;
    TestGoes(m, w, o, pc, r);
    if g.Left? {
      if g.side == sense {
        ArrivesHere(m, w, o, pc + 2, r);
      } else {
        assert pc + 1 in [pc + 1];
        assert ExitsWith(m, w, o, code, [pc + 1], r, g.c, sp.valued);
      }
      hide Arrives, ArrivesWith, ExitsWith;
      assert DecidesWith(m, w, o, r, r, g, code, [pc + 1], sp, sense);
    }
  }

  /** `invertjump`. */
  function Inverted(i: Instr): Instr
    requires i.Cmp?
  {
    Cmp(i.cmp, if i.a == 0 then 1 else 0, i.b, i.c)
  }

  /** The test of a pending comparison, in finished code. */
  lemma ComparisonStays(w: Frame, s: Snap, pc: nat)
    requires PendingOk(s.code, s.pend) && Final(w, s, pc + 2) && pc + 2 <= |s.code| && s.code[pc].Cmp?
    ensures pc + 1 < |w.code| && w.code[pc] == s.code[pc]
  {
    assert CompatAt(w.code, s.code, s.pend, pc);
  }

  /** A comparison jumps when it holds; inverted, when it does not. */
  lemma ComparisonDecides(m: Machine, s: Snap, d: Desc, sp: Span, s2: Snap, sense: bool)
    requires d.k.VJMP? && sp.end == |s.code| >= 2 && s.code[sp.end - 2].Cmp? && s.code[sp.end - 2].a <= 1
    requires PendingOk(s2.code, s2.pend) && |s2.code| == |s.code| && sp.to == [] && sp.tov == {}
    requires s2.code[sp.end - 2] == if sense then Inverted(s.code[sp.end - 2]) else s.code[sp.end - 2]
    ensures MainBranch(m, s.code, d, sp, s2, [sp.end - 1], sp, Boolean, sense)
  {
    hide Goes;
    var pc := sp.end - 2;
    forall w, o, r, way | Final(w, s2, sp.end) && |r| == MAXSTACK && Main(m, w, o, r, way, s.code, d, sp)
      ensures Decides(m, w, o, r, GoIf(Boolean, sense, way), s2.code, [pc + 1], sp, sense)
    {
      ComparisonStays(w, s2, pc);
      hide Final, PendingOk;
      TestDecides(m, w, o, pc, r, GoIf(Boolean, sense, way), s2.code, sp, sense);
    }
  }

  /** The instruction `not` is replaced by a test of its operand. */
  lemma NotDecides(m: Machine, s: Snap, d: Desc, sp: Span, s2: Snap, sense: bool)
    requires d.k.VRELOCABLE? && sp.end == |s.code| >= 1 && s.code[sp.end - 1].Not? && sp.to == [] && sp.tov == {}
    requires PendingOk(s2.code, s2.pend)
    requires |s2.code| == |s.code| + 1 && s2.code[sp.end - 1] == Test(s.code[sp.end - 1].b, if sense then 1 else 0)
    ensures MainBranch(m, s.code, d, sp, s2, [sp.end], sp.(end := sp.end + 1), Boolean, sense)
  {
    hide Goes;
    var pc := sp.end - 1;
    forall w, o, r, way | Final(w, s2, sp.end + 1) && |r| == MAXSTACK && Main(m, w, o, r, way, s.code, d, sp)
      ensures Decides(m, w, o, r, GoIf(Boolean, sense, way), s2.code, [pc + 1], sp.(end := sp.end + 1), sense)
    {
      assert CompatAt(w.code, s2.code, s2.pend, pc);
      assert w.code[pc] == s2.code[pc];
      hide Final, PendingOk;
      TestDecides(m, w, o, pc, r, GoIf(Boolean, sense, way), s2.code, sp.(end := sp.end + 1), sense);
    }
  }

  /** Values of other forms are tested in a register. */
  predicate NeedsTest(form: Form, sense: bool) {
    !form.Boolean? && !Passes(form, sense) && form != Literal(Bool(!sense))
  }

  /** A value in a register is tested, and can be copied by the test. */
  lemma RegisterDecides(m: Machine, s: Snap, d: Desc, sp: Span, form: Form, sense: bool)
    requires d.k.VNONRELOC? && sp.end == |s.code| && SnapOk(s) && JumpsIn(s.code, sp.to) && NeedsTest(form, sense)
    ensures var i := TestSet(NO_REG, d.k.info, if sense then 0 else 1);
      MainBranch(m, s.code, d, sp, EmitTest(s, sp.to, i), [sp.end + 1], Coded(sp, 2), form, sense)
  {
    hide Goes, Arrives, ArrivesWith, JumpsIn, Patched, SnapOk;
    var i := TestSet(NO_REG, d.k.info, if sense then 0 else 1);
    var s2, pc := EmitTest(s, sp.to, i), sp.end;
    forall w, o, r, way | Final(w, s2, sp.end + 2) && |r| == MAXSTACK && Main(m, w, o, r, way, s.code, d, sp)
      ensures Decides(m, w, o, r, GoIf(form, sense, way), s2.code, [pc + 1], Coded(sp, 2), sense)
    {
      FinalLess(w, s2, pc, pc + 2);
      BeforeTest(w, s, sp.to, i);
      ArrivesAtAll(m, w, o, pc, sp.to, sp.tov, r, CarriedTo(d, sp.free, way.c));
      Discharged(m, w, o, r, s, sp.to, i, s.k, pc);
      TestSetHere(w, s, sp.to, i);
      hide Final;
      TestDecides(m, w, o, pc, r, GoIf(form, sense, way), s2.code, Coded(sp, 2), sense);
    }
  }

  lemma TestSetHere(w: Frame, s: Snap, j: seq<nat>, i: Instr)
    requires i.TestSet? && Final(w, EmitTest(s, j, i), |s.code| + 2) && SnapOk(s)
    ensures |s.code| + 1 < |w.code| && SameTest(i, w.code[|s.code|])
  {
    assert CompatAt(w.code, EmitTest(s, j, i).code, EmitTest(s, j, i).pend, |s.code|);
  }
}
