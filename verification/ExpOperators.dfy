/** The operators: how the claims about operands make the claim about the result. */
module ExpOperators {
  import opened LuaVM
  import opened Expressions
  import opened PatchLists
  import opened ExpClaims
  import opened ExpSteps

  lemma ClaimLater(m: Machine, s: Snap, t: Snap, touched: set<nat>, d: Desc, sp: Span, x: Meaning)
    requires Claim(m, s, d, sp, x) && Later(s, Settled(d, sp.end), t, touched) && sp.start <= sp.end
    requires ListsUntouched(d, sp, touched) && PendingOk(s.code, s.pend)
    requires d.k.VRELOCABLE? ==> InstrAt(t.code, sp.end - 1) == InstrAt(s.code, sp.end - 1)
    requires d.k.VJMP? ==> InstrAt(t.code, sp.end - 2) == InstrAt(s.code, sp.end - 2)
    ensures Claim(m, t, d, sp, x)
  {
    hide Goes, ArrivesWith, Later, ValueOf, Claim, InstrAt, ListsUntouched, PendingOk;
    forall w, o, r, way | Final(w, t, Settled(d, sp.end)) && |r| == MAXSTACK && Main(m, w, o, r, way, s.code, d, sp)
      ensures MainYields(m, w, o, r, way, t.code, d, sp)
    {
      assert Keeps(r, r, sp.free, Idle(sp)) && Main(m, w, o, r, way, t.code, d, sp);
    }
    ClaimMain(m, s, d, sp, t, d, sp, touched, x);
  }

  lemma FinalLess(w: Frame, s: Snap, n: nat, n': nat)
    requires Final(w, s, n') && n <= n'
    ensures Final(w, s, n)
  {
  }

  // ----- operands -----

  /** A descriptor that an instruction can take as an operand. */
  predicate IsOperand(d: Desc) {
    (d.k.VK? || d.k.VNONRELOC?) && d.tl == [] && d.fl == []
  }

  function OperandRk(d: Desc): nat {
    if d.k.VK? then BITRK + d.k.info else if d.k.VNONRELOC? then d.k.info else 0
  }

  ghost predicate Delivers(m: Machine, w: Frame, o: State, r0: Regs, r: Regs, way: Way, d: Desc, sp: Span) {
    && Keeps(r0, r, sp.free, Idle(sp)) && way.Fell? && way.v == ValueOf(w, r, d)
    && ArrivesWith(m, w, o, sp.end, sp.to, sp.tov, r, CarriedTo(d, sp.free, way.c))
  }

  /** A descriptor without lists has one way out. */
  lemma Delivered(m: Machine, w: Frame, o: State, r0: Regs, c: Option<Value>, s: Snap, d: Desc, sp: Span, x: Meaning)
    requires Claim(m, s, d, sp, x) && d.tl == [] && d.fl == [] && !d.k.VRELOCABLE? && !d.k.VJMP?
    requires Final(w, s, sp.end) && Starts(m, w, o, r0, c, sp)
    ensures var way := Means(m, w.up, r0, x, c);
      Raises(m, w, o, way) || exists r :: Delivers(m, w, o, r0, r, way, d, sp)
  {
    hide Final, Starts, ArrivesWith, ValueOf, Raises, Means;
    var way := Means(m, w.up, r0, x, c);
    if !Raises(m, w, o, way) {
      var r :| YieldsWith(m, w, o, r0, r, way, s.code, d, sp);
      assert Delivers(m, w, o, r0, r, way, d, sp);
    }
  }

  /** An expression without jumps is an operand when its main value is where an instruction
      finds it. */
  lemma ClaimOperand(m: Machine, s: Snap, d: Desc, sp: Span, e: Expr)
    requires Claim(m, s, d, sp, Whole(e)) && d.tl == [] && d.fl == [] && !d.k.VRELOCABLE? && !d.k.VJMP?
    requires InPlace(m, e) || (d.k.VNONRELOC? && d.k.info >= sp.free)
    ensures Claim(m, s, d, sp, Operand(e))
  {
    hide Final, Starts, ArrivesWith, ValueOf, Fails, WayOf, Keeps;
    forall w, o, r0, c | Final(w, s, Settled(d, sp.end)) && Starts(m, w, o, r0, c, sp)
      ensures Yields(m, w, o, r0, Means(m, w.up, r0, Operand(e), c), s.code, d, sp)
    {
      var way, w2 := Means(m, w.up, r0, Whole(e), c), Means(m, w.up, r0, Operand(e), c);
      if !Raises(m, w, o, way) {
        var r :| YieldsWith(m, w, o, r0, r, way, s.code, d, sp);
        assert YieldsWith(m, w, o, r0, r, w2, s.code, d, sp);
      }
    }
  }

  /** Control that falls into the second expression does not come from an `OP_LOADNIL` of
      the first. */
  predicate FallsOn(code: seq<Instr>, sp1: Span, sp2: Span) {
    sp2.falls ==> if sp2.start == sp1.start then sp1.falls else 0 < sp2.start <= |code| && !code[sp2.start - 1].LoadNil?
  }

  ghost predicate Follows(code: seq<Instr>, sp1: Span, sp2: Span, nactvar: nat) {
    && sp2.start == sp1.end && sp2.from == sp1.to && sp2.fromv == sp1.tov && nactvar <= sp1.free <= sp2.free
    && sp1.start <= sp1.end <= sp2.end && FallsOn(code, sp1, sp2)
  }

  function Joined(sp1: Span, sp2: Span): Span {
    Span(sp1.start, sp1.from, sp1.fromv, sp2.end, sp2.to, sp2.tov, sp1.falls, sp1.free, sp1.valued)
  }

  /** Where the first expression ends the second can start, and it does what it would have
      done at the beginning. */
  lemma StartsNext(m: Machine, w: Frame, o: State, r0: Regs, c0: Option<Value>, r: Regs, c: Option<Value>, s: Snap,
                   sp1: Span, sp2: Span, y: Expr, nactvar: nat, nups: nat)
    requires Starts(m, w, o, r0, c0, sp1) && Keeps(r0, r, sp1.free, Idle(sp1))
    requires ArrivesWith(m, w, o, sp1.end, sp1.to, sp1.tov, r, c)
    requires Follows(s.code, sp1, sp2, nactvar) && WellFormed(m, y, nactvar, nups)
    requires Final(w, s, sp1.end)
    ensures Starts(m, w, o, r, c, sp2) && WayOf(m, w.up, r, y, c) == WayOf(m, w.up, r0, y, c)
  {
    hide ArrivesWith, WellFormed, WayOf;
    if sp2.start > sp1.start { assert CompatAt(w.code, s.code, s.pend, sp2.start - 1); }
    WayLocals(m, w.up, r, r0, y, c, nactvar, nups);
  }


  ghost predicate DeliverBoth(m: Machine, w: Frame, o: State, r0: Regs, r: Regs, way1: Way, way2: Way, d1: Desc,
                              d2: Desc, free2: nat, sp: Span) {
    && Keeps(r0, r, sp.free, Idle(sp)) && way1.Fell? && way2.Fell?
    && ArrivesWith(m, w, o, sp.end, sp.to, sp.tov, r, CarriedTo(d2, free2, way2.c))
    && way1.v == ValueOf(w, r, d1) && way2.v == ValueOf(w, r, d2)
  }

  predicate ValueStays(d: Desc, free: nat) {
    d.k.VNONRELOC? ==> d.k.info < free
  }

  /** A waiting operand without code of its own is a constant or a local variable. */
  predicate CarryKnown(m: Machine, d: Desc, sp: Span, x: Expr) {
    d.k.VNONRELOC? && d.k.info >= sp.free ==> !InPlace(m, x)
  }

  lemma DeliveredBoth(m: Machine, w: Frame, o: State, r0: Regs, c: Option<Value>, s: Snap, d1: Desc, sp1: Span, x: Expr,
                      d2: Desc, sp2: Span, y: Expr, nactvar: nat, nups: nat)
    requires Claim(m, s, d1, sp1, Operand(x)) && Claim(m, s, d2, sp2, Operand(y)) && Follows(s.code, sp1, sp2, nactvar)
    requires WellFormed(m, y, nactvar, nups) && CarryKnown(m, d1, sp1, x)
    requires d1.tl == [] && d1.fl == [] && (d1.k.VK? || d1.k.VNONRELOC? || d1.k.VKNUM?) && ValueStays(d1, sp2.free)
    requires d2.tl == [] && d2.fl == [] && (d2.k.VK? || d2.k.VNONRELOC? || d2.k.VKNUM?)
    requires Final(w, s, sp2.end) && Starts(m, w, o, r0, c, sp1)
    ensures var way1, way2 := Means(m, w.up, r0, Operand(x), c), Second(m, w.up, r0, x, y, c);
      Raises(m, w, o, way2) || exists r :: DeliverBoth(m, w, o, r0, r, way1, way2, d1, d2, sp2.free, Joined(sp1, sp2))
  {
    hide Claim, Final, Starts, ArrivesWith, Fails, WayOf, WellFormed, InPlace;
    var way1, way2 := Means(m, w.up, r0, Operand(x), c), Second(m, w.up, r0, x, y, c);
    FinalLess(w, s, sp1.end, sp2.end);
    Delivered(m, w, o, r0, c, s, d1, sp1, Operand(x));
    if !Raises(m, w, o, way1) {
      var r1 :| Delivers(m, w, o, r0, r1, way1, d1, sp1);
      assert CarriedTo(d1, sp1.free, way1.c) == way1.c;
      StartsNext(m, w, o, r0, c, r1, way1.c, s, sp1, sp2, y, nactvar, nups);
      Delivered(m, w, o, r1, way1.c, s, d2, sp2, Operand(y));
      if !Raises(m, w, o, way2) {
        var r2 :| Delivers(m, w, o, r1, r2, way2, d2, sp2);
        assert DeliverBoth(m, w, o, r0, r2, way1, way2, d1, d2, sp2.free, Joined(sp1, sp2));
      }
    }
  }

  lemma OperandValue(w: Frame, r: Regs, d: Desc)
    requires (d.k.VK? || d.k.VNONRELOC?) && (d.k.VNONRELOC? ==> d.k.info < MAXSTACK)
    ensures Rk(w, r, OperandRk(d)) == ValueOf(w, r, d)
    ensures d.k.VNONRELOC? ==> Reg(r, d.k.info) == ValueOf(w, r, d)
  {
  }

  predicate Holds(d: Desc) {
    IsOperand(d) && (d.k.VNONRELOC? ==> d.k.info < MAXSTACK)
  }

  function RelocDesc(pc: nat, tl: seq<nat>, fl: seq<nat>): Desc {
    Desc(VRELOCABLE(pc), tl, fl)
  }

  function Coded(sp: Span, n: nat): Span {
    sp.(end := sp.end + n, to := [], tov := {})
  }

  lemma MainReloc(m: Machine, w: Frame, o: State, r0: Regs, r: Regs, s: Snap, j: seq<nat>, i: Instr, way: Way, sp: Span)
    requires SnapOk(s) && JumpsIn(s.code, j) && sp.end == |s.code| && sp.to == j && Final(w, Emit(s, j, i), sp.end)
    requires Keeps(r0, r, sp.free, Idle(sp)) && Arrives(m, w, o, sp.end, sp.to, r)
    requires Produces(m, w, r, i) == ValueIn(way) && !way.Left?
    ensures Yields(m, w, o, r0, way, Emit(s, j, i).code, RelocDesc(|s.code|, [], []), Coded(sp, 1))
  {
    hide Goes, Arrives, Produces, Patched, Final;
    Discharged(m, w, o, r, s, j, i, s.k, sp.end);
    assert InstrAt(Emit(s, j, i).code, |s.code|) == i;
    assert YieldsWith(m, w, o, r0, r, way, Emit(s, j, i).code, RelocDesc(|s.code|, [], []), Coded(sp, 1));
  }


  lemma ArithYields(m: Machine, w: Frame, o: State, r0: Regs, c: Option<Value>, s: Snap, d1: Desc, sp1: Span, x: Expr,
                    d2: Desc, sp2: Span, y: Expr, op: ArithOp, nactvar: nat, nups: nat)
    requires Claim(m, s, d1, sp1, Operand(x)) && Claim(m, s, d2, sp2, Operand(y)) && Follows(s.code, sp1, sp2, nactvar)
    requires WellFormed(m, y, nactvar, nups) && CarryKnown(m, d1, sp1, x)
    requires Holds(d1) && Holds(d2) && ValueStays(d1, sp2.free)
    requires SnapOk(s) && JumpsIn(s.code, sp2.to) && sp2.end == |s.code| && Final(w, s, sp2.end)
    requires Starts(m, w, o, r0, c, sp1)
    requires Final(w, Emit(s, sp2.to, Arith(op, 0, OperandRk(d1), OperandRk(d2))), sp2.end)
    ensures Yields(m, w, o, r0, WayOf(m, w.up, r0, Binary(Arithmetical(op), x, y), c),
                   Emit(s, sp2.to, Arith(op, 0, OperandRk(d1), OperandRk(d2))).code, RelocDesc(sp2.end, [], []),
                   Coded(Joined(sp1, sp2), 1))
  {
    hide Claim, Final, Starts, SnapOk, JumpsIn, WellFormed, Emit, Yields, Fails, Goes, Arrives, ArrivesWith, Keeps,
      WayOf, OperandRk, ValueOf, Means, Second, CarryKnown, Folds;
    var i, sp := Arith(op, 0, OperandRk(d1), OperandRk(d2)), Joined(sp1, sp2);
    DeliveredBoth(m, w, o, r0, c, s, d1, sp1, x, d2, sp2, y, nactvar, nups);
    var way1, way2 := Means(m, w.up, r0, Operand(x), c), Second(m, w.up, r0, x, y, c);
    var way := WayOf(m, w.up, r0, Binary(Arithmetical(op), x, y), c);
    WayOperation(m, w.up, r0, Arithmetical(op), x, y, c);
    if Raises(m, w, o, way2) {
      RaisesYields(m, w, o, r0, way, Emit(s, sp2.to, i).code, RelocDesc(sp2.end, [], []), Coded(sp, 1));
    } else {
      var r :| DeliverBoth(m, w, o, r0, r, way1, way2, d1, d2, sp2.free, sp);
      OperandValue(w, r, d1);
      OperandValue(w, r, d2);
      ArrivesAtAll(m, w, o, sp.end, sp.to, sp.tov, r, CarriedTo(d2, sp2.free, way2.c));
      MainReloc(m, w, o, r0, r, s, sp2.to, i, way, sp);
    }
  }

  lemma ArithTo(m: Machine, s: Snap, d1: Desc, sp1: Span, x: Expr, d2: Desc, sp2: Span, y: Expr, op: ArithOp,
                nactvar: nat, nups: nat)
    requires Claim(m, s, d1, sp1, Operand(x)) && Claim(m, s, d2, sp2, Operand(y)) && Follows(s.code, sp1, sp2, nactvar)
    requires WellFormed(m, y, nactvar, nups) && CarryKnown(m, d1, sp1, x)
    requires Holds(d1) && Holds(d2) && ValueStays(d1, sp2.free)
    requires SnapOk(s) && JumpsIn(s.code, sp2.to) && Elems(sp2.to) <= s.pend && sp2.end == |s.code|
    ensures var i := Arith(op, 0, OperandRk(d1), OperandRk(d2));
      Claim(m, Emit(s, sp2.to, i), RelocDesc(sp2.end, [], []), Coded(Joined(sp1, sp2), 1),
            Whole(Binary(Arithmetical(op), x, y)))
  {
    var i := Arith(op, 0, OperandRk(d1), OperandRk(d2));
    var s2, sp, e := Emit(s, sp2.to, i), Coded(Joined(sp1, sp2), 1), Binary(Arithmetical(op), x, y);
    NoTestAt(s, sp2.end);
    EmitLater(s, sp2.end, sp2.to, i, s.k);
    hide Claim, Final, Starts, SnapOk, JumpsIn, WellFormed, Emit, Yields, Later, WayOf, OperandRk, Holds, CarryKnown;
    forall w, o, r0, c | Final(w, s2, sp2.end) && Starts(m, w, o, r0, c, sp)
      ensures Yields(m, w, o, r0, WayOf(m, w.up, r0, e, c), s2.code, RelocDesc(sp2.end, [], []), sp)
    {
      FinalEarlier(w, s, sp2.end, s2, sp2.end, Elems(sp2.to));
      StartsSame(m, w, o, r0, c, sp, sp1);
      ArithYields(m, w, o, r0, c, s, d1, sp1, x, d2, sp2, y, op, nactvar, nups);
    }
    ClaimOf(m, s2, RelocDesc(sp2.end, [], []), sp, Whole(e));
  }

  lemma StartsSame(m: Machine, w: Frame, o: State, r0: Regs, c: Option<Value>, sp: Span, sp1: Span)
    requires Starts(m, w, o, r0, c, sp) && sp1.start == sp.start && sp1.from == sp.from && sp1.fromv == sp.fromv
    requires sp1.free == sp.free && sp1.falls == sp.falls
    ensures Starts(m, w, o, r0, c, sp1)
  {
  }

  lemma RaisesYields(m: Machine, w: Frame, o: State, r0: Regs, way: Way, code: seq<Instr>, d: Desc, sp: Span)
    requires Fails(m, w, o) && way.Raised?
    ensures Yields(m, w, o, r0, way, code, d, sp)
  {
  }

  lemma ClaimOf(m: Machine, s: Snap, d: Desc, sp: Span, x: Meaning)
    requires forall w, o, r0, c :: Final(w, s, Settled(d, sp.end)) && Starts(m, w, o, r0, c, sp) ==>
      Yields(m, w, o, r0, Means(m, w.up, r0, x, c), s.code, d, sp)
    ensures Claim(m, s, d, sp, x)
  {
  }

  // ----- comparisons -----

  /** The code after `condjump`. */
  ghost function EmitTest(s: Snap, j: seq<nat>, i: Instr): Snap {
    Snap(Emitted(s.code, j, i) + [Jmp(NO_JUMP)], s.pend - Elems(j) + {|s.code| + 1}, s.k)
  }

  lemma EmitTestLater(s: Snap, j: seq<nat>, i: Instr, n: nat)
    requires n <= |s.code| && JumpsIn(s.code, j) && Elems(j) <= s.pend && (n > 0 ==> !s.code[n - 1].TestSet?)
    ensures Later(s, n, EmitTest(s, j, i), Elems(j))
  {
    PatchedEvolves(s.code, s.pend, n, j, |s.code|, NO_REG, |s.code|, [i] + [Jmp(NO_JUMP)]);
    var t := EmitTest(s, j, i);
    assert t.code == Patched(s.code, j, |s.code|, NO_REG, |s.code|) + ([i] + [Jmp(NO_JUMP)]);
    forall x | 0 <= x < n
      ensures EvolvesAt(s.code, s.pend, t.code, t.pend, Elems(j), x)
    {
      assert EvolvesAt(s.code, s.pend, t.code, s.pend - Elems(j), Elems(j), x);
    }
  }

  /** Before the test, code with a test and its jump is as code with the test alone. */
  lemma BeforeTest(w: Frame, s: Snap, j: seq<nat>, i: Instr)
    requires Final(w, EmitTest(s, j, i), |s.code|)
    ensures Final(w, Emit(s, j, i), |s.code|)
  {
    var t, e := EmitTest(s, j, i), Emit(s, j, i);
    forall x | 0 <= x < |s.code|
      ensures CompatAt(w.code, e.code, e.pend, x)
    {
      assert CompatAt(w.code, t.code, t.pend, x);
      assert t.code[x] == e.code[x];
    }
  }

  /** `codecomp`: `>` and `>=` become `<` and `<=` with the operands exchanged. */
  function CompareInstr(op: BinOpr, o1: nat, o2: nat): Instr
    requires IsComparison(op)
  {
    match op
    case Eq => Cmp(EQ, 1, o1, o2)
    case Ne => Cmp(EQ, 0, o1, o2)
    case Lt => Cmp(LT, 1, o1, o2)
    case Le => Cmp(LE, 1, o1, o2)
    case Gt => Cmp(LT, 1, o2, o1)
    case Ge => Cmp(LE, 1, o2, o1)
  }

  lemma CompareAccepts(m: Machine, w: Frame, r: Regs, op: BinOpr, o1: nat, o2: nat)
    requires IsComparison(op)
    ensures Accepts(m, w, r, CompareInstr(op, o1, o2)) == Compare(m, op, Rk(w, r, o1), Rk(w, r, o2))
  {
  }

  function JumpDesc(pc: nat, tl: seq<nat>, fl: seq<nat>): Desc {
    Desc(VJMP(pc), tl, fl)
  }

  lemma MainJump(m: Machine, w: Frame, o: State, r0: Regs, r: Regs, s: Snap, j: seq<nat>, i: Instr, way: Way, sp: Span)
    requires SnapOk(s) && JumpsIn(s.code, j) && sp.end == |s.code| && sp.to == j && Final(w, EmitTest(s, j, i), sp.end)
    requires Keeps(r0, r, sp.free, Idle(sp)) && Arrives(m, w, o, sp.end, sp.to, r) && !way.Left?
    requires ValueIn(way) == AsValue(Accepts(m, w, r, i))
    ensures Yields(m, w, o, r0, way, EmitTest(s, j, i).code, JumpDesc(|s.code| + 1, [], []), Coded(sp, 2))
  {
    hide Goes, Arrives, Accepts, Patched, Final;
    BeforeTest(w, s, j, i);
    Discharged(m, w, o, r, s, j, i, s.k, sp.end);
    assert InstrAt(EmitTest(s, j, i).code, |s.code|) == i;
    assert YieldsWith(m, w, o, r0, r, way, EmitTest(s, j, i).code, JumpDesc(|s.code| + 1, [], []), Coded(sp, 2));
  }

  lemma CompareYields(m: Machine, w: Frame, o: State, r0: Regs, c: Option<Value>, s: Snap, d1: Desc, sp1: Span, x: Expr,
                      d2: Desc, sp2: Span, y: Expr, op: BinOpr, nactvar: nat, nups: nat)
    requires IsComparison(op)
    requires Claim(m, s, d1, sp1, Operand(x)) && Claim(m, s, d2, sp2, Operand(y)) && Follows(s.code, sp1, sp2, nactvar)
    requires WellFormed(m, y, nactvar, nups) && CarryKnown(m, d1, sp1, x)
    requires Holds(d1) && Holds(d2) && ValueStays(d1, sp2.free)
    requires SnapOk(s) && JumpsIn(s.code, sp2.to) && sp2.end == |s.code| && Final(w, s, sp2.end)
    requires Starts(m, w, o, r0, c, sp1)
    requires Final(w, EmitTest(s, sp2.to, CompareInstr(op, OperandRk(d1), OperandRk(d2))), sp2.end)
    ensures Yields(m, w, o, r0, WayOf(m, w.up, r0, Binary(op, x, y), c),
                   EmitTest(s, sp2.to, CompareInstr(op, OperandRk(d1), OperandRk(d2))).code,
                   JumpDesc(sp2.end + 1, [], []), Coded(Joined(sp1, sp2), 2))
  {
    hide Claim, Final, Starts, SnapOk, JumpsIn, WellFormed, EmitTest, Yields, Fails, Goes, Arrives, ArrivesWith, Keeps,
      WayOf, OperandRk, ValueOf, Accepts, Compare, CompareInstr, Means, Second, CarryKnown, Folds;
    var i, sp := CompareInstr(op, OperandRk(d1), OperandRk(d2)), Joined(sp1, sp2);
    DeliveredBoth(m, w, o, r0, c, s, d1, sp1, x, d2, sp2, y, nactvar, nups);
    var way1, way2 := Means(m, w.up, r0, Operand(x), c), Second(m, w.up, r0, x, y, c);
    var way := WayOf(m, w.up, r0, Binary(op, x, y), c);
    WayOperation(m, w.up, r0, op, x, y, c);
    if Raises(m, w, o, way2) {
      RaisesYields(m, w, o, r0, way, EmitTest(s, sp2.to, i).code, JumpDesc(sp2.end + 1, [], []), Coded(sp, 2));
    } else {
      var r :| DeliverBoth(m, w, o, r0, r, way1, way2, d1, d2, sp2.free, sp);
      OperandValue(w, r, d1);
      OperandValue(w, r, d2);
      CompareAccepts(m, w, r, op, OperandRk(d1), OperandRk(d2));
      ArrivesAtAll(m, w, o, sp.end, sp.to, sp.tov, r, CarriedTo(d2, sp2.free, way2.c));
      MainJump(m, w, o, r0, r, s, sp2.to, i, way, sp);
    }
  }

  lemma CompareTo(m: Machine, s: Snap, d1: Desc, sp1: Span, x: Expr, d2: Desc, sp2: Span, y: Expr, op: BinOpr,
                  nactvar: nat, nups: nat)
    requires IsComparison(op)
    requires Claim(m, s, d1, sp1, Operand(x)) && Claim(m, s, d2, sp2, Operand(y)) && Follows(s.code, sp1, sp2, nactvar)
    requires WellFormed(m, y, nactvar, nups) && CarryKnown(m, d1, sp1, x)
    requires Holds(d1) && Holds(d2) && ValueStays(d1, sp2.free)
    requires SnapOk(s) && JumpsIn(s.code, sp2.to) && Elems(sp2.to) <= s.pend && sp2.end == |s.code|
    ensures var i := CompareInstr(op, OperandRk(d1), OperandRk(d2));
      Claim(m, EmitTest(s, sp2.to, i), JumpDesc(sp2.end + 1, [], []), Coded(Joined(sp1, sp2), 2),
            Whole(Binary(op, x, y)))
  {
    hide Claim, Final, Starts, SnapOk, JumpsIn, WellFormed, EmitTest, Yields, Later, WayOf, OperandRk, Holds,
      CompareInstr, CarryKnown;
    var i := CompareInstr(op, OperandRk(d1), OperandRk(d2));
    var s2, sp, e := EmitTest(s, sp2.to, i), Coded(Joined(sp1, sp2), 2), Binary(op, x, y);
    NoTestAt(s, sp2.end);
    EmitTestLater(s, sp2.to, i, sp2.end);
    forall w, o, r0, c | Final(w, s2, sp2.end) && Starts(m, w, o, r0, c, sp)
      ensures Yields(m, w, o, r0, WayOf(m, w.up, r0, e, c), s2.code, JumpDesc(sp2.end + 1, [], []), sp)
    {
      FinalEarlier(w, s, sp2.end, s2, sp2.end, Elems(sp2.to));
      StartsSame(m, w, o, r0, c, sp, sp1);
      CompareYields(m, w, o, r0, c, s, d1, sp1, x, d2, sp2, y, op, nactvar, nups);
    }
    ClaimOf(m, s2, JumpDesc(sp2.end + 1, [], []), sp, Whole(e));
  }

  // ----- constant folding -----

  lemma FoldTo(m: Machine, s: Snap, d1: Desc, sp1: Span, x: Expr, d2: Desc, sp2: Span, y: Expr, op: ArithOp,
               nactvar: nat, nups: nat)
    requires Claim(m, s, d1, sp1, Operand(x)) && Claim(m, s, d2, sp2, Operand(y)) && Follows(s.code, sp1, sp2, nactvar)
    requires WellFormed(m, y, nactvar, nups) && Folds(m, Arithmetical(op), x, y)
    requires d1.k.VKNUM? && d1.tl == [] && d1.fl == [] && d2.k.VKNUM? && d2.tl == [] && d2.fl == []
    ensures Claim(m, s, d1.(k := VKNUM(m.num(op, d1.k.nval, d2.k.nval))), Joined(sp1, sp2),
                  Whole(Binary(Arithmetical(op), x, y)))
  {
    hide Claim, Final, Starts, WellFormed, Yields, WayOf, Fails, ArrivesWith, Keeps, Means, Second, Folds;
    var d, sp, e := d1.(k := VKNUM(m.num(op, d1.k.nval, d2.k.nval))), Joined(sp1, sp2), Binary(Arithmetical(op), x, y);
    forall w, o, r0, c | Final(w, s, sp.end) && Starts(m, w, o, r0, c, sp)
      ensures Yields(m, w, o, r0, WayOf(m, w.up, r0, e, c), s.code, d, sp)
    {
      StartsSame(m, w, o, r0, c, sp, sp1);
      DeliveredBoth(m, w, o, r0, c, s, d1, sp1, x, d2, sp2, y, nactvar, nups);
      var way1, way2 := Means(m, w.up, r0, Operand(x), c), Second(m, w.up, r0, x, y, c);
      WayOperation(m, w.up, r0, Arithmetical(op), x, y, c);
      if Raises(m, w, o, way2) {
        RaisesYields(m, w, o, r0, WayOf(m, w.up, r0, e, c), s.code, d, sp);
      } else {
        var r :| DeliverBoth(m, w, o, r0, r, way1, way2, d1, d2, sp2.free, sp);
        MainYield(m, w, o, r0, r, WayOf(m, w.up, r0, e, c), s.code, d, sp);
      }
    }
    assert forall w: Frame, r0, c :: Means(m, w.up, r0, Whole(e), c) == WayOf(m, w.up, r0, e, c) by {
      MeansWhole(m, e);
    }
    ClaimOf(m, s, d, sp, Whole(e));
  }

  lemma MeansWhole(m: Machine, e: Expr)
    ensures forall up, r0, c :: Means(m, up, r0, Whole(e), c) == WayOf(m, up, r0, e, c)
  {
  }

  lemma MainYield(m: Machine, w: Frame, o: State, r0: Regs, r: Regs, way: Way, code: seq<Instr>, d: Desc, sp: Span)
    requires Keeps(r0, r, sp.free, Idle(sp)) && way.Fell? && way.v == ValueOf(w, r, d)
    requires ArrivesWith(m, w, o, sp.end, sp.to, sp.tov, r, CarriedTo(d, sp.free, way.c))
    requires !d.k.VRELOCABLE? && !d.k.VJMP?
    ensures Yields(m, w, o, r0, way, code, d, sp)
  {
    hide ArrivesWith, Keeps;
    assert YieldsWith(m, w, o, r0, r, way, code, d, sp);
  }
}
