/** `not`, `and`, `or` and the other unary operators. */
module ExpLogic {
  import opened LuaVM
  import opened Expressions
  import opened PatchLists
  import opened ExpClaims
  import opened ExpSteps
  import opened ExpOperators

  // ----- minus and length -----

  function UnaryInstr(op: UnOpr, r: nat): Instr {
    match op
    case Minus => Unm(0, r)
    case Negate => Not(0, r)
    case Length => Len(0, r)
  }


  lemma UnaryYields(m: Machine, w: Frame, o: State, r0: Regs, c: Option<Value>, s: Snap, d: Desc, sp: Span, x: Expr,
                    op: UnOpr)
    requires Claim(m, s, d, sp, Operand(x)) && d.k.VNONRELOC? && d.tl == [] && d.fl == [] && op != Negate
    requires SnapOk(s) && JumpsIn(s.code, sp.to) && sp.end == |s.code| && Final(w, s, sp.end)
    requires Starts(m, w, o, r0, c, sp)
    requires Final(w, Emit(s, sp.to, UnaryInstr(op, d.k.info)), sp.end)
    ensures Yields(m, w, o, r0, WayOf(m, w.up, r0, Unary(op, x), c), Emit(s, sp.to, UnaryInstr(op, d.k.info)).code,
                   RelocDesc(sp.end, [], []), Coded(sp, 1))
  {
    hide Claim, Final, Starts, SnapOk, JumpsIn, Emit, Yields, Fails, Goes, Arrives, ArrivesWith, Keeps, WayOf, Means,
      NumeralOf;
    var i, way1 := UnaryInstr(op, d.k.info), Means(m, w.up, r0, Operand(x), c);
    var way := WayOf(m, w.up, r0, Unary(op, x), c);
    Delivered(m, w, o, r0, c, s, d, sp, Operand(x));
    WayUnary(m, w.up, r0, op, x, c);
    if Raises(m, w, o, way1) {
      RaisesYields(m, w, o, r0, way, Emit(s, sp.to, i).code, RelocDesc(sp.end, [], []), Coded(sp, 1));
    } else {
      var r :| Delivers(m, w, o, r0, r, way1, d, sp);
      ArrivesAtAll(m, w, o, sp.end, sp.to, sp.tov, r, CarriedTo(d, sp.free, way1.c));
      MainReloc(m, w, o, r0, r, s, sp.to, i, way, sp);
    }
  }

  lemma UnaryTo(m: Machine, s: Snap, d: Desc, sp: Span, x: Expr, op: UnOpr)
    requires Claim(m, s, d, sp, Operand(x)) && d.k.VNONRELOC? && d.tl == [] && d.fl == [] && op != Negate
    requires SnapOk(s) && JumpsIn(s.code, sp.to) && Elems(sp.to) <= s.pend && sp.end == |s.code|
    ensures Claim(m, Emit(s, sp.to, UnaryInstr(op, d.k.info)), RelocDesc(sp.end, [], []), Coded(sp, 1),
                  Whole(Unary(op, x)))
  {
    var i := UnaryInstr(op, d.k.info);
    var s2 := Emit(s, sp.to, i);
    NoTestAt(s, sp.end);
    EmitLater(s, sp.end, sp.to, i, s.k);
    hide Claim, Final, Starts, SnapOk, JumpsIn, Emit, Yields, Later, WayOf, UnaryInstr;
    forall w, o, r0, c | Final(w, s2, sp.end) && Starts(m, w, o, r0, c, Coded(sp, 1))
      ensures Yields(m, w, o, r0, WayOf(m, w.up, r0, Unary(op, x), c), s2.code, RelocDesc(sp.end, [], []), Coded(sp, 1))
    {
      FinalEarlier(w, s, sp.end, s2, sp.end, Elems(sp.to));
      StartsSame(m, w, o, r0, c, Coded(sp, 1), sp);
      UnaryYields(m, w, o, r0, c, s, d, sp, x, op);
    }
    ClaimOf(m, s2, RelocDesc(sp.end, [], []), Coded(sp, 1), Whole(Unary(op, x)));
  }

  lemma FoldMinus(m: Machine, s: Snap, d: Desc, sp: Span, x: Expr)
    requires Claim(m, s, d, sp, Operand(x)) && d.k.VKNUM? && d.tl == [] && d.fl == [] && NumeralOf(m, x).Some?
    ensures Claim(m, s, d.(k := VKNUM(m.unm(d.k.nval))), sp, Whole(Unary(Minus, x)))
  {
    hide Claim, Final, Starts, Yields, WayOf, Fails, ArrivesWith, Keeps, Means, NumeralOf;
    var d', e := d.(k := VKNUM(m.unm(d.k.nval))), Unary(Minus, x);
    forall w, o, r0, c | Final(w, s, sp.end) && Starts(m, w, o, r0, c, sp)
      ensures Yields(m, w, o, r0, WayOf(m, w.up, r0, e, c), s.code, d', sp)
    {
      var way1 := Means(m, w.up, r0, Operand(x), c);
      Delivered(m, w, o, r0, c, s, d, sp, Operand(x));
      WayUnary(m, w.up, r0, Minus, x, c);
      if Raises(m, w, o, way1) {
        RaisesYields(m, w, o, r0, WayOf(m, w.up, r0, e, c), s.code, d', sp);
      } else {
        var r :| Delivers(m, w, o, r0, r, way1, d, sp);
        MainYield(m, w, o, r0, r, WayOf(m, w.up, r0, e, c), s.code, d', sp);
      }
    }
    MeansWhole(m, e);
    ClaimOf(m, s, d', sp, Whole(e));
  }

  // ----- not -----

  /** Main ways through `d1` lead on to main ways through `d2` with the negated value. */
  ghost predicate MainNot(m: Machine, code1: seq<Instr>, d1: Desc, sp1: Span, s2: Snap, d2: Desc, sp2: Span) {
    forall w, o, r, way ::
      (Final(w, s2, Settled(d2, sp2.end)) && |r| == MAXSTACK && Main(m, w, o, r, way, code1, d1, sp1)) ==>
        MainYields(m, w, o, r, Negated(way), s2.code, d2, sp2)
  }

  /** The lists change roles, and what their jumps copy is not known any more. */
  lemma ClaimNot(m: Machine, s1: Snap, d1: Desc, sp1: Span, s2: Snap, d2: Desc, sp2: Span, touched: set<nat>, x: Expr)
    requires Claim(m, s1, d1, sp1, Whole(x)) && Later(s1, Settled(d1, sp1.end), s2, touched)
    requires Settled(d1, sp1.end) <= Settled(d2, sp2.end) && sp1.start <= sp1.end <= sp2.end
    requires d2.tl == d1.fl && d2.fl == d1.tl && SameStart(sp1.(valued := false), sp2)
    requires MainNot(m, s1.code, d1, sp1, s2, d2, sp2)
    ensures Claim(m, s2, d2, sp2, Whole(Unary(Negate, x)))
  {
    hide Final, Main, Fails, Later, ExitsWith, ArrivesWith, MainYields, Keeps, WayOf;
    forall w, o, r0, c | Final(w, s2, Settled(d2, sp2.end)) && Starts(m, w, o, r0, c, sp2)
      ensures Yields(m, w, o, r0, WayOf(m, w.up, r0, Unary(Negate, x), c), s2.code, d2, sp2)
    {
      FinalEarlier(w, s1, Settled(d1, sp1.end), s2, Settled(d2, sp2.end), touched);
      var way := WayOf(m, w.up, r0, x, c);
      StartsSame(m, w, o, r0, c, sp2, sp1);
      WayNot(m, w.up, r0, x, c);
      assert Means(m, w.up, r0, Whole(x), c) == way;
      assert Yields(m, w, o, r0, way, s1.code, d1, sp1);
      if !Raises(m, w, o, way) {
        var r :| YieldsWith(m, w, o, r0, r, way, s1.code, d1, sp1);
        if Main(m, w, o, r, way, s1.code, d1, sp1) {
          KeepsSize(r0, r, sp1);
          MainYieldsOn(m, w, o, r0, r, Negated(way), s2.code, d2, sp1, sp2);
        } else {
          LeavesNot(m, w, o, r0, r, way, s1, d1, sp1, s2, d2, sp2);
        }
      }
    }
    MeansWhole(m, Unary(Negate, x));
  }

  lemma WayNot(m: Machine, up: seq<Value>, r: Regs, x: Expr, c: Option<Value>)
    ensures WayOf(m, up, r, Unary(Negate, x), c) == Negated(WayOf(m, up, r, x, c))
  {
  }

  lemma KeepsSize(r0: Regs, r: Regs, sp: Span)
    requires Keeps(r0, r, sp.free, Idle(sp))
    ensures |r| == |r0|
  {
  }

  lemma LeavesNot(m: Machine, w: Frame, o: State, r0: Regs, r: Regs, way: Way, s1: Snap, d1: Desc, sp1: Span,
                  s2: Snap, d2: Desc, sp2: Span)
    requires Keeps(r0, r, sp1.free, Idle(sp1)) && Leaves(m, w, o, r, way, s1.code, d1, sp1.valued)
    requires d2.tl == d1.fl && d2.fl == d1.tl && sp2.free == sp1.free && !sp2.valued && (Idle(sp2) ==> Idle(sp1))
    ensures Yields(m, w, o, r0, Negated(way), s2.code, d2, sp2)
  {
    hide Main, AtJump;
    var l := if way.side then d1.tl else d1.fl;
    var p :| p in l && AtJump(m, w, o, p, r);
    assert ExitsWith(m, w, o, s2.code, l, r, None, false);
    assert YieldsWith(m, w, o, r0, r, Negated(way), s2.code, d2, sp2);
  }

  /** Tests that set no register copy nothing, as after `not`. */
  lemma NoValues(m: Machine, s: Snap, d: Desc, sp: Span, x: Expr)
    requires Claim(m, s, d, sp.(valued := false), Whole(Unary(Negate, x)))
    requires forall p :: p in d.tl || p in d.fl ==> !SetsValue(s.code, p)
    ensures Claim(m, s, d, sp, Whole(Unary(Negate, x)))
  {
    hide Final, Main, Fails, ArrivesWith, Keeps, WayOf;
    var sp0, e := sp.(valued := false), Unary(Negate, x);
    forall w, o, r0, c | Final(w, s, Settled(d, sp.end)) && Starts(m, w, o, r0, c, sp)
      ensures Yields(m, w, o, r0, Means(m, w.up, r0, Whole(e), c), s.code, d, sp)
    {
      StartsSame(m, w, o, r0, c, sp, sp0);
      var way := Means(m, w.up, r0, Whole(e), c);
      WayNot(m, w.up, r0, x, c);
      if !Raises(m, w, o, way) {
        var r :| YieldsWith(m, w, o, r0, r, way, s.code, d, sp0);
        MainSpan(m, w, o, r, way, s.code, d, sp0, sp);
        hide Claim, Starts, AtJump;
        assert YieldsWith(m, w, o, r0, r, way, s.code, d, sp);
      }
    }
  }

  lemma MainSpan(m: Machine, w: Frame, o: State, r: Regs, way: Way, code: seq<Instr>, d: Desc, sp: Span, sp': Span)
    requires sp' == sp.(valued := sp'.valued)
    ensures Main(m, w, o, r, way, code, d, sp') <==> Main(m, w, o, r, way, code, d, sp)
  {
  }

  // ----- and, or -----

  lemma AndYields(m: Machine, w: Frame, o: State, r0: Regs, c: Option<Value>, s: Snap, l: seq<nat>, sp1: Span, x: Expr,
                  d2: Desc, sp2: Span, y: Expr, sense: bool, nactvar: nat, nups: nat)
    requires Branch(m, s, l, sp1, x, sense) && Claim(m, s, d2, sp2, Whole(y)) && Follows(s.code, sp1, sp2, nactvar)
    requires WellFormed(m, y, nactvar, nups)
    requires sp1.free == sp2.free && sp1.valued && sp2.valued
    requires Final(w, s, sp1.end) && Final(w, s, Settled(d2, sp2.end)) && Starts(m, w, o, r0, c, sp1)
    ensures var d := if sense then d2.(fl := l + d2.fl) else d2.(tl := l + d2.tl);
      Yields(m, w, o, r0, WayOf(m, w.up, r0, Binary(if sense then And else Or, x, y), c), s.code, d, Joined(sp1, sp2))
  {
    hide Final, Main, Fails, ArrivesWith, AtJump, WellFormed, Starts, WayOf, Going;
    var g := Going(m, w.up, r0, x, sense, c);
    var way := WayOf(m, w.up, r0, Binary(if sense then And else Or, x, y), c);
    var d, sp := if sense then d2.(fl := l + d2.fl) else d2.(tl := l + d2.tl), Joined(sp1, sp2);
    WayLogic(m, w.up, r0, x, y, sense, c);
    if !Raises(m, w, o, g) {
      var r :| DecidesWith(m, w, o, r0, r, g, s.code, l, sp1, sense);
      if g.side == sense {
        StartsNext(m, w, o, r0, c, r, g.c, s, sp1, sp2, y, nactvar, nups);
        assert Means(m, w.up, r, Whole(y), g.c) == way;
        hide Branch, DecidesWith, Decides;
        if !Raises(m, w, o, way) {
          var r2 :| YieldsWith(m, w, o, r, r2, way, s.code, d2, sp2);
          hide Claim;
          LongerLists(m, w, o, r2, way, s.code, d2, l, sense, sp2, sp);
          assert YieldsWith(m, w, o, r0, r2, way, s.code, d, sp);
        }
      } else {
        hide Branch, Claim;
        LongerExit(m, w, o, s.code, l, if sense then d2.fl else d2.tl, r, g.c, sp.valued);
        assert YieldsWith(m, w, o, r0, r, way, s.code, d, sp);
      }
    }
  }


  lemma LongerExit(m: Machine, w: Frame, o: State, code: seq<Instr>, l1: seq<nat>, l2: seq<nat>, r: Regs,
                   c: Option<Value>, valued: bool)
    requires ExitsWith(m, w, o, code, l1, r, c, valued) || ExitsWith(m, w, o, code, l2, r, c, valued)
    ensures ExitsWith(m, w, o, code, l1 + l2, r, c, valued)
  {
    hide AtJump, Brings;
    if ExitsWith(m, w, o, code, l1, r, c, valued) {
      var p :| p in l1 && AtJump(m, w, o, p, r) && (valued ==> c == Brings(w, SetsValue(code, p), p, r));
      assert p in l1 + l2;
    } else {
      var p :| p in l2 && AtJump(m, w, o, p, r) && (valued ==> c == Brings(w, SetsValue(code, p), p, r));
      assert p in l1 + l2;
    }
  }

  lemma LongerLists(m: Machine, w: Frame, o: State, r: Regs, way: Way, code: seq<Instr>, d: Desc, l: seq<nat>,
                    sense: bool, sp: Span, sp': Span)
    requires Main(m, w, o, r, way, code, d, sp) || Leaves(m, w, o, r, way, code, d, sp.valued)
    requires sp'.end == sp.end && sp'.to == sp.to && sp'.tov == sp.tov && sp'.free == sp.free && sp'.valued == sp.valued
    ensures var d' := if sense then d.(fl := l + d.fl) else d.(tl := l + d.tl);
      Main(m, w, o, r, way, code, d', sp') || Leaves(m, w, o, r, way, code, d', sp'.valued)
  {
    hide Goes, ArrivesWith, ExitsWith, AtJump;
    if Leaves(m, w, o, r, way, code, d, sp.valued) {
      LongerExit(m, w, o, code, if way.side then if sense then [] else l else if sense then l else [],
                 if way.side then d.tl else d.fl, r, way.c, sp.valued);
      assert [] + d.tl == d.tl && [] + d.fl == d.fl;
    }
  }

  /** `and` and `or`: the second operand is evaluated only if the first does not decide. */
  lemma AndTo(m: Machine, s: Snap, l: seq<nat>, sp1: Span, x: Expr, d2: Desc, sp2: Span, y: Expr, sense: bool,
              nactvar: nat, nups: nat)
    requires Branch(m, s, l, sp1, x, sense) && Claim(m, s, d2, sp2, Whole(y)) && Follows(s.code, sp1, sp2, nactvar)
    requires WellFormed(m, y, nactvar, nups)
    requires sp1.free == sp2.free && sp1.valued && sp2.valued && sp1.end <= Settled(d2, sp2.end)
    ensures var d := if sense then d2.(fl := l + d2.fl) else d2.(tl := l + d2.tl);
      Claim(m, s, d, Joined(sp1, sp2), Whole(Binary(if sense then And else Or, x, y)))
  {
    hide Branch, Claim, Final, Starts, WellFormed, Yields, WayOf;
    var d, sp := if sense then d2.(fl := l + d2.fl) else d2.(tl := l + d2.tl), Joined(sp1, sp2);
    var e := Binary(if sense then And else Or, x, y);
    forall w, o, r0, c | Final(w, s, Settled(d, sp.end)) && Starts(m, w, o, r0, c, sp)
      ensures Yields(m, w, o, r0, WayOf(m, w.up, r0, e, c), s.code, d, sp)
    {
      FinalLess(w, s, sp1.end, Settled(d, sp.end));
      StartsSame(m, w, o, r0, c, sp, sp1);
      AndYields(m, w, o, r0, c, s, l, sp1, x, d2, sp2, y, sense, nactvar, nups);
    }
    ClaimOf(m, s, d, sp, Whole(e));
  }
}
