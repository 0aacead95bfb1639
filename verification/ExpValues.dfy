/** Bringing the value of an expression, whichever way it was decided, into one register:
    `exp2reg` (lua-5.1/lcode.c:385-406). */
module ExpValues {
  import opened LuaVM
  import opened Expressions
  import opened PatchLists
  import opened ExpClaims
  import opened ExpSteps
  import opened ExpOperators
  import opened ExpBranches

  /** An instruction of the code before, after both lists have been patched. */
  function FinishedAt(code: seq<Instr>, tl: seq<nat>, fl: seq<nat>, fin: nat, reg: nat, pf: int, pt: int, i: nat): Instr
    requires i < |code|
  {
    if i in tl then Jmp((if SetsValue(code, i) then fin else pt) - (i + 1))
    else if i in fl then Jmp((if SetsValue(code, i) then fin else pf) - (i + 1))
    else if (i + 1 in tl || i + 1 in fl) && code[i].TestSet? then PatchedTest(code[i], reg)
    else code[i]
  }

  /** The jumps of both lists lead to `fin`: at once, or over the loading of a boolean at
      `pf` or `pt` when their tests do not copy the value. */
  ghost predicate BothFinished(code: seq<Instr>, tl: seq<nat>, fl: seq<nat>, fin: nat, reg: nat, pf: int, pt: int,
                               code': seq<Instr>) {
    && |code| <= |code'| == fin
    && (forall i :: 0 <= i < |code| ==> code'[i] == FinishedAt(code, tl, fl, fin, reg, pf, pt, i))
    && ((exists p :: (p in tl || p in fl) && !SetsValue(code, p)) ==>
        && 0 <= pf && pf + 2 == fin && pt == pf + 1 && |code| <= pf
        && code'[pf] == LoadBool(reg, 0, 1) && code'[pt] == LoadBool(reg, 1, 0))
  }

  lemma FinishedLater(s: Snap, n: nat, tl: seq<nat>, fl: seq<nat>, fin: nat, reg: nat, pf: int, pt: int, s2: Snap)
    requires BothFinished(s.code, tl, fl, fin, reg, pf, pt, s2.code) && n <= |s.code| && JumpsIn(s.code, tl)
    requires JumpsIn(s.code, fl)
    requires forall p :: 0 <= p < |s.code| ==> (p in s2.pend <==> p in s.pend && p !in tl && p !in fl)
    requires Elems(tl) + Elems(fl) <= s.pend && s.k <= s2.k && (n > 0 ==> !s.code[n - 1].TestSet?)
    ensures Later(s, n, s2, Elems(tl) + Elems(fl))
  {
    forall i | 0 <= i < n
      ensures EvolvesAt(s.code, s.pend, s2.code, s2.pend, Elems(tl) + Elems(fl), i)
    {
      assert s2.code[i] == FinishedAt(s.code, tl, fl, fin, reg, pf, pt, i);
    }
  }

  /** In the finished code, the jumps of the lists and their tests. */
  lemma FinishedTargets(w: Frame, s: Snap, tl: seq<nat>, fl: seq<nat>, fin: nat, reg: nat, pf: int, pt: int, s2: Snap,
                        p: nat)
    requires SnapOk(s) && BothFinished(s.code, tl, fl, fin, reg, pf, pt, s2.code) && Final(w, s2, fin)
    requires forall p :: p in tl || p in fl ==> p < |s.code| && s.code[p].Jmp? && p !in s2.pend
    requires PendingOk(s2.code, s2.pend) && (p in tl || p in fl)
    ensures p < |w.code| && w.code[p] == FinishedAt(s.code, tl, fl, fin, reg, pf, pt, p)
    ensures SetsValue(s.code, p) ==> w.code[p - 1] == PatchedTest(s.code[p - 1], reg)
    ensures !SetsValue(s.code, p) ==> !SetsValue(w.code, p)
  {
    assert CompatAt(w.code, s2.code, s2.pend, p) && s2.code[p] == FinishedAt(s.code, tl, fl, fin, reg, pf, pt, p);
    if p + 1 in s2.pend { assert SameTest(s2.code[p], w.code[p]); }
    if p >= 1 {
      assert CompatAt(w.code, s2.code, s2.pend, p - 1);
      assert s2.code[p - 1] == FinishedAt(s.code, tl, fl, fin, reg, pf, pt, p - 1);
    }
  }

  lemma LoadedAt(w: Frame, s: Snap, n: nat, p: nat)
    requires PendingOk(s.code, s.pend) && Final(w, s, n) && p < n && s.code[p].LoadBool?
    ensures p < |w.code| && w.code[p] == s.code[p]
  {
    assert CompatAt(w.code, s.code, s.pend, p);
  }

  ghost predicate Landed(m: Machine, w: Frame, o: State, r: Regs, r': Regs, fin: nat, reg: nat, v: Value, free: nat) {
    Goes(m, w, o, State(fin, r')) && Reg(r', reg) == v && Keeps(r, r', free, false)
  }

  /** A jump of the lists brings its value to `fin`: a test copies it, or a boolean is loaded. */
  lemma ExitLands(m: Machine, w: Frame, o: State, r: Regs, s: Snap, tl: seq<nat>, fl: seq<nat>, fin: nat, reg: nat,
                  pf: int, pt: int, s2: Snap, p: nat, way: Way, free: nat)
    requires SnapOk(s) && BothFinished(s.code, tl, fl, fin, reg, pf, pt, s2.code) && Final(w, s2, fin)
    requires forall p :: p in tl || p in fl ==> p < |s.code| && s.code[p].Jmp? && p !in s2.pend
    requires PendingOk(s2.code, s2.pend) && way.Left? && (if way.side then p in tl && p !in fl else p in fl && p !in tl)
    requires AtJump(m, w, o, p, r) && way.c == Brings(w, SetsValue(s.code, p), p, r)
    requires |r| == MAXSTACK && free <= reg < MAXSTACK
    ensures exists r' :: Landed(m, w, o, r, r', fin, reg, ValueIn(way).value, free)
  {
    hide Goes, AtJump;
    var v := ValueIn(way).value;
    FinishedTargets(w, s, tl, fl, fin, reg, pf, pt, s2, p);
    if SetsValue(s.code, p) {
      hide Final, SnapOk, BothFinished;
      if SetsValue(w.code, p) {
        LandsSet(m, w, o, p, r, fin);
        assert Landed(m, w, o, r, SetReg(r, reg, v), fin, reg, v, free);
      } else {
        Lands(m, w, o, p, r, fin);
        assert Landed(m, w, o, r, r, fin, reg, v, free);
      }
    } else {
      var at := if way.side then pt else pf;
      Lands(m, w, o, p, r, at);
      LoadedAt(w, s2, fin, at);
      hide Final, SnapOk, BothFinished;
      StepOn(m, w, o, State(at, r), State(fin, SetReg(r, reg, v)));
      assert Landed(m, w, o, r, SetReg(r, reg, v), fin, reg, v, free);
    }
  }

  function RegDesc(reg: nat): Desc {
    Desc(VNONRELOC(reg), [], [])
  }

  lemma LandedYields(m: Machine, w: Frame, o: State, r0: Regs, r: Regs, code: seq<Instr>, reg: nat, way: Way, sp1: Span,
                     sp2: Span)
    requires Keeps(r0, r, sp1.free, Idle(sp1)) && way.Fell? && sp2.free <= reg
    requires exists r' :: Landed(m, w, o, r, r', sp2.end, reg, way.v, sp1.free)
    requires sp1.free == sp2.free && !Idle(sp2)
    ensures Yields(m, w, o, r0, way, code, RegDesc(reg), sp2)
  {
    hide Goes;
    var r' :| Landed(m, w, o, r, r', sp2.end, reg, way.v, sp1.free);
    assert ArrivesWith(m, w, o, sp2.end, sp2.to, sp2.tov, r', None);
    hide ArrivesWith;
    assert YieldsWith(m, w, o, r0, r', way, code, RegDesc(reg), sp2);
  }

  /** What is needed of the code around two patched lists. */
  ghost predicate Finishing(s: Snap, d: Desc, sp: Span, s2: Snap, sp2: Span, reg: nat, pf: int, pt: int) {
    && SnapOk(s) && PendingOk(s2.code, s2.pend) && BothFinished(s.code, d.tl, d.fl, sp2.end, reg, pf, pt, s2.code)
    && (forall p :: p in d.tl || p in d.fl ==> p < |s.code| && s.code[p].Jmp? && p in s.pend && p !in s2.pend)
    && (forall p :: p in d.tl ==> p !in d.fl)
    && (forall p :: 0 <= p < |s.code| ==> (p in s2.pend <==> p in s.pend && p !in d.tl && p !in d.fl))
    && sp.free <= reg < MAXSTACK && SameStart(sp, sp2) && !Idle(sp2) && s.k <= s2.k
    && sp.start <= sp.end == |s.code| && sp.valued
  }

  lemma LeavesLand(m: Machine, w: Frame, o: State, r0: Regs, r: Regs, way: Way, e: Expr, s: Snap, d: Desc, sp: Span,
                   s2: Snap, sp2: Span, reg: nat, pf: int, pt: int)
    requires Finishing(s, d, sp, s2, sp2, reg, pf, pt) && Final(w, s2, sp2.end)
    requires Keeps(r0, r, sp.free, Idle(sp)) && |r| == MAXSTACK && Leaves(m, w, o, r, way, s.code, d, true)
    ensures Yields(m, w, o, r0, Taken(m, e, way), s2.code, RegDesc(reg), sp2)
  {
    hide AtJump, BothFinished, Final, PendingOk, SnapOk, Yields, Brings, InPlace;
    var l := if way.side then d.tl else d.fl;
    var p :| p in l && AtJump(m, w, o, p, r) && way.c == Brings(w, SetsValue(s.code, p), p, r);
    ExitLands(m, w, o, r, s, d.tl, d.fl, sp2.end, reg, pf, pt, s2, p, way, sp.free);
    LandedYields(m, w, o, r0, r, s2.code, reg, Taken(m, e, way), sp, sp2);
  }

  /** Main ways of the descriptor come to the register too. */
  ghost predicate MainLands(m: Machine, code1: seq<Instr>, d1: Desc, sp1: Span, s2: Snap, reg: nat, sp2: Span) {
    forall w, o, r0, r, way, c ::
      (&& Final(w, s2, sp2.end) && |r| == MAXSTACK && Keeps(r0, r, sp1.free, Idle(sp1))
       && Main(m, w, o, r, way, code1, d1, sp1) && way.Fell?) ==>
        Yields(m, w, o, r0, Fell(way.v, c), s2.code, RegDesc(reg), sp2)
  }

  /** The errors of a main way. */
  ghost predicate MainRaises(m: Machine, code1: seq<Instr>, d1: Desc, sp1: Span, s2: Snap, sp2: Span) {
    forall w, o, r ::
      (Final(w, s2, sp2.end) && |r| == MAXSTACK && Main(m, w, o, r, Raised, code1, d1, sp1)) ==> Fails(m, w, o)
  }

  lemma ValueTo(m: Machine, s: Snap, d: Desc, sp: Span, s2: Snap, sp2: Span, reg: nat, pf: int, pt: int, x: Expr)
    requires Claim(m, s, d, sp, Whole(x)) && Finishing(s, d, sp, s2, sp2, reg, pf, pt)
    requires MainLands(m, s.code, d, sp, s2, reg, sp2) && MainRaises(m, s.code, d, sp, s2, sp2)
    requires Settled(d, sp.end) < |s.code| ==> !s.code[Settled(d, sp.end)].Jmp?
    ensures Claim(m, s2, RegDesc(reg), sp2, Operand(x))
  {
    var n := Settled(d, sp.end);
    NoTestAt(s, n);
    FinishedLater(s, n, d.tl, d.fl, sp2.end, reg, pf, pt, s2);
    hide Final, Main, Later, Fails, BothFinished, SnapOk, PendingOk, Leaves, WayOf, InPlace;
    forall w, o, r0, c | Final(w, s2, sp2.end) && Starts(m, w, o, r0, c, sp2)
      ensures Yields(m, w, o, r0, Means(m, w.up, r0, Operand(x), c), s2.code, RegDesc(reg), sp2)
    {
      FinalEarlier(w, s, n, s2, sp2.end, Elems(d.tl) + Elems(d.fl));
      StartsSame(m, w, o, r0, c, sp2, sp);
      var way := WayOf(m, w.up, r0, x, c);
      assert Means(m, w.up, r0, Whole(x), c) == way && Means(m, w.up, r0, Operand(x), c) == Taken(m, x, way);
      assert Yields(m, w, o, r0, way, s.code, d, sp);
      if !Raises(m, w, o, way) {
        var r :| YieldsWith(m, w, o, r0, r, way, s.code, d, sp);
        KeepsSize(r0, r, sp);
        if Leaves(m, w, o, r, way, s.code, d, true) {
          LeavesLand(m, w, o, r0, r, way, x, s, d, sp, s2, sp2, reg, pf, pt);
        } else if way.Fell? {
          assert Yields(m, w, o, r0, Fell(way.v, Taken(m, x, way).c), s2.code, RegDesc(reg), sp2);
        } else {
          NotLeft(m, w, o, r, way, s.code, d, sp);
          RaisesYields(m, w, o, r0, Taken(m, x, way), s2.code, RegDesc(reg), sp2);
        }
      }
    }
    ClaimOf(m, s2, RegDesc(reg), sp2, Operand(x));
  }

  lemma NotLeft(m: Machine, w: Frame, o: State, r: Regs, way: Way, code: seq<Instr>, d: Desc, sp: Span)
    requires Main(m, w, o, r, way, code, d, sp) && !way.Fell?
    ensures way.Raised?
  {
  }

  // ----- the main ways -----

  lemma YieldsRegister(m: Machine, w: Frame, o: State, r0: Regs, r: Regs, c: Option<Value>, code: seq<Instr>, reg: nat,
                       sp1: Span, sp2: Span)
    requires Keeps(r0, r, sp1.free, Idle(sp1)) && ArrivesWith(m, w, o, sp2.end, sp2.to, sp2.tov, r, None)
    requires sp1.free == sp2.free <= reg && (Idle(sp2) ==> Idle(sp1))
    ensures Yields(m, w, o, r0, Fell(Reg(r, reg), c), code, RegDesc(reg), sp2)
  {
    hide ArrivesWith;
    assert YieldsWith(m, w, o, r0, r, Fell(Reg(r, reg), c), code, RegDesc(reg), sp2);
  }

  /** A value in a register is there without an error. */
  lemma NothingRaised(m: Machine, s: Snap, d: Desc, sp: Span, s2: Snap, sp2: Span)
    requires d.k.VNONRELOC?
    ensures MainRaises(m, s.code, d, sp, s2, sp2)
  {
  }

  /** Every jump brings a value of its own: the main way ends where the jumps lead. */
  lemma NothingAdded(m: Machine, s: Snap, d: Desc, sp: Span, s2: Snap, sp2: Span)
    requires d.k.VNONRELOC? && sp2 == sp && sp.to == [] && d.k.info >= sp.free
    ensures MainLands(m, s.code, d, sp, s2, d.k.info, sp2)
  {
    hide Goes, ArrivesWith, Final, Keeps, Yields;
    forall w, o, r0, r, way, c | Final(w, s2, sp2.end) && |r| == MAXSTACK && Keeps(r0, r, sp.free, Idle(sp)) &&
        Main(m, w, o, r, way, s.code, d, sp) && way.Fell?
      ensures Yields(m, w, o, r0, Fell(way.v, c), s2.code, RegDesc(d.k.info), sp2)
    {
      YieldsRegister(m, w, o, r0, r, c, s2.code, d.k.info, sp, sp2);
    }
  }

  /** The main way jumps over the loading of booleans. */
  lemma JumpsOver(m: Machine, s: Snap, d: Desc, sp: Span, s2: Snap, sp2: Span)
    requires d.k.VNONRELOC? && sp.to == [] && sp.end == |s.code| && SnapOk(s) && d.k.info >= sp.free
    requires sp2 == sp.(end := sp.end + 3, to := [sp.end], tov := {}) && |s2.code| == |s.code| + 3
    requires forall i :: 0 <= i < |s.code| && !IsTest(s.code[i]) ==> !IsTest(s2.code[i])
    requires PendingOk(s2.code, s2.pend)
    ensures MainLands(m, s.code, d, sp, s2, d.k.info, sp2)
  {
    hide Goes, Keeps, Yields;
    var l := sp.end;
    forall w, o, r0, r, way, c | Final(w, s2, sp2.end) && |r| == MAXSTACK && Keeps(r0, r, sp.free, Idle(sp)) &&
        Main(m, w, o, r, way, s.code, d, sp) && way.Fell?
      ensures Yields(m, w, o, r0, Fell(way.v, c), s2.code, RegDesc(d.k.info), sp2)
    {
      NoTestBeforeJump(w, s, s2, l);
      assert AtJump(m, w, o, l, r) && l in [l];
      assert ArrivesWith(m, w, o, sp2.end, [l], {}, r, None);
      hide ArrivesWith, AtJump;
      YieldsRegister(m, w, o, r0, r, c, s2.code, d.k.info, sp, sp2);
    }
  }

  lemma NoTestBeforeJump(w: Frame, s: Snap, s2: Snap, l: nat)
    requires SnapOk(s) && l == |s.code| < |s2.code| && Final(w, s2, l + 1) && PendingOk(s2.code, s2.pend)
    requires forall i :: 0 <= i < l && !IsTest(s.code[i]) ==> !IsTest(s2.code[i])
    ensures l < |w.code| && (l >= 1 ==> !IsTest(w.code[l - 1]))
  {
    if l >= 1 {
      NoTestBefore(s.code, l);
      assert CompatAt(w.code, s2.code, s2.pend, l - 1);
    }
  }

  /** A comparison that fails goes on to load `false`; one that holds jumps. */
  lemma ComparisonLands(m: Machine, s: Snap, d: Desc, sp: Span, s2: Snap, sp2: Span, reg: nat)
    requires Finishing(s, d, sp, s2, sp2, reg, sp.end, sp.end + 1) && sp2.end == sp.end + 2
    requires d.k.VJMP? && sp.end >= 2 && s.code[sp.end - 2].Cmp? && sp.end - 1 in d.tl
    ensures MainLands(m, s.code, d, sp, s2, reg, sp2)
  {
    hide Goes, Keeps, Yields, BothFinished;
    var pc := sp.end - 2;
    forall w, o, r0, r, way, c | Final(w, s2, sp2.end) && |r| == MAXSTACK && Keeps(r0, r, sp.free, Idle(sp)) &&
        Main(m, w, o, r, way, s.code, d, sp) && way.Fell?
      ensures Yields(m, w, o, r0, Fell(way.v, c), s2.code, RegDesc(reg), sp2)
    {
      ComparisonKept(w, s, d, sp, s2, sp2, reg, pc);
      TestGoes(m, w, o, pc, r);
      if way.v == Bool(true) {
        ExitLands(m, w, o, r, s, d.tl, d.fl, sp2.end, reg, sp.end, sp.end + 1, s2, pc + 1, Left(true, None), sp.free);
        LandedYields(m, w, o, r0, r, s2.code, reg, Fell(Bool(true), c), sp, sp2);
      } else {
        FalseLands(m, w, o, r0, r, c, s, d, sp, s2, sp2, reg);
      }
    }
  }

  lemma ComparisonRaises(m: Machine, s: Snap, d: Desc, sp: Span, s2: Snap, sp2: Span, reg: nat)
    requires Finishing(s, d, sp, s2, sp2, reg, sp.end, sp.end + 1) && sp2.end == sp.end + 2
    requires d.k.VJMP? && sp.end >= 2 && s.code[sp.end - 2].Cmp? && sp.end - 1 in d.tl
    ensures MainRaises(m, s.code, d, sp, s2, sp2)
  {
    hide Goes, BothFinished, Fails;
    var pc := sp.end - 2;
    forall w, o, r | Final(w, s2, sp2.end) && |r| == MAXSTACK && Main(m, w, o, r, Raised, s.code, d, sp)
      ensures Fails(m, w, o)
    {
      ComparisonKept(w, s, d, sp, s2, sp2, reg, pc);
      TestGoes(m, w, o, pc, r);
    }
  }

  lemma ComparisonKept(w: Frame, s: Snap, d: Desc, sp: Span, s2: Snap, sp2: Span, reg: nat, pc: nat)
    requires Finishing(s, d, sp, s2, sp2, reg, sp.end, sp.end + 1) && Final(w, s2, sp2.end)
    requires pc + 2 == sp.end && s.code[pc].Cmp?
    ensures pc + 1 < |w.code| && w.code[pc] == s.code[pc] && !SetsValue(s.code, pc + 1)
  {
    assert s2.code[pc] == FinishedAt(s.code, d.tl, d.fl, sp2.end, reg, sp.end, sp.end + 1, pc);
    assert CompatAt(w.code, s2.code, s2.pend, pc);
  }

  lemma FalseLands(m: Machine, w: Frame, o: State, r0: Regs, r: Regs, c: Option<Value>, s: Snap, d: Desc, sp: Span,
                   s2: Snap, sp2: Span, reg: nat)
    requires Finishing(s, d, sp, s2, sp2, reg, sp.end, sp.end + 1) && sp2.end == sp.end + 2 && Final(w, s2, sp2.end)
    requires sp.end >= 2 && sp.end - 1 in d.tl && !SetsValue(s.code, sp.end - 1)
    requires Goes(m, w, o, State(sp.end, r)) && Keeps(r0, r, sp.free, Idle(sp)) && |r| == MAXSTACK
    ensures Yields(m, w, o, r0, Fell(Bool(false), c), s2.code, RegDesc(reg), sp2)
  {
    hide Goes, Yields, Final, SnapOk;
    LoadedAt(w, s2, sp2.end, sp.end);
    var r' := SetReg(r, reg, Bool(false));
    StepOn(m, w, o, State(sp.end, r), State(sp2.end, r'));
    assert Landed(m, w, o, r, r', sp2.end, reg, Bool(false), sp.free);
    LandedYields(m, w, o, r0, r, s2.code, reg, Fell(Bool(false), c), sp, sp2);
  }

  // ----- changes of links only -----

  /** The pending jumps may be linked in another way. */
  ghost predicate Relinked(s: Snap, t: Snap) {
    && |t.code| == |s.code| && t.pend == s.pend && t.k == s.k
    && forall i :: 0 <= i < |s.code| ==> t.code[i] == s.code[i] || (i in s.pend && t.code[i].Jmp? && s.code[i].Jmp?)
  }

  lemma FinalRelinked(w: Frame, s: Snap, t: Snap, n: nat)
    requires Relinked(s, t) && Final(w, t, n)
    ensures Final(w, s, n)
  {
    forall i | 0 <= i < n
      ensures CompatAt(w.code, s.code, s.pend, i)
    {
      assert CompatAt(w.code, t.code, t.pend, i);
      assert t.code[i] == s.code[i] || (i in s.pend && t.code[i].Jmp? && s.code[i].Jmp?);
    }
  }

  /** Links are not tests. */
  lemma ValuesRelinked(s: Snap, t: Snap, l: seq<nat>)
    requires Relinked(s, t)
    ensures ValueJumps(t.code, l) == ValueJumps(s.code, l)
    ensures forall p :: p in l ==> (SetsValue(t.code, p) <==> SetsValue(s.code, p))
  {
    forall p | p in l
      ensures SetsValue(t.code, p) <==> SetsValue(s.code, p)
    {
      if 1 <= p <= |s.code| { assert t.code[p - 1] == s.code[p - 1] || (t.code[p - 1].Jmp? && s.code[p - 1].Jmp?); }
    }
  }

  lemma ExitsRelinked(m: Machine, w: Frame, o: State, s: Snap, t: Snap, l: seq<nat>, l': seq<nat>, r: Regs,
                      c: Option<Value>, valued: bool)
    requires Relinked(s, t) && ExitsWith(m, w, o, s.code, l, r, c, valued) && forall p :: p in l ==> p in l'
    ensures ExitsWith(m, w, o, t.code, l', r, c, valued)
  {
    hide AtJump, Brings, Relinked, SetsValue;
    ValuesRelinked(s, t, l);
    var p :| p in l && AtJump(m, w, o, p, r) && (valued ==> c == Brings(w, SetsValue(s.code, p), p, r));
    assert p in l';
  }

  /** Lists may be joined with others and linked in another way. */
  lemma ClaimRelinked(m: Machine, s: Snap, d: Desc, t: Snap, d': Desc, sp: Span, x: Meaning)
    requires Claim(m, s, d, sp, x) && Relinked(s, t) && d' == d.(tl := d'.tl, fl := d'.fl)
    requires (forall p :: p in d.tl ==> p in d'.tl) && (forall p :: p in d.fl ==> p in d'.fl)
    requires d.k.VRELOCABLE? ==> InstrAt(t.code, sp.end - 1) == InstrAt(s.code, sp.end - 1)
    requires d.k.VJMP? ==> InstrAt(t.code, sp.end - 2) == InstrAt(s.code, sp.end - 2)
    ensures Claim(m, t, d', sp, x)
  {
    hide Final, Fails, ArrivesWith, Keeps, Means, Goes, InstrAt, Relinked, ExitsWith, Starts;
    forall w, o, r0, c | Final(w, t, Settled(d', sp.end)) && Starts(m, w, o, r0, c, sp)
      ensures Yields(m, w, o, r0, Means(m, w.up, r0, x, c), t.code, d', sp)
    {
      FinalRelinked(w, s, t, Settled(d, sp.end));
      var way := Means(m, w.up, r0, x, c);
      if !Raises(m, w, o, way) {
        var r :| YieldsWith(m, w, o, r0, r, way, s.code, d, sp);
        if Leaves(m, w, o, r, way, s.code, d, sp.valued) {
          ExitsRelinked(m, w, o, s, t, if way.side then d.tl else d.fl, if way.side then d'.tl else d'.fl, r, way.c,
                        sp.valued);
        }
        assert YieldsWith(m, w, o, r0, r, way, t.code, d', sp);
      }
    }
  }

  lemma BranchRelinked(m: Machine, s: Snap, l: seq<nat>, t: Snap, sp: Span, e: Expr, sense: bool)
    requires Branch(m, s, l, sp, e, sense) && Relinked(s, t)
    ensures Branch(m, t, l, sp, e, sense)
  {
    hide Final, Fails, Ends, Keeps, Going, Goes, Relinked, ExitsWith, Starts;
    forall w, o, r0, c | Final(w, t, sp.end) && Starts(m, w, o, r0, c, sp)
      ensures Decides(m, w, o, r0, Going(m, w.up, r0, e, sense, c), t.code, l, sp, sense)
    {
      FinalRelinked(w, s, t, sp.end);
      var g := Going(m, w.up, r0, e, sense, c);
      if !Raises(m, w, o, g) {
        var r :| DecidesWith(m, w, o, r0, r, g, s.code, l, sp, sense);
        if g.side != sense { ExitsRelinked(m, w, o, s, t, l, l, r, g.c, sp.valued); }
        assert DecidesWith(m, w, o, r0, r, g, t.code, l, sp, sense);
      }
    }
  }
}
