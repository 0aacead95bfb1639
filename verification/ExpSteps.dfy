/** How each step of code generation carries the claim about an expression along. */
module ExpSteps {
  import opened LuaVM
  import opened PatchLists
  import opened ExpClaims

  ghost function Elems(s: seq<nat>): set<nat> {
    set p | p in s
  }

  ghost predicate JumpsIn(code: seq<Instr>, s: seq<nat>) {
    forall p :: p in s ==> p < |code| && code[p].Jmp?
  }

  /** Code that has no test cut from its jump, with all pending jumps in it. */
  ghost predicate SnapOk(s: Snap) {
    TestsJump(s.code) && PendingOk(s.code, s.pend)
  }

  // ----- emitting an instruction -----

  /** The code after `luaK_code`: the jumps `j` that were to lead here lead to the new
      instruction. */
  function Emitted(code: seq<Instr>, j: seq<nat>, i: Instr): (r: seq<Instr>)
    ensures |r| == |code| + 1 && r[|code|] == i
  {
    Patched(code, j, |code|, NO_REG, |code|) + [i]
  }

  ghost function Emit(s: Snap, j: seq<nat>, i: Instr): Snap {
    Snap(Emitted(s.code, j, i), s.pend - Elems(j), s.k)
  }

  lemma PatchedEvolves(code: seq<Instr>, pend: set<nat>, n: nat, s: seq<nat>, vtarget: int, reg: nat, dtarget: int,
                       more: seq<Instr>)
    requires n <= |code| && JumpsIn(code, s)
    ensures Evolves(code, pend, n, Patched(code, s, vtarget, reg, dtarget) + more, pend - Elems(s), Elems(s))
  {
    var code' := Patched(code, s, vtarget, reg, dtarget) + more;
    forall i | 0 <= i < n
      ensures EvolvesAt(code, pend, code', pend - Elems(s), Elems(s), i)
    {
      assert code'[i] == PatchedAt(code, s, vtarget, reg, dtarget, i);
    }
  }

  lemma EmitLater(s: Snap, n: nat, j: seq<nat>, i: Instr, k: seq<Value>)
    requires n <= |s.code| && JumpsIn(s.code, j) && Elems(j) <= s.pend && s.k <= k
    requires (n > 0 ==> !s.code[n - 1].TestSet?)
    ensures Later(s, n, Emit(s, j, i).(k := k), Elems(j))
  {
    PatchedEvolves(s.code, s.pend, n, j, |s.code|, NO_REG, |s.code|, [i]);
  }

  /** In finished code, patched jumps go where they were sent. */
  lemma PatchedTargets(w: seq<Instr>, code: seq<Instr>, pend: set<nat>, s: seq<nat>, vtarget: int, reg: nat,
                       dtarget: int,
                       more: seq<Instr>, n: nat, p: nat)
    requires SnapOk(Snap(code, pend, [])) && JumpsIn(code, s) && p in s && |code| <= n
    requires Compat(w, Patched(code, s, vtarget, reg, dtarget) + more, n, pend - Elems(s))
    ensures p < |code| <= |w|
    ensures w[p] == Jmp((if SetsValue(code, p) then vtarget else dtarget) - (p + 1))
    ensures SetsValue(code, p) ==> w[p - 1] == PatchedTest(code[p - 1], reg)
    ensures !SetsValue(code, p) ==> !SetsValue(w, p)
  {
    var code' := Patched(code, s, vtarget, reg, dtarget) + more;
    assert CompatAt(w, code', pend - Elems(s), p);
    assert code'[p] == PatchedAt(code, s, vtarget, reg, dtarget, p);
    if p + 1 in pend { assert SameTest(code'[p], w[p]); }
    if p >= 1 {
      assert CompatAt(w, code', pend - Elems(s), p - 1);
      assert code'[p - 1] == PatchedAt(code, s, vtarget, reg, dtarget, p - 1);
    }
  }

  /** What was about to arrive at the end of the code arrives at the new instruction. */
  lemma Discharged(m: Machine, w: Frame, o: State, r: Regs, s: Snap, j: seq<nat>, i: Instr, k: seq<Value>, n: nat)
    requires SnapOk(s) && JumpsIn(s.code, j) && |s.code| <= n && Final(w, Emit(s, j, i).(k := k), n)
    requires Arrives(m, w, o, |s.code|, j, r)
    ensures Goes(m, w, o, State(|s.code|, r))
  {
    var l := |s.code|;
    forall p | p in j
      ensures p < |w.code| && w.code[p] == Jmp(l - (p + 1)) && !SetsValue(w.code, p)
    {
      PatchedTargets(w.code, s.code, s.pend, j, l, NO_REG, l, [i], n, p);
    }
    Arrived(m, w, o, l, j, r);
  }

  lemma FinalAt(w: Frame, s: Snap, n: nat, i: nat)
    requires Final(w, s, n) && i < n && i !in s.pend && i + 1 !in s.pend
    ensures i < |s.code| && i < |w.code| && Extends(s.code[i], w.code[i])
  {
    assert CompatAt(w.code, s.code, s.pend, i);
  }

  // ----- loading a value into a register -----

  /** The instruction that `discharge2reg` uses for a value. */
  ghost predicate LoadsValue(i: Instr, reg: nat, d: Desc, k: seq<Value>) {
    match d.k
    case VNIL => i == LoadNil(reg, reg)
    case VTRUE => i == LoadBool(reg, 1, 0)
    case VFALSE => i == LoadBool(reg, 0, 0)
    case VK(x) => i == LoadK(reg, x)
    case VKNUM(n) => i.LoadK? && i.a == reg && i.bx < |k| && k[i.bx] == Num(n)
    case VLOCAL(x) => i == Move(reg, x)
    case VNONRELOC(x) => i == Move(reg, x)
    case _ => false
  }

  lemma LoadStep(m: Machine, w: Frame, pc: nat, r: Regs, i: Instr, reg: nat, d: Desc, k: seq<Value>) returns (r': Regs)
    requires LoadsValue(i, reg, d, k) && k <= w.k && pc < |w.code| && Extends(i, w.code[pc]) && reg < |r|
    ensures Step(m, w, State(pc, r)) == Next(State(pc + 1, r')) && Loaded(r, r', reg, ValueOf(w, r, d))
  {
    r' := if d.k.VNIL? then SetNils(r, reg, w.code[pc].b) else SetReg(r, reg, ValueOf(w, r, d));
  }

  /** A load changes its register, and perhaps some above it. */
  ghost predicate Loaded(r: Regs, r': Regs, reg: nat, v: Value) {
    |r'| == |r| && Reg(r', reg) == v && forall x :: 0 <= x < reg && x < |r| ==> r'[x] == r[x]
  }

  lemma LoadTo(m: Machine, s: Snap, j: seq<nat>, i: Instr, reg: nat, k: seq<Value>, d1: Desc, sp1: Span, d2: Desc,
               sp2: Span)
    requires SnapOk(s) && JumpsIn(s.code, j) && sp1.end == |s.code| && sp1.to == j && sp1.free <= reg < MAXSTACK
    requires d2 == d1.(k := VNONRELOC(reg)) && sp2 == sp1.(end := |s.code| + 1, to := [], tov := {})
    requires s.k <= k && LoadsValue(i, reg, d1, k) && sp1.start <= sp1.end
    ensures MainTo(m, s.code, d1, sp1, Emit(s, j, i).(k := k), d2, sp2)
  {
    hide Final, Goes, Arrives, ArrivesWith, SnapOk, JumpsIn, Emitted, Step, Patched;
    var s2 := Emit(s, j, i).(k := k);
    var l := |s.code|;
    forall w, o, r, way | Final(w, s2, l + 1) && |r| == MAXSTACK && Main(m, w, o, r, way, s.code, d1, sp1)
      ensures MainYields(m, w, o, r, way, s2.code, d2, sp2)
    {
      ArrivesAtAll(m, w, o, l, j, sp1.tov, r, CarriedTo(d1, sp1.free, way.c));
      Discharged(m, w, o, r, s, j, i, k, l + 1);
      EmittedHere(w, s, j, i, k, l + 1);
      var r' := LoadStep(m, w, l, r, i, reg, d1, k);
      StepOn(m, w, o, State(l, r), State(l + 1, r'));
      ArrivesHere(m, w, o, l + 1, r');
      assert Main(m, w, o, r', way, s2.code, d2, sp2);
    }
  }

  lemma ArrivesHere(m: Machine, w: Frame, o: State, l: nat, r: Regs)
    requires Goes(m, w, o, State(l, r))
    ensures Arrives(m, w, o, l, [], r) && ArrivesWith(m, w, o, l, [], {}, r, None)
  {
  }

  lemma EmittedHere(w: Frame, s: Snap, j: seq<nat>, i: Instr, k: seq<Value>, n: nat)
    requires SnapOk(s) && |s.code| < n && Final(w, Emit(s, j, i).(k := k), n)
    ensures |s.code| < |w.code| && k <= w.k
    ensures |s.code| + 1 !in s.pend && Extends(i, w.code[|s.code|])
  {
    FinalAt(w, Emit(s, j, i).(k := k), n, |s.code|);
  }

  // ----- other changes of a descriptor -----

  /** An instruction with another target: `SETARG_A`. */
  function WithTarget(i: Instr, a: nat): Instr {
    match i
    case GetUpval(_, b) => GetUpval(a, b)
    case Arith(op, _, b, c) => Arith(op, a, b, c)
    case Unm(_, b) => Unm(a, b)
    case Not(_, b) => Not(a, b)
    case Len(_, b) => Len(a, b)
    case _ => i
  }

  lemma NoTestAt(s: Snap, n: nat)
    requires SnapOk(s) && n <= |s.code| && (n < |s.code| ==> !s.code[n].Jmp?)
    ensures n > 0 ==> !s.code[n - 1].TestSet?
  {
    if n > 0 && IsTest(s.code[n - 1]) { assert false; }
  }

  /** A change after the settled instructions. */
  lemma UnsettledLater(s: Snap, n: nat, t: Snap)
    requires n <= |s.code| && n <= |t.code| && s.k <= t.k && (n > 0 ==> !s.code[n - 1].TestSet?)
    requires forall x :: 0 <= x < n ==> t.code[x] == s.code[x] && (x in t.pend <==> x in s.pend)
    ensures Later(s, n, t, {})
  {
    forall x | 0 <= x < n
      ensures EvolvesAt(s.code, s.pend, t.code, t.pend, {}, x)
    {
      assert t.code[x] == s.code[x];
    }
  }

  lemma RelocTo(m: Machine, s: Snap, reg: nat, d1: Desc, sp: Span, d2: Desc)
    requires SnapOk(s) && sp.end == |s.code| >= 1 && d1.k.VRELOCABLE? && IsReloc(s.code[sp.end - 1])
      && sp.to == [] && sp.tov == {}
    requires sp.free <= reg < MAXSTACK && d2 == d1.(k := VNONRELOC(reg)) && sp.start < sp.end
    ensures var s2 := s.(code := s.code[sp.end - 1 := WithTarget(s.code[sp.end - 1], reg)]);
      MainTo(m, s.code, d1, sp, s2, d2, sp) && Later(s, sp.end - 1, s2, {})
  {
    hide Goes, Arrives, ArrivesWith;
    var l := sp.end - 1;
    var i := s.code[l];
    var s2 := s.(code := s.code[l := WithTarget(i, reg)]);
    NoTestAt(s, l);
    UnsettledLater(s, l, s2);
    forall w, o, r, way | Final(w, s2, l + 1) && |r| == MAXSTACK && Main(m, w, o, r, way, s.code, d1, sp)
      ensures MainYields(m, w, o, r, way, s2.code, d2, sp)
    {
      FinalAt(w, s2, l + 1, l);
      hide Final, SnapOk, Evolves;
      if way.Raised? {
        StepFails(m, w, o, State(l, r));
      } else {
        var r' := SetReg(r, reg, way.v);
        StepOn(m, w, o, State(l, r), State(l + 1, r'));
        ArrivesHere(m, w, o, l + 1, r');
        assert Keeps(r, r', sp.free, Idle(sp)) && Main(m, w, o, r', way, s2.code, d2, sp);
      }
    }
  }

  /** A variable outside the function is read by an instruction that can send it anywhere. */
  lemma UpvalTo(m: Machine, s: Snap, j: seq<nat>, d1: Desc, sp1: Span, d2: Desc, sp2: Span)
    requires SnapOk(s) && JumpsIn(s.code, j) && sp1.end == |s.code| && sp1.to == j && d1.k.VUPVAL?
    requires d2 == d1.(k := VRELOCABLE(|s.code|)) && sp2 == sp1.(end := |s.code| + 1, to := [], tov := {})
    requires sp1.start <= sp1.end
    ensures MainTo(m, s.code, d1, sp1, Emit(s, j, GetUpval(0, d1.k.info)), d2, sp2)
  {
    hide Goes, Arrives, ArrivesWith, SnapOk, JumpsIn, Patched;
    var i := GetUpval(0, d1.k.info);
    var s2 := Emit(s, j, i);
    var l := |s.code|;
    forall w, o, r, way | Final(w, s2, l) && |r| == MAXSTACK && Main(m, w, o, r, way, s.code, d1, sp1)
      ensures MainYields(m, w, o, r, way, s2.code, d2, sp2)
    {
      ArrivesAtAll(m, w, o, l, j, sp1.tov, r, way.c);
      Discharged(m, w, o, r, s, j, i, s.k, l);
      assert Main(m, w, o, r, way, s2.code, d2, sp2);
    }
  }

  /** Kinds whose value does not depend on registers may change to one with the same value. */
  lemma SameValueTo(m: Machine, s: Snap, d1: Desc, sp: Span, s2: Snap, d2: Desc)
    requires s2.code == s.code && s2.pend == s.pend
    requires !d1.k.VRELOCABLE? && !d1.k.VJMP? && !d2.k.VRELOCABLE? && !d2.k.VJMP?
    requires !d1.k.VNONRELOC? && (d2.k.VNONRELOC? ==> d2.k.info < sp.free)
    requires forall w: Frame, r :: s2.k <= w.k ==> ValueOf(w, r, d2) == ValueOf(w, r, d1)
    ensures MainTo(m, s.code, d1, sp, s2, d2, sp)
  {
    hide ArrivesWith, ValueOf;
    forall w, o, r, way | Final(w, s2, sp.end) && |r| == MAXSTACK && Main(m, w, o, r, way, s.code, d1, sp)
      ensures MainYields(m, w, o, r, way, s2.code, d2, sp)
    {
      assert ValueOf(w, r, d2) == ValueOf(w, r, d1);
      assert Keeps(r, r, sp.free, Idle(sp)) && Main(m, w, o, r, way, s2.code, d2, sp);
    }
  }
}
