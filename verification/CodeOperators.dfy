/** Operands that wait while the code of the other operand is generated, and the steps of
    `codearith`, `codecomp` and `luaK_posfix` (lua-5.1/lcode.c:656-775). */
module CodeOperators {
  import opened LuaVM
  import opened Expressions
  import opened PatchLists
  import opened ExpClaims
  import opened ExpSteps
  import opened ExpOperators
  import opened ExpLogic
  import opened ExpValues
  import opened CodeShape
  import opened CodeBranches

  /** Where the first operand ends and the second begins. */
  ghost predicate Adjoin(code: seq<Instr>, sp1: Span, sp2: Span, nactvar: nat) {
    && FallsOn(code, sp1, sp2) && sp1.end == sp2.start && sp1.to == sp2.from && sp1.tov == sp2.fromv
    && sp1.start <= sp1.end
        && nactvar <= sp1.free <= sp2.free
    && Own(sp2.from, sp1)
  }

  lemma GrownOuter(s: Snap, t: Snap, sp1: Span, sp2: Span)
    requires Grown(s, t, sp2) && BeginsAt(s.code, sp1) && BeginsAt(t.code, sp2) && sp1.start <= sp2.start
    requires Own(sp2.from, sp1)
    ensures Grown(s, t, sp1) && BeginsAt(t.code, sp1)
  {
    forall i | 0 <= i < sp1.start
      ensures EvolvesAt(s.code, s.pend, t.code, t.pend, Elems(sp1.from) * s.pend, i)
    {
      assert EvolvesAt(s.code, s.pend, t.code, t.pend, Elems(sp2.from) * s.pend, i);
    }
    if sp1.start > 0 { assert EvolvesAt(s.code, s.pend, t.code, t.pend, Elems(sp2.from) * s.pend, sp1.start - 1); }
    forall p | p in sp1.from
      ensures t.code[p].Jmp?
    {
      assert EvolvesAt(s.code, s.pend, t.code, t.pend, Elems(sp2.from) * s.pend, p);
    }
  }

  lemma GrownLater(s: Snap, t: Snap, sp: Span)
    requires Grown(s, t, sp) && BeginsAt(s.code, sp)
    ensures Later(s, sp.start, t, Elems(sp.from) * s.pend)
  {
  }

  /** The first operand, while the second is being compiled. */
  ghost predicate WaitsOk(m: Machine, s: Snap, d: Desc, sp1: Span, sp2: Span, x: Expr, nactvar: nat) {
    && Claim(m, s, d, sp1, Operand(x)) && CarryKnown(m, d, sp1, x) && d.tl == [] && d.fl == []
    && Adjoin(s.code, sp1, sp2, nactvar) && BeginsAt(s.code, sp1)
    && TrackedBefore(s.pend, sp1, sp2.start, Elems(sp2.from))
    && match d.k
       case VK(i) => i < |s.k| && i <= MAXINDEXRK && sp2.free == sp1.free
       case VKNUM(n) => !m.isnan(n) && sp2.free == sp1.free
       case VNONRELOC(r) => (r < nactvar && sp2.free == sp1.free) || (r == sp1.free && sp2.free == sp1.free + 1)
       case _ => false
  }

  lemma FallsKept(s: Snap, t: Snap, sp1: Span, sp2: Span)
    requires Grown(s, t, sp2) && FallsOn(s.code, sp1, sp2) && BeginsAt(t.code, sp2)
    ensures FallsOn(t.code, sp1, sp2)
  {
    if sp2.start > 0 { assert EvolvesAt(s.code, s.pend, t.code, t.pend, Elems(sp2.from) * s.pend, sp2.start - 1); }
  }

  lemma WaitsLater(m: Machine, s: Snap, t: Snap, d: Desc, sp1: Span, sp2: Span, x: Expr, nactvar: nat)
    requires WaitsOk(m, s, d, sp1, sp2, x, nactvar) && Grown(s, t, sp2) && BeginsAt(s.code, sp2)
    requires BeginsAt(t.code, sp2)
    requires PendingOk(s.code, s.pend)
    ensures WaitsOk(m, t, d, sp1, sp2, x, nactvar) && Grown(s, t, sp1)
  {
    hide Claim, Later, Grown, BeginsAt;
    GrownOuter(s, t, sp1, sp2);
    GrownLater(s, t, sp2);
    TrackedKept(s, t, sp1, sp2, Elems(sp2.from));
    FallsKept(s, t, sp1, sp2);
    ClaimLater(m, s, t, Elems(sp2.from) * s.pend, d, sp1, Operand(x));
  }

  /** A waiting number becomes a constant. */
  lemma WaitsConstant(m: Machine, s: Snap, k: seq<Value>, i: nat, d: Desc, sp1: Span, sp2: Span, x: Expr, nactvar: nat)
    requires WaitsOk(m, s, d, sp1, sp2, x, nactvar) && d.k.VKNUM? && s.k <= k && i < |k| && k[i] == Num(d.k.nval)
    requires i <= MAXINDEXRK
    requires SnapOk(s) && sp1.end <= |s.code| && (sp1.end > 0 ==> !s.code[sp1.end - 1].TestSet?)
    ensures WaitsOk(m, s.(k := k), d.(k := VK(i)), sp1, sp2, x, nactvar)
  {
    hide Claim;
    var s2, d2 := s.(k := k), d.(k := VK(i));
    EvolvesRefl(s.code, s.pend, sp1.end, {});
    forall w: Frame, r | s2.k <= w.k
      ensures ValueOf(w, r, d2) == ValueOf(w, r, d)
    {
      assert w.k[i] == k[i];
    }
    SameValueTo(m, s, d, sp1, s2, d2);
    ClaimMain(m, s, d, sp1, s2, d2, sp1, {}, Operand(x));
  }

  lemma RelocLists(s: Snap, sp: Span)
    requires BeginsAt(s.code, sp) && sp.end == |s.code| > sp.start && Tracked(s.pend, sp, {})
    ensures ListsOk(s, [], NO_JUMP, NO_JUMP, RelocDesc(sp.end - 1, [], []), sp)
  {
    NoList(s.code);
  }

  lemma JumpDescLists(s: Snap, sp: Span)
    requires BeginsAt(s.code, sp) && sp.end == |s.code| > sp.start + 1 && Tracked(s.pend, sp, {sp.end - 1})
    ensures ListsOk(s, [], NO_JUMP, NO_JUMP, JumpDesc(sp.end - 1, [], []), sp)
  {
    NoList(s.code);
  }

  lemma OperandHolds(m: Machine, s: Snap, d1: Desc, sp1: Span, sp2: Span, x: Expr, nactvar: nat, max: nat)
    requires WaitsOk(m, s, d1, sp1, sp2, x, nactvar) && !d1.k.VKNUM? && nactvar <= max && sp2.free <= max <= MAXSTACK
    ensures Holds(d1) && ValueStays(d1, sp2.free) && RkFits(OperandRk(d1), max, |s.k|)
  {
  }

  /** Both operands are ready: `codearith` emits the operation. */
  lemma ArithMeans(m: Machine, s: Snap, d1: Desc, sp1: Span, x: Expr, d2: Desc, sp2: Span, y: Expr, op: ArithOp,
                   nactvar: nat, nups: nat, max: nat)
    requires WaitsOk(m, s, d1, sp1, sp2, x, nactvar) && !d1.k.VKNUM? && Claim(m, s, d2, sp2, Operand(y)) && Holds(d2)
    requires WellFormed(m, y, nactvar, nups)
    requires ShapeOk(s, max, nups) && JumpsHere(s, sp2.to) && sp2.end == |s.code| && sp2.start <= sp2.end
    requires RkFits(OperandRk(d2), max, |s.k|)
    requires nactvar <= max && sp2.free <= max <= MAXSTACK && max > 0 && Own(sp2.to, sp1)
    requires Tracked(s.pend, sp2, Elems(sp2.to))
    ensures var i := Arith(op, 0, OperandRk(d1), OperandRk(d2));
      var s2, sp := Emit(s, sp2.to, i), Coded(Joined(sp1, sp2), 1);
      && ShapeOk(s2, max, nups) && ListsOk(s2, [], NO_JUMP, NO_JUMP, RelocDesc(sp2.end, [], []), sp)
      && Claim(m, s2, RelocDesc(sp2.end, [], []), sp, Whole(Binary(Arithmetical(op), x, y))) && Grown(s, s2, sp1)
  {
    hide ShapeOk, Claim, SnapOk, Grown, BeginsAt, OperandRk, Holds, Emit, RkFits, WellFormed;
    var i := Arith(op, 0, OperandRk(d1), OperandRk(d2));
    OperandHolds(m, s, d1, sp1, sp2, x, nactvar, max);
    ShapeSnap(s, max, nups);
    EmitShape(s, sp2.to, i, max, nups);
    NoTestAt(s, |s.code|);
    GrownEmit(s, |s.code|, sp2.to, i, sp1);
    ArithTo(m, s, d1, sp1, x, d2, sp2, y, op, nactvar, nups);
    BeginsJoined(Emit(s, sp2.to, i), sp1, sp2, 1);
    EmitSize(s, sp2.to, i);
    TrackedBoth(s.pend, sp1, sp2, {}, Elems(sp2.to), Joined(sp1, sp2));
    EmitPend(s, sp2.to, i, Joined(sp1, sp2));
    RelocLists(Emit(s, sp2.to, i), Coded(Joined(sp1, sp2), 1));
  }

  lemma BeginsJoined(s: Snap, sp1: Span, sp2: Span, n: nat)
    requires BeginsAt(s.code, sp1)
    ensures BeginsAt(s.code, Coded(Joined(sp1, sp2), n)) && BeginsAt(s.code, Joined(sp1, sp2))
  {
  }

  /** What was to lead here no longer waits. */
  lemma EmitPend(s: Snap, j: seq<nat>, i: Instr, sp: Span)
    requires Tracked(s.pend, sp, Elems(j))
    ensures Tracked(Emit(s, j, i).pend, Coded(sp, 1), {})
  {
  }

  lemma EmitSize(s: Snap, j: seq<nat>, i: Instr)
    ensures |Emit(s, j, i).code| == |s.code| + 1 && Emit(s, j, i).k == s.k
  {
  }

  lemma CompareMeans(m: Machine, s: Snap, d1: Desc, sp1: Span, x: Expr, d2: Desc, sp2: Span, y: Expr, op: BinOpr,
                     nactvar: nat, nups: nat, max: nat)
    requires IsComparison(op)
    requires WaitsOk(m, s, d1, sp1, sp2, x, nactvar) && !d1.k.VKNUM? && Claim(m, s, d2, sp2, Operand(y)) && Holds(d2)
    requires WellFormed(m, y, nactvar, nups)
    requires ShapeOk(s, max, nups) && JumpsHere(s, sp2.to) && sp2.end == |s.code| && sp2.start <= sp2.end
    requires RkFits(OperandRk(d2), max, |s.k|)
    requires nactvar <= max && sp2.free <= max <= MAXSTACK && Own(sp2.to, sp1)
    requires Tracked(s.pend, sp2, Elems(sp2.to))
    ensures var i := CompareInstr(op, OperandRk(d1), OperandRk(d2));
      var s2, sp := EmitTest(s, sp2.to, i), Coded(Joined(sp1, sp2), 2);
      && ShapeOk(s2, max, nups) && ListsOk(s2, [], NO_JUMP, NO_JUMP, JumpDesc(sp2.end + 1, [], []), sp)
      && Claim(m, s2, JumpDesc(sp2.end + 1, [], []), sp, Whole(Binary(op, x, y))) && Grown(s, s2, sp1)
  {
    hide ShapeOk, Claim, SnapOk, Grown, BeginsAt, OperandRk, Holds, EmitTest, RkFits, CompareInstr, WellFormed;
    var i := CompareInstr(op, OperandRk(d1), OperandRk(d2));
    OperandHolds(m, s, d1, sp1, sp2, x, nactvar, max);
    ShapeSnap(s, max, nups);
    CompareFits(op, OperandRk(d1), OperandRk(d2), max, |s.k|, nups);
    EmitTestShape(s, sp2.to, i, max, nups);
    NoTestAt(s, |s.code|);
    GrownEmitTest(s, |s.code|, sp2.to, i, sp1);
    CompareTo(m, s, d1, sp1, x, d2, sp2, y, op, nactvar, nups);
    BeginsJoined(EmitTest(s, sp2.to, i), sp1, sp2, 2);
    TestSize(s, sp2.to, i);
    TrackedBoth(s.pend, sp1, sp2, {}, Elems(sp2.to), Joined(sp1, sp2));
    TestPend(s, sp2.to, i, Joined(sp1, sp2), {});
    JumpDescLists(EmitTest(s, sp2.to, i), Coded(Joined(sp1, sp2), 2));
  }

  lemma CompareFits(op: BinOpr, o1: nat, o2: nat, max: nat, nk: nat, nups: nat)
    requires IsComparison(op) && RkFits(o1, max, nk) && RkFits(o2, max, nk)
    ensures Fits(CompareInstr(op, o1, o2), true, max, nk, nups) && CompareInstr(op, o1, o2).Cmp?
    ensures CompareInstr(op, o1, o2).a <= 1
  {
  }

  /** The ends of the second span do not matter to the first operand. */
  lemma WaitsSpan(m: Machine, s: Snap, d1: Desc, sp1: Span, sp2: Span, sp2': Span, x: Expr, nactvar: nat)
    requires WaitsOk(m, s, d1, sp1, sp2, x, nactvar) && SameStart(sp2, sp2')
    ensures WaitsOk(m, s, d1, sp1, sp2', x, nactvar)
  {
  }

  /** An operand leaves no jumps of its own. */
  lemma OperandTracked(s: Snap, jl: seq<nat>, t: int, f: int, d: Desc, sp: Span)
    requires ListsOk(s, jl, t, f, d, sp) && Holds(d)
    ensures Tracked(s.pend, sp, Elems(jl))
  {
    hide OwnList, BeginsAt;
  }

  lemma ListsFacts2(m: Machine, s: Snap, d1: Desc, sp1: Span, d2: Desc, sp2: Span, x: Expr, jl: seq<nat>, t: int,
                    f: int, a2: Span, nactvar: nat)
    requires WaitsOk(m, s, d1, sp1, sp2, x, nactvar) && ListsOk(s, jl, t, f, d2, a2)
    requires SameStart(sp2, a2) && Settled(d2, a2.end) <= a2.end
    ensures d1.tl == [] && d1.fl == [] && Own(jl, sp1) && sp2.start <= a2.end && nactvar <= sp1.free
        && Adjoin(s.code, sp1, sp2, nactvar)
  {
  }

  lemma ClaimConstants(m: Machine, s: Snap, k: seq<Value>, d: Desc, sp: Span, x: Meaning)
    requires Claim(m, s, d, sp, x) && s.k <= k
    ensures Claim(m, s.(k := k), d, sp, x)
  {
    hide Compat, Starts, Yields, Means;
    forall w, o, r0, c | Final(w, s.(k := k), Settled(d, sp.end)) && Starts(m, w, o, r0, c, sp)
      ensures Yields(m, w, o, r0, Means(m, w.up, r0, x, c), s.code, d, sp)
    {
      assert Final(w, s, Settled(d, sp.end));
    }
  }

  lemma FoldLists(s: Snap, jl: seq<nat>, d: Desc, sp1: Span, sp2: Span)
    requires d.tl == [] && d.fl == [] && d.k.VKNUM? && BeginsAt(s.code, sp1) && Own(jl, sp2) && Own(sp2.from, sp1)
    requires sp1.start <= sp2.start
    requires sp1.start <= sp1.end && Tracked(s.pend, sp1, Elems(jl))
    ensures ListsOk(s, jl, NO_JUMP, NO_JUMP, d, sp1)
  {
    NoList(s.code);
  }

  lemma CompareShape(op: BinOpr, o1: nat, o2: nat)
    requires IsComparison(op)
    ensures CompareInstr(op, o1, o2).Cmp? && CompareInstr(op, o1, o2).a <= 1
  {
  }

  /** The negation of a number is a number, as in IEEE arithmetic. */
  ghost predicate NegationOk(m: Machine) {
    forall n :: !m.isnan(n) ==> !m.isnan(m.unm(n))
  }

  lemma UnaryMeans(m: Machine, s: Snap, t: int, f: int, d: Desc, sp: Span, x: Expr, op: UnOpr, max: nat, nups: nat)
    requires ShapeOk(s, max, nups) && JumpsHere(s, sp.to) && ListsOk(s, sp.to, t, f, d, sp)
      && Claim(m, s, d, sp, Operand(x)) && op != Negate
    requires sp.end == |s.code|
    requires d.k.VNONRELOC? && d.k.info < max && max > 0 && d.tl == [] && d.fl == []
    ensures var i := UnaryInstr(op, d.k.info);
      var s2, d2 := Emit(s, sp.to, i), RelocDesc(sp.end, [], []);
      && ShapeOk(s2, max, nups) && ListsOk(s2, [], NO_JUMP, NO_JUMP, d2, Coded(sp, 1))
      && Claim(m, s2, d2, Coded(sp, 1), Whole(Unary(op, x)))
      && Grown(s, s2, sp)
  {
    hide ShapeOk, Claim, SnapOk, Grown, BeginsAt, Emit, ListsOk;
    var i := UnaryInstr(op, d.k.info);
    BeginsHere(s, sp.to, t, f, d, sp);
    ShapeSnap(s, max, nups);
    EmitShape(s, sp.to, i, max, nups);
    NoTestAt(s, |s.code|);
    GrownEmit(s, |s.code|, sp.to, i, sp);
    UnaryTo(m, s, d, sp, x, op);
    EmitSize(s, sp.to, i);
    TrackedOf(s, sp.to, t, f, d, sp);
    EmitPend(s, sp.to, i, sp);
    BeginsCoded(Emit(s, sp.to, i), sp, 1);
    RelocLists(Emit(s, sp.to, i), Coded(sp, 1));
  }

  lemma BeginsCoded(s: Snap, sp: Span, n: nat)
    requires BeginsAt(s.code, sp)
    ensures BeginsAt(s.code, Coded(sp, n))
  {
  }

  // ----- and, or -----

  /** The first operand of `and` or `or` has decided, and its list waits. */
  ghost predicate BranchWaits(m: Machine, s: Snap, head: int, l: seq<nat>, sp1: Span, sp2: Span, x: Expr, sense: bool,
                              nactvar: nat) {
    && Branch(m, s, l, sp1, x, sense) && IsList(s.code, head, l) && Elems(l) <= s.pend
    && Apart(l, sp2.from) && Untouched(l, sp2.start, {}) && Own(l, sp1) && (l != [] ==> sp1.start < sp2.start)
    && BeginsAt(s.code, sp1) && Adjoin(s.code, sp1, sp2, nactvar) && sp1.free == sp2.free && sp1.valued && sp2.valued
    && TrackedBefore(s.pend, sp1, sp2.start, Elems(sp2.from) + Elems(l))
  }

  lemma BranchWaitsLater(m: Machine, s: Snap, t: Snap, head: int, l: seq<nat>, sp1: Span, sp2: Span, x: Expr,
                         sense: bool, nactvar: nat)
    requires BranchWaits(m, s, head, l, sp1, sp2, x, sense, nactvar) && Grown(s, t, sp2) && BeginsAt(s.code, sp2)
    requires BeginsAt(t.code, sp2)
    requires PendingOk(s.code, s.pend)
    ensures BranchWaits(m, t, head, l, sp1, sp2, x, sense, nactvar) && Grown(s, t, sp1)
  {
    hide Branch, Later, Grown, BeginsAt, IsList, Evolves;
    var touched := Elems(sp2.from) * s.pend;
    GrownOuter(s, t, sp1, sp2);
    GrownLater(s, t, sp2);
    assert Untouched(l, sp2.start, touched);
    ListKept(s.code, s.pend, sp2.start, t.code, t.pend, touched, head, l);
    StillPending(s, t, sp2, l);
    TrackedKept(s, t, sp1, sp2, Elems(sp2.from) + Elems(l));
    FallsKept(s, t, sp1, sp2);
    BranchLater(m, s, t, touched, l, sp1, x, sense);
  }

  lemma StillPending(s: Snap, t: Snap, sp: Span, l: seq<nat>)
    requires Grown(s, t, sp) && Elems(l) <= s.pend && Apart(l, sp.from) && Untouched(l, sp.start, {})
    ensures Elems(l) <= t.pend
  {
    forall p | p in l
      ensures p in t.pend
    {
      assert p in Elems(l);
      assert EvolvesAt(s.code, s.pend, t.code, t.pend, Elems(sp.from) * s.pend, p);
    }
  }

  /** The lists of both operands lie apart. */
  lemma LogicLists(m: Machine, s: Snap, jl: seq<nat>, head: int, l: seq<nat>, sp1: Span, t2: int, f2: int, d2: Desc,
                   sp2: Span, x: Expr, sense: bool, nactvar: nat)
    requires BranchWaits(m, s, head, l, sp1, sp2, x, sense, nactvar) && ListsOk(s, jl, t2, f2, d2, sp2)
    ensures Apart(l, d2.tl) && Apart(l, d2.fl) && Apart(l, jl) && Own(jl, sp1) && Own(d2.tl, sp1) && Own(d2.fl, sp1)
    ensures sp2.start <= Settled(d2, sp2.end) && Untouched(l, Settled(d2, sp2.end), {})
    ensures (l != [] ==> l[|l| - 1] < sp2.start) && IsList(s.code, t2, d2.tl) && IsList(s.code, f2, d2.fl)
    ensures IsList(s.code, head, l)
    ensures Elems(d2.tl) <= s.pend && Elems(d2.fl) <= s.pend && Apart(d2.tl, d2.fl) && Apart(d2.tl, jl)
    ensures Apart(d2.fl, jl)
    ensures Untouched(d2.tl, Settled(d2, sp2.end), {}) && Untouched(d2.fl, Settled(d2, sp2.end), {})
    ensures l != [] || d2.tl != [] || d2.fl != [] ==> sp1.start < Settled(d2, sp2.end)
  {
    hide Branch, IsList, BeginsAt;
    if l != [] { assert l[|l| - 1] in l; }
  }

  function LogicDesc(d2: Desc, l: seq<nat>, sense: bool): Desc {
    if sense then d2.(fl := l + d2.fl) else d2.(tl := l + d2.tl)
  }

  function Joining2(d2: Desc, sense: bool): seq<nat> {
    if sense then d2.fl else d2.tl
  }

  /** Both operands of `and` or `or` have been compiled. */
  lemma LogicClaim(m: Machine, s: Snap, jl: seq<nat>, head: int, l: seq<nat>, sp1: Span, t2: int, f2: int, d2: Desc,
                   sp2: Span,
                   x: Expr, y: Expr, sense: bool, nactvar: nat, nups: nat)
    requires BranchWaits(m, s, head, l, sp1, sp2, x, sense, nactvar) && ListsOk(s, jl, t2, f2, d2, sp2)
    requires Claim(m, s, d2, sp2, Whole(y))
    requires WellFormed(m, y, nactvar, nups)
    ensures Claim(m, s, LogicDesc(d2, l, sense), Joined(sp1, sp2),
                  Whole(Binary(if sense then And else Or, x, y)))
  {
    hide Claim, Branch, ListsOk, BranchWaits, IsList, Own, Apart, Untouched, WellFormed;
    BranchParts(m, s, head, l, sp1, sp2, x, sense, nactvar);
    LogicLists(m, s, jl, head, l, sp1, t2, f2, d2, sp2, x, sense, nactvar);
    AndTo(m, s, l, sp1, x, d2, sp2, y, sense, nactvar, nups);
  }

  /** Their lists are joined. */
  lemma LogicLinked(m: Machine, s: Snap, l: seq<nat>, d2: Desc, sense: bool, sp1: Span, sp: Span, x: Meaning, s2: Snap,
                    max: nat, nups: nat)
    requires Claim(m, s, LogicDesc(d2, l, sense), sp, x) && ShapeOk(s, max, nups) && JumpsIn(s.code, l)
    requires Elems(l) <= s.pend && Own(l, sp1)
    requires BeginsAt(s.code, sp1) && (l != [] ==> l[|l| - 1] < |s.code|) && sp.end == |s.code|
    requires s2 == s.(code := Linked(s.code, l, Joining2(d2, sense)))
    requires (d2.k.VRELOCABLE? ==> sp.end >= 1 && IsReloc(s.code[sp.end - 1]))
    requires (d2.k.VJMP? ==> sp.end >= 2 && s.code[sp.end - 2].Cmp?)
    ensures Claim(m, s2, LogicDesc(d2, l, sense), sp, x) && ShapeOk(s2, max, nups) && Grown(s, s2, sp1)
    ensures BeginsAt(s2.code, sp1) && Relinked(s, s2)
  {
    hide Claim, ShapeOk, Linked;
    var d := LogicDesc(d2, l, sense);
    LinkedRelinked(s, l, Joining2(d2, sense), s2, sp1);
    RelinkedShape(s, s2, max, nups);
    RelinkedEnd(s, s2, d2, sp.end);
    ClaimRelinked(m, s, d, s2, d, sp, x);
  }

  lemma BranchParts(m: Machine, s: Snap, head: int, l: seq<nat>, sp1: Span, sp2: Span, x: Expr, sense: bool,
                    nactvar: nat)
    requires BranchWaits(m, s, head, l, sp1, sp2, x, sense, nactvar)
    ensures Branch(m, s, l, sp1, x, sense) && Elems(l) <= s.pend && Own(l, sp1) && BeginsAt(s.code, sp1)
    ensures sp1.free == sp2.free && sp1.valued && sp2.valued && Adjoin(s.code, sp1, sp2, nactvar)
    ensures TrackedBefore(s.pend, sp1, sp2.start, Elems(sp2.from) + Elems(l))
  {
  }

  lemma RelinkedEnd(s: Snap, t: Snap, d: Desc, end: nat)
    requires Relinked(s, t) && end == |s.code|
    requires (d.k.VRELOCABLE? ==> end >= 1 && IsReloc(s.code[end - 1]))
    requires (d.k.VJMP? ==> end >= 2 && s.code[end - 2].Cmp?)
    ensures d.k.VRELOCABLE? ==> InstrAt(t.code, end - 1) == InstrAt(s.code, end - 1)
    ensures d.k.VJMP? ==> InstrAt(t.code, end - 2) == InstrAt(s.code, end - 2)
  {
  }

  lemma LogicOwn(s: Snap, jl: seq<nat>, t2: int, f2: int, d2: Desc, l: seq<nat>, sense: bool, sp1: Span, sp2: Span,
                 s2: Snap, head2: int)
    requires IsList(s2.code, head2, l + Joining2(d2, sense))
    requires IsList(s2.code, if sense then t2 else f2, if sense then d2.tl else d2.fl)
    requires s2.pend == s.pend && Elems(l) <= s.pend && Elems(d2.tl) <= s.pend && Elems(d2.fl) <= s.pend
    requires Apart(l, d2.tl) && Apart(l, d2.fl) && Apart(l, jl) && Apart(d2.tl, jl) && Apart(d2.fl, jl)
    requires Apart(d2.tl, d2.fl)
    requires Own(l, sp1) && Own(d2.tl, sp1) && Own(d2.fl, sp1) && Own(jl, sp1) && BeginsAt(s2.code, sp1)
    requires Untouched(l, Settled(d2, sp2.end), {}) && Untouched(d2.tl, Settled(d2, sp2.end), {})
    requires Untouched(d2.fl, Settled(d2, sp2.end), {})
    requires sp1.start <= Settled(d2, sp2.end) && Tracked(s2.pend, sp1, Elems(l) + Pending(jl, d2))
    requires l != [] || d2.tl != [] || d2.fl != [] ==> sp1.start < Settled(d2, sp2.end)
    ensures ListsOk(s2, jl, if sense then t2 else head2, if sense then head2 else f2, LogicDesc(d2, l, sense),
        Joined(sp1, sp2))
  {
    hide IsList;
    var more := Joining2(d2, sense);
    assert Elems(l + more) == Elems(l) + Elems(more);
    assert Apart(l + more, jl) && Own(l + more, sp1) && Untouched(l + more, Settled(d2, sp2.end), {});
    assert Apart(LogicDesc(d2, l, sense).tl, LogicDesc(d2, l, sense).fl);
  }

  lemma BranchSpan(m: Machine, s: Snap, head: int, l: seq<nat>, sp1: Span, sp2: Span, sp2': Span, x: Expr, sense: bool,
                   nactvar: nat)
    requires BranchWaits(m, s, head, l, sp1, sp2, x, sense, nactvar) && SameStart(sp2, sp2')
    ensures BranchWaits(m, s, head, l, sp1, sp2', x, sense, nactvar)
  {
    hide Branch, IsList, BeginsAt, Own, Untouched;
  }

  /** Everything about the code after the lists have been joined. */
  lemma LogicDone(m: Machine, s: Snap, jl: seq<nat>, head: int, l: seq<nat>, sp1: Span, t2: int, f2: int, d2: Desc,
                  sp2: Span,
                  x: Expr, y: Expr, sense: bool, nactvar: nat, sp: Span, s2: Snap, head2: int, jpc: int, max: nat,
                      nups: nat)
    requires BranchWaits(m, s, head, l, sp1, sp2, x, sense, nactvar) && ListsOk(s, jl, t2, f2, d2, sp2)
    requires IsList(s.code, jpc, jl)
    requires Claim(m, s, LogicDesc(d2, l, sense), sp, Whole(Binary(if sense then And else Or, x, y)))
      && sp == Joined(sp1, sp2)
    requires ShapeOk(s, max, nups) && sp2.end == |s.code| && (l != [] ==> l[|l| - 1] < |s.code|)
    requires s2 == s.(code := Linked(s.code, l, Joining2(d2, sense))) && IsList(s2.code, head2, l + Joining2(d2, sense))
    requires (d2.k.VRELOCABLE? ==> sp2.end >= 1 && IsReloc(s.code[sp2.end - 1]))
    requires (d2.k.VJMP? ==> sp2.end >= 2 && s.code[sp2.end - 2].Cmp?)
    ensures ListsOk(s2, jl, if sense then t2 else head2, if sense then head2 else f2, LogicDesc(d2, l, sense), sp)
    ensures Claim(m, s2, LogicDesc(d2, l, sense), sp, Whole(Binary(if sense then And else Or, x, y)))
      && ShapeOk(s2, max, nups)
    ensures Grown(s, s2, sp)
    ensures IsList(s2.code, jpc, jl) && |s2.code| == |s.code| && ValueJumps(s2.code, jl) == ValueJumps(s.code, jl)
    ensures forall i :: 0 <= i < |s.code| ==> s2.code[i] == s.code[i] || (i < Settled(d2, sp2.end) && s2.code[i].Jmp?)
  {
    hide Claim, BranchWaits, ListsOk, ShapeOk, Linked, IsList, BeginsAt, Grown, Relinked, ValueJumps;
    BranchParts(m, s, head, l, sp1, sp2, x, sense, nactvar);
    LogicLists(m, s, jl, head, l, sp1, t2, f2, d2, sp2, x, sense, nactvar);
    ListJumps(s.code, head, l);
    LogicLinked(m, s, l, d2, sense, sp1, sp, Whole(Binary(if sense then And else Or, x, y)), s2, max, nups);
    ValuesRelinked(s, s2, jl);
    LogicBeside(s, l, Joining2(d2, sense), if sense then t2 else f2, if sense then d2.tl else d2.fl, jpc, jl,
                sp2.start);
    TrackedOf(s, jl, t2, f2, d2, sp2);
    TrackedBoth(s.pend, sp1, sp2, Elems(l), Pending(jl, d2), sp1);
    LogicOwn(s, jl, t2, f2, d2, l, sense, sp1, sp2, s2, head2);
    GrownSpan(s, s2, sp1, sp);
  }

  lemma LogicBeside(s: Snap, l: seq<nat>, more: seq<nat>, head: int, other: seq<nat>, jpc: int, jl: seq<nat>, n: nat)
    requires IsList(s.code, head, other) && IsList(s.code, jpc, jl) && Apart(l, other) && Apart(l, jl) && n <= |s.code|
    requires l != [] ==> l[|l| - 1] < n
    ensures IsList(Linked(s.code, l, more), head, other) && IsList(Linked(s.code, l, more), jpc, jl)
    ensures |Linked(s.code, l, more)| == |s.code|
    ensures forall i ::
      0 <= i < |s.code| ==> Linked(s.code, l, more)[i] == s.code[i] || (i < n && Linked(s.code, l, more)[i].Jmp?)
  {
    LinkedBeside(s, l, more, head, other);
    LinkedBeside(s, l, more, jpc, jl);
  }

  // ----- leaves -----

  /** The descriptors of expressions that need no code. */
  predicate IsLeaf(kind: ExpKind, x: Expr, k: seq<Value>) {
    match x
    case NilE => kind == VNIL
    case TrueE => kind == VTRUE
    case FalseE => kind == VFALSE
    case Numeral(n) => kind == VKNUM(n)
    case Text(s) => kind.VK? && kind.info < |k| && k[kind.info] == Str(s)
    case Local(r) => kind == VLOCAL(r)
    case Upvalue(u) => kind == VUPVAL(u)
    case _ => false
  }

  lemma LeafClaim(m: Machine, s: Snap, d: Desc, sp: Span, x: Expr)
    requires IsLeaf(d.k, x, s.k) && d.tl == [] && d.fl == [] && sp.end == sp.start && sp.to == sp.from
    requires sp.tov == sp.fromv
    ensures Claim(m, s, d, sp, Whole(x))
  {
    hide ArrivesWith;
    forall w, o, r0, c | Final(w, s, sp.end) && Starts(m, w, o, r0, c, sp)
      ensures Yields(m, w, o, r0, Means(m, w.up, r0, Whole(x), c), s.code, d, sp)
    {
      if d.k.VK? { assert w.k[d.k.info] == s.k[d.k.info]; }
      assert Eval(m, w.up, r0, x) == Some(ValueOf(w, r0, d));
      assert WayOf(m, w.up, r0, x, c) == Fell(ValueOf(w, r0, d), c);
      assert Keeps(r0, r0, sp.free, Idle(sp));
      MainYield(m, w, o, r0, r0, WayOf(m, w.up, r0, x, c), s.code, d, sp);
    }
  }

  lemma LeafLists(s: Snap, jl: seq<nat>, d: Desc, sp: Span)
    requires d.tl == [] && d.fl == [] && !d.k.VJMP? && !d.k.VRELOCABLE? && BeginsAt(s.code, sp) && Own(jl, sp)
    requires sp.start == sp.end
    requires sp.start == |s.code| && sp.from == jl && PendingOk(s.code, s.pend)
    ensures ListsOk(s, jl, NO_JUMP, NO_JUMP, d, sp)
  {
    NoList(s.code);
  }

  lemma SameMeaning(m: Machine, s: Snap, d: Desc, sp: Span, x: Expr, sp': Span, x': Expr)
    requires Claim(m, s, d, sp, Whole(x)) && (x' == x || x' == Paren(x)) && (sp' == sp || sp' == sp.(valued := false))
    ensures Claim(m, s, d, sp', Whole(x'))
  {
    hide Final, Fails, ArrivesWith, Keeps, AtJump, Main;
    forall w, o, r0, c | Final(w, s, Settled(d, sp'.end)) && Starts(m, w, o, r0, c, sp')
      ensures Yields(m, w, o, r0, Means(m, w.up, r0, Whole(x'), c), s.code, d, sp')
    {
      StartsSame(m, w, o, r0, c, sp', sp);
      var way := Means(m, w.up, r0, Whole(x), c);
      assert Means(m, w.up, r0, Whole(x'), c) == way;
      if !Raises(m, w, o, way) {
        var r :| YieldsWith(m, w, o, r0, r, way, s.code, d, sp);
        MainSpan(m, w, o, r, way, s.code, d, sp, sp');
        hide Claim, Starts, WayOf;
        assert YieldsWith(m, w, o, r0, r, way, s.code, d, sp');
      }
    }
  }

  lemma SameLists(s: Snap, jl: seq<nat>, t: int, f: int, d: Desc, sp: Span, sp': Span)
    requires ListsOk(s, jl, t, f, d, sp) && sp' == sp.(valued := sp'.valued)
    ensures ListsOk(s, jl, t, f, d, sp')
  {
  }
}
