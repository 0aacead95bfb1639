/** What the code generated so far says about the value of an expression: the meaning of
    an expression descriptor (lua-5.1/lparser.h, `expdesc`) with its patch lists. */
module ExpClaims {
  import opened LuaVM
  import opened Expressions
  import opened PatchLists

  /** Where the value of an expression is. */
  datatype ExpKind =
    | VNIL | VTRUE | VFALSE
    | VK(info: nat)          // the constant at this index
    | VKNUM(nval: Number)    // a number that is not a constant of the function yet
    | VLOCAL(info: nat)      // a local variable
    | VUPVAL(info: nat)      // an upvalue
    | VJMP(info: nat)        // true if the jump at this position is taken
    | VRELOCABLE(info: nat)  // the instruction at this position can put it in any register
    | VNONRELOC(info: nat)   // a register

  /** The contents of a descriptor. `tl` and `fl` are the jumps of its lists `t` and `f`. */
  datatype Desc = Desc(k: ExpKind, tl: seq<nat>, fl: seq<nat>)

  /** Code under construction, its pending jumps and its constants. */
  datatype Snap = Snap(code: seq<Instr>, pend: set<nat>, k: seq<Value>)

  /** The stretch of code of an expression: it begins at `start`, where the jumps `from`
      lead, and ends before `end`, where the jumps `to` will lead; of those jumps, `fromv`
      and `tov` can copy values. If `falls`, control comes to its beginning only from the
      instruction before. Registers below `free` are not its own. What the jumps of its
      lists copy is known if `valued`. */
  datatype Span = Span(start: nat, from: seq<nat>, fromv: set<nat>, end: nat, to: seq<nat>, tov: set<nat>, falls: bool,
    free: nat, valued: bool)

  /** The expression has no code yet. */
  predicate Idle(sp: Span) {
    sp.end <= sp.start
  }

  /** The last instructions of some kinds of expression are not settled yet. */
  function Settled(d: Desc, end: nat): nat {
    if d.k.VJMP? then if end >= 2 then end - 2 else 0
    else if d.k.VRELOCABLE? then if end >= 1 then end - 1 else 0
    else end
  }

  function InstrAt(code: seq<Instr>, i: int): Instr {
    if 0 <= i < |code| then code[i] else Return(0, 0)
  }

  /** Registers from `free` on are nil, as they are when a function starts. */
  ghost predicate Clean(r: Regs, free: nat) {
    forall x :: free <= x < |r| ==> r[x] == Nil
  }

  /** The registers when control enters the expression: at the start of a function they
      are clean, and just after an `OP_LOADNIL` it has set its own. */
  ghost predicate Entered(w: Frame, r: Regs, sp: Span) {
    && (sp.start == 0 ==> Clean(r, sp.free))
    && (sp.falls && 0 < sp.start <= |w.code| && w.code[sp.start - 1].LoadNil? ==> NilsSet(w.code[sp.start - 1], r))
  }

  ghost predicate NilsSet(i: Instr, r: Regs)
    requires i.LoadNil?
  {
    forall x :: i.a <= x <= i.b && x < |r| ==> r[x] == Nil
  }

  ghost predicate Keeps(r0: Regs, r: Regs, free: nat, idle: bool) {
    && |r| == |r0| && (forall x :: 0 <= x < free && x < |r| ==> r[x] == r0[x])
    && (idle ==> r == r0)
  }

  ghost predicate Final(w: Frame, s: Snap, n: nat) {
    Compat(w.code, s.code, n, s.pend) && s.k <= w.k
  }

  /** What the jump that led here copies no longer matters once there is code of one's own. */
  function CarriedTo(d: Desc, free: nat, c: Option<Value>): Option<Value> {
    if d.k.VNONRELOC? && d.k.info >= free then None else c
  }

  /** The value of a comparison that decides so. */
  function AsValue(truth: Option<bool>): Option<Value> {
    match truth case None => None case Some(b) => Some(Bool(b))
  }

  /** A run has come through the code of the expression, in the way `way`, without taking a
      jump of its lists. */
  ghost predicate Main(m: Machine, w: Frame, o: State, r: Regs, way: Way, code: seq<Instr>, d: Desc, sp: Span) {
    !way.Left? &&
    match d.k
    case VRELOCABLE(_) =>
      sp.end >= 1 && Goes(m, w, o, State(sp.end - 1, r)) && Produces(m, w, r, InstrAt(code, sp.end - 1)) == ValueIn(way)
    case VJMP(_) =>
      && sp.end >= 2 && Goes(m, w, o, State(sp.end - 2, r))
      && ValueIn(way) == AsValue(Accepts(m, w, r, InstrAt(code, sp.end - 2)))
    case _ =>
      way.Fell? && way.v == ValueOf(w, r, d)
      && ArrivesWith(m, w, o, sp.end, sp.to, sp.tov, r, CarriedTo(d, sp.free, way.c))
  }

  /** The value of a descriptor that is neither relocatable nor a jump. */
  function ValueOf(w: Frame, r: Regs, d: Desc): Value {
    match d.k
    case VTRUE => Bool(true)
    case VFALSE => Bool(false)
    case VK(i) => Kst(w, i)
    case VKNUM(n) => Num(n)
    case VLOCAL(i) => Reg(r, i)
    case VNONRELOC(i) => Reg(r, i)
    case VUPVAL(i) => Upval(w, i)
    case _ => Nil
  }

  ghost predicate Raises(m: Machine, w: Frame, o: State, way: Way) {
    way.Raised? && Fails(m, w, o)
  }

  /** A run has left through one of the lists. */
  ghost predicate Leaves(m: Machine, w: Frame, o: State, r: Regs, way: Way, code: seq<Instr>, d: Desc, valued: bool) {
    way.Left? && ExitsWith(m, w, o, code, if way.side then d.tl else d.fl, r, way.c, valued)
  }

  ghost predicate YieldsWith(m: Machine, w: Frame, o: State, r0: Regs, r: Regs, way: Way, code: seq<Instr>, d: Desc,
                             sp: Span) {
    && Keeps(r0, r, sp.free, Idle(sp))
    && (Main(m, w, o, r, way, code, d, sp) || Leaves(m, w, o, r, way, code, d, sp.valued))
  }

  ghost predicate Yields(m: Machine, w: Frame, o: State, r0: Regs, way: Way, code: seq<Instr>, d: Desc, sp: Span) {
    Raises(m, w, o, way) || exists r :: YieldsWith(m, w, o, r0, r, way, code, d, sp)
  }

  /** A run enters the expression, by a jump that can copy `c` or by none. */
  ghost predicate Starts(m: Machine, w: Frame, o: State, r0: Regs, c: Option<Value>, sp: Span) {
    && |r0| == MAXSTACK && ArrivesWith(m, w, o, sp.start, sp.from, sp.fromv, r0, c)
    && Entered(w, r0, sp)
  }

  /** Whatever the finished code, the run of the expression's code does what it means as the
      descriptor says. */
  ghost predicate Claim(m: Machine, s: Snap, d: Desc, sp: Span, x: Meaning) {
    forall w, o, r0, c :: Final(w, s, Settled(d, sp.end)) && Starts(m, w, o, r0, c, sp) ==>
      Yields(m, w, o, r0, Means(m, w.up, r0, x, c), s.code, d, sp)
  }

  /** A run comes to the end of the expression. */
  ghost predicate Ends(m: Machine, w: Frame, o: State, r: Regs, c: Option<Value>, sp: Span) {
    if sp.valued then ArrivesWith(m, w, o, sp.end, sp.to, sp.tov, r, c) else Arrives(m, w, o, sp.end, sp.to, r)
  }

  ghost predicate DecidesWith(m: Machine, w: Frame, o: State, r0: Regs, r: Regs, way: Way, code: seq<Instr>,
                              l: seq<nat>, sp: Span, sense: bool) {
    && Keeps(r0, r, sp.free, Idle(sp)) && way.Left?
    && if way.side == sense then Ends(m, w, o, r, way.c, sp) else ExitsWith(m, w, o, code, l, r, way.c, sp.valued)
  }

  /** The run goes on if the truth of the value is `sense`, and leaves through the jumps
      `l` otherwise. */
  ghost predicate Decides(m: Machine, w: Frame, o: State, r0: Regs, way: Way, code: seq<Instr>, l: seq<nat>, sp: Span,
                          sense: bool) {
    Raises(m, w, o, way) || exists r :: DecidesWith(m, w, o, r0, r, way, code, l, sp, sense)
  }

  ghost predicate Branch(m: Machine, s: Snap, l: seq<nat>, sp: Span, e: Expr, sense: bool) {
    forall w, o, r0, c :: Final(w, s, sp.end) && Starts(m, w, o, r0, c, sp) ==>
      Decides(m, w, o, r0, Going(m, w.up, r0, e, sense, c), s.code, l, sp, sense)
  }

  // ----- claims stay true while code is added -----

  /** `t` has been made from `s` by adding code, patching the jumps `touched` and adding
      constants; the first `n` instructions of `s` are settled. */
  ghost predicate Later(s: Snap, n: nat, t: Snap, touched: set<nat>) {
    && Evolves(s.code, s.pend, n, t.code, t.pend, touched) && touched <= s.pend && s.k <= t.k
    && (n > 0 ==> !s.code[n - 1].TestSet?)
  }

  lemma FinalEarlier(w: Frame, s: Snap, n: nat, t: Snap, n': nat, touched: set<nat>)
    requires Later(s, n, t, touched) && n <= n' && Final(w, t, n')
    ensures Final(w, s, n)
  {
    CompatEarlier(w.code, s.code, s.pend, n, n', t.code, t.pend, touched);
  }

  ghost predicate Within(l: seq<nat>, n: nat) {
    forall p :: p in l ==> p < n
  }

  ghost predicate Untouched(l: seq<nat>, n: nat, touched: set<nat>) {
    forall p :: p in l ==> p < n && p !in touched
  }

  ghost predicate PendingOk(code: seq<Instr>, pend: set<nat>) {
    forall p :: p in pend ==> p < |code| && code[p].Jmp?
  }

  lemma ExitsLater(m: Machine, w: Frame, o: State, s: Snap, n: nat, t: Snap, touched: set<nat>, l: seq<nat>, r: Regs,
                   c: Option<Value>, valued: bool)
    requires Later(s, n, t, touched) && Untouched(l, n, touched) && PendingOk(s.code, s.pend)
    requires ExitsWith(m, w, o, s.code, l, r, c, valued)
    ensures ExitsWith(m, w, o, t.code, l, r, c, valued)
  {
    hide AtJump;
    var p :| p in l && AtJump(m, w, o, p, r) && (valued ==> c == Brings(w, SetsValue(s.code, p), p, r));
    TestsEarlier(s.code, s.pend, n, t.code, t.pend, touched, p);
  }

  lemma BranchLater(m: Machine, s: Snap, t: Snap, touched: set<nat>, l: seq<nat>, sp: Span, e: Expr, sense: bool)
    requires Branch(m, s, l, sp, e, sense) && Later(s, sp.end, t, touched) && Untouched(l, sp.end, touched)
    requires PendingOk(s.code, s.pend)
    ensures Branch(m, t, l, sp, e, sense)
  {
    hide Final, Starts, Later, Untouched, PendingOk, Keeps, Ends, ExitsWith, Raises, Going;
    forall w, o, r0, c | Final(w, t, sp.end) && Starts(m, w, o, r0, c, sp)
      ensures Decides(m, w, o, r0, Going(m, w.up, r0, e, sense, c), t.code, l, sp, sense)
    {
      FinalEarlier(w, s, sp.end, t, sp.end, touched);
      var g := Going(m, w.up, r0, e, sense, c);
      if !Raises(m, w, o, g) {
        var r :| DecidesWith(m, w, o, r0, r, g, s.code, l, sp, sense);
        if g.side != sense { ExitsLater(m, w, o, s, sp.end, t, touched, l, r, g.c, sp.valued); }
        assert DecidesWith(m, w, o, r0, r, g, t.code, l, sp, sense);
      }
    }
  }

  /** Main ways through `d1` lead on to main ways through `d2`. */
  ghost predicate MainTo(m: Machine, code1: seq<Instr>, d1: Desc, sp1: Span, s2: Snap, d2: Desc, sp2: Span) {
    forall w, o, r, way ::
      (&& Final(w, s2, Settled(d2, sp2.end)) && |r| == MAXSTACK && (Idle(sp1) ==> Entered(w, r, sp1))
       && Main(m, w, o, r, way, code1, d1, sp1)) ==>
        MainYields(m, w, o, r, way, s2.code, d2, sp2)
  }

  ghost predicate MainYields(m: Machine, w: Frame, o: State, r: Regs, way: Way, code: seq<Instr>, d: Desc, sp: Span) {
    Raises(m, w, o, way) || exists r' :: Keeps(r, r', sp.free, Idle(sp)) && Main(m, w, o, r', way, code, d, sp)
  }

  lemma MainYieldsOn(m: Machine, w: Frame, o: State, r0: Regs, r: Regs, way: Way, code: seq<Instr>, d: Desc,
                     sp1: Span, sp2: Span)
    requires Keeps(r0, r, sp1.free, Idle(sp1)) && MainYields(m, w, o, r, way, code, d, sp2) && sp1.free == sp2.free
    requires (Idle(sp2) ==> Idle(sp1))
    ensures Yields(m, w, o, r0, way, code, d, sp2)
  {
    hide Main, Leaves, Raises;
    if !Raises(m, w, o, way) {
      var r' :| Keeps(r, r', sp2.free, Idle(sp2)) && Main(m, w, o, r', way, code, d, sp2);
      assert YieldsWith(m, w, o, r0, r', way, code, d, sp2);
    }
  }

  /** The same beginning with another end. */
  predicate SameStart(sp1: Span, sp2: Span) {
    sp2 == sp1.(end := sp2.end, to := sp2.to, tov := sp2.tov)
  }

  /** Carrying a claim over to later code and to a new form of its main value. */
  lemma ClaimMain(m: Machine, s1: Snap, d1: Desc, sp1: Span, s2: Snap, d2: Desc, sp2: Span, touched: set<nat>,
                  x: Meaning)
    requires Claim(m, s1, d1, sp1, x) && Later(s1, Settled(d1, sp1.end), s2, touched)
    requires Settled(d1, sp1.end) <= Settled(d2, sp2.end) && sp1.start <= sp1.end <= sp2.end
    requires d2.tl == d1.tl && d2.fl == d1.fl && SameStart(sp1, sp2)
    requires MainTo(m, s1.code, d1, sp1, s2, d2, sp2) && ListsUntouched(d1, sp1, touched) && PendingOk(s1.code, s1.pend)
    ensures Claim(m, s2, d2, sp2, x)
  {
    hide ListsUntouched, PendingOk, Final, Main, Raises, Later, ExitsWith, ArrivesWith, MainYields, Means;
    forall w, o, r0, c | Final(w, s2, Settled(d2, sp2.end)) && Starts(m, w, o, r0, c, sp2)
      ensures Yields(m, w, o, r0, Means(m, w.up, r0, x, c), s2.code, d2, sp2)
    {
      FinalEarlier(w, s1, Settled(d1, sp1.end), s2, Settled(d2, sp2.end), touched);
      var way := Means(m, w.up, r0, x, c);
      assert Starts(m, w, o, r0, c, sp1);
      assert Yields(m, w, o, r0, way, s1.code, d1, sp1);
      if !Raises(m, w, o, way) {
        var r :| YieldsWith(m, w, o, r0, r, way, s1.code, d1, sp1);
        if Main(m, w, o, r, way, s1.code, d1, sp1) {
          MainYieldsOn(m, w, o, r0, r, way, s2.code, d2, sp1, sp2);
        } else {
          LeavesOn(m, w, o, r0, r, way, s1, d1, sp1, s2, d2, sp2, touched);
        }
      }
    }
  }

  ghost predicate ListsUntouched(d: Desc, sp: Span, touched: set<nat>) {
    Untouched(d.tl, Settled(d, sp.end), touched) && Untouched(d.fl, Settled(d, sp.end), touched)
  }

  lemma LeavesOn(m: Machine, w: Frame, o: State, r0: Regs, r: Regs, way: Way, s1: Snap, d1: Desc, sp1: Span,
                 s2: Snap, d2: Desc, sp2: Span, touched: set<nat>)
    requires Keeps(r0, r, sp1.free, Idle(sp1)) && Leaves(m, w, o, r, way, s1.code, d1, sp1.valued)
    requires Later(s1, Settled(d1, sp1.end), s2, touched) && ListsUntouched(d1, sp1, touched)
    requires PendingOk(s1.code, s1.pend)
    requires d2.tl == d1.tl && d2.fl == d1.fl && sp2.free == sp1.free && sp2.valued == sp1.valued
    requires (Idle(sp2) ==> Idle(sp1))
    ensures Yields(m, w, o, r0, way, s2.code, d2, sp2)
  {
    hide Main, ExitsWith, Untouched, Later, PendingOk;
    ExitsLater(m, w, o, s1, Settled(d1, sp1.end), s2, touched, if way.side then d1.tl else d1.fl, r, way.c, sp1.valued);
    assert YieldsWith(m, w, o, r0, r, way, s2.code, d2, sp2);
  }
}
