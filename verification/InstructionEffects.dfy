/** What single instructions do to the registers, as lua-5.1/lopcodes.h:139-208 describes them:
    `R(x)` is element `x` of the registers, and an operand from 256 on stands for a constant. */
module InstructionEffects {
  import opened LuaVM
  import opened Opcodes
  import opened CodeChecker
  import opened Interpreter

  /** The instruction at the position of the state. */
  ghost predicate Fetches(u: Unit, s: Status, op: OpCode, a: nat, b: nat, c: nat) {
    0 <= s.pc < |u.code| && u.code[s.pc] == Instruction(op, a, b, c)
  }

  /** The value of an operand that is a register or a constant. */
  ghost predicate IsOperand(u: Unit, r: Regs, x: nat, v: Value) {
    if x < 256 then x < |r| && r[x] == v else x - 256 < |u.k| && u.k[x - 256] == v
  }

  /** The run goes on at the next instruction with these registers, and nothing else has changed. */
  ghost predicate NextWith(h: Host, u: Unit, s: Status, r: Regs) {
    Execute(h, u, s) == Goes(Status(s.pc + 1, r, s.up, s.w))
  }

  // ----- loads -----

  lemma MoveEffect(h: Host, u: Unit, s: Status, a: nat, b: nat, c: nat)
    requires Fetches(u, s, OP_MOVE, a, b, c) && a < |s.r| && b < |s.r|
    ensures NextWith(h, u, s, s.r[a := s.r[b]])
  {
  }

  lemma LoadKEffect(h: Host, u: Unit, s: Status, a: nat, b: nat, c: nat)
    requires Fetches(u, s, OP_LOADK, a, b, c) && a < |s.r| && b * 512 + c < |u.k|
    ensures NextWith(h, u, s, s.r[a := u.k[b * 512 + c]])
  {
  }

  /** `OP_LOADBOOL` skips the next instruction if `c` is not zero. */
  lemma LoadBoolEffect(h: Host, u: Unit, s: Status, a: nat, b: nat, c: nat)
    requires Fetches(u, s, OP_LOADBOOL, a, b, c) && a < |s.r|
    ensures
      Execute(h, u, s) ==
      Goes(Status(if c == 0 then s.pc + 1 else s.pc + 2, s.r[a := Bool(b != 0)], s.up, s.w))
  {
  }

  lemma LoadNilEffect(h: Host, u: Unit, s: Status, a: nat, b: nat, c: nat)
    requires Fetches(u, s, OP_LOADNIL, a, b, c) && a <= b < |s.r|
    ensures NextWith(h, u, s, s.r[..a] + seq(b - a + 1, _ => Nil) + s.r[b + 1..])
  {
    var t := Execute(h, u, s).s;
    assert t.r == s.r[..a] + seq(b - a + 1, _ => Nil) + s.r[b + 1..];
  }

  // ----- upvalues -----

  lemma GetUpvalEffect(h: Host, u: Unit, s: Status, a: nat, b: nat, c: nat)
    requires Fetches(u, s, OP_GETUPVAL, a, b, c) && a < |s.r| && b < |s.up|
    ensures NextWith(h, u, s, s.r[a := s.up[b]])
  {
  }

  /** Only the upvalue changes, and it has the value of the register. */
  lemma SetUpvalEffect(h: Host, u: Unit, s: Status, a: nat, b: nat, c: nat)
    requires Fetches(u, s, OP_SETUPVAL, a, b, c) && a < |s.r| && b < |s.up|
    ensures Execute(h, u, s) == Goes(Status(s.pc + 1, s.r, s.up[b := s.r[a]], s.w))
  {
  }

  // ----- operators -----

  lemma ArithEffect(h: Host, u: Unit, s: Status, op: ArithOp, a: nat, b: nat, c: nat, m: Number, n: Number)
    requires Fetches(u, s, match op { case ADD => OP_ADD case SUB => OP_SUB case MUL => OP_MUL case DIV => OP_DIV
                                      case MOD => OP_MOD case POW => OP_POW }, a, b, c)
    requires a < |s.r| && IsOperand(u, s.r, b, Num(m)) && IsOperand(u, s.r, c, Num(n))
    ensures NextWith(h, u, s, s.r[a := Num(h.num(op, m, n))])
  {
  }

  lemma UnaryEffects(h: Host, u: Unit, s: Status, a: nat, b: nat, c: nat)
    requires a < |s.r| && b < |s.r|
    ensures Fetches(u, s, OP_NOT, a, b, c) ==> NextWith(h, u, s, s.r[a := Bool(s.r[b] == Nil || s.r[b] == Bool(false))])
    ensures Fetches(u, s, OP_UNM, a, b, c) && s.r[b].Num? ==> NextWith(h, u, s, s.r[a := Num(h.unm(s.r[b].n))])
  {
  }

  /** The strings from `R(b)` to `R(c)` are joined, in this order, and `R(a)` gets the result. */
  lemma ConcatEffect(h: Host, u: Unit, s: Status, a: nat, b: nat, c: nat, x: Effect)
    requires Fetches(u, s, OP_CONCAT, a, b, c) && a < |s.r| && b <= c < |s.r| && |x.r| == |s.r|
    requires h.ask(Concat, s.r[b..c + 1], s.r, s.w) == Some(x)
    ensures Execute(h, u, s) == Goes(Status(s.pc + 1, x.r[b := x.v][a := x.v], s.up, x.w))
  {
    RegistersFrom(s.r, b, c);
  }

  lemma {:induction false} RegistersFrom(r: Regs, b: nat, c: nat)
    requires b <= c + 1 <= |r|
    ensures RegsOf(r, b, c) == r[b..c + 1]
    decreases c + 1 - b
  {
    if b <= c { RegistersFrom(r, b + 1, c); }
  }

  // ----- jumps and tests -----

  lemma JumpEffect(h: Host, u: Unit, s: Status, a: nat, b: nat, c: nat)
    requires Fetches(u, s, OP_JMP, a, b, c)
    ensures Execute(h, u, s) == Goes(s.(pc := s.pc + 1 + (b * 512 + c - 131071)))
  {
  }

  /** A comparison whose answer is `a` takes the jump behind it; another skips that jump. */
  lemma CompareEffect(h: Host, u: Unit, s: Status, op: CmpOp, a: nat, b: nat, c: nat, v: Value, w: Value, x: Effect,
                      jb: nat, jc: nat)
    requires Fetches(u, s, match op { case EQ => OP_EQ case LT => OP_LT case LE => OP_LE }, a, b, c)
    requires Fetches(u, s.(pc := s.pc + 1), OP_JMP, 0, jb, jc)
    requires IsOperand(u, s.r, b, v) && IsOperand(u, s.r, c, w) && |x.r| == |s.r|
    requires h.ask(Compare(op), [v, w], s.r, s.w) == Some(x) && x.v.Bool?
    ensures
      Execute(h, u, s) ==
      Goes(Status(if x.v.b == (a == 1) && a <= 1 then s.pc + 2 + (jb * 512 + jc - 131071) else s.pc + 2,
                  x.r, s.up, x.w))
  {
  }

  /** `OP_TEST` takes the jump behind it exactly if the truth of `R(a)` is `c`. */
  lemma TestEffect(h: Host, u: Unit, s: Status, a: nat, b: nat, c: nat, jb: nat, jc: nat)
    requires Fetches(u, s, OP_TEST, a, b, c) && a < |s.r| && c <= 1
    requires Fetches(u, s.(pc := s.pc + 1), OP_JMP, 0, jb, jc)
    ensures
      var truth := s.r[a] != Nil && s.r[a] != Bool(false);
      Execute(h, u, s) == Goes(s.(pc := if truth == (c == 1) then s.pc + 2 + (jb * 512 + jc - 131071) else s.pc + 2))
  {
  }

  /** `OP_TESTSET` does the same with `R(b)`, which it copies to `R(a)` if it takes the jump. */
  lemma TestSetEffect(h: Host, u: Unit, s: Status, a: nat, b: nat, c: nat, jb: nat, jc: nat)
    requires Fetches(u, s, OP_TESTSET, a, b, c) && a < |s.r| && b < |s.r| && c <= 1
    requires Fetches(u, s.(pc := s.pc + 1), OP_JMP, 0, jb, jc)
    ensures
      var truth := s.r[b] != Nil && s.r[b] != Bool(false);
      Execute(h, u, s) ==
      if truth == (c == 1) then
        Goes(Status(s.pc + 2 + (jb * 512 + jc - 131071), s.r[a := s.r[b]], s.up, s.w))
      else Goes(s.(pc := s.pc + 2))
  {
  }

  // ----- tables -----

  /** What a host with tables promises: a field read just after it has been set has its value. */
  ghost predicate KeepsFields(h: Host) {
    forall t, k, v, r, w ::
      h.ask(SetIndex, [t, k, v], r, w).Some? ==> FieldIs(h, t, k, v, h.ask(SetIndex, [t, k, v], r, w).value.w)
  }

  ghost predicate FieldIs(h: Host, t: Value, k: Value, v: Value, w: World) {
    forall r: Regs :: h.ask(Index, [t, k], r, w) == Some(Effect(v, r, w))
  }

  /** `R(a)[b] := c` lets `R(a)[b]` have the value of `c`. */
  lemma SetTableEffect(h: Host, u: Unit, s: Status, a: nat, b: nat, c: nat, k: Value, v: Value)
    requires Fetches(u, s, OP_SETTABLE, a, b, c) && KeepsFields(h)
    requires a < |s.r| && IsOperand(u, s.r, b, k) && IsOperand(u, s.r, c, v)
    ensures var t := Execute(h, u, s);
      t.Goes? ==> t.s.pc == s.pc + 1 && t.s.up == s.up && FieldIs(h, s.r[a], k, v, t.s.w)
  {
  }

  lemma SetGlobalEffect(h: Host, u: Unit, s: Status, a: nat, b: nat, c: nat)
    requires Fetches(u, s, OP_SETGLOBAL, a, b, c) && KeepsFields(h) && a < |s.r| && b * 512 + c < |u.k|
    ensures var t := Execute(h, u, s);
      t.Goes? ==> t.s.pc == s.pc + 1 && t.s.up == s.up && FieldIs(h, h.env, u.k[b * 512 + c], s.r[a], t.s.w)
  {
  }

  lemma GetTableEffect(h: Host, u: Unit, s: Status, a: nat, b: nat, c: nat, k: Value, v: Value)
    requires Fetches(u, s, OP_GETTABLE, a, b, c) && a < |s.r| && b < |s.r| && IsOperand(u, s.r, c, k)
    requires FieldIs(h, s.r[b], k, v, s.w)
    ensures NextWith(h, u, s, s.r[a := v])
  {
  }

  lemma GetGlobalEffect(h: Host, u: Unit, s: Status, a: nat, b: nat, c: nat, v: Value)
    requires Fetches(u, s, OP_GETGLOBAL, a, b, c) && a < |s.r| && b * 512 + c < |u.k|
    requires FieldIs(h, h.env, u.k[b * 512 + c], v, s.w)
    ensures NextWith(h, u, s, s.r[a := v])
  {
  }

  /** `R(a)` gets a new table. */
  lemma NewTableEffect(h: Host, u: Unit, s: Status, a: nat, b: nat, c: nat, x: Effect)
    requires Fetches(u, s, OP_NEWTABLE, a, b, c) && a < |s.r| && |x.r| == |s.r|
    requires h.ask(NewTable, [], s.r, s.w) == Some(x)
    ensures Execute(h, u, s) == Goes(Status(s.pc + 1, x.r[a := x.v], s.up, x.w))
  {
  }

  /** The upvalues of the registers from `R(a)` on are closed; no register gets anything. */
  lemma CloseEffect(h: Host, u: Unit, s: Status, a: nat, b: nat, c: nat, x: Effect)
    requires Fetches(u, s, OP_CLOSE, a, b, c) && |x.r| == |s.r| && h.ask(Close(a), [], s.r, s.w) == Some(x)
    ensures Execute(h, u, s) == Goes(Status(s.pc + 1, x.r, s.up, x.w))
  {
  }

  /** `OP_SELF` gets the field `c` of `R(b)` to `R(a)` and the object itself to the register
      after it, also where `R(b)` is one of the two. */
  lemma SelfEffect(h: Host, u: Unit, s: Status, a: nat, b: nat, c: nat, k: Value, v: Value)
    requires Fetches(u, s, OP_SELF, a, b, c) && a + 1 < |s.r| && b < |s.r|
    requires c != a + 1 && IsOperand(u, s.r, c, k) && FieldIs(h, s.r[b], k, v, s.w)
    ensures NextWith(h, u, s, s.r[a := v][a + 1 := s.r[b]])
  {
    var r := s.r[a + 1 := s.r[b]];
    assert r[b] == s.r[b] && r[a := v] == s.r[a := v][a + 1 := s.r[b]];
    assert h.ask(Index, [s.r[b], k], r, s.w) == Some(Effect(v, r, s.w));
  }

  /** An assignment to a field and a read of it. */
  lemma FieldRoundTrip(h: Host, u: Unit, s: Status, a: nat, b: nat, c: nat, d: nat, k: nat, v: Value)
    requires Fetches(u, s, OP_SETTABLE, a, 256 + k, c) && Fetches(u, s.(pc := s.pc + 1), OP_GETTABLE, d, a, 256 + k)
    requires KeepsFields(h) && a < |s.r| && d < |s.r| && k < |u.k| && IsOperand(u, s.r, c, v)
    requires forall about, r, w :: h.ask(SetIndex, about, r, w).Some? ==> h.ask(SetIndex, about, r, w).value.r == r
    ensures Run(h, u, s, 2).Goes? ==> Run(h, u, s, 2).s.r == s.r[d := v]
  {
    SetTableEffect(h, u, s, a, 256 + k, c, u.k[k], v);
    var t := Execute(h, u, s);
    if t.Goes? {
      assert t.s.r == s.r;
      GetTableEffect(h, u, t.s, d, a, 256 + k, u.k[k], v);
      assert Run(h, u, s, 2) == Run(h, u, t.s, 1);
      assert Run(h, u, t.s, 1) == Execute(h, u, t.s);
    }
  }

  // ----- loops -----

  /** `OP_FORPREP` makes numbers of the three values, takes the step off the first and jumps;
      it fails exactly if one of them is no number. */
  lemma ForPrepEffect(h: Host, u: Unit, s: Status, a: nat, b: nat, c: nat)
    requires Fetches(u, s, OP_FORPREP, a, b, c) && a + 3 < |s.r|
    ensures var init, limit, step := h.tonumber(s.r[a]), h.tonumber(s.r[a + 1]), h.tonumber(s.r[a + 2]);
      Execute(h, u, s) ==
      if init.Some? && limit.Some? && step.Some? then
        Goes(Status(s.pc + 1 + (b * 512 + c - 131071),
                    s.r[a := Num(h.num(SUB, init.value, step.value))][a + 1 := Num(limit.value)]
                    [a + 2 := Num(step.value)], s.up, s.w))
      else Fails
  {
  }

  // ----- what the checker takes for changes -----

  /** Registers that an instruction writes to and the checker does not count: what controls a loop
      and its variable, where operands are joined, and the last register of an odd `OP_LOADNIL`. */
  predicate Unseen(i: Instruction, x: nat) {
    || (i.op.OP_FORLOOP? && x == i.a + 3) || (i.op.OP_FORPREP? && (x == i.a + 1 || x == i.a + 2))
    || (i.op.OP_CONCAT? && x == i.b) || (i.op.OP_LOADNIL? && i.b < i.a && x == i.b)
  }

  /** The rest of the system leaves the registers alone. */
  ghost predicate Discreet(h: Host) {
    forall e, about, r, w :: h.ask(e, about, r, w).Some? ==> h.ask(e, about, r, w).value.r == r
  }

  /** A register is as it was, if the run goes on. */
  ghost predicate Untouched(s: Status, t: Turn, x: nat) {
    t.Goes? ==> |t.s.r| == |s.r| && (x < |s.r| ==> t.s.r[x] == s.r[x])
  }

  predicate IsLoad(op: OpCode) {
    op.OP_MOVE? || op.OP_LOADK? || op.OP_LOADBOOL? || op.OP_GETUPVAL? || op.OP_UNM? || op.OP_NOT? || op.OP_LEN?
  }

  lemma AskedOnly(h: Host, u: Unit, s: Status, i: Instruction, op: ArithOp, e: Event, about: seq<Value>, x: nat)
    requires Discreet(h) && x != i.a
    ensures Untouched(s, Asked(h, s, e, about, i.a), x) && Untouched(s, ArithTurn(h, u, s, i, op), x)
  {
  }

  lemma ToldOnly(h: Host, s: Status, e: Event, about: seq<Value>, x: nat)
    requires Discreet(h)
    ensures Untouched(s, Told(h, s, e, about), x)
  {
  }

  lemma CompareOnly(h: Host, u: Unit, s: Status, i: Instruction, op: CmpOp, x: nat)
    requires Discreet(h)
    ensures Untouched(s, CompareTurn(h, u, s, i, op), x)
  {
  }

  lemma ConcatOnly(h: Host, s: Status, i: Instruction, x: nat)
    requires Discreet(h) && x != i.a && x != i.b
    ensures Untouched(s, ConcatTurn(h, s, i), x)
  {
  }

  lemma LoopsOnly(h: Host, s: Status, i: Instruction, x: nat)
    ensures x != i.a && x != i.a + 3 ==> Untouched(s, ForLoopTurn(h, s, i), x)
    ensures x != i.a && x != i.a + 1 && x != i.a + 2 ==> Untouched(s, ForPrepTurn(h, s, i), x)
  {
  }

  lemma LoadsOnly(h: Host, u: Unit, s: Status, x: nat)
    requires Discreet(h) && 0 <= s.pc < |u.code| && x < |s.r| && x != u.code[s.pc].a
    requires IsLoad(u.code[s.pc].op) || u.code[s.pc].op.OP_GETGLOBAL? || u.code[s.pc].op.OP_GETTABLE? ||
             u.code[s.pc].op.OP_NEWTABLE?
    ensures Untouched(s, Execute(h, u, s), x)
  {
    hide Bx, SBx, Asked, Discreet, RK, K;
    var i := u.code[s.pc];
    forall e, about
      ensures Untouched(s, Asked(h, s, e, about, i.a), x)
    {
      AskedOnly(h, u, s, i, ADD, e, about, x);
    }
  }

  /** A turn changes no other registers than those the checker counts, and those it does not see. */
  lemma OnlyChanges(h: Host, u: Unit, s: Status, x: nat)
    requires Discreet(h) && 0 <= s.pc < |u.code| && x < |s.r|
    requires !Changes(u.code[s.pc], x) && !Unseen(u.code[s.pc], x)
    ensures Untouched(s, Execute(h, u, s), x)
  {
    hide Bx, SBx, Asked, Told, ArithTurn, CompareTurn, ConcatTurn, ForLoopTurn, ForPrepTurn, Discreet, RK, K, Untouched;
    var i := u.code[s.pc];
    var k := K(u, Bx(i));
    match i.op
    case OP_SELF => SelfOnly(h, u, s, i, x);
    case OP_CONCAT => ConcatOnly(h, s, i, x);
    case OP_FORLOOP => LoopsOnly(h, s, i, x);
    case OP_FORPREP => LoopsOnly(h, s, i, x);
    case OP_EQ => CompareOnly(h, u, s, i, EQ, x);
    case OP_LT => CompareOnly(h, u, s, i, LT, x);
    case OP_LE => CompareOnly(h, u, s, i, LE, x);
    case OP_ADD => AskedOnly(h, u, s, i, ADD, NewTable, [], x);
    case OP_SUB => AskedOnly(h, u, s, i, SUB, NewTable, [], x);
    case OP_MUL => AskedOnly(h, u, s, i, MUL, NewTable, [], x);
    case OP_DIV => AskedOnly(h, u, s, i, DIV, NewTable, [], x);
    case OP_MOD => AskedOnly(h, u, s, i, MOD, NewTable, [], x);
    case OP_POW => AskedOnly(h, u, s, i, POW, NewTable, [], x);
    case OP_SETGLOBAL => ToldOnly(h, s, SetIndex, [h.env, k, Reg(s.r, i.a)], x);
    case OP_SETTABLE => ToldOnly(h, s, SetIndex, [Reg(s.r, i.a), RK(u, s.r, i.b), RK(u, s.r, i.c)], x);
    case OP_CLOSE => ToldOnly(h, s, Close(i.a), [], x);
    case _ =>
      if IsLoad(i.op) || i.op.OP_GETGLOBAL? || i.op.OP_GETTABLE? || i.op.OP_NEWTABLE? {
        LoadsOnly(h, u, s, x);
      } else {
        TestsOnly(h, u, s, x);
      }
  }

  lemma TestsOnly(h: Host, u: Unit, s: Status, x: nat)
    requires 0 <= s.pc < |u.code| && x < |s.r| && !Changes(u.code[s.pc], x) && !Unseen(u.code[s.pc], x)
    requires u.code[s.pc].op.OP_TEST? || u.code[s.pc].op.OP_TESTSET? || u.code[s.pc].op.OP_LOADNIL? ||
             u.code[s.pc].op.OP_SETUPVAL? || u.code[s.pc].op.OP_JMP? || u.code[s.pc].op.OP_RETURN? ||
             u.code[s.pc].op.Unknown? || Elsewhere(u.code[s.pc].op)
    ensures Untouched(s, Execute(h, u, s), x)
  {
    hide Bx, SBx;
  }

  lemma SelfOnly(h: Host, u: Unit, s: Status, i: Instruction, x: nat)
    requires Discreet(h) && x != i.a && x != i.a + 1 && i.op.OP_SELF? && 0 <= s.pc < |u.code| && u.code[s.pc] == i
    ensures Untouched(s, Execute(h, u, s), x)
  {
    hide Bx, SBx, RK, K;
  }

  /** They are changed: the variable of a loop has the next value, the limit and the step become numbers. */
  lemma UnseenChange(h: Host, u: Unit, s: Status, a: nat, b: nat, c: nat)
    requires Fetches(u, s, OP_FORLOOP, a, b, c) && a + 3 < |s.r|
    requires s.r[a].Num? && s.r[a + 1].Num? && s.r[a + 2].Num? && h.less(0, s.r[a + 2].n)
    requires h.lesseq(h.num(ADD, s.r[a].n, s.r[a + 2].n), s.r[a + 1].n)
    ensures !Changes(u.code[s.pc], a + 3)
    ensures Execute(h, u, s).Goes? && Execute(h, u, s).s.r[a + 3] == Num(h.num(ADD, s.r[a].n, s.r[a + 2].n))
  {
  }

  // ----- the registers that an instruction uses -----

  /** The rest of the system neither reads nor changes the registers. */
  ghost predicate Apart(h: Host) {
    forall e, about, r, q, w ::
      && (h.ask(e, about, r, w).Some? ==> h.ask(e, about, r, w).value.r == r)
      && (h.ask(e, about, r, w) == None <==> h.ask(e, about, q, w) == None)
      && (h.ask(e, about, r, w).Some? ==>
            && h.ask(e, about, r, w).value.v == h.ask(e, about, q, w).value.v
            && h.ask(e, about, r, w).value.w == h.ask(e, about, q, w).value.w)
  }

  /** The state with something else in register `x`. */
  function WithReg(s: Status, x: nat, v: Value): Status {
    s.(r := SetReg(s.r, x, v))
  }

  function With(t: Turn, x: nat, v: Value): Turn {
    if t.Goes? then Goes(WithReg(t.s, x, v)) else t
  }

  lemma SetCommutes(r: Regs, a: nat, w: Value, x: nat, v: Value)
    requires a != x
    ensures SetReg(SetReg(r, x, v), a, w) == SetReg(SetReg(r, a, w), x, v)
    ensures Reg(SetReg(r, x, v), a) == Reg(r, a)
  {
  }

  lemma SetApart(s: Status, a: nat, w: Value, x: nat, v: Value)
    requires a != x
    ensures Set(WithReg(s, x, v), a, w) == With(Set(s, a, w), x, v)
  {
    SetCommutes(s.r, a, w, x, v);
  }

  lemma AskedApart(h: Host, s: Status, e: Event, about: seq<Value>, a: nat, x: nat, v: Value)
    requires Apart(h) && a != x
    ensures Asked(h, WithReg(s, x, v), e, about, a) == With(Asked(h, s, e, about, a), x, v)
    ensures Told(h, WithReg(s, x, v), e, about) == With(Told(h, s, e, about), x, v)
  {
    var q := SetReg(s.r, x, v);
    assert h.ask(e, about, s.r, s.w) == None <==> h.ask(e, about, q, s.w) == None;
    if h.ask(e, about, s.r, s.w).Some? {
      SetCommutes(s.r, a, h.ask(e, about, s.r, s.w).value.v, x, v);
    }
  }

  lemma OperandApart(u: Unit, r: Regs, b: nat, x: nat, v: Value)
    requires x !in RkRegs(b)
    ensures RK(u, SetReg(r, x, v), b) == RK(u, r, b)
  {
  }

  lemma ArithApart(h: Host, u: Unit, s: Status, i: Instruction, op: ArithOp, x: nat, v: Value)
    requires Apart(h) && i.a != x && x !in RkRegs(i.b) && x !in RkRegs(i.c)
    ensures ArithTurn(h, u, WithReg(s, x, v), i, op) == With(ArithTurn(h, u, s, i, op), x, v)
  {
    hide Apart;
    OperandApart(u, s.r, i.b, x, v);
    OperandApart(u, s.r, i.c, x, v);
    AskedApart(h, s, Operation(op), [RK(u, s.r, i.b), RK(u, s.r, i.c)], i.a, x, v);
    forall w
      ensures Set(WithReg(s, x, v), i.a, w) == With(Set(s, i.a, w), x, v)
    {
      SetApart(s, i.a, w, x, v);
    }
  }

  lemma CompareApart(h: Host, u: Unit, s: Status, i: Instruction, op: CmpOp, x: nat, v: Value)
    requires Apart(h) && x !in RkRegs(i.b) && x !in RkRegs(i.c)
    ensures CompareTurn(h, u, WithReg(s, x, v), i, op) == With(CompareTurn(h, u, s, i, op), x, v)
  {
    OperandApart(u, s.r, i.b, x, v);
    OperandApart(u, s.r, i.c, x, v);
    var about, q := [RK(u, s.r, i.b), RK(u, s.r, i.c)], SetReg(s.r, x, v);
    assert h.ask(Compare(op), about, s.r, s.w) == None <==> h.ask(Compare(op), about, q, s.w) == None;
  }

  lemma {:induction false} RegsOfApart(r: Regs, b: nat, c: nat, x: nat, v: Value)
    requires x !in RegsFrom(b, c)
    ensures RegsOf(SetReg(r, x, v), b, c) == RegsOf(r, b, c)
    decreases c - b
  {
    if b <= c {
      assert Between(b, b, c) && b in RegsFrom(b, c);
      forall y: nat | y in RegsFrom(b + 1, c)
        ensures y in RegsFrom(b, c)
      {
        assert Between(b + 1, y, c) && Between(b, y, c);
      }
      SetCommutes(r, b, Nil, x, v);
      RegsOfApart(r, b + 1, c, x, v);
    }
  }

  lemma ConcatApart(h: Host, s: Status, i: Instruction, x: nat, v: Value)
    requires Apart(h) && i.a != x && i.b != x && x !in RegsFrom(i.b, i.c)
    ensures ConcatTurn(h, WithReg(s, x, v), i) == With(ConcatTurn(h, s, i), x, v)
  {
    hide RegsOf, RegsFrom;
    RegsOfApart(s.r, i.b, i.c, x, v);
    var about, q := RegsOf(s.r, i.b, i.c), SetReg(s.r, x, v);
    assert h.ask(Concat, about, s.r, s.w) == None <==> h.ask(Concat, about, q, s.w) == None;
    var e := h.ask(Concat, about, s.r, s.w);
    if e.Some? {
      var r := SetReg(s.r, i.b, e.value.v);
      SetCommutes(s.r, i.b, e.value.v, x, v);
      SetCommutes(r, i.a, Reg(r, i.b), x, v);
      SetCommutes(r, i.b, Nil, x, v);
    }
  }

  lemma LoopsApart(h: Host, s: Status, i: Instruction, x: nat, v: Value)
    requires x != i.a && x != i.a + 1 && x != i.a + 2 && x != i.a + 3
    ensures ForLoopTurn(h, WithReg(s, x, v), i) == With(ForLoopTurn(h, s, i), x, v)
    ensures ForPrepTurn(h, WithReg(s, x, v), i) == With(ForPrepTurn(h, s, i), x, v)
  {
    hide SetReg, Reg, SBx;
    forall r: Regs, a: nat, w: Value | a != x
      ensures SetReg(SetReg(r, x, v), a, w) == SetReg(SetReg(r, a, w), x, v)
    {
      SetCommutes(r, a, w, x, v);
    }
    forall a: nat | a != x
      ensures Reg(SetReg(s.r, x, v), a) == Reg(s.r, a)
    {
      SetCommutes(s.r, a, Nil, x, v);
    }
  }

  lemma NilsApart(r: Regs, a: nat, b: nat, x: nat, v: Value)
    requires x != b && x !in RegsFrom(a, b)
    ensures SetNils(SetReg(r, x, v), a, b) == SetReg(SetNils(r, a, b), x, v)
  {
    assert a <= x <= b ==> Between(a, x, b) && x in RegsFrom(a, b);
  }

  lemma TestApart(u: Unit, s: Status, i: Instruction, x: nat, v: Value)
    requires i.op.OP_TEST? || i.op.OP_TESTSET?
    requires x != i.a && (i.op.OP_TESTSET? ==> x != i.b) && 0 <= s.pc < |u.code| && u.code[s.pc] == i
    ensures forall h :: Execute(h, u, WithReg(s, x, v)) == With(Execute(h, u, s), x, v)
  {
    hide SBx;
    SetCommutes(s.r, i.a, Nil, x, v);
    if i.op.OP_TESTSET? {
      SetCommutes(s.r, i.b, Nil, x, v);
      SetCommutes(s.r, i.a, Reg(s.r, i.b), x, v);
    }
  }

  lemma SelfApart(h: Host, u: Unit, s: Status, i: Instruction, x: nat, v: Value)
    requires Apart(h) && i.op.OP_SELF? && 0 <= s.pc < |u.code| && u.code[s.pc] == i && x !in RegsUsed(i)
    ensures Execute(h, u, WithReg(s, x, v)) == With(Execute(h, u, s), x, v)
  {
    hide Asked, Reg, SetReg, RK, Apart, RkRegs;
    var r := SetReg(s.r, i.a + 1, Reg(s.r, i.b));
    SetCommutes(s.r, i.b, Nil, x, v);
    SetCommutes(s.r, i.a + 1, Reg(s.r, i.b), x, v);
    SetCommutes(r, i.b, Nil, x, v);
    OperandApart(u, r, i.c, x, v);
    AskedApart(h, s.(r := r), Index, [Reg(r, i.b), RK(u, r, i.c)], i.a, x, v);
  }

  lemma FourUsed(a: nat)
    ensures {a, a + 1, a + 2, a + 3} <= RegsFrom(a, a + 3)
  {
    assert Between(a, a, a + 3) && Between(a, a + 1, a + 3) && Between(a, a + 2, a + 3) && Between(a, a + 3, a + 3);
  }

  predicate IsOther(op: OpCode) {
    || op.OP_GETGLOBAL? || op.OP_GETTABLE? || op.OP_SETGLOBAL? || op.OP_SETUPVAL? || op.OP_SETTABLE? || op.OP_NEWTABLE?
    || op.OP_CLOSE? || op.OP_JMP? || op.OP_RETURN? || op.Unknown? || Elsewhere(op)
  }

  /** Loads and unary operations. */
  lemma LoadsApart(h: Host, u: Unit, s: Status, i: Instruction, x: nat, v: Value)
    requires Apart(h) && 0 <= s.pc < |u.code| && u.code[s.pc] == i && x !in RegsUsed(i)
    requires IsLoad(i.op)
    ensures Execute(h, u, WithReg(s, x, v)) == With(Execute(h, u, s), x, v)
  {
    hide Bx, Asked, Apart, K, Reg, SetReg, Set;
    SetCommutes(s.r, i.a, Bool(i.b != 0), x, v);
    if i.b != x { SetCommutes(s.r, i.b, Nil, x, v); }
    var y := Reg(s.r, i.b);
    match i.op
    case OP_MOVE => SetApart(s, i.a, y, x, v);
    case OP_LOADK => SetApart(s, i.a, K(u, Bx(i)), x, v);
    case OP_LOADBOOL =>
    case OP_GETUPVAL => SetApart(s, i.a, Up(s, i.b), x, v);
    case OP_UNM =>
      if y.Num? { SetApart(s, i.a, Num(h.unm(y.n)), x, v); } else { AskedApart(h, s, Minus, [y], i.a, x, v); }
    case OP_NOT => SetApart(s, i.a, Bool(!Truthy(y)), x, v);
    case OP_LEN => AskedApart(h, s, Length, [y], i.a, x, v);
  }

  /** Tables, upvalues and jumps. */
  lemma OthersApart(h: Host, u: Unit, s: Status, i: Instruction, x: nat, v: Value)
    requires Apart(h) && 0 <= s.pc < |u.code| && u.code[s.pc] == i && x !in RegsUsed(i)
    requires IsOther(i.op)
    ensures Execute(h, u, WithReg(s, x, v)) == With(Execute(h, u, s), x, v)
  {
    hide Bx, SBx, Asked, Told, Apart, RK, K, Reg, SetReg, RkRegs;
    var k := K(u, Bx(i));
    match i.op
    case OP_GETGLOBAL => AskedApart(h, s, Index, [h.env, k], i.a, x, v);
    case OP_GETTABLE =>
      SetCommutes(s.r, i.b, Nil, x, v);
      OperandApart(u, s.r, i.c, x, v);
      AskedApart(h, s, Index, [Reg(s.r, i.b), RK(u, s.r, i.c)], i.a, x, v);
    case OP_SETGLOBAL =>
      SetCommutes(s.r, i.a, Nil, x, v);
      AskedApart(h, s, SetIndex, [h.env, k, Reg(s.r, i.a)], i.a, x, v);
    case OP_SETUPVAL => SetCommutes(s.r, i.a, Nil, x, v);
    case OP_SETTABLE =>
      SetCommutes(s.r, i.a, Nil, x, v);
      OperandApart(u, s.r, i.b, x, v);
      OperandApart(u, s.r, i.c, x, v);
      AskedApart(h, s, SetIndex, [Reg(s.r, i.a), RK(u, s.r, i.b), RK(u, s.r, i.c)], i.a, x, v);
    case OP_NEWTABLE => AskedApart(h, s, NewTable, [], i.a, x, v);
    case OP_CLOSE => AskedApart(h, s, Close(i.a), [], i.a, x, v);
    case _ =>
  }

  /** An instruction has nothing to do with the registers that it does not use: with another value
      in such a register it does the same, and the value is still there. */
  lemma UsesOnly(h: Host, u: Unit, s: Status, x: nat, v: Value)
    requires Apart(h) && 0 <= s.pc < |u.code| && x !in RegsUsed(u.code[s.pc])
    ensures Execute(h, u, WithReg(s, x, v)) == With(Execute(h, u, s), x, v)
  {
    hide Bx, SBx, Asked, Told, ArithTurn, CompareTurn, ConcatTurn, ForLoopTurn, ForPrepTurn, TestTurn, Apart, RK, K,
      Set, Reg, SetReg, SetNils, RkRegs, RegsFrom;
    var i := u.code[s.pc];
    assert i.op.OP_FORLOOP? || i.op.OP_FORPREP? ==> x != i.a && x != i.a + 1 && x != i.a + 2 && x != i.a + 3 by {
      FourUsed(i.a);
    }
    match i.op
    case OP_TEST => TestApart(u, s, i, x, v);
    case OP_TESTSET => TestApart(u, s, i, x, v);
    case OP_SELF => SelfApart(h, u, s, i, x, v);
    case OP_CONCAT => ConcatApart(h, s, i, x, v);
    case OP_LOADNIL => NilsApart(s.r, i.a, i.b, x, v);
    case OP_EQ => CompareApart(h, u, s, i, EQ, x, v);
    case OP_LT => CompareApart(h, u, s, i, LT, x, v);
    case OP_LE => CompareApart(h, u, s, i, LE, x, v);
    case OP_FORLOOP => LoopsApart(h, s, i, x, v);
    case OP_FORPREP => LoopsApart(h, s, i, x, v);
    case OP_ADD => ArithApart(h, u, s, i, ADD, x, v);
    case OP_SUB => ArithApart(h, u, s, i, SUB, x, v);
    case OP_MUL => ArithApart(h, u, s, i, MUL, x, v);
    case OP_DIV => ArithApart(h, u, s, i, DIV, x, v);
    case OP_MOD => ArithApart(h, u, s, i, MOD, x, v);
    case OP_POW => ArithApart(h, u, s, i, POW, x, v);
    case _ =>
      if IsLoad(i.op) {
        LoadsApart(h, u, s, i, x, v);
      } else {
        OthersApart(h, u, s, i, x, v);
      }
  }
}
