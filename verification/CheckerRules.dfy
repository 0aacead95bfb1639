/** What the checker asks of each instruction, in terms of what the instruction uses: registers,
    constants and upvalues that are there, and positions that are in the code
    (lua-5.1/ldebug.c:276-457). */
module CheckerRules {
  import opened Opcodes
  import opened CodeChecker
  import opened Interpreter

  /** The instruction at `pc` is `op a b c`. */
  ghost predicate Has(p: Proto, pc: nat, op: OpCode, a: nat, b: nat, c: nat) {
    pc < |p.code| && p.code[pc] == Instruction(op, a, b, c)
  }

  predicate IsThere(p: Proto, x: int) {
    x < p.maxstacksize
  }

  /** The registers from `a` up to before `end` are there. */
  ghost predicate RegistersTo(p: Proto, a: int, end: int) {
    forall x :: a <= x < end ==> IsThere(p, x)
  }

  lemma LastIsThere(p: Proto, a: int, end: int)
    ensures RegistersTo(p, a, end) <==> a >= end || end - 1 < p.maxstacksize
  {
    if a < end && RegistersTo(p, a, end) { assert IsThere(p, end - 1); }
  }

  /** The next instruction takes as many values as there are: its field B is zero. */
  ghost predicate TakesAllNext(p: Proto, pc: nat) {
    && pc + 1 < |p.code| && p.code[pc + 1].b == 0
    && p.code[pc + 1].op in {OP_CALL, OP_TAILCALL, OP_RETURN, OP_SETLIST}
  }

  /** A call needs its function and its arguments, unless they are all there are, and room for its
      results; if it is to give all it has, the next instruction takes them. */
  lemma CallRule(p: Proto, pc: nat, op: OpCode, a: nat, b: nat, c: nat)
    requires Has(p, pc, op, a, b, c) && (op == OP_CALL || op == OP_TAILCALL)
    ensures CheckAt(p, pc) <==>
      && a < p.maxstacksize && (b > 0 ==> RegistersTo(p, a, a + b))
      && (if c == 0 then TakesAllNext(p, pc) else RegistersTo(p, a, a + c - 1))
  {
    LastIsThere(p, a, a + b);
    LastIsThere(p, a, a + c - 1);
  }

  /** `return` needs the values it returns, unless they are all there are. */
  lemma ReturnRule(p: Proto, pc: nat, a: nat, b: nat, c: nat)
    requires Has(p, pc, OP_RETURN, a, b, c)
    ensures CheckAt(p, pc) <==> a < p.maxstacksize && c == 0 && RegistersTo(p, a, a + b - 1)
  {
    LastIsThere(p, a, a + b - 1);
  }

  /** `OP_SETLIST` needs the table and the values after it, unless they are all there are. */
  lemma SetListRule(p: Proto, pc: nat, a: nat, b: nat, c: nat)
    requires Has(p, pc, OP_SETLIST, a, b, c)
    ensures CheckAt(p, pc) <==> RegistersTo(p, a, a + b + 1)
  {
    LastIsThere(p, a, a + b + 1);
  }

  /** A generic `for` calls with three registers and has at least one result; the jump back follows. */
  lemma GenericForRule(p: Proto, pc: nat, a: nat, b: nat, c: nat)
    requires Has(p, pc, OP_TFORLOOP, a, b, c)
    ensures CheckAt(p, pc) <==>
      && b == 0 && c >= 1 && RegistersTo(p, a, a + 3 + c) && pc + 2 < |p.code| && p.code[pc + 1].op == OP_JMP
  {
    LastIsThere(p, a, a + 3 + c);
  }

  /** The function is there, and after the instruction there is one for each of its upvalues that
      says where it comes from. */
  lemma ClosureRule(p: Proto, pc: nat, a: nat, b: nat, c: nat)
    requires Has(p, pc, OP_CLOSURE, a, b, c)
    ensures CheckAt(p, pc) <==>
      && a < p.maxstacksize && b * 512 + c < |p.p| && pc + p.p[b * 512 + c] < |p.code|
      && forall n :: pc < n <= pc + p.p[b * 512 + c] ==> p.code[n].op in {OP_GETUPVAL, OP_MOVE}
  {
    var n := b * 512 + c;
    assert Bx(p.code[pc]) == n;
    if n < |p.p| && pc + p.p[n] < |p.code| {
      assert forall x :: pc < x <= pc + p.p[n] ==>
        (p.code[x].op in {OP_GETUPVAL, OP_MOVE} <==> p.code[x].op.OP_GETUPVAL? || p.code[x].op.OP_MOVE?);
    }
  }

  /** Only a function with variable arguments, and without the table of older versions, asks for them. */
  lemma VarargRule(p: Proto, pc: nat, a: nat, b: nat, c: nat)
    requires Has(p, pc, OP_VARARG, a, b, c)
    ensures CheckAt(p, pc) <==>
      && a < p.maxstacksize && c == 0 && p.isVararg && !p.needsArg
      && (if b == 0 then TakesAllNext(p, pc) else RegistersTo(p, a, a + b - 1))
  {
    LastIsThere(p, a, a + b - 1);
  }

  /** Fields that an instruction does not have. */
  predicate UnusedZero(i: Instruction) {
    && (i.op in {OP_MOVE, OP_LOADNIL, OP_GETUPVAL, OP_SETUPVAL, OP_UNM, OP_NOT, OP_LEN} ==> i.c == 0)
    && (i.op == OP_CLOSE ==> i.b == 0 && i.c == 0)
  }

  /** A position in the code that is no count of an `OP_SETLIST`. */
  predicate LandsWell(p: Proto, dest: int) {
    0 <= dest < |p.code| && (dest > 0 ==> !(p.code[dest - 1].op == OP_SETLIST && p.code[dest - 1].c == 0))
  }

  /** What an instruction uses is what its operands name. */
  lemma UsedOperands(i: Instruction)
    requires !Elsewhere(i.op) && !i.op.Unknown?
    ensures ModeOf(i.op).format.IABC? && ModeOf(i.op).b.OpArgR? && i.op != OP_TEST && i.op != OP_CONCAT ==>
      i.b in RegsUsed(i)
    ensures ModeOf(i.op).format.IABC? && ModeOf(i.op).b.OpArgK? ==>
      if i.b >= 256 then i.b - 256 in ConstantsUsed(i) else i.b in RegsUsed(i)
    ensures ModeOf(i.op).format.IABC? && ModeOf(i.op).c.OpArgK? ==>
      if i.c >= 256 then i.c - 256 in ConstantsUsed(i) else i.c in RegsUsed(i)
    ensures i.op.OP_LOADK? || i.op.OP_GETGLOBAL? || i.op.OP_SETGLOBAL? ==> i.b * 512 + i.c in ConstantsUsed(i)
    ensures i.op.OP_GETUPVAL? || i.op.OP_SETUPVAL? ==> i.b in UpvaluesUsed(i)
    ensures i.op.OP_SELF? ==> i.a + 1 in RegsUsed(i)
    ensures i.op.OP_FORLOOP? || i.op.OP_FORPREP? ==> i.a + 3 in RegsUsed(i)
    ensures i.op.OP_CONCAT? && i.b < i.c ==> i.c in RegsUsed(i) && i.b in RegsUsed(i)
  {
  }

  /** The other instructions: all that they use is there, fields that they do not have are zero, jumps
      stay in the code and do not lead to a count, and what is skipped is followed by code. */
  ghost predicate KeepsRules(p: Proto, pc: nat)
    requires pc < |p.code|
  {
    var i := p.code[pc];
    && i.a < p.maxstacksize && InRange(p, i) && UnusedZero(i) && (i.op == OP_TEST ==> i.b < p.maxstacksize)
    && (i.op == OP_CONCAT ==> i.b < i.c)
    && (i.op == OP_GETGLOBAL || i.op == OP_SETGLOBAL ==> i.b * 512 + i.c < |p.k| && p.k[i.b * 512 + i.c].Str?)
    && (i.op in {OP_EQ, OP_LT, OP_LE, OP_TEST, OP_TESTSET} ==> pc + 2 < |p.code| && p.code[pc + 1].op == OP_JMP)
    && (i.op == OP_LOADBOOL && i.c != 0 ==> pc + 2 < |p.code|)
    && (i.op in {OP_JMP, OP_FORLOOP, OP_FORPREP} ==> LandsWell(p, pc + 1 + (i.b * 512 + i.c - 131071)))
  }

  lemma RulesMet(p: Proto, pc: nat)
    requires pc < |p.code| && !Elsewhere(p.code[pc].op) && p.code[pc].op != OP_RETURN && CheckAt(p, pc)
    ensures KeepsRules(p, pc)
  {
    OperandsInRange(p, pc);
    hide InRange, CallOk, ClosureOk, VarargOk, OpenOk;
  }

  lemma OperandsSuffice(p: Proto, pc: nat)
    requires pc < |p.code| && !Elsewhere(p.code[pc].op) && !p.code[pc].op.Unknown? && p.code[pc].op != OP_RETURN
    requires KeepsRules(p, pc)
    ensures OperandsOk(p, pc)
  {
    UsedOperands(p.code[pc]);
    hide RegsUsed, ConstantsUsed, UpvaluesUsed, CheckAt, OperatorOk;
  }

  lemma OperatorSuffices(p: Proto, pc: nat)
    requires pc < |p.code| && !Elsewhere(p.code[pc].op) && !p.code[pc].op.Unknown? && p.code[pc].op != OP_RETURN
    requires KeepsRules(p, pc) && OperandsOk(p, pc)
    ensures OperatorOk(p, pc)
  {
    UsedOperands(p.code[pc]);
    hide OperandsOk, RegsUsed, ConstantsUsed, UpvaluesUsed, CallOk, ClosureOk, VarargOk, OpenOk, UnusedZero, LandsWell;
  }

  lemma RulesSuffice(p: Proto, pc: nat)
    requires pc < |p.code| && !Elsewhere(p.code[pc].op) && !p.code[pc].op.Unknown? && p.code[pc].op != OP_RETURN
    requires KeepsRules(p, pc)
    ensures CheckAt(p, pc)
  {
    OperandsSuffice(p, pc);
    OperatorSuffices(p, pc);
    hide OperandsOk, OperatorOk, InRange, UnusedZero, LandsWell;
  }

  lemma OtherRules(p: Proto, pc: nat)
    requires pc < |p.code| && !Elsewhere(p.code[pc].op) && !p.code[pc].op.Unknown? && p.code[pc].op != OP_RETURN
    ensures CheckAt(p, pc) <==> KeepsRules(p, pc)
  {
    hide CheckAt, KeepsRules;
    if CheckAt(p, pc) { RulesMet(p, pc); }
    if KeepsRules(p, pc) { RulesSuffice(p, pc); }
  }
}
