/** The checker of precompiled code: `symbexec` and `luaG_checkcode`
    (lua-5.1/ldebug.c:276-468). */
module CodeChecker {
  import opened LuaVM
  import opened Opcodes

  /** The parts of a `Proto` that the checker reads. Of the functions defined inside it, these
      are their numbers of upvalues. */
  datatype Proto = Proto(code: seq<Instruction>, k: seq<Value>, p: seq<nat>, maxstacksize: nat, nups: nat,
    sizeupvalues: nat, sizelineinfo: nat, isVararg: bool, needsArg: bool)

  predicate ArgOk(p: Proto, r: nat, mode: ArgMask) {
    match mode
    case OpArgN => r == 0
    case OpArgU => true
    case OpArgR => r < p.maxstacksize
    case OpArgK => if IsK(r) then r - BITRK < |p.k| else r < p.maxstacksize
  }

  /** `SETLIST` whose count is the next word. */
  predicate CountFollows(i: Instruction) {
    i.op.OP_SETLIST? && i.c == 0
  }

  predicate JumpOk(p: Proto, dest: int) {
    0 <= dest < |p.code| && (dest > 0 ==> !CountFollows(p.code[dest - 1]))
  }

  predicate OperandsOk(p: Proto, pc: nat)
    requires pc < |p.code|
  {
    var i, mode := p.code[pc], ModeOf(p.code[pc].op);
    match mode.format
    case IABC => ArgOk(p, i.b, mode.b) && ArgOk(p, i.c, mode.c)
    case IABx => mode.b.OpArgK? ==> Bx(i) < |p.k|
    case IAsBx => mode.b.OpArgR? ==> JumpOk(p, pc + 1 + SBx(i))
  }

  /** `luaG_checkopenop` of the instruction after `pc`. */
  predicate OpenOk(p: Proto, pc: nat) {
    pc + 1 < |p.code| && var i := p.code[pc + 1];
    (i.op.OP_CALL? || i.op.OP_TAILCALL? || i.op.OP_RETURN? || i.op.OP_SETLIST?) && i.b == 0
  }

  predicate CallOk(p: Proto, pc: nat)
    requires pc < |p.code|
  {
    var i := p.code[pc];
    && (i.b != 0 ==> i.a + i.b - 1 < p.maxstacksize)
    && (if i.c == 0 then OpenOk(p, pc) else i.c != 1 ==> i.a + i.c - 2 < p.maxstacksize)
  }

  predicate ClosureOk(p: Proto, pc: nat)
    requires pc < |p.code|
  {
    var bx := Bx(p.code[pc]);
    && bx < |p.p| && pc + p.p[bx] < |p.code|
    && forall n :: pc < n <= pc + p.p[bx] ==> p.code[n].op.OP_GETUPVAL? || p.code[n].op.OP_MOVE?
  }

  predicate VarargOk(p: Proto, pc: nat)
    requires pc < |p.code|
  {
    var i := p.code[pc];
    p.isVararg && !p.needsArg && (i.b == 0 ==> OpenOk(p, pc)) && i.a + i.b - 2 < p.maxstacksize
  }

  /** What is asked of single operators. */
  predicate OperatorOk(p: Proto, pc: nat)
    requires pc < |p.code| && OperandsOk(p, pc)
  {
    var i := p.code[pc];
    match i.op
    case OP_LOADBOOL => i.c == 0 || pc + 2 < |p.code|
    case OP_GETUPVAL => i.b < p.nups
    case OP_SETUPVAL => i.b < p.nups
    case OP_GETGLOBAL => p.k[Bx(i)].Str?
    case OP_SETGLOBAL => p.k[Bx(i)].Str?
    case OP_SELF => i.a + 1 < p.maxstacksize
    case OP_CONCAT => i.b < i.c
    case OP_TFORLOOP => i.c >= 1 && i.a + 2 + i.c < p.maxstacksize
    case OP_FORLOOP => i.a + 3 < p.maxstacksize
    case OP_FORPREP => i.a + 3 < p.maxstacksize
    case OP_CALL => CallOk(p, pc)
    case OP_TAILCALL => CallOk(p, pc)
    case OP_RETURN => i.b > 1 ==> i.a + i.b - 2 < p.maxstacksize
    case OP_SETLIST => i.b > 0 ==> i.a + i.b < p.maxstacksize
    case OP_CLOSURE => ClosureOk(p, pc)
    case OP_VARARG => VarargOk(p, pc)
    case _ => true
  }

  /** What the instruction at `pc` must meet. */
  predicate CheckAt(p: Proto, pc: nat)
    requires pc < |p.code|
  {
    var i := p.code[pc];
    && !i.op.Unknown? && i.a < p.maxstacksize && OperandsOk(p, pc)
    && (ModeOf(i.op).test ==> pc + 2 < |p.code| && p.code[pc + 1].op.OP_JMP?)
    && OperatorOk(p, pc)
  }

  /** `precheck`. */
  predicate PreChecked(p: Proto)
    requires p.code != []
  {
    && p.maxstacksize <= MAXSTACK && p.sizeupvalues <= p.nups
    && (p.sizelineinfo == |p.code| || p.sizelineinfo == 0) && p.code[|p.code| - 1].op.OP_RETURN?
  }

  /** Words that are counts of a `SETLIST`, and no instructions. */
  function Following(p: Proto, pc: nat): nat
    requires pc < |p.code|
  {
    if CountFollows(p.code[pc]) then pc + 2 else pc + 1
  }

  /** All instructions from `pc` on, up to `lastpc`, are as they must be. */
  predicate CheckedFrom(p: Proto, pc: nat, lastpc: nat)
    requires lastpc <= |p.code|
    decreases lastpc - pc
  {
    pc < lastpc ==> CheckAt(p, pc) && CheckedFrom(p, Following(p, pc), lastpc)
  }

  predicate Checked(p: Proto) {
    p.code != [] && PreChecked(p) && CheckedFrom(p, 0, |p.code|)
  }

  /** The instruction changes register `reg`. */
  predicate Changes(i: Instruction, reg: nat) {
    || (ModeOf(i.op).setsA && i.a == reg)
    || (i.op.OP_LOADNIL? && i.a <= reg <= i.b) || (i.op.OP_SELF? && reg == i.a + 1)
    || (i.op.OP_TFORLOOP? && reg >= i.a + 2) || ((i.op.OP_CALL? || i.op.OP_TAILCALL?) && reg >= i.a)
  }

  /** The instructions that leave register `a` alone, and what the others change besides it. */
  lemma ChangesAre(i: Instruction, reg: nat)
    ensures Changes(i, reg) <==> match i.op
      case OP_SETGLOBAL => false
      case OP_SETUPVAL => false
      case OP_SETTABLE => false
      case OP_JMP => false
      case OP_EQ => false
      case OP_LT => false
      case OP_LE => false
      case OP_RETURN => false
      case OP_SETLIST => false
      case OP_CLOSE => false
      case OP_LOADNIL => reg == i.a || i.a <= reg <= i.b
      case OP_SELF => reg == i.a || reg == i.a + 1
      case OP_CALL => i.a <= reg
      case OP_TAILCALL => i.a <= reg
      case OP_TFORLOOP => i.a + 2 <= reg
      case _ => reg == i.a
  {
  }

  predicate IsJump(i: Instruction) {
    i.op.OP_JMP? || i.op.OP_FORLOOP? || i.op.OP_FORPREP?
  }

  lemma PreFacts(p: Proto)
    requires p.code != [] && PreChecked(p)
    ensures p.code[|p.code| - 1].op.OP_RETURN?
  {
  }

  /** Only calls and generic loops change registers above all others. */
  lemma ChangesNone(p: Proto, pc: nat)
    requires p.code != [] && PreChecked(p) && pc < |p.code| && CheckAt(p, pc) && Changes(p.code[pc], NO_REG)
    ensures var o := p.code[pc].op; o.OP_CALL? || o.OP_TAILCALL? || o.OP_TFORLOOP?
  {
  }

  /** Where the pass goes from an instruction: when it looks for a register, it goes along with
      forward jumps up to `lastpc`. */
  function NextVisited(p: Proto, pc: nat, lastpc: nat, reg: nat): (next: nat)
    requires pc < |p.code|
    ensures pc < next
  {
    var i := p.code[pc];
    var dest := pc + 1 + SBx(i);
    if IsJump(i) then if reg != NO_REG && pc < dest <= lastpc then dest else pc + 1 else Following(p, pc)
  }

  /** The pass that has come to `pc` will come to `q`. */
  predicate Visits(p: Proto, pc: nat, lastpc: nat, reg: nat, q: nat)
    requires lastpc <= |p.code|
    decreases lastpc - pc
  {
    pc < lastpc && (pc == q || Visits(p, NextVisited(p, pc, lastpc, reg), lastpc, reg, q))
  }

  lemma {:induction false} VisitsAhead(p: Proto, pc: nat, lastpc: nat, reg: nat, q: nat)
    requires lastpc <= |p.code| && Visits(p, pc, lastpc, reg, q)
    ensures pc <= q < lastpc
    decreases lastpc - pc
  {
    if pc != q { VisitsAhead(p, NextVisited(p, pc, lastpc, reg), lastpc, reg, q); }
  }

  /** Of the instructions that the pass comes to, the one at `q` is the last that changes the register. */
  ghost predicate LastChange(p: Proto, lastpc: nat, reg: nat, q: nat)
    requires lastpc <= |p.code|
  {
    && q < |p.code| && Visits(p, 0, lastpc, reg, q) && Changes(p.code[q], reg)
    && forall x: nat :: q < x < |p.code| && Visits(p, 0, lastpc, reg, x) ==> !Changes(p.code[x], reg)
  }

  ghost predicate NoChange(p: Proto, lastpc: nat, reg: nat)
    requires lastpc <= |p.code|
  {
    forall x: nat :: x < |p.code| && Visits(p, 0, lastpc, reg, x) ==> !Changes(p.code[x], reg)
  }

  /** The next word is an instruction, and is not jumped over. */
  predicate Straight(i: Instruction) {
    && (i.op.OP_JMP? || i.op.OP_FORLOOP? || i.op.OP_FORPREP? ==> i.b * 512 + i.c <= 131071)
    && !(i.op.OP_SETLIST? && i.c == 0)
  }

  /** Without forward jumps and counts, the pass comes to everything before `lastpc`. */
  lemma {:induction false} VisitsAll(p: Proto, pc: nat, lastpc: nat, reg: nat, q: nat)
    requires pc <= q < lastpc <= |p.code| && forall x :: pc <= x < lastpc ==> Straight(p.code[x])
    ensures Visits(p, pc, lastpc, reg, q)
    decreases lastpc - pc
  {
    if pc != q { VisitsAll(p, pc + 1, lastpc, reg, q); }
  }

  /** In such code, the last change is the last instruction before `lastpc` that changes the register. */
  lemma LastBefore(p: Proto, lastpc: nat, reg: nat, q: nat)
    requires lastpc <= |p.code| && LastChange(p, lastpc, reg, q)
    requires forall x :: 0 <= x < lastpc ==> Straight(p.code[x])
    ensures q < lastpc && Changes(p.code[q], reg) && forall x :: q < x < lastpc ==> !Changes(p.code[x], reg)
  {
    hide Changes;
    VisitsAhead(p, 0, lastpc, reg, q);
    forall x | q < x < lastpc
      ensures !Changes(p.code[x], reg)
    {
      VisitsAll(p, 0, lastpc, reg, x);
    }
  }

  /** A pass for a register goes along with a jump to a later position: it comes to nothing in between. */
  lemma JumpTaken(p: Proto, pc: nat, lastpc: nat, reg: nat, x: nat)
    requires pc < lastpc <= |p.code| && reg != NO_REG && p.code[pc].op.OP_JMP?
    requires var dest := pc + 1 + (p.code[pc].b * 512 + p.code[pc].c - 131071); pc < x < dest <= lastpc
    ensures !Visits(p, pc, lastpc, reg, x)
    ensures var dest := pc + 1 + (p.code[pc].b * 512 + p.code[pc].c - 131071);
      dest < lastpc ==> Visits(p, pc, lastpc, reg, dest)
  {
    VisitedNow(p, pc, lastpc, reg);
  }

  /** `symbexec`. With `NO_REG` it checks all instructions before `lastpc`; with a register
      it skips what a forward jump skips, and finds the last instruction that changes
      the register, or the final `return` if none does. */
  method Symbexec(p: Proto, lastpc: nat, reg: nat) returns (ok: bool, i: Instruction)
    requires p.code != [] && lastpc <= |p.code|
    ensures ok ==> PreChecked(p)
    ensures ok ==>
      (exists q: nat :: LastChange(p, lastpc, reg, q) && i == p.code[q]) ||
      (NoChange(p, lastpc, reg) && i == p.code[|p.code| - 1])
    ensures PreChecked(p) && (forall pc :: 0 <= pc < lastpc ==> CheckAt(p, pc)) ==> ok
    ensures reg == NO_REG ==> (ok <==> PreChecked(p) && CheckedFrom(p, 0, lastpc))
    ensures ok && reg == NO_REG ==> i.op.OP_RETURN? || i.op.OP_CALL? || i.op.OP_TAILCALL? || i.op.OP_TFORLOOP?
  {
    hide CheckAt, Changes, SBx, PreChecked;
    var last := |p.code| - 1;
    i := p.code[last];
    if !PreChecked(p) { return false, i; }
    PreFacts(p);
    var pc: nat := 0;
    ghost var found := false;
    while pc < lastpc
      invariant 0 <= last < |p.code|
      invariant if found then last < pc && Visits(p, 0, lastpc, reg, last) && Changes(p.code[last], reg)
                else last == |p.code| - 1
      invariant forall x: nat :: x < pc && x < |p.code| && Visits(p, 0, lastpc, reg, x) && Changes(p.code[x], reg) ==>
        found && x <= last
      invariant forall x: nat :: pc <= x ==> (Visits(p, 0, lastpc, reg, x) <==> Visits(p, pc, lastpc, reg, x))
      invariant reg == NO_REG ==> (CheckedFrom(p, 0, lastpc) <==> CheckedFrom(p, pc, lastpc))
      invariant reg == NO_REG ==>
        var o := p.code[last].op; o.OP_RETURN? || o.OP_CALL? || o.OP_TAILCALL? || o.OP_TFORLOOP?
      decreases lastpc - pc
    {
      if !CheckAt(p, pc) { return false, i; }
      var j := p.code[pc];
      ghost var pc0 := pc;
      VisitedNow(p, pc, lastpc, reg);
      if reg == NO_REG && Changes(j, reg) { ChangesNone(p, pc); }
      if Changes(j, reg) {
        last := pc;
        found := true;
      }
      if IsJump(j) {
        var dest := pc + 1 + SBx(j);
        if reg != NO_REG && pc < dest <= lastpc { pc := dest - 1; }
      } else if CountFollows(j) {
        pc := pc + 1;
      }
      pc := pc + 1;
      assert pc == NextVisited(p, pc0, lastpc, reg);
    }
    ok, i := true, p.code[last];
  }

  /** The pass is at `pc`: of what is before the next instruction, it will come to nothing else. */
  lemma VisitedNow(p: Proto, pc: nat, lastpc: nat, reg: nat)
    requires pc < lastpc <= |p.code|
    ensures Visits(p, pc, lastpc, reg, pc)
    ensures var next := NextVisited(p, pc, lastpc, reg);
      && (forall x: nat :: pc < x < next ==> !Visits(p, pc, lastpc, reg, x))
      && (forall x: nat :: next <= x ==> (Visits(p, pc, lastpc, reg, x) <==> Visits(p, next, lastpc, reg, x)))
  {
    var next := NextVisited(p, pc, lastpc, reg);
    forall x: nat | pc < x < next
      ensures !Visits(p, pc, lastpc, reg, x)
    {
      if Visits(p, next, lastpc, reg, x) { VisitsAhead(p, next, lastpc, reg, x); }
    }
  }

  /** The instruction whose word is zero. */
  const ZERO := Instruction(OP_MOVE, 0, 0, 0)

  /** `luaG_checkcode`. */
  method CheckCode(p: Proto) returns (ok: bool)
    requires p.code != []
    ensures ok <==> Checked(p)
  {
    var checked, i := Symbexec(p, |p.code|, NO_REG);
    ok := checked && i != ZERO;
  }
}
