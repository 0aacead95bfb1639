/** The interpreter loop over all instructions but those that call, make closures, or work on
    lists of values of open length (lua-5.1/lvm.c:373-760), and what code that passes the
    checker can do. */
module Interpreter {
  import opened LuaVM
  import opened Opcodes
  import opened CodeChecker

  /** Everything outside the function: tables, globals, other closures. */
  type World = nat

  /** What an instruction asks of the rest of the system. */
  datatype Event =
    | Index | SetIndex | NewTable | Concat | Operation(op: ArithOp) | Minus | Length | Compare(cmp: CmpOp)
    | Close(level: nat)

  /** Its effect: closures that share registers of the function may have changed them. */
  datatype Effect = Effect(v: Value, r: Regs, w: World)

  /** The rest of the system. `ask` is given what the event is about; `None` is an error. */
  datatype Host = Host(
    env: Value,
    num: (ArithOp, Number, Number) -> Number,
    unm: Number -> Number,
    less: (Number, Number) -> bool,
    lesseq: (Number, Number) -> bool,
    tonumber: Value -> Option<Number>,
    raw: Value -> Number,  // `nvalue` of what need not be a number
    ask: (Event, seq<Value>, Regs, World) -> Option<Effect>)

  /** A state of a function that runs. */
  datatype Status = Status(pc: int, r: Regs, up: seq<Value>, w: World)

  /** `Away`: the instruction is not one of those of this model. */
  datatype Turn = Goes(s: Status) | Fails | Returns | Away

  /** The word at a position, and the constants. */
  datatype Unit = Unit(code: seq<Instruction>, k: seq<Value>)

  function K(u: Unit, x: nat): Value {
    if x < |u.k| then u.k[x] else Nil
  }

  function RK(u: Unit, r: Regs, x: nat): Value {
    if IsK(x) then K(u, x - BITRK) else Reg(r, x)
  }

  function Up(s: Status, x: nat): Value {
    if x < |s.up| then s.up[x] else Nil
  }

  /** The registers as an event leaves them. */
  function After(r: Regs, r': Regs): (q: Regs)
    ensures |q| == |r|
  {
    if |r'| == |r| then r' else r
  }

  /** If the run goes on, it does so at one of two positions, with as many registers and
      upvalues as before. */
  predicate OnAt(s: Status, t: Turn, pc1: int, pc2: int) {
    t.Goes? ==> (t.s.pc == pc1 || t.s.pc == pc2) && |t.s.r| == |s.r| && |t.s.up| == |s.up|
  }

  /** An event whose result goes to register `a`. */
  function Asked(h: Host, s: Status, e: Event, about: seq<Value>, a: nat): (t: Turn)
    ensures OnAt(s, t, s.pc + 1, s.pc + 1) && (t.Goes? || t.Fails?)
  {
    var x := h.ask(e, about, s.r, s.w);
    if x.None? then Fails
    else Goes(Status(s.pc + 1, SetReg(After(s.r, x.value.r), a, x.value.v), s.up, x.value.w))
  }

  /** An event without a result. */
  function Told(h: Host, s: Status, e: Event, about: seq<Value>): (t: Turn)
    ensures OnAt(s, t, s.pc + 1, s.pc + 1) && (t.Goes? || t.Fails?)
  {
    var x := h.ask(e, about, s.r, s.w);
    if x.None? then Fails else Goes(Status(s.pc + 1, After(s.r, x.value.r), s.up, x.value.w))
  }

  function Set(s: Status, a: nat, v: Value): (t: Turn)
    ensures OnAt(s, t, s.pc + 1, s.pc + 1) && t.Goes?
  {
    Goes(s.(pc := s.pc + 1, r := SetReg(s.r, a, v)))
  }

  /** The registers `b` to `c`. */
  function RegsOf(r: Regs, b: nat, c: nat): seq<Value>
    decreases c - b
  {
    if b > c then [] else [Reg(r, b)] + RegsOf(r, b + 1, c)
  }

  function NumberIn(h: Host, v: Value): Number {
    if v.Num? then v.n else h.raw(v)
  }

  function ArithTurn(h: Host, u: Unit, s: Status, i: Instruction, op: ArithOp): (t: Turn)
    ensures OnAt(s, t, s.pc + 1, s.pc + 1) && (t.Goes? || t.Fails?)
  {
    var x, y := RK(u, s.r, i.b), RK(u, s.r, i.c);
    if x.Num? && y.Num? then Set(s, i.a, Num(h.num(op, x.n, y.n))) else Asked(h, s, Operation(op), [x, y], i.a)
  }

  /** A test that holds takes the jump after it, which it skips otherwise. */
  function TestTurn(u: Unit, s: Status, holds: bool): (t: Turn)
    ensures 0 <= s.pc + 1 < |u.code| ==> OnAt(s, t, s.pc + 2, s.pc + 2 + SBx(u.code[s.pc + 1])) && t.Goes?
  {
    if !holds then Goes(s.(pc := s.pc + 2))
    else if 0 <= s.pc + 1 < |u.code| then Goes(s.(pc := s.pc + 2 + SBx(u.code[s.pc + 1])))
    else Away
  }

  function CompareTurn(h: Host, u: Unit, s: Status, i: Instruction, op: CmpOp): (t: Turn)
    ensures 0 <= s.pc + 1 < |u.code| ==>
      OnAt(s, t, s.pc + 2, s.pc + 2 + SBx(u.code[s.pc + 1])) && (t.Goes? || t.Fails?)
  {
    var x := h.ask(Compare(op), [RK(u, s.r, i.b), RK(u, s.r, i.c)], s.r, s.w);
    if x.None? then Fails
    else
      var holds := (if Truthy(x.value.v) then 1 else 0) == i.a;
      TestTurn(u, s.(r := After(s.r, x.value.r), w := x.value.w), holds)
  }

  /** The operands lie in registers that the concatenation may use; its result is left in the first. */
  function ConcatTurn(h: Host, s: Status, i: Instruction): (t: Turn)
    ensures OnAt(s, t, s.pc + 1, s.pc + 1) && (t.Goes? || t.Fails?)
  {
    var x := h.ask(Concat, RegsOf(s.r, i.b, i.c), s.r, s.w);
    if x.None? then Fails
    else
      var r := SetReg(After(s.r, x.value.r), i.b, x.value.v);
      Goes(Status(s.pc + 1, SetReg(r, i.a, Reg(r, i.b)), s.up, x.value.w))
  }

  function ForLoopTurn(h: Host, s: Status, i: Instruction): (t: Turn)
    ensures OnAt(s, t, s.pc + 1, s.pc + 1 + SBx(i)) && t.Goes?
  {
    var step := NumberIn(h, Reg(s.r, i.a + 2));
    var idx, limit := h.num(ADD, NumberIn(h, Reg(s.r, i.a)), step), NumberIn(h, Reg(s.r, i.a + 1));
    if (if h.less(0, step) then h.lesseq(idx, limit) else h.lesseq(limit, idx))
    then Goes(s.(pc := s.pc + 1 + SBx(i), r := SetReg(SetReg(s.r, i.a, Num(idx)), i.a + 3, Num(idx))))
    else Goes(s.(pc := s.pc + 1))
  }

  function ForPrepTurn(h: Host, s: Status, i: Instruction): (t: Turn)
    ensures OnAt(s, t, s.pc + 1 + SBx(i), s.pc + 1 + SBx(i)) && (t.Goes? || t.Fails?)
  {
    var init, limit, step := h.tonumber(Reg(s.r, i.a)), h.tonumber(Reg(s.r, i.a + 1)), h.tonumber(Reg(s.r, i.a + 2));
    if init.None? || limit.None? || step.None? then Fails
    else
      var r := SetReg(SetReg(SetReg(s.r, i.a, Num(h.num(SUB, init.value, step.value))), i.a + 1, Num(limit.value)),
        i.a + 2, Num(step.value));
      Goes(s.(pc := s.pc + 1 + SBx(i), r := r))
  }

  /** One turn of the loop of `luaV_execute`. */
  function Execute(h: Host, u: Unit, s: Status): Turn {
    if !(0 <= s.pc < |u.code|) then Away
    else
      var i := u.code[s.pc];
      match i.op
      case OP_MOVE => Set(s, i.a, Reg(s.r, i.b))
      case OP_LOADK => Set(s, i.a, K(u, Bx(i)))
      case OP_LOADBOOL => Goes(s.(pc := if i.c != 0 then s.pc + 2 else s.pc + 1, r := SetReg(s.r, i.a, Bool(i.b != 0))))
      case OP_LOADNIL => Goes(s.(pc := s.pc + 1, r := SetNils(s.r, i.a, i.b)))
      case OP_GETUPVAL => Set(s, i.a, Up(s, i.b))
      case OP_GETGLOBAL => Asked(h, s, Index, [h.env, K(u, Bx(i))], i.a)
      case OP_GETTABLE => Asked(h, s, Index, [Reg(s.r, i.b), RK(u, s.r, i.c)], i.a)
      case OP_SETGLOBAL => Told(h, s, SetIndex, [h.env, K(u, Bx(i)), Reg(s.r, i.a)])
      case OP_SETUPVAL => Goes(s.(pc := s.pc + 1, up := if i.b < |s.up| then s.up[i.b := Reg(s.r, i.a)] else s.up))
      case OP_SETTABLE => Told(h, s, SetIndex, [Reg(s.r, i.a), RK(u, s.r, i.b), RK(u, s.r, i.c)])
      case OP_NEWTABLE => Asked(h, s, NewTable, [], i.a)
      case OP_SELF =>
        var r := SetReg(s.r, i.a + 1, Reg(s.r, i.b));
        Asked(h, s.(r := r), Index, [Reg(r, i.b), RK(u, r, i.c)], i.a)
      case OP_ADD => ArithTurn(h, u, s, i, ADD)
      case OP_SUB => ArithTurn(h, u, s, i, SUB)
      case OP_MUL => ArithTurn(h, u, s, i, MUL)
      case OP_DIV => ArithTurn(h, u, s, i, DIV)
      case OP_MOD => ArithTurn(h, u, s, i, MOD)
      case OP_POW => ArithTurn(h, u, s, i, POW)
      case OP_UNM =>
        var x := Reg(s.r, i.b);
        if x.Num? then Set(s, i.a, Num(h.unm(x.n))) else Asked(h, s, Minus, [x], i.a)
      case OP_NOT => Set(s, i.a, Bool(!Truthy(Reg(s.r, i.b))))
      case OP_LEN => Asked(h, s, Length, [Reg(s.r, i.b)], i.a)
      case OP_CONCAT => ConcatTurn(h, s, i)
      case OP_JMP => Goes(s.(pc := s.pc + 1 + SBx(i)))
      case OP_EQ => CompareTurn(h, u, s, i, EQ)
      case OP_LT => CompareTurn(h, u, s, i, LT)
      case OP_LE => CompareTurn(h, u, s, i, LE)
      case OP_TEST => TestTurn(u, s, (if Truthy(Reg(s.r, i.a)) then 0 else 1) != i.c)
      case OP_TESTSET =>
        var holds := (if Truthy(Reg(s.r, i.b)) then 0 else 1) != i.c;
        TestTurn(u, if holds then s.(r := SetReg(s.r, i.a, Reg(s.r, i.b))) else s, holds)
      case OP_RETURN => Returns
      case OP_FORLOOP => ForLoopTurn(h, s, i)
      case OP_FORPREP => ForPrepTurn(h, s, i)
      case OP_CLOSE => Told(h, s, Close(i.a), [])
      case _ => Away
  }

  function Run(h: Host, u: Unit, s: Status, n: nat): Turn
    decreases n
  {
    if n == 0 then Goes(s)
    else
      var t := Execute(h, u, s);
      if t.Goes? then Run(h, u, t.s, n - 1) else t
  }

  // ----- what checked code can do -----

  function RkRegs(x: nat): set<nat> {
    if IsK(x) then {} else {x}
  }

  function RkConstants(x: nat): set<nat> {
    if IsK(x) then {x - BITRK} else {}
  }

  predicate Between(a: nat, x: nat, b: int) {
    a <= x <= b
  }

  function RegsFrom(a: nat, b: int): set<nat> {
    set x: nat | x <= b && Between(a, x, b)
  }

  /** The registers that the interpreter reads or writes for an instruction. */
  function RegsUsed(i: Instruction): set<nat> {
    match i.op
    case OP_LOADNIL => {i.b} + RegsFrom(i.a, i.b)
    case OP_GETTABLE => {i.a, i.b} + RkRegs(i.c)
    case OP_SETTABLE => {i.a} + RkRegs(i.b) + RkRegs(i.c)
    case OP_SELF => {i.a, i.a + 1, i.b} + RkRegs(i.c)
    case OP_CONCAT => {i.a, i.b} + RegsFrom(i.b, i.c)
    case OP_JMP => {}
    case OP_EQ => RkRegs(i.b) + RkRegs(i.c)
    case OP_LT => RkRegs(i.b) + RkRegs(i.c)
    case OP_LE => RkRegs(i.b) + RkRegs(i.c)
    case OP_RETURN => RegsFrom(i.a, i.a + i.b - 2)
    case OP_FORLOOP => RegsFrom(i.a, i.a + 3)
    case OP_FORPREP => RegsFrom(i.a, i.a + 3)
    case OP_MOVE => {i.a, i.b}
    case OP_UNM => {i.a, i.b}
    case OP_NOT => {i.a, i.b}
    case OP_LEN => {i.a, i.b}
    case OP_TESTSET => {i.a, i.b}
    case _ => {i.a} + if IsArith(i.op) then RkRegs(i.b) + RkRegs(i.c) else {}
  }

  predicate IsArith(op: OpCode) {
    op.OP_ADD? || op.OP_SUB? || op.OP_MUL? || op.OP_DIV? || op.OP_MOD? || op.OP_POW?
  }

  function ConstantsUsed(i: Instruction): set<nat> {
    match i.op
    case OP_LOADK => {Bx(i)}
    case OP_GETGLOBAL => {Bx(i)}
    case OP_SETGLOBAL => {Bx(i)}
    case OP_GETTABLE => RkConstants(i.c)
    case OP_SELF => RkConstants(i.c)
    case OP_SETTABLE => RkConstants(i.b) + RkConstants(i.c)
    case OP_EQ => RkConstants(i.b) + RkConstants(i.c)
    case OP_LT => RkConstants(i.b) + RkConstants(i.c)
    case OP_LE => RkConstants(i.b) + RkConstants(i.c)
    case _ => if IsArith(i.op) then RkConstants(i.b) + RkConstants(i.c) else {}
  }

  function UpvaluesUsed(i: Instruction): set<nat> {
    if i.op.OP_GETUPVAL? || i.op.OP_SETUPVAL? then {i.b} else {}
  }

  ghost predicate InRange(p: Proto, i: Instruction) {
    && (forall x :: x in RegsUsed(i) ==> x < p.maxstacksize)
    && (forall x :: x in ConstantsUsed(i) ==> x < |p.k|)
    && (forall x :: x in UpvaluesUsed(i) ==> x < p.nups)
  }

  /** Instructions that are not part of this model. */
  predicate Elsewhere(op: OpCode) {
    op.OP_CALL? || op.OP_TAILCALL? || op.OP_TFORLOOP? || op.OP_SETLIST? || op.OP_CLOSURE? || op.OP_VARARG?
  }

  /** No word of the code is the count of a `SETLIST`. */
  ghost predicate NoCounts(p: Proto) {
    forall pc :: 0 <= pc < |p.code| ==> !CountFollows(p.code[pc])
  }

  lemma {:induction false} AllChecked(p: Proto, from: nat, pc: nat)
    requires NoCounts(p) && from <= pc < |p.code| && CheckedFrom(p, from, |p.code|)
    ensures CheckAt(p, pc)
    decreases pc - from
  {
    hide CheckAt;
    if from < pc { AllChecked(p, from + 1, pc); }
  }

  /** The instruction that minus before nil, true or false leads to is refused. */
  lemma MinusRefused(p: Proto, pc: nat, a: nat, i: nat)
    requires NoCounts(p) && pc < |p.code| && p.code[pc] == Encode(Unm(a, BITRK + i))
    ensures !Checked(p)
  {
    hide CheckedFrom;
    if Checked(p) { AllChecked(p, 0, pc); }
  }

  lemma RegistersInRange(p: Proto, pc: nat)
    requires pc < |p.code| && CheckAt(p, pc) && !Elsewhere(p.code[pc].op)
    ensures forall x :: x in RegsUsed(p.code[pc]) ==> x < p.maxstacksize
  {
    hide JumpOk, CallOk, ClosureOk, VarargOk, Bx, SBx;
  }

  lemma ConstantsInRange(p: Proto, pc: nat)
    requires pc < |p.code| && CheckAt(p, pc) && !Elsewhere(p.code[pc].op)
    ensures forall x :: x in ConstantsUsed(p.code[pc]) ==> x < |p.k|
  {
    hide JumpOk, CallOk, ClosureOk, VarargOk, Bx, SBx;
  }

  lemma OperandsInRange(p: Proto, pc: nat)
    requires pc < |p.code| && CheckAt(p, pc) && !Elsewhere(p.code[pc].op)
    ensures InRange(p, p.code[pc])
  {
    hide JumpOk, CallOk, ClosureOk, VarargOk, Bx, SBx;
    RegistersInRange(p, pc);
    ConstantsInRange(p, pc);
    hide RegsUsed, ConstantsUsed;
  }

  /** Where checked code goes on from an instruction. */
  lemma GoesOnAt(h: Host, u: Unit, s: Status)
    requires 0 <= s.pc < |u.code| && (ModeOf(u.code[s.pc].op).test ==> s.pc + 1 < |u.code|)
    requires !u.code[s.pc].op.Unknown?
    ensures var t, i := Execute(h, u, s), u.code[s.pc];
      && (t.Returns? <==> i.op.OP_RETURN?) && (t.Away? ==> Elsewhere(i.op))
      && (if ModeOf(i.op).test then OnAt(s, t, s.pc + 2, s.pc + 2 + SBx(u.code[s.pc + 1]))
          else if ModeOf(i.op).format.IAsBx? then OnAt(s, t, s.pc + 1, s.pc + 1 + SBx(i))
          else OnAt(s, t, s.pc + 1, if i.op.OP_LOADBOOL? && i.c != 0 then s.pc + 2 else s.pc + 1))
  {
    hide Asked, Told, Set, ArithTurn, TestTurn, CompareTurn, ConcatTurn, ForLoopTurn, ForPrepTurn, SBx, Bx, K, RK;
  }

  /** One turn of checked code stays in the code and keeps the number of registers and
      upvalues; only a `return` ends the run. */
  lemma TurnInCode(h: Host, p: Proto, s: Status)
    requires NoCounts(p) && Checked(p) && 0 <= s.pc < |p.code|
    ensures var t := Execute(h, Unit(p.code, p.k), s);
      && (t.Goes? ==> 0 <= t.s.pc < |p.code| && |t.s.r| == |s.r| && |t.s.up| == |s.up|)
      && (t.Returns? ==> p.code[s.pc].op.OP_RETURN?) && (t.Away? ==> Elsewhere(p.code[s.pc].op))
  {
    hide CheckedFrom, Execute;
    AllChecked(p, 0, s.pc);
    if ModeOf(p.code[s.pc].op).test { AllChecked(p, 0, s.pc + 1); }
    GoesOnAt(h, Unit(p.code, p.k), s);
  }

  /** Every state that a run of checked code comes to has its position in the code, and uses
      no register, constant or upvalue that is not there, up to an instruction that is not
      part of this model. The run can only end at such an instruction, at a `return`, or
      with a run-time error. */
  lemma {:induction false} CheckedRuns(h: Host, p: Proto, s: Status, n: nat)
    requires NoCounts(p) && Checked(p) && 0 <= s.pc < |p.code|
    requires |s.r| == p.maxstacksize && |s.up| == p.nups
    ensures match Run(h, Unit(p.code, p.k), s, n)
      case Goes(t) => Safe(p, t)
      case Returns => exists k: nat, t :: k < n && Run(h, Unit(p.code, p.k), s, k) == Goes(t) && EndsAt(p, t)
      case Away => exists k: nat, t :: k < n && Run(h, Unit(p.code, p.k), s, k) == Goes(t) && LeavesAt(p, t)
      case Fails => true
    decreases n
  {
    hide Execute, InRange, CheckAt, CheckedFrom;
    var u := Unit(p.code, p.k);
    AllChecked(p, 0, s.pc);
    if !Elsewhere(p.code[s.pc].op) { OperandsInRange(p, s.pc); }
    assert Run(h, u, s, 0) == Goes(s);
    if n > 0 {
      TurnInCode(h, p, s);
      var o := Execute(h, u, s);
      if o.Goes? {
        CheckedRuns(h, p, o.s, n - 1);
        RunOn(h, p, s, o.s, n);
      }
    }
  }

  ghost predicate Safe(p: Proto, t: Status) {
    && 0 <= t.pc < |p.code| && |t.r| == p.maxstacksize && |t.up| == p.nups
    && (!Elsewhere(p.code[t.pc].op) ==> InRange(p, p.code[t.pc]))
  }

  predicate EndsAt(p: Proto, t: Status) {
    0 <= t.pc < |p.code| && p.code[t.pc].op.OP_RETURN?
  }

  predicate LeavesAt(p: Proto, t: Status) {
    0 <= t.pc < |p.code| && Elsewhere(p.code[t.pc].op)
  }

  /** One turn, and what the rest of the run comes to. */
  lemma RunOn(h: Host, p: Proto, s: Status, s1: Status, n: nat)
    requires n > 0 && Execute(h, Unit(p.code, p.k), s) == Goes(s1)
    ensures var u := Unit(p.code, p.k);
      forall k: nat, t :: k < n - 1 && Run(h, u, s1, k) == Goes(t) ==> Run(h, u, s, k + 1) == Goes(t)
  {
    hide Execute;
  }

  // ----- the code of expressions -----

  ghost predicate Encoded(w: Frame, u: Unit) {
    && |u.code| == |w.code| && u.k == w.k
    && forall i :: 0 <= i < |w.code| ==>
      (w.code[i].Jmp? ==> -(MAXARG_SBX as int) <= w.code[i].sbx) && u.code[i] == Encode(w.code[i])
  }

  function Quietly(v: Option<Value>, r: Regs, w: World): Option<Effect> {
    if v.None? then None else Some(Effect(v.value, r, w))
  }

  /** The rest of the system answers as `m` does and changes nothing. */
  ghost predicate Quiet(h: Host, m: Machine) {
    && h.num == m.num && h.unm == m.unm
    && (forall op, x, y, r, w :: h.ask(Operation(op), [x, y], r, w) == Quietly(m.arith(op, x, y), r, w))
    && (forall x, r, w :: h.ask(Minus, [x], r, w) == Quietly(m.neg(x), r, w))
    && (forall x, r, w :: h.ask(Length, [x], r, w) == Quietly(m.len(x), r, w))
    && (forall op, x, y, r, w :: h.ask(Compare(op), [x, y], r, w)
          == Quietly(if m.cmp(op, x, y).None? then None else Some(Bool(m.cmp(op, x, y).value)), r, w))
  }

  /** A turn of this interpreter does what a step of the one for expressions does. */
  ghost predicate Same(h: Host, u: Unit, w: Frame, wd: World, s: State, o: Outcome) {
    var t := Execute(h, u, Status(s.pc, s.regs, w.up, wd));
    match o
    case Next(s1) => t == Goes(Status(s1.pc, s1.regs, w.up, wd))
    case Error => t == Fails
    case Finished => t == Returns
  }

  lemma SameLoad(h: Host, m: Machine, w: Frame, u: Unit, s: State, wd: World)
    requires Encoded(w, u) && 0 <= s.pc < |w.code| && !IsTest(w.code[s.pc])
    requires var i := w.code[s.pc]; !i.Arith? && !i.Unm? && !i.Len?
    ensures Same(h, u, w, wd, s, Step(m, w, s))
  {
    hide RegsOf, ConcatTurn, Asked, Told, SetNils, Arithmetic, Negation;
    assert u.code[s.pc] == Encode(w.code[s.pc]);
  }

  lemma EncodedAt(w: Frame, u: Unit, i: nat)
    requires Encoded(w, u) && i < |w.code|
    ensures (w.code[i].Jmp? ==> -(MAXARG_SBX as int) <= w.code[i].sbx) && u.code[i] == Encode(w.code[i])
    ensures |u.code| == |w.code| && u.k == w.k && (w.code[i].Jmp? ==> SBx(u.code[i]) == w.code[i].sbx)
  {
  }

  lemma QuietOperation(h: Host, m: Machine, op: ArithOp, x: Value, y: Value, r: Regs, w: World)
    requires Quiet(h, m)
    ensures h.ask(Event.Operation(op), [x, y], r, w) == Quietly(m.arith(op, x, y), r, w) && h.num == m.num
  {
  }

  lemma QuietCompare(h: Host, m: Machine, op: CmpOp, x: Value, y: Value, r: Regs, w: World)
    requires Quiet(h, m)
    ensures var t := m.cmp(op, x, y);
      h.ask(Event.Compare(op), [x, y], r, w) == Quietly(if t.None? then None else Some(Bool(t.value)), r, w)
  {
  }

  lemma SameArith(h: Host, m: Machine, w: Frame, u: Unit, s: State, wd: World)
    requires Quiet(h, m) && Encoded(w, u) && 0 <= s.pc < |w.code| && w.code[s.pc].Arith?
    ensures Same(h, u, w, wd, s, Step(m, w, s))
  {
    hide Quiet, Encoded, RegsOf, SetNils, TestTurn, CompareTurn, ForLoopTurn, ForPrepTurn, Told, StepTest, Bx, SBx;
    var i := w.code[s.pc];
    EncodedAt(w, u, s.pc);
    QuietOperation(h, m, i.op, Rk(w, s.regs, i.b), Rk(w, s.regs, i.c), s.regs, wd);
    assert Execute(h, u, Status(s.pc, s.regs, w.up, wd))
      == ArithTurn(h, u, Status(s.pc, s.regs, w.up, wd), u.code[s.pc], i.op);
  }

  lemma SameUnary(h: Host, m: Machine, w: Frame, u: Unit, s: State, wd: World)
    requires Quiet(h, m) && Encoded(w, u) && 0 <= s.pc < |w.code| && (w.code[s.pc].Unm? || w.code[s.pc].Len?)
    ensures Same(h, u, w, wd, s, Step(m, w, s))
  {
    var i := w.code[s.pc];
    assert u.code[s.pc] == Encode(i);
    var x := Reg(s.regs, i.b);
    assert h.ask(Event.Minus, [x], s.regs, wd) == Quietly(m.neg(x), s.regs, wd);
    assert h.ask(Event.Length, [x], s.regs, wd) == Quietly(m.len(x), s.regs, wd);
    assert h.unm == m.unm;
  }

  lemma SameTest(h: Host, m: Machine, w: Frame, u: Unit, s: State, wd: World)
    requires Encoded(w, u) && 0 <= s.pc < |w.code| && (w.code[s.pc].Test? || w.code[s.pc].TestSet?)
    requires s.pc + 1 < |w.code| && w.code[s.pc + 1].Jmp?
    ensures Same(h, u, w, wd, s, Step(m, w, s))
  {
    hide Encoded, RegsOf, SetNils, ArithTurn, CompareTurn, ForLoopTurn, ForPrepTurn, Told, Asked, StepReloc, Bx, SBx;
    EncodedAt(w, u, s.pc);
    EncodedAt(w, u, s.pc + 1);
  }

  lemma CompareExecutes(h: Host, u: Unit, s: Status, op: CmpOp)
    requires 0 <= s.pc < |u.code| && u.code[s.pc].op == CompareCode(op)
    ensures Execute(h, u, s) == CompareTurn(h, u, s, u.code[s.pc], op)
  {
    hide CompareTurn, ArithTurn, ForLoopTurn, ForPrepTurn, TestTurn, Told, Asked, Bx, SBx;
  }

  lemma SameCompare(h: Host, m: Machine, w: Frame, u: Unit, s: State, wd: World)
    requires Quiet(h, m) && Encoded(w, u) && 0 <= s.pc < |w.code| && w.code[s.pc].Cmp?
    requires s.pc + 1 < |w.code| && w.code[s.pc + 1].Jmp?
    ensures Same(h, u, w, wd, s, Step(m, w, s))
  {
    hide Execute, Quiet, Encoded, RegsOf, SetNils, ArithTurn, ForLoopTurn, ForPrepTurn, Told, Asked, StepReloc, Bx, SBx;
    var i := w.code[s.pc];
    EncodedAt(w, u, s.pc);
    EncodedAt(w, u, s.pc + 1);
    QuietCompare(h, m, i.cmp, Rk(w, s.regs, i.b), Rk(w, s.regs, i.c), s.regs, wd);
    CompareExecutes(h, u, Status(s.pc, s.regs, w.up, wd), i.cmp);
  }

  /** One turn of both interpreters on the code of an expression. */
  lemma SameTurn(h: Host, m: Machine, w: Frame, u: Unit, s: State, wd: World)
    requires Quiet(h, m) && Encoded(w, u) && 0 <= s.pc < |w.code|
    requires IsTest(w.code[s.pc]) ==> s.pc + 1 < |w.code| && w.code[s.pc + 1].Jmp?
    ensures Same(h, u, w, wd, s, Step(m, w, s))
  {
    hide Quiet, Encoded, Same, Step;
    var i := w.code[s.pc];
    if i.Cmp? {
      SameCompare(h, m, w, u, s, wd);
    } else if IsTest(i) {
      SameTest(h, m, w, u, s, wd);
    } else if i.Arith? {
      SameArith(h, m, w, u, s, wd);
    } else if i.Unm? || i.Len? {
      SameUnary(h, m, w, u, s, wd);
    } else {
      SameLoad(h, m, w, u, s, wd);
    }
  }
}
