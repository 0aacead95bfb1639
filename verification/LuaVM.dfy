/** The instructions that expressions compile to and what they do
    (lua-5.1/lopcodes.h, lua-5.1/lvm.c:384-580). */
module LuaVM {

  datatype Option<+T> = None | Some(value: T)

  /** A `lua_Number`. Arithmetic on numbers is given by a `Machine`. */
  type Number = int

  datatype Value = Nil | Bool(b: bool) | Num(n: Number) | Str(s: nat) | Other(id: nat)

  predicate Truthy(v: Value) {
    v != Nil && v != Bool(false)
  }

  datatype ArithOp = ADD | SUB | MUL | DIV | MOD | POW

  datatype CmpOp = EQ | LT | LE

  /** Arithmetic and comparison. The functions `arith`, `neg`, `len` and `cmp` answer for
      values that are not numbers, strings converted to numbers and metamethods without
      side effects included; `None` is a run-time error. */
  datatype Machine = Machine(
    num: (ArithOp, Number, Number) -> Number,
    unm: Number -> Number,
    isnan: Number -> bool,
    iszero: Number -> bool,
    arith: (ArithOp, Value, Value) -> Option<Value>,
    neg: Value -> Option<Value>,
    len: Value -> Option<Value>,
    cmp: (CmpOp, Value, Value) -> Option<bool>)

  function Arithmetic(m: Machine, op: ArithOp, x: Value, y: Value): Option<Value> {
    if x.Num? && y.Num? then Some(Num(m.num(op, x.n, y.n))) else m.arith(op, x, y)
  }

  function Negation(m: Machine, x: Value): Option<Value> {
    if x.Num? then Some(Num(m.unm(x.n))) else m.neg(x)
  }

  /** `b` and `c` of `Arith` and `Cmp` are registers, or constants from 256 on. */
  datatype Instr =
    | Move(a: nat, b: nat)
    | LoadK(a: nat, bx: nat)
    | LoadBool(a: nat, b: nat, c: nat)
    | LoadNil(a: nat, b: nat)
    | GetUpval(a: nat, b: nat)
    | Arith(op: ArithOp, a: nat, b: nat, c: nat)
    | Unm(a: nat, b: nat)
    | Not(a: nat, b: nat)
    | Len(a: nat, b: nat)
    | Jmp(sbx: int)
    | Cmp(cmp: CmpOp, a: nat, b: nat, c: nat)
    | Test(a: nat, c: nat)
    | TestSet(a: nat, b: nat, c: nat)
    | Return(a: nat, b: nat)

  const BITRK: nat := 256
  const MAXINDEXRK: nat := 255
  const MAXSTACK: nat := 250
  const NO_REG: nat := 255
  const MAXARG_BX: nat := 0x3_FFFF
  const MAXARG_SBX: nat := 0x1_FFFF

  predicate IsK(x: nat) {
    x >= BITRK
  }

  /** Operators that skip the jump after them when their test fails: `testTMode`. */
  predicate IsTest(i: Instr) {
    i.Cmp? || i.Test? || i.TestSet?
  }

  /** Instructions whose result can still be sent to any register. */
  predicate IsReloc(i: Instr) {
    i.GetUpval? || i.Arith? || i.Unm? || i.Not? || i.Len?
  }

  /** What a function runs with: its code, its constants and its upvalues. */
  datatype Frame = Frame(code: seq<Instr>, k: seq<Value>, up: seq<Value>)

  type Regs = seq<Value>

  function Reg(r: Regs, x: nat): Value {
    if x < |r| then r[x] else Nil
  }

  function SetReg(r: Regs, x: nat, v: Value): (s: Regs)
    ensures |s| == |r|
  {
    if x < |r| then r[x := v] else r
  }

  function Kst(w: Frame, x: nat): Value {
    if x < |w.k| then w.k[x] else Nil
  }

  function Rk(w: Frame, r: Regs, x: nat): Value {
    if IsK(x) then Kst(w, x - BITRK) else Reg(r, x)
  }

  function Upval(w: Frame, x: nat): Value {
    if x < |w.up| then w.up[x] else Nil
  }

  /** Registers `a` to `b` set to nil. The loop of `OP_LOADNIL` writes at least one. */
  function SetNils(r: Regs, a: nat, b: nat): (s: Regs)
    ensures |s| == |r|
    ensures forall x :: 0 <= x < |r| ==> s[x] == if a <= x <= b || x == b then Nil else r[x]
  {
    seq(|r|, x requires 0 <= x < |r| => if a <= x <= b || x == b then Nil else r[x])
  }

  /** The value a relocatable instruction computes. */
  function Produces(m: Machine, w: Frame, r: Regs, i: Instr): Option<Value> {
    match i
    case GetUpval(_, b) => Some(Upval(w, b))
    case Arith(op, _, b, c) => Arithmetic(m, op, Rk(w, r, b), Rk(w, r, c))
    case Unm(_, b) => Negation(m, Reg(r, b))
    case Not(_, b) => Some(Bool(!Truthy(Reg(r, b))))
    case Len(_, b) => m.len(Reg(r, b))
    case _ => None
  }

  /** Whether a test sends control to the jump after it. */
  function Accepts(m: Machine, w: Frame, r: Regs, i: Instr): Option<bool> {
    match i
    case Cmp(op, a, b, c) =>
      var t := m.cmp(op, Rk(w, r, b), Rk(w, r, c));
      if t.None? then None else Some((if t.value then 1 else 0) == a)
    case Test(a, c) => Some((if Truthy(Reg(r, a)) then 0 else 1) != c)
    case TestSet(_, b, c) => Some((if Truthy(Reg(r, b)) then 0 else 1) != c)
    case _ => None
  }

  datatype State = State(pc: int, regs: Regs)

  datatype Outcome = Next(s: State) | Error | Finished

  /** One turn of the interpreter loop. */
  function Step(m: Machine, w: Frame, s: State): Outcome {
    if !(0 <= s.pc < |w.code|) then Finished
    else
      var i := w.code[s.pc];
      if i.Move? then Next(State(s.pc + 1, SetReg(s.regs, i.a, Reg(s.regs, i.b))))
      else if i.LoadK? then Next(State(s.pc + 1, SetReg(s.regs, i.a, Kst(w, i.bx))))
      else if i.LoadBool? then Next(State(if i.c != 0 then s.pc + 2 else s.pc + 1, SetReg(s.regs, i.a, Bool(i.b != 0))))
      else if i.LoadNil? then Next(State(s.pc + 1, SetNils(s.regs, i.a, i.b)))
      else if i.Jmp? then Next(State(s.pc + 1 + i.sbx, s.regs))
      else if IsReloc(i) then StepReloc(m, w, s, i)
      else if IsTest(i) then StepTest(m, w, s, i)
      else Finished
  }

  function StepReloc(m: Machine, w: Frame, s: State, i: Instr): Outcome
    requires IsReloc(i)
  {
    var v := Produces(m, w, s.regs, i);
    if v.None? then Error else Next(State(s.pc + 1, SetReg(s.regs, i.a, v.value)))
  }

  /** An accepted test takes the jump that follows it at once. */
  function StepTest(m: Machine, w: Frame, s: State, i: Instr): Outcome {
    var t := Accepts(m, w, s.regs, i);
    if t.None? then Error
    else if !t.value then Next(State(s.pc + 2, s.regs))
    else if 0 <= s.pc + 1 < |w.code| && w.code[s.pc + 1].Jmp? then
      Next(State(s.pc + 2 + w.code[s.pc + 1].sbx, if i.TestSet? then SetReg(s.regs, i.a, Reg(s.regs, i.b)) else s.regs))
    else Finished
  }

  function Steps(m: Machine, w: Frame, s: State, n: nat): Outcome
    decreases n
  {
    if n == 0 then Next(s)
    else
      var o := Step(m, w, s);
      if o.Next? then Steps(m, w, o.s, n - 1) else o
  }

  /** A run from `s` comes to `t`. */
  ghost predicate Goes(m: Machine, w: Frame, s: State, t: State) {
    exists n: nat :: Steps(m, w, s, n) == Next(t)
  }

  /** A run from `s` raises an error. */
  ghost predicate Fails(m: Machine, w: Frame, s: State) {
    exists n: nat :: Steps(m, w, s, n) == Error
  }

  lemma {:induction false} StepsAdd(m: Machine, w: Frame, s: State, a: nat, b: nat)
    requires Steps(m, w, s, a).Next?
    ensures Steps(m, w, s, a + b) == Steps(m, w, Steps(m, w, s, a).s, b)
    decreases a
  {
    if a > 0 { StepsAdd(m, w, Step(m, w, s).s, a - 1, b); }
  }

  lemma Stays(m: Machine, w: Frame, s: State)
    ensures Goes(m, w, s, s)
  {
    assert Steps(m, w, s, 0) == Next(s);
  }

  lemma GoesOn(m: Machine, w: Frame, s: State, t: State, u: State)
    requires Goes(m, w, s, t) && Goes(m, w, t, u)
    ensures Goes(m, w, s, u)
  {
    var a: nat :| Steps(m, w, s, a) == Next(t);
    var b: nat :| Steps(m, w, t, b) == Next(u);
    StepsAdd(m, w, s, a, b);
  }

  lemma OneStep(m: Machine, w: Frame, s: State, t: State)
    requires Step(m, w, s) == Next(t)
    ensures Goes(m, w, s, t)
  {
    hide Step;
    assert Steps(m, w, t, 0) == Next(t);
    assert Steps(m, w, s, 1) == Next(t);
  }

  lemma StepOn(m: Machine, w: Frame, s: State, t: State, u: State)
    requires Goes(m, w, s, t) && Step(m, w, t) == Next(u)
    ensures Goes(m, w, s, u)
  {
    hide Step, Goes;
    OneStep(m, w, t, u);
    GoesOn(m, w, s, t, u);
  }

  lemma StepFails(m: Machine, w: Frame, s: State, t: State)
    requires Goes(m, w, s, t) && Step(m, w, t) == Error
    ensures Fails(m, w, s)
  {
    hide Step;
    var a: nat :| Steps(m, w, s, a) == Next(t);
    StepsAdd(m, w, s, a, 1);
    assert Steps(m, w, t, 1) == Error;
  }
}
