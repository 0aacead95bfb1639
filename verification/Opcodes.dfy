/** The instructions of the virtual machine and their modes (lua-5.1/lopcodes.h,
    lua-5.1/lopcodes.c:58-104). */
module Opcodes {
  import opened LuaVM

  /** `Unknown` stands for the numbers from `NUM_OPCODES` on. */
  datatype OpCode =
    | OP_MOVE | OP_LOADK | OP_LOADBOOL | OP_LOADNIL | OP_GETUPVAL | OP_GETGLOBAL | OP_GETTABLE | OP_SETGLOBAL
    | OP_SETUPVAL | OP_SETTABLE | OP_NEWTABLE | OP_SELF | OP_ADD | OP_SUB | OP_MUL | OP_DIV | OP_MOD | OP_POW | OP_UNM
    | OP_NOT | OP_LEN | OP_CONCAT | OP_JMP | OP_EQ | OP_LT | OP_LE | OP_TEST | OP_TESTSET | OP_CALL | OP_TAILCALL
    | OP_RETURN | OP_FORLOOP | OP_FORPREP | OP_TFORLOOP | OP_SETLIST | OP_CLOSE | OP_CLOSURE | OP_VARARG | Unknown

  datatype ArgMask = OpArgN | OpArgU | OpArgR | OpArgK

  datatype Format = IABC | IABx | IAsBx

  /** A line of `luaP_opmodes`. */
  datatype Mode = Mode(test: bool, setsA: bool, b: ArgMask, c: ArgMask, format: Format)

  function ModeOf(op: OpCode): Mode {
    match op
    case OP_MOVE => Mode(false, true, OpArgR, OpArgN, IABC)
    case OP_LOADK => Mode(false, true, OpArgK, OpArgN, IABx)
    case OP_LOADBOOL => Mode(false, true, OpArgU, OpArgU, IABC)
    case OP_LOADNIL => Mode(false, true, OpArgR, OpArgN, IABC)
    case OP_GETUPVAL => Mode(false, true, OpArgU, OpArgN, IABC)
    case OP_GETGLOBAL => Mode(false, true, OpArgK, OpArgN, IABx)
    case OP_GETTABLE => Mode(false, true, OpArgR, OpArgK, IABC)
    case OP_SETGLOBAL => Mode(false, false, OpArgK, OpArgN, IABx)
    case OP_SETUPVAL => Mode(false, false, OpArgU, OpArgN, IABC)
    case OP_SETTABLE => Mode(false, false, OpArgK, OpArgK, IABC)
    case OP_NEWTABLE => Mode(false, true, OpArgU, OpArgU, IABC)
    case OP_SELF => Mode(false, true, OpArgR, OpArgK, IABC)
    case OP_UNM => Mode(false, true, OpArgR, OpArgN, IABC)
    case OP_NOT => Mode(false, true, OpArgR, OpArgN, IABC)
    case OP_LEN => Mode(false, true, OpArgR, OpArgN, IABC)
    case OP_CONCAT => Mode(false, true, OpArgR, OpArgR, IABC)
    case OP_JMP => Mode(false, false, OpArgR, OpArgN, IAsBx)
    case OP_EQ => Mode(true, false, OpArgK, OpArgK, IABC)
    case OP_LT => Mode(true, false, OpArgK, OpArgK, IABC)
    case OP_LE => Mode(true, false, OpArgK, OpArgK, IABC)
    case OP_TEST => Mode(true, true, OpArgR, OpArgU, IABC)
    case OP_TESTSET => Mode(true, true, OpArgR, OpArgU, IABC)
    case OP_CALL => Mode(false, true, OpArgU, OpArgU, IABC)
    case OP_TAILCALL => Mode(false, true, OpArgU, OpArgU, IABC)
    case OP_RETURN => Mode(false, false, OpArgU, OpArgN, IABC)
    case OP_FORLOOP => Mode(false, true, OpArgR, OpArgN, IAsBx)
    case OP_FORPREP => Mode(false, true, OpArgR, OpArgN, IAsBx)
    case OP_TFORLOOP => Mode(true, false, OpArgN, OpArgU, IABC)
    case OP_SETLIST => Mode(false, false, OpArgU, OpArgU, IABC)
    case OP_CLOSE => Mode(false, false, OpArgN, OpArgN, IABC)
    case OP_CLOSURE => Mode(false, true, OpArgU, OpArgN, IABx)
    case OP_VARARG => Mode(false, true, OpArgU, OpArgN, IABC)
    case _ => Mode(false, true, OpArgK, OpArgK, IABC)
  }

  const MAXARG_C: nat := 511

  /** An instruction word. The fields B and C together are the field Bx. */
  datatype Instruction = Instruction(op: OpCode, a: nat, b: nat, c: nat)

  function Bx(i: Instruction): nat {
    i.b * (MAXARG_C + 1) + i.c
  }

  function SBx(i: Instruction): int {
    Bx(i) - MAXARG_SBX
  }

  function WithBx(op: OpCode, a: nat, bx: nat): (i: Instruction)
    ensures i.op == op && i.a == a && Bx(i) == bx
  {
    Instruction(op, a, bx / (MAXARG_C + 1), bx % (MAXARG_C + 1))
  }

  function ArithCode(op: ArithOp): OpCode {
    match op
    case ADD => OP_ADD
    case SUB => OP_SUB
    case MUL => OP_MUL
    case DIV => OP_DIV
    case MOD => OP_MOD
    case POW => OP_POW
  }

  function CompareCode(op: CmpOp): OpCode {
    match op
    case EQ => OP_EQ
    case LT => OP_LT
    case LE => OP_LE
  }

  /** The instructions of expressions as words. */
  function Encode(i: Instr): Instruction
    requires i.Jmp? ==> -(MAXARG_SBX as int) <= i.sbx
  {
    match i
    case Move(a, b) => Instruction(OP_MOVE, a, b, 0)
    case LoadK(a, bx) => WithBx(OP_LOADK, a, bx)
    case LoadBool(a, b, c) => Instruction(OP_LOADBOOL, a, b, c)
    case LoadNil(a, b) => Instruction(OP_LOADNIL, a, b, 0)
    case GetUpval(a, b) => Instruction(OP_GETUPVAL, a, b, 0)
    case Arith(op, a, b, c) => Instruction(ArithCode(op), a, b, c)
    case Unm(a, b) => Instruction(OP_UNM, a, b, 0)
    case Not(a, b) => Instruction(OP_NOT, a, b, 0)
    case Len(a, b) => Instruction(OP_LEN, a, b, 0)
    case Jmp(sbx) => WithBx(OP_JMP, 0, sbx + MAXARG_SBX)
    case Cmp(op, a, b, c) => Instruction(CompareCode(op), a, b, c)
    case Test(a, c) => Instruction(OP_TEST, a, 0, c)
    case TestSet(a, b, c) => Instruction(OP_TESTSET, a, b, c)
    case Return(a, b) => Instruction(OP_RETURN, a, b, 0)
  }
}
