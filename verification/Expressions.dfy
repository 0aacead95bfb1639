/** Expressions without side effects and their meaning (sections 2.5.1 to 2.5.3 of the
    Lua 5.1 Reference Manual). */
module Expressions {
  import opened LuaVM

  datatype UnOpr = Minus | Negate | Length

  datatype BinOpr = Arithmetical(op: ArithOp) | Ne | Eq | Lt | Le | Gt | Ge | And | Or

  datatype Expr =
    | NilE | TrueE | FalseE
    | Numeral(n: Number)
    | Text(s: nat)
    | Local(r: nat)
    | Upvalue(u: nat)
    | Paren(e: Expr)
    | Unary(uop: UnOpr, e: Expr)
    | Binary(bop: BinOpr, x: Expr, y: Expr)

  function Compare(m: Machine, op: BinOpr, x: Value, y: Value): Option<bool> {
    match op
    case Eq => m.cmp(EQ, x, y)
    case Ne => var r := m.cmp(EQ, x, y); if r.None? then None else Some(!r.value)
    case Lt => m.cmp(LT, x, y)
    case Le => m.cmp(LE, x, y)
    case Gt => m.cmp(LT, y, x)
    case Ge => m.cmp(LE, y, x)
    case _ => None
  }

  predicate IsComparison(op: BinOpr) {
    op.Ne? || op.Eq? || op.Lt? || op.Le? || op.Gt? || op.Ge?
  }

  function Apply(m: Machine, op: BinOpr, x: Value, y: Value): Option<Value>
    requires op.Arithmetical? || IsComparison(op)
  {
    if op.Arithmetical? then Arithmetic(m, op.op, x, y)
    else var r := Compare(m, op, x, y); if r.None? then None else Some(Bool(r.value))
  }

  function ApplyUnary(m: Machine, op: UnOpr, x: Value): Option<Value> {
    match op
    case Minus => Negation(m, x)
    case Negate => Some(Bool(!Truthy(x)))
    case Length => m.len(x)
  }

  /** The value of an expression; `None` when evaluation raises an error. */
  function Eval(m: Machine, up: seq<Value>, r: Regs, e: Expr): Option<Value> {
    match e
    case NilE => Some(Nil)
    case TrueE => Some(Bool(true))
    case FalseE => Some(Bool(false))
    case Numeral(n) => Some(Num(n))
    case Text(s) => Some(Str(s))
    case Local(x) => Some(Reg(r, x))
    case Upvalue(u) => Some(if u < |up| then up[u] else Nil)
    case Paren(e1) => Eval(m, up, r, e1)
    case Unary(op, e1) =>
      var v := Eval(m, up, r, e1);
      if v.None? then None else ApplyUnary(m, op, v.value)
    case Binary(And, x, y) =>
      var v := Eval(m, up, r, x);
      if v.Some? && Truthy(v.value) then Eval(m, up, r, y) else v
    case Binary(Or, x, y) =>
      var v := Eval(m, up, r, x);
      if v.Some? && !Truthy(v.value) then Eval(m, up, r, y) else v
    case Binary(op, x, y) =>
      var v := Eval(m, up, r, x);
      if v.None? then None
      else
        var w := Eval(m, up, r, y);
        if w.None? then None else Apply(m, op, v.value, w.value)
  }

  function TruthOf(v: Option<Value>): Option<bool> {
    if v.None? then None else Some(Truthy(v.value))
  }

  /** Locals and upvalues exist; the lexer reads no NaN. */
  ghost predicate WellFormed(m: Machine, e: Expr, nactvar: nat, nups: nat) {
    match e
    case Local(r) => r < nactvar
    case Upvalue(u) => u < nups
    case Numeral(n) => !m.isnan(n)
    case Paren(e1) => WellFormed(m, e1, nactvar, nups)
    case Unary(_, e1) => WellFormed(m, e1, nactvar, nups)
    case Binary(_, x, y) => WellFormed(m, x, nactvar, nups) && WellFormed(m, y, nactvar, nups)
    case _ => true
  }

  /** How many constants the expression can add: those written in it, and the booleans
      that `not` can make of them. */
  function Constants(e: Expr): nat {
    match e
    case Local(_) => 0
    case Upvalue(_) => 0
    case Paren(e1) => Constants(e1)
    case Unary(op, e1) => Constants(e1) + (if op == Negate then 1 else 0)
    case Binary(_, x, y) => Constants(x) + Constants(y)
    case _ => 1
  }

  // ----- what the code of an expression does -----

  /** What the code generator knows of the main value of an expression: a constant, a local
      variable, the result of a comparison or of `not`, or nothing. */
  datatype Form = Literal(v: Value) | Variable | Boolean | General

  /** `constfolding` of two numbers. */
  function FoldedNumber(m: Machine, op: ArithOp, a: Number, b: Number): Option<Number> {
    if (op.DIV? || op.MOD?) && m.iszero(b) then None
    else if m.isnan(m.num(op, a, b)) then None
    else Some(m.num(op, a, b))
  }

  function FormOf(m: Machine, e: Expr): Form
    decreases e, 0
  {
    match e
    case NilE => Literal(Nil)
    case TrueE => Literal(Bool(true))
    case FalseE => Literal(Bool(false))
    case Numeral(n) => Literal(Num(n))
    case Text(s) => Literal(Str(s))
    case Local(_) => Variable
    case Upvalue(_) => General
    case Paren(e1) => FormOf(m, e1)
    case Unary(Negate, e1) =>
      var f := FormOf(m, e1);
      if f.Literal? then Literal(Bool(!Truthy(f.v))) else Boolean
    case Unary(Minus, e1) =>
      if NumeralOf(m, e1).Some? then Literal(Num(m.unm(NumeralOf(m, e1).value))) else General
    case Unary(Length, _) => General
    case Binary(And, _, y) => FormOf(m, y)
    case Binary(Or, _, y) => FormOf(m, y)
    case Binary(Arithmetical(op), x, y) =>
      var a, b := NumeralOf(m, x), NumeralOf(m, y);
      if a.Some? && b.Some? && FoldedNumber(m, op, a.value, b.value).Some?
      then Literal(Num(FoldedNumber(m, op, a.value, b.value).value)) else General
    case Binary(_, _, _) => Boolean
  }

  /** `luaK_goiftrue` (`sense` true) or `luaK_goiffalse` needs no code for it. */
  predicate Passes(f: Form, sense: bool) {
    f.Literal? && Truthy(f.v) == sense
  }

  /** The expression has jumps to leave by if it is true: the list `t` (`side` true), or if
      it is false: the list `f`. */
  predicate HasJumps(m: Machine, e: Expr, side: bool)
    decreases e, 0
  {
    match e
    case Paren(e1) => HasJumps(m, e1, side)
    case Unary(Negate, e1) => HasJumps(m, e1, !side)
    case Binary(And, x, y) => HasJumps(m, y, side) || (!side && (HasJumps(m, x, false) || !Passes(FormOf(m, x), true)))
    case Binary(Or, x, y) => HasJumps(m, y, side) || (side && (HasJumps(m, x, true) || !Passes(FormOf(m, x), false)))
    case _ => false
  }

  lemma FormOfNot(m: Machine, x: Expr)
    ensures var f := FormOf(m, x);
      FormOf(m, Unary(Negate, x)) == if f.Literal? then Literal(Bool(!Truthy(f.v))) else Boolean
    ensures forall side :: HasJumps(m, Unary(Negate, x), side) == HasJumps(m, x, !side)
  {
  }

  lemma FormOfLogic(m: Machine, x: Expr, y: Expr, sense: bool)
    ensures var e := Binary(if sense then And else Or, x, y);
      && FormOf(m, e) == FormOf(m, y) && HasJumps(m, e, sense) == HasJumps(m, y, sense)
      && HasJumps(m, e, !sense) == (HasJumps(m, y, !sense) || HasJumps(m, x, !sense) || !Passes(FormOf(m, x), sense))
  {
  }

  lemma FormOfOperation(m: Machine, op: BinOpr, x: Expr, y: Expr)
    requires op.Arithmetical? || IsComparison(op)
    ensures var e := Binary(op, x, y);
      && FormOf(m, e)
         == (if IsComparison(op) then Boolean
             else if Folds(m, op, x, y)
             then Literal(Num(FoldedNumber(m, op.op, NumeralOf(m, x).value, NumeralOf(m, y).value).value)) else General)
      && !HasJumps(m, e, true) && !HasJumps(m, e, false)
  {
  }

  lemma FormOfUnary(m: Machine, op: UnOpr, x: Expr)
    requires op != Negate
    ensures var e, n := Unary(op, x), NumeralOf(m, x);
      && FormOf(m, e) == (if op == Minus && n.Some? then Literal(Num(m.unm(n.value))) else General)
      && !HasJumps(m, e, true) && !HasJumps(m, e, false)
  {
  }

  /** `isnumeral`. */
  function NumeralOf(m: Machine, e: Expr): Option<Number>
    decreases e, 1
  {
    var f := FormOf(m, e);
    if f.Literal? && f.v.Num? && !HasJumps(m, e, true) && !HasJumps(m, e, false) then Some(f.v.n) else None
  }

  /** Whether the operation on both expressions is done by the code generator. */
  predicate Folds(m: Machine, op: BinOpr, x: Expr, y: Expr) {
    op.Arithmetical? && NumeralOf(m, x).Some? && NumeralOf(m, y).Some?
    && FoldedNumber(m, op.op, NumeralOf(m, x).value, NumeralOf(m, y).value).Some?
  }

  /** As an operand, the expression needs no code. */
  predicate InPlace(m: Machine, e: Expr) {
    (FormOf(m, e).Literal? || FormOf(m, e).Variable?) && !HasJumps(m, e, true) && !HasJumps(m, e, false)
  }

  /** How a run comes out of the code of an expression: it raises an error, it falls out of
      the end of the code with value `v`, or it leaves by a jump of the list of `side`.
      `c` is the value that the jump by which it came can copy to a register, if that
      jump belongs to a test that copies one. */
  datatype Way = Raised | Fell(v: Value, c: Option<Value>) | Left(side: bool, c: Option<Value>)

  function FromValue(v: Option<Value>, c: Option<Value>): Way {
    if v.None? then Raised else Fell(v.value, c)
  }

  /** The value that such a run brings: a jump that copies nothing stands for a boolean. */
  function ValueIn(w: Way): Option<Value> {
    match w
    case Raised => None
    case Fell(v, _) => Some(v)
    case Left(side, c) => Some(if c.Some? then c.value else Bool(side))
  }

  /** A run through code that brings the value to where an instruction finds it. */
  function Taken(m: Machine, e: Expr, w: Way): Way {
    if w.Raised? then Raised else Fell(ValueIn(w).value, if InPlace(m, e) then w.c else None)
  }

  /** A run through the code of `luaK_goiftrue` (`sense` true) or `luaK_goiffalse`. A constant
      that always jumps takes along the jumps that were to lead to it, with what they
      copy (lua-5.1/lcode.c:54-61). */
  function GoIf(f: Form, sense: bool, w: Way): (g: Way)
    ensures !g.Fell?
  {
    if !w.Fell? then w
    else if f.Boolean? then Left(Truthy(w.v), None)
    else if Passes(f, sense) || f == Literal(Bool(!sense)) then Left(Truthy(w.v), w.c)
    else Left(Truthy(w.v), if Truthy(w.v) == sense then None else Some(w.v))
  }

  /** What the generated code makes of an expression, when a run comes to it by a jump that
      can copy `c`. */
  function WayOf(m: Machine, up: seq<Value>, r: Regs, e: Expr, c: Option<Value>): Way {
    match e
    case Paren(e1) => WayOf(m, up, r, e1, c)
    case Unary(Negate, e1) => Negated(WayOf(m, up, r, e1, c))
    case Unary(op, e1) =>
      var w := Taken(m, e1, WayOf(m, up, r, e1, c));
      if w.Raised? then Raised
      else FromValue(ApplyUnary(m, op, w.v), if op == Minus && NumeralOf(m, e1).Some? then w.c else None)
    case Binary(And, x, y) =>
      var g := GoIf(FormOf(m, x), true, WayOf(m, up, r, x, c));
      if g.Left? && g.side then WayOf(m, up, r, y, g.c) else g
    case Binary(Or, x, y) =>
      var g := GoIf(FormOf(m, x), false, WayOf(m, up, r, x, c));
      if g.Left? && !g.side then WayOf(m, up, r, y, g.c) else g
    case Binary(op, x, y) =>
      var w := Taken(m, x, WayOf(m, up, r, x, c));
      if w.Raised? then Raised
      else
        var z := Taken(m, y, WayOf(m, up, r, y, w.c));
        if z.Raised? then Raised else FromValue(Apply(m, op, w.v, z.v), if Folds(m, op, x, y) then z.c else None)
    case _ => FromValue(Eval(m, up, r, e), c)
  }

  /** `not`: its jumps copy nothing. */
  function Negated(w: Way): Way {
    match w
    case Raised => Raised
    case Fell(v, c) => Fell(Bool(!Truthy(v)), c)
    case Left(side, _) => Left(!side, None)
  }

  /** The same with `luaK_goiftrue` or `luaK_goiffalse` after it. */
  function Going(m: Machine, up: seq<Value>, r: Regs, e: Expr, sense: bool, c: Option<Value>): (g: Way)
    ensures !g.Fell?
  {
    GoIf(FormOf(m, e), sense, WayOf(m, up, r, e, c))
  }

  /** Where the generated code goes for a condition. */
  function ComputedTruth(m: Machine, up: seq<Value>, r: Regs, e: Expr): Option<bool> {
    var g := Going(m, up, r, e, true, None);
    if g.Raised? then None else Some(g.side)
  }

  /** The value that the generated code computes. */
  function Computed(m: Machine, up: seq<Value>, r: Regs, e: Expr): Option<Value> {
    ValueIn(WayOf(m, up, r, e, None))
  }

  /** What a descriptor stands for: an expression with its jumps, or one that has been made
      ready as the operand of an instruction. */
  datatype Meaning = Whole(e: Expr) | Operand(e: Expr)

  function Means(m: Machine, up: seq<Value>, r: Regs, x: Meaning, c: Option<Value>): Way {
    match x
    case Whole(e) => WayOf(m, up, r, e, c)
    case Operand(e) => Taken(m, e, WayOf(m, up, r, e, c))
  }

  /** The second operand, where the first leads on to it. */
  function Second(m: Machine, up: seq<Value>, r: Regs, x: Expr, y: Expr, c: Option<Value>): Way {
    var way := Means(m, up, r, Operand(x), c);
    if way.Raised? then Raised else Means(m, up, r, Operand(y), way.c)
  }

  /** What an operator makes of its operands. */
  lemma WayOperation(m: Machine, up: seq<Value>, r: Regs, op: BinOpr, x: Expr, y: Expr, c: Option<Value>)
    requires op.Arithmetical? || IsComparison(op)
    ensures var way, way1, way2 := WayOf(m, up, r, Binary(op, x, y), c), Means(m, up, r, Operand(x), c),
      Second(m, up, r, x, y, c);
      && !way.Left? && (way2.Raised? ==> way.Raised?)
      && (!way2.Raised? ==> way1.Fell? && way2.Fell?)
      && (!way2.Raised? ==> way == FromValue(Apply(m, op, way1.v, way2.v), if Folds(m, op, x, y) then way2.c else None))
  {
    hide Folds, Apply, InPlace;
    var way1 := Taken(m, x, WayOf(m, up, r, x, c));
    if !way1.Raised? {
      var way2 := Taken(m, y, WayOf(m, up, r, y, way1.c));
      assert way2 == Second(m, up, r, x, y, c);
    }
  }

  /** What minus and length make of their operand. */
  lemma WayUnary(m: Machine, up: seq<Value>, r: Regs, op: UnOpr, x: Expr, c: Option<Value>)
    requires op != Negate
    ensures var way, way1 := WayOf(m, up, r, Unary(op, x), c), Means(m, up, r, Operand(x), c);
      && !way.Left? && (way1.Raised? ==> way.Raised?)
      && (!way1.Raised? ==> way1.Fell?)
      && (!way1.Raised? ==>
        way == FromValue(ApplyUnary(m, op, way1.v), if op == Minus && NumeralOf(m, x).Some? then way1.c else None))
  {
    hide InPlace, NumeralOf, ApplyUnary;
  }

  /** `and` (`sense` true) and `or`: the second operand is evaluated only if the first does
      not decide. */
  lemma WayLogic(m: Machine, up: seq<Value>, r: Regs, x: Expr, y: Expr, sense: bool, c: Option<Value>)
    ensures var g := Going(m, up, r, x, sense, c);
      WayOf(m, up, r, Binary(if sense then And else Or, x, y), c)
      == if g.Left? && g.side == sense then WayOf(m, up, r, y, g.c) else g
  {
  }

  lemma EvalLogic(m: Machine, up: seq<Value>, r: Regs, x: Expr, y: Expr, sense: bool)
    ensures var v := Eval(m, up, r, x);
      Eval(m, up, r, Binary(if sense then And else Or, x, y))
      == if v.Some? && Truthy(v.value) == sense then Eval(m, up, r, y) else v
  {
  }

  lemma EvalOperation(m: Machine, up: seq<Value>, r: Regs, op: BinOpr, x: Expr, y: Expr)
    requires op.Arithmetical? || IsComparison(op)
    ensures var v, u := Eval(m, up, r, x), Eval(m, up, r, y);
      Eval(m, up, r, Binary(op, x, y)) == if v.None? || u.None? then None else Apply(m, op, v.value, u.value)
  {
  }

  /** No minus is applied to nil, true or false: `luaK_prefix` would make an instruction that
      reads a constant as a register. */
  predicate MinusOk(m: Machine, e: Expr) {
    match e
    case Paren(e1) => MinusOk(m, e1)
    case Unary(op, e1) =>
      MinusOk(m, e1) && (op == Minus && InPlace(m, e1) && FormOf(m, e1).Literal? ==>
        FormOf(m, e1).v.Num? || FormOf(m, e1).v.Str?)
    case Binary(_, x, y) => MinusOk(m, x) && MinusOk(m, y)
    case _ => true
  }

  /** Only the locals matter to the value. */
  lemma {:induction false} EvalLocals(m: Machine, up: seq<Value>, r: Regs, s: Regs, e: Expr, nactvar: nat, nups: nat)
    requires WellFormed(m, e, nactvar, nups) && |r| == |s| && forall x :: 0 <= x < nactvar && x < |r| ==> r[x] == s[x]
    ensures Eval(m, up, r, e) == Eval(m, up, s, e)
  {
    match e
    case Paren(e1) => EvalLocals(m, up, r, s, e1, nactvar, nups);
    case Unary(_, e1) => EvalLocals(m, up, r, s, e1, nactvar, nups);
    case Binary(_, x, y) => EvalLocals(m, up, r, s, x, nactvar, nups); EvalLocals(m, up, r, s, y, nactvar, nups);
    case _ =>
  }

  lemma {:induction false} WayLocals(m: Machine, up: seq<Value>, r: Regs, s: Regs, e: Expr, c: Option<Value>,
                                     nactvar: nat, nups: nat)
    requires WellFormed(m, e, nactvar, nups) && |r| == |s| && forall x :: 0 <= x < nactvar && x < |r| ==> r[x] == s[x]
    ensures WayOf(m, up, r, e, c) == WayOf(m, up, s, e, c)
  {
    match e
    case Paren(e1) => WayLocals(m, up, r, s, e1, c, nactvar, nups);
    case Unary(_, e1) => WayLocals(m, up, r, s, e1, c, nactvar, nups);
    case Binary(op, x, y) =>
      WayLocals(m, up, r, s, x, c, nactvar, nups);
      var w := WayOf(m, up, r, x, c);
      if !w.Raised? {
        var g := if op.And? || op.Or? then GoIf(FormOf(m, x), op.And?, w) else Taken(m, x, w);
        WayLocals(m, up, r, s, y, g.c, nactvar, nups);
      }
    case _ =>
  }
}
