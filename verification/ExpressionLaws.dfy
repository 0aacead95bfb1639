/** The operators as sections 2.5.1 to 2.5.4 of the Lua 5.1 Reference Manual describe them, on
    the values of expressions. */
module ExpressionLaws {
  import opened LuaVM
  import opened Expressions

  /** An answer of the machine as a value. */
  function Answered(t: Option<bool>): Option<Value> {
    match t case None => None case Some(b) => Some(Bool(b))
  }

  /** `x > y` is `y < x`, `x >= y` is `y <= x`, and `x ~= y` is the negation of `x == y`. */
  lemma DerivedComparisons(m: Machine, up: seq<Value>, r: Regs, x: Expr, y: Expr)
    ensures Eval(m, up, r, Binary(Gt, x, y)) == Eval(m, up, r, Binary(Lt, y, x))
    ensures Eval(m, up, r, Binary(Ge, x, y)) == Eval(m, up, r, Binary(Le, y, x))
    ensures Eval(m, up, r, Binary(Ne, x, y)) == Eval(m, up, r, Unary(Negate, Binary(Eq, x, y)))
  {
  }

  /** The other comparisons compare the values of the operands in their order. */
  lemma Comparisons(m: Machine, up: seq<Value>, r: Regs, x: Expr, y: Expr, v: Value, w: Value)
    requires Eval(m, up, r, x) == Some(v) && Eval(m, up, r, y) == Some(w)
    ensures Eval(m, up, r, Binary(Lt, x, y)) == Answered(m.cmp(LT, v, w))
    ensures Eval(m, up, r, Binary(Le, x, y)) == Answered(m.cmp(LE, v, w))
    ensures Eval(m, up, r, Binary(Eq, x, y)) == Answered(m.cmp(EQ, v, w))
    ensures Eval(m, up, r, Binary(Gt, x, y)) == Answered(m.cmp(LT, w, v))
    ensures Eval(m, up, r, Binary(Ge, x, y)) == Answered(m.cmp(LE, w, v))
    ensures m.cmp(EQ, v, w) == None ==> Eval(m, up, r, Binary(Ne, x, y)) == None
    ensures forall b :: m.cmp(EQ, v, w) == Some(b) ==> Eval(m, up, r, Binary(Ne, x, y)) == Some(Bool(!b))
  {
  }

  /** Arithmetic on numbers is that of the machine; other values are left to it. */
  lemma ArithmeticOperators(m: Machine, up: seq<Value>, r: Regs, op: ArithOp, x: Expr, y: Expr, v: Value, w: Value)
    requires Eval(m, up, r, x) == Some(v) && Eval(m, up, r, y) == Some(w)
    ensures forall a, b :: v == Num(a) && w == Num(b) ==>
      Eval(m, up, r, Binary(Arithmetical(op), x, y)) == Some(Num(m.num(op, a, b)))
    ensures !(v.Num? && w.Num?) ==> Eval(m, up, r, Binary(Arithmetical(op), x, y)) == m.arith(op, v, w)
    ensures forall a :: v == Num(a) ==> Eval(m, up, r, Unary(Minus, x)) == Some(Num(m.unm(a)))
    ensures !v.Num? ==> Eval(m, up, r, Unary(Minus, x)) == m.neg(v)
    ensures Eval(m, up, r, Unary(Length, x)) == m.len(v)
  {
  }

  /** Only `nil` and `false` are false. `and` and `or` answer with one of their operands, and
      evaluate the second one only if the first does not decide. */
  lemma LogicalOperators(m: Machine, up: seq<Value>, r: Regs, x: Expr, y: Expr, v: Value)
    requires Eval(m, up, r, x) == Some(v)
    ensures v == Nil || v == Bool(false) ==>
      && Eval(m, up, r, Binary(And, x, y)) == Some(v) && Eval(m, up, r, Binary(Or, x, y)) == Eval(m, up, r, y)
      && Eval(m, up, r, Unary(Negate, x)) == Some(Bool(true))
    ensures v != Nil && v != Bool(false) ==>
      && Eval(m, up, r, Binary(And, x, y)) == Eval(m, up, r, y) && Eval(m, up, r, Binary(Or, x, y)) == Some(v)
      && Eval(m, up, r, Unary(Negate, x)) == Some(Bool(false))
  {
  }

  /** An error in an operand that is evaluated is one of the whole; operands are evaluated from
      left to right, and both of them but for `and` and `or`. */
  lemma Errors(m: Machine, up: seq<Value>, r: Regs, op: BinOpr, u: UnOpr, x: Expr, y: Expr)
    ensures Eval(m, up, r, x) == None ==>
      Eval(m, up, r, Binary(op, x, y)) == None && Eval(m, up, r, Unary(u, x)) == None
    ensures Eval(m, up, r, y) == None && op != And && op != Or ==> Eval(m, up, r, Binary(op, x, y)) == None
  {
  }

  /** Variables and literals stand for themselves, and parentheses change nothing. */
  lemma Atoms(m: Machine, up: seq<Value>, r: Regs, x: Expr, n: nat)
    ensures Eval(m, up, r, NilE) == Some(Nil) && Eval(m, up, r, TrueE) == Some(Bool(true))
    ensures Eval(m, up, r, FalseE) == Some(Bool(false)) && Eval(m, up, r, Paren(x)) == Eval(m, up, r, x)
    ensures Eval(m, up, r, Numeral(n)) == Some(Num(n)) && Eval(m, up, r, Text(n)) == Some(Str(n))
    ensures n < |r| ==> Eval(m, up, r, Local(n)) == Some(r[n])
    ensures n < |up| ==> Eval(m, up, r, Upvalue(n)) == Some(up[n])
  {
  }
}
