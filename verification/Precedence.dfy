/** The precedence of operators as section 2.5.6 of the Lua 5.1 Reference Manual gives it, on tokens. */
module Precedence {
  import opened ExprParser

  /** The binary operators from the lowest to the highest precedence. */
  const LEVELS: seq<set<Token>> := [
    {TK_OR},
    {TK_AND},
    {Char('<'), Char('>'), TK_LE, TK_GE, TK_NE, TK_EQ},
    {TK_CONCAT},
    {Char('+'), Char('-')},
    {Char('*'), Char('/'), Char('%')},
    {Char('^')}
  ]

  const RIGHT_ASSOCIATIVE: set<Token> := {TK_CONCAT, Char('^')}

  /** What the tokens stand for between two operands. */
  const OPERATORS: map<Token, BinOpr> := map[
    TK_OR := OPR_OR, TK_AND := OPR_AND,
    Char('<') := OPR_LT, Char('>') := OPR_GT, TK_LE := OPR_LE, TK_GE := OPR_GE, TK_NE := OPR_NE, TK_EQ := OPR_EQ,
    TK_CONCAT := OPR_CONCAT, Char('+') := OPR_ADD, Char('-') := OPR_SUB,
    Char('*') := OPR_MUL, Char('/') := OPR_DIV, Char('%') := OPR_MOD, Char('^') := OPR_POW
  ]

  const UNARY_OPERATORS: map<Token, UnOpr> := map[TK_NOT := OPR_NOT, Char('-') := OPR_MINUS, Char('#') := OPR_LEN]

  predicate AtLevel(t: Token, i: nat) {
    i < |LEVELS| && t in LEVELS[i]
  }

  /** A name or number, or anything in parentheses that is an expression. */
  predicate IsOperand(t: Tree) {
    t.Leaf? || (t.Paren? && SubExpr(Tokens(t.e), 0) == Ok(t.e, []))
  }

  lemma OperandObeys(t: Tree, limit: nat)
    requires IsOperand(t)
    ensures Obeys(t, limit) && forall op :: TakenBy(t, op)
  {
    if t.Paren? { SubExprGood(Tokens(t.e), 0); }
  }

  /** The whole input is the tree. */
  lemma WholeTree(t: Tree)
    requires Obeys(t, 0)
    ensures SubExpr(Tokens(t), 0) == Ok(t, [])
  {
    assert Tokens(t) + [] == Tokens(t);
    ParsesTree(t, 0, []);
  }

  /** Tokens that are not in the tables are no operators. */
  lemma NoOthers(t: Token)
    ensures t in OPERATORS <==> GetBinOpr(t).Some?
    ensures t in UNARY_OPERATORS <==> GetUnOpr(t).Some?
    ensures t in UNARY_OPERATORS ==> GetUnOpr(t) == Some(UNARY_OPERATORS[t]) && UnToken(UNARY_OPERATORS[t]) == t
  {
  }

  /** Every binary operator is at one level, and its token is that of the tables. */
  lemma OneLevel(t: Token, i: nat)
    requires AtLevel(t, i)
    ensures t in OPERATORS && GetBinOpr(t) == Some(OPERATORS[t]) && BinToken(OPERATORS[t]) == t
    ensures forall j: nat :: AtLevel(t, j) ==> j == i
  {
  }

  /** What the levels come to in the priorities of the parser. */
  lemma LevelPriorities(t: Token, i: nat)
    requires AtLevel(t, i) && t in OPERATORS
    ensures Left(OPERATORS[t]) == [1, 2, 3, 5, 6, 7, 10][i] && Right(OPERATORS[t]) == [1, 2, 3, 4, 6, 7, 9][i]
    ensures (i == 3 || i == 6 <==> t in RIGHT_ASSOCIATIVE) && (i == 6 <==> t == Char('^'))
  {
  }

  lemma ClosestFirst(t1: Token, t2: Token, i: nat, j: nat)
    requires AtLevel(t1, i) && AtLevel(t2, j) && t1 in OPERATORS && t2 in OPERATORS
    ensures Left(OPERATORS[t2]) > 0 && Left(OPERATORS[t1]) > 0
    ensures j < i || (j == i && t2 !in RIGHT_ASSOCIATIVE) <==> Left(OPERATORS[t2]) <= Right(OPERATORS[t1])
    ensures t2 != Char('^') <==> Left(OPERATORS[t2]) <= UNARY_PRIORITY
  {
    LevelPriorities(t1, i);
    LevelPriorities(t2, j);
    hide AtLevel, Left, Right;
  }

  /** `x op1 y op2 z` is `(x op1 y) op2 z` if the second operator is of a lower level, or of the same
      level and left associative, and otherwise `x op1 (y op2 z)`. */
  lemma TwoOperators(x: Tree, t1: Token, y: Tree, t2: Token, z: Tree, i: nat, j: nat)
    requires IsOperand(x) && IsOperand(y) && IsOperand(z) && AtLevel(t1, i) && AtLevel(t2, j)
    ensures t1 in OPERATORS && t2 in OPERATORS
    ensures var op1, op2 := OPERATORS[t1], OPERATORS[t2];
      SubExpr(Tokens(x) + [t1] + Tokens(y) + [t2] + Tokens(z), 0) ==
      Ok(if j < i || (j == i && t2 !in RIGHT_ASSOCIATIVE) then Binary(op2, Binary(op1, x, y), z)
         else Binary(op1, x, Binary(op2, y, z)), [])
  {
    hide AtLevel, IsOperand, Left, Right, BinToken, SubExpr;
    OneLevel(t1, i);
    OneLevel(t2, j);
    ClosestFirst(t1, t2, i, j);
    var op1, op2 := OPERATORS[t1], OPERATORS[t2];
    if Left(op2) <= Right(op1) { LeftGroup(x, op1, y, op2, z); } else { RightGroup(x, op1, y, op2, z); }
  }

  lemma LeftGroup(x: Tree, op1: BinOpr, y: Tree, op2: BinOpr, z: Tree)
    requires IsOperand(x) && IsOperand(y) && IsOperand(z) && 0 < Left(op2) <= Right(op1) && Left(op1) > 0
    ensures SubExpr(Tokens(x) + [BinToken(op1)] + Tokens(y) + [BinToken(op2)] + Tokens(z), 0) ==
            Ok(Binary(op2, Binary(op1, x, y), z), [])
  {
    hide IsOperand, Left, Right, BinToken, SubExpr;
    OperandObeys(x, 0);
    OperandObeys(y, Right(op1));
    OperandObeys(z, Right(op2));
    WholeTree(Binary(op2, Binary(op1, x, y), z));
    assert Tokens(Binary(op2, Binary(op1, x, y), z))
      == Tokens(x) + [BinToken(op1)] + Tokens(y) + [BinToken(op2)] + Tokens(z);
  }

  lemma RightGroup(x: Tree, op1: BinOpr, y: Tree, op2: BinOpr, z: Tree)
    requires IsOperand(x) && IsOperand(y) && IsOperand(z) && Left(op2) > Right(op1) && Left(op1) > 0
    ensures SubExpr(Tokens(x) + [BinToken(op1)] + Tokens(y) + [BinToken(op2)] + Tokens(z), 0) ==
            Ok(Binary(op1, x, Binary(op2, y, z)), [])
  {
    hide IsOperand, Left, Right, BinToken, SubExpr;
    OperandObeys(x, 0);
    OperandObeys(y, Right(op1));
    OperandObeys(z, Right(op2));
    WholeTree(Binary(op1, x, Binary(op2, y, z)));
    assert Tokens(Binary(op1, x, Binary(op2, y, z)))
      == Tokens(x) + [BinToken(op1)] + Tokens(y) + [BinToken(op2)] + Tokens(z);
  }

  /** `u x op y` is `(u x) op y`, but `u (x ^ y)` for the one operator above the unary ones. */
  lemma UnaryThenBinary(u: Token, x: Tree, t: Token, y: Tree, i: nat)
    requires u in UNARY_OPERATORS && IsOperand(x) && IsOperand(y) && AtLevel(t, i)
    ensures t in OPERATORS
    ensures var un, op := UNARY_OPERATORS[u], OPERATORS[t];
      SubExpr([u] + Tokens(x) + [t] + Tokens(y), 0) ==
      Ok(if t != Char('^') then Binary(op, Unary(un, x), y) else Unary(un, Binary(op, x, y)), [])
  {
    hide AtLevel, IsOperand, Left, Right, BinToken, UnToken, SubExpr;
    OneLevel(t, i);
    NoOthers(u);
    ClosestFirst(t, t, i, i);
    var un, op := UNARY_OPERATORS[u], OPERATORS[t];
    OperandObeys(x, UNARY_PRIORITY);
    OperandObeys(y, Right(op));
    if t != Char('^') {
      WholeTree(Binary(op, Unary(un, x), y));
      assert Tokens(Binary(op, Unary(un, x), y)) == [u] + Tokens(x) + [t] + Tokens(y);
    } else {
      WholeTree(Unary(un, Binary(op, x, y)));
      assert Tokens(Unary(un, Binary(op, x, y))) == [u] + Tokens(x) + [t] + Tokens(y);
    }
  }

  /** A unary operator after a binary one belongs to the second operand, also after `^`. */
  lemma BinaryThenUnary(x: Tree, t: Token, u: Token, y: Tree, i: nat)
    requires u in UNARY_OPERATORS && IsOperand(x) && IsOperand(y) && AtLevel(t, i)
    ensures t in OPERATORS
    ensures var un, op := UNARY_OPERATORS[u], OPERATORS[t];
      SubExpr(Tokens(x) + [t] + [u] + Tokens(y), 0) == Ok(Binary(op, x, Unary(un, y)), [])
  {
    hide AtLevel, IsOperand, Left, Right, BinToken, UnToken, SubExpr;
    OneLevel(t, i);
    NoOthers(u);
    ClosestFirst(t, t, i, i);
    var un, op := UNARY_OPERATORS[u], OPERATORS[t];
    OperandObeys(x, 0);
    OperandObeys(y, UNARY_PRIORITY);
    WholeTree(Binary(op, x, Unary(un, y)));
    assert Tokens(Binary(op, x, Unary(un, y))) == Tokens(x) + [t] + [u] + Tokens(y);
  }
}
