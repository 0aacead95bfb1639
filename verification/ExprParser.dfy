/** The parser of operator expressions (lua-5.1/lparser.c:777-857). */
module ExprParser {

  datatype Option<+T> = None | Some(value: T)

  datatype UnOpr = OPR_MINUS | OPR_NOT | OPR_LEN

  datatype BinOpr = OPR_ADD | OPR_SUB | OPR_MUL | OPR_DIV | OPR_MOD | OPR_POW | OPR_CONCAT | OPR_NE | OPR_EQ
                  | OPR_LT | OPR_LE | OPR_GT | OPR_GE | OPR_AND | OPR_OR

  /** A token: a character, a reserved word, or an operand without operators. */
  datatype Token = Char(c: char) | TK_NOT | TK_CONCAT | TK_NE | TK_EQ | TK_LE | TK_GE | TK_AND | TK_OR | Operand(n: nat)

  function GetUnOpr(t: Token): Option<UnOpr> {
    match t
    case TK_NOT => Some(OPR_NOT)
    case Char('-') => Some(OPR_MINUS)
    case Char('#') => Some(OPR_LEN)
    case _ => None
  }

  function GetBinOpr(t: Token): Option<BinOpr> {
    match t
    case Char('+') => Some(OPR_ADD)
    case Char('-') => Some(OPR_SUB)
    case Char('*') => Some(OPR_MUL)
    case Char('/') => Some(OPR_DIV)
    case Char('%') => Some(OPR_MOD)
    case Char('^') => Some(OPR_POW)
    case TK_CONCAT => Some(OPR_CONCAT)
    case TK_NE => Some(OPR_NE)
    case TK_EQ => Some(OPR_EQ)
    case Char('<') => Some(OPR_LT)
    case TK_LE => Some(OPR_LE)
    case Char('>') => Some(OPR_GT)
    case TK_GE => Some(OPR_GE)
    case TK_AND => Some(OPR_AND)
    case TK_OR => Some(OPR_OR)
    case _ => None
  }

  function UnToken(op: UnOpr): (t: Token)
    ensures GetUnOpr(t) == Some(op)
  {
    match op
    case OPR_NOT => TK_NOT
    case OPR_MINUS => Char('-')
    case OPR_LEN => Char('#')
  }

  function BinToken(op: BinOpr): (t: Token)
    ensures GetBinOpr(t) == Some(op)
  {
    match op
    case OPR_ADD => Char('+')
    case OPR_SUB => Char('-')
    case OPR_MUL => Char('*')
    case OPR_DIV => Char('/')
    case OPR_MOD => Char('%')
    case OPR_POW => Char('^')
    case OPR_CONCAT => TK_CONCAT
    case OPR_NE => TK_NE
    case OPR_EQ => TK_EQ
    case OPR_LT => Char('<')
    case OPR_LE => TK_LE
    case OPR_GT => Char('>')
    case OPR_GE => TK_GE
    case OPR_AND => TK_AND
    case OPR_OR => TK_OR
  }

  function Left(op: BinOpr): nat {
    match op
    case OPR_ADD => 6
    case OPR_SUB => 6
    case OPR_MUL => 7
    case OPR_DIV => 7
    case OPR_MOD => 7
    case OPR_POW => 10
    case OPR_CONCAT => 5
    case OPR_AND => 2
    case OPR_OR => 1
    case _ => 3
  }

  function Right(op: BinOpr): nat {
    match op
    case OPR_POW => 9
    case OPR_CONCAT => 4
    case _ => Left(op)
  }

  const UNARY_PRIORITY: nat := 8

  // ----- trees -----

  datatype Expr = Atom(n: nat) | Un(uop: UnOpr, arg: Expr) | Bin(bop: BinOpr, lhs: Expr, rhs: Expr)

  /** An expression with the parentheses that it is written with. */
  datatype Tree = Leaf(n: nat) | Paren(e: Tree) | Unary(uop: UnOpr, e: Tree) | Binary(bop: BinOpr, l: Tree, r: Tree)

  function Tokens(t: Tree): seq<Token> {
    match t
    case Leaf(n) => [Operand(n)]
    case Paren(e) => [Char('(')] + Tokens(e) + [Char(')')]
    case Unary(op, e) => [UnToken(op)] + Tokens(e)
    case Binary(op, l, r) => Tokens(l) + ([BinToken(op)] + Tokens(r))
  }

  /** The expression that is meant. */
  function Meaning(t: Tree): Expr {
    match t
    case Leaf(n) => Atom(n)
    case Paren(e) => Meaning(e)
    case Unary(op, e) => Un(op, Meaning(e))
    case Binary(op, l, r) => Bin(op, Meaning(l), Meaning(r))
  }

  /** An operator after the tree takes the whole tree as its operand, and no part of it. */
  predicate TakenBy(t: Tree, op: BinOpr) {
    match t
    case Leaf(_) => true
    case Paren(_) => true
    case Unary(_, e) => Left(op) <= UNARY_PRIORITY && TakenBy(e, op)
    case Binary(o, _, r) => Left(op) <= Right(o) && TakenBy(r, op)
  }

  /** The tree obeys the priorities, and its operators outside of parentheses that are not in
      some right operand bind closer than `limit`. */
  predicate Obeys(t: Tree, limit: nat) {
    match t
    case Leaf(_) => true
    case Paren(e) => Obeys(e, 0)
    case Unary(_, e) => Obeys(e, UNARY_PRIORITY)
    case Binary(op, l, r) => Left(op) > limit && Obeys(l, limit) && TakenBy(l, op) && Obeys(r, Right(op))
  }

  predicate TakenByNext(t: Tree, rest: seq<Token>) {
    rest != [] && GetBinOpr(rest[0]).Some? ==> TakenBy(t, GetBinOpr(rest[0]).value)
  }

  /** The next token is no operator that binds closer than `limit`. */
  predicate Ends(rest: seq<Token>, limit: nat) {
    rest == [] || GetBinOpr(rest[0]).None? || Left(GetBinOpr(rest[0]).value) <= limit
  }

  // ----- the parser -----

  datatype Parsed = Ok(t: Tree, rest: seq<Token>) | SyntaxError

  /** `simpleexp`, with `prefixexp` for parentheses. */
  function SimpleExp(toks: seq<Token>): (p: Parsed)
    ensures p.Ok? ==> |p.rest| < |toks|
    decreases |toks|, 0
  {
    if toks == [] then SyntaxError
    else if toks[0].Operand? then Ok(Leaf(toks[0].n), toks[1..])
    else if toks[0] == Char('(') then
      var p := SubExpr(toks[1..], 0);
      if p.Ok? && p.rest != [] && p.rest[0] == Char(')') then Ok(Paren(p.t), p.rest[1..]) else SyntaxError
    else SyntaxError
  }

  /** `subexpr`: a first operand, then all operators that bind closer than `limit`. */
  function SubExpr(toks: seq<Token>, limit: nat): (p: Parsed)
    ensures p.Ok? ==> |p.rest| < |toks|
    decreases |toks|, 2
  {
    var first := FirstOperand(toks);
    if first.Ok? then Operators(first.t, first.rest, limit) else first
  }

  function FirstOperand(toks: seq<Token>): (p: Parsed)
    ensures p.Ok? ==> |p.rest| < |toks|
    decreases |toks|, 1
  {
    if toks != [] && GetUnOpr(toks[0]).Some? then
      var p := SubExpr(toks[1..], UNARY_PRIORITY);
      if p.Ok? then Ok(Unary(GetUnOpr(toks[0]).value, p.t), p.rest) else p
    else SimpleExp(toks)
  }

  function Operators(t: Tree, toks: seq<Token>, limit: nat): (p: Parsed)
    ensures p.Ok? ==> |p.rest| <= |toks|
    decreases |toks|, 2
  {
    if Ends(toks, limit) then Ok(t, toks)
    else
      var op := GetBinOpr(toks[0]).value;
      var p := SubExpr(toks[1..], Right(op));
      if p.Ok? then Operators(Binary(op, t, p.t), p.rest, limit) else p
  }

  // ----- what is parsed -----

  /** `p` is a tree over the tokens it has consumed that obeys the priorities and cannot go on. */
  ghost predicate Good(toks: seq<Token>, limit: nat, p: Parsed) {
    p.Ok? ==> Tokens(p.t) + p.rest == toks && Obeys(p.t, limit) && Ends(p.rest, limit) && TakenByNext(p.t, p.rest)
  }

  lemma {:induction false} SubExprGood(toks: seq<Token>, limit: nat)
    ensures Good(toks, limit, SubExpr(toks, limit))
    decreases |toks|, 2
  {
    FirstGood(toks);
    var first := FirstOperand(toks);
    if first.Ok? { OperatorsGood(first.t, first.rest, limit); }
  }

  lemma {:induction false} SimpleGood(toks: seq<Token>)
    ensures
      var p := SimpleExp(toks);
      p.Ok? ==> Tokens(p.t) + p.rest == toks && (p.t.Leaf? || (p.t.Paren? && Obeys(p.t, 0)))
    decreases |toks|, 0
  {
    if toks != [] && toks[0] == Char('(') {
      SubExprGood(toks[1..], 0);
      var p := SubExpr(toks[1..], 0);
      if p.Ok? && p.rest != [] && p.rest[0] == Char(')') {
        calc {
          Tokens(Paren(p.t)) + p.rest[1..];
          [Char('(')] + (Tokens(p.t) + ([Char(')')] + p.rest[1..]));
          [Char('(')] + (Tokens(p.t) + p.rest);
          toks;
        }
      }
    }
  }

  lemma {:induction false} FirstGood(toks: seq<Token>)
    ensures
      var p := FirstOperand(toks);
      p.Ok? ==> Tokens(p.t) + p.rest == toks && TakenByNext(p.t, p.rest) && forall limit :: Obeys(p.t, limit)
    decreases |toks|, 1
  {
    if toks != [] && GetUnOpr(toks[0]).Some? {
      SubExprGood(toks[1..], UNARY_PRIORITY);
      var p := SubExpr(toks[1..], UNARY_PRIORITY);
      if p.Ok? {
        assert UnToken(GetUnOpr(toks[0]).value) == toks[0];
        assert [toks[0]] + Tokens(p.t) + p.rest == [toks[0]] + (Tokens(p.t) + p.rest) == toks;
      }
    } else {
      SimpleGood(toks);
    }
  }

  lemma BinaryTokens(op: BinOpr, l: Tree, r: Tree, rest: seq<Token>, toks: seq<Token>)
    requires toks != [] && GetBinOpr(toks[0]) == Some(op) && toks[1..] == Tokens(r) + rest
    ensures Tokens(Binary(op, l, r)) + rest == Tokens(l) + toks
  {
    assert BinToken(op) == toks[0];
    assert toks == [toks[0]] + (Tokens(r) + rest);
    assert Tokens(Binary(op, l, r)) + rest == Tokens(l) + ([toks[0]] + (Tokens(r) + rest));
  }

  lemma {:induction false} OperatorsGood(t: Tree, toks: seq<Token>, limit: nat)
    requires Obeys(t, limit) && TakenByNext(t, toks)
    ensures
      var p := Operators(t, toks, limit);
      p.Ok? ==> Tokens(p.t) + p.rest == Tokens(t) + toks && Obeys(p.t, limit) && Ends(p.rest, limit) &&
                TakenByNext(p.t, p.rest)
    decreases |toks|, 2
  {
    if !Ends(toks, limit) {
      var op := GetBinOpr(toks[0]).value;
      SubExprGood(toks[1..], Right(op));
      var p := SubExpr(toks[1..], Right(op));
      if p.Ok? {
        BinaryTokens(op, t, p.t, p.rest, toks);
        OperatorsGood(Binary(op, t, p.t), p.rest, limit);
      }
    }
  }

  // ----- every tree that obeys the priorities is found -----

  lemma FindsLeaf(n: nat, limit: nat, rest: seq<Token>)
    ensures SubExpr(Tokens(Leaf(n)) + rest, limit) == Operators(Leaf(n), rest, limit)
  {
    var toks := Tokens(Leaf(n)) + rest;
    assert toks[0] == Operand(n) && toks[1..] == rest && GetUnOpr(toks[0]).None?;
    assert SimpleExp(toks) == Ok(Leaf(n), rest);
  }

  lemma ParenTokens(e: Tree, rest: seq<Token>)
    ensures var toks, inner := Tokens(Paren(e)) + rest, [Char(')')] + rest;
      |toks| > 0 && toks[0] == Char('(') && toks[1..] == Tokens(e) + inner && inner[1..] == rest
  {
  }

  /** A parenthesized tree is one operand. */
  lemma FindsParen(e: Tree, limit: nat, rest: seq<Token>)
    requires SubExpr(Tokens(e) + ([Char(')')] + rest), 0) == Operators(e, [Char(')')] + rest, 0)
    ensures SubExpr(Tokens(Paren(e)) + rest, limit) == Operators(Paren(e), rest, limit)
  {
    hide Tokens;
    var toks, inner := Tokens(Paren(e)) + rest, [Char(')')] + rest;
    ParenTokens(e, rest);
    assert Operators(e, inner, 0) == Ok(e, inner);
    assert FirstOperand(toks) == Ok(Paren(e), rest);
  }

  /** A unary operator takes what binds closer than it does. */
  lemma FindsUnary(op: UnOpr, e: Tree, limit: nat, rest: seq<Token>)
    requires TakenByNext(Unary(op, e), rest)
    requires SubExpr(Tokens(e) + rest, UNARY_PRIORITY) == Operators(e, rest, UNARY_PRIORITY)
    ensures SubExpr(Tokens(Unary(op, e)) + rest, limit) == Operators(Unary(op, e), rest, limit)
  {
    hide Left, Right, UnToken;
    var toks := Tokens(Unary(op, e)) + rest;
    assert toks[0] == UnToken(op) && toks[1..] == Tokens(e) + rest;
    assert FirstOperand(toks) == Ok(Unary(op, e), rest);
  }

  /** A binary operator follows its left operand and takes its right one. */
  lemma FindsBinary(op: BinOpr, l: Tree, r: Tree, limit: nat, rest: seq<Token>)
    requires Obeys(Binary(op, l, r), limit) && TakenByNext(Binary(op, l, r), rest)
    requires var next := [BinToken(op)] + (Tokens(r) + rest);
      SubExpr(Tokens(l) + next, limit) == Operators(l, next, limit)
    requires SubExpr(Tokens(r) + rest, Right(op)) == Operators(r, rest, Right(op))
    ensures SubExpr(Tokens(Binary(op, l, r)) + rest, limit) == Operators(Binary(op, l, r), rest, limit)
  {
    hide Left, Right, BinToken;
    var next := [BinToken(op)] + (Tokens(r) + rest);
    assert Tokens(Binary(op, l, r)) + rest == Tokens(l) + next && next[1..] == Tokens(r) + rest;
  }

  /** Before a tree's tokens nothing is decided that the tree does not say. */
  lemma {:induction false} FindsTree(t: Tree, limit: nat, rest: seq<Token>)
    requires Obeys(t, limit) && TakenByNext(t, rest)
    ensures SubExpr(Tokens(t) + rest, limit) == Operators(t, rest, limit)
    decreases t
  {
    hide SubExpr, Operators, Left, Right, BinToken;
    match t
    case Leaf(n) =>
      FindsLeaf(n, limit, rest);
    case Paren(e) =>
      FindsTree(e, 0, [Char(')')] + rest);
      FindsParen(e, limit, rest);
    case Unary(op, e) =>
      FindsTree(e, UNARY_PRIORITY, rest);
      FindsUnary(op, e, limit, rest);
    case Binary(op, l, r) =>
      FindsTree(l, limit, [BinToken(op)] + (Tokens(r) + rest));
      FindsTree(r, Right(op), rest);
      FindsBinary(op, l, r, limit, rest);
  }

  /** The tree is the only one over these tokens that obeys the priorities and cannot go on. */
  lemma ParsesTree(t: Tree, limit: nat, rest: seq<Token>)
    requires Obeys(t, limit) && TakenByNext(t, rest) && Ends(rest, limit)
    ensures SubExpr(Tokens(t) + rest, limit) == Ok(t, rest)
  {
    FindsTree(t, limit, rest);
  }

  lemma OnlyOneTree(t: Tree, t': Tree, limit: nat, rest: seq<Token>, rest': seq<Token>)
    requires Good(Tokens(t) + rest, limit, Ok(t, rest)) && Good(Tokens(t) + rest, limit, Ok(t', rest'))
    ensures t == t' && rest == rest'
  {
    ParsesTree(t, limit, rest);
    ParsesTree(t', limit, rest');
  }

  // ----- a printer that puts parentheses only where the priorities need them -----

  function Print(e: Expr, limit: nat): (t: Tree)
    ensures Meaning(t) == e && Obeys(t, limit)
    decreases e, 1
  {
    match e
    case Atom(n) => Leaf(n)
    case Un(op, x) => Unary(op, Print(x, UNARY_PRIORITY))
    case Bin(op, x, y) =>
      if Left(op) <= limit then Paren(PrintBinary(op, x, y, 0)) else PrintBinary(op, x, y, limit)
  }

  function PrintBinary(op: BinOpr, x: Expr, y: Expr, limit: nat): (t: Tree)
    requires Left(op) > limit
    ensures Meaning(t) == Bin(op, x, y) && Obeys(t, limit)
    decreases Bin(op, x, y), 0
  {
    var l := Print(x, limit);
    Binary(op, if TakenBy(l, op) then l else Paren(Print(x, 0)), Print(y, Right(op)))
  }

  /** The parser inverts the printer. */
  lemma ParseInvertsPrint(e: Expr)
    ensures
      var p := SubExpr(Tokens(Print(e, 0)), 0);
      p.Ok? && Meaning(p.t) == e && p.rest == []
  {
    assert Tokens(Print(e, 0)) + [] == Tokens(Print(e, 0));
    ParsesTree(Print(e, 0), 0, []);
  }

  // ----- the parser as it runs -----

  /** `LexState`, with the current token at `pos`. */
  class LexState {
    const toks: seq<Token>
    var pos: nat

    constructor (tokens: seq<Token>)
      ensures Valid() && Ahead() == tokens
    {
      toks, pos := tokens, 0;
    }

    predicate Valid()
      reads this
    {
      pos <= |toks|
    }

    function Ahead(): seq<Token>
      requires Valid()
      reads this
    {
      toks[pos..]
    }

    /** The operator at the current token, `OPR_NOBINOPR` being `None`. */
    function Operator(): Option<BinOpr>
      requires Valid()
      reads this
    {
      if pos == |toks| then None else GetBinOpr(toks[pos])
    }

    /** `luaX_next`. */
    method Next()
      requires Valid() && pos < |toks|
      modifies this
      ensures Valid() && Ahead() == old(Ahead())[1..] && |Ahead()| == old(|Ahead()|) - 1
    {
      pos := pos + 1;
    }

    method ParseSimple() returns (t: Option<Tree>)
      requires Valid()
      modifies this
      ensures Valid()
      ensures
        match SimpleExp(old(Ahead()))
        case Ok(x, rest) => t == Some(x) && Ahead() == rest
        case SyntaxError => t == None
      decreases |toks| - pos, 0
    {
      t := None;
      if pos == |toks| { return; }
      match toks[pos]
      case Operand(n) =>
        Next();
        t := Some(Leaf(n));
      case Char('(') =>
        Next();
        var e, op := ParseSub(0);
        if e.None? || pos == |toks| || toks[pos] != Char(')') { return; }
        Next();
        t := Some(Paren(e.value));
      case _ =>
    }

    /** `subexpr`; `op` is the operator it has stopped at. */
    method ParseSub(limit: nat) returns (t: Option<Tree>, op: Option<BinOpr>)
      requires Valid()
      modifies this
      ensures Valid()
      ensures
        match SubExpr(old(Ahead()), limit)
        case Ok(x, rest) => t == Some(x) && Ahead() == rest && op == Operator()
        case SyntaxError => t == None
      decreases |toks| - pos, 1
    {
      ghost var toks0 := Ahead();
      op := None;
      if pos < |toks| && GetUnOpr(toks[pos]).Some? {
        var uop := GetUnOpr(toks[pos]).value;
        Next();
        t, op := ParseSub(UNARY_PRIORITY);
        if t.None? { return; }
        t := Some(Unary(uop, t.value));
      } else {
        t := ParseSimple();
        if t.None? { return; }
      }
      op := Operator();
      while op.Some? && Left(op.value) > limit
        invariant Valid() && |Ahead()| < |toks0| && t.Some? && op == Operator()
        invariant SubExpr(toks0, limit) == Operators(t.value, Ahead(), limit)
        decreases |toks| - pos
      {
        Next();
        var r, nextop := ParseSub(Right(op.value));
        if r.None? { return None, None; }
        t := Some(Binary(op.value, t.value, r.value));
        op := nextop;
      }
    }

    /** `expr`: a tree over the tokens consumed that obeys the priorities, if there is any. */
    method ParseExpr() returns (t: Option<Tree>)
      requires Valid()
      modifies this
      ensures Valid() && (t.Some? ==> Good(old(Ahead()), 0, Ok(t.value, Ahead())))
      ensures t.None? ==> forall x, rest :: !Good(old(Ahead()), 0, Ok(x, rest))
    {
      SubExprGood(Ahead(), 0);
      ghost var toks0 := Ahead();
      var op;
      t, op := ParseSub(0);
      if t.None? {
        forall x, rest
          ensures !Good(toks0, 0, Ok(x, rest))
        {
          if Good(toks0, 0, Ok(x, rest)) { ParsesTree(x, 0, rest); }
        }
      }
    }
  }
}
