/** Where the generated code loses the value of an expression. A constant that always jumps
    takes along the jumps that were to lead to it (`luaK_jump`, lua-5.1/lcode.c:54-61);
    such a jump may belong to a test that copies its own operand instead. */
module LostValues {
  import opened LuaVM
  import opened Expressions

  // ----- the courses that runs can take, found from the expression -----

  /** What matters of a value. */
  datatype Sort = SNil | SFalse | STrue | SOther

  function SortOf(v: Value): Sort {
    match v
    case Nil => SNil
    case Bool(b) => if b then STrue else SFalse
    case _ => SOther
  }

  function SortIn(c: Option<Value>): Option<Sort> {
    if c.None? then None else Some(SortOf(c.value))
  }

  predicate Holds(s: Sort) {
    s.STrue? || s.SOther?
  }

  /** A course through the code of an expression: see `Way`. It is `lost` if the jump by which
      it leaves copies something else than the value. */
  datatype Course = Falls(s: Sort, c: Option<Sort>) | Leaves(side: bool, c: Option<Sort>, lost: bool)

  /** The course on through `luaK_goiftrue` or `luaK_goiffalse`. A constant that jumps, or lets
      control through, keeps what the jumps to it copy. */
  function Branches(f: Form, sense: bool, a: Course): (b: Course)
    ensures b.Leaves?
  {
    if a.Leaves? then a
    else if f.Boolean? then Leaves(Holds(a.s), None, false)
    else if Passes(f, sense) || f == Literal(Bool(!sense)) then Leaves(Holds(a.s), a.c, a.c.Some? && a.c.value != a.s)
    else Leaves(Holds(a.s), if Holds(a.s) == sense then None else Some(a.s), false)
  }

  function Refused(a: Course): Course {
    match a
    case Falls(s, c) => Falls(if Holds(s) then SFalse else STrue, c)
    case Leaves(side, _, _) => Leaves(!side, None, false)
  }

  /** What the second operand is entered with. */
  function Passed(m: Machine, x: Expr, a: Course): Option<Sort> {
    if InPlace(m, x) then a.c else None
  }

  const SORTS: set<Sort> := {SNil, SFalse, STrue, SOther}

  /** The courses of all runs that come to the expression by a jump that copies `c`. */
  function Courses(m: Machine, e: Expr, c: Option<Sort>): set<Course>
    decreases e, 0
  {
    match e
    case Local(_) => set s | s in SORTS :: Falls(s, c)
    case Upvalue(_) => set s | s in SORTS :: Falls(s, c)
    case Paren(e1) => Courses(m, e1, c)
    case Unary(Negate, e1) => set a | a in Courses(m, e1, c) :: Refused(a)
    case Unary(Minus, e1) =>
      if NumeralOf(m, e1).Some? then set a | a in Courses(m, e1, c) :: Falls(SOther, Passed(m, e1, a))
      else set s | s in SORTS :: Falls(s, None)
    case Unary(Length, _) => set s | s in SORTS :: Falls(s, None)
    case Binary(And, x, y) => AllOnward(m, x, true, Courses(m, x, c), y)
    case Binary(Or, x, y) => AllOnward(m, x, false, Courses(m, x, c), y)
    case Binary(Arithmetical(op), x, y) =>
      if Folds(m, Arithmetical(op), x, y)
      then AllFolded(m, x, Courses(m, x, c), y)
      else set s | s in SORTS :: Falls(s, None)
    case Binary(_, _, _) => {Falls(SFalse, None), Falls(STrue, None)}
    case _ => {Falls(SortOf(FormOf(m, e).v), c)}
  }

  function Onward(m: Machine, x: Expr, sense: bool, a: Course, y: Expr): set<Course>
    decreases y, 1
  {
    var b := Branches(FormOf(m, x), sense, a);
    if b.side == sense then Courses(m, y, b.c) else {b}
  }

  function AllOnward(m: Machine, x: Expr, sense: bool, from: set<Course>, y: Expr): (all: set<Course>)
    ensures forall b :: b in all <==> exists a :: a in from && b in Onward(m, x, sense, a, y)
    decreases y, 2
  {
    set a, b | a in from && b in Onward(m, x, sense, a, y) :: b
  }

  /** Two numbers give one. */
  function AllFolded(m: Machine, x: Expr, from: set<Course>, y: Expr): (all: set<Course>)
    ensures forall a, b :: a in from && b in Courses(m, y, Passed(m, x, a)) ==> Falls(SOther, Passed(m, y, b)) in all
    decreases y, 2
  {
    set a, b | a in from && b in Courses(m, y, Passed(m, x, a)) :: Falls(SOther, Passed(m, y, b))
  }

  /** Some course loses the value. */
  predicate Loses(m: Machine, e: Expr, c: Option<Sort>) {
    exists a :: a in Courses(m, e, c) && a.Leaves? && a.lost
  }

  /** Some operand of an operator may have lost its value. */
  predicate LosesOperand(m: Machine, e: Expr, c: Option<Sort>)
    decreases e, 0
  {
    match e
    case Paren(e1) => LosesOperand(m, e1, c)
    case Unary(Negate, e1) => LosesOperand(m, e1, c)
    case Unary(_, e1) => LosesOperand(m, e1, c) || Loses(m, e1, c)
    case Binary(And, x, y) => LosesOperand(m, x, c) || LosesOnward(m, x, true, Courses(m, x, c), y)
    case Binary(Or, x, y) => LosesOperand(m, x, c) || LosesOnward(m, x, false, Courses(m, x, c), y)
    case Binary(_, x, y) =>
      || LosesOperand(m, x, c) || Loses(m, x, c)
      || LosesSecond(m, x, Courses(m, x, c), y)
    case _ => false
  }

  predicate LosesOnward(m: Machine, x: Expr, sense: bool, from: set<Course>, y: Expr)
    decreases y, 1
  {
    exists a :: a in from && var b := Branches(FormOf(m, x), sense, a); b.side == sense && LosesOperand(m, y, b.c)
  }

  predicate LosesSecond(m: Machine, x: Expr, from: set<Course>, y: Expr)
    decreases y, 1
  {
    exists a :: a in from && (LosesOperand(m, y, Passed(m, x, a)) || Loses(m, y, Passed(m, x, a)))
  }

  /** No run loses the value of an operand: the code goes where the expression says. */
  predicate KeepsTruth(m: Machine, e: Expr) {
    !LosesOperand(m, e, None)
  }

  /** No run loses a value at all. */
  predicate KeepsValue(m: Machine, e: Expr) {
    !LosesOperand(m, e, None) && !Loses(m, e, None)
  }

  // ----- every run takes one of the courses -----

  /** The run takes the course, for an expression of value `v`. */
  ghost predicate Takes(w: Way, a: Course, v: Option<Value>) {
    match w
    case Raised => false
    case Fell(u, c) => a == Falls(SortOf(u), SortIn(c)) && v == Some(u)
    case Left(side, c) =>
      && a.Leaves? && a.side == side && a.c == SortIn(c) && v.Some? && Truthy(v.value) == side
      && (a.lost <==> ValueIn(w) != v)
  }

  /** Without jumps of a list, no run leaves by that list. */
  lemma {:induction false} NoWayOut(m: Machine, up: seq<Value>, r: Regs, e: Expr, c: Option<Value>, side: bool)
    requires !HasJumps(m, e, side)
    ensures var w := WayOf(m, up, r, e, c); w.Left? ==> w.side != side
    decreases e, 1
  {
    match e
    case Paren(e1) => NoWayOut(m, up, r, e1, c, side);
    case Unary(Negate, e1) => NoWayOut(m, up, r, e1, c, !side);
    case Binary(And, x, y) => LogicWayOut(m, up, r, x, y, c, true, side);
    case Binary(Or, x, y) => LogicWayOut(m, up, r, x, y, c, false, side);
    case _ =>
  }

  lemma {:induction false} LogicWayOut(m: Machine, up: seq<Value>, r: Regs, x: Expr, y: Expr, c: Option<Value>,
                                       sense: bool, side: bool)
    requires !HasJumps(m, Binary(if sense then And else Or, x, y), side)
    ensures var w := WayOf(m, up, r, Binary(if sense then And else Or, x, y), c); w.Left? ==> w.side != side
    decreases Binary(if sense then And else Or, x, y), 0
  {
    FormOfLogic(m, x, y, sense);
    var w := WayOf(m, up, r, x, c);
    var g := GoIf(FormOf(m, x), sense, w);
    if side != sense {
      NoWayOut(m, up, r, x, c, side);
      FormValue(m, up, r, x, c);
    }
    if g.Left? && g.side == sense { NoWayOut(m, up, r, y, g.c, side); }
  }

  /** What the form tells of the main value. */
  lemma {:induction false} FormValue(m: Machine, up: seq<Value>, r: Regs, e: Expr, c: Option<Value>)
    ensures var f, w := FormOf(m, e), WayOf(m, up, r, e, c);
      w.Fell? ==> (f.Literal? ==> w.v == f.v) && (f.Boolean? ==> w.v.Bool?)
    decreases e, 1
  {
    match e
    case Paren(e1) => FormValue(m, up, r, e1, c);
    case Unary(Negate, e1) => FormValue(m, up, r, e1, c);
    case Unary(_, e1) => NumeralValue(m, up, r, e1, c);
    case Binary(And, x, y) =>
      var g := GoIf(FormOf(m, x), true, WayOf(m, up, r, x, c));
      if !g.Raised? { FormValue(m, up, r, y, g.c); }
    case Binary(Or, x, y) =>
      var g := GoIf(FormOf(m, x), false, WayOf(m, up, r, x, c));
      if !g.Raised? { FormValue(m, up, r, y, g.c); }
    case Binary(_, x, y) =>
      NumeralValue(m, up, r, x, c);
      var w := Taken(m, x, WayOf(m, up, r, x, c));
      if !w.Raised? { NumeralValue(m, up, r, y, w.c); }
    case _ =>
  }

  lemma {:induction false} NumeralValue(m: Machine, up: seq<Value>, r: Regs, e: Expr, c: Option<Value>)
    ensures var n, w := NumeralOf(m, e), WayOf(m, up, r, e, c);
      n.Some? && !w.Raised? ==> w.Fell? && w.v == Num(n.value)
    decreases e, 2
  {
    if NumeralOf(m, e).Some? {
      FormValue(m, up, r, e, c);
      NoWayOut(m, up, r, e, c, true);
      NoWayOut(m, up, r, e, c, false);
    }
  }

  /** The course on through `luaK_goiftrue` or `luaK_goiffalse`. */
  lemma TakesBranch(m: Machine, up: seq<Value>, r: Regs, x: Expr, c: Option<Value>, a: Course, sense: bool)
    requires var w := WayOf(m, up, r, x, c); Takes(w, a, Eval(m, up, r, x))
    ensures var g, b, v := Going(m, up, r, x, sense, c), Branches(FormOf(m, x), sense, a), Eval(m, up, r, x);
      && g.Left? && b.side == g.side && b.c == SortIn(g.c) && v.Some? && Truthy(v.value) == g.side
      && (g.side != sense ==> Takes(g, b, v))
  {
    hide WayOf, Eval, FormOf;
    FormValue(m, up, r, x, c);
  }

  /** Every run takes one of the courses, and loses the value exactly on those that are lost. */
  lemma {:induction false} CourseOf(m: Machine, up: seq<Value>, r: Regs, e: Expr, c: Option<Value>) returns (a: Course)
    requires !LosesOperand(m, e, SortIn(c))
    ensures var w, v := WayOf(m, up, r, e, c), Eval(m, up, r, e);
      (w.Raised? <==> v.None?) && (!w.Raised? ==> a in Courses(m, e, SortIn(c)) && Takes(w, a, v))
    decreases e, 1
  {
    match e
    case Paren(e1) => a := CourseOf(m, up, r, e1, c);
    case Unary(Negate, e1) =>
      a := CourseOf(m, up, r, e1, c);
      a := Refused(a);
    case Unary(op, e1) => a := UnaryCourse(m, up, r, op, e1, c);
    case Binary(And, x, y) => a := LogicCourse(m, up, r, x, y, c, true);
    case Binary(Or, x, y) => a := LogicCourse(m, up, r, x, y, c, false);
    case Binary(op, x, y) => a := BinaryCourse(m, up, r, op, x, y, c);
    case _ => a := Falls(SortOf(Eval(m, up, r, e).value), SortIn(c));
  }

  lemma {:induction false} UnaryCourse(m: Machine, up: seq<Value>, r: Regs, op: UnOpr, x: Expr, c: Option<Value>)
      returns (a: Course)
    requires op != Negate && !LosesOperand(m, Unary(op, x), SortIn(c))
    ensures var w, v := WayOf(m, up, r, Unary(op, x), c), Eval(m, up, r, Unary(op, x));
      (w.Raised? <==> v.None?) && (!w.Raised? ==> a in Courses(m, Unary(op, x), SortIn(c)) && Takes(w, a, v))
    decreases Unary(op, x), 0
  {
    a := CourseOf(m, up, r, x, c);
    var w, w1 := WayOf(m, up, r, Unary(op, x), c), WayOf(m, up, r, x, c);
    if w.Fell? {
      assert ValueIn(w1) == Eval(m, up, r, x);
      NumeralValue(m, up, r, x, c);
      a := Falls(SortOf(w.v), SortIn(w.c));
    }
  }

  lemma LogicCourses(m: Machine, x: Expr, y: Expr, c: Option<Sort>, sense: bool)
    ensures var e := Binary(if sense then And else Or, x, y);
      && Courses(m, e, c) == AllOnward(m, x, sense, Courses(m, x, c), y)
      && (!LosesOperand(m, e, c) ==> !LosesOperand(m, x, c) && !LosesOnward(m, x, sense, Courses(m, x, c), y))
  {
    hide Onward, AllOnward, LosesOnward, Loses;
    if sense {
    } else {
    }
  }

  lemma {:induction false} LogicCourse(m: Machine, up: seq<Value>, r: Regs, x: Expr, y: Expr, c: Option<Value>,
                                       sense: bool) returns (a: Course)
    requires !LosesOperand(m, Binary(if sense then And else Or, x, y), SortIn(c))
    ensures var e := Binary(if sense then And else Or, x, y);
      var w, v := WayOf(m, up, r, e, c), Eval(m, up, r, e);
      (w.Raised? <==> v.None?) && (!w.Raised? ==> a in Courses(m, e, SortIn(c)) && Takes(w, a, v))
    decreases Binary(if sense then And else Or, x, y), 0
  {
    hide WayOf, Eval, Courses, LosesOperand, Takes, Branches;
    WayLogic(m, up, r, x, y, sense, c);
    EvalLogic(m, up, r, x, y, sense);
    LogicCourses(m, x, y, SortIn(c), sense);
    a := CourseOf(m, up, r, x, c);
    if !WayOf(m, up, r, x, c).Raised? {
      TakesBranch(m, up, r, x, c, a, sense);
      var a1, g, b := a, Going(m, up, r, x, sense, c), Branches(FormOf(m, x), sense, a);
      a := b;
      if g.side == sense { a := CourseOf(m, up, r, y, g.c); }
      assert g.side != sense || !WayOf(m, up, r, y, g.c).Raised? ==> a in Onward(m, x, sense, a1, y);
    }
  }

  lemma BinaryLoses(m: Machine, op: BinOpr, x: Expr, y: Expr, c: Option<Sort>)
    requires (op.Arithmetical? || IsComparison(op)) && !LosesOperand(m, Binary(op, x, y), c)
    ensures !LosesOperand(m, x, c) && !Loses(m, x, c) && !LosesSecond(m, x, Courses(m, x, c), y)
  {
    hide Loses, Passed, LosesSecond;
  }

  lemma BinaryCourses(m: Machine, op: BinOpr, x: Expr, y: Expr, c: Option<Sort>, a: Course, b: Course, v: Value)
    requires (op.Arithmetical? || IsComparison(op)) && a in Courses(m, x, c) && b in Courses(m, y, Passed(m, x, a))
    requires (IsComparison(op) ==> v.Bool?) && (Folds(m, op, x, y) ==> v.Num?)
    ensures Falls(SortOf(v), if Folds(m, op, x, y) then Passed(m, y, b) else None) in Courses(m, Binary(op, x, y), c)
  {
    hide Passed, Folds, AllFolded;
  }

  lemma {:induction false} BinaryCourse(m: Machine, up: seq<Value>, r: Regs, op: BinOpr, x: Expr, y: Expr,
                                        c: Option<Value>) returns (a: Course)
    requires (op.Arithmetical? || IsComparison(op)) && !LosesOperand(m, Binary(op, x, y), SortIn(c))
    ensures var e := Binary(op, x, y);
      var w, v := WayOf(m, up, r, e, c), Eval(m, up, r, e);
      (w.Raised? <==> v.None?) && (!w.Raised? ==> a in Courses(m, e, SortIn(c)) && Takes(w, a, v))
    decreases Binary(op, x, y), 0
  {
    hide WayOf, Eval, Courses, LosesOperand, Folds, NumeralOf, InPlace;
    WayOperation(m, up, r, op, x, y, c);
    EvalOperation(m, up, r, op, x, y);
    BinaryLoses(m, op, x, y, SortIn(c));
    a := CourseOf(m, up, r, x, c);
    var w1 := WayOf(m, up, r, x, c);
    if !w1.Raised? {
      assert ValueIn(w1) == Eval(m, up, r, x);
      var a1, c1 := a, Taken(m, x, w1).c;
      var a2 := CourseOf(m, up, r, y, c1);
      var w2 := WayOf(m, up, r, y, c1);
      if !w2.Raised? {
        assert ValueIn(w2) == Eval(m, up, r, y);
        var w := WayOf(m, up, r, Binary(op, x, y), c);
        if w.Fell? {
          if Folds(m, op, x, y) { FoldedValue(m, up, r, op, x, y, c); }
          BinaryCourses(m, op, x, y, SortIn(c), a1, a2, w.v);
          a := Falls(SortOf(w.v), SortIn(w.c));
        }
      }
    }
  }

  lemma FoldedValue(m: Machine, up: seq<Value>, r: Regs, op: BinOpr, x: Expr, y: Expr, c: Option<Value>)
    requires Folds(m, op, x, y) && WayOf(m, up, r, Binary(op, x, y), c).Fell?
    ensures WayOf(m, up, r, Binary(op, x, y), c).v.Num?
  {
    hide WayOf;
    FormValue(m, up, r, Binary(op, x, y), c);
    FormOfOperation(m, op, x, y);
  }

  // ----- where the value is kept -----

  /** Where no course loses it, the generated code computes the value of the expression. */
  lemma ValueKept(m: Machine, up: seq<Value>, r: Regs, e: Expr)
    requires KeepsValue(m, e)
    ensures Computed(m, up, r, e) == Eval(m, up, r, e)
  {
    hide WayOf, Eval, Courses, LosesOperand;
    var a := CourseOf(m, up, r, e, None);
  }

  /** Where no operand of an operator loses its value, it goes where the expression says. */
  lemma TruthKept(m: Machine, up: seq<Value>, r: Regs, e: Expr)
    requires KeepsTruth(m, e)
    ensures ComputedTruth(m, up, r, e) == TruthOf(Eval(m, up, r, e))
  {
    hide WayOf, Eval, Courses, LosesOperand;
    var a := CourseOf(m, up, r, e, None);
    if !WayOf(m, up, r, e, None).Raised? { TakesBranch(m, up, r, e, None, a, true); }
  }

  // ----- where it is lost -----

  /** Made of constants, locals, parentheses and `not`, `and`, `or`. */
  predicate Logical(e: Expr) {
    match e
    case Local(r) => r < MAXSTACK
    case Upvalue(_) => false
    case Paren(e1) => Logical(e1)
    case Unary(op, e1) => op == Negate && Logical(e1)
    case Binary(op, x, y) => (op.And? || op.Or?) && Logical(x) && Logical(y)
    case _ => true
  }

  function Locals(e: Expr): set<nat> {
    match e
    case Local(r) => {r}
    case Paren(e1) => Locals(e1)
    case Unary(_, e1) => Locals(e1)
    case Binary(_, x, y) => Locals(x) + Locals(y)
    case _ => {}
  }

  /** No local occurs twice. */
  predicate ReadOnce(e: Expr) {
    match e
    case Paren(e1) => ReadOnce(e1)
    case Unary(_, e1) => ReadOnce(e1)
    case Binary(_, x, y) => ReadOnce(x) && ReadOnce(y) && Locals(x) !! Locals(y)
    case _ => true
  }

  lemma {:induction false} NoOperands(m: Machine, e: Expr, c: Option<Sort>)
    requires Logical(e)
    ensures !LosesOperand(m, e, c)
  {
    match e
    case Paren(e1) => NoOperands(m, e1, c);
    case Unary(_, e1) => NoOperands(m, e1, c);
    case Binary(op, x, y) =>
      NoOperands(m, x, c);
      forall b: Option<Sort>
        ensures !LosesOperand(m, y, b)
      {
        NoOperands(m, y, b);
      }
      assert !LosesOnward(m, x, op.And?, Courses(m, x, c), y);
    case _ =>
  }

  /** Only the locals that occur matter. */
  lemma {:induction false} OnlyLocals(m: Machine, up: seq<Value>, r: Regs, s: Regs, e: Expr, c: Option<Value>)
    requires Logical(e) && forall x :: x in Locals(e) ==> Reg(r, x) == Reg(s, x)
    ensures WayOf(m, up, r, e, c) == WayOf(m, up, s, e, c) && Eval(m, up, r, e) == Eval(m, up, s, e)
  {
    match e
    case Paren(e1) => OnlyLocals(m, up, r, s, e1, c);
    case Unary(_, e1) => OnlyLocals(m, up, r, s, e1, c);
    case Binary(op, x, y) =>
      OnlyLocals(m, up, r, s, x, c);
      var g := GoIf(FormOf(m, x), op.And?, WayOf(m, up, r, x, c));
      OnlyLocals(m, up, r, s, y, if g.Raised? then None else g.c);
    case _ =>
  }

  function Sample(s: Sort): (v: Value)
    ensures SortOf(v) == s
  {
    match s
    case SNil => Nil
    case SFalse => Bool(false)
    case STrue => Bool(true)
    case SOther => Str(0)
  }

  ghost predicate Elsewhere(r0: Regs, r: Regs, e: Expr) {
    |r| == |r0| == MAXSTACK && forall x :: 0 <= x < |r| && x !in Locals(e) ==> r[x] == r0[x]
  }

  /** Where no local occurs twice, some values of the locals make a run take any given course. */
  lemma {:induction false} CourseTaken(m: Machine, up: seq<Value>, r0: Regs, e: Expr, c: Option<Value>, a: Course)
      returns (r: Regs)
    requires Logical(e) && ReadOnce(e) && |r0| == MAXSTACK && a in Courses(m, e, SortIn(c))
    ensures Elsewhere(r0, r, e) && Takes(WayOf(m, up, r, e, c), a, Eval(m, up, r, e))
    decreases e, 1
  {
    match e
    case Local(i) =>
      var s :| s in SORTS && a == Falls(s, SortIn(c));
      r := r0[i := Sample(s)];
    case Paren(e1) => r := CourseTaken(m, up, r0, e1, c, a);
    case Unary(Negate, e1) =>
      var a1 :| a1 in Courses(m, e1, SortIn(c)) && a == Refused(a1);
      r := CourseTaken(m, up, r0, e1, c, a1);
      assert Takes(Negated(WayOf(m, up, r, e1, c)), a, Eval(m, up, r, e));
    case Binary(And, x, y) => r := LogicTaken(m, up, r0, x, y, c, a, true);
    case Binary(Or, x, y) => r := LogicTaken(m, up, r0, x, y, c, a, false);
    case _ => r := r0;
  }

  lemma {:induction false} LogicTaken(m: Machine, up: seq<Value>, r0: Regs, x: Expr, y: Expr, c: Option<Value>,
                                      a: Course, sense: bool) returns (r: Regs)
    requires var e := Binary(if sense then And else Or, x, y);
      Logical(e) && ReadOnce(e) && |r0| == MAXSTACK && a in Courses(m, e, SortIn(c))
    ensures var e := Binary(if sense then And else Or, x, y);
      Elsewhere(r0, r, e) && Takes(WayOf(m, up, r, e, c), a, Eval(m, up, r, e))
    decreases Binary(if sense then And else Or, x, y), 0
  {
    hide WayOf, Eval, Courses, Takes, Branches, AllOnward;
    LogicCourses(m, x, y, SortIn(c), sense);
    var a1 :| a1 in Courses(m, x, SortIn(c)) && a in Onward(m, x, sense, a1, y);
    r := CourseTaken(m, up, r0, x, c, a1);
    TakesFalls(m, up, r, x, c, a1);
    TakesBranch(m, up, r, x, c, a1, sense);
    var r1, g := r, Going(m, up, r, x, sense, c);
    if g.side == sense {
      r := CourseTaken(m, up, r1, y, g.c, a);
      OnlyLocals(m, up, r, r1, x, c);
    }
    WayLogic(m, up, r, x, y, sense, c);
    EvalLogic(m, up, r, x, y, sense);
  }

  lemma TakesFalls(m: Machine, up: seq<Value>, r: Regs, x: Expr, c: Option<Value>, a: Course)
    requires Takes(WayOf(m, up, r, x, c), a, Eval(m, up, r, x))
    ensures !WayOf(m, up, r, x, c).Raised?
  {
  }

  /** The registers that a function starts with, but for the locals of the expression. */
  ghost predicate AtStart(r: Regs, e: Expr) {
    |r| == MAXSTACK && forall x :: 0 <= x < |r| && x !in Locals(e) ==> r[x] == Nil
  }

  /** For logical expressions in which no local occurs twice, the condition is exact: some
      values of the locals make the generated code compute another value if it fails. */
  lemma KeptExactly(m: Machine, up: seq<Value>, e: Expr)
    requires Logical(e) && ReadOnce(e)
    ensures KeepsValue(m, e) <==> forall r :: AtStart(r, e) ==> Computed(m, up, r, e) == Eval(m, up, r, e)
  {
    hide WayOf, Eval, Courses;
    NoOperands(m, e, None);
    if KeepsValue(m, e) {
      forall r | AtStart(r, e)
        ensures Computed(m, up, r, e) == Eval(m, up, r, e)
      {
        ValueKept(m, up, r, e);
      }
    } else {
      var a :| a in Courses(m, e, None) && a.Leaves? && a.lost;
      var r := CourseTaken(m, up, seq(MAXSTACK, x => Nil), e, None, a);
      assert AtStart(r, e) && Computed(m, up, r, e) != Eval(m, up, r, e);
    }
  }

  /** The value of an operand is tested in a register. */
  predicate Tested(m: Machine, z: Expr, sense: bool) {
    !FormOf(m, z).Boolean? && !Passes(FormOf(m, z), sense) && FormOf(m, z) != Literal(Bool(!sense))
  }

  /** `((z or w) and false) and y` has the value of `z` where that is true, and
      `((z and w) or true) or y` where that is false: whatever `z` is, if its value is tested. */
  lemma ShapeLoses(m: Machine, up: seq<Value>, r: Regs, z: Expr, w: Expr, y: Expr, sense: bool)
    requires Tested(m, z, sense) && WayOf(m, up, r, z, None).Fell? && Truthy(WayOf(m, up, r, z, None).v) != sense
    requires Eval(m, up, r, z) == Some(WayOf(m, up, r, z, None).v)
    ensures var (inner, outer) := if sense then (And, Or) else (Or, And);
      var e := Binary(outer, Binary(outer, Binary(inner, z, w), if sense then TrueE else FalseE), y);
      Computed(m, up, r, e) == Eval(m, up, r, z) && Eval(m, up, r, e) == Some(Bool(sense))
  {
    hide WayOf, Eval;
    var lit := if sense then TrueE else FalseE;
    var x1 := Binary(if sense then And else Or, z, w);
    var x2 := Binary(if sense then Or else And, x1, lit);
    WayLogic(m, up, r, z, w, sense, None);
    EvalLogic(m, up, r, z, w, sense);
    WayLogic(m, up, r, x1, lit, !sense, None);
    EvalLogic(m, up, r, x1, lit, !sense);
    WayLogic(m, up, r, x2, y, !sense, None);
    EvalLogic(m, up, r, x2, y, !sense);
    WayLiteral(m, up, r, sense, Eval(m, up, r, z));
    FormOfLogic(m, x1, lit, !sense);
  }

  lemma WayLiteral(m: Machine, up: seq<Value>, r: Regs, b: bool, c: Option<Value>)
    ensures var lit := if b then TrueE else FalseE;
      WayOf(m, up, r, lit, c) == Fell(Bool(b), c) && Eval(m, up, r, lit) == Some(Bool(b))
        && FormOf(m, lit) == Literal(Bool(b))
  {
  }

  /** `((a or false) and false) and b`. */
  const LOSING: Expr := Binary(And, Binary(And, Binary(Or, Local(0), FalseE), FalseE), Local(1))

  /** Its code computes `a` where that is true, and the expression is false. As a condition it
      is compiled rightly. */
  lemma ValueLost(m: Machine, up: seq<Value>, r: Regs)
    requires |r| == MAXSTACK && Truthy(r[0])
    ensures Computed(m, up, r, LOSING) == Some(r[0]) && Eval(m, up, r, LOSING) == Some(Bool(false))
    ensures !KeepsValue(m, LOSING) && KeepsTruth(m, LOSING)
  {
    ShapeLoses(m, up, r, Local(0), FalseE, Local(1), false);
    NoOperands(m, LOSING, None);
    if KeepsValue(m, LOSING) { ValueKept(m, up, r, LOSING); }
  }

  /** `((((not a) and a) or false) and false) and b`. */
  const REPEATED: Expr := Binary(And, Binary(And, Binary(Or, Binary(And, Unary(Negate, Local(0)), Local(0)), FalseE),
    FalseE), Local(1))

  /** Where a local occurs twice, a course may be found that no run can take. */
  lemma NotNecessary(m: Machine, up: seq<Value>, r: Regs)
    ensures !KeepsValue(m, REPEATED) && Computed(m, up, r, REPEATED) == Eval(m, up, r, REPEATED)
  {
    hide Courses, WayOf, Eval;
    var x0 := Binary(And, Unary(Negate, Local(0)), Local(0));
    var x1 := Binary(Or, x0, FalseE);
    var x2 := Binary(And, x1, FalseE);
    RepeatedCourse(m, x0);
    LogicCourses(m, x0, FalseE, None, false);
    assert Leaves(true, Some(SOther), false) in Onward(m, x0, false, Falls(SOther, None), FalseE);
    LogicCourses(m, x1, FalseE, None, true);
    FalseCourses(m, Some(SOther));
    assert Falls(SFalse, Some(SOther)) in Onward(m, x1, true, Leaves(true, Some(SOther), false), FalseE);
    LogicCourses(m, x2, Local(1), None, true);
    assert Leaves(false, Some(SOther), true) in Onward(m, x2, true, Falls(SFalse, Some(SOther)), Local(1));
    RepeatedRuns(m, up, r, x0);
  }

  lemma FalseCourses(m: Machine, c: Option<Sort>)
    ensures Courses(m, FalseE, c) == {Falls(SFalse, c)}
  {
  }

  lemma RepeatedCourse(m: Machine, x0: Expr)
    requires x0 == Binary(And, Unary(Negate, Local(0)), Local(0))
    ensures Falls(SOther, None) in Courses(m, x0, None) && FormOf(m, x0).Variable?
  {
    assert Falls(SNil, None) in Courses(m, Local(0), None) && Falls(SOther, None) in Courses(m, Local(0), None);
    assert Refused(Falls(SNil, None)) in Courses(m, Unary(Negate, Local(0)), None);
    LogicCourses(m, Unary(Negate, Local(0)), Local(0), None, true);
    assert Falls(SOther, None) in Onward(m, Unary(Negate, Local(0)), true, Falls(STrue, None), Local(0));
  }

  lemma RepeatedRuns(m: Machine, up: seq<Value>, r: Regs, x0: Expr)
    requires x0 == Binary(And, Unary(Negate, Local(0)), Local(0))
    ensures Computed(m, up, r, REPEATED) == Eval(m, up, r, REPEATED)
  {
    var v, x1 := Reg(r, 0), Binary(Or, x0, FalseE);
    assert WayOf(m, up, r, Unary(Negate, Local(0)), None) == Fell(Bool(!Truthy(v)), None);
    assert WayOf(m, up, r, x0, None) == if Truthy(v) then Left(false, None) else Fell(v, None);
    assert WayOf(m, up, r, x1, None) == Fell(Bool(false), None);
    assert Eval(m, up, r, Unary(Negate, Local(0))) == Some(Bool(!Truthy(v)));
    assert Eval(m, up, r, x0) == Some(if Truthy(v) then Bool(false) else v);
    assert Eval(m, up, r, x1) == Some(Bool(false));
    assert Eval(m, up, r, Binary(And, x1, FalseE)) == Some(Bool(false));
    assert WayOf(m, up, r, Binary(And, x1, FalseE), None) == Left(false, None);
  }
}
