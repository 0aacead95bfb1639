/** The numeric `for` as a whole: `OP_FORPREP` and `OP_FORLOOP` around a body (section 2.4.5 of the
    Lua 5.1 Reference Manual, lua-5.1/lvm.c:649-682). */
module ForLoops {
  import opened LuaVM
  import opened Opcodes
  import opened Interpreter
  import opened InstructionEffects

  /** Numbers are integers with their arithmetic and order. */
  ghost predicate Counts(h: Host) {
    && (forall x, y :: h.num(ADD, x, y) == x + y) && (forall x, y :: h.num(SUB, x, y) == x - y)
    && (forall x, y :: h.less(x, y) <==> x < y) && (forall x, y :: h.lesseq(x, y) <==> x <= y)
    && (forall x :: h.tonumber(Num(x)) == Some(x))
  }

  /** The loop: `OP_FORPREP` at `p` jumps to `OP_FORLOOP` at `q`, which jumps back to the body. */
  ghost predicate LoopAt(u: Unit, p: int, q: int, a: nat) {
    && 0 <= p < q < |u.code|
    && u.code[p].op.OP_FORPREP? && u.code[p].a == a && p + 1 + SBx(u.code[p]) == q
    && u.code[q].op.OP_FORLOOP? && u.code[q].a == a && q + 1 + SBx(u.code[q]) == p + 1
  }

  ghost predicate Leads(h: Host, u: Unit, s: Status, t: Status) {
    exists n: nat :: Run(h, u, s, n) == Goes(t)
  }

  /** What the body makes of the state it is entered in. It comes to the end of the loop with the
      three registers that control the loop as they were; it may use all others. */
  type Body = Status -> Status

  ghost predicate BodyRuns(h: Host, u: Unit, p: int, q: int, a: nat, body: Body) {
    forall s: Status :: s.pc == p + 1 && a + 3 < |s.r| ==>
      && Leads(h, u, s, body(s)) && body(s).pc == q && |body(s).r| == |s.r| && body(s).r[a..a + 3] == s.r[a..a + 3]
  }

  /** The value is not yet beyond the limit. */
  predicate Within(v: int, limit: int, step: int) {
    if step > 0 then v <= limit else v >= limit
  }

  /** The body is entered with the next value, in the loop's own register and in the variable. */
  function Enter(s: Status, p: int, a: nat, v: int): Status
    requires a + 3 < |s.r|
  {
    Status(p + 1, s.r[a := Num(v)][a + 3 := Num(v)], s.up, s.w)
  }

  /** The state at the end of the loop after `k` rounds: the body was entered with `init`,
      `init + step`, and so on, each time in the state that the round before had left. */
  ghost function After(h: Host, u: Unit, p: int, q: int, a: nat, body: Body, s: Status, init: int, step: int,
                       k: nat): (t: Status)
    requires BodyRuns(h, u, p, q, a, body) && a + 3 < |s.r| && s.pc == q
    ensures |t.r| == |s.r| && t.pc == q
  {
    if k == 0 then s
    else body(Enter(After(h, u, p, q, a, body, s, init, step, k - 1), p, a, init + (k - 1) * step))
  }

  /** The state at `OP_FORLOOP` after `OP_FORPREP`. */
  function Prepared(s: Status, q: int, a: nat, init: int, step: int): Status
    requires a < |s.r|
  {
    Status(q, s.r[a := Num(init - step)], s.up, s.w)
  }

  lemma LeadsOn(h: Host, u: Unit, s: Status, t: Status, v: Status)
    requires Leads(h, u, s, t) && Leads(h, u, t, v)
    ensures Leads(h, u, s, v)
  {
    var a: nat :| Run(h, u, s, a) == Goes(t);
    var b: nat :| Run(h, u, t, b) == Goes(v);
    RunAdds(h, u, s, a, b);
  }

  lemma {:induction false} RunAdds(h: Host, u: Unit, s: Status, a: nat, b: nat)
    requires Run(h, u, s, a).Goes?
    ensures Run(h, u, s, a + b) == Run(h, u, Run(h, u, s, a).s, b)
    decreases a
  {
    hide Execute;
    if a > 0 { RunAdds(h, u, Execute(h, u, s).s, a - 1, b); }
  }

  lemma OneTurn(h: Host, u: Unit, s: Status, t: Status)
    requires Execute(h, u, s) == Goes(t)
    ensures Leads(h, u, s, t)
  {
    hide Execute;
    assert Run(h, u, t, 0) == Goes(t);
    assert Run(h, u, s, 1) == Goes(t);
  }

  /** `OP_FORLOOP` with the value before `v` in its register. */
  lemma LoopTurn(h: Host, u: Unit, p: int, q: int, a: nat, s: Status, v: int, limit: int, step: int)
    requires Counts(h) && LoopAt(u, p, q, a) && s.pc == q && a + 3 < |s.r|
    requires s.r[a] == Num(v - step) && s.r[a + 1] == Num(limit) && s.r[a + 2] == Num(step)
    ensures Leads(h, u, s, if Within(v, limit, step) then Enter(s, p, a, v) else s.(pc := q + 1))
  {
    hide SBx;
    OneTurn(h, u, s, if Within(v, limit, step) then Enter(s, p, a, v) else s.(pc := q + 1));
  }

  /** The registers that control the loop, after some rounds. */
  ghost predicate Controls(s: Status, a: nat, v: int, limit: int, step: int) {
    a + 3 < |s.r| && s.r[a] == Num(v) && s.r[a + 1] == Num(limit) && s.r[a + 2] == Num(step)
  }

  /** As long as the values are within the limit, the loop goes its rounds with them. */
  lemma {:induction false} Rounds(h: Host, u: Unit, p: int, q: int, a: nat, body: Body, s: Status, init: int,
                                  limit: int, step: int, k: nat)
    requires Counts(h) && LoopAt(u, p, q, a) && BodyRuns(h, u, p, q, a, body) && s.pc == q
    requires Controls(s, a, init - step, limit, step)
    requires forall j: nat :: j < k ==> Within(init + j * step, limit, step)
    ensures Leads(h, u, s, After(h, u, p, q, a, body, s, init, step, k))
    ensures Controls(After(h, u, p, q, a, body, s, init, step, k), a, init + (k - 1) * step, limit, step)
    decreases k
  {
    hide Counts, LoopAt, Leads, Within;
    if k == 0 {
      StaysThere(h, u, s);
    } else {
      Rounds(h, u, p, q, a, body, s, init, limit, step, k - 1);
      var t, v := After(h, u, p, q, a, body, s, init, step, k - 1), init + (k - 1) * step;
      assert Within(init + (k - 1) * step, limit, step);
      Round(h, u, p, q, a, body, t, v, limit, step);
      LeadsOn(h, u, s, t, body(Enter(t, p, a, v)));
    }
  }

  lemma StaysThere(h: Host, u: Unit, s: Status)
    ensures Leads(h, u, s, s)
  {
    assert Run(h, u, s, 0) == Goes(s);
  }

  lemma Round(h: Host, u: Unit, p: int, q: int, a: nat, body: Body, t: Status, v: int, limit: int, step: int)
    requires Counts(h) && LoopAt(u, p, q, a) && BodyRuns(h, u, p, q, a, body) && t.pc == q
    requires Controls(t, a, v - step, limit, step) && Within(v, limit, step)
    ensures Leads(h, u, t, body(Enter(t, p, a, v))) && Controls(body(Enter(t, p, a, v)), a, v, limit, step)
  {
    var e := Enter(t, p, a, v);
    LoopTurn(h, u, p, q, a, t, v, limit, step);
    assert Leads(h, u, e, body(e));
    LeadsOn(h, u, t, e, body(e));
    var r := body(e).r[a..a + 3];
    assert r == e.r[a..a + 3] && r[0] == body(e).r[a] && r[1] == body(e).r[a + 1] && r[2] == body(e).r[a + 2];
  }

  /** `for v = init, limit, step`: for every number `k` of values within the limit, the body runs
      `k` times, for `init`, `init + step`, and so on. If the next value is within the limit, it is
      entered with that; if not, the run goes on behind the loop. */
  lemma ForRuns(h: Host, u: Unit, p: int, q: int, a: nat, body: Body, s: Status, init: int, limit: int, step: int,
                k: nat)
    requires Counts(h) && LoopAt(u, p, q, a) && BodyRuns(h, u, p, q, a, body) && s.pc == p
    requires Controls(s, a, init, limit, step)
    requires forall j: nat :: j < k ==> Within(init + j * step, limit, step)
    ensures var t := After(h, u, p, q, a, body, Prepared(s, q, a, init, step), init, step, k);
      && Leads(h, u, s, t)
      && Leads(h, u, s, if Within(init + k * step, limit, step) then Enter(t, p, a, init + k * step)
                        else t.(pc := q + 1))
  {
    hide Counts, LoopAt, Leads, Within, BodyRuns, Execute, Run, SBx;
    var s0 := Prepared(s, q, a, init, step);
    Begins(h, u, p, q, a, s, init, limit, step);
    Rounds(h, u, p, q, a, body, s0, init, limit, step, k);
    var t, v := After(h, u, p, q, a, body, s0, init, step, k), init + k * step;
    LeadsOn(h, u, s, s0, t);
    StepBack(init, step, k);
    LoopTurn(h, u, p, q, a, t, v, limit, step);
    LeadsOn(h, u, s, t, if Within(v, limit, step) then Enter(t, p, a, v) else t.(pc := q + 1));
  }

  lemma StepBack(init: int, step: int, k: int)
    ensures init + (k - 1) * step == init + k * step - step
  {
  }

  lemma Begins(h: Host, u: Unit, p: int, q: int, a: nat, s: Status, init: int, limit: int, step: int)
    requires Counts(h) && LoopAt(u, p, q, a) && s.pc == p && Controls(s, a, init, limit, step)
    ensures Leads(h, u, s, Prepared(s, q, a, init, step))
  {
    var i := u.code[p];
    assert Fetches(u, s, OP_FORPREP, a, i.b, i.c);
    ForPrepEffect(h, u, s, a, i.b, i.c);
    assert s.r[a := Num(init - step)][a + 1 := Num(limit)][a + 2 := Num(step)] == s.r[a := Num(init - step)];
    OneTurn(h, u, s, Prepared(s, q, a, init, step));
  }

  /** How many values there are. */
  function Count(init: int, limit: int, step: int): nat
    requires step != 0
  {
    if step > 0 then if init <= limit then (limit - init) / step + 1 else 0
    else if init >= limit then (init - limit) / -step + 1 else 0
  }

  lemma Multiples(j: int, k: int, step: int)
    requires j <= k && step > 0
    ensures j * step <= k * step
  {
  }

  /** The values within the limit are the first `Count` ones, unless the step is zero. */
  lemma CountExact(init: int, limit: int, step: int, j: nat)
    requires step != 0
    ensures Within(init + j * step, limit, step) <==> j < Count(init, limit, step)
  {
    var d, e := if step > 0 then limit - init else init - limit, if step > 0 then step else -step;
    assert Within(init + j * step, limit, step) <==> j * e <= d by {
      if step < 0 { assert j * step == -(j * e); }
    }
    if d >= 0 {
      var n := d / e;
      assert n * e <= d < (n + 1) * e;
      if j <= n { Multiples(j, n, e); } else { Multiples(n + 1, j, e); }
    }
  }

  /** A loop whose step is not zero ends: the body runs exactly for the values within the limit. */
  lemma ForEnds(h: Host, u: Unit, p: int, q: int, a: nat, body: Body, s: Status, init: int, limit: int, step: int)
    requires Counts(h) && LoopAt(u, p, q, a) && BodyRuns(h, u, p, q, a, body) && s.pc == p
    requires Controls(s, a, init, limit, step) && step != 0
    ensures var k := Count(init, limit, step);
      Leads(h, u, s, After(h, u, p, q, a, body, Prepared(s, q, a, init, step), init, step, k).(pc := q + 1))
  {
    hide Counts, LoopAt, BodyRuns, Leads, Count, Within, Controls;
    var k := Count(init, limit, step);
    forall j: nat
      ensures Within(init + j * step, limit, step) <==> j < k
    {
      CountExact(init, limit, step, j);
    }
    assert !Within(init + k * step, limit, step);
    ForRuns(h, u, p, q, a, body, s, init, limit, step, k);
  }
}
