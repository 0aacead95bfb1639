/** Lists of jumps whose target is not known yet, threaded through the jumps themselves
    (lua-5.1/lcode.c:75-191), and runs of code that still has such jumps. */
module PatchLists {
  import opened LuaVM

  const NO_JUMP := -1

  /** `getjump`. A link to the jump itself ends the list. */
  function NextJump(code: seq<Instr>, p: nat): int
    requires p < |code| && code[p].Jmp?
  {
    if code[p].sbx == NO_JUMP then NO_JUMP else p + 1 + code[p].sbx
  }

  /** Element `n` of a list, or the mark of its end. */
  function Element(s: seq<nat>, n: nat): int {
    if n < |s| then s[n] else NO_JUMP
  }

  /** The list that starts at `head` has the elements `s`. */
  ghost predicate IsList(code: seq<Instr>, head: int, s: seq<nat>) {
    && head == Element(s, 0)
    && (forall i, j :: 0 <= i < j < |s| ==> s[i] != s[j])
    && forall i :: 0 <= i < |s| ==>
      && s[i] < |code| && code[s[i]].Jmp?
      && NextJump(code, s[i]) == Element(s, i + 1)
  }

  lemma EmptyList(code: seq<Instr>)
    ensures IsList(code, NO_JUMP, [])
  {
  }

  lemma OneJump(code: seq<Instr>, p: nat)
    requires p < |code| && code[p] == Jmp(NO_JUMP)
    ensures IsList(code, p, [p])
  {
  }

  /** The jump at `p` belongs to a test that can also set a register. */
  predicate SetsValue(code: seq<Instr>, p: nat) {
    1 <= p <= |code| && code[p - 1].TestSet?
  }

  /** Every test is followed by the jump it decides. */
  ghost predicate TestsJump(code: seq<Instr>) {
    forall i :: 0 <= i < |code| && IsTest(code[i]) ==> i + 1 < |code| && code[i + 1].Jmp?
  }

  // ----- patching a list -----

  /** `patchtestreg` on the test of a jump. */
  function PatchedTest(i: Instr, reg: nat): Instr
    requires i.TestSet?
  {
    if reg != NO_REG && reg != i.b then TestSet(reg, i.b, i.c) else Test(i.b, i.c)
  }

  function PatchedAt(code: seq<Instr>, s: seq<nat>, vtarget: int, reg: nat, dtarget: int, i: nat): Instr
    requires i < |code|
  {
    if i in s then Jmp((if SetsValue(code, i) then vtarget else dtarget) - (i + 1))
    else if i + 1 in s && code[i].TestSet? then PatchedTest(code[i], reg)
    else code[i]
  }

  /** The code after `patchlistaux`: jumps of tests that set a value go to `vtarget` with
      the value in `reg`, the others to `dtarget`. */
  function Patched(code: seq<Instr>, s: seq<nat>, vtarget: int, reg: nat, dtarget: int): (r: seq<Instr>)
    ensures |r| == |code|
    ensures forall i :: 0 <= i < |code| ==> r[i] == PatchedAt(code, s, vtarget, reg, dtarget, i)
  {
    seq(|code|, i requires 0 <= i < |code| => PatchedAt(code, s, vtarget, reg, dtarget, i))
  }

  // ----- code that grows while jumps are pending -----

  /** A later `luaK_nil` may extend an instruction to more registers. */
  predicate Extends(i: Instr, j: Instr) {
    i == j || (i.LoadNil? && j.LoadNil? && j.a == i.a && i.b <= j.b)
  }

  /** A test may change as long as its jump is pending. */
  predicate SameTest(i: Instr, j: Instr) {
    Extends(i, j) || (i.TestSet? && ((j.TestSet? && j.b == i.b && j.c == i.c) || j == Test(i.b, i.c)))
  }

  ghost predicate EvolvesAt(code: seq<Instr>, pend: set<nat>, code': seq<Instr>, pend': set<nat>, s: set<nat>, i: nat)
    requires i < |code| && i < |code'|
  {
    && (i !in pend ==> i !in pend')
    && (i in pend && i !in s ==> i in pend')
    && if i in s then code'[i].Jmp? else if i + 1 in s then SameTest(code[i], code'[i]) else Extends(code[i], code'[i])
  }

  /** From `code` to `code'`, of the first `n` instructions only the jumps `s` and their
      tests have changed, and only they may have got a target. */
  ghost predicate Evolves(code: seq<Instr>, pend: set<nat>, n: nat, code': seq<Instr>, pend': set<nat>, s: set<nat>) {
    && n <= |code| && n <= |code'|
    && forall i :: 0 <= i < n ==> EvolvesAt(code, pend, code', pend', s, i)
  }

  lemma EvolvesRefl(code: seq<Instr>, pend: set<nat>, n: nat, s: set<nat>)
    requires n <= |code| && forall p :: p in s && p < |code| ==> code[p].Jmp?
    ensures Evolves(code, pend, n, code, pend, s)
  {
  }

  lemma EvolvesTrans(c0: seq<Instr>, p0: set<nat>, n: nat, c1: seq<Instr>, p1: set<nat>, s: set<nat>,
                     m: nat, c2: seq<Instr>, p2: set<nat>, s2: set<nat>)
    requires Evolves(c0, p0, n, c1, p1, s) && Evolves(c1, p1, m, c2, p2, s2) && n <= m
    requires forall i :: i in s2 && i < n ==> i in s
    requires n > 0 ==> !c1[n - 1].TestSet?
    ensures Evolves(c0, p0, n, c2, p2, s)
  {
    forall i | 0 <= i < n
      ensures EvolvesAt(c0, p0, c2, p2, s, i)
    {
      assert EvolvesAt(c0, p0, c1, p1, s, i) && EvolvesAt(c1, p1, c2, p2, s2, i);
    }
  }

  /** A list is untouched when none of its jumps is. */
  lemma ListKept(code: seq<Instr>, pend: set<nat>, n: nat, code': seq<Instr>, pend': set<nat>, s: set<nat>, head: int,
                 l: seq<nat>)
    requires Evolves(code, pend, n, code', pend', s) && IsList(code, head, l)
    requires forall p :: p in l ==> p < n && p !in s
    ensures IsList(code', head, l)
  {
    forall i | 0 <= i < |l|
      ensures l[i] < |code'| && code'[l[i]] == code[l[i]]
    {
      assert l[i] in l && l[i] < n;
      assert EvolvesAt(code, pend, code', pend', s, l[i]);
    }
  }

  // ----- finished code -----

  ghost predicate CompatAt(w: seq<Instr>, code: seq<Instr>, pend: set<nat>, i: nat)
    requires i < |code| && i < |w|
  {
    if i in pend then w[i].Jmp? else if i + 1 in pend then SameTest(code[i], w[i]) else Extends(code[i], w[i])
  }

  /** The finished code `w` comes from `code`, whose first `n` instructions are settled
      except for the pending jumps and their tests. */
  ghost predicate Compat(w: seq<Instr>, code: seq<Instr>, n: nat, pend: set<nat>) {
    && n <= |code| && n <= |w|
    && forall i :: 0 <= i < n ==> CompatAt(w, code, pend, i)
  }

  /** What is finished from later code is finished from the earlier code. */
  lemma CompatEarlier(w: seq<Instr>, code: seq<Instr>, pend: set<nat>, n: nat, n': nat, code': seq<Instr>,
                      pend': set<nat>, s: set<nat>)
    requires Evolves(code, pend, n, code', pend', s) && s <= pend && n <= n' && Compat(w, code', n', pend')
    requires n > 0 ==> !code[n - 1].TestSet?
    ensures Compat(w, code, n, pend)
  {
    forall i | 0 <= i < n
      ensures CompatAt(w, code, pend, i)
    {
      assert EvolvesAt(code, pend, code', pend', s, i) && CompatAt(w, code', pend', i);
      if i + 1 < n { assert EvolvesAt(code, pend, code', pend', s, i + 1); }
    }
  }

  /** The end of a stretch of code does not cut a test from its jump. */
  lemma NoTestBefore(code: seq<Instr>, n: nat)
    requires TestsJump(code) && n <= |code| && (n < |code| ==> !code[n].Jmp?)
    ensures n > 0 ==> !IsTest(code[n - 1])
  {
  }

  /** The test of a jump that is not touched stays. */
  lemma TestsEarlier(code: seq<Instr>, pend: set<nat>, n: nat, code': seq<Instr>, pend': set<nat>, s: set<nat>, p: nat)
    requires Evolves(code, pend, n, code', pend', s) && p <= n && p !in s && (p >= 1 && p - 1 in s ==> code[p - 1].Jmp?)
    ensures SetsValue(code', p) <==> SetsValue(code, p)
    ensures SetsValue(code, p) ==> code'[p - 1] == code[p - 1]
  {
    if p >= 1 { assert EvolvesAt(code, pend, code', pend', s, p - 1); }
  }

  // ----- runs that come to pending jumps -----

  /** A run from `o` comes, with registers `r`, to where the jump at `p` is about to be
      taken: before its test, which accepts, or before the jump itself. */
  ghost predicate AtJump(m: Machine, w: Frame, o: State, p: nat, r: Regs) {
    if 1 <= p <= |w.code| && IsTest(w.code[p - 1]) then
      Goes(m, w, o, State(p - 1, r)) && Accepts(m, w, r, w.code[p - 1]) == Some(true)
    else Goes(m, w, o, State(p, r))
  }

  /** The register that a test looks at. */
  function Tested(i: Instr): nat {
    if i.TestSet? then i.b else if i.Test? then i.a else 0
  }

  /** The value that the test of the jump at `p` copies, if it `sets` a register. */
  function Brings(w: Frame, sets: bool, p: nat, r: Regs): Option<Value> {
    if sets && 1 <= p <= |w.code| then Some(Reg(r, Tested(w.code[p - 1]))) else None
  }

  /** The jumps of a list that can copy a value. */
  function ValueJumps(code: seq<Instr>, s: seq<nat>): set<nat> {
    if s == [] then {} else set p | p in s && SetsValue(code, p)
  }

  /** A run comes to one of the jumps `s`, which copies `c`. */
  ghost predicate ExitsWith(m: Machine, w: Frame, o: State, code: seq<Instr>, s: seq<nat>, r: Regs, c: Option<Value>,
                            valued: bool) {
    exists p :: p in s && AtJump(m, w, o, p, r) && (valued ==> c == Brings(w, SetsValue(code, p), p, r))
  }

  ghost predicate Exits(m: Machine, w: Frame, o: State, s: seq<nat>, r: Regs) {
    exists p :: p in s && AtJump(m, w, o, p, r)
  }

  /** A run comes to position `l`, or to a jump that will lead there. */
  ghost predicate Arrives(m: Machine, w: Frame, o: State, l: nat, j: seq<nat>, r: Regs) {
    Goes(m, w, o, State(l, r)) || Exits(m, w, o, j, r)
  }

  /** The same with what the jump copies; of the jumps `j`, those in `v` copy values. */
  ghost predicate ArrivesWith(m: Machine, w: Frame, o: State, l: nat, j: seq<nat>, v: set<nat>, r: Regs,
                              c: Option<Value>) {
    (c == None && Goes(m, w, o, State(l, r)))
    || exists p :: p in j && AtJump(m, w, o, p, r) && c == Brings(w, p in v, p, r)
  }

  lemma ArrivesAtAll(m: Machine, w: Frame, o: State, l: nat, j: seq<nat>, v: set<nat>, r: Regs, c: Option<Value>)
    requires ArrivesWith(m, w, o, l, j, v, r, c)
    ensures Arrives(m, w, o, l, j, r)
  {
    hide AtJump, Goes;
  }

  lemma Lands(m: Machine, w: Frame, o: State, p: nat, r: Regs, target: int)
    requires AtJump(m, w, o, p, r) && p < |w.code| && w.code[p] == Jmp(target - (p + 1)) && !SetsValue(w.code, p)
    ensures Goes(m, w, o, State(target, r))
  {
    hide Goes;
    if 1 <= p && IsTest(w.code[p - 1]) {
      StepOn(m, w, o, State(p - 1, r), State(target, r));
    } else {
      StepOn(m, w, o, State(p, r), State(target, r));
    }
  }

  lemma LandsSet(m: Machine, w: Frame, o: State, p: nat, r: Regs, target: int)
    requires AtJump(m, w, o, p, r) && p < |w.code| && w.code[p] == Jmp(target - (p + 1)) && SetsValue(w.code, p)
    ensures Goes(m, w, o, State(target, SetReg(r, w.code[p - 1].a, Reg(r, w.code[p - 1].b))))
  {
    hide Goes;
    StepOn(m, w, o, State(p - 1, r), State(target, SetReg(r, w.code[p - 1].a, Reg(r, w.code[p - 1].b))));
  }

  /** Jumps that lead to `l` have arrived there. */
  lemma Arrived(m: Machine, w: Frame, o: State, l: nat, j: seq<nat>, r: Regs)
    requires Arrives(m, w, o, l, j, r)
    requires forall p :: p in j ==> p < |w.code| && w.code[p] == Jmp(l - (p + 1)) && !SetsValue(w.code, p)
    ensures Goes(m, w, o, State(l, r))
  {
    hide Goes, AtJump;
    if p :| p in j && AtJump(m, w, o, p, r) { Lands(m, w, o, p, r, l); }
  }
}
