/** What the code generator keeps true of its code and its patch lists
    (lua-5.1/lcode.c). */
module CodeShape {
  import opened LuaVM
  import opened Expressions
  import opened PatchLists
  import opened ExpClaims
  import opened ExpSteps
  import opened ExpOperators
  import opened ExpValues

  // ----- what the code checker asks of each instruction -----

  predicate RkFits(x: nat, max: nat, nk: nat) {
    if IsK(x) then x - BITRK < nk && x - BITRK <= MAXINDEXRK else x < max
  }

  /** Operands in range. The target of a test that copies a value may be open. */
  predicate Fits(i: Instr, open: bool, max: nat, nk: nat, nups: nat) {
    match i
    case Move(a, b) => a < max && b < max
    case LoadK(a, bx) => a < max && bx < nk && bx <= MAXARG_BX
    case LoadBool(a, _, _) => a < max
    case LoadNil(a, b) => a < max && b < max
    case GetUpval(a, b) => a < max && b < nups
    case Arith(_, a, b, c) => a < max && RkFits(b, max, nk) && RkFits(c, max, nk)
    case Unm(a, b) => a < max && b < max
    case Not(a, b) => a < max && b < max
    case Len(a, b) => a < max && b < max
    case Jmp(_) => true
    case Cmp(_, a, b, c) => a < 2 && RkFits(b, max, nk) && RkFits(c, max, nk)
    case Test(a, _) => a < max
    case TestSet(a, b, _) => (open || a < max) && b < max
    case Return(a, b) => a < max && (b > 0 ==> a + b <= max + 1)
  }

  predicate OffsetOk(offset: int) {
    -(MAXARG_SBX as int) <= offset <= MAXARG_SBX
  }

  ghost predicate FitsAt(code: seq<Instr>, pend: set<nat>, max: nat, nk: nat, nups: nat, i: nat)
    requires i < |code|
  {
    && Fits(code[i], i + 1 in pend, max, nk, nups)
    && (code[i].Jmp? && i !in pend ==> 0 <= i + 1 + code[i].sbx <= |code| && OffsetOk(code[i].sbx))
    && (IsTest(code[i]) && i + 1 < |code| ==> code[i + 1].Jmp?)
  }

  ghost predicate CodeFits(code: seq<Instr>, pend: set<nat>, max: nat, nk: nat, nups: nat) {
    forall i :: 0 <= i < |code| ==> FitsAt(code, pend, max, nk, nups, i)
  }

  /** The last instruction does not skip what follows. */
  predicate TailOk(code: seq<Instr>) {
    code != [] ==> var i := code[|code| - 1]; !IsTest(i) && !(i.LoadBool? && i.c != 0)
  }

  lemma FitsSnap(s: Snap, max: nat, nups: nat)
    requires CodeFits(s.code, s.pend, max, |s.k|, nups) && TailOk(s.code) && PendingOk(s.code, s.pend)
    ensures SnapOk(s)
  {
    forall i | 0 <= i < |s.code| && IsTest(s.code[i])
      ensures i + 1 < |s.code| && s.code[i + 1].Jmp?
    {
      assert FitsAt(s.code, s.pend, max, |s.k|, nups, i);
    }
  }

  /** Patched jumps have targets in the code. */
  lemma PatchedFits(code: seq<Instr>, pend: set<nat>, max: nat, nk: nat, nups: nat, s: seq<nat>, vtarget: int, reg: nat,
                    dtarget: int)
    requires CodeFits(code, pend, max, nk, nups) && JumpsIn(code, s) && Elems(s) <= pend && PendingOk(code, pend)
    requires reg == NO_REG || reg < max
    requires forall p :: p in s ==> var d := if SetsValue(code, p) then vtarget else dtarget;
      0 <= d <= |code| && OffsetOk(d - (p + 1))
    ensures CodeFits(Patched(code, s, vtarget, reg, dtarget), pend - Elems(s), max, nk, nups)
    ensures PendingOk(Patched(code, s, vtarget, reg, dtarget), pend - Elems(s))
  {
    var code' := Patched(code, s, vtarget, reg, dtarget);
    forall i | 0 <= i < |code'|
      ensures FitsAt(code', pend - Elems(s), max, nk, nups, i)
    {
      assert FitsAt(code, pend, max, nk, nups, i);
      assert code'[i] == PatchedAt(code, s, vtarget, reg, dtarget, i);
      if i + 1 < |code| { assert code'[i + 1] == PatchedAt(code, s, vtarget, reg, dtarget, i + 1); }
    }
  }

  /** One more instruction that is not a test. A jump is pending. */
  lemma AppendFits(code: seq<Instr>, pend: set<nat>, max: nat, nk: nat, nups: nat, i: Instr)
    requires CodeFits(code, pend, max, nk, nups) && PendingOk(code, pend) && Fits(i, false, max, nk, nups) && !IsTest(i)
    requires code != [] ==> !IsTest(code[|code| - 1])
    ensures var pend' := if i.Jmp? then pend + {|code|} else pend;
      CodeFits(code + [i], pend', max, nk, nups) && PendingOk(code + [i], pend')
  {
    var code', pend' := code + [i], if i.Jmp? then pend + {|code|} else pend;
    forall x | 0 <= x < |code'|
      ensures FitsAt(code', pend', max, nk, nups, x)
    {
      if x < |code| { assert FitsAt(code, pend, max, nk, nups, x); }
    }
  }

  /** A test and its pending jump. */
  lemma AppendTestFits(code: seq<Instr>, pend: set<nat>, max: nat, nk: nat, nups: nat, i: Instr, j: int)
    requires CodeFits(code, pend, max, nk, nups) && PendingOk(code, pend) && IsTest(i) && Fits(i, true, max, nk, nups)
    requires code != [] ==> !IsTest(code[|code| - 1])
    ensures CodeFits(code + [i] + [Jmp(j)], pend + {|code| + 1}, max, nk, nups)
    ensures PendingOk(code + [i] + [Jmp(j)], pend + {|code| + 1})
  {
    var code', pend' := code + [i] + [Jmp(j)], pend + {|code| + 1};
    forall x | 0 <= x < |code'|
      ensures FitsAt(code', pend', max, nk, nups, x)
    {
      if x < |code| { assert FitsAt(code, pend, max, nk, nups, x); }
    }
  }

  // ----- the loops over patch lists -----

  lemma PatchNothing(code: seq<Instr>, vtarget: int, reg: nat, dtarget: int)
    ensures Patched(code, [], vtarget, reg, dtarget) == code
  {
    forall i | 0 <= i < |code|
      ensures Patched(code, [], vtarget, reg, dtarget)[i] == code[i]
    {
      assert PatchedAt(code, [], vtarget, reg, dtarget, i) == code[i];
    }
  }

  lemma ListFacts(code: seq<Instr>, list: int, s: seq<nat>, n: nat)
    requires IsList(code, list, s) && n < |s|
    ensures s[n] !in s[..n] && (forall x :: x in s[..n + 1] <==> x in s[..n] || x == s[n])
    ensures JumpsIn(code, s)
  {
    hide IsList;
    ListJumps(code, list, s);
    ListNoRepeats(code, list, s);
    TakeOneMore(s, n);
  }

  lemma ListNoRepeats(code: seq<Instr>, list: int, s: seq<nat>)
    requires IsList(code, list, s)
    ensures forall i, j :: 0 <= i < j < |s| ==> s[i] != s[j]
  {
  }

  lemma TakeOneMore(s: seq<nat>, n: nat)
    requires n < |s| && forall i, j :: 0 <= i < j < |s| ==> s[i] != s[j]
    ensures s[n] !in s[..n] && (forall x :: x in s[..n + 1] <==> x in s[..n] || x == s[n])
  {
    assert s[..n + 1] == s[..n] + [s[n]];
  }

  lemma ListJumps(code: seq<Instr>, list: int, s: seq<nat>)
    requires IsList(code, list, s)
    ensures JumpsIn(code, s)
  {
    forall p | p in s
      ensures p < |code| && code[p].Jmp?
    {
      var x :| 0 <= x < |s| && s[x] == p;
    }
  }

  /** The rest of the list is as it was. */
  lemma NotPatchedYet(code: seq<Instr>, list: int, s: seq<nat>, n: nat, vtarget: int, reg: nat, dtarget: int)
    requires IsList(code, list, s) && n < |s|
    ensures s[n] < |code| && Patched(code, s[..n], vtarget, reg, dtarget)[s[n]] == code[s[n]] && code[s[n]].Jmp?
    ensures SetsValue(Patched(code, s[..n], vtarget, reg, dtarget), s[n]) <==> SetsValue(code, s[n])
    ensures SetsValue(code, s[n]) ==> Patched(code, s[..n], vtarget, reg, dtarget)[s[n] - 1] == code[s[n] - 1]
  {
    ListFacts(code, list, s, n);
    var p, c1 := s[n], Patched(code, s[..n], vtarget, reg, dtarget);
    hide IsList;
    assert c1[p] == PatchedAt(code, s[..n], vtarget, reg, dtarget, p);
    if p >= 1 { assert c1[p - 1] == PatchedAt(code, s[..n], vtarget, reg, dtarget, p - 1); }
  }

  lemma PatchOneMore(code: seq<Instr>, s: seq<nat>, p: nat, s': seq<nat>, vtarget: int, reg: nat, dtarget: int,
                     c1: seq<Instr>, c2: seq<Instr>)
    requires p < |code| && code[p].Jmp? && p !in s && (forall x :: x in s' <==> x in s || x == p)
    requires c1 == Patched(code, s, vtarget, reg, dtarget) && c1[p] == code[p]
    requires (SetsValue(c1, p) <==> SetsValue(code, p))
    requires SetsValue(code, p) ==> c1[p - 1] == code[p - 1]
    requires var c := if SetsValue(c1, p) then c1[p - 1 := PatchedTest(c1[p - 1], reg)] else c1;
      c2 == c[p := Jmp((if SetsValue(c1, p) then vtarget else dtarget) - (p + 1))]
    ensures c2 == Patched(code, s', vtarget, reg, dtarget)
  {
    hide PatchedAt, PatchedTest;
    forall i | 0 <= i < |code|
      ensures c2[i] == PatchedAt(code, s', vtarget, reg, dtarget, i)
    {
      PatchOneAt(code, s, p, s', vtarget, reg, dtarget, c1, c2, i);
    }
  }

  lemma PatchOneAt(code: seq<Instr>, s: seq<nat>, p: nat, s': seq<nat>, vtarget: int, reg: nat, dtarget: int,
                   c1: seq<Instr>, c2: seq<Instr>, i: nat)
    requires i < |code| && p < |code| && code[p].Jmp? && p !in s && (forall x :: x in s' <==> x in s || x == p)
    requires c1 == Patched(code, s, vtarget, reg, dtarget) && c1[p] == code[p]
    requires (SetsValue(c1, p) <==> SetsValue(code, p))
    requires SetsValue(code, p) ==> c1[p - 1] == code[p - 1]
    requires var c := if SetsValue(c1, p) then c1[p - 1 := PatchedTest(c1[p - 1], reg)] else c1;
      c2 == c[p := Jmp((if SetsValue(c1, p) then vtarget else dtarget) - (p + 1))]
    ensures c2[i] == PatchedAt(code, s', vtarget, reg, dtarget, i)
  {
    assert c1[i] == PatchedAt(code, s, vtarget, reg, dtarget, i);
    assert i in s' <==> i in s || i == p;
    assert i + 1 in s' <==> i + 1 in s || i + 1 == p;
  }

  /** The code after `removevalues`: the tests of the list set no register. */
  function WithoutValues(code: seq<Instr>, s: seq<nat>): (r: seq<Instr>)
    ensures |r| == |code|
    ensures forall i ::
      0 <= i < |code| ==> r[i] == if i + 1 in s && code[i].TestSet? then Test(code[i].b, code[i].c) else code[i]
  {
    seq(|code|, i requires 0 <= i < |code| => if i + 1 in s && code[i].TestSet? then Test(code[i].b, code[i].c)
        else code[i])
  }

  lemma RemoveOne(code: seq<Instr>, list: int, s: seq<nat>, n: nat, c1: seq<Instr>, c2: seq<Instr>)
    requires IsList(code, list, s) && n < |s| && c1 == WithoutValues(code, s[..n])
    requires c2 == if SetsValue(c1, s[n]) then c1[s[n] - 1 := PatchedTest(c1[s[n] - 1], NO_REG)] else c1
    ensures c2 == WithoutValues(code, s[..n + 1])
    ensures s[n] < |c2| && c2[s[n]] == code[s[n]] && code[s[n]].Jmp?
  {
    hide IsList, PatchedTest, SetsValue;
    ListFacts(code, list, s, n);
    assert s[n] in s;
    RemoveOneMore(code, s[..n], s[n], s[..n + 1], c1, c2);
  }

  lemma RemoveOneMore(code: seq<Instr>, s: seq<nat>, p: nat, s': seq<nat>, c1: seq<Instr>, c2: seq<Instr>)
    requires p < |code| && code[p].Jmp? && p !in s && (forall x :: x in s' <==> x in s || x == p)
    requires c1 == WithoutValues(code, s)
    requires c2 == if SetsValue(c1, p) then c1[p - 1 := PatchedTest(c1[p - 1], NO_REG)] else c1
    ensures c2 == WithoutValues(code, s') && c2[p] == code[p]
  {
    forall i | 0 <= i < |code|
      ensures c2[i] == WithoutValues(code, s')[i]
    {
      assert i + 1 in s' <==> i + 1 in s || i + 1 == p;
    }
  }

  lemma NextInList(code: seq<Instr>, list: int, s: seq<nat>, n: nat, c: seq<Instr>)
    requires IsList(code, list, s) && n < |s| && s[n] < |c| && c[s[n]] == code[s[n]]
    ensures code[s[n]].Jmp? && NextJump(c, s[n]) == Element(s, n + 1)
  {
  }

  /** The code when the last jump of `s1` is linked to the list `s2`. */
  function Linked(code: seq<Instr>, s1: seq<nat>, s2: seq<nat>): seq<Instr>
    requires s1 != [] ==> s1[|s1| - 1] < |code|
  {
    if s1 == [] || s2 == [] then code
    else
      var p: int := s1[|s1| - 1];
      code[p := Jmp(s2[0] as int - (p + 1))]
  }

  lemma JoinedList(code: seq<Instr>, l1: int, l2: int, s1: seq<nat>, s2: seq<nat>, code': seq<Instr>)
    requires IsList(code, l1, s1) && IsList(code, l2, s2) && (forall p :: p in s1 ==> p !in s2) && s1 != [] && s2 != []
    requires code' == Linked(code, s1, s2)
    ensures IsList(code', l1, s1 + s2)
  {
    var s := s1 + s2;
    forall i, j | 0 <= i < j < |s|
      ensures s[i] != s[j]
    {
      if i < |s1| <= j { assert s1[i] in s1 && s2[j - |s1|] in s2; }
    }
    forall i | 0 <= i < |s|
      ensures s[i] < |code'| && code'[s[i]].Jmp? && NextJump(code', s[i]) == Element(s, i + 1)
    {
      if i >= |s1| { assert s2[i - |s1|] in s2 && s1[|s1| - 1] in s1; }
      if i == |s1| - 1 { assert s2[0] in s2 && s1[i] in s1; }
    }
  }

  lemma FirstInList(code: seq<Instr>, list: int, s: seq<nat>)
    requires IsList(code, list, s)
    ensures list == Element(s, 0)
  {
  }

  lemma ListAppended(code: seq<Instr>, head: int, s: seq<nat>, i: Instr)
    requires IsList(code, head, s)
    ensures IsList(code + [i], head, s) && forall p :: p in s ==> p < |code|
  {
    forall p | p in s
      ensures p < |code|
    {
      var x :| 0 <= x < |s| && s[x] == p;
    }
  }

  // ----- lists and expressions under construction -----

  ghost predicate Apart(a: seq<nat>, b: seq<nat>) {
    forall p :: p in a ==> p !in b
  }

  /** The jumps were made for the expression, or led to its beginning. */
  ghost predicate Own(l: seq<nat>, sp: Span) {
    forall p :: p in l ==> p >= sp.start || p in sp.from
  }

  /** A list of pending jumps before position `n`, none of which is to lead here. */
  ghost predicate OwnList(s: Snap, jl: seq<nat>, head: int, l: seq<nat>, n: nat, sp: Span) {
    IsList(s.code, head, l) && Elems(l) <= s.pend && Apart(l, jl) && Untouched(l, n, {}) && Own(l, sp)
        && (l != [] ==> sp.start < n)
  }

  /** How the code has changed since the expression was begun, before its beginning. */
  ghost predicate Grown(s0: Snap, s: Snap, sp: Span) {
    && Evolves(s0.code, s0.pend, sp.start, s.code, s.pend, Elems(sp.from) * s0.pend) && s0.k <= s.k
    && (sp.start > 0 ==> !s.code[sp.start - 1].TestSet?)
  }

  /** Where the expression begins, and the jumps that were to lead there. */
  ghost predicate BeginsAt(code: seq<Instr>, sp: Span) {
    && sp.start <= |code| && (sp.start > 0 ==> !code[sp.start - 1].TestSet?)
    && forall p :: p in sp.from ==> p < sp.start && code[p].Jmp?
  }

  lemma GrownRefl(s: Snap, sp: Span)
    requires BeginsAt(s.code, sp)
    ensures Grown(s, s, sp)
  {
    EvolvesRefl(s.code, s.pend, sp.start, Elems(sp.from) * s.pend);
  }

  lemma GrownTrans(s0: Snap, s1: Snap, s2: Snap, sp: Span)
    requires Grown(s0, s1, sp) && Grown(s1, s2, sp)
    ensures Grown(s0, s2, sp)
  {
    forall i | i in Elems(sp.from) * s1.pend && i < sp.start
      ensures i in Elems(sp.from) * s0.pend
    {
      assert EvolvesAt(s0.code, s0.pend, s1.code, s1.pend, Elems(sp.from) * s0.pend, i);
    }
    EvolvesTrans(s0.code, s0.pend, sp.start, s1.code, s1.pend, Elems(sp.from) * s0.pend, sp.start, s2.code, s2.pend,
                 Elems(sp.from) * s1.pend);
  }

  /** Changes to the expression's own code. */
  lemma GrownBy(s: Snap, n: nat, t: Snap, touched: set<nat>, sp: Span)
    requires Later(s, n, t, touched) && sp.start <= n && BeginsAt(s.code, sp)
    requires forall p :: p in touched ==> p >= sp.start || p in sp.from
    ensures Grown(s, t, sp) && BeginsAt(t.code, sp)
  {
    forall i | 0 <= i < sp.start
      ensures EvolvesAt(s.code, s.pend, t.code, t.pend, Elems(sp.from) * s.pend, i)
    {
      assert EvolvesAt(s.code, s.pend, t.code, t.pend, touched, i);
    }
    if sp.start > 0 { assert EvolvesAt(s.code, s.pend, t.code, t.pend, touched, sp.start - 1); }
    forall p | p in sp.from
      ensures t.code[p].Jmp?
    {
      assert EvolvesAt(s.code, s.pend, t.code, t.pend, touched, p);
    }
  }

  /** What holds of the code between two steps of the generator. */
  ghost predicate ShapeOk(s: Snap, max: nat, nups: nat) {
    CodeFits(s.code, s.pend, max, |s.k|, nups) && PendingOk(s.code, s.pend) && TailOk(s.code)
  }

  lemma ShapeSnap(s: Snap, max: nat, nups: nat)
    requires ShapeOk(s, max, nups)
    ensures SnapOk(s)
  {
    FitsSnap(s, max, nups);
  }

  /** The jumps `j` can all reach position `l`. */
  ghost predicate Reach(j: seq<nat>, l: int) {
    forall p :: p in j ==> OffsetOk(l - (p + 1))
  }

  lemma EmitShape(s: Snap, j: seq<nat>, i: Instr, max: nat, nups: nat)
    requires ShapeOk(s, max, nups) && JumpsIn(s.code, j) && Elems(j) <= s.pend && Reach(j, |s.code|)
    requires Fits(i, false, max, |s.k|, nups) && !IsTest(i) && !i.Jmp?
    ensures CodeFits(Emit(s, j, i).code, Emit(s, j, i).pend, max, |s.k|, nups)
    ensures PendingOk(Emit(s, j, i).code, Emit(s, j, i).pend)
    ensures !(i.LoadBool? && i.c != 0) ==> ShapeOk(Emit(s, j, i), max, nups)
  {
    var l := |s.code|;
    PatchedFits(s.code, s.pend, max, |s.k|, nups, j, l, NO_REG, l);
    PatchedTail(s.code, j, l, NO_REG, l);
    AppendFits(Patched(s.code, j, l, NO_REG, l), s.pend - Elems(j), max, |s.k|, nups, i);
  }

  lemma PatchedTail(code: seq<Instr>, j: seq<nat>, vtarget: int, reg: nat, dtarget: int)
    requires TailOk(code)
    ensures TailOk(Patched(code, j, vtarget, reg, dtarget))
  {
    if code != [] {
      var x := |code| - 1;
      assert Patched(code, j, vtarget, reg, dtarget)[x] == PatchedAt(code, j, vtarget, reg, dtarget, x);
    }
  }

  lemma EmitTestShape(s: Snap, j: seq<nat>, i: Instr, max: nat, nups: nat)
    requires ShapeOk(s, max, nups) && JumpsIn(s.code, j) && Elems(j) <= s.pend && Reach(j, |s.code|)
    requires Fits(i, true, max, |s.k|, nups) && IsTest(i)
    ensures ShapeOk(EmitTest(s, j, i), max, nups)
  {
    var l := |s.code|;
    PatchedFits(s.code, s.pend, max, |s.k|, nups, j, l, NO_REG, l);
    PatchedTail(s.code, j, l, NO_REG, l);
    AppendTestFits(Patched(s.code, j, l, NO_REG, l), s.pend - Elems(j), max, |s.k|, nups, i, NO_JUMP);
  }

  /** Lists stay when other jumps get a target. */
  lemma OwnLater(s: Snap, n: nat, t: Snap, touched: set<nat>, jl: seq<nat>, jl': seq<nat>, head: int, l: seq<nat>,
                 sp: Span)
    requires Later(s, n, t, touched) && OwnList(s, jl, head, l, n, sp) && Untouched(l, n, touched)
    requires forall p :: p in jl' ==> p in jl || p >= n
    ensures OwnList(t, jl', head, l, n, sp)
  {
    ListKept(s.code, s.pend, n, t.code, t.pend, touched, head, l);
    forall p | p in l
      ensures p in t.pend
    {
      assert EvolvesAt(s.code, s.pend, t.code, t.pend, touched, p);
      assert p in Elems(l);
    }
  }

  lemma OwnEmit(s: Snap, n: nat, j: seq<nat>, i: Instr, head: int, l: seq<nat>, sp: Span)
    requires OwnList(s, j, head, l, n, sp) && n <= |s.code| && JumpsIn(s.code, j) && Elems(j) <= s.pend
    requires n > 0 ==> !s.code[n - 1].TestSet?
    ensures OwnList(Emit(s, j, i), [], head, l, n, sp)
  {
    hide IsList, Evolves;
    EmitLater(s, n, j, i, s.k);
    OwnLater(s, n, Emit(s, j, i), Elems(j), j, [], head, l, sp);
  }

  lemma OwnEmitTest(s: Snap, n: nat, j: seq<nat>, i: Instr, head: int, l: seq<nat>, sp: Span)
    requires OwnList(s, j, head, l, n, sp) && n <= |s.code| && JumpsIn(s.code, j) && Elems(j) <= s.pend
    requires n > 0 ==> !s.code[n - 1].TestSet?
    ensures OwnList(EmitTest(s, j, i), [], head, l, n, sp)
  {
    hide IsList, Evolves;
    EmitTestLater(s, j, i, n);
    OwnLater(s, n, EmitTest(s, j, i), Elems(j), j, [], head, l, sp);
  }

  lemma OwnMore(s: Snap, jl: seq<nat>, head: int, l: seq<nat>, n: nat, n': nat, sp: Span)
    requires OwnList(s, jl, head, l, n, sp) && n <= n'
    ensures OwnList(s, jl, head, l, n', sp)
  {
  }

  lemma GrownEmit(s: Snap, n: nat, j: seq<nat>, i: Instr, sp: Span)
    requires BeginsAt(s.code, sp) && sp.start <= n <= |s.code| && Own(j, sp) && JumpsIn(s.code, j) && Elems(j) <= s.pend
    requires n > 0 ==> !s.code[n - 1].TestSet?
    ensures Grown(s, Emit(s, j, i), sp) && BeginsAt(Emit(s, j, i).code, sp)
  {
    EmitLater(s, n, j, i, s.k);
    GrownBy(s, n, Emit(s, j, i), Elems(j), sp);
  }

  lemma GrownEmitTest(s: Snap, n: nat, j: seq<nat>, i: Instr, sp: Span)
    requires BeginsAt(s.code, sp) && sp.start <= n <= |s.code| && Own(j, sp) && JumpsIn(s.code, j) && Elems(j) <= s.pend
    requires n > 0 ==> !s.code[n - 1].TestSet?
    ensures Grown(s, EmitTest(s, j, i), sp) && BeginsAt(EmitTest(s, j, i).code, sp)
  {
    EmitTestLater(s, j, i, n);
    GrownBy(s, n, EmitTest(s, j, i), Elems(j), sp);
  }

  lemma FitsMore(s: Snap, max: nat, nups: nat, max': nat, k: seq<Value>)
    requires ShapeOk(s, max, nups) && max <= max' && s.k <= k
    ensures ShapeOk(s.(k := k), max', nups)
  {
    forall i | 0 <= i < |s.code|
      ensures FitsAt(s.code, s.pend, max', |k|, nups, i)
    {
      assert FitsAt(s.code, s.pend, max, |s.k|, nups, i);
    }
  }

  /** A descriptor's lists, its beginning and the jumps that are to lead here. */
  ghost predicate ListsOk(s: Snap, jl: seq<nat>, t: int, f: int, d: Desc, sp: Span) {
    && OwnList(s, jl, t, d.tl, Settled(d, sp.end), sp) && OwnList(s, jl, f, d.fl, Settled(d, sp.end), sp)
    && Apart(d.tl, d.fl) && Own(jl, sp) && BeginsAt(s.code, sp) && sp.start <= Settled(d, sp.end)
    && Tracked(s.pend, sp, Pending(jl, d))
  }

  /** The jumps of an expression that have no target yet. */
  ghost function Pending(jl: seq<nat>, d: Desc): set<nat> {
    Elems(jl) + Elems(d.tl) + Elems(d.fl) + if d.k.VJMP? then {d.k.info} else {}
  }

  /** Every jump made for the expression has a target or is in `known`. */
  ghost predicate Tracked(pend: set<nat>, sp: Span, known: set<nat>) {
    forall p :: p in pend && (p >= sp.start || p in sp.from) ==> p in known
  }

  /** The same for the jumps made for an expression before position `n`. */
  ghost predicate TrackedBefore(pend: set<nat>, sp: Span, n: nat, known: set<nat>) {
    forall p :: p in pend && p < n && (p >= sp.start || p in sp.from) ==> p in known
  }

  /** Two expressions in a row: what the first leaves behind and what the second one does. */
  lemma TrackedBoth(pend: set<nat>, sp1: Span, sp2: Span, known1: set<nat>, known2: set<nat>, sp: Span)
    requires TrackedBefore(pend, sp1, sp2.start, Elems(sp2.from) + known1) && Tracked(pend, sp2, known2)
    requires sp.start == sp1.start && sp.from == sp1.from
    ensures Tracked(pend, sp, known1 + known2)
  {
  }

  lemma TrackedKept(s: Snap, t: Snap, sp1: Span, sp2: Span, known: set<nat>)
    requires TrackedBefore(s.pend, sp1, sp2.start, known) && Grown(s, t, sp2)
    ensures TrackedBefore(t.pend, sp1, sp2.start, known)
  {
    forall p | p in t.pend && p < sp2.start && (p >= sp1.start || p in sp1.from)
      ensures p in known
    {
      assert EvolvesAt(s.code, s.pend, t.code, t.pend, Elems(sp2.from) * s.pend, p);
    }
  }

  ghost predicate JumpsHere(s: Snap, j: seq<nat>) {
    JumpsIn(s.code, j) && Elems(j) <= s.pend && Reach(j, |s.code|)
  }

  /** One more instruction, when the descriptor needs no change before it. */
  lemma EmitLists(s: Snap, j: seq<nat>, i: Instr, max: nat, nups: nat, t: int, f: int, d1: Desc, d2: Desc, sp: Span)
    requires ShapeOk(s, max, nups) && JumpsHere(s, j) && Fits(i, false, max, |s.k|, nups) && !IsTest(i) && !i.Jmp?
    requires sp.end == |s.code| == Settled(d1, sp.end) && ListsOk(s, j, t, f, d1, sp)
    requires d2.tl == d1.tl && d2.fl == d1.fl && Settled(d2, sp.end + 1) >= sp.end
    ensures ListsOk(Emit(s, j, i), [], t, f, d2, Coded(sp, 1)) && Grown(s, Emit(s, j, i), sp)
    ensures CodeFits(Emit(s, j, i).code, Emit(s, j, i).pend, max, |s.k|, nups)
    ensures PendingOk(Emit(s, j, i).code, Emit(s, j, i).pend)
    ensures !(i.LoadBool? && i.c != 0) ==> ShapeOk(Emit(s, j, i), max, nups)
  {
    hide ShapeOk, Evolves, CodeFits, PendingOk, TailOk, Fits, OwnList, Grown, BeginsAt, Own, Apart, Emit;
    var l := |s.code|;
    EmitShape(s, j, i, max, nups);
    ShapeSnap(s, max, nups);
    NoTestAt(s, l);
    GrownEmit(s, l, j, i, sp);
    OwnEmit(s, l, j, i, t, d1.tl, sp);
    OwnEmit(s, l, j, i, f, d1.fl, sp);
    OwnMore(Emit(s, j, i), [], t, d1.tl, l, Settled(d2, l + 1), sp);
    OwnMore(Emit(s, j, i), [], f, d1.fl, l, Settled(d2, l + 1), sp);
    OwnEnd(Emit(s, j, i), [], t, d1.tl, Settled(d2, l + 1), sp, Coded(sp, 1));
    OwnEnd(Emit(s, j, i), [], f, d1.fl, Settled(d2, l + 1), sp, Coded(sp, 1));
    OwnNone(Coded(sp, 1));
    EmitTracked(s, j, i, d1, d2, sp);
  }

  lemma EmitTracked(s: Snap, j: seq<nat>, i: Instr, d1: Desc, d2: Desc, sp: Span)
    requires Tracked(s.pend, sp, Pending(j, d1)) && (d1.k.VJMP? ==> Settled(d1, sp.end) == sp.end) && d2.tl == d1.tl
    requires d2.fl == d1.fl
    requires sp.end == |s.code| && PendingOk(s.code, s.pend)
    ensures Tracked(Emit(s, j, i).pend, Coded(sp, 1), Pending([], d2))
  {
  }

  /** The end of the span does not matter to lists and beginnings. */
  lemma OwnEnd(s: Snap, jl: seq<nat>, head: int, l: seq<nat>, n: nat, sp: Span, sp': Span)
    requires OwnList(s, jl, head, l, n, sp) && sp'.start == sp.start && sp'.from == sp.from
    ensures OwnList(s, jl, head, l, n, sp')
    ensures BeginsAt(s.code, sp) ==> BeginsAt(s.code, sp')
  {
  }

  lemma OwnNone(sp: Span)
    ensures Own([], sp)
  {
  }

  lemma BeginsHere(s: Snap, jl: seq<nat>, t: int, f: int, d: Desc, sp: Span)
    requires ListsOk(s, jl, t, f, d, sp)
    ensures BeginsAt(s.code, sp) && sp.start <= Settled(d, sp.end) && Own(jl, sp)
    ensures ListsUntouched(d, sp, Elems(jl)) && ListsUntouched(d, sp, {})
  {
  }

  lemma GrownSpan(s0: Snap, s: Snap, sp: Span, sp': Span)
    requires Grown(s0, s, sp) && sp.start == sp'.start && sp.from == sp'.from
    ensures Grown(s0, s, sp')
  {
  }

  lemma LaterRefl(s: Snap, n: nat)
    requires n <= |s.code| && (n > 0 ==> !s.code[n - 1].TestSet?)
    ensures Later(s, n, s, {})
  {
    EvolvesRefl(s.code, s.pend, n, {});
  }

  lemma ListsKind(s: Snap, jl: seq<nat>, t: int, f: int, d: Desc, d': Desc, sp: Span)
    requires ListsOk(s, jl, t, f, d, sp) && d'.tl == d.tl && d'.fl == d.fl && Settled(d, sp.end) <= Settled(d', sp.end)
    requires d.k.VJMP? ==> d'.k == d.k
    ensures ListsOk(s, jl, t, f, d', sp)
  {
  }

  /** A claim carried over one instruction. */
  lemma EmitClaim(m: Machine, s: Snap, j: seq<nat>, i: Instr, d1: Desc, sp: Span, d2: Desc, x: Meaning)
    requires Claim(m, s, d1, sp, x) && SnapOk(s) && JumpsIn(s.code, j) && Elems(j) <= s.pend
    requires sp.end == |s.code| == Settled(d1, sp.end)
    requires d2.tl == d1.tl && d2.fl == d1.fl && sp.end <= Settled(d2, sp.end + 1) && sp.start <= sp.end
    requires ListsUntouched(d1, sp, Elems(j)) && MainTo(m, s.code, d1, sp, Emit(s, j, i), d2, Coded(sp, 1))
    ensures Claim(m, Emit(s, j, i), d2, Coded(sp, 1), x)
  {
    NoTestAt(s, sp.end);
    EmitLater(s, sp.end, j, i, s.k);
    assert Emit(s, j, i).(k := s.k) == Emit(s, j, i);
    ClaimMain(m, s, d1, sp, Emit(s, j, i), d2, Coded(sp, 1), Elems(j), x);
  }

  lemma NoList(code: seq<Instr>)
    ensures IsList(code, NO_JUMP, []) && Elems([]) == {}
  {
  }

  // ----- loading values -----

  /** Where no code is needed because the registers are nil already: at the start of a
      function, and just after an `OP_LOADNIL` that sets the register. */
  ghost predicate NilHere(s: Snap, sp: Span, reg: nat) {
    && Idle(sp) && sp.start <= |s.code| && sp.free <= reg < MAXSTACK
    && (sp.start > 0 ==>
      sp.falls && s.code[sp.start - 1].LoadNil? && s.code[sp.start - 1].a <= reg <= s.code[sp.start - 1].b)
  }

  lemma NilIdle(m: Machine, code: seq<Instr>, s: Snap, d1: Desc, sp: Span, reg: nat)
    requires d1.k.VNIL? && NilHere(s, sp, reg) && sp.end == sp.start && PendingOk(s.code, s.pend) && sp.to == []
    ensures MainTo(m, code, d1, sp, s, d1.(k := VNONRELOC(reg)), sp)
  {
    hide Goes;
    var d2 := d1.(k := VNONRELOC(reg));
    forall w, o, r, way | Final(w, s, sp.end) && |r| == MAXSTACK && Entered(w, r, sp) &&
        Main(m, w, o, r, way, code, d1, sp)
      ensures MainYields(m, w, o, r, way, s.code, d2, sp)
    {
      if sp.start > 0 { assert CompatAt(w.code, s.code, s.pend, sp.start - 1); }
      assert Keeps(r, r, sp.free, Idle(sp)) && Main(m, w, o, r, way, s.code, d2, sp);
    }
  }

  /** `SETARG_A` of a relocatable instruction. */
  lemma TargetShape(s: Snap, pc: nat, reg: nat, max: nat, nups: nat, t: int, f: int, d: Desc, d': Desc, sp: Span)
    requires ShapeOk(s, max, nups) && |s.code| == pc + 1 == sp.end && IsReloc(s.code[pc]) && reg < max
    requires ListsOk(s, [], t, f, d, sp)
    requires d.k.VRELOCABLE? && !d'.k.VJMP? && d'.tl == d.tl && d'.fl == d.fl
    ensures var s2 := s.(code := s.code[pc := WithTarget(s.code[pc], reg)]);
      ShapeOk(s2, max, nups) && ListsOk(s2, [], t, f, d', sp) && Grown(s, s2, sp)
  {
    hide ShapeOk, Evolves, Later, SnapOk, OwnList, Grown, BeginsAt, Own, Apart, WithTarget, Untouched;
    var s2 := s.(code := s.code[pc := WithTarget(s.code[pc], reg)]);
    TargetFits(s, pc, reg, max, nups);
    ShapeSnap(s, max, nups);
    NoTestAt(s, pc);
    UnsettledLater(s, pc, s2);
    GrownBy(s, pc, s2, {}, sp);
    OwnAllLater(s, pc, s2, t, d.tl, Settled(d', sp.end), sp);
    OwnAllLater(s, pc, s2, f, d.fl, Settled(d', sp.end), sp);
  }

  lemma TargetFits(s: Snap, pc: nat, reg: nat, max: nat, nups: nat)
    requires ShapeOk(s, max, nups) && |s.code| == pc + 1 && IsReloc(s.code[pc]) && reg < max
    ensures ShapeOk(s.(code := s.code[pc := WithTarget(s.code[pc], reg)]), max, nups)
  {
    var s2 := s.(code := s.code[pc := WithTarget(s.code[pc], reg)]);
    forall x | 0 <= x < |s2.code|
      ensures FitsAt(s2.code, s2.pend, max, |s.k|, nups, x)
    {
      assert FitsAt(s.code, s.pend, max, |s.k|, nups, x);
    }
  }

  /** A list before position `n` outlives a change after it. */
  lemma OwnAllLater(s: Snap, n: nat, t: Snap, head: int, l: seq<nat>, n': nat, sp: Span)
    requires Later(s, n, t, {}) && OwnList(s, [], head, l, n, sp) && n <= n'
    ensures OwnList(t, [], head, l, n', sp)
  {
    hide Later, IsList;
    OwnLater(s, n, t, {}, [], [], head, l, sp);
    OwnMore(t, [], head, l, n, n', sp);
  }

  lemma TargetClaim(m: Machine, s: Snap, d1: Desc, sp: Span, reg: nat, x: Meaning)
    requires Claim(m, s, d1, sp, x) && SnapOk(s) && sp.end == |s.code| >= 1 && d1.k.VRELOCABLE?
    requires IsReloc(s.code[sp.end - 1]) && sp.to == [] && sp.tov == {}
    requires sp.free <= reg < MAXSTACK && ListsUntouched(d1, sp, {}) && sp.start < sp.end
    ensures Claim(m, s.(code := s.code[sp.end - 1 := WithTarget(s.code[sp.end - 1], reg)]), d1.(k := VNONRELOC(reg)),
        sp, x)
  {
    var d2, s2 := d1.(k := VNONRELOC(reg)), s.(code := s.code[sp.end - 1 := WithTarget(s.code[sp.end - 1], reg)]);
    RelocTo(m, s, reg, d1, sp, d2);
    ClaimMain(m, s, d1, sp, s2, d2, sp, {}, x);
  }

  lemma LoadsPlain(i: Instr, reg: nat, d: Desc, k: seq<Value>)
    requires LoadsValue(i, reg, d, k)
    ensures !IsTest(i) && !i.Jmp? && !(i.LoadBool? && i.c != 0) && !d.k.VRELOCABLE? && !d.k.VJMP?
  {
  }

  /** The main value has been loaded by one instruction. */
  lemma LoadMeans(m: Machine, s: Snap, j: seq<nat>, i: Instr, reg: nat, max: nat, nups: nat, t: int, f: int, d: Desc,
                  sp: Span, x: Meaning)
    requires ShapeOk(s, max, nups) && JumpsHere(s, j) && Fits(i, false, max, |s.k|, nups) && LoadsValue(i, reg, d, s.k)
    requires sp.end == |s.code| && sp.to == j && ListsOk(s, j, t, f, d, sp) && Claim(m, s, d, sp, x)
    requires sp.free <= reg < MAXSTACK
    ensures var d2 := d.(k := VNONRELOC(reg));
      && ShapeOk(Emit(s, j, i), max, nups) && ListsOk(Emit(s, j, i), [], t, f, d2, Coded(sp, 1))
      && Claim(m, Emit(s, j, i), d2, Coded(sp, 1), x)
      && Grown(s, Emit(s, j, i), sp)
  {
    hide ShapeOk, Claim, MainTo, ListsOk, Grown, Emitted, Emit, Fits, LoadsValue, SnapOk, JumpsIn;
    var d2 := d.(k := VNONRELOC(reg));
    LoadsPlain(i, reg, d, s.k);
    BeginsHere(s, j, t, f, d, sp);
    ShapeSnap(s, max, nups);
    EmitLists(s, j, i, max, nups, t, f, d, d2, sp);
    LoadTo(m, s, j, i, reg, s.k, d, sp, d2, Coded(sp, 1));
    SameConstants(s, j, i);
    EmitClaim(m, s, j, i, d, sp, d2, x);
  }

  lemma SameConstants(s: Snap, j: seq<nat>, i: Instr)
    ensures Emit(s, j, i).(k := s.k) == Emit(s, j, i)
  {
  }

  lemma JumpsReach(s: Snap, j: seq<nat>, l: nat)
    requires JumpsIn(s.code, j) && Elems(j) <= s.pend && l == |s.code| && forall p :: p in j ==> OffsetOk(l - (p + 1))
    ensures JumpsHere(s, j)
  {
  }

  /** What `luaK_nil` has done with `LOADNIL` instruction `i`: nothing at the start of the
      function, where registers are nil; it has extended a `LOADNIL` just before, which
      no jump skips; or it has emitted `i`. */
  ghost predicate NilCoded(s: Snap, j: seq<nat>, lasttarget: int, i: Instr, s': Snap)
    requires i.LoadNil?
  {
    if |s.code| > lasttarget && s.code == [] then s' == s
    else if |s.code| > lasttarget && Connects(s.code[|s.code| - 1], i) then
      var l := s.code[|s.code| - 1];
      s' == s.(code := s.code[|s.code| - 1 := LoadNil(l.a, if i.b > l.b then i.b else l.b)])
    else s' == Emit(s, j, i)
  }

  predicate Connects(l: Instr, i: Instr)
    requires i.LoadNil?
  {
    l.LoadNil? && l.a <= i.a <= l.b + 1
  }

  // ----- constants -----

  lemma ConstantsMeans(m: Machine, s: Snap, k: seq<Value>, jl: seq<nat>, t: int, f: int, d: Desc, sp: Span, x: Meaning)
    requires ListsOk(s, jl, t, f, d, sp) && Claim(m, s, d, sp, x) && SnapOk(s) && s.k <= k && sp.end == |s.code|
    requires !d.k.VJMP? && !d.k.VRELOCABLE?
    ensures ListsOk(s.(k := k), jl, t, f, d, sp) && Claim(m, s.(k := k), d, sp, x)
  {
    hide ListsOk, Claim;
    BeginsHere(s, jl, t, f, d, sp);
    NoTestAt(s, |s.code|);
    LaterRefl(s, |s.code|);
    ClaimLater(m, s, s.(k := k), {}, d, sp, x);
    ListsConstants(s, k, jl, t, f, d, sp);
  }

  lemma ListsConstants(s: Snap, k: seq<Value>, jl: seq<nat>, t: int, f: int, d: Desc, sp: Span)
    requires ListsOk(s, jl, t, f, d, sp)
    ensures ListsOk(s.(k := k), jl, t, f, d, sp)
  {
  }

  lemma ConstantsGrown(s: Snap, s': Snap, sp: Span)
    requires s' == s.(k := s'.k) && s.k <= s'.k && BeginsAt(s.code, sp)
    ensures Grown(s, s', sp)
  {
    GrownRefl(s, sp);
  }

  /** `luaK_nil` has had no code to emit. */
  lemma NilMeans(m: Machine, s: Snap, s2: Snap, j: seq<nat>, reg: nat, t: int, f: int, d: Desc, sp: Span, x: Meaning,
                 max: nat, nups: nat)
    requires ListsOk(s, j, t, f, d, sp) && Claim(m, s, d, sp, x) && d.k.VNIL? && ShapeOk(s, max, nups) && reg < max
    requires sp.to == [] && sp.end == sp.start == |s.code| && NilHere(s2, sp, reg) && NilsExtended(s, s2, reg)
    ensures var d2 := d.(k := VNONRELOC(reg));
      ShapeOk(s2, max, nups) && ListsOk(s2, j, t, f, d2, sp) && Claim(m, s2, d2, sp, x) && Grown(s, s2, sp)
  {
    hide ListsOk, Claim, MainTo, Evolves, BeginsAt, Grown, Later, NilHere, SnapOk, PendingOk, ShapeOk, ListsUntouched;
    BeginsHere(s, j, t, f, d, sp);
    ShapeSnap(s, max, nups);
    NilsShape(s, s2, reg, max, nups);
    ShapeSnap(s2, max, nups);
    SnapPending(s);
    SnapPending(s2);
    NoTestAt(s, |s.code|);
    NilsLater(s, s2, reg);
    NilIdle(m, s.code, s2, d, sp, reg);
    ClaimMain(m, s, d, sp, s2, d.(k := VNONRELOC(reg)), sp, {}, x);
    GrownBy(s, |s.code|, s2, {}, sp);
    NilLists(s, s2, j, t, f, d, sp, reg);
  }

  /** The last instruction may have been extended to register `reg`. */
  ghost predicate NilsExtended(s: Snap, s2: Snap, reg: nat) {
    s2 == s || (s.code != [] && s.code[|s.code| - 1].LoadNil?
                && s2 == s.(code := s.code[|s.code| - 1 := LoadNil(s.code[|s.code| - 1].a, reg)])
                && s.code[|s.code| - 1].b <= reg)
  }

  lemma NilsLater(s: Snap, s2: Snap, reg: nat)
    requires NilsExtended(s, s2, reg) && (|s.code| > 0 ==> !s.code[|s.code| - 1].TestSet?)
    ensures Later(s, |s.code|, s2, {})
  {
  }

  lemma NilsShape(s: Snap, s2: Snap, reg: nat, max: nat, nups: nat)
    requires ShapeOk(s, max, nups) && NilsExtended(s, s2, reg) && reg < max
    ensures ShapeOk(s2, max, nups)
  {
    forall i | 0 <= i < |s2.code|
      ensures FitsAt(s2.code, s2.pend, max, |s2.k|, nups, i)
    {
      assert FitsAt(s.code, s.pend, max, |s.k|, nups, i);
    }
  }

  lemma NilLists(s: Snap, s2: Snap, j: seq<nat>, t: int, f: int, d: Desc, sp: Span, reg: nat)
    requires ListsOk(s, j, t, f, d, sp) && d.k.VNIL? && sp.end == sp.start && s2.pend == s.pend && BeginsAt(s2.code, sp)
    ensures ListsOk(s2, j, t, f, d.(k := VNONRELOC(reg)), sp)
  {
    hide BeginsAt;
  }

  ghost predicate TailFits(code: seq<Instr>, lasttarget: int, sp: Span) {
    |code| > lasttarget ==> if |code| > sp.start then !code[|code| - 1].LoadNil? else sp.falls
  }

  lemma TailKept(code: seq<Instr>, code': seq<Instr>, lasttarget: int, sp: Span)
    requires TailFits(code, lasttarget, sp) && |code'| == |code|
    requires code != [] ==> code'[|code| - 1] == code[|code| - 1] || code'[|code| - 1].Jmp?
    ensures TailFits(code', lasttarget, sp)
  {
  }

  lemma NilUnemitted(s: Snap, j: seq<nat>, lasttarget: int, reg: nat, s2: Snap, sp: Span)
    requires NilCoded(s, j, lasttarget, LoadNil(reg, reg), s2) && |s2.code| == |s.code| && sp.free <= reg < MAXSTACK
    requires sp.start <= |s.code| == sp.end
    requires TailFits(s.code, lasttarget, sp)
    requires s.code == [] ==> sp.start == 0
    ensures sp.end == sp.start && NilHere(s2, sp, reg) && NilsExtended(s, s2, reg) && |s.code| > lasttarget
  {
    hide Emitted;
    SizeOfEmit(s, j, LoadNil(reg, reg));
  }

  lemma SizeOfEmit(s: Snap, j: seq<nat>, i: Instr)
    ensures |Emit(s, j, i).code| == |s.code| + 1
  {
  }

  lemma NilEmitted(s: Snap, j: seq<nat>, lasttarget: int, i: Instr, s': Snap)
    requires i.LoadNil? && NilCoded(s, j, lasttarget, i, s') && |s'.code| != |s.code|
    ensures s' == Emit(s, j, i)
  {
  }

  // ----- joining both ways of an expression -----

  lemma EmittedNothing(code: seq<Instr>, i: Instr)
    ensures Emitted(code, [], i) == code + [i]
  {
    PatchNothing(code, |code|, NO_REG, |code|);
  }

  /** Code may be added behind a list. */
  lemma ListExtended(code: seq<Instr>, more: seq<Instr>, head: int, s: seq<nat>)
    requires IsList(code, head, s)
    ensures IsList(code + more, head, s)
  {
  }

  /** Patching one list leaves another one as it is. */
  lemma ListBeside(code: seq<Instr>, s: seq<nat>, vtarget: int, reg: nat, dtarget: int, head: int, l: seq<nat>)
    requires IsList(code, head, l) && JumpsIn(code, s) && Apart(l, s)
    ensures IsList(Patched(code, s, vtarget, reg, dtarget), head, l)
  {
    ListJumps(code, head, l);
    PatchedEvolves(code, Elems(s), |code|, s, vtarget, reg, dtarget, []);
    var code' := Patched(code, s, vtarget, reg, dtarget);
    assert code' + [] == code';
    ListKept(code, Elems(s), |code|, code', Elems(s) - Elems(s), Elems(s), head, l);
  }

  /** `patchlistaux` on both lists, after the code `more` has been added. */
  lemma FinishedFrom(code: seq<Instr>, more: seq<Instr>, tl: seq<nat>, fl: seq<nat>, fin: nat, reg: nat, pf: int,
                     pt: int)
    requires JumpsIn(code, tl) && JumpsIn(code, fl) && Apart(tl, fl) && fin == |code| + |more|
    requires (exists p :: (p in tl || p in fl) && !SetsValue(code, p)) ==>
      |more| >= 2 && pf == fin - 2 && pt == fin - 1 && more[|more| - 2] == LoadBool(reg, 0, 1)
          && more[|more| - 1] == LoadBool(reg, 1, 0)
    ensures BothFinished(code, tl, fl, fin, reg, pf, pt, Patched(Patched(code + more, fl, fin, reg, pf), tl, fin,
        reg, pt))
  {
    var c1 := code + more;
    var c2 := Patched(c1, fl, fin, reg, pf);
    var c3 := Patched(c2, tl, fin, reg, pt);
    forall i | 0 <= i < |code|
      ensures c3[i] == FinishedAt(code, tl, fl, fin, reg, pf, pt, i)
    {
      BothPatched(code, more, tl, fl, fin, reg, pf, pt, i);
    }
    forall i | |code| <= i < |c1|
      ensures c3[i] == c1[i]
    {
      AfterPatched(code, more, tl, fl, fin, reg, pf, pt, i);
    }
  }

  lemma BothPatched(code: seq<Instr>, more: seq<Instr>, tl: seq<nat>, fl: seq<nat>, fin: nat, reg: nat, pf: int,
                    pt: int, i: nat)
    requires JumpsIn(code, tl) && JumpsIn(code, fl) && Apart(tl, fl) && i < |code|
    ensures Patched(Patched(code + more, fl, fin, reg, pf), tl, fin, reg, pt)[i] == FinishedAt(code, tl, fl, fin,
        reg, pf, pt, i)
  {
    var c1 := code + more;
    var c2 := Patched(c1, fl, fin, reg, pf);
    assert c2[i] == PatchedAt(c1, fl, fin, reg, pf, i);
    if i >= 1 { assert c2[i - 1] == PatchedAt(c1, fl, fin, reg, pf, i - 1); }
    assert Patched(c2, tl, fin, reg, pt)[i] == PatchedAt(c2, tl, fin, reg, pt, i);
  }

  lemma AfterPatched(code: seq<Instr>, more: seq<Instr>, tl: seq<nat>, fl: seq<nat>, fin: nat, reg: nat, pf: int,
                     pt: int, i: nat)
    requires JumpsIn(code, tl) && JumpsIn(code, fl) && |code| <= i < |code| + |more|
    ensures Patched(Patched(code + more, fl, fin, reg, pf), tl, fin, reg, pt)[i] == (code + more)[i]
  {
    var c1 := code + more;
    var c2 := Patched(c1, fl, fin, reg, pf);
    assert c2[i] == PatchedAt(c1, fl, fin, reg, pf, i);
    assert Patched(c2, tl, fin, reg, pt)[i] == PatchedAt(c2, tl, fin, reg, pt, i);
  }

  /** The shape of the code after both lists have been patched. */
  lemma FinishedShape(s: Snap, tl: seq<nat>, fl: seq<nat>, fin: nat, reg: nat, pf: int, pt: int, max: nat, nups: nat)
    requires CodeFits(s.code, s.pend, max, |s.k|, nups) && PendingOk(s.code, s.pend) && TailOk(s.code)
    requires JumpsIn(s.code, tl) && JumpsIn(s.code, fl) && Elems(tl) <= s.pend && Elems(fl) <= s.pend && Apart(tl, fl)
    requires reg < max
    requires forall p ::
      p in fl ==> var d := if SetsValue(s.code, p) then fin else pf; 0 <= d <= |s.code| && OffsetOk(d - (p + 1))
    requires forall p ::
      p in tl ==> var d := if SetsValue(s.code, p) then fin else pt; 0 <= d <= |s.code| && OffsetOk(d - (p + 1))
    ensures ShapeOk(Snap(Patched(Patched(s.code, fl, fin, reg, pf), tl, fin, reg, pt),
        s.pend - Elems(fl) - Elems(tl), s.k), max, nups)
  {
    hide CodeFits, TailOk, Patched;
    var c2 := Patched(s.code, fl, fin, reg, pf);
    PatchedFits(s.code, s.pend, max, |s.k|, nups, fl, fin, reg, pf);
    PatchedTail(s.code, fl, fin, reg, pf);
    forall p | p in tl
      ensures p < |c2| && c2[p] == s.code[p] && (SetsValue(c2, p) <==> SetsValue(s.code, p))
    {
      assert c2[p] == PatchedAt(s.code, fl, fin, reg, pf, p);
      if p >= 1 { assert c2[p - 1] == PatchedAt(s.code, fl, fin, reg, pf, p - 1); }
    }
    PatchedFits(c2, s.pend - Elems(fl), max, |s.k|, nups, tl, fin, reg, pt);
    PatchedTail(c2, tl, fin, reg, pt);
  }

  /** The instructions that load a boolean for jumps that bring no value, and the jump of
      the main way over them. */
  function BooleanLoads(jump: bool, reg: nat): seq<Instr> {
    (if jump then [Jmp(NO_JUMP)] else []) + [LoadBool(reg, 0, 1), LoadBool(reg, 1, 0)]
  }

  lemma LoadsFit(s: Snap, jump: bool, reg: nat, max: nat, nups: nat)
    requires ShapeOk(s, max, nups) && reg < max
    ensures ShapeOk(Snap(s.code + BooleanLoads(jump, reg), if jump then s.pend + {|s.code|} else s.pend, s.k), max,
        nups)
  {
    hide CodeFits;
    var c, p := s.code, s.pend;
    if jump {
      AppendFits(c, p, max, |s.k|, nups, Jmp(NO_JUMP));
      c, p := c + [Jmp(NO_JUMP)], p + {|c|};
    }
    AppendFits(c, p, max, |s.k|, nups, LoadBool(reg, 0, 1));
    var c1 := c + [LoadBool(reg, 0, 1)];
    AppendFits(c1, p, max, |s.k|, nups, LoadBool(reg, 1, 0));
    assert c1 + [LoadBool(reg, 1, 0)] == s.code + BooleanLoads(jump, reg);
  }

  /** An expression whose lists are about to be joined with its main way. */
  ghost predicate Joining(m: Machine, s: Snap, d: Desc, sp: Span, reg: nat, x: Expr) {
    && JumpsIn(s.code, d.tl) && JumpsIn(s.code, d.fl) && Elems(d.tl) <= s.pend && Elems(d.fl) <= s.pend
    && Apart(d.tl, d.fl) && Own(d.tl, sp) && Own(d.fl, sp) && BeginsAt(s.code, sp)
    && Claim(m, s, d, sp, Whole(x)) && sp.end == |s.code| && sp.to == [] && sp.tov == {}
    && sp.free <= reg < MAXSTACK && sp.valued
    && sp.start <= Settled(d, sp.end)
    && (d.k == VNONRELOC(reg) || (sp.end >= 2 && d.k == VJMP(sp.end - 1) && s.code[sp.end - 2].Cmp?
        && sp.end - 1 in d.tl))
    && Tracked(s.pend, sp, Elems(d.tl) + Elems(d.fl)) && (d.tl != [] || d.fl != [] ==> sp.start < sp.end)
  }

  ghost predicate NeedsValue(code: seq<Instr>, d: Desc) {
    exists p :: (p in d.tl || p in d.fl) && !SetsValue(code, p)
  }

  /** The code `more` that is added, and the jump over it. */
  ghost function Added(s: Snap, d: Desc, reg: nat): seq<Instr> {
    if NeedsValue(s.code, d) then BooleanLoads(!d.k.VJMP?, reg) else []
  }

  ghost function JumpOver(s: Snap, d: Desc): seq<nat> {
    if NeedsValue(s.code, d) && !d.k.VJMP? then [|s.code|] else []
  }

  ghost function Joined2(s: Snap, d: Desc, reg: nat): Snap {
    var fin := |s.code| + |Added(s, d, reg)|;
    Snap(Patched(Patched(s.code + Added(s, d, reg), d.fl, fin, reg, fin - 2), d.tl, fin, reg, fin - 1),
         s.pend + Elems(JumpOver(s, d)) - Elems(d.fl) - Elems(d.tl), s.k)
  }

  lemma JoinFinishing(m: Machine, s: Snap, d: Desc, sp: Span, reg: nat, x: Expr, max: nat, nups: nat)
    requires Joining(m, s, d, sp, reg, x) && ShapeOk(s, max, nups) && ShapeOk(Joined2(s, d, reg), max, nups)
    requires sp.start < |s.code|
    ensures var fin := |s.code| + |Added(s, d, reg)|;
      Finishing(s, d, sp, Joined2(s, d, reg), sp.(end := fin, to := JumpOver(s, d), tov := {}), reg, fin - 2, fin - 1)
  {
    hide BothFinished, Claim, Patched, BeginsAt, CodeFits, SnapOk, Tracked, PendingOk;
    ShapeSnap(s, max, nups);
    var more := Added(s, d, reg);
    var fin := |s.code| + |more|;
    FinishedFrom(s.code, more, d.tl, d.fl, fin, reg, fin - 2, fin - 1);
    assert forall p :: p in d.tl ==> p in Elems(d.tl);
    assert forall p :: p in d.fl ==> p in Elems(d.fl);
  }

  lemma PatchedSame(code: seq<Instr>, s: seq<nat>, vtarget: int, reg: nat, d1: int, d2: int)
    requires forall p :: p in s && p < |code| ==> SetsValue(code, p)
    ensures Patched(code, s, vtarget, reg, d1) == Patched(code, s, vtarget, reg, d2)
  {
    var c1, c2 := Patched(code, s, vtarget, reg, d1), Patched(code, s, vtarget, reg, d2);
    forall i | 0 <= i < |code|
      ensures c1[i] == c2[i]
    {
      assert c1[i] == PatchedAt(code, s, vtarget, reg, d1, i) && c2[i] == PatchedAt(code, s, vtarget, reg, d2, i);
    }
  }

  /** The main way ends with its value in the register. */
  lemma SnapPending(s: Snap)
    requires SnapOk(s)
    ensures PendingOk(s.code, s.pend)
  {
  }

  lemma JoinMain(m: Machine, s: Snap, d: Desc, sp: Span, reg: nat, x: Expr, max: nat, nups: nat)
    requires Joining(m, s, d, sp, reg, x) && ShapeOk(s, max, nups) && ShapeOk(Joined2(s, d, reg), max, nups)
    requires sp.start < |s.code|
    ensures var fin := |s.code| + |Added(s, d, reg)|;
      var sp2 := sp.(end := fin, to := JumpOver(s, d), tov := {});
      MainLands(m, s.code, d, sp, Joined2(s, d, reg), reg, sp2) && MainRaises(m, s.code, d, sp, Joined2(s, d, reg), sp2)
  {
    hide ShapeOk, Claim, MainLands, MainRaises, Patched, BeginsAt, NeedsValue, Settled, Own, JumpsIn, Apart, Joined2,
      SnapOk,
      Finishing;
    var fin := |s.code| + |Added(s, d, reg)|;
    var s2, sp2 := Joined2(s, d, reg), sp.(end := fin, to := JumpOver(s, d), tov := {});
    JoinFinishing(m, s, d, sp, reg, x, max, nups);
    ShapeSnap(s, max, nups);
    ShapeSnap(s2, max, nups);
    SnapPending(s2);
    if d.k.VJMP? {
      ComparisonNeeds(s, d, sp);
      ComparisonLands(m, s, d, sp, s2, sp2, reg);
      ComparisonRaises(m, s, d, sp, s2, sp2, reg);
    } else {
      JoinMainRegister(m, s, d, sp, reg);
      NothingRaised(m, s, d, sp, s2, sp2);
    }
  }

  lemma JoinMainRegister(m: Machine, s: Snap, d: Desc, sp: Span, reg: nat)
    requires d.k == VNONRELOC(reg) && sp.end == |s.code| && sp.to == [] && sp.tov == {} && SnapOk(s) && sp.free <= reg
    requires JumpsIn(s.code, d.tl) && JumpsIn(s.code, d.fl) && Apart(d.tl, d.fl)
    requires PendingOk(Joined2(s, d, reg).code, Joined2(s, d, reg).pend)
    ensures var fin := |s.code| + |Added(s, d, reg)|;
      MainLands(m, s.code, d, sp, Joined2(s, d, reg), reg, sp.(end := fin, to := JumpOver(s, d), tov := {}))
  {
    hide SnapOk, MainLands, Patched, PendingOk, NeedsValue;
    var fin := |s.code| + |Added(s, d, reg)|;
    var s2, sp2 := Joined2(s, d, reg), sp.(end := fin, to := JumpOver(s, d), tov := {});
    if NeedsValue(s.code, d) {
      NoNewTests(s, d, reg);
      JumpsOver(m, s, d, sp, s2, sp2);
    } else {
      hide Joined2;
      NothingAdded(m, s, d, sp, s2, sp2);
    }
  }

  lemma ComparisonNeeds(s: Snap, d: Desc, sp: Span)
    requires sp.end == |s.code| >= 2 && s.code[sp.end - 2].Cmp? && sp.end - 1 in d.tl
    ensures NeedsValue(s.code, d)
  {
    assert !SetsValue(s.code, sp.end - 1);
  }

  /** Patching makes no tests. */
  lemma NoNewTests(s: Snap, d: Desc, reg: nat)
    requires JumpsIn(s.code, d.tl) && JumpsIn(s.code, d.fl) && Apart(d.tl, d.fl)
    ensures forall i :: 0 <= i < |s.code| && !IsTest(s.code[i]) ==> !IsTest(Joined2(s, d, reg).code[i])
  {
    var fin := |s.code| + |Added(s, d, reg)|;
    forall i | 0 <= i < |s.code| && !IsTest(s.code[i])
      ensures !IsTest(Joined2(s, d, reg).code[i])
    {
      BothPatched(s.code, Added(s, d, reg), d.tl, d.fl, fin, reg, fin - 2, fin - 1, i);
    }
  }

  /** Everything about the code after `exp2reg`. */
  lemma JoinMeans(m: Machine, s: Snap, d: Desc, sp: Span, reg: nat, x: Expr, max: nat, nups: nat)
    requires Joining(m, s, d, sp, reg, x) && ShapeOk(s, max, nups) && ShapeOk(Joined2(s, d, reg), max, nups)
    requires sp.start < |s.code|
    ensures var sp2 := sp.(end := |s.code| + |Added(s, d, reg)|, to := JumpOver(s, d), tov := {});
      && Claim(m, Joined2(s, d, reg), RegDesc(reg), sp2, Operand(x)) && Grown(s, Joined2(s, d, reg), sp)
      && BeginsAt(Joined2(s, d, reg).code, sp)
  {
    hide NeedsValue, Joining, ShapeOk, Claim, MainLands, MainRaises, Finishing, Added, JumpOver, Own, BeginsAt, Grown,
      Settled,
      Patched;
    var fin := |s.code| + |Added(s, d, reg)|;
    var s2, sp2 := Joined2(s, d, reg), sp.(end := fin, to := JumpOver(s, d), tov := {});
    JoinFinishing(m, s, d, sp, reg, x, max, nups);
    JoinMain(m, s, d, sp, reg, x, max, nups);
    JoinFacts(m, s, d, sp, reg, x);
    assert s2.k == s.k;
    ValueTo(m, s, d, sp, s2, sp2, reg, fin - 2, fin - 1, x);
    JoinGrown(s, d, sp, s2, sp2, reg);
  }

  lemma JoinFacts(m: Machine, s: Snap, d: Desc, sp: Span, reg: nat, x: Expr)
    requires Joining(m, s, d, sp, reg, x)
    ensures Claim(m, s, d, sp, Whole(x)) && Own(d.tl, sp) && Own(d.fl, sp) && BeginsAt(s.code, sp)
    ensures sp.start <= Settled(d, sp.end)
    ensures Settled(d, sp.end) < |s.code| ==> !s.code[Settled(d, sp.end)].Jmp?
  {
    NoJumpAt(s, d, sp);
  }

  lemma JoinGrown(s: Snap, d: Desc, sp: Span, s2: Snap, sp2: Span, reg: nat)
    requires Finishing(s, d, sp, s2, sp2, reg, sp2.end - 2, sp2.end - 1) && s2.k == s.k
    requires Own(d.tl, sp) && Own(d.fl, sp) && BeginsAt(s.code, sp) && sp.start <= Settled(d, sp.end)
    requires Settled(d, sp.end) < |s.code| ==> !s.code[Settled(d, sp.end)].Jmp?
    ensures Grown(s, s2, sp) && BeginsAt(s2.code, sp)
  {
    var n := Settled(d, sp.end);
    NoTestAt(s, n);
    FinishedLater(s, n, d.tl, d.fl, sp2.end, reg, sp2.end - 2, sp2.end - 1, s2);
    hide Finishing, Grown, BeginsAt, Later;
    GrownBy(s, n, s2, Elems(d.tl) + Elems(d.fl), sp);
  }

  lemma NoJumpAt(s: Snap, d: Desc, sp: Span)
    requires sp.end == |s.code| && (d.k.VNONRELOC? || (d.k.VJMP? && sp.end >= 2 && s.code[sp.end - 2].Cmp?))
    ensures Settled(d, sp.end) < |s.code| ==> !s.code[Settled(d, sp.end)].Jmp?
  {
  }

  lemma SomeJump(code: seq<Instr>, t: int, f: int, tl: seq<nat>, fl: seq<nat>)
    requires IsList(code, t, tl) && IsList(code, f, fl) && t != f
    ensures |code| > 0 && (tl != [] || fl != [])
  {
  }

  ghost predicate JoinReach(s: Snap, d: Desc, reg: nat) {
    var fin := |s.code| + |Added(s, d, reg)|;
    && (forall p :: p in d.fl ==> OffsetOk((if SetsValue(s.code, p) then fin else fin - 2) - (p + 1)))
    && (forall p :: p in d.tl ==> OffsetOk((if SetsValue(s.code, p) then fin else fin - 1) - (p + 1)))
  }

  lemma JoinedShape(s: Snap, d: Desc, reg: nat, max: nat, nups: nat)
    requires ShapeOk(s, max, nups) && JumpsIn(s.code, d.tl) && JumpsIn(s.code, d.fl) && Elems(d.tl) <= s.pend
    requires Elems(d.fl) <= s.pend
    requires Apart(d.tl, d.fl) && reg < max && JoinReach(s, d, reg)
    ensures ShapeOk(Joined2(s, d, reg), max, nups)
  {
    hide CodeFits, PendingOk, Patched, Added, JumpOver, NeedsValue, TailOk, JoinReach;
    var more := Added(s, d, reg);
    var fin := |s.code| + |more|;
    var s1 := Snap(s.code + more, s.pend + Elems(JumpOver(s, d)), s.k);
    AddedShape(s, d, reg, max, nups);
    JoinTargets(s, d, reg);
    FinishedShape(s1, d.tl, d.fl, fin, reg, fin - 2, fin - 1, max, nups);
  }

  lemma AddedShape(s: Snap, d: Desc, reg: nat, max: nat, nups: nat)
    requires ShapeOk(s, max, nups) && reg < max
    ensures ShapeOk(Snap(s.code + Added(s, d, reg), s.pend + Elems(JumpOver(s, d)), s.k), max, nups)
  {
    hide ShapeOk, NeedsValue;
    if NeedsValue(s.code, d) {
      LoadsFit(s, !d.k.VJMP?, reg, max, nups);
      assert s.pend + Elems([|s.code|]) == s.pend + {|s.code|} && s.pend + Elems([]) == s.pend;
    } else {
      assert s.code + [] == s.code && s.pend + Elems([]) == s.pend;
      assert Snap(s.code, s.pend, s.k) == s;
    }
  }

  lemma JoinTargets(s: Snap, d: Desc, reg: nat)
    requires JumpsIn(s.code, d.tl) && JumpsIn(s.code, d.fl) && JoinReach(s, d, reg)
    ensures var more := Added(s, d, reg);
      var fin := |s.code| + |more|;
      && JumpsIn(s.code + more, d.tl) && JumpsIn(s.code + more, d.fl)
      && (forall p :: p in d.fl ==>
        var t := if SetsValue(s.code + more, p) then fin else fin - 2; 0 <= t <= fin && OffsetOk(t - (p + 1)))
      && (forall p :: p in d.tl ==>
        var t := if SetsValue(s.code + more, p) then fin else fin - 1; 0 <= t <= fin && OffsetOk(t - (p + 1)))
  {
    var more := Added(s, d, reg);
    forall p | p in d.fl || p in d.tl
      ensures SetsValue(s.code + more, p) <==> SetsValue(s.code, p)
    {
    }
  }

  /** What the two calls of `patchlistaux` have made of the code. */
  lemma JoinedCode(s: Snap, d: Desc, reg: nat, fin: nat, pf: int, pt: int, s1: Snap, c2: seq<Instr>, s3: Snap)
    requires JumpsIn(s.code, d.tl) && JumpsIn(s.code, d.fl) && Apart(d.tl, d.fl) && fin == |s1.code|
    requires s1 == Snap(s.code + Added(s, d, reg), s.pend + Elems(JumpOver(s, d)), s.k)
    requires c2 == Patched(s1.code, d.fl, fin, reg, pf) && s3.code == Patched(c2, d.tl, fin, reg, pt)
    requires s3.pend == s1.pend - Elems(d.fl) - Elems(d.tl) && s3.k == s.k
    requires NeedsValue(s.code, d) ==> pf == fin - 2 && pt == fin - 1
    ensures s3 == Joined2(s, d, reg)
  {
    if !NeedsValue(s.code, d) {
      assert s.code + Added(s, d, reg) == s.code;
      PatchedSame(s1.code, d.fl, fin, reg, pf, fin - 2);
      TestsBeside(s.code, d.fl, fin, reg, pf, d.tl);
      PatchedSame(c2, d.tl, fin, reg, pt, fin - 1);
    }
  }

  lemma TestsBeside(code: seq<Instr>, s: seq<nat>, vtarget: int, reg: nat, dtarget: int, l: seq<nat>)
    requires JumpsIn(code, s) && JumpsIn(code, l) && Apart(l, s)
    ensures forall p :: p in l ==> (SetsValue(Patched(code, s, vtarget, reg, dtarget), p) <==> SetsValue(code, p))
  {
    var c2 := Patched(code, s, vtarget, reg, dtarget);
    forall p | p in l
      ensures SetsValue(c2, p) <==> SetsValue(code, p)
    {
      if p >= 1 { assert c2[p - 1] == PatchedAt(code, s, vtarget, reg, dtarget, p - 1); }
    }
  }

  lemma JoinBeside(s: Snap, d: Desc, reg: nat, fin: nat, pf: int, t: int, jpc: int, jl: seq<nat>)
    requires IsList(s.code, t, d.tl) && JumpsIn(s.code, d.fl) && Apart(d.tl, d.fl)
    requires jl == JumpOver(s, d) && IsList(s.code + Added(s, d, reg), jpc, jl)
    ensures var c2 := Patched(s.code + Added(s, d, reg), d.fl, fin, reg, pf);
      && IsList(c2, t, d.tl) && IsList(c2, jpc, jl) && JumpsIn(c2, d.tl) && Apart(jl, d.tl)
  {
    hide IsList;
    var c1 := s.code + Added(s, d, reg);
    ListExtended(s.code, Added(s, d, reg), t, d.tl);
    ListJumps(s.code, t, d.tl);
    ListBeside(c1, d.fl, fin, reg, pf, t, d.tl);
    ListBeside(c1, d.fl, fin, reg, pf, jpc, jl);
    ListJumps(Patched(c1, d.fl, fin, reg, pf), t, d.tl);
  }

  lemma JoinedReach(s: Snap, d: Desc, reg: nat, fin: nat, pf: int, pt: int, c2: seq<Instr>)
    requires JumpsIn(s.code, d.tl) && JumpsIn(s.code, d.fl) && Apart(d.tl, d.fl) && fin == |s.code| + |Added(s, d, reg)|
    requires c2 == Patched(s.code + Added(s, d, reg), d.fl, fin, reg, pf)
    requires forall p :: p in d.fl ==> OffsetOk((if SetsValue(s.code + Added(s, d, reg), p) then fin else pf) - (p + 1))
    requires forall p :: p in d.tl ==> OffsetOk((if SetsValue(c2, p) then fin else pt) - (p + 1))
    requires NeedsValue(s.code, d) ==> pf == fin - 2 && pt == fin - 1
    ensures JoinReach(s, d, reg)
  {
    var c1 := s.code + Added(s, d, reg);
    TestsBeside(c1, d.fl, fin, reg, pf, d.tl);
    forall p | p in d.fl || p in d.tl
      ensures SetsValue(c1, p) <==> SetsValue(s.code, p)
    {
    }
  }

  lemma JumpOverOwn(s: Snap, d: Desc, reg: nat, a: Span, sp: Span)
    requires a.start == sp.start && a.from == sp.from && sp.start <= |s.code|
    requires forall p :: p in d.tl || p in d.fl ==> p < |s.code|
    ensures Own(JumpOver(s, d), sp) && Elems(JumpOver(s, d)) <= Joined2(s, d, reg).pend
    ensures BeginsAt(Joined2(s, d, reg).code, a) ==> BeginsAt(Joined2(s, d, reg).code, sp)
  {
  }

  /** The jump over the loading of booleans copies nothing. */
  lemma JumpOverPlain(s: Snap, d: Desc, reg: nat, max: nat, nups: nat)
    requires ShapeOk(s, max, nups) && JumpsIn(s.code, d.tl) && JumpsIn(s.code, d.fl) && Apart(d.tl, d.fl)
    ensures ValueJumps(Joined2(s, d, reg).code, JumpOver(s, d)) == {}
  {
    hide CodeFits, PendingOk, NeedsValue;
    if s.code != [] && JumpOver(s, d) != [] {
      NoNewTests(s, d, reg);
      assert !IsTest(s.code[|s.code| - 1]);
    }
  }

  /** The conclusions of `exp2reg` from what its calls have done. */
  lemma JoinAll(m: Machine, s: Snap, d: Desc, sp: Span, a: Span, reg: nat, x: Expr, max: nat, nups: nat, fin: nat,
                pf: int, pt: int, s1: Snap, c2: seq<Instr>, s3: Snap)
    requires Joining(m, s, d, a, reg, x) && ShapeOk(s, max, nups) && sp.start < |s.code| && reg < max
    requires a == sp.(end := |s.code|, to := [], tov := {})
    requires s1 == Snap(s.code + Added(s, d, reg), s.pend + Elems(JumpOver(s, d)), s.k) && fin == |s1.code|
    requires c2 == Patched(s1.code, d.fl, fin, reg, pf) && s3.code == Patched(c2, d.tl, fin, reg, pt)
    requires s3.pend == s1.pend - Elems(d.fl) - Elems(d.tl) && s3.k == s.k
    requires NeedsValue(s.code, d) ==> pf == fin - 2 && pt == fin - 1
    requires forall p :: p in d.fl ==> OffsetOk((if SetsValue(s1.code, p) then fin else pf) - (p + 1))
    requires forall p :: p in d.tl ==> OffsetOk((if SetsValue(c2, p) then fin else pt) - (p + 1))
    ensures ShapeOk(s3, max, nups)
    ensures Claim(m, s3, RegDesc(reg), sp.(end := fin, to := JumpOver(s, d), tov := {}), Operand(x))
    ensures ValueJumps(s3.code, JumpOver(s, d)) == {}
    ensures Grown(s, s3, sp) && BeginsAt(s3.code, sp)
    ensures Own(JumpOver(s, d), sp) && Elems(JumpOver(s, d)) <= s3.pend && Tracked(s3.pend, sp, Elems(JumpOver(s, d)))
  {
    hide ShapeOk, Claim, Patched, BeginsAt, SetsValue, Added, JumpOver, NeedsValue, Joined2;
    JoinedCode(s, d, reg, fin, pf, pt, s1, c2, s3);
    JoinedReach(s, d, reg, fin, pf, pt, c2);
    JoinedShape(s, d, reg, max, nups);
    JoinMeans(m, s, d, a, reg, x, max, nups);
    GrownSpan(s, s3, a, sp);
    JumpOverOwn(s, d, reg, a, sp);
    JumpOverPlain(s, d, reg, max, nups);
  }

  lemma JoinReady(m: Machine, s: Snap, t: int, f: int, d: Desc, sp: Span, reg: nat, x: Expr)
    requires ListsOk(s, [], t, f, d, sp) && Claim(m, s, d, sp, Whole(x)) && d.k == VNONRELOC(reg) && sp.end == |s.code|
    requires sp.to == [] && sp.tov == {}
    requires sp.valued && sp.free <= reg < MAXSTACK
    ensures Joining(m, s, d, sp, reg, x) && IsList(s.code, t, d.tl) && IsList(s.code, f, d.fl) && BeginsAt(s.code, sp)
  {
    ListJumps(s.code, t, d.tl);
    ListJumps(s.code, f, d.fl);
  }

  lemma NoLists(code: seq<Instr>, t: int, f: int, tl: seq<nat>, fl: seq<nat>)
    requires IsList(code, t, tl) && IsList(code, f, fl) && t == f && Apart(tl, fl)
    ensures tl == [] && fl == [] && t == NO_JUMP
  {
    if tl != [] { HeadIn(code, t, tl); }
    if fl != [] { HeadIn(code, f, fl); }
  }

  lemma HeadIn(code: seq<Instr>, head: int, l: seq<nat>)
    requires IsList(code, head, l) && l != []
    ensures head >= 0 && (head as nat) in l
  {
    assert l[0] in l;
  }

  lemma EmptyLists(s: Snap, jl: seq<nat>, reg: nat, a: Span, sp: Span)
    requires Own(jl, sp) && BeginsAt(s.code, sp) && a.start == sp.start && a.from == sp.from && sp.start <= a.end
    requires Tracked(s.pend, sp, Elems(jl))
    ensures ListsOk(s, jl, NO_JUMP, NO_JUMP, RegDesc(reg), a)
  {
    NoList(s.code);
  }

  /** A pending comparison is a list of one jump beside the others. */
  lemma ComparisonLists(s: Snap, t: int, f: int, d: Desc, sp: Span, info: nat)
    requires ListsOk(s, [], t, f, d, sp) && d.k == VJMP(info) && |s.code| == sp.end == info + 1 >= 2
    requires s.code[info] == Jmp(NO_JUMP)
    ensures IsList(s.code, t, d.tl) && IsList(s.code, info, [info]) && IsList(s.code, f, d.fl)
    ensures forall p :: p in d.tl ==> p !in [info]
  {
  }

  lemma LinkedRelinked(s: Snap, s1: seq<nat>, s2: seq<nat>, t: Snap, sp: Span)
    requires JumpsIn(s.code, s1) && Elems(s1) <= s.pend && Own(s1, sp) && BeginsAt(s.code, sp)
    requires s1 != [] ==> s1[|s1| - 1] < |s.code|
    requires t == s.(code := Linked(s.code, s1, s2))
    ensures Relinked(s, t) && Grown(s, t, sp) && BeginsAt(t.code, sp)
  {
    if s1 != [] {
      assert s1[|s1| - 1] in s1;
      assert s1[|s1| - 1] in Elems(s1);
    }
    forall i | 0 <= i < sp.start
      ensures EvolvesAt(s.code, s.pend, t.code, t.pend, Elems(sp.from) * s.pend, i)
    {
    }
  }

  lemma RelinkedShape(s: Snap, t: Snap, max: nat, nups: nat)
    requires ShapeOk(s, max, nups) && Relinked(s, t)
    ensures ShapeOk(t, max, nups)
  {
    forall i | 0 <= i < |t.code|
      ensures FitsAt(t.code, t.pend, max, |t.k|, nups, i)
    {
      assert FitsAt(s.code, s.pend, max, |s.k|, nups, i);
    }
  }

  lemma JoinComparison(m: Machine, s: Snap, s': Snap, t: int, t': int, f: int, d: Desc, sp: Span, reg: nat, x: Expr,
                       max: nat, nups: nat)
    requires ListsOk(s, [], t, f, d, sp) && Claim(m, s, d, sp, Whole(x)) && ShapeOk(s, max, nups) && sp.to == []
      && sp.tov == {}
    requires sp.valued
    requires sp.free <= reg < MAXSTACK
    requires sp.end == |s.code| >= 2 && d.k == VJMP(sp.end - 1) && s.code[sp.end - 2].Cmp? && sp.end - 1 in s.pend
    requires s.code[sp.end - 1] == Jmp(NO_JUMP)
    requires d.tl != [] ==> d.tl[|d.tl| - 1] < |s.code|
    requires s' == s.(code := Linked(s.code, d.tl, [sp.end - 1])) && IsList(s'.code, t', d.tl + [sp.end - 1])
    ensures var d' := d.(tl := d.tl + [sp.end - 1]);
      && Joining(m, s', d', sp, reg, x) && ShapeOk(s', max, nups) && IsList(s'.code, f, d.fl) && Grown(s, s', sp)
      && t' != f
  {
    hide ShapeOk, Claim, Grown, BeginsAt, IsList, Relinked, ListsOk, Linked;
    var info: nat := sp.end - 1;
    var d' := d.(tl := d.tl + [info]);
    OwnOf(s, [], t, f, d, sp);
    ListJumps(s.code, t, d.tl);
    LinkedRelinked(s, d.tl, [info], s', sp);
    RelinkedShape(s, s', max, nups);
    LinkedBeside(s, d.tl, [info], f, d.fl);
    JoinedLists(s, s', t, t', f, d, sp, info);
    TrackedOf(s, [], t, f, d, sp);
    RelinkedInstr(s, s', sp.end - 2);
    ClaimRelinked(m, s, d, s', d', sp, Whole(x));
  }

  lemma TrackedOf(s: Snap, jl: seq<nat>, t: int, f: int, d: Desc, sp: Span)
    requires ListsOk(s, jl, t, f, d, sp)
    ensures Tracked(s.pend, sp, Pending(jl, d))
    ensures d.k.VJMP? ==> Pending(jl, d) == Elems(jl) + Elems(d.tl) + Elems(d.fl) + {d.k.info}
    ensures !d.k.VJMP? ==> Pending(jl, d) == Elems(jl) + Elems(d.tl) + Elems(d.fl)
  {
  }

  lemma OwnOf(s: Snap, jl: seq<nat>, t: int, f: int, d: Desc, sp: Span)
    requires ListsOk(s, jl, t, f, d, sp)
    ensures IsList(s.code, t, d.tl) && IsList(s.code, f, d.fl) && Elems(d.tl) <= s.pend && Elems(d.fl) <= s.pend
    ensures Own(d.tl, sp) && Own(d.fl, sp) && Apart(d.tl, d.fl) && BeginsAt(s.code, sp)
    ensures sp.start <= Settled(d, sp.end)
  {
  }

  lemma RelinkedInstr(s: Snap, t: Snap, i: int)
    requires Relinked(s, t) && 0 <= i < |s.code| && s.code[i].Cmp?
    ensures InstrAt(t.code, i) == InstrAt(s.code, i)
  {
  }

  lemma JoinedLists(s: Snap, s': Snap, t: int, t': int, f: int, d: Desc, sp: Span, info: nat)
    requires ListsOk(s, [], t, f, d, sp) && IsList(s'.code, t', d.tl + [info]) && IsList(s'.code, f, d.fl)
    requires d.k == VJMP(info)
    requires info + 1 == sp.end == |s.code| >= 2 && info in s.pend && s'.pend == s.pend
    ensures var tl := d.tl + [info];
      && JumpsIn(s'.code, tl) && JumpsIn(s'.code, d.fl) && Elems(tl) <= s'.pend && Elems(d.fl) <= s'.pend
      && Apart(tl, d.fl) && Own(tl, sp) && Own(d.fl, sp) && t' != f && sp.start <= Settled(d, sp.end)
  {
    var tl := d.tl + [info];
    ListJumps(s'.code, f, d.fl);
    ListJumps(s'.code, t', tl);
    assert Apart(tl, d.fl);
    NotSameHead(s'.code, t', f, tl, d.fl);
  }

  lemma LinkedBeside(s: Snap, s1: seq<nat>, s2: seq<nat>, head: int, l: seq<nat>)
    requires IsList(s.code, head, l) && Apart(s1, l) && (s1 != [] ==> s1[|s1| - 1] < |s.code|)
    ensures IsList(Linked(s.code, s1, s2), head, l)
  {
    if s1 != [] { assert s1[|s1| - 1] in s1; }
  }

  lemma NotSameHead(code: seq<Instr>, t: int, f: int, tl: seq<nat>, fl: seq<nat>)
    requires IsList(code, t, tl) && IsList(code, f, fl) && Apart(tl, fl) && tl != []
    ensures t != f
  {
    assert tl[0] in tl;
    assert fl != [] ==> fl[0] in fl;
  }

  lemma StartHere(m: Machine, s: Snap, d: Desc, sp: Span, reg: nat, x: Expr)
    requires Joining(m, s, d, sp, reg, x)
    ensures sp.start <= |s.code|
  {
  }

  lemma ListEnds(code: seq<Instr>, head: int, l: seq<nat>)
    requires IsList(code, head, l)
    ensures l != [] ==> l[|l| - 1] < |code|
  {
  }

  lemma ConstantMeans(m: Machine, s: Snap, k: seq<Value>, i: nat, jl: seq<nat>, t: int, f: int, d: Desc, sp: Span,
                      x: Meaning)
    requires ListsOk(s, jl, t, f, d, sp) && Claim(m, s, d, sp, x) && SnapOk(s) && s.k <= k && sp.end == |s.code|
    requires (d.k.VNIL? || d.k.VTRUE? || d.k.VFALSE? || d.k.VKNUM?) && i < |k|
    requires k[i] ==
      match d.k { case VTRUE => Bool(true) case VFALSE => Bool(false) case VKNUM(n) => Num(n) case _ => Nil }
    ensures ListsOk(s.(k := k), jl, t, f, d.(k := VK(i)), sp) && Claim(m, s.(k := k), d.(k := VK(i)), sp, x)
  {
    hide ListsOk, Claim;
    ConstantsMeans(m, s, k, jl, t, f, d, sp, x);
    var s2, d2 := s.(k := k), d.(k := VK(i));
    ListsKind(s2, jl, t, f, d, d2, sp);
    BeginsHere(s2, jl, t, f, d, sp);
    NoTestAt(s2, |s.code|);
    LaterRefl(s2, |s.code|);
    forall w: Frame, r | s2.k <= w.k
      ensures ValueOf(w, r, d2) == ValueOf(w, r, d)
    {
      assert w.k[i] == k[i];
    }
    SameValueTo(m, s2, d, sp, s2, d2);
    ClaimMain(m, s2, d, sp, s2, d2, sp, {}, x);
  }

  // ----- variables -----

  lemma LocalMeans(m: Machine, s: Snap, jl: seq<nat>, t: int, f: int, d: Desc, sp: Span, x: Meaning)
    requires ListsOk(s, jl, t, f, d, sp) && Claim(m, s, d, sp, x) && d.k.VLOCAL? && d.k.info < sp.free
      && SnapOk(s) && sp.end == |s.code|
    ensures ListsOk(s, jl, t, f, d.(k := VNONRELOC(d.k.info)), sp) && Claim(m, s, d.(k := VNONRELOC(d.k.info)), sp, x)
  {
    hide ListsOk, Claim, MainTo;
    var d2 := d.(k := VNONRELOC(d.k.info));
    BeginsHere(s, jl, t, f, d, sp);
    NoTestAt(s, |s.code|);
    LaterRefl(s, |s.code|);
    ListsKind(s, jl, t, f, d, d2, sp);
    SameValueTo(m, s, d, sp, s, d2);
    ClaimMain(m, s, d, sp, s, d2, sp, {}, x);
  }

  lemma UpvalMeans(m: Machine, s: Snap, j: seq<nat>, max: nat, nups: nat, t: int, f: int, d: Desc, sp: Span, x: Meaning)
    requires ShapeOk(s, max, nups) && JumpsHere(s, j) && ListsOk(s, j, t, f, d, sp) && Claim(m, s, d, sp, x)
    requires d.k.VUPVAL? && d.k.info < nups
    requires sp.end == |s.code| && sp.to == j && max > 0
    ensures var s2, d2 := Emit(s, j, GetUpval(0, d.k.info)), d.(k := VRELOCABLE(|s.code|));
      ShapeOk(s2, max, nups) && ListsOk(s2, [], t, f, d2, Coded(sp, 1)) && Claim(m, s2, d2, Coded(sp, 1), x)
          && Grown(s, s2, sp)
  {
    hide ShapeOk, Claim, MainTo, ListsOk, Grown, Emitted, Emit, SnapOk, JumpsIn;
    var i, d2 := GetUpval(0, d.k.info), d.(k := VRELOCABLE(|s.code|));
    BeginsHere(s, j, t, f, d, sp);
    ShapeSnap(s, max, nups);
    EmitLists(s, j, i, max, nups, t, f, d, d2, sp);
    UpvalTo(m, s, j, d, sp, d2, Coded(sp, 1));
    EmitClaim(m, s, j, i, d, sp, d2, x);
  }
}
