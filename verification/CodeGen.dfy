/** The code generator for expressions (lua-5.1/lcode.c). */
module CodeGen {
  import opened LuaVM
  import opened Expressions
  import opened PatchLists
  import opened ExpClaims
  import opened ExpSteps
  import opened ExpOperators
  import opened ExpLogic
  import opened ExpBranches
  import opened ExpValues
  import opened CodeShape
  import opened CodeBranches
  import opened CodeOperators
  import opened CompiledRuns
  import opened CodeChecker
  import ExpressionLaws
  import LostValues

  datatype CompileError = StructureTooLong | TooComplex | ConstantOverflow

  /** `Fail` stands for the source's jump out of the compiler. */
  datatype Status = Ok | Fail(error: CompileError) {
    predicate IsFailure() { Fail? }
    function PropagateFailure(): Status { this }
  }

  /** `expdesc`. The ghost fields are the jumps of the lists `t` and `f`. */
  class ExpDesc {
    var k: ExpKind
    var t: int
    var f: int
    ghost var tl: seq<nat>
    ghost var fl: seq<nat>

    constructor (kind: ExpKind)
      ensures k == kind && t == NO_JUMP && f == NO_JUMP && tl == [] && fl == []
    {
      k, t, f, tl, fl := kind, NO_JUMP, NO_JUMP, [], [];
    }

    ghost function D(): Desc
      reads this
    {
      Desc(k, tl, fl)
    }
  }

  /** `FuncState`. The position `pc` of the source is the length of `code`. */
  class FuncState {
    const m: Machine
    const nactvar: nat
    const nups: nat
    var code: seq<Instr>
    var k: seq<Value>
    var h: map<Value, nat>  // finds constants in `k`
    var lasttarget: int
    var jpc: int
    var freereg: nat
    var maxstacksize: nat
    ghost var jl: seq<nat>  // the jumps of the list `jpc`
    ghost var pend: set<nat>  // all jumps without a target

    /** `open_func`, with the parameters of the function in the first registers. */
    constructor (machine: Machine, params: nat, upvalues: nat)
      requires params < MAXSTACK
      ensures m == machine && nactvar == params && nups == upvalues
      ensures Valid() && Opened()
    {
      m, nactvar, nups := machine, params, upvalues;
      code, k, h, lasttarget, jpc := [], [], map[], -1, NO_JUMP;
      freereg, maxstacksize := params, if params < 2 then 2 else params;
      jl, pend := [], {};
    }

    ghost predicate Opened()
      reads this
    {
      code == [] && k == [] && jl == [] && pend == {} && freereg == nactvar
    }

    ghost function S(): Snap
      reads `code, `pend, `k
    {
      Snap(code, pend, k)
    }

    /** The only reasons for the code generator to give up: a function too long for the
        offsets of its jumps, or one that needs too many registers or constants. */
    ghost predicate Exhausted()
      reads `code, `k, `freereg
    {
      |code| >= MAXARG_SBX || freereg + 1 >= MAXSTACK || |k| >= MAXARG_BX
    }

    // ----- patch lists -----

    method GetJump(pc: nat) returns (next: int)
      requires pc < |code| && code[pc].Jmp?
      ensures next == NextJump(code, pc)
    {
      if code[pc].sbx == NO_JUMP {
        next := NO_JUMP;
      } else {
        next := pc + 1 + code[pc].sbx;
      }
    }

    method FixJump(pc: nat, dest: int) returns (st: Status)
      requires pc < |code| && code[pc].Jmp?
      modifies `code
      ensures st.Ok? ==> code == old(code)[pc := Jmp(dest - (pc + 1))] && OffsetOk(dest - (pc + 1))
      ensures st.Fail? ==> code == old(code) && !OffsetOk(dest - (pc + 1))
      ensures st.Fail? && -1 <= dest <= |code| ==> Exhausted()
    {
      var offset := dest - (pc + 1);
      if !OffsetOk(offset) { return Fail(StructureTooLong); }
      code := code[pc := Jmp(offset)];
      st := Ok;
    }

    /** `getjumpcontrol`: the position of the test of a jump, or of the jump. */
    method GetJumpControl(pc: nat) returns (c: nat)
      requires pc < |code|
      ensures c == if pc >= 1 && IsTest(code[pc - 1]) then pc - 1 else pc
    {
      c := if pc >= 1 && IsTest(code[pc - 1]) then pc - 1 else pc;
    }

    /** `need_value`: whether some jump does not produce a value. */
    method NeedValue(list: int, ghost s: seq<nat>) returns (need: bool)
      requires IsList(code, list, s)
      ensures need <==> exists p :: p in s && !SetsValue(code, p)
    {
      hide IsList;
      var l := list;
      ghost var n := 0;
      FirstInList(code, list, s);
      while l != NO_JUMP
        invariant 0 <= n <= |s| && l == Element(s, n)
        invariant forall i :: 0 <= i < n ==> SetsValue(code, s[i])
        decreases |s| - n
      {
        ListFacts(code, list, s, n);
        assert s[n] in s;
        NextInList(code, list, s, n, code);
        var c := GetJumpControl(l);
        if !code[c].TestSet? {
          return true;
        }
        l := GetJump(l);
        n := n + 1;
      }
      need := false;
    }

    /** `patchtestreg`. */
    method PatchTestReg(node: nat, reg: nat) returns (patched: bool)
      requires node < |code| && code[node].Jmp?
      modifies `code
      ensures patched == SetsValue(old(code), node)
      ensures code == if patched then old(code)[node - 1 := PatchedTest(old(code)[node - 1], reg)] else old(code)
    {
      var c := GetJumpControl(node);
      if !code[c].TestSet? { return false; }
      if reg != NO_REG && reg != code[c].b {
        code := code[c := TestSet(reg, code[c].b, code[c].c)];
      } else {  // the test has no value to copy
        code := code[c := Test(code[c].b, code[c].c)];
      }
      patched := true;
    }

    /** `patchlistaux`. */
    method PatchListAux(list: int, ghost s: seq<nat>, vtarget: int, reg: nat, dtarget: int) returns (st: Status)
      requires IsList(code, list, s)
      modifies `code, `pend
      ensures st.Ok? ==>
        && code == Patched(old(code), s, vtarget, reg, dtarget) && pend == old(pend) - Elems(s)
        && forall p :: p in s ==> OffsetOk((if SetsValue(old(code), p) then vtarget else dtarget) - (p + 1))
      ensures |code| == |old(code)| && (st.Fail? && -1 <= vtarget <= |code| && -1 <= dtarget <= |code| ==> Exhausted())
    {
      hide Patched, IsList, PatchedTest, OffsetOk, Exhausted;
      var l := list;
      ghost var n: nat, c0 := 0, code;
      FirstInList(code, list, s);
      PatchNothing(code, vtarget, reg, dtarget);
      while l != NO_JUMP
        invariant 0 <= n <= |s| && l == Element(s, n)
        invariant IsList(c0, list, s) && code == Patched(c0, s[..n], vtarget, reg, dtarget) && pend == old(pend)
        invariant forall i :: 0 <= i < n ==> OffsetOk((if SetsValue(c0, s[i]) then vtarget else dtarget) - (s[i] + 1))
        decreases |s| - n
      {
        ghost var c1 := code;
        NotPatchedYet(c0, list, s, n, vtarget, reg, dtarget);
        NextInList(c0, list, s, n, c1);
        var next := GetJump(l);
        var patched := PatchTestReg(l, reg);
        :- FixJump(l, if patched then vtarget else dtarget);
        ListFacts(c0, list, s, n);
        PatchOneMore(c0, s[..n], s[n], s[..n + 1], vtarget, reg, dtarget, c1, code);
        n := n + 1;
        l := next;
      }
      assert s[..n] == s;
      pend := pend - Elems(s);
      st := Ok;
    }

    /** `removevalues`. */
    method RemoveValues(list: int, ghost s: seq<nat>)
      requires IsList(code, list, s)
      modifies `code
      ensures code == WithoutValues(old(code), s)
    {
      hide IsList, SetsValue, PatchedTest;
      var l := list;
      ghost var n: nat, c0 := 0, code;
      FirstInList(code, list, s);
      assert code == WithoutValues(c0, s[..0]);
      while l != NO_JUMP
        invariant 0 <= n <= |s| && l == Element(s, n)
        invariant IsList(c0, list, s) && code == WithoutValues(c0, s[..n])
        decreases |s| - n
      {
        ghost var c1 := code;
        ListFacts(c0, list, s, n);
        assert code[s[n]] == c0[s[n]];
        var _ := PatchTestReg(l, NO_REG);
        RemoveOne(c0, list, s, n, c1, code);
        NextInList(c0, list, s, n, code);
        l := GetJump(l);
        n := n + 1;
      }
      assert s[..n] == s;
    }

    /** `luaK_concat`. */
    method Concat(l1: int, l2: int, ghost s1: seq<nat>, ghost s2: seq<nat>) returns (st: Status, l: int)
      requires IsList(code, l1, s1) && IsList(code, l2, s2) && forall p :: p in s1 ==> p !in s2
      modifies `code
      ensures st.Ok? ==> IsList(code, l, s1 + s2)
      ensures st.Ok? ==> code == Linked(old(code), s1, s2)
      ensures st.Fail? ==> Exhausted()
    {
      hide IsList;
      st, l := Ok, l1;
      FirstInList(code, l1, s1);
      FirstInList(code, l2, s2);
      if l2 == NO_JUMP {
        assert s1 + s2 == s1;
      } else if l1 == NO_JUMP {
        l := l2;
        assert s1 + s2 == s2;
      } else {
        var list := l1;
        ghost var n := 0;
        ListJumps(code, l1, s1);
        assert forall i :: 0 <= i < |s1| ==> s1[i] in s1;
        NextInList(code, l1, s1, 0, code);
        var next := GetJump(list);
        while next != NO_JUMP
          invariant 0 <= n < |s1| && list == s1[n] && next == Element(s1, n + 1) && code == old(code)
          decreases |s1| - n
        {
          list := next;
          n := n + 1;
          NextInList(code, l1, s1, n, code);
          next := GetJump(list);
        }
        ghost var c0 := code;
        ListJumps(code, l2, s2);
        assert s2[0] in s2;
        :- FixJump(list, l2);
        JoinedList(c0, l1, l2, s1, s2, code);
      }
    }

    // ----- emitting code -----

    /** `luaK_code`, with `dischargejpc`. */
    method Code(i: Instr) returns (st: Status, pc: nat)
      requires IsList(code, jpc, jl)
      modifies `code, `pend, `jpc, `jl
      ensures st.Ok? ==>
        && pc == |old(code)| && code == Emitted(old(code), old(jl), i) && pend == old(pend) - Elems(old(jl))
        && jpc == NO_JUMP && jl == []
        && forall p :: p in old(jl) ==> OffsetOk(pc - (p + 1))
      ensures st.Fail? ==> Exhausted()
    {
      hide IsList, Patched, SetsValue;
      pc := |code|;
      :- PatchListAux(jpc, jl, |code|, NO_REG, |code|);
      jpc, jl := NO_JUMP, [];
      st := Ok;
      code := code + [i];
    }

    /** `luaK_jump`: the jumps that were to lead here join the new one. */
    method Jump() returns (st: Status, j: int)
      requires IsList(code, jpc, jl)
      modifies `code, `pend, `jpc, `jl
      ensures st.Ok? ==>
        && IsList(code, j, [|old(code)|] + old(jl)) && pend == old(pend) + {|old(code)|}
        && |code| == |old(code)| + 1 && code[..|old(code)|] == old(code)
        && (old(jl) == [] ==> code == old(code) + [Jmp(NO_JUMP)])
        && jpc == NO_JUMP && jl == []
      ensures st.Fail? ==> Exhausted()
    {
      hide IsList;
      EmptyList(code);
      var saved := jpc;
      j := |code|;
      ghost var s, c0 := jl, code;
      jpc, jl := NO_JUMP, [];
      var pc :- Code(Jmp(NO_JUMP));
      assert code == c0 + [Jmp(NO_JUMP)] by { PatchNothing(c0, |c0|, NO_REG, |c0|); }
      pend := pend + {pc};
      assert Elems([]) == {};
      ListAppended(c0, saved, s, Jmp(NO_JUMP));
      OneJump(code, pc);
      j :- Concat(pc, saved, [pc], s);
      st := Ok;
    }

    /** `condjump`. */
    method CondJump(i: Instr) returns (st: Status, j: nat)
      requires IsList(code, jpc, jl)
      modifies `code, `pend, `jpc, `jl
      ensures st.Ok? ==>
        && j == |old(code)| + 1 && code == EmitTest(old(S()), old(jl), i).code
        && pend == EmitTest(old(S()), old(jl), i).pend
        && IsList(code, j, [j]) && jpc == NO_JUMP && jl == []
        && forall p :: p in old(jl) ==> OffsetOk(|old(code)| - (p + 1))
      ensures st.Fail? ==> Exhausted()
    {
      hide Emitted, IsList;
      j := |code| + 1;
      var pc :- Code(i);
      NoList(code);
      var x :- Jump();
      assert [|code| - 1] + [] == [|code| - 1];
      FirstInList(code, x, [|code| - 1]);
      st := Ok;
    }

    /** `luaK_getlabel`. */
    method GetLabel() returns (pc: nat)
      modifies `lasttarget
      ensures pc == |code| == lasttarget
    {
      lasttarget := |code|;
      pc := |code|;
    }

    /** `luaK_patchtohere`. */
    method PatchToHere(list: int, ghost s: seq<nat>) returns (st: Status)
      requires IsList(code, jpc, jl) && IsList(code, list, s) && forall p :: p in jl ==> p !in s
      modifies `code, `jpc, `jl, `lasttarget
      ensures st.Ok? ==> IsList(code, jpc, jl) && jl == old(jl) + s && lasttarget == |code|
      ensures st.Ok? ==> code == Linked(old(code), old(jl), s)
      ensures st.Fail? ==> Exhausted()
    {
      var _ := GetLabel();
      jpc :- Concat(jpc, list, jl, s);
      jl := jl + s;
      st := Ok;
    }

    // ----- expressions under construction -----

    ghost predicate Valid()
      reads this
    {
      && ShapeOk(S(), maxstacksize, nups) && IsList(code, jpc, jl) && Elems(jl) <= pend
      && (jl != [] ==> lasttarget == |code|) && lasttarget <= |code|
      && (forall v :: v in h ==> h[v] < |k| && k[h[v]] == v)
      && nactvar <= freereg <= maxstacksize <= MAXSTACK && 2 <= maxstacksize && |k| <= MAXARG_BX
    }

    /** Code for the expression does not end in an instruction that `luaK_nil` could extend.
        Where the expression has no code yet, such an instruction is the only way to here. */
    ghost predicate TailKnown(sp: Span)
      reads `code, `lasttarget
    {
      TailFits(code, lasttarget, sp)
    }

    ghost function At(sp: Span): Span
      reads `code, `jl
    {
      sp.(end := |code|, to := jl, tov := ValueJumps(code, jl))
    }

    ghost predicate KindOk(kind: ExpKind)
      reads this
    {
      match kind
      case VK(i) => i < |k|
      case VKNUM(n) => !m.isnan(n)
      case VLOCAL(i) => i < nactvar
      case VUPVAL(i) => i < nups
      case VJMP(i) => |code| == i + 1 >= 2 && code[i] == Jmp(NO_JUMP) && code[i - 1].Cmp? && code[i - 1].a <= 1
          && i in pend && jl == []
      case VRELOCABLE(i) => |code| == i + 1 && IsReloc(code[i]) && jl == []
      case VNONRELOC(i) => i < freereg
      case _ => true
    }

    /** The descriptor and its lists describe what `x` means. */
    ghost predicate Describes(e: ExpDesc, sp: Span, x: Meaning)
      reads `code, `pend, `k, `jl, e
    {
      ListsOk(S(), jl, e.t, e.f, e.D(), At(sp)) && Claim(m, S(), e.D(), At(sp), x) && nactvar <= sp.free
    }

    /** What a kind of descriptor tells of the main value. */
    ghost function KindForm(kind: ExpKind): Form
      reads `code, `k
    {
      match kind
      case VNIL => Literal(Nil)
      case VTRUE => Literal(Bool(true))
      case VFALSE => Literal(Bool(false))
      case VK(i) => if i < |k| then Literal(k[i]) else General
      case VKNUM(n) => Literal(Num(n))
      case VLOCAL(_) => Variable
      case VNONRELOC(_) => Variable
      case VUPVAL(_) => General
      case VJMP(_) => Boolean
      case VRELOCABLE(i) => if i < |code| && code[i].Not? then Boolean else General
    }

    /** The lists are empty exactly when the expression has no jumps to leave by. */
    ghost predicate ListsKnown(e: ExpDesc, x: Expr)
      reads e
    {
      (e.tl != [] <==> HasJumps(m, x, true)) && (e.fl != [] <==> HasJumps(m, x, false))
    }

    /** Kind and lists are those that the expression leads to. */
    ghost predicate Known(e: ExpDesc, x: Expr)
      reads `code, `k, e
    {
      FormOf(m, x) == KindForm(e.k) && ListsKnown(e, x)
    }

    /** As expressions are when they have just been read. */
    ghost predicate Fresh(e: ExpDesc, sp: Span, x: Expr)
      reads this, e
    {
      && Describes(e, sp, Whole(x)) && KindOk(e.k) && freereg == sp.free && Known(e, x)
      && (e.k.VK? ==> k[e.k.info].Str?) && (e.k.VNONRELOC? ==> e.k.info < nactvar)
    }

    lemma HereOk(e: ExpDesc, sp: Span, x: Meaning)
      requires Valid() && Describes(e, sp, x)
      ensures SnapOk(S())
      ensures forall p :: p in jl ==> p < |code| && code[p].Jmp?
    {
      ShapeSnap(S(), maxstacksize, nups);
      ListJumps(code, jpc, jl);
    }

    // ----- registers and constants -----

    /** `luaK_reserveregs`, with `luaK_checkstack`. */
    method ReserveRegs(n: nat) returns (st: Status)
      requires Valid()
      modifies `freereg, `maxstacksize
      ensures st.Ok? ==> Valid() && freereg == old(freereg) + n && freereg <= MAXSTACK
      ensures st.Fail? ==> freereg == old(freereg) && freereg + n >= MAXSTACK
    {
      var newstack := freereg + n;
      if newstack > maxstacksize {
        if newstack >= MAXSTACK { return Fail(TooComplex); }
        FitsMore(S(), maxstacksize, nups, newstack, k);
        assert S().(k := k) == S();
        maxstacksize := newstack;
      }
      freereg := newstack;
      st := Ok;
    }

    /** `freereg` of the source: registers are freed in the order of a stack. */
    method FreeReg(reg: nat)
      requires Valid() && (!IsK(reg) && reg >= nactvar ==> reg + 1 == freereg)
      modifies `freereg
      ensures Valid() && freereg == if !IsK(reg) && reg >= nactvar then old(freereg) - 1 else old(freereg)
    {
      if !IsK(reg) && reg >= nactvar { freereg := freereg - 1; }
    }

    /** `freeexp`. */
    method FreeExp(e: ExpDesc)
      requires Valid() && (e.k.VNONRELOC? && e.k.info >= nactvar ==> e.k.info + 1 == freereg)
      modifies `freereg
      ensures Valid() && freereg == if e.k.VNONRELOC? && e.k.info >= nactvar then old(freereg) - 1 else old(freereg)
    {
      if e.k.VNONRELOC? { FreeReg(e.k.info); }
    }

    /** `addk`: a constant is not entered twice. */
    method AddK(v: Value) returns (st: Status, i: nat)
      requires Valid()
      modifies `k, `h
      ensures st.Ok? ==> Valid() && i < |k| && k[i] == v && old(k) <= k && |k| <= |old(k)| + 1
      ensures st.Fail? ==> Exhausted()
    {
      i := 0;
      if v in h {
        i := h[v];
      } else {
        if |k| >= MAXARG_BX { return Fail(ConstantOverflow), 0; }
        i := |k|;
        FitsMore(S(), maxstacksize, nups, maxstacksize, k + [v]);
        h := h[v := i];
        k := k + [v];
      }
      st := Ok;
    }

    // ----- bringing values into registers -----

    /** `luaK_dischargevars`: afterwards there is one value available somewhere. */
    method DischargeVars(e: ExpDesc, ghost sp: Span, ghost x: Meaning) returns (st: Status)
      requires Valid() && Describes(e, sp, x) && KindOk(e.k)
      modifies `code, `pend, `jpc, `jl, e`k
      ensures st.Ok? ==> Valid() && Describes(e, sp, x) && KindOk(e.k) && Grown(old(S()), S(), sp)
      ensures st.Ok? && !old(e.k).VUPVAL? ==> S() == old(S()) && jl == old(jl) && jpc == old(jpc)
      ensures st.Ok? ==>
        if old(e.k).VLOCAL? then e.k == VNONRELOC(old(e.k).info)
        else if old(e.k).VUPVAL? then e.k.VRELOCABLE? && e.k.info < |code| && code[e.k.info].GetUpval?
        else e.k == old(e.k)
      ensures st.Ok? && old(TailKnown(sp)) ==> TailKnown(sp)
      ensures st.Fail? ==> Exhausted()
    {
      hide ShapeOk, IsList, Claim, MainTo, ListsOk, Grown, Emitted, Evolves;
      st := Ok;
      HereOk(e, sp, x);
      GrownHere(e, sp, x);
      if e.k.VLOCAL? {
        LocalMeans(m, S(), jl, e.t, e.f, e.D(), At(sp), x);
        e.k := VNONRELOC(e.k.info);
      } else if e.k.VUPVAL? {
        :- CodeUpval(e, sp, x);
      }
    }

    method CodeUpval(e: ExpDesc, ghost sp: Span, ghost x: Meaning) returns (st: Status)
      requires Valid() && Describes(e, sp, x) && KindOk(e.k) && e.k.VUPVAL?
      modifies `code, `pend, `jpc, `jl, e`k
      ensures st.Ok? ==>
        && Valid() && Describes(e, sp, x) && KindOk(e.k) && Grown(old(S()), S(), sp) && e.k.VRELOCABLE? && TailKnown(sp)
        && code[e.k.info].GetUpval?
      ensures st.Fail? ==> Exhausted()
    {
      hide ShapeOk, IsList, Claim, ListsOk, Grown, Emitted, SnapOk, JumpsIn, Reach;
      ghost var s, d, j, a := S(), e.D(), jl, At(sp);
      ListJumps(code, jpc, jl);
      StartsBefore(e, sp, x);
      var pc :- Code(GetUpval(0, e.k.info));
      JumpsReach(s, j, pc);
      UpvalMeans(m, s, j, maxstacksize, nups, e.t, e.f, d, a, x);
      e.k := VRELOCABLE(pc);
      GrownSpan(s, S(), a, sp);
      NoList(code);
      st := Ok;
    }

    /** `luaK_nil`. */
    method CodeNil(from: nat, n: nat) returns (st: Status)
      requires IsList(code, jpc, jl) && n > 0
      modifies `code, `pend, `jpc, `jl
      ensures st.Ok? ==> NilCoded(old(S()), old(jl), lasttarget, LoadNil(from, from + n - 1), S())
      ensures st.Ok? ==>
        if S() == Emit(old(S()), old(jl), LoadNil(from, from + n - 1)) then jpc == NO_JUMP && jl == []
            && Reach(old(jl), |old(code)|)
                         else jpc == old(jpc) && jl == old(jl)
      ensures st.Fail? ==> Exhausted()
    {
      hide Emitted, IsList;
      if |code| > lasttarget {  // every run comes here from the instruction before
        if code == [] { return Ok; }  // at the start, registers of its own are nil
        var last := |code| - 1;
        if code[last].LoadNil? {
          var pfrom, pto := code[last].a, code[last].b;
          if pfrom <= from && from <= pto + 1 {  // the two ranges touch
            if from + n - 1 > pto { code := code[last := LoadNil(pfrom, from + n - 1)]; }
            return Ok;
          }
        }
      }
      var _ :- Code(LoadNil(from, from + n - 1));
      st := Ok;
    }

    /** One instruction that loads the main value of an expression. */
    method CodeLoad(e: ExpDesc, i: Instr, reg: nat, ghost sp: Span, ghost x: Expr) returns (st: Status)
      requires Valid() && Describes(e, sp, Whole(x)) && LoadsValue(i, reg, e.D(), k) && reg == sp.free < maxstacksize
      requires Fits(i, false, maxstacksize, |k|, nups)
      modifies `code, `pend, `jpc, `jl, e`k
      ensures st.Ok? ==>
        && Valid() && Describes(e, sp, Whole(x)) && e.k == VNONRELOC(reg) && jl == []
        && Grown(old(S()), S(), sp)
      ensures st.Ok? && !i.LoadNil? ==> TailKnown(sp)
      ensures st.Fail? ==> Exhausted()
    {
      hide ShapeOk, IsList, Claim, ListsOk, Grown, Emitted, Fits, LoadsValue, SnapOk, JumpsIn, Reach;
      ghost var s, j, d, a := S(), jl, e.D(), At(sp);
      ListJumps(code, jpc, jl);
      StartsBefore(e, sp, Whole(x));
      var pc :- Code(i);
      JumpsReach(s, j, pc);
      LoadMeans(m, s, j, i, reg, maxstacksize, nups, e.t, e.f, d, a, Whole(x));
      e.k := VNONRELOC(reg);
      GrownSpan(s, S(), a, sp);
      NoList(code);
      st := Ok;
    }

    method DischargeNil(e: ExpDesc, reg: nat, ghost sp: Span, ghost x: Expr) returns (st: Status)
      requires Valid() && Describes(e, sp, Whole(x)) && e.k.VNIL? && TailKnown(sp) && reg == sp.free < maxstacksize
      modifies `code, `pend, `jpc, `jl, e`k
      ensures st.Ok? ==>
        && Valid() && Describes(e, sp, Whole(x)) && e.k == VNONRELOC(reg) && jl == []
        && Grown(old(S()), S(), sp)
      ensures st.Fail? ==> Exhausted()
    {
      hide ShapeOk, Claim, ListsOk, Grown, Emitted, IsList;
      ghost var s, j, d, a := S(), jl, e.D(), At(sp);
      HereOk(e, sp, Whole(x));
      ListJumps(code, jpc, jl);
      StartsBefore(e, sp, Whole(x));
      :- CodeNil(reg, 1);
      e.k := VNONRELOC(reg);
      if |code| == |s.code| {
        NilUnemitted(s, j, lasttarget, reg, S(), a);
        NilMeans(m, s, S(), j, reg, e.t, e.f, d, a, Whole(x), maxstacksize, nups);
        FirstInList(s.code, jpc, jl);
        NoList(code);
      } else {
        NilEmitted(s, j, lasttarget, LoadNil(reg, reg), S());
        JumpsReach(s, j, |s.code|);
        LoadMeans(m, s, j, LoadNil(reg, reg), reg, maxstacksize, nups, e.t, e.f, d, a, Whole(x));
        NoList(code);
      }
      GrownSpan(s, S(), a, sp);
      st := Ok;
    }

    method RelocTarget(e: ExpDesc, reg: nat, ghost sp: Span, ghost x: Expr)
      requires Valid() && Describes(e, sp, Whole(x)) && e.k.VRELOCABLE? && KindOk(e.k) && reg == sp.free < maxstacksize
      modifies `code, e`k
      ensures Valid() && Describes(e, sp, Whole(x)) && e.k == VNONRELOC(reg) && Grown(old(S()), S(), sp)
        && TailKnown(sp)
    {
      hide ShapeOk, Claim, ListsOk, Grown, IsList;
      ghost var s, d, a := S(), e.D(), At(sp);
      var pc := e.k.info;
      HereOk(e, sp, Whole(x));
      BeginsHere(s, [], e.t, e.f, d, a);
      TargetShape(s, pc, reg, maxstacksize, nups, e.t, e.f, d, d.(k := VNONRELOC(reg)), a);
      TargetClaim(m, s, d, a, reg, Whole(x));
      code := code[pc := WithTarget(code[pc], reg)];
      e.k := VNONRELOC(reg);
      GrownSpan(s, S(), a, sp);
      FirstInList(s.code, jpc, jl);
      NoList(code);
    }

    /** `luaK_numberK`, for a number of an expression. */
    method NumberK(e: ExpDesc, n: Number, ghost sp: Span, ghost x: Expr) returns (st: Status, i: nat)
      requires Valid() && Describes(e, sp, Whole(x)) && !e.k.VJMP? && !e.k.VRELOCABLE?
      modifies `k, `h
      ensures st.Ok? ==>
        && Valid() && Describes(e, sp, Whole(x)) && i < |k| && k[i] == Num(n) && old(k) <= k && |k| <= |old(k)| + 1
      ensures st.Fail? ==> Exhausted()
    {
      hide ShapeOk, Claim, ListsOk, IsList;
      ghost var s := S();
      HereOk(e, sp, Whole(x));
      i :- AddK(Num(n));
      ConstantsMeans(m, s, k, jl, e.t, e.f, e.D(), At(sp), Whole(x));
      st := Ok;
    }

    /** Whether a kind stands for a constant that the function need not have yet. */
    static function Unspent(kind: ExpKind): nat {
      if kind.VNIL? || kind.VTRUE? || kind.VFALSE? || kind.VKNUM? then 1 else 0
    }

    /** `discharge2reg` for a value that is available somewhere. A comparison stays as it is. */
    method AvailableToReg(e: ExpDesc, reg: nat, ghost sp: Span, ghost x: Expr) returns (st: Status)
      requires Valid() && Describes(e, sp, Whole(x)) && KindOk(e.k) && TailKnown(sp)
      requires reg == sp.free < maxstacksize && (e.k.VNONRELOC? ==> e.k.info != reg) && !e.k.VLOCAL? && !e.k.VUPVAL?
      modifies `code, `pend, `jpc, `jl, `k, `h, e`k
      ensures st.Ok? ==> Valid() && Describes(e, sp, Whole(x)) && Grown(old(S()), S(), sp) && jl == []
      ensures st.Ok? ==>
        if old(e.k).VJMP? then e.k == old(e.k) && KindOk(e.k) && S() == old(S()) else e.k == VNONRELOC(reg)
      ensures st.Ok? && !old(e.k).VNIL? ==> TailKnown(sp)
      ensures st.Ok? ==> |k| <= |old(k)| + Unspent(old(e.k)) && (!old(e.k).VKNUM? ==> k == old(k))
      ensures st.Fail? ==> Exhausted()
    {
      hide Valid, Describes, Grown, Emitted;
      ghost var s1 := S();
      RegsOk();
      GrownHere(e, sp, Whole(x));
      match e.k {
        case VNIL => :- DischargeNil(e, reg, sp, x);
        case VFALSE => :- CodeLoad(e, LoadBool(reg, 0, 0), reg, sp, x);
        case VTRUE => :- CodeLoad(e, LoadBool(reg, 1, 0), reg, sp, x);
        case VK(i) => :- CodeLoad(e, LoadK(reg, i), reg, sp, x);
        case VKNUM(n) =>
          var i :- NumberK(e, n, sp, x);
          ConstantsGrown(s1, S(), sp);
          ghost var s2 := S();
          :- CodeLoad(e, LoadK(reg, i), reg, sp, x);
          GrownTrans(s1, s2, S(), sp);
        case VRELOCABLE(_) => RelocTarget(e, reg, sp, x);
        case VNONRELOC(i) =>
          if reg != i { :- CodeLoad(e, Move(reg, i), reg, sp, x); }
        case _ =>  // a comparison stays as it is
      }
      st := Ok;
    }

    /** `discharge2reg`. A comparison stays as it is. */
    method Discharge2Reg(e: ExpDesc, reg: nat, ghost sp: Span, ghost x: Expr) returns (st: Status)
      requires Valid() && Describes(e, sp, Whole(x)) && KindOk(e.k) && TailKnown(sp)
      requires reg == sp.free < maxstacksize && (e.k.VNONRELOC? ==> e.k.info != reg)
      modifies `code, `pend, `jpc, `jl, `k, `h, e`k
      ensures st.Ok? ==> Valid() && Describes(e, sp, Whole(x)) && Grown(old(S()), S(), sp) && jl == []
      ensures st.Ok? ==>
        if old(e.k).VJMP? then e.k == old(e.k) && KindOk(e.k) && S() == old(S()) else e.k == VNONRELOC(reg)
      ensures st.Ok? && !old(e.k).VNIL? ==> TailKnown(sp)
      ensures st.Ok? ==> |k| <= |old(k)| + Unspent(old(e.k)) && (!old(e.k).VKNUM? ==> k == old(k))
      ensures st.Fail? ==> Exhausted()
    {
      hide Valid, Describes, Grown, Emitted;
      ghost var s0 := S();
      RegsOk();
      :- DischargeVars(e, sp, Whole(x));
      ghost var s1 := S();
      GrownHere(e, sp, Whole(x));
      :- AvailableToReg(e, reg, sp, x);
      GrownTrans(s0, s1, S(), sp);
      st := Ok;
    }

    // ----- joining both ways of an expression -----

    /** `code_label`. */
    method CodeLabel(a: nat, b: nat, jump: nat) returns (st: Status, pc: nat)
      requires jpc == NO_JUMP && jl == []
      modifies `code, `pend, `jpc, `jl, `lasttarget
      ensures st.Ok? ==>
        && pc == |old(code)| && code == old(code) + [LoadBool(a, b, jump)] && pend == old(pend) && jpc == NO_JUMP
        && jl == []
      ensures st.Fail? ==> Exhausted()
    {
      NoList(code);
      EmittedNothing(code, LoadBool(a, b, jump));
      pc := GetLabel();
      pc :- Code(LoadBool(a, b, jump));
      st := Ok;
    }

    /** The part of `exp2reg` that loads booleans for jumps that bring no value. */
    method LoadBooleans(jump: bool, reg: nat) returns (st: Status, pf: int, pt: int)
      requires jpc == NO_JUMP && jl == []
      modifies `code, `pend, `jpc, `jl, `lasttarget
      ensures st.Ok? ==>
        && code == old(code) + BooleanLoads(jump, reg)
        && pend == (if jump then old(pend) + {|old(code)|} else old(pend))
        && jl == (if jump then [|old(code)|] else []) && IsList(code, jpc, jl)
        && pf == |code| - 2 && pt == |code| - 1
      ensures st.Fail? ==> Exhausted()
    {
      hide IsList;
      pf, pt := NO_JUMP, NO_JUMP;
      ghost var c0 := code;
      NoList(code);
      var fj := NO_JUMP;
      if jump {
        fj :- Jump();
        assert [|c0|] + [] == [|c0|];
        ListExtended(code, [LoadBool(reg, 0, 1)], fj, [|c0|]);
      }
      pf :- CodeLabel(reg, 0, 1);
      if jump { ListExtended(code, [LoadBool(reg, 1, 0)], fj, [|c0|]); }
      pt :- CodeLabel(reg, 1, 0);
      assert code == c0 + BooleanLoads(jump, reg);
      NoList(code);
      ghost var l := if jump then [|c0|] else [];
      assert [] + l == l;
      :- PatchToHere(fj, l);
      st := Ok;
    }

    /** Registers and constants in order. */
    ghost predicate StoreOk()
      reads this
    {
      && (forall v :: v in h ==> h[v] < |k| && k[h[v]] == v) && |k| <= MAXARG_BX
      && nactvar <= freereg <= maxstacksize <= MAXSTACK && 2 <= maxstacksize && lasttarget <= |code|
    }

    /** The main value is in register `reg`, or is a comparison in the list `t`. */
    ghost predicate ToJoin(e: ExpDesc, reg: nat, sp: Span, x: Expr)
      reads this, e
    {
      && Joining(m, S(), e.D(), At(sp), reg, x) && ShapeOk(S(), maxstacksize, nups) && IsList(code, e.t, e.tl)
      && IsList(code, e.f, e.fl)
      && StoreOk() && jpc == NO_JUMP && jl == [] && reg == sp.free < maxstacksize && nactvar <= sp.free
    }

    /** A descriptor whose value is in register `reg`, whatever decided it. */
    ghost predicate Settles(e: ExpDesc, reg: nat)
      reads e
    {
      e.k == VNONRELOC(reg) && e.t == NO_JUMP && e.f == NO_JUMP && e.tl == [] && e.fl == []
    }

    /** The booleans that `exp2reg` loads when some jump does not produce a value. */
    method LoadNeeded(e: ExpDesc, reg: nat) returns (st: Status, pf: int, pt: int)
      requires IsList(code, e.t, e.tl) && IsList(code, e.f, e.fl) && jpc == NO_JUMP && jl == []
      modifies `code, `pend, `jpc, `jl, `lasttarget
      ensures st.Ok? ==>
        && code == old(code) + Added(old(S()), e.D(), reg) && pend == old(pend) + Elems(jl)
        && jl == JumpOver(old(S()), e.D()) && IsList(code, jpc, jl)
        && (NeedsValue(old(code), e.D()) ==> pf == |code| - 2 && pt == |code| - 1)
        && -1 <= pf <= |code| && -1 <= pt <= |code|
      ensures st.Fail? ==> Exhausted()
    {
      hide IsList, SetsValue, Exhausted;
      pf, pt := NO_JUMP, NO_JUMP;
      var needT := NeedValue(e.t, e.tl);
      var needF := NeedValue(e.f, e.fl);
      if needT || needF {
        pf, pt :- LoadBooleans(!e.k.VJMP?, reg);
      } else {
        NoList(code);
        assert code + Added(S(), e.D(), reg) == code;
      }
      st := Ok;
    }

    /** Both lists are patched to `final`, or to the booleans that lead there. */
    method PatchTwo(e: ExpDesc, reg: nat, final: nat, pf: int, pt: int) returns (st: Status)
      requires IsList(code, e.f, e.fl) && IsList(Patched(code, e.fl, final, reg, pf), e.t, e.tl)
      modifies `code, `pend
      ensures st.Ok? ==>
        var c1 := Patched(old(code), e.fl, final, reg, pf);
        && code == Patched(c1, e.tl, final, reg, pt) && pend == old(pend) - Elems(e.fl) - Elems(e.tl)
        && (forall p :: p in e.fl ==> OffsetOk((if SetsValue(old(code), p) then final else pf) - (p + 1)))
        && (forall p :: p in e.tl ==> OffsetOk((if SetsValue(c1, p) then final else pt) - (p + 1)))
      ensures |code| == |old(code)|
      ensures st.Fail? && final <= |code| && -1 <= pf <= |code| && -1 <= pt <= |code| ==> Exhausted()
    {
      hide IsList, Patched, SetsValue;
      :- PatchListAux(e.f, e.fl, final, reg, pf);
      :- PatchListAux(e.t, e.tl, final, reg, pt);
      st := Ok;
    }

    /** The part of `exp2reg` that patches both lists to the end of the expression. */
    method PatchBoth(e: ExpDesc, reg: nat, ghost sp: Span, ghost x: Expr) returns (st: Status)
      requires ToJoin(e, reg, sp, x) && e.t != e.f
      modifies `code, `pend, `jpc, `jl, `lasttarget
      ensures st.Ok? ==>
        && ShapeOk(S(), maxstacksize, nups) && Claim(m, S(), RegDesc(reg), At(sp), Operand(x))
        && Grown(old(S()), S(), sp)
        && BeginsAt(code, sp)
        && lasttarget == |code| >= |old(code)| && IsList(code, jpc, jl) && Elems(jl) <= pend && Own(jl, sp)
        && Tracked(pend, sp, Elems(jl))
      ensures st.Fail? ==> Exhausted()
    {
      hide ShapeOk, IsList, Claim, Patched, BeginsAt, SetsValue, BooleanLoads, Grown, Added, JumpOver, NeedsValue,
           Tracked, Own;
      ghost var s, d, a := S(), e.D(), At(sp);
      SomeJump(code, e.t, e.f, e.tl, e.fl);
      var pf, pt :- LoadNeeded(e, reg);
      ghost var s1 := S();
      ListExtended(s.code, Added(s, d, reg), e.f, e.fl);
      var final := GetLabel();
      JoinBeside(s, d, reg, final, pf, e.t, jpc, jl);
      ghost var c2 := Patched(code, e.fl, final, reg, pf);
      :- PatchTwo(e, reg, final, pf, pt);
      ListBeside(c2, e.tl, final, reg, pt, jpc, jl);
      JoinAll(m, s, d, sp, a, reg, x, maxstacksize, nups, final, pf, pt, s1, c2, S());
      st := Ok;
    }

    method JoinLists(e: ExpDesc, reg: nat, ghost sp: Span, ghost x: Expr) returns (st: Status)
      requires ToJoin(e, reg, sp, x) && e.t != e.f
      modifies `code, `pend, `jpc, `jl, `lasttarget, e
      ensures st.Ok? ==>
        && Valid() && Describes(e, sp, Operand(x)) && Settles(e, reg) && Grown(old(S()), S(), sp)
        && lasttarget == |code|
      ensures st.Fail? ==> Exhausted()
    {
      hide ShapeOk, IsList, Claim, BeginsAt, Grown, Joining, ListsOk, Own;
      ghost var a := At(sp);
      StartHere(m, S(), e.D(), a, reg, x);
      ghost var s := S();
      :- PatchBoth(e, reg, sp, x);
      EmptyLists(S(), jl, reg, At(sp), sp);
      e.f, e.t, e.fl, e.tl := NO_JUMP, NO_JUMP, [], [];
      e.k := VNONRELOC(reg);
      st := Ok;
    }

    /** The pending comparison joins the jumps of the true list. */
    method JumpToTrue(e: ExpDesc, reg: nat, ghost sp: Span, ghost x: Expr) returns (st: Status)
      requires Valid() && Describes(e, sp, Whole(x)) && e.k.VJMP? && KindOk(e.k) && reg == sp.free < maxstacksize
        && sp.valued
      modifies `code, e`t, e`tl
      ensures st.Ok? ==> ToJoin(e, reg, sp, x) && Grown(old(S()), S(), sp) && e.t != e.f && e.k == old(e.k)
      ensures st.Fail? ==> Exhausted()
    {
      hide ShapeOk, Claim, ListsOk, Grown, Joining, IsList;
      ghost var s, d, a := S(), e.D(), At(sp);
      var info := e.k.info;
      HereOk(e, sp, Whole(x));
      ComparisonLists(s, e.t, e.f, d, a, info);
      ListEnds(code, e.t, e.tl);
      e.t :- Concat(e.t, info, e.tl, [info]);
      e.tl := e.tl + [info];
      JoinComparison(m, s, S(), old(e.t), e.t, e.f, d, a, reg, x, maxstacksize, nups);
      GrownSpan(s, S(), a, sp);
      FirstInList(s.code, jpc, jl);
      st := Ok;
    }

    lemma ReadyToJoin(e: ExpDesc, reg: nat, sp: Span, x: Expr)
      requires Valid() && Describes(e, sp, Whole(x)) && e.k == VNONRELOC(reg) && reg == sp.free < maxstacksize
        && sp.valued
      requires jl == []
      ensures ToJoin(e, reg, sp, x)
      ensures e.t == e.f ==> Settles(e, reg) && Describes(e, sp, Operand(x))
      ensures Grown(S(), S(), sp)
    {
      JoinReady(m, S(), e.t, e.f, e.D(), At(sp), reg, x);
      FirstInList(code, jpc, jl);
      GrownRefl(S(), At(sp));
      GrownSpan(S(), S(), At(sp), sp);
      if e.t == e.f {
        NoLists(code, e.t, e.f, e.tl, e.fl);
        ClaimOperand(m, S(), e.D(), At(sp), x);
      }
    }

    /** `exp2reg`. */
    method Exp2Reg(e: ExpDesc, reg: nat, ghost sp: Span, ghost x: Expr) returns (st: Status)
      requires Valid() && Describes(e, sp, Whole(x)) && KindOk(e.k) && TailKnown(sp) && sp.valued
      requires reg == sp.free < maxstacksize && (e.k.VNONRELOC? ==> e.k.info != reg)
      modifies `code, `pend, `jpc, `jl, `k, `h, `lasttarget, e
      ensures st.Ok? ==> Valid() && Describes(e, sp, Operand(x)) && Settles(e, reg) && Grown(old(S()), S(), sp)
      ensures st.Ok? && (!old(e.k).VNIL? || old(e.t) != old(e.f)) ==> TailKnown(sp)
      ensures st.Ok? ==> |k| <= |old(k)| + Unspent(old(e.k))
      ensures st.Fail? ==> Exhausted()
    {
      hide Valid, Describes, Grown, ToJoin;
      ghost var s0 := S();
      :- Discharge2Reg(e, reg, sp, x);
      ghost var s1 := S();
      if e.k.VJMP? {
        :- JumpToTrue(e, reg, sp, x);
      } else {
        ReadyToJoin(e, reg, sp, x);
      }
      GrownTrans(s0, s1, S(), sp);
      ghost var s2 := S();
      if e.t != e.f {
        :- JoinLists(e, reg, sp, x);
        GrownTrans(s0, s2, S(), sp);
      }
      st := Ok;
    }

    // ----- operands -----

    ghost predicate Same(s: Snap, j: seq<nat>, free: nat)
      reads this
    {
      S() == s && jl == j && freereg == free
    }

    /** Ready to be the operand of an instruction. */
    ghost predicate Ready(e: ExpDesc, sp: Span, x: Expr)
      reads this, e
    {
      && Describes(e, sp, Operand(x)) && e.tl == [] && e.fl == [] && e.t == NO_JUMP && e.f == NO_JUMP
      && match e.k {
           case VK(i) => i < |k| && i <= MAXINDEXRK && freereg == sp.free
           case VNONRELOC(r) => (r < nactvar && freereg == sp.free) || (r == sp.free && freereg == sp.free + 1)
           case _ => false
         }
    }

    /** `luaK_exp2nextreg`. */
    method Exp2NextReg(e: ExpDesc, ghost sp: Span, ghost x: Expr) returns (st: Status)
      requires Valid() && Fresh(e, sp, x) && TailKnown(sp) && sp.valued
      modifies this, e
      ensures st.Ok? ==>
        && Valid() && Ready(e, sp, x) && e.k == VNONRELOC(sp.free) && freereg == sp.free + 1 && Grown(old(S()), S(), sp)
      ensures st.Ok? && (!old(e.k).VNIL? || old(e.t) != old(e.f)) ==> TailKnown(sp)
      ensures st.Ok? ==> |k| <= |old(k)| + Unspent(old(e.k))
      ensures st.Fail? ==> Exhausted()
    {
      hide Valid, Describes, Grown, Known, TailKnown;
      ghost var s0 := S();
      RegsOk();
      :- DischargeVars(e, sp, Whole(x));
      ghost var s1 := S();
      FreeExp(e);
      :- ReserveRegs(1);
      RegsOk();
      :- Exp2Reg(e, freereg - 1, sp, x);
      GrownTrans(s0, s1, S(), sp);
      st := Ok;
    }

    lemma GrownHere(e: ExpDesc, sp: Span, x: Meaning)
      requires Describes(e, sp, x)
      ensures Grown(S(), S(), sp) && BeginsAt(code, sp) && nactvar <= sp.free
    {
      BeginsHere(S(), jl, e.t, e.f, e.D(), At(sp));
      GrownRefl(S(), At(sp));
      GrownSpan(S(), S(), At(sp), sp);
    }

    lemma RegsOk()
      requires Valid()
      ensures nactvar <= freereg <= maxstacksize <= MAXSTACK && |k| <= MAXARG_BX && PendingOk(code, pend)
    {
    }

    /** A variable, in parentheses or not, is in a register already. */
    lemma InPlaceHere(e: ExpDesc, sp: Span, x: Expr)
      requires Fresh(e, sp, x) && InPlace(m, x) && FormOf(m, x).Variable?
      ensures e.t == e.f && (e.k.VLOCAL? || e.k.VNONRELOC?) && e.k.info < nactvar
    {
      hide Describes, FormOf, HasJumps;
      ListsFacts(e, sp, Whole(x));
    }

    /** `luaK_dischargevars` on an expression that has just been read: it is still as if it had been. */
    method DischargeFresh(e: ExpDesc, ghost sp: Span, ghost x: Expr) returns (st: Status)
      requires Valid() && Fresh(e, sp, x) && TailKnown(sp)
      modifies `code, `pend, `jpc, `jl, e`k
      ensures st.Ok? ==> Valid() && Fresh(e, sp, x) && Grown(old(S()), S(), sp) && TailKnown(sp)
      ensures st.Ok? ==> (e.k.VNONRELOC? ==> e.k.info < nactvar) && !e.k.VLOCAL? && !e.k.VUPVAL?
      ensures st.Ok? ==>
        if old(e.k).VLOCAL? || old(e.k).VUPVAL? then e.k.VNONRELOC? || e.k.VRELOCABLE? else e.k == old(e.k)
      ensures st.Ok? ==> Unspent(e.k) == Unspent(old(e.k)) && (e.k.VNIL? <==> old(e.k).VNIL?)
      ensures st.Ok? && (old(e.k).VLOCAL? || old(e.k).VNONRELOC?) ==> e.k == VNONRELOC(old(e.k).info)
      ensures st.Fail? ==> Exhausted()
    {
      hide Valid, Describes, Grown, FormOf, HasJumps, InPlace, Exhausted;
      st := DischargeVars(e, sp, Whole(x));
    }

    /** A value in a register, without jumps, is an operand already. */
    lemma RegisterReady(e: ExpDesc, sp: Span, x: Expr)
      requires Fresh(e, sp, x) && e.k.VNONRELOC? && e.t == e.f
      ensures Ready(e, sp, x) && e.k.info < nactvar
    {
      hide Describes, FormOf, HasJumps, InPlace;
      ListsFacts(e, sp, Whole(x));
      OperandHere(e, sp, x);
    }

    /** `luaK_exp2anyreg` for an expression that has just been read. */
    method FreshToAnyReg(e: ExpDesc, ghost sp: Span, ghost x: Expr) returns (st: Status, r: nat)
      requires Valid() && sp.valued && Fresh(e, sp, x) && TailKnown(sp)
      modifies this, e
      ensures st.Ok? ==> Valid() && Ready(e, sp, x) && e.k == VNONRELOC(r) && Grown(old(S()), S(), sp)
      ensures st.Ok? && (!old(e.k).VNIL? || old(e.t) != old(e.f)) ==> TailKnown(sp)
      ensures st.Ok? ==> |k| <= |old(k)| + Unspent(old(e.k))
      ensures st.Ok? && InPlace(m, x) && FormOf(m, x).Variable? ==> r < nactvar
      ensures st.Fail? ==> Exhausted()
    {
      hide Valid, Fresh, Describes, Grown, Ready, Known, InPlace, FormOf, TailKnown, Exhausted;
      r := 0;
      ghost var s0 := S();
      if InPlace(m, x) && FormOf(m, x).Variable? { InPlaceHere(e, sp, x); }
      :- DischargeFresh(e, sp, x);
      ghost var s1 := S();
      if e.k.VNONRELOC? {
        if e.t == e.f {
          RegisterReady(e, sp, x);
          return Ok, e.k.info;
        }
        if e.k.info >= nactvar {
          assert false;
        }
      }
      :- Exp2NextReg(e, sp, x);
      GrownTrans(s0, s1, S(), sp);
      st, r := Ok, e.k.info;
    }

    /** `luaK_exp2anyreg`. A value in a register has nothing to discharge and stays where it is. */
    method Exp2AnyReg(e: ExpDesc, ghost sp: Span, ghost x: Expr) returns (st: Status, r: nat)
      requires Valid() && sp.valued && ((Fresh(e, sp, x) && TailKnown(sp)) || (Ready(e, sp, x) && e.k.VNONRELOC?))
      modifies this, e
      ensures st.Ok? && old(Ready(e, sp, x)) && old(e.k).VNONRELOC? ==>
        Same(old(S()), old(jl), old(freereg)) && e.k == old(e.k) && lasttarget == old(lasttarget)
      ensures st.Ok? ==> Valid() && Ready(e, sp, x) && e.k == VNONRELOC(r) && Grown(old(S()), S(), sp)
      ensures st.Ok? && old(TailKnown(sp)) && (!old(e.k).VNIL? || old(e.t) != old(e.f)) ==> TailKnown(sp)
      ensures st.Ok? ==> |k| <= |old(k)| + Unspent(old(e.k))
      ensures st.Ok? && old(Fresh(e, sp, x)) && InPlace(m, x) && FormOf(m, x).Variable? ==> r < nactvar
      ensures st.Fail? ==> Exhausted()
    {
      hide Valid, Describes, Grown, Known, InPlace, FormOf, TailKnown, Exhausted;
      if e.k.VNONRELOC? && e.t == e.f {
        if Fresh(e, sp, x) { RegisterReady(e, sp, x); }
        GrownHere(e, sp, Operand(x));
        return Ok, e.k.info;
      }
      st, r := FreshToAnyReg(e, sp, x);
    }

    /** An expression without code of its own is an operand already. */
    lemma OperandHere(e: ExpDesc, sp: Span, x: Expr)
      requires Describes(e, sp, Whole(x)) && ListsKnown(e, x) && e.t == e.f && !e.k.VRELOCABLE? && !e.k.VJMP?
      requires FormOf(m, x).Literal? || FormOf(m, x).Variable?
      ensures Describes(e, sp, Operand(x)) && InPlace(m, x) && e.tl == [] && e.fl == [] && e.t == NO_JUMP
    {
      ListsFacts(e, sp, Whole(x));
      ClaimOperand(m, S(), e.D(), At(sp), x);
    }

    lemma ListsFacts(e: ExpDesc, sp: Span, x: Meaning)
      requires Describes(e, sp, x)
      ensures e.t == e.f ==> e.tl == [] && e.fl == [] && e.t == NO_JUMP
      ensures (e.tl == [] <==> e.t == NO_JUMP) && (e.fl == [] <==> e.f == NO_JUMP)
    {
      OwnOf(S(), jl, e.t, e.f, e.D(), At(sp));
      FirstInList(code, e.t, e.tl);
      FirstInList(code, e.f, e.fl);
      if e.t == e.f { NoLists(code, e.t, e.f, e.tl, e.fl); }
    }

    /** `luaK_exp2val`. */
    method Exp2Val(e: ExpDesc, ghost sp: Span, ghost x: Expr) returns (st: Status)
      requires Valid() && sp.valued && (Ready(e, sp, x) || (Fresh(e, sp, x) && TailKnown(sp)))
      modifies this, e
      ensures st.Ok? && old(e.t) != old(e.f) ==>
        Valid() && Ready(e, sp, x) && e.k.VNONRELOC? && Grown(old(S()), S(), sp) && TailKnown(sp)
            && |k| <= |old(k)| + Unspent(old(e.k))
      ensures st.Ok? && old(e.t) == old(e.f) ==>
        && Valid() && Grown(old(S()), S(), sp) && k == old(k) && h == old(h) && e.t == e.f
        && (old(TailKnown(sp)) ==> TailKnown(sp))
        && (old(Fresh(e, sp, x)) ==> Fresh(e, sp, x)) && (old(Ready(e, sp, x)) ==> Ready(e, sp, x))
        && (old(Ready(e, sp, x)) ==>
          Same(old(S()), old(jl), old(freereg)) && e.k == old(e.k) && lasttarget == old(lasttarget))
        && !e.k.VLOCAL? && !e.k.VUPVAL? && Unspent(e.k) == Unspent(old(e.k)) && (e.k.VK? ==> old(e.k).VK?)
      ensures st.Fail? ==> Exhausted()
    {
      hide Valid, Describes, Grown;
      if e.t != e.f {
        var _ :- Exp2AnyReg(e, sp, x);
      } else {
        RegsOk();
        ghost var meaning := if Ready(e, sp, x) then Operand(x) else Whole(x);
        :- DischargeVars(e, sp, meaning);
      }
      st := Ok;
    }

    /** The constant that stands for `nil`, a boolean or a number. */
    static function ConstantOf(kind: ExpKind): Value
      requires kind.VNIL? || kind.VTRUE? || kind.VFALSE? || kind.VKNUM?
    {
      match kind
      case VNIL => Nil
      case VTRUE => Bool(true)
      case VFALSE => Bool(false)
      case VKNUM(n) => Num(n)
    }

    /** `nilK`, `boolK` or `luaK_numberK`: the value becomes a constant of the function. */
    method ExpToK(e: ExpDesc, ghost sp: Span, ghost x: Expr) returns (st: Status)
      requires Valid() && Fresh(e, sp, x) && e.t == e.f && (e.k.VNIL? || e.k.VTRUE? || e.k.VFALSE? || e.k.VKNUM?)
      requires |k| <= MAXINDEXRK
      modifies `k, `h, e`k
      ensures st.Ok? ==> Valid() && Ready(e, sp, x) && e.k.VK? && Grown(old(S()), S(), sp) && |k| <= |old(k)| + 1
      ensures st.Ok? ==> e.k.info < |k| && k[e.k.info] == ConstantOf(old(e.k))
      ensures st.Fail? ==> Exhausted()
    {
      hide ShapeOk, Claim, ListsOk, IsList, Grown;
      ghost var s, d, a := S(), e.D(), At(sp);
      HereOk(e, sp, Whole(x));
      ListsFacts(e, sp, Whole(x));
      GrownHere(e, sp, Whole(x));
      var i :- AddK(ConstantOf(e.k));
      e.k := VK(i);
      ConstantMeans(m, s, k, i, jl, e.t, e.f, d, a, Whole(x));
      OperandHere(e, sp, x);
      ConstantsGrown(s, S(), sp);
      st := Ok;
    }

    lemma OperandFacts(e: ExpDesc, sp: Span, x: Expr)
      requires Fresh(e, sp, x) || Ready(e, sp, x)
      ensures Ready(e, sp, x) ==> e.t == e.f && ((e.k.VK? && e.k.info <= MAXINDEXRK) || e.k.VNONRELOC?)
      ensures e.k.VK? && e.t == e.f && e.k.info <= MAXINDEXRK ==> Ready(e, sp, x)
      ensures Fresh(e, sp, x) && e.k.VK? ==> e.k.info < |k|
      ensures Fresh(e, sp, x) && InPlace(m, x) ==>
        e.t == e.f && !e.k.VJMP? && !e.k.VRELOCABLE? && !e.k.VUPVAL? && (e.k.VNONRELOC? ==> FormOf(m, x).Variable?)
    {
      if Fresh(e, sp, x) { ListsFacts(e, sp, Whole(x)); }
      if Fresh(e, sp, x) && e.k.VK? && e.t == e.f { OperandHere(e, sp, x); }
    }

    /** `luaK_exp2RK`. */
    method Exp2RK(e: ExpDesc, ghost sp: Span, ghost x: Expr) returns (st: Status, o: nat)
      requires Valid() && sp.valued
      requires (Ready(e, sp, x) || (Fresh(e, sp, x) && TailKnown(sp) && |k| + Unspent(e.k) <= MAXINDEXRK + 1))
      modifies this, e
      ensures st.Ok? ==> Valid() && Ready(e, sp, x) && o == OperandRk(e.D()) && Grown(old(S()), S(), sp)
      ensures st.Ok? && old(TailKnown(sp)) ==> TailKnown(sp)
      ensures st.Ok? ==> |k| <= |old(k)| + Unspent(old(e.k))
      ensures st.Ok? && old(Ready(e, sp, x)) ==> Same(old(S()), old(jl), old(freereg)) && e.k == old(e.k)
      ensures st.Ok? && e.k.VK? ==> old(e.k).VK? || (Unspent(old(e.k)) == 1 && old(e.t) == old(e.f))
      ensures st.Ok? && old(Fresh(e, sp, x)) && InPlace(m, x) ==> e.k.VK? || e.k.info < nactvar
      ensures st.Fail? ==> Exhausted()
    {
      hide Valid, Describes, Grown, Fresh, Ready, TailKnown;
      o := 0;
      ghost var s0 := S();
      OperandFacts(e, sp, x);
      :- Exp2Val(e, sp, x);
      ghost var s1 := S();
      OperandFacts(e, sp, x);
      match e.k {
        case VK(i) =>
          if i <= MAXINDEXRK {
            return Ok, BITRK + i;
          }
        case VLOCAL(_) =>
        case VUPVAL(_) =>
        case VJMP(_) =>
        case VRELOCABLE(_) =>
        case VNONRELOC(_) =>
        case _ =>
          if |k| <= MAXINDEXRK {
            :- ExpToK(e, sp, x);
            GrownTrans(s0, s1, S(), sp);
            return Ok, BITRK + e.k.info;
          }
      }
      o :- Exp2AnyReg(e, sp, x);
      GrownTrans(s0, s1, S(), sp);
      st := Ok;
    }

    // ----- branches -----

    /** The jumps `pl` have been made to leave; the lists have yet to be joined. */
    ghost predicate ToLink(e: ExpDesc, pc: int, pl: seq<nat>, sp: Span, x: Expr, sense: bool)
      reads this, e
    {
      && BranchReady(m, S(), jl, e.t, e.f, pc, e.D(), pl, At(sp), x, sense) && ShapeOk(S(), maxstacksize, nups)
      && StoreOk() && IsList(code, jpc, jl) && Elems(jl) <= pend && nactvar <= sp.free == freereg
    }

    /** Control comes here if the truth of `x` is `sense`, and leaves through one list otherwise. */
    ghost predicate Decided(e: ExpDesc, sp: Span, x: Expr, sense: bool)
      reads this, e
    {
      && DecidedAt(m, S(), jl, Head(e.t, e.f, sense), Leaving(e.D(), sense), At(sp), x, sense)
      && Head(e.f, e.t, sense) == NO_JUMP && Passing(e.D(), sense) == [] && nactvar <= sp.free == freereg
    }

    /** `discharge2anyreg`. */
    method Discharge2AnyReg(e: ExpDesc, ghost sp: Span, ghost x: Expr) returns (st: Status)
      requires Valid() && Fresh(e, sp, x) && TailKnown(sp) && !e.k.VJMP? && !e.k.VLOCAL?
      modifies `code, `pend, `jpc, `jl, `k, `h, `freereg, `maxstacksize, e`k
      ensures st.Ok? ==> Valid() && Describes(e, sp, Whole(x)) && Grown(old(S()), S(), sp) && e.k.VNONRELOC?
      ensures st.Ok? ==> (e.k.info < nactvar && freereg == sp.free) || (e.k.info == sp.free && freereg == sp.free + 1)
      ensures st.Ok? && !old(e.k).VKNUM? ==> k == old(k)
      ensures st.Ok? ==> |k| <= |old(k)| + Unspent(old(e.k))
      ensures st.Fail? ==> Exhausted()
    {
      hide Valid, Describes, Grown;
      GrownHere(e, sp, Whole(x));
      if !e.k.VNONRELOC? {
        RegsOk();
        :- ReserveRegs(1);
        RegsOk();
        :- Discharge2Reg(e, freereg - 1, sp, x);
      }
      st := Ok;
    }

    /** A value in a register is tested. */
    method TestRegister(e: ExpDesc, cond: nat, ghost sp: Span, ghost x: Expr) returns (st: Status, pc: nat)
      requires Valid() && Describes(e, sp, Whole(x)) && e.k.VNONRELOC? && e.k.info < maxstacksize && freereg == sp.free
      requires cond <= 1 && NeedsTest(FormOf(m, x), cond == 0)
      modifies `code, `pend, `jpc, `jl
      ensures st.Ok? ==> ToLink(e, pc, [pc], sp, x, cond == 0) && Grown(old(S()), S(), sp)
      ensures st.Fail? ==> Exhausted()
    {
      hide ShapeOk, Claim, ListsOk, IsList, Grown, BranchReady, EmitTest;
      pc := 0;
      ghost var s, j, d, a := S(), jl, e.D(), At(sp);
      HereOk(e, sp, Whole(x));
      pc :- CondJump(TestSet(NO_REG, e.k.info, cond));
      JumpsReach(s, j, |s.code|);
      RegisterMeans(m, s, j, e.t, e.f, d, a, x, cond == 0, maxstacksize, nups);
      TestSize(s, j, TestSet(NO_REG, e.k.info, cond));
      GrownSpan(s, S(), a, sp);
      NoList(code);
      st := Ok;
    }

    /** The last instruction, a `not`, gives way to a test of its operand. */
    method TestInstead(e: ExpDesc, cond: nat, ghost sp: Span, ghost x: Expr) returns (st: Status, pc: nat)
      requires Valid() && Describes(e, sp, Whole(x)) && e.k.VRELOCABLE? && KindOk(e.k) && code[e.k.info].Not?
      requires freereg == sp.free && cond <= 1 && FormOf(m, x).Boolean?
      modifies `code, `pend, `jpc, `jl
      ensures st.Ok? ==> ToLink(e, pc, [pc], sp, x, cond == 0) && Grown(old(S()), S(), sp)
      ensures st.Fail? ==> Exhausted()
    {
      hide ShapeOk, Claim, ListsOk, IsList, Grown, BranchReady, EmitTest, NotReplaced, Elems;
      pc := 0;
      ghost var s, d, a := S(), e.D(), At(sp);
      var i := Test(code[e.k.info].b, if cond == 0 then 1 else 0);
      FirstInList(code, jpc, jl);
      NoList(code[..|code| - 1]);
      NotMeans(m, s, e.t, e.f, d, a, x, cond == 0, maxstacksize, nups);
      code := code[..|code| - 1];
      NothingHere(S(), s.code, i.c, cond == 0);
      TestSize(S(), [], i);
      pc :- CondJump(i);
      GrownSpan(s, S(), a, sp);
      NoList(code);
      st := Ok;
    }

    /** `jumponcond`. */
    method JumpOnCond(e: ExpDesc, cond: nat, ghost sp: Span, ghost x: Expr) returns (st: Status, pc: nat)
      requires Valid() && Fresh(e, sp, x) && TailKnown(sp) && !e.k.VJMP? && !e.k.VLOCAL? && cond <= 1
      requires FormOf(m, x).Boolean? || NeedsTest(FormOf(m, x), cond == 0)
      modifies `code, `pend, `jpc, `jl, `k, `h, `freereg, `maxstacksize, e`k
      ensures st.Ok? ==>
        && ToLink(e, pc, [pc], sp, x, cond == 0) && Grown(old(S()), S(), sp) && |k| <= |old(k)| + Unspent(old(e.k))
      ensures st.Fail? ==> Exhausted()
    {
      hide Valid, Describes, Grown, ToLink;
      pc := 0;
      RegsOk();
      if e.k.VRELOCABLE? {
        if code[e.k.info].Not? {
          pc :- TestInstead(e, cond, sp, x);
          return Ok, pc;
        }
      }
      ghost var s0 := S();
      :- Discharge2AnyReg(e, sp, x);
      ghost var s1 := S();
      RegsOk();
      GrownHere(e, sp, Whole(x));
      FreeExp(e);
      pc :- TestRegister(e, cond, sp, x);
      GrownTrans(s0, s1, S(), sp);
      st := Ok;
    }

    lemma LinkFacts(e: ExpDesc, pc: int, pl: seq<nat>, sp: Span, x: Expr, sense: bool)
      requires ToLink(e, pc, pl, sp, x, sense)
      ensures BranchReady(m, S(), jl, e.t, e.f, pc, e.D(), pl, At(sp), x, sense) && ShapeOk(S(), maxstacksize, nups)
      ensures IsList(code, jpc, jl) && Elems(jl) <= pend && StoreOk() && nactvar <= sp.free == freereg
    {
    }

    lemma LinkDone(e: ExpDesc, sp: Span, x: Expr, sense: bool)
      requires DecidedAt(m, S(), jl, Head(e.t, e.f, sense), Leaving(e.D(), sense), At(sp), x, sense)
      requires ShapeOk(S(), maxstacksize, nups)
      requires IsList(code, jpc, jl) && Elems(jl) <= pend && StoreOk() && nactvar <= sp.free == freereg
          && lasttarget == |code|
      requires Head(e.f, e.t, sense) == NO_JUMP && Passing(e.D(), sense) == []
      ensures Valid() && Decided(e, sp, x, sense)
    {
    }

    /** The end of `luaK_goiftrue`: the new jumps join the list `f`, and the list `t` is to
        lead here. */
    method CloseTrue(e: ExpDesc, pc: int, ghost pl: seq<nat>, ghost sp: Span, ghost x: Expr) returns (st: Status)
      requires ToLink(e, pc, pl, sp, x, true)
      modifies `code, `jpc, `jl, `lasttarget, e`t, e`f, e`tl, e`fl
      ensures st.Ok? ==> Valid() && Decided(e, sp, x, true) && Grown(old(S()), S(), sp) && lasttarget == |code|
      ensures st.Ok? ==> e.fl == old(e.fl) + pl
      ensures st.Fail? ==> Exhausted()
    {
      hide ToLink, Valid, Decided, ShapeOk, IsList, Grown, BranchReady, Linked, Relinked, DecidedAt, OwnList, BeginsAt,
        Tracked, Elems, Own, Apart, Element, NextJump;
      ghost var s, d, a, j, head := S(), e.D(), At(sp), jl, jpc;
      LinkFacts(e, pc, pl, sp, x, true);
      ReadyFacts(m, s, jl, e.t, e.f, pc, d, pl, a, x, true);
      ListEnds(code, jpc, jl);
      e.f :- Concat(e.f, pc, e.fl, pl);
      e.fl := e.fl + pl;
      ghost var s1 := S();
      LeavingLinked(m, s, head, j, old(e.t), old(e.f), pc, d, pl, a, x, true, s1, maxstacksize, nups);
      RelinkedSize(s, s1);
      :- PatchToHere(e.t, e.tl);
      PassingLinked(m, s, head, j, old(e.t), old(e.f), pc, d, pl, a, x, true, s1, S(), e.f, maxstacksize, nups);
      e.t, e.tl := NO_JUMP, [];
      LinkDone(e, sp, x, true);
      GrownSpan(s, S(), a, sp);
      st := Ok;
    }

    /** The end of `luaK_goiffalse`. */
    method CloseFalse(e: ExpDesc, pc: int, ghost pl: seq<nat>, ghost sp: Span, ghost x: Expr) returns (st: Status)
      requires ToLink(e, pc, pl, sp, x, false)
      modifies `code, `jpc, `jl, `lasttarget, e`t, e`f, e`tl, e`fl
      ensures st.Ok? ==> Valid() && Decided(e, sp, x, false) && Grown(old(S()), S(), sp) && lasttarget == |code|
      ensures st.Ok? ==> e.tl == old(e.tl) + pl
      ensures st.Fail? ==> Exhausted()
    {
      hide ToLink, Valid, Decided, ShapeOk, IsList, Grown, BranchReady, Linked, Relinked, DecidedAt, OwnList, BeginsAt,
        Tracked, Elems, Own, Apart, Element, NextJump;
      ghost var s, d, a, j, head := S(), e.D(), At(sp), jl, jpc;
      LinkFacts(e, pc, pl, sp, x, false);
      ReadyFacts(m, s, jl, e.t, e.f, pc, d, pl, a, x, false);
      ListEnds(code, jpc, jl);
      e.t :- Concat(e.t, pc, e.tl, pl);
      e.tl := e.tl + pl;
      ghost var s1 := S();
      LeavingLinked(m, s, head, j, old(e.t), old(e.f), pc, d, pl, a, x, false, s1, maxstacksize, nups);
      RelinkedSize(s, s1);
      :- PatchToHere(e.f, e.fl);
      PassingLinked(m, s, head, j, old(e.t), old(e.f), pc, d, pl, a, x, false, s1, S(), e.t, maxstacksize, nups);
      e.f, e.fl := NO_JUMP, [];
      LinkDone(e, sp, x, false);
      GrownSpan(s, S(), a, sp);
      st := Ok;
    }

    /** `invertjump`. */
    method InvertJump(e: ExpDesc)
      requires e.k.VJMP? && 1 <= e.k.info < |code| && code[e.k.info - 1].Cmp?
      modifies `code
      ensures code == Turned(old(code), e.k.info - 1, true)
    {
      var pc := GetJumpControl(e.k.info);
      code := code[pc := Inverted(code[pc])];
    }

    /** The constant, or the comparison, that a `goif` finds. */
    method DecideConstant(e: ExpDesc, sense: bool, ghost sp: Span, ghost x: Expr)
      requires Valid() && Fresh(e, sp, x)
      requires if sense then e.k.VK? || e.k.VKNUM? || e.k.VTRUE? else e.k.VNIL? || e.k.VFALSE?
      ensures ToLink(e, NO_JUMP, [], sp, x, sense)
    {
      hide ShapeOk, Claim, ListsOk, IsList, BranchReady;
      HereOk(e, sp, Whole(x));
      if e.k.VK? { assert KindForm(e.k) == Literal(k[e.k.info]); }
      forall w: Frame, r | k <= w.k
        ensures Truthy(ValueOf(w, r, e.D())) == sense
      {
        if e.k.VK? { assert w.k[e.k.info] == k[e.k.info]; }
      }
      PassMeans(m, S(), jl, e.t, e.f, e.D(), At(sp), x, sense);
    }

    method DecideJump(e: ExpDesc, sense: bool, ghost sp: Span, ghost x: Expr) returns (st: Status, pc: int,
                      ghost pl: seq<nat>)
      requires Valid() && Fresh(e, sp, x) && (if sense then e.k.VFALSE? else e.k.VTRUE?)
      modifies `code, `pend, `jpc, `jl
      ensures st.Ok? ==> ToLink(e, pc, pl, sp, x, sense) && pl != [] && Grown(old(S()), S(), sp)
      ensures st.Fail? ==> Exhausted()
    {
      hide ShapeOk, Claim, ListsOk, IsList, BranchReady, Grown;
      pc, pl := NO_JUMP, [];
      ghost var s, d, a, j := S(), e.D(), At(sp), jl;
      HereOk(e, sp, Whole(x));
      pc :- Jump();
      pl := [|s.code|] + j;
      ListJumps(code, pc, pl);
      assert |s.code| in pl;
      JumpMeans(m, s, j, e.t, e.f, d, a, x, S(), pc, sense);
      JumpShape(s, S(), maxstacksize, nups);
      GrownSpan(s, S(), a, sp);
      NoList(code);
      st := Ok;
    }

    method DecideComparison(e: ExpDesc, sense: bool, ghost sp: Span, ghost x: Expr) returns (pc: nat)
      requires Valid() && Fresh(e, sp, x) && e.k.VJMP?
      modifies `code
      ensures ToLink(e, pc, [pc], sp, x, sense) && Grown(old(S()), S(), sp)
    {
      hide ShapeOk, Claim, ListsOk, IsList, BranchReady, Grown;
      ghost var s, d, a := S(), e.D(), At(sp);
      pc := e.k.info;
      ComparisonMeans(m, s, e.t, e.f, d, a, x, sense, maxstacksize, nups);
      if sense { InvertJump(e); }
      GrownSpan(s, S(), a, sp);
      FirstInList(s.code, jpc, jl);
      NoList(code);
    }

    /** The list by which a run leaves is empty exactly when there is no such jump. */
    ghost predicate LeavesKnown(e: ExpDesc, x: Expr, sense: bool)
      reads e
    {
      Leaving(e.D(), sense) != [] <==> HasJumps(m, x, !sense) || !Passes(FormOf(m, x), sense)
    }

    /** The jump, if any, that `luaK_goiftrue` makes. */
    method DecideTrue(e: ExpDesc, ghost sp: Span, ghost x: Expr) returns (st: Status, pc: int, ghost pl: seq<nat>)
      requires Valid() && Fresh(e, sp, x) && TailKnown(sp) && !e.k.VLOCAL?
      modifies `code, `pend, `jpc, `jl, `k, `h, `freereg, `maxstacksize, e`k
      ensures st.Ok? ==>
        && ToLink(e, pc, pl, sp, x, true) && Grown(old(S()), S(), sp) && |k| <= |old(k)| + Unspent(old(e.k))
        && (pl == [] <==> Passes(FormOf(m, x), true))
      ensures st.Fail? ==> Exhausted()
    {
      hide Valid, Describes, Grown, ToLink;
      st, pc, pl := Ok, NO_JUMP, [];
      GrownHere(e, sp, Whole(x));
      if e.k.VK? || e.k.VKNUM? || e.k.VTRUE? {
        DecideConstant(e, true, sp, x);
      } else if e.k.VFALSE? {
        pc, pl :- DecideJump(e, true, sp, x);
      } else if e.k.VJMP? {
        pc := DecideComparison(e, true, sp, x);
        pl := [pc];
      } else {
        pc :- JumpOnCond(e, 0, sp, x);
        pl := [pc];
      }
    }

    /** `luaK_goiftrue`. */
    method GoIfTrue(e: ExpDesc, ghost sp: Span, ghost x: Expr) returns (st: Status)
      requires Valid() && Fresh(e, sp, x) && TailKnown(sp)
      modifies this, e
      ensures st.Ok? ==>
        && Valid() && Decided(e, sp, x, true) && Grown(old(S()), S(), sp) && TailKnown(sp)
        && |k| <= |old(k)| + Unspent(old(e.k))
      ensures st.Ok? ==> LeavesKnown(e, x, true)
      ensures st.Fail? ==> Exhausted()
    {
      hide Valid, Describes, Decided, Grown, ToLink;
      ghost var s0 := S();
      :- DischargeVars(e, sp, Whole(x));
      ghost var s1 := S();
      RegsOk();
      var pc, pl :- DecideTrue(e, sp, x);
      ghost var s2 := S();
      GrownTrans(s0, s1, s2, sp);
      :- CloseTrue(e, pc, pl, sp, x);
      GrownTrans(s0, s2, S(), sp);
      st := Ok;
    }

    /** The jump, if any, that `luaK_goiffalse` makes. */
    method DecideFalse(e: ExpDesc, ghost sp: Span, ghost x: Expr) returns (st: Status, pc: int, ghost pl: seq<nat>)
      requires Valid() && Fresh(e, sp, x) && TailKnown(sp) && !e.k.VLOCAL?
      modifies `code, `pend, `jpc, `jl, `k, `h, `freereg, `maxstacksize, e`k
      ensures st.Ok? ==>
        && ToLink(e, pc, pl, sp, x, false) && Grown(old(S()), S(), sp) && |k| <= |old(k)| + Unspent(old(e.k))
        && (pl == [] <==> Passes(FormOf(m, x), false))
      ensures st.Fail? ==> Exhausted()
    {
      hide Valid, Describes, Grown, ToLink;
      st, pc, pl := Ok, NO_JUMP, [];
      GrownHere(e, sp, Whole(x));
      if e.k.VNIL? || e.k.VFALSE? {
        DecideConstant(e, false, sp, x);
      } else if e.k.VTRUE? {
        pc, pl :- DecideJump(e, false, sp, x);
      } else if e.k.VJMP? {
        pc := DecideComparison(e, false, sp, x);
        pl := [pc];
      } else {
        pc :- JumpOnCond(e, 1, sp, x);
        pl := [pc];
      }
    }

    /** `luaK_goiffalse`. */
    method GoIfFalse(e: ExpDesc, ghost sp: Span, ghost x: Expr) returns (st: Status)
      requires Valid() && Fresh(e, sp, x) && TailKnown(sp)
      modifies this, e
      ensures st.Ok? ==>
        && Valid() && Decided(e, sp, x, false) && Grown(old(S()), S(), sp) && TailKnown(sp)
        && |k| <= |old(k)| + Unspent(old(e.k))
      ensures st.Ok? ==> LeavesKnown(e, x, false)
      ensures st.Fail? ==> Exhausted()
    {
      hide Valid, Describes, Decided, Grown, ToLink;
      ghost var s0 := S();
      :- DischargeVars(e, sp, Whole(x));
      ghost var s1 := S();
      RegsOk();
      var pc, pl :- DecideFalse(e, sp, x);
      ghost var s2 := S();
      GrownTrans(s0, s1, s2, sp);
      :- CloseFalse(e, pc, pl, sp, x);
      GrownTrans(s0, s2, S(), sp);
      st := Ok;
    }

    // ----- not -----

    /** The value is negated and the lists have changed roles; their tests may still copy values. */
    ghost predicate Negating(e: ExpDesc, sp: Span, x: Expr)
      reads this, e
    {
      && Valid() && ListsOk(S(), jl, e.t, e.f, e.D(), At(sp))
      && Claim(m, S(), e.D(), At(sp).(valued := false), Whole(Unary(Negate, x))) && Known(e, Unary(Negate, x))
      && KindOk(e.k) && nactvar <= sp.free == freereg && !e.k.VNONRELOC? && !e.k.VK?
    }

    lemma ConstantTruth(e: ExpDesc, kind: ExpKind, sp: Span, x: Expr)
      requires Fresh(e, sp, x)
      requires (kind == VTRUE && (e.k.VNIL? || e.k.VFALSE?)) || (kind == VFALSE
          && (e.k.VK? || e.k.VKNUM? || e.k.VTRUE?))
      ensures forall w: Frame, r :: k <= w.k ==> Truthy(ValueOf(w, r, e.D())) == (kind == VFALSE)
    {
      hide Claim, ListsOk;
      forall w: Frame, r | k <= w.k
        ensures Truthy(ValueOf(w, r, e.D())) == (kind == VFALSE)
      {
        if e.k.VK? { assert w.k[e.k.info] == k[e.k.info]; }
      }
    }

    method NegateConstant(e: ExpDesc, kind: ExpKind, ghost sp: Span, ghost x: Expr)
      requires Valid() && Fresh(e, sp, x)
      requires (kind == VTRUE && (e.k.VNIL? || e.k.VFALSE?)) || (kind == VFALSE
          && (e.k.VK? || e.k.VKNUM? || e.k.VTRUE?))
      modifies e
      ensures Negating(e, sp, x) && e.k == kind
    {
      hide FormOf, HasJumps, ShapeOk, Claim, ListsOk, IsList, ValueOf;
      FormOfNot(m, x);
      ConstantTruth(e, kind, sp, x);
      ConstantNegated(m, S(), e.t, e.f, e.D(), At(sp), kind, x, maxstacksize, nups);
      e.k := kind;
      e.t, e.f, e.tl, e.fl := e.f, e.t, e.fl, e.tl;
    }

    method NegateComparison(e: ExpDesc, ghost sp: Span, ghost x: Expr)
      requires Valid() && Fresh(e, sp, x) && e.k.VJMP?
      modifies `code, e
      ensures Negating(e, sp, x) && e.k.VJMP? && Grown(old(S()), S(), sp) && TailKnown(sp)
    {
      hide FormOf, HasJumps, ShapeOk, Claim, ListsOk, IsList, Grown;
      ghost var s, d, a := S(), e.D(), At(sp);
      FormOfNot(m, x);
      StartsBefore(e, sp, Whole(x));
      ComparisonNegated(m, s, e.t, e.f, d, a, x, maxstacksize, nups);
      InvertJump(e);
      e.t, e.f, e.tl, e.fl := e.f, e.t, e.fl, e.tl;
      GrownSpan(s, S(), a, sp);
      FirstInList(s.code, jpc, jl);
      NoList(code);
    }

    /** The instruction for the negation of a register. */
    method CodeNotRegister(e: ExpDesc, ghost sp: Span, ghost x: Expr) returns (st: Status, pc: nat)
      requires Valid() && Describes(e, sp, Whole(x)) && e.k.VNONRELOC? && e.k.info < maxstacksize
      modifies `code, `pend, `jpc, `jl
      ensures st.Ok? ==> Valid() && jl == [] && pc + 1 == |code| && code[pc].Not? && Grown(old(S()), S(), sp)
      ensures st.Ok? ==>
        && ListsOk(S(), jl, e.f, e.t, Swapped(e.D(), VRELOCABLE(pc)), At(sp))
        && Claim(m, S(), Swapped(e.D(), VRELOCABLE(pc)), At(sp).(valued := false), Whole(Unary(Negate, x)))
        && nactvar <= sp.free && TailKnown(sp)
      ensures st.Fail? ==> Exhausted()
    {
      hide ShapeOk, Claim, ListsOk, IsList, Grown, Emitted, Exhausted;
      ghost var s, d, a, j := S(), e.D(), At(sp), jl;
      HereOk(e, sp, Whole(x));
      StartsBefore(e, sp, Whole(x));
      pc :- Code(Not(0, e.k.info));
      JumpsReach(s, j, pc);
      RegisterNegated(m, s, e.t, e.f, d, a, x, maxstacksize, nups);
      GrownSpan(s, S(), a, sp);
      NoList(code);
      st := Ok;
    }

    method NegateRegister(e: ExpDesc, ghost sp: Span, ghost x: Expr) returns (st: Status)
      requires Valid() && Describes(e, sp, Whole(x)) && e.k.VNONRELOC? && e.k.info < maxstacksize && freereg == sp.free
      requires ListsKnown(e, x) && !FormOf(m, x).Literal?
      modifies `code, `pend, `jpc, `jl, e
      ensures st.Ok? ==> Negating(e, sp, x) && e.k.VRELOCABLE? && Grown(old(S()), S(), sp) && TailKnown(sp)
      ensures st.Fail? ==> Exhausted()
    {
      hide Valid, FormOf, HasJumps, Claim, ListsOk, Grown, TailKnown, Exhausted;
      FormOfNot(m, x);
      var pc :- CodeNotRegister(e, sp, x);
      e.k := VRELOCABLE(pc);
      e.t, e.f, e.tl, e.fl := e.f, e.t, e.fl, e.tl;
      st := Ok;
    }

    /** `removevalues` on both lists. */
    method RemoveBoth(e: ExpDesc, ghost sp: Span, ghost x: Expr)
      requires Negating(e, sp, x)
      modifies `code
      ensures Valid() && Fresh(e, sp, Unary(Negate, x)) && Grown(old(S()), S(), sp)
      ensures |code| == |old(code)| && forall i :: 0 <= i < |code| ==>
        code[i] == old(code[i]) || (code[i].Test? && old(code[i]).TestSet?)
    {
      hide ShapeOk, Claim, ListsOk, IsList, Grown;
      ghost var s, d, a := S(), e.D(), At(sp);
      OwnOf(s, jl, e.t, e.f, d, a);
      ValuelessMeans(m, s, e.t, e.f, d, a, x, maxstacksize, nups);
      ValuelessValues(s, jl, e.t, e.f, d, a);
      ValuelessHere(s, d, jpc, jl, KindPosition(e.k));
      RemoveValues(e.f, e.fl);
      ValuelessFirst(s, e.fl, e.t, e.tl);
      RemoveValues(e.t, e.tl);
      GrownSpan(s, S(), a, sp);
    }

    static function KindPosition(kind: ExpKind): nat {
      match kind
      case VJMP(i) => i
      case VRELOCABLE(i) => i
      case _ => 0
    }

    /** The switch of `codenot`. */
    method NegateMain(e: ExpDesc, ghost sp: Span, ghost x: Expr) returns (st: Status)
      requires Valid() && Fresh(e, sp, x) && TailKnown(sp) && !e.k.VLOCAL? && !e.k.VUPVAL?
      modifies this, e
      ensures st.Ok? ==> Negating(e, sp, x) && Grown(old(S()), S(), sp) && TailKnown(sp) && k == old(k)
      ensures st.Ok? && e.k.VTRUE? ==> old(e.k).VNIL? || old(e.k).VFALSE?
      ensures st.Ok? && e.k.VFALSE? ==> old(e.k).VTRUE? || old(e.k).VK? || old(e.k).VKNUM?
      ensures st.Ok? ==> !e.k.VNIL? && !e.k.VK? && !e.k.VKNUM?
      ensures st.Fail? ==> Exhausted()
    {
      hide Valid, Describes, Grown, Negating;
      GrownHere(e, sp, Whole(x));
      RegsOk();
      if e.k.VNIL? || e.k.VFALSE? {
        NegateConstant(e, VTRUE, sp, x);
      } else if e.k.VK? || e.k.VKNUM? || e.k.VTRUE? {
        NegateConstant(e, VFALSE, sp, x);
      } else if e.k.VJMP? {
        NegateComparison(e, sp, x);
      } else {
        ghost var s1 := S();
        :- Discharge2AnyReg(e, sp, x);
        ghost var s2 := S();
        RegsOk();
        FreeExp(e);
        :- NegateRegister(e, sp, x);
        GrownTrans(s1, s2, S(), sp);
      }
      st := Ok;
    }

    /** `codenot`. */
    method CodeNot(e: ExpDesc, ghost sp: Span, ghost x: Expr) returns (st: Status)
      requires Valid() && Fresh(e, sp, x) && TailKnown(sp)
      modifies this, e
      ensures st.Ok? ==>
        && Valid() && Fresh(e, sp, Unary(Negate, x)) && Grown(old(S()), S(), sp) && TailKnown(sp) && k == old(k)
      ensures st.Ok? && e.k.VTRUE? ==> old(e.k).VNIL? || old(e.k).VFALSE?
      ensures st.Ok? && e.k.VFALSE? ==> old(e.k).VTRUE? || old(e.k).VK? || old(e.k).VKNUM?
      ensures st.Ok? ==> !e.k.VNIL? && !e.k.VK? && !e.k.VKNUM?
      ensures st.Fail? ==> Exhausted()
    {
      hide Valid, Fresh, Describes, Grown, Negating, Exhausted;
      ghost var s0 := S();
      :- DischargeFresh(e, sp, x);
      ghost var s1 := S();
      :- NegateMain(e, sp, x);
      ghost var s2 := S();
      GrownTrans(s0, s1, s2, sp);
      RemoveBoth(e, sp, x);
      GrownTrans(s0, s2, S(), sp);
      st := Ok;
    }

    // ----- binary operators -----

    /** The first of two operands, up to where the second one begins. */
    static function UpTo(sp1: Span, sp2: Span): Span {
      sp1.(end := sp2.start, to := sp2.from, tov := sp2.fromv)
    }

    /** The first operand waits while the second one, of span `sp2`, is compiled. */
    ghost predicate Waits(e: ExpDesc, sp1: Span, sp2: Span, x: Expr)
      reads `code, `pend, `k, e
    {
      WaitsOk(m, S(), e.D(), UpTo(sp1, sp2), sp2, x, nactvar) && e.t == NO_JUMP
          && e.f == NO_JUMP
    }

    /** `luaK_exp2RK` for an operand that has been waiting: it needs no code. */
    method WaitingRK(e: ExpDesc, ghost sp1: Span, ghost sp2: Span, ghost x: Expr) returns (st: Status, o: nat)
      requires Valid() && Waits(e, sp1, sp2, x) && BeginsAt(code, sp2) && (e.k.VKNUM? ==> |k| <= MAXINDEXRK)
      modifies `k, `h, e`k
      ensures st.Ok? ==> Valid() && Waits(e, sp1, sp2, x) && !e.k.VKNUM? && o == OperandRk(e.D()) && old(k) <= k
      ensures st.Ok? ==> |k| <= |old(k)| + Unspent(old(e.k)) && (!old(e.k).VKNUM? ==> e.k == old(e.k))
      ensures st.Fail? ==> Exhausted()
    {
      hide ShapeOk, Claim, IsList;
      o := 0;
      ghost var s, d, a := S(), e.D(), UpTo(sp1, sp2);
      if e.k.VKNUM? {
        ShapeSnap(s, maxstacksize, nups);
        var i :- AddK(Num(e.k.nval));
        WaitsConstant(m, s, k, i, d, a, sp2, x, nactvar);
        e.k := VK(i);
      }
      st, o := Ok, if e.k.VK? then BITRK + e.k.info else e.k.info;
    }

    /** `isnumeral`. */
    static predicate IsNumeral(e: ExpDesc)
      reads e
    {
      e.k.VKNUM? && e.t == NO_JUMP && e.f == NO_JUMP
    }

    /** The descriptor is that of a number exactly when the expression amounts to one. */
    ghost predicate NumeralKnown(e: ExpDesc, x: Expr)
      reads e
    {
      NumeralOf(m, x) == if IsNumeral(e) then Some(e.k.nval) else None
    }

    /** `constfolding` of two numbers. */
    method ConstFolding(op: ArithOp, e1: ExpDesc, e2: ExpDesc) returns (r: Option<Number>)
      ensures r == if IsNumeral(e1) && IsNumeral(e2) then FoldedNumber(m, op, e1.k.nval, e2.k.nval) else None
    {
      if !IsNumeral(e1) || !IsNumeral(e2) { return None; }
      if (op.DIV? || op.MOD?) && m.iszero(e2.k.nval) { return None; }
      var v := m.num(op, e1.k.nval, e2.k.nval);
      r := if m.isnan(v) then None else Some(v);
    }

    /** Both operands ready: the operation is coded. */
    method CodeOperation(op: ArithOp, e1: ExpDesc, e2: ExpDesc, o1: nat, o2: nat,
                         ghost sp1: Span, ghost sp2: Span, ghost x: Expr, ghost y: Expr) returns (st: Status)
      requires Valid() && Waits(e1, sp1, sp2, x) && !e1.k.VKNUM? && Describes(e2, sp2, Operand(y)) && Holds(e2.D())
      requires WellFormed(m, y, nactvar, nups)
      requires o1 == OperandRk(e1.D()) && o2 == OperandRk(e2.D()) && RkFits(o2, maxstacksize, |k|)
      requires freereg == sp1.free
      requires sp2.free <= maxstacksize && e1 != e2 && !Folds(m, Arithmetical(op), x, y)
      modifies `code, `pend, `jpc, `jl, e1`k
      ensures st.Ok? ==>
        && Valid() && Fresh(e1, sp1, Binary(Arithmetical(op), x, y)) && e1.k.VRELOCABLE? && Grown(old(S()), S(), sp1)
        && TailKnown(sp1)
      ensures st.Fail? ==> Exhausted()
    {
      hide FormOf, HasJumps, Folds, ShapeOk, Claim, ListsOk, IsList, Grown, Emitted, WaitsOk, Holds, OperandRk,
        RkFits, BeginsAt, WellFormed;
      ghost var s, d1, a1, d2, a2, j := S(), e1.D(), UpTo(sp1, sp2), e2.D(), At(sp2), jl;
      FormOfOperation(m, Arithmetical(op), x, y);
      HereOk(e2, sp2, Operand(y));
      ListsFacts2(m, s, d1, a1, d2, sp2, x, j, e2.t, e2.f, a2, nactvar);
      OperandTracked(s, j, e2.t, e2.f, d2, a2);
      var pc :- Code(Arith(op, 0, o1, o2));
      JumpsReach(s, j, pc);
      WaitsSpan(m, s, d1, a1, sp2, a2, x, nactvar);
      ArithMeans(m, s, d1, a1, x, d2, a2, y, op, nactvar, nups, maxstacksize);
      e1.k := VRELOCABLE(pc);
      GrownSpan(s, S(), a1, sp1);
      NoList(code);
      st := Ok;
    }

    /** Constants have been added while the second operand is described. */
    lemma StillFresh(e: ExpDesc, sp: Span, y: Meaning, k0: seq<Value>)
      requires k0 <= k && BeginsAt(code, sp)
      requires ListsOk(S().(k := k0), jl, e.t, e.f, e.D(), At(sp)) && Claim(m, S().(k := k0), e.D(), At(sp), y)
          && nactvar <= sp.free
      ensures Describes(e, sp, y)
    {
      hide ListsOk;
      ListsConstants(S().(k := k0), k, jl, e.t, e.f, e.D(), At(sp));
      ClaimConstants(m, S().(k := k0), k, e.D(), At(sp), y);
    }

    /** The first operand is made ready, the second stays as it is. */
    method FirstOperand(e1: ExpDesc, e2: ExpDesc, ghost sp1: Span, ghost sp2: Span, ghost x: Expr, ghost y: Expr)
        returns (st: Status, o1: nat)
      requires Valid() && TailKnown(sp2) && Waits(e1, sp1, sp2, x) && Fresh(e2, sp2, y) && e1 != e2
      requires |k| + Unspent(e1.k) <= MAXINDEXRK + 1
      modifies `k, `h, e1`k
      ensures st.Ok? ==>
        && Valid() && TailKnown(sp2) && Waits(e1, sp1, sp2, x) && !e1.k.VKNUM? && Fresh(e2, sp2, y)
        && o1 == OperandRk(e1.D())
        && old(k) <= k && |k| <= |old(k)| + Unspent(old(e1.k))
      ensures st.Fail? ==> Exhausted()
    {
      hide Valid, Describes, Grown, WaitsOk, ListsOk, Claim, BeginsAt;
      o1 := 0;
      ghost var s0 := S();
      GrownHere(e2, sp2, Whole(y));
      DescribedParts(e2, sp2, Whole(y));
      o1 :- WaitingRK(e1, sp1, sp2, x);
      StillFresh(e2, sp2, Whole(y), s0.k);
      st := Ok;
    }

    /** The second operand is made ready. */
    method SecondOperand(e1: ExpDesc, e2: ExpDesc, ghost sp1: Span, ghost sp2: Span, ghost x: Expr, ghost y: Expr)
        returns (st: Status, o2: nat)
      requires Valid() && TailKnown(sp2) && Waits(e1, sp1, sp2, x) && Fresh(e2, sp2, y) && sp2.valued && e1 != e2
      requires |k| + Unspent(e2.k) <= MAXINDEXRK + 1
      modifies this, e2
      ensures st.Ok? ==> Valid() && Waits(e1, sp1, sp2, x) && Ready(e2, sp2, y) && o2 == OperandRk(e2.D())
      ensures st.Ok? ==> Grown(old(S()), S(), sp1) && |k| <= |old(k)| + Unspent(old(e2.k))
      ensures st.Fail? ==> Exhausted()
    {
      hide Valid, Describes, Grown, WaitsOk, BeginsAt, Ready, Fresh, TailKnown, OperandRk;
      o2 := 0;
      ghost var s := S();
      FreshBegins(e2, sp2, y);
      RegsOk();
      o2 :- Exp2RK(e2, sp2, y);
      OperandReady(e2, sp2, y);
      WaitsOn(e1, sp1, sp2, x, s);
      st := Ok;
    }

    /** Both operands are ready: their registers are free again. */
    method FreeOperands(e1: ExpDesc, e2: ExpDesc, ghost sp1: Span, ghost sp2: Span, ghost x: Expr, ghost y: Expr)
      requires Valid() && Waits(e1, sp1, sp2, x) && Ready(e2, sp2, y)
      modifies `freereg
      ensures Valid() && Describes(e2, sp2, Operand(y)) && Holds(e2.D()) && RkFits(OperandRk(e2.D()), maxstacksize, |k|)
      ensures freereg == sp1.free && sp2.free <= maxstacksize
    {
      hide Valid, Describes, Grown, BeginsAt, Holds, RkFits, Claim;
      OperandReady(e2, sp2, y);
      RegsOk();
      FreeExp(e2);
      FreeExp(e1);
    }

    /** The operands of `codearith` and `codecomp` are made ready. */
    method Operands(e1: ExpDesc, e2: ExpDesc, ghost sp1: Span, ghost sp2: Span, ghost x: Expr, ghost y: Expr)
        returns (st: Status, o1: nat, o2: nat)
      requires Valid() && TailKnown(sp2) && Waits(e1, sp1, sp2, x) && Fresh(e2, sp2, y) && sp2.valued && e1 != e2
      requires |k| + Unspent(e1.k) + Unspent(e2.k) <= MAXINDEXRK + 1
      modifies this, e1`k, e2
      ensures st.Ok? ==>
        && Valid() && Waits(e1, sp1, sp2, x) && !e1.k.VKNUM? && Describes(e2, sp2, Operand(y)) && Holds(e2.D())
        && o1 == OperandRk(e1.D()) && o2 == OperandRk(e2.D()) && RkFits(o2, maxstacksize, |k|) && freereg == sp1.free
        && sp2.free <= maxstacksize
      ensures st.Ok? ==> Grown(old(S()), S(), sp1) && |k| <= |old(k)| + Unspent(old(e1.k)) + Unspent(old(e2.k))
      ensures st.Fail? ==> Exhausted()
    {
      hide Valid, Describes, Grown, WaitsOk, RkFits, Holds, BeginsAt, Ready, Fresh, TailKnown, OperandRk;
      o1, o2 := 0, 0;
      ghost var s0 := S();
      WaitsBegin(e1, sp1, sp2, x);
      o1 :- FirstOperand(e1, e2, sp1, sp2, x, y);
      ghost var s1 := S();
      ConstantsGrown(s0, s1, sp1);
      o2 :- SecondOperand(e1, e2, sp1, sp2, x, y);
      GrownTrans(s0, s1, S(), sp1);
      FreeOperands(e1, e2, sp1, sp2, x, y);
      st := Ok;
    }

    lemma FreshBegins(e: ExpDesc, sp: Span, y: Expr)
      requires Fresh(e, sp, y)
      ensures BeginsAt(code, sp) && nactvar <= sp.free && freereg == sp.free
    {
      GrownHere(e, sp, Whole(y));
    }

    lemma OperandReady(e: ExpDesc, sp: Span, y: Expr)
      requires Valid() && Ready(e, sp, y)
      ensures Holds(e.D()) && RkFits(OperandRk(e.D()), maxstacksize, |k|) && BeginsAt(code, sp)
          && nactvar <= sp.free && Describes(e, sp, Operand(y))
      ensures e.k.VNONRELOC? && e.k.info >= nactvar ==> e.k.info == sp.free && freereg == sp.free + 1
      ensures !(e.k.VNONRELOC? && e.k.info >= nactvar) ==> freereg == sp.free
    {
      BeginsHere(S(), jl, e.t, e.f, e.D(), At(sp));
    }

    /** The first operand has waited since `s`. */
    lemma WaitsOn(e: ExpDesc, sp1: Span, sp2: Span, x: Expr, s: Snap)
      requires WaitsOk(m, s, e.D(), UpTo(sp1, sp2), sp2, x, nactvar) && e.t == NO_JUMP
      requires e.f == NO_JUMP
      requires Grown(s, S(), sp2) && BeginsAt(s.code, sp2) && BeginsAt(code, sp2) && PendingOk(s.code, s.pend)
      ensures Waits(e, sp1, sp2, x) && Grown(s, S(), sp1)
      ensures e.k.VNONRELOC? && e.k.info >= nactvar ==> e.k.info == sp1.free && sp2.free == sp1.free + 1
      ensures !(e.k.VNONRELOC? && e.k.info >= nactvar) ==> sp2.free == sp1.free
    {
      var a := UpTo(sp1, sp2);
      WaitsLater(m, s, S(), e.D(), a, sp2, x, nactvar);
      GrownSpan(s, S(), a, sp1);
    }

    lemma WaitsBegin(e: ExpDesc, sp1: Span, sp2: Span, x: Expr)
      requires Waits(e, sp1, sp2, x)
      ensures BeginsAt(code, sp1) && Own(sp2.from, sp1) && sp1.start <= sp2.start && nactvar <= sp1.free <= sp2.free
    {
    }

    lemma DescribedParts(e: ExpDesc, sp: Span, y: Meaning)
      requires Describes(e, sp, y)
      ensures ListsOk(S(), jl, e.t, e.f, e.D(), At(sp)) && Claim(m, S(), e.D(), At(sp), y) && nactvar <= sp.free
    {
    }

    lemma MakeDescribes(e: ExpDesc, sp: Span, x: Meaning)
      requires ListsOk(S(), jl, e.t, e.f, e.D(), At(sp)) && Claim(m, S(), e.D(), At(sp), x) && nactvar <= sp.free
      ensures Describes(e, sp, x)
    {
    }

    /** Two numbers give one. */
    lemma Folded(op: ArithOp, e1: ExpDesc, e2: ExpDesc, v: Number, sp1: Span, sp2: Span, x: Expr, y: Expr)
      requires Waits(e1, sp1, sp2, x) && Fresh(e2, sp2, y) && WellFormed(m, y, nactvar, nups)
      requires e1.k.VKNUM? && e2.k.VKNUM? && e2.t == e2.f && v == m.num(op, e1.k.nval, e2.k.nval)
      requires Folds(m, Arithmetical(op), x, y)
      ensures ListsOk(S(), jl, NO_JUMP, NO_JUMP, Desc(VKNUM(v), [], []), At(sp1))
          && nactvar <= sp1.free == sp2.free && e1.tl == [] && e1.fl == []
      ensures Claim(m, S(), Desc(VKNUM(v), [], []), At(sp1), Whole(Binary(Arithmetical(op), x, y)))
      ensures Grown(S(), S(), sp1)
    {
      hide Claim, Grown, WellFormed, Folds;
      var a, d := UpTo(sp1, sp2), Desc(VKNUM(v), [], []);
      OperandHere(e2, sp2, y);
      BeginsHere(S(), jl, e2.t, e2.f, e2.D(), At(sp2));
      FoldTo(m, S(), e1.D(), a, x, e2.D(), At(sp2), y, op, nactvar, nups);
      FoldLists(S(), jl, d, At(sp1), At(sp2));
      GrownRefl(S(), At(sp1));
      GrownSpan(S(), S(), At(sp1), sp1);
    }

    lemma FreshNumeral(e: ExpDesc, sp: Span, x: Expr)
      requires Fresh(e, sp, x)
      ensures NumeralKnown(e, x)
    {
      ListsFacts(e, sp, Whole(x));
    }

    lemma FoldsKnown(op: ArithOp, e1: ExpDesc, e2: ExpDesc, r: Option<Number>, x: Expr, y: Expr)
      requires NumeralKnown(e1, x) && NumeralKnown(e2, y)
      requires r == if IsNumeral(e1) && IsNumeral(e2) then FoldedNumber(m, op, e1.k.nval, e2.k.nval) else None
      ensures Folds(m, Arithmetical(op), x, y) <==> r.Some?
      ensures r.Some? ==> r.value == m.num(op, e1.k.nval, e2.k.nval) && !m.isnan(r.value)
      ensures var e := Binary(Arithmetical(op), x, y);
        (r.Some? ==> FormOf(m, e) == Literal(Num(r.value))) && !HasJumps(m, e, true) && !HasJumps(m, e, false)
    {
      hide FormOf, HasJumps;
      FormOfOperation(m, Arithmetical(op), x, y);
    }

    /** `codearith` for a binary operator. */
    method CodeArith(op: ArithOp, e1: ExpDesc, e2: ExpDesc, ghost sp1: Span, ghost sp2: Span, ghost x: Expr,
                     ghost y: Expr) returns (st: Status)
      requires Valid() && TailKnown(sp2) && Waits(e1, sp1, sp2, x) && Fresh(e2, sp2, y) && sp2.valued && e1 != e2
      requires NumeralKnown(e1, x) && WellFormed(m, y, nactvar, nups)
        && |k| + Unspent(e1.k) + Unspent(e2.k) <= MAXINDEXRK + 1
      modifies this, e1`k, e2
      ensures st.Ok? ==>
        && Valid() && TailKnown(sp1) && Fresh(e1, sp1, Binary(Arithmetical(op), x, y)) && Grown(old(S()), S(), sp1)
      ensures st.Ok? ==> |k| + Unspent(e1.k) <= |old(k)| + Unspent(old(e1.k)) + Unspent(old(e2.k))
      ensures st.Ok? ==> e1.k.VRELOCABLE? || (e1.k.VKNUM? && old(e1.k).VKNUM? && old(e2.k).VKNUM?)
      ensures st.Fail? ==> Exhausted()
    {
      hide Valid, Describes, Grown, WaitsOk, Folds, NumeralKnown, FormOf, HasJumps, RkFits, Holds, BeginsAt,
        WellFormed, OperandRk;
      FreshNumeral(e2, sp2, y);
      var r := ConstFolding(op, e1, e2);
      FoldsKnown(op, e1, e2, r, x, y);
      if r.Some? {
        Folded(op, e1, e2, r.value, sp1, sp2, x, y);
        StartsBefore(e2, sp2, Whole(y));
        TailWaits(e1, sp1, sp2, x);
        e1.k := VKNUM(r.value);
        MakeDescribes(e1, sp1, Whole(Binary(Arithmetical(op), x, y)));
      } else {
        ghost var s0 := S();
        var o1, o2 :- Operands(e1, e2, sp1, sp2, x, y);
        ghost var s1 := S();
        :- CodeOperation(op, e1, e2, o1, o2, sp1, sp2, x, y);
        GrownTrans(s0, s1, S(), sp1);
      }
      st := Ok;
    }

    /** Both operands ready: the comparison is coded. */
    method CodeComparison(op: BinOpr, e1: ExpDesc, e2: ExpDesc, o1: nat, o2: nat,
                          ghost sp1: Span, ghost sp2: Span, ghost x: Expr, ghost y: Expr) returns (st: Status)
      requires Valid() && Waits(e1, sp1, sp2, x) && !e1.k.VKNUM? && Describes(e2, sp2, Operand(y)) && Holds(e2.D())
      requires WellFormed(m, y, nactvar, nups)
      requires o1 == OperandRk(e1.D()) && o2 == OperandRk(e2.D()) && RkFits(o2, maxstacksize, |k|)
      requires freereg == sp1.free
      requires sp2.free <= maxstacksize && e1 != e2 && IsComparison(op)
      modifies `code, `pend, `jpc, `jl, e1`k
      ensures st.Ok? ==>
        && Valid() && Fresh(e1, sp1, Binary(op, x, y)) && e1.k.VJMP? && Grown(old(S()), S(), sp1) && TailKnown(sp1)
      ensures st.Fail? ==> Exhausted()
    {
      hide FormOf, HasJumps, ShapeOk, Claim, ListsOk, IsList, Grown, EmitTest, WaitsOk, Holds, OperandRk, RkFits,
        BeginsAt, WellFormed,
        CompareInstr;
      ghost var s, d1, a1, d2, a2, j := S(), e1.D(), UpTo(sp1, sp2), e2.D(), At(sp2), jl;
      FormOfOperation(m, op, x, y);
      HereOk(e2, sp2, Operand(y));
      ListsFacts2(m, s, d1, a1, d2, sp2, x, j, e2.t, e2.f, a2, nactvar);
      OperandTracked(s, j, e2.t, e2.f, d2, a2);
      CompareShape(op, o1, o2);
      var i := CompareInstr(op, o1, o2);
      var pc :- CondJump(i);
      JumpsReach(s, j, |s.code|);
      WaitsSpan(m, s, d1, a1, sp2, a2, x, nactvar);
      CompareMeans(m, s, d1, a1, x, d2, a2, y, op, nactvar, nups, maxstacksize);
      TestEnds(s, j, i);
      e1.k := VJMP(pc);
      GrownSpan(s, S(), a1, sp1);
      NoList(code);
      st := Ok;
    }

    /** `codecomp`. */
    method CodeComp(op: BinOpr, e1: ExpDesc, e2: ExpDesc, ghost sp1: Span, ghost sp2: Span, ghost x: Expr,
                    ghost y: Expr) returns (st: Status)
      requires Valid() && TailKnown(sp2) && Waits(e1, sp1, sp2, x) && Fresh(e2, sp2, y) && sp2.valued && e1 != e2
      requires IsComparison(op)
      requires WellFormed(m, y, nactvar, nups) && |k| + Unspent(e1.k) + Unspent(e2.k) <= MAXINDEXRK + 1
      modifies this, e1`k, e2
      ensures st.Ok? ==> Valid() && TailKnown(sp1) && Fresh(e1, sp1, Binary(op, x, y)) && Grown(old(S()), S(), sp1)
      ensures st.Ok? ==> |k| + Unspent(e1.k) <= |old(k)| + Unspent(old(e1.k)) + Unspent(old(e2.k)) && e1.k.VJMP?
      ensures st.Fail? ==> Exhausted()
    {
      hide Valid, Describes, Grown, WaitsOk, RkFits, Holds, BeginsAt, WellFormed, OperandRk;
      ghost var s0 := S();
      var o1, o2 :- Operands(e1, e2, sp1, sp2, x, y);
      ghost var s1 := S();
      :- CodeComparison(op, e1, e2, o1, o2, sp1, sp2, x, y);
      GrownTrans(s0, s1, S(), sp1);
      st := Ok;
    }

    // ----- unary operators -----

    /** The instruction for a unary operation on a register. */
    method CodeUnaryRegister(op: UnOpr, e: ExpDesc, ghost sp: Span, ghost x: Expr) returns (st: Status, pc: nat)
      requires Valid() && Ready(e, sp, x) && e.k.VNONRELOC? && op != Negate
      modifies `code, `pend, `jpc, `jl, `freereg
      ensures st.Ok? ==>
        && Valid() && jl == [] && pc + 1 == |code| && IsReloc(code[pc]) && !code[pc].Not? && freereg == sp.free
        && ListsOk(S(), jl, NO_JUMP, NO_JUMP, RelocDesc(pc, [], []), At(sp)) && nactvar <= sp.free
        && Claim(m, S(), RelocDesc(pc, [], []), At(sp), Whole(Unary(op, x))) && Grown(old(S()), S(), sp)
        && TailKnown(sp)
      ensures st.Fail? ==> Exhausted()
    {
      hide ShapeOk, Claim, ListsOk, IsList, Grown, Emitted, BeginsAt;
      ghost var s, d, a, j := S(), e.D(), At(sp), jl;
      HereOk(e, sp, Operand(x));
      StartsBefore(e, sp, Operand(x));
      var i := UnaryInstr(op, e.k.info);
      FreeExp(e);
      pc :- Code(i);
      JumpsReach(s, j, pc);
      UnaryMeans(m, s, e.t, e.f, d, a, x, op, maxstacksize, nups);
      GrownSpan(s, S(), a, sp);
      NoList(code);
      st := Ok;
    }

    /** The operand is in a register: the operation is coded. */
    method CodeUnaryOperation(op: UnOpr, e: ExpDesc, ghost sp: Span, ghost x: Expr) returns (st: Status)
      requires Valid() && Ready(e, sp, x) && e.k.VNONRELOC? && op != Negate
      requires op == Minus ==> NumeralOf(m, x) == None
      modifies `code, `pend, `jpc, `jl, `freereg, e`k
      ensures st.Ok? ==>
        && Valid() && Fresh(e, sp, Unary(op, x)) && e.k.VRELOCABLE? && Grown(old(S()), S(), sp) && TailKnown(sp)
      ensures st.Fail? ==> Exhausted()
    {
      hide Valid, FormOf, HasJumps, NumeralOf, Claim, ListsOk, Grown, TailKnown, Exhausted;
      FormOfUnary(m, op, x);
      var pc :- CodeUnaryRegister(op, e, sp, x);
      e.k := VRELOCABLE(pc);
      st := Ok;
    }

    /** `codearith` for `OP_UNM` and `OP_LEN`, whose operand may not be a constant. */
    method CodeUnary(op: UnOpr, e: ExpDesc, ghost sp: Span, ghost x: Expr) returns (st: Status)
      requires Valid() && NoNilAbove(e, sp, x) && sp.valued && op != Negate && NegationOk(m)
      requires (e.t == e.f ==> !e.k.VNIL? && !e.k.VTRUE? && !e.k.VFALSE?) && !e.k.VK?
      requires op == Minus ==> NumeralKnown(e, x)
      requires |k| + Unspent(e.k) <= MAXINDEXRK + 1 && (op == Length ==> e.k.VNONRELOC?)
      modifies this, e
      ensures st.Ok? ==> Valid() && TailKnown(sp) && Fresh(e, sp, Unary(op, x)) && Grown(old(S()), S(), sp)
      ensures st.Ok? ==>
        && |k| + Unspent(e.k) <= |old(k)| + Unspent(old(e.k)) && (e.k.VRELOCABLE? || (e.k.VKNUM? && old(e.k).VKNUM?))
      ensures st.Fail? ==> Exhausted()
    {
      hide Valid, Describes, Grown, BeginsAt;
      ghost var meaning := if Ready(e, sp, x) then Operand(x) else Whole(x);
      GrownHere(e, sp, meaning);
      ListsFacts(e, sp, meaning);
      if op == Minus && e.k.VKNUM? && e.t == NO_JUMP && e.f == NO_JUMP {  // a number is folded at once
        var v := m.unm(e.k.nval);
        FoldedMinus(e, v, sp, x);
        e.k := VKNUM(v);
        MakeDescribes(e, sp, Whole(Unary(Minus, x)));
      } else {
        ghost var s0 := S();
        var o :- Exp2RK(e, sp, x);
        ghost var s1 := S();
        :- CodeUnaryOperation(op, e, sp, x);
        GrownTrans(s0, s1, S(), sp);
      }
      st := Ok;
    }

    /** Expressions that have just been read, or brought to a register. */
    ghost predicate NoNilAbove(e: ExpDesc, sp: Span, x: Expr)
      reads this, e
    {
      (Fresh(e, sp, x) && TailKnown(sp)) || Ready(e, sp, x)
    }

    lemma FoldedMinus(e: ExpDesc, v: Number, sp: Span, x: Expr)
      requires Fresh(e, sp, x) && e.k.VKNUM? && e.t == e.f && v == m.unm(e.k.nval)
      ensures ListsOk(S(), jl, e.t, e.f, Desc(VKNUM(v), e.tl, e.fl), At(sp)) && nactvar <= sp.free == freereg
      ensures Claim(m, S(), Desc(VKNUM(v), e.tl, e.fl), At(sp), Whole(Unary(Minus, x)))
    {
      hide FormOf, HasJumps, Claim;
      OperandHere(e, sp, x);
      FreshNumeral(e, sp, x);
      FoldMinus(m, S(), e.D(), At(sp), x);
    }

    /** `luaK_prefix`. */
    method Prefix(op: UnOpr, e: ExpDesc, ghost sp: Span, ghost x: Expr) returns (st: Status)
      requires Valid() && TailKnown(sp) && Fresh(e, sp, x) && NegationOk(m) && |k| + Unspent(e.k) <= MAXINDEXRK + 1
      requires op != Negate ==> sp.valued
      requires op == Minus && e.t == e.f ==> !e.k.VNIL? && !e.k.VTRUE? && !e.k.VFALSE?
      modifies this, e
      ensures st.Ok? ==> Valid() && TailKnown(sp) && Fresh(e, sp, Unary(op, x)) && Grown(old(S()), S(), sp)
      ensures st.Ok? ==>
        && |k| + Unspent(e.k) <= |old(k)| + Unspent(old(e.k)) + (if op == Negate then 1 else 0) && !e.k.VNIL?
        && !e.k.VK?
      ensures st.Ok? && e.k.VTRUE? ==> op == Negate && (old(e.k).VNIL? || old(e.k).VFALSE?)
      ensures st.Ok? && e.k.VFALSE? ==> op == Negate && (old(e.k).VTRUE? || old(e.k).VK? || old(e.k).VKNUM?)
      ensures st.Ok? && e.k.VKNUM? ==> op == Minus && old(e.k).VKNUM?
      ensures st.Fail? ==> Exhausted()
    {
      hide Valid, Describes, Grown, BeginsAt;
      ghost var s0 := S();
      match op {
        case Minus =>
          GrownHere(e, sp, Whole(x));
          FreshNumeral(e, sp, x);
          if e.k.VK? {
            var _ :- Exp2AnyReg(e, sp, x);  // a string goes to a register
          }
          ghost var s1 := S();
          :- CodeUnary(Minus, e, sp, x);
          GrownTrans(s0, s1, S(), sp);
        case Negate =>
          :- CodeNot(e, sp, x);
        case Length =>
          var _ :- Exp2AnyReg(e, sp, x);
          ghost var s1 := S();
          :- CodeUnary(Length, e, sp, x);
          GrownTrans(s0, s1, S(), sp);
      }
      st := Ok;
    }

    /** `luaK_prefix` for minus before nil, true or false: they become constants, as the operands of
        other operations do, although the instruction takes its operand for a register. */
    method MinusLiteral(e: ExpDesc, ghost sp: Span, ghost x: Expr) returns (st: Status)
      requires Valid() && TailKnown(sp) && Fresh(e, sp, x) && sp.valued && |k| <= MAXINDEXRK
      requires e.t == e.f && (e.k.VNIL? || e.k.VTRUE? || e.k.VFALSE?)
      modifies this, e
      ensures st.Ok? ==>
        && |code| == |old(code)| + 1 && e.k == VRELOCABLE(|old(code)|)
        && exists i :: 0 <= i < |k| && k[i] == ConstantOf(old(e.k)) && code[|old(code)|] == Unm(0, BITRK + i)
      ensures st.Fail? ==> Exhausted()
    {
      hide Valid, Describes, Grown;
      :- ExpToK(e, sp, x);
      ListHere();
      ghost var i := e.k.info;
      var pc :- Code(UnaryInstr(Minus, BITRK + e.k.info));
      assert code[pc] == Unm(0, BITRK + i) && k[i] == ConstantOf(old(e.k)) && |code| == |old(code)| + 1;
      e.k := VRELOCABLE(pc);
      st := Ok;
    }

    lemma ListHere()
      requires Valid()
      ensures IsList(code, jpc, jl)
    {
    }

    // ----- and, or -----

    /** The first operand of `and` or `or` has decided and waits for the second one. */
    ghost predicate WaitsBranch(e: ExpDesc, sp1: Span, sp2: Span, x: Expr, sense: bool)
      reads `code, `pend, `k, e
    {
      && BranchWaits(m, S(), Head(e.t, e.f, sense), Leaving(e.D(), sense), UpTo(sp1, sp2),
          sp2, x, sense, nactvar)
      && Head(e.f, e.t, sense) == NO_JUMP && Passing(e.D(), sense) == []
    }

    lemma TailWaitsBranch(e: ExpDesc, sp1: Span, sp2: Span, x: Expr, sense: bool)
      requires TailKnown(sp2) && WaitsBranch(e, sp1, sp2, x, sense) && sp2.start <= |code|
      ensures TailKnown(sp1)
    {
      TailBoth(sp1, sp2);
    }

    lemma LogicReady(e1: ExpDesc, e2: ExpDesc, sp1: Span, sp2: Span, x: Expr, y: Expr, sense: bool)
      requires Valid() && WaitsBranch(e1, sp1, sp2, x, sense) && Describes(e2, sp2, Whole(y))
      requires WellFormed(m, y, nactvar, nups)
      ensures var l, d2, a2 := Leaving(e1.D(), sense), e2.D(), At(sp2);
        && IsList(code, Head(e1.t, e1.f, sense), l) && IsList(code, e2.t, e2.tl) && IsList(code, e2.f, e2.fl)
        && Apart(l, e2.tl) && Apart(l, e2.fl) && (l != [] ==> l[|l| - 1] < sp2.start <= Settled(d2, |code|))
        && JumpsIn(code, l) && Elems(l) <= pend && Own(l, sp1) && BeginsAt(code, sp1) && sp2.start <= |code|
        && Claim(m, S(), LogicDesc(d2, l, sense), At(sp1), Whole(Binary(if sense then And else Or, x, y)))
        && BranchWaits(m, S(), Head(e1.t, e1.f, sense), l, UpTo(sp1, sp2), a2, x, sense,
            nactvar)
    {
      hide ShapeOk, Claim, BranchWaits, ListsOk, IsList, WellFormed;
      var l, d2, a1, a2 := Leaving(e1.D(), sense), e2.D(), UpTo(sp1, sp2), At(sp2);
      var head := Head(e1.t, e1.f, sense);
      BranchSpan(m, S(), head, l, a1, sp2, a2, x, sense, nactvar);
      BranchParts(m, S(), head, l, a1, a2, x, sense, nactvar);
      LogicLists(m, S(), jl, head, l, a1, e2.t, e2.f, d2, a2, x, sense, nactvar);
      LogicClaim(m, S(), jl, head, l, a1, e2.t, e2.f, d2, a2, x, y, sense, nactvar, nups);
      ListJumps(code, head, l);
    }

    /** The lists of both operands have been joined in the code. */
    ghost predicate Logic(e1: ExpDesc, e2: ExpDesc, head: int, sp1: Span, x: Expr, y: Expr, sense: bool)
      reads `code, `pend, `k, `jl, `lasttarget, e1, e2
    {
      var d := LogicDesc(e2.D(), Leaving(e1.D(), sense), sense);
      && ListsOk(S(), jl, if sense then e2.t else head, if sense then head else e2.f, d, At(sp1))
      && Claim(m, S(), d, At(sp1), Whole(Binary(if sense then And else Or, x, y))) && nactvar <= sp1.free
      && TailKnown(sp1)
    }

    /** The `luaK_concat` of `luaK_posfix` for `and` (`sense` true) and `or`. */
    method LinkOperands(sense: bool, e1: ExpDesc, e2: ExpDesc, ghost sp1: Span, ghost sp2: Span, ghost x: Expr,
                        ghost y: Expr) returns (st: Status, head: int)
      requires Valid() && TailKnown(sp2) && WaitsBranch(e1, sp1, sp2, x, sense) && Fresh(e2, sp2, y)
      requires WellFormed(m, y, nactvar, nups) && sp1.free == sp2.free
      modifies `code
      ensures st.Ok? ==> Valid() && Logic(e1, e2, head, sp1, x, y, sense) && Grown(old(S()), S(), sp1)
      ensures st.Ok? ==> KindOk(e2.k) && KindForm(e2.k) == old(KindForm(e2.k))
      ensures st.Fail? ==> Exhausted()
    {
      hide FormOf, HasJumps, Passes, ShapeOk, Claim, BranchWaits, ListsOk, IsList, WellFormed, Grown, Linked, BeginsAt,
        TailFits;
      ghost var s, l, d2, a2 := S(), Leaving(e1.D(), sense), e2.D(), At(sp2);
      ghost var a := At(sp1);
      HereOk(e2, sp2, Whole(y));
      LogicReady(e1, e2, sp1, sp2, x, y, sense);
      TailWaitsBranch(e1, sp1, sp2, x, sense);
      head :- Concat(if sense then e1.f else e1.t, if sense then e2.f else e2.t, l, Joining2(d2, sense));
      LogicDone(m, s, jl, Head(e1.t, e1.f, sense), l, UpTo(sp1, sp2), e2.t, e2.f, d2, a2, x, y, sense, nactvar, a,
                S(), head, jpc, maxstacksize, nups);
      TailKept(s.code, code, lasttarget, sp1);
      GrownSpan(s, S(), a, sp1);
      st := Ok;
    }

    /** `luaK_posfix` for `and`, after `luaK_dischargevars`. */
    method PosfixAnd(e1: ExpDesc, e2: ExpDesc, ghost sp1: Span, ghost sp2: Span, ghost x: Expr,
                     ghost y: Expr) returns (st: Status)
      requires Valid() && TailKnown(sp2) && WaitsBranch(e1, sp1, sp2, x, true) && Fresh(e2, sp2, y)
      requires WellFormed(m, y, nactvar, nups) && e1 != e2 && LeavesKnown(e1, x, true)
      requires !e2.k.VLOCAL? && !e2.k.VUPVAL? && sp1.free == sp2.free
      modifies `code, e1
      ensures st.Ok? ==>
        && Valid() && TailKnown(sp1) && Fresh(e1, sp1, Binary(And, x, y)) && Grown(old(S()), S(), sp1) && e1.k == e2.k
      ensures st.Fail? ==> Exhausted()
    {
      hide FormOf, HasJumps, Passes, Valid, KindOk, KindForm, Claim, WaitsBranch, ListsOk, WellFormed, Grown, TailKnown;
      FormOfLogic(m, x, y, true);
      var head :- LinkOperands(true, e1, e2, sp1, sp2, x, y);
      e1.f, e1.k, e1.t, e1.tl, e1.fl := head, e2.k, e2.t, e2.tl, e1.fl + e2.fl;
      st := Ok;
    }

    /** `luaK_posfix` for `or`, after `luaK_dischargevars`. */
    method PosfixOr(e1: ExpDesc, e2: ExpDesc, ghost sp1: Span, ghost sp2: Span, ghost x: Expr,
                    ghost y: Expr) returns (st: Status)
      requires Valid() && TailKnown(sp2) && WaitsBranch(e1, sp1, sp2, x, false) && Fresh(e2, sp2, y)
      requires WellFormed(m, y, nactvar, nups) && e1 != e2 && LeavesKnown(e1, x, false)
      requires !e2.k.VLOCAL? && !e2.k.VUPVAL? && sp1.free == sp2.free
      modifies `code, e1
      ensures st.Ok? ==>
        && Valid() && TailKnown(sp1) && Fresh(e1, sp1, Binary(Or, x, y)) && Grown(old(S()), S(), sp1) && e1.k == e2.k
      ensures st.Fail? ==> Exhausted()
    {
      hide FormOf, HasJumps, Passes, Valid, KindOk, KindForm, Claim, WaitsBranch, ListsOk, WellFormed, Grown, TailKnown;
      FormOfLogic(m, x, y, false);
      var head :- LinkOperands(false, e1, e2, sp1, sp2, x, y);
      e1.t, e1.k, e1.f, e1.fl, e1.tl := head, e2.k, e2.f, e2.fl, e1.tl + e2.tl;
      st := Ok;
    }

    // ----- expressions -----

    /** The span of an expression that begins here. */
    ghost function Here(): Span
      reads this
    {
      Span(|code|, jl, ValueJumps(code, jl), |code|, jl, ValueJumps(code, jl), lasttarget < |code|, freereg, true)
    }

    lemma HereBegins()
      requires Valid()
      ensures TailKnown(Here())
      ensures BeginsAt(code, Here()) && Grown(S(), S(), Here()) && Own(jl, Here())
    {
      ShapeSnap(S(), maxstacksize, nups);
      ListJumps(code, jpc, jl);
      NoTestAt(S(), |code|);
      GrownRefl(S(), Here());
    }

    /** From the second of two expressions in a row to both. */
    lemma TailBoth(sp1: Span, sp2: Span)
      requires TailKnown(sp2) && FallsOn(code, sp1, sp2) && sp1.start <= sp2.start <= |code|
      ensures TailKnown(sp1)
    {
    }

    lemma TailWaits(e: ExpDesc, sp1: Span, sp2: Span, x: Expr)
      requires TailKnown(sp2) && Waits(e, sp1, sp2, x) && sp2.start <= |code|
      ensures TailKnown(sp1)
    {
      TailBoth(sp1, sp2);
    }

    /** An operand that is ready, or a number, can wait from here on. */
    lemma CanWait(e: ExpDesc, sp: Span, x: Expr)
      requires Valid() && TailKnown(sp) && sp.valued && CarryKnown(m, e.D(), sp, x)
      requires Ready(e, sp, x) || (Fresh(e, sp, x) && e.k.VKNUM? && e.t == e.f)
      requires sp.start <= |code|
      ensures Waits(e, sp, Here(), x) && BeginsAt(code, Here())
    {
      HereBegins();
      if !Ready(e, sp, x) { OperandHere(e, sp, x); }
      BeginsHere(S(), jl, e.t, e.f, e.D(), At(sp));
    }

    /** So can an operand that has decided. */
    lemma CanWaitBranch(e: ExpDesc, sp: Span, x: Expr, sense: bool)
      requires Valid() && TailKnown(sp) && Decided(e, sp, x, sense) && sp.valued
      ensures WaitsBranch(e, sp, Here(), x, sense) && BeginsAt(code, Here())
    {
      hide Branch, ShapeOk, IsList, BeginsAt, Grown, TailFits, TailKnown, Elems;
      HereBegins();
      FallsHere(sp);
    }

    lemma FallsHere(sp: Span)
      requires TailKnown(sp) && sp.start <= |code|
      ensures FallsOn(code, sp, Here())
    {
    }

    /** A descriptor of an expression that needs no code. */
    method Leaf(kind: ExpKind, ghost sp: Span, ghost x: Expr) returns (e: ExpDesc)
      requires Valid() && sp == Here() && KindOk(kind) && !kind.VJMP? && !kind.VRELOCABLE? && !kind.VNONRELOC?
      requires (kind.VK? ==> k[kind.info].Str?) && IsLeaf(kind, x, k)
      ensures fresh(e) && Fresh(e, sp, x) && e.k == kind && Grown(S(), S(), sp)
    {
      hide ShapeOk, Claim, ListsOk, IsList, Grown;
      e := new ExpDesc(kind);
      HereBegins();
      RegsOk();
      LeafClaim(m, S(), Desc(kind, [], []), sp, x);
      LeafLists(S(), jl, Desc(kind, [], []), sp);
    }

    /** An expression in parentheses means the same, and no value less is promised of it. */
    lemma FreshAs(e: ExpDesc, sp: Span, x: Expr, sp': Span, x': Expr)
      requires Fresh(e, sp, x) && (x' == x || x' == Paren(x)) && (sp' == sp || sp' == sp.(valued := false))
      ensures TailKnown(sp) ==> TailKnown(sp')
      ensures Fresh(e, sp', x')
    {
      SameMeaning(m, S(), e.D(), At(sp), x, At(sp'), x');
      SameLists(S(), jl, e.t, e.f, e.D(), At(sp), At(sp'));
    }

    /** What the code generator needs of an expression: constants that fit operands. */
    ghost predicate Compilable(x: Expr)
      reads `k
    {
      WellFormed(m, x, nactvar, nups) && |k| + Constants(x) <= MAXINDEXRK + 1 && MinusOk(m, x)
    }

    /** The expression has been compiled. */
    ghost predicate Compiled(e: ExpDesc, sp: Span, x: Expr, k0: int)
      reads this, e
    {
      Valid() && TailKnown(sp) && Fresh(e, sp, x) && |k| + Unspent(e.k) <= k0 + Constants(x)
    }

    /** `simpleexp` and `prefixexp`, for constants and variables. */
    method SimpleExpression(x: Expr, ghost sp: Span) returns (st: Status, e: ExpDesc)
      requires Valid() && sp == Here() && Compilable(x)
      requires !x.Paren? && !x.Unary? && !x.Binary?
      modifies `k, `h
      ensures fresh(e)
      ensures st.Ok? ==> Compiled(e, sp, x, |old(k)|) && Grown(old(S()), S(), sp)
      ensures st.Fail? ==> Exhausted()
    {
      hide ShapeOk, Describes;
      st := Ok;
      ghost var s0 := S();
      HereBegins();
      match x {
        case NilE => e := Leaf(VNIL, sp, x);
        case TrueE => e := Leaf(VTRUE, sp, x);
        case FalseE => e := Leaf(VFALSE, sp, x);
        case Numeral(n) => e := Leaf(VKNUM(n), sp, x);
        case Text(s) =>
          e := new ExpDesc(VNIL);
          var i :- AddK(Str(s));
          e := Leaf(VK(i), sp, x);
          ConstantsGrown(s0, S(), sp);
        case Local(r) => e := Leaf(VLOCAL(r), sp, x);
        case Upvalue(u) => e := Leaf(VUPVAL(u), sp, x);
      }
    }

    /** After the operand of a unary operator. */
    method FinishUnary(op: UnOpr, e: ExpDesc, ghost sp: Span, ghost x: Expr, ghost k0: int) returns (st: Status)
      requires Compiled(e, sp, x, k0) && NegationOk(m) && k0 + Constants(Unary(op, x)) <= MAXINDEXRK + 1
      requires sp.valued && MinusOk(m, Unary(op, x))
      modifies this, e
      ensures st.Ok? ==> Compiled(e, sp, Unary(op, x), k0) && Grown(old(S()), S(), sp)
      ensures st.Fail? ==> Exhausted()
    {
      hide Valid, Fresh, TailKnown, Grown;
      if op == Minus { MinusKnown(e, sp, x); }
      :- Prefix(op, e, sp, x);
      st := Ok;
    }

    /** Minus is before nil, true or false exactly if the descriptor is one of them, without lists. */
    lemma MinusKnown(e: ExpDesc, sp: Span, x: Expr)
      requires Fresh(e, sp, x) && MinusOk(m, x)
      ensures MinusOk(m, Unary(Minus, x)) <==> !(e.t == e.f && (e.k.VNIL? || e.k.VTRUE? || e.k.VFALSE?))
    {
      ListsFacts(e, sp, Whole(x));
    }

    /** After both operands of an arithmetic operator or a comparison. */
    method FinishBinary(op: BinOpr, e1: ExpDesc, e2: ExpDesc, ghost sp1: Span, ghost sp2: Span, ghost x: Expr,
                        ghost y: Expr, ghost k0: int)
        returns (st: Status)
      requires op.Arithmetical? || IsComparison(op)
      requires Waits(e1, sp1, sp2, x) && Compiled(e2, sp2, y, k0) && sp2.valued && e1 != e2
      requires WellFormed(m, y, nactvar, nups)
      requires k0 + Unspent(e1.k) + Constants(y) <= MAXINDEXRK + 1
      requires NumeralKnown(e1, x)
      modifies this, e1`k, e2
      ensures st.Ok? ==>
        && Compiled(e1, sp1, Binary(op, x, y), k0 - Constants(x) + Unspent(old(e1.k))) && Grown(old(S()), S(), sp1)
      ensures st.Fail? ==> Exhausted()
    {
      hide Valid, Fresh, TailKnown, Grown, WaitsOk, WellFormed;
      if op.Arithmetical? {
        :- CodeArith(op.op, e1, e2, sp1, sp2, x, y);
      } else {
        :- CodeComp(op, e1, e2, sp1, sp2, x, y);
      }
      st := Ok;
    }

    /** `luaK_infix` for arithmetic and comparisons: the first operand is made ready, unless
        it is a number that may yet be folded. */
    method InfixOperand(e: ExpDesc, ghost sp: Span, ghost x: Expr, ghost k0: int) returns (st: Status)
      requires Compiled(e, sp, x, k0) && sp.valued && k0 + Constants(x) <= MAXINDEXRK + 1
      modifies this, e
      ensures st.Ok? ==>
        && Valid() && TailKnown(sp) && Waits(e, sp, Here(), x) && BeginsAt(code, Here())
        && Grown(old(S()), S(), sp)
      ensures st.Ok? ==> |k| + Unspent(e.k) <= k0 + Constants(x) && NumeralKnown(e, x)
      ensures st.Fail? ==> Exhausted()
    {
      hide Valid, Describes, Grown, TailKnown, WaitsOk, BeginsAt;
      ghost var s0 := S();
      GrownHere(e, sp, Whole(x));
      ListsFacts(e, sp, Whole(x));
      StartsBefore(e, sp, Whole(x));
      FreshNumeral(e, sp, x);
      if !(e.k.VKNUM? && e.t == NO_JUMP && e.f == NO_JUMP) {
        var _ :- Exp2RK(e, sp, x);
        StartsBefore(e, sp, Operand(x));
      }
      CanWait(e, sp, x);
      st := Ok;
    }

    lemma StartsBefore(e: ExpDesc, sp: Span, x: Meaning)
      requires Describes(e, sp, x)
      ensures sp.start <= |code| && (e.k.VRELOCABLE? && code != [] ==> sp.start < |code|)
      ensures (e.k.VJMP? && |code| >= 2 ==> sp.start < |code|)
    {
      hide OwnList, BeginsAt;
    }

    /** The first operand of a logical operator, compiled and decided. */
    method InfixLogic(sense: bool, e: ExpDesc, ghost sp: Span, ghost x: Expr, ghost k0: int) returns (st: Status)
      requires Compiled(e, sp, x, k0) && sp.valued
      modifies this, e
      ensures st.Ok? ==>
        && Valid() && TailKnown(sp) && WaitsBranch(e, sp, Here(), x, sense) && BeginsAt(code, Here())
      ensures st.Ok? ==> Grown(old(S()), S(), sp) && |k| <= k0 + Constants(x) && freereg == sp.free
      ensures st.Ok? ==> LeavesKnown(e, x, sense)
      ensures st.Fail? ==> Exhausted()
    {
      hide Valid, Fresh, Grown, TailKnown, BranchWaits, BeginsAt, DecidedAt;
      if sense {
        :- GoIfTrue(e, sp, x);
      } else {
        :- GoIfFalse(e, sp, x);
      }
      CanWaitBranch(e, sp, x, sense);
      st := Ok;
    }

    /** The first operand of a logical operator has waited since `s`. */
    lemma WaitsBranchOn(e: ExpDesc, sp1: Span, sp2: Span, x: Expr, sense: bool, s: Snap)
      requires BranchWaits(m, s, Head(e.t, e.f, sense), Leaving(e.D(), sense), UpTo(sp1, sp2), sp2, x, sense, nactvar)
      requires Head(e.f, e.t, sense) == NO_JUMP && Passing(e.D(), sense) == []
      requires Grown(s, S(), sp2) && BeginsAt(s.code, sp2) && BeginsAt(code, sp2) && PendingOk(s.code, s.pend)
      ensures WaitsBranch(e, sp1, sp2, x, sense) && Grown(s, S(), sp1) && sp1.free == sp2.free
    {
      var a := UpTo(sp1, sp2);
      BranchWaitsLater(m, s, S(), Head(e.t, e.f, sense), Leaving(e.D(), sense), a, sp2, x, sense, nactvar);
      GrownSpan(s, S(), a, sp1);
    }

    /** The second operand of a logical operator is discharged. */
    method SecondLogic(sense: bool, e1: ExpDesc, e2: ExpDesc, ghost sp1: Span, ghost sp2: Span, ghost x: Expr,
                       ghost y: Expr) returns (st: Status)
      requires WaitsBranch(e1, sp1, sp2, x, sense) && Valid() && TailKnown(sp2) && Fresh(e2, sp2, y) && e1 != e2
      modifies `code, `pend, `jpc, `jl, e2`k
      ensures st.Ok? ==>
        && WaitsBranch(e1, sp1, sp2, x, sense) && Valid() && TailKnown(sp2) && Fresh(e2, sp2, y) && !e2.k.VLOCAL?
        && !e2.k.VUPVAL?
        && sp1.free == sp2.free && Grown(old(S()), S(), sp1)
      ensures st.Ok? ==> e2.k == old(e2.k) || e2.k.VNONRELOC? || e2.k.VRELOCABLE?
      ensures st.Fail? ==> Exhausted()
    {
      hide Valid, Describes, Grown, TailKnown, BranchWaits, BeginsAt;
      ghost var s0 := S();
      GrownHere(e2, sp2, Whole(y));
      RegsOk();
      :- DischargeVars(e2, sp2, Whole(y));
      GrownHere(e2, sp2, Whole(y));
      WaitsBranchOn(e1, sp1, sp2, x, sense, s0);
      st := Ok;
    }

    /** `luaK_posfix` for `and` and `or`. */
    method FinishLogic(sense: bool, e1: ExpDesc, e2: ExpDesc, ghost sp1: Span, ghost sp2: Span, ghost x: Expr,
                       ghost y: Expr, ghost k0: int)
        returns (st: Status)
      requires WaitsBranch(e1, sp1, sp2, x, sense) && Compiled(e2, sp2, y, k0) && e1 != e2
      requires WellFormed(m, y, nactvar, nups) && LeavesKnown(e1, x, sense)
      modifies this, e1, e2`k
      ensures st.Ok? ==>
        && Compiled(e1, sp1, Binary(if sense then And else Or, x, y), k0 - Constants(x)) && Grown(old(S()), S(), sp1)
      ensures st.Fail? ==> Exhausted()
    {
      hide Valid, Fresh, Grown, TailKnown, WaitsBranch, WellFormed;
      ghost var s0 := S();
      :- SecondLogic(sense, e1, e2, sp1, sp2, x, y);
      ghost var s1 := S();
      if sense {
        :- PosfixAnd(e1, e2, sp1, sp2, x, y);
      } else {
        :- PosfixOr(e1, e2, sp1, sp2, x, y);
      }
      GrownTrans(s0, s1, S(), sp1);
      st := Ok;
    }

    /** After the closing parenthesis: `luaK_dischargevars`. */
    method FinishParen(e: ExpDesc, ghost sp: Span, ghost x: Expr, ghost k0: int) returns (st: Status)
      requires Compiled(e, sp, x, k0)
      modifies this, e
      ensures st.Ok? ==> Compiled(e, sp, Paren(x), k0) && Grown(old(S()), S(), sp)
      ensures st.Fail? ==> Exhausted()
    {
      hide Valid, Describes, Grown, TailKnown, Exhausted;
      :- DischargeVars(e, sp, Whole(x));
      FreshAs(e, sp, x, sp, Paren(x));
      st := Ok;
    }

    /** `subexpr`, along the tree of the expression. */
    method Expression(x: Expr, ghost sp: Span) returns (st: Status, e: ExpDesc)
      requires Valid() && sp == Here() && Compilable(x) && NegationOk(m)
      modifies this
      ensures fresh(e)
      ensures st.Ok? ==> Compiled(e, sp, x, |old(k)|) && Grown(old(S()), S(), sp)
      ensures st.Fail? ==> Exhausted()
      decreases x, 1
    {
      hide Valid, Fresh, Describes, Grown, TailKnown, Exhausted;
      e := new ExpDesc(VNIL);
      ghost var s0 := S();
      match x {
        case Paren(x1) =>
          e :- Expression(x1, sp);
          ghost var s1 := S();
          :- FinishParen(e, sp, x1, |s0.k|);
          GrownTrans(s0, s1, S(), sp);
        case Unary(op, x1) =>
          e :- Expression(x1, sp);
          ghost var s1 := S();
          :- FinishUnary(op, e, sp, x1, |s0.k|);
          GrownTrans(s0, s1, S(), sp);
        case Binary(op, x1, x2) =>
          if op.And? || op.Or? {
            e :- LogicExpression(op.And?, x1, x2, sp);
          } else {
            e :- OperationExpression(op, x1, x2, sp);
          }
        case _ =>
          e :- SimpleExpression(x, sp);
      }
      st := Ok;
    }

    /** `and` and `or`, from the second operand on. */
    method LogicSecond(sense: bool, e: ExpDesc, x: Expr, y: Expr, ghost sp: Span) returns (st: Status)
      requires Valid() && TailKnown(sp) && WaitsBranch(e, sp, Here(), x, sense)
      requires BeginsAt(code, Here())
      requires Compilable(y) && NegationOk(m) && LeavesKnown(e, x, sense) && sp.valued
      modifies this, e
      ensures st.Ok? ==>
        && Compiled(e, sp, Binary(if sense then And else Or, x, y), |old(k)| - Constants(x)) && Grown(old(S()), S(), sp)
      ensures st.Fail? ==> Exhausted()
      decreases y, 2
    {
      hide Valid, Describes, Grown, TailKnown, BranchWaits, BeginsAt, Fresh, Compilable;
      ghost var s2, sp2 := S(), Here();
      RegsOk();
      WellFormedOf(y);
      var e2 :- Expression(y, sp2);
      ghost var s3 := S();
      FreshBegins(e2, sp2, y);
      WaitsBranchOn(e, sp, sp2, x, sense, s2);
      :- FinishLogic(sense, e, e2, sp, sp2, x, y, |s2.k|);
      GrownTrans(s2, s3, S(), sp);
      st := Ok;
    }

    lemma WellFormedOf(x: Expr)
      requires Compilable(x)
      ensures WellFormed(m, x, nactvar, nups)
    {
    }

    lemma OperandsOf(op: BinOpr, x: Expr, y: Expr)
      requires WellFormed(m, Binary(op, x, y), nactvar, nups) && MinusOk(m, Binary(op, x, y))
      ensures WellFormed(m, x, nactvar, nups) && MinusOk(m, x) && WellFormed(m, y, nactvar, nups) && MinusOk(m, y)
      ensures Constants(Binary(op, x, y)) >= Constants(x) + Constants(y) && Constants(y) >= 0
    {
    }

    /** `and` and `or`. */
    method LogicExpression(sense: bool, x: Expr, y: Expr, ghost sp: Span) returns (st: Status, e: ExpDesc)
      requires Valid() && sp == Here() && Compilable(Binary(if sense then And else Or, x, y))
      requires NegationOk(m)
      modifies this
      ensures fresh(e)
      ensures st.Ok? ==> Compiled(e, sp, Binary(if sense then And else Or, x, y), |old(k)|) && Grown(old(S()), S(), sp)
      ensures st.Fail? ==> Exhausted()
      decreases Binary(if sense then And else Or, x, y), 0
    {
      hide Valid, Describes, Grown, TailKnown, WaitsBranch, BeginsAt, Fresh, Exhausted, WellFormed, MinusOk,
        LeavesKnown;
      OperandsOf(if sense then And else Or, x, y);
      e := new ExpDesc(VNIL);
      ghost var s0 := S();
      e :- Expression(x, sp);
      ghost var s1 := S();
      :- InfixLogic(sense, e, sp, x, |s0.k|);
      ghost var s2 := S();
      GrownTrans(s0, s1, s2, sp);
      :- LogicSecond(sense, e, x, y, sp);
      GrownTrans(s0, s2, S(), sp);
      st := Ok;
    }

    /** Arithmetic operators and comparisons, from the second operand on. */
    method OperationSecond(op: BinOpr, e: ExpDesc, x: Expr, y: Expr, ghost sp: Span, ghost k0: int)
        returns (st: Status)
      requires op.Arithmetical? || IsComparison(op)
      requires Valid() && TailKnown(sp) && Waits(e, sp, Here(), x) && BeginsAt(code, Here()) && sp.valued
      requires WellFormed(m, y, nactvar, nups) && MinusOk(m, y) && NegationOk(m) && NumeralKnown(e, x)
      requires |k| + Unspent(e.k) <= k0 + Constants(x) && k0 + Constants(Binary(op, x, y)) <= MAXINDEXRK + 1
      modifies this, e
      ensures st.Ok? ==> Compiled(e, sp, Binary(op, x, y), k0) && Grown(old(S()), S(), sp)
      ensures st.Fail? ==> Exhausted()
      decreases y, 2
    {
      hide Valid, Describes, Grown, TailKnown, WaitsOk, BeginsAt, Fresh, Exhausted, WellFormed, MinusOk, NumeralKnown;
      ghost var s2, sp2 := S(), Here();
      RegsOk();
      var e2 :- Expression(y, sp2);
      ghost var s3 := S();
      FreshBegins(e2, sp2, y);
      WaitsOn(e, sp, sp2, x, s2);
      :- FinishBinary(op, e, e2, sp, sp2, x, y, |s2.k|);
      GrownTrans(s2, s3, S(), sp);
      st := Ok;
    }

    /** Arithmetic operators and comparisons. */
    method OperationExpression(op: BinOpr, x: Expr, y: Expr, ghost sp: Span) returns (st: Status, e: ExpDesc)
      requires Valid() && sp == Here() && Compilable(Binary(op, x, y)) && NegationOk(m)
      requires op.Arithmetical? || IsComparison(op)
      modifies this
      ensures fresh(e)
      ensures st.Ok? ==> Compiled(e, sp, Binary(op, x, y), |old(k)|) && Grown(old(S()), S(), sp)
      ensures st.Fail? ==> Exhausted()
      decreases Binary(op, x, y), 0
    {
      hide Valid, Describes, Grown, TailKnown, WaitsOk, BeginsAt, Fresh, Exhausted;
      e := new ExpDesc(VNIL);
      ghost var s0 := S();
      e :- Expression(x, sp);
      ghost var s1 := S();
      :- InfixOperand(e, sp, x, |s0.k|);
      ghost var s2 := S();
      GrownTrans(s0, s1, s2, sp);
      :- OperationSecond(op, e, x, y, sp, |s0.k|);
      GrownTrans(s0, s2, S(), sp);
      st := Ok;
    }

    // ----- statements around an expression -----

    /** `expr` and `luaK_exp2nextreg`, as for a local variable or an argument: in whatever
        finished code, a run that enters the code of the expression computes its value
        in the next free register, and leaves the registers below it alone. */
    method ValueToNextReg(x: Expr, ghost sp: Span) returns (st: Status)
      requires Valid() && sp == Here() && Compilable(x) && NegationOk(m)
      modifies this
      ensures st.Ok? ==>
        && Valid() && freereg == old(freereg) + 1 && Grown(old(S()), S(), sp) && |k| <= |old(k)| + Constants(x)
      ensures st.Ok? ==> forall w, r0 :: Resolved(w, S(), jl) && |r0| == MAXSTACK && Entered(w, r0, sp) ==>
        Computes(m, w, sp.start, r0, Computed(m, w.up, r0, x), |code|, sp.free, sp.free)
      ensures st.Ok? && LostValues.KeepsValue(m, x) ==>
        forall w, r0 :: Resolved(w, S(), jl) && |r0| == MAXSTACK && Entered(w, r0, sp) ==>
          Computes(m, w, sp.start, r0, Eval(m, w.up, r0, x), |code|, sp.free, sp.free)
      ensures st.Fail? ==> Exhausted()
    {
      hide Valid, Fresh, Ready, Grown, TailKnown, Resolved, Computes, Entered;
      ghost var s0 := S();
      var e :- Expression(x, sp);
      ghost var s1 := S();
      :- Exp2NextReg(e, sp, x);
      GrownTrans(s0, s1, S(), sp);
      ReadyRuns(e, sp, x);
      Keeps(x);
      st := Ok;
    }

    /** Where no course loses the value, it is that of the expression. */
    lemma Keeps(x: Expr)
      ensures LostValues.KeepsValue(m, x) ==> forall up, r0 :: Computed(m, up, r0, x) == Eval(m, up, r0, x)
      ensures LostValues.KeepsTruth(m, x) ==>
        forall up, r0 :: ComputedTruth(m, up, r0, x) == TruthOf(Eval(m, up, r0, x))
    {
      hide LostValues.KeepsValue, LostValues.KeepsTruth, Computed, ComputedTruth, Eval;
      forall up, r0
        ensures LostValues.KeepsValue(m, x) ==> Computed(m, up, r0, x) == Eval(m, up, r0, x)
        ensures LostValues.KeepsTruth(m, x) ==> ComputedTruth(m, up, r0, x) == TruthOf(Eval(m, up, r0, x))
      {
        if LostValues.KeepsValue(m, x) { LostValues.ValueKept(m, up, r0, x); }
        if LostValues.KeepsTruth(m, x) { LostValues.TruthKept(m, up, r0, x); }
      }
    }

    lemma ReadyRuns(e: ExpDesc, sp: Span, x: Expr)
      requires Ready(e, sp, x) && e.k.VNONRELOC?
      ensures forall w, r0 :: Resolved(w, S(), jl) && |r0| == MAXSTACK && Entered(w, r0, sp) ==>
        Computes(m, w, sp.start, r0, Computed(m, w.up, r0, x), |code|, e.k.info, sp.free)
    {
      hide Computed, Resolved, Computes, Entered, Claim, ListsOk;
      forall w, r0 | Resolved(w, S(), jl) && |r0| == MAXSTACK && Entered(w, r0, sp)
        ensures Computes(m, w, sp.start, r0, Computed(m, w.up, r0, x), |code|, e.k.info, sp.free)
      {
        SameEntry(w, r0, sp, At(sp));
        ValueRuns(m, S(), jl, e.k.info, At(sp), x, w, r0);
      }
    }

    /** `cond`: the jumps of the list `f` leave where the value is false. */
    method Cond(x: Expr, ghost sp: Span) returns (st: Status, e: ExpDesc)
      requires Valid() && sp == Here() && Compilable(x) && NegationOk(m)
      modifies this
      ensures fresh(e)
      ensures st.Ok? ==>
        && Valid() && Decided(e, sp.(valued := false), x, true) && TailKnown(sp)
        && Grown(old(S()), S(), sp)
      ensures st.Fail? ==> Exhausted()
    {
      hide Valid, Fresh, Grown, TailKnown, DecidedAt, LeavesKnown;
      e := new ExpDesc(VNIL);
      ghost var s0, spt := S(), sp.(valued := false);
      e :- Expression(x, sp);
      ghost var s1 := S();
      FreshAs(e, sp, x, spt, x);
      if e.k.VNIL? {
        FreshFalse(e, spt, x);
        e.k := VFALSE;
        FreshConstant(e, spt, Unary(Negate, Unary(Negate, x)));
        :- GoIfTrue(e, spt, Unary(Negate, Unary(Negate, x)));
        DecidedTruth(e, spt, x);
      } else {
        :- GoIfTrue(e, spt, x);
      }
      GrownSpan(s1, S(), spt, sp);
      TailSpan(spt, sp);
      GrownTrans(s0, s1, S(), sp);
      st := Ok;
    }

    lemma TailSpan(sp: Span, sp': Span)
      requires TailKnown(sp) && sp' == sp.(valued := sp'.valued)
      ensures TailKnown(sp')
    {
    }

    /** `nil` may stand for any false value where only the truth matters. */
    lemma FreshFalse(e: ExpDesc, sp: Span, x: Expr)
      requires Valid() && Fresh(e, sp, x) && e.k.VNIL? && !sp.valued
      ensures var d, y := Desc(VFALSE, e.tl, e.fl), Unary(Negate, Unary(Negate, x));
        && ListsOk(S(), jl, e.t, e.f, d, At(sp)) && Claim(m, S(), d, At(sp), Whole(y)) && nactvar <= sp.free == freereg
        && FormOf(m, y) == KindForm(VFALSE) && ListsKnown(e, y)
    {
      hide FormOf, HasJumps, ShapeOk, Claim, ListsOk, IsList;
      FormOfNot(m, x);
      FormOfNot(m, Unary(Negate, x));
      var d1 := Swapped(e.D(), VTRUE);
      ConstantNegated(m, S(), e.t, e.f, e.D(), At(sp), VTRUE, x, maxstacksize, nups);
      ConstantNegated(m, S(), e.f, e.t, d1, At(sp), VFALSE, Unary(Negate, x), maxstacksize, nups);
    }

    lemma FreshConstant(e: ExpDesc, sp: Span, x: Expr)
      requires ListsOk(S(), jl, e.t, e.f, e.D(), At(sp)) && Claim(m, S(), e.D(), At(sp), Whole(x))
          && nactvar <= sp.free == freereg
      requires Known(e, x)
      requires e.k.VTRUE? || e.k.VFALSE? || e.k.VNIL?
      ensures Fresh(e, sp, x)
    {
    }

    lemma DecidedTruth(e: ExpDesc, sp: Span, x: Expr)
      requires Decided(e, sp, Unary(Negate, Unary(Negate, x)), true) && !sp.valued
      ensures Decided(e, sp, x, true)
    {
      hide Branch, OwnList, BeginsAt, Tracked;
      BranchTruth(m, S(), Leaving(e.D(), true), At(sp), x, true);
    }

    // ----- whole functions -----

    /** `luaK_ret`. */
    method Ret(first: nat, nret: nat) returns (st: Status)
      requires IsList(code, jpc, jl)
      modifies `code, `pend, `jpc, `jl
      ensures st.Ok? ==>
        && S() == Emit(old(S()), old(jl), Return(first, nret + 1)) && jpc == NO_JUMP && jl == []
        && Reach(old(jl), |old(code)|)
      ensures st.Fail? ==> Exhausted()
    {
      hide Emitted, IsList;
      var _ :- Code(Return(first, nret + 1));
      st := Ok;
    }

    /** The function `return x`: `retstat`, then `close_func`. No jump is left without a
        target, and every run returns the value of the expression. */
    method ReturnFunction(x: Expr) returns (st: Status)
      requires Valid() && Opened() && Compilable(x) && NegationOk(m)
      modifies this
      ensures st.Ok? ==> Complete()
      ensures st.Ok? ==> forall up, r0 :: |r0| == MAXSTACK && Clean(r0, nactvar) ==>
        Returns(m, Frame(code, k, up), r0, Computed(m, up, r0, x), nactvar)
      ensures st.Ok? && LostValues.KeepsValue(m, x) ==>
        forall up, r0 :: |r0| == MAXSTACK && Clean(r0, nactvar) ==>
          Returns(m, Frame(code, k, up), r0, Eval(m, up, r0, x), nactvar)
      ensures st.Fail? ==> Exhausted()
    {
      hide Computed, Valid, Fresh, Ready, Grown, TailKnown, Returns, Emit, Reach, JumpsIn, ListsOk, Tracked, Claim,
        RegDesc,
        Clean, IsList, Elems;
      ghost var sp := Here();
      var e :- Expression(x, sp);
      var first :- Exp2AnyReg(e, sp, x);
      ghost var s, j, a := S(), jl, At(sp);
      ReadyToReturn(e, sp, x);
      :- Ret(first, 1);
      ReturnedShape(s, j, first, a, maxstacksize, nups);
      NoList(code);
      :- Ret(0, 0);
      forall up, r0 | |r0| == MAXSTACK && Clean(r0, nactvar)
        ensures Returns(m, Frame(code, k, up), r0, Computed(m, up, r0, x), nactvar)
      {
        ReturnedRuns(m, s, j, first, a, x, maxstacksize, nups, up, r0);
      }
      Keeps(x);
      EmittedLast(Emit(s, j, Return(first, 2)), [], Return(0, 1));
      EmittedInside(Emit(s, j, Return(first, 2)), [], Return(0, 1), maxstacksize, nups);
      st := Ok;
    }

    /** The operands have these values. */
    ghost predicate OperandsAre(up: seq<Value>, r0: Regs, x: Expr, y: Expr, v: Value, w: Value) {
      |r0| == MAXSTACK && Eval(m, up, r0, x) == Some(v) && Eval(m, up, r0, y) == Some(w)
    }

    /** A run returns what the comparison of `v` with `w` answers: `<`, `<=` and `==` ask the machine
        for it in this order, `>` and `>=` in the other, and `~=` returns the opposite of `==`. */
    ghost predicate ReturnsComparison(op: BinOpr, p: Frame, r0: Regs, v: Value, w: Value)
    {
      && (op == Lt && m.cmp(LT, v, w).Some? ==> Returns(m, p, r0, Some(Bool(m.cmp(LT, v, w).value)), nactvar))
      && (op == Le && m.cmp(LE, v, w).Some? ==> Returns(m, p, r0, Some(Bool(m.cmp(LE, v, w).value)), nactvar))
      && (op == Gt && m.cmp(LT, w, v).Some? ==> Returns(m, p, r0, Some(Bool(m.cmp(LT, w, v).value)), nactvar))
      && (op == Ge && m.cmp(LE, w, v).Some? ==> Returns(m, p, r0, Some(Bool(m.cmp(LE, w, v).value)), nactvar))
      && (op == Eq && m.cmp(EQ, v, w).Some? ==> Returns(m, p, r0, Some(Bool(m.cmp(EQ, v, w).value)), nactvar))
      && (op == Ne && m.cmp(EQ, v, w).Some? ==> Returns(m, p, r0, Some(Bool(!m.cmp(EQ, v, w).value)), nactvar))
    }

    /** The function `return x op y` for a comparison returns what the values of its operands call for. */
    method ReturnComparison(op: BinOpr, x: Expr, y: Expr) returns (st: Status)
      requires Valid() && Opened() && Compilable(Binary(op, x, y)) && NegationOk(m) && IsComparison(op)
      modifies this
      ensures st.Ok? ==> Complete()
      ensures st.Ok? && LostValues.KeepsValue(m, Binary(op, x, y)) ==>
        forall up, r0, v, w :: OperandsAre(up, r0, x, y, v, w) && Clean(r0, nactvar) ==>
          ReturnsComparison(op, Frame(code, k, up), r0, v, w)
      ensures st.Fail? ==> Exhausted()
    {
      hide Valid, Opened, Complete, Exhausted, Computed, Returns, Compilable, Eval, LostValues.KeepsValue, NegationOk;
      :- ReturnFunction(Binary(op, x, y));
      forall up, r0, v, w | OperandsAre(up, r0, x, y, v, w) && LostValues.KeepsValue(m, Binary(op, x, y))
          && Clean(r0, nactvar)
        ensures ReturnsComparison(op, Frame(code, k, up), r0, v, w)
      {
        ExpressionLaws.Comparisons(m, up, r0, x, y, v, w);
      }
      st := Ok;
    }

    lemma ReadyToReturn(e: ExpDesc, sp: Span, x: Expr)
      requires Valid() && Ready(e, sp, x) && e.k.VNONRELOC?
      ensures Claim(m, S(), RegDesc(e.k.info), At(sp), Operand(x)) && ShapeOk(S(), maxstacksize, nups)
      ensures Tracked(pend, At(sp), Elems(jl))
      ensures JumpsIn(code, jl) && Elems(jl) <= pend && e.k.info < maxstacksize && IsList(code, jpc, jl)
      ensures 2 <= maxstacksize <= MAXSTACK
    {
      hide ShapeOk, Claim, IsList;
      ListJumps(code, jpc, jl);
    }

    /** The function `if x then return end`: `cond`, the `return`, the end of `ifstat`, and
        `close_func`. Every run comes to the first `return` if the value is true, and to
        the second if it is false. */
    method ConditionFunction(x: Expr) returns (st: Status)
      requires Valid() && Opened() && Compilable(x) && NegationOk(m)
      modifies this
      ensures st.Ok? ==> Complete() && |code| >= 2 && code[|code| - 2] == Return(0, 1)
      ensures st.Ok? ==> forall up, r0 :: |r0| == MAXSTACK && Clean(r0, nactvar) ==>
        Chooses(m, Frame(code, k, up), 0, r0, ComputedTruth(m, up, r0, x), |code| - 2, |code| - 1, nactvar)
      ensures st.Ok? && LostValues.KeepsTruth(m, x) ==>
        forall up, r0 :: |r0| == MAXSTACK && Clean(r0, nactvar) ==>
          Chooses(m, Frame(code, k, up), 0, r0, TruthOf(Eval(m, up, r0, x)), |code| - 2, |code| - 1, nactvar)
      ensures st.Fail? ==> Exhausted()
    {
      hide ComputedTruth, Valid, Grown, TailKnown, Chooses, Emit, Reach, JumpsIn, OwnList, Tracked, Branch, Clean,
        IsList, Elems,
        BeginsAt, Decided;
      ghost var sp := Here();
      var e :- Cond(x, sp);
      ghost var spt := sp.(valued := false);
      ghost var s, j, l, a := S(), jl, e.fl, At(spt);
      DecidedToReturn(e, spt, x);
      :- Ret(0, 0);
      ghost var s1 := S();
      ConditionalShape(s, j, e.f, l, a, maxstacksize, nups);
      SizeOfEmit(s, j, Return(0, 1));
      NoList(code);
      :- PatchToHere(e.f, l);
      assert [] + l == l;
      :- Ret(0, 0);
      forall up, r0 | |r0| == MAXSTACK && Clean(r0, nactvar)
        ensures Chooses(m, Frame(code, k, up), 0, r0, ComputedTruth(m, up, r0, x), |s.code|, |s.code| + 1, nactvar)
      {
        ConditionalRuns(m, s, j, e.f, l, a, x, maxstacksize, nups, up, r0);
      }
      Keeps(x);
      ConditionalEnds(s, j, e.f, l, a, maxstacksize, nups);
      EmittedInside(s1, l, Return(0, 1), maxstacksize, nups);
      st := Ok;
    }

    lemma DecidedToReturn(e: ExpDesc, sp: Span, x: Expr)
      requires Valid() && Decided(e, sp, x, true)
      ensures Branch(m, S(), e.fl, At(sp), x, true) && ShapeOk(S(), maxstacksize, nups)
      ensures OwnList(S(), jl, e.f, e.fl, |code|, At(sp))
      ensures Tracked(pend, At(sp), Elems(jl) + Elems(e.fl)) && sp.free == freereg && 2 <= maxstacksize <= MAXSTACK
      ensures JumpsIn(code, jl) && Elems(jl) <= pend && IsList(code, jpc, jl)
    {
      hide ShapeOk, Branch, OwnList, Tracked, BeginsAt, IsList;
      ListJumps(code, jpc, jl);
    }

    /** The function is closed: every jump has its target. */
    ghost predicate Complete()
      reads this
    {
      && ShapeOk(S(), maxstacksize, nups) && JumpsInside(code) && pend == {} && 2 <= maxstacksize <= MAXSTACK
      && code != [] && code[|code| - 1] == Return(0, 1)
    }

    /** The function as the code checker sees it. */
    ghost function Prototype(): Proto
      requires Complete()
      reads this
    {
      CompleteOffsets();
      Proto(Words(code), k, [], maxstacksize, nups, nups, |code|, false, false)
    }

    lemma CompleteOffsets()
      requires Complete()
      ensures OffsetsOk(code)
    {
      hide Fits;
      forall i | 0 <= i < |code| && code[i].Jmp?
        ensures OffsetOk(code[i].sbx)
      {
        assert FitsAt(code, pend, maxstacksize, |k|, nups, i);
      }
    }

    /** `close_func` asserts that the checker accepts what has been compiled. It does. */
    lemma CompleteIsChecked()
      requires Complete()
      ensures Checked(Prototype()) && OffsetsOk(code) && Prototype().code == Words(code)
    {
      hide Fits, Words, CheckAt, OffsetsOk;
      CompleteOffsets();
      forall pc | 0 <= pc < |code|
        ensures CheckAt(Prototype(), pc) && !CountFollows(Prototype().code[pc])
      {
        assert FitsAt(code, pend, maxstacksize, |k|, nups, pc);
        FitsChecked(Prototype(), code, pc);
      }
      CheckedAll(Prototype(), 0);
    }
  }
}
