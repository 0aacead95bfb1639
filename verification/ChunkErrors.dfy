/** What loading makes of bytes that no dump has written (lua-5.1/lundump.c): which errors there are,
    and that a chunk that has been cut off is never taken for a whole one. */
module ChunkErrors {

  import opened Chunks
  import opened ChunkFormat

  // ----- the errors -----

  /** Four bytes are a count only if they are not negative as an `int`. */
  lemma IntErrors(b: seq<Byte>, n: nat)
    requires |b| >= 4 ==> IntBytes(b[..4], n)
    ensures LoadInt(b) ==
            if |b| < 4 then Err(UnexpectedEnd) else if n >= 0x8000_0000 then Err(BadInteger) else Ok(n, b[4..])
  {
    if |b| >= 4 {
      ValueSplit(b[..4]);
      assert Value(b[..4][4..]) == 0;
    }
  }

  /** A size and as many bytes, of which the last is left away; or the size 0 and no string. */
  lemma StringErrors(b: seq<Byte>, n: nat)
    requires |b| >= 8 ==> SizeBytes(b[..8], n)
    ensures LoadString(b) ==
            if |b| < 8 then Err(UnexpectedEnd)
            else if n == 0 then Ok(None, b[8..])
            else if |b| - 8 < n then Err(UnexpectedEnd)
            else Ok(Some(b[8..8 + n - 1]), b[8 + n..])
  {
    if |b| >= 8 {
      ValueOfEight(b[..8]);
      if 0 < n <= |b| - 8 {
        assert b[8..][..n][..n - 1] == b[8..8 + n - 1];
        assert b[8..][n..] == b[8 + n..];
      }
    }
  }

  /** A constant is of one of four types. */
  lemma ConstantErrors(b: seq<Byte>)
    requires b != [] && b[0] !in {0, 1, 3, 4}
    ensures LoadConstant(b) == Err(BadConstant)
  {
  }

  /** Every byte of the header counts. */
  lemma HeaderErrors(b: seq<Byte>, check: Proto -> bool)
    requires |b| < 12 || b[..12] != [0x1B, 0x4C, 0x75, 0x61, 0x51, 0, 1, 4, 8, 4, 8, 0]
    ensures Undump(b, check) == Err(if |b| < 12 then UnexpectedEnd else BadHeader)
  {
  }

  // ----- chunks cut off -----

  /** With `q` behind the bytes, the outcome is the same and `q` is left over as well; only if the
      bytes were not enough it may be another. */
  predicate Local<T(==)>(r: Loaded<T>, s: Loaded<T>, q: seq<Byte>) {
    match r
    case Ok(v, rest) => s == Ok(v, rest + q)
    case Err(e) => e == UnexpectedEnd || s == Err(e)
  }

  lemma LocalBlock(b: seq<Byte>, q: seq<Byte>, n: nat)
    ensures Local(LoadBlock(b, n), LoadBlock(b + q, n), q)
    ensures Local(LoadByte(b), LoadByte(b + q), q)
  {
    if n <= |b| { assert (b + q)[..n] == b[..n] && (b + q)[n..] == b[n..] + q; }
    if b != [] { assert (b + q)[1..] == b[1..] + q; }
  }

  lemma LocalInt(b: seq<Byte>, q: seq<Byte>)
    ensures Local(LoadInt(b), LoadInt(b + q), q)
  {
    hide LoadBlock, Value;
    LocalBlock(b, q, SIZEOF_INT);
  }

  lemma LocalString(b: seq<Byte>, q: seq<Byte>)
    ensures Local(LoadString(b), LoadString(b + q), q)
  {
    hide LoadBlock, Value;
    LocalBlock(b, q, SIZEOF_SIZE_T);
    var s := LoadBlock(b, SIZEOF_SIZE_T);
    if s.Ok? { LocalBlock(s.rest, q, Value(s.value)); }
  }

  lemma LocalWords(b: seq<Byte>, q: seq<Byte>)
    ensures Local(LoadWords(b), LoadWords(b + q), q)
  {
    hide LoadBlock, LoadInt, WordsOf;
    LocalInt(b, q);
    var n := LoadInt(b);
    if n.Ok? { LocalBlock(n.rest, q, 4 * n.value); }
  }

  lemma LocalConstant(b: seq<Byte>, q: seq<Byte>)
    ensures Local(LoadConstant(b), LoadConstant(b + q), q)
  {
    hide LoadBlock, LoadByte, LoadString;
    LocalBlock(b, q, 0);
    var t := LoadByte(b);
    if t.Ok? {
      LocalBlock(t.rest, q, SIZEOF_NUMBER);
      LocalString(t.rest, q);
    }
  }

  lemma LocalLocVar(b: seq<Byte>, q: seq<Byte>)
    ensures Local(LoadLocVar(b), LoadLocVar(b + q), q)
  {
    hide LoadInt, LoadString;
    LocalString(b, q);
    var name := LoadString(b);
    if name.Ok? {
      LocalInt(name.rest, q);
      var startpc := LoadInt(name.rest);
      if startpc.Ok? { LocalInt(startpc.rest, q); }
    }
  }

  lemma {:induction false} LocalAll<T>(b: seq<Byte>, q: seq<Byte>, n: nat, load: seq<Byte> -> Loaded<T>)
    requires forall b :: Within(load(b), b, 0)
    requires forall b, q :: Local(load(b), load(b + q), q)
    ensures Local(LoadAll(b, n, load), LoadAll(b + q, n, load), q)
    decreases n
  {
    if n > 0 && load(b).Ok? {
      LocalAll(load(b).rest, q, n - 1, load);
    }
  }

  lemma LocalCounted<T>(b: seq<Byte>, q: seq<Byte>, load: seq<Byte> -> Loaded<T>)
    requires forall b :: Within(load(b), b, 0)
    requires forall b, q :: Local(load(b), load(b + q), q)
    ensures Local(LoadCounted(b, load), LoadCounted(b + q, load), q)
  {
    hide LoadInt, LoadAll;
    LocalInt(b, q);
    var n := LoadInt(b);
    if n.Ok? { LocalAll(n.rest, q, n.value, load); }
  }

  lemma LocalLists(b: seq<Byte>, q: seq<Byte>)
    ensures Local(LoadCounted(b, LoadConstant), LoadCounted(b + q, LoadConstant), q)
    ensures Local(LoadCounted(b, LoadLocVar), LoadCounted(b + q, LoadLocVar), q)
    ensures Local(LoadCounted(b, LoadString), LoadCounted(b + q, LoadString), q)
  {
    hide LoadCounted, LoadConstant, LoadLocVar, LoadString;
    forall b, q
      ensures Local(LoadConstant(b), LoadConstant(b + q), q)
      ensures Local(LoadLocVar(b), LoadLocVar(b + q), q)
      ensures Local(LoadString(b), LoadString(b + q), q)
    {
      LocalConstant(b, q);
      LocalLocVar(b, q);
      LocalString(b, q);
    }
    LocalCounted(b, q, LoadConstant);
    LocalCounted(b, q, LoadLocVar);
    LocalCounted(b, q, LoadString);
  }

  lemma LocalDebug(b: seq<Byte>, q: seq<Byte>)
    ensures Local(LoadDebug(b), LoadDebug(b + q), q)
  {
    hide LoadWords, LoadCounted;
    LocalWords(b, q);
    var lineinfo := LoadWords(b);
    if lineinfo.Ok? {
      LocalLists(lineinfo.rest, q);
      var locvars := LoadCounted(lineinfo.rest, LoadLocVar);
      if locvars.Ok? { LocalLists(locvars.rest, q); }
    }
  }

  /** The four bytes of a function's head. */
  function LoadFour(b0: seq<Byte>): Loaded<(Byte, Byte, Byte, Byte)> {
    var (nups, b1) :- LoadByte(b0);
    var (numparams, b2) :- LoadByte(b1);
    var (isVararg, b3) :- LoadByte(b2);
    var (maxstacksize, b) :- LoadByte(b3);
    Ok((nups, numparams, isVararg, maxstacksize), b)
  }

  lemma LocalFour(b: seq<Byte>, q: seq<Byte>)
    ensures Local(LoadFour(b), LoadFour(b + q), q)
  {
    hide LoadByte;
    LocalBlock(b, q, 0);
    var b1 := LoadByte(b);
    if b1.Ok? {
      LocalBlock(b1.rest, q, 0);
      var b2 := LoadByte(b1.rest);
      if b2.Ok? {
        LocalBlock(b2.rest, q, 0);
        var b3 := LoadByte(b2.rest);
        if b3.Ok? { LocalBlock(b3.rest, q, 0); }
      }
    }
  }

  lemma HeadByFour(b0: seq<Byte>, parent: Str)
    ensures LoadHead(b0, parent) ==
      var (source, b1) :- LoadString(b0);
      var (linedefined, b2) :- LoadInt(b1);
      var (lastlinedefined, b3) :- LoadInt(b2);
      var (four, b4) :- LoadFour(b3);
      var (code, b5) :- LoadWords(b4);
      var (k, b) :- LoadCounted(b5, LoadConstant);
      Ok(Proto(if source == None then parent else source.value, linedefined, lastlinedefined, four.0, four.1, four.2,
               four.3, code, k, [], NO_DEBUG), b)
  {
    hide LoadString, LoadInt, LoadByte, LoadWords, LoadCounted;
  }

  lemma LocalHead(b: seq<Byte>, q: seq<Byte>, parent: Str)
    ensures Local(LoadHead(b, parent), LoadHead(b + q, parent), q)
  {
    hide LoadString, LoadInt, LoadFour, LoadWords, LoadCounted, LoadHead;
    HeadByFour(b, parent);
    HeadByFour(b + q, parent);
    LocalString(b, q);
    var source := LoadString(b);
    if source.Ok? {
      LocalInt(source.rest, q);
      var first := LoadInt(source.rest);
      if first.Ok? {
        LocalInt(first.rest, q);
        var last := LoadInt(first.rest);
        if last.Ok? {
          LocalFour(last.rest, q);
          var four := LoadFour(last.rest);
          if four.Ok? {
            LocalWords(four.rest, q);
            var code := LoadWords(four.rest);
            if code.Ok? { LocalLists(code.rest, q); }
          }
        }
      }
    }
  }

  lemma {:induction false} LocalFunction(b: seq<Byte>, q: seq<Byte>, parent: Str, check: Proto -> bool)
    ensures Local(LoadFunction(b, parent, check), LoadFunction(b + q, parent, check), q)
    decreases |b|, 0, 0
  {
    hide LoadHead, LoadInt, LoadDebug;
    LocalHead(b, q, parent);
    var f := LoadHead(b, parent);
    if f.Ok? {
      LocalInt(f.rest, q);
      var n := LoadInt(f.rest);
      if n.Ok? {
        LocalFunctions(n.rest, q, n.value, f.value.source, check);
        var p := LoadFunctions(n.rest, n.value, f.value.source, check);
        if p.Ok? { LocalDebug(p.rest, q); }
      }
    }
  }

  lemma {:induction false} LocalFunctions(b: seq<Byte>, q: seq<Byte>, n: nat, parent: Str, check: Proto -> bool)
    ensures Local(LoadFunctions(b, n, parent, check), LoadFunctions(b + q, n, parent, check), q)
    decreases |b|, 1, n
  {
    hide LoadFunction;
    if n > 0 {
      LocalFunction(b, q, parent, check);
      var f := LoadFunction(b, parent, check);
      if f.Ok? { LocalFunctions(f.rest, q, n - 1, parent, check); }
    }
  }

  /** What comes behind a chunk makes no difference. */
  lemma UndumpLocal(b: seq<Byte>, q: seq<Byte>, check: Proto -> bool)
    ensures Local(Undump(b, check), Undump(b + q, check), q)
  {
    hide LoadFunction, LoadBlock;
    LocalBlock(b, q, 12);
    var h := LoadBlock(b, 12);
    if h.Ok? { LocalFunction(h.rest, q, UNKNOWN_SOURCE, check); }
  }

  /** Of a dumped chunk, no beginning but the whole is loaded. */
  lemma CutOffRefused(f: Proto, strip: bool, check: Proto -> bool, n: nat)
    requires Fits(f) && Checked(AsLoaded(f, strip), check) && n < |Dump(f, strip)|
    ensures Undump(Dump(f, strip)[..n], check) == Err(UnexpectedEnd)
  {
    hide Undump, Dump, Fits, Checked, AsLoaded;
    var d := Dump(f, strip);
    UndumpInvertsDump(f, strip, check, []);
    assert d + [] == d && d[..n] + d[n..] == d;
    UndumpLocal(d[..n], d[n..], check);
  }

  // ----- what is loaded is checked -----

  /** The code of every function that is loaded, inner ones as well, has passed the checker. */
  lemma LoadedIsChecked(b: seq<Byte>, check: Proto -> bool)
    ensures var r := Undump(b, check); r.Ok? ==> Checked(r.value, check)
  {
    hide LoadFunction, LoadBlock;
    var h := LoadBlock(b, 12);
    if h.Ok? { FunctionChecked(h.rest, UNKNOWN_SOURCE, check); }
  }

  lemma {:induction false} FunctionChecked(b: seq<Byte>, parent: Str, check: Proto -> bool)
    ensures var r := LoadFunction(b, parent, check); r.Ok? ==> Checked(r.value, check)
    decreases |b|, 0, 0
  {
    hide LoadHead, LoadInt, LoadDebug, LoadFunctions;
    var f := LoadHead(b, parent);
    if f.Ok? {
      var n := LoadInt(f.rest);
      if n.Ok? { FunctionsChecked(n.rest, n.value, f.value.source, check); }
    }
  }

  lemma {:induction false} FunctionsChecked(b: seq<Byte>, n: nat, parent: Str, check: Proto -> bool)
    ensures
      var r := LoadFunctions(b, n, parent, check);
      r.Ok? ==> |r.value| == n && forall i :: 0 <= i < n ==> Checked(r.value[i], check)
    decreases |b|, 1, n
  {
    hide LoadFunction;
    if n > 0 {
      FunctionChecked(b, parent, check);
      var f := LoadFunction(b, parent, check);
      if f.Ok? { FunctionsChecked(f.rest, n - 1, parent, check); }
    }
  }
}
