/** Precompiled chunks: the format that lua-5.1/ldump.c writes and lua-5.1/lundump.c reads, for the
    type sizes of a little-endian machine of 64 bits. */
module Chunks {

  type Byte = b: int | 0 <= b < 256
  type Str = seq<Byte>

  datatype Option<+T> = None | Some(value: T)

  const SIZEOF_INT: nat := 4
  const SIZEOF_SIZE_T: nat := 8
  const SIZEOF_NUMBER: nat := 8

  const LUA_TNIL: Byte := 0
  const LUA_TBOOLEAN: Byte := 1
  const LUA_TNUMBER: Byte := 3
  const LUA_TSTRING: Byte := 4

  /** `luaU_header`: signature, version, format, endianness and sizes. */
  const HEADER: seq<Byte> := [27, 76, 117, 97, 0x51, 0, 1, SIZEOF_INT, SIZEOF_SIZE_T, 4, SIZEOF_NUMBER, 0]

  function Power(k: nat): nat {
    if k == 0 then 1 else 256 * Power(k - 1)
  }

  /** An instruction or a line number, as the four bytes in memory say. */
  type Word = w: nat | w < 0x1_0000_0000

  datatype Constant = Nil | Boolean(b: Byte) | Number(bytes: seq<Byte>) | String(s: Option<Str>)

  datatype LocVar = LocVar(varname: Option<Str>, startpc: nat, endpc: nat)

  datatype DebugInfo = DebugInfo(lineinfo: seq<Word>, locvars: seq<LocVar>, upvalues: seq<Option<Str>>)

  /** `Proto`. */
  datatype Proto = Proto(source: Str, linedefined: nat, lastlinedefined: nat, nups: Byte, numparams: Byte,
                         isVararg: Byte, maxstacksize: Byte, code: seq<Word>, k: seq<Constant>, p: seq<Proto>,
                         debug: DebugInfo)

  // ----- numbers -----

  function Little(n: nat, k: nat): (s: seq<Byte>)
    ensures |s| == k
  {
    if k == 0 then [] else [n % 256] + Little(n / 256, k - 1)
  }

  function Value(s: seq<Byte>): nat {
    if s == [] then 0 else s[0] as nat + 256 * Value(s[1..])
  }

  lemma {:induction false} ValueLittle(n: nat, k: nat)
    requires n < Power(k)
    ensures Value(Little(n, k)) == n
  {
    if k > 0 {
      ValueLittle(n / 256, k - 1);
      assert Little(n, k)[1..] == Little(n / 256, k - 1);
    }
  }

  // ----- dumping -----

  function Int(n: nat): seq<Byte> {
    Little(n, SIZEOF_INT)
  }

  /** `DumpVector` of words. */
  function Words(ws: seq<Word>): seq<Byte> {
    if ws == [] then [] else Little(ws[0], SIZEOF_INT) + Words(ws[1..])
  }

  function DumpString(s: Option<Str>): seq<Byte> {
    if s == None then Little(0, SIZEOF_SIZE_T) else Little(|s.value| + 1, SIZEOF_SIZE_T) + (s.value + [0])
  }

  function DumpConstant(c: Constant): seq<Byte> {
    match c
    case Nil => [LUA_TNIL]
    case Boolean(b) => [LUA_TBOOLEAN] + [b]
    case Number(bytes) => [LUA_TNUMBER] + bytes
    case String(s) => [LUA_TSTRING] + DumpString(s)
  }

  function DumpLocVar(v: LocVar): seq<Byte> {
    DumpString(v.varname) + (Int(v.startpc) + Int(v.endpc))
  }

  function DumpAll<T>(xs: seq<T>, dump: T -> seq<Byte>): seq<Byte> {
    if xs == [] then [] else dump(xs[0]) + DumpAll(xs[1..], dump)
  }

  function DumpDebug(d: DebugInfo): seq<Byte> {
    (Int(|d.lineinfo|) + Words(d.lineinfo)) +
    ((Int(|d.locvars|) + DumpAll(d.locvars, DumpLocVar)) + (Int(|d.upvalues|) + DumpAll(d.upvalues, DumpString)))
  }

  const NO_DEBUG := DebugInfo([], [], [])

  /** What comes before the functions inside: `parent` is the source of the enclosing function. */
  function DumpHead(f: Proto, parent: Option<Str>, strip: bool): seq<Byte> {
    DumpString(if strip || Some(f.source) == parent then None else Some(f.source)) +
    (Int(f.linedefined) + (Int(f.lastlinedefined) + ([f.nups, f.numparams, f.isVararg, f.maxstacksize] +
    ((Int(|f.code|) + Words(f.code)) + (Int(|f.k|) + DumpAll(f.k, DumpConstant))))))
  }

  function DumpFunction(f: Proto, parent: Option<Str>, strip: bool): seq<Byte>
    decreases f, 0
  {
    DumpHead(f, parent, strip) +
    (Int(|f.p|) + (DumpFunctions(f.p, Some(f.source), strip) + DumpDebug(if strip then NO_DEBUG else f.debug)))
  }

  function DumpFunctions(fs: seq<Proto>, parent: Option<Str>, strip: bool): seq<Byte>
    decreases fs, 0
  {
    if fs == [] then [] else DumpFunction(fs[0], parent, strip) + DumpFunctions(fs[1..], parent, strip)
  }

  /** `luaU_dump`. */
  function Dump(f: Proto, strip: bool): seq<Byte> {
    HEADER + DumpFunction(f, None, strip)
  }

  // ----- loading -----

  datatype LoadError = UnexpectedEnd | BadInteger | BadConstant | BadCode | BadHeader

  /** A value and the bytes that come after it. */
  datatype Loaded<+T> = Ok(value: T, rest: seq<Byte>) | Err(error: LoadError)
  {
    predicate IsFailure() {
      Err?
    }

    function PropagateFailure<U>(): Loaded<U>
      requires IsFailure()
    {
      Err(error)
    }

    function Extract(): (T, seq<Byte>)
      requires !IsFailure()
    {
      (value, rest)
    }
  }

  predicate Within<T>(r: Loaded<T>, b: seq<Byte>, n: nat) {
    r.Ok? ==> |r.rest| + n <= |b|
  }

  function LoadBlock(b: seq<Byte>, n: nat): (r: Loaded<seq<Byte>>)
    ensures Within(r, b, n)
  {
    if n <= |b| then Ok(b[..n], b[n..]) else Err(UnexpectedEnd)
  }

  function LoadByte(b: seq<Byte>): (r: Loaded<Byte>)
    ensures Within(r, b, 1)
  {
    if b == [] then Err(UnexpectedEnd) else Ok(b[0], b[1..])
  }

  function LoadInt(b0: seq<Byte>): (r: Loaded<nat>)
    ensures Within(r, b0, SIZEOF_INT)
  {
    var (s, b) :- LoadBlock(b0, SIZEOF_INT);
    if Value(s) >= 0x8000_0000 then Err(BadInteger) else Ok(Value(s), b)
  }

  function LoadString(b0: seq<Byte>): (r: Loaded<Option<Str>>)
    ensures Within(r, b0, SIZEOF_SIZE_T)
  {
    var (s, b1) :- LoadBlock(b0, SIZEOF_SIZE_T);
    if Value(s) == 0 then Ok(None, b1)
    else
      var (t, b) :- LoadBlock(b1, Value(s));
      Ok(Some(t[..|t| - 1]), b)
  }

  /** The words that the bytes of a vector stand for. */
  function WordsOf(s: seq<Byte>): (ws: seq<Word>)
    ensures |ws| == |s| / 4
  {
    if |s| < 4 then []
    else WordBound(s[..4]); [Value(s[..4])] + WordsOf(s[4..])
  }

  lemma WordBound(s: seq<Byte>)
    requires |s| == 4
    ensures Value(s) < 0x1_0000_0000
  {
    assert Value(s) == s[0] + 256 * Value(s[1..]);
    assert Value(s[1..]) == s[1] + 256 * Value(s[1..][1..]);
    assert Value(s[1..][1..]) == s[2] + 256 * Value(s[1..][1..][1..]);
    assert Value(s[1..][1..][1..]) == s[3] + 256 * Value(s[1..][1..][1..][1..]);
  }

  function LoadWords(b0: seq<Byte>): (r: Loaded<seq<Word>>)
    ensures Within(r, b0, SIZEOF_INT)
  {
    var (n, b1) :- LoadInt(b0);
    var (s, b) :- LoadBlock(b1, 4 * n);
    Ok(WordsOf(s), b)
  }

  function LoadConstant(b0: seq<Byte>): (r: Loaded<Constant>)
    ensures Within(r, b0, 1)
  {
    var (t, b1) :- LoadByte(b0);
    if t == LUA_TNIL then Ok(Nil, b1)
    else if t == LUA_TBOOLEAN then
      var (x, b) :- LoadByte(b1);
      Ok(Boolean(x), b)
    else if t == LUA_TNUMBER then
      var (x, b) :- LoadBlock(b1, SIZEOF_NUMBER);
      Ok(Number(x), b)
    else if t == LUA_TSTRING then
      var (x, b) :- LoadString(b1);
      Ok(String(x), b)
    else Err(BadConstant)
  }

  function LoadLocVar(b0: seq<Byte>): (r: Loaded<LocVar>)
    ensures Within(r, b0, 1)
  {
    var (name, b1) :- LoadString(b0);
    var (startpc, b2) :- LoadInt(b1);
    var (endpc, b) :- LoadInt(b2);
    Ok(LocVar(name, startpc, endpc), b)
  }

  /** `n` values one after the other. */
  function LoadAll<T>(b0: seq<Byte>, n: nat, load: seq<Byte> -> Loaded<T>): (r: Loaded<seq<T>>)
    requires forall b :: Within(load(b), b, 0)
    ensures Within(r, b0, 0)
    decreases n
  {
    if n == 0 then Ok([], b0)
    else
      var (x, b1) :- load(b0);
      var (xs, b) :- LoadAll(b1, n - 1, load);
      Ok([x] + xs, b)
  }

  function LoadCounted<T>(b0: seq<Byte>, load: seq<Byte> -> Loaded<T>): (r: Loaded<seq<T>>)
    requires forall b :: Within(load(b), b, 0)
    ensures Within(r, b0, 0)
  {
    var (n, b) :- LoadInt(b0);
    LoadAll(b, n, load)
  }

  function LoadDebug(b0: seq<Byte>): (r: Loaded<DebugInfo>)
    ensures Within(r, b0, 0)
  {
    var (lineinfo, b1) :- LoadWords(b0);
    var (locvars, b2) :- LoadCounted(b1, LoadLocVar);
    var (upvalues, b) :- LoadCounted(b2, LoadString);
    Ok(DebugInfo(lineinfo, locvars, upvalues), b)
  }

  /** A function without the functions inside it and without debug information. */
  function LoadHead(b0: seq<Byte>, parent: Str): (r: Loaded<Proto>)
    ensures Within(r, b0, 1)
  {
    var (source, b1) :- LoadString(b0);
    var (linedefined, b2) :- LoadInt(b1);
    var (lastlinedefined, b3) :- LoadInt(b2);
    var (nups, b4) :- LoadByte(b3);
    var (numparams, b5) :- LoadByte(b4);
    var (isVararg, b6) :- LoadByte(b5);
    var (maxstacksize, b7) :- LoadByte(b6);
    var (code, b8) :- LoadWords(b7);
    var (k, b) :- LoadCounted(b8, LoadConstant);
    Ok(Proto(if source == None then parent else source.value, linedefined, lastlinedefined, nups, numparams, isVararg,
             maxstacksize, code, k, [], NO_DEBUG), b)
  }

  /** `LoadFunction`, where `check` is `luaG_checkcode`. */
  function LoadFunction(b0: seq<Byte>, parent: Str, check: Proto -> bool): (r: Loaded<Proto>)
    ensures Within(r, b0, 1)
    decreases |b0|, 0, 0
  {
    var (f, b1) :- LoadHead(b0, parent);
    var (n, b2) :- LoadInt(b1);
    var (p, b3) :- LoadFunctions(b2, n, f.source, check);
    var (debug, b) :- LoadDebug(b3);
    var loaded := f.(p := p, debug := debug);
    if check(loaded) then Ok(loaded, b) else Err(BadCode)
  }

  function LoadFunctions(b0: seq<Byte>, n: nat, parent: Str, check: Proto -> bool): (r: Loaded<seq<Proto>>)
    ensures Within(r, b0, 0)
    decreases |b0|, 1, n
  {
    if n == 0 then Ok([], b0)
    else
      var (f, b1) :- LoadFunction(b0, parent, check);
      var (fs, b) :- LoadFunctions(b1, n - 1, parent, check);
      Ok([f] + fs, b)
  }

  /** `luaU_undump`. */
  function Undump(b0: seq<Byte>, check: Proto -> bool): Loaded<Proto> {
    var (h, b) :- LoadBlock(b0, |HEADER|);
    if h == HEADER then LoadFunction(b, UNKNOWN_SOURCE, check) else Err(BadHeader)
  }

  /** `=?`, the source of a function that was dumped without one. */
  const UNKNOWN_SOURCE: Str := [61, 63]

  // ----- what can be dumped -----

  const INT_MAX: nat := 0x7fff_ffff

  predicate StringFits(s: Option<Str>) {
    s.Some? ==> |s.value| + 1 < Power(SIZEOF_SIZE_T)
  }

  predicate ConstantFits(c: Constant) {
    match c
    case Number(bytes) => |bytes| == SIZEOF_NUMBER
    case String(s) => StringFits(s)
    case _ => true
  }

  predicate LocVarFits(v: LocVar) {
    StringFits(v.varname) && v.startpc <= INT_MAX && v.endpc <= INT_MAX
  }

  predicate DebugFits(d: DebugInfo) {
    && |d.lineinfo| <= INT_MAX && |d.locvars| <= INT_MAX && |d.upvalues| <= INT_MAX
    && (forall i :: 0 <= i < |d.locvars| ==> LocVarFits(d.locvars[i]))
    && (forall i :: 0 <= i < |d.upvalues| ==> StringFits(d.upvalues[i]))
  }

  /** Sizes and line numbers are those of C variables, none of them negative. */
  predicate Fits(f: Proto) {
    && StringFits(Some(f.source)) && f.linedefined <= INT_MAX && f.lastlinedefined <= INT_MAX
    && |f.code| <= INT_MAX && |f.k| <= INT_MAX && |f.p| <= INT_MAX && DebugFits(f.debug)
    && (forall i :: 0 <= i < |f.k| ==> ConstantFits(f.k[i]))
    && (forall i :: 0 <= i < |f.p| ==> Fits(f.p[i]))
  }

  /** What is left of a function that is dumped without debug information. */
  function Stripped(f: Proto): Proto {
    f.(source := UNKNOWN_SOURCE, debug := NO_DEBUG, p := seq(|f.p|, i requires 0 <= i < |f.p| => Stripped(f.p[i])))
  }

  function AsLoaded(f: Proto, strip: bool): Proto {
    if strip then Stripped(f) else f
  }

  predicate Checked(f: Proto, check: Proto -> bool) {
    check(f) && forall i :: 0 <= i < |f.p| ==> Checked(f.p[i], check)
  }

  // ----- loading what was dumped -----

  lemma FirstPart(a: seq<Byte>, b: seq<Byte>)
    ensures (a + b)[..|a|] == a && (a + b)[|a|..] == b
  {
  }

  lemma Powers()
    ensures Power(4) == 0x1_0000_0000
  {
    assert Power(1) == 256 && Power(2) == 65536 && Power(3) == 16777216;
  }

  lemma IntLoads(n: nat, rest: seq<Byte>)
    requires n <= INT_MAX
    ensures LoadInt(Int(n) + rest) == Ok(n, rest)
  {
    Powers();
    ValueLittle(n, SIZEOF_INT);
    FirstPart(Int(n), rest);
  }

  lemma PowerPositive(k: nat)
    ensures Power(k) > 0
  {
    if k > 0 { PowerPositive(k - 1); }
  }

  lemma SizeLoads(n: nat, rest: seq<Byte>)
    requires n < Power(SIZEOF_SIZE_T)
    ensures LoadBlock(Little(n, SIZEOF_SIZE_T) + rest, SIZEOF_SIZE_T) == Ok(Little(n, SIZEOF_SIZE_T), rest)
    ensures Value(Little(n, SIZEOF_SIZE_T)) == n
  {
    ValueLittle(n, SIZEOF_SIZE_T);
    FirstPart(Little(n, SIZEOF_SIZE_T), rest);
  }

  lemma StringLoads(s: Option<Str>, rest: seq<Byte>)
    requires StringFits(s)
    ensures LoadString(DumpString(s) + rest) == Ok(s, rest)
  {
    hide Little, Value, Power;
    PowerPositive(SIZEOF_SIZE_T);
    if s == None {
      SizeLoads(0, rest);
    } else {
      var n, t := |s.value| + 1, s.value + [0];
      SizeLoads(n, t + rest);
      FirstPart(t, rest);
      assert Little(n, SIZEOF_SIZE_T) + t + rest == Little(n, SIZEOF_SIZE_T) + (t + rest);
      assert t[..|t| - 1] == s.value;
    }
  }

  lemma {:induction false} WordsSize(ws: seq<Word>)
    ensures |Words(ws)| == 4 * |ws|
  {
    if ws != [] { WordsSize(ws[1..]); }
  }

  lemma {:induction false} WordsOfWords(ws: seq<Word>)
    ensures WordsOf(Words(ws)) == ws
  {
    if ws != [] {
      Powers();
      ValueLittle(ws[0], SIZEOF_INT);
      FirstPart(Little(ws[0], SIZEOF_INT), Words(ws[1..]));
      WordsOfWords(ws[1..]);
    }
  }

  lemma WordsLoad(ws: seq<Word>, rest: seq<Byte>)
    requires |ws| <= INT_MAX
    ensures LoadWords(Int(|ws|) + Words(ws) + rest) == Ok(ws, rest)
  {
    hide Words, WordsOf, Int, LoadInt;
    WordsSize(ws);
    WordsOfWords(ws);
    IntLoads(|ws|, Words(ws) + rest);
    FirstPart(Words(ws), rest);
    assert Int(|ws|) + Words(ws) + rest == Int(|ws|) + (Words(ws) + rest);
  }

  lemma ConstantLoads(c: Constant, rest: seq<Byte>)
    requires ConstantFits(c)
    ensures LoadConstant(DumpConstant(c) + rest) == Ok(c, rest)
  {
    hide LoadString, DumpString;
    var d := DumpConstant(c);
    assert (d + rest)[1..] == d[1..] + rest && d == [d[0]] + d[1..];
    match c
    case Nil => assert [] + rest == rest;
    case Boolean(b) => assert ([b] + rest)[1..] == rest;
    case Number(bytes) => FirstPart(bytes, rest);
    case String(s) => StringLoads(s, rest);
  }

  lemma LocVarLoads(v: LocVar, rest: seq<Byte>)
    requires LocVarFits(v)
    ensures LoadLocVar(DumpLocVar(v) + rest) == Ok(v, rest)
  {
    hide LoadString, DumpString, Int, LoadInt;
    var a, b, c := DumpString(v.varname), Int(v.startpc), Int(v.endpc);
    StringLoads(v.varname, b + (c + rest));
    IntLoads(v.startpc, c + rest);
    IntLoads(v.endpc, rest);
    assert a + (b + c) + rest == a + (b + (c + rest));
  }

  /** If every element can be loaded again, so can all of them. */
  lemma {:induction false} AllLoads<T>(xs: seq<T>, dump: T -> seq<Byte>, load: seq<Byte> -> Loaded<T>, rest: seq<Byte>)
    requires forall b :: Within(load(b), b, 0)
    requires forall x, r: seq<Byte> :: x in xs ==> load(dump(x) + r) == Ok(x, r)
    ensures LoadAll(DumpAll(xs, dump) + rest, |xs|, load) == Ok(xs, rest)
    decreases |xs|
  {
    if xs == [] {
      assert DumpAll(xs, dump) + rest == rest;
    } else {
      var more := DumpAll(xs[1..], dump);
      assert dump(xs[0]) + more + rest == dump(xs[0]) + (more + rest);
      AllLoads(xs[1..], dump, load, rest);
      assert xs == [xs[0]] + xs[1..];
    }
  }

  lemma CountedLoads<T>(xs: seq<T>, dump: T -> seq<Byte>, load: seq<Byte> -> Loaded<T>, rest: seq<Byte>)
    requires forall b :: Within(load(b), b, 0)
    requires forall x, r: seq<Byte> :: x in xs ==> load(dump(x) + r) == Ok(x, r)
    requires |xs| <= INT_MAX
    ensures LoadCounted(Int(|xs|) + DumpAll(xs, dump) + rest, load) == Ok(xs, rest)
  {
    hide Int, LoadInt, DumpAll, LoadAll;
    IntLoads(|xs|, DumpAll(xs, dump) + rest);
    assert Int(|xs|) + DumpAll(xs, dump) + rest == Int(|xs|) + (DumpAll(xs, dump) + rest);
    AllLoads(xs, dump, load, rest);
  }

  lemma LocVarsLoad(vs: seq<LocVar>, rest: seq<Byte>)
    requires |vs| <= INT_MAX && forall i :: 0 <= i < |vs| ==> LocVarFits(vs[i])
    ensures LoadCounted(Int(|vs|) + DumpAll(vs, DumpLocVar) + rest, LoadLocVar) == Ok(vs, rest)
  {
    forall v, r: seq<Byte> | v in vs
      ensures LoadLocVar(DumpLocVar(v) + r) == Ok(v, r)
    {
      LocVarLoads(v, r);
    }
    CountedLoads(vs, DumpLocVar, LoadLocVar, rest);
  }

  lemma StringsLoad(ss: seq<Option<Str>>, rest: seq<Byte>)
    requires |ss| <= INT_MAX && forall i :: 0 <= i < |ss| ==> StringFits(ss[i])
    ensures LoadCounted(Int(|ss|) + DumpAll(ss, DumpString) + rest, LoadString) == Ok(ss, rest)
  {
    forall s, r: seq<Byte> | s in ss
      ensures LoadString(DumpString(s) + r) == Ok(s, r)
    {
      StringLoads(s, r);
    }
    CountedLoads(ss, DumpString, LoadString, rest);
  }

  lemma ConstantsLoad(cs: seq<Constant>, rest: seq<Byte>)
    requires |cs| <= INT_MAX && forall i :: 0 <= i < |cs| ==> ConstantFits(cs[i])
    ensures LoadCounted(Int(|cs|) + DumpAll(cs, DumpConstant) + rest, LoadConstant) == Ok(cs, rest)
  {
    forall c, r: seq<Byte> | c in cs
      ensures LoadConstant(DumpConstant(c) + r) == Ok(c, r)
    {
      ConstantLoads(c, r);
    }
    CountedLoads(cs, DumpConstant, LoadConstant, rest);
  }

  lemma DebugLoads(d: DebugInfo, rest: seq<Byte>)
    requires DebugFits(d)
    ensures LoadDebug(DumpDebug(d) + rest) == Ok(d, rest)
  {
    hide Int, Words, DumpAll, LoadWords, LoadCounted;
    var a := Int(|d.lineinfo|) + Words(d.lineinfo);
    var b := Int(|d.locvars|) + DumpAll(d.locvars, DumpLocVar);
    var c := Int(|d.upvalues|) + DumpAll(d.upvalues, DumpString);
    assert a + (b + c) + rest == a + (b + (c + rest));
    WordsLoad(d.lineinfo, b + (c + rest));
    LocVarsLoad(d.locvars, c + rest);
    StringsLoad(d.upvalues, rest);
  }

  /** What `LoadHead` makes of a function. */
  function HeadOf(f: Proto, source: Str): Proto {
    f.(source := source, p := [], debug := NO_DEBUG)
  }

  lemma BytesLoad(a: Byte, b: Byte, c: Byte, d: Byte, rest: seq<Byte>)
    ensures LoadByte([a, b, c, d] + rest) == Ok(a, [b, c, d] + rest)
    ensures LoadByte([b, c, d] + rest) == Ok(b, [c, d] + rest)
    ensures LoadByte([c, d] + rest) == Ok(c, [d] + rest)
    ensures LoadByte([d] + rest) == Ok(d, rest)
  {
    assert ([a, b, c, d] + rest)[1..] == [b, c, d] + rest;
    assert ([b, c, d] + rest)[1..] == [c, d] + rest;
    assert ([c, d] + rest)[1..] == [d] + rest;
    assert ([d] + rest)[1..] == rest;
  }

  lemma HeadLoads(f: Proto, dumped: Option<Str>, parent: Str, strip: bool, rest: seq<Byte>)
    requires Fits(f) && (!strip && dumped.Some? ==> dumped.value == parent)
    ensures LoadHead(DumpHead(f, dumped, strip) + rest, parent) ==
            Ok(HeadOf(f, if strip then parent else f.source), rest)
  {
    hide Int, LoadInt, Words, LoadWords, DumpAll, LoadCounted, DumpString, LoadString, Fits, LoadByte;
    FitsHead(f);
    var source := if strip || Some(f.source) == dumped then None else Some(f.source);
    var s, l1, l2 := DumpString(source), Int(f.linedefined), Int(f.lastlinedefined);
    var bytes := [f.nups, f.numparams, f.isVararg, f.maxstacksize];
    var code, k := Int(|f.code|) + Words(f.code), Int(|f.k|) + DumpAll(f.k, DumpConstant);
    assert DumpHead(f, dumped, strip) + rest == s + (l1 + (l2 + (bytes + (code + (k + rest)))));
    StringLoads(source, l1 + (l2 + (bytes + (code + (k + rest)))));
    IntLoads(f.linedefined, l2 + (bytes + (code + (k + rest))));
    IntLoads(f.lastlinedefined, bytes + (code + (k + rest)));
    BytesLoad(f.nups, f.numparams, f.isVararg, f.maxstacksize, code + (k + rest));
    WordsLoad(f.code, k + rest);
    ConstantsLoad(f.k, rest);
  }

  lemma FitsHead(f: Proto)
    requires Fits(f)
    ensures StringFits(Some(f.source)) && f.linedefined <= INT_MAX && f.lastlinedefined <= INT_MAX
    ensures |f.code| <= INT_MAX && |f.k| <= INT_MAX && |f.p| <= INT_MAX && DebugFits(f.debug)
    ensures forall i :: 0 <= i < |f.k| ==> ConstantFits(f.k[i])
  {
  }

  lemma {:induction false} FunctionLoads(f: Proto, dumped: Option<Str>, parent: Str, strip: bool, check: Proto -> bool,
                                         rest: seq<Byte>)
    requires Fits(f) && Checked(AsLoaded(f, strip), check)
    requires if strip then parent == UNKNOWN_SOURCE else dumped.Some? ==> dumped.value == parent
    ensures LoadFunction(DumpFunction(f, dumped, strip) + rest, parent, check) == Ok(AsLoaded(f, strip), rest)
    decreases f, 0
  {
    hide Int, LoadInt, DumpHead, LoadHead, DumpDebug, LoadDebug, Fits, Checked, AsLoaded, Stripped;
    FitsHead(f);
    LoadedParts(f, parent, strip, check);
    var debug := if strip then NO_DEBUG else f.debug;
    var h, n, d := DumpHead(f, dumped, strip), Int(|f.p|), DumpDebug(debug);
    var fs := DumpFunctions(f.p, Some(f.source), strip);
    assert h + (n + (fs + d)) + rest == h + (n + (fs + (d + rest)));
    HeadLoads(f, dumped, parent, strip, n + (fs + (d + rest)));
    IntLoads(|f.p|, fs + (d + rest));
    FunctionsLoad(f.p, f.source, if strip then parent else f.source, strip, check, d + rest);
    DebugLoads(debug, rest);
  }

  lemma LoadedParts(f: Proto, parent: Str, strip: bool, check: Proto -> bool)
    requires Fits(f) && Checked(AsLoaded(f, strip), check) && (strip ==> parent == UNKNOWN_SOURCE)
    ensures
      var head := HeadOf(f, if strip then parent else f.source);
      head.(p := AllAsLoaded(f.p, strip), debug := if strip then NO_DEBUG else f.debug) == AsLoaded(f, strip)
    ensures check(AsLoaded(f, strip))
    ensures forall i :: 0 <= i < |f.p| ==> Fits(f.p[i]) && Checked(AsLoaded(f.p[i], strip), check)
  {
    assert AllAsLoaded(f.p, strip) == AsLoaded(f, strip).p;
    forall i | 0 <= i < |f.p|
      ensures Checked(AsLoaded(f.p[i], strip), check)
    {
      assert AsLoaded(f, strip).p[i] == AsLoaded(f.p[i], strip);
    }
  }

  function AllAsLoaded(fs: seq<Proto>, strip: bool): (r: seq<Proto>)
    ensures |r| == |fs|
  {
    seq(|fs|, i requires 0 <= i < |fs| => AsLoaded(fs[i], strip))
  }

  lemma {:induction false} FunctionsLoad(fs: seq<Proto>, source: Str, parent: Str, strip: bool, check: Proto -> bool,
                                         rest: seq<Byte>)
    requires forall i :: 0 <= i < |fs| ==> Fits(fs[i]) && Checked(AsLoaded(fs[i], strip), check)
    requires parent == if strip then UNKNOWN_SOURCE else source
    ensures LoadFunctions(DumpFunctions(fs, Some(source), strip) + rest, |fs|, parent, check) ==
            Ok(AllAsLoaded(fs, strip), rest)
    decreases fs, 0
  {
    hide Fits, Checked, AsLoaded, DumpHead, DumpDebug, LoadHead, LoadInt, LoadDebug;
    if fs == [] {
      assert DumpFunctions(fs, Some(source), strip) + rest == rest;
    } else {
      var a, b := DumpFunction(fs[0], Some(source), strip), DumpFunctions(fs[1..], Some(source), strip);
      assert a + b + rest == a + (b + rest);
      FunctionLoads(fs[0], Some(source), parent, strip, check, b + rest);
      FunctionsLoad(fs[1..], source, parent, strip, check, rest);
      assert AllAsLoaded(fs, strip) == [AsLoaded(fs[0], strip)] + AllAsLoaded(fs[1..], strip);
    }
  }

  /** Undumping inverts dumping, and takes exactly the bytes of the chunk. */
  lemma UndumpInvertsDump(f: Proto, strip: bool, check: Proto -> bool, rest: seq<Byte>)
    requires Fits(f) && Checked(AsLoaded(f, strip), check)
    ensures Undump(Dump(f, strip) + rest, check) == Ok(AsLoaded(f, strip), rest)
  {
    var body := DumpFunction(f, None, strip);
    assert HEADER + body + rest == HEADER + (body + rest);
    FirstPart(HEADER, body + rest);
    FunctionLoads(f, None, UNKNOWN_SOURCE, strip, check, rest);
  }
}
