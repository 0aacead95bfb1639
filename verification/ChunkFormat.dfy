/** The bytes of a precompiled chunk, given by position and value: what a reader that was built
    apart from the writer has to agree with (lua-5.1/lundump.h, lua-5.1/ldump.c). */
module ChunkFormat {

  import opened Chunks

  function FourBytes(b0: nat, b1: nat, b2: nat, b3: nat): nat {
    b0 + 0x100 * b1 + 0x1_0000 * b2 + 0x100_0000 * b3
  }

  /** Four bytes, the lowest first. */
  predicate IntBytes(b: seq<Byte>, n: nat) {
    |b| == 4 && n == FourBytes(b[0], b[1], b[2], b[3])
  }

  /** Eight bytes, the lowest first. */
  predicate SizeBytes(b: seq<Byte>, n: nat) {
    |b| == 8 && n == FourBytes(b[0], b[1], b[2], b[3]) + 0x1_0000_0000 * FourBytes(b[4], b[5], b[6], b[7])
  }

  predicate WordsBytes(b: seq<Byte>, ws: seq<Word>) {
    |b| == 4 * |ws| && forall i :: 0 <= i < |ws| ==> IntBytes(b[4 * i..4 * i + 4], ws[i])
  }

  /** The size with the final zero, the characters and the zero; or the size 0 alone. */
  predicate StringBytes(b: seq<Byte>, s: Option<Str>) {
    match s
    case None => b == [0, 0, 0, 0, 0, 0, 0, 0]
    case Some(t) => |b| == 9 + |t| && SizeBytes(b[..8], |t| + 1) && b[8..8 + |t|] == t && b[8 + |t|] == 0
  }

  predicate ConstantBytes(b: seq<Byte>, c: Constant) {
    match c
    case Nil => b == [0]
    case Boolean(x) => b == [1, x]
    case Number(bytes) => b == [3] + bytes
    case String(s) => b != [] && b[0] == 4 && StringBytes(b[1..], s)
  }

  predicate LocVarBytes(b: seq<Byte>, v: LocVar) {
    && |b| >= 8 && StringBytes(b[..|b| - 8], v.varname)
    && IntBytes(b[|b| - 8..|b| - 4], v.startpc) && IntBytes(b[|b| - 4..], v.endpc)
  }

  function Joined(parts: seq<seq<Byte>>): seq<Byte> {
    if parts == [] then [] else parts[0] + Joined(parts[1..])
  }

  /** The parts of a function, in the order of the file. */
  datatype Parts = Parts(source: seq<Byte>, linedefined: seq<Byte>, lastlinedefined: seq<Byte>, flags: seq<Byte>,
                         sizecode: seq<Byte>, code: seq<Byte>, sizek: seq<Byte>, k: seq<seq<Byte>>,
                         sizep: seq<Byte>, p: seq<seq<Byte>>, sizelineinfo: seq<Byte>, lineinfo: seq<Byte>,
                         sizelocvars: seq<Byte>, locvars: seq<seq<Byte>>,
                         sizeupvalues: seq<Byte>, upvalues: seq<seq<Byte>>)
  {
    function Bytes(): seq<Byte> {
      source + linedefined + lastlinedefined + flags + sizecode + code + sizek + Joined(k) + sizep + Joined(p) +
      sizelineinfo + lineinfo + sizelocvars + Joined(locvars) + sizeupvalues + Joined(upvalues)
    }

    /** A stripped function has no source, and an inner function only one that differs from `parent`. */
    predicate Heads(f: Proto, parent: Option<Str>, strip: bool) {
      && StringBytes(source, if strip then None else if parent == Some(f.source) then None else Some(f.source))
      && IntBytes(linedefined, f.linedefined) && IntBytes(lastlinedefined, f.lastlinedefined)
      && flags == [f.nups, f.numparams, f.isVararg, f.maxstacksize]
      && IntBytes(sizecode, |f.code|) && WordsBytes(code, f.code)
      && IntBytes(sizek, |f.k|) && |k| == |f.k| && forall i :: 0 <= i < |k| ==> ConstantBytes(k[i], f.k[i])
    }

    predicate Debugs(d: DebugInfo) {
      && IntBytes(sizelineinfo, |d.lineinfo|) && WordsBytes(lineinfo, d.lineinfo)
      && IntBytes(sizelocvars, |d.locvars|) && |locvars| == |d.locvars|
      && (forall i :: 0 <= i < |locvars| ==> LocVarBytes(locvars[i], d.locvars[i]))
      && IntBytes(sizeupvalues, |d.upvalues|) && |upvalues| == |d.upvalues|
      && (forall i :: 0 <= i < |upvalues| ==> StringBytes(upvalues[i], d.upvalues[i]))
    }
  }

  ghost predicate FunctionBytes(b: seq<Byte>, f: Proto, parent: Option<Str>, strip: bool) {
    exists parts: Parts :: b == parts.Bytes() && FunctionParts(parts, f, parent, strip)
  }

  ghost predicate FunctionParts(parts: Parts, f: Proto, parent: Option<Str>, strip: bool)
    decreases f, 1
  {
    && parts.Heads(f, parent, strip)
    && parts.Debugs(if strip then DebugInfo([], [], []) else f.debug)
    && IntBytes(parts.sizep, |f.p|) && |parts.p| == |f.p|
    && forall i :: 0 <= i < |f.p| ==> InnerBytes(parts.p[i], f, i, strip)
  }

  ghost predicate InnerBytes(b: seq<Byte>, f: Proto, i: nat, strip: bool)
    requires i < |f.p|
    decreases f, 0
  {
    exists parts: Parts :: b == parts.Bytes() && FunctionParts(parts, f.p[i], Some(f.source), strip)
  }

  /** "\033Lua", version 5.1, the official format, little-endian, the sizes of `int`, `size_t`, an
      instruction and a number, and numbers that are not integral. */
  ghost predicate ChunkBytes(b: seq<Byte>, f: Proto, strip: bool) {
    && |b| >= 12
    && b[..12] == [0x1B, 0x4C, 0x75, 0x61, 0x51, 0, 1, 4, 8, 4, 8, 0]
    && FunctionBytes(b[12..], f, None, strip)
  }

  // ----- numbers and strings -----

  lemma Digit(d: Byte, v: nat)
    ensures (d as nat + 256 * v) % 256 == d && (d as nat + 256 * v) / 256 == v
  {
  }

  lemma {:induction false} LittleValue(b: seq<Byte>)
    ensures Little(Value(b), |b|) == b
  {
    if b != [] {
      LittleValue(b[1..]);
      Digit(b[0], Value(b[1..]));
      assert Little(Value(b), |b|) == [b[0]] + Little(Value(b[1..]), |b| - 1);
    }
  }

  lemma ValueSplit(b: seq<Byte>)
    requires |b| >= 4
    ensures Value(b) == FourBytes(b[0], b[1], b[2], b[3]) + 0x1_0000_0000 * Value(b[4..])
  {
    assert Value(b) == b[0] + 256 * Value(b[1..]);
    assert b[1..][1..] == b[2..] && b[2..][1..] == b[3..] && b[3..][1..] == b[4..];
    assert Value(b[1..]) == b[1] + 256 * Value(b[2..]);
    assert Value(b[2..]) == b[2] + 256 * Value(b[3..]);
    assert Value(b[3..]) == b[3] + 256 * Value(b[4..]);
  }

  lemma IntFormat(b: seq<Byte>, n: nat)
    requires n < 0x1_0000_0000
    ensures b == Int(n) <==> IntBytes(b, n)
  {
    Powers();
    ValueLittle(n, 4);
    if |b| == 4 {
      LittleValue(b);
      ValueSplit(b);
      assert Value(b[4..]) == 0;
    }
  }

  lemma ValueOfEight(b: seq<Byte>)
    requires |b| == 8
    ensures Value(b) == FourBytes(b[0], b[1], b[2], b[3]) + 0x1_0000_0000 * FourBytes(b[4], b[5], b[6], b[7])
  {
    ValueSplit(b);
    ValueSplit(b[4..]);
    assert Value(b[4..][4..]) == 0;
  }

  lemma SizeFormat(b: seq<Byte>, n: nat)
    requires n < Power(8)
    ensures b == Little(n, 8) <==> SizeBytes(b, n)
  {
    hide Little, Value, Power, FourBytes;
    ValueLittle(n, 8);
    if |b| == 8 {
      LittleValue(b);
      ValueOfEight(b);
    }
  }

  lemma {:induction false} WordsFormat(b: seq<Byte>, ws: seq<Word>)
    ensures b == Words(ws) <==> WordsBytes(b, ws)
  {
    WordsSize(ws);
    if ws != [] && |b| == 4 * |ws| {
      IntFormat(b[..4], ws[0]);
      WordsFormat(b[4..], ws[1..]);
      assert b == b[..4] + b[4..];
      FirstPart(Int(ws[0]), Words(ws[1..]));
      assert b == Words(ws) <==> b[..4] == Int(ws[0]) && b[4..] == Words(ws[1..]);
      WordsTail(b, ws);
    }
  }

  lemma WordsTail(b: seq<Byte>, ws: seq<Word>)
    requires ws != [] && |b| == 4 * |ws|
    ensures WordsBytes(b, ws) <==> IntBytes(b[..4], ws[0]) && WordsBytes(b[4..], ws[1..])
  {
    forall i | 0 <= i < |ws| - 1
      ensures b[4..][4 * i..4 * i + 4] == b[4 * (i + 1)..4 * (i + 1) + 4]
    {
    }
    if IntBytes(b[..4], ws[0]) && WordsBytes(b[4..], ws[1..]) {
      forall i | 0 <= i < |ws|
        ensures IntBytes(b[4 * i..4 * i + 4], ws[i])
      {
        if i > 0 { assert IntBytes(b[4..][4 * (i - 1)..4 * (i - 1) + 4], ws[1..][i - 1]); }
      }
    }
    if WordsBytes(b, ws) {
      assert IntBytes(b[4 * 0..4 * 0 + 4], ws[0]);
      forall i | 0 <= i < |ws| - 1
        ensures IntBytes(b[4..][4 * i..4 * i + 4], ws[1..][i])
      {
        assert IntBytes(b[4 * (i + 1)..4 * (i + 1) + 4], ws[i + 1]);
      }
    }
  }

  lemma StringFormat(b: seq<Byte>, s: Option<Str>)
    requires StringFits(s)
    ensures b == DumpString(s) <==> StringBytes(b, s)
  {
    hide Little, SizeBytes;
    match s
    case None =>
      Zeros(8);
    case Some(t) =>
      if |b| == 9 + |t| {
        SizeFormat(b[..8], |t| + 1);
        ThreeParts(b, Little(|t| + 1, 8), t, 0);
      }
  }

  lemma {:induction false} Zeros(k: nat)
    ensures Little(0, k) == seq(k, i => 0)
  {
    if k > 0 { Zeros(k - 1); }
  }

  lemma ThreeParts(b: seq<Byte>, x: seq<Byte>, y: seq<Byte>, z: Byte)
    requires |x| == 8 && |b| == 9 + |y|
    ensures b == x + (y + [z]) <==> b[..8] == x && b[8..8 + |y|] == y && b[8 + |y|] == z
  {
    assert b == b[..8] + (b[8..8 + |y|] + [b[8 + |y|]]);
    FirstPart(x, y + [z]);
    FirstPart(y, [z]);
    assert b[8..][..|y|] == b[8..8 + |y|];
  }

  lemma ConstantFormat(b: seq<Byte>, c: Constant)
    requires ConstantFits(c)
    ensures b == DumpConstant(c) <==> ConstantBytes(b, c)
  {
    hide DumpString, StringBytes;
    match c
    case String(s) =>
      if b != [] {
        StringFormat(b[1..], s);
        assert b == [b[0]] + b[1..];
      }
    case _ =>
  }

  lemma LocVarFormat(b: seq<Byte>, v: LocVar)
    requires LocVarFits(v)
    ensures b == DumpLocVar(v) <==> LocVarBytes(b, v)
  {
    hide DumpString, StringBytes, Int, IntBytes;
    var name, startpc, endpc := DumpString(v.varname), Int(v.startpc), Int(v.endpc);
    IntSize(v.startpc);
    IntSize(v.endpc);
    if |b| >= 8 {
      var x, y, z := b[..|b| - 8], b[|b| - 8..|b| - 4], b[|b| - 4..];
      StringFormat(x, v.varname);
      IntFormat(y, v.startpc);
      IntFormat(z, v.endpc);
      assert b == x + (y + z);
      assert b == name + (startpc + endpc) ==> x == name && y == startpc && z == endpc;
    }
  }

  lemma IntSize(n: nat)
    ensures |Int(n)| == 4
  {
  }

  // ----- whole functions -----

  lemma {:induction false} AllJoined<T>(xs: seq<T>, dump: T -> seq<Byte>, parts: seq<seq<Byte>>)
    requires |parts| == |xs| && forall i :: 0 <= i < |xs| ==> parts[i] == dump(xs[i])
    ensures DumpAll(xs, dump) == Joined(parts)
  {
    if xs != [] { AllJoined(xs[1..], dump, parts[1..]); }
  }

  lemma {:induction false} FunctionsJoined(fs: seq<Proto>, parent: Option<Str>, strip: bool, parts: seq<seq<Byte>>)
    requires |parts| == |fs| && forall i :: 0 <= i < |fs| ==> parts[i] == DumpFunction(fs[i], parent, strip)
    ensures DumpFunctions(fs, parent, strip) == Joined(parts)
  {
    if fs != [] { FunctionsJoined(fs[1..], parent, strip, parts[1..]); }
  }

  /** The parts that the writer makes. */
  function PartsOf(f: Proto, parent: Option<Str>, strip: bool): Parts {
    var d := if strip then NO_DEBUG else f.debug;
    Parts(DumpString(if strip || Some(f.source) == parent then None else Some(f.source)),
          Int(f.linedefined), Int(f.lastlinedefined), [f.nups, f.numparams, f.isVararg, f.maxstacksize],
          Int(|f.code|), Words(f.code), Int(|f.k|), seq(|f.k|, i requires 0 <= i < |f.k| => DumpConstant(f.k[i])),
          Int(|f.p|), seq(|f.p|, i requires 0 <= i < |f.p| => DumpFunction(f.p[i], Some(f.source), strip)),
          Int(|d.lineinfo|), Words(d.lineinfo),
          Int(|d.locvars|), seq(|d.locvars|, i requires 0 <= i < |d.locvars| => DumpLocVar(d.locvars[i])),
          Int(|d.upvalues|), seq(|d.upvalues|, i requires 0 <= i < |d.upvalues| => DumpString(d.upvalues[i])))
  }

  lemma EightJoined(a: seq<Byte>, b: seq<Byte>, c: seq<Byte>, d: seq<Byte>, e: seq<Byte>, f: seq<Byte>, g: seq<Byte>,
                    h: seq<Byte>)
    ensures a + (b + (c + (d + ((e + f) + (g + h))))) == a + b + c + d + e + f + g + h
  {
    assert c + (d + ((e + f) + (g + h))) == c + d + e + f + g + h;
    assert a + (b + (c + d + e + f + g + h)) == a + b + (c + d + e + f + g + h);
  }

  lemma NineJoined(x: seq<Byte>, a: seq<Byte>, b: seq<Byte>, c: seq<Byte>, d: seq<Byte>, e: seq<Byte>, f: seq<Byte>,
                   g: seq<Byte>, h: seq<Byte>)
    ensures x + (a + (b + ((c + d) + ((e + f) + (g + h))))) == x + a + b + c + d + e + f + g + h
  {
    assert (c + d) + ((e + f) + (g + h)) == c + d + e + f + g + h;
    assert x + (a + (b + (c + d + e + f + g + h))) == x + a + b + (c + d + e + f + g + h);
  }

  lemma PartsJoined(f: Proto, parent: Option<Str>, strip: bool)
    ensures DumpFunction(f, parent, strip) == PartsOf(f, parent, strip).Bytes()
  {
    hide Int, Words, DumpString, DumpAll, DumpConstant, DumpLocVar, Joined, DumpFunctions;
    var d, parts := if strip then NO_DEBUG else f.debug, PartsOf(f, parent, strip);
    AllJoined(f.k, DumpConstant, parts.k);
    FunctionsJoined(f.p, Some(f.source), strip, parts.p);
    AllJoined(d.locvars, DumpLocVar, parts.locvars);
    AllJoined(d.upvalues, DumpString, parts.upvalues);
    EightJoined(parts.source, parts.linedefined, parts.lastlinedefined, parts.flags, parts.sizecode, parts.code,
                parts.sizek, Joined(parts.k));
    NineJoined(DumpHead(f, parent, strip), parts.sizep, Joined(parts.p), parts.sizelineinfo, parts.lineinfo,
               parts.sizelocvars, Joined(parts.locvars), parts.sizeupvalues, Joined(parts.upvalues));
  }

  lemma HeadsFormat(parts: Parts, f: Proto, parent: Option<Str>, strip: bool)
    requires Fits(f)
    ensures
      var made := PartsOf(f, parent, strip);
      parts.Heads(f, parent, strip) <==>
      && parts.source == made.source && parts.linedefined == made.linedefined
      && parts.lastlinedefined == made.lastlinedefined && parts.flags == made.flags
      && parts.sizecode == made.sizecode && parts.code == made.code && parts.sizek == made.sizek && parts.k == made.k
  {
    hide Int, IntBytes, Words, WordsBytes, DumpString, StringBytes, DumpConstant, ConstantBytes, Fits;
    FitsHead(f);
    StringFormat(parts.source, if strip || Some(f.source) == parent then None else Some(f.source));
    IntFormat(parts.linedefined, f.linedefined);
    IntFormat(parts.lastlinedefined, f.lastlinedefined);
    IntFormat(parts.sizecode, |f.code|);
    WordsFormat(parts.code, f.code);
    IntFormat(parts.sizek, |f.k|);
    if |parts.k| == |f.k| {
      forall i | 0 <= i < |f.k|
        ensures parts.k[i] == DumpConstant(f.k[i]) <==> ConstantBytes(parts.k[i], f.k[i])
      {
        ConstantFormat(parts.k[i], f.k[i]);
      }
    }
  }

  lemma DebugsFormat(parts: Parts, f: Proto, parent: Option<Str>, strip: bool)
    requires Fits(f)
    ensures
      var made := PartsOf(f, parent, strip);
      parts.Debugs(if strip then DebugInfo([], [], []) else f.debug) <==>
      && parts.sizelineinfo == made.sizelineinfo && parts.lineinfo == made.lineinfo
      && parts.sizelocvars == made.sizelocvars && parts.locvars == made.locvars
      && parts.sizeupvalues == made.sizeupvalues && parts.upvalues == made.upvalues
  {
    hide Int, IntBytes, Words, WordsBytes, DumpString, StringBytes, DumpLocVar, LocVarBytes, Fits;
    FitsHead(f);
    var d := if strip then NO_DEBUG else f.debug;
    IntFormat(parts.sizelineinfo, |d.lineinfo|);
    WordsFormat(parts.lineinfo, d.lineinfo);
    IntFormat(parts.sizelocvars, |d.locvars|);
    IntFormat(parts.sizeupvalues, |d.upvalues|);
    if |parts.locvars| == |d.locvars| {
      forall i | 0 <= i < |d.locvars|
        ensures parts.locvars[i] == DumpLocVar(d.locvars[i]) <==> LocVarBytes(parts.locvars[i], d.locvars[i])
      {
        LocVarFormat(parts.locvars[i], d.locvars[i]);
      }
    }
    if |parts.upvalues| == |d.upvalues| {
      forall i | 0 <= i < |d.upvalues|
        ensures parts.upvalues[i] == DumpString(d.upvalues[i]) <==> StringBytes(parts.upvalues[i], d.upvalues[i])
      {
        StringFormat(parts.upvalues[i], d.upvalues[i]);
      }
    }
  }

  /** The parts of a function are the ones that the writer makes, and no others. */
  lemma {:induction false} PartsFormat(parts: Parts, f: Proto, parent: Option<Str>, strip: bool)
    requires Fits(f)
    ensures FunctionParts(parts, f, parent, strip) <==> parts == PartsOf(f, parent, strip)
    decreases f, 1
  {
    hide Int, IntBytes, Words, DumpString, DumpConstant, DumpLocVar, DumpFunction, Parts.Heads, Parts.Debugs, Fits;
    FitsInner(f);
    HeadsFormat(parts, f, parent, strip);
    DebugsFormat(parts, f, parent, strip);
    IntFormat(parts.sizep, |f.p|);
    if |parts.p| == |f.p| {
      forall i | 0 <= i < |f.p|
        ensures InnerBytes(parts.p[i], f, i, strip) <==> parts.p[i] == DumpFunction(f.p[i], Some(f.source), strip)
      {
        InnerFormat(parts.p[i], f, i, strip);
      }
    }
  }

  lemma FitsInner(f: Proto)
    requires Fits(f)
    ensures |f.p| <= INT_MAX && forall i :: 0 <= i < |f.p| ==> Fits(f.p[i])
  {
  }

  lemma {:induction false} InnerFormat(b: seq<Byte>, f: Proto, i: nat, strip: bool)
    requires i < |f.p| && Fits(f.p[i])
    ensures InnerBytes(b, f, i, strip) <==> b == DumpFunction(f.p[i], Some(f.source), strip)
    decreases f, 0
  {
    hide FunctionParts, PartsOf, Parts.Bytes, DumpFunction, Fits;
    PartsJoined(f.p[i], Some(f.source), strip);
    forall parts: Parts
      ensures FunctionParts(parts, f.p[i], Some(f.source), strip) <==>
              parts == PartsOf(f.p[i], Some(f.source), strip)
    {
      PartsFormat(parts, f.p[i], Some(f.source), strip);
    }
  }

  /** A chunk is dumped as exactly the bytes of the format. */
  lemma ChunkFormat(b: seq<Byte>, f: Proto, strip: bool)
    requires Fits(f)
    ensures b == Dump(f, strip) <==> ChunkBytes(b, f, strip)
  {
    hide FunctionParts, PartsOf, Parts.Bytes, DumpFunction, Fits;
    PartsJoined(f, None, strip);
    forall parts: Parts
      ensures FunctionParts(parts, f, None, strip) <==> parts == PartsOf(f, None, strip)
    {
      PartsFormat(parts, f, None, strip);
    }
    FirstPart(HEADER, DumpFunction(f, None, strip));
    if |b| >= 12 { assert b == b[..12] + b[12..]; }
  }
}
