/** Reading and writing precompiled chunks through a stream of blocks (lua-5.1/lzio.c:21-71,
    lua-5.1/lundump.c:47-205) and through a writer (lua-5.1/ldump.c:29-164). */
module ChunkIO {
  import opened Chunks

  const EOZ := -1

  function Joined(blocks: seq<seq<Byte>>): seq<Byte> {
    if blocks == [] then [] else blocks[0] + Joined(blocks[1..])
  }

  /** `ZIO`: the bytes in the buffer that are still unread, and the blocks the reader is to deliver. */
  class Zio {
    var unread: seq<Byte>
    var blocks: seq<seq<Byte>>

    constructor (input: seq<seq<Byte>>)
      requires forall i :: 0 <= i < |input| ==> input[i] != []
      ensures Valid() && Ahead() == Joined(input)
    {
      unread, blocks := [], input;
    }

    ghost predicate Valid()
      reads this
    {
      forall i :: 0 <= i < |blocks| ==> blocks[i] != []
    }

    /** Everything that is still to come. */
    ghost function Ahead(): seq<Byte>
      reads this
    {
      unread + Joined(blocks)
    }

    /** `luaZ_fill`, which takes the first byte of the block. */
    method Fill() returns (c: int)
      requires Valid() && unread == []
      modifies this
      ensures Valid()
      ensures
        if old(Ahead()) == [] then c == EOZ && Ahead() == []
        else c == old(Ahead())[0] && Ahead() == old(Ahead())[1..]
      ensures c != EOZ ==> old(blocks) != [] && unread == old(blocks)[0][1..]
      ensures c != EOZ ==> old(blocks)[0][0] == c && blocks == old(blocks)[1..]
    {
      if blocks == [] || blocks[0] == [] { return EOZ; }
      var buff := blocks[0];
      blocks := blocks[1..];
      unread := buff[1..];
      c := buff[0];
    }

    /** `luaZ_lookahead`. */
    method Lookahead() returns (c: int)
      requires Valid()
      modifies this
      ensures Valid() && Ahead() == old(Ahead())
      ensures if Ahead() == [] then c == EOZ else unread != [] && c == Ahead()[0]
    {
      if unread == [] {
        c := Fill();
        if c == EOZ { return; }
        unread := [c as Byte] + unread;
      }
      c := unread[0];
    }

    /** `luaZ_read`: the next `n` bytes, or as many as there are and how many are missing. */
    method Read(n: nat) returns (missing: nat, b: seq<Byte>)
      requires Valid()
      modifies this
      ensures Valid() && b + Ahead() == old(Ahead())
      ensures if n <= |old(Ahead())| then missing == 0 && |b| == n else missing == n - |b| > 0 && Ahead() == []
    {
      missing, b := n, [];
      while missing > 0
        invariant Valid() && missing + |b| == n && b + Ahead() == old(Ahead())
        decreases missing
      {
        var c := Lookahead();
        if c == EOZ { return; }
        var m := if missing <= |unread| then missing else |unread|;
        assert b + (unread + Joined(blocks)) == (b + unread[..m]) + (unread[m..] + Joined(blocks));
        b := b + unread[..m];
        unread := unread[m..];
        missing := missing - m;
      }
    }
  }

  datatype Try<+T> = Done(value: T) | Failed(error: LoadError)
  {
    predicate IsFailure() {
      Failed?
    }

    function PropagateFailure<U>(): Try<U>
      requires IsFailure()
    {
      Failed(error)
    }

    function Extract(): T
      requires !IsFailure()
    {
      value
    }
  }

  /** A method has loaded what the format says, and `rest` is still to come. */
  predicate Agrees<T(==)>(r: Try<T>, spec: Loaded<T>, rest: seq<Byte>) {
    match spec
    case Ok(x, b) => r == Done(x) && rest == b
    case Err(e) => r == Failed(e)
  }

  /** Values already loaded, and those that `r` loads after them. */
  function Onto<T>(xs: seq<T>, r: Loaded<seq<T>>): Loaded<seq<T>> {
    if r.Ok? then Ok(xs + r.value, r.rest) else r
  }

  lemma LoadOne<T>(xs: seq<T>, b: seq<Byte>, n: nat, load: seq<Byte> -> Loaded<T>)
    requires n > 0 && forall b :: Within(load(b), b, 0)
    ensures
      Onto(xs, LoadAll(b, n, load)) ==
      match load(b)
      case Ok(x, rest) => Onto(xs + [x], LoadAll(rest, n - 1, load))
      case Err(e) => Err(e)
  {
    if load(b).Ok? {
      var r := LoadAll(load(b).rest, n - 1, load);
      if r.Ok? { assert xs + ([load(b).value] + r.value) == xs + [load(b).value] + r.value; }
    }
  }

  /** `LoadState`. */
  class LoadState {
    const z: Zio
    const check: Proto -> bool

    constructor (zio: Zio, checker: Proto -> bool)
      ensures z == zio && check == checker
    {
      z, check := zio, checker;
    }

    method Block(n: nat) returns (r: Try<seq<Byte>>)
      requires z.Valid()
      modifies z
      ensures z.Valid() && Agrees(r, LoadBlock(old(z.Ahead()), n), z.Ahead())
    {
      var missing, b := z.Read(n);
      r := if missing != 0 then Failed(UnexpectedEnd) else Done(b);
    }

    method Char() returns (r: Try<Byte>)
      requires z.Valid()
      modifies z
      ensures z.Valid() && Agrees(r, LoadByte(old(z.Ahead())), z.Ahead())
    {
      var b :- Block(1);
      r := Done(b[0]);
    }

    method Integer() returns (r: Try<nat>)
      requires z.Valid()
      modifies z
      ensures z.Valid() && Agrees(r, LoadInt(old(z.Ahead())), z.Ahead())
    {
      var b :- Block(SIZEOF_INT);
      r := if Value(b) >= 0x8000_0000 then Failed(BadInteger) else Done(Value(b));
    }

    method Text() returns (r: Try<Option<Str>>)
      requires z.Valid()
      modifies z
      ensures z.Valid() && Agrees(r, LoadString(old(z.Ahead())), z.Ahead())
    {
      var size :- Block(SIZEOF_SIZE_T);
      if Value(size) == 0 { return Done(None); }
      var s :- Block(Value(size));
      r := Done(Some(s[..|s| - 1]));
    }

    /** The vector of the instructions and that of the line numbers. */
    method Vector() returns (r: Try<seq<Word>>)
      requires z.Valid()
      modifies z
      ensures z.Valid() && Agrees(r, LoadWords(old(z.Ahead())), z.Ahead())
    {
      var n :- Integer();
      var s :- Block(4 * n);
      r := Done(WordsOf(s));
    }

    method OneConstant() returns (r: Try<Constant>)
      requires z.Valid()
      modifies z
      ensures z.Valid() && Agrees(r, LoadConstant(old(z.Ahead())), z.Ahead())
    {
      var t :- Char();
      if t == LUA_TNIL {
        r := Done(Nil);
      } else if t == LUA_TBOOLEAN {
        var b :- Char();
        r := Done(Boolean(b));
      } else if t == LUA_TNUMBER {
        var b :- Block(SIZEOF_NUMBER);
        r := Done(Number(b));
      } else if t == LUA_TSTRING {
        var s :- Text();
        r := Done(String(s));
      } else {
        r := Failed(BadConstant);
      }
    }

    method Constants() returns (r: Try<seq<Constant>>)
      requires z.Valid()
      modifies z
      ensures z.Valid() && Agrees(r, LoadCounted(old(z.Ahead()), LoadConstant), z.Ahead())
    {
      hide LoadConstant, LoadInt;
      var n :- Integer();
      ghost var spec := LoadAll(z.Ahead(), n, LoadConstant);
      var k: seq<Constant> := [];
      assert spec.Ok? ==> [] + spec.value == spec.value;
      for i := 0 to n
        invariant z.Valid() && |k| == i && spec == Onto(k, LoadAll(z.Ahead(), n - i, LoadConstant))
      {
        LoadOne(k, z.Ahead(), n - i, LoadConstant);
        var x :- OneConstant();
        k := k + [x];
      }
      assert k + [] == k;
      r := Done(k);
    }

    method OneLocVar() returns (r: Try<LocVar>)
      requires z.Valid()
      modifies z
      ensures z.Valid() && Agrees(r, LoadLocVar(old(z.Ahead())), z.Ahead())
    {
      hide LoadString, LoadInt;
      var name :- Text();
      var startpc :- Integer();
      var endpc :- Integer();
      r := Done(LocVar(name, startpc, endpc));
    }

    method LocVars() returns (r: Try<seq<LocVar>>)
      requires z.Valid()
      modifies z
      ensures z.Valid() && Agrees(r, LoadCounted(old(z.Ahead()), LoadLocVar), z.Ahead())
    {
      hide LoadLocVar, LoadInt;
      var n :- Integer();
      ghost var spec := LoadAll(z.Ahead(), n, LoadLocVar);
      var vs: seq<LocVar> := [];
      assert spec.Ok? ==> [] + spec.value == spec.value;
      for i := 0 to n
        invariant z.Valid() && |vs| == i && spec == Onto(vs, LoadAll(z.Ahead(), n - i, LoadLocVar))
      {
        LoadOne(vs, z.Ahead(), n - i, LoadLocVar);
        var x :- OneLocVar();
        vs := vs + [x];
      }
      assert vs + [] == vs;
      r := Done(vs);
    }

    method Strings() returns (r: Try<seq<Option<Str>>>)
      requires z.Valid()
      modifies z
      ensures z.Valid() && Agrees(r, LoadCounted(old(z.Ahead()), LoadString), z.Ahead())
    {
      hide LoadString, LoadInt;
      var n :- Integer();
      ghost var spec := LoadAll(z.Ahead(), n, LoadString);
      var ss: seq<Option<Str>> := [];
      assert spec.Ok? ==> [] + spec.value == spec.value;
      for i := 0 to n
        invariant z.Valid() && |ss| == i && spec == Onto(ss, LoadAll(z.Ahead(), n - i, LoadString))
      {
        LoadOne(ss, z.Ahead(), n - i, LoadString);
        var x :- Text();
        ss := ss + [x];
      }
      assert ss + [] == ss;
      r := Done(ss);
    }

    method Debug() returns (r: Try<DebugInfo>)
      requires z.Valid()
      modifies z
      ensures z.Valid() && Agrees(r, LoadDebug(old(z.Ahead())), z.Ahead())
    {
      hide LoadWords, LoadCounted;
      var lineinfo :- Vector();
      var locvars :- LocVars();
      var upvalues :- Strings();
      r := Done(DebugInfo(lineinfo, locvars, upvalues));
    }

    method Head(parent: Str) returns (r: Try<Proto>)
      requires z.Valid()
      modifies z
      ensures z.Valid() && Agrees(r, LoadHead(old(z.Ahead()), parent), z.Ahead())
    {
      hide LoadString, LoadInt, LoadByte, LoadWords, LoadCounted;
      var s :- Text();
      var linedefined :- Integer();
      var lastlinedefined :- Integer();
      var nups :- Char();
      var numparams :- Char();
      var isVararg :- Char();
      var maxstacksize :- Char();
      var code :- Vector();
      var k :- Constants();
      r := Done(Proto(if s == None then parent else s.value, linedefined, lastlinedefined, nups, numparams, isVararg,
                      maxstacksize, code, k, [], NO_DEBUG));
    }

    /** `LoadFunction`. */
    method Function(parent: Str) returns (r: Try<Proto>)
      requires z.Valid()
      modifies z
      ensures z.Valid() && Agrees(r, LoadFunction(old(z.Ahead()), parent, check), z.Ahead())
      decreases |z.Ahead()|, 0
    {
      hide LoadHead, LoadInt, LoadDebug;
      var f :- Head(parent);
      var n :- Integer();
      var p :- Functions(n, f.source);
      var debug :- Debug();
      var loaded := f.(p := p, debug := debug);
      r := if check(loaded) then Done(loaded) else Failed(BadCode);
    }

    method Functions(n: nat, parent: Str) returns (r: Try<seq<Proto>>)
      requires z.Valid()
      modifies z
      ensures z.Valid() && Agrees(r, LoadFunctions(old(z.Ahead()), n, parent, check), z.Ahead())
      decreases |z.Ahead()|, 1
    {
      hide LoadHead, LoadInt, LoadDebug, LoadFunction;
      ghost var spec := LoadFunctions(z.Ahead(), n, parent, check);
      var fs: seq<Proto> := [];
      assert spec.Ok? ==> [] + spec.value == spec.value;
      for i := 0 to n
        invariant z.Valid() && |fs| == i && |z.Ahead()| <= |old(z.Ahead())|
        invariant spec == Onto(fs, LoadFunctions(z.Ahead(), n - i, parent, check))
      {
        NextFunction(fs, z.Ahead(), n - i, parent);
        var f :- Function(parent);
        fs := fs + [f];
      }
      assert fs + [] == fs;
      r := Done(fs);
    }

    lemma NextFunction(fs: seq<Proto>, b: seq<Byte>, n: nat, parent: Str)
      requires n > 0
      ensures
        Onto(fs, LoadFunctions(b, n, parent, check)) ==
        match LoadFunction(b, parent, check)
        case Ok(f, rest) => Onto(fs + [f], LoadFunctions(rest, n - 1, parent, check))
        case Err(e) => Err(e)
    {
      var first := LoadFunction(b, parent, check);
      if first.Ok? {
        var r := LoadFunctions(first.rest, n - 1, parent, check);
        if r.Ok? { assert fs + ([first.value] + r.value) == fs + [first.value] + r.value; }
      }
    }

    /** `luaU_undump`. */
    method Load() returns (r: Try<Proto>)
      requires z.Valid()
      modifies z
      ensures z.Valid() && Agrees(r, Undump(old(z.Ahead()), check), z.Ahead())
    {
      hide LoadFunction;
      var h :- Block(|HEADER|);
      if h != HEADER { return Failed(BadHeader); }
      r := Function(UNKNOWN_SOURCE);
    }
  }

  /** `DumpState`, with what the writer has taken so far. The writer may fail at any time. */
  class DumpState {
    const strip: bool
    var out: seq<Byte>
    var status: int

    constructor (strip: bool)
      ensures this.strip == strip && out == [] && status == 0
    {
      this.strip, out, status := strip, [], 0;
    }

    /** Unless the writer has failed, it has taken `b`; once it has failed, it takes nothing. */
    twostate predicate Wrote(b: seq<Byte>)
      reads this
    {
      && (status == 0 ==> old(status) == 0 && out == old(out) + b)
      && (old(status) != 0 ==> status == old(status) && out == old(out))
    }

    method Block(b: seq<Byte>)
      modifies this
      ensures Wrote(b)
    {
      if status == 0 {
        status := *;
        if status == 0 { out := out + b; }
      }
    }

    method Integer(n: nat)
      modifies this
      ensures Wrote(Int(n))
    {
      Block(Little(n, SIZEOF_INT));
    }

    method Text(s: Option<Str>)
      modifies this
      ensures Wrote(DumpString(s))
    {
      if s == None {
        Block(Little(0, SIZEOF_SIZE_T));
      } else {
        var size := Little(|s.value| + 1, SIZEOF_SIZE_T);
        Block(size);
        Block(s.value + [0]);
        assert old(out) + size + (s.value + [0]) == old(out) + DumpString(s);
      }
    }

    method Vector(ws: seq<Word>)
      modifies this
      ensures Wrote(Int(|ws|) + Words(ws))
    {
      Integer(|ws|);
      Block(Words(ws));
      assert old(out) + Int(|ws|) + Words(ws) == old(out) + (Int(|ws|) + Words(ws));
    }

    method OneConstant(c: Constant)
      modifies this
      ensures Wrote(DumpConstant(c))
    {
      hide DumpString;
      match c
      case Nil =>
        Block([LUA_TNIL]);
      case Boolean(b) =>
        Block([LUA_TBOOLEAN]);
        Block([b]);
        assert old(out) + [LUA_TBOOLEAN] + [b] == old(out) + DumpConstant(c);
      case Number(bytes) =>
        Block([LUA_TNUMBER]);
        Block(bytes);
        assert old(out) + [LUA_TNUMBER] + bytes == old(out) + DumpConstant(c);
      case String(s) =>
        Block([LUA_TSTRING]);
        Text(s);
        assert old(out) + [LUA_TSTRING] + DumpString(s) == old(out) + DumpConstant(c);
    }

    method Constants(k: seq<Constant>)
      modifies this
      ensures Wrote(Int(|k|) + DumpAll(k, DumpConstant))
    {
      hide DumpConstant, Int;
      Integer(|k|);
      assert k[..0] == [];
      for i := 0 to |k|
        invariant Wrote(Int(|k|) + DumpAll(k[..i], DumpConstant))
      {
        OneConstant(k[i]);
        DumpNext(k, i, DumpConstant);
        Further(old(out), Int(|k|), DumpAll(k[..i], DumpConstant), DumpConstant(k[i]));
      }
      assert k[..|k|] == k;
    }

    method LocVars(vs: seq<LocVar>)
      modifies this
      ensures Wrote(Int(|vs|) + DumpAll(vs, DumpLocVar))
    {
      hide DumpString, Int;
      Integer(|vs|);
      assert vs[..0] == [];
      for i := 0 to |vs|
        invariant Wrote(Int(|vs|) + DumpAll(vs[..i], DumpLocVar))
      {
        var a, b, c := DumpString(vs[i].varname), Int(vs[i].startpc), Int(vs[i].endpc);
        ghost var o := out;
        Text(vs[i].varname);
        Integer(vs[i].startpc);
        Integer(vs[i].endpc);
        assert o + a + b + c == o + (a + (b + c));
        DumpNext(vs, i, DumpLocVar);
        Further(old(out), Int(|vs|), DumpAll(vs[..i], DumpLocVar), DumpLocVar(vs[i]));
      }
      assert vs[..|vs|] == vs;
    }

    method Strings(ss: seq<Option<Str>>)
      modifies this
      ensures Wrote(Int(|ss|) + DumpAll(ss, DumpString))
    {
      hide DumpString, Int;
      Integer(|ss|);
      assert ss[..0] == [];
      for i := 0 to |ss|
        invariant Wrote(Int(|ss|) + DumpAll(ss[..i], DumpString))
      {
        Text(ss[i]);
        DumpNext(ss, i, DumpString);
        Further(old(out), Int(|ss|), DumpAll(ss[..i], DumpString), DumpString(ss[i]));
      }
      assert ss[..|ss|] == ss;
    }

    method Debug(d: DebugInfo)
      modifies this
      ensures Wrote(DumpDebug(if strip then NO_DEBUG else d))
    {
      hide Int, Words, DumpAll;
      var lineinfo := if strip then [] else d.lineinfo;
      var locvars := if strip then [] else d.locvars;
      var upvalues := if strip then [] else d.upvalues;
      Vector(lineinfo);
      LocVars(locvars);
      Strings(upvalues);
      ghost var a, b, c := Int(|lineinfo|) + Words(lineinfo), Int(|locvars|) + DumpAll(locvars, DumpLocVar),
                           Int(|upvalues|) + DumpAll(upvalues, DumpString);
      assert old(out) + a + b + c == old(out) + (a + (b + c));
    }

    method Head(f: Proto, parent: Option<Str>)
      modifies this
      ensures Wrote(DumpHead(f, parent, strip))
    {
      hide Int, Words, DumpAll, DumpString;
      var source := if strip || Some(f.source) == parent then None else Some(f.source);
      var bytes := [f.nups, f.numparams, f.isVararg, f.maxstacksize];
      Text(source);
      Integer(f.linedefined);
      Integer(f.lastlinedefined);
      Block([f.nups]);
      Block([f.numparams]);
      Block([f.isVararg]);
      Block([f.maxstacksize]);
      Vector(f.code);
      Constants(f.k);
      ghost var s, l1, l2 := DumpString(source), Int(f.linedefined), Int(f.lastlinedefined);
      ghost var code, k := Int(|f.code|) + Words(f.code), Int(|f.k|) + DumpAll(f.k, DumpConstant);
      ghost var o := old(out) + s + l1 + l2;
      assert o + [f.nups] + [f.numparams] + [f.isVararg] + [f.maxstacksize] == o + bytes;
      assert o + bytes + code + k == old(out) + (s + (l1 + (l2 + (bytes + (code + k)))));
    }

    /** `DumpFunction`. */
    method Function(f: Proto, parent: Option<Str>)
      modifies this
      ensures Wrote(DumpFunction(f, parent, strip))
      decreases f
    {
      hide DumpHead, Int, DumpDebug;
      Head(f, parent);
      Integer(|f.p|);
      ghost var o := out;
      ghost var ok := status == 0;
      assert f.p[..0] == [];
      for i := 0 to |f.p|
        invariant status == 0 ==> ok && out == o + DumpFunctions(f.p[..i], Some(f.source), strip)
        invariant !ok ==> status != 0
        invariant old(status) != 0 ==> status == old(status) && out == old(out)
      {
        Function(f.p[i], Some(f.source));
        DumpNextFunction(f.p, i, Some(f.source), strip);
        assert o + DumpFunctions(f.p[..i], Some(f.source), strip) + DumpFunction(f.p[i], Some(f.source), strip) ==
               o + DumpFunctions(f.p[..i + 1], Some(f.source), strip);
      }
      assert f.p[..|f.p|] == f.p;
      Debug(f.debug);
      ghost var h, n, fs := DumpHead(f, parent, strip), Int(|f.p|), DumpFunctions(f.p, Some(f.source), strip);
      ghost var d := DumpDebug(if strip then NO_DEBUG else f.debug);
      assert old(out) + h + n + fs + d == old(out) + (h + (n + (fs + d)));
    }

    /** `luaU_dump`. */
    method DumpChunk(f: Proto)
      requires out == [] && status == 0
      modifies this
      ensures status == 0 ==> out == Dump(f, strip)
    {
      hide DumpFunction;
      Block(HEADER);
      Function(f, None);
      assert [] + HEADER == HEADER;
    }
  }

  lemma Further(o: seq<Byte>, a: seq<Byte>, b: seq<Byte>, c: seq<Byte>)
    ensures o + (a + b) + c == o + (a + (b + c))
  {
  }

  lemma {:induction false} DumpNext<T>(xs: seq<T>, i: nat, dump: T -> seq<Byte>)
    requires i < |xs|
    ensures DumpAll(xs[..i + 1], dump) == DumpAll(xs[..i], dump) + dump(xs[i])
    decreases i
  {
    if i == 0 {
      assert xs[..1] == [xs[0]];
    } else {
      DumpNext(xs[1..], i - 1, dump);
      assert xs[..i + 1][1..] == xs[1..][..i] && xs[..i][1..] == xs[1..][..i - 1];
      assert dump(xs[0]) + (DumpAll(xs[1..][..i - 1], dump) + dump(xs[i])) ==
             dump(xs[0]) + DumpAll(xs[1..][..i - 1], dump) + dump(xs[i]);
    }
  }

  lemma {:induction false} DumpNextFunction(fs: seq<Proto>, i: nat, parent: Option<Str>, strip: bool)
    requires i < |fs|
    ensures DumpFunctions(fs[..i + 1], parent, strip) ==
            DumpFunctions(fs[..i], parent, strip) + DumpFunction(fs[i], parent, strip)
    decreases i
  {
    hide DumpHead, DumpDebug;
    var first := DumpFunction(fs[0], parent, strip);
    if i == 0 {
      assert fs[..1] == [fs[0]] && fs[..1][1..] == [];
    } else {
      DumpNextFunction(fs[1..], i - 1, parent, strip);
      assert fs[..i + 1][1..] == fs[1..][..i] && fs[..i][1..] == fs[1..][..i - 1];
      var more, last := DumpFunctions(fs[1..][..i - 1], parent, strip), DumpFunction(fs[i], parent, strip);
      assert first + (more + last) == first + more + last;
    }
  }

  /** A chunk that was dumped is loaded again as it was, however the reader divides it into blocks. */
  method LoadDumped(f: Proto, strip: bool, check: Proto -> bool, blocks: seq<seq<Byte>>, ghost rest: seq<Byte>)
    returns (r: Try<Proto>, z: Zio)
    requires Fits(f) && Checked(AsLoaded(f, strip), check)
    requires Joined(blocks) == Dump(f, strip) + rest && forall i :: 0 <= i < |blocks| ==> blocks[i] != []
    ensures r == Done(AsLoaded(f, strip)) && z.Ahead() == rest
  {
    UndumpInvertsDump(f, strip, check, rest);
    z := new Zio(blocks);
    var s := new LoadState(z, check);
    r := s.Load();
  }
}
