/** The format of sparse images by its bytes, and what a stream of it stands for: chunks of whole
    blocks one after the other, of which only the raw ones say what is on the device. */
module SparseFormat {

  import opened SparseWriter

  /** Four bytes, the lowest first. */
  function Quad(b: seq<Byte>, i: nat): nat
    requires i + 4 <= |b|
  {
    var b0: nat, b1: nat, b2: nat, b3: nat := b[i], b[i + 1], b[i + 2], b[i + 3];
    b0 + 0x100 * b1 + 0x1_0000 * b2 + 0x100_0000 * b3
  }

  /** A chunk and how many bytes of the device it covers. */
  datatype Chunk = RawChunk(data: seq<Byte>) | FillChunk(size: nat) | NullChunk(size: nat)
  {
    function Covers(): nat {
      if RawChunk? then |data| else size
    }

    /** Its length in the stream: a header of twelve bytes and the data. */
    function Length(): nat {
      match this
      case RawChunk(data) => 12 + |data|
      case FillChunk(_) => 16
      case NullChunk(_) => 12
    }
  }

  /** The two bytes of a kind. */
  predicate IsKind(b: seq<Byte>, kind: Byte) {
    |b| >= 2 && b[0] == kind && b[1] == 0xCA
  }

  /** The kind in two bytes, two bytes of no interest, the number of blocks and the length in four
      bytes each, then the data or the four bytes to fill with. */
  predicate ChunkBytes(b: seq<Byte>, blk: nat, c: Chunk) {
    && |b| == c.Length() && Quad(b, 4) * blk == c.Covers() && Quad(b, 8) == |b|
    && match c
       case RawChunk(data) => IsKind(b, 0xC1) && b[12..] == data
       case FillChunk(_) => IsKind(b, 0xC2)
       case NullChunk(_) => IsKind(b, 0xC3)
  }

  predicate ChunksBytes(t: seq<Byte>, blk: nat, cs: seq<Chunk>) {
    if cs == [] then t == []
    else
      var n := cs[0].Length();
      n <= |t| && ChunkBytes(t[..n], blk, cs[0]) && ChunksBytes(t[n..], blk, cs[1..])
  }

  function Covered(cs: seq<Chunk>): nat {
    if cs == [] then 0 else cs[0].Covers() + Covered(cs[1..])
  }

  function PlacedAt(address: nat, data: seq<Byte>): seq<Placed> {
    seq(|data|, i requires 0 <= i < |data| => Placed(address + i, data[i]))
  }

  /** What the chunks put on the device from an address on. */
  function Written(cs: seq<Chunk>, address: nat): seq<Placed> {
    if cs == [] then []
    else
      (if cs[0].RawChunk? then PlacedAt(address, cs[0].data) else []) + Written(cs[1..], address + cs[0].Covers())
  }

  lemma QuadSlice(b: seq<Byte>, n: nat, i: nat)
    requires i + 4 <= n <= |b|
    ensures Quad(b[..n], i) == Quad(b, i) == Int32(b, i) == Int32(b[..n], i)
  {
  }

  lemma KindBytes(b: seq<Byte>)
    requires |b| >= 2
    ensures Int16(b, 0) == 0xCAC1 <==> IsKind(b, 0xC1)
    ensures Int16(b, 0) == 0xCAC2 <==> IsKind(b, 0xC2)
    ensures Int16(b, 0) == 0xCAC3 <==> IsKind(b, 0xC3)
  {
  }

  /** What the first twelve bytes of a chunk say. */
  lemma HeaderBytes(t: seq<Byte>, blk: nat)
    requires |t| >= 12
    ensures
      var covers := Quad(t, 4) * blk;
      HeaderOf(blk, t[..12]) ==
      if IsKind(t, 0xC1) && Quad(t, 8) == 12 + covers then Raw(covers)
      else if IsKind(t, 0xC3) && Quad(t, 8) == 12 then Null(covers)
      else if IsKind(t, 0xC2) && Quad(t, 8) == 16 then Fill(covers)
      else Bad
  {
    hide Int16, Int32, Quad;
    QuadSlice(t, 12, 4);
    QuadSlice(t, 12, 8);
    KindBytes(t[..12]);
  }

  /** The chunk that a well-formed header begins. */
  function First(t: seq<Byte>, blk: nat): Chunk
    requires |t| >= 12
  {
    var covers := Quad(t, 4) * blk;
    if IsKind(t, 0xC1) then RawChunk(if 12 + covers <= |t| then t[12..12 + covers] else [])
    else if IsKind(t, 0xC3) then NullChunk(covers)
    else FillChunk(covers)
  }

  lemma ChunkHeader(t: seq<Byte>, blk: nat, c: Chunk)
    requires c.Length() <= |t| && ChunkBytes(t[..c.Length()], blk, c)
    ensures
      match c
      case RawChunk(data) => HeaderOf(blk, t[..12]) == Raw(|data|) && t[12..][..|data|] == data
      case FillChunk(size) => HeaderOf(blk, t[..12]) == Fill(size)
      case NullChunk(size) => HeaderOf(blk, t[..12]) == Null(size)
  {
    hide HeaderOf, Quad;
    var b := t[..c.Length()];
    HeaderBytes(t, blk);
    QuadSlice(t, |b|, 4);
    QuadSlice(t, |b|, 8);
    assert b[12..] == t[12..][..|b| - 12];
  }

  /** One chunk is done and the rest of the stream is to be looked at. */
  lemma ChunkDone(t: seq<Byte>, blk: nat, c: Chunk, sector: nat)
    requires blk % 512 == 0 && c.Length() <= |t| && ChunkBytes(t[..c.Length()], blk, c)
    ensures c.Covers() % 512 == 0
    ensures ImageOf(blk, ChunkHead, 0, sector, t) ==
            ImageOf(blk, ChunkHead, 0, sector + c.Covers() / 512, t[c.Length()..])
            .After(if c.RawChunk? then PlacedAt(sector * 512, c.data) else [])
  {
    hide HeaderOf, Quad;
    ChunkHeader(t, blk, c);
    WholeSectors(Quad(t[..c.Length()], 4), blk);
    var rest := t[12..];
    assert t[c.Length()..] == rest[c.Length() - 12..];
    var more := ImageOf(blk, ChunkHead, 0, sector + c.Covers() / 512, t[c.Length()..]);
    assert [] + more.bytes == more.bytes;
  }

  /** Chunks are written one after the other, and what follows them is written behind them. */
  lemma {:induction false} ChunksDone(t: seq<Byte>, more: seq<Byte>, blk: nat, cs: seq<Chunk>, sector: nat)
    requires blk % 512 == 0 && ChunksBytes(t, blk, cs)
    ensures Covered(cs) % 512 == 0
    ensures ImageOf(blk, ChunkHead, 0, sector, t + more) ==
            ImageOf(blk, ChunkHead, 0, sector + Covered(cs) / 512, more).After(Written(cs, sector * 512))
    decreases |cs|
  {
    hide ImageOf, ChunkBytes;
    if cs == [] {
      var image := ImageOf(blk, ChunkHead, 0, sector, more);
      assert t + more == more && [] + image.bytes == image.bytes;
    } else {
      var n, covers := cs[0].Length(), cs[0].Covers();
      assert (t + more)[..n] == t[..n] && (t + more)[n..] == t[n..] + more;
      ChunkDone(t + more, blk, cs[0], sector);
      ChunksDone(t[n..], more, blk, cs[1..], sector + covers / 512);
      assert (sector + covers / 512) * 512 == sector * 512 + covers;
      assert sector + covers / 512 + Covered(cs[1..]) / 512 == sector + Covered(cs) / 512;
      AfterAfter(ImageOf(blk, ChunkHead, 0, sector + Covered(cs) / 512, more),
                 if cs[0].RawChunk? then PlacedAt(sector * 512, cs[0].data) else [],
                 Written(cs[1..], sector * 512 + covers));
    }
  }

  /** A stream is complete exactly if it is a header of 28 bytes and chunks. */
  lemma StreamFormat(t: seq<Byte>, blk: nat, sector: nat)
    requires blk % 512 == 0
    ensures ImageOf(blk, TotalHead, 0, sector, t).Complete? <==>
            |t| >= 28 && exists cs :: ChunksBytes(t[28..], blk, cs)
  {
    if |t| >= 28 {
      if ImageOf(blk, TotalHead, 0, sector, t).Complete? {
        var cs := ChunksIn(t[28..], blk, sector);
      }
      if cs :| ChunksBytes(t[28..], blk, cs) {
        StreamWritten(t, blk, cs, sector);
      }
    }
  }

  /** What a complete stream puts on the device. */
  lemma StreamWritten(t: seq<Byte>, blk: nat, cs: seq<Chunk>, sector: nat)
    requires blk % 512 == 0 && |t| >= 28 && ChunksBytes(t[28..], blk, cs)
    ensures ImageOf(blk, TotalHead, 0, sector, t) == Complete(Written(cs, sector * 512))
  {
    ChunksDone(t[28..], [], blk, cs, sector);
    assert t[28..] + [] == t[28..];
    assert Written(cs, sector * 512) + [] == Written(cs, sector * 512);
  }

  lemma {:induction false} ChunksIn(t: seq<Byte>, blk: nat, sector: nat) returns (cs: seq<Chunk>)
    requires blk % 512 == 0 && ImageOf(blk, ChunkHead, 0, sector, t).Complete?
    ensures ChunksBytes(t, blk, cs)
    decreases |t|
  {
    hide HeaderOf, Quad;
    if t == [] {
      cs := [];
    } else {
      var c := First(t, blk);
      HeaderBytes(t, blk);
      var n := c.Length();
      var covers := Quad(t, 4) * blk;
      var rest := t[12..];
      QuadSlice(t, n, 4);
      QuadSlice(t, n, 8);
      cs := ChunksIn(t[n..], blk, sector + covers / 512);
      cs := [c] + cs;
    }
  }

  /** The size in a header is that of its kind. */
  predicate GoodHeader(t: seq<Byte>, blk: nat)
    requires |t| >= 12
  {
    || (IsKind(t, 0xC1) && Quad(t, 8) == 12 + Quad(t, 4) * blk)
    || (IsKind(t, 0xC2) && Quad(t, 8) == 16)
    || (IsKind(t, 0xC3) && Quad(t, 8) == 12)
  }

  /** What comes before a header that is not well formed is written, and nothing else. */
  lemma StreamMalformed(t: seq<Byte>, more: seq<Byte>, blk: nat, cs: seq<Chunk>, sector: nat)
    requires blk % 512 == 0 && |t| >= 28 && ChunksBytes(t[28..], blk, cs)
    requires |more| >= 12 && !GoodHeader(more, blk)
    ensures ImageOf(blk, TotalHead, 0, sector, t + more) == Malformed(Written(cs, sector * 512))
  {
    hide HeaderOf, Quad, ChunksBytes;
    HeaderBytes(more, blk);
    ChunksDone(t[28..], more, blk, cs, sector);
    assert (t + more)[28..] == t[28..] + more;
    assert Written(cs, sector * 512) + [] == Written(cs, sector * 512);
  }

  /** Of a stream that ends within a chunk, what there is of raw data is written. */
  lemma StreamTruncated(t: seq<Byte>, more: seq<Byte>, blk: nat, cs: seq<Chunk>, sector: nat)
    requires blk % 512 == 0 && |t| >= 28 && ChunksBytes(t[28..], blk, cs)
    requires more != [] && (|more| >= 12 ==> GoodHeader(more, blk) && |more| < Quad(more, 8))
    ensures ImageOf(blk, TotalHead, 0, sector, t + more) ==
            Truncated(Written(cs, sector * 512) +
            if |more| >= 12 && IsKind(more, 0xC1) then PlacedAt(sector * 512 + Covered(cs), more[12..]) else [])
  {
    hide HeaderOf, Quad, ChunksBytes;
    if |more| >= 12 { HeaderBytes(more, blk); }
    ChunksDone(t[28..], more, blk, cs, sector);
    assert (t + more)[28..] == t[28..] + more;
    assert (sector + Covered(cs) / 512) * 512 == sector * 512 + Covered(cs);
  }
}
