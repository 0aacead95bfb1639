/** The writer of sparse images (script/aultools.lua:1546-1595, 2484-2755): a stream of chunks,
    read in blocks of any size, is written to the sectors of a flash device. */
module SparseWriter {

  type Byte = b: int | 0 <= b < 256

  const SECTOR: nat := 512
  /** Room in the buffer before a block, for the bytes left over from the block before it. */
  const GAP: nat := 65536
  const FEX_DOWN_LEN: nat := 65536

  const SPARSE_HEADER_SIZE: nat := 28
  const CHUNK_HEADER_SIZE: nat := 12
  const CHUNK_TYPE_RAW := 51905
  const CHUNK_TYPE_FILL := 51906
  const CHUNK_TYPE_NULL := 51907

  datatype Mode = TotalHead | ChunkHead | ChunkData | FillData

  function Int16(s: seq<Byte>, i: nat): nat
    requires i + 2 <= |s|
  {
    s[i] as nat + 256 * (s[i + 1] as nat)
  }

  function Int32(s: seq<Byte>, i: nat): nat
    requires i + 4 <= |s|
  {
    Int16(s, i) + 65536 * Int16(s, i + 2)
  }

  datatype Header = Raw(length: nat) | Null(length: nat) | Fill(length: nat) | Bad

  lemma WholeSectors(n: nat, blk: nat)
    requires blk % SECTOR == 0
    ensures n * blk % SECTOR == 0
  {
    var b := blk / SECTOR;
    assert n * blk == n * (b * SECTOR) == (n * b) * SECTOR;
  }

  /** The size of a chunk that has as many blocks of `blk` bytes as its header says. */
  function ChunkSize(blk: nat, head: seq<Byte>): (size: nat)
    requires |head| == CHUNK_HEADER_SIZE
    ensures blk % SECTOR == 0 ==> size % SECTOR == 0
  {
    if blk % SECTOR == 0 then WholeSectors(Int32(head, 4), blk); Int32(head, 4) * blk else Int32(head, 4) * blk
  }

  /** The header of a chunk whose blocks are of `blk` bytes. */
  function HeaderOf(blk: nat, head: seq<Byte>): Header
    requires |head| == CHUNK_HEADER_SIZE
  {
    var kind, length, total := Int16(head, 0), ChunkSize(blk, head), Int32(head, 8);
    if kind == CHUNK_TYPE_RAW && total == length + CHUNK_HEADER_SIZE then Raw(length)
    else if kind == CHUNK_TYPE_NULL && total == 12 then Null(length)
    else if kind == CHUNK_TYPE_FILL && total == CHUNK_HEADER_SIZE + 4 then Fill(length)
    else Bad
  }

  // ----- what a stream stands for -----

  /** A byte at its address on the device. */
  datatype Placed = Placed(address: nat, byte: Byte)

  function At(sector: nat, data: seq<Byte>): (r: seq<Placed>)
    ensures |r| == |data|
  {
    seq(|data|, i requires 0 <= i < |data| => Placed(sector * SECTOR + i, data[i]))
  }

  /** What is on the device in the end, in the order of writing. A stream may end within a chunk
      or hold a chunk that is not well formed; what comes before is written all the same. */
  datatype Image = Complete(bytes: seq<Placed>) | Truncated(bytes: seq<Placed>) | Malformed(bytes: seq<Placed>)
  {
    function After(before: seq<Placed>): Image {
      this.(bytes := before + bytes)
    }
  }

  /** The image of the stream `t`, in which `left` bytes of a chunk are to come. */
  function ImageOf(blk: nat, mode: Mode, left: nat, sector: nat, t: seq<Byte>): Image
    decreases |t|, mode == ChunkData
  {
    match mode
    case TotalHead =>
      if |t| < SPARSE_HEADER_SIZE then Truncated([])
      else ImageOf(blk, ChunkHead, 0, sector, t[SPARSE_HEADER_SIZE..])
    case ChunkHead =>
      if t == [] then Complete([])
      else if |t| < CHUNK_HEADER_SIZE then Truncated([])
      else
        var rest := t[CHUNK_HEADER_SIZE..];
        (match HeaderOf(blk, t[..CHUNK_HEADER_SIZE])
        case Raw(length) => ImageOf(blk, ChunkData, length, sector, rest)
        case Null(length) => ImageOf(blk, ChunkHead, 0, sector + length / SECTOR, rest)
        case Fill(length) => ImageOf(blk, FillData, length, sector, rest)
        case Bad => Malformed([]))
    case FillData =>
      if |t| < 4 then Truncated([]) else ImageOf(blk, ChunkHead, 0, sector + left / SECTOR, t[4..])
    case ChunkData =>
      if |t| < left then Truncated(At(sector, t))
      else ImageOf(blk, ChunkHead, 0, sector + left / SECTOR, t[left..]).After(At(sector, t[..left]))
  }

  lemma HeadImage(blk: nat, left: nat, sector: nat, t: seq<Byte>)
    requires |t| >= CHUNK_HEADER_SIZE
    ensures
      var rest := t[CHUNK_HEADER_SIZE..];
      ImageOf(blk, ChunkHead, left, sector, t) ==
      match HeaderOf(blk, t[..CHUNK_HEADER_SIZE])
      case Raw(length) => ImageOf(blk, ChunkData, length, sector, rest)
      case Null(length) => ImageOf(blk, ChunkHead, length, sector + length / SECTOR, rest)
      case Fill(length) => ImageOf(blk, FillData, length, sector, rest)
      case Bad => Malformed([])
  {
  }

  lemma OtherImage(blk: nat, left: nat, sector: nat, t: seq<Byte>)
    ensures |t| >= SPARSE_HEADER_SIZE ==> ImageOf(blk, TotalHead, left, sector, t) ==
                                          ImageOf(blk, ChunkHead, left, sector, t[SPARSE_HEADER_SIZE..])
    ensures |t| >= 4 ==> ImageOf(blk, FillData, left, sector, t) ==
                         ImageOf(blk, ChunkHead, left, sector + left / SECTOR, t[4..])
  {
  }

  lemma EmptyData(blk: nat, sector: nat, t: seq<Byte>)
    ensures ImageOf(blk, ChunkData, 0, sector, t) == ImageOf(blk, ChunkHead, 0, sector, t)
  {
    assert t[0..] == t;
    var bytes := ImageOf(blk, ChunkHead, 0, sector, t).bytes;
    assert At(sector, t[..0]) + bytes == bytes;
  }

  lemma AtSplit(sector: nat, data: seq<Byte>, n: nat)
    requires n <= |data| && n % SECTOR == 0
    ensures At(sector, data) == At(sector, data[..n]) + At(sector + n / SECTOR, data[n..])
  {
    assert (sector + n / SECTOR) * SECTOR == sector * SECTOR + n;
  }

  lemma AfterAfter(i: Image, a: seq<Placed>, b: seq<Placed>)
    ensures i.After(b).After(a) == i.After(a + b)
  {
    assert a + (b + i.bytes) == a + b + i.bytes;
  }

  /** Whole sectors of a chunk may be written before the others are there. */
  lemma WriteSome(blk: nat, left: nat, sector: nat, t: seq<Byte>, n: nat)
    requires n <= left && n <= |t| && n % SECTOR == 0
    ensures ImageOf(blk, ChunkData, left, sector, t) ==
            ImageOf(blk, ChunkData, left - n, sector + n / SECTOR, t[n..]).After(At(sector, t[..n]))
  {
    if |t| < left {
      AtSplit(sector, t, n);
    } else {
      AtSplit(sector, t[..left], n);
      assert t[..left][..n] == t[..n] && t[..left][n..] == t[n..][..left - n] && t[n..][left - n..] == t[left..];
      assert sector + n / SECTOR + (left - n) / SECTOR == sector + left / SECTOR;
      AfterAfter(ImageOf(blk, ChunkHead, 0, sector + left / SECTOR, t[left..]), At(sector, t[..n]),
                 At(sector + n / SECTOR, t[n..][..left - n]));
    }
  }

  lemma NoPieces(addr: nat, data: seq<Byte>)
    ensures Placement([]) == At(addr, data[..0])
  {
  }

  /** A piece more of one write. */
  lemma PieceAdded(pieces: seq<Transfer>, addr: nat, data: seq<Byte>, n: nat, piece: Transfer)
    requires n + |piece.data| <= |data| && n % SECTOR == 0 && Placement(pieces) == At(addr, data[..n])
    requires piece.addr == addr + n / SECTOR && piece.data == data[n..n + |piece.data|]
    ensures Placement(pieces + [piece]) == At(addr, data[..n + |piece.data|])
  {
    hide At;
    var d := data[..n + |piece.data|];
    assert d[..n] == data[..n] && d[n..] == piece.data;
    AtSplit(addr, d, n);
    assert (pieces + [piece])[..|pieces|] == pieces;
  }

  lemma Slices(s: seq<Byte>, a: nat, n: nat, b: nat, m: nat)
    requires a + n <= |s| && b + m <= n
    ensures s[a..a + n][b..b + m] == s[a + b..a + b + m]
  {
    var t := s[a..a + n];
    assert forall i :: b <= i < b + m ==> t[i] == s[a + i];
    assert |t[b..b + m]| == m;
  }

  // ----- transfers -----

  datatype Transfer = Transfer(addr: nat, data: seq<Byte>, finish: bool)

  function Placement(log: seq<Transfer>): seq<Placed> {
    if log == [] then [] else Placement(log[..|log| - 1]) + At(log[|log| - 1].addr, log[|log| - 1].data)
  }

  lemma {:induction false} PlacementAppend(a: seq<Transfer>, b: seq<Transfer>)
    ensures Placement(a + b) == Placement(a) + Placement(b)
  {
    if b == [] {
      assert a + b == a;
    } else {
      var n := |b| - 1;
      PlacementAppend(a, b[..n]);
      assert (a + b)[..|a + b| - 1] == a + b[..n];
      assert Placement(a) + (Placement(b[..n]) + At(b[n].addr, b[n].data)) ==
             Placement(a) + Placement(b[..n]) + At(b[n].addr, b[n].data);
    }
  }

  /** One write in pieces a packet can hold, of which only the last one is tagged as finished. */
  ghost predicate InPieces(pieces: seq<Transfer>, addr: nat, data: seq<Byte>) {
    && pieces != [] && Placement(pieces) == At(addr, data)
    && forall i :: 0 <= i < |pieces| ==> |pieces[i].data| <= FEX_DOWN_LEN && pieces[i].finish == (i == |pieces| - 1)
  }

  function Joined(blocks: seq<seq<Byte>>): seq<Byte> {
    if blocks == [] then [] else blocks[0] + Joined(blocks[1..])
  }

  /** The parser, its state between blocks (`retPara`) and the device it writes to. */
  class Parser {
    const blk: nat
    const buf: array<Byte>
    var log: seq<Transfer>
    var mode: Mode
    var left: nat
    var sector: nat
    var rest: nat

    constructor (blkSize: nat, bufSize: nat, addr: nat)
      requires blkSize % SECTOR == 0 && bufSize >= GAP
      ensures Valid() && fresh(buf) && log == [] && mode == TotalHead && left == rest == 0
      ensures blk == blkSize && buf.Length == bufSize && sector == addr
    {
      blk, log, mode, left, sector, rest := blkSize, [], TotalHead, 0, addr, 0;
      buf := new Byte[bufSize];
    }

    /** What is left over always fits the gap. */
    ghost predicate Valid()
      reads this
    {
      && blk % SECTOR == 0 && left % SECTOR == 0 && buf.Length >= GAP
      && rest < 8192 && (mode == TotalHead ==> rest == 0)
    }

    ghost function Carry(): seq<Byte>
      requires Valid()
      reads this, buf
    {
      buf[GAP - rest..GAP]
    }

    /** The image of what is written and what is to come. */
    ghost function Result(t: seq<Byte>): Image
      reads this
    {
      ImageOf(blk, mode, left, sector, t).After(Placement(log))
    }

    /** Nothing more can be done before more bytes come. */
    ghost predicate Waits()
      reads this
    {
      match mode
      case TotalHead => false
      case ChunkHead => rest < CHUNK_HEADER_SIZE
      case FillData => rest < 4
      case ChunkData => rest < left || rest == left == 0
    }

    /** `MemCopy` within the buffer. */
    method MemCopy(src: nat, pos: nat, n: nat)
      requires src + n <= buf.Length && pos + n <= buf.Length
      modifies buf
      ensures buf[pos..pos + n] == old(buf[src..src + n])
      ensures forall i :: 0 <= i < buf.Length && !(pos <= i < pos + n) ==> buf[i] == old(buf[i])
    {
      forall i | 0 <= i < n {
        buf[pos + i] := buf[src + i];
      }
    }

    /** `FesTransData`, downwards. */
    method FesDownData(addr: nat, len: nat, ofs: nat)
      requires ofs + len <= buf.Length
      modifies this`log
      ensures exists pieces :: log == old(log) + pieces && InPieces(pieces, addr, buf[ofs..ofs + len])
    {
      hide Placement, At;
      var leftLen: nat := len;
      ghost var data := buf[ofs..ofs + len];
      NoPieces(addr, data);
      ghost var pieces: seq<Transfer> := [];
      while true
        invariant data == buf[ofs..ofs + len]
        invariant leftLen <= len && (len - leftLen) % FEX_DOWN_LEN == 0
        invariant log == old(log) + pieces && Placement(pieces) == At(addr, data[..len - leftLen])
        invariant forall i :: 0 <= i < |pieces| ==> |pieces[i].data| <= FEX_DOWN_LEN && !pieces[i].finish
        invariant pieces == [] <==> leftLen == len
        decreases leftLen
      {
        var total := len - leftLen;
        var thisLen := if leftLen > FEX_DOWN_LEN then FEX_DOWN_LEN else leftLen;
        var piece := Transfer(addr + total / SECTOR, buf[ofs + total..ofs + total + thisLen], thisLen == leftLen);
        Slices(buf[..], ofs, len, total, thisLen);
        log := log + [piece];
        PieceAdded(pieces, addr, data, total, piece);
        pieces := pieces + [piece];
        leftLen := leftLen - thisLen;
        if leftLen <= 0 { break; }
      }
      assert data[..len] == data;
    }

    /** Writes `n` bytes of a chunk, whole sectors, from `ofs` on. */
    method WriteData(ofs: nat, n: nat, ghost t: seq<Byte>)
      requires Valid() && mode == ChunkData && n <= left && n % SECTOR == 0
      requires ofs + n <= buf.Length && n <= |t| && t[..n] == buf[ofs..ofs + n]
      modifies this`log, this`left, this`sector
      ensures Valid() && left == old(left) - n && sector == old(sector) + n / SECTOR
      ensures Result(t[n..]) == old(Result(t))
    {
      hide ImageOf, Placement, At;
      FesDownData(sector, n, ofs);
      ghost var pieces :| log == old(log) + pieces && InPieces(pieces, sector, buf[ofs..ofs + n]);
      PlacementAppend(old(log), pieces);
      WriteSome(blk, left, sector, t, n);
      sector := sector + n / SECTOR;
      left := left - n;
      AfterAfter(ImageOf(blk, mode, left, sector, t[n..]), Placement(old(log)), At(old(sector), t[..n]));
    }

    /** What is still to be looked at. */
    ghost function Ahead(ofs: nat, end: nat, unread: seq<Byte>): seq<Byte>
      requires ofs <= end <= buf.Length
      reads buf
    {
      buf[ofs..end] + unread
    }

    lemma AheadDrop(ofs: nat, end: nat, unread: seq<Byte>, n: nat)
      requires ofs + n <= end <= buf.Length
      ensures
        var t := Ahead(ofs, end, unread);
        n <= |t| && t[..n] == buf[ofs..ofs + n] && t[n..] == Ahead(ofs + n, end, unread)
    {
    }

    lemma NothingAhead(end: nat, unread: seq<Byte>)
      requires Valid() && rest == 0 && end <= buf.Length
      ensures Carry() + unread == Ahead(end, end, unread)
    {
    }

    /** Keeps the last `n` bytes before `end` for the next block, in front of where it begins. */
    method Keep(n: nat, end: nat, ghost unread: seq<Byte>)
      requires Valid() && n < 8192 && GAP <= end <= buf.Length && n <= end && mode != TotalHead
      modifies buf, this`rest
      ensures Valid() && rest == n && Result(Carry() + unread) == old(Result(Ahead(end - n, end, unread)))
    {
      MemCopy(end - n, GAP - n, n);
      rest := n;
    }

    /** The header of a chunk, at `ofs`. */
    method ParseHead(ofs: nat, ghost t: seq<Byte>) returns (ok: bool)
      requires Valid() && mode == ChunkHead && ofs + CHUNK_HEADER_SIZE <= buf.Length
      requires CHUNK_HEADER_SIZE <= |t| && t[..CHUNK_HEADER_SIZE] == buf[ofs..ofs + CHUNK_HEADER_SIZE]
      modifies this`left, this`mode, this`sector
      ensures ok ==> Valid() && mode != TotalHead && Result(t[CHUNK_HEADER_SIZE..]) == old(Result(t))
      ensures !ok ==> Valid() && old(Result(t)) == Malformed(Placement(log))
    {
      hide ImageOf, Placement, At, Int16, Int32, ChunkSize;
      HeadImage(blk, left, sector, t);
      var head := buf[ofs..ofs + CHUNK_HEADER_SIZE];
      var kind, total := Int16(head, 0), Int32(head, 8);
      left := ChunkSize(blk, head);
      if kind == CHUNK_TYPE_RAW {
        if total != left + CHUNK_HEADER_SIZE { return false; }
        mode := ChunkData;
      } else if kind == CHUNK_TYPE_NULL {
        if total != 12 { return false; }
        sector := sector + left / SECTOR;
      } else if kind == CHUNK_TYPE_FILL {
        if total != CHUNK_HEADER_SIZE + 4 { return false; }
        mode := FillData;
      } else {
        return false;
      }
      return true;
    }

    /** Data of a chunk of which more is to come than `n` bytes: whole sectors are written if
        there are enough, and the rest is kept. */
    method ParseData(ofs: nat, end: nat, ghost unread: seq<Byte>)
      requires Valid() && mode == ChunkData && ofs <= end <= buf.Length && end - ofs < left && GAP <= end && rest == 0
      modifies this`log, this`left, this`sector, this`rest, buf
      ensures Valid() && Waits() && Result(Carry() + unread) == old(Result(Ahead(ofs, end, unread)))
    {
      hide ImageOf, Placement, At;
      var n := end - ofs;
      if n < 8192 {
        Keep(n, end, unread);
      } else {
        var unenough := left - n;
        var downLen := if unenough < 4096 then n + unenough - 4096 else n - n % SECTOR;
        AheadDrop(ofs, end, unread, downLen);
        WriteData(ofs, downLen, Ahead(ofs, end, unread));
        Keep(n - downLen, end, unread);
      }
    }

    /** All data of a chunk that is still to come. */
    method WholeData(ofs: nat, end: nat, ghost unread: seq<Byte>)
      requires Valid() && mode == ChunkData && ofs <= end <= buf.Length && left <= end - ofs
      modifies this`log, this`left, this`sector, this`mode
      ensures Valid() && mode == ChunkHead
      ensures Result(Ahead(ofs + old(left), end, unread)) == old(Result(Ahead(ofs, end, unread)))
    {
      hide ImageOf, Placement, At, HeaderOf, Ahead;
      var downLen := left;
      AheadDrop(ofs, end, unread, downLen);
      WriteData(ofs, downLen, Ahead(ofs, end, unread));
      EmptyData(blk, sector, Ahead(ofs + downLen, end, unread));
      mode := ChunkHead;
    }

    /** `parse_and_down_chunk`, after `len` bytes have been read behind the gap. In every round
        `this_rest` bytes from `ofs` on are still to be looked at. */
    method ParseAndDown(len: nat, ghost unread: seq<Byte>) returns (ok: bool)
      requires Valid() && 0 < len <= buf.Length - GAP && (mode == TotalHead ==> len >= SPARSE_HEADER_SIZE)
      modifies this, buf
      ensures Valid() && (ok ==> Waits())
      ensures
        var image := old(Result(Ahead(GAP - rest, GAP + len, unread)));
        if ok then Result(Carry() + unread) == image else image == Malformed(Placement(log))
    {
      hide ImageOf, Placement, At, HeaderOf, Ahead;
      var end := GAP + len;
      var ofs: nat, this_rest: nat := GAP - rest, rest + len;
      ghost var image := Result(Ahead(ofs, end, unread));
      rest := 0;
      while this_rest > 0
        invariant Valid() && ofs + this_rest == end && rest == 0
        invariant mode == TotalHead ==> this_rest >= SPARSE_HEADER_SIZE
        invariant Result(Ahead(ofs, end, unread)) == image
        decreases this_rest, mode == ChunkData
      {
        ghost var t := Ahead(ofs, end, unread);
        OtherImage(blk, left, sector, t);
        match mode
        case TotalHead =>
          AheadDrop(ofs, end, unread, SPARSE_HEADER_SIZE);
          ofs, this_rest, mode := ofs + SPARSE_HEADER_SIZE, this_rest - SPARSE_HEADER_SIZE, ChunkHead;
        case ChunkHead =>
          if this_rest < CHUNK_HEADER_SIZE {
            Keep(this_rest, end, unread);
            return true;
          }
          AheadDrop(ofs, end, unread, CHUNK_HEADER_SIZE);
          var good := ParseHead(ofs, t);
          if !good { return false; }
          ofs, this_rest := ofs + CHUNK_HEADER_SIZE, this_rest - CHUNK_HEADER_SIZE;
        case FillData =>
          if this_rest < 4 {
            Keep(this_rest, end, unread);
            return true;
          }
          AheadDrop(ofs, end, unread, 4);
          sector := sector + left / SECTOR;
          ofs, this_rest, mode := ofs + 4, this_rest - 4, ChunkHead;
        case ChunkData =>
          if this_rest < left {
            ParseData(ofs, end, unread);
            return true;
          }
          var downLen := left;
          WholeData(ofs, end, unread);
          ofs, this_rest := ofs + downLen, this_rest - downLen;
      }
      NothingAhead(end, unread);
      return true;
    }

    /** The loop of `fes_down_sparse_item`: the item comes in blocks that fit the buffer. However
        it is divided, the same bytes get to the same places. */
    method DownBlocks(blocks: seq<seq<Byte>>) returns (ok: bool)
      requires Valid() && mode == TotalHead && left == 0 && log == []
      requires blocks != [] && |blocks[0]| >= SPARSE_HEADER_SIZE
      requires forall i :: 0 <= i < |blocks| ==> 0 < |blocks[i]| <= buf.Length - GAP
      modifies this, buf
      ensures
        match ImageOf(blk, TotalHead, 0, old(sector), Joined(blocks))
        case Complete(bytes) => ok && Placement(log) == bytes
        case Malformed(bytes) => !ok && Placement(log) == bytes
        case Truncated(bytes) => ok && Placement(log) <= bytes && |bytes| - |Placement(log)| < 8192
    {
      hide ImageOf, Placement, At;
      ghost var image := ImageOf(blk, TotalHead, 0, sector, Joined(blocks));
      NothingYet(image);
      assert blocks[0..] == blocks && Carry() + Joined(blocks) == Joined(blocks);
      var i := 0;
      while i < |blocks|
        invariant 0 <= i <= |blocks| && Valid() && (i > 0 ==> Waits()) && (i == 0 ==> mode == TotalHead)
        invariant Result(Carry() + Joined(blocks[i..])) == image
        decreases |blocks| - i
      {
        var block := blocks[i];
        ghost var carry := Carry();
        assert Result(carry + Joined(blocks[i..])) == image;
        forall k | 0 <= k < |block| {
          buf[GAP + k] := block[k];
        }
        ghost var unread := Joined(blocks[i + 1..]);
        assert blocks[i..][1..] == blocks[i + 1..];
        assert Carry() == carry;
        assert Ahead(GAP - rest, GAP + |block|, unread) == carry + Joined(blocks[i..]);
        assert Result(Ahead(GAP - rest, GAP + |block|, unread)) == image;
        var good := ParseAndDown(|block|, unread);
        if !good { return false; }
        i := i + 1;
      }
      assert Carry() + Joined(blocks[i..]) == Carry();
      Ends();
      return true;
    }

    lemma NothingYet(image: Image)
      ensures image.After(Placement([])) == image
    {
      assert [] + image.bytes == image.bytes;
    }

    /** What is left over in the end is less than a chunk. */
    lemma Ends()
      requires Valid() && Waits()
      ensures !Result(Carry()).Malformed?
      ensures Result(Carry()).Complete? ==> Result(Carry()).bytes == Placement(log)
      ensures Placement(log) <= Result(Carry()).bytes && |Result(Carry()).bytes| - |Placement(log)| < 8192
    {
      var more := ImageOf(blk, mode, left, sector, Carry());
      if mode == ChunkData && left == 0 {
        EmptyData(blk, sector, Carry());
      }
      assert |more.bytes| < 8192 && (more.Complete? ==> more.bytes == []);
      assert Placement(log) + [] == Placement(log) && Placement(log) <= Placement(log) + more.bytes;
    }
  }
}
