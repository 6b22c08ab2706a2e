/** Block allocation and inode content of kernel/fs.c, as the kernel runs them: the bitmap is
    scanned and flipped in place, addresses and indirect blocks are updated in place, and file data
    moves a block at a time. */
module FileSystem {
  import opened Basics
  import opened BlockBits
  import opened FsModel
  import opened FileContent
  import opened FileTrunc

  /** Bitmap bits per block. */
  const BPB: nat := BSIZE * 8

  const UINT: nat := 0x1_0000_0000

  const MAXOPBLOCKS: nat := 10

  /** What filewrite() writes in one transaction. */
  const MAXCHUNK: nat := (MAXOPBLOCKS - 1 - 1 - 2) / 2 * BSIZE

  /** Inodes per block. */
  const IPB: nat := 16

  /** A disk block as the log sees it: a bitmap block, an inode block, or a block of some file. */
  datatype LogBlock = BitmapBlock(n: nat) | InodeBlock(n: nat) | FileBlock(addr: nat)

  class Disk {
    const meta: nat
    var bitmap: seq<bv8>
    var blocks: seq<seq<byte>>
    var inodes: seq<Inode>

    /** The copies iupdate() keeps on disk. */
    var dinodes: seq<Inode>

    ghost var owner: map<nat, (nat, nat)>

    /** The blocks passed to log_write(). */
    ghost var logged: set<LogBlock>

    ghost function S(): Fs
      reads this
    {
      Fs(meta, bitmap, blocks, inodes, owner)
    }

    /** A file system as mkfs leaves it: its own blocks in use, no file has a block. */
    constructor (meta: nat, size: nat, ninodes: nat)
      requires 0 < meta <= size < WORD
      ensures Inv(S()) && owner == map[] && logged == {} && |inodes| == |dinodes| == ninodes && |blocks| == size
      ensures forall i :: 0 <= i < ninodes ==> Content(S(), i) == []
    {
      this.meta := meta;
      blocks := seq(size, i => Zeros());
      inodes := seq(ninodes, i => Inode(seq(NDIRECT + 1, j => 0), 0));
      dinodes := seq(ninodes, i => Inode(seq(NDIRECT + 1, j => 0), 0));
      owner, logged := map[], {};
      var bits: seq<bv8> := seq(size / 8 + 1, i => 0);
      assert forall b :: 0 <= b < size ==> !Bit(bits, b);
      var b := 0;
      while b < meta
        invariant 0 <= b <= meta && |bits| == size / 8 + 1
        invariant forall c :: 0 <= c < size ==> (Bit(bits, c) <==> c < b)
      {
        forall c | 0 <= c < size
          ensures Bit(SetBit(bits, b), c) <==> c < b + 1
        {
          SetBitIs(bits, b, c);
        }
        bits := SetBit(bits, b);
        b := b + 1;
      }
      bitmap := bits;
    }

    /** The two loops of balloc(): the first block whose bit is clear, or 0. */
    method FindFree() returns (r: nat)
      requires Own(S())
      ensures r == 0 ==> Full(S())
      ensures r != 0 ==> r < |blocks| && !Bit(bitmap, r) && forall b :: 0 <= b < r ==> Bit(bitmap, b)
    {
      var b := 0;
      while b < |blocks|
        invariant 0 <= b
        invariant forall c :: 0 <= c < b && c < |blocks| ==> Bit(bitmap, c)
      {
        var bi := 0;
        while bi < BPB && b + bi < |blocks|
          invariant 0 <= bi <= BPB
          invariant forall c :: 0 <= c < b + bi && c < |blocks| ==> Bit(bitmap, c)
        {
          if !Bit(bitmap, b + bi) {
            assert Bit(bitmap, 0);
            return b + bi;
          }
          bi := bi + 1;
        }
        b := b + BPB;
      }
      r := 0;
    }

    /** balloc(): the first free block, marked and zeroed; 0 when there is none. */
    method Balloc() returns (r: nat)
      requires Own(S())
      modifies this`bitmap, this`blocks, this`logged
      ensures r == 0 ==> bitmap == old(bitmap) && blocks == old(blocks) && logged == old(logged) && Full(S())
      ensures r != 0 ==>
        && r < |old(blocks)| && !Bit(old(bitmap), r) && (forall b :: 0 <= b < r ==> Bit(old(bitmap), b))
        && bitmap == SetBit(old(bitmap), r) && blocks == old(blocks)[r := Zeros()]
        && logged == old(logged) + {BitmapBlock(r / BPB), FileBlock(r)}
    {
      r := FindFree();
      if r != 0 {
        bitmap := SetBit(bitmap, r);
        blocks := blocks[r := Zeros()];
        logged := logged + {BitmapBlock(r / BPB), FileBlock(r)};
      }
    }

    /** bfree(); true means the "freeing free block" panic. */
    method Bfree(b: nat) returns (panicked: bool)
      requires b / 8 < |bitmap|
      modifies this`bitmap, this`logged
      ensures panicked <==> !Bit(old(bitmap), b)
      ensures panicked ==> bitmap == old(bitmap) && logged == old(logged)
      ensures !panicked ==> bitmap == ClearBit(old(bitmap), b) && logged == old(logged) + {BitmapBlock(b / BPB)}
    {
      if !Bit(bitmap, b) {
        return true;
      }
      bitmap := ClearBit(bitmap, b);
      logged := logged + {BitmapBlock(b / BPB)};
      panicked := false;
    }

    /** A direct address of bmap(), allocated if it is missing; also the indirect block itself. */
    method MapDirect(i: nat, s: nat) returns (r: nat)
      requires Own(S()) && i < |inodes| && s <= NDIRECT
      modifies this`bitmap, this`blocks, this`inodes, this`owner, this`logged
      ensures Mapped(old(S()), S(), i, s, r)
      ensures logged <= old(logged) + Fresh(r) && Logs(old(logged), logged, old(S()), S())
      ensures old(inodes)[i].addrs[s] != 0 ==> logged == old(logged)
    {
      hide Logs;
      LogsNone(logged, S());
      r := inodes[i].addrs[s];
      if r == 0 {
        r := Balloc();
        if r != 0 {
          AllocExtends(old(S()), i, s, r);
          inodes := inodes[i := inodes[i].(addrs := inodes[i].addrs[s := r])];
          owner := owner[r := (i, s)];
          LogsAlloc(old(logged), logged, old(S()), S(), r);
        }
      }
    }

    /** An entry of the indirect block, allocated if it is missing. */
    method MapEntry(i: nat, j: nat) returns (r: nat)
      requires Own(S()) && i < |inodes| && j < NINDIRECT && inodes[i].addrs[NDIRECT] != 0
      modifies this`bitmap, this`blocks, this`owner, this`logged
      ensures Mapped(old(S()), S(), i, NDIRECT + 1 + j, r)
      ensures logged <= old(logged) + Fresh(r) + {FileBlock(inodes[i].addrs[NDIRECT])}
      ensures Logs(old(logged), logged, old(S()), S())
      ensures r == 0 ==> logged == old(logged)
      ensures old(SlotAddr(S(), i, NDIRECT + 1 + j)) != 0 ==> logged == old(logged)
    {
      hide Logs;
      ghost var s := NDIRECT + 1 + j;
      var ind := inodes[i].addrs[NDIRECT];
      SlotInRange(S(), i, NDIRECT);
      LogsNone(logged, S());
      r := Word(blocks[ind], j);
      if r == 0 {
        r := Balloc();
        if r != 0 {
          CanAllocFacts(old(S()), i, s, r);
          AllocExtends(old(S()), i, s, r);
          blocks := blocks[ind := PutWord(blocks[ind], j, r)];
          owner := owner[r := (i, s)];
          logged := logged + {FileBlock(ind)};
          LogsEntry(old(logged), logged, old(S()), S(), r, ind);
        }
      }
    }

    /** bmap() past the direct blocks. */
    method MapIndirect(i: nat, bn: nat) returns (r: nat)
      requires Own(S()) && i < |inodes| && NDIRECT <= bn < MAXFILE
      modifies this`bitmap, this`blocks, this`inodes, this`owner, this`logged
      ensures Bmapped(old(S()), S(), i, bn, r) && SlotsKept(old(S()), S(), i)
      ensures logged <= old(logged) + BlockBudget(old(S()), S(), i, bn) && Logs(old(logged), logged, old(S()), S())
      ensures old(BlockOf(S(), i, bn)) != 0 ==> logged == old(logged)
    {
      hide Logs, Mapped, Bmapped, SlotsKept, BlockBudget, Own, BlockOf, SlotAddr;
      ghost var a := S();
      var ind := MapDirect(i, NDIRECT);
      ghost var b, l := S(), logged;
      MappedKept(a, b, i, NDIRECT, ind);
      if ind == 0 {
        MapFailed(a, b, i, bn);
        return 0;
      }
      MappedAddr(a, b, i, ind);
      r := MapEntry(i, bn - NDIRECT);
      ghost var c := S();
      MappedKept(b, c, i, SlotOf(bn), r);
      MappedTwice(a, b, c, i, bn, ind, r);
      KeptTransitive(a, b, c, i);
      LogsTwice(old(logged), l, logged, a, b, c);
      IndirectLogged(a, b, c, i, bn, ind, r, old(logged), l, logged);
    }

    /** bmap(). */
    method Bmap(i: nat, bn: nat) returns (r: nat)
      requires Own(S()) && i < |inodes| && bn < MAXFILE
      modifies this`bitmap, this`blocks, this`inodes, this`owner, this`logged
      ensures Bmapped(old(S()), S(), i, bn, r) && SlotsKept(old(S()), S(), i)
      ensures logged <= old(logged) + BlockBudget(old(S()), S(), i, bn) && Logs(old(logged), logged, old(S()), S())
      ensures old(BlockOf(S(), i, bn)) != 0 ==> logged == old(logged)
    {
      hide Logs;
      if bn < NDIRECT {
        r := MapDirect(i, bn);
        MappedIsBmapped(old(S()), S(), i, bn, r);
        MappedKept(old(S()), S(), i, bn, r);
        DirectLogged(old(S()), S(), i, bn, r, old(logged), logged);
      } else {
        r := MapIndirect(i, bn);
      }
    }

    /** iupdate(). */
    method Iupdate(i: nat)
      requires i < |inodes| == |dinodes|
      modifies this`dinodes, this`logged
      ensures dinodes == old(dinodes)[i := inodes[i]] && logged == old(logged) + {InodeBlock(i / IPB)}
    {
      dinodes := dinodes[i := inodes[i]];
      logged := logged + {InodeBlock(i / IPB)};
    }

    /** The copy and log_write of one turn in writei(). */
    method WriteBlock(i: nat, off: nat, src: seq<byte>, tot: nat, m: nat, addr: nat, ghost a: Fs)
      requires Wrote(a, S(), i, off, src, tot) && tot + m <= |src| && off + tot + m <= MAXFILE * BSIZE
      requires OneBlock(S(), i, off + tot, m) && addr == BlockOf(S(), i, (off + tot) / BSIZE)
      modifies this`blocks, this`logged
      ensures Wrote(a, S(), i, off, src, tot + m) && SlotsKept(old(S()), S(), i)
      ensures logged == old(logged) + {FileBlock(addr)} && BlockOf(S(), i, (off + tot) / BSIZE) == addr
      ensures Logs(old(logged), logged, old(S()), S())
    {
      var pos := off + tot;
      WroteBlock(a, S(), i, off, src, tot, m);
      SlotInRange(S(), i, SlotOf(pos / BSIZE));
      PutDataKeeps(S(), i, pos / BSIZE, Patch(blocks[addr], pos % BSIZE, src[tot..tot + m]));
      blocks := blocks[addr := Patch(blocks[addr], pos % BSIZE, src[tot..tot + m])];
      logged := logged + {FileBlock(addr)};
    }

    /** Map the next block and write its part: how much went in, 0 for either of the two breaks.  The
        first `avail` bytes of src can be copied in, and a copy is all or nothing. */
    method WritePart(i: nat, off: nat, src: seq<byte>, tot: nat, avail: nat, ghost a: Fs) returns (m: nat)
      requires Wrote(a, S(), i, off, src, tot) && tot < |src| && off + |src| <= MAXFILE * BSIZE
      modifies this`bitmap, this`blocks, this`inodes, this`owner, this`logged
      ensures m == 0 || m == Chunk(off + tot, |src| - tot)
      ensures tot + m <= |src| && Inv(S()) && Wrote(a, S(), i, off, src, tot + m)
      ensures m == 0 ==> Stuck(S(), off + tot, tot, |src|, avail)
      ensures SlotsKept(old(S()), S(), i) && logged <= old(logged) + BlockBudget(old(S()), S(), i, (off + tot) / BSIZE)
      ensures Logs(old(logged), logged, old(S()), S())
    {
      hide Logs, Wrote, Inv, Own, Bmapped, SlotsKept, BlockBudget, OneBlock, Full, BlockOf;
      ghost var b := S();
      PartStart(a, b, i, off, src, tot);
      var addr := Bmap(i, (off + tot) / BSIZE);
      ghost var c, l := S(), logged;
      m := Chunk(off + tot, |src| - tot);
      PartMapped(a, b, c, i, off, src, tot, m, addr);
      if addr == 0 || tot + m > avail {
        return 0;
      }
      WriteBlock(i, off, src, tot, m, addr, a);
      WroteOwn(a, S(), i, off, src, tot + m);
      PartDone(a, b, c, S(), i, off, src, tot, m, addr);
      LogsTwice(old(logged), l, logged, b, c, S());
    }

    /** One turn of the loop in writei(). */
    method WriteTurn(i: nat, off: nat, src: seq<byte>, tot: nat, avail: nat, ghost a: Fs, ghost l: set<LogBlock>)
      returns (m: nat)
      requires Wrote(a, S(), i, off, src, tot) && tot < |src| && off + |src| <= MAXFILE * BSIZE
      requires Within(l, logged, a, S(), i, off, |src|)
      modifies this`bitmap, this`blocks, this`inodes, this`owner, this`logged
      ensures tot + m <= |src| && Wrote(a, S(), i, off, src, tot + m) && Within(l, logged, a, S(), i, off, |src|)
      ensures m == 0 ==> Stuck(S(), off + tot, tot, |src|, avail)
    {
      ghost var b, k := S(), logged;
      m := WritePart(i, off, src, tot, avail, a);
      WithinStep(l, k, logged, a, b, S(), i, off, |src|, tot);
    }

    /** The loop of writei(). */
    method WriteLoop(i: nat, off: nat, src: seq<byte>, avail: nat, ghost a: Fs, ghost l: set<LogBlock>)
      returns (tot: nat)
      requires Wrote(a, S(), i, off, src, 0) && Within(l, logged, a, S(), i, off, |src|)
      requires off + |src| <= MAXFILE * BSIZE
      modifies this`bitmap, this`blocks, this`inodes, this`owner, this`logged
      ensures tot <= |src| && Wrote(a, S(), i, off, src, tot)
      ensures tot < |src| ==> Stuck(S(), off + tot, tot, |src|, avail)
      ensures Within(l, logged, a, S(), i, off, |src|)
    {
      hide *;
      tot := 0;
      while tot < |src|
        invariant tot <= |src| && Wrote(a, S(), i, off, src, tot)
        invariant Within(l, logged, a, S(), i, off, |src|)
      {
        var m := WriteTurn(i, off, src, tot, avail, a, l);
        if m == 0 {
          break;
        }
        tot := tot + m;
      }
    }

    /** if(off > ip->size) ip->size = off. */
    method WriteSize(i: nat, off: nat, src: seq<byte>, tot: nat, ghost a: Fs)
      requires Wrote(a, S(), i, off, src, tot)
      modifies this`inodes
      ensures Stored(a, S(), i, off, src[..tot])
    {
      WroteDone(a, S(), i, off, src, tot);
      if off + tot > inodes[i].size {
        inodes := inodes[i := inodes[i].(size := off + tot)];
      } else {
        assert inodes[i := inodes[i].(size := inodes[i].size)] == inodes;
      }
    }

    /** The body of writei() after its range checks. */
    method WriteRange(i: nat, off: nat, src: seq<byte>, avail: nat) returns (tot: nat)
      requires Inv(S()) && i < |inodes| == |dinodes| && off <= inodes[i].size && off + |src| <= MAXFILE * BSIZE
      modifies this`bitmap, this`blocks, this`inodes, this`owner, this`dinodes, this`logged
      ensures Inv(S()) && tot <= |src| && Stored(old(S()), S(), i, off, src[..tot])
      ensures |inodes| == |dinodes| == |old(inodes)| && dinodes == old(dinodes)[i := inodes[i]]
      ensures tot < |src| ==> Stuck(S(), off + tot, tot, |src|, avail)
      ensures |logged - old(logged)| <= BitmapBlocks(|blocks|) + 2 + BlocksIn(off, |src|)
      ensures |logged - old(logged)| <= LogBound(off, |src|)
      ensures Logs(old(logged), logged, old(S()), S()) && InodeBlock(i / IPB) in logged
    {
      hide Logs, SlotAddr, Wrote, BitmapBlocks, BlocksIn, LogBound;
      ghost var a, l := S(), logged;
      WroteNothing(a, i, off, src);
      WithinStart(l, a, i, off, |src|);
      tot := WriteLoop(i, off, src, avail, a, l);
      WithinSize(l, logged, a, S(), i, off, |src|);
      OneMoreLogged(l, logged, InodeBlock(i / IPB));
      ghost var b, k := S(), logged;
      WriteSize(i, off, src, tot, a);
      Iupdate(i);
      LogsMore(l, k, logged, a, b, S());
    }

    /** writei(): the bytes written, or -1.  A short count means the disk is full or the next part of
        src cannot be read; the file holds exactly the bytes written either way. */
    method Writei(i: nat, off: nat, src: seq<byte>, avail: nat) returns (r: int)
      requires Inv(S()) && i < |inodes| == |dinodes| && off < UINT && |src| < UINT
      modifies this`bitmap, this`blocks, this`inodes, this`owner, this`dinodes, this`logged
      ensures Inv(S()) && |inodes| == |dinodes| == |old(inodes)|
      ensures r == -1 <==> off > old(inodes)[i].size || off + |src| > MAXFILE * BSIZE
      ensures r == -1 ==> S() == old(S()) && dinodes == old(dinodes) && logged == old(logged)
      ensures r != -1 ==>
        && 0 <= r <= |src| && Stored(old(S()), S(), i, off, src[..r])
        && dinodes == old(dinodes)[i := inodes[i]]
        && (r < |src| ==> Stuck(S(), off + r, r, |src|, avail))
      ensures |logged - old(logged)| <= BitmapBlocks(|blocks|) + 2 + BlocksIn(off, |src|)
      ensures |logged - old(logged)| <= LogBound(off, |src|)
      ensures Logs(old(logged), logged, old(S()), S()) && (r != -1 ==> InodeBlock(i / IPB) in logged)
    {
      hide Logs;
      LogsNone(logged, S());
      if off > inodes[i].size || (off + |src|) % UINT < off {
        return -1;
      }
      if off + |src| > MAXFILE * BSIZE {
        return -1;
      }
      r := WriteRange(i, off, src, avail);
    }

    /** One transaction of filewrite(): begin_op, writei, end_op.  It logs at most the MAXOPBLOCKS that
        begin_op reserved, on every disk, and at most 7 on a disk that one bitmap block covers. */
    method WriteChunk(i: nat, off: nat, src: seq<byte>, avail: nat) returns (r: int)
      requires Inv(S()) && i < |inodes| == |dinodes| && off < UINT && |src| <= MAXCHUNK
      modifies this`bitmap, this`blocks, this`inodes, this`owner, this`dinodes, this`logged
      ensures Inv(S()) && |inodes| == |dinodes| == |old(inodes)| && |blocks| == |old(blocks)|
      ensures -1 <= r <= |src| && (r == -1 <==> off > old(inodes)[i].size || off + |src| > MAXFILE * BSIZE)
      ensures r == -1 ==> S() == old(S())
      ensures r != -1 ==> Stored(old(S()), S(), i, off, src[..r])
      ensures 0 <= r < |src| ==> Stuck(S(), off + r, r, |src|, avail)
      ensures |logged| <= MAXOPBLOCKS && |logged| <= BitmapBlocks(|blocks|) + 6
      ensures |blocks| <= BPB ==> |logged| <= 7
      ensures Logs({}, logged, old(S()), S()) && (r != -1 ==> InodeBlock(i / IPB) in logged)
    {
      ChunkBlocks(off, |src|, |blocks|);
      logged := {};
      hide *;
      r := Writei(i, off, src, avail);
      assert logged - {} == logged;
    }

    /** One turn of the loop in filewrite(); false for its break. */
    method FileTurn(i: nat, off: nat, src: seq<byte>, k: nat, avail: nat, ghost a: Fs) returns (r: nat, more: bool)
      requires Filed(a, S(), i, off, src, k) && |inodes| == |dinodes| && off + k < UINT && k < |src|
      requires k % MAXCHUNK == 0
      modifies this`bitmap, this`blocks, this`inodes, this`owner, this`dinodes, this`logged
      ensures |inodes| == |dinodes| && k + r <= |src| && Filed(a, S(), i, off, src, k + r) && off + k + r < UINT
      ensures more ==> r == NextChunk(|src| - k)
      ensures Shape(S()) && i < |inodes|
      ensures !more ==> k + r < |src| && Stopped(S(), i, off, |src|, k + r, avail)
    {
      hide Filed, Inv, Own, Stored, BitmapBlocks;
      FiledFacts(a, S(), i, off, src, k);
      var n1 := NextChunk(|src| - k);
      ghost var b := S();
      var w := WriteChunk(i, off + k, src[k..k + n1], avail - Min(avail, k));
      if w == -1 {
        StoppedBefore(b, i, off, |src|, k, avail);
        return 0, false;
      }
      FiledMore(a, b, S(), i, off, src, k, w, n1);
      FiledFacts(a, S(), i, off, src, k + w);
      if w < n1 {
        StoppedWithin(S(), i, off, |src|, k, w, avail);
      }
      r, more := w, w == n1;
    }

    /** The file branch of filewrite(): all of src in transactions of at most MAXCHUNK bytes, or -1 with
        some prefix of it written, and then for one of the reasons in Stopped; the file offset moves by
        what was written. */
    method Filewrite(i: nat, off: nat, src: seq<byte>, avail: nat) returns (ret: int, end: nat)
      requires Inv(S()) && i < |inodes| == |dinodes| && off < UINT
      modifies this`bitmap, this`blocks, this`inodes, this`owner, this`dinodes, this`logged
      ensures off <= end <= off + |src| && Filed(old(S()), S(), i, off, src, end - off)
      ensures ret == if end == off + |src| then |src| else -1
      ensures end < off + |src| ==> Stopped(S(), i, off, |src|, end - off, avail)
    {
      hide Filed, Inv, Own, Stored, Stopped, Shape;
      ghost var a := S();
      FiledNothing(a, i, off, src);
      FiledFacts(a, a, i, off, src, 0);
      var k, more := 0, true;
      while k < |src| && more
        invariant 0 <= k <= |src| && Filed(a, S(), i, off, src, k) && |inodes| == |dinodes| && off + k < UINT
        invariant if more then k == |src| || k % MAXCHUNK == 0
                  else k < |src| && Shape(S()) && i < |inodes| && Stopped(S(), i, off, |src|, k, avail)
        decreases |src| - k, more
      {
        var r;
        NextTurn(|src|, k);
        r, more := FileTurn(i, off, src, k, avail, a);
        k := k + r;
      }
      end := off + k;
      ret := if k == |src| then |src| else -1;
    }

    /** One turn of the loop in readi(): the part of the block, or nothing if it cannot be copied out. */
    method ReadTurn(i: nat, off: nat, n: nat, tot: nat, avail: nat, ghost a: Fs, ghost c: seq<byte>)
      returns (part: seq<byte>)
      requires S() == a && Inv(a) && i < |a.inodes| && c == Content(a, i) && off + n <= |c| && tot < n
      modifies this`bitmap, this`blocks, this`inodes, this`owner, this`logged
      ensures S() == a && logged == old(logged)
      ensures part == [] ==> n > avail
      ensures part != [] ==> tot + |part| <= n && tot + |part| <= avail && part == c[off + tot..off + tot + |part|]
    {
      hide BlockBudget, SlotsKept, Full, Extends;
      var pos := off + tot;
      BlockExists(S(), i, inodes[i].size, pos);
      var addr := Bmap(i, pos / BSIZE);
      SlotInRange(S(), i, SlotOf(pos / BSIZE));
      var m := Chunk(pos, n - tot);
      if tot + m > avail {
        return [];
      }
      part := blocks[addr][pos % BSIZE..pos % BSIZE + m];
      PartOfFile(S(), i, pos, m);
    }

    /** The loop of readi(): everything, or -1 at the first part that cannot be copied out. */
    method ReadLoop(i: nat, off: nat, len: nat, avail: nat) returns (r: int, dst: seq<byte>)
      requires Inv(S()) && i < |inodes| && off + len <= inodes[i].size
      modifies this`bitmap, this`blocks, this`inodes, this`owner, this`logged
      ensures S() == old(S()) && logged == old(logged)
      ensures if len <= avail then r == len && dst == Content(S(), i)[off..off + len] else r == -1
    {
      ghost var a, c := S(), Content(S(), i);
      dst := [];
      var tot := 0;
      while tot < len
        invariant 0 <= tot <= len && S() == a && logged == old(logged)
        invariant tot <= avail && dst == c[off..off + tot]
      {
        var part := ReadTurn(i, off, len, tot, avail, a, c);
        if part == [] {
          return -1, dst;
        }
        SliceJoin(c, off, off + tot, off + tot + |part|);
        dst := dst + part;
        tot := tot + |part|;
      }
      r := tot;
    }

    /** readi(): the bytes read, -1 if the destination cannot take them (it can take `avail`), 0 past the
        end.  Reading allocates nothing, changes nothing and logs nothing. */
    method Readi(i: nat, off: nat, n: nat, avail: nat) returns (r: int, dst: seq<byte>)
      requires Inv(S()) && i < |inodes| && off < UINT && n < UINT
      modifies this`bitmap, this`blocks, this`inodes, this`owner, this`logged
      ensures S() == old(S()) && logged == old(logged)
      ensures var size := inodes[i].size;
        if off > size || off + n >= UINT then r == 0
        else
          var len := Min(n, size - off);
          if len <= avail then r == len && dst == Content(S(), i)[off..off + len] else r == -1
    {
      if off > inodes[i].size || (off + n) % UINT < off {
        return 0, [];
      }
      var len := if off + n > inodes[i].size then inodes[i].size - off else n;
      r, dst := ReadLoop(i, off, len, avail);
    }

    /** One turn of the first loop in itrunc(). */
    method FreeDirect(i: nat, s: nat, ghost a: Fs, ghost done: set<nat>)
      requires Emptied(a, S(), i, done) && s < NDIRECT && NDIRECT !in done
      modifies this`bitmap, this`inodes, this`owner, this`logged
      ensures Emptied(a, S(), i, done + {s}) && Logs(old(logged), logged, old(S()), S())
    {
      hide Logs;
      LogsNone(logged, S());
      var b := inodes[i].addrs[s];
      if b != 0 {
        EmptiedFree(a, S(), i, done, s);
        var panicked := Bfree(b);
        assert !panicked;
        inodes := inodes[i := inodes[i].(addrs := inodes[i].addrs[s := 0])];
        owner := owner - {b};
        LogsClear(old(logged), logged, old(S()), S(), b);
      } else {
        EmptiedSkip(a, S(), i, done, s);
      }
    }

    /** One turn of the second loop in itrunc(). */
    method FreeEntry(i: nat, j: nat, ghost a: Fs, ghost v: Fs, ghost done: set<nat>) returns (ghost w: Fs)
      requires Shadow(a, S(), v, i, done) && j < NINDIRECT && NDIRECT + 1 + j !in done
      modifies this`bitmap, this`owner, this`logged
      ensures Shadow(a, S(), w, i, done + {NDIRECT + 1 + j}) && Logs(old(logged), logged, old(S()), S())
    {
      hide Logs;
      LogsNone(logged, S());
      ghost var s := NDIRECT + 1 + j;
      ShadowEntry(a, S(), v, i, done, j);
      var b := Word(blocks[inodes[i].addrs[NDIRECT]], j);
      if b != 0 {
        EmptiedFree(a, v, i, done, s);
        var panicked := Bfree(b);
        assert !panicked;
        owner := owner - {b};
        LogsClear(old(logged), logged, old(S()), S(), b);
        w := Free(v, i, s);
      } else {
        EmptiedSkip(a, v, i, done, s);
        w := v;
      }
    }

    /** The second loop of itrunc(). */
    method FreeEntries(i: nat, ghost a: Fs, ghost direct: set<nat>) returns (ghost v: Fs, ghost done: set<nat>)
      requires Shadow(a, S(), S(), i, direct) && forall t :: t in direct <==> 0 <= t < NDIRECT
      modifies this`bitmap, this`owner, this`logged
      ensures Shadow(a, S(), v, i, done) && forall t :: t in done <==> 0 <= t < SLOTS && t != NDIRECT
      ensures Logs(old(logged), logged, old(S()), S())
    {
      hide Logs;
      LogsNone(logged, S());
      v, done := S(), direct;
      var j := 0;
      while j < NINDIRECT
        invariant 0 <= j <= NINDIRECT && Shadow(a, S(), v, i, done)
        invariant forall t :: t in done <==> 0 <= t <= NDIRECT + j && t != NDIRECT
        invariant Logs(old(logged), logged, old(S()), S())
      {
        ghost var u, l := S(), logged;
        v := FreeEntry(i, j, a, v, done);
        LogsTwice(old(logged), l, logged, old(S()), u, S());
        done := done + {NDIRECT + 1 + j};
        j := j + 1;
      }
    }

    /** The indirect part of itrunc(). */
    method FreeIndirect(i: nat, ghost a: Fs, ghost direct: set<nat>) returns (ghost done: set<nat>)
      requires Shadow(a, S(), S(), i, direct) && forall t :: t in direct <==> 0 <= t < NDIRECT
      modifies this`bitmap, this`inodes, this`owner, this`logged
      ensures Emptied(a, S(), i, done) && forall t :: 0 <= t < SLOTS ==> t in done
      ensures Logs(old(logged), logged, old(S()), S())
    {
      hide Logs;
      ghost var v;
      v, done := FreeEntries(i, a, direct);
      ghost var u, l := S(), logged;
      ShadowEnd(a, S(), v, i, done);
      var ind := inodes[i].addrs[NDIRECT];
      var panicked := Bfree(ind);
      assert !panicked;
      inodes := inodes[i := inodes[i].(addrs := inodes[i].addrs[NDIRECT := 0])];
      owner := owner - {ind};
      done := done + {NDIRECT};
      LogsClear(l, logged, u, S(), ind);
      LogsTwice(old(logged), l, logged, old(S()), u, S());
    }

    /** All of itrunc() but the size. */
    method FreeAll(i: nat) returns (ghost done: set<nat>)
      requires Own(S()) && i < |inodes|
      modifies this`bitmap, this`inodes, this`owner, this`logged
      ensures Emptied(old(S()), S(), i, done) && forall t :: 0 <= t < SLOTS ==> t in done
      ensures Logs(old(logged), logged, old(S()), S())
    {
      hide Logs;
      ghost var a, before := S(), logged;
      EmptiedNone(a, i);
      LogsNone(logged, a);
      done := {};
      var s := 0;
      while s < NDIRECT
        invariant 0 <= s <= NDIRECT && Emptied(a, S(), i, done)
        invariant forall t :: t in done <==> 0 <= t < s
        invariant Logs(before, logged, a, S())
      {
        ghost var u, l := S(), logged;
        FreeDirect(i, s, a, done);
        LogsTwice(before, l, logged, a, u, S());
        done := done + {s};
        s := s + 1;
      }
      if inodes[i].addrs[NDIRECT] != 0 {
        assert SlotAddr(S(), i, NDIRECT) == SlotAddr(a, i, NDIRECT);
        ghost var u, l := S(), logged;
        done := FreeIndirect(i, a, done);
        LogsTwice(before, l, logged, a, u, S());
      } else {
        done := NoIndirect(a, S(), i, done);
      }
    }

    /** itrunc(): the file is empty, its blocks and no others are free, and every other file is as it
        was.  Each block freed was in use, so "freeing free block" cannot happen. */
    method Itrunc(i: nat)
      requires Inv(S()) && i < |inodes| == |dinodes|
      modifies this`bitmap, this`inodes, this`owner, this`dinodes, this`logged
      ensures Inv(S()) && |inodes| == |dinodes| == |old(inodes)| && Content(S(), i) == []
      ensures forall t :: 0 <= t < SLOTS ==> SlotAddr(S(), i, t) == 0
      ensures forall j :: 0 <= j < |inodes| && j != i ==>
        inodes[j] == old(inodes)[j] && Content(S(), j) == old(Content(S(), j))
      ensures forall x :: 0 <= x < |blocks| ==>
        (Bit(bitmap, x) <==> Bit(old(bitmap), x) && !(x in old(owner) && old(owner)[x].0 == i))
      ensures dinodes == old(dinodes)[i := inodes[i]]
      ensures Logs(old(logged), logged, old(S()), S()) && InodeBlock(i / IPB) in logged
    {
      hide Logs;
      ghost var a, before := S(), logged;
      ghost var done := FreeAll(i);
      ghost var u, l := S(), logged;
      TruncDone(a, S(), i, done);
      inodes := inodes[i := inodes[i].(size := 0)];
      Iupdate(i);
      LogsMore(before, l, logged, a, u, S());
    }
  }

  /** A part of one block is a part of the file. */
  lemma PartOfFile(fs: Fs, i: nat, pos: nat, m: nat)
    requires Inv(fs) && i < |fs.inodes| && pos + m <= fs.inodes[i].size && pos % BSIZE + m <= BSIZE
    requires OneBlock(fs, i, pos, m)
    ensures 0 < BlockOf(fs, i, pos / BSIZE) < |fs.blocks|
    ensures fs.blocks[BlockOf(fs, i, pos / BSIZE)][pos % BSIZE..pos % BSIZE + m] == Content(fs, i)[pos..pos + m]
  {
    SlotInRange(fs, i, SlotOf(pos / BSIZE));
    var blk := fs.blocks[BlockOf(fs, i, pos / BSIZE)];
    var part, want := blk[pos % BSIZE..pos % BSIZE + m], Content(fs, i)[pos..pos + m];
    forall k | 0 <= k < m
      ensures part[k] == want[k]
    {
      BlockExists(fs, i, fs.inodes[i].size, pos + k);
      SamePlace(pos, m, pos + k);
    }
  }

  /** The bytes s are in file i at off, and every other file is as it was. */
  ghost predicate Stored(a: Fs, b: Fs, i: nat, off: nat, s: seq<byte>)
  {
    && Inv(a) && Inv(b) && i < |a.inodes| == |b.inodes| && |b.blocks| == |a.blocks| && off <= a.inodes[i].size
    && Content(b, i) == Splice(Content(a, i), off, s)
    && (forall j :: 0 <= j < |a.inodes| && j != i ==> b.inodes[j] == a.inodes[j] && Content(b, j) == Content(a, j))
  }

  /** n1 = n - i, at most max. */
  function NextChunk(left: nat): (n1: nat)
    ensures n1 <= left && n1 <= MAXCHUNK && (left > 0 ==> n1 > 0)
  {
    if left > MAXCHUNK then MAXCHUNK else left
  }

  lemma ChunkBlocks(off: nat, n: nat, size: nat)
    requires n <= MAXCHUNK
    ensures BlocksIn(off, n) <= 4 && n < UINT && LogBound(off, n) <= MAXOPBLOCKS
    ensures size <= BPB ==> BitmapBlocks(size) <= 1
  {
  }

  /** Why filewrite() gives up after k of n bytes: the next transaction would start past the end of the
      file or reach past the largest file; or the disk is full; or the next part of the source, up to
      the end of its block and of its transaction, cannot be copied in. */
  ghost predicate Stopped(fs: Fs, i: nat, off: nat, n: nat, k: nat, avail: nat)
    requires Shape(fs) && i < |fs.inodes| && k < n
  {
    var rest := Min(MAXCHUNK - k % MAXCHUNK, n - k);
    || (k % MAXCHUNK == 0 && (off + k > fs.inodes[i].size || off + k + rest > MAXFILE * BSIZE))
    || Full(fs) || avail < k + Chunk(off + k, rest)
  }

  lemma StoppedBefore(fs: Fs, i: nat, off: nat, n: nat, k: nat, avail: nat)
    requires Shape(fs) && i < |fs.inodes| && k < n && k % MAXCHUNK == 0
    requires off + k > fs.inodes[i].size || off + k + NextChunk(n - k) > MAXFILE * BSIZE
    ensures Stopped(fs, i, off, n, k, avail)
  {
  }

  lemma StoppedWithin(fs: Fs, i: nat, off: nat, n: nat, k: nat, w: nat, avail: nat)
    requires Shape(fs) && i < |fs.inodes| && k < n && k % MAXCHUNK == 0 && w < NextChunk(n - k)
    requires Stuck(fs, off + k + w, w, NextChunk(n - k), avail - Min(avail, k))
    ensures k + w < n && Stopped(fs, i, off, n, k + w, avail)
  {
    hide Full, Shape;
    InTransaction(k, w);
    assert NextChunk(n - k) - w == Min(MAXCHUNK - w, n - (k + w));
  }

  lemma InTransaction(k: nat, w: nat)
    requires k % MAXCHUNK == 0 && w < MAXCHUNK
    ensures (k + w) % MAXCHUNK == w
  {
  }

  lemma NextTurn(n: nat, k: nat)
    requires k < n && k % MAXCHUNK == 0
    ensures var next := k + NextChunk(n - k); next == n || next % MAXCHUNK == 0
  {
  }

  /** The first k bytes of src are in file i at off; past the end of the file nothing is written. */
  ghost predicate Filed(a: Fs, b: Fs, i: nat, off: nat, src: seq<byte>, k: nat)
  {
    && Inv(a) && Inv(b) && i < |a.inodes| && k <= |src|
    && if off <= a.inodes[i].size then Stored(a, b, i, off, src[..k]) else b == a && k == 0
  }

  lemma FiledFacts(a: Fs, b: Fs, i: nat, off: nat, src: seq<byte>, k: nat)
    requires Filed(a, b, i, off, src, k)
    ensures Inv(a) && Inv(b) && Shape(b) && i < |b.inodes| == |a.inodes|
  {
  }

  lemma FiledNothing(a: Fs, i: nat, off: nat, src: seq<byte>)
    requires Inv(a) && i < |a.inodes|
    ensures Filed(a, a, i, off, src, 0)
  {
    if off <= a.inodes[i].size {
      assert Content(a, i)[..off] + [] + Content(a, i)[off..] == Content(a, i);
    }
  }

  /** Two writes in a row make one. */
  lemma FiledMore(a: Fs, b: Fs, c: Fs, i: nat, off: nat, src: seq<byte>, k: nat, r: nat, n1: nat)
    requires r <= n1 && k + n1 <= |src| && Filed(a, b, i, off, src, k)
    requires Stored(b, c, i, off + k, src[k..k + n1][..r])
    ensures Filed(a, c, i, off, src, k + r) && off + k + r < UINT
  {
    StoredTwice(a, b, c, i, off, src[..k], src[k..k + n1][..r]);
    assert src[..k] + src[k..k + n1][..r] == src[..k + r];
  }

  lemma StoredTwice(a: Fs, b: Fs, c: Fs, i: nat, off: nat, x: seq<byte>, y: seq<byte>)
    requires Stored(a, b, i, off, x) && Stored(b, c, i, off + |x|, y)
    ensures Stored(a, c, i, off, x + y) && off + |x| + |y| < UINT
  {
    SpliceTwice(Content(a, i), off, x, y);
    assert NoHoles(c, i, c.inodes[i].size);
    assert |Content(c, i)| >= off + |x| + |y|;
  }

  lemma SpliceTwice(c: seq<byte>, off: nat, x: seq<byte>, y: seq<byte>)
    requires off <= |c|
    ensures off + |x| <= |Splice(c, off, x)|
    ensures Splice(Splice(c, off, x), off + |x|, y) == Splice(c, off, x + y)
  {
    var s := Splice(c, off, x);
    assert s[..off + |x|] == c[..off] + x;
    if off + |x| + |y| < |s| {
      assert s[off + |x| + |y|..] == c[off + |x| + |y|..];
    }
  }

  lemma OneMoreLogged(before: set<LogBlock>, k: set<LogBlock>, x: LogBlock)
    ensures |(k + {x}) - before| <= |k - before| + 1
  {
    SubsetSize((k + {x}) - before, (k - before) + {x});
  }

  /** Why a write stops short at tot of n: no free block, or the next part of the source is unreadable. */
  ghost predicate Stuck(fs: Fs, pos: nat, tot: nat, n: nat, avail: nat)
    requires Shape(fs) && tot <= n
  {
    Full(fs) || avail < tot + Chunk(pos, n - tot)
  }

  lemma PartStart(a: Fs, b: Fs, i: nat, off: nat, src: seq<byte>, tot: nat)
    requires Wrote(a, b, i, off, src, tot) && tot < |src| && off + |src| <= MAXFILE * BSIZE
    ensures Own(b) && Inv(b) && i < |b.inodes| && (off + tot) / BSIZE < MAXFILE
  {
  }

  /** bmap() in a turn of writei(): the file is as before, and there is a block to write to or none left. */
  lemma PartMapped(a: Fs, b: Fs, c: Fs, i: nat, off: nat, src: seq<byte>, tot: nat, m: nat, addr: nat)
    requires Wrote(a, b, i, off, src, tot) && tot < |src| && off + |src| <= MAXFILE * BSIZE
    requires m == Chunk(off + tot, |src| - tot)
    requires (off + tot) / BSIZE < MAXFILE && Bmapped(b, c, i, (off + tot) / BSIZE, addr)
    ensures Wrote(a, c, i, off, src, tot) && Inv(c) && Own(c) && i < |c.inodes|
    ensures addr == 0 ==> Full(c)
    ensures addr != 0 ==> OneBlock(c, i, off + tot, m) && addr == BlockOf(c, i, (off + tot) / BSIZE)
  {
    WroteExtends(a, b, c, i, off, src, tot);
  }

  lemma WroteOwn(a: Fs, b: Fs, i: nat, off: nat, src: seq<byte>, tot: nat)
    requires Wrote(a, b, i, off, src, tot)
    ensures Own(b) && i < |b.inodes|
  {
  }

  lemma PartDone(a: Fs, b: Fs, c: Fs, d: Fs, i: nat, off: nat, src: seq<byte>, tot: nat, m: nat, addr: nat)
    requires Wrote(a, d, i, off, src, tot + m) && Own(b) && Own(c) && i < |b.inodes| && i < |c.inodes|
    requires (off + tot) / BSIZE < MAXFILE
    requires SlotsKept(b, c, i) && Own(d) && SlotsKept(c, d, i) && BlockOf(d, i, (off + tot) / BSIZE) == addr != 0
    ensures Inv(d) && i < |d.inodes| && SlotsKept(b, d, i)
    ensures BlockBudget(b, c, i, (off + tot) / BSIZE) + {FileBlock(addr)} <= BlockBudget(b, d, i, (off + tot) / BSIZE)
  {
    KeptTransitive(b, c, d, i);
    SlotBudgetGrows(b, c, d, i, NDIRECT);
    SlotBudgetGrows(b, c, d, i, SlotOf((off + tot) / BSIZE));
  }

  lemma SliceJoin(c: seq<byte>, x: nat, y: nat, z: nat)
    requires x <= y <= z <= |c|
    ensures c[x..y] + c[y..z] == c[x..z]
  {
  }

  /** m = min(n - tot, BSIZE - off % BSIZE). */
  function Chunk(pos: nat, left: nat): (m: nat)
    ensures left > 0 ==> m > 0
    ensures m <= left && pos % BSIZE + m <= BSIZE
  {
    Min(left, BSIZE - pos % BSIZE)
  }

  /** What looking up slot s of inode i, allocating it if needed, does: nothing if it was there; a
      zeroed fresh block if one was free; else nothing but failure, and then no block is free. */
  ghost predicate Mapped(a: Fs, b: Fs, i: nat, s: nat, r: nat)
  {
    && Own(a) && Own(b) && i < |a.inodes| && s < SLOTS
    && if SlotAddr(a, i, s) != 0 then b == a && r == SlotAddr(a, i, s)
       else if r == 0 then b == a && Full(a)
       else
         && CanAlloc(a, i, s, r)
         && (s > NDIRECT ==> a.inodes[i].addrs[NDIRECT] < |a.blocks|)
         && b == Alloc(a, i, s, r)
  }

  ghost predicate Full(fs: Fs)
    requires Shape(fs)
  {
    forall b :: 0 <= b < |fs.blocks| ==> Bit(fs.bitmap, b)
  }

  /** What bmap() does: it returns the file's block bn, unchanged if it was there, fresh and zeroed if
      not, or 0 with the disk full; no other file and no block of this file is touched. */
  ghost predicate Bmapped(a: Fs, b: Fs, i: nat, bn: nat, r: nat)
  {
    && Own(a) && Own(b) && i < |a.inodes| && bn < MAXFILE
    && Extends(a, b)
    && (forall j :: 0 <= j < |a.inodes| && j != i ==> b.inodes[j] == a.inodes[j])
    && (BlockOf(a, i, bn) != 0 ==> b == a && r != 0)
    && (r != 0 ==> BlockOf(b, i, bn) == r)
    && (r != 0 && BlockOf(a, i, bn) == 0 ==> r < |a.blocks| && !Bit(a.bitmap, r) && b.blocks[r] == Zeros())
    && (r == 0 ==> Full(b))
  }

  /** An address once given to a slot stays. */
  ghost predicate SlotsKept(a: Fs, b: Fs, i: nat)
    requires Own(a) && Own(b) && i < |a.inodes|
  {
    |a.inodes| == |b.inodes| && |a.blocks| == |b.blocks| &&
    forall t :: 0 <= t < SLOTS && SlotAddr(a, i, t) != 0 ==> SlotAddr(b, i, t) == SlotAddr(a, i, t)
  }

  lemma MappedKept(a: Fs, b: Fs, i: nat, s: nat, r: nat)
    requires Mapped(a, b, i, s, r)
    ensures SlotsKept(a, b, i) && (r != 0 ==> SlotAddr(b, i, s) == r)
  {
    if SlotAddr(a, i, s) == 0 && r != 0 {
      CanAllocFacts(a, i, s, r);
      forall t | 0 <= t < SLOTS
        ensures SlotAddr(b, i, t) == if t == s then r else SlotAddr(a, i, t)
      {
        AllocSlots(a, i, s, r, i, t);
      }
    }
  }

  lemma KeptTransitive(a: Fs, b: Fs, c: Fs, i: nat)
    requires Own(a) && Own(b) && Own(c) && i < |a.inodes| && i < |b.inodes| && SlotsKept(a, b, i) && SlotsKept(b, c, i)
    ensures SlotsKept(a, c, i)
  {
    forall t | 0 <= t < SLOTS && SlotAddr(a, i, t) != 0
      ensures SlotAddr(c, i, t) == SlotAddr(a, i, t)
    {
      assert SlotAddr(b, i, t) == SlotAddr(a, i, t);
    }
  }

  // ---------------------------------------------------------------- what has to be logged

  /** Nothing changes on disk without being logged: every block of data or addresses, and every block of
      the bitmap, with a byte that differs has been passed to log_write(). */
  ghost predicate Logs(before: set<LogBlock>, logged: set<LogBlock>, a: Fs, b: Fs)
  {
    && before <= logged && |b.blocks| == |a.blocks| && |b.bitmap| == |a.bitmap|
    && (forall x :: 0 <= x < |a.blocks| && b.blocks[x] != a.blocks[x] ==> FileBlock(x) in logged)
    && (forall k :: 0 <= k < |a.bitmap| && b.bitmap[k] != a.bitmap[k] ==> BitmapBlock(k / BSIZE) in logged)
  }

  lemma LogsNone(logged: set<LogBlock>, a: Fs)
    ensures Logs(logged, logged, a, a)
  {
  }

  lemma LogsTwice(before: set<LogBlock>, between: set<LogBlock>, logged: set<LogBlock>, a: Fs, b: Fs, c: Fs)
    requires Logs(before, between, a, b) && Logs(between, logged, b, c)
    ensures Logs(before, logged, a, c)
  {
    forall x | 0 <= x < |a.blocks| && c.blocks[x] != a.blocks[x] ensures FileBlock(x) in logged {
      assert b.blocks[x] != a.blocks[x] || c.blocks[x] != b.blocks[x];
    }
    forall k | 0 <= k < |a.bitmap| && c.bitmap[k] != a.bitmap[k] ensures BitmapBlock(k / BSIZE) in logged {
      assert b.bitmap[k] != a.bitmap[k] || c.bitmap[k] != b.bitmap[k];
    }
  }

  /** A step that changes inodes in memory only. */
  lemma LogsMore(before: set<LogBlock>, between: set<LogBlock>, logged: set<LogBlock>, a: Fs, b: Fs, c: Fs)
    requires Logs(before, between, a, b) && between <= logged && c.blocks == b.blocks && c.bitmap == b.bitmap
    ensures Logs(before, logged, a, c)
  {
  }

  /** The bitmap block of a bit holds its byte. */
  lemma ByteOf(b: nat)
    ensures b / 8 / BSIZE == b / BPB
  {
  }

  lemma LogsAlloc(before: set<LogBlock>, logged: set<LogBlock>, a: Fs, b: Fs, r: nat)
    requires r / 8 < |a.bitmap| && r < |a.blocks|
    requires b.bitmap == SetBit(a.bitmap, r) && b.blocks == a.blocks[r := Zeros()]
    requires logged == before + {BitmapBlock(r / BPB), FileBlock(r)}
    ensures Logs(before, logged, a, b)
  {
    ByteOf(r);
  }

  lemma LogsEntry(before: set<LogBlock>, logged: set<LogBlock>, a: Fs, b: Fs, r: nat, ind: nat)
    requires r / 8 < |a.bitmap| && r < |a.blocks| && ind < |a.blocks| && b.bitmap == SetBit(a.bitmap, r)
    requires |b.blocks| == |a.blocks|
    requires forall x :: 0 <= x < |a.blocks| && x != r && x != ind ==> b.blocks[x] == a.blocks[x]
    requires logged == before + {BitmapBlock(r / BPB), FileBlock(r), FileBlock(ind)}
    ensures Logs(before, logged, a, b)
  {
    ByteOf(r);
  }

  lemma LogsClear(before: set<LogBlock>, logged: set<LogBlock>, a: Fs, b: Fs, x: nat)
    requires x / 8 < |a.bitmap| && b.bitmap == ClearBit(a.bitmap, x) && b.blocks == a.blocks
    requires logged == before + {BitmapBlock(x / BPB)}
    ensures Logs(before, logged, a, b)
  {
    ByteOf(x);
  }

  // ---------------------------------------------------------------- log budgets

  function BitmapBlocks(size: nat): nat { (size + BPB - 1) / BPB }

  /** The bitmap blocks of a disk of the given size. */
  ghost function AllBitmap(size: nat): set<LogBlock>
  {
    FirstBitmap(BitmapBlocks(size))
  }

  ghost function FirstBitmap(n: nat): set<LogBlock>
  {
    if n == 0 then {} else FirstBitmap(n - 1) + {BitmapBlock(n - 1)}
  }

  lemma {:induction false} FirstBitmapIs(n: nat, k: nat)
    ensures BitmapBlock(k) in FirstBitmap(n) <==> k < n
    ensures |FirstBitmap(n)| == n
  {
    if n > 0 {
      FirstBitmapIs(n - 1, k);
      FirstBitmapIs(n - 1, n - 1);
    }
  }

  ghost function One(addr: nat): set<LogBlock>
  {
    if addr == 0 then {} else {FileBlock(addr)}
  }

  /** What allocating block addr logs: its bitmap block, and itself when it is zeroed. */
  ghost function Fresh(addr: nat): set<LogBlock>
  {
    if addr == 0 then {} else {FileBlock(addr), BitmapBlock(addr / BPB)}
  }

  /** What may be logged for slot t of file i on the way from a to c: its block, and the bitmap block of
      it if the slot was empty. */
  ghost function SlotBudget(a: Fs, c: Fs, i: nat, t: nat): set<LogBlock>
    requires Shape(a) && Shape(c) && i < |a.inodes| && i < |c.inodes| && t < SLOTS
  {
    if SlotAddr(a, i, t) == 0 then Fresh(SlotAddr(c, i, t)) else One(SlotAddr(c, i, t))
  }

  /** What mapping and writing block bn of file i may log: for the indirect block and for itself. */
  ghost function BlockBudget(a: Fs, c: Fs, i: nat, bn: nat): set<LogBlock>
    requires Shape(a) && Shape(c) && i < |a.inodes| && i < |c.inodes| && bn < MAXFILE
  {
    SlotBudget(a, c, i, NDIRECT) + SlotBudget(a, c, i, SlotOf(bn))
  }

  /** The same for count blocks from first. */
  ghost function Budget(a: Fs, c: Fs, i: nat, first: nat, count: nat): set<LogBlock>
    requires Shape(a) && Shape(c) && i < |a.inodes| && i < |c.inodes| && first + count <= MAXFILE
  {
    if count == 0 then SlotBudget(a, c, i, NDIRECT)
    else Budget(a, c, i, first, count - 1) + SlotBudget(a, c, i, SlotOf(first + count - 1))
  }

  /** The file's own blocks among them. */
  ghost function Touched(c: Fs, i: nat, first: nat, count: nat): set<LogBlock>
    requires Shape(c) && i < |c.inodes| && first + count <= MAXFILE
  {
    if count == 0 then One(SlotAddr(c, i, NDIRECT))
    else Touched(c, i, first, count - 1) + One(BlockOf(c, i, first + count - 1))
  }

  /** How many blocks the bytes off .. off+n lie in. */
  function BlocksIn(off: nat, n: nat): nat
  {
    if n == 0 then 0 else (off + n - 1) / BSIZE - off / BSIZE + 1
  }

  /** At most this many blocks are logged for writing n bytes at off, the inode included: two for each
      block of the range and for the indirect block, but one for a block that off is in the middle of. */
  function LogBound(off: nat, n: nat): int
  {
    3 + 2 * BlocksIn(off, n) - if off % BSIZE != 0 && n > 0 then 1 else 0
  }

  /** Only the budget for the bytes off .. off+n of file i has been logged since a, and all that changed. */
  ghost predicate Within(before: set<LogBlock>, logged: set<LogBlock>, a: Fs, fs: Fs, i: nat, off: nat, n: nat)
  {
    && Own(a) && Own(fs) && i < |a.inodes| == |fs.inodes| && SlotsKept(a, fs, i)
    && off / BSIZE + BlocksIn(off, n) <= MAXFILE
    && logged <= before + Budget(a, fs, i, off / BSIZE, BlocksIn(off, n)) && Logs(before, logged, a, fs)
  }

  lemma RangeFits(off: nat, n: nat, tot: nat)
    requires off + n <= MAXFILE * BSIZE
    ensures off / BSIZE + BlocksIn(off, n) <= MAXFILE
    ensures tot < n ==> off / BSIZE <= (off + tot) / BSIZE < off / BSIZE + BlocksIn(off, n)
    ensures n <= 3 * BSIZE ==> BlocksIn(off, n) <= 4
  {
  }

  lemma SlotBudgetGrows(a: Fs, b: Fs, c: Fs, i: nat, t: nat)
    requires Own(a) && Own(b) && Own(c) && i < |a.inodes| && i < |b.inodes| && SlotsKept(b, c, i) && t < SLOTS
    ensures SlotBudget(a, b, i, t) <= SlotBudget(a, c, i, t)
  {
  }

  /** What was there before is there later, so a later start has no larger budget. */
  lemma SlotBudgetFrom(a: Fs, b: Fs, c: Fs, i: nat, t: nat)
    requires Own(a) && Own(b) && Own(c) && i < |a.inodes| && i < |b.inodes| && i < |c.inodes| && t < SLOTS
    requires SlotsKept(a, b, i)
    ensures SlotBudget(b, c, i, t) <= SlotBudget(a, c, i, t)
  {
  }

  lemma {:induction false} BudgetHas(a: Fs, c: Fs, i: nat, first: nat, count: nat, bn: nat)
    requires Shape(a) && Shape(c) && i < |a.inodes| && i < |c.inodes| && first <= bn < first + count <= MAXFILE
    ensures BlockBudget(a, c, i, bn) <= Budget(a, c, i, first, count)
    decreases count
  {
    if bn < first + count - 1 {
      BudgetHas(a, c, i, first, count - 1, bn);
    } else {
      BudgetBase(a, c, i, first, count - 1);
    }
  }

  lemma {:induction false} BudgetBase(a: Fs, c: Fs, i: nat, first: nat, count: nat)
    requires Shape(a) && Shape(c) && i < |a.inodes| && i < |c.inodes| && first + count <= MAXFILE
    ensures SlotBudget(a, c, i, NDIRECT) <= Budget(a, c, i, first, count)
  {
    if count > 0 {
      BudgetBase(a, c, i, first, count - 1);
    }
  }

  lemma {:induction false} BudgetGrows(a: Fs, b: Fs, c: Fs, i: nat, first: nat, count: nat)
    requires Own(a) && Own(b) && Own(c) && i < |a.inodes| && i < |b.inodes| && SlotsKept(b, c, i)
    requires first + count <= MAXFILE
    ensures Budget(a, b, i, first, count) <= Budget(a, c, i, first, count)
  {
    hide Own, SlotBudget, SlotsKept;
    if count == 0 {
      SlotBudgetGrows(a, b, c, i, NDIRECT);
    } else {
      BudgetGrows(a, b, c, i, first, count - 1);
      SlotBudgetGrows(a, b, c, i, SlotOf(first + count - 1));
    }
  }

  /** Two blocks for each slot, one less if the first block of the range was there. */
  lemma {:induction false} BudgetSize(a: Fs, c: Fs, i: nat, first: nat, count: nat)
    requires Shape(a) && Shape(c) && i < |a.inodes| && i < |c.inodes| && first + count <= MAXFILE
    ensures |Budget(a, c, i, first, count)| <= 2 + 2 * count
    ensures count > 0 && BlockOf(a, i, first) != 0 ==> |Budget(a, c, i, first, count)| <= 1 + 2 * count
  {
    if count > 0 {
      BudgetSize(a, c, i, first, count - 1);
    }
  }

  lemma SlotBudgetIn(a: Fs, c: Fs, i: nat, t: nat)
    requires Own(a) && Own(c) && i < |a.inodes| && i < |c.inodes| && t < SLOTS
    ensures SlotBudget(a, c, i, t) <= AllBitmap(|c.blocks|) + One(SlotAddr(c, i, t))
  {
    if SlotAddr(c, i, t) != 0 {
      SlotInRange(c, i, t);
      BitmapOf(SlotAddr(c, i, t), |c.blocks|);
    }
  }

  /** However many slots were empty, there are only so many bitmap blocks. */
  lemma {:induction false} BudgetIn(a: Fs, c: Fs, i: nat, first: nat, count: nat)
    requires Own(a) && Own(c) && i < |a.inodes| && i < |c.inodes| && first + count <= MAXFILE
    ensures Budget(a, c, i, first, count) <= AllBitmap(|c.blocks|) + Touched(c, i, first, count)
    ensures |Touched(c, i, first, count)| <= 1 + count
  {
    hide Own, SlotBudget, AllBitmap;
    if count == 0 {
      SlotBudgetIn(a, c, i, NDIRECT);
    } else {
      BudgetIn(a, c, i, first, count - 1);
      SlotBudgetIn(a, c, i, SlotOf(first + count - 1));
    }
  }

  lemma WithinStep(before: set<LogBlock>, k: set<LogBlock>, logged: set<LogBlock>, a: Fs, b: Fs, c: Fs, i: nat,
    off: nat, n: nat, tot: nat)
    requires Own(b) && Own(c) && i < |b.inodes| && SlotsKept(b, c, i) && off + n <= MAXFILE * BSIZE && tot < n
    requires (off + tot) / BSIZE < MAXFILE
    requires Within(before, k, a, b, i, off, n) && logged <= k + BlockBudget(b, c, i, (off + tot) / BSIZE)
    requires Logs(k, logged, b, c)
    ensures Within(before, logged, a, c, i, off, n)
  {
    hide SlotBudget, SlotsKept, Logs;
    LogsTwice(before, k, logged, a, b, c);
    RangeFits(off, n, tot);
    KeptTransitive(a, b, c, i);
    BudgetGrows(a, b, c, i, off / BSIZE, BlocksIn(off, n));
    SlotBudgetFrom(a, b, c, i, NDIRECT);
    SlotBudgetFrom(a, b, c, i, SlotOf((off + tot) / BSIZE));
    BudgetHas(a, c, i, off / BSIZE, BlocksIn(off, n), (off + tot) / BSIZE);
  }

  lemma WithinStart(logged: set<LogBlock>, fs: Fs, i: nat, off: nat, n: nat)
    requires Own(fs) && i < |fs.inodes| && off + n <= MAXFILE * BSIZE
    ensures Within(logged, logged, fs, fs, i, off, n)
  {
    LogsNone(logged, fs);
    RangeFits(off, n, 0);
  }

  lemma WithinSize(before: set<LogBlock>, logged: set<LogBlock>, a: Fs, fs: Fs, i: nat, off: nat, n: nat)
    requires Within(before, logged, a, fs, i, off, n) && Inv(a) && off <= a.inodes[i].size
    ensures |logged - before| <= BitmapBlocks(|fs.blocks|) + 1 + BlocksIn(off, n)
    ensures |logged - before| + 1 <= LogBound(off, n) && Logs(before, logged, a, fs)
  {
    hide Logs;
    var first, count := off / BSIZE, BlocksIn(off, n);
    var budget := Budget(a, fs, i, first, count);
    SubsetSize(logged - before, budget);
    BudgetIn(a, fs, i, first, count);
    SubsetSize(budget, AllBitmap(|fs.blocks|) + Touched(fs, i, first, count));
    FirstBitmapIs(BitmapBlocks(|fs.blocks|), 0);
    StartIsThere(a, i, off, n);
    BudgetSize(a, fs, i, first, count);
  }

  /** A write in the middle of a block finds that block: the file has no holes. */
  lemma StartIsThere(a: Fs, i: nat, off: nat, n: nat)
    requires Inv(a) && i < |a.inodes| && off <= a.inodes[i].size && off / BSIZE + BlocksIn(off, n) <= MAXFILE
    ensures n > 0 ==> BlocksIn(off, n) > 0
    ensures n > 0 && off % BSIZE != 0 ==> BlockOf(a, i, off / BSIZE) != 0
  {
    if n > 0 && off % BSIZE != 0 {
      assert off / BSIZE * BSIZE < off;
    }
  }

  lemma BitmapOf(r: nat, size: nat)
    requires r < size
    ensures BitmapBlock(r / BPB) in AllBitmap(size)
  {
    FirstBitmapIs(BitmapBlocks(size), r / BPB);
  }

  lemma MappedExtends(a: Fs, b: Fs, i: nat, s: nat, r: nat)
    requires Mapped(a, b, i, s, r)
    ensures Extends(a, b) && forall j :: 0 <= j < |a.inodes| && j != i ==> b.inodes[j] == a.inodes[j]
    ensures r != 0 ==> SlotAddr(b, i, s) == r
    ensures r != 0 && SlotAddr(a, i, s) == 0 ==> r < |a.blocks| && !Bit(a.bitmap, r) && b.blocks[r] == Zeros()
  {
    if SlotAddr(a, i, s) == 0 && r != 0 {
      CanAllocFacts(a, i, s, r);
      AllocExtends(a, i, s, r);
    }
  }

  lemma MappedAddr(a: Fs, b: Fs, i: nat, r: nat)
    requires Mapped(a, b, i, NDIRECT, r) && r != 0
    ensures Own(b) && i < |b.inodes| && b.inodes[i].addrs[NDIRECT] == r
  {
  }

  lemma MappedIsBmapped(a: Fs, b: Fs, i: nat, bn: nat, r: nat)
    requires bn < MAXFILE && Mapped(a, b, i, SlotOf(bn), r)
    ensures Bmapped(a, b, i, bn, r)
  {
    MappedExtends(a, b, i, SlotOf(bn), r);
  }

  lemma MappedTwice(a: Fs, b: Fs, c: Fs, i: nat, bn: nat, ind: nat, r: nat)
    requires NDIRECT <= bn < MAXFILE && ind != 0 && Mapped(a, b, i, NDIRECT, ind)
    requires Mapped(b, c, i, SlotOf(bn), r)
    ensures Bmapped(a, c, i, bn, r)
  {
    MappedExtends(a, b, i, NDIRECT, ind);
    MappedExtends(b, c, i, SlotOf(bn), r);
    ExtendsTransitive(a, b, c);
    if SlotAddr(a, i, NDIRECT) == 0 {
      AllocShape(a, i, NDIRECT, ind);
      AllocSlots(a, i, NDIRECT, ind, i, SlotOf(bn));
      if r != 0 && r < |a.blocks| {
        SetBitIs(a.bitmap, ind, r);
      }
    }
  }

  lemma MapFailed(a: Fs, b: Fs, i: nat, bn: nat)
    requires NDIRECT <= bn < MAXFILE && Mapped(a, b, i, NDIRECT, 0)
    ensures Bmapped(a, b, i, bn, 0) && BlockOf(a, i, bn) == 0 && i < |b.inodes| && Own(b)
  {
  }

  lemma DirectLogged(a: Fs, b: Fs, i: nat, bn: nat, r: nat, before: set<LogBlock>, after: set<LogBlock>)
    requires bn < NDIRECT && Mapped(a, b, i, bn, r) && (r != 0 ==> SlotAddr(b, i, bn) == r) && i < |b.inodes|
    requires after <= before + Fresh(r) && (a.inodes[i].addrs[bn] != 0 ==> after == before)
    ensures after <= before + BlockBudget(a, b, i, bn)
    ensures BlockOf(a, i, bn) != 0 ==> after == before
  {
  }

  /** What bmap() logs on its way through the indirect block: within the budget, and nothing at all when
      the block was there. */
  lemma IndirectLogged(a: Fs, b: Fs, c: Fs, i: nat, bn: nat, ind: nat, r: nat,
    before: set<LogBlock>, between: set<LogBlock>, after: set<LogBlock>)
    requires NDIRECT <= bn < MAXFILE && ind != 0 && Mapped(a, b, i, NDIRECT, ind)
    requires Mapped(b, c, i, SlotOf(bn), r) && c.inodes[i].addrs[NDIRECT] == ind && SlotsKept(a, b, i)
    requires between <= before + Fresh(ind) && after <= between + Fresh(r) + {FileBlock(ind)}
    requires a.inodes[i].addrs[NDIRECT] != 0 ==> between == before
    requires SlotAddr(b, i, SlotOf(bn)) != 0 || r == 0 ==> after == between
    ensures after <= before + BlockBudget(a, c, i, bn)
    ensures BlockOf(a, i, bn) != 0 ==> after == before
  {
    hide Own, Full;
    if r != 0 {
      MappedExtends(b, c, i, SlotOf(bn), r);
    }
  }
}
