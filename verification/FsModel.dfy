/** Blocks, bitmap and inodes of kernel/fs.c as values: which inode slot owns which block, and what
    bytes a file holds. */
module FsModel {
  import opened BlockBits

  const BSIZE: nat := 1024
  const NDIRECT: nat := 12
  const NINDIRECT: nat := 256
  const MAXFILE: nat := NDIRECT + NINDIRECT

  /** The slots of an inode: its direct addresses, its indirect block, the indirect block's entries. */
  const SLOTS: nat := NDIRECT + 1 + NINDIRECT

  /** A zeroed block. */
  function Zeros(): (r: seq<byte>)
    ensures |r| == BSIZE && forall k :: 0 <= k < BSIZE ==> r[k] == 0
  {
    seq(BSIZE, i => 0)
  }

  datatype Inode = Inode(addrs: seq<nat>, size: nat)

  /** Blocks below `meta` hold the file system's own structures.  `owner` says which slot of which
      inode an allocated block belongs to. */
  datatype Fs = Fs(meta: nat, bitmap: seq<bv8>, blocks: seq<seq<byte>>, inodes: seq<Inode>, owner: map<nat, (nat, nat)>)

  ghost predicate Shape(fs: Fs)
  {
    && 0 < fs.meta <= |fs.blocks| <= 8 * |fs.bitmap| && |fs.blocks| < WORD
    && (forall b :: 0 <= b < |fs.blocks| ==> |fs.blocks[b]| == BSIZE)
    && (forall i :: 0 <= i < |fs.inodes| ==> |fs.inodes[i].addrs| == NDIRECT + 1)
  }

  /** The block in slot s of inode i, 0 for none. */
  function SlotAddr(fs: Fs, i: nat, s: nat): (a: nat)
    requires Shape(fs) && i < |fs.inodes| && s < SLOTS
  {
    var addrs := fs.inodes[i].addrs;
    if s <= NDIRECT then addrs[s]
    else if addrs[NDIRECT] == 0 || addrs[NDIRECT] >= |fs.blocks| then 0
    else Word(fs.blocks[addrs[NDIRECT]], s - NDIRECT - 1)
  }

  /** Ownership: every address in a slot is a block owned by exactly that slot, and the bitmap marks
      exactly the file system's own blocks and the owned ones. */
  ghost predicate Own(fs: Fs)
  {
    && Shape(fs)
    && (forall i, s :: 0 <= i < |fs.inodes| && 0 <= s < SLOTS && SlotAddr(fs, i, s) != 0 ==>
          SlotAddr(fs, i, s) in fs.owner && fs.owner[SlotAddr(fs, i, s)] == (i, s))
    && (forall b :: b in fs.owner ==> OwnedOk(fs, b))
    && (forall b :: 0 <= b < |fs.blocks| ==> (Bit(fs.bitmap, b) <==> b < fs.meta || b in fs.owner))
  }

  ghost predicate OwnedOk(fs: Fs, b: nat)
    requires Shape(fs) && b in fs.owner
  {
    var (i, s) := fs.owner[b];
    fs.meta <= b < |fs.blocks| && i < |fs.inodes| && s < SLOTS && SlotAddr(fs, i, s) == b
  }

  /** No block is in two slots. */
  lemma NoSharing(fs: Fs, i: nat, s: nat, j: nat, t: nat)
    requires Own(fs) && i < |fs.inodes| && j < |fs.inodes| && s < SLOTS && t < SLOTS
    requires SlotAddr(fs, i, s) != 0 && SlotAddr(fs, i, s) == SlotAddr(fs, j, t)
    ensures i == j && s == t
  {
  }

  lemma SlotInRange(fs: Fs, i: nat, s: nat)
    requires Own(fs) && i < |fs.inodes| && s < SLOTS && SlotAddr(fs, i, s) != 0
    ensures fs.meta <= SlotAddr(fs, i, s) < |fs.blocks|
  {
    assert OwnedOk(fs, SlotAddr(fs, i, s));
  }

  // ---------------------------------------------------------------- giving a block to a slot

  /** Store b in slot s of inode i. */
  function PutSlot(fs: Fs, i: nat, s: nat, b: nat): (r: Fs)
    requires Shape(fs) && i < |fs.inodes| && s < SLOTS && b < WORD
    requires s > NDIRECT ==> 0 < fs.inodes[i].addrs[NDIRECT] < |fs.blocks|
  {
    if s <= NDIRECT then
      fs.(inodes := fs.inodes[i := fs.inodes[i].(addrs := fs.inodes[i].addrs[s := b])])
    else
      var ind := fs.inodes[i].addrs[NDIRECT];
      fs.(blocks := fs.blocks[ind := PutWord(fs.blocks[ind], s - NDIRECT - 1, b)])
  }

  /** balloc() of block b, followed by storing it in the slot. */
  function Alloc(fs: Fs, i: nat, s: nat, b: nat): (r: Fs)
    requires Shape(fs) && i < |fs.inodes| && s < SLOTS && b < |fs.blocks|
    requires s > NDIRECT ==> 0 < fs.inodes[i].addrs[NDIRECT] < |fs.blocks|
  {
    PutSlot(fs.(bitmap := SetBit(fs.bitmap, b), blocks := fs.blocks[b := Zeros()]), i, s, b)
      .(owner := fs.owner[b := (i, s)])
  }

  ghost predicate CanAlloc(fs: Fs, i: nat, s: nat, b: nat)
  {
    && Own(fs) && i < |fs.inodes| && s < SLOTS && SlotAddr(fs, i, s) == 0
    && b < |fs.blocks| && !Bit(fs.bitmap, b)
    && (s > NDIRECT ==> fs.inodes[i].addrs[NDIRECT] != 0)
  }

  lemma CanAllocFacts(fs: Fs, i: nat, s: nat, b: nat)
    requires CanAlloc(fs, i, s, b)
    ensures b != 0 && b !in fs.owner
    ensures s > NDIRECT ==> 0 < fs.inodes[i].addrs[NDIRECT] < |fs.blocks| && fs.inodes[i].addrs[NDIRECT] != b
    ensures forall j, t :: 0 <= j < |fs.inodes| && 0 <= t < SLOTS ==> SlotAddr(fs, j, t) != b
  {
    if s > NDIRECT {
      SlotInRange(fs, i, NDIRECT);
    }
  }

  lemma ZeroWord(j: nat)
    requires j < NINDIRECT
    ensures Word(Zeros(), j) == 0
  {
  }

  lemma AllocShape(fs: Fs, i: nat, s: nat, b: nat)
    requires CanAlloc(fs, i, s, b)
    ensures s > NDIRECT ==> 0 < fs.inodes[i].addrs[NDIRECT] < |fs.blocks|
    ensures Shape(Alloc(fs, i, s, b))
  {
    CanAllocFacts(fs, i, s, b);
  }

  /** The new block is in its slot and every other slot is as before. */
  lemma AllocSlots(fs: Fs, i: nat, s: nat, b: nat, j: nat, t: nat)
    requires CanAlloc(fs, i, s, b) && j < |fs.inodes| && t < SLOTS
    requires s > NDIRECT ==> 0 < fs.inodes[i].addrs[NDIRECT] < |fs.blocks|
    requires Shape(Alloc(fs, i, s, b))
    ensures SlotAddr(Alloc(fs, i, s, b), j, t) == if i == j && s == t then b else SlotAddr(fs, j, t)
  {
    CanAllocFacts(fs, i, s, b);
    if t > NDIRECT {
      ZeroWord(t - NDIRECT - 1);
      var ind := fs.inodes[j].addrs[NDIRECT];
      if ind != 0 {
        SlotInRange(fs, j, NDIRECT);
        assert SlotAddr(fs, j, NDIRECT) != b;
        if s > NDIRECT {
          if i == j {
            PutWordIs(fs.blocks[ind], s - NDIRECT - 1, b, t - NDIRECT - 1);
          } else {
            assert SlotAddr(fs, i, NDIRECT) != SlotAddr(fs, j, NDIRECT);
          }
        }
      }
    }
  }

  /** Allocation keeps ownership. */
  lemma AllocKeeps(fs: Fs, i: nat, s: nat, b: nat)
    requires CanAlloc(fs, i, s, b)
    ensures s > NDIRECT ==> 0 < fs.inodes[i].addrs[NDIRECT] < |fs.blocks|
    ensures Own(Alloc(fs, i, s, b))
  {
    CanAllocFacts(fs, i, s, b);
    AllocShape(fs, i, s, b);
    var r := Alloc(fs, i, s, b);
    forall j, t | 0 <= j < |r.inodes| && 0 <= t < SLOTS && SlotAddr(r, j, t) != 0
      ensures SlotAddr(r, j, t) in r.owner && r.owner[SlotAddr(r, j, t)] == (j, t)
    {
      AllocSlots(fs, i, s, b, j, t);
    }
    forall c | c in r.owner
      ensures OwnedOk(r, c)
    {
      if c == b {
        AllocSlots(fs, i, s, b, i, s);
      } else {
        assert OwnedOk(fs, c);
        AllocSlots(fs, i, s, b, fs.owner[c].0, fs.owner[c].1);
      }
    }
    forall c | 0 <= c < |r.blocks|
      ensures Bit(r.bitmap, c) <==> c < r.meta || c in r.owner
    {
      SetBitIs(fs.bitmap, b, c);
    }
  }

  // ---------------------------------------------------------------- taking a block from a slot

  /** bfree() of the slot's block, and the slot emptied. */
  function Free(fs: Fs, i: nat, s: nat): (r: Fs)
    requires Shape(fs) && i < |fs.inodes| && s < SLOTS && SlotAddr(fs, i, s) < |fs.blocks|
    requires s > NDIRECT ==> 0 < fs.inodes[i].addrs[NDIRECT] < |fs.blocks|
  {
    var b := SlotAddr(fs, i, s);
    PutSlot(fs.(bitmap := ClearBit(fs.bitmap, b)), i, s, 0).(owner := fs.owner - {b})
  }

  /** The indirect block goes last, when its entries are empty. */
  ghost predicate CanFree(fs: Fs, i: nat, s: nat)
  {
    && Own(fs) && i < |fs.inodes| && s < SLOTS && SlotAddr(fs, i, s) != 0
    && (s == NDIRECT ==> forall t :: NDIRECT < t < SLOTS ==> SlotAddr(fs, i, t) == 0)
  }

  lemma FreeShape(fs: Fs, i: nat, s: nat)
    requires CanFree(fs, i, s)
    ensures fs.meta <= SlotAddr(fs, i, s) < |fs.blocks| && SlotAddr(fs, i, s) in fs.owner
    ensures s > NDIRECT ==> 0 < fs.inodes[i].addrs[NDIRECT] < |fs.blocks|
    ensures Shape(Free(fs, i, s)) && Bit(fs.bitmap, SlotAddr(fs, i, s))
  {
    SlotInRange(fs, i, s);
  }

  /** The slot is empty and every other slot is as before. */
  lemma FreeSlots(fs: Fs, i: nat, s: nat, j: nat, t: nat)
    requires CanFree(fs, i, s) && j < |fs.inodes| && t < SLOTS
    requires SlotAddr(fs, i, s) < |fs.blocks|
    requires s > NDIRECT ==> 0 < fs.inodes[i].addrs[NDIRECT] < |fs.blocks|
    requires Shape(Free(fs, i, s))
    ensures SlotAddr(Free(fs, i, s), j, t) == if i == j && s == t then 0 else SlotAddr(fs, j, t)
  {
    if t > NDIRECT && s > NDIRECT {
      var ind := fs.inodes[j].addrs[NDIRECT];
      if i == j {
        PutWordIs(fs.blocks[ind], s - NDIRECT - 1, 0, t - NDIRECT - 1);
      } else if ind != 0 {
        assert SlotAddr(fs, i, NDIRECT) != SlotAddr(fs, j, NDIRECT);
      }
    }
  }

  /** Freeing keeps ownership: the block is unowned and its bit is clear. */
  lemma FreeKeeps(fs: Fs, i: nat, s: nat)
    requires CanFree(fs, i, s)
    ensures fs.meta <= SlotAddr(fs, i, s) < |fs.blocks|
    ensures s > NDIRECT ==> 0 < fs.inodes[i].addrs[NDIRECT] < |fs.blocks|
    ensures Own(Free(fs, i, s))
  {
    FreeShape(fs, i, s);
    var b := SlotAddr(fs, i, s);
    var r := Free(fs, i, s);
    forall j, t | 0 <= j < |r.inodes| && 0 <= t < SLOTS && SlotAddr(r, j, t) != 0
      ensures SlotAddr(r, j, t) in r.owner && r.owner[SlotAddr(r, j, t)] == (j, t)
    {
      FreeSlots(fs, i, s, j, t);
    }
    forall c | c in r.owner
      ensures OwnedOk(r, c)
    {
      assert OwnedOk(fs, c);
      FreeSlots(fs, i, s, fs.owner[c].0, fs.owner[c].1);
    }
    forall c | 0 <= c < |r.blocks|
      ensures Bit(r.bitmap, c) <==> c < r.meta || c in r.owner
    {
      ClearBitIs(fs.bitmap, b, c);
    }
  }

  // ---------------------------------------------------------------- file contents

  /** The slot of the bn-th block of a file. */
  function SlotOf(bn: nat): nat { if bn < NDIRECT then bn else bn + 1 }

  function BlockOf(fs: Fs, i: nat, bn: nat): nat
    requires Shape(fs) && i < |fs.inodes| && bn < MAXFILE
  {
    SlotAddr(fs, i, SlotOf(bn))
  }

  /** Every block of the first `size` bytes is allocated. */
  ghost predicate NoHoles(fs: Fs, i: nat, size: nat)
    requires Shape(fs) && i < |fs.inodes|
  {
    && size <= MAXFILE * BSIZE
    && forall bn :: 0 <= bn < MAXFILE && bn * BSIZE < size ==> BlockOf(fs, i, bn) != 0
  }

  ghost predicate Inv(fs: Fs)
  {
    Own(fs) && forall i :: 0 <= i < |fs.inodes| ==> NoHoles(fs, i, fs.inodes[i].size)
  }

  /** Byte k of file i. */
  function ByteAt(fs: Fs, i: nat, k: nat): byte
    requires Own(fs) && i < |fs.inodes| && k < MAXFILE * BSIZE
    requires BlockOf(fs, i, k / BSIZE) != 0
  {
    SlotInRange(fs, i, SlotOf(k / BSIZE));
    fs.blocks[BlockOf(fs, i, k / BSIZE)][k % BSIZE]
  }

  lemma BlockExists(fs: Fs, i: nat, size: nat, k: nat)
    requires Own(fs) && i < |fs.inodes| && NoHoles(fs, i, size) && k < size
    ensures k < MAXFILE * BSIZE && BlockOf(fs, i, k / BSIZE) != 0
  {
    assert k / BSIZE * BSIZE <= k;
  }

  /** The first n bytes of file i. */
  ghost function Bytes(fs: Fs, i: nat, n: nat): (c: seq<byte>)
    requires Own(fs) && i < |fs.inodes| && NoHoles(fs, i, n)
    ensures |c| == n
  {
    seq(n, k requires 0 <= k < n => BlockExists(fs, i, n, k); ByteAt(fs, i, k))
  }

  /** A file is a byte sequence. */
  ghost function Content(fs: Fs, i: nat): (c: seq<byte>)
    requires Inv(fs) && i < |fs.inodes|
    ensures |c| == fs.inodes[i].size
  {
    Bytes(fs, i, fs.inodes[i].size)
  }

  // ---------------------------------------------------------------- steps that only add blocks

  /** Every block of a file is still there, in place and unchanged. */
  ghost predicate Extends(a: Fs, b: Fs)
    requires Own(a) && Own(b)
  {
    && |a.inodes| == |b.inodes| && |a.blocks| == |b.blocks|
    && (forall j :: 0 <= j < |a.inodes| ==> b.inodes[j].size == a.inodes[j].size)
    && (forall j, bn :: 0 <= j < |a.inodes| && 0 <= bn < MAXFILE && BlockOf(a, j, bn) != 0 ==> SameBlock(a, b, j, bn))
  }

  ghost predicate SameBlock(a: Fs, b: Fs, j: nat, bn: nat)
    requires Own(a) && Own(b) && j < |a.inodes| == |b.inodes| && bn < MAXFILE && |a.blocks| == |b.blocks|
    requires BlockOf(a, j, bn) != 0
  {
    SlotInRange(a, j, SlotOf(bn));
    BlockOf(b, j, bn) == BlockOf(a, j, bn) && b.blocks[BlockOf(a, j, bn)] == a.blocks[BlockOf(a, j, bn)]
  }

  lemma ExtendsTransitive(a: Fs, b: Fs, c: Fs)
    requires Own(a) && Own(b) && Own(c) && Extends(a, b) && Extends(b, c)
    ensures Extends(a, c)
  {
    forall j, bn | 0 <= j < |a.inodes| && 0 <= bn < MAXFILE && BlockOf(a, j, bn) != 0
      ensures SameBlock(a, c, j, bn)
    {
      assert SameBlock(a, b, j, bn);
      assert SameBlock(b, c, j, bn);
    }
  }

  lemma ExtendsBytes(a: Fs, b: Fs, j: nat, n: nat)
    requires Own(a) && Own(b) && Extends(a, b) && j < |a.inodes| && NoHoles(a, j, n)
    ensures NoHoles(b, j, n) && Bytes(b, j, n) == Bytes(a, j, n)
  {
    forall bn | 0 <= bn < MAXFILE && bn * BSIZE < n
      ensures BlockOf(b, j, bn) != 0
    {
      assert SameBlock(a, b, j, bn);
    }
    forall k | 0 <= k < n
      ensures Bytes(b, j, n)[k] == Bytes(a, j, n)[k]
    {
      BlockExists(a, j, n, k);
      assert SameBlock(a, b, j, k / BSIZE);
    }
  }

  lemma ExtendsContent(a: Fs, b: Fs)
    requires Inv(a) && Own(b) && Extends(a, b)
    ensures Inv(b) && forall j :: 0 <= j < |a.inodes| ==> Content(b, j) == Content(a, j)
  {
    forall j | 0 <= j < |a.inodes|
      ensures NoHoles(b, j, b.inodes[j].size) && Bytes(b, j, b.inodes[j].size) == Content(a, j)
    {
      ExtendsBytes(a, b, j, a.inodes[j].size);
    }
  }

  lemma AllocExtends(fs: Fs, i: nat, s: nat, b: nat)
    requires CanAlloc(fs, i, s, b)
    ensures s > NDIRECT ==> 0 < fs.inodes[i].addrs[NDIRECT] < |fs.blocks|
    ensures Own(Alloc(fs, i, s, b)) && Extends(fs, Alloc(fs, i, s, b))
    ensures SlotAddr(Alloc(fs, i, s, b), i, s) == b
  {
    AllocKeeps(fs, i, s, b);
    AllocShape(fs, i, s, b);
    CanAllocFacts(fs, i, s, b);
    AllocSlots(fs, i, s, b, i, s);
    var r := Alloc(fs, i, s, b);
    forall j, bn | 0 <= j < |fs.inodes| && 0 <= bn < MAXFILE && BlockOf(fs, j, bn) != 0
      ensures SameBlock(fs, r, j, bn)
    {
      AllocSlots(fs, i, s, b, j, SlotOf(bn));
      SlotInRange(fs, j, SlotOf(bn));
      if s > NDIRECT && SlotAddr(fs, j, SlotOf(bn)) == SlotAddr(fs, i, NDIRECT) {
        NoSharing(fs, j, SlotOf(bn), i, NDIRECT);
      }
    }
  }

  // ---------------------------------------------------------------- overwriting file data

  /** Block bn of file i gets new data. */
  function PutData(fs: Fs, i: nat, bn: nat, data: seq<byte>): (r: Fs)
    requires Shape(fs) && i < |fs.inodes| && bn < MAXFILE && BlockOf(fs, i, bn) < |fs.blocks|
  {
    fs.(blocks := fs.blocks[BlockOf(fs, i, bn) := data])
  }

  ghost predicate CanPut(fs: Fs, i: nat, bn: nat, data: seq<byte>)
  {
    Own(fs) && i < |fs.inodes| && bn < MAXFILE && BlockOf(fs, i, bn) != 0 && |data| == BSIZE
  }

  lemma PutDataSlots(fs: Fs, i: nat, bn: nat, data: seq<byte>, j: nat, t: nat)
    requires CanPut(fs, i, bn, data) && j < |fs.inodes| && t < SLOTS && BlockOf(fs, i, bn) < |fs.blocks|
    requires Shape(PutData(fs, i, bn, data))
    ensures SlotAddr(PutData(fs, i, bn, data), j, t) == SlotAddr(fs, j, t)
  {
    if t > NDIRECT && SlotAddr(fs, j, NDIRECT) == BlockOf(fs, i, bn) {
      NoSharing(fs, j, NDIRECT, i, SlotOf(bn));
    }
  }

  /** Data writes touch no address, so ownership stays. */
  lemma PutDataKeeps(fs: Fs, i: nat, bn: nat, data: seq<byte>)
    requires CanPut(fs, i, bn, data)
    ensures fs.meta <= BlockOf(fs, i, bn) < |fs.blocks|
    ensures Own(PutData(fs, i, bn, data))
    ensures forall j, t :: 0 <= j < |fs.inodes| && 0 <= t < SLOTS ==>
      SlotAddr(PutData(fs, i, bn, data), j, t) == SlotAddr(fs, j, t)
  {
    SlotInRange(fs, i, SlotOf(bn));
    var r := PutData(fs, i, bn, data);
    assert Shape(r);
    forall j, t | 0 <= j < |fs.inodes| && 0 <= t < SLOTS
      ensures SlotAddr(r, j, t) == SlotAddr(fs, j, t)
    {
      PutDataSlots(fs, i, bn, data, j, t);
    }
    forall c | c in r.owner
      ensures OwnedOk(r, c)
    {
      assert OwnedOk(fs, c);
      PutDataSlots(fs, i, bn, data, fs.owner[c].0, fs.owner[c].1);
    }
  }

  /** Which bytes of which files a data write changes. */
  lemma PutDataByte(fs: Fs, i: nat, bn: nat, data: seq<byte>, j: nat, k: nat)
    requires CanPut(fs, i, bn, data) && j < |fs.inodes| && k < MAXFILE * BSIZE && BlockOf(fs, j, k / BSIZE) != 0
    ensures fs.meta <= BlockOf(fs, i, bn) < |fs.blocks| && Own(PutData(fs, i, bn, data))
    ensures BlockOf(PutData(fs, i, bn, data), j, k / BSIZE) == BlockOf(fs, j, k / BSIZE)
    ensures ByteAt(PutData(fs, i, bn, data), j, k) ==
      if i == j && k / BSIZE == bn then data[k % BSIZE] else ByteAt(fs, j, k)
  {
    PutDataKeeps(fs, i, bn, data);
    SlotInRange(fs, j, SlotOf(k / BSIZE));
    if BlockOf(fs, j, k / BSIZE) == BlockOf(fs, i, bn) {
      NoSharing(fs, j, SlotOf(k / BSIZE), i, SlotOf(bn));
    }
  }

  // ---------------------------------------------------------------- sizes

  /** Ownership depends on the addresses only. */
  lemma SameAddrs(b: Fs, c: Fs)
    requires Own(b) && |c.inodes| == |b.inodes| && c == b.(inodes := c.inodes)
    requires forall j :: 0 <= j < |b.inodes| ==> c.inodes[j].addrs == b.inodes[j].addrs
    ensures Own(c)
    ensures forall j, t :: 0 <= j < |b.inodes| && 0 <= t < SLOTS ==> SlotAddr(c, j, t) == SlotAddr(b, j, t)
  {
    assert forall j, t :: 0 <= j < |b.inodes| && 0 <= t < SLOTS ==> SlotAddr(c, j, t) == SlotAddr(b, j, t);
    forall x | x in c.owner
      ensures OwnedOk(c, x)
    {
      assert OwnedOk(b, x);
      assert SlotAddr(c, b.owner[x].0, b.owner[x].1) == SlotAddr(b, b.owner[x].0, b.owner[x].1);
    }
  }

  lemma SameAddrsBytes(b: Fs, c: Fs, j: nat, n: nat)
    requires Own(b) && Own(c) && |c.inodes| == |b.inodes| && c == b.(inodes := c.inodes)
    requires forall j, t :: 0 <= j < |b.inodes| && 0 <= t < SLOTS ==> SlotAddr(c, j, t) == SlotAddr(b, j, t)
    requires j < |b.inodes| && NoHoles(b, j, n)
    ensures NoHoles(c, j, n) && Bytes(c, j, n) == Bytes(b, j, n)
  {
    assert forall bn :: 0 <= bn < MAXFILE ==> BlockOf(c, j, bn) == BlockOf(b, j, bn);
    forall k | 0 <= k < n
      ensures Bytes(c, j, n)[k] == Bytes(b, j, n)[k]
    {
      BlockExists(b, j, n, k);
    }
  }
}
