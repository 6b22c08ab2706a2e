/** What reading and writing a range of a file means for its contents (kernel/fs.c, readi and
    writei), one block at a time. */
module FileContent {
  import opened Basics
  import opened BlockBits
  import opened FsModel

  /** `s` written over `c` from position off, extending it if need be. */
  function Splice(c: seq<byte>, off: nat, s: seq<byte>): (r: seq<byte>)
    requires off <= |c|
  {
    c[..off] + s + if off + |s| < |c| then c[off + |s|..] else []
  }

  function Max(a: nat, b: nat): nat { if a < b then b else a }

  /** A block with `s` put in at o. */
  function Patch(blk: seq<byte>, o: nat, s: seq<byte>): (r: seq<byte>)
    requires o + |s| <= |blk|
    ensures |r| == |blk|
  {
    blk[..o] + s + blk[o + |s|..]
  }

  /** Where the file ends after tot bytes at off. */
  function End(fs: Fs, i: nat, off: nat, tot: nat): nat
    requires i < |fs.inodes|
  {
    Max(fs.inodes[i].size, off + tot)
  }

  /** From a to b, the first tot bytes of src went into file i at off, except that its size field is
      not updated yet; no other file changed. */
  ghost predicate Wrote(a: Fs, b: Fs, i: nat, off: nat, src: seq<byte>, tot: nat)
  {
    && Inv(a) && Inv(b) && i < |a.inodes| == |b.inodes| && |a.blocks| == |b.blocks|
    && off <= a.inodes[i].size && tot <= |src| && off + tot <= MAXFILE * BSIZE
    && b.inodes[i].size == a.inodes[i].size
    && (forall j :: 0 <= j < |a.inodes| && j != i ==> b.inodes[j] == a.inodes[j])
    && (forall j :: 0 <= j < |a.inodes| && j != i ==> Content(b, j) == Content(a, j))
    && NoHoles(b, i, End(a, i, off, tot))
    && Bytes(b, i, End(a, i, off, tot)) == Splice(Content(a, i), off, src[..tot])
  }

  lemma WroteNothing(a: Fs, i: nat, off: nat, src: seq<byte>)
    requires Inv(a) && i < |a.inodes| && off <= a.inodes[i].size
    ensures Wrote(a, a, i, off, src, 0)
  {
    var c := Content(a, i);
    assert c[..off] + [] + c[off..] == c;
  }

  lemma WroteExtends(a: Fs, b: Fs, c: Fs, i: nat, off: nat, src: seq<byte>, tot: nat)
    requires Wrote(a, b, i, off, src, tot) && Own(c) && Extends(b, c)
    requires forall j :: 0 <= j < |b.inodes| && j != i ==> c.inodes[j] == b.inodes[j]
    ensures Wrote(a, c, i, off, src, tot)
  {
    ExtendsContent(b, c);
    ExtendsBytes(b, c, i, End(a, i, off, tot));
  }

  /** One pass of the write loop: part of one block. */
  ghost predicate OneBlock(b: Fs, i: nat, pos: nat, m: nat)
  {
    && Own(b) && i < |b.inodes| && pos < MAXFILE * BSIZE && BlockOf(b, i, pos / BSIZE) != 0
    && pos % BSIZE + m <= BSIZE
  }

  /** The file system with `part` written into the block at pos. */
  ghost function PatchBlock(b: Fs, i: nat, pos: nat, part: seq<byte>): (c: Fs)
    requires OneBlock(b, i, pos, |part|)
  {
    SlotInRange(b, i, SlotOf(pos / BSIZE));
    PutData(b, i, pos / BSIZE, Patch(b.blocks[BlockOf(b, i, pos / BSIZE)], pos % BSIZE, part))
  }

  lemma PatchByte(b: Fs, i: nat, pos: nat, part: seq<byte>, j: nat, k: nat)
    requires OneBlock(b, i, pos, |part|) && j < |b.inodes|
    requires k < MAXFILE * BSIZE && BlockOf(b, j, k / BSIZE) != 0
    ensures Own(PatchBlock(b, i, pos, part))
    ensures BlockOf(PatchBlock(b, i, pos, part), j, k / BSIZE) == BlockOf(b, j, k / BSIZE)
    ensures ByteAt(PatchBlock(b, i, pos, part), j, k) ==
      if i == j && pos <= k < pos + |part| then part[k - pos] else ByteAt(b, j, k)
  {
    SlotInRange(b, i, SlotOf(pos / BSIZE));
    var blk := b.blocks[BlockOf(b, i, pos / BSIZE)];
    PutDataByte(b, i, pos / BSIZE, Patch(blk, pos % BSIZE, part), j, k);
    SamePlace(pos, |part|, k);
  }

  /** Inside one block, positions and offsets correspond. */
  lemma SamePlace(pos: nat, m: nat, k: nat)
    requires pos % BSIZE + m <= BSIZE
    ensures pos <= k < pos + m ==> k / BSIZE == pos / BSIZE
    ensures k / BSIZE == pos / BSIZE ==> k - pos == k % BSIZE - pos % BSIZE
  {
  }

  lemma PatchHoles(b: Fs, i: nat, pos: nat, part: seq<byte>, j: nat, n: nat)
    requires OneBlock(b, i, pos, |part|) && j < |b.inodes|
    requires NoHoles(b, j, n)
    ensures Own(PatchBlock(b, i, pos, part)) && NoHoles(PatchBlock(b, i, pos, part), j, n)
    ensures j != i ==> Bytes(PatchBlock(b, i, pos, part), j, n) == Bytes(b, j, n)
  {
    PatchByte(b, i, pos, part, i, pos);
    var c := PatchBlock(b, i, pos, part);
    forall bn | 0 <= bn < MAXFILE && bn * BSIZE < n
      ensures BlockOf(c, j, bn) != 0
    {
      assert bn * BSIZE / BSIZE == bn;
      PatchByte(b, i, pos, part, j, bn * BSIZE);
    }
    if j != i {
      forall k | 0 <= k < n
        ensures Bytes(c, j, n)[k] == Bytes(b, j, n)[k]
      {
        BlockExists(b, j, n, k);
        PatchByte(b, i, pos, part, j, k);
      }
    }
  }

  /** The block just written closes the gap up to its end. */
  lemma GrownHoles(b: Fs, i: nat, pos: nat, m: nat, n: nat)
    requires OneBlock(b, i, pos, m) && NoHoles(b, i, n) && pos <= n && pos + m <= MAXFILE * BSIZE
    ensures NoHoles(b, i, Max(n, pos + m))
  {
    forall bn | 0 <= bn < MAXFILE && bn * BSIZE < Max(n, pos + m)
      ensures BlockOf(b, i, bn) != 0
    {
      if bn * BSIZE >= n {
        assert bn == pos / BSIZE;
      }
    }
  }

  lemma SpliceGrows(c: seq<byte>, off: nat, src: seq<byte>, tot: nat, m: nat, k: nat)
    requires off <= |c| && tot + m <= |src|
    requires k < Max(|c|, off + tot + m)
    ensures |Splice(c, off, src[..tot])| == Max(|c|, off + tot)
    ensures |Splice(c, off, src[..tot + m])| == Max(|c|, off + tot + m)
    ensures Splice(c, off, src[..tot + m])[k] ==
      if off + tot <= k < off + tot + m then src[k - off] else Splice(c, off, src[..tot])[k]
  {
  }

  /** The write loop makes progress: after one more block part, that much more of src is in the file. */
  lemma WroteBlock(a: Fs, b: Fs, i: nat, off: nat, src: seq<byte>, tot: nat, m: nat)
    requires Wrote(a, b, i, off, src, tot) && tot + m <= |src| && off + tot + m <= MAXFILE * BSIZE
    requires OneBlock(b, i, off + tot, m)
    ensures Wrote(a, PatchBlock(b, i, off + tot, src[tot..tot + m]), i, off, src, tot + m)
  {
    var pos, part := off + tot, src[tot..tot + m];
    var c := PatchBlock(b, i, pos, part);
    forall j | 0 <= j < |b.inodes|
      ensures Own(c) && NoHoles(c, j, b.inodes[j].size)
      ensures j != i ==> Bytes(c, j, b.inodes[j].size) == Bytes(b, j, b.inodes[j].size)
    {
      PatchHoles(b, i, pos, part, j, b.inodes[j].size);
    }
    GrownHoles(b, i, pos, m, End(a, i, off, tot));
    PatchHoles(b, i, pos, part, i, End(a, i, off, tot + m));
    WroteBytes(a, b, i, off, src, tot, m);
  }

  lemma WroteBytes(a: Fs, b: Fs, i: nat, off: nat, src: seq<byte>, tot: nat, m: nat)
    requires Wrote(a, b, i, off, src, tot) && tot + m <= |src| && off + tot + m <= MAXFILE * BSIZE
    requires OneBlock(b, i, off + tot, m) && NoHoles(b, i, End(a, i, off, tot + m))
    requires Own(PatchBlock(b, i, off + tot, src[tot..tot + m]))
    requires NoHoles(PatchBlock(b, i, off + tot, src[tot..tot + m]), i, End(a, i, off, tot + m))
    ensures Bytes(PatchBlock(b, i, off + tot, src[tot..tot + m]), i, End(a, i, off, tot + m))
         == Splice(Content(a, i), off, src[..tot + m])
  {
    var pos, part, n := off + tot, src[tot..tot + m], End(a, i, off, tot + m);
    var c := PatchBlock(b, i, pos, part);
    var want := Splice(Content(a, i), off, src[..tot + m]);
    forall k | 0 <= k < n
      ensures Bytes(c, i, n)[k] == want[k]
    {
      BlockExists(b, i, n, k);
      PatchByte(b, i, pos, part, i, k);
      SpliceGrows(Content(a, i), off, src, tot, m, k);
      assert !(pos <= k < pos + m) ==> ByteAt(b, i, k) == Bytes(b, i, End(a, i, off, tot))[k];
    }
  }

  /** Storing the new size finishes the write. */
  lemma WroteDone(a: Fs, b: Fs, i: nat, off: nat, src: seq<byte>, tot: nat)
    requires Wrote(a, b, i, off, src, tot)
    ensures var c := b.(inodes := b.inodes[i := b.inodes[i].(size := End(a, i, off, tot))]);
      && Inv(c)
      && Content(c, i) == Splice(Content(a, i), off, src[..tot])
      && forall j :: 0 <= j < |a.inodes| && j != i ==> Content(c, j) == Content(a, j)
  {
    var c := b.(inodes := b.inodes[i := b.inodes[i].(size := End(a, i, off, tot))]);
    SameAddrs(b, c);
    forall j | 0 <= j < |a.inodes| && j != i
      ensures NoHoles(c, j, c.inodes[j].size) && Bytes(c, j, c.inodes[j].size) == Content(a, j)
    {
      SameAddrsBytes(b, c, j, b.inodes[j].size);
    }
    SameAddrsBytes(b, c, i, End(a, i, off, tot));
  }
}
