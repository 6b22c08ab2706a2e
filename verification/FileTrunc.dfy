/** What itrunc() of kernel/fs.c does to ownership, slot by slot. */
module FileTrunc {
  import opened BlockBits
  import opened FsModel

  /** From a to b, exactly the slots `done` of inode i were emptied and their blocks freed. */
  ghost predicate Emptied(a: Fs, b: Fs, i: nat, done: set<nat>)
  {
    && Own(a) && Own(b) && i < |a.inodes| == |b.inodes| && |a.blocks| == |b.blocks| && a.meta == b.meta
    && b.inodes[i].size == a.inodes[i].size
    && (forall j :: 0 <= j < |a.inodes| && j != i ==> b.inodes[j] == a.inodes[j])
    && (forall j, t :: 0 <= j < |a.inodes| && 0 <= t < SLOTS ==>
          SlotAddr(b, j, t) == if j == i && t in done then 0 else SlotAddr(a, j, t))
    && (forall x :: 0 <= x < |a.blocks| && x != a.inodes[i].addrs[NDIRECT] ==> b.blocks[x] == a.blocks[x])
  }

  lemma EmptiedNone(a: Fs, i: nat)
    requires Own(a) && i < |a.inodes|
    ensures Emptied(a, a, i, {})
  {
  }

  lemma EmptiedSkip(a: Fs, b: Fs, i: nat, done: set<nat>, s: nat)
    requires Emptied(a, b, i, done) && s < SLOTS && SlotAddr(b, i, s) == 0
    ensures Emptied(a, b, i, done + {s})
  {
  }

  /** Freeing one more slot; the indirect block only when all its entries are done. */
  lemma EmptiedFree(a: Fs, b: Fs, i: nat, done: set<nat>, s: nat)
    requires Emptied(a, b, i, done) && s < SLOTS && SlotAddr(b, i, s) != 0
    requires NDIRECT !in done
    requires s == NDIRECT ==> forall t :: NDIRECT < t < SLOTS ==> t in done
    ensures CanFree(b, i, s) && b.meta <= SlotAddr(b, i, s) < |b.blocks| && Bit(b.bitmap, SlotAddr(b, i, s))
    ensures s > NDIRECT ==> 0 < b.inodes[i].addrs[NDIRECT] < |b.blocks|
    ensures Emptied(a, Free(b, i, s), i, done + {s})
  {
    assert SlotAddr(b, i, NDIRECT) == SlotAddr(a, i, NDIRECT);
    FreeShape(b, i, s);
    FreeKeeps(b, i, s);
    var c := Free(b, i, s);
    forall j, t | 0 <= j < |a.inodes| && 0 <= t < SLOTS
      ensures SlotAddr(c, j, t) == if j == i && t in done + {s} then 0 else SlotAddr(a, j, t)
    {
      FreeSlots(b, i, s, j, t);
    }
  }

  /** A block nobody owns may hold anything. */
  lemma UnownedBlock(b: Fs, x: nat, data: seq<byte>)
    requires Own(b) && x < |b.blocks| && x !in b.owner && |data| == BSIZE
    ensures Own(b.(blocks := b.blocks[x := data]))
    ensures forall j, t :: 0 <= j < |b.inodes| && 0 <= t < SLOTS ==>
      SlotAddr(b.(blocks := b.blocks[x := data]), j, t) == SlotAddr(b, j, t)
  {
    var c := b.(blocks := b.blocks[x := data]);
    assert Shape(c);
    forall j, t | 0 <= j < |b.inodes| && 0 <= t < SLOTS
      ensures SlotAddr(c, j, t) == SlotAddr(b, j, t)
    {
      assert SlotAddr(b, j, NDIRECT) != 0 ==> SlotAddr(b, j, NDIRECT) in b.owner;
    }
    forall y | y in c.owner
      ensures OwnedOk(c, y)
    {
      assert OwnedOk(b, y);
      assert SlotAddr(c, b.owner[y].0, b.owner[y].1) == SlotAddr(b, b.owner[y].0, b.owner[y].1);
    }
  }

  /** Whoever owns a block afterwards owned it before, and it is not the emptied inode. */
  lemma StillOwned(a: Fs, b: Fs, i: nat, done: set<nat>, x: nat)
    requires Emptied(a, b, i, done) && (forall t :: 0 <= t < SLOTS ==> t in done)
    ensures x in b.owner <==> x in a.owner && a.owner[x].0 != i
  {
    if x in b.owner {
      assert OwnedOk(b, x);
      var (j, t) := b.owner[x];
      assert SlotAddr(b, j, t) == x;
    }
    if x in a.owner {
      assert OwnedOk(a, x);
      var (j, t) := a.owner[x];
      assert SlotAddr(a, j, t) == x;
      assert SlotAddr(b, j, t) == if j == i then 0 else x;
    }
  }

  /** Once every slot is empty: the inode owns nothing, and exactly its blocks became free. */
  lemma EmptiedAll(a: Fs, b: Fs, i: nat, done: set<nat>)
    requires Emptied(a, b, i, done) && (forall t :: 0 <= t < SLOTS ==> t in done)
    ensures forall t :: 0 <= t < SLOTS ==> SlotAddr(b, i, t) == 0
    ensures forall x :: 0 <= x < |a.blocks| ==>
      (Bit(b.bitmap, x) <==> Bit(a.bitmap, x) && !(x in a.owner && a.owner[x].0 == i))
  {
    forall x | 0 <= x < |a.blocks|
      ensures Bit(b.bitmap, x) <==> Bit(a.bitmap, x) && !(x in a.owner && a.owner[x].0 == i)
    {
      StillOwned(a, b, i, done, x);
      assert x in a.owner ==> OwnedOk(a, x);
    }
  }

  /** The other files keep their contents. */
  lemma EmptiedOthers(a: Fs, b: Fs, i: nat, done: set<nat>, j: nat, n: nat)
    requires Emptied(a, b, i, done) && j < |a.inodes| && j != i && NoHoles(a, j, n)
    ensures NoHoles(b, j, n) && Bytes(b, j, n) == Bytes(a, j, n)
  {
    assert forall bn :: 0 <= bn < MAXFILE ==> BlockOf(b, j, bn) == BlockOf(a, j, bn);
    forall k | 0 <= k < n
      ensures Bytes(b, j, n)[k] == Bytes(a, j, n)[k]
    {
      BlockExists(a, j, n, k);
      SlotInRange(a, j, SlotOf(k / BSIZE));
      assert SlotAddr(a, j, SlotOf(k / BSIZE)) != SlotAddr(a, i, NDIRECT);
    }
  }

  /** itrunc() frees the blocks an indirect block names without clearing its entries.  `v` is the file
      system with them cleared; the real one, r, still has the indirect block as it was. */
  ghost predicate Shadow(a: Fs, r: Fs, v: Fs, i: nat, done: set<nat>)
  {
    && Emptied(a, v, i, done) && NDIRECT !in done && a.inodes[i].addrs[NDIRECT] != 0
    && r == v.(blocks := a.blocks)
  }

  lemma ShadowEntry(a: Fs, r: Fs, v: Fs, i: nat, done: set<nat>, j: nat)
    requires Shadow(a, r, v, i, done) && j < NINDIRECT && NDIRECT + 1 + j !in done
    ensures 0 < r.inodes[i].addrs[NDIRECT] < |r.blocks| && |r.blocks[r.inodes[i].addrs[NDIRECT]]| == BSIZE
    ensures Word(r.blocks[r.inodes[i].addrs[NDIRECT]], j) == SlotAddr(v, i, NDIRECT + 1 + j)
    ensures r.inodes[i].addrs[NDIRECT] == a.inodes[i].addrs[NDIRECT]
  {
    assert SlotAddr(v, i, NDIRECT) == SlotAddr(a, i, NDIRECT);
    SlotInRange(a, i, NDIRECT);
    assert SlotAddr(v, i, NDIRECT + 1 + j) == SlotAddr(a, i, NDIRECT + 1 + j);
  }

  /** Freeing the indirect block itself brings the two together again. */
  lemma ShadowEnd(a: Fs, r: Fs, v: Fs, i: nat, done: set<nat>)
    requires Shadow(a, r, v, i, done) && forall t :: NDIRECT < t < SLOTS ==> t in done
    ensures var ind := r.inodes[i].addrs[NDIRECT];
      && 0 < ind < |r.blocks| && Bit(r.bitmap, ind)
      && Emptied(a, Free(r, i, NDIRECT), i, done + {NDIRECT})
  {
    var ind := a.inodes[i].addrs[NDIRECT];
    assert SlotAddr(v, i, NDIRECT) == ind;
    EmptiedFree(a, v, i, done, NDIRECT);
    var w := Free(v, i, NDIRECT);
    var data := a.blocks[ind];
    UnownedBlock(w, ind, data);
    var x := w.(blocks := w.blocks[ind := data]);
    assert w.blocks[ind := data] == a.blocks;
    assert x == Free(r, i, NDIRECT);
  }

  /** Without an indirect block there are no entries to free. */
  lemma NoIndirect(a: Fs, b: Fs, i: nat, done: set<nat>) returns (all: set<nat>)
    requires Emptied(a, b, i, done) && b.inodes[i].addrs[NDIRECT] == 0
    requires forall t :: t in done <==> 0 <= t < NDIRECT
    ensures Emptied(a, b, i, all) && forall t :: 0 <= t < SLOTS ==> t in all
  {
    all := done;
    var s := NDIRECT;
    while s < SLOTS
      invariant NDIRECT <= s <= SLOTS && Emptied(a, b, i, all)
      invariant forall t :: t in all <==> 0 <= t < s
    {
      EmptiedSkip(a, b, i, all, s);
      all := all + {s};
      s := s + 1;
    }
  }

  /** With the size set to 0 as well, the file system is consistent again. */
  lemma TruncDone(a: Fs, b: Fs, i: nat, done: set<nat>)
    requires Inv(a) && Emptied(a, b, i, done) && forall t :: 0 <= t < SLOTS ==> t in done
    ensures var c := b.(inodes := b.inodes[i := b.inodes[i].(size := 0)]);
      && Inv(c) && Content(c, i) == []
      && (forall t :: 0 <= t < SLOTS ==> SlotAddr(c, i, t) == 0)
      && (forall j :: 0 <= j < |a.inodes| && j != i ==> Content(c, j) == Content(a, j))
      && (forall x :: 0 <= x < |a.blocks| ==>
           (Bit(c.bitmap, x) <==> Bit(a.bitmap, x) && !(x in a.owner && a.owner[x].0 == i)))
  {
    EmptiedAll(a, b, i, done);
    var c := b.(inodes := b.inodes[i := b.inodes[i].(size := 0)]);
    SameAddrs(b, c);
    forall j | 0 <= j < |a.inodes| && j != i
      ensures NoHoles(c, j, c.inodes[j].size) && Bytes(c, j, c.inodes[j].size) == Content(a, j)
    {
      EmptiedOthers(a, b, i, done, j, a.inodes[j].size);
      SameAddrsBytes(b, c, j, a.inodes[j].size);
    }
  }
}
