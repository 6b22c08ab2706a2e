/** The Kernighan and Ritchie allocator of user/umalloc.c.  Addresses and sizes are counted in units of
    sizeof(Header); every block starts with its header. */
module Umalloc {
  import opened Basics
  import opened Break

  datatype Block = Block(size: nat, free: bool)

  /** The headers in memory, the list of free blocks they form (starting from the header `base`, which
      has no memory), the blocks memory is divided into, and the units obtained from sbrk() so far. */
  datatype Heap = Heap(base: nat, ptr: map<nat, nat>, size: map<nat, nat>, list: seq<nat>, blocks: map<nat, Block>,
    units: set<nat>)

  // ---------------------------------------------------------------- the free list

  function After(list: seq<nat>, i: nat, base: nat): nat
    requires i < |list|
  {
    if i + 1 < |list| then list[i + 1] else base
  }

  predicate Sorted(list: seq<nat>)
  {
    forall i, j :: 0 <= i < j < |list| ==> list[i] < list[j]
  }

  /** The i-th block points at the next one, which does not start before the block ends. */
  ghost predicate LinkOk(h: Heap, i: nat)
    requires i < |h.list|
  {
    var a := h.list[i];
    && a in h.ptr && a in h.size && h.ptr[a] == After(h.list, i, h.base)
    && (i + 1 < |h.list| ==> a + h.size[a] <= h.list[i + 1])
  }

  /** The i-th block and the next do not touch. */
  ghost predicate Apart(h: Heap, i: nat)
    requires i + 1 < |h.list|
  {
    h.list[i] in h.size && h.list[i] + h.size[h.list[i]] < h.list[i + 1]
  }

  /** A circular list in address order that wraps once, at base. */
  ghost predicate Listed(h: Heap)
  {
    && |h.list| > 0 && h.list[0] == h.base && Sorted(h.list) && (forall i :: 0 <= i < |h.list| ==> LinkOk(h, i))
    && h.base in h.size && h.size[h.base] == 0
  }

  // ---------------------------------------------------------------- the blocks

  predicate Covers(blocks: map<nat, Block>, a: nat, x: nat)
  {
    a in blocks && a <= x < a + blocks[a].size
  }

  ghost predicate Disjoint(blocks: map<nat, Block>)
  {
    forall a, b :: a in blocks && b in blocks && a < b ==> a + blocks[a].size <= b
  }

  /** Every unit obtained from sbrk() is in a block, and blocks have no other units. */
  ghost predicate Tiles(blocks: map<nat, Block>, units: set<nat>)
  {
    && (forall a, x :: Covers(blocks, a, x) ==> x in units)
    && (forall x :: x in units ==> exists a :: Covers(blocks, a, x))
  }

  ghost predicate BlocksOk(h: Heap)
  {
    && (forall a :: a in h.blocks ==>
      a > h.base && h.blocks[a].size > 0 && a in h.size && h.size[a] == h.blocks[a].size)
    && (forall a :: a in h.blocks && h.blocks[a].free <==> a in h.list && a != h.base)
    && Disjoint(h.blocks) && Tiles(h.blocks, h.units)
  }

  /** In order, and fully coalesced: no two free blocks touch. */
  ghost predicate Valid(h: Heap)
  {
    Listed(h) && BlocksOk(h) && forall i :: 0 <= i < |h.list| - 1 ==> Apart(h, i)
  }

  // ---------------------------------------------------------------- lists

  function RemoveAt(list: seq<nat>, k: nat): seq<nat>
    requires k < |list|
  {
    list[..k] + list[k + 1..]
  }

  function InsertAt(list: seq<nat>, k: nat, x: nat): seq<nat>
    requires k <= |list|
  {
    list[..k] + [x] + list[k..]
  }

  lemma RemoveAtIs(list: seq<nat>, k: nat)
    requires k < |list|
    ensures var l := RemoveAt(list, k);
      |l| == |list| - 1 && (forall i :: 0 <= i < k ==> l[i] == list[i])
        && (forall i :: k <= i < |l| ==> l[i] == list[i + 1])
    ensures Sorted(list) ==> Sorted(RemoveAt(list, k)) && forall x :: x in RemoveAt(list, k) <==>
      x in list && x != list[k]
  {
    var l := RemoveAt(list, k);
    if Sorted(list) {
      forall x ensures x in l <==> x in list && x != list[k] {
        if x in l {
          var i :| 0 <= i < |l| && l[i] == x;
          assert list[if i < k then i else i + 1] == x;
        }
        if x in list && x != list[k] {
          var i :| 0 <= i < |list| && list[i] == x;
          assert l[if i < k then i else i - 1] == x;
        }
      }
    }
  }

  /** Element i of the longer list. */
  lemma InsertAtIs(list: seq<nat>, k: nat, x: nat, i: nat)
    requires k <= |list| && i <= |list|
    ensures |InsertAt(list, k, x)| == |list| + 1
    ensures InsertAt(list, k, x)[i] == if i < k then list[i] else if i == k then x else list[i - 1]
  {
  }

  lemma InsertAtMembers(list: seq<nat>, k: nat, x: nat)
    requires k <= |list|
    ensures forall y :: y in InsertAt(list, k, x) <==> y in list || y == x
  {
    assert list == list[..k] + list[k..];
  }

  lemma InsertAtSorted(list: seq<nat>, k: nat, x: nat)
    requires k <= |list| && Sorted(list) && (k > 0 ==> list[k - 1] < x) && (k < |list| ==> x < list[k])
    ensures Sorted(InsertAt(list, k, x))
  {
    var l := InsertAt(list, k, x);
    forall i, j | 0 <= i < j < |l| ensures l[i] < l[j] {
      InsertAtIs(list, k, x, i);
      InsertAtIs(list, k, x, j);
    }
  }

  // ---------------------------------------------------------------- merging, splitting and adding blocks

  /** Block b, which follows a directly, becomes part of a. */
  function Merged(blocks: map<nat, Block>, a: nat, b: nat): map<nat, Block>
    requires a in blocks && b in blocks
  {
    (blocks - {b})[a := Block(blocks[a].size + blocks[b].size, true)]
  }

  lemma MergedKeeps(blocks: map<nat, Block>, units: set<nat>, a: nat, b: nat)
    requires a in blocks && b in blocks && a + blocks[a].size == b && blocks[a].size > 0 && Disjoint(blocks)
    requires Tiles(blocks, units)
    ensures Disjoint(Merged(blocks, a, b)) && Tiles(Merged(blocks, a, b), units)
  {
    var m := Merged(blocks, a, b);
    forall c, x | Covers(m, c, x) ensures x in units {
      assert Covers(blocks, c, x) || Covers(blocks, b, x);
    }
    forall x | x in units ensures exists c :: Covers(m, c, x) {
      var c :| Covers(blocks, c, x);
      assert Covers(m, if c == b then a else c, x);
    }
  }

  /** The last n units of free block a become a block of their own, in use. */
  function Split(blocks: map<nat, Block>, a: nat, n: nat): map<nat, Block>
    requires a in blocks && n < blocks[a].size
  {
    blocks[a := Block(blocks[a].size - n, true)][a + (blocks[a].size - n) := Block(n, false)]
  }

  lemma SplitKeeps(blocks: map<nat, Block>, units: set<nat>, a: nat, n: nat)
    requires a in blocks && 0 < n < blocks[a].size && Disjoint(blocks) && Tiles(blocks, units)
    requires forall b :: b in blocks ==> blocks[b].size > 0
    ensures Disjoint(Split(blocks, a, n)) && Tiles(Split(blocks, a, n), units) && a + (blocks[a].size - n) !in blocks
  {
    var m, q := Split(blocks, a, n), a + (blocks[a].size - n);
    assert q !in blocks;
    forall c, x | Covers(m, c, x) ensures x in units {
      assert Covers(blocks, if c == q then a else c, x);
    }
    forall x | x in units ensures exists c :: Covers(m, c, x) {
      var c: nat :| Covers(blocks, c, x);
      var d: nat := if c == a && x >= q then q else c;
      assert Covers(m, d, x);
    }
  }

  function Mark(blocks: map<nat, Block>, a: nat, free: bool): map<nat, Block>
    requires a in blocks
  {
    blocks[a := Block(blocks[a].size, free)]
  }

  lemma MarkKeeps(blocks: map<nat, Block>, units: set<nat>, a: nat, free: bool)
    requires a in blocks && Disjoint(blocks) && Tiles(blocks, units)
    ensures Disjoint(Mark(blocks, a, free)) && Tiles(Mark(blocks, a, free), units)
  {
    var m := Mark(blocks, a, free);
    forall c, x | Covers(m, c, x) ensures x in units {
      assert Covers(blocks, c, x);
    }
    forall x | x in units ensures exists c :: Covers(m, c, x) {
      var c :| Covers(blocks, c, x);
      assert Covers(m, c, x);
    }
  }

  /** The n units from a on. */
  function Range(a: nat, n: nat): set<nat>
  {
    if n == 0 then {} else Range(a, n - 1) + {a + n - 1}
  }

  lemma {:induction false} InRange(a: nat, n: nat, x: nat)
    ensures x in Range(a, n) <==> a <= x < a + n
  {
    if n > 0 {
      InRange(a, n - 1, x);
    }
  }

  lemma AddedKeeps(blocks: map<nat, Block>, units: set<nat>, a: nat, n: nat)
    requires a !in blocks && n > 0 && Disjoint(blocks) && Tiles(blocks, units) && forall b :: b in blocks ==>
      b + blocks[b].size <= a
    requires forall b :: b in blocks ==> blocks[b].size > 0
    ensures Disjoint(blocks[a := Block(n, false)]) && Tiles(blocks[a := Block(n, false)], units + Range(a, n))
  {
    var m := blocks[a := Block(n, false)];
    forall c, x | Covers(m, c, x) ensures x in units + Range(a, n) {
      InRange(a, n, x);
      assert c != a ==> Covers(blocks, c, x);
    }
    forall x | x in units + Range(a, n) ensures exists c :: Covers(m, c, x) {
      InRange(a, n, x);
      if x in units {
        var c :| Covers(blocks, c, x);
        assert Covers(m, c, x);
      } else {
        assert Covers(m, a, x);
      }
    }
  }

  // ---------------------------------------------------------------- the steps of malloc() and free()

  /** Is it a list and blocks that go together, perhaps with free blocks that touch? */
  ghost predicate Loose(h: Heap) { Listed(h) && BlocksOk(h) }

  /** Block bp, in use, is linked in after the t-th free block. */
  function Inserted(h: Heap, t: nat, bp: nat): Heap
    requires t < |h.list| && bp in h.blocks
  {
    h.(ptr := h.ptr[bp := After(h.list, t, h.base)][h.list[t] := bp], list := InsertAt(h.list, t + 1, bp),
      blocks := Mark(h.blocks, bp, true))
  }

  ghost predicate CanInsert(h: Heap, t: nat, bp: nat)
  {
    && Loose(h) && bp in h.blocks && !h.blocks[bp].free
    && t < |h.list| && h.list[t] < bp && (t + 1 < |h.list| ==> bp < h.list[t + 1])
  }

  lemma BlockOrBase(h: Heap, i: nat)
    requires Loose(h) && i < |h.list|
    ensures h.list[i] == h.base
      || (h.list[i] in h.blocks && h.blocks[h.list[i]].free && h.size[h.list[i]] == h.blocks[h.list[i]].size)
    ensures i > 0 ==> h.list[i] != h.base
  {
    assert h.list[i] in h.list;
  }

  /** A place in the list that does not change. */
  lemma InsertedFar(h: Heap, t: nat, bp: nat, i: nat, k: nat)
    requires t < |h.list| && bp in h.blocks && i <= |h.list| && i != t && i != t + 1
    requires |InsertAt(h.list, t + 1, bp)| == |h.list| + 1
    requires k == (if i < t then i else i - 1) && LinkOk(h, k) && h.list[k] != h.list[t] && h.list[k] != bp
    ensures LinkOk(Inserted(h, t, bp), i)
  {
    var g := Inserted(h, t, bp);
    InsertAtIs(h.list, t + 1, bp, i);
    if k + 1 < |h.list| {
      InsertAtIs(h.list, t + 1, bp, i + 1);
    }
    assert After(g.list, i, h.base) == After(h.list, k, h.base);
  }

  /** The two places that do. */
  lemma InsertedNear(h: Heap, t: nat, bp: nat)
    requires CanInsert(h, t, bp) && |InsertAt(h.list, t + 1, bp)| == |h.list| + 1
    ensures LinkOk(Inserted(h, t, bp), t) && LinkOk(Inserted(h, t, bp), t + 1)
  {
    assert LinkOk(h, t);
    BlockOrBase(h, t);
    InsertAtIs(h.list, t + 1, bp, t);
    InsertAtIs(h.list, t + 1, bp, t + 1);
    if t + 1 < |h.list| {
      BlockOrBase(h, t + 1);
      InsertAtIs(h.list, t + 1, bp, t + 2);
    }
  }

  lemma InsertedBlocks(h: Heap, t: nat, bp: nat)
    requires CanInsert(h, t, bp)
    ensures BlocksOk(Inserted(h, t, bp))
  {
    InsertAtMembers(h.list, t + 1, bp);
    MarkKeeps(h.blocks, h.units, bp, true);
  }

  lemma InsertedKeeps(h: Heap, t: nat, bp: nat)
    requires CanInsert(h, t, bp)
    ensures Loose(Inserted(h, t, bp))
  {
    var g := Inserted(h, t, bp);
    InsertAtIs(h.list, t + 1, bp, 0);
    InsertAtSorted(h.list, t + 1, bp);
    InsertedBlocks(h, t, bp);
    hide LinkOk;
    forall i | 0 <= i < |g.list| ensures LinkOk(g, i) {
      InsertedLink(h, t, bp, i);
    }
  }

  lemma InsertedLink(h: Heap, t: nat, bp: nat, i: nat)
    requires CanInsert(h, t, bp) && i < |Inserted(h, t, bp).list|
    ensures LinkOk(Inserted(h, t, bp), i)
  {
    InsertAtIs(h.list, t + 1, bp, 0);
    if i == t || i == t + 1 {
      InsertedNear(h, t, bp);
    } else {
      var k := if i < t then i else i - 1;
      assert LinkOk(h, k) && h.list[k] in h.list;
      InsertedFar(h, t, bp, i, k);
    }
  }

  lemma InsertedApart(h: Heap, t: nat, bp: nat, i: nat)
    requires t < |h.list| && bp in h.blocks && i < |h.list| && i != t && i != t + 1
    requires |InsertAt(h.list, t + 1, bp)| == |h.list| + 1
    ensures (if i < t then i else i - 1) + 1 < |h.list|
    ensures (Apart(Inserted(h, t, bp), i) <==> Apart(h, if i < t then i else i - 1))
  {
    InsertAtIs(h.list, t + 1, bp, i);
    InsertAtIs(h.list, t + 1, bp, i + 1);
  }

  /** The block after the i-th, which it touches, becomes part of it. */
  function Joined(h: Heap, i: nat): Heap
    requires i + 1 < |h.list| && h.list[i] in h.size && h.list[i + 1] in h.size && h.list[i + 1] in h.ptr
    requires h.list[i] in h.blocks && h.list[i + 1] in h.blocks
  {
    var a, b := h.list[i], h.list[i + 1];
    h.(ptr := h.ptr[a := h.ptr[b]], size := h.size[a := h.size[a] + h.size[b]], list := RemoveAt(h.list, i + 1),
      blocks := Merged(h.blocks, a, b))
  }

  ghost predicate CanJoin(h: Heap, i: nat)
  {
    && Loose(h) && i + 1 < |h.list| && h.list[i] in h.size && h.list[i + 1] in h.size && h.list[i + 1] in h.ptr
    && h.list[i] in h.blocks && h.list[i + 1] in h.blocks && h.list[i] + h.size[h.list[i]] == h.list[i + 1]
  }

  lemma JoinedLink(h: Heap, i: nat, j: nat, k: nat)
    requires i + 1 < |h.list| && h.list[i] in h.size && h.list[i + 1] in h.size && h.list[i + 1] in h.ptr
    requires h.list[i] in h.blocks && h.list[i + 1] in h.blocks
    requires Sorted(h.list) && h.list[i] + h.size[h.list[i]] == h.list[i + 1] && j < |h.list| - 1
    requires |RemoveAt(h.list, i + 1)| == |h.list| - 1
    requires k == (if j <= i then j else j + 1) && LinkOk(h, k) && LinkOk(h, i + 1)
    ensures LinkOk(Joined(h, i), j)
  {
    RemoveAtIs(h.list, i + 1);
    assert j != i ==> h.list[k] != h.list[i];
  }

  lemma JoinedBlocksOk(h: Heap, i: nat)
    requires BlocksOk(h) && i + 1 < |h.list| && h.list[i] in h.size && h.list[i + 1] in h.size && h.list[i + 1] in h.ptr
    requires h.list[i] in h.blocks && h.list[i + 1] in h.blocks && h.blocks[h.list[i]].free
    requires h.list[i] != h.list[i + 1]
    requires Disjoint(Joined(h, i).blocks) && Tiles(Joined(h, i).blocks, h.units)
    requires forall x :: x in Joined(h, i).list <==> x in h.list && x != h.list[i + 1]
    ensures BlocksOk(Joined(h, i))
  {
    hide Disjoint, Tiles, RemoveAt;
    var g, b := Joined(h, i), h.list[i + 1];
    forall c ensures c in g.blocks && g.blocks[c].free <==> c in g.list && c != g.base {
      assert c in g.list <==> c in h.list && c != b;
    }
  }

  lemma JoinedBlocks(h: Heap, i: nat)
    requires CanJoin(h, i)
    ensures BlocksOk(Joined(h, i))
  {
    RemoveAtIs(h.list, i + 1);
    BlockOrBase(h, i);
    BlockOrBase(h, i + 1);
    MergedKeeps(h.blocks, h.units, h.list[i], h.list[i + 1]);
    JoinedBlocksOk(h, i);
  }

  lemma JoinedKeeps(h: Heap, i: nat)
    requires CanJoin(h, i)
    ensures Loose(Joined(h, i))
  {
    var g := Joined(h, i);
    JoinedBlocks(h, i);
    BlockOrBase(h, i);
    hide BlocksOk;
    RemoveAtIs(h.list, i + 1);
    forall j | 0 <= j < |g.list| ensures LinkOk(g, j) {
      JoinedLink(h, i, j, if j <= i then j else j + 1);
    }
  }

  /** Which blocks of the joined list touch. */
  lemma JoinedApart(h: Heap, i: nat, j: nat)
    requires i + 1 < |h.list| && h.list[i] in h.size && h.list[i + 1] in h.size && h.list[i + 1] in h.ptr
    requires h.list[i] in h.blocks && h.list[i + 1] in h.blocks
    requires Sorted(h.list) && h.list[i] + h.size[h.list[i]] == h.list[i + 1] && j < |h.list| - 2
    requires |Joined(h, i).list| == |h.list| - 1
    ensures Apart(Joined(h, i), j) <==> Apart(h, if j < i then j else j + 1)
  {
    RemoveAtIs(h.list, i + 1);
    assert j != i ==> h.list[if j < i then j else j + 1] != h.list[i];
  }

  // free()

  /** free(bp): link bp in, join it with the next block, then with the previous one, where they touch. */
  ghost function Freed(h: Heap, t: nat, bp: nat): Heap
    requires CanInsert(h, t, bp)
  {
    JoinIfTouching(JoinIfTouching(Inserted(h, t, bp), t + 1), t)
  }

  ghost function JoinIfTouching(h: Heap, i: nat): Heap
  {
    if CanJoin(h, i) then Joined(h, i) else h
  }

  /** Only blocks lo to hi may touch the block after them. */
  ghost predicate ApartBut(h: Heap, lo: int, hi: int)
  {
    forall i :: 0 <= i < |h.list| - 1 && !(lo <= i <= hi) ==> Apart(h, i)
  }

  /** Joining settles the last place where blocks may touch. */
  lemma JoinSettles(h: Heap, lo: nat, i: nat)
    requires Loose(h) && lo <= i < |h.list| && ApartBut(h, lo, i)
    ensures var g := JoinIfTouching(h, i); Loose(g) && i < |g.list| && ApartBut(g, lo, i - 1) && g.units == h.units
  {
    var g := JoinIfTouching(h, i);
    if CanJoin(h, i) {
      JoinedKeeps(h, i);
      RemoveAtIs(h.list, i + 1);
      forall j | 0 <= j < |g.list| - 1 && !(lo <= j <= i - 1) ensures Apart(g, j) {
        JoinedApart(h, i, j);
      }
    } else if i + 1 < |h.list| {
      NotTouching(h, i);
    }
  }

  lemma NotTouching(h: Heap, i: nat)
    requires Loose(h) && i + 1 < |h.list| && !CanJoin(h, i)
    ensures Apart(h, i)
  {
    assert LinkOk(h, i) && LinkOk(h, i + 1);
    BlockOrBase(h, i);
    BlockOrBase(h, i + 1);
    assert h.list[i] < h.list[i + 1];
  }

  lemma InsertedSettled(h: Heap, t: nat, bp: nat)
    requires CanInsert(h, t, bp) && Valid(h)
    ensures ApartBut(Inserted(h, t, bp), t, t + 1) && |Inserted(h, t, bp).list| == |h.list| + 1
  {
    var g := Inserted(h, t, bp);
    InsertAtIs(h.list, t + 1, bp, 0);
    forall i | 0 <= i < |g.list| - 1 && !(t <= i <= t + 1) ensures Apart(g, i) {
      InsertedApart(h, t, bp, i);
    }
  }

  /** free() keeps every promise: address order, coalescing, and the same units tiled by blocks. */
  lemma FreedKeeps(h: Heap, t: nat, bp: nat)
    requires CanInsert(h, t, bp) && Valid(h)
    ensures Valid(Freed(h, t, bp)) && Freed(h, t, bp).units == h.units
  {
    hide Loose, CanInsert, ApartBut, Inserted;
    InsertedFacts(h, t, bp);
    InsertedKeeps(h, t, bp);
    InsertedSettled(h, t, bp);
    var g := Inserted(h, t, bp);
    JoinSettles(g, t, t + 1);
    JoinSettles(JoinIfTouching(g, t + 1), t, t);
    AllApart(Freed(h, t, bp), t);
  }

  lemma InsertedFacts(h: Heap, t: nat, bp: nat)
    requires CanInsert(h, t, bp)
    ensures t < |h.list| && bp in h.blocks && Inserted(h, t, bp).units == h.units
  {
  }

  lemma AllApart(h: Heap, t: nat)
    requires Loose(h) && ApartBut(h, t, t - 1)
    ensures Valid(h)
  {
  }

  // malloc()

  ghost predicate CanTake(h: Heap, k: nat, n: nat)
  {
    && Valid(h) && 0 < k < |h.list| && h.list[k] in h.size && h.list[k] in h.ptr && h.list[k] in h.blocks
    && 0 < n <= h.size[h.list[k]] && h.size[h.list[k]] == h.blocks[h.list[k]].size
  }

  /** The k-th free block is taken whole. */
  function Taken(h: Heap, k: nat): Heap
    requires 0 < k < |h.list| && h.list[k] in h.ptr && h.list[k] in h.blocks
  {
    h.(ptr := h.ptr[h.list[k - 1] := h.ptr[h.list[k]]], list := RemoveAt(h.list, k),
      blocks := Mark(h.blocks, h.list[k], false))
  }

  /** The last n units of the k-th free block are taken. */
  function Cut(h: Heap, k: nat, n: nat): Heap
    requires k < |h.list| && h.list[k] in h.size && h.list[k] in h.blocks
    requires n < h.size[h.list[k]] == h.blocks[h.list[k]].size
  {
    var p, left := h.list[k], h.size[h.list[k]] - n;
    h.(size := h.size[p := left][p + left := n], blocks := Split(h.blocks, p, n))
  }

  lemma TakenLink(h: Heap, k: nat, i: nat, j: nat)
    requires 0 < k < |h.list| && h.list[k] in h.ptr && h.list[k] in h.blocks && Sorted(h.list)
    requires i < |h.list| - 1 && |RemoveAt(h.list, k)| == |h.list| - 1 && j == (if i < k then i else i + 1)
    requires LinkOk(h, j) && LinkOk(h, k) && LinkOk(h, k - 1)
    ensures LinkOk(Taken(h, k), i)
  {
    RemoveAtIs(h.list, k);
    assert j != k - 1 ==> h.list[j] != h.list[k - 1];
  }

  lemma TakenApart(h: Heap, k: nat, n: nat, i: nat)
    requires CanTake(h, k, n) && i < |h.list| - 2 && |RemoveAt(h.list, k)| == |h.list| - 1
    ensures Apart(Taken(h, k), i)
  {
    RemoveAtIs(h.list, k);
    assert Apart(h, if i < k then i else i + 1);
    assert i == k - 1 ==> h.list[k] < h.list[k + 1];
  }

  lemma TakenKeeps(h: Heap, k: nat, n: nat)
    requires CanTake(h, k, n)
    ensures Valid(Taken(h, k))
  {
    var g := Taken(h, k);
    RemoveAtIs(h.list, k);
    MarkKeeps(h.blocks, h.units, h.list[k], false);
    forall i | 0 <= i < |g.list| ensures LinkOk(g, i) {
      TakenLink(h, k, i, if i < k then i else i + 1);
    }
    forall i | 0 <= i < |g.list| - 1 ensures Apart(g, i) {
      TakenApart(h, k, n, i);
    }
  }

  lemma CutLink(h: Heap, k: nat, n: nat, i: nat)
    requires CanTake(h, k, n) && n < h.size[h.list[k]] && i < |h.list|
    requires h.list[k] + (h.size[h.list[k]] - n) !in h.blocks
    ensures LinkOk(Cut(h, k, n), i) && (i + 1 < |h.list| ==> Apart(Cut(h, k, n), i))
  {
    assert LinkOk(h, i) && h.list[i] in h.list;
    BlockOrBase(h, k);
    assert i + 1 < |h.list| ==> Apart(h, i);
  }

  lemma CutBlocks(h: Heap, k: nat, n: nat)
    requires CanTake(h, k, n) && n < h.size[h.list[k]]
    ensures BlocksOk(Cut(h, k, n)) && h.list[k] + (h.size[h.list[k]] - n) !in h.blocks
  {
    BlockOrBase(h, k);
    CutBlocksOk(h, k, n);
  }

  /** A block's header after the cut. */
  lemma CutHeader(h: Heap, k: nat, n: nat, a: nat)
    requires k < |h.list| && h.list[k] in h.size && h.list[k] in h.blocks
    requires 0 < n < h.size[h.list[k]] == h.blocks[h.list[k]].size
    requires h.list[k] > h.base && a in Cut(h, k, n).blocks
    requires a in h.blocks ==> a > h.base && h.blocks[a].size > 0 && a in h.size && h.size[a] == h.blocks[a].size
    ensures var g := Cut(h, k, n); a > g.base && g.blocks[a].size > 0 && a in g.size && g.size[a] == g.blocks[a].size
  {
  }

  lemma CutBlocksOk(h: Heap, k: nat, n: nat)
    requires BlocksOk(h) && k < |h.list| && h.list[k] in h.size && h.list[k] in h.blocks
    requires 0 < n < h.size[h.list[k]] == h.blocks[h.list[k]].size
    requires h.blocks[h.list[k]].free
    ensures BlocksOk(Cut(h, k, n)) && h.list[k] + (h.size[h.list[k]] - n) !in h.blocks
  {
    hide Disjoint, Tiles;
    var g, p, q := Cut(h, k, n), h.list[k], h.list[k] + (h.size[h.list[k]] - n);
    SplitKeeps(h.blocks, h.units, p, n);
    forall a | a in g.blocks
      ensures a > g.base && g.blocks[a].size > 0 && a in g.size && g.size[a] == g.blocks[a].size
    {
      CutHeader(h, k, n, a);
    }
    forall a ensures a in g.blocks && g.blocks[a].free <==> a in g.list && a != g.base {
      if a != p && a != q {
        assert a in g.blocks <==> a in h.blocks;
      }
    }
  }

  lemma CutKeeps(h: Heap, k: nat, n: nat)
    requires CanTake(h, k, n) && n < h.size[h.list[k]]
    ensures Valid(Cut(h, k, n)) && h.list[k] + (h.size[h.list[k]] - n) !in h.blocks
  {
    var g := Cut(h, k, n);
    hide BlocksOk, LinkOk, Apart;
    CutBlocks(h, k, n);
    BlockOrBase(h, k);
    forall i | 0 <= i < |g.list| ensures LinkOk(g, i) && (i + 1 < |g.list| ==> Apart(g, i)) {
      CutLink(h, k, n, i);
    }
    CutBase(h, k, n);
  }

  lemma CutBase(h: Heap, k: nat, n: nat)
    requires CanTake(h, k, n) && n < h.size[h.list[k]]
    ensures h.base in Cut(h, k, n).size && Cut(h, k, n).size[h.base] == 0
  {
    BlockOrBase(h, k);
  }

  /** morecore()'s new block, in use until it is freed. */
  function Added(h: Heap, a: nat, n: nat): Heap
  {
    h.(size := h.size[a := n], blocks := h.blocks[a := Block(n, false)], units := h.units + Range(a, n))
  }

  /** sbrk() gives memory above everything so far. */
  ghost predicate Above(h: Heap, a: nat)
  {
    a > h.base && forall b :: b in h.blocks ==> b + h.blocks[b].size <= a
  }

  lemma AddedValid(h: Heap, a: nat, n: nat)
    requires Valid(h) && Above(h, a) && n > 0
    ensures Valid(Added(h, a, n)) && a !in h.blocks
  {
    var g := Added(h, a, n);
    assert a !in h.blocks;
    AddedKeeps(h.blocks, h.units, a, n);
    assert a !in h.list;
    forall i | 0 <= i < |g.list| ensures LinkOk(g, i) && (i + 1 < |g.list| ==> Apart(g, i)) {
      assert LinkOk(h, i) && h.list[i] in h.list;
      assert i + 1 < |h.list| ==> Apart(h, i);
    }
  }

  // ---------------------------------------------------------------- memory in use is left alone

  predicate SameAt(m: map<nat, nat>, m': map<nat, nat>, x: nat)
  {
    (x in m <==> x in m') && (x in m ==> m[x] == m'[x])
  }

  /** Block c is as it was, and nothing was written into it. */
  ghost predicate Untouched(h: Heap, g: Heap, c: nat)
  {
    && c in h.blocks && c in g.blocks && g.blocks[c] == h.blocks[c]
    && forall x :: c <= x < c + h.blocks[c].size ==> SameAt(h.ptr, g.ptr, x) && SameAt(h.size, g.size, x)
  }

  predicate InUse(h: Heap, c: nat) { c in h.blocks && !h.blocks[c].free }

  /** A header outside block c. */
  lemma OutsideBlock(h: Heap, c: nat, a: nat, x: nat)
    requires Loose(h) && c in h.blocks && (a in h.blocks || a == h.base) && a != c && c <= x < c + h.blocks[c].size
    ensures x != a
  {
  }

  lemma InsertedUntouched(h: Heap, t: nat, bp: nat, c: nat)
    requires CanInsert(h, t, bp) && InUse(h, c) && c != bp
    ensures Untouched(h, Inserted(h, t, bp), c)
  {
    var g := Inserted(h, t, bp);
    BlockOrBase(h, t);
    forall x | c <= x < c + h.blocks[c].size ensures SameAt(h.ptr, g.ptr, x) {
      OutsideBlock(h, c, bp, x);
      OutsideBlock(h, c, h.list[t], x);
    }
  }

  lemma JoinedUntouched(h: Heap, i: nat, c: nat)
    requires Loose(h) && InUse(h, c) && i < |h.list|
    ensures Untouched(h, JoinIfTouching(h, i), c)
  {
    if CanJoin(h, i) {
      BlockOrBase(h, i);
      BlockOrBase(h, i + 1);
      var g := Joined(h, i);
      forall x | c <= x < c + h.blocks[c].size ensures SameAt(h.ptr, g.ptr, x) && SameAt(h.size, g.size, x) {
        OutsideBlock(h, c, h.list[i], x);
      }
    }
  }

  lemma UntouchedTwice(h: Heap, g: Heap, f: Heap, c: nat)
    requires Untouched(h, g, c) && Untouched(g, f, c)
    ensures Untouched(h, f, c)
  {
    forall x | c <= x < c + h.blocks[c].size ensures SameAt(h.ptr, f.ptr, x) && SameAt(h.size, f.size, x) {
      assert SameAt(h.ptr, g.ptr, x) && SameAt(h.size, g.size, x);
      assert SameAt(g.ptr, f.ptr, x) && SameAt(g.size, f.size, x);
    }
  }

  lemma StillInUse(h: Heap, g: Heap, c: nat)
    requires Untouched(h, g, c) && InUse(h, c)
    ensures InUse(g, c)
  {
  }

  lemma FreedUntouched(h: Heap, t: nat, bp: nat, c: nat)
    requires CanInsert(h, t, bp) && Valid(h) && InUse(h, c) && c != bp
    ensures Untouched(h, Freed(h, t, bp), c)
  {
    hide Loose, CanInsert, Valid, Untouched, ApartBut, Inserted, InUse, JoinIfTouching;
    InsertedFacts(h, t, bp);
    InsertedKeeps(h, t, bp);
    InsertedSettled(h, t, bp);
    InsertedUntouched(h, t, bp, c);
    var g := Inserted(h, t, bp);
    JoinSettles(g, t, t + 1);
    StillInUse(h, g, c);
    JoinedUntouched(g, t + 1, c);
    var g1 := JoinIfTouching(g, t + 1);
    UntouchedTwice(h, g, g1, c);
    StillInUse(h, g1, c);
    JoinedUntouched(g1, t, c);
    UntouchedTwice(h, g1, JoinIfTouching(g1, t), c);
  }

  lemma TakenUntouched(h: Heap, k: nat, n: nat, c: nat)
    requires CanTake(h, k, n) && InUse(h, c)
    ensures Untouched(h, Taken(h, k), c)
  {
    BlockOrBase(h, k - 1);
    BlockOrBase(h, k);
    var g := Taken(h, k);
    forall x | c <= x < c + h.blocks[c].size ensures SameAt(h.ptr, g.ptr, x) {
      OutsideBlock(h, c, h.list[k - 1], x);
    }
  }

  lemma CutUntouched(h: Heap, k: nat, n: nat, c: nat)
    requires CanTake(h, k, n) && n < h.size[h.list[k]] && InUse(h, c)
    ensures Untouched(h, Cut(h, k, n), c)
  {
    BlockOrBase(h, k);
    CutSpares(h, k, n, c);
  }

  lemma CutSpares(h: Heap, k: nat, n: nat, c: nat)
    requires k < |h.list| && h.list[k] in h.size && h.list[k] in h.blocks
    requires 0 < n < h.size[h.list[k]] == h.blocks[h.list[k]].size
    requires Disjoint(h.blocks) && InUse(h, c) && h.blocks[h.list[k]].free && h.blocks[c].size > 0
    ensures Untouched(h, Cut(h, k, n), c)
  {
    var p := h.list[k];
    assert c + h.blocks[c].size <= p || p + h.blocks[p].size <= c;
  }

  lemma AddedUntouched(h: Heap, a: nat, n: nat, c: nat)
    requires Valid(h) && Above(h, a) && InUse(h, c)
    ensures Untouched(h, Added(h, a, n), c)
  {
  }

  // ---------------------------------------------------------------- the headers free() writes

  lemma JoinsNext(h: Heap, t: nat, bp: nat)
    requires CanInsert(h, t, bp) && |Inserted(h, t, bp).list| == |h.list| + 1 && bp in h.size
    ensures CanJoin(Inserted(h, t, bp), t + 1) <==> bp + h.size[bp] == After(h.list, t, h.base)
    ensures Inserted(h, t, bp).list[t] == h.list[t] && Inserted(h, t, bp).list[t + 1] == bp
    ensures t + 1 < |h.list| ==> Inserted(h, t, bp).list[t + 2] == h.list[t + 1]
  {
    var g := Inserted(h, t, bp);
    InsertAtIs(h.list, t + 1, bp, t);
    InsertAtIs(h.list, t + 1, bp, t + 1);
    InsertedKeeps(h, t, bp);
    if t + 1 < |h.list| {
      InsertAtIs(h.list, t + 1, bp, t + 2);
      BlockOrBase(g, t + 2);
      assert LinkOk(g, t + 2);
    }
  }

  /** Joining at i changes nothing before i, and only lengthens the i-th block. */
  lemma JoinedAt(f: Heap, i: nat)
    requires Loose(f) && 0 < i < |f.list| && f.list[i] in f.blocks
    ensures var g := JoinIfTouching(f, i);
      && Loose(g) && i < |g.list| && g.list[i - 1] == f.list[i - 1] && g.list[i] == f.list[i] && g.base == f.base
      && f.list[i] in g.blocks
      && f.list[i - 1] in g.size && f.list[i - 1] in f.size && g.size[f.list[i - 1]] == f.size[f.list[i - 1]]
      && f.list[i] in f.size && f.list[i] in g.size && f.list[i] in g.ptr && g.size[f.list[i]] >= f.size[f.list[i]]
  {
    assert LinkOk(f, i - 1) && LinkOk(f, i);
    assert f.list[i - 1] < f.list[i];
    if CanJoin(f, i) {
      JoinedKeeps(f, i);
      RemoveAtIs(f.list, i + 1);
    }
  }

  /** After joining with the next block, the block is still bp, just longer. */
  lemma NextJoined(h: Heap, t: nat, bp: nat)
    requires CanInsert(h, t, bp) && |Inserted(h, t, bp).list| == |h.list| + 1 && bp in h.size && h.list[t] in h.size
    ensures var g := JoinIfTouching(Inserted(h, t, bp), t + 1);
      && Loose(g) && t + 1 < |g.list| && g.list[t] == h.list[t] && g.list[t + 1] == bp && g.base == h.base
      && bp in g.blocks
      && h.list[t] in g.size && g.size[h.list[t]] == h.size[h.list[t]] && bp in g.size && bp in g.ptr
      && g.size[bp] >= h.size[bp]
  {
    hide Loose, JoinIfTouching;
    InsertedKeeps(h, t, bp);
    JoinsNext(h, t, bp);
    JoinedAt(Inserted(h, t, bp), t + 1);
  }

  lemma JoinsPrev(g: Heap, t: nat, bp: nat)
    requires Loose(g) && t + 1 < |g.list| && g.list[t + 1] == bp && bp in g.blocks && g.list[t] in g.size
    requires bp in g.size && bp in g.ptr
    ensures CanJoin(g, t) <==> g.list[t] + g.size[g.list[t]] == bp
  {
    BlockOrBase(g, t);
    BlockOrBase(g, t + 1);
  }

  /** The list freep points into, and room for what was freed. */
  lemma PrevJoined(g: Heap, t: nat, bp: nat)
    requires Loose(g) && t + 1 < |g.list| && g.list[t + 1] == bp && bp in g.blocks && g.list[t] in g.size
    requires bp in g.size && bp in g.ptr
    ensures var f := JoinIfTouching(g, t);
      && t < |f.list| && f.list[t] == g.list[t] && exists a :: a in f.list && a in f.size && f.size[a] >= g.size[bp]
  {
    if CanJoin(g, t) {
      RemoveAtIs(g.list, t + 1);
      var f := Joined(g, t);
      assert f.list[t] in f.list && f.size[f.list[t]] >= g.size[bp];
    } else {
      assert g.list[t + 1] in g.list;
    }
  }

  /** Place in the list of an address above base. */
  function PlaceOf(list: seq<nat>, x: nat, n: nat): (t: nat)
    requires 0 < n <= |list| && Sorted(list) && list[0] < x && (n < |list| ==> x < list[n])
    ensures t < n && list[t] < x && (t + 1 < |list| ==> x <= list[t + 1])
  {
    if list[n - 1] < x then n - 1 else
      if list[n - 1] == x then n - 2 else PlaceOf(list, x, n - 1)
  }

  /** free()'s two tests hold at just that place. */
  lemma StopsAt(list: seq<nat>, base: nat, bp: nat, t: nat, i: nat)
    requires t < |list| && i < |list| && Sorted(list) && list[0] == base && list[t] < bp
    requires (t + 1 < |list| ==> bp < list[t + 1])
    ensures var p, q := list[i], After(list, i, base);
      (bp > p && bp < q) || (p >= q && (bp > p || bp < q)) <==> i == t
  {
    assert i > 0 ==> list[0] < list[i];
    assert t > 0 ==> list[0] < list[t];
  }

  /** Steps from place i forward, around the list, to place t. */
  function Distance(i: nat, t: nat, n: nat): nat
    requires i < n && t < n
  {
    if i <= t then t - i else t + n - i
  }

  function Onward(i: nat, n: nat): nat { if i + 1 < n then i + 1 else 0 }

  lemma NextFacts(h: Heap, t: nat, bp: nat)
    requires CanInsert(h, t, bp)
    ensures t < |h.list| && bp in h.blocks && |Inserted(h, t, bp).list| == |h.list| + 1 && bp in h.size
    ensures CanJoin(Inserted(h, t, bp), t + 1) <==> bp + h.size[bp] == After(h.list, t, h.base)
    ensures Inserted(h, t, bp).list[t] == h.list[t] && Inserted(h, t, bp).list[t + 1] == bp && h.list[t] != bp
    ensures t + 1 < |h.list| ==>
      Inserted(h, t, bp).list[t + 2] == h.list[t + 1] && h.list[t + 1] != bp && h.list[t + 1] != h.list[t]
    ensures CanJoin(Inserted(h, t, bp), t + 1) ==> t + 1 < |h.list|
    ensures t + 1 == |h.list| ==> bp + h.size[bp] != h.base
  {
    InsertAtIs(h.list, t + 1, bp, 0);
    JoinsNext(h, t, bp);
  }

  lemma PrevOther(g: Heap, t: nat)
    requires Loose(g) && t + 1 < |g.list|
    ensures g.list[t] != g.list[t + 1]
    ensures CanJoin(g, t) ==>
      && g.list[t] in g.size && g.list[t + 1] in g.size && g.list[t + 1] in g.ptr
      && g.list[t] in g.blocks && g.list[t + 1] in g.blocks
  {
  }

  lemma FreeFacts(h: Heap, t: nat, bp: nat)
    requires CanInsert(h, t, bp) && Valid(h)
    ensures t < |h.list| && bp in h.blocks && |Inserted(h, t, bp).list| == |h.list| + 1 && bp in h.size
    ensures h.size[bp] == h.blocks[bp].size
    ensures h.list[t] in h.size && h.list[t] in h.ptr && h.ptr[h.list[t]] == After(h.list, t, h.base)
    ensures t + 1 < |h.list| ==> h.list[t + 1] in h.size && h.list[t + 1] in h.ptr
  {
    InsertAtIs(h.list, t + 1, bp, 0);
    assert LinkOk(h, t);
    assert t + 1 < |h.list| ==> LinkOk(h, t + 1);
  }

  lemma FreedFrame(h: Heap, t: nat, bp: nat)
    requires CanInsert(h, t, bp)
    ensures Freed(h, t, bp).base == h.base && Freed(h, t, bp).units == h.units
  {
  }

  lemma JoinedInUse(h: Heap, i: nat, c: nat)
    requires InUse(JoinIfTouching(h, i), c)
    ensures InUse(h, c)
  {
  }

  /** Only bp goes out of use. */
  lemma FreedInUse(h: Heap, t: nat, bp: nat, c: nat)
    requires CanInsert(h, t, bp) && InUse(Freed(h, t, bp), c)
    ensures InUse(h, c) && c != bp
  {
    hide JoinIfTouching, CanInsert, Inserted, InUse;
    InsertedFacts(h, t, bp);
    var g := JoinIfTouching(Inserted(h, t, bp), t + 1);
    JoinedInUse(g, t, c);
    JoinedInUse(Inserted(h, t, bp), t + 1, c);
    InsertedInUse(h, t, bp, c);
  }

  lemma InsertedInUse(h: Heap, t: nat, bp: nat, c: nat)
    requires CanInsert(h, t, bp) && InUse(Inserted(h, t, bp), c)
    ensures InUse(h, c) && c != bp
  {
  }

  /** What free() leaves: everything in order, bp out of use, all other blocks in use left alone, and
      a free block at least as large as bp was. */
  ghost predicate FreedWell(h: Heap, g: Heap, bp: nat)
  {
    && Valid(g) && g.base == h.base && g.units == h.units && bp in h.blocks
    && (forall c :: InUse(h, c) && c != bp ==> Untouched(h, g, c))
    && (forall c :: InUse(g, c) ==> InUse(h, c) && c != bp)
    && exists a :: a in g.list && a in g.size && g.size[a] >= h.blocks[bp].size
  }

  lemma FreedValid(h: Heap, g: Heap, bp: nat)
    requires FreedWell(h, g, bp)
    ensures Valid(g)
  {
  }

  lemma FreeSummary(h: Heap, t: nat, bp: nat)
    requires CanInsert(h, t, bp) && Valid(h) && t < |h.list|
    ensures FreedWell(h, Freed(h, t, bp), bp) && t < |Freed(h, t, bp).list| && Freed(h, t, bp).list[t] == h.list[t]
  {
    hide Valid, Loose, JoinIfTouching, InUse, CanInsert, Inserted;
    FreeFacts(h, t, bp);
    FreedKeeps(h, t, bp);
    NextJoined(h, t, bp);
    PrevJoined(JoinIfTouching(Inserted(h, t, bp), t + 1), t, bp);
    FreedFrame(h, t, bp);
    forall c | InUse(h, c) && c != bp ensures Untouched(h, Freed(h, t, bp), c) {
      FreedUntouched(h, t, bp, c);
    }
    forall c | InUse(Freed(h, t, bp), c) ensures InUse(h, c) && c != bp {
      FreedInUse(h, t, bp, c);
    }
  }

  /** The units malloc(nbytes) takes: the bytes, rounded up, and a header. */
  function Units(nbytes: nat): (n: nat)
    ensures n >= 1 && (n - 1) * 16 >= nbytes
  {
    (nbytes + 15) / 16 + 1
  }

  function Back(k: nat, n: nat): nat
    requires k < n
  {
    if k == 0 then n - 1 else k - 1
  }

  /** What malloc() has looked at and found too small, at place k of a round that ends at f. */
  ghost predicate TooSmall(h: Heap, f: nat, k: nat, n: nat)
    requires f < |h.list| && k < |h.list|
  {
    forall i :: 0 <= i < |h.list| && Distance(i, f, |h.list|) > Distance(k, f, |h.list|) ==>
      h.list[i] in h.size && h.size[h.list[i]] < n
  }

  lemma TooSmallNext(h: Heap, f: nat, k: nat, n: nat)
    requires f < |h.list| && k < |h.list| && k != f && TooSmall(h, f, k, n) && h.list[k] in h.size
    requires h.size[h.list[k]] < n
    ensures TooSmall(h, f, Onward(k, |h.list|), n)
    ensures Distance(Onward(k, |h.list|), f, |h.list|) < Distance(k, f, |h.list|)
  {
  }

  lemma AllTooSmall(h: Heap, f: nat, n: nat)
    requires f < |h.list| && TooSmall(h, f, f, n) && h.list[f] in h.size && h.size[h.list[f]] < n
    ensures forall a :: a in h.list ==> a in h.size && h.size[a] < n
  {
    forall a | a in h.list ensures a in h.size && h.size[a] < n {
      var i :| 0 <= i < |h.list| && h.list[i] == a;
      assert i != f ==> Distance(i, f, |h.list|) > 0;
    }
  }

  /** morecore() asks for 4096 units at least. */
  function Request(nu: nat): nat { if nu < 4096 then 4096 else nu }

  /** The same blocks are in use, and nothing was written into them. */
  ghost predicate KeptInUse(h: Heap, g: Heap)
  {
    (forall c :: InUse(h, c) ==> Untouched(h, g, c)) && (forall c :: InUse(g, c) ==> InUse(h, c))
  }

  lemma KeptSame(h: Heap)
    ensures KeptInUse(h, h)
  {
    forall c | InUse(h, c) ensures Untouched(h, h, c) {
    }
  }

  /** malloc(): block r of n units has come into use, and the blocks in use before are left alone. */
  ghost predicate Allotted(h: Heap, g: Heap, r: nat, n: nat)
  {
    && InUse(g, r) && g.blocks[r].size == n && !InUse(h, r)
    && (forall c :: InUse(h, c) ==> Untouched(h, g, c))
    && (forall c :: InUse(g, c) ==> InUse(h, c) || c == r)
  }

  lemma KeptThenTaken(h: Heap, g: Heap, f: Heap, r: nat, n: nat)
    requires KeptInUse(h, g) && TakenWell(g, f, r, n)
    ensures Allotted(h, f, r, n)
  {
    forall c | InUse(h, c) ensures Untouched(h, f, c) {
      StillInUse(h, g, c);
      UntouchedTwice(h, g, f, c);
    }
  }

  ghost predicate HasRoom(h: Heap, n: nat)
  {
    exists a :: a in h.list && a in h.size && h.size[a] >= n
  }

  lemma Links(h: Heap, k: nat)
    requires Valid(h) && k < |h.list|
    ensures h.list[k] in h.size && h.list[k] in h.ptr && h.ptr[h.list[k]] == After(h.list, k, h.base)
    ensures h.list[0] == h.base
    ensures k > 0 ==> h.list[k] in h.blocks && h.size[h.list[k]] == h.blocks[h.list[k]].size && h.list[k] != h.base
    ensures k == 0 ==> h.size[h.list[k]] == 0
  {
    assert LinkOk(h, k);
    BlockOrBase(h, k);
  }

  lemma SamePlace(h: Heap, i: nat, k: nat)
    requires Valid(h) && i < |h.list| && k < |h.list|
    ensures h.list[i] == h.list[k] <==> i == k
  {
  }

  /** Block r of n units has come into use, and the blocks in use before are left alone. */
  ghost predicate TakenWell(h: Heap, g: Heap, r: nat, n: nat)
  {
    && Valid(g) && g.units == h.units && InUse(g, r) && g.blocks[r].size == n && !InUse(h, r)
    && (forall c :: InUse(h, c) ==> Untouched(h, g, c))
    && (forall c :: InUse(g, c) ==> InUse(h, c) || c == r)
  }

  lemma TakenValid(h: Heap, g: Heap, r: nat, n: nat)
    requires TakenWell(h, g, r, n)
    ensures Valid(g)
  {
  }

  lemma TakenSummary(h: Heap, k: nat, n: nat)
    requires CanTake(h, k, n) && n == h.size[h.list[k]]
    ensures TakenWell(h, Taken(h, k), h.list[k], n) && h.list[k - 1] in Taken(h, k).list
  {
    TakenKeeps(h, k, n);
    BlockOrBase(h, k);
    RemoveAtIs(h.list, k);
    forall c | InUse(h, c) ensures Untouched(h, Taken(h, k), c) {
      TakenUntouched(h, k, n, c);
    }
    assert Taken(h, k).list[k - 1] == h.list[k - 1];
  }

  lemma CutSummary(h: Heap, k: nat, n: nat)
    requires CanTake(h, k, n) && n < h.size[h.list[k]]
    ensures TakenWell(h, Cut(h, k, n), h.list[k] + (h.size[h.list[k]] - n), n)
  {
    hide Valid, Untouched;
    CutKeeps(h, k, n);
    forall c | InUse(h, c) ensures Untouched(h, Cut(h, k, n), c) {
      CutUntouched(h, k, n, c);
    }
  }

  /** The first call changes nothing that is in use, and finds no room. */
  lemma StartedKept(h: Heap, g: Heap, n: nat)
    requires g.blocks == h.blocks && n > 0
    requires (g == h || (h.blocks == map[] && h.list == [] && g.list == [g.base] && g.size == h.size[g.base := 0]))
    ensures KeptInUse(h, g) && (HasRoom(h, n) <==> HasRoom(g, n))
  {
    KeptSame(h);
  }

  lemma RoundStarts(h: Heap, f: nat, n: nat)
    requires f < |h.list|
    ensures TooSmall(h, f, Onward(f, |h.list|), n)
  {
  }

  lemma CanTakeHere(h: Heap, k: nat, n: nat)
    requires Valid(h) && k < |h.list| && h.list[k] in h.size && h.size[h.list[k]] >= n > 0
    ensures CanTake(h, k, n)
  {
    Links(h, k);
  }

  lemma NoRoom(h: Heap, f: nat, n: nat)
    requires f < |h.list| && TooSmall(h, f, f, n) && h.list[f] in h.size && h.size[h.list[f]] < n
    ensures !HasRoom(h, n)
  {
    AllTooSmall(h, f, n);
  }

  lemma KeptTwice(h: Heap, g: Heap, f: Heap)
    requires KeptInUse(h, g) && KeptInUse(g, f)
    ensures KeptInUse(h, f)
  {
    forall c | InUse(h, c) ensures Untouched(h, f, c) {
      StillInUse(h, g, c);
      UntouchedTwice(h, g, f, c);
    }
  }

  // ---------------------------------------------------------------- sbrk()

  /** The int that morecore(nu) passes to sbrk(). */
  function SbrkArg(nu: nat): int { Int32(Request(nu) * 16) }

  lemma ArgIsWhole(nu: nat)
    ensures SbrkArg(nu) % 16 == 0
  {
  }

  /** The units the allocator has after sbrk(n) at break b: n bytes more, or what a shrinking break leaves. */
  ghost function Given(mem: set<nat>, b: nat, n: int, ok: bool): set<nat>
  {
    if !ok then mem
    else if n > 0 then mem + Range(b, n / 16)
    else set x | x in mem && 16 * x < NewSize(16 * b, n, true)
  }

  lemma NotGiven(mem: set<nat>, b: nat, n: int)
    ensures Given(mem, b, n, false) == mem
  {
  }

  /** Nothing the allocator has is above the break. */
  lemma BreakAbove(h: Heap, units: set<nat>, b: nat)
    requires Valid(h) && h.units == units && h.base < b && forall x :: x in units ==> x < b
    ensures Above(h, b)
  {
    forall a | a in h.blocks ensures a + h.blocks[a].size <= b {
      assert Covers(h.blocks, a, a + h.blocks[a].size - 1);
    }
  }

  lemma AddedBlock(h: Heap, a: nat, n: nat)
    requires Valid(h) && Above(h, a) && n > 0
    ensures var g := Added(h, a, n); a in g.blocks && !g.blocks[a].free && (forall x :: x in h.list ==> x in g.list)
  {
  }

  lemma AddedThenFreed(h: Heap, g: Heap, f: Heap, a: nat, n: nat, nu: nat)
    requires Valid(h) && Above(h, a) && g == Added(h, a, n) && n >= nu && FreedWell(g, f, a)
    ensures KeptInUse(h, f) && HasRoom(f, nu) && f.units == g.units
  {
    forall c | InUse(h, c) ensures Untouched(h, f, c) {
      AddedUntouched(h, a, n, c);
      StillInUse(h, g, c);
      UntouchedTwice(h, g, f, c);
    }
  }

  lemma FoundHere(h: Heap, k: nat, n: nat, p: nat)
    requires k < |h.list| && h.list[k] == p && p in h.size && h.size[p] >= n
    ensures HasRoom(h, n)
  {
  }

  /** The exact condition: what morecore() takes to have got is what sbrk() gave. */
  lemma GivenExactly(mem: set<nat>, b: nat, nu: nat)
    requires 0 < nu <= 0x1000_0001 && forall x :: x in mem ==> x < b
    ensures mem + Range(b, Request(nu)) == Given(mem, b, SbrkArg(nu), true) <==> Request(nu) * 16 < 0x8000_0000
    ensures Request(nu) * 16 < 0x8000_0000 ==> SbrkArg(nu) == Request(nu) * 16
  {
    var q := Request(nu);
    if q * 16 >= 0x8000_0000 {
      var last := b + q - 1;
      InRange(b, q, last);
      if SbrkArg(nu) > 0 {
        InRange(b, SbrkArg(nu) / 16, last);
      }
      assert last in mem + Range(b, q) && last !in Given(mem, b, SbrkArg(nu), true);
    }
  }

  /** And so for the break. */
  lemma SoundExactly(mem: set<nat>, b: nat, nu: nat, mem': set<nat>, b': nat, base: nat)
    requires 0 < nu <= 0x1000_0001 && base < b && forall x :: x in mem ==> x < b
    requires mem' == Given(mem, b, SbrkArg(nu), true) && 16 * b' == NewSize(16 * b, SbrkArg(nu), true)
    ensures mem + Range(b, Request(nu)) == mem' && base < b' && (forall x :: x in mem' ==> x < b') <==>
      Request(nu) * 16 < 0x8000_0000
  {
    GivenExactly(mem, b, nu);
    if Request(nu) * 16 < 0x8000_0000 {
      forall x | x in mem' ensures x < b' {
        InRange(b, Request(nu), x);
      }
    }
  }

  lemma UnitsBound(nbytes: nat)
    requires nbytes < 0x1_0000_0000
    ensures 0 < Units(nbytes) <= 0x1000_0001
  {
  }

  /** The same in bytes: which requests fit, and for which sbrk() can still refuse. */
  lemma FitsExactly(nbytes: nat)
    requires nbytes < 0x1_0000_0000
    ensures Request(Units(nbytes)) * 16 < 0x8000_0000 <==> nbytes <= 0x7FFF_FFE0
    ensures SbrkArg(Units(nbytes)) > 0 <==> nbytes <= 0x7FFF_FFE0 || nbytes >= 0xFFFF_FFF1
  {
    UnitsBound(nbytes);
  }

  /** The allocator's static variables, and the headers in the memory it manages. */
  class Allocator {
    const base: nat
    var freep: Option<nat>
    var ptr: map<nat, nat>
    var size: map<nat, nat>
    var brk: nat
    ghost var list: seq<nat>
    ghost var blocks: map<nat, Block>
    ghost var units: set<nat>
    ghost var mem: set<nat>

    ghost function V(): Heap
      reads this
    {
      Heap(base, ptr, size, list, blocks, units)
    }

    /** Before the first malloc() there is nothing; after it, freep points into a list that is in order. */
    ghost predicate Ok()
      reads this
    {
      if freep.None? then list == [] && blocks == map[] && units == {} else Valid(V()) && freep.value in list
    }

    /** Besides, the blocks tile the memory that sbrk() has given the allocator, below the break. */
    ghost predicate Sound()
      reads this
    {
      Ok() && units == mem && base < brk && forall x :: x in mem ==> x < brk
    }

    constructor (base: nat, brk: nat)
      requires base < brk
      ensures Sound() && freep.None? && this.base == base && this.brk == brk && mem == {}
    {
      this.base, this.brk := base, brk;
      freep, ptr, size := None, map[], map[];
      list, blocks, units, mem := [], map[], {}, {};
    }

    /** sbrk() from elsewhere in the program: k units that are not the allocator's */
    method Elsewhere(k: nat)
      requires Sound()
      modifies `brk
      ensures Sound() && brk == old(brk) + k
    {
      brk := brk + k;
    }

    /** sbrk(n) for whole units, as sys_sbrk() does it; `granted` is whether there is memory to grow into */
    method Sbrk(n: int, granted: bool) returns (p: Option<nat>)
      requires n % 16 == 0
      modifies `brk, `mem
      ensures p == if n > 0 && !granted then None else Some(old(brk))
      ensures 16 * brk == NewSize(16 * old(brk), n, p.Some?) && (p.None? ==> brk == old(brk))
      ensures mem == Given(old(mem), old(brk), n, p.Some?)
    {
      if n > 0 && !granted {
        return None;
      }
      p := Some(brk);
      mem := Given(mem, brk, n, true);
      brk := NewSize(16 * brk, n, true) / 16;
    }

    /** free()'s search, which ends at the one place where bp belongs */
    method Find(bp: nat) returns (p: nat, ghost t: nat)
      requires Ok() && freep.Some? && bp in blocks && !blocks[bp].free
      ensures CanInsert(V(), t, bp) && p == list[t]
    {
      ghost var h, n := V(), |list|;
      assert bp !in list;
      t := PlaceOf(list, bp, n);
      p := freep.value;
      ghost var i: nat :| i < n && list[i] == p;
      while true
        invariant i < n && p == list[i] && t < n
        decreases Distance(i, t, n)
      {
        assert LinkOk(h, i);
        StopsAt(list, base, bp, t, i);
        if bp > p && bp < ptr[p] {
          break;
        }
        if p >= ptr[p] && (bp > p || bp < ptr[p]) {
          break;
        }
        p := ptr[p];
        i := Onward(i, n);
      }
    }

    /** free() joining bp with the block after it, or just pointing at it */
    method LinkNext(p: nat, bp: nat, ghost t: nat)
      requires CanInsert(V(), t, bp) && p == list[t] && p in ptr && bp in size && ptr[p] == After(list, t, base)
      requires t + 1 < |list| ==> list[t + 1] in size && list[t + 1] in ptr
      modifies `ptr, `size
      ensures var g := JoinIfTouching(Inserted(old(V()), t, bp), t + 1);
        size == g.size && ptr[p := bp] == g.ptr && bp in ptr
    {
      hide CanInsert, CanJoin;
      NextFacts(V(), t, bp);
      var q := ptr[p];
      if bp + size[bp] == q {
        size := size[bp := size[bp] + size[q]];
        ptr := ptr[bp := ptr[q]];
      } else {
        ptr := ptr[bp := q];
      }
    }

    /** free() joining bp with the block before it, or pointing that at bp */
    method LinkPrev(p: nat, bp: nat, ghost t: nat, ghost g: Heap)
      requires Loose(g) && t + 1 < |g.list| && g.list[t] == p && g.list[t + 1] == bp && bp in g.blocks && p in g.size
      requires bp in g.size && bp in g.ptr
      requires size == g.size && ptr[p := bp] == g.ptr && bp in ptr
      modifies `ptr, `size
      ensures size == JoinIfTouching(g, t).size && ptr == JoinIfTouching(g, t).ptr
    {
      hide Loose, CanJoin;
      JoinsPrev(g, t, bp);
      PrevOther(g, t);
      if p + size[p] == bp {
        size := size[p := size[p] + size[bp]];
        ptr := ptr[p := ptr[bp]];
      } else {
        ptr := ptr[p := bp];
      }
    }

    /** free() of a block in use */
    method Free(bp: nat)
      requires Ok() && freep.Some? && bp in blocks && !blocks[bp].free
      modifies `ptr, `size, `list, `blocks, `freep
      ensures Ok() && freep.Some? && FreedWell(old(V()), V(), bp)
    {
      hide Valid, Loose, JoinIfTouching, InUse, CanInsert, FreedWell, Inserted;
      ghost var h := V();
      var p;
      ghost var t;
      p, t := Find(bp);
      ghost var g := JoinIfTouching(Inserted(h, t, bp), t + 1);
      FreeFacts(h, t, bp);
      FreeSummary(h, t, bp);
      NextJoined(h, t, bp);
      LinkNext(p, bp, t);
      LinkPrev(p, bp, t, g);
      list := Freed(h, t, bp).list;
      blocks := Freed(h, t, bp).blocks;
      freep := Some(p);
      FreedFrame(h, t, bp);
      assert V() == Freed(h, t, bp);
      FreedValid(h, V(), bp);
    }

    /** morecore(): at least 4096 units asked of sbrk(), whose argument is an int, and put on the free list */
    method Morecore(nu: nat, granted: bool) returns (p: Option<nat>)
      requires Sound() && freep.Some? && nu > 0
      modifies `ptr, `size, `list, `blocks, `freep, `units, `brk, `mem
      ensures Ok() && freep.Some? && KeptInUse(old(V()), V())
      ensures p.None? <==> SbrkArg(nu) > 0 && !granted
      ensures p.None? ==> V() == old(V()) && freep == old(freep) && mem == old(mem) && brk == old(brk)
      ensures p.Some? ==> p == freep && HasRoom(V(), nu) && units == old(units) + Range(old(brk), Request(nu))
      ensures p.Some? ==>
        mem == Given(old(mem), old(brk), SbrkArg(nu), true) && 16 * brk == NewSize(16 * old(brk), SbrkArg(nu), true)
    {
      hide Valid, KeptInUse, HasRoom, Above, FreedWell, InUse, Range, Given, NewSize, SbrkArg;
      ghost var h, a, before := V(), brk, mem;
      var n := Request(nu);
      KeptSame(h);
      BreakAbove(h, units, brk);
      ArgIsWhole(nu);
      p := Sbrk(SbrkArg(nu), granted);
      if p.None? {
        NotGiven(before, a, SbrkArg(nu));
        return None;
      }
      AddedValid(h, a, n);
      size := size[p.value := n];
      blocks := blocks[a := Block(n, false)];
      units := units + Range(a, n);
      ghost var g := V();
      AddedBlock(h, a, n);
      assert g == Added(h, a, n);
      Free(p.value);
      AddedThenFreed(h, g, V(), a, n, nu);
      p := freep;
    }

    /** malloc() taking n units of block p, the k-th of the list */
    method Carve(prevp: nat, p: nat, n: nat, ghost k: nat) returns (r: nat)
      requires CanTake(V(), k, n) && p == list[k] && prevp == list[k - 1]
      modifies `ptr, `size, `list, `blocks, `freep
      ensures Ok() && freep == Some(prevp) && TakenWell(old(V()), V(), r, n)
    {
      hide Valid, TakenWell;
      ghost var h := V();
      if size[p] == n {
        TakenSummary(h, k, n);
        ptr := ptr[prevp := ptr[p]];
        list := RemoveAt(list, k);
        blocks := Mark(blocks, p, false);
        r := p;
        assert V() == Taken(h, k);
      } else {
        CutSummary(h, k, n);
        size := size[p := size[p] - n];
        r := p + size[p];
        size := size[r := n];
        blocks := Split(blocks, p, n);
        assert V() == Cut(h, k, n);
      }
      freep := Some(prevp);
      TakenValid(h, V(), r, n);
    }

    /** malloc() on first use: the list is base alone */
    method Start()
      requires Ok()
      modifies `ptr, `size, `list, `freep
      ensures Ok() && freep.Some? && blocks == old(blocks) && units == old(units)
      ensures old(freep).Some? ==> V() == old(V()) && freep == old(freep)
      ensures old(freep).None? ==> list == [base] && size == old(size)[base := 0]
    {
      if freep.None? {
        ptr := ptr[base := base];
        size := size[base := 0];
        freep := Some(base);
        list := [base];
      }
    }

    /** malloc() having found a block that is large enough */
    method Grab(prevp: nat, p: nat, n: nat, ghost k: nat, ghost h: Heap) returns (r: nat)
      requires Ok() && freep.Some? && k < |list| && p == list[k] && prevp == list[Back(k, |list|)] && p in size
      requires size[p] >= n > 0 && KeptInUse(h, V())
      modifies `ptr, `size, `list, `blocks, `freep
      ensures Ok() && freep.Some? && Allotted(h, V(), r, n)
    {
      hide Valid, KeptInUse, Allotted, TakenWell;
      ghost var g := V();
      CanTakeHere(g, k, n);
      r := Carve(prevp, p, n, k);
      KeptThenTaken(h, g, V(), r, n);
    }

    /** malloc() in its search: the round ends at the f-th block, and p, the k-th, is looked at next. */
    ghost predicate Searching(h: Heap, n: nat, f: nat, k: nat, prevp: nat, p: nat)
      reads this
    {
      && Ok() && freep.Some? && f < |list| && list[f] == freep.value && k < |list| && p == list[k]
      && prevp == list[Back(k, |list|)] && TooSmall(V(), f, k, n) && KeptInUse(h, V())
    }

    /** A round starts after freep. */
    lemma Starts(h: Heap, n: nat) returns (f: nat, k: nat)
      requires Ok() && freep.Some? && KeptInUse(h, V())
      ensures freep.value in ptr && Searching(h, n, f, k, freep.value, ptr[freep.value])
    {
      f :| f < |list| && list[f] == freep.value;
      k := Onward(f, |list|);
      Links(V(), f);
      RoundStarts(V(), f, n);
    }

    /** The block looked at is too small, and not the last of the round. */
    lemma Advances(h: Heap, n: nat, f: nat, k: nat, prevp: nat, p: nat) returns (j: nat)
      requires Searching(h, n, f, k, prevp, p) && p in size && size[p] < n && p != freep.value
      ensures p in ptr && Searching(h, n, f, j, p, ptr[p]) && Distance(j, f, |list|) < Distance(k, f, |list|)
    {
      hide Valid, TooSmall, KeptInUse;
      j := Onward(k, |list|);
      Links(V(), k);
      SamePlace(V(), f, k);
      TooSmallNext(V(), f, k, n);
    }

    /** The block looked at is too small, and the last of the round. */
    lemma RoundFails(h: Heap, n: nat, f: nat, k: nat, prevp: nat, p: nat)
      requires Searching(h, n, f, k, prevp, p) && p in size && size[p] < n && p == freep.value
      ensures !HasRoom(V(), n)
    {
      SamePlace(V(), f, k);
      NoRoom(V(), f, n);
    }

    lemma Looks(h: Heap, n: nat, f: nat, k: nat, prevp: nat, p: nat)
      requires Searching(h, n, f, k, prevp, p)
      ensures p in size
    {
      Links(V(), k);
    }

    /** What the allocator takes to be its memory, what is, and the break, once sbrk() has answered a
        request for n units that was made at break b. */
    ghost predicate Grown(units0: set<nat>, mem0: set<nat>, b: nat, n: nat)
      reads this
    {
      && units == units0 + Range(b, Request(n)) && mem == Given(mem0, b, SbrkArg(n), true)
      && 16 * brk == NewSize(16 * b, SbrkArg(n), true)
    }

    /** malloc(); `granted` is whether sbrk() finds memory, if it is asked.  It is asked at most once: what
        it seems to give is enough, wherever morecore() merges it.  The blocks still tile the memory
        from sbrk() if, and only if, no memory was needed, the request fits sbrk()'s int argument, or
        sbrk() refused. */
    method Malloc(nbytes: nat, granted: bool) returns (r: Option<nat>)
      requires Sound() && nbytes < 0x1_0000_0000
      modifies this
      ensures Ok() && freep.Some?
      ensures r.Some? ==> Allotted(old(V()), V(), r.value, Units(nbytes))
      ensures r.None? <==> !old(HasRoom(V(), Units(nbytes))) && SbrkArg(Units(nbytes)) > 0 && !granted
      ensures r.None? ==> KeptInUse(old(V()), V())
      ensures old(HasRoom(V(), Units(nbytes))) || r.None? ==> units == old(units) && mem == old(mem) && brk == old(brk)
      ensures !old(HasRoom(V(), Units(nbytes))) && r.Some? ==> Grown(old(units), old(mem), old(brk), Units(nbytes))
      ensures Sound() <==> r.None? || old(HasRoom(V(), Units(nbytes))) || Request(Units(nbytes)) * 16 < 0x8000_0000
    {
      hide Valid, KeptInUse, Allotted, TooSmall, HasRoom, Distance, Range, Given, NewSize, SbrkArg, Request, Back;
      ghost var h, brk0, mem0 := V(), brk, mem;
      var n := Units(nbytes);
      KeptSame(h);
      UnitsBound(nbytes);
      Start();
      StartedKept(h, V(), n);
      ghost var f, k := Starts(h, n);
      ghost var grown := false;
      var prevp, p := freep.value, ptr[freep.value];
      while true
        invariant Searching(h, n, f, k, prevp, p)
        invariant !grown ==> units == h.units && mem == mem0 && brk == brk0 && (HasRoom(h, n) <==> HasRoom(V(), n))
        invariant grown ==>
          !HasRoom(h, n) && !(SbrkArg(n) > 0 && !granted) && HasRoom(V(), n) && Grown(h.units, mem0, brk0, n)
        decreases !grown, Distance(k, f, |list|)
      {
        Looks(h, n, f, k, prevp, p);
        if size[p] >= n {
          FoundHere(V(), k, n, p);
          var q := Grab(prevp, p, n, k, h);
          if grown {
            SoundExactly(mem0, brk0, n, mem, brk, base);
          }
          return Some(q);
        }
        if p == freep.value {
          RoundFails(h, n, f, k, prevp, p);
          ghost var g := V();
          var m := Morecore(n, granted);
          KeptTwice(h, g, V());
          if m.None? {
            return None;
          }
          grown := true;
          f, k := Starts(h, n);
          prevp, p := freep.value, ptr[freep.value];
        } else {
          k := Advances(h, n, f, k, prevp, p);
          prevp, p := p, ptr[p];
        }
      }
    }
  }

  /** A free block is no larger than the memory there is. */
  lemma RoomFits(h: Heap, b: nat, q: nat, n: nat)
    requires Valid(h) && h.units == Range(b, q) && HasRoom(h, n) && n > 0
    ensures n <= q
  {
    var a :| a in h.list && a in h.size && h.size[a] >= n;
    assert a in h.blocks;
    var last := a + h.blocks[a].size - 1;
    assert Covers(h.blocks, a, a) && Covers(h.blocks, a, last);
    InRange(b, q, a);
    InRange(b, q, last);
  }

  /** A first malloc(70000), of 4376 units: enough for it, and no room for much more. */
  method FirstRequest(base: nat, brk: nat) returns (a: Allocator)
    requires base < brk
    ensures fresh(a) && a.Sound() && a.units == Range(brk, 4376) && a.brk == brk + 4376 && !HasRoom(a.V(), 0x800_0000)
  {
    hide Valid, HasRoom, Allotted, Range;
    a := new Allocator(base, brk);
    NoRoomYet(a.V(), 4376);
    assert Units(70000) == 4376 && SbrkArg(4376) == 70016;
    var _ := a.Malloc(70000, true);
    assert {} + Range(brk, 4376) == Range(brk, 4376);
    FirstFits(a.V(), brk);
  }

  lemma NoRoomYet(h: Heap, n: nat)
    requires h.list == []
    ensures !HasRoom(h, n)
  {
  }

  lemma FirstFits(h: Heap, b: nat)
    requires Valid(h) && h.units == Range(b, 4376)
    ensures !HasRoom(h, 0x800_0000)
  {
    if HasRoom(h, 0x800_0000) {
      RoomFits(h, b, 4376, 0x800_0000);
    }
  }

  /** The last unit of a range is not in the range before it. */
  lemma LastIsNew(b: nat, q: nat, n: nat)
    requires n > 0
    ensures b + q + n - 1 in Range(b + q, n) && b + q + n - 1 !in Range(b, q)
  {
    InRange(b + q, n, b + q + n - 1);
    InRange(b, q, b + q + n - 1);
  }

  lemma StaysGiven(b: nat, q: nat, n: int)
    requires n <= 0 && 16 * (b + q) + n < 0
    ensures Given(Range(b, q), b + q, n, true) == Range(b, q)
  {
    forall x | x in Range(b, q) ensures x < b + q {
      InRange(b, q, x);
    }
  }

  /** A request that does not fit: after malloc(70000), malloc(0x7ffffff0) passes sbrk() the smallest
      int.  sbrk() gives nothing and reports success, and malloc() returns a block of 0x8000000 units,
      the last of which it was never given. */
  method HugeRequest(base: nat, brk: nat) returns (a: Allocator, r: Option<nat>)
    requires base < brk < 0x7F0_0000
    ensures fresh(a) && r.Some? && InUse(a.V(), r.value) && a.blocks[r.value].size == 0x800_0000
    ensures a.brk == brk + 4376 && a.mem == Range(brk, 4376) && brk + 4376 + 0x800_0000 - 1 in a.units - a.mem
  {
    hide Valid, HasRoom, Range, Given;
    a := FirstRequest(base, brk);
    assert Units(0x7FFF_FFF0) == 0x800_0000 && SbrkArg(0x800_0000) == -0x8000_0000;
    r := a.Malloc(0x7FFF_FFF0, true);
    StaysGiven(brk, 4376, -0x8000_0000);
    LastIsNew(brk, 4376, 0x800_0000);
  }
}
