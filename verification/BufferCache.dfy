/** The buffer cache of kernel/bio.c: NBUF buffers on a circular doubly linked list ordered by use.
    Pointers are buffer numbers; number `n` (= NBUF) stands for the list head. */
module BufferCache {
  import opened Basics
  import opened CrashLog

  // ---------------------------------------------------------------- the doubly linked list

  /** The list read in the `next` direction, from the head back to the head. */
  function Ring(n: nat, order: seq<nat>): seq<nat> { [n] + order + [n] }

  /** `order` is what following next (or, backwards, prev) from the head visits. */
  ghost predicate Linked(next: seq<nat>, prev: seq<nat>, n: nat, order: seq<nat>)
  {
    && |next| == |prev| == n + 1
    && Distinct(order)
    && (forall k :: 0 <= k < |order| ==> order[k] < n)
    && (forall k :: 0 <= k <= |order| ==>
          next[Ring(n, order)[k]] == Ring(n, order)[k + 1] && prev[Ring(n, order)[k + 1]] == Ring(n, order)[k])
  }

  /** Linking buffer b in just after the head, as binit() and brelse() do. */
  lemma PushFront(next: seq<nat>, prev: seq<nat>, n: nat, order: seq<nat>, b: nat)
    requires Linked(next, prev, n, order) && b < n && b !in order
    ensures var first := next[n];
      first <= n &&
      Linked(next[b := first][n := b], prev[b := n][first := b], n, [b] + order)
  {
    var r, q := Ring(n, order), Ring(n, [b] + order);
    assert next[r[0]] == r[1];
    assert q[0] == n && q[1] == b && forall k :: 1 <= k < |r| ==> q[k + 1] == r[k];
    var first := next[n];
    var next1, prev1 := next[b := first][n := b], prev[b := n][first := b];
    forall k | 0 <= k <= |order| + 1
      ensures next1[q[k]] == q[k + 1] && prev1[q[k + 1]] == q[k]
    {
      if k >= 2 {
        assert next[r[k - 1]] == r[k] && prev[r[k]] == r[k - 1];
        assert q[k] == order[k - 2];
        assert q[k] != n && q[k] != b;
        assert q[k + 1] != first by {
          if k <= |order| {
            assert q[k + 1] == order[k - 1] && first == order[0];
          } else {
            assert q[k + 1] == n && first == order[0];
          }
        }
      }
    }
  }

  /** Unlinking the buffer at position i. */
  lemma Unlink(next: seq<nat>, prev: seq<nat>, n: nat, order: seq<nat>, i: nat)
    requires Linked(next, prev, n, order) && i < |order|
    ensures var b := order[i];
      && next[b] <= n && prev[b] <= n
      && Linked(next[prev[b] := next[b]], prev[next[b] := prev[b]], n, order[..i] + order[i + 1..])
      && b !in order[..i] + order[i + 1..]
  {
    var b := order[i];
    var o := order[..i] + order[i + 1..];
    var r, q := Ring(n, order), Ring(n, o);
    assert r[i + 1] == b;
    assert next[r[i]] == r[i + 1] && prev[r[i + 1]] == r[i];
    assert next[r[i + 1]] == r[i + 2] && prev[r[i + 2]] == r[i + 1];
    assert prev[b] == r[i] && next[b] == r[i + 2];
    assert forall k :: 0 <= k <= i ==> q[k] == r[k];
    assert forall k :: i < k < |q| ==> q[k] == r[k + 1];
    assert Distinct(o);
    var next1, prev1 := next[prev[b] := next[b]], prev[next[b] := prev[b]];
    forall k | 0 <= k <= |o|
      ensures next1[q[k]] == q[k + 1] && prev1[q[k + 1]] == q[k]
    {
      if k < i {
        assert next[r[k]] == r[k + 1] && prev[r[k + 1]] == r[k];
        RingInjective(n, order, k, i);
        RingInjective(n, order, k + 1, i + 2);
      } else if k > i {
        assert next[r[k + 1]] == r[k + 2] && prev[r[k + 2]] == r[k + 1];
        RingInjective(n, order, k + 1, i);
        RingInjective(n, order, k + 2, i + 2);
      }
    }
  }

  /** Two places of the ring hold the same number only if they are the same place or both ends. */
  lemma RingInjective(n: nat, order: seq<nat>, j: nat, k: nat)
    requires Distinct(order) && forall i :: 0 <= i < |order| ==> order[i] < n
    requires j < |order| + 2 && k < |order| + 2 && j != k
    ensures Ring(n, order)[j] == Ring(n, order)[k] ==>
      (j == 0 && k == |order| + 1) || (k == 0 && j == |order| + 1)
  {
  }

  // ---------------------------------------------------------------- buffers and what they mean

  /** struct buf; `waiting` counts the processes that have the buffer from bget() and wait for its lock,
      `leaving` those in brelse() that have given up the lock and not yet their reference. */
  datatype Buf = Buf(
    dev: nat, blockno: nat, valid: bool, refcnt: nat, locked: bool, waiting: nat, leaving: nat, data: Block)

  predicate Holds(b: Buf, dev: nat, blockno: nat) { b.dev == dev && b.blockno == blockno }

  /** The cache and the disk behind it, for the disk's device `dev`.  `mem` is what reading a block
      must give: the data last bwritten or log_written to it.  `pinned` are the blocks in the log,
      `dirty` the buffers their holder has changed and not yet passed to bwrite or log_write. */
  datatype View = View(dev: nat, buf: seq<Buf>, disk: Disk, mem: Disk, pinned: set<nat>, dirty: set<nat>) {
    function With(i: nat, b: Buf): View
      requires i < |buf|
    {
      this.(buf := buf[i := b])
    }
  }

  /** The blocks some process has locked, waits for or is about to give up. */
  ghost function HeldBlocks(buf: seq<Buf>): set<nat>
  {
    set i | 0 <= i < |buf| && (buf[i].locked || buf[i].waiting > 0 || buf[i].leaving > 0) :: buf[i].blockno
  }

  /** At most one buffer for each block of a real device. */
  ghost predicate Unique(buf: seq<Buf>)
  {
    forall i, j :: 0 <= i < j < |buf| && buf[i].dev != 0 ==> !Holds(buf[j], buf[i].dev, buf[i].blockno)
  }

  /** One reference for the holder of the buffer's lock, one for each process before or after that, one
      for the log. */
  function Refs(v: View, b: Buf): nat
  {
    (if b.locked then 1 else 0) + b.waiting + b.leaving +
    (if b.dev == v.dev && b.blockno in v.pinned then 1 else 0)
  }

  ghost predicate BufOk(v: View, i: nat)
    requires i < |v.buf| && v.mem.Keys == v.disk.Keys
  {
    var b := v.buf[i];
    && b.refcnt == Refs(v, b)
    && (b.locked || b.waiting > 0 || b.leaving > 0 || b.valid ==> b.dev == v.dev && b.blockno in v.disk)
    && (i in v.dirty ==> b.locked)
    && (b.valid && i !in v.dirty ==> b.data == v.mem[b.blockno])
  }

  /** A pinned block is cached, and its contents are in memory. */
  ghost predicate PinOk(v: View, blockno: nat)
  {
    exists i :: 0 <= i < |v.buf| && Holds(v.buf[i], v.dev, blockno) && v.buf[i].valid
  }

  /** The cache agrees with a plain disk. */
  ghost predicate Agrees(v: View)
  {
    && v.dev != 0
    && v.mem.Keys == v.disk.Keys && v.pinned <= v.disk.Keys
    && Unique(v.buf)
    && (forall i :: 0 <= i < |v.buf| ==> BufOk(v, i))
    && (forall b :: b in v.pinned ==> PinOk(v, b))
    && (forall b :: b in v.disk && b !in v.pinned ==> v.mem[b] == v.disk[b])
  }

  /** A free buffer exists whenever fewer blocks are logged or held than there are buffers. */
  lemma FreeBuffer(v: View)
    requires Agrees(v)
    requires |v.pinned + HeldBlocks(v.buf)| < |v.buf|
    ensures exists i :: 0 <= i < |v.buf| && v.buf[i].refcnt == 0
  {
    if forall i :: 0 <= i < |v.buf| ==> v.buf[i].refcnt > 0 {
      var named := v.pinned + HeldBlocks(v.buf);
      forall i | 0 <= i < |v.buf|
        ensures v.buf[i].dev == v.dev && v.buf[i].blockno in named
      {
        assert BufOk(v, i);
      }
      InjectiveCount(v.buf, |v.buf|, named);
    }
  }

  /** The blocks of the first k buffers other than i. */
  ghost function BlocksBut(buf: seq<Buf>, k: nat, i: nat): set<nat>
    requires k <= |buf|
  {
    if k == 0 then {} else BlocksBut(buf, k - 1, i) + if k - 1 == i then {} else {buf[k - 1].blockno}
  }

  lemma {:induction false} BlocksButHas(buf: seq<Buf>, k: nat, i: nat, j: nat)
    requires j < k <= |buf| && j != i
    ensures buf[j].blockno in BlocksBut(buf, k, i)
  {
    if j < k - 1 {
      BlocksButHas(buf, k - 1, i, j);
    }
  }

  lemma {:induction false} BlocksButSize(buf: seq<Buf>, k: nat, i: nat)
    requires k <= |buf|
    ensures |BlocksBut(buf, k, i)| <= k && (i < k ==> |BlocksBut(buf, k, i)| < k)
  {
    if k > 0 {
      BlocksButSize(buf, k - 1, i);
    }
  }

  /** A block that is logged or held has a buffer with a reference. */
  lemma NamedIsReferenced(v: View, b: nat) returns (j: nat)
    requires Agrees(v) && b in v.pinned + HeldBlocks(v.buf)
    ensures j < |v.buf| && v.buf[j].blockno == b && v.buf[j].refcnt > 0
  {
    if b in v.pinned {
      assert PinOk(v, b);
      j :| 0 <= j < |v.buf| && Holds(v.buf[j], v.dev, b) && v.buf[j].valid;
    } else {
      j :| 0 <= j < |v.buf| && (v.buf[j].locked || v.buf[j].waiting > 0 || v.buf[j].leaving > 0)
        && v.buf[j].blockno == b;
    }
    assert BufOk(v, j);
  }

  /** And only then: logged and held blocks have a buffer each, none of them free. */
  lemma FreeBufferExactly(v: View)
    requires Agrees(v)
    ensures (exists i :: 0 <= i < |v.buf| && v.buf[i].refcnt == 0) <==> |v.pinned + HeldBlocks(v.buf)| < |v.buf|
  {
    if |v.pinned + HeldBlocks(v.buf)| < |v.buf| {
      FreeBuffer(v);
    } else {
      forall i | 0 <= i < |v.buf| ensures v.buf[i].refcnt > 0 {
        if v.buf[i].refcnt == 0 {
          NamedAreOthers(v, i);
        }
      }
    }
  }

  lemma NamedAreOthers(v: View, i: nat)
    requires Agrees(v) && i < |v.buf| && v.buf[i].refcnt == 0
    ensures |v.pinned + HeldBlocks(v.buf)| < |v.buf|
  {
    var named, rest := v.pinned + HeldBlocks(v.buf), BlocksBut(v.buf, |v.buf|, i);
    forall b | b in named ensures b in rest {
      var j := NamedIsReferenced(v, b);
      BlocksButHas(v.buf, |v.buf|, i, j);
    }
    BlocksButSize(v.buf, |v.buf|, i);
    SubsetSize(named, rest);
  }

  lemma {:induction false} InjectiveCount(buf: seq<Buf>, k: nat, named: set<nat>)
    requires k <= |buf|
    requires forall i :: 0 <= i < k ==> buf[i].blockno in named
    requires forall i, j :: 0 <= i < j < k ==> buf[i].blockno != buf[j].blockno
    ensures k <= |named|
  {
    if k > 0 {
      InjectiveCount(buf, k - 1, named - {buf[k - 1].blockno});
    }
  }

  // Every change of one buffer keeps the agreement.

  function Locked(b: Buf): Buf { b.(refcnt := b.refcnt + 1, locked := true) }

  function Queued(b: Buf): Buf { b.(refcnt := b.refcnt + 1, waiting := b.waiting + 1) }

  function Recycled(b: Buf, dev: nat, blockno: nat): Buf
  {
    b.(dev := dev, blockno := blockno, valid := false, refcnt := 1, locked := true)
  }

  lemma PinsKept(v: View, i: nat, b: Buf)
    requires Agrees(v) && i < |v.buf|
    requires Holds(b, v.buf[i].dev, v.buf[i].blockno) && (v.buf[i].valid ==> b.valid)
    ensures forall x :: x in v.pinned ==> PinOk(v.With(i, b), x)
  {
    forall x | x in v.pinned
      ensures PinOk(v.With(i, b), x)
    {
      var j :| 0 <= j < |v.buf| && Holds(v.buf[j], v.dev, x) && v.buf[j].valid;
      assert Holds(v.With(i, b).buf[j], v.dev, x) && v.With(i, b).buf[j].valid;
    }
  }

  lemma LockKeeps(v: View, i: nat)
    requires Agrees(v) && i < |v.buf| && !v.buf[i].locked
    requires v.buf[i].dev == v.dev && v.buf[i].blockno in v.disk
    ensures Agrees(v.With(i, Locked(v.buf[i])))
  {
    var b := Locked(v.buf[i]);
    PinsKept(v, i, b);
    assert BufOk(v, i);
    forall j | 0 <= j < |v.buf| ensures BufOk(v.With(i, b), j) {
      assert BufOk(v, j);
    }
  }

  /** A free buffer is given to another block, with one reference for a holder or a waiter. */
  lemma RecycleKeeps(v: View, i: nat, b: Buf)
    requires Agrees(v) && i < |v.buf| && v.buf[i].refcnt == 0
    requires b.dev == v.dev && b.blockno in v.disk && !b.valid && b.refcnt == 1
    requires b.waiting == (if b.locked then 0 else 1) && b.leaving == 0
    requires forall j :: 0 <= j < |v.buf| ==> !Holds(v.buf[j], v.dev, b.blockno)
    ensures Agrees(v.With(i, b))
  {
    var w := v.With(i, b);
    assert BufOk(v, i);
    assert b.blockno in v.pinned ==> PinOk(v, b.blockno);
    forall j | 0 <= j < |v.buf| ensures BufOk(w, j) {
      assert BufOk(v, j);
    }
    forall x | x in v.pinned ensures PinOk(w, x) {
      assert PinOk(v, x);
      var j :| 0 <= j < |v.buf| && Holds(v.buf[j], v.dev, x) && v.buf[j].valid;
      assert Holds(w.buf[j], v.dev, x) && w.buf[j].valid;
    }
  }

  /** The buffer bread() finds invalid is of a block that is not in the log, so the disk is current. */
  lemma FillKeeps(v: View, i: nat)
    requires Agrees(v) && i < |v.buf| && v.buf[i].locked && !v.buf[i].valid
    ensures BufOk(v, i)
    ensures Agrees(v.With(i, v.buf[i].(data := v.disk[v.buf[i].blockno], valid := true)))
    ensures v.mem[v.buf[i].blockno] == v.disk[v.buf[i].blockno]
  {
    assert BufOk(v, i);
    var b := v.buf[i].(data := v.disk[v.buf[i].blockno], valid := true);
    PinsKept(v, i, b);
    assert b.blockno in v.pinned ==> PinOk(v, b.blockno);
    forall j | 0 <= j < |v.buf| ensures BufOk(v.With(i, b), j) {
      assert BufOk(v, j);
    }
  }

  /** The holder changes the data of a buffer. */
  function Modified(v: View, i: nat, data: Block): View
    requires i < |v.buf|
  {
    v.With(i, v.buf[i].(data := data)).(dirty := v.dirty + {i})
  }

  lemma ModifyKeeps(v: View, i: nat, data: Block)
    requires Agrees(v) && i < |v.buf| && v.buf[i].locked
    ensures Agrees(Modified(v, i, data))
  {
    var b := v.buf[i].(data := data);
    PinsKept(v, i, b);
    var w := Modified(v, i, data);
    forall j | 0 <= j < |v.buf| ensures BufOk(w, j) {
      assert BufOk(v, j);
    }
    forall x | x in w.pinned ensures PinOk(w, x) {
      assert PinOk(v.With(i, b), x);
    }
  }

  /** bwrite(): the disk and the meaning of the block take the buffer's data. */
  function Written(v: View, i: nat): View
    requires i < |v.buf|
  {
    var b := v.buf[i];
    v.(disk := v.disk[b.blockno := b.data], mem := v.mem[b.blockno := b.data], dirty := v.dirty - {i})
  }

  lemma OthersDiffer(v: View, i: nat, j: nat)
    requires Agrees(v) && i < |v.buf| && j < |v.buf| && i != j
    requires v.buf[i].dev == v.dev && v.buf[j].dev == v.dev
    ensures v.buf[i].blockno != v.buf[j].blockno
  {
    if i < j {
      assert !Holds(v.buf[j], v.buf[i].dev, v.buf[i].blockno);
    } else {
      assert !Holds(v.buf[i], v.buf[j].dev, v.buf[j].blockno);
    }
  }

  lemma WriteKeeps(v: View, i: nat)
    requires Agrees(v) && i < |v.buf| && v.buf[i].locked && v.buf[i].valid
    ensures Agrees(Written(v, i))
  {
    var w := Written(v, i);
    assert BufOk(v, i);
    forall j | 0 <= j < |v.buf| ensures BufOk(w, j) {
      assert BufOk(v, j);
      if j != i && v.buf[j].dev == v.dev {
        OthersDiffer(v, i, j);
      }
    }
    forall x | x in w.pinned ensures PinOk(w, x) {
      assert PinOk(v, x);
    }
  }

  /** log_write() of a buffer: its data is now what the block means, and the block is in the log.
      The first log_write of a block takes a reference (bpin). */
  function Logged(v: View, i: nat): View
    requires i < |v.buf|
  {
    var b := v.buf[i];
    v.With(i, if b.blockno in v.pinned then b else b.(refcnt := b.refcnt + 1))
     .(mem := v.mem[b.blockno := b.data], pinned := v.pinned + {b.blockno}, dirty := v.dirty - {i})
  }

  lemma LogBufs(v: View, i: nat)
    requires Agrees(v) && i < |v.buf| && v.buf[i].locked && v.buf[i].valid
    ensures v.buf[i].dev == v.dev && v.buf[i].blockno in v.disk
    ensures Logged(v, i).mem.Keys == v.disk.Keys && forall j :: 0 <= j < |v.buf| ==> BufOk(Logged(v, i), j)
  {
    assert BufOk(v, i);
    forall j | 0 <= j < |v.buf| ensures BufOk(Logged(v, i), j) {
      assert BufOk(v, j);
      if j != i && v.buf[j].dev == v.dev {
        OthersDiffer(v, i, j);
      }
    }
  }

  lemma LogKeeps(v: View, i: nat)
    requires Agrees(v) && i < |v.buf| && v.buf[i].locked && v.buf[i].valid
    ensures Agrees(Logged(v, i))
  {
    var w := Logged(v, i);
    LogBufs(v, i);
    PinsKept(v, i, w.buf[i]);
    forall x | x in w.pinned ensures PinOk(w, x) {
      if x == v.buf[i].blockno {
        assert Holds(w.buf[i], w.dev, x) && w.buf[i].valid;
      } else {
        assert PinOk(v.With(i, w.buf[i]), x);
      }
    }
  }

  /** bunpin() of an installed block. */
  function Unpinned(v: View, i: nat): View
    requires i < |v.buf| && v.buf[i].refcnt > 0
  {
    var b := v.buf[i];
    v.With(i, b.(refcnt := b.refcnt - 1)).(pinned := v.pinned - {b.blockno})
  }

  lemma UnpinKeeps(v: View, i: nat)
    requires Agrees(v) && i < |v.buf| && v.buf[i].locked && v.buf[i].blockno in v.pinned
    requires v.mem[v.buf[i].blockno] == v.disk[v.buf[i].blockno]
    ensures v.buf[i].refcnt == 2 + v.buf[i].waiting + v.buf[i].leaving && Agrees(Unpinned(v, i))
  {
    assert BufOk(v, i);
    var w := Unpinned(v, i);
    PinsKept(v, i, w.buf[i]);
    forall j | 0 <= j < |v.buf| ensures BufOk(w, j) {
      assert BufOk(v, j);
      if j != i && v.buf[j].dev == v.dev {
        OthersDiffer(v, i, j);
      }
    }
    forall x | x in w.pinned ensures PinOk(w, x) {
      assert PinOk(v.With(i, w.buf[i]), x);
    }
  }

  function Released(b: Buf): Buf
    requires b.refcnt > 0
  {
    b.(refcnt := b.refcnt - 1, locked := false)
  }

  lemma ReleaseKeeps(v: View, i: nat)
    requires Agrees(v) && i < |v.buf| && v.buf[i].locked && i !in v.dirty
    ensures v.buf[i].refcnt > 0 && Agrees(v.With(i, Released(v.buf[i])))
  {
    assert BufOk(v, i);
    PinsKept(v, i, Released(v.buf[i]));
    forall j | 0 <= j < |v.buf| ensures BufOk(v.With(i, Released(v.buf[i])), j) {
      assert BufOk(v, j);
    }
  }

  /** b is free, and every buffer nearer the least recently used end is in use. */
  ghost predicate LeastRecent(order: seq<nat>, buf: seq<Buf>, b: nat)
    requires forall i :: 0 <= i < |order| ==> order[i] < |buf|
  {
    exists k ::
      && 0 <= k < |order| && order[k] == b && buf[order[k]].refcnt == 0
      && forall j :: k < j < |order| ==> buf[order[j]].refcnt > 0
  }

  ghost predicate ToFront(before: seq<nat>, b: nat, after: seq<nat>)
  {
    exists k :: 0 <= k < |before| && before[k] == b && after == [b] + before[..k] + before[k + 1..]
  }

  // ---------------------------------------------------------------- the cache object

  /** bcache and the disk behind it, as one kernel thread uses them. */
  class Cache {
    const n: nat
    const dev: nat
    var buf: seq<Buf>
    var next: seq<nat>
    var prev: seq<nat>
    var disk: Disk

    ghost var order: seq<nat>
    ghost var writes: seq<Write>
    ghost var mem: Disk
    ghost var pinned: set<nat>
    ghost var dirty: set<nat>

    ghost function V(): View
      reads this
    {
      View(dev, buf, disk, mem, pinned, dirty)
    }

    ghost predicate ListOk()
      reads this
    {
      Linked(next, prev, n, order) && forall i :: 0 <= i < n ==> i in order
    }

    ghost predicate Valid()
      reads this
    {
      |buf| == n && ListOk() && Agrees(V())
    }

    /** binit(): link the buffers in one by one, each at the front. */
    constructor (n: nat, dev: nat, disk: Disk)
      requires dev != 0
      ensures Valid() && this.n == n && this.dev == dev && this.disk == disk && mem == disk
      ensures pinned == {} && dirty == {} && writes == [] && HeldBlocks(buf) == {}
    {
      this.n, this.dev, this.disk := n, dev, disk;
      mem, pinned, dirty, writes := disk, {}, {}, [];
      buf := seq(n, i => Buf(0, 0, false, 0, false, 0, 0, []));
      var nx: seq<nat>, pv: seq<nat> := seq(n + 1, i => n), seq(n + 1, i => n);
      ghost var o: seq<nat> := [];
      var b := 0;
      while b < n
        invariant 0 <= b <= n
        invariant Linked(nx, pv, n, o)
        invariant forall i :: 0 <= i < |o| ==> o[i] < b
        invariant forall i :: 0 <= i < b ==> i in o
      {
        PushFront(nx, pv, n, o, b);
        var first := nx[n];
        nx, pv := nx[b := first], pv[b := n];
        pv := pv[first := b];
        nx := nx[n := b];
        o := [b] + o;
        b := b + 1;
      }
      next, prev, order := nx, pv, o;
    }

    /** The first loop of bget(): the buffer of the block, or n if it is not cached. */
    method Find(blockno: nat) returns (b: nat)
      requires |buf| == n && ListOk()
      ensures b <= n
      ensures b < n ==> Holds(buf[b], dev, blockno)
      ensures b == n ==> forall i :: 0 <= i < n ==> !Holds(buf[i], dev, blockno)
    {
      b := next[n];
      ghost var k := 0;
      assert next[Ring(n, order)[0]] == Ring(n, order)[1];
      while b != n
        invariant 0 <= k <= |order| && b == Ring(n, order)[k + 1]
        invariant forall j :: 0 <= j < k ==> !Holds(buf[order[j]], dev, blockno)
        decreases |order| - k
      {
        assert b == order[k];
        if buf[b].dev == dev && buf[b].blockno == blockno {
          return;
        }
        assert next[Ring(n, order)[k + 1]] == Ring(n, order)[k + 2];
        b := next[b];
        k := k + 1;
      }
      assert k == |order|;
      forall i | 0 <= i < n
        ensures !Holds(buf[i], dev, blockno)
      {
        assert i in order;
        var j :| 0 <= j < |order| && order[j] == i;
      }
    }

    /** The second loop of bget(): from the least recently used end, the first free buffer, or n. */
    method FindFree() returns (b: nat)
      requires |buf| == n && ListOk()
      ensures b <= n
      ensures b < n ==> LeastRecent(order, buf, b)
      ensures b == n ==> forall i :: 0 <= i < n ==> buf[i].refcnt > 0
    {
      b := prev[n];
      ghost var k := |order|;
      assert prev[Ring(n, order)[|order| + 1]] == Ring(n, order)[|order|];
      while b != n
        invariant 0 <= k <= |order| && b == Ring(n, order)[k]
        invariant forall j :: k <= j < |order| ==> buf[order[j]].refcnt > 0
        decreases k
      {
        assert b == order[k - 1];
        if buf[b].refcnt == 0 {
          return;
        }
        assert prev[Ring(n, order)[k]] == Ring(n, order)[k - 1];
        b := prev[b];
        k := k - 1;
      }
      assert k == 0;
      forall i | 0 <= i < n
        ensures buf[i].refcnt > 0
      {
        assert i in order;
        var j :| 0 <= j < |order| && order[j] == i;
      }
    }

    /** bget(): the buffer of the block if it is cached, else the least recently used free buffer
        made to stand for the block; n for "bget: no buffers".  If another process has the buffer's
        lock, the caller now has its reference and waits. */
    method Bget(blockno: nat) returns (b: nat, waits: bool)
      requires Valid() && blockno in disk
      modifies this`buf
      ensures Valid() && b <= n
      ensures waits <==> b < n && Holds(old(buf)[b], dev, blockno) && old(buf)[b].locked
      ensures b == n ==>
        && buf == old(buf)
        && forall i :: 0 <= i < n ==> buf[i].refcnt > 0 && !Holds(buf[i], dev, blockno)
      ensures b < n && Holds(old(buf)[b], dev, blockno) ==>
        buf == old(buf)[b := if waits then Queued(old(buf)[b]) else Locked(old(buf)[b])]
      ensures b < n && !Holds(old(buf)[b], dev, blockno) ==>
        && (forall i :: 0 <= i < n ==> !Holds(old(buf)[i], dev, blockno))
        && LeastRecent(order, old(buf), b)
        && buf == old(buf)[b := Recycled(old(buf)[b], dev, blockno)]
    {
      b := Find(blockno);
      waits := false;
      if b < n {
        waits := buf[b].locked;
        if waits {
          GetHitKeeps(V(), b);
          buf := buf[b := Queued(buf[b])];
        } else {
          LockKeeps(V(), b);
          buf := buf[b := Locked(buf[b])];
        }
      } else {
        b := FindFree();
        if b < n {
          assert BufOk(V(), b);
          RecycleKeeps(V(), b, Recycled(buf[b], dev, blockno));
          buf := buf[b := Recycled(buf[b], dev, blockno)];
        }
      }
    }

    /** bread(): a locked buffer with the latest contents of the block, or none, or the caller waits for
        the lock, to read afterwards. */
    method Bread(blockno: nat) returns (b: nat, waits: bool)
      requires Valid() && blockno in disk
      modifies this`buf
      ensures Valid() && b <= n
      ensures waits <==> b < n && Holds(old(buf)[b], dev, blockno) && old(buf)[b].locked
      ensures forall j :: 0 <= j < n && j != b ==> buf[j] == old(buf)[j]
      ensures waits ==> buf[b] == Queued(old(buf)[b])
      ensures b < n && !waits ==>
        && buf[b].locked && buf[b].valid && Holds(buf[b], dev, blockno) && buf[b].data == mem[blockno]
        && !old(buf)[b].locked && b !in dirty && (Holds(old(buf)[b], dev, blockno) || old(buf)[b].refcnt == 0)
        && buf[b].waiting == old(buf)[b].waiting && buf[b].leaving == old(buf)[b].leaving
      ensures b == n ==>
        && buf == old(buf)
        && forall i :: 0 <= i < n ==> buf[i].refcnt > 0 && !Holds(buf[i], dev, blockno)
    {
      ghost var v := V();
      b, waits := Bget(blockno);
      if b < n && !waits {
        assert BufOk(v, b);
        if !buf[b].valid {
          FillKeeps(V(), b);
          buf := buf[b := buf[b].(data := disk[blockno], valid := true)];
        }
        assert b !in dirty;
      }
    }

    /** The caller changes the contents of a buffer it has locked. */
    method SetData(b: nat, data: Block)
      requires Valid() && b < n && buf[b].locked
      modifies this`buf, this`dirty
      ensures Valid() && V() == Modified(old(V()), b, data)
    {
      ModifyKeeps(V(), b, data);
      buf := buf[b := buf[b].(data := data)];
      dirty := dirty + {b};
    }

    /** bwrite(): one atomic block write. */
    method Bwrite(b: nat)
      requires Valid() && b < n && buf[b].locked && buf[b].valid
      modifies this`disk, this`mem, this`dirty, this`writes
      ensures Valid() && V() == Written(old(V()), b)
      ensures writes == old(writes) + [Write(buf[b].blockno, buf[b].data)]
    {
      WriteKeeps(V(), b);
      var x := buf[b];
      disk := disk[x.blockno := x.data];
      mem, dirty, writes := mem[x.blockno := x.data], dirty - {b}, writes + [Write(x.blockno, x.data)];
    }

    /** The relinking of brelse(): take the buffer out of the list and put it after the head. */
    method MoveToFront(b: nat)
      requires ListOk() && b < n
      modifies this`next, this`prev, this`order
      ensures ListOk() && ToFront(old(order), b, order)
    {
      assert b in order;
      ghost var k :| 0 <= k < |order| && order[k] == b;
      ghost var rest := order[..k] + order[k + 1..];
      Unlink(next, prev, n, order, k);
      var nb, pb := next[b], prev[b];
      prev := prev[nb := pb];
      next := next[pb := nb];
      PushFront(next, prev, n, rest, b);
      var first := next[n];
      next, prev := next[b := first], prev[b := n];
      prev := prev[first := b];
      next := next[n := b];
      forall i | 0 <= i < n
        ensures i in [b] + rest
      {
        assert i in order;
        var j :| 0 <= j < |order| && order[j] == i;
        assert j < k ==> rest[j] == i;
        assert j > k ==> rest[j - 1] == i;
      }
      assert [b] + rest == [b] + order[..k] + order[k + 1..];
      order := [b] + rest;
    }

    /** brelse(): drop the lock and the reference; a buffer nobody uses goes to the front. */
    method Brelse(b: nat)
      requires Valid() && b < n && buf[b].locked && b !in dirty
      modifies this`buf, this`next, this`prev, this`order
      ensures Valid()
      ensures old(buf)[b].refcnt > 0 && buf == old(buf)[b := Released(old(buf)[b])]
      ensures if buf[b].refcnt == 0 then ToFront(old(order), b, order) else order == old(order)
    {
      ReleaseKeeps(V(), b);
      buf := buf[b := Released(buf[b])];
      if buf[b].refcnt == 0 {
        MoveToFront(b);
      }
    }

    /** bpin() as log_write() uses it: the block is in the log now. */
    method Bpin(b: nat)
      requires Valid() && b < n && buf[b].locked && buf[b].valid && buf[b].blockno !in pinned
      modifies this`buf, this`mem, this`pinned, this`dirty
      ensures Valid() && V() == Logged(old(V()), b)
    {
      LogKeeps(V(), b);
      var x := buf[b];
      buf := buf[b := x.(refcnt := x.refcnt + 1)];
      mem, pinned, dirty := mem[x.blockno := x.data], pinned + {x.blockno}, dirty - {b};
    }

    /** log_write() of a block that is in the log already: no reference is taken. */
    ghost method Absorb(b: nat)
      requires Valid() && b < n && buf[b].locked && buf[b].valid && buf[b].blockno in pinned
      modifies this`mem, this`dirty
      ensures Valid() && V() == Logged(old(V()), b)
    {
      LogKeeps(V(), b);
      assert buf[b := buf[b]] == buf;
      assert pinned + {buf[b].blockno} == pinned;
      mem, dirty := mem[buf[b].blockno := buf[b].data], dirty - {b};
    }

    /** bunpin() of a block install_trans() has just written home. */
    method Bunpin(b: nat)
      requires Valid() && b < n && buf[b].locked && buf[b].blockno in pinned
      requires mem[buf[b].blockno] == disk[buf[b].blockno]
      modifies this`buf, this`pinned
      ensures Valid() && old(buf)[b].refcnt > 0 && V() == Unpinned(old(V()), b)
    {
      ghost var v := V();
      UnpinKeeps(v, b);
      var x := buf[b];
      buf := buf[b := x.(refcnt := x.refcnt - 1)];
      pinned := pinned - {x.blockno};
      assert V() == Unpinned(v, b);
    }
  }

  // ---------------------------------------------------------------- every interleaving

  /** What a process does to the cache in one step; `i` is a buffer number. */
  datatype Action =
    | Get(i: nat, blockno: nat)     // bget() up to acquiresleep()
    | Lock(i: nat)                  // acquiresleep() returns
    | Fill(i: nat)                  // bread() reads the disk
    | Modify(i: nat, data: Block)   // the holder changes b->data
    | Bwrite(i: nat)
    | LogWrite(i: nat)
    | Unpin(i: nat)                 // install_trans() after its bwrite
    | Unlock(i: nat)                // brelse() up to acquire(&bcache.lock)
    | Release(i: nat)               // the rest of brelse()

  ghost predicate Enabled(v: View, a: Action)
  {
    && a.i < |v.buf|
    && var b := v.buf[a.i];
       match a
       case Get(i, blockno) =>
         && blockno in v.disk
         && (Holds(b, v.dev, blockno) ||
             (b.refcnt == 0 && forall j :: 0 <= j < |v.buf| ==> !Holds(v.buf[j], v.dev, blockno)))
       case Lock(i) => !b.locked && b.waiting > 0
       case Fill(i) => b.locked && !b.valid && b.blockno in v.disk
       case Modify(i, data) => b.locked && b.valid
       case Bwrite(i) => b.locked && b.valid
       case LogWrite(i) => b.locked && b.valid
       case Unpin(i) => b.locked && b.blockno in v.pinned && b.blockno in v.mem && b.blockno in v.disk && b.refcnt > 0
         && v.mem[b.blockno] == v.disk[b.blockno]
       case Unlock(i) => b.locked && i !in v.dirty
       case Release(i) => b.leaving > 0 && b.refcnt > 0
  }

  ghost function Next(v: View, a: Action): View
    requires Enabled(v, a)
  {
    var i := a.i;
    var b := v.buf[i];
    match a
    case Get(_, blockno) =>
      if Holds(b, v.dev, blockno) then v.With(i, Queued(b))
      else v.With(i, b.(dev := v.dev, blockno := blockno, valid := false, refcnt := 1, waiting := 1))
    case Lock(_) => v.With(i, b.(locked := true, waiting := b.waiting - 1))
    case Fill(_) => v.With(i, b.(data := v.disk[b.blockno], valid := true))
    case Modify(_, data) => Modified(v, i, data)
    case Bwrite(_) => Written(v, i)
    case LogWrite(_) => Logged(v, i)
    case Unpin(_) => Unpinned(v, i)
    case Unlock(_) => v.With(i, b.(locked := false, leaving := b.leaving + 1))
    case Release(_) => v.With(i, b.(leaving := b.leaving - 1, refcnt := b.refcnt - 1))
  }

  lemma GetHitKeeps(v: View, i: nat)
    requires Agrees(v) && i < |v.buf| && v.buf[i].dev == v.dev && v.buf[i].blockno in v.disk
    ensures Agrees(v.With(i, Queued(v.buf[i])))
  {
    var b := Queued(v.buf[i]);
    PinsKept(v, i, b);
    forall j | 0 <= j < |v.buf| ensures BufOk(v.With(i, b), j) {
      assert BufOk(v, j);
    }
  }

  lemma LockStepKeeps(v: View, i: nat)
    requires Agrees(v) && i < |v.buf| && !v.buf[i].locked && v.buf[i].waiting > 0
    ensures Agrees(v.With(i, v.buf[i].(locked := true, waiting := v.buf[i].waiting - 1)))
  {
    var b := v.buf[i].(locked := true, waiting := v.buf[i].waiting - 1);
    PinsKept(v, i, b);
    forall j | 0 <= j < |v.buf| ensures BufOk(v.With(i, b), j) {
      assert BufOk(v, j);
    }
  }

  lemma OkAt(v: View, i: nat)
    requires Agrees(v) && i < |v.buf|
    ensures v.mem.Keys == v.disk.Keys && BufOk(v, i)
  {
  }

  /** Either half of brelse(). */
  lemma LeaveKeeps(v: View, i: nat, b: Buf)
    requires Agrees(v) && i < |v.buf| && (i in v.dirty ==> b.locked)
    requires b == v.buf[i].(locked := b.locked, leaving := b.leaving, refcnt := b.refcnt) && b.refcnt == Refs(v, b)
    requires v.buf[i].locked || v.buf[i].leaving > 0
    ensures Agrees(v.With(i, b))
  {
    assert BufOk(v, i);
    PinsKept(v, i, b);
    forall j | 0 <= j < |v.buf| ensures BufOk(v.With(i, b), j) {
      assert BufOk(v, j);
    }
  }

  lemma UnlockKeeps(v: View, i: nat)
    requires Agrees(v) && Enabled(v, Unlock(i))
    ensures Agrees(Next(v, Unlock(i)))
  {
    assert BufOk(v, i);
    LeaveKeeps(v, i, v.buf[i].(locked := false, leaving := v.buf[i].leaving + 1));
  }

  lemma DropKeeps(v: View, i: nat)
    requires Agrees(v) && Enabled(v, Release(i))
    ensures Agrees(Next(v, Release(i)))
  {
    hide Agrees;
    OkAt(v, i);
    LeaveKeeps(v, i, v.buf[i].(leaving := v.buf[i].leaving - 1, refcnt := v.buf[i].refcnt - 1));
  }

  lemma GetKeeps(v: View, i: nat, blockno: nat)
    requires Agrees(v) && Enabled(v, Get(i, blockno))
    ensures Agrees(Next(v, Get(i, blockno)))
  {
    assert BufOk(v, i);
    if Holds(v.buf[i], v.dev, blockno) {
      GetHitKeeps(v, i);
    } else {
      RecycleKeeps(v, i, v.buf[i].(dev := v.dev, blockno := blockno, valid := false, refcnt := 1, waiting := 1));
    }
  }

  lemma StepKeeps(v: View, a: Action)
    requires Agrees(v) && Enabled(v, a)
    ensures Agrees(Next(v, a))
  {
    hide Agrees;
    match a
    case Get(i, blockno) => GetKeeps(v, i, blockno);
    case Lock(i) => LockStepKeeps(v, i);
    case Fill(i) => FillKeeps(v, i);
    case Modify(i, data) => ModifyKeeps(v, i, data);
    case Bwrite(i) => WriteKeeps(v, i);
    case LogWrite(i) => LogKeeps(v, i);
    case Unpin(i) => UnpinKeeps(v, i);
    case Unlock(i) => UnlockKeeps(v, i);
    case Release(i) => DropKeeps(v, i);
  }

  /** A run of the cache from its state after binit(), any processes in any order. */
  ghost predicate IsRun(vs: seq<View>, acts: seq<Action>)
  {
    && |vs| == |acts| + 1
    && Start(vs[0])
    && forall k :: 0 <= k < |acts| ==> Enabled(vs[k], acts[k]) && vs[k + 1] == Next(vs[k], acts[k])
  }

  ghost predicate Start(v: View)
  {
    && v.dev != 0 && v.mem == v.disk && v.pinned == {} && v.dirty == {}
    && forall i :: 0 <= i < |v.buf| ==> v.buf[i] == Buf(0, 0, false, 0, false, 0, 0, [])
  }

  /** What the run has published with bwrite and log_write, in order. */
  ghost function Published(vs: seq<View>, acts: seq<Action>): seq<Write>
    requires |vs| == |acts| + 1
    requires forall k :: 0 <= k < |acts| ==> acts[k].i < |vs[k].buf|
  {
    if acts == [] then []
    else
      var k := |acts| - 1;
      var b := vs[k].buf[acts[k].i];
      assert vs[..|vs| - 1][..k] == vs[..k];
      Published(vs[..|vs| - 1], acts[..k]) +
      if acts[k].Bwrite? || acts[k].LogWrite? then [Write(b.blockno, b.data)] else []
  }

  /** In every interleaving: reading a block gives the data last published to it, no block of the
      device is in two buffers, and a logged block stays cached with a reference until it is unpinned. */
  lemma {:induction false} CacheIsPlainDisk(vs: seq<View>, acts: seq<Action>)
    requires IsRun(vs, acts)
    ensures var v := vs[|acts|];
      && Agrees(v) && Unique(v.buf)
      && (forall k :: 0 <= k < |acts| ==> acts[k].i < |vs[k].buf|)
      && v.mem == Apply(vs[0].disk, Published(vs, acts))
      && (forall i :: 0 <= i < |v.buf| && v.buf[i].valid && i !in v.dirty ==>
            v.buf[i].blockno in v.mem && v.buf[i].data == v.mem[v.buf[i].blockno])
      && (forall b :: b in v.pinned ==>
            exists i :: 0 <= i < |v.buf| && Holds(v.buf[i], v.dev, b) && v.buf[i].valid && v.buf[i].refcnt > 0)
    decreases |acts|
  {
    var v := vs[|acts|];
    if acts == [] {
      forall i | 0 <= i < |v.buf| ensures BufOk(v, i) {
      }
    } else {
      var k := |acts| - 1;
      CacheIsPlainDisk(vs[..|vs| - 1], acts[..k]);
      StepKeeps(vs[k], acts[k]);
      assert vs[k + 1] == Next(vs[k], acts[k]);
      PublishStep(vs, acts);
    }
    ReadFacts(v);
  }

  lemma PublishStep(vs: seq<View>, acts: seq<Action>)
    requires IsRun(vs, acts) && acts != []
    requires var k := |acts| - 1;
      vs[k].mem == Apply(vs[0].disk, Published(vs[..k + 1], acts[..k]))
    ensures vs[|acts|].mem == Apply(vs[0].disk, Published(vs, acts))
  {
    var k := |acts| - 1;
    var b := vs[k].buf[acts[k].i];
    assert vs[k + 1] == Next(vs[k], acts[k]);
    var p := Published(vs[..k + 1], acts[..k]);
    if acts[k].Bwrite? || acts[k].LogWrite? {
      ApplySnoc(vs[0].disk, p, Write(b.blockno, b.data));
    } else {
      assert p + [] == p;
    }
  }

  lemma ReadFacts(v: View)
    requires Agrees(v)
    ensures forall i :: 0 <= i < |v.buf| && v.buf[i].valid && i !in v.dirty ==>
      v.buf[i].blockno in v.mem && v.buf[i].data == v.mem[v.buf[i].blockno]
    ensures forall b :: b in v.pinned ==>
      exists i :: 0 <= i < |v.buf| && Holds(v.buf[i], v.dev, b) && v.buf[i].valid && v.buf[i].refcnt > 0
  {
    forall b | b in v.pinned
      ensures exists i :: 0 <= i < |v.buf| && Holds(v.buf[i], v.dev, b) && v.buf[i].valid && v.buf[i].refcnt > 0
    {
      assert PinOk(v, b);
      var i :| 0 <= i < |v.buf| && Holds(v.buf[i], v.dev, b) && v.buf[i].valid;
      assert BufOk(v, i);
    }
    forall i | 0 <= i < |v.buf| && v.buf[i].valid && i !in v.dirty
      ensures v.buf[i].blockno in v.mem && v.buf[i].data == v.mem[v.buf[i].blockno]
    {
      assert BufOk(v, i);
    }
  }
}
