/** The log of kernel/log.c over the buffer cache of kernel/bio.c, as the kernel runs it: every
    method reads and writes blocks through bread, bwrite, bpin, bunpin and brelse. */
module RedoLog {
  import opened Basics
  import opened CrashLog
  import opened BufferCache
  import GroupCommit

  /** No process holds or waits for a buffer, except those of the blocks `others`. */
  ghost predicate Unlocked(buf: seq<Buf>, others: set<nat>)
  {
    forall i :: 0 <= i < |buf| ==> Spared(buf[i], others)
  }

  ghost predicate Spared(b: Buf, others: set<nat>) { Idle(b) || b.blockno in others }

  predicate Idle(b: Buf) { !b.locked && b.waiting == 0 && b.leaving == 0 }

  /** The blocks pinned in the cache are those of the list. */
  ghost predicate LogOk(l: Layout, disk: Disk, mem: Disk, pinned: set<nat>, lh: seq<nat>)
  {
    && ValidDisk(l, disk)
    && GoodList(l, disk, lh)
    && (forall b :: b in pinned <==> b in lh)
    && (forall b :: b in mem ==> |mem[b]| == l.words)
  }

  lemma LogOkWrite(l: Layout, disk: Disk, mem: Disk, pinned: set<nat>, lh: seq<nat>, w: Write)
    requires LogOk(l, disk, mem, pinned, lh) && w.blockno in disk && |w.data| == l.words
    ensures LogOk(l, disk[w.blockno := w.data], mem[w.blockno := w.data], pinned, lh)
  {
  }

  lemma LogOkAbsorb(l: Layout, disk: Disk, mem: Disk, pinned: set<nat>, lh: seq<nat>, b: nat, data: Block)
    requires LogOk(l, disk, mem, pinned, lh) && |lh| < l.cap
    requires b in disk && !l.InLog(b) && |data| == l.words
    ensures LogOk(l, disk, mem[b := data], pinned + {b}, GroupCommit.Absorb(lh, b))
  {
  }

  lemma LogOkUnpin(l: Layout, disk: Disk, mem: Disk, pinned: set<nat>, pins: seq<nat>)
    requires LogOk(l, disk, mem, pinned, pins) && pins != []
    ensures LogOk(l, disk, mem, pinned - {pins[0]}, pins[1..])
  {
    forall b
      ensures b in pinned - {pins[0]} <==> b in pins[1..]
    {
      if b in pinned - {pins[0]} {
        var i :| 0 <= i < |pins| && pins[i] == b;
        assert pins[1..][i - 1] == b;
      }
    }
  }

  lemma {:induction false} DistinctCount(lh: seq<nat>, s: set<nat>)
    requires Distinct(lh) && forall b :: b in s <==> b in lh
    ensures |s| == |lh|
  {
    if lh == [] {
      assert s == {};
    } else {
      var n := |lh| - 1;
      assert forall b :: b in s - {lh[n]} <==> b in lh[..n];
      DistinctCount(lh[..n], s - {lh[n]});
    }
  }

  /** A commit finds the one free buffer it needs as long as the transaction and what other processes
      hold leave one. */
  lemma RoomForOne(l: Layout, v: View, lh: seq<nat>, others: set<nat>)
    requires Agrees(v) && LogOk(l, v.disk, v.mem, v.pinned, lh) && Unlocked(v.buf, others)
    requires |lh| + |others| < |v.buf|
    ensures exists i :: 0 <= i < |v.buf| && v.buf[i].refcnt == 0
  {
    DistinctCount(lh, v.pinned);
    assert HeldBlocks(v.buf) <= others by {
      assert forall i :: 0 <= i < |v.buf| ==> Spared(v.buf[i], others);
    }
    UnionSize(v.pinned, HeldBlocks(v.buf), others);
    FreeBuffer(v);
  }

  lemma {:induction false} UnionSize(a: set<nat>, b: set<nat>, c: set<nat>)
    requires b <= c
    ensures |a + b| <= |a| + |c|
  {
    if b == {} {
      assert a + b == a;
    } else {
      var x :| x in b;
      UnionSize(a, b - {x}, c - {x});
      assert a + b == a + (b - {x}) + {x};
    }
  }

  /** bget() finds a buffer for the block: one that holds it, or a free one. */
  ghost predicate CanGet(v: View, blockno: nat)
  {
    exists i :: 0 <= i < |v.buf| && (Holds(v.buf[i], v.dev, blockno) || v.buf[i].refcnt == 0)
  }

  /** The bound is exact: when other processes hold the blocks `others`, the first bread of a commit, of a
      log block, gets a buffer if and only if the logged and the held blocks leave one; else it hits
      "bget: no buffers". */
  lemma RoomExactly(l: Layout, v: View, lh: seq<nat>, others: set<nat>, blockno: nat)
    requires Agrees(v) && LogOk(l, v.disk, v.mem, v.pinned, lh) && HeldBlocks(v.buf) == others
    requires (forall b :: b in others ==> !l.InLog(b) && b !in lh) && l.InLog(blockno)
    ensures CanGet(v, blockno) <==> |lh| + |others| < |v.buf|
  {
    DistinctCount(lh, v.pinned);
    DisjointSize(v.pinned, others);
    FreeBufferExactly(v);
    forall i | 0 <= i < |v.buf| && Holds(v.buf[i], v.dev, blockno) ensures v.buf[i].refcnt == 0 {
      LogBlockIsFree(l, v, lh, others, i);
    }
  }

  /** A log block is never pinned, and nobody else holds it. */
  lemma LogBlockIsFree(l: Layout, v: View, lh: seq<nat>, others: set<nat>, i: nat)
    requires Agrees(v) && LogOk(l, v.disk, v.mem, v.pinned, lh) && HeldBlocks(v.buf) == others
    requires (forall b :: b in others ==> !l.InLog(b)) && i < |v.buf| && l.InLog(v.buf[i].blockno)
    ensures v.buf[i].refcnt == 0
  {
    assert BufOk(v, i);
    assert v.buf[i].blockno !in HeldBlocks(v.buf);
  }

  /** With one buffer locked and nothing pinned, two buffers are enough. */
  lemma RoomForTwo(v: View, b: nat)
    requires Agrees(v) && v.pinned == {} && |v.buf| >= 2 && b < |v.buf| && v.buf[b].locked
    requires forall i :: 0 <= i < |v.buf| && i != b ==> Idle(v.buf[i])
    ensures HeldBlocks(v.buf) == {v.buf[b].blockno}
    ensures exists i :: 0 <= i < |v.buf| && v.buf[i].refcnt == 0
  {
    assert v.pinned + HeldBlocks(v.buf) == {v.buf[b].blockno};
    FreeBuffer(v);
  }

  /** One more write of a list, on the disk, on its meaning and in the trace. */
  lemma OneMore(d: Disk, m: Disk, ws: seq<Write>, k: nat)
    requires k < |ws|
    ensures ws[..k + 1] == ws[..k] + [ws[k]]
    ensures Apply(d, ws[..k + 1]) == Apply(d, ws[..k])[ws[k].blockno := ws[k].data]
    ensures Apply(m, ws[..k + 1]) == Apply(m, ws[..k])[ws[k].blockno := ws[k].data]
  {
    ApplyNext(d, ws, k);
    ApplyNext(m, ws, k);
  }

  /** The tail-th write of write_log() still finds the block as it was at the start. */
  lemma LogWriteStep(l: Layout, disk: Disk, mem: Disk, lh: seq<nat>, ws: seq<Write>, tail: nat)
    requires GoodList(l, disk, lh) && tail < |lh| && mem.Keys == disk.Keys && ws == LogWrites(l, lh, mem)
    ensures lh[tail] in Apply(mem, ws[..tail]) && Apply(mem, ws[..tail])[lh[tail]] == mem[lh[tail]]
  {
    assert forall i :: 0 <= i < tail ==> l.InLog(l.Slot(i));
    ApplyUntouched(mem, ws[..tail], lh[tail]);
  }

  /** The two halves of commit() make up its write list, on the disk and in the trace. */
  lemma CommitTrace(l: Layout, d: Disk, lh: seq<nat>, mem: map<nat, Block>, t: seq<Write>,
                    d2: Disk, t2: seq<Write>, d4: Disk, t4: seq<Write>)
    requires ValidDisk(l, d) && GoodList(l, d, lh) && Cached(l, lh, mem)
    requires var h := PutHead(d[l.start], lh);
      && d2 == Apply(d, LogWrites(l, lh, mem))[l.start := h]
      && t2 == t + LogWrites(l, lh, mem) + [Write(l.start, h)]
    requires forall i :: 0 <= i < |lh| ==> l.Slot(i) in d2
    requires var h := PutHead(d2[l.start], []);
      && d4 == Apply(d2, InstallWrites(l, lh, d2))[l.start := h]
      && t4 == t2 + InstallWrites(l, lh, d2) + [Write(l.start, h)]
    ensures d4 == Apply(d, CommitWrites(l, d, lh, mem))
    ensures t4 == t + CommitWrites(l, d, lh, mem)
  {
    hide Apply, LogWrites, InstallWrites, CommitWrites;
    CommitStages(l, d, lh, mem, Apply(d, LogWrites(l, lh, mem)), d2, Apply(d2, InstallWrites(l, lh, d2)));
  }

  /** A crash after any k of the writes recovers to `before` up to write c, and to `after` from then on. */
  ghost predicate CrashSafe(l: Layout, d: Disk, ws: seq<Write>, c: nat, before: Disk, after: Disk)
  {
    forall k :: 0 <= k <= |ws| ==>
      && GoodLog(l, Apply(d, ws[..k]))
      && Recovered(l, Apply(d, ws[..k])) == if k <= c then before else after
  }

  lemma CommitIsCrashSafe(l: Layout, d: Disk, lh: seq<nat>, mem: map<nat, Block>)
    requires GoodLog(l, d) && LogOf(l, d) == [] && GoodList(l, d, lh) && Cached(l, lh, mem)
    ensures var ws := CommitWrites(l, d, lh, mem);
      && CrashSafe(l, d, ws, |lh|, Home(l, d), Overlay(l, d, lh, mem))
      && GoodLog(l, Apply(d, ws)) && LogOf(l, Apply(d, ws)) == []
      && Home(l, Apply(d, ws)) == Overlay(l, d, lh, mem)
  {
    var ws := CommitWrites(l, d, lh, mem);
    CommitIsAtomic(l, d, lh, mem, 2 * |lh| + 2);
    assert ws[..|ws|] == ws;
    forall k | 0 <= k <= |ws|
      ensures GoodLog(l, Apply(d, ws[..k]))
      ensures Recovered(l, Apply(d, ws[..k])) == if k <= |lh| then Home(l, d) else Overlay(l, d, lh, mem)
    {
      CommitIsAtomic(l, d, lh, mem, k);
    }
  }

  lemma RecoveryIsCrashSafe(l: Layout, d: Disk)
    requires GoodLog(l, d)
    ensures var ws := RecoveryWrites(l, d);
      && CrashSafe(l, d, ws, |ws|, Recovered(l, d), Recovered(l, d))
      && GoodLog(l, Apply(d, ws)) && LogOf(l, Apply(d, ws)) == []
      && Home(l, Apply(d, ws)) == Recovered(l, d)
  {
    var ws := RecoveryWrites(l, d);
    RecoveryIsIdempotent(l, d, |ws|);
    assert ws[..|ws|] == ws;
    forall k | 0 <= k <= |ws|
      ensures GoodLog(l, Apply(d, ws[..k])) && Recovered(l, Apply(d, ws[..k])) == Recovered(l, d)
    {
      RecoveryIsIdempotent(l, d, k);
    }
  }

  /** What memory shows of the home blocks is the disk overlaid with the logged blocks. */
  lemma MemIsOverlay(l: Layout, v: View, lh: seq<nat>)
    requires Agrees(v) && LogOk(l, v.disk, v.mem, v.pinned, lh)
    ensures Cached(l, lh, v.mem) && Home(l, v.mem) == Overlay(l, v.disk, lh, v.mem)
  {
  }

  lemma NothingLogged(l: Layout, disk: Disk, mem: Disk)
    requires Home(l, mem) == Overlay(l, disk, [], mem)
    ensures Home(l, mem) == Home(l, disk)
  {
  }

  lemma RecoveryTrace(l: Layout, d: Disk, t: seq<Write>, lh: seq<nat>, d2: Disk, t2: seq<Write>)
    requires GoodLog(l, d) && lh == LogOf(l, d) && forall i :: 0 <= i < |lh| ==> l.Slot(i) in d
    requires var h := PutHead(d[l.start], []);
      && d2 == Apply(d, InstallWrites(l, lh, d))[l.start := h]
      && t2 == t + InstallWrites(l, lh, d) + [Write(l.start, h)]
    ensures d2 == Apply(d, RecoveryWrites(l, d))
    ensures t2 == t + RecoveryWrites(l, d)
  {
    ApplySnoc(d, InstallWrites(l, lh, d), Write(l.start, PutHead(d[l.start], [])));
  }

  /** The tail-th write of install_trans() still finds its log slot as it was at the start. */
  lemma InstallStep(l: Layout, disk: Disk, lh: seq<nat>, ws: seq<Write>, tail: nat)
    requires ValidDisk(l, disk) && GoodList(l, disk, lh) && tail < |lh|
    requires (forall i :: 0 <= i < |lh| ==> l.Slot(i) in disk) && ws == InstallWrites(l, lh, disk)
    ensures l.Slot(tail) in Apply(disk, ws[..tail]) && Apply(disk, ws[..tail])[l.Slot(tail)] == disk[l.Slot(tail)]
    ensures Apply(disk, ws[..tail]).Keys == disk.Keys
  {
    assert l.InLog(l.Slot(tail));
    ApplyUntouched(disk, ws[..tail], l.Slot(tail));
    ApplyKeys(disk, ws[..tail]);
  }

  lemma SlotsOnDisk(l: Layout, disk: Disk, lh: seq<nat>)
    requires ValidDisk(l, disk) && |lh| <= l.cap
    ensures forall i :: 0 <= i < |lh| ==> l.Slot(i) in disk
  {
  }

  /** The four stages of commit() make up its write list. */
  lemma CommitStages(l: Layout, d: Disk, lh: seq<nat>, mem: map<nat, Block>, d1: Disk, d2: Disk, d3: Disk)
    requires ValidDisk(l, d) && GoodList(l, d, lh) && Cached(l, lh, mem)
    requires d1 == Apply(d, LogWrites(l, lh, mem))
    requires d2 == d1[l.start := PutHead(d[l.start], lh)]
    requires forall i :: 0 <= i < |lh| ==> l.Slot(i) in d2
    requires d3 == Apply(d2, InstallWrites(l, lh, d2))
    ensures var h1 := Write(l.start, PutHead(d[l.start], lh));
      var h2 := Write(l.start, PutHead(PutHead(d[l.start], lh), []));
      && CommitWrites(l, d, lh, mem) == LogWrites(l, lh, mem) + [h1] + InstallWrites(l, lh, d2) + [h2]
      && Apply(d, CommitWrites(l, d, lh, mem)) == d3[l.start := h2.data]
  {
    var h1 := Write(l.start, PutHead(d[l.start], lh));
    var h2 := Write(l.start, PutHead(PutHead(d[l.start], lh), []));
    LoggedSlots(l, d, lh, mem);
    assert InstallWrites(l, lh, d2) == InstallWrites(l, lh, d1);
    FourParts(d, LogWrites(l, lh, mem), h1, InstallWrites(l, lh, d2), h2);
  }

  lemma FourParts(d: Disk, a: seq<Write>, v: Write, b: seq<Write>, w: Write)
    ensures Apply(d, a + [v] + b + [w]) == Apply(Apply(d, a)[v.blockno := v.data], b)[w.blockno := w.data]
  {
    ApplySnoc(d, a, v);
    ApplyAppend(d, a + [v], b);
    ApplySnoc(d, a + [v] + b, w);
  }

  class Log {
    const l: Layout
    const maxOp: nat
    const cache: Cache
    var lh: seq<nat>
    var outstanding: int
    var committing: bool

    /** The blocks log_write has pinned and install_trans has not yet unpinned. */
    ghost var pins: seq<nat>

    ghost predicate Ok()
      reads this, cache
    {
      cache.Valid() && LogOk(l, cache.disk, cache.mem, cache.pinned, pins)
    }

    /** The blocks whose buffers other processes may hold meanwhile, reading outside transactions. */
    ghost var others: set<nat>

    ghost predicate Apart()
      reads this
    {
      forall b :: b in others ==> !l.InLog(b) && b !in pins
    }

    /** No buffer is locked but those of others, which are not of the log. */
    ghost predicate Quiet()
      reads this, cache
    {
      Ok() && Unlocked(cache.buf, others) && Apart()
    }

    /** initlog(): set the fields, then recover. */
    constructor (l: Layout, maxOp: nat, cache: Cache)
      requires cache.Valid() && Unlocked(cache.buf, {}) && cache.pinned == {} && cache.n >= 2
      requires GoodLog(l, cache.disk)
      modifies cache
      ensures this.l == l && this.maxOp == maxOp && this.cache == cache
      ensures Quiet() && lh == [] && pins == [] && others == {} && outstanding == 0 && !committing
      ensures GoodLog(l, cache.disk) && LogOf(l, cache.disk) == []
      ensures Home(l, cache.disk) == Home(l, cache.mem) == Recovered(l, old(cache.disk))
    {
      this.l, this.maxOp, this.cache := l, maxOp, cache;
      lh, outstanding, committing, pins, others := [], 0, false, [], {};
      new;
      assert LogOk(l, cache.disk, cache.mem, cache.pinned, pins);
      RecoverFromLog();
    }

    /** bread() of a block nobody else has; n for "bget: no buffers". */
    method TryRead(blockno: nat) returns (a: nat)
      requires Quiet() && blockno in cache.disk && blockno !in others
      modifies cache`buf
      ensures Ok() && a <= cache.n && (a < cache.n <==> old(CanGet(cache.V(), blockno)))
      ensures |pins| + |others| < cache.n ==> a < cache.n
      ensures a == cache.n ==> cache.buf == old(cache.buf)
      ensures a < cache.n ==>
        && OnlyLocked(cache.buf, a, others)
        && Holds(cache.buf[a], cache.dev, blockno) && cache.buf[a].data == cache.mem[blockno] && a !in cache.dirty
    {
      ghost var v := cache.V();
      if |pins| + |others| < cache.n {
        RoomForOne(l, v, pins, others);
      }
      var waits;
      a, waits := cache.Bread(blockno);
      assert !waits;
      if a < cache.n {
        assert BufOk(v, a);
        assert Holds(v.buf[a], v.dev, blockno) || v.buf[a].refcnt == 0;
      }
    }

    /** The same with a buffer to be had. */
    method ReadOne(blockno: nat) returns (a: nat)
      requires Quiet() && |pins| + |others| < cache.n && blockno in cache.disk && blockno !in others
      modifies cache`buf
      ensures Ok() && OnlyLocked(cache.buf, a, others)
      ensures Holds(cache.buf[a], cache.dev, blockno) && cache.buf[a].data == cache.mem[blockno] && a !in cache.dirty
    {
      a := TryRead(blockno);
    }

    /** A second bread(): the block is pinned, or nothing is and there is a buffer left. */
    method ReadAlso(a: nat, blockno: nat) returns (b: nat)
      requires Ok() && OnlyLocked(cache.buf, a, others) && blockno in cache.disk && cache.buf[a].blockno != blockno
      requires blockno !in others && Apart()
      requires blockno in pins || (pins == [] && others == {} && cache.n >= 2)
      modifies cache`buf
      ensures Ok() && b != a && PairLocked(cache.buf, a, b, others) && cache.buf[a] == old(cache.buf)[a]
      ensures Holds(cache.buf[b], cache.dev, blockno) && cache.buf[b].data == cache.mem[blockno] && b !in cache.dirty
    {
      if blockno in pins {
        assert PinOk(cache.V(), blockno);
      } else {
        RoomForTwo(cache.V(), a);
      }
      var waits;
      b, waits := cache.Bread(blockno);
      assert !waits;
    }

    /** The two breads of a block copy; n for "bget: no buffers", which only the first can hit. */
    method ReadPair(first: nat, second: nat) returns (a: nat, b: nat)
      requires Quiet() && first in cache.disk && second in cache.disk && first != second
      requires first !in others && second !in others
      requires second in pins || (pins == [] && others == {} && cache.n >= 2)
      modifies cache`buf
      ensures Ok() && a <= cache.n && (a < cache.n <==> old(CanGet(cache.V(), first)))
      ensures |pins| + |others| < cache.n ==> a < cache.n
      ensures a == cache.n ==> cache.buf == old(cache.buf)
      ensures a < cache.n ==>
        && a != b && PairLocked(cache.buf, a, b, others) && a !in cache.dirty && b !in cache.dirty
        && cache.buf[a].blockno == first && cache.buf[a].data == cache.mem[first]
        && cache.buf[b].blockno == second && cache.buf[b].data == cache.mem[second]
        && |cache.buf[a].data| == |cache.buf[b].data| == l.words
    {
      a := TryRead(first);
      if a == cache.n {
        return a, a;
      }
      b := ReadAlso(a, second);
    }

    /** Fill a locked buffer, then bwrite it. */
    method FillAndWrite(b: nat, data: Block)
      requires cache.Valid() && b < cache.n && cache.buf[b].locked && cache.buf[b].valid
      modifies cache`buf, cache`dirty, cache`disk, cache`mem, cache`writes
      ensures cache.Valid() && cache.dirty == old(cache.dirty) - {b}
      ensures cache.buf == old(cache.buf)[b := old(cache.buf)[b].(data := data)]
      ensures var w := Write(old(cache.buf)[b].blockno, data);
        && cache.disk == old(cache.disk)[w.blockno := w.data]
        && cache.mem == old(cache.mem)[w.blockno := w.data]
        && cache.writes == old(cache.writes) + [w]
    {
      cache.SetData(b, data);
      cache.Bwrite(b);
    }

    method ReleaseBoth(a: nat, b: nat)
      requires Ok() && Apart() && PairLocked(cache.buf, a, b, others) && a != b
      requires a !in cache.dirty && b !in cache.dirty
      modifies cache`buf, cache`next, cache`prev, cache`order
      ensures Quiet()
    {
      cache.Brelse(a);
      cache.Brelse(b);
    }

    /** memmove between the locked buffers, then bwrite of the first. */
    method CopyBuffer(to: nat, from: nat)
      requires Ok() && PairLocked(cache.buf, to, from, others) && to != from && from !in cache.dirty
      requires |cache.buf[from].data| == l.words
      modifies cache`buf, cache`dirty, cache`disk, cache`mem, cache`writes
      ensures Ok() && PairLocked(cache.buf, to, from, others) && to !in cache.dirty && from !in cache.dirty
      ensures var w := Write(old(cache.buf)[to].blockno, old(cache.buf)[from].data);
        && cache.buf[to].blockno == w.blockno
        && cache.disk == old(cache.disk)[w.blockno := w.data]
        && cache.mem == old(cache.mem)[w.blockno := w.data]
        && cache.writes == old(cache.writes) + [w]
    {
      assert BufOk(cache.V(), to);
      LogOkWrite(l, cache.disk, cache.mem, cache.pinned, pins, Write(cache.buf[to].blockno, cache.buf[from].data));
      FillAndWrite(to, cache.buf[from].data);
    }

    /** One turn of the loop in write_log(): copy the cached block to its log slot; true means "bget: no
        buffers". */
    method LogBlock(tail: nat) returns (panicked: bool)
      requires Quiet() && pins == lh && tail < |lh|
      modifies cache
      ensures Quiet() && cache.pinned == old(cache.pinned)
      ensures panicked <==> !old(CanGet(cache.V(), l.Slot(tail)))
      ensures |lh| + |others| < cache.n ==> !panicked
      ensures panicked ==> cache.V() == old(cache.V()) && cache.writes == old(cache.writes)
      ensures !panicked ==> var w := Write(l.Slot(tail), old(cache.mem)[lh[tail]]);
        && cache.disk == old(cache.disk)[w.blockno := w.data]
        && cache.mem == old(cache.mem)[w.blockno := w.data]
        && cache.writes == old(cache.writes) + [w]
    {
      hide Agrees, Linked, PairLocked, CanGet;
      assert l.InLog(l.Slot(tail));
      var to, from := ReadPair(l.Slot(tail), lh[tail]);
      if to == cache.n {
        return true;
      }
      CopyBuffer(to, from);
      ReleaseBoth(from, to);
      panicked := false;
    }

    /** The disk, its meaning and the trace after the first k of the writes ws. */
    ghost predicate After(d: Disk, m: Disk, t: seq<Write>, ws: seq<Write>, k: nat)
      requires k <= |ws|
      reads cache
    {
      && cache.disk == Apply(d, ws[..k])
      && cache.mem == Apply(m, ws[..k])
      && cache.writes == t + ws[..k]
    }

    method LogTurn(tail: nat, ghost d: Disk, ghost m: Disk, ghost t: seq<Write>, ghost ws: seq<Write>)
      returns (panicked: bool)
      requires Quiet() && pins == lh && tail < |lh|
      requires GoodList(l, d, lh) && m.Keys == d.Keys && ws == LogWrites(l, lh, m) && After(d, m, t, ws, tail)
      modifies cache
      ensures Quiet() && cache.pinned == old(cache.pinned)
      ensures panicked <==> !old(CanGet(cache.V(), l.Slot(tail)))
      ensures |lh| + |others| < cache.n ==> !panicked
      ensures panicked ==> cache.V() == old(cache.V()) && cache.writes == old(cache.writes)
      ensures !panicked ==> After(d, m, t, ws, tail + 1)
    {
      hide CanGet, Agrees, Linked;
      LogWriteStep(l, d, m, lh, ws, tail);
      OneMore(d, m, ws, tail);
      panicked := LogBlock(tail);
    }

    lemma KeysAgree()
      requires Ok()
      ensures cache.mem.Keys == cache.disk.Keys && GoodList(l, cache.disk, pins)
    {
    }

    /** Whether the first bread of a commit gets a buffer, when others hold exactly `others`. */
    lemma FirstRead()
      requires Quiet() && pins == lh != [] && HeldBlocks(cache.buf) == others
      ensures CanGet(cache.V(), l.Slot(0)) <==> |lh| + |others| < cache.n
    {
      assert l.InLog(l.Slot(0));
      RoomExactly(l, cache.V(), lh, others, l.Slot(0));
    }

    /** write_log(); true means "bget: no buffers", which only its first bread can hit. */
    method WriteLog() returns (panicked: bool)
      requires Quiet() && pins == lh != [] && HeldBlocks(cache.buf) == others
      modifies cache
      ensures Quiet() && cache.pinned == old(cache.pinned)
      ensures panicked <==> |lh| + |others| >= cache.n
      ensures panicked ==> cache.V() == old(cache.V()) && cache.writes == old(cache.writes)
      ensures forall i :: 0 <= i < |lh| ==> lh[i] in old(cache.mem)
      ensures !panicked ==> var ws := LogWrites(l, lh, old(cache.mem));
        After(old(cache.disk), old(cache.mem), old(cache.writes), ws, |ws|)
    {
      hide Agrees, Linked, CanGet;
      ghost var d, m, t := cache.disk, cache.mem, cache.writes;
      KeysAgree();
      FirstRead();
      ghost var ws := LogWrites(l, lh, m);
      var tail := 0;
      while tail < |lh|
        invariant 0 <= tail <= |lh|
        invariant Quiet() && cache.pinned == old(cache.pinned)
        invariant After(d, m, t, ws, tail)
        invariant if tail > 0 then |lh| + |others| < cache.n
                  else cache.V() == old(cache.V()) && cache.writes == old(cache.writes)
      {
        panicked := LogTurn(tail, d, m, t, ws);
        if panicked {
          return;
        }
        tail := tail + 1;
      }
      panicked := false;
    }

    lemma InDisk(b: nat)
      requires Ok() && b < cache.n && cache.buf[b].locked
      ensures cache.buf[b].blockno in cache.disk
      ensures cache.buf[b].blockno in cache.pinned <==> cache.buf[b].blockno in pins
    {
      assert BufOk(cache.V(), b);
    }

    /** Fill, bwrite and brelse the only locked buffer. */
    method WriteAndRelease(b: nat, data: Block)
      requires Ok() && Apart() && OnlyLocked(cache.buf, b, others) && |data| == l.words
      modifies cache
      ensures Quiet() && cache.pinned == old(cache.pinned)
      ensures var w := Write(old(cache.buf)[b].blockno, data);
        && cache.disk == old(cache.disk)[w.blockno := w.data]
        && cache.mem == old(cache.mem)[w.blockno := w.data]
        && cache.writes == old(cache.writes) + [w]
    {
      hide Agrees, Linked, LogOk, Apart;
      InDisk(b);
      LogOkWrite(l, cache.disk, cache.mem, cache.pinned, pins, Write(cache.buf[b].blockno, data));
      FillAndWrite(b, data);
      cache.Brelse(b);
    }

    /** write_head(). */
    method WriteHead()
      requires Quiet() && |pins| + |others| < cache.n && |lh| <= l.cap
      modifies cache
      ensures Quiet() && cache.pinned == old(cache.pinned)
      ensures var w := Write(l.start, PutHead(old(cache.disk)[l.start], lh));
        && cache.disk == old(cache.disk)[w.blockno := w.data]
        && cache.mem == old(cache.mem)[w.blockno := w.data]
        && cache.writes == old(cache.writes) + [w]
    {
      NotPinned(l.start);
      var b := ReadOne(l.start);
      WriteAndRelease(b, PutHead(cache.buf[b].data, lh));
    }

    /** The loop of read_head(). */
    static method CopyHead(head: Block) returns (blocks: seq<nat>)
      requires |head| > 0 && head[0] < |head|
      ensures blocks == GetHead(head)
    {
      blocks := [];
      var i := 0;
      while i < head[0]
        invariant 0 <= i <= head[0] && blocks == head[1..1 + i]
      {
        blocks := blocks + [head[1 + i]];
        i := i + 1;
      }
    }

    /** read_head(). */
    method ReadHead()
      requires Quiet() && |pins| + |others| < cache.n && GoodLog(l, cache.disk)
      modifies this`lh, cache`buf, cache`next, cache`prev, cache`order
      ensures Quiet() && lh == LogOf(l, cache.disk)
    {
      NotPinned(l.start);
      var b := ReadOne(l.start);
      lh := CopyHead(cache.buf[b].data);
      cache.Brelse(b);
    }

    /** bunpin() of the next block to be installed, which has just been written home. */
    method UnpinFirst(b: nat)
      requires Ok() && Apart() && pins != [] && b < cache.n && cache.buf[b].locked && cache.buf[b].blockno == pins[0]
      requires pins[0] in cache.mem && pins[0] in cache.disk && cache.mem[pins[0]] == cache.disk[pins[0]]
      modifies this`pins, cache`buf, cache`pinned
      ensures Ok() && Apart() && pins == old(pins)[1..]
      ensures old(cache.buf)[b].refcnt > 0
      ensures cache.buf == old(cache.buf)[b := old(cache.buf)[b].(refcnt := old(cache.buf)[b].refcnt - 1)]
    {
      hide Linked, Agrees;
      InDisk(b);
      LogOkUnpin(l, cache.disk, cache.mem, cache.pinned, pins);
      cache.Bunpin(b);
      pins := pins[1..];
    }

    /** bwrite and, outside recovery, bunpin of an installed block. */
    method InstallBuffer(lbuf: nat, dbuf: nat, recovering: bool)
      requires Ok() && Apart() && PairLocked(cache.buf, lbuf, dbuf, others) && lbuf != dbuf
      requires lbuf !in cache.dirty && dbuf !in cache.dirty
      requires |cache.buf[lbuf].data| == l.words
      requires if recovering then pins == [] else pins != [] && pins[0] == cache.buf[dbuf].blockno
      modifies this`pins, cache`buf, cache`dirty, cache`disk, cache`mem, cache`writes, cache`pinned
      ensures Ok() && Apart() && PairLocked(cache.buf, lbuf, dbuf, others)
      ensures lbuf !in cache.dirty && dbuf !in cache.dirty
      ensures pins == if recovering then [] else old(pins)[1..]
      ensures var w := Write(old(cache.buf)[dbuf].blockno, old(cache.buf)[lbuf].data);
        && cache.disk == old(cache.disk)[w.blockno := w.data]
        && cache.mem == old(cache.mem)[w.blockno := w.data]
        && cache.writes == old(cache.writes) + [w]
    {
      hide Agrees, Linked, LogOk, Apart;
      CopyBuffer(dbuf, lbuf);
      if !recovering {
        UnpinFirst(dbuf);
      }
    }

    /** A block that is not pinned is on disk as it is in memory. */
    lemma NotPinned(b: nat)
      requires Ok() && b in cache.disk && b !in pins
      ensures b in cache.mem && cache.mem[b] == cache.disk[b] && |cache.disk[b]| == l.words
    {
    }

    /** One turn of the loop in install_trans(): copy the log slot to its home block. */
    method InstallBlock(tail: nat, recovering: bool)
      requires Quiet() && |pins| + |others| < cache.n && tail < |lh| && tail < l.cap
      requires lh[tail] in cache.disk && !l.InLog(lh[tail])
      requires if recovering then pins == [] && others == {} && cache.n >= 2 else pins == lh[tail..]
      modifies this`pins, cache
      ensures Quiet() && pins == if recovering then [] else lh[tail + 1..]
      ensures var w := Write(lh[tail], old(cache.disk)[l.Slot(tail)]);
        && cache.disk == old(cache.disk)[w.blockno := w.data]
        && cache.mem == old(cache.mem)[w.blockno := w.data]
        && cache.writes == old(cache.writes) + [w]
    {
      hide Agrees, Linked, PairLocked;
      assert l.InLog(l.Slot(tail));
      NotPinned(l.Slot(tail));
      assert !recovering ==> pins[0] == lh[tail];
      var lbuf, dbuf := ReadPair(l.Slot(tail), lh[tail]);
      InstallBuffer(lbuf, dbuf, recovering);
      ReleaseBoth(lbuf, dbuf);
    }

    method InstallTurn(tail: nat, recovering: bool, ghost d: Disk, ghost m: Disk, ghost t: seq<Write>,
      ghost ws: seq<Write>)
      requires Quiet() && |pins| + |others| < cache.n && tail < |lh|
      requires if recovering then pins == [] && others == {} && cache.n >= 2 else pins == lh[tail..]
      requires ValidDisk(l, d) && GoodList(l, d, lh)
      requires (forall i :: 0 <= i < |lh| ==> l.Slot(i) in d) && ws == InstallWrites(l, lh, d)
      requires After(d, m, t, ws, tail)
      modifies this`pins, cache
      ensures Quiet() && pins == if recovering then [] else lh[tail + 1..]
      ensures After(d, m, t, ws, tail + 1)
    {
      hide Agrees, Linked, Apply, InstallWrites;
      InstallStep(l, d, lh, ws, tail);
      OneMore(d, m, ws, tail);
      InstallBlock(tail, recovering);
    }

    /** install_trans(). */
    method InstallTrans(recovering: bool)
      requires Quiet() && |pins| + |others| < cache.n && GoodList(l, cache.disk, lh)
      requires if recovering then pins == [] && others == {} && cache.n >= 2 else pins == lh
      modifies this`pins, cache
      ensures Quiet() && pins == []
      ensures forall i :: 0 <= i < |lh| ==> l.Slot(i) in old(cache.disk)
      ensures var ws := InstallWrites(l, lh, old(cache.disk));
        After(old(cache.disk), old(cache.mem), old(cache.writes), ws, |ws|)
    {
      ghost var d, m, t := cache.disk, cache.mem, cache.writes;
      assert ValidDisk(l, d) && GoodList(l, d, lh);
      SlotsOnDisk(l, d, lh);
      ghost var ws := InstallWrites(l, lh, d);
      var tail := 0;
      while tail < |lh|
        invariant 0 <= tail <= |lh|
        invariant Quiet() && |pins| + |others| < cache.n && pins == (if recovering then [] else lh[tail..])
        invariant After(d, m, t, ws, tail)
      {
        InstallTurn(tail, recovering, d, m, t, ws);
        tail := tail + 1;
      }
    }

    /** The first half of commit(): write_log() and the header write. */
    method LogPhase() returns (panicked: bool)
      requires Quiet() && pins == lh != [] && HeldBlocks(cache.buf) == others
      modifies cache
      ensures Quiet() && GoodList(l, old(cache.disk), lh) && Cached(l, lh, old(cache.mem))
      ensures panicked <==> |lh| + |others| >= cache.n
      ensures panicked ==> cache.V() == old(cache.V()) && cache.writes == old(cache.writes)
      ensures GoodList(l, cache.disk, lh)
      ensures !panicked ==> var ws, h := LogWrites(l, lh, old(cache.mem)), PutHead(old(cache.disk)[l.start], lh);
        && cache.disk == Apply(old(cache.disk), ws)[l.start := h]
        && cache.writes == old(cache.writes) + ws + [Write(l.start, h)]
    {
      ghost var d, m := cache.disk, cache.mem;
      ghost var ws := LogWrites(l, lh, m);
      panicked := WriteLog();
      if panicked {
        return;
      }
      assert ws[..|ws|] == ws;
      ApplyUntouched(d, ws, l.start);
      WriteHead();
    }

    /** The second half of commit() and of recovery: install_trans(), n = 0, the clearing header write. */
    method InstallPhase(recovering: bool)
      requires Quiet() && |pins| + |others| < cache.n && GoodList(l, cache.disk, lh)
      requires if recovering then pins == [] && others == {} && cache.n >= 2 else pins == lh
      modifies this`pins, this`lh, cache
      ensures Quiet() && pins == [] && lh == []
      ensures forall i :: 0 <= i < |old(lh)| ==> l.Slot(i) in old(cache.disk)
      ensures var ws, h := InstallWrites(l, old(lh), old(cache.disk)), PutHead(old(cache.disk)[l.start], []);
        && cache.disk == Apply(old(cache.disk), ws)[l.start := h]
        && cache.writes == old(cache.writes) + ws + [Write(l.start, h)]
    {
      ghost var d := cache.disk;
      InstallTrans(recovering);
      ghost var ws := InstallWrites(l, lh, d);
      assert ws[..|ws|] == ws;
      ApplyUntouched(d, ws, l.start);
      lh := [];
      WriteHead();
    }

    /** The block writes of commit(), in the order the code issues them. */
    method CommitBlocks() returns (panicked: bool)
      requires Quiet() && pins == lh != [] && HeldBlocks(cache.buf) == others
      modifies this`pins, this`lh, cache
      ensures Quiet() && GoodList(l, old(cache.disk), old(lh)) && Cached(l, old(lh), old(cache.mem))
      ensures panicked <==> |old(lh)| + |others| >= cache.n
      ensures panicked ==>
        cache.V() == old(cache.V()) && cache.writes == old(cache.writes) && lh == old(lh) && pins == old(pins)
      ensures !panicked ==> var ws := CommitWrites(l, old(cache.disk), old(lh), old(cache.mem));
        pins == [] && lh == [] && cache.disk == Apply(old(cache.disk), ws) && cache.writes == old(cache.writes) + ws
    {
      ghost var d, m, n, t := cache.disk, cache.mem, lh, cache.writes;
      panicked := LogPhase();
      if panicked {
        return;
      }
      ghost var d2, t2 := cache.disk, cache.writes;
      InstallPhase(false);
      CommitTrace(l, d, n, m, t, d2, t2, cache.disk, cache.writes);
    }

    /** Nobody holds a block of the log or of the transaction. */
    ghost predicate Calm()
      reads this, cache
    {
      Ok() && forall b :: b in HeldBlocks(cache.buf) ==> !l.InLog(b) && b !in pins
    }

    lemma CalmIsQuiet()
      requires Calm() && others == HeldBlocks(cache.buf)
      ensures Quiet()
    {
      forall i | 0 <= i < |cache.buf| ensures Spared(cache.buf[i], others) {
        assert !Idle(cache.buf[i]) ==> cache.buf[i].blockno in HeldBlocks(cache.buf);
      }
    }

    /** commit(): the transaction reaches the disk atomically.  It empties the log, moves every logged
        block home, leaves what memory shows of the home blocks as it was, unpins every buffer it
        found pinned, and at each point of its trace of block writes a crash recovers to all of the
        old home blocks or all of the new ones.  True means the "bget: no buffers" panic: exactly when
        something is logged and that and what other processes hold take up every buffer. */
    method Commit() returns (panicked: bool)
      requires Calm() && pins == lh && GoodLog(l, cache.disk) && LogOf(l, cache.disk) == []
      modifies this`pins, this`lh, this`others, cache
      ensures Quiet() && others == HeldBlocks(old(cache.buf)) && pins == lh
      ensures panicked <==> old(lh) != [] && |old(lh)| + |HeldBlocks(old(cache.buf))| >= cache.n
      ensures panicked ==> lh == old(lh) && cache.V() == old(cache.V()) && cache.writes == old(cache.writes)
      ensures GoodLog(l, cache.disk) && LogOf(l, cache.disk) == []
      ensures !panicked ==> lh == [] && Home(l, cache.disk) == Home(l, cache.mem) == Home(l, old(cache.mem))
      ensures old(cache.writes) <= cache.writes
      ensures !panicked ==> var ws := cache.writes[|old(cache.writes)|..];
        && cache.disk == Apply(old(cache.disk), ws)
        && CrashSafe(l, old(cache.disk), ws, |old(lh)|, Home(l, old(cache.disk)), Home(l, old(cache.mem)))
    {
      ghost var d, m, n, t := cache.disk, cache.mem, lh, cache.writes;
      others := HeldBlocks(cache.buf);
      CalmIsQuiet();
      MemIsOverlay(l, cache.V(), lh);
      panicked := false;
      if |lh| > 0 {
        CommitIsCrashSafe(l, d, n, m);
        panicked := CommitBlocks();
        if panicked {
          return;
        }
        assert cache.writes[|t|..] == CommitWrites(l, d, n, m);
      } else {
        RecoveredEmpty(l, d);
        assert cache.writes[|t|..] == [];
      }
      MemIsOverlay(l, cache.V(), lh);
      NothingLogged(l, cache.disk, cache.mem);
    }

    /** recover_from_log(): any crash during it recovers to the same home blocks, and when it is done
        they are in place and the log is empty. */
    method RecoverFromLog()
      requires Quiet() && pins == [] && others == {} && cache.n >= 2 && GoodLog(l, cache.disk)
      modifies this`pins, this`lh, cache
      ensures Quiet() && pins == [] && lh == []
      ensures GoodLog(l, cache.disk) && LogOf(l, cache.disk) == []
      ensures Home(l, cache.disk) == Home(l, cache.mem) == Recovered(l, old(cache.disk))
      ensures old(cache.writes) <= cache.writes
      ensures var ws, r := cache.writes[|old(cache.writes)|..], Recovered(l, old(cache.disk));
        && cache.disk == Apply(old(cache.disk), ws)
        && CrashSafe(l, old(cache.disk), ws, |ws|, r, r)
    {
      ghost var d, t := cache.disk, cache.writes;
      RecoverBlocks();
      RecoveryIsCrashSafe(l, d);
      assert cache.writes[|t|..] == RecoveryWrites(l, d);
      MemIsOverlay(l, cache.V(), lh);
      NothingLogged(l, cache.disk, cache.mem);
    }

    method RecoverBlocks()
      requires Quiet() && pins == [] && others == {} && cache.n >= 2 && GoodLog(l, cache.disk)
      modifies this`pins, this`lh, cache
      ensures Quiet() && pins == [] && lh == []
      ensures var ws := RecoveryWrites(l, old(cache.disk));
        cache.disk == Apply(old(cache.disk), ws) && cache.writes == old(cache.writes) + ws
    {
      ghost var d, t := cache.disk, cache.writes;
      ReadHead();
      ghost var n := lh;
      InstallPhase(true);
      RecoveryTrace(l, d, t, n, cache.disk, cache.writes);
    }

    /** One turn of the loop in begin_op(): false means "sleep and try again". */
    method BeginOp() returns (admitted: bool)
      modifies this`outstanding
      ensures admitted <==> !committing && |lh| + (old(outstanding) + 1) * maxOp <= l.cap
      ensures outstanding == old(outstanding) + if admitted then 1 else 0
    {
      if committing {
        admitted := false;
      } else if |lh| + (outstanding + 1) * maxOp > l.cap {
        admitted := false;
      } else {
        outstanding := outstanding + 1;
        admitted := true;
      }
    }

    /** The search loop of log_write(): the slot of the block, or n. */
    method FindLogged(blockno: nat) returns (i: nat)
      ensures i <= |lh| && (i < |lh| ==> lh[i] == blockno) && (i == |lh| ==> blockno !in lh)
    {
      i := 0;
      while i < |lh| && lh[i] != blockno
        invariant i <= |lh| && blockno !in lh[..i]
      {
        i := i + 1;
      }
      assert lh[..|lh|] == lh;
    }

    /** log_write() of a locked buffer; true means one of its two panics. */
    method LogWrite(b: nat) returns (panicked: bool)
      requires Ok() && pins == lh && b < cache.n && cache.buf[b].locked && cache.buf[b].valid
      requires !l.InLog(cache.buf[b].blockno) && |cache.buf[b].data| == l.words
      modifies this`lh, this`pins, cache`buf, cache`mem, cache`pinned, cache`dirty
      ensures Ok() && pins == lh
      ensures panicked <==> |old(lh)| >= l.cap || outstanding < 1
      ensures panicked ==> lh == old(lh) && cache.V() == old(cache.V())
      ensures !panicked ==>
        && lh == GroupCommit.Absorb(old(lh), old(cache.buf)[b].blockno)
        && cache.V() == Logged(old(cache.V()), b)
    {
      hide Agrees, Linked, LogOk;
      if |lh| >= l.cap || outstanding < 1 {
        return true;
      }
      var blockno := cache.buf[b].blockno;
      InDisk(b);
      var i := FindLogged(blockno);
      LogOkAbsorb(l, cache.disk, cache.mem, cache.pinned, lh, blockno, cache.buf[b].data);
      if i == |lh| {
        cache.Bpin(b);
        lh := lh + [blockno];
      } else {
        cache.Absorb(b);
        assert lh[i := blockno] == lh;
      }
      pins := lh;
      panicked := false;
    }

    /** The panics of end_op(): "log.committing", and "bget: no buffers" when it is the one to commit. */
    ghost predicate EndPanics()
      reads this, cache
    {
      committing || (outstanding == 1 && lh != [] && |lh| + |HeldBlocks(cache.buf)| >= cache.n)
    }

    /** end_op(); true means a panic. */
    method EndOp() returns (panicked: bool)
      requires Ok() && pins == lh && outstanding >= 1 && GoodLog(l, cache.disk) && LogOf(l, cache.disk) == []
      requires outstanding == 1 ==> Calm()
      modifies this`pins, this`lh, this`others, this`outstanding, this`committing, cache
      ensures panicked <==> old(EndPanics())
      ensures Ok() && pins == lh && outstanding == old(outstanding) - 1
      ensures GoodLog(l, cache.disk) && LogOf(l, cache.disk) == []
      ensures panicked || outstanding > 0 ==>
        lh == old(lh) && cache.disk == old(cache.disk) && cache.writes == old(cache.writes)
      ensures !panicked ==> !committing
      ensures !panicked && outstanding == 0 ==>
        && Quiet() && lh == []
        && Home(l, cache.disk) == Home(l, cache.mem) == Home(l, old(cache.mem))
        && old(cache.writes) <= cache.writes
        && CrashSafe(l, old(cache.disk), cache.writes[|old(cache.writes)|..], |old(lh)|,
                     Home(l, old(cache.disk)), Home(l, old(cache.mem)))
    {
      outstanding := outstanding - 1;
      if committing {
        return true;
      }
      if outstanding == 0 {
        committing := true;
        panicked := Commit();
        if panicked {
          return;
        }
        committing := false;
      }
      panicked := false;
    }
  }

  /** Apart from others, exactly this buffer is locked, and it holds data. */
  ghost predicate OnlyLocked(buf: seq<Buf>, a: nat, others: set<nat>)
  {
    && a < |buf| && buf[a].locked && buf[a].valid && buf[a].waiting == 0 && buf[a].leaving == 0
    && buf[a].blockno !in others
    && (forall i :: 0 <= i < |buf| && i != a ==> Spared(buf[i], others))
  }

  /** Apart from others, exactly these two buffers are locked, and both hold data. */
  ghost predicate PairLocked(buf: seq<Buf>, a: nat, b: nat, others: set<nat>)
  {
    && a < |buf| && b < |buf|
    && buf[a].locked && buf[a].valid && buf[b].locked && buf[b].valid
    && buf[a].waiting == 0 && buf[b].waiting == 0 && buf[a].leaving == 0 && buf[b].leaving == 0
    && buf[a].blockno !in others && buf[b].blockno !in others
    && (forall i :: 0 <= i < |buf| && i != a && i != b ==> Spared(buf[i], others))
  }
}
