/** How the buffers of BufferCache are used, told from the actions of a run: who refers to a buffer, who
    has its lock, which block it stands for, what is in it, and what reading a block gives. */
module BufferUse {
  import opened Basics
  import opened CrashLog
  import opened BufferCache

  /** What has happened to a buffer: how many bget()s, lock acquisitions, lock releases and ends of
      brelse(); the block last asked for; whether it has been read in since, what was put in it last, and
      whether that is still to be passed to bwrite() or log_write(). */
  datatype Use = Use(gets: nat, locks: nat, unlocks: nat, releases: nat, asked: Option<nat>,
                     filled: bool, data: Block, changed: bool)

  const unused := Use(0, 0, 0, 0, None, false, [], false)

  function OnDisk(d: Disk, asked: Option<nat>): Block
  {
    if asked.Some? && asked.value in d then d[asked.value] else []
  }

  /** The use of buffer i after an action on a cache over disk d. */
  function Told(d: Disk, a: Action, i: nat, u: Use): Use
  {
    if a.i != i then u
    else
      match a
      case Get(_, b) => u.(gets := u.gets + 1, asked := Some(b), filled := u.filled && u.asked == Some(b))
      case Lock(_) => u.(locks := u.locks + 1)
      case Fill(_) => u.(filled := true, data := OnDisk(d, u.asked))
      case Modify(_, data) => u.(data := data, changed := true)
      case Bwrite(_) => u.(changed := false)
      case LogWrite(_) => u.(changed := false)
      case Unpin(_) => u
      case Unlock(_) => u.(unlocks := u.unlocks + 1)
      case Release(_) => u.(releases := u.releases + 1)
  }

  function UseOf(vs: seq<View>, acts: seq<Action>, k: nat, i: nat): Use
    requires k <= |acts| && |vs| == |acts| + 1
  {
    if k == 0 then unused else Told(vs[k - 1].disk, acts[k - 1], i, UseOf(vs, acts, k - 1, i))
  }

  /** The buffer is as its use says. */
  ghost predicate UseOk(v: View, i: nat, u: Use)
  {
    && i < |v.buf|
    && var b := v.buf[i];
       && b.waiting == u.gets - u.locks && b.leaving == u.unlocks - u.releases
       && (if b.locked then 1 else 0) == u.locks - u.unlocks
       && (match u.asked case None => b.dev == 0 && !b.valid case Some(x) => Holds(b, v.dev, x))
       && b.valid == u.filled && (b.valid ==> b.data == u.data)
       && (i in v.dirty <==> u.changed)
  }

  lemma OtherBuffer(v: View, a: Action, i: nat, u: Use)
    requires Agrees(v) && Enabled(v, a) && UseOk(v, i, u) && a.i != i
    ensures UseOk(Next(v, a), i, u)
  {
    hide Agrees;
  }

  lemma OwnBuffer(v: View, a: Action, u: Use)
    requires Agrees(v) && Enabled(v, a) && UseOk(v, a.i, u)
    ensures UseOk(Next(v, a), a.i, Told(v.disk, a, a.i, u))
  {
    OkAt(v, a.i);
    hide Agrees;
  }

  lemma AgreesAt(vs: seq<View>, acts: seq<Action>, k: nat)
    requires IsRun(vs, acts) && k <= |acts|
    ensures |vs| == |acts| + 1 && Agrees(vs[k])
    ensures k < |acts| ==> Enabled(vs[k], acts[k]) && vs[k + 1] == Next(vs[k], acts[k])
  {
    CacheIsPlainDisk(vs[..k + 1], acts[..k]);
  }

  lemma {:induction false} SameBuffers(vs: seq<View>, acts: seq<Action>, k: nat)
    requires IsRun(vs, acts) && k <= |acts|
    ensures |vs[k].buf| == |vs[0].buf| && vs[k].dev == vs[0].dev
  {
    if k > 0 {
      SameBuffers(vs, acts, k - 1);
      assert vs[k] == Next(vs[k - 1], acts[k - 1]);
    }
  }

  /** In every run: a buffer's references are the processes between bget() and the end of brelse(), its
      lock is held between acquiresleep() and releasesleep(), it stands for the block last asked for, it is
      valid if it has been read in since, and holds what was last put into it. */
  lemma {:induction false} BuffersAreUsed(vs: seq<View>, acts: seq<Action>, k: nat, i: nat)
    requires IsRun(vs, acts) && k <= |acts| && i < |vs[0].buf|
    ensures |vs| == |acts| + 1 && UseOk(vs[k], i, UseOf(vs, acts, k, i))
    ensures var v, u := vs[k], UseOf(vs, acts, k, i);
      v.buf[i].refcnt == u.gets - u.releases + if v.buf[i].dev == v.dev && v.buf[i].blockno in v.pinned then 1 else 0
  {
    AgreesAt(vs, acts, k);
    SameBuffers(vs, acts, k);
    OkAt(vs[k], i);
    if k > 0 {
      BuffersAreUsed(vs, acts, k - 1, i);
      AgreesAt(vs, acts, k - 1);
      hide IsRun, Agrees, Enabled, Next, UseOk, Told;
      var u := UseOf(vs, acts, k - 1, i);
      if acts[k - 1].i == i {
        OwnBuffer(vs[k - 1], acts[k - 1], u);
      } else {
        OtherBuffer(vs[k - 1], acts[k - 1], i, u);
        SameUse(vs[k - 1].disk, acts[k - 1], i, u);
      }
      UsedRefs(vs[k], i, UseOf(vs, acts, k, i));
    } else {
      StartUsed(vs[0], i);
    }
  }

  lemma SameUse(d: Disk, a: Action, i: nat, u: Use)
    requires a.i != i
    ensures Told(d, a, i, u) == u
  {
  }

  lemma StartUsed(v: View, i: nat)
    requires Start(v) && i < |v.buf|
    ensures UseOk(v, i, unused)
  {
  }

  lemma UsedRefs(v: View, i: nat, u: Use)
    requires i < |v.buf| && v.mem.Keys == v.disk.Keys && BufOk(v, i) && UseOk(v, i, u)
    ensures v.buf[i].refcnt ==
      u.gets - u.releases + if v.buf[i].dev == v.dev && v.buf[i].blockno in v.pinned then 1 else 0
  {
  }

  /** One process at a time: from one acquisition of a buffer's lock until the next release it is locked,
      and no other process gets the lock. */
  lemma {:induction false} LockIsExclusive(vs: seq<View>, acts: seq<Action>, j: nat, k: nat, i: nat)
    requires IsRun(vs, acts) && j < k <= |acts| && i < |vs[0].buf| && acts[j] == Lock(i)
    requires forall m :: j < m < k ==> acts[m] != Unlock(i)
    ensures k < |vs| && i < |vs[k].buf| && vs[k].buf[i].locked
    ensures k < |acts| ==> acts[k] != Lock(i)
  {
    hide IsRun;
    if j < k - 1 {
      LockIsExclusive(vs, acts, j, k - 1, i);
    }
    LockRun(vs, acts, k - 1, i);
    if k < |acts| {
      LockRun(vs, acts, k, i);
    }
  }

  lemma LockRun(vs: seq<View>, acts: seq<Action>, k: nat, i: nat)
    requires IsRun(vs, acts) && k < |acts| && i < |vs[0].buf|
    ensures |vs| == |acts| + 1 && i < |vs[k].buf| && i < |vs[k + 1].buf|
    ensures acts[k] == Lock(i) || (vs[k].buf[i].locked && acts[k] != Unlock(i)) ==> vs[k + 1].buf[i].locked
    ensures acts[k] == Lock(i) ==> !vs[k].buf[i].locked
  {
    SameBuffers(vs, acts, k);
    SameBuffers(vs, acts, k + 1);
    AgreesAt(vs, acts, k);
    hide IsRun, Agrees, Next;
    if acts[k] == Lock(i) || (vs[k].buf[i].locked && acts[k] != Unlock(i)) {
      LockedAfter(vs[k], acts[k], i);
    }
  }

  lemma LockedAfter(v: View, a: Action, i: nat)
    requires Agrees(v) && Enabled(v, a) && i < |v.buf| && (a == Lock(i) || (v.buf[i].locked && a != Unlock(i)))
    ensures |Next(v, a).buf| == |v.buf| && Next(v, a).buf[i].locked
  {
    OkAt(v, i);
    hide Agrees;
  }

  // ---------------------------------------------------------------- what reading gives

  /** The writes that the calls of bwrite() and log_write(), or of bwrite() alone, come to: the block asked
      for, with what was last put into its buffer. */
  function Writes(vs: seq<View>, acts: seq<Action>, k: nat, logToo: bool): seq<Write>
    requires k <= |acts| && |vs| == |acts| + 1
  {
    if k == 0 then []
    else
      var a, u := acts[k - 1], UseOf(vs, acts, k - 1, acts[k - 1].i);
      Writes(vs, acts, k - 1, logToo) +
      if Counts(a, u, logToo) then [Write(u.asked.value, u.data)] else []
  }

  /** The blocks in the log: logged, and not unpinned since. */
  function InLog(vs: seq<View>, acts: seq<Action>, k: nat): set<nat>
    requires k <= |acts| && |vs| == |acts| + 1
  {
    if k == 0 then {}
    else
      var a, rest := acts[k - 1], InLog(vs, acts, k - 1);
      match UseOf(vs, acts, k - 1, a.i).asked
      case None => rest
      case Some(b) => if a.LogWrite? then rest + {b} else if a.Unpin? then rest - {b} else rest
  }

  /** The state of the blocks, in terms of the uses of their buffers. */
  ghost predicate BlocksOk(vs: seq<View>, acts: seq<Action>, k: nat)
    requires k <= |acts| && |vs| == |acts| + 1
  {
    && vs[k].mem == Apply(vs[0].disk, Writes(vs, acts, k, true))
    && vs[k].disk == Apply(vs[0].disk, Writes(vs, acts, k, false))
    && vs[k].pinned == InLog(vs, acts, k)
  }

  /** One step of all three. */
  lemma BlockStep(v: View, a: Action, u: Use)
    requires Agrees(v) && Enabled(v, a) && UseOk(v, a.i, u)
    ensures var w := Next(v, a);
      && (a.Bwrite? || a.LogWrite? || a.Unpin? ==> u.asked.Some?)
      && (a.Bwrite? ==> w.mem == v.mem[u.asked.value := u.data] && w.disk == v.disk[u.asked.value := u.data])
      && (a.LogWrite? ==> w.mem == v.mem[u.asked.value := u.data] && w.disk == v.disk)
      && (!a.Bwrite? && !a.LogWrite? ==> w.mem == v.mem && w.disk == v.disk)
      && w.pinned == if a.LogWrite? then v.pinned + {u.asked.value}
                     else if a.Unpin? then v.pinned - {u.asked.value} else v.pinned
  {
    OkAt(v, a.i);
    hide Agrees;
  }

  /** Does action a write, and does that count? */
  predicate Counts(a: Action, u: Use, logToo: bool) { (a.Bwrite? || (logToo && a.LogWrite?)) && u.asked.Some? }

  lemma WritesMore(vs: seq<View>, acts: seq<Action>, k: nat, logToo: bool, d: Disk)
    requires 0 < k <= |acts| && |vs| == |acts| + 1
    requires Counts(acts[k - 1], UseOf(vs, acts, k - 1, acts[k - 1].i), logToo)
    ensures var u := UseOf(vs, acts, k - 1, acts[k - 1].i);
      Apply(d, Writes(vs, acts, k, logToo)) == Apply(d, Writes(vs, acts, k - 1, logToo))[u.asked.value := u.data]
  {
    hide UseOf, Apply;
    var u := UseOf(vs, acts, k - 1, acts[k - 1].i);
    ApplySnoc(d, Writes(vs, acts, k - 1, logToo), Write(u.asked.value, u.data));
  }

  lemma WritesStay(vs: seq<View>, acts: seq<Action>, k: nat, logToo: bool)
    requires 0 < k <= |acts| && |vs| == |acts| + 1
    requires !Counts(acts[k - 1], UseOf(vs, acts, k - 1, acts[k - 1].i), logToo)
    ensures Writes(vs, acts, k, logToo) == Writes(vs, acts, k - 1, logToo)
  {
    hide UseOf;
    assert Writes(vs, acts, k - 1, logToo) + [] == Writes(vs, acts, k - 1, logToo);
  }

  lemma InLogStep(vs: seq<View>, acts: seq<Action>, k: nat)
    requires 0 < k <= |acts| && |vs| == |acts| + 1 && UseOf(vs, acts, k - 1, acts[k - 1].i).asked.Some?
    ensures var a, b, rest := acts[k - 1], UseOf(vs, acts, k - 1, acts[k - 1].i).asked.value, InLog(vs, acts, k - 1);
      InLog(vs, acts, k) == if a.LogWrite? then rest + {b} else if a.Unpin? then rest - {b} else rest
  {
    hide UseOf;
  }

  lemma InLogStays(vs: seq<View>, acts: seq<Action>, k: nat)
    requires 0 < k <= |acts| && |vs| == |acts| + 1 && !acts[k - 1].LogWrite? && !acts[k - 1].Unpin?
    ensures InLog(vs, acts, k) == InLog(vs, acts, k - 1)
  {
    hide UseOf;
  }

  /** What blocks mean, or what is on disk. */
  function Level(v: View, logToo: bool): Disk { if logToo then v.mem else v.disk }

  lemma {:induction false} LevelIsWritten(vs: seq<View>, acts: seq<Action>, k: nat, logToo: bool)
    requires IsRun(vs, acts) && k <= |acts| && |vs| == |acts| + 1
    ensures Level(vs[k], logToo) == Apply(vs[0].disk, Writes(vs, acts, k, logToo))
  {
    hide *;
    if k == 0 {
      LevelAtStart(vs, acts, logToo);
    } else {
      LevelIsWritten(vs, acts, k - 1, logToo);
      LevelStep(vs, acts, k - 1, logToo);
      if Counts(acts[k - 1], UseOf(vs, acts, k - 1, acts[k - 1].i), logToo) {
        WritesMore(vs, acts, k, logToo, vs[0].disk);
      } else {
        WritesStay(vs, acts, k, logToo);
      }
    }
  }

  lemma LevelAtStart(vs: seq<View>, acts: seq<Action>, logToo: bool)
    requires IsRun(vs, acts) && |vs| == |acts| + 1
    ensures Level(vs[0], logToo) == Apply(vs[0].disk, Writes(vs, acts, 0, logToo))
  {
  }

  lemma LevelStep(vs: seq<View>, acts: seq<Action>, k: nat, logToo: bool)
    requires IsRun(vs, acts) && k < |acts| && |vs| == |acts| + 1
    ensures var u := UseOf(vs, acts, k, acts[k].i);
      && (Counts(acts[k], u, logToo) ==>
            u.asked.Some? && Level(vs[k + 1], logToo) == Level(vs[k], logToo)[u.asked.value := u.data])
      && (!Counts(acts[k], u, logToo) ==> Level(vs[k + 1], logToo) == Level(vs[k], logToo))
  {
    hide IsRun, UseOf;
    StepUse(vs, acts, k);
  }

  lemma {:induction false} LogIsPinned(vs: seq<View>, acts: seq<Action>, k: nat)
    requires IsRun(vs, acts) && k <= |acts| && |vs| == |acts| + 1
    ensures vs[k].pinned == InLog(vs, acts, k)
  {
    hide *;
    if k == 0 {
      NothingPinned(vs, acts);
    } else {
      LogIsPinned(vs, acts, k - 1);
      StepUse(vs, acts, k - 1);
      if acts[k - 1].LogWrite? || acts[k - 1].Unpin? {
        InLogStep(vs, acts, k);
      } else {
        InLogStays(vs, acts, k);
      }
    }
  }

  /** What step k does to the blocks. */
  lemma StepUse(vs: seq<View>, acts: seq<Action>, k: nat)
    requires IsRun(vs, acts) && k < |acts| && |vs| == |acts| + 1
    ensures var v, w, a, u := vs[k], vs[k + 1], acts[k], UseOf(vs, acts, k, acts[k].i);
      && (a.Bwrite? || a.LogWrite? || a.Unpin? ==> u.asked.Some?)
      && (a.Bwrite? ==> w.mem == v.mem[u.asked.value := u.data] && w.disk == v.disk[u.asked.value := u.data])
      && (a.LogWrite? ==> w.mem == v.mem[u.asked.value := u.data] && w.disk == v.disk)
      && (!a.Bwrite? && !a.LogWrite? ==> w.mem == v.mem && w.disk == v.disk)
      && w.pinned == if a.LogWrite? then v.pinned + {u.asked.value}
                     else if a.Unpin? then v.pinned - {u.asked.value} else v.pinned
  {
    hide IsRun, Agrees, Enabled, Next, UseOk, UseOf;
    AgreesAt(vs, acts, k);
    UsedAt(vs, acts, k);
    BlockStep(vs[k], acts[k], UseOf(vs, acts, k, acts[k].i));
  }

  /** In every run, what a block means is what the writes to it say, the disk holds what bwrite() wrote, and
      the log references exactly the blocks logged and not yet installed. */
  lemma BlocksAreWritten(vs: seq<View>, acts: seq<Action>, k: nat)
    requires IsRun(vs, acts) && k <= |acts| && |vs| == |acts| + 1
    ensures BlocksOk(vs, acts, k)
  {
    hide IsRun, Apply, Writes, InLog;
    LevelIsWritten(vs, acts, k, true);
    LevelIsWritten(vs, acts, k, false);
    LogIsPinned(vs, acts, k);
  }

  lemma UsedAt(vs: seq<View>, acts: seq<Action>, k: nat)
    requires IsRun(vs, acts) && k < |acts| && |vs| == |acts| + 1
    ensures UseOk(vs[k], acts[k].i, UseOf(vs, acts, k, acts[k].i))
  {
    AgreesAt(vs, acts, k);
    SameBuffers(vs, acts, k);
    BuffersAreUsed(vs, acts, k, acts[k].i);
  }

  lemma NothingPinned(vs: seq<View>, acts: seq<Action>)
    requires IsRun(vs, acts) && |vs| == |acts| + 1
    ensures vs[0].pinned == InLog(vs, acts, 0)
  {
  }

  /** Reading a block gives the data last written to it: once the buffer that a process got for block b has
      been read in, and nobody has put anything else into it since the last bwrite() or log_write() of it,
      it holds what the writes of all processes so far have made of b. */
  lemma ReadGivesLastWrite(vs: seq<View>, acts: seq<Action>, k: nat, i: nat)
    requires IsRun(vs, acts) && k <= |acts| && |vs| == |acts| + 1 && i < |vs[0].buf|
    requires var u := UseOf(vs, acts, k, i); u.asked.Some? && u.filled && !u.changed
    ensures |vs[k].buf| == |vs[0].buf|
    ensures var b, now := UseOf(vs, acts, k, i).asked.value, Apply(vs[0].disk, Writes(vs, acts, k, true));
      b in now && vs[k].buf[i].data == now[b]
  {
    BuffersAreUsed(vs, acts, k, i);
    BlocksAreWritten(vs, acts, k);
    AgreesAt(vs, acts, k);
    SameBuffers(vs, acts, k);
    OkAt(vs[k], i);
    hide IsRun, Agrees, Enabled, Next, Apply, Writes, UseOf;
  }
}
