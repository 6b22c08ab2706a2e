/** Group commit of kernel/log.c as a state machine: any number of file-system operations
    interleave begin_op, log_write and end_op; the last end_op commits, one block write per step;
    a crash may come between any two steps, also during recovery. */
module GroupCommit {
  import opened CrashLog

  /** maxOp = MAXOPBLOCKS; the layout's cap is LOGBLOCKS. */
  datatype Config = Config(l: Layout, maxOp: nat)

  /** One log_write call: which operation, which block, which contents. */
  datatype Entry = Entry(op: nat, blockno: nat, data: Block)

  /** An operation between begin_op and end_op, and how many log slots it has added. */
  datatype Op = Op(id: nat, spent: nat)

  datatype Phase =
    | Up
    | Committing(base: Disk, done: nat)
    | Down
    | Recovering(base: Disk, done: nat)
    | Panicked

  /** `lh`, `outstanding` and `committing` are the fields of struct log, `cache` the buffers pinned
      by log_write.  `ops`, `nextOp`, `hist` and `durable` are bookkeeping for the statement: the
      running operations, the log_writes so far, and how many of them a crash now would keep. */
  datatype Sys = Sys(
    disk: Disk, phase: Phase,
    lh: seq<nat>, outstanding: int, committing: bool, cache: map<nat, Block>,
    ops: seq<Op>, nextOp: nat, hist: seq<Entry>, durable: nat)

  datatype Action =
    | Begin
    | LogWrite(op: nat, blockno: nat, data: Block)
    | End(op: nat)
    | CommitWrite
    | CommitDone
    | Crash
    | RecoverStart
    | RecoverWrite
    | RecoverDone

  // ---------------------------------------------------------------- the steps

  /** The number of block writes of commit(). */
  function CommitLength(lh: seq<nat>): nat { if lh == [] then 0 else 2 * |lh| + 2 }

  ghost predicate Running(s: Sys) { s.phase.Up? || s.phase.Committing? }

  ghost predicate MayLog(c: Config, s: Sys, i: nat, b: nat)
  {
    i < |s.ops| && (s.ops[i].spent < c.maxOp || (b in s.lh && |s.lh| < c.l.cap))
  }

  /** When a step can be taken.  begin_op waits while a commit runs or the log might overflow;
      an operation inside its transaction may call log_write while it has added fewer than
      maxOp blocks, and after that for blocks already in the log while the log is not full; it may
      call end_op at any time. */
  ghost predicate Enabled(c: Config, s: Sys, a: Action)
  {
    match a
    case Begin => Running(s) && !s.committing && |s.lh| + (s.outstanding + 1) * c.maxOp <= c.l.cap
    case LogWrite(i, b, data) =>
      && Running(s) && MayLog(c, s, i, b) && b in s.disk && !c.l.InLog(b) && |data| == c.l.words
    case End(i) => Running(s) && i < |s.ops|
    case CommitWrite => s.phase.Committing? && s.phase.done < CommitLength(s.lh)
    case CommitDone => s.phase.Committing? && s.phase.done == CommitLength(s.lh)
    case Crash => !s.phase.Panicked?
    case RecoverStart => s.phase.Down? && GoodLog(c.l, s.disk)
    case RecoverWrite =>
      s.phase.Recovering? && GoodLog(c.l, s.phase.base) && s.phase.done < |RecoveryWrites(c.l, s.phase.base)|
    case RecoverDone =>
      s.phase.Recovering? && GoodLog(c.l, s.phase.base) && s.phase.done == |RecoveryWrites(c.l, s.phase.base)|
  }

  /** Absorption: a block already in the log keeps its slot. */
  function Absorb(lh: seq<nat>, b: nat): (r: seq<nat>)
  {
    if b in lh then lh else lh + [b]
  }

  ghost function NextLogWrite(c: Config, s: Sys, i: nat, b: nat, data: Block): Sys
    requires i < |s.ops|
  {
    if |s.lh| >= c.l.cap || s.outstanding < 1 then s.(phase := Panicked)
    else
      s.(lh := Absorb(s.lh, b),
         cache := s.cache[b := data],
         ops := if b in s.lh then s.ops else s.ops[i := s.ops[i].(spent := s.ops[i].spent + 1)],
         hist := s.hist + [Entry(s.ops[i].id, b, data)])
  }

  ghost function NextEnd(c: Config, s: Sys, i: nat): Sys
    requires i < |s.ops|
  {
    var s1 := s.(outstanding := s.outstanding - 1, ops := s.ops[..i] + s.ops[i + 1..]);
    if s.committing then s.(phase := Panicked)
    else if s1.outstanding == 0 then s1.(committing := true, phase := Committing(s.disk, 0))
    else s1
  }

  /** The next block write of a commit; the header write is the one that makes the group durable. */
  ghost function NextCommitWrite(c: Config, s: Sys): Sys
    requires s.phase.Committing?
  {
    var base, k := s.phase.base, s.phase.done;
    if ValidDisk(c.l, base) && |s.lh| <= c.l.cap && Cached(c.l, s.lh, s.cache)
       && k < |CommitWrites(c.l, base, s.lh, s.cache)| then
      var w := CommitWrites(c.l, base, s.lh, s.cache)[k];
      s.(disk := s.disk[w.blockno := w.data],
         phase := Committing(base, k + 1),
         durable := if k == |s.lh| then |s.hist| else s.durable)
    else s.(phase := Panicked)
  }

  /** Power loss: only the disk survives; log_writes that were not durable are gone. */
  ghost function NextCrash(s: Sys): Sys
  {
    s.(phase := Down, lh := [], outstanding := 0, committing := false, cache := map[],
       ops := [], hist := if s.durable <= |s.hist| then s.hist[..s.durable] else s.hist)
  }

  ghost function NextRecoverWrite(c: Config, s: Sys): Sys
    requires Enabled(c, s, RecoverWrite)
  {
    var w := RecoveryWrites(c.l, s.phase.base)[s.phase.done];
    s.(disk := s.disk[w.blockno := w.data], phase := Recovering(s.phase.base, s.phase.done + 1))
  }

  ghost function Next(c: Config, s: Sys, a: Action): Sys
    requires Enabled(c, s, a)
  {
    match a
    case Begin => s.(outstanding := s.outstanding + 1, ops := s.ops + [Op(s.nextOp, 0)], nextOp := s.nextOp + 1)
    case LogWrite(i, b, data) => NextLogWrite(c, s, i, b, data)
    case End(i) => NextEnd(c, s, i)
    case CommitWrite => NextCommitWrite(c, s)
    case CommitDone => s.(phase := Up, committing := false, lh := [], cache := map[])
    case Crash => NextCrash(s)
    case RecoverStart => s.(phase := Recovering(s.disk, 0))
    case RecoverWrite => NextRecoverWrite(c, s)
    case RecoverDone => s.(phase := Up)
  }

  /** A run: states ss[0], ss[1], ... from boot, with action acts[i] between ss[i] and ss[i+1]. */
  ghost predicate IsRun(c: Config, ss: seq<Sys>, acts: seq<Action>)
  {
    && |ss| == |acts| + 1
    && Boot(c, ss[0])
    && forall i :: 0 <= i < |acts| ==>
         && Enabled(c, ss[i], acts[i])
         && ss[i + 1] == Next(c, ss[i], acts[i])
  }

  /** Power-on with any disk whose log is well formed, be it empty or a committed transaction. */
  ghost predicate Boot(c: Config, s: Sys)
  {
    && GoodLog(c.l, s.disk)
    && s.phase.Down? && s.lh == [] && s.outstanding == 0 && !s.committing && s.cache == map[]
    && s.ops == [] && s.hist == [] && s.durable == 0
  }

  // ---------------------------------------------------------------- what the log_writes mean

  /** The home blocks after performing the given log_writes in order. */
  ghost function Effect(home: Disk, h: seq<Entry>): Disk
  {
    if h == [] then home
    else Effect(home, h[..|h| - 1])[h[|h| - 1].blockno := h[|h| - 1].data]
  }

  ghost function Unspent(c: Config, ops: seq<Op>): int
  {
    if ops == [] then 0 else Unspent(c, ops[..|ops| - 1]) + (c.maxOp - ops[|ops| - 1].spent)
  }

  lemma {:induction false} UnspentUpdate(c: Config, ops: seq<Op>, i: nat, o: Op)
    requires i < |ops|
    ensures Unspent(c, ops[i := o]) == Unspent(c, ops) - o.spent + ops[i].spent
  {
    var n := |ops| - 1;
    if i < n {
      assert ops[i := o][..n] == ops[..n][i := o];
      UnspentUpdate(c, ops[..n], i, o);
    } else {
      assert ops[i := o][..n] == ops[..n];
    }
  }

  lemma {:induction false} UnspentRemove(c: Config, ops: seq<Op>, i: nat)
    requires i < |ops|
    ensures Unspent(c, ops[..i] + ops[i + 1..]) == Unspent(c, ops) - (c.maxOp - ops[i].spent)
  {
    var n := |ops| - 1;
    var r := ops[..i] + ops[i + 1..];
    if i < n {
      assert r[..n - 1] == ops[..n][..i] + ops[..n][i + 1..];
      UnspentRemove(c, ops[..n], i);
    } else {
      assert r == ops[..n];
    }
  }

  lemma {:induction false} UnspentBounds(c: Config, ops: seq<Op>)
    requires forall i :: 0 <= i < |ops| ==> ops[i].spent <= c.maxOp
    ensures 0 <= Unspent(c, ops) <= |ops| * c.maxOp
    ensures forall i :: 0 <= i < |ops| ==> c.maxOp - ops[i].spent <= Unspent(c, ops)
  {
    if ops != [] {
      UnspentBounds(c, ops[..|ops| - 1]);
    }
  }

  // ---------------------------------------------------------------- the invariant

  /** Log space: slots in use plus the slots running operations may still add fit in the log. */
  ghost predicate SpaceReserved(c: Config, s: Sys)
  {
    && (forall i :: 0 <= i < |s.ops| ==> s.ops[i].spent <= c.maxOp)
    && |s.lh| + Unspent(c, s.ops) <= c.l.cap
  }

  /** No operation has log_writes on both sides of the durable point, and none that is still
      running has any on the durable side. */
  ghost predicate WholeOps(s: Sys)
  {
    && s.durable <= |s.hist|
    && (forall i :: 0 <= i < |s.hist| ==> s.hist[i].op < s.nextOp)
    && (forall k :: 0 <= k < |s.ops| ==> s.ops[k].id < s.nextOp)
    && (forall i, k :: 0 <= i < s.durable && 0 <= k < |s.ops| ==> s.hist[i].op != s.ops[k].id)
    && (forall i, j :: 0 <= i < s.durable <= j < |s.hist| ==> s.hist[i].op != s.hist[j].op)
  }

  ghost predicate UpInv(c: Config, home: Disk, s: Sys)
    requires GoodLog(c.l, s.disk)
  {
    && LogOf(c.l, s.disk) == [] && !s.committing
    && GoodList(c.l, s.disk, s.lh) && Cached(c.l, s.lh, s.cache)
    && Overlay(c.l, s.disk, s.lh, s.cache) == Effect(home, s.hist)
    && (s.lh == [] ==> s.durable == |s.hist|)
    && (s.ops == [] ==> s.lh == [])
  }

  ghost predicate CommitInv(c: Config, home: Disk, s: Sys)
    requires s.phase.Committing? && s.durable <= |s.hist|
  {
    var base, k := s.phase.base, s.phase.done;
    && GoodLog(c.l, base) && LogOf(c.l, base) == [] && base.Keys == s.disk.Keys
    && s.committing && s.outstanding == 0
    && GoodList(c.l, base, s.lh) && Cached(c.l, s.lh, s.cache)
    && Overlay(c.l, base, s.lh, s.cache) == Effect(home, s.hist)
    && k <= CommitLength(s.lh)
    && s.disk == (if s.lh == [] then base else Apply(base, CommitWrites(c.l, base, s.lh, s.cache)[..k]))
    && (if s.lh == [] || k > |s.lh| then s.durable == |s.hist|
        else Home(c.l, base) == Effect(home, s.hist[..s.durable]))
  }

  ghost predicate DownInv(s: Sys)
  {
    && s.lh == [] && s.outstanding == 0 && !s.committing && s.ops == []
    && s.durable == |s.hist|
  }

  ghost predicate Inv(c: Config, home: Disk, s: Sys)
  {
    && GoodLog(c.l, s.disk)
    && !s.phase.Panicked?
    && WholeOps(s)
    && SpaceReserved(c, s)
    && s.outstanding == |s.ops|
    && Recovered(c.l, s.disk) == Effect(home, s.hist[..s.durable])
    && (s.phase.Up? ==> UpInv(c, home, s))
    && (s.phase.Committing? ==> CommitInv(c, home, s))
    && (s.phase.Down? ==> DownInv(s))
    && (s.phase.Recovering? ==>
          && DownInv(s) && GoodLog(c.l, s.phase.base)
          && s.phase.done <= |RecoveryWrites(c.l, s.phase.base)|
          && s.disk == Apply(s.phase.base, RecoveryWrites(c.l, s.phase.base)[..s.phase.done]))
  }

  // ---------------------------------------------------------------- every step keeps it

  lemma BeginKeeps(c: Config, home: Disk, s: Sys)
    requires Inv(c, home, s) && Enabled(c, s, Begin)
    ensures Inv(c, home, Next(c, s, Begin))
  {
    var t := Next(c, s, Begin);
    assert t.ops[..|t.ops| - 1] == s.ops;
    UnspentBounds(c, s.ops);
    UnspentBounds(c, t.ops);
    assert |t.ops| * c.maxOp == (s.outstanding + 1) * c.maxOp;
  }

  lemma OverlayWrite(l: Layout, d: Disk, lh: seq<nat>, cache: map<nat, Block>, b: nat, data: Block)
    requires GoodList(l, d, lh) && Cached(l, lh, cache)
    requires b in d && !l.InLog(b)
    ensures (forall i :: 0 <= i < |Absorb(lh, b)| ==> Absorb(lh, b)[i] in cache[b := data])
    ensures Overlay(l, d, Absorb(lh, b), cache[b := data]) == Overlay(l, d, lh, cache)[b := data]
  {
  }

  lemma LogWriteWhole(c: Config, s: Sys, i: nat, b: nat, data: Block)
    requires WholeOps(s) && i < |s.ops|
    ensures WholeOps(NextLogWrite(c, s, i, b, data))
  {
    var t := NextLogWrite(c, s, i, b, data);
    assert forall k :: 0 <= k < |t.ops| ==> t.ops[k].id == s.ops[k].id;
  }

  lemma LogWriteSpace(c: Config, s: Sys, i: nat, b: nat, data: Block)
    requires SpaceReserved(c, s) && MayLog(c, s, i, b) && s.outstanding == |s.ops|
    ensures |s.lh| < c.l.cap
    ensures var t := NextLogWrite(c, s, i, b, data); !t.phase.Panicked? || s.phase.Panicked?
    ensures SpaceReserved(c, NextLogWrite(c, s, i, b, data))
  {
    UnspentBounds(c, s.ops);
    if b !in s.lh {
      UnspentUpdate(c, s.ops, i, s.ops[i].(spent := s.ops[i].spent + 1));
    }
  }

  lemma AbsorbGood(l: Layout, d: Disk, lh: seq<nat>, cache: map<nat, Block>, b: nat, data: Block)
    requires GoodList(l, d, lh) && Cached(l, lh, cache) && |lh| < l.cap
    requires b in d && !l.InLog(b) && |data| == l.words
    ensures GoodList(l, d, Absorb(lh, b)) && Cached(l, Absorb(lh, b), cache[b := data])
  {
  }

  lemma EffectSnoc(home: Disk, h: seq<Entry>, e: Entry)
    ensures Effect(home, h + [e]) == Effect(home, h)[e.blockno := e.data]
  {
    assert (h + [e])[..|h|] == h;
  }

  lemma LogWriteUp(c: Config, home: Disk, s: Sys, i: nat, b: nat, data: Block)
    requires GoodLog(c.l, s.disk) && UpInv(c, home, s) && i < |s.ops| && |s.lh| < c.l.cap && s.outstanding >= 1
    requires b in s.disk && !c.l.InLog(b) && |data| == c.l.words
    ensures UpInv(c, home, NextLogWrite(c, s, i, b, data))
  {
    AbsorbGood(c.l, s.disk, s.lh, s.cache, b, data);
    OverlayWrite(c.l, s.disk, s.lh, s.cache, b, data);
    EffectSnoc(home, s.hist, Entry(s.ops[i].id, b, data));
  }

  lemma LogWriteKeeps(c: Config, home: Disk, s: Sys, i: nat, b: nat, data: Block)
    requires Inv(c, home, s) && Enabled(c, s, LogWrite(i, b, data))
    ensures Inv(c, home, Next(c, s, LogWrite(i, b, data)))
  {
    LogWriteWhole(c, s, i, b, data);
    LogWriteSpace(c, s, i, b, data);
    LogWriteUp(c, home, s, i, b, data);
    var t := NextLogWrite(c, s, i, b, data);
    assert t.hist[..t.durable] == s.hist[..s.durable];
  }

  lemma EndWhole(c: Config, s: Sys, i: nat)
    requires WholeOps(s) && i < |s.ops|
    ensures WholeOps(NextEnd(c, s, i))
  {
    var t := s.ops[..i] + s.ops[i + 1..];
    assert forall k :: 0 <= k < |t| ==> t[k] == s.ops[if k < i then k else k + 1];
  }

  lemma EndSpace(c: Config, s: Sys, i: nat)
    requires SpaceReserved(c, s) && i < |s.ops|
    ensures SpaceReserved(c, NextEnd(c, s, i))
  {
    UnspentRemove(c, s.ops, i);
  }

  lemma EndKeeps(c: Config, home: Disk, s: Sys, i: nat)
    requires Inv(c, home, s) && Enabled(c, s, End(i))
    ensures Inv(c, home, Next(c, s, End(i)))
  {
    EndWhole(c, s, i);
    EndSpace(c, s, i);
    RecoveredEmpty(c.l, s.disk);
    var t := NextEnd(c, s, i);
    if t.phase.Committing? {
      CommitStarts(c, home, s);
    }
  }

  lemma CommitStarts(c: Config, home: Disk, s: Sys)
    requires GoodLog(c.l, s.disk) && LogOf(c.l, s.disk) == []
    requires GoodList(c.l, s.disk, s.lh) && Cached(c.l, s.lh, s.cache)
    ensures s.disk == Apply(s.disk, CommitWrites(c.l, s.disk, s.lh, s.cache)[..0])
  {
  }

  /** One commit write, seen from the disk alone. */
  lemma CommitWriteDisk(l: Layout, base: Disk, lh: seq<nat>, cache: map<nat, Block>, k: nat, d: Disk)
    requires GoodLog(l, base) && LogOf(l, base) == [] && GoodList(l, base, lh) && Cached(l, lh, cache)
    requires k < 2 * |lh| + 2
    requires d == Apply(base, CommitWrites(l, base, lh, cache)[..k])
    ensures var ws := CommitWrites(l, base, lh, cache);
      && |ws| == 2 * |lh| + 2
      && var e := d[ws[k].blockno := ws[k].data];
         && e == Apply(base, ws[..k + 1])
         && GoodLog(l, e) && e.Keys == base.Keys
         && Recovered(l, e) == if k + 1 <= |lh| then Home(l, base) else Overlay(l, base, lh, cache)
  {
    CommitIsAtomic(l, base, lh, cache, k + 1);
    ApplyNext(base, CommitWrites(l, base, lh, cache), k);
  }

  lemma CommitWriteIs(c: Config, home: Disk, s: Sys)
    requires s.phase.Committing? && s.durable <= |s.hist| && CommitInv(c, home, s)
    requires s.phase.done < CommitLength(s.lh)
    ensures CommitWriteTo(c, s, NextCommitWrite(c, s))
  {
    CommitWriteDisk(c.l, s.phase.base, s.lh, s.cache, s.phase.done, s.disk);
  }

  ghost predicate CommitWriteTo(c: Config, s: Sys, t: Sys)
    requires s.phase.Committing?
  {
    var base, k := s.phase.base, s.phase.done;
    && ValidDisk(c.l, base) && |s.lh| <= c.l.cap && Cached(c.l, s.lh, s.cache)
    && var ws := CommitWrites(c.l, base, s.lh, s.cache);
       && |ws| == 2 * |s.lh| + 2 && k < |ws|
       && t == s.(disk := t.disk, phase := Committing(base, k + 1),
                  durable := if k == |s.lh| then |s.hist| else s.durable)
       && t.disk == Apply(base, ws[..k + 1])
       && GoodLog(c.l, t.disk) && t.disk.Keys == base.Keys
       && Recovered(c.l, t.disk) == if k + 1 <= |s.lh| then Home(c.l, base) else Overlay(c.l, base, s.lh, s.cache)
  }

  lemma CommitWriteKeeps(c: Config, home: Disk, s: Sys)
    requires Inv(c, home, s) && Enabled(c, s, CommitWrite)
    ensures Inv(c, home, Next(c, s, CommitWrite))
  {
    CommitWriteIs(c, home, s);
    CommitWriteParts(c, home, s, NextCommitWrite(c, s));
  }

  lemma CommitWriteParts(c: Config, home: Disk, s: Sys, t: Sys)
    requires Inv(c, home, s) && s.phase.Committing? && s.lh != []
    requires CommitWriteTo(c, s, t)
    ensures Inv(c, home, t)
  {
    assert s.hist[..|s.hist|] == s.hist;
    assert s.ops == [];
  }

  lemma CommitDoneKeeps(c: Config, home: Disk, s: Sys)
    requires Inv(c, home, s) && Enabled(c, s, CommitDone)
    ensures Inv(c, home, Next(c, s, CommitDone))
  {
    hide Apply, CommitWrites;
    var base, k := s.phase.base, s.phase.done;
    var t := Next(c, s, CommitDone);
    if s.lh != [] {
      CommitIsAtomic(c.l, base, s.lh, s.cache, k);
    }
    assert s.ops == [];
    RecoveredEmpty(c.l, t.disk);
    assert s.hist[..|s.hist|] == s.hist;
    assert Overlay(c.l, t.disk, [], map[]) == Home(c.l, t.disk);
  }

  lemma CrashKeeps(c: Config, home: Disk, s: Sys)
    requires Inv(c, home, s) && Enabled(c, s, Crash)
    ensures Inv(c, home, Next(c, s, Crash))
  {
    var t := Next(c, s, Crash);
    assert t.hist[..t.durable] == s.hist[..s.durable];
  }

  /** One more block write of recovery, as disks only. */
  lemma RecoverWriteDisk(l: Layout, base: Disk, k: nat, d: Disk)
    requires GoodLog(l, base) && k < |RecoveryWrites(l, base)|
    requires d == Apply(base, RecoveryWrites(l, base)[..k])
    ensures GoodLog(l, d)
    ensures RecoverWriteTo(l, base, k, d, d[RecoveryWrites(l, base)[k].blockno := RecoveryWrites(l, base)[k].data])
  {
    RecoveryIsIdempotent(l, base, k);
    RecoveryIsIdempotent(l, base, k + 1);
    ApplyNext(base, RecoveryWrites(l, base), k);
  }

  ghost predicate RecoverWriteTo(l: Layout, base: Disk, k: nat, d: Disk, e: Disk)
    requires GoodLog(l, base) && GoodLog(l, d)
  {
    && k < |RecoveryWrites(l, base)| && e == Apply(base, RecoveryWrites(l, base)[..k + 1])
    && GoodLog(l, e) && e.Keys == base.Keys && Recovered(l, e) == Recovered(l, d)
  }

  lemma RecoverWriteKeeps(c: Config, home: Disk, s: Sys)
    requires Inv(c, home, s) && Enabled(c, s, RecoverWrite)
    ensures Inv(c, home, Next(c, s, RecoverWrite))
  {
    RecoverWriteDisk(c.l, s.phase.base, s.phase.done, s.disk);
    RecoverWriteParts(c, home, s, Next(c, s, RecoverWrite));
  }

  lemma RecoverWriteParts(c: Config, home: Disk, s: Sys, t: Sys)
    requires Inv(c, home, s) && s.phase.Recovering? && GoodLog(c.l, s.phase.base)
    requires t == s.(disk := t.disk, phase := Recovering(s.phase.base, s.phase.done + 1))
    requires RecoverWriteTo(c.l, s.phase.base, s.phase.done, s.disk, t.disk)
    ensures Inv(c, home, t)
  {
    hide Apply, RecoveryWrites;
  }

  lemma RecoverDoneKeeps(c: Config, home: Disk, s: Sys)
    requires Inv(c, home, s) && Enabled(c, s, RecoverDone)
    ensures Inv(c, home, Next(c, s, RecoverDone))
  {
    assert s.hist[..|s.hist|] == s.hist;
    RecoveryIsIdempotent(c.l, s.phase.base, s.phase.done);
    assert Overlay(c.l, s.disk, [], s.cache) == Home(c.l, s.disk);
    RecoveredEmpty(c.l, s.disk);
  }

  lemma StepKeeps(c: Config, home: Disk, s: Sys, a: Action)
    requires Inv(c, home, s) && Enabled(c, s, a)
    ensures Inv(c, home, Next(c, s, a))
  {
    match a
    case Begin => BeginKeeps(c, home, s);
    case LogWrite(i, b, data) => LogWriteKeeps(c, home, s, i, b, data);
    case End(i) => EndKeeps(c, home, s, i);
    case CommitWrite => CommitWriteKeeps(c, home, s);
    case CommitDone => CommitDoneKeeps(c, home, s);
    case Crash => CrashKeeps(c, home, s);
    case RecoverStart =>
    case RecoverWrite => RecoverWriteKeeps(c, home, s);
    case RecoverDone => RecoverDoneKeeps(c, home, s);
  }

  lemma {:induction false} RunKeeps(c: Config, ss: seq<Sys>, acts: seq<Action>, i: nat)
    requires IsRun(c, ss, acts) && i < |ss|
    ensures Inv(c, Recovered(c.l, ss[0].disk), ss[i])
  {
    if i > 0 {
      RunKeeps(c, ss, acts, i - 1);
      StepKeeps(c, Recovered(c.l, ss[0].disk), ss[i - 1], acts[i - 1]);
      assert ss[i - 1 + 1] == ss[i];
    }
  }

  // ---------------------------------------------------------------- the theorems

  /** In every state of every run, crashes anywhere: a crash now and a full recovery would leave
      exactly the effect of the first `durable` log_writes; these belong to finished operations
      only, and no operation is split; and whenever the system is up, the cache over the disk shows
      every log_write. */
  lemma GroupCommitTheorem(c: Config, ss: seq<Sys>, acts: seq<Action>, i: nat)
    requires IsRun(c, ss, acts) && i < |ss|
    ensures var s, home := ss[i], Recovered(c.l, ss[0].disk);
      && s.durable <= |s.hist| && GoodLog(c.l, s.disk)
      && Recovered(c.l, s.disk) == Effect(home, s.hist[..s.durable])
      && (forall j, k :: 0 <= j < s.durable && 0 <= k < |s.ops| ==> s.hist[j].op != s.ops[k].id)
      && (forall j, k :: 0 <= j < s.durable <= k < |s.hist| ==> s.hist[j].op != s.hist[k].op)
      && (s.phase.Up? ==>
            && (forall j :: 0 <= j < |s.lh| ==> s.lh[j] in s.cache)
            && Overlay(c.l, s.disk, s.lh, s.cache) == Effect(home, s.hist)
            && (s.ops == [] ==> s.durable == |s.hist|))
  {
    RunKeeps(c, ss, acts, i);
  }

  /** In every state of every run: a commit is running exactly when `committing` is set, and then no
      operation is outstanding; with no commit running, no outstanding operation means an empty log;
      log slots in use plus unspent budgets fit in the log; and none of "log.committing", "too big a
      transaction" and "log_write outside of trans" is ever reached, nor a header recovery cannot read. */
  lemma NoPanicInAnyRun(c: Config, ss: seq<Sys>, acts: seq<Action>, i: nat)
    requires IsRun(c, ss, acts) && i < |ss|
    ensures var s := ss[i];
      && !s.phase.Panicked?
      && (s.committing <==> s.phase.Committing?)
      && (s.committing ==> s.outstanding == 0 && s.ops == [])
      && (s.outstanding == 0 && !s.committing ==> s.lh == [])
      && |s.lh| + Unspent(c, s.ops) <= c.l.cap
      && (s.phase.Down? ==> Enabled(c, s, RecoverStart))
  {
    RunKeeps(c, ss, acts, i);
  }

  /** When log_write panics, exactly: inside a transaction it does so if and only if the log is full,
      also when the block is already logged and would only be absorbed.  An operation that has not
      spent its budget never sees a full log. */
  lemma LogWritePanicsExactly(c: Config, ss: seq<Sys>, acts: seq<Action>, i: nat, k: nat, b: nat, data: Block)
    requires IsRun(c, ss, acts) && i < |ss| && k < |ss[i].ops|
    ensures NextLogWrite(c, ss[i], k, b, data).phase.Panicked? <==> |ss[i].lh| >= c.l.cap
    ensures ss[i].ops[k].spent < c.maxOp ==> |ss[i].lh| < c.l.cap
  {
    RunKeeps(c, ss, acts, i);
    UnspentBounds(c, ss[i].ops);
  }

  /** Durability: what is durable in one state of a run stays durable, unchanged, in every later
      one, whatever crashes come between. */
  lemma {:induction false} DurableForever(c: Config, ss: seq<Sys>, acts: seq<Action>, i: nat, j: nat)
    requires IsRun(c, ss, acts) && i <= j < |ss|
    ensures ss[i].durable <= |ss[i].hist| && ss[i].durable <= ss[j].durable <= |ss[j].hist|
    ensures ss[j].hist[..ss[i].durable] == ss[i].hist[..ss[i].durable]
    decreases j
  {
    if i < j {
      var k := j - 1;
      DurableForever(c, ss, acts, i, k);
      assert ss[k + 1] == Next(c, ss[k], acts[k]);
      DurableStep(c, ss[k], acts[k]);
      PrefixTrans(ss[i].hist, ss[j - 1].hist, ss[j].hist, ss[i].durable, ss[j - 1].durable);
    } else {
      RunKeeps(c, ss, acts, j);
    }
  }

  lemma PrefixTrans(a: seq<Entry>, b: seq<Entry>, c: seq<Entry>, m: nat, n: nat)
    requires m <= n && m <= |a| && n <= |b| && n <= |c|
    requires a[..m] == b[..m] && b[..n] == c[..n]
    ensures a[..m] == c[..m]
  {
    assert b[..m] == b[..n][..m] == c[..n][..m] == c[..m];
  }

  lemma DurableStep(c: Config, s: Sys, a: Action)
    requires s.durable <= |s.hist| && Enabled(c, s, a)
    ensures var t := Next(c, s, a);
      s.durable <= t.durable <= |t.hist| && t.hist[..s.durable] == s.hist[..s.durable]
  {
  }
}
