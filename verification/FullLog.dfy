/** A run of kernel/log.c that fills the log: whatever the sizes, if they are such that whole budgets can
    use up the log, the operations that have done so find log_write() panicking even for a block that is
    in the log already. */
module FullLog {
  import opened CrashLog
  import opened GroupCommit

  function Zeroed(words: nat): Block { seq(words, i => 0) }

  ghost predicate RunFrom(c: Config, boot: Sys, ss: seq<Sys>, acts: seq<Action>)
  {
    IsRun(c, ss, acts) && ss[0] == boot
  }

  lemma OneMoreStep(c: Config, boot: Sys, ss: seq<Sys>, acts: seq<Action>, a: Action)
    requires RunFrom(c, boot, ss, acts) && Enabled(c, ss[|acts|], a)
    ensures RunFrom(c, boot, ss + [Next(c, ss[|acts|], a)], acts + [a])
  {
  }

  /** The system is up, nothing is logged, and the disk has the blocks it had. */
  ghost predicate Idle(boot: Sys, s: Sys)
  {
    s.phase.Up? && s.lh == [] && s.ops == [] && s.outstanding == 0 && !s.committing && s.disk.Keys == boot.disk.Keys
  }

  /** k block writes of the recovery are done. */
  ghost predicate Replayed(c: Config, boot: Sys, s: Sys, k: nat)
    requires Boot(c, boot) && k <= |RecoveryWrites(c.l, boot.disk)|
  {
    && s == boot.(phase := Recovering(boot.disk, k), disk := s.disk)
    && s.disk == Apply(boot.disk, RecoveryWrites(c.l, boot.disk)[..k])
  }

  lemma ReplayStep(c: Config, boot: Sys, s: Sys, k: nat)
    requires Boot(c, boot) && k < |RecoveryWrites(c.l, boot.disk)| && Replayed(c, boot, s, k)
    ensures Enabled(c, s, RecoverWrite) && Replayed(c, boot, Next(c, s, RecoverWrite), k + 1)
  {
    hide Apply, RecoveryWrites;
    ApplyNext(boot.disk, RecoveryWrites(c.l, boot.disk), k);
  }

  lemma {:induction false} Replays(c: Config, boot: Sys, k: nat) returns (ss: seq<Sys>, acts: seq<Action>)
    requires Boot(c, boot) && k <= |RecoveryWrites(c.l, boot.disk)|
    ensures RunFrom(c, boot, ss, acts) && Replayed(c, boot, ss[|acts|], k)
  {
    if k == 0 {
      ss, acts := [boot, Next(c, boot, RecoverStart)], [RecoverStart];
    } else {
      ss, acts := Replays(c, boot, k - 1);
      ReplayStep(c, boot, ss[|acts|], k - 1);
      OneMoreStep(c, boot, ss, acts, RecoverWrite);
      ss, acts := ss + [Next(c, ss[|acts|], RecoverWrite)], acts + [RecoverWrite];
    }
  }

  lemma ComesUp(c: Config, boot: Sys) returns (ss: seq<Sys>, acts: seq<Action>)
    requires Boot(c, boot)
    ensures RunFrom(c, boot, ss, acts) && Idle(boot, ss[|acts|])
  {
    var n := |RecoveryWrites(c.l, boot.disk)|;
    ss, acts := Replays(c, boot, n);
    OneMoreStep(c, boot, ss, acts, RecoverDone);
    RecoveryIsIdempotent(c.l, boot.disk, n);
    ss, acts := ss + [Next(c, ss[|acts|], RecoverDone)], acts + [RecoverDone];
  }

  /** q operations have begun and none has logged anything. */
  ghost predicate Begun(boot: Sys, s: Sys, q: nat)
  {
    && s.phase.Up? && s.lh == [] && s.outstanding == q == |s.ops| && !s.committing && s.disk.Keys == boot.disk.Keys
    && forall j :: 0 <= j < q ==> s.ops[j].spent == 0
  }

  lemma {:induction false} Begins(c: Config, boot: Sys, q: nat) returns (ss: seq<Sys>, acts: seq<Action>)
    requires Boot(c, boot) && q * c.maxOp <= c.l.cap
    ensures RunFrom(c, boot, ss, acts) && Begun(boot, ss[|acts|], q)
  {
    if q == 0 {
      ss, acts := ComesUp(c, boot);
    } else {
      assert (q - 1) * c.maxOp <= q * c.maxOp;
      ss, acts := Begins(c, boot, q - 1);
      OneMoreStep(c, boot, ss, acts, Begin);
      ss, acts := ss + [Next(c, ss[|acts|], Begin)], acts + [Begin];
    }
  }

  /** The log holds bs[..k]: each operation in turn has added its maxOp blocks. */
  ghost predicate Filled(c: Config, boot: Sys, s: Sys, q: nat, bs: seq<nat>, k: nat)
    requires k <= |bs|
  {
    && s.phase.Up? && s.lh == bs[..k] && s.outstanding == q == |s.ops| && !s.committing
    && s.disk.Keys == boot.disk.Keys
    && forall j :: 0 <= j < q ==> s.ops[j].spent == Share(c.maxOp, j, k)
  }

  /** How many of the first k blocks operation j added. */
  function Share(maxOp: nat, j: nat, k: nat): nat
  {
    if k <= j * maxOp then 0 else if k <= (j + 1) * maxOp then k - j * maxOp else maxOp
  }

  lemma Times(x: int, n: int)
    ensures (x + 1) * n == x * n + n
  {
  }

  lemma {:induction false} Below(x: nat, y: nat, n: nat)
    ensures x < y ==> x * n + n <= y * n
    decreases y
  {
    if x < y {
      Below(x, y - 1, n);
      Times(y - 1, n);
    }
  }

  /** Whose turn it is to add block k. */
  lemma TurnIs(maxOp: nat, q: nat, k: nat)
    requires maxOp > 0 && k < q * maxOp
    ensures k / maxOp < q && k / maxOp * maxOp <= k < k / maxOp * maxOp + maxOp
  {
    var i := k / maxOp;
    assert k == i * maxOp + k % maxOp;
    Below(q, i, maxOp);
  }

  lemma ShareStep(maxOp: nat, i: nat, j: nat, k: nat)
    requires i * maxOp <= k < i * maxOp + maxOp
    ensures Share(maxOp, i, k) < maxOp
    ensures Share(maxOp, j, k + 1) == Share(maxOp, j, k) + if j == i then 1 else 0
  {
    Below(i, j, maxOp);
    Below(j, i, maxOp);
    Times(j, maxOp);
  }

  ghost predicate Loggable(c: Config, boot: Sys, bs: seq<nat>)
  {
    Distinct(bs) && forall i :: 0 <= i < |bs| ==> bs[i] in boot.disk && !c.l.InLog(bs[i])
  }

  /** Operation i adds the next block. */
  lemma TurnStep(c: Config, boot: Sys, s: Sys, q: nat, bs: seq<nat>, k: nat, i: nat, data: Block)
    requires k < |bs| == c.l.cap && Loggable(c, boot, bs) && |data| == c.l.words
    requires Filled(c, boot, s, q, bs, k) && i < q && Share(c.maxOp, i, k) < c.maxOp
    requires forall j :: 0 <= j < q ==>
      Share(c.maxOp, j, k + 1) == Share(c.maxOp, j, k) + if j == i then 1 else 0
    ensures Enabled(c, s, LogWrite(i, bs[k], data))
    ensures Filled(c, boot, Next(c, s, LogWrite(i, bs[k], data)), q, bs, k + 1)
  {
    hide Share;
    assert bs[k] in boot.disk && !c.l.InLog(bs[k]);
    assert bs[k] !in bs[..k];
    assert bs[..k] + [bs[k]] == bs[..k + 1];
  }

  /** One more log_write() of the next block by the operation whose turn it is. */
  lemma FillStep(c: Config, boot: Sys, s: Sys, q: nat, bs: seq<nat>, k: nat)
    requires c.maxOp > 0 && c.l.cap == q * c.maxOp == |bs| && Loggable(c, boot, bs) && k < |bs|
    requires Filled(c, boot, s, q, bs, k)
    ensures var a := LogWrite(k / c.maxOp, bs[k], Zeroed(c.l.words));
      Enabled(c, s, a) && Filled(c, boot, Next(c, s, a), q, bs, k + 1)
  {
    hide Share, Filled, Loggable, Enabled, Next;
    TurnIs(c.maxOp, q, k);
    ShareStep(c.maxOp, k / c.maxOp, 0, k);
    forall j | 0 <= j < q
      ensures Share(c.maxOp, j, k + 1) == Share(c.maxOp, j, k) + if j == k / c.maxOp then 1 else 0
    {
      ShareStep(c.maxOp, k / c.maxOp, j, k);
    }
    TurnStep(c, boot, s, q, bs, k, k / c.maxOp, Zeroed(c.l.words));
  }

  lemma {:induction false} Fills(c: Config, boot: Sys, q: nat, bs: seq<nat>, k: nat)
    returns (ss: seq<Sys>, acts: seq<Action>)
    requires Boot(c, boot) && c.maxOp > 0 && c.l.cap == q * c.maxOp == |bs| && Loggable(c, boot, bs) && k <= |bs|
    ensures RunFrom(c, boot, ss, acts) && Filled(c, boot, ss[|acts|], q, bs, k)
  {
    if k == 0 {
      ss, acts := Begins(c, boot, q);
    } else {
      ss, acts := Fills(c, boot, q, bs, k - 1);
      var a := LogWrite((k - 1) / c.maxOp, bs[k - 1], Zeroed(c.l.words));
      FillStep(c, boot, ss[|acts|], q, bs, k - 1);
      OneMoreStep(c, boot, ss, acts, a);
      ss, acts := ss + [Next(c, ss[|acts|], a)], acts + [a];
    }
  }

  /** From every boot, with room in the log for q whole budgets: a run after which q operations are open,
      the log is full, and the next log_write() panics, whichever operation calls it and for each block
      that is in the log already. */
  lemma AbsorbedPanics(c: Config, boot: Sys, q: nat, bs: seq<nat>) returns (ss: seq<Sys>, acts: seq<Action>)
    requires Boot(c, boot) && q > 0 && c.maxOp > 0 && c.l.cap == q * c.maxOp == |bs| && Loggable(c, boot, bs)
    ensures IsRun(c, ss, acts) && ss[0] == boot
    ensures var s := ss[|acts|];
      && |s.ops| == q && s.lh == bs && !s.phase.Panicked?
      && forall i, b, data :: 0 <= i < q && b in bs ==> NextLogWrite(c, s, i, b, data).phase.Panicked?
  {
    ss, acts := Fills(c, boot, q, bs, |bs|);
    assert bs[..|bs|] == bs;
  }
}
