/** The runs of GroupCommit against what was asked of them: which log_writes there were, who made them and
    which operations are over is read off the actions of the run, not off the state. */
module LogHistory {
  import opened CrashLog
  import opened GroupCommit

  /** The log_writes asked for in the first i steps; power loss takes back those that were not durable. */
  ghost function Asked(ss: seq<Sys>, acts: seq<Action>, i: nat): seq<Entry>
    requires i <= |acts| && |ss| == |acts| + 1
  {
    if i == 0 then []
    else
      var before, s := Asked(ss, acts, i - 1), ss[i - 1];
      match acts[i - 1]
      case LogWrite(k, b, data) => if k < |s.ops| then before + [Entry(s.ops[k].id, b, data)] else before
      case Crash => if s.durable <= |before| then before[..s.durable] else before
      case _ => before
  }

  /** How many operations are between their begin_op and their end_op. */
  function Open(acts: seq<Action>, i: nat): int
    requires i <= |acts|
  {
    if i == 0 then 0
    else
      match acts[i - 1]
      case Begin => Open(acts, i - 1) + 1
      case End(_) => Open(acts, i - 1) - 1
      case Crash => 0
      case _ => Open(acts, i - 1)
  }

  /** The operation has called end_op. */
  ghost predicate Ended(ss: seq<Sys>, acts: seq<Action>, i: nat, id: nat)
    requires i <= |acts| && |ss| == |acts| + 1
  {
    exists k :: 0 <= k < i && EndsAt(ss, acts, k, id)
  }

  ghost predicate EndsAt(ss: seq<Sys>, acts: seq<Action>, k: nat, id: nat)
    requires k < |acts| && |ss| == |acts| + 1
  {
    acts[k].End? && acts[k].op < |ss[k].ops| && ss[k].ops[acts[k].op].id == id
  }

  lemma Stepped(c: Config, ss: seq<Sys>, acts: seq<Action>, i: nat)
    requires IsRun(c, ss, acts) && i < |acts|
    ensures Enabled(c, ss[i], acts[i]) && ss[i + 1] == Next(c, ss[i], acts[i])
    ensures Inv(c, Recovered(c.l, ss[0].disk), ss[i])
  {
    hide Inv;
    RunKeeps(c, ss, acts, i);
  }

  lemma Facts(c: Config, home: Disk, s: Sys)
    requires Inv(c, home, s)
    ensures WholeOps(s) && SpaceReserved(c, s) && s.outstanding == |s.ops| && !s.phase.Panicked?
    ensures s.phase.Down? || s.phase.Recovering? || s.phase.Committing? ==> s.ops == []
  {
  }

  lemma RoomToLog(c: Config, s: Sys, i: nat, b: nat, data: Block)
    requires SpaceReserved(c, s) && s.outstanding == |s.ops| && Enabled(c, s, LogWrite(i, b, data))
    ensures i < |s.ops| && |s.lh| < c.l.cap && s.outstanding >= 1
  {
    LogWriteSpace(c, s, i, b, data);
  }

  lemma HistoryStep(c: Config, s: Sys, a: Action)
    requires Enabled(c, s, a) && s.durable <= |s.hist| && SpaceReserved(c, s) && s.outstanding == |s.ops|
    ensures a.LogWrite? ==> a.op < |s.ops|
    ensures Next(c, s, a).hist == match a
      case LogWrite(k, b, data) => s.hist + [Entry(s.ops[k].id, b, data)]
      case Crash => s.hist[..s.durable]
      case _ => s.hist
  {
    hide SpaceReserved, Absorb;
    if a.LogWrite? {
      RoomToLog(c, s, a.op, a.blockno, a.data);
    }
  }

  /** The history a state carries is what was asked for. */
  lemma {:induction false} HistoryIsAsked(c: Config, ss: seq<Sys>, acts: seq<Action>, i: nat)
    requires IsRun(c, ss, acts) && i <= |acts|
    ensures ss[i].hist == Asked(ss, acts, i)
  {
    hide Inv, Next, Enabled, SpaceReserved;
    if i > 0 {
      HistoryIsAsked(c, ss, acts, i - 1);
      Stepped(c, ss, acts, i - 1);
      Facts(c, Recovered(c.l, ss[0].disk), ss[i - 1]);
      HistoryStep(c, ss[i - 1], acts[i - 1]);
    }
  }

  /** A log_write takes the block as it is then: the block is in the log, once, the cache holds that
      data for it, and nothing else has changed. */
  lemma LogWriteTakes(c: Config, ss: seq<Sys>, acts: seq<Action>, i: nat)
    requires IsRun(c, ss, acts) && i < |acts| && acts[i].LogWrite?
    ensures var s, t, b := ss[i], ss[i + 1], acts[i].blockno;
      && !t.phase.Panicked? && t.disk == s.disk && b in t.lh && b in t.cache && t.cache[b] == acts[i].data
      && t.lh == (if b in s.lh then s.lh else s.lh + [b]) && t.cache.Keys == s.cache.Keys + {b}
      && forall x :: x in s.cache && x != b ==> t.cache[x] == s.cache[x]
  {
    hide Inv, SpaceReserved;
    Stepped(c, ss, acts, i);
    Facts(c, Recovered(c.l, ss[0].disk), ss[i]);
    RoomToLog(c, ss[i], acts[i].op, acts[i].blockno, acts[i].data);
  }

  lemma SameIds(s: Sys, t: Sys)
    requires |t.ops| == |s.ops| && forall j :: 0 <= j < |s.ops| ==> t.ops[j].id == s.ops[j].id
    ensures forall id :: HasOp(t, id) <==> HasOp(s, id)
  {
    forall id ensures HasOp(t, id) <==> HasOp(s, id) {
      if HasOp(t, id) {
        var j :| 0 <= j < |t.ops| && t.ops[j].id == id;
        assert s.ops[j].id == id;
      }
      if HasOp(s, id) {
        var j :| 0 <= j < |s.ops| && s.ops[j].id == id;
        assert t.ops[j].id == id;
      }
    }
  }

  lemma OneMoreOp(s: Sys, t: Sys)
    requires |t.ops| == |s.ops| + 1 && t.ops[..|s.ops|] == s.ops && t.ops[|s.ops|].id == s.nextOp
    ensures forall id :: HasOp(t, id) <==> HasOp(s, id) || id == s.nextOp
  {
    forall id ensures HasOp(t, id) <==> HasOp(s, id) || id == s.nextOp {
      if HasOp(s, id) {
        var j :| 0 <= j < |s.ops| && s.ops[j].id == id;
        assert t.ops[..|s.ops|][j] == t.ops[j];
      }
      if HasOp(t, id) {
        var j :| 0 <= j < |t.ops| && t.ops[j].id == id;
        assert j < |s.ops| ==> t.ops[..|s.ops|][j] == t.ops[j];
      }
    }
  }

  lemma OpsStep(c: Config, s: Sys, a: Action)
    requires Enabled(c, s, a) && SpaceReserved(c, s) && s.outstanding == |s.ops| && !Next(c, s, a).phase.Panicked?
    ensures var t := Next(c, s, a);
      match a
      case Begin => |t.ops| == |s.ops| + 1 && forall id :: HasOp(t, id) <==> HasOp(s, id) || id == s.nextOp
      case End(k) =>
        && k < |s.ops| && |t.ops| == |s.ops| - 1
        && forall id :: HasOp(s, id) ==> HasOp(t, id) || id == s.ops[k].id
      case Crash => t.ops == []
      case _ => |t.ops| == |s.ops| && forall id :: HasOp(t, id) <==> HasOp(s, id)
  {
    hide SpaceReserved;
    match a
    case Begin => OneMoreOp(s, Next(c, s, a));
    case LogWrite(i, b, data) =>
      RoomToLog(c, s, i, b, data);
      SameIds(s, NextLogWrite(c, s, i, b, data));
    case End(i) =>
      forall id | HasOp(s, id) ensures HasOp(Next(c, s, a), id) || id == s.ops[i].id {
        var j :| 0 <= j < |s.ops| && s.ops[j].id == id;
        if j != i {
          assert Next(c, s, a).ops[if j < i then j else j - 1].id == id;
        }
      }
    case _ =>
  }

  /** The operation is running. */
  ghost predicate HasOp(s: Sys, id: nat)
  {
    exists j :: 0 <= j < |s.ops| && s.ops[j].id == id
  }

  /** outstanding is the number of operations that have begun and not ended. */
  lemma {:induction false} OutstandingIsOpen(c: Config, ss: seq<Sys>, acts: seq<Action>, i: nat)
    requires IsRun(c, ss, acts) && i <= |acts|
    ensures ss[i].outstanding == |ss[i].ops| == Open(acts, i)
  {
    hide Inv, Next, Enabled, SpaceReserved;
    RunKeeps(c, ss, acts, i);
    Facts(c, Recovered(c.l, ss[0].disk), ss[i]);
    if i == 0 {
      Boots(c, ss, acts);
    } else {
      OutstandingIsOpen(c, ss, acts, i - 1);
      Stepped(c, ss, acts, i - 1);
      Facts(c, Recovered(c.l, ss[0].disk), ss[i - 1]);
      OpsStep(c, ss[i - 1], acts[i - 1]);
    }
  }

  lemma Boots(c: Config, ss: seq<Sys>, acts: seq<Action>)
    requires IsRun(c, ss, acts)
    ensures ss[0].ops == [] && ss[0].hist == [] && ss[0].durable == 0
  {
  }

  /** An operation that has logged something is still running or over. */
  lemma {:induction false} RunningOrEnded(c: Config, ss: seq<Sys>, acts: seq<Action>, i: nat, j: nat)
    requires IsRun(c, ss, acts) && i <= |acts| && j < |ss[i].hist|
    ensures HasOp(ss[i], ss[i].hist[j].op) || Ended(ss, acts, i, ss[i].hist[j].op)
  {
    hide Inv, Next, Enabled, SpaceReserved, HasOp, Ended;
    if i == 0 {
      Boots(c, ss, acts);
    } else {
      var s, a := ss[i - 1], acts[i - 1];
      RunKeeps(c, ss, acts, i);
      Facts(c, Recovered(c.l, ss[0].disk), ss[i]);
      Stepped(c, ss, acts, i - 1);
      Facts(c, Recovered(c.l, ss[0].disk), s);
      HistoryStep(c, s, a);
      OpsStep(c, s, a);
      if j < |s.hist| {
        RunningOrEnded(c, ss, acts, i - 1, j);
        EndedLater(ss, acts, i - 1, s.hist[j].op);
        if a.End? {
          EndsNow(ss, acts, i - 1);
        }
        if a.Crash? {
          NotRunning(s, j);
        }
      } else {
        LoggerRuns(s, a.op);
      }
    }
  }

  lemma EndedLater(ss: seq<Sys>, acts: seq<Action>, i: nat, id: nat)
    requires i < |acts| && |ss| == |acts| + 1
    ensures Ended(ss, acts, i, id) ==> Ended(ss, acts, i + 1, id)
  {
  }

  lemma EndsNow(ss: seq<Sys>, acts: seq<Action>, i: nat)
    requires i < |acts| && |ss| == |acts| + 1 && acts[i].End? && acts[i].op < |ss[i].ops|
    ensures Ended(ss, acts, i + 1, ss[i].ops[acts[i].op].id)
  {
    assert EndsAt(ss, acts, i, ss[i].ops[acts[i].op].id);
  }

  lemma NotRunning(s: Sys, j: nat)
    requires WholeOps(s) && j < |s.hist|
    ensures j < s.durable ==> !HasOp(s, s.hist[j].op)
  {
  }

  lemma LoggerRuns(s: Sys, k: nat)
    requires k < |s.ops|
    ensures HasOp(s, s.ops[k].id)
  {
  }

  /** Only operations that have called end_op are durable. */
  lemma DurableIsEnded(c: Config, ss: seq<Sys>, acts: seq<Action>, i: nat, j: nat)
    requires IsRun(c, ss, acts) && i <= |acts| && j < ss[i].durable
    ensures j < |ss[i].hist| && Ended(ss, acts, i, ss[i].hist[j].op)
  {
    hide Inv, SpaceReserved, HasOp, Ended;
    RunKeeps(c, ss, acts, i);
    Facts(c, Recovered(c.l, ss[0].disk), ss[i]);
    RunningOrEnded(c, ss, acts, i, j);
    NotRunning(ss[i], j);
  }

  /** Group commit, from the actions alone: power loss now and a recovery leave the effect of the first
      `durable` log_writes asked for, all of operations that are over; while the system is up, what the
      cache shows over the disk is the effect of all of them; and when no operation is open and no commit
      runs, they are all durable. */
  lemma EveryLogWriteCounts(c: Config, ss: seq<Sys>, acts: seq<Action>, i: nat)
    requires IsRun(c, ss, acts) && i <= |acts|
    ensures var s, home, asked := ss[i], Recovered(c.l, ss[0].disk), Asked(ss, acts, i);
      && s.durable <= |asked| && GoodLog(c.l, s.disk)
      && Recovered(c.l, s.disk) == Effect(home, asked[..s.durable])
      && (forall j :: 0 <= j < s.durable ==> Ended(ss, acts, i, asked[j].op))
      && (s.phase.Up? ==>
            && (forall j :: 0 <= j < |s.lh| ==> s.lh[j] in s.cache)
            && Overlay(c.l, s.disk, s.lh, s.cache) == Effect(home, asked)
            && (Open(acts, i) == 0 ==> s.durable == |asked|))
  {
    HistoryIsAsked(c, ss, acts, i);
    OutstandingIsOpen(c, ss, acts, i);
    GroupCommitTheorem(c, ss, acts, i);
    forall j | 0 <= j < ss[i].durable ensures Ended(ss, acts, i, Asked(ss, acts, i)[j].op) {
      DurableIsEnded(c, ss, acts, i, j);
    }
  }

  // ---------------------------------------------------------------- commits come to an end

  lemma OneMoreStep(c: Config, ss: seq<Sys>, acts: seq<Action>, a: Action)
    requires IsRun(c, ss, acts) && Enabled(c, ss[|acts|], a)
    ensures IsRun(c, ss + [Next(c, ss[|acts|], a)], acts + [a])
  {
  }

  lemma CommitStep(c: Config, home: Disk, s: Sys)
    requires Inv(c, home, s) && s.phase.Committing?
    ensures s.phase.done <= CommitLength(s.lh)
    ensures s.phase.done < CommitLength(s.lh) ==>
      && Enabled(c, s, CommitWrite) && var t := Next(c, s, CommitWrite);
         t.phase.Committing? && t.phase.done == s.phase.done + 1 && t.lh == s.lh && t.hist == s.hist
    ensures s.phase.done == CommitLength(s.lh) ==>
      && Enabled(c, s, CommitDone) && s.durable == |s.hist| && var t := Next(c, s, CommitDone);
         t.phase.Up? && t.lh == [] && t.hist == s.hist && t.durable == s.durable
  {
    if s.phase.done < CommitLength(s.lh) {
      CommitWriteIs(c, home, s);
    }
  }

  /** A commit that nothing interrupts finishes, and then everything asked for before it is durable. */
  lemma {:induction false} CommitFinishes(c: Config, ss: seq<Sys>, acts: seq<Action>)
    returns (ts: seq<Sys>, bs: seq<Action>)
    requires IsRun(c, ss, acts) && ss[|acts|].phase.Committing?
    ensures IsRun(c, ts, bs) && ss <= ts && acts <= bs
    ensures forall k :: |acts| <= k < |bs| ==> bs[k].CommitWrite? || bs[k].CommitDone?
    ensures var s, t := ss[|acts|], ts[|bs|];
      t.phase.Up? && t.lh == [] && t.hist == s.hist && t.durable == |t.hist|
    decreases CommitLength(ss[|acts|].lh) - ss[|acts|].phase.done
  {
    hide Inv, Next, Enabled;
    var s := ss[|acts|];
    RunKeeps(c, ss, acts, |acts|);
    CommitStep(c, Recovered(c.l, ss[0].disk), s);
    if s.phase.done < CommitLength(s.lh) {
      OneMoreStep(c, ss, acts, CommitWrite);
      ts, bs := CommitFinishes(c, ss + [Next(c, s, CommitWrite)], acts + [CommitWrite]);
    } else {
      OneMoreStep(c, ss, acts, CommitDone);
      ts, bs := ss + [Next(c, s, CommitDone)], acts + [CommitDone];
    }
  }

  /** end_op of the only open operation starts a commit. */
  lemma LastEndCommits(c: Config, ss: seq<Sys>, acts: seq<Action>, i: nat)
    requires IsRun(c, ss, acts) && i < |acts| && acts[i].End?
    ensures ss[i + 1].phase.Committing? <==> Open(acts, i) == 1
  {
    hide Inv, SpaceReserved;
    Stepped(c, ss, acts, i);
    Facts(c, Recovered(c.l, ss[0].disk), ss[i]);
    OutstandingIsOpen(c, ss, acts, i);
    Committing(c, Recovered(c.l, ss[0].disk), ss[i]);
  }

  lemma Committing(c: Config, home: Disk, s: Sys)
    requires Inv(c, home, s)
    ensures s.phase.Committing? <==> s.committing
  {
  }

  // ---------------------------------------------------------------- and so do recoveries

  /** The steps a recovery has left. */
  ghost function RecoverLeft(c: Config, s: Sys): int
  {
    match s.phase
    case Down => if GoodLog(c.l, s.disk) then |RecoveryWrites(c.l, s.disk)| + 2 else 0
    case Recovering(base, done) => if GoodLog(c.l, base) then |RecoveryWrites(c.l, base)| - done + 1 else 0
    case _ => 0
  }

  /** The next step of a recovery, which can always be taken. */
  function RecoverNext(s: Sys, over: bool): Action
  {
    if s.phase.Down? then RecoverStart else if over then RecoverDone else RecoverWrite
  }

  lemma RecoverStep(c: Config, home: Disk, s: Sys) returns (a: Action)
    requires Inv(c, home, s) && (s.phase.Down? || s.phase.Recovering?)
    ensures a.RecoverStart? || a.RecoverWrite? || a.RecoverDone?
    ensures Enabled(c, s, a) && RecoverLeft(c, s) > 0 && Next(c, s, a).hist == s.hist
    ensures var t := Next(c, s, a); t.phase.Up? || (t.phase.Recovering? && RecoverLeft(c, t) < RecoverLeft(c, s))
  {
    a := RecoverNext(s, s.phase.Recovering? && s.phase.done == |RecoveryWrites(c.l, s.phase.base)|);
  }

  lemma UpHome(c: Config, home: Disk, s: Sys)
    requires Inv(c, home, s) && s.phase.Up? && s.ops == []
    ensures s.lh == [] && Home(c.l, s.disk) == Effect(home, s.hist)
  {
    RecoveredEmpty(c.l, s.disk);
    assert s.hist[..s.durable] == s.hist;
  }

  /** After power loss the system can always be brought up again, and then the log is empty and the home
      blocks are those that the durable log_writes say. */
  lemma {:induction false} RecoveryFinishes(c: Config, ss: seq<Sys>, acts: seq<Action>)
    returns (ts: seq<Sys>, bs: seq<Action>)
    requires IsRun(c, ss, acts) && (ss[|acts|].phase.Down? || ss[|acts|].phase.Recovering?)
    ensures IsRun(c, ts, bs) && ss <= ts && acts <= bs
    ensures forall k :: |acts| <= k < |bs| ==> bs[k].RecoverStart? || bs[k].RecoverWrite? || bs[k].RecoverDone?
    ensures var s, t, home := ss[|acts|], ts[|bs|], Recovered(c.l, ss[0].disk);
      t.phase.Up? && t.lh == [] && t.hist == s.hist && Home(c.l, t.disk) == Effect(home, t.hist)
    decreases RecoverLeft(c, ss[|acts|])
  {
    hide Inv, Next, Enabled, RecoverLeft;
    var s, home := ss[|acts|], Recovered(c.l, ss[0].disk);
    RunKeeps(c, ss, acts, |acts|);
    var a := RecoverStep(c, home, s);
    OneMoreStep(c, ss, acts, a);
    var t := Next(c, s, a);
    if t.phase.Up? {
      ts, bs := ss + [t], acts + [a];
      RunKeeps(c, ts, bs, |bs|);
      RecoverEmpty(c, home, s, a);
      UpHome(c, home, t);
    } else {
      ts, bs := RecoveryFinishes(c, ss + [t], acts + [a]);
    }
  }

  lemma RecoverEmpty(c: Config, home: Disk, s: Sys, a: Action)
    requires Inv(c, home, s) && (s.phase.Down? || s.phase.Recovering?) && Enabled(c, s, a)
    requires a.RecoverStart? || a.RecoverWrite? || a.RecoverDone?
    ensures Next(c, s, a).ops == []
  {
  }
}
