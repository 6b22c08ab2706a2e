/** Progress in the runs of Processes: how many steps a process can make in a call before it returns,
    sleeps or has exited. */
module ProcessWork {
  import opened Basics
  import opened Processes
  import opened ProcessCalls

  /** The steps left of a kexit() that has looked at i processes for children. */
  function ExitLeft(n: nat, i: nat): nat
    requires i <= n
  {
    4 + n + (n - i) * (n + 2)
  }

  lemma ExitLeftNext(n: nat, i: nat)
    requires i < n
    ensures ExitLeft(n, i) == ExitLeft(n, i + 1) + n + 2
  {
    assert (n - i) * (n + 2) == (n - (i + 1)) * (n + 2) + (n + 2);
  }

  /** The steps left of a wakeup() that has looked at j processes, its end included. */
  function WakeLeft(n: nat, j: nat): int { 1 + n - j }

  /** The steps left of the waiting loop, from taking the lock. */
  function LoopLeft(n: nat, after: Option<Chan>): nat { if after.Some? then 5 + n else 0 }

  /** The steps a process at pc has at most left, n being the size of the process table. */
  function Left(n: nat, pc: PC): int
  {
    match pc
    case Want(_) => 5 + n
    case Test(_) => 4
    case Scan(j, _) => 4 + n - j
    case SleepA(_) => 3
    case SleepB(_) => 2
    case SleepC(_) => 1
    case PostAcq(after) => LoopLeft(n, after) + WakeLeft(n, 0) + 1
    case PostWake(j, after) => LoopLeft(n, after) + WakeLeft(n, j)
    case RelAcq(_) => WakeLeft(n, 0) + 1
    case RelWake(_, j) => WakeLeft(n, j)
    case ExAcq => ExitLeft(n, 0) + 1
    case ExRep(i) => if i <= n then ExitLeft(n, i) else 0
    case ExWakeInit(i, j) => if i < n then ExitLeft(n, i + 1) + WakeLeft(n, j) else 0
    case ExWakePar(j) => 2 + WakeLeft(n, j)
    case ExZomb => 2
    case ExSwtch => 1
    case FkLink(_) => WakeLeft(n, 0) + 3
    case FkRun(_) => WakeLeft(n, 0) + 2
    case _ => 0
  }

  /** Steps that do the work of a call. */
  predicate IsWork(a: Action)
  {
    !IsStart(a) && !a.ForkAlloc? && !a.ForkFail? && !a.Schedule? && !a.Yield? && !a.Kill?
  }

  /** A call begins, or goes on after a sleep. */
  predicate Begins(s: Sys, p: nat, a: Action)
    requires p < |s.procs|
  {
    IsStart(a) || a.ForkAlloc? || (a.Schedule? && s.procs[p].pc.Asleep?)
  }

  lemma LeftIsNat(s: Sys, p: nat)
    requires p < |s.procs| && PcOk(s, p)
    ensures 0 <= Left(|s.procs|, s.procs[p].pc)
  {
    hide Cond, NoneCommitted, NoChild, ZombieChild;
  }

  lemma WorkWait(s: Sys, p: nat, a: Action)
    requires Enabled(s, p, a) && PcOk(s, p) && (a.Acquire? || a.TestStep? || a.ScanStep? || a.SleepStep?)
    ensures |Next(s, p, a).procs| == |s.procs|
    ensures Left(|s.procs|, Next(s, p, a).procs[p].pc) < Left(|s.procs|, s.procs[p].pc)
  {
    hide Cond, NoneCommitted, NoChild, ZombieChild, Free;
  }

  lemma WorkExit(s: Sys, p: nat, a: Action)
    requires Enabled(s, p, a) && PcOk(s, p) && (a.ExitAcquire? || a.ReparentStep? || a.ZombieStep? || a.SwtchStep?)
    ensures |Next(s, p, a).procs| == |s.procs|
    ensures Left(|s.procs|, Next(s, p, a).procs[p].pc) < Left(|s.procs|, s.procs[p].pc)
  {
    hide Cond, NoneCommitted, NoChild, ZombieChild, Free, ExitLeft;
    if a.ReparentStep? && s.procs[p].pc.i < |s.procs| {
      ExitLeftNext(|s.procs|, s.procs[p].pc.i);
    }
    ExitLeftLast(|s.procs|);
  }

  lemma ExitLeftLast(n: nat)
    ensures ExitLeft(n, n) == 4 + n
  {
  }

  lemma WorkWake(s: Sys, p: nat)
    requires Enabled(s, p, WakeStep) && PcOk(s, p)
    ensures |NextWake(s, p).procs| == |s.procs|
    ensures Left(|s.procs|, NextWake(s, p).procs[p].pc) < Left(|s.procs|, s.procs[p].pc)
  {
    hide Cond, NoneCommitted, NoChild, ZombieChild, Free, ExitLeft;
  }

  lemma WakeNext(s: Sys, p: nat)
    requires Enabled(s, p, WakeStep)
    ensures Next(s, p, WakeStep) == NextWake(s, p)
  {
  }

  lemma WorkRest(s: Sys, p: nat, a: Action)
    requires Enabled(s, p, a) && PcOk(s, p) && (a.PostStep? || a.RelStep? || a.ForkLink? || a.ForkRun?)
    ensures |Next(s, p, a).procs| == |s.procs|
    ensures Left(|s.procs|, Next(s, p, a).procs[p].pc) < Left(|s.procs|, s.procs[p].pc)
  {
    hide Cond, NoneCommitted, NoChild, ZombieChild, Free, ExitLeft;
  }

  /** A step of work brings a process nearer to the end of its call; only beginning one takes it back. */
  lemma WorkStep(s: Sys, w: nat, a: Action, p: nat)
    requires Enabled(s, w, a) && p < |s.procs| && PcOk(s, p) && (w == p ==> !Begins(s, p, a))
    ensures |Next(s, w, a).procs| == |s.procs|
    ensures var d := if w == p && IsWork(a) then 1 else 0;
      Left(|s.procs|, Next(s, w, a).procs[p].pc) + d <= Left(|s.procs|, s.procs[p].pc)
  {
    hide PcOk, Next, Enabled, Left;
    if w == p && IsWork(a) {
      if a.Acquire? || a.TestStep? || a.ScanStep? || a.SleepStep? {
        WorkWait(s, p, a);
      } else if a.ExitAcquire? || a.ReparentStep? || a.ZombieStep? || a.SwtchStep? {
        WorkExit(s, p, a);
      } else if a.WakeStep? {
        WorkWake(s, p);
        WakeNext(s, p);
      } else {
        WorkRest(s, p, a);
      }
    } else {
      NoWork(s, w, a, p);
      LeftIsNat(s, p);
      Idle(|s.procs|);
    }
  }

  lemma Idle(n: nat)
    ensures Left(n, User) == 0 && Left(n, NoCode) == 0
  {
  }

  /** Other steps leave p where it is, or are the end of its life or its start. */
  lemma NoWork(s: Sys, w: nat, a: Action, p: nat)
    requires Enabled(s, w, a) && p < |s.procs| && (w == p ==> !Begins(s, p, a) && !IsWork(a))
    ensures |Next(s, w, a).procs| == |s.procs|
    ensures var x, y := s.procs[p].pc, Next(s, w, a).procs[p].pc; y == x || y.NoCode? || y.User?
  {
    if w == p {
      OwnIdle(s, p, a);
    } else {
      hide Enabled, Next;
      OtherPlace(s, w, a, p);
    }
  }

  lemma OwnIdle(s: Sys, p: nat, a: Action)
    requires Enabled(s, p, a) && p < |s.procs| && !Begins(s, p, a) && !IsWork(a)
    ensures |Next(s, p, a).procs| == |s.procs| && Next(s, p, a).procs[p].pc == s.procs[p].pc
  {
    hide Cond, Free;
  }

  /** No step from i to k begins a call of p, or takes it out of a sleep. */
  predicate NoBegin(ss: seq<Sys>, who: seq<nat>, acts: seq<Action>, i: nat, k: nat, p: nat)
    requires Tellable(ss, who, acts)
  {
    forall m :: i <= m < k && m < |acts| && who[m] == p ==> !Begins(ss[m], p, acts[m])
  }

  /** The working steps of p from i to k. */
  function Steps(who: seq<nat>, acts: seq<Action>, i: nat, k: nat, p: nat): nat
    requires i <= k <= |acts| == |who|
    decreases k - i
  {
    if i == k then 0 else (if who[i] == p && IsWork(acts[i]) then 1 else 0) + Steps(who, acts, i + 1, k, p)
  }

  /** However the processes interleave, a process takes at most Left steps until its call returns or it
      sleeps or has exited. */
  lemma {:induction false} CallsAreBounded(ss: seq<Sys>, who: seq<nat>, acts: seq<Action>, i: nat, k: nat, p: nat)
    requires IsRun(ss, who, acts) && Tellable(ss, who, acts) && i <= k <= |acts| && p < |ss[i].procs|
    requires NoBegin(ss, who, acts, i, k, p)
    ensures p < |ss[k].procs| == |ss[i].procs|
    ensures 0 <= Left(|ss[i].procs|, ss[k].procs[p].pc)
    ensures Steps(who, acts, i, k, p) + Left(|ss[i].procs|, ss[k].procs[p].pc) <= Left(|ss[i].procs|, ss[i].procs[p].pc)
    decreases k - i
  {
    hide IsRun, Next, Enabled, Local, PcOk, Left, IsWork;
    InvAt(ss, who, acts, i, p);
    LocalParts(ss[i], p);
    if i == k {
      LeftIsNat(ss[i], p);
    } else {
      SameTable(ss, who, acts, i);
      WorkStep(ss[i], who[i], acts[i], p);
      CallsAreBounded(ss, who, acts, i + 1, k, p);
    }
  }

  /** The most steps of a call that begins with a. */
  function Longest(n: nat, a: Action): nat { if a.StartExit? then n * n + 3 * n + 5 else 2 * n + 7 }

  /** Where a call begins, and how long it can take. */
  lemma BeginLeft(s: Sys, p: nat, a: Action)
    requires Enabled(s, p, a) && Begins(s, p, a)
    ensures |Next(s, p, a).procs| == |s.procs| > 0
    ensures Left(|s.procs|, Next(s, p, a).procs[p].pc) <= Longest(|s.procs|, a)
  {
    hide Cond, Free;
  }

  /** Between the step that begins a call, or ends a sleep in it, and the return, the next sleep or the
      end of the process, a call other than exit() takes at most 2n + 7 steps, n being the number of
      process slots; exit(), which may have to wake init for each child, n * n + 3n + 5. */
  lemma CallLength(ss: seq<Sys>, who: seq<nat>, acts: seq<Action>, i: nat, k: nat)
    requires IsRun(ss, who, acts) && Tellable(ss, who, acts) && i < k <= |acts|
    requires Begins(ss[i], who[i], acts[i]) && NoBegin(ss, who, acts, i + 1, k, who[i])
    ensures Steps(who, acts, i + 1, k, who[i]) <= Longest(|ss[i].procs|, acts[i])
  {
    hide IsRun, Next, Enabled, Begins, NoBegin, Left, Steps;
    SameTable(ss, who, acts, i);
    BeginLeft(ss[i], who[i], acts[i]);
    CallsAreBounded(ss, who, acts, i + 1, k, who[i]);
  }
}
