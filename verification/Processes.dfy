/** Processes, sleep and wakeup of kernel/proc.c and kernel/sleeplock.c as a state machine.  A step is
    the code between two lock operations.  Spinlocks guard their steps: a step that acquires a lock
    is possible only while no process is at a point where the code holds it. */
module Processes {
  import opened Basics

  datatype PState = UNUSED | USED | SLEEPING | RUNNABLE | RUNNING | ZOMBIE

  /** kq.lock, wait_lock, and the spinlock inside sleeplock k. */
  datatype Lock = KqLock | WaitLock | SpinOf(k: nat)

  /** What a process can sleep on: &kq, a struct proc (its own), a sleeplock. */
  datatype Chan = KqChan | ProcChan(p: nat) | LockChan(k: nat)

  /** The condition lock of a channel. */
  function LockOf(c: Chan): Lock
  {
    match c
    case KqChan => KqLock
    case ProcChan(_) => WaitLock
    case LockChan(k) => SpinOf(k)
  }

  /** Where a process is in the kernel. */
  datatype PC =
    | NoCode                                      // an UNUSED or USED slot
    | User                                        // outside the calls below
    | Want(c: Chan)                               // about to acquire LockOf(c) and test what c waits for
    | Test(c: Chan)                               // holding it: the while test of kqueue_wait or acquiresleep
    | Scan(j: nat, kids: bool)                    // kwait(), looking at process j
    | SleepA(c: Chan)                             // sleep(): about to acquire its own p->lock
    | SleepB(c: Chan)                             // both held, about to release the condition lock
    | SleepC(c: Chan)                             // p->lock held, about to set SLEEPING
    | Asleep(c: Chan)                             // in sched()
    | PostAcq(after: Option<Chan>)                // kqueue_post(): about to acquire kq.lock
    | PostWake(j: nat, after: Option<Chan>)       // its wakeup(&kq), at process j
    | RelAcq(k: nat)                              // releasesleep()
    | RelWake(k: nat, j: nat)
    | ExAcq                                       // kexit()
    | ExRep(i: nat)                               // reparent(), at process i
    | ExWakeInit(i: nat, j: nat)                  // its wakeup(initproc), at process j
    | ExWakePar(j: nat)                           // wakeup(p->parent)
    | ExZomb
    | ExSwtch                                     // ZOMBIE, still on its own stack
    | Gone
    | FkLink(np: nat)                             // kfork(), child allocated
    | FkRun(np: nat)                              // child has its parent

  /** `forker` is the process whose kfork() is setting a USED slot up. */
  datatype Proc = Proc(state: PState, chan: Option<Chan>, pid: nat, parent: Option<nat>, killed: bool, pc: PC,
    forker: Option<nat>)

  /** `count` and `cap` are kq.count and NEVENT; `locked` the sleeplocks; `reaped` the pids wait() returned. */
  datatype Sys = Sys(procs: seq<Proc>, count: nat, cap: nat, locked: seq<bool>, nextpid: nat, init: nat,
    reaped: set<nat>) {
    function With(p: nat, x: Proc): Sys
      requires p < |procs|
    {
      this.(procs := procs[p := x])
    }

    /** Process p goes on at pc. */
    function Goto(p: nat, pc: PC): Sys
      requires p < |procs|
    {
      With(p, procs[p].(pc := pc))
    }
  }

  predicate Holds(pc: PC, l: Lock)
  {
    match pc
    case Test(c) => l == LockOf(c)
    case Scan(_, _) => l == WaitLock
    case SleepA(c) => l == LockOf(c)
    case SleepB(c) => l == LockOf(c)
    case PostWake(_, _) => l == KqLock
    case RelWake(k, _) => l == SpinOf(k)
    case ExRep(_) => l == WaitLock
    case ExWakeInit(_, _) => l == WaitLock
    case ExWakePar(_) => l == WaitLock
    case ExZomb => l == WaitLock
    case _ => false
  }

  /** Holding some condition lock, or its own p->lock. */
  predicate Critical(pc: PC)
  {
    pc.Test? || pc.Scan? || pc.SleepA? || pc.SleepB? || pc.SleepC? || pc.PostWake? || pc.RelWake? ||
    pc.ExRep? || pc.ExWakeInit? || pc.ExWakePar? || pc.ExZomb?
  }

  /** Is p->lock held across steps? */
  predicate PLocked(pc: PC) { pc.SleepB? || pc.SleepC? || pc.ExSwtch? }

  predicate Free(s: Sys, l: Lock)
  {
    forall q :: 0 <= q < |s.procs| ==> !Holds(s.procs[q].pc, l)
  }

  predicate ZombieChild(s: Sys, p: nat, q: nat)
    requires q < |s.procs|
  {
    s.procs[q].parent == Some(p) && s.procs[q].state.ZOMBIE?
  }

  /** What a process sleeping on c waits to change. */
  predicate Cond(s: Sys, c: Chan)
  {
    match c
    case KqChan => s.count == 0
    case LockChan(k) => k < |s.locked| && s.locked[k]
    case ProcChan(p) => forall q :: 0 <= q < |s.procs| ==> !ZombieChild(s, p, q)
  }

  /** Asleep on c, or past the point of no return. */
  predicate Committed(x: Proc, c: Chan)
  {
    (x.state.SLEEPING? && x.chan == Some(c)) || x.pc == SleepC(c)
  }

  // ---------------------------------------------------------------- steps

  datatype Action =
    | StartWait | StartAcquire(k: nat) | StartKwait | StartRelease(k: nat) | StartExit | StartPost
    | Acquire | TestStep | ScanStep(copied: bool)
    | SleepStep | Schedule | Yield
    | PostStep | RelStep | WakeStep
    | ExitAcquire | ReparentStep | ZombieStep | SwtchStep
    | ForkAlloc(np: nat) | ForkFail | ForkLink | ForkRun
    | Kill

  /** The channel and position of a wakeup() in progress. */
  function WakeOf(s: Sys, p: nat): Option<(Chan, nat)>
    requires p < |s.procs|
  {
    match s.procs[p].pc
    case PostWake(j, _) => Some((KqChan, j))
    case RelWake(k, j) => Some((LockChan(k), j))
    case ExWakeInit(_, j) => Some((ProcChan(s.init), j))
    case ExWakePar(j) => if s.procs[p].parent.Some? then Some((ProcChan(s.procs[p].parent.value), j)) else None
    case _ => None
  }

  predicate Enabled(s: Sys, p: nat, a: Action)
  {
    && p < |s.procs|
    && var x := s.procs[p];
       match a
       case StartWait => x.state.RUNNING? && x.pc.User?
       case StartAcquire(k) => x.state.RUNNING? && x.pc.User? && k < |s.locked|
       case StartKwait => x.state.RUNNING? && x.pc.User?
       case StartRelease(k) => x.state.RUNNING? && x.pc.User? && k < |s.locked|
       case StartExit => x.state.RUNNING? && x.pc.User? && p != s.init
       case StartPost => x.state.RUNNING? && x.pc.User?
       case Acquire => x.state.RUNNING? && x.pc.Want? && Free(s, LockOf(x.pc.c))
       case TestStep => x.state.RUNNING? && x.pc.Test?
       case ScanStep(_) => x.state.RUNNING? && x.pc.Scan? &&
         (x.pc.j < |s.procs| && s.procs[x.pc.j].parent == Some(p) ==> !PLocked(s.procs[x.pc.j].pc))
       case SleepStep => x.state.RUNNING? && (x.pc.SleepA? || x.pc.SleepB? || x.pc.SleepC?)
       case Schedule => x.state.RUNNABLE? && !PLocked(x.pc)
       case Yield => x.state.RUNNING? && !Critical(x.pc)
       case PostStep => x.state.RUNNING? && x.pc.PostAcq? && Free(s, KqLock)
       case RelStep => x.state.RUNNING? && x.pc.RelAcq? && Free(s, SpinOf(x.pc.k))
       case WakeStep => x.state.RUNNING? && WakeOf(s, p).Some? && WakeOf(s, p).value.1 <= |s.procs| &&
         var j := WakeOf(s, p).value.1;
         (j < |s.procs| && j != p ==> !PLocked(s.procs[j].pc))
       case ExitAcquire => x.state.RUNNING? && x.pc.ExAcq? && Free(s, WaitLock)
       case ReparentStep => x.state.RUNNING? && x.pc.ExRep?
       case ZombieStep => x.state.RUNNING? && x.pc.ExZomb?
       case SwtchStep => x.pc.ExSwtch?
       case ForkAlloc(np) => x.state.RUNNING? && x.pc.User? && np < |s.procs| && s.procs[np].state.UNUSED?
       case ForkFail => x.state.RUNNING? && x.pc.User?
       case ForkLink => x.state.RUNNING? && x.pc.FkLink? && x.pc.np < |s.procs| && Free(s, WaitLock)
       case ForkRun => x.state.RUNNING? && x.pc.FkRun? && x.pc.np < |s.procs| && !PLocked(s.procs[x.pc.np].pc)
       case Kill => !x.state.UNUSED? && !PLocked(x.pc)
  }

  /** After the condition lock is (re)acquired: the test at the top of the waiting loop. */
  function TestOf(c: Chan): PC { if c.ProcChan? then Scan(0, false) else Test(c) }

  /** The test fails: sleep.  It succeeds: take the event, or the lock, and leave. */
  function NextTest(s: Sys, p: nat): Sys
    requires Enabled(s, p, TestStep)
  {
    var c := s.procs[p].pc.c;
    if Cond(s, c) then s.Goto(p, SleepA(c))
    else
      match c
      case KqChan => (if s.count > 0 then s.(count := s.count - 1) else s).Goto(p, User)
      case LockChan(k) => (if k < |s.locked| then s.(locked := s.locked[k := true]) else s).Goto(p, User)
      case ProcChan(_) => s.Goto(p, User)
  }

  const freed := Proc(UNUSED, None, 0, None, false, NoCode, None)

  /** kwait()'s look at one process; `copied` is whether copyout of the status succeeds. */
  function NextScan(s: Sys, p: nat, copied: bool): Sys
    requires Enabled(s, p, ScanStep(copied))
  {
    var x := s.procs[p];
    var j := x.pc.j;
    if j < |s.procs| then
      if s.procs[j].parent == Some(p) then
        if s.procs[j].state.ZOMBIE? then
          if copied then s.With(j, freed).(reaped := s.reaped + {s.procs[j].pid}).Goto(p, User)
          else s.Goto(p, User)
        else s.Goto(p, Scan(j + 1, true))
      else s.Goto(p, Scan(j + 1, x.pc.kids))
    else if !x.pc.kids || x.killed then s.Goto(p, User)
    else s.Goto(p, SleepA(ProcChan(p)))
  }

  function NextSleep(s: Sys, p: nat): Sys
    requires Enabled(s, p, SleepStep)
  {
    var x := s.procs[p];
    match x.pc
    case SleepA(c) => s.Goto(p, SleepB(c))
    case SleepB(c) => s.Goto(p, SleepC(c))
    case SleepC(c) => s.With(p, x.(state := SLEEPING, chan := Some(c), pc := Asleep(c)))
    case _ => s
  }

  /** The scheduler runs p.  A process back from sleep() posts an event before it reacquires the
      condition lock, unless it slept on the queue itself. */
  function NextSchedule(s: Sys, p: nat): Sys
    requires p < |s.procs|
  {
    var x := s.procs[p].(state := RUNNING);
    match x.pc
    case Asleep(c) => s.With(p, x.(chan := None, pc := if c.KqChan? then Want(c) else PostAcq(Some(c))))
    case _ => s.With(p, x)
  }

  /** One process looked at by wakeup(), or its end. */
  function NextWake(s: Sys, p: nat): Sys
    requires Enabled(s, p, WakeStep)
  {
    var (c, j) := WakeOf(s, p).value;
    if j < |s.procs| then
      var t := if j != p && s.procs[j].state.SLEEPING? && s.procs[j].chan == Some(c)
               then s.With(j, s.procs[j].(state := RUNNABLE)) else s;
      t.Goto(p, match s.procs[p].pc
                case PostWake(_, after) => PostWake(j + 1, after)
                case RelWake(k, _) => RelWake(k, j + 1)
                case ExWakeInit(i, _) => ExWakeInit(i, j + 1)
                case ExWakePar(_) => ExWakePar(j + 1)
                case other => other)
    else
      s.Goto(p, match s.procs[p].pc
                case PostWake(_, after) => if after.Some? then Want(after.value) else User
                case RelWake(_, _) => User
                case ExWakeInit(i, _) => ExRep(i + 1)
                case ExWakePar(_) => ExZomb
                case other => other)
  }

  function NextReparent(s: Sys, p: nat): Sys
    requires Enabled(s, p, ReparentStep)
  {
    var i := s.procs[p].pc.i;
    if i < |s.procs| then
      if s.procs[i].parent == Some(p) then s.With(i, s.procs[i].(parent := Some(s.init))).Goto(p, ExWakeInit(i, 0))
      else s.Goto(p, ExRep(i + 1))
    else s.Goto(p, ExWakePar(0))
  }

  function Next(s: Sys, p: nat, a: Action): Sys
    requires Enabled(s, p, a)
  {
    var x := s.procs[p];
    match a
    case StartWait => s.Goto(p, Want(KqChan))
    case StartAcquire(k) => s.Goto(p, Want(LockChan(k)))
    case StartKwait => s.Goto(p, Want(ProcChan(p)))
    case StartRelease(k) => s.Goto(p, RelAcq(k))
    case StartExit => s.Goto(p, ExAcq)
    case StartPost => s.Goto(p, PostAcq(None))
    case Acquire => s.Goto(p, TestOf(x.pc.c))
    case TestStep => NextTest(s, p)
    case ScanStep(copied) => NextScan(s, p, copied)
    case SleepStep => NextSleep(s, p)
    case Schedule => NextSchedule(s, p)
    case Yield => s.With(p, x.(state := RUNNABLE))
    case PostStep => s.(count := if s.count >= s.cap then s.cap else s.count + 1).Goto(p, PostWake(0, x.pc.after))
    case RelStep =>
      (if x.pc.k < |s.locked| then s.(locked := s.locked[x.pc.k := false]) else s).Goto(p, RelWake(x.pc.k, 0))
    case WakeStep => NextWake(s, p)
    case ExitAcquire => s.Goto(p, ExRep(0))
    case ReparentStep => NextReparent(s, p)
    case ZombieStep => s.With(p, x.(state := ZOMBIE, pc := ExSwtch))
    case SwtchStep => s.Goto(p, Gone)
    case ForkAlloc(np) =>
      s.With(np, s.procs[np].(state := USED, pid := s.nextpid, forker := Some(p)))
       .(nextpid := s.nextpid + 1).Goto(p, FkLink(np))
    case ForkFail => s.(nextpid := s.nextpid + 1)
    case ForkLink => s.With(x.pc.np, s.procs[x.pc.np].(parent := Some(p))).Goto(p, FkRun(x.pc.np))
    case ForkRun =>
      s.With(x.pc.np, s.procs[x.pc.np].(state := RUNNABLE, pc := User, forker := None)).Goto(p, PostAcq(None))
    case Kill => s.With(p, x.(killed := true, state := if x.state.SLEEPING? then RUNNABLE else x.state))
  }

  /** After userinit(): only init, about to run. */
  ghost predicate Boot(s: Sys)
  {
    && s.init < |s.procs| && s.cap > 0 && s.nextpid == 2 && s.count == 0 && s.reaped == {}
    && (forall k :: 0 <= k < |s.locked| ==> !s.locked[k])
    && s.procs[s.init] == Proc(RUNNABLE, None, 1, None, false, User, None)
    && (forall q :: 0 <= q < |s.procs| && q != s.init ==> s.procs[q] == freed)
  }

  ghost predicate IsRun(ss: seq<Sys>, who: seq<nat>, acts: seq<Action>)
  {
    && |ss| == |acts| + 1 == |who| + 1 && Boot(ss[0])
    && forall i :: 0 <= i < |acts| ==> Enabled(ss[i], who[i], acts[i]) && ss[i + 1] == Next(ss[i], who[i], acts[i])
  }

  // ---------------------------------------------------------------- the invariant

  predicate Alive(x: Proc) { x.state.RUNNABLE? || x.state.RUNNING? || x.state.SLEEPING? }

  /** Nobody among the first n, other than p, is committed to sleeping on c. */
  ghost predicate NoneCommitted(s: Sys, p: nat, c: Chan, n: nat)
  {
    forall q :: 0 <= q < n && q < |s.procs| && q != p ==> !Committed(s.procs[q], c)
  }

  /** None of the first n processes is a child of p. */
  ghost predicate NoChild(s: Sys, p: nat, n: nat)
  {
    forall q :: 0 <= q < n && q < |s.procs| ==> s.procs[q].parent != Some(p)
  }

  predicate ChanOk(s: Sys, p: nat, c: Chan)
  {
    match c
    case KqChan => true
    case ProcChan(q) => q == p
    case LockChan(k) => k < |s.locked|
  }

  /** How a slot's state, its place in the code and its pid go together. */
  ghost predicate StateOk(s: Sys, p: nat)
    requires p < |s.procs|
  {
    var x := s.procs[p];
    && (x.state.UNUSED? ==> x == freed)
    && (x.pc.NoCode? <==> x.state.UNUSED? || x.state.USED?)
    && (x.state.SLEEPING? ==> x.pc.Asleep?)
    && (x.pc.Asleep? ==> (x.state.SLEEPING? || x.state.RUNNABLE?) && x.chan == Some(x.pc.c))
    && (x.state.ZOMBIE? <==> x.pc.ExSwtch? || x.pc.Gone?)
    && (Critical(x.pc) ==> x.state.RUNNING?)
    && (!x.state.UNUSED? ==> 0 < x.pid < s.nextpid && x.pid !in s.reaped)
    && (p == s.init ==> Alive(x) && x.pid == 1 && x.parent == None)
    && (p != s.init && !x.state.UNUSED? ==> x.pid > 1)
    && (x.state.USED? <==> x.forker.Some?)
  }

  /** What the code has established at each place. */
  ghost predicate PcOk(s: Sys, p: nat)
    requires p < |s.procs|
  {
    var n := |s.procs|;
    match s.procs[p].pc
    case Want(c) => ChanOk(s, p, c)
    case Test(c) => ChanOk(s, p, c) && !c.ProcChan?
    case Scan(j, _) => j <= n && forall q :: 0 <= q < j ==> !ZombieChild(s, p, q)
    case SleepA(c) => ChanOk(s, p, c) && Cond(s, c)
    case SleepB(c) => ChanOk(s, p, c) && Cond(s, c)
    case SleepC(c) => ChanOk(s, p, c)
    case Asleep(c) => ChanOk(s, p, c)
    case PostAcq(after) => after.Some? ==> ChanOk(s, p, after.value)
    case PostWake(j, after) => j <= n && NoneCommitted(s, p, KqChan, j) && (after.Some? ==> ChanOk(s, p, after.value))
    case RelAcq(k) => k < |s.locked|
    case RelWake(k, j) => k < |s.locked| && j <= n && NoneCommitted(s, p, LockChan(k), j)
    case ExAcq => p != s.init
    case ExRep(i) => p != s.init && i <= n && NoChild(s, p, i)
    case ExWakeInit(i, j) => p != s.init && i < n && j <= n && NoChild(s, p, i + 1)
      && NoneCommitted(s, p, ProcChan(s.init), j)
    case ExWakePar(j) => p != s.init && j <= n && NoChild(s, p, n) &&
      (s.procs[p].parent.Some? ==> NoneCommitted(s, p, ProcChan(s.procs[p].parent.value), j))
    case ExZomb => p != s.init && NoChild(s, p, n) &&
      (s.procs[p].parent.Some? ==> NoneCommitted(s, p, ProcChan(s.procs[p].parent.value), n))
    case ExSwtch => NoChild(s, p, n)
    case Gone => NoChild(s, p, n)
    case FkLink(np) => np < n && s.procs[np].forker == Some(p) && s.procs[np].parent == None
      && s.procs[np].pid > s.procs[p].pid
    case FkRun(np) => np < n && s.procs[np].forker == Some(p) && s.procs[np].parent == Some(p)
      && s.procs[np].pid > s.procs[p].pid
    case NoCode => true
    case User => true
  }

  /** Mutual exclusion. */
  ghost predicate Mutex(s: Sys)
  {
    forall p, q, l ::
      0 <= p < |s.procs| && 0 <= q < |s.procs| && Holds(s.procs[p].pc, l) && Holds(s.procs[q].pc, l) ==> p == q
  }

  /** q is running a wakeup() on c that has not got to p yet. */
  predicate Waking(s: Sys, q: nat, c: Chan, p: nat)
    requires q < |s.procs|
  {
    q != p && WakeOf(s, q).Some? && WakeOf(s, q).value.0 == c && WakeOf(s, q).value.1 <= p
  }

  ghost predicate SomeoneWaking(s: Sys, c: Chan, p: nat)
  {
    exists q :: 0 <= q < |s.procs| && Waking(s, q, c, p)
  }

  /** No lost wakeup: a process committed to sleeping on c either still has reason to wait, or someone
      is on the way to wake it. */
  ghost predicate Safe(s: Sys, p: nat, c: Chan)
    requires p < |s.procs|
  {
    Committed(s.procs[p], c) ==> Cond(s, c) || SomeoneWaking(s, c, p)
  }

  /** The process tree: everyone but init has a living parent with a smaller pid. */
  ghost predicate TreeOk(s: Sys, p: nat)
    requires p < |s.procs|
  {
    var x := s.procs[p];
    && (p != s.init && (Alive(x) || x.state.ZOMBIE?) ==> x.parent.Some?)
    && (x.parent.Some? ==>
          && x.parent.value < |s.procs| && Alive(s.procs[x.parent.value]) && s.procs[x.parent.value].pid < x.pid
          && p != s.init && !x.state.UNUSED?
          && (x.state.USED? ==> s.procs[x.parent.value].pc == FkRun(p)))
  }

  /** Slot p is in order. */
  ghost predicate Local(s: Sys, p: nat)
  {
    p < |s.procs| && StateOk(s, p) && PcOk(s, p) && TreeOk(s, p)
  }

  ghost predicate PidsDistinct(s: Sys)
  {
    forall p, q :: 0 <= p < q < |s.procs| && !s.procs[p].state.UNUSED? && !s.procs[q].state.UNUSED? ==>
      s.procs[p].pid != s.procs[q].pid
  }

  ghost predicate Inv(s: Sys)
  {
    && s.init < |s.procs| && s.cap > 0 && s.nextpid > 1 && (forall i :: i in s.reaped ==> i < s.nextpid)
    && (forall p :: 0 <= p < |s.procs| ==> Local(s, p))
    && (forall p, c :: 0 <= p < |s.procs| ==> Safe(s, p, c))
    && Mutex(s)
    && PidsDistinct(s)
  }

  lemma BootInv(s: Sys)
    requires Boot(s)
    ensures Inv(s)
  {
    forall p | 0 <= p < |s.procs| ensures Local(s, p) {
    }
  }

  // ---------------------------------------------------------------- steps of one process that others do not notice

  /** Only p changes; its children, its being a zombie and its wakeup in progress stay, it does not
      become committed to sleeping, and nothing becomes available that others sleep for. */
  ghost predicate Quiet(s: Sys, t: Sys, p: nat)
  {
    && p < |s.procs| == |t.procs| && |s.locked| == |t.locked|
    && t == s.With(p, t.procs[p]).(count := t.count, locked := t.locked)
    && (s.count == 0 ==> t.count == 0) && (forall k :: 0 <= k < |s.locked| && s.locked[k] ==> t.locked[k])
    && var x, y := s.procs[p], t.procs[p];
       && y.parent == x.parent && y.pid == x.pid && y.forker == x.forker
       && (y.state.ZOMBIE? <==> x.state.ZOMBIE?) && (Alive(x) ==> Alive(y))
       && (forall c :: Committed(y, c) ==> Committed(x, c))
       && (WakeOf(s, p) == WakeOf(t, p) || WakeOf(s, p).None? || WakeOf(s, p).value.1 >= |s.procs|)
       && (x.pc.FkRun? ==> y.pc == x.pc)
  }

  /** The same processes are zombies, of the same parents. */
  ghost predicate SameZombies(s: Sys, t: Sys)
  {
    && |s.procs| == |t.procs|
    && forall q, r :: 0 <= r < |s.procs| ==> (ZombieChild(s, q, r) <==> ZombieChild(t, q, r))
  }

  predicate Exiting(pc: PC)
  {
    pc.ExRep? || pc.ExWakeInit? || pc.ExWakePar? || pc.ExZomb? || pc.ExSwtch? || pc.Gone?
  }

  ghost predicate NoNewSleeper(s: Sys, t: Sys, q: nat, c: Chan)
    requires |s.procs| == |t.procs|
  {
    forall r :: 0 <= r < |s.procs| && r != q ==> (Committed(t.procs[r], c) ==> Committed(s.procs[r], c))
  }

  /** What the code of q has established survives a step of someone else. */
  lemma PcFrame(s: Sys, t: Sys, q: nat)
    requires |s.procs| == |t.procs| && s.init == t.init && |s.locked| == |t.locked| && q < |s.procs|
    requires PcOk(s, q) && t.procs[q].pc == s.procs[q].pc && t.procs[q].pid == s.procs[q].pid
    requires s.procs[q].pc.ExWakePar? || s.procs[q].pc.ExZomb? ==> t.procs[q].parent == s.procs[q].parent
    requires s.procs[q].pc.SleepA? || s.procs[q].pc.SleepB? ==> (Cond(s, s.procs[q].pc.c) ==> Cond(t, s.procs[q].pc.c))
    requires s.procs[q].pc.Scan? ==> forall r :: 0 <= r < |s.procs| ==> (ZombieChild(t, q, r) ==> ZombieChild(s, q, r))
    requires forall c :: Holds(s.procs[q].pc, LockOf(c)) ==> NoNewSleeper(s, t, q, c)
    requires Exiting(s.procs[q].pc) ==> forall r :: 0 <= r < |s.procs| ==>
      (t.procs[r].parent == Some(q) ==> s.procs[r].parent == Some(q))
    requires s.procs[q].pc.FkLink? || s.procs[q].pc.FkRun? ==>
      var np := s.procs[q].pc.np;
      np < |s.procs| && t.procs[np].forker == s.procs[np].forker && t.procs[np].parent == s.procs[np].parent
        && t.procs[np].pid == s.procs[np].pid
    ensures PcOk(t, q)
  {
    match s.procs[q].pc
    case PostWake(_, _) => assert NoNewSleeper(s, t, q, KqChan) by { assert LockOf(KqChan) == KqLock; }
    case RelWake(k, _) => assert NoNewSleeper(s, t, q, LockChan(k)) by { assert LockOf(LockChan(k)) == SpinOf(k); }
    case ExWakeInit(_, _) => assert NoNewSleeper(s, t, q, ProcChan(s.init))
      by { assert LockOf(ProcChan(s.init)) == WaitLock; }
    case ExWakePar(_) =>
      if s.procs[q].parent.Some? {
        assert NoNewSleeper(s, t, q, ProcChan(s.procs[q].parent.value))
          by { assert LockOf(ProcChan(s.procs[q].parent.value)) == WaitLock; }
      }
    case ExZomb =>
      if s.procs[q].parent.Some? {
        assert NoNewSleeper(s, t, q, ProcChan(s.procs[q].parent.value))
          by { assert LockOf(ProcChan(s.procs[q].parent.value)) == WaitLock; }
      }
    case _ =>
  }

  lemma QuietCond(s: Sys, t: Sys, p: nat)
    requires Quiet(s, t, p)
    ensures SameZombies(s, t)
    ensures forall c :: Cond(s, c) ==> Cond(t, c)
  {
    assert SameZombies(s, t);
    forall c | Cond(s, c) ensures Cond(t, c) {
      if c.ProcChan? {
        assert forall r :: 0 <= r < |s.procs| ==> (ZombieChild(s, c.p, r) <==> ZombieChild(t, c.p, r));
      }
    }
  }

  lemma ZombieCond(s: Sys, t: Sys, c: Chan)
    requires SameZombies(s, t) && s.count == t.count && s.locked == t.locked
    ensures Cond(s, c) <==> Cond(t, c)
  {
    if c.ProcChan? {
      assert forall r :: 0 <= r < |s.procs| ==> (ZombieChild(s, c.p, r) <==> ZombieChild(t, c.p, r));
    }
  }

  lemma QuietOther(s: Sys, t: Sys, p: nat, q: nat)
    requires Quiet(s, t, p) && q < |s.procs| && q != p
    requires Local(s, q)
    ensures Local(t, q)
  {
    QuietCond(s, t, p);
    PcFrame(s, t, q);
  }

  lemma QuietSafe(s: Sys, t: Sys, p: nat, q: nat, c: Chan)
    requires Quiet(s, t, p) && q < |s.procs| && Safe(s, q, c)
    ensures Safe(t, q, c)
  {
    QuietCond(s, t, p);
    if Committed(t.procs[q], c) && !Cond(s, c) {
      var r :| 0 <= r < |s.procs| && Waking(s, r, c, q);
      assert Waking(t, r, c, q);
    }
  }

  /** A lock p holds after the step it held before, or nobody did. */
  ghost predicate LocksOk(s: Sys, t: Sys, p: nat)
    requires p < |s.procs| == |t.procs|
  {
    forall l :: Holds(t.procs[p].pc, l) ==> Holds(s.procs[p].pc, l) || Free(s, l)
  }

  lemma QuietMutex(s: Sys, t: Sys, p: nat)
    requires p < |s.procs| == |t.procs| && Mutex(s) && LocksOk(s, t, p)
    requires forall q :: 0 <= q < |s.procs| && q != p ==> t.procs[q].pc == s.procs[q].pc
    ensures Mutex(t)
  {
  }

  /** A step others do not notice, and p itself is in order after it. */
  ghost predicate QuietStep(s: Sys, t: Sys, p: nat)
  {
    && Quiet(s, t, p) && LocksOk(s, t, p) && Local(t, p)
    && t.procs[p].state.UNUSED? == s.procs[p].state.UNUSED?
  }

  lemma QuietKeeps(s: Sys, t: Sys, p: nat)
    requires Inv(s) && QuietStep(s, t, p)
    ensures Inv(t)
  {
    QuietMutex(s, t, p);
    forall q | 0 <= q < |t.procs| ensures Local(t, q) {
      if q != p {
        assert Local(s, q);
        QuietOther(s, t, p, q);
      }
    }
    forall q, c | 0 <= q < |t.procs| ensures Safe(t, q, c) {
      QuietSafe(s, t, p, q, c);
    }
  }

  lemma StartQuiet(s: Sys, p: nat, a: Action)
    requires a.StartWait? || a.StartAcquire? || a.StartKwait? || a.StartRelease? || a.StartExit? || a.StartPost?
    requires Local(s, p) && Enabled(s, p, a)
    ensures QuietStep(s, Next(s, p, a), p)
  {
  }

  lemma AcquireQuiet(s: Sys, p: nat)
    requires Local(s, p) && Enabled(s, p, Acquire)
    ensures QuietStep(s, Next(s, p, Acquire), p)
  {
  }

  lemma TestQuiet(s: Sys, p: nat)
    requires Local(s, p) && Enabled(s, p, TestStep)
    ensures QuietStep(s, Next(s, p, TestStep), p)
  {
    var t := NextTest(s, p);
    if Cond(s, s.procs[p].pc.c) {
      assert SameZombies(s, t);
      ZombieCond(s, t, s.procs[p].pc.c);
    }
  }

  /** kwait() looking at a process that is not a zombie child, or whose status cannot be copied out. */
  lemma ScanQuiet(s: Sys, p: nat, copied: bool)
    requires Local(s, p) && Enabled(s, p, ScanStep(copied)) && s.procs[p].pc.j < |s.procs|
    requires !(copied && ZombieChild(s, p, s.procs[p].pc.j))
    ensures QuietStep(s, Next(s, p, ScanStep(copied)), p)
  {
    hide Quiet, LocksOk, Local;
    ScanSteps(s, p, copied);
    ScanLocal(s, p, copied);
  }

  lemma ScanSteps(s: Sys, p: nat, copied: bool)
    requires Local(s, p) && Enabled(s, p, ScanStep(copied)) && s.procs[p].pc.j < |s.procs|
    requires !(copied && ZombieChild(s, p, s.procs[p].pc.j))
    ensures var t := NextScan(s, p, copied);
      && Quiet(s, t, p) && LocksOk(s, t, p) && |t.procs| == |s.procs|
      && t.procs[p].state.UNUSED? == s.procs[p].state.UNUSED?
  {
    assert SameZombies(s, NextScan(s, p, copied));
  }

  lemma ScanLocal(s: Sys, p: nat, copied: bool)
    requires Local(s, p) && Enabled(s, p, ScanStep(copied)) && s.procs[p].pc.j < |s.procs|
    requires !(copied && ZombieChild(s, p, s.procs[p].pc.j))
    ensures Local(NextScan(s, p, copied), p)
  {
    assert SameZombies(s, NextScan(s, p, copied));
  }

  /** kwait() having seen everyone. */
  lemma ScanEndQuiet(s: Sys, p: nat, copied: bool)
    requires Local(s, p) && Enabled(s, p, ScanStep(copied)) && s.procs[p].pc.j == |s.procs|
    ensures QuietStep(s, Next(s, p, ScanStep(copied)), p)
  {
    assert SameZombies(s, NextScan(s, p, copied));
    assert Cond(s, ProcChan(p));
    ZombieCond(s, NextScan(s, p, copied), ProcChan(p));
  }

  lemma SleepQuiet(s: Sys, p: nat)
    requires Local(s, p) && Enabled(s, p, SleepStep) && !s.procs[p].pc.SleepB?
    ensures QuietStep(s, Next(s, p, SleepStep), p)
  {
    hide Quiet, LocksOk, Local;
    SleepSteps(s, p);
    SleepLocal(s, p);
  }

  lemma SleepSteps(s: Sys, p: nat)
    requires Local(s, p) && Enabled(s, p, SleepStep) && !s.procs[p].pc.SleepB?
    ensures Quiet(s, NextSleep(s, p), p) && LocksOk(s, NextSleep(s, p), p)
    ensures |NextSleep(s, p).procs| == |s.procs|
    ensures NextSleep(s, p).procs[p].state.UNUSED? == s.procs[p].state.UNUSED?
  {
    assert SameZombies(s, NextSleep(s, p));
  }

  lemma SleepLocal(s: Sys, p: nat)
    requires Local(s, p) && Enabled(s, p, SleepStep) && !s.procs[p].pc.SleepB?
    ensures Local(NextSleep(s, p), p)
  {
    var t := NextSleep(s, p);
    assert SameZombies(s, t);
    if s.procs[p].pc.SleepA? {
      ZombieCond(s, t, s.procs[p].pc.c);
    }
  }

  /** A change of scheduling state alone leaves what the code established. */
  lemma PcStays(s: Sys, t: Sys, p: nat)
    requires Quiet(s, t, p) && PcOk(s, p) && t.procs[p].pc == s.procs[p].pc
    ensures PcOk(t, p)
  {
    QuietCond(s, t, p);
    PcFrame(s, t, p);
  }

  lemma ScheduleQuiet(s: Sys, p: nat)
    requires Local(s, p) && Enabled(s, p, Schedule)
    ensures QuietStep(s, Next(s, p, Schedule), p)
  {
    if !s.procs[p].pc.Asleep? {
      PcStays(s, NextSchedule(s, p), p);
    }
  }

  lemma YieldQuiet(s: Sys, p: nat)
    requires Local(s, p) && Enabled(s, p, Yield)
    ensures QuietStep(s, Next(s, p, Yield), p)
  {
    PcStays(s, Next(s, p, Yield), p);
  }

  lemma KillQuiet(s: Sys, p: nat)
    requires Local(s, p) && Enabled(s, p, Kill)
    ensures QuietStep(s, Next(s, p, Kill), p)
  {
    PcStays(s, Next(s, p, Kill), p);
  }

  lemma SwtchQuiet(s: Sys, p: nat)
    requires Local(s, p) && Enabled(s, p, SwtchStep)
    ensures QuietStep(s, Next(s, p, SwtchStep), p)
  {
  }

  lemma ExitAcquireQuiet(s: Sys, p: nat)
    requires Local(s, p) && Enabled(s, p, ExitAcquire)
    ensures QuietStep(s, Next(s, p, ExitAcquire), p)
  {
  }

  /** reparent() passing someone else's child, or having passed everyone. */
  lemma ReparentQuiet(s: Sys, p: nat)
    requires Local(s, p) && Enabled(s, p, ReparentStep)
    requires var i := s.procs[p].pc.i; !(i < |s.procs| && s.procs[i].parent == Some(p))
    ensures QuietStep(s, Next(s, p, ReparentStep), p)
  {
  }

  lemma WakeEndQuiet(s: Sys, p: nat)
    requires Local(s, p) && Enabled(s, p, WakeStep) && WakeOf(s, p).value.1 == |s.procs|
    ensures QuietStep(s, Next(s, p, WakeStep), p)
  {
  }

  // ---------------------------------------------------------------- the steps others do notice

  /** sleep() releases the condition lock: from here on p counts as a sleeper. */
  lemma CommitKeeps(s: Sys, p: nat)
    requires Inv(s) && Enabled(s, p, SleepStep) && s.procs[p].pc.SleepB?
    ensures Inv(Next(s, p, SleepStep))
  {
    var t, d := NextSleep(s, p), s.procs[p].pc.c;
    assert Local(s, p);
    assert SameZombies(s, t);
    ZombieCond(s, t, d);
    QuietMutex(s, t, p);
    forall q | 0 <= q < |t.procs| ensures Local(t, q) {
      if q != p {
        CommitOther(s, p, q);
      }
    }
    forall q, c | 0 <= q < |t.procs| ensures Safe(t, q, c) {
      CommitSafe(s, p, q, c);
    }
  }

  lemma CommitOther(s: Sys, p: nat, q: nat)
    requires Enabled(s, p, SleepStep) && s.procs[p].pc.SleepB? && q < |s.procs| && q != p && Local(s, q) && Mutex(s)
    ensures Local(Next(s, p, SleepStep), q)
  {
    var t, d := NextSleep(s, p), s.procs[p].pc.c;
    assert SameZombies(s, t);
    forall c ensures Cond(s, c) <==> Cond(t, c) {
      ZombieCond(s, t, c);
    }
    forall c | Holds(s.procs[q].pc, LockOf(c)) ensures NoNewSleeper(s, t, q, c) {
      assert Holds(s.procs[p].pc, LockOf(d));
    }
    PcFrame(s, t, q);
  }

  lemma CommitSafe(s: Sys, p: nat, q: nat, c: Chan)
    requires Enabled(s, p, SleepStep) && s.procs[p].pc.SleepB? && q < |s.procs| && Safe(s, q, c) && Local(s, p)
    ensures Safe(Next(s, p, SleepStep), q, c)
  {
    var t := NextSleep(s, p);
    assert SameZombies(s, t);
    ZombieCond(s, t, c);
    if Committed(t.procs[q], c) && !Cond(t, c) {
      var r :| 0 <= r < |s.procs| && Waking(s, r, c, q);
      assert Waking(t, r, c, q);
    }
  }

  /** p makes something available that sleepers on c wait for, and starts a wakeup() on c.  Nobody else
      holds the condition lock; no other channel loses its reason to wait. */
  ghost predicate Opens(s: Sys, t: Sys, p: nat, c: Chan)
  {
    && p < |s.procs| == |t.procs| && s.init == t.init && |s.locked| == |t.locked|
    && (forall q :: 0 <= q < |s.procs| && q != p ==>
          && t.procs[q].(parent := s.procs[q].parent) == s.procs[q]
          && !Holds(s.procs[q].pc, LockOf(c)) && WakeOf(t, q) == WakeOf(s, q))
    && (forall d :: !Committed(t.procs[p], d))
    && (forall d :: d != c && Cond(s, d) ==> Cond(t, d))
    && WakeOf(s, p).None? && WakeOf(t, p) == Some((c, 0))
  }

  lemma OpensSafe(s: Sys, t: Sys, p: nat, c: Chan, q: nat, d: Chan)
    requires Opens(s, t, p, c) && q < |s.procs| && Safe(s, q, d)
    ensures Safe(t, q, d)
  {
    if Committed(t.procs[q], d) {
      if c == d {
        assert Waking(t, p, c, q);
      } else if !Cond(s, d) {
        var r :| 0 <= r < |s.procs| && Waking(s, r, d, q);
        assert Waking(t, r, d, q);
      }
    }
  }

  lemma OpensPc(s: Sys, t: Sys, p: nat, c: Chan, q: nat)
    requires Opens(s, t, p, c) && q < |s.procs| && q != p && PcOk(s, q)
    requires s.procs[q].pc.Scan? ==> forall r :: 0 <= r < |s.procs| ==> (ZombieChild(t, q, r) ==> ZombieChild(s, q, r))
    requires s.procs[q].pc.ExWakePar? || s.procs[q].pc.ExZomb? ==> t.procs[q].parent == s.procs[q].parent
    requires Exiting(s.procs[q].pc) ==> forall r :: 0 <= r < |s.procs| ==>
      (t.procs[r].parent == Some(q) ==> s.procs[r].parent == Some(q))
    requires s.procs[q].pc.FkLink? || s.procs[q].pc.FkRun? ==>
      var np := s.procs[q].pc.np;
      np < |s.procs| && t.procs[np].forker == s.procs[np].forker && t.procs[np].parent == s.procs[np].parent
        && t.procs[np].pid == s.procs[np].pid
    ensures PcOk(t, q)
  {
    if s.procs[q].pc.SleepA? || s.procs[q].pc.SleepB? {
      assert Holds(s.procs[q].pc, LockOf(s.procs[q].pc.c));
    }
    PcFrame(s, t, q);
  }

  lemma PostOpens(s: Sys, p: nat)
    requires Local(s, p) && s.cap > 0 && Enabled(s, p, PostStep)
    ensures Opens(s, Next(s, p, PostStep), p, KqChan) && Local(Next(s, p, PostStep), p)
    ensures LocksOk(s, Next(s, p, PostStep), p) && SameZombies(s, Next(s, p, PostStep))
  {
    SameZombiesCond(s, Next(s, p, PostStep), KqChan);
  }

  lemma RelOpens(s: Sys, p: nat)
    requires Local(s, p) && Enabled(s, p, RelStep)
    ensures Opens(s, Next(s, p, RelStep), p, LockChan(s.procs[p].pc.k)) && Local(Next(s, p, RelStep), p)
    ensures LocksOk(s, Next(s, p, RelStep), p) && SameZombies(s, Next(s, p, RelStep))
  {
    SameZombiesCond(s, Next(s, p, RelStep), LockChan(s.procs[p].pc.k));
  }

  lemma SameZombiesCond(s: Sys, t: Sys, c: Chan)
    requires SameZombies(s, t) && !c.ProcChan? && |s.locked| == |t.locked|
    requires c == KqChan || t.count == s.count
    requires forall k :: 0 <= k < |s.locked| && c != LockChan(k) ==> t.locked[k] == s.locked[k]
    ensures forall d :: d != c && Cond(s, d) ==> Cond(t, d)
  {
    forall d | d != c && Cond(s, d) ensures Cond(t, d) {
      if d.ProcChan? {
        assert forall r :: 0 <= r < |s.procs| ==> (ZombieChild(s, d.p, r) <==> ZombieChild(t, d.p, r));
      }
    }
  }

  /** kqueue_post() and releasesleep(): everyone asleep on the channel is now owed a look. */
  lemma OpensKeeps(s: Sys, t: Sys, p: nat, c: Chan)
    requires Inv(s) && Opens(s, t, p, c) && LocksOk(s, t, p) && Local(t, p) && SameZombies(s, t)
    requires t.nextpid == s.nextpid && t.reaped == s.reaped && t.cap == s.cap
    requires t.procs[p] == s.procs[p].(pc := t.procs[p].pc) && (s.procs[p].pc.PostAcq? || s.procs[p].pc.RelAcq?)
    requires forall q :: 0 <= q < |s.procs| ==> t.procs[q].parent == s.procs[q].parent
    ensures Inv(t)
  {
    QuietMutex(s, t, p);
    forall q | 0 <= q < |t.procs| ensures Local(t, q) {
      if q != p {
        assert Local(s, q);
        OpensPc(s, t, p, c, q);
      }
    }
    forall q, d | 0 <= q < |t.procs| ensures Safe(t, q, d) {
      OpensSafe(s, t, p, c, q, d);
    }
  }

  // One look of wakeup() at process j.

  /** The wakeup of p on c passes process j, which is then not asleep on c. */
  ghost predicate Looks(s: Sys, t: Sys, p: nat, c: Chan, j: nat)
  {
    && p < |s.procs| == |t.procs| && j < |s.procs| && t == s.(procs := t.procs)
    && (forall q :: 0 <= q < |s.procs| && q != p && q != j ==> t.procs[q] == s.procs[q])
    && t.procs[p] == s.procs[p].(pc := t.procs[p].pc)
    && (j != p ==>
          && (t.procs[j] == s.procs[j] || (s.procs[j].state.SLEEPING? && t.procs[j] == s.procs[j].(state := RUNNABLE)))
          && !Committed(t.procs[j], c))
    && WakeOf(s, p) == Some((c, j)) && WakeOf(t, p) == Some((c, j + 1))
    && t.procs[p].pc == Bump(s.procs[p].pc)
  }

  function Bump(pc: PC): PC
  {
    match pc
    case PostWake(j, after) => PostWake(j + 1, after)
    case RelWake(k, j) => RelWake(k, j + 1)
    case ExWakeInit(i, j) => ExWakeInit(i, j + 1)
    case ExWakePar(j) => ExWakePar(j + 1)
    case other => other
  }

  lemma WakeLooks(s: Sys, p: nat)
    requires Enabled(s, p, WakeStep) && WakeOf(s, p).value.1 < |s.procs|
    ensures Looks(s, NextWake(s, p), p, WakeOf(s, p).value.0, WakeOf(s, p).value.1)
  {
  }

  lemma LooksCond(s: Sys, t: Sys, p: nat, c: Chan, j: nat)
    requires Looks(s, t, p, c, j)
    ensures SameZombies(s, t) && forall d :: Cond(s, d) <==> Cond(t, d)
  {
    assert SameZombies(s, t);
    forall d ensures Cond(s, d) <==> Cond(t, d) {
      ZombieCond(s, t, d);
    }
  }

  lemma LooksSelf(s: Sys, t: Sys, p: nat, c: Chan, j: nat)
    requires Looks(s, t, p, c, j) && Local(s, p)
    ensures Local(t, p)
  {
    assert NoneCommitted(s, p, c, j);
    assert NoneCommitted(t, p, c, j + 1) by {
      forall q | 0 <= q < j + 1 && q < |t.procs| && q != p ensures !Committed(t.procs[q], c) {
      }
    }
    assert forall q :: 0 <= q < |s.procs| ==> t.procs[q].parent == s.procs[q].parent;
  }

  lemma LooksOther(s: Sys, t: Sys, p: nat, c: Chan, j: nat, q: nat)
    requires Looks(s, t, p, c, j) && Local(s, q) && q != p
    ensures Local(t, q)
  {
    LooksCond(s, t, p, c, j);
    PcFrame(s, t, q);
  }

  lemma LooksSafe(s: Sys, t: Sys, p: nat, c: Chan, j: nat, q: nat, d: Chan)
    requires Looks(s, t, p, c, j) && q < |s.procs| && Safe(s, q, d)
    ensures Safe(t, q, d)
  {
    LooksCond(s, t, p, c, j);
    if Committed(t.procs[q], d) && !Cond(s, d) {
      var r :| 0 <= r < |s.procs| && Waking(s, r, d, q);
      assert r == p ==> q != j;
      assert Waking(t, r, d, q);
    }
  }

  lemma WakeKeeps(s: Sys, p: nat)
    requires Inv(s) && Enabled(s, p, WakeStep) && WakeOf(s, p).value.1 < |s.procs|
    ensures Inv(Next(s, p, WakeStep))
  {
    var t := NextWake(s, p);
    var (c, j) := WakeOf(s, p).value;
    WakeLooks(s, p);
    assert Local(s, p);
    QuietMutex(s, t, p);
    forall q | 0 <= q < |t.procs| ensures Local(t, q) {
      if q == p {
        LooksSelf(s, t, p, c, j);
      } else {
        LooksOther(s, t, p, c, j, q);
      }
    }
    forall q, d | 0 <= q < |t.procs| ensures Safe(t, q, d) {
      LooksSafe(s, t, p, c, j, q, d);
    }
  }

  // reparent() hands a child, perhaps a zombie, to init.

  /** Child i of p, at its place in reparent(), becomes a child of init. */
  ghost predicate HandsOver(s: Sys, t: Sys, p: nat, i: nat)
  {
    && p < |s.procs| == |t.procs| && i < |s.procs| && i != p && s.init < |s.procs| && s.init != p
    && t == s.(procs := t.procs)
    && (forall q :: 0 <= q < |s.procs| && q != p && q != i ==> t.procs[q] == s.procs[q])
    && s.procs[i].parent == Some(p) && t.procs[i] == s.procs[i].(parent := Some(s.init))
    && s.procs[p].pc == ExRep(i) && t.procs[p] == s.procs[p].(pc := ExWakeInit(i, 0))
    && (forall q :: 0 <= q < |s.procs| && q != p ==> !Holds(s.procs[q].pc, WaitLock))
    && s.procs[i].forker.None? && i != s.init && s.procs[i].pid > 1
    && Alive(s.procs[s.init]) && s.procs[s.init].pid == 1
  }

  lemma ReparentHandsOver(s: Sys, p: nat, i: nat)
    requires Enabled(s, p, ReparentStep) && s.procs[p].pc == ExRep(i) && i < |s.procs| && s.procs[i].parent == Some(p)
    requires Local(s, p) && Local(s, i) && Local(s, s.init) && Mutex(s)
    ensures HandsOver(s, NextReparent(s, p), p, i)
  {
    assert Holds(s.procs[p].pc, WaitLock);
  }

  lemma HandsOverCond(s: Sys, t: Sys, p: nat, i: nat, d: Chan)
    requires HandsOver(s, t, p, i) && d != ProcChan(s.init) && Cond(s, d)
    ensures Cond(t, d)
  {
    if d.ProcChan? {
      assert forall r :: 0 <= r < |s.procs| ==> (ZombieChild(t, d.p, r) ==> ZombieChild(s, d.p, r));
    }
  }

  lemma HandsOverOpens(s: Sys, t: Sys, p: nat, i: nat)
    requires HandsOver(s, t, p, i) && Local(s, p)
    ensures Opens(s, t, p, ProcChan(s.init))
  {
    forall d | d != ProcChan(s.init) && Cond(s, d) ensures Cond(t, d) {
      HandsOverCond(s, t, p, i, d);
    }
  }

  lemma HandsOverOther(s: Sys, t: Sys, p: nat, i: nat, q: nat)
    requires HandsOver(s, t, p, i) && Opens(s, t, p, ProcChan(s.init)) && Local(s, q) && q != p
    ensures Local(t, q)
  {
    OpensPc(s, t, p, ProcChan(s.init), q);
  }

  lemma HandsOverSelf(s: Sys, t: Sys, p: nat, i: nat)
    requires HandsOver(s, t, p, i) && Local(s, p)
    ensures Local(t, p)
  {
    assert NoChild(s, p, i);
    assert NoChild(t, p, i + 1);
  }

  lemma HandsOverKeeps(s: Sys, t: Sys, p: nat, i: nat)
    requires Inv(s) && HandsOver(s, t, p, i)
    ensures Inv(t)
  {
    assert Local(s, p);
    HandsOverOpens(s, t, p, i);
    QuietMutex(s, t, p);
    forall q | 0 <= q < |t.procs| ensures Local(t, q) {
      assert Local(s, q);
      if q == p {
        HandsOverSelf(s, t, p, i);
      } else {
        HandsOverOther(s, t, p, i, q);
      }
    }
    forall q, d | 0 <= q < |t.procs| ensures Safe(t, q, d) {
      OpensSafe(s, t, p, ProcChan(s.init), q, d);
    }
  }

  lemma ReparentKeeps(s: Sys, p: nat, i: nat)
    requires Inv(s) && Enabled(s, p, ReparentStep) && s.procs[p].pc == ExRep(i) && i < |s.procs|
    requires s.procs[i].parent == Some(p)
    ensures Inv(Next(s, p, ReparentStep))
  {
    assert Local(s, p) && Local(s, i) && Local(s, s.init);
    ReparentHandsOver(s, p, i);
    HandsOverKeeps(s, NextReparent(s, p), p, i);
  }

  // kexit() becomes a zombie: its parent has been woken, and cannot have gone back to sleep.

  /** p, at the end of kexit(), turns into a zombie. */
  ghost predicate Dies(s: Sys, t: Sys, p: nat)
  {
    && p < |s.procs| == |t.procs| && s.procs[p].pc.ExZomb? && s.procs[p].parent.Some?
    && t == s.With(p, s.procs[p].(state := ZOMBIE, pc := ExSwtch))
    && (forall q :: 0 <= q < |s.procs| && q != p ==> !Holds(s.procs[q].pc, WaitLock) && s.procs[q].parent != Some(p))
    && NoneCommitted(s, p, ProcChan(s.procs[p].parent.value), |s.procs|)
  }

  lemma ZombieDies(s: Sys, p: nat)
    requires Enabled(s, p, ZombieStep) && Local(s, p) && Mutex(s)
    ensures Dies(s, Next(s, p, ZombieStep), p) && Local(Next(s, p, ZombieStep), p)
  {
    assert Holds(s.procs[p].pc, WaitLock);
  }

  lemma DiesCond(s: Sys, t: Sys, p: nat, d: Chan)
    requires Dies(s, t, p) && d != ProcChan(s.procs[p].parent.value) && Cond(s, d)
    ensures Cond(t, d)
  {
    if d.ProcChan? {
      assert forall r :: 0 <= r < |s.procs| ==> (ZombieChild(t, d.p, r) ==> ZombieChild(s, d.p, r));
    }
  }

  lemma DiesOther(s: Sys, t: Sys, p: nat, q: nat)
    requires Dies(s, t, p) && Local(s, q) && q != p
    ensures Local(t, q)
  {
    if s.procs[q].pc.SleepA? || s.procs[q].pc.SleepB? {
      assert Holds(s.procs[q].pc, LockOf(s.procs[q].pc.c));
      if Cond(s, s.procs[q].pc.c) {
        DiesCond(s, t, p, s.procs[q].pc.c);
      }
    }
    PcFrame(s, t, q);
  }

  lemma DiesSafe(s: Sys, t: Sys, p: nat, q: nat, d: Chan)
    requires Dies(s, t, p) && q < |s.procs| && Safe(s, q, d)
    ensures Safe(t, q, d)
  {
    if Committed(t.procs[q], d) {
      assert q != p && d != ProcChan(s.procs[p].parent.value);
      if Cond(s, d) {
        DiesCond(s, t, p, d);
      } else {
        var r :| 0 <= r < |s.procs| && Waking(s, r, d, q);
        assert Waking(t, r, d, q);
      }
    }
  }

  lemma DiesKeeps(s: Sys, t: Sys, p: nat)
    requires Inv(s) && Dies(s, t, p) && Local(t, p)
    ensures Inv(t)
  {
    assert Local(s, p);
    QuietMutex(s, t, p);
    forall q | 0 <= q < |t.procs| ensures Local(t, q) {
      assert Local(s, q);
      if q != p {
        DiesOther(s, t, p, q);
      }
    }
    forall q, d | 0 <= q < |t.procs| ensures Safe(t, q, d) {
      DiesSafe(s, t, p, q, d);
    }
  }

  // Steps of p that also change a slot j nobody else is using: kfork() setting a child up, kwait() freeing one.

  ghost predicate Handles(s: Sys, t: Sys, p: nat, j: nat)
  {
    && p < |s.procs| == |t.procs| && j < |s.procs| && j != p && j != s.init
    && t == s.(procs := t.procs, nextpid := t.nextpid, reaped := t.reaped) && s.nextpid <= t.nextpid
    && (forall q :: 0 <= q < |s.procs| && q != p && q != j ==> t.procs[q] == s.procs[q])
    && HandlesSelf(s.procs[p], t.procs[p], j) && HandlesSlot(s.procs[j], t.procs[j], p)
    && (forall i :: i in t.reaped ==> i < t.nextpid)
    && (forall q :: 0 <= q < |s.procs| && q != j && !s.procs[q].state.UNUSED? ==>
          s.procs[q].pid !in t.reaped && (t.procs[j].state.UNUSED? || t.procs[j].pid != s.procs[q].pid))
  }

  ghost predicate HandlesSelf(x: Proc, y: Proc, j: nat)
  {
    && x.state.RUNNING? && y == x.(pc := y.pc) && (x.pc.User? || x.pc.Scan? || x.pc == FkLink(j) || x.pc == FkRun(j))
    && (y.pc.User? || y.pc == FkLink(j) || y.pc == FkRun(j) || y.pc == PostAcq(None))
  }

  ghost predicate HandlesSlot(x: Proc, y: Proc, p: nat)
  {
    && !Alive(x) && (x.pc.NoCode? || x.pc.Gone?) && (x.forker == None || x.forker == Some(p))
    && (y.state.UNUSED? || y.state.USED? || y.state.RUNNABLE?) && (y.pc.NoCode? || y.pc.User?)
    && (y.parent == x.parent || y.parent == None || y.parent == Some(p))
  }

  lemma HandlesCond(s: Sys, t: Sys, p: nat, j: nat, d: Chan)
    requires Handles(s, t, p, j) && Cond(s, d)
    ensures Cond(t, d)
  {
    if d.ProcChan? {
      assert forall r :: 0 <= r < |s.procs| ==> (ZombieChild(t, d.p, r) ==> ZombieChild(s, d.p, r));
    }
  }

  lemma HandlesPc(s: Sys, t: Sys, p: nat, j: nat, q: nat)
    requires Handles(s, t, p, j) && q < |s.procs| && q != p && q != j && PcOk(s, q)
    ensures PcOk(t, q)
  {
    if s.procs[q].pc.SleepA? || s.procs[q].pc.SleepB? {
      HandlesCond(s, t, p, j, s.procs[q].pc.c);
    }
    PcFrame(s, t, q);
  }

  lemma HandlesTree(s: Sys, t: Sys, p: nat, j: nat, q: nat)
    requires Handles(s, t, p, j) && q < |s.procs| && q != p && q != j && TreeOk(s, q)
    ensures TreeOk(t, q)
  {
  }

  lemma HandlesOther(s: Sys, t: Sys, p: nat, j: nat, q: nat)
    requires Handles(s, t, p, j) && q != p && q != j && Local(s, q)
    ensures Local(t, q)
  {
    HandlesPc(s, t, p, j, q);
    HandlesTree(s, t, p, j, q);
  }

  lemma HandlesSafe(s: Sys, t: Sys, p: nat, j: nat, q: nat, d: Chan)
    requires Handles(s, t, p, j) && q < |s.procs| && Safe(s, q, d) && !Committed(t.procs[j], d)
    ensures Safe(t, q, d)
  {
    if Committed(t.procs[q], d) {
      if Cond(s, d) {
        HandlesCond(s, t, p, j, d);
      } else {
        var r :| 0 <= r < |s.procs| && Waking(s, r, d, q);
        assert Waking(t, r, d, q);
      }
    }
  }

  lemma HandlesMutex(s: Sys, t: Sys, p: nat, j: nat)
    requires Handles(s, t, p, j) && Mutex(s)
    ensures Mutex(t)
  {
    assert forall l :: !Holds(t.procs[p].pc, l) && !Holds(t.procs[j].pc, l);
  }

  lemma HandlesKeeps(s: Sys, t: Sys, p: nat, j: nat)
    requires Inv(s) && Handles(s, t, p, j) && Local(t, p) && Local(t, j)
    ensures Inv(t)
  {
    HandlesMutex(s, t, p, j);
    forall q | 0 <= q < |t.procs| ensures Local(t, q) {
      assert Local(s, q);
      if q != p && q != j {
        HandlesOther(s, t, p, j, q);
      }
    }
    forall q, d | 0 <= q < |t.procs| ensures Safe(t, q, d) {
      HandlesSafe(s, t, p, j, q, d);
    }
  }

  /** kwait() frees a zombie child.  The scheduler is done with it: its p->lock is free. */
  lemma ReapKeeps(s: Sys, p: nat, j: nat)
    requires Inv(s) && Enabled(s, p, ScanStep(true)) && s.procs[p].pc.j == j < |s.procs| && ZombieChild(s, p, j)
    ensures Inv(Next(s, p, ScanStep(true)))
  {
    var t := NextScan(s, p, true);
    assert Local(s, p) && Local(s, j);
    ReapHandles(s, p, j);
    HandlesKeeps(s, t, p, j);
  }

  lemma ReapHandles(s: Sys, p: nat, j: nat)
    requires Enabled(s, p, ScanStep(true)) && s.procs[p].pc.j == j < |s.procs| && ZombieChild(s, p, j)
    requires Local(s, p) && Local(s, j) && PidsDistinct(s) && (forall i :: i in s.reaped ==> i < s.nextpid)
    requires forall q :: 0 <= q < |s.procs| ==> Local(s, q)
    ensures Handles(s, NextScan(s, p, true), p, j)
    ensures Local(NextScan(s, p, true), p) && Local(NextScan(s, p, true), j)
  {
    var t := NextScan(s, p, true);
    forall q | 0 <= q < |s.procs| && q != j && !s.procs[q].state.UNUSED? ensures s.procs[q].pid !in t.reaped {
      assert Local(s, q);
    }
  }

  /** No pid in use has been reaped, and none has yet to be given out. */
  lemma PidsInUse(s: Sys)
    requires Inv(s)
    ensures forall q :: 0 <= q < |s.procs| && !s.procs[q].state.UNUSED? ==>
      s.procs[q].pid !in s.reaped && s.procs[q].pid < s.nextpid
  {
    forall q | 0 <= q < |s.procs| && !s.procs[q].state.UNUSED?
      ensures s.procs[q].pid !in s.reaped && s.procs[q].pid < s.nextpid
    {
      assert Local(s, q);
    }
  }

  lemma ForkAllocKeeps(s: Sys, p: nat, np: nat)
    requires Inv(s) && Enabled(s, p, ForkAlloc(np))
    ensures Inv(Next(s, p, ForkAlloc(np)))
  {
    hide Inv, Handles, Local;
    ForkAllocHandles(s, p, np);
    ForkAllocLocal(s, p, np);
    HandlesKeeps(s, Next(s, p, ForkAlloc(np)), p, np);
  }

  lemma ForkAllocHandles(s: Sys, p: nat, np: nat)
    requires Inv(s) && Enabled(s, p, ForkAlloc(np))
    ensures Handles(s, Next(s, p, ForkAlloc(np)), p, np)
  {
    assert Local(s, p) && Local(s, np);
    PidsInUse(s);
  }

  lemma ForkAllocLocal(s: Sys, p: nat, np: nat)
    requires Inv(s) && Enabled(s, p, ForkAlloc(np))
    ensures Local(Next(s, p, ForkAlloc(np)), p) && Local(Next(s, p, ForkAlloc(np)), np)
  {
    assert Local(s, p) && Local(s, np);
    PidsInUse(s);
  }

  lemma ForkLinkKeeps(s: Sys, p: nat)
    requires Inv(s) && Enabled(s, p, ForkLink)
    ensures Inv(Next(s, p, ForkLink))
  {
    var np := s.procs[p].pc.np;
    assert Local(s, p) && Local(s, np);
    PidsInUse(s);
    ForkLinkHandles(s, p, np);
    HandlesKeeps(s, Next(s, p, ForkLink), p, np);
  }

  /** The pids in use are as Handles asks. */
  ghost predicate PidsFit(s: Sys, j: nat)
    requires j < |s.procs|
  {
    && (forall i :: i in s.reaped ==> i < s.nextpid)
    && forall q :: 0 <= q < |s.procs| && q != j && !s.procs[q].state.UNUSED? ==>
         s.procs[q].pid !in s.reaped && s.procs[j].pid != s.procs[q].pid
  }

  lemma ForkLinkHandles(s: Sys, p: nat, np: nat)
    requires Enabled(s, p, ForkLink) && s.procs[p].pc == FkLink(np) && Local(s, p) && Local(s, np) && PidsFit(s, np)
    ensures Handles(s, Next(s, p, ForkLink), p, np)
    ensures Local(Next(s, p, ForkLink), p) && Local(Next(s, p, ForkLink), np)
  {
  }

  lemma ForkRunKeeps(s: Sys, p: nat)
    requires Inv(s) && Enabled(s, p, ForkRun)
    ensures Inv(Next(s, p, ForkRun))
  {
    var np := s.procs[p].pc.np;
    assert Local(s, p) && Local(s, np);
    PidsInUse(s);
    ForkRunHandles(s, p, np);
    ForkRunLocal(s, p, np);
    HandlesKeeps(s, Next(s, p, ForkRun), p, np);
  }

  lemma ForkRunHandles(s: Sys, p: nat, np: nat)
    requires Enabled(s, p, ForkRun) && s.procs[p].pc == FkRun(np) && Local(s, p) && Local(s, np) && PidsFit(s, np)
    ensures Handles(s, Next(s, p, ForkRun), p, np)
  {
  }

  lemma ForkRunLocal(s: Sys, p: nat, np: nat)
    requires Enabled(s, p, ForkRun) && s.procs[p].pc == FkRun(np) && Local(s, p) && Local(s, np)
    ensures Local(Next(s, p, ForkRun), p) && Local(Next(s, p, ForkRun), np)
  {
  }

  /** allocproc() takes a pid and then fails. */
  lemma ForkFailKeeps(s: Sys, p: nat)
    requires Inv(s) && Enabled(s, p, ForkFail)
    ensures Inv(Next(s, p, ForkFail))
  {
    var t := Next(s, p, ForkFail);
    assert SameZombies(s, t);
    forall q | 0 <= q < |t.procs| ensures Local(t, q) {
      assert Local(s, q);
      if s.procs[q].pc.SleepA? || s.procs[q].pc.SleepB? {
        ZombieCond(s, t, s.procs[q].pc.c);
      }
      PcFrame(s, t, q);
    }
    forall q, d | 0 <= q < |t.procs| ensures Safe(t, q, d) {
      assert Safe(s, q, d);
      ZombieCond(s, t, d);
      if Committed(t.procs[q], d) && !Cond(s, d) {
        var r :| 0 <= r < |s.procs| && Waking(s, r, d, q);
        assert Waking(t, r, d, q);
      }
    }
  }

  // ---------------------------------------------------------------- every step, every run

  predicate IsQuiet(a: Action)
  {
    a.StartWait? || a.StartAcquire? || a.StartKwait? || a.StartRelease? || a.StartExit? || a.StartPost? ||
    a.Acquire? || a.TestStep? || a.Schedule? || a.Yield? || a.SwtchStep? || a.ExitAcquire? || a.Kill?
  }

  lemma QuietSteps(s: Sys, p: nat, a: Action)
    requires Local(s, p) && Enabled(s, p, a) && IsQuiet(a)
    ensures QuietStep(s, Next(s, p, a), p)
  {
    hide QuietStep, Local, Next, Enabled;
    if a.Acquire? {
      AcquireQuiet(s, p);
    } else if a.TestStep? {
      TestQuiet(s, p);
    } else if a.Schedule? {
      ScheduleQuiet(s, p);
    } else if a.Yield? {
      YieldQuiet(s, p);
    } else if a.SwtchStep? {
      SwtchQuiet(s, p);
    } else if a.ExitAcquire? {
      ExitAcquireQuiet(s, p);
    } else if a.Kill? {
      KillQuiet(s, p);
    } else {
      StartQuiet(s, p, a);
    }
  }

  lemma QuietStepKeeps(s: Sys, p: nat, a: Action)
    requires Inv(s) && Enabled(s, p, a) && IsQuiet(a)
    ensures Inv(Next(s, p, a))
  {
    assert Local(s, p);
    QuietSteps(s, p, a);
    QuietKeeps(s, Next(s, p, a), p);
  }

  lemma ScanStepKeeps(s: Sys, p: nat, copied: bool)
    requires Inv(s) && Enabled(s, p, ScanStep(copied))
    ensures Inv(Next(s, p, ScanStep(copied)))
  {
    var j := s.procs[p].pc.j;
    assert Local(s, p);
    if j < |s.procs| && copied && ZombieChild(s, p, j) {
      ReapKeeps(s, p, j);
    } else {
      if j < |s.procs| {
        ScanQuiet(s, p, copied);
      } else {
        ScanEndQuiet(s, p, copied);
      }
      QuietKeeps(s, NextScan(s, p, copied), p);
    }
  }

  lemma SleepStepKeeps(s: Sys, p: nat)
    requires Inv(s) && Enabled(s, p, SleepStep)
    ensures Inv(Next(s, p, SleepStep))
  {
    assert Local(s, p);
    if s.procs[p].pc.SleepB? {
      CommitKeeps(s, p);
    } else {
      SleepQuiet(s, p);
      QuietKeeps(s, NextSleep(s, p), p);
    }
  }

  lemma WakeStepKeeps(s: Sys, p: nat)
    requires Inv(s) && Enabled(s, p, WakeStep)
    ensures Inv(Next(s, p, WakeStep))
  {
    assert Local(s, p);
    if WakeOf(s, p).value.1 < |s.procs| {
      WakeKeeps(s, p);
    } else {
      WakeEndQuiet(s, p);
      QuietKeeps(s, NextWake(s, p), p);
    }
  }

  lemma ReparentStepKeeps(s: Sys, p: nat)
    requires Inv(s) && Enabled(s, p, ReparentStep)
    ensures Inv(Next(s, p, ReparentStep))
  {
    var i := s.procs[p].pc.i;
    assert Local(s, p);
    if i < |s.procs| && s.procs[i].parent == Some(p) {
      ReparentKeeps(s, p, i);
    } else {
      ReparentQuiet(s, p);
      QuietKeeps(s, NextReparent(s, p), p);
    }
  }

  lemma OpenStepKeeps(s: Sys, p: nat, a: Action)
    requires Inv(s) && Enabled(s, p, a) && (a.PostStep? || a.RelStep?)
    ensures Inv(Next(s, p, a))
  {
    assert Local(s, p);
    if a.PostStep? {
      PostOpens(s, p);
      OpensKeeps(s, Next(s, p, a), p, KqChan);
    } else {
      RelOpens(s, p);
      OpensKeeps(s, Next(s, p, a), p, LockChan(s.procs[p].pc.k));
    }
  }

  lemma StepKeeps(s: Sys, p: nat, a: Action)
    requires Inv(s) && Enabled(s, p, a)
    ensures Inv(Next(s, p, a))
  {
    match a
    case ScanStep(copied) => ScanStepKeeps(s, p, copied);
    case SleepStep => SleepStepKeeps(s, p);
    case PostStep => OpenStepKeeps(s, p, a);
    case RelStep => OpenStepKeeps(s, p, a);
    case WakeStep => WakeStepKeeps(s, p);
    case ReparentStep => ReparentStepKeeps(s, p);
    case ZombieStep =>
      assert Local(s, p);
      ZombieDies(s, p);
      DiesKeeps(s, Next(s, p, a), p);
    case ForkAlloc(np) => ForkAllocKeeps(s, p, np);
    case ForkFail => ForkFailKeeps(s, p);
    case ForkLink => ForkLinkKeeps(s, p);
    case ForkRun => ForkRunKeeps(s, p);
    case _ => QuietStepKeeps(s, p, a);
  }

  lemma {:induction false} RunKeeps(ss: seq<Sys>, who: seq<nat>, acts: seq<Action>, i: nat)
    requires IsRun(ss, who, acts) && i <= |acts|
    ensures Inv(ss[i])
  {
    if i == 0 {
      BootInv(ss[0]);
    } else {
      RunKeeps(ss, who, acts, i - 1);
      StepKeeps(ss[i - 1], who[i - 1], acts[i - 1]);
    }
  }

  /** No lost wakeups, in any state of any run.  A process asleep on a channel whose condition lock is
      free has what it waits for still missing: the event queue is empty, the sleeplock is taken, or it
      has no zombie child.  While the lock is held, the only other possibility is a wakeup on that
      channel that has not passed the sleeper yet. */
  lemma NoLostWakeups(ss: seq<Sys>, who: seq<nat>, acts: seq<Action>, i: nat, p: nat, c: Chan)
    requires IsRun(ss, who, acts) && i <= |acts| && p < |ss[i].procs|
    requires ss[i].procs[p].state.SLEEPING? && ss[i].procs[p].chan == Some(c)
    ensures Cond(ss[i], c) || SomeoneWaking(ss[i], c, p)
    ensures Free(ss[i], LockOf(c)) ==> Cond(ss[i], c)
    ensures c.ProcChan? ==> c.p == p
  {
    var s := ss[i];
    RunKeeps(ss, who, acts, i);
    assert Local(s, p) && Safe(s, p, c);
    if !Cond(s, c) {
      var q :| 0 <= q < |s.procs| && Waking(s, q, c, p);
      assert Holds(s.procs[q].pc, LockOf(c));
    }
  }

  /** A wakeup() that has looked at every process leaves nobody asleep on its channel. */
  lemma WakeupReachesAll(ss: seq<Sys>, who: seq<nat>, acts: seq<Action>, i: nat, p: nat, q: nat)
    requires IsRun(ss, who, acts) && i <= |acts| && p < |ss[i].procs| && q < |ss[i].procs| && p != q
    requires WakeOf(ss[i], p).Some? && WakeOf(ss[i], p).value.1 == |ss[i].procs|
    ensures !(ss[i].procs[q].state.SLEEPING? && ss[i].procs[q].chan == Some(WakeOf(ss[i], p).value.0))
  {
    RunKeeps(ss, who, acts, i);
    assert Local(ss[i], p);
    assert NoneCommitted(ss[i], p, WakeOf(ss[i], p).value.0, |ss[i].procs|);
  }

  /** q is p's parent, alive, and older. */
  predicate IsParent(s: Sys, p: nat, q: nat)
  {
    p < |s.procs| && q < |s.procs| && s.procs[p].parent == Some(q) && Alive(s.procs[q])
      && s.procs[q].pid < s.procs[p].pid
  }

  /** Each process on the path is followed by its parent, and the last is init. */
  predicate Lineage(s: Sys, path: seq<nat>)
  {
    |path| > 0 && (if |path| == 1 then path[0] == s.init else IsParent(s, path[0], path[1]) && Lineage(s, path[1..]))
  }

  lemma {:induction false} ReachesInit(s: Sys, p: nat) returns (path: seq<nat>)
    requires Inv(s) && p < |s.procs| && (Alive(s.procs[p]) || s.procs[p].state.ZOMBIE?)
    ensures Lineage(s, path) && path[0] == p
    decreases s.procs[p].pid
  {
    assert Local(s, p);
    if p == s.init {
      path := [p];
    } else {
      var rest := ReachesInit(s, s.procs[p].parent.value);
      path := [p] + rest;
      assert path[1..] == rest;
    }
  }

  /** The process tree, in any state of any run: from every process that has started and is not freed,
      parents lead to init; every parent on the way is alive and has a smaller pid. */
  lemma ProcessTree(ss: seq<Sys>, who: seq<nat>, acts: seq<Action>, i: nat, p: nat)
    requires IsRun(ss, who, acts) && i <= |acts| && p < |ss[i].procs|
    requires Alive(ss[i].procs[p]) || ss[i].procs[p].state.ZOMBIE?
    ensures exists path :: Lineage(ss[i], path) && path[0] == p
  {
    RunKeeps(ss, who, acts, i);
    var path := ReachesInit(ss[i], p);
  }

  /** The pid that a step of kwait() returns. */
  function ReapedBy(s: Sys, p: nat, a: Action): Option<nat>
    requires Enabled(s, p, a)
  {
    if a == ScanStep(true) && s.procs[p].pc.j < |s.procs| && ZombieChild(s, p, s.procs[p].pc.j)
    then Some(s.procs[s.procs[p].pc.j].pid) else None
  }

  lemma ReapedStep(s: Sys, p: nat, a: Action)
    requires Enabled(s, p, a)
    ensures Next(s, p, a).reaped == if ReapedBy(s, p, a).Some? then s.reaped + {ReapedBy(s, p, a).value} else s.reaped
  {
  }

  lemma {:induction false} ReapedGrows(ss: seq<Sys>, who: seq<nat>, acts: seq<Action>, i: nat, k: nat)
    requires IsRun(ss, who, acts) && i <= k <= |acts|
    ensures ss[i].reaped <= ss[k].reaped
    decreases k - i
  {
    if i < k {
      ReapedStep(ss[i], who[i], acts[i]);
      ReapedGrows(ss, who, acts, i + 1, k);
    }
  }

  /** No pid is returned by wait() twice. */
  lemma ReapedAtMostOnce(ss: seq<Sys>, who: seq<nat>, acts: seq<Action>, i: nat, k: nat)
    requires IsRun(ss, who, acts) && i < k < |acts|
    requires ReapedBy(ss[i], who[i], acts[i]).Some?
    ensures ReapedBy(ss[k], who[k], acts[k]) != ReapedBy(ss[i], who[i], acts[i])
  {
    ReapedStep(ss[i], who[i], acts[i]);
    ReapedGrows(ss, who, acts, i + 1, k);
    RunKeeps(ss, who, acts, k);
    PidsInUse(ss[k]);
  }

  /** Slot j of s, a zombie, is the same zombie in t. */
  predicate ZombieKept(s: Sys, t: Sys, j: nat)
  {
    j < |s.procs| == |t.procs| && t.procs[j].state.ZOMBIE? && t.procs[j].pid == s.procs[j].pid
  }

  lemma ZombieScan(s: Sys, p: nat, copied: bool, j: nat)
    requires Enabled(s, p, ScanStep(copied)) && j < |s.procs| && s.procs[j].state.ZOMBIE?
    ensures ReapedBy(s, p, ScanStep(copied)) == Some(s.procs[j].pid) || ZombieKept(s, NextScan(s, p, copied), j)
  {
  }

  lemma ZombieWake(s: Sys, p: nat, j: nat)
    requires Enabled(s, p, WakeStep) && j < |s.procs| && s.procs[j].state.ZOMBIE?
    ensures ZombieKept(s, NextWake(s, p), j)
  {
  }

  lemma ZombieReparent(s: Sys, p: nat, j: nat)
    requires Enabled(s, p, ReparentStep) && j < |s.procs| && s.procs[j].state.ZOMBIE?
    ensures ZombieKept(s, NextReparent(s, p), j)
  {
  }

  lemma ZombieFork(s: Sys, p: nat, a: Action, j: nat)
    requires Enabled(s, p, a) && (a.ForkAlloc? || a.ForkFail? || a.ForkLink? || a.ForkRun?)
    requires j < |s.procs| && s.procs[j].state.ZOMBIE? && Local(s, p) && (a.ForkRun? ==> Local(s, s.procs[p].pc.np))
    ensures ZombieKept(s, Next(s, p, a), j)
  {
  }

  /** A zombie stays in its slot until the step that reaps it. */
  lemma ZombieStaysInSlot(s: Sys, p: nat, a: Action, j: nat)
    requires Inv(s) && Enabled(s, p, a) && j < |s.procs| && s.procs[j].state.ZOMBIE?
    ensures ReapedBy(s, p, a) == Some(s.procs[j].pid) || ZombieKept(s, Next(s, p, a), j)
  {
    assert Local(s, p);
    if a.ScanStep? {
      ZombieScan(s, p, a.copied, j);
    } else if a.WakeStep? {
      ZombieWake(s, p, j);
    } else if a.ReparentStep? {
      ZombieReparent(s, p, j);
    } else if a.ForkAlloc? || a.ForkFail? || a.ForkLink? || a.ForkRun? {
      assert a.ForkRun? ==> Local(s, s.procs[p].pc.np);
      ZombieFork(s, p, a, j);
    } else {
      ZombieOther(s, p, a, j);
    }
  }

  lemma ZombieOther(s: Sys, p: nat, a: Action, j: nat)
    requires Enabled(s, p, a) && !a.ScanStep? && !a.WakeStep? && !a.ReparentStep?
    requires !a.ForkAlloc? && !a.ForkFail? && !a.ForkLink? && !a.ForkRun?
    requires j < |s.procs| && s.procs[j].state.ZOMBIE? && Local(s, p)
    ensures ZombieKept(s, Next(s, p, a), j)
  {
    hide PcOk, TreeOk;
  }

  /** No exit is lost: at any later point of a run, a zombie is still there for its parent to find, or
      its pid has been returned by wait(). */
  lemma {:induction false} ZombiesAreKept(ss: seq<Sys>, who: seq<nat>, acts: seq<Action>, i: nat, k: nat, j: nat)
    requires IsRun(ss, who, acts) && i <= k <= |acts| && j < |ss[i].procs| && ss[i].procs[j].state.ZOMBIE?
    ensures ss[i].procs[j].pid in ss[k].reaped ||
            (j < |ss[k].procs| && ss[k].procs[j].state.ZOMBIE? && ss[k].procs[j].pid == ss[i].procs[j].pid)
    decreases k - i
  {
    if i < k {
      RunKeeps(ss, who, acts, i);
      ZombieStaysInSlot(ss[i], who[i], acts[i], j);
      ReapedStep(ss[i], who[i], acts[i]);
      if ReapedBy(ss[i], who[i], acts[i]) == Some(ss[i].procs[j].pid) {
        ReapedGrows(ss, who, acts, i + 1, k);
      } else {
        ZombiesAreKept(ss, who, acts, i + 1, k, j);
      }
    }
  }
}
