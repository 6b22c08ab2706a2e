/** The life of a process in the runs of Processes, from kfork() to the wait() that reaps it: how its
    state and its parent may change, that it keeps its slot and its pid, and that killed processes stay
    killed. */
module ProcessLife {
  import opened Basics
  import opened Processes
  import opened ProcessCalls

  /** The changes of p->state, and who makes them: slot q goes from x to y in a step of process w. */
  predicate Moves(s: Sys, w: nat, a: Action, q: nat, x: Proc, y: Proc)
    requires w < |s.procs|
  {
    match (x.state, y.state)
    case (UNUSED, USED) => a == ForkAlloc(q)
    case (USED, RUNNABLE) => a.ForkRun? && x.forker == Some(w)
    case (RUNNABLE, RUNNING) => a.Schedule? && w == q
    case (RUNNING, RUNNABLE) => a.Yield? && w == q
    case (RUNNING, SLEEPING) => a.SleepStep? && w == q
    case (SLEEPING, RUNNABLE) => (a.Kill? && w == q) ||
      (a.WakeStep? && x.chan.Some? && WakeOf(s, w) == Some((x.chan.value, q)))
    case (RUNNING, ZOMBIE) => a.ZombieStep? && w == q
    case (ZOMBIE, UNUSED) => a == ScanStep(true) && x.parent == Some(w)
    case _ => y.state == x.state
  }

  /** The changes of p->parent: fork() sets it, exit() of the parent makes it init, wait() clears it. */
  predicate Adopts(s: Sys, w: nat, a: Action, q: nat, x: Proc, y: Proc)
    requires w < |s.procs|
  {
    || y.parent == x.parent
    || (a.ForkLink? && s.procs[w].pc == FkLink(q) && x.parent == None && y.parent == Some(w))
    || (a.ReparentStep? && x.parent == Some(w) && y.parent == Some(s.init))
    || (a == ScanStep(true) && ZombieChildOf(x, w) && y == freed)
  }

  predicate ZombieChildOf(x: Proc, w: nat) { x.state.ZOMBIE? && x.parent == Some(w) }

  /** The same process: a new one comes only into a free slot, with a new pid; a slot is freed only when
      its pid is reaped; and a process is killed if it was, or is being so now. */
  predicate Same(s: Sys, t: Sys, w: nat, a: Action, q: nat, x: Proc, y: Proc)
  {
    if x.state.UNUSED? then y == x || (a == ForkAlloc(q) && y.state.USED? && y.pid == s.nextpid && !y.killed)
    else if y.state.UNUSED? then x.state.ZOMBIE? && x.pid in t.reaped && y == freed
    else a != ForkAlloc(q) && y.pid == x.pid && (y.killed <==> x.killed || (a.Kill? && w == q))
  }

  /** The turns of a process: the scheduler runs it, it yields, goes to sleep, exits or is killed. */
  predicate Turned(a: Action, x: Proc, y: Proc)
  {
    && (a.Schedule? ==> y.state.RUNNING?)
    && (a.Yield? ==> y.state.RUNNABLE?)
    && (a.SleepStep? && x.pc.SleepC? ==> y.state.SLEEPING?)
    && (a.ZombieStep? ==> y.state.ZOMBIE?)
    && (a.Kill? ==> y.killed && !y.state.SLEEPING?)
  }

  /** What a step of w does to slot q. */
  predicate LifeStep(s: Sys, t: Sys, w: nat, a: Action, q: nat)
  {
    && w < |s.procs| && q < |s.procs| == |t.procs|
    && var x, y := s.procs[q], t.procs[q];
       && Moves(s, w, a, q, x, y) && Adopts(s, w, a, q, x, y) && Same(s, t, w, a, q, x, y)
       && (w == q ==> Turned(a, x, y))
  }

  /** The steps that change no slot but that of their process. */
  predicate OwnOnly(a: Action)
  {
    !(a.ScanStep? || a.WakeStep? || a.ReparentStep? || a.ForkAlloc? || a.ForkLink? || a.ForkRun?)
  }

  /** A slot of which only the place in the code changes. */
  lemma LifeStays(s: Sys, t: Sys, w: nat, a: Action, q: nat)
    requires w < |s.procs| && q < |s.procs| && !(Turns(a) && w == q) && a != ForkAlloc(q)
    requires StateOk(s, q) && CodeOnly(s, t, q)
    ensures LifeStep(s, t, w, a, q)
  {
  }

  /** A step in the code changes nothing else. */
  predicate CodeOnly(s: Sys, t: Sys, q: nat)
  {
    && q < |s.procs| == |t.procs| && s.procs[q].(pc := t.procs[q].pc) == t.procs[q]
    && (t.procs[q].pc.NoCode? <==> s.procs[q].pc.NoCode?)
  }

  predicate Turns(a: Action) { a.Schedule? || a.Yield? || a.SleepStep? || a.ZombieStep? || a.Kill? }

  lemma OwnCode(s: Sys, w: nat, a: Action, q: nat)
    requires Enabled(s, w, a) && StateOk(s, w) && q < |s.procs| && OwnOnly(a) && (q != w || !Turns(a))
    ensures CodeOnly(s, Next(s, w, a), q)
  {
    hide Cond, Free;
  }

  lemma OwnTurn(s: Sys, w: nat, a: Action)
    requires Enabled(s, w, a) && StateOk(s, w) && Turns(a)
    ensures LifeStep(s, Next(s, w, a), w, a, w)
  {
    hide Cond, Free;
  }

  lemma LifeOwn(s: Sys, w: nat, a: Action, q: nat)
    requires Enabled(s, w, a) && Local(s, w) && q < |s.procs| && Local(s, q) && OwnOnly(a)
    ensures LifeStep(s, Next(s, w, a), w, a, q)
  {
    hide Enabled, Next, StateOk, PcOk, TreeOk, LifeStep;
    if q == w && Turns(a) {
      OwnTurn(s, w, a);
    } else {
      OwnCode(s, w, a, q);
      LifeStays(s, Next(s, w, a), w, a, q);
    }
  }

  lemma LifeFork(s: Sys, w: nat, a: Action, q: nat)
    requires Enabled(s, w, a) && Local(s, w) && q < |s.procs| && Local(s, q)
    requires a.ForkAlloc? || a.ForkLink? || a.ForkRun?
    ensures LifeStep(s, Next(s, w, a), w, a, q)
  {
    hide Cond, NoneCommitted, NoChild, Free, TreeOk, LifeStep;
    var np := if a.ForkAlloc? then a.np else s.procs[w].pc.np;
    if q == np {
      ForkSlot(s, w, a);
    } else {
      LifeStays(s, Next(s, w, a), w, a, q);
    }
  }

  lemma ForkSlot(s: Sys, w: nat, a: Action)
    requires Enabled(s, w, a) && Local(s, w) && (a.ForkAlloc? || a.ForkLink? || a.ForkRun?)
    requires Local(s, if a.ForkAlloc? then a.np else s.procs[w].pc.np)
    ensures LifeStep(s, Next(s, w, a), w, a, if a.ForkAlloc? then a.np else s.procs[w].pc.np)
  {
    hide Cond, NoneCommitted, NoChild, Free, TreeOk;
  }

  lemma LifeScan(s: Sys, w: nat, copied: bool, q: nat)
    requires Enabled(s, w, ScanStep(copied)) && StateOk(s, w) && q < |s.procs| && StateOk(s, q)
    ensures LifeStep(s, NextScan(s, w, copied), w, ScanStep(copied), q)
  {
    var j := s.procs[w].pc.j;
    if !(q == j && copied && ZombieChild(s, w, j)) {
      LifeStays(s, NextScan(s, w, copied), w, ScanStep(copied), q);
    }
  }

  lemma LifeWake(s: Sys, w: nat, q: nat)
    requires Enabled(s, w, WakeStep) && StateOk(s, w) && q < |s.procs| && StateOk(s, q)
    ensures LifeStep(s, NextWake(s, w), w, WakeStep, q)
  {
    hide StateOk;
    var (c, j) := WakeOf(s, w).value;
    if q != j || q == w || !s.procs[q].state.SLEEPING? || s.procs[q].chan != Some(c) {
      hide Moves, Adopts, Same;
      LifeStays(s, NextWake(s, w), w, WakeStep, q);
    }
  }

  lemma LifeReparent(s: Sys, w: nat, q: nat)
    requires Enabled(s, w, ReparentStep) && StateOk(s, w) && q < |s.procs| && StateOk(s, q)
    ensures LifeStep(s, NextReparent(s, w), w, ReparentStep, q)
  {
  }

  lemma LifeRest(s: Sys, w: nat, a: Action, q: nat)
    requires Enabled(s, w, a) && Local(s, w) && q < |s.procs| && Local(s, q)
    requires a.ScanStep? || a.WakeStep? || a.ReparentStep?
    ensures LifeStep(s, Next(s, w, a), w, a, q)
  {
    hide Enabled, StateOk, PcOk, TreeOk, LifeStep;
    match a
    case ScanStep(copied) => LifeScan(s, w, copied, q);
    case WakeStep => LifeWake(s, w, q);
    case ReparentStep => LifeReparent(s, w, q);
  }

  /** The life of every process, in every step of every run. */
  lemma LifeCycle(ss: seq<Sys>, who: seq<nat>, acts: seq<Action>, i: nat, q: nat)
    requires IsRun(ss, who, acts) && i < |acts| && q < |ss[i].procs|
    ensures LifeStep(ss[i], ss[i + 1], who[i], acts[i], q)
  {
    hide IsRun, Next, Enabled, Local, LifeStep;
    Watched(ss, who, acts);
    SameTable(ss, who, acts, i);
    InvAt(ss, who, acts, i, who[i]);
    InvAt(ss, who, acts, i, q);
    var a := acts[i];
    if OwnOnly(a) {
      LifeOwn(ss[i], who[i], a, q);
    } else if a.ForkAlloc? || a.ForkLink? || a.ForkRun? {
      LifeFork(ss[i], who[i], a, q);
    } else {
      LifeRest(ss[i], who[i], a, q);
    }
  }

  // ---------------------------------------------------------------- kill()

  /** Slot q has been killed, after the fork that filled it. */
  predicate Marked(who: seq<nat>, acts: seq<Action>, i: nat, q: nat)
    requires i <= |acts| == |who|
  {
    i > 0 && acts[i - 1] != ForkAlloc(q) && ((acts[i - 1].Kill? && who[i - 1] == q) || Marked(who, acts, i - 1, q))
  }

  /** A process is killed exactly if kill() has been called on it. */
  lemma {:induction false} KilledExactly(ss: seq<Sys>, who: seq<nat>, acts: seq<Action>, i: nat, q: nat)
    requires IsRun(ss, who, acts) && i <= |acts| && q < |ss[i].procs| && !ss[i].procs[q].state.UNUSED?
    ensures |acts| == |who| && (ss[i].procs[q].killed <==> Marked(who, acts, i, q))
  {
    hide IsRun, Boot, Moves, Adopts, Turned;
    Watched(ss, who, acts);
    if i == 0 {
      BootAlive(ss[0], q);
    } else {
      SameTable(ss, who, acts, i - 1);
      LifeCycle(ss, who, acts, i - 1, q);
      if !ss[i - 1].procs[q].state.UNUSED? {
        KilledExactly(ss, who, acts, i - 1, q);
      }
    }
  }

  lemma BootAlive(s: Sys, q: nat)
    requires Boot(s) && q < |s.procs|
    ensures !s.procs[q].killed
  {
  }

  /** No process is lost: at any later point it is in its slot, under its pid, killed if it was killed;
      or wait() has returned its pid. */
  lemma {:induction false} ProcessesAreKept(ss: seq<Sys>, who: seq<nat>, acts: seq<Action>, i: nat, k: nat, q: nat)
    requires IsRun(ss, who, acts) && i <= k <= |acts| && q < |ss[i].procs| && !ss[i].procs[q].state.UNUSED?
    ensures |ss[k].procs| == |ss[i].procs|
    ensures ss[i].procs[q].pid in ss[k].reaped ||
            (!ss[k].procs[q].state.UNUSED? && ss[k].procs[q].pid == ss[i].procs[q].pid
             && (ss[i].procs[q].killed ==> ss[k].procs[q].killed))
    decreases k - i
  {
    hide IsRun, Moves, Adopts, Turned, Next, Enabled;
    Watched(ss, who, acts);
    TableSize(ss, who, acts, i);
    TableSize(ss, who, acts, k);
    if i < k {
      LifeCycle(ss, who, acts, i, q);
      if ss[i + 1].procs[q].state.UNUSED? {
        ReapedGrows(ss, who, acts, i + 1, k);
      } else {
        ProcessesAreKept(ss, who, acts, i + 1, k, q);
      }
    }
  }

  // ---------------------------------------------------------------- fork() and exit()

  /** The one ForkRun step of a fork() that returns has started a child of its own under a new pid. */
  lemma ForkStartsChild(ss: seq<Sys>, who: seq<nat>, acts: seq<Action>, i: nat) returns (q: nat)
    requires IsRun(ss, who, acts) && i < |acts| && acts[i].ForkRun?
    ensures |ss| == |who| + 1 == |acts| + 1 && Started(ss[i], ss[i + 1], who[i], q)
  {
    hide IsRun, Next, Local;
    Watched(ss, who, acts);
    SameTable(ss, who, acts, i);
    InvAt(ss, who, acts, i, who[i]);
    ForkRunSlot(ss[i], who[i]);
    q := ss[i].procs[who[i]].pc.np;
    InvAt(ss, who, acts, i, q);
    RunStarts(ss[i], who[i]);
  }

  predicate Started(s: Sys, t: Sys, p: nat, q: nat)
  {
    && p < |s.procs| == |t.procs| && q < |s.procs| && p != q
    && s.procs[q].state.USED? && t.procs[q].state.RUNNABLE? && t.procs[q].pc.User?
    && t.procs[q].parent == Some(p) && t.procs[q].pid == s.procs[q].pid > t.procs[p].pid
  }

  lemma ForkRunSlot(s: Sys, p: nat)
    requires Enabled(s, p, ForkRun)
    ensures p < |s.procs| && s.procs[p].pc.FkRun? && s.procs[p].pc.np < |s.procs|
  {
  }

  lemma RunStarts(s: Sys, p: nat)
    requires Enabled(s, p, ForkRun) && Local(s, p) && Local(s, s.procs[p].pc.np)
    ensures Started(s, Next(s, p, ForkRun), p, s.procs[p].pc.np)
  {
    hide Cond, NoneCommitted, NoChild, Free;
  }

  /** An exited process has no children: exit() has given them to init, and none comes later. */
  lemma ZombiesAreChildless(ss: seq<Sys>, who: seq<nat>, acts: seq<Action>, i: nat, p: nat)
    requires IsRun(ss, who, acts) && i <= |acts| && p < |ss[i].procs| && ss[i].procs[p].state.ZOMBIE?
    ensures NoChild(ss[i], p, |ss[i].procs|)
  {
    hide IsRun, NoChild;
    InvAt(ss, who, acts, i, p);
  }

  // ---------------------------------------------------------------- pids and channels

  /** How many pids have been handed out since boot, also to a fork() that then failed. */
  function Forks(acts: seq<Action>, i: nat): nat
    requires i <= |acts|
  {
    if i == 0 then 0 else Forks(acts, i - 1) + if acts[i - 1].ForkAlloc? || acts[i - 1].ForkFail? then 1 else 0
  }

  /** Pids are handed out in order, one for each fork(). */
  lemma {:induction false} PidsAreCounted(ss: seq<Sys>, who: seq<nat>, acts: seq<Action>, i: nat)
    requires IsRun(ss, who, acts) && i <= |acts|
    ensures ss[i].nextpid == 2 + Forks(acts, i)
    ensures i < |acts| && acts[i].ForkAlloc? ==>
      acts[i].np < |ss[i + 1].procs| && ss[i + 1].procs[acts[i].np].pid == 2 + Forks(acts, i)
  {
    if i > 0 {
      PidsAreCounted(ss, who, acts, i - 1);
      PidStep(ss[i - 1], who[i - 1], acts[i - 1]);
    }
    if i < |acts| {
      PidStep(ss[i], who[i], acts[i]);
    }
  }

  lemma PidStep(s: Sys, p: nat, a: Action)
    requires Enabled(s, p, a)
    ensures Next(s, p, a).nextpid == s.nextpid + if a.ForkAlloc? || a.ForkFail? then 1 else 0
    ensures a.ForkAlloc? ==> a.np < |Next(s, p, a).procs| && Next(s, p, a).procs[a.np].pid == s.nextpid
  {
    hide Cond, Free;
  }

  /** p->chan is set exactly from going to sleep until running again. */
  predicate ChanExact(x: Proc) { x.chan == if x.pc.Asleep? then Some(x.pc.c) else None }

  lemma ChanOwn(s: Sys, p: nat, a: Action)
    requires Enabled(s, p, a) && ChanExact(s.procs[p])
    ensures |Next(s, p, a).procs| == |s.procs| && ChanExact(Next(s, p, a).procs[p])
  {
    hide Cond, Free;
    match a
    case ScanStep(copied) => ChanScan(s, p, copied);
    case WakeStep => ChanWake(s, p);
    case _ =>
  }

  lemma ChanScan(s: Sys, p: nat, copied: bool)
    requires Enabled(s, p, ScanStep(copied)) && ChanExact(s.procs[p])
    ensures |NextScan(s, p, copied).procs| == |s.procs| && ChanExact(NextScan(s, p, copied).procs[p])
  {
  }

  lemma ChanWake(s: Sys, p: nat)
    requires Enabled(s, p, WakeStep) && ChanExact(s.procs[p])
    ensures |NextWake(s, p).procs| == |s.procs| && ChanExact(NextWake(s, p).procs[p])
  {
  }

  lemma ChanOther(s: Sys, p: nat, a: Action, q: nat)
    requires Enabled(s, p, a) && q < |s.procs| && q != p && ChanExact(s.procs[q])
    requires a.ForkRun? ==> PcOk(s, p) && StateOk(s, q)
    ensures |Next(s, p, a).procs| == |s.procs| && ChanExact(Next(s, p, a).procs[q])
  {
    hide Cond, NoneCommitted, NoChild, Free;
    if a.ForkRun? {
      ChanChild(s, p, q);
    } else {
      hide PcOk, StateOk;
    }
  }

  lemma ChanChild(s: Sys, p: nat, q: nat)
    requires Enabled(s, p, ForkRun) && PcOk(s, p) && q < |s.procs| && q != p && StateOk(s, q) && ChanExact(s.procs[q])
    ensures |Next(s, p, ForkRun).procs| == |s.procs| && ChanExact(Next(s, p, ForkRun).procs[q])
  {
    hide Cond, NoneCommitted, NoChild, Free;
  }

  lemma {:induction false} ChansAreExact(ss: seq<Sys>, who: seq<nat>, acts: seq<Action>, i: nat, q: nat)
    requires IsRun(ss, who, acts) && i <= |acts| && q < |ss[i].procs|
    ensures ChanExact(ss[i].procs[q])
  {
    hide IsRun, Boot, Next, Enabled, Local, StateOk, PcOk, ChanExact;
    Watched(ss, who, acts);
    if i == 0 {
      BootChan(ss[0], q);
    } else {
      SameTable(ss, who, acts, i - 1);
      ChansAreExact(ss, who, acts, i - 1, q);
      if q == who[i - 1] {
        ChanOwn(ss[i - 1], q, acts[i - 1]);
      } else {
        InvAt(ss, who, acts, i - 1, who[i - 1]);
        InvAt(ss, who, acts, i - 1, q);
        LocalState(ss[i - 1], q);
        LocalState(ss[i - 1], who[i - 1]);
        ChanOther(ss[i - 1], who[i - 1], acts[i - 1], q);
      }
    }
  }

  lemma LocalState(s: Sys, q: nat)
    requires Local(s, q)
    ensures q < |s.procs| && StateOk(s, q) && PcOk(s, q)
  {
  }

  lemma BootChan(s: Sys, q: nat)
    requires Boot(s) && q < |s.procs|
    ensures ChanExact(s.procs[q])
  {
  }
}
