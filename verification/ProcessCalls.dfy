/** What the calls of Processes achieve, told from the actions of a run: which call a process is in, how
    often it has tested what it waits for, posted an event, released a lock or slept since it made the
    call, and what is true when the call returns. */
module ProcessCalls {
  import opened Basics
  import opened Processes

  /** The calls a process can make; CNew is the start of its life. */
  datatype Call =
    | CNew | CWait | CAcquire(k: nat) | CRelease(k: nat) | CKwait | CExit | CPost | CFork

  /** The latest call, and what the process has done since it made it. */
  datatype Hist = Hist(call: Call, tests: nat, posts: nat, releases: nat, sleeps: nat, children: nat)

  function Began(call: Call): Hist { Hist(call, 0, 0, 0, 0, 0) }

  /** The history of process p after a step of process w from state s. */
  function Told(s: Sys, w: nat, a: Action, p: nat, h: Hist): Hist
    requires w < |s.procs|
  {
    if w != p then
      if a.ForkRun? && s.procs[w].pc == FkRun(p) then Began(CNew) else h
    else
      match a
      case StartWait => Began(CWait)
      case StartAcquire(k) => Began(CAcquire(k))
      case StartRelease(k) => Began(CRelease(k))
      case StartKwait => Began(CKwait)
      case StartExit => Began(CExit)
      case StartPost => Began(CPost)
      case ForkAlloc(_) => Began(CFork)
      case TestStep => h.(tests := h.tests + 1)
      case ScanStep(_) => h.(tests := h.tests + 1)
      case PostStep => h.(posts := h.posts + 1)
      case RelStep => h.(releases := h.releases + 1)
      case ForkRun => h.(children := h.children + 1)
      case Schedule => if s.procs[p].pc.Asleep? then h.(sleeps := h.sleeps + 1) else h
      case _ => h
  }

  /** The history of process p before step i. */
  function HistOf(ss: seq<Sys>, who: seq<nat>, acts: seq<Action>, i: nat, p: nat): Hist
    requires i <= |acts| && |ss| == |acts| + 1 == |who| + 1
    requires forall m :: 0 <= m < |acts| ==> who[m] < |ss[m].procs|
  {
    if i == 0 then Began(CNew)
    else Told(ss[i - 1], who[i - 1], acts[i - 1], p, HistOf(ss, who, acts, i - 1, p))
  }

  // ---------------------------------------------------------------- where the code is in a call

  /** The call that waits on c. */
  predicate Waits(p: nat, c: Chan, call: Call)
  {
    match c
    case KqChan => call.CWait?
    case LockChan(k) => call == CAcquire(k)
    case ProcChan(q) => q == p && call.CKwait?
  }

  /** In the waiting loop on c: an event has been posted for each sleep, but for those on the queue. */
  predicate InLoop(p: nat, c: Chan, h: Hist)
  {
    Waits(p, c, h.call) && h.releases == 0 && h.children == 0 && h.posts == if c.KqChan? then 0 else h.sleeps
  }

  /** What a process that is back from a call has done in it. */
  predicate Achieved(h: Hist)
  {
    match h.call
    case CNew => Did(h, 0, 0, 0)
    case CWait => h.tests > 0 && Did(h, 0, 0, 0)
    case CAcquire(_) => h.tests > 0 && Did(h, h.sleeps, 0, 0)
    case CKwait => h.tests > 0 && Did(h, h.sleeps, 0, 0)
    case CRelease(_) => Did(h, 0, 1, 0)
    case CPost => Did(h, 1, 0, 0)
    case CFork => Did(h, 1, 0, 1)
    case CExit => false
  }

  predicate Did(h: Hist, posts: nat, releases: nat, children: nat)
  {
    h.posts == posts && h.releases == releases && h.children == children
  }

  predicate HistOk(pc: PC, p: nat, h: Hist)
  {
    match pc
    case NoCode => true
    case User => Achieved(h)
    case Want(c) => InLoop(p, c, h)
    case Test(c) => InLoop(p, c, h)
    case Scan(_, _) => InLoop(p, ProcChan(p), h)
    case SleepA(c) => InLoop(p, c, h)
    case SleepB(c) => InLoop(p, c, h)
    case SleepC(c) => InLoop(p, c, h)
    case Asleep(c) => InLoop(p, c, h)
    case PostAcq(after) =>
      if after.Some? then
        !after.value.KqChan? && Waits(p, after.value, h.call) && h.sleeps > 0 && Did(h, h.sleeps - 1, 0, 0)
      else (h.call.CPost? && Did(h, 0, 0, 0)) || (h.call.CFork? && Did(h, 0, 0, 1))
    case PostWake(_, after) =>
      if after.Some? then !after.value.KqChan? && InLoop(p, after.value, h)
      else (h.call.CPost? && Did(h, 1, 0, 0)) || (h.call.CFork? && Did(h, 1, 0, 1))
    case RelAcq(k) => h.call == CRelease(k) && Did(h, 0, 0, 0)
    case RelWake(k, _) => h.call == CRelease(k) && Did(h, 0, 1, 0)
    case FkLink(_) => h.call.CFork? && Did(h, 0, 0, 0)
    case FkRun(_) => h.call.CFork? && Did(h, 0, 0, 0)
    case _ => h.call.CExit?
  }

  predicate IsStart(a: Action)
  {
    a.StartWait? || a.StartAcquire? || a.StartKwait? || a.StartRelease? || a.StartExit? || a.StartPost?
  }

  lemma OwnStart(s: Sys, p: nat, a: Action, h: Hist)
    requires Enabled(s, p, a) && p < |s.procs| && IsStart(a)
    ensures |Next(s, p, a).procs| == |s.procs|
    ensures HistOk(Next(s, p, a).procs[p].pc, p, Told(s, p, a, p, h))
  {
    hide Cond, NoneCommitted, NoChild, Free, ZombieChild;
  }

  lemma OwnWait(s: Sys, p: nat, a: Action, h: Hist)
    requires Enabled(s, p, a) && p < |s.procs| && PcOk(s, p) && HistOk(s.procs[p].pc, p, h)
    requires a.Acquire? || a.TestStep? || a.ScanStep? || a.SleepStep? || a.Schedule? || a.Yield? || a.Kill?
    ensures |Next(s, p, a).procs| == |s.procs|
    ensures HistOk(Next(s, p, a).procs[p].pc, p, Told(s, p, a, p, h))
  {
    hide Cond, NoneCommitted, NoChild, Free, ZombieChild;
  }

  lemma OwnWake(s: Sys, p: nat, h: Hist)
    requires Enabled(s, p, WakeStep) && p < |s.procs| && PcOk(s, p) && HistOk(s.procs[p].pc, p, h)
    ensures |Next(s, p, WakeStep).procs| == |s.procs|
    ensures HistOk(Next(s, p, WakeStep).procs[p].pc, p, h)
  {
    hide Cond, NoneCommitted, NoChild, Free, ZombieChild;
  }

  lemma OwnRest(s: Sys, p: nat, a: Action, h: Hist)
    requires Enabled(s, p, a) && p < |s.procs| && PcOk(s, p) && HistOk(s.procs[p].pc, p, h) && !IsStart(a)
    requires !(a.Acquire? || a.TestStep? || a.ScanStep? || a.SleepStep? || a.Schedule? || a.Yield? || a.Kill?)
    ensures |Next(s, p, a).procs| == |s.procs|
    ensures HistOk(Next(s, p, a).procs[p].pc, p, Told(s, p, a, p, h))
  {
    hide Cond, NoneCommitted, NoChild, Free, ZombieChild;
    if a.WakeStep? {
      hide Enabled, Next, PcOk, HistOk;
      OwnWake(s, p, h);
    }
  }

  /** A step of the process itself. */
  lemma OwnStep(s: Sys, p: nat, a: Action, h: Hist)
    requires Enabled(s, p, a) && p < |s.procs| && PcOk(s, p) && HistOk(s.procs[p].pc, p, h)
    ensures |Next(s, p, a).procs| == |s.procs|
    ensures HistOk(Next(s, p, a).procs[p].pc, p, Told(s, p, a, p, h))
  {
    hide Enabled, Next, PcOk, HistOk, Told;
    if IsStart(a) {
      OwnStart(s, p, a, h);
    } else if a.Acquire? || a.TestStep? || a.ScanStep? || a.SleepStep? || a.Schedule? || a.Yield? || a.Kill? {
      OwnWait(s, p, a, h);
    } else {
      OwnRest(s, p, a, h);
    }
  }

  /** A step of another one. */
  lemma OtherStep(s: Sys, w: nat, a: Action, p: nat, h: Hist)
    requires Enabled(s, w, a) && p < |s.procs| && p != w && PcOk(s, w) && HistOk(s.procs[p].pc, p, h)
    ensures |Next(s, w, a).procs| == |s.procs|
    ensures HistOk(Next(s, w, a).procs[p].pc, p, Told(s, w, a, p, h))
  {
    hide HistOk, PcOk, Cond, NoneCommitted, NoChild, Free, ZombieChild;
    OtherPlace(s, w, a, p);
    NewHist(p);
  }

  /** Another process's step leaves p where it is, or frees its slot, or starts it. */
  lemma OtherPlace(s: Sys, w: nat, a: Action, p: nat)
    requires Enabled(s, w, a) && p < |s.procs| && p != w
    ensures |Next(s, w, a).procs| == |s.procs|
    ensures var x, y := s.procs[p].pc, Next(s, w, a).procs[p].pc;
      if a.ForkRun? && s.procs[w].pc == FkRun(p) then y.User? else y == x || y.NoCode?
  {
    hide Cond, NoneCommitted, NoChild, Free, ZombieChild;
    match a
    case ScanStep(copied) => ScanPlace(s, w, copied, p);
    case WakeStep => WakePlace(s, w, p);
    case _ =>
  }

  lemma ScanPlace(s: Sys, w: nat, copied: bool, p: nat)
    requires Enabled(s, w, ScanStep(copied)) && p < |s.procs| && p != w
    ensures |NextScan(s, w, copied).procs| == |s.procs|
    ensures NextScan(s, w, copied).procs[p].pc == s.procs[p].pc || NextScan(s, w, copied).procs[p].pc.NoCode?
  {
  }

  lemma WakePlace(s: Sys, w: nat, p: nat)
    requires Enabled(s, w, WakeStep) && p < |s.procs| && p != w
    ensures |NextWake(s, w).procs| == |s.procs| && NextWake(s, w).procs[p].pc == s.procs[p].pc
  {
  }

  lemma NewHist(p: nat)
    ensures HistOk(User, p, Began(CNew)) && forall h :: HistOk(NoCode, p, h)
  {
  }

  lemma SameTable(ss: seq<Sys>, who: seq<nat>, acts: seq<Action>, i: nat)
    requires IsRun(ss, who, acts) && i < |acts|
    ensures who[i] < |ss[i].procs| && |ss[i + 1].procs| == |ss[i].procs|
    ensures Enabled(ss[i], who[i], acts[i]) && ss[i + 1] == Next(ss[i], who[i], acts[i])
  {
  }

  lemma {:induction false} TableSize(ss: seq<Sys>, who: seq<nat>, acts: seq<Action>, i: nat)
    requires IsRun(ss, who, acts) && i <= |acts|
    ensures |ss[i].procs| == |ss[0].procs|
  {
    if i > 0 {
      TableSize(ss, who, acts, i - 1);
      SameTable(ss, who, acts, i - 1);
    }
  }

  lemma InvAt(ss: seq<Sys>, who: seq<nat>, acts: seq<Action>, i: nat, p: nat)
    requires IsRun(ss, who, acts) && i <= |acts| && p < |ss[i].procs|
    ensures Local(ss[i], p)
  {
    RunKeeps(ss, who, acts, i);
  }

  lemma BootHist(s: Sys, p: nat)
    requires Boot(s) && p < |s.procs|
    ensures HistOk(s.procs[p].pc, p, Began(CNew))
  {
  }

  lemma Watched(ss: seq<Sys>, who: seq<nat>, acts: seq<Action>)
    requires IsRun(ss, who, acts)
    ensures |ss| == |acts| + 1 == |who| + 1 && Boot(ss[0])
    ensures forall m :: 0 <= m < |acts| ==> who[m] < |ss[m].procs|
  {
  }

  /** In every state of every run, the place in the code and the history agree. */
  lemma {:induction false} HistRuns(ss: seq<Sys>, who: seq<nat>, acts: seq<Action>, i: nat, p: nat)
    requires IsRun(ss, who, acts) && i <= |acts| && p < |ss[i].procs|
    requires forall m :: 0 <= m < |acts| ==> who[m] < |ss[m].procs|
    ensures HistOk(ss[i].procs[p].pc, p, HistOf(ss, who, acts, i, p))
  {
    hide IsRun, HistOk, Next, Enabled, Boot, Told;
    Watched(ss, who, acts);
    if i == 0 {
      BootHist(ss[0], p);
    } else {
      SameTable(ss, who, acts, i - 1);
      HistRuns(ss, who, acts, i - 1, p);
      InvAt(ss, who, acts, i - 1, p);
      InvAt(ss, who, acts, i - 1, who[i - 1]);
      var h := HistOf(ss, who, acts, i - 1, p);
      if who[i - 1] == p {
        OwnStep(ss[i - 1], p, acts[i - 1], h);
      } else {
        OtherStep(ss[i - 1], who[i - 1], acts[i - 1], p, h);
      }
    }
  }

  // ---------------------------------------------------------------- what is true when a call returns

  /** In this step of process p a call of p returns. */
  predicate Returns(s: Sys, t: Sys, p: nat)
  {
    p < |s.procs| == |t.procs| && !s.procs[p].pc.User? && !s.procs[p].pc.NoCode? && t.procs[p].pc.User?
  }

  /** The step of p that gives it sleeplock k, an event, or the end of its kwait(). */
  lemma ReturnFrom(s: Sys, p: nat, a: Action, h: Hist)
    requires Enabled(s, p, a) && PcOk(s, p) && HistOk(s.procs[p].pc, p, h) && Returns(s, Next(s, p, a), p)
    ensures Told(s, p, a, p, h).call == h.call && !h.call.CNew? && !h.call.CExit?
    ensures h.call.CAcquire? ==>
      a.TestStep? && s.procs[p].pc == Test(LockChan(h.call.k)) && !Cond(s, LockChan(h.call.k))
    ensures h.call.CWait? ==> a.TestStep? && s.procs[p].pc == Test(KqChan) && !Cond(s, KqChan)
    ensures h.call.CKwait? ==> a.ScanStep? && s.procs[p].pc.Scan?
  {
    hide Cond, NoneCommitted, NoChild, Free, ZombieChild;
  }

  /** What a step does to the sleeplocks: it takes k exactly when it returns from acquiresleep(k), which
      is only while k is free, and gives k back exactly when it is the release of a releasesleep(k). */
  lemma LockStep(s: Sys, p: nat, a: Action, h: Hist, k: nat)
    requires Enabled(s, p, a) && PcOk(s, p) && HistOk(s.procs[p].pc, p, h) && k < |s.locked|
    ensures var t := Next(s, p, a);
      && |t.locked| == |s.locked|
      && (Returns(s, t, p) && h.call == CAcquire(k) ==> !s.locked[k])
      && t.locked[k] == (if Returns(s, t, p) && h.call == CAcquire(k) then true
                         else if a.RelStep? && h.call == CRelease(k) then false
                         else s.locked[k])
  {
    hide NoneCommitted, NoChild, Free, ZombieChild;
    if Returns(s, Next(s, p, a), p) {
      ReturnFrom(s, p, a, h);
    }
  }

  /** What a step does to the number of queued events: a post adds one, or drops the oldest when the
      queue is full; an event goes exactly when a kqueue_wait() returns, which is only if there is one. */
  lemma CountStep(s: Sys, p: nat, a: Action, h: Hist)
    requires Enabled(s, p, a) && PcOk(s, p) && HistOk(s.procs[p].pc, p, h) && s.count <= s.cap
    ensures var t := Next(s, p, a);
      && t.cap == s.cap && t.count <= t.cap
      && (Returns(s, t, p) && h.call.CWait? ==> s.count > 0)
      && t.count == (if a.PostStep? then (if s.count == s.cap then s.cap else s.count + 1)
                     else if Returns(s, t, p) && h.call.CWait? then s.count - 1
                     else s.count)
  {
    hide NoneCommitted, NoChild, Free, ZombieChild;
    if Returns(s, Next(s, p, a), p) {
      ReturnFrom(s, p, a, h);
    }
  }

  // ---------------------------------------------------------------- kwait()

  /** While p scans, it remembers whether it has passed a child of its own. */
  ghost predicate KidsOk(s: Sys, p: nat)
    requires p < |s.procs|
  {
    s.procs[p].pc.Scan? ==>
      s.procs[p].pc.j <= |s.procs| && (s.procs[p].pc.kids <==> !NoChild(s, p, s.procs[p].pc.j))
  }

  lemma NoChildNext(s: Sys, p: nat, j: nat)
    requires j < |s.procs|
    ensures NoChild(s, p, j + 1) <==> NoChild(s, p, j) && s.procs[j].parent != Some(p)
  {
  }

  lemma KidsOwn(s: Sys, p: nat, a: Action)
    requires Enabled(s, p, a) && KidsOk(s, p)
    ensures |Next(s, p, a).procs| == |s.procs| && KidsOk(Next(s, p, a), p)
  {
    hide Cond, NoneCommitted, Free, NoChild;
    var t := Next(s, p, a);
    if a.ScanStep? {
      if s.procs[p].pc.j < |s.procs| {
        NoChildNext(s, p, s.procs[p].pc.j);
      }
      if t.procs[p].pc.Scan? {
        NoChildSame(s, t, p, t.procs[p].pc.j);
      }
    } else if t.procs[p].pc.Scan? {
      ScanBegins(s, p, a);
      NoChildNone(t, p);
      ParentsStay(s, p, a);
      NoChildSame(s, t, p, t.procs[p].pc.j);
    }
  }

  lemma ScanBegins(s: Sys, p: nat, a: Action)
    requires Enabled(s, p, a) && !a.ScanStep? && p < |Next(s, p, a).procs| && Next(s, p, a).procs[p].pc.Scan?
    ensures !a.ReparentStep? && !a.ForkLink?
    ensures Next(s, p, a).procs[p].pc == Scan(0, false) || Next(s, p, a).procs[p].pc == s.procs[p].pc
  {
    hide Cond, NoneCommitted, Free, NoChild;
  }

  lemma NoChildNone(s: Sys, p: nat)
    ensures NoChild(s, p, 0)
  {
  }

  lemma NoChildSame(s: Sys, t: Sys, p: nat, j: nat)
    requires |t.procs| == |s.procs| && forall q :: 0 <= q < |s.procs| ==> t.procs[q].parent == s.procs[q].parent
    ensures NoChild(t, p, j) <==> NoChild(s, p, j)
  {
  }

  /** Which steps change who is whose child. */
  lemma ParentsStay(s: Sys, w: nat, a: Action)
    requires Enabled(s, w, a) && !a.ScanStep? && !a.ReparentStep? && !a.ForkLink?
    ensures |Next(s, w, a).procs| == |s.procs|
    ensures forall q :: 0 <= q < |s.procs| ==> Next(s, w, a).procs[q].parent == s.procs[q].parent
  {
    hide Cond, NoneCommitted, Free, NoChild;
  }

  lemma KidsOther(s: Sys, w: nat, a: Action, p: nat)
    requires Enabled(s, w, a) && p < |s.procs| && p != w && Mutex(s) && KidsOk(s, p)
    ensures |Next(s, w, a).procs| == |s.procs| && KidsOk(Next(s, w, a), p)
  {
    hide Cond, NoneCommitted;
    var t := Next(s, w, a);
    if t.procs[p].pc.Scan? {
      OtherPc(s, w, a, p);
      assert Holds(s.procs[p].pc, WaitLock);
      assert a.ScanStep? || a.ReparentStep? ==> Holds(s.procs[w].pc, WaitLock);
      ParentsStay(s, w, a);
    }
  }

  lemma OtherPc(s: Sys, w: nat, a: Action, p: nat)
    requires Enabled(s, w, a) && p < |s.procs| && p != w
    ensures |Next(s, w, a).procs| == |s.procs|
    ensures Next(s, w, a).procs[p].pc.Scan? ==> Next(s, w, a).procs[p].pc == s.procs[p].pc
  {
    hide Cond, NoneCommitted, Free, NoChild;
  }

  lemma {:induction false} KidsRun(ss: seq<Sys>, who: seq<nat>, acts: seq<Action>, i: nat, p: nat)
    requires IsRun(ss, who, acts) && i <= |acts| && p < |ss[i].procs|
    ensures KidsOk(ss[i], p)
  {
    hide IsRun, Next, Enabled, Boot, KidsOk;
    Watched(ss, who, acts);
    if i == 0 {
      BootKids(ss[0], p);
    } else {
      SameTable(ss, who, acts, i - 1);
      KidsRun(ss, who, acts, i - 1, p);
      MutexAt(ss, who, acts, i - 1);
      if who[i - 1] == p {
        KidsOwn(ss[i - 1], p, acts[i - 1]);
      } else {
        KidsOther(ss[i - 1], who[i - 1], acts[i - 1], p);
      }
    }
  }

  lemma BootKids(s: Sys, p: nat)
    requires Boot(s) && p < |s.procs|
    ensures KidsOk(s, p)
  {
  }

  lemma MutexAt(ss: seq<Sys>, who: seq<nat>, acts: seq<Action>, i: nat)
    requires IsRun(ss, who, acts) && i <= |acts|
    ensures Mutex(ss[i])
  {
    RunKeeps(ss, who, acts, i);
  }

  /** How a kwait() of p goes on after a look: it has a zombie child and reaps it, or cannot copy its
      status out; or no child of its is a zombie, and it has none at all or is killed. */
  ghost predicate WaitIsOver(s: Sys, t: Sys, p: nat, copied: bool)
    requires |t.procs| == |s.procs|
  {
    || (copied && exists j :: 0 <= j < |s.procs| && ZombieChild(s, p, j) && t.procs[j] == freed
                              && t.reaped == s.reaped + {s.procs[j].pid})
    || (!copied && t.reaped == s.reaped && exists j :: 0 <= j < |s.procs| && ZombieChild(s, p, j))
    || (t.reaped == s.reaped && HasNothing(s, p))
  }

  ghost predicate HasNothing(s: Sys, p: nat)
  {
    && p < |s.procs| && (forall q :: 0 <= q < |s.procs| ==> !ZombieChild(s, p, q))
    && (s.procs[p].killed || NoChild(s, p, |s.procs|))
  }

  lemma ScanEnds(s: Sys, p: nat, copied: bool)
    requires Enabled(s, p, ScanStep(copied)) && PcOk(s, p) && KidsOk(s, p)
    requires p < |s.procs| && s.procs[p].parent != Some(p)
    ensures var t := Next(s, p, ScanStep(copied));
      && |t.procs| == |s.procs|
      && (t.procs[p].pc.User? ==> WaitIsOver(s, t, p, copied))
      && (t.procs[p].pc.SleepA? ==>
            && t == s.Goto(p, SleepA(ProcChan(p))) && !HasNothing(s, p)
            && forall q :: 0 <= q < |s.procs| ==> !ZombieChild(s, p, q))
      && (t.procs[p].pc.User? || t.procs[p].pc.SleepA? || (t.procs[p].pc.Scan? && t == s.Goto(p, t.procs[p].pc)))
  {
    hide NoneCommitted, Cond, Free;
    var j := s.procs[p].pc.j;
    if j < |s.procs| && ZombieChild(s, p, j) {
      if copied {
        assert Next(s, p, ScanStep(copied)).procs[j] == freed;
      }
    }
  }

  // ---------------------------------------------------------------- over whole runs

  /** Enough of a run to tell histories from. */
  predicate Tellable(ss: seq<Sys>, who: seq<nat>, acts: seq<Action>)
  {
    |ss| == |acts| + 1 == |who| + 1 && forall m :: 0 <= m < |acts| ==> who[m] < |ss[m].procs|
  }

  /** Step m ends a call of its process, and which. */
  predicate Ends(ss: seq<Sys>, who: seq<nat>, acts: seq<Action>, m: nat, call: Call)
    requires Tellable(ss, who, acts) && m < |acts|
  {
    Returns(ss[m], ss[m + 1], who[m]) && HistOf(ss, who, acts, m, who[m]).call == call
  }

  /** Step m is the release of a releasesleep(k). */
  predicate Releases(ss: seq<Sys>, who: seq<nat>, acts: seq<Action>, m: nat, k: nat)
    requires Tellable(ss, who, acts) && m < |acts|
  {
    acts[m].RelStep? && HistOf(ss, who, acts, m, who[m]).call == CRelease(k)
  }

  /** Sleeplock k as the calls leave it: taken since an acquiresleep(k) has returned and not been followed by
      a release. */
  predicate Taken(ss: seq<Sys>, who: seq<nat>, acts: seq<Action>, i: nat, k: nat)
    requires Tellable(ss, who, acts) && i <= |acts|
  {
    i > 0 && (Ends(ss, who, acts, i - 1, CAcquire(k)) ||
              (!Releases(ss, who, acts, i - 1, k) && Taken(ss, who, acts, i - 1, k)))
  }

  /** What is known before step i, of the process that takes it. */
  lemma Before(ss: seq<Sys>, who: seq<nat>, acts: seq<Action>, i: nat)
    requires IsRun(ss, who, acts) && i < |acts|
    ensures Tellable(ss, who, acts)
    ensures var p := who[i];
      && Enabled(ss[i], p, acts[i]) && ss[i + 1] == Next(ss[i], p, acts[i]) && p < |ss[i].procs| && Local(ss[i], p)
      && HistOk(ss[i].procs[p].pc, p, HistOf(ss, who, acts, i, p))
  {
    hide Next, Enabled, HistOk, Local;
    Watched(ss, who, acts);
    SameTable(ss, who, acts, i);
    InvAt(ss, who, acts, i, who[i]);
    HistRuns(ss, who, acts, i, who[i]);
  }

  /** The sleeplocks are exactly as taken as the calls say. */
  lemma {:induction false} SleeplocksAreExact(ss: seq<Sys>, who: seq<nat>, acts: seq<Action>, i: nat, k: nat)
    requires IsRun(ss, who, acts) && i <= |acts| && k < |ss[0].locked|
    ensures Tellable(ss, who, acts) && |ss[i].locked| == |ss[0].locked|
    ensures ss[i].locked[k] <==> Taken(ss, who, acts, i, k)
    ensures i < |acts| && Ends(ss, who, acts, i, CAcquire(k)) ==> !ss[i].locked[k]
  {
    hide IsRun, Next, Enabled, Boot, Local, HistOk, Returns;
    Watched(ss, who, acts);
    if i == 0 {
      BootLocks(ss[0], k);
    } else {
      SleeplocksAreExact(ss, who, acts, i - 1, k);
      Before(ss, who, acts, i - 1);
      LocalParts(ss[i - 1], who[i - 1]);
      LockStep(ss[i - 1], who[i - 1], acts[i - 1], HistOf(ss, who, acts, i - 1, who[i - 1]), k);
    }
    if i < |acts| {
      Before(ss, who, acts, i);
      LocalParts(ss[i], who[i]);
      LockStep(ss[i], who[i], acts[i], HistOf(ss, who, acts, i, who[i]), k);
    }
  }

  lemma BootLocks(s: Sys, k: nat)
    requires Boot(s) && k < |s.locked|
    ensures !s.locked[k]
  {
  }

  lemma LocalParts(s: Sys, p: nat)
    requires Local(s, p)
    ensures p < |s.procs| && PcOk(s, p) && TreeOk(s, p)
    ensures s.procs[p].parent != Some(p)
  {
  }

  /** Mutual exclusion of sleeplocks: between two returns from acquiresleep(k) there is a release of k, and
      from the first return up to that release k is taken. */
  lemma {:induction false} SleeplockExclusive(ss: seq<Sys>, who: seq<nat>, acts: seq<Action>, i: nat, j: nat, k: nat)
    requires IsRun(ss, who, acts) && Tellable(ss, who, acts) && i < j <= |acts| && k < |ss[0].locked|
    requires Ends(ss, who, acts, i, CAcquire(k))
    requires forall m :: i < m < j ==> !Releases(ss, who, acts, m, k)
    ensures |ss[j].locked| == |ss[0].locked| && ss[j].locked[k]
    ensures j < |acts| ==> !Ends(ss, who, acts, j, CAcquire(k))
  {
    hide IsRun, Returns, HistOf;
    SleeplocksAreExact(ss, who, acts, j, k);
    if j == i + 1 {
      assert Taken(ss, who, acts, j, k);
    } else {
      SleeplockExclusive(ss, who, acts, i, j - 1, k);
      SleeplocksAreExact(ss, who, acts, j - 1, k);
      assert Taken(ss, who, acts, j, k);
    }
  }

  /** Events posted, taken by a kqueue_wait() that returned, and dropped by a full queue, up to step i. */
  function Posted(acts: seq<Action>, i: nat): nat
    requires i <= |acts|
  {
    if i == 0 then 0 else Posted(acts, i - 1) + if acts[i - 1].PostStep? then 1 else 0
  }

  function TakenOut(ss: seq<Sys>, who: seq<nat>, acts: seq<Action>, i: nat): nat
    requires Tellable(ss, who, acts) && i <= |acts|
  {
    if i == 0 then 0 else TakenOut(ss, who, acts, i - 1) + if Ends(ss, who, acts, i - 1, CWait) then 1 else 0
  }

  function Dropped(ss: seq<Sys>, who: seq<nat>, acts: seq<Action>, i: nat): nat
    requires Tellable(ss, who, acts) && i <= |acts|
  {
    if i == 0 then 0
    else Dropped(ss, who, acts, i - 1) + if acts[i - 1].PostStep? && ss[i - 1].count == ss[i - 1].cap then 1 else 0
  }

  /** No event is lost or made up: what was posted has been taken, has been dropped, or is queued; and a
      kqueue_wait() returns only with an event. */
  lemma {:induction false} EventsAreCounted(ss: seq<Sys>, who: seq<nat>, acts: seq<Action>, i: nat)
    requires IsRun(ss, who, acts) && i <= |acts|
    ensures Tellable(ss, who, acts) && ss[i].count <= ss[i].cap
    ensures Posted(acts, i) == TakenOut(ss, who, acts, i) + Dropped(ss, who, acts, i) + ss[i].count
    ensures i < |acts| && Ends(ss, who, acts, i, CWait) ==> ss[i].count > 0
  {
    hide IsRun, Next, Enabled, Boot, Local, HistOk, Returns;
    Watched(ss, who, acts);
    if i == 0 {
      BootCount(ss[0]);
    } else {
      EventsAreCounted(ss, who, acts, i - 1);
      Before(ss, who, acts, i - 1);
      LocalParts(ss[i - 1], who[i - 1]);
      CountStep(ss[i - 1], who[i - 1], acts[i - 1], HistOf(ss, who, acts, i - 1, who[i - 1]));
      PostIsNoReturn(ss[i - 1], who[i - 1], acts[i - 1]);
    }
    if i < |acts| {
      Before(ss, who, acts, i);
      LocalParts(ss[i], who[i]);
      CountStep(ss[i], who[i], acts[i], HistOf(ss, who, acts, i, who[i]));
    }
  }

  lemma BootCount(s: Sys)
    requires Boot(s)
    ensures s.count == 0 <= s.cap
  {
  }

  lemma PostIsNoReturn(s: Sys, p: nat, a: Action)
    requires Enabled(s, p, a)
    ensures a.PostStep? ==> !Returns(s, Next(s, p, a), p)
  {
  }

  /** A call that returns has done what it is for, just once: posted its event, released its lock, started
      its child; and one that waited has posted an event for each sleep, but for those on the queue
      itself.  exit() does not return. */
  lemma CallsAchieve(ss: seq<Sys>, who: seq<nat>, acts: seq<Action>, i: nat)
    requires IsRun(ss, who, acts) && i < |acts| && Returns(ss[i], ss[i + 1], who[i])
    ensures Tellable(ss, who, acts) && Achieved(HistOf(ss, who, acts, i + 1, who[i]))
    ensures HistOf(ss, who, acts, i + 1, who[i]).call == HistOf(ss, who, acts, i, who[i]).call != CNew
  {
    hide IsRun, Next, Enabled, Local;
    Before(ss, who, acts, i);
    LocalParts(ss[i], who[i]);
    SameTable(ss, who, acts, i);
    HistRuns(ss, who, acts, i + 1, who[i]);
    ReturnFrom(ss[i], who[i], acts[i], HistOf(ss, who, acts, i, who[i]));
  }

  /** A kwait() returns when it has reaped a zombie child or cannot copy the status of one out, or when it
      has no zombie child and no child at all or is killed. */
  lemma KwaitReturns(ss: seq<Sys>, who: seq<nat>, acts: seq<Action>, i: nat)
    requires IsRun(ss, who, acts) && Tellable(ss, who, acts) && i < |acts| && Ends(ss, who, acts, i, CKwait)
    ensures |ss[i + 1].procs| == |ss[i].procs| && acts[i].ScanStep?
    ensures WaitIsOver(ss[i], ss[i + 1], who[i], acts[i].copied)
  {
    hide IsRun, Next, Enabled, Local, HistOk, WaitIsOver;
    Before(ss, who, acts, i);
    LocalParts(ss[i], who[i]);
    SameTable(ss, who, acts, i);
    KidsRun(ss, who, acts, i, who[i]);
    ReturnFrom(ss[i], who[i], acts[i], HistOf(ss, who, acts, i, who[i]));
    ScanEnds(ss[i], who[i], acts[i].copied);
  }

  /** And it goes to sleep only with a child, none of them a zombie, and not killed. */
  lemma KwaitSleeps(ss: seq<Sys>, who: seq<nat>, acts: seq<Action>, i: nat)
    requires IsRun(ss, who, acts) && i < |acts| && acts[i].ScanStep?
    ensures who[i] < |ss[i + 1].procs| == |ss[i].procs|
    ensures ss[i + 1].procs[who[i]].pc.SleepA? ==>
      && !NoChild(ss[i], who[i], |ss[i].procs|) && !ss[i].procs[who[i]].killed
      && forall q :: 0 <= q < |ss[i].procs| ==> !ZombieChild(ss[i], who[i], q)
  {
    hide IsRun, Next, Enabled, Local, HistOk, NoChild;
    Before(ss, who, acts, i);
    LocalParts(ss[i], who[i]);
    SameTable(ss, who, acts, i);
    KidsRun(ss, who, acts, i, who[i]);
    ScanEnds(ss[i], who[i], acts[i].copied);
  }
}
