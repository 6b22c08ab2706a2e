/** What read() and write() on a pipe do and return, told from the actions of a run of Pipes: the
    arguments of the call, the free space, the bytes buffered, which ends are closed and who is killed. */
module PipeCalls {
  import opened Basics
  import opened Modular
  import opened Pipes

  // ---------------------------------------------------------------- one stretch of pipewrite()

  /** How many bytes are stored when a stretch of pipewrite() that has stored i is over: all n, unless the
      read end is closed, the process is killed first, the source ends, or the space does. */
  function Reach(i: nat, n: int, readopen: bool, killFrom: nat, space: nat, len: nat): (j: nat)
    ensures i <= j <= i + space && (i < j ==> j <= n && j <= killFrom && j <= len)
  {
    if i >= n || i >= killFrom || i >= len || !readopen then i
    else Min(Min(n, killFrom), Min(len, i + space))
  }

  /** The space left. */
  ghost function Space(v: View): nat
    requires v.Valid()
  {
    |v.data| - |v.Buffered()|
  }

  /** How the stretch ends, with j bytes stored and the space then. */
  function Ending(j: nat, n: int, readopen: bool, killFrom: nat, space: nat): Outcome
  {
    if j >= n then Finished else if !readopen || j >= killFrom then Aborted else if space == 0 then Sleeps else Finished
  }

  lemma {:induction false} WriteReaches(v: View, src: seq<Byte>, n: int, i: nat, killFrom: nat)
    requires v.Valid()
    ensures var (t, j, o) := WriteLoop(v, src, n, i, killFrom);
      && t.Valid() && Stores(v, t, src, i, j) && j == Reach(i, n, v.readopen, killFrom, Space(v), |src|)
      && Space(t) == Space(v) - (j - i) && o == Ending(j, n, v.readopen, killFrom, Space(t))
    decreases n - i
  {
    TestsAreExact(v);
    WriteLoopStores(v, src, n, i, killFrom);
    if i < n && v.readopen && i < killFrom && !v.Full() && i < |src| {
      PutKeeps(v, src[i]);
      WriteReaches(v.Put(src[i]), src, n, i + 1, killFrom);
    }
  }

  /** What one stretch of pipewrite() does, in every case.  It stores the next bytes of the source at the
      end of the stream, as many as Reach says.  It returns -1 exactly if bytes are left and the read end
      is closed or the process killed there; otherwise it returns the whole count, or sleeps on a full
      pipe.  It wakes the readers unless it returns -1. */
  lemma WriteStoresAll(s: Sys, p: nat, killFrom: nat)
    requires Inv(s) && Enabled(s, p, Action.WriteSpan(killFrom))
    ensures var pc, u := s.procs[p].pc, Next(s, p, Action.WriteSpan(killFrom));
      var i := |pc.at|;
      var j := Reach(i, pc.n, s.v.readopen, killFrom, Space(s.v), |pc.src|);
      var at := pc.at + Positions(|s.v.stored|, j - i);
      && u.v.Valid() && u.v == s.v.(data := u.v.data, nwrite := u.v.nwrite, stored := u.v.stored)
      && u.v.stored == s.v.stored + (if i < j then pc.src[i..j] else [])
      && |u.procs| == |s.procs|
      && u.procs[p].pc == (match Ending(j, pc.n, s.v.readopen, killFrom, Space(s.v) - (j - i))
                           case Finished => Wrote(pc.src, at, j)
                           case Aborted => Wrote(pc.src, at, -1)
                           case Sleeps => pc.(at := at, waiting := true))
      && u.procs[p].killed == (s.procs[p].killed || (u.procs[p].pc.Wrote? && j < pc.n && j >= killFrom))
      && forall q :: 0 <= q < |s.procs| && q != p ==>
           u.procs[q] == if u.procs[p].pc.Wrote? && u.procs[p].pc.r == -1 then s.procs[q] else WakeReader(s.procs[q])
  {
    var pc := s.procs[p].pc;
    WriteReaches(s.v, pc.src, pc.n, |pc.at|, killFrom);
  }

  // ---------------------------------------------------------------- whole calls

  /** The latest call of process p before step i. */
  function CallOf(who: seq<nat>, acts: seq<Action>, i: nat, p: nat): Option<Action>
    requires i <= |acts| == |who|
  {
    if i == 0 then None
    else if who[i - 1] == p && (acts[i - 1].StartWrite? || acts[i - 1].StartRead?) then Some(acts[i - 1])
    else CallOf(who, acts, i - 1, p)
  }

  /** All of a write: n bytes, or up to the first that cannot be copied in. */
  function Whole(n: int, len: nat): nat { if n <= 0 then 0 else Min(n, len) }

  /** What a call that was made with these arguments has done so far, or returned. */
  ghost predicate CallOk(v: View, x: Proc, c: Option<Action>)
  {
    match x.pc
    case Idle => true
    case Writing(src, n, at, _) => c == Some(StartWrite(src, n)) && |at| <= Whole(n, |src|)
    case Wrote(src, at, r) =>
      && c.Some? && c.value.StartWrite? && c.value.src == src
      && var n := c.value.n;
         (r == |at| == Whole(n, |src|)) || (r == -1 && |at| < n && |at| <= |src| && (!v.readopen || x.killed))
    case Reading(n, room, _) => c == Some(StartRead(n, room))
    case Read(got, _, r) =>
      && c.Some? && c.value.StartRead?
      && var n, room := c.value.n, c.value.room;
         && |got| <= Whole(n, room)
         && (r == -1 ==> got == [] && (x.killed || (n > 0 && room == 0)))
         && (r != -1 ==> r == |got|)
         && (r == 0 && n > 0 && room > 0 ==> !v.writeopen)
  }

  /** The same place in a call, whatever the process waits for. */
  predicate SamePlace(x: Proc, y: Proc)
  {
    && (x.killed ==> y.killed)
    && match x.pc
       case Writing(_, _, _, w) => y.pc.Writing? && y.pc.(waiting := w) == x.pc
       case Reading(_, _, w) => y.pc.Reading? && y.pc.(asleep := w) == x.pc
       case _ => y.pc == x.pc
  }

  lemma CallStays(v: View, t: View, x: Proc, y: Proc, c: Option<Action>)
    requires CallOk(v, x, c) && SamePlace(x, y) && (t.readopen ==> v.readopen) && (t.writeopen ==> v.writeopen)
    ensures CallOk(t, y, c)
  {
  }

  lemma OwnWrite(s: Sys, p: nat, killFrom: nat, c: Option<Action>)
    requires Inv(s) && Enabled(s, p, Action.WriteSpan(killFrom)) && CallOk(s.v, s.procs[p], c)
    ensures var u := Next(s, p, Action.WriteSpan(killFrom)); |u.procs| == |s.procs| && CallOk(u.v, u.procs[p], c)
  {
    WriteStoresAll(s, p, killFrom);
    hide Next, NextWrite, Inv, View.Valid, Ending, Reach;
    var pc := s.procs[p].pc;
    EndsWhole(|pc.at|, pc.n, s.v.readopen, killFrom, Space(s.v), |pc.src|);
  }

  /** A stretch ends with the whole count, or with -1 for a reason, or in sleep(). */
  lemma EndsWhole(i: nat, n: int, readopen: bool, killFrom: nat, space: nat, len: nat)
    requires i <= Whole(n, len)
    ensures var j := Reach(i, n, readopen, killFrom, space, len);
      && j <= Whole(n, len)
      && match Ending(j, n, readopen, killFrom, space - (j - i))
         case Finished => j == Whole(n, len)
         case Aborted => j < n && (!readopen || j >= killFrom)
         case Sleeps => true
  {
  }

  lemma OwnRead(s: Sys, p: nat, killed: bool, c: Option<Action>)
    requires Inv(s) && Enabled(s, p, Action.ReadSpan(killed)) && CallOk(s.v, s.procs[p], c)
    ensures var u := Next(s, p, Action.ReadSpan(killed)); |u.procs| == |s.procs| && CallOk(u.v, u.procs[p], c)
  {
    ReadLosesNothing(s, p, killed);
    ReadOthers(s, p, killed, p);
    hide *;
    var u, x := Next(s, p, Action.ReadSpan(killed)), s.procs[p];
    ReadingOf(s, p, killed, c);
    if s.v.Buffered() == [] && s.v.writeopen {
      OwnWaits(u.v, x, u.procs[p], killed, c, |s.v.taken|);
    } else {
      OwnGets(u.v, x, u.procs[p], s.v.Buffered(), c);
    }
  }

  lemma ReadingOf(s: Sys, p: nat, killed: bool, c: Option<Action>)
    requires Enabled(s, p, Action.ReadSpan(killed)) && CallOk(s.v, s.procs[p], c)
    ensures s.procs[p].pc.Reading? && c == Some(StartRead(s.procs[p].pc.n, s.procs[p].pc.room))
  {
  }

  /** A reader that finds nothing. */
  lemma OwnWaits(t: View, x: Proc, y: Proc, killed: bool, c: Option<Action>, from: nat)
    requires x.pc.Reading? && c == Some(StartRead(x.pc.n, x.pc.room)) && y.killed == killed
    requires y.pc == if killed then Read([], from, -1) else x.pc.(asleep := true)
    ensures CallOk(t, y, c)
  {
  }

  /** A reader that does not have to wait. */
  lemma OwnGets(t: View, x: Proc, y: Proc, buffered: seq<Byte>, c: Option<Action>)
    requires x.pc.Reading? && c == Some(StartRead(x.pc.n, x.pc.room)) && (buffered == [] ==> !t.writeopen)
    requires y.pc.Read? && var k := Delivered(x.pc.n, x.pc.room, |buffered|);
      y.pc.got == buffered[..k] && y.pc.r == if x.pc.n > 0 && x.pc.room == 0 && buffered != [] then -1 else k
    ensures CallOk(t, y, c)
  {
  }

  /** What a stretch of piperead() leaves alone. */
  lemma ReadOthers(s: Sys, p: nat, killed: bool, q: nat)
    requires s.v.Sizes() && Enabled(s, p, Action.ReadSpan(killed)) && q < |s.procs|
    ensures var u := Next(s, p, Action.ReadSpan(killed));
      && |u.procs| == |s.procs| && u.procs[p].killed == killed
      && u.v.readopen == s.v.readopen && u.v.writeopen == s.v.writeopen
      && (q != p ==> SamePlace(s.procs[q], u.procs[q]))
  {
    ReadLoopEnds(s.v, s.procs[p].pc.n, s.procs[p].pc.room, []);
  }

  lemma {:induction false} ReadLoopEnds(v: View, n: int, room: nat, got: seq<Byte>)
    requires v.Sizes()
    ensures var t := ReadLoop(v, n, room, got).0; t == v.(nread := t.nread, taken := t.taken)
    decreases n - |got|
  {
    if !(|got| >= n || v.Empty() || |got| >= room) {
      ReadLoopEnds(v.Take(), n, room, got + [v.Head()]);
    }
  }

  lemma CallRest(s: Sys, p: nat, a: Action, q: nat, c: Option<Action>)
    requires s.v.Sizes() && Enabled(s, p, a) && !a.WriteSpan? && !a.ReadSpan? && q < |s.procs|
    requires CallOk(s.v, s.procs[q], c)
    ensures |Next(s, p, a).procs| == |s.procs|
    ensures CallOk(Next(s, p, a).v, Next(s, p, a).procs[q],
                   if p == q && (a.StartWrite? || a.StartRead?) then Some(a) else c)
  {
  }

  lemma CallOther(s: Sys, p: nat, a: Action, q: nat, c: Option<Action>)
    requires Inv(s) && Enabled(s, p, a) && q < |s.procs| && p != q && CallOk(s.v, s.procs[q], c)
    requires a.WriteSpan? || a.ReadSpan?
    ensures |Next(s, p, a).procs| == |s.procs| && CallOk(Next(s, p, a).v, Next(s, p, a).procs[q], c)
  {
    if a.WriteSpan? {
      WriteStoresAll(s, p, a.killFrom);
    } else {
      ReadOthers(s, p, a.killed, q);
    }
    hide Next, Inv, CallOk, View.Valid;
    CallStays(s.v, Next(s, p, a).v, s.procs[q], Next(s, p, a).procs[q], c);
  }

  lemma CallStep(s: Sys, p: nat, a: Action, q: nat, c: Option<Action>)
    requires Inv(s) && s.v.Sizes() && Enabled(s, p, a) && q < |s.procs| && CallOk(s.v, s.procs[q], c)
    ensures |Next(s, p, a).procs| == |s.procs|
    ensures CallOk(Next(s, p, a).v, Next(s, p, a).procs[q],
                   if p == q && (a.StartWrite? || a.StartRead?) then Some(a) else c)
  {
    hide Inv, Next, Enabled, CallOk, View.Sizes;
    match a
    case WriteSpan(killFrom) => if p == q { OwnWrite(s, p, killFrom, c); } else { CallOther(s, p, a, q, c); }
    case ReadSpan(killed) => if p == q { OwnRead(s, p, killed, c); } else { CallOther(s, p, a, q, c); }
    case _ => CallRest(s, p, a, q, c);
  }

  lemma RunAt(ss: seq<Sys>, who: seq<nat>, acts: seq<Action>, i: nat)
    requires IsRun(ss, who, acts) && i < |acts|
    ensures Inv(ss[i]) && ss[i].v.Sizes() && Enabled(ss[i], who[i], acts[i])
    ensures ss[i + 1] == Next(ss[i], who[i], acts[i])
  {
    RunKeeps(ss, who, acts, i);
  }

  lemma RunStarts(ss: seq<Sys>, who: seq<nat>, acts: seq<Action>, p: nat)
    requires IsRun(ss, who, acts)
    ensures |ss| == |acts| + 1 == |who| + 1 && ss[0].v.readopen && ss[0].v.writeopen
    ensures p < |ss[0].procs| ==> ss[0].procs[p].pc.Idle? && !ss[0].procs[p].killed
  {
  }

  /** What calls on a pipe return, in every run, told from the arguments of the call.  A write returns the
      whole count, all of which is in the stream, or -1, and then bytes were left and the read end is
      closed or the process killed.  A read returns how many bytes it got, no more than it asked for and
      could be copied out; 0 only when the write end is closed; -1 only if it is killed or its first byte
      could not be copied out. */
  lemma {:induction false} CallsReturn(ss: seq<Sys>, who: seq<nat>, acts: seq<Action>, i: nat, p: nat)
    requires IsRun(ss, who, acts) && i <= |acts| && p < |ss[0].procs|
    ensures |acts| == |who| && |ss[i].procs| == |ss[0].procs|
    ensures CallOk(ss[i].v, ss[i].procs[p], CallOf(who, acts, i, p))
  {
    hide IsRun, Inv, Next, Enabled, CallOk, View.Sizes;
    RunStarts(ss, who, acts, p);
    if i == 0 {
      IdleOk(ss[0].v, ss[0].procs[p], None);
    } else {
      CallsReturn(ss, who, acts, i - 1, p);
      RunAt(ss, who, acts, i - 1);
      CallStep(ss[i - 1], who[i - 1], acts[i - 1], p, CallOf(who, acts, i - 1, p));
    }
  }

  lemma IdleOk(v: View, x: Proc, c: Option<Action>)
    requires x.pc.Idle?
    ensures CallOk(v, x, c)
  {
  }

  // ---------------------------------------------------------------- the two ends

  /** The read end, or the write end, has been closed before step i. */
  predicate Closed(acts: seq<Action>, i: nat, writable: bool)
    requires i <= |acts|
  {
    i > 0 && (acts[i - 1] == Close(writable) || Closed(acts, i - 1, writable))
  }

  lemma EndsStep(s: Sys, p: nat, a: Action)
    requires Inv(s) && s.v.Sizes() && Enabled(s, p, a)
    ensures Next(s, p, a).v.readopen == (s.v.readopen && a != Close(false))
    ensures Next(s, p, a).v.writeopen == (s.v.writeopen && a != Close(true))
  {
    if a.WriteSpan? {
      WriteStoresAll(s, p, a.killFrom);
      hide Next, Inv, View.Valid;
    } else if a.ReadSpan? {
      ReadOthers(s, p, a.killed, p);
      hide Next, Inv, View.Valid;
    }
  }

  /** An end is open until it is closed, and is never opened again. */
  lemma {:induction false} EndsAreExact(ss: seq<Sys>, who: seq<nat>, acts: seq<Action>, i: nat)
    requires IsRun(ss, who, acts) && i <= |acts|
    ensures ss[i].v.readopen <==> !Closed(acts, i, false)
    ensures ss[i].v.writeopen <==> !Closed(acts, i, true)
  {
    hide IsRun, Inv, Next, Enabled, View.Sizes;
    RunStarts(ss, who, acts, 0);
    if i > 0 {
      EndsAreExact(ss, who, acts, i - 1);
      RunAt(ss, who, acts, i - 1);
      EndsStep(ss[i - 1], who[i - 1], acts[i - 1]);
    }
  }

  /** Once the write end is closed, a read does not block: it returns what is buffered, and 0, the end of
      the file, exactly if nothing is or nothing was asked for. */
  lemma EndOfFile(ss: seq<Sys>, who: seq<nat>, acts: seq<Action>, i: nat)
    requires IsRun(ss, who, acts) && i < |acts| && acts[i].ReadSpan? && Closed(acts, i, true)
    requires who[i] < |ss[i].procs| && ss[i].procs[who[i]].pc.Reading? && ss[i].procs[who[i]].pc.room > 0
    ensures ss[i].v.taken <= ss[i].v.stored
    ensures var pc, buffered := ss[i].procs[who[i]].pc, ss[i].v.Buffered();
      && who[i] < |ss[i + 1].procs| && ss[i + 1].procs[who[i]].pc.Read?
      && ss[i + 1].procs[who[i]].pc.r == Delivered(pc.n, pc.room, |buffered|)
      && (ss[i + 1].procs[who[i]].pc.r == 0 <==> buffered == [] || pc.n <= 0)
  {
    RunAt(ss, who, acts, i);
    EndsAreExact(ss, who, acts, i);
    ReadLosesNothing(ss[i], who[i], acts[i].killed);
    ReadOthers(ss[i], who[i], acts[i].killed, who[i]);
    hide IsRun, Inv, Next;
  }

  /** Once the read end is closed, a write with bytes left stores none of them and returns -1. */
  lemma BrokenPipe(ss: seq<Sys>, who: seq<nat>, acts: seq<Action>, i: nat)
    requires IsRun(ss, who, acts) && i < |acts| && acts[i].WriteSpan? && Closed(acts, i, false)
    requires who[i] < |ss[i].procs| && ss[i].procs[who[i]].pc.Writing?
    requires |ss[i].procs[who[i]].pc.at| < ss[i].procs[who[i]].pc.n
    ensures who[i] < |ss[i + 1].procs| && ss[i + 1].v.stored == ss[i].v.stored
    ensures ss[i + 1].procs[who[i]].pc.Wrote? && ss[i + 1].procs[who[i]].pc.r == -1
  {
    RunAt(ss, who, acts, i);
    EndsAreExact(ss, who, acts, i);
    WriteStoresAll(ss[i], who[i], acts[i].killFrom);
    hide IsRun, Inv, Next, View.Valid;
  }

  // ---------------------------------------------------------------- sleep and wakeup

  /** What wakes a reader: kill(), the end of writing, or a writer that stops without a failure. */
  predicate WakesReader(t: Sys, p: nat, a: Action, q: nat)
  {
    (a.Kill? && p == q) || a == Close(true) ||
    (a.WriteSpan? && p < |t.procs| && !(t.procs[p].pc.Wrote? && t.procs[p].pc.r == -1))
  }

  /** What wakes a writer: kill(), the end of reading, or a reader that did not have to wait. */
  predicate WakesWriter(s: Sys, p: nat, a: Action, q: nat)
  {
    (a.Kill? && p == q) || a == Close(false) || (a.ReadSpan? && !(s.v.stored == s.v.taken && s.v.writeopen))
  }

  lemma WokenStep(s: Sys, p: nat, a: Action, q: nat)
    requires Inv(s) && s.v.Sizes() && Enabled(s, p, a) && q < |s.procs|
    ensures |Next(s, p, a).procs| == |s.procs|
    ensures ReaderAsleep(s.procs[q]) ==>
      (ReaderAsleep(Next(s, p, a).procs[q]) <==> !WakesReader(Next(s, p, a), p, a, q))
    ensures WriterAsleep(s.procs[q]) ==>
      (WriterAsleep(Next(s, p, a).procs[q]) <==> !WakesWriter(s, p, a, q))
  {
    if a.WriteSpan? {
      WriteStoresAll(s, p, a.killFrom);
      hide Next, Inv, View.Valid;
    } else if a.ReadSpan? {
      TestsAreExact(s.v);
    }
  }

  predicate WriterAsleep(x: Proc) { x.pc.Writing? && x.pc.waiting }

  /** Readers and writers sleep until one of these happens; nothing else wakes them, and these do. */
  lemma WokenExactly(ss: seq<Sys>, who: seq<nat>, acts: seq<Action>, i: nat, q: nat)
    requires IsRun(ss, who, acts) && i < |acts| && q < |ss[i].procs|
    ensures q < |ss[i + 1].procs|
    ensures ReaderAsleep(ss[i].procs[q]) ==>
      (ReaderAsleep(ss[i + 1].procs[q]) <==> !WakesReader(ss[i + 1], who[i], acts[i], q))
    ensures WriterAsleep(ss[i].procs[q]) ==>
      (WriterAsleep(ss[i + 1].procs[q]) <==> !WakesWriter(ss[i], who[i], acts[i], q))
  {
    hide Next, Inv, Enabled, View.Sizes;
    RunAt(ss, who, acts, i);
    WokenStep(ss[i], who[i], acts[i], q);
  }
}
