/** What a call of virtio_disk_rw() asks for and what it gets, told from the actions of a run of Virtio:
    the arguments of the call, what its buffer held when it was made, and the one transfer made for it
    before it returns. */
module VirtioCalls {
  import opened Basics
  import opened Virtio

  /** The arguments of a call, what the buffer held then, and how many transfers had been made. */
  datatype Call = Call(b: nat, blockno: nat, write: bool, held: Data, since: nat)

  /** The latest call of process p before step i. */
  ghost function MadeBy(ss: seq<Sys>, who: seq<nat>, acts: seq<Action>, i: nat, p: nat): Option<Call>
    requires IsRun(ss, who, acts) && i <= |acts|
  {
    if i == 0 then None
    else if who[i - 1] == p && acts[i - 1].Start? then
      Some(Call(acts[i - 1].b, acts[i - 1].blockno, acts[i - 1].write, ss[i - 1].data[acts[i - 1].b], |ss[i - 1].log|))
    else MadeBy(ss, who, acts, i - 1, p)
  }

  /** The request is for what the call asked, and was served after it. */
  ghost predicate Asked(r: Req, c: Call)
  {
    && r.b == c.b && r.blockno == c.blockno && r.write == c.write && r.sent == c.held
    && (r.served.Some? ==> c.since <= r.served.value)
  }

  ghost predicate CallOk(s: Sys, p: nat, c: Option<Call>)
    requires p < |s.procs|
  {
    match s.procs[p]
    case Idle => true
    case Want(b, blockno, write, _) =>
      && c.Some? && c.value.b == b && c.value.blockno == blockno && c.value.write == write
      && b < |s.data| && s.data[b] == c.value.held && c.value.since <= |s.log|
    case Posted(b, _, _, _, req, _, _) =>
      c.Some? && req < |s.reqs| && Asked(s.reqs[req], c.value) && c.value.since <= |s.log|
    case Back(req) => c.Some? && req < |s.reqs| && Asked(s.reqs[req], c.value)
  }

  /** Requests stay as they are, but for being served now. */
  ghost predicate ReqsKept(s: Sys, t: Sys)
  {
    && |s.reqs| <= |t.reqs|
    && forall r :: 0 <= r < |s.reqs| ==>
      t.reqs[r] == s.reqs[r] || t.reqs[r] == s.reqs[r].(served := Some(|s.log|))
  }

  /** A step that leaves p at the same place, its request as it was and its buffer alone. */
  lemma CallStays(s: Sys, t: Sys, p: nat, c: Option<Call>)
    requires p < |s.procs| == |t.procs| && CallOk(s, p, c) && |t.log| >= |s.log| && |t.data| == |s.data|
    requires SameCall(s.procs[p], t.procs[p])
    requires s.procs[p].Want? && s.procs[p].b < |s.data| ==> t.data[s.procs[p].b] == s.data[s.procs[p].b]
    requires ReqsKept(s, t)
    requires s.procs[p].Back? && s.procs[p].req < |s.reqs| ==> t.reqs[s.procs[p].req] == s.reqs[s.procs[p].req]
    ensures CallOk(t, p, c)
  {
  }

  /** The same call, whatever the process waits for. */
  predicate SameCall(x: PC, y: PC)
  {
    match x
    case Idle => y.Idle?
    case Want(_, _, _, _) => y.Want? && y.(waiting := x.waiting) == x
    case Posted(_, _, _, _, _, _, _) => (y.Posted? && y.req == x.req) || (y.Back? && y.req == x.req)
    case Back(_) => y == x
  }

  lemma CallSimple(s: Sys, w: nat, a: Action, p: nat, c: Option<Call>)
    requires Inv(s) && Enabled(s, w, a) && p < |s.procs| && CallOk(s, p, c)
    requires a.SetData? || a.Kill? || (a.Start? && w != p)
    ensures |Next(s, w, a).procs| == |s.procs| && CallOk(Next(s, w, a), p, c)
  {
    assert ProcOk(s, p);
    hide ProcOk, Inv;
    CallStays(s, Next(s, w, a), p, c);
  }

  /** Posting is for what the call asked, with what its buffer held. */
  lemma CallPost(s: Sys, w: nat, p: nat, c: Option<Call>)
    requires Inv(s) && Enabled(s, w, Post) && p < |s.procs| && CallOk(s, p, c)
    ensures |Next(s, w, Post).procs| == |s.procs| && CallOk(Next(s, w, Post), p, c)
  {
    var t := NextPost(s, w);
    assert ProcOk(s, w) && ProcOk(s, p);
    if Alloc3(s.q.free).Some? {
      var (h, m, l) := Alloc3(s.q.free).value;
      PostPosts(s, w, h, m, l);
      hide ProcOk, Inv, NextPost, Grows;
      if p != w {
        CallStays(s, t, p, c);
      }
    } else {
      hide ProcOk, Inv;
      CallStays(s, t, p, c);
    }
  }

  lemma CallFinish(s: Sys, w: nat, p: nat, c: Option<Call>)
    requires Inv(s) && Enabled(s, w, Finish) && p < |s.procs| && CallOk(s, p, c)
    ensures |Next(s, w, Finish).procs| == |s.procs| && CallOk(Next(s, w, Finish), p, c)
  {
    var t := NextFinish(s, w);
    if s.procs[w].b < |s.flag| && s.flag[s.procs[w].b] {
      hide Inv;
      CallStays(s, t, p, c);
    } else {
      FinishFrees(s, w);
      hide Inv, NextFinish, Grows, SameRings;
      CallStays(s, t, p, c);
    }
  }

  /** The device, or the interrupt handler, moves the chain of q on. */
  lemma CallMoves(s: Sys, t: Sys, q: nat, stage: Stage, p: nat, c: Option<Call>)
    requires Shape(s) && p < |s.procs| && ProcOk(s, p) && CallOk(s, p, c) && Moves(s, t, q, stage) && ReqsKept(s, t)
    ensures |t.procs| == |s.procs| && CallOk(t, p, c)
  {
    CallStays(s, t, p, c);
  }

  lemma CallDevice(s: Sys, w: nat, a: Action, p: nat, c: Option<Call>)
    requires Inv(s) && Enabled(s, w, a) && (a.Fetch? || a.Complete? || a.Interrupt?)
    requires p < |s.procs| && CallOk(s, p, c)
    ensures |Next(s, w, a).procs| == |s.procs| && CallOk(Next(s, w, a), p, c)
  {
    assert ProcOk(s, p);
    match a
    case Fetch =>
      FetchMoves(s);
      CallMoves(s, NextFetch(s), s.owner[s.reqs[s.fetched].h].value, InDevice, p, c);
    case Complete(h) =>
      CompleteMoves(s, h);
      CallMoves(s, NextComplete(s, h), s.owner[h].value, InUsed(|s.completed|), p, c);
    case Interrupt =>
      InterruptMoves(s);
      CallMoves(s, NextInterrupt(s), s.owner[s.completed[s.seen]].value, Seen, p, c);
  }

  lemma CallStep(s: Sys, w: nat, a: Action, p: nat, c: Option<Call>)
    requires Inv(s) && Enabled(s, w, a) && p < |s.procs| && CallOk(s, p, c) && !(a.Start? && w == p)
    ensures |Next(s, w, a).procs| == |s.procs| && CallOk(Next(s, w, a), p, c)
  {
    hide Inv, CallOk, Next, Enabled;
    match a
    case Post => CallPost(s, w, p, c);
    case Finish => CallFinish(s, w, p, c);
    case SetData(_, _) => CallSimple(s, w, a, p, c);
    case Start(_, _, _) => CallSimple(s, w, a, p, c);
    case Kill => CallSimple(s, w, a, p, c);
    case _ => CallDevice(s, w, a, p, c);
  }

  lemma CallStart(s: Sys, p: nat, a: Action)
    requires Shape(s) && Enabled(s, p, a) && a.Start?
    ensures |Next(s, p, a).procs| == |s.procs| && p < |s.procs| && a.b < |s.data|
    ensures CallOk(Next(s, p, a), p, Some(Call(a.b, a.blockno, a.write, s.data[a.b], |s.log|)))
  {
  }

  lemma RunAt(ss: seq<Sys>, who: seq<nat>, acts: seq<Action>, i: nat)
    requires IsRun(ss, who, acts) && i < |acts|
    ensures Inv(ss[i]) && Shape(ss[i]) && Enabled(ss[i], who[i], acts[i]) && ss[i + 1] == Next(ss[i], who[i], acts[i])
  {
    RunKeeps(ss, who, acts, i);
  }

  /** In every state of every run, the request of a process is for its latest call. */
  lemma {:induction false} CallsAreAsked(ss: seq<Sys>, who: seq<nat>, acts: seq<Action>, i: nat, p: nat)
    requires IsRun(ss, who, acts) && i <= |acts| && p < |ss[0].procs|
    ensures |ss[i].procs| == |ss[0].procs| && CallOk(ss[i], p, MadeBy(ss, who, acts, i, p))
  {
    if i > 0 {
      CallsAreAsked(ss, who, acts, i - 1, p);
      RunAt(ss, who, acts, i - 1);
      hide IsRun, CallOk, Inv, Next, Enabled, Shape;
      var c := MadeBy(ss, who, acts, i - 1, p);
      if acts[i - 1].Start? && who[i - 1] == p {
        CallStart(ss[i - 1], p, acts[i - 1]);
      } else {
        CallStep(ss[i - 1], who[i - 1], acts[i - 1], p, c);
      }
    }
  }

  lemma SameProcsStep(s: Sys, p: nat, a: Action)
    requires Shape(s) && Enabled(s, p, a)
    ensures |Next(s, p, a).procs| == |s.procs|
  {
    match a
    case Post => PostProcs(s, p);
    case Finish => FinishProcs(s, p);
    case _ =>
  }

  lemma PostProcs(s: Sys, p: nat)
    requires Shape(s) && Enabled(s, p, Post)
    ensures |NextPost(s, p).procs| == |s.procs|
  {
    hide Alloc3, NumFree;
  }

  lemma FinishProcs(s: Sys, p: nat)
    requires Shape(s) && Enabled(s, p, Finish)
    ensures |NextFinish(s, p).procs| == |s.procs|
  {
    hide ChainFreed;
  }

  lemma {:induction false} SameProcs(ss: seq<Sys>, who: seq<nat>, acts: seq<Action>, i: nat)
    requires IsRun(ss, who, acts) && i <= |acts|
    ensures |ss[i].procs| == |ss[0].procs|
  {
    if i > 0 {
      SameProcs(ss, who, acts, i - 1);
      RunAt(ss, who, acts, i - 1);
      hide IsRun, Inv, Shape;
      SameProcsStep(ss[i - 1], who[i - 1], acts[i - 1]);
    }
  }

  /** The last step of a call: its chain has been seen, and the buffer is as the transfer left it. */
  lemma FinishReturns(s: Sys, p: nat)
    requires Inv(s) && Enabled(s, p, Finish) && p < |NextFinish(s, p).procs| && NextFinish(s, p).procs[p].Back?
    ensures p < |s.procs| && s.procs[p].Posted? && NextFinish(s, p).log == s.log && NextFinish(s, p).data == s.data
    ensures var x := s.procs[p];
      && x.req < |s.reqs| && x.b < |s.data| && LogOk(s.reqs, s.log)
      && var r := s.reqs[x.req];
         && r.served.Some? && r.served.value < |s.log| && r.b == x.b
         && (!r.write ==> s.data[x.b] == s.log[r.served.value].data)
  {
    assert ProcOk(s, p);
    hide Inv;
  }

  /** virtio_disk_rw() does what it was called for.  When a call returns, exactly one transfer has been
      made for its request; it was made during the call, between its buffer and the sectors of its block,
      in its direction.  A write has moved what the buffer held when the call was made.  A read has left
      in the buffer what the disk held when the transfer was made, after the transfers before it. */
  lemma CallIsServed(ss: seq<Sys>, who: seq<nat>, acts: seq<Action>, i: nat) returns (n: nat, k: nat)
    requires IsRun(ss, who, acts) && i < |acts| && acts[i].Finish? && who[i] < |ss[i + 1].procs|
    requires ss[i + 1].procs[who[i]].Back?
    ensures MadeBy(ss, who, acts, i, who[i]).Some?
    ensures var c, log := MadeBy(ss, who, acts, i, who[i]).value, ss[i].log;
      && c.since <= k < |log| && ss[i + 1].log == log && c.b < |ss[i + 1].data|
      && log[k] == Transfer(n, c.write, c.b, c.blockno * 2, if c.write then c.held else ss[i + 1].data[c.b])
      && (!c.write ==> log[k].data == Lookup(Replay(ss[0].disk, log[..k]), c.blockno * 2))
      && forall j :: 0 <= j < |log| && log[j].req == n ==> j == k
  {
    var s, p := ss[i], who[i];
    RunAt(ss, who, acts, i);
    SameProcs(ss, who, acts, i);
    FinishReturns(s, p);
    CallsAreAsked(ss, who, acts, i, p);
    DiskIsReplay(ss, who, acts, i);
    hide IsRun, Inv, Next, Enabled, Shape, Replay, MadeBy;
    n := s.procs[p].req;
    k := s.reqs[n].served.value;
  }

  // ---------------------------------------------------------------- sleep and wakeup

  /** The chain of p is the next that the interrupt handler looks at. */
  predicate IsNext(s: Sys, p: nat)
  {
    s.seen < |s.completed| && p < |s.procs| && s.procs[p].Posted? && s.procs[p].h == s.completed[s.seen]
  }

  /** What wakes a process that waits for its request. */
  predicate WakesRequest(s: Sys, w: nat, a: Action, p: nat) { (a.Kill? && w == p) || (a.Interrupt? && IsNext(s, p)) }

  /** What wakes a process that waits for descriptors: three are freed by a call that ends, or one or two
      by a call that found no third. */
  predicate WakesAllocator(s: Sys, t: Sys, w: nat, a: Action, p: nat)
  {
    || (a.Kill? && w == p)
    || (a.Finish? && w < |t.procs| && t.procs[w].Back?)
    || (a.Post? && 0 < NumFree(s.q.free) < 3)
  }

  lemma WokenRequest(s: Sys, w: nat, a: Action, p: nat)
    requires Inv(s) && Enabled(s, w, a) && p < |s.procs| && s.procs[p].Posted? && s.procs[p].asleep
    ensures |Next(s, w, a).procs| == |s.procs| && Next(s, w, a).procs[p].Posted?
    ensures Next(s, w, a).procs[p].asleep <==> !WakesRequest(s, w, a, p)
  {
    hide Inv, Shape;
    RequestOk(s, p);
    match a
    case Fetch => FetchMoves(s);
    case Complete(h) => CompleteMoves(s, h);
    case Interrupt => WokenByInterrupt(s, p);
    case Post => PostLeaves(s, w, p);
    case Finish => FinishLeaves(s, w, p);
    case _ =>
  }

  lemma RequestOk(s: Sys, p: nat)
    requires Inv(s) && p < |s.procs|
    ensures Shape(s) && ProcOk(s, p)
  {
  }

  lemma WokenByInterrupt(s: Sys, p: nat)
    requires Inv(s) && Enabled(s, 0, Interrupt) && p < |s.procs| && s.procs[p].Posted? && s.procs[p].asleep
    ensures |NextInterrupt(s).procs| == |s.procs| && NextInterrupt(s).procs[p].Posted?
    ensures NextInterrupt(s).procs[p].asleep <==> !IsNext(s, p)
  {
    assert ProcOk(s, p);
    InterruptMoves(s);
    hide Inv, NextInterrupt, Grows;
  }

  /** What others do before and after their requests leaves a sleeper alone. */
  lemma PostLeaves(s: Sys, w: nat, p: nat)
    requires Shape(s) && Enabled(s, w, Post) && p < |s.procs| && s.procs[p].Posted?
    ensures |NextPost(s, w).procs| == |s.procs| && NextPost(s, w).procs[p] == s.procs[p]
  {
    hide Alloc3, NumFree;
  }

  lemma FinishLeaves(s: Sys, w: nat, p: nat)
    requires Shape(s) && Enabled(s, w, Finish) && p < |s.procs| && s.procs[p].Posted? && s.procs[p].asleep
    ensures |NextFinish(s, w).procs| == |s.procs| && NextFinish(s, w).procs[p] == s.procs[p]
  {
    hide ChainFreed;
  }

  lemma WokenAllocator(s: Sys, w: nat, a: Action, p: nat)
    requires Inv(s) && Enabled(s, w, a) && p < |s.procs| && s.procs[p].Want? && s.procs[p].waiting
    ensures |Next(s, w, a).procs| == |s.procs| && Next(s, w, a).procs[p].Want?
    ensures Next(s, w, a).procs[p].waiting <==> !WakesAllocator(s, Next(s, w, a), w, a, p)
  {
    assert ProcOk(s, p);
    match a
    case Fetch => FetchMoves(s);
    case Complete(h) => CompleteMoves(s, h);
    case Interrupt => InterruptMoves(s);
    case Post => Alloc3Exactly(s.q.free);
    case _ => hide Inv;
  }

  /** A process sleeps until kill(), or until what it waits for may be there: the interrupt for its own
      request, or descriptors given back.  Nothing else wakes it, and those always do. */
  lemma WokenExactly(ss: seq<Sys>, who: seq<nat>, acts: seq<Action>, i: nat, p: nat)
    requires IsRun(ss, who, acts) && i < |acts| && p < |ss[i].procs|
    ensures p < |ss[i + 1].procs|
    ensures ss[i].procs[p].Posted? && ss[i].procs[p].asleep ==>
      ss[i + 1].procs[p].Posted? && (ss[i + 1].procs[p].asleep <==> !WakesRequest(ss[i], who[i], acts[i], p))
    ensures ss[i].procs[p].Want? && ss[i].procs[p].waiting ==>
      && ss[i + 1].procs[p].Want?
      && (ss[i + 1].procs[p].waiting <==> !WakesAllocator(ss[i], ss[i + 1], who[i], acts[i], p))
  {
    RunAt(ss, who, acts, i);
    hide IsRun, Inv, Next, Enabled, Shape, WakesRequest, WakesAllocator;
    SameProcsStep(ss[i], who[i], acts[i]);
    if ss[i].procs[p].Posted? && ss[i].procs[p].asleep {
      WokenRequest(ss[i], who[i], acts[i], p);
    }
    if ss[i].procs[p].Want? && ss[i].procs[p].waiting {
      WokenAllocator(ss[i], who[i], acts[i], p);
    }
  }

  /** How a turn of virtio_disk_rw() ends: it posts if three descriptors are free, and otherwise waits for
      them; it returns if the interrupt handler has seen its request, and otherwise waits for that. */
  lemma TurnsEnd(ss: seq<Sys>, who: seq<nat>, acts: seq<Action>, i: nat)
    requires IsRun(ss, who, acts) && i < |acts| && (acts[i].Post? || acts[i].Finish?)
    ensures who[i] < |ss[i].procs| == |ss[i + 1].procs|
    ensures var x, y := ss[i].procs[who[i]], ss[i + 1].procs[who[i]];
      if acts[i].Post? then
        if NumFree(ss[i].q.free) >= 3 then y.Posted? && y.asleep && !y.stage.Seen? else y.Want? && y.waiting
      else if x.Posted? && x.stage.Seen? then y == Back(x.req) else y.Posted? && y.asleep
  {
    RunAt(ss, who, acts, i);
    SameProcsStep(ss[i], who[i], acts[i]);
    TurnEnds(ss[i], who[i], acts[i]);
  }

  lemma TurnEnds(s: Sys, p: nat, a: Action)
    requires Inv(s) && Enabled(s, p, a) && (a.Post? || a.Finish?)
    ensures p < |s.procs| == |Next(s, p, a).procs|
    ensures var x, y := s.procs[p], Next(s, p, a).procs[p];
      if a.Post? then
        if NumFree(s.q.free) >= 3 then y.Posted? && y.asleep && !y.stage.Seen? else y.Want? && y.waiting
      else if x.Posted? && x.stage.Seen? then y == Back(x.req) else y.Posted? && y.asleep
  {
    assert ProcOk(s, p);
    Alloc3Exactly(s.q.free);
    if a.Finish? && !(s.procs[p].b < |s.flag| && s.flag[s.procs[p].b]) {
      FinishFrees(s, p);
    }
    hide Inv, Grows, SameRings;
  }

  // ---------------------------------------------------------------- what is in a buffer

  /** The transfer of step i - 1, if that made one. */
  ghost predicate Reads(s: Sys, t: Sys, b: nat)
  {
    |t.log| > |s.log| && !t.log[|s.log|].write && t.log[|s.log|].b == b
  }

  /** What buffer b holds: what the kernel, or the last read into it, has put there. */
  ghost function Held(ss: seq<Sys>, acts: seq<Action>, i: nat, b: nat): Data
    requires i <= |acts| && |ss| == |acts| + 1 && b < |ss[0].data|
  {
    if i == 0 then ss[0].data[b]
    else if acts[i - 1].SetData? && acts[i - 1].b == b then acts[i - 1].d
    else if Reads(ss[i - 1], ss[i], b) then ss[i].log[|ss[i - 1].log|].data
    else Held(ss, acts, i - 1, b)
  }

  lemma HeldStep(s: Sys, p: nat, a: Action, b: nat)
    requires Inv(s) && Enabled(s, p, a) && b < |s.data|
    ensures var t := Next(s, p, a);
      && |t.data| == |s.data|
      && t.data[b] == if a.SetData? && a.b == b then a.d
                      else if Reads(s, t, b) then t.log[|s.log|].data else s.data[b]
  {
    if a.Complete? {
      CompleteMoves(s, a.h);
    }
    hide Inv, Grows;
  }

  /** In every run, a buffer holds what was put into it last, by the kernel or by a read of a block. */
  lemma {:induction false} BuffersHold(ss: seq<Sys>, who: seq<nat>, acts: seq<Action>, i: nat, b: nat)
    requires IsRun(ss, who, acts) && i <= |acts| && b < |ss[0].data|
    ensures |ss| == |acts| + 1 && |ss[i].data| == |ss[0].data| && ss[i].data[b] == Held(ss, acts, i, b)
  {
    if i > 0 {
      BuffersHold(ss, who, acts, i - 1, b);
      RunAt(ss, who, acts, i - 1);
      hide IsRun, Inv, Next, Enabled, Shape, Reads;
      HeldStep(ss[i - 1], who[i - 1], acts[i - 1], b);
    }
  }
}
