/** The virtio disk driver of kernel/virtio_disk.c, after initialisation, against a device that takes
    posted chains in order and completes each once, at any time and in any order.  Descriptors, chains
    and rings are those of sections 2.6 and 5.2 of Virtio 1.1. */
module Virtio {
  import opened Basics
  import opened Modular

  type Data = nat

  /** What a descriptor points at: the request header of chain i, a buffer's data, the status byte of chain i. */
  datatype Addr = Null | Header(i: nat) | BufData(b: nat) | Status(i: nat)

  /** `more` and `write` are the flags VRING_DESC_F_NEXT and VRING_DESC_F_WRITE. */
  datatype Desc = Desc(addr: Addr, more: bool, write: bool, next: nat)

  const cleared := Desc(Null, false, false, 0)

  datatype Op = Op(write: bool, sector: nat)

  datatype Info = Info(b: Option<nat>, status: nat)

  /** struct disk: the descriptors and the driver's book-keeping. */
  datatype Queue = Queue(free: seq<bool>, desc: seq<Desc>, ops: seq<Op>, info: seq<Info>)
  {
    predicate Sized(n: nat)
    {
      |free| == n && |desc| == n && |ops| == n && |info| == n
    }

    /** free_desc(i), where it does not panic */
    function FreeDesc(i: nat): Queue
      requires i < |free| && |desc| == |free|
    {
      this.(free := free[i := true], desc := desc[i := cleared])
    }

    /** virtio_disk_rw() formatting a chain of descriptors h, m, t */
    function Format(h: nat, m: nat, t: nat, b: nat, blockno: nat, write: bool): Queue
      requires Sized(|free|) && h < |free| && m < |free| && t < |free|
    {
      this.(free := free[h := false][m := false][t := false],
            desc := desc[h := Desc(Header(h), true, false, m)][m := Desc(BufData(b), true, !write, t)]
              [t := Desc(Status(h), false, true, 0)],
            ops := ops[h := Op(write, blockno * 2)],
            info := info[h := Info(Some(b), 0xff)])
    }
  }

  // ---------------------------------------------------------------- allocating descriptors

  /** The first free descriptor from i on, or |free|. */
  function FirstFree(free: seq<bool>, i: nat): (r: nat)
    requires i <= |free|
    ensures i <= r <= |free| && (r < |free| ==> free[r]) && forall k :: i <= k < r ==> !free[k]
    decreases |free| - i
  {
    if i == |free| || free[i] then i else FirstFree(free, i + 1)
  }

  function NumFree(free: seq<bool>): nat
  {
    if free == [] then 0 else (if free[0] then 1 else 0) + NumFree(free[1..])
  }

  lemma {:induction false} NumFreeUpdate(free: seq<bool>, i: nat, x: bool)
    requires i < |free|
    ensures NumFree(free[i := x]) == NumFree(free) - (if free[i] then 1 else 0) + (if x then 1 else 0)
  {
    if i == 0 {
      assert free[i := x][1..] == free[1..];
    } else {
      assert free[i := x][1..] == free[1..][i - 1 := x];
      NumFreeUpdate(free[1..], i - 1, x);
    }
  }

  lemma {:induction false} NoneFree(free: seq<bool>)
    ensures NumFree(free) == 0 <==> forall k :: 0 <= k < |free| ==> !free[k]
  {
    if free != [] {
      NoneFree(free[1..]);
      if forall k :: 0 <= k < |free[1..]| ==> !free[1..][k] {
        assert forall k :: 1 <= k < |free| ==> free[k] == free[1..][k - 1];
      } else {
        var k :| 0 <= k < |free[1..]| && free[1..][k];
        assert free[k + 1];
      }
    }
  }

  lemma {:induction false} NumFreeBound(free: seq<bool>)
    ensures NumFree(free) <= |free|
  {
    if free != [] {
      NumFreeBound(free[1..]);
    }
  }

  /** alloc3_desc(): the first three free descriptors, if there are three. */
  function Alloc3(free: seq<bool>): Option<(nat, nat, nat)>
  {
    var h := FirstFree(free, 0);
    if h == |free| then None else
      var f := free[h := false];
      var m := FirstFree(f, 0);
      if m == |free| then None else
        var t := FirstFree(f[m := false], 0);
        if t == |free| then None else Some((h, m, t))
  }

  lemma FirstFreeCount(free: seq<bool>)
    ensures FirstFree(free, 0) == |free| <==> NumFree(free) == 0
  {
    NoneFree(free);
  }

  /** It fails exactly when fewer than three are free. */
  lemma Alloc3Exactly(free: seq<bool>)
    ensures Alloc3(free).None? <==> NumFree(free) < 3
    ensures Alloc3(free).Some? ==>
      var (h, m, t) := Alloc3(free).value;
      h < |free| && m < |free| && t < |free| && h != m && h != t && m != t && free[h] && free[m] && free[t]
  {
    FirstFreeCount(free);
    var h := FirstFree(free, 0);
    if h < |free| {
      var f := free[h := false];
      NumFreeUpdate(free, h, false);
      FirstFreeCount(f);
      var m := FirstFree(f, 0);
      if m < |free| {
        NumFreeUpdate(f, m, false);
        FirstFreeCount(f[m := false]);
      }
    }
  }

  /** free_chain(i), following the links; None is one of the panics of free_desc(). */
  function ChainFreed(q: Queue, i: nat): Option<Queue>
    requires q.Sized(|q.free|)
    decreases |q.free| - NumFree(q.free)
  {
    if i >= |q.free| || q.free[i] then None
    else
      NumFreeUpdate(q.free, i, true);
      NumFreeBound(q.free[i := true]);
      var d := q.desc[i];
      var r := q.FreeDesc(i);
      if d.more then ChainFreed(r, d.next) else Some(r)
  }

  /** Three descriptors linked as virtio_disk_rw() links them. */
  predicate Linked(q: Queue, h: nat, m: nat, t: nat)
  {
    && h < |q.free| && m < |q.free| && t < |q.free| && h != m && h != t && m != t && |q.desc| == |q.free|
    && !q.free[h] && !q.free[m] && !q.free[t]
    && q.desc[h].more && q.desc[h].next == m && q.desc[m].more && q.desc[m].next == t && !q.desc[t].more
  }

  /** Freeing such a chain does not panic, and frees just those three. */
  lemma ChainFreedExactly(q: Queue, h: nat, m: nat, t: nat)
    requires q.Sized(|q.free|) && Linked(q, h, m, t)
    ensures ChainFreed(q, h) == Some(q.FreeDesc(h).FreeDesc(m).FreeDesc(t))
  {
    var r := q.FreeDesc(h);
    assert ChainFreed(q, h) == ChainFreed(r, m);
    assert ChainFreed(r, m) == ChainFreed(r.FreeDesc(m), t);
  }

  /** Freeing a descriptor that was free and cleared before. */
  lemma Undone(q: Queue, i: nat, f: seq<bool>)
    requires q.Sized(|q.free|) && i < |q.free| && q.free[i] && q.desc[i] == cleared && f == q.free[i := false]
    ensures f[i := true] == q.free && q.desc[i := cleared] == q.desc
  {
  }

  /** struct disk, with b->disk of each buffer in `flag`. */
  class Driver {
    const wrap: nat
    var free: seq<bool>
    var desc: seq<Desc>
    var ops: seq<Op>
    var info: seq<Info>
    var avail: seq<nat>
    var availIdx: nat
    var flag: seq<bool>

    function Q(): Queue
      reads this
    {
      Queue(free, desc, ops, info)
    }

    /** alloc_desc(); |free| stands for -1 */
    method AllocDesc() returns (i: nat)
      modifies `free
      ensures i == FirstFree(old(free), 0)
      ensures Q() == if i < |old(free)| then old(Q()).(free := old(free)[i := false]) else old(Q())
    {
      i := 0;
      while i < |free|
        invariant i <= |free| && FirstFree(free, 0) == FirstFree(free, i) && Q() == old(Q())
      {
        if free[i] {
          free := free[i := false];
          return;
        }
        i := i + 1;
      }
    }

    /** free_desc(); false is a panic */
    method FreeDesc(i: nat) returns (ok: bool)
      requires |desc| == |free|
      modifies `free, `desc
      ensures ok <==> i < |old(free)| && !old(free)[i]
      ensures Q() == if ok then old(Q()).FreeDesc(i) else old(Q())
    {
      if i >= |free| || free[i] {
        return false;
      }
      desc := desc[i := cleared];
      free := free[i := true];
      return true;
    }

    /** free_chain() */
    method FreeChain(first: nat) returns (ok: bool)
      requires Q().Sized(|free|)
      modifies `free, `desc
      ensures ok <==> ChainFreed(old(Q()), first).Some?
      ensures ok ==> Q() == ChainFreed(old(Q()), first).value
    {
      var i: nat := first;
      while true
        invariant Q().Sized(|free|) && ChainFreed(Q(), i) == ChainFreed(old(Q()), first)
        decreases |free| - NumFree(free)
      {
        if i >= |free| {
          return false;
        }
        var d := desc[i];
        NumFreeUpdate(free, i, true);
        NumFreeBound(free[i := true]);
        ok := FreeDesc(i);
        if !ok || !d.more {
          return;
        }
        i := d.next;
      }
    }

    /** alloc3_desc(): three descriptors, or nothing changed.  Free descriptors are always cleared. */
    method Alloc3Desc() returns (idx: Option<(nat, nat, nat)>)
      requires Q().Sized(|free|) && forall k :: 0 <= k < |free| && free[k] ==> desc[k] == cleared
      modifies `free, `desc
      ensures idx == Alloc3(old(free))
      ensures idx.None? ==> Q() == old(Q())
      ensures idx.Some? ==>
        var (h, m, t) := idx.value;
        h < |old(free)| && m < |old(free)| && t < |old(free)| &&
        Q() == old(Q()).(free := old(free)[h := false][m := false][t := false])
    {
      hide FirstFree;
      ghost var q := Q();
      var h := AllocDesc();
      if h == |free| {
        return None;
      }
      var m := AllocDesc();
      if m == |free| {
        Undone(q, h, q.free[h := false]);
        var ok := FreeDesc(h);
        return None;
      }
      var t := AllocDesc();
      if t == |free| {
        Undone(q, h, q.free[h := false]);
        Undone(q, m, q.free[m := false]);
        var ok := FreeDesc(h);
        ok := FreeDesc(m);
        return None;
      }
      return Some((h, m, t));
    }

    /** virtio_disk_rw() once it has its descriptors: format them, set b->disk, and make the chain available
        to the device at the wrapped index */
    method Submit(h: nat, m: nat, t: nat, b: nat, blockno: nat, write: bool)
      requires Q().Sized(|free|) && h < |free| && m < |free| && t < |free| && !free[h] && !free[m] && !free[t]
      requires wrap > 0 && |avail| > 0 && b < |flag|
      modifies `desc, `ops, `info, `avail, `availIdx, `flag
      ensures Q() == old(Q()).Format(h, m, t, b, blockno, write)
      ensures h != m && h != t && m != t ==> Linked(Q(), h, m, t)
      ensures flag == old(flag)[b := true]
      ensures avail == old(avail)[old(availIdx) % |old(avail)| := h] && availIdx == (old(availIdx) + 1) % wrap
    {
      ops := ops[h := Op(write, blockno * 2)];
      desc := desc[h := Desc(Header(h), true, false, m)];
      desc := desc[m := Desc(BufData(b), true, !write, t)];
      info := info[h := info[h].(status := 0xff)];
      desc := desc[t := Desc(Status(h), false, true, 0)];
      flag := flag[b := true];
      info := info[h := info[h].(b := Some(b))];
      avail := avail[availIdx % |avail| := h];
      availIdx := (availIdx + 1) % wrap;
    }

    /** virtio_disk_rw() up to its wait: the request is posted as NextPost says, or false and nothing has
        changed, for lack of descriptors */
    method Post(b: nat, blockno: nat, write: bool) returns (posted: bool)
      requires Q().Sized(|free|) && forall k :: 0 <= k < |free| && free[k] ==> desc[k] == cleared
      requires wrap > 0 && |avail| > 0 && b < |flag|
      modifies this
      ensures posted <==> NumFree(old(free)) >= 3
      ensures !posted ==> Q() == old(Q()) && flag == old(flag) && avail == old(avail) && availIdx == old(availIdx)
      ensures posted ==> Alloc3(old(free)).Some? && var (h, m, t) := Alloc3(old(free)).value;
        && h < |old(free)| && m < |old(free)| && t < |old(free)|
        && Q() == old(Q()).Format(h, m, t, b, blockno, write) && Linked(Q(), h, m, t)
        && flag == old(flag)[b := true]
        && avail == old(avail)[old(availIdx) % |old(avail)| := h] && availIdx == (old(availIdx) + 1) % wrap
    {
      Alloc3Exactly(free);
      var idx := Alloc3Desc();
      if idx.None? {
        return false;
      }
      var (h, m, t) := idx.value;
      Submit(h, m, t, b, blockno, write);
      return true;
    }
  }

  // ---------------------------------------------------------------- driver and device

  /** Where a posted chain is: entry k of the available ring, in the device, entry k of the used ring,
      seen by the interrupt handler. */
  datatype Stage = InAvail | InDevice | InUsed(k: nat) | Seen

  /** A process in virtio_disk_rw(): wanting descriptors, or with its chain h, m, t posted as request
      `req`; or back from that request. */
  datatype PC =
    | Idle
    | Want(b: nat, blockno: nat, write: bool, waiting: bool)
    | Posted(b: nat, h: nat, m: nat, t: nat, req: nat, asleep: bool, stage: Stage)
    | Back(req: nat)

  /** A request, and the place in the device's log of the transfer that served it. */
  datatype Req = Req(p: nat, h: nat, b: nat, blockno: nat, write: bool, sent: Data, served: Option<nat>)

  /** A transfer made by the device. */
  datatype Transfer = Transfer(req: nat, write: bool, b: nat, sector: nat, data: Data)

  /** The rings with their 16-bit indices; `fetched` and `seen` are how far the device and the driver
      have really got, `completed` the heads the device has put on the used ring so far.  `flag` is
      b->disk, `owner` the process a descriptor belongs to, `holder` who holds b->lock. */
  datatype Sys = Sys(
    q: Queue, wrap: nat,
    avail: seq<nat>, availIdx: nat, used: seq<nat>, usedIdx: nat,
    fetched: nat, inflight: set<nat>, completed: seq<nat>, seen: nat,
    flag: seq<bool>, data: seq<Data>, disk: map<nat, Data>,
    procs: seq<PC>, owner: seq<Option<nat>>, holder: seq<Option<nat>>,
    reqs: seq<Req>, log: seq<Transfer>, panicked: bool)

  function Lookup(disk: map<nat, Data>, sector: nat): Data { if sector in disk then disk[sector] else 0 }

  /** The disk after the transfers of a log. */
  function Replay(disk: map<nat, Data>, log: seq<Transfer>): map<nat, Data>
  {
    if log == [] then disk
    else
      var e := log[|log| - 1];
      var d := Replay(disk, log[..|log| - 1]);
      if e.write then d[e.sector := e.data] else d
  }

  datatype Action =
    | SetData(b: nat, d: Data)
    | Start(b: nat, blockno: nat, write: bool) | Post | Finish
    | Fetch | Complete(h: nat) | Interrupt | Kill

  predicate Enabled(s: Sys, p: nat, a: Action)
  {
    match a
    case SetData(b, _) => b < |s.holder| && s.holder[b].None?
    case Start(b, _, _) => p < |s.procs| && (s.procs[p].Idle? || s.procs[p].Back?) && b < |s.holder|
      && s.holder[b].None?
    case Post => p < |s.procs| && s.procs[p].Want? && !s.procs[p].waiting
    case Finish => p < |s.procs| && s.procs[p].Posted? && !s.procs[p].asleep
    case Fetch => s.wrap > 0 && s.fetched % s.wrap != s.availIdx
    case Complete(h) => h in s.inflight
    case Interrupt => s.wrap > 0 && s.seen % s.wrap != s.usedIdx
    case Kill => p < |s.procs|
  }

  ghost predicate Shape(s: Sys)
  {
    && 0 < |s.q.free| < s.wrap && s.wrap % |s.q.free| == 0 && s.q.Sized(|s.q.free|)
    && |s.avail| == |s.q.free| && |s.used| == |s.q.free| && |s.owner| == |s.q.free|
    && |s.flag| == |s.data| == |s.holder|
  }

  function WakeAllocators(ps: seq<PC>): seq<PC>
  {
    seq(|ps|, k requires 0 <= k < |ps| => if ps[k].Want? then ps[k].(waiting := false) else ps[k])
  }

  function WakeSleepers(ps: seq<PC>, b: nat): seq<PC>
  {
    seq(|ps|, k requires 0 <= k < |ps| => if ps[k].Posted? && ps[k].b == b then ps[k].(asleep := false) else ps[k])
  }

  /** virtio_disk_rw() up to its wait for the request.  On failure alloc3_desc() gives back what it
      took, waking everyone who waits for descriptors, and the process goes to sleep. */
  function NextPost(s: Sys, p: nat): Sys
    requires Shape(s) && Enabled(s, p, Post)
  {
    var x := s.procs[p];
    Alloc3Exactly(s.q.free);
    match Alloc3(s.q.free)
    case None =>
      var ps := if NumFree(s.q.free) > 0 then WakeAllocators(s.procs) else s.procs;
      s.(procs := ps[p := x.(waiting := true)])
    case Some((h, m, t)) =>
      if x.b >= |s.flag| then s.(panicked := true) else
      s.(q := s.q.Format(h, m, t, x.b, x.blockno, x.write),
         avail := s.avail[s.availIdx % |s.avail| := h], availIdx := (s.availIdx + 1) % s.wrap,
         flag := s.flag[x.b := true],
         owner := s.owner[h := Some(p)][m := Some(p)][t := Some(p)],
         reqs := s.reqs + [Req(p, h, x.b, x.blockno, x.write, s.data[x.b], None)],
         procs := s.procs[p := Posted(x.b, h, m, t, |s.reqs|, true, InAvail)])
  }

  /** virtio_disk_rw() awake again: back to sleep while b->disk is set, otherwise it frees its chain. */
  function NextFinish(s: Sys, p: nat): Sys
    requires Shape(s) && Enabled(s, p, Finish)
  {
    var x := s.procs[p];
    if x.b < |s.flag| && s.flag[x.b] then s.(procs := s.procs[p := x.(asleep := true)])
    else if x.h >= |s.q.free| || x.b >= |s.flag| then s.(panicked := true)
    else
      var q := s.q.(info := s.q.info[x.h := s.q.info[x.h].(b := None)]);
      match ChainFreed(q, x.h)
      case None => s.(panicked := true)
      case Some(r) =>
        s.(q := r, procs := WakeAllocators(s.procs)[p := Back(x.req)], holder := s.holder[x.b := None],
           owner := seq(|s.owner|, i requires 0 <= i < |s.owner| => if s.owner[i] == Some(p) then None else s.owner[i]))
  }

  /** The device takes the next available chain. */
  function NextFetch(s: Sys): Sys
    requires Shape(s)
  {
    var h := s.avail[(s.fetched % s.wrap) % |s.avail|];
    var t := s.(fetched := s.fetched + 1, inflight := s.inflight + {h});
    if h < |s.owner| && s.owner[h].Some? && s.owner[h].value < |s.procs| && s.procs[s.owner[h].value].Posted?
    then t.(procs := s.procs[s.owner[h].value := s.procs[s.owner[h].value].(stage := InDevice)])
    else t.(panicked := true)
  }

  /** A request the device can make sense of: header, data in the direction of the request, status. */
  predicate WellFormed(s: Sys, h: nat)
    requires Shape(s)
  {
    var q := s.q;
    && h < |q.desc| && q.desc[h].addr.Header? && q.desc[h].more && !q.desc[h].write && q.desc[h].addr.i < |q.ops|
    && q.desc[h].next < |q.desc|
    && var d := q.desc[q.desc[h].next];
       && d.addr.BufData? && d.addr.b < |s.data| && d.more && d.write == !q.ops[q.desc[h].addr.i].write
       && d.next < |q.desc|
       && var e := q.desc[d.next];
          e.addr.Status? && e.addr.i < |q.info| && !e.more && e.write
  }

  /** The device serves chain h and puts it on the used ring. */
  function NextComplete(s: Sys, h: nat): Sys
    requires Shape(s)
  {
    if !WellFormed(s, h) || s.owner[h].None? || s.owner[h].value >= |s.procs| || !s.procs[s.owner[h].value].Posted?
       || s.procs[s.owner[h].value].req >= |s.reqs| then s.(panicked := true)
    else
      var q, p := s.q, s.owner[h].value;
      var x := s.procs[p];
      var op, d := q.ops[q.desc[h].addr.i], q.desc[q.desc[h].next];
      var b, status := d.addr.b, q.desc[d.next].addr.i;
      var moved := if op.write then s.data[b] else Lookup(s.disk, op.sector);
      s.(q := q.(info := q.info[status := q.info[status].(status := 0)]),
         data := if op.write then s.data else s.data[b := moved],
         disk := if op.write then s.disk[op.sector := moved] else s.disk,
         used := s.used[s.usedIdx % |s.used| := h], usedIdx := (s.usedIdx + 1) % s.wrap,
         inflight := s.inflight - {h}, completed := s.completed + [h],
         log := s.log + [Transfer(x.req, op.write, b, op.sector, moved)],
         reqs := s.reqs[x.req := s.reqs[x.req].(served := Some(|s.log|))],
         procs := s.procs[p := x.(stage := InUsed(|s.completed|))])
  }

  /** One turn of virtio_disk_intr()'s loop. */
  function NextInterrupt(s: Sys): Sys
    requires Shape(s)
  {
    var id := s.used[(s.seen % s.wrap) % |s.used|];
    if id >= |s.q.info| || s.q.info[id].status != 0 || s.q.info[id].b.None? || s.q.info[id].b.value >= |s.flag|
       || s.owner[id].None? || s.owner[id].value >= |s.procs| || !s.procs[s.owner[id].value].Posted?
    then s.(panicked := true)
    else
      var b, p := s.q.info[id].b.value, s.owner[id].value;
      s.(flag := s.flag[b := false], seen := s.seen + 1,
         procs := WakeSleepers(s.procs, b)[p := WakeSleepers(s.procs, b)[p].(stage := Seen)])
  }

  /** kkill(): a process that sleeps is made to run, whatever it sleeps for. */
  function Woken(x: PC): PC
  {
    if x.Want? then x.(waiting := false) else if x.Posted? then x.(asleep := false) else x
  }

  function Next(s: Sys, p: nat, a: Action): Sys
    requires Shape(s) && Enabled(s, p, a)
  {
    match a
    case SetData(b, d) => s.(data := s.data[b := d])
    case Start(b, blockno, write) => s.(holder := s.holder[b := Some(p)],
      procs := s.procs[p := Want(b, blockno, write, false)])
    case Post => NextPost(s, p)
    case Finish => NextFinish(s, p)
    case Fetch => NextFetch(s)
    case Complete(h) => NextComplete(s, h)
    case Interrupt => NextInterrupt(s)
    case Kill => s.(procs := s.procs[p := Woken(s.procs[p])])
  }

  ghost predicate Boot(s: Sys)
  {
    && Shape(s) && s.availIdx == s.usedIdx == s.fetched == s.seen == 0 && s.inflight == {} && s.completed == []
    && s.reqs == [] && s.log == []
    && !s.panicked && (forall p :: 0 <= p < |s.procs| ==> s.procs[p] == Idle)
    && (forall i :: 0 <= i < |s.q.free| ==> s.q.free[i] && s.q.desc[i] == cleared && s.owner[i] == None)
    && (forall b :: 0 <= b < |s.flag| ==> s.holder[b] == None)
  }

  ghost predicate IsRun(ss: seq<Sys>, who: seq<nat>, acts: seq<Action>)
  {
    && |ss| == |acts| + 1 == |who| + 1 && Boot(ss[0])
    && forall i :: 0 <= i < |acts| ==>
      Shape(ss[i]) && Enabled(ss[i], who[i], acts[i]) && ss[i + 1] == Next(ss[i], who[i], acts[i])
  }

  // ---------------------------------------------------------------- the invariant

  /** The chain h, m, t belongs to p and says what the request says. */
  ghost predicate ChainOk(q: Queue, owner: seq<Option<nat>>, p: nat, h: nat, m: nat, t: nat, b: nat, r: Req)
    requires q.Sized(|owner|)
  {
    && Linked(q, h, m, t) && owner[h] == Some(p) && owner[m] == Some(p) && owner[t] == Some(p)
    && q.desc[h] == Desc(Header(h), true, false, m) && q.desc[m] == Desc(BufData(b), true, !r.write, t)
    && q.desc[t] == Desc(Status(h), false, true, 0) && q.ops[h] == Op(r.write, r.blockno * 2) && q.info[h].b == Some(b)
    && r.p == p && r.h == h && r.b == b
  }

  /** Where the chain is, as the rings and the device have it. */
  ghost predicate StageOk(s: Sys, x: PC)
    requires x.Posted? && x.h < |s.q.info|
  {
    match x.stage
    case InAvail => s.fetched <= x.req && x.h !in s.inflight
    case InDevice => x.req < s.fetched && x.h in s.inflight
    case InUsed(k) => s.seen <= k < |s.completed| && s.completed[k] == x.h && x.h !in s.inflight
      && s.q.info[x.h].status == 0
    case Seen => x.h !in s.inflight
  }

  /** What has been moved for request r so far. */
  ghost predicate DataOk(s: Sys, b: nat, r: Req)
    requires b < |s.data|
  {
    match r.served
    case None => r.write ==> s.data[b] == r.sent
    case Some(k) => k < |s.log| && (!r.write ==> s.data[b] == s.log[k].data)
  }

  ghost predicate ProcOk(s: Sys, p: nat)
    requires Shape(s) && p < |s.procs|
  {
    match s.procs[p]
    case Idle => true
    case Want(b, _, _, waiting) => b < |s.holder| && s.holder[b] == Some(p) && (waiting ==> NumFree(s.q.free) < 3)
    case Posted(b, h, m, t, req, asleep, stage) =>
      && b < |s.holder| && s.holder[b] == Some(p) && req < |s.reqs|
      && ChainOk(s.q, s.owner, p, h, m, t, b, s.reqs[req]) && StageOk(s, s.procs[p])
      && (s.reqs[req].served.None? <==> stage.InAvail? || stage.InDevice?) && DataOk(s, b, s.reqs[req])
      && s.flag[b] == !stage.Seen? && (asleep ==> s.flag[b])
    case Back(req) => req < |s.reqs| && s.reqs[req].p == p && s.reqs[req].served.Some?
  }

  ghost predicate DescOk(s: Sys, i: nat)
    requires Shape(s) && i < |s.q.free|
  {
    && (s.q.free[i] <==> s.owner[i].None?) && (s.q.free[i] ==> s.q.desc[i] == cleared)
    && (s.owner[i].Some? ==>
          && s.owner[i].value < |s.procs| && s.procs[s.owner[i].value].Posted?
          && var x := s.procs[s.owner[i].value]; i == x.h || i == x.m || i == x.t)
  }

  /** Head h belongs to a process whose chain is at that stage. */
  ghost predicate HeadAt(s: Sys, h: nat, stage: Stage)
  {
    && h < |s.owner| && s.owner[h].Some? && s.owner[h].value < |s.procs|
    && var x := s.procs[s.owner[h].value]; x.Posted? && x.h == h && x.stage == stage
  }

  ghost predicate AvailOk(s: Sys, k: nat)
    requires Shape(s) && k < |s.reqs|
  {
    var h := s.reqs[k].h;
    s.avail[k % |s.avail|] == h && HeadAt(s, h, InAvail) && s.procs[s.owner[h].value].req == k
  }

  ghost predicate UsedOk(s: Sys, k: nat)
    requires Shape(s) && k < |s.completed|
  {
    s.used[k % |s.used|] == s.completed[k] && HeadAt(s, s.completed[k], InUsed(k))
  }

  /** Transfers and served requests correspond one to one. */
  ghost predicate LogOk(reqs: seq<Req>, log: seq<Transfer>)
  {
    && (forall k :: 0 <= k < |log| ==>
          && log[k].req < |reqs|
          && var r := reqs[log[k].req];
             r.served == Some(k) && log[k].write == r.write && log[k].b == r.b && log[k].sector == r.blockno * 2 &&
             (r.write ==> log[k].data == r.sent))
    && forall r :: 0 <= r < |reqs| && reqs[r].served.Some? ==>
      reqs[r].served.value < |log| && log[reqs[r].served.value].req == r
  }

  ghost predicate CountsOk(s: Sys)
    requires Shape(s)
  {
    && s.availIdx == |s.reqs| % s.wrap && s.usedIdx == |s.completed| % s.wrap
    && s.fetched <= |s.reqs| <= s.fetched + |s.avail| && s.seen <= |s.completed| <= s.seen + |s.used|
  }

  ghost predicate Inv(s: Sys)
  {
    && Shape(s) && CountsOk(s) && !s.panicked && LogOk(s.reqs, s.log)
    && (forall p :: 0 <= p < |s.procs| ==> ProcOk(s, p))
    && (forall i :: 0 <= i < |s.q.free| ==> DescOk(s, i))
    && (forall k :: s.fetched <= k < |s.reqs| ==> AvailOk(s, k))
    && (forall h :: h in s.inflight ==> HeadAt(s, h, InDevice))
    && (forall k :: s.seen <= k < |s.completed| ==> UsedOk(s, k))
  }

  lemma BootInv(s: Sys)
    requires Boot(s)
    ensures Inv(s)
  {
  }

  // ---------------------------------------------------------------- rings

  lemma {:induction false} Pigeonhole(s: seq<nat>, n: nat)
    requires forall i :: 0 <= i < |s| ==> s[i] < n
    requires forall i, j :: 0 <= i < j < |s| ==> s[i] != s[j]
    ensures |s| <= n
  {
    if s == [] {
      return;
    }
    assert s[0] < n;
    if exists i :: 0 <= i < |s| && s[i] == n - 1 {
      var i :| 0 <= i < |s| && s[i] == n - 1;
      Pigeonhole(s[..i] + s[i + 1..], n - 1);
    } else {
      Pigeonhole(s, n - 1);
    }
  }

  /** An index that wraps differs from another one exactly when the real counts differ. */
  lemma IndexTest(low: nat, high: nat, n: nat, wrap: nat)
    requires low <= high <= low + n && n < wrap
    ensures low % wrap != high % wrap <==> low < high
  {
    if low % wrap == high % wrap {
      ModEqual(low, high, wrap);
    }
  }

  /** Fewer than n chains are available or used at a time, since their heads are different. */
  lemma AvailNotFull(s: Sys, h: nat)
    requires Inv(s) && h < |s.owner| && s.owner[h].None?
    ensures |s.reqs| - s.fetched < |s.avail|
  {
    var heads := seq(|s.reqs| - s.fetched, k requires 0 <= k < |s.reqs| - s.fetched => s.reqs[s.fetched + k].h);
    forall i | 0 <= i < |heads| ensures heads[i] < |s.owner| && heads[i] != h {
      assert AvailOk(s, s.fetched + i);
    }
    forall i, j | 0 <= i < j < |heads| ensures heads[i] != heads[j] {
      assert AvailOk(s, s.fetched + i) && AvailOk(s, s.fetched + j);
    }
    Pigeonhole(heads + [h], |s.owner|);
  }

  lemma UsedNotFull(s: Sys, h: nat)
    requires Inv(s) && h in s.inflight
    ensures |s.completed| - s.seen < |s.used|
  {
    var heads := s.completed[s.seen..];
    assert HeadAt(s, h, InDevice);
    forall i | 0 <= i < |heads| ensures heads[i] < |s.owner| && heads[i] != h {
      assert UsedOk(s, s.seen + i);
    }
    forall i, j | 0 <= i < j < |heads| ensures heads[i] != heads[j] {
      assert UsedOk(s, s.seen + i) && UsedOk(s, s.seen + j);
    }
    Pigeonhole(heads + [h], |s.owner|);
  }

  // ---------------------------------------------------------------- steps

  /** The sizes, and everything about request numbers, transfers and completions, only grow. */
  ghost predicate Grows(s: Sys, t: Sys)
  {
    && Shape(s) && Shape(t) && |t.q.free| == |s.q.free| && |t.procs| == |s.procs| && |t.data| == |s.data|
    && t.wrap == s.wrap
    && |s.reqs| <= |t.reqs| && s.log <= t.log && s.completed <= t.completed && s.fetched <= t.fetched
    && s.seen <= t.seen
  }

  /** A step leaves alone everything process p's chain depends on. */
  ghost predicate Spares(s: Sys, t: Sys, x: PC)
    requires Grows(s, t) && x.Posted?
  {
    && x.b < |s.holder| && t.holder[x.b] == s.holder[x.b] && t.flag[x.b] == s.flag[x.b] && t.data[x.b] == s.data[x.b]
    && x.h < |s.q.free| && x.m < |s.q.free| && x.t < |s.q.free|
    && t.q.info[x.h] == s.q.info[x.h] && t.q.ops[x.h] == s.q.ops[x.h] && (x.h in t.inflight <==> x.h in s.inflight)
    && SameDesc(s, t, x.h) && SameDesc(s, t, x.m) && SameDesc(s, t, x.t)
    && x.req < |s.reqs| && t.reqs[x.req] == s.reqs[x.req]
    && (x.stage.InAvail? ==> t.fetched <= x.req) && (x.stage.InUsed? ==> t.seen <= x.stage.k)
  }

  predicate SameDesc(s: Sys, t: Sys, i: nat)
    requires Shape(s) && Shape(t) && |t.q.free| == |s.q.free| && i < |s.q.free|
  {
    t.q.free[i] == s.q.free[i] && t.q.desc[i] == s.q.desc[i] && t.owner[i] == s.owner[i]
  }

  lemma SparedPosted(s: Sys, t: Sys, p: nat)
    requires Grows(s, t) && p < |s.procs| && s.procs[p].Posted? && t.procs[p] == s.procs[p]
    requires ProcOk(s, p) && Spares(s, t, s.procs[p])
    ensures ProcOk(t, p)
  {
  }

  /** Processes that are not posted. */
  lemma SparedOther(s: Sys, t: Sys, p: nat)
    requires Grows(s, t) && p < |s.procs| && !s.procs[p].Posted? && t.procs[p] == s.procs[p] && ProcOk(s, p)
    requires s.procs[p].Want? ==> s.procs[p].b < |s.holder| && t.holder[s.procs[p].b] == s.holder[s.procs[p].b]
    requires s.procs[p].Want? && s.procs[p].waiting ==> NumFree(t.q.free) < 3
    requires forall r :: 0 <= r < |s.reqs| ==>
      t.reqs[r].p == s.reqs[r].p && (s.reqs[r].served.Some? ==> t.reqs[r].served.Some?)
    ensures ProcOk(t, p)
  {
  }

  /** The rings and the chains in the device are as before: same heads, same owners, same stages. */
  ghost predicate SameRings(s: Sys, t: Sys)
  {
    && Shape(s) && Shape(t) && |t.procs| == |s.procs| && t.reqs == s.reqs && t.completed == s.completed
    && t.avail == s.avail && t.used == s.used
    && t.fetched == s.fetched && t.seen == s.seen && t.inflight == s.inflight && t.availIdx == s.availIdx
    && t.usedIdx == s.usedIdx
    && t.wrap == s.wrap && t.log == s.log && t.panicked == s.panicked && |t.q.free| == |s.q.free|
    && (forall p :: 0 <= p < |s.procs| ==> SameChain(s.procs[p], t.procs[p]))
    && forall h :: 0 <= h < |s.owner| ==>
      s.owner[h].None? || t.owner[h] == s.owner[h] || SeenChain(s.procs, s.owner[h].value)
  }

  predicate SameChain(x: PC, y: PC)
  {
    x.Posted? && !x.stage.Seen? ==> y.Posted? && y.(asleep := x.asleep) == x
  }

  predicate SeenChain(ps: seq<PC>, p: nat)
  {
    p < |ps| && ps[p].Posted? && ps[p].stage.Seen?
  }

  lemma HeadKept(s: Sys, t: Sys, h: nat, stage: Stage)
    requires SameRings(s, t) && HeadAt(s, h, stage) && !stage.Seen?
    ensures HeadAt(t, h, stage) && t.owner[h] == s.owner[h]
    ensures t.procs[t.owner[h].value].req == s.procs[s.owner[h].value].req
  {
    assert SameChain(s.procs[s.owner[h].value], t.procs[s.owner[h].value]);
  }

  lemma RingsKeep(s: Sys, t: Sys)
    requires Inv(s) && SameRings(s, t)
    requires forall q :: 0 <= q < |t.procs| ==> ProcOk(t, q)
    requires forall i :: 0 <= i < |t.q.free| ==> DescOk(t, i)
    ensures Inv(t)
  {
    forall k | t.fetched <= k < |t.reqs| ensures AvailOk(t, k) {
      assert AvailOk(s, k);
      HeadKept(s, t, s.reqs[k].h, InAvail);
    }
    forall h | h in t.inflight ensures HeadAt(t, h, InDevice) {
      HeadKept(s, t, h, InDevice);
    }
    forall k | t.seen <= k < |t.completed| ensures UsedOk(t, k) {
      assert UsedOk(s, k);
      HeadKept(s, t, s.completed[k], InUsed(k));
    }
  }

  lemma SetDataKeeps(s: Sys, p: nat, b: nat, d: Data)
    requires Inv(s) && Enabled(s, p, SetData(b, d))
    ensures Inv(Next(s, p, SetData(b, d)))
  {
    var t := Next(s, p, SetData(b, d));
    forall q | 0 <= q < |t.procs| ensures ProcOk(t, q) {
      assert ProcOk(s, q);
      if s.procs[q].Posted? {
        SparedPosted(s, t, q);
      } else {
        SparedOther(s, t, q);
      }
    }
    forall i | 0 <= i < |t.q.free| ensures DescOk(t, i) {
      assert DescOk(s, i);
    }
    RingsKeep(s, t);
  }

  lemma StartKeeps(s: Sys, p: nat, b: nat, blockno: nat, write: bool)
    requires Inv(s) && Enabled(s, p, Start(b, blockno, write))
    ensures Inv(Next(s, p, Start(b, blockno, write)))
  {
    var t := Next(s, p, Start(b, blockno, write));
    forall q | 0 <= q < |t.procs| ensures ProcOk(t, q) {
      assert ProcOk(s, q);
      if s.procs[q].Posted? {
        SparedPosted(s, t, q);
      } else if q != p {
        SparedOther(s, t, q);
      }
    }
    forall i | 0 <= i < |t.q.free| ensures DescOk(t, i) {
      assert DescOk(s, i);
    }
    RingsKeep(s, t);
  }

  /** Not enough descriptors: sleep. */
  lemma PostFailsKeeps(s: Sys, p: nat)
    requires Inv(s) && Enabled(s, p, Post) && Alloc3(s.q.free).None?
    ensures Inv(Next(s, p, Post))
  {
    var t := NextPost(s, p);
    Alloc3Exactly(s.q.free);
    forall q | 0 <= q < |t.procs| ensures ProcOk(t, q) {
      assert ProcOk(s, q);
      if s.procs[q].Posted? {
        SparedPosted(s, t, q);
      }
    }
    forall i | 0 <= i < |t.q.free| ensures DescOk(t, i) {
      assert DescOk(s, i);
    }
    RingsKeep(s, t);
  }

  /** Spuriously awake: back to sleep. */
  lemma FinishSleepsKeeps(s: Sys, p: nat)
    requires Inv(s) && Enabled(s, p, Finish) && s.procs[p].b < |s.flag| && s.flag[s.procs[p].b]
    ensures Inv(Next(s, p, Finish))
  {
    var t := NextFinish(s, p);
    forall q | 0 <= q < |t.procs| ensures ProcOk(t, q) {
      assert ProcOk(s, q);
      if q != p {
        if s.procs[q].Posted? {
          SparedPosted(s, t, q);
        } else {
          SparedOther(s, t, q);
        }
      }
    }
    forall i | 0 <= i < |t.q.free| ensures DescOk(t, i) {
      assert DescOk(s, i);
    }
    RingsKeep(s, t);
  }

  /** Woken before its time: it looks again, and sleeps again. */
  lemma KillKeeps(s: Sys, p: nat)
    requires Inv(s) && Enabled(s, p, Kill)
    ensures Inv(Next(s, p, Kill))
  {
    var t := Next(s, p, Kill);
    forall q | 0 <= q < |t.procs| ensures ProcOk(t, q) {
      assert ProcOk(s, q);
      if q != p {
        if s.procs[q].Posted? {
          SparedPosted(s, t, q);
        } else {
          SparedOther(s, t, q);
        }
      }
    }
    forall i | 0 <= i < |t.q.free| ensures DescOk(t, i) {
      assert DescOk(s, i);
    }
    RingsKeep(s, t);
  }

  /** What freeing p's chain comes to. */
  ghost predicate FreesChain(s: Sys, t: Sys, p: nat)
  {
    && p < |s.procs| && s.procs[p].Posted? && Grows(s, t) && |t.holder| == |s.holder| && t.reqs == s.reqs
    && t.log == s.log
    && t.flag == s.flag && t.data == s.data && t.inflight == s.inflight && t.fetched == s.fetched && t.seen == s.seen
    && t.procs == WakeAllocators(s.procs)[p := Back(s.procs[p].req)]
    && s.procs[p].b < |s.holder| && t.holder == s.holder[s.procs[p].b := None]
    && (forall i :: 0 <= i < |s.owner| ==>
          if s.owner[i] == Some(p)
          then t.owner[i] == None && t.q.free[i] && t.q.desc[i] == cleared
          else SameDesc(s, t, i) && t.q.info[i] == s.q.info[i] && t.q.ops[i] == s.q.ops[i])
  }

  lemma FinishFrees(s: Sys, p: nat)
    requires Inv(s) && Enabled(s, p, Finish) && !(s.procs[p].b < |s.flag| && s.flag[s.procs[p].b])
    ensures FreesChain(s, NextFinish(s, p), p) && SameRings(s, NextFinish(s, p))
    ensures s.procs[p].stage.Seen?
  {
    hide AvailOk, UsedOk, HeadAt, LogOk, CountsOk;
    var x, t := s.procs[p], NextFinish(s, p);
    assert ProcOk(s, p);
    var q := s.q.(info := s.q.info[x.h := s.q.info[x.h].(b := None)]);
    assert Linked(q, x.h, x.m, x.t);
    ChainFreedExactly(q, x.h, x.m, x.t);
    forall i | 0 <= i < |s.owner| ensures s.owner[i] == Some(p) ==> i == x.h || i == x.m || i == x.t {
      assert DescOk(s, i);
    }
  }

  lemma FinishFreesKeeps(s: Sys, p: nat)
    requires Inv(s) && Enabled(s, p, Finish) && !(s.procs[p].b < |s.flag| && s.flag[s.procs[p].b])
    ensures Inv(Next(s, p, Finish))
  {
    FinishFrees(s, p);
    FreesChainKeeps(s, NextFinish(s, p), p);
  }

  lemma FreesChainKeeps(s: Sys, t: Sys, p: nat)
    requires Inv(s) && FreesChain(s, t, p) && SameRings(s, t) && s.procs[p].stage.Seen?
    ensures Inv(t)
  {
    hide AvailOk, UsedOk, HeadAt, LogOk, CountsOk;
    assert ProcOk(s, p);
    forall q | 0 <= q < |t.procs| ensures ProcOk(t, q) {
      assert ProcOk(s, q);
      if q != p && s.procs[q].Posted? {
        SparedPosted(s, t, q);
      }
    }
    forall i | 0 <= i < |t.q.free| ensures DescOk(t, i) {
      assert DescOk(s, i);
    }
    RingsKeep(s, t);
  }

  // A chain is posted.

  /** Process p, which wanted descriptors, posts the chain h, m, l. */
  ghost predicate Posts(s: Sys, t: Sys, p: nat, h: nat, m: nat, l: nat)
  {
    && Grows(s, t) && p < |s.procs| && s.procs[p].Want? && h < |s.owner| && m < |s.owner| && l < |s.owner| && h != m
    && h != l && m != l
    && s.owner[h].None? && s.owner[m].None? && s.owner[l].None?
    && var x := s.procs[p];
       && x.b < |s.flag| && s.holder[x.b] == Some(p)
       && t == s.(q := s.q.Format(h, m, l, x.b, x.blockno, x.write), avail := t.avail, availIdx := t.availIdx,
                  flag := s.flag[x.b := true], owner := s.owner[h := Some(p)][m := Some(p)][l := Some(p)],
                  reqs := s.reqs + [Req(p, h, x.b, x.blockno, x.write, s.data[x.b], None)],
                  procs := s.procs[p := Posted(x.b, h, m, l, |s.reqs|, true, InAvail)])
  }

  lemma PostPosts(s: Sys, p: nat, h: nat, m: nat, l: nat)
    requires Inv(s) && Enabled(s, p, Post) && Alloc3(s.q.free) == Some((h, m, l))
    ensures Posts(s, NextPost(s, p), p, h, m, l)
  {
    Alloc3Exactly(s.q.free);
    assert ProcOk(s, p) && DescOk(s, h) && DescOk(s, m) && DescOk(s, l);
  }

  lemma PostsSelf(s: Sys, t: Sys, p: nat, h: nat, m: nat, l: nat)
    requires Posts(s, t, p, h, m, l) && CountsOk(s) && (h in s.inflight ==> HeadAt(s, h, InDevice))
    ensures ProcOk(t, p)
  {
    assert ChainOk(t.q, t.owner, p, h, m, l, s.procs[p].b, t.reqs[|s.reqs|]);
  }

  lemma PostsOther(s: Sys, t: Sys, p: nat, h: nat, m: nat, l: nat, q: nat)
    requires Posts(s, t, p, h, m, l) && q < |s.procs| && q != p && ProcOk(s, q)
    ensures ProcOk(t, q)
  {
    if s.procs[q].Posted? {
      SparedPosted(s, t, q);
    } else {
      if s.procs[q].Want? && s.procs[q].waiting {
        FormatNumFree(s.q.free, h, m, l);
      }
      SparedOther(s, t, q);
    }
  }

  lemma FormatNumFree(free: seq<bool>, h: nat, m: nat, l: nat)
    requires h < |free| && m < |free| && l < |free|
    ensures NumFree(free[h := false][m := false][l := false]) <= NumFree(free)
  {
    NumFreeUpdate(free, h, false);
    NumFreeUpdate(free[h := false], m, false);
    NumFreeUpdate(free[h := false][m := false], l, false);
  }

  /** Slot n of a ring, wrapped, is none of the slots of the entries in use. */
  lemma OtherSlot(low: nat, k: nat, high: nat, n: nat)
    requires n > 0 && low <= k < high < low + n
    ensures k % n != high % n
  {
    if k % n == high % n {
      ModEqual(k, high, n);
    }
  }

  lemma PostAvail(s: Sys, p: nat, h: nat, m: nat, l: nat, k: nat)
    requires Inv(s) && Enabled(s, p, Post) && Alloc3(s.q.free) == Some((h, m, l))
    requires Posts(s, NextPost(s, p), p, h, m, l)
    requires s.fetched <= k <= |s.reqs|
    ensures AvailOk(NextPost(s, p), k)
  {
    var t := NextPost(s, p);
    ModMod(|s.reqs|, s.wrap, |s.avail|);
    if k < |s.reqs| {
      AvailNotFull(s, h);
      OtherSlot(s.fetched, k, |s.reqs|, |s.avail|);
      assert AvailOk(s, k);
    }
  }

  lemma PostKeeps(s: Sys, p: nat, h: nat, m: nat, l: nat)
    requires Inv(s) && Enabled(s, p, Post) && Alloc3(s.q.free) == Some((h, m, l))
    ensures Inv(Next(s, p, Post))
  {
    var t := NextPost(s, p);
    PostPosts(s, p, h, m, l);
    AvailNotFull(s, h);
    ModAdd(|s.reqs|, 1, s.wrap);
    forall q | 0 <= q < |t.procs| ensures ProcOk(t, q) {
      assert ProcOk(s, q);
      if q == p {
        PostsSelf(s, t, p, h, m, l);
      } else {
        PostsOther(s, t, p, h, m, l, q);
      }
    }
    forall i | 0 <= i < |t.q.free| ensures DescOk(t, i) {
      assert DescOk(s, i);
    }
    forall k | t.fetched <= k < |t.reqs| ensures AvailOk(t, k) {
      PostAvail(s, p, h, m, l, k);
    }
    PostsHeads(s, t, p, h, m, l);
  }

  lemma PostsHeads(s: Sys, t: Sys, p: nat, h: nat, m: nat, l: nat)
    requires Inv(s) && Posts(s, t, p, h, m, l)
    ensures forall h :: h in t.inflight ==> HeadAt(t, h, InDevice)
    ensures forall k :: t.seen <= k < |t.completed| ==> UsedOk(t, k)
    ensures LogOk(t.reqs, t.log)
  {
    forall g | g in t.inflight ensures HeadAt(t, g, InDevice) {
      assert HeadAt(s, g, InDevice);
    }
    forall k | t.seen <= k < |t.completed| ensures UsedOk(t, k) {
      assert UsedOk(s, k);
    }
  }

  // The device, or the interrupt handler, moves the chain of p from one stage to the next.

  /** Only p's chain moves: for the others nothing they depend on changes. */
  ghost predicate Moves(s: Sys, t: Sys, p: nat, stage: Stage)
  {
    && Grows(s, t) && p < |s.procs| && s.procs[p].Posted? && t.q == s.q.(info := t.q.info) && t.owner == s.owner
    && t.holder == s.holder
    && t.procs[p].Posted? && t.procs[p] == s.procs[p].(asleep := t.procs[p].asleep, stage := stage)
    && (forall q :: 0 <= q < |s.procs| && q != p ==> t.procs[q] == s.procs[q])
    && (forall h :: 0 <= h < |s.owner| && s.owner[h] != Some(p) ==>
      t.q.info[h] == s.q.info[h] && (h in t.inflight <==> h in s.inflight))
    && (forall b :: 0 <= b < |s.holder| && s.holder[b] != Some(p) ==> t.flag[b] == s.flag[b] && t.data[b] == s.data[b])
    && (forall r :: 0 <= r < |s.reqs| ==>
      t.reqs[r] == s.reqs[r] || (s.reqs[r].p == p && t.reqs[r].(served := None) == s.reqs[r]))
  }

  lemma MovesOther(s: Sys, t: Sys, p: nat, stage: Stage, q: nat)
    requires Moves(s, t, p, stage) && q < |s.procs| && q != p && ProcOk(s, q)
    requires s.procs[q].Posted? && s.procs[q].stage.InAvail? ==> t.fetched <= s.procs[q].req
    requires s.procs[q].Posted? && s.procs[q].stage.InUsed? ==> t.seen <= s.procs[q].stage.k
    ensures ProcOk(t, q)
  {
    if s.procs[q].Posted? {
      SparedPosted(s, t, q);
    } else {
      SparedOther(s, t, q);
    }
  }

  lemma MovesDesc(s: Sys, t: Sys, p: nat, stage: Stage, i: nat)
    requires Moves(s, t, p, stage) && i < |s.q.free| && DescOk(s, i)
    ensures DescOk(t, i)
  {
  }

  lemma FetchMoves(s: Sys)
    requires Inv(s) && Enabled(s, 0, Fetch)
    ensures s.fetched < |s.reqs| && HeadAt(s, s.reqs[s.fetched].h, InAvail)
    ensures var h := s.reqs[s.fetched].h;
      && Moves(s, NextFetch(s), s.owner[h].value, InDevice) && !NextFetch(s).panicked
      && NextFetch(s).inflight == s.inflight + {h} && s.procs[s.owner[h].value].req == s.fetched
  {
    IndexTest(s.fetched, |s.reqs|, |s.avail|, s.wrap);
    ModMod(s.fetched, s.wrap, |s.avail|);
    assert AvailOk(s, s.fetched);
  }

  lemma FetchProc(s: Sys, q: nat)
    requires Inv(s) && Enabled(s, 0, Fetch) && q < |s.procs|
    ensures ProcOk(NextFetch(s), q)
  {
    var t := NextFetch(s);
    FetchMoves(s);
    var h := s.reqs[s.fetched].h;
    var p := s.owner[h].value;
    assert ProcOk(s, q) && ProcOk(s, p);
    if q != p {
      MovesOther(s, t, p, InDevice, q);
    }
  }

  lemma FetchKeeps(s: Sys)
    requires Inv(s) && Enabled(s, 0, Fetch)
    ensures Inv(NextFetch(s))
  {
    var t := NextFetch(s);
    FetchMoves(s);
    var h := s.reqs[s.fetched].h;
    forall q | 0 <= q < |t.procs| ensures ProcOk(t, q) {
      FetchProc(s, q);
    }
    forall i | 0 <= i < |t.q.free| ensures DescOk(t, i) {
      assert DescOk(s, i);
      MovesDesc(s, t, s.owner[h].value, InDevice, i);
    }
    forall k | t.fetched <= k < |t.reqs| ensures AvailOk(t, k) {
      assert AvailOk(s, k);
    }
    forall g | g in t.inflight ensures HeadAt(t, g, InDevice) {
      assert g != h ==> HeadAt(s, g, InDevice);
    }
    forall k | t.seen <= k < |t.completed| ensures UsedOk(t, k) {
      assert UsedOk(s, k);
    }
  }

  lemma CompleteMoves(s: Sys, h: nat)
    requires Inv(s) && h in s.inflight
    ensures HeadAt(s, h, InDevice) && WellFormed(s, h)
    ensures var t, p := NextComplete(s, h), s.owner[h].value;
      && Moves(s, t, p, InUsed(|s.completed|)) && !t.panicked && t.inflight == s.inflight - {h}
      && t.completed == s.completed + [h]
      && t.fetched == s.fetched && t.seen == s.seen
  {
    assert HeadAt(s, h, InDevice);
    assert ProcOk(s, s.owner[h].value);
  }

  lemma CompleteSelf(s: Sys, h: nat)
    requires Inv(s) && h in s.inflight
    ensures HeadAt(s, h, InDevice) && ProcOk(NextComplete(s, h), s.owner[h].value)
    ensures LogOk(NextComplete(s, h).reqs, NextComplete(s, h).log)
  {
    CompleteMoves(s, h);
    var t, p := NextComplete(s, h), s.owner[h].value;
    var x := s.procs[p];
    assert ProcOk(s, p);
    assert t.log[|s.log|] == Transfer(x.req, s.reqs[x.req].write, x.b, s.reqs[x.req].blockno * 2, t.log[|s.log|].data);
  }

  lemma CompleteUsed(s: Sys, h: nat, k: nat)
    requires Inv(s) && h in s.inflight && s.seen <= k <= |s.completed|
    ensures Shape(NextComplete(s, h)) && k < |NextComplete(s, h).completed| && UsedOk(NextComplete(s, h), k)
  {
    CompleteMoves(s, h);
    ModMod(|s.completed|, s.wrap, |s.used|);
    if k < |s.completed| {
      UsedNotFull(s, h);
      OtherSlot(s.seen, k, |s.completed|, |s.used|);
      assert UsedOk(s, k);
    }
  }

  lemma CompleteKeeps(s: Sys, h: nat)
    requires Inv(s) && h in s.inflight
    ensures Inv(NextComplete(s, h))
  {
    var t := NextComplete(s, h);
    CompleteMoves(s, h);
    CompleteSelf(s, h);
    UsedNotFull(s, h);
    ModAdd(|s.completed|, 1, s.wrap);
    var p := s.owner[h].value;
    forall q | 0 <= q < |t.procs| ensures ProcOk(t, q) {
      assert ProcOk(s, q);
      if q != p {
        MovesOther(s, t, p, InUsed(|s.completed|), q);
      }
    }
    forall i | 0 <= i < |t.q.free| ensures DescOk(t, i) {
      assert DescOk(s, i);
      MovesDesc(s, t, p, InUsed(|s.completed|), i);
    }
    forall k | t.fetched <= k < |t.reqs| ensures AvailOk(t, k) {
      assert AvailOk(s, k);
    }
    forall g | g in t.inflight ensures HeadAt(t, g, InDevice) {
      assert HeadAt(s, g, InDevice);
    }
    forall k | t.seen <= k < |t.completed| ensures UsedOk(t, k) {
      CompleteUsed(s, h, k);
    }
  }

  lemma InterruptMoves(s: Sys)
    requires Inv(s) && Enabled(s, 0, Interrupt)
    ensures s.seen < |s.completed| && HeadAt(s, s.completed[s.seen], InUsed(s.seen))
    ensures var t, p := NextInterrupt(s), s.owner[s.completed[s.seen]].value;
      && Moves(s, t, p, Seen) && !t.panicked && t.seen == s.seen + 1 && t.inflight == s.inflight
      && t.fetched == s.fetched
      && !t.procs[p].asleep && s.procs[p].b < |t.flag| && !t.flag[s.procs[p].b] && t.data == s.data && t.reqs == s.reqs
  {
    IndexTest(s.seen, |s.completed|, |s.used|, s.wrap);
    ModMod(s.seen, s.wrap, |s.used|);
    assert UsedOk(s, s.seen);
    var h := s.completed[s.seen];
    var p := s.owner[h].value;
    assert ProcOk(s, p);
    forall q | 0 <= q < |s.procs| && q != p ensures NextInterrupt(s).procs[q] == s.procs[q] {
      assert ProcOk(s, q);
    }
  }

  lemma InterruptProc(s: Sys, q: nat)
    requires Inv(s) && Enabled(s, 0, Interrupt) && q < |s.procs|
    ensures ProcOk(NextInterrupt(s), q)
  {
    var t := NextInterrupt(s);
    InterruptMoves(s);
    var p := s.owner[s.completed[s.seen]].value;
    assert ProcOk(s, q) && ProcOk(s, p);
    if q != p {
      MovesOther(s, t, p, Seen, q);
    }
  }

  lemma InterruptKeeps(s: Sys)
    requires Inv(s) && Enabled(s, 0, Interrupt)
    ensures Inv(NextInterrupt(s))
  {
    var t := NextInterrupt(s);
    InterruptMoves(s);
    forall q | 0 <= q < |t.procs| ensures ProcOk(t, q) {
      InterruptProc(s, q);
    }
    forall i | 0 <= i < |t.q.free| ensures DescOk(t, i) {
      assert DescOk(s, i);
      MovesDesc(s, t, s.owner[s.completed[s.seen]].value, Seen, i);
    }
    forall k | t.fetched <= k < |t.reqs| ensures AvailOk(t, k) {
      assert AvailOk(s, k);
    }
    forall g | g in t.inflight ensures HeadAt(t, g, InDevice) {
      assert HeadAt(s, g, InDevice);
    }
    forall k | t.seen <= k < |t.completed| ensures UsedOk(t, k) {
      assert UsedOk(s, k);
    }
  }

  lemma StepKeeps(s: Sys, p: nat, a: Action)
    requires Inv(s) && Enabled(s, p, a)
    ensures Inv(Next(s, p, a))
  {
    match a
    case SetData(b, d) => SetDataKeeps(s, p, b, d);
    case Start(b, blockno, write) => StartKeeps(s, p, b, blockno, write);
    case Post =>
      if Alloc3(s.q.free).None? {
        PostFailsKeeps(s, p);
      } else {
        var (h, m, l) := Alloc3(s.q.free).value;
        PostKeeps(s, p, h, m, l);
      }
    case Finish =>
      if s.procs[p].b < |s.flag| && s.flag[s.procs[p].b] {
        FinishSleepsKeeps(s, p);
      } else {
        FinishFreesKeeps(s, p);
      }
    case Fetch => FetchKeeps(s);
    case Complete(h) => CompleteKeeps(s, h);
    case Interrupt => InterruptKeeps(s);
    case Kill => KillKeeps(s, p);
  }

  lemma {:induction false} RunKeeps(ss: seq<Sys>, who: seq<nat>, acts: seq<Action>, i: nat)
    requires IsRun(ss, who, acts) && i <= |acts|
    ensures Inv(ss[i])
  {
    if i == 0 {
      BootInv(ss[0]);
    } else {
      RunKeeps(ss, who, acts, i - 1);
      StepKeeps(ss[i - 1], who[i - 1], acts[i - 1]);
    }
  }

  // ---------------------------------------------------------------- what it all comes to

  /** In any state of any run no panic has been reached and the device has seen no chain it could not
      make sense of; neither ring holds more entries than it has slots, however often the 16-bit
      indices have wrapped. */
  lemma NeverPanics(ss: seq<Sys>, who: seq<nat>, acts: seq<Action>, i: nat)
    requires IsRun(ss, who, acts) && i <= |acts|
    ensures !ss[i].panicked
    ensures |ss[i].reqs| - ss[i].fetched <= |ss[i].avail| && |ss[i].completed| - ss[i].seen <= |ss[i].used|
    ensures forall h :: h in ss[i].inflight ==> Shape(ss[i]) && WellFormed(ss[i], h)
  {
    RunKeeps(ss, who, acts, i);
    forall h | h in ss[i].inflight ensures WellFormed(ss[i], h) {
      CompleteMoves(ss[i], h);
    }
  }

  /** The descriptors of process p's chain. */
  function ChainOf(x: PC): set<nat> { if x.Posted? then {x.h, x.m, x.t} else {} }

  /** Every descriptor is free or in the three-descriptor chain of exactly one process. */
  lemma DescriptorsConserved(ss: seq<Sys>, who: seq<nat>, acts: seq<Action>, k: nat, i: nat)
    requires IsRun(ss, who, acts) && k <= |acts| && i < |ss[k].q.free|
    ensures ss[k].q.free[i] <==> forall p :: 0 <= p < |ss[k].procs| ==> i !in ChainOf(ss[k].procs[p])
    ensures forall p, q :: 0 <= p < q < |ss[k].procs| ==>
      !(i in ChainOf(ss[k].procs[p]) && i in ChainOf(ss[k].procs[q]))
    ensures forall p :: 0 <= p < |ss[k].procs| && ss[k].procs[p].Posted? ==> |ChainOf(ss[k].procs[p])| == 3
  {
    var s := ss[k];
    RunKeeps(ss, who, acts, k);
    assert DescOk(s, i);
    forall p | 0 <= p < |s.procs| ensures i in ChainOf(s.procs[p]) ==> s.owner[i] == Some(p) {
      assert ProcOk(s, p);
    }
    if s.owner[i].Some? {
      assert i in ChainOf(s.procs[s.owner[i].value]);
    }
    forall p | 0 <= p < |s.procs| && s.procs[p].Posted? ensures |ChainOf(s.procs[p])| == 3 {
      assert ProcOk(s, p);
    }
  }

  /** An interrupt clears the busy flag of just the buffer whose chain the device completed. */
  lemma InterruptClearsOwnBuffer(ss: seq<Sys>, who: seq<nat>, acts: seq<Action>, i: nat, b: nat)
    requires IsRun(ss, who, acts) && i < |acts| && acts[i].Interrupt? && b < |ss[i].flag|
    ensures ss[i].seen < |ss[i].completed| && HeadAt(ss[i], ss[i].completed[ss[i].seen], InUsed(ss[i].seen))
    ensures |ss[i + 1].flag| == |ss[i].flag|
    ensures ss[i + 1].flag[b] != ss[i].flag[b] <==> ss[i].procs[ss[i].owner[ss[i].completed[ss[i].seen]].value].b == b
  {
    RunKeeps(ss, who, acts, i);
    InterruptMoves(ss[i]);
    var p := ss[i].owner[ss[i].completed[ss[i].seen]].value;
    assert ProcOk(ss[i], p);
  }

  /** No lost wakeups: asleep on a buffer only while its request is out, asleep on the free
      descriptors only while fewer than three are free. */
  lemma SleepersAreBlocked(ss: seq<Sys>, who: seq<nat>, acts: seq<Action>, i: nat, p: nat)
    requires IsRun(ss, who, acts) && i <= |acts| && p < |ss[i].procs|
    ensures ss[i].procs[p].Posted? && ss[i].procs[p].asleep ==> !ss[i].procs[p].stage.Seen?
    ensures ss[i].procs[p].Want? && ss[i].procs[p].waiting ==> NumFree(ss[i].q.free) < 3
  {
    RunKeeps(ss, who, acts, i);
    assert ProcOk(ss[i], p);
  }

  /** A call that has returned was served by exactly one transfer, of its own block and its own buffer,
      in its own direction, and a write moved the data the buffer held when it was posted. */
  lemma ServedExactlyOnce(ss: seq<Sys>, who: seq<nat>, acts: seq<Action>, i: nat, p: nat)
    requires IsRun(ss, who, acts) && i <= |acts| && p < |ss[i].procs| && ss[i].procs[p].Back?
    ensures var n, log := ss[i].procs[p].req, ss[i].log;
      && n < |ss[i].reqs| && var r := ss[i].reqs[n];
         && r.p == p && r.served.Some? && r.served.value < |log|
         && log[r.served.value] ==
            Transfer(n, r.write, r.b, r.blockno * 2, if r.write then r.sent else log[r.served.value].data)
         && forall k :: 0 <= k < |log| && log[k].req == n ==> k == r.served.value
  {
    RunKeeps(ss, who, acts, i);
    assert ProcOk(ss[i], p);
  }

  /** A read that is about to return has in its buffer what its transfer moved. */
  lemma ReadIsInBuffer(ss: seq<Sys>, who: seq<nat>, acts: seq<Action>, i: nat)
    requires IsRun(ss, who, acts) && i < |acts| && acts[i].Finish? && ss[i + 1].procs[who[i]].Back?
    ensures var x := ss[i].procs[who[i]];
      && x.req < |ss[i].reqs| && var r := ss[i].reqs[x.req];
         r.served.Some? && r.served.value < |ss[i].log| && x.b < |ss[i].data| && x.b == r.b &&
         (!r.write ==> ss[i].data[x.b] == ss[i].log[r.served.value].data)
  {
    RunKeeps(ss, who, acts, i);
    assert ProcOk(ss[i], who[i]);
  }

  /** Each transfer moved what the disk held after the transfers before it. */
  ghost predicate Faithful(disk: map<nat, Data>, log: seq<Transfer>)
  {
    forall k :: 0 <= k < |log| && !log[k].write ==> log[k].data == Lookup(Replay(disk, log[..k]), log[k].sector)
  }

  lemma ReplaySnoc(disk: map<nat, Data>, log: seq<Transfer>, e: Transfer)
    ensures Replay(disk, log + [e]) == if e.write then Replay(disk, log)[e.sector := e.data] else Replay(disk, log)
  {
    assert (log + [e])[..|log|] == log;
  }

  lemma FaithfulSnoc(disk: map<nat, Data>, log: seq<Transfer>, e: Transfer)
    requires Faithful(disk, log) && (!e.write ==> e.data == Lookup(Replay(disk, log), e.sector))
    ensures Faithful(disk, log + [e])
  {
    forall k | 0 <= k < |log + [e]| && !(log + [e])[k].write
      ensures (log + [e])[k].data == Lookup(Replay(disk, (log + [e])[..k]), (log + [e])[k].sector)
    {
      assert (log + [e])[..k] == log[..k];
      if k == |log| {
        assert log[..k] == log;
      }
    }
  }

  /** The log and the disk after a step: as before, or one transfer further. */
  ghost predicate LogStep(s: Sys, t: Sys)
  {
    || (t.log == s.log && t.disk == s.disk)
    || (&& |t.log| == |s.log| + 1 && t.log == s.log + [t.log[|s.log|]]
        && var e := t.log[|s.log|];
           if e.write then t.disk == s.disk[e.sector := e.data]
             else t.disk == s.disk && e.data == Lookup(s.disk, e.sector))
  }

  lemma CompleteLogs(s: Sys, h: nat)
    requires Shape(s)
    ensures LogStep(s, NextComplete(s, h))
  {
  }

  lemma OthersLog(s: Sys, p: nat, a: Action)
    requires Shape(s) && Enabled(s, p, a) && !a.Complete?
    ensures LogStep(s, Next(s, p, a))
  {
  }

  lemma ReplayStep(disk: map<nat, Data>, s: Sys, t: Sys)
    requires LogStep(s, t) && s.disk == Replay(disk, s.log) && Faithful(disk, s.log)
    ensures t.disk == Replay(disk, t.log) && Faithful(disk, t.log)
  {
    if t.log != s.log {
      ReplaySnoc(disk, s.log, t.log[|s.log|]);
      FaithfulSnoc(disk, s.log, t.log[|s.log|]);
    }
  }

  /** The disk holds the transfers of the log, made in its order, and each read moved what was there. */
  lemma {:induction false} DiskIsReplay(ss: seq<Sys>, who: seq<nat>, acts: seq<Action>, i: nat)
    requires IsRun(ss, who, acts) && i <= |acts|
    ensures ss[i].disk == Replay(ss[0].disk, ss[i].log) && Faithful(ss[0].disk, ss[i].log)
  {
    hide LogStep, Faithful, Replay, Boot, Enabled;
    if i == 0 {
      NothingLogged(ss[0]);
    } else {
      DiskIsReplay(ss, who, acts, i - 1);
      var a := acts[i - 1];
      if a.Complete? {
        CompleteLogs(ss[i - 1], a.h);
      } else {
        OthersLog(ss[i - 1], who[i - 1], a);
      }
      ReplayStep(ss[0].disk, ss[i - 1], ss[i]);
    }
  }

  lemma NothingLogged(s: Sys)
    requires Boot(s)
    ensures s.disk == Replay(s.disk, s.log) && Faithful(s.disk, s.log)
  {
  }
}
