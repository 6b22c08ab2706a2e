/** The pipe of kernel/pipe.c: a ring of bytes between two counters that wrap.

    pi->lock is held from one sleep() or return to the next, so the code between them is one step for
    every other process.  The write and read loops are methods of the class Pipe; the functions they are
    proved against make the steps of a machine in which any number of readers and writers interleave. */
module Pipes {
  import opened Basics
  import opened Modular

  type Byte = bv8

  /** The struct pipe, and the history of the bytes stored in it and taken out of it. */
  datatype View = View(data: seq<Byte>, nread: nat, nwrite: nat, readopen: bool, writeopen: bool,
                       wrap: nat, stored: seq<Byte>, taken: seq<Byte>)
  {
    /** The tests of the code, on counters that wrap. */
    predicate Full() requires wrap > 0 { nwrite == (nread + |data|) % wrap }
    predicate Empty() { nread == nwrite }

    /** pi->data[pi->nwrite++ % PIPESIZE] = b */
    function Put(b: Byte): View
      requires wrap > 0 && |data| > 0
    {
      this.(data := data[nwrite % |data| := b], nwrite := (nwrite + 1) % wrap, stored := stored + [b])
    }

    function Head(): Byte
      requires |data| > 0
    {
      data[nread % |data|]
    }

    /** pi->nread++, once the byte has been copied out */
    function Take(): View
      requires wrap > 0 && |data| > 0
    {
      this.(nread := (nread + 1) % wrap, taken := taken + [Head()])
    }

    function Buffered(): seq<Byte>
      requires taken <= stored
    {
      stored[|taken|..]
    }

    /** PIPESIZE must divide the range of a counter, and be less than it. */
    predicate Sizes()
    {
      0 < |data| < wrap && wrap % |data| == 0
    }

    /** The bytes taken are the first bytes stored; the others are in the ring. */
    ghost predicate Valid()
    {
      && Sizes() && taken <= stored && |stored| - |taken| <= |data|
      && nwrite == |stored| % wrap && nread == |taken| % wrap
      && forall k :: |taken| <= k < |stored| ==> InRing(k)
    }

    ghost predicate InRing(k: nat)
      requires |data| > 0 && k < |stored|
    {
      data[k % |data|] == stored[k]
    }
  }

  /** The two tests tell full, empty and neither apart, however often the counters have wrapped. */
  lemma TestsAreExact(v: View)
    requires v.Valid()
    ensures v.Full() <==> |v.stored| - |v.taken| == |v.data|
    ensures v.Empty() <==> v.Buffered() == []
  {
    var n := |v.data|;
    ModAdd(|v.taken|, n, v.wrap);
    if v.Full() {
      ModEqual(|v.stored|, |v.taken| + n, v.wrap);
    }
    if v.Empty() {
      ModEqual(|v.taken|, |v.stored|, v.wrap);
    }
  }

  lemma PutKeeps(v: View, b: Byte)
    requires v.Valid() && !v.Full()
    ensures v.Put(b).Valid() && v.Put(b).Buffered() == v.Buffered() + [b]
  {
    var t, n, m := v.Put(b), |v.data|, |v.stored|;
    TestsAreExact(v);
    ModAdd(m, 1, v.wrap);
    ModMod(m, v.wrap, n);
    forall k | |t.taken| <= k < |t.stored| ensures t.InRing(k) {
      if k < m {
        assert v.InRing(k);
        if k % n == m % n {
          ModEqual(k, m, n);
        }
      }
    }
  }

  lemma TakeKeeps(v: View)
    requires v.Valid() && !v.Empty()
    ensures v.Take().Valid() && v.Buffered() == [v.Head()] + v.Take().Buffered()
  {
    var t, m := v.Take(), |v.taken|;
    TestsAreExact(v);
    ModAdd(m, 1, v.wrap);
    ModMod(m, v.wrap, |v.data|);
    assert v.InRing(m);
    assert t.taken == v.stored[..m + 1];
    forall k | |t.taken| <= k < |t.stored| ensures t.InRing(k) {
      assert v.InRing(k);
    }
  }

  // ---------------------------------------------------------------- the two loops

  /** How a stretch of pipewrite() under the lock ends: at the end of the loop, with -1, or in sleep(). */
  datatype Outcome = Finished | Aborted | Sleeps

  /** pipewrite()'s loop from byte i on, until it sleeps or is over.  copyin() can read the bytes of src;
      killed() is true once byte killFrom is reached. */
  function WriteLoop(v: View, src: seq<Byte>, n: int, i: nat, killFrom: nat): (View, nat, Outcome)
    requires v.Sizes()
    decreases n - i
  {
    if i >= n then (v, i, Finished)
    else if !v.readopen || i >= killFrom then (v, i, Aborted)
    else if v.Full() then (v, i, Sleeps)
    else if i >= |src| then (v, i, Finished)
    else WriteLoop(v.Put(src[i]), src, n, i + 1, killFrom)
  }

  /** Bytes i to j of src have been stored, and nothing else has changed. */
  ghost predicate Stores(v: View, t: View, src: seq<Byte>, i: nat, j: nat)
  {
    && i <= j && (i < j ==> j <= |src|) && |t.data| == |v.data|
    && t == v.(data := t.data, nwrite := t.nwrite, stored := t.stored)
    && t.stored == v.stored + if i < j then src[i..j] else []
  }

  lemma {:induction false} WriteLoopStores(v: View, src: seq<Byte>, n: int, i: nat, killFrom: nat)
    requires v.Valid()
    ensures var (t, j, o) := WriteLoop(v, src, n, i, killFrom);
      && t.Valid() && Stores(v, t, src, i, j)
      && (o.Sleeps? ==> t.Full() && t.readopen && j < n && j < killFrom)
      && (o.Aborted? ==> j < n && (!t.readopen || j >= killFrom))
      && (o.Finished? ==> j >= n || j >= |src|)
    decreases n - i
  {
    if i < n && v.readopen && i < killFrom && !v.Full() && i < |src| {
      PutKeeps(v, src[i]);
      var w := v.Put(src[i]);
      WriteLoopStores(w, src, n, i + 1, killFrom);
      var (t, j, o) := WriteLoop(w, src, n, i + 1, killFrom);
      assert src[i..j] == [src[i]] + if i + 1 < j then src[i + 1..j] else [];
    }
  }

  /** Exactly when a writer that has stored bytes leaves with -1: it is killed part-way. */
  lemma {:induction false} AbortsPartWay(v: View, src: seq<Byte>, n: int, i: nat, killFrom: nat)
    requires v.Valid()
    ensures var (t, j, o) := WriteLoop(v, src, n, i, killFrom);
      o.Aborted? && j > i <==>
        v.readopen && i < killFrom < n && killFrom <= |src| && killFrom - i <= |v.data| - |v.Buffered()|
    decreases n - i
  {
    TestsAreExact(v);
    if i < n && v.readopen && i < killFrom && !v.Full() && i < |src| {
      PutKeeps(v, src[i]);
      WriteLoopStores(v.Put(src[i]), src, n, i + 1, killFrom);
      AbortsPartWay(v.Put(src[i]), src, n, i + 1, killFrom);
    }
  }

  /** piperead()'s copy loop with the bytes `got` so far; copyout() has room for `room` bytes. */
  function ReadLoop(v: View, n: int, room: nat, got: seq<Byte>): (View, seq<Byte>)
    requires v.Sizes()
    decreases n - |got|
  {
    if |got| >= n || v.Empty() || |got| >= room then (v, got)
    else ReadLoop(v.Take(), n, room, got + [v.Head()])
  }

  /** What piperead() returns. */
  function ReadResult(v: View, n: int, room: nat): int
    requires v.Sizes()
  {
    if n > 0 && !v.Empty() && room == 0 then -1 else |ReadLoop(v, n, room, []).1|
  }

  /** The bytes taken are the oldest buffered; the others stay. */
  ghost predicate Takes(v: View, t: View, bytes: seq<Byte>)
  {
    && t == v.(nread := t.nread, taken := t.taken) && v.taken <= v.stored && t.taken <= t.stored
    && t.taken == v.taken + bytes && v.Buffered() == bytes + t.Buffered()
  }

  lemma TakesOneMore(v: View, t: View, bytes: seq<Byte>)
    requires v.Valid() && !v.Empty() && Takes(v.Take(), t, bytes)
    ensures Takes(v, t, [v.Head()] + bytes)
  {
    TakeKeeps(v);
  }

  /** The loop takes the oldest bytes, as many as are asked for, buffered and can be copied out. */
  lemma {:induction false} ReadLoopTakes(v: View, n: int, room: nat, got: seq<Byte>)
    requires v.Valid() && |got| <= n
    ensures var (t, all) := ReadLoop(v, n, room, got);
      && t.Valid() && got <= all && Takes(v, t, all[|got|..])
      && (|got| <= room ==> |all| == Min(Min(n, room), |got| + |v.Buffered()|))
    decreases n - |got|
  {
    TestsAreExact(v);
    if !(|got| >= n || v.Empty() || |got| >= room) {
      TakeKeeps(v);
      var next := got + [v.Head()];
      ReadLoopTakes(v.Take(), n, room, next);
      var (t, all) := ReadLoop(v.Take(), n, room, next);
      assert all[|got|..] == [v.Head()] + all[|next|..];
      TakesOneMore(v, t, all[|next|..]);
    }
  }

  /** A struct pipe. */
  class Pipe {
    var data: array<Byte>
    var nread: nat
    var nwrite: nat
    var readopen: bool
    var writeopen: bool
    const wrap: nat
    ghost var stored: seq<Byte>
    ghost var taken: seq<Byte>

    ghost function V(): View
      reads this, data
    {
      View(data[..], nread, nwrite, readopen, writeopen, wrap, stored, taken)
    }

    /** pipealloc() */
    constructor (size: nat, wrap: nat)
      requires 0 < size < wrap && wrap % size == 0
      ensures V().Valid() && V().Buffered() == [] && stored == [] && readopen && writeopen && fresh(data)
      ensures data.Length == size && this.wrap == wrap
    {
      data := new Byte[size];
      nread, nwrite, readopen, writeopen := 0, 0, true, true;
      this.wrap := wrap;
      stored, taken := [], [];
    }

    /** pipewrite() under the lock, from byte `from` on. */
    method WriteSpan(src: seq<Byte>, n: int, from: nat, killFrom: nat) returns (i: nat, o: Outcome)
      requires V().Valid()
      modifies this, data
      ensures data == old(data) && (V(), i, o) == WriteLoop(old(V()), src, n, from, killFrom)
      ensures V().Valid() && Stores(old(V()), V(), src, from, i)
      ensures o.Sleeps? ==> |V().Buffered()| == data.Length && readopen
    {
      WriteLoopStores(V(), src, n, from, killFrom);
      ghost var whole := WriteLoop(V(), src, n, from, killFrom);
      i, o := from, Finished;
      while i < n
        invariant data == old(data) && V().Valid() && from <= i && o.Finished?
        invariant WriteLoop(V(), src, n, i, killFrom) == whole
      {
        if !readopen || i >= killFrom {
          o := Aborted;
          break;
        }
        if nwrite == (nread + data.Length) % wrap {
          o := Sleeps;
          break;
        }
        if i >= |src| {
          break;
        }
        PutKeeps(V(), src[i]);
        ghost var next := V().Put(src[i]);
        data[nwrite % data.Length] := src[i];
        nwrite := (nwrite + 1) % wrap;
        stored := stored + [src[i]];
        assert V() == next;
        i := i + 1;
      }
      TestsAreExact(V());
    }

    /** piperead() under the lock, after its wait. */
    method ReadSpan(n: int, room: nat) returns (got: seq<Byte>, r: int)
      requires V().Valid()
      modifies this
      ensures (V(), got) == ReadLoop(old(V()), n, room, []) && r == ReadResult(old(V()), n, room)
      ensures V().Valid() && Takes(old(V()), V(), got)
    {
      if n >= 0 {
        ReadLoopTakes(V(), n, room, []);
      }
      ghost var v := V();
      got, r := [], 0;
      while r < n
        invariant V().Valid() && data == old(data) && |got| == r
        invariant ReadLoop(V(), n, room, got) == ReadLoop(v, n, room, [])
        invariant r == 0 ==> V() == v
      {
        if nread == nwrite {
          break;
        }
        var ch := data[nread % data.Length];
        if r >= room {
          if r == 0 {
            r := -1;
          }
          break;
        }
        TakeKeeps(V());
        ghost var next := V().Take();
        nread := (nread + 1) % wrap;
        taken := taken + [ch];
        assert V() == next;
        got := got + [ch];
        r := r + 1;
      }
    }
  }

  // ---------------------------------------------------------------- readers and writers

  /** Where a process is: in pipewrite() with its bytes so far at the positions `at` of the stream, in
      piperead(), or back from one of them. */
  datatype PC =
    | Idle
    | Writing(src: seq<Byte>, n: int, at: seq<nat>, waiting: bool)
    | Wrote(src: seq<Byte>, at: seq<nat>, r: int)
    | Reading(n: int, room: nat, asleep: bool)
    | Read(got: seq<Byte>, from: nat, r: int)

  datatype Proc = Proc(pc: PC, killed: bool)

  datatype Sys = Sys(v: View, procs: seq<Proc>)

  predicate Returned(pc: PC) { pc.Idle? || pc.Wrote? || pc.Read? }

  datatype Action =
    | StartWrite(src: seq<Byte>, n: int) | StartRead(n: int, room: nat)
    | WriteSpan(killFrom: nat) | ReadSpan(killed: bool)
    | Close(writable: bool) | Kill

  /** A process at a place before the lock, not asleep, may take the lock; killed() stays true. */
  predicate Enabled(s: Sys, p: nat, a: Action)
  {
    && p < |s.procs|
    && var x := s.procs[p];
       match a
       case StartWrite(_, _) => Returned(x.pc)
       case StartRead(_, _) => Returned(x.pc)
       case WriteSpan(killFrom) => x.pc.Writing? && !x.pc.waiting && (x.killed ==> killFrom <= |x.pc.at|)
       case ReadSpan(killed) => x.pc.Reading? && !x.pc.asleep && (x.killed ==> killed)
       case Close(_) => Returned(x.pc)
       case Kill => true
  }

  /** wakeup(&pi->nread) and wakeup(&pi->nwrite) */
  function WakeReader(x: Proc): Proc { if x.pc.Reading? then x.(pc := x.pc.(asleep := false)) else x }
  function WakeWriter(x: Proc): Proc { if x.pc.Writing? then x.(pc := x.pc.(waiting := false)) else x }

  function WakeReaders(ps: seq<Proc>): seq<Proc> { seq(|ps|, k requires 0 <= k < |ps| => WakeReader(ps[k])) }
  function WakeWriters(ps: seq<Proc>): seq<Proc> { seq(|ps|, k requires 0 <= k < |ps| => WakeWriter(ps[k])) }

  function Positions(from: nat, n: nat): seq<nat> { seq(n, k => from + k) }

  function NextWrite(s: Sys, p: nat, killFrom: nat): Sys
    requires s.v.Sizes() && Enabled(s, p, WriteSpan(killFrom))
  {
    var x := s.procs[p];
    var i := |x.pc.at|;
    var (t, j, o) := WriteLoop(s.v, x.pc.src, x.pc.n, i, killFrom);
    var at := x.pc.at + Positions(|s.v.stored|, if j > i then j - i else 0);
    match o
    case Finished => Sys(t, WakeReaders(s.procs)[p := x.(pc := Wrote(x.pc.src, at, j))])
    case Aborted => Sys(t, s.procs[p := Proc(Wrote(x.pc.src, at, -1), x.killed || j >= killFrom)])
    case Sleeps => Sys(t, WakeReaders(s.procs)[p := x.(pc := Writing(x.pc.src, x.pc.n, at, true))])
  }

  function NextRead(s: Sys, p: nat, killed: bool): Sys
    requires s.v.Sizes() && Enabled(s, p, ReadSpan(killed))
  {
    var x := s.procs[p].(killed := killed);
    if s.v.Empty() && s.v.writeopen then
      if killed then s.(procs := s.procs[p := x.(pc := Read([], |s.v.taken|, -1))])
      else s.(procs := s.procs[p := x.(pc := x.pc.(asleep := true))])
    else
      var (t, got) := ReadLoop(s.v, x.pc.n, x.pc.room, []);
      Sys(t, WakeWriters(s.procs)[p := x.(pc := Read(got, |s.v.taken|, ReadResult(s.v, x.pc.n, x.pc.room)))])
  }

  function Next(s: Sys, p: nat, a: Action): Sys
    requires s.v.Sizes() && Enabled(s, p, a)
  {
    var x := s.procs[p];
    match a
    case StartWrite(src, n) => s.(procs := s.procs[p := x.(pc := Writing(src, n, [], false))])
    case StartRead(n, room) => s.(procs := s.procs[p := x.(pc := Reading(n, room, false))])
    case WriteSpan(killFrom) => NextWrite(s, p, killFrom)
    case ReadSpan(killed) => NextRead(s, p, killed)
    case Close(writable) =>
      if writable then Sys(s.v.(writeopen := false), WakeReaders(s.procs))
      else Sys(s.v.(readopen := false), WakeWriters(s.procs))
    case Kill => s.(procs := s.procs[p := WakeReader(WakeWriter(x)).(killed := true)])
  }

  ghost predicate Boot(s: Sys)
  {
    && s.v.Sizes() && s.v.nread == s.v.nwrite == 0 && s.v.readopen && s.v.writeopen && s.v.stored == s.v.taken == []
    && forall p :: 0 <= p < |s.procs| ==> s.procs[p] == Proc(Idle, false)
  }

  ghost predicate IsRun(ss: seq<Sys>, who: seq<nat>, acts: seq<Action>)
  {
    && |ss| == |acts| + 1 == |who| + 1 && Boot(ss[0])
    && forall i :: 0 <= i < |acts| ==>
         ss[i].v.Sizes() && Enabled(ss[i], who[i], acts[i]) && ss[i + 1] == Next(ss[i], who[i], acts[i])
  }

  /** The bytes of src are in the stream, in order, at the positions `at`. */
  ghost predicate InOrder(src: seq<Byte>, at: seq<nat>, stored: seq<Byte>)
  {
    && (|at| == 0 || |at| <= |src|) && (forall k :: 0 <= k < |at| ==> at[k] < |stored| && stored[at[k]] == src[k])
    && forall k, l :: 0 <= k < l < |at| ==> at[k] < at[l]
  }

  ghost predicate ProcOk(v: View, x: Proc)
    requires v.Sizes()
  {
    match x.pc
    case Idle => true
    case Writing(src, n, at, waiting) =>
      InOrder(src, at, v.stored) && (waiting ==> v.Full() && v.readopen && !x.killed && |at| < n)
    case Wrote(src, at, r) => InOrder(src, at, v.stored) && (r == -1 || r == |at|)
    case Reading(_, _, asleep) => asleep ==> !x.killed
    case Read(got, from, r) =>
      && from + |got| <= |v.taken| && v.taken[from..from + |got|] == got
      && (r == |got| || (r == -1 && got == []))
  }

  ghost predicate Inv(s: Sys)
  {
    s.v.Valid() && forall p :: 0 <= p < |s.procs| ==> ProcOk(s.v, s.procs[p])
  }

  /** A process back from, or in, the loops is in order after more bytes have passed. */
  lemma ProcFrame(v: View, t: View, x: Proc)
    requires v.Sizes() && t.Sizes() && ProcOk(v, x) && v.stored <= t.stored && v.taken <= t.taken
    requires x.pc.Writing? && x.pc.waiting ==> t.Full() && t.readopen
    ensures ProcOk(t, x)
  {
    if x.pc.Read? {
      assert t.taken[x.pc.from..x.pc.from + |x.pc.got|] == v.taken[x.pc.from..x.pc.from + |x.pc.got|];
    }
  }

  lemma AtGrows(src: seq<Byte>, at: seq<nat>, v: View, t: View, j: nat)
    requires InOrder(src, at, v.stored) && Stores(v, t, src, |at|, j)
    ensures InOrder(src, at + Positions(|v.stored|, j - |at|), t.stored)
  {
  }

  /** A full pipe stays as it is: what the writer on the lock cannot change, sleepers need not see. */
  lemma {:induction false} FullStays(v: View, src: seq<Byte>, n: int, i: nat, killFrom: nat)
    requires v.Valid() && v.Full()
    ensures WriteLoop(v, src, n, i, killFrom).0 == v
  {
  }

  lemma WriteKeeps(s: Sys, p: nat, killFrom: nat)
    requires Inv(s) && Enabled(s, p, WriteSpan(killFrom))
    ensures Inv(Next(s, p, WriteSpan(killFrom)))
  {
    hide WriteLoop, InOrder;
    var x, u := s.procs[p], NextWrite(s, p, killFrom);
    var i := |x.pc.at|;
    var (t, j, o) := WriteLoop(s.v, x.pc.src, x.pc.n, i, killFrom);
    WriteLoopStores(s.v, x.pc.src, x.pc.n, i, killFrom);
    assert ProcOk(s.v, x);
    AtGrows(x.pc.src, x.pc.at, s.v, t, j);
    forall q | 0 <= q < |u.procs| ensures ProcOk(u.v, u.procs[q]) {
      if q != p {
        assert ProcOk(s.v, s.procs[q]);
        if s.procs[q].pc.Writing? && s.procs[q].pc.waiting {
          FullStays(s.v, x.pc.src, x.pc.n, i, killFrom);
        }
        ProcFrame(s.v, t, s.procs[q]);
      }
    }
  }

  lemma ReadKeeps(s: Sys, p: nat, killed: bool)
    requires Inv(s) && Enabled(s, p, ReadSpan(killed))
    ensures Inv(Next(s, p, ReadSpan(killed)))
  {
    var x, u := s.procs[p], NextRead(s, p, killed);
    var n, room := x.pc.n, x.pc.room;
    var (t, got) := ReadLoop(s.v, n, room, []);
    if n >= 0 {
      ReadLoopTakes(s.v, n, room, []);
    }
    assert Takes(s.v, t, got) && t.Valid();
    forall q | 0 <= q < |u.procs| ensures ProcOk(u.v, u.procs[q]) {
      assert ProcOk(s.v, s.procs[q]);
      if q != p && u.v == t {
        ProcFrame(s.v, t, WakeWriter(s.procs[q]));
      }
    }
  }

  lemma StepKeeps(s: Sys, p: nat, a: Action)
    requires Inv(s) && Enabled(s, p, a)
    ensures Inv(Next(s, p, a))
  {
    var u := Next(s, p, a);
    match a {
      case WriteSpan(killFrom) => WriteKeeps(s, p, killFrom);
      case ReadSpan(killed) => ReadKeeps(s, p, killed);
      case _ =>
        assert u.v.Valid() by {
          assert forall k :: |s.v.taken| <= k < |s.v.stored| ==> s.v.InRing(k) == u.v.InRing(k);
        }
        forall q | 0 <= q < |u.procs| ensures ProcOk(u.v, u.procs[q]) {
          assert ProcOk(s.v, s.procs[q]);
        }
    }
  }

  lemma {:induction false} RunKeeps(ss: seq<Sys>, who: seq<nat>, acts: seq<Action>, i: nat)
    requires IsRun(ss, who, acts) && i <= |acts|
    ensures Inv(ss[i])
  {
    if i > 0 {
      RunKeeps(ss, who, acts, i - 1);
      StepKeeps(ss[i - 1], who[i - 1], acts[i - 1]);
    }
  }

  lemma StreamStep(s: Sys, p: nat, a: Action)
    requires Inv(s) && Enabled(s, p, a)
    ensures s.v.stored <= Next(s, p, a).v.stored && s.v.taken <= Next(s, p, a).v.taken
  {
    var x := s.procs[p];
    if a.WriteSpan? {
      WriteLoopStores(s.v, x.pc.src, x.pc.n, |x.pc.at|, a.killFrom);
    } else if a.ReadSpan? && x.pc.n >= 0 {
      ReadLoopTakes(s.v, x.pc.n, x.pc.room, []);
    }
  }

  /** The stream, in any state of any run, however often the counters have wrapped: the bytes delivered
      followed by the bytes buffered are the bytes stored, and neither stream is ever revised. */
  lemma {:induction false} PipeStream(ss: seq<Sys>, who: seq<nat>, acts: seq<Action>, i: nat, k: nat)
    requires IsRun(ss, who, acts) && i <= k <= |acts|
    ensures Inv(ss[k]) && ss[k].v.taken + ss[k].v.Buffered() == ss[k].v.stored && |ss[k].v.Buffered()| <= |ss[k].v.data|
    ensures ss[i].v.stored <= ss[k].v.stored && ss[i].v.taken <= ss[k].v.taken
    decreases k - i
  {
    RunKeeps(ss, who, acts, k);
    if i < k {
      RunKeeps(ss, who, acts, k - 1);
      StreamStep(ss[k - 1], who[k - 1], acts[k - 1]);
      PipeStream(ss, who, acts, i, k - 1);
    }
  }

  /** `bytes` are the bytes of the stream from position `from` on. */
  ghost predicate PieceAt(stream: seq<Byte>, from: nat, bytes: seq<Byte>)
  {
    from + |bytes| <= |stream| && forall k :: 0 <= k < |bytes| ==> bytes[k] == stream[from + k]
  }

  /** Each read gets a contiguous piece of the stream; each write's bytes are in it, in order. */
  lemma CallsAgreeWithStream(ss: seq<Sys>, who: seq<nat>, acts: seq<Action>, i: nat, p: nat)
    requires IsRun(ss, who, acts) && i <= |acts| && p < |ss[i].procs|
    ensures var pc := ss[i].procs[p].pc;
      && (pc.Read? ==> PieceAt(ss[i].v.stored, pc.from, pc.got) && (pc.r >= 0 ==> pc.r == |pc.got|))
      && (pc.Wrote? ==> InOrder(pc.src, pc.at, ss[i].v.stored) && (pc.r >= 0 ==> pc.r == |pc.at|))
  {
    RunKeeps(ss, who, acts, i);
    assert ProcOk(ss[i].v, ss[i].procs[p]);
    ReadIsPiece(ss[i].v, ss[i].procs[p]);
  }

  lemma ReadIsPiece(v: View, x: Proc)
    requires v.Valid() && ProcOk(v, x)
    ensures x.pc.Read? ==> PieceAt(v.stored, x.pc.from, x.pc.got)
  {
    if x.pc.Read? {
      var from, got := x.pc.from, x.pc.got;
      forall k | 0 <= k < |got| ensures got[k] == v.stored[from + k] {
        assert got[k] == v.taken[from..from + |got|][k];
      }
    }
  }

  /** How many bytes a call that finds the pipe readable takes: as many as are asked for, can be copied
      out and are buffered. */
  function Delivered(n: int, room: nat, have: nat): (k: nat)
    ensures k <= room && k <= have && (n >= 0 ==> k <= n)
  {
    if n < 0 then 0 else Min(Min(n, room), have)
  }

  /** What one stretch of piperead() does, in every case.  Blocked on an empty pipe it changes nothing.
      Otherwise the bytes it does not deliver, also those a failing copyout stopped at, stay buffered
      in order; -1 means that the very first byte could not be copied out. */
  lemma ReadLosesNothing(s: Sys, p: nat, killed: bool)
    requires Inv(s) && Enabled(s, p, ReadSpan(killed))
    ensures s.v.taken <= s.v.stored
    ensures var pc, u, buffered := s.procs[p].pc, Next(s, p, ReadSpan(killed)), s.v.Buffered();
      var k := Delivered(pc.n, pc.room, |buffered|);
      if buffered == [] && s.v.writeopen then
        u.v == s.v && u.procs[p].pc == if killed then Read([], |s.v.taken|, -1) else pc.(asleep := true)
      else
        && u.v.taken <= u.v.stored && u.v.Buffered() == buffered[k..]
        && u.procs[p].pc.Read? && u.procs[p].pc.got == buffered[..k]
        && u.procs[p].pc.r == if pc.n > 0 && pc.room == 0 && buffered != [] then -1 else k
  {
    TestsAreExact(s.v);
    if !(s.v.Empty() && s.v.writeopen) {
      var pc := s.procs[p].pc;
      ReadLoopGets(s.v, pc.n, pc.room);
      hide ReadLoop, Delivered, View.Valid;
    }
  }

  /** The bytes a reader gets, and those that stay. */
  lemma ReadLoopGets(v: View, n: int, room: nat)
    requires v.Valid()
    ensures v.taken <= v.stored
    ensures var (t, got) := ReadLoop(v, n, room, []); var k := Delivered(n, room, |v.Buffered()|);
      t.taken <= t.stored && t.Buffered() == v.Buffered()[k..] && got == v.Buffered()[..k]
    ensures ReadResult(v, n, room) ==
      if n > 0 && room == 0 && v.Buffered() != [] then -1 else Delivered(n, room, |v.Buffered()|)
  {
    TestsAreExact(v);
    if n >= 0 {
      ReadLoopTakes(v, n, room, []);
    }
  }

  /** With the lock free, a writer asleep on &nwrite means the pipe is full and its read end open. */
  lemma SleepingWriterIsBlocked(ss: seq<Sys>, who: seq<nat>, acts: seq<Action>, i: nat, p: nat)
    requires IsRun(ss, who, acts) && i <= |acts| && p < |ss[i].procs| && ss[i].procs[p].pc.Writing?
    requires ss[i].procs[p].pc.waiting
    ensures |ss[i].v.taken| + |ss[i].v.data| == |ss[i].v.stored| && ss[i].v.readopen && !ss[i].procs[p].killed
  {
    RunKeeps(ss, who, acts, i);
    assert ProcOk(ss[i].v, ss[i].procs[p]);
    TestsAreExact(ss[i].v);
  }

  // ---------------------------------------------------------------- sleeping readers

  predicate ReaderAsleep(x: Proc) { x.pc.Reading? && x.pc.asleep }

  /** The mirror image for readers: asleep on &nread only while the pipe is empty and can be written. */
  ghost predicate ReadersBlocked(s: Sys)
  {
    forall p :: 0 <= p < |s.procs| && ReaderAsleep(s.procs[p]) ==> s.v.Empty() && s.v.writeopen
  }

  /** A writer killed after it has stored some bytes, while a reader sleeps: pipewrite() returns -1
      without a wakeup. */
  ghost predicate LeavesSilently(s: Sys, p: nat, a: Action)
    requires s.v.Sizes()
  {
    && Enabled(s, p, a) && a.WriteSpan? && (exists q :: 0 <= q < |s.procs| && ReaderAsleep(s.procs[q]))
    && var pc, i := s.procs[p].pc, |s.procs[p].pc.at|;
       && s.v.readopen && i < a.killFrom < pc.n && a.killFrom <= |pc.src|
       && a.killFrom - i <= |s.v.data| - (|s.v.stored| - |s.v.taken|)
  }

  lemma WritePreservesBlocked(s: Sys, p: nat, a: Action)
    requires Inv(s) && Enabled(s, p, a) && a.WriteSpan? && ReadersBlocked(s)
    ensures ReadersBlocked(Next(s, p, a)) <==> !LeavesSilently(s, p, a)
  {
    var x, u := s.procs[p], NextWrite(s, p, a.killFrom);
    var i := |x.pc.at|;
    var (t, j, o) := WriteLoop(s.v, x.pc.src, x.pc.n, i, a.killFrom);
    WriteLoopStores(s.v, x.pc.src, x.pc.n, i, a.killFrom);
    AbortsPartWay(s.v, x.pc.src, x.pc.n, i, a.killFrom);
    TestsAreExact(s.v);
    TestsAreExact(t);
    if o.Aborted? {
      assert forall q :: 0 <= q < |s.procs| ==> (ReaderAsleep(u.procs[q]) <==> ReaderAsleep(s.procs[q]));
    } else {
      assert forall q :: 0 <= q < |s.procs| ==> !ReaderAsleep(u.procs[q]);
    }
  }

  lemma ReadPreservesBlocked(s: Sys, p: nat, a: Action)
    requires Inv(s) && Enabled(s, p, a) && !a.WriteSpan? && ReadersBlocked(s)
    ensures ReadersBlocked(Next(s, p, a))
  {
    var u := Next(s, p, a);
    if a.ReadSpan? {
      var n, room := s.procs[p].pc.n, s.procs[p].pc.room;
      forall q | 0 <= q < |u.procs| && ReaderAsleep(u.procs[q]) ensures u.v.Empty() && u.v.writeopen {
        if q != p {
          assert ReaderAsleep(s.procs[q]);
        }
      }
    }
  }

  /** Exactly which runs keep the mirror image: those in which no writer leaves silently. */
  lemma {:induction false} ReadersBlockedExactly(ss: seq<Sys>, who: seq<nat>, acts: seq<Action>)
    requires IsRun(ss, who, acts)
    ensures (forall i :: 0 <= i < |ss| ==> ReadersBlocked(ss[i])) <==>
            (forall i :: 0 <= i < |acts| ==> !LeavesSilently(ss[i], who[i], acts[i]))
  {
    if forall i :: 0 <= i < |ss| ==> ReadersBlocked(ss[i]) {
      forall i | 0 <= i < |acts| ensures !LeavesSilently(ss[i], who[i], acts[i]) {
        RunKeeps(ss, who, acts, i);
        assert ReadersBlocked(ss[i]) && ReadersBlocked(ss[i + 1]);
        if acts[i].WriteSpan? {
          WritePreservesBlocked(ss[i], who[i], acts[i]);
        }
      }
    }
    if forall i :: 0 <= i < |acts| ==> !LeavesSilently(ss[i], who[i], acts[i]) {
      forall i | 0 <= i < |ss| ensures ReadersBlocked(ss[i]) {
        BlockedUpTo(ss, who, acts, i);
      }
    }
  }

  lemma {:induction false} BlockedUpTo(ss: seq<Sys>, who: seq<nat>, acts: seq<Action>, i: nat)
    requires IsRun(ss, who, acts) && i <= |acts| && forall k :: 0 <= k < |acts| ==>
      !LeavesSilently(ss[k], who[k], acts[k])
    ensures ReadersBlocked(ss[i])
  {
    if i > 0 {
      BlockedUpTo(ss, who, acts, i - 1);
      RunKeeps(ss, who, acts, i - 1);
      if acts[i - 1].WriteSpan? {
        WritePreservesBlocked(ss[i - 1], who[i - 1], acts[i - 1]);
      } else {
        ReadPreservesBlocked(ss[i - 1], who[i - 1], acts[i - 1]);
      }
    }
  }

  /** A run that loses it: a reader sleeps, a writer stores one of two bytes and is killed. */
  lemma ReaderLeftAsleep(s: Sys) returns (ss: seq<Sys>, who: seq<nat>, acts: seq<Action>)
    requires Boot(s) && |s.procs| == 2
    ensures IsRun(ss, who, acts) && ss[0] == s && !ReadersBlocked(ss[|acts|])
  {
    who, acts := [0, 0, 1, 1], [StartRead(1, 1), ReadSpan(false), StartWrite([1, 2], 2), WriteSpan(1)];
    var s1 := Next(s, 0, acts[0]);
    var s2 := Next(s1, 0, acts[1]);
    var s3 := Next(s2, 1, acts[2]);
    var s4 := Next(s3, 1, acts[3]);
    ss := [s, s1, s2, s3, s4];
    assert IsRun(ss, who, acts);
    RunKeeps(ss, who, acts, 3);
    assert s3.v == s.v && ReaderAsleep(s3.procs[0]);
    assert LeavesSilently(s3, 1, WriteSpan(1));
    WritePreservesBlocked(s3, 1, WriteSpan(1));
  }
}
