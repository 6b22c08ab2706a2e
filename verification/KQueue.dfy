/** The kernel event queue of kernel/proc.c: a ring of NEVENT events that drops its oldest event when
    a new one finds it full. */
module KQueue {
  import opened Basics
  import opened Modular

  const MAXEVENTNAME: nat := 32

  datatype Event = Event(pid: int, name: string, timestamp: nat)

  /** safestrcpy(): up to the first NUL, and at most n - 1 characters. */
  function SafeStr(s: string, n: nat): (r: string)
    requires n > 0
    ensures |r| < n && r <= s && '\0' !in r
    ensures |r| == |s| || s[|r|] == '\0' || |r| == n - 1
  {
    if s == "" || s[0] == '\0' || n == 1 then "" else [s[0]] + SafeStr(s[1..], n - 1)
  }

  /** A bounded first-in first-out queue that gives up its oldest element when full. */
  function Post<T>(q: seq<T>, e: T, cap: nat): (r: seq<T>)
    requires |q| <= cap && cap > 0
    ensures |r| <= cap
  {
    (if |q| == cap then q[1..] else q) + [e]
  }

  /** The slot k places after h in a ring of n, k at most n. */
  function Slot(h: nat, k: nat, n: nat): nat
    requires h < n && k <= n
  {
    if h + k < n then h + k else h + k - n
  }

  lemma SlotIsMod(h: nat, k: nat, n: nat)
    requires h < n && k <= n
    ensures Slot(h, k, n) == (h + k) % n
  {
    var x := Slot(h, k, n);
    if h + k < n {
      Euclid(h + k, n, 0, x);
    } else {
      Euclid(h + k, n, 1, x);
    }
  }

  /** The events of a ring, oldest first. */
  ghost function Ring(events: seq<Event>, head: nat, count: nat): (r: seq<Event>)
    requires head < |events| && count <= |events|
    ensures |r| == count
    decreases count
  {
    if count == 0 then [] else [events[head]] + Ring(events, Slot(head, 1, |events|), count - 1)
  }

  /** Storing just past the end appends. */
  lemma {:induction false} RingAppend(events: seq<Event>, head: nat, count: nat, e: Event)
    requires head < |events| && count < |events|
    ensures Ring(events[Slot(head, count, |events|) := e], head, count + 1) == Ring(events, head, count) + [e]
    decreases count
  {
    var n := |events|;
    var tail := Slot(head, count, n);
    if count > 0 {
      assert Slot(Slot(head, 1, n), count - 1, n) == tail && tail != head;
      RingAppend(events, Slot(head, 1, n), count - 1, e);
    }
  }

  class Queue {
    const n: nat  // NEVENT
    var events: seq<Event>
    var head: nat
    var tail: nat
    var count: nat

    /** Every event ever posted, in order, and the positions in it of the events handed out. */
    ghost var posted: seq<Event>
    ghost var taken: seq<nat>
    ghost var dropped: set<nat>

    ghost function Contents(): seq<Event>
      requires |events| == n && head < n && count <= n
      reads this
    {
      Ring(events, head, count)
    }

    /** The queue holds the most recently posted events; every earlier one was handed out or dropped,
        not both; and they were handed out in the order they were posted. */
    ghost predicate Valid()
      reads this
    {
      && n > 0 && |events| == n && head < n && count <= n
      && tail == (head + count) % n
      && count <= |posted| && Contents() == posted[|posted| - count..]
      && (forall i :: 0 <= i < |taken| ==> taken[i] < |posted| - count)
      && (forall i, j :: 0 <= i < j < |taken| ==> taken[i] < taken[j])
      && (forall k :: k in dropped <==> 0 <= k < |posted| - count && k !in taken)
      && |posted| == |taken| + |dropped| + count
    }

    /** kqueueinit(). */
    constructor (n: nat)
      requires n > 0
      ensures Valid() && this.n == n && Contents() == [] && posted == [] && taken == [] && dropped == {}
    {
      this.n := n;
      events := seq(n, i => Event(0, "", 0));
      head, tail, count := 0, 0, 0;
      posted, taken, dropped := [], [], {};
    }

    /** kqueue_post(): if the queue is full its oldest event goes; the new one comes last. */
    method KqueuePost(name: string, pid: int, time: nat)
      requires Valid()
      modifies this
      ensures Valid()
      ensures var e := Event(pid, SafeStr(name, MAXEVENTNAME), time);
        Contents() == Post(old(Contents()), e, n) && posted == old(posted) + [e]
      ensures taken == old(taken)
      ensures dropped == old(dropped) + if old(count) == n then {|old(posted)| - n} else {}
    {
      if count >= n {
        DropOldest();
      }
      Append(Event(pid, SafeStr(name, MAXEVENTNAME), time));
    }

    /** The full-queue branch of kqueue_post(). */
    method DropOldest()
      requires Valid() && count == n
      modifies this`head, this`count, this`dropped
      ensures Valid() && count == n - 1 && Contents() == old(Contents())[1..]
      ensures dropped == old(dropped) + {|posted| - n}
    {
      SlotIsMod(head, 1, n);
      SlotIsMod(head, count, n);
      dropped := dropped + {|posted| - count};
      head := (head + 1) % n;
      count := count - 1;
      SlotIsMod(head, count, n);
    }

    /** The rest of kqueue_post(). */
    method Append(e: Event)
      requires Valid() && count < n
      modifies this`events, this`tail, this`count, this`posted
      ensures Valid() && Contents() == old(Contents()) + [e] && posted == old(posted) + [e]
    {
      RingAppend(events, head, count, e);
      SlotIsMod(head, count, n);
      SlotIsMod(tail, 1, n);
      events := events[tail := e];
      tail := (tail + 1) % n;
      count := count + 1;
      SlotIsMod(head, count, n);
      posted := posted + [e];
    }

    /** kqueue_wait_internal() with the lock held: the oldest event leaves; None means that there is none
        and it sleeps, to look again. */
    method KqueueTake() returns (e: Option<Event>)
      requires Valid()
      modifies this
      ensures Valid() && posted == old(posted) && dropped == old(dropped)
      ensures e.None? <==> old(Contents()) == []
      ensures e.None? ==> Contents() == old(Contents()) && taken == old(taken)
      ensures e.Some? ==>
        && old(Contents()) == [e.value] + Contents() && taken == old(taken) + [|posted| - old(count)]
        && posted[|posted| - old(count)] == e.value
    {
      if count == 0 {
        return None;
      }
      SlotIsMod(head, 1, n);
      SlotIsMod(head, count, n);
      e := Some(events[head]);
      taken := taken + [|posted| - count];
      head := (head + 1) % n;
      count := count - 1;
      SlotIsMod(head, count, n);
    }
  }
}
