/** How many free pages the operations on an address space need: one for each new page of memory, and one
    for each table on the way to it that is not there yet.  With these counts every success and every
    failure for lack of memory is exact. */
module PageCost {
  import opened Basics
  import opened PageTable
  import opened VmModel

  /** A table below the root: a middle one, or a lowest one. */
  datatype Key = MidKey(i: nat) | LowKey(k: nat)

  /** The tables address space s has. */
  ghost function Have(s: Space): set<Key>
  {
    (set i | i in s.mid :: MidKey(i)) + (set k | k in s.low :: LowKey(k))
  }

  /** The tables on the way to virtual page u. */
  function Way(u: nat): set<Key> { {MidKey(u / 512 / 512), LowKey(u / 512)} }

  /** The table walk() goes to from that level. */
  function KeyAt(level: nat, u: nat): Key { if level == 2 then MidKey(u / 512 / 512) else LowKey(u / 512) }

  /** The tables walk() has been through before that level. */
  function Done(level: nat, u: nat): set<Key>
  {
    if level >= 2 then {} else if level == 1 then {MidKey(u / 512 / 512)} else Way(u)
  }

  /** The tables on the way to any of the virtual pages us. */
  ghost function Ways(us: set<nat>): set<Key>
  {
    (set u | u in us :: MidKey(u / 512 / 512)) + (set u | u in us :: LowKey(u / 512))
  }

  /** The virtual pages lo to hi. */
  function Pages(lo: nat, hi: nat): (us: set<nat>)
    ensures forall u :: u in us <==> lo <= u < hi
  {
    if hi <= lo then {} else Pages(lo, hi - 1) + {hi - 1}
  }

  /** The virtual pages below top that are mapped. */
  function MappedBelow(flat: map<nat, Pte>, top: nat): set<nat> { set u | u in flat && u < top }

  /** How many pages it takes to back the virtual pages us of s, which are unmapped. */
  ghost function Price(s: Space, us: set<nat>): nat { |us| + |Ways(us) - Have(s)| }

  /** There are enough free pages for n pages and the tables keys of a. */
  ghost predicate Affords(v: Mem, a: nat, keys: set<Key>, n: nat)
    requires a in v.spaces
  {
    |v.free| >= n + |keys - Have(v.spaces[a])|
  }

  /** From v to w, a has got just the tables `keys` and n free pages have gone besides. */
  ghost predicate Spent(v: Mem, w: Mem, a: nat, keys: set<Key>, n: nat)
  {
    && a in v.spaces && a in w.spaces && Have(w.spaces[a]) == Have(v.spaces[a]) + keys
    && |w.free| + n + |keys - Have(v.spaces[a])| == |v.free|
  }

  lemma {:induction false} SplitSize(k: set<Key>, l: set<Key>, h: set<Key>)
    ensures |(k + l) - h| == |k - h| + |l - (h + k)|
  {
    DisjointSize(k - h, l - (h + k));
    assert (k - h) + (l - (h + k)) == (k + l) - h;
  }

  lemma SpentTwice(v: Mem, w: Mem, x: Mem, a: nat, k: set<Key>, m: nat, l: set<Key>, n: nat)
    requires Spent(v, w, a, k, m) && Spent(w, x, a, l, n)
    ensures Spent(v, x, a, k + l, m + n)
  {
    SplitSize(k, l, Have(v.spaces[a]));
    assert Have(v.spaces[a]) + (k + l) == Have(v.spaces[a]) + k + l;
  }

  /** What is affordable after spending is what was affordable on top of it. */
  lemma AffordsRest(v: Mem, w: Mem, a: nat, k: set<Key>, m: nat, l: set<Key>, n: nat)
    requires Spent(v, w, a, k, m)
    ensures Affords(v, a, k + l, m + n) <==> Affords(w, a, l, n)
  {
    SplitSize(k, l, Have(v.spaces[a]));
  }

  lemma AffordsLess(v: Mem, a: nat, k: set<Key>, m: nat, l: set<Key>, n: nat)
    requires a in v.spaces && k <= l && m <= n && Affords(v, a, l, n)
    ensures Affords(v, a, k, m)
  {
    SubsetSize(k - Have(v.spaces[a]), l - Have(v.spaces[a]));
  }

  lemma SpentAffords(v: Mem, w: Mem, a: nat, k: set<Key>, n: nat)
    requires Spent(v, w, a, k, n)
    ensures Affords(v, a, k, n)
  {
  }

  lemma SpentNone(v: Mem, a: nat)
    requires a in v.spaces
    ensures Spent(v, v, a, {}, 0)
  {
    assert {} - Have(v.spaces[a]) == {};
  }

  lemma WaysMore(us: set<nat>, u: nat)
    ensures Ways(us + {u}) == Ways(us) + Way(u)
  {
    assert forall x :: x in Ways(us + {u}) <==> x in Ways(us) + Way(u);
  }

  lemma WaysNone()
    ensures Ways({}) == {}
  {
  }

  /** The price of some pages is what the tables on their ways and they themselves cost. */
  lemma PriceAffords(v: Mem, a: nat, us: set<nat>)
    requires a in v.spaces
    ensures |v.free| >= Price(v.spaces[a], us) <==> Affords(v, a, Ways(us), |us|)
  {
  }

  // ---------------------------------------------------------------- walk()

  lemma KeyThere(s: Space, level: nat, u: nat, p: nat)
    requires 1 <= level <= 2 && At(s, level - 1, u, p)
    ensures KeyAt(level, u) in Have(s)
  {
  }

  lemma KeyMissing(s: Space, level: nat, u: nat)
    requires 1 <= level <= 2 && (if level == 2 then u / 512 / 512 !in s.mid else u / 512 !in s.low)
    ensures KeyAt(level, u) !in Have(s)
  {
  }

  lemma StepThere(v: Mem, a: nat, key: Key)
    requires a in v.spaces && key in Have(v.spaces[a])
    ensures Spent(v, v, a, {key}, 0) && Affords(v, a, {key}, 0)
  {
    assert {key} - Have(v.spaces[a]) == {};
  }

  lemma StepPrice(v: Mem, a: nat, key: Key)
    requires a in v.spaces && key !in Have(v.spaces[a])
    ensures Affords(v, a, {key}, 0) <==> v.free != []
  {
    assert {key} - Have(v.spaces[a]) == {key};
  }

  lemma NewMidSpent(v: Mem, a: nat, i: nat)
    requires v.free != [] && v.free[0] in v.mem && a in v.spaces && i !in v.spaces[a].mid && i < 512
    requires IsTable(Fresh(v).mem, v.spaces[a].root)
    ensures Spent(v, Fresh(v).WithMid(a, i, v.free[0]), a, {MidKey(i)}, 0)
  {
    assert {MidKey(i)} - Have(v.spaces[a]) == {MidKey(i)};
    var s := Fresh(v).WithMid(a, i, v.free[0]).spaces[a];
    assert forall x :: x in Have(s) <==> x in Have(v.spaces[a]) + {MidKey(i)};
  }

  lemma NewLowSpent(v: Mem, a: nat, k: nat)
    requires v.free != [] && v.free[0] in v.mem && a in v.spaces && k !in v.spaces[a].low
    requires k / 512 in v.spaces[a].mid && IsTable(Fresh(v).mem, v.spaces[a].mid[k / 512])
    ensures Spent(v, Fresh(v).WithLow(a, k, v.free[0]), a, {LowKey(k)}, 0)
  {
    assert {LowKey(k)} - Have(v.spaces[a]) == {LowKey(k)};
    var s := Fresh(v).WithLow(a, k, v.free[0]).spaces[a];
    assert forall x :: x in Have(s) <==> x in Have(v.spaces[a]) + {LowKey(k)};
  }

  lemma WalkStarts(v: Mem, a: nat, u: nat)
    requires Inv(v) && a in v.spaces
    ensures Walked(v, v, a) && At(v.spaces[a], 2, u, v.spaces[a].root) && Spent(v, v, a, Done(2, u), 0)
  {
    hide Inv;
    WalkedSame(v, a);
    SpentNone(v, a);
  }

  lemma DoneMore(level: nat, u: nat)
    requires 1 <= level <= 2
    ensures Done(level, u) + {KeyAt(level, u)} == Done(level - 1, u) && Done(level - 1, u) <= Way(u)
  {
  }

  /** The next table cannot be had, so not all of them can. */
  lemma WalkFails(v: Mem, w: Mem, a: nat, level: nat, u: nat)
    requires 1 <= level <= 2 && Spent(v, w, a, Done(level, u), 0) && !Affords(w, a, {KeyAt(level, u)}, 0)
    ensures !Affords(v, a, Way(u), 0)
  {
    hide Spent, Affords;
    DoneMore(level, u);
    SpentIn(v, w, a, Done(level, u), 0);
    AffordsRest(v, w, a, Done(level, u), 0, {KeyAt(level, u)}, 0);
    if Affords(v, a, Way(u), 0) {
      AffordsLess(v, a, Done(level - 1, u), 0, Way(u), 0);
    }
  }

  /** The last table is there too. */
  lemma WalkGoesOn(v: Mem, w: Mem, x: Mem, a: nat, level: nat, u: nat)
    requires 1 <= level <= 2 && Spent(v, w, a, Done(level, u), 0) && Spent(w, x, a, {KeyAt(level, u)}, 0)
    ensures Spent(v, x, a, Done(level - 1, u), 0)
  {
    hide Spent;
    DoneMore(level, u);
    SpentTwice(v, w, x, a, Done(level, u), 0, {KeyAt(level, u)}, 0);
  }

  lemma LeafSpent(v: Mem, w: Mem, a: nat, u: nat, x: Pte, keys: set<Key>)
    requires Spent(v, w, a, keys, 0) && u / 512 in w.spaces[a].low && IsTable(w.mem, w.spaces[a].low[u / 512])
    ensures Spent(v, w.WithLeaf(a, u, x), a, keys, 0)
  {
    assert Have(w.WithLeaf(a, u, x).spaces[a]) == Have(w.spaces[a]);
  }

  lemma SpentIn(v: Mem, w: Mem, a: nat, k: set<Key>, n: nat)
    requires Spent(v, w, a, k, n)
    ensures a in v.spaces && a in w.spaces
  {
  }

  // ---------------------------------------------------------------- many pages

  /** One more page, after the pages us, which cost m besides their tables. */
  lemma SpentOnPages(v: Mem, w: Mem, x: Mem, a: nat, us: set<nat>, m: nat, u: nat, n: nat)
    requires Spent(v, w, a, Ways(us), m) && Spent(w, x, a, Way(u), n)
    ensures Spent(v, x, a, Ways(us + {u}), m + n)
  {
    hide Spent, Ways, Way;
    SpentTwice(v, w, x, a, Ways(us), m, Way(u), n);
    WaysMore(us, u);
  }

  lemma {:induction false} WaysLess(us: set<nat>, all: set<nat>)
    requires us <= all
    ensures Ways(us) <= Ways(all)
  {
  }

  /** Where it fails, so does the whole. */
  lemma PagesFail(v: Mem, w: Mem, a: nat, us: set<nat>, m: nat, u: nat, n: nat, all: set<nat>, total: nat)
    requires Spent(v, w, a, Ways(us), m) && a in w.spaces && !Affords(w, a, Way(u), n)
    requires us + {u} <= all && m + n <= total
    ensures a in v.spaces && !Affords(v, a, Ways(all), total)
  {
    hide Spent, Affords, Ways, Way;
    SpentIn(v, w, a, Ways(us), m);
    WaysMore(us, u);
    WaysLess(us + {u}, all);
    AffordsRest(v, w, a, Ways(us), m, Way(u), n);
    if Affords(v, a, Ways(all), total) {
      AffordsLess(v, a, Ways(us + {u}), m + n, Ways(all), total);
    }
  }

  lemma {:induction false} PagesSize(lo: nat, hi: nat)
    ensures |Pages(lo, hi)| == if hi <= lo then 0 else hi - lo
  {
    if hi > lo {
      PagesSize(lo, hi - 1);
    }
  }

  lemma PagesNext(lo: nat, k: nat)
    requires lo <= k
    ensures Pages(lo, k + 1) == Pages(lo, k) + {k}
  {
  }

  lemma SpentNoPages(v: Mem, a: nat, lo: nat)
    requires a in v.spaces
    ensures Spent(v, v, a, Ways(Pages(lo, lo)), 0)
  {
    WaysNone();
    SpentNone(v, a);
  }

  // The turns of mappages(), with n == 0, and of uvmalloc(), with n == 1.

  lemma RangeTurn(v: Mem, w: Mem, x: Mem, a: nat, lo: nat, k: nat, n: nat)
    requires lo <= k && Spent(v, w, a, Ways(Pages(lo, k)), n * (k - lo)) && Spent(w, x, a, Way(k), n)
    ensures Spent(v, x, a, Ways(Pages(lo, k + 1)), n * (k + 1 - lo))
  {
    hide Spent, Ways;
    PagesNext(lo, k);
    SpentOnPages(v, w, x, a, Pages(lo, k), n * (k - lo), k, n);
    assert n * (k + 1 - lo) == n * (k - lo) + n;
  }

  lemma RangeFails(v: Mem, w: Mem, a: nat, lo: nat, k: nat, hi: nat, n: nat)
    requires lo <= k < hi && n <= 1 && Spent(v, w, a, Ways(Pages(lo, k)), n * (k - lo)) && a in w.spaces
    requires !Affords(w, a, Way(k), n)
    ensures a in v.spaces && !Affords(v, a, Ways(Pages(lo, hi)), n * (hi - lo))
  {
    hide Spent, Ways, Affords;
    PagesFail(v, w, a, Pages(lo, k), n * (k - lo), k, n, Pages(lo, hi), n * (hi - lo));
  }

  lemma RangePrice(v: Mem, a: nat, lo: nat, hi: nat)
    requires a in v.spaces
    ensures |v.free| >= Price(v.spaces[a], Pages(lo, hi)) <==>
      Affords(v, a, Ways(Pages(lo, hi)), if lo <= hi then hi - lo else 0)
  {
    hide Ways, Have;
    PagesSize(lo, hi);
  }

  /** There are pages for virtual page u and for the tables on the way to it that are missing. */
  ghost predicate Backable(v: Mem, a: nat, u: nat)
    requires a in v.spaces
  {
    |v.free| >= Price(v.spaces[a], {u})
  }

  lemma PagePrice(v: Mem, a: nat, u: nat)
    requires a in v.spaces
    ensures Backable(v, a, u) <==> Affords(v, a, Way(u), 1)
  {
    WaysMore({}, u);
    assert {} + {u} == {u};
    WaysNone();
  }

  // A page got from the free list, and then mapped.

  lemma PlacedSpent(v: Mem, w: Mem, x: Mem, a: nat, keys: set<Key>)
    requires a in v.spaces && w.spaces == v.spaces && |w.free| + 1 == |v.free|
    ensures Affords(v, a, keys, 1) <==> Affords(w, a, keys, 0)
    ensures Spent(w, x, a, keys, 0) ==> Spent(v, x, a, keys, 1)
  {
  }

  lemma NoPage(v: Mem, a: nat, keys: set<Key>)
    requires a in v.spaces && v.free == []
    ensures !Affords(v, a, keys, 1)
  {
  }

  // ---------------------------------------------------------------- uvmcopy()

  /** The pages up to u that the parent has are copied, which took a page each besides the tables. */
  ghost predicate CopiedTo(v: Mem, w: Mem, a: nat, flat: map<nat, Pte>, u: nat)
  {
    Spent(v, w, a, Ways(MappedBelow(flat, u)), |MappedBelow(flat, u)|)
  }

  lemma CopyStarts(v: Mem, a: nat, flat: map<nat, Pte>)
    requires a in v.spaces
    ensures CopiedTo(v, v, a, flat, 0)
  {
    assert MappedBelow(flat, 0) == {};
    WaysNone();
    SpentNone(v, a);
  }

  lemma BelowNext(flat: map<nat, Pte>, u: nat)
    ensures MappedBelow(flat, u + 1) == if u in flat then MappedBelow(flat, u) + {u} else MappedBelow(flat, u)
    ensures u !in MappedBelow(flat, u)
  {
  }

  lemma CopyTurn(v: Mem, w: Mem, x: Mem, a: nat, flat: map<nat, Pte>, u: nat)
    requires CopiedTo(v, w, a, flat, u) && (if u in flat then Spent(w, x, a, Way(u), 1) else x == w)
    ensures CopiedTo(v, x, a, flat, u + 1)
  {
    hide Spent, Ways, MappedBelow, Way;
    BelowNext(flat, u);
    if u in flat {
      SpentOnPages(v, w, x, a, MappedBelow(flat, u), |MappedBelow(flat, u)|, u, 1);
    }
  }

  lemma CopyFails(v: Mem, w: Mem, a: nat, flat: map<nat, Pte>, u: nat, top: nat)
    requires CopiedTo(v, w, a, flat, u) && u in flat && u < top && a in w.spaces && !Affords(w, a, Way(u), 1)
    ensures a in v.spaces && |v.free| < Price(v.spaces[a], MappedBelow(flat, top))
  {
    hide Spent, Ways, Way, Affords;
    var us, all := MappedBelow(flat, u), MappedBelow(flat, top);
    BelowNext(flat, u);
    assert us + {u} <= all;
    SubsetSize(us + {u}, all);
    PagesFail(v, w, a, us, |us|, u, 1, all, |all|);
    PriceAffords(v, a, all);
  }

  lemma CopyEnds(v: Mem, w: Mem, a: nat, flat: map<nat, Pte>, top: nat)
    requires CopiedTo(v, w, a, flat, top)
    ensures a in v.spaces && |v.free| >= Price(v.spaces[a], MappedBelow(flat, top))
  {
    SpentIn(v, w, a, Ways(MappedBelow(flat, top)), |MappedBelow(flat, top)|);
    PriceAffords(v, a, MappedBelow(flat, top));
    SpentAffords(v, w, a, Ways(MappedBelow(flat, top)), |MappedBelow(flat, top)|);
  }

  // ---------------------------------------------------------------- new address spaces

  /** Address space a has just been made, of one page: a root and nothing below it. */
  ghost predicate Bare(v: Mem, w: Mem, a: nat)
  {
    a in w.spaces && Have(w.spaces[a]) == {} && |w.free| + 1 == |v.free|
  }

  /** Address space a has been made of three pages: the root and the tables on the way to TRAPFRAME. */
  ghost predicate Made(v: Mem, w: Mem, a: nat)
  {
    a in w.spaces && Have(w.spaces[a]) == Way(TRAPFRAME) && |w.free| + 3 == |v.free|
  }

  lemma TopWay()
    ensures Way(TRAMPOLINE) == Way(TRAPFRAME) && |Way(TRAPFRAME)| == 2
  {
  }

  lemma FirstMapped(v: Mem, w: Mem, a: nat)
    requires Bare(v, w, a)
    ensures Affords(w, a, Way(TRAMPOLINE), 0) <==> |v.free| >= 3
  {
    TopWay();
    assert Way(TRAMPOLINE) - {} == Way(TRAMPOLINE);
  }

  /** The trapframe's tables are the trampoline's. */
  lemma SecondMapped(v: Mem, w: Mem, x: Mem, a: nat)
    requires Bare(v, w, a) && Spent(w, x, a, Way(TRAMPOLINE), 0)
    ensures a in x.spaces && (Affords(x, a, Way(TRAPFRAME), 0) <==> |v.free| >= 3)
  {
    TopWay();
    assert Way(TRAMPOLINE) - {} == Way(TRAMPOLINE);
    assert {} + Way(TRAMPOLINE) == Way(TRAMPOLINE);
    assert Way(TRAPFRAME) - Have(x.spaces[a]) == {};
  }

  lemma BothMapped(v: Mem, w: Mem, x: Mem, y: Mem, a: nat)
    requires Bare(v, w, a) && Spent(w, x, a, Way(TRAMPOLINE), 0) && Spent(x, y, a, Way(TRAPFRAME), 0)
    ensures Made(v, y, a)
  {
    TopWay();
    assert Way(TRAMPOLINE) - {} == Way(TRAMPOLINE);
    assert {} + Way(TRAMPOLINE) == Way(TRAMPOLINE);
    assert Way(TRAPFRAME) - Have(x.spaces[a]) == {};
  }

  lemma BareSpace(v: Mem, w: Mem, a: nat)
    requires |w.free| + 1 == |v.free| && a in w.spaces && w.spaces[a].mid == map[] && w.spaces[a].low == map[]
    ensures Bare(v, w, a)
  {
  }

  /** What fork takes: a trapframe, a root, the two tables at the top, and a copy of each page of the
      parent with the tables on the way to it that these two are not. */
  ghost function ForkPrice(s: Space, sz: nat): nat
  {
    var us := MappedBelow(s.flat, Up(sz));
    4 + |us| + |Ways(us) - Way(TRAPFRAME)|
  }

  lemma ForkTakesFour(s: Space, sz: nat)
    ensures ForkPrice(s, sz) >= 4
  {
  }

  lemma ForkPriceIs(v: Mem, w: Mem, x: Mem, np: nat, s: Space, sz: nat)
    requires |w.free| + 1 == |v.free| && Made(w, x, np)
    ensures |v.free| >= ForkPrice(s, sz) <==> |x.free| >= Price(x.spaces[np], MappedBelow(s.flat, Up(sz)))
  {
  }
}
