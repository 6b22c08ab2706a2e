/** What the operations of kernel/vm.c, and the process-level operations of kernel/proc.c and
    kernel/sysproc.c on memory, change and keep: the lemmas behind the class of module Vm. */
module VmModel {
  import opened Basics
  import opened PageFree
  import opened PageTable

  /** PX(level, va) for virtual page u. */
  function PX(level: nat, u: nat): (i: nat)
    ensures i < 512
  {
    if level == 2 then u / 512 / 512 % 512 else if level == 1 then u / 512 % 512 else u % 512
  }

  /** Table pt is the one of that level on the way to virtual page u. */
  ghost predicate At(s: Space, level: nat, u: nat, pt: nat)
  {
    if level == 2 then pt == s.root
    else if level == 1 then u / 512 / 512 in s.mid && pt == s.mid[u / 512 / 512]
    else u / 512 in s.low && pt == s.low[u / 512]
  }

  // ---------------------------------------------------------------- what walk() may change

  ghost predicate Extends(m: map<nat, nat>, m': map<nat, nat>)
  {
    forall i :: i in m ==> i in m' && m'[i] == m[i]
  }

  /** Address space a may have got more tables, made of free pages, and nothing else has changed. */
  ghost predicate Walked(v: Mem, w: Mem, a: nat)
  {
    && a in v.spaces && a in w.spaces && w.spaces == v.spaces[a := w.spaces[a]]
    && w.spaces[a].root == v.spaces[a].root && w.spaces[a].flat == v.spaces[a].flat
    && Extends(v.spaces[a].mid, w.spaces[a].mid) && Extends(v.spaces[a].low, w.spaces[a].low)
    && w.role.Keys == v.role.Keys && v.mem.Keys == v.role.Keys && w.mem.Keys == v.mem.Keys
    && forall p :: p in v.role ==>
         if v.role[p].Free? then w.role[p].Free? || TableOf(w.role[p], a)
         else w.role[p] == v.role[p] && (w.mem[p] == v.mem[p] || TableOf(v.role[p], a))
  }

  lemma WalkedTwice(v: Mem, w: Mem, x: Mem, a: nat)
    requires Walked(v, w, a) && Walked(w, x, a)
    ensures Walked(v, x, a)
  {
  }

  lemma WalkedRoot(v: Mem, w: Mem, a: nat)
    requires Walked(v, w, a)
    ensures a in v.spaces && a in w.spaces
  {
  }

  lemma InvFree(v: Mem)
    requires Inv(v)
    ensures FreeOk(v)
  {
  }

  lemma WalkedSame(v: Mem, a: nat)
    requires Inv(v) && a in v.spaces
    ensures Walked(v, v, a)
  {
  }

  // walk() adding a table: a free page is zeroed and linked.

  ghost function Fresh(v: Mem): Mem
    requires v.free != [] && v.free[0] in v.mem
  {
    v.Taken().Written(v.free[0], ZeroTable())
  }

  ghost predicate CanAddMid(v: Mem, a: nat, i: nat)
  {
    && Inv(v) && v.free != [] && v.free[0] in v.mem && a in v.spaces && i < 512 && i !in v.spaces[a].mid
    && IsTable(Fresh(v).mem, v.spaces[a].root)
  }

  ghost predicate CanAddLow(v: Mem, a: nat, k: nat)
  {
    && Inv(v) && v.free != [] && v.free[0] in v.mem && a in v.spaces && k / 512 in v.spaces[a].mid
    && k !in v.spaces[a].low
    && IsTable(Fresh(v).mem, v.spaces[a].mid[k / 512])
  }

  lemma CanAdd(v: Mem, a: nat)
    requires Inv(v) && v.free != [] && a in v.spaces
    ensures FreeAt(v, 0) && v.free[0] in v.mem && IsTable(Fresh(v).mem, v.spaces[a].root)
    ensures forall i :: i in v.spaces[a].mid ==> IsTable(Fresh(v).mem, v.spaces[a].mid[i])
  {
    assert SpaceOk(v.mem, v.role, a, v.spaces[a]);
    assert FreeAt(v, 0);
    forall i | i in v.spaces[a].mid ensures IsTable(Fresh(v).mem, v.spaces[a].mid[i]) {
      assert MidOk(v.mem, v.role, a, v.spaces[a], i);
    }
  }

  /** A free page p has become a held page of zeroes. */
  ghost predicate Zeroed(v: Mem, w: Mem, p: nat)
  {
    && w.spaces == v.spaces && w.role.Keys == v.role.Keys && w.mem.Keys == v.mem.Keys && v.mem.Keys == v.role.Keys
    && p in v.role && v.role[p].Free? && w.role[p].Held? && w.mem[p] == ZeroTable()
    && forall q :: q in v.role && q != p ==> w.role[q] == v.role[q] && w.mem[q] == v.mem[q]
  }

  /** A free page taken and filled with x. */
  ghost function FilledWith(v: Mem, x: Page): Mem
    requires v.free != [] && v.free[0] in v.mem
  {
    v.Taken().Written(v.free[0], x)
  }

  lemma FirstFree(v: Mem)
    requires FreeOk(v) && v.free != []
    ensures FreeAt(v, 0)
  {
  }

  lemma FilledInv(v: Mem, x: Page)
    requires Inv(v) && v.free != [] && v.free[0] in v.mem
    ensures Inv(FilledWith(v, x))
  {
    hide Inv, FreeOk, OnlySpare;
    InvFree(v);
    FirstFree(v);
    TakenKeeps(v);
    SpareKeeps(v, v.Taken());
    WrittenKeeps(v.Taken(), v.free[0], x);
    SpareKeeps(v.Taken(), FilledWith(v, x));
  }

  lemma ZeroedKeeps(v: Mem)
    requires Inv(v) && v.free != [] && v.free[0] in v.mem
    ensures Inv(Fresh(v)) && Zeroed(v, Fresh(v), v.free[0])
  {
    hide Inv, OnlySpare;
    FilledInv(v, ZeroTable());
    InvFree(v);
    FirstFree(v);
  }

  lemma MidWalked(v: Mem, w: Mem, a: nat, i: nat, p: nat)
    requires Zeroed(v, w, p) && a in w.spaces && i < 512 && i !in w.spaces[a].mid && IsTable(w.mem, w.spaces[a].root)
    requires w.spaces[a].root in w.role && w.role[w.spaces[a].root] == Root(a)
    ensures Walked(v, w.WithMid(a, i, p), a)
  {
  }

  lemma LowWalked(v: Mem, w: Mem, a: nat, k: nat, p: nat)
    requires Zeroed(v, w, p) && a in w.spaces && k / 512 in w.spaces[a].mid && k !in w.spaces[a].low
    requires IsTable(w.mem, w.spaces[a].mid[k / 512])
    requires w.spaces[a].mid[k / 512] in w.role && w.role[w.spaces[a].mid[k / 512]] == Mid(a, k / 512)
    ensures Walked(v, w.WithLow(a, k, p), a)
  {
  }

  lemma NewMidKeeps(v: Mem, a: nat, i: nat)
    requires CanAddMid(v, a, i)
    ensures Inv(Fresh(v).WithMid(a, i, v.free[0])) && Walked(v, Fresh(v).WithMid(a, i, v.free[0]), a)
  {
    ZeroedKeeps(v);
    var w := Fresh(v);
    assert SpaceOk(w.mem, w.role, a, w.spaces[a]);
    WithMidKeeps(w, a, i, v.free[0]);
    MidWalked(v, w, a, i, v.free[0]);
  }

  lemma NewLowKeeps(v: Mem, a: nat, k: nat)
    requires CanAddLow(v, a, k)
    ensures Inv(Fresh(v).WithLow(a, k, v.free[0])) && Walked(v, Fresh(v).WithLow(a, k, v.free[0]), a)
  {
    ZeroedKeeps(v);
    var w := Fresh(v);
    assert SpaceOk(w.mem, w.role, a, w.spaces[a]);
    assert MidOk(w.mem, w.role, a, w.spaces[a], k / 512);
    WithLowKeeps(w, a, k, v.free[0]);
    LowWalked(v, w, a, k, v.free[0]);
  }

  lemma RootFacts(v: Mem, a: nat)
    requires Inv(v) && a in v.spaces
    ensures IsTable(v.mem, v.spaces[a].root) && forall i :: 0 <= i < 512 ==>
      v.mem[v.spaces[a].root].e[i] == LinkTo(v.spaces[a].mid, i)
  {
    assert SpaceOk(v.mem, v.role, a, v.spaces[a]);
  }

  lemma MidFacts(v: Mem, a: nat, i: nat)
    requires Inv(v) && a in v.spaces && i in v.spaces[a].mid
    ensures IsTable(v.mem, v.spaces[a].mid[i])
    ensures forall j :: 0 <= j < 512 ==> v.mem[v.spaces[a].mid[i]].e[j] == LinkTo(v.spaces[a].low, i * 512 + j)
  {
    assert SpaceOk(v.mem, v.role, a, v.spaces[a]);
    assert MidOk(v.mem, v.role, a, v.spaces[a], i);
  }

  /** What the entry on the way to u says. */
  lemma EntryMeans(v: Mem, a: nat, level: nat, u: nat, pt: nat)
    requires Inv(v) && a in v.spaces && u < MAXPAGE && 1 <= level <= 2 && At(v.spaces[a], level, u, pt)
    ensures IsTable(v.mem, pt)
    ensures var e := v.mem[pt].e[PX(level, u)];
      && (e.valid ==> At(v.spaces[a], level - 1, u, e.page))
      && (!e.valid ==> u / 512 !in v.spaces[a].low && (level == 2 ==> u / 512 / 512 !in v.spaces[a].mid))
  {
    hide Inv;
    RootFacts(v, a);
    if u / 512 in v.spaces[a].low {
      LowIsTable(v, a, u / 512);
    }
    if level == 1 {
      MidFacts(v, a, u / 512 / 512);
      assert u / 512 == u / 512 / 512 * 512 + u / 512 % 512;
    }
  }

  // ---------------------------------------------------------------- what the operations may change

  predicate Within(r: Role, a: nat, lo: nat, hi: nat) { r.User? && r.a == a && lo <= r.u < hi }

  ghost predicate SameLeaf(f: map<nat, Pte>, g: map<nat, Pte>, u: nat)
  {
    (u in g <==> u in f) && LeafAt(g, u) == LeafAt(f, u)
  }

  /** Outside virtual pages lo to hi of address space a, and the pages in `given`, everything is as it
      was, except that free pages may have become pages of a. */
  ghost predicate Keeps(v: Mem, w: Mem, a: nat, lo: nat, hi: nat, given: set<nat>)
  {
    && a in v.spaces && a in w.spaces && w.spaces == v.spaces[a := w.spaces[a]]
    && w.spaces[a].root == v.spaces[a].root && Extends(v.spaces[a].mid, w.spaces[a].mid)
    && Extends(v.spaces[a].low, w.spaces[a].low)
    && (forall u: nat :: u < lo || hi <= u ==> SameLeaf(v.spaces[a].flat, w.spaces[a].flat, u))
    && w.role.Keys == v.role.Keys && v.mem.Keys == v.role.Keys && w.mem.Keys == w.role.Keys
    && forall p :: p in v.role ==> PageKept(v, w, p, a, lo, hi, given)
  }

  ghost predicate PageKept(v: Mem, w: Mem, p: nat, a: nat, lo: nat, hi: nat, given: set<nat>)
    requires p in v.role && p in w.role && p in v.mem && p in w.mem
  {
    p in given ||
    if v.role[p].Free? || Within(v.role[p], a, lo, hi) then w.role[p].Free? || Of(w.role[p], a)
    else w.role[p] == v.role[p] && (w.mem[p] == v.mem[p] || TableOf(v.role[p], a))
  }

  lemma KeepsTwice(v: Mem, w: Mem, x: Mem, a: nat, lo: nat, hi: nat, given: set<nat>)
    requires Keeps(v, w, a, lo, hi, given) && Keeps(w, x, a, lo, hi, given)
    ensures Keeps(v, x, a, lo, hi, given)
  {
    forall u: nat | u < lo || hi <= u ensures SameLeaf(v.spaces[a].flat, x.spaces[a].flat, u) {
      assert SameLeaf(v.spaces[a].flat, w.spaces[a].flat, u) && SameLeaf(w.spaces[a].flat, x.spaces[a].flat, u);
    }
    forall p | p in v.role ensures PageKept(v, x, p, a, lo, hi, given) {
      assert PageKept(v, w, p, a, lo, hi, given) && PageKept(w, x, p, a, lo, hi, given);
    }
  }

  lemma KeepsWider(v: Mem, w: Mem, a: nat, lo: nat, hi: nat, given: set<nat>, lo': nat, hi': nat, given': set<nat>)
    requires Keeps(v, w, a, lo, hi, given) && given <= given' && (lo >= hi || (lo' <= lo && hi <= hi'))
    ensures Keeps(v, w, a, lo', hi', given')
  {
    forall p | p in v.role ensures PageKept(v, w, p, a, lo', hi', given') {
      assert PageKept(v, w, p, a, lo, hi, given);
    }
  }

  lemma WalkedKeeps(v: Mem, w: Mem, a: nat)
    requires Walked(v, w, a)
    ensures Keeps(v, w, a, 0, 0, {})
  {
  }

  lemma KeepsSame(v: Mem, a: nat)
    requires a in v.spaces && v.mem.Keys == v.role.Keys
    ensures Keeps(v, v, a, 0, 0, {})
  {
  }

  /** The page whose role mapping u changes. */
  function Backing(u: nat, page: nat): set<nat> { if Owned(u) then {page} else {} }

  lemma LeafKeeps(v: Mem, a: nat, u: nat, x: Pte)
    requires a in v.spaces && u / 512 in v.spaces[a].low && v.mem.Keys == v.role.Keys
    requires var t := v.spaces[a].low[u / 512]; IsTable(v.mem, t) && v.role[t] == Low(a, u / 512)
    requires Owned(u) ==> x.page in v.role && v.role[x.page].Held?
    ensures Keeps(v, v.WithLeaf(a, u, x), a, u, u + 1, Backing(u, x.page))
    ensures Owned(u) ==> v.WithLeaf(a, u, x).mem[x.page] == v.mem[x.page]
  {
  }

  /** Virtual pages lo to lo + n map to pages from page on. */
  ghost predicate MapsTo(flat: map<nat, Pte>, lo: nat, n: nat, page: nat, perm: Perm)
  {
    forall i :: lo <= i < lo + n ==> i in flat && flat[i] == Pte(true, perm, page + (i - lo))
  }

  lemma WalkedFacts(v: Mem, w: Mem, a: nat, u: nat, p: nat)
    requires Walked(v, w, a) && u !in v.spaces[a].flat
    ensures a in w.spaces && u !in w.spaces[a].flat && w.mem.Keys == w.role.Keys
    ensures p in v.role && v.role[p].Held? ==>
      p in v.mem && p in w.mem && p in w.role && w.role[p].Held? && w.mem[p] == v.mem[p]
  {
  }

  /** The entry walk() found for u is free, and may be filled in. */
  lemma MapEntry(v: Mem, w: Mem, a: nat, u: nat, x: Pte, low: nat)
    requires Inv(w) && Walked(v, w, a) && u < MAXPAGE && u !in v.spaces[a].flat && At(w.spaces[a], 0, u, low) && x.valid
    requires Owned(u) ==> x.page in v.role && v.role[x.page].Held?
    ensures IsTable(w.mem, low) && w.mem[low].e[u % 512] == zeroPte && low in w.role && w.role[low] == Low(a, u / 512)
    ensures CanLeaf(w, a, u, x) && w.mem.Keys == w.role.Keys
    ensures Owned(u) ==>
      x.page in v.mem && x.page in w.mem && x.page in w.role && w.role[x.page].Held? && w.mem[x.page] == v.mem[x.page]
  {
    hide Inv, Walked;
    WalkedFacts(v, w, a, u, x.page);
    LowIsTable(w, a, u / 512);
    assert w.mem[low].e[u % 512] == LeafAt(w.spaces[a].flat, u);
  }

  lemma MapFacts(v: Mem, w: Mem, a: nat, u: nat, x: Pte, low: nat)
    requires Inv(w) && Walked(v, w, a) && u < MAXPAGE && u !in v.spaces[a].flat && At(w.spaces[a], 0, u, low) && x.valid
    requires Owned(u) ==> x.page in v.role && v.role[x.page].Held?
    ensures IsTable(w.mem, low) && w.mem[low].e[u % 512] == zeroPte
    ensures Inv(w.WithLeaf(a, u, x)) && Keeps(v, w.WithLeaf(a, u, x), a, u, u + 1, Backing(u, x.page))
    ensures Owned(u) ==>
      x.page in v.mem && x.page in w.WithLeaf(a, u, x).mem && w.WithLeaf(a, u, x).mem[x.page] == v.mem[x.page]
  {
    hide Inv, Walked, Keeps, CanLeaf;
    MapEntry(v, w, a, u, x, low);
    WalkedKeeps(v, w, a);
    WithLeafKeeps(w, a, u, x);
    LeafKeeps(w, a, u, x);
    KeepsWider(v, w, a, 0, 0, {}, u, u + 1, Backing(u, x.page));
    KeepsTwice(v, w, w.WithLeaf(a, u, x), a, u, u + 1, Backing(u, x.page));
  }

  /** The n pages from `page` on. */
  function PagesFrom(page: nat, n: nat): set<nat> { if n == 0 then {} else PagesFrom(page, n - 1) + {page + n - 1} }

  /** Virtual page i is unmapped and page p, if i is to own it, is held. */
  ghost predicate CanMap(v: Mem, a: nat, i: nat, p: nat)
  {
    a in v.spaces && i < MAXPAGE && i !in v.spaces[a].flat && (Owned(i) ==> p in v.role && v.role[p].Held?)
  }

  ghost predicate CanMapAt(v: Mem, a: nat, u: nat, p: nat, i: nat) { CanMap(v, a, u + i, p + i) }

  lemma CanMapStill(v: Mem, w: Mem, a: nat, i: nat, p: nat, lo: nat, given: set<nat>)
    requires CanMap(v, a, i, p) && Keeps(v, w, a, lo, lo + 1, given) && i != lo && p !in given
    ensures CanMap(w, a, i, p)
  {
    assert SameLeaf(v.spaces[a].flat, w.spaces[a].flat, i);
    assert Owned(i) ==> PageKept(v, w, p, a, lo, lo + 1, given);
  }

  lemma CanMapRest(v: Mem, w: Mem, a: nat, u: nat, page: nat, k: nat, n: nat)
    requires Keeps(v, w, a, u + k, u + k + 1, {page + k}) && forall i :: k <= i < n ==> CanMapAt(v, a, u, page, i)
    ensures forall i :: k + 1 <= i < n ==> CanMapAt(w, a, u, page, i)
  {
    hide Keeps, CanMap;
    forall i | k + 1 <= i < n ensures CanMapAt(w, a, u, page, i) {
      assert CanMapAt(v, a, u, page, i);
      CanMapStill(v, w, a, u + i, page + i, u + k, {page + k});
    }
  }

  /** The steps of mappages() put together. */
  lemma MappedMore(v: Mem, w: Mem, x: Mem, a: nat, u: nat, k: nat, page: nat, perm: Perm)
    requires Keeps(v, w, a, u, u + k, PagesFrom(page, k)) && MapsTo(w.spaces[a].flat, u, k, page, perm)
    requires Keeps(w, x, a, u + k, u + k + 1, {page + k}) && MapsTo(x.spaces[a].flat, u + k, 1, page + k, perm)
    ensures Keeps(v, x, a, u, u + k + 1, PagesFrom(page, k + 1)) && MapsTo(x.spaces[a].flat, u, k + 1, page, perm)
  {
    KeepsWider(v, w, a, u, u + k, PagesFrom(page, k), u, u + k + 1, PagesFrom(page, k + 1));
    KeepsWider(w, x, a, u + k, u + k + 1, {page + k}, u, u + k + 1, PagesFrom(page, k + 1));
    KeepsTwice(v, w, x, a, u, u + k + 1, PagesFrom(page, k + 1));
    forall i | u <= i < u + k + 1
      ensures i in x.spaces[a].flat && x.spaces[a].flat[i] == Pte(true, perm, page + (i - u))
    {
      assert i < u + k ==> SameLeaf(w.spaces[a].flat, x.spaces[a].flat, i);
    }
  }

  lemma MappedNone(v: Mem, a: nat, u: nat, page: nat, perm: Perm)
    requires a in v.spaces && v.mem.Keys == v.role.Keys
    ensures Keeps(v, v, a, u, u, PagesFrom(page, 0)) && MapsTo(v.spaces[a].flat, u, 0, page, perm)
  {
    KeepsSame(v, a);
    KeepsWider(v, v, a, 0, 0, {}, u, u, PagesFrom(page, 0));
  }

  lemma CanMapFacts(v: Mem, a: nat, i: nat, p: nat)
    requires CanMap(v, a, i, p)
    ensures a in v.spaces && i < MAXPAGE && i !in v.spaces[a].flat && (Owned(i) ==> p in v.role && v.role[p].Held?)
  {
  }

  lemma KeepsRoot(v: Mem, w: Mem, a: nat, lo: nat, hi: nat, given: set<nat>)
    requires Keeps(v, w, a, lo, hi, given)
    ensures a in v.spaces && a in w.spaces && w.spaces[a].root == v.spaces[a].root
    ensures w.spaces == v.spaces[a := w.spaces[a]]
  {
  }

  lemma MapsToStill(v: Mem, w: Mem, a: nat, u: nat, k: nat, page: nat, perm: Perm)
    requires Keeps(v, w, a, u + k, u + k, {}) && MapsTo(v.spaces[a].flat, u, k, page, perm)
    ensures MapsTo(w.spaces[a].flat, u, k, page, perm)
  {
    forall i | u <= i < u + k ensures i in w.spaces[a].flat && w.spaces[a].flat[i] == Pte(true, perm, page + (i - u)) {
      assert SameLeaf(v.spaces[a].flat, w.spaces[a].flat, i);
    }
  }

  // ---------------------------------------------------------------- unmapping

  lemma FlatFacts(v: Mem, a: nat, u: nat)
    requires Inv(v) && a in v.spaces
    ensures u in v.spaces[a].flat ==> u / 512 in v.spaces[a].low && v.spaces[a].flat[u].valid
  {
    assert SpaceOk(v.mem, v.role, a, v.spaces[a]);
    assert u in v.spaces[a].flat ==> FlatOk(v.role, a, v.spaces[a], u);
  }

  /** What walk() and the entry it finds say about whether u is mapped. */
  lemma UnmapFacts(v: Mem, a: nat, u: nat)
    requires Inv(v) && a in v.spaces && u < MAXPAGE
    ensures u / 512 !in v.spaces[a].low ==> u !in v.spaces[a].flat
    ensures u / 512 in v.spaces[a].low ==>
      && IsTable(v.mem, v.spaces[a].low[u / 512])
      && var e := v.mem[v.spaces[a].low[u / 512]].e[u % 512];
         (e.valid <==> u in v.spaces[a].flat)
           && (e.valid ==> e == v.spaces[a].flat[u] && CanUnleaf(v, a, u) && LeafThere(v, a, u))
  {
    hide Inv;
    FlatFacts(v, a, u);
    if u / 512 in v.spaces[a].low {
      LowIsTable(v, a, u / 512);
      assert v.mem[v.spaces[a].low[u / 512]].e[u % 512] == LeafAt(v.spaces[a].flat, u);
      if u in v.spaces[a].flat {
        UnleafLeaf(v, a, u);
      }
    }
  }

  lemma UnmapSame(v: Mem, a: nat, u: nat)
    requires Inv(v) && a in v.spaces
    ensures FreeOk(v) && Keeps(v, v, a, u, u + 1, {})
  {
    KeepsSame(v, a);
    KeepsWider(v, v, a, 0, 0, {}, u, u + 1, {});
  }

  lemma HeldFree(v: Mem, p: nat)
    requires FreeOk(v) && p in v.role && !v.role[p].Free?
    ensures FreeOk(v.(role := v.role[p := Held]))
  {
    var w := v.(role := v.role[p := Held]);
    forall i | 0 <= i < |v.free| ensures FreeAt(w, i) {
      assert FreeAt(v, i);
    }
  }

  /** uvmunmap() for one mapped page: what freeing and clearing come to. */
  ghost function Dropped(v: Mem, a: nat, u: nat): Mem
    requires LeafThere(v, a, u)
  {
    var w := v.WithoutLeaf(a, u);
    if Owned(u) then w.Given(v.spaces[a].flat[u].page) else w
  }

  lemma DroppedKeeps(v: Mem, a: nat, u: nat)
    requires CanUnleaf(v, a, u) && LeafThere(v, a, u)
    ensures Inv(Dropped(v, a, u))
  {
    WithoutLeafKeeps(v, a, u);
    var w := v.WithoutLeaf(a, u);
    if Owned(u) {
      GivenKeeps(w, v.spaces[a].flat[u].page);
      SpareKeeps(w, Dropped(v, a, u));
    }
  }

  lemma DroppedFrame(v: Mem, a: nat, u: nat)
    requires LeafThere(v, a, u)
    ensures Keeps(v, Dropped(v, a, u), a, u, u + 1, {}) && u !in Dropped(v, a, u).spaces[a].flat
  {
  }

  /** The virtual pages lo to hi are not mapped. */
  ghost predicate Clear(flat: map<nat, Pte>, lo: nat, hi: nat)
  {
    forall u :: lo <= u < hi ==> u !in flat
  }

  lemma ClearedMore(v: Mem, w: Mem, x: Mem, a: nat, lo: nat, u: nat)
    requires lo <= u && Keeps(v, w, a, lo, u, {}) && Clear(w.spaces[a].flat, lo, u)
    requires Keeps(w, x, a, u, u + 1, {}) && u !in x.spaces[a].flat
    ensures Keeps(v, x, a, lo, u + 1, {}) && Clear(x.spaces[a].flat, lo, u + 1)
  {
    KeepsWider(v, w, a, lo, u, {}, lo, u + 1, {});
    KeepsWider(w, x, a, u, u + 1, {}, lo, u + 1, {});
    KeepsTwice(v, w, x, a, lo, u + 1, {});
    forall i | lo <= i < u + 1 ensures i !in x.spaces[a].flat {
      assert i < u ==> SameLeaf(w.spaces[a].flat, x.spaces[a].flat, i);
    }
  }

  // ---------------------------------------------------------------- growing and copying

  /** PGROUNDUP(sz) / PGSIZE */
  function Up(sz: nat): nat { (sz + 4095) / 4096 }

  /** What is in virtual page u of a. */
  ghost function Content(v: Mem, a: nat, u: nat): Page
    requires a in v.spaces && u in v.spaces[a].flat && v.spaces[a].flat[u].page in v.mem
  {
    v.mem[v.spaces[a].flat[u].page]
  }

  /** Virtual page u of a is mapped with these permissions and this content. */
  ghost predicate Holds(v: Mem, a: nat, u: nat, perm: Perm, x: Page)
  {
    && a in v.spaces && u in v.spaces[a].flat && v.spaces[a].flat[u].perm == perm
    && v.spaces[a].flat[u].page in v.mem && Content(v, a, u) == x
  }

  /** Memory of a outside lo to hi, and of every other address space, stays as it is. */
  lemma MemoryKept(v: Mem, w: Mem, a: nat, lo: nat, hi: nat, b: nat, u: nat)
    requires Inv(v) && Keeps(v, w, a, lo, hi, {}) && b in v.spaces && u in v.spaces[b].flat && Owned(u)
    requires b != a || u < lo || hi <= u
    ensures b in w.spaces && u in w.spaces[b].flat && w.spaces[b].flat[u] == v.spaces[b].flat[u]
    ensures v.spaces[b].flat[u].page in v.mem && Holds(w, b, u, v.spaces[b].flat[u].perm, Content(v, b, u))
  {
    hide FreeOk, RoleOk, MidOk, LowOk;
    assert SpaceOk(v.mem, v.role, b, v.spaces[b]);
    assert FlatOk(v.role, b, v.spaces[b], u);
    assert b == a ==> SameLeaf(v.spaces[a].flat, w.spaces[a].flat, u);
    assert PageKept(v, w, v.spaces[b].flat[u].page, a, lo, hi, {});
  }

  /** Page p, free before, has become a held page, and nothing else has changed. */
  ghost predicate Gets(v: Mem, w: Mem, p: nat)
  {
    && w.spaces == v.spaces && w.role.Keys == v.role.Keys && w.mem.Keys == v.mem.Keys && v.mem.Keys == v.role.Keys
    && p in v.role && v.role[p].Free? && w.role[p].Held?
    && forall q :: q in v.role && q != p ==> w.role[q] == v.role[q] && (w.mem[q] == v.mem[q] || v.role[q].Free?)
  }

  /** A page got, and then mapped at u. */
  lemma PlacedKeeps(v: Mem, w: Mem, x: Mem, a: nat, u: nat, p: nat)
    requires Gets(v, w, p) && Keeps(w, x, a, u, u + 1, {p}) && p in x.role && x.role[p] == User(a, u)
    ensures Keeps(v, x, a, u, u + 1, {})
  {
    forall q | q in v.role ensures PageKept(v, x, q, a, u, u + 1, {}) {
      assert PageKept(w, x, q, a, u, u + 1, {p});
    }
  }

  /** A page got, and then given back because mapping it failed. */
  lemma GaveUpKeeps(v: Mem, w: Mem, x: Mem, a: nat, u: nat, p: nat)
    requires Gets(v, w, p) && Keeps(w, x, a, u, u, {}) && p in x.role && x.role[p].Held?
    ensures Keeps(v, x.Given(p), a, u, u, {})
  {
    forall q | q in v.role ensures PageKept(v, x.Given(p), q, a, u, u, {}) {
      assert PageKept(w, x, q, a, u, u, {});
    }
  }

  lemma FilledKeeps(v: Mem, x: Page)
    requires Inv(v) && v.free != [] && v.free[0] in v.mem
    ensures Inv(FilledWith(v, x)) && Gets(v, FilledWith(v, x), v.free[0])
  {
    hide Inv, OnlySpare;
    FilledInv(v, x);
    InvFree(v);
    FirstFree(v);
  }

  lemma PlaceNone(v: Mem, a: nat, u: nat)
    requires Inv(v) && a in v.spaces
    ensures Keeps(v, v, a, u, u, {})
  {
    KeepsSame(v, a);
    KeepsWider(v, v, a, 0, 0, {}, u, u, {});
  }

  lemma HeldStill(w: Mem, x: Mem, a: nat, u: nat, p: nat)
    requires Keeps(w, x, a, u, u, {}) && p in w.role && w.role[p].Held?
    ensures p in x.role && x.role[p].Held?
  {
    assert PageKept(w, x, p, a, u, u, {});
  }

  lemma GivenInv(v: Mem, p: nat)
    requires Inv(v) && p in v.role && v.role[p].Held?
    ensures Inv(v.Given(p))
  {
    GivenKeeps(v, p);
    SpareKeeps(v, v.Given(p));
  }

  // The turns of the loops of uvmalloc() and uvmcopy().

  lemma ClearKept(v: Mem, w: Mem, a: nat, lo: nat, hi: nat, from: nat, to: nat)
    requires Keeps(v, w, a, lo, hi, {}) && Clear(v.spaces[a].flat, from, to) && (hi <= from || to <= lo || lo >= hi)
    ensures Clear(w.spaces[a].flat, from, to)
  {
    forall u | from <= u < to ensures u !in w.spaces[a].flat {
      assert SameLeaf(v.spaces[a].flat, w.spaces[a].flat, u);
    }
  }

  lemma HoldsStill(v: Mem, w: Mem, a: nat, lo: nat, hi: nat, b: nat, u: nat, perm: Perm, x: Page)
    requires Inv(v) && Keeps(v, w, a, lo, hi, {}) && Owned(u) && (b != a || u < lo || hi <= u)
    requires Holds(v, b, u, perm, x)
    ensures Holds(w, b, u, perm, x)
  {
    MemoryKept(v, w, a, lo, hi, b, u);
  }

  lemma KeepsMore(v: Mem, w: Mem, x: Mem, a: nat, lo: nat, u: nat, hi: nat)
    requires lo <= u <= hi && Keeps(v, w, a, lo, u, {}) && Keeps(w, x, a, u, hi, {})
    ensures Keeps(v, x, a, lo, hi, {})
  {
    KeepsWider(v, w, a, lo, u, {}, lo, hi, {});
    KeepsWider(w, x, a, u, hi, {}, lo, hi, {});
    KeepsTwice(v, w, x, a, lo, hi, {});
  }

  lemma GrewOne(v: Mem, w: Mem, x: Mem, a: nat, lo: nat, u: nat, top: nat, perm: Perm, page: Page)
    requires lo <= u < top <= TRAPFRAME && Inv(w) && Keeps(v, w, a, lo, u, {}) && Keeps(w, x, a, u, u + 1, {})
    requires Clear(w.spaces[a].flat, u, top) && Holds(x, a, u, perm, page)
    requires forall i :: lo <= i < u ==> Holds(w, a, i, perm, page)
    ensures Keeps(v, x, a, lo, u + 1, {}) && Clear(x.spaces[a].flat, u + 1, top)
    ensures forall i :: lo <= i < u + 1 ==> Holds(x, a, i, perm, page)
  {
    hide Inv, Keeps, Holds;
    KeepsMore(v, w, x, a, lo, u, u + 1);
    ClearKept(w, x, a, u, u + 1, u + 1, top);
    forall i | lo <= i < u + 1 ensures Holds(x, a, i, perm, page) {
      if i < u {
        HoldsStill(w, x, a, u, u + 1, a, i, perm, page);
      }
    }
  }

  lemma GrewNot(v: Mem, w: Mem, x: Mem, a: nat, lo: nat, u: nat, top: nat)
    requires lo <= u <= top && Keeps(v, w, a, lo, u, {}) && Keeps(w, x, a, u, u, {}) && Clear(w.spaces[a].flat, u, top)
    ensures Keeps(v, x, a, lo, u, {}) && Clear(x.spaces[a].flat, u, top)
  {
    KeepsMore(v, w, x, a, lo, u, u);
    ClearKept(w, x, a, u, u, u, top);
  }

  lemma GrewUndone(v: Mem, x: Mem, y: Mem, a: nat, lo: nat, u: nat, top: nat)
    requires lo <= u <= top && Keeps(v, x, a, lo, u, {}) && Clear(x.spaces[a].flat, u, top)
    requires Keeps(x, y, a, lo, u, {}) && Clear(y.spaces[a].flat, lo, u)
    ensures Keeps(v, y, a, lo, top, {}) && Clear(y.spaces[a].flat, lo, top)
  {
    KeepsTwice(v, x, y, a, lo, u, {});
    KeepsWider(v, y, a, lo, u, {}, lo, top, {});
    ClearKept(x, y, a, lo, u, u, top);
  }

  lemma OwnedPage(v: Mem, b: nat, u: nat)
    requires Inv(v) && b in v.spaces && u in v.spaces[b].flat && Owned(u)
    ensures v.spaces[b].flat[u].page in v.mem && v.spaces[b].flat[u].page in v.role
    ensures v.role[v.spaces[b].flat[u].page] == User(b, u)
  {
    assert SpaceOk(v.mem, v.role, b, v.spaces[b]);
    assert FlatOk(v.role, b, v.spaces[b], u);
  }

  lemma KeepsLeaf(v: Mem, w: Mem, a: nat, lo: nat, hi: nat, u: nat)
    requires Keeps(v, w, a, lo, hi, {}) && (u < lo || hi <= u)
    ensures a in v.spaces && a in w.spaces && SameLeaf(v.spaces[a].flat, w.spaces[a].flat, u)
  {
  }

  /** Virtual page u of a is a copy of that of b, or neither is mapped. */
  ghost predicate Copied(v: Mem, b: nat, a: nat, u: nat)
  {
    && a in v.spaces && b in v.spaces && (u in v.spaces[b].flat <==> u in v.spaces[a].flat)
    && (u in v.spaces[b].flat ==>
          v.spaces[b].flat[u].page in v.mem && Holds(v, a, u, v.spaces[b].flat[u].perm, Content(v, b, u)))
  }

  lemma CopiedStill(w: Mem, x: Mem, b: nat, a: nat, u: nat, i: nat)
    requires Inv(w) && Keeps(w, x, a, u, u + 1, {}) && a != b && i < u && Owned(u) && Copied(w, b, a, i)
    ensures Copied(x, b, a, i)
  {
    hide Inv, Keeps;
    KeepsRoot(w, x, a, u, u + 1, {});
    KeepsLeaf(w, x, a, u, u + 1, i);
    if i in w.spaces[b].flat {
      MemoryKept(w, x, a, u, u + 1, b, i);
      MemoryKept(w, x, a, u, u + 1, a, i);
    }
  }

  /** No physical page backs two virtual pages that own their memory. */
  lemma PagesDistinct(v: Mem, a: nat, u: nat, b: nat, w: nat)
    requires Inv(v) && a in v.spaces && u in v.spaces[a].flat && Owned(u) && b in v.spaces && w in v.spaces[b].flat
    requires Owned(w)
    requires (a, u) != (b, w)
    ensures v.spaces[a].flat[u].page != v.spaces[b].flat[w].page
  {
    OwnedPage(v, a, u);
    OwnedPage(v, b, w);
  }

  // ---------------------------------------------------------------- freeing address spaces

  lemma EntryFree(v: Mem, page: nat, i: nat)
    requires FreeOk(v) && IsTable(v.mem, page) && page in v.role && !v.role[page].Free? && i < 512
    ensures FreeOk(v.(mem := v.Entry(page, i, zeroPte)))
  {
    var w := v.(mem := v.Entry(page, i, zeroPte));
    forall k | 0 <= k < |v.free| ensures FreeAt(w, k) {
      assert FreeAt(v, k);
    }
  }

  lemma PassedStart(v: Mem, a: nat, level: nat, key: nat, page: nat)
    requires FreeOk(v) && IsTable(v.mem, page)
    ensures Passed(v, v, a, level, key, page, 0)
  {
  }

  lemma PassedPage(v: Mem, w: Mem, a: nat, level: nat, key: nat, page: nat)
    requires Passed(v, w, a, level, key, page, 512) && v.role[page] == RoleAt(a, level, key)
    ensures page in w.role && !w.role[page].Free?
  {
  }

  lemma FreeOkSpaces(v: Mem, spaces: map<nat, Space>)
    requires FreeOk(v)
    ensures FreeOk(v.(spaces := spaces))
  {
    var w := v.(spaces := spaces);
    forall i | 0 <= i < |v.free| ensures FreeAt(w, i) {
      assert FreeAt(v, i);
    }
  }

  lemma NothingMapped(v: Mem, w: Mem, a: nat, top: nat)
    requires Keeps(v, w, a, 0, top, {}) && (top == 0 || Clear(w.spaces[a].flat, 0, top))
    requires forall u :: u in v.spaces[a].flat ==> u < top
    ensures w.spaces[a].flat == map[]
  {
    forall u: nat ensures u !in w.spaces[a].flat {
      if u >= top {
        assert SameLeaf(v.spaces[a].flat, w.spaces[a].flat, u);
      }
    }
  }

  lemma KeepsReleased(v: Mem, w: Mem, x: Mem, a: nat, lo: nat, hi: nat)
    requires Keeps(v, w, a, lo, hi, {}) && Released(w, x, a)
    ensures Released(v, x, a)
  {
    forall p | p in v.role
      ensures if Of(v.role[p], a) || v.role[p].Free? then x.role[p].Free?
        else x.role[p] == v.role[p] && x.mem[p] == v.mem[p]
    {
      assert PageKept(v, w, p, a, lo, hi, {});
    }
  }

  // ---------------------------------------------------------------- new address spaces

  /** Address space a is new; its pages were free, and nothing else has changed. */
  ghost predicate Opened(v: Mem, w: Mem, a: nat)
  {
    && a !in v.spaces && a in w.spaces && w.spaces == v.spaces[a := w.spaces[a]]
    && w.role.Keys == v.role.Keys && v.mem.Keys == v.role.Keys && w.mem.Keys == w.role.Keys
    && forall p :: p in v.role ==>
         if v.role[p].Free? then w.role[p].Free? || Of(w.role[p], a)
           else w.role[p] == v.role[p] && w.mem[p] == v.mem[p] && !Of(v.role[p], a)
  }

  /** Everything that was in use is as it was, and what was free is free. */
  ghost predicate Restored(v: Mem, w: Mem)
  {
    && w.spaces == v.spaces && w.role.Keys == v.role.Keys && v.mem.Keys == v.role.Keys && w.mem.Keys == w.role.Keys
    && forall p :: p in v.role ==>
      if v.role[p].Free? then w.role[p].Free? else w.role[p] == v.role[p] && w.mem[p] == v.mem[p]
  }

  lemma OpenedReleased(v: Mem, w: Mem, x: Mem, a: nat)
    requires Opened(v, w, a) && Released(w, x, a)
    ensures Restored(v, x)
  {
    assert x.spaces == v.spaces;
  }

  lemma RestoredSame(v: Mem)
    requires FreeOk(v)
    ensures Restored(v, v)
  {
  }

  lemma OpenedSpace(v: Mem, w: Mem, a: nat)
    requires Opened(v, w, a)
    ensures a in w.spaces
  {
  }

  lemma OpenedKeeps(v: Mem, w: Mem, x: Mem, a: nat, lo: nat, hi: nat, given: set<nat>)
    requires Opened(v, w, a) && Keeps(w, x, a, lo, hi, given)
    requires forall p ::
      p in given && p in w.role && p in x.role ==> x.role[p] == w.role[p] && x.mem[p] == w.mem[p]
    ensures Opened(v, x, a)
  {
    assert x.spaces == v.spaces[a := x.spaces[a]];
    forall p | p in v.role
      ensures if v.role[p].Free? then x.role[p].Free? || Of(x.role[p], a)
        else x.role[p] == v.role[p] && x.mem[p] == v.mem[p]
    {
      assert PageKept(w, x, p, a, lo, hi, given);
    }
  }

  ghost function Created(v: Mem, a: nat): Mem
    requires v.free != [] && v.free[0] in v.mem
  {
    var w, p := Fresh(v), v.free[0];
    w.(role := w.role[p := Root(a)], spaces := w.spaces[a := Space(p, map[], map[], map[])])
  }

  lemma NotOf(v: Mem, a: nat)
    requires Inv(v) && a !in v.spaces
    ensures forall p :: p in v.role ==> !Of(v.role[p], a)
  {
    forall p | p in v.role ensures !Of(v.role[p], a) {
      assert RoleOk(v.role, v.spaces, p);
    }
  }

  lemma CreatedOpened(v: Mem, w: Mem, a: nat, p: nat)
    requires Zeroed(v, w, p) && a !in v.spaces && forall q :: q in v.role ==> !Of(v.role[q], a)
    ensures Opened(v, w.(role := w.role[p := Root(a)], spaces := w.spaces[a := Space(p, map[], map[], map[])]), a)
  {
  }

  lemma CreatedKeeps(v: Mem, a: nat)
    requires Inv(v) && v.free != [] && v.free[0] in v.mem && a !in v.spaces
    ensures Inv(Created(v, a)) && Opened(v, Created(v, a), a)
  {
    hide Inv, Opened, Zeroed;
    ZeroedKeeps(v);
    NotOf(v, a);
    CreatedOpened(v, Fresh(v), a, v.free[0]);
    CreatedInv(v, Fresh(v), a, v.free[0]);
  }

  lemma CreatedInv(v: Mem, w: Mem, a: nat, p: nat)
    requires Inv(w) && Zeroed(v, w, p) && a !in w.spaces
    ensures Inv(w.(role := w.role[p := Root(a)], spaces := w.spaces[a := Space(p, map[], map[], map[])]))
  {
    hide FreeOk, SpaceOk, RoleOk;
    var x := w.(role := w.role[p := Root(a)], spaces := w.spaces[a := Space(p, map[], map[], map[])]);
    CreatedFree(w, a, p);
    forall b | b in x.spaces ensures SpaceOk(x.mem, x.role, b, x.spaces[b]) {
      CreatedSpace(v, w, a, p, b);
    }
    forall q | q in x.role ensures RoleOk(x.role, x.spaces, q) {
      CreatedRole(v, w, a, p, q);
    }
  }

  lemma CreatedSpace(v: Mem, w: Mem, a: nat, p: nat, b: nat)
    requires Inv(w) && Zeroed(v, w, p) && a !in w.spaces && (b == a || b in w.spaces)
    ensures SpaceOk(w.mem, w.role[p := Root(a)], b, w.spaces[a := Space(p, map[], map[], map[])][b])
  {
    hide FreeOk;
    if b != a {
      SpaceFrame(w.mem, w.role, w.mem, w.role[p := Root(a)], b, w.spaces[b]);
    }
  }

  lemma CreatedRole(v: Mem, w: Mem, a: nat, p: nat, q: nat)
    requires Inv(w) && Zeroed(v, w, p) && a !in w.spaces && (q == p || q in w.role)
    ensures RoleOk(w.role[p := Root(a)], w.spaces[a := Space(p, map[], map[], map[])], q)
  {
    hide FreeOk, SpaceOk;
    if q != p {
      assert RoleOk(w.role, w.spaces, q);
    }
  }

  lemma CreatedFree(w: Mem, a: nat, p: nat)
    requires FreeOk(w) && p in w.role && w.role[p].Held?
    ensures FreeOk(w.(role := w.role[p := Root(a)], spaces := w.spaces[a := Space(p, map[], map[], map[])]))
  {
    var x := w.(role := w.role[p := Root(a)], spaces := w.spaces[a := Space(p, map[], map[], map[])]);
    forall i | 0 <= i < |x.free| ensures FreeAt(x, i) {
      assert FreeAt(w, i);
    }
  }

  // ---------------------------------------------------------------- processes

  /** p->pagetable, p->sz and p->trapframe */
  datatype Proc = Proc(root: nat, sz: nat, trapframe: nat)

  const rx := Perm(true, false, true, false)
  const rw := Perm(true, true, false, false)

  /** User memory is below PGROUNDUP(sz); above it only the trapframe and the trampoline are mapped. */
  ghost predicate Below(flat: map<nat, Pte>, sz: nat)
  {
    forall u :: u in flat ==> u < Up(sz) || TRAPFRAME <= u < MAXPAGE
  }

  ghost predicate ProcOk(v: Mem, a: nat, x: Proc, tramp: nat)
  {
    && a in v.spaces && v.spaces[a].root == x.root && x.sz <= TRAPFRAME * 4096 && Below(v.spaces[a].flat, x.sz)
    && Topped(v.spaces[a].flat, x.trapframe, tramp)
    && x.trapframe in v.role && v.role[x.trapframe].Held?
  }

  /** The trampoline and the process's own trapframe are mapped at the top. */
  ghost predicate Topped(flat: map<nat, Pte>, trapframe: nat, tramp: nat)
  {
    && TRAMPOLINE in flat && flat[TRAMPOLINE] == Pte(true, rx, tramp)
    && TRAPFRAME in flat && flat[TRAPFRAME] == Pte(true, rw, trapframe)
  }

  lemma ToppedKept(v: Mem, w: Mem, a: nat, lo: nat, hi: nat, trapframe: nat, tramp: nat)
    requires Keeps(v, w, a, lo, hi, {}) && (hi <= TRAPFRAME || hi <= lo)
    requires Topped(v.spaces[a].flat, trapframe, tramp)
    ensures Topped(w.spaces[a].flat, trapframe, tramp)
  {
    assert SameLeaf(v.spaces[a].flat, w.spaces[a].flat, TRAMPOLINE);
    assert SameLeaf(v.spaces[a].flat, w.spaces[a].flat, TRAPFRAME);
  }

  /** A held page is one of the kernel's own, or the trapframe of one process. */
  ghost predicate HeldOk(v: Mem, procs: map<nat, Proc>, kernel: set<nat>)
  {
    && (forall p :: p in v.role && v.role[p].Held? ==> p in kernel || exists a :: a in procs && procs[a].trapframe == p)
    && (forall p :: p in kernel ==> p in v.role && v.role[p].Held?)
    && (forall a :: a in procs ==> procs[a].trapframe !in kernel)
    && (forall a, b :: a in procs && b in procs && a != b ==> procs[a].trapframe != procs[b].trapframe)
  }

  /** Every physical page is free, a table or memory of exactly one process, its trapframe, or the kernel's. */
  ghost predicate AllOk(v: Mem, procs: map<nat, Proc>, kernel: set<nat>, tramp: nat)
  {
    && Inv(v) && procs.Keys == v.spaces.Keys && HeldOk(v, procs, kernel)
    && forall a :: a in procs ==> ProcOk(v, a, procs[a], tramp)
  }

  /** The same pages are held. */
  ghost predicate SameHeld(v: Mem, w: Mem)
  {
    w.role.Keys == v.role.Keys && forall p :: p in v.role ==> (w.role[p].Held? <==> v.role[p].Held?)
  }

  lemma KeepsHeld(v: Mem, w: Mem, a: nat, lo: nat, hi: nat)
    requires Keeps(v, w, a, lo, hi, {})
    ensures SameHeld(v, w)
  {
    forall p | p in v.role ensures w.role[p].Held? <==> v.role[p].Held? {
      assert PageKept(v, w, p, a, lo, hi, {});
    }
  }

  lemma SameHeldOk(v: Mem, w: Mem, procs: map<nat, Proc>, kernel: set<nat>, procs': map<nat, Proc>)
    requires HeldOk(v, procs, kernel) && SameHeld(v, w) && procs'.Keys == procs.Keys
    requires forall a :: a in procs ==> procs'[a].trapframe == procs[a].trapframe
    ensures HeldOk(w, procs', kernel)
  {
    forall p | p in w.role && w.role[p].Held?
      ensures p in kernel || exists a :: a in procs' && procs'[a].trapframe == p
    {
      if p !in kernel {
        var a :| a in procs && procs[a].trapframe == p;
        assert a in procs' && procs'[a].trapframe == p;
      }
    }
  }

  /** An operation on the memory of process a, giving it size sz. */
  lemma ResizedOk(v: Mem, w: Mem, procs: map<nat, Proc>, kernel: set<nat>, tramp: nat, a: nat, lo: nat, hi: nat,
    sz: nat)
    requires AllOk(v, procs, kernel, tramp) && a in procs && Inv(w) && Keeps(v, w, a, lo, hi, {})
    requires sz <= TRAPFRAME * 4096 && Below(w.spaces[a].flat, sz) && (hi <= TRAPFRAME || hi <= lo)
    ensures AllOk(w, procs[a := procs[a].(sz := sz)], kernel, tramp)
  {
    hide Inv, HeldOk, PageKept, SameLeaf, Below, Topped;
    var procs' := procs[a := procs[a].(sz := sz)];
    assert ProcOk(v, a, procs[a], tramp);
    ToppedKept(v, w, a, lo, hi, procs[a].trapframe, tramp);
    KeepsHeld(v, w, a, lo, hi);
    SameHeldOk(v, w, procs, kernel, procs');
    forall b | b in procs' ensures ProcOk(w, b, procs'[b], tramp) {
      assert ProcOk(v, b, procs[b], tramp);
    }
  }

  lemma BelowKept(v: Mem, w: Mem, a: nat, lo: nat, hi: nat, sz: nat, sz': nat)
    requires Keeps(v, w, a, lo, hi, {}) && Below(v.spaces[a].flat, sz) && hi <= Up(sz') && Up(sz) <= Up(sz')
    ensures Below(w.spaces[a].flat, sz')
  {
    forall u | u in w.spaces[a].flat ensures u < Up(sz') || TRAPFRAME <= u < MAXPAGE {
      if u < lo || hi <= u {
        assert SameLeaf(v.spaces[a].flat, w.spaces[a].flat, u);
      }
    }
  }

  lemma BelowShrunk(v: Mem, w: Mem, a: nat, sz: nat, sz': nat)
    requires Keeps(v, w, a, Up(sz'), Up(sz), {}) && Below(v.spaces[a].flat, sz)
    requires Clear(w.spaces[a].flat, Up(sz'), Up(sz)) && Up(sz) <= TRAPFRAME
    ensures Below(w.spaces[a].flat, sz')
  {
    forall u | u in w.spaces[a].flat ensures u < Up(sz') || TRAPFRAME <= u < MAXPAGE {
      if u < Up(sz') || Up(sz) <= u {
        assert SameLeaf(v.spaces[a].flat, w.spaces[a].flat, u);
      }
    }
  }

  /** The size growproc(n) asks uvmdealloc() for, a 64-bit number that may wrap. */
  function Shrunk(sz: nat, n: int): nat
    requires n < 0 && -0x8000_0000 <= n
  {
    if sz + n >= 0 then sz + n else sz + n + 0x1_0000_0000_0000_0000
  }

  lemma BelowSame(v: Mem, w: Mem, a: nat, sz: nat, hi: nat)
    requires Keeps(v, w, a, Up(sz), hi, {}) && Below(v.spaces[a].flat, sz) && Clear(w.spaces[a].flat, Up(sz), hi)
    requires hi <= TRAPFRAME
    ensures Below(w.spaces[a].flat, sz)
  {
    forall u | u in w.spaces[a].flat ensures u < Up(sz) || TRAPFRAME <= u < MAXPAGE {
      if u < Up(sz) || hi <= u {
        assert SameLeaf(v.spaces[a].flat, w.spaces[a].flat, u);
      }
    }
  }

  lemma ShrunkBelow(v: Mem, w: Mem, a: nat, sz: nat, asked: nat, sz': nat)
    requires Keeps(v, w, a, Up(asked), Up(sz), {}) && Below(v.spaces[a].flat, sz) && sz <= TRAPFRAME * 4096
    requires sz' == (if asked >= sz then sz else asked) && (Clear(w.spaces[a].flat, Up(asked), Up(sz)) || asked >= sz)
    ensures Below(w.spaces[a].flat, sz') && Keeps(v, w, a, Up(sz'), Up(sz), {})
  {
    if asked < sz {
      BelowShrunk(v, w, a, sz, asked);
    } else {
      KeepsWider(v, w, a, Up(asked), Up(sz), {}, Up(sz), Up(sz), {});
      BelowKept(v, w, a, Up(sz), Up(sz), sz, sz);
    }
  }

  lemma BelowClear(flat: map<nat, Pte>, sz: nat, to: nat)
    requires Below(flat, sz) && to <= TRAPFRAME
    ensures Clear(flat, Up(sz), to)
  {
  }

  /** What proc_pagetable() maps. */
  function Entries(trampoline: nat, trapframe: nat): map<nat, Pte>
  {
    map[TRAMPOLINE := Pte(true, rx, trampoline), TRAPFRAME := Pte(true, rw, trapframe)]
  }

  lemma FlatAdds(v: Mem, w: Mem, a: nat, u: nat, page: nat, perm: Perm)
    requires Keeps(v, w, a, u, u + 1, {}) && MapsTo(w.spaces[a].flat, u, 1, page, perm)
    ensures w.spaces[a].flat == v.spaces[a].flat[u := Pte(true, perm, page)]
  {
    var f, g := v.spaces[a].flat, w.spaces[a].flat;
    assert u in g && g[u] == Pte(true, perm, page);
    forall x: nat ensures (x in g <==> x in f || x == u) && (x in f && x != u ==> g[x] == f[x]) {
      assert x != u ==> SameLeaf(f, g, x);
    }
  }

  lemma FlatSame(v: Mem, w: Mem, a: nat, u: nat)
    requires Keeps(v, w, a, u, u, {})
    ensures w.spaces[a].flat == v.spaces[a].flat
  {
    var f, g := v.spaces[a].flat, w.spaces[a].flat;
    forall x: nat ensures (x in g <==> x in f) && (x in f ==> g[x] == f[x]) {
      assert SameLeaf(f, g, x);
    }
  }

  lemma FlatDrops(v: Mem, w: Mem, a: nat, u: nat)
    requires Keeps(v, w, a, u, u + 1, {}) && Clear(w.spaces[a].flat, u, u + 1)
    ensures w.spaces[a].flat == v.spaces[a].flat - {u}
  {
    var f, g := v.spaces[a].flat, w.spaces[a].flat;
    forall x: nat ensures (x in g <==> x in f && x != u) && (x in f && x != u ==> g[x] == f[x]) {
      assert x != u ==> SameLeaf(f, g, x);
    }
  }

  // allocproc(), freeproc(), kfork().

  /** A held page tf, free before, and then a new address space. */
  lemma AllocOk(v: Mem, w: Mem, x: Mem, procs: map<nat, Proc>, kernel: set<nat>, tramp: nat, a: nat, tf: nat, root: nat)
    requires AllOk(v, procs, kernel, tramp) && a !in procs && Gets(v, w, tf) && Opened(w, x, a) && Inv(x)
    requires x.spaces[a].root == root && Below(x.spaces[a].flat, 0) && Topped(x.spaces[a].flat, tf, tramp)
    ensures AllOk(x, procs[a := Proc(root, 0, tf)], kernel, tramp)
  {
    hide Inv;
    var procs' := procs[a := Proc(root, 0, tf)];
    AllocHeld(v, w, x, procs, kernel, a, tf, root);
    forall b | b in procs' ensures ProcOk(x, b, procs'[b], tramp) {
      if b != a {
        assert ProcOk(v, b, procs[b], tramp);
      }
    }
  }

  lemma AllocHeld(v: Mem, w: Mem, x: Mem, procs: map<nat, Proc>, kernel: set<nat>, a: nat, tf: nat, root: nat)
    requires HeldOk(v, procs, kernel) && a !in procs && Gets(v, w, tf) && Opened(w, x, a)
    requires forall b :: b in procs ==> procs[b].trapframe in v.role && v.role[procs[b].trapframe].Held?
    ensures HeldOk(x, procs[a := Proc(root, 0, tf)], kernel)
  {
    var procs' := procs[a := Proc(root, 0, tf)];
    forall p | p in x.role && x.role[p].Held?
      ensures p in kernel || exists b :: b in procs' && procs'[b].trapframe == p
    {
      if p == tf {
        assert a in procs' && procs'[a].trapframe == p;
      } else if p !in kernel {
        var b :| b in procs && procs[b].trapframe == p;
        assert b in procs' && procs'[b].trapframe == p;
      }
    }
  }

  /** A failed allocation leaves everything as it was. */
  lemma AllocFails(v: Mem, w: Mem, x: Mem, tf: nat)
    requires Gets(v, w, tf) && Restored(w, x)
    ensures tf in x.role && x.role[tf].Held? && Restored(v, x.Given(tf))
  {
  }

  lemma RestoredOk(v: Mem, w: Mem, procs: map<nat, Proc>, kernel: set<nat>, tramp: nat)
    requires AllOk(v, procs, kernel, tramp) && Restored(v, w) && Inv(w)
    ensures AllOk(w, procs, kernel, tramp)
  {
    hide Inv;
    assert SameHeld(v, w);
    SameHeldOk(v, w, procs, kernel, procs);
    forall b | b in procs ensures ProcOk(w, b, procs[b], tramp) {
      assert ProcOk(v, b, procs[b], tramp);
    }
  }

  lemma GetsTaken(v: Mem)
    requires Inv(v) && v.free != [] && FreeAt(v, 0)
    ensures Inv(v.Taken()) && Gets(v, v.Taken(), v.free[0])
  {
    TakenKeeps(v);
    SpareKeeps(v, v.Taken());
  }

  /** freeproc(): the trapframe and the address space of a go. */
  lemma FreeprocOk(v: Mem, w: Mem, procs: map<nat, Proc>, kernel: set<nat>, tramp: nat, a: nat)
    requires AllOk(v, procs, kernel, tramp) && a in procs && Released(v.Given(procs[a].trapframe), w, a) && Inv(w)
    ensures AllOk(w, procs - {a}, kernel, tramp)
  {
    hide Inv, HeldOk, Released;
    assert ProcOk(v, a, procs[a], tramp);
    FreeprocHeld(v, w, procs, kernel, a);
    FreeprocKeys(v, w, a, procs[a].trapframe);
    forall b | b in procs - {a} ensures ProcOk(w, b, procs[b], tramp) {
      FreeprocOther(v, w, procs, kernel, tramp, a, b);
    }
  }

  lemma FreeprocKeys(v: Mem, w: Mem, a: nat, tf: nat)
    requires Released(v.Given(tf), w, a)
    ensures w.spaces.Keys == v.spaces.Keys - {a}
  {
  }

  lemma FreeprocOther(v: Mem, w: Mem, procs: map<nat, Proc>, kernel: set<nat>, tramp: nat, a: nat, b: nat)
    requires AllOk(v, procs, kernel, tramp) && a in procs && Released(v.Given(procs[a].trapframe), w, a)
    requires b in procs && b != a
    ensures ProcOk(w, b, procs[b], tramp)
  {
    hide Inv;
    assert ProcOk(v, b, procs[b], tramp) && ProcOk(v, a, procs[a], tramp);
  }

  lemma FreeprocHeld(v: Mem, w: Mem, procs: map<nat, Proc>, kernel: set<nat>, a: nat)
    requires HeldOk(v, procs, kernel) && a in procs && Released(v.Given(procs[a].trapframe), w, a)
    requires procs[a].trapframe in v.role
    ensures HeldOk(w, procs - {a}, kernel)
  {
    forall p | p in w.role && w.role[p].Held?
      ensures p in kernel || exists b :: b in procs - {a} && (procs - {a})[b].trapframe == p
    {
      if p !in kernel {
        var b :| b in procs && procs[b].trapframe == p;
        assert b in procs - {a} && (procs - {a})[b].trapframe == p;
      }
    }
  }

  /** The pages of process a, trapframe included, are free; the others are as they were. */
  ghost predicate Gone(v: Mem, w: Mem, a: nat, trapframe: nat)
  {
    && w.spaces == v.spaces - {a} && w.role.Keys == v.role.Keys && v.mem.Keys == v.role.Keys
    && w.mem.Keys == w.role.Keys
    && forall p :: p in v.role ==>
         if Of(v.role[p], a) || v.role[p].Free? || p == trapframe then w.role[p].Free?
           else w.role[p] == v.role[p] && w.mem[p] == v.mem[p]
  }

  lemma GivenReleased(v: Mem, w: Mem, a: nat, tf: nat)
    requires FreeOk(v) && tf in v.role && v.role[tf].Held? && Released(v.Given(tf), w, a)
    ensures Gone(v, w, a, tf)
  {
  }

  /** allocproc() followed by freeproc(). */
  lemma OpenedGone(v: Mem, u: Mem, w: Mem, x: Mem, y: Mem, a: nat, tf: nat, lo: nat, hi: nat)
    requires Gets(v, u, tf) && Opened(u, w, a) && Keeps(w, x, a, lo, hi, {}) && Gone(x, y, a, tf)
    ensures Restored(v, y)
  {
    assert y.spaces == v.spaces;
    forall p | p in v.role
      ensures if v.role[p].Free? then y.role[p].Free? else y.role[p] == v.role[p] && y.mem[p] == v.mem[p]
    {
      assert PageKept(w, x, p, a, lo, hi, {});
    }
  }

  lemma AllOkSize(v: Mem, procs: map<nat, Proc>, kernel: set<nat>, tramp: nat, a: nat)
    requires AllOk(v, procs, kernel, tramp) && a in procs
    ensures procs[a].sz <= TRAPFRAME * 4096
  {
    assert ProcOk(v, a, procs[a], tramp);
  }

  lemma LazyOk(v: Mem, procs: map<nat, Proc>, kernel: set<nat>, tramp: nat, a: nat, sz: nat)
    requires AllOk(v, procs, kernel, tramp) && a in procs && procs[a].sz <= sz <= TRAPFRAME * 4096
    ensures AllOk(v, procs[a := procs[a].(sz := sz)], kernel, tramp)
  {
    assert ProcOk(v, a, procs[a], tramp);
    PlaceNone(v, a, 0);
    BelowKept(v, v, a, 0, 0, procs[a].sz, sz);
    ResizedOk(v, v, procs, kernel, tramp, a, 0, 0, sz);
  }

  lemma FaultBelow(v: Mem, w: Mem, a: nat, lo: nat, hi: nat, sz: nat)
    requires Keeps(v, w, a, lo, hi, {}) && Below(v.spaces[a].flat, sz) && (hi <= Up(sz) || hi == lo)
    ensures Below(w.spaces[a].flat, sz)
  {
    if hi == lo {
      KeepsWider(v, w, a, lo, hi, {}, 0, 0, {});
      BelowKept(v, w, a, 0, 0, sz, sz);
    } else {
      BelowKept(v, w, a, lo, hi, sz, sz);
    }
  }

  lemma GetsHeld(v: Mem, w: Mem, p: nat)
    requires Gets(v, w, p)
    ensures p in w.role && w.role[p].Held?
  {
  }

  lemma GetsFree(v: Mem, w: Mem, p: nat)
    requires Gets(v, w, p)
    ensures p in v.role && v.role[p].Free?
  {
  }

  lemma GetsSpaces(v: Mem, w: Mem, p: nat)
    requires Gets(v, w, p)
    ensures w.spaces == v.spaces
  {
  }

  lemma EntriesBelow(trampoline: nat, trapframe: nat)
    ensures Below(Entries(trampoline, trapframe), 0) && Topped(Entries(trampoline, trapframe), trapframe, trampoline)
  {
  }

  lemma CopyUndone(v: Mem, w: Mem, a: nat, top: nat)
    requires Keeps(v, w, a, 0, top, {}) && Clear(w.spaces[a].flat, 0, top) && Below(v.spaces[a].flat, 0)
    ensures Below(w.spaces[a].flat, 0)
  {
    forall u | u in w.spaces[a].flat ensures u < Up(0) || TRAPFRAME <= u < MAXPAGE {
      if top <= u {
        assert SameLeaf(v.spaces[a].flat, w.spaces[a].flat, u);
      }
    }
  }

  lemma OpenedOther(v: Mem, w: Mem, x: Mem, a: nat, b: nat, tf: nat)
    requires Gets(v, w, tf) && Opened(w, x, a) && b in v.spaces && b != a
    ensures b in x.spaces && x.spaces[b] == v.spaces[b]
  {
  }

  /** Process np is a child of p with a copy of its memory; p itself is unchanged. */
  ghost predicate Child(v: Mem, w: Mem, p: nat, np: nat, sz: nat)
  {
    && p in v.spaces && p in w.spaces && np in w.spaces && w.spaces[p] == v.spaces[p]
    && forall u :: 0 <= u < Up(sz) ==> Copied(w, p, np, u)
  }

  lemma ForkFacts(x: Mem, procs: map<nat, Proc>, kernel: set<nat>, tramp: nat, p: nat, np: nat)
    requires AllOk(x, procs, kernel, tramp) && p in procs && np in procs && procs[np].sz == 0
    ensures Inv(x) && p in x.spaces && np in x.spaces && x.spaces[p].root == procs[p].root
    ensures x.spaces[np].root == procs[np].root
    ensures procs[p].sz <= TRAPFRAME * 4096 && Clear(x.spaces[np].flat, 0, Up(procs[p].sz))
  {
    assert ProcOk(x, np, procs[np], tramp) && ProcOk(x, p, procs[p], tramp);
    BelowClear(x.spaces[np].flat, 0, Up(procs[p].sz));
  }

  lemma ForkFailed(x: Mem, y: Mem, procs: map<nat, Proc>, kernel: set<nat>, tramp: nat, p: nat, np: nat)
    requires AllOk(x, procs, kernel, tramp) && p in procs && np in procs && procs[np].sz == 0 && Inv(y)
    requires Keeps(x, y, np, 0, Up(procs[p].sz), {}) && Clear(y.spaces[np].flat, 0, Up(procs[p].sz))
    ensures AllOk(y, procs, kernel, tramp)
  {
    hide Inv, Keeps, HeldOk;
    assert ProcOk(x, np, procs[np], tramp);
    KeepsRoot(x, y, np, 0, Up(procs[p].sz), {});
    CopyUndone(x, y, np, Up(procs[p].sz));
    ResizedOk(x, y, procs, kernel, tramp, np, 0, Up(procs[p].sz), 0);
    assert procs[np := procs[np].(sz := 0)] == procs;
  }

  lemma ForkCopied(v: Mem, w: Mem, x: Mem, y: Mem, procs: map<nat, Proc>, kernel: set<nat>, tramp: nat, p: nat, np: nat)
    requires AllOk(x, procs, kernel, tramp) && p in procs && np in procs && p != np && procs[np].sz == 0 && Inv(y)
    requires p in v.spaces && Gets(v, w, procs[np].trapframe) && Opened(w, x, np)
    requires Keeps(x, y, np, 0, Up(procs[p].sz), {})
    requires forall u :: 0 <= u < Up(procs[p].sz) ==> Copied(y, p, np, u)
    ensures AllOk(y, procs[np := procs[np].(sz := procs[p].sz)], kernel, tramp) && Child(v, y, p, np, procs[p].sz)
  {
    hide Inv, Keeps, HeldOk, Gets, Opened, Copied, Below;
    assert ProcOk(x, np, procs[np], tramp) && ProcOk(x, p, procs[p], tramp);
    OpenedOther(v, w, x, np, p, procs[np].trapframe);
    KeepsRoot(x, y, np, 0, Up(procs[p].sz), {});
    BelowKept(x, y, np, 0, Up(procs[p].sz), 0, procs[p].sz);
    ResizedOk(x, y, procs, kernel, tramp, np, 0, Up(procs[p].sz), procs[p].sz);
  }

  lemma AllOkInv(v: Mem, procs: map<nat, Proc>, kernel: set<nat>, tramp: nat)
    requires AllOk(v, procs, kernel, tramp)
    ensures Inv(v) && procs.Keys == v.spaces.Keys
  {
  }

  lemma AllOkSpace(v: Mem, procs: map<nat, Proc>, kernel: set<nat>, tramp: nat, a: nat)
    requires AllOk(v, procs, kernel, tramp) && a in procs
    ensures a in v.spaces
  {
  }

  /** The same value for each of the pages lo to hi. */
  function Uniform<T>(lo: nat, hi: nat, x: T): (m: map<nat, T>)
    requires lo <= hi
    ensures forall p :: p in m <==> lo <= p < hi
    ensures forall p :: p in m ==> m[p] == x
  {
    if lo == hi then map[] else Uniform(lo, hi - 1, x)[hi - 1 := x]
  }

  lemma KernelTook(v: Mem, w: Mem, procs: map<nat, Proc>, kernel: set<nat>, tramp: nat, p: nat)
    requires AllOk(v, procs, kernel, tramp) && Gets(v, w, p) && Inv(w)
    ensures AllOk(w, procs, kernel + {p}, tramp)
  {
    hide Inv;
    forall b | b in procs ensures ProcOk(w, b, procs[b], tramp) && procs[b].trapframe != p {
      assert ProcOk(v, b, procs[b], tramp);
    }
  }

  lemma KernelGave(v: Mem, procs: map<nat, Proc>, kernel: set<nat>, tramp: nat, p: nat)
    requires AllOk(v, procs, kernel, tramp) && p in kernel && Inv(v.Given(p))
    ensures AllOk(v.Given(p), procs, kernel - {p}, tramp)
  {
    hide Inv;
    forall b | b in procs ensures ProcOk(v.Given(p), b, procs[b], tramp) {
      assert ProcOk(v, b, procs[b], tramp);
    }
  }

  // ---------------------------------------------------------------- what the tables mean

  /** The translation of virtual page u by the tables in memory: three look-ups, as the hardware does. */
  function Translate(mem: map<nat, Page>, root: nat, u: nat): Option<Pte>
  {
    if !IsTable(mem, root) then None else
    var top := mem[root].e[PX(2, u)];
    if !top.valid || !IsTable(mem, top.page) then None else
    var mid := mem[top.page].e[PX(1, u)];
    if !mid.valid || !IsTable(mem, mid.page) then None else
    var leaf := mem[mid.page].e[PX(0, u)];
    if leaf.valid then Some(leaf) else None
  }

  /** The three-level table of an address space translates exactly as its flat map says. */
  lemma TranslationIsFlat(v: Mem, a: nat, u: nat)
    requires Inv(v) && a in v.spaces && u < MAXPAGE
    ensures Translate(v.mem, v.spaces[a].root, u) == if u in v.spaces[a].flat then Some(v.spaces[a].flat[u]) else None
  {
    var s := v.spaces[a];
    EntryMeans(v, a, 2, u, s.root);
    UnmapFacts(v, a, u);
    if u / 512 / 512 in s.mid {
      EntryMeans(v, a, 1, u, s.mid[u / 512 / 512]);
    }
  }

  /** No page has two uses: being free, or what a table, a mapping, a trapframe or the kernel uses it
      for, settles its role. */
  lemma OneUse(v: Mem, procs: map<nat, Proc>, kernel: set<nat>, tramp: nat, p: nat)
    requires AllOk(v, procs, kernel, tramp) && p in v.role
    ensures p in v.free <==> v.role[p] == Free
    ensures forall a :: a in v.spaces && v.spaces[a].root == p ==> v.role[p] == Root(a)
    ensures forall a, i :: a in v.spaces && i in v.spaces[a].mid && v.spaces[a].mid[i] == p ==> v.role[p] == Mid(a, i)
    ensures forall a, k :: a in v.spaces && k in v.spaces[a].low && v.spaces[a].low[k] == p ==> v.role[p] == Low(a, k)
    ensures forall a, u :: a in v.spaces && u in v.spaces[a].flat && Owned(u) && v.spaces[a].flat[u].page == p ==>
      v.role[p] == User(a, u)
    ensures v.role[p] == Held <==> p in kernel || exists a :: a in procs && procs[a].trapframe == p
    ensures forall a ::
      a in procs && a in v.spaces && TRAPFRAME in v.spaces[a].flat && v.spaces[a].flat[TRAPFRAME].page == p ==>
        v.role[p] == Held && procs[a].trapframe == p
  {
    hide Inv, FreeOk;
    UsesOfSpaces(v, p);
    forall a | a in procs ensures ProcOk(v, a, procs[a], tramp) {
    }
  }

  lemma UsesOfSpaces(v: Mem, p: nat)
    requires Inv(v) && p in v.role
    ensures p in v.free <==> v.role[p] == Free
    ensures forall a :: a in v.spaces && v.spaces[a].root == p ==> v.role[p] == Root(a)
    ensures forall a, i :: a in v.spaces && i in v.spaces[a].mid && v.spaces[a].mid[i] == p ==> v.role[p] == Mid(a, i)
    ensures forall a, k :: a in v.spaces && k in v.spaces[a].low && v.spaces[a].low[k] == p ==> v.role[p] == Low(a, k)
    ensures forall a, u :: a in v.spaces && u in v.spaces[a].flat && Owned(u) && v.spaces[a].flat[u].page == p ==>
      v.role[p] == User(a, u)
  {
    if p in v.free {
      var i :| 0 <= i < |v.free| && v.free[i] == p;
      assert FreeAt(v, i);
    }
    forall a | a in v.spaces ensures SpaceOk(v.mem, v.role, a, v.spaces[a]) {
    }
    forall a, i | a in v.spaces && i in v.spaces[a].mid ensures MidOk(v.mem, v.role, a, v.spaces[a], i) {
      assert SpaceOk(v.mem, v.role, a, v.spaces[a]);
    }
    forall a, k | a in v.spaces && k in v.spaces[a].low ensures LowOk(v.mem, v.role, a, v.spaces[a], k) {
      assert SpaceOk(v.mem, v.role, a, v.spaces[a]);
    }
    forall a, u | a in v.spaces && u in v.spaces[a].flat ensures FlatOk(v.role, a, v.spaces[a], u) {
      assert SpaceOk(v.mem, v.role, a, v.spaces[a]);
    }
  }

  /** Each process finds the trampoline and its own trapframe at the top of its address space, and nobody
      else's: no other process has that page. */
  lemma TopIsOwn(v: Mem, procs: map<nat, Proc>, kernel: set<nat>, tramp: nat, a: nat)
    requires AllOk(v, procs, kernel, tramp) && a in procs
    ensures Translate(v.mem, procs[a].root, TRAPFRAME) == Some(Pte(true, rw, procs[a].trapframe))
    ensures Translate(v.mem, procs[a].root, TRAMPOLINE) == Some(Pte(true, rx, tramp))
    ensures procs[a].trapframe in v.role && v.role[procs[a].trapframe] == Held
    ensures forall b :: b in procs && b != a ==> procs[b].trapframe != procs[a].trapframe
  {
    hide Inv;
    assert ProcOk(v, a, procs[a], tramp);
    TranslationIsFlat(v, a, TRAPFRAME);
    TranslationIsFlat(v, a, TRAMPOLINE);
  }
}
