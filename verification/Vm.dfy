/** kernel/kalloc.c and the user half of kernel/vm.c over the pages of PageTable, with the process-level
    operations of kernel/proc.c and kernel/sysproc.c that grow, shrink, copy and free address spaces. */
module Vm {
  import opened Basics
  import opened Break
  import opened PageCost
  import opened PageFree
  import opened PageTable
  import opened VmModel

  /** kmem, and the physical memory. */
  class Machine {
    var mem: map<nat, Page>
    var head: Option<nat>
    var procs: map<nat, Proc>
    const trampoline: nat
    ghost var free: seq<nat>
    ghost var role: map<nat, Role>
    ghost var spaces: map<nat, Space>
    ghost var kernel: set<nat>

    ghost function V(): Mem
      reads this
    {
      Mem(mem, head, free, role, spaces)
    }

    /** kinit(): the pages lo to hi, all free, and no process yet */
    constructor (lo: nat, hi: nat, trampoline: nat)
      requires lo <= hi
      ensures AllOk(V(), procs, kernel, trampoline) && procs == map[] && kernel == {} && this.trampoline == trampoline
      ensures forall p :: p in role <==> lo <= p < hi
      ensures forall p :: p in role ==> role[p].Free?
    {
      mem := Uniform(lo, hi, Filled(0));
      role := Uniform(lo, hi, Held);
      head, free, procs, spaces, kernel := None, [], map[], map[], {};
      this.trampoline := trampoline;
      new;
      Freerange(lo, hi);
    }

    /** freerange() */
    method Freerange(lo: nat, hi: nat)
      requires FreeOk(V()) && lo <= hi && forall p :: lo <= p < hi ==> p in role && role[p].Held?
      modifies `mem, `head, `free, `role, `spaces
      ensures FreeOk(V()) && spaces == old(spaces) && role.Keys == old(role).Keys
      ensures forall p :: p in role ==> role[p] == if lo <= p < hi then Free else old(role)[p]
    {
      hide FreeOk;
      var p := lo;
      while p < hi
        invariant lo <= p <= hi && FreeOk(V()) && spaces == old(spaces) && role.Keys == old(role).Keys
        invariant forall q :: q in role ==> role[q] == if lo <= q < p then Free else old(role)[q]
      {
        Kfree(p);
        p := p + 1;
      }
    }

    /** kalloc() */
    method Kalloc() returns (p: Option<nat>)
      requires FreeOk(V())
      modifies `mem, `head, `free, `role, `spaces
      ensures FreeOk(V()) && OnlySpare(old(V()), V())
      ensures p.None? ==> old(free) == [] && V() == old(V())
      ensures p.Some? ==> old(free) != [] && p.value == old(free)[0] && old(FreeAt(V(), 0)) && V() == old(V()).Taken()
    {
      p := head;
      if p.Some? {
        assert FreeAt(V(), 0);
        TakenKeeps(V());
        head := mem[p.value].next;
        mem := mem[p.value := Filled(5)];
        role := role[p.value := Held];
        free := free[1..];
      }
    }

    /** kfree() of a page the kernel holds */
    method Kfree(p: nat)
      requires FreeOk(V()) && p in role && role[p].Held?
      modifies `mem, `head, `free, `role, `spaces
      ensures FreeOk(V()) && OnlySpare(old(V()), V()) && V() == old(V()).Given(p)
    {
      GivenKeeps(V(), p);
      mem := mem[p := Run(head)];
      head := Some(p);
      free := [p] + free;
      role := role[p := Free];
    }

    /** walk() zeroing page p and putting it at entry i of table pt */
    method LinkMid(pt: nat, i: nat, p: nat, ghost a: nat, ghost v: Mem)
      requires v.free != [] && v.free[0] == p && p in v.mem && V() == v.Taken()
      requires a in v.spaces && v.spaces[a].root == pt && IsTable(Fresh(v).mem, pt) && i < 512
      modifies `mem, `head, `free, `role, `spaces
      ensures V() == Fresh(v).WithMid(a, i, p)
    {
      mem := mem[p := ZeroTable()];
      mem := mem[pt := Table(mem[pt].e[i := Link(p)])];
      role := role[p := Mid(a, i)];
      spaces := spaces[a := spaces[a].(mid := spaces[a].mid[i := p])];
    }

    method LinkLow(pt: nat, i: nat, p: nat, ghost a: nat, ghost k: nat, ghost v: Mem)
      requires v.free != [] && v.free[0] == p && p in v.mem && V() == v.Taken()
      requires a in v.spaces && k / 512 in v.spaces[a].mid && v.spaces[a].mid[k / 512] == pt && i == k % 512
      requires IsTable(Fresh(v).mem, pt)
      modifies `mem, `head, `free, `role, `spaces
      ensures V() == Fresh(v).WithLow(a, k, p)
    {
      mem := mem[p := ZeroTable()];
      mem := mem[pt := Table(mem[pt].e[i := Link(p)])];
      role := role[p := Low(a, k)];
      spaces := spaces[a := spaces[a].(low := spaces[a].low[k := p])];
    }

    /** walk() adding the table below pt, page p just allocated */
    method AddTable(pt: nat, level: nat, u: nat, p: nat, ghost a: nat, ghost v: Mem)
      requires Inv(v) && a in v.spaces && u < MAXPAGE && At(v.spaces[a], level, u, pt) && u / 512 !in v.spaces[a].low
      requires level == 1 || (level == 2 && u / 512 / 512 !in v.spaces[a].mid)
      requires v.free != [] && v.free[0] == p && p in v.mem && V() == v.Taken()
      modifies `mem, `head, `free, `role, `spaces
      ensures Inv(V()) && Walked(v, V(), a) && At(spaces[a], level - 1, u, p)
      ensures Spent(v, V(), a, {KeyAt(level, u)}, 0)
    {
      hide Inv, Walked, Spent, Fresh, ZeroTable;
      CanAdd(v, a);
      if level == 2 {
        NewMidKeeps(v, a, u / 512 / 512);
        NewMidSpent(v, a, u / 512 / 512);
        LinkMid(pt, PX(level, u), p, a, v);
      } else {
        NewLowKeeps(v, a, u / 512);
        NewLowSpent(v, a, u / 512);
        LinkLow(pt, PX(level, u), p, a, u / 512, v);
      }
    }

    /** One level of walk()'s loop. */
    method WalkLevel(pt: nat, level: nat, u: nat, alloc: bool, ghost a: nat) returns (next: Option<nat>)
      requires Inv(V()) && a in spaces && u < MAXPAGE && 1 <= level <= 2 && At(spaces[a], level, u, pt)
      modifies `mem, `head, `free, `role, `spaces
      ensures Inv(V()) && Walked(old(V()), V(), a)
      ensures next.Some? ==> At(spaces[a], level - 1, u, next.value)
      ensures next.None? ==> V() == old(V()) && (if alloc then free == [] else u / 512 !in spaces[a].low)
      ensures !alloc || old(u / 512 in spaces[a].low) ==> V() == old(V())
      ensures alloc ==> (next.Some? <==> old(Affords(V(), a, {KeyAt(level, u)}, 0)))
      ensures alloc && next.Some? ==> Spent(old(V()), V(), a, {KeyAt(level, u)}, 0)
    {
      ghost var v := V();
      hide Inv, Walked, At, FreeOk, Spent, Affords;
      InvFree(v);
      WalkedSame(v, a);
      EntryMeans(v, a, level, u, pt);
      var pte := mem[pt].e[PX(level, u)];
      if pte.valid {
        KeyThere(v.spaces[a], level, u, pte.page);
        StepThere(v, a, KeyAt(level, u));
        return Some(pte.page);
      }
      KeyMissing(v.spaces[a], level, u);
      StepPrice(v, a, KeyAt(level, u));
      if !alloc {
        return None;
      }
      next := Kalloc();
      if next.Some? {
        AddTable(pt, level, u, next.value, a, v);
      }
    }

    /** walk(): the lowest table on the way to virtual page u.  A table added before one that cannot be
        allocated stays. */
    method Walk(root: nat, u: nat, alloc: bool, ghost a: nat) returns (low: Option<nat>)
      requires Inv(V()) && a in spaces && spaces[a].root == root && u < MAXPAGE
      modifies `mem, `head, `free, `role, `spaces
      ensures Inv(V()) && Walked(old(V()), V(), a)
      ensures low.Some? ==> At(spaces[a], 0, u, low.value)
      ensures low.None? ==> if alloc then free == [] else u / 512 !in spaces[a].low
      ensures !alloc || old(u / 512 in spaces[a].low) ==> V() == old(V())
      ensures alloc ==> (low.Some? <==> old(Affords(V(), a, Way(u), 0)))
      ensures alloc && low.Some? ==> Spent(old(V()), V(), a, Way(u), 0)
    {
      hide Inv, Spent, Affords, Walked, At;
      ghost var v := V();
      WalkStarts(v, a, u);
      var pt, level := root, 2;
      while level > 0
        invariant 0 <= level <= 2 && Inv(V()) && Walked(v, V(), a) && a in spaces && At(spaces[a], level, u, pt)
        invariant !alloc || old(u / 512 in spaces[a].low) ==> V() == v
        invariant alloc ==> Spent(v, V(), a, Done(level, u), 0)
      {
        ghost var w := V();
        var next := WalkLevel(pt, level, u, alloc, a);
        WalkedTwice(v, w, V(), a);
        WalkedRoot(w, V(), a);
        if next.None? {
          if alloc {
            WalkFails(v, w, a, level, u);
          }
          return None;
        }
        if alloc {
          WalkGoesOn(v, w, V(), a, level, u);
        }
        pt := next.value;
        level := level - 1;
      }
      if alloc {
        SpentAffords(v, V(), a, Way(u), 0);
      }
      return Some(pt);
    }

    /** mappages() for one page */
    method MapOne(root: nat, u: nat, page: nat, perm: Perm, ghost a: nat) returns (ok: bool)
      requires Inv(V()) && a in spaces && spaces[a].root == root && u < MAXPAGE && u !in spaces[a].flat
      requires Owned(u) ==> page in role && role[page].Held?
      modifies `mem, `head, `free, `role, `spaces
      ensures Inv(V()) && Keeps(old(V()), V(), a, u, if ok then u + 1 else u, if ok then Backing(u, page) else {})
      ensures ok ==> MapsTo(spaces[a].flat, u, 1, page, perm)
      ensures ok && Owned(u) ==>
        page in old(mem) && page in mem && mem[page] == old(mem)[page] && page in role && role[page] == User(a, u)
      ensures !ok ==> free == []
      ensures ok <==> old(Affords(V(), a, Way(u), 0))
      ensures ok ==> Spent(old(V()), V(), a, Way(u), 0)
    {
      hide Inv, Walked, Keeps, CanLeaf, Spent, Affords;
      ghost var v := V();
      var low := Walk(root, u, true, a);
      ghost var w := V();
      WalkedKeeps(v, w, a);
      KeepsWider(v, w, a, 0, 0, {}, u, u, {});
      if low.None? {
        return false;
      }
      MapFacts(v, w, a, u, Pte(true, perm, page), low.value);
      LeafSpent(v, w, a, u, Pte(true, perm, page), Way(u));
      assert !mem[low.value].e[u % 512].valid;
      mem := mem[low.value := Table(mem[low.value].e[u % 512 := Pte(true, perm, page)])];
      if Owned(u) {
        role := role[page := User(a, u)];
      }
      spaces := spaces[a := spaces[a].(flat := spaces[a].flat[u := Pte(true, perm, page)])];
      assert V() == w.WithLeaf(a, u, Pte(true, perm, page));
      return true;
    }

    /** mappages(): the first `done` pages are mapped, and it succeeds when those are all. */
    method Mappages(root: nat, u: nat, n: nat, page: nat, perm: Perm, ghost a: nat) returns (ok: bool, ghost done: nat)
      requires Inv(V()) && n > 0 && a in spaces && spaces[a].root == root && forall i :: 0 <= i < n ==>
        CanMapAt(V(), a, u, page, i)
      modifies `mem, `head, `free, `role, `spaces
      ensures Inv(V()) && done <= n && (ok <==> done == n)
      ensures Keeps(old(V()), V(), a, u, u + done, PagesFrom(page, done))
      ensures MapsTo(spaces[a].flat, u, done, page, perm)
      ensures ok <==> old(Affords(V(), a, Ways(Pages(u, u + n)), 0))
      ensures ok ==> Spent(old(V()), V(), a, Ways(Pages(u, u + n)), 0)
    {
      hide Inv, Keeps, MapsTo, CanMap, PagesFrom, Owned, Spent, Affords, Ways, Way, Pages;
      done := 0;
      InvFree(V());
      MappedNone(V(), a, u, page, perm);
      SpentNoPages(V(), a, u);
      var k := 0;
      while true
        invariant k < n && done == k && Inv(V()) && Keeps(old(V()), V(), a, u, u + k, PagesFrom(page, k))
        invariant a in spaces && spaces[a].root == root && MapsTo(spaces[a].flat, u, k, page, perm)
        invariant forall i :: k <= i < n ==> CanMapAt(V(), a, u, page, i)
        invariant Spent(old(V()), V(), a, Ways(Pages(u, u + k)), 0)
        decreases n - k
      {
        ghost var w := V();
        assert CanMapAt(w, a, u, page, k);
        CanMapFacts(w, a, u + k, page + k);
        ok := MapOne(root, u + k, page + k, perm, a);
        KeepsRoot(w, V(), a, u + k, if ok then u + k + 1 else u + k, if ok then Backing(u + k, page + k) else {});
        if !ok {
          KeepsWider(w, V(), a, u + k, u + k, {}, u, u + k, PagesFrom(page, k));
          KeepsTwice(old(V()), w, V(), a, u, u + k, PagesFrom(page, k));
          MapsToStill(w, V(), a, u, k, page, perm);
          RangeFails(old(V()), w, a, u, u + k, u + n, 0);
          return;
        }
        KeepsWider(w, V(), a, u + k, u + k + 1, Backing(u + k, page + k), u + k, u + k + 1, {page + k});
        MappedMore(old(V()), w, V(), a, u, k, page, perm);
        CanMapRest(w, V(), a, u, page, k, n);
        RangeTurn(old(V()), w, V(), a, u, u + k, 0);
        k, done := k + 1, done + 1;
        if k == n {
          SpentAffords(old(V()), V(), a, Ways(Pages(u, u + n)), 0);
          return;
        }
      }
    }

    /** uvmunmap() freeing a mapped page and clearing its entry */
    method Drop(low: nat, u: nat, doFree: bool, ghost a: nat)
      requires FreeOk(V()) && LeafThere(V(), a, u) && low == spaces[a].low[u / 512] && doFree == Owned(u)
      requires IsTable(mem, low) && mem[low].e[u % 512] == spaces[a].flat[u]
      modifies `mem, `head, `free, `role, `spaces
      ensures V() == Dropped(old(V()), a, u)
    {
      hide FreeOk;
      ghost var v := V();
      if doFree {
        var page := mem[low].e[u % 512].page;
        HeldFree(v, page);
        role := role[page := Held];
        Kfree(page);
      }
      mem := mem[low := Table(mem[low].e[u % 512 := zeroPte])];
      spaces := spaces[a := spaces[a].(flat := spaces[a].flat - {u})];
    }

    /** uvmunmap() for one page, freeing it if the address space owns it */
    method UnmapOne(root: nat, u: nat, doFree: bool, ghost a: nat)
      requires Inv(V()) && a in spaces && spaces[a].root == root && u < MAXPAGE && doFree == Owned(u)
      modifies `mem, `head, `free, `role, `spaces
      ensures Inv(V()) && Keeps(old(V()), V(), a, u, u + 1, {}) && u !in spaces[a].flat
    {
      hide Inv, Keeps, FreeOk, CanUnleaf;
      ghost var v := V();
      var low := Walk(root, u, false, a);
      UnmapFacts(v, a, u);
      UnmapSame(v, a, u);
      if low.None? || !mem[low.value].e[u % 512].valid {
        return;
      }
      DroppedKeeps(v, a, u);
      DroppedFrame(v, a, u);
      Drop(low.value, u, doFree, a);
    }

    /** uvmunmap() */
    method Uvmunmap(root: nat, u: nat, n: nat, doFree: bool, ghost a: nat)
      requires Inv(V()) && a in spaces && spaces[a].root == root && u + n <= MAXPAGE
      requires forall i :: u <= i < u + n ==> doFree == Owned(i)
      modifies `mem, `head, `free, `role, `spaces
      ensures Inv(V()) && Keeps(old(V()), V(), a, u, u + n, {}) && Clear(spaces[a].flat, u, u + n)
    {
      hide Inv, Keeps;
      InvFree(V());
      KeepsSame(V(), a);
      KeepsWider(V(), V(), a, 0, 0, {}, u, u, {});
      var i := u;
      while i < u + n
        invariant u <= i <= u + n && Inv(V()) && Keeps(old(V()), V(), a, u, i, {}) && a in spaces
        invariant Clear(spaces[a].flat, u, i)
        invariant spaces[a].root == root
      {
        ghost var w := V();
        UnmapOne(root, i, doFree, a);
        KeepsRoot(w, V(), a, i, i + 1, {});
        ClearedMore(old(V()), w, V(), a, u, i);
        i := i + 1;
      }
    }

    /** A fresh page of content x at virtual page u, or everything as before: what uvmalloc(), uvmcopy()
        and vmfault() do for a page. */
    method Place(root: nat, u: nat, x: Page, perm: Perm, ghost a: nat) returns (ok: bool)
      requires Inv(V()) && a in spaces && spaces[a].root == root && Owned(u) && u !in spaces[a].flat
      modifies `mem, `head, `free, `role, `spaces
      ensures Inv(V()) && Keeps(old(V()), V(), a, u, if ok then u + 1 else u, {})
      ensures ok ==> Holds(V(), a, u, perm, x)
      ensures ok <==> old(Affords(V(), a, Way(u), 1))
      ensures ok ==> Spent(old(V()), V(), a, Way(u), 1)
    {
      hide Inv, Keeps, FreeOk, Gets, Spent, Affords, Way;
      ghost var v := V();
      InvFree(v);
      UnmapSame(v, a, u);
      PlaceNone(v, a, u);
      var p := Kalloc();
      if p.None? {
        NoPage(v, a, Way(u));
        return false;
      }
      FilledKeeps(v, x);
      mem := mem[p.value := x];
      ghost var w := V();
      assert w == FilledWith(v, x);
      ok := MapOne(root, u, p.value, perm, a);
      PlacedSpent(v, w, V(), a, Way(u));
      if ok {
        PlacedKeeps(v, w, V(), a, u, p.value);
        KeepsRoot(v, V(), a, u, u + 1, {});
        assert u in spaces[a].flat;
      } else {
        GiveBack(p.value, u, a, v, w);
      }
    }

    /** The page that could not be mapped goes back to the free list. */
    method GiveBack(p: nat, ghost u: nat, ghost a: nat, ghost v: Mem, ghost w: Mem)
      requires Inv(V()) && Gets(v, w, p) && Keeps(w, V(), a, u, u, {})
      modifies `mem, `head, `free, `role, `spaces
      ensures Inv(V()) && Keeps(v, V(), a, u, u, {})
    {
      hide Inv, Keeps, FreeOk, Gets;
      GetsHeld(v, w, p);
      HeldStill(w, V(), a, u, p);
      InvFree(V());
      GaveUpKeeps(v, w, V(), a, u, p);
      GivenInv(V(), p);
      Kfree(p);
    }

    /** uvmalloc(): new zeroed pages up to newsz, or none. */
    method Uvmalloc(root: nat, oldsz: nat, newsz: nat, xperm: Perm, ghost a: nat) returns (sz: nat, ghost ok: bool)
      requires Inv(V()) && a in spaces && spaces[a].root == root && newsz <= TRAPFRAME * 4096
      requires Clear(spaces[a].flat, Up(oldsz), Up(newsz))
      modifies `mem, `head, `free, `role, `spaces
      ensures Inv(V()) && Keeps(old(V()), V(), a, Up(oldsz), Up(newsz), {})
      ensures sz == if newsz < oldsz then oldsz else if ok then newsz else 0
      ensures ok ==> forall u :: Up(oldsz) <= u < Up(newsz) ==>
        Holds(V(), a, u, Perm(true, xperm.w, xperm.x, true), Filled(0))
      ensures !ok ==> Clear(spaces[a].flat, Up(oldsz), Up(newsz))
      ensures ok <==> newsz < oldsz || |old(free)| >= Price(old(spaces)[a], Pages(Up(oldsz), Up(newsz)))
    {
      hide Inv, Keeps, Holds, FreeOk, Spent, Affords, Ways, Way, Price, Pages;
      ghost var v := V();
      RangePrice(v, a, Up(oldsz), Up(newsz));
      SpentNoPages(v, a, Up(oldsz));
      PlaceNone(v, a, Up(oldsz));
      KeepsWider(v, v, a, Up(oldsz), Up(oldsz), {}, Up(oldsz), Up(newsz), {});
      if newsz < oldsz {
        return oldsz, true;
      }
      var perm := Perm(true, xperm.w, xperm.x, true);
      var u := Up(oldsz);
      while u * 4096 < newsz
        invariant Up(oldsz) <= u && (u <= Up(newsz) || u == Up(oldsz)) && Inv(V()) && Keeps(v, V(), a, Up(oldsz), u, {})
        invariant a in spaces && spaces[a].root == root && Clear(spaces[a].flat, u, Up(newsz))
        invariant forall i :: Up(oldsz) <= i < u ==> Holds(V(), a, i, perm, Filled(0))
        invariant Spent(v, V(), a, Ways(Pages(Up(oldsz), u)), u - Up(oldsz))
        decreases newsz - u * 4096
      {
        ghost var w := V();
        var placed := Place(root, u, Filled(0), perm, a);
        KeepsRoot(w, V(), a, u, if placed then u + 1 else u, {});
        if !placed {
          RangeFails(v, w, a, Up(oldsz), u, Up(newsz), 1);
          GrewNot(v, w, V(), a, Up(oldsz), u, Up(newsz));
          ghost var x := V();
          var _ := Uvmdealloc(root, u * 4096, Up(oldsz) * 4096, a);
          GrewUndone(v, x, V(), a, Up(oldsz), u, Up(newsz));
          return 0, false;
        }
        GrewOne(v, w, V(), a, Up(oldsz), u, Up(newsz), perm, Filled(0));
        RangeTurn(v, w, V(), a, Up(oldsz), u, 1);
        u := u + 1;
      }
      SpentAffords(v, V(), a, Ways(Pages(Up(oldsz), u)), u - Up(oldsz));
      KeepsWider(v, V(), a, Up(oldsz), u, {}, Up(oldsz), Up(newsz), {});
      return newsz, true;
    }

    /** uvmdealloc() */
    method Uvmdealloc(root: nat, oldsz: nat, newsz: nat, ghost a: nat) returns (sz: nat)
      requires Inv(V()) && a in spaces && spaces[a].root == root && oldsz <= TRAPFRAME * 4096
      modifies `mem, `head, `free, `role, `spaces
      ensures Inv(V()) && Keeps(old(V()), V(), a, Up(newsz), Up(oldsz), {})
      ensures sz == if newsz >= oldsz then oldsz else newsz
      ensures Clear(spaces[a].flat, Up(newsz), Up(oldsz)) || newsz >= oldsz
    {
      hide Inv, Keeps;
      PlaceNone(V(), a, Up(newsz));
      KeepsWider(V(), V(), a, Up(newsz), Up(newsz), {}, Up(newsz), Up(oldsz), {});
      if newsz >= oldsz {
        return oldsz;
      }
      if Up(newsz) < Up(oldsz) {
        Uvmunmap(root, Up(newsz), Up(oldsz) - Up(newsz), true, a);
      }
      return newsz;
    }

    /** ismapped() */
    method Lookup(root: nat, u: nat, ghost a: nat) returns (pte: Option<Pte>)
      requires Inv(V()) && a in spaces && spaces[a].root == root && u < MAXPAGE
      modifies `mem, `head, `free, `role, `spaces
      ensures V() == old(V()) && pte == if u in spaces[a].flat then Some(spaces[a].flat[u]) else None
    {
      hide Inv, CanUnleaf, LeafThere;
      var low := Walk(root, u, false, a);
      UnmapFacts(V(), a, u);
      if low.None? || !mem[low.value].e[u % 512].valid {
        return None;
      }
      return Some(mem[low.value].e[u % 512]);
    }

    /** uvmcopy()'s turn for one page */
    method CopyOne(old_: nat, new_: nat, u: nat, ghost b: nat, ghost a: nat) returns (ok: bool)
      requires Inv(V()) && a != b && a in spaces && b in spaces && spaces[b].root == old_ && spaces[a].root == new_
      requires Owned(u) && u !in spaces[a].flat
      modifies `mem, `head, `free, `role, `spaces
      ensures Inv(V()) && Keeps(old(V()), V(), a, u, if ok then u + 1 else u, {})
      ensures ok ==> Copied(V(), b, a, u)
      ensures u !in old(spaces)[b].flat ==> ok && V() == old(V())
      ensures u in old(spaces)[b].flat ==> (ok <==> old(Affords(V(), a, Way(u), 1)))
      ensures u in old(spaces)[b].flat && ok ==> Spent(old(V()), V(), a, Way(u), 1)
    {
      hide Inv, Keeps, Spent, Affords, Way;
      ghost var v := V();
      var pte := Lookup(old_, u, b);
      if pte.None? {
        PlaceNone(v, a, u);
        KeepsWider(v, v, a, u, u, {}, u, u + 1, {});
        return true;
      }
      OwnedPage(v, b, u);
      ok := Place(new_, u, mem[pte.value.page], pte.value.perm, a);
      if ok {
        MemoryKept(v, V(), a, u, u + 1, b, u);
      }
    }

    /** uvmcopy(): a copy of every page the parent has mapped below sz, or none. */
    method Uvmcopy(old_: nat, new_: nat, sz: nat, ghost b: nat, ghost a: nat) returns (ok: bool)
      requires Inv(V()) && a != b && a in spaces && b in spaces && spaces[b].root == old_ && spaces[a].root == new_
      requires sz <= TRAPFRAME * 4096 && Clear(spaces[a].flat, 0, Up(sz))
      modifies `mem, `head, `free, `role, `spaces
      ensures Inv(V()) && Keeps(old(V()), V(), a, 0, Up(sz), {})
      ensures ok ==> forall u :: 0 <= u < Up(sz) ==> Copied(V(), b, a, u)
      ensures !ok ==> Clear(spaces[a].flat, 0, Up(sz))
      ensures ok <==> |old(free)| >= Price(old(spaces)[a], MappedBelow(old(spaces)[b].flat, Up(sz)))
    {
      hide Inv, Keeps, Copied, CopiedTo, Spent, Affords, Price, MappedBelow, Way;
      ghost var v := V();
      CopyStarts(v, a, v.spaces[b].flat);
      PlaceNone(v, a, 0);
      var u := 0;
      while u * 4096 < sz
        invariant 0 <= u <= Up(sz) && Inv(V()) && Keeps(v, V(), a, 0, u, {})
        invariant a in spaces && b in spaces && spaces[b].root == old_ && spaces[a].root == new_
        invariant Clear(spaces[a].flat, u, Up(sz))
        invariant forall i :: 0 <= i < u ==> Copied(V(), b, a, i)
        invariant spaces[b] == v.spaces[b] && CopiedTo(v, V(), a, v.spaces[b].flat, u)
        decreases sz - u * 4096
      {
        ghost var w := V();
        ok := CopyOne(old_, new_, u, b, a);
        KeepsRoot(w, V(), a, u, if ok then u + 1 else u, {});
        if !ok {
          CopyFails(v, w, a, v.spaces[b].flat, u, Up(sz));
          GrewNot(v, w, V(), a, 0, u, Up(sz));
          ghost var x := V();
          Uvmunmap(new_, 0, u, true, a);
          GrewUndone(v, x, V(), a, 0, u, Up(sz));
          return;
        }
        KeepsMore(v, w, V(), a, 0, u, u + 1);
        ClearKept(w, V(), a, u, u + 1, u + 1, Up(sz));
        forall i | 0 <= i < u ensures Copied(V(), b, a, i) {
          CopiedStill(w, V(), b, a, u, i);
        }
        CopyTurn(v, w, V(), a, v.spaces[b].flat, u);
        u := u + 1;
      }
      CopyEnds(v, V(), a, v.spaces[b].flat, u);
      return true;
    }

    /** vmfault() on address va of a process of size sz */
    method Vmfault(root: nat, va: nat, sz: nat, ghost a: nat) returns (ok: bool)
      requires Inv(V()) && a in spaces && spaces[a].root == root && sz <= TRAPFRAME * 4096
      modifies `mem, `head, `free, `role, `spaces
      ensures Inv(V()) && Keeps(old(V()), V(), a, va / 4096, if ok then va / 4096 + 1 else va / 4096, {})
      ensures ok ==>
        && va < sz && old(va / 4096 !in spaces[a].flat)
        && Holds(V(), a, va / 4096, Perm(true, true, false, true), Filled(0))
      ensures va >= sz || old(va / 4096 in spaces[a].flat) ==> !ok && V() == old(V())
      ensures va < sz && old(va / 4096 !in spaces[a].flat) ==> (ok <==> old(Backable(V(), a, va / 4096)))
    {
      hide Inv, Keeps, Holds, Backable, Affords, Way;
      PagePrice(V(), a, va / 4096);
      PlaceNone(V(), a, va / 4096);
      if va >= sz {
        return false;
      }
      var pte := Lookup(root, va / 4096, a);
      if pte.Some? {
        return false;
      }
      ok := Place(root, va / 4096, Filled(0), Perm(true, true, false, true), a);
    }

    /** freewalk()'s turn for entry i */
    method FreewalkEntry(page: nat, i: nat, ghost level: nat, ghost key: nat, ghost a: nat, ghost s: Space,
      ghost v: Mem)
      requires FreeOk(V()) && i < 512 && level <= 2 && Passed(v, V(), a, level, key, page, i)
      requires (level == 2 ==> key == 0)
      requires Intact(v.mem, v.role, a, s, level, key) && OwnTables(v.role, a, s) && Rooted(s)
      requires key in Nodes(s, level) && Nodes(s, level)[key] == page
      modifies `mem, `head, `free, `role, `spaces
      ensures FreeOk(V()) && Passed(v, V(), a, level, key, page, i + 1)
      decreases level, 0
    {
      hide FreeOk, Intact, OwnTables, Rooted, Freed;
      IntactNode(v.mem, v.role, a, s, level, key);
      var pte := mem[page].e[i];
      if pte.valid && !pte.perm.r && !pte.perm.w && !pte.perm.x {
        KidIntact(v, V(), a, s, level, key, page, i);
        OwnStill(v, V(), a, s, level, key, page, i);
        ghost var w := V();
        Freewalk(pte.page, level - 1, key * 512 + i, a, s);
        PassedNext(v, w, V(), a, level, key, page, i);
        EntryFree(V(), page, i);
        mem := mem[page := Table(mem[page].e[i := zeroPte])];
      } else if pte.valid {
        assert false;
      } else {
        PassedEmpty(v, V(), a, s, level, key, page, i);
      }
    }

    /** freewalk() of the table of that level and key */
    method Freewalk(page: nat, ghost level: nat, ghost key: nat, ghost a: nat, ghost s: Space)
      requires FreeOk(V()) && level <= 2 && (level == 2 ==> key == 0)
      requires Intact(mem, role, a, s, level, key) && OwnTables(role, a, s) && Rooted(s) && key in Nodes(s, level)
      requires Nodes(s, level)[key] == page
      modifies `mem, `head, `free, `role, `spaces
      ensures FreeOk(V()) && Freed(old(V()), V(), a, level, key)
      decreases level, 1
    {
      hide FreeOk, Intact, OwnTables, Rooted, Freed, Passed;
      ghost var v := V();
      IntactNode(v.mem, v.role, a, s, level, key);
      PassedStart(v, a, level, key, page);
      var i := 0;
      while i < 512
        invariant 0 <= i <= 512 && FreeOk(V()) && Passed(v, V(), a, level, key, page, i)
      {
        FreewalkEntry(page, i, level, key, a, s, v);
        i := i + 1;
      }
      PassedAll(v, V(), a, s, level, key, page);
      PassedPage(v, V(), a, level, key, page);
      HeldFree(V(), page);
      role := role[page := Held];
      Kfree(page);
    }

    /** uvmfree(): the memory and the tables of a, which has nothing mapped from Up(sz) on. */
    method Uvmfree(root: nat, sz: nat, ghost a: nat)
      requires Inv(V()) && a in spaces && spaces[a].root == root && sz <= TRAPFRAME * 4096
      requires forall u :: u in spaces[a].flat ==> u < Up(sz)
      modifies `mem, `head, `free, `role, `spaces
      ensures Inv(V()) && Released(old(V()), V(), a)
    {
      hide Inv, Keeps, Released, Intact, OwnTables, Rooted, FreeOk;
      ghost var v := V();
      UnmapSame(v, a, 0);
      PlaceNone(v, a, 0);
      if sz > 0 {
        Uvmunmap(root, 0, Up(sz), true, a);
      }
      KeepsRoot(v, V(), a, 0, Up(sz), {});
      ghost var w := V();
      NothingMapped(v, w, a, Up(sz));
      EmptyIntact(w, a);
      InvFree(w);
      spaces := spaces - {a};
      FreeOkSpaces(w, spaces);
      Freewalk(root, 2, 0, a, w.spaces[a]);
      FreedReleases(w, V(), a);
      ReleasedKeeps(w, V(), a);
      KeepsReleased(v, w, V(), a, 0, Up(sz));
    }

    /** uvmcreate() */
    method Uvmcreate(ghost a: nat) returns (root: Option<nat>)
      requires Inv(V()) && a !in spaces
      modifies `mem, `head, `free, `role, `spaces
      ensures Inv(V())
      ensures root.None? ==> V() == old(V())
      ensures root.Some? ==> Opened(old(V()), V(), a) && spaces[a] == Space(root.value, map[], map[], map[])
      ensures root.Some? <==> old(free) != []
      ensures root.Some? ==> Bare(old(V()), V(), a)
    {
      hide Inv, Opened, FreeOk, Bare;
      ghost var v := V();
      InvFree(v);
      root := Kalloc();
      if root.Some? {
        CreatedKeeps(v, a);
        Clean(root.value, a, v);
        BareSpace(v, V(), a);
      }
    }

    /** uvmcreate() clearing the page it got */
    method Clean(root: nat, ghost a: nat, ghost v: Mem)
      requires v.free != [] && v.free[0] == root && root in v.mem && V() == v.Taken()
      modifies `mem, `role, `spaces
      ensures V() == Created(v, a)
    {
      mem := mem[root := ZeroTable()];
      role := role[root := Root(a)];
      spaces := spaces[a := Space(root, map[], map[], map[])];
    }

    /** proc_pagetable() */
    method ProcPagetable(trapframe: nat, ghost a: nat) returns (root: Option<nat>)
      requires Inv(V()) && a !in spaces
      modifies `mem, `head, `free, `role, `spaces
      ensures Inv(V())
      ensures root.None? ==> Restored(old(V()), V())
      ensures root.Some? ==>
        Opened(old(V()), V(), a) && spaces[a].root == root.value && spaces[a].flat == Entries(trampoline, trapframe)
      ensures root.Some? <==> |old(free)| >= 3
      ensures root.Some? ==> Made(old(V()), V(), a)
    {
      hide Inv, Keeps, Opened, Restored, Released, FreeOk, Bare, Made, Spent, Affords, Way;
      ghost var v := V();
      InvFree(v);
      RestoredSame(v);
      root := Uvmcreate(a);
      if root.None? {
        return;
      }
      OpenedSpace(v, V(), a);
      ghost var w := V();
      var ok := MapOne(root.value, TRAMPOLINE, trampoline, rx, a);
      ghost var x := V();
      KeepsRoot(w, x, a, TRAMPOLINE, if ok then TRAMPOLINE + 1 else TRAMPOLINE, {});
      OpenedKeeps(v, w, x, a, TRAMPOLINE, if ok then TRAMPOLINE + 1 else TRAMPOLINE, {});
      if !ok {
        FirstMapped(v, w, a);
        FlatSame(w, x, a, TRAMPOLINE);
        Uvmfree(root.value, 0, a);
        OpenedReleased(v, x, V(), a);
        return None;
      }
      FlatAdds(w, x, a, TRAMPOLINE, trampoline, rx);
      SecondMapped(v, w, x, a);
      ok := MapOne(root.value, TRAPFRAME, trapframe, rw, a);
      ghost var y := V();
      KeepsRoot(x, y, a, TRAPFRAME, if ok then TRAPFRAME + 1 else TRAPFRAME, {});
      OpenedKeeps(v, x, y, a, TRAPFRAME, if ok then TRAPFRAME + 1 else TRAPFRAME, {});
      if !ok {
        FlatSame(x, y, a, TRAPFRAME);
        Uvmunmap(root.value, TRAMPOLINE, 1, false, a);
        ghost var z := V();
        KeepsRoot(y, z, a, TRAMPOLINE, TRAMPOLINE + 1, {});
        OpenedKeeps(v, y, z, a, TRAMPOLINE, TRAMPOLINE + 1, {});
        FlatDrops(y, z, a, TRAMPOLINE);
        Uvmfree(root.value, 0, a);
        OpenedReleased(v, z, V(), a);
        return None;
      }
      FlatAdds(x, y, a, TRAPFRAME, trapframe, rw);
      BothMapped(v, w, x, y, a);
    }

    /** proc_freepagetable() */
    method ProcFreepagetable(root: nat, sz: nat, ghost a: nat)
      requires Inv(V()) && a in spaces && spaces[a].root == root && sz <= TRAPFRAME * 4096 && Below(spaces[a].flat, sz)
      modifies `mem, `head, `free, `role, `spaces
      ensures Inv(V()) && Released(old(V()), V(), a)
    {
      hide Inv, Keeps, Released;
      ghost var v := V();
      Uvmunmap(root, TRAMPOLINE, 1, false, a);
      ghost var w := V();
      KeepsRoot(v, w, a, TRAMPOLINE, TRAMPOLINE + 1, {});
      FlatDrops(v, w, a, TRAMPOLINE);
      Uvmunmap(root, TRAPFRAME, 1, false, a);
      ghost var x := V();
      KeepsRoot(w, x, a, TRAPFRAME, TRAPFRAME + 1, {});
      FlatDrops(w, x, a, TRAPFRAME);
      Uvmfree(root, sz, a);
      KeepsReleased(w, x, V(), a, TRAPFRAME, TRAPFRAME + 1);
      KeepsReleased(v, w, V(), a, TRAMPOLINE, TRAMPOLINE + 1);
    }

    /** growproc(n) for n > 0 */
    method Grow(a: nat, n: nat) returns (ok: bool)
      requires AllOk(V(), procs, kernel, trampoline) && a in procs && n > 0
      modifies `mem, `head, `free, `role, `spaces, `procs
      ensures AllOk(V(), procs, kernel, trampoline)
      ensures Keeps(old(V()), V(), a, Up(old(procs)[a].sz), Up(old(procs)[a].sz + n), {})
      ensures procs == if ok then old(procs)[a := old(procs)[a].(sz := old(procs)[a].sz + n)] else old(procs)
      ensures ok ==> forall u :: Up(old(procs)[a].sz) <= u < Up(old(procs)[a].sz + n) ==>
        Holds(V(), a, u, Perm(true, true, false, true), Filled(0))
      ensures !ok ==> Clear(spaces[a].flat, Up(old(procs)[a].sz), TRAPFRAME)
      ensures ok <==>
        && old(procs)[a].sz + n <= TRAPFRAME * 4096
        && |old(free)| >= Price(old(spaces)[a], Pages(Up(old(procs)[a].sz), Up(old(procs)[a].sz + n)))
    {
      hide Inv, Keeps, HeldOk, Holds, Below, Price, Pages;
      ghost var v, ps := V(), procs;
      var x := procs[a];
      assert ProcOk(v, a, x, trampoline);
      PlaceNone(v, a, Up(x.sz));
      BelowClear(spaces[a].flat, x.sz, TRAPFRAME);
      if x.sz + n > TRAPFRAME * 4096 {
        KeepsWider(v, v, a, Up(x.sz), Up(x.sz), {}, Up(x.sz), Up(x.sz + n), {});
        return false;
      }
      var sz;
      ghost var done;
      sz, done := Uvmalloc(x.root, x.sz, x.sz + n, Perm(false, true, false, false), a);
      KeepsRoot(v, V(), a, Up(x.sz), Up(x.sz + n), {});
      if sz == 0 {
        BelowSame(v, V(), a, x.sz, Up(x.sz + n));
        ResizedOk(v, V(), ps, kernel, trampoline, a, Up(x.sz), Up(x.sz + n), x.sz);
        BelowClear(spaces[a].flat, x.sz, TRAPFRAME);
        assert ps[a := ps[a].(sz := x.sz)] == ps;
        return false;
      }
      BelowKept(v, V(), a, Up(x.sz), Up(x.sz + n), x.sz, x.sz + n);
      ResizedOk(v, V(), ps, kernel, trampoline, a, Up(x.sz), Up(x.sz + n), x.sz + n);
      procs := procs[a := x.(sz := sz)];
      return true;
    }

    /** growproc(n) for n < 0; asking for less than nothing changes nothing */
    method Shrink(a: nat, n: int)
      requires AllOk(V(), procs, kernel, trampoline) && a in procs && -0x8000_0000 <= n < 0
      modifies `mem, `head, `free, `role, `spaces, `procs
      ensures AllOk(V(), procs, kernel, trampoline)
      ensures var sz := old(procs)[a].sz;
        && procs == (if sz + n >= 0 then old(procs)[a := old(procs)[a].(sz := sz + n)] else old(procs))
        && a in procs && Keeps(old(V()), V(), a, Up(procs[a].sz), Up(sz), {}) && a in spaces
        && Clear(spaces[a].flat, Up(procs[a].sz), TRAPFRAME)
    {
      hide Inv, Keeps, HeldOk, Below;
      ghost var v, ps := V(), procs;
      var x := procs[a];
      assert ProcOk(v, a, x, trampoline);
      var sz := Uvmdealloc(x.root, x.sz, Shrunk(x.sz, n), a);
      KeepsRoot(v, V(), a, Up(Shrunk(x.sz, n)), Up(x.sz), {});
      ShrunkBelow(v, V(), a, x.sz, Shrunk(x.sz, n), sz);
      ResizedOk(v, V(), ps, kernel, trampoline, a, Up(sz), Up(x.sz), sz);
      BelowClear(spaces[a].flat, sz, TRAPFRAME);
      procs := procs[a := x.(sz := sz)];
    }

    /** sys_sbrk(): grows or shrinks at once, or grows only in name, for vmfault() to back later */
    method Sbrk(a: nat, n: int, eager: bool) returns (ok: bool)
      requires AllOk(V(), procs, kernel, trampoline) && a in procs && -0x8000_0000 <= n < 0x8000_0000
      modifies `mem, `head, `free, `role, `spaces, `procs
      ensures AllOk(V(), procs, kernel, trampoline) && procs.Keys == old(procs).Keys
      ensures var sz := old(procs)[a].sz;
        procs == old(procs)[a := old(procs)[a].(sz := NewSize(sz, n, ok))] &&
        (sz + n > TRAPFRAME * 4096 ==> !ok) && (n <= 0 ==> ok) && (!eager && 0 <= sz + n <= TRAPFRAME * 4096 ==> ok) &&
        (!eager && n >= 0 ==> V() == old(V()))
      ensures var sz := old(procs)[a].sz; eager && n > 0 ==>
        (ok <==> sz + n <= TRAPFRAME * 4096 && |old(free)| >= Price(old(spaces)[a], Pages(Up(sz), Up(sz + n))))
    {
      hide AllOk, Price, Pages;
      AllOkSize(V(), procs, kernel, trampoline, a);
      if n < 0 {
        Shrink(a, n);
        return true;
      }
      assert procs[a := procs[a].(sz := procs[a].sz)] == procs;
      if eager {
        if n == 0 {
          return true;
        }
        ok := Grow(a, n);
        return;
      }
      if procs[a].sz + n > TRAPFRAME * 4096 {
        return false;
      }
      LazyOk(V(), procs, kernel, trampoline, a, procs[a].sz + n);
      procs := procs[a := procs[a].(sz := procs[a].sz + n)];
      return true;
    }

    /** A page fault of process a at address va */
    method Fault(a: nat, va: nat) returns (ok: bool)
      requires AllOk(V(), procs, kernel, trampoline) && a in procs
      modifies `mem, `head, `free, `role, `spaces, `procs
      ensures AllOk(V(), procs, kernel, trampoline) && procs == old(procs)
      ensures Keeps(old(V()), V(), a, va / 4096, if ok then va / 4096 + 1 else va / 4096, {})
      ensures ok ==>
        && va < procs[a].sz && old(va / 4096 !in spaces[a].flat)
        && Holds(V(), a, va / 4096, Perm(true, true, false, true), Filled(0))
      ensures va >= procs[a].sz || old(a in spaces && va / 4096 in spaces[a].flat) ==> !ok && V() == old(V())
      ensures va < procs[a].sz && old(va / 4096 !in spaces[a].flat) ==> (ok <==> old(Backable(V(), a, va / 4096)))
    {
      hide Inv, Keeps, HeldOk, Below, Backable;
      ghost var v, ps := V(), procs;
      var x := procs[a];
      assert ProcOk(v, a, x, trampoline);
      ok := Vmfault(x.root, va, x.sz, a);
      ghost var hi := if ok then va / 4096 + 1 else va / 4096;
      KeepsRoot(v, V(), a, va / 4096, hi, {});
      FaultBelow(v, V(), a, va / 4096, hi, x.sz);
      ResizedOk(v, V(), ps, kernel, trampoline, a, va / 4096, hi, x.sz);
      assert ps[a := ps[a].(sz := x.sz)] == ps;
    }

    /** allocproc(), as far as memory goes */
    method Allocproc(a: nat) returns (ok: bool, ghost w: Mem)
      requires AllOk(V(), procs, kernel, trampoline) && a !in procs
      modifies `mem, `head, `free, `role, `spaces, `procs
      ensures AllOk(V(), procs, kernel, trampoline)
      ensures !ok ==> procs == old(procs) && Restored(old(V()), V())
      ensures ok ==> a in procs && procs == old(procs)[a := Proc(procs[a].root, 0, procs[a].trapframe)]
      ensures ok ==>
        && Gets(old(V()), w, procs[a].trapframe) && Opened(w, V(), a)
        && spaces[a].flat == Entries(trampoline, procs[a].trapframe)
      ensures ok <==> |old(free)| >= 4
      ensures ok ==> |w.free| + 1 == |old(free)| && Made(w, V(), a)
    {
      hide AllOk, Inv, FreeOk, Restored, Opened, Gets, Below, Made, Topped, Entries;
      ghost var v := V();
      w := v;
      AllOkInv(v, procs, kernel, trampoline);
      InvFree(v);
      RestoredSame(v);
      var tf := Kalloc();
      if tf.None? {
        return false, v;
      }
      GetsTaken(v);
      w := V();
      GetsSpaces(v, w, tf.value);
      var root := ProcPagetable(tf.value, a);
      if root.None? {
        Unalloc(tf.value, v, w);
        return false, w;
      }
      EntriesBelow(trampoline, tf.value);
      AllocOk(v, w, V(), procs, kernel, trampoline, a, tf.value, root.value);
      procs := procs[a := Proc(root.value, 0, tf.value)];
      return true, w;
    }

    /** freeproc() of a process that never got its page table */
    method Unalloc(tf: nat, ghost v: Mem, ghost w: Mem)
      requires Inv(V()) && Gets(v, w, tf) && Restored(w, V()) && AllOk(v, procs, kernel, trampoline)
      modifies `mem, `head, `free, `role, `spaces
      ensures AllOk(V(), procs, kernel, trampoline) && Restored(v, V())
    {
      hide AllOk, Inv, FreeOk, Restored, Gets;
      AllocFails(v, w, V(), tf);
      InvFree(V());
      GivenInv(V(), tf);
      Kfree(tf);
      RestoredOk(v, V(), procs, kernel, trampoline);
    }

    /** freeproc(), as far as memory goes */
    method Freeproc(a: nat)
      requires AllOk(V(), procs, kernel, trampoline) && a in procs
      modifies `mem, `head, `free, `role, `spaces, `procs
      ensures AllOk(V(), procs, kernel, trampoline) && procs == old(procs) - {a}
      ensures Gone(old(V()), V(), a, old(procs)[a].trapframe)
    {
      hide Inv, FreeOk, HeldOk, Released, Gone, Below;
      ghost var v := V();
      var x := procs[a];
      assert ProcOk(v, a, x, trampoline);
      InvFree(v);
      GivenInv(v, x.trapframe);
      Kfree(x.trapframe);
      ProcFreepagetable(x.root, x.sz, a);
      GivenReleased(v, V(), a, x.trapframe);
      FreeprocOk(v, V(), procs, kernel, trampoline, a);
      procs := procs - {a};
    }

    /** kfork() giving up after a failed copy */
    method Unfork(np: nat, ghost v: Mem, ghost w: Mem, ghost x: Mem, ghost top: nat)
      requires AllOk(V(), procs, kernel, trampoline) && np in procs && Keeps(x, V(), np, 0, top, {})
      requires Gets(v, w, procs[np].trapframe) && Opened(w, x, np)
      modifies `mem, `head, `free, `role, `spaces, `procs
      ensures AllOk(V(), procs, kernel, trampoline) && procs == old(procs) - {np} && Restored(v, V())
    {
      hide AllOk, Gone, Keeps, Gets, Opened, Restored;
      ghost var y, tf := V(), procs[np].trapframe;
      Freeproc(np);
      OpenedGone(v, w, x, y, V(), np, tf, 0, top);
    }

    /** kfork(), as far as memory goes: the child gets a copy of every page, on pages of its own, or
        everything is as before. */
    method Fork(p: nat, np: nat) returns (ok: bool)
      requires AllOk(V(), procs, kernel, trampoline) && p in procs && np !in procs
      modifies `mem, `head, `free, `role, `spaces, `procs
      ensures AllOk(V(), procs, kernel, trampoline)
      ensures !ok ==> procs == old(procs) && Restored(old(V()), V())
      ensures ok ==>
        && np in procs
        && procs == old(procs)[np := Proc(procs[np].root, old(procs)[p].sz, procs[np].trapframe)]
      ensures ok ==> Child(old(V()), V(), p, np, old(procs)[p].sz)
      ensures ok <==> |old(free)| >= ForkPrice(old(spaces)[p], old(procs)[p].sz)
    {
      hide AllOk, Restored, Opened, Gets, Keeps, Copied, Child, Made, Price, MappedBelow, ForkPrice;
      ghost var v := V();
      ghost var w;
      AllOkSpace(v, procs, kernel, trampoline, p);
      ForkTakesFour(v.spaces[p], procs[p].sz);
      ok, w := Allocproc(np);
      if !ok {
        return;
      }
      ghost var x, ps := V(), procs;
      OpenedOther(v, w, x, np, p, procs[np].trapframe);
      ForkPriceIs(v, w, x, np, v.spaces[p], procs[p].sz);
      ForkFacts(x, procs, kernel, trampoline, p, np);
      ok := Uvmcopy(procs[p].root, procs[np].root, procs[p].sz, p, np);
      if !ok {
        ForkFailed(x, V(), ps, kernel, trampoline, p, np);
        Unfork(np, v, w, x, Up(ps[p].sz));
        assert procs == old(procs);
        return;
      }
      ForkCopied(v, w, x, V(), ps, kernel, trampoline, p, np);
      procs := procs[np := procs[np].(sz := procs[p].sz)];
    }

    /** A page for the kernel's own use, as for a pipe or a kernel stack */
    method KernelAlloc() returns (p: Option<nat>)
      requires AllOk(V(), procs, kernel, trampoline)
      modifies `mem, `head, `free, `role, `spaces, `kernel
      ensures AllOk(V(), procs, kernel, trampoline)
      ensures p.None? ==> old(free) == [] && V() == old(V()) && kernel == old(kernel)
      ensures p.Some? ==>
        && p.value in old(role) && old(role)[p.value].Free? && kernel == old(kernel) + {p.value}
        && Gets(old(V()), V(), p.value)
    {
      hide Inv, HeldOk, FreeOk, ProcOk;
      ghost var v := V();
      InvFree(v);
      p := Kalloc();
      if p.Some? {
        GetsTaken(v);
        KernelTook(v, V(), procs, kernel, trampoline, p.value);
        GetsFree(v, V(), p.value);
        kernel := kernel + {p.value};
      }
    }

    /** and back */
    method KernelFree(p: nat)
      requires AllOk(V(), procs, kernel, trampoline) && p in kernel
      modifies `mem, `head, `free, `role, `spaces, `kernel
      ensures AllOk(V(), procs, kernel, trampoline) && kernel == old(kernel) - {p} && p in role && role[p].Free?
      ensures V() == old(V()).Given(p)
    {
      hide Inv, FreeOk, ProcOk;
      InvFree(V());
      GivenInv(V(), p);
      KernelGave(V(), procs, kernel, trampoline, p);
      Kfree(p);
      kernel := kernel - {p};
    }
  }
}
