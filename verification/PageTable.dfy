/** Physical pages and three-level page tables: what kernel/kalloc.c and kernel/vm.c keep in memory, and
    the flat maps it stands for.

    Pages and virtual pages are numbered.  Virtual page u has the indices u / 512 / 512, u / 512 % 512
    and u % 512.  Every physical page has one role. */
module PageTable {
  import opened Basics

  datatype Perm = Perm(r: bool, w: bool, x: bool, u: bool)

  datatype Pte = Pte(valid: bool, perm: Perm, page: nat)

  const noPerm := Perm(false, false, false, false)
  const zeroPte := Pte(false, noPerm, 0)

  /** An entry that points at a lower table. */
  function Link(p: nat): Pte { Pte(true, noPerm, p) }

  /** What is in a page: the link of a free page, 512 entries, or bytes. */
  datatype Page = Run(next: Option<nat>) | Table(e: seq<Pte>) | Bytes(b: seq<nat>)

  function ZeroTable(): (p: Page)
    ensures p.Table? && |p.e| == 512 && forall i :: 0 <= i < 512 ==> p.e[i] == zeroPte
  {
    Table(seq(512, _ => zeroPte))
  }

  function Filled(c: nat): Page { Bytes(seq(4096, _ => c)) }

  /** MAXVA, and the pages of TRAMPOLINE and TRAPFRAME at its end. */
  const MAXPAGE: nat := 0x400_0000
  const TRAMPOLINE: nat := MAXPAGE - 1
  const TRAPFRAME: nat := MAXPAGE - 2

  /** Pages below the trapframe belong to the address space that maps them. */
  predicate Owned(u: nat) { u < TRAPFRAME }

  /** What a page is used for: free, the root, middle or lowest tables of address space a, the memory
      behind virtual page u of a, or held by the kernel. */
  datatype Role = Free | Root(a: nat) | Mid(a: nat, i: nat) | Low(a: nat, k: nat) | User(a: nat, u: nat) | Held

  /** An address space: its tables by the indices they stand for, and the map they hold. */
  datatype Space = Space(root: nat, mid: map<nat, nat>, low: map<nat, nat>, flat: map<nat, Pte>)

  datatype Mem = Mem(
    mem: map<nat, Page>, head: Option<nat>, free: seq<nat>, role: map<nat, Role>, spaces: map<nat, Space>)
  {
    // The steps the code takes, one memory write or two at a time.

    function Taken(): Mem
      requires free != [] && free[0] in mem
    {
      this.(mem := mem[free[0] := Filled(5)], head := if |free| > 1 then Some(free[1]) else None, free := free[1..],
            role := role[free[0] := Held])
    }

    function Given(p: nat): Mem
    {
      this.(mem := mem[p := Run(head)], head := Some(p), free := [p] + free, role := role[p := Free])
    }

    /** A page the kernel holds is written. */
    function Written(p: nat, x: Page): Mem { this.(mem := mem[p := x]) }

    function Entry(t: nat, i: nat, x: Pte): map<nat, Page>
      requires t in mem && mem[t].Table? && i < |mem[t].e|
    {
      mem[t := Table(mem[t].e[i := x])]
    }

    function WithMid(a: nat, i: nat, p: nat): Mem
      requires a in spaces && IsTable(mem, spaces[a].root) && i < 512
    {
      var s := spaces[a];
      this.(mem := Entry(s.root, i, Link(p)), role := role[p := Mid(a, i)],
        spaces := spaces[a := s.(mid := s.mid[i := p])])
    }

    function WithLow(a: nat, k: nat, p: nat): Mem
      requires a in spaces && k / 512 in spaces[a].mid && IsTable(mem, spaces[a].mid[k / 512])
    {
      var s := spaces[a];
      this.(mem := Entry(s.mid[k / 512], k % 512, Link(p)), role := role[p := Low(a, k)],
        spaces := spaces[a := s.(low := s.low[k := p])])
    }

    function WithLeaf(a: nat, u: nat, x: Pte): Mem
      requires a in spaces && u / 512 in spaces[a].low && IsTable(mem, spaces[a].low[u / 512])
    {
      var s := spaces[a];
      this.(mem := Entry(s.low[u / 512], u % 512, x), role := if Owned(u) then role[x.page := User(a, u)] else role,
            spaces := spaces[a := s.(flat := s.flat[u := x])])
    }

    function WithoutLeaf(a: nat, u: nat): Mem
      requires a in spaces && u / 512 in spaces[a].low && IsTable(mem, spaces[a].low[u / 512]) && u in spaces[a].flat
    {
      var s := spaces[a];
      this.(mem := Entry(s.low[u / 512], u % 512, zeroPte),
            role := if Owned(u) then role[s.flat[u].page := Held] else role,
            spaces := spaces[a := s.(flat := s.flat - {u})])
    }
  }

  predicate IsTable(mem: map<nat, Page>, t: nat) { t in mem && mem[t].Table? && |mem[t].e| == 512 }

  // ---------------------------------------------------------------- the invariant

  /** The free list, linked through its pages, holds each free page once. */
  ghost predicate FreeOk(v: Mem)
  {
    && v.mem.Keys == v.role.Keys && v.head == (if v.free == [] then None else Some(v.free[0]))
    && (forall i :: 0 <= i < |v.free| ==> FreeAt(v, i))
    && (forall i, j :: 0 <= i < j < |v.free| ==> v.free[i] != v.free[j])
    && forall p :: p in v.role && v.role[p].Free? ==> p in v.free
  }

  ghost predicate FreeAt(v: Mem, i: nat)
    requires i < |v.free|
  {
    && v.free[i] in v.role && v.role[v.free[i]].Free? && v.free[i] in v.mem
    && v.mem[v.free[i]] == Run(if i + 1 < |v.free| then Some(v.free[i + 1]) else None)
  }

  function LinkTo(m: map<nat, nat>, k: nat): Pte { if k in m then Link(m[k]) else zeroPte }
  function LeafAt(m: map<nat, Pte>, u: nat): Pte { if u in m then m[u] else zeroPte }

  ghost predicate RootOk(mem: map<nat, Page>, role: map<nat, Role>, a: nat, s: Space)
  {
    && IsTable(mem, s.root) && s.root in role && role[s.root] == Root(a)
    && forall i :: 0 <= i < 512 ==> mem[s.root].e[i] == LinkTo(s.mid, i)
  }

  ghost predicate MidOk(mem: map<nat, Page>, role: map<nat, Role>, a: nat, s: Space, i: nat)
    requires i in s.mid
  {
    && i < 512 && IsTable(mem, s.mid[i]) && s.mid[i] in role && role[s.mid[i]] == Mid(a, i)
    && forall j :: 0 <= j < 512 ==> mem[s.mid[i]].e[j] == LinkTo(s.low, i * 512 + j)
  }

  ghost predicate LowOk(mem: map<nat, Page>, role: map<nat, Role>, a: nat, s: Space, k: nat)
    requires k in s.low
  {
    && k / 512 in s.mid && IsTable(mem, s.low[k]) && s.low[k] in role && role[s.low[k]] == Low(a, k)
    && forall j :: 0 <= j < 512 ==> mem[s.low[k]].e[j] == LeafAt(s.flat, k * 512 + j)
  }

  ghost predicate FlatOk(role: map<nat, Role>, a: nat, s: Space, u: nat)
    requires u in s.flat
  {
    && u < MAXPAGE && u / 512 in s.low && s.flat[u].valid
    && (Owned(u) ==> s.flat[u].page in role && role[s.flat[u].page] == User(a, u))
  }

  /** The tables of address space a hold its map. */
  ghost predicate SpaceOk(mem: map<nat, Page>, role: map<nat, Role>, a: nat, s: Space)
  {
    && RootOk(mem, role, a, s)
    && (forall i :: i in s.mid ==> MidOk(mem, role, a, s, i))
    && (forall k :: k in s.low ==> LowOk(mem, role, a, s, k))
    && (forall u :: u in s.flat ==> FlatOk(role, a, s, u))
  }

  /** A page that plays a part in an address space is the page the address space has there. */
  ghost predicate RoleOk(role: map<nat, Role>, spaces: map<nat, Space>, p: nat)
    requires p in role
  {
    match role[p]
    case Free => true
    case Root(a) => a in spaces && spaces[a].root == p
    case Mid(a, i) => a in spaces && i in spaces[a].mid && spaces[a].mid[i] == p
    case Low(a, k) => a in spaces && k in spaces[a].low && spaces[a].low[k] == p
    case User(a, u) => a in spaces && u in spaces[a].flat && spaces[a].flat[u].page == p && Owned(u)
    case Held => true
  }

  ghost predicate Inv(v: Mem)
  {
    && FreeOk(v)
    && (forall a :: a in v.spaces ==> SpaceOk(v.mem, v.role, a, v.spaces[a]))
    && (forall p :: p in v.role ==> RoleOk(v.role, v.spaces, p))
  }

  // ---------------------------------------------------------------- each step keeps it

  predicate TableOf(r: Role, a: nat)
  {
    (r.Root? && r.a == a) || (r.Mid? && r.a == a) || (r.Low? && r.a == a)
  }

  /** Tables and memory of address space a are untouched. */
  ghost predicate Untouched(mem: map<nat, Page>, role: map<nat, Role>, mem': map<nat, Page>, role': map<nat, Role>,
    a: nat)
  {
    && (forall p :: p in role && p in mem && TableOf(role[p], a) ==>
      p in role' && p in mem' && role'[p] == role[p] && mem'[p] == mem[p])
    && (forall p :: p in role && role[p].User? && role[p].a == a ==> p in role' && role'[p] == role[p])
  }

  lemma SpaceFrame(mem: map<nat, Page>, role: map<nat, Role>, mem': map<nat, Page>, role': map<nat, Role>, a: nat,
    s: Space)
    requires SpaceOk(mem, role, a, s) && Untouched(mem, role, mem', role', a)
    ensures SpaceOk(mem', role', a, s)
  {
    forall i | i in s.mid ensures MidOk(mem', role', a, s, i) {
      assert MidOk(mem, role, a, s, i);
    }
    forall k | k in s.low ensures LowOk(mem', role', a, s, k) {
      assert LowOk(mem, role, a, s, k);
    }
    forall u | u in s.flat ensures FlatOk(role', a, s, u) {
      assert FlatOk(role, a, s, u);
    }
  }

  /** Pages that were free or held, and still are, are all that changed. */
  ghost predicate OnlySpare(v: Mem, w: Mem)
  {
    && w.spaces == v.spaces && w.role.Keys == v.role.Keys
    && forall p :: p in v.role ==>
         if v.role[p].Free? || v.role[p].Held? then w.role[p].Free? || w.role[p].Held?
         else p in v.mem && p in w.mem && w.role[p] == v.role[p] && w.mem[p] == v.mem[p]
  }

  lemma SpareKeeps(v: Mem, w: Mem)
    requires Inv(v) && OnlySpare(v, w) && FreeOk(w)
    ensures Inv(w)
  {
    forall a | a in w.spaces ensures SpaceOk(w.mem, w.role, a, w.spaces[a]) {
      SpaceFrame(v.mem, v.role, w.mem, w.role, a, v.spaces[a]);
    }
    forall p | p in w.role ensures RoleOk(w.role, w.spaces, p) {
      assert RoleOk(v.role, v.spaces, p);
    }
  }

  lemma TakenKeeps(v: Mem)
    requires FreeOk(v) && v.free != [] && FreeAt(v, 0)
    ensures FreeOk(v.Taken()) && OnlySpare(v, v.Taken())
  {
    var w := v.Taken();
    forall i | 0 <= i < |w.free| ensures FreeAt(w, i) {
      assert FreeAt(v, i + 1);
    }
    forall p | p in w.role && w.role[p].Free? ensures p in w.free {
      assert p in v.free && p != v.free[0];
    }
  }

  lemma GivenKeeps(v: Mem, p: nat)
    requires FreeOk(v) && p in v.role && v.role[p].Held?
    ensures FreeOk(v.Given(p)) && OnlySpare(v, v.Given(p))
  {
    var w := v.Given(p);
    forall i | 0 <= i < |w.free| ensures FreeAt(w, i) {
      if i > 0 {
        assert FreeAt(v, i - 1);
      }
    }
    forall i, j | 0 <= i < j < |w.free| ensures w.free[i] != w.free[j] {
      assert FreeAt(v, j - 1);
    }
  }

  lemma WrittenKeeps(v: Mem, p: nat, x: Page)
    requires FreeOk(v) && p in v.role && v.role[p].Held?
    ensures FreeOk(v.Written(p, x)) && OnlySpare(v, v.Written(p, x))
  {
    var w := v.Written(p, x);
    forall i | 0 <= i < |w.free| ensures FreeAt(w, i) {
      assert FreeAt(v, i);
    }
  }

  /** Is it a role in address space a? */
  predicate Of(r: Role, a: nat)
  {
    TableOf(r, a) || (r.User? && r.a == a)
  }

  /** Only the pages of address space a, and pages held by the kernel, change, and stay such pages. */
  ghost predicate OnlyOf(v: Mem, w: Mem, a: nat)
  {
    && a in v.spaces && a in w.spaces && w.spaces == v.spaces[a := w.spaces[a]] && w.free == v.free && w.head == v.head
    && w.role.Keys == v.role.Keys && w.mem.Keys == v.mem.Keys
    && forall p :: p in v.role && p in v.mem ==>
         if v.role[p].Held? || Of(v.role[p], a) then w.role[p].Held? || Of(w.role[p], a)
         else w.role[p] == v.role[p] && w.mem[p] == v.mem[p]
  }

  lemma OnlyOfFree(v: Mem, w: Mem, a: nat)
    requires FreeOk(v) && OnlyOf(v, w, a)
    ensures FreeOk(w)
  {
    forall i | 0 <= i < |w.free| ensures FreeAt(w, i) {
      assert FreeAt(v, i);
    }
  }

  lemma OnlyOfOther(v: Mem, w: Mem, a: nat, b: nat)
    requires FreeOk(v) && OnlyOf(v, w, a) && b in v.spaces && b != a && SpaceOk(v.mem, v.role, b, v.spaces[b])
    ensures SpaceOk(w.mem, w.role, b, w.spaces[b])
  {
    SpaceFrame(v.mem, v.role, w.mem, w.role, b, v.spaces[b]);
  }

  lemma OnlyOfKeeps(v: Mem, w: Mem, a: nat)
    requires Inv(v) && OnlyOf(v, w, a) && SpaceOk(w.mem, w.role, a, w.spaces[a])
    requires forall p :: p in w.role && Of(w.role[p], a) ==> RoleOk(w.role, w.spaces, p)
    ensures Inv(w)
  {
    hide FreeOk, SpaceOk, RoleOk;
    OnlyOfFree(v, w, a);
    forall b | b in w.spaces ensures SpaceOk(w.mem, w.role, b, w.spaces[b]) {
      if b != a {
        OnlyOfOther(v, w, a, b);
      }
    }
    forall p | p in w.role && !Of(w.role[p], a) ensures RoleOk(w.role, w.spaces, p) {
      OnlyOfRole(v, w, a, p);
    }
  }

  lemma OnlyOfRole(v: Mem, w: Mem, a: nat, p: nat)
    requires Inv(v) && OnlyOf(v, w, a) && p in w.role && !Of(w.role[p], a)
    ensures RoleOk(w.role, w.spaces, p)
  {
    hide SpaceOk;
    assert RoleOk(v.role, v.spaces, p);
  }

  // Tables that a step leaves alone.

  ghost predicate SamePage(mem: map<nat, Page>, role: map<nat, Role>, mem': map<nat, Page>, role': map<nat, Role>,
    p: nat)
  {
    p in mem && p in role && p in mem' && p in role' && mem'[p] == mem[p] && role'[p] == role[p]
  }

  /** The step changes at most entry `but` of the lower tables, which is not one of i's. */
  lemma MidFrame(mem: map<nat, Page>, role: map<nat, Role>, mem': map<nat, Page>, role': map<nat, Role>, a: nat,
    s: Space, s': Space, i: nat, but: nat)
    requires i in s.mid && MidOk(mem, role, a, s, i) && i in s'.mid && s'.mid[i] == s.mid[i]
    requires SamePage(mem, role, mem', role', s.mid[i])
    requires but / 512 != i && forall k :: k != but ==> LinkTo(s'.low, k) == LinkTo(s.low, k)
    ensures MidOk(mem', role', a, s', i)
  {
  }

  lemma LowFrame(mem: map<nat, Page>, role: map<nat, Role>, mem': map<nat, Page>, role': map<nat, Role>, a: nat,
    s: Space, s': Space, k: nat, but: nat)
    requires k in s.low && LowOk(mem, role, a, s, k) && k in s'.low && s'.low[k] == s.low[k]
    requires SamePage(mem, role, mem', role', s.low[k])
    requires k / 512 in s'.mid && but / 512 != k && forall u :: u != but ==> LeafAt(s'.flat, u) == LeafAt(s.flat, u)
    ensures LowOk(mem', role', a, s', k)
  {
  }

  /** A fresh table has nothing below it. */
  lemma FreshMid(mem: map<nat, Page>, role: map<nat, Role>, a: nat, s: Space, i: nat)
    requires SpaceOk(mem, role, a, s) && i !in s.mid
    ensures forall k :: k / 512 == i ==> LinkTo(s.low, k) == zeroPte
  {
    forall k | k / 512 == i ensures LinkTo(s.low, k) == zeroPte {
      assert k in s.low ==> LowOk(mem, role, a, s, k);
    }
  }

  lemma FreshLow(mem: map<nat, Page>, role: map<nat, Role>, a: nat, s: Space, k: nat)
    requires SpaceOk(mem, role, a, s) && k !in s.low
    ensures forall u :: u / 512 == k ==> LeafAt(s.flat, u) == zeroPte
  {
    forall u | u / 512 == k ensures LeafAt(s.flat, u) == zeroPte {
      assert u in s.flat ==> FlatOk(role, a, s, u);
    }
  }

  // A new middle table.

  ghost predicate CanMid(v: Mem, a: nat, i: nat, p: nat)
  {
    Inv(v) && a in v.spaces && i < 512 && i !in v.spaces[a].mid && p in v.role && v.role[p].Held? && p in v.mem
      && v.mem[p] == ZeroTable()
  }

  lemma WithMidMid(v: Mem, a: nat, i: nat, p: nat, x: nat)
    requires CanMid(v, a, i, p) && x in v.WithMid(a, i, p).spaces[a].mid
    ensures var w := v.WithMid(a, i, p); MidOk(w.mem, w.role, a, w.spaces[a], x)
  {
    var w, s := v.WithMid(a, i, p), v.spaces[a];
    assert SpaceOk(v.mem, v.role, a, s);
    if x == i {
      FreshMid(v.mem, v.role, a, s, i);
    } else {
      assert MidOk(v.mem, v.role, a, s, x);
      MidFrame(v.mem, v.role, w.mem, w.role, a, s, w.spaces[a], x, i * 512);
    }
  }

  lemma WithMidSpace(v: Mem, a: nat, i: nat, p: nat)
    requires CanMid(v, a, i, p)
    ensures var w := v.WithMid(a, i, p); SpaceOk(w.mem, w.role, a, w.spaces[a])
  {
    var w, s := v.WithMid(a, i, p), v.spaces[a];
    var s' := w.spaces[a];
    assert SpaceOk(v.mem, v.role, a, s);
    forall x | x in s'.mid ensures MidOk(w.mem, w.role, a, s', x) {
      WithMidMid(v, a, i, p, x);
    }
    forall k | k in s'.low ensures LowOk(w.mem, w.role, a, s', k) {
      assert LowOk(v.mem, v.role, a, s, k);
      LowFrame(v.mem, v.role, w.mem, w.role, a, s, s', k, (k + 1) * 512);
    }
    forall u | u in s'.flat ensures FlatOk(w.role, a, s', u) {
      assert FlatOk(v.role, a, s, u);
    }
  }

  lemma WithMidKeeps(v: Mem, a: nat, i: nat, p: nat)
    requires CanMid(v, a, i, p)
    ensures Inv(v.WithMid(a, i, p)) && OnlyOf(v, v.WithMid(a, i, p), a)
  {
    hide FreeOk, MidOk, LowOk;
    var w := v.WithMid(a, i, p);
    WithMidSpace(v, a, i, p);
    forall q | q in w.role && Of(w.role[q], a) ensures RoleOk(w.role, w.spaces, q) {
      assert RoleOk(v.role, v.spaces, q);
    }
    OnlyOfKeeps(v, w, a);
  }

  // A new lowest table.

  ghost predicate CanLow(v: Mem, a: nat, k: nat, p: nat)
  {
    && Inv(v) && a in v.spaces && k / 512 in v.spaces[a].mid && k !in v.spaces[a].low
    && IsTable(v.mem, v.spaces[a].mid[k / 512])
    && p in v.role && v.role[p].Held? && p in v.mem && v.mem[p] == ZeroTable()
  }

  lemma WithLowMid(v: Mem, a: nat, k: nat, p: nat, x: nat)
    requires CanLow(v, a, k, p) && x in v.spaces[a].mid
    ensures var w := v.WithLow(a, k, p); MidOk(w.mem, w.role, a, w.spaces[a], x)
  {
    var w, s := v.WithLow(a, k, p), v.spaces[a];
    assert SpaceOk(v.mem, v.role, a, s);
    assert MidOk(v.mem, v.role, a, s, x);
    if x != k / 512 {
      assert MidOk(v.mem, v.role, a, s, k / 512);
      MidFrame(v.mem, v.role, w.mem, w.role, a, s, w.spaces[a], x, k);
    }
  }

  lemma WithLowLow(v: Mem, a: nat, k: nat, p: nat, x: nat)
    requires CanLow(v, a, k, p) && x in v.WithLow(a, k, p).spaces[a].low
    requires SpaceOk(v.mem, v.role, a, v.spaces[a]) && MidOk(v.mem, v.role, a, v.spaces[a], k / 512)
    ensures var w := v.WithLow(a, k, p); LowOk(w.mem, w.role, a, w.spaces[a], x)
  {
    hide Inv;
    var w, s := v.WithLow(a, k, p), v.spaces[a];
    if x == k {
      FreshLow(v.mem, v.role, a, s, k);
    } else {
      assert LowOk(v.mem, v.role, a, s, x);
      LowFrame(v.mem, v.role, w.mem, w.role, a, s, w.spaces[a], x, k * 512);
    }
  }

  lemma WithLowSpace(v: Mem, a: nat, k: nat, p: nat)
    requires CanLow(v, a, k, p)
    ensures var w := v.WithLow(a, k, p); SpaceOk(w.mem, w.role, a, w.spaces[a])
  {
    var w, s := v.WithLow(a, k, p), v.spaces[a];
    var s' := w.spaces[a];
    assert SpaceOk(v.mem, v.role, a, s);
    assert MidOk(v.mem, v.role, a, s, k / 512);
    forall x | x in s'.mid ensures MidOk(w.mem, w.role, a, s', x) {
      WithLowMid(v, a, k, p, x);
    }
    forall x | x in s'.low ensures LowOk(w.mem, w.role, a, s', x) {
      WithLowLow(v, a, k, p, x);
    }
    forall u | u in s'.flat ensures FlatOk(w.role, a, s', u) {
      assert FlatOk(v.role, a, s, u);
    }
  }

  lemma WithLowKeeps(v: Mem, a: nat, k: nat, p: nat)
    requires CanLow(v, a, k, p)
    ensures Inv(v.WithLow(a, k, p)) && OnlyOf(v, v.WithLow(a, k, p), a)
  {
    hide FreeOk, SpaceOk, RoleOk;
    var w := v.WithLow(a, k, p);
    WithLowSpace(v, a, k, p);
    WithLowOnly(v, a, k, p);
    forall q | q in w.role && Of(w.role[q], a) ensures RoleOk(w.role, w.spaces, q) {
      WithLowRole(v, a, k, p, q);
    }
    OnlyOfKeeps(v, w, a);
  }

  lemma WithLowOnly(v: Mem, a: nat, k: nat, p: nat)
    requires CanLow(v, a, k, p)
    ensures OnlyOf(v, v.WithLow(a, k, p), a)
  {
    hide FreeOk, LowOk, RoleOk;
    assert MidOk(v.mem, v.role, a, v.spaces[a], k / 512);
  }

  lemma WithLowRole(v: Mem, a: nat, k: nat, p: nat, q: nat)
    requires CanLow(v, a, k, p) && q in v.role
    ensures var w := v.WithLow(a, k, p); RoleOk(w.role, w.spaces, q)
  {
    hide FreeOk, SpaceOk;
    assert RoleOk(v.role, v.spaces, q);
  }

  // Leaves.

  lemma LowIsTable(v: Mem, a: nat, k: nat)
    requires Inv(v) && a in v.spaces && k in v.spaces[a].low
    ensures IsTable(v.mem, v.spaces[a].low[k]) && k / 512 in v.spaces[a].mid && v.spaces[a].low[k] in v.role
    ensures v.role[v.spaces[a].low[k]] == Low(a, k)
    ensures forall j :: 0 <= j < 512 ==> v.mem[v.spaces[a].low[k]].e[j] == LeafAt(v.spaces[a].flat, k * 512 + j)
  {
    assert SpaceOk(v.mem, v.role, a, v.spaces[a]);
    assert LowOk(v.mem, v.role, a, v.spaces[a], k);
  }

  ghost predicate CanLeaf(v: Mem, a: nat, u: nat, x: Pte)
  {
    && Inv(v) && a in v.spaces && u < MAXPAGE && u / 512 in v.spaces[a].low && IsTable(v.mem, v.spaces[a].low[u / 512])
    && u !in v.spaces[a].flat && x.valid && (Owned(u) ==> x.page in v.role && v.role[x.page].Held?)
  }

  ghost predicate CanUnleaf(v: Mem, a: nat, u: nat)
  {
    && Inv(v) && a in v.spaces && u in v.spaces[a].flat && u / 512 in v.spaces[a].low
    && IsTable(v.mem, v.spaces[a].low[u / 512])
  }

  /** Only virtual page u of a changes, and the role of the page behind it. */
  ghost predicate LeafStep(v: Mem, w: Mem, a: nat, u: nat, x: Pte, page: nat)
  {
    && a in v.spaces && a in w.spaces && u / 512 in v.spaces[a].low && IsTable(v.mem, v.spaces[a].low[u / 512])
    && w.mem == v.Entry(v.spaces[a].low[u / 512], u % 512, x)
    && w.spaces[a] == v.spaces[a].(flat := w.spaces[a].flat)
    && (forall y :: y != u ==> LeafAt(w.spaces[a].flat, y) == LeafAt(v.spaces[a].flat, y))
    && LeafAt(w.spaces[a].flat, u) == x
    && w.role.Keys == v.role.Keys && (forall p :: p in v.role && p != page ==> w.role[p] == v.role[p])
    && (page in v.role ==> v.role[page].Held? || v.role[page] == User(a, u) || w.role[page] == v.role[page])
  }

  lemma LeafStepTables(v: Mem, w: Mem, a: nat, u: nat, x: Pte, page: nat)
    requires LeafStep(v, w, a, u, x, page) && SpaceOk(v.mem, v.role, a, v.spaces[a])
    ensures RootOk(w.mem, w.role, a, w.spaces[a])
    ensures forall i :: i in w.spaces[a].mid ==> MidOk(w.mem, w.role, a, w.spaces[a], i)
  {
    var s, s' := v.spaces[a], w.spaces[a];
    assert LowOk(v.mem, v.role, a, s, u / 512);
    forall i | i in s'.mid ensures MidOk(w.mem, w.role, a, s', i) {
      assert MidOk(v.mem, v.role, a, s, i);
      MidFrame(v.mem, v.role, w.mem, w.role, a, s, s', i, (i + 1) * 512);
    }
  }

  lemma LeafStepLow(v: Mem, w: Mem, a: nat, u: nat, x: Pte, page: nat, k: nat)
    requires LeafStep(v, w, a, u, x, page) && SpaceOk(v.mem, v.role, a, v.spaces[a]) && k in v.spaces[a].low
    ensures LowOk(w.mem, w.role, a, w.spaces[a], k)
  {
    var s, s' := v.spaces[a], w.spaces[a];
    assert LowOk(v.mem, v.role, a, s, u / 512) && LowOk(v.mem, v.role, a, s, k);
    if k != u / 512 {
      LowFrame(v.mem, v.role, w.mem, w.role, a, s, s', k, u);
    }
  }

  lemma LeafStepSpace(v: Mem, w: Mem, a: nat, u: nat, x: Pte, page: nat)
    requires LeafStep(v, w, a, u, x, page) && SpaceOk(v.mem, v.role, a, v.spaces[a])
    requires forall y :: y in w.spaces[a].flat ==> FlatOk(w.role, a, w.spaces[a], y)
    ensures SpaceOk(w.mem, w.role, a, w.spaces[a])
  {
    LeafStepTables(v, w, a, u, x, page);
    forall k | k in w.spaces[a].low ensures LowOk(w.mem, w.role, a, w.spaces[a], k) {
      LeafStepLow(v, w, a, u, x, page, k);
    }
  }

  lemma WithLeafSpace(v: Mem, a: nat, u: nat, x: Pte)
    requires CanLeaf(v, a, u, x)
    ensures var w := v.WithLeaf(a, u, x); SpaceOk(w.mem, w.role, a, w.spaces[a])
  {
    hide FreeOk, RoleOk;
    var w, s := v.WithLeaf(a, u, x), v.spaces[a];
    var s' := w.spaces[a];
    assert SpaceOk(v.mem, v.role, a, s);
    forall y | y in s'.flat ensures FlatOk(w.role, a, s', y) {
      assert y != u ==> FlatOk(v.role, a, s, y);
    }
    LeafStepSpace(v, w, a, u, x, if Owned(u) then x.page else s.root);
  }

  lemma WithLeafOnly(v: Mem, a: nat, u: nat, x: Pte)
    requires CanLeaf(v, a, u, x)
    ensures OnlyOf(v, v.WithLeaf(a, u, x), a)
  {
    hide FreeOk, SpaceOk, RoleOk;
    LowIsTable(v, a, u / 512);
  }

  lemma WithLeafRole(v: Mem, a: nat, u: nat, x: Pte, q: nat)
    requires CanLeaf(v, a, u, x) && q in v.role && RoleOk(v.role, v.spaces, q)
    ensures var w := v.WithLeaf(a, u, x); RoleOk(w.role, w.spaces, q)
  {
    hide FreeOk, SpaceOk;
  }

  lemma WithLeafKeeps(v: Mem, a: nat, u: nat, x: Pte)
    requires CanLeaf(v, a, u, x)
    ensures Inv(v.WithLeaf(a, u, x)) && OnlyOf(v, v.WithLeaf(a, u, x), a)
  {
    var w := v.WithLeaf(a, u, x);
    WithLeafSpace(v, a, u, x);
    WithLeafOnly(v, a, u, x);
    forall q | q in w.role && Of(w.role[q], a) ensures RoleOk(w.role, w.spaces, q) {
      WithLeafRole(v, a, u, x, q);
    }
    OnlyOfKeeps(v, w, a);
  }

  /** What the lemmas below need of CanUnleaf. */
  ghost predicate LeafThere(v: Mem, a: nat, u: nat)
  {
    && a in v.spaces && u in v.spaces[a].flat && u / 512 in v.spaces[a].low && v.mem.Keys == v.role.Keys
    && var t, p := v.spaces[a].low[u / 512], v.spaces[a].flat[u].page;
       && IsTable(v.mem, t) && t in v.role && v.role[t] == Low(a, u / 512)
       && (Owned(u) ==> p in v.role && v.role[p] == User(a, u))
  }

  lemma UnleafLeaf(v: Mem, a: nat, u: nat)
    requires CanUnleaf(v, a, u)
    ensures LeafThere(v, a, u)
  {
    LowIsTable(v, a, u / 512);
    assert SpaceOk(v.mem, v.role, a, v.spaces[a]);
    assert FlatOk(v.role, a, v.spaces[a], u);
  }

  lemma WithoutLeafFlat(v: Mem, a: nat, u: nat, y: nat)
    requires LeafThere(v, a, u) && y in v.spaces[a].flat && y != u && FlatOk(v.role, a, v.spaces[a], y)
    ensures var w := v.WithoutLeaf(a, u); FlatOk(w.role, a, w.spaces[a], y)
  {
  }

  lemma WithoutLeafSpace(v: Mem, a: nat, u: nat)
    requires LeafThere(v, a, u) && SpaceOk(v.mem, v.role, a, v.spaces[a])
    ensures var w := v.WithoutLeaf(a, u); SpaceOk(w.mem, w.role, a, w.spaces[a])
  {
    var w, s := v.WithoutLeaf(a, u), v.spaces[a];
    forall y | y in w.spaces[a].flat ensures FlatOk(w.role, a, w.spaces[a], y) {
      assert FlatOk(v.role, a, s, y);
      WithoutLeafFlat(v, a, u, y);
    }
    LeafStepSpace(v, w, a, u, zeroPte, if Owned(u) then s.flat[u].page else s.root);
  }

  lemma WithoutLeafOnly(v: Mem, a: nat, u: nat)
    requires LeafThere(v, a, u)
    ensures OnlyOf(v, v.WithoutLeaf(a, u), a)
  {
  }

  lemma WithoutLeafRole(v: Mem, a: nat, u: nat, q: nat)
    requires LeafThere(v, a, u) && q in v.role && RoleOk(v.role, v.spaces, q)
    ensures var w := v.WithoutLeaf(a, u); q in w.role && RoleOk(w.role, w.spaces, q)
  {
  }

  lemma WithoutLeafKeeps(v: Mem, a: nat, u: nat)
    requires CanUnleaf(v, a, u)
    ensures Inv(v.WithoutLeaf(a, u)) && OnlyOf(v, v.WithoutLeaf(a, u), a)
  {
    var w := v.WithoutLeaf(a, u);
    UnleafLeaf(v, a, u);
    WithoutLeafSpace(v, a, u);
    WithoutLeafOnly(v, a, u);
    forall q | q in w.role && Of(w.role[q], a) ensures RoleOk(w.role, w.spaces, q) {
      WithoutLeafRole(v, a, u, q);
    }
    OnlyOfKeeps(v, w, a);
  }
}
