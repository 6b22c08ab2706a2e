/** Taking the tables of an address space apart, as freewalk() of kernel/vm.c does once nothing is mapped. */
module PageFree {
  import opened PageTable

  /** The tables of each level, the root being level 2. */
  ghost function Nodes(s: Space, level: nat): map<nat, nat>
  {
    if level == 2 then map[0 := s.root] else if level == 1 then s.mid else s.low
  }

  /** The tables one level below. */
  ghost function Kids(s: Space, level: nat): map<nat, nat>
  {
    if level == 0 then map[] else Nodes(s, level - 1)
  }

  ghost function RoleAt(a: nat, level: nat, key: nat): Role
  {
    if level == 2 then Root(a) else if level == 1 then Mid(a, key) else Low(a, key)
  }

  ghost function LevelOf(r: Role): nat { if r.Root? then 2 else if r.Mid? then 1 else 0 }
  ghost function KeyOf(r: Role): nat { if r.Mid? then r.i else if r.Low? then r.k else 0 }

  /** The key of the table d levels above. */
  ghost function Above(key: nat, d: int): nat
  {
    if d <= 0 then key else if d == 1 then key / 512 else key / 512 / 512
  }

  ghost predicate NodeOk(mem: map<nat, Page>, role: map<nat, Role>, a: nat, s: Space, level: nat, key: nat)
  {
    && key in Nodes(s, level) && level <= 2
    && var p := Nodes(s, level)[key];
       && IsTable(mem, p) && p in role && role[p] == RoleAt(a, level, key)
       && forall i :: 0 <= i < 512 ==> mem[p].e[i] == LinkTo(Kids(s, level), key * 512 + i)
  }

  /** The table of that level and key, and all tables below it, are in order. */
  ghost predicate Intact(mem: map<nat, Page>, role: map<nat, Role>, a: nat, s: Space, level: nat, key: nat)
  {
    forall l: nat, k :: l <= level && k in Nodes(s, l) && Above(k, level - l) == key ==> NodeOk(mem, role, a, s, l, k)
  }

  /** The tables of a are the ones s names. */
  ghost predicate OwnTables(role: map<nat, Role>, a: nat, s: Space)
  {
    forall p :: p in role && TableOf(role[p], a) ==>
      KeyOf(role[p]) in Nodes(s, LevelOf(role[p])) && Nodes(s, LevelOf(role[p]))[KeyOf(role[p])] == p
  }

  /** Every lowest table hangs from a middle one, and that from the root. */
  ghost predicate Rooted(s: Space)
  {
    (forall k :: k in s.low ==> k / 512 in s.mid) && (forall i :: i in s.mid ==> i < 512)
  }

  /** Is it the table of that level and key, or below it? */
  ghost predicate InSub(r: Role, a: nat, level: nat, key: nat)
  {
    TableOf(r, a) && LevelOf(r) <= level && Above(KeyOf(r), level - LevelOf(r)) == key
  }

  /** Is it below one of the first n entries of that table? */
  ghost predicate InKids(r: Role, a: nat, level: nat, key: nat, n: nat)
  {
    && TableOf(r, a) && LevelOf(r) < level && Above(KeyOf(r), level - LevelOf(r)) == key
    && Above(KeyOf(r), level - 1 - LevelOf(r)) % 512 < n
  }

  /** The tables of the subtree have become free pages; all else is as it was. */
  ghost predicate Freed(v: Mem, w: Mem, a: nat, level: nat, key: nat)
  {
    && w.spaces == v.spaces && w.role.Keys == v.role.Keys && v.mem.Keys == v.role.Keys && w.mem.Keys == w.role.Keys
    && forall p :: p in v.role ==>
         if InSub(v.role[p], a, level, key) then w.role[p].Free? else w.role[p] == v.role[p] && w.mem[p] == v.mem[p]
  }

  /** freewalk() of table `page` has passed n entries. */
  ghost predicate Passed(v: Mem, w: Mem, a: nat, level: nat, key: nat, page: nat, n: nat)
  {
    && w.spaces == v.spaces && w.role.Keys == v.role.Keys && v.mem.Keys == v.role.Keys && w.mem.Keys == w.role.Keys
    && (forall p :: p in v.role && p != page ==>
          if InKids(v.role[p], a, level, key, n) then w.role[p].Free?
            else w.role[p] == v.role[p] && w.mem[p] == v.mem[p])
    && IsTable(v.mem, page) && IsTable(w.mem, page) && page in v.role && w.role[page] == v.role[page]
    && forall i :: n <= i < 512 ==> w.mem[page].e[i] == v.mem[page].e[i]
  }

  /** One entry further. */
  lemma InKidsNext(r: Role, a: nat, level: nat, key: nat, n: nat)
    requires 1 <= level <= 2 && n < 512
    ensures InKids(r, a, level, key, n + 1) <==> InKids(r, a, level, key, n) || InSub(r, a, level - 1, key * 512 + n)
  {
  }

  /** The subtree below entry n has not been touched. */
  lemma KidIntact(v: Mem, w: Mem, a: nat, s: Space, level: nat, key: nat, page: nat, n: nat)
    requires 1 <= level <= 2 && n < 512 && Intact(v.mem, v.role, a, s, level, key)
    requires Passed(v, w, a, level, key, page, n)
    requires page in v.role && v.role[page] == RoleAt(a, level, key)
    ensures Intact(w.mem, w.role, a, s, level - 1, key * 512 + n)
  {
    forall l: nat, k | l <= level - 1 && k in Nodes(s, l) && Above(k, level - 1 - l) == key * 512 + n
      ensures NodeOk(w.mem, w.role, a, s, l, k)
    {
      assert Above(k, level - l) == key;
      assert NodeOk(v.mem, v.role, a, s, l, k);
      var p := Nodes(s, l)[k];
      assert LevelOf(v.role[p]) == l && KeyOf(v.role[p]) == k;
      assert !InKids(v.role[p], a, level, key, n);
    }
  }

  /** Freeing the subtree below entry n and clearing the entry. */
  lemma PassedNext(v: Mem, w: Mem, x: Mem, a: nat, level: nat, key: nat, page: nat, n: nat)
    requires 1 <= level <= 2 && n < 512 && Passed(v, w, a, level, key, page, n)
    requires Freed(w, x, a, level - 1, key * 512 + n)
    requires v.role[page] == RoleAt(a, level, key)
    ensures IsTable(x.mem, page) && page in x.role
    ensures Passed(v, x.(mem := x.Entry(page, n, zeroPte)), a, level, key, page, n + 1)
  {
    assert !InSub(w.role[page], a, level - 1, key * 512 + n);
    forall p | p in v.role && p != page
      ensures if InKids(v.role[p], a, level, key, n + 1) then x.role[p].Free?
        else x.role[p] == v.role[p] && x.mem[p] == v.mem[p]
    {
      InKidsNext(v.role[p], a, level, key, n);
    }
  }

  /** An entry that leads nowhere. */
  lemma PassedEmpty(v: Mem, w: Mem, a: nat, s: Space, level: nat, key: nat, page: nat, n: nat)
    requires level <= 2 && n < 512 && Passed(v, w, a, level, key, page, n) && OwnTables(v.role, a, s) && Rooted(s)
    requires key * 512 + n !in Kids(s, level)
    ensures Passed(v, w, a, level, key, page, n + 1)
  {
    forall p | p in v.role ensures InKids(v.role[p], a, level, key, n + 1) <==> InKids(v.role[p], a, level, key, n) {
      NoTableThere(v.role, a, s, level, key, n, p);
    }
  }

  lemma NoTableThere(role: map<nat, Role>, a: nat, s: Space, level: nat, key: nat, n: nat, p: nat)
    requires level <= 2 && n < 512 && OwnTables(role, a, s) && Rooted(s) && key * 512 + n !in Kids(s, level)
    requires p in role
    ensures InKids(role[p], a, level, key, n + 1) <==> InKids(role[p], a, level, key, n)
  {
    if level > 0 {
      InKidsNext(role[p], a, level, key, n);
      assert TableOf(role[p], a) && LevelOf(role[p]) == level - 1 ==> KeyOf(role[p]) in Kids(s, level);
      assert role[p].Low? && role[p].a == a ==> KeyOf(role[p]) / 512 in s.mid;
    }
  }

  lemma SubSplit(r: Role, a: nat, level: nat, key: nat)
    requires level <= 2 && (level == 2 ==> key == 0)
    ensures InSub(r, a, level, key) <==>
      InKids(r, a, level, key, 512) || (TableOf(r, a) && LevelOf(r) == level && KeyOf(r) == key)
  {
  }

  /** All entries passed: the table itself goes. */
  lemma PassedAll(v: Mem, w: Mem, a: nat, s: Space, level: nat, key: nat, page: nat)
    requires level <= 2 && Passed(v, w, a, level, key, page, 512) && OwnTables(v.role, a, s)
    requires v.role[page] == RoleAt(a, level, key) && (level == 2 ==> key == 0)
    ensures Freed(v, w.(role := w.role[page := Held]).Given(page), a, level, key)
  {
    var x := w.(role := w.role[page := Held]).Given(page);
    forall p | p in v.role
      ensures if InSub(v.role[p], a, level, key) then x.role[p].Free?
        else x.role[p] == v.role[p] && x.mem[p] == v.mem[p]
    {
      SubSplit(v.role[p], a, level, key);
      assert TableOf(v.role[p], a) && LevelOf(v.role[p]) == level && KeyOf(v.role[p]) == key ==> p == page;
    }
  }

  lemma OwnStill(v: Mem, w: Mem, a: nat, s: Space, level: nat, key: nat, page: nat, n: nat)
    requires Passed(v, w, a, level, key, page, n) && OwnTables(v.role, a, s)
    ensures OwnTables(w.role, a, s)
  {
  }

  lemma IntactNode(mem: map<nat, Page>, role: map<nat, Role>, a: nat, s: Space, level: nat, key: nat)
    requires level <= 2 && Intact(mem, role, a, s, level, key) && key in Nodes(s, level)
    ensures NodeOk(mem, role, a, s, level, key)
  {
    assert Above(key, level - level) == key;
  }

  /** An address space with nothing mapped is all tables, and intact. */
  lemma EmptyIntact(v: Mem, a: nat)
    requires Inv(v) && a in v.spaces && v.spaces[a].flat == map[]
    ensures Intact(v.mem, v.role, a, v.spaces[a], 2, 0) && OwnTables(v.role, a, v.spaces[a]) && Rooted(v.spaces[a])
    ensures v.spaces[a].root in v.role && v.role[v.spaces[a].root] == Root(a) && IsTable(v.mem, v.spaces[a].root)
    ensures forall p :: p in v.role && Of(v.role[p], a) ==> TableOf(v.role[p], a)
  {
    var s := v.spaces[a];
    assert SpaceOk(v.mem, v.role, a, s);
    forall l: nat, k | l <= 2 && k in Nodes(s, l) && Above(k, 2 - l) == 0 ensures NodeOk(v.mem, v.role, a, s, l, k) {
      if l == 1 {
        assert MidOk(v.mem, v.role, a, s, k);
      } else if l == 0 {
        assert LowOk(v.mem, v.role, a, s, k);
      }
    }
    forall p | p in v.role && Of(v.role[p], a)
      ensures TableOf(v.role[p], a) && KeyOf(v.role[p]) in Nodes(s, LevelOf(v.role[p]))
      ensures Nodes(s, LevelOf(v.role[p]))[KeyOf(v.role[p])] == p
    {
      assert RoleOk(v.role, v.spaces, p);
    }
    forall k | k in s.low ensures k / 512 in s.mid {
      assert LowOk(v.mem, v.role, a, s, k);
    }
    forall i | i in s.mid ensures i < 512 {
      assert MidOk(v.mem, v.role, a, s, i);
    }
  }

  /** With its tables freed, the address space is gone, and nothing else has changed. */
  ghost predicate Released(v: Mem, w: Mem, a: nat)
  {
    && w.spaces == v.spaces - {a} && w.role.Keys == v.role.Keys && v.mem.Keys == v.role.Keys
    && w.mem.Keys == w.role.Keys
    && forall p :: p in v.role ==>
         if Of(v.role[p], a) || v.role[p].Free? then w.role[p].Free? else w.role[p] == v.role[p] && w.mem[p] == v.mem[p]
  }

  lemma AllTables(r: Role, a: nat, s: Space)
    requires TableOf(r, a) && Rooted(s) && KeyOf(r) in Nodes(s, LevelOf(r))
    ensures InSub(r, a, 2, 0)
  {
    if r.Low? {
      assert KeyOf(r) / 512 in s.mid;
    }
  }

  lemma FreedReleases(v: Mem, w: Mem, a: nat)
    requires Inv(v) && a in v.spaces && v.spaces[a].flat == map[] && FreeOk(w)
    requires Freed(v.(spaces := v.spaces - {a}), w, a, 2, 0)
    ensures Released(v, w, a)
  {
    EmptyIntact(v, a);
    forall p | p in v.role && Of(v.role[p], a) ensures InSub(v.role[p], a, 2, 0) {
      AllTables(v.role[p], a, v.spaces[a]);
    }
  }

  lemma ReleasedKeeps(v: Mem, w: Mem, a: nat)
    requires Inv(v) && a in v.spaces && Released(v, w, a) && FreeOk(w)
    ensures Inv(w)
  {
    forall b | b in w.spaces ensures SpaceOk(w.mem, w.role, b, w.spaces[b]) {
      ReleasedOther(v, w, a, b);
    }
    forall p | p in w.role ensures RoleOk(w.role, w.spaces, p) {
      assert RoleOk(v.role, v.spaces, p);
    }
  }

  lemma ReleasedOther(v: Mem, w: Mem, a: nat, b: nat)
    requires Released(v, w, a) && b in v.spaces && b != a && SpaceOk(v.mem, v.role, b, v.spaces[b])
    ensures SpaceOk(w.mem, w.role, b, w.spaces[b])
  {
    SpaceFrame(v.mem, v.role, w.mem, w.role, b, v.spaces[b]);
  }
}
