/** Creating and destroying address spaces: uvmcreate, freewalk, uvmfree, proc_pagetable,
    proc_freepagetable, growproc and the memory part of kexec (kernel/vm.c, kernel/proc.c, kernel/exec.c).

    The main results are conservation laws: an address space that is created, used in any way and freed
    leaves the owner of every physical page, and so the set of free pages, exactly as it was. */
module ProcessMemory {
  import opened PhysicalMemory
  import opened SetSize
  import opened VirtualMemory
  import opened AddressSpace

  // ---------- page conservation ----------

  /** Operations on one space compose, and a space with no pages before and after has moved none. */
  lemma OnlySpaceTrans(o0: map<nat, Owner>, o1: map<nat, Owner>, o2: map<nat, Owner>, root: nat)
    requires OnlySpace(o0, o1, root) && OnlySpace(o1, o2, root)
    ensures OnlySpace(o0, o2, root)
  {
  }

  /** The owners after every page of the space went back to the free list. */
  ghost function Released(owner: map<nat, Owner>, root: nat): map<nat, Owner> {
    map q | q in owner :: if OfSpace(owner[q], root) then Free else owner[q]
  }

  lemma ReleasedUndoes(o0: map<nat, Owner>, o1: map<nat, Owner>, root: nat)
    requires OnlySpace(o0, o1, root) && NoPages(o0, root)
    ensures Released(o1, root) == o0
  {
  }

  // ---------- new roots ----------

  lemma RootOf(owner: map<nat, Owner>, tables: map<Pos, nat>, p: Pos)
    requires TablesOk(owner, tables) && p in tables
    ensures Pos(p.root, 2, 0) in tables
  {
    assert p.level < 2 ==> Up(p) in tables;
    assert p.level < 1 ==> Up(Up(p)) in tables;
  }

  /** A page that is no table is the root of nothing. */
  lemma UnknownRoot(mem: Memory, owner: map<nat, Owner>, tables: map<Pos, nat>, page: nat)
    requires TablesOk(owner, tables) && UsersOk(mem, owner, tables) && page in owner && !owner[page].Table?
    ensures forall p :: p in tables ==> p.root != page
    ensures forall q :: q in owner && owner[q].User? ==> owner[q].root != page
  {
    forall p | p in tables ensures p.root != page { RootOf(owner, tables, p); }
    forall q | q in owner && owner[q].User? ensures owner[q].root != page {
      assert On(owner[q].root, 0, owner[q].vpn) in tables;
    }
  }

  lemma NewRootTables(owner: map<nat, Owner>, tables: map<Pos, nat>, page: nat)
    requires TablesOk(owner, tables) && page in owner && owner[page] == Taken && Pos(page, 2, 0) !in tables
    ensures TablesOk(owner[page := Table(Pos(page, 2, 0))], tables[Pos(page, 2, 0) := page])
  {
  }

  lemma NewRootEntries(mem: Memory, owner: map<nat, Owner>, tables: map<Pos, nat>, page: nat)
    requires PagesOk(mem, owner) && TablesOk(owner, tables) && EntriesOk(mem, owner, tables)
    requires page in owner && owner[page] == Taken && mem[page] == ZeroPage()
    requires forall p :: p in tables ==> p.root != page
    ensures TablesOk(owner[page := Table(Pos(page, 2, 0))], tables[Pos(page, 2, 0) := page])
    ensures EntriesOk(mem, owner[page := Table(Pos(page, 2, 0))], tables[Pos(page, 2, 0) := page])
  {
    hide EntryOk, ZeroPage;
    NewRootTables(owner, tables, page);
    var r := Pos(page, 2, 0);
    var owner', tables' := owner[page := Table(r)], tables[r := page];
    hide TablesOk;
    forall a, j | a in tables' && 0 <= j < 512 ensures EntryOk(a, j, mem[tables'[a]][j], owner', tables') {
      if a != r {
        assert EntryOk(a, j, mem[tables[a]][j], owner, tables);
        OtherRootEntry(owner, tables, page, a, j, mem[tables[a]][j]);
      } else {
        NewRootEntry(owner, tables, page, j);
      }
    }
  }

  lemma OtherRootEntry(owner: map<nat, Owner>, tables: map<Pos, nat>, page: nat, a: Pos, j: nat, e: nat)
    requires EntryOk(a, j, e, owner, tables) && page in owner && owner[page] == Taken && a.level <= 2
    ensures EntryOk(a, j, e, owner[page := Table(Pos(page, 2, 0))], tables[Pos(page, 2, 0) := page])
  {
  }

  lemma NewRootEntry(owner: map<nat, Owner>, tables: map<Pos, nat>, page: nat, j: nat)
    requires (forall p :: p in tables ==> p.root != page) && j < 512
    ensures EntryOk(Pos(page, 2, 0), j, ZeroPage()[j], owner[page := Table(Pos(page, 2, 0))],
                    tables[Pos(page, 2, 0) := page])
  {
  }

  lemma NewRootLeaves(mem: Memory, owner: map<nat, Owner>, tables: map<Pos, nat>, tables': map<Pos, nat>, page: nat)
    requires tables' == tables[Pos(page, 2, 0) := page] && UsersOk(mem, owner, tables) && page in owner
    requires owner[page] == Taken
    requires forall p :: p in tables ==> p.root != page
    ensures SameLeaves(mem, tables, mem, tables')
    ensures UsersOk(mem, owner[page := Table(Pos(page, 2, 0))], tables')
    ensures forall v: nat :: Leaf(mem, tables', page, v) == 0
  {
    forall r: nat, v: nat ensures Leaf(mem, tables', r, v) == Leaf(mem, tables, r, v) {
      assert On(r, 0, v) in tables' <==> On(r, 0, v) in tables;
    }
  }

  lemma NewRoot(mem: Memory, owner: map<nat, Owner>, tables: map<Pos, nat>, tables': map<Pos, nat>, page: nat)
    requires Shape(mem, owner, tables) && page in owner && owner[page] == Taken && mem[page] == ZeroPage()
    requires tables' == tables[Pos(page, 2, 0) := page]
    ensures forall p :: p in tables ==> p.root != page
    ensures forall q :: q in owner && owner[q].User? ==> owner[q].root != page
    ensures Shape(mem, owner[page := Table(Pos(page, 2, 0))], tables')
    ensures SameLeaves(mem, tables, mem, tables') && forall v: nat :: Leaf(mem, tables', page, v) == 0
  {
    hide TablesOk, EntriesOk, UsersOk, Leaf, SameLeaves;
    UnknownRoot(mem, owner, tables, page);
    NewRootEntries(mem, owner, tables, page);
    NewRootLeaves(mem, owner, tables, tables', page);
  }

  /** uvmcreate: an empty page table, or 0 when there is no page. */
  method UvmCreate(ram: Ram) returns (root: nat)
    requires ram.Valid()
    modifies ram
    ensures ram.Valid() && SameLeaves(old(ram.mem), old(ram.tables), ram.mem, ram.tables)
    ensures root == 0 ==> old(ram.free) == [] && ram.owner == old(ram.owner) && ram.tables == old(ram.tables)
    ensures root != 0 ==>
              && root in old(ram.owner) && old(ram.owner)[root] == Free && NoPages(old(ram.owner), root)
              && ram.owner == old(ram.owner)[root := Table(Pos(root, 2, 0))]
              && ram.tables == old(ram.tables)[Pos(root, 2, 0) := root]
              && (forall v: nat :: Leaf(ram.mem, ram.tables, root, v) == 0)
    ensures Kept(old(ram.mem), old(ram.owner), ram.mem, ram.owner, root, 0, 0)
    ensures (root != 0 <==> |old(ram.free)| >= 1) && (root != 0 ==> |ram.free| + 1 == |old(ram.free)|)
  {
    hide Shape, Ram.AllocOk, SameLeaves;
    ram.SameKeys();
    SameLeavesRefl(ram.mem, ram.tables);
    root := ram.Kalloc();
    if root != 0 {
      ghost var m1 := ram.mem;
      ram.FillPage(root, ZeroPage());
      ghost var m2 := ram.mem;
      ValidShape(ram);
      NewRoot(ram.mem, ram.owner, ram.tables, ram.tables[Pos(root, 2, 0) := root], root);
      Adopt(ram, root);
      SameLeavesTrans3(old(ram.mem), old(ram.tables), m1, old(ram.tables), m2, old(ram.tables), ram.mem, ram.tables);
      assert NoPages(old(ram.owner), root) by {
        FreshRoot(old(ram.owner), m2, old(ram.owner)[root := Taken], old(ram.tables), root);
      }
    }
  }

  lemma FreshRoot(o0: map<nat, Owner>, mem: Memory, owner: map<nat, Owner>, tables: map<Pos, nat>, root: nat)
    requires Shape(mem, owner, tables) && root in o0 && o0[root] == Free && owner == o0[root := Taken]
    requires mem[root] == ZeroPage()
    ensures NoPages(o0, root)
  {
    UnknownRoot(mem, owner, tables, root);
    forall q | q in o0 && q != root ensures o0[q].Free? || !OfSpace(o0[q], root) {
      assert owner[q] == o0[q];
    }
  }

  /** The ghost side of uvmcreate: the zeroed page is now the root of a space. */
  ghost method Adopt(ram: Ram, root: nat)
    requires ram.Valid() && root in ram.owner && ram.owner[root] == Taken && root in ram.mem
    requires ram.mem[root] == ZeroPage()
    modifies ram`owner, ram`tables
    ensures ram.Valid()
    ensures ram.owner == old(ram.owner)[root := Table(Pos(root, 2, 0))]
    ensures ram.tables == old(ram.tables)[Pos(root, 2, 0) := root]
  {
    hide EntriesOk, UsersOk, TablesOk, SameLeaves, FreeListOk;
    NewRoot(ram.mem, ram.owner, ram.tables, ram.tables[Pos(root, 2, 0) := root], root);
    FreeListFrame(ram.mem, ram.mem, ram.freelist, ram.free, ram.owner, ram.owner[root := Table(Pos(root, 2, 0))]);
    ram.owner := ram.owner[root := Table(Pos(root, 2, 0))];
    ram.tables := ram.tables[Pos(root, 2, 0) := root];
  }

  // ---------- freewalk ----------

  /** All entries are right, except possibly the one that used to point at the table at q. */
  ghost predicate EntriesBut(mem: Memory, owner: map<nat, Owner>, tables: map<Pos, nat>, q: Pos) {
    forall p, i :: p in tables && 0 <= i < 512 && tables[p] in mem && |mem[tables[p]]| == 512
      ==> (p.level > 0 && Down(p, i) == q) || EntryOk(p, i, mem[tables[p]][i], owner, tables)
  }

  /** The state right after the table at q was freed and before its parent's entry is cleared. */
  ghost predicate Pruned(mem: Memory, owner: map<nat, Owner>, tables: map<Pos, nat>, q: Pos) {
    && PagesOk(mem, owner) && TablesOk(owner, tables) && UsersOk(mem, owner, tables)
    && q !in tables && EntriesBut(mem, owner, tables, q)
  }

  /** Freed: only page-table pages of p's space at p's level or below went to the free list. */
  ghost predicate Freed(m0: Memory, o0: map<nat, Owner>, t0: map<Pos, nat>, m1: Memory, o1: map<nat, Owner>,
                        t1: map<Pos, nat>,
                        p: Pos) {
    && o1.Keys == o0.Keys == m0.Keys == m1.Keys
    && (forall q :: q in t1 ==> q in t0 && t1[q] == t0[q])
    && (forall q :: q in t0 && (q.root != p.root || q.level > p.level) ==> q in t1)
    && (forall pa :: pa in o0 && o1[pa] != o0[pa] ==> o0[pa].Table? && o0[pa].pos.root == p.root && o1[pa] == Free)
    && (forall pa :: pa in o0 && (o0[pa].Taken? || o0[pa].User?) ==> m1[pa] == m0[pa])
    && SameLeaves(m0, t0, m1, t1)
  }

  lemma FreedRefl(m: Memory, o: map<nat, Owner>, t: map<Pos, nat>, p: Pos)
    requires m.Keys == o.Keys
    ensures Freed(m, o, t, m, o, t, p)
  {
  }

  lemma FreedTrans(m0: Memory, o0: map<nat, Owner>, t0: map<Pos, nat>, m1: Memory, o1: map<nat, Owner>,
                   t1: map<Pos, nat>,
                   m2: Memory, o2: map<nat, Owner>, t2: map<Pos, nat>, p: Pos, q: Pos)
    requires Freed(m0, o0, t0, m1, o1, t1, p) && Freed(m1, o1, t1, m2, o2, t2, q) && q.root == p.root
    requires q.level <= p.level
    ensures Freed(m0, o0, t0, m2, o2, t2, p)
  {
    hide Leaf;
  }

  /** Clearing the entry of a freed table completes the tree again. */
  lemma ClearEntry(mem: Memory, owner: map<nat, Owner>, tables: map<Pos, nat>, p: Pos, i: nat)
    requires p in tables && p.level > 0 && i < 512 && Pruned(mem, owner, tables, Down(p, i))
    ensures tables[p] in mem && i < |mem[tables[p]]|
    ensures Shape(Poke(mem, tables[p], i, 0), owner, tables)
    ensures SameLeaves(mem, tables, Poke(mem, tables[p], i, 0), tables)
  {
    hide EntryOk, Leaf, TablesOk;
    forall a | a in tables ensures tables[a] in owner { TableOf(owner, tables, a); }
    var mem' := Poke(mem, tables[p], i, 0);
    forall a, j | a in tables && 0 <= j < 512 ensures EntryOk(a, j, mem'[tables[a]][j], owner, tables) {
      if a != p { TablesDiffer(owner, tables, a, p); }
      if a.level > 0 && Down(a, j) == Down(p, i) {
        DownInjective(a, j, p, i);
        NoEntry(owner, tables, p, i);
      }
    }
    forall r: nat, v: nat ensures Leaf(mem', tables, r, v) == Leaf(mem, tables, r, v) {
      LeafElsewhere(mem, owner, tables, p, i, r, v);
    }
  }

  lemma TableOf(owner: map<nat, Owner>, tables: map<Pos, nat>, p: Pos)
    requires TablesOk(owner, tables) && p in tables
    ensures tables[p] in owner && owner[tables[p]] == Table(p)
  {
    hide Up;
  }

  lemma TablesDiffer(owner: map<nat, Owner>, tables: map<Pos, nat>, a: Pos, p: Pos)
    requires TablesOk(owner, tables) && a in tables && p in tables && a != p
    ensures tables[a] != tables[p]
  {
    hide TablesOk;
    TableOf(owner, tables, a);
    TableOf(owner, tables, p);
  }

  lemma DownInjective(a: Pos, j: nat, p: Pos, i: nat)
    requires a.level > 0 && p.level > 0 && j < 512 && i < 512 && Down(a, j) == Down(p, i)
    ensures a == p && j == i
  {
  }

  lemma NoEntry(owner: map<nat, Owner>, tables: map<Pos, nat>, p: Pos, i: nat)
    requires p.level > 0 && Down(p, i) !in tables
    ensures EntryOk(p, i, 0, owner, tables)
  {
  }

  lemma LeafElsewhere(mem: Memory, owner: map<nat, Owner>, tables: map<Pos, nat>, p: Pos, i: nat, r: nat, v: nat)
    requires TablesOk(owner, tables) && p in tables && p.level > 0 && tables[p] in mem && i < |mem[tables[p]]|
    ensures Leaf(Poke(mem, tables[p], i, 0), tables, r, v) == Leaf(mem, tables, r, v)
  {
    hide TablesOk;
    var a := On(r, 0, v);
    if a in tables { TablesDiffer(owner, tables, a, p); }
  }

  ghost predicate NoChildren(mem: Memory, tables: map<Pos, nat>, p: Pos) {
    if p.level > 0 then forall j :: 0 <= j < 512 ==> Down(p, j) !in tables
    else forall v: nat :: Leaf(mem, tables, p.root, v) == 0
  }

  lemma DownUp(q: Pos, p: Pos)
    requires Up(q) == p
    ensures p.level > 0 && Down(p, q.idx % 512) == q && q.idx % 512 < 512
  {
  }

  lemma DropTableOwners(owner: map<nat, Owner>, tables: map<Pos, nat>, p: Pos)
    requires TablesOk(owner, tables) && p in tables
    requires (p.level > 0 ==> forall j :: 0 <= j < 512 ==> Down(p, j) !in tables)
    ensures TablesOk(owner[tables[p] := Free], tables - {p})
  {
    NothingBelow(owner, tables, p);
    DroppedMaps(owner, tables, p);
    hide Down, Up;
  }

  lemma NothingBelow(owner: map<nat, Owner>, tables: map<Pos, nat>, p: Pos)
    requires TablesOk(owner, tables)
    requires (p.level > 0 ==> forall j :: 0 <= j < 512 ==> Down(p, j) !in tables)
    ensures forall q :: q in tables && q.level < 2 ==> Up(q) in tables && Up(q) != p
  {
    hide Down;
    forall q | q in tables && q.level < 2 ensures Up(q) in tables && Up(q) != p {
      NotAbove(tables, p, q);
    }
  }

  lemma DroppedMaps(owner: map<nat, Owner>, tables: map<Pos, nat>, p: Pos)
    requires TablesOk(owner, tables) && p in tables
    ensures forall q :: q in tables - {p} ==> tables[q] in owner && tables[q] != tables[p]
    ensures forall pa :: pa in owner && pa != tables[p] && owner[pa].Table? ==> owner[pa].pos in tables - {p}
  {
    hide Up;
  }

  lemma NotAbove(tables: map<Pos, nat>, p: Pos, q: Pos)
    requires (p.level > 0 ==> forall j :: 0 <= j < 512 ==> Down(p, j) !in tables) && q in tables && q.level < 2
    ensures Up(q) != p
  {
    if Up(q) == p { DownUp(q, p); }
  }

  lemma DropTableLeaves(mem: Memory, owner: map<nat, Owner>, tables: map<Pos, nat>, mem': Memory,
                        tables': map<Pos, nat>, p: Pos, w: seq<nat>)
    requires TablesOk(owner, tables) && p in tables && NoChildren(mem, tables, p) && |w| == 512
    requires mem.Keys == owner.Keys
    requires UsersOk(mem, owner, tables) && mem' == mem[tables[p] := w] && tables' == tables - {p}
    ensures SameLeaves(mem, tables, mem', tables')
    ensures UsersOk(mem', owner[tables[p] := Free], tables')
  {
    hide Leaf, NoChildren, TablesOk;
    forall r: nat, v: nat ensures Leaf(mem', tables', r, v) == Leaf(mem, tables, r, v) {
      DroppedLeaf(mem, owner, tables, p, w, r, v);
    }
  }

  lemma DroppedLeaf(mem: Memory, owner: map<nat, Owner>, tables: map<Pos, nat>, p: Pos, w: seq<nat>, r: nat, v: nat)
    requires TablesOk(owner, tables) && p in tables && NoChildren(mem, tables, p)
    ensures Leaf(mem[tables[p] := w], tables - {p}, r, v) == Leaf(mem, tables, r, v)
  {
    hide TablesOk;
    DroppedMaps(owner, tables, p);
    var a := On(r, 0, v);
    if a == p {
      assert Leaf(mem, tables, p.root, v) == 0;
    } else if a in tables {
      assert a in tables - {p};
    }
  }

  /** An entry that does not point at the dropped table stays right. */
  lemma DroppedEntry(owner: map<nat, Owner>, tables: map<Pos, nat>, p: Pos, a: Pos, j: nat, e: nat)
    requires p in tables && tables[p] in owner && owner[tables[p]] == Table(p) && EntryOk(a, j, e, owner, tables)
    ensures (a.level > 0 && Down(a, j) == p) || EntryOk(a, j, e, owner[tables[p] := Free], tables - {p})
  {
  }

  lemma DropTableEntries(mem: Memory, owner: map<nat, Owner>, tables: map<Pos, nat>, p: Pos, w: seq<nat>)
    requires PagesOk(mem, owner) && TablesOk(owner, tables) && EntriesOk(mem, owner, tables) && p in tables
    requires |w| == 512
    ensures EntriesBut(mem[tables[p] := w], owner[tables[p] := Free], tables - {p}, p)
  {
    hide EntryOk, Up, Down;
    var page := tables[p];
    var mem', owner', tables' := mem[page := w], owner[page := Free], tables - {p};
    forall a, j | a in tables' && 0 <= j < 512
      ensures (a.level > 0 && Down(a, j) == p) || EntryOk(a, j, mem'[tables'[a]][j], owner', tables')
    {
      assert tables[a] != page;
      assert EntryOk(a, j, mem[tables[a]][j], owner, tables);
      DroppedEntry(owner, tables, p, a, j, mem[tables[a]][j]);
    }
  }

  lemma DropTablePages(mem: Memory, owner: map<nat, Owner>, tables: map<Pos, nat>, p: Pos, w: seq<nat>)
    requires PagesOk(mem, owner) && TablesOk(owner, tables) && p in tables && NoChildren(mem, tables, p) && |w| == 512
    ensures tables[p] in owner && tables[p] in mem && owner[tables[p]] == Table(p) && mem.Keys == owner.Keys
    ensures PagesOk(mem[tables[p] := w], owner[tables[p] := Free])
    ensures p.level > 0 ==> forall j :: 0 <= j < 512 ==> Down(p, j) !in tables
  {
  }

  lemma DropTableFreed(mem: Memory, owner: map<nat, Owner>, tables: map<Pos, nat>, mem': Memory, tables': map<Pos, nat>,
                       p: Pos, w: seq<nat>)
    requires mem.Keys == owner.Keys && p in tables && tables[p] in owner && owner[tables[p]] == Table(p)
    requires mem' == mem[tables[p] := w] && tables' == tables - {p} && SameLeaves(mem, tables, mem', tables')
    ensures Freed(mem, owner, tables, mem', owner[tables[p] := Free], tables', p)
  {
    hide SameLeaves;
  }

  /** Freeing a table without children. */
  lemma DropTable(mem: Memory, owner: map<nat, Owner>, tables: map<Pos, nat>, mem': Memory, tables': map<Pos, nat>,
                  p: Pos, w: seq<nat>)
    requires Shape(mem, owner, tables) && p in tables && NoChildren(mem, tables, p) && |w| == 512
    requires mem' == mem[tables[p] := w] && tables' == tables - {p}
    ensures tables[p] in owner && owner[tables[p]] == Table(p)
    ensures Pruned(mem', owner[tables[p] := Free], tables', p)
    ensures Freed(mem, owner, tables, mem', owner[tables[p] := Free], tables', p)
  {
    hide EntriesOk, EntriesBut, UsersOk, Leaf, SameLeaves, TablesOk, PagesOk, NoChildren, Freed;
    DropTablePages(mem, owner, tables, p, w);
    DropTableOwners(owner, tables, p);
    DropTableLeaves(mem, owner, tables, mem', tables', p, w);
    DropTableEntries(mem, owner, tables, p, w);
    DropTableFreed(mem, owner, tables, mem', tables', p, w);
  }

  lemma FreedFacts(m0: Memory, o0: map<nat, Owner>, t0: map<Pos, nat>, m1: Memory, o1: map<nat, Owner>,
                   t1: map<Pos, nat>,
                   p: Pos, c: Pos)
    requires Freed(m0, o0, t0, m1, o1, t1, c) && p in t0 && c.level < p.level
    ensures p in t1 && t1[p] == t0[p] && m1.Keys == o1.Keys && SameLeaves(m0, t0, m1, t1)
    ensures forall q :: q !in t0 ==> q !in t1
  {
  }

  lemma FreedPoke(m0: Memory, o0: map<nat, Owner>, t0: map<Pos, nat>, m1: Memory, o1: map<nat, Owner>,
                  t1: map<Pos, nat>,
                  p: Pos, c: Pos, i: nat)
    requires Freed(m0, o0, t0, m1, o1, t1, c) && c.root == p.root && c.level <= p.level && p in t1 && t1[p] in m1
    requires i < |m1[t1[p]]|
    requires t1[p] in o1 && o1[t1[p]] == Table(p)
    requires SameLeaves(m1, t1, Poke(m1, t1[p], i, 0), t1)
    ensures Freed(m0, o0, t0, Poke(m1, t1[p], i, 0), o1, t1, p)
  {
    hide Leaf;
  }

  ghost predicate NoLeaves(mem: Memory, tables: map<Pos, nat>, root: nat) {
    forall v: nat :: Leaf(mem, tables, root, v) == 0
  }

  lemma StillNoLeaves(m0: Memory, t0: map<Pos, nat>, m1: Memory, t1: map<Pos, nat>, root: nat)
    requires NoLeaves(m0, t0, root) && SameLeaves(m0, t0, m1, t1)
    ensures NoLeaves(m1, t1, root)
  {
    hide Leaf;
  }

  /** What freewalk reads at entry i: a valid entry is never a leaf. */
  lemma EntryIsTable(ram: Ram, p: Pos, i: nat)
    requires ram.Valid() && p in ram.tables && i < 512 && NoLeaves(ram.mem, ram.tables, p.root)
    ensures ram.tables[p] in ram.mem && |ram.mem[ram.tables[p]]| == 512
    ensures var e := ram.mem[ram.tables[p]][i];
            && (PteV(e) ==>
                  !PteRWX(e) && p.level > 0 && Down(p, i) in ram.tables && PTE2PA(e) == ram.tables[Down(p, i)])
            && (!PteV(e) && p.level > 0 ==> Down(p, i) !in ram.tables)
  {
    hide TablesOk, UsersOk, EntriesOk;
    TableIsTable(ram.mem, ram.owner, ram.tables, p);
    if p.level > 0 {
      StepDown(ram.mem, ram.owner, ram.tables, p, i);
    } else {
      var v := p.idx * 512 + i;
      assert On(p.root, 0, v) == p;
      assert Leaf(ram.mem, ram.tables, p.root, v) == 0;
    }
  }

  /** The round of freewalk after the recursive call: clear the entry. */
  method ClearTableEntry(ram: Ram, page: nat, i: nat, ghost p: Pos)
    requires ram.AllocOk() && p in ram.tables && page == ram.tables[p] && p.level > 0 && i < 512
    requires Pruned(ram.mem, ram.owner, ram.tables, Down(p, i))
    modifies ram`mem
    ensures ram.Valid() && SameLeaves(old(ram.mem), ram.tables, ram.mem, ram.tables)
    ensures page in old(ram.mem) && i < |old(ram.mem)[page]| && ram.mem == Poke(old(ram.mem), page, i, 0)
    ensures page in ram.owner && ram.owner[page] == Table(p)
  {
    hide EntriesOk, UsersOk, EntriesBut, FreeListOk, SameLeaves;
    ClearEntry(ram.mem, ram.owner, ram.tables, p, i);
    FreeListFrame(ram.mem, Poke(ram.mem, page, i, 0), ram.freelist, ram.free, ram.owner, ram.owner);
    ram.mem := Poke(ram.mem, page, i, 0);
  }

  /** The end of freewalk: free the table itself. */
  method FreeTable(ram: Ram, page: nat, ghost p: Pos)
    requires ram.Valid() && p in ram.tables && page == ram.tables[p] && NoChildren(ram.mem, ram.tables, p)
    modifies ram
    ensures ram.AllocOk() && Pruned(ram.mem, ram.owner, ram.tables, p)
    ensures Freed(old(ram.mem), old(ram.owner), old(ram.tables), ram.mem, ram.owner, ram.tables, p)
  {
    hide Shape, Freed, Pruned, NoChildren, FreeListOk;
    TableIsTable(ram.mem, ram.owner, ram.tables, p);
    ram.Kfree(page);
    ghost var w :| |w| == 512 && ram.mem == old(ram.mem)[page := w];
    DropTable(old(ram.mem), old(ram.owner), ram.tables, ram.mem, ram.tables - {p}, p, w);
    ram.tables := ram.tables - {p};
  }

  /** freewalk on the table at p: frees p and everything below it, and never meets a leaf. */
  method FreeWalk(ram: Ram, page: nat, ghost p: Pos)
    requires ram.Valid() && p in ram.tables && page == ram.tables[p] && NoLeaves(ram.mem, ram.tables, p.root)
    modifies ram
    ensures ram.AllocOk() && Pruned(ram.mem, ram.owner, ram.tables, p)
    ensures Freed(old(ram.mem), old(ram.owner), old(ram.tables), ram.mem, ram.owner, ram.tables, p)
    decreases p.level
  {
    hide Shape, Freed, Pruned, NoLeaves, Ram.AllocOk, SameLeaves;
    ram.SameKeys();
    FreedRefl(ram.mem, ram.owner, ram.tables, p);
    var i := 0;
    while i < 512
      invariant 0 <= i <= 512 && ram.Valid() && ram.mem.Keys == ram.owner.Keys
      invariant p in ram.tables && page == ram.tables[p] && NoLeaves(ram.mem, ram.tables, p.root)
      invariant p.level > 0 ==> forall j :: 0 <= j < i ==> Down(p, j) !in ram.tables
      invariant Freed(old(ram.mem), old(ram.owner), old(ram.tables), ram.mem, ram.owner, ram.tables, p)
    {
      EntryIsTable(ram, p, i);
      var pte := ram.mem[page][i];
      if PteV(pte) && !PteRWX(pte) {
        ghost var m, o, t := ram.mem, ram.owner, ram.tables;
        FreeWalk(ram, PTE2PA(pte), Down(p, i));
        FreedFacts(m, o, t, ram.mem, ram.owner, ram.tables, p, Down(p, i));
        StillNoLeaves(m, t, ram.mem, ram.tables, p.root);
        ghost var m1 := ram.mem;
        NotThere(ram.mem, ram.owner, ram.tables, Down(p, i));
        ClearTableEntry(ram, page, i, p);
        FreedPoke(m, o, t, m1, ram.owner, ram.tables, p, Down(p, i), i);
        FreedTrans(old(ram.mem), old(ram.owner), old(ram.tables), m, o, t, ram.mem, ram.owner, ram.tables, p, p);
        StillNoLeaves(m1, ram.tables, ram.mem, ram.tables, p.root);
        ram.SameKeys();
      } else if PteV(pte) {
        assert false;
      }
      i := i + 1;
    }
    ghost var m, o, t := ram.mem, ram.owner, ram.tables;
    assert NoChildren(ram.mem, ram.tables, p) by { Childless(ram, p); }
    FreeTable(ram, page, p);
    FreedTrans(old(ram.mem), old(ram.owner), old(ram.tables), m, o, t, ram.mem, ram.owner, ram.tables, p, p);
  }

  lemma NotThere(mem: Memory, owner: map<nat, Owner>, tables: map<Pos, nat>, q: Pos)
    requires Pruned(mem, owner, tables, q)
    ensures q !in tables
  {
  }

  lemma Childless(ram: Ram, p: Pos)
    requires NoLeaves(ram.mem, ram.tables, p.root)
    requires (p.level > 0 ==> forall j :: 0 <= j < 512 ==> Down(p, j) !in ram.tables)
    ensures NoChildren(ram.mem, ram.tables, p)
  {
  }

  // ---------- whole address spaces ----------

  /** A user space rooted at `root` whose memory lies below page n, with nothing mapped above the trampoline. */
  ghost predicate SpaceAt(mem: Memory, owner: map<nat, Owner>, tables: map<Pos, nat>, root: nat, n: nat) {
    && Pos(root, 2, 0) in tables
    && NoUsersFrom(owner, root, n)
    && forall v: nat :: v >= MAXVPN ==> Leaf(mem, tables, root, v) == 0
  }

  ghost predicate OtherLeaves(m0: Memory, t0: map<Pos, nat>, m1: Memory, t1: map<Pos, nat>, root: nat) {
    forall r: nat, v: nat :: r != root ==> Leaf(m1, t1, r, v) == Leaf(m0, t0, r, v)
  }

  /** The frames of every other space keep their contents. */
  ghost predicate OtherPages(m0: Memory, o0: map<nat, Owner>, m1: Memory, root: nat) {
    forall q :: q in o0 && o0[q].User? && o0[q].root != root && q in m0 ==> q in m1 && m1[q] == m0[q]
  }

  /** Every other space has the translations and the contents it had. */
  ghost predicate Apart(m0: Memory, o0: map<nat, Owner>, t0: map<Pos, nat>, m1: Memory, t1: map<Pos, nat>, root: nat) {
    OtherLeaves(m0, t0, m1, t1, root) && OtherPages(m0, o0, m1, root)
  }

  lemma AllLeavesGone(mem: Memory, owner: map<nat, Owner>, tables: map<Pos, nat>, m1: Memory, o1: map<nat, Owner>,
                      root: nat, n: nat)
    requires Shape(m1, o1, tables) && n <= USERTOP && SpaceAt(mem, owner, tables, root, n)
    requires Cleared(mem, owner, m1, o1, tables, root, 0, n, true)
    requires forall v: nat :: USERTOP <= v < MAXVPN ==> Leaf(mem, tables, root, v) == 0
    ensures NoLeaves(m1, tables, root) && forall q :: q in o1 && o1[q].User? ==> o1[q].root != root
  {
    forall v: nat ensures Leaf(m1, tables, root, v) == 0 {
      if n <= v < USERTOP && Leaf(m1, tables, root, v) != 0 { UserLeafOwner(m1, o1, tables, root, v); }
    }
  }

  lemma SpaceGone(m1: Memory, o1: map<nat, Owner>, t1: map<Pos, nat>, m2: Memory, o2: map<nat, Owner>,
                  t2: map<Pos, nat>, root: nat)
    requires Pruned(m2, o2, t2, Pos(root, 2, 0)) && Freed(m1, o1, t1, m2, o2, t2, Pos(root, 2, 0))
    requires forall q :: q in o1 && o1[q].User? ==> o1[q].root != root
    ensures Shape(m2, o2, t2) && (forall p :: p in t2 ==> p.root != root) && o2 == Released(o1, root)
  {
    hide SameLeaves;
    forall p | p in t2 ensures p.root != root { RootOf(o2, t2, p); }
    forall p, i | p in t2 && 0 <= i < 512 ensures EntryOk(p, i, m2[t2[p]][i], o2, t2) {
      assert !(p.level > 0 && Down(p, i) == Pos(root, 2, 0));
    }
    forall q | q in o1 ensures o2[q] == if OfSpace(o1[q], root) then Free else o1[q] {
      assert o2[q].Table? ==> o2[q].pos in t2;
    }
  }

  lemma ReleasedTwice(o0: map<nat, Owner>, m0: Memory, m1: Memory, o1: map<nat, Owner>, t: map<Pos, nat>, root: nat,
                      n: nat)
    requires Cleared(m0, o0, m1, o1, t, root, 0, n, true)
    ensures Released(o1, root) == Released(o0, root)
  {
    hide Leaf;
  }

  /** uvmfree: every page of the space goes back to the free list, and no other page moves. */
  method UvmFree(ram: Ram, root: nat, sz: nat)
    requires ram.Valid() && sz <= TRAPFRAME && SpaceAt(ram.mem, ram.owner, ram.tables, root, Pages(sz))
    requires forall v: nat :: USERTOP <= v < MAXVPN ==> Leaf(ram.mem, ram.tables, root, v) == 0
    modifies ram
    ensures ram.Valid() && ram.owner == Released(old(ram.owner), root) && forall p :: p in ram.tables ==> p.root != root
    ensures Apart(old(ram.mem), old(ram.owner), old(ram.tables), ram.mem, ram.tables, root)
  {
    hide Shape, Freed, Pruned, Cleared, NoLeaves, Leaf, Released, Pages, PGROUNDUP, Ram.AllocOk, Apart;
    ram.SameKeys();
    PagesBelow(sz);
    if sz > 0 {
      ram.UvmUnmap(root, 0, PGROUNDUP(sz) / PGSIZE, true);
    } else {
      ClearedNone(ram.mem, ram.owner, ram.tables, root, 0, true);
    }
    ghost var m1, o1, t1 := ram.mem, ram.owner, ram.tables;
    ValidShape(ram);
    AllLeavesGone(old(ram.mem), old(ram.owner), t1, m1, o1, root, Pages(sz));
    ReleasedTwice(old(ram.owner), old(ram.mem), m1, o1, t1, root, Pages(sz));
    ram.TableRoot(root);
    FreeWalk(ram, root, Pos(root, 2, 0));
    SpaceGone(m1, o1, t1, ram.mem, ram.owner, ram.tables, root);
    OthersKept(old(ram.mem), old(ram.owner), t1, m1, o1, ram.mem, ram.owner, ram.tables, root, Pages(sz));
  }

  lemma PagesBelow(sz: nat)
    requires sz <= TRAPFRAME
    ensures Pages(sz) <= USERTOP && PGROUNDUP(sz) / PGSIZE == Pages(sz) && Pages(sz) * PGSIZE <= TRAPFRAME
    ensures PGROUNDUP(sz) <= TRAPFRAME
    ensures sz == 0 ==> Pages(sz) == 0
  {
  }

  lemma OthersKept(m0: Memory, o0: map<nat, Owner>, t1: map<Pos, nat>, m1: Memory, o1: map<nat, Owner>,
                   m2: Memory, o2: map<nat, Owner>, t2: map<Pos, nat>, root: nat, n: nat)
    requires Cleared(m0, o0, m1, o1, t1, root, 0, n, true) && Freed(m1, o1, t1, m2, o2, t2, Pos(root, 2, 0))
    ensures Apart(m0, o0, t1, m2, t2, root)
  {
    hide Leaf;
  }

  const VTRAMPOLINE: nat := TRAMPOLINE / PGSIZE
  const VTRAPFRAME: nat := TRAPFRAME / PGSIZE

  /** What any operation on the space may do to the owners and to the other spaces. */
  ghost predicate StaysInside(m0: Memory, o0: map<nat, Owner>, t0: map<Pos, nat>, m1: Memory, o1: map<nat, Owner>,
                              t1: map<Pos, nat>,
                              root: nat) {
    OnlySpace(o0, o1, root) && Apart(m0, o0, t0, m1, t1, root)
  }

  lemma StaysTrans(m0: Memory, o0: map<nat, Owner>, t0: map<Pos, nat>, m1: Memory, o1: map<nat, Owner>,
                   t1: map<Pos, nat>,
                   m2: Memory, o2: map<nat, Owner>, t2: map<Pos, nat>, root: nat)
    requires StaysInside(m0, o0, t0, m1, o1, t1, root) && StaysInside(m1, o1, t1, m2, o2, t2, root)
    ensures StaysInside(m0, o0, t0, m2, o2, t2, root)
  {
    hide Leaf;
  }

  lemma SpecialMapped(m0: Memory, o0: map<nat, Owner>, t0: map<Pos, nat>, m1: Memory, o1: map<nat, Owner>,
                      t1: map<Pos, nat>,
                      root: nat, v: nat, n: nat, pa: nat, perm: nat)
    requires perm < 1024 && USERTOP <= v && v + n <= MAXVPN && n <= 1 && SpaceAt(m0, o0, t0, root, 0)
    requires Mapped(m0, o0, t0, m1, o1, t1, root, v, n, pa, perm, false)
    ensures SpaceAt(m1, o1, t1, root, 0) && StaysInside(m0, o0, t0, m1, o1, t1, root)
    ensures forall u: nat :: u != v ==> Leaf(m1, t1, root, u) == Leaf(m0, t0, root, u)
    ensures n == 0 ==> Leaf(m1, t1, root, v) == Leaf(m0, t0, root, v)
    ensures n == 1 ==> Leaf(m1, t1, root, v) == MakePte(pa, perm)
  {
    hide Leaf, MakePte;
    assert Frame(pa, 0) == pa;
  }

  lemma CreatedSpace(m0: Memory, o0: map<nat, Owner>, t0: map<Pos, nat>, m1: Memory, o1: map<nat, Owner>,
                     t1: map<Pos, nat>, root: nat)
    requires root in o0 && o0[root] == Free && NoPages(o0, root) && SameLeaves(m0, t0, m1, t1)
    requires o1 == o0[root := Table(Pos(root, 2, 0))] && t1 == t0[Pos(root, 2, 0) := root]
    requires (forall v: nat :: Leaf(m1, t1, root, v) == 0) && Kept(m0, o0, m1, o1, root, 0, 0)
    ensures SpaceAt(m1, o1, t1, root, 0) && StaysInside(m0, o0, t0, m1, o1, t1, root)
  {
    hide Leaf;
  }

  /** No page-table page is the root of a space called `root`. */
  ghost predicate NoRoot(owner: map<nat, Owner>, root: nat) {
    forall q :: q in owner && owner[q].Table? ==> owner[q].pos.root != root
  }

  lemma NoPagesNoRoot(owner: map<nat, Owner>, root: nat)
    requires NoPages(owner, root)
    ensures NoRoot(owner, root)
  {
  }

  lemma NoZeroRoot(ram: Ram, m0: Memory, o0: map<nat, Owner>, t0: map<Pos, nat>)
    requires ram.Valid() && SameLeaves(m0, t0, ram.mem, ram.tables) && Kept(m0, o0, ram.mem, ram.owner, 0, 0, 0)
    ensures NoRoot(ram.owner, 0) && Apart(m0, o0, t0, ram.mem, ram.tables, 0)
  {
    hide Leaf;
    forall q | q in ram.owner && ram.owner[q].Table? ensures ram.owner[q].pos.root != 0 {
      RootOf(ram.owner, ram.tables, ram.owner[q].pos);
      ram.TableRoot(ram.owner[q].pos.root);
    }
  }

  /** proc_pagetable: trampoline and trapframe mapped, no user memory; or 0 with every page returned. */
  method ProcPagetable(ram: Ram, trampoline: nat, trapframe: nat) returns (root: nat, ghost tried: nat)
    requires ram.Valid() && trampoline % PGSIZE == 0 && trapframe % PGSIZE == 0
    modifies ram
    ensures ram.Valid()
    ensures root == 0 ==> ram.owner == old(ram.owner) && NoRoot(old(ram.owner), tried)
    ensures root == 0 ==> Apart(old(ram.mem), old(ram.owner), old(ram.tables), ram.mem, ram.tables, tried)
    ensures root != 0 ==>
              && NoPages(old(ram.owner), root)
              && SpaceAt(ram.mem, ram.owner, ram.tables, root, 0)
              && StaysInside(old(ram.mem), old(ram.owner), old(ram.tables), ram.mem, ram.owner, ram.tables, root)
              && Leaf(ram.mem, ram.tables, root, VTRAMPOLINE) == MakePte(trampoline, PTE_R + PTE_X)
              && Leaf(ram.mem, ram.tables, root, VTRAPFRAME) == MakePte(trapframe, PTE_R + PTE_W)
    ensures root != 0 <==> 3 <= |old(ram.free)|
    ensures root != 0 ==>
              |ram.free| + 3 == |old(ram.free)| && FreshTables(old(ram.tables), ram.tables, root, Specials())
  {
    hide Shape, Ram.AllocOk, Mapped, SpaceAt, NoPages, StaysInside, Leaf, MakePte, Released, Apart, Kept, Rooted,
        Lacking,
         Between;
    ram.SameKeys();
    TablesFine(ram);
    root := UvmCreate(ram);
    tried := root;
    if root == 0 {
      NoZeroRoot(ram, old(ram.mem), old(ram.owner), old(ram.tables));
      return;
    }
    CreatedSpace(old(ram.mem), old(ram.owner), old(ram.tables), ram.mem, ram.owner, ram.tables, root);
    ghost var m1, o1, t1 := ram.mem, ram.owner, ram.tables;
    SpaceRoot(m1, o1, t1, root, 0);
    NoTables(old(ram.owner), old(ram.tables), root);
    TwoTables(old(ram.tables), root, VTRAMPOLINE);
    OneBetween(VTRAMPOLINE);
    OneBetween(VTRAPFRAME);
    var ok, n := ram.MapPages(root, TRAMPOLINE, PGSIZE, trampoline, PTE_R + PTE_X, false);
    SpecialMapped(m1, o1, t1, ram.mem, ram.owner, ram.tables, root, VTRAMPOLINE, n, trampoline, PTE_R + PTE_X);
    StaysTrans(old(ram.mem), old(ram.owner), old(ram.tables), m1, o1, t1, ram.mem, ram.owner, ram.tables, root);
    if !ok {
      Discard(ram, root, old(ram.owner), old(ram.mem), old(ram.tables));
      NoPagesNoRoot(old(ram.owner), root);
      return 0, root;
    }
    ghost var m2, o2, t2 := ram.mem, ram.owner, ram.tables;
    SpaceRoot(m2, o2, t2, root, 0);
    ok, n := ram.MapPages(root, TRAPFRAME, PGSIZE, trapframe, PTE_R + PTE_W, false);
    SpecialMapped(m2, o2, t2, ram.mem, ram.owner, ram.tables, root, VTRAPFRAME, n, trapframe, PTE_R + PTE_W);
    StaysTrans(old(ram.mem), old(ram.owner), old(ram.tables), m2, o2, t2, ram.mem, ram.owner, ram.tables, root);
    NoMoreTables(t1, t2, root);
    if !ok {
      assert false;
    }
    RootedMore(t1, t2, ram.tables, root, Only(VTRAMPOLINE), Only(VTRAPFRAME));
  }

  /** The pages above user memory. */
  ghost function Specials(): set<nat> {
    Only(VTRAMPOLINE) + Only(VTRAPFRAME)
  }

  /** A new space, with exactly the page-table pages on the way to vs. */
  ghost predicate FreshTables(t0: map<Pos, nat>, t1: map<Pos, nat>, root: nat, vs: set<nat>) {
    (forall p :: p in t0 ==> p.root != root) && Rooted(t0[Pos(root, 2, 0) := root], t1, root, vs)
  }

  lemma NewSpaceLacks(t0: map<Pos, nat>, root: nat, vs: set<nat>)
    requires forall p :: p in t0 ==> p.root != root
    ensures Lacking(t0[Pos(root, 2, 0) := root], root, vs) == Rungs(vs)
  {
    forall x | x in Rungs(vs) ensures Pos(root, x.0, x.1) !in t0[Pos(root, 2, 0) := root] { }
  }

  /** The first page of a new space takes two page-table pages. */
  lemma TwoTables(t0: map<Pos, nat>, root: nat, v: nat)
    requires forall p :: p in t0 ==> p.root != root
    ensures |Lacking(t0[Pos(root, 2, 0) := root], root, Only(v))| == 2
  {
    hide Rungs, Lacking;
    NewSpaceLacks(t0, root, Only(v));
    RungsOne(v);
  }

  /** The trapframe page needs no page-table page that the trampoline page does not. */
  lemma NoMoreTables(t1: map<Pos, nat>, t2: map<Pos, nat>, root: nat)
    requires Rooted(t1, t2, root, Only(VTRAMPOLINE))
    ensures Lacking(t2, root, Only(VTRAPFRAME)) == {}
  {
    hide Rungs;
    RungsOne(VTRAMPOLINE);
    RungsOne(VTRAPFRAME);
  }

  lemma TablesFine(ram: Ram)
    requires ram.Valid()
    ensures TablesOk(ram.owner, ram.tables)
  {
  }

  lemma NoTables(owner: map<nat, Owner>, tables: map<Pos, nat>, root: nat)
    requires TablesOk(owner, tables) && NoPages(owner, root)
    ensures forall p :: p in tables ==> p.root != root
  {
    hide Up;
    forall p | p in tables ensures p.root != root { assert owner[tables[p]] == Table(p); }
  }

  lemma SpaceRoot(m: Memory, o: map<nat, Owner>, t: map<Pos, nat>, root: nat, n: nat)
    requires SpaceAt(m, o, t, root, n)
    ensures Pos(root, 2, 0) in t
  {
  }

  lemma SpecialCleared(m0: Memory, o0: map<nat, Owner>, t: map<Pos, nat>, m1: Memory, o1: map<nat, Owner>, root: nat,
                       v: nat, n: nat)
    requires SpaceAt(m0, o0, t, root, n) && Cleared(m0, o0, m1, o1, t, root, v, v + 1, false)
    ensures SpaceAt(m1, o1, t, root, n) && StaysInside(m0, o0, t, m1, o1, t, root)
    ensures forall u: nat :: Leaf(m1, t, root, u) == if u == v then 0 else Leaf(m0, t, root, u)
  {
    hide Leaf;
  }

  /** uvmfree(pagetable, 0) on a space that holds no memory: the owners are those from before it was created. */
  method Discard(ram: Ram, root: nat, ghost o0: map<nat, Owner>, ghost m0: Memory, ghost t0: map<Pos, nat>)
    requires ram.Valid() && SpaceAt(ram.mem, ram.owner, ram.tables, root, 0) && NoPages(o0, root)
    requires StaysInside(m0, o0, t0, ram.mem, ram.owner, ram.tables, root)
    requires forall v: nat :: USERTOP <= v < MAXVPN ==> Leaf(ram.mem, ram.tables, root, v) == 0
    modifies ram
    ensures ram.Valid() && ram.owner == o0 && Apart(m0, o0, t0, ram.mem, ram.tables, root)
  {
    hide Shape, Ram.AllocOk, Leaf, SpaceAt, NoPages, Apart;
    WholePages(0);
    ReleasedUndoes(o0, ram.owner, root);
    ghost var m1, o1, t1 := ram.mem, ram.owner, ram.tables;
    UvmFree(ram, root, 0);
    ApartTrans(m0, o0, t0, m1, o1, t1, ram.mem, ram.tables, root);
  }

  /** proc_freepagetable: whatever the space did since it was created, all its pages are free again. */
  method ProcFreePagetable(ram: Ram, root: nat, sz: nat)
    requires ram.Valid() && sz <= TRAPFRAME && SpaceAt(ram.mem, ram.owner, ram.tables, root, Pages(sz))
    modifies ram
    ensures ram.Valid() && ram.owner == Released(old(ram.owner), root) && forall p :: p in ram.tables ==> p.root != root
    ensures Apart(old(ram.mem), old(ram.owner), old(ram.tables), ram.mem, ram.tables, root)
  {
    hide Shape, Ram.AllocOk, Leaf, SpaceAt, Cleared, Released, Apart, OnlySpace, Pages;
    ghost var m0, o0, t0 := ram.mem, ram.owner, ram.tables;
    SpaceRoot(m0, o0, t0, root, Pages(sz));
    ram.UvmUnmap(root, TRAMPOLINE, 1, false);
    SpecialCleared(m0, o0, t0, ram.mem, ram.owner, root, VTRAMPOLINE, Pages(sz));
    ghost var m1 := ram.mem;
    SameOwners(m0, o0, t0, ram.mem, ram.owner, root, VTRAMPOLINE);
    ram.UvmUnmap(root, TRAPFRAME, 1, false);
    SpecialCleared(m1, o0, t0, ram.mem, ram.owner, root, VTRAPFRAME, Pages(sz));
    SameOwners(m1, o0, t0, ram.mem, ram.owner, root, VTRAPFRAME);
    ghost var m2 := ram.mem;
    UvmFree(ram, root, sz);
    StaysTrans(m0, o0, t0, m1, o0, t0, m2, o0, t0, root);
    ApartTrans(m0, o0, t0, m2, o0, t0, ram.mem, ram.tables, root);
  }

  lemma SameOwners(m0: Memory, o0: map<nat, Owner>, t: map<Pos, nat>, m1: Memory, o1: map<nat, Owner>, root: nat,
                   v: nat)
    requires Cleared(m0, o0, m1, o1, t, root, v, v + 1, false)
    ensures o1 == o0
  {
    hide Leaf;
  }

  lemma ApartTrans(m0: Memory, o0: map<nat, Owner>, t0: map<Pos, nat>, m1: Memory, o1: map<nat, Owner>,
                   t1: map<Pos, nat>,
                   m2: Memory, t2: map<Pos, nat>, root: nat)
    requires StaysInside(m0, o0, t0, m1, o1, t1, root) && Apart(m1, o1, t1, m2, t2, root)
    ensures Apart(m0, o0, t0, m2, t2, root)
  {
    hide Leaf;
  }

  // ---------- growing, shrinking and faulting keep the space ----------

  lemma SpaceGrown(m0: Memory, o0: map<nat, Owner>, t0: map<Pos, nat>, m1: Memory, o1: map<nat, Owner>,
                   t1: map<Pos, nat>,
                   root: nat, lo: nat, hi: nat, perm: nat)
    requires perm < 1024 && SpaceAt(m0, o0, t0, root, lo) && Grown(m0, o0, t0, m1, o1, t1, root, lo, hi, perm)
    requires hi <= USERTOP
    ensures SpaceAt(m1, o1, t1, root, hi) && StaysInside(m0, o0, t0, m1, o1, t1, root)
  {
    hide Leaf, ZeroMapped;
  }

  lemma SpaceRolledBack(m0: Memory, o0: map<nat, Owner>, t0: map<Pos, nat>, m1: Memory, o1: map<nat, Owner>,
                        t1: map<Pos, nat>,
                        root: nat, n: nat)
    requires SpaceAt(m0, o0, t0, root, n)
    requires (RolledBack(m0, o0, t0, m1, o1, t1, root) || Grew(m0, o0, t0, m1, o1, t1, root))
    ensures SpaceAt(m1, o1, t1, root, n) && StaysInside(m0, o0, t0, m1, o1, t1, root)
  {
    hide Leaf;
  }

  lemma SpaceShrunk(m0: Memory, o0: map<nat, Owner>, t: map<Pos, nat>, m1: Memory, o1: map<nat, Owner>, root: nat,
                    lo: nat, hi: nat)
    requires SpaceAt(m0, o0, t, root, hi) && lo <= hi && Cleared(m0, o0, m1, o1, t, root, lo, hi, true)
    ensures SpaceAt(m1, o1, t, root, lo) && StaysInside(m0, o0, t, m1, o1, t, root)
  {
    hide Leaf;
  }

  lemma SpaceFaulted(m0: Memory, o0: map<nat, Owner>, t0: map<Pos, nat>, m1: Memory, o1: map<nat, Owner>,
                     t1: map<Pos, nat>,
                     root: nat, n: nat, v: nat, pa: nat, perm: nat, w: seq<nat>)
    requires perm < 1024 && SpaceAt(m0, o0, t0, root, n) && v < n && v < MAXVPN
    requires Added(m0, o0, t0, m1, o1, t1, root, v, pa, perm, w)
    ensures SpaceAt(m1, o1, t1, root, n) && StaysInside(m0, o0, t0, m1, o1, t1, root)
  {
    hide Leaf, MakePte;
  }

  lemma StaysRefl(m: Memory, o: map<nat, Owner>, t: map<Pos, nat>, root: nat)
    ensures StaysInside(m, o, t, m, o, t, root)
  {
  }

  lemma MoreRoom(m: Memory, o: map<nat, Owner>, t: map<Pos, nat>, root: nat, lo: nat, hi: nat)
    requires SpaceAt(m, o, t, root, lo) && lo <= hi
    ensures SpaceAt(m, o, t, root, hi)
  {
  }

  type int32 = n: int | -0x8000_0000 <= n < 0x8000_0000

  /** growproc(n), with the 64-bit sum sz + n of a shrink that would pass zero wrapping to a huge size. */
  method GrowProc(ram: Ram, root: nat, sz: nat, n: int32) returns (r: int, sz': nat)
    requires ram.Valid() && sz <= TRAPFRAME && SpaceAt(ram.mem, ram.owner, ram.tables, root, Pages(sz))
    modifies ram
    ensures ram.Valid() && sz' <= TRAPFRAME && SpaceAt(ram.mem, ram.owner, ram.tables, root, Pages(sz'))
    ensures StaysInside(old(ram.mem), old(ram.owner), old(ram.tables), ram.mem, ram.owner, ram.tables, root)
    ensures r == 0 ==> sz' == if sz + n < 0 then sz else sz + n
    ensures r != 0 ==> n > 0 && sz' == sz && SameLeaves(old(ram.mem), old(ram.tables), ram.mem, ram.tables)
    ensures r == 0 && n > 0 ==>
              Grown(old(ram.mem), old(ram.owner), old(ram.tables), ram.mem, ram.owner, ram.tables, root,
                                      Pages(sz), Pages(sz + n), PTE_R + PTE_U + PTE_W)
    ensures n < 0 <= sz + n ==>
              && ram.tables == old(ram.tables)
              && Cleared(old(ram.mem), old(ram.owner), ram.mem, ram.owner, ram.tables, root, Pages(sz + n), Pages(sz),
                         true)
    ensures n == 0 || sz + n < 0 ==>
              ram.mem == old(ram.mem) && ram.owner == old(ram.owner) && ram.tables == old(ram.tables)
    ensures r == 0 || r == -1
    ensures r == -1 <==> n > 0 && (sz + n > TRAPFRAME ||
                                   |old(ram.free)| < Cost(old(ram.tables), root, Between(Pages(sz), Pages(sz + n))))
  {
    hide Shape, Ram.Valid, SpaceAt, Pages, PGROUNDUP, Grown, RolledBack, StaysInside, Cleared, SameLeaves, NoUsersFrom,
         Cost, Between, Rooted;
    ghost var m0, o0, t0 := ram.mem, ram.owner, ram.tables;
    StaysRefl(m0, o0, t0, root);
    SameLeavesRefl(m0, t0);
    SpaceParts(m0, o0, t0, root, Pages(sz));
    PagesBelow(sz);
    if n > 0 {
      if sz + n > TRAPFRAME { return -1, sz; }
      PagesBelow(sz + n);
      ghost var ok;
      sz', ok := UvmAlloc(ram, root, sz, sz + n, PTE_W);
      if sz' == 0 {
        SpaceRolledBack(m0, o0, t0, ram.mem, ram.owner, ram.tables, root, Pages(sz));
        RolledBackLeaves(m0, o0, t0, ram.mem, ram.owner, ram.tables, root);
        return -1, sz;
      }
      SpaceGrown(m0, o0, t0, ram.mem, ram.owner, ram.tables, root, Pages(sz), Pages(sz + n), PTE_R + PTE_U + PTE_W);
    } else if n < 0 {
      var newsz := if sz + n >= 0 then sz + n else sz + n + 0x1_0000_0000_0000_0000;
      if newsz >= sz { return 0, sz; }
      MorePages(newsz, sz);
      sz' := UvmDealloc(ram, root, sz, newsz);
      SpaceShrunk(m0, o0, t0, ram.mem, ram.owner, root, Pages(newsz), Pages(sz));
    } else {
      sz' := sz;
    }
    r := 0;
  }

  lemma SpaceParts(m: Memory, o: map<nat, Owner>, t: map<Pos, nat>, root: nat, n: nat)
    requires SpaceAt(m, o, t, root, n)
    ensures Pos(root, 2, 0) in t && NoUsersFrom(o, root, n)
  {
  }

  lemma RolledBackLeaves(m0: Memory, o0: map<nat, Owner>, t0: map<Pos, nat>, m1: Memory, o1: map<nat, Owner>,
                         t1: map<Pos, nat>, root: nat)
    requires RolledBack(m0, o0, t0, m1, o1, t1, root)
    ensures SameLeaves(m0, t0, m1, t1)
  {
  }

  lemma PageBelow(va: nat, sz: nat)
    requires va < sz <= TRAPFRAME
    ensures va / PGSIZE < Pages(sz) && va / PGSIZE < MAXVPN
  {
  }

  lemma CopiedSpace(m0: Memory, o0: map<nat, Owner>, t0: map<Pos, nat>, m1: Memory, o1: map<nat, Owner>,
                    t1: map<Pos, nat>,
                    parent: nat, child: nat, n: nat)
    requires Copied(m0, o0, t0, m1, o1, t1, parent, child, n) && SpaceAt(m0, o0, t0, child, 0) && n <= USERTOP
    ensures SpaceAt(m1, o1, t1, child, n) && StaysInside(m0, o0, t0, m1, o1, t1, child)
  {
    hide Leaf, CopiedPage;
  }

  lemma StaysParts(m0: Memory, o0: map<nat, Owner>, t0: map<Pos, nat>, m1: Memory, o1: map<nat, Owner>,
                   t1: map<Pos, nat>, root: nat)
    requires StaysInside(m0, o0, t0, m1, o1, t1, root)
    ensures OnlySpace(o0, o1, root) && Apart(m0, o0, t0, m1, t1, root)
  {
  }

  // ---------- the other spaces ----------

  /** A space has the translations and the contents it had. */
  ghost predicate SameSpace(m0: Memory, o0: map<nat, Owner>, t0: map<Pos, nat>, m1: Memory, t1: map<Pos, nat>, r: nat) {
    && (forall v: nat :: Leaf(m1, t1, r, v) == Leaf(m0, t0, r, v))
    && (forall q :: q in o0 && o0[q].User? && o0[q].root == r && q in m0 ==> q in m1 && m1[q] == m0[q])
  }

  lemma ApartIsSame(m0: Memory, o0: map<nat, Owner>, t0: map<Pos, nat>, m1: Memory, t1: map<Pos, nat>, root: nat,
                    r: nat)
    requires Apart(m0, o0, t0, m1, t1, root) && r != root
    ensures SameSpace(m0, o0, t0, m1, t1, r)
  {
    hide Leaf;
  }

  /** A space whose pages all kept their owner is still there. */
  lemma StillThere(m0: Memory, o0: map<nat, Owner>, t0: map<Pos, nat>, m1: Memory, o1: map<nat, Owner>,
                   t1: map<Pos, nat>,
                   r: nat, n: nat)
    requires Shape(m0, o0, t0) && Shape(m1, o1, t1) && SpaceAt(m0, o0, t0, r, n) && SameSpace(m0, o0, t0, m1, t1, r)
    requires o1.Keys == o0.Keys && forall q :: q in o0 && !o0[q].Free? && OfSpace(o0[q], r) ==> o1[q] == o0[q]
    requires forall q :: q in o0 && o1[q].User? && o1[q].root == r ==> o1[q] == o0[q]
    ensures SpaceAt(m1, o1, t1, r, n)
  {
    hide Leaf;
    var pa := t0[Pos(r, 2, 0)];
    assert o0[pa] == Table(Pos(r, 2, 0));
    assert o1[pa] == o0[pa];
  }

  /** A new root is the root of no space that was there. */
  lemma NewRootDiffers(m0: Memory, o0: map<nat, Owner>, t0: map<Pos, nat>, r: nat, n: nat, root: nat)
    requires Shape(m0, o0, t0) && SpaceAt(m0, o0, t0, r, n) && NoRoot(o0, root)
    ensures r != root
  {
    assert o0[t0[Pos(r, 2, 0)]] == Table(Pos(r, 2, 0));
  }
}
