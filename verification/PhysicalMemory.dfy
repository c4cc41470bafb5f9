/** Physical pages and three-level page tables (kernel/kalloc.c, kernel/vm.c, kernel/riscv.h).

    Physical memory is a map from page addresses to 512 words. Every page the allocator manages has one
    ghost owner, so that "free", "page-table page" and "mapped page" are disjoint by construction; the
    invariants below tie those owners to the free list and to the words in memory. */
module PhysicalMemory {

  const PGSIZE: nat := 4096
  const MAXVA: nat := 0x40_0000_0000          // 1 << 38
  const TRAMPOLINE: nat := MAXVA - PGSIZE
  const TRAPFRAME: nat := TRAMPOLINE - PGSIZE
  const MAXVPN: nat := MAXVA / PGSIZE
  const USERTOP: nat := TRAPFRAME / PGSIZE    // first page number that is not user memory

  // ---------- addresses and page-table entries ----------

  /** PX(level, va): 9 bits of the address, starting at bit 12 + 9 * level. */
  function PX(level: nat, va: nat): (i: nat)
    requires level <= 2
    ensures i < 512
  {
    if level == 0 then (va / 0x1000) % 512 else if level == 1 then (va / 0x20_0000) % 512 else (va / 0x4000_0000) % 512
  }

  function PA2PTE(pa: nat): nat { (pa / 4096) * 1024 }

  function PTE2PA(pte: nat): nat { (pte / 1024) * 4096 }

  function PteFlags(pte: nat): nat { pte % 1024 }

  predicate PteV(pte: nat) { pte % 2 == 1 }

  /** Any of PTE_R, PTE_W, PTE_X. */
  predicate PteRWX(pte: nat) { (pte / 2) % 8 != 0 }

  predicate PteU(pte: nat) { (pte / 16) % 2 == 1 }

  /** PA2PTE(pa) | perm | PTE_V */
  function MakePte(pa: nat, perm: nat): nat
    requires perm < 1024
  {
    PA2PTE(pa) + (if perm % 2 == 1 then perm else perm + 1)
  }

  lemma PteRoundTrip(pa: nat, perm: nat)
    requires pa % 4096 == 0 && perm < 1024
    ensures PTE2PA(MakePte(pa, perm)) == pa && PteV(MakePte(pa, perm)) && MakePte(pa, perm) != 0
    ensures PteRWX(MakePte(pa, perm)) == ((perm / 2) % 8 != 0)
    ensures PteU(MakePte(pa, perm)) == ((perm / 16) % 2 == 1)
    ensures perm % 2 == 1 ==> PteFlags(MakePte(pa, perm)) == perm
  {
    SplitWord(pa / 4096, if perm % 2 == 1 then perm else perm + 1);
    if perm % 2 == 0 { SplitFlags(perm); }
  }

  lemma SplitWord(q: nat, f: nat)
    requires f < 1024
    ensures (1024 * q + f) / 1024 == q && (1024 * q + f) % 1024 == f
    ensures (1024 * q + f) % 2 == f % 2
    ensures ((1024 * q + f) / 2) % 8 == (f / 2) % 8
    ensures ((1024 * q + f) / 16) % 2 == (f / 16) % 2
  {
    HalfWord(q, f);
    LowBits(q, f / 2);
    SixteenthWord(q, f);
    LowBit(q, f / 16);
  }

  lemma HalfWord(q: nat, f: nat)
    ensures (1024 * q + f) / 2 == 512 * q + f / 2 && (1024 * q + f) % 2 == f % 2
  {
  }

  lemma LowBits(q: nat, g: nat)
    ensures (512 * q + g) % 8 == g % 8
  {
  }

  lemma SixteenthWord(q: nat, f: nat)
    ensures (1024 * q + f) / 16 == 64 * q + f / 16
  {
  }

  lemma LowBit(q: nat, g: nat)
    ensures (64 * q + g) % 2 == g % 2
  {
  }

  lemma SplitFlags(perm: nat)
    requires perm < 1024 && perm % 2 == 0
    ensures (perm + 1) / 2 == perm / 2 && (perm + 1) / 16 == perm / 16 && perm + 1 < 1024
  {
  }

  // ---------- positions in a three-level table ----------

  /** The page-table page at `level` of the tree rooted at `root` that serves the page numbers v with
      v / 512^(level + 1) == idx. */
  datatype Pos = Pos(root: nat, level: nat, idx: nat)

  function Down(p: Pos, i: nat): Pos
    requires p.level > 0
  {
    Pos(p.root, p.level - 1, p.idx * 512 + i)
  }

  function Up(p: Pos): Pos { Pos(p.root, p.level + 1, p.idx / 512) }

  /** The table on the path to page number v. */
  function On(root: nat, level: nat, v: nat): Pos
    requires level <= 2
  {
    Pos(root, level, if level == 0 then v / 512 else if level == 1 then v / 0x4_0000 else 0)
  }

  lemma PathStep(root: nat, level: nat, va: nat)
    requires 0 < level <= 2 && va < MAXVA
    ensures Down(On(root, level, va / PGSIZE), PX(level, va)) == On(root, level - 1, va / PGSIZE)
    ensures PX(0, va) == va / PGSIZE % 512
  {
    var v := va / PGSIZE;
    if level == 2 {
      assert va / 0x4000_0000 == v / 0x4_0000 < 512;
    } else {
      assert va / 0x20_0000 == v / 512;
      assert v / 0x4_0000 == (v / 512) / 512;
    }
  }

  datatype Owner =
    | Free
    | Taken                            // allocated, in no user mapping and not a page-table page
    | Table(pos: Pos)
    | User(root: nat, vpn: nat)        // mapped at page vpn of the table rooted at root

  type Memory = map<nat, seq<nat>>

  /** Store word i of page t. */
  function Poke(mem: Memory, t: nat, i: nat, e: nat): Memory
    requires t in mem && i < |mem[t]|
  {
    var w: seq<nat> := mem[t][i := e];
    mem[t := w]
  }

  // ---------- invariants ----------

  ghost predicate PagesOk(mem: Memory, owner: map<nat, Owner>) {
    && mem.Keys == owner.Keys
    && (forall pa :: pa in mem ==> pa > 0 && pa % PGSIZE == 0)
    && (forall pa :: pa in mem ==> |mem[pa]| == 512)
  }

  /** kmem.freelist, threaded through the first word of each free page, lists the free pages once each. */
  ghost predicate FreeListOk(mem: Memory, head: nat, free: seq<nat>, owner: map<nat, Owner>) {
    && (forall i, j :: 0 <= i < j < |free| ==> free[i] != free[j])
    && (forall pa :: pa in free <==> pa in owner && owner[pa] == Free)
    && head == (if |free| == 0 then 0 else free[0])
    && (forall i :: 0 <= i < |free| ==> free[i] in mem && |mem[free[i]]| == 512)
    && (forall i {:trigger mem[free[i]]} :: 0 <= i < |free| ==>
                                              mem[free[i]][0] == if i + 1 < |free| then free[i + 1] else 0)
  }

  /** The page-table pages form complete paths up to their roots. */
  ghost predicate TablesOk(owner: map<nat, Owner>, tables: map<Pos, nat>) {
    && (forall p :: p in tables ==> tables[p] in owner && owner[tables[p]] == Table(p))
    && (forall pa :: pa in owner && owner[pa].Table? ==> owner[pa].pos in tables && tables[owner[pa].pos] == pa)
    && (forall p :: p in tables ==> p.level <= 2 && (p.level == 2 ==> p.idx == 0 && tables[p] == p.root))
    && (forall p :: p in tables && p.level < 2 ==> Up(p) in tables)
  }

  /** What the words of the page-table pages say: interior entries point at the tables below, leaf
      entries are zero or valid leaves, and the user leaves name exactly the user-owned pages. */
  ghost predicate EntryOk(p: Pos, i: nat, e: nat, owner: map<nat, Owner>, tables: map<Pos, nat>) {
    if p.level > 0 then e == if Down(p, i) in tables then PA2PTE(tables[Down(p, i)]) + 1 else 0
    else LeafOk(p.root, p.idx * 512 + i, e, owner)
  }

  ghost predicate LeafOk(root: nat, v: nat, e: nat, owner: map<nat, Owner>) {
    e == 0 || (PteV(e) && PteRWX(e) && (v < USERTOP ==> PTE2PA(e) in owner && owner[PTE2PA(e)] == User(root, v)))
  }

  ghost predicate EntriesOk(mem: Memory, owner: map<nat, Owner>, tables: map<Pos, nat>) {
    forall p, i :: p in tables && 0 <= i < 512 && tables[p] in mem && |mem[tables[p]]| == 512
      ==> EntryOk(p, i, mem[tables[p]][i], owner, tables)
  }

  /** The flat map: the leaf entry of page v, zero when there is none. */
  ghost function Leaf(mem: Memory, tables: map<Pos, nat>, root: nat, v: nat): nat {
    var p := On(root, 0, v);
    if p in tables && tables[p] in mem && |mem[tables[p]]| == 512 then mem[tables[p]][v % 512] else 0
  }

  ghost predicate UsersOk(mem: Memory, owner: map<nat, Owner>, tables: map<Pos, nat>) {
    forall pa :: pa in owner && owner[pa].User? ==>
      && owner[pa].vpn < USERTOP
      && Leaf(mem, tables, owner[pa].root, owner[pa].vpn) != 0
      && PTE2PA(Leaf(mem, tables, owner[pa].root, owner[pa].vpn)) == pa
  }

  ghost predicate Shape(mem: Memory, owner: map<nat, Owner>, tables: map<Pos, nat>) {
    PagesOk(mem, owner) && TablesOk(owner, tables) && EntriesOk(mem, owner, tables) && UsersOk(mem, owner, tables)
  }

  // ---------- single changes of memory ----------

  ghost predicate SameLeaves(mem: Memory, tables: map<Pos, nat>, mem': Memory, tables': map<Pos, nat>) {
    forall r, v :: Leaf(mem', tables', r, v) == Leaf(mem, tables, r, v)
  }

  ghost predicate OneLeaf(mem: Memory, tables: map<Pos, nat>, mem': Memory, tables': map<Pos, nat>,
                          root: nat, vpn: nat, e: nat) {
    forall r, v :: Leaf(mem', tables', r, v) == if r == root && v == vpn then e else Leaf(mem, tables, r, v)
  }

  /** Changes that leave every page-table page and every table or user owner alone keep the shape. */
  lemma ShapeFrame(mem: Memory, owner: map<nat, Owner>, tables: map<Pos, nat>, mem': Memory, owner': map<nat, Owner>)
    requires Shape(mem, owner, tables) && PagesOk(mem', owner') && mem'.Keys == mem.Keys
    requires forall p :: p in tables ==> mem'[tables[p]] == mem[tables[p]]
    requires forall pa :: pa in owner && (owner[pa].Table? || owner[pa].User? || owner'[pa].Table? || owner'[pa].User?)
               ==> owner'[pa] == owner[pa]
    ensures Shape(mem', owner', tables) && SameLeaves(mem, tables, mem', tables)
  {
    forall r: nat, v: nat ensures Leaf(mem', tables, r, v) == Leaf(mem, tables, r, v) {
    }
    forall p, i | p in tables && 0 <= i < 512 ensures EntryOk(p, i, mem'[tables[p]][i], owner', tables) {
      assert EntryOk(p, i, mem[tables[p]][i], owner, tables);
    }
  }

  /** Writing a page that is free or merely taken disturbs no table. */
  lemma TouchLoosePage(mem: Memory, owner: map<nat, Owner>, tables: map<Pos, nat>, pa: nat, w: seq<nat>, o: Owner)
    requires Shape(mem, owner, tables) && pa in mem && |w| == 512
    requires owner[pa] == Free || owner[pa] == Taken
    requires o == Free || o == Taken
    ensures Shape(mem[pa := w], owner[pa := o], tables)
    ensures SameLeaves(mem, tables, mem[pa := w], tables)
  {
    hide EntriesOk, UsersOk, SameLeaves;
    ShapeFrame(mem, owner, tables, mem[pa := w], owner[pa := o]);
  }

  lemma TaggedEntry(a: nat)
    ensures (PA2PTE(a) + 1) % 2 == 1 && !PteRWX(PA2PTE(a) + 1) && PTE2PA(PA2PTE(a) + 1) == a / 4096 * 4096
  {
    SplitWord(a / 4096, 1);
  }

  lemma AddTableOwners(owner: map<nat, Owner>, tables: map<Pos, nat>, p: Pos, i: nat, page: nat)
    requires TablesOk(owner, tables) && p in tables && p.level > 0 && i < 512
    requires page in owner && owner[page] == Taken && Down(p, i) !in tables
    ensures TablesOk(owner[page := Table(Down(p, i))], tables[Down(p, i) := page])
  {
    assert Up(Down(p, i)) == p;
  }

  lemma AddTableEntries(mem: Memory, owner: map<nat, Owner>, tables: map<Pos, nat>, p: Pos, i: nat, page: nat)
    requires PagesOk(mem, owner) && TablesOk(owner, tables) && EntriesOk(mem, owner, tables)
    requires p in tables && p.level > 0 && i < 512 && Down(p, i) !in tables
    requires page in owner && owner[page] == Taken && mem[page] == seq(512, _ => 0)
    ensures EntriesOk(Poke(mem, tables[p], i, PA2PTE(page) + 1), owner[page := Table(Down(p, i))],
                      tables[Down(p, i) := page])
  {
    var t, q := tables[p], Down(p, i);
    var mem', owner', tables' := Poke(mem, t, i, PA2PTE(page) + 1), owner[page := Table(q)], tables[q := page];
    forall a, j | a in tables' && 0 <= j < 512 ensures EntryOk(a, j, mem'[tables'[a]][j], owner', tables') {
      if a == q {
        assert a.level > 0 ==> Up(Down(a, j)) == a;
      } else {
        assert tables[a] != page && (tables[a] == t ==> a == p);
        assert EntryOk(a, j, mem[tables[a]][j], owner, tables);
        assert a.level > 0 && Down(a, j) == q ==> a == p && j == i;
      }
    }
  }

  lemma AddTableLeaves(mem: Memory, owner: map<nat, Owner>, tables: map<Pos, nat>, p: Pos, i: nat, page: nat)
    requires PagesOk(mem, owner) && TablesOk(owner, tables)
    requires p in tables && p.level > 0 && i < 512 && Down(p, i) !in tables
    requires page in owner && owner[page] == Taken && mem[page] == seq(512, _ => 0)
    ensures SameLeaves(mem, tables, Poke(mem, tables[p], i, PA2PTE(page) + 1), tables[Down(p, i) := page])
  {
    var t, q := tables[p], Down(p, i);
    var mem', tables' := Poke(mem, t, i, PA2PTE(page) + 1), tables[q := page];
    forall r: nat, v: nat ensures Leaf(mem', tables', r, v) == Leaf(mem, tables, r, v) {
      var a := On(r, 0, v);
      if a in tables {
        assert tables[a] != page && a != p && tables[a] != t;
      }
    }
  }

  /** walk's step: a zeroed taken page becomes the table below entry i of the table at p. */
  lemma AddTable(mem: Memory, owner: map<nat, Owner>, tables: map<Pos, nat>, p: Pos, i: nat, page: nat)
    requires Shape(mem, owner, tables) && p in tables && p.level > 0 && i < 512
    requires page in owner && owner[page] == Taken && mem[page] == seq(512, _ => 0)
    requires Down(p, i) !in tables
    ensures Shape(Poke(mem, tables[p], i, PA2PTE(page) + 1), owner[page := Table(Down(p, i))],
                  tables[Down(p, i) := page])
    ensures SameLeaves(mem, tables, Poke(mem, tables[p], i, PA2PTE(page) + 1), tables[Down(p, i) := page])
  {
    hide EntriesOk, Leaf;
    AddTableOwners(owner, tables, p, i, page);
    AddTableEntries(mem, owner, tables, p, i, page);
    AddTableLeaves(mem, owner, tables, p, i, page);
  }

  /** Storing a leaf entry, together with a change of owner of the page it gains or loses. */
  lemma StoreLeaf(mem: Memory, owner: map<nat, Owner>, tables: map<Pos, nat>, root: nat, v: nat, e: nat)
    requires PagesOk(mem, owner) && TablesOk(owner, tables) && On(root, 0, v) in tables
    ensures var p := On(root, 0, v);
            OneLeaf(mem, tables, Poke(mem, tables[p], v % 512, e), tables, root, v, e)
  {
    var p := On(root, 0, v);
    var mem' := Poke(mem, tables[p], v % 512, e);
    forall r: nat, u: nat
      ensures Leaf(mem', tables, r, u) == if r == root && u == v then e else Leaf(mem, tables, r, u)
    {
      var a := On(r, 0, u);
      if a in tables && tables[a] == tables[p] {
        assert a == p;
        assert u % 512 == v % 512 ==> u == v;
      }
    }
  }

  /** The entries of all tables after one leaf entry was replaced. */
  lemma EntriesAfterStore(mem: Memory, owner: map<nat, Owner>, tables: map<Pos, nat>, root: nat, v: nat, e: nat,
                          owner': map<nat, Owner>)
    requires PagesOk(mem, owner) && TablesOk(owner, tables) && EntriesOk(mem, owner, tables)
    requires On(root, 0, v) in tables && LeafOk(root, v, e, owner')
    requires owner'.Keys == owner.Keys
    requires forall pa :: pa in owner && owner[pa].User? && owner[pa] != User(root, v) ==> owner'[pa] == owner[pa]
    ensures EntriesOk(Poke(mem, tables[On(root, 0, v)], v % 512, e), owner', tables)
  {
    var p := On(root, 0, v);
    var mem' := Poke(mem, tables[p], v % 512, e);
    forall a, j | a in tables && 0 <= j < 512 ensures EntryOk(a, j, mem'[tables[a]][j], owner', tables) {
      assert EntryOk(a, j, mem[tables[a]][j], owner, tables);
      assert tables[a] == tables[p] ==> a == p;
      if a.level == 0 && !(a == p && j == v % 512) {
        assert a.root != root || a.idx * 512 + j != v;
      }
    }
  }

  /** Replacing one leaf entry while at most the pages it named or names change owner. */
  lemma LeafChange(mem: Memory, owner: map<nat, Owner>, tables: map<Pos, nat>, root: nat, v: nat, e: nat,
                   owner': map<nat, Owner>)
    requires Shape(mem, owner, tables) && On(root, 0, v) in tables
    requires LeafOk(root, v, e, owner') && owner'.Keys == owner.Keys
    requires forall pa :: pa in owner && (owner[pa].Table? || owner'[pa].Table?) ==> owner'[pa] == owner[pa]
    requires forall pa :: pa in owner && owner[pa].User? && owner[pa] != User(root, v) ==> owner'[pa] == owner[pa]
    requires forall pa :: pa in owner && owner'[pa].User? && owner'[pa] != User(root, v) ==> owner'[pa] == owner[pa]
    requires forall pa :: pa in owner && owner'[pa] == User(root, v) ==> v < USERTOP && e != 0 && PTE2PA(e) == pa
    ensures Shape(Poke(mem, tables[On(root, 0, v)], v % 512, e), owner', tables)
    ensures OneLeaf(mem, tables, Poke(mem, tables[On(root, 0, v)], v % 512, e), tables, root, v, e)
  {
    hide EntriesOk, UsersOk, Leaf, OneLeaf, PagesOk, TablesOk;
    PagesAfterStore(mem, owner, tables, On(root, 0, v), v % 512, e, owner');
    StoreLeaf(mem, owner, tables, root, v, e);
    EntriesAfterStore(mem, owner, tables, root, v, e, owner');
    UsersAfterStore(mem, owner, tables, Poke(mem, tables[On(root, 0, v)], v % 512, e), root, v, e, owner');
  }

  lemma PagesAfterStore(mem: Memory, owner: map<nat, Owner>, tables: map<Pos, nat>, p: Pos, i: nat, e: nat,
                        owner': map<nat, Owner>)
    requires PagesOk(mem, owner) && TablesOk(owner, tables) && p in tables && i < 512 && owner'.Keys == owner.Keys
    requires forall pa :: pa in owner && (owner[pa].Table? || owner'[pa].Table?) ==> owner'[pa] == owner[pa]
    ensures tables[p] in mem && |mem[tables[p]]| == 512 && PagesOk(Poke(mem, tables[p], i, e), owner')
    ensures TablesOk(owner', tables)
  {
  }

  lemma UsersAfterStore(mem: Memory, owner: map<nat, Owner>, tables: map<Pos, nat>, mem': Memory,
                        root: nat, v: nat, e: nat, owner': map<nat, Owner>)
    requires UsersOk(mem, owner, tables) && OneLeaf(mem, tables, mem', tables, root, v, e)
    requires owner'.Keys == owner.Keys
    requires forall pa :: pa in owner && owner'[pa].User? && owner'[pa] != User(root, v) ==> owner'[pa] == owner[pa]
    requires forall pa :: pa in owner && owner'[pa] == User(root, v) ==> v < USERTOP && e != 0 && PTE2PA(e) == pa
    ensures UsersOk(mem', owner', tables)
  {
    hide Leaf;
  }

  /** Mapping a taken page at an unmapped user page. */
  lemma MapUser(mem: Memory, owner: map<nat, Owner>, tables: map<Pos, nat>, root: nat, v: nat, pa: nat, perm: nat)
    requires Shape(mem, owner, tables) && On(root, 0, v) in tables && v < USERTOP
    requires Leaf(mem, tables, root, v) == 0 && pa in owner && owner[pa] == Taken
    requires perm < 1024 && (perm / 2) % 8 != 0
    ensures var mem' := Poke(mem, tables[On(root, 0, v)], v % 512, MakePte(pa, perm));
            && Shape(mem', owner[pa := User(root, v)], tables)
            && OneLeaf(mem, tables, mem', tables, root, v, MakePte(pa, perm))
  {
    PteRoundTrip(pa, perm);
    LeafChange(mem, owner, tables, root, v, MakePte(pa, perm), owner[pa := User(root, v)]);
  }

  /** Mapping a frame the tables do not own at the trapframe or trampoline page. */
  lemma MapSpecial(mem: Memory, owner: map<nat, Owner>, tables: map<Pos, nat>, root: nat, v: nat, pa: nat, perm: nat)
    requires Shape(mem, owner, tables) && On(root, 0, v) in tables && v >= USERTOP && pa % PGSIZE == 0
    requires perm < 1024 && (perm / 2) % 8 != 0
    ensures var mem' := Poke(mem, tables[On(root, 0, v)], v % 512, MakePte(pa, perm));
            && Shape(mem', owner, tables)
            && OneLeaf(mem, tables, mem', tables, root, v, MakePte(pa, perm))
  {
    PteRoundTrip(pa, perm);
    LeafChange(mem, owner, tables, root, v, MakePte(pa, perm), owner);
  }

  /** Clearing the entry of a user page whose frame goes back to the free list. */
  lemma UnmapUser(mem: Memory, owner: map<nat, Owner>, tables: map<Pos, nat>, root: nat, v: nat, w: seq<nat>)
    requires Shape(mem, owner, tables) && On(root, 0, v) in tables && v < USERTOP && |w| == 512
    requires Leaf(mem, tables, root, v) != 0
    ensures var pa := PTE2PA(Leaf(mem, tables, root, v));
            && pa in owner && owner[pa] == User(root, v) && pa != tables[On(root, 0, v)]
            && (var mem' := Poke(mem[pa := w], tables[On(root, 0, v)], v % 512, 0);
                && Shape(mem', owner[pa := Free], tables)
                && OneLeaf(mem, tables, mem', tables, root, v, 0))
  {
    hide EntriesOk, UsersOk, TablesOk, Leaf;
    var p, pa := On(root, 0, v), PTE2PA(Leaf(mem, tables, root, v));
    UserLeafOwner(mem, owner, tables, root, v);
    OneUser(mem, owner, tables, root, v);
    LeafChange(mem, owner, tables, root, v, 0, owner[pa := Free]);
    var mem1 := Poke(mem, tables[p], v % 512, 0);
    TouchLoosePage(mem1, owner[pa := Free], tables, pa, w, Free);
    assert mem1[pa := w] == Poke(mem[pa := w], tables[p], v % 512, 0);
    assert owner[pa := Free][pa := Free] == owner[pa := Free];
  }

  /** A nonzero user entry names a page owned by exactly that mapping. */
  lemma UserLeafOwner(mem: Memory, owner: map<nat, Owner>, tables: map<Pos, nat>, root: nat, v: nat)
    requires Shape(mem, owner, tables) && v < USERTOP && Leaf(mem, tables, root, v) != 0
    ensures var p, pa := On(root, 0, v), PTE2PA(Leaf(mem, tables, root, v));
            && p in tables && tables[p] in owner && owner[tables[p]] == Table(p)
            && pa in owner && owner[pa] == User(root, v)
            && PteV(Leaf(mem, tables, root, v)) && PteRWX(Leaf(mem, tables, root, v))
  {
    hide UsersOk, PTE2PA, PteV, PteRWX;
    LeafEntryOk(mem, owner, tables, root, v);
  }

  lemma LeafEntryOk(mem: Memory, owner: map<nat, Owner>, tables: map<Pos, nat>, root: nat, v: nat)
    requires EntriesOk(mem, owner, tables) && Leaf(mem, tables, root, v) != 0
    ensures LeafOk(root, v, Leaf(mem, tables, root, v), owner)
  {
    hide LeafOk;
    var p := On(root, 0, v);
    assert p.idx * 512 + v % 512 == v;
    assert EntryOk(p, v % 512, mem[tables[p]][v % 512], owner, tables);
  }

  lemma OneUser(mem: Memory, owner: map<nat, Owner>, tables: map<Pos, nat>, root: nat, v: nat)
    requires UsersOk(mem, owner, tables)
    ensures forall pa :: pa in owner && owner[pa] == User(root, v) ==> PTE2PA(Leaf(mem, tables, root, v)) == pa
  {
  }
}
