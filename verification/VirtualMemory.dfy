/** The page allocator and the user page-table operations of kernel/kalloc.c and kernel/vm.c. */
module VirtualMemory {
  import opened PhysicalMemory
  import opened SetSize

  const RAMPAGES: nat := 32768                       // (PHYSTOP - KERNBASE) / PGSIZE
  const JUNK1: nat := 0x0101_0101_0101_0101          // memset(pa, 1, PGSIZE)
  const JUNK5: nat := 0x0505_0505_0505_0505
  function ZeroPage(): (w: seq<nat>)
    ensures |w| == 512
  {
    seq(512, _ => 0)
  }

  const PTE_R: nat := 2
  const PTE_W: nat := 4
  const PTE_X: nat := 8
  const PTE_U: nat := 16

  function PGROUNDUP(sz: nat): nat { (sz + PGSIZE - 1) / PGSIZE * PGSIZE }

  function PGROUNDDOWN(a: nat): nat { a / PGSIZE * PGSIZE }

  /** The number of pages that hold sz bytes. */
  function Pages(sz: nat): nat { (sz + PGSIZE - 1) / PGSIZE }

  // ---------- what an operation on one address space may do to the pages ----------

  predicate OfSpace(o: Owner, root: nat) {
    o.Free? || (o.Table? && o.pos.root == root) || (o.User? && o.root == root)
  }

  /** Pages moved only between the free list and the space rooted at `root`. */
  ghost predicate OnlySpace(owner: map<nat, Owner>, owner': map<nat, Owner>, root: nat) {
    && owner'.Keys == owner.Keys
    && forall pa :: pa in owner && owner'[pa] != owner[pa] ==> OfSpace(owner[pa], root) && OfSpace(owner'[pa], root)
  }

  ghost predicate NoPages(owner: map<nat, Owner>, root: nat) {
    forall pa :: pa in owner ==> owner[pa].Free? || !OfSpace(owner[pa], root)
  }

  /** Every allocated page keeps its owner and its contents, except those mapped in [lo, hi) of `root`. */
  ghost predicate Kept(mem: Memory, owner: map<nat, Owner>, mem': Memory, owner': map<nat, Owner>,
                       root: nat, lo: nat, hi: nat) {
    && mem.Keys == owner.Keys == mem'.Keys == owner'.Keys
    && forall pa :: pa in owner &&
                    (owner[pa].Taken? || (owner[pa].User? && !(owner[pa].root == root && lo <= owner[pa].vpn < hi)))
         ==> owner'[pa] == owner[pa] && mem'[pa] == mem[pa]
  }

  /** New page-table pages were taken from the free list; nothing else changed owner. */
  ghost predicate OnlyTablesAdded(owner: map<nat, Owner>, owner': map<nat, Owner>, root: nat) {
    && owner'.Keys == owner.Keys
    && forall pa :: pa in owner && owner'[pa] != owner[pa] ==>
         owner[pa] == Free && owner'[pa].Table? && owner'[pa].pos.root == root
  }

  ghost predicate Extends(tables: map<Pos, nat>, tables': map<Pos, nat>) {
    forall p :: p in tables ==> p in tables' && tables'[p] == tables[p]
  }

  /** What walk may do: add page-table pages, changing no translation and no data. */
  ghost predicate Grew(mem: Memory, owner: map<nat, Owner>, tables: map<Pos, nat>,
                       mem': Memory, owner': map<nat, Owner>, tables': map<Pos, nat>, root: nat) {
    && SameLeaves(mem, tables, mem', tables')
    && OnlyTablesAdded(owner, owner', root)
    && Kept(mem, owner, mem', owner', root, 0, 0)
    && Extends(tables, tables')
  }

  lemma GrewRefl(mem: Memory, owner: map<nat, Owner>, tables: map<Pos, nat>, root: nat)
    requires mem.Keys == owner.Keys
    ensures Grew(mem, owner, tables, mem, owner, tables, root)
  {
  }

  lemma GrewTrans(m0: Memory, o0: map<nat, Owner>, t0: map<Pos, nat>, m1: Memory, o1: map<nat, Owner>,
                  t1: map<Pos, nat>,
                  m2: Memory, o2: map<nat, Owner>, t2: map<Pos, nat>, root: nat)
    requires Grew(m0, o0, t0, m1, o1, t1, root) && Grew(m1, o1, t1, m2, o2, t2, root)
    ensures Grew(m0, o0, t0, m2, o2, t2, root)
  {
    hide Leaf;
  }

  // ---------- what mappages does ----------

  function Frame(pa: nat, k: nat): nat { pa + k * PGSIZE }

  ghost predicate Mapped(m0: Memory, o0: map<nat, Owner>, t0: map<Pos, nat>,
                         m1: Memory, o1: map<nat, Owner>, t1: map<Pos, nat>,
                         root: nat, v0: nat, n: nat, pa: nat, perm: nat, own: bool)
    requires perm < 1024
  {
    && (forall r: nat, v: nat :: Leaf(m1, t1, r, v) ==
          if r == root && v0 <= v < v0 + n then MakePte(Frame(pa, v - v0), perm) else Leaf(m0, t0, r, v))
    && m0.Keys == o0.Keys == m1.Keys == o1.Keys
    && (forall q :: q in o0 && o1[q] != o0[q] ==>
          || (o0[q] == Free && o1[q].Table? && o1[q].pos.root == root)
          || (own && o0[q] == Taken && exists k :: 0 <= k < n && q == Frame(pa, k) && o1[q] == User(root, v0 + k)))
    && (own ==> forall k :: 0 <= k < n ==> Frame(pa, k) in o1 && o1[Frame(pa, k)] == User(root, v0 + k))
    && (forall q :: q in o0 && (o0[q].User? || o0[q].Taken?) ==> m1[q] == m0[q])
    && Extends(t0, t1)
  }

  lemma MappedNone(m: Memory, o: map<nat, Owner>, t: map<Pos, nat>, root: nat, v0: nat, pa: nat, perm: nat, own: bool)
    requires perm < 1024 && m.Keys == o.Keys
    ensures Mapped(m, o, t, m, o, t, root, v0, 0, pa, perm, own)
  {
    hide Leaf;
  }

  lemma MappedFacts(m0: Memory, o0: map<nat, Owner>, t0: map<Pos, nat>, m1: Memory, o1: map<nat, Owner>,
                    t1: map<Pos, nat>,
                    root: nat, v0: nat, n: nat, pa: nat, perm: nat, own: bool)
    requires perm < 1024 && Mapped(m0, o0, t0, m1, o1, t1, root, v0, n, pa, perm, own)
    ensures forall v :: v >= v0 + n ==> Leaf(m1, t1, root, v) == Leaf(m0, t0, root, v)
    ensures forall k :: k >= n && Frame(pa, k) in o0 && o0[Frame(pa, k)] == Taken ==>
              Frame(pa, k) in o1 && o1[Frame(pa, k)] == Taken
    ensures forall p :: p in t0 ==> p in t1
  {
    hide Leaf;
  }

  lemma GrewFacts(m0: Memory, o0: map<nat, Owner>, t0: map<Pos, nat>, m1: Memory, o1: map<nat, Owner>,
                  t1: map<Pos, nat>,
                  root: nat, v: nat)
    requires Grew(m0, o0, t0, m1, o1, t1, root)
    ensures Leaf(m1, t1, root, v) == Leaf(m0, t0, root, v)
    ensures forall q :: q in o0 && o0[q] == Taken ==> q in o1 && o1[q] == Taken
  {
    hide Leaf;
  }

  lemma MappedGrew(m0: Memory, o0: map<nat, Owner>, t0: map<Pos, nat>, m1: Memory, o1: map<nat, Owner>,
                   t1: map<Pos, nat>,
                   m2: Memory, o2: map<nat, Owner>, t2: map<Pos, nat>,
                   root: nat, v0: nat, n: nat, pa: nat, perm: nat, own: bool)
    requires perm < 1024 && Mapped(m0, o0, t0, m1, o1, t1, root, v0, n, pa, perm, own)
    requires Grew(m1, o1, t1, m2, o2, t2, root)
    ensures Mapped(m0, o0, t0, m2, o2, t2, root, v0, n, pa, perm, own)
  {
    hide Leaf, MakePte, Frame;
  }

  lemma MappedStep(m0: Memory, o0: map<nat, Owner>, t0: map<Pos, nat>, m1: Memory, o1: map<nat, Owner>,
                   t1: map<Pos, nat>,
                   m2: Memory, o2: map<nat, Owner>,
                   root: nat, v0: nat, n: nat, pa: nat, perm: nat, own: bool)
    requires perm < 1024 && Mapped(m0, o0, t0, m1, o1, t1, root, v0, n, pa, perm, own)
    requires OneLeaf(m1, t1, m2, t1, root, v0 + n, MakePte(Frame(pa, n), perm)) && m2.Keys == m1.Keys
    requires own ==> Frame(pa, n) in o0 && o0[Frame(pa, n)] == Taken && o1[Frame(pa, n)] == Taken
    requires o2 == if own then o1[Frame(pa, n) := User(root, v0 + n)] else o1
    requires forall q :: q in o1 && q in m1 && q in m2 && !o1[q].Table? ==> m2[q] == m1[q]
    ensures Mapped(m0, o0, t0, m2, o2, t1, root, v0, n + 1, pa, perm, own)
  {
    hide Leaf, MakePte;
    forall r: nat, v: nat ensures Leaf(m2, t1, r, v) ==
        if r == root && v0 <= v < v0 + (n + 1) then MakePte(Frame(pa, v - v0), perm) else Leaf(m0, t0, r, v) {
    }
    hide OneLeaf;
    forall k | 0 <= k < n && own ensures Frame(pa, k) in o2 && o2[Frame(pa, k)] == User(root, v0 + k) {
    }
  }

  // ---------- what uvmunmap does ----------

  ghost predicate Cleared(m0: Memory, o0: map<nat, Owner>, m1: Memory, o1: map<nat, Owner>, t: map<Pos, nat>,
                          root: nat, lo: nat, hi: nat, doFree: bool) {
    && (forall r: nat, v: nat :: Leaf(m1, t, r, v) == if r == root && lo <= v < hi then 0 else Leaf(m0, t, r, v))
    && Kept(m0, o0, m1, o1, root, lo, hi)
    && (forall q :: q in o0 ==>
          o1[q] == if doFree && o0[q].User? && o0[q].root == root && lo <= o0[q].vpn < hi then Free else o0[q])
  }

  lemma ClearedNone(m: Memory, o: map<nat, Owner>, t: map<Pos, nat>, root: nat, lo: nat, doFree: bool)
    requires m.Keys == o.Keys
    ensures Cleared(m, o, m, o, t, root, lo, lo, doFree)
  {
    hide Leaf;
  }

  lemma ClearedOne(m0: Memory, o0: map<nat, Owner>, m1: Memory, o1: map<nat, Owner>, t: map<Pos, nat>,
                   root: nat, v: nat, doFree: bool)
    requires OneLeaf(m0, t, m1, t, root, v, 0) && m0.Keys == o0.Keys == m1.Keys
    requires forall q :: q in o0 && !o0[q].Table? && o0[q] != User(root, v) ==> m1[q] == m0[q]
    requires o1.Keys == o0.Keys
    requires forall q :: q in o0 ==> o1[q] == if o0[q] == User(root, v) then Free else o0[q]
    requires !doFree ==> forall q :: q in o0 ==> o0[q] != User(root, v)
    ensures Cleared(m0, o0, m1, o1, t, root, v, v + 1, doFree)
  {
    hide Leaf;
  }

  lemma ClearedStep(m0: Memory, o0: map<nat, Owner>, m1: Memory, o1: map<nat, Owner>, m2: Memory, o2: map<nat, Owner>,
                    t: map<Pos, nat>, root: nat, lo: nat, hi: nat, doFree: bool)
    requires Cleared(m0, o0, m1, o1, t, root, lo, hi, doFree) && lo <= hi
    requires Cleared(m1, o1, m2, o2, t, root, hi, hi + 1, doFree) ||
             (m2 == m1 && o2 == o1 && Leaf(m1, t, root, hi) == 0 && forall q :: q in o1 ==> o1[q] != User(root, hi))
    ensures Cleared(m0, o0, m2, o2, t, root, lo, hi + 1, doFree)
  {
    hide Leaf;
  }

  lemma NoSpecialUsers(mem: Memory, owner: map<nat, Owner>, tables: map<Pos, nat>)
    requires UsersOk(mem, owner, tables)
    ensures forall q :: q in owner && owner[q].User? ==> owner[q].vpn < USERTOP
  {
  }

  /** The word walk leads to is the leaf entry; it is zero or valid, and zero means no frame is owned there. */
  lemma LeafAt(mem: Memory, owner: map<nat, Owner>, tables: map<Pos, nat>, root: nat, v: nat)
    requires Shape(mem, owner, tables)
    ensures On(root, 0, v) in tables ==>
              && tables[On(root, 0, v)] in mem && |mem[tables[On(root, 0, v)]]| == 512
              && mem[tables[On(root, 0, v)]][v % 512] == Leaf(mem, tables, root, v)
    ensures On(root, 0, v) !in tables ==> Leaf(mem, tables, root, v) == 0
    ensures PteV(Leaf(mem, tables, root, v)) <==> Leaf(mem, tables, root, v) != 0
    ensures Leaf(mem, tables, root, v) == 0 ==> forall q :: q in owner ==> owner[q] != User(root, v)
  {
    var p := On(root, 0, v);
    if p in tables { assert EntryOk(p, v % 512, mem[tables[p]][v % 512], owner, tables); }
  }

  predicate InRange(start: nat, end: nat, p: nat) {
    PGROUNDUP(start) <= p && p + PGSIZE <= end && p % PGSIZE == 0
  }

  lemma RoundUpAligned(sz: nat)
    ensures PGROUNDUP(sz) % PGSIZE == 0 && sz <= PGROUNDUP(sz) < sz + PGSIZE && PGROUNDUP(sz) == Pages(sz) * PGSIZE
  {
  }

  lemma NextAligned(p: nat, q: nat)
    requires p % PGSIZE == 0 && q % PGSIZE == 0
    ensures q < p + PGSIZE <==> q <= p
    ensures (p + PGSIZE) % PGSIZE == 0
  {
  }

  lemma SameLeavesRefl(mem: Memory, tables: map<Pos, nat>)
    ensures SameLeaves(mem, tables, mem, tables)
  {
  }

  lemma TableIsTable(mem: Memory, owner: map<nat, Owner>, tables: map<Pos, nat>, p: Pos)
    requires Shape(mem, owner, tables) && p in tables
    ensures tables[p] in owner && tables[p] in mem && owner[tables[p]] == Table(p) && |mem[tables[p]]| == 512
    ensures tables[p] % PGSIZE == 0
  {
    hide EntriesOk, UsersOk, Up;
  }

  /** Reading an interior entry: it is valid exactly when the table below exists, and then points at it. */
  lemma StepDown(mem: Memory, owner: map<nat, Owner>, tables: map<Pos, nat>, p: Pos, i: nat)
    requires Shape(mem, owner, tables) && p in tables && p.level > 0 && i < 512
    ensures tables[p] in mem && |mem[tables[p]]| == 512
    ensures var e := mem[tables[p]][i];
            && (PteV(e) <==> Down(p, i) in tables)
            && (PteV(e) ==> PTE2PA(e) == tables[Down(p, i)] && !PteRWX(e))
  {
    hide TablesOk, UsersOk, EntriesOk, PA2PTE, PTE2PA, PteRWX;
    TableIsTable(mem, owner, tables, p);
    EntryThere(mem, owner, tables, p, i);
    if Down(p, i) in tables {
      TableIsTable(mem, owner, tables, Down(p, i));
      TaggedEntry(tables[Down(p, i)]);
    }
  }

  lemma EntryThere(mem: Memory, owner: map<nat, Owner>, tables: map<Pos, nat>, p: Pos, i: nat)
    requires EntriesOk(mem, owner, tables) && p in tables && i < 512 && tables[p] in mem && |mem[tables[p]]| == 512
    ensures EntryOk(p, i, mem[tables[p]][i], owner, tables)
  {
  }

  /** Sv39 translation as the hardware does it: follow the words in memory, one 9-bit index per level, and
      return the leaf entry, or 0 when some entry on the way is invalid or already a leaf. */
  ghost function HardwareLeaf(mem: Memory, t: nat, level: nat, va: nat): nat
    requires level <= 2
    decreases level
  {
    if t !in mem || |mem[t]| != 512 then 0
    else
      var e := mem[t][PX(level, va)];
      if level == 0 then e
      else if PteV(e) && !PteRWX(e) then HardwareLeaf(mem, PTE2PA(e), level - 1, va)
      else 0
  }

  lemma {:induction false} HardwareFrom(mem: Memory, owner: map<nat, Owner>, tables: map<Pos, nat>, root: nat,
                                        level: nat, va: nat)
    requires Shape(mem, owner, tables) && level <= 2 && va < MAXVA && On(root, level, va / PGSIZE) in tables
    ensures HardwareLeaf(mem, tables[On(root, level, va / PGSIZE)], level, va) == Leaf(mem, tables, root, va / PGSIZE)
    decreases level
  {
    var p := On(root, level, va / PGSIZE);
    TableIsTable(mem, owner, tables, p);
    PathStep(root, 1, va);
    if level > 0 {
      PathStep(root, level, va);
      StepDown(mem, owner, tables, p, PX(level, va));
      if Down(p, PX(level, va)) in tables {
        HardwareFrom(mem, owner, tables, root, level - 1, va);
      } else if level == 2 {
        assert va / PGSIZE / 0x4_0000 == va / PGSIZE / 512 / 512;
        assert Up(On(root, 0, va / PGSIZE)) == On(root, 1, va / PGSIZE);
      }
    }
  }

  /** The flat map is what the hardware sees. */
  lemma HardwareSeesLeaf(mem: Memory, owner: map<nat, Owner>, tables: map<Pos, nat>, root: nat, va: nat)
    requires Shape(mem, owner, tables) && va < MAXVA && Pos(root, 2, 0) in tables
    ensures HardwareLeaf(mem, root, 2, va) == Leaf(mem, tables, root, va / PGSIZE)
  {
    HardwareFrom(mem, owner, tables, root, 2, va);
  }

  /** Two addresses use the same leaf entry exactly when they lie in the same page of the same space. */
  lemma SharedEntry(mem: Memory, owner: map<nat, Owner>, tables: map<Pos, nat>, r1: nat, va1: nat, r2: nat, va2: nat)
    requires Shape(mem, owner, tables) && va1 < MAXVA && va2 < MAXVA
    requires On(r1, 0, va1 / PGSIZE) in tables && On(r2, 0, va2 / PGSIZE) in tables
    ensures tables[On(r1, 0, va1 / PGSIZE)] == tables[On(r2, 0, va2 / PGSIZE)] && PX(0, va1) == PX(0, va2)
            <==> r1 == r2 && va1 / PGSIZE == va2 / PGSIZE
  {
    hide EntriesOk, UsersOk;
    var p1, p2 := On(r1, 0, va1 / PGSIZE), On(r2, 0, va2 / PGSIZE);
    if tables[p1] == tables[p2] {
      assert owner[tables[p1]] == Table(p1) && owner[tables[p2]] == Table(p2);
    }
  }

  /** The three indices of an address determine its page. */
  lemma IndicesDeterminePage(va1: nat, va2: nat)
    requires va1 < MAXVA && va2 < MAXVA
    ensures (forall l :: 0 <= l <= 2 ==> PX(l, va1) == PX(l, va2)) <==> va1 / PGSIZE == va2 / PGSIZE
  {
    PathStep(0, 2, va1);
    PathStep(0, 1, va1);
    PathStep(0, 2, va2);
    PathStep(0, 1, va2);
    if forall l :: 0 <= l <= 2 ==> PX(l, va1) == PX(l, va2) {
      assert PX(0, va1) == PX(0, va2) && PX(1, va1) == PX(1, va2) && PX(2, va1) == PX(2, va2);
    } else {
      var l :| 0 <= l <= 2 && PX(l, va1) != PX(l, va2);
    }
  }

  lemma SameLeavesTrans3(m0: Memory, t0: map<Pos, nat>, m1: Memory, t1: map<Pos, nat>,
                         m2: Memory, t2: map<Pos, nat>, m3: Memory, t3: map<Pos, nat>)
    requires SameLeaves(m0, t0, m1, t1) && SameLeaves(m1, t1, m2, t2) && SameLeaves(m2, t2, m3, t3)
    ensures SameLeaves(m0, t0, m3, t3)
  {
    hide Leaf;
  }

  lemma OnLevel(root: nat, level: nat, v: nat)
    requires level <= 2
    ensures On(root, level, v).level == level && On(root, level, v).root == root
  {
  }

  /** A free page becomes a table and one word of another table changes. */
  lemma GrownKept(m0: Memory, o0: map<nat, Owner>, m1: Memory, o1: map<nat, Owner>, page: nat, t: nat,
                  p: Pos, q: Pos)
    requires m0.Keys == o0.Keys && page in o0 && o0[page] == Free && t in o0 && o0[t] == Table(p)
    requires o1 == o0[page := Taken][page := Table(q)] && q.root == p.root
    requires m1.Keys == m0.Keys && forall pa :: pa in m0 && pa != page && pa != t ==> m1[pa] == m0[pa]
    ensures OnlyTablesAdded(o0, o1, p.root) && Kept(m0, o0, m1, o1, p.root, 0, 0)
  {
  }

  lemma GrownIsGrew(mem: Memory, owner: map<nat, Owner>, tables: map<Pos, nat>, mem': Memory, owner': map<nat, Owner>,
                    tables': map<Pos, nat>, p: Pos, i: nat, page: nat)
    requires SameLeaves(mem, tables, mem', tables') && p.level > 0 && Down(p, i) !in tables
    requires OnlyTablesAdded(owner, owner', p.root) && Kept(mem, owner, mem', owner', p.root, 0, 0)
    requires tables' == (if page == 0 then tables else tables[Down(p, i) := page])
    ensures Grew(mem, owner, tables, mem', owner', tables', p.root)
  {
  }

  // ---------- what mapping pages costs ----------

  /** The page-table pages below the root on the way to the pages vs, by level and index. */
  ghost function Rungs(vs: set<nat>): set<(nat, nat)> {
    (set v | v in vs :: (0, v / 512)) + (set v | v in vs :: (1, v / 0x4_0000))
  }

  /** Those that the space does not have yet. */
  ghost function Lacking(tables: map<Pos, nat>, root: nat, vs: set<nat>): set<(nat, nat)> {
    set x | x in Rungs(vs) && Pos(root, x.0, x.1) !in tables
  }

  /** The pages that mapping a new frame at each of vs takes: the frames, and the page-table pages that are missing. */
  ghost function Cost(tables: map<Pos, nat>, root: nat, vs: set<nat>): nat {
    |vs| + |Lacking(tables, root, vs)|
  }

  /** The space has gained exactly the page-table pages on the way to vs. */
  ghost predicate Rooted(t0: map<Pos, nat>, t1: map<Pos, nat>, root: nat, vs: set<nat>) {
    forall p :: p in t1 <==> p in t0 || (p.root == root && (p.level, p.idx) in Rungs(vs))
  }

  /** Mapping a new frame at each of vs succeeds exactly when there are free pages enough, and takes exactly those. */
  ghost predicate Paid(t0: map<Pos, nat>, t1: map<Pos, nat>, root: nat, vs: set<nat>, free0: nat, free1: nat,
                       ok: bool) {
    && (ok <==> Cost(t0, root, vs) <= free0)
    && (ok ==> free1 + Cost(t0, root, vs) == free0 && Rooted(t0, t1, root, vs))
  }

  /** 1 when the table on the way to v is missing. */
  ghost function Miss(tables: map<Pos, nat>, root: nat, level: nat, v: nat): nat
    requires level <= 2
  {
    if On(root, level, v) in tables then 0 else 1
  }

  lemma RungsOne(v: nat)
    ensures Rungs({v}) == {(0, v / 512), (1, v / 0x4_0000)}
  {
  }

  lemma LackingOne(tables: map<Pos, nat>, root: nat, v: nat)
    ensures |Lacking(tables, root, {v})| == Miss(tables, root, 0, v) + Miss(tables, root, 1, v)
  {
    hide Rungs;
    RungsOne(v);
    var all := Lacking(tables, root, {v});
    assert all == LackingAt(tables, root, 0, v / 512) + LackingAt(tables, root, 1, v / 0x4_0000);
  }

  ghost function LackingAt(tables: map<Pos, nat>, root: nat, level: nat, idx: nat): set<(nat, nat)> {
    if Pos(root, level, idx) in tables then {} else {(level, idx)}
  }

  lemma RungsMore(vs: set<nat>, ws: set<nat>)
    ensures Rungs(vs + ws) == Rungs(vs) + Rungs(ws)
  {
  }

  /** Mapping more pages of a space costs what they lack after the first ones are there. */
  lemma LackingMore(t0: map<Pos, nat>, t1: map<Pos, nat>, root: nat, vs: set<nat>, ws: set<nat>)
    requires Rooted(t0, t1, root, vs)
    ensures |Lacking(t0, root, vs + ws)| == |Lacking(t0, root, vs)| + |Lacking(t1, root, ws)|
  {
    hide Rungs;
    RungsMore(vs, ws);
    var a, b := Lacking(t0, root, vs), Lacking(t1, root, ws);
    assert Lacking(t0, root, vs + ws) == a + b;
    assert a !! b;
  }

  lemma CostMore(t0: map<Pos, nat>, t1: map<Pos, nat>, root: nat, vs: set<nat>, ws: set<nat>)
    requires Rooted(t0, t1, root, vs) && vs !! ws
    ensures Cost(t0, root, vs + ws) == Cost(t0, root, vs) + Cost(t1, root, ws)
  {
    LackingMore(t0, t1, root, vs, ws);
  }

  lemma CostMono(t: map<Pos, nat>, root: nat, vs: set<nat>, ws: set<nat>)
    requires vs <= ws
    ensures |Lacking(t, root, vs)| <= |Lacking(t, root, ws)| && Cost(t, root, vs) <= Cost(t, root, ws)
  {
    hide Rungs;
    RungsMore(vs, ws);
    assert vs + ws == ws;
    SubsetSize(Lacking(t, root, vs), Lacking(t, root, ws));
    SubsetSize(vs, ws);
  }

  lemma RootedNone(t: map<Pos, nat>, root: nat)
    ensures Rooted(t, t, root, {}) && Lacking(t, root, {}) == {}
  {
  }

  lemma RootedMore(t0: map<Pos, nat>, t1: map<Pos, nat>, t2: map<Pos, nat>, root: nat, vs: set<nat>, ws: set<nat>)
    requires Rooted(t0, t1, root, vs) && Rooted(t1, t2, root, ws)
    ensures Rooted(t0, t2, root, vs + ws)
  {
    hide Rungs;
    RungsMore(vs, ws);
  }

  /** The tables that walk adds. */
  lemma RootedPath(t0: map<Pos, nat>, t1: map<Pos, nat>, root: nat, v: nat)
    requires forall p :: p in t1 <==> p in t0 || p == On(root, 1, v) || p == On(root, 0, v)
    ensures Rooted(t0, t1, root, {v})
  {
    hide Rungs;
    RungsOne(v);
  }

  /** One more page of a run of pages. */
  lemma OneMore(t0: map<Pos, nat>, t1: map<Pos, nat>, root: nat, v0: nat, k: nat, n: nat)
    requires Rooted(t0, t1, root, Between(v0, v0 + k)) && k < n
    ensures Between(v0, v0 + k + 1) == Between(v0, v0 + k) + {v0 + k} && Between(v0, v0 + k + 1) <= Between(v0, v0 + n)
    ensures |Lacking(t0, root, Between(v0, v0 + k + 1))| ==
            |Lacking(t0, root, Between(v0, v0 + k))| + Miss(t1, root, 0, v0 + k) + Miss(t1, root, 1, v0 + k)
    ensures |Lacking(t0, root, Between(v0, v0 + k + 1))| <= |Lacking(t0, root, Between(v0, v0 + n))|
  {
    hide Lacking, Miss, Between, Rooted;
    LackingMore(t0, t1, root, Between(v0, v0 + k), {v0 + k});
    LackingOne(t1, root, v0 + k);
    CostMono(t0, root, Between(v0, v0 + k + 1), Between(v0, v0 + n));
  }

  // ---------- the free list ----------

  lemma FillKeeps(mem: Memory, owner: map<nat, Owner>, tables: map<Pos, nat>, head: nat, free: seq<nat>, pa: nat,
                  w: seq<nat>)
    requires Shape(mem, owner, tables) && FreeListOk(mem, head, free, owner) && pa in owner && owner[pa] == Taken
    requires |w| == 512
    ensures Shape(mem[pa := w], owner, tables) && PagesOk(mem[pa := w], owner)
    ensures FreeListOk(mem[pa := w], head, free, owner)
    ensures SameLeaves(mem, tables, mem[pa := w], tables)
  {
    hide EntriesOk, TablesOk, UsersOk, SameLeaves, FreeListOk;
    assert owner[pa := Taken] == owner;
    TouchLoosePage(mem, owner, tables, pa, w, Taken);
    FreeListFrame(mem, mem[pa := w], head, free, owner, owner);
  }

  lemma FreeListFrame(mem: Memory, mem': Memory, head: nat, free: seq<nat>, owner: map<nat, Owner>,
                      owner': map<nat, Owner>)
    requires FreeListOk(mem, head, free, owner) && owner'.Keys == owner.Keys && mem'.Keys == mem.Keys
    requires forall pa :: pa in owner ==> (owner[pa] == Free <==> owner'[pa] == Free)
    requires forall pa :: pa in owner && owner[pa] == Free && pa in mem ==> mem'[pa] == mem[pa]
    ensures FreeListOk(mem', head, free, owner')
  {
    forall i | 0 <= i < |free| ensures free[i] in mem' && mem'[free[i]] == mem[free[i]] {
      assert free[i] in free;
    }
  }

  lemma EmptyFreeList(mem: Memory, head: nat, free: seq<nat>, owner: map<nat, Owner>)
    requires PagesOk(mem, owner) && FreeListOk(mem, head, free, owner)
    ensures head == 0 <==> free == []
  {
    if |free| > 0 { assert free[0] in free; }
  }

  lemma PopFree(mem: Memory, head: nat, free: seq<nat>, owner: map<nat, Owner>, w: seq<nat>)
    requires PagesOk(mem, owner) && FreeListOk(mem, head, free, owner) && |free| > 0 && |w| == 512
    ensures head in mem && owner[head] == Free && head == free[0]
    ensures FreeListOk(mem[head := w], mem[head][0], free[1..], owner[head := Taken])
  {
    hide PagesOk;
    var mem', f := mem[head := w], free[1..];
    assert head in free;
    forall i | 0 <= i < |f| ensures f[i] != head && f[i] in mem' && |mem'[f[i]]| == 512 &&
        mem'[f[i]][0] == if i + 1 < |f| then f[i + 1] else 0 {
      PopLink(mem, head, free, owner, w, i);
    }
    PopMembers(free, owner, head);
    hide FreeListOk;
    PopRest(mem', mem[head][0], f, owner[head := Taken]);
  }

  lemma PopLink(mem: Memory, head: nat, free: seq<nat>, owner: map<nat, Owner>, w: seq<nat>, i: nat)
    requires FreeListOk(mem, head, free, owner) && i + 1 < |free| && |w| == 512
    ensures var f := free[1..]; var mem' := mem[head := w];
            f[i] != head && f[i] in mem' && |mem'[f[i]]| == 512 && mem'[f[i]][0] == if i + 1 < |f| then f[i + 1] else 0
  {
    var k := free[i + 1];
    assert k in mem && mem[k][0] == if i + 2 < |free| then free[i + 2] else 0;
  }

  lemma PopRest(mem: Memory, head: nat, free: seq<nat>, owner: map<nat, Owner>)
    requires forall i, j :: 0 <= i < j < |free| ==> free[i] != free[j]
    requires forall pa :: pa in free <==> pa in owner && owner[pa] == Free
    requires head == if |free| == 0 then 0 else free[0]
    requires forall i :: 0 <= i < |free| ==> free[i] in mem && |mem[free[i]]| == 512 &&
                                             mem[free[i]][0] == if i + 1 < |free| then free[i + 1] else 0
    ensures FreeListOk(mem, head, free, owner)
  {
  }

  lemma PopMembers(free: seq<nat>, owner: map<nat, Owner>, head: nat)
    requires |free| > 0 && head == free[0] && head in owner && head !in free[1..]
    requires forall pa :: pa in free <==> pa in owner && owner[pa] == Free
    ensures forall pa :: pa in free[1..] <==> pa in owner[head := Taken] && owner[head := Taken][pa] == Free
  {
    forall pa ensures pa in free[1..] <==> pa in owner[head := Taken] && owner[head := Taken][pa] == Free {
      assert pa in free <==> pa == free[0] || pa in free[1..];
    }
  }

  lemma PushFree(mem: Memory, head: nat, free: seq<nat>, owner: map<nat, Owner>, pa: nat, w: seq<nat>)
    requires PagesOk(mem, owner) && FreeListOk(mem, head, free, owner)
    requires pa in owner && owner[pa] != Free && |w| == 512 && w[0] == head
    ensures FreeListOk(mem[pa := w], pa, [pa] + free, owner[pa := Free])
  {
    var mem', f := mem[pa := w], [pa] + free;
    assert pa !in free;
    forall i | 0 <= i < |f| ensures f[i] in mem' && mem'[f[i]][0] == if i + 1 < |f| then f[i + 1] else 0 {
      if i > 0 {
        assert f[i] == free[i - 1] && mem'[free[i - 1]] == mem[free[i - 1]];
        assert mem[free[i - 1]][0] == if i < |free| then free[i] else 0;
      }
    }
  }

  class Ram {
    var mem: Memory
    var freelist: nat
    ghost var free: seq<nat>
    ghost var owner: map<nat, Owner>
    ghost var tables: map<Pos, nat>

    ghost predicate AllocOk()
      reads this
    {
      PagesOk(mem, owner) && FreeListOk(mem, freelist, free, owner) && |owner.Keys| <= RAMPAGES
    }

    ghost predicate Valid()
      reads this
    {
      AllocOk() && Shape(mem, owner, tables)
    }

    /** RAM before kinit: every page exists and none is on the free list. */
    constructor (ram: Memory)
      requires |ram| <= RAMPAGES
      requires forall pa :: pa in ram ==> pa > 0 && pa % PGSIZE == 0
      requires forall pa :: pa in ram ==> |ram[pa]| == 512
      ensures Valid() && free == [] && tables == map[]
      ensures mem == ram && owner == map pa | pa in ram :: Taken
    {
      mem, freelist, free, tables := ram, 0, [], map[];
      owner := map pa | pa in ram :: Taken;
      assert ram.Keys == (map pa | pa in ram :: Taken).Keys;
    }

    /** kalloc */
    method Kalloc() returns (r: nat)
      requires Valid()
      modifies this`mem, this`freelist, this`free, this`owner
      ensures Valid() && SameLeaves(old(mem), tables, mem, tables)
      ensures r == 0 <==> old(free) == []
      ensures r == 0 ==> mem == old(mem) && free == old(free) && owner == old(owner)
      ensures r != 0 ==> r in old(owner) && old(owner)[r] == Free && owner == old(owner)[r := Taken]
      ensures r != 0 ==> free == old(free)[1..] && mem == old(mem)[r := seq(512, _ => JUNK5)]
    {
      hide Shape, SameLeaves, FreeListOk;
      EmptyFreeList(mem, freelist, free, owner);
      SameLeavesRefl(mem, tables);
      r := freelist;
      if r != 0 {
        PopFree(mem, freelist, free, owner, seq(512, _ => JUNK5));
        TouchLoosePage(mem, owner, tables, r, seq(512, _ => JUNK5), Taken);
        freelist := mem[r][0];
        free := free[1..];
        mem := mem[r := seq(512, _ => JUNK5)];
        owner := owner[r := Taken];
      }
    }

    /** kfree of an allocated page. Its owner becomes Free at once, even when a page-table entry still
        names it; the caller clears that entry. */
    method Kfree(pa: nat)
      requires AllocOk() && pa in owner && owner[pa] != Free
      modifies this`mem, this`freelist, this`free, this`owner
      ensures AllocOk() && owner == old(owner)[pa := Free] && free == [pa] + old(free)
      ensures exists w :: |w| == 512 && mem == old(mem)[pa := w]
    {
      var w: seq<nat> := seq(512, _ => JUNK1);
      w := [freelist] + w[1..];
      PushFree(mem, freelist, free, owner, pa, w);
      mem := mem[pa := w];
      freelist := pa;
      free := [pa] + free;
      owner := owner[pa := Free];
    }

    /** kfree of a page that no table mentions. */
    method FreeTaken(pa: nat)
      requires Valid() && pa in owner && owner[pa] == Taken
      modifies this`mem, this`freelist, this`free, this`owner
      ensures Valid() && SameLeaves(old(mem), tables, mem, tables)
      ensures owner == old(owner)[pa := Free]
      ensures forall q :: q in old(mem) && q != pa ==> q in mem && mem[q] == old(mem)[q]
    {
      hide Shape, SameLeaves, FreeListOk;
      assert PagesOk(mem, owner);
      Kfree(pa);
      ghost var w :| |w| == 512 && mem == old(mem)[pa := w];
      TouchLoosePage(old(mem), old(owner), tables, pa, w, Free);
    }

    /** freerange: frees exactly the whole pages of the range. */
    lemma NoneYet(start: nat, end: nat)
      ensures forall q: nat :: InRange(start, end, q) ==> q >= PGROUNDUP(start)
    {
    }

    lemma RangeStep(start: nat, end: nat, p: nat)
      requires p % PGSIZE == 0 && PGROUNDUP(start) <= p && p + PGSIZE <= end
      ensures InRange(start, end, p) && (p + PGSIZE) % PGSIZE == 0
      ensures forall q: nat :: InRange(start, end, q) ==> (q < p + PGSIZE <==> q <= p)
    {
      forall q: nat | InRange(start, end, q) ensures q < p + PGSIZE <==> q <= p { NextAligned(p, q); }
      NextAligned(p, p);
    }

    lemma RangeDone(start: nat, end: nat, p: nat)
      requires p + PGSIZE > end
      ensures forall q: nat :: InRange(start, end, q) ==> q < p
    {
    }

    method Freerange(start: nat, end: nat)
      requires Valid()
      requires forall p :: InRange(start, end, p) ==> p in owner && owner[p] == Taken
      modifies this`mem, this`freelist, this`free, this`owner
      ensures Valid() && owner.Keys == old(owner).Keys
      ensures forall p :: p in owner ==> owner[p] == if InRange(start, end, p) then Free else old(owner)[p]
    {
      hide Shape, FreeListOk, SameLeaves, PGROUNDUP, InRange, PagesOk;
      assert AllocOk();
      var p := PGROUNDUP(start);
      RoundUpAligned(start);
      NoneYet(start, end);
      while p + PGSIZE <= end
        invariant Valid() && p % PGSIZE == 0 && PGROUNDUP(start) <= p
        invariant owner.Keys == old(owner).Keys
        invariant forall q :: q in owner ==> owner[q] == if InRange(start, end, q) && q < p then Free else old(owner)[q]
      {
        RangeStep(start, end, p);
        FreeTaken(p);
        p := p + PGSIZE;
      }
      RangeDone(start, end, p);
    }

    ghost predicate Unchanged(mem0: Memory, free0: seq<nat>, owner0: map<nat, Owner>, tables0: map<Pos, nat>)
      reads this
    {
      mem == mem0 && free == free0 && owner == owner0 && tables == tables0
    }

    /** memset or memmove into an allocated page. */
    method FillPage(pa: nat, w: seq<nat>)
      requires Valid() && pa in owner && owner[pa] == Taken && |w| == 512
      modifies this`mem
      ensures Valid() && SameLeaves(old(mem), tables, mem, tables) && mem == old(mem)[pa := w]
    {
      hide Shape, SameLeaves, FreeListOk, PagesOk;
      FillKeeps(mem, owner, tables, freelist, free, pa, w);
      mem := mem[pa := w];
    }

    /** Make a zeroed page the table below entry i of the table at p. */
    method LinkTable(t: nat, i: nat, page: nat, ghost p: Pos)
      requires Valid() && p in tables && tables[p] == t && p.level > 0 && i < 512 && Down(p, i) !in tables
      requires page in owner && owner[page] == Taken && page in mem && mem[page] == ZeroPage()
      modifies this`mem, this`owner, this`tables
      ensures Valid() && SameLeaves(old(mem), old(tables), mem, tables)
      ensures owner == old(owner)[page := Table(Down(p, i))] && tables == old(tables)[Down(p, i) := page]
      ensures t in old(owner) && old(owner)[t] == Table(p) && mem == Poke(old(mem), t, i, PA2PTE(page) + 1)
    {
      hide Shape, SameLeaves, FreeListOk;
      assert PagesOk(mem, owner);
      TableIsTable(mem, owner, tables, p);
      AddTable(mem, owner, tables, p, i, page);
      FreeListFrame(mem, Poke(mem, t, i, PA2PTE(page) + 1), freelist, free, owner, owner[page := Table(Down(p, i))]);
      mem := Poke(mem, t, i, PA2PTE(page) + 1);
      owner := owner[page := Table(Down(p, i))];
      tables := tables[Down(p, i) := page];
    }

    /** The alloc branch of walk: hang a new zeroed page-table page below entry i of the table at p. */
    method GrowTable(t: nat, i: nat, ghost p: Pos) returns (page: nat)
      requires Valid() && p in tables && tables[p] == t && p.level > 0 && i < 512 && Down(p, i) !in tables
      modifies this
      ensures Valid() && SameLeaves(old(mem), old(tables), mem, tables)
      ensures OnlyTablesAdded(old(owner), owner, p.root) && Kept(old(mem), old(owner), mem, owner, p.root, 0, 0)
      ensures page == 0 ==> old(free) == [] && Unchanged(old(mem), old(free), old(owner), old(tables))
      ensures page != 0 ==> tables == old(tables)[Down(p, i) := page] && |free| + 1 == |old(free)|
    {
      hide AllocOk, Shape, SameLeaves, ZeroPage;
      SameKeys();
      page := Kalloc();
      if page != 0 {
        ghost var m1 := mem;
        FillPage(page, ZeroPage());
        ghost var m2 := mem;
        LinkTable(t, i, page, p);
        GrownKept(old(mem), old(owner), mem, owner, page, t, p, Down(p, i));
        SameLeavesTrans3(old(mem), old(tables), m1, old(tables), m2, old(tables), mem, tables);
      }
    }

    lemma SameKeys()
      requires Valid()
      ensures mem.Keys == owner.Keys && forall pa :: pa in mem ==> pa > 0
    {
    }

    /** walk: find, and with `alloc` create, the leaf entry for va. Even a failing walk changes no
        translation; without alloc it changes nothing and fails exactly when the leaf table is missing. */
    method Walk(root: nat, va: nat, alloc: bool) returns (ok: bool, t: nat, i: nat)
      requires Valid() && Pos(root, 2, 0) in tables && va < MAXVA
      modifies this
      ensures Valid() && Grew(old(mem), old(owner), old(tables), mem, owner, tables, root)
      ensures ok ==>
                On(root, 0, va / PGSIZE) in tables && t == tables[On(root, 0, va / PGSIZE)] && i == va / PGSIZE % 512
      ensures !alloc ==> Unchanged(old(mem), old(free), old(owner), old(tables)) && freelist == old(freelist)
      ensures !alloc ==> (ok <==> On(root, 0, va / PGSIZE) in tables)
      ensures alloc && !ok ==> free == []
      ensures alloc ==>
                var need := old(Miss(tables, root, 0, va / PGSIZE)) + old(Miss(tables, root, 1, va / PGSIZE));
                && (ok <==> need <= |old(free)|)
                && (ok ==> |free| + need == |old(free)| && Rooted(old(tables), tables, root, Only(va / PGSIZE)))
    {
      hide AllocOk, Shape, Grew, On, Rooted;
      ghost var v, t0 := va / PGSIZE, tables;
      SameKeys();
      TableRoot(root);
      GrewRefl(mem, owner, tables, root);
      t := root;
      var level := 2;
      i := 0;
      while level > 0
        invariant 0 <= level <= 2 && Valid() && mem.Keys == owner.Keys
        invariant On(root, level, va / PGSIZE) in tables && t == tables[On(root, level, va / PGSIZE)]
        invariant Grew(old(mem), old(owner), old(tables), mem, owner, tables, root)
        invariant !alloc ==> Unchanged(old(mem), old(free), old(owner), old(tables)) && freelist == old(freelist)
        invariant forall q :: q in tables <==>
                                q in t0 || (level < 2 && q == On(root, 1, v)) || (level < 1 && q == On(root, 0, v))
        invariant |free| + (if level < 2
                            then Miss(t0, root, 1, v) else 0) + (if level < 1 then Miss(t0, root, 0, v) else 0)
                  == |old(free)|
      {
        ghost var p := On(root, level, va / PGSIZE);
        PathStep(root, level, va);
        OnLevel(root, level, va / PGSIZE);
        StepDown(mem, owner, tables, p, PX(level, va));
        var pte := mem[t][PX(level, va)];
        if PteV(pte) {
          t := PTE2PA(pte);
        } else {
          if !alloc { MissingBelow(root, level - 1, va / PGSIZE); ok := false; return; }
          ghost var m, o, tb := mem, owner, tables;
          t := GrowTable(t, PX(level, va), p);
          GrownIsGrew(m, o, tb, mem, owner, tables, p, PX(level, va), t);
          GrewTrans(old(mem), old(owner), old(tables), m, o, tb, mem, owner, tables, root);
          if t == 0 {
            if level == 2 { MissingUnder(t0, root, v); }
            ok := false;
            return;
          }
          SameKeys();
        }
        level := level - 1;
      }
      PathStep(root, 1, va);
      ok, i := true, PX(0, va);
      RootedPath(t0, tables, root, v);
    }

    lemma MissingUnder(t0: map<Pos, nat>, root: nat, v: nat)
      requires Valid() && (forall p :: p in tables <==> p in t0) && On(root, 1, v) !in t0
      ensures Miss(t0, root, 0, v) == Miss(t0, root, 1, v) == 1
    {
      MissingBelow(root, 1, v);
    }

    lemma TableRoot(root: nat)
      requires Valid() && Pos(root, 2, 0) in tables
      ensures tables[Pos(root, 2, 0)] == root && forall v :: On(root, 2, v) == Pos(root, 2, 0)
    {
    }

    /** A missing table means that everything below it is missing. */
    lemma MissingBelow(root: nat, level: nat, v: nat)
      requires Valid() && level <= 1 && On(root, level, v) !in tables
      ensures On(root, 0, v) !in tables
    {
      if level == 1 {
        assert v / 0x4_0000 == (v / 512) / 512;
        assert Up(On(root, 0, v)) == On(root, 1, v);
      }
    }

    /** The store at the end of a round of mappages: give page v of `root` the entry for frame pa. With
        `own` the frame is a taken page that becomes user memory; otherwise v is a trampoline page. */
    method SetLeaf(t: nat, i: nat, pa: nat, perm: nat, ghost root: nat, ghost v: nat, ghost own: bool)
      requires Valid() && On(root, 0, v) in tables && t == tables[On(root, 0, v)] && i == v % 512
      requires Leaf(mem, tables, root, v) == 0 && perm < 1024 && (perm / 2) % 8 != 0 && pa % PGSIZE == 0
      requires if own then v < USERTOP && pa in owner && owner[pa] == Taken else v >= USERTOP
      modifies this`mem, this`owner
      ensures Valid() && OneLeaf(old(mem), tables, mem, tables, root, v, MakePte(pa, perm))
      ensures owner == if own then old(owner)[pa := User(root, v)] else old(owner)
      ensures mem.Keys == old(mem).Keys
      ensures forall q :: q in old(owner) && q in old(mem) && q in mem && !old(owner)[q].Table? ==>
                            mem[q] == old(mem)[q]
    {
      hide EntriesOk, TablesOk, UsersOk, OneLeaf, FreeListOk;
      ghost var owner' := if own then owner[pa := User(root, v)] else owner;
      TableIsTable(mem, owner, tables, On(root, 0, v));
      if own {
        MapUser(mem, owner, tables, root, v, pa, perm);
      } else {
        MapSpecial(mem, owner, tables, root, v, pa, perm);
      }
      FreeListFrame(mem, Poke(mem, t, i, MakePte(pa, perm)), freelist, free, owner, owner');
      mem := Poke(mem, t, i, MakePte(pa, perm));
      owner := owner';
    }

    /** mappages: on success exactly the named pages are mapped to consecutive frames; it fails only when
        the allocator is empty, with the first `done` pages mapped. */
    method MapPages(root: nat, va: nat, size: nat, pa: nat, perm: nat, ghost own: bool)
      returns (ok: bool, ghost done: nat)
      requires Valid() && Pos(root, 2, 0) in tables
      requires va % PGSIZE == 0 && size % PGSIZE == 0 && size > 0 && va + size <= MAXVA && pa % PGSIZE == 0
      requires perm < 1024 && (perm / 2) % 8 != 0
      requires forall v :: va / PGSIZE <= v < (va + size) / PGSIZE ==> Leaf(mem, tables, root, v) == 0
      requires own ==> va + size <= TRAPFRAME &&
                       forall k :: 0 <= k < size / PGSIZE ==> Frame(pa, k) in owner && owner[Frame(pa, k)] == Taken
      requires !own ==> va >= TRAPFRAME
      modifies this
      ensures Valid() && done <= size / PGSIZE && (ok <==> done == size / PGSIZE)
      ensures Mapped(old(mem), old(owner), old(tables), mem, owner, tables, root, va / PGSIZE, done, pa, perm, own)
      ensures !ok ==> free == []
      ensures var need := |Lacking(old(tables), root, Between(va / PGSIZE, va / PGSIZE + size / PGSIZE))|;
              && (ok <==> need <= |old(free)|)
              && (ok ==> |free| + need == |old(free)|)
      ensures ok ==> Rooted(old(tables), tables, root, Between(va / PGSIZE, va / PGSIZE + size / PGSIZE))
    {
      hide AllocOk, Shape, Mapped, Grew, Leaf, On, OneLeaf, Rooted, Lacking, Between, Miss;
      var a, last, f := va, va + size - PGSIZE, pa;
      done := 0;
      ghost var v0, n := va / PGSIZE, size / PGSIZE;
      SameKeys();
      MappedNone(mem, owner, tables, root, v0, pa, perm, own);
      RootedNone(tables, root);
      assert Between(v0, v0) == {};
      while true
        invariant Valid() && done < n && a == va + done * PGSIZE && f == Frame(pa, done)
        invariant Mapped(old(mem), old(owner), old(tables), mem, owner, tables, root, v0, done, pa, perm, own)
        invariant Rooted(old(tables), tables, root, Between(v0, v0 + done))
        invariant |free| + |Lacking(old(tables), root, Between(v0, v0 + done))| == |old(free)|
        decreases n - done
      {
        MappedFacts(old(mem), old(owner), old(tables), mem, owner, tables, root, v0, done, pa, perm, own);
        ghost var m, o, tb := mem, owner, tables;
        var found, t, i := Walk(root, a, true);
        GrewFacts(m, o, tb, mem, owner, tables, root, a / PGSIZE);
        MappedGrew(old(mem), old(owner), old(tables), m, o, tb, mem, owner, tables, root, v0, done, pa, perm, own);
        assert a / PGSIZE == v0 + done;
        OneMore(old(tables), tb, root, v0, done, n);
        if !found { ok := false; return; }
        RootedMore(old(tables), tb, tables, root, Between(v0, v0 + done), {v0 + done});
        m, o := mem, owner;
        SetLeaf(t, i, f, perm, root, a / PGSIZE, own);
        MappedStep(old(mem), old(owner), old(tables), m, o, tables, mem, owner, root, v0, done, pa, perm, own);
        done := done + 1;
        if a == last { break; }
        a := a + PGSIZE;
        f := f + PGSIZE;
      }
      ok := true;
    }

    /** A round of uvmunmap with do_free: free the frame, then clear the entry. */
    method FreeLeaf(t: nat, i: nat, ghost root: nat, ghost v: nat)
      requires Valid() && On(root, 0, v) in tables && t == tables[On(root, 0, v)] && i == v % 512
      requires Leaf(mem, tables, root, v) != 0 && v < USERTOP
      modifies this`mem, this`freelist, this`free, this`owner
      ensures Valid() && Cleared(old(mem), old(owner), mem, owner, tables, root, v, v + 1, true)
    {
      hide EntriesOk, TablesOk, UsersOk, OneLeaf, FreeListOk, Cleared, Leaf;
      TableIsTable(mem, owner, tables, On(root, 0, v));
      LeafAt(mem, owner, tables, root, v);
      UserLeafOwner(mem, owner, tables, root, v);
      OneUser(mem, owner, tables, root, v);
      var pa := PTE2PA(mem[t][i]);
      Kfree(pa);
      ghost var w :| |w| == 512 && mem == old(mem)[pa := w];
      UnmapUser(old(mem), old(owner), tables, root, v, w);
      FreeListFrame(mem, Poke(mem, t, i, 0), freelist, free, owner, owner);
      mem := Poke(mem, t, i, 0);
      ClearedOne(old(mem), old(owner), mem, owner, tables, root, v, true);
    }

    /** A round of uvmunmap without do_free. */
    method ClearLeaf(t: nat, i: nat, ghost root: nat, ghost v: nat)
      requires Valid() && On(root, 0, v) in tables && t == tables[On(root, 0, v)] && i == v % 512
      requires v >= USERTOP
      modifies this`mem
      ensures Valid() && Cleared(old(mem), owner, mem, owner, tables, root, v, v + 1, false)
    {
      hide EntriesOk, TablesOk, UsersOk, OneLeaf, FreeListOk, Cleared, Leaf;
      TableIsTable(mem, owner, tables, On(root, 0, v));
      NoSpecialUsers(mem, owner, tables);
      LeafChange(mem, owner, tables, root, v, 0, owner);
      FreeListFrame(mem, Poke(mem, t, i, 0), freelist, free, owner, owner);
      mem := Poke(mem, t, i, 0);
      ClearedOne(old(mem), owner, mem, owner, tables, root, v, false);
    }

    /** uvmunmap: afterwards exactly the named pages are unmapped, and with doFree their frames are free. */
    method UvmUnmap(root: nat, va: nat, npages: nat, doFree: bool)
      requires Valid() && Pos(root, 2, 0) in tables && va % PGSIZE == 0
      requires if doFree then va + npages * PGSIZE <= TRAPFRAME else va >= TRAPFRAME && va + npages * PGSIZE <= MAXVA
      modifies this
      ensures Valid() && tables == old(tables)
      ensures Cleared(old(mem), old(owner), mem, owner, tables, root, va / PGSIZE, va / PGSIZE + npages, doFree)
    {
      hide AllocOk, Shape, Cleared, Leaf, On, Grew;
      ghost var v0, n := va / PGSIZE, 0;
      SameKeys();
      ClearedNone(mem, owner, tables, root, v0, doFree);
      var a := va;
      while a < va + npages * PGSIZE
        invariant Valid() && tables == old(tables) && n <= npages && a == va + n * PGSIZE
        invariant Cleared(old(mem), old(owner), mem, owner, tables, root, v0, v0 + n, doFree)
        decreases npages - n
      {
        assert a / PGSIZE == v0 + n;
        var found, t, i := Walk(root, a, false);
        ghost var m, o := mem, owner;
        LeafAt(mem, owner, tables, root, a / PGSIZE);
        if found {
          var pte := mem[t][i];
          if PteV(pte) {
            if doFree {
              FreeLeaf(t, i, root, a / PGSIZE);
            } else {
              ClearLeaf(t, i, root, a / PGSIZE);
            }
          }
        }
        ClearedStep(old(mem), old(owner), m, o, mem, owner, tables, root, v0, v0 + n, doFree);
        a := a + PGSIZE;
        n := n + 1;
      }
    }
  }
}
