/** User address spaces: growing, shrinking, faulting, copying and freeing them (kernel/vm.c, the
    memory parts of kernel/proc.c and kernel/exec.c). */
module AddressSpace {
  import opened PhysicalMemory
  import opened SetSize
  import opened VirtualMemory

  /** No page of user memory is mapped at page number lo or above. */
  ghost predicate NoUsersFrom(owner: map<nat, Owner>, root: nat, lo: nat) {
    forall q :: q in owner && owner[q].User? && owner[q].root == root ==> owner[q].vpn < lo
  }

  lemma Unmapped(ram: Ram, root: nat, lo: nat)
    requires ram.Valid() && NoUsersFrom(ram.owner, root, lo)
    ensures forall v :: lo <= v < USERTOP ==> Leaf(ram.mem, ram.tables, root, v) == 0
  {
    forall v | lo <= v < USERTOP ensures Leaf(ram.mem, ram.tables, root, v) == 0 {
      if Leaf(ram.mem, ram.tables, root, v) != 0 { UserLeafOwner(ram.mem, ram.owner, ram.tables, root, v); }
    }
  }

  lemma ValidShape(ram: Ram)
    requires ram.Valid()
    ensures Shape(ram.mem, ram.owner, ram.tables)
  {
  }

  // ---------- one fresh page ----------

  /** Page v of `root` is now backed by frame pa, with contents w. */
  ghost predicate Added(m0: Memory, o0: map<nat, Owner>, t0: map<Pos, nat>, m1: Memory, o1: map<nat, Owner>,
                        t1: map<Pos, nat>,
                        root: nat, v: nat, pa: nat, perm: nat, w: seq<nat>)
    requires perm < 1024
  {
    && OneLeaf(m0, t0, m1, t1, root, v, MakePte(pa, perm))
    && pa in o0 && o0[pa] == Free && pa in o1 && o1[pa] == User(root, v) && pa in m1 && m1[pa] == w
    && Kept(m0, o0, m1, o1, root, 0, 0)
    && (forall q :: q in o0 && q != pa && o1[q] != o0[q] ==> o0[q] == Free && o1[q].Table? && o1[q].pos.root == root)
    && Extends(t0, t1)
  }

  lemma AddedFromMapped(m0: Memory, o0: map<nat, Owner>, t0: map<Pos, nat>, m1: Memory, m2: Memory, o2: map<nat, Owner>,
                        t2: map<Pos, nat>, root: nat, v: nat, pa: nat, perm: nat, w: seq<nat>)
    requires perm < 1024 && pa in o0 && o0[pa] == Free && m0.Keys == o0.Keys
    requires m1 == m0[pa := w] && SameLeaves(m0, t0, m1, t0)
    requires Mapped(m1, o0[pa := Taken], t0, m2, o2, t2, root, v, 1, pa, perm, true)
    ensures Added(m0, o0, t0, m2, o2, t2, root, v, pa, perm, w) && Extends(t0, t2)
  {
    hide Leaf;
    assert Frame(pa, 0) == pa;
    assert o2[Frame(pa, 0)] == User(root, v + 0);
    forall q | q in o0 && q != pa && o2[q] != o0[q]
      ensures o0[q] == Free && o2[q].Table? && o2[q].pos.root == root
    {
      assert o0[pa := Taken][q] == o0[q];
    }
  }

  lemma NotMapped(m0: Memory, o0: map<nat, Owner>, t0: map<Pos, nat>, m1: Memory, m2: Memory, o2: map<nat, Owner>,
                  t2: map<Pos, nat>, m3: Memory, root: nat, v: nat, pa: nat, perm: nat, w: seq<nat>)
    requires perm < 1024 && pa in o0 && o0[pa] == Free && m0.Keys == o0.Keys
    requires m1 == m0[pa := w] && SameLeaves(m0, t0, m1, t0)
    requires Mapped(m1, o0[pa := Taken], t0, m2, o2, t2, root, v, 0, pa, perm, true)
    requires SameLeaves(m2, t2, m3, t2) && m3.Keys == m2.Keys && forall q :: q in m2 && q != pa ==> m3[q] == m2[q]
    ensures o2[pa] == Taken && Grew(m0, o0, t0, m3, o2[pa := Free], t2, root)
  {
    hide Leaf, SameLeaves;
    MappedZero(m1, o0[pa := Taken], t0, m2, o2, t2, root, v, pa, perm);
    SameLeavesTrans3(m0, t0, m1, t0, m2, t2, m3, t2);
    hide Mapped;
    forall q | q in o0 && o2[pa := Free][q] != o0[q]
      ensures o0[q] == Free && o2[pa := Free][q].Table? && o2[pa := Free][q].pos.root == root
    {
      assert q != pa && o0[pa := Taken][q] == o0[q];
    }
    forall q | q in o0 && (o0[q].Taken? || o0[q].User?) ensures o2[q] == o0[q] && m3[q] == m0[q] {
      assert q != pa && o0[pa := Taken][q] == o0[q];
    }
  }

  /** kalloc, fill, mappages of one page, and kfree when mappages fails: the common step of uvmalloc,
      uvmcopy and vmfault. Failing, it leaves every translation as it was. */
  method MapFresh(ram: Ram, root: nat, va: nat, perm: nat, w: seq<nat>) returns (pa: nat)
    requires ram.Valid() && Pos(root, 2, 0) in ram.tables && va % PGSIZE == 0 && va < TRAPFRAME
    requires Leaf(ram.mem, ram.tables, root, va / PGSIZE) == 0
    requires perm < 1024 && (perm / 2) % 8 != 0 && |w| == 512
    modifies ram
    ensures ram.Valid() && Extends(old(ram.tables), ram.tables) && pa % PGSIZE == 0
    ensures pa != 0 ==> Added(old(ram.mem), old(ram.owner), old(ram.tables), ram.mem, ram.owner, ram.tables,
                              root, va / PGSIZE, pa, perm, w)
    ensures pa == 0 ==> Grew(old(ram.mem), old(ram.owner), old(ram.tables), ram.mem, ram.owner, ram.tables, root)
    ensures Paid(old(ram.tables), ram.tables, root, Only(va / PGSIZE), |old(ram.free)|, |ram.free|, pa != 0)
  {
    hide Shape, Ram.AllocOk, Leaf, SameLeaves, Mapped, Grew, Added, Rooted, Lacking;
    ram.SameKeys();
    OneBetween(va / PGSIZE);
    pa := ram.Kalloc();
    if pa == 0 {
      GrewRefl(ram.mem, ram.owner, ram.tables, root);
      return;
    }
    ghost var v := va / PGSIZE;
    ram.FillPage(pa, w);
    assert ram.mem == old(ram.mem)[pa := w];
    FreshPage(old(ram.mem), old(ram.owner), ram.tables, pa, w, root, v);
    ghost var m1 := ram.mem;
    assert Frame(pa, 0) == pa;
    ram.SameKeys();
    var ok, done := ram.MapPages(root, va, PGSIZE, pa, perm, true);
    if ok {
      AddedFromMapped(old(ram.mem), old(ram.owner), old(ram.tables), m1, ram.mem, ram.owner, ram.tables, root, v, pa,
                      perm, w);
    } else {
      ghost var m2, o2 := ram.mem, ram.owner;
      MappedZero(m1, old(ram.owner)[pa := Taken], old(ram.tables), m2, o2, ram.tables, root, v, pa, perm);
      ram.FreeTaken(pa);
      ram.SameKeys();
      NotMapped(old(ram.mem), old(ram.owner), old(ram.tables), m1, m2, o2, ram.tables, ram.mem, root, v, pa, perm, w);
      pa := 0;
    }
  }

  lemma OneBetween(v: nat)
    ensures Between(v, v + 1) == {v}
  {
  }

  lemma MappedZero(m1: Memory, o1: map<nat, Owner>, t1: map<Pos, nat>, m2: Memory, o2: map<nat, Owner>,
                   t2: map<Pos, nat>,
                   root: nat, v: nat, pa: nat, perm: nat)
    requires perm < 1024 && Mapped(m1, o1, t1, m2, o2, t2, root, v, 0, pa, perm, true) && pa in o1 && o1[pa] == Taken
    ensures pa in o2 && o2[pa] == Taken && m2.Keys == o2.Keys && SameLeaves(m1, t1, m2, t2) && Extends(t1, t2)
  {
    hide Leaf;
  }

  lemma FreshPage(mem: Memory, owner: map<nat, Owner>, tables: map<Pos, nat>, pa: nat, w: seq<nat>, root: nat, v: nat)
    requires Shape(mem, owner, tables) && pa in owner && owner[pa] == Free && |w| == 512
    ensures SameLeaves(mem, tables, mem[pa := w], tables) && pa % PGSIZE == 0
    ensures Leaf(mem[pa := w], tables, root, v) == Leaf(mem, tables, root, v)
  {
    TouchLoosePage(mem, owner, tables, pa, w, Taken);
  }

  // ---------- uvmdealloc and uvmalloc ----------

  /** uvmdealloc: unmaps and frees exactly the pages between the two sizes. */
  method UvmDealloc(ram: Ram, root: nat, oldsz: nat, newsz: nat) returns (r: nat)
    requires ram.Valid() && Pos(root, 2, 0) in ram.tables && PGROUNDUP(oldsz) <= TRAPFRAME
    modifies ram
    ensures ram.Valid() && ram.tables == old(ram.tables) && r == if newsz >= oldsz then oldsz else newsz
    ensures Cleared(old(ram.mem), old(ram.owner), ram.mem, ram.owner, ram.tables, root,
                    Pages(r), if newsz >= oldsz then Pages(r) else Pages(oldsz), true)
  {
    hide Shape, Ram.AllocOk, Cleared, PGROUNDUP, Pages;
    ram.SameKeys();
    RoundUpAligned(newsz);
    RoundUpAligned(oldsz);
    if newsz >= oldsz {
      ClearedNone(ram.mem, ram.owner, ram.tables, root, Pages(oldsz), true);
      return oldsz;
    }
    MorePages(newsz, oldsz);
    if PGROUNDUP(newsz) < PGROUNDUP(oldsz) {
      var npages := (PGROUNDUP(oldsz) - PGROUNDUP(newsz)) / PGSIZE;
      ram.UvmUnmap(root, PGROUNDUP(newsz), npages, true);
    } else {
      ClearedNone(ram.mem, ram.owner, ram.tables, root, Pages(newsz), true);
    }
    r := newsz;
  }

  lemma MorePages(a: nat, b: nat)
    requires a <= b
    ensures Pages(a) <= Pages(b) && PGROUNDUP(a) == Pages(a) * PGSIZE && PGROUNDUP(a) / PGSIZE == Pages(a)
  {
  }

  /** Page v is backed by a zeroed frame with the given permissions. */
  ghost predicate ZeroMapped(mem: Memory, owner: map<nat, Owner>, tables: map<Pos, nat>, root: nat, v: nat, perm: nat)
    requires perm < 1024
  {
    UserFrame(mem, owner, tables, root, v, PTE2PA(Leaf(mem, tables, root, v)), perm) &&
    mem[PTE2PA(Leaf(mem, tables, root, v))] == ZeroPage()
  }

  ghost predicate UserFrame(mem: Memory, owner: map<nat, Owner>, tables: map<Pos, nat>, root: nat, v: nat, pa: nat,
                            perm: nat)
    requires perm < 1024
  {
    pa in owner && owner[pa] == User(root, v) && Leaf(mem, tables, root, v) == MakePte(pa, perm) && pa in mem
  }

  /** Pages lo .. hi of `root` are new zeroed memory; every other translation and all data are unchanged. */
  ghost predicate Grown(m0: Memory, o0: map<nat, Owner>, t0: map<Pos, nat>, m1: Memory, o1: map<nat, Owner>,
                        t1: map<Pos, nat>,
                        root: nat, lo: nat, hi: nat, perm: nat)
    requires perm < 1024
  {
    && (forall r: nat, v: nat :: !(r == root && lo <= v < hi) ==> Leaf(m1, t1, r, v) == Leaf(m0, t0, r, v))
    && (forall v :: lo <= v < hi ==> ZeroMapped(m1, o1, t1, root, v, perm))
    && o1.Keys == o0.Keys
    && (forall q :: q in o0 && o1[q] != o0[q] ==>
          o0[q] == Free && OfSpace(o1[q], root) && (o1[q].User? ==> lo <= o1[q].vpn < hi))
    && Kept(m0, o0, m1, o1, root, 0, 0)
    && Extends(t0, t1)
    && NoUsersFrom(o1, root, hi)
  }

  lemma GrownNone(m: Memory, o: map<nat, Owner>, t: map<Pos, nat>, root: nat, lo: nat, perm: nat)
    requires perm < 1024 && m.Keys == o.Keys && NoUsersFrom(o, root, lo)
    ensures Grown(m, o, t, m, o, t, root, lo, lo, perm)
  {
    hide Leaf;
  }

  /** One more page of user memory, at page number hi. */
  lemma AddedOwners(m0: Memory, o0: map<nat, Owner>, m1: Memory, o1: map<nat, Owner>, t1: map<Pos, nat>,
                    m2: Memory, o2: map<nat, Owner>, t2: map<Pos, nat>, root: nat, lo: nat, hi: nat, pa: nat, perm: nat,
                    w: seq<nat>)
    requires o1.Keys == o0.Keys && lo <= hi && perm < 1024
    requires forall q :: q in o0 && o1[q] != o0[q] ==>
               o0[q] == Free && OfSpace(o1[q], root) && (o1[q].User? ==> lo <= o1[q].vpn < hi)
    requires Kept(m0, o0, m1, o1, root, 0, 0) && NoUsersFrom(o1, root, hi)
    requires Added(m1, o1, t1, m2, o2, t2, root, hi, pa, perm, w)
    ensures o2.Keys == o0.Keys && Kept(m0, o0, m2, o2, root, 0, 0) && NoUsersFrom(o2, root, hi + 1)
    ensures forall q :: q in o0 && o2[q] != o0[q] ==>
              o0[q] == Free && OfSpace(o2[q], root) && (o2[q].User? ==> lo <= o2[q].vpn < hi + 1)
  {
    hide OneLeaf, Extends;
  }

  lemma GrownStep(m0: Memory, o0: map<nat, Owner>, t0: map<Pos, nat>, m1: Memory, o1: map<nat, Owner>,
                  t1: map<Pos, nat>,
                  m2: Memory, o2: map<nat, Owner>, t2: map<Pos, nat>, root: nat, lo: nat, hi: nat, perm: nat, pa: nat)
    requires perm < 1024 && Grown(m0, o0, t0, m1, o1, t1, root, lo, hi, perm) && lo <= hi && pa % PGSIZE == 0
    requires Added(m1, o1, t1, m2, o2, t2, root, hi, pa, perm, ZeroPage())
    ensures Grown(m0, o0, t0, m2, o2, t2, root, lo, hi + 1, perm) && NoUsersFrom(o2, root, hi + 1)
    ensures Dense(o1, root, hi) ==> Dense(o2, root, hi + 1)
  {
    hide Leaf, MakePte, PTE2PA, ZeroMapped, Kept, NoUsersFrom;
    AddedOwners(m0, o0, m1, o1, t1, m2, o2, t2, root, lo, hi, pa, perm, ZeroPage());
    if Dense(o1, root, hi) { DenseStep(o1, o2, root, hi, pa); }
    forall v | lo <= v < hi + 1 ensures ZeroMapped(m2, o2, t2, root, v, perm) {
      if v == hi {
        NewlyMapped(m1, o1, t1, m2, o2, t2, root, hi, perm, pa);
      } else {
        StillMapped(m1, o1, t1, m2, o2, t2, root, hi, perm, pa, v);
      }
    }
  }

  lemma NewlyMapped(m1: Memory, o1: map<nat, Owner>, t1: map<Pos, nat>, m2: Memory, o2: map<nat, Owner>,
                    t2: map<Pos, nat>,
                    root: nat, v: nat, perm: nat, pa: nat)
    requires perm < 1024 && pa % PGSIZE == 0 && Added(m1, o1, t1, m2, o2, t2, root, v, pa, perm, ZeroPage())
    ensures ZeroMapped(m2, o2, t2, root, v, perm)
  {
    hide Leaf, MakePte, PTE2PA;
    assert Leaf(m2, t2, root, v) == MakePte(pa, perm);
    FrameOf(pa, perm);
  }

  lemma StillMapped(m1: Memory, o1: map<nat, Owner>, t1: map<Pos, nat>, m2: Memory, o2: map<nat, Owner>,
                    t2: map<Pos, nat>,
                    root: nat, hi: nat, perm: nat, pa: nat, v: nat)
    requires perm < 1024 && Added(m1, o1, t1, m2, o2, t2, root, hi, pa, perm, ZeroPage()) && v != hi
    requires ZeroMapped(m1, o1, t1, root, v, perm)
    ensures ZeroMapped(m2, o2, t2, root, v, perm)
  {
    hide Leaf, MakePte, PTE2PA;
    assert Leaf(m2, t2, root, v) == Leaf(m1, t1, root, v);
  }

  lemma FrameOf(pa: nat, perm: nat)
    requires pa % PGSIZE == 0 && perm < 1024
    ensures PTE2PA(MakePte(pa, perm)) == pa
  {
    PteRoundTrip(pa, perm);
  }

  /** A failed growth: the translations are the old ones; only page-table pages may have been added. */
  ghost predicate RolledBack(m0: Memory, o0: map<nat, Owner>, t0: map<Pos, nat>, m1: Memory, o1: map<nat, Owner>,
                             t1: map<Pos, nat>,
                             root: nat) {
    && SameLeaves(m0, t0, m1, t1)
    && OnlyTablesAdded(o0, o1, root)
    && Kept(m0, o0, m1, o1, root, 0, 0)
    && Extends(t0, t1)
  }

  lemma RollBack(m0: Memory, o0: map<nat, Owner>, t0: map<Pos, nat>, m1: Memory, o1: map<nat, Owner>, t1: map<Pos, nat>,
                 m2: Memory, o2: map<nat, Owner>, root: nat, lo: nat, hi: nat, perm: nat)
    requires perm < 1024 && Grown(m0, o0, t0, m1, o1, t1, root, lo, hi, perm) && lo <= hi
    requires NoUsersFrom(o0, root, lo) && forall v :: lo <= v < hi ==> Leaf(m0, t0, root, v) == 0
    requires Cleared(m1, o1, m2, o2, t1, root, lo, hi, true)
    ensures RolledBack(m0, o0, t0, m2, o2, t1, root)
  {
    hide Leaf, MakePte, ZeroMapped;
  }

  lemma GrownGrew(m0: Memory, o0: map<nat, Owner>, t0: map<Pos, nat>, m1: Memory, o1: map<nat, Owner>,
                  t1: map<Pos, nat>,
                  m2: Memory, o2: map<nat, Owner>, t2: map<Pos, nat>, root: nat, lo: nat, hi: nat, perm: nat)
    requires perm < 1024 && Grown(m0, o0, t0, m1, o1, t1, root, lo, hi, perm) && Grew(m1, o1, t1, m2, o2, t2, root)
    ensures Grown(m0, o0, t0, m2, o2, t2, root, lo, hi, perm)
  {
    hide Leaf, MakePte, PTE2PA;
    forall v | lo <= v < hi ensures ZeroMapped(m2, o2, t2, root, v, perm) {
      assert ZeroMapped(m1, o1, t1, root, v, perm);
      assert Leaf(m2, t2, root, v) == Leaf(m1, t1, root, v);
    }
  }

  /** Every page below n is backed by a frame. */
  ghost predicate Dense(owner: map<nat, Owner>, root: nat, n: nat) {
    forall v :: 0 <= v < n ==> Backed(owner, root, v)
  }

  ghost predicate Backed(owner: map<nat, Owner>, root: nat, v: nat) {
    exists q :: q in owner && owner[q] == User(root, v)
  }

  ghost function FramesBelow(owner: map<nat, Owner>, root: nat, n: nat): set<nat> {
    set q | q in owner && owner[q].User? && owner[q].root == root && owner[q].vpn < n
  }

  lemma {:induction false} DenseBound(owner: map<nat, Owner>, root: nat, n: nat)
    requires Dense(owner, root, n)
    ensures n <= |FramesBelow(owner, root, n)| <= |owner.Keys|
  {
    hide FramesBelow;
    if n > 0 {
      DenseBound(owner, root, n - 1);
      assert Backed(owner, root, n - 1);
      var q :| q in owner && owner[q] == User(root, n - 1);
      FramesStep(owner, root, n, q);
    }
    FramesOwned(owner, root, n);
  }

  lemma FramesStep(owner: map<nat, Owner>, root: nat, n: nat, q: nat)
    requires n > 0 && q in owner && owner[q] == User(root, n - 1)
    ensures |FramesBelow(owner, root, n - 1)| < |FramesBelow(owner, root, n)|
  {
    assert q !in FramesBelow(owner, root, n - 1);
    SubsetSize(FramesBelow(owner, root, n - 1) + {q}, FramesBelow(owner, root, n));
  }

  lemma FramesOwned(owner: map<nat, Owner>, root: nat, n: nat)
    ensures |FramesBelow(owner, root, n)| <= |owner.Keys|
  {
    SubsetSize(FramesBelow(owner, root, n), owner.Keys);
  }

  lemma DenseStep(o0: map<nat, Owner>, o1: map<nat, Owner>, root: nat, n: nat, pa: nat)
    requires Dense(o0, root, n) && pa in o1 && o1[pa] == User(root, n)
    requires forall q :: q in o0 && o0[q].User? ==> q in o1 && o1[q] == o0[q]
    ensures Dense(o1, root, n + 1)
  {
    forall v | 0 <= v < n + 1 ensures Backed(o1, root, v) {
      if v < n {
        assert Backed(o0, root, v);
        var q :| q in o0 && o0[q] == User(root, v);
        assert o1[q] == User(root, v);
      }
    }
  }

  lemma DenseLimit(ram: Ram, root: nat, n: nat)
    requires ram.Valid() && Dense(ram.owner, root, n)
    ensures n <= RAMPAGES
  {
    DenseBound(ram.owner, root, n);
  }

  lemma WholePages(n: nat)
    ensures Pages(n * PGSIZE) == n && PGROUNDUP(n * PGSIZE) == n * PGSIZE
  {
  }

  lemma LastPage(sz: nat, n: nat)
    requires sz <= n * PGSIZE < sz + PGSIZE
    ensures Pages(sz) == n && PGROUNDUP(sz) == n * PGSIZE
  {
  }

  predicate UserPerm(xperm: nat) { xperm == 0 || xperm == PTE_W || xperm == PTE_X || xperm == PTE_W + PTE_X }

  lemma UserPermOk(xperm: nat)
    requires UserPerm(xperm)
    ensures var perm := PTE_R + PTE_U + xperm; perm < 1024 && (perm / 2) % 8 != 0 && perm % 2 == 0
  {
    assert (2 + 16 + 0) / 2 == 9 && (2 + 16 + 4) / 2 == 11 && (2 + 16 + 8) / 2 == 13 && (2 + 16 + 12) / 2 == 15;
  }

  /** The loop of uvmalloc at page hi, having started at page lo with free0 free pages. */
  ghost predicate Growing(ram: Ram, m0: Memory, o0: map<nat, Owner>, t0: map<Pos, nat>, free0: nat, root: nat, lo: nat,
                          hi: nat, perm: nat)
    reads ram
    requires perm < 1024
  {
    && ram.Valid() && Pos(root, 2, 0) in ram.tables && lo <= hi && hi * PGSIZE <= TRAPFRAME
    && Grown(m0, o0, t0, ram.mem, ram.owner, ram.tables, root, lo, hi, perm) && NoUsersFrom(ram.owner, root, hi)
    && (Dense(o0, root, lo) ==> Dense(ram.owner, root, hi))
    && Rooted(t0, ram.tables, root, Between(lo, hi)) && |ram.free| + Cost(t0, root, Between(lo, hi)) == free0
  }

  /** One round: page hi, or no memory for it. */
  method GrowOne(ram: Ram, root: nat, ghost lo: nat, hi: nat, perm: nat, ghost m0: Memory, ghost o0: map<nat, Owner>,
                 ghost t0: map<Pos, nat>, ghost free0: nat) returns (ok: bool)
    requires perm < 1024 && (perm / 2) % 8 != 0 && Growing(ram, m0, o0, t0, free0, root, lo, hi, perm)
    requires (hi + 1) * PGSIZE <= TRAPFRAME
    modifies ram
    ensures ok ==> Growing(ram, m0, o0, t0, free0, root, lo, hi + 1, perm)
    ensures !ok ==>
              && ram.Valid() && Pos(root, 2, 0) in ram.tables && free0 < Cost(t0, root, Between(lo, hi + 1))
              && Grown(m0, o0, t0, ram.mem, ram.owner, ram.tables, root, lo, hi, perm)
  {
    hide Shape, Ram.Valid, Grown, Grew, Added, Dense, NoUsersFrom, Leaf, Rooted, Cost, Between;
    ghost var m1, o1, t1 := ram.mem, ram.owner, ram.tables;
    Unmapped(ram, root, hi);
    SpendOne(t0, t1, root, lo, hi);
    var pa := MapFresh(ram, root, hi * PGSIZE, perm, ZeroPage());
    ok := pa != 0;
    if pa == 0 {
      GrownGrew(m0, o0, t0, m1, o1, t1, ram.mem, ram.owner, ram.tables, root, lo, hi, perm);
    } else {
      GrownStep(m0, o0, t0, m1, o1, t1, ram.mem, ram.owner, ram.tables, root, lo, hi, perm, pa);
      RootedMore(t0, t1, ram.tables, root, Between(lo, hi), {hi});
    }
  }

  /** The loop of uvmalloc: map fresh pages from page lo up to newsz, or until memory runs out. */
  method GrowLoop(ram: Ram, root: nat, lo: nat, newsz: nat, perm: nat) returns (hi: nat, full: bool)
    requires ram.Valid() && Pos(root, 2, 0) in ram.tables && perm < 1024 && (perm / 2) % 8 != 0
    requires lo * PGSIZE <= TRAPFRAME && lo * PGSIZE < newsz + PGSIZE && NoUsersFrom(ram.owner, root, lo)
    requires newsz <= TRAPFRAME || Dense(ram.owner, root, lo)
    modifies ram
    ensures ram.Valid() && Pos(root, 2, 0) in ram.tables && lo <= hi && hi * PGSIZE <= TRAPFRAME
    ensures Grown(old(ram.mem), old(ram.owner), old(ram.tables), ram.mem, ram.owner, ram.tables, root, lo, hi, perm)
    ensures full ==> newsz <= hi * PGSIZE < newsz + PGSIZE
    ensures full && Dense(old(ram.owner), root, lo) ==> Dense(ram.owner, root, hi)
    ensures full ==>
              && Rooted(old(ram.tables), ram.tables, root, Between(lo, hi))
              && |ram.free| + Cost(old(ram.tables), root, Between(lo, hi)) == |old(ram.free)|
    ensures !full ==> hi * PGSIZE < newsz && |old(ram.free)| < Cost(old(ram.tables), root, Between(lo, hi + 1))
  {
    hide Shape, Ram.Valid, Grown, Dense, NoUsersFrom, Rooted, Cost, Between;
    ram.SameKeys();
    GrownNone(ram.mem, ram.owner, ram.tables, root, lo, perm);
    NothingSpent(ram.tables, root, lo);
    hi := lo;
    while hi * PGSIZE < newsz
      invariant lo <= hi && hi * PGSIZE < newsz + PGSIZE
      invariant Growing(ram, old(ram.mem), old(ram.owner), old(ram.tables), |old(ram.free)|, root, lo, hi, perm)
      decreases newsz - hi * PGSIZE
    {
      if newsz > TRAPFRAME { DenseLimit(ram, root, hi); }
      full := GrowOne(ram, root, lo, hi, perm, old(ram.mem), old(ram.owner), old(ram.tables), |old(ram.free)|);
      if !full {
        return;
      }
      hi := hi + 1;
    }
    full := true;
  }

  lemma NothingSpent(t: map<Pos, nat>, root: nat, lo: nat)
    ensures Rooted(t, t, root, Between(lo, lo)) && Cost(t, root, Between(lo, lo)) == 0
  {
    assert Between(lo, lo) == {};
    RootedNone(t, root);
  }

  lemma SpendOne(t0: map<Pos, nat>, t1: map<Pos, nat>, root: nat, lo: nat, hi: nat)
    requires Rooted(t0, t1, root, Between(lo, hi)) && lo <= hi
    ensures Between(lo, hi + 1) == Between(lo, hi) + {hi}
    ensures Cost(t0, root, Between(lo, hi + 1)) == Cost(t0, root, Between(lo, hi)) + Cost(t1, root, {hi})
  {
    hide Cost, Rooted;
    CostMore(t0, t1, root, Between(lo, hi), {hi});
  }

  /** uvmalloc. The new size need not be below TRAPFRAME when all memory below oldsz is backed by frames:
      then physical memory runs out first. */
  method UvmAlloc(ram: Ram, root: nat, oldsz: nat, newsz: nat, xperm: nat) returns (r: nat, ghost ok: bool)
    requires ram.Valid() && Pos(root, 2, 0) in ram.tables && UserPerm(xperm)
    requires PGROUNDUP(oldsz) <= TRAPFRAME && NoUsersFrom(ram.owner, root, Pages(oldsz))
    requires newsz <= TRAPFRAME || Dense(ram.owner, root, Pages(oldsz))
    modifies ram
    ensures ram.Valid() && r == if newsz < oldsz then oldsz else if ok then newsz else 0
    ensures newsz < oldsz ==> ok && ram.Unchanged(old(ram.mem), old(ram.free), old(ram.owner), old(ram.tables))
    ensures newsz >= oldsz && ok ==>
              Grown(old(ram.mem), old(ram.owner), old(ram.tables), ram.mem, ram.owner, ram.tables,
                    root, Pages(oldsz), Pages(newsz), PTE_R + PTE_U + xperm)
    ensures !ok ==> RolledBack(old(ram.mem), old(ram.owner), old(ram.tables), ram.mem, ram.owner, ram.tables, root)
    ensures Dense(old(ram.owner), root, Pages(oldsz)) && newsz >= oldsz && ok ==> Dense(ram.owner, root, Pages(newsz))
    ensures ok && newsz >= oldsz ==> PGROUNDUP(newsz) <= TRAPFRAME
    ensures newsz >= oldsz ==>
              Paid(old(ram.tables), ram.tables, root, Between(Pages(oldsz), Pages(newsz)), |old(ram.free)|, |ram.free|,
                   ok)
  {
    hide Shape, Ram.Valid, Grown, Cleared, RolledBack, Dense, NoUsersFrom, PGROUNDUP, Pages, Leaf, UserPerm, Rooted,
        Cost,
         Between;
    if newsz < oldsz { return oldsz, true; }
    UserPermOk(xperm);
    RoundUpAligned(oldsz);
    ghost var lo := Pages(oldsz);
    Unmapped(ram, root, lo);
    WholePages(lo);
    var hi, full := GrowLoop(ram, root, PGROUNDUP(oldsz) / PGSIZE, newsz, PTE_R + PTE_U + xperm);
    WholePages(hi);
    if full {
      LastPage(newsz, hi);
      return newsz, true;
    }
    TooDear(old(ram.tables), root, lo, hi, newsz);
    ghost var m1, o1, t1 := ram.mem, ram.owner, ram.tables;
    r := UvmDealloc(ram, root, hi * PGSIZE, PGROUNDUP(oldsz));
    RollBack(old(ram.mem), old(ram.owner), old(ram.tables), m1, o1, t1, ram.mem, ram.owner, root, lo, hi,
             PTE_R + PTE_U + xperm);
    return 0, false;
  }

  lemma TooDear(t: map<Pos, nat>, root: nat, lo: nat, hi: nat, newsz: nat)
    requires hi * PGSIZE < newsz
    ensures Cost(t, root, Between(lo, hi + 1)) <= Cost(t, root, Between(lo, Pages(newsz)))
  {
    hide Cost;
    assert hi + 1 <= Pages(newsz);
    CostMono(t, root, Between(lo, hi + 1), Between(lo, Pages(newsz)));
  }

  // ---------- vmfault ----------

  /** vmfault on the current process: maps a zeroed page at a lazily allocated address, or returns 0 with
      every translation unchanged: exactly for an address beyond the size, a mapped page, or too little memory. */
  method VmFault(ram: Ram, root: nat, va: nat, sz: nat) returns (pa: nat)
    requires ram.Valid() && Pos(root, 2, 0) in ram.tables && sz <= TRAPFRAME
    modifies ram
    ensures ram.Valid() && Extends(old(ram.tables), ram.tables) && pa % PGSIZE == 0
    ensures pa != 0 ==> va < sz && old(Leaf(ram.mem, ram.tables, root, va / PGSIZE)) == 0
    ensures pa != 0 ==> Added(old(ram.mem), old(ram.owner), old(ram.tables), ram.mem, ram.owner, ram.tables,
                              root, va / PGSIZE, pa, PTE_W + PTE_U + PTE_R, ZeroPage())
    ensures pa == 0 ==> Grew(old(ram.mem), old(ram.owner), old(ram.tables), ram.mem, ram.owner, ram.tables, root)
    ensures pa == 0 <==> va >= sz || old(Leaf(ram.mem, ram.tables, root, va / PGSIZE)) != 0 ||
                         |old(ram.free)| < Cost(old(ram.tables), root, Only(va / PGSIZE))
  {
    hide Shape, Ram.AllocOk, Grew, Added, Leaf, On, Cost, Rooted;
    ram.SameKeys();
    GrewRefl(ram.mem, ram.owner, ram.tables, root);
    if va >= sz { return 0; }
    var va0 := PGROUNDDOWN(va);
    assert va0 / PGSIZE == va / PGSIZE && va0 % PGSIZE == 0;
    LeafAt(ram.mem, ram.owner, ram.tables, root, va / PGSIZE);
    var found, t, i := ram.Walk(root, va0, false);
    if found && PteV(ram.mem[t][i]) { return 0; }
    pa := MapFresh(ram, root, va0, PTE_W + PTE_U + PTE_R, ZeroPage());
  }

  // ---------- uvmcopy ----------

  /** Page v of `child` is a private copy of page v of `parent`: same flags, same contents, its own frame. */
  ghost predicate CopiedPage(m0: Memory, t0: map<Pos, nat>, m1: Memory, o1: map<nat, Owner>, t1: map<Pos, nat>,
                             parent: nat, child: nat, v: nat)
  {
    if Leaf(m0, t0, parent, v) == 0 then Leaf(m1, t1, child, v) == 0
    else
      && PTE2PA(Leaf(m0, t0, parent, v)) in m0
      && PTE2PA(Leaf(m1, t1, child, v)) in o1 && PTE2PA(Leaf(m1, t1, child, v)) in m1
      && o1[PTE2PA(Leaf(m1, t1, child, v))] == User(child, v)
      && PteFlags(Leaf(m1, t1, child, v)) == PteFlags(Leaf(m0, t0, parent, v))
      && m1[PTE2PA(Leaf(m1, t1, child, v))] == m0[PTE2PA(Leaf(m0, t0, parent, v))]
  }

  ghost predicate Copied(m0: Memory, o0: map<nat, Owner>, t0: map<Pos, nat>, m1: Memory, o1: map<nat, Owner>,
                         t1: map<Pos, nat>,
                         parent: nat, child: nat, n: nat) {
    && (forall r: nat, v: nat :: !(r == child && v < n) ==> Leaf(m1, t1, r, v) == Leaf(m0, t0, r, v))
    && (forall v: nat :: v < n ==> CopiedPage(m0, t0, m1, o1, t1, parent, child, v))
    && o1.Keys == o0.Keys
    && (forall q :: q in o0 && o1[q] != o0[q] ==>
          o0[q] == Free && OfSpace(o1[q], child) && (o1[q].User? ==> o1[q].vpn < n))
    && Kept(m0, o0, m1, o1, child, 0, 0)
    && Extends(t0, t1)
    && NoUsersFrom(o1, child, n)
  }

  lemma CopiedNone(m: Memory, o: map<nat, Owner>, t: map<Pos, nat>, parent: nat, child: nat)
    requires m.Keys == o.Keys && NoUsersFrom(o, child, 0)
    ensures Copied(m, o, t, m, o, t, parent, child, 0)
  {
    hide Leaf;
  }

  lemma CopiedSkip(m0: Memory, o0: map<nat, Owner>, t0: map<Pos, nat>, m1: Memory, o1: map<nat, Owner>,
                   t1: map<Pos, nat>,
                   parent: nat, child: nat, n: nat)
    requires Copied(m0, o0, t0, m1, o1, t1, parent, child, n)
    requires Leaf(m0, t0, parent, n) == 0 && Leaf(m0, t0, child, n) == 0
    ensures Copied(m0, o0, t0, m1, o1, t1, parent, child, n + 1)
  {
    hide Leaf, PTE2PA, PteFlags;
  }

  lemma CopiedGrew(m0: Memory, o0: map<nat, Owner>, t0: map<Pos, nat>, m1: Memory, o1: map<nat, Owner>,
                   t1: map<Pos, nat>,
                   m2: Memory, o2: map<nat, Owner>, t2: map<Pos, nat>, parent: nat, child: nat, n: nat)
    requires Copied(m0, o0, t0, m1, o1, t1, parent, child, n) && Grew(m1, o1, t1, m2, o2, t2, child)
    ensures Copied(m0, o0, t0, m2, o2, t2, parent, child, n)
  {
    hide Leaf, PTE2PA, PteFlags;
    forall v: nat | v < n ensures CopiedPage(m0, t0, m2, o2, t2, parent, child, v) {
      assert CopiedPage(m0, t0, m1, o1, t1, parent, child, v) && Leaf(m2, t2, child, v) == Leaf(m1, t1, child, v);
    }
  }

  lemma CopiedStep(m0: Memory, o0: map<nat, Owner>, t0: map<Pos, nat>, m1: Memory, o1: map<nat, Owner>,
                   t1: map<Pos, nat>,
                   m2: Memory, o2: map<nat, Owner>, t2: map<Pos, nat>, parent: nat, child: nat, n: nat, pa: nat, e: nat)
    requires Copied(m0, o0, t0, m1, o1, t1, parent, child, n) && pa % PGSIZE == 0
    requires e == Leaf(m0, t0, parent, n) && e != 0 && PteV(e) && PTE2PA(e) in m0
    requires Added(m1, o1, t1, m2, o2, t2, child, n, pa, PteFlags(e), m0[PTE2PA(e)])
    ensures Copied(m0, o0, t0, m2, o2, t2, parent, child, n + 1)
  {
    assert PteFlags(e) < 1024;
    hide Leaf, PTE2PA, PteFlags, MakePte, CopiedPage, Kept, NoUsersFrom;
    AddedOwners(m0, o0, m1, o1, t1, m2, o2, t2, child, 0, n, pa, PteFlags(e), m0[PTE2PA(e)]);
    forall v: nat | v < n + 1 ensures CopiedPage(m0, t0, m2, o2, t2, parent, child, v) {
      if v == n {
        JustCopied(m0, t0, m1, o1, t1, m2, o2, t2, parent, child, n, pa, e);
      } else {
        StillCopied(m0, t0, m1, o1, t1, m2, o2, t2, parent, child, n, pa, e, v);
      }
    }
  }

  lemma JustCopied(m0: Memory, t0: map<Pos, nat>, m1: Memory, o1: map<nat, Owner>, t1: map<Pos, nat>,
                   m2: Memory, o2: map<nat, Owner>, t2: map<Pos, nat>, parent: nat, child: nat, n: nat, pa: nat, e: nat)
    requires pa % PGSIZE == 0 && e == Leaf(m0, t0, parent, n) && e != 0 && PteV(e) && PTE2PA(e) in m0
    requires Added(m1, o1, t1, m2, o2, t2, child, n, pa, PteFlags(e), m0[PTE2PA(e)])
    ensures CopiedPage(m0, t0, m2, o2, t2, parent, child, n)
  {
    hide Leaf, PTE2PA, PteFlags, MakePte;
    CopyFlags(e, pa);
  }

  lemma StillCopied(m0: Memory, t0: map<Pos, nat>, m1: Memory, o1: map<nat, Owner>, t1: map<Pos, nat>,
                    m2: Memory, o2: map<nat, Owner>, t2: map<Pos, nat>, parent: nat, child: nat, n: nat, pa: nat,
                        e: nat,
                    v: nat)
    requires v < n && CopiedPage(m0, t0, m1, o1, t1, parent, child, v) && PTE2PA(e) in m0
    requires Added(m1, o1, t1, m2, o2, t2, child, n, pa, PteFlags(e), m0[PTE2PA(e)])
    ensures CopiedPage(m0, t0, m2, o2, t2, parent, child, v)
  {
    hide Leaf, PTE2PA, PteFlags, MakePte;
    assert Leaf(m2, t2, child, v) == Leaf(m1, t1, child, v);
  }

  lemma CopyFlags(e: nat, pa: nat)
    requires PteV(e) && pa % PGSIZE == 0
    ensures PteFlags(e) < 1024 && PteFlags(MakePte(pa, PteFlags(e))) == PteFlags(e)
    ensures PTE2PA(MakePte(pa, PteFlags(e))) == pa
    ensures (PteFlags(e) / 2) % 8 != 0 <==> PteRWX(e)
  {
    SplitWord(e / 1024, e % 1024);
    PteRoundTrip(pa, PteFlags(e));
  }

  lemma CopyRollBack(m0: Memory, o0: map<nat, Owner>, t0: map<Pos, nat>, m1: Memory, o1: map<nat, Owner>,
                     t1: map<Pos, nat>,
                     m2: Memory, o2: map<nat, Owner>, parent: nat, child: nat, n: nat)
    requires Copied(m0, o0, t0, m1, o1, t1, parent, child, n)
    requires NoUsersFrom(o0, child, 0) && forall v: nat :: v < n ==> Leaf(m0, t0, child, v) == 0
    requires Cleared(m1, o1, m2, o2, t1, child, 0, n, true)
    ensures RolledBack(m0, o0, t0, m2, o2, t1, child)
  {
    hide Leaf, PTE2PA, PteFlags, CopiedPage;
  }

  /** uvmcopy: the child gets private copies of exactly the parent's mapped pages, or, when memory runs
      out, no page at all. The parent is untouched either way. */
  method UvmCopy(ram: Ram, parent: nat, child: nat, sz: nat) returns (ok: bool)
    requires ram.Valid() && Pos(parent, 2, 0) in ram.tables && Pos(child, 2, 0) in ram.tables && parent != child
    requires sz <= TRAPFRAME && NoUsersFrom(ram.owner, child, 0)
    modifies ram
    ensures ram.Valid()
    ensures ok ==>
              Copied(old(ram.mem), old(ram.owner), old(ram.tables), ram.mem, ram.owner, ram.tables, parent, child,
                     Pages(sz))
    ensures !ok ==> RolledBack(old(ram.mem), old(ram.owner), old(ram.tables), ram.mem, ram.owner, ram.tables, child)
    ensures Paid(old(ram.tables), ram.tables, child, MappedBelow(old(ram.mem), old(ram.tables), parent, Pages(sz)),
                 |old(ram.free)|, |ram.free|, ok)
  {
    hide Shape, Ram.Valid, Copied, Cleared, RolledBack, NoUsersFrom, Leaf, Pages, Rooted, Cost, MappedBelow;
    Unmapped(ram, child, 0);
    var n, done := CopyLoop(ram, parent, child, sz);
    if done {
      if n > 0 { LastPage(sz, n); } else { WholePages(0); }
      return true;
    }
    CopyTooDear(old(ram.mem), old(ram.tables), parent, child, n, sz);
    ghost var m1, o1, t1 := ram.mem, ram.owner, ram.tables;
    ram.UvmUnmap(child, 0, n, true);
    CopyRollBack(old(ram.mem), old(ram.owner), old(ram.tables), m1, o1, t1, ram.mem, ram.owner, parent, child, n);
    ok := false;
  }

  method CopyLoop(ram: Ram, parent: nat, child: nat, sz: nat) returns (n: nat, done: bool)
    requires ram.Valid() && Pos(parent, 2, 0) in ram.tables && Pos(child, 2, 0) in ram.tables && parent != child
    requires sz <= TRAPFRAME && NoUsersFrom(ram.owner, child, 0)
    modifies ram
    ensures ram.Valid() && Pos(child, 2, 0) in ram.tables && n * PGSIZE < sz + PGSIZE
    ensures Copied(old(ram.mem), old(ram.owner), old(ram.tables), ram.mem, ram.owner, ram.tables, parent, child, n)
    ensures done ==> sz <= n * PGSIZE
    ensures done ==>
              var vs := MappedBelow(old(ram.mem), old(ram.tables), parent, n);
              |ram.free| + Cost(old(ram.tables), child, vs) == |old(ram.free)| &&
                  Rooted(old(ram.tables), ram.tables, child, vs)
    ensures !done ==>
              && n * PGSIZE < sz
              && |old(ram.free)| < Cost(old(ram.tables), child,
                                        MappedBelow(old(ram.mem), old(ram.tables), parent, n + 1))
  {
    hide Shape, Ram.Valid, Copied, NoUsersFrom, Leaf, Rooted, Cost, MappedBelow;
    ValidShape(ram);
    ram.SameKeys();
    Unmapped(ram, child, 0);
    CopiedNone(ram.mem, ram.owner, ram.tables, parent, child);
    NothingCopied(ram.mem, ram.tables, parent, child);
    n := 0;
    while n * PGSIZE < sz
      invariant ram.Valid() && Pos(parent, 2, 0) in ram.tables && Pos(child, 2, 0) in ram.tables
      invariant n * PGSIZE < sz + PGSIZE
      invariant Copied(old(ram.mem), old(ram.owner), old(ram.tables), ram.mem, ram.owner, ram.tables, parent, child, n)
      invariant Rooted(old(ram.tables), ram.tables, child, MappedBelow(old(ram.mem), old(ram.tables), parent, n))
      invariant |ram.free| + Cost(old(ram.tables), child, MappedBelow(old(ram.mem), old(ram.tables), parent, n)) ==
                |old(ram.free)|
      decreases sz - n * PGSIZE
    {
      done := CopyOne(ram, parent, child, n, old(ram.mem), old(ram.owner), old(ram.tables));
      if !done { return; }
      n := n + 1;
    }
    done := true;
  }

  /** One round of uvmcopy. */
  method CopyOne(ram: Ram, parent: nat, child: nat, n: nat, ghost m0: Memory, ghost o0: map<nat, Owner>,
                 ghost t0: map<Pos, nat>)
    returns (ok: bool)
    requires ram.Valid() && Pos(parent, 2, 0) in ram.tables && Pos(child, 2, 0) in ram.tables && parent != child
    requires Shape(m0, o0, t0) && n < USERTOP && Leaf(m0, t0, child, n) == 0
    requires Copied(m0, o0, t0, ram.mem, ram.owner, ram.tables, parent, child, n)
    modifies ram
    ensures ram.Valid() && Pos(parent, 2, 0) in ram.tables && Pos(child, 2, 0) in ram.tables
    ensures Copied(m0, o0, t0, ram.mem, ram.owner, ram.tables, parent, child, if ok then n + 1 else n)
    ensures var vs, ws := MappedBelow(m0, t0, parent, n), MappedBelow(m0, t0, parent, n + 1);
            Rooted(t0, old(ram.tables), child, vs) ==>
              && (ok ==> Rooted(t0, ram.tables, child, ws) &&
                         |ram.free| + Cost(t0, child, ws) == |old(ram.free)| + Cost(t0, child, vs))
              && (!ok ==> |old(ram.free)| + Cost(t0, child, vs) < Cost(t0, child, ws))
  {
    hide Shape, Ram.Valid, Copied, Grew, Added, Leaf, On, PteFlags, PTE2PA, Rooted, Cost, MappedBelow;
    var found, t, i := ram.Walk(parent, n * PGSIZE, false);
    assert n * PGSIZE / PGSIZE == n;
    ghost var m1, o1, t1 := ram.mem, ram.owner, ram.tables;
    ParentPage(ram, m0, o0, t0, parent, child, n);
    MappedNext(m0, t0, parent, n);
    if !found || !PteV(ram.mem[t][i]) {
      CopiedSkip(m0, o0, t0, m1, o1, t1, parent, child, n);
      return true;
    }
    var pte := ram.mem[t][i];
    CopyFlags(pte, 0);
    if Rooted(t0, t1, child, MappedBelow(m0, t0, parent, n)) {
      CostMore(t0, t1, child, MappedBelow(m0, t0, parent, n), {n});
    }
    var pa := MapFresh(ram, child, n * PGSIZE, PteFlags(pte), ram.mem[PTE2PA(pte)]);
    if pa == 0 {
      CopiedGrew(m0, o0, t0, m1, o1, t1, ram.mem, ram.owner, ram.tables, parent, child, n);
      return false;
    }
    CopiedStep(m0, o0, t0, m1, o1, t1, ram.mem, ram.owner, ram.tables, parent, child, n, pa, pte);
    if Rooted(t0, t1, child, MappedBelow(m0, t0, parent, n)) {
      RootedMore(t0, t1, ram.tables, child, MappedBelow(m0, t0, parent, n), {n});
    }
    return true;
  }

  /** The pages below n that a space has mapped. */
  ghost function MappedBelow(mem: Memory, tables: map<Pos, nat>, root: nat, n: nat): set<nat> {
    set v | v in Between(0, n) && Leaf(mem, tables, root, v) != 0
  }

  lemma MappedNext(mem: Memory, tables: map<Pos, nat>, root: nat, n: nat)
    ensures n !in MappedBelow(mem, tables, root, n)
    ensures MappedBelow(mem, tables, root, n + 1) ==
            if Leaf(mem, tables, root, n) != 0
                then MappedBelow(mem, tables, root, n) + {n} else MappedBelow(mem, tables, root, n)
  {
    hide Leaf;
  }

  lemma NothingCopied(mem: Memory, t: map<Pos, nat>, parent: nat, child: nat)
    ensures Rooted(t, t, child, MappedBelow(mem, t, parent, 0)) && Cost(t, child, MappedBelow(mem, t, parent, 0)) == 0
  {
    assert MappedBelow(mem, t, parent, 0) == {};
    RootedNone(t, child);
  }

  lemma CopyTooDear(mem: Memory, t: map<Pos, nat>, parent: nat, child: nat, n: nat, sz: nat)
    requires n * PGSIZE < sz
    ensures Cost(t, child, MappedBelow(mem, t, parent, n + 1)) <= Cost(t, child, MappedBelow(mem, t, parent, Pages(sz)))
  {
    hide Cost, Leaf;
    assert n + 1 <= Pages(sz);
    CostMono(t, child, MappedBelow(mem, t, parent, n + 1), MappedBelow(mem, t, parent, Pages(sz)));
  }

  /** What the loop of uvmcopy finds at page n of the parent, in terms of the memory it started from. */
  lemma ParentPage(ram: Ram, m0: Memory, o0: map<nat, Owner>, t0: map<Pos, nat>, parent: nat, child: nat, n: nat)
    requires ram.Valid() && Shape(m0, o0, t0) && parent != child && n < USERTOP
    requires Copied(m0, o0, t0, ram.mem, ram.owner, ram.tables, parent, child, n)
    ensures Leaf(ram.mem, ram.tables, parent, n) == Leaf(m0, t0, parent, n)
    ensures Leaf(ram.mem, ram.tables, child, n) == Leaf(m0, t0, child, n)
    ensures On(parent, 0, n) in ram.tables ==>
              && ram.tables[On(parent, 0, n)] in ram.mem && |ram.mem[ram.tables[On(parent, 0, n)]]| == 512
              && ram.mem[ram.tables[On(parent, 0, n)]][n % 512] == Leaf(m0, t0, parent, n)
    ensures On(parent, 0, n) !in ram.tables ==> Leaf(m0, t0, parent, n) == 0
    ensures PteV(Leaf(m0, t0, parent, n)) <==> Leaf(m0, t0, parent, n) != 0
    ensures var e := Leaf(m0, t0, parent, n);
            e != 0 ==> PteRWX(e) && PTE2PA(e) in m0 && PTE2PA(e) in ram.mem && ram.mem[PTE2PA(e)] == m0[PTE2PA(e)] &&
                       |m0[PTE2PA(e)]| == 512
  {
    hide CopiedPage, EntriesOk, TablesOk, UsersOk, FreeListOk, Leaf, On, PTE2PA;
    LeafAt(ram.mem, ram.owner, ram.tables, parent, n);
    if Leaf(m0, t0, parent, n) != 0 { UserLeafOwner(m0, o0, t0, parent, n); }
  }
}
