/** The memory side of kexec (kernel/exec.c): building the new image, rolling it back on any failure, and
    committing to it. */
module Exec {
  import opened Division
  import opened PhysicalMemory
  import opened SetSize
  import opened VirtualMemory
  import opened AddressSpace
  import opened ProcessMemory

  /** walkaddr: the frame of a mapped user page, 0 otherwise. */
  method WalkAddr(ram: Ram, root: nat, va: nat) returns (pa: nat)
    requires ram.Valid() && Pos(root, 2, 0) in ram.tables
    modifies ram
    ensures ram.Valid() && ram.Unchanged(old(ram.mem), old(ram.free), old(ram.owner), old(ram.tables))
    ensures pa == if va < MAXVA && PteV(Leaf(ram.mem, ram.tables, root, va / PGSIZE)) &&
            PteU(Leaf(ram.mem, ram.tables, root, va / PGSIZE))
                  then PTE2PA(Leaf(ram.mem, ram.tables, root, va / PGSIZE)) else 0
  {
    hide Shape, Ram.AllocOk, Grew, Leaf, On, PteU, PTE2PA;
    if va >= MAXVA { return 0; }
    ValidShape(ram);
    LeafAt(ram.mem, ram.owner, ram.tables, root, va / PGSIZE);
    var found, t, i := ram.Walk(root, va, false);
    if !found { return 0; }
    var pte := ram.mem[t][i];
    if !PteV(pte) { return 0; }
    if !PteU(pte) { return 0; }
    pa := PTE2PA(pte);
  }

  /** e & ~PTE_U */
  function ClearU(e: nat): nat {
    if e >= 16 && PteU(e) then e - 16 else e
  }

  lemma DropFlag(f: nat)
    requires f < 1024 && (f / 16) % 2 == 1
    ensures f >= 16 && (f - 16) % 2 == f % 2 && ((f - 16) / 2) % 8 == (f / 2) % 8 && ((f - 16) / 16) % 2 == 0
  {
    assert (f - 16) / 2 == f / 2 - 8;
    assert (f - 16) / 16 == f / 16 - 1;
  }

  lemma DropU(e: nat)
    requires PteV(e) && PteU(e)
    ensures PteV(ClearU(e)) && PteRWX(ClearU(e)) == PteRWX(e) && PTE2PA(ClearU(e)) == PTE2PA(e) && !PteU(ClearU(e))
  {
    var q, f := e / 1024, e % 1024;
    SplitWord(q, f);
    DropFlag(f);
    SplitWord(q, f - 16);
    assert ClearU(e) == 1024 * q + (f - 16);
  }

  /** uvmclear: the page keeps its frame but is no longer accessible to the user. */
  method UvmClear(ram: Ram, root: nat, va: nat)
    requires ram.Valid() && Pos(root, 2, 0) in ram.tables && va < TRAPFRAME
    requires Leaf(ram.mem, ram.tables, root, va / PGSIZE) != 0 && PteU(Leaf(ram.mem, ram.tables, root, va / PGSIZE))
    modifies ram
    ensures ram.Valid() && ram.owner == old(ram.owner) && ram.tables == old(ram.tables) && ram.free == old(ram.free)
    ensures OneLeaf(old(ram.mem), ram.tables, ram.mem, ram.tables, root, va / PGSIZE,
                    ClearU(Leaf(old(ram.mem), ram.tables, root, va / PGSIZE)))
    ensures forall q :: q in ram.owner && ram.owner[q].User? && q in old(ram.mem) ==>
                          q in ram.mem && ram.mem[q] == old(ram.mem)[q]
  {
    hide EntriesOk, TablesOk, UsersOk, FreeListOk, Grew, Leaf, On, OneLeaf, PteU, PTE2PA, ClearU;
    ghost var v := va / PGSIZE;
    LeafAt(ram.mem, ram.owner, ram.tables, root, v);
    UserLeafOwner(ram.mem, ram.owner, ram.tables, root, v);
    OneUser(ram.mem, ram.owner, ram.tables, root, v);
    var found, t, i := ram.Walk(root, va, false);
    var pte := ram.mem[t][i];
    DropU(pte);
    LeafChange(ram.mem, ram.owner, ram.tables, root, v, ClearU(pte), ram.owner);
    FreeListFrame(ram.mem, Poke(ram.mem, t, i, ClearU(pte)), ram.freelist, ram.free, ram.owner, ram.owner);
    ram.mem := Poke(ram.mem, t, i, ClearU(pte));
  }

  /** Writing a frame of user memory disturbs no table. */
  method WriteFrame(ram: Ram, pa: nat, w: seq<nat>)
    requires ram.Valid() && pa in ram.owner && ram.owner[pa].User? && |w| == 512
    modifies ram`mem
    ensures ram.Valid() && SameLeaves(old(ram.mem), ram.tables, ram.mem, ram.tables) && ram.mem == old(ram.mem)[pa := w]
  {
    hide EntriesOk, UsersOk, SameLeaves, FreeListOk;
    ShapeFrame(ram.mem, ram.owner, ram.tables, ram.mem[pa := w], ram.owner);
    FreeListFrame(ram.mem, ram.mem[pa := w], ram.freelist, ram.free, ram.owner, ram.owner);
    ram.mem := ram.mem[pa := w];
  }

  /** Every page below n is mapped for the user. */
  ghost predicate UserReadable(mem: Memory, tables: map<Pos, nat>, root: nat, n: nat) {
    forall v: nat :: v < n ==> Leaf(mem, tables, root, v) != 0 && PteU(Leaf(mem, tables, root, v))
  }

  /** Page v of the space has a frame of its own, which holds the words w. */
  ghost predicate Holds(mem: Memory, owner: map<nat, Owner>, tables: map<Pos, nat>, root: nat, v: nat, w: seq<nat>) {
    var pa := PTE2PA(Leaf(mem, tables, root, v));
    pa in owner && owner[pa] == User(root, v) && pa in mem && mem[pa] == w
  }

  /** Only the frames of pages lo .. hi of the space were written. */
  ghost predicate OnlyFrames(m0: Memory, o: map<nat, Owner>, m1: Memory, root: nat, lo: nat, hi: nat) {
    && m1.Keys == m0.Keys
    && forall q :: q in m0 && m1[q] != m0[q] ==> q in o && o[q].User? && o[q].root == root && lo <= o[q].vpn < hi
  }

  // ---------- bytes within a page ----------

  function Pow256(n: nat): (r: nat)
    ensures r > 0
  {
    if n == 0 then 1 else 256 * Pow256(n - 1)
  }

  /** The little-endian word with its first n bytes from b and the others from a. */
  function MixWord(a: nat, b: nat, n: nat): nat {
    if n >= 8 then b else if n == 0 then a else b % 256 + 256 * MixWord(a / 256, b / 256, n - 1)
  }

  /** Byte k of a word. */
  function ByteOf(w: nat, k: nat): nat {
    w / Pow256(k) % 256
  }

  /** Byte i of a page. */
  function PageByte(page: seq<nat>, i: nat): nat
    requires i / 8 < |page|
  {
    ByteOf(page[i / 8], i % 8)
  }

  lemma ByteStep(w: nat, k: nat)
    requires k < 7
    ensures ByteOf(w, k + 1) == ByteOf(w / 256, k)
  {
    assert Pow256(k + 1) == 256 * Pow256(k);
    DivideTwice(w, 256, Pow256(k));
  }

  lemma {:induction false} MixBytes(a: nat, b: nat, n: nat, k: nat)
    requires k < 8
    ensures ByteOf(MixWord(a, b, n), k) == if k < n then ByteOf(b, k) else ByteOf(a, k)
    decreases n
  {
    if 0 < n < 8 {
      var w, m := MixWord(a, b, n), MixWord(a / 256, b / 256, n - 1);
      assert w / 256 == m && w % 256 == b % 256;
      if k > 0 {
        MixBytes(a / 256, b / 256, n - 1, k - 1);
        ByteStep(w, k - 1);
        ByteStep(a, k - 1);
        ByteStep(b, k - 1);
      }
    }
  }

  /** The page `was` with its first m bytes overwritten by those of `read`. */
  function Overlay(was: seq<nat>, read: seq<nat>, m: nat): (r: seq<nat>)
    requires |was| == |read| == 512
    ensures |r| == 512
  {
    seq(512, k requires 0 <= k < 512 => MixWord(was[k], read[k], if m <= 8 * k then 0 else m - 8 * k))
  }

  /** Byte by byte: the first m bytes are those that were read, the others are as they were. */
  lemma OverlayBytes(was: seq<nat>, read: seq<nat>, m: nat, i: nat)
    requires |was| == |read| == 512 && i < PGSIZE
    ensures PageByte(Overlay(was, read, m), i) == if i < m then PageByte(read, i) else PageByte(was, i)
  {
    hide ByteOf, MixWord;
    var k := i / 8;
    MixBytes(was[k], read[k], if m <= 8 * k then 0 else m - 8 * k, i % 8);
  }

  /** A full page read leaves nothing of what was there, an empty one everything. */
  lemma OverlayEnds(was: seq<nat>, read: seq<nat>)
    requires |was| == |read| == 512
    ensures Overlay(was, read, PGSIZE) == read && Overlay(was, read, 0) == was
  {
  }

  /** min(sz - i, PGSIZE) for the k-th page of a segment of sz bytes. */
  function BytesIn(filesz: nat, k: nat): nat {
    if filesz <= k * PGSIZE then 0 else if filesz - k * PGSIZE < PGSIZE then filesz - k * PGSIZE else PGSIZE
  }

  // ---------- the contents of an image ----------

  /** The words of pages 0 .. |img| of a space. */
  type PageSeq = seq<seq<nat>>

  ghost predicate ImageIs(m: Memory, o: map<nat, Owner>, t: map<Pos, nat>, root: nat, img: PageSeq) {
    forall v: nat :: v < |img| ==> |img[v]| == 512 && Holds(m, o, t, root, v, img[v])
  }

  /** The image after the first k pages of a segment of filesz bytes were read to page v0 and on. */
  ghost function Written(img: PageSeq, v0: nat, pages: PageSeq, filesz: nat, k: nat): (r: PageSeq)
    requires k <= |pages| && (forall j :: 0 <= j < |img| ==> |img[j]| == 512) && forall j :: 0 <= j < |pages| ==>
                                                            |pages[j]| == 512
    ensures |r| == |img|
  {
    seq(|img|, v requires 0 <= v < |img| =>
      if v0 <= v < v0 + k then Overlay(img[v], pages[v - v0], BytesIn(filesz, v - v0)) else img[v])
  }

  /** The byte at virtual address a of a space. */
  ghost function MemByte(m: Memory, t: map<Pos, nat>, root: nat, a: nat): nat {
    var pa := PTE2PA(Leaf(m, t, root, a / PGSIZE));
    if pa in m && |m[pa]| == 512 then PageByte(m[pa], a % PGSIZE) else 0
  }

  /** Byte i of a segment whose pages are given. */
  function FileByte(pages: PageSeq, i: nat): nat {
    if i / PGSIZE < |pages| && |pages[i / PGSIZE]| == 512 then PageByte(pages[i / PGSIZE], i % PGSIZE) else 0
  }

  /** Of the first n pages of the space, the filesz bytes from va on are those of the file, and every other byte is what
      it was. */
  ghost predicate SegmentRead(m0: Memory, m1: Memory, t: map<Pos, nat>, root: nat, va: nat, pages: PageSeq, filesz: nat,
                              n: nat) {
    forall a: nat :: a < n * PGSIZE ==>
      MemByte(m1, t, root, a) == if va <= a < va + filesz then FileByte(pages, a - va) else MemByte(m0, t, root, a)
  }

  lemma ImageByte(m: Memory, o: map<nat, Owner>, t: map<Pos, nat>, root: nat, img: PageSeq, a: nat)
    requires ImageIs(m, o, t, root, img) && a < |img| * PGSIZE
    ensures a / PGSIZE < |img| && |img[a / PGSIZE]| == 512
    ensures MemByte(m, t, root, a) == PageByte(img[a / PGSIZE], a % PGSIZE)
  {
    hide Leaf, PTE2PA, PageByte;
    assert Holds(m, o, t, root, a / PGSIZE, img[a / PGSIZE]);
  }

  lemma WrittenByte(img: PageSeq, v0: nat, pages: PageSeq, filesz: nat, a: nat)
    requires (forall j :: 0 <= j < |img| ==> |img[j]| == 512) && forall j :: 0 <= j < |pages| ==> |pages[j]| == 512
    requires v0 + |pages| <= |img| && |pages| == Pages(filesz) && a / PGSIZE < |img|
    ensures var va := v0 * PGSIZE;
            PageByte(Written(img, v0, pages, filesz, |pages|)[a / PGSIZE], a % PGSIZE) ==
            if va <= a < va + filesz then FileByte(pages, a - va) else PageByte(img[a / PGSIZE], a % PGSIZE)
  {
    hide Overlay, PageByte;
    var v, i := a / PGSIZE, a % PGSIZE;
    if v0 <= v < v0 + |pages| {
      OverlayBytes(img[v], pages[v - v0], BytesIn(filesz, v - v0), i);
      assert (a - v0 * PGSIZE) / PGSIZE == v - v0 && (a - v0 * PGSIZE) % PGSIZE == i;
    }
  }

  lemma SegmentIsRead(m0: Memory, o: map<nat, Owner>, t: map<Pos, nat>, m1: Memory, root: nat, img: PageSeq, va: nat,
                      pages: PageSeq, filesz: nat)
    requires (forall j :: 0 <= j < |img| ==> |img[j]| == 512) && forall j :: 0 <= j < |pages| ==> |pages[j]| == 512
    requires va % PGSIZE == 0 && va / PGSIZE + |pages| <= |img| && |pages| == Pages(filesz)
    requires ImageIs(m0, o, t, root, img)
    requires ImageIs(m1, o, t, root, Written(img, va / PGSIZE, pages, filesz, |pages|))
    ensures SegmentRead(m0, m1, t, root, va, pages, filesz, |img|)
  {
    hide MemByte, PageByte, Written, ImageIs, FileByte, Pages;
    forall a: nat | a < |img| * PGSIZE
      ensures MemByte(m1, t, root, a) == if va <= a < va + filesz
              then FileByte(pages, a - va) else MemByte(m0, t, root, a)
    {
      ImageByte(m0, o, t, root, img, a);
      ImageByte(m1, o, t, root, Written(img, va / PGSIZE, pages, filesz, |pages|), a);
      WrittenByte(img, va / PGSIZE, pages, filesz, a);
    }
  }

  /** loadseg: the segment's bytes, as read from the file, end up at consecutive virtual addresses, and nothing else of
      the image changes; the rest of a last page that is not full stays what it was. "address should exist" cannot
      happen. A short read of page `bad` makes it fail. */
  method LoadSeg(ram: Ram, root: nat, va: nat, pages: seq<seq<nat>>, filesz: nat, bad: nat, ghost img: PageSeq)
    returns (ok: bool)
    requires ram.Valid() && Pos(root, 2, 0) in ram.tables && va % PGSIZE == 0
    requires |img| <= USERTOP && UserReadable(ram.mem, ram.tables, root, |img|) && va / PGSIZE + |pages| <= |img|
    requires ImageIs(ram.mem, ram.owner, ram.tables, root, img)
    requires |pages| == Pages(filesz) && forall k :: 0 <= k < |pages| ==> |pages[k]| == 512
    modifies ram
    ensures ram.Valid() && ram.owner == old(ram.owner) && ram.tables == old(ram.tables)
    ensures SameLeaves(old(ram.mem), ram.tables, ram.mem, ram.tables)
    ensures ok <==> bad >= |pages|
    ensures ok ==> ImageIs(ram.mem, ram.owner, ram.tables, root, Written(img, va / PGSIZE, pages, filesz, |pages|))
    ensures OnlyFrames(old(ram.mem), ram.owner, ram.mem, root, va / PGSIZE, va / PGSIZE + |pages|)
    ensures ok ==> SegmentRead(old(ram.mem), ram.mem, ram.tables, root, va, pages, filesz, |img|)
    ensures ram.free == old(ram.free)
  {
    hide Shape, Ram.AllocOk, Leaf, SameLeaves, PteU, PTE2PA, Pages, ImageIs, Written, Overlay, SegmentRead;
    ImageSizes(ram.mem, ram.owner, ram.tables, root, img);
    SameLeavesRefl(ram.mem, ram.tables);
    WrittenNone(img, va / PGSIZE, pages, filesz);
    var k := 0;
    while k < |pages|
      invariant 0 <= k <= |pages| && k <= bad && ram.Valid() && ram.owner == old(ram.owner)
      invariant ram.tables == old(ram.tables) && ram.free == old(ram.free)
      invariant SameLeaves(old(ram.mem), ram.tables, ram.mem, ram.tables)
      invariant UserReadable(ram.mem, ram.tables, root, |img|)
      invariant ImageIs(ram.mem, ram.owner, ram.tables, root, Written(img, va / PGSIZE, pages, filesz, k))
      invariant OnlyFrames(old(ram.mem), ram.owner, ram.mem, root, va / PGSIZE, va / PGSIZE + |pages|)
    {
      ghost var v := va / PGSIZE + k;
      assert (va + k * PGSIZE) / PGSIZE == v && va + k * PGSIZE < MAXVA;
      UserPage(ram, root, v);
      var pa := WalkAddr(ram, root, va + k * PGSIZE);
      assert pa != 0;
      if k == bad { return false; }
      ghost var m := ram.mem;
      FrameSize(ram, pa);
      WriteFrame(ram, pa, Overlay(ram.mem[pa], pages[k], BytesIn(filesz, k)));
      SameLeavesTrans3(old(ram.mem), ram.tables, m, ram.tables, ram.mem, ram.tables, ram.mem, ram.tables) by {
        SameLeavesRefl(ram.mem, ram.tables);
      }
      StillReadable(m, ram.tables, ram.mem, root, |img|);
      WrittenMore(m, ram.owner, ram.tables, ram.mem, root, img, va / PGSIZE, pages, filesz, k, pa);
      k := k + 1;
    }
    ok := true;
    SegmentIsRead(old(ram.mem), ram.owner, ram.tables, ram.mem, root, img, va, pages, filesz);
  }

  lemma ImageSizes(m: Memory, o: map<nat, Owner>, t: map<Pos, nat>, root: nat, img: PageSeq)
    requires ImageIs(m, o, t, root, img)
    ensures forall j :: 0 <= j < |img| ==> |img[j]| == 512
  {
  }

  lemma FrameSize(ram: Ram, pa: nat)
    requires ram.Valid() && pa in ram.mem
    ensures |ram.mem[pa]| == 512
  {
  }

  lemma WrittenNone(img: PageSeq, v0: nat, pages: PageSeq, filesz: nat)
    requires (forall j :: 0 <= j < |img| ==> |img[j]| == 512) && forall j :: 0 <= j < |pages| ==> |pages[j]| == 512
    ensures Written(img, v0, pages, filesz, 0) == img
  {
  }

  lemma WrittenMore(m0: Memory, o: map<nat, Owner>, t: map<Pos, nat>, m1: Memory, root: nat, img: PageSeq, v0: nat,
                    pages: PageSeq, filesz: nat, k: nat, pa: nat)
    requires k < |pages| && v0 + |pages| <= |img|
    requires (forall j :: 0 <= j < |img| ==> |img[j]| == 512) && forall j :: 0 <= j < |pages| ==> |pages[j]| == 512
    requires ImageIs(m0, o, t, root, Written(img, v0, pages, filesz, k)) && SameLeaves(m0, t, m1, t)
    requires pa == PTE2PA(Leaf(m0, t, root, v0 + k)) && pa in m0 && |m0[pa]| == 512
    requires m1 == m0[pa := Overlay(m0[pa], pages[k], BytesIn(filesz, k))]
    ensures ImageIs(m1, o, t, root, Written(img, v0, pages, filesz, k + 1))
  {
    hide Leaf, PTE2PA, Overlay, BytesIn;
    var a, b := Written(img, v0, pages, filesz, k), Written(img, v0, pages, filesz, k + 1);
    forall v: nat | v < |b| ensures |b[v]| == 512 && Holds(m1, o, t, root, v, b[v]) {
      assert Holds(m0, o, t, root, v, a[v]) && Holds(m0, o, t, root, v0 + k, a[v0 + k]);
    }
  }

  lemma UserPage(ram: Ram, root: nat, v: nat)
    requires ram.Valid() && v < USERTOP && Leaf(ram.mem, ram.tables, root, v) != 0
    ensures PteV(Leaf(ram.mem, ram.tables, root, v)) && PTE2PA(Leaf(ram.mem, ram.tables, root, v)) in ram.owner
    ensures ram.owner[PTE2PA(Leaf(ram.mem, ram.tables, root, v))] == User(root, v)
    ensures PTE2PA(Leaf(ram.mem, ram.tables, root, v)) in ram.mem && PTE2PA(Leaf(ram.mem, ram.tables, root, v)) != 0
  {
    UserLeafOwner(ram.mem, ram.owner, ram.tables, root, v);
  }

  lemma StillReadable(m: Memory, t: map<Pos, nat>, m': Memory, root: nat, n: nat)
    requires UserReadable(m, t, root, n) && SameLeaves(m, t, m', t)
    ensures UserReadable(m', t, root, n)
  {
    hide Leaf, PteU;
    forall v: nat | v < n ensures Leaf(m', t, root, v) == Leaf(m, t, root, v) { }
  }

  // ---------- building an image ----------

  const UINT64: nat := 0x1_0000_0000_0000_0000

  /** A program header together with what the file system answers about it: whether the header could be
      read, the pages of the segment, and the first page whose read comes back short. */
  datatype Segment = Segment(readable: bool, load: bool, vaddr: nat, memsz: nat, filesz: nat, flags: nat,
                             pages: seq<seq<nat>>, bad: nat)

  /** flags2perm */
  function Flags2Perm(flags: nat): nat {
    var perm := if flags % 2 == 1 then PTE_X else 0;
    if flags / 2 % 2 == 1 then perm + PTE_W else perm
  }

  /** Bit 0 of the header's flags makes the page executable, bit 1 writable, and nothing else does. */
  lemma FlagsArePerms(flags: nat, pa: nat)
    ensures UserPerm(Flags2Perm(flags))
    ensures var perm := PTE_R + PTE_U + Flags2Perm(flags);
            && perm < 1024
            && var e := MakePte(pa, perm);
               && PteV(e) && PteU(e) && e / PTE_R % 2 == 1
               && (e / PTE_W % 2 == 1 <==> flags / 2 % 2 == 1) && (e / PTE_X % 2 == 1 <==> flags % 2 == 1)
  {
    var f, q := PTE_R + PTE_U + Flags2Perm(flags) + 1, pa / 4096;
    assert MakePte(pa, f - 1) == 1024 * q + f;
    SplitWord(q, f);
    ThreeBits(1024 * q + f);
    ThreeBits(f);
    assert f == 19 || f == 23 || f == 27 || f == 31;
  }

  lemma ThreeBits(x: nat)
    ensures x / 2 % 2 == x / 2 % 8 % 2 && x / 4 % 2 == x / 2 % 8 / 2 % 2 && x / 8 % 2 == x / 2 % 8 / 4
  {
    var y := x / 2;
    assert x / 4 == y / 2;
    assert x / 8 == y / 4;
    EightPart(y / 8, y % 8);
  }

  lemma EightPart(q: nat, r: nat)
    requires r < 8
    ensures (8 * q + r) % 2 == r % 2 && (8 * q + r) / 2 % 2 == r / 2 % 2 && (8 * q + r) / 4 % 2 == r / 4
  {
    assert (8 * q + r) / 2 == 4 * q + r / 2;
    assert (8 * q + r) / 4 == 2 * q + r / 4;
  }

  /** What kexec asks of a program header before and after it allocates: for one that is loaded, a size that the file's
      part fits in and that does not wrap, an aligned address, and whole reads. */
  predicate Loads(s: Segment) {
    && s.readable
    && (s.load ==> s.filesz <= s.memsz && s.vaddr + s.memsz < UINT64 && s.vaddr % PGSIZE == 0 && s.bad >= |s.pages|)
  }

  ghost predicate SegmentOk(s: Segment) {
    && s.vaddr < UINT64 && s.memsz < UINT64
    && |s.pages| == Pages(s.filesz) && forall k :: 0 <= k < |s.pages| ==> |s.pages[k]| == 512
  }

  /** The image so far: n pages of user memory, all backed by frames and readable. */
  ghost predicate ImageOk(m: Memory, o: map<nat, Owner>, t: map<Pos, nat>, root: nat, n: nat) {
    SpaceAt(m, o, t, root, n) && Dense(o, root, n) && UserReadable(m, t, root, n) && n <= USERTOP
  }

  lemma ImageGrown(m0: Memory, o0: map<nat, Owner>, t0: map<Pos, nat>, m1: Memory, o1: map<nat, Owner>,
                   t1: map<Pos, nat>,
                   root: nat, lo: nat, hi: nat, xperm: nat)
    requires ImageOk(m0, o0, t0, root, lo) && UserPerm(xperm) && Dense(o1, root, hi) && hi <= USERTOP
    requires PTE_R + PTE_U + xperm < 1024 && Grown(m0, o0, t0, m1, o1, t1, root, lo, hi, PTE_R + PTE_U + xperm)
    ensures ImageOk(m1, o1, t1, root, hi) && StaysInside(m0, o0, t0, m1, o1, t1, root)
  {
    SpaceGrown(m0, o0, t0, m1, o1, t1, root, lo, hi, PTE_R + PTE_U + xperm);
    hide Leaf;
    forall v: nat | v < hi ensures Leaf(m1, t1, root, v) != 0 && PteU(Leaf(m1, t1, root, v)) {
      if v >= lo {
        assert ZeroMapped(m1, o1, t1, root, v, PTE_R + PTE_U + xperm);
        UserBit(PTE2PA(Leaf(m1, t1, root, v)), xperm);
      }
    }
  }

  lemma UserBit(pa: nat, xperm: nat)
    requires UserPerm(xperm)
    ensures PTE_R + PTE_U + xperm < 1024 && PteU(MakePte(pa, PTE_R + PTE_U + xperm))
    ensures MakePte(pa, PTE_R + PTE_U + xperm) != 0
  {
    UserPermOk(xperm);
    SplitWord(pa / 4096, PTE_R + PTE_U + xperm + 1);
  }

  lemma ImageParts(m: Memory, o: map<nat, Owner>, t: map<Pos, nat>, root: nat, n: nat)
    requires ImageOk(m, o, t, root, n)
    ensures Pos(root, 2, 0) in t && NoUsersFrom(o, root, n) && Dense(o, root, n) && UserReadable(m, t, root, n)
    ensures n <= USERTOP
    ensures SpaceAt(m, o, t, root, n)
  {
  }

  lemma ImageWritten(m0: Memory, o: map<nat, Owner>, t: map<Pos, nat>, m1: Memory, root: nat, n: nat, lo: nat, hi: nat)
    requires ImageOk(m0, o, t, root, n) && SameLeaves(m0, t, m1, t) && OnlyFrames(m0, o, m1, root, lo, hi)
    ensures ImageOk(m1, o, t, root, n) && StaysInside(m0, o, t, m1, o, t, root)
  {
    hide Leaf;
  }

  lemma SegmentFits(s: Segment, sz: nat)
    requires s.vaddr % PGSIZE == 0 && s.filesz <= s.memsz && s.vaddr + s.memsz <= sz
    ensures s.vaddr / PGSIZE + Pages(s.filesz) <= Pages(sz)
  {
  }

  /** One program header of kexec's loop. */
  method AddSegment(ram: Ram, root: nat, sz: nat, s: Segment, ghost img: PageSeq) returns (ok: bool, sz': nat)
    requires ram.Valid() && SegmentOk(s) && PGROUNDUP(sz) <= TRAPFRAME
    requires ImageOk(ram.mem, ram.owner, ram.tables, root, Pages(sz)) && |img| == Pages(sz)
    requires ImageIs(ram.mem, ram.owner, ram.tables, root, img)
    modifies ram
    ensures ram.Valid() && PGROUNDUP(sz') <= TRAPFRAME
    ensures ok ==> ImageOk(ram.mem, ram.owner, ram.tables, root, Pages(sz'))
    ensures SpaceAt(ram.mem, ram.owner, ram.tables, root, Pages(sz'))
    ensures StaysInside(old(ram.mem), old(ram.owner), old(ram.tables), ram.mem, ram.owner, ram.tables, root)
    ensures ok ==> sz' == SizeWith(sz, s) && ImageIs(ram.mem, ram.owner, ram.tables, root, Loaded(img, s, Pages(sz')))
    ensures ok <==> Loads(s) && (s.load ==> SizeWith(sz, s) > 0 &&
                                            Cost(old(ram.tables), root, Between(Pages(sz), Pages(SizeWith(sz, s)))) <=
                                            |old(ram.free)|)
    ensures ok ==> Spent(old(ram.tables), ram.tables, root, Between(Pages(sz), Pages(sz')), |old(ram.free)|, |ram.free|)
    ensures ok ==> FlagsKept(old(ram.mem), old(ram.tables), ram.mem, ram.tables, root, Pages(sz), Pages(sz'),
                             PTE_R + PTE_U + Flags2Perm(s.flags))
  {
    hide FlagsKept, Cost, Between, Rooted, Flags2Perm, SegmentRead, Leaf;
    hide Shape, Ram.Valid, ImageOk, SpaceAt, StaysInside, Grown, RolledBack, NoUsersFrom, Dense, UserReadable, Pages,
        PGROUNDUP, SameLeaves, OnlyFrames, ImageIs, Loaded, Written;
    ghost var m0, o0, t0 := ram.mem, ram.owner, ram.tables;
    ImageParts(m0, o0, t0, root, Pages(sz));
    StaysRefl(m0, o0, t0, root);
    ImageSizes(m0, o0, t0, root, img);
    if !s.load { LoadedNone(img, s); }
    FlagsArePerms(s.flags, 0);
    NothingTaken(t0, root, Pages(sz), |ram.free|);
    SameFlags(m0, t0, root, Pages(sz), PTE_R + PTE_U + Flags2Perm(s.flags));
    sz' := sz;
    if !s.readable { return false, sz; }
    if !s.load { return true, sz; }
    if s.memsz < s.filesz { return false, sz; }
    if (s.vaddr + s.memsz) % UINT64 < s.vaddr { return false, sz; }
    if s.vaddr % PGSIZE != 0 { return false, sz; }
    assert s.vaddr + s.memsz < UINT64;
    var sz1 := GrowImage(ram, root, sz, s.vaddr + s.memsz, Flags2Perm(s.flags), img);
    if sz1 == 0 { return false, sz; }
    sz' := sz1;
    SegmentFits(s, sz');
    MorePages(sz, sz');
    ghost var m1 := ram.mem;
    ZeroSizes(img, Pages(sz'));
    ImageParts(ram.mem, ram.owner, ram.tables, root, Pages(sz'));
    ok := LoadSeg(ram, root, s.vaddr, s.pages, s.filesz, s.bad, WithZeros(img, Pages(sz')));
    ImageWritten(m1, ram.owner, ram.tables, ram.mem, root, Pages(sz'), s.vaddr / PGSIZE, s.vaddr / PGSIZE + |s.pages|);
    ImageParts(ram.mem, ram.owner, ram.tables, root, Pages(sz'));
    StaysTrans(m0, o0, t0, m1, ram.owner, ram.tables, ram.mem, ram.owner, ram.tables, root);
    LoadedIs(img, s, Pages(sz'));
    FlagsStay(m0, t0, m1, ram.tables, ram.mem, root, Pages(sz), Pages(sz'), PTE_R + PTE_U + Flags2Perm(s.flags));
  }

  function Larger(a: nat, b: nat): nat {
    if a < b then b else a
  }

  /** uvmalloc for an image: new pages are zero and have the given permissions. It returns 0 when memory runs out, and
      also for a size of 0. */
  method GrowImage(ram: Ram, root: nat, sz: nat, newsz: nat, xperm: nat, ghost img: PageSeq) returns (sz1: nat)
    requires ram.Valid() && UserPerm(xperm) && PGROUNDUP(sz) <= TRAPFRAME
    requires ImageOk(ram.mem, ram.owner, ram.tables, root, Pages(sz)) && |img| == Pages(sz)
    requires ImageIs(ram.mem, ram.owner, ram.tables, root, img)
    modifies ram
    ensures ram.Valid() && (sz1 == 0 || (sz1 == Larger(sz, newsz) && PGROUNDUP(sz1) <= TRAPFRAME))
    ensures sz1 != 0 <==> Larger(sz, newsz) > 0 &&
                          Cost(old(ram.tables), root, Between(Pages(sz), Pages(Larger(sz, newsz)))) <= |old(ram.free)|
    ensures StaysInside(old(ram.mem), old(ram.owner), old(ram.tables), ram.mem, ram.owner, ram.tables, root)
    ensures sz1 == 0 ==> SpaceAt(ram.mem, ram.owner, ram.tables, root, Pages(sz))
    ensures sz1 != 0 ==>
              && ImageOk(ram.mem, ram.owner, ram.tables, root, Pages(sz1))
              && ImageIs(ram.mem, ram.owner, ram.tables, root, WithZeros(img, Pages(sz1)))
              && Spent(old(ram.tables), ram.tables, root, Between(Pages(sz), Pages(sz1)), |old(ram.free)|, |ram.free|)
              && FlagsKept(old(ram.mem), old(ram.tables), ram.mem, ram.tables, root, Pages(sz), Pages(sz1),
                           PTE_R + PTE_U + xperm)
  {
    hide FlagsKept, Cost, Between, Rooted, Leaf, UserPerm;
    hide Shape, Ram.Valid, ImageOk, SpaceAt, StaysInside, Grown, RolledBack, NoUsersFrom, Dense, UserReadable, Pages,
        PGROUNDUP, ImageIs;
    ghost var m0, o0, t0 := ram.mem, ram.owner, ram.tables;
    ImageParts(m0, o0, t0, root, Pages(sz));
    StaysRefl(m0, o0, t0, root);
    NothingTaken(t0, root, Pages(sz), |ram.free|);
    SameFlags(m0, t0, root, Pages(sz), PTE_R + PTE_U + xperm);
    ghost var grown;
    sz1, grown := UvmAlloc(ram, root, sz, newsz, xperm);
    UserPermOk(xperm);
    if !grown {
      SpaceRolledBack(m0, o0, t0, ram.mem, ram.owner, ram.tables, root, Pages(sz));
    } else if newsz >= sz {
      PagesUnder(newsz);
      ImageGrown(m0, o0, t0, ram.mem, ram.owner, ram.tables, root, Pages(sz), Pages(newsz), xperm);
      ImageParts(ram.mem, ram.owner, ram.tables, root, Pages(newsz));
      GrownFlags(m0, o0, t0, ram.mem, ram.owner, ram.tables, root, Pages(sz), Pages(newsz), PTE_R + PTE_U + xperm);
      ImageWidened(m0, o0, t0, ram.mem, ram.owner, ram.tables, root, img, Pages(newsz), PTE_R + PTE_U + xperm);
      ZeroSize(sz, newsz);
    } else {
      assert WithZeros(img, Pages(sz)) == img;
    }
  }

  /** Mapping vs took exactly what it costs. */
  ghost predicate Spent(t0: map<Pos, nat>, t1: map<Pos, nat>, root: nat, vs: set<nat>, free0: nat, free1: nat) {
    free1 + Cost(t0, root, vs) == free0 && Rooted(t0, t1, root, vs)
  }

  /** The pages below lo keep their entries, and those from lo to hi have the given permissions. */
  ghost predicate FlagsKept(m0: Memory, t0: map<Pos, nat>, m1: Memory, t1: map<Pos, nat>, root: nat, lo: nat, hi: nat,
                            perm: nat) {
    && (forall v: nat :: v < lo ==> Leaf(m1, t1, root, v) == Leaf(m0, t0, root, v))
    && (forall v: nat :: lo <= v < hi ==> PteFlags(Leaf(m1, t1, root, v)) == perm + 1)
  }

  lemma NothingTaken(t: map<Pos, nat>, root: nat, n: nat, free: nat)
    ensures Spent(t, t, root, Between(n, n), free, free)
  {
    NothingSpent(t, root, n);
  }

  lemma SameFlags(m: Memory, t: map<Pos, nat>, root: nat, n: nat, perm: nat)
    ensures FlagsKept(m, t, m, t, root, n, n, perm)
  {
  }

  lemma GrownFlags(m0: Memory, o0: map<nat, Owner>, t0: map<Pos, nat>, m1: Memory, o1: map<nat, Owner>,
                   t1: map<Pos, nat>, root: nat, lo: nat, hi: nat, perm: nat)
    requires perm < 1024 && perm % 2 == 0 && Grown(m0, o0, t0, m1, o1, t1, root, lo, hi, perm)
    ensures FlagsKept(m0, t0, m1, t1, root, lo, hi, perm)
  {
    hide Leaf, PTE2PA, PteFlags, MakePte;
    forall v: nat | lo <= v < hi ensures PteFlags(Leaf(m1, t1, root, v)) == perm + 1 {
      assert ZeroMapped(m1, o1, t1, root, v, perm);
      FlagsOfPte(PTE2PA(Leaf(m1, t1, root, v)), perm);
    }
  }

  lemma FlagsOfPte(pa: nat, perm: nat)
    requires perm < 1024 && perm % 2 == 0
    ensures PteFlags(MakePte(pa, perm)) == perm + 1
  {
    SplitFlags(perm);
    SplitWord(pa / 4096, perm + 1);
  }

  lemma FlagsStay(m0: Memory, t0: map<Pos, nat>, m1: Memory, t1: map<Pos, nat>, m2: Memory, root: nat, lo: nat, hi: nat,
                  perm: nat)
    requires FlagsKept(m0, t0, m1, t1, root, lo, hi, perm) && SameLeaves(m1, t1, m2, t1)
    ensures FlagsKept(m0, t0, m2, t1, root, lo, hi, perm)
  {
    hide Leaf, PteFlags;
    forall v: nat ensures Leaf(m2, t1, root, v) == Leaf(m1, t1, root, v) { }
  }

  lemma PagesUnder(sz: nat)
    requires PGROUNDUP(sz) <= TRAPFRAME
    ensures Pages(sz) <= USERTOP
  {
  }

  lemma ZeroSize(sz: nat, newsz: nat)
    ensures newsz == 0 && sz <= newsz ==> Pages(sz) == Pages(newsz)
  {
  }

  lemma GuardKeepsSpace(m0: Memory, o: map<nat, Owner>, t: map<Pos, nat>, m1: Memory, root: nat, n: nat, v: nat, e: nat)
    requires SpaceAt(m0, o, t, root, n) && v < MAXVPN && OneLeaf(m0, t, m1, t, root, v, e)
    requires forall q :: q in o && o[q].User? && q in m0 ==> q in m1 && m1[q] == m0[q]
    ensures SpaceAt(m1, o, t, root, n) && StaysInside(m0, o, t, m1, o, t, root)
  {
    hide Leaf;
  }

  /** The user stack: two more pages, the lower one a guard that the user cannot touch. */
  method AddStack(ram: Ram, root: nat, sz0: nat, ghost img: PageSeq) returns (ok: bool, sz: nat)
    requires ram.Valid() && PGROUNDUP(sz0) <= TRAPFRAME && ImageOk(ram.mem, ram.owner, ram.tables, root, Pages(sz0))
    requires |img| == Pages(sz0) && ImageIs(ram.mem, ram.owner, ram.tables, root, img)
    modifies ram
    ensures ram.Valid() && sz <= TRAPFRAME && SpaceAt(ram.mem, ram.owner, ram.tables, root, Pages(sz))
    ensures StaysInside(old(ram.mem), old(ram.owner), old(ram.tables), ram.mem, ram.owner, ram.tables, root)
    ensures ok ==> sz == PGROUNDUP(sz0) + 2 * PGSIZE && !PteU(Leaf(ram.mem, ram.tables, root, PGROUNDUP(sz0) / PGSIZE))
    ensures ok ==> ImageIs(ram.mem, ram.owner, ram.tables, root, WithZeros(img, Pages(sz)))
    ensures ok <==> Cost(old(ram.tables), root, Between(Pages(sz0), Pages(sz0) + 2)) <= |old(ram.free)|
    ensures ok ==> Pages(sz) == Pages(sz0) + 2
    ensures ok ==> StackFlags(old(ram.mem), old(ram.tables), ram.mem, ram.tables, root, Pages(sz0))
  {
    hide Shape, Ram.Valid, ImageOk, SpaceAt, StaysInside, Grown, RolledBack, NoUsersFrom, Dense, UserReadable,
        PGROUNDUP, Leaf, ClearU, OneLeaf, PteU, ImageIs, WithZeros, Cost, Between, Rooted, StackFlags, FlagsKept;
    StackPages(sz0);
    ghost var m0, o0, t0 := ram.mem, ram.owner, ram.tables;
    sz := PGROUNDUP(sz0);
    RoundUpAligned(sz0);
    WholePages(Pages(sz0));
    ImageParts(m0, o0, t0, root, Pages(sz0));
    ghost var grown;
    var sz1;
    sz1, grown := UvmAlloc(ram, root, sz, sz + 2 * PGSIZE, PTE_W);
    if sz1 == 0 {
      SpaceRolledBack(m0, o0, t0, ram.mem, ram.owner, ram.tables, root, Pages(sz));
      return false, sz;
    }
    PagesUnder(sz1);
    RoundUpAligned(sz1);
    ImageGrown(m0, o0, t0, ram.mem, ram.owner, ram.tables, root, Pages(sz), Pages(sz1), PTE_W);
    ghost var m1 := ram.mem;
    ImageSizes(m0, o0, t0, root, img);
    ImageWidened(m0, o0, t0, m1, ram.owner, ram.tables, root, img, Pages(sz1), PTE_R + PTE_U + PTE_W);
    GrownFlags(m0, o0, t0, m1, ram.owner, ram.tables, root, Pages(sz), Pages(sz1), PTE_R + PTE_U + PTE_W);
    sz := sz1;
    TopPages(sz0, sz);
    ImageParts(m1, ram.owner, ram.tables, root, Pages(sz));
    Readable(m1, ram.tables, root, Pages(sz), (sz - 2 * PGSIZE) / PGSIZE);
    UserPage(ram, root, (sz - 2 * PGSIZE) / PGSIZE);
    DropU(Leaf(m1, ram.tables, root, (sz - 2 * PGSIZE) / PGSIZE));
    UvmClear(ram, root, sz - 2 * PGSIZE);
    GuardKeepsSpace(m1, ram.owner, ram.tables, ram.mem, root, Pages(sz), (sz - 2 * PGSIZE) / PGSIZE,
                    ClearU(Leaf(m1, ram.tables, root, (sz - 2 * PGSIZE) / PGSIZE)));
    LeafIs(m1, ram.tables, ram.mem, root, (sz - 2 * PGSIZE) / PGSIZE,
           ClearU(Leaf(m1, ram.tables, root, (sz - 2 * PGSIZE) / PGSIZE)));
    StaysTrans(m0, o0, t0, m1, ram.owner, ram.tables, ram.mem, ram.owner, ram.tables, root);
    ImageGuarded(m1, ram.owner, ram.tables, ram.mem, root, WithZeros(img, Pages(sz)), (sz - 2 * PGSIZE) / PGSIZE,
                 ClearU(Leaf(m1, ram.tables, root, (sz - 2 * PGSIZE) / PGSIZE)));
    GuardFlags(m0, t0, m1, ram.tables, ram.mem, root, Pages(sz0));
    ok := true;
  }

  lemma StackPages(sz0: nat)
    ensures var sz := PGROUNDUP(sz0); Pages(sz) == Pages(sz0) && Pages(sz + 2 * PGSIZE) == Pages(sz0) + 2
  {
  }

  const PTE_V: nat := 1

  /** The pages below n keep their entries, page n is out of the user's reach, page n + 1 is not. */
  ghost predicate StackFlags(m0: Memory, t0: map<Pos, nat>, m1: Memory, t1: map<Pos, nat>, root: nat, n: nat) {
    && (forall v: nat :: v < n ==> Leaf(m1, t1, root, v) == Leaf(m0, t0, root, v))
    && PteFlags(Leaf(m1, t1, root, n)) == PTE_V + PTE_R + PTE_W
    && PteFlags(Leaf(m1, t1, root, n + 1)) == PTE_V + PTE_R + PTE_W + PTE_U
  }

  lemma GuardFlags(m0: Memory, t0: map<Pos, nat>, m1: Memory, t1: map<Pos, nat>, m2: Memory, root: nat, n: nat)
    requires FlagsKept(m0, t0, m1, t1, root, n, n + 2, PTE_R + PTE_U + PTE_W)
    requires OneLeaf(m1, t1, m2, t1, root, n, ClearU(Leaf(m1, t1, root, n)))
    ensures StackFlags(m0, t0, m2, t1, root, n)
  {
    hide Leaf;
    ClearedFlags(Leaf(m1, t1, root, n));
  }

  lemma ClearedFlags(e: nat)
    requires PteFlags(e) == PTE_V + PTE_R + PTE_W + PTE_U
    ensures PteFlags(ClearU(e)) == PTE_V + PTE_R + PTE_W
  {
    assert e == e / 1024 * 1024 + 23;
    SplitWord(e / 1024, 23);
    SplitWord(e / 1024, 7);
  }

  lemma TopPages(sz0: nat, sz: nat)
    requires sz == PGROUNDUP(sz0) + 2 * PGSIZE
    ensures (sz - 2 * PGSIZE) / PGSIZE == PGROUNDUP(sz0) / PGSIZE == Pages(sz0) < Pages(sz)
  {
  }

  lemma Readable(m: Memory, t: map<Pos, nat>, root: nat, n: nat, v: nat)
    requires UserReadable(m, t, root, n) && v < n
    ensures Leaf(m, t, root, v) != 0 && PteU(Leaf(m, t, root, v))
  {
  }

  lemma LeafIs(m0: Memory, t: map<Pos, nat>, m1: Memory, root: nat, v: nat, e: nat)
    requires OneLeaf(m0, t, m1, t, root, v, e)
    ensures Leaf(m1, t, root, v) == e
  {
  }

  /** The image kexec builds, or 0 with every page it took given back. `argsFit` says whether the argument
      strings could be copied to the stack. */
  method BuildImage(ram: Ram, segments: seq<Segment>, argsFit: bool, trampoline: nat, trapframe: nat)
    returns (root: nat, sz: nat, ghost tried: nat)
    requires ram.Valid() && trampoline % PGSIZE == 0 && trapframe % PGSIZE == 0
    requires forall k :: 0 <= k < |segments| ==> SegmentOk(segments[k])
    modifies ram
    ensures ram.Valid() && sz <= TRAPFRAME
    ensures root == 0 ==> ram.owner == old(ram.owner) && NoRoot(old(ram.owner), tried)
    ensures root == 0 ==> Apart(old(ram.mem), old(ram.owner), old(ram.tables), ram.mem, ram.tables, tried)
    ensures root != 0 ==> NoPages(old(ram.owner), root) && SpaceAt(ram.mem, ram.owner, ram.tables, root, Pages(sz))
    ensures root != 0 ==> SegmentsOk(segments) && sz == PGROUNDUP(ImageSize(segments)) + 2 * PGSIZE
    ensures root != 0 ==> ImageIs(ram.mem, ram.owner, ram.tables, root, WithZeros(ImageOf(segments), Pages(sz)))
    ensures root != 0 ==>
              StaysInside(old(ram.mem), old(ram.owner), old(ram.tables), ram.mem, ram.owner, ram.tables, root)
    ensures root != 0 <==> Runs(segments, |old(ram.free)|) && argsFit
    ensures root != 0 ==> ProgramIn(ram.mem, ram.tables, root, segments, Pages(sz))
  {
    hide Shape, Ram.AllocOk, ImageOk, SpaceAt, StaysInside, NoPages, NoRoot, Apart, SegmentOk, Pages, PGROUNDUP, Leaf,
        Released, PteU, ImageIs, Loaded, WithZeros, ProgramIn, FlagsIn, FlagsKept, StackFlags, ExecCost, FreshTables,
        Specials, Cost, Between, Flags2Perm, Rooted;
    ghost var m0, o0, t0 := ram.mem, ram.owner, ram.tables;
    sz := 0;
    root, tried := ProcPagetable(ram, trampoline, trapframe);
    if root == 0 {
      LeastCost(segments, |old(ram.free)|);
      return;
    }
    tried := root;
    WholePages(0);
    EmptyImage(ram.mem, ram.owner, ram.tables, root);
    FirstCost(t0, ram.tables, root);
    NoFlags(ram.mem, ram.tables, root);
    var i, ok := 0, true;
    assert segments[..0] == [] &&
        ImageIs(ram.mem, ram.owner, ram.tables, root, []) by { NoImage(ram.mem, ram.owner, ram.tables, root); }
    while i < |segments|
      invariant 0 <= i <= |segments| && ram.Valid() && PGROUNDUP(sz) <= TRAPFRAME
      invariant ImageOk(ram.mem, ram.owner, ram.tables, root, Pages(sz))
      invariant SegmentsOk(segments[..i]) && sz == ImageSize(segments[..i]) && |ImageOf(segments[..i])| == Pages(sz)
      invariant ImageIs(ram.mem, ram.owner, ram.tables, root, ImageOf(segments[..i]))
      invariant StaysInside(m0, o0, t0, ram.mem, ram.owner, ram.tables, root)
      invariant AllLoad(segments[..i]) && FlagsIn(ram.mem, ram.tables, root, segments[..i])
      invariant FreshTables(t0, ram.tables, root, Specials() + Between(0, Pages(sz)))
      invariant |ram.free| + ExecCost(Pages(sz)) == |old(ram.free)|
    {
      ghost var m, o, t := ram.mem, ram.owner, ram.tables;
      ghost var sz0, free0 := sz, |ram.free|;
      ok, sz := AddSegment(ram, root, sz, segments[i], ImageOf(segments[..i]));
      NextSize(segments, i);
      NextCost(t0, t, ram.tables, root, sz0, SizeWith(sz0, segments[i]));
      StaysTrans(m0, o0, t0, m, o, t, ram.mem, ram.owner, ram.tables, root);
      if !ok {
        CannotRun(segments, i, |old(ram.free)|);
        RoundUpAligned(sz);
        Abandon(ram, root, sz, m0, o0, t0);
        return 0, 0, root;
      }
      ImageNext(segments, i);
      NextFlags(m, t, ram.mem, ram.tables, root, segments, i);
      MorePages(sz0, sz);
      NextTables(t0, t, ram.tables, root, Pages(sz0), Pages(sz));
      i := i + 1;
    }
    assert segments[..|segments|] == segments;
    ghost var m, o, t := ram.mem, ram.owner, ram.tables;
    NextTwo(t0, t, root, Pages(sz));
    ok, sz := AddStack(ram, root, sz, ImageOf(segments));
    StaysTrans(m0, o0, t0, m, o, t, ram.mem, ram.owner, ram.tables, root);
    if !ok || !argsFit {
      Abandon(ram, root, sz, m0, o0, t0);
      return 0, 0, root;
    }
    ProgramThere(m, t, ram.mem, ram.owner, ram.tables, root, segments, Pages(sz));
  }

  // ---------- what the program is ----------

  /** The byte that the program headers put at address a: that of the last header that has it, 0 when none has. */
  function ProgramByte(segments: seq<Segment>, a: nat): nat {
    if segments == [] then 0
    else
      var s := segments[|segments| - 1];
      if s.load && s.vaddr <= a < s.vaddr + s.filesz then FileByte(s.pages, a - s.vaddr)
      else ProgramByte(segments[..|segments| - 1], a)
  }

  /** The permissions of page v: those of the first header that made the program reach it. */
  function PermAt(segments: seq<Segment>, v: nat): nat {
    if segments == [] then 0
    else if v < Pages(ImageSize(segments[..|segments| - 1])) then PermAt(segments[..|segments| - 1], v)
    else Flags2Perm(segments[|segments| - 1].flags)
  }

  ghost predicate FlagsIn(m: Memory, t: map<Pos, nat>, root: nat, segments: seq<Segment>) {
    forall v: nat :: v < Pages(ImageSize(segments)) ==>
      PteFlags(Leaf(m, t, root, v)) == PTE_V + PTE_R + PTE_U + PermAt(segments, v)
  }

  /** The space holds the program, byte by byte and permission by permission, with a guard page and a stack above it. */
  ghost predicate ProgramIn(m: Memory, t: map<Pos, nat>, root: nat, segments: seq<Segment>, n: nat) {
    && n == Pages(ImageSize(segments)) + 2
    && (forall a: nat :: a < n * PGSIZE ==> MemByte(m, t, root, a) == ProgramByte(segments, a))
    && FlagsIn(m, t, root, segments)
    && PteFlags(Leaf(m, t, root, n - 2)) == PTE_V + PTE_R + PTE_W
    && PteFlags(Leaf(m, t, root, n - 1)) == PTE_V + PTE_R + PTE_W + PTE_U
  }

  predicate AllLoad(segments: seq<Segment>) {
    && (forall k :: 0 <= k < |segments| ==> Loads(segments[k]))
    && (forall k :: 0 <= k < |segments| && segments[k].load ==> ImageSize(segments[..k + 1]) > 0)
  }

  /** The pages that a space of n pages takes: the root, the pages, and the page-table pages for them and for the two
      special pages. */
  ghost function ExecCost(n: nat): nat {
    1 + n + |Rungs(Specials() + Between(0, n))|
  }

  /** The program can be built with the given number of free pages. */
  ghost predicate Runs(segments: seq<Segment>, free: nat) {
    AllLoad(segments) && ExecCost(Pages(ImageSize(segments)) + 2) <= free
  }

  lemma RungsOfSpecials()
    ensures |Rungs(Specials())| == 2
  {
    hide Rungs;
    RungsMore(Only(VTRAMPOLINE), Only(VTRAPFRAME));
    RungsOne(VTRAMPOLINE);
    RungsOne(VTRAPFRAME);
    assert Rungs(Specials()) == Rungs(Only(VTRAMPOLINE));
  }

  lemma ExecCostMono(n: nat, k: nat)
    requires n <= k
    ensures ExecCost(n) <= ExecCost(k) && ExecCost(n) >= 3
  {
    hide Rungs, Specials;
    RungsOfSpecials();
    var a, b := Specials() + Between(0, n), Specials() + Between(0, k);
    RungsMore(Specials(), Between(0, n));
    assert a + b == b;
    RungsMore(a, b);
    SubsetSize(Rungs(a), Rungs(b));
    SubsetSize(Rungs(Specials()), Rungs(a));
  }

  lemma LeastCost(segments: seq<Segment>, free: nat)
    requires free < 3
    ensures !Runs(segments, free)
  {
    hide ExecCost;
    ExecCostMono(Pages(ImageSize(segments)) + 2, Pages(ImageSize(segments)) + 2);
  }

  lemma FirstCost(t0: map<Pos, nat>, t: map<Pos, nat>, root: nat)
    requires FreshTables(t0, t, root, Specials())
    ensures FreshTables(t0, t, root, Specials() + Between(0, 0)) && ExecCost(0) == 3
  {
    hide Rungs, Specials;
    RungsOfSpecials();
    assert Specials() + Between(0, 0) == Specials();
  }

  lemma NoFlags(m: Memory, t: map<Pos, nat>, root: nat)
    ensures FlagsIn(m, t, root, []) && AllLoad([])
  {
  }

  /** Growing from lo to hi pages costs the difference. */
  lemma CostBetween(t0: map<Pos, nat>, t: map<Pos, nat>, root: nat, lo: nat, hi: nat)
    requires FreshTables(t0, t, root, Specials() + Between(0, lo)) && lo <= hi
    ensures ExecCost(hi) == ExecCost(lo) + Cost(t, root, Between(lo, hi))
  {
    hide Rungs, Specials, Rooted, Lacking, Between;
    var t1, a, b := t0[Pos(root, 2, 0) := root], Specials() + Between(0, lo), Between(lo, hi);
    LackingMore(t1, t, root, a, b);
    NewSpaceLacks(t0, root, a);
    NewSpaceLacks(t0, root, a + b);
    BetweenParts(lo, hi);
  }

  lemma BetweenParts(lo: nat, hi: nat)
    requires lo <= hi
    ensures Specials() + Between(0, lo) + Between(lo, hi) == Specials() + Between(0, hi)
  {
    hide Specials, Between;
  }

  lemma NextCost(t0: map<Pos, nat>, t: map<Pos, nat>, t': map<Pos, nat>, root: nat, sz: nat, sz': nat)
    requires FreshTables(t0, t, root, Specials() + Between(0, Pages(sz))) && sz <= sz'
    ensures ExecCost(Pages(sz')) == ExecCost(Pages(sz)) + Cost(t, root, Between(Pages(sz), Pages(sz')))
  {
    hide ExecCost, Cost, FreshTables;
    MorePages(sz, sz');
    CostBetween(t0, t, root, Pages(sz), Pages(sz'));
  }

  lemma NextTwo(t0: map<Pos, nat>, t: map<Pos, nat>, root: nat, n: nat)
    requires FreshTables(t0, t, root, Specials() + Between(0, n))
    ensures ExecCost(n + 2) == ExecCost(n) + Cost(t, root, Between(n, n + 2))
  {
    hide ExecCost, Cost, FreshTables;
    CostBetween(t0, t, root, n, n + 2);
  }

  lemma NextTables(t0: map<Pos, nat>, t: map<Pos, nat>, t': map<Pos, nat>, root: nat, lo: nat, hi: nat)
    requires FreshTables(t0, t, root, Specials() + Between(0, lo)) && lo <= hi && Rooted(t, t', root, Between(lo, hi))
    ensures FreshTables(t0, t', root, Specials() + Between(0, hi))
  {
    hide Rooted, Specials;
    RootedMore(t0[Pos(root, 2, 0) := root], t, t', root, Specials() + Between(0, lo), Between(lo, hi));
    BetweenParts(lo, hi);
  }

  lemma NextSize(segments: seq<Segment>, i: nat)
    requires i < |segments|
    ensures ImageSize(segments[..i + 1]) == SizeWith(ImageSize(segments[..i]), segments[i])
    ensures ImageSize(segments[..i]) <= ImageSize(segments[..i + 1]) <= ImageSize(segments)
  {
    var next := segments[..i + 1];
    assert next[..|next| - 1] == segments[..i] && next[|next| - 1] == segments[i];
    SizeGrows(segments, i + 1);
  }

  lemma {:induction false} SizeGrows(segments: seq<Segment>, i: nat)
    requires i <= |segments|
    ensures ImageSize(segments[..i]) <= ImageSize(segments)
  {
    if i < |segments| {
      var n := |segments| - 1;
      assert segments[..n][..i] == segments[..i];
      SizeGrows(segments[..n], i);
    } else {
      assert segments[..i] == segments;
    }
  }

  /** A header that fails, or the memory it lacks, keeps the whole program from being built. */
  lemma CannotRun(segments: seq<Segment>, i: nat, free: nat)
    requires i < |segments|
    requires !Loads(segments[i]) || (segments[i].load && ImageSize(segments[..i + 1]) == 0) ||
             free < ExecCost(Pages(ImageSize(segments[..i + 1])))
    ensures !Runs(segments, free)
  {
    hide ExecCost, Loads;
    NextSize(segments, i);
    MorePages(ImageSize(segments[..i + 1]), ImageSize(segments));
    ExecCostMono(Pages(ImageSize(segments[..i + 1])), Pages(ImageSize(segments)) + 2);
  }

  lemma NextFlags(m: Memory, t: map<Pos, nat>, m': Memory, t': map<Pos, nat>, root: nat, segments: seq<Segment>, i: nat)
    requires i < |segments| && AllLoad(segments[..i]) && FlagsIn(m, t, root, segments[..i])
    requires Loads(segments[i]) && (segments[i].load ==> ImageSize(segments[..i + 1]) > 0)
    requires FlagsKept(m, t, m', t', root, Pages(ImageSize(segments[..i])), Pages(ImageSize(segments[..i + 1])),
                       PTE_R + PTE_U + Flags2Perm(segments[i].flags))
    ensures AllLoad(segments[..i + 1]) && FlagsIn(m', t', root, segments[..i + 1])
  {
    hide Leaf, PteFlags, Loads, Pages, Flags2Perm, ImageSize;
    var next := segments[..i + 1];
    assert next[..|next| - 1] == segments[..i] && next[|next| - 1] == segments[i];
    forall k | 0 <= k < |next| && next[k].load ensures ImageSize(next[..k + 1]) > 0 {
      assert next[..k + 1] == segments[..k + 1];
      if k < i { assert segments[..i][..k + 1] == segments[..k + 1] && segments[..i][k] == segments[k]; }
    }
    forall k | 0 <= k < |next| ensures Loads(next[k]) { if k < i { assert segments[..i][k] == segments[k]; } }
  }

  lemma {:induction false} ImageLength(segments: seq<Segment>)
    requires SegmentsOk(segments)
    ensures |ImageOf(segments)| == Pages(ImageSize(segments))
  {
    hide Loaded, Pages;
    if segments != [] {
      var rest, s := segments[..|segments| - 1], segments[|segments| - 1];
      ImageLength(rest);
      LoadedSizes(ImageOf(rest), s, Pages(ImageSize(segments)));
      MorePages(ImageSize(rest), ImageSize(segments));
    } else {
      WholePages(0);
    }
  }

  lemma AllLoadRest(segments: seq<Segment>)
    requires segments != [] && AllLoad(segments)
    ensures AllLoad(segments[..|segments| - 1]) && Loads(segments[|segments| - 1])
  {
    hide Loads, ImageSize;
    var rest := segments[..|segments| - 1];
    forall k | 0 <= k < |rest| && rest[k].load ensures ImageSize(rest[..k + 1]) > 0 {
      assert rest[..k + 1] == segments[..k + 1];
    }
  }

  /** No header has a byte beyond the size of the program. */
  lemma {:induction false} BeyondIsZero(segments: seq<Segment>, a: nat)
    requires AllLoad(segments) && a >= ImageSize(segments)
    ensures ProgramByte(segments, a) == 0
  {
    if segments != [] {
      AllLoadRest(segments);
      BeyondIsZero(segments[..|segments| - 1], a);
    }
  }

  lemma ZeroBytes(i: nat)
    requires i < PGSIZE
    ensures PageByte(ZeroPage(), i) == 0
  {
  }

  lemma ZerosByte(img: PageSeq, n: nat, v: nat)
    requires v < |WithZeros(img, n)|
    ensures WithZeros(img, n)[v] == if v < |img| then img[v] else ZeroPage()
  {
  }

  /** The words of the image are the bytes of the program. */
  lemma {:induction false} ImageBytes(segments: seq<Segment>, a: nat)
    requires SegmentsOk(segments) && AllLoad(segments) && a < Pages(ImageSize(segments)) * PGSIZE
    ensures a / PGSIZE < |ImageOf(segments)|
    ensures PageByte(ImageOf(segments)[a / PGSIZE], a % PGSIZE) == ProgramByte(segments, a)
    decreases |segments|, 0
  {
    hide PageByte, Loaded, Pages, FileByte, Written, WithZeros;
    ImageLength(segments);
    if segments != [] {
      var rest, s, n := segments[..|segments| - 1], segments[|segments| - 1], Pages(ImageSize(segments));
      AllLoadRest(segments);
      ImageLength(rest);
      if !s.load {
        LoadedNone(ImageOf(rest), s);
        ImageBytes(rest, a);
      } else {
        ZeroSizes(ImageOf(rest), n);
        LoadedIs(ImageOf(rest), s, n);
        MorePages(ImageSize(rest), ImageSize(segments));
        SegmentFits(s, ImageSize(segments));
        WrittenByte(WithZeros(ImageOf(rest), n), s.vaddr / PGSIZE, s.pages, s.filesz, a);
        WiderByte(rest, n, a);
      }
    }
  }

  lemma {:induction false} WiderByte(segments: seq<Segment>, n: nat, a: nat)
    requires SegmentsOk(segments) && AllLoad(segments) && a < n * PGSIZE && Pages(ImageSize(segments)) <= n
    ensures a / PGSIZE < |WithZeros(ImageOf(segments), n)| && |WithZeros(ImageOf(segments), n)[a / PGSIZE]| == 512
    ensures PageByte(WithZeros(ImageOf(segments), n)[a / PGSIZE], a % PGSIZE) == ProgramByte(segments, a)
    decreases |segments|, 1
  {
    hide PageByte, WithZeros, ImageOf, ProgramByte, PGROUNDUP;
    var img := ImageOf(segments);
    ImageLength(segments);
    ZeroSizes(img, n);
    ZerosByte(img, n, a / PGSIZE);
    if a / PGSIZE < |img| {
      ImageBytes(segments, a);
    } else {
      ZeroBytes(a % PGSIZE);
      RoundUpAligned(ImageSize(segments));
      BeyondIsZero(segments, a);
    }
  }

  lemma ProgramThere(m0: Memory, t0: map<Pos, nat>, m: Memory, o: map<nat, Owner>, t: map<Pos, nat>, root: nat,
                     segments: seq<Segment>, n: nat)
    requires SegmentsOk(segments) && AllLoad(segments) && FlagsIn(m0, t0, root, segments)
    requires n == Pages(ImageSize(segments)) + 2
    requires StackFlags(m0, t0, m, t, root, Pages(ImageSize(segments)))
    requires ImageIs(m, o, t, root, WithZeros(ImageOf(segments), n))
    ensures ProgramIn(m, t, root, segments, n)
  {
    hide Leaf, PteFlags, MemByte, PageByte, ImageIs, Pages, ImageOf, ImageSize, ProgramByte, PermAt;
    var img := WithZeros(ImageOf(segments), n);
    ImageLength(segments);
    ZeroSizes(ImageOf(segments), n);
    forall a: nat | a < n * PGSIZE ensures MemByte(m, t, root, a) == ProgramByte(segments, a) {
      ImageByte(m, o, t, root, img, a);
      WiderByte(segments, n, a);
    }
  }

  lemma EmptyImage(m: Memory, o: map<nat, Owner>, t: map<Pos, nat>, root: nat)
    requires SpaceAt(m, o, t, root, 0)
    ensures ImageOk(m, o, t, root, 0)
  {
  }

  /** The `bad` label of kexec. */
  method Abandon(ram: Ram, root: nat, sz: nat, ghost m0: Memory, ghost o0: map<nat, Owner>, ghost t0: map<Pos, nat>)
    requires ram.Valid() && sz <= TRAPFRAME && SpaceAt(ram.mem, ram.owner, ram.tables, root, Pages(sz))
    requires NoPages(o0, root)
    requires StaysInside(m0, o0, t0, ram.mem, ram.owner, ram.tables, root)
    modifies ram
    ensures ram.Valid() && ram.owner == o0 && NoRoot(o0, root)
    ensures Apart(m0, o0, t0, ram.mem, ram.tables, root)
  {
    hide Shape, Ram.AllocOk, SpaceAt, StaysInside, NoPages, NoRoot, Apart, Pages, Leaf, Released;
    ghost var m1, o1, t1 := ram.mem, ram.owner, ram.tables;
    StaysParts(m0, o0, t0, ram.mem, ram.owner, ram.tables, root);
    NoPagesNoRoot(o0, root);
    ReleasedUndoes(o0, ram.owner, root);
    ProcFreePagetable(ram, root, sz);
    ApartTrans(m0, o0, t0, m1, o1, t1, ram.mem, ram.tables, root);
  }

  /** The space `old` was freed and `root` is new; every other space is as it was. */
  ghost predicate Replaced(m0: Memory, o0: map<nat, Owner>, t0: map<Pos, nat>, m1: Memory, o1: map<nat, Owner>,
                           t1: map<Pos, nat>, oldroot: nat, root: nat) {
    && root != oldroot && o1.Keys == o0.Keys && NoPages(o0, root) && NoPages(o1, oldroot)
    && (forall q :: q in o0 && o1[q] != o0[q] ==> OfSpace(o0[q], oldroot) && OfSpace(o1[q], root))
    && (forall r :: r != oldroot && r != root ==> SameSpace(m0, o0, t0, m1, t1, r))
  }

  /** kexec: on failure the process keeps its old space, translation by translation and word by word, and every page
      taken is returned; on success the old space is gone, and neither outcome touches any other space. */
  method Kexec(ram: Ram, oldroot: nat, oldsz: nat, segments: seq<Segment>, argsFit: bool, trampoline: nat,
               trapframe: nat)
    returns (ok: bool, root: nat, sz: nat, ghost tried: nat)
    requires ram.Valid() && oldsz <= TRAPFRAME && SpaceAt(ram.mem, ram.owner, ram.tables, oldroot, Pages(oldsz))
    requires trampoline % PGSIZE == 0 && trapframe % PGSIZE == 0
    requires forall k :: 0 <= k < |segments| ==> SegmentOk(segments[k])
    modifies ram
    ensures ram.Valid() && sz <= TRAPFRAME && SpaceAt(ram.mem, ram.owner, ram.tables, root, Pages(sz))
    ensures !ok ==> root == oldroot && sz == oldsz && ram.owner == old(ram.owner)
    ensures !ok ==> NoRoot(old(ram.owner), tried) &&
                    Apart(old(ram.mem), old(ram.owner), old(ram.tables), ram.mem, ram.tables, tried)
    ensures !ok ==> SameSpace(old(ram.mem), old(ram.owner), old(ram.tables), ram.mem, ram.tables, oldroot)
    ensures ok ==>
              Replaced(old(ram.mem), old(ram.owner), old(ram.tables), ram.mem, ram.owner, ram.tables, oldroot, root)
    ensures ok ==> SegmentsOk(segments) && sz == PGROUNDUP(ImageSize(segments)) + 2 * PGSIZE
    ensures ok ==> ImageIs(ram.mem, ram.owner, ram.tables, root, WithZeros(ImageOf(segments), Pages(sz)))
    ensures ok <==> Runs(segments, |old(ram.free)|) && argsFit
    ensures ok ==> ProgramIn(ram.mem, ram.tables, root, segments, Pages(sz))
  {
    hide Shape, Ram.AllocOk, SpaceAt, StaysInside, NoPages, NoRoot, Apart, SegmentOk, Pages, Leaf, Released, SameSpace,
        Replaced, ImageIs, WithZeros, PGROUNDUP, Runs, ProgramIn;
    ghost var m0, o0, t0 := ram.mem, ram.owner, ram.tables;
    ValidShape(ram);
    root, sz, tried := BuildImage(ram, segments, argsFit, trampoline, trapframe);
    ValidShape(ram);
    if root == 0 {
      NewRootDiffers(m0, o0, t0, oldroot, Pages(oldsz), tried);
      ApartIsSame(m0, o0, t0, ram.mem, ram.tables, tried, oldroot);
      SameOwnersThere(m0, o0, t0, ram.mem, ram.tables, oldroot, Pages(oldsz));
      return false, oldroot, oldsz, tried;
    }
    ok := true;
    ghost var m1, o1, t1 := ram.mem, ram.owner, ram.tables;
    OldSpaceThere(m0, o0, t0, m1, o1, t1, oldroot, root, Pages(oldsz));
    ProcFreePagetable(ram, oldroot, oldsz);
    ValidShape(ram);
    NewSpaceThere(m1, o1, t1, ram.mem, ram.owner, ram.tables, root, oldroot, Pages(sz));
    Exchanged(m0, o0, t0, m1, o1, t1, ram.mem, ram.owner, ram.tables, root, oldroot);
    ImageStays(m1, o1, t1, ram.mem, ram.owner, ram.tables, root, oldroot, WithZeros(ImageOf(segments), Pages(sz)));
    ProgramStays(m1, o1, t1, ram.mem, ram.owner, ram.tables, root, segments, Pages(sz));
  }

  lemma ProgramStays(m0: Memory, o0: map<nat, Owner>, t0: map<Pos, nat>, m1: Memory, o1: map<nat, Owner>,
                     t1: map<Pos, nat>, root: nat, segments: seq<Segment>, n: nat)
    requires SegmentsOk(segments) && ProgramIn(m0, t0, root, segments, n) && SameSpace(m0, o0, t0, m1, t1, root)
    requires ImageIs(m0, o0, t0, root, WithZeros(ImageOf(segments), n))
    requires ImageIs(m1, o1, t1, root, WithZeros(ImageOf(segments), n))
    ensures ProgramIn(m1, t1, root, segments, n)
  {
    hide Leaf, PteFlags, MemByte, PageByte, ImageIs, ImageOf, ImageSize, ProgramByte, PermAt, Pages;
    var img := WithZeros(ImageOf(segments), n);
    ImageLength(segments);
    ZeroSizes(ImageOf(segments), n);
    forall a: nat | a < n * PGSIZE ensures MemByte(m1, t1, root, a) == ProgramByte(segments, a) {
      ImageByte(m0, o0, t0, root, img, a);
      ImageByte(m1, o1, t1, root, img, a);
    }
  }

  lemma SameOwnersThere(m0: Memory, o: map<nat, Owner>, t0: map<Pos, nat>, m1: Memory, t1: map<Pos, nat>, r: nat,
                        n: nat)
    requires Shape(m0, o, t0) && Shape(m1, o, t1) && SpaceAt(m0, o, t0, r, n) && SameSpace(m0, o, t0, m1, t1, r)
    ensures SpaceAt(m1, o, t1, r, n)
  {
    hide Shape, SpaceAt, SameSpace;
    StillThere(m0, o, t0, m1, o, t1, r, n);
  }

  lemma OldSpaceThere(m0: Memory, o0: map<nat, Owner>, t0: map<Pos, nat>, m1: Memory, o1: map<nat, Owner>,
                      t1: map<Pos, nat>,
                      r: nat, root: nat, n: nat)
    requires Shape(m0, o0, t0) && Shape(m1, o1, t1) && SpaceAt(m0, o0, t0, r, n) && NoPages(o0, root)
    requires StaysInside(m0, o0, t0, m1, o1, t1, root)
    ensures r != root && SpaceAt(m1, o1, t1, r, n) && SameSpace(m0, o0, t0, m1, t1, r)
  {
    hide Shape, SpaceAt, SameSpace, Apart;
    NoPagesNoRoot(o0, root);
    NewRootDiffers(m0, o0, t0, r, n, root);
    ApartIsSame(m0, o0, t0, m1, t1, root, r);
    StillThere(m0, o0, t0, m1, o1, t1, r, n);
  }

  lemma NewSpaceThere(m0: Memory, o0: map<nat, Owner>, t0: map<Pos, nat>, m1: Memory, o1: map<nat, Owner>,
                      t1: map<Pos, nat>,
                      r: nat, gone: nat, n: nat)
    requires Shape(m0, o0, t0) && Shape(m1, o1, t1) && SpaceAt(m0, o0, t0, r, n) && r != gone
    requires o1 == Released(o0, gone) && Apart(m0, o0, t0, m1, t1, gone)
    ensures SpaceAt(m1, o1, t1, r, n) && SameSpace(m0, o0, t0, m1, t1, r)
  {
    hide Shape, SpaceAt, SameSpace, Apart;
    ApartIsSame(m0, o0, t0, m1, t1, gone, r);
    StillThere(m0, o0, t0, m1, o1, t1, r, n);
  }

  lemma Exchanged(m0: Memory, o0: map<nat, Owner>, t0: map<Pos, nat>, m1: Memory, o1: map<nat, Owner>,
                  t1: map<Pos, nat>,
                  m2: Memory, o2: map<nat, Owner>, t2: map<Pos, nat>, root: nat, oldroot: nat)
    requires StaysInside(m0, o0, t0, m1, o1, t1, root) && NoPages(o0, root) && root != oldroot
    requires o2 == Released(o1, oldroot) && Apart(m1, o1, t1, m2, t2, oldroot)
    ensures Replaced(m0, o0, t0, m2, o2, t2, oldroot, root)
  {
    hide Leaf;
  }

  // ---------- what the image holds ----------

  /** The image made as large as n pages, the new ones zero. */
  ghost function WithZeros(img: PageSeq, n: nat): (r: PageSeq) {
    if n <= |img| then img else img + seq(n - |img|, _ => ZeroPage())
  }

  lemma ZeroSizes(img: PageSeq, n: nat)
    requires forall j :: 0 <= j < |img| ==> |img[j]| == 512
    ensures |WithZeros(img, n)| == (if n <= |img| then |img| else n)
    ensures forall j :: 0 <= j < |WithZeros(img, n)| ==> |WithZeros(img, n)[j]| == 512
  {
  }

  /** The size after a segment. */
  function SizeWith(sz: nat, s: Segment): nat {
    if s.load && s.vaddr + s.memsz > sz then s.vaddr + s.memsz else sz
  }

  /** The image after a segment: new pages are zero, and the segment's bytes lie over what was there. */
  ghost function Loaded(img: PageSeq, s: Segment, n: nat): PageSeq
    requires SegmentOk(s) && forall j :: 0 <= j < |img| ==> |img[j]| == 512
  {
    ZeroSizes(img, n);
    if s.load then Written(WithZeros(img, n), s.vaddr / PGSIZE, s.pages, s.filesz, |s.pages|) else img
  }

  lemma LoadedNone(img: PageSeq, s: Segment)
    requires SegmentOk(s) && !s.load && forall j :: 0 <= j < |img| ==> |img[j]| == 512
    ensures forall n :: Loaded(img, s, n) == img
  {
  }

  lemma LoadedIs(img: PageSeq, s: Segment, n: nat)
    requires SegmentOk(s) && s.load && (forall j :: 0 <= j < |img| ==> |img[j]| == 512)
    requires forall j :: 0 <= j < |WithZeros(img, n)| ==> |WithZeros(img, n)[j]| == 512
    ensures Loaded(img, s, n) == Written(WithZeros(img, n), s.vaddr / PGSIZE, s.pages, s.filesz, |s.pages|)
  {
  }

  ghost predicate SegmentsOk(segments: seq<Segment>) {
    forall k :: 0 <= k < |segments| ==> SegmentOk(segments[k])
  }

  /** What the program headers say the size of the program is, and what its pages hold. */
  function ImageSize(segments: seq<Segment>): nat {
    if segments == [] then 0 else SizeWith(ImageSize(segments[..|segments| - 1]), segments[|segments| - 1])
  }

  ghost function ImageOf(segments: seq<Segment>): (r: PageSeq)
    requires SegmentsOk(segments)
    ensures forall j :: 0 <= j < |r| ==> |r[j]| == 512
  {
    if segments == [] then []
    else
      var rest, s := segments[..|segments| - 1], segments[|segments| - 1];
      var img := ImageOf(rest);
      var r := Loaded(img, s, Pages(ImageSize(segments)));
      LoadedSizes(img, s, Pages(ImageSize(segments)));
      r
  }

  lemma LoadedSizes(img: PageSeq, s: Segment, n: nat)
    requires SegmentOk(s) && forall j :: 0 <= j < |img| ==> |img[j]| == 512
    ensures forall j :: 0 <= j < |Loaded(img, s, n)| ==> |Loaded(img, s, n)[j]| == 512
    ensures |Loaded(img, s, n)| == if s.load && n > |img| then n else |img|
  {
    ZeroSizes(img, n);
    hide Overlay;
  }

  lemma NoImage(m: Memory, o: map<nat, Owner>, t: map<Pos, nat>, root: nat)
    ensures ImageIs(m, o, t, root, [])
  {
  }

  lemma ImageNext(segments: seq<Segment>, i: nat)
    requires i < |segments| && SegmentsOk(segments) && |ImageOf(segments[..i])| == Pages(ImageSize(segments[..i]))
    ensures SegmentsOk(segments[..i + 1]) &&
            ImageSize(segments[..i + 1]) == SizeWith(ImageSize(segments[..i]), segments[i])
    ensures ImageOf(segments[..i + 1]) == Loaded(ImageOf(segments[..i]), segments[i],
                                                 Pages(ImageSize(segments[..i + 1])))
    ensures |ImageOf(segments[..i + 1])| == Pages(ImageSize(segments[..i + 1]))
  {
    hide Loaded, Pages;
    var next := segments[..i + 1];
    assert next[..|next| - 1] == segments[..i] && next[|next| - 1] == segments[i];
    LoadedSizes(ImageOf(segments[..i]), segments[i], Pages(ImageSize(next)));
    MorePages(ImageSize(segments[..i]), ImageSize(next));
  }

  /** New pages of a grown space are zero, the old ones are as they were. */
  lemma ImageWidened(m0: Memory, o0: map<nat, Owner>, t0: map<Pos, nat>, m1: Memory, o1: map<nat, Owner>,
                     t1: map<Pos, nat>,
                     root: nat, img: PageSeq, n: nat, perm: nat)
    requires perm < 1024 && ImageIs(m0, o0, t0, root, img) && Grown(m0, o0, t0, m1, o1, t1, root, |img|, n, perm)
    ensures ImageIs(m1, o1, t1, root, WithZeros(img, n))
  {
    hide Leaf, PTE2PA;
    var w := WithZeros(img, n);
    forall v: nat | v < |w| ensures |w[v]| == 512 && Holds(m1, o1, t1, root, v, w[v]) {
      if v < |img| {
        assert Holds(m0, o0, t0, root, v, img[v]);
      } else {
        assert ZeroMapped(m1, o1, t1, root, v, perm);
      }
    }
  }

  /** Taking the user's access to a page away leaves its contents. */
  lemma ImageGuarded(m0: Memory, o: map<nat, Owner>, t: map<Pos, nat>, m1: Memory, root: nat, img: PageSeq, g: nat,
                     e: nat)
    requires ImageIs(m0, o, t, root, img) && OneLeaf(m0, t, m1, t, root, g, e) &&
             PTE2PA(e) == PTE2PA(Leaf(m0, t, root, g))
    requires forall q :: q in o && o[q].User? && q in m0 ==> q in m1 && m1[q] == m0[q]
    ensures ImageIs(m1, o, t, root, img)
  {
    hide Leaf, PTE2PA;
    forall v: nat | v < |img| ensures Holds(m1, o, t, root, v, img[v]) {
      assert Holds(m0, o, t, root, v, img[v]);
    }
  }

  /** Freeing another space leaves the image as it is. */
  lemma ImageStays(m0: Memory, o0: map<nat, Owner>, t0: map<Pos, nat>, m1: Memory, o1: map<nat, Owner>,
                   t1: map<Pos, nat>,
                   root: nat, gone: nat, img: PageSeq)
    requires ImageIs(m0, o0, t0, root, img) && SameSpace(m0, o0, t0, m1, t1, root)
    requires o1 == Released(o0, gone) && root != gone
    ensures ImageIs(m1, o1, t1, root, img)
  {
    hide Leaf, PTE2PA;
    forall v: nat | v < |img| ensures Holds(m1, o1, t1, root, v, img[v]) {
      assert Holds(m0, o0, t0, root, v, img[v]);
    }
  }
}
