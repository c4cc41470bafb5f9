/** Many address spaces side by side: whatever the processes do, in any order, every page is accounted for, no
    process touches the memory of another, and once the last space is freed every page is where it was
    (kernel/vm.c, the memory parts of kernel/proc.c and kernel/exec.c). */
module Population {
  import opened PhysicalMemory
  import opened SetSize
  import opened VirtualMemory
  import opened AddressSpace
  import opened ProcessMemory
  import opened Exec

  /** p->pagetable and p->sz. */
  datatype Space = Space(root: nat, sz: nat)

  /** What can happen to the memory of the process in slot i. */
  datatype Step =
    | Create(i: nat)                                               // allocproc
    | Grow(i: nat, n: int32)                                       // sbrk, eager growth or shrink
    | Lazy(i: nat, more: nat)                                      // sbrklazy: only the size changes
    | Fault(i: nat, va: nat)                                       // vmfault
    | Store(i: nat, va: nat, w: seq<nat>)                          // a page is written through the page table
    | Fork(i: nat, j: nat)                                         // kfork into the unused slot j
    | Replace(i: nat, segments: seq<Segment>, argsFit: bool)       // kexec
    | Reap(i: nat)                                                 // freeproc

  ghost predicate StepOk(step: Step) {
    match step
    case Store(_, _, w) => |w| == 512
    case Replace(_, segments, _) => forall k :: 0 <= k < |segments| ==> SegmentOk(segments[k])
    case _ => true
  }

  /** The slot whose space a step may change. */
  function Subject(step: Step): nat {
    if step.Fork? then step.j else step.i
  }

  /** Every live space is in order, and no two share a root. */
  ghost predicate LiveOk(m: Memory, o: map<nat, Owner>, t: map<Pos, nat>, live: map<nat, Space>) {
    && (forall i :: i in live ==> live[i].sz <= TRAPFRAME && SpaceAt(m, o, t, live[i].root, Pages(live[i].sz)))
    && (forall i, j :: i in live && j in live && live[i].root == live[j].root ==> i == j)
  }

  ghost predicate OfLive(w: Owner, live: map<nat, Space>) {
    exists i :: i in live && OfSpace(w, live[i].root)
  }

  /** The page is the trapframe of some slot. */
  ghost predicate IsFrame(q: nat, frames: map<nat, nat>) {
    exists i :: i in frames && frames[i] == q
  }

  /** Every slot that has a trapframe page has one of its own. */
  ghost predicate FramesOk(o0: map<nat, Owner>, o: map<nat, Owner>, frames: map<nat, nat>) {
    && (forall i :: i in frames ==> frames[i] in o && o[frames[i]] == Taken && frames[i] in o0 && o0[frames[i]].Free?)
    && (forall i, j :: i in frames && j in frames && frames[i] == frames[j] ==> i == j)
  }

  /** A page has the owner it had at the start, or was free then and now belongs to a live space or is the trapframe of
      a slot; none of the live spaces is older than that. */
  ghost predicate Accounted(o0: map<nat, Owner>, o: map<nat, Owner>, live: map<nat, Space>, frames: map<nat, nat>) {
    && o.Keys == o0.Keys
    && (forall q :: q in o && o[q] != o0[q] ==>
          o0[q].Free? && (OfLive(o[q], live) || (o[q] == Taken && IsFrame(q, frames))))
    && (forall i :: i in live ==> NoPages(o0, live[i].root))
    && FramesOk(o0, o, frames)
  }

  /** Only slot i changed: every other space is the same, translation by translation and word by word. */
  ghost predicate Undisturbed(m0: Memory, o0: map<nat, Owner>, t0: map<Pos, nat>, m1: Memory, t1: map<Pos, nat>,
                              live: map<nat, Space>, live': map<nat, Space>, i: nat) {
    && (forall k :: k in live && k != i ==>
                      k in live' && live'[k] == live[k] && SameSpace(m0, o0, t0, m1, t1, live[k].root))
    && (forall k :: k in live' && k != i ==> k in live)
  }

  // ---- what each step does to its own process ----

  ghost predicate Created(live: map<nat, Space>, live': map<nat, Space>, free0: nat, m1: Memory, t1: map<Pos, nat>,
                          i: nat) {
    && (i in live' <==> 4 <= free0)
    && (i in live' ==> live'[i].sz == 0 && forall v: nat :: v < USERTOP ==> Leaf(m1, t1, live'[i].root, v) == 0)
  }

  /** Growth by n > 0 succeeds exactly below the limit and with memory enough. */
  ghost predicate CanGrow(sz: nat, n: int, root: nat, t0: map<Pos, nat>, free0: nat)
    requires n > 0
  {
    sz + n <= TRAPFRAME && Cost(t0, root, Between(Pages(sz), Pages(sz + n))) <= free0
  }

  ghost predicate DidGrow(n: int, was: Space, now: Space, m0: Memory, o0: map<nat, Owner>, t0: map<Pos, nat>,
                          free0: nat,
                          m1: Memory, o1: map<nat, Owner>, t1: map<Pos, nat>) {
    && now.root == was.root
    && (n > 0 && CanGrow(was.sz, n, was.root, t0, free0) ==>
          && now.sz == was.sz + n
          && Grown(m0, o0, t0, m1, o1, t1, was.root, Pages(was.sz), Pages(was.sz + n), PTE_R + PTE_U + PTE_W))
    && (n > 0 && !CanGrow(was.sz, n, was.root, t0, free0) ==> now == was && SameLeaves(m0, t0, m1, t1))
    && (n < 0 <= was.sz + n ==>
          now.sz == was.sz + n && t1 == t0 && Cleared(m0, o0, m1, o1, t0, was.root, Pages(now.sz), Pages(was.sz), true))
    && (n == 0 || was.sz + n < 0 ==> now == was && m1 == m0 && o1 == o0 && t1 == t0)
  }

  /** A page fault below the size on a page without memory, when there is memory for it. */
  ghost predicate CanFault(s: Space, va: nat, m0: Memory, t0: map<Pos, nat>, free0: nat) {
    va < s.sz && Leaf(m0, t0, s.root, va / PGSIZE) == 0 && Cost(t0, s.root, Only(va / PGSIZE)) <= free0
  }

  ghost predicate DidFault(va: nat, s: Space, m0: Memory, t0: map<Pos, nat>, free0: nat, m1: Memory,
                           o1: map<nat, Owner>,
                           t1: map<Pos, nat>) {
    && (forall v: nat :: !(CanFault(s, va, m0, t0, free0) && v == va / PGSIZE) ==>
                           Leaf(m1, t1, s.root, v) == Leaf(m0, t0, s.root, v))
    && (CanFault(s, va, m0, t0, free0) ==> ZeroMapped(m1, o1, t1, s.root, va / PGSIZE, PTE_W + PTE_U + PTE_R))
  }

  /** The user can write the page at va. */
  ghost predicate CanStore(va: nat, root: nat, m0: Memory, t0: map<Pos, nat>) {
    va < TRAPFRAME && var e := Leaf(m0, t0, root, va / PGSIZE); PteV(e) && PteU(e) && PteW(e)
  }

  ghost predicate DidStore(va: nat, w: seq<nat>, root: nat, m0: Memory, o: map<nat, Owner>, t: map<Pos, nat>,
                           m1: Memory) {
    && (CanStore(va, root, m0, t) ==>
          && Holds(m1, o, t, root, va / PGSIZE, w)
          && PTE2PA(Leaf(m0, t, root, va / PGSIZE)) in m0 && m1 == m0[PTE2PA(Leaf(m0, t, root, va / PGSIZE)) := w])
    && (!CanStore(va, root, m0, t) ==> m1 == m0)
  }

  /** The pages a child takes: a trapframe page, the root, a frame for each page the parent has mapped, and the
      page-table pages for these and for the two special pages. */
  ghost function ForkCost(vs: set<nat>): nat {
    2 + |vs| + |Rungs(Specials() + vs)|
  }

  ghost predicate DidFork(live: map<nat, Space>, live': map<nat, Space>, m0: Memory, t0: map<Pos, nat>, free0: nat,
                          m1: Memory, o1: map<nat, Owner>, t1: map<Pos, nat>, i: nat, j: nat)
    requires i in live
  {
    && (j in live' <==> ForkCost(MappedBelow(m0, t0, live[i].root, Pages(live[i].sz))) <= free0)
    && (j in live' ==>
          && live'[j].sz == live[i].sz
          && forall v: nat :: v < Pages(live[i].sz) ==> CopiedPage(m0, t0, m1, o1, t1, live[i].root, live'[j].root, v))
  }

  ghost predicate DidReplace(segments: seq<Segment>, argsFit: bool, was: Space, now: Space, m0: Memory,
                             o0: map<nat, Owner>, t0: map<Pos, nat>, free0: nat, m1: Memory, t1: map<Pos, nat>) {
    && (Runs(segments, free0) && argsFit ==>
          now.sz == PGROUNDUP(ImageSize(segments)) + 2 * PGSIZE && ProgramIn(m1, t1, now.root, segments, Pages(now.sz)))
    && (!(Runs(segments, free0) && argsFit) ==> now == was && SameSpace(m0, o0, t0, m1, t1, was.root))
  }

  /** What a step does to the process it is about. */
  ghost predicate Did(step: Step, live: map<nat, Space>, live': map<nat, Space>, m0: Memory, o0: map<nat, Owner>,
                      t0: map<Pos, nat>, free0: nat, m1: Memory, o1: map<nat, Owner>, t1: map<Pos, nat>) {
    match step
    case Create(i) => i !in live ==> Created(live, live', free0, m1, t1, i)
    case Fork(i, j) => i in live && j !in live ==> DidFork(live, live', m0, t0, free0, m1, o1, t1, i, j)
    case Reap(i) => live' == live - {i}
    case Replace(i, segments, argsFit) =>
      i in live ==> i in live' && DidReplace(segments, argsFit, live[i], live'[i], m0, o0, t0, free0, m1, t1)
    case _ => step.i in live ==>
        step.i in live' && DidWork(step, live[step.i], live'[step.i], m0, o0, t0, free0, m1, o1, t1)
  }

  ghost predicate DidWork(step: Step, was: Space, now: Space, m0: Memory, o0: map<nat, Owner>, t0: map<Pos, nat>,
                          free0: nat, m1: Memory, o1: map<nat, Owner>, t1: map<Pos, nat>) {
    match step
    case Grow(_, n) => DidGrow(n, was, now, m0, o0, t0, free0, m1, o1, t1)
    case Lazy(_, more) =>
      now == Space(was.root, if was.sz + more <= TRAPFRAME then was.sz + more else was.sz) && m1 == m0 && t1 == t0
    case Fault(_, va) => now == was && DidFault(va, was, m0, t0, free0, m1, o1, t1)
    case Store(_, va, w) => now == was && t1 == t0 && DidStore(va, w, was.root, m0, o0, t0, m1)
    case _ => true
  }

  lemma AllReturned(o0: map<nat, Owner>, o: map<nat, Owner>)
    requires Accounted(o0, o, map[], map[])
    ensures o == o0
  {
  }

  // ---- one space changes ----

  lemma StayedAccounts(init: map<nat, Owner>, frames: map<nat, nat>, o0: map<nat, Owner>, o1: map<nat, Owner>,
                       live: map<nat, Space>, i: nat,
                       sz: nat)
    requires Accounted(init, o0, live, frames) && i in live && OnlySpace(o0, o1, live[i].root)
    ensures Accounted(init, o1, live[i := Space(live[i].root, sz)], frames)
  {
    var live' := live[i := Space(live[i].root, sz)];
    forall q | q in o1 && o1[q] != init[q]
      ensures init[q].Free? && (OfLive(o1[q], live') || (o1[q] == Taken && IsFrame(q, frames)))
    {
      if o1[q] != o0[q] {
        assert i in live' && OfSpace(o1[q], live'[i].root);
      } else if OfLive(o0[q], live) {
        var k :| k in live && OfSpace(o0[q], live[k].root);
        assert k in live' && OfSpace(o1[q], live'[k].root);
      }
    }
  }

  lemma OtherStays(m0: Memory, o0: map<nat, Owner>, t0: map<Pos, nat>, m1: Memory, o1: map<nat, Owner>,
                   t1: map<Pos, nat>,
                   root: nat, r: nat, n: nat)
    requires Shape(m0, o0, t0) && Shape(m1, o1, t1) && StaysInside(m0, o0, t0, m1, o1, t1, root) && r != root
    requires SpaceAt(m0, o0, t0, r, n)
    ensures SpaceAt(m1, o1, t1, r, n) && SameSpace(m0, o0, t0, m1, t1, r)
  {
    hide Shape, SpaceAt, SameSpace, Apart;
    ApartIsSame(m0, o0, t0, m1, t1, root, r);
    StillThere(m0, o0, t0, m1, o1, t1, r, n);
  }

  lemma Stayed(init: map<nat, Owner>, frames: map<nat, nat>, m0: Memory, o0: map<nat, Owner>, t0: map<Pos, nat>,
               m1: Memory,
               o1: map<nat, Owner>,
               t1: map<Pos, nat>, live: map<nat, Space>, i: nat, sz: nat)
    requires Shape(m0, o0, t0) && Shape(m1, o1, t1) && LiveOk(m0, o0, t0, live) && Accounted(init, o0, live, frames) &&
             i in live
    requires StaysInside(m0, o0, t0, m1, o1, t1, live[i].root) && sz <= TRAPFRAME
    requires SpaceAt(m1, o1, t1, live[i].root, Pages(sz))
    ensures LiveOk(m1, o1, t1, live[i := Space(live[i].root, sz)])
    ensures Accounted(init, o1, live[i := Space(live[i].root, sz)], frames)
    ensures Undisturbed(m0, o0, t0, m1, t1, live, live[i := Space(live[i].root, sz)], i)
  {
    hide Shape, SpaceAt, StaysInside, SameSpace, Pages, Accounted;
    StaysParts(m0, o0, t0, m1, o1, t1, live[i].root);
    StayedAccounts(init, frames, o0, o1, live, i, sz);
    forall k | k in live && k != i
      ensures SpaceAt(m1, o1, t1, live[k].root, Pages(live[k].sz)) && SameSpace(m0, o0, t0, m1, t1, live[k].root)
    {
      OtherStays(m0, o0, t0, m1, o1, t1, live[i].root, live[k].root, Pages(live[k].sz));
    }
  }

  // ---- a space is born ----

  lemma BornAccounts(init: map<nat, Owner>, frames: map<nat, nat>, o0: map<nat, Owner>, o1: map<nat, Owner>,
                     live: map<nat, Space>, j: nat,
                     root: nat, sz: nat)
    requires Accounted(init, o0, live, frames) && j !in live && OnlySpace(o0, o1, root) && NoPages(o0, root)
    ensures Accounted(init, o1, live[j := Space(root, sz)], frames)
  {
    var live' := live[j := Space(root, sz)];
    assert NoPages(init, root);
    forall q | q in o1 && o1[q] != init[q]
      ensures init[q].Free? && (OfLive(o1[q], live') || (o1[q] == Taken && IsFrame(q, frames)))
    {
      if o1[q] != o0[q] {
        assert j in live' && OfSpace(o1[q], live'[j].root);
      } else if OfLive(o0[q], live) {
        var k :| k in live && OfSpace(o0[q], live[k].root);
        assert k in live' && OfSpace(o1[q], live'[k].root);
      }
    }
  }

  lemma Born(init: map<nat, Owner>, frames: map<nat, nat>, m0: Memory, o0: map<nat, Owner>, t0: map<Pos, nat>,
             m1: Memory, o1: map<nat, Owner>,
             t1: map<Pos, nat>, live: map<nat, Space>, j: nat, root: nat, sz: nat)
    requires Shape(m0, o0, t0) && Shape(m1, o1, t1) && LiveOk(m0, o0, t0, live) && Accounted(init, o0, live, frames) &&
             j !in live
    requires StaysInside(m0, o0, t0, m1, o1, t1, root) && NoPages(o0, root) && sz <= TRAPFRAME
    requires SpaceAt(m1, o1, t1, root, Pages(sz))
    ensures LiveOk(m1, o1, t1, live[j := Space(root, sz)]) && Accounted(init, o1, live[j := Space(root, sz)], frames)
    ensures Undisturbed(m0, o0, t0, m1, t1, live, live[j := Space(root, sz)], j)
  {
    hide Shape, SpaceAt, StaysInside, SameSpace, Pages, Accounted, NoPages, LiveOk, Undisturbed;
    StaysParts(m0, o0, t0, m1, o1, t1, root);
    BornAccounts(init, frames, o0, o1, live, j, root, sz);
    forall k | k in live
      ensures live[k].root != root
      ensures SpaceAt(m1, o1, t1, live[k].root, Pages(live[k].sz)) && SameSpace(m0, o0, t0, m1, t1, live[k].root)
    {
      LiveHere(m0, o0, t0, live, k);
      OldSpaceThere(m0, o0, t0, m1, o1, t1, live[k].root, root, Pages(live[k].sz));
    }
    OneMoreLive(m0, o0, t0, m1, o1, t1, live, j, root, sz);
  }

  lemma OneMoreLive(m0: Memory, o0: map<nat, Owner>, t0: map<Pos, nat>, m1: Memory, o1: map<nat, Owner>,
                    t1: map<Pos, nat>, live: map<nat, Space>, j: nat, root: nat, sz: nat)
    requires LiveOk(m0, o0, t0, live) && j !in live && sz <= TRAPFRAME && SpaceAt(m1, o1, t1, root, Pages(sz))
    requires forall k :: k in live ==> live[k].root != root
    requires forall k :: k in live ==> SpaceAt(m1, o1, t1, live[k].root, Pages(live[k].sz))
    requires forall k :: k in live ==> SameSpace(m0, o0, t0, m1, t1, live[k].root)
    ensures LiveOk(m1, o1, t1, live[j := Space(root, sz)])
    ensures Undisturbed(m0, o0, t0, m1, t1, live, live[j := Space(root, sz)], j)
  {
    hide SpaceAt, SameSpace, Pages;
  }

  // ---- a space is freed ----

  lemma DiedAccounts(init: map<nat, Owner>, frames: map<nat, nat>, o0: map<nat, Owner>, live: map<nat, Space>, i: nat)
    requires Accounted(init, o0, live, frames) && i in live
    ensures Accounted(init, Released(o0, live[i].root), live - {i}, frames)
  {
    var o1, live' := Released(o0, live[i].root), live - {i};
    forall q | q in o1 && o1[q] != init[q]
      ensures init[q].Free? && (OfLive(o1[q], live') || (o1[q] == Taken && IsFrame(q, frames)))
    {
      assert !OfSpace(o0[q], live[i].root) && o1[q] == o0[q];
      if OfLive(o0[q], live) {
        var k :| k in live && OfSpace(o0[q], live[k].root);
        assert k in live' && OfSpace(o1[q], live'[k].root);
      }
    }
  }

  lemma Died(init: map<nat, Owner>, frames: map<nat, nat>, m0: Memory, o0: map<nat, Owner>, t0: map<Pos, nat>,
             m1: Memory, o1: map<nat, Owner>,
             t1: map<Pos, nat>, live: map<nat, Space>, i: nat)
    requires Shape(m0, o0, t0) && Shape(m1, o1, t1) && LiveOk(m0, o0, t0, live) && Accounted(init, o0, live, frames) &&
             i in live
    requires o1 == Released(o0, live[i].root) && Apart(m0, o0, t0, m1, t1, live[i].root)
    ensures LiveOk(m1, o1, t1, live - {i}) && Accounted(init, o1, live - {i}, frames)
    ensures Undisturbed(m0, o0, t0, m1, t1, live, live - {i}, i)
  {
    hide Shape, SpaceAt, Apart, SameSpace, Pages, Accounted, Released;
    DiedAccounts(init, frames, o0, live, i);
    forall k | k in live && k != i
      ensures SpaceAt(m1, o1, t1, live[k].root, Pages(live[k].sz)) && SameSpace(m0, o0, t0, m1, t1, live[k].root)
    {
      NewSpaceThere(m0, o0, t0, m1, o1, t1, live[k].root, live[i].root, Pages(live[k].sz));
    }
  }

  // ---- a space is replaced ----

  lemma SwappedAccounts(init: map<nat, Owner>, frames: map<nat, nat>, m0: Memory, o0: map<nat, Owner>,
                        t0: map<Pos, nat>, m1: Memory,
                        o1: map<nat, Owner>, t1: map<Pos, nat>, live: map<nat, Space>, i: nat, root: nat, sz: nat)
    requires Accounted(init, o0, live, frames) && i in live && Replaced(m0, o0, t0, m1, o1, t1, live[i].root, root)
    requires forall k :: k in live && k != i ==> live[k].root != live[i].root
    ensures Accounted(init, o1, live[i := Space(root, sz)], frames)
  {
    hide SameSpace;
    var live' := live[i := Space(root, sz)];
    assert NoPages(init, root);
    forall q | q in o1 && o1[q] != init[q]
      ensures init[q].Free? && (OfLive(o1[q], live') || (o1[q] == Taken && IsFrame(q, frames)))
    {
      if o1[q] != o0[q] {
        assert i in live' && OfSpace(o1[q], live'[i].root);
      } else if OfLive(o0[q], live) {
        var k :| k in live && OfSpace(o0[q], live[k].root);
        assert k != i;
        assert k in live' && OfSpace(o1[q], live'[k].root);
      }
    }
  }

  lemma Swapped(init: map<nat, Owner>, frames: map<nat, nat>, m0: Memory, o0: map<nat, Owner>, t0: map<Pos, nat>,
                m1: Memory,
                o1: map<nat, Owner>,
                t1: map<Pos, nat>, live: map<nat, Space>, i: nat, root: nat, sz: nat)
    requires Shape(m0, o0, t0) && Shape(m1, o1, t1) && LiveOk(m0, o0, t0, live) && Accounted(init, o0, live, frames) &&
             i in live
    requires Replaced(m0, o0, t0, m1, o1, t1, live[i].root, root) && sz <= TRAPFRAME
    requires SpaceAt(m1, o1, t1, root, Pages(sz))
    ensures LiveOk(m1, o1, t1, live[i := Space(root, sz)]) && Accounted(init, o1, live[i := Space(root, sz)], frames)
    ensures Undisturbed(m0, o0, t0, m1, t1, live, live[i := Space(root, sz)], i)
  {
    hide Shape, SpaceAt, SameSpace, Pages, Accounted;
    SwappedAccounts(init, frames, m0, o0, t0, m1, o1, t1, live, i, root, sz);
    forall k | k in live && k != i
      ensures live[k].root != root
      ensures SpaceAt(m1, o1, t1, live[k].root, Pages(live[k].sz)) && SameSpace(m0, o0, t0, m1, t1, live[k].root)
    {
      NoPagesNoRoot(o0, root);
      NewRootDiffers(m0, o0, t0, live[k].root, Pages(live[k].sz), root);
      StillThere(m0, o0, t0, m1, o1, t1, live[k].root, Pages(live[k].sz));
    }
  }

  // ---- nothing came of it ----

  lemma Nothing(m0: Memory, o: map<nat, Owner>, t0: map<Pos, nat>, m1: Memory, t1: map<Pos, nat>,
                live: map<nat, Space>, tried: nat)
    requires Shape(m0, o, t0) && Shape(m1, o, t1) && LiveOk(m0, o, t0, live) && NoRoot(o, tried)
    requires Apart(m0, o, t0, m1, t1, tried)
    ensures LiveOk(m1, o, t1, live) && forall i :: Undisturbed(m0, o, t0, m1, t1, live, live, i)
  {
    hide Shape, SpaceAt, Apart, SameSpace, Pages, NoRoot;
    forall k | k in live
      ensures SpaceAt(m1, o, t1, live[k].root, Pages(live[k].sz)) && SameSpace(m0, o, t0, m1, t1, live[k].root)
    {
      NewRootDiffers(m0, o, t0, live[k].root, Pages(live[k].sz), tried);
      ApartIsSame(m0, o, t0, m1, t1, tried, live[k].root);
      SameOwnersThere(m0, o, t0, m1, t1, live[k].root, Pages(live[k].sz));
    }
  }

  // ---- trapframe pages ----

  lemma FrameTaken(init: map<nat, Owner>, o: map<nat, Owner>, live: map<nat, Space>, frames: map<nat, nat>, i: nat,
                   tf: nat)
    requires Accounted(init, o, live, frames) && i !in frames && tf in o && o[tf] == Free
    ensures Accounted(init, o[tf := Taken], live, frames[i := tf])
  {
    var frames' := frames[i := tf];
    assert i in frames' && frames'[i] == tf;
    forall q | IsFrame(q, frames) ensures IsFrame(q, frames') {
      var k :| k in frames && frames[k] == q;
      assert k in frames' && frames'[k] == q;
    }
  }

  lemma FrameDropped(init: map<nat, Owner>, o: map<nat, Owner>, live: map<nat, Space>, frames: map<nat, nat>, i: nat)
    requires Accounted(init, o, live, frames) && i in frames
    ensures Accounted(init, o[frames[i] := Free], live, frames - {i})
  {
    var frames' := frames - {i};
    forall q | IsFrame(q, frames) && q != frames[i] ensures IsFrame(q, frames') {
      var k :| k in frames && frames[k] == q;
      assert k in frames' && frames'[k] == q;
    }
  }

  /** All spaces are the same. */
  ghost predicate AllSame(m0: Memory, o0: map<nat, Owner>, t0: map<Pos, nat>, m1: Memory, t1: map<Pos, nat>,
                          live: map<nat, Space>) {
    forall k :: k in live ==> SameSpace(m0, o0, t0, m1, t1, live[k].root)
  }

  /** A page of no space is taken or freed. */
  lemma LooseKeeps(m0: Memory, o0: map<nat, Owner>, t: map<Pos, nat>, m1: Memory, q: nat, w: Owner,
                   live: map<nat, Space>)
    requires Shape(m0, o0, t) && Shape(m1, o0[q := w], t) && SameLeaves(m0, t, m1, t) && LiveOk(m0, o0, t, live)
    requires q in o0 && (o0[q] == Free || o0[q] == Taken) && (w == Free || w == Taken)
    requires forall p :: p in m0 && p != q ==> p in m1 && m1[p] == m0[p]
    ensures LiveOk(m1, o0[q := w], t, live) && AllSame(m0, o0, t, m1, t, live)
  {
    hide Shape, SpaceAt, Leaf, Pages;
    forall k | k in live
      ensures SpaceAt(m1, o0[q := w], t, live[k].root, Pages(live[k].sz)) && SameSpace(m0, o0, t, m1, t, live[k].root)
    {
      StillThere(m0, o0, t, m1, o0[q := w], t, live[k].root, Pages(live[k].sz));
    }
  }

  lemma SameThrough(m0: Memory, o0: map<nat, Owner>, t0: map<Pos, nat>, m1: Memory, o1: map<nat, Owner>,
                    t1: map<Pos, nat>,
                    m2: Memory, t2: map<Pos, nat>, r: nat)
    requires SameSpace(m0, o0, t0, m1, t1, r) && SameSpace(m1, o1, t1, m2, t2, r)
    requires forall q :: q in o0 && o0[q].User? && o0[q].root == r ==> q in o1 && o1[q] == o0[q]
    ensures SameSpace(m0, o0, t0, m2, t2, r)
  {
    hide Leaf;
  }

  /** A trapframe page is taken, then slot i changes. */
  lemma TakenThen(m0: Memory, o0: map<nat, Owner>, t0: map<Pos, nat>, m1: Memory, tf: nat, m2: Memory,
                  t2: map<Pos, nat>,
                  live: map<nat, Space>, live': map<nat, Space>, i: nat)
    requires tf in o0 && o0[tf] == Free && AllSame(m0, o0, t0, m1, t0, live)
    requires Undisturbed(m1, o0[tf := Taken], t0, m2, t2, live, live', i)
    ensures Undisturbed(m0, o0, t0, m2, t2, live, live', i)
  {
    hide SameSpace;
    forall k | k in live && k != i ensures SameSpace(m0, o0, t0, m2, t2, live[k].root) {
      SameThrough(m0, o0, t0, m1, o0[tf := Taken], t0, m2, t2, live[k].root);
    }
  }

  /** A trapframe page is freed, then slot i changes. */
  lemma FreedThen(m0: Memory, o0: map<nat, Owner>, t0: map<Pos, nat>, m1: Memory, tf: nat, m2: Memory,
                  t2: map<Pos, nat>,
                  live: map<nat, Space>, live': map<nat, Space>, i: nat)
    requires tf in o0 && o0[tf] == Taken && AllSame(m0, o0, t0, m1, t0, live)
    requires Undisturbed(m1, o0[tf := Free], t0, m2, t2, live, live', i)
    ensures Undisturbed(m0, o0, t0, m2, t2, live, live', i)
  {
    hide SameSpace;
    forall k | k in live && k != i ensures SameSpace(m0, o0, t0, m2, t2, live[k].root) {
      SameThrough(m0, o0, t0, m1, o0[tf := Free], t0, m2, t2, live[k].root);
    }
  }

  /** Nothing came of it, and the trapframe page goes back. */
  lemma ThenFreed(m0: Memory, o: map<nat, Owner>, t0: map<Pos, nat>, m1: Memory, t1: map<Pos, nat>, m2: Memory,
                  live: map<nat, Space>, i: nat)
    requires (forall k :: Undisturbed(m0, o, t0, m1, t1, live, live, k)) && AllSame(m1, o, t1, m2, t1, live)
    ensures Undisturbed(m0, o, t0, m2, t1, live, live, i)
  {
    hide SameSpace;
    forall k | k in live && k != i ensures SameSpace(m0, o, t0, m2, t1, live[k].root) {
      assert Undisturbed(m0, o, t0, m1, t1, live, live, i);
      SameThrough(m0, o, t0, m1, o, t1, m2, t1, live[k].root);
    }
  }

  // ---- the steps ----

  /** A step that works on the space of slot i alone. */
  method Work(ram: Ram, live: map<nat, Space>, frames: map<nat, nat>, step: Step, ghost init: map<nat, Owner>)
    returns (live': map<nat, Space>)
    requires ram.Valid() && StepOk(step) && LiveOk(ram.mem, ram.owner, ram.tables, live)
    requires Accounted(init, ram.owner, live, frames) && step.i in live
    requires step.Grow? || step.Lazy? || step.Fault? || step.Store?
    modifies ram
    ensures ram.Valid() && LiveOk(ram.mem, ram.owner, ram.tables, live') && Accounted(init, ram.owner, live', frames)
    ensures Undisturbed(old(ram.mem), old(ram.owner), old(ram.tables), ram.mem, ram.tables, live, live', step.i)
    ensures live'.Keys == live.Keys
    ensures DidWork(step, live[step.i], live'[step.i], old(ram.mem), old(ram.owner), old(ram.tables), |old(ram.free)|,
                    ram.mem, ram.owner, ram.tables)
  {
    hide Shape, Ram.AllocOk, SpaceAt, StaysInside, Accounted, Pages, LiveOk, Undisturbed, Added, Grew, Cleared, Grown,
         SameLeaves, DidFault, DidStore, Cost, Between, Leaf;
    ghost var m0, o0, t0 := ram.mem, ram.owner, ram.tables;
    var i := step.i;
    var root, sz := live[i].root, live[i].sz;
    LiveHere(m0, o0, t0, live, i);
    ValidShape(ram);
    StaysRefl(m0, o0, t0, root);
    match step {
      case Grow(_, n) =>
        var r;
        r, sz := GrowProc(ram, root, sz, n);
      case Lazy(_, more) =>
        if sz + more <= TRAPFRAME {
          MorePages(sz, sz + more);
          MoreRoom(m0, o0, t0, root, Pages(sz), Pages(sz + more));
          sz := sz + more;
        }
      case Fault(_, va) =>
        var pa := VmFault(ram, root, va, sz);
        if pa == 0 {
          SpaceRolledBack(m0, o0, t0, ram.mem, ram.owner, ram.tables, root, Pages(sz));
          NotFaulted(m0, o0, t0, |old(ram.free)|, ram.mem, ram.owner, ram.tables, va, live[i]);
        } else {
          Faulted(m0, o0, t0, |old(ram.free)|, ram.mem, ram.owner, ram.tables, va, live[i], pa);
          PageBelow(va, sz);
          SpaceFaulted(m0, o0, t0, ram.mem, ram.owner, ram.tables, root, Pages(sz), va / PGSIZE, pa,
                       PTE_W + PTE_U + PTE_R, ZeroPage());
        }
      case Store(_, va, w) =>
        StorePage(ram, root, va, w, Pages(sz));
    }
    ValidShape(ram);
    Stayed(init, frames, m0, o0, t0, ram.mem, ram.owner, ram.tables, live, i, sz);
    live' := live[i := Space(root, sz)];
  }

  lemma LiveHere(m: Memory, o: map<nat, Owner>, t: map<Pos, nat>, live: map<nat, Space>, i: nat)
    requires LiveOk(m, o, t, live) && i in live
    ensures live[i].sz <= TRAPFRAME && SpaceAt(m, o, t, live[i].root, Pages(live[i].sz)) && Pos(live[i].root, 2, 0) in t
  {
    hide Pages;
  }

  lemma NotFaulted(m0: Memory, o0: map<nat, Owner>, t0: map<Pos, nat>, free0: nat, m1: Memory, o1: map<nat, Owner>,
                   t1: map<Pos, nat>, va: nat, s: Space)
    requires !CanFault(s, va, m0, t0, free0) && Grew(m0, o0, t0, m1, o1, t1, s.root)
    ensures DidFault(va, s, m0, t0, free0, m1, o1, t1)
  {
    hide Leaf, Cost;
  }

  lemma Faulted(m0: Memory, o0: map<nat, Owner>, t0: map<Pos, nat>, free0: nat, m1: Memory, o1: map<nat, Owner>,
                t1: map<Pos, nat>, va: nat, s: Space, pa: nat)
    requires CanFault(s, va, m0, t0, free0) && pa % PGSIZE == 0
    requires Added(m0, o0, t0, m1, o1, t1, s.root, va / PGSIZE, pa, PTE_W + PTE_U + PTE_R, ZeroPage())
    ensures DidFault(va, s, m0, t0, free0, m1, o1, t1)
  {
    hide Leaf, Cost, MakePte;
    NewlyMapped(m0, o0, t0, m1, o1, t1, s.root, va / PGSIZE, PTE_W + PTE_U + PTE_R, pa);
  }

  predicate PteW(pte: nat) { pte / 4 % 2 == 1 }

  /** The page at va is written through the page table, by the user or by copyout: a page the user may write. */
  method StorePage(ram: Ram, root: nat, va: nat, w: seq<nat>, ghost n: nat)
    requires ram.Valid() && Pos(root, 2, 0) in ram.tables && |w| == 512
    requires SpaceAt(ram.mem, ram.owner, ram.tables, root, n)
    modifies ram
    ensures ram.Valid() && SpaceAt(ram.mem, ram.owner, ram.tables, root, n)
    ensures StaysInside(old(ram.mem), old(ram.owner), old(ram.tables), ram.mem, ram.owner, ram.tables, root)
    ensures ram.tables == old(ram.tables)
    ensures DidStore(va, w, root, old(ram.mem), old(ram.owner), old(ram.tables), ram.mem)
  {
    hide Shape, Ram.AllocOk, SpaceAt, Leaf, SameLeaves, PTE2PA, PteU, On;
    StaysRefl(ram.mem, ram.owner, ram.tables, root);
    if va >= TRAPFRAME { return; }
    var pa := WalkAddr(ram, root, va);
    if PteV(Leaf(ram.mem, ram.tables, root, va / PGSIZE)) {
      NotZeroEntry(Leaf(ram.mem, ram.tables, root, va / PGSIZE));
      UserPage(ram, root, va / PGSIZE);
    }
    if pa == 0 { return; }
    ValidShape(ram);
    LeafAt(ram.mem, ram.owner, ram.tables, root, va / PGSIZE);
    var found, t, k := ram.Walk(root, va, false);
    if !PteW(ram.mem[t][k]) { return; }
    WriteFrame(ram, pa, w);
    StillLeaf(old(ram.mem), ram.tables, ram.mem, root, va / PGSIZE);
    SpaceWritten(old(ram.mem), ram.owner, ram.tables, ram.mem, root, n);
  }

  lemma StillLeaf(m0: Memory, t: map<Pos, nat>, m1: Memory, root: nat, v: nat)
    requires SameLeaves(m0, t, m1, t)
    ensures Leaf(m1, t, root, v) == Leaf(m0, t, root, v)
  {
  }

  lemma NotZeroEntry(e: nat)
    requires PteV(e)
    ensures e != 0
  {
  }

  lemma SpaceWritten(m0: Memory, o: map<nat, Owner>, t: map<Pos, nat>, m1: Memory, root: nat, n: nat)
    requires SpaceAt(m0, o, t, root, n) && SameLeaves(m0, t, m1, t)
    ensures SpaceAt(m1, o, t, root, n) && OtherLeaves(m0, t, m1, t, root)
  {
    hide Leaf;
  }

  /** allocproc's kalloc of a trapframe page; 0 when there is none. */
  method TakeFrame(ram: Ram, live: map<nat, Space>, frames: map<nat, nat>, i: nat, ghost init: map<nat, Owner>)
    returns (tf: nat)
    requires ram.Valid() && LiveOk(ram.mem, ram.owner, ram.tables, live) && Accounted(init, ram.owner, live, frames)
    requires i !in frames
    modifies ram
    ensures ram.Valid() && LiveOk(ram.mem, ram.owner, ram.tables, live) && ram.tables == old(ram.tables)
    ensures AllSame(old(ram.mem), old(ram.owner), ram.tables, ram.mem, ram.tables, live)
    ensures tf == 0 ==> ram.owner == old(ram.owner)
    ensures tf != 0 ==> tf % PGSIZE == 0 && tf in old(ram.owner) && old(ram.owner)[tf] == Free
    ensures tf != 0 ==> ram.owner == old(ram.owner)[tf := Taken] && Accounted(init, ram.owner, live, frames[i := tf])
    ensures (tf != 0 <==> 1 <= |old(ram.free)|) && (tf != 0 ==> |ram.free| + 1 == |old(ram.free)|)
  {
    hide Shape, Accounted, LiveOk, SameLeaves, AllSame, FreeListOk;
    ghost var m0, o0, t0 := ram.mem, ram.owner, ram.tables;
    NothingMoved(m0, o0, t0, live);
    tf := ram.Kalloc();
    if tf != 0 {
      FrameTaken(init, o0, live, frames, i, tf);
      LooseKeeps(m0, o0, t0, ram.mem, tf, Taken, live);
    }
  }

  lemma NothingMoved(m: Memory, o: map<nat, Owner>, t: map<Pos, nat>, live: map<nat, Space>)
    ensures AllSame(m, o, t, m, t, live)
  {
  }

  /** kfree of a trapframe page. */
  method DropFrame(ram: Ram, live: map<nat, Space>, frames: map<nat, nat>, i: nat, ghost init: map<nat, Owner>)
    requires ram.Valid() && LiveOk(ram.mem, ram.owner, ram.tables, live) && Accounted(init, ram.owner, live, frames)
    requires i in frames
    modifies ram
    ensures ram.Valid() && LiveOk(ram.mem, ram.owner, ram.tables, live) && ram.tables == old(ram.tables)
    ensures AllSame(old(ram.mem), old(ram.owner), ram.tables, ram.mem, ram.tables, live)
    ensures frames[i] in old(ram.owner) && old(ram.owner)[frames[i]] == Taken
    ensures ram.owner == old(ram.owner)[frames[i] := Free] && Accounted(init, ram.owner, live, frames - {i})
  {
    hide Shape, Accounted, LiveOk, SameLeaves, AllSame, FreeListOk;
    ghost var m0, o0, t0 := ram.mem, ram.owner, ram.tables;
    FrameHere(init, o0, live, frames, i);
    ram.FreeTaken(frames[i]);
    FrameDropped(init, o0, live, frames, i);
    LooseKeeps(m0, o0, t0, ram.mem, frames[i], Free, live);
  }

  lemma FrameHere(init: map<nat, Owner>, o: map<nat, Owner>, live: map<nat, Space>, frames: map<nat, nat>, i: nat)
    requires Accounted(init, o, live, frames) && i in frames
    ensures frames[i] in o && o[frames[i]] == Taken
  {
  }

  lemma FrameAligned(ram: Ram, pa: nat)
    requires ram.Valid() && pa in ram.owner
    ensures pa % PGSIZE == 0
  {
  }

  /** allocproc's memory for slot i, all of it or none. */
  method CreateStep(ram: Ram, live: map<nat, Space>, frames: map<nat, nat>, i: nat, trampoline: nat,
                    ghost init: map<nat, Owner>)
    returns (live': map<nat, Space>, frames': map<nat, nat>)
    requires ram.Valid() && trampoline % PGSIZE == 0 && i !in live && i !in frames
    requires LiveOk(ram.mem, ram.owner, ram.tables, live) && Accounted(init, ram.owner, live, frames)
    modifies ram
    ensures ram.Valid() && LiveOk(ram.mem, ram.owner, ram.tables, live') && Accounted(init, ram.owner, live', frames')
    ensures Undisturbed(old(ram.mem), old(ram.owner), old(ram.tables), ram.mem, ram.tables, live, live', i)
    ensures if i in live'
            then i in frames' && live' == live[i := live'[i]] && frames' == frames[i := frames'[i]]
            else live' == live && frames' == frames && ram.owner == old(ram.owner)
    ensures i in live' ==>
              && live'[i].sz == 0 && frames'[i] in old(ram.owner) && old(ram.owner)[frames'[i]] == Free
              && OnlySpace(old(ram.owner)[frames'[i] := Taken], ram.owner, live'[i].root)
              && NoPages(old(ram.owner)[frames'[i] := Taken], live'[i].root)
    ensures Created(live, live', |old(ram.free)|, ram.mem, ram.tables, i)
    ensures i in live' ==>
              |ram.free| + 4 == |old(ram.free)| && FreshTables(old(ram.tables), ram.tables, live'[i].root, Specials())
  {
    hide Shape, Ram.AllocOk, SpaceAt, StaysInside, Accounted, LiveOk, Undisturbed, Apart, NoRoot, NoPages, Leaf,
        MakePte, AllSame, FreshTables;
    ghost var m0, o0, t0 := ram.mem, ram.owner, ram.tables;
    live', frames' := live, frames;
    var tf := TakeFrame(ram, live, frames, i, init);
    if tf == 0 {
      SameIsUndisturbed(m0, o0, t0, ram.mem, live, i);
      return;
    }
    ghost var m1, o1 := ram.mem, ram.owner;
    ValidShape(ram);
    var root, tried := ProcPagetable(ram, trampoline, tf);
    ValidShape(ram);
    if root == 0 {
      ghost var m2, t2 := ram.mem, ram.tables;
      Nothing(m1, o1, t0, m2, t2, live, tried);
      assert frames[i := tf][i] == tf && frames[i := tf] - {i} == frames;
      DropFrame(ram, live, frames[i := tf], i, init);
      assert ram.owner == o0;
      ThenFreed(m1, o1, t0, m2, t2, ram.mem, live, i);
      TakenThen(m0, o0, t0, m1, tf, ram.mem, t2, live, live, i);
      return;
    }
    WholePages(0);
    NoMemory(ram, root);
    Born(init, frames[i := tf], m1, o1, t0, ram.mem, ram.owner, ram.tables, live, i, root, 0);
    live', frames' := live[i := Space(root, 0)], frames[i := tf];
    StaysParts(m1, o1, t0, ram.mem, ram.owner, ram.tables, root);
    TakenThen(m0, o0, t0, m1, tf, ram.mem, ram.tables, live, live', i);
  }

  lemma SameIsUndisturbed(m0: Memory, o: map<nat, Owner>, t: map<Pos, nat>, m1: Memory, live: map<nat, Space>, i: nat)
    requires AllSame(m0, o, t, m1, t, live)
    ensures Undisturbed(m0, o, t, m1, t, live, live, i)
  {
    hide SameSpace;
  }

  lemma NoMemory(ram: Ram, root: nat)
    requires ram.Valid() && SpaceAt(ram.mem, ram.owner, ram.tables, root, 0)
    ensures forall v: nat :: v < USERTOP ==> Leaf(ram.mem, ram.tables, root, v) == 0
  {
    hide Ram.Valid, Leaf;
    Unmapped(ram, root, 0);
  }

  /** freeproc of slot i: the trapframe page, then the page table and all memory. */
  method FreeStep(ram: Ram, live: map<nat, Space>, frames: map<nat, nat>, i: nat, ghost init: map<nat, Owner>)
    returns (live': map<nat, Space>, frames': map<nat, nat>)
    requires ram.Valid() && LiveOk(ram.mem, ram.owner, ram.tables, live) && Accounted(init, ram.owner, live, frames)
    requires i in live && i in frames
    modifies ram
    ensures ram.Valid() && LiveOk(ram.mem, ram.owner, ram.tables, live') && Accounted(init, ram.owner, live', frames')
    ensures live' == live - {i} && frames' == frames - {i}
    ensures ram.owner == Released(old(ram.owner)[frames[i] := Free], live[i].root)
    ensures Undisturbed(old(ram.mem), old(ram.owner), old(ram.tables), ram.mem, ram.tables, live, live', i)
  {
    hide Shape, Ram.AllocOk, SpaceAt, Accounted, LiveOk, Undisturbed, Apart, Pages, Released, AllSame;
    ghost var m0, o0, t0 := ram.mem, ram.owner, ram.tables;
    DropFrame(ram, live, frames, i, init);
    ghost var m1, o1 := ram.mem, ram.owner;
    ValidShape(ram);
    LiveHere(m1, o1, t0, live, i);
    ProcFreePagetable(ram, live[i].root, live[i].sz);
    ValidShape(ram);
    Died(init, frames - {i}, m1, o1, t0, ram.mem, ram.owner, ram.tables, live, i);
    live', frames' := live - {i}, frames - {i};
    FreedThen(m0, o0, t0, m1, frames[i], ram.mem, ram.tables, live, live', i);
  }

  /** kexec in slot i. */
  method ReplaceStep(ram: Ram, live: map<nat, Space>, frames: map<nat, nat>, i: nat, segments: seq<Segment>,
                     argsFit: bool, trampoline: nat, ghost init: map<nat, Owner>)
    returns (live': map<nat, Space>)
    requires ram.Valid() && trampoline % PGSIZE == 0 && i in live && i in frames
    requires LiveOk(ram.mem, ram.owner, ram.tables, live) && Accounted(init, ram.owner, live, frames)
    requires forall k :: 0 <= k < |segments| ==> SegmentOk(segments[k])
    modifies ram
    ensures ram.Valid() && LiveOk(ram.mem, ram.owner, ram.tables, live') && Accounted(init, ram.owner, live', frames)
    ensures Undisturbed(old(ram.mem), old(ram.owner), old(ram.tables), ram.mem, ram.tables, live, live', i)
    ensures live'.Keys == live.Keys
    ensures DidReplace(segments, argsFit, live[i], live'[i], old(ram.mem), old(ram.owner), old(ram.tables),
                       |old(ram.free)|, ram.mem, ram.tables)
  {
    hide Shape, Ram.AllocOk, SpaceAt, Accounted, LiveOk, Undisturbed, Apart, Pages, Replaced, NoRoot, SegmentOk,
        ImageIs, WithZeros, PGROUNDUP, SameSpace, Runs, ProgramIn;
    ghost var m0, o0, t0 := ram.mem, ram.owner, ram.tables;
    ValidShape(ram);
    LiveHere(m0, o0, t0, live, i);
    FrameHere(init, o0, live, frames, i);
    FrameAligned(ram, frames[i]);
    var ok, root, sz, tried := Kexec(ram, live[i].root, live[i].sz, segments, argsFit, trampoline, frames[i]);
    ValidShape(ram);
    if !ok {
      Nothing(m0, o0, t0, ram.mem, ram.tables, live, tried);
      return live;
    }
    Swapped(init, frames, m0, o0, t0, ram.mem, ram.owner, ram.tables, live, i, root, sz);
    live' := live[i := Space(root, sz)];
  }

  /** A child whose memory could not be copied is as it was when it was created, and freeing it leads back. */
  lemma ForkUndone(init: map<nat, Owner>, frames: map<nat, nat>, m0: Memory, o0: map<nat, Owner>, t0: map<Pos, nat>,
                   m1: Memory, o1: map<nat, Owner>, t1: map<Pos, nat>, m2: Memory, o2: map<nat, Owner>,
                   t2: map<Pos, nat>, live: map<nat, Space>, live1: map<nat, Space>, j: nat)
    requires Shape(m0, o0, t0) && Shape(m1, o1, t1) && Shape(m2, o2, t2) && j in live1 && j in frames
    requires LiveOk(m1, o1, t1, live1) && Accounted(init, o1, live1, frames)
    requires Undisturbed(m0, o0, t0, m1, t1, live, live1, j) && live1[j].sz == 0
    requires RolledBack(m1, o1, t1, m2, o2, t2, live1[j].root) && SpaceAt(m1, o1, t1, live1[j].root, 0)
    requires frames[j] in o0 && o0[frames[j]] == Free && OnlySpace(o0[frames[j] := Taken], o1, live1[j].root)
    requires NoPages(o0[frames[j] := Taken], live1[j].root)
    ensures LiveOk(m2, o2, t2, live1) && Accounted(init, o2, live1, frames)
    ensures Undisturbed(m0, o0, t0, m2, t2, live, live1, j)
    ensures frames[j] in o2 && Released(o2[frames[j] := Free], live1[j].root) == o0
  {
    hide Shape, SpaceAt, Accounted, LiveOk, Undisturbed, StaysInside, NoPages, RolledBack, Released, OnlySpace;
    var child := live1[j].root;
    SpaceRolledBack(m1, o1, t1, m2, o2, t2, child, 0);
    WholePages(0);
    Stayed(init, frames, m1, o1, t1, m2, o2, t2, live1, j, 0);
    assert live1[j := Space(child, 0)] == live1;
    StaysParts(m1, o1, t1, m2, o2, t2, child);
    OnlySpaceTrans(o0[frames[j] := Taken], o1, o2, child);
    FrameBack(o0, o2, frames[j], child);
    UndisturbedTwice(m0, o0, t0, m1, o1, t1, m2, t2, live, live1, live1, j);
  }

  /** kfork from slot i into slot j: the child starts with a copy of every mapped page of the parent, or there is no
      child and no page has moved. */
  method ForkStep(ram: Ram, live: map<nat, Space>, frames: map<nat, nat>, i: nat, j: nat, trampoline: nat,
                  ghost init: map<nat, Owner>)
    returns (live': map<nat, Space>, frames': map<nat, nat>)
    requires ram.Valid() && trampoline % PGSIZE == 0 && i in live && j !in live && j !in frames
    requires LiveOk(ram.mem, ram.owner, ram.tables, live) && Accounted(init, ram.owner, live, frames)
    modifies ram
    ensures ram.Valid() && LiveOk(ram.mem, ram.owner, ram.tables, live') && Accounted(init, ram.owner, live', frames')
    ensures Undisturbed(old(ram.mem), old(ram.owner), old(ram.tables), ram.mem, ram.tables, live, live', j)
    ensures if j in live'
            then j in frames' && live' == live[j := live'[j]] && frames' == frames[j := frames'[j]]
            else live' == live && frames' == frames && ram.owner == old(ram.owner)
    ensures j in live' ==>
              && live'[j].sz == live[i].sz
              && forall v: nat :: v < Pages(live[i].sz) ==>
                   CopiedPage(old(ram.mem), old(ram.tables), ram.mem, ram.owner, ram.tables, live[i].root,
                              live'[j].root, v)
    ensures DidFork(live, live', old(ram.mem), old(ram.tables), |old(ram.free)|, ram.mem, ram.owner, ram.tables, i, j)
  {
    hide Cost, ForkCost, FreshTables, MappedBelow, Specials, Rooted;
    hide Shape, Ram.AllocOk, SpaceAt, Accounted, LiveOk, Undisturbed, Apart, Pages, StaysInside, NoRoot, NoPages, Leaf,
         MakePte, Copied, RolledBack, NoUsersFrom, CopiedPage, Released, SameSpace;
    ghost var m0, o0, t0 := ram.mem, ram.owner, ram.tables;
    ValidShape(ram);
    live', frames' := CreateStep(ram, live, frames, j, trampoline, init);
    if j !in live' {
      LeastFork(MappedBelow(m0, t0, live[i].root, Pages(live[i].sz)));
      return;
    }
    ghost var m1, o1, t1 := ram.mem, ram.owner, ram.tables;
    var live1 := live';
    var parent, child, sz := live[i].root, live'[j].root, live[i].sz;
    ValidShape(ram);
    TwoHere(m0, o0, t0, m1, o1, t1, live, live1, i, j);
    PagesBelow(sz);
    WholePages(0);
    SameMapped(m0, o0, t0, m1, t1, parent, Pages(sz));
    ChildCost(t0, t1, child, MappedBelow(m0, t0, parent, Pages(sz)));
    var ok := UvmCopy(ram, parent, child, sz);
    ValidShape(ram);
    if !ok {
      ghost var m2, o2, t2 := ram.mem, ram.owner, ram.tables;
      ForkUndone(init, frames', m0, o0, t0, m1, o1, t1, m2, o2, t2, live, live1, j);
      live', frames' := FreeStep(ram, live1, frames', j, init);
      UndisturbedTwice(m0, o0, t0, m2, o2, t2, ram.mem, ram.tables, live, live1, live', j);
      assert live' == live && frames' == frames;
      return;
    }
    CopiedSpace(m1, o1, t1, ram.mem, ram.owner, ram.tables, parent, child, Pages(sz));
    Stayed(init, frames', m1, o1, t1, ram.mem, ram.owner, ram.tables, live1, j, sz);
    CopyOfOld(m0, o0, t0, m1, o1, t1, ram.mem, ram.owner, ram.tables, parent, child, Pages(sz));
    live' := live1[j := Space(child, sz)];
    UndisturbedTwice(m0, o0, t0, m1, o1, t1, ram.mem, ram.tables, live, live1, live', j);
  }

  /** The parent and the child of a fork, side by side. */
  lemma TwoHere(m0: Memory, o0: map<nat, Owner>, t0: map<Pos, nat>, m1: Memory, o1: map<nat, Owner>, t1: map<Pos, nat>,
                live: map<nat, Space>, live1: map<nat, Space>, i: nat, j: nat)
    requires LiveOk(m1, o1, t1, live1) && Undisturbed(m0, o0, t0, m1, t1, live, live1, j) && i in live && j !in live
    requires j in live1 && live1[j].sz == 0
    ensures i in live1 && live1[i] == live[i] && live[i].sz <= TRAPFRAME && live[i].root != live1[j].root
    ensures Pos(live[i].root, 2, 0) in t1 && Pos(live1[j].root, 2, 0) in t1
    ensures SpaceAt(m1, o1, t1, live1[j].root, 0) && NoUsersFrom(o1, live1[j].root, 0)
    ensures SameSpace(m0, o0, t0, m1, t1, live[i].root)
  {
    hide SameSpace;
    WholePages(0);
  }

  /** A space that is the same has the same frames. */
  lemma SameFrames(m0: Memory, o0: map<nat, Owner>, t0: map<Pos, nat>, m1: Memory, o1: map<nat, Owner>,
                   t1: map<Pos, nat>,
                   r: nat)
    requires Shape(m0, o0, t0) && Shape(m1, o1, t1) && SameSpace(m0, o0, t0, m1, t1, r)
    ensures forall q :: q in o0 && o0[q].User? && o0[q].root == r ==> q in o1 && o1[q] == o0[q]
  {
    hide Leaf, PTE2PA, EntriesOk, TablesOk;
    forall q | q in o0 && o0[q].User? && o0[q].root == r ensures q in o1 && o1[q] == o0[q] {
      var v := o0[q].vpn;
      LeafOfFrame(m0, o0, t0, q);
      UserLeafOwner(m1, o1, t1, r, v);
    }
  }

  lemma LeafOfFrame(m: Memory, o: map<nat, Owner>, t: map<Pos, nat>, q: nat)
    requires Shape(m, o, t) && q in o && o[q].User?
    ensures o[q].vpn < USERTOP && Leaf(m, t, o[q].root, o[q].vpn) != 0 && PTE2PA(Leaf(m, t, o[q].root, o[q].vpn)) == q
  {
  }

  lemma UndisturbedTwice(m0: Memory, o0: map<nat, Owner>, t0: map<Pos, nat>, m1: Memory, o1: map<nat, Owner>,
                         t1: map<Pos, nat>, m2: Memory, t2: map<Pos, nat>, live: map<nat, Space>,
                         live1: map<nat, Space>, live2: map<nat, Space>, i: nat)
    requires Shape(m0, o0, t0) && Shape(m1, o1, t1)
    requires Undisturbed(m0, o0, t0, m1, t1, live, live1, i) && Undisturbed(m1, o1, t1, m2, t2, live1, live2, i)
    ensures Undisturbed(m0, o0, t0, m2, t2, live, live2, i)
  {
    hide SameSpace, Shape;
    forall k | k in live && k != i ensures SameSpace(m0, o0, t0, m2, t2, live[k].root) {
      SameFrames(m0, o0, t0, m1, o1, t1, live[k].root);
      SameThrough(m0, o0, t0, m1, o1, t1, m2, t2, live[k].root);
    }
  }

  /** Giving back the trapframe page and the space of an abandoned child undoes what creating it did. */
  lemma FrameBack(o0: map<nat, Owner>, o1: map<nat, Owner>, tf: nat, root: nat)
    requires tf in o0 && o0[tf] == Free && OnlySpace(o0[tf := Taken], o1, root) && NoPages(o0[tf := Taken], root)
    ensures tf in o1 && o1[tf] == Taken && Released(o1[tf := Free], root) == o0
  {
    assert !OfSpace(Taken, root);
    assert OnlySpace(o0, o1[tf := Free], root);
    assert forall q :: q in o0 && q != tf ==> o0[tf := Taken][q] == o0[q];
    ReleasedUndoes(o0, o1[tf := Free], root);
  }

  /** What was copied is what the parent had before the fork began. */
  lemma CopyOfOld(m0: Memory, o0: map<nat, Owner>, t0: map<Pos, nat>, m1: Memory, o1: map<nat, Owner>,
                  t1: map<Pos, nat>,
                  m2: Memory, o2: map<nat, Owner>, t2: map<Pos, nat>, parent: nat, child: nat, n: nat)
    requires Shape(m0, o0, t0) && SameSpace(m0, o0, t0, m1, t1, parent) && n <= USERTOP
    requires Copied(m1, o1, t1, m2, o2, t2, parent, child, n)
    ensures forall v: nat :: v < n ==> CopiedPage(m0, t0, m2, o2, t2, parent, child, v)
  {
    hide Shape, Leaf, PTE2PA, PteFlags;
    forall v: nat | v < n ensures CopiedPage(m0, t0, m2, o2, t2, parent, child, v) {
      assert CopiedPage(m1, t1, m2, o2, t2, parent, child, v);
      if Leaf(m0, t0, parent, v) != 0 { UserFrame(m0, o0, t0, parent, v); }
    }
  }

  lemma UserFrame(m: Memory, o: map<nat, Owner>, t: map<Pos, nat>, root: nat, v: nat)
    requires Shape(m, o, t) && v < USERTOP && Leaf(m, t, root, v) != 0
    ensures PTE2PA(Leaf(m, t, root, v)) in o && PTE2PA(Leaf(m, t, root, v)) in m
    ensures o[PTE2PA(Leaf(m, t, root, v))] == User(root, v)
  {
    UserLeafOwner(m, o, t, root, v);
  }

  lemma LeastFork(vs: set<nat>)
    ensures ForkCost(vs) >= 4
  {
    hide Rungs, Specials;
    RungsOfSpecials();
    RungsMore(Specials(), vs);
    SubsetSize(Rungs(Specials()), Rungs(Specials() + vs));
  }

  lemma SameMapped(m0: Memory, o0: map<nat, Owner>, t0: map<Pos, nat>, m1: Memory, t1: map<Pos, nat>, r: nat, n: nat)
    requires SameSpace(m0, o0, t0, m1, t1, r)
    ensures MappedBelow(m1, t1, r, n) == MappedBelow(m0, t0, r, n)
  {
    hide Leaf;
  }

  lemma ChildCost(t0: map<Pos, nat>, t1: map<Pos, nat>, child: nat, vs: set<nat>)
    requires FreshTables(t0, t1, child, Specials())
    ensures ForkCost(vs) == 4 + Cost(t1, child, vs)
  {
    hide Rungs, Specials, Rooted, Lacking;
    RungsOfSpecials();
    var t := t0[Pos(child, 2, 0) := child];
    NewSpaceLacks(t0, child, Specials());
    NewSpaceLacks(t0, child, Specials() + vs);
    LackingMore(t, t1, child, Specials(), vs);
  }

  // ---- whole histories ----

  /** One step of one process: everything stays accounted for, and every other process keeps its memory. A step on a
      slot that is not in use, or a creation in one that is, does nothing. */
  method Take(ram: Ram, live: map<nat, Space>, frames: map<nat, nat>, step: Step, trampoline: nat,
              ghost init: map<nat, Owner>)
    returns (live': map<nat, Space>, frames': map<nat, nat>)
    requires ram.Valid() && trampoline % PGSIZE == 0 && StepOk(step) && frames.Keys == live.Keys
    requires LiveOk(ram.mem, ram.owner, ram.tables, live) && Accounted(init, ram.owner, live, frames)
    modifies ram
    ensures ram.Valid() && LiveOk(ram.mem, ram.owner, ram.tables, live') && Accounted(init, ram.owner, live', frames')
    ensures frames'.Keys == live'.Keys
    ensures Undisturbed(old(ram.mem), old(ram.owner), old(ram.tables), ram.mem, ram.tables, live, live', Subject(step))
    ensures step.Reap? ==> live' == live - {step.i}
    ensures Did(step, live, live', old(ram.mem), old(ram.owner), old(ram.tables), |old(ram.free)|, ram.mem, ram.owner,
                ram.tables)
  {
    hide Ram.Valid, Accounted, LiveOk, Undisturbed, Pages, CopiedPage, SegmentOk, DidFork, DidReplace, DidWork, Created;
    Idle(ram.mem, ram.owner, ram.tables, live, Subject(step));
    live', frames' := live, frames;
    match step
    case Create(i) =>
      if i !in live { live', frames' := CreateStep(ram, live, frames, i, trampoline, init); }
    case Fork(i, j) =>
      if i in live && j !in live { live', frames' := ForkStep(ram, live, frames, i, j, trampoline, init); }
    case Replace(i, segments, argsFit) =>
      if i in live { live' := ReplaceStep(ram, live, frames, i, segments, argsFit, trampoline, init); }
    case Reap(i) =>
      if i in live { live', frames' := FreeStep(ram, live, frames, i, init); } else { assert live - {i} == live; }
    case _ =>
      if step.i in live { live' := Work(ram, live, frames, step, init); }
  }

  lemma Idle(m: Memory, o: map<nat, Owner>, t: map<Pos, nat>, live: map<nat, Space>, i: nat)
    ensures Undisturbed(m, o, t, m, t, live, live, i)
  {
  }

  /** Conservation over any history of any number of processes: trapframes and spaces are created, grown, shrunk,
      faulted in, written, copied, replaced and freed in any order. At every point each page either has its owner from
      the start or was free then and is now free, part of a live space or a trapframe of one; when the last process is
      gone the owner of every page, and with it the set of free pages, is exactly what it was. */
  method AnyHistory(ram: Ram, script: seq<Step>, trampoline: nat) returns (live: map<nat, Space>, frames: map<nat, nat>)
    requires ram.Valid() && trampoline % PGSIZE == 0
    requires forall k :: 0 <= k < |script| ==> StepOk(script[k])
    modifies ram
    ensures ram.Valid() && LiveOk(ram.mem, ram.owner, ram.tables, live) && frames.Keys == live.Keys
    ensures Accounted(old(ram.owner), ram.owner, live, frames)
    ensures live == map[] ==> ram.owner == old(ram.owner)
  {
    hide Ram.Valid, Accounted, LiveOk, Undisturbed, StepOk;
    live, frames := map[], map[];
    NoneYet(ram.mem, ram.owner, ram.tables);
    var k := 0;
    while k < |script|
      invariant 0 <= k <= |script| && ram.Valid() && LiveOk(ram.mem, ram.owner, ram.tables, live)
      invariant frames.Keys == live.Keys && Accounted(old(ram.owner), ram.owner, live, frames)
    {
      live, frames := Take(ram, live, frames, script[k], trampoline, old(ram.owner));
      k := k + 1;
    }
    if live == map[] {
      assert frames == map[];
      AllReturned(old(ram.owner), ram.owner);
    }
  }

  lemma NoneYet(m: Memory, o: map<nat, Owner>, t: map<Pos, nat>)
    ensures LiveOk(m, o, t, map[]) && Accounted(o, o, map[], map[])
  {
  }

  /** However a history ends, freeing what is left returns every page. */
  method FreeAll(ram: Ram, live: map<nat, Space>, frames: map<nat, nat>, ghost init: map<nat, Owner>)
    requires ram.Valid() && LiveOk(ram.mem, ram.owner, ram.tables, live) && frames.Keys == live.Keys
    requires Accounted(init, ram.owner, live, frames)
    modifies ram
    ensures ram.Valid() && ram.owner == init
  {
    hide Ram.Valid, Accounted, LiveOk, Undisturbed, Released;
    var left, held := live, frames;
    while left != map[]
      invariant ram.Valid() && LiveOk(ram.mem, ram.owner, ram.tables, left) && held.Keys == left.Keys
      invariant Accounted(init, ram.owner, left, held)
      decreases |left|
    {
      var i :| i in left;
      left, held := FreeStep(ram, left, held, i, init);
    }
    assert held == map[];
    AllReturned(init, ram.owner);
  }
}
