/** The buffer cache of kernel/bio.c: a fixed pool of buffers on a doubly linked list kept in
    least-recently-released order, with reference counts, pins and per-buffer sleep locks.

    Buffers are named by their index in bcache.buf; HEAD names bcache.head. The disk is part of
    the object, and every completed disk write is appended to the ghost `trace`, so that a later
    argument can talk about a crash after any one of them. */
module BufferCache {
  import opened Blocks

  const NBUF: nat := 30
  const HEAD: nat := NBUF
  const ROOTDEV: nat := 1

  datatype Option<+T> = None | Some(value: T)

  /** struct buf, without its links. `owner` is the process holding the sleep lock. */
  datatype Buf = Buf(valid: bool, dev: nat, blockno: nat, refcnt: nat, owner: Option<nat>, data: Block)

  // ---------- the doubly linked list ----------

  /** The i-th buffer of the list, or HEAD on either side of it. */
  ghost function Nth(order: seq<nat>, i: int): nat {
    if 0 <= i < |order| then order[i] else HEAD
  }

  /** `next` and `prev` link exactly the buffers of `order`, in that order, into a ring through HEAD. */
  ghost predicate Linked(next: seq<nat>, prev: seq<nat>, order: seq<nat>) {
    && |next| == |prev| == NBUF + 1
    && (forall i :: 0 <= i < |order| ==> order[i] < NBUF)
    && (forall i, j :: 0 <= i < j < |order| ==> order[i] != order[j])
    && next[HEAD] == Nth(order, 0)
    && prev[HEAD] == Nth(order, |order| - 1)
    && (forall i {:trigger next[order[i]]} :: 0 <= i < |order| ==> next[order[i]] == Nth(order, i + 1))
    && (forall i {:trigger prev[order[i]]} :: 0 <= i < |order| ==> prev[order[i]] == Nth(order, i - 1))
  }

  ghost function Without(order: seq<nat>, i: nat): seq<nat>
    requires i < |order|
  {
    order[..i] + order[i + 1..]
  }

  /** Every buffer is on the list exactly once. */
  ghost predicate IsPermutation(order: seq<nat>) {
    && |order| == NBUF
    && (forall i :: 0 <= i < NBUF ==> order[i] < NBUF)
    && (forall i, j :: 0 <= i < j < NBUF ==> order[i] != order[j])
    && (forall b :: 0 <= b < NBUF ==> b in order)
  }

  /** Most recently released first. */
  ghost predicate ByRelease(order: seq<nat>, stamp: seq<nat>)
    requires |stamp| == NBUF && forall i :: 0 <= i < |order| ==> order[i] < NBUF
  {
    forall i, j :: 0 <= i < j < |order| ==> stamp[order[i]] > stamp[order[j]]
  }

  ghost predicate ListOk(next: seq<nat>, prev: seq<nat>, order: seq<nat>, stamp: seq<nat>, clock: nat) {
    && |stamp| == NBUF
    && IsPermutation(order)
    && Linked(next, prev, order)
    && (forall b :: 0 <= b <= NBUF ==> next[b] <= HEAD && prev[b] <= HEAD)
    && ByRelease(order, stamp)
    && (forall b :: 0 <= b < NBUF ==> stamp[b] < clock)
  }

  /** Each reference count is its holders plus its pins, and only a holder owns the lock. */
  ghost predicate CountsOk(buf: seq<Buf>, holders: seq<multiset<nat>>, pins: seq<nat>) {
    && |buf| == |holders| == |pins| == NBUF
    && (forall b :: 0 <= b < NBUF ==> buf[b].refcnt == |holders[b]| + pins[b])
    && (forall b :: 0 <= b < NBUF && buf[b].owner.Some? ==> buf[b].owner.value in holders[b])
  }

  /** No two buffers hold the same block of a real device. */
  ghost predicate Unique(buf: seq<Buf>) {
    forall a, b :: 0 <= a < b < |buf| && buf[a].dev != 0 && buf[a].dev == buf[b].dev
      ==> buf[a].blockno != buf[b].blockno
  }

  ghost predicate Caches(buf: seq<Buf>, b: int, dev: nat, blockno: nat) {
    0 <= b < |buf| && buf[b].dev == dev && buf[b].blockno == blockno
  }

  ghost predicate IsCached(buf: seq<Buf>, dev: nat, blockno: nat) {
    exists b :: Caches(buf, b, dev, blockno)
  }

  ghost predicate Unused(buf: seq<Buf>, b: int) {
    0 <= b < |buf| && buf[b].refcnt == 0
  }

  lemma UnlinkKeepsRing(next: seq<nat>, prev: seq<nat>, order: seq<nat>, i: nat,
                        next': seq<nat>, prev': seq<nat>)
    requires Linked(next, prev, order) && i < |order|
    requires forall b :: 0 <= b < NBUF + 1 ==> next[b] <= HEAD && prev[b] <= HEAD
    requires prev' == prev[next[order[i]] := prev[order[i]]]
    requires next' == next[prev'[order[i]] := next[order[i]]]
    ensures Linked(next', prev', Without(order, i))
  {
    hide Linked, Nth;
    LinkedShape(next, prev, order);
    var w := Without(order, i);
    forall j | 0 <= j < |w| ensures w[j] < NBUF && next'[w[j]] == Nth(w, j + 1) && prev'[w[j]] == Nth(w, j - 1) {
      UnlinkAt(next, prev, order, i, j);
    }
    UnlinkHead(next, prev, order, i);
    LinkedFrom(next', prev', w);
  }

  lemma LinkedShape(next: seq<nat>, prev: seq<nat>, order: seq<nat>)
    requires Linked(next, prev, order)
    ensures |next| == |prev| == NBUF + 1 && forall i :: 0 <= i < |order| ==> order[i] < NBUF
    ensures forall i, j :: 0 <= i < j < |order| ==> order[i] != order[j]
  {
  }

  lemma LinkedFrom(next: seq<nat>, prev: seq<nat>, order: seq<nat>)
    requires |next| == |prev| == NBUF + 1 && forall i, j :: 0 <= i < j < |order| ==> order[i] != order[j]
    requires forall j :: 0 <= j < |order| ==>
                           order[j] < NBUF && next[order[j]] == Nth(order, j + 1) && prev[order[j]] == Nth(order, j - 1)
    requires next[HEAD] == Nth(order, 0) && prev[HEAD] == Nth(order, |order| - 1)
    ensures Linked(next, prev, order)
  {
    hide Nth;
  }

  lemma NthWithout(order: seq<nat>, i: nat, j: int)
    requires i < |order|
    ensures Nth(Without(order, i), j) == Nth(order, if j < i then j else j + 1)
  {
  }

  /** The neighbours of the removed element now point at each other, all others are as before. */
  lemma UnlinkAt(next: seq<nat>, prev: seq<nat>, order: seq<nat>, i: nat, j: nat)
    requires Linked(next, prev, order) && i < |order| && j < |Without(order, i)|
    ensures var w, l, r := Without(order, i), prev[order[i]], next[order[i]];
            w[j] < NBUF && l <= HEAD && r <= HEAD && next[l := r][w[j]] == Nth(w, j + 1) &&
                prev[r := l][w[j]] == Nth(w, j - 1)
  {
    var k := if j < i then j else j + 1;
    NthWithout(order, i, j);
    NthWithout(order, i, j + 1);
    NthWithout(order, i, j - 1);
    assert next[order[k]] == Nth(order, k + 1) && prev[order[k]] == Nth(order, k - 1);
    assert next[order[i]] == Nth(order, i + 1) && prev[order[i]] == Nth(order, i - 1);
  }

  lemma UnlinkHead(next: seq<nat>, prev: seq<nat>, order: seq<nat>, i: nat)
    requires Linked(next, prev, order) && i < |order|
    ensures var w, l, r := Without(order, i), prev[order[i]], next[order[i]];
            l <= HEAD && r <= HEAD && next[l := r][HEAD] == Nth(w, 0) && prev[r := l][HEAD] == Nth(w, |w| - 1)
  {
    NthWithout(order, i, 0);
    NthWithout(order, i, |order| - 2);
    assert next[order[i]] == Nth(order, i + 1) && prev[order[i]] == Nth(order, i - 1);
  }

  lemma PushKeepsRing(next: seq<nat>, prev: seq<nat>, order: seq<nat>, b: nat,
                      next': seq<nat>, prev': seq<nat>)
    requires Linked(next, prev, order) && b < NBUF && b !in order
    requires next[HEAD] <= HEAD
    requires next' == next[b := next[HEAD]][HEAD := b]
    requires prev' == prev[b := HEAD][next[HEAD] := b]
    ensures Linked(next', prev', [b] + order)
  {
    hide Linked, Nth;
    LinkedShape(next, prev, order);
    var w := [b] + order;
    forall j | 0 <= j < |w| ensures w[j] < NBUF && next'[w[j]] == Nth(w, j + 1) && prev'[w[j]] == Nth(w, j - 1) {
      PushAt(next, prev, order, b, j);
    }
    PushHead(next, prev, order, b);
    LinkedFrom(next', prev', w);
  }

  lemma NthPushed(order: seq<nat>, b: nat, j: int)
    ensures Nth([b] + order, j) == if j == 0 then b else Nth(order, j - 1)
  {
  }

  lemma PushAt(next: seq<nat>, prev: seq<nat>, order: seq<nat>, b: nat, j: nat)
    requires Linked(next, prev, order) && b < NBUF && b !in order && next[HEAD] <= HEAD && j <= |order|
    ensures var w := [b] + order;
            && w[j] < NBUF && next[b := next[HEAD]][HEAD := b][w[j]] == Nth(w, j + 1)
            && prev[b := HEAD][next[HEAD] := b][w[j]] == Nth(w, j - 1)
  {
    NthPushed(order, b, j + 1);
    NthPushed(order, b, j - 1);
    if j > 0 {
      var x := order[j - 1];
      assert next[x] == Nth(order, j) && prev[x] == Nth(order, j - 2);
    }
  }

  lemma PushHead(next: seq<nat>, prev: seq<nat>, order: seq<nat>, b: nat)
    requires Linked(next, prev, order) && b < NBUF && b !in order && next[HEAD] <= HEAD
    ensures var w := [b] + order;
            next[b := next[HEAD]][HEAD := b][HEAD] == Nth(w, 0) &&
                prev[b := HEAD][next[HEAD] := b][HEAD] == Nth(w, |w| - 1)
  {
    NthPushed(order, b, |order|);
  }

  lemma WithoutIsRest(order: seq<nat>, i: nat)
    requires IsPermutation(order) && i < NBUF
    ensures IsPermutation([order[i]] + Without(order, i))
    ensures order[i] !in Without(order, i)
  {
    var w := [order[i]] + Without(order, i);
    forall b | 0 <= b < NBUF ensures b in w {
      assert b in order;
      var k :| 0 <= k < NBUF && order[k] == b;
      if k < i { assert w[k + 1] == b; } else if k > i { assert w[k] == b; } else { assert w[0] == b; }
    }
  }

  /** A buffer moved to the front and stamped with a fresh time keeps the list in release order. */
  lemma ReleaseKeepsOrder(order: seq<nat>, stamp: seq<nat>, clock: nat, i: nat)
    requires IsPermutation(order) && |stamp| == NBUF && ByRelease(order, stamp) && i < NBUF
    requires forall b :: 0 <= b < NBUF ==> stamp[b] < clock
    ensures IsPermutation([order[i]] + Without(order, i))
    ensures ByRelease([order[i]] + Without(order, i), stamp[order[i] := clock])
  {
    WithoutIsRest(order, i);
    var w, s := [order[i]] + Without(order, i), stamp[order[i] := clock];
    forall j, k | 0 <= j < k < |w| ensures s[w[j]] > s[w[k]] {
      assert w[k] == (if k <= i then order[k - 1] else order[k]);
      if j > 0 { assert w[j] == (if j <= i then order[j - 1] else order[j]); }
    }
  }

  ghost predicate MovedToFront(before: seq<nat>, after: seq<nat>, b: nat) {
    exists i :: 0 <= i < |before| && before[i] == b && after == [b] + Without(before, i)
  }

  /** Replacing one buffer keeps the counts and the uniqueness of blocks when the new contents fit. */
  lemma UpdateKeeps(buf: seq<Buf>, holders: seq<multiset<nat>>, pins: seq<nat>, b: nat, x: Buf, h: multiset<nat>)
    requires CountsOk(buf, holders, pins) && Unique(buf) && b < NBUF
    requires x.refcnt == |h| + pins[b] && (x.owner.Some? ==> x.owner.value in h)
    requires (x.dev == buf[b].dev && x.blockno == buf[b].blockno) || !IsCached(buf, x.dev, x.blockno)
    ensures CountsOk(buf[b := x], holders[b := h], pins) && Unique(buf[b := x])
  {
    var buf' := buf[b := x];
    forall c, d | 0 <= c < d < |buf'| && buf'[c].dev != 0 && buf'[c].dev == buf'[d].dev
      ensures buf'[c].blockno != buf'[d].blockno
    {
      var o := if c == b then d else c;
      assert !Caches(buf, o, x.dev, x.blockno) || (x.dev == buf[b].dev && x.blockno == buf[b].blockno);
    }
  }

  class Cache {
    var buf: seq<Buf>
    var next: seq<nat>
    var prev: seq<nat>
    var disk: DiskState

    ghost var order: seq<nat>              // the list, most recent first
    ghost var stamp: seq<nat>              // when each buffer was last released to refcnt 0
    ghost var clock: nat
    ghost var holders: seq<multiset<nat>>  // processes between bget and brelse, per buffer
    ghost var pins: seq<nat>               // bpin calls not yet undone, per buffer
    ghost var trace: seq<DiskState>        // the disk after each write

    ghost predicate Valid()
      reads this
    {
      ListOk(next, prev, order, stamp, clock) && CountsOk(buf, holders, pins) && Unique(buf)
    }

    /** binit: the statics are zero, and each buffer in turn is pushed on the front. */
    constructor (disk: DiskState)
      ensures Valid()
      ensures this.disk == disk && trace == []
      ensures forall i :: 0 <= i < NBUF ==> order[i] == NBUF - 1 - i
      ensures forall b :: 0 <= b < NBUF ==> buf[b] == Buf(false, 0, 0, 0, None, [])
    {
      this.disk := disk;
      trace := [];
      buf := seq(NBUF, _ => Buf(false, 0, 0, 0, None, []));
      holders := seq(NBUF, _ => multiset{});
      pins := seq(NBUF, _ => 0);
      stamp := seq(NBUF, i requires 0 <= i < NBUF => i);
      clock := NBUF;
      next := seq(NBUF + 1, _ => HEAD);
      prev := seq(NBUF + 1, _ => HEAD);
      order := [];
      new;
      var b := 0;
      while b < NBUF
        invariant 0 <= b <= NBUF
        invariant |order| == b && forall i :: 0 <= i < b ==> order[i] == b - 1 - i
        invariant Linked(next, prev, order)
        invariant forall c :: 0 <= c <= NBUF ==> next[c] <= HEAD && prev[c] <= HEAD
        modifies this`next, this`prev, this`order
      {
        PushFront(b);
        b := b + 1;
      }
      forall c | 0 <= c < NBUF ensures c in order { assert order[NBUF - 1 - c] == c; }
    }

    /** Insert b right after the list head. */
    method PushFront(b: nat)
      requires Linked(next, prev, order) && b < NBUF && b !in order
      requires forall c :: 0 <= c <= NBUF ==> next[c] <= HEAD && prev[c] <= HEAD
      modifies this`next, this`prev, this`order
      ensures Linked(next, prev, order) && order == [b] + old(order)
      ensures forall c :: 0 <= c <= NBUF ==> next[c] <= HEAD && prev[c] <= HEAD
    {
      next := next[b := next[HEAD]];
      prev := prev[b := HEAD];
      prev := prev[next[HEAD] := b];
      next := next[HEAD := b];
      PushKeepsRing(old(next), old(prev), order, b, next, prev);
      order := [b] + order;
    }

    /** Take b out of the list; its own links are left as they were. */
    method Unlink(b: nat) returns (ghost i: nat)
      requires IsPermutation(order) && Linked(next, prev, order) && b < NBUF
      requires forall c :: 0 <= c <= NBUF ==> next[c] <= HEAD && prev[c] <= HEAD
      modifies this`next, this`prev, this`order
      ensures Linked(next, prev, order) && b !in order
      ensures 0 <= i < NBUF && old(order)[i] == b && order == Without(old(order), i)
      ensures forall c :: 0 <= c <= NBUF ==> next[c] <= HEAD && prev[c] <= HEAD
    {
      assert b in order;
      i :| 0 <= i < NBUF && order[i] == b;
      prev := prev[next[b] := prev[b]];
      next := next[prev[b] := next[b]];
      UnlinkKeepsRing(old(next), old(prev), order, i, next, prev);
      WithoutIsRest(order, i);
      order := Without(order, i);
    }

    method MoveToFront(b: nat)
      requires ListOk(next, prev, order, stamp, clock) && b < NBUF
      modifies this`next, this`prev, this`order, this`stamp, this`clock
      ensures ListOk(next, prev, order, stamp, clock)
      ensures MovedToFront(old(order), order, b)
      ensures stamp == old(stamp)[b := old(clock)] && clock == old(clock) + 1
    {
      ghost var i := Unlink(b);
      PushFront(b);
      ReleaseKeepsOrder(old(order), stamp, clock, i);
      stamp := stamp[b := clock];
      clock := clock + 1;
    }

    /** The forward scan of bget: the buffer caching the block, or HEAD when none does. */
    method Lookup(dev: nat, blockno: nat) returns (b: nat)
      requires Valid()
      ensures b < NBUF ==> Caches(buf, b, dev, blockno)
      ensures b >= NBUF ==> b == HEAD && !IsCached(buf, dev, blockno)
    {
      b := next[HEAD];
      ghost var k := 0;
      while b != HEAD && !(buf[b].dev == dev && buf[b].blockno == blockno)
        invariant 0 <= k <= NBUF && b == Nth(order, k)
        invariant forall i :: 0 <= i < k ==> !Caches(buf, order[i], dev, blockno)
        decreases NBUF - k
      {
        b := next[b];
        k := k + 1;
      }
      if b == HEAD {
        forall c ensures !Caches(buf, c, dev, blockno) {
          if 0 <= c < NBUF { assert c in order; }
        }
      }
    }

    /** The backward scan of bget: the unused buffer released longest ago, or HEAD when all are in use. */
    method OldestUnused() returns (b: nat)
      requires Valid()
      ensures b < NBUF ==> Unused(buf, b) && forall c :: Unused(buf, c) ==> stamp[b] <= stamp[c]
      ensures b >= NBUF ==> b == HEAD && forall c :: !Unused(buf, c)
    {
      b := prev[HEAD];
      ghost var k := NBUF - 1;
      while b != HEAD && buf[b].refcnt != 0
        invariant -1 <= k < NBUF && b == Nth(order, k)
        invariant forall i :: k < i < NBUF ==> !Unused(buf, order[i])
        decreases k
      {
        b := prev[b];
        k := k - 1;
      }
      forall c | Unused(buf, c) ensures b != HEAD && stamp[b] <= stamp[c] {
        assert c in order;
        var i :| 0 <= i < NBUF && order[i] == c;
        assert i <= k;
      }
    }

    /** The critical section of bget, under bcache.lock: find the block or recycle the unused buffer
        released longest ago. "bget: no buffers" is the excluded case. */
    method Bget(dev: nat, blockno: nat, ghost pid: nat) returns (b: nat)
      requires Valid() && dev != 0
      requires IsCached(buf, dev, blockno) || (exists c :: Unused(buf, c))
      modifies this
      ensures Valid() && b < NBUF
      ensures order == old(order) && stamp == old(stamp) && clock == old(clock)
      ensures pins == old(pins) && disk == old(disk) && trace == old(trace)
      ensures holders == old(holders)[b := old(holders)[b] + multiset{pid}]
      ensures IsCached(old(buf), dev, blockno) ==>
                Caches(old(buf), b, dev, blockno) &&
                    buf == old(buf)[b := old(buf)[b].(refcnt := old(buf)[b].refcnt + 1)]
      ensures !IsCached(old(buf), dev, blockno) ==>
                && Unused(old(buf), b)
                && (forall c :: Unused(old(buf), c) ==> stamp[b] <= stamp[c])
                && buf == old(buf)[b := old(buf)[b].(valid := false, dev := dev, blockno := blockno, refcnt := 1)]
    {
      b := Lookup(dev, blockno);
      if b != HEAD {
        buf := buf[b := buf[b].(refcnt := buf[b].refcnt + 1)];
      } else {
        b := OldestUnused();
        buf := buf[b := buf[b].(dev := dev, blockno := blockno, valid := false, refcnt := 1)];
      }
      holders := holders[b := holders[b] + multiset{pid}];
      UpdateKeeps(old(buf), old(holders), pins, b, buf[b], holders[b]);
    }

    /** acquiresleep on a buffer whose lock is free, followed by bread's fill from disk. */
    method LockAndFill(b: nat, pid: nat)
      requires Valid() && b < NBUF && pid in holders[b]
      requires buf[b].owner == None && buf[b].blockno < |disk|
      modifies this`buf
      ensures Valid()
      ensures buf == old(buf)[b := old(buf)[b].(owner := Some(pid), valid := true,
                       data := if old(buf)[b].valid then old(buf)[b].data else disk[old(buf)[b].blockno])]
    {
      buf := buf[b := buf[b].(owner := Some(pid))];
      if !buf[b].valid {
        buf := buf[b := buf[b].(data := disk[buf[b].blockno])];
        buf := buf[b := buf[b].(valid := true)];
      }
    }

    /** bread, called when no other process holds the buffer's lock (otherwise it waits for it). */
    method Bread(dev: nat, blockno: nat, pid: nat) returns (b: nat)
      requires Valid() && dev != 0 && blockno < |disk|
      requires forall c :: Caches(buf, c, dev, blockno) ==> buf[c].owner == None
      requires forall c :: Unused(buf, c) ==> buf[c].owner == None
      requires IsCached(buf, dev, blockno) || (exists c :: Unused(buf, c))
      modifies this
      ensures Valid() && b < NBUF
      ensures order == old(order) && stamp == old(stamp) && clock == old(clock)
      ensures pins == old(pins) && disk == old(disk) && trace == old(trace)
      ensures holders == old(holders)[b := old(holders)[b] + multiset{pid}]
      ensures if IsCached(old(buf), dev, blockno) then
                && Caches(old(buf), b, dev, blockno)
                && buf == old(buf)[b := Buf(true, dev, blockno, old(buf)[b].refcnt + 1, Some(pid),
                                            if old(buf)[b].valid then old(buf)[b].data else disk[blockno])]
              else
                && Unused(old(buf), b)
                && buf == old(buf)[b := Buf(true, dev, blockno, 1, Some(pid), disk[blockno])]
    {
      ghost var was := buf;
      b := Bget(dev, blockno, pid);
      assert buf[b].owner == None;
      LockAndFill(b, pid);
      assert buf == was[b := buf[b]];
    }

    /** bwrite: one atomic disk write of a locked buffer. */
    method Bwrite(b: nat, pid: nat)
      requires Valid() && b < NBUF && buf[b].owner == Some(pid) && buf[b].blockno < |disk|
      modifies this`disk, this`trace
      ensures Valid()
      ensures disk == old(disk)[buf[b].blockno := buf[b].data]
      ensures trace == old(trace) + [disk]
    {
      disk := disk[buf[b].blockno := buf[b].data];
      trace := trace + [disk];
    }

    /** The lock holder overwrites the buffer's data. */
    method SetData(b: nat, pid: nat, data: Block)
      requires Valid() && b < NBUF && buf[b].owner == Some(pid)
      modifies this`buf
      ensures Valid()
      ensures buf == old(buf)[b := old(buf)[b].(data := data)]
    {
      buf := buf[b := buf[b].(data := data)];
    }

    /** brelse: a buffer whose count reaches zero becomes the most recently released one. */
    method Brelse(b: nat, pid: nat)
      requires Valid() && b < NBUF && buf[b].owner == Some(pid)
      modifies this
      ensures Valid()
      ensures buf == old(buf)[b := old(buf)[b].(owner := None, refcnt := old(buf)[b].refcnt - 1)]
      ensures holders == old(holders)[b := old(holders)[b] - multiset{pid}]
      ensures pins == old(pins) && disk == old(disk) && trace == old(trace)
      ensures if old(buf)[b].refcnt == 1 then
                && stamp == old(stamp)[b := old(clock)] && clock == old(clock) + 1
                && MovedToFront(old(order), order, b)
              else order == old(order) && stamp == old(stamp) && clock == old(clock)
    {
      hide ListOk, CountsOk, Unique, MovedToFront;
      DropRef(b, pid);
      if buf[b].refcnt == 0 {
        MoveToFront(b);
      }
    }

    /** releasesleep and the count of brelse. */
    method DropRef(b: nat, pid: nat)
      requires CountsOk(buf, holders, pins) && Unique(buf) && b < NBUF && buf[b].owner == Some(pid)
      modifies this`buf, this`holders
      ensures CountsOk(buf, holders, pins) && Unique(buf) && |buf| == |old(buf)| == |holders| == |old(holders)| == NBUF
      ensures old(buf)[b].refcnt > 0
      ensures buf == old(buf)[b := old(buf)[b].(owner := None, refcnt := old(buf)[b].refcnt - 1)]
      ensures holders == old(holders)[b := old(holders)[b] - multiset{pid}]
    {
      ghost var h := holders[b] - multiset{pid};
      assert |h| == |holders[b]| - 1;
      buf := buf[b := buf[b].(owner := None)];
      buf := buf[b := buf[b].(refcnt := buf[b].refcnt - 1)];
      assert buf == old(buf)[b := old(buf)[b].(owner := None, refcnt := |h| + pins[b])];
      holders := holders[b := h];
      UpdateKeeps(old(buf), old(holders), pins, b, buf[b], holders[b]);
    }

    method Bpin(b: nat)
      requires Valid() && b < NBUF
      modifies this`buf, this`pins
      ensures Valid()
      ensures buf == old(buf)[b := old(buf)[b].(refcnt := old(buf)[b].refcnt + 1)]
      ensures pins == old(pins)[b := old(pins)[b] + 1]
    {
      buf := buf[b := buf[b].(refcnt := buf[b].refcnt + 1)];
      pins := pins[b := pins[b] + 1];
    }

    method Bunpin(b: nat)
      requires Valid() && b < NBUF && pins[b] > 0
      modifies this`buf, this`pins
      ensures Valid()
      ensures buf == old(buf)[b := old(buf)[b].(refcnt := old(buf)[b].refcnt - 1)]
      ensures pins == old(pins)[b := old(pins)[b] - 1]
    {
      buf := buf[b := buf[b].(refcnt := buf[b].refcnt - 1)];
      pins := pins[b := pins[b] - 1];
    }
  }
}
