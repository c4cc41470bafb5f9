/** The redo log of kernel/log.c on top of the buffer cache.

    `logged` is the one map the two refine: the last contents of every block that was logged (or
    written straight to disk by the log itself). `pinned` lists the blocks whose only up-to-date copy
    is in the cache. */
module WriteAheadLog {
  import opened Blocks
  import opened BufferCache
  import opened CrashRecovery

  // ---------- the cache agrees with `logged` ----------

  /** Every valid buffer that no process is working on holds the logged contents of its block. */
  ghost predicate Coherent(buf: seq<Buf>, logged: DiskState) {
    && (forall b :: 0 <= b < |buf| && buf[b].dev != 0 ==> buf[b].dev == ROOTDEV && buf[b].blockno < |logged|)
    && (forall b :: 0 <= b < |buf| && buf[b].valid ==> buf[b].dev != 0)
    && (forall b :: 0 <= b < |buf| && buf[b].valid && buf[b].owner == None ==> buf[b].data == logged[buf[b].blockno])
  }

  ghost predicate Holds(buf: seq<Buf>, b: int, k: nat) {
    Caches(buf, b, ROOTDEV, k) && buf[b].valid
  }

  /** A buffer is pinned, once, exactly when its block is pending; every pending block is in the cache. */
  ghost predicate Pinned(buf: seq<Buf>, pins: seq<nat>, pinned: seq<nat>) {
    && |pins| == |buf|
    && (forall b :: 0 <= b < |buf| ==> pins[b] == if buf[b].dev == ROOTDEV && buf[b].blockno in pinned then 1 else 0)
    && (forall k :: k in pinned ==> exists b :: Holds(buf, b, k))
  }

  /** A block with no pending update is up to date on the disk. */
  ghost predicate Flushed(disk: DiskState, logged: DiskState, pinned: seq<nat>) {
    |disk| == |logged| && forall k :: 0 <= k < |disk| && k !in pinned ==> disk[k] == logged[k]
  }

  /** Nobody has block k locked. */
  ghost predicate Unlocked(buf: seq<Buf>, k: nat) {
    forall b :: Caches(buf, b, ROOTDEV, k) ==> buf[b].owner == None
  }

  lemma UnusedIsFree(buf: seq<Buf>, holders: seq<multiset<nat>>, pins: seq<nat>)
    requires CountsOk(buf, holders, pins)
    ensures forall b :: Unused(buf, b) ==> buf[b].owner == None && pins[b] == 0
  {
    forall b | Unused(buf, b) ensures buf[b].owner == None && pins[b] == 0 {
      if buf[b].owner.Some? { assert holders[b][buf[b].owner.value] > 0; }
    }
  }

  /** What bread hands out: the logged contents, whether the block was cached, stale or evicted. */
  lemma BreadKeeps(buf: seq<Buf>, pins: seq<nat>, disk: DiskState, logged: DiskState, pinned: seq<nat>,
                   b: nat, k: nat, pid: nat, x: Buf)
    requires |buf| == NBUF && b < NBUF && Unique(buf) && Coherent(buf, logged) && Pinned(buf, pins, pinned)
    requires Flushed(disk, logged, pinned) && k < |disk|
    requires x.valid && x.dev == ROOTDEV && x.blockno == k && x.owner.Some?
    requires forall c :: Caches(buf, c, ROOTDEV, k) ==> buf[c].owner == None
    requires if IsCached(buf, ROOTDEV, k)
             then Caches(buf, b, ROOTDEV, k) && x.data == (if buf[b].valid then buf[b].data else disk[k])
             else pins[b] == 0 && x.data == disk[k]
    ensures Coherent(buf[b := x], logged) && Pinned(buf[b := x], pins, pinned)
    ensures x.data == logged[k]
  {
    var buf' := buf[b := x];
    if k in pinned {
      var c :| Holds(buf, c, k);
      assert Caches(buf, c, ROOTDEV, k) && c == b;
    }
    forall j | j in pinned ensures exists c :: Holds(buf', c, j) {
      var c :| Holds(buf, c, j);
      assert Holds(buf', if c == b then b else c, j);
    }
  }

  /** Releasing a buffer whose data is the logged contents, or changing only its counts. */
  lemma ReleaseKeeps(buf: seq<Buf>, pins: seq<nat>, logged: DiskState, pinned: seq<nat>, b: nat, x: Buf)
    requires |buf| == NBUF && b < NBUF && Coherent(buf, logged) && Pinned(buf, pins, pinned)
    requires x.valid == buf[b].valid && x.dev == buf[b].dev && x.blockno == buf[b].blockno
    requires x.valid && x.owner == None ==> x.dev == ROOTDEV && x.data == logged[x.blockno]
    ensures Coherent(buf[b := x], logged) && Pinned(buf[b := x], pins, pinned)
  {
    var buf' := buf[b := x];
    forall j | j in pinned ensures exists c :: Holds(buf', c, j) {
      var c :| Holds(buf, c, j);
      assert Holds(buf', c, j);
    }
  }

  /** Writing a locked buffer changes the logged contents of no other buffer's block. */
  lemma StoreKeeps(buf: seq<Buf>, logged: DiskState, b: nat, d: Block)
    requires Unique(buf) && Coherent(buf, logged) && b < |buf| && buf[b].dev == ROOTDEV && buf[b].owner.Some?
    ensures Coherent(buf, logged[buf[b].blockno := d])
  {
    forall c | 0 <= c < |buf| && c != b && buf[c].dev == ROOTDEV ensures buf[c].blockno != buf[b].blockno {
    }
  }

  /** A pending block survives the reading of another block. */
  lemma StillCached(buf: seq<Buf>, buf': seq<Buf>, pins: seq<nat>, pinned: seq<nat>, b: nat, k: nat)
    requires Pinned(buf, pins, pinned) && Unlocked(buf, k) && b < |buf| && k in pinned
    requires |buf'| == |buf| && buf' == buf[b := buf'[b]] && buf'[b].blockno != k
    requires Unused(buf, b) || Caches(buf, b, ROOTDEV, buf'[b].blockno)
    requires Unused(buf, b) ==> pins[b] == 0
    ensures IsCached(buf', ROOTDEV, k) && Unlocked(buf', k)
  {
    var c :| Holds(buf, c, k);
    assert Caches(buf', c, ROOTDEV, k);
    forall d | Caches(buf', d, ROOTDEV, k) ensures buf'[d].owner == None {
      assert Caches(buf, d, ROOTDEV, k);
    }
  }

  /** Reading one block locks no other. */
  lemma OtherUnlocked(buf: seq<Buf>, buf': seq<Buf>, b: nat, k: nat)
    requires Unlocked(buf, k) && b < |buf| == |buf'| && buf' == buf[b := buf'[b]] && buf'[b].blockno != k
    ensures Unlocked(buf', k)
  {
    forall c | Caches(buf', c, ROOTDEV, k) ensures buf'[c].owner == None {
      assert Caches(buf, c, ROOTDEV, k);
    }
  }

  lemma OneReleased(buf: seq<Buf>, buf': seq<Buf>, a: nat, k: nat)
    requires Unlocked(buf, k) && a < |buf| == |buf'| && buf' == buf[a := buf'[a]] && buf'[a].owner == None
    ensures Unlocked(buf', k)
  {
    forall c | Caches(buf', c, ROOTDEV, k) ensures buf'[c].owner == None {
      assert c != a ==> Caches(buf, c, ROOTDEV, k);
    }
  }

  lemma ReleasedUnlocked(buf: seq<Buf>, buf': seq<Buf>, a: nat, b: nat, k: nat)
    requires Unlocked(buf, k) && a < |buf| && b < |buf| && a != b && |buf'| == |buf|
    requires buf' == buf[a := buf'[a]][b := buf'[b]] && buf'[a].owner == None && buf'[b].owner == None
    ensures Unlocked(buf', k)
  {
    forall c | Caches(buf', c, ROOTDEV, k) ensures buf'[c].owner == None {
      assert c != a && c != b ==> Caches(buf, c, ROOTDEV, k);
    }
  }

  lemma UnpinKeeps(buf: seq<Buf>, pins: seq<nat>, logged: DiskState, pinned: seq<nat>, b: nat, x: Buf)
    requires |buf| == NBUF && b < NBUF && Unique(buf) && Coherent(buf, logged) && Pinned(buf, pins, pinned)
    requires |pinned| > 0 && Distinct(pinned) && buf[b].dev == ROOTDEV && buf[b].blockno == pinned[0]
    requires x == buf[b].(refcnt := x.refcnt)
    ensures pins[b] == 1
    ensures Coherent(buf[b := x], logged) && Pinned(buf[b := x], pins[b := 0], pinned[1..])
  {
    var buf' := buf[b := x];
    assert forall k :: k in pinned <==> k == pinned[0] || k in pinned[1..];
    forall j | j in pinned[1..] ensures exists c :: Holds(buf', c, j) {
      var c :| Holds(buf, c, j);
      assert Holds(buf', c, j);
    }
  }

  lemma NothingHeld(buf: seq<Buf>, holders: seq<multiset<nat>>, pins: seq<nat>)
    requires CountsOk(buf, holders, pins) && Pinned(buf, pins, [])
    requires forall b :: 0 <= b < |holders| ==> holders[b] == multiset{}
    ensures forall b :: 0 <= b < NBUF ==> buf[b].owner == None && buf[b].refcnt == 0
  {
  }

  /** Reading blocks and releasing them again leaves the unused buffers unused. */
  lemma StillUnused(buf: seq<Buf>, holders: seq<multiset<nat>>, pins: seq<nat>, buf': seq<Buf>, pins': seq<nat>)
    requires CountsOk(buf, holders, pins) && CountsOk(buf', holders, pins')
    requires forall b :: 0 <= b < NBUF ==> pins'[b] <= pins[b]
    requires exists b :: Unused(buf, b)
    ensures exists b :: Unused(buf', b)
  {
    var b :| Unused(buf, b);
    assert Unused(buf', b);
  }

  lemma GetKeeps(buf: seq<Buf>, pins: seq<nat>, logged: DiskState, pinned: seq<nat>, b: nat, k: nat, x: Buf)
    requires |buf| == NBUF && b < NBUF && Coherent(buf, logged) && Pinned(buf, pins, pinned) && k < |logged|
    requires if IsCached(buf, ROOTDEV, k)
             then Caches(buf, b, ROOTDEV, k) && x == buf[b].(refcnt := x.refcnt)
             else pins[b] == 0 && !x.valid && x.dev == ROOTDEV && x.blockno == k
    ensures Coherent(buf[b := x], logged) && Pinned(buf[b := x], pins, pinned)
  {
    var buf' := buf[b := x];
    if k in pinned {
      var c :| Holds(buf, c, k);
      assert Caches(buf, c, ROOTDEV, k);
    }
    forall j | j in pinned ensures exists c :: Holds(buf', c, j) {
      var c :| Holds(buf, c, j);
      assert Holds(buf', c, j);
    }
  }

  lemma LockKeeps(buf: seq<Buf>, pins: seq<nat>, disk: DiskState, logged: DiskState, pinned: seq<nat>, b: nat, x: Buf)
    requires |buf| == NBUF && b < NBUF && Unique(buf) && Coherent(buf, logged) && Pinned(buf, pins, pinned)
    requires Flushed(disk, logged, pinned) && buf[b].dev == ROOTDEV && buf[b].owner == None
    requires x.owner.Some? && x == buf[b].(owner := x.owner, valid := true,
                                           data := if buf[b].valid then buf[b].data else disk[buf[b].blockno])
    ensures Coherent(buf[b := x], logged) && Pinned(buf[b := x], pins, pinned)
    ensures x.data == logged[x.blockno]
  {
    assert Caches(buf, b, ROOTDEV, x.blockno);
    BreadKeeps(buf, pins, disk, logged, pinned, b, x.blockno, x.owner.value, x);
  }

  /** Adding a block to the log: pinned, and its new contents are the logged ones. */
  lemma AppendKeeps(buf: seq<Buf>, pins: seq<nat>, logged: DiskState, disk: DiskState, pinned: seq<nat>,
                    b: nat, x: Buf, start: nat)
    requires |buf| == NBUF && b < NBUF && Unique(buf) && Coherent(buf, logged) && Pinned(buf, pins, pinned)
    requires Flushed(disk, logged, pinned) && GoodBlocks(pinned, |disk|, start) && |pinned| < LOGBLOCKS
    requires buf[b].valid && buf[b].owner.Some? && x == buf[b].(refcnt := x.refcnt)
    requires x.blockno !in pinned && Home(x.blockno, start)
    ensures var k, p := x.blockno, pinned + [x.blockno];
            && pins[b] == 0 && k < |logged| && GoodBlocks(p, |disk|, start)
            && Coherent(buf[b := x], logged[k := x.data])
            && Pinned(buf[b := x], pins[b := 1], p)
            && Flushed(disk, logged[k := x.data], p)
  {
    var buf', p := buf[b := x], pinned + [x.blockno];
    assert forall k :: k in p <==> k in pinned || k == x.blockno;
    StoreKeeps(buf, logged, b, x.data);
    forall j | j in p ensures exists c :: Holds(buf', c, j) {
      if j == x.blockno {
        assert Holds(buf', b, j);
      } else {
        var c :| Holds(buf, c, j);
        assert Holds(buf', c, j);
      }
    }
  }

  lemma AbsorbKeeps(buf: seq<Buf>, logged: DiskState, disk: DiskState, pinned: seq<nat>, b: nat)
    requires |buf| == NBUF && b < NBUF && Unique(buf) && Coherent(buf, logged) && Flushed(disk, logged, pinned)
    requires buf[b].valid && buf[b].owner.Some? && buf[b].blockno in pinned
    ensures Coherent(buf, logged[buf[b].blockno := buf[b].data])
    ensures Flushed(disk, logged[buf[b].blockno := buf[b].data], pinned)
  {
    StoreKeeps(buf, logged, b, buf[b].data);
  }

  // ---------- crash points ----------

  ghost predicate Decoded(d: DiskState, start: nat, bs: seq<nat>) {
    start + LOGBLOCKS < |d| <= UINT32 && HeadOk(d[start]) && Decode(d[start]) == bs
  }

  ghost predicate EmptyHeader(d: DiskState, start: nat) {
    Decoded(d, start, [])
  }

  /** A crash here recovers to the home blocks of e. */
  ghost predicate RecoversTo(d: DiskState, e: DiskState, start: nat) {
    GoodLog(d, start) && SameHome(Recovered(d, start), e, start)
  }

  /** The disk right after the header write. */
  ghost predicate CommitPoint(d: DiskState, logged: DiskState, start: nat) {
    && GoodLog(d, start)
    && |d| == |logged|
    && (forall i :: 0 <= i < |Decode(d[start])| ==> d[start + 1 + i] == logged[Decode(d[start])[i]])
    && (forall k :: 0 <= k < |d| && k !in Decode(d[start]) ==> d[k] == logged[k])
  }

  lemma CommitPointRecovers(d: DiskState, logged: DiskState, start: nat)
    requires CommitPoint(d, logged, start)
    ensures RecoversTo(d, logged, start)
  {
    var bs := Decode(d[start]);
    InstalledAt(d, start, bs, |bs|);
    assert bs[..|bs|] == bs;
    forall k | 0 <= k < |d| && Home(k, start) ensures Recovered(d, start)[k] == logged[k] {
      if k in bs {
        var j :| 0 <= j < |bs| && bs[j] == k;
      }
    }
  }

  /** Every write from number `lo` up to `hi` leaves a disk that recovers to e. */
  ghost predicate CrashSafe(trace: seq<DiskState>, lo: nat, hi: nat, e: DiskState, start: nat) {
    hi <= |trace| && forall j :: lo <= j < hi ==> RecoversTo(trace[j], e, start)
  }

  /** No home block was written between lo and hi. */
  ghost predicate HomesKept(trace: seq<DiskState>, lo: nat, hi: nat, d: DiskState, start: nat) {
    hi <= |trace| && forall j :: lo <= j < hi ==> SameHome(trace[j], d, start)
  }

  lemma HomesKeptExtends(trace: seq<DiskState>, trace': seq<DiskState>, lo: nat, hi: nat, d: DiskState, start: nat)
    requires HomesKept(trace, lo, hi, d, start) && trace <= trace'
    ensures HomesKept(trace', lo, hi, d, start)
  {
  }

  lemma CrashSafeExtends(trace: seq<DiskState>, trace': seq<DiskState>, lo: nat, hi: nat, e: DiskState, start: nat)
    requires CrashSafe(trace, lo, hi, e, start) && trace <= trace'
    ensures CrashSafe(trace', lo, hi, e, start)
  {
  }

  /** Log blocks written under an empty header are invisible to recovery. */
  lemma EmptyLogRecovers(d: DiskState, trace: seq<DiskState>, lo: nat, start: nat)
    requires EmptyHeader(d, start)
    requires forall j :: lo <= j < |trace| ==> SameHome(trace[j], d, start) && trace[j][start] == d[start]
    ensures CrashSafe(trace, lo, |trace|, d, start)
  {
  }

  /** Writes number `lo` onwards install the blocks of the log one by one, t of them so far. */
  ghost predicate Installing(trace: seq<DiskState>, lo: nat, d: DiskState, start: nat, bs: seq<nat>, t: nat) {
    && |d| > start + LOGBLOCKS && GoodBlocks(bs, |d|, start) && t <= |bs|
    && |trace| == lo + t
    && forall j :: lo <= j < lo + t ==> trace[j] == Installed(d, start, bs, j - lo + 1)
  }

  lemma NothingInstalled(trace: seq<DiskState>, d: DiskState, start: nat, bs: seq<nat>)
    requires |d| > start + LOGBLOCKS && GoodBlocks(bs, |d|, start)
    ensures Installed(d, start, bs, 0) == d && Installing(trace, |trace|, d, start, bs, 0)
  {
  }

  lemma InstallingStep(trace: seq<DiskState>, lo: nat, d: DiskState, start: nat, bs: seq<nat>, t: nat, disk: DiskState)
    requires Installing(trace, lo, d, start, bs, t) && t < |bs| <= LOGBLOCKS && disk == Installed(d, start, bs, t)
    ensures bs[t] < |disk| == |d|
    ensures var disk' := disk[bs[t] := d[start + t + 1]];
            disk' == Installed(d, start, bs, t + 1) && Installing(trace + [disk'], lo, d, start, bs, t + 1)
  {
  }

  lemma InstallPointsRecover(d: DiskState, logged: DiskState, trace: seq<DiskState>, lo: nat, start: nat)
    requires CommitPoint(d, logged, start)
    requires Installing(trace, lo, d, start, Decode(d[start]), |Decode(d[start])|)
    ensures CrashSafe(trace, lo, |trace|, logged, start)
    ensures SameHome(Recovered(d, start), logged, start)
  {
    CommitPointRecovers(d, logged, start);
    forall j | lo <= j < |trace| ensures RecoversTo(trace[j], logged, start) {
      PartialInstallRecovers(d, start, j - lo + 1);
    }
  }

  /** Erasing the header of a fully installed disk. */
  lemma ClearPointRecovers(d: DiskState, logged: DiskState, start: nat)
    requires CommitPoint(d, logged, start)
    ensures var e := Recovered(d, start);
            && BlockOk(e[start])
            && EmptyHeader(Cleared(e, start), start)
            && RecoversTo(Cleared(e, start), logged, start)
  {
    LogUntouched(d, start, Decode(d[start]), |Decode(d[start])|);
    CommitPointRecovers(d, logged, start);
    ClearedRecovers(Recovered(d, start), start);
  }

  lemma SameHomeTransitive(a: DiskState, b: DiskState, c: DiskState, start: nat)
    requires SameHome(a, b, start) && SameHome(b, c, start)
    ensures SameHome(a, c, start)
  {
  }

  lemma CrashSafeFrom(trace: seq<DiskState>, lo: nat, hi: nat, e: DiskState, start: nat)
    requires lo < hi && CrashSafe(trace, lo + 1, hi, e, start) && RecoversTo(trace[lo], e, start)
    ensures CrashSafe(trace, lo, hi, e, start)
  {
  }

  lemma SameTarget(trace: seq<DiskState>, lo: nat, hi: nat, e: DiskState, f: DiskState, start: nat)
    requires CrashSafe(trace, lo, hi, e, start) && SameHome(e, f, start)
    ensures CrashSafe(trace, lo, hi, f, start)
  {
  }

  /** Crash atomicity, end to end: from a crash point that recovers to e, any number of crashing boots
      followed by a completed recovery leaves exactly the home blocks of e and an empty log. */
  lemma CrashAtomicity(d: DiskState, e: DiskState, boots: seq<DiskState>, start: nat)
    requires RecoversTo(d, e, start) && CrashingBoots(boots, start) && boots[0] == d
    ensures var t := RecoveryTrace(boots[|boots| - 1], start);
            EmptyHeader(t[|t| - 1], start) && SameHome(t[|t| - 1], e, start)
  {
    RecoveryIsIdempotent(boots, start);
  }

  lemma TraceIsRecovery(t0: seq<DiskState>, t1: seq<DiskState>, d: DiskState, start: nat)
    requires GoodLog(d, start) && t0 <= t1
    requires Installing(t1, |t0|, d, start, Decode(d[start]), |Decode(d[start])|)
    ensures BlockOk(Recovered(d, start)[start])
    ensures t1 + [Cleared(Recovered(d, start), start)] == t0 + RecoveryTrace(d, start)
  {
    LogUntouched(d, start, Decode(d[start]), |Decode(d[start])|);
  }

  // ---------- log space ----------

  const MAXOPBLOCKS: nat := 10

  /** Blocks an operation may still add; -1 stands for a process with no operation in progress. */
  ghost function Room(used: int): int {
    if used < 0 then 0 else MAXOPBLOCKS - used
  }

  ghost function TotalRoom(used: seq<int>): int {
    if |used| == 0 then 0 else Room(used[0]) + TotalRoom(used[1..])
  }

  ghost function Active(used: seq<int>): nat {
    if |used| == 0 then 0 else (if used[0] < 0 then 0 else 1) + Active(used[1..])
  }

  lemma {:induction false} OneOperationChanges(used: seq<int>, p: nat, u: int)
    requires p < |used|
    ensures TotalRoom(used[p := u]) == TotalRoom(used) - Room(used[p]) + Room(u)
    ensures Active(used[p := u]) == Active(used) - (if used[p] < 0 then 0 else 1) + (if u < 0 then 0 else 1)
  {
    var w := used[p := u];
    if p == 0 {
      assert w[1..] == used[1..];
    } else {
      OneOperationChanges(used[1..], p - 1, u);
      assert w[1..] == used[1..][p - 1 := u];
    }
  }

  lemma {:induction false} RoomBounds(used: seq<int>, p: nat)
    requires p < |used| && forall q :: 0 <= q < |used| ==> used[q] <= MAXOPBLOCKS
    ensures Room(used[p]) <= TotalRoom(used) <= MAXOPBLOCKS * Active(used)
    ensures used[p] >= 0 ==> Active(used) > 0
  {
    if |used| > 1 {
      RoomBounds(used[1..], if p == 0 then 0 else p - 1);
      assert p > 0 ==> used[1..][p - 1] == used[p];
    }
  }

  ghost predicate SpaceOk(used: seq<int>, n: nat, outstanding: int) {
    && outstanding == Active(used)
    && (forall p :: 0 <= p < |used| ==> -1 <= used[p] <= MAXOPBLOCKS)
    && n + TotalRoom(used) <= LOGBLOCKS
  }

  /** An operation inside its allowance always finds a free log entry. */
  lemma LogSpaceLeft(used: seq<int>, n: nat, outstanding: int, p: nat)
    requires SpaceOk(used, n, outstanding) && p < |used| && used[p] >= 0
    ensures outstanding >= 1
    ensures used[p] < MAXOPBLOCKS ==> n < LOGBLOCKS && SpaceOk(used[p := used[p] + 1], n + 1, outstanding)
  {
    RoomBounds(used, p);
    OneOperationChanges(used, p, used[p] + 1);
  }

  /** Without operations nothing is reserved. */
  lemma {:induction false} NoOperations(n: nat)
    ensures SpaceOk(seq(n, _ => -1), 0, 0)
  {
    NoRoom(seq(n, _ => -1));
  }

  lemma {:induction false} NoRoom(used: seq<int>)
    requires forall p :: 0 <= p < |used| ==> used[p] == -1
    ensures TotalRoom(used) == Active(used) == 0
  {
    if used != [] { NoRoom(used[1..]); }
  }

  /** The test of begin_op's loop. */
  predicate MustWait(committing: bool, n: nat, outstanding: int) {
    committing || n + (outstanding + 1) * MAXOPBLOCKS > LOGBLOCKS
  }

  class Log {
    const cache: Cache
    const start: nat
    var outstanding: int
    var committing: bool
    var lh: seq<nat>                  // lh.block[0 .. lh.n]

    ghost var logged: DiskState
    ghost var pinned: seq<nat>
    ghost var used: seq<int>          // blocks added by each process's operation, -1 when it has none
    ghost var sleeping: set<nat>      // processes asleep on &log

    /** initlog before recovery: nothing is pending, and what the cache holds is what is on the disk. */
    constructor (cache: Cache, start: nat, ghost nproc: nat)
      requires cache.Valid() && Coherent(cache.buf, cache.disk)
      requires forall b :: 0 <= b < NBUF ==> cache.pins[b] == 0
      requires start + LOGBLOCKS < |cache.disk| <= UINT32
      ensures this.cache == cache && this.start == start
      ensures Core() && lh == [] && pinned == [] && logged == cache.disk
      ensures Unstarted() && |used| == nproc
    {
      this.cache := cache;
      this.start := start;
      outstanding, committing, lh := 0, false, [];
      logged, pinned := cache.disk, [];
      used, sleeping := seq(nproc, _ => -1), {};
    }

    /** No operation has begun. */
    ghost predicate Unstarted()
      reads this
    {
      outstanding == 0 && !committing && sleeping == {} && used == seq(|used|, _ => -1)
    }

    /** The cache and the log refine `logged`. */
    ghost predicate Core()
      reads this, cache
    {
      && cache.Valid()
      && Coherent(cache.buf, logged)
      && Pinned(cache.buf, cache.pins, pinned)
      && Flushed(cache.disk, logged, pinned)
      && start + LOGBLOCKS < |cache.disk| <= UINT32
      && GoodBlocks(lh, |cache.disk|, start)
      && GoodBlocks(pinned, |cache.disk|, start)
    }

    /** The blocks commit works on. */
    ghost predicate Needed(k: nat)
      reads this
    {
      start <= k <= start + LOGBLOCKS || k in lh
    }

    /** What commit waits for: some buffer is unused, and nobody has a block it needs locked. Other processes may
        hold any other buffers. */
    ghost predicate Quiet()
      reads this, cache
    {
      (exists b :: Unused(cache.buf, b)) && forall k: nat :: Needed(k) ==> Unlocked(cache.buf, k)
    }

    /** Nobody holds a buffer, as after booting. */
    ghost predicate NoHolders()
      reads cache
    {
      forall b :: 0 <= b < |cache.holders| ==> cache.holders[b] == multiset{}
    }

    // ---------- single cache operations, as the file system and the log use them ----------

    /** bread: returns the logged contents of the block. */
    method Read(k: nat, pid: nat) returns (b: nat)
      requires Core() && k < |cache.disk|
      requires Unlocked(cache.buf, k)
      requires IsCached(cache.buf, ROOTDEV, k) || (exists c :: Unused(cache.buf, c))
      modifies cache
      ensures Core() && b < NBUF
      ensures cache.buf == old(cache.buf)[b := cache.buf[b]]
      ensures cache.buf[b].valid && cache.buf[b].dev == ROOTDEV && cache.buf[b].blockno == k
      ensures cache.buf[b].owner == Some(pid) && cache.buf[b].data == logged[k] && cache.buf[b].refcnt > 0
      ensures Unused(old(cache.buf), b) || Caches(old(cache.buf), b, ROOTDEV, k)
      ensures cache.holders == old(cache.holders)[b := old(cache.holders)[b] + multiset{pid}]
      ensures cache.pins == old(cache.pins) && cache.disk == old(cache.disk) && cache.trace == old(cache.trace)
      ensures old(Valid()) ==> Valid()
    {
      UnusedIsFree(cache.buf, cache.holders, cache.pins);
      b := cache.Bread(ROOTDEV, k, pid);
      BreadKeeps(old(cache.buf), cache.pins, cache.disk, logged, pinned, b, k, pid, cache.buf[b]);
    }

    /** brelse of a buffer that holds the logged contents. */
    method Release(b: nat, pid: nat)
      requires Core() && b < NBUF && cache.buf[b].owner == Some(pid)
      requires cache.buf[b].valid && cache.buf[b].data == logged[cache.buf[b].blockno]
      modifies cache
      ensures Core()
      ensures cache.buf == old(cache.buf)[b :=
                                          old(cache.buf)[b].(owner := None, refcnt := old(cache.buf)[b].refcnt - 1)]
      ensures cache.holders == old(cache.holders)[b := old(cache.holders)[b] - multiset{pid}]
      ensures cache.pins == old(cache.pins) && cache.disk == old(cache.disk) && cache.trace == old(cache.trace)
      ensures old(Valid()) ==> Valid()
    {
      cache.Brelse(b, pid);
      ReleaseKeeps(old(cache.buf), cache.pins, logged, pinned, b, cache.buf[b]);
    }

    /** memmove into a locked buffer followed by bwrite. */
    method Store(b: nat, pid: nat, d: Block)
      requires Core() && b < NBUF && cache.buf[b].owner == Some(pid) && cache.buf[b].valid
      modifies this`logged, cache`buf, cache`disk, cache`trace
      ensures Core()
      ensures cache.buf == old(cache.buf)[b := old(cache.buf)[b].(data := d)]
      ensures cache.disk == old(cache.disk)[cache.buf[b].blockno := d]
      ensures logged == old(logged)[cache.buf[b].blockno := d]
      ensures cache.trace == old(cache.trace) + [cache.disk]
    {
      cache.SetData(b, pid, d);
      ReleaseKeeps(old(cache.buf), cache.pins, logged, pinned, b, cache.buf[b]);
      cache.Bwrite(b, pid);
      logged := logged[cache.buf[b].blockno := d];
      StoreKeeps(cache.buf, old(logged), b, d);
    }

    // ---------- what commit relies on ----------

    lemma LogSlot(t: nat)
      requires Core() && t < |lh|
      ensures start + t + 1 < |cache.disk| == |logged| && start + t + 1 !in pinned && start + t + 1 !in lh
      ensures t < LOGBLOCKS
      ensures cache.disk[start + t + 1] == logged[start + t + 1]
      ensures forall i :: 0 <= i < |lh| ==> lh[i] < |cache.disk|
    {
    }

    lemma HeadSlot()
      requires Core()
      ensures start + LOGBLOCKS < |cache.disk| == |logged| && start !in pinned
      ensures cache.disk[start] == logged[start] && |lh| <= LOGBLOCKS
      ensures GoodBlocks(lh, |cache.disk|, start)
      ensures forall i :: 0 <= i < |lh| ==> lh[i] < |logged|
      ensures WordsOk(lh)
    {
    }

    /** After a round of reads and releases commit can go on. */
    lemma QuietAgain(buf: seq<Buf>, pins: seq<nat>)
      requires Core() && CountsOk(buf, cache.holders, pins) && forall b :: 0 <= b < NBUF ==> cache.pins[b] <= pins[b]
      requires exists b :: Unused(buf, b)
      requires forall k: nat :: Needed(k) ==> Unlocked(cache.buf, k)
      ensures Quiet()
    {
      StillUnused(buf, cache.holders, pins, cache.buf, cache.pins);
    }

    lemma CountsNow()
      requires Core()
      ensures CountsOk(cache.buf, cache.holders, cache.pins) && |cache.buf| == |cache.holders| == |cache.pins| == NBUF
    {
    }

    lemma AllFree()
      requires Core() && NoHolders() && pinned == []
      ensures forall b :: 0 <= b < NBUF ==> cache.buf[b].owner == None && cache.buf[b].refcnt == 0
    {
      NothingHeld(cache.buf, cache.holders, cache.pins);
    }

    lemma CommitPointReached()
      requires Core() && pinned == lh && Decoded(cache.disk, start, lh)
      requires forall i :: 0 <= i < |lh| ==> cache.disk[start + 1 + i] == logged[lh[i]]
      ensures CommitPoint(cache.disk, logged, start)
      ensures forall i :: 0 <= i < |lh| ==> logged[lh[i]] == logged[start + i + 1]
    {
    }

    // ---------- commit ----------

    /** The two breads that start a round of write_log and of install_trans: the log slot and the block it
        belongs to. */
    method ReadPair(t: nat, recovering: bool, pid: nat) returns (lbuf: nat, dbuf: nat)
      requires Core() && Quiet() && t < |lh|
      requires if recovering then pinned == [] && NoHolders() else lh[t] in pinned
      modifies cache
      ensures Core() && lbuf < NBUF && dbuf < NBUF && lbuf != dbuf
      ensures cache.buf[lbuf].valid && cache.buf[lbuf].dev == ROOTDEV && cache.buf[lbuf].owner == Some(pid)
      ensures cache.buf[dbuf].valid && cache.buf[dbuf].dev == ROOTDEV && cache.buf[dbuf].owner == Some(pid)
      ensures cache.buf[lbuf].blockno == start + t + 1 && cache.buf[dbuf].blockno == lh[t] != start + t + 1
      ensures cache.buf[lbuf].data == logged[start + t + 1] && cache.buf[dbuf].data == logged[lh[t]]
      ensures |cache.buf| == |cache.holders| == |old(cache.holders)| == NBUF
      ensures cache.buf == old(cache.buf)[lbuf := cache.buf[lbuf]][dbuf := cache.buf[dbuf]]
      ensures cache.holders == old(cache.holders)[lbuf := old(cache.holders)[lbuf] + multiset{pid}]
                                                 [dbuf := old(cache.holders)[dbuf] + multiset{pid}]
      ensures cache.pins == old(cache.pins) && cache.disk == old(cache.disk) && cache.trace == old(cache.trace)
    {
      hide Coherent, Pinned, Flushed, GoodBlocks, Cache.Valid, IsCached, Unlocked;
      LogSlot(t);
      CountsNow();
      assert Needed(start + t + 1) && Needed(lh[t]);
      ghost var buf0 := cache.buf;
      if recovering { AllFree(); }
      lbuf := Read(start + t + 1, pid);
      if recovering {
        assert Unused(cache.buf, if lbuf == 0 then 1 else 0);
        OtherUnlocked(buf0, cache.buf, lbuf, lh[t]);
      } else {
        StillCached(buf0, cache.buf, cache.pins, pinned, lbuf, lh[t]);
      }
      dbuf := Read(lh[t], pid);
    }

    /** Both buffers of a round are released. */
    method ReleasePair(lbuf: nat, dbuf: nat, pid: nat, ghost buf0: seq<Buf>, ghost holders0: seq<multiset<nat>>,
                       ghost pins0: seq<nat>)
      requires Core() && lbuf < NBUF && dbuf < NBUF && lbuf != dbuf
      requires cache.buf[lbuf].valid && cache.buf[lbuf].owner == Some(pid)
      requires cache.buf[lbuf].data == logged[cache.buf[lbuf].blockno]
      requires cache.buf[dbuf].valid && cache.buf[dbuf].owner == Some(pid)
      requires cache.buf[dbuf].data == logged[cache.buf[dbuf].blockno]
      requires CountsOk(buf0, holders0, pins0) && (exists b :: Unused(buf0, b))
      requires forall b :: 0 <= b < NBUF ==> cache.pins[b] <= pins0[b]
      requires |cache.buf| == |holders0| == |buf0| == NBUF
      requires cache.buf == buf0[lbuf := cache.buf[lbuf]][dbuf := cache.buf[dbuf]]
      requires cache.holders == holders0[lbuf := holders0[lbuf] + multiset{pid}][dbuf := holders0[dbuf] + multiset{pid}]
      requires forall k: nat :: Needed(k) ==> Unlocked(buf0, k)
      modifies cache
      ensures Core() && Quiet() && cache.holders == holders0
      ensures cache.pins == old(cache.pins) && cache.disk == old(cache.disk) && cache.trace == old(cache.trace)
    {
      hide Coherent, Pinned, Flushed, GoodBlocks, Cache.Valid, IsCached, CountsOk, Unlocked, Needed;
      Release(lbuf, pid);
      Release(dbuf, pid);
      assert holders0[lbuf] + multiset{pid} - multiset{pid} == holders0[lbuf];
      assert holders0[dbuf] + multiset{pid} - multiset{pid} == holders0[dbuf];
      assert cache.holders == holders0;
      forall k: nat | Needed(k) ensures Unlocked(cache.buf, k) {
        ReleasedUnlocked(buf0, cache.buf, lbuf, dbuf, k);
      }
      QuietAgain(buf0, pins0);
    }

    /** One round of write_log: copy the cached block to its log slot. */
    method WriteLogBlock(t: nat, pid: nat)
      requires Core() && Quiet() && pinned == lh && t < |lh|
      modifies this`logged, cache
      ensures Core() && Quiet()
      ensures cache.pins == old(cache.pins) && cache.holders == old(cache.holders)
      ensures logged == old(logged)[start + t + 1 := old(logged)[lh[t]]]
      ensures cache.disk == old(cache.disk)[start + t + 1 := old(logged)[lh[t]]]
      ensures cache.trace == old(cache.trace) + [cache.disk]
    {
      hide Coherent, Pinned, Flushed, GoodBlocks, Cache.Valid, IsCached, Unlocked;
      LogSlot(t);
      CountsNow();
      var to, from := ReadPair(t, false, pid);
      Store(to, pid, cache.buf[from].data);
      ReleasePair(from, to, pid, old(cache.buf), old(cache.holders), old(cache.pins));
    }

    /** write_log: afterwards every log slot holds the logged contents of its block; no home block
        and no header was written on the way. */
    method WriteLog(pid: nat)
      requires Core() && Quiet() && pinned == lh
      modifies this`logged, cache
      ensures Core() && Quiet() && cache.holders == old(cache.holders)
      ensures cache.disk[start] == old(cache.disk)[start]
      ensures SameHome(logged, old(logged), start) && SameHome(cache.disk, old(cache.disk), start)
      ensures forall i :: 0 <= i < |lh| ==> cache.disk[start + 1 + i] == logged[lh[i]]
      ensures |cache.trace| == |old(cache.trace)| + |lh| && old(cache.trace) <= cache.trace
      ensures forall j :: |old(cache.trace)| <= j < |cache.trace| ==>
                SameHome(cache.trace[j], old(cache.disk), start) && cache.trace[j][start] == old(cache.disk)[start]
    {
      hide Core, Quiet;
      HeadSlot();
      var tail := 0;
      while tail < |lh|
        invariant 0 <= tail <= |lh| <= LOGBLOCKS
        invariant Core() && Quiet() && cache.holders == old(cache.holders)
        invariant start + LOGBLOCKS < |cache.disk| == |logged|
        invariant forall i :: 0 <= i < |lh| ==> lh[i] < |logged|
        invariant cache.disk[start] == old(cache.disk)[start]
        invariant SameHome(logged, old(logged), start) && SameHome(cache.disk, old(cache.disk), start)
        invariant forall i :: 0 <= i < tail ==> cache.disk[start + 1 + i] == logged[lh[i]]
        invariant |cache.trace| == |old(cache.trace)| + tail && old(cache.trace) <= cache.trace
        invariant forall j :: |old(cache.trace)| <= j < |cache.trace| ==>
                    SameHome(cache.trace[j], old(cache.disk), start) && cache.trace[j][start] == old(cache.disk)[start]
      {
        LogSlot(tail);
        WriteLogBlock(tail, pid);
        tail := tail + 1;
      }
    }

    /** The copy loop of write_head. */
    method FillHead(b: Block) returns (hb: Block)
      requires BlockOk(b) && |lh| <= LOGBLOCKS && WordsOk(lh)
      ensures hb == Encode(b, lh)
    {
      hb := PutWord(b, 0, |lh|);
      var i := 0;
      while i < |lh|
        invariant 0 <= i <= |lh| && hb == PutWords(PutWord(b, 0, |lh|), 1, lh, i)
      {
        hb := PutWord(hb, 1 + i, lh[i]);
        i := i + 1;
      }
    }

    /** write_head: the header block on disk now lists exactly lh. */
    method WriteHead(pid: nat)
      requires Core() && Quiet() && BlockOk(logged[start])
      modifies this`logged, cache
      ensures Core() && Quiet() && cache.holders == old(cache.holders)
      ensures logged == old(logged)[start := Encode(old(logged)[start], lh)]
      ensures cache.disk == old(cache.disk)[start := Encode(old(logged)[start], lh)]
      ensures cache.trace == old(cache.trace) + [cache.disk]
    {
      hide Coherent, Pinned, Flushed, Cache.Valid, IsCached, Unlocked;
      HeadSlot();
      CountsNow();
      assert Needed(start);
      var b := Read(start, pid);
      var hb := FillHead(cache.buf[b].data);
      Store(b, pid, hb);
      ReleaseOne(b, pid, old(cache.buf), old(cache.holders));
    }

    method ReleaseOne(b: nat, pid: nat, ghost buf0: seq<Buf>, ghost holders0: seq<multiset<nat>>)
      requires Core() && b < NBUF && cache.buf[b].valid && cache.buf[b].owner == Some(pid)
      requires cache.buf[b].data == logged[cache.buf[b].blockno]
      requires CountsOk(buf0, holders0, cache.pins) && (exists c :: Unused(buf0, c))
      requires |cache.buf| == |holders0| == |buf0| == NBUF && cache.buf == buf0[b := cache.buf[b]]
      requires cache.holders == holders0[b := holders0[b] + multiset{pid}]
      requires forall k: nat :: Needed(k) ==> Unlocked(buf0, k)
      modifies cache
      ensures Core() && Quiet() && cache.holders == holders0
      ensures cache.pins == old(cache.pins) && cache.disk == old(cache.disk) && cache.trace == old(cache.trace)
    {
      hide Coherent, Pinned, Flushed, GoodBlocks, Cache.Valid, IsCached, Unlocked, Needed;
      CountsNow();
      Release(b, pid);
      assert holders0[b] + multiset{pid} - multiset{pid} == holders0[b];
      assert cache.holders == holders0;
      forall k: nat | Needed(k) ensures Unlocked(cache.buf, k) {
        OneReleased(buf0, cache.buf, b, k);
      }
      QuietAgain(buf0, cache.pins);
    }

    /** bunpin of a buffer whose block is up to date on the disk. */
    method Unpin(b: nat)
      requires Core() && b < NBUF && |pinned| > 0
      requires cache.buf[b].dev == ROOTDEV && cache.buf[b].blockno == pinned[0]
      requires pinned[0] < |cache.disk| && cache.disk[pinned[0]] == logged[pinned[0]]
      modifies this`pinned, cache`buf, cache`pins
      ensures Core() && pinned == old(pinned)[1..]
      ensures cache.buf == old(cache.buf)[b := old(cache.buf)[b].(refcnt := old(cache.buf)[b].refcnt - 1)]
      ensures |cache.pins| == |old(cache.pins)|
      ensures forall c :: 0 <= c < |cache.pins| ==> cache.pins[c] <= old(cache.pins)[c]
    {
      UnpinKeeps(cache.buf, cache.pins, logged, pinned, b, cache.buf[b]);
      cache.Bunpin(b);
      UnpinKeeps(old(cache.buf), old(cache.pins), logged, pinned, b, cache.buf[b]);
      pinned := pinned[1..];
    }

    /** One round of install_trans: copy the log slot to the block's home. */
    method InstallBlock(t: nat, recovering: bool, pid: nat)
      requires Core() && Quiet() && t < |lh|
      requires if recovering
               then pinned == [] && NoHolders() else pinned == lh[t..] && logged[lh[t]] == logged[start + t + 1]
      modifies this`logged, this`pinned, cache
      ensures Core() && Quiet() && cache.holders == old(cache.holders)
      ensures pinned == if recovering then [] else lh[t + 1..]
      ensures logged == old(logged)[lh[t] := old(logged)[start + t + 1]]
      ensures cache.disk == old(cache.disk)[lh[t] := old(cache.disk)[start + t + 1]]
      ensures cache.trace == old(cache.trace) + [cache.disk]
    {
      hide Coherent, Pinned, Flushed, GoodBlocks, Cache.Valid, IsCached, Unlocked;
      LogSlot(t);
      CountsNow();
      var lbuf, dbuf := ReadPair(t, recovering, pid);
      Store(dbuf, pid, cache.buf[lbuf].data);
      if !recovering {
        Unpin(dbuf);
      }
      ReleasePair(lbuf, dbuf, pid, old(cache.buf), old(cache.holders), old(cache.pins));
    }

    /** One round of install_trans, after t blocks of the n-th trace entry on. */
    method InstallNext(t: nat, recovering: bool, pid: nat, ghost d: DiskState, ghost n: nat)
      requires Core() && Quiet() && t < |lh| <= LOGBLOCKS && |cache.disk| == |d| == |logged|
      requires Installing(cache.trace, n, d, start, lh, t) && cache.disk == Installed(d, start, lh, t)
      requires recovering ==> pinned == [] && NoHolders()
      requires !recovering ==> pinned == lh[t..]
      requires !recovering && start + t + 1 < |logged| && lh[t] < |logged| ==> logged[lh[t]] == logged[start + t + 1]
      modifies this`logged, this`pinned, cache
      ensures Core() && Quiet() && |cache.disk| == |d| == |logged| && cache.holders == old(cache.holders)
      ensures pinned == if recovering then [] else lh[t + 1..]
      ensures !recovering ==> logged == old(logged)
      ensures Installing(cache.trace, n, d, start, lh, t + 1) && cache.disk == Installed(d, start, lh, t + 1)
      ensures old(cache.trace) <= cache.trace
    {
      hide Core, Quiet, GoodBlocks, Installed;
      LogSlot(t);
      LogUntouched(d, start, lh, t);
      InstallingStep(cache.trace, n, d, start, lh, t, cache.disk);
      InstallBlock(t, recovering, pid);
    }

    /** install_trans: the disk goes through the partial installations one block at a time. */
    method InstallTrans(recovering: bool, pid: nat)
      requires Core() && Quiet()
      requires if recovering then pinned == [] && NoHolders()
               else pinned == lh && forall i :: 0 <= i < |lh| ==> logged[lh[i]] == logged[start + i + 1]
      modifies this`logged, this`pinned, cache
      ensures Core() && Quiet() && pinned == [] && cache.holders == old(cache.holders)
      ensures !recovering ==> logged == old(logged)
      ensures cache.disk == Installed(old(cache.disk), start, lh, |lh|)
      ensures old(cache.trace) <= cache.trace
      ensures Installing(cache.trace, |old(cache.trace)|, old(cache.disk), start, lh, |lh|)
    {
      hide Core, Quiet, GoodBlocks, Installing, Installed;
      HeadSlot();
      NothingInstalled(cache.trace, cache.disk, start, lh);
      ghost var d, n := cache.disk, |cache.trace|;
      var tail := 0;
      while tail < |lh|
        invariant 0 <= tail <= |lh| <= LOGBLOCKS
        invariant Core() && Quiet() && cache.holders == old(cache.holders)
        invariant |cache.disk| == |d| == |logged|
        invariant pinned == if recovering then [] else lh[tail..]
        invariant !recovering ==> logged == old(logged)
        invariant cache.disk == Installed(d, start, lh, tail)
        invariant old(cache.trace) <= cache.trace
        invariant Installing(cache.trace, n, d, start, lh, tail)
      {
        InstallNext(tail, recovering, pid, d, n);
        tail := tail + 1;
      }
    }

    /** log.lh.n = 0, once nothing is pending. */
    method ResetHead()
      requires Core() && Quiet()
      modifies this`lh
      ensures Core() && Quiet() && lh == []
    {
      hide Cache.Valid, Coherent, Pinned, Flushed, Unlocked;
      lh := [];
    }

    /** The first half of commit: write_log and the header write that makes the transaction durable. */
    method Persist(pid: nat)
      requires Core() && Quiet() && pinned == lh && EmptyHeader(cache.disk, start)
      modifies this`logged, cache
      ensures Core() && Quiet() && BlockOk(logged[start])
      ensures SameHome(logged, old(logged), start)
      ensures Decoded(cache.disk, start, lh) && CommitPoint(cache.disk, logged, start)
      ensures forall i :: 0 <= i < |lh| ==> logged[lh[i]] == logged[start + i + 1]
      ensures |cache.trace| == |old(cache.trace)| + |lh| + 1 && old(cache.trace) <= cache.trace
      ensures CrashSafe(cache.trace, |old(cache.trace)|, |old(cache.trace)| + |lh|, old(cache.disk), start)
      ensures HomesKept(cache.trace, |old(cache.trace)|, |old(cache.trace)| + |lh|, old(cache.disk), start)
      ensures cache.trace[|cache.trace| - 1] == cache.disk
      ensures cache.holders == old(cache.holders)
    {
      hide Core, Quiet, GoodBlocks, Decode, Encode, RecoversTo, CommitPoint, CrashSafe;
      HeadSlot();
      WriteLog(pid);
      HeadSlot();
      ghost var tr := cache.trace;
      EmptyLogRecovers(old(cache.disk), tr, |old(cache.trace)|, start);
      ghost var d := cache.disk;
      HeaderRoundTrip(d[start], lh);
      WriteHead(pid);
      HeadSlot();
      CommitPointReached();
      CrashSafeExtends(tr, cache.trace, |old(cache.trace)|, |tr|, old(cache.disk), start);
    }

    /** The second half of commit: install the blocks and erase the header. */
    method Apply(pid: nat)
      requires Core() && Quiet() && pinned == lh && BlockOk(logged[start])
      requires Decoded(cache.disk, start, lh) && CommitPoint(cache.disk, logged, start)
      requires forall i :: 0 <= i < |lh| ==> logged[lh[i]] == logged[start + i + 1]
      modifies this`logged, this`pinned, this`lh, cache
      ensures Core() && Quiet() && lh == [] && pinned == [] && EmptyHeader(cache.disk, start)
      ensures SameHome(logged, old(logged), start)
      ensures |cache.trace| == |old(cache.trace)| + |old(lh)| + 1 && old(cache.trace) <= cache.trace
      ensures CrashSafe(cache.trace, |old(cache.trace)|, |cache.trace|, old(logged), start)
      ensures cache.holders == old(cache.holders)
    {
      hide Core, Quiet, GoodBlocks, Decode, Encode, RecoversTo, CommitPoint;
      ghost var d := cache.disk;
      HeadSlot();
      InstallTrans(false, pid);
      InstallPointsRecover(d, logged, cache.trace, |old(cache.trace)|, start);
      ClearPointRecovers(d, logged, start);
      ResetHead();
      HeadSlot();
      WriteHead(pid);
    }

    /** commit. Each disk write is a possible crash point: up to the last log block the recovered home
        blocks are the ones from before the transaction, and from the header write on they are the
        logged ones. No home block is written before the header. */
    method Commit(pid: nat)
      requires Core() && Quiet() && pinned == lh && EmptyHeader(cache.disk, start)
      modifies this`logged, this`pinned, this`lh, cache
      ensures Core() && Quiet() && lh == [] && pinned == [] && EmptyHeader(cache.disk, start)
      ensures SameHome(logged, old(logged), start)
      ensures |cache.trace| == |old(cache.trace)| + (if |old(lh)| == 0 then 0 else 2 * |old(lh)| + 2)
      ensures old(cache.trace) <= cache.trace
      ensures |old(lh)| > 0 ==>
                var t0, n := |old(cache.trace)|, |old(lh)|;
                && CrashSafe(cache.trace, t0, t0 + n, old(cache.disk), start)
                && CrashSafe(cache.trace, t0 + n, |cache.trace|, old(logged), start)
                && HomesKept(cache.trace, t0, t0 + n, old(cache.disk), start)
      ensures cache.holders == old(cache.holders)
    {
      if |lh| == 0 { return; }
      hide Core, Quiet, EmptyHeader, RecoversTo, CommitPoint, SameHome, CrashSafe, GoodBlocks, GoodLog, HomesKept;
      Persist(pid);
      Publish(pid, |old(cache.trace)|, old(cache.disk), old(logged));
    }

    /** commit from the header write on. */
    method Publish(pid: nat, ghost t0: nat, ghost disk0: DiskState, ghost logged0: DiskState)
      requires Core() && Quiet() && pinned == lh && BlockOk(logged[start]) && SameHome(logged, logged0, start)
      requires Decoded(cache.disk, start, lh) && CommitPoint(cache.disk, logged, start)
      requires forall i :: 0 <= i < |lh| ==> logged[lh[i]] == logged[start + i + 1]
      requires |cache.trace| == t0 + |lh| + 1 && cache.trace[|cache.trace| - 1] == cache.disk
      requires CrashSafe(cache.trace, t0, t0 + |lh|, disk0, start)
      requires HomesKept(cache.trace, t0, t0 + |lh|, disk0, start)
      modifies this`logged, this`pinned, this`lh, cache
      ensures Core() && Quiet() && lh == [] && pinned == [] && EmptyHeader(cache.disk, start)
      ensures SameHome(logged, logged0, start) && old(cache.trace) <= cache.trace
      ensures |cache.trace| == t0 + 2 * |old(lh)| + 2
      ensures CrashSafe(cache.trace, t0, t0 + |old(lh)|, disk0, start)
      ensures HomesKept(cache.trace, t0, t0 + |old(lh)|, disk0, start)
      ensures CrashSafe(cache.trace, t0 + |old(lh)|, |cache.trace|, logged0, start)
      ensures cache.holders == old(cache.holders)
    {
      hide Core, Quiet, EmptyHeader, RecoversTo, CommitPoint, SameHome, CrashSafe, GoodBlocks, GoodLog, HomesKept;
      CommitPointRecovers(cache.disk, logged, start);
      ghost var mid, tr := logged, cache.trace;
      Apply(pid);
      CrashSafeExtends(tr, cache.trace, t0, t0 + |old(lh)|, disk0, start);
      HomesKeptExtends(tr, cache.trace, t0, t0 + |old(lh)|, disk0, start);
      CrashSafeFrom(cache.trace, |tr| - 1, |cache.trace|, mid, start);
      SameTarget(cache.trace, |tr| - 1, |cache.trace|, mid, logged0, start);
      SameHomeTransitive(logged, mid, logged0, start);
    }

    // ---------- recovery ----------

    /** read_head: lh becomes the list in the header block on disk. */
    method ReadHead(pid: nat)
      requires Core() && NoHolders() && pinned == [] && GoodLog(cache.disk, start)
      modifies this`lh, cache
      ensures Core() && Quiet() && NoHolders() && lh == Decode(cache.disk[start])
      ensures cache.disk == old(cache.disk) && cache.trace == old(cache.trace)
    {
      hide Coherent, Pinned, Flushed, Cache.Valid, IsCached, Unlocked;
      HeadSlot();
      FreshQuiet();
      CountsNow();
      var b := Read(start, pid);
      var hb := cache.buf[b].data;
      ReleaseOne(b, pid, old(cache.buf), old(cache.holders));
      var blocks := CopyHead(hb);
      SetHead(blocks);
    }

    /** The copy loop of read_head. */
    method CopyHead(hb: Block) returns (blocks: seq<nat>)
      requires HeadOk(hb)
      ensures blocks == Decode(hb)
    {
      blocks := [];
      while |blocks| < Word(hb, 0)
        invariant |blocks| <= Word(hb, 0)
        invariant forall i :: 0 <= i < |blocks| ==> blocks[i] == Word(hb, i + 1)
      {
        WordRange(hb, |blocks| + 1);
        blocks := blocks + [Word(hb, |blocks| + 1)];
      }
    }

    method SetHead(blocks: seq<nat>)
      requires Core() && NoHolders() && pinned == [] && GoodBlocks(blocks, |cache.disk|, start)
      modifies this`lh
      ensures Core() && Quiet() && lh == blocks
    {
      lh := blocks;
      FreshQuiet();
    }

    lemma FreshQuiet()
      requires Core() && NoHolders() && pinned == []
      ensures Quiet() && Needed(start)
    {
      AllFree();
      assert Unused(cache.buf, 0);
    }

    /** recover_from_log, started on a freshly booted cache: its writes are exactly RecoveryTrace. */
    method RecoverFromLog(pid: nat)
      requires Core() && NoHolders() && pinned == [] && GoodLog(cache.disk, start)
      modifies this`logged, this`pinned, this`lh, cache
      ensures Core() && NoHolders() && lh == [] && pinned == []
      ensures old(Unstarted()) ==> Valid()
      ensures cache.trace == old(cache.trace) + RecoveryTrace(old(cache.disk), start)
      ensures EmptyHeader(cache.disk, start) && SameHome(cache.disk, Recovered(old(cache.disk), start), start)
    {
      hide Core, Quiet, GoodBlocks, Encode;
      ReadHead(pid);
      HeadSlot();
      InstallTrans(true, pid);
      ghost var tr, d := cache.trace, old(cache.disk);
      LogUntouched(d, start, lh, |lh|);
      ClearedRecovers(cache.disk, start);
      ResetHead();
      HeadSlot();
      WriteHead(pid);
      TraceIsRecovery(old(cache.trace), tr, d, start);
      assert cache.disk == Cleared(Recovered(d, start), start);
      NoOperations(|used|);
    }

    // ---------- operations: any interleaving of these keeps Valid ----------

    /** The invariant whenever log.lock is free: `used[p]` counts the new blocks logged by process p's
        operation, and a process sleeps on the log only while begin_op would make it wait. */
    ghost predicate Valid()
      reads this, cache
    {
      && Core() && pinned == lh && EmptyHeader(cache.disk, start)
      && SpaceOk(used, |lh|, outstanding)
      && (committing ==> outstanding == 0)
      && (sleeping != {} ==> MustWait(committing, |lh|, outstanding))
    }

    /** begin_op up to its sleep or return. */
    method BeginOp(pid: nat) returns (entered: bool)
      requires Valid() && pid < |used| && used[pid] < 0 && pid !in sleeping
      modifies this`outstanding, this`sleeping, this`used
      ensures Valid()
      ensures entered <==> !committing && |lh| + (old(outstanding) + 1) * MAXOPBLOCKS <= LOGBLOCKS
      ensures entered ==>
                outstanding == old(outstanding) + 1 && used == old(used)[pid := 0] && sleeping == old(sleeping)
      ensures !entered ==> outstanding == old(outstanding) && used == old(used) && sleeping == old(sleeping) + {pid}
    {
      OneOperationChanges(used, pid, 0);
      RoomBounds(used, pid);
      if committing {
        sleeping := sleeping + {pid};
        entered := false;
      } else if |lh| + (outstanding + 1) * MAXOPBLOCKS > LOGBLOCKS {
        sleeping := sleeping + {pid};
        entered := false;
      } else {
        outstanding := outstanding + 1;
        used := used[pid := 0];
        entered := true;
      }
    }

    /** bget's critical section: take a reference, evicting only a buffer nobody needs. */
    method Get(k: nat, pid: nat) returns (b: nat)
      requires Valid() && k < |cache.disk|
      requires IsCached(cache.buf, ROOTDEV, k) || (exists c :: Unused(cache.buf, c))
      modifies cache
      ensures Valid() && b < NBUF && Caches(cache.buf, b, ROOTDEV, k)
      ensures cache.holders == old(cache.holders)[b := old(cache.holders)[b] + multiset{pid}]
      ensures cache.buf == old(cache.buf)[b := cache.buf[b]]
      ensures cache.disk == old(cache.disk) && cache.trace == old(cache.trace) && cache.pins == old(cache.pins)
    {
      UnusedIsFree(cache.buf, cache.holders, cache.pins);
      b := cache.Bget(ROOTDEV, k, pid);
      GetKeeps(old(cache.buf), cache.pins, logged, pinned, b, k, cache.buf[b]);
    }

    /** The rest of bread, once the buffer's lock is free: the caller sees the last logged contents. */
    method Lock(b: nat, pid: nat)
      requires Valid() && b < NBUF && pid in cache.holders[b]
      requires cache.buf[b].dev == ROOTDEV && cache.buf[b].owner == None
      modifies cache`buf
      ensures Valid()
      ensures cache.buf == old(cache.buf)[b := old(cache.buf)[b].(owner := Some(pid), valid := true,
                                               data := logged[old(cache.buf)[b].blockno])]
    {
      cache.LockAndFill(b, pid);
      LockKeeps(old(cache.buf), cache.pins, cache.disk, logged, pinned, b, cache.buf[b]);
    }

    /** The lock holder changes the data; nobody else can see it before log_write. */
    method Modify(b: nat, pid: nat, d: Block)
      requires Valid() && b < NBUF && cache.buf[b].owner == Some(pid)
      modifies cache`buf
      ensures Valid()
      ensures cache.buf == old(cache.buf)[b := old(cache.buf)[b].(data := d)]
    {
      cache.SetData(b, pid, d);
      ReleaseKeeps(old(cache.buf), cache.pins, logged, pinned, b, cache.buf[b]);
    }

    /** The absorption loop of log_write. */
    method FindInLog(k: nat) returns (i: nat)
      ensures i <= |lh| && (i < |lh| ==> lh[i] == k) && (i == |lh| ==> k !in lh)
    {
      i := 0;
      while i < |lh| && lh[i] != k
        invariant i <= |lh| && k !in lh[..i]
      {
        i := i + 1;
      }
      assert lh[..|lh|] == lh;
    }

    /** The new-block branch of log_write: pin the buffer and add its number to the header. */
    method Append(b: nat, ghost pid: nat)
      requires Core() && pid < |used| && pinned == lh && |lh| < LOGBLOCKS && b < NBUF && cache.buf[b].owner.Some?
      requires cache.buf[b].valid && Home(cache.buf[b].blockno, start) && cache.buf[b].blockno !in lh
      modifies this`lh, this`logged, this`pinned, this`used, cache`buf, cache`pins
      ensures Core() && pinned == lh == old(lh) + [cache.buf[b].blockno]
      ensures used == old(used)[pid := old(used)[pid] + 1]
      ensures cache.buf[b].blockno < |old(logged)| && logged == old(logged)[cache.buf[b].blockno := cache.buf[b].data]
      ensures cache.buf == old(cache.buf)[b := old(cache.buf)[b].(refcnt := cache.buf[b].refcnt)]
    {
      hide Coherent, Pinned, Flushed, GoodBlocks;
      AppendKeeps(cache.buf, cache.pins, logged, cache.disk, pinned, b, cache.buf[b], start);
      cache.Bpin(b);
      AppendKeeps(old(cache.buf), old(cache.pins), logged, cache.disk, pinned, b, cache.buf[b], start);
      lh := lh + [cache.buf[b].blockno];
      pinned := lh;
      used := used[pid := used[pid] + 1];
      logged := logged[cache.buf[b].blockno := cache.buf[b].data];
    }

    /** The absorption branch: the block is in the log already, at index i. */
    method Absorb(b: nat, i: nat)
      requires Core() && pinned == lh && b < NBUF && cache.buf[b].owner.Some? && cache.buf[b].valid
      requires i < |lh| && lh[i] == cache.buf[b].blockno
      modifies this`lh, this`logged
      ensures Core() && lh == old(lh)
      ensures lh[i] < |old(logged)| && logged == old(logged)[lh[i] := cache.buf[b].data]
    {
      AbsorbKeeps(cache.buf, logged, cache.disk, pinned, b);
      lh := lh[i := cache.buf[b].blockno];
      logged := logged[lh[i] := cache.buf[b].data];
    }

    /** log_write. "too big a transaction" happens exactly when the log is full, even for a block that
        is already in it; an operation that has added fewer than MAXOPBLOCKS blocks never sees that. */
    method LogWrite(b: nat, pid: nat) returns (panics: bool)
      requires Valid() && b < NBUF && cache.buf[b].owner == Some(pid)
      requires cache.buf[b].valid && Home(cache.buf[b].blockno, start)
      requires pid < |used| && used[pid] >= 0
      modifies this`lh, this`used, this`logged, this`pinned, cache`buf, cache`pins
      ensures Core() && pinned == lh
      ensures panics || old(used)[pid] < MAXOPBLOCKS || cache.buf[b].blockno in old(lh) ==> Valid()
      ensures panics <==> |old(lh)| >= LOGBLOCKS
      ensures old(used)[pid] < MAXOPBLOCKS ==> !panics
      ensures panics ==> logged == old(logged) && lh == old(lh)
      ensures !panics ==> var k := cache.buf[b].blockno;
                && k < |old(logged)| && logged == old(logged)[k := cache.buf[b].data]
                && lh == (if k in old(lh) then old(lh) else old(lh) + [k])
                && used == (if k in old(lh) then old(used) else old(used)[pid := old(used)[pid] + 1])
      ensures b < |cache.buf| == |old(cache.buf)|
      ensures cache.buf == old(cache.buf)[b := old(cache.buf)[b].(refcnt := cache.buf[b].refcnt)]
    {
      hide Core, SpaceOk, EmptyHeader;
      BufsThere();
      LogSpaceLeft(used, |lh|, outstanding, pid);
      if |lh| >= LOGBLOCKS {
        return true;
      }
      assert outstanding >= 1;
      panics := false;
      var i := FindInLog(cache.buf[b].blockno);
      if i == |lh| {
        Append(b, pid);
      } else {
        Absorb(b, i);
      }
    }

    lemma BufsThere()
      requires Core()
      ensures |cache.buf| == NBUF
    {
    }

    /** end_op up to the release of log.lock; "log.committing" cannot happen. */
    method EndOp(pid: nat) returns (doCommit: bool)
      requires Valid() && pid < |used| && used[pid] >= 0
      modifies this`outstanding, this`committing, this`used, this`sleeping
      ensures Valid() && !old(committing)
      ensures outstanding == old(outstanding) - 1 && used == old(used)[pid := -1]
      ensures doCommit == committing == (outstanding == 0)
      ensures sleeping == if doCommit then old(sleeping) else {}
    {
      OneOperationChanges(used, pid, -1);
      RoomBounds(used, pid);
      outstanding := outstanding - 1;
      used := used[pid := -1];
      assert !committing;
      if outstanding == 0 {
        doCommit := true;
        committing := true;
      } else {
        doCommit := false;
        sleeping := {};
      }
    }

    /** The rest of end_op for the last operation: commit, then let waiting operations in. */
    method FinishCommit(pid: nat)
      requires Valid() && committing && Quiet()
      modifies this`logged, this`pinned, this`lh, this`committing, this`sleeping, cache
      ensures Valid() && !committing && sleeping == {} && lh == []
      ensures SameHome(logged, old(logged), start) && SameHome(cache.disk, logged, start)
      ensures |old(lh)| > 0 ==>
                var t0, n := |old(cache.trace)|, |old(lh)|;
                && CrashSafe(cache.trace, t0, t0 + n, old(cache.disk), start)
                && CrashSafe(cache.trace, t0 + n, |cache.trace|, old(logged), start)
      ensures cache.holders == old(cache.holders)
      ensures |cache.trace| == |old(cache.trace)| + (if |old(lh)| == 0 then 0 else 2 * |old(lh)| + 2)
      ensures old(cache.trace) <= cache.trace
    {
      hide Coherent, Pinned, Cache.Valid, CrashSafe;
      Commit(pid);
      committing := false;
      sleeping := {};
    }
  }

  /** initlog on the cache that binit made: recovery, and then the invariant under which operations run. */
  method Initlog(cache: Cache, start: nat, ghost nproc: nat, pid: nat) returns (log: Log)
    requires cache.Valid() && Coherent(cache.buf, cache.disk)
    requires forall b :: 0 <= b < NBUF ==> cache.pins[b] == 0 && cache.holders[b] == multiset{}
    requires GoodLog(cache.disk, start)
    modifies cache
    ensures fresh(log) && log.cache == cache && log.start == start && log.Valid() && |log.used| == nproc
    ensures log.lh == [] && log.Unstarted() && log.NoHolders()
    ensures SameHome(cache.disk, Recovered(old(cache.disk), start), start)
    ensures SameHome(log.logged, Recovered(old(cache.disk), start), start)
  {
    log := new Log(cache, start, nproc);
    log.RecoverFromLog(pid);
  }
}
