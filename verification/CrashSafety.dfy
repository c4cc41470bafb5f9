/** Files across crashes: the file system (kernel/fs.c) on the log (kernel/log.c) on the buffer cache (kernel/bio.c).

    A disk has files when its inode blocks, bitmap blocks and data blocks hold an image of the file system that has
    them. A transaction gives the log the blocks that the file system changed, and the log commits them. Whichever disk
    write is the last one before a crash, recovery finds the files of before the transaction or those of after it. */
module CrashSafety {
  import opened Blocks
  import opened BufferCache
  import opened CrashRecovery
  import opened DiskImage
  import FsModel
  import FS = FileSystem
  import SetSize
  import WriteAheadLog

  /** What the file system keeps of an inode besides its bytes, as the shorts that the disk has. */
  datatype Attr = Attr(kind: nat, major: nat, minor: nat, nlink: nat)

  /** The contents of all files and the attributes of all inodes. */
  datatype Held = Held(files: seq<seq<int>>, attrs: seq<Attr>)

  function AttrOf(n: FsModel.Inode): Attr {
    Attr(n.kind % 0x1_0000, n.major % 0x1_0000, n.minor % 0x1_0000, n.nlink % 0x1_0000)
  }

  function Attrs(inode: seq<FsModel.Inode>): (r: seq<Attr>)
    ensures |r| == |inode| && forall i :: 0 <= i < |r| ==> r[i] == AttrOf(inode[i])
  {
    seq(|inode|, i requires 0 <= i < |inode| => AttrOf(inode[i]))
  }

  function HeldBy(files: seq<seq<int>>, inode: seq<FsModel.Inode>): Held {
    Held(files, Attrs(inode))
  }

  function HeldIn(v: FS.View): Held {
    HeldBy(v.files, v.inode)
  }

  ghost predicate HasFiles(y: Layout, d: DiskState, held: Held) {
    exists c: Contents, owner: FsModel.Owners :: Stored(y, d, c) && Consistent(y, c, owner, held)
  }

  /** Every file is whole, no block belongs to two of them, and the bitmap marks exactly the blocks in use. */
  ghost predicate Consistent(y: Layout, c: Contents, owner: FsModel.Owners, held: Held) {
    && |c.blocks.data| == y.size && FsModel.Owned(c.inode, c.blocks.data, owner, y.lo)
    && FsModel.Holding(c.inode, c.blocks.data, held.files) && held.attrs == Attrs(c.inode)
    && FS.MarksOk(c.blocks.bitmap, y.size, y.lo, owner)
  }

  /** What the log has of the file system, its view of the disk holds. */
  lemma FilesInLog(fs: FS.Fs, kept: seq<seq<int>>)
    requires fs.OnDisk() && fs.LogHolds(kept)
    ensures HasFiles(fs.Where(), fs.view, HeldBy(kept, fs.dinode))
  {
    hide FsModel.Owned, FsModel.Holding, FS.MarksOk;
    assert Consistent(fs.Where(), Contents(fs.dinode, fs.log), fs.owner, HeldBy(kept, fs.dinode));
  }

  lemma SameImage(y: Layout, d: DiskState, e: DiskState, c: Contents)
    requires LayoutOk(y) && Stored(y, d, c) && SameHome(e, d, y.start)
    ensures Stored(y, e, c)
  {
    hide InodeThere, BitsThere, InodeBlock;
    forall i | 0 <= i < y.ninodes ensures InodeStored(y, e, i, c.inode[i]) {
      assert InodeStored(y, d, i, c.inode[i]);
      InodeBlockBelow(y, i);
    }
    AboveLog(y);
  }

  lemma AboveLog(y: Layout)
    requires LayoutOk(y)
    ensures forall b :: b >= y.bmapstart ==> Home(b, y.start)
  {
  }

  lemma SameFilesThere(y: Layout, d: DiskState, e: DiskState, held: Held)
    requires LayoutOk(y) && HasFiles(y, d, held) && SameHome(e, d, y.start)
    ensures HasFiles(y, e, held)
  {
    hide Stored, Consistent;
    var c: Contents, owner: FsModel.Owners :| Stored(y, d, c) && Consistent(y, c, owner, held);
    SameImage(y, d, e, c);
  }

  // ---------- recovery finds files ----------

  /** A crash that leaves this disk loses nothing of these files. */
  ghost predicate RecoversFiles(y: Layout, d: DiskState, held: Held) {
    GoodLog(d, y.start) && HasFiles(y, Recovered(d, y.start), held)
  }

  /** Any number of boots that crash during recovery and one that completes it put these files on the disk. */
  lemma BootsKeepFiles(y: Layout, d: DiskState, held: Held, boots: seq<DiskState>)
    requires LayoutOk(y) && RecoversFiles(y, d, held) && CrashingBoots(boots, y.start) && boots[0] == d
    ensures var t := RecoveryTrace(boots[|boots| - 1], y.start); HasFiles(y, t[|t| - 1], held)
  {
    hide HasFiles, Recovered, RecoveryTrace;
    var t := RecoveryTrace(boots[|boots| - 1], y.start);
    RecoveryIsIdempotent(boots, y.start);
    SameFilesThere(y, Recovered(d, y.start), t[|t| - 1], held);
  }

  /** Writes lo .. hi of a trace leave disks that recover to these files. */
  ghost predicate FilesSafe(y: Layout, trace: seq<DiskState>, lo: nat, hi: nat, held: Held) {
    hi <= |trace| && forall j :: lo <= j < hi ==> RecoversFiles(y, trace[j], held)
  }

  lemma SafeFiles(y: Layout, trace: seq<DiskState>, lo: nat, hi: nat, e: DiskState, held: Held)
    requires LayoutOk(y) && HasFiles(y, e, held) && WriteAheadLog.CrashSafe(trace, lo, hi, e, y.start)
    ensures FilesSafe(y, trace, lo, hi, held)
  {
    hide HasFiles, Recovered;
    forall j | lo <= j < hi ensures RecoversFiles(y, trace[j], held) {
      assert WriteAheadLog.RecoversTo(trace[j], e, y.start);
      SameFilesThere(y, e, Recovered(trace[j], y.start), held);
    }
  }

  lemma FilesSafeExtends(y: Layout, trace: seq<DiskState>, trace': seq<DiskState>, lo: nat, hi: nat,
                         held: Held)
    requires FilesSafe(y, trace, lo, hi, held) && trace <= trace'
    ensures FilesSafe(y, trace', lo, hi, held)
  {
    hide RecoversFiles;
  }

  // ---------- a transaction ----------

  /** No process is in a transaction, nothing is pending, and the log's blocks are the file system's. */
  ghost predicate Settled(fs: FS.Fs, log: WriteAheadLog.Log, pid: nat)
    reads fs, log, log.cache
  {
    && fs.Valid() && fs.InLog() && fs.OnDisk() && fs.size <= FS.BPB
    && log.Valid() && log.start == fs.logstart && SameHome(log.logged, fs.view, fs.logstart)
    && log.lh == [] && log.outstanding == 0 && !log.committing && log.NoHolders()
    && pid < |log.used| && log.used[pid] < 0
  }

  /** Buffers of different blocks that are all in a list are no more than the list is long. */
  lemma {:induction false} FewPinned(buf: seq<Buf>, s: set<nat>, bs: seq<nat>)
    requires forall b :: b in s ==> b < |buf| && buf[b].blockno in bs
    requires forall a, b :: a in s && b in s && a != b ==> buf[a].blockno != buf[b].blockno
    ensures |s| <= |bs|
  {
    if |bs| == 0 {
      assert s == {};
    } else {
      var n := |bs| - 1;
      var t := set b | b in s && buf[b].blockno != bs[n];
      forall b | b in t ensures buf[b].blockno in bs[..n] { assert buf[b].blockno in bs; }
      FewPinned(buf, t, bs[..n]);
      if b :| b in s && b !in t {
        assert s == t + {b};
      } else {
        assert s == t;
      }
    }
  }

  /** With nobody holding a buffer and fewer pending blocks than buffers, some buffer is unused. */
  lemma SomeUnused(log: WriteAheadLog.Log)
    requires log.Core() && log.pinned == log.lh && log.NoHolders() && |log.lh| < NBUF
    ensures exists b :: Unused(log.cache.buf, b)
    ensures forall k: nat :: WriteAheadLog.Unlocked(log.cache.buf, k)
  {
    hide ListOk, WriteAheadLog.Coherent, WriteAheadLog.Flushed, WriteAheadLog.Pinned, GoodBlocks, Unique;
    OneUnpinned(log.cache.buf, log.cache.pins, log.lh);
    var b :| 0 <= b < NBUF && log.cache.pins[b] == 0;
    assert Unused(log.cache.buf, b);
  }

  lemma OneUnpinned(buf: seq<Buf>, pins: seq<nat>, lh: seq<nat>)
    requires |buf| == |pins| == NBUF && Unique(buf) && WriteAheadLog.Pinned(buf, pins, lh) && |lh| < NBUF
    ensures exists b :: 0 <= b < NBUF && pins[b] == 0
  {
    hide WriteAheadLog.Holds, SetSize.Below;
    if forall b :: 0 <= b < NBUF ==> pins[b] != 0 {
      var all := SetSize.Below(NBUF);
      forall b | b in all ensures buf[b].blockno in lh && buf[b].dev == ROOTDEV { assert pins[b] != 0; }
      FewPinned(buf, all, lh);
      assert false;
    }
  }

  lemma {:induction false} DistinctSize(bs: seq<nat>, s: set<int>)
    requires Distinct(bs) && forall i :: 0 <= i < |bs| ==> bs[i] in s
    ensures |bs| <= |s|
  {
    if bs != [] {
      var n := |bs| - 1;
      DistinctSize(bs[..n], s - {bs[n] as int});
    }
  }

  /** bread, the change, log_write and brelse of one block. */
  method LogOne(log: WriteAheadLog.Log, k: nat, w: Block, pid: nat)
    requires log.Valid() && log.NoHolders() && pid < |log.used| &&
             log.used[pid] == |log.lh| <= WriteAheadLog.MAXOPBLOCKS
    requires k < |log.cache.disk| && Home(k, log.start)
    requires k in log.lh || |log.lh| < WriteAheadLog.MAXOPBLOCKS
    modifies log`lh, log`used, log`logged, log`pinned, log.cache
    ensures log.Valid() && log.NoHolders() && log.logged == PutBlock(old(log.logged), k, w)
    ensures log.lh == (if k in old(log.lh) then old(log.lh) else old(log.lh) + [k])
    ensures log.used == old(log.used)[pid := |log.lh|]
    ensures log.cache.disk == old(log.cache.disk) && log.cache.trace == old(log.cache.trace)
  {
    hide WriteAheadLog.Coherent, WriteAheadLog.Pinned, WriteAheadLog.Flushed, Cache.Valid, GoodBlocks,
         WriteAheadLog.SpaceOk, WriteAheadLog.Unlocked, WriteAheadLog.EmptyHeader;
    SomeUnused(log);
    log.CountsNow();
    var b := log.Read(k, pid);
    log.Modify(b, pid, w);
    var panics := log.LogWrite(b, pid);
    log.Release(b, pid);
  }

  /** The log_writes of a transaction, as the log sees them. */
  method Replay(log: WriteAheadLog.Log, writes: Writes, pid: nat)
    requires log.Valid() && log.NoHolders() && log.lh == [] && pid < |log.used| && log.used[pid] == 0
    requires |Numbers(writes)| <= WriteAheadLog.MAXOPBLOCKS
    requires forall i :: 0 <= i < |writes| ==> writes[i].0 < |log.cache.disk| && Home(writes[i].0, log.start)
    modifies log`lh, log`used, log`logged, log`pinned, log.cache
    ensures log.Valid() && log.NoHolders() && log.logged == Applied(old(log.logged), writes)
    ensures |log.used| == |old(log.used)| && log.used[pid] >= 0 && |log.lh| <= WriteAheadLog.MAXOPBLOCKS
    ensures log.cache.disk == old(log.cache.disk) && log.cache.trace == old(log.cache.trace)
  {
    hide WriteAheadLog.Log.Valid, WriteAheadLog.Log.NoHolders, Applied, Numbers;
    var i := 0;
    AppliedNothing(log.logged, writes);
    while i < |writes|
      invariant 0 <= i <= |writes| && log.Valid() && log.NoHolders() && |log.used| == |old(log.used)|
      invariant log.logged == Applied(old(log.logged), writes[..i]) && log.used[pid] == |log.lh|
      invariant Distinct(log.lh) && forall j :: 0 <= j < |log.lh| ==> log.lh[j] in Numbers(writes)
      invariant |log.lh| <= WriteAheadLog.MAXOPBLOCKS
      invariant log.cache.disk == old(log.cache.disk) && log.cache.trace == old(log.cache.trace)
    {
      var (k, w) := writes[i];
      NumberOf(writes, i);
      if k !in log.lh { DistinctSize(log.lh + [k], Numbers(writes)); }
      AppliedMore(old(log.logged), writes[..i], k, w);
      assert writes[..i + 1] == writes[..i] + [(k, w)];
      LogOne(log, k, w, pid);
      i := i + 1;
    }
    assert writes[..|writes|] == writes;
  }

  lemma AppliedNothing(d: DiskState, writes: Writes)
    ensures Applied(d, writes[..0]) == d
  {
  }

  lemma NumberOf(writes: Writes, i: nat)
    requires i < |writes|
    ensures writes[i].0 in Numbers(writes)
  {
  }

  lemma {:induction false} AppliedAlike(a: DiskState, b: DiskState, writes: Writes, start: nat)
    requires SameHome(a, b, start)
    ensures SameHome(Applied(a, writes), Applied(b, writes), start)
  {
    if writes != [] { AppliedAlike(a, b, writes[..|writes| - 1], start); }
  }

  /** What is on the disk between transactions. */
  lemma SettledDisk(fs: FS.Fs, log: WriteAheadLog.Log, pid: nat)
    requires Settled(fs, log, pid)
    ensures LayoutOk(fs.Where()) && log.cache.disk == log.logged
    ensures HasFiles(fs.Where(), log.cache.disk, HeldBy(fs.files, fs.inode))
  {
    hide WriteAheadLog.Coherent, WriteAheadLog.Pinned, Cache.Valid, GoodBlocks, Stored, HasFiles, FS.MarksOk,
         FsModel.Owned, FsModel.Holding;
    fs.LogHoldsNow();
    FilesInLog(fs, fs.files);
    SameFilesThere(fs.Where(), fs.view, log.logged, HeldBy(fs.files, fs.inode));
  }

  /** The log_writes of the transaction, given to the log. */
  method LogChanges(fs: FS.Fs, log: WriteAheadLog.Log, pid: nat)
    requires fs.OnDisk() && |fs.logged| <= WriteAheadLog.MAXOPBLOCKS
    requires log.Valid() && log.NoHolders() && log.lh == [] && pid < |log.used| && log.used[pid] == 0
    requires log.start == fs.logstart && SameHome(log.logged, fs.base, fs.logstart)
    modifies log`lh, log`used, log`logged, log`pinned, log.cache
    ensures log.Valid() && log.NoHolders() && SameHome(log.logged, fs.view, fs.logstart)
    ensures |log.used| == |old(log.used)| && log.used[pid] >= 0 && |log.lh| <= WriteAheadLog.MAXOPBLOCKS
    ensures log.cache.disk == old(log.cache.disk) && log.cache.trace == old(log.cache.trace)
  {
    hide WriteAheadLog.Coherent, WriteAheadLog.Pinned, Cache.Valid, GoodBlocks, Stored, WriteAheadLog.SpaceOk,
         WriteAheadLog.EmptyHeader, LayoutOk, Applied, Numbers;
    AppliedAlike(log.logged, fs.base, fs.writes, fs.logstart);
    Replay(log, fs.writes, pid);
  }

  /** end_op of the only operation, and the commit. */
  method EndAndCommit(log: WriteAheadLog.Log, pid: nat) returns (ghost mid: nat)
    requires log.Valid() && log.NoHolders() && pid < |log.used| && log.used[pid] >= 0 && log.outstanding == 1
    requires |log.lh| < NBUF
    modifies log, log.cache
    ensures log.Valid() && log.lh == [] && log.outstanding == 0 && !log.committing && log.NoHolders()
    ensures |log.used| == |old(log.used)| && log.used[pid] < 0 && SameHome(log.logged, old(log.logged), log.start)
    ensures old(log.cache.trace) <= log.cache.trace && |old(log.cache.trace)| <= mid <= |log.cache.trace|
    ensures WriteAheadLog.CrashSafe(log.cache.trace, |old(log.cache.trace)|, mid, old(log.cache.disk), log.start)
    ensures WriteAheadLog.CrashSafe(log.cache.trace, mid, |log.cache.trace|, old(log.logged), log.start)
  {
    hide WriteAheadLog.Log.Core, WriteAheadLog.SpaceOk, WriteAheadLog.EmptyHeader, WriteAheadLog.RecoversTo, SameHome;
    var last := log.EndOp(pid);
    SomeUnused(log);
    mid := |log.cache.trace| + |log.lh|;
    log.FinishCommit(pid);
  }

  /** begin_op, one operation, its log_writes, end_op and the commit. A crash after any disk write before number `mid`
      recovers every file as it was, a crash from that write on every file as the log has it: without the bytes that a
      failing copy left in the cache, if there are any. */
  method Transact(fs: FS.Fs, log: WriteAheadLog.Log, op: FS.Op, pid: nat) returns (r: int, ghost mid: nat)
    requires Settled(fs, log, pid) && FS.OpOk(op, |fs.inode|) && FS.OpSmall(op)
    modifies fs, log, log.cache
    ensures fs.Valid() && FS.Effect(op, old(fs.Now()), fs.Now(), r) && fs.Where() == old(fs.Where())
    ensures FS.OpWhole(op) ==>
              Settled(fs, log, pid) && FS.Durable(op, old(fs.files), fs.files, r) == fs.files
    ensures old(log.cache.trace) <= log.cache.trace && |old(log.cache.trace)| <= mid <= |log.cache.trace|
    ensures FilesSafe(fs.Where(), log.cache.trace, |old(log.cache.trace)|, mid, HeldBy(old(fs.files), old(fs.inode)))
    ensures FilesSafe(fs.Where(), log.cache.trace, mid, |log.cache.trace|,
                      HeldBy(FS.Durable(op, old(fs.files), fs.files, r), fs.inode))
    ensures |fs.inode| == |old(fs.inode)|
  {
    hide WriteAheadLog.Log.Core, WriteAheadLog.SpaceOk, WriteAheadLog.EmptyHeader, HasFiles, FS.Effect, FS.Durable,
         FS.Fs.Space, FsModel.Holding, FS.Fs.InLog, FS.Fs.LogHolds, FS.Fs.Full, FS.OpOk, FS.OpWhole, FS.OpSmall,
         FilesSafe, WriteAheadLog.CrashSafe, Recorded;
    SettledDisk(fs, log, pid);
    ghost var y, disk0 := fs.Where(), log.cache.disk;
    fs.BeginOp();
    var entered := log.BeginOp(pid);
    r := fs.Perform(op);
    ghost var kept := FS.Durable(op, old(fs.files), fs.files, r);
    FilesInLog(fs, kept);
    LogChanges(fs, log, pid);
    ghost var logged1 := log.logged;
    SameFilesThere(y, fs.view, logged1, HeldBy(kept, fs.inode));
    mid := EndAndCommit(log, pid);
    SafeFiles(y, log.cache.trace, |old(log.cache.trace)|, mid, disk0, HeldBy(old(fs.files), old(fs.inode)));
    SafeFiles(y, log.cache.trace, mid, |log.cache.trace|, logged1, HeldBy(kept, fs.inode));
  }

  // ---------- a run of transactions ----------

  /** Of the writes lo .. hi, those before some number recover to the files a and the others to the files b. */
  ghost predicate Atomic(y: Layout, trace: seq<DiskState>, lo: nat, hi: nat, a: Held, b: Held) {
    exists mid: nat :: lo <= mid <= hi && FilesSafe(y, trace, lo, mid, a) && FilesSafe(y, trace, mid, hi, b)
  }

  lemma AtomicExtends(y: Layout, trace: seq<DiskState>, trace': seq<DiskState>, lo: nat, hi: nat, a: Held,
                      b: Held)
    requires Atomic(y, trace, lo, hi, a, b) && trace <= trace'
    ensures Atomic(y, trace', lo, hi, a, b)
  {
    hide FilesSafe;
    var mid: nat :| lo <= mid <= hi && FilesSafe(y, trace, lo, mid, a) && FilesSafe(y, trace, mid, hi, b);
    FilesSafeExtends(y, trace, trace', lo, mid, a);
    FilesSafeExtends(y, trace, trace', mid, hi, b);
  }

  /** Each step of a run has its effect, and the disk writes of its commit are atomic for the files. */
  ghost predicate RunSafe(y: Layout, trace: seq<DiskState>, ops: seq<FS.Op>, results: seq<int>, views: seq<FS.View>,
                          done: seq<nat>, n: nat) {
    && n <= |ops| && |results| >= n && |views| == |done| == n + 1
    && (forall k :: 0 <= k < n ==> FS.Effect(ops[k], views[k], views[k + 1], results[k]))
    && (forall k :: 0 <= k < n ==> done[k] <= done[k + 1])
    && (forall k :: 0 <= k < n ==> Atomic(y, trace, done[k], done[k + 1], HeldIn(views[k]), HeldIn(views[k + 1])))
  }

  lemma RunSafeMore(y: Layout, trace: seq<DiskState>, trace': seq<DiskState>, ops: seq<FS.Op>, results: seq<int>,
                    views: seq<FS.View>, done: seq<nat>, n: nat, r: int, v: FS.View, d: nat)
    requires RunSafe(y, trace, ops, results, views, done, n) && n < |ops| && |results| == n && trace <= trace'
    requires FS.Effect(ops[n], views[n], v, r) && done[n] <= d &&
             Atomic(y, trace', done[n], d, HeldIn(views[n]), HeldIn(v))
    ensures RunSafe(y, trace', ops, results + [r], views + [v], done + [d], n + 1)
  {
    hide FS.Effect, Atomic;
    forall k | 0 <= k < n ensures Atomic(y, trace', done[k], done[k + 1], HeldIn(views[k]), HeldIn(views[k + 1])) {
      AtomicExtends(y, trace, trace', done[k], done[k + 1], HeldIn(views[k]), HeldIn(views[k + 1]));
    }
  }

  /** Any number of operations, each a transaction of its own: number k is on disk for good after disk write number
      done[k + 1], and while it is committed a crash finds all of it or nothing of it. */
  method RunCommitted(fs: FS.Fs, log: WriteAheadLog.Log, ops: seq<FS.Op>, pid: nat)
    returns (results: seq<int>, ghost views: seq<FS.View>, ghost done: seq<nat>)
    requires Settled(fs, log, pid)
    requires forall k :: 0 <= k < |ops| ==> FS.OpOk(ops[k], |fs.inode|) && FS.OpSmall(ops[k]) && FS.OpWhole(ops[k])
    modifies fs, log, log.cache
    ensures Settled(fs, log, pid) && fs.Where() == old(fs.Where()) && |results| == |ops|
    ensures RunSafe(fs.Where(), log.cache.trace, ops, results, views, done, |ops|)
    ensures views[0] == old(fs.Now()) && views[|ops|] == fs.Now()
    ensures done[0] == |old(log.cache.trace)| && done[|ops|] == |log.cache.trace|
  {
    hide Settled, RunSafe, FS.Effect, Atomic, FilesSafe, FS.OpOk, FS.OpSmall, FS.OpWhole, FS.Durable, FS.Fs.Valid;
    results, views, done := [], [fs.Now()], [|log.cache.trace|];
    ghost var y := fs.Where();
    NothingRun(y, log.cache.trace, ops, results, views, done);
    var i := 0;
    while i < |ops|
      invariant 0 <= i <= |ops| && Settled(fs, log, pid) && fs.Where() == y && |fs.inode| == |old(fs.inode)|
      invariant |results| == i && |views| == |done| == i + 1
      invariant RunSafe(y, log.cache.trace, ops, results, views, done, i)
      invariant views[0] == old(fs.Now()) && views[i] == fs.Now()
      invariant done[0] == |old(log.cache.trace)| && done[i] == |log.cache.trace|
    {
      ghost var trace := log.cache.trace;
      var r;
      ghost var mid;
      r, mid := Transact(fs, log, ops[i], pid);
      AtomicFrom(y, log.cache.trace, done[i], mid, |log.cache.trace|, HeldIn(views[i]), HeldIn(fs.Now()));
      RunSafeMore(y, trace, log.cache.trace, ops, results, views, done, i, r, fs.Now(), |log.cache.trace|);
      results, views, done := results + [r], views + [fs.Now()], done + [|log.cache.trace|];
      i := i + 1;
    }
  }

  lemma NothingRun(y: Layout, trace: seq<DiskState>, ops: seq<FS.Op>, results: seq<int>, views: seq<FS.View>,
                   done: seq<nat>)
    requires |views| == |done| == 1
    ensures RunSafe(y, trace, ops, results, views, done, 0)
  {
  }

  lemma AtomicFrom(y: Layout, trace: seq<DiskState>, lo: nat, mid: nat, hi: nat, a: Held, b: Held)
    requires lo <= mid <= hi && FilesSafe(y, trace, lo, mid, a) && FilesSafe(y, trace, mid, hi, b)
    ensures Atomic(y, trace, lo, hi, a, b)
  {
  }

  /** Whenever the machine stops during a run, and however often it stops again while it recovers, the disk ends up with
      the files as they were after the first k operations of the run, and no operation that had been committed is
      missing. */
  lemma {:induction false} CrashFindsPrefix(y: Layout, trace: seq<DiskState>, ops: seq<FS.Op>, results: seq<int>,
                                            views: seq<FS.View>, done: seq<nat>, n: nat, j: nat,
                                            boots: seq<DiskState>)
    returns (k: nat)
    requires LayoutOk(y) && RunSafe(y, trace, ops, results, views, done, n) && done[0] <= j < done[n] <= |trace|
    requires CrashingBoots(boots, y.start) && boots[0] == trace[j]
    ensures k <= n && (forall m :: 0 <= m <= n && done[m] <= j ==> m <= k)
    ensures var t := RecoveryTrace(boots[|boots| - 1], y.start); HasFiles(y, t[|t| - 1], HeldIn(views[k]))
  {
    hide FS.Effect, HasFiles, RecoveryTrace, CrashingBoots;
    if j < done[n - 1] {
      k := CrashFindsPrefix(y, trace, ops, results, views[..n], done[..n], n - 1, j, boots);
    } else {
      var mid: nat :| done[n - 1] <= mid <= done[n] && FilesSafe(y, trace, done[n - 1], mid, HeldIn(views[n - 1]))
                      && FilesSafe(y, trace, mid, done[n], HeldIn(views[n]));
      k := if j < mid then n - 1 else n;
      BootsKeepFiles(y, trace[j], HeldIn(views[k]), boots);
    }
  }

  /** Booting on a disk that recovers to an image of a file system: recovery, and then operations can run. */
  method Mount(cache: Cache, y: Layout, c: Contents, ghost owner: FsModel.Owners, ghost files: seq<seq<int>>,
               ghost nproc: nat, pid: nat) returns (fs: FS.Fs, log: WriteAheadLog.Log)
    requires cache.Valid() && WriteAheadLog.Coherent(cache.buf, cache.disk) && pid < nproc
    requires forall b :: 0 <= b < NBUF ==> cache.pins[b] == 0 && cache.holders[b] == multiset{}
    requires LayoutOk(y) && GoodLog(cache.disk, y.start) && Stored(y, Recovered(cache.disk, y.start), c)
    requires Consistent(y, c, owner, HeldBy(files, c.inode)) && 0 < y.lo && y.size <= FS.BPB
    modifies cache
    ensures fresh(fs) && fresh(log) && log.cache == cache && fs.Where() == y && fs.files == files && fs.inode == c.inode
    ensures Settled(fs, log, pid)
  {
    hide Stored, FsModel.Owned, FsModel.Holding, FS.MarksOk, WriteAheadLog.Log.Core, WriteAheadLog.SpaceOk,
         WriteAheadLog.EmptyHeader, Recovered, SameHome, LayoutOk, Recorded;
    log := WriteAheadLog.Initlog(cache, y.start, nproc, pid);
    SameImage(y, Recovered(old(cache.disk), y.start), cache.disk, c);
    ImageSizes(y, cache.disk, c);
    fs := new FS.Fs(y.size, y.lo, y.bmapstart, y.inodestart, y.start, c.inode, c.blocks.data, c.blocks.bitmap,
                    cache.disk,
                    owner, files);
    HomesMeet(log.logged, cache.disk, Recovered(old(cache.disk), y.start), y.start);
  }

  lemma ImageSizes(y: Layout, d: DiskState, c: Contents)
    requires Stored(y, d, c)
    ensures |c.inode| == y.ninodes && |c.blocks.data| == y.size >= y.lo
  {
  }

  lemma HomesMeet(a: DiskState, b: DiskState, e: DiskState, start: nat)
    requires SameHome(a, e, start) && SameHome(b, e, start)
    ensures SameHome(a, b, start)
  {
  }

  // ---------- a disk has at most one set of files ----------

  /** Two images agree on the inodes, as far as the disk has them, and on every block that can belong to a file. */
  ghost predicate Agree(y: Layout, a: Contents, b: Contents) {
    && |a.inode| == |b.inode| && |a.blocks.data| == |b.blocks.data| == y.size
    && (forall i :: 0 <= i < |a.inode| ==> a.inode[i].size == b.inode[i].size && a.inode[i].addrs == b.inode[i].addrs)
    && (forall i :: 0 <= i < |a.inode| ==> AttrOf(a.inode[i]) == AttrOf(b.inode[i]))
    && (forall k :: y.lo <= k < y.size ==> a.blocks.data[k] == b.blocks.data[k])
  }

  /** The size and the addresses fit in their words. */
  ghost predicate FitsWords(n: FsModel.Inode) {
    |n.addrs| == FsModel.NDIRECT + 1 && n.size < UINT32 && forall k :: 0 <= k < |n.addrs| ==> n.addrs[k] < UINT32
  }

  lemma InodeFits(y: Layout, c: Contents, o: FsModel.Owners, f: Held, i: nat)
    requires Consistent(y, c, o, f) && i < |c.inode|
    ensures FitsWords(c.inode[i])
  {
    hide FsModel.ByteIs;
    assert FsModel.Bytes(c.inode, c.blocks.data, i, f.files[i]);
    forall k | 0 <= k < |c.inode[i].addrs| ensures c.inode[i].addrs[k] < UINT32 {
      var s := if k < FsModel.NDIRECT then FsModel.Direct(i, k) else FsModel.Indirect(i);
      assert FsModel.ValidSlot(s, |c.inode|) && FsModel.Addr(c.inode, c.blocks.data, s) == c.inode[i].addrs[k];
    }
  }

  lemma StoredAgree(y: Layout, d: DiskState, a: Contents, b: Contents)
    requires Stored(y, d, a) && Stored(y, d, b)
    requires forall i :: 0 <= i < |a.inode| ==> FitsWords(a.inode[i])
    requires forall i :: 0 <= i < |b.inode| ==> FitsWords(b.inode[i])
    ensures Agree(y, a, b)
  {
    hide InodeThere, FitsWords, Bits, InodeBlock;
    forall i | 0 <= i < y.ninodes
      ensures a.inode[i].size == b.inode[i].size && a.inode[i].addrs == b.inode[i].addrs
      ensures AttrOf(a.inode[i]) == AttrOf(b.inode[i])
    {
      assert InodeStored(y, d, i, a.inode[i]) && InodeStored(y, d, i, b.inode[i]);
      OneInodeThere(d[InodeBlock(y.inodestart, i)], i, a.inode[i], b.inode[i]);
    }
  }

  /** The bytes of an inode determine it, when its fields fit. */
  lemma OneInodeThere(b: Block, i: nat, m: FsModel.Inode, n: FsModel.Inode)
    requires InodeThere(b, i, m) && InodeThere(b, i, n) && FitsWords(m) && FitsWords(n)
    ensures m.size == n.size && m.addrs == n.addrs && AttrOf(m) == AttrOf(n)
    ensures FitsShorts(m) && FitsShorts(n) ==> m == n
  {
    hide Half, Long;
    var o := i % 16 * 64;
    forall k | 0 <= k < |m.addrs| ensures m.addrs[k] == n.addrs[k] {
      assert Long(b, o + 12 + 4 * k) == m.addrs[k] % UINT32;
    }
  }

  ghost predicate FitsShorts(n: FsModel.Inode) {
    n.kind < 0x1_0000 && n.major < 0x1_0000 && n.minor < 0x1_0000 && n.nlink < 0x1_0000
  }

  /** In agreeing images every slot of a file holds the same address. */
  lemma SameAddr(y: Layout, a: Contents, b: Contents, o: FsModel.Owners, f: Held, s: FsModel.Slot)
    requires Agree(y, a, b) && Consistent(y, a, o, f) && FsModel.Sized(b.inode, b.blocks.data)
    requires FsModel.ValidSlot(s, |a.inode|)
    ensures FsModel.Addr(a.inode, a.blocks.data, s) == FsModel.Addr(b.inode, b.blocks.data, s)
    ensures FsModel.Addr(a.inode, a.blocks.data, s) != 0 ==> y.lo <= FsModel.Addr(a.inode, a.blocks.data, s) < y.size
  {
    hide FsModel.Holding;
    if s.Entry? {
      var ind := a.inode[s.inum].addrs[FsModel.NDIRECT];
      assert FsModel.Addr(a.inode, a.blocks.data, FsModel.Indirect(s.inum)) == ind;
      if ind != 0 { assert ind in o; }
    }
  }

  lemma SameByte(y: Layout, a: Contents, b: Contents, o: FsModel.Owners, f: Held, g: Held, i: nat,
                 k: nat)
    requires Agree(y, a, b) && Consistent(y, a, o, f) && FsModel.Holding(b.inode, b.blocks.data, g.files)
    requires i < |f.files| == |g.files| && k < |f.files[i]| == |g.files[i]|
    ensures f.files[i][k] == g.files[i][k]
  {
    hide FsModel.Owned;
    assert FsModel.Bytes(a.inode, a.blocks.data, i, f.files[i]) && FsModel.Bytes(b.inode, b.blocks.data, i, g.files[i]);
    assert FsModel.ByteIs(a.inode, a.blocks.data, i, k, f.files[i][k]) &&
        FsModel.ByteIs(b.inode, b.blocks.data, i, k, g.files[i][k]);
    SameAddr(y, a, b, o, f, FsModel.FileSlot(i, k / BSIZE));
  }

  /** What is on a disk determines the files and the attributes of the inodes. */
  lemma OneReading(y: Layout, d: DiskState, f: Held, g: Held)
    requires HasFiles(y, d, f) && HasFiles(y, d, g)
    ensures f == g
  {
    var a: Contents, o: FsModel.Owners :| Stored(y, d, a) && Consistent(y, a, o, f);
    var b: Contents, p: FsModel.Owners :| Stored(y, d, b) && Consistent(y, b, p, g);
    hide Stored, FitsWords;
    forall i | 0 <= i < |a.inode| ensures FitsWords(a.inode[i]) { InodeFits(y, a, o, f, i); }
    forall i | 0 <= i < |b.inode| ensures FitsWords(b.inode[i]) { InodeFits(y, b, p, g, i); }
    StoredAgree(y, d, a, b);
    hide FsModel.Owned;
    forall i | 0 <= i < |f.files| ensures f.files[i] == g.files[i] {
      assert |f.files[i]| == a.inode[i].size == |g.files[i]|;
      forall k | 0 <= k < |f.files[i]| ensures f.files[i][k] == g.files[i][k] { SameByte(y, a, b, o, f, g, i, k); }
    }
    assert f.files == g.files && f.attrs == g.attrs;
  }
}
