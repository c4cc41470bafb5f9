/** Block allocation and inode contents (kernel/fs.c), and the chunking of filewrite (kernel/file.c).

    `data` and `bitmap` are the blocks as the cache shows them, `view` is the disk as log_write was given it. `files` is
    the abstract file system, one byte sequence per inode; `logged` collects the numbers of the blocks logged by the
    current transaction. */
module FileSystem {
  import opened Blocks
  import opened DiskImage
  import opened FsModel
  import SetSize
  import WriteAheadLog

  const BPB: nat := BSIZE * 8           // bitmap bits per block
  const MAXOPBLOCKS: nat := WriteAheadLog.MAXOPBLOCKS

  // ---------- the free map ----------

  /** 1 << k */
  function Mask(k: nat): bv8
    requires k < 8
  {
    if k == 0 then 1 else if k == 1 then 2 else if k == 2 then 4 else if k == 3 then 8
    else if k == 4 then 16 else if k == 5 then 32 else if k == 6 then 64 else 128
  }

  predicate HasBit(x: bv8, k: nat)
    requires k < 8
  {
    x & Mask(k) != 0
  }

  function WithBit(x: bv8, k: nat): bv8
    requires k < 8
  {
    x | Mask(k)
  }

  function WithoutBit(x: bv8, k: nat): bv8
    requires k < 8
  {
    x & !Mask(k)
  }

  lemma BitOps(x: bv8, j: nat, k: nat)
    requires j < 8 && k < 8
    ensures HasBit(WithBit(x, k), j) <==> j == k || HasBit(x, j)
    ensures HasBit(WithoutBit(x, k), j) <==> j != k && HasBit(x, j)
  {
  }

  predicate BitmapOk(bitmap: Bitmap, size: nat) {
    size <= |bitmap| * BPB && forall i :: 0 <= i < |bitmap| ==> |bitmap[i]| == BSIZE
  }

  // Where the bit of block b lives: bitmap block, byte in it, bit in the byte.
  function BitBlock(b: nat): nat { b / BPB }

  function BitByte(b: nat): (r: nat)
    ensures r < BSIZE
  {
    b % BPB / 8
  }

  function BitNumber(b: nat): (r: nat)
    ensures r < 8
  {
    b % BPB % 8
  }

  lemma SameBit(b: nat, c: nat)
    ensures BitBlock(b) == BitBlock(c) && BitByte(b) == BitByte(c) && BitNumber(b) == BitNumber(c) <==> b == c
  {
  }

  lemma InMap(bitmap: Bitmap, size: nat, b: nat)
    requires BitmapOk(bitmap, size) && b < size
    ensures BitBlock(b) < |bitmap|
  {
  }

  predicate Marked(bitmap: Bitmap, size: nat, b: nat)
    requires BitmapOk(bitmap, size) && b < size
  {
    InMap(bitmap, size, b);
    HasBit(bitmap[BitBlock(b)][BitByte(b)], BitNumber(b))
  }

  function SetByte(bitmap: Bitmap, size: nat, b: nat, x: bv8): (r: Bitmap)
    requires BitmapOk(bitmap, size) && b < size
    ensures BitmapOk(r, size)
  {
    InMap(bitmap, size, b);
    bitmap[BitBlock(b) := bitmap[BitBlock(b)][BitByte(b) := x]]
  }

  /** Setting or clearing one bit changes that one mark. */
  lemma OneBit(bitmap: Bitmap, size: nat, b: nat, x: bv8, on: bool)
    requires BitmapOk(bitmap, size) && b < size && BitBlock(b) < |bitmap|
    requires x == if on then WithBit(bitmap[BitBlock(b)][BitByte(b)], BitNumber(b))
                  else WithoutBit(bitmap[BitBlock(b)][BitByte(b)], BitNumber(b))
    ensures forall c :: 0 <= c < size ==>
              (Marked(SetByte(bitmap, size, b, x), size, c) <==> if c == b then on else Marked(bitmap, size, c))
  {
    hide HasBit, WithBit, WithoutBit, BitBlock, BitByte, BitNumber;
    var y, r := bitmap[BitBlock(b)][BitByte(b)], SetByte(bitmap, size, b, x);
    forall c | 0 <= c < size ensures Marked(r, size, c) <==> if c == b then on else Marked(bitmap, size, c) {
      InMap(bitmap, size, c);
      SameBit(b, c);
      BitOps(y, BitNumber(c), BitNumber(b));
    }
  }

  /** The bitmap marks exactly the metadata blocks and the owned blocks. */
  ghost predicate MarksOk(bitmap: Bitmap, size: nat, lo: nat, owner: Owners) {
    BitmapOk(bitmap, size) && forall b :: 0 <= b < size ==> (Marked(bitmap, size, b) <==> b < lo || b in owner)
  }

  lemma MarkAlloc(bitmap: Bitmap, bitmap': Bitmap, size: nat, lo: nat, owner: Owners, b: nat, s: Slot)
    requires MarksOk(bitmap, size, lo, owner) && BitmapOk(bitmap', size)
    requires forall c :: 0 <= c < size ==> (Marked(bitmap', size, c) <==> c == b || Marked(bitmap, size, c))
    ensures MarksOk(bitmap', size, lo, owner[b := s])
  {
    hide Marked;
  }

  lemma MarkFree(bitmap: Bitmap, bitmap': Bitmap, size: nat, lo: nat, owner: Owners, b: nat)
    requires MarksOk(bitmap, size, lo, owner) && BitmapOk(bitmap', size) && lo <= b
    requires forall c :: 0 <= c < size ==> (Marked(bitmap', size, c) <==> c != b && Marked(bitmap, size, c))
    ensures MarksOk(bitmap', size, lo, owner - {b as int})
  {
    hide Marked;
  }

  class Fs {
    const size: nat          // blocks on the disk
    const lo: nat            // first data block
    const bmapstart: nat
    const inodestart: nat
    const logstart: nat
    var inode: seq<Inode>    // in-memory inodes
    var dinode: seq<Inode>   // inodes on disk
    var data: seq<Block>
    var bitmap: Bitmap
    var view: DiskState      // the whole disk, as log_write was last given every block
    var writes: Writes       // the log_writes of the current transaction

    ghost var owner: Owners
    ghost var files: seq<seq<int>>
    ghost var logged: set<int>
    ghost var log: Image      // the blocks as the log has them: after each log_write, the block written
    ghost var base: DiskState // `view` at the start of the transaction

    /** Every block is owned once, and the bitmap marks exactly the owned ones. */
    ghost predicate Space()
      reads this
    {
      0 < lo <= size && |data| == size && Owned(inode, data, owner, lo) && MarksOk(bitmap, size, lo, owner)
    }

    /** Every block is in the log as it is in memory: nothing was changed without a log_write after it. */
    ghost predicate InLog()
      reads this
    {
      log == Image(bitmap, data)
    }

    ghost function Where(): Layout
      reads this
    {
      Layout(logstart, inodestart, |dinode|, bmapstart, lo, size)
    }

    /** The log's view of the disk holds the inodes and blocks as the log has them, and is what the transaction's
        log_writes made of the disk it started with. */
    ghost predicate OnDisk()
      reads this
    {
      && |log.bitmap| == |bitmap| && |data| == size
      && Recorded(Where(), base, view, writes, logged, Contents(dinode, log))
    }

    /** log_write of a data block or an indirect block. */
    method LogData(b: nat)
      requires b < |data|
      modifies this`logged, this`log, this`view, this`writes
      ensures logged == old(logged) + {b as int}
      ensures |old(log).data| == |data| ==> log == old(log).(data := old(log).data[b := data[b]])
      ensures old(OnDisk()) && lo <= b ==> OnDisk()
    {
      hide Recorded;
      if OnDisk() && lo <= b { RecordData(Where(), base, view, writes, logged, Contents(dinode, log), b, data[b]); }
      if OnDisk() { RecordSizes(Where(), base, view, writes, logged, Contents(dinode, log)); }
      view, writes := PutBlock(view, b, data[b]), writes + [(b, data[b])];
      logged := logged + {b as int};
      if |log.data| == |data| { log := log.(data := log.data[b := data[b]]); }
    }

    /** log_write of the i-th block of the bitmap. */
    method LogBits(i: nat)
      requires i < |bitmap|
      modifies this`logged, this`log, this`view, this`writes
      ensures logged == old(logged) + {(i + bmapstart) as int}
      ensures |old(log).bitmap| == |bitmap| ==> log == old(log).(bitmap := old(log).bitmap[i := bitmap[i]])
      ensures old(OnDisk()) ==> OnDisk()
    {
      hide Recorded;
      if OnDisk() { RecordBits(Where(), base, view, writes, logged, Contents(dinode, log), i, bitmap[i]); }
      view, writes := PutBlock(view, i + bmapstart, Bits(bitmap[i])), writes + [(i + bmapstart, Bits(bitmap[i]))];
      logged := logged + {(i + bmapstart) as int};
      if |log.bitmap| == |bitmap| { log := log.(bitmap := log.bitmap[i := bitmap[i]]); }
    }

    /** The invariant between operations: every file is a byte sequence without holes, and the disk has
        every inode as it is in memory. */
    ghost predicate Valid()
      reads this
    {
      && Space()
      && Holding(inode, data, files)
      && dinode == inode
    }

    /** A file system image without holes, on the given disk. */
    constructor (size: nat, lo: nat, bmapstart: nat, inodestart: nat, logstart: nat, inode: seq<Inode>,
                 data: seq<Block>, bitmap: Bitmap, disk: DiskState, ghost owner: Owners, ghost files: seq<seq<int>>)
      requires 0 < lo <= size && |data| == size && Owned(inode, data, owner, lo) && MarksOk(bitmap, size, lo, owner)
      requires Holding(inode, data, files)
      ensures Valid() && InLog() && this.inode == inode && this.files == files && view == disk
      ensures Where() == Layout(logstart, inodestart, |inode|, bmapstart, lo, size)
      ensures LayoutOk(Where()) && Stored(Where(), disk, Contents(inode, Image(bitmap, data))) ==> OnDisk()
    {
      this.size, this.lo, this.bmapstart, this.inodestart, this.logstart := size, lo, bmapstart, inodestart, logstart;
      this.inode, dinode, this.data, this.bitmap := inode, inode, data, bitmap;
      view, writes := disk, [];
      this.owner, this.files, logged, log, base := owner, files, {}, Image(bitmap, data), disk;
      new;
      assert Numbers([]) == {};
    }

    /** bzero */
    method Bzero(b: nat)
      requires b < |data|
      modifies this`data, this`logged, this`log, this`view, this`writes
      ensures (old(InLog()) ==> InLog()) && (old(OnDisk()) && lo <= b ==> OnDisk())
      ensures data == old(data)[b := ZeroBlock()] && logged == old(logged) + {b as int}
    {
      data := data[b := ZeroBlock()];
      LogData(b);
    }

    /** balloc: the lowest free block, marked and zeroed; 0 exactly when every block is marked. */
    method Balloc() returns (r: nat)
      requires BitmapOk(bitmap, size) && |data| == size
      requires forall c :: 0 <= c < lo && c < size ==> Marked(bitmap, size, c)
      requires 0 < lo
      modifies this`bitmap, this`data, this`logged, this`log, this`view, this`writes
      ensures (old(InLog()) ==> InLog()) && (old(OnDisk()) ==> OnDisk())
      ensures BitmapOk(bitmap, size)
      ensures r == 0 ==> bitmap == old(bitmap) && data == old(data) && logged == old(logged)
      ensures r == 0 ==> forall c :: 0 <= c < size ==> Marked(bitmap, size, c)
      ensures r != 0 ==> lo <= r < size && !Marked(old(bitmap), size, r) && data == old(data)[r := ZeroBlock()]
      ensures r != 0 ==> forall c :: 0 <= c < r ==> Marked(old(bitmap), size, c)
      ensures r != 0 ==> forall c :: 0 <= c < size ==>
                                       (Marked(bitmap, size, c) <==> c == r || Marked(old(bitmap), size, c))
      ensures r != 0 ==> logged == old(logged) + {BitBlock(r) + bmapstart, r as int}
    {
      hide Mask, HasBit, WithBit, WithoutBit, Recorded;
      var b := 0;
      while b < size
        invariant 0 <= b && b % BPB == 0
        invariant bitmap == old(bitmap) && data == old(data) && logged == old(logged) && log == old(log)
        invariant view == old(view) && writes == old(writes)
        invariant forall c :: 0 <= c < b && c < size ==> Marked(bitmap, size, c)
        decreases size - b
      {
        var bi := 0;
        while bi < BPB && b + bi < size
          invariant 0 <= bi <= BPB
          invariant bitmap == old(bitmap) && data == old(data) && logged == old(logged) && log == old(log)
          invariant view == old(view) && writes == old(writes)
          invariant forall c :: 0 <= c < b + bi && c < size ==> Marked(bitmap, size, c)
        {
          BitAt(b, bi);
          InMap(bitmap, size, b + bi);
          var m := bi % 8;
          if !HasBit(bitmap[b / BPB][bi / 8], m) {
            assert !Marked(bitmap, size, b + bi);
            var x := WithBit(bitmap[b / BPB][bi / 8], m);
            OneBit(bitmap, size, b + bi, x, true);
            bitmap := bitmap[b / BPB := bitmap[b / BPB][bi / 8 := x]];
            assert bitmap == SetByte(old(bitmap), size, b + bi, x);
            LogBits(b / BPB);
            Bzero(b + bi);
            return b + bi;
          }
          bi := bi + 1;
        }
        b := b + BPB;
      }
      return 0;
    }

    /** bfree of a marked block: "freeing free block" is the excluded case. */
    method Bfree(b: nat)
      requires BitmapOk(bitmap, size) && b < size && Marked(bitmap, size, b)
      modifies this`bitmap, this`logged, this`log, this`view, this`writes
      ensures (old(InLog()) ==> InLog()) && (old(OnDisk()) ==> OnDisk())
      ensures BitmapOk(bitmap, size)
      ensures forall c :: 0 <= c < size ==> (Marked(bitmap, size, c) <==> c != b && Marked(old(bitmap), size, c))
      ensures logged == old(logged) + {BitBlock(b) + bmapstart}
    {
      hide Mask, HasBit, WithBit, WithoutBit, Recorded;
      InMap(bitmap, size, b);
      var bi := b % BPB;
      var m := bi % 8;
      assert HasBit(bitmap[b / BPB][bi / 8], m);
      var x := WithoutBit(bitmap[b / BPB][bi / 8], m);
      OneBit(bitmap, size, b, x, false);
      bitmap := bitmap[b / BPB := bitmap[b / BPB][bi / 8 := x]];
      assert bitmap == SetByte(old(bitmap), size, b, x);
      LogBits(b / BPB);
    }

    ghost predicate Full()
      reads this
    {
      BitmapOk(bitmap, size) && forall c :: 0 <= c < size ==> Marked(bitmap, size, c)
    }

    /** bmap's allocation of a direct block or of the indirect block. */
    method TakeAddress(inum: nat, i: nat, ghost bn: nat) returns (b: nat)
      requires Space() && inum < |inode| && i <= NDIRECT && inode[inum].addrs[i] == 0 && bn < MAXFILE
      requires (i == bn || i == NDIRECT)
      modifies this`inode, this`data, this`bitmap, this`owner, this`logged, this`log, this`view, this`writes
      ensures (old(InLog()) ==> InLog()) && (old(OnDisk()) ==> OnDisk())
      ensures Space() && Mapped(old(inode), old(data), old(owner), inode, data, owner, inum, bn)
      ensures b == 0 ==>
                inode == old(inode) && data == old(data) && owner == old(owner) && logged == old(logged) && Full()
      ensures b != 0 ==> inode == SetAddr(old(inode), inum, i, b) && b < size && data[b] == ZeroBlock() &&
                         inode[inum].addrs[i] == b
      ensures b != 0 ==> logged == old(logged) + {BitBlock(b) + bmapstart, b as int}
    {
      hide Owned, Marked, Addr, Mapped;
      SpaceSized();
      MappedRefl(inode, data, owner, inum, bn);
      b := Balloc();
      if b != 0 {
        assert b !in owner;
        inode := SetAddr(inode, inum, i, b);
        AddressIsMapped(old(inode), old(data), owner, lo, inum, i, b, inode, data, bn);
        ghost var s := if i < NDIRECT then Direct(inum, i) else Indirect(inum);
        MarkAlloc(old(bitmap), bitmap, size, lo, owner, b, s);
        owner := owner[b as int := s];
      }
    }

    lemma SpaceSized()
      requires Space()
      ensures Sized(inode, data)
    {
    }

    /** bmap's allocation of a data block named by the indirect block. */
    method TakeEntry(inum: nat, j: nat) returns (b: nat)
      requires Space() && inum < |inode| && j < NINDIRECT && 0 != inode[inum].addrs[NDIRECT] < |data|
      requires Addr(inode, data, Entry(inum, j)) == 0
      modifies this`data, this`bitmap, this`owner, this`logged, this`log, this`view, this`writes
      ensures (old(InLog()) ==> InLog()) && (old(OnDisk()) ==> OnDisk())
      ensures Space() && Mapped(old(inode), old(data), old(owner), inode, data, owner, inum, NDIRECT + j)
      ensures b == 0 ==> data == old(data) && owner == old(owner) && logged == old(logged) && Full()
      ensures b != 0 ==> b < size && data[b] == ZeroBlock() && Addr(inode, data, Entry(inum, j)) == b
      ensures b != 0 ==> logged == old(logged) + {BitBlock(b) + bmapstart, b as int, inode[inum].addrs[NDIRECT] as int}
    {
      hide Owned, Marked, Addr, Mapped, PutWord;
      SpaceSized();
      AddrInRange(Indirect(inum));
      IndirectAddr(inum);
      MappedRefl(inode, data, owner, inum, NDIRECT + j);
      b := Balloc();
      if b != 0 {
        assert b !in owner;
        var ind := inode[inum].addrs[NDIRECT];
        data := data[ind := PutWord(data[ind], j, b)];
        LogData(ind);
        EntryIsMapped(inode, old(data), owner, lo, inum, j, b, data);
        MarkAlloc(old(bitmap), bitmap, size, lo, owner, b, Entry(inum, j));
        owner := owner[b as int := Entry(inum, j)];
      }
    }

    /** bmap: the address of block bn, allocating what is missing. It returns 0 only when the disk is full,
        loses no byte of any file, and a block it allocates is zero. */
    method Bmap(inum: nat, bn: nat) returns (addr: int)
      requires Space() && inum < |inode| && bn < MAXFILE
      modifies this`inode, this`data, this`bitmap, this`owner, this`logged, this`log, this`view, this`writes
      ensures (old(InLog()) ==> InLog()) && (old(OnDisk()) ==> OnDisk())
      ensures Space() && Mapped(old(inode), old(data), old(owner), inode, data, owner, inum, bn)
      ensures addr == Addr(inode, data, FileSlot(inum, bn)) && (addr == 0 ==> Full())
      ensures addr != 0 ==> 0 < lo <= addr < size
      ensures old(Addr(inode, data, FileSlot(inum, bn))) != 0 ==>
                inode == old(inode) && data == old(data) && bitmap == old(bitmap) && owner == old(owner) &&
                    logged == old(logged)
      ensures size <= BPB ==> logged <= old(logged) + {addr, bmapstart as int} + IndirectOf(inode, inum)
    {
      hide Owned, MarksOk, Mapped;
      SpaceSized();
      if bn < NDIRECT {
        addr := BmapDirect(inum, bn);
      } else {
        addr := BmapIndirect(inum, bn - NDIRECT);
      }
    }

    method BmapDirect(inum: nat, bn: nat) returns (addr: int)
      requires Space() && inum < |inode| && bn < NDIRECT
      modifies this`inode, this`data, this`bitmap, this`owner, this`logged, this`log, this`view, this`writes
      ensures (old(InLog()) ==> InLog()) && (old(OnDisk()) ==> OnDisk())
      ensures Space() && Mapped(old(inode), old(data), old(owner), inode, data, owner, inum, bn)
      ensures addr == Addr(inode, data, Direct(inum, bn)) && (addr == 0 ==> Full()) &&
              (addr != 0 ==> 0 < lo <= addr < size)
      ensures old(Addr(inode, data, Direct(inum, bn))) != 0 ==>
                inode == old(inode) && data == old(data) && bitmap == old(bitmap) && owner == old(owner) &&
                    logged == old(logged)
      ensures size <= BPB ==> logged <= old(logged) + {addr, bmapstart as int}
    {
      hide Owned, MarksOk, Mapped;
      SpaceSized();
      MappedRefl(inode, data, owner, inum, bn);
      addr := inode[inum].addrs[bn];
      if addr == 0 {
        addr := TakeAddress(inum, bn, bn);
        if addr == 0 { return 0; }
      }
      AddrInRange(Direct(inum, bn));
    }

    method BmapIndirect(inum: nat, j: nat) returns (addr: int)
      requires Space() && inum < |inode| && j < NINDIRECT
      modifies this`inode, this`data, this`bitmap, this`owner, this`logged, this`log, this`view, this`writes
      ensures (old(InLog()) ==> InLog()) && (old(OnDisk()) ==> OnDisk())
      ensures Space() && Mapped(old(inode), old(data), old(owner), inode, data, owner, inum, NDIRECT + j)
      ensures addr == Addr(inode, data, Entry(inum, j)) && (addr == 0 ==> Full()) &&
              (addr != 0 ==> 0 < lo <= addr < size)
      ensures old(Addr(inode, data, Entry(inum, j))) != 0 ==>
                inode == old(inode) && data == old(data) && bitmap == old(bitmap) && owner == old(owner) &&
                    logged == old(logged)
      ensures size <= BPB ==> logged <= old(logged) + {addr, bmapstart as int} + IndirectOf(inode, inum)
    {
      hide Owned, MarksOk, Mapped, Addr, Space, OnDisk, InLog;
      SpaceSized();
      EntryNeedsIndirect(inum, j);
      var ind := inode[inum].addrs[NDIRECT];
      if ind == 0 {
        ind := TakeAddress(inum, NDIRECT, NDIRECT + j);
        if ind == 0 {
          EntryNeedsIndirect(inum, j);
          return 0;
        }
      }
      addr := BmapEntry(inum, j, ind, old(inode), old(data), old(owner));
    }

    lemma EntryNeedsIndirect(inum: nat, j: nat)
      requires Space() && inum < |inode| && j < NINDIRECT
      ensures Sized(inode, data) && Mapped(inode, data, owner, inode, data, owner, inum, NDIRECT + j)
      ensures Addr(inode, data, Indirect(inum)) == inode[inum].addrs[NDIRECT]
      ensures inode[inum].addrs[NDIRECT] == 0 ==> Addr(inode, data, Entry(inum, j)) == 0
    {
      MappedRefl(inode, data, owner, inum, NDIRECT + j);
    }

    /** bmap once the indirect block is there. */
    method BmapEntry(inum: nat, j: nat, ind: nat, ghost i0: seq<Inode>, ghost d0: seq<Block>,
                     ghost o0: Owners) returns (addr: int)
      requires Space() && inum < |inode| && j < NINDIRECT && inode[inum].addrs[NDIRECT] == ind != 0
      requires Mapped(i0, d0, o0, inode, data, owner, inum, NDIRECT + j)
      modifies this`inode, this`data, this`bitmap, this`owner, this`logged, this`log, this`view, this`writes
      ensures (old(InLog()) ==> InLog()) && (old(OnDisk()) ==> OnDisk())
      ensures Space() && Mapped(i0, d0, o0, inode, data, owner, inum, NDIRECT + j) && inum < |inode|
      ensures IndirectOf(inode, inum) == {ind as int}
      ensures addr == Addr(inode, data, Entry(inum, j)) && (addr == 0 ==> Full()) &&
              (addr != 0 ==> 0 < lo <= addr < size)
      ensures old(Addr(inode, data, Entry(inum, j))) != 0 ==>
                inode == old(inode) && data == old(data) && bitmap == old(bitmap) && owner == old(owner) &&
                    logged == old(logged)
      ensures size <= BPB ==> logged <= old(logged) + {addr, bmapstart as int} + IndirectOf(inode, inum)
    {
      hide Owned, MarksOk, Mapped, PutWord, Space, OnDisk, InLog;
      AddrInRange(Indirect(inum));
      addr := Word(data[ind], j);
      if addr == 0 {
        addr := TakeEntry(inum, j);
        MappedTrans(i0, d0, o0, old(inode), old(data), old(owner), inode, data, owner, inum, NDIRECT + j);
      }
      AddrInRange(Entry(inum, j));
    }

    lemma AddrInRange(s: Slot)
      requires Space() && ValidSlot(s, |inode|)
      ensures Sized(inode, data) && (Addr(inode, data, s) == 0 || 0 < lo <= Addr(inode, data, s) < |data| == size)
    {
    }

    /** iupdate */
    method Iupdate(inum: nat)
      requires inum < |inode| == |dinode|
      modifies this`dinode, this`logged, this`log, this`view, this`writes
      ensures old(InLog()) ==> InLog()
      ensures old(OnDisk()) && |inode[inum].addrs| == NDIRECT + 1 ==> OnDisk()
      ensures log == old(log)
      ensures dinode == old(dinode)[inum := inode[inum]] && logged == old(logged) + {(inum / IPB + inodestart) as int}
    {
      hide Recorded;
      if OnDisk() && |inode[inum].addrs| == NDIRECT + 1 {
        RecordInode(Where(), base, view, writes, logged, Contents(dinode, log), inum, inode[inum]);
      }
      var b := InodeBlock(inodestart, inum);
      var w := PutInode(BlockAt(view, b), inum, inode[inum]);
      dinode := dinode[inum := inode[inum]];
      view, writes := PutBlock(view, b, w), writes + [(b, w)];
      logged := logged + {b as int};
    }

    /** The state inside writei: `cur` is what file inum would hold if it were as long as `cur`. */
    ghost predicate Writing(inum: nat, cur: seq<int>, inode0: seq<Inode>, files0: seq<seq<int>>)
      reads this
    {
      && Space() && inum < |inode| == |inode0| && HoldingBut(inode, data, files0, inum) && Bytes(inode, data, inum, cur)
      && (forall i :: 0 <= i < |inode| && i != inum ==> inode[i] == inode0[i])
      && inode[inum] == inode0[inum].(addrs := inode[inum].addrs)
    }

    /** What the log has: every file but inum, and of inum the bytes `cur`. */
    ghost predicate Kept(inum: nat, cur: seq<int>)
      reads this
    {
      && inum < |inode| && log.bitmap == bitmap && |log.data| == size && Owned(inode, log.data, owner, lo)
      && HoldingBut(inode, log.data, files, inum) && Bytes(inode, log.data, inum, cur)
    }

    lemma KeptNow(inum: nat, cur: seq<int>, inode0: seq<Inode>)
      requires Writing(inum, cur, inode0, files) && InLog()
      ensures Kept(inum, cur)
    {
      hide Owned, MarksOk, HoldingBut, Bytes;
    }

    /** One round of writei's loop: map the block, copy bytes into it, and log it if the copy was whole. A copy that
        stops part way leaves its bytes in the cached block. */
    method WriteRound(inum: nat, off: nat, w: seq<int>, whole: bool, ghost cur: seq<int>,
                      ghost inode0: seq<Inode>) returns (addr: int)
      requires Writing(inum, cur, inode0, files) && off <= |cur| && off / BSIZE < MAXFILE && off % BSIZE + |w| <= BSIZE
      requires forall k :: 0 <= k < |w| ==> 0 <= w[k] < 256
      modifies this`inode, this`data, this`bitmap, this`owner, this`logged, this`log, this`view, this`writes
      ensures old(OnDisk()) ==> OnDisk()
      ensures old(InLog()) && (whole || addr == 0 || w == []) ==> InLog()
      ensures old(InLog()) ==> Kept(inum, if whole && addr != 0 then Splice(cur, off, w) else cur)
      ensures Writing(inum, if addr == 0 then cur else Splice(cur, off, w), inode0, files) && (addr == 0 ==> Full())
      ensures size <= BPB ==> logged <= old(logged) + {addr, bmapstart as int} + IndirectOf(inode, inum)
      ensures IndirectOf(old(inode), inum) <= IndirectOf(inode, inum)
    {
      hide Owned, MarksOk, Mapped, Addr, Bytes, HoldingBut, Marked, Recorded;
      addr := MapForWrite(inum, off, cur, inode0);
      if InLog() { KeptNow(inum, cur, inode0); }
      if addr == 0 { return; }
      Fill(inum, off, w, addr, cur);
      if whole {
        LogData(addr);
        if old(InLog()) { KeptNow(inum, Splice(cur, off, w), inode0); }
      }
    }

    /** The bmap of a round. */
    method MapForWrite(inum: nat, off: nat, ghost cur: seq<int>, ghost inode0: seq<Inode>) returns (addr: int)
      requires Writing(inum, cur, inode0, files) && off / BSIZE < MAXFILE
      modifies this`inode, this`data, this`bitmap, this`owner, this`logged, this`log, this`view, this`writes
      ensures (old(InLog()) ==> InLog()) && (old(OnDisk()) ==> OnDisk())
      ensures Writing(inum, cur, inode0, files) && Sized(inode, data) &&
              addr == Addr(inode, data, FileSlot(inum, off / BSIZE))
      ensures (addr == 0 ==> Full()) && (addr != 0 ==> 0 < lo <= addr < size)
      ensures size <= BPB ==> logged <= old(logged) + {addr, bmapstart as int} + IndirectOf(inode, inum)
      ensures IndirectOf(old(inode), inum) <= IndirectOf(inode, inum)
    {
      hide Owned, MarksOk, Mapped, Addr, Bytes, HoldingBut, Marked, Recorded;
      SpaceSized();
      IndirectAddr(inum);
      ghost var i0, d0, o0 := inode, data, owner;
      addr := Bmap(inum, off / BSIZE);
      MappedKeepsFiles(i0, d0, o0, lo, inode, data, owner, inum, off / BSIZE, files, cur);
      SpaceSized();
    }

    lemma IndirectAddr(inum: nat)
      requires Space() && inum < |inode|
      ensures Sized(inode, data) && Addr(inode, data, Indirect(inum)) == inode[inum].addrs[NDIRECT]
    {
    }

    /** memmove into the mapped block. */
    method Fill(inum: nat, off: nat, w: seq<int>, addr: int, ghost cur: seq<int>)
      requires Space() && inum < |inode| && HoldingBut(inode, data, files, inum) && Bytes(inode, data, inum, cur)
      requires off <= |cur| && off / BSIZE < MAXFILE && off % BSIZE + |w| <= BSIZE && 0 < addr < size
      requires addr == Addr(inode, data, FileSlot(inum, off / BSIZE)) && forall k :: 0 <= k < |w| ==> 0 <= w[k] < 256
      modifies this`data
      ensures Space() && HoldingBut(inode, data, files, inum) && Bytes(inode, data, inum, Splice(cur, off, w))
      ensures |data| == |old(data)| == size && data == old(data)[addr := data[addr]] && (w == [] ==> data == old(data))
    {
      hide MarksOk, Addr, Bytes, Marked;
      WriteBytes(inode, data, owner, lo, inum, cur, off, w, addr, data[addr := Overlay(data[addr], off % BSIZE, w)]);
      if w == [] { assert Overlay(data[addr], off % BSIZE, w) == data[addr]; }
      data := data[addr := Overlay(data[addr], off % BSIZE, w)];
    }

    /** writei, of which `bad` bytes of the source can be read. It rejects a start beyond the end, an overflowing end
        and an end beyond the largest file; otherwise it falls short only when the disk is full or a copy fails. The
        bytes it returns are what the log gets. A copy that fails part way leaves `extra` more bytes in the cached
        block, where a reader sees them. `touched` bounds the blocks it logs. */
    method Writei(inum: nat, src: seq<int>, bad: nat, off0: nat)
      returns (r: int, ghost extra: nat, ghost touched: set<int>)
      requires Valid() && inum < |inode| && off0 < UINT32 && |src| < UINT32
      requires forall k :: 0 <= k < |src| ==> 0 <= src[k] < 256
      modifies this`inode, this`dinode, this`data, this`bitmap, this`owner, this`files, this`logged, this`log,
               this`view,
               this`writes
      ensures (old(InLog()) && extra == 0 ==> InLog()) && (old(OnDisk()) ==> OnDisk())
      ensures Valid() && |inode| == old(|inode|)
      ensures r == -1 <==> off0 > old(inode)[inum].size || off0 + |src| >= UINT32 || off0 + |src| > MAXFILE * BSIZE
      ensures r == -1 ==> inode == old(inode) && data == old(data) && bitmap == old(bitmap) && files == old(files) &&
                          logged == old(logged) && extra == 0
      ensures r != -1 ==> 0 <= r && r + extra <= |src| && r + extra <= bad && off0 <= |old(files)[inum]| &&
                          files == old(files)[inum := Seen(old(files)[inum], off0, src, r, extra)]
      ensures r != -1 && old(InLog()) ==> LogHolds(old(files)[inum := Splice(old(files)[inum], off0, src[..r])])
      ensures 0 <= r < |src| ==> (Full() && extra == 0) || Faults(off0, |src|, bad, r, extra)
      ensures r == |src| ==> extra == 0
      ensures forall i :: 0 <= i < |inode| && i != inum ==> inode[i] == old(inode)[i]
      ensures inode[inum] == old(inode)[inum].(size := inode[inum].size, addrs := inode[inum].addrs)
      ensures size <= BPB ==> logged <= old(logged) + touched && |touched| <= Spanned(off0, |src|) + 3
    {
      hide Owned, MarksOk, Addr, Bytes, HoldingBut, Marked, Space, OnDisk, InLog, LogHolds, Kept, Faults, Holding,
          Splice,
           Seen, IndirectOf, Spanned;
      StartWriting(inum);
      touched, extra := {}, 0;
      if off0 > inode[inum].size || Wraps(off0, |src|) {
        return -1, 0, {};
      }
      if off0 + |src| > MAXFILE * BSIZE {
        return -1, 0, {};
      }
      var off;
      ghost var blocks;
      off, extra, blocks := WriteLoop(inum, src, bad, off0);
      r := off - off0;
      EndWrite(inum, src, off0, off, extra);
      ghost var block := (inum / IPB + inodestart) as int;
      touched := blocks + {bmapstart as int} + IndirectOf(inode, inum) + {block};
      TouchedSize(blocks, bmapstart, IndirectOf(inode, inum), block, Spanned(off0, |src|));
    }

    /** writei after its loop: the file grows to the offset reached. */
    method EndWrite(inum: nat, ghost src: seq<int>, ghost off0: nat, off: nat, ghost extra: nat)
      requires inum < |files| && off0 <= |files[inum]| && off0 <= off && off - off0 + extra <= |src|
      requires Writing(inum, Splice(files[inum], off0, src[..off - off0 + extra]), dinode, files)
      requires inum < |inode| && |files[inum]| == inode[inum].size
      modifies this`inode, this`dinode, this`files, this`logged, this`log, this`view, this`writes
      ensures (old(InLog()) ==> InLog()) && (old(OnDisk()) ==> OnDisk())
      ensures Valid() && |inode| == |old(inode)|
      ensures inode == old(inode)[inum := old(inode)[inum].(size := inode[inum].size)]
      ensures files == old(files)[inum := Seen(old(files)[inum], off0, src, off - off0, extra)]
      ensures old(Kept(inum, Splice(files[inum], off0, src[..off - off0]))) ==>
                LogHolds(old(files)[inum := Splice(old(files)[inum], off0, src[..off - off0])])
      ensures logged == old(logged) + {(inum / IPB + inodestart) as int}
      ensures IndirectOf(inode, inum) == IndirectOf(old(inode), inum)
    {
      hide Owned, MarksOk, Addr, Bytes, HoldingBut, Marked, Space, OnDisk, InLog, LogHolds, Kept, Holding, Writing;
      ghost var c := files[inum];
      ghost var cur := Splice(c, off0, src[..off - off0 + extra]);
      var sz := if off > inode[inum].size then off else inode[inum].size;
      Shorten(inum, cur, sz, dinode);
      Finish(inum, sz, cur[..sz], Splice(c, off0, src[..off - off0]));
    }

    lemma Shorten(inum: nat, cur: seq<int>, n: nat, inode0: seq<Inode>)
      requires Writing(inum, cur, inode0, files) && n <= |cur|
      ensures Writing(inum, cur[..n], inode0, files)
    {
      hide Owned, MarksOk, HoldingBut, Bytes;
      SpaceSized();
      ShorterBytes(inode, data, inum, cur, n);
    }

    /** The log has exactly these files, and the bitmap that goes with them. */
    ghost predicate LogHolds(kept: seq<seq<int>>)
      reads this
    {
      && MarksOk(log.bitmap, size, lo, owner) && |log.data| == size && Owned(dinode, log.data, owner, lo)
      && Holding(dinode, log.data, kept)
    }

    lemma StartWriting(inum: nat)
      requires Valid() && inum < |inode|
      ensures Writing(inum, files[inum], inode, files) && |files[inum]| == inode[inum].size
      ensures |files| == |inode| == |dinode| && dinode == inode
      ensures inode[inum].size <= MAXFILE * BSIZE
    {
    }

    /** The end of writei: the new length, and the inode back to disk. */
    method Finish(inum: nat, sz: nat, ghost cur: seq<int>, ghost kept: seq<int>)
      requires Writing(inum, cur, dinode, files) && sz == |cur|
      modifies this`inode, this`dinode, this`files, this`logged, this`log, this`view, this`writes
      ensures (old(InLog()) ==> InLog()) && (old(OnDisk()) ==> OnDisk())
      ensures Valid() && files == old(files)[inum := cur] && inode == old(inode)[inum := old(inode)[inum].(size := sz)]
      ensures |kept| == sz && old(Kept(inum, kept)) ==> LogHolds(old(files)[inum := kept])
      ensures logged == old(logged) + {(inum / IPB + inodestart) as int}
      ensures IndirectOf(inode, inum) == IndirectOf(old(inode), inum)
    {
      hide Addr, Bytes, MarksOk, Marked, Recorded;
      SpaceSized();
      inode := inode[inum := inode[inum].(size := sz)];
      Resized(old(inode), data, owner, lo, files, inum, cur, inode);
      if |kept| == sz && old(Kept(inum, kept)) {
        Resized(old(inode), log.data, owner, lo, files, inum, kept, inode);
      }
      Iupdate(inum);
      files := files[inum := cur];
      assert dinode == inode;
    }

    /** The loop of writei; `blocks` are the data blocks it logged. */
    method WriteLoop(inum: nat, src: seq<int>, bad: nat, off0: nat)
      returns (off: nat, ghost extra: nat, ghost blocks: set<int>)
      requires inum < |files| && Writing(inum, files[inum], inode, files) && off0 <= |files[inum]|
      requires off0 + |src| <= MAXFILE * BSIZE
      requires forall k :: 0 <= k < |src| ==> 0 <= src[k] < 256
      modifies this`inode, this`data, this`bitmap, this`owner, this`logged, this`log, this`view, this`writes
      ensures (old(InLog()) && extra == 0 ==> InLog()) && (old(OnDisk()) ==> OnDisk())
      ensures off0 <= off && off - off0 + extra <= |src| && off - off0 + extra <= bad
      ensures off < off0 + |src| ==> (Full() && extra == 0) || Faults(off0, |src|, bad, off - off0, extra)
      ensures Writing(inum, Splice(files[inum], off0, src[..off - off0 + extra]), old(inode), files)
      ensures old(InLog()) ==> Kept(inum, Splice(files[inum], off0, src[..off - off0]))
      ensures size <= BPB ==> logged <= old(logged) + blocks + {bmapstart as int} + IndirectOf(inode, inum)
      ensures |blocks| <= Spanned(off0, |src|)
    {
      hide Writing, Splice, Spanned, IndirectOf, Full, Kept, Faults, InLog, OnDisk;
      SpanNone(off0);
      off, blocks, extra := off0, {}, 0;
      SpliceNothing(files[inum], off0);
      if InLog() { KeptNow(inum, files[inum], inode); }
      while off < off0 + |src|
        invariant files == old(files) && WriteLoopOk(inum, src, bad, off0, off, old(inode), old(logged), blocks)
        invariant (old(InLog()) ==> InLog()) && (old(OnDisk()) ==> OnDisk())
        invariant extra == 0 && (old(InLog()) ==> Kept(inum, Splice(files[inum], off0, src[..off - off0])))
        decreases off0 + |src| - off
      {
        var done;
        done, off, extra, blocks := WriteStep(inum, src, bad, off0, off, old(inode), old(logged), blocks);
        if done {
          return;
        }
      }
    }

    /** writei's loop at offset off. */
    ghost predicate WriteLoopOk(inum: nat, src: seq<int>, bad: nat, off0: nat, off: nat, inode0: seq<Inode>,
                                logged0: set<int>, blocks: set<int>)
      reads this
    {
      && off0 <= off <= off0 + |src| <= MAXFILE * BSIZE && inum < |files| && off0 <= |files[inum]| && off - off0 <= bad
      && Writing(inum, Splice(files[inum], off0, src[..off - off0]), inode0, files)
      && (off0 < off < off0 + |src| ==> off % BSIZE == 0)
      && |blocks| <= Spanned(off0, off - off0)
      && (size <= BPB ==> logged <= logged0 + blocks + {bmapstart as int} + IndirectOf(inode, inum))
    }

    /** One round of writei's loop; `done` when there is no block left or the copy fails. */
    method WriteStep(inum: nat, src: seq<int>, bad: nat, off0: nat, off: nat, ghost inode0: seq<Inode>,
                     ghost logged0: set<int>, ghost blocks: set<int>)
      returns (done: bool, off': nat, ghost extra: nat, ghost blocks': set<int>)
      requires WriteLoopOk(inum, src, bad, off0, off, inode0, logged0, blocks) && off < off0 + |src|
      requires forall k :: 0 <= k < |src| ==> 0 <= src[k] < 256
      modifies this`inode, this`data, this`bitmap, this`owner, this`logged, this`log, this`view, this`writes
      ensures (old(InLog()) && extra == 0 ==> InLog()) && (old(OnDisk()) ==> OnDisk())
      ensures !done ==> off < off' && extra == 0 && WriteLoopOk(inum, src, bad, off0, off', inode0, logged0, blocks')
      ensures done ==> off' == off && ((Full() && extra == 0) || Faults(off0, |src|, bad, off - off0, extra))
      ensures done ==> off - off0 + extra <= |src| && off - off0 + extra <= bad
      ensures done ==> Writing(inum, Splice(files[inum], off0, src[..off - off0 + extra]), inode0, files)
      ensures old(InLog()) ==> off0 <= off' <= off0 + |src| && Kept(inum, Splice(files[inum], off0, src[..off' - off0]))
      ensures done ==> |blocks'| <= Spanned(off0, |src|)
      ensures done ==> size <= BPB ==> logged <= logged0 + blocks' + {bmapstart as int} + IndirectOf(inode, inum)
    {
      hide Writing, Splice, Spanned, IndirectOf, Full, ChunkLen, Kept, InLog, OnDisk, Faults;
      var tot := off - off0;
      var m := ChunkLen(off, |src| - tot);
      var whole := tot + m <= bad;
      var got := if whole then m else bad - tot;
      var addr := CopyChunk(inum, src, off0, tot, got, whole, inode0);
      if size <= BPB { LogMore(logged0, old(logged), logged, blocks, addr, bmapstart, old(IndirectOf(inode, inum)),
                               IndirectOf(inode, inum)); }
      SpanMore(off0, tot, m, |src|);
      blocks' := blocks + {addr};
      done, off', extra := addr == 0 || !whole, off, 0;
      if !done {
        off' := off + m;
      } else if addr != 0 {
        extra := got;
        assert Faults(off0, |src|, bad, tot, extra) by { CopyFaults(off0, |src|, bad, tot); }
      }
    }

    /** The round that copies `got` bytes after the first `tot`. */
    method CopyChunk(inum: nat, src: seq<int>, off0: nat, tot: nat, got: nat, whole: bool,
                     ghost inode0: seq<Inode>) returns (addr: int)
      requires inum < |files| && off0 <= |files[inum]| && tot + got <= |src|
      requires Writing(inum, Splice(files[inum], off0, src[..tot]), inode0, files)
      requires (off0 + tot) / BSIZE < MAXFILE && (off0 + tot) % BSIZE + got <= BSIZE
      requires forall k :: 0 <= k < |src| ==> 0 <= src[k] < 256
      modifies this`inode, this`data, this`bitmap, this`owner, this`logged, this`log, this`view, this`writes
      ensures old(OnDisk()) ==> OnDisk()
      ensures old(InLog()) && (whole || addr == 0 || got == 0) ==> InLog()
      ensures old(InLog()) ==>
                Kept(inum, Splice(files[inum], off0, src[..if whole && addr != 0 then tot + got else tot]))
      ensures Writing(inum, Splice(files[inum], off0, src[..if addr == 0 then tot else tot + got]), inode0, files)
      ensures addr == 0 ==> Full()
      ensures size <= BPB ==> logged <= old(logged) + {addr, bmapstart as int} + IndirectOf(inode, inum)
      ensures IndirectOf(old(inode), inum) <= IndirectOf(inode, inum)
    {
      hide Writing, Splice, IndirectOf, Full, Kept, InLog, OnDisk;
      SplicedLength(files[inum], off0, src, tot);
      addr := WriteRound(inum, off0 + tot, src[tot..tot + got], whole, Splice(files[inum], off0, src[..tot]), inode0);
      SpliceSplice(files[inum], off0, src[..tot], src[tot..tot + got]);
      assert src[..tot] + src[tot..tot + got] == src[..tot + got];
    }

    /** readi, of whose destination `bad` bytes can be written: exactly the requested slice of the file, or -1 and as
        much of it as fitted. It changes nothing. */
    method Readi(inum: nat, off0: nat, n0: nat, bad: nat) returns (r: int, bytes: seq<int>)
      requires Valid() && inum < |inode| && off0 < UINT32 && n0 < UINT32
      modifies this`inode, this`data, this`bitmap, this`owner, this`logged, this`log, this`view, this`writes
      ensures (old(InLog()) ==> InLog()) && (old(OnDisk()) ==> OnDisk())
      ensures Valid() && inode == old(inode) && data == old(data) && bitmap == old(bitmap) && logged == old(logged)
      ensures off0 > |files[inum]| || off0 + n0 >= UINT32 ==> r == 0 && bytes == []
      ensures off0 <= |files[inum]| && off0 + n0 < UINT32 ==>
                var n := if off0 + n0 > |files[inum]| then |files[inum]| - off0 else n0;
                && r == (if n <= bad then n else -1)
                && bytes == files[inum][off0..off0 + if n <= bad then n else bad]
    {
      hide Valid, ChunkLen, OnDisk, InLog;
      SizeOf(inum);
      if off0 > inode[inum].size || (off0 + n0) % UINT32 < off0 {
        return 0, [];
      }
      var n := if off0 + n0 > inode[inum].size then inode[inum].size - off0 else n0;
      var tot: nat := 0;
      bytes := [];
      ghost var c := files[inum];
      while tot < n
        invariant Valid() && inode == old(inode) && data == old(data) && bitmap == old(bitmap) && logged == old(logged)
        invariant (old(InLog()) ==> InLog()) && (old(OnDisk()) ==> OnDisk())
        invariant owner == old(owner)
        invariant tot <= n && tot <= bad && off0 + n <= |c| && bytes == c[off0..off0 + tot]
      {
        var m := ChunkLen(off0 + tot, n - tot);
        var chunk := ReadChunk(inum, off0 + tot, m);
        var got := if tot + m > bad then bad - tot else m;
        SliceMore(c, off0, tot, chunk, got);
        bytes := bytes + chunk[..got];
        if got < m {
          return -1, bytes;
        }
        tot := tot + m;
      }
      r := tot;
    }

    /** The bread of a round of readi. */
    method ReadChunk(inum: nat, off: nat, m: nat) returns (chunk: seq<int>)
      requires Valid() && inum < |inode| && inum < |files| && 0 < m && off + m <= |files[inum]| &&
               off % BSIZE + m <= BSIZE
      modifies this`inode, this`data, this`bitmap, this`owner, this`logged, this`log, this`view, this`writes
      ensures (old(InLog()) ==> InLog()) && (old(OnDisk()) ==> OnDisk())
      ensures Valid() && inode == old(inode) && data == old(data) && bitmap == old(bitmap) && logged == old(logged)
      ensures owner == old(owner) && chunk == files[inum][off..off + m]
    {
      hide Space, Bytes, Addr, Holding, Marked, OnDisk, InLog;
      FileBlock(inum, off);
      var addr := Bmap(inum, off / BSIZE);
      FileChunk(inum, off, m, addr);
      chunk := data[addr][off % BSIZE..off % BSIZE + m];
    }

    /** Every block below the end of a file is mapped. */
    lemma FileBlock(inum: nat, off: nat)
      requires Valid() && inum < |inode| && off < |files[inum]|
      ensures Space() && off / BSIZE < MAXFILE && Sized(inode, data)
      ensures Addr(inode, data, FileSlot(inum, off / BSIZE)) != 0
    {
      assert ByteIs(inode, data, inum, off, files[inum][off]);
    }

    lemma FileChunk(inum: nat, off: nat, m: nat, addr: int)
      requires Valid() && inum < |inode| && off + m <= |files[inum]| && off % BSIZE + m <= BSIZE
      requires off / BSIZE < MAXFILE
      requires Sized(inode, data) && addr == Addr(inode, data, FileSlot(inum, off / BSIZE)) && 0 < addr < size
      ensures 0 < addr < |data| && |data[addr]| == BSIZE
      ensures data[addr][off % BSIZE..off % BSIZE + m] == files[inum][off..off + m]
    {
      hide Addr;
      forall k | off <= k < off + m ensures data[addr][off % BSIZE + (k - off)] == files[inum][k] {
        assert ByteIs(inode, data, inum, k, files[inum][k]);
        SameBlock(off, m, k);
      }
    }

    /** The state inside itrunc. */
    ghost predicate Truncating(inum: nat, inode0: seq<Inode>, owner0: Owners)
      reads this
    {
      && Space() && inum < |inode| == |inode0| && HoldingBut(inode, data, files, inum) && LostOnly(owner0, owner, inum)
      && (forall i :: 0 <= i < |inode| && i != inum ==> inode[i] == inode0[i])
      && inode[inum] == inode0[inum].(addrs := inode[inum].addrs)
    }

    /** itrunc's step for one direct block. */
    method FreeDirect(inum: nat, i: nat, ghost inode0: seq<Inode>, ghost owner0: Owners)
      requires Truncating(inum, inode0, owner0) && i < NDIRECT && |inode[inum].addrs| == NDIRECT + 1
      requires inode[inum].addrs[i] != 0
      modifies this`inode, this`bitmap, this`owner, this`logged, this`log, this`view, this`writes
      ensures (old(InLog()) ==> InLog()) && (old(OnDisk()) ==> OnDisk())
      ensures Truncating(inum, inode0, owner0) && inode == SetAddr(old(inode), inum, i, 0)
      ensures size <= BPB ==> logged <= old(logged) + {bmapstart as int}
    {
      hide Addr, Bytes, Marked, HoldingBut, Recorded;
      ReleaseDirect(inode, data, owner, lo, inum, i, SetAddr(inode, inum, i, 0));
      var b := inode[inum].addrs[i];
      Bfree(b);
      MarkFree(old(bitmap), bitmap, size, lo, owner, b);
      owner := owner - {b as int};
      inode := SetAddr(inode, inum, i, 0);
      OthersHold(old(inode), data, inode, files, inum);
    }

    /** itrunc's loop over the entries of the indirect block, then the indirect block itself. */
    method FreeIndirect(inum: nat, ghost inode0: seq<Inode>, ghost owner0: Owners)
      requires Truncating(inum, inode0, owner0) && |inode[inum].addrs| == NDIRECT + 1 && inode[inum].addrs[NDIRECT] != 0
      modifies this`inode, this`bitmap, this`owner, this`logged, this`log, this`view, this`writes
      ensures (old(InLog()) ==> InLog()) && (old(OnDisk()) ==> OnDisk())
      ensures Truncating(inum, inode0, owner0) && inode == SetAddr(old(inode), inum, NDIRECT, 0)
      ensures size <= BPB ==> logged <= old(logged) + {bmapstart as int}
    {
      hide Bytes, Marked, HoldingBut, Addr, OnDisk, InLog, OwnedBut, MarksOk;
      StartEntries(inum);
      var ind := inode[inum].addrs[NDIRECT];
      var j := 0;
      while j < NINDIRECT
        invariant 0 <= j <= NINDIRECT && inode == old(inode) && 0 < lo <= size == |data|
        invariant OwnedBut(inode, data, owner, lo, inum, j) && MarksOk(bitmap, size, lo, owner)
        invariant LostOnly(owner0, owner, inum) && (old(InLog()) ==> InLog()) && (old(OnDisk()) ==> OnDisk())
        invariant size <= BPB ==> logged <= old(logged) + {bmapstart as int}
      {
        FreeEntry(inum, j, ind, owner0);
        j := j + 1;
      }
      DropIndirect(inum, ind, inode0, owner0);
    }

    method DropIndirect(inum: nat, ind: nat, ghost inode0: seq<Inode>, ghost owner0: Owners)
      requires inum < |inode| == |inode0| && |inode[inum].addrs| == NDIRECT + 1 &&
               inode[inum].addrs[NDIRECT] == ind != 0
      requires OwnedBut(inode, data, owner, lo, inum, NINDIRECT) && MarksOk(bitmap, size, lo, owner)
      requires 0 < lo <= size == |data| && LostOnly(owner0, owner, inum) && HoldingBut(inode, data, files, inum)
      requires forall i :: 0 <= i < |inode| && i != inum ==> inode[i] == inode0[i]
      requires inode[inum] == inode0[inum].(addrs := inode[inum].addrs)
      modifies this`inode, this`bitmap, this`owner, this`logged, this`log, this`view, this`writes
      ensures (old(InLog()) ==> InLog()) && (old(OnDisk()) ==> OnDisk())
      ensures Truncating(inum, inode0, owner0) && inode == SetAddr(old(inode), inum, NDIRECT, 0)
      ensures size <= BPB ==> logged <= old(logged) + {bmapstart as int}
    {
      hide Bytes, Marked, HoldingBut, Addr, Recorded;
      ReleaseIndirect(inode, data, owner, lo, inum, SetAddr(inode, inum, NDIRECT, 0));
      Bfree(ind);
      MarkFree(old(bitmap), bitmap, size, lo, owner, ind);
      owner := owner - {ind as int};
      inode := SetAddr(inode, inum, NDIRECT, 0);
      OthersHold(old(inode), data, inode, files, inum);
    }

    lemma StartEntries(inum: nat)
      requires Space() && inum < |inode| && |inode[inum].addrs| == NDIRECT + 1 && inode[inum].addrs[NDIRECT] != 0
      ensures OwnedBut(inode, data, owner, lo, inum, 0) && inode[inum].addrs[NDIRECT] < |data|
    {
      assert Addr(inode, data, Indirect(inum)) == inode[inum].addrs[NDIRECT];
    }

    lemma EntryWord(inum: nat, j: nat, ind: nat)
      requires Sized(inode, data) && inum < |inode| && j < NINDIRECT && inode[inum].addrs[NDIRECT] == ind
      requires 0 < ind < |data|
      ensures Word(data[ind], j) == Addr(inode, data, Entry(inum, j))
    {
    }

    method FreeEntry(inum: nat, j: nat, ind: nat, ghost owner0: Owners)
      requires OwnedBut(inode, data, owner, lo, inum, j) && MarksOk(bitmap, size, lo, owner) && 0 < lo <= size == |data|
      requires inum < |inode| && j < NINDIRECT && |inode[inum].addrs| == NDIRECT + 1
      requires 0 < inode[inum].addrs[NDIRECT] == ind < |data|
      requires LostOnly(owner0, owner, inum)
      modifies this`bitmap, this`owner, this`logged, this`log, this`view, this`writes
      ensures (old(InLog()) ==> InLog()) && (old(OnDisk()) ==> OnDisk())
      ensures OwnedBut(inode, data, owner, lo, inum, j + 1) && MarksOk(bitmap, size, lo, owner)
      ensures LostOnly(owner0, owner, inum) && (size <= BPB ==> logged <= old(logged) + {bmapstart as int})
    {
      hide Addr, Marked, Recorded;
      EntryWord(inum, j, ind);
      ReleaseEntry(inode, data, owner, lo, inum, j);
      var b := Word(data[ind], j);
      if b != 0 {
        Bfree(b);
        MarkFree(old(bitmap), bitmap, size, lo, owner, b);
        owner := owner - {b};
      }
    }

    /** itrunc: the file is empty, its blocks and only its blocks are free again, no other file changed. */
    method Itrunc(inum: nat)
      requires Valid() && inum < |inode|
      modifies this`inode, this`dinode, this`bitmap, this`owner, this`files, this`logged, this`log, this`view,
               this`writes
      ensures (old(InLog()) ==> InLog()) && (old(OnDisk()) ==> OnDisk())
      ensures Valid() && files == old(files)[inum := []] && NoBlocks(inode, inum)
      ensures forall b :: b in owner <==> b in old(owner) && old(owner)[b].inum != inum
      ensures forall i :: 0 <= i < |inode| && i != inum ==> inode[i] == old(inode)[i]
      ensures size <= BPB ==> logged <= old(logged) + {bmapstart as int, (inum / IPB + inodestart) as int}
      ensures |inode| == |old(inode)| && inode[inum] == old(inode)[inum].(size := 0, addrs := inode[inum].addrs)
    {
      hide Addr, Bytes, Marked, HoldingBut, MarksOk, Owned, OnDisk, InLog;
      StartTruncating(inum);
      ghost var inode0, owner0 := inode, owner;
      var i := 0;
      while i < NDIRECT
        invariant 0 <= i <= NDIRECT && Truncating(inum, inode0, owner0) && |inode[inum].addrs| == NDIRECT + 1
        invariant dinode == inode0 && files == old(files) && forall k :: 0 <= k < i ==> inode[inum].addrs[k] == 0
        invariant (old(InLog()) ==> InLog()) && (old(OnDisk()) ==> OnDisk())
        invariant size <= BPB ==> logged <= old(logged) + {bmapstart as int}
      {
        if inode[inum].addrs[i] != 0 {
          FreeDirect(inum, i, inode0, owner0);
        }
        i := i + 1;
      }
      if inode[inum].addrs[NDIRECT] != 0 {
        FreeIndirect(inum, inode0, owner0);
      }
      NothingOwned(inode, data, owner, lo, inum);
      Emptied(inum, owner0);
      Finish(inum, 0, [], []);
    }

    lemma StartTruncating(inum: nat)
      requires Valid() && inum < |inode|
      ensures Truncating(inum, inode, owner) && |inode[inum].addrs| == NDIRECT + 1 && dinode == inode
    {
    }

    lemma Emptied(inum: nat, owner0: Owners)
      requires Truncating(inum, dinode, owner0)
      ensures Writing(inum, [], dinode, files)
    {
    }

    /** iput: dropping the last reference to a file without links empties it, frees its blocks and its inode. */
    method Iput(inum: nat, ref: nat, valid: bool) returns (ref': nat, valid': bool)
      requires Valid() && inum < |inode| && ref >= 1
      modifies this`inode, this`dinode, this`bitmap, this`owner, this`files, this`logged, this`log, this`view,
               this`writes
      ensures (old(InLog()) ==> InLog()) && (old(OnDisk()) ==> OnDisk())
      ensures Valid() && ref' == ref - 1 && |inode| == |old(inode)|
      ensures ref == 1 && valid && old(inode)[inum].nlink == 0 ==>
                && !valid' && NoBlocks(inode, inum) && files == old(files)[inum := []]
                && inode[inum] == old(inode)[inum].(kind := 0, size := 0, addrs := inode[inum].addrs)
                && forall b :: b in owner <==> b in old(owner) && old(owner)[b].inum != inum
      ensures !(ref == 1 && valid && old(inode)[inum].nlink == 0) ==>
                valid' == valid && inode == old(inode) && files == old(files) && owner == old(owner) &&
                    bitmap == old(bitmap)
      ensures size <= BPB ==> logged <= old(logged) + {bmapstart as int, (inum / IPB + inodestart) as int}
      ensures forall i :: 0 <= i < |inode| && i != inum ==> inode[i] == old(inode)[i]
    {
      hide Addr, Bytes, Marked, Owned, MarksOk, HoldingBut, OnDisk, InLog;
      valid' := valid;
      if ref == 1 && valid && inode[inum].nlink == 0 {
        Itrunc(inum);
        SetKind(inum, 0);
        valid' := false;
      }
      ref' := ref - 1;
    }

    /** The inode's type changes and goes to disk; the file stays. */
    method SetKind(inum: nat, kind: nat)
      requires Valid() && inum < |inode|
      modifies this`inode, this`dinode, this`logged, this`log, this`view, this`writes
      ensures (old(InLog()) ==> InLog()) && (old(OnDisk()) ==> OnDisk())
      ensures Valid() && inode == old(inode)[inum := old(inode)[inum].(kind := kind)]
      ensures logged == old(logged) + {(inum / IPB + inodestart) as int}
    {
      hide Addr, Marked, MarksOk, Recorded;
      SameAddrs(inode, data, inode[inum := inode[inum].(kind := kind)]);
      inode := inode[inum := inode[inum].(kind := kind)];
      Iupdate(inum);
      assert dinode == inode;
    }

    /** filewrite on an inode: one writei per transaction of at most 3072 bytes; `bad` bytes of the source can be read.
        `w` bytes are written, and a reader may see `extra` more; `worst` is the largest number of blocks a transaction
        logged. */
    method Filewrite(inum: nat, src: seq<int>, bad: nat, off0: nat)
      returns (ret: int, off: nat, ghost w: nat, ghost extra: nat, ghost worst: nat)
      requires Valid() && inum < |inode| && off0 < UINT32 && |src| < UINT32 / 2
      requires forall k :: 0 <= k < |src| ==> 0 <= src[k] < 256
      modifies this`inode, this`dinode, this`data, this`bitmap, this`owner, this`files, this`logged, this`log,
               this`view,
               this`writes, this`base
      ensures (old(InLog()) && extra == 0 ==> InLog()) && (old(OnDisk()) ==> OnDisk())
      ensures Valid() && w + extra <= |src| && off == off0 + w && ret == (if w == |src| then |src| else -1)
      ensures w + extra == 0 ==> files == old(files)
      ensures w + extra > 0 ==> off0 <= |old(files)[inum]| && w + extra <= bad &&
                                files == old(files)[inum := Seen(old(files)[inum], off0, src, w, extra)]
      ensures w < |src| ==> Full() || off0 > old(inode)[inum].size || off + Chunk(|src| - w) > MAXFILE * BSIZE ||
                            bad < w + Chunk(|src| - w)
      ensures extra > 0 ==> w + extra == bad < |src| && (off0 + bad) % BSIZE != 0
      ensures size <= BPB ==> worst <= 7 < MAXOPBLOCKS
    {
      hide Space, Holding, Full, Splice, Spanned, Recorded, Seen;
      var max := ((MAXOPBLOCKS - 1 - 1 - 2) / 2) * BSIZE;
      var i := 0;
      off, w, extra, worst := off0, 0, 0, 0;
      SizeOf(inum);
      while i < |src|
        invariant 0 <= i == w <= |src| && off == off0 + w && Valid() && |inode| == |old(inode)| && off < UINT32
        invariant (size <= BPB ==> worst <= 7) && Progress(old(files), files, inum, off0, src, w, 0) && w <= bad
        invariant (old(InLog()) ==> InLog()) && (old(OnDisk()) ==> OnDisk()) && extra == 0
      {
        var n1 := |src| - i;
        if n1 > max {
          n1 := max;
        }
        var r;
        r, extra, worst := OneChunk(inum, src, bad, i, n1, off0, worst, old(files));
        if r > 0 {
          off := off + r;
          w := w + r;
        }
        if r != n1 {
          break;
        }
        i := i + r;
      }
      ret := if i == |src| then i else -1;
    }

    lemma SizeOf(inum: nat)
      requires Valid() && inum < |inode|
      ensures |files| == |inode| && |files[inum]| == inode[inum].size
    {
    }

    /** A new transaction. */
    method BeginOp()
      requires Valid()
      modifies this`logged, this`writes, this`base
      ensures (old(InLog()) ==> InLog()) && (old(OnDisk()) ==> OnDisk())
      ensures Valid() && logged == {} && base == view && Now() == old(Now())
    {
      hide Stored, Owned, MarksOk, Holding;
      logged, writes, base := {}, [], view;
      assert Numbers([]) == {};
    }

    /** One transaction of filewrite: begin_op, writei, end_op. */
    method OneChunk(inum: nat, src: seq<int>, bad: nat, i: nat, n1: nat, off0: nat, ghost worst: nat,
                    ghost files0: seq<seq<int>>)
      returns (r: int, ghost extra: nat, ghost worst': nat)
      requires Valid() && inum < |inode| && i + n1 <= |src| && 0 < n1 <= 3072 && off0 + i < UINT32 && i <= bad
      requires Progress(files0, files, inum, off0, src, i, 0) && forall k :: 0 <= k < |src| ==> 0 <= src[k] < 256
      modifies this`inode, this`dinode, this`data, this`bitmap, this`owner, this`files, this`logged, this`log,
               this`view,
               this`writes, this`base
      ensures (old(InLog()) && extra == 0 ==> InLog()) && (old(OnDisk()) ==> OnDisk())
      ensures Valid() && |inode| == |old(inode)| && -1 <= r <= n1 && (r > 0 ==> off0 + i + r < UINT32)
      ensures var w := if r > 0 then i + r else i;
              w + extra <= |src| && w + extra <= bad && Progress(files0, files, inum, off0, src, w, extra)
      ensures r == -1 ==> off0 + i + n1 > MAXFILE * BSIZE || off0 > |files0[inum]|
      ensures 0 <= r < n1 ==> Full() || bad < i + n1
      ensures r == n1 || r == -1 ==> extra == 0
      ensures extra > 0 ==> (if r > 0 then i + r else i) + extra == bad < |src| && (off0 + bad) % BSIZE != 0
      ensures worst <= worst' && (size <= BPB && worst <= 7 ==> worst' <= 7)
    {
      hide Space, Holding, Full, Splice, Spanned, Recorded, Seen, Faults, ChunkLen;
      SizeOf(inum);
      BeginOp();
      ghost var touched;
      r, extra, touched := Writei(inum, src[i..i + n1], bad - i, off0 + i);
      ChunkSpans(off0 + i, n1);
      worst' := if |logged| > worst then |logged| else worst;
      assert size <= BPB ==> |logged| <= 7 by {
        if size <= BPB { SetSize.SubsetSize(logged, touched); }
      }
      ProgressLength(files0, old(files), inum, off0, src, i);
      if r >= 0 {
        ProgressMore(files0, old(files), files, inum, off0, src, i, n1, r, extra);
      }
      if 0 <= r < n1 && Faults(off0 + i, n1, bad - i, r, extra) { FaultsInside(off0 + i, n1, bad - i, r, extra); }
    }

    ghost function Now(): View
      reads this
    {
      View(files, inode, Full())
    }

    /** Over any run of writes, truncations and reference drops the ownership of blocks and the bitmap stay
        consistent, every step has exactly its effect on one file, and its result says what that was. */
    method Run(ops: seq<Op>) returns (results: seq<int>, ghost trace: seq<View>)
      requires Valid() && forall k :: 0 <= k < |ops| ==> OpOk(ops[k], |inode|)
      modifies this`inode, this`dinode, this`data, this`bitmap, this`owner, this`files, this`logged, this`log,
               this`view, this`writes
      ensures old(OnDisk()) ==> OnDisk()
      ensures old(InLog()) && (forall k :: 0 <= k < |ops| ==> OpWhole(ops[k])) ==> InLog()
      ensures Valid() && |results| == |ops| && |trace| == |ops| + 1 && trace[0] == old(Now()) && trace[|ops|] == Now()
      ensures forall k :: 0 <= k < |ops| ==> Effect(ops[k], trace[k], trace[k + 1], results[k])
    {
      hide Space, Holding, Effect;
      results, trace := [], [Now()];
      var i := 0;
      while i < |ops|
        invariant 0 <= i <= |ops| && |results| == i && |trace| == i + 1 && trace[0] == old(Now()) && trace[i] == Now()
        invariant Valid() && |inode| == |old(inode)| && (old(OnDisk()) ==> OnDisk())
        invariant old(InLog()) && (forall k :: 0 <= k < |ops| ==> OpWhole(ops[k])) ==> InLog()
        invariant forall k :: 0 <= k < i ==> Effect(ops[k], trace[k], trace[k + 1], results[k])
      {
        var r := Perform(ops[i]);
        results, trace := results + [r], trace + [Now()];
        i := i + 1;
      }
    }

    /** writei's or iput's result, 0 for itrunc. */
    method Perform(op: Op) returns (r: int)
      requires Valid() && OpOk(op, |inode|)
      modifies this`inode, this`dinode, this`data, this`bitmap, this`owner, this`files, this`logged, this`log,
               this`view,
               this`writes
      ensures (old(InLog()) && OpWhole(op) ==> InLog()) && (old(OnDisk()) ==> OnDisk())
      ensures Valid() && Effect(op, old(Now()), Now(), r) && |inode| == |old(inode)|
      ensures old(InLog()) ==> LogHolds(Durable(op, old(files), files, r))
      ensures OpWhole(op) ==> files == Durable(op, old(files), files, r)
      ensures size <= BPB && old(logged) == {} && OpSmall(op) ==> |logged| <= 7
    {
      hide Valid, InLog, OnDisk, LogHolds, Full;
      SizeOf(op.inum);
      match op {
        case Write(_, _, _, _) =>
          r := PerformWrite(op);
        case Truncate(inum) =>
          Itrunc(inum);
          r := 0;
          if InLog() { LogHoldsNow(); }
        case Put(inum, ref, valid) =>
          var valid';
          r, valid' := Iput(inum, ref, valid);
          if InLog() { LogHoldsNow(); }
      }
      if size <= BPB && old(logged) == {} && !op.Write? {
        SetSize.SubsetSize(logged, {bmapstart as int, (op.inum / IPB + inodestart) as int});
      }
    }

    lemma LogHoldsNow()
      requires Valid() && InLog()
      ensures LogHolds(files)
    {
      hide Owned, MarksOk, Holding;
    }

    method PerformWrite(op: Op) returns (r: int)
      requires Valid() && OpOk(op, |inode|) && op.Write?
      modifies this`inode, this`dinode, this`data, this`bitmap, this`owner, this`files, this`logged, this`log,
               this`view,
               this`writes
      ensures (old(InLog()) && OpWhole(op) ==> InLog()) && (old(OnDisk()) ==> OnDisk())
      ensures Valid() && Effect(op, old(Now()), Now(), r) && |inode| == |old(inode)|
      ensures old(InLog()) ==> LogHolds(Durable(op, old(files), files, r))
      ensures OpWhole(op) ==> files == Durable(op, old(files), files, r)
      ensures size <= BPB && old(logged) == {} && OpSmall(op) ==> |logged| <= 7
    {
      hide Valid, InLog, OnDisk, LogHolds, Full, Splice, Seen, Spanned, Faults;
      SizeOf(op.inum);
      ghost var extra, touched;
      r, extra, touched := Writei(op.inum, op.src, op.bad, op.off);
      if 0 <= r < |op.src| && Faults(op.off, |op.src|, op.bad, r, extra) {
        FaultsInside(op.off, |op.src|, op.bad, r, extra);
      }
      if r >= 0 { SeenWhole(old(files)[op.inum], op.off, op.src, r); }
      if r == -1 && InLog() { LogHoldsNow(); }
      if OpSmall(op) { ChunkSpans(op.off, |op.src|); }
      if size <= BPB && old(logged) == {} { SetSize.SubsetSize(logged, touched); }
    }
  }

  /** min(left, BSIZE - off % BSIZE): how far one round of readi or writei goes. */
  function ChunkLen(off: nat, left: nat): (m: nat)
    requires left > 0
    ensures 0 < m <= left && off % BSIZE + m <= BSIZE && (m < left ==> (off + m) % BSIZE == 0)
  {
    if left < BSIZE - off % BSIZE then left else BSIZE - off % BSIZE
  }

  /** Of n bytes at off, the copy of the chunk after the first r fails, after `extra` bytes of it. */
  predicate Faults(off: nat, n: nat, bad: nat, r: nat, extra: nat) {
    r < n && r <= bad < r + ChunkLen(off + r, n - r) && extra == bad - r
  }

  /** No copy of n bytes to off fails part way through a block. */
  predicate Whole(off: nat, n: nat, bad: nat) {
    bad >= n || bad == 0 || (off + bad) % BSIZE == 0
  }

  lemma CopyFaults(off: nat, n: nat, bad: nat, r: nat)
    requires r < n && r <= bad < r + ChunkLen(off + r, n - r)
    ensures Faults(off, n, bad, r, bad - r)
  {
  }

  /** A copy that stops with some bytes done stops inside a block. */
  lemma FaultsInside(off: nat, n: nat, bad: nat, r: nat, extra: nat)
    requires Faults(off, n, bad, r, extra)
    ensures r + extra == bad < n && (extra > 0 ==> (off + bad) % BSIZE != 0)
  {
    BlockOf(off + r);
    BlockOf(off + bad);
  }

  lemma SliceMore(c: seq<int>, off: nat, n: nat, chunk: seq<int>, m: nat)
    requires m <= |chunk| && off + n + |chunk| <= |c| && chunk == c[off + n..off + n + |chunk|]
    ensures c[off..off + n] + chunk[..m] == c[off..off + n + m]
  {
  }

  lemma SplicedLength(c: seq<int>, off: nat, src: seq<int>, n: nat)
    requires off <= |c| && n <= |src|
    ensures off + n <= |Splice(c, off, src[..n])|
  {
  }

  /** off + n < off in 32-bit arithmetic. */
  predicate Wraps(off: nat, n: nat): (r: bool)
    requires off < UINT32 && n < UINT32
    ensures r <==> off + n >= UINT32
  {
    (off + n) % UINT32 < off
  }

  /** The number of blocks that n bytes at off lie in. */
  function Spanned(off: nat, n: nat): nat {
    if n == 0 then 0 else (off + n - 1) / BSIZE - off / BSIZE + 1
  }

  lemma SpanNone(off: nat)
    ensures Spanned(off, 0) == 0
  {
  }

  lemma LogMore(l0: set<int>, l1: set<int>, l2: set<int>, blocks: set<int>, addr: int, bm: int, i1: set<int>,
                i2: set<int>)
    requires l1 <= l0 + blocks + {bm} + i1 && l2 <= l1 + {addr, bm} + i2 && i1 <= i2
    ensures l2 <= l0 + (blocks + {addr}) + {bm} + i2
  {
  }

  lemma TouchedSize(blocks: set<int>, a: int, ind: set<int>, b: int, n: nat)
    requires |blocks| <= n && |ind| <= 1
    ensures |blocks + {a} + ind + {b}| <= n + 3
  {
  }

  lemma BlockOf(x: nat)
    ensures x == x / BSIZE * BSIZE + x % BSIZE && 0 <= x % BSIZE < BSIZE
  {
  }

  lemma SpanMore(off0: nat, tot: nat, m: nat, n: nat)
    requires 0 < m && tot + m <= n && (off0 + tot) % BSIZE + m <= BSIZE && (tot > 0 ==> (off0 + tot) % BSIZE == 0)
    ensures Spanned(off0, tot) + 1 <= Spanned(off0, tot + m) <= Spanned(off0, n)
    ensures tot + m < n && m == BSIZE - (off0 + tot) % BSIZE ==> (off0 + tot + m) % BSIZE == 0
  {
    BlockOf(off0);
    BlockOf(off0 + tot);
    BlockOf(off0 + tot + m);
    BlockOf(off0 + tot + m - 1);
    BlockOf(off0 + n - 1);
    if tot > 0 { BlockOf(off0 + tot - 1); }
  }

  ghost function IndirectOf(inode: seq<Inode>, inum: nat): (s: set<int>)
    ensures |s| <= 1
  {
    if inum < |inode| && |inode[inum].addrs| == NDIRECT + 1 && inode[inum].addrs[NDIRECT] != 0
    then {inode[inum].addrs[NDIRECT] as int} else {}
  }

  lemma BitAt(b: nat, bi: nat)
    requires b % BPB == 0 && bi < BPB
    ensures BitBlock(b + bi) == b / BPB && BitByte(b + bi) == bi / 8 && BitNumber(b + bi) == bi % 8
  {
    assert (b + bi) / BPB == b / BPB && (b + bi) % BPB == bi;
  }

  /** The first w bytes of src have been written at off0, and a reader sees `extra` more. */
  ghost predicate Progress(files0: seq<seq<int>>, files: seq<seq<int>>, inum: nat, off0: nat, src: seq<int>, w: nat,
                           extra: nat) {
    && w + extra <= |src| && inum < |files0| && |files| == |files0|
    && (w + extra == 0 ==> files == files0)
    && (w + extra > 0 ==>
          off0 <= |files0[inum]| && files == files0[inum := Seen(files0[inum], off0, src, w, extra)])
  }

  lemma SeenWhole(c: seq<int>, off: nat, src: seq<int>, r: nat)
    requires off <= |c| && r <= |src|
    ensures Seen(c, off, src, r, 0) == Splice(c, off, src[..r])
  {
  }

  lemma ProgressLength(files0: seq<seq<int>>, files: seq<seq<int>>, inum: nat, off0: nat, src: seq<int>, w: nat)
    requires Progress(files0, files, inum, off0, src, w, 0)
    ensures off0 + w <= |files[inum]| || (w == 0 && off0 > |files0[inum]|)
  {
  }

  lemma ProgressMore(files0: seq<seq<int>>, files: seq<seq<int>>, files': seq<seq<int>>, inum: nat, off0: nat,
                     src: seq<int>, w: nat, n: nat, r: nat, extra: nat)
    requires Progress(files0, files, inum, off0, src, w, 0) && r + extra <= n && w + n <= |src|
    requires off0 + w <= |files[inum]|
    requires files' == files[inum := Seen(files[inum], off0 + w, src[w..w + n], r, extra)]
    ensures Progress(files0, files', inum, off0, src, w + r, extra)
  {
    var c := files0[inum];
    assert src[w..w + n][..r + extra] == src[w..w + r + extra] &&
        src[..w] + src[w..w + r + extra] == src[..w + r + extra];
    SpliceNothing(c, off0);
    assert src[..0] == [];
    SeenWhole(c, off0, src, w);
    SpliceSplice(c, off0, src[..w], src[w..w + r + extra]);
    assert files' == files0[inum := Seen(c, off0, src, w + r, extra)];
  }

  /** The size of filewrite's next transaction when n bytes are left. */
  function Chunk(n: nat): nat {
    if n > 3072 then 3072 else n
  }

  /** At any offset, 3072 bytes lie in at most four blocks. */
  lemma ChunkSpans(off: nat, n: nat)
    requires n <= 3072
    ensures Spanned(off, n) <= 4
  {
  }

  datatype Op =
    | Write(inum: nat, src: seq<int>, bad: nat, off: nat)
    | Truncate(inum: nat)
    | Put(inum: nat, ref: nat, valid: bool)

  ghost predicate OpOk(op: Op, n: nat) {
    && op.inum < n
    && (op.Write? ==> op.off < UINT32 && |op.src| < UINT32 && forall k :: 0 <= k < |op.src| ==> 0 <= op.src[k] < 256)
    && (op.Put? ==> op.ref >= 1)
  }

  /** No copy of the operation fails part way through a block. */
  predicate OpWhole(op: Op) {
    op.Write? ==> Whole(op.off, |op.src|, op.bad)
  }

  /** A write is no longer than one transaction of filewrite. */
  predicate OpSmall(op: Op) {
    op.Write? ==> |op.src| <= 3072
  }

  /** The files as the log has them after an operation: without what a failing copy left in the cache. */
  function Durable(op: Op, files: seq<seq<int>>, files': seq<seq<int>>, r: int): seq<seq<int>> {
    if op.Write? && 0 <= r <= |op.src| && op.inum < |files| && op.off <= |files[op.inum]|
    then files[op.inum := Splice(files[op.inum], op.off, op.src[..r])] else files'
  }

  /** What an operation can see: the files, the inodes, and whether every block is in use. */
  datatype View = View(files: seq<seq<int>>, inode: seq<Inode>, full: bool)

  /** The copy after the first r bytes of a write failed inside a block and left bytes there. */
  ghost predicate Leaves(op: Op, v: View, v': View, r: nat)
    requires op.Write? && op.inum < |v.files| && op.off <= |v.files[op.inum]|
  {
    && r < op.bad < |op.src| && (op.off + op.bad) % BSIZE != 0
    && v'.files == v.files[op.inum := Seen(v.files[op.inum], op.off, op.src, r, op.bad - r)]
  }

  /** A write is refused for its range alone, and otherwise changes exactly as many bytes as it returns, or shows as
      many more as a failing copy left; it falls short only if the disk is full after it or the copy fails. A
      truncation empties the file. Dropping a reference empties the
      file, and gives up its inode, exactly when it was the last one to a file without links. No operation changes any
      other file or inode, or another field of this one. */
  ghost predicate Effect(op: Op, v: View, v': View, r: int) {
    && op.inum < |v.files| == |v.inode| == |v'.inode|
    && (var a, b := v.inode[op.inum], v'.inode[op.inum];
        b == a.(kind := if op.Put? && op.ref == 1 && op.valid && a.nlink == 0 then 0 else a.kind, size := b.size,
                addrs := b.addrs))
    && (forall i :: 0 <= i < |v.inode| && i != op.inum ==> v'.inode[i] == v.inode[i])
    && match op {
         case Write(inum, src, bad, off) =>
           && (r == -1 <==> off > |v.files[inum]| || off + |src| >= UINT32 || off + |src| > MAXFILE * BSIZE)
           && (r == -1 ==> v'.files == v.files)
           && (r != -1 ==> 0 <= r <= |src|)
           && (r != -1 ==> v'.files == v.files[inum := Splice(v.files[inum], off, src[..r])] || Leaves(op, v, v', r))
           && (0 <= r < |src| ==> v'.full || (r <= bad && Faults(off, |src|, bad, r, bad - r)))
         case Truncate(inum) => v'.files == v.files[inum := []]
         case Put(inum, ref, valid) =>
           && r == ref - 1
           && if ref == 1 && valid && v.inode[inum].nlink == 0
              then v'.files == v.files[inum := []]
              else v'.files == v.files && v'.inode == v.inode
       }
  }
}
