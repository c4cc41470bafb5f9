/** Where the file system lies on the disk, and what a disk holds of it (kernel/fs.h, mkfs/mkfs.c).

    The disk as the log has it follows the file system one log_write at a time: each of the three kinds of log_write,
    of a data block, of a bitmap block and of an inode block, changes what is stored exactly at one place. */
module DiskImage {
  import opened Blocks
  import opened CrashRecovery
  import opened FsModel

  const INODEWORDS: nat := 16           // sizeof(struct dinode) / 4
  const IPB: nat := BLOCKWORDS / INODEWORDS

  type Bitmap = seq<seq<bv8>>

  /** The bitmap blocks and the other blocks. */
  datatype Image = Image(bitmap: Bitmap, data: seq<Block>)

  /** Where mkfs puts things: log, inodes, bitmap, data, in this order. */
  datatype Layout = Layout(start: nat, inodestart: nat, ninodes: nat, bmapstart: nat, lo: nat, size: nat)

  ghost predicate LayoutOk(y: Layout) {
    y.start + LOGBLOCKS < y.inodestart && y.inodestart + y.ninodes / IPB < y.bmapstart <= y.lo <= y.size
  }

  /** An image of the file system: the inodes on disk and the other blocks. */
  datatype Contents = Contents(inode: seq<Inode>, blocks: Image)

  // ---------- struct dinode ----------

  function Short(x: nat): nat {
    x % 0x1_0000
  }

  /** Four shorts, then the size and the addresses. */
  function InodeWords(n: Inode): (ws: seq<nat>)
    ensures |ws| == 3 + |n.addrs| && WordsOk(ws)
  {
    [Short(n.kind) + 0x1_0000 * Short(n.major), Short(n.minor) + 0x1_0000 * Short(n.nlink), n.size % UINT32] +
    seq(|n.addrs|, i requires 0 <= i < |n.addrs| => n.addrs[i] % UINT32)
  }

  /** IBLOCK */
  function InodeBlock(inodestart: nat, i: nat): nat {
    i / IPB + inodestart
  }

  function InodeOffset(i: nat): (r: nat)
    ensures r + INODEWORDS <= BLOCKWORDS
  {
    i % IPB * INODEWORDS
  }

  /** The little-endian numbers of two and of four bytes at byte o. */
  function Half(b: Block, o: nat): int
    requires o + 2 <= |b|
  {
    b[o] + 0x100 * b[o + 1]
  }

  function Long(b: Block, o: nat): int
    requires o + 4 <= |b|
  {
    b[o] + 0x100 * b[o + 1] + 0x1_0000 * b[o + 2] + 0x100_0000 * b[o + 3]
  }

  /** The 64 bytes of inode i in its block are n: type, major, minor and nlink at 0, 2, 4 and 6, the size at 8, the
      addresses from 12 on. */
  ghost predicate InodeThere(b: Block, i: nat, n: Inode) {
    && BlockOk(b) && |n.addrs| == NDIRECT + 1
    && var o := i % 16 * 64;
       && Half(b, o) == Short(n.kind) && Half(b, o + 2) == Short(n.major)
       && Half(b, o + 4) == Short(n.minor) && Half(b, o + 6) == Short(n.nlink)
       && Long(b, o + 8) == n.size % UINT32
       && forall k :: 0 <= k <= NDIRECT ==> Long(b, o + 12 + 4 * k) == n.addrs[k] % UINT32
  }

  /** iupdate's change to the inode block. */
  function PutInode(b: Block, i: nat, n: Inode): Block {
    if |b| == BSIZE && |n.addrs| == NDIRECT + 1 then PutWords(b, InodeOffset(i), InodeWords(n), INODEWORDS) else b
  }

  /** A word of two shorts, the first one first. */
  lemma TwoHalves(b: Block, j: nat, lo: nat, hi: nat)
    requires BlockOk(b) && j < BLOCKWORDS && lo < 0x1_0000 && Word(b, j) == lo + 0x1_0000 * hi
    ensures Half(b, 4 * j) == lo && Half(b, 4 * j + 2) == hi
  {
  }

  lemma WordIsLong(b: Block, j: nat)
    requires BlockOk(b) && j < BLOCKWORDS
    ensures Long(b, 4 * j) == Word(b, j)
  {
  }

  /** What the words of a block say about the inode in it. */
  lemma WordsAreInode(b: Block, i: nat, n: Inode)
    requires BlockOk(b) && |n.addrs| == NDIRECT + 1
    requires forall k :: 0 <= k < INODEWORDS ==> Word(b, InodeOffset(i) + k) == InodeWords(n)[k]
    ensures InodeThere(b, i, n)
  {
    hide Word, Half, Long;
    var w := InodeOffset(i);
    assert 4 * w == i % 16 * 64;
    assert Word(b, w + 0) == InodeWords(n)[0] && Word(b, w + 1) == InodeWords(n)[1] &&
        Word(b, w + 2) == InodeWords(n)[2];
    TwoHalves(b, w, Short(n.kind), Short(n.major));
    TwoHalves(b, w + 1, Short(n.minor), Short(n.nlink));
    WordIsLong(b, w + 2);
    forall k | 0 <= k <= NDIRECT ensures Long(b, i % 16 * 64 + 12 + 4 * k) == n.addrs[k] % UINT32 {
      assert Word(b, w + (3 + k)) == InodeWords(n)[3 + k];
      WordIsLong(b, w + (3 + k));
    }
  }

  /** The bytes of inode j depend on the words of inode j. */
  lemma SameWordsSameInode(a: Block, b: Block, j: nat, m: Inode)
    requires InodeThere(a, j, m) && BlockOk(b)
    requires forall w :: InodeOffset(j) <= w < InodeOffset(j) + INODEWORDS ==> Word(b, w) == Word(a, w)
    ensures InodeThere(b, j, m)
  {
    var o := j % 16 * 64;
    forall t | o <= t < o + 64 ensures b[t] == a[t] {
      var k := (t - o) / 4;
      assert Word(b, InodeOffset(j) + k) == Word(a, InodeOffset(j) + k);
      SameBytes(a, b, InodeOffset(j) + k);
      assert t == 4 * (InodeOffset(j) + k) + (t - o) % 4;
    }
  }

  lemma SameBytes(a: Block, b: Block, j: nat)
    requires BlockOk(a) && BlockOk(b) && j < BLOCKWORDS && Word(a, j) == Word(b, j)
    ensures forall t :: 4 * j <= t < 4 * j + 4 ==> a[t] == b[t]
  {
    assert a[4 * j] == b[4 * j] && a[4 * j + 1] == b[4 * j + 1] && a[4 * j + 2] == b[4 * j + 2]
        && a[4 * j + 3] == b[4 * j + 3];
  }

  lemma PutInodeGets(b: Block, i: nat, n: Inode, j: nat, m: Inode)
    requires BlockOk(b) && |n.addrs| == NDIRECT + 1
    ensures i % IPB == j % IPB ==> InodeThere(PutInode(b, i, n), j, n)
    ensures i % IPB != j % IPB && InodeThere(b, j, m) ==> InodeThere(PutInode(b, i, n), j, m)
  {
    hide InodeWords, Word, PutWords, InodeThere;
    var r := PutInode(b, i, n);
    forall k | 0 <= k < BLOCKWORDS
      ensures Word(r, k) ==
              if InodeOffset(i) <= k < InodeOffset(i) + INODEWORDS
                  then InodeWords(n)[k - InodeOffset(i)] else Word(b, k)
    {
      PutWordsGets(b, InodeOffset(i), InodeWords(n), INODEWORDS, k);
    }
    PutWordsGets(b, InodeOffset(i), InodeWords(n), INODEWORDS, 0);
    if i % IPB == j % IPB {
      WordsAreInode(r, j, n);
    } else if InodeThere(b, j, m) {
      SameWordsSameInode(b, r, j, m);
    }
  }

  // ---------- the disk holds the image ----------

  function Bits(x: seq<bv8>): seq<int> {
    seq(|x|, i requires 0 <= i < |x| => x[i] as int)
  }

  /** A block of the free map, byte by byte. */
  ghost predicate BitsThere(b: Block, x: seq<bv8>) {
    |b| == |x| && forall i :: 0 <= i < |x| ==> b[i] == x[i] as int
  }

  ghost predicate InodeStored(y: Layout, d: DiskState, i: nat, n: Inode) {
    InodeBlock(y.inodestart, i) < |d| && InodeThere(d[InodeBlock(y.inodestart, i)], i, n)
  }

  ghost predicate Stored(y: Layout, d: DiskState, c: Contents) {
    && |c.inode| == y.ninodes && |c.blocks.data| == y.size <= |d|
    && (forall b :: y.lo <= b < y.size ==> d[b] == c.blocks.data[b])
    && y.bmapstart + |c.blocks.bitmap| <= y.lo <= y.size
    && (forall b :: y.bmapstart <= b < y.bmapstart + |c.blocks.bitmap| ==>
                      BitsThere(d[b], c.blocks.bitmap[b - y.bmapstart]))
    && (forall i :: 0 <= i < y.ninodes ==> InodeStored(y, d, i, c.inode[i]))
  }

  // ---------- one log_write at a time ----------

  /** log_write of a data block. */
  lemma DataLogged(y: Layout, d: DiskState, c: Contents, b: nat, w: Block)
    requires LayoutOk(y) && Stored(y, d, c) && y.lo <= b < y.size
    ensures Stored(y, d[b := w], c.(blocks := c.blocks.(data := c.blocks.data[b := w])))
  {
    hide InodeThere, InodeBlock;
    OtherInodes(y, d, b, w, c.inode);
  }

  lemma OtherInodes(y: Layout, d: DiskState, b: nat, w: Block, inode: seq<Inode>)
    requires LayoutOk(y) && y.bmapstart <= b < |d| && |inode| == y.ninodes
    requires forall i :: 0 <= i < y.ninodes ==> InodeStored(y, d, i, inode[i])
    ensures forall i :: 0 <= i < y.ninodes ==> InodeStored(y, d[b := w], i, inode[i])
  {
    hide InodeThere;
    forall i | 0 <= i < y.ninodes ensures InodeStored(y, d[b := w], i, inode[i]) {
      InodeBlockBelow(y, i);
    }
  }

  lemma InodeBlockBelow(y: Layout, i: nat)
    requires LayoutOk(y) && i < y.ninodes
    ensures y.start + LOGBLOCKS < InodeBlock(y.inodestart, i) < y.bmapstart
  {
  }

  /** log_write of a bitmap block. */
  lemma BitsLogged(y: Layout, d: DiskState, c: Contents, k: nat, x: seq<bv8>)
    requires LayoutOk(y) && Stored(y, d, c) && k < |c.blocks.bitmap|
    ensures Stored(y, d[y.bmapstart + k := Bits(x)], c.(blocks := c.blocks.(bitmap := c.blocks.bitmap[k := x])))
  {
    hide InodeThere, InodeBlock;
    OtherInodes(y, d, y.bmapstart + k, Bits(x), c.inode);
    assert BitsThere(Bits(x), x);
  }

  /** iupdate's log_write. */
  lemma InodeLogged(y: Layout, d: DiskState, c: Contents, i: nat, n: Inode)
    requires LayoutOk(y) && Stored(y, d, c) && i < y.ninodes && |n.addrs| == NDIRECT + 1
    ensures InodeStored(y, d, i, c.inode[i])
    ensures var b := InodeBlock(y.inodestart, i);
            Stored(y, d[b := PutInode(d[b], i, n)], c.(inode := c.inode[i := n]))
  {
    hide InodeThere, BitsThere, PutInode, InodeBlock;
    var b := InodeBlock(y.inodestart, i);
    InodeBlockBelow(y, i);
    assert InodeStored(y, d, i, c.inode[i]);
    assert BlockOk(d[b]) by { InodeBlockOk(d[b], i, c.inode[i]); }
    var d', inode' := d[b := PutInode(d[b], i, n)], c.inode[i := n];
    forall j | 0 <= j < y.ninodes ensures InodeStored(y, d', j, inode'[j]) {
      assert InodeStored(y, d, j, c.inode[j]);
      PutInodeGets(d[b], i, n, j, c.inode[j]);
      SameSlot(y.inodestart, i, j);
    }
  }

  lemma InodeBlockOk(b: Block, i: nat, n: Inode)
    requires InodeThere(b, i, n)
    ensures BlockOk(b)
  {
  }

  lemma SameSlot(inodestart: nat, i: nat, j: nat)
    ensures InodeBlock(inodestart, i) == InodeBlock(inodestart, j) && i % IPB == j % IPB <==> i == j
  {
  }

  // ---------- the log_writes of a transaction ----------

  type Writes = seq<(nat, Block)>

  function PutBlock(d: DiskState, k: nat, w: Block): (r: DiskState)
    ensures |r| == |d|
  {
    if k < |d| then d[k := w] else d
  }

  function BlockAt(d: DiskState, k: nat): Block {
    if k < |d| then d[k] else []
  }

  /** The disk after the writes, in order. */
  function Applied(d: DiskState, writes: Writes): (r: DiskState)
    ensures |r| == |d|
  {
    if writes == [] then d
    else PutBlock(Applied(d, writes[..|writes| - 1]), writes[|writes| - 1].0, writes[|writes| - 1].1)
  }

  lemma AppliedMore(d: DiskState, writes: Writes, k: nat, w: Block)
    ensures Applied(d, writes + [(k, w)]) == PutBlock(Applied(d, writes), k, w)
  {
    assert (writes + [(k, w)])[..|writes|] == writes;
  }

  ghost function Numbers(writes: Writes): set<int> {
    set i | 0 <= i < |writes| :: writes[i].0
  }

  lemma NumbersMore(writes: Writes, k: nat, w: Block)
    ensures Numbers(writes + [(k, w)]) == Numbers(writes) + {k}
  {
    var more := writes + [(k, w)];
    assert forall i :: 0 <= i < |writes| ==> more[i].0 == writes[i].0;
    assert more[|writes|].0 == k;
  }

  /** Every write is to a block outside the log. */
  ghost predicate AtHome(writes: Writes, y: Layout, n: nat) {
    forall i :: 0 <= i < |writes| ==> writes[i].0 < n && Home(writes[i].0, y.start)
  }

  /** The view of the disk that the log has after the writes of the current transaction, and what it holds. */
  ghost predicate Recorded(y: Layout, base: DiskState, view: DiskState, writes: Writes, logged: set<int>, c: Contents) {
    && LayoutOk(y) && Stored(y, view, c) && view == Applied(base, writes)
    && logged == Numbers(writes) && AtHome(writes, y, |view|)
  }

  /** One more log_write, of a block outside the log. */
  lemma RecordOne(y: Layout, base: DiskState, view: DiskState, writes: Writes, logged: set<int>, c: Contents,
                  c': Contents, b: nat, w: Block)
    requires Recorded(y, base, view, writes, logged, c) && b < |view| && Home(b, y.start)
    requires Stored(y, view[b := w], c')
    ensures Recorded(y, base, PutBlock(view, b, w), writes + [(b, w)], logged + {b as int}, c')
  {
    hide Stored, Applied, Numbers;
    AppliedMore(base, writes, b, w);
    NumbersMore(writes, b, w);
  }

  lemma RecordData(y: Layout, base: DiskState, view: DiskState, writes: Writes, logged: set<int>, c: Contents, b: nat,
                   w: Block)
    requires Recorded(y, base, view, writes, logged, c) && y.lo <= b < y.size
    ensures Recorded(y, base, PutBlock(view, b, w), writes + [(b, w)], logged + {b as int},
                     c.(blocks := c.blocks.(data := c.blocks.data[b := w])))
  {
    hide InodeStored, Bits, Applied, Numbers;
    DataLogged(y, view, c, b, w);
    RecordOne(y, base, view, writes, logged, c, c.(blocks := c.blocks.(data := c.blocks.data[b := w])), b, w);
  }

  lemma RecordBits(y: Layout, base: DiskState, view: DiskState, writes: Writes, logged: set<int>, c: Contents, k: nat,
                   x: seq<bv8>)
    requires Recorded(y, base, view, writes, logged, c) && k < |c.blocks.bitmap|
    ensures var b := k + y.bmapstart;
            Recorded(y, base, PutBlock(view, b, Bits(x)), writes + [(b, Bits(x))], logged + {b as int},
                     c.(blocks := c.blocks.(bitmap := c.blocks.bitmap[k := x])))
  {
    hide Bits, Applied, Numbers, Stored;
    BitsLogged(y, view, c, k, x);
    BitmapInside(y, view, c);
    RecordOne(y, base, view, writes, logged, c, c.(blocks := c.blocks.(bitmap := c.blocks.bitmap[k := x])),
              k + y.bmapstart, Bits(x));
  }

  lemma BitmapInside(y: Layout, d: DiskState, c: Contents)
    requires Stored(y, d, c)
    ensures y.bmapstart + |c.blocks.bitmap| <= y.lo <= y.size <= |d|
  {
  }

  lemma RecordSizes(y: Layout, base: DiskState, view: DiskState, writes: Writes, logged: set<int>, c: Contents)
    requires Recorded(y, base, view, writes, logged, c)
    ensures |c.blocks.data| == y.size <= |view| && |c.inode| == y.ninodes
  {
  }

  lemma RecordInode(y: Layout, base: DiskState, view: DiskState, writes: Writes, logged: set<int>, c: Contents, i: nat,
                    n: Inode)
    requires Recorded(y, base, view, writes, logged, c) && i < y.ninodes && |n.addrs| == NDIRECT + 1
    ensures |c.inode| == y.ninodes
    ensures var b := InodeBlock(y.inodestart, i);
            var w := PutInode(BlockAt(view, b), i, n);
            Recorded(y, base, PutBlock(view, b, w), writes + [(b, w)], logged + {b as int},
                     c.(inode := c.inode[i := n]))
  {
    hide InodeThere, Bits, PutInode, Applied, Numbers;
    var b := InodeBlock(y.inodestart, i);
    InodeLogged(y, view, c, i, n);
    InodeBlockBelow(y, i);
    RecordOne(y, base, view, writes, logged, c, c.(inode := c.inode[i := n]), b, PutInode(BlockAt(view, b), i, n));
  }
}
