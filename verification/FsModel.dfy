/** Blocks, block maps and block ownership of the file system (kernel/fs.c, kernel/fs.h), on values.

    Every block address an inode can hold has a name, a slot: a direct address, the address of the
    indirect block, or an entry of the indirect block. The ghost map `owner` names, for each block in use,
    the one slot that holds it. */
module FsModel {
  import opened Blocks

  const NDIRECT: nat := 12
  const NINDIRECT: nat := BLOCKWORDS
  const MAXFILE: nat := NDIRECT + NINDIRECT

  // ---------- inodes and slots ----------

  /** The on-disk part of an inode; addrs[NDIRECT] is the indirect block. */
  datatype Inode = Inode(kind: nat, major: nat, minor: nat, nlink: nat, size: nat, addrs: seq<nat>)

  datatype Slot =
    | Direct(inum: nat, i: nat)
    | Indirect(inum: nat)
    | Entry(inum: nat, j: nat)

  ghost predicate ValidSlot(s: Slot, n: nat) {
    match s
    case Direct(inum, i) => inum < n && i < NDIRECT
    case Indirect(inum) => inum < n
    case Entry(inum, j) => inum < n && j < NINDIRECT
  }

  ghost predicate Sized(inode: seq<Inode>, data: seq<Block>) {
    && (forall i :: 0 <= i < |inode| ==> |inode[i].addrs| == NDIRECT + 1)
    && (forall b :: 0 <= b < |data| ==> BlockOk(data[b]))
    && |data| < UINT32
  }

  /** The block address in a slot, 0 when there is none. */
  ghost function Addr(inode: seq<Inode>, data: seq<Block>, s: Slot): int
    requires Sized(inode, data) && ValidSlot(s, |inode|)
  {
    match s
    case Direct(inum, i) => inode[inum].addrs[i]
    case Indirect(inum) => inode[inum].addrs[NDIRECT]
    case Entry(inum, j) =>
      var ind := inode[inum].addrs[NDIRECT];
      if ind == 0 || ind >= |data| then 0 else Word(data[ind], j)
  }

  type Owners = map<int, Slot>

  /** No block is in two slots, and `owner` records exactly the blocks that are in one. */
  ghost predicate Owned(inode: seq<Inode>, data: seq<Block>, owner: Owners, lo: nat) {
    && Sized(inode, data)
    && (forall s :: ValidSlot(s, |inode|) && Addr(inode, data, s) != 0 ==>
          Addr(inode, data, s) in owner && owner[Addr(inode, data, s)] == s)
    && (forall b :: b in owner ==> lo <= b < |data| && ValidSlot(owner[b], |inode|) && Addr(inode, data, owner[b]) == b)
  }

  // ---------- single changes ----------

  function SetAddr(inode: seq<Inode>, inum: nat, i: nat, b: nat): (r: seq<Inode>)
    requires inum < |inode| && i < |inode[inum].addrs|
    ensures |r| == |inode|
  {
    var addrs: seq<nat> := inode[inum].addrs[i := b];
    inode[inum := inode[inum].(addrs := addrs)]
  }

  /** A fresh zeroed block put into an empty direct or indirect slot. Zeroing is what makes every entry of a
      reused indirect block empty. */
  lemma AddressBlock(inode: seq<Inode>, data: seq<Block>, owner: Owners, lo: nat, inum: nat, i: nat, b: nat,
                     inode': seq<Inode>, data': seq<Block>)
    requires Owned(inode, data, owner, lo) && 0 < lo && inum < |inode| && i <= NDIRECT && inode[inum].addrs[i] == 0
    requires lo <= b < |data| && b !in owner
    requires inode' == SetAddr(inode, inum, i, b) && data' == data[b := ZeroBlock()]
    ensures var s := if i < NDIRECT then Direct(inum, i) else Indirect(inum);
            && Owned(inode', data', owner[b := s], lo)
            && (forall t :: ValidSlot(t, |inode|) && t != s ==> Addr(inode', data', t) == Addr(inode, data, t))
            && Addr(inode', data', s) == b
  {
    var s := if i < NDIRECT then Direct(inum, i) else Indirect(inum);
    forall t | ValidSlot(t, |inode|) && t != s ensures Addr(inode', data', t) == Addr(inode, data, t) {
      if t.Entry? {
        var ind := inode[t.inum].addrs[NDIRECT];
        assert Addr(inode, data, Indirect(t.inum)) == ind;
        if ind != 0 { assert ind in owner; }
        else if t.inum == inum && i == NDIRECT { assert Word(data'[b], t.j) == 0; }
      }
    }
  }

  /** A fresh block put into an empty entry of an indirect block. */
  lemma EnterBlock(inode: seq<Inode>, data: seq<Block>, owner: Owners, lo: nat, inum: nat, j: nat, b: nat,
                   data': seq<Block>)
    requires Owned(inode, data, owner, lo) && 0 < lo && inum < |inode| && j < NINDIRECT
    requires inode[inum].addrs[NDIRECT] != 0 && Addr(inode, data, Entry(inum, j)) == 0
    requires lo <= b < |data| && b !in owner && inode[inum].addrs[NDIRECT] < |data|
    requires var ind := inode[inum].addrs[NDIRECT];
             data' == data[b := ZeroBlock()][ind := PutWord(data[b := ZeroBlock()][ind], j, b)]
    ensures Owned(inode, data', owner[b := Entry(inum, j)], lo)
    ensures forall t :: ValidSlot(t, |inode|) && t != Entry(inum, j) ==> Addr(inode, data', t) == Addr(inode, data, t)
    ensures Addr(inode, data', Entry(inum, j)) == b
  {
    var ind := inode[inum].addrs[NDIRECT];
    assert Addr(inode, data, Indirect(inum)) == ind;
    assert ind in owner && ind != b && data[b := ZeroBlock()][ind] == data[ind];
    forall k | 0 <= k < NINDIRECT
      ensures BlockOk(data'[ind]) && Word(data'[ind], k) == if k == j then b else Word(data[ind], k)
    {
      PutWordGets(data[ind], j, b, k);
    }
    forall c | 0 <= c < |data'| ensures BlockOk(data'[c]) { PutWordGets(data[ind], j, b, 0); }
    forall t | ValidSlot(t, |inode|) && t != Entry(inum, j) ensures Addr(inode, data', t) == Addr(inode, data, t) {
      if t.Entry? {
        var ind2 := inode[t.inum].addrs[NDIRECT];
        assert Addr(inode, data, Indirect(t.inum)) == ind2;
        if ind2 != 0 { assert ind2 in owner && owner[ind2] == Indirect(t.inum); }
      }
    }
  }

  /** Writing file data changes no block address. */
  lemma WriteData(inode: seq<Inode>, data: seq<Block>, owner: Owners, lo: nat, b: nat, w: Block)
    requires Owned(inode, data, owner, lo) && b in owner && !owner[b].Indirect? && BlockOk(w)
    ensures Owned(inode, data[b := w], owner, lo)
    ensures forall t :: ValidSlot(t, |inode|) ==> Addr(inode, data[b := w], t) == Addr(inode, data, t)
  {
    var data' := data[b := w];
    forall t | ValidSlot(t, |inode|) ensures Addr(inode, data', t) == Addr(inode, data, t) {
      if t.Entry? {
        var ind := inode[t.inum].addrs[NDIRECT];
        assert Addr(inode, data, Indirect(t.inum)) == ind;
        if ind != 0 { assert ind in owner && owner[ind] == Indirect(t.inum); }
      }
    }
  }

  // ---------- freeing ----------

  /** Owned, except that the first k entries of inum's indirect block may name blocks already freed. */
  ghost predicate OwnedBut(inode: seq<Inode>, data: seq<Block>, owner: Owners, lo: nat, inum: nat, k: nat) {
    && Sized(inode, data)
    && (forall s :: ValidSlot(s, |inode|) && Addr(inode, data, s) != 0 && !(s.Entry? && s.inum == inum && s.j < k) ==>
          Addr(inode, data, s) in owner && owner[Addr(inode, data, s)] == s)
    && (forall b :: b in owner ==> lo <= b < |data| && ValidSlot(owner[b], |inode|) && Addr(inode, data, owner[b]) == b)
    && (forall b :: b in owner && owner[b].Entry? && owner[b].inum == inum ==> owner[b].j >= k)
  }

  /** Clearing a direct address whose block was freed. */
  lemma ReleaseDirect(inode: seq<Inode>, data: seq<Block>, owner: Owners, lo: nat, inum: nat, i: nat,
                      inode': seq<Inode>)
    requires Owned(inode, data, owner, lo) && 0 < lo && inum < |inode| && i < NDIRECT && inode[inum].addrs[i] != 0
    requires inode' == SetAddr(inode, inum, i, 0)
    ensures inode[inum].addrs[i] in owner && owner[inode[inum].addrs[i]] == Direct(inum, i)
    ensures Owned(inode', data, owner - {inode[inum].addrs[i]}, lo)
    ensures forall t :: ValidSlot(t, |inode|) ==>
                          Addr(inode', data, t) == if t == Direct(inum, i) then 0 else Addr(inode, data, t)
  {
    assert Addr(inode, data, Direct(inum, i)) == inode[inum].addrs[i];
    forall t | ValidSlot(t, |inode|)
      ensures Addr(inode', data, t) == if t == Direct(inum, i) then 0 else Addr(inode, data, t)
    {
    }
  }

  /** Freeing the block of entry k, which stays in the indirect block. */
  lemma ReleaseEntry(inode: seq<Inode>, data: seq<Block>, owner: Owners, lo: nat, inum: nat, k: nat)
    requires OwnedBut(inode, data, owner, lo, inum, k) && 0 < lo && inum < |inode| && k < NINDIRECT
    ensures var b := Addr(inode, data, Entry(inum, k));
            && (b != 0 ==> b in owner && owner[b] == Entry(inum, k))
            && OwnedBut(inode, data, if b == 0 then owner else owner - {b}, lo, inum, k + 1)
  {
    var b := Addr(inode, data, Entry(inum, k));
    var owner' := if b == 0 then owner else owner - {b};
    forall c | c in owner' && owner'[c].Entry? && owner'[c].inum == inum ensures owner'[c].j >= k + 1 {
      assert owner'[c].j == k ==> c == b;
    }
  }

  /** Dropping the indirect block after all its entries were freed. */
  lemma ReleaseIndirect(inode: seq<Inode>, data: seq<Block>, owner: Owners, lo: nat, inum: nat, inode': seq<Inode>)
    requires OwnedBut(inode, data, owner, lo, inum, NINDIRECT) && 0 < lo && inum < |inode|
    requires inode[inum].addrs[NDIRECT] != 0 && inode' == SetAddr(inode, inum, NDIRECT, 0)
    ensures inode[inum].addrs[NDIRECT] in owner && owner[inode[inum].addrs[NDIRECT]] == Indirect(inum)
    ensures Owned(inode', data, owner - {inode[inum].addrs[NDIRECT]}, lo)
    ensures forall t :: ValidSlot(t, |inode|) ==>
              Addr(inode', data, t) == if t.inum == inum && !t.Direct? then 0 else Addr(inode, data, t)
  {
    var ind := inode[inum].addrs[NDIRECT];
    assert Addr(inode, data, Indirect(inum)) == ind;
    forall t | ValidSlot(t, |inode|)
      ensures Addr(inode', data, t) == if t.inum == inum && !t.Direct? then 0 else Addr(inode, data, t)
    {
    }
  }

  // ---------- files as byte sequences ----------

  /** The slot of block bn of a file. */
  function FileSlot(inum: nat, bn: nat): Slot {
    if bn < NDIRECT then Direct(inum, bn) else Entry(inum, bn - NDIRECT)
  }

  /** The first |c| bytes of file i are c, and every block they lie in is mapped. */
  ghost predicate Bytes(inode: seq<Inode>, data: seq<Block>, i: nat, c: seq<int>)
    requires Sized(inode, data) && i < |inode|
  {
    |c| <= MAXFILE * BSIZE &&
    forall k :: 0 <= k < |c| ==> ByteIs(inode, data, i, k, c[k])
  }

  ghost predicate ByteIs(inode: seq<Inode>, data: seq<Block>, i: nat, k: nat, x: int)
    requires Sized(inode, data) && i < |inode|
  {
    && k / BSIZE < MAXFILE
    && 0 < Addr(inode, data, FileSlot(i, k / BSIZE)) < |data|
    && data[Addr(inode, data, FileSlot(i, k / BSIZE))][k % BSIZE] == x
  }

  /** c with w written at off, growing as needed. */
  function Splice(c: seq<int>, off: nat, w: seq<int>): (r: seq<int>)
    requires off <= |c|
    ensures |r| == if off + |w| <= |c| then |c| else off + |w|
    ensures forall k :: 0 <= k < |r| ==> r[k] == if off <= k < off + |w| then w[k - off] else c[k]
  {
    c[..off] + w + (if off + |w| <= |c| then c[off + |w|..] else [])
  }

  lemma SpliceSplice(c: seq<int>, off: nat, a: seq<int>, b: seq<int>)
    requires off <= |c|
    ensures Splice(Splice(c, off, a), off + |a|, b) == Splice(c, off, a + b)
  {
  }

  lemma SpliceNothing(c: seq<int>, off: nat)
    requires off <= |c|
    ensures Splice(c, off, []) == c
  {
  }

  /** What a reader sees of c after a write of r bytes at off whose next copy left `extra` bytes in the cache: the file
      is as long as the r bytes make it, but the extra bytes show where it was that long already. */
  function Seen(c: seq<int>, off: nat, src: seq<int>, r: nat, extra: nat): (s: seq<int>)
    requires off <= |c| && r + extra <= |src|
    ensures |s| == if off + r <= |c| then |c| else off + r
  {
    Splice(c, off, src[..r + extra])[..if off + r <= |c| then |c| else off + r]
  }

  /** A reader sees just the r bytes exactly when the extra ones lie beyond the end of the file or change nothing. */
  lemma SeenIsReturned(c: seq<int>, off: nat, src: seq<int>, r: nat, extra: nat)
    requires off <= |c| && r + extra <= |src|
    ensures Seen(c, off, src, r, extra) == Splice(c, off, src[..r]) <==>
            forall k :: r <= k < r + extra && off + k < |c| ==> src[k] == c[off + k]
  {
    var a, b := Seen(c, off, src, r, extra), Splice(c, off, src[..r]);
    if a == b {
      forall k | r <= k < r + extra && off + k < |c| ensures src[k] == c[off + k] {
        assert a[off + k] == src[k] && b[off + k] == c[off + k];
      }
    }
  }

  /** A block with bytes w written at offset o. */
  function Overlay(b: Block, o: nat, w: seq<int>): (r: Block)
    requires |b| == BSIZE && o + |w| <= BSIZE
    ensures |r| == BSIZE
    ensures forall k :: 0 <= k < BSIZE ==> r[k] == if o <= k < o + |w| then w[k - o] else b[k]
  {
    b[..o] + w + b[o + |w|..]
  }

  /** Filling part of one block writes exactly those bytes of that file and none of any other. */
  lemma WriteBytes(inode: seq<Inode>, data: seq<Block>, owner: Owners, lo: nat, inum: nat, c: seq<int>, off: nat,
                   w: seq<int>,
                   b: nat, data': seq<Block>)
    requires Owned(inode, data, owner, lo) && 0 < lo && inum < |inode| && Bytes(inode, data, inum, c)
    requires off <= |c| && off / BSIZE < MAXFILE && off % BSIZE + |w| <= BSIZE
    requires forall k :: 0 <= k < |w| ==> 0 <= w[k] < 256
    requires b == Addr(inode, data, FileSlot(inum, off / BSIZE)) && b != 0
    requires b < |data| && data' == data[b := Overlay(data[b], off % BSIZE, w)]
    ensures Owned(inode, data', owner, lo)
    ensures Bytes(inode, data', inum, Splice(c, off, w))
    ensures forall i, d :: 0 <= i < |inode| && i != inum && Bytes(inode, data, i, d) ==> Bytes(inode, data', i, d)
  {
    assert b in owner && owner[b] == FileSlot(inum, off / BSIZE);
    WriteData(inode, data, owner, lo, b, Overlay(data[b], off % BSIZE, w));
    var r := Splice(c, off, w);
    forall k | 0 <= k < |r| ensures ByteIs(inode, data', inum, k, r[k]) {
      SameBlock(off, |w|, k);
      if k < |c| { assert ByteIs(inode, data, inum, k, c[k]); }
      if k / BSIZE != off / BSIZE { OtherBlock(inode, data, owner, lo, inum, off / BSIZE, inum, k / BSIZE); }
    }
    forall i, d | 0 <= i < |inode| && i != inum && Bytes(inode, data, i, d) ensures Bytes(inode, data', i, d) {
      forall k | 0 <= k < |d| ensures ByteIs(inode, data', i, k, d[k]) {
        assert ByteIs(inode, data, i, k, d[k]);
        OtherBlock(inode, data, owner, lo, inum, off / BSIZE, i, k / BSIZE);
      }
    }
  }

  lemma SameBlock(off: nat, n: nat, k: nat)
    requires off % BSIZE + n <= BSIZE
    ensures off <= k < off + n ==> k / BSIZE == off / BSIZE && k % BSIZE == off % BSIZE + (k - off)
    ensures k / BSIZE == off / BSIZE && !(off <= k < off + n) ==> !(off % BSIZE <= k % BSIZE < off % BSIZE + n)
  {
  }

  lemma ShorterBytes(inode: seq<Inode>, data: seq<Block>, i: nat, c: seq<int>, n: nat)
    requires Sized(inode, data) && i < |inode| && Bytes(inode, data, i, c) && n <= |c|
    ensures Bytes(inode, data, i, c[..n])
  {
    hide ByteIs;
  }

  lemma OtherBlock(inode: seq<Inode>, data: seq<Block>, owner: Owners, lo: nat, i: nat, bn: nat, j: nat, bm: nat)
    requires Owned(inode, data, owner, lo) && i < |inode| && j < |inode| && bn < MAXFILE && bm < MAXFILE
    requires (i != j || bn != bm)
    requires Addr(inode, data, FileSlot(i, bn)) != 0
    ensures Addr(inode, data, FileSlot(j, bm)) != Addr(inode, data, FileSlot(i, bn))
  {
  }

  /** files[i] is the whole contents of file i, for every inode. */
  ghost predicate Holding(inode: seq<Inode>, data: seq<Block>, files: seq<seq<int>>) {
    && Sized(inode, data) && |files| == |inode|
    && (forall i :: 0 <= i < |files| ==> |files[i]| == inode[i].size)
    && (forall i :: 0 <= i < |files| ==> Bytes(inode, data, i, files[i]))
  }

  /** What bmap may change: it fills the slot of block bn of file inum, and if need be the indirect slot. */
  ghost predicate Mapped(inode: seq<Inode>, data: seq<Block>, owner: Owners, inode': seq<Inode>, data': seq<Block>,
                         owner': Owners,
                         inum: nat, bn: nat) {
    && Sized(inode, data) && Sized(inode', data') && |inode'| == |inode| && |data'| == |data| && inum < |inode| &&
       bn < MAXFILE
    && (forall i :: 0 <= i < |inode| ==>
                      inode'[i] == inode[i].(addrs := inode'[i].addrs) && (i != inum ==> inode'[i] == inode[i]))
    && (forall t :: ValidSlot(t, |inode|) &&
                    (Addr(inode, data, t) != 0 || (t != FileSlot(inum, bn) && t != Indirect(inum)))
          ==> Addr(inode', data', t) == Addr(inode, data, t))
    && (forall b :: b in owner ==> b in owner' && owner'[b] == owner[b])
    && (forall b :: b in owner && 0 <= b < |data| && !owner[b].Indirect? ==> data'[b] == data[b])
  }

  lemma MappedRefl(inode: seq<Inode>, data: seq<Block>, owner: Owners, inum: nat, bn: nat)
    requires Sized(inode, data) && inum < |inode| && bn < MAXFILE
    ensures Mapped(inode, data, owner, inode, data, owner, inum, bn)
  {
  }

  lemma MappedTrans(i0: seq<Inode>, d0: seq<Block>, o0: Owners, i1: seq<Inode>, d1: seq<Block>, o1: Owners,
                    i2: seq<Inode>, d2: seq<Block>, o2: Owners, inum: nat, bn: nat)
    requires Mapped(i0, d0, o0, i1, d1, o1, inum, bn) && Mapped(i1, d1, o1, i2, d2, o2, inum, bn)
    ensures Mapped(i0, d0, o0, i2, d2, o2, inum, bn)
  {
    hide Addr;
  }

  /** Mapping another block loses no byte of any file. */
  lemma MappedKeepsBytes(inode: seq<Inode>, data: seq<Block>, owner: Owners, lo: nat, inode': seq<Inode>,
                         data': seq<Block>, owner': Owners,
                         inum: nat, bn: nat, i: nat, c: seq<int>)
    requires Mapped(inode, data, owner, inode', data', owner', inum, bn) && Owned(inode, data, owner, lo)
    requires i < |inode| && Bytes(inode, data, i, c)
    ensures Bytes(inode', data', i, c)
  {
    hide Addr;
    forall k | 0 <= k < |c| ensures ByteIs(inode', data', i, k, c[k]) {
      assert ByteIs(inode, data, i, k, c[k]);
      assert ValidSlot(FileSlot(i, k / BSIZE), |inode|);
    }
  }

  lemma AddressIsMapped(inode: seq<Inode>, data: seq<Block>, owner: Owners, lo: nat, inum: nat, i: nat, b: nat,
                        inode': seq<Inode>, data': seq<Block>, bn: nat)
    requires Owned(inode, data, owner, lo) && 0 < lo && inum < |inode| && i <= NDIRECT && inode[inum].addrs[i] == 0
    requires lo <= b < |data| && b !in owner && bn < MAXFILE && (i == bn || i == NDIRECT)
    requires inode' == SetAddr(inode, inum, i, b) && data' == data[b := ZeroBlock()]
    ensures var s := if i < NDIRECT then Direct(inum, i) else Indirect(inum);
            Owned(inode', data', owner[b := s], lo) &&
                Mapped(inode, data, owner, inode', data', owner[b := s], inum, bn)
  {
    AddressBlock(inode, data, owner, lo, inum, i, b, inode', data');
    hide Addr;
  }

  lemma EntryIsMapped(inode: seq<Inode>, data: seq<Block>, owner: Owners, lo: nat, inum: nat, j: nat, b: nat,
                      data': seq<Block>)
    requires Owned(inode, data, owner, lo) && 0 < lo && inum < |inode| && j < NINDIRECT
    requires inode[inum].addrs[NDIRECT] != 0 && Addr(inode, data, Entry(inum, j)) == 0
    requires lo <= b < |data| && b !in owner && inode[inum].addrs[NDIRECT] < |data|
    requires var ind := inode[inum].addrs[NDIRECT];
             data' == data[b := ZeroBlock()][ind := PutWord(data[b := ZeroBlock()][ind], j, b)]
    ensures Owned(inode, data', owner[b := Entry(inum, j)], lo)
    ensures Mapped(inode, data, owner, inode, data', owner[b := Entry(inum, j)], inum, NDIRECT + j)
    ensures Addr(inode, data', Entry(inum, j)) == b && data'[b] == ZeroBlock()
  {
    EnterBlock(inode, data, owner, lo, inum, j, b, data');
    assert Addr(inode, data, Indirect(inum)) == inode[inum].addrs[NDIRECT];
    hide Addr;
  }

  /** Holding for every file but one. */
  ghost predicate HoldingBut(inode: seq<Inode>, data: seq<Block>, files: seq<seq<int>>, inum: nat) {
    && Sized(inode, data) && |files| == |inode|
    && (forall i :: 0 <= i < |files| && i != inum ==> |files[i]| == inode[i].size && Bytes(inode, data, i, files[i]))
  }

  lemma MappedKeepsFiles(inode: seq<Inode>, data: seq<Block>, owner: Owners, lo: nat, inode': seq<Inode>,
                         data': seq<Block>, owner': Owners,
                         inum: nat, bn: nat, files: seq<seq<int>>, c: seq<int>)
    requires Mapped(inode, data, owner, inode', data', owner', inum, bn) && Owned(inode, data, owner, lo)
    requires HoldingBut(inode, data, files, inum) && Bytes(inode, data, inum, c)
    ensures HoldingBut(inode', data', files, inum) && Bytes(inode', data', inum, c)
    ensures forall i :: 0 <= i < |inode| && i != inum ==> inode'[i] == inode[i]
    ensures inode'[inum] == inode[inum].(addrs := inode'[inum].addrs) && |inode'| == |inode|
    ensures Addr(inode, data, Indirect(inum)) != 0 ==> inode'[inum].addrs[NDIRECT] == inode[inum].addrs[NDIRECT]
  {
    hide Bytes;
    MappedKeepsBytes(inode, data, owner, lo, inode', data', owner', inum, bn, inum, c);
    forall i | 0 <= i < |files| && i != inum ensures Bytes(inode', data', i, files[i]) {
      MappedKeepsBytes(inode, data, owner, lo, inode', data', owner', inum, bn, i, files[i]);
    }
    assert Addr(inode', data', Indirect(inum)) == inode'[inum].addrs[NDIRECT];
  }

  /** Setting the length of a file to the bytes that were written. */
  lemma Resized(inode: seq<Inode>, data: seq<Block>, owner: Owners, lo: nat, files: seq<seq<int>>, inum: nat,
                c: seq<int>, inode': seq<Inode>)
    requires Owned(inode, data, owner, lo) && HoldingBut(inode, data, files, inum) && inum < |inode|
    requires Bytes(inode, data, inum, c)
    requires |inode'| == |inode| && inode' == inode[inum := inode[inum].(size := |c|, kind := inode'[inum].kind)]
    ensures Owned(inode', data, owner, lo) && Holding(inode', data, files[inum := c])
  {
    SameAddrs(inode, data, inode');
    var files' := files[inum := c];
    forall i | 0 <= i < |files'| ensures Bytes(inode', data, i, files'[i]) {
      assert Bytes(inode, data, i, files'[i]);
      forall k | 0 <= k < |files'[i]| ensures ByteIs(inode', data, i, k, files'[i][k]) {
        assert ByteIs(inode, data, i, k, files'[i][k]);
      }
    }
  }

  lemma SameAddrs(inode: seq<Inode>, data: seq<Block>, inode': seq<Inode>)
    requires Sized(inode, data) && |inode'| == |inode|
    requires forall i :: 0 <= i < |inode| ==> inode'[i].addrs == inode[i].addrs
    ensures Sized(inode', data)
    ensures forall t :: ValidSlot(t, |inode|) ==> Addr(inode', data, t) == Addr(inode, data, t)
  {
  }

  /** Other files do not notice changes to the addresses of file inum. */
  lemma OthersHold(inode: seq<Inode>, data: seq<Block>, inode': seq<Inode>, files: seq<seq<int>>, inum: nat)
    requires HoldingBut(inode, data, files, inum) && Sized(inode', data) && |inode'| == |inode|
    requires forall i :: 0 <= i < |inode| && i != inum ==> inode'[i] == inode[i]
    ensures HoldingBut(inode', data, files, inum)
  {
    forall i | 0 <= i < |files| && i != inum ensures Bytes(inode', data, i, files[i]) {
      forall k | 0 <= k < |files[i]| ensures ByteIs(inode', data, i, k, files[i][k]) {
        assert ByteIs(inode, data, i, k, files[i][k]);
      }
    }
  }

  /** owner' lost only blocks of file inum. */
  ghost predicate LostOnly(owner: Owners, owner': Owners, inum: nat) {
    && (forall b :: b in owner' ==> b in owner && owner'[b] == owner[b])
    && (forall b :: b in owner && owner[b].inum != inum ==> b in owner')
  }

  ghost predicate NoBlocks(inode: seq<Inode>, inum: nat) {
    inum < |inode| && |inode[inum].addrs| == NDIRECT + 1 && forall i :: 0 <= i <= NDIRECT ==> inode[inum].addrs[i] == 0
  }

  lemma NothingOwned(inode: seq<Inode>, data: seq<Block>, owner: Owners, lo: nat, inum: nat)
    requires Owned(inode, data, owner, lo) && 0 < lo && NoBlocks(inode, inum)
    ensures forall b :: b in owner ==> owner[b].inum != inum
  {
  }
}
