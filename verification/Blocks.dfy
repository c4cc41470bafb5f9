/** Disk blocks: 1024 bytes, and the little-endian 32-bit words in them (kernel/fs.h). */
module Blocks {

  const BSIZE: nat := 1024
  const BLOCKWORDS: nat := BSIZE / 4
  const UINT32: nat := 0x1_0000_0000

  type Block = seq<int>
  type DiskState = seq<Block>

  ghost predicate BlockOk(b: Block) {
    |b| == BSIZE && forall k :: 0 <= k < BSIZE ==> 0 <= b[k] < 256
  }

  function ZeroBlock(): (b: Block)
    ensures BlockOk(b) && forall k :: 0 <= k < BSIZE ==> b[k] == 0
  {
    seq(BSIZE, _ => 0)
  }

  /** The j-th word. */
  function Word(b: Block, j: nat): int
    requires |b| == BSIZE && j < BLOCKWORDS
  {
    b[4 * j] + 0x100 * b[4 * j + 1] + 0x1_0000 * b[4 * j + 2] + 0x100_0000 * b[4 * j + 3]
  }

  lemma WordRange(b: Block, j: nat)
    requires BlockOk(b) && j < BLOCKWORDS
    ensures 0 <= Word(b, j) < UINT32
  {
  }

  function PutWord(b: Block, j: nat, v: nat): (r: Block)
    requires |b| == BSIZE && j < BLOCKWORDS && v < UINT32
    ensures |r| == BSIZE
  {
    b[4 * j := v % 0x100][4 * j + 1 := v / 0x100 % 0x100]
     [4 * j + 2 := v / 0x1_0000 % 0x100][4 * j + 3 := v / 0x100_0000]
  }

  lemma WordBytes(v: nat)
    requires v < UINT32
    ensures v == v % 0x100 + 0x100 * (v / 0x100 % 0x100) + 0x1_0000 * (v / 0x1_0000 % 0x100)
                 + 0x100_0000 * (v / 0x100_0000)
    ensures v / 0x100_0000 < 0x100
  {
    assert v / 0x1_0000 == v / 0x100 / 0x100;
    assert v / 0x100_0000 == v / 0x1_0000 / 0x100;
  }

  lemma PutWordGets(b: Block, j: nat, v: nat, k: nat)
    requires BlockOk(b) && j < BLOCKWORDS && k < BLOCKWORDS && v < UINT32
    ensures BlockOk(PutWord(b, j, v))
    ensures Word(PutWord(b, j, v), k) == if k == j then v else Word(b, k)
  {
    WordBytes(v);
  }

  ghost predicate WordsOk(ws: seq<nat>) {
    forall i :: 0 <= i < |ws| ==> ws[i] < UINT32
  }

  /** The first t of the words ws stored at word `at` onwards. */
  function PutWords(b: Block, at: nat, ws: seq<nat>, t: nat): (r: Block)
    requires |b| == BSIZE && at + |ws| <= BLOCKWORDS && t <= |ws| && WordsOk(ws)
    ensures |r| == BSIZE
  {
    if t == 0 then b else PutWord(PutWords(b, at, ws, t - 1), at + t - 1, ws[t - 1])
  }

  lemma {:induction false} PutWordsGets(b: Block, at: nat, ws: seq<nat>, t: nat, k: nat)
    requires BlockOk(b) && at + |ws| <= BLOCKWORDS && t <= |ws| && k < BLOCKWORDS && WordsOk(ws)
    ensures BlockOk(PutWords(b, at, ws, t))
    ensures Word(PutWords(b, at, ws, t), k) == if at <= k < at + t then ws[k - at] else Word(b, k)
  {
    hide Word, PutWord;
    if t > 0 {
      PutWordsGets(b, at, ws, t - 1, k);
      PutWordGets(PutWords(b, at, ws, t - 1), at + t - 1, ws[t - 1], k);
    }
  }
}
