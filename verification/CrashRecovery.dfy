/** What a disk with a redo log means after a crash (kernel/log.c).

    `Recovered(d)` is the disk that install_trans would produce from `d`. The lemmas show that it
    does not change while a recovery is under way, so that recovery may crash and start over any
    number of times. */
module CrashRecovery {
  import opened Blocks

  const LOGBLOCKS: nat := 30

  ghost predicate Distinct(bs: seq<nat>) {
    forall i, j :: 0 <= i < j < |bs| ==> bs[i] != bs[j]
  }

  /** Outside the log region: header at `start`, log blocks at start + 1 .. start + LOGBLOCKS. */
  predicate Home(k: nat, start: nat) {
    k < start || k > start + LOGBLOCKS
  }

  // ---------- the header block ----------

  ghost predicate HeadOk(b: Block) {
    BlockOk(b) && Word(b, 0) <= LOGBLOCKS
  }

  ghost function Decode(b: Block): seq<nat>
    requires HeadOk(b)
  {
    seq(Word(b, 0), i requires 0 <= i < Word(b, 0) => Word(b, i + 1))
  }

  /** The header block after write_head stores n and the first n entries into `b`. */
  ghost function Encode(b: Block, bs: seq<nat>): (r: Block)
    requires BlockOk(b) && |bs| <= LOGBLOCKS && WordsOk(bs)
    ensures |r| == BSIZE
  {
    PutWords(PutWord(b, 0, |bs|), 1, bs, |bs|)
  }

  lemma HeaderRoundTrip(b: Block, bs: seq<nat>)
    requires BlockOk(b) && |bs| <= LOGBLOCKS && WordsOk(bs)
    ensures HeadOk(Encode(b, bs)) && Decode(Encode(b, bs)) == bs
  {
    hide Word, PutWord;
    HeadWord(b, bs, 0);
    forall k | 0 < k <= |bs| ensures Word(Encode(b, bs), k) == bs[k - 1] { HeadWord(b, bs, k); }
  }

  lemma HeadWord(b: Block, bs: seq<nat>, k: nat)
    requires BlockOk(b) && |bs| <= LOGBLOCKS && WordsOk(bs) && k < BLOCKWORDS
    ensures BlockOk(Encode(b, bs))
    ensures Word(Encode(b, bs), k) == if k == 0 then |bs| else if k <= |bs| then bs[k - 1] else Word(b, k)
  {
    hide Word, PutWord;
    PutWordGets(b, 0, |bs|, k);
    PutWordsGets(PutWord(b, 0, |bs|), 1, bs, |bs|, k);
  }

  // ---------- the meaning of a disk ----------

  ghost predicate GoodLog(d: DiskState, start: nat) {
    && start + LOGBLOCKS < |d| <= UINT32
    && HeadOk(d[start])
    && GoodBlocks(Decode(d[start]), |d|, start)
  }

  ghost predicate GoodBlocks(bs: seq<nat>, size: nat, start: nat) {
    |bs| <= LOGBLOCKS && Distinct(bs) && forall i :: 0 <= i < |bs| ==> bs[i] < size && Home(bs[i], start)
  }

  /** The disk after the first t logged blocks have been copied home. */
  ghost function Installed(d: DiskState, start: nat, bs: seq<nat>, t: nat): (r: DiskState)
    requires |d| > start + LOGBLOCKS && GoodBlocks(bs, |d|, start) && t <= |bs|
    ensures |r| == |d|
  {
    if t == 0 then d else Installed(d, start, bs, t - 1)[bs[t - 1] := d[start + t]]
  }

  ghost function Recovered(d: DiskState, start: nat): (r: DiskState)
    requires GoodLog(d, start)
    ensures |r| == |d|
  {
    Installed(d, start, Decode(d[start]), |Decode(d[start])|)
  }

  ghost predicate SameHome(a: DiskState, b: DiskState, start: nat) {
    |a| == |b| && forall k :: 0 <= k < |a| && Home(k, start) ==> a[k] == b[k]
  }

  lemma {:induction false} InstalledAt(d: DiskState, start: nat, bs: seq<nat>, t: nat)
    requires |d| > start + LOGBLOCKS && GoodBlocks(bs, |d|, start) && t <= |bs|
    ensures forall j :: 0 <= j < t ==> Installed(d, start, bs, t)[bs[j]] == d[start + 1 + j]
    ensures forall k :: 0 <= k < |d| && k !in bs[..t] ==> Installed(d, start, bs, t)[k] == d[k]
  {
    if t > 0 {
      InstalledAt(d, start, bs, t - 1);
      assert bs[..t] == bs[..t - 1] + [bs[t - 1]];
    }
  }

  /** Installing touches no log block. */
  lemma LogUntouched(d: DiskState, start: nat, bs: seq<nat>, t: nat)
    requires |d| > start + LOGBLOCKS && GoodBlocks(bs, |d|, start) && t <= |bs|
    ensures forall k :: start <= k <= start + LOGBLOCKS ==> Installed(d, start, bs, t)[k] == d[k]
  {
    InstalledAt(d, start, bs, t);
  }

  /** Two good disks with the same header and log blocks that agree on every home block not yet to
      be installed recover to the same home blocks. */
  lemma RecoversAlike(d: DiskState, e: DiskState, start: nat)
    requires GoodLog(d, start) && GoodLog(e, start) && |d| == |e|
    requires Decode(d[start]) == Decode(e[start])
    requires forall k :: start < k <= start + |Decode(d[start])| ==> d[k] == e[k]
    requires forall k :: 0 <= k < |d| && Home(k, start) && k !in Decode(d[start]) ==> d[k] == e[k]
    ensures SameHome(Recovered(d, start), Recovered(e, start), start)
  {
    var bs := Decode(d[start]);
    InstalledAt(d, start, bs, |bs|);
    InstalledAt(e, start, bs, |bs|);
    assert bs[..|bs|] == bs;
    forall k | 0 <= k < |d| && Home(k, start) ensures Recovered(d, start)[k] == Recovered(e, start)[k] {
      if k in bs {
        var j :| 0 <= j < |bs| && bs[j] == k;
        assert d[start + 1 + j] == e[start + 1 + j];
      }
    }
  }

  /** Stopping an installation half-way loses nothing. */
  lemma PartialInstallRecovers(d: DiskState, start: nat, t: nat)
    requires GoodLog(d, start) && t <= |Decode(d[start])|
    ensures GoodLog(Installed(d, start, Decode(d[start]), t), start)
    ensures SameHome(Recovered(Installed(d, start, Decode(d[start]), t), start), Recovered(d, start), start)
  {
    var bs := Decode(d[start]);
    var e := Installed(d, start, bs, t);
    LogUntouched(d, start, bs, t);
    InstalledAt(d, start, bs, t);
    RecoversAlike(e, d, start);
  }

  ghost function Cleared(d: DiskState, start: nat): DiskState
    requires |d| > start && BlockOk(d[start])
  {
    d[start := Encode(d[start], [])]
  }

  lemma ClearedRecovers(d: DiskState, start: nat)
    requires start + LOGBLOCKS < |d| <= UINT32 && BlockOk(d[start])
    ensures GoodLog(Cleared(d, start), start) && Decode(Cleared(d, start)[start]) == []
    ensures Recovered(Cleared(d, start), start) == Cleared(d, start)
    ensures SameHome(Cleared(d, start), d, start)
  {
    HeaderRoundTrip(d[start], []);
  }

  // ---------- recovery, and recovery after interrupted recoveries ----------

  /** The disk after each write of recover_from_log started on `d`. */
  ghost function RecoveryTrace(d: DiskState, start: nat): (r: seq<DiskState>)
    requires GoodLog(d, start)
    ensures |r| == |Decode(d[start])| + 1
  {
    var bs := Decode(d[start]);
    LogUntouched(d, start, bs, |bs|);
    seq(|bs|, i requires 0 <= i < |bs| => Installed(d, start, bs, i + 1)) + [Cleared(Recovered(d, start), start)]
  }

  lemma RecoveryTraceRecovers(d: DiskState, start: nat, i: nat)
    requires GoodLog(d, start) && i <= |Decode(d[start])|
    ensures GoodLog(RecoveryTrace(d, start)[i], start)
    ensures SameHome(Recovered(RecoveryTrace(d, start)[i], start), Recovered(d, start), start)
  {
    var bs := Decode(d[start]);
    if i < |bs| {
      PartialInstallRecovers(d, start, i + 1);
    } else {
      LogUntouched(d, start, bs, |bs|);
      ClearedRecovers(Recovered(d, start), start);
    }
  }

  /** Boots that each crash somewhere in recovery: before its first write or after any later one. */
  ghost predicate CrashingBoots(ds: seq<DiskState>, start: nat) {
    && |ds| > 0
    && (forall i :: 0 <= i < |ds| ==> GoodLog(ds[i], start))
    && forall i :: 0 < i < |ds| ==> ds[i] == ds[i - 1] || ds[i] in RecoveryTrace(ds[i - 1], start)
  }

  /** However many times recovery crashes, the recovered home blocks stay what they were, and the
      first recovery that completes puts exactly them on the disk and empties the log. */
  lemma {:induction false} RecoveryIsIdempotent(ds: seq<DiskState>, start: nat)
    requires CrashingBoots(ds, start)
    ensures SameHome(Recovered(ds[|ds| - 1], start), Recovered(ds[0], start), start)
    ensures var t := RecoveryTrace(ds[|ds| - 1], start);
            var e := t[|t| - 1];
            GoodLog(e, start) && Decode(e[start]) == [] && SameHome(e, Recovered(ds[0], start), start)
  {
    hide Word, Encode, Installed;
    var d := ds[|ds| - 1];
    LogUntouched(d, start, Decode(d[start]), |Decode(d[start])|);
    ClearedRecovers(Recovered(d, start), start);
    if |ds| > 1 {
      var c := ds[|ds| - 2];
      RecoveryIsIdempotent(ds[..|ds| - 1], start);
      if d != c {
        var i :| 0 <= i < |RecoveryTrace(c, start)| && RecoveryTrace(c, start)[i] == d;
        RecoveryTraceRecovers(c, start, i);
      }
    }
  }
}
