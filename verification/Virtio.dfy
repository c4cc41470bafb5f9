/** The split-virtqueue disk driver, interleaved with its device (sections 2.6 and 5.2 of VIRTIO 1.1).

    Driver methods run with vdisk_lock held, so each is one step; device steps may come between any two of
    them. The ring indices wrap at 16 bits; ghost counters count without wrapping. */
module Virtio {
  import opened Ring
  import SetSize

  const NUM: nat := 8
  const UINT16: nat := 0x1_0000

  /** What a descriptor's address field points at. */
  datatype Addr = Nil | Ops(i: nat) | Data(b: nat) | StatusOf(i: nat)
  datatype Desc = Desc(addr: Addr, len: nat, hasNext: bool, deviceWrites: bool, next: nat)
  datatype Op = Op(write: bool, sector: nat)

  /** info[i]: b is the buffer, -1 for null. */
  datatype Info = Info(b: int, status: nat)

  /** How far a request has come: in the avail ring, taken by the device, in the used ring, seen by the driver. */
  datatype Phase = InAvail | Taken | InUsed | Done

  /** A request: its second and third descriptor, its buffer and direction, and its number. */
  datatype Chain = Chain(second: nat, third: nat, b: nat, write: bool, phase: Phase, ticket: nat)

  const EMPTY: Desc := Desc(Nil, 0, false, false, 0)

  /** head[i] is the first descriptor of the chain that i is in, -1 when i is free. */
  ghost predicate PartitionOk(free: seq<bool>, head: seq<int>, chains: map<int, Chain>) {
    && |free| == |head| == NUM
    && (forall i :: 0 <= i < NUM ==> (free[i] <==> head[i] == -1))
    && (forall i :: 0 <= i < NUM && head[i] != -1 ==>
                      head[i] in chains && (i == head[i] || i == chains[head[i]].second || i == chains[head[i]].third))
    && (forall h :: h in chains ==>
                      ChainInRange(h, chains[h]) && head[h] == head[chains[h].second] == head[chains[h].third] == h)
  }

  predicate ChainInRange(h: int, c: Chain) {
    0 <= h < NUM && c.second < NUM && c.third < NUM && h != c.second && h != c.third && c.second != c.third
  }

  /** The three descriptors, the header and the info entry of a request are as virtio_disk_rw wrote them. */
  ghost predicate FormatOk(h: nat, c: Chain, desc: seq<Desc>, ops: seq<Op>, info: seq<Info>, blockno: map<nat, nat>) {
    && |desc| == |ops| == |info| == NUM && ChainInRange(h, c) && c.b in blockno
    && desc[h] == Desc(Ops(h), 16, true, false, c.second)
    && desc[c.second] == Desc(Data(c.b), 1024, true, !c.write, c.third)
    && desc[c.third] == Desc(StatusOf(h), 1, false, true, 0)
    && ops[h] == Op(c.write, blockno[c.b] * 2)
    && info[h] == Info(c.b, if c.phase == InAvail || c.phase == Taken then 0xff else 0)
  }

  /** q lists the requests in the given phase, once each. */
  ghost predicate QueueOk(q: seq<nat>, chains: map<int, Chain>, phase: Phase) {
    && (forall i, j :: 0 <= i < j < |q| ==> q[i] != q[j])
    && (forall h :: h in q <==> h in chains && chains[h].phase == phase)
  }

  /** Requests are for different buffers and have different numbers; a number is completed once its buffer is. */
  ghost predicate TicketsOk(chains: map<int, Chain>, completed: set<nat>, issued: nat, busy: set<nat>) {
    && (forall g, h :: g in chains && h in chains && g != h ==>
                         chains[g].b != chains[h].b && chains[g].ticket != chains[h].ticket)
    && (forall h :: h in chains ==>
                      chains[h].ticket < issued && (chains[h].ticket in completed <==> chains[h].phase == Done))
    && (forall h :: h in chains ==> (chains[h].b in busy <==> chains[h].phase != Done))
    && (forall b :: b in busy ==> HasBuffer(chains, b))
    && (forall t :: t in completed ==> t < issued)
    && (forall t :: 0 <= t < issued && t !in completed ==> HasTicket(chains, t))
  }

  ghost predicate HasBuffer(chains: map<int, Chain>, b: nat) {
    exists h :: h in chains && chains[h].b == b
  }

  ghost predicate HasTicket(chains: map<int, Chain>, t: int) {
    exists h :: h in chains && chains[h].ticket == t
  }

  /** Eight descriptors make at most two chains. */
  lemma AtMostTwo(free: seq<bool>, head: seq<int>, chains: map<int, Chain>, a: nat, b: nat, c: nat)
    requires PartitionOk(free, head, chains) && a in chains && b in chains && c in chains
    ensures a == b || b == c || a == c
  {
    if a != b && b != c && a != c {
      var s := {a, chains[a].second, chains[a].third, b, chains[b].second, chains[b].third, c, chains[c].second,
                chains[c].third};
      assert |{a, chains[a].second, chains[a].third}| == 3;
      SetSize.Pigeonhole(s, NUM);
    }
  }

  lemma QueueShort(free: seq<bool>, head: seq<int>, chains: map<int, Chain>, q: seq<nat>, phase: Phase)
    requires PartitionOk(free, head, chains) && QueueOk(q, chains, phase)
    ensures |q| <= 2
  {
    if |q| > 2 {
      assert q[0] in q && q[1] in q && q[2] in q;
      AtMostTwo(free, head, chains, q[0], q[1], q[2]);
    }
  }

  ghost predicate FormatsOk(chains: map<int, Chain>, desc: seq<Desc>, ops: seq<Op>, info: seq<Info>,
                            blockno: map<nat, nat>) {
    forall h :: h in chains ==> FormatOk(h, chains[h], desc, ops, info, blockno)
  }

  ghost predicate FreeEmpty(free: seq<bool>, desc: seq<Desc>) {
    |free| == |desc| == NUM && forall i :: 0 <= i < NUM && free[i] ==> desc[i] == EMPTY
  }

  /** The three descriptors of a request as virtio_disk_rw fills them. */
  ghost function Formatted(desc: seq<Desc>, h: nat, c: Chain): (r: seq<Desc>)
    requires |desc| == NUM && ChainInRange(h, c)
    ensures |r| == NUM
  {
    desc[h := Desc(Ops(h), 16, true, false, c.second)][c.second := Desc(Data(c.b), 1024, true, !c.write, c.third)]
        [c.third := Desc(StatusOf(h), 1, false, true, 0)]
  }

  /** A request formatted in three descriptors that were free. */
  lemma SubmitKeeps(free: seq<bool>, free': seq<bool>, head: seq<int>, chains: map<int, Chain>, avail: seq<nat>,
                    done: seq<nat>,
                    desc: seq<Desc>, ops: seq<Op>, info: seq<Info>, blockno: map<nat, nat>,
                    completed: set<nat>, issued: nat, busy: set<nat>, h: nat, c: Chain)
    requires PartitionOk(free, head, chains) && FormatsOk(chains, desc, ops, info, blockno) && FreeEmpty(free, desc)
    requires |desc| == |ops| == |info| == NUM
    requires QueueOk(avail, chains, InAvail) && QueueOk(done, chains, InUsed)
    requires TicketsOk(chains, completed, issued, busy)
    requires ChainInRange(h, c) && free[h] && free[c.second] && free[c.third] && |free'| == NUM
    requires forall i :: 0 <= i < NUM ==> (free'[i] <==> free[i] && i != h && i != c.second && i != c.third)
    requires c.phase == InAvail && c.ticket == issued && c.b in blockno
    requires forall g :: g in chains ==> chains[g].b != c.b
    ensures |head| == NUM && PartitionOk(free', Marked(head, h, c), chains[h := c]) && h !in chains && |avail| <= 2
    ensures QueueOk(avail + [h], chains[h := c], InAvail) && QueueOk(done, chains[h := c], InUsed)
    ensures TicketsOk(chains[h := c], completed, issued + 1, busy + {c.b})
    ensures FreeEmpty(free', Formatted(desc, h, c))
    ensures FormatsOk(chains[h := c], Formatted(desc, h, c), ops[h := Op(c.write, blockno[c.b] * 2)],
                      info[h := Info(c.b, 0xff)], blockno)
  {
    hide PartitionOk, FormatsOk, FreeEmpty, QueueOk, TicketsOk, Marked;
    QueueShort(free, head, chains, avail, InAvail);
    SubmitFormats(free, head, chains, desc, ops, info, blockno, h, c);
    SubmitPartition(free, free', head, chains, h, c);
    SubmitEmpty(free, free', desc, h, c);
    SubmitQueues(chains, avail, done, h, c);
    SubmitTickets(chains, completed, issued, busy, h, c);
  }

  lemma SubmitPartition(free: seq<bool>, free': seq<bool>, head: seq<int>, chains: map<int, Chain>, h: nat, c: Chain)
    requires PartitionOk(free, head, chains) && ChainInRange(h, c) && free[h] && free[c.second] && free[c.third]
    requires |free'| == NUM
    requires forall i :: 0 <= i < NUM ==> (free'[i] <==> free[i] && i != h && i != c.second && i != c.third)
    ensures |head| == NUM && PartitionOk(free', Marked(head, h, c), chains[h := c])
  {
  }

  lemma SubmitEmpty(free: seq<bool>, free': seq<bool>, desc: seq<Desc>, h: nat, c: Chain)
    requires FreeEmpty(free, desc) && ChainInRange(h, c) && |free'| == NUM
    requires forall i :: 0 <= i < NUM ==> (free'[i] <==> free[i] && i != h && i != c.second && i != c.third)
    ensures FreeEmpty(free', Formatted(desc, h, c))
  {
  }

  lemma SubmitQueues(chains: map<int, Chain>, avail: seq<nat>, done: seq<nat>, h: nat, c: Chain)
    requires QueueOk(avail, chains, InAvail) && QueueOk(done, chains, InUsed) && h !in chains && c.phase == InAvail
    ensures QueueOk(avail + [h], chains[h := c], InAvail) && QueueOk(done, chains[h := c], InUsed)
  {
  }

  lemma SubmitTickets(chains: map<int, Chain>, completed: set<nat>, issued: nat, busy: set<nat>, h: nat, c: Chain)
    requires TicketsOk(chains, completed, issued, busy) && h !in chains && c.phase == InAvail && c.ticket == issued
    requires forall g :: g in chains ==> chains[g].b != c.b
    ensures TicketsOk(chains[h := c], completed, issued + 1, busy + {c.b})
  {
    var chains' := chains[h := c];
    assert h in chains' && chains'[h] == c;
    forall t | 0 <= t < issued + 1 && t !in completed ensures HasTicket(chains', t) {
      if t < issued {
        assert HasTicket(chains, t);
        var g :| g in chains && chains[g].ticket == t;
        assert g in chains' && chains'[g].ticket == t;
      }
    }
    forall b | b in busy + {c.b} ensures HasBuffer(chains', b) {
      if b in busy {
        assert HasBuffer(chains, b);
        var g :| g in chains && chains[g].b == b;
        assert g in chains' && chains'[g].b == b;
      }
    }
  }

  lemma SubmitFormats(free: seq<bool>, head: seq<int>, chains: map<int, Chain>, desc: seq<Desc>, ops: seq<Op>,
                      info: seq<Info>,
                      blockno: map<nat, nat>, h: nat, c: Chain)
    requires PartitionOk(free, head, chains) && FormatsOk(chains, desc, ops, info, blockno)
    requires |desc| == |ops| == |info| == NUM
    requires ChainInRange(h, c) && free[h] && free[c.second] && free[c.third] && c.phase == InAvail && c.b in blockno
    ensures h !in chains
    ensures FormatsOk(chains[h := c], Formatted(desc, h, c), ops[h := Op(c.write, blockno[c.b] * 2)],
                      info[h := Info(c.b, 0xff)], blockno)
  {
  }

  ghost function Moved(chains: map<int, Chain>, h: nat, ph: Phase): map<int, Chain>
    requires h in chains
  {
    chains[h := chains[h].(phase := ph)]
  }

  lemma MovedPartition(free: seq<bool>, head: seq<int>, chains: map<int, Chain>, h: nat, ph: Phase)
    requires PartitionOk(free, head, chains) && h in chains
    ensures PartitionOk(free, head, Moved(chains, h, ph))
  {
  }

  lemma MovedFormats(chains: map<int, Chain>, desc: seq<Desc>, ops: seq<Op>, info: seq<Info>, blockno: map<nat, nat>,
                     h: nat, ph: Phase, info': seq<Info>)
    requires FormatsOk(chains, desc, ops, info, blockno) && h in chains && ChainInRange(h, chains[h]) && |info| == NUM
    requires info' == info[h := Info(info[h].b, if ph == InAvail || ph == Taken then 0xff else 0)]
    ensures FormatsOk(Moved(chains, h, ph), desc, ops, info', blockno)
  {
  }

  /** A request leaves the front of one queue. */
  lemma MovedPop(chains: map<int, Chain>, q: seq<nat>, o: seq<nat>, from: Phase, ph: Phase, other: Phase)
    requires QueueOk(q, chains, from) && QueueOk(o, chains, other) && |q| > 0 && ph != from && ph != other
    requires from != other
    ensures q[0] in chains && chains[q[0]].phase == from
    ensures QueueOk(q[1..], Moved(chains, q[0], ph), from) && QueueOk(o, Moved(chains, q[0], ph), other)
  {
    var h := q[0];
    assert h in q;
    var chains' := Moved(chains, h, ph);
    forall g ensures g in q[1..] <==> g in chains' && chains'[g].phase == from {
      assert g in q <==> g == q[0] || g in q[1..];
    }
  }

  lemma MovedPush(chains: map<int, Chain>, q: seq<nat>, o: seq<nat>, h: nat, ph: Phase, other: Phase)
    requires QueueOk(q, chains, ph) && QueueOk(o, chains, other) && h in chains && chains[h].phase != ph
    requires chains[h].phase != other && ph != other
    ensures QueueOk(q + [h], Moved(chains, h, ph), ph) && QueueOk(o, Moved(chains, h, ph), other)
  {
  }

  lemma MovedTickets(chains: map<int, Chain>, completed: set<nat>, issued: nat, busy: set<nat>, h: nat, ph: Phase)
    requires TicketsOk(chains, completed, issued, busy) && h in chains && chains[h].phase != Done
    ensures chains[h].b in busy && chains[h].ticket !in completed
    ensures if ph == Done
            then TicketsOk(Moved(chains, h, ph), completed + {chains[h].ticket}, issued, busy - {chains[h].b})
            else TicketsOk(Moved(chains, h, ph), completed, issued, busy)
  {
    var chains' := Moved(chains, h, ph);
    forall b | HasBuffer(chains, b) ensures HasBuffer(chains', b) {
      var g :| g in chains && chains[g].b == b;
      assert g in chains' && chains'[g].b == b;
    }
    forall t | HasTicket(chains, t) ensures HasTicket(chains', t) {
      var g :| g in chains && chains[g].ticket == t;
      assert g in chains' && chains'[g].ticket == t;
    }
    hide HasBuffer, HasTicket;
  }

  /** A finished request leaves the chains. */
  lemma DroppedTickets(chains: map<int, Chain>, completed: set<nat>, issued: nat, busy: set<nat>, h: nat)
    requires TicketsOk(chains, completed, issued, busy) && h in chains && chains[h].phase == Done
    ensures TicketsOk(chains - {h}, completed, issued, busy) && chains[h].ticket in completed
  {
    var chains' := chains - {h};
    forall b | HasBuffer(chains, b) && b != chains[h].b ensures HasBuffer(chains', b) {
      var g :| g in chains && chains[g].b == b;
      assert g in chains' && chains'[g].b == b;
    }
    forall t | HasTicket(chains, t) && t != chains[h].ticket ensures HasTicket(chains', t) {
      var g :| g in chains && chains[g].ticket == t;
      assert g in chains' && chains'[g].ticket == t;
    }
    hide HasBuffer, HasTicket;
  }

  lemma DroppedQueues(chains: map<int, Chain>, avail: seq<nat>, done: seq<nat>, h: nat)
    requires QueueOk(avail, chains, InAvail) && QueueOk(done, chains, InUsed) && h in chains && chains[h].phase == Done
    ensures QueueOk(avail, chains - {h}, InAvail) && QueueOk(done, chains - {h}, InUsed)
  {
  }

  ghost function Unmarked(head: seq<int>, h: nat, c: Chain): (r: seq<int>)
    requires |head| == NUM && ChainInRange(h, c)
    ensures |r| == NUM
    ensures forall i :: 0 <= i < NUM ==> r[i] == if i == h || i == c.second || i == c.third then -1 else head[i]
  {
    head[h := -1][c.second := -1][c.third := -1]
  }

  lemma DroppedPartition(free: seq<bool>, head: seq<int>, chains: map<int, Chain>, h: nat, free': seq<bool>)
    requires PartitionOk(free, head, chains) && h in chains && |free'| == NUM
    requires forall i :: 0 <= i < NUM ==>
                           free'[i] == (free[i] || i == h || i == chains[h].second || i == chains[h].third)
    ensures ChainInRange(h, chains[h]) && PartitionOk(free', Unmarked(head, h, chains[h]), chains - {h})
  {
  }

  lemma DroppedFormats(free: seq<bool>, head: seq<int>, chains: map<int, Chain>, desc: seq<Desc>, ops: seq<Op>,
                       info: seq<Info>, blockno: map<nat, nat>,
                       h: nat, desc': seq<Desc>, info': seq<Info>)
    requires PartitionOk(free, head, chains) && FormatsOk(chains, desc, ops, info, blockno) && h in chains
    requires |desc| == |desc'| == |info| == |info'| == |ops| == NUM
    requires forall i :: 0 <= i < NUM && i != h && i != chains[h].second && i != chains[h].third ==> desc'[i] == desc[i]
    requires forall i :: 0 <= i < NUM && i != h ==> info'[i] == info[i]
    ensures FormatsOk(chains - {h}, desc', ops, info', blockno)
  {
    forall g | g in chains - {h} ensures FormatOk(g, (chains - {h})[g], desc', ops, info', blockno) {
      assert FormatOk(g, chains[g], desc, ops, info, blockno);
      var a, b := chains[g], chains[h];
      assert g != h && head[g] == head[a.second] == head[a.third] == g &&
          head[h] == head[b.second] == head[b.third] == h;
    }
  }

  lemma FreeEmptyAfter(free: seq<bool>, desc: seq<Desc>, h: nat, c: Chain, free': seq<bool>, desc': seq<Desc>)
    requires FreeEmpty(free, desc) && ChainInRange(h, c)
    requires free' == free[h := true][c.second := true][c.third := true]
    requires desc' == desc[h := EMPTY][c.second := EMPTY][c.third := EMPTY]
    ensures FreeEmpty(free', desc')
  {
  }

  lemma DroppedKeeps(free: seq<bool>, head: seq<int>, chains: map<int, Chain>, desc: seq<Desc>, ops: seq<Op>,
                     info: seq<Info>, blockno: map<nat, nat>,
                     h: nat, free': seq<bool>, desc': seq<Desc>, info': seq<Info>)
    requires PartitionOk(free, head, chains) && FormatsOk(chains, desc, ops, info, blockno) && FreeEmpty(free, desc)
    requires |free| == |desc| == |head| == |ops| == |info| == NUM && h in chains && ChainInRange(h, chains[h])
    requires free' == free[h := true][chains[h].second := true][chains[h].third := true]
    requires desc' == desc[h := EMPTY][chains[h].second := EMPTY][chains[h].third := EMPTY]
    requires info' == info[h := info[h].(b := -1)]
    ensures PartitionOk(free', Unmarked(head, h, chains[h]), chains - {h})
    ensures FreeEmpty(free', desc') && FormatsOk(chains - {h}, desc', ops, info', blockno)
  {
    hide PartitionOk, FormatsOk, FreeEmpty, Unmarked;
    DroppedPartition(free, head, chains, h, free');
    FreeEmptyAfter(free, desc, h, chains[h], free', desc');
    DroppedFormats(free, head, chains, desc, ops, info, blockno, h, desc', info');
  }

  /** The requests of q, and no others, went to Done; their numbers are completed and their buffers no longer busy. */
  ghost predicate DrainedTo(chains: map<int, Chain>, completed: set<nat>, busy: set<nat>, q: seq<nat>,
                            chains': map<int, Chain>, completed': set<nat>, busy': set<nat>) {
    && chains'.Keys == chains.Keys && (forall h :: h in q ==> h in chains)
    && (forall h :: h in chains ==> chains'[h] == if h in q then chains[h].(phase := Done) else chains[h])
    && completed' == completed + (set h | h in q && h in chains :: chains[h].ticket)
    && busy' == busy - (set h | h in q && h in chains :: chains[h].b)
  }

  lemma DrainOne(chains: map<int, Chain>, completed: set<nat>, busy: set<nat>, q: seq<nat>,
                 chains1: map<int, Chain>, completed1: set<nat>, busy1: set<nat>, h: nat)
    requires DrainedTo(chains, completed, busy, q, chains1, completed1, busy1) && h in chains1
    ensures DrainedTo(chains, completed, busy, q + [h], Moved(chains1, h, Done), completed1 + {chains1[h].ticket},
                      busy1 - {chains1[h].b})
  {
  }

  // ---- what the requests moved -------------------------------------------------------------------------------

  predicate Finished(ph: Phase) {
    ph == InUsed || ph == Done
  }

  /** value[h] is what request h moves or has moved. Its buffer holds that value from submission on for a write, from
      completion on for a read. Once completed the disk holds it too, unless another write of the same block was
      completed later: then its number is in `overwritten`. */
  ghost predicate ValuesOk(chains: map<int, Chain>, value: map<int, int>, data: map<nat, int>, store: map<nat, int>,
                           blockno: map<nat, nat>, overwritten: set<nat>, issued: nat) {
    && (forall h :: h in chains ==> h in value && ValueOk(chains[h], value[h], data, store, blockno, overwritten))
    && (forall t :: t in overwritten ==> t < issued)
  }

  ghost predicate ValueOk(c: Chain, v: int, data: map<nat, int>, store: map<nat, int>, blockno: map<nat, nat>,
                          overwritten: set<nat>) {
    && c.b in blockno && c.b in data && (c.write || Finished(c.phase) ==> data[c.b] == v)
    && (Finished(c.phase) && c.ticket !in overwritten ==> Sector(store, blockno[c.b] * 2) == v)
    && (c.ticket in overwritten ==> Finished(c.phase))
  }

  /** The other completed requests for the block of request h. */
  ghost function Rivals(chains: map<int, Chain>, blockno: map<nat, nat>, h: nat): set<nat> {
    set g | g in chains && h in chains && g != h && SameBlock(chains[g], chains[h], blockno) :: chains[g].ticket
  }

  ghost predicate SameBlock(c: Chain, d: Chain, blockno: map<nat, nat>) {
    Finished(c.phase) && c.b in blockno && d.b in blockno && blockno[c.b] == blockno[d.b]
  }

  lemma ValuesSubmit(chains: map<int, Chain>, value: map<int, int>, data: map<nat, int>, store: map<nat, int>,
                     blockno: map<nat, nat>, overwritten: set<nat>, issued: nat, h: nat, c: Chain)
    requires ValuesOk(chains, value, data, store, blockno, overwritten, issued)
    requires c.phase == InAvail && c.ticket == issued && c.b in blockno && c.b in data
    ensures ValuesOk(chains[h := c], value[h := data[c.b]], data, store, blockno, overwritten, issued + 1)
  {
  }

  lemma ValuesMoved(chains: map<int, Chain>, value: map<int, int>, data: map<nat, int>, store: map<nat, int>,
                    blockno: map<nat, nat>, overwritten: set<nat>, issued: nat, h: nat, ph: Phase)
    requires ValuesOk(chains, value, data, store, blockno, overwritten, issued) && h in chains
    requires Finished(ph) == Finished(chains[h].phase)
    ensures ValuesOk(Moved(chains, h, ph), value, data, store, blockno, overwritten, issued)
  {
  }

  lemma ValuesComplete(chains: map<int, Chain>, value: map<int, int>, data: map<nat, int>, store: map<nat, int>,
                       blockno: map<nat, nat>, completed: set<nat>, overwritten: set<nat>, issued: nat, busy: set<nat>,
                       h: nat, data': map<nat, int>, store': map<nat, int>)
    requires ValuesOk(chains, value, data, store, blockno, overwritten, issued) && h in chains
    requires TicketsOk(chains, completed, issued, busy) && chains[h].phase == Taken && h in value && chains[h].b in data
    requires chains[h].b in blockno
    requires chains[h].write ==> store' == store[blockno[chains[h].b] * 2 := data[chains[h].b]] && data' == data
    requires !chains[h].write ==>
               store' == store && data' == data[chains[h].b := Sector(store, blockno[chains[h].b] * 2)]
    ensures chains[h].b in data' && (chains[h].write ==> value[h] == data[chains[h].b])
    ensures ValuesOk(Moved(chains, h, InUsed), value[h := data'[chains[h].b]], data', store', blockno,
                     if chains[h].write then overwritten + Rivals(chains, blockno, h) else overwritten, issued)
  {
    var c := chains[h];
    var overwritten' := if c.write then overwritten + Rivals(chains, blockno, h) else overwritten;
    assert ValueOk(c, value[h], data, store, blockno, overwritten);
    forall g | g in chains && g != h ensures ValueOk(chains[g], value[g], data', store', blockno, overwritten') {
      assert ValueOk(chains[g], value[g], data, store, blockno, overwritten);
      OnlyRivals(chains, blockno, h, g);
    }
    OnlyRivals(chains, blockno, h, h);
  }

  /** With different numbers, a number is a rival's exactly when its request is. */
  lemma OnlyRivals(chains: map<int, Chain>, blockno: map<nat, nat>, h: nat, g: int)
    requires h in chains && g in chains
    requires forall e, f :: e in chains && f in chains && e != f ==> chains[e].ticket != chains[f].ticket
    ensures chains[g].ticket in Rivals(chains, blockno, h) <==> g != h && SameBlock(chains[g], chains[h], blockno)
  {
  }

  lemma FewFree(free: seq<bool>, idx: seq<nat>)
    requires |free| == NUM && |idx| < 3 && forall i :: 0 <= i < NUM && free[i] ==> i in idx
    ensures forall i, j, k :: 0 <= i < j < k < NUM ==> !(free[i] && free[j] && free[k])
  {
  }

  ghost function Marked(head: seq<int>, h: nat, c: Chain): (r: seq<int>)
    requires |head| == NUM && ChainInRange(h, c)
    ensures |r| == NUM
    ensures forall i :: 0 <= i < NUM ==> r[i] == if i == h || i == c.second || i == c.third then h else head[i]
  {
    head[h := h][c.second := h][c.third := h]
  }

  function Sector(store: map<nat, int>, s: nat): int {
    if s in store then store[s] else 0
  }

  class Disk {
    var free: seq<bool>
    var desc: seq<Desc>
    var ops: seq<Op>
    var info: seq<Info>
    var ring: seq<nat>             // avail->ring
    var availIdx: nat              // avail->idx
    var used: seq<nat>             // the ids in used->ring
    var usedIdx: nat               // used->idx
    var usedSeen: nat              // disk.used_idx
    var busy: set<nat>             // the buffers with b->disk == 1
    var blockno: map<nat, nat>     // of each buffer
    var data: map<nat, int>        // the contents of each buffer
    var lastAvail: nat             // the device's own index into avail
    var store: map<nat, int>       // the device's sectors
    ghost var head: seq<int>
    ghost var chains: map<int, Chain>
    ghost var avail: seq<nat>      // submitted, not yet taken by the device
    ghost var taken: nat           // how many requests the device has taken
    ghost var done: seq<nat>       // finished by the device, not yet seen by the driver
    ghost var seen: nat            // how many completions the driver has seen
    ghost var completed: set<nat>  // the numbers of the requests whose completion the driver has seen
    ghost var issued: nat          // how many requests there were
    ghost var value: map<int, int> // what each request in flight moves
    ghost var overwritten: set<nat> // the numbers of the requests whose block was written again after completion

    ghost predicate Valid()
      reads this
    {
      ValidWith(free)
    }

    ghost predicate ValidWith(free: seq<bool>)
      reads this
    {
      && PartitionOk(free, head, chains) && FormatsOk(chains, desc, ops, info, blockno) && FreeEmpty(free, desc)
      && |ops| == |info| == NUM && data.Keys == blockno.Keys
      && Counts(availIdx, taken + |avail|, UINT16) && Counts(lastAvail, taken, UINT16) &&
         RingOk(ring, avail, taken, NUM)
      && Counts(usedIdx, seen + |done|, UINT16) && Counts(usedSeen, seen, UINT16) && RingOk(used, done, seen, NUM)
      && QueueOk(avail, chains, InAvail) && QueueOk(done, chains, InUsed) && TicketsOk(chains, completed, issued, busy)
      && ValuesOk(chains, value, data, store, blockno, overwritten, issued)
    }

    /** virtio_disk_init: queue memory zeroed, all descriptors free. */
    constructor (blockno: map<nat, nat>, data: map<nat, int>, store: map<nat, int>)
      requires data.Keys == blockno.Keys
      ensures Valid() && chains == map[] && issued == 0
    {
      free, desc := seq(NUM, _ => true), seq(NUM, _ => EMPTY);
      ops, info := seq(NUM, _ => Op(false, 0)), seq(NUM, _ => Info(-1, 0));
      ring, availIdx, used, usedIdx, usedSeen, lastAvail := seq(NUM, _ => 0), 0, seq(NUM, _ => 0), 0, 0, 0;
      busy := {};
      this.blockno, this.data, this.store := blockno, data, store;
      head, chains, avail, taken, done, seen, completed, issued := seq(NUM, _ => -1), map[], [], 0, [], 0, {}, 0;
      value, overwritten := map[], {};
    }

    lemma FreeSizes(free: seq<bool>)
      requires ValidWith(free)
      ensures |free| == |desc| == |ops| == |info| == |head| == |ring| == |used| == NUM
    {
    }

    /** alloc_desc: the first free descriptor, -1 when there is none. */
    method AllocDesc() returns (r: int)
      requires |free| == NUM
      modifies this`free
      ensures r < 0 ==> free == old(free) && forall i :: 0 <= i < NUM ==> !free[i]
      ensures r >= 0 ==> r < NUM && old(free)[r] && free == old(free)[r := false] && forall i :: 0 <= i < r ==> !free[i]
    {
      var i := 0;
      while i < NUM
        invariant 0 <= i <= NUM && free == old(free) && forall k :: 0 <= k < i ==> !free[k]
      {
        if free[i] {
          free := free[i := false];
          return i;
        }
        i := i + 1;
      }
      return -1;
    }

    /** free_desc; its panics are the two conditions. */
    method FreeDesc(i: nat)
      requires |free| == |desc| == NUM && i < NUM && !free[i]
      modifies this`free, this`desc
      ensures free == old(free)[i := true] && desc == old(desc)[i := EMPTY]
    {
      desc := desc[i := EMPTY];
      free := free[i := true];
    }

    /** The inner loop of alloc3_desc: the descriptors got so far are freed again. */
    method GiveBack(idx: seq<nat>, ghost free0: seq<bool>)
      requires |free| == |free0| == NUM && FreeEmpty(free0, desc)
      requires forall i, j :: 0 <= i < j < |idx| ==> idx[i] != idx[j]
      requires forall k :: 0 <= k < |idx| ==> idx[k] < NUM && free0[idx[k]]
      requires forall i :: 0 <= i < NUM ==> !free[i] && (free0[i] ==> i in idx)
      modifies this`free, this`desc
      ensures free == free0 && desc == old(desc)
    {
      var j := 0;
      while j < |idx|
        invariant 0 <= j <= |idx| && desc == old(desc) && |free| == NUM
        invariant forall i :: 0 <= i < NUM ==> (free[i] <==> i in idx[..j])
      {
        FreeDesc(idx[j]);
        j := j + 1;
      }
      assert idx[..j] == idx;
    }

    /** alloc3_desc: three free descriptors, or none at all when fewer than three are free. */
    method Alloc3() returns (ok: bool, idx: seq<nat>)
      requires FreeEmpty(free, desc)
      modifies this`free, this`desc
      ensures desc == old(desc) && |free| == NUM
      ensures ok ==> |idx| == 3 && idx[0] != idx[1] && idx[0] != idx[2] && idx[1] != idx[2]
      ensures ok ==> forall k :: 0 <= k < 3 ==> idx[k] < NUM && old(free)[idx[k]]
      ensures ok ==> forall i :: 0 <= i < NUM ==>
                                   (free[i] <==> old(free)[i] && i != idx[0] && i != idx[1] && i != idx[2])
      ensures !ok ==> free == old(free)
      ensures !ok ==> forall i, j, k :: 0 <= i < j < k < NUM ==> !(free[i] && free[j] && free[k])
    {
      idx := [];
      while |idx| < 3
        invariant |idx| <= 3 && desc == old(desc) && |free| == NUM
        invariant forall i, j :: 0 <= i < j < |idx| ==> idx[i] != idx[j]
        invariant forall k :: 0 <= k < |idx| ==> idx[k] < NUM && old(free)[idx[k]]
        invariant forall i :: 0 <= i < NUM ==> (free[i] <==> old(free)[i] && i !in idx)
        decreases 3 - |idx|
      {
        var d := AllocDesc();
        if d < 0 {
          FewFree(old(free), idx);
          GiveBack(idx, old(free));
          return false, [];
        }
        idx := idx + [d];
      }
      return true, idx;
    }

    /** The request header, the three descriptors and the info entry. */
    method Format(idx: seq<nat>, b: nat, write: bool)
      requires |idx| == 3 && ChainInRange(idx[0], Chain(idx[1], idx[2], b, write, InAvail, 0))
      requires |desc| == |ops| == |info| == NUM && b in blockno
      modifies this`desc, this`ops, this`info, this`busy
      ensures desc == Formatted(old(desc), idx[0], Chain(idx[1], idx[2], b, write, InAvail, issued))
      ensures ops == old(ops)[idx[0] := Op(write, blockno[b] * 2)] && info == old(info)[idx[0] := Info(b, 0xff)]
      ensures busy == old(busy) + {b}
    {
      var buf0 := Op(write, blockno[b] * 2);
      ops := ops[idx[0] := buf0];
      desc := desc[idx[0] := Desc(Ops(idx[0]), 16, true, false, idx[1])];
      desc := desc[idx[1] := Desc(Data(b), 1024, true, !write, idx[2])];
      info := info[idx[0] := info[idx[0]].(status := 0xff)];
      desc := desc[idx[2] := Desc(StatusOf(idx[0]), 1, false, true, 0)];
      busy := busy + {b};
      info := info[idx[0] := info[idx[0]].(b := b)];
    }

    /** The avail ring gets one more entry; no entry the device has yet to take is overwritten. */
    method PushAvail(id: nat)
      requires Counts(availIdx, taken + |avail|, UINT16) && RingOk(ring, avail, taken, NUM) && |avail| < NUM
      modifies this`ring, this`availIdx, this`avail
      ensures avail == old(avail) + [id] && Counts(availIdx, taken + |avail|, UINT16) && RingOk(ring, avail, taken, NUM)
    {
      WrapSlot(taken + |avail|, UINT16, NUM, UINT16 / NUM);
      RingPush(ring, avail, taken, NUM, id);
      WrapNext(taken + |avail|, UINT16);
      ring := ring[availIdx % NUM := id];
      availIdx := (availIdx + 1) % UINT16;
      avail := avail + [id];
    }

    /** virtio_disk_rw up to the notification: when three descriptors are free, the request is formatted and put
        in the avail ring; otherwise nothing changes and the caller sleeps. */
    method Submit(b: nat, write: bool) returns (ok: bool, ghost h: nat)
      requires Valid() && b in blockno && forall g :: g in chains ==> chains[g].b != b
      modifies this`free, this`desc, this`ops, this`info, this`ring, this`availIdx, this`busy
      modifies this`head, this`chains, this`avail, this`issued, this`value
      ensures Valid()
      ensures !ok ==> chains == old(chains) && issued == old(issued) && avail == old(avail) && busy == old(busy)
      ensures !ok ==> forall i, j, k :: 0 <= i < j < k < NUM ==> !(free[i] && free[j] && free[k])
      ensures ok ==> h !in old(chains) && issued == old(issued) + 1 && avail == old(avail) + [h]
      ensures ok ==>
                h in chains && chains == old(chains)[h := chains[h]] && chains[h].b == b && chains[h].write == write
      ensures ok ==> chains[h].ticket == old(issued) && chains[h].phase == InAvail && busy == old(busy) + {b}
      ensures ok ==> b in data && value == old(value)[h := data[b]]
    {
      hide PartitionOk, FormatsOk, RingOk, QueueOk, TicketsOk, Counts, FreeEmpty;
      FreeSizes(free);
      var idx;
      ok, idx := Alloc3();
      h := 0;
      if ok {
        h := idx[0];
        Enqueue(idx, b, write, old(free));
      }
    }

    ghost method Record(h: nat, c: Chain)
      requires |head| == NUM && ChainInRange(h, c)
      requires c.b in data
      modifies this`head, this`chains, this`issued, this`value
      ensures head == Marked(old(head), h, c) && chains == old(chains)[h := c] && issued == old(issued) + 1
      ensures value == old(value)[h := data[c.b]]
    {
      head, chains, issued, value := Marked(head, h, c), chains[h := c], issued + 1, value[h := data[c.b]];
    }

    /** virtio_disk_rw with its three descriptors. */
    method Enqueue(idx: seq<nat>, b: nat, write: bool, ghost free0: seq<bool>)
      requires ValidWith(free0) && b in blockno && forall g :: g in chains ==> chains[g].b != b
      requires |idx| == 3 && ChainInRange(idx[0], Chain(idx[1], idx[2], b, write, InAvail, 0))
      requires |free| == |free0| == NUM
      requires free0[idx[0]] && free0[idx[1]] && free0[idx[2]]
      requires forall i :: 0 <= i < NUM ==> (free[i] <==> free0[i] && i != idx[0] && i != idx[1] && i != idx[2])
      modifies this`desc, this`ops, this`info, this`ring, this`availIdx, this`busy
      modifies this`head, this`chains, this`avail, this`issued, this`value
      ensures Valid() && idx[0] !in old(chains) && issued == old(issued) + 1 && avail == old(avail) + [idx[0]]
      ensures busy == old(busy) + {b}
      ensures chains == old(chains)[idx[0] := Chain(idx[1], idx[2], b, write, InAvail, old(issued))]
      ensures b in data && value == old(value)[idx[0] := data[b]]
    {
      hide PartitionOk, FormatsOk, RingOk, QueueOk, TicketsOk, Counts, FreeEmpty, Marked, ValuesOk, Formatted;
      ghost var h, c := idx[0], Chain(idx[1], idx[2], b, write, InAvail, issued);
      FreeSizes(free0);
      QueueShort(free0, head, chains, avail, InAvail);
      Format(idx, b, write);
      PushAvail(idx[0]);
      SubmitKeeps(free0, free, head, chains, old(avail), done, old(desc), old(ops), old(info), blockno, completed,
                  issued,
                  old(busy), h, c);
      ValuesSubmit(chains, value, data, store, blockno, overwritten, issued, h, c);
      Record(h, c);
    }

    /** The device takes the next request from the avail ring: the oldest one it has not taken. */
    method DeviceTake() returns (got: bool, h: nat)
      requires Valid()
      modifies this`lastAvail, this`chains, this`avail, this`taken
      ensures Valid() && (got <==> |old(avail)| > 0)
      ensures !got ==> chains == old(chains) && avail == old(avail)
      ensures got ==> h == old(avail)[0] && avail == old(avail)[1..] && h in old(chains) &&
                      chains == Moved(old(chains), h, Taken)
    {
      hide PartitionOk, FormatsOk, QueueOk, TicketsOk, FreeEmpty, ValuesOk;
      FreeSizes(free);
      QueueShort(free, head, chains, avail, InAvail);
      WrapEqual(taken, taken + |avail|, UINT16);
      got, h := lastAvail != availIdx, 0;
      if got {
        WrapSlot(taken, UINT16, NUM, UINT16 / NUM);
        WrapNext(taken, UINT16);
        RingPop(ring, avail, taken, NUM);
        h := ring[lastAvail % NUM];
        lastAvail := (lastAvail + 1) % UINT16;
        MovedPop(chains, avail, done, InAvail, Taken, InUsed);
        ChainFacts(h);
        MovedFormats(chains, desc, ops, info, blockno, h, Taken, info);
        MovedPartition(free, head, chains, h, Taken);
        MovedTickets(chains, completed, issued, busy, h, Taken);
        ValuesMoved(chains, value, data, store, blockno, overwritten, issued, h, Taken);
        Advance(h);
      }
    }

    ghost method Advance(h: nat)
      requires h in chains && |avail| > 0
      modifies this`chains, this`avail, this`taken
      ensures chains == Moved(old(chains), h, Taken) && avail == old(avail)[1..] && taken == old(taken) + 1
    {
      chains, avail, taken := Moved(chains, h, Taken), avail[1..], taken + 1;
    }

    lemma ChainFacts(h: nat)
      requires FormatsOk(chains, desc, ops, info, blockno) && h in chains
      ensures FormatOk(h, chains[h], desc, ops, info, blockno) && ChainInRange(h, chains[h])
      ensures |info| == NUM && info[h := Info(info[h].b, info[h].status)] == info
    {
      assert FormatOk(h, chains[h], desc, ops, info, blockno);
    }

    /** The device finishes a request it has taken, in any order: it follows the chain of descriptors, moves the
        data, writes the status byte and adds the request to the used ring. */
    method DeviceComplete(h: nat)
      requires Valid() && h in chains && chains[h].phase == Taken
      modifies this`data, this`store, this`info, this`used, this`usedIdx, this`chains, this`done, this`value,
               this`overwritten
      ensures Valid() && chains == Moved(old(chains), h, InUsed) && done == old(done) + [h] && blockno == old(blockno)
      ensures overwritten == old(overwritten) + if old(chains)[h].write then Rivals(old(chains), blockno, h) else {}
      ensures h in value && value == old(value)[h := value[h]] && (old(chains)[h].write ==> value == old(value))
      ensures var c := old(chains)[h];
              && c.b in blockno && c.b in old(data)
              && (c.write ==> store == old(store)[blockno[c.b] * 2 := old(data)[c.b]] && data == old(data))
              && (!c.write ==> data == old(data)[c.b := Sector(old(store), blockno[c.b] * 2)] && store == old(store))
    {
      hide PartitionOk, FormatsOk, QueueOk, TicketsOk, FreeEmpty, RingOk, Counts, ValuesOk, Rivals, Moved, Sector;
      FreeSizes(free);
      ChainFacts(h);
      HasValue(h);
      Transfer(h);
      hide FormatOk;
      NoteValue(h, old(data), old(store));
      Report(h, old(info));
    }

    ghost method NoteValue(h: nat, data0: map<nat, int>, store0: map<nat, int>)
      requires ValuesOk(chains, value, data0, store0, blockno, overwritten, issued) && h in chains && h in value
      requires TicketsOk(chains, completed, issued, busy) && chains[h].phase == Taken
      requires chains[h].b in data0 && chains[h].b in data && chains[h].b in blockno
      requires chains[h].write ==> store == store0[blockno[chains[h].b] * 2 := data0[chains[h].b]] && data == data0
      requires !chains[h].write ==>
                 store == store0 && data == data0[chains[h].b := Sector(store0, blockno[chains[h].b] * 2)]
      modifies this`value, this`overwritten
      ensures ValuesOk(Moved(chains, h, InUsed), value, data, store, blockno, overwritten, issued)
      ensures overwritten == old(overwritten) + if chains[h].write then Rivals(chains, blockno, h) else {}
      ensures h in value && value == old(value)[h := value[h]] && (chains[h].write ==> value == old(value))
    {
      hide ValuesOk, TicketsOk, Rivals;
      ValuesComplete(chains, value, data0, store0, blockno, completed, overwritten, issued, busy, h, data, store);
      if chains[h].write { overwritten := overwritten + Rivals(chains, blockno, h); }
      value := value[h := data[chains[h].b]];
    }

    lemma HasValue(h: nat)
      requires ValuesOk(chains, value, data, store, blockno, overwritten, issued) && h in chains
      ensures h in value && chains[h].b in data && chains[h].b in blockno
    {
    }

    /** The used ring gets the request whose status byte has just been written. */
    method Report(h: nat, ghost info0: seq<Info>)
      requires PartitionOk(free, head, chains) && FormatsOk(chains, desc, ops, info0, blockno) && FreeEmpty(free, desc)
      requires h in chains && ChainInRange(h, chains[h]) && chains[h].phase == Taken && |info0| == |ops| == NUM
      requires info == info0[h := Info(info0[h].b, 0)] && data.Keys == blockno.Keys
      requires Counts(availIdx, taken + |avail|, UINT16) && Counts(lastAvail, taken, UINT16) &&
               RingOk(ring, avail, taken, NUM)
      requires QueueOk(avail, chains, InAvail)
      requires Counts(usedIdx, seen + |done|, UINT16) && Counts(usedSeen, seen, UINT16) && RingOk(used, done, seen, NUM)
      requires QueueOk(done, chains, InUsed)
      requires TicketsOk(chains, completed, issued, busy)
      requires ValuesOk(Moved(chains, h, InUsed), value, data, store, blockno, overwritten, issued)
      modifies this`used, this`usedIdx, this`chains, this`done
      ensures Valid() && chains == Moved(old(chains), h, InUsed) && done == old(done) + [h]
    {
      hide PartitionOk, FormatsOk, QueueOk, TicketsOk, FreeEmpty, RingOk, Counts, ValuesOk;
      MovedFormats(chains, desc, ops, info0, blockno, h, InUsed, info);
      MovedPartition(free, head, chains, h, InUsed);
      MovedTickets(chains, completed, issued, busy, h, InUsed);
      QueueShort(free, head, chains, done, InUsed);
      MovedPush(chains, done, avail, h, InUsed, InAvail);
      PushUsed(h);
      chains := Moved(chains, h, InUsed);
    }

    /** The device's reading of the descriptors. */
    method Transfer(h: nat)
      requires h in chains && FormatOk(h, chains[h], desc, ops, info, blockno) && data.Keys == blockno.Keys
      modifies this`data, this`store, this`info
      ensures info == old(info)[h := Info(old(info)[h].b, 0)] && data.Keys == blockno.Keys
      ensures var c := chains[h];
              && (c.write ==> store == old(store)[blockno[c.b] * 2 := old(data)[c.b]] && data == old(data))
              && (!c.write ==> data == old(data)[c.b := Sector(old(store), blockno[c.b] * 2)] && store == old(store))
    {
      var op := ops[desc[h].addr.i];
      var second := desc[desc[h].next];
      var third := desc[second.next];
      if op.write {
        store := store[op.sector := data[second.addr.b]];
      } else {
        data := data[second.addr.b := Sector(store, op.sector)];
      }
      info := info[third.addr.i := info[third.addr.i].(status := 0)];
    }

    method PushUsed(id: nat)
      requires Counts(usedIdx, seen + |done|, UINT16) && RingOk(used, done, seen, NUM) && |done| < NUM
      modifies this`used, this`usedIdx, this`done
      ensures done == old(done) + [id] && Counts(usedIdx, seen + |done|, UINT16) && RingOk(used, done, seen, NUM)
    {
      WrapSlot(seen + |done|, UINT16, NUM, UINT16 / NUM);
      RingPush(used, done, seen, NUM, id);
      WrapNext(seen + |done|, UINT16);
      used := used[usedIdx % NUM := id];
      usedIdx := (usedIdx + 1) % UINT16;
      done := done + [id];
    }

    /** One round of virtio_disk_intr's loop: the status is 0, the buffer is there, and its request has not been
        completed before. */
    method InterruptOne() returns (got: bool)
      requires Valid()
      modifies this`busy, this`usedSeen, this`chains, this`done, this`seen, this`completed
      ensures Valid() && (got <==> |old(done)| > 0)
      ensures !got ==> chains == old(chains) && done == old(done) && completed == old(completed) && busy == old(busy)
      ensures got ==> var h := old(done)[0];
                && done == old(done)[1..] && h in old(chains) && chains == Moved(old(chains), h, Done)
                && h < |info| && info[h] == Info(old(chains)[h].b, 0)
                && old(chains)[h].ticket !in old(completed) && completed == old(completed) + {old(chains)[h].ticket}
                && old(chains)[h].b in old(busy) && busy == old(busy) - {old(chains)[h].b}
    {
      hide PartitionOk, FormatsOk, QueueOk, TicketsOk, FreeEmpty, RingOk, Counts, ValuesOk;
      FreeSizes(free);
      QueueShort(free, head, chains, done, InUsed);
      UsedEmpty();
      got := usedSeen != usedIdx;
      if got {
        UsedFront();
        var id := used[usedSeen % NUM];
        FrontDone();
        hide Moved;
        Complete(id);
      }
    }

    /** What holds of the chains once the request at the front of the used ring is done. */
    lemma FrontDone()
      requires Valid() && |done| > 0
      ensures var h := done[0];
              && h in chains && h < NUM && info[h] == Info(chains[h].b, 0)
              && chains[h].ticket !in completed && chains[h].b in busy
              && PartitionOk(free, head, Moved(chains, h, Done))
              && FormatsOk(Moved(chains, h, Done), desc, ops, info, blockno)
              && QueueOk(avail, Moved(chains, h, Done), InAvail) && QueueOk(done[1..], Moved(chains, h, Done), InUsed)
              && TicketsOk(Moved(chains, h, Done), completed + {chains[h].ticket}, issued, busy - {chains[h].b})
              && ValuesOk(Moved(chains, h, Done), value, data, store, blockno, overwritten, issued)
    {
      hide PartitionOk, FormatsOk, QueueOk, TicketsOk, FreeEmpty, RingOk, Counts, ValuesOk;
      var h := done[0];
      FreeSizes(free);
      MovedPop(chains, done, avail, InUsed, Done, InAvail);
      ChainFacts(h);
      MovedFormats(chains, desc, ops, info, blockno, h, Done, info);
      MovedPartition(free, head, chains, h, Done);
      MovedTickets(chains, completed, issued, busy, h, Done);
      ValuesMoved(chains, value, data, store, blockno, overwritten, issued, h, Done);
    }

    lemma UsedEmpty()
      requires Counts(usedIdx, seen + |done|, UINT16) && Counts(usedSeen, seen, UINT16) && |done| <= NUM
      ensures usedSeen == usedIdx <==> done == []
    {
      WrapEqual(seen, seen + |done|, UINT16);
    }

    lemma UsedFront()
      requires Counts(usedSeen, seen, UINT16) && RingOk(used, done, seen, NUM) && |done| > 0
      ensures 0 <= usedSeen % NUM < |used| && used[usedSeen % NUM] == done[0] && RingOk(used, done[1..], seen + 1, NUM)
    {
      WrapSlot(seen, UINT16, NUM, UINT16 / NUM);
      RingPop(used, done, seen, NUM);
    }

    /** b->disk = 0, and the driver's own index moves on. */
    method Complete(id: nat)
      requires id in chains && |done| > 0 && id < |info| && info[id].b == chains[id].b && Counts(usedSeen, seen, UINT16)
      modifies this`busy, this`usedSeen, this`chains, this`done, this`seen, this`completed
      ensures busy == old(busy) - {old(chains)[id].b} && Counts(usedSeen, seen, UINT16) && seen == old(seen) + 1
      ensures done == old(done)[1..]
      ensures chains == Moved(old(chains), id, Done) && completed == old(completed) + {old(chains)[id].ticket}
    {
      var b := info[id].b;
      busy := busy - {b};
      WrapNext(seen, UINT16);
      usedSeen := (usedSeen + 1) % UINT16;
      completed := completed + {chains[id].ticket};
      chains, done, seen := Moved(chains, id, Done), done[1..], seen + 1;
    }

    /** virtio_disk_intr, when the device adds nothing meanwhile: exactly the requests in the used ring are completed,
        and nothing else about any request changes. */
    method Interrupt()
      requires Valid()
      modifies this`busy, this`usedSeen, this`chains, this`done, this`seen, this`completed
      ensures Valid() && done == []
      ensures DrainedTo(old(chains), old(completed), old(busy), old(done), chains, completed, busy)
    {
      hide ValidWith;
      ghost var k := 0;
      ghost var chains0, completed0, busy0, done0 := chains, completed, busy, done;
      while true
        invariant Valid() && 0 <= k <= |done0| && done == done0[k..]
        invariant DrainedTo(chains0, completed0, busy0, done0[..k], chains, completed, busy)
        decreases |done0| - k
      {
        ghost var chains1, completed1, busy1 := chains, completed, busy;
        var got := InterruptOne();
        if !got {
          assert done0[..k] == done0;
          return;
        }
        DrainOne(chains0, completed0, busy0, done0[..k], chains1, completed1, busy1, done0[k]);
        assert done0[..k] + [done0[k]] == done0[..k + 1];
        k := k + 1;
      }
    }

    /** free_chain over the three descriptors of a request. */
    method FreeChain(h: nat)
      requires h in chains && ChainInRange(h, chains[h]) && |free| == |desc| == NUM
      requires !free[h] && !free[chains[h].second] && !free[chains[h].third]
      requires desc[h].hasNext && desc[h].next == chains[h].second
      requires desc[chains[h].second].hasNext && desc[chains[h].second].next == chains[h].third
      requires !desc[chains[h].third].hasNext
      modifies this`free, this`desc
      ensures free == old(free)[h := true][chains[h].second := true][chains[h].third := true]
      ensures desc == old(desc)[h := EMPTY][chains[h].second := EMPTY][chains[h].third := EMPTY]
    {
      var i := h;
      ghost var c := chains[h];
      ghost var n := 0;
      while true
        invariant n < 3 && i == [h, c.second, c.third][n]
        invariant n == 0 ==> free == old(free) && desc == old(desc)
        invariant n == 1 ==> free == old(free)[h := true] && desc == old(desc)[h := EMPTY]
        invariant n == 2 ==>
                    free == old(free)[h := true][c.second := true] && desc == old(desc)[h := EMPTY][c.second := EMPTY]
        decreases 3 - n
      {
        var flag, nxt := desc[i].hasNext, desc[i].next;
        FreeDesc(i);
        if flag {
          i := nxt;
          n := n + 1;
        } else {
          break;
        }
      }
    }

    /** The end of virtio_disk_rw: a completed request gives back its descriptors. */
    method Finish(h: nat)
      requires Valid() && h in chains && chains[h].b !in busy
      modifies this`info, this`free, this`desc, this`chains, this`head
      ensures Valid() && chains == old(chains) - {h} && old(chains)[h].ticket in completed
      ensures var c := old(chains)[h];
              && h in value && c.b in data && c.b in blockno && data[c.b] == value[h]
              && (c.ticket !in overwritten ==> Sector(store, blockno[c.b] * 2) == data[c.b])
    {
      hide PartitionOk, FormatsOk, QueueOk, TicketsOk, FreeEmpty, RingOk, Counts, ValuesOk;
      FreeSizes(free);
      ChainFacts(h);
      DoneNow(h);
      ValuesDrop(h);
      hide ValueOk;
      info := info[h := info[h].(b := -1)];
      FreeChain(h);
      hide FormatOk, Unmarked;
      DroppedKeeps(old(free), head, chains, old(desc), ops, old(info), blockno, h, free, desc, info);
      Forget(h);
    }

    ghost method Forget(h: nat)
      requires h in chains && chains[h].phase == Done && |head| == NUM && ChainInRange(h, chains[h])
      requires QueueOk(avail, chains, InAvail) && QueueOk(done, chains, InUsed)
      requires TicketsOk(chains, completed, issued, busy)
      modifies this`head, this`chains
      ensures head == Unmarked(old(head), h, old(chains)[h]) && chains == old(chains) - {h}
      ensures old(chains)[h].ticket in completed
      ensures QueueOk(avail, chains, InAvail) && QueueOk(done, chains, InUsed)
      ensures TicketsOk(chains, completed, issued, busy)
    {
      hide QueueOk, TicketsOk, Unmarked;
      DroppedTickets(chains, completed, issued, busy, h);
      DroppedQueues(chains, avail, done, h);
      head, chains := Unmarked(head, h, chains[h]), chains - {h};
    }

    lemma ValuesDrop(h: nat)
      requires ValuesOk(chains, value, data, store, blockno, overwritten, issued) && h in chains &&
               chains[h].phase == Done
      ensures ValuesOk(chains - {h}, value, data, store, blockno, overwritten, issued)
      ensures h in value && ValueOk(chains[h], value[h], data, store, blockno, overwritten)
    {
    }

    /** The holder of a buffer without a request changes its contents. */
    method Modify(b: nat, v: int)
      requires Valid() && b in data && forall h :: h in chains ==> chains[h].b != b
      modifies this`data
      ensures Valid() && data == old(data)[b := v]
    {
      hide PartitionOk, FormatsOk, QueueOk, TicketsOk, FreeEmpty, RingOk, Counts;
      data := data[b := v];
    }

    lemma DoneNow(h: nat)
      requires Valid() && h in chains && chains[h].b !in busy
      ensures chains[h].phase == Done && ChainInRange(h, chains[h]) && !free[h] && !free[chains[h].second]
      ensures !free[chains[h].third]
    {
    }
  }
}
