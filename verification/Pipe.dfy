/** A pipe: a ring of 512 bytes between counters that wrap at 32 bits.

    Every method is what one process does between taking the pipe's lock, or waking up with it, and giving it
    up again, so any order of calls is an interleaving. `accepted` is everything ever written, of which the
    first `delivered` bytes have been read. */
module Pipe {
  import opened Ring

  const PIPESIZE: nat := 512
  const UINT32: nat := 0x1_0000_0000

  /** The ring holds the accepted bytes from lo on. */
  ghost predicate Holds(data: seq<int>, accepted: seq<int>, lo: nat) {
    lo <= |accepted| && RingOk(data, accepted[lo..], lo, PIPESIZE)
  }

  /** The two tests on the counters mean full and empty, whatever the counters have wrapped to. */
  lemma WrapTests(lo: nat, hi: nat)
    requires lo <= hi <= lo + PIPESIZE
    ensures hi % UINT32 == (lo % UINT32 + PIPESIZE) % UINT32 <==> hi == lo + PIPESIZE
    ensures lo % UINT32 == hi % UINT32 <==> lo == hi
  {
    WrapPlus(lo);
    WrapEqual(lo, hi, UINT32);
    WrapEqual(hi, lo + PIPESIZE, UINT32);
  }

  lemma WrapPlus(lo: nat)
    ensures (lo % UINT32 + PIPESIZE) % UINT32 == (lo + PIPESIZE) % UINT32
  {
  }

  /** The writers that store bytes and then die without waking anybody, told from what pipewrite is given: n bytes
      to write into an empty pipe whose read end is open, by a process that is found killed after `alive` of them,
      before the pipe is full, before the copy of byte `fault` fails, and before all is written. */
  predicate DiesMidWrite(readopen: bool, n: int, alive: nat, fault: int) {
    readopen && 0 < alive < n && alive <= PIPESIZE && !(0 <= fault < alive)
  }

  /** How a call ends: it returns, or it goes to sleep and will come back with the lock. */
  datatype Outcome = Returned(r: int) | Slept

  class Pipe {
    var data: seq<int>
    var nread: nat
    var nwrite: nat
    var readopen: bool
    var writeopen: bool
    var readers: set<nat>          // the processes asleep on &pi->nread
    var writers: set<nat>          // the processes asleep on &pi->nwrite
    ghost var accepted: seq<int>
    ghost var delivered: nat

    ghost predicate Valid()
      reads this
    {
      Core() && WritersOk()
    }

    ghost predicate Core()
      reads this
    {
      && Holds(data, accepted, delivered) && Counts(nread, delivered, UINT32) && Counts(nwrite, |accepted|, UINT32)
      && (readers != {} ==> readopen) && (writers != {} ==> writeopen)
    }

    predicate Full()
      reads this
    {
      nwrite == (nread + PIPESIZE) % UINT32
    }

    predicate Empty()
      reads this
    {
      nread == nwrite
    }

    /** A writer asleep has a reason to be. */
    ghost predicate WritersOk()
      reads this
    {
      writers != {} ==> |accepted| == delivered + PIPESIZE && readopen
    }

    /** A reader asleep has a reason to be. */
    ghost predicate ReadersOk()
      reads this
    {
      readers != {} ==> |accepted| == delivered && writeopen
    }

    /** pipealloc */
    constructor ()
      ensures Valid() && ReadersOk() && accepted == [] && delivered == 0 && readopen && writeopen && readers == {}
      ensures writers == {}
    {
      data := seq(PIPESIZE, _ => 0);
      nread, nwrite, readopen, writeopen := 0, 0, true, true;
      readers, writers := {}, {};
      accepted, delivered := [], 0;
    }

    /** What the tests on the counters say. */
    lemma Tests()
      requires Core()
      ensures Full() <==> |accepted| == delivered + PIPESIZE
      ensures Empty() <==> |accepted| == delivered
    {
      WrapTests(delivered, |accepted|);
    }

    method Put(ch: int)
      requires Core() && !Full()
      modifies this`data, this`nwrite, this`accepted
      ensures Holds(data, accepted, delivered) && Counts(nwrite, |accepted|, UINT32) && accepted == old(accepted) + [ch]
    {
      Tests();
      WrapSlot(|accepted|, UINT32, PIPESIZE, UINT32 / PIPESIZE);
      RingPush(data, accepted[delivered..], delivered, PIPESIZE, ch);
      assert (accepted + [ch])[delivered..] == accepted[delivered..] + [ch];
      WrapNext(|accepted|, UINT32);
      data := data[nwrite % PIPESIZE := ch];
      nwrite := (nwrite + 1) % UINT32;
      accepted := accepted + [ch];
    }

    /** pipewrite from byte i0 on, until it returns or sleeps. killed(pr) turns true after `alive` tests, and the
        copy of byte `fault` fails. Whoever sleeps keeps a reason to, except for readers that were asleep when a
        writer is killed after it has stored bytes: they are not woken. */
    method Write(pid: nat, src: seq<int>, i0: nat, alive: nat, fault: nat) returns (i: nat, o: Outcome)
      requires Valid() && i0 <= |src| && writeopen
      modifies this`data, this`nwrite, this`readers, this`writers, this`accepted
      ensures Valid() && i0 <= i <= |src| && i - i0 <= alive && accepted == old(accepted) + src[i0..i]
      ensures (i > i0 ==> readopen) && !(i0 <= fault < i)
      ensures o == if i == |src| then Returned(i)
                   else if !readopen || i - i0 == alive then Returned(-1)
                   else if |accepted| == delivered + PIPESIZE then Slept else Returned(i)
      ensures i < |src| && o == Returned(i) ==> i == fault
      ensures writers == if o.Slept? then old(writers) + {pid} else old(writers)
      ensures readers == if o == Returned(-1) then old(readers) else {}
      ensures old(ReadersOk()) ==>
                (ReadersOk() <==> !(old(readers) != {} && DiesMidWrite(readopen, |src| - i0, alive, fault - i0)))
    {
      i := i0;
      while i < |src|
        invariant i0 <= i <= |src| && Valid() && accepted == old(accepted) + src[i0..i]
        invariant readers == old(readers) && writers == old(writers) && i - i0 <= alive
        invariant (i > i0 ==> readopen) && !(i0 <= fault < i)
        invariant old(ReadersOk()) && old(readers) != {} ==> |accepted| - delivered == i - i0
      {
        Tests();
        if !readopen || i - i0 == alive {
          return i, Returned(-1);
        }
        if Full() {
          readers := {};
          writers := writers + {pid};
          return i, Slept;
        } else {
          if i == fault {
            break;
          }
          Put(src[i]);
          assert src[i0..i] + [src[i]] == src[i0..i + 1];
          i := i + 1;
        }
      }
      readers := {};
      o := Returned(i);
    }

    method Get() returns (ch: int)
      requires Core() && |accepted| > delivered
      modifies this`nread, this`delivered
      ensures Holds(data, accepted, delivered) && Counts(nread, delivered, UINT32) && delivered == old(delivered) + 1
      ensures ch == accepted[old(delivered)]
    {
      WrapSlot(delivered, UINT32, PIPESIZE, UINT32 / PIPESIZE);
      RingPop(data, accepted[delivered..], delivered, PIPESIZE);
      assert accepted[delivered..][1..] == accepted[delivered + 1..];
      WrapNext(delivered, UINT32);
      ch := data[nread % PIPESIZE];
      nread := (nread + 1) % UINT32;
      delivered := delivered + 1;
    }

    /** piperead until it returns or sleeps: what it copies out are the next bytes written, in order. The copy of
        byte `fault` fails. */
    method Read(pid: nat, n: int, killed: bool, fault: nat) returns (out: seq<int>, o: Outcome)
      requires Valid() && readopen
      modifies this`nread, this`readers, this`writers, this`delivered
      ensures Valid() && delivered == old(delivered) + |out| && delivered <= |accepted|
      ensures out == accepted[old(delivered)..delivered] && |out| <= fault
      ensures |out| == n || (n <= 0 && out == []) || (|out| < n && (|accepted| == delivered || |out| == fault))
      ensures o == if |accepted| == old(delivered) && writeopen then (if killed then Returned(-1) else Slept)
                   else if fault == 0 < n && |accepted| > delivered then Returned(-1) else Returned(|out|)
      ensures writers == if |accepted| == old(delivered) && writeopen then old(writers) else {}
      ensures readers == if o.Slept? then old(readers) + {pid} else old(readers)
      ensures old(ReadersOk()) ==> ReadersOk()
    {
      Tests();
      if Empty() && writeopen {
        if killed {
          return [], Returned(-1);
        }
        readers := readers + {pid};
        return [], Slept;
      }
      out := [];
      var i := 0;
      while i < n
        invariant 0 <= i == |out| && Core() && (i <= n || i == 0) && i <= fault &&
                  delivered == old(delivered) + i <= |accepted|
        invariant out == accepted[old(delivered)..delivered] && readers == old(readers) && writers == old(writers)
      {
        Tests();
        if Empty() {
          break;
        }
        if |out| == fault {
          if i == 0 {
            i := -1;
          }
          break;
        }
        var ch := Get();
        out := out + [ch];
        i := i + 1;
      }
      writers := {};
      o := Returned(i);
    }

    /** pipeclose by the last holder of one end. It frees the pipe exactly when the other end is closed too, and
        then nobody sleeps on it. */
    method Close(writable: bool) returns (freed: bool)
      requires Valid() && (if writable then writers == {} else readers == {})
      modifies this`readopen, this`writeopen, this`readers, this`writers
      ensures Valid() && readopen == (old(readopen) && writable) && writeopen == (old(writeopen) && !writable)
      ensures freed == (!readopen && !writeopen) && (freed ==> readers == {} && writers == {})
      ensures old(ReadersOk()) ==> ReadersOk()
      ensures if writable then readers == {} else writers == {}
    {
      if writable {
        writeopen := false;
        readers := {};
      } else {
        readopen := false;
        writers := {};
      }
      freed := !readopen && !writeopen;
    }
  }

  /** The exception is real: a reader left asleep although the pipe holds a byte and both ends are open. */
  method KilledMidWrite() returns (p: Pipe)
    ensures fresh(p) && p.Valid() && p.readers != {} && |p.accepted| > p.delivered && p.writeopen && !p.ReadersOk()
  {
    p := new Pipe();
    var out, o := p.Read(1, 1, false, 1);
    var i, o' := p.Write(2, [65, 66], 0, 1, 2);
  }
}
