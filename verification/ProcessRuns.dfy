/** What the system calls and the scheduler promise over whole runs (kernel/proc.c, kernel/trap.c): who may change the
    entry of a process and when, and for what reasons a call returns. */
module ProcessRuns {
  import Mlfq
  import opened Processes

  // ---- who may change the entry of a process ----------------------------------------------------------------

  /** The thread of p may turn entry i from a into b, as far as its state goes. */
  ghost predicate StateMove(s: Sys, p: nat, ok: bool, i: nat, a: Proc, b: Proc)
    requires p < |s.procs|
  {
    var pc := s.procs[p].pc;
    || b.state == a.state
    || (a.state == Unused && b.state == Used && pc == ForkCheck(i))
    || (a.state == Used && b.state == Runnable && pc == ForkReady(i))
    || (a.state == Used && b.state == Unused && pc == ForkCopy(i) && !ok)
    || (a.state == Running && b.state == Runnable && i == p && pc.YieldSet?)
    || (a.state == Running && b.state == Sleeping && i == p && pc.SleepSet? && b.chan == ChanOf(p, pc.l))
    || (a.state == Sleeping && b.state == Runnable && pc.WakeCheck? && pc.i == i && a.chan == Target(pc.k, s.initproc))
    || (a.state == Sleeping && b.state == Runnable && pc == KillCheck(i, a.pid))
    || (a.state == Running && b.state == Zombie && i == p && pc.ExitSet?)
    || (a.state == Zombie && b.state == Unused && pc == WaitChild(i) && a.parent == p && ok)
  }

  /** The slot is given back. */
  predicate GivenUp(a: Proc, b: Proc) {
    a.state != Unused && b.state == Unused && b.parent == -1 && !b.killed && b.pid == 0
  }

  /** The other fields: the parent is set by fork and reparent, the mark by kkill, the number and the level by
      allocproc, and the level by a timer tick, always and by exactly one charge. */
  ghost predicate FieldMove(s: Sys, p: nat, op: Op, i: nat, a: Proc, b: Proc)
    requires p < |s.procs|
  {
    var pc := s.procs[p].pc;
    var born := pc == ForkCheck(i) && a.state == Unused;
    && (b.parent == a.parent || (pc == ForkParent(i) && b.parent == p) || GivenUp(a, b) ||
        (pc == Reparent(i) && a.parent == p && b.parent == s.initproc))
    && (b.killed == a.killed || (b.killed && pc == KillCheck(i, a.pid)) || GivenUp(a, b))
    && (b.pid == a.pid || (born && b.pid == s.nextpid) || GivenUp(a, b))
    && b.level == if i == p && pc.Run? && op.Tick? then Mlfq.Charge(a.level) else if born then Mlfq.Fresh() else a.level
  }

  ghost predicate ThreadMove(s: Sys, p: nat, ch: Choice, i: nat, a: Proc, b: Proc)
    requires p < |s.procs|
  {
    StateMove(s, p, ch.ok, i, a, b) && FieldMove(s, p, ch.op, i, a, b)
  }

  /** A CPU without a process: its scheduler runs a runnable process of the priority it is scanning for, and a handler
      wakes a sleeper on its condition. */
  predicate IdleMove(at: SchedPc, i: nat, a: Proc, b: Proc) {
    && b.parent == a.parent && b.killed == a.killed && b.pid == a.pid && b.level == a.level && b.chan == a.chan
    && (|| b.state == a.state
        || (a.state == Runnable && b.state == Running && at.Check? && at.i == i && a.level.priority == at.priority)
        || (a.state == Sleeping && b.state == Runnable && at.IntrCheck? && at.i == i && a.chan == OfCond(at.l)))
  }

  ghost predicate Legal(s: Sys, c: nat, ch: Choice, i: nat, b: Proc)
    requires Shape(s) && c < |s.cpus| && i < |s.procs|
  {
    if s.cpus[c].at.InProc? then ThreadMove(s, s.cpus[c].proc, ch, i, s.procs[i], b)
    else IdleMove(s.cpus[c].at, i, s.procs[i], b)
  }

  /** Only the point or the lock of an entry changes. */
  predicate SameEntry(a: Proc, b: Proc) {
    b == a.(pc := b.pc, lock := b.lock)
  }

  lemma SameIsLegal(s: Sys, p: nat, ch: Choice, i: nat, a: Proc, b: Proc)
    requires p < |s.procs| && SameEntry(a, b) && !(i == p && s.procs[p].pc.Run? && ch.op.Tick?)
    requires !(s.procs[p].pc == ForkCheck(i) && a.state == Unused)
    ensures ThreadMove(s, p, ch, i, a, b)
  {
  }

  lemma StartLegal(s: Sys, c: nat, p: nat, ch: Choice, i: nat)
    requires Shape(s) && p < |s.procs| && i < |s.procs| && s.procs[p].pc.Run?
    ensures ThreadMove(s, p, ch, i, s.procs[i], StartStep(s, p, ch.op).procs[i])
  {
    hide PcInRange;
  }

  lemma YieldLegal(s: Sys, c: nat, p: nat, ch: Choice, i: nat)
    requires Shape(s) && p < |s.procs| && c < |s.cpus| && i < |s.procs|
    requires (Yielding(s.procs[p].pc) || s.procs[p].pc.ForkRet?) && s.procs[p].state == StateAt(s.procs[p].pc)
    ensures ThreadMove(s, p, ch, i, s.procs[i], YieldStep(s, c, p).procs[i])
  {
    hide PcInRange;
  }

  lemma SleepLegal(s: Sys, c: nat, p: nat, ch: Choice, i: nat)
    requires Shape(s) && p < |s.procs| && c < |s.cpus| && i < |s.procs|
    requires SleepPoint(s.procs[p].pc) && s.procs[p].state == StateAt(s.procs[p].pc)
    ensures ThreadMove(s, p, ch, i, s.procs[i], SleepStep(s, c, p, ch.ok).procs[i])
  {
    hide ThreadMove;
    var a, b := s.procs[i], SleepStep(s, c, p, ch.ok).procs[i];
    if s.procs[p].pc.SleepSet? && i == p {
      SleepSetLegal(s, c, p, ch);
    } else if s.procs[p].pc.SleepBack? && i == p {
      SleepBackLegal(s, c, p, ch);
    } else {
      SleepSame(s, c, p, ch.ok, i);
      SameIsLegal(s, p, ch, i, a, b);
    }
  }

  lemma SleepSame(s: Sys, c: nat, p: nat, ok: bool, i: nat)
    requires Shape(s) && p < |s.procs| && c < |s.cpus| && i < |s.procs|
    requires SleepPoint(s.procs[p].pc) && !((s.procs[p].pc.SleepSet? || s.procs[p].pc.SleepBack?) && i == p)
    ensures SameEntry(s.procs[i], SleepStep(s, c, p, ok).procs[i])
  {
    hide Idle;
  }

  lemma SleepSetLegal(s: Sys, c: nat, p: nat, ch: Choice)
    requires Shape(s) && p < |s.procs| && c < |s.cpus| && s.procs[p].pc.SleepSet? && s.procs[p].state == Running
    ensures ThreadMove(s, p, ch, p, s.procs[p], SleepStep(s, c, p, ch.ok).procs[p])
  {
    hide PcInRange;
  }

  lemma SleepBackLegal(s: Sys, c: nat, p: nat, ch: Choice)
    requires Shape(s) && p < |s.procs| && c < |s.cpus| && s.procs[p].pc.SleepBack?
    ensures ThreadMove(s, p, ch, p, s.procs[p], SleepStep(s, c, p, ch.ok).procs[p])
  {
    hide PcInRange;
  }

  lemma WakeLegal(s: Sys, c: nat, p: nat, ch: Choice, i: nat)
    requires Shape(s) && p < |s.procs| && c < |s.cpus| && i < |s.procs|
    requires s.procs[p].pc.WakeNext? || s.procs[p].pc.WakeCheck?
    ensures ThreadMove(s, p, ch, i, s.procs[i], WakeStep(s, c, p).procs[i])
  {
    hide Idle, Origin;
  }

  lemma ExitLegal(s: Sys, c: nat, p: nat, ch: Choice, i: nat)
    requires Shape(s) && p < |s.procs| && c < |s.cpus| && i < |s.procs|
    requires ExitPoint(s.procs[p].pc) && s.procs[p].state == StateAt(s.procs[p].pc)
    ensures ThreadMove(s, p, ch, i, s.procs[i], ExitStep(s, c, p).procs[i])
  {
    hide Idle, Origin;
  }

  lemma WaitLegal(s: Sys, c: nat, p: nat, ch: Choice, i: nat)
    requires Shape(s) && p < |s.procs| && c < |s.cpus| && i < |s.procs|
    requires WaitPoint(s.procs[p].pc) && WaitClaim(s, p) && s.procs[p].state == Running
    ensures ThreadMove(s, p, ch, i, s.procs[i], WaitStep(s, c, p, ch.ok).procs[i])
  {
    hide ThreadMove, NoKids, NoZombieKids, HasKid;
    if s.procs[p].pc == WaitChild(i) && s.procs[i].state == Zombie {
      WaitedLegal(s, c, p, ch, i);
    } else {
      WaitSame(s, c, p, ch.ok, i);
      SameIsLegal(s, p, ch, i, s.procs[i], WaitStep(s, c, p, ch.ok).procs[i]);
    }
  }

  lemma WaitSame(s: Sys, c: nat, p: nat, ok: bool, i: nat)
    requires Shape(s) && p < |s.procs| && c < |s.cpus| && i < |s.procs|
    requires WaitPoint(s.procs[p].pc) && !(s.procs[p].pc == WaitChild(i) && s.procs[i].state == Zombie)
    ensures SameEntry(s.procs[i], WaitStep(s, c, p, ok).procs[i])
  {
    hide Idle, Origin;
  }

  lemma WaitedLegal(s: Sys, c: nat, p: nat, ch: Choice, i: nat)
    requires Shape(s) && p < |s.procs| && c < |s.cpus| && i < |s.procs| && s.procs[p].pc == WaitChild(i)
    requires s.procs[i].state == Zombie && s.procs[i].parent == p && s.procs[p].state == Running
    ensures ThreadMove(s, p, ch, i, s.procs[i], WaitStep(s, c, p, ch.ok).procs[i])
  {
    hide PcInRange;
  }

  lemma ForkLegal(s: Sys, c: nat, p: nat, ch: Choice, i: nat)
    requires Shape(s) && p < |s.procs| && c < |s.cpus| && i < |s.procs| && ForkPoint(s.procs[p].pc)
    requires ForkClaim(s, p) && s.procs[p].state == Running
    ensures ThreadMove(s, p, ch, i, s.procs[i], ForkStep(s, c, p, ch.ok).procs[i])
  {
    hide ThreadMove, ForkClaim;
    var pc := s.procs[p].pc;
    if pc == ForkCheck(i) || pc == ForkCopy(i) || pc == ForkParent(i) || pc == ForkReady(i) {
      ForkedLegal(s, c, p, ch, i);
    } else {
      ForkSame(s, c, p, ch.ok, i);
      SameIsLegal(s, p, ch, i, s.procs[i], ForkStep(s, c, p, ch.ok).procs[i]);
    }
  }

  lemma ForkSame(s: Sys, c: nat, p: nat, ok: bool, i: nat)
    requires Shape(s) && p < |s.procs| && c < |s.cpus| && i < |s.procs| && ForkPoint(s.procs[p].pc)
    requires var pc := s.procs[p].pc; pc != ForkCheck(i) && pc != ForkCopy(i) && pc != ForkParent(i) &&
                                      pc != ForkReady(i)
    ensures SameEntry(s.procs[i], ForkStep(s, c, p, ok).procs[i])
  {
    hide Idle, Origin;
  }

  lemma ForkedLegal(s: Sys, c: nat, p: nat, ch: Choice, i: nat)
    requires Shape(s) && p < |s.procs| && c < |s.cpus| && i < |s.procs| && ForkClaim(s, p) &&
             s.procs[p].state == Running
    requires var pc := s.procs[p].pc; pc == ForkCheck(i) || pc == ForkCopy(i) || pc == ForkParent(i) ||
                                      pc == ForkReady(i)
    ensures ThreadMove(s, p, ch, i, s.procs[i], ForkStep(s, c, p, ch.ok).procs[i])
  {
    hide PcInRange;
  }

  lemma KillLegal(s: Sys, c: nat, p: nat, ch: Choice, i: nat)
    requires Shape(s) && p < |s.procs| && c < |s.cpus| && i < |s.procs|
    requires s.procs[p].pc.KillScan? || s.procs[p].pc.KillCheck?
    ensures ThreadMove(s, p, ch, i, s.procs[i], KillStep(s, c, p).procs[i])
  {
    hide ThreadMove;
    if s.procs[p].pc == KillCheck(i, s.procs[i].pid) {
      KilledLegal(s, c, p, ch, i);
    } else {
      KillSame(s, c, p, i);
      SameIsLegal(s, p, ch, i, s.procs[i], KillStep(s, c, p).procs[i]);
    }
  }

  lemma KillSame(s: Sys, c: nat, p: nat, i: nat)
    requires Shape(s) && p < |s.procs| && c < |s.cpus| && i < |s.procs|
    requires s.procs[p].pc.KillScan? || s.procs[p].pc.KillCheck?
    requires s.procs[p].pc != KillCheck(i, s.procs[i].pid)
    ensures SameEntry(s.procs[i], KillStep(s, c, p).procs[i])
  {
    hide Idle, Origin;
  }

  lemma KilledLegal(s: Sys, c: nat, p: nat, ch: Choice, i: nat)
    requires Shape(s) && p < |s.procs| && c < |s.cpus| && i < |s.procs| && s.procs[p].pc == KillCheck(i, s.procs[i].pid)
    ensures ThreadMove(s, p, ch, i, s.procs[i], KillStep(s, c, p).procs[i])
  {
    hide PcInRange;
  }

  lemma InterruptLegal(s: Sys, p: nat, ch: Choice, i: nat, pc: Pc)
    requires p < |s.procs| && i < |s.procs| && (ch.op.Preempt? || ch.op.Signal?) && Idle(s.procs[p].pc)
    ensures ThreadMove(s, p, ch, i, s.procs[i], Go(s, p, pc).procs[i])
  {
  }

  lemma ThreadLegal(s: Sys, c: nat, p: nat, ch: Choice, i: nat)
    requires Inv(s) && Processes.Runs(s, c, p) && i < |s.procs|
    ensures ThreadMove(s, p, ch, i, s.procs[i], ProcStep(s, c, p, ch).procs[i])
  {
    hide TableOk, LocksOk, FamilyOk, PendingOk, ClaimsOk, StartStep, YieldStep, SleepStep, WakeStep, ExitStep, WaitStep,
         ForkStep, KillStep, ThreadMove, WaitClaim, ForkClaim, PcInRange, Go;
    StateNow(s, c, p);
    ClaimNow(s, p);
    var pc := s.procs[p].pc;
    if ch.op.Preempt? && Idle(pc) {
      InterruptLegal(s, p, ch, i, YieldAcq(pc));
    } else if ch.op.Signal? && 0 < ch.op.l < |s.locks| && Idle(pc) {
      InterruptLegal(s, p, ch, i, SignalAcq(ch.op.l, pc));
    } else if pc.Run? {
      StartLegal(s, c, p, ch, i);
    } else if Yielding(pc) || pc.ForkRet? {
      YieldLegal(s, c, p, ch, i);
    } else if pc.WakeNext? || pc.WakeCheck? {
      WakeLegal(s, c, p, ch, i);
    } else if ExitPoint(pc) {
      ExitLegal(s, c, p, ch, i);
    } else if WaitPoint(pc) {
      WaitLegal(s, c, p, ch, i);
    } else if ForkPoint(pc) {
      ForkLegal(s, c, p, ch, i);
    } else if pc.KillScan? || pc.KillCheck? {
      KillLegal(s, c, p, ch, i);
    } else {
      SleepLegal(s, c, p, ch, i);
    }
  }

  lemma IdleLegal(s: Sys, c: nat, ch: Choice, i: nat)
    requires Shape(s) && c < |s.cpus| && i < |s.procs| && !s.cpus[c].at.InProc?
    ensures IdleMove(s.cpus[c].at, i, s.procs[i], IdleStep(s, c, ch).procs[i])
  {
    hide PcInRange;
  }

  /** Whatever a CPU does, the entry of a process changes only in the ways the kernel has for it. */
  lemma StepLegal(s: Sys, c: nat, ch: Choice, i: nat)
    requires Inv(s) && c < |s.cpus| && i < |s.procs|
    ensures Legal(s, c, ch, i, Step(s, c, ch).procs[i])
  {
    hide TableOk, LocksOk, FamilyOk, PendingOk, ClaimsOk, ProcStep, IdleStep, ThreadMove, IdleMove, PcInRange;
    if s.cpus[c].at.InProc? {
      ThreadLegal(s, c, s.cpus[c].proc, ch, i);
    } else {
      IdleLegal(s, c, ch, i);
    }
  }

  // ---- runs -------------------------------------------------------------------------------------------------

  /** The run is one of the system's: every CPU named is there. */
  predicate IsSchedule(s: Sys, schedule: seq<(nat, Choice)>) {
    forall k :: 0 <= k < |schedule| ==> schedule[k].0 < |s.cpus|
  }

  /** The state after k steps. */
  ghost function At(s: Sys, schedule: seq<(nat, Choice)>, k: nat): (t: Sys)
    requires Inv(s) && IsSchedule(s, schedule) && k <= |schedule|
    ensures Inv(t) && |t.cpus| == |s.cpus| && |t.procs| == |s.procs|
  {
    Reached(s, schedule[..k])
  }

  lemma AtNext(s: Sys, schedule: seq<(nat, Choice)>, k: nat)
    requires Inv(s) && IsSchedule(s, schedule) && k < |schedule|
    ensures At(s, schedule, k + 1) == Step(At(s, schedule, k), schedule[k].0, schedule[k].1)
  {
    hide Inv, Step;
    var next := schedule[..k + 1];
    assert next[..|next| - 1] == schedule[..k] && next[|next| - 1] == schedule[k];
  }

  lemma AtStart(s: Sys, schedule: seq<(nat, Choice)>)
    requires Inv(s) && IsSchedule(s, schedule)
    ensures At(s, schedule, 0) == s
  {
    hide Inv;
    assert schedule[..0] == [];
  }

  /** The point of process p after k steps. */
  ghost function PcAt(s: Sys, schedule: seq<(nat, Choice)>, k: nat, p: nat): Pc
    requires Inv(s) && IsSchedule(s, schedule) && k <= |schedule| && p < |s.procs|
  {
    At(s, schedule, k).procs[p].pc
  }

  // ---- the level of a process -------------------------------------------------------------------------------

  /** A timer tick in user mode, charged to p. */
  predicate TicksNow(s: Sys, c: nat, ch: Choice, p: nat)
    requires c < |s.cpus| && p < |s.procs|
  {
    s.cpus[c] == Cpu(p, InProc) && s.procs[p].pc.Run? && ch.op.Tick?
  }

  /** The ticks charged to p in the first k steps. */
  ghost function TicksIn(s: Sys, schedule: seq<(nat, Choice)>, k: nat, p: nat): nat
    requires Inv(s) && IsSchedule(s, schedule) && k <= |schedule| && p < |s.procs|
  {
    if k == 0 then 0
    else
      TicksIn(s, schedule, k - 1, p) +
      if TicksNow(At(s, schedule, k - 1), schedule[k - 1].0, schedule[k - 1].1, p) then 1 else 0
  }

  lemma ChargeAfter(k: nat)
    ensures Mlfq.Charge(Mlfq.After(k)) == Mlfq.After(k + 1)
  {
  }

  lemma LevelStep(s: Sys, c: nat, ch: Choice, p: nat)
    requires Inv(s) && c < |s.cpus| && p < |s.procs| && s.procs[p].state != Unused
    ensures Step(s, c, ch).procs[p].level ==
            if TicksNow(s, c, ch, p) then Mlfq.Charge(s.procs[p].level) else s.procs[p].level
  {
    hide Inv, Step, StateMove, Shape;
    InvShape(s);
    StepLegal(s, c, ch, p);
  }

  lemma InvShape(s: Sys)
    requires Inv(s)
    ensures Shape(s)
  {
  }

  /** The level of a process is that of the ticks it has been charged: in any run, as long as its slot stays in use. */
  lemma {:induction false} LevelCountsTicks(s: Sys, schedule: seq<(nat, Choice)>, k: nat, p: nat, had: nat)
    requires Inv(s) && IsSchedule(s, schedule) && k <= |schedule| && p < |s.procs|
    requires s.procs[p].level == Mlfq.After(had)
    requires forall j :: 0 <= j < k ==> At(s, schedule, j).procs[p].state != Unused
    ensures At(s, schedule, k).procs[p].level == Mlfq.After(had + TicksIn(s, schedule, k, p))
  {
    hide Inv, Step, Mlfq.After, Mlfq.Charge;
    if k == 0 {
      AtStart(s, schedule);
    } else {
      LevelCountsTicks(s, schedule, k - 1, p, had);
      AtNext(s, schedule, k - 1);
      LevelStep(At(s, schedule, k - 1), schedule[k - 1].0, schedule[k - 1].1, p);
      ChargeAfter(had + TicksIn(s, schedule, k - 1, p));
    }
  }

  // ---- the order in which a scheduler looks -----------------------------------------------------------------

  predicate Earlier(r: nat, j: nat, priority: nat, i: nat) {
    r < priority || (r == priority && j < i)
  }

  /** At step k of the run the scheduler of CPU c looked at process j for priority r and did not want it. */
  ghost predicate Unwanted(t: Sys, c: nat, r: nat, j: nat)
    requires c < |t.cpus|
  {
    && t.cpus[c].at == Check(r, j) && j < |t.procs|
    && !(t.procs[j].state == Runnable && t.procs[j].level.priority == r)
  }

  ghost predicate PassedBy(s: Sys, schedule: seq<(nat, Choice)>, k: nat, c: nat, r: nat, j: nat)
    requires Inv(s) && IsSchedule(s, schedule) && k <= |schedule| && c < |s.cpus|
  {
    exists m :: 0 <= m < k && Unwanted(At(s, schedule, m), c, r, j)
  }

  /** Where the scan of CPU c goes in one step. */
  lemma ScanStep(s: Sys, c: nat, ch: Choice)
    requires Inv(s) && c < |s.cpus| && (s.cpus[c].at.Scan? || s.cpus[c].at.Check?)
    ensures var at, at' := s.cpus[c].at, Step(s, c, ch).cpus[c].at;
            match at
            case Scan(r, i) =>
              at' == at || at' == Scan(0, 0) || at'.IntrAcq? || (at' == Check(r, i) && r < 3) ||
              (at' == Scan(r + 1, 0) && i == |s.procs|)
            case Check(r, i) => at' == Switching || (at' == Scan(r, i + 1) && Unwanted(s, c, r, i))
            case _ => true
  {
    hide TableOk, LocksOk, FamilyOk, PendingOk, ClaimsOk, PcInRange, ProcStep, HandlerStep;
  }

  lemma OtherCpu(s: Sys, c: nat, d: nat, ch: Choice)
    requires Inv(s) && c < |s.cpus| && d < |s.cpus| && c != d
    ensures Step(s, d, ch).cpus[c] == s.cpus[c]
  {
    hide TableOk, LocksOk, FamilyOk, PendingOk, ClaimsOk, StartStep, YieldStep, SleepStep, WakeStep, ExitStep, WaitStep,
         ForkStep, KillStep, SchedStep, HandlerStep;
    OtherCpuIdle(s, c, d);
    if s.cpus[d].at.InProc? {
      var p := s.cpus[d].proc;
      StateNow(s, d, p);
      OtherCpuCalls(s, c, d, p, ch);
      OtherCpuFamily(s, c, d, p, ch.ok);
    }
  }

  lemma OtherCpuIdle(s: Sys, c: nat, d: nat)
    requires Shape(s) && c < |s.cpus| && d < |s.cpus| && c != d
    ensures SchedStep(s, d).cpus[c] == s.cpus[c] && HandlerStep(s, d).cpus[c] == s.cpus[c]
  {
    hide PcInRange;
  }

  lemma OtherCpuCalls(s: Sys, c: nat, d: nat, p: nat, ch: Choice)
    requires Shape(s) && c < |s.cpus| && d < |s.cpus| && c != d && p < |s.procs|
    ensures StartStep(s, p, ch.op).cpus[c] == s.cpus[c] && YieldStep(s, d, p).cpus[c] == s.cpus[c]
    ensures SleepStep(s, d, p, ch.ok).cpus[c] == s.cpus[c]
  {
    hide Idle, Origin;
  }

  lemma OtherCpuFamily(s: Sys, c: nat, d: nat, p: nat, ok: bool)
    requires Shape(s) && c < |s.cpus| && d < |s.cpus| && c != d && p < |s.procs|
    ensures WakeStep(s, d, p).cpus[c] == s.cpus[c] && ExitStep(s, d, p).cpus[c] == s.cpus[c]
    ensures WaitStep(s, d, p, ok).cpus[c] == s.cpus[c] && ForkStep(s, d, p, ok).cpus[c] == s.cpus[c]
    ensures KillStep(s, d, p).cpus[c] == s.cpus[c]
  {
    hide Idle, Origin;
  }

  /** A scheduler that comes to look at process i for priority r has looked at every process for every lower priority
      number, and at those before i for this one, and wanted none of them: in one pass from the top of its loop,
      whatever the other CPUs do meanwhile. */
  lemma {:induction false} ScansInOrder(s: Sys, schedule: seq<(nat, Choice)>, k: nat, c: nat)
    requires Inv(s) && IsSchedule(s, schedule) && k <= |schedule| && c < |s.cpus| && s.cpus[c].at == Scan(0, 0)
    requires forall m :: 0 < m <= k ==> At(s, schedule, m).cpus[c].at != Scan(0, 0)
    requires forall m :: 0 < m <= k ==> At(s, schedule, m).cpus[c].at.Scan? || At(s, schedule, m).cpus[c].at.Check?
    ensures var at := At(s, schedule, k).cpus[c].at;
            && (at.Scan? || at.Check?)
            && forall r: nat, j: nat :: Earlier(r, j, at.priority, at.i) && j < |s.procs| ==>
                                          PassedBy(s, schedule, k, c, r, j)
  {
    hide Inv, Step, Unwanted;
    if k == 0 {
      AtStart(s, schedule);
    } else {
      ScansInOrder(s, schedule, k - 1, c);
      AtNext(s, schedule, k - 1);
      var t, d, ch := At(s, schedule, k - 1), schedule[k - 1].0, schedule[k - 1].1;
      if d == c { ScanStep(t, c, ch); } else { OtherCpu(t, c, d, ch); }
      var at, at' := t.cpus[c].at, At(s, schedule, k).cpus[c].at;
      forall r: nat, j: nat | Earlier(r, j, at'.priority, at'.i) && j < |s.procs|
        ensures PassedBy(s, schedule, k, c, r, j)
      {
        if Earlier(r, j, at.priority, at.i) {
          PassedLater(s, schedule, k - 1, c, r, j);
        } else {
          assert Unwanted(At(s, schedule, k - 1), c, r, j);
        }
      }
    }
  }

  /** How a pass of the scheduler ends: with a process that was runnable at the priority looked for, when every process
      of a smaller priority number and every earlier one of the same was passed by, or back at the top, when every
      process was passed by at every priority. */
  lemma PassEnds(s: Sys, schedule: seq<(nat, Choice)>, k: nat, c: nat)
    requires Inv(s) && IsSchedule(s, schedule) && 0 < k < |schedule| && c < |s.cpus| && s.cpus[c].at == Scan(0, 0)
    requires forall m :: 0 < m <= k ==> At(s, schedule, m).cpus[c].at != Scan(0, 0)
    requires forall m :: 0 < m <= k ==> At(s, schedule, m).cpus[c].at.Scan? || At(s, schedule, m).cpus[c].at.Check?
    requires schedule[k].0 == c
    ensures var u, u' := At(s, schedule, k), At(s, schedule, k + 1).cpus[c];
            && (u'.at.Scan? || u'.at.Check? || u'.at.Switching?)
            && (u'.at == Scan(0, 0) ==>
                  forall r: nat, j: nat :: r < 3 && j < |s.procs| ==> PassedBy(s, schedule, k, c, r, j))
            && (u'.at.Switching? ==>
                  && 0 <= u'.proc < |s.procs| && u.procs[u'.proc].state == Runnable
                  && forall r: nat, j: nat ::
                       Earlier(r, j, u.procs[u'.proc].level.priority, u'.proc) && j < |s.procs| ==>
                         PassedBy(s, schedule, k, c, r, j))
  {
    hide Inv, Step, Unwanted, At;
    ScansInOrder(s, schedule, k, c);
    AtNext(s, schedule, k);
    EndStep(At(s, schedule, k), c, schedule[k].1);
  }

  lemma EndStep(s: Sys, c: nat, ch: Choice)
    requires Inv(s) && c < |s.cpus| && (s.cpus[c].at.Scan? || s.cpus[c].at.Check?) && s.cpus[c].at != Scan(0, 0)
    ensures var at, u := s.cpus[c].at, Step(s, c, ch).cpus[c];
            && (u.at.Scan? || u.at.Check? || u.at.Switching?)
            && (u.at == Scan(0, 0) ==> at.Scan? && at.priority >= 3)
            && (u.at.Switching? ==> at.Check? && u.proc == at.i < |s.procs| && s.procs[at.i].state == Runnable &&
                                    s.procs[at.i].level.priority == at.priority)
  {
    hide TableOk, LocksOk, FamilyOk, PendingOk, ClaimsOk, PcInRange, ProcStep, HandlerStep;
  }

  lemma PassedLater(s: Sys, schedule: seq<(nat, Choice)>, k: nat, c: nat, r: nat, j: nat)
    requires Inv(s) && IsSchedule(s, schedule) && k < |schedule| && c < |s.cpus| && PassedBy(s, schedule, k, c, r, j)
    ensures PassedBy(s, schedule, k + 1, c, r, j)
  {
    hide Inv, Unwanted;
    var m :| 0 <= m < k && Unwanted(At(s, schedule, m), c, r, j);
  }

  // ---- why a call returns -----------------------------------------------------------------------------------

  /** A thread in yield or in a handler goes on with what it was doing. */
  lemma AsideTurn(s: Sys, c: nat, p: nat, ch: Choice)
    requires Shape(s) && p < |s.procs| && c < |s.cpus| && (Yielding(s.procs[p].pc) || Signalling(s.procs[p].pc))
    ensures Origin(ProcStep(s, c, p, ch).procs[p].pc) == Origin(s.procs[p].pc)
  {
    hide ProcStep, YieldStep, SleepStep, WakeStep, PcInRange, Origin;
    if Yielding(s.procs[p].pc) {
      YieldTurn(s, c, p, ch);
      HuntAside(s, c, p, ch.ok);
    } else {
      SignalTurn(s, c, p, ch);
      if s.procs[p].pc.WakeNext? || s.procs[p].pc.WakeCheck? { HuntWake(s, c, p); } else { HuntAside(s, c, p, ch.ok); }
    }
  }

  lemma AsideIsIdle(s: Sys, p: nat)
    requires Shape(s) && p < |s.procs| && (Yielding(s.procs[p].pc) || Signalling(s.procs[p].pc))
    ensures Idle(Origin(s.procs[p].pc))
  {
  }

  /** Any other thread takes the step of its call, unless it holds no lock and an interrupt comes first. */
  lemma CallTurn(s: Sys, c: nat, p: nat, ch: Choice)
    requires Shape(s) && p < |s.procs| && c < |s.cpus| && !Yielding(s.procs[p].pc) && !Signalling(s.procs[p].pc)
    ensures var pc, s' := s.procs[p].pc, ProcStep(s, c, p, ch);
            || (Idle(pc) && Origin(s'.procs[p].pc) == Origin(pc) && s'.procs[p].pc != pc)
            || (WaitPoint(pc) && s' == WaitStep(s, c, p, ch.ok))
            || (ForkPoint(pc) && s' == ForkStep(s, c, p, ch.ok))
            || (ExitPoint(pc) && s' == ExitStep(s, c, p))
            || ((pc.KillScan? || pc.KillCheck?) && s' == KillStep(s, c, p))
            || ((pc.WakeNext? || pc.WakeCheck?) && s' == WakeStep(s, c, p))
            || (SleepPoint(pc) && s' == SleepStep(s, c, p, ch.ok))
            || pc.Run? || pc.ForkRet? || pc.Exited?
  {
    hide StartStep, YieldStep, SleepStep, WakeStep, ExitStep, WaitStep, ForkStep, KillStep, PcInRange;
  }

  // kwait

  predicate SleepsOn(pc: Pc, l: nat) {
    (pc.SleepAcq? || pc.SleepRel? || pc.SleepSet? || pc.SleepSwtch? || pc.SleepBack? || pc.SleepRelock?) && pc.l == l
  }

  /** The thread is in kwait. */
  predicate InWait(pc: Pc) {
    WaitPoint(Origin(pc)) || SleepsOn(Origin(pc), 0)
  }

  /** The step with which kwait makes up its mind: a zombie child is freed, or stays because copyout fails; or the
      process has been killed; or the whole table, with wait_lock held, has no child of it. */
  ghost predicate WaitEnds(s: Sys, s': Sys, p: nat, ok: bool)
    requires p < |s.procs| == |s'.procs|
  {
    match s.procs[p].pc
    case WaitChild(i) =>
      && i < |s.procs| && s.procs[i].state == Zombie && s.procs[i].parent == p
      && s'.procs[i].state == if ok then Unused else Zombie
    case WaitKilled => s.procs[p].killed && HasKid(s, p)
    case WaitScan(_, _) => !HasKid(s, p)
    case _ => false
  }

  ghost predicate WaitNext(s: Sys, s': Sys, p: nat, ok: bool)
    requires p < |s.procs| == |s'.procs|
  {
    || (InWait(s'.procs[p].pc) && (s'.procs[p].pc == WaitRel ==> WaitEnds(s, s', p, ok)))
    || (s.procs[p].pc == WaitRel && s'.procs[p].pc == Run)
  }

  lemma WaitCall(s: Sys, c: nat, p: nat, ok: bool)
    requires Shape(s) && p < |s.procs| && c < |s.cpus| && WaitPoint(s.procs[p].pc) && WaitClaim(s, p)
    ensures WaitNext(s, WaitStep(s, c, p, ok), p, ok)
  {
    hide WaitNext, WaitStep, WaitClaim, PcInRange;
    if s.procs[p].pc.WaitScan? {
      WaitLooks(s, c, p, ok);
    } else {
      WaitWorks(s, c, p, ok);
    }
  }

  lemma WaitLooks(s: Sys, c: nat, p: nat, ok: bool)
    requires Shape(s) && p < |s.procs| && c < |s.cpus| && s.procs[p].pc.WaitScan? && WaitClaim(s, p)
    ensures WaitNext(s, WaitStep(s, c, p, ok), p, ok)
  {
    hide Idle, NoZombieKids;
  }

  lemma WaitWorks(s: Sys, c: nat, p: nat, ok: bool)
    requires Shape(s) && p < |s.procs| && c < |s.cpus| && WaitPoint(s.procs[p].pc) && !s.procs[p].pc.WaitScan?
    requires WaitClaim(s, p)
    ensures WaitNext(s, WaitStep(s, c, p, ok), p, ok)
  {
    hide Idle, NoZombieKids;
  }

  lemma WaitSleeps(s: Sys, c: nat, p: nat, ok: bool)
    requires Shape(s) && p < |s.procs| && c < |s.cpus| && SleepsOn(s.procs[p].pc, 0)
    ensures WaitNext(s, SleepStep(s, c, p, ok), p, ok)
  {
    hide PcInRange;
  }

  lemma WaitThread(s: Sys, c: nat, p: nat, ch: Choice)
    requires Inv(s) && Processes.Runs(s, c, p) && InWait(s.procs[p].pc)
    ensures WaitNext(s, ProcStep(s, c, p, ch), p, ch.ok)
  {
    hide TableOk, LocksOk, FamilyOk, PendingOk, ClaimsOk, PcInRange, ProcStep, WaitStep, SleepStep, WaitEnds, WaitClaim;
    ClaimNow(s, p);
    if Yielding(s.procs[p].pc) || Signalling(s.procs[p].pc) {
      AsideTurn(s, c, p, ch);
      AsideIsIdle(s, p);
    } else {
      CallTurn(s, c, p, ch);
      if WaitPoint(s.procs[p].pc) { WaitCall(s, c, p, ch.ok); } else { WaitSleeps(s, c, p, ch.ok); }
    }
  }

  /** A call that is under way goes on only when its own CPU steps. */
  lemma OthersWaitHere(s: Sys, c: nat, ch: Choice, p: nat)
    requires Inv(s) && c < |s.cpus| && p < |s.procs| && !s.procs[p].pc.ForkRet? && s.cpus[c] != Cpu(p, InProc)
    requires !s.procs[p].pc.Exited?
    ensures Step(s, c, ch).procs[p].pc == s.procs[p].pc
  {
    hide LocksOk, FamilyOk, PendingOk, ClaimsOk, Step, PcInRange;
    InUse(s, p);
    OthersStay(s, c, ch, p);
  }

  lemma InUse(s: Sys, p: nat)
    requires Inv(s) && p < |s.procs| && !s.procs[p].pc.ForkRet? && !s.procs[p].pc.Exited?
    ensures s.procs[p].state != Unused
  {
    hide LocksOk, FamilyOk, PendingOk, ClaimsOk, PcInRange;
    assert StateOk(s.procs[p], p);
  }

  ghost predicate WaitEnded(s: Sys, schedule: seq<(nat, Choice)>, b: nat, k: nat, p: nat)
    requires Inv(s) && IsSchedule(s, schedule) && k <= |schedule| && p < |s.procs|
  {
    exists m :: b < m < k && WaitEndsAt(s, schedule, m, p)
  }

  ghost predicate WaitEndsAt(s: Sys, schedule: seq<(nat, Choice)>, m: nat, p: nat)
    requires Inv(s) && IsSchedule(s, schedule) && m < |schedule| && p < |s.procs|
  {
    WaitEnds(At(s, schedule, m), At(s, schedule, m + 1), p, schedule[m].1.ok)
  }

  /** At step b process p, in user space, makes the call. */
  ghost predicate Calls(s: Sys, schedule: seq<(nat, Choice)>, b: nat, p: nat, op: Op)
    requires Inv(s) && IsSchedule(s, schedule) && b < |schedule| && p < |s.procs|
  {
    && schedule[b].0 < |At(s, schedule, b).cpus| && At(s, schedule, b).cpus[schedule[b].0] == Cpu(p, InProc)
    && PcAt(s, schedule, b, p) == Run && schedule[b].1.op == op
  }

  lemma CallBegins(s: Sys, c: nat, ch: Choice, p: nat)
    requires Inv(s) && c < |s.cpus| && p < |s.procs| && s.cpus[c] == Cpu(p, InProc) && s.procs[p].pc == Run
    ensures var pc := Step(s, c, ch).procs[p].pc;
            match ch.op
            case Exit => p != s.initproc ==> pc == ExitAcq
            case Wait => pc == WaitAcq
            case Fork => pc == ForkScan(0)
            case Kill(pid) => pc == KillScan(0, pid)
            case Await(l) => 0 < l < |s.locks| ==> pc == CondAcq(l)
            case _ => true
  {
    hide TableOk, LocksOk, FamilyOk, PendingOk, ClaimsOk, PcInRange, YieldStep, SleepStep, WakeStep, ExitStep, WaitStep,
         ForkStep, KillStep, IdleStep;
  }

  lemma CallAt(s: Sys, schedule: seq<(nat, Choice)>, b: nat, p: nat, op: Op)
    requires Inv(s) && IsSchedule(s, schedule) && b < |schedule| && p < |s.procs| && Calls(s, schedule, b, p, op)
    ensures var pc := PcAt(s, schedule, b + 1, p);
            match op
            case Exit => p != At(s, schedule, b).initproc ==> pc == ExitAcq
            case Wait => pc == WaitAcq
            case Fork => pc == ForkScan(0)
            case Kill(pid) => pc == KillScan(0, pid)
            case Await(l) => 0 < l < |At(s, schedule, b).locks| ==> pc == CondAcq(l)
            case _ => true
  {
    hide Inv, Step;
    AtNext(s, schedule, b);
    CallBegins(At(s, schedule, b), schedule[b].0, schedule[b].1, p);
  }

  /** kwait returns only for a reason: in any run, from its call to its return, it has freed a zombie child, or
      failed to
      copy the status of one out, or found itself killed, or seen under wait_lock that it has no child. */
  lemma {:induction false} WaitReturns(s: Sys, schedule: seq<(nat, Choice)>, b: nat, k: nat, p: nat)
    requires Inv(s) && IsSchedule(s, schedule) && b < k <= |schedule| && p < |s.procs| && Calls(s, schedule, b, p, Wait)
    requires forall m :: b < m < k ==> PcAt(s, schedule, m, p) != Run
    ensures var pc := PcAt(s, schedule, k, p);
            && (InWait(pc) || pc == Run)
            && (pc == WaitRel || pc == Run ==> WaitEnded(s, schedule, b, k, p))
    decreases k
  {
    hide Inv, Step, WaitEndsAt, InWait, At, Calls;
    StartsWaiting();
    if k == b + 1 {
      CallAt(s, schedule, b, p, Wait);
    } else {
      WaitReturns(s, schedule, b, k - 1, p);
      WaitStepAt(s, schedule, k - 1, p);
      if WaitEnded(s, schedule, b, k - 1, p) {
        var m :| b < m < k - 1 && WaitEndsAt(s, schedule, m, p);
      }
    }
  }

  lemma WaitStepAt(s: Sys, schedule: seq<(nat, Choice)>, k: nat, p: nat)
    requires Inv(s) && IsSchedule(s, schedule) && k < |schedule| && p < |s.procs| && InWait(PcAt(s, schedule, k, p))
    ensures var pc, pc' := PcAt(s, schedule, k, p), PcAt(s, schedule, k + 1, p);
            || (InWait(pc') && (pc' == WaitRel ==> pc == WaitRel || WaitEndsAt(s, schedule, k, p)))
            || (pc == WaitRel && pc' == Run)
  {
    hide Inv, Step, InWait, At, WaitEnds;
    AtNext(s, schedule, k);
    WaitGoesOn(At(s, schedule, k), schedule[k].0, schedule[k].1, p);
  }

  lemma StartsWaiting()
    ensures InWait(WaitAcq) && !InWait(Run)
  {
  }

  lemma WaitGoesOn(s: Sys, c: nat, ch: Choice, p: nat)
    requires Inv(s) && c < |s.cpus| && p < |s.procs| && InWait(s.procs[p].pc)
    ensures var s' := Step(s, c, ch);
            if s.cpus[c] == Cpu(p, InProc) then WaitNext(s, s', p, ch.ok) else s'.procs[p].pc == s.procs[p].pc
  {
    hide TableOk, LocksOk, FamilyOk, PendingOk, ClaimsOk, PcInRange, ProcStep, WaitNext;
    if s.cpus[c] == Cpu(p, InProc) {
      WaitThread(s, c, p, ch);
    } else {
      OthersWaitHere(s, c, ch, p);
    }
  }

  // kfork

  predicate InFork(pc: Pc) {
    ForkPoint(Origin(pc))
  }

  /** The slot that a fork that has claimed none is at, -1 for any other. */
  function ForkSlot(pc: Pc): int {
    var o := Origin(pc);
    if o.ForkScan? || o.ForkCheck? then o.i else -1
  }

  /** The step with which kfork makes up its mind once it has a slot: the child is runnable and its own, or memory is
      short. */
  ghost predicate ForkEnds(s: Sys, s': Sys, p: nat, ok: bool)
    requires p < |s.procs| == |s'.procs|
  {
    match s.procs[p].pc
    case ForkReady(i) => i < |s.procs| && s.procs[i].state == Used && s'.procs[i].state == Runnable &&
        s'.procs[i].parent == p
    case ForkCopy(_) => !ok
    case _ => false
  }

  /** The fork of p looks at slot j, which is in use. */
  ghost predicate SeesTaken(s: Sys, p: nat, j: int)
    requires p < |s.procs|
  {
    0 <= j < |s.procs| && s.procs[p].pc == ForkCheck(j) && s.procs[j].state != Unused
  }

  ghost predicate ForkNext(s: Sys, s': Sys, p: nat, ok: bool)
    requires p < |s.procs| == |s'.procs|
  {
    var pc, pc' := s.procs[p].pc, s'.procs[p].pc;
    || (InFork(pc') && (ForkSlot(pc') >= 0 ==> ForkSlot(pc') == ForkSlot(pc) ||
                                               (ForkSlot(pc') == ForkSlot(pc) + 1 && SeesTaken(s, p, ForkSlot(pc)))))
    || (pc' == Run && (ForkEnds(s, s', p, ok) || ForkSlot(pc) == |s.procs|))
  }

  lemma ForkLooks(s: Sys, c: nat, p: nat, ok: bool)
    requires Shape(s) && p < |s.procs| && c < |s.cpus| && (s.procs[p].pc.ForkScan? || s.procs[p].pc.ForkCheck?)
    requires ForkClaim(s, p)
    ensures ForkNext(s, ForkStep(s, c, p, ok), p, ok)
  {
    hide Idle;
  }

  lemma ForkCall(s: Sys, c: nat, p: nat, ok: bool)
    requires Shape(s) && p < |s.procs| && c < |s.cpus| && ForkPoint(s.procs[p].pc) && ForkClaim(s, p)
    ensures ForkNext(s, ForkStep(s, c, p, ok), p, ok)
  {
    hide ForkNext, ForkStep, ForkClaim, PcInRange;
    if s.procs[p].pc.ForkScan? || s.procs[p].pc.ForkCheck? {
      ForkLooks(s, c, p, ok);
    } else {
      ForkWorks(s, c, p, ok);
    }
  }

  lemma ForkWorks(s: Sys, c: nat, p: nat, ok: bool)
    requires Shape(s) && p < |s.procs| && c < |s.cpus| && ForkPoint(s.procs[p].pc) && ForkClaim(s, p)
    requires !s.procs[p].pc.ForkScan? && !s.procs[p].pc.ForkCheck?
    ensures ForkNext(s, ForkStep(s, c, p, ok), p, ok)
  {
    hide Idle;
  }

  lemma ForkGoesOn(s: Sys, c: nat, ch: Choice, p: nat)
    requires Inv(s) && c < |s.cpus| && p < |s.procs| && InFork(s.procs[p].pc)
    ensures var s' := Step(s, c, ch);
            if s.cpus[c] == Cpu(p, InProc) then ForkNext(s, s', p, ch.ok) else s'.procs[p].pc == s.procs[p].pc
  {
    hide TableOk, LocksOk, FamilyOk, PendingOk, ClaimsOk, PcInRange, ProcStep, ForkStep, ForkEnds, SeesTaken, ForkClaim;
    if s.cpus[c] == Cpu(p, InProc) {
      ClaimNow(s, p);
      if Yielding(s.procs[p].pc) || Signalling(s.procs[p].pc) {
        AsideTurn(s, c, p, ch);
      } else {
        CallTurn(s, c, p, ch);
        ForkCall(s, c, p, ch.ok);
      }
    } else {
      OthersWaitHere(s, c, ch, p);
    }
  }

  ghost predicate ForkEndsAt(s: Sys, schedule: seq<(nat, Choice)>, m: nat, p: nat)
    requires Inv(s) && IsSchedule(s, schedule) && m < |schedule| && p < |s.procs|
  {
    ForkEnds(At(s, schedule, m), At(s, schedule, m + 1), p, schedule[m].1.ok)
  }

  ghost predicate SeesTakenAt(s: Sys, schedule: seq<(nat, Choice)>, m: nat, p: nat, j: int)
    requires Inv(s) && IsSchedule(s, schedule) && m < |schedule| && p < |s.procs|
  {
    SeesTaken(At(s, schedule, m), p, j)
  }

  ghost predicate SawTaken(s: Sys, schedule: seq<(nat, Choice)>, b: nat, k: nat, p: nat, j: int)
    requires Inv(s) && IsSchedule(s, schedule) && k <= |schedule| && p < |s.procs|
  {
    exists m :: b < m < k && SeesTakenAt(s, schedule, m, p, j)
  }

  /** Since step b the fork has looked at the first n slots, each of which was in use when it did. */
  ghost predicate AllTaken(s: Sys, schedule: seq<(nat, Choice)>, b: nat, k: nat, p: nat, n: int)
    requires Inv(s) && IsSchedule(s, schedule) && k <= |schedule| && p < |s.procs|
  {
    forall j :: 0 <= j < n ==> SawTaken(s, schedule, b, k, p, j)
  }

  lemma ForkStepAt(s: Sys, schedule: seq<(nat, Choice)>, k: nat, p: nat)
    requires Inv(s) && IsSchedule(s, schedule) && k < |schedule| && p < |s.procs| && InFork(PcAt(s, schedule, k, p))
    ensures var pc, pc' := PcAt(s, schedule, k, p), PcAt(s, schedule, k + 1, p);
            || (InFork(pc') && (ForkSlot(pc') >= 0 ==>
                                  ForkSlot(pc') == ForkSlot(pc) ||
                                  (ForkSlot(pc') == ForkSlot(pc) + 1 && SeesTakenAt(s, schedule, k, p, ForkSlot(pc)))))
            || (pc' == Run && (ForkEndsAt(s, schedule, k, p) || ForkSlot(pc) == |s.procs|))
  {
    hide Inv, Step, InFork, At, ForkEnds, ForkSlot, SeesTaken;
    AtNext(s, schedule, k);
    ForkGoesOn(At(s, schedule, k), schedule[k].0, schedule[k].1, p);
  }

  lemma ForkFacts()
    ensures InFork(ForkScan(0)) && !InFork(Run) && ForkSlot(ForkScan(0)) == 0
  {
  }

  lemma TakenLater(s: Sys, schedule: seq<(nat, Choice)>, b: nat, k: nat, p: nat, n: int)
    requires Inv(s) && IsSchedule(s, schedule) && b < k < |schedule| && p < |s.procs|
    requires AllTaken(s, schedule, b, k, p, n)
    ensures AllTaken(s, schedule, b, k + 1, p, n)
    ensures SeesTakenAt(s, schedule, k, p, n) ==> AllTaken(s, schedule, b, k + 1, p, n + 1)
  {
    hide Inv, SeesTakenAt;
    var next := k + 1;
    forall j | 0 <= j < n ensures SawTaken(s, schedule, b, next, p, j) {
      assert SawTaken(s, schedule, b, k, p, j);
    }
  }

  /** kfork returns only for a reason: in any run, from its call to its return, it has made a runnable child of its own,
      or memory was short, or every slot of the table was in use when it looked at it. */
  lemma {:induction false} ForkReturns(s: Sys, schedule: seq<(nat, Choice)>, b: nat, k: nat, p: nat)
    requires Inv(s) && IsSchedule(s, schedule) && b < k <= |schedule| && p < |s.procs| && Calls(s, schedule, b, p, Fork)
    requires forall m :: b < m < k ==> PcAt(s, schedule, m, p) != Run
    ensures var pc := PcAt(s, schedule, k, p);
            && (InFork(pc) || pc == Run)
            && (InFork(pc) ==> AllTaken(s, schedule, b, k, p, ForkSlot(pc)))
            && (pc == Run ==> AllTaken(s, schedule, b, k, p, |s.procs|) ||
                              exists m :: b < m < k && ForkEndsAt(s, schedule, m, p))
    decreases k
  {
    hide Inv, Step, InFork, At, ForkEndsAt, SeesTakenAt, ForkSlot, AllTaken, Calls;
    ForkFacts();
    if k == b + 1 {
      CallAt(s, schedule, b, p, Fork);
      NothingTaken(s, schedule, b, k, p, 0);
    } else {
      ForkReturns(s, schedule, b, k - 1, p);
      ForkStepAt(s, schedule, k - 1, p);
      if InFork(PcAt(s, schedule, k - 1, p)) {
        TakenLater(s, schedule, b, k - 1, p, ForkSlot(PcAt(s, schedule, k - 1, p)));
      }
      NothingTaken(s, schedule, b, k, p, ForkSlot(PcAt(s, schedule, k, p)));
    }
  }

  lemma NothingTaken(s: Sys, schedule: seq<(nat, Choice)>, b: nat, k: nat, p: nat, n: int)
    requires Inv(s) && IsSchedule(s, schedule) && k <= |schedule| && p < |s.procs|
    ensures n <= 0 ==> AllTaken(s, schedule, b, k, p, n)
  {
    hide Inv, At;
  }

  // a wait for a condition

  predicate InAwait(pc: Pc, l: nat) {
    var o := Origin(pc);
    l > 0 && (((o.CondAcq? || o.CondTest? || o.CondKilled? || o.CondRel?) && o.l == l) || SleepsOn(o, l))
  }

  /** The process found the condition true under its lock, or found itself killed. */
  ghost predicate AwaitEnds(s: Sys, p: nat, l: nat)
    requires p < |s.procs|
  {
    || (s.procs[p].pc == CondTest(l) && l < |s.cond| && s.cond[l])
    || (s.procs[p].pc == CondKilled(l) && s.procs[p].killed)
  }

  ghost predicate AwaitNext(s: Sys, s': Sys, p: nat, l: nat)
    requires p < |s.procs| == |s'.procs|
  {
    || (InAwait(s'.procs[p].pc, l) && (s'.procs[p].pc == CondRel(l) ==> AwaitEnds(s, p, l)))
    || (s.procs[p].pc == CondRel(l) && s'.procs[p].pc == Run)
  }

  lemma AwaitCall(s: Sys, c: nat, p: nat, l: nat, ok: bool)
    requires Shape(s) && p < |s.procs| && c < |s.cpus| && SleepPoint(s.procs[p].pc) && !Signalling(s.procs[p].pc)
    requires InAwait(s.procs[p].pc, l)
    ensures AwaitNext(s, SleepStep(s, c, p, ok), p, l)
  {
    hide Idle;
  }

  lemma AwaitGoesOn(s: Sys, c: nat, ch: Choice, p: nat, l: nat)
    requires Inv(s) && c < |s.cpus| && p < |s.procs| && InAwait(s.procs[p].pc, l)
    ensures var s' := Step(s, c, ch);
            if s.cpus[c] == Cpu(p, InProc) then AwaitNext(s, s', p, l) else s'.procs[p].pc == s.procs[p].pc
  {
    hide TableOk, LocksOk, FamilyOk, PendingOk, ClaimsOk, PcInRange, ProcStep, SleepStep, AwaitEnds;
    if s.cpus[c] == Cpu(p, InProc) {
      if Yielding(s.procs[p].pc) || Signalling(s.procs[p].pc) {
        AsideTurn(s, c, p, ch);
        AsideIsIdle(s, p);
      } else {
        CallTurn(s, c, p, ch);
        AwaitCall(s, c, p, l, ch.ok);
      }
    } else {
      OthersWaitHere(s, c, ch, p);
    }
  }

  ghost predicate AwaitEndsAt(s: Sys, schedule: seq<(nat, Choice)>, m: nat, p: nat, l: nat)
    requires Inv(s) && IsSchedule(s, schedule) && m < |schedule| && p < |s.procs|
  {
    AwaitEnds(At(s, schedule, m), p, l)
  }

  lemma AwaitStepAt(s: Sys, schedule: seq<(nat, Choice)>, k: nat, p: nat, l: nat)
    requires Inv(s) && IsSchedule(s, schedule) && k < |schedule| && p < |s.procs| && InAwait(PcAt(s, schedule, k, p), l)
    ensures var pc, pc' := PcAt(s, schedule, k, p), PcAt(s, schedule, k + 1, p);
            || (InAwait(pc', l) && (pc' == CondRel(l) ==> pc == CondRel(l) || AwaitEndsAt(s, schedule, k, p, l)))
            || (pc == CondRel(l) && pc' == Run)
  {
    hide Inv, Step, InAwait, At, AwaitEnds;
    AtNext(s, schedule, k);
    AwaitGoesOn(At(s, schedule, k), schedule[k].0, schedule[k].1, p, l);
  }

  lemma AwaitFacts(l: nat)
    requires l > 0
    ensures InAwait(CondAcq(l), l) && !InAwait(Run, l)
  {
  }

  /** A process that waits for a condition goes on only once it has seen it true, with the lock held, or was killed. */
  lemma {:induction false} AwaitReturns(s: Sys, schedule: seq<(nat, Choice)>, b: nat, k: nat, p: nat, l: nat)
    requires Inv(s) && IsSchedule(s, schedule) && b < k <= |schedule| && p < |s.procs|
    requires 0 < l < |At(s, schedule, b).locks|
    requires Calls(s, schedule, b, p, Await(l)) && forall m :: b < m < k ==> PcAt(s, schedule, m, p) != Run
    ensures var pc := PcAt(s, schedule, k, p);
            && (InAwait(pc, l) || pc == Run)
            && (pc == CondRel(l) || pc == Run ==> exists m :: b < m < k && AwaitEndsAt(s, schedule, m, p, l))
    decreases k
  {
    hide Inv, Step, InAwait, At, AwaitEndsAt, Calls;
    AwaitFacts(l);
    if k == b + 1 {
      CallAt(s, schedule, b, p, Await(l));
    } else {
      AwaitReturns(s, schedule, b, k - 1, p, l);
      AwaitStepAt(s, schedule, k - 1, p, l);
      if m :| b < m < k - 1 && AwaitEndsAt(s, schedule, m, p, l) {
        assert b < m < k && AwaitEndsAt(s, schedule, m, p, l);
      }
    }
  }

  // kexit

  predicate InExit(pc: Pc) {
    ExitPoint(Origin(pc)) || pc.Exited? || ((pc.WakeNext? || pc.WakeCheck?) && !pc.k.SignalWake?)
  }

  lemma ExitCall(s: Sys, c: nat, p: nat)
    requires Shape(s) && p < |s.procs| && c < |s.cpus|
    ensures ExitPoint(s.procs[p].pc) ==> InExit(ExitStep(s, c, p).procs[p].pc)
    ensures (s.procs[p].pc.WakeNext? || s.procs[p].pc.WakeCheck?) && !s.procs[p].pc.k.SignalWake? ==>
              InExit(WakeStep(s, c, p).procs[p].pc)
  {
    hide Idle;
  }

  lemma ExitGoesOn(s: Sys, c: nat, ch: Choice, p: nat)
    requires Inv(s) && c < |s.cpus| && p < |s.procs| && InExit(s.procs[p].pc) && s.procs[p].state != Unused
    ensures InExit(Step(s, c, ch).procs[p].pc)
  {
    hide TableOk, LocksOk, FamilyOk, PendingOk, ClaimsOk, PcInRange, ProcStep, ExitStep, WakeStep;
    if s.cpus[c] == Cpu(p, InProc) {
      StateNow(s, c, p);
      if Yielding(s.procs[p].pc) || Signalling(s.procs[p].pc) {
        AsideTurn(s, c, p, ch);
        AsideIsIdle(s, p);
      } else {
        CallTurn(s, c, p, ch);
        ExitCall(s, c, p);
      }
    } else {
      OthersStay(s, c, ch, p);
    }
  }

  lemma ExitFacts()
    ensures InExit(ExitAcq) && !InExit(Run)
  {
  }

  /** kexit does not return: until its slot is freed, the thread stays in it. */
  lemma {:induction false} ExitNeverReturns(s: Sys, schedule: seq<(nat, Choice)>, b: nat, k: nat, p: nat)
    requires Inv(s) && IsSchedule(s, schedule) && b < k <= |schedule| && p < |s.procs|
    requires p != At(s, schedule, b).initproc
    requires Calls(s, schedule, b, p, Exit) && forall m :: b < m < k ==> At(s, schedule, m).procs[p].state != Unused
    ensures InExit(PcAt(s, schedule, k, p)) && PcAt(s, schedule, k, p) != Run
    decreases k
  {
    hide Inv, Step, Calls, InExit, At;
    ExitFacts();
    if k == b + 1 {
      CallAt(s, schedule, b, p, Exit);
    } else {
      ExitNeverReturns(s, schedule, b, k - 1, p);
      AtNext(s, schedule, k - 1);
      ExitGoesOn(At(s, schedule, k - 1), schedule[k - 1].0, schedule[k - 1].1, p);
    }
  }

  // interrupts

  /** At step b the thread of p, at a point where it holds no lock, is interrupted. */
  ghost predicate Interrupted(s: Sys, schedule: seq<(nat, Choice)>, b: nat, p: nat, back: Pc, op: Op)
    requires Inv(s) && IsSchedule(s, schedule) && b < |schedule| && p < |s.procs|
  {
    && schedule[b].0 < |At(s, schedule, b).cpus| && At(s, schedule, b).cpus[schedule[b].0] == Cpu(p, InProc)
    && PcAt(s, schedule, b, p) == back && Idle(back) && schedule[b].1.op == op
  }

  lemma InterruptBegins(s: Sys, c: nat, ch: Choice, p: nat)
    requires Inv(s) && c < |s.cpus| && p < |s.procs| && s.cpus[c] == Cpu(p, InProc) && Idle(s.procs[p].pc)
    ensures var pc, pc' := s.procs[p].pc, Step(s, c, ch).procs[p].pc;
            && (ch.op.Preempt? || (ch.op.Tick? && pc == Run) ==> pc' == YieldAcq(pc))
            && (ch.op.Signal? && 0 < ch.op.l < |s.locks| ==> pc' == SignalAcq(ch.op.l, pc))
  {
    hide TableOk, LocksOk, FamilyOk, PendingOk, ClaimsOk, PcInRange, YieldStep, SleepStep, WakeStep, ExitStep, WaitStep,
         ForkStep, KillStep, IdleStep;
  }

  predicate InYield(pc: Pc, back: Pc) {
    Yielding(pc) && pc.back == back
  }

  lemma YieldGoesOn(s: Sys, c: nat, ch: Choice, p: nat, back: Pc)
    requires Inv(s) && c < |s.cpus| && p < |s.procs| && InYield(s.procs[p].pc, back)
    ensures var pc, pc' := s.procs[p].pc, Step(s, c, ch).procs[p].pc;
            || pc' == pc
            || (pc == YieldAcq(back) && pc' == YieldSet(back))
            || (pc == YieldSet(back) && pc' == YieldSwtch(back) && Step(s, c, ch).procs[p].state == Runnable)
            || (pc == YieldSwtch(back) && pc' == YieldBack(back))
            || (pc == YieldBack(back) && pc' == back)
  {
    hide TableOk, LocksOk, FamilyOk, PendingOk, ClaimsOk, PcInRange, ProcStep;
    if s.cpus[c] == Cpu(p, InProc) {
      YieldTurn(s, c, p, ch);
    } else {
      OthersWaitHere(s, c, ch, p);
    }
  }

  ghost predicate WasRunnable(s: Sys, schedule: seq<(nat, Choice)>, b: nat, k: nat, p: nat)
    requires Inv(s) && IsSchedule(s, schedule) && k <= |schedule| && p < |s.procs|
  {
    exists m :: b < m <= k && At(s, schedule, m).procs[p].state == Runnable
  }

  /** A timer interrupt takes the CPU away, in user space or in the kernel: the thread goes on where it was
      only after it
      has been runnable, for a scheduler to choose. */
  lemma {:induction false} TimerYields(s: Sys, schedule: seq<(nat, Choice)>, b: nat, k: nat, p: nat, back: Pc, op: Op)
    requires Inv(s) && IsSchedule(s, schedule) && b < k <= |schedule| && p < |s.procs|
    requires Interrupted(s, schedule, b, p, back, op) && (op.Preempt? || (op.Tick? && back == Run))
    requires forall m :: b < m < k ==> PcAt(s, schedule, m, p) != back
    ensures var pc := PcAt(s, schedule, k, p);
            && (InYield(pc, back) || pc == back)
            && (pc.YieldSwtch? || pc.YieldBack? || pc == back ==> WasRunnable(s, schedule, b, k, p))
    decreases k
  {
    hide Inv, Step;
    AtNext(s, schedule, k - 1);
    if k == b + 1 {
      InterruptBegins(At(s, schedule, b), schedule[b].0, schedule[b].1, p);
    } else {
      TimerYields(s, schedule, b, k - 1, p, back, op);
      YieldGoesOn(At(s, schedule, k - 1), schedule[k - 1].0, schedule[k - 1].1, p, back);
      if WasRunnable(s, schedule, b, k - 1, p) {
        var m :| b < m <= k - 1 && At(s, schedule, m).procs[p].state == Runnable;
        assert b < m <= k;
      }
    }
  }

  predicate InSignal(pc: Pc, l: nat, back: Pc) {
    || ((pc.SignalAcq? || pc.SignalSet? || pc.SignalRel?) && pc.l == l && pc.back == back)
    || ((pc.WakeNext? || pc.WakeCheck?) && pc.k == SignalWake(l, back))
  }

  /** The condition is set already. */
  predicate SignalSent(pc: Pc, l: nat, back: Pc) {
    InSignal(pc, l, back) && !pc.SignalAcq? && !pc.SignalSet?
  }

  /** A step that makes condition l true, with its lock held. */
  ghost predicate SetsCond(s: Sys, s': Sys, p: nat, l: nat, back: Pc)
    requires p < |s.procs|
  {
    s.procs[p].pc == SignalSet(l, back) && l < |s'.cond| && s'.cond[l]
  }

  lemma SignalCall(s: Sys, c: nat, p: nat, ok: bool, l: nat, back: Pc)
    requires Shape(s) && p < |s.procs| && c < |s.cpus| && InSignal(s.procs[p].pc, l, back)
    ensures var pc := s.procs[p].pc;
            var s' := if pc.WakeNext? || pc.WakeCheck? then WakeStep(s, c, p) else SleepStep(s, c, p, ok);
            var pc' := s'.procs[p].pc;
            && (InSignal(pc', l, back) || (pc == SignalRel(l, back) && pc' == back))
            && (SignalSent(pc', l, back) ==> SignalSent(pc, l, back) || SetsCond(s, s', p, l, back))
  {
    hide Idle, Origin;
  }

  lemma SignalGoesOn(s: Sys, c: nat, ch: Choice, p: nat, l: nat, back: Pc)
    requires Inv(s) && c < |s.cpus| && p < |s.procs| && InSignal(s.procs[p].pc, l, back)
    ensures var pc, s' := s.procs[p].pc, Step(s, c, ch);
            var pc' := s'.procs[p].pc;
            && (InSignal(pc', l, back) || (SignalSent(pc, l, back) && pc' == back))
            && (SignalSent(pc', l, back) ==> SignalSent(pc, l, back) || SetsCond(s, s', p, l, back))
  {
    hide TableOk, LocksOk, FamilyOk, PendingOk, ClaimsOk, PcInRange, ProcStep, SetsCond, WakeStep, SleepStep;
    if s.cpus[c] == Cpu(p, InProc) {
      SignalTurn(s, c, p, ch);
      SignalCall(s, c, p, ch.ok, l, back);
    } else {
      OthersWaitHere(s, c, ch, p);
    }
  }

  ghost predicate SetsCondAt(s: Sys, schedule: seq<(nat, Choice)>, m: nat, p: nat, l: nat, back: Pc)
    requires Inv(s) && IsSchedule(s, schedule) && m < |schedule| && p < |s.procs|
  {
    SetsCond(At(s, schedule, m), At(s, schedule, m + 1), p, l, back)
  }

  lemma SignalFacts(l: nat, back: Pc)
    requires Idle(back)
    ensures InSignal(SignalAcq(l, back), l, back) && !SignalSent(SignalAcq(l, back), l, back) &&
            !InSignal(back, l, back)
  {
  }

  /** A signal, sent by the thread or by a handler on top of it, makes the condition true under its lock before
      the thread
      goes on. */
  lemma {:induction false} SignalReturns(s: Sys, schedule: seq<(nat, Choice)>, b: nat, k: nat, p: nat, l: nat, back: Pc)
    requires Inv(s) && IsSchedule(s, schedule) && b < k <= |schedule| && p < |s.procs|
    requires Interrupted(s, schedule, b, p, back, Signal(l)) && 0 < l < |At(s, schedule, b).locks|
    requires forall m :: b < m < k ==> PcAt(s, schedule, m, p) != back
    ensures var pc := PcAt(s, schedule, k, p);
            && (InSignal(pc, l, back) || pc == back)
            && (SignalSent(pc, l, back) || pc == back ==>
                  exists m :: b < m < k && SetsCondAt(s, schedule, m, p, l, back))
    decreases k
  {
    hide Inv, Step, At, InSignal, SignalSent, SetsCond, Idle;
    SignalFacts(l, back);
    AtNext(s, schedule, k - 1);
    if k == b + 1 {
      InterruptBegins(At(s, schedule, b), schedule[b].0, schedule[b].1, p);
    } else {
      SignalReturns(s, schedule, b, k - 1, p, l, back);
      SignalGoesOn(At(s, schedule, k - 1), schedule[k - 1].0, schedule[k - 1].1, p, l, back);
      if SetsCond(At(s, schedule, k - 1), At(s, schedule, k), p, l, back) {
        assert SetsCondAt(s, schedule, k - 1, p, l, back);
      }
      if m :| b < m < k - 1 && SetsCondAt(s, schedule, m, p, l, back) {
        assert b < m < k && SetsCondAt(s, schedule, m, p, l, back);
      }
    }
  }

  predicate InHandler(at: SchedPc, l: nat) {
    Handling(at) && at.l == l
  }

  predicate HandlerSent(at: SchedPc, l: nat) {
    InHandler(at, l) && !at.IntrAcq? && !at.IntrSet?
  }

  ghost predicate HandlerSets(s: Sys, s': Sys, c: nat, l: nat)
    requires c < |s.cpus|
  {
    s.cpus[c].at == IntrSet(l) && l < |s'.cond| && s'.cond[l]
  }

  lemma HandlerGoesOn(s: Sys, c: nat, ch: Choice, l: nat)
    requires Inv(s) && c < |s.cpus| && InHandler(s.cpus[c].at, l)
    ensures var at, s' := s.cpus[c].at, Step(s, c, ch);
            var at' := s'.cpus[c].at;
            && (InHandler(at', l) || (HandlerSent(at, l) && at' == Scan(0, 0)))
            && (HandlerSent(at', l) ==> HandlerSent(at, l) || HandlerSets(s, s', c, l))
  {
    hide TableOk, LocksOk, FamilyOk, PendingOk, ClaimsOk, PcInRange, ProcStep, SchedStep;
  }

  lemma HandlerBegins(s: Sys, c: nat, ch: Choice)
    requires Inv(s) && c < |s.cpus| && s.cpus[c].at == Scan(0, 0) && ch.op.Signal? && 0 < ch.op.l < |s.locks|
    ensures Step(s, c, ch).cpus[c].at == IntrAcq(ch.op.l)
  {
    hide TableOk, LocksOk, FamilyOk, PendingOk, ClaimsOk, PcInRange, ProcStep, SchedStep;
  }

  ghost predicate HandlerSetsAt(s: Sys, schedule: seq<(nat, Choice)>, m: nat, c: nat, l: nat)
    requires Inv(s) && IsSchedule(s, schedule) && m < |schedule| && c < |s.cpus|
  {
    HandlerSets(At(s, schedule, m), At(s, schedule, m + 1), c, l)
  }

  lemma HandlerFacts(l: nat)
    ensures InHandler(IntrAcq(l), l) && !HandlerSent(IntrAcq(l), l) && !InHandler(Scan(0, 0), l)
  {
  }

  /** So does a handler on a CPU that runs no process, before the scheduler of that CPU goes on. */
  lemma {:induction false} HandlerReturns(s: Sys, schedule: seq<(nat, Choice)>, b: nat, k: nat, c: nat, l: nat)
    requires Inv(s) && IsSchedule(s, schedule) && b < k <= |schedule| && c < |s.cpus| && schedule[b].0 == c
    requires At(s, schedule, b).cpus[c].at == Scan(0, 0) && schedule[b].1.op == Signal(l)
    requires 0 < l < |At(s, schedule, b).locks|
    requires forall m :: b < m < k ==> At(s, schedule, m).cpus[c].at != Scan(0, 0)
    ensures var at := At(s, schedule, k).cpus[c].at;
            && (InHandler(at, l) || at == Scan(0, 0))
            && (HandlerSent(at, l) || at == Scan(0, 0) ==> exists m :: b < m < k && HandlerSetsAt(s, schedule, m, c, l))
    decreases k
  {
    hide Inv, Step, At, InHandler, HandlerSent, HandlerSets;
    HandlerFacts(l);
    AtNext(s, schedule, k - 1);
    if k == b + 1 {
      HandlerBegins(At(s, schedule, b), c, schedule[b].1);
    } else {
      HandlerReturns(s, schedule, b, k - 1, c, l);
      var t, d, ch := At(s, schedule, k - 1), schedule[k - 1].0, schedule[k - 1].1;
      if d == c { HandlerGoesOn(t, c, ch, l); } else { OtherCpu(t, c, d, ch); }
      if HandlerSets(t, At(s, schedule, k), c, l) {
        assert HandlerSetsAt(s, schedule, k - 1, c, l);
      }
      if m :| b < m < k - 1 && HandlerSetsAt(s, schedule, m, c, l) {
        assert b < m < k && HandlerSetsAt(s, schedule, m, c, l);
      }
    }
  }

  // kkill

  lemma PidsAt(s: Sys, schedule: seq<(nat, Choice)>, k: nat)
    requires Inv(s) && PidsOk(s) && IsSchedule(s, schedule) && k <= |schedule|
    ensures PidsOk(At(s, schedule, k))
  {
    hide Inv, PidsOk;
    PidsStayUnique(s, schedule[..k]);
  }

  lemma HuntBegins(pid: nat, q: nat)
    ensures Hunting(KillScan(0, pid), pid, q) && !Hunting(Run, pid, q)
  {
  }

  /** kkill, from its call: when it returns, the process that had the number all along is marked as killed and is not
      asleep. */
  lemma {:induction false} KillReturns(s: Sys, schedule: seq<(nat, Choice)>, b: nat, k: nat, p: nat, q: nat, pid: nat)
    requires Inv(s) && PidsOk(s) && IsSchedule(s, schedule) && b < k <= |schedule| && p < |s.procs| && q < |s.procs|
    requires pid > 0 && Calls(s, schedule, b, p, Kill(pid))
    requires forall m :: b < m <= k ==> At(s, schedule, m).procs[q].pid == pid
    requires forall m :: b < m < k ==> PcAt(s, schedule, m, p) != Run
    ensures var pc := PcAt(s, schedule, k, p);
            Hunting(pc, pid, q) || (pc == Run && Struck(At(s, schedule, k), q))
    decreases k
  {
    hide Inv, PidsOk, Step, Struck, Hunting, Calls, At;
    HuntBegins(pid, q);
    if k == b + 1 {
      CallAt(s, schedule, b, p, Kill(pid));
    } else {
      KillReturns(s, schedule, b, k - 1, p, q, pid);
      AtNext(s, schedule, k - 1);
      PidsAt(s, schedule, k - 1);
      HuntGoesOn(At(s, schedule, k - 1), schedule[k - 1].0, p, schedule[k - 1].1, q, pid);
    }
  }
}
