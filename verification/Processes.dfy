/** The process table, the per-CPU schedulers and the locks between them, as one state machine in which any
    CPU may take the next step.

    A lock is owned by a CPU, as in the kernel: p->lock is taken by one thread of a CPU and released by
    another one after swtch. A step is one lock acquisition, one release, one swtch, or the work done inside a
    critical section; a thread that cannot have its lock spins, that is, its step changes nothing. Lock 0 is
    wait_lock; every other lock l protects one condition on which processes sleep. */
module Processes {
  import Mlfq

  datatype State = Unused | Used | Sleeping | Runnable | Running | Zombie

  datatype Chan = NoChan | OfProc(p: nat) | OfCond(l: nat)

  /** Who called wakeup, and so where it returns to. */
  datatype Waker = ReparentWake(j: nat) | ExitWake(par: int) | SignalWake(l: nat, back: Pc)

  /** Where the kernel thread of a process is. A thread in yield or in an interrupt handler that signals a condition
      goes on at `back`. */
  datatype Pc =
    | Run
    | ForkRet
    | YieldAcq(back: Pc) | YieldSet(back: Pc) | YieldSwtch(back: Pc) | YieldBack(back: Pc)
    | CondAcq(l: nat) | CondTest(l: nat) | CondKilled(l: nat) | CondRel(l: nat)
    | SignalAcq(l: nat, back: Pc) | SignalSet(l: nat, back: Pc) | SignalRel(l: nat, back: Pc)
    | SleepAcq(l: nat) | SleepRel(l: nat) | SleepSet(l: nat)
    | SleepSwtch(l: nat) | SleepBack(l: nat) | SleepRelock(l: nat)
    | WakeNext(i: nat, k: Waker) | WakeCheck(i: nat, k: Waker)
    | ExitAcq | Reparent(i: nat) | ExitLock | ExitSet | ExitRel | ExitSwtch | Exited
    | WaitAcq | WaitScan(i: nat, kids: bool) | WaitChild(i: nat) | WaitKilled | WaitRel
    | ForkScan(i: nat) | ForkCheck(i: nat) | ForkCopy(i: nat)
    | ForkWait(i: nat) | ForkParent(i: nat) | ForkLock(i: nat) | ForkReady(i: nat)
    | KillScan(i: nat, pid: nat) | KillCheck(i: nat, pid: nat)

  /** lock is the CPU that holds p->lock, -1 when it is free; parent is -1 when there is none. */
  datatype Proc = Proc(state: State, chan: Chan, parent: int, killed: bool, pid: nat, level: Mlfq.Level, lock: int,
                       pc: Pc)

  /** Where the scheduler of a CPU is; InProc when the CPU runs the thread of its process. The Intr points are those of
      an interrupt handler that signals a condition while the CPU runs no process. */
  datatype SchedPc =
    | Scan(priority: nat, i: nat) | Check(priority: nat, i: nat) | Switching | InProc | Back
    | IntrAcq(l: nat) | IntrSet(l: nat) | IntrNext(i: nat, l: nat) | IntrCheck(i: nat, l: nat) | IntrRel(l: nat)

  /** proc is c->proc, -1 for none. */
  datatype Cpu = Cpu(proc: int, at: SchedPc)

  datatype Sys = Sys(procs: seq<Proc>, cpus: seq<Cpu>, locks: seq<int>, cond: seq<bool>, initproc: nat, nextpid: nat)

  /** What a thread does next is chosen from outside: the system call, whether a timer interrupt comes first, whether
      memory or a copy fails, and whether a process that saw its condition leaves it true. Tick is a timer interrupt
      in user space, Preempt one in the kernel. A process that does not find its condition goes to sleep, or first looks
      whether it has been killed. Signal(l) makes condition l true and wakes its sleepers, as a system
      call or as an interrupt handler. */
  datatype Op = Stay | Tick | Preempt | Exit | Wait | Fork | Kill(pid: nat) | Await(l: nat) | Signal(l: nat)
  datatype Choice = Choice(op: Op, ok: bool)

  // ---- Steps ------------------------------------------------------------------------------------------

  function ChanOf(p: nat, l: nat): Chan {
    if l == 0 then OfProc(p) else OfCond(l)
  }

  function Target(k: Waker, initproc: nat): Chan {
    match k
    case ReparentWake(_) => OfProc(initproc)
    case ExitWake(par) => if par < 0 then NoChan else OfProc(par)
    case SignalWake(l, _) => OfCond(l)
  }

  predicate WakerInRange(k: Waker, n: nat, m: nat) {
    match k
    case ReparentWake(j) => j < n
    case ExitWake(par) => -1 <= par < n
    case SignalWake(l, _) => 0 < l < m
  }

  predicate Yielding(pc: Pc) {
    pc.YieldAcq? || pc.YieldSet? || pc.YieldSwtch? || pc.YieldBack?
  }

  /** The thread is in a signal, its wakeup included. */
  predicate Signalling(pc: Pc) {
    pc.SignalAcq? || pc.SignalSet? || pc.SignalRel? || ((pc.WakeNext? || pc.WakeCheck?) && pc.k.SignalWake?)
  }

  /** The points of a thread that holds no lock: interrupts are on, so one may come. */
  predicate Idle(pc: Pc) {
    pc.Run? || pc.CondAcq? || pc.SleepRelock? || pc.ExitAcq? || pc.WaitAcq? || pc.ForkScan? || pc.ForkWait? ||
    pc.ForkLock? || pc.KillScan?
  }

  /** What the thread is doing, whether or not it has been interrupted. */
  function Origin(pc: Pc): Pc {
    if Yielding(pc) || pc.SignalAcq? || pc.SignalSet? || pc.SignalRel? then pc.back
    else if Signalling(pc) then pc.k.back
    else pc
  }

  predicate PcInRange(pc: Pc, n: nat, m: nat) {
    && PointInRange(pc, n, m)
    && (Yielding(pc) || Signalling(pc) ==> Idle(Origin(pc)) && PointInRange(Origin(pc), n, m))
  }

  predicate PointInRange(pc: Pc, n: nat, m: nat) {
    match pc
    case CondAcq(l) => 0 < l < m
    case CondTest(l) => 0 < l < m
    case CondKilled(l) => 0 < l < m
    case CondRel(l) => 0 < l < m
    case SignalAcq(l, _) => 0 < l < m
    case SignalSet(l, _) => 0 < l < m
    case SignalRel(l, _) => 0 < l < m
    case SleepAcq(l) => l < m
    case SleepRel(l) => l < m
    case SleepSet(l) => l < m
    case SleepSwtch(l) => l < m
    case SleepBack(l) => l < m
    case SleepRelock(l) => l < m
    case WakeNext(i, k) => i <= n && WakerInRange(k, n, m)
    case WakeCheck(i, k) => i < n && WakerInRange(k, n, m)
    case Reparent(i) => i <= n
    case WaitScan(i, _) => i <= n
    case WaitChild(i) => i < n
    case ForkScan(i) => i <= n
    case ForkCheck(i) => i < n
    case ForkCopy(i) => i < n
    case ForkWait(i) => i < n
    case ForkParent(i) => i < n
    case ForkLock(i) => i < n
    case ForkReady(i) => i < n
    case KillScan(i, _) => i <= n
    case KillCheck(i, _) => i < n
    case _ => true
  }

  predicate ProcOk(q: Proc, n: nat, m: nat, cpus: nat) {
    -1 <= q.lock < cpus && -1 <= q.parent < n && PcInRange(q.pc, n, m)
  }

  predicate CpuInRange(u: Cpu, n: nat, m: nat) {
    -1 <= u.proc < n && match u.at
    case Scan(_, i) => u.proc == -1 && i <= n
    case Check(_, i) => u.proc == -1 && i < n
    case IntrAcq(l) => u.proc == -1 && 0 < l < m
    case IntrSet(l) => u.proc == -1 && 0 < l < m
    case IntrNext(i, l) => u.proc == -1 && i <= n && 0 < l < m
    case IntrCheck(i, l) => u.proc == -1 && i < n && 0 < l < m
    case IntrRel(l) => u.proc == -1 && 0 < l < m
    case _ => u.proc >= 0
  }

  predicate Shape(s: Sys) {
    && s.initproc < |s.procs| && 0 < |s.locks| == |s.cond|
    && (forall p :: 0 <= p < |s.procs| ==> ProcOk(s.procs[p], |s.procs|, |s.locks|, |s.cpus|))
    && (forall c :: 0 <= c < |s.cpus| ==> CpuInRange(s.cpus[c], |s.procs|, |s.locks|))
    && (forall l :: 0 <= l < |s.locks| ==> -1 <= s.locks[l] < |s.cpus|)
  }

  function Go(s: Sys, p: nat, pc: Pc): Sys
    requires p < |s.procs|
  {
    Put(s, p, s.procs[p].(pc := pc))
  }

  function Put(s: Sys, i: nat, q: Proc): Sys
    requires i < |s.procs|
  {
    s.(procs := s.procs[i := q])
  }

  function SetLock(s: Sys, i: nat, c: int): Sys
    requires i < |s.procs|
  {
    Put(s, i, s.procs[i].(lock := c))
  }

  /** acquire(&proc[i].lock), then on to pc. */
  function Acquire(s: Sys, c: int, p: nat, i: nat, pc: Pc): Sys
    requires p < |s.procs| && i < |s.procs|
  {
    if s.procs[i].lock != -1 then s else Go(SetLock(s, i, c), p, pc)
  }

  function Release(s: Sys, p: nat, i: nat, pc: Pc): Sys
    requires p < |s.procs| && i < |s.procs|
  {
    Go(SetLock(s, i, -1), p, pc)
  }

  function AcquireL(s: Sys, c: int, p: nat, l: nat, pc: Pc): Sys
    requires p < |s.procs| && l < |s.locks|
  {
    if s.locks[l] != -1 then s else Go(s.(locks := s.locks[l := c]), p, pc)
  }

  function ReleaseL(s: Sys, p: nat, l: nat, pc: Pc): Sys
    requires p < |s.procs| && l < |s.locks|
  {
    Go(s.(locks := s.locks[l := -1]), p, pc)
  }

  function SetState(s: Sys, p: nat, st: State): Sys
    requires p < |s.procs|
  {
    Put(s, p, s.procs[p].(state := st))
  }

  /** swtch from the thread of a process to the scheduler of its CPU. */
  function ToScheduler(s: Sys, c: nat, p: nat, pc: Pc): Sys
    requires p < |s.procs| && c < |s.cpus|
  {
    Go(s.(cpus := s.cpus[c := s.cpus[c].(at := Back)]), p, pc)
  }

  /** System calls and traps begin here. */
  function StartStep(s: Sys, p: nat, op: Op): (s': Sys)
    requires Shape(s) && p < |s.procs|
    ensures |s'.cpus| == |s.cpus| && |s'.procs| == |s.procs|
  {
    match op
    case Stay => s
    case Tick => Put(s, p, s.procs[p].(level := Mlfq.Charge(s.procs[p].level), pc := YieldAcq(Run)))
    case Preempt => s
    case Exit => if p == s.initproc then s else Go(s, p, ExitAcq)
    case Wait => Go(s, p, WaitAcq)
    case Fork => Go(s, p, ForkScan(0))
    case Kill(pid) => Go(s, p, KillScan(0, pid))
    case Await(l) => if 0 < l < |s.locks| then Go(s, p, CondAcq(l)) else s
    case Signal(_) => s
  }

  /** yield, and the first steps of a new process in forkret. */
  function YieldStep(s: Sys, c: nat, p: nat): (s': Sys)
    requires Shape(s) && p < |s.procs| && c < |s.cpus|
    ensures |s'.cpus| == |s.cpus| && |s'.procs| == |s.procs|
  {
    match s.procs[p].pc
    case YieldAcq(back) => Acquire(s, c, p, p, YieldSet(back))
    case YieldSet(back) => Put(s, p, s.procs[p].(state := Runnable, pc := YieldSwtch(back)))
    case YieldSwtch(back) => ToScheduler(s, c, p, YieldBack(back))
    case YieldBack(back) => Release(s, p, p, back)
    case ForkRet => Release(s, p, p, Run)
    case _ => s
  }

  /** sleep on lock l, and the wait and signal loops around it. */
  function SleepStep(s: Sys, c: nat, p: nat, ok: bool): (s': Sys)
    requires Shape(s) && p < |s.procs| && c < |s.cpus|
    ensures |s'.cpus| == |s.cpus| && |s'.procs| == |s.procs|
  {
    match s.procs[p].pc
    case CondAcq(l) => AcquireL(s, c, p, l, CondTest(l))
    case CondTest(l) =>
      if s.cond[l] then Go(s.(cond := s.cond[l := ok]), p, CondRel(l))
      else Go(s, p, if ok then SleepAcq(l) else CondKilled(l))
    case CondKilled(l) =>
      if s.procs[p].lock != -1 then s else Go(s, p, if s.procs[p].killed then CondRel(l) else SleepAcq(l))
    case CondRel(l) => ReleaseL(s, p, l, Run)
    case SignalAcq(l, back) => AcquireL(s, c, p, l, SignalSet(l, back))
    case SignalSet(l, back) => Go(s.(cond := s.cond[l := true]), p, WakeNext(0, SignalWake(l, back)))
    case SignalRel(l, back) => ReleaseL(s, p, l, back)
    case SleepAcq(l) => Acquire(s, c, p, p, SleepRel(l))
    case SleepRel(l) => ReleaseL(s, p, l, SleepSet(l))
    case SleepSet(l) => Put(s, p, s.procs[p].(chan := ChanOf(p, l), state := Sleeping, pc := SleepSwtch(l)))
    case SleepSwtch(l) => ToScheduler(s, c, p, SleepBack(l))
    case SleepBack(l) => Release(Put(s, p, s.procs[p].(chan := NoChan)), p, p, SleepRelock(l))
    case SleepRelock(l) => AcquireL(s, c, p, l, if l == 0 then WaitScan(0, false) else CondTest(l))
    case _ => s
  }

  /** Where wakeup returns to. */
  function AfterWake(k: Waker): Pc {
    match k
    case ReparentWake(j) => Reparent(j + 1)
    case ExitWake(_) => ExitLock
    case SignalWake(l, back) => SignalRel(l, back)
  }

  /** wakeup's loop over the process table. */
  function WakeStep(s: Sys, c: nat, p: nat): (s': Sys)
    requires Shape(s) && p < |s.procs| && c < |s.cpus|
    ensures |s'.cpus| == |s.cpus| && |s'.procs| == |s.procs|
  {
    match s.procs[p].pc
    case WakeNext(i, k) =>
      if i == |s.procs| then Go(s, p, AfterWake(k))
      else if i == p then Go(s, p, WakeNext(i + 1, k))
      else Acquire(s, c, p, i, WakeCheck(i, k))
    case WakeCheck(i, k) =>
      var q := s.procs[i];
      Release(if q.state == Sleeping && q.chan == Target(k, s.initproc)
              then SetState(s, i, Runnable) else s, p, i, WakeNext(i + 1, k))
    case _ => s
  }

  /** kexit with reparent. */
  function ExitStep(s: Sys, c: nat, p: nat): (s': Sys)
    requires Shape(s) && p < |s.procs| && c < |s.cpus|
    ensures |s'.cpus| == |s.cpus| && |s'.procs| == |s.procs|
  {
    match s.procs[p].pc
    case ExitAcq => AcquireL(s, c, p, 0, Reparent(0))
    case Reparent(i) =>
      if i == |s.procs| then Go(s, p, WakeNext(0, ExitWake(s.procs[p].parent)))
      else if s.procs[i].parent == p then
        Go(Put(s, i, s.procs[i].(parent := s.initproc)), p, WakeNext(0, ReparentWake(i)))
      else Go(s, p, Reparent(i + 1))
    case ExitLock => Acquire(s, c, p, p, ExitSet)
    case ExitSet => Put(s, p, s.procs[p].(state := Zombie, pc := ExitRel))
    case ExitRel => ReleaseL(s, p, 0, ExitSwtch)
    case ExitSwtch => ToScheduler(s, c, p, Exited)
    case _ => s
  }

  /** freeproc on the process-table fields. */
  function Freed(q: Proc): Proc {
    q.(state := Unused, chan := NoChan, parent := -1, killed := false, pid := 0)
  }

  function FreeProc(s: Sys, i: nat): Sys
    requires i < |s.procs|
  {
    Put(s, i, Freed(s.procs[i]))
  }

  /** kwait; ok says whether copyout succeeds. */
  function WaitStep(s: Sys, c: nat, p: nat, ok: bool): (s': Sys)
    requires Shape(s) && p < |s.procs| && c < |s.cpus|
    ensures |s'.cpus| == |s.cpus| && |s'.procs| == |s.procs|
  {
    match s.procs[p].pc
    case WaitAcq => AcquireL(s, c, p, 0, WaitScan(0, false))
    case WaitScan(i, kids) =>
      if i == |s.procs| then Go(s, p, if kids then WaitKilled else WaitRel)
      else if s.procs[i].parent == p then Acquire(s, c, p, i, WaitChild(i))
      else Go(s, p, WaitScan(i + 1, kids))
    case WaitChild(i) =>
      if s.procs[i].state != Zombie then Release(s, p, i, WaitScan(i + 1, true))
      else Release(if ok then FreeProc(s, i) else s, p, i, WaitRel)
    case WaitKilled => if s.procs[p].lock != -1 then s else Go(s, p, if s.procs[p].killed then WaitRel else SleepAcq(0))
    case WaitRel => ReleaseL(s, p, 0, Run)
    case _ => s
  }

  /** kfork with allocproc; ok says whether memory suffices. */
  function ForkStep(s: Sys, c: nat, p: nat, ok: bool): (s': Sys)
    requires Shape(s) && p < |s.procs| && c < |s.cpus|
    ensures |s'.cpus| == |s.cpus| && |s'.procs| == |s.procs|
  {
    match s.procs[p].pc
    case ForkScan(i) => if i == |s.procs| then Go(s, p, Run) else Acquire(s, c, p, i, ForkCheck(i))
    case ForkCheck(i) =>
      if s.procs[i].state != Unused then Release(s, p, i, ForkScan(i + 1))
      else
        var q := s.procs[i].(state := Used, pid := s.nextpid, level := Mlfq.Fresh(), pc := ForkRet);
        Go(Put(s, i, q).(nextpid := s.nextpid + 1), p, ForkCopy(i))
    case ForkCopy(i) => if ok then Release(s, p, i, ForkWait(i)) else Release(FreeProc(s, i), p, i, Run)
    case ForkWait(i) => AcquireL(s, c, p, 0, ForkParent(i))
    case ForkParent(i) => ReleaseL(Put(s, i, s.procs[i].(parent := p)), p, 0, ForkLock(i))
    case ForkLock(i) => Acquire(s, c, p, i, ForkReady(i))
    case ForkReady(i) => Release(SetState(s, i, Runnable), p, i, Run)
    case _ => s
  }

  function KillStep(s: Sys, c: nat, p: nat): (s': Sys)
    requires Shape(s) && p < |s.procs| && c < |s.cpus|
    ensures |s'.cpus| == |s.cpus| && |s'.procs| == |s.procs|
  {
    match s.procs[p].pc
    case KillScan(i, pid) => if i == |s.procs| then Go(s, p, Run) else Acquire(s, c, p, i, KillCheck(i, pid))
    case KillCheck(i, pid) =>
      var q := s.procs[i];
      if q.pid != pid then Release(s, p, i, KillScan(i + 1, pid))
      else Release(Put(s, i, q.(killed := true, state := if q.state == Sleeping then Runnable else q.state)), p, i, Run)
    case _ => s
  }

  /** The scheduler of CPU c. */
  function SchedStep(s: Sys, c: nat): (s': Sys)
    requires Shape(s) && c < |s.cpus|
    ensures |s'.cpus| == |s.cpus| && |s'.procs| == |s.procs|
  {
    var u := s.cpus[c];
    match u.at
    case Scan(priority, i) =>
      if priority >= 3 then s.(cpus := s.cpus[c := Cpu(-1, Scan(0, 0))])
      else if i == |s.procs| then s.(cpus := s.cpus[c := Cpu(-1, Scan(priority + 1, 0))])
      else if s.procs[i].lock != -1 then s
      else SetLock(s.(cpus := s.cpus[c := Cpu(-1, Check(priority, i))]), i, c)
    case Check(priority, i) =>
      if s.procs[i].state == Runnable && s.procs[i].level.priority == priority
      then SetState(s.(cpus := s.cpus[c := Cpu(i, Switching)]), i, Running)
      else SetLock(s.(cpus := s.cpus[c := Cpu(-1, Scan(priority, i + 1))]), i, -1)
    case Switching => s.(cpus := s.cpus[c := u.(at := InProc)])
    case Back => SetLock(s.(cpus := s.cpus[c := Cpu(-1, Scan(0, 0))]), u.proc, -1)
    case _ => s
  }

  /** A CPU without a process is in an interrupt handler. */
  predicate Handling(at: SchedPc) {
    at.IntrAcq? || at.IntrSet? || at.IntrNext? || at.IntrCheck? || at.IntrRel?
  }

  function AtIdle(s: Sys, c: nat, at: SchedPc): Sys
    requires c < |s.cpus|
  {
    s.(cpus := s.cpus[c := Cpu(-1, at)])
  }

  /** A handler on CPU c: myproc() is 0, so wakeup passes over no process. */
  function HandlerStep(s: Sys, c: nat): (s': Sys)
    requires Shape(s) && c < |s.cpus|
    ensures |s'.cpus| == |s.cpus| && |s'.procs| == |s.procs|
  {
    match s.cpus[c].at
    case IntrAcq(l) => if s.locks[l] != -1 then s else AtIdle(s.(locks := s.locks[l := c]), c, IntrSet(l))
    case IntrSet(l) => AtIdle(s.(cond := s.cond[l := true]), c, IntrNext(0, l))
    case IntrNext(i, l) =>
      if i == |s.procs| then AtIdle(s, c, IntrRel(l))
      else if s.procs[i].lock != -1 then s
      else AtIdle(SetLock(s, i, c), c, IntrCheck(i, l))
    case IntrCheck(i, l) =>
      var q := s.procs[i];
      var st := if q.state == Sleeping && q.chan == OfCond(l) then Runnable else q.state;
      AtIdle(Put(s, i, q.(state := st, lock := -1)), c, IntrNext(i + 1, l))
    case IntrRel(l) => AtIdle(s.(locks := s.locks[l := -1]), c, Scan(0, 0))
    case _ => s
  }

  /** A CPU that is not in a process: at the top of its loop the scheduler has interrupts on for a moment. */
  function IdleStep(s: Sys, c: nat, ch: Choice): (s': Sys)
    requires Shape(s) && c < |s.cpus|
    ensures |s'.cpus| == |s.cpus| && |s'.procs| == |s.procs|
  {
    if Handling(s.cpus[c].at) then HandlerStep(s, c)
    else if s.cpus[c].at == Scan(0, 0) && ch.op.Signal? && 0 < ch.op.l < |s.locks| then AtIdle(s, c, IntrAcq(ch.op.l))
    else SchedStep(s, c)
  }

  predicate ExitPoint(pc: Pc) {
    pc.ExitAcq? || pc.Reparent? || pc.ExitLock? || pc.ExitSet? || pc.ExitRel? || pc.ExitSwtch?
  }

  predicate WaitPoint(pc: Pc) {
    pc.WaitAcq? || pc.WaitScan? || pc.WaitChild? || pc.WaitKilled? || pc.WaitRel?
  }

  predicate ForkPoint(pc: Pc) {
    pc.ForkScan? || pc.ForkCheck? || pc.ForkCopy? || pc.ForkWait? || pc.ForkParent? || pc.ForkLock? || pc.ForkReady?
  }

  /** One step of the thread of process p on CPU c: kerneltrap calls yield, a handler or the thread itself signals a
      condition, or the thread goes on. */
  function ProcStep(s: Sys, c: nat, p: nat, ch: Choice): (s': Sys)
    requires Shape(s) && p < |s.procs| && c < |s.cpus|
    ensures |s'.cpus| == |s.cpus| && |s'.procs| == |s.procs|
  {
    var pc := s.procs[p].pc;
    if ch.op.Preempt? && Idle(pc) then Go(s, p, YieldAcq(pc))
    else if ch.op.Signal? && 0 < ch.op.l < |s.locks| && Idle(pc) then Go(s, p, SignalAcq(ch.op.l, pc))
    else if pc.Run? then StartStep(s, p, ch.op)
    else if Yielding(pc) || pc.ForkRet? then YieldStep(s, c, p)
    else if pc.WakeNext? || pc.WakeCheck? then WakeStep(s, c, p)
    else if ExitPoint(pc) then ExitStep(s, c, p)
    else if WaitPoint(pc) then WaitStep(s, c, p, ch.ok)
    else if ForkPoint(pc) then ForkStep(s, c, p, ch.ok)
    else if pc.KillScan? || pc.KillCheck? then KillStep(s, c, p)
    else SleepStep(s, c, p, ch.ok)
  }

  /** CPU c takes one step. */
  function Step(s: Sys, c: nat, ch: Choice): (s': Sys)
    requires Shape(s) && c < |s.cpus|
    ensures |s'.cpus| == |s.cpus| && |s'.procs| == |s.procs|
  {
    if s.cpus[c].at.InProc? then ProcStep(s, c, s.cpus[c].proc, ch) else IdleStep(s, c, ch)
  }

  // ---- Who holds which lock ---------------------------------------------------------------------------

  /** The thread of process p at pc holds the lock of process i. */
  predicate HasProcLock(pc: Pc, p: int, i: int) {
    match pc
    case ForkRet => i == p
    case YieldSet(_) => i == p
    case YieldSwtch(_) => i == p
    case YieldBack(_) => i == p
    case SleepRel(_) => i == p
    case SleepSet(_) => i == p
    case SleepSwtch(_) => i == p
    case SleepBack(_) => i == p
    case ExitSet => i == p
    case ExitRel => i == p
    case ExitSwtch => i == p
    case WakeCheck(j, _) => i == j
    case WaitChild(j) => i == j
    case ForkCheck(j) => i == j
    case ForkCopy(j) => i == j
    case ForkReady(j) => i == j
    case KillCheck(j, _) => i == j
    case _ => false
  }

  predicate WakerHasLock(k: Waker, l: int) {
    match k
    case SignalWake(j, _) => l == j
    case _ => l == 0
  }

  /** The thread at pc holds lock l. */
  predicate HasLock(pc: Pc, l: int) {
    match pc
    case CondTest(j) => l == j
    case CondKilled(j) => l == j
    case CondRel(j) => l == j
    case SignalSet(j, _) => l == j
    case SignalRel(j, _) => l == j
    case SleepAcq(j) => l == j
    case SleepRel(j) => l == j
    case WakeNext(_, k) => WakerHasLock(k, l)
    case WakeCheck(_, k) => WakerHasLock(k, l)
    case Reparent(_) => l == 0
    case ExitLock => l == 0
    case ExitSet => l == 0
    case ExitRel => l == 0
    case WaitScan(_, _) => l == 0
    case WaitChild(_) => l == 0
    case WaitKilled => l == 0
    case WaitRel => l == 0
    case ForkParent(_) => l == 0
    case _ => false
  }

  /** CPU c, wherever it is, holds the lock of process i. */
  predicate HoldsProc(s: Sys, c: int, i: int)
    requires Shape(s) && 0 <= c < |s.cpus|
  {
    match s.cpus[c].at
    case Check(_, j) => i == j
    case IntrCheck(j, _) => i == j
    case Switching => i == s.cpus[c].proc
    case Back => i == s.cpus[c].proc
    case InProc => HasProcLock(s.procs[s.cpus[c].proc].pc, s.cpus[c].proc, i)
    case _ => false
  }

  predicate HoldsLock(s: Sys, c: int, l: int)
    requires Shape(s) && 0 <= c < |s.cpus|
  {
    match s.cpus[c].at
    case InProc => HasLock(s.procs[s.cpus[c].proc].pc, l)
    case IntrSet(j) => l == j
    case IntrNext(_, j) => l == j
    case IntrCheck(_, j) => l == j
    case IntrRel(j) => l == j
    case _ => false
  }

  /** Every lock word agrees with where the CPUs are. */
  ghost predicate LocksOk(s: Sys)
    requires Shape(s)
  {
    && (forall c, i :: 0 <= c < |s.cpus| && 0 <= i < |s.procs| ==> (s.procs[i].lock == c <==> HoldsProc(s, c, i)))
    && (forall c, l :: 0 <= c < |s.cpus| && 0 <= l < |s.locks| ==> (s.locks[l] == c <==> HoldsLock(s, c, l)))
  }

  // ---- Processes and CPUs -----------------------------------------------------------------------------

  /** Points at which a thread waits in swtch, or has just come out of it. */
  predicate Resting(pc: Pc) {
    pc.YieldBack? || pc.SleepBack? || pc.ForkRet? || pc.Exited?
  }

  /** The state a process has while its own thread runs at pc. */
  function StateAt(pc: Pc): State {
    if pc.YieldSwtch? then Runnable
    else if pc.SleepSwtch? then Sleeping
    else if pc.ExitRel? || pc.ExitSwtch? then Zombie
    else Running
  }

  ghost predicate OnCpu(s: Sys, p: int) {
    exists c :: 0 <= c < |s.cpus| && s.cpus[c].proc == p
  }

  predicate CpuOk(s: Sys, c: int)
    requires Shape(s) && 0 <= c < |s.cpus|
  {
    var u := s.cpus[c];
    match u.at
    case Switching => s.procs[u.proc].state == Running && Resting(s.procs[u.proc].pc) && !s.procs[u.proc].pc.Exited?
    case InProc => s.procs[u.proc].state == StateAt(s.procs[u.proc].pc) && !s.procs[u.proc].pc.Exited?
    case Back => s.procs[u.proc].state != Running && Resting(s.procs[u.proc].pc)
    case _ => true
  }

  /** What the state of a process says about its thread. */
  predicate StateOk(q: Proc, p: nat) {
    match q.state
    case Unused => q.pc.ForkRet? || q.pc.Exited?
    case Used => q.pc.ForkRet?
    case Sleeping => (q.pc.SleepSwtch? || q.pc.SleepBack?) && q.chan == ChanOf(p, q.pc.l)
    case Runnable => q.pc.YieldSwtch? || (Resting(q.pc) && !q.pc.Exited?)
    case Zombie => q.pc.ExitRel? || q.pc.ExitSwtch? || q.pc.Exited?
    case Running => !q.pc.Exited?
  }

  ghost predicate TableOk(s: Sys)
    requires Shape(s)
  {
    && (forall c :: 0 <= c < |s.cpus| ==> CpuOk(s, c))
    && (forall c, d :: 0 <= c < |s.cpus| && 0 <= d < |s.cpus| && s.cpus[c].proc == s.cpus[d].proc >= 0 ==> c == d)
    && (forall p :: 0 <= p < |s.procs| ==> StateOk(s.procs[p], p))
    && (forall p :: 0 <= p < |s.procs| && (s.procs[p].state == Running || !Resting(s.procs[p].pc)) ==> OnCpu(s, p))
  }

  ghost predicate Good(s: Sys) {
    Shape(s) && TableOk(s) && LocksOk(s)
  }

  /** Between s and s' the thread of p took a step on CPU c: other threads stayed where they are, and other
      CPUs own the same locks; a process without a CPU may have been changed. */
  ghost predicate Stepped(s: Sys, s': Sys, c: nat, p: nat) {
    && Shape(s) && Shape(s') && c < |s.cpus| && p < |s.procs| && s.cpus[c] == Cpu(p, InProc)
    && |s'.procs| == |s.procs| && |s'.locks| == |s.locks|
    && (s'.cpus == s.cpus || s'.cpus == s.cpus[c := Cpu(p, Back)])
    && CpuOk(s', c)
    && (forall i :: 0 <= i < |s.procs| ==> OthersLock(s.procs[i].lock, s'.procs[i].lock, c) && StateOk(s'.procs[i], i))
    && (forall i :: 0 <= i < |s.locks| ==> OthersLock(s.locks[i], s'.locks[i], c))
    && (forall i :: 0 <= i < |s.procs| && i != p ==>
          || (s'.procs[i].pc == s.procs[i].pc && s'.procs[i].state == s.procs[i].state)
          || (!OnCpu(s, i) && s'.procs[i].state != Running && Resting(s'.procs[i].pc)))
    && Mine(s', c, p)
  }

  /** What CPU c, having process p, owns. */
  ghost predicate Mine(s: Sys, c: nat, p: nat)
    requires Shape(s) && c < |s.cpus| && p < |s.procs|
  {
    && (forall i :: 0 <= i < |s.procs| ==>
          (s.procs[i].lock == c <==> if s.cpus[c].at.InProc? then HasProcLock(s.procs[p].pc, p, i) else i == p))
    && (forall l :: 0 <= l < |s.locks| ==> (s.locks[l] == c <==> s.cpus[c].at.InProc? && HasLock(s.procs[p].pc, l)))
  }

  lemma MyLocks(s: Sys, c: nat, p: nat)
    requires Good(s) && c < |s.cpus| && s.cpus[c] == Cpu(p, InProc)
    ensures Mine(s, c, p)
  {
    forall i | 0 <= i < |s.procs| ensures s.procs[i].lock == c <==> HasProcLock(s.procs[p].pc, p, i) {
      assert s.procs[i].lock == c <==> HoldsProc(s, c, i);
    }
    forall l | 0 <= l < |s.locks| ensures s.locks[l] == c <==> HasLock(s.procs[p].pc, l) {
      assert s.locks[l] == c <==> HoldsLock(s, c, l);
    }
  }

  predicate OthersLock(was: int, now: int, c: int) {
    was == now || ((was == -1 || was == c) && (now == -1 || now == c))
  }

  lemma SteppedKeeps(s: Sys, s': Sys, c: nat, p: nat)
    requires Good(s) && Stepped(s, s', c, p)
    ensures Good(s')
  {
    forall q | 0 <= q < |s.procs| && (s'.procs[q].state == Running || !Resting(s'.procs[q].pc)) ensures OnCpu(s', q) {
      if q == p {
        assert s'.cpus[c].proc == p;
      } else {
        assert OnCpu(s, q);
        var d :| 0 <= d < |s.cpus| && s.cpus[d].proc == q;
        assert s'.cpus[d].proc == q;
      }
    }
    forall d | 0 <= d < |s.cpus| && d != c ensures s'.cpus[d] == s.cpus[d] && CpuOk(s', d) {
      var r := s.cpus[d].proc;
      assert CpuOk(s, d);
      if r >= 0 { assert OnCpu(s, r) && r != p; }
    }
    OthersHold(s, s', c, p);
  }

  lemma OthersHold(s: Sys, s': Sys, c: nat, p: nat)
    requires Good(s) && Stepped(s, s', c, p)
    ensures LocksOk(s')
  {
    forall d, i | 0 <= d < |s.cpus| && 0 <= i < |s.procs| ensures s'.procs[i].lock == d <==> HoldsProc(s', d, i) {
      if d != c {
        assert s.procs[i].lock == d <==> HoldsProc(s, d, i);
        if s.cpus[d].proc >= 0 { assert OnCpu(s, s.cpus[d].proc) && s.cpus[d].proc != p; }
      }
    }
    forall d, l | 0 <= d < |s.cpus| && 0 <= l < |s.locks| ensures s'.locks[l] == d <==> HoldsLock(s', d, l) {
      if d != c {
        assert s.locks[l] == d <==> HoldsLock(s, d, l);
        if s.cpus[d].proc >= 0 { assert OnCpu(s, s.cpus[d].proc) && s.cpus[d].proc != p; }
      }
    }
  }

  /** A process that is not running, and whose lock a CPU holds that does not have it, is on no CPU. */
  lemma LockedIsOff(s: Sys, c: nat, i: nat)
    requires Good(s) && c < |s.cpus| && i < |s.procs| && s.cpus[c].proc != i && HoldsProc(s, c, i)
    requires s.procs[i].state != Running
    ensures !OnCpu(s, i) && Resting(s.procs[i].pc) && StateOk(s.procs[i], i)
  {
    if OnCpu(s, i) {
      var d :| 0 <= d < |s.cpus| && s.cpus[d].proc == i;
      assert CpuOk(s, d);
      assert HoldsProc(s, d, i);
      assert false;
    }
  }

  lemma HeldIsOff(s: Sys, c: nat, p: nat, i: nat)
    requires Good(s) && c < |s.cpus| && i < |s.procs| && s.cpus[c] == Cpu(p, InProc) && i != p
    requires HasProcLock(s.procs[p].pc, p, i) && s.procs[i].state != Running
    ensures !OnCpu(s, i) && Resting(s.procs[i].pc) && StateOk(s.procs[i], i)
  {
    hide TableOk, LocksOk;
    LockedIsOff(s, c, i);
  }

  /** Two points hold the same locks, but for lock i of the table (a, i from -1) and lock l. */
  ghost predicate SameHeld(a: Pc, b: Pc, p: int, i: int, l: int) {
    && (forall j :: j != i ==> HasProcLock(a, p, j) == HasProcLock(b, p, j))
    && (forall j :: j != l ==> HasLock(a, j) == HasLock(b, j))
  }

  /** The thread changes its own entry, holding the same locks. */
  lemma OwnGood(s: Sys, c: nat, p: nat, q: Proc)
    requires Good(s) && c < |s.cpus| && s.cpus[c] == Cpu(p, InProc)
    requires q.lock == s.procs[p].lock && SameHeld(s.procs[p].pc, q.pc, p, -1, -1)
    requires ProcOk(q, |s.procs|, |s.locks|, |s.cpus|)
    requires q.state == StateAt(q.pc) && StateOk(q, p)
    ensures Good(Put(s, p, q))
  {
    hide LocksOk, PcInRange;
    MyLocks(s, c, p);
    SteppedKeeps(s, Put(s, p, q), c, p);
  }

  lemma AcquireGood(s: Sys, c: nat, p: nat, i: nat, pc: Pc)
    requires Good(s) && c < |s.cpus| && s.cpus[c] == Cpu(p, InProc) && i < |s.procs|
    requires PcInRange(pc, |s.procs|, |s.locks|)
    requires SameHeld(s.procs[p].pc, pc, p, i, -1) && HasProcLock(pc, p, i)
    requires StateAt(pc) == StateAt(s.procs[p].pc) == Running
    requires !pc.Exited?
    ensures Good(Acquire(s, c, p, i, pc))
  {
    hide LocksOk, PcInRange;
    MyLocks(s, c, p);
    assert CpuOk(s, c);
    if s.procs[i].lock == -1 { SteppedKeeps(s, Acquire(s, c, p, i, pc), c, p); }
  }

  lemma ReleaseGood(s: Sys, c: nat, p: nat, i: nat, pc: Pc)
    requires Good(s) && c < |s.cpus| && s.cpus[c] == Cpu(p, InProc) && i < |s.procs|
    requires PcInRange(pc, |s.procs|, |s.locks|)
    requires SameHeld(s.procs[p].pc, pc, p, i, -1) && HasProcLock(s.procs[p].pc, p, i) && !HasProcLock(pc, p, i)
    requires StateAt(pc) == StateAt(s.procs[p].pc) == Running && !pc.Exited?
    ensures Good(Release(s, p, i, pc))
  {
    hide LocksOk, PcInRange;
    MyLocks(s, c, p);
    assert CpuOk(s, c);
    SteppedKeeps(s, Release(s, p, i, pc), c, p);
  }

  lemma AcquireLGood(s: Sys, c: nat, p: nat, l: nat, pc: Pc)
    requires Good(s) && c < |s.cpus| && s.cpus[c] == Cpu(p, InProc) && l < |s.locks|
    requires PcInRange(pc, |s.procs|, |s.locks|)
    requires SameHeld(s.procs[p].pc, pc, p, -1, l) && HasLock(pc, l) && StateAt(pc) == StateAt(s.procs[p].pc) == Running
    requires !pc.Exited?
    ensures Good(AcquireL(s, c, p, l, pc))
  {
    hide LocksOk, PcInRange;
    MyLocks(s, c, p);
    assert CpuOk(s, c);
    if s.locks[l] == -1 { SteppedKeeps(s, AcquireL(s, c, p, l, pc), c, p); }
  }

  lemma ReleaseLGood(s: Sys, c: nat, p: nat, l: nat, pc: Pc)
    requires Good(s) && c < |s.cpus| && s.cpus[c] == Cpu(p, InProc) && l < |s.locks|
    requires PcInRange(pc, |s.procs|, |s.locks|)
    requires SameHeld(s.procs[p].pc, pc, p, -1, l) && HasLock(s.procs[p].pc, l) && !HasLock(pc, l)
    requires StateAt(pc) == StateAt(s.procs[p].pc) && StateOk(s.procs[p].(pc := pc), p)
    ensures Good(ReleaseL(s, p, l, pc))
  {
    hide LocksOk, PcInRange;
    MyLocks(s, c, p);
    assert CpuOk(s, c);
    SteppedKeeps(s, ReleaseL(s, p, l, pc), c, p);
  }

  /** sched: only the process's own lock is held, and its state is no longer Running. */
  lemma SwtchGood(s: Sys, c: nat, p: nat, pc: Pc)
    requires Good(s) && c < |s.cpus| && s.cpus[c] == Cpu(p, InProc) && PcInRange(pc, |s.procs|, |s.locks|)
    requires forall j :: HasProcLock(s.procs[p].pc, p, j) <==> j == p
    requires forall l :: !HasLock(s.procs[p].pc, l)
    requires Resting(pc) && StateOk(s.procs[p].(pc := pc), p) && s.procs[p].state != Running
    ensures Good(ToScheduler(s, c, p, pc))
  {
    hide LocksOk, PcInRange;
    MyLocks(s, c, p);
    SteppedKeeps(s, ToScheduler(s, c, p, pc), c, p);
  }

  /** The thread changes the entry of another process whose lock it holds. */
  lemma TouchGood(s: Sys, c: nat, p: nat, i: nat, q: Proc)
    requires Good(s) && c < |s.cpus| && s.cpus[c] == Cpu(p, InProc) && i < |s.procs| && i != p
    requires HasProcLock(s.procs[p].pc, p, i) && s.procs[i].state != Running
    requires q.lock == s.procs[i].lock && q.state != Running && StateOk(q, i) && Resting(q.pc)
    requires ProcOk(q, |s.procs|, |s.locks|, |s.cpus|)
    ensures Good(Put(s, i, q))
  {
    hide LocksOk, PcInRange;
    MyLocks(s, c, p);
    assert CpuOk(s, c);
    HeldIsOff(s, c, p, i);
    SteppedKeeps(s, Put(s, i, q), c, p);
  }

  /** Parents, kill flags, levels, pids and conditions play no part. */
  lemma DataGood(s: Sys, s': Sys)
    requires Good(s) && s' == s.(procs := s'.procs, cond := s'.cond, nextpid := s'.nextpid) && |s'.cond| == |s.cond|
    requires |s'.procs| == |s.procs|
    requires forall i :: 0 <= i < |s.procs| ==>
               var q := s'.procs[i];
               -1 <= q.parent < |s.procs| &&
                   q == s.procs[i].(parent := q.parent, killed := q.killed, level := q.level, pid := q.pid)
    ensures Good(s')
  {
    hide Idle, PcInRange;
    assert forall p :: OnCpu(s, p) ==> OnCpu(s', p);
    forall c, i | 0 <= c < |s.cpus| && 0 <= i < |s.procs| ensures s'.procs[i].lock == c <==> HoldsProc(s', c, i) {
      assert s.procs[i].lock == c <==> HoldsProc(s, c, i);
    }
    forall c, l | 0 <= c < |s.cpus| && 0 <= l < |s.locks| ensures s'.locks[l] == c <==> HoldsLock(s', c, l) {
      assert s.locks[l] == c <==> HoldsLock(s, c, l);
    }
    forall c | 0 <= c < |s.cpus| ensures CpuOk(s', c) { assert CpuOk(s, c); }
  }

  // ---- Waiting and waking -----------------------------------------------------------------------------

  /** The process has given up lock l and will be asleep, or is asleep, until woken. */
  predicate Committed(q: Proc, l: nat) {
    q.pc == SleepSet(l) || q.pc == SleepSwtch(l) || (q.pc == SleepBack(l) && q.state == Sleeping)
  }

  predicate Alive(st: State) {
    st == Runnable || st == Running || st == Sleeping
  }

  predicate ZombieKid(q: Proc, x: int) {
    q.parent == x && q.state == Zombie
  }

  /** The holder of lock l is in a wakeup that has yet to look at process x. */
  ghost predicate PendingWake(s: Sys, l: nat, x: nat)
    requires Shape(s) && l < |s.locks|
  {
    var c := s.locks[l];
    c >= 0 && (ThreadWakes(s, c, l, x) || HandlerWakes(s.cpus[c].at, l, x))
  }

  ghost predicate ThreadWakes(s: Sys, c: nat, l: nat, x: nat)
    requires Shape(s) && c < |s.cpus|
  {
    s.cpus[c].at.InProc? && s.cpus[c].proc != x &&
    var pc := s.procs[s.cpus[c].proc].pc;
    (pc.WakeNext? || pc.WakeCheck?) && Target(pc.k, s.initproc) == ChanOf(x, l) && pc.i <= x
  }

  ghost predicate HandlerWakes(at: SchedPc, l: nat, x: nat) {
    (at.IntrNext? || at.IntrCheck?) && at.l == l && at.i <= x
  }

  /** Every parent is alive, an unused slot has no parent, and init is alive and has none. */
  ghost predicate FamilyOk(s: Sys)
    requires Shape(s)
  {
    && (forall q :: 0 <= q < |s.procs| && s.procs[q].parent >= 0 ==>
          s.procs[q].parent != q && Alive(s.procs[s.procs[q].parent].state))
    && (forall q :: 0 <= q < |s.procs| && s.procs[q].state == Unused ==> s.procs[q].parent == -1)
    && s.procs[s.initproc].parent == -1 && Alive(s.procs[s.initproc].state)
  }

  ghost predicate NoZombieKids(s: Sys, p: int, k: int) {
    forall q :: 0 <= q < k <= |s.procs| && s.procs[q].parent == p ==> s.procs[q].state != Zombie
  }

  ghost predicate HasKid(s: Sys, p: int) {
    exists q :: 0 <= q < |s.procs| && s.procs[q].parent == p
  }

  ghost predicate NoKids(s: Sys, p: int, k: int) {
    forall q :: 0 <= q < k <= |s.procs| ==> s.procs[q].parent != p
  }

  ghost predicate ParentAwake(s: Sys, par: int) {
    0 <= par < |s.procs| ==> !Committed(s.procs[par], 0)
  }

  /** What the thread of p, holding wait_lock, has established. */
  ghost predicate WaitClaim(s: Sys, p: nat)
    requires Shape(s) && p < |s.procs|
  {
    match s.procs[p].pc
    case Reparent(i) => p != s.initproc && NoKids(s, p, i)
    case WakeNext(i, k) => WakerClaim(s, p, i, k)
    case WakeCheck(i, k) => WakerClaim(s, p, i, k)
    case ExitLock => p != s.initproc && NoKids(s, p, |s.procs|) && ParentAwake(s, s.procs[p].parent)
    case ExitSet => p != s.initproc && NoKids(s, p, |s.procs|) && ParentAwake(s, s.procs[p].parent)
    case WaitScan(i, kids) => NoZombieKids(s, p, i) && if kids then HasKid(s, p) else NoKids(s, p, i)
    case WaitChild(i) => NoZombieKids(s, p, i) && s.procs[i].parent == p
    case WaitKilled => NoZombieKids(s, p, |s.procs|) && HasKid(s, p)
    case SleepAcq(l) => l == 0 ==> NoZombieKids(s, p, |s.procs|) && HasKid(s, p)
    case SleepRel(l) => l == 0 ==> NoZombieKids(s, p, |s.procs|) && HasKid(s, p)
    case _ => true
  }

  ghost predicate WakerClaim(s: Sys, p: nat, i: nat, k: Waker)
    requires Shape(s) && p < |s.procs|
  {
    match k
    case ReparentWake(j) => p != s.initproc && NoKids(s, p, j + 1)
    case ExitWake(par) =>
      && p != s.initproc && NoKids(s, p, |s.procs|) && par == s.procs[p].parent
      && (0 <= par < i ==> ParentAwake(s, par))
    case SignalWake(_, _) => true
  }

  /** A process about to sleep on lock l has seen its condition false, and still holds l. */
  predicate CondClaim(s: Sys, p: nat)
    requires Shape(s) && p < |s.procs|
  {
    match s.procs[p].pc
    case CondKilled(l) => !s.cond[l]
    case SleepAcq(l) => l > 0 ==> !s.cond[l]
    case SleepRel(l) => l > 0 ==> !s.cond[l]
    case WakeNext(_, k) => k.SignalWake? ==> s.cond[k.l]
    case WakeCheck(_, k) => k.SignalWake? ==> s.cond[k.l]
    case SignalRel(l, _) => s.cond[l]
    case _ => true
  }

  /** A handler that has begun to wake has made its condition true. */
  predicate HandlerClaim(s: Sys, c: nat)
    requires Shape(s) && c < |s.cpus|
  {
    s.cpus[c].at.IntrNext? || s.cpus[c].at.IntrCheck? || s.cpus[c].at.IntrRel? ==> s.cond[s.cpus[c].at.l]
  }

  /** The slot a fork is filling, -1 for none. */
  function Making(pc: Pc): int {
    Slot(Origin(pc))
  }

  function Slot(pc: Pc): int {
    match pc
    case ForkCopy(i) => i
    case ForkWait(i) => i
    case ForkParent(i) => i
    case ForkLock(i) => i
    case ForkReady(i) => i
    case _ => -1
  }

  predicate ForkClaim(s: Sys, p: nat)
    requires Shape(s) && p < |s.procs|
  {
    var i := Making(s.procs[p].pc);
    i >= 0 ==>
      && i < |s.procs| && i != p && s.procs[i].state == Used
      && s.procs[i].parent == if Adopting(Origin(s.procs[p].pc)) then p else -1
  }

  /** The fork has made itself the parent of the child. */
  predicate Adopting(pc: Pc) {
    pc.ForkLock? || pc.ForkReady?
  }

  /** A thread that has not begun promises nothing. */
  lemma NewThread(pc: Pc)
    requires pc.ForkRet?
    ensures Origin(pc) == pc && Making(pc) == -1
  {
  }

  predicate Waking(pc: Pc) {
    pc.WakeNext? || pc.WakeCheck? || pc.SignalRel?
  }

  /** A thread that is interrupted, or may be, promises nothing about families or conditions, unless it wakes. */
  lemma NoPromise(s: Sys, p: nat)
    requires Shape(s) && p < |s.procs|
    requires Yielding(s.procs[p].pc) || Signalling(s.procs[p].pc) || Idle(s.procs[p].pc)
    requires !Waking(s.procs[p].pc)
    ensures WaitClaim(s, p) && CondClaim(s, p)
  {
    hide PcInRange;
  }

  /** No two forks fill the same slot. */
  ghost predicate Different(procs: seq<Proc>) {
    forall p, q :: 0 <= p < |procs| && 0 <= q < |procs| && Making(procs[p].pc) == Making(procs[q].pc) >= 0 ==> p == q
  }

  ghost predicate ClaimsOk(s: Sys)
    requires Shape(s)
  {
    && (forall p: nat :: p < |s.procs| ==> WaitClaim(s, p))
    && (forall p: nat :: p < |s.procs| ==> CondClaim(s, p))
    && (forall p: nat :: p < |s.procs| ==> ForkClaim(s, p))
    && (forall c: nat :: c < |s.cpus| ==> HandlerClaim(s, c))
    && Different(s.procs)
    && Origin(s.procs[s.initproc].pc) != ExitAcq
  }

  /** No wakeup is lost: a process that waits for something that is already there is about to be woken. */
  ghost predicate PendingOk(s: Sys)
    requires Shape(s)
  {
    && (forall x: nat, q: nat :: x < |s.procs| && q < |s.procs| && Committed(s.procs[x], 0) &&
                                 ZombieKid(s.procs[q], x) ==>
          PendingWake(s, 0, x))
    && (forall x: nat, l: nat :: x < |s.procs| && 0 < l < |s.locks| && Committed(s.procs[x], l) && s.cond[l] ==>
                                   PendingWake(s, l, x))
  }

  ghost predicate Inv(s: Sys) {
    Good(s) && FamilyOk(s) && ClaimsOk(s) && PendingOk(s)
  }

  /** No other thread is at a point that holds a lock this one holds. */
  lemma Alone(s: Sys, c: nat, p: nat, l: nat, q: nat)
    requires Good(s) && c < |s.cpus| && s.cpus[c] == Cpu(p, InProc) && q < |s.procs| && l < |s.locks| && q != p
    requires HasLock(s.procs[p].pc, l)
    ensures !HasLock(s.procs[q].pc, l)
  {
    if HasLock(s.procs[q].pc, l) {
      assert OnCpu(s, q);
      var d :| 0 <= d < |s.cpus| && s.cpus[d].proc == q;
      assert CpuOk(s, d);
      assert HoldsLock(s, d, l) && HoldsLock(s, c, l);
      assert false;
    }
  }

  /** A process whose lock another thread holds is not itself between taking and releasing it. */
  lemma NotInside(s: Sys, c: nat, p: nat, i: nat)
    requires Good(s) && c < |s.cpus| && s.cpus[c] == Cpu(p, InProc) && i < |s.procs| && i != p
    requires HasProcLock(s.procs[p].pc, p, i)
    ensures Resting(s.procs[i].pc) || !HasProcLock(s.procs[i].pc, i, i)
  {
    if !Resting(s.procs[i].pc) && HasProcLock(s.procs[i].pc, i, i) {
      assert OnCpu(s, i);
      var d :| 0 <= d < |s.cpus| && s.cpus[d].proc == i;
      assert CpuOk(s, d);
      assert HoldsProc(s, d, i) && HoldsProc(s, c, i);
      assert false;
    }
  }

  /** A pending wakeup of another CPU stays pending. */
  lemma PendingStays(s: Sys, s': Sys, c: nat, p: nat, l: nat, x: nat)
    requires Good(s) && Shape(s') && c < |s.cpus| && s.cpus[c] == Cpu(p, InProc) && |s'.procs| == |s.procs|
    requires |s'.locks| == |s.locks|
    requires s'.initproc == s.initproc && (s'.cpus == s.cpus || s'.cpus == s.cpus[c := Cpu(p, Back)])
    requires forall i :: 0 <= i < |s.procs| && i != p && OnCpu(s, i) ==> s'.procs[i].pc == s.procs[i].pc
    requires l < |s.locks| && OthersLock(s.locks[l], s'.locks[l], c) && PendingWake(s, l, x)
    requires s.locks[l] != c
    ensures PendingWake(s', l, x)
  {
    var d := s.locks[l];
    assert OnCpu(s, s.cpus[d].proc);
  }

  /** No tie of q changed, and q did not go to sleep in kwait, die or vanish. */
  predicate CalmProc(q: Proc, q': Proc) {
    && q'.parent == q.parent && (q'.state == Zombie ==> q.state == Zombie) && (Alive(q.state) ==> Alive(q'.state))
    && (q'.state == Unused && q.state != Unused ==> q.parent == -1)
    && (Committed(q', 0) ==> Committed(q, 0))
  }

  ghost predicate Quiet(s: Sys, s': Sys) {
    && |s'.procs| == |s.procs| && |s'.locks| == |s.locks| && s'.initproc == s.initproc
    && (forall i :: 0 <= i < |s.procs| ==> CalmProc(s.procs[i], s'.procs[i]))
  }

  ghost predicate OtherPcs(s: Sys, s': Sys, c: nat, p: nat) {
    && c < |s.cpus| && p < |s.procs| == |s'.procs| && s.cpus[c] == Cpu(p, InProc) && |s'.locks| == |s.locks|
    && s'.initproc == s.initproc && (s'.cpus == s.cpus || s'.cpus == s.cpus[c := Cpu(p, Back)])
    && (forall l :: 0 <= l < |s.locks| ==> OthersLock(s.locks[l], s'.locks[l], c))
    && (forall i :: 0 <= i < |s.procs| && i != p ==>
                      s'.procs[i].pc == s.procs[i].pc || (!OnCpu(s, i) && s'.procs[i].pc.ForkRet?))
  }

  /** No process commits itself to sleep on a condition, and no condition becomes true. */
  ghost predicate NoNewSleeper(s: Sys, s': Sys) {
    && |s'.procs| == |s.procs| && |s'.locks| == |s.locks| && |s'.cond| == |s.cond|
    && (forall l :: 0 <= l < |s.cond| && s'.cond[l] ==> s.cond[l])
    && (forall i, l: nat :: 0 <= i < |s.procs| && Committed(s'.procs[i], l) ==> Committed(s.procs[i], l))
  }

  lemma QuietFamily(s: Sys, s': Sys)
    requires Shape(s) && Shape(s') && FamilyOk(s) && Quiet(s, s')
    ensures FamilyOk(s')
  {
    forall q | 0 <= q < |s.procs| && s'.procs[q].parent >= 0
      ensures s'.procs[q].parent != q && Alive(s'.procs[s'.procs[q].parent].state)
    {
      assert CalmProc(s.procs[q], s'.procs[q]) && CalmProc(s.procs[s.procs[q].parent], s'.procs[s.procs[q].parent]);
    }
  }

  lemma QuietKids(s: Sys, s': Sys, q: nat)
    requires Quiet(s, s') && q < |s.procs|
    ensures forall k :: NoKids(s, q, k) ==> NoKids(s', q, k)
    ensures forall k :: NoZombieKids(s, q, k) ==> NoZombieKids(s', q, k)
    ensures forall par :: ParentAwake(s, par) ==> ParentAwake(s', par)
    ensures HasKid(s, q) ==> HasKid(s', q)
  {
    if HasKid(s, q) {
      var k :| 0 <= k < |s.procs| && s.procs[k].parent == q;
      assert s'.procs[k].parent == q;
    }
  }

  lemma QuietWaitClaim(s: Sys, s': Sys, q: nat)
    requires Shape(s) && Shape(s') && Quiet(s, s') && q < |s.procs| && WaitClaim(s, q)
    requires s'.procs[q].pc == s.procs[q].pc || s'.procs[q].pc.ForkRet?
    ensures WaitClaim(s', q)
  {
    QuietKids(s, s', q);
  }

  /** Only a thread with wait_lock has claims about families. */
  lemma NoLockNoClaim(s: Sys, q: nat)
    requires Shape(s) && q < |s.procs| && !HasLock(s.procs[q].pc, 0)
    ensures WaitClaim(s, q)
  {
  }

  /** What other threads claim about families survives a quiet step, and any step made with wait_lock. */
  lemma OthersWait(s: Sys, s': Sys, c: nat, p: nat, q: nat)
    requires Inv(s) && Shape(s') && OtherPcs(s, s', c, p) && q < |s.procs| && q != p
    requires Quiet(s, s') || HasLock(s.procs[p].pc, 0)
    ensures WaitClaim(s', q)
  {
    hide WaitClaim, TableOk, LocksOk, Quiet, FamilyOk, PendingOk;
    if HasLock(s.procs[p].pc, 0) {
      Alone(s, c, p, 0, q);
      NoLockNoClaim(s', q);
    } else {
      QuietWaitClaim(s, s', q);
    }
  }

  lemma OthersCond(s: Sys, s': Sys, c: nat, p: nat, q: nat, l: nat)
    requires Inv(s) && Shape(s') && OtherPcs(s, s', c, p) && q < |s.procs| && q != p && l < |s.locks|
    requires s'.cond == s.cond || (HasLock(s.procs[p].pc, l) && s'.cond == s.cond[l := s'.cond[l]])
    ensures CondClaim(s', q)
  {
    hide WaitClaim, TableOk, LocksOk, FamilyOk, PendingOk;
    assert CondClaim(s, q);
    if HasLock(s.procs[p].pc, l) { Alone(s, c, p, l, q); }
  }

  predicate KeepsSlot(q: Proc, q': Proc, p: int) {
    q'.state == Used && (q'.parent == q.parent || q.parent == p)
  }

  /** Slots being filled by other threads are left alone: the only slot that may change hands is i. */
  lemma OthersFork(s: Sys, s': Sys, c: nat, p: nat, q: nat, i: int)
    requires Inv(s) && Shape(s') && OtherPcs(s, s', c, p) && q < |s.procs| && q != p
    requires i == Making(s.procs[p].pc) || (0 <= i < |s.procs| && s.procs[i].state != Used)
    requires forall j :: 0 <= j < |s.procs| && j != i && s.procs[j].state == Used ==>
                           KeepsSlot(s.procs[j], s'.procs[j], p)
    ensures ForkClaim(s', q)
  {
    hide WaitClaim, TableOk, LocksOk, FamilyOk, PendingOk, CondClaim, PcInRange, OnCpu, Origin, Making;
    assert ForkClaim(s, q);
    if s'.procs[q].pc.ForkRet? { NewThread(s'.procs[q].pc); }
  }

  lemma OthersHandler(s: Sys, s': Sys, c: nat, p: nat, l: nat, d: nat)
    requires Inv(s) && Shape(s') && OtherPcs(s, s', c, p) && d < |s'.cpus| && l < |s.locks|
    requires s'.cond == s.cond || (HasLock(s.procs[p].pc, l) && s'.cond == s.cond[l := s'.cond[l]])
    ensures HandlerClaim(s', d)
  {
    hide WaitClaim, CondClaim, ForkClaim, TableOk, FamilyOk, PendingOk, PcInRange, Different, Origin;
    assert HandlerClaim(s, d);
    if HasLock(s.procs[p].pc, l) && d != c { OneHolder(s, c, d, l); }
  }

  lemma OneHolder(s: Sys, c: nat, d: nat, l: nat)
    requires Good(s) && c < |s.cpus| && d < |s.cpus| && c != d && l < |s.locks| && HoldsLock(s, c, l)
    ensures !HoldsLock(s, d, l)
  {
    hide TableOk, PcInRange, HoldsLock;
    assert s.locks[l] == c <==> HoldsLock(s, c, l);
    assert s.locks[l] == d <==> HoldsLock(s, d, l);
  }

  lemma AllClaims(s: Sys, s': Sys, c: nat, p: nat, i: int, l: nat)
    requires Inv(s) && Good(s') && OtherPcs(s, s', c, p)
    requires Quiet(s, s') || HasLock(s.procs[p].pc, 0)
    requires l < |s.locks| && (s'.cond == s.cond || (HasLock(s.procs[p].pc, l) && s'.cond == s.cond[l := s'.cond[l]]))
    requires i == Making(s.procs[p].pc) || (0 <= i < |s.procs| && s.procs[i].state != Used)
    requires forall j :: 0 <= j < |s.procs| && j != i && s.procs[j].state == Used ==>
                           KeepsSlot(s.procs[j], s'.procs[j], p)
    requires WaitClaim(s', p) && CondClaim(s', p) && ForkClaim(s', p)
    requires Making(s'.procs[p].pc) == -1 || Making(s'.procs[p].pc) == i
    requires Origin(s'.procs[p].pc) == ExitAcq ==> p != s.initproc
    ensures ClaimsOk(s')
  {
    hide WaitClaim, ForkClaim, CondClaim, TableOk, LocksOk, CalmProc, PendingOk, FamilyOk, Quiet, KeepsSlot, PcInRange;
    forall q: nat | q < |s.procs| ensures WaitClaim(s', q) && CondClaim(s', q) && ForkClaim(s', q) {
      if q != p {
        OthersWait(s, s', c, p, q);
        OthersCond(s, s', c, p, q, l);
        OthersFork(s, s', c, p, q, i);
      }
    }
    forall d: nat | d < |s'.cpus| ensures HandlerClaim(s', d) { OthersHandler(s, s', c, p, l, d); }
    MakersDiffer(s, s', c, p, i);
  }

  lemma MakersDiffer(s: Sys, s': Sys, c: nat, p: nat, i: int)
    requires Shape(s) && ClaimsOk(s) && OtherPcs(s, s', c, p)
    requires i == Making(s.procs[p].pc) || (0 <= i < |s.procs| && s.procs[i].state != Used)
    requires Making(s'.procs[p].pc) == -1 || Making(s'.procs[p].pc) == i
    ensures Different(s'.procs)
  {
    hide WaitClaim, CondClaim, PcInRange, ProcOk, OnCpu, Origin, Making;
    forall x, y | 0 <= x < |s'.procs| && 0 <= y < |s'.procs| && Making(s'.procs[x].pc) == Making(s'.procs[y].pc) >= 0
      ensures x == y
    {
      assert ForkClaim(s, x) && ForkClaim(s, y);
      if s'.procs[x].pc.ForkRet? { NewThread(s'.procs[x].pc); }
      if s'.procs[y].pc.ForkRet? { NewThread(s'.procs[y].pc); }
    }
  }

  /** Wakeups stay pending over the steps of a thread that is not in wakeup. */
  lemma PendingKept(s: Sys, s': Sys, c: nat, p: nat)
    requires Inv(s) && Good(s') && OtherPcs(s, s', c, p) && !s.procs[p].pc.WakeNext? && !s.procs[p].pc.WakeCheck?
    requires NoNewSleeper(s, s')
    requires forall x: nat, q: nat :: x < |s.procs| && q < |s.procs| && Committed(s'.procs[x], 0) &&
                                      ZombieKid(s'.procs[q], x) ==>
               ZombieKid(s.procs[q], x)
    ensures PendingOk(s')
  {
    hide WaitClaim, TableOk, LocksOk, FamilyOk, ClaimsOk, Committed, ZombieKid;
    forall x: nat, q: nat | x < |s.procs| && q < |s.procs| && Committed(s'.procs[x], 0) && ZombieKid(s'.procs[q], x)
      ensures PendingWake(s', 0, x)
    {
      assert Committed(s.procs[x], 0);
      PendingStays(s, s', c, p, 0, x);
    }
    forall x: nat, l: nat | x < |s.procs| && 0 < l < |s.locks| && Committed(s'.procs[x], l) && s'.cond[l]
      ensures PendingWake(s', l, x)
    {
      assert Committed(s.procs[x], l);
      PendingStays(s, s', c, p, l, x);
    }
  }

  /** Between s and s' the thread of p took a step that changes no tie and no condition and frees no slot. */
  ghost predicate Calm(s: Sys, s': Sys, c: nat, p: nat) {
    && OtherPcs(s, s', c, p) && Quiet(s, s') && s'.cond == s.cond && NoNewSleeper(s, s')
    && (forall j :: 0 <= j < |s.procs| && s.procs[j].state == Used ==> KeepsSlot(s.procs[j], s'.procs[j], p))
  }

  lemma CalmKeeps(s: Sys, s': Sys, c: nat, p: nat)
    requires Inv(s) && Good(s') && Calm(s, s', c, p) && !s.procs[p].pc.WakeNext? && !s.procs[p].pc.WakeCheck?
    requires WaitClaim(s', p) && CondClaim(s', p) && ForkClaim(s', p)
    requires Making(s'.procs[p].pc) == -1 || Making(s'.procs[p].pc) == Making(s.procs[p].pc)
    requires Origin(s'.procs[p].pc) == ExitAcq ==> p != s.initproc
    ensures Inv(s')
  {
    hide TableOk, LocksOk, FamilyOk, ClaimsOk, PendingOk, WaitClaim;
    AllClaims(s, s', c, p, Making(s.procs[p].pc), 0);
    QuietFamily(s, s');
    PendingKept(s, s', c, p);
  }

  // ---- Every step keeps the invariant -----------------------------------------------------------------

  ghost predicate Runs(s: Sys, c: nat, p: nat) {
    Good(s) && c < |s.cpus| && s.cpus[c] == Cpu(p, InProc)
  }

  lemma StateNow(s: Sys, c: nat, p: nat)
    requires Runs(s, c, p)
    ensures s.procs[p].state == StateAt(s.procs[p].pc) && StateOk(s.procs[p], p) && !s.procs[p].pc.Exited?
    ensures PcInRange(s.procs[p].pc, |s.procs|, |s.locks|)
  {
    assert CpuOk(s, c);
  }

  lemma GoGood(s: Sys, c: nat, p: nat, pc: Pc)
    requires Runs(s, c, p) && SameHeld(s.procs[p].pc, pc, p, -1, -1) && PcInRange(pc, |s.procs|, |s.locks|)
    requires StateAt(pc) == StateAt(s.procs[p].pc) == Running && !pc.Exited?
    ensures Good(Go(s, p, pc))
  {
    hide TableOk, LocksOk;
    StateNow(s, c, p);
    OwnGood(s, c, p, s.procs[p].(pc := pc));
  }

  lemma StartGood(s: Sys, c: nat, p: nat, op: Op)
    requires Runs(s, c, p) && s.procs[p].pc.Run?
    ensures Good(StartStep(s, p, op))
  {
    hide TableOk, LocksOk;
    StateNow(s, c, p);
    var s' := StartStep(s, p, op);
    OwnGood(s, c, p, s'.procs[p]);
    assert s' == s.(procs := s.procs[p := s'.procs[p]]);
  }

  lemma YieldGood(s: Sys, c: nat, p: nat)
    requires Runs(s, c, p)
    ensures Good(YieldStep(s, c, p))
  {
    hide TableOk, LocksOk;
    StateNow(s, c, p);
    match s.procs[p].pc {
      case YieldAcq(back) => AcquireGood(s, c, p, p, YieldSet(back));
      case YieldSet(back) => OwnGood(s, c, p, s.procs[p].(state := Runnable, pc := YieldSwtch(back)));
      case YieldSwtch(back) => SwtchGood(s, c, p, YieldBack(back));
      case YieldBack(back) => ReleaseGood(s, c, p, p, back);
      case ForkRet => ReleaseGood(s, c, p, p, Run);
      case _ =>
    }
  }

  lemma SleepGood(s: Sys, c: nat, p: nat, ok: bool)
    requires Runs(s, c, p)
    ensures Good(SleepStep(s, c, p, ok))
  {
    hide TableOk, LocksOk, Idle;
    StateNow(s, c, p);
    match s.procs[p].pc {
      case SleepAcq(l) => AcquireGood(s, c, p, p, SleepRel(l));
      case SleepRel(l) => ReleaseLGood(s, c, p, l, SleepSet(l));
      case SleepSet(l) => OwnGood(s, c, p, s.procs[p].(chan := ChanOf(p, l), state := Sleeping, pc := SleepSwtch(l)));
      case SleepSwtch(l) => SwtchGood(s, c, p, SleepBack(l));
      case SleepBack(_) => AwakeGood(s, c, p, ok);
      case SleepRelock(_) => AwakeGood(s, c, p, ok);
      case _ => CondGood(s, c, p, ok);
    }
  }

  /** sleep after it has been woken. */
  lemma AwakeGood(s: Sys, c: nat, p: nat, ok: bool)
    requires Runs(s, c, p) && (s.procs[p].pc.SleepBack? || s.procs[p].pc.SleepRelock?)
    ensures Good(SleepStep(s, c, p, ok))
  {
    hide TableOk, LocksOk, Idle;
    StateNow(s, c, p);
    var l := s.procs[p].pc.l;
    if s.procs[p].pc.SleepBack? {
      OwnGood(s, c, p, s.procs[p].(chan := NoChan));
      ReleaseGood(Put(s, p, s.procs[p].(chan := NoChan)), c, p, p, SleepRelock(l));
    } else {
      AcquireLGood(s, c, p, l, if l == 0 then WaitScan(0, false) else CondTest(l));
    }
  }

  lemma CondGood(s: Sys, c: nat, p: nat, ok: bool)
    requires Runs(s, c, p)
    requires var pc := s.procs[p].pc; !pc.SleepAcq? && !pc.SleepRel? && !pc.SleepSet? && !pc.SleepSwtch? &&
                                      !pc.SleepBack? && !pc.SleepRelock?
    ensures Good(SleepStep(s, c, p, ok))
  {
    hide TableOk, LocksOk, Idle;
    StateNow(s, c, p);
    match s.procs[p].pc {
      case CondAcq(l) => AcquireLGood(s, c, p, l, CondTest(l));
      case CondTest(_) => CondChangeGood(s, c, p, ok);
      case CondKilled(l) => GoGood(s, c, p, if s.procs[p].killed then CondRel(l) else SleepAcq(l));
      case CondRel(l) => ReleaseLGood(s, c, p, l, Run);
      case SignalAcq(l, back) => AcquireLGood(s, c, p, l, SignalSet(l, back));
      case SignalSet(_, _) => CondChangeGood(s, c, p, ok);
      case SignalRel(l, back) => SignalRelGood(s, c, p, ok);
      case _ =>
    }
  }

  lemma SignalRelGood(s: Sys, c: nat, p: nat, ok: bool)
    requires Runs(s, c, p) && s.procs[p].pc.SignalRel?
    ensures Good(SleepStep(s, c, p, ok))
  {
    hide TableOk, LocksOk;
    StateNow(s, c, p);
    ReleaseLGood(s, c, p, s.procs[p].pc.l, s.procs[p].pc.back);
  }

  /** The steps that read or set a condition. */
  lemma CondChangeGood(s: Sys, c: nat, p: nat, ok: bool)
    requires Runs(s, c, p) && (s.procs[p].pc.CondTest? || s.procs[p].pc.SignalSet?)
    ensures Good(SleepStep(s, c, p, ok))
  {
    hide TableOk, LocksOk, Idle;
    StateNow(s, c, p);
    var l := s.procs[p].pc.l;
    if s.procs[p].pc.CondTest? {
      DataGood(s, s.(cond := s.cond[l := ok]));
      GoGood(s.(cond := s.cond[l := ok]), c, p, CondRel(l));
      GoGood(s, c, p, if ok then SleepAcq(l) else CondKilled(l));
    } else {
      DataGood(s, s.(cond := s.cond[l := true]));
      GoGood(s.(cond := s.cond[l := true]), c, p, WakeNext(0, SignalWake(l, s.procs[p].pc.back)));
    }
  }

  lemma WakeCheckGood(s: Sys, c: nat, p: nat, i: nat, k: Waker)
    requires Runs(s, c, p) && s.procs[p].pc == WakeCheck(i, k)
    ensures Good(WakeStep(s, c, p))
  {
    hide TableOk, LocksOk;
    StateNow(s, c, p);
    if s.procs[i].state == Sleeping && s.procs[i].chan == Target(k, s.initproc) {
      WakeOneGood(s, c, p, i);
      ReleaseGood(SetState(s, i, Runnable), c, p, i, WakeNext(i + 1, k));
    } else {
      ReleaseGood(s, c, p, i, WakeNext(i + 1, k));
    }
  }

  lemma WakeGood(s: Sys, c: nat, p: nat)
    requires Runs(s, c, p)
    ensures Good(WakeStep(s, c, p))
  {
    hide TableOk, LocksOk;
    StateNow(s, c, p);
    match s.procs[p].pc {
      case WakeNext(i, k) =>
        if i == |s.procs| {
          GoGood(s, c, p, AfterWake(k));
        } else if i == p {
          GoGood(s, c, p, WakeNext(i + 1, k));
        } else {
          AcquireGood(s, c, p, i, WakeCheck(i, k));
        }
      case WakeCheck(i, k) => WakeCheckGood(s, c, p, i, k);
      case _ =>
    }
  }

  /** A sleeper whose lock is held may be made runnable. */
  lemma WakeOneGood(s: Sys, c: nat, p: nat, i: nat)
    requires Runs(s, c, p) && i < |s.procs| && HasProcLock(s.procs[p].pc, p, i) && s.procs[i].state == Sleeping
    requires StateAt(s.procs[p].pc) == Running
    ensures i != p && Good(SetState(s, i, Runnable))
  {
    hide TableOk, LocksOk;
    StateNow(s, c, p);
    HeldIsOff(s, c, p, i);
    TouchGood(s, c, p, i, s.procs[i].(state := Runnable));
  }

  lemma ReparentGood(s: Sys, c: nat, p: nat, i: nat)
    requires Runs(s, c, p) && s.procs[p].pc == Reparent(i) && i < |s.procs|
    ensures Good(Go(Put(s, i, s.procs[i].(parent := s.initproc)), p, WakeNext(0, ReparentWake(i))))
  {
    hide TableOk, LocksOk;
    StateNow(s, c, p);
    DataGood(s, Put(s, i, s.procs[i].(parent := s.initproc)));
    GoGood(Put(s, i, s.procs[i].(parent := s.initproc)), c, p, WakeNext(0, ReparentWake(i)));
  }

  lemma ReparentStepGood(s: Sys, c: nat, p: nat)
    requires Runs(s, c, p) && s.procs[p].pc.Reparent?
    ensures Good(ExitStep(s, c, p))
  {
    hide TableOk, LocksOk;
    StateNow(s, c, p);
    var i := s.procs[p].pc.i;
    if i == |s.procs| {
      GoGood(s, c, p, WakeNext(0, ExitWake(s.procs[p].parent)));
    } else if s.procs[i].parent == p {
      ReparentGood(s, c, p, i);
    } else {
      GoGood(s, c, p, Reparent(i + 1));
    }
  }

  lemma ExitGood(s: Sys, c: nat, p: nat)
    requires Runs(s, c, p)
    ensures Good(ExitStep(s, c, p))
  {
    hide TableOk, LocksOk, Idle;
    StateNow(s, c, p);
    match s.procs[p].pc {
      case ExitAcq => AcquireLGood(s, c, p, 0, Reparent(0));
      case Reparent(_) => ReparentStepGood(s, c, p);
      case ExitLock => AcquireGood(s, c, p, p, ExitSet);
      case ExitSet => OwnGood(s, c, p, s.procs[p].(state := Zombie, pc := ExitRel));
      case ExitRel => ReleaseLGood(s, c, p, 0, ExitSwtch);
      case ExitSwtch => SwtchGood(s, c, p, Exited);
      case _ =>
    }
  }

  lemma ReapGood(s: Sys, c: nat, p: nat, i: nat)
    requires Runs(s, c, p) && s.procs[p].pc == WaitChild(i) && s.procs[i].state == Zombie
    ensures Good(Release(FreeProc(s, i), p, i, WaitRel))
  {
    hide TableOk, LocksOk;
    StateNow(s, c, p);
    FreeGood(s, c, p, i);
    ReleaseGood(FreeProc(s, i), c, p, i, WaitRel);
  }

  lemma WaitChildGood(s: Sys, c: nat, p: nat, ok: bool)
    requires Runs(s, c, p) && s.procs[p].pc.WaitChild?
    ensures Good(WaitStep(s, c, p, ok))
  {
    hide TableOk, LocksOk;
    StateNow(s, c, p);
    var i := s.procs[p].pc.i;
    if s.procs[i].state != Zombie {
      ReleaseGood(s, c, p, i, WaitScan(i + 1, true));
    } else if ok {
      ReapGood(s, c, p, i);
    } else {
      ReleaseGood(s, c, p, i, WaitRel);
    }
  }

  lemma WaitScanGood(s: Sys, c: nat, p: nat, ok: bool)
    requires Runs(s, c, p) && s.procs[p].pc.WaitScan?
    ensures Good(WaitStep(s, c, p, ok))
  {
    hide TableOk, LocksOk;
    StateNow(s, c, p);
    var i, kids := s.procs[p].pc.i, s.procs[p].pc.kids;
    if i == |s.procs| {
      GoGood(s, c, p, if kids then WaitKilled else WaitRel);
    } else if s.procs[i].parent == p {
      AcquireGood(s, c, p, i, WaitChild(i));
    } else {
      GoGood(s, c, p, WaitScan(i + 1, kids));
    }
  }

  lemma WaitGood(s: Sys, c: nat, p: nat, ok: bool)
    requires Runs(s, c, p)
    ensures Good(WaitStep(s, c, p, ok))
  {
    hide TableOk, LocksOk;
    StateNow(s, c, p);
    match s.procs[p].pc {
      case WaitAcq => AcquireLGood(s, c, p, 0, WaitScan(0, false));
      case WaitScan(_, _) => WaitScanGood(s, c, p, ok);
      case WaitChild(_) => WaitChildGood(s, c, p, ok);
      case WaitKilled => GoGood(s, c, p, if s.procs[p].killed then WaitRel else SleepAcq(0));
      case WaitRel => ReleaseLGood(s, c, p, 0, Run);
      case _ =>
    }
  }

  /** A dead or half-made process whose lock is held is on no CPU and may be freed. */
  lemma FreeGood(s: Sys, c: nat, p: nat, i: nat)
    requires Runs(s, c, p) && i < |s.procs| && HasProcLock(s.procs[p].pc, p, i) && StateAt(s.procs[p].pc) == Running
    requires s.procs[i].state == Zombie || s.procs[i].state == Used
    ensures i != p && !OnCpu(s, i) && Good(FreeProc(s, i))
  {
    hide TableOk, LocksOk;
    StateNow(s, c, p);
    HeldIsOff(s, c, p, i);
    TouchGood(s, c, p, i, Freed(s.procs[i]));
  }

  lemma ForkScanGood(s: Sys, c: nat, p: nat, ok: bool)
    requires Runs(s, c, p) && (s.procs[p].pc.ForkScan? || s.procs[p].pc.ForkCheck?)
    ensures Good(ForkStep(s, c, p, ok))
  {
    hide TableOk, LocksOk;
    StateNow(s, c, p);
    var i := s.procs[p].pc.i;
    if s.procs[p].pc.ForkScan? {
      if i == |s.procs| { GoGood(s, c, p, Run); } else { AcquireGood(s, c, p, i, ForkCheck(i)); }
    } else {
      if s.procs[i].state != Unused { ReleaseGood(s, c, p, i, ForkScan(i + 1)); } else { ClaimSlotGood(s, c, p, i); }
    }
  }

  lemma ForkGood(s: Sys, c: nat, p: nat, ok: bool)
    requires Runs(s, c, p) && ForkClaim(s, p)
    ensures Good(ForkStep(s, c, p, ok))
  {
    hide TableOk, LocksOk, Idle, PcInRange;
    StateNow(s, c, p);
    match s.procs[p].pc {
      case ForkScan(_) => ForkScanGood(s, c, p, ok);
      case ForkCheck(_) => ForkScanGood(s, c, p, ok);
      case ForkCopy(i) => if ok { ForkLocksGood(s, c, p, ok); } else { ForkFailGood(s, c, p, i); }
      case ForkWait(_) => ForkLocksGood(s, c, p, ok);
      case ForkParent(i) => ForkParentGood(s, c, p, i);
      case ForkLock(_) => ForkLocksGood(s, c, p, ok);
      case ForkReady(i) => ForkReadyGood(s, c, p, i);
      case _ =>
    }
  }

  /** The steps of kfork that only take or release a lock. */
  lemma ForkLocksGood(s: Sys, c: nat, p: nat, ok: bool)
    requires Runs(s, c, p)
    requires (s.procs[p].pc.ForkCopy? && ok) || s.procs[p].pc.ForkWait? || s.procs[p].pc.ForkLock?
    ensures Good(ForkStep(s, c, p, ok))
  {
    hide TableOk, LocksOk, Idle;
    StateNow(s, c, p);
    var i := s.procs[p].pc.i;
    if s.procs[p].pc.ForkCopy? {
      ReleaseGood(s, c, p, i, ForkWait(i));
    } else if s.procs[p].pc.ForkWait? {
      AcquireLGood(s, c, p, 0, ForkParent(i));
    } else {
      AcquireGood(s, c, p, i, ForkReady(i));
    }
  }

  lemma ForkFailGood(s: Sys, c: nat, p: nat, i: nat)
    requires Runs(s, c, p) && s.procs[p].pc == ForkCopy(i) && s.procs[i].state == Used
    ensures Good(ForkStep(s, c, p, false))
  {
    hide TableOk, LocksOk;
    StateNow(s, c, p);
    FreeGood(s, c, p, i);
    ReleaseGood(FreeProc(s, i), c, p, i, Run);
  }

  lemma ForkParentGood(s: Sys, c: nat, p: nat, i: nat)
    requires Runs(s, c, p) && s.procs[p].pc == ForkParent(i) && i != p
    ensures Good(ReleaseL(Put(s, i, s.procs[i].(parent := p)), p, 0, ForkLock(i)))
  {
    hide TableOk, LocksOk;
    StateNow(s, c, p);
    DataGood(s, Put(s, i, s.procs[i].(parent := p)));
    ReleaseLGood(Put(s, i, s.procs[i].(parent := p)), c, p, 0, ForkLock(i));
  }

  lemma ForkReadyGood(s: Sys, c: nat, p: nat, i: nat)
    requires Runs(s, c, p) && s.procs[p].pc == ForkReady(i) && s.procs[i].state == Used && i != p
    ensures Good(Release(SetState(s, i, Runnable), p, i, Run))
  {
    hide TableOk, LocksOk;
    StateNow(s, c, p);
    HeldIsOff(s, c, p, i);
    TouchGood(s, c, p, i, s.procs[i].(state := Runnable));
    ReleaseGood(SetState(s, i, Runnable), c, p, i, Run);
  }

  lemma ClaimSlotGood(s: Sys, c: nat, p: nat, i: nat)
    requires Runs(s, c, p) && s.procs[p].pc == ForkCheck(i) && s.procs[i].state == Unused
    ensures Good(ForkStep(s, c, p, true)) && ForkStep(s, c, p, true) == ForkStep(s, c, p, false)
  {
    hide TableOk, LocksOk;
    StateNow(s, c, p);
    var q := s.procs[i].(state := Used, pid := s.nextpid, level := Mlfq.Fresh(), pc := ForkRet);
    TouchGood(s, c, p, i, q);
    var s1 := Put(s, i, q);
    DataGood(s1, s1.(nextpid := s.nextpid + 1));
    GoGood(s1.(nextpid := s.nextpid + 1), c, p, ForkCopy(i));
  }

  lemma KillOneGood(s: Sys, c: nat, p: nat, i: nat)
    requires Runs(s, c, p) && s.procs[p].pc.KillCheck? && i == s.procs[p].pc.i && s.procs[i].pid == s.procs[p].pc.pid
    ensures Good(KillStep(s, c, p))
  {
    hide TableOk, LocksOk;
    StateNow(s, c, p);
    var q := s.procs[i];
    var s1 := Put(s, i, q.(killed := true));
    DataGood(s, s1);
    if q.state == Sleeping { WakeOneGood(s1, c, p, i); }
    var s2 := Put(s, i, q.(killed := true, state := if q.state == Sleeping then Runnable else q.state));
    assert s2 == if q.state == Sleeping then SetState(s1, i, Runnable) else s1;
    ReleaseGood(s2, c, p, i, Run);
  }

  lemma KillGood(s: Sys, c: nat, p: nat)
    requires Runs(s, c, p)
    ensures Good(KillStep(s, c, p))
  {
    hide TableOk, LocksOk, Idle, KillStep;
    StateNow(s, c, p);
    match s.procs[p].pc {
      case KillScan(i, pid) => KillScanGood(s, c, p, i);
      case KillCheck(i, pid) => if s.procs[i].pid != pid { KillPassGood(s, c, p, i); } else { KillOneGood(s, c, p, i); }
      case _ => KillNone(s, c, p);
    }
  }

  lemma KillNone(s: Sys, c: nat, p: nat)
    requires Shape(s) && p < |s.procs| && c < |s.cpus| && !s.procs[p].pc.KillScan? && !s.procs[p].pc.KillCheck?
    ensures KillStep(s, c, p) == s
  {
    hide PcInRange;
  }

  lemma KillScanGood(s: Sys, c: nat, p: nat, i: nat)
    requires Runs(s, c, p) && s.procs[p].pc.KillScan? && i == s.procs[p].pc.i
    ensures Good(KillStep(s, c, p))
  {
    hide TableOk, LocksOk, Idle;
    StateNow(s, c, p);
    if i == |s.procs| { GoGood(s, c, p, Run); } else { AcquireGood(s, c, p, i, KillCheck(i, s.procs[p].pc.pid)); }
  }

  lemma KillPassGood(s: Sys, c: nat, p: nat, i: nat)
    requires Runs(s, c, p) && s.procs[p].pc.KillCheck? && i == s.procs[p].pc.i && s.procs[i].pid != s.procs[p].pc.pid
    ensures Good(KillStep(s, c, p))
  {
    hide TableOk, LocksOk, Idle;
    StateNow(s, c, p);
    ReleaseGood(s, c, p, i, KillScan(i + 1, s.procs[p].pc.pid));
  }

  /** Between s and s' the scheduler of CPU c took a step. */
  ghost predicate Scheduled(s: Sys, s': Sys, c: nat) {
    && Shape(s) && Shape(s') && c < |s.cpus| == |s'.cpus| && |s'.procs| == |s.procs|
    && !s.cpus[c].at.InProc? && !Handling(s.cpus[c].at) && !Handling(s'.cpus[c].at)
    && s' == s.(cpus := s.cpus[c := s'.cpus[c]], procs := s'.procs)
    && (forall i :: 0 <= i < |s.procs| ==>
          && OthersLock(s.procs[i].lock, s'.procs[i].lock, c) && StateOk(s'.procs[i], i)
          && s'.procs[i] == s.procs[i].(lock := s'.procs[i].lock, state := s'.procs[i].state)
          && (s'.procs[i].lock == c <==> HoldsProc(s', c, i))
          && (s'.procs[i].state == s.procs[i].state ||
              (!OnCpu(s, i) && s.procs[i].state == Runnable && s'.procs[i].state == Running && s'.cpus[c].proc == i)))
    && CpuOk(s', c) && (forall l :: 0 <= l < |s.locks| ==> !HoldsLock(s', c, l))
    && (s'.cpus[c].proc == s.cpus[c].proc || s'.cpus[c].proc == -1 || !OnCpu(s, s'.cpus[c].proc))
    && (s.cpus[c].proc >= 0 && s'.cpus[c].proc != s.cpus[c].proc ==>
          s'.procs[s.cpus[c].proc].state != Running && Resting(s'.procs[s.cpus[c].proc].pc))
  }

  lemma ScheduledKeeps(s: Sys, s': Sys, c: nat)
    requires Good(s) && Scheduled(s, s', c)
    ensures Good(s')
  {
    ScheduledLocks(s, s', c);
    forall d | 0 <= d < |s.cpus| && d != c ensures s'.cpus[d] == s.cpus[d] && CpuOk(s', d) {
      assert CpuOk(s, d);
      if s.cpus[d].proc >= 0 { assert OnCpu(s, s.cpus[d].proc); }
    }
    forall q | 0 <= q < |s.procs| && (s'.procs[q].state == Running || !Resting(s'.procs[q].pc)) ensures OnCpu(s', q) {
      if s'.cpus[c].proc != q {
        assert OnCpu(s, q);
        var d :| 0 <= d < |s.cpus| && s.cpus[d].proc == q;
        assert s'.cpus[d].proc == q;
      }
    }
  }

  lemma ScheduledLocks(s: Sys, s': Sys, c: nat)
    requires Good(s) && Scheduled(s, s', c)
    ensures LocksOk(s')
  {
    forall d, i | 0 <= d < |s.cpus| && 0 <= i < |s.procs| ensures s'.procs[i].lock == d <==> HoldsProc(s', d, i) {
      if d != c { assert s.procs[i].lock == d <==> HoldsProc(s, d, i); }
    }
    forall d, l | 0 <= d < |s.cpus| && 0 <= l < |s.locks| ensures s'.locks[l] == d <==> HoldsLock(s', d, l) {
      assert s.locks[l] == d <==> HoldsLock(s, d, l);
    }
  }

  /** A runnable process whose lock a scheduler holds is on no CPU. */
  lemma PickedIsOff(s: Sys, c: nat, i: nat)
    requires Good(s) && c < |s.cpus| && s.cpus[c].at.Check? && i == s.cpus[c].at.i && s.procs[i].state == Runnable
    ensures !OnCpu(s, i) && Resting(s.procs[i].pc) && !s.procs[i].pc.Exited?
  {
    hide TableOk, LocksOk;
    LockedIsOff(s, c, i);
  }

  lemma SchedMine(s: Sys, c: nat)
    requires Good(s) && c < |s.cpus| && !s.cpus[c].at.InProc? && !Handling(s.cpus[c].at)
    ensures CpuOk(s, c) && forall i :: 0 <= i < |s.procs| ==>
              StateOk(s.procs[i], i) &&
                  (s.procs[i].lock == c <==>
                     !s.cpus[c].at.Scan? && i == if s.cpus[c].at.Check? then s.cpus[c].at.i else s.cpus[c].proc)
  {
    forall i | 0 <= i < |s.procs| ensures s.procs[i].lock == c <==> HoldsProc(s, c, i) {
    }
  }

  lemma ScanScheduled(s: Sys, c: nat)
    requires Good(s) && c < |s.cpus| && s.cpus[c].at.Scan?
    ensures SchedStep(s, c) == s || Scheduled(s, SchedStep(s, c), c)
  {
    hide TableOk, LocksOk;
    SchedMine(s, c);
  }

  lemma CheckScheduled(s: Sys, c: nat)
    requires Good(s) && c < |s.cpus| && s.cpus[c].at.Check?
    ensures Scheduled(s, SchedStep(s, c), c)
  {
    hide TableOk, LocksOk, PcInRange, Scheduled;
    var i := s.cpus[c].at.i;
    if s.procs[i].state == Runnable && s.procs[i].level.priority == s.cpus[c].at.priority {
      PickScheduled(s, c);
    } else {
      PassScheduled(s, c);
    }
  }

  lemma PickScheduled(s: Sys, c: nat)
    requires Good(s) && c < |s.cpus| && s.cpus[c].at.Check? && s.procs[s.cpus[c].at.i].state == Runnable
    requires s.procs[s.cpus[c].at.i].level.priority == s.cpus[c].at.priority
    ensures Scheduled(s, SchedStep(s, c), c)
  {
    hide TableOk, LocksOk, PcInRange;
    SchedMine(s, c);
    PickedIsOff(s, c, s.cpus[c].at.i);
  }

  lemma PassScheduled(s: Sys, c: nat)
    requires Good(s) && c < |s.cpus| && s.cpus[c].at.Check?
    requires var q := s.procs[s.cpus[c].at.i]; q.state != Runnable || q.level.priority != s.cpus[c].at.priority
    ensures Scheduled(s, SchedStep(s, c), c)
  {
    hide TableOk, LocksOk, PcInRange;
    SchedMine(s, c);
  }

  lemma SwitchScheduled(s: Sys, c: nat)
    requires Good(s) && c < |s.cpus| && (s.cpus[c].at.Switching? || s.cpus[c].at.Back?)
    ensures Scheduled(s, SchedStep(s, c), c)
  {
    hide TableOk, LocksOk;
    SchedMine(s, c);
  }

  lemma SchedGood(s: Sys, c: nat)
    requires Good(s) && c < |s.cpus| && !s.cpus[c].at.InProc? && !Handling(s.cpus[c].at)
    ensures Good(SchedStep(s, c)) && (SchedStep(s, c) == s || Scheduled(s, SchedStep(s, c), c))
  {
    hide TableOk, LocksOk, Scheduled, SchedStep;
    match s.cpus[c].at {
      case Scan(_, _) => ScanScheduled(s, c);
      case Check(_, _) => CheckScheduled(s, c);
      case _ => SwitchScheduled(s, c);
    }
    if SchedStep(s, c) != s { ScheduledKeeps(s, SchedStep(s, c), c); }
  }

  lemma SchedKeeps(s: Sys, c: nat)
    requires Inv(s) && c < |s.cpus| && !s.cpus[c].at.InProc? && !Handling(s.cpus[c].at)
    ensures Inv(SchedStep(s, c))
  {
    hide TableOk, LocksOk, SchedStep, Scheduled, FamilyOk, ClaimsOk, PendingOk, Quiet;
    SchedGood(s, c);
    var s' := SchedStep(s, c);
    if s' != s {
      SchedQuiet(s, s', c);
      QuietFamily(s, s');
      SchedClaims(s, s', c);
      SchedPending(s, s', c);
    }
  }

  lemma SchedQuiet(s: Sys, s': Sys, c: nat)
    requires Good(s) && Scheduled(s, s', c)
    ensures Quiet(s, s') && |s'.procs| == |s.procs| && |s'.locks| == |s.locks| && |s'.cond| == |s.cond|
  {
  }

  lemma SchedClaims(s: Sys, s': Sys, c: nat)
    requires Inv(s) && Good(s') && Scheduled(s, s', c) && Quiet(s, s')
    ensures ClaimsOk(s')
  {
    hide WaitClaim, TableOk, LocksOk, CalmProc, PendingOk, FamilyOk, StateOk, Quiet, Origin, Making, PcInRange;
    forall q: nat | q < |s.procs| ensures WaitClaim(s', q) && CondClaim(s', q) && ForkClaim(s', q) {
      QuietWaitClaim(s, s', q);
      assert CondClaim(s, q) && ForkClaim(s, q);
    }
    forall d: nat | d < |s.cpus| ensures HandlerClaim(s', d) { assert HandlerClaim(s, d); }
  }

  lemma SchedPending(s: Sys, s': Sys, c: nat)
    requires Inv(s) && Good(s') && Scheduled(s, s', c) && |s'.procs| == |s.procs| && |s'.locks| == |s.locks|
    requires |s'.cond| == |s.cond|
    ensures PendingOk(s')
  {
    hide WaitClaim, TableOk, LocksOk, StateOk, Scheduled, PendingWake, FamilyOk, ClaimsOk, Committed, ZombieKid;
    forall x: nat, q: nat | x < |s.procs| && q < |s.procs| && Committed(s'.procs[x], 0) && ZombieKid(s'.procs[q], x)
      ensures PendingWake(s', 0, x)
    {
      PendingSched(s, s', c, 0, x, q);
    }
    forall x: nat, l: nat | x < |s.procs| && 0 < l < |s.locks| && Committed(s'.procs[x], l) && s'.cond[l]
      ensures PendingWake(s', l, x)
    {
      PendingSched(s, s', c, l, x, x);
    }
  }

  lemma PendingSched(s: Sys, s': Sys, c: nat, l: nat, x: nat, q: nat)
    requires Shape(s) && Scheduled(s, s', c) && l < |s.locks| && x < |s.procs| && q < |s.procs|
    requires Committed(s'.procs[x], l)
    ensures Committed(s.procs[x], l) && (PendingWake(s, l, x) ==> PendingWake(s', l, x))
    ensures (ZombieKid(s'.procs[q], x) ==> ZombieKid(s.procs[q], x)) && s'.cond == s.cond
  {
  }

  // -- an interrupt handler on a CPU without a process

  /** Between s and s' the handler on CPU c took a step: no thread moved, other CPUs own the same locks, and a sleeper
      without a CPU may have become runnable. */
  ghost predicate Handled(s: Sys, s': Sys, c: nat) {
    && Shape(s) && Shape(s') && c < |s.cpus| == |s'.cpus| && |s'.procs| == |s.procs| && |s'.locks| == |s.locks|
    && s.cpus[c].proc == s'.cpus[c].proc == -1
    && s' == s.(cpus := s.cpus[c := s'.cpus[c]], procs := s'.procs, locks := s'.locks, cond := s'.cond)
    && (forall i :: 0 <= i < |s.procs| ==> HandledProc(s, s', c, i))
    && (forall l :: 0 <= l < |s.locks| ==>
          OthersLock(s.locks[l], s'.locks[l], c) && (s'.locks[l] == c <==> HoldsLock(s', c, l)))
  }

  ghost predicate HandledProc(s: Sys, s': Sys, c: nat, i: nat)
    requires Shape(s) && Shape(s') && c < |s.cpus| == |s'.cpus| && i < |s.procs| == |s'.procs|
  {
    && OthersLock(s.procs[i].lock, s'.procs[i].lock, c) && StateOk(s'.procs[i], i)
    && s'.procs[i] == s.procs[i].(lock := s'.procs[i].lock, state := s'.procs[i].state)
    && (s'.procs[i].lock == c <==> HoldsProc(s', c, i))
    && (s'.procs[i].state == s.procs[i].state ||
        (!OnCpu(s, i) && s.procs[i].state == Sleeping && s'.procs[i].state == Runnable))
  }

  lemma HandledKeeps(s: Sys, s': Sys, c: nat)
    requires Good(s) && Handled(s, s', c)
    ensures Good(s')
  {
    hide PcInRange;
    HandledLocks(s, s', c);
    hide LocksOk;
    forall d | 0 <= d < |s.cpus| ensures s'.cpus[d].proc == s.cpus[d].proc && CpuOk(s', d) {
      assert CpuOk(s, d);
      if s.cpus[d].proc >= 0 {
        assert OnCpu(s, s.cpus[d].proc);
        assert HandledProc(s, s', c, s.cpus[d].proc);
      }
    }
    forall q | 0 <= q < |s.procs| ensures StateOk(s'.procs[q], q) { assert HandledProc(s, s', c, q); }
    forall q | 0 <= q < |s.procs| && (s'.procs[q].state == Running || !Resting(s'.procs[q].pc)) ensures OnCpu(s', q) {
      assert HandledProc(s, s', c, q);
      assert OnCpu(s, q);
      var d :| 0 <= d < |s.cpus| && s.cpus[d].proc == q;
      assert s'.cpus[d].proc == q;
    }
  }

  lemma HandledLocks(s: Sys, s': Sys, c: nat)
    requires Good(s) && Handled(s, s', c)
    ensures LocksOk(s')
  {
    hide PcInRange, StateOk, TableOk;
    forall d, i | 0 <= d < |s.cpus| && 0 <= i < |s.procs| ensures s'.procs[i].lock == d <==> HoldsProc(s', d, i) {
      assert HandledProc(s, s', c, i);
      if d != c {
        assert s.procs[i].lock == d <==> HoldsProc(s, d, i);
        SameHolds(s, s', c, d, i);
      }
    }
    forall d, l | 0 <= d < |s.cpus| && 0 <= l < |s.locks| ensures s'.locks[l] == d <==> HoldsLock(s', d, l) {
      if d != c {
        assert s.locks[l] == d <==> HoldsLock(s, d, l);
        SameHoldsLock(s, s', c, d, l);
      }
    }
  }

  lemma SameHolds(s: Sys, s': Sys, c: nat, d: nat, i: nat)
    requires Handled(s, s', c) && d < |s.cpus| && d != c && i < |s.procs|
    ensures HoldsProc(s', d, i) == HoldsProc(s, d, i)
  {
    hide HasProcLock, StateOk, PcInRange;
    if s.cpus[d].proc >= 0 { assert HandledProc(s, s', c, s.cpus[d].proc); }
  }

  lemma SameHoldsLock(s: Sys, s': Sys, c: nat, d: nat, l: nat)
    requires Handled(s, s', c) && d < |s.cpus| && d != c && l < |s.locks|
    ensures HoldsLock(s', d, l) == HoldsLock(s, d, l)
  {
    hide HasLock, StateOk, PcInRange;
    if s.cpus[d].proc >= 0 { assert HandledProc(s, s', c, s.cpus[d].proc); }
  }

  /** What the CPU owns while it is in a handler. */
  lemma HandlerMine(s: Sys, c: nat)
    requires Good(s) && c < |s.cpus| && s.cpus[c].proc == -1
    ensures forall i :: 0 <= i < |s.procs| ==> StateOk(s.procs[i], i) && (s.procs[i].lock == c <==> HoldsProc(s, c, i))
    ensures forall l :: 0 <= l < |s.locks| ==> (s.locks[l] == c <==> HoldsLock(s, c, l))
  {
  }

  lemma EnterHandled(s: Sys, c: nat, l: nat)
    requires Good(s) && c < |s.cpus| && s.cpus[c] == Cpu(-1, Scan(0, 0)) && 0 < l < |s.locks|
    ensures Handled(s, AtIdle(s, c, IntrAcq(l)), c)
  {
    hide TableOk, LocksOk, PcInRange, StateOk;
    HandlerMine(s, c);
  }

  lemma LockHandled(s: Sys, c: nat)
    requires Good(s) && c < |s.cpus| && (s.cpus[c].at.IntrAcq? || s.cpus[c].at.IntrSet? || s.cpus[c].at.IntrRel?)
    ensures HandlerStep(s, c) == s || Handled(s, HandlerStep(s, c), c)
  {
    hide TableOk, LocksOk, PcInRange, StateOk;
    HandlerMine(s, c);
  }

  lemma NextHandled(s: Sys, c: nat)
    requires Good(s) && c < |s.cpus| && s.cpus[c].at.IntrNext?
    ensures HandlerStep(s, c) == s || Handled(s, HandlerStep(s, c), c)
  {
    hide TableOk, LocksOk, PcInRange;
    HandlerMine(s, c);
  }

  lemma CheckHandled(s: Sys, c: nat)
    requires Good(s) && c < |s.cpus| && s.cpus[c].at.IntrCheck?
    ensures Handled(s, HandlerStep(s, c), c)
  {
    hide TableOk, LocksOk, PcInRange;
    HandlerMine(s, c);
    var i := s.cpus[c].at.i;
    if s.procs[i].state == Sleeping { LockedIsOff(s, c, i); }
  }

  lemma HandlerGood(s: Sys, c: nat)
    requires Good(s) && c < |s.cpus| && Handling(s.cpus[c].at)
    ensures Good(HandlerStep(s, c)) && (HandlerStep(s, c) == s || Handled(s, HandlerStep(s, c), c))
  {
    hide TableOk, LocksOk, Handled, HandlerStep;
    if s.cpus[c].at.IntrNext? {
      NextHandled(s, c);
    } else if s.cpus[c].at.IntrCheck? {
      CheckHandled(s, c);
    } else {
      LockHandled(s, c);
    }
    if HandlerStep(s, c) != s { HandledKeeps(s, HandlerStep(s, c), c); }
  }

  lemma HandledQuiet(s: Sys, s': Sys, c: nat)
    requires Handled(s, s', c)
    ensures Quiet(s, s')
  {
    hide PcInRange, StateOk;
    forall i | 0 <= i < |s.procs| ensures CalmProc(s.procs[i], s'.procs[i]) { assert HandledProc(s, s', c, i); }
  }

  /** No thread is at a point that holds a lock that a handler holds. */
  lemma NobodyInside(s: Sys, c: nat, l: nat, q: nat)
    requires Good(s) && c < |s.cpus| && q < |s.procs| && l < |s.locks| && s.cpus[c].proc == -1 && HoldsLock(s, c, l)
    ensures !HasLock(s.procs[q].pc, l)
  {
    if HasLock(s.procs[q].pc, l) {
      assert OnCpu(s, q);
      var d :| 0 <= d < |s.cpus| && s.cpus[d].proc == q;
      assert CpuOk(s, d);
      assert HoldsLock(s, d, l);
      assert false;
    }
  }

  /** Only the condition of a lock the handler holds changes. */
  ghost predicate OneCond(s: Sys, s': Sys, c: nat, l: nat)
    requires Shape(s) && Shape(s') && c < |s.cpus|
  {
    l < |s.locks| == |s'.locks| && (s'.cond == s.cond || (HoldsLock(s, c, l) && s'.cond == s.cond[l := true]))
  }

  lemma HandledClaims(s: Sys, s': Sys, c: nat, l: nat)
    requires Inv(s) && Good(s') && Handled(s, s', c) && Quiet(s, s') && OneCond(s, s', c, l)
    requires HandlerClaim(s', c)
    ensures ClaimsOk(s')
  {
    hide WaitClaim, TableOk, LocksOk, CalmProc, PendingOk, FamilyOk, StateOk, Quiet, Origin, Making, PcInRange;
    forall q: nat | q < |s.procs| ensures WaitClaim(s', q) && CondClaim(s', q) && ForkClaim(s', q) {
      assert HandledProc(s, s', c, q);
      QuietWaitClaim(s, s', q);
      HandledCondClaim(s, s', c, l, q);
      assert ForkClaim(s, q);
      if Making(s.procs[q].pc) >= 0 { assert HandledProc(s, s', c, Making(s.procs[q].pc)); }
    }
    forall d: nat | d < |s.cpus| ensures HandlerClaim(s', d) { if d != c { assert HandlerClaim(s, d); } }
    forall q | 0 <= q < |s.procs| ensures s'.procs[q].pc == s.procs[q].pc { assert HandledProc(s, s', c, q); }
  }

  lemma HandledCondClaim(s: Sys, s': Sys, c: nat, l: nat, q: nat)
    requires Inv(s) && Handled(s, s', c) && OneCond(s, s', c, l) && q < |s.procs|
    ensures CondClaim(s', q)
  {
    hide WaitClaim, ForkClaim, TableOk, LocksOk, PendingOk, FamilyOk, StateOk;
    assert HandledProc(s, s', c, q);
    assert CondClaim(s, q);
    if HoldsLock(s, c, l) { NobodyInside(s, c, l, q); }
  }

  /** A handler passes by a process only when it does not sleep on the condition. */
  lemma HandlerMoves(s: Sys, c: nat, l: nat, x: nat)
    requires Good(s) && c < |s.cpus| && Handling(s.cpus[c].at) && s.cpus[c].at.l == l && x < |s.procs|
    requires HandlerWakes(s.cpus[c].at, l, x) || s.cpus[c].at.IntrSet?
    requires Committed(HandlerStep(s, c).procs[x], l)
    ensures HandlerWakes(HandlerStep(s, c).cpus[c].at, l, x)
  {
    hide TableOk, PcInRange;
    if s.cpus[c].at.IntrCheck? && s.cpus[c].at.i == x { HandlerWoke(s, c, l, x); }
  }

  lemma HandlerWoke(s: Sys, c: nat, l: nat, x: nat)
    requires Good(s) && c < |s.cpus| && s.cpus[c].at == IntrCheck(x, l)
    ensures !Committed(HandlerStep(s, c).procs[x], l)
  {
    assert StateOk(s.procs[x], x);
    if s.procs[x].pc == SleepSet(l) || s.procs[x].pc == SleepSwtch(l) {
      assert OnCpu(s, x);
      var d :| 0 <= d < |s.cpus| && s.cpus[d].proc == x;
      assert CpuOk(s, d);
      assert HoldsProc(s, d, x) && HoldsProc(s, c, x);
      assert false;
    }
  }

  lemma HandlerPendingOne(s: Sys, s': Sys, c: nat, l: nat, x: nat)
    requires Good(s) && Good(s') && Handled(s, s', c) && l < |s.locks| && x < |s.procs|
    requires s.locks[l] != c && PendingWake(s, l, x)
    ensures PendingWake(s', l, x)
  {
    hide TableOk, LocksOk, PcInRange, StateOk;
    var d := s.locks[l];
    if s.cpus[d].at.InProc? { assert HandledProc(s, s', c, s.cpus[d].proc); }
  }

  lemma HandledEntry(s: Sys, s': Sys, c: nat, x: nat, q: nat)
    requires Handled(s, s', c) && x < |s.procs| && q < |s.procs|
    ensures forall l: nat :: Committed(s'.procs[x], l) ==> Committed(s.procs[x], l)
    ensures ZombieKid(s'.procs[q], x) ==> ZombieKid(s.procs[q], x)
  {
    hide PcInRange, StateOk;
    assert HandledProc(s, s', c, x) && HandledProc(s, s', c, q);
  }

  /** Only handler points hold locks, and only one. */
  lemma HandlerLock(s: Sys, c: nat, l: nat)
    requires Good(s) && c < |s.cpus| && s.cpus[c].proc == -1 && l < |s.locks| && s.locks[l] == c
    ensures Handling(s.cpus[c].at) && s.cpus[c].at.l == l && !s.cpus[c].at.IntrAcq?
  {
    hide TableOk, PcInRange;
    assert HoldsLock(s, c, l);
  }

  lemma HandlerPending(s: Sys, c: nat)
    requires Inv(s) && c < |s.cpus| && Handling(s.cpus[c].at) && Handled(s, HandlerStep(s, c), c)
    requires Good(HandlerStep(s, c))
    ensures PendingOk(HandlerStep(s, c))
  {
    hide TableOk, LocksOk, FamilyOk, ClaimsOk, Committed, ZombieKid, Handled, HandlerStep, PendingWake, HandlerWakes;
    var s' := HandlerStep(s, c);
    HandlerSizes(s, c);
    forall x: nat, q: nat | x < |s.procs| && q < |s.procs| && Committed(s'.procs[x], 0) && ZombieKid(s'.procs[q], x)
      ensures PendingWake(s', 0, x)
    {
      HandledEntry(s, s', c, x, q);
      if s.locks[0] == c { HandlerLock(s, c, 0); }
      HandlerPendingOne(s, s', c, 0, x);
    }
    forall x: nat, l: nat | x < |s.procs| && 0 < l < |s.locks| && Committed(s'.procs[x], l) && s'.cond[l]
      ensures PendingWake(s', l, x)
    {
      HandledEntry(s, s', c, x, x);
      if s.locks[l] == c { HandlerOwn(s, c, l, x); } else { HandlerOther(s, c, l, x); }
    }
  }

  lemma HandlerSizes(s: Sys, c: nat)
    requires Shape(s) && c < |s.cpus| && Handling(s.cpus[c].at)
    ensures var s' := HandlerStep(s, c); |s'.procs| == |s.procs| && |s'.locks| == |s.locks| && |s'.cond| == |s.cond|
    ensures s.cpus[c].proc == -1
  {
    hide PcInRange;
  }

  /** The handler's own condition. */
  lemma HandlerOwn(s: Sys, c: nat, l: nat, x: nat)
    requires Inv(s) && c < |s.cpus| && Handling(s.cpus[c].at) && Handled(s, HandlerStep(s, c), c)
    requires 0 < l < |s.locks| && x < |s.procs| && s.locks[l] == c && s.cpus[c].proc == -1
    requires Committed(HandlerStep(s, c).procs[x], l) && Committed(s.procs[x], l) && HandlerStep(s, c).cond[l]
    ensures PendingWake(HandlerStep(s, c), l, x)
  {
    hide TableOk, LocksOk, FamilyOk, ClaimsOk, Committed, PcInRange, Handled;
    HandlerLock(s, c, l);
    HandlerMoves(s, c, l, x);
  }

  /** Any other condition. */
  lemma HandlerOther(s: Sys, c: nat, l: nat, x: nat)
    requires Inv(s) && c < |s.cpus| && Handling(s.cpus[c].at) && Handled(s, HandlerStep(s, c), c)
    requires Good(HandlerStep(s, c)) && 0 < l < |s.locks| && x < |s.procs| && s.locks[l] != c && s.cpus[c].proc == -1
    requires Committed(HandlerStep(s, c).procs[x], l) && Committed(s.procs[x], l) && HandlerStep(s, c).cond[l]
    ensures PendingWake(HandlerStep(s, c), l, x)
  {
    hide TableOk, LocksOk, FamilyOk, ClaimsOk, Committed, PcInRange, Handled, PendingWake;
    HandlerCond(s, c, l);
    HandlerPendingOne(s, HandlerStep(s, c), c, l, x);
  }

  /** A handler makes no condition true whose lock it does not hold. */
  lemma HandlerCond(s: Sys, c: nat, l: nat)
    requires Good(s) && c < |s.cpus| && Handling(s.cpus[c].at) && 0 < l < |s.locks| && s.locks[l] != c
    ensures l < |s.cond| == |HandlerStep(s, c).cond| && HandlerStep(s, c).cond[l] == s.cond[l]
  {
    hide TableOk, PcInRange;
    if s.cpus[c].at.IntrSet? { assert s.locks[s.cpus[c].at.l] == c <==> HoldsLock(s, c, s.cpus[c].at.l); }
  }

  lemma HandlerOneCond(s: Sys, c: nat)
    requires Shape(s) && c < |s.cpus| && Handling(s.cpus[c].at) && Shape(HandlerStep(s, c))
    requires HandlerClaim(s, c)
    ensures OneCond(s, HandlerStep(s, c), c, s.cpus[c].at.l) && HandlerClaim(HandlerStep(s, c), c)
  {
    hide PcInRange;
  }

  lemma HandlerBefore(s: Sys, c: nat)
    requires Inv(s) && c < |s.cpus|
    ensures HandlerClaim(s, c)
  {
    hide TableOk, LocksOk, FamilyOk, PendingOk, WaitClaim, CondClaim, ForkClaim, HandlerClaim;
  }

  /** Every step of an interrupt handler on a CPU without a process keeps the invariant. */
  lemma HandlerKeeps(s: Sys, c: nat)
    requires Inv(s) && c < |s.cpus| && Handling(s.cpus[c].at)
    ensures Inv(HandlerStep(s, c))
  {
    hide TableOk, LocksOk, HandlerStep, Handled, FamilyOk, ClaimsOk, PendingOk, Quiet, OneCond;
    HandlerGood(s, c);
    var s' := HandlerStep(s, c);
    if s' != s {
      HandledQuiet(s, s', c);
      QuietFamily(s, s');
      assert HandlerClaim(s, c) by { HandlerBefore(s, c); }
      HandlerOneCond(s, c);
      HandledClaims(s, s', c, s.cpus[c].at.l);
      HandlerPending(s, c);
    }
  }

  /** An interrupt on a CPU whose scheduler is at the top of its loop. */
  lemma EnterKeeps(s: Sys, c: nat, l: nat)
    requires Inv(s) && c < |s.cpus| && s.cpus[c].at == Scan(0, 0) && 0 < l < |s.locks|
    ensures Inv(AtIdle(s, c, IntrAcq(l)))
  {
    hide TableOk, LocksOk, Handled, FamilyOk, ClaimsOk, PendingOk, Quiet, PcInRange;
    var s' := AtIdle(s, c, IntrAcq(l));
    EnterHandled(s, c, l);
    HandledKeeps(s, s', c);
    HandledQuiet(s, s', c);
    QuietFamily(s, s');
    HandledClaims(s, s', c, 0);
    EnterPending(s, c, l);
  }

  lemma EnterPending(s: Sys, c: nat, l: nat)
    requires Inv(s) && c < |s.cpus| && s.cpus[c] == Cpu(-1, Scan(0, 0)) && 0 < l < |s.locks|
    requires Shape(AtIdle(s, c, IntrAcq(l)))
    ensures PendingOk(AtIdle(s, c, IntrAcq(l)))
  {
    hide TableOk, LocksOk, FamilyOk, ClaimsOk, Committed, ZombieKid, PendingWake, PcInRange;
    var s' := AtIdle(s, c, IntrAcq(l));
    forall x: nat, k: nat | x < |s.procs| && k < |s.locks| && PendingWake(s, k, x) ensures PendingWake(s', k, x) {
      PendingElsewhere(s, c, k, x, IntrAcq(l));
    }
  }

  lemma PendingElsewhere(s: Sys, c: nat, k: nat, x: nat, at: SchedPc)
    requires Shape(s) && c < |s.cpus| && s.cpus[c] == Cpu(-1, Scan(0, 0)) && k < |s.locks| && PendingWake(s, k, x)
    requires Shape(AtIdle(s, c, at))
    ensures PendingWake(AtIdle(s, c, at), k, x)
  {
    hide PcInRange;
  }

  lemma IdleKeeps(s: Sys, c: nat, ch: Choice)
    requires Inv(s) && c < |s.cpus| && !s.cpus[c].at.InProc?
    ensures Inv(IdleStep(s, c, ch))
  {
    hide TableOk, LocksOk, FamilyOk, ClaimsOk, PendingOk, HandlerStep, SchedStep, AtIdle;
    if Handling(s.cpus[c].at) {
      HandlerKeeps(s, c);
    } else if s.cpus[c].at == Scan(0, 0) && ch.op.Signal? && 0 < ch.op.l < |s.locks| {
      EnterKeeps(s, c, ch.op.l);
    } else {
      SchedKeeps(s, c);
    }
  }

  /** A point that promises nothing. */
  predicate Plain(pc: Pc) {
    pc.Run? || pc == YieldAcq(Run) || pc.ExitAcq? || pc.WaitAcq? || pc.ForkScan? ||
    pc.KillScan? || pc.KillCheck? || pc.CondAcq? || pc.ExitRel? || pc.ExitSwtch? || pc.Exited? ||
    pc.WaitRel? || pc.ForkCheck? || pc.CondTest? || pc.CondRel? || pc.SleepSet? ||
    pc.SleepSwtch? || pc.SleepBack? || pc.SleepRelock?
  }

  /** A quiet step to a point that promises nothing. */
  lemma PlainKeeps(s: Sys, s': Sys, c: nat, p: nat)
    requires Inv(s) && Good(s') && Calm(s, s', c, p) && !s.procs[p].pc.WakeNext? && !s.procs[p].pc.WakeCheck?
    requires Plain(s'.procs[p].pc) && (s'.procs[p].pc == ExitAcq ==> p != s.initproc)
    ensures Inv(s')
  {
    hide TableOk, LocksOk, FamilyOk, ClaimsOk, PendingOk, Quiet;
    CalmKeeps(s, s', c, p);
  }

  lemma StartCalm(s: Sys, c: nat, p: nat, op: Op)
    requires Runs(s, c, p) && s.procs[p].pc.Run?
    ensures var s' := StartStep(s, p, op);
            Calm(s, s', c, p) && Plain(s'.procs[p].pc) && (s'.procs[p].pc == ExitAcq ==> p != s.initproc)
  {
    hide TableOk, LocksOk;
    StateNow(s, c, p);
  }

  lemma StartKeeps(s: Sys, c: nat, p: nat, op: Op)
    requires Inv(s) && Runs(s, c, p) && s.procs[p].pc.Run?
    ensures Inv(StartStep(s, p, op))
  {
    hide TableOk, LocksOk, FamilyOk, ClaimsOk, PendingOk, StartStep, Calm, Plain;
    StartGood(s, c, p, op);
    StartCalm(s, c, p, op);
    PlainKeeps(s, StartStep(s, p, op), c, p);
  }

  /** The thread of p goes into, through or out of yield or a handler. */
  ghost predicate SamePlace(s: Sys, s': Sys, p: nat) {
    && p < |s.procs| == |s'.procs| && Origin(s'.procs[p].pc) == Origin(s.procs[p].pc)
    && (Yielding(s.procs[p].pc) || Signalling(s.procs[p].pc) || Idle(s.procs[p].pc))
    && (Yielding(s'.procs[p].pc) || Signalling(s'.procs[p].pc) || Idle(s'.procs[p].pc)) && !Waking(s'.procs[p].pc)
    && forall j :: 0 <= j < |s.procs| && j != p ==> s'.procs[j] == s.procs[j]
  }

  lemma SamePlaceKeeps(s: Sys, s': Sys, c: nat, p: nat)
    requires Inv(s) && Good(s') && Calm(s, s', c, p) && SamePlace(s, s', p)
    requires !s.procs[p].pc.WakeNext? && !s.procs[p].pc.WakeCheck?
    ensures Inv(s')
  {
    hide TableOk, LocksOk, FamilyOk, PendingOk, Quiet, WaitClaim, CondClaim, Slot, Origin, PcInRange;
    ClaimNow(s, p);
    NoPromise(s', p);
    CalmKeeps(s, s', c, p);
  }

  lemma YieldCalm(s: Sys, c: nat, p: nat)
    requires Runs(s, c, p) && Yielding(s.procs[p].pc)
    ensures Calm(s, YieldStep(s, c, p), c, p) && SamePlace(s, YieldStep(s, c, p), p)
  {
    hide Calm, TableOk, LocksOk;
    StateNow(s, c, p);
    TwoEntries(s, YieldStep(s, c, p), c, p, p);
  }

  lemma ForkRetKeeps(s: Sys, c: nat, p: nat)
    requires Inv(s) && Runs(s, c, p) && s.procs[p].pc.ForkRet?
    ensures Inv(YieldStep(s, c, p))
  {
    hide TableOk, LocksOk, FamilyOk, ClaimsOk, PendingOk, Calm;
    YieldGood(s, c, p);
    TwoEntries(s, YieldStep(s, c, p), c, p, p);
    PlainKeeps(s, YieldStep(s, c, p), c, p);
  }

  lemma YieldKeeps(s: Sys, c: nat, p: nat)
    requires Inv(s) && Runs(s, c, p) && Yielding(s.procs[p].pc)
    ensures Inv(YieldStep(s, c, p))
  {
    hide TableOk, LocksOk, FamilyOk, ClaimsOk, PendingOk, YieldStep, Calm, SamePlace;
    YieldGood(s, c, p);
    YieldCalm(s, c, p);
    SamePlaceKeeps(s, YieldStep(s, c, p), c, p);
  }

  /** A timer interrupt in the kernel: the thread goes into yield and will come back to where it was. */
  lemma PreemptKeeps(s: Sys, c: nat, p: nat)
    requires Inv(s) && Runs(s, c, p) && Idle(s.procs[p].pc)
    ensures Inv(Go(s, p, YieldAcq(s.procs[p].pc)))
  {
    hide TableOk, LocksOk, FamilyOk, ClaimsOk, PendingOk, Calm;
    var s' := Go(s, p, YieldAcq(s.procs[p].pc));
    StateNow(s, c, p);
    GoGood(s, c, p, YieldAcq(s.procs[p].pc));
    TwoEntries(s, s', c, p, p);
    SamePlaceKeeps(s, s', c, p);
  }

  /** An interrupt whose handler signals condition l, or a system call that does. */
  lemma InterruptKeeps(s: Sys, c: nat, p: nat, l: nat)
    requires Inv(s) && Runs(s, c, p) && Idle(s.procs[p].pc) && 0 < l < |s.locks|
    ensures Inv(Go(s, p, SignalAcq(l, s.procs[p].pc)))
  {
    hide TableOk, LocksOk, FamilyOk, ClaimsOk, PendingOk, Calm;
    var s' := Go(s, p, SignalAcq(l, s.procs[p].pc));
    StateNow(s, c, p);
    GoGood(s, c, p, SignalAcq(l, s.procs[p].pc));
    TwoEntries(s, s', c, p, p);
    SamePlaceKeeps(s, s', c, p);
  }

  /** Taking and releasing the lock of the condition. */
  lemma SignalKeeps(s: Sys, c: nat, p: nat, ok: bool)
    requires Inv(s) && Runs(s, c, p) && (s.procs[p].pc.SignalAcq? || s.procs[p].pc.SignalRel?)
    ensures Inv(SleepStep(s, c, p, ok))
  {
    hide TableOk, LocksOk, FamilyOk, ClaimsOk, PendingOk, Calm;
    StateNow(s, c, p);
    MyLocks(s, c, p);
    SleepGood(s, c, p, ok);
    TwoEntries(s, SleepStep(s, c, p, ok), c, p, p);
    SamePlaceKeeps(s, SleepStep(s, c, p, ok), c, p);
  }

  /** A step that changes at most the entries of p and i. */
  lemma TwoEntries(s: Sys, s': Sys, c: nat, p: nat, i: int)
    requires c < |s.cpus| && p < |s.procs| && s.cpus[c] == Cpu(p, InProc)
    requires |s'.procs| == |s.procs| && s' == s.(procs := s'.procs, locks := s'.locks, cpus := s'.cpus)
    requires |s'.locks| == |s.locks| && forall l :: 0 <= l < |s.locks| ==> OthersLock(s.locks[l], s'.locks[l], c)
    requires s'.cpus == s.cpus || s'.cpus == s.cpus[c := Cpu(p, Back)]
    requires forall j :: 0 <= j < |s.procs| && j != p && j != i ==> s'.procs[j] == s.procs[j]
    requires CalmEntry(s.procs[p], s'.procs[p])
    requires 0 <= i < |s.procs| && i != p ==> CalmEntry(s.procs[i], s'.procs[i]) && s'.procs[i].pc == s.procs[i].pc
    ensures Calm(s, s', c, p)
  {
  }

  ghost predicate CalmEntry(q: Proc, q': Proc) {
    && q'.parent == q.parent && (q'.state == q.state || (Alive(q.state) && Alive(q'.state)))
    && (forall l: nat :: Committed(q', l) ==> Committed(q, l))
  }

  lemma KillCalm(s: Sys, c: nat, p: nat)
    requires Shape(s) && c < |s.cpus| && s.cpus[c] == Cpu(p, InProc)
    requires (s.procs[p].pc.KillScan? || s.procs[p].pc.KillCheck?)
    ensures Calm(s, KillStep(s, c, p), c, p) && Plain(KillStep(s, c, p).procs[p].pc)
    ensures !KillStep(s, c, p).procs[p].pc.ExitAcq?
  {
    hide Calm;
    var i := s.procs[p].pc.i;
    TwoEntries(s, KillStep(s, c, p), c, p, i);
  }

  lemma KillKeeps(s: Sys, c: nat, p: nat)
    requires Inv(s) && Runs(s, c, p) && (s.procs[p].pc.KillScan? || s.procs[p].pc.KillCheck?)
    ensures Inv(KillStep(s, c, p))
  {
    hide TableOk, LocksOk, FamilyOk, ClaimsOk, PendingOk, KillStep, Calm, Plain;
    KillGood(s, c, p);
    KillCalm(s, c, p);
    PlainKeeps(s, KillStep(s, c, p), c, p);
  }

  lemma ClaimNow(s: Sys, p: nat)
    requires Inv(s) && p < |s.procs|
    ensures WaitClaim(s, p) && CondClaim(s, p) && ForkClaim(s, p)
  {
  }

  lemma InitStays(s: Sys)
    requires Inv(s)
    ensures Origin(s.procs[s.initproc].pc) != ExitAcq
  {
  }

  // -- sleep, and waiting for and signalling a condition

  lemma SleepCalm(s: Sys, c: nat, p: nat, ok: bool)
    requires Runs(s, c, p)
    requires var pc := s.procs[p].pc; pc.SleepSet? || pc.SleepSwtch? || pc.SleepBack? || pc.SleepAcq?
    ensures Calm(s, SleepStep(s, c, p, ok), c, p)
    ensures var pc' := SleepStep(s, c, p, ok).procs[p].pc;
            if s.procs[p].pc.SleepAcq?
                then pc' == s.procs[p].pc || pc' == SleepRel(s.procs[p].pc.l) else Plain(pc') && !pc'.ExitAcq?
  {
    hide Calm, TableOk, LocksOk;
    StateNow(s, c, p);
    TwoEntries(s, SleepStep(s, c, p, ok), c, p, p);
  }

  lemma CondCalm(s: Sys, c: nat, p: nat, ok: bool)
    requires Runs(s, c, p)
    requires var pc := s.procs[p].pc; pc.SleepRelock? || pc.CondAcq? || pc.CondRel?
    ensures Calm(s, SleepStep(s, c, p, ok), c, p)
    ensures var pc' := SleepStep(s, c, p, ok).procs[p].pc; pc' == WaitScan(0, false) || (Plain(pc') && !pc'.ExitAcq?)
  {
    hide Calm, TableOk, LocksOk;
    StateNow(s, c, p);
    MyLocks(s, c, p);
    TwoEntries(s, SleepStep(s, c, p, ok), c, p, p);
  }

  lemma SleepKeeps(s: Sys, c: nat, p: nat, ok: bool)
    requires Inv(s) && Runs(s, c, p)
    requires var pc := s.procs[p].pc;
             pc.SleepSet? || pc.SleepSwtch? || pc.SleepBack? || pc.SleepAcq? || pc.SleepRelock? || pc.CondAcq? ||
                 pc.CondRel?
    ensures Inv(SleepStep(s, c, p, ok))
  {
    hide TableOk, LocksOk, FamilyOk, ClaimsOk, PendingOk, SleepStep, Calm, Quiet, Idle, PcInRange;
    var s' := SleepStep(s, c, p, ok);
    SleepGood(s, c, p, ok);
    ClaimNow(s, p);
    var pc := s.procs[p].pc;
    if pc.SleepRelock? || pc.CondAcq? || pc.CondRel? { CondCalm(s, c, p, ok); }
        else { SleepCalm(s, c, p, ok); }
    assert Quiet(s, s') && s'.cond == s.cond by { CalmIsQuiet(s, s', c, p); }
    QuietKids(s, s', p);
    CalmKeeps(s, s', c, p);
  }

  lemma CalmIsQuiet(s: Sys, s': Sys, c: nat, p: nat)
    requires Calm(s, s', c, p)
    ensures Quiet(s, s') && s'.cond == s.cond && |s'.procs| == |s.procs|
  {
  }

  /** A process that finds its condition false goes on to sleep; one that finds it true leaves. */
  lemma CondTestKeeps(s: Sys, c: nat, p: nat, ok: bool, l: nat)
    requires Inv(s) && Runs(s, c, p) && s.procs[p].pc == CondTest(l)
    ensures Inv(SleepStep(s, c, p, ok))
  {
    hide TableOk, LocksOk, FamilyOk, ClaimsOk, PendingOk, WaitClaim, CondClaim, ForkClaim, PcInRange, SleepStep, Quiet,
         OtherPcs, NoNewSleeper, KeepsSlot, Idle;
    CondInRange(s, p);
    var s' := SleepStep(s, c, p, ok);
    SleepGood(s, c, p, ok);
    CondTestQuiet(s, c, p, ok, l);
    CondTestClaim(s, c, p, ok, l);
    AllClaims(s, s', c, p, -1, l);
    QuietFamily(s, s');
    QuietZombies(s, s');
    PendingKept(s, s', c, p);
  }

  /** A process that is about to sleep looks whether it has been killed, and then gives up. */
  lemma CondKilledKeeps(s: Sys, c: nat, p: nat, ok: bool)
    requires Inv(s) && Runs(s, c, p) && s.procs[p].pc.CondKilled?
    ensures Inv(SleepStep(s, c, p, ok))
  {
    hide TableOk, LocksOk, FamilyOk, ClaimsOk, PendingOk, Calm, Quiet, Idle, PcInRange;
    CondInRange(s, p);
    SleepGood(s, c, p, ok);
    StateNow(s, c, p);
    ClaimNow(s, p);
    TwoEntries(s, SleepStep(s, c, p, ok), c, p, p);
    CalmKeeps(s, SleepStep(s, c, p, ok), c, p);
  }

  lemma CondInRange(s: Sys, p: nat)
    requires Shape(s) && p < |s.procs|
    requires s.procs[p].pc.CondTest? || s.procs[p].pc.CondKilled? || s.procs[p].pc.SignalSet?
    ensures 0 < s.procs[p].pc.l < |s.locks|
  {
  }

  lemma CondTestQuiet(s: Sys, c: nat, p: nat, ok: bool, l: nat)
    requires Shape(s) && c < |s.cpus| && s.cpus[c] == Cpu(p, InProc) && s.procs[p].pc == CondTest(l)
    requires 0 < l < |s.locks|
    ensures var s' := SleepStep(s, c, p, ok);
            && Quiet(s, s') && OtherPcs(s, s', c, p) && NoNewSleeper(s, s')
            && (s'.cond == s.cond || (s.cond[l] && s'.cond == s.cond[l := s'.cond[l]]))
            && forall j :: 0 <= j < |s.procs| && s.procs[j].state == Used ==> KeepsSlot(s.procs[j], s'.procs[j], p)
  {
    hide PcInRange;
  }

  lemma CondTestClaim(s: Sys, c: nat, p: nat, ok: bool, l: nat)
    requires Shape(s) && c < |s.cpus| && s.cpus[c] == Cpu(p, InProc) && s.procs[p].pc == CondTest(l)
    requires 0 < l < |s.locks| && Shape(SleepStep(s, c, p, ok))
    ensures var s' := SleepStep(s, c, p, ok);
            && WaitClaim(s', p) && CondClaim(s', p) && ForkClaim(s', p) && Making(s'.procs[p].pc) == -1
            && !Origin(s'.procs[p].pc).ExitAcq?
  {
    hide PcInRange;
  }

  /** Lock l is given up, with the process's own lock held: what it waits for was not there. */
  lemma SleepRelKeeps(s: Sys, c: nat, p: nat, ok: bool, l: nat)
    requires Inv(s) && Runs(s, c, p) && s.procs[p].pc == SleepRel(l)
    ensures Inv(SleepStep(s, c, p, ok))
  {
    hide TableOk, LocksOk, FamilyOk, ClaimsOk, PendingOk, WaitClaim, Quiet;
    var s' := SleepStep(s, c, p, ok);
    StateNow(s, c, p);
    MyLocks(s, c, p);
    SleepGood(s, c, p, ok);
    SleepRelFamily(s, c, p, ok, l);
    AllClaims(s, s', c, p, -1, 0);
    SleepRelPending(s, c, p, ok, l);
  }

  lemma SleepRelFamily(s: Sys, c: nat, p: nat, ok: bool, l: nat)
    requires Inv(s) && Runs(s, c, p) && s.procs[p].pc == SleepRel(l) && s.locks[l] == c
    ensures var s' := SleepStep(s, c, p, ok);
            Shape(s') && FamilyOk(s') && OtherPcs(s, s', c, p) && (l > 0 ==> Quiet(s, s')) && WaitClaim(s', p)
  {
    hide TableOk, LocksOk, ClaimsOk, PendingOk;
    var s' := SleepStep(s, c, p, ok);
    assert forall i :: 0 <= i < |s.procs| ==>
                       s'.procs[i].parent == s.procs[i].parent && s'.procs[i].state == s.procs[i].state;
  }

  lemma SleepRelPending(s: Sys, c: nat, p: nat, ok: bool, l: nat)
    requires Inv(s) && Runs(s, c, p) && s.procs[p].pc == SleepRel(l) && Good(SleepStep(s, c, p, ok)) && s.locks[l] == c
    ensures PendingOk(SleepStep(s, c, p, ok))
  {
    hide TableOk, LocksOk, FamilyOk, ClaimsOk, ZombieKid;
    var s' := SleepStep(s, c, p, ok);
    ClaimNow(s, p);
    forall x: nat, q: nat | x < |s.procs| && q < |s.procs| && Committed(s'.procs[x], 0) && ZombieKid(s'.procs[q], x)
      ensures PendingWake(s', 0, x)
    {
      assert ZombieKid(s.procs[q], x) by {
        assert s'.procs[q].parent == s.procs[q].parent && s'.procs[q].state == s.procs[q].state;
        ZombieMeans(s.procs[q], s'.procs[q], x);
      }
      if x == p { NoZombieKid(s, p, q); }
      PendingStays(s, s', c, p, 0, x);
    }
    forall x: nat, k: nat | x < |s.procs| && 0 < k < |s.locks| && Committed(s'.procs[x], k) && s'.cond[k]
      ensures PendingWake(s', k, x)
    {
      PendingStays(s, s', c, p, k, x);
    }
  }

  lemma ZombieMeans(q: Proc, q': Proc, x: int)
    requires ZombieKid(q', x) && q'.parent == q.parent && q'.state == q.state
    ensures ZombieKid(q, x)
  {
  }

  lemma NoZombieKid(s: Sys, p: nat, q: nat)
    requires q < |s.procs| && NoZombieKids(s, p, |s.procs|)
    ensures !ZombieKid(s.procs[q], p)
  {
  }

  /** A signal: from here until its wakeup is over, sleepers may be asleep with a true condition. */
  lemma SignalSetKeeps(s: Sys, c: nat, p: nat, ok: bool, l: nat)
    requires Inv(s) && Runs(s, c, p) && s.procs[p].pc.SignalSet? && s.procs[p].pc.l == l
    ensures Inv(SleepStep(s, c, p, ok))
  {
    hide TableOk, LocksOk, FamilyOk, PendingOk, WaitClaim, PcInRange, Slot, Different;
    ClaimNow(s, p);
    CondInRange(s, p);
    var s' := SleepStep(s, c, p, ok);
    StateNow(s, c, p);
    MyLocks(s, c, p);
    SleepGood(s, c, p, ok);
    SignalQuiet(s, c, p, ok, l);
    AllClaims(s, s', c, p, Making(s.procs[p].pc), l);
    QuietFamily(s, s');
    SignalPending(s, c, p, ok, l);
  }

  lemma SignalQuiet(s: Sys, c: nat, p: nat, ok: bool, l: nat)
    requires Shape(s) && c < |s.cpus| && s.cpus[c] == Cpu(p, InProc) && s.procs[p].pc.SignalSet? && s.procs[p].pc.l == l
    ensures var s' := SleepStep(s, c, p, ok); Quiet(s, s') && OtherPcs(s, s', c, p) && Shape(s') && WaitClaim(s', p)
  {
  }

  lemma SignalPending(s: Sys, c: nat, p: nat, ok: bool, l: nat)
    requires Inv(s) && Runs(s, c, p) && s.procs[p].pc.SignalSet? && s.procs[p].pc.l == l
    requires Good(SleepStep(s, c, p, ok)) && s.locks[l] == c
    ensures PendingOk(SleepStep(s, c, p, ok))
  {
    hide TableOk, LocksOk, FamilyOk, ClaimsOk, ZombieKid, PcInRange, PendingWake;
    var s' := SleepStep(s, c, p, ok);
    forall x: nat, q: nat | x < |s.procs| && q < |s.procs| && Committed(s'.procs[x], 0) && ZombieKid(s'.procs[q], x)
      ensures PendingWake(s', 0, x)
    {
      ZombieMeans(s.procs[q], s'.procs[q], x);
      HeldElsewhere(s, c, p, 0, x);
      PendingStays(s, s', c, p, 0, x);
    }
    forall x: nat, k: nat | x < |s.procs| && 0 < k < |s.locks| && Committed(s'.procs[x], k) && s'.cond[k]
      ensures PendingWake(s', k, x)
    {
      if k != l {
        HeldElsewhere(s, c, p, k, x);
        PendingStays(s, s', c, p, k, x);
      } else {
        SignalWakes(s', c, p, l, x, s.procs[p].pc.back);
      }
    }
  }

  /** A pending wakeup is under way on another CPU than that of a thread outside wakeup. */
  lemma HeldElsewhere(s: Sys, c: nat, p: nat, l: nat, x: nat)
    requires Shape(s) && c < |s.cpus| && s.cpus[c] == Cpu(p, InProc) && l < |s.locks| && PendingWake(s, l, x)
    requires !s.procs[p].pc.WakeNext? && !s.procs[p].pc.WakeCheck?
    ensures s.locks[l] != c
  {
  }

  lemma SignalWakes(s: Sys, c: nat, p: nat, l: nat, x: nat, back: Pc)
    requires Shape(s) && c < |s.cpus| && s.cpus[c] == Cpu(p, InProc) && 0 < l < |s.locks| && s.locks[l] == c && x != p
    requires s.procs[p].pc == WakeNext(0, SignalWake(l, back))
    ensures PendingWake(s, l, x)
  {
  }

  // -- wakeup

  lemma WakeCalm(s: Sys, c: nat, p: nat)
    requires Runs(s, c, p) && (s.procs[p].pc.WakeNext? || s.procs[p].pc.WakeCheck?)
    ensures Calm(s, WakeStep(s, c, p), c, p)
  {
    hide Calm, TableOk, LocksOk;
    StateNow(s, c, p);
    TwoEntries(s, WakeStep(s, c, p), c, p, s.procs[p].pc.i);
  }

  /** Once wakeup has looked at process i, it does not sleep on that channel. */
  lemma Woken(s: Sys, c: nat, p: nat, i: nat, k: Waker, l: nat)
    requires Runs(s, c, p) && s.procs[p].pc == WakeCheck(i, k) && Target(k, s.initproc) == ChanOf(i, l) && i != p
    ensures !Committed(WakeStep(s, c, p).procs[i], l)
  {
    NotInside(s, c, p, i);
    assert StateOk(s.procs[i], i);
  }

  /** Where the thread of p goes in wakeup: it moves past i only when i cannot be asleep on the channel. */
  lemma WakeMoves(s: Sys, c: nat, p: nat, l: nat, x: nat)
    requires Runs(s, c, p) && (s.procs[p].pc.WakeNext? || s.procs[p].pc.WakeCheck?) && x < |s.procs| && x != p
    requires s.procs[p].pc.i <= x && Target(s.procs[p].pc.k, s.initproc) == ChanOf(x, l)
    requires Committed(WakeStep(s, c, p).procs[x], l)
    ensures var pc' := WakeStep(s, c, p).procs[p].pc; (pc'.WakeNext? || pc'.WakeCheck?) && pc'.k == s.procs[p].pc.k &&
                                                      pc'.i <= x
  {
    hide TableOk, LocksOk;
    if s.procs[p].pc.WakeCheck? && s.procs[p].pc.i == x { Woken(s, c, p, x, s.procs[p].pc.k, l); }
  }

  lemma WakePendingOne(s: Sys, c: nat, p: nat, l: nat, x: nat)
    requires Runs(s, c, p) && (s.procs[p].pc.WakeNext? || s.procs[p].pc.WakeCheck?) && x < |s.procs| && l < |s.locks|
    requires PendingWake(s, l, x)
    requires Good(WakeStep(s, c, p)) && Calm(s, WakeStep(s, c, p), c, p) && Committed(WakeStep(s, c, p).procs[x], l)
    ensures PendingWake(WakeStep(s, c, p), l, x)
  {
    hide TableOk, LocksOk, Committed;
    var s' := WakeStep(s, c, p);
    if s.locks[l] != c {
      PendingStays(s, s', c, p, l, x);
    } else {
      WakeMoves(s, c, p, l, x);
    }
  }

  lemma WakePending(s: Sys, c: nat, p: nat)
    requires Inv(s) && Runs(s, c, p) && (s.procs[p].pc.WakeNext? || s.procs[p].pc.WakeCheck?)
    requires Good(WakeStep(s, c, p)) && Calm(s, WakeStep(s, c, p), c, p)
    ensures PendingOk(WakeStep(s, c, p))
  {
    hide TableOk, LocksOk, FamilyOk, ClaimsOk, Committed, WakeStep, PendingWake;
    var s' := WakeStep(s, c, p);
    forall x: nat, q: nat | x < |s.procs| && q < |s.procs| && Committed(s'.procs[x], 0) && ZombieKid(s'.procs[q], x)
      ensures PendingWake(s', 0, x)
    {
      assert CalmProc(s.procs[q], s'.procs[q]);
      assert Committed(s.procs[x], 0) && ZombieKid(s.procs[q], x);
      WakePendingOne(s, c, p, 0, x);
    }
    forall x: nat, k: nat | x < |s.procs| && 0 < k < |s.locks| && Committed(s'.procs[x], k) && s'.cond[k]
      ensures PendingWake(s', k, x)
    {
      assert Committed(s.procs[x], k);
      WakePendingOne(s, c, p, k, x);
    }
  }

  lemma WakePlain(s: Sys, c: nat, p: nat)
    requires Runs(s, c, p) && (s.procs[p].pc.WakeNext? || s.procs[p].pc.WakeCheck?) && Shape(WakeStep(s, c, p))
    requires CondClaim(s, p) && ForkClaim(s, p) && Calm(s, WakeStep(s, c, p), c, p)
    requires Origin(s.procs[p].pc) == ExitAcq ==> p != s.initproc
    ensures var s' := WakeStep(s, c, p);
            && CondClaim(s', p) && ForkClaim(s', p) && Making(s'.procs[p].pc) == Making(s.procs[p].pc)
            && (Origin(s'.procs[p].pc) == ExitAcq ==> p != s.initproc)
  {
    hide TableOk, LocksOk, WakeStep, PcInRange, NoNewSleeper, OtherPcs, Committed;
    WakeGoes(s, c, p);
  }

  lemma WakeClaim(s: Sys, c: nat, p: nat)
    requires Inv(s) && Runs(s, c, p) && (s.procs[p].pc.WakeNext? || s.procs[p].pc.WakeCheck?)
    requires Good(WakeStep(s, c, p)) && Quiet(s, WakeStep(s, c, p))
    ensures WaitClaim(WakeStep(s, c, p), p)
  {
    hide TableOk, LocksOk, Committed, ClaimsOk, PendingOk, FamilyOk, WakeStep, Quiet, PcInRange;
    var s' := WakeStep(s, c, p);
    ClaimNow(s, p);
    QuietKids(s, s', p);
    var i, k := s.procs[p].pc.i, s.procs[p].pc.k;
    if s.procs[p].pc.WakeCheck? && k == ExitWake(i) && i != p { Woken(s, c, p, i, k, 0); }
    WakeGoes(s, c, p);
  }

  /** Where one round of wakeup leads, and that it leaves the waker's own ties alone. */
  lemma WakeGoes(s: Sys, c: nat, p: nat)
    requires Shape(s) && p < |s.procs| && c < |s.cpus| && (s.procs[p].pc.WakeNext? || s.procs[p].pc.WakeCheck?)
    ensures var s', i, k := WakeStep(s, c, p), s.procs[p].pc.i, s.procs[p].pc.k;
            && |s'.procs| == |s.procs| && s'.initproc == s.initproc && s'.procs[p].parent == s.procs[p].parent
            && var pc' := s'.procs[p].pc;
               || pc' == s.procs[p].pc
               || (s.procs[p].pc.WakeCheck? && pc' == WakeNext(i + 1, k))
               || (s.procs[p].pc.WakeNext? && i == p && pc' == WakeNext(i + 1, k))
               || (s.procs[p].pc.WakeNext? && i < |s.procs| && pc' == WakeCheck(i, k))
               || (s.procs[p].pc.WakeNext? && i == |s.procs| && pc' == AfterWake(k))
  {
    hide Idle;
  }

  lemma WakeKeeps(s: Sys, c: nat, p: nat)
    requires Inv(s) && Runs(s, c, p) && (s.procs[p].pc.WakeNext? || s.procs[p].pc.WakeCheck?)
    ensures Inv(WakeStep(s, c, p))
  {
    hide TableOk, LocksOk, FamilyOk, ClaimsOk, PendingOk, WakeStep, WaitClaim, Quiet;
    var s' := WakeStep(s, c, p);
    WakeGood(s, c, p);
    WakeCalm(s, c, p);
    ClaimNow(s, p);
    InitStays(s);
    WakePlain(s, c, p);
    WakeClaim(s, c, p);
    AllClaims(s, s', c, p, Making(s.procs[p].pc), 0);
    QuietFamily(s, s');
    WakePending(s, c, p);
  }

  // -- kexit

  lemma ExitCalm(s: Sys, c: nat, p: nat)
    requires Runs(s, c, p)
    requires var pc := s.procs[p].pc; pc.ExitAcq? || pc.ExitLock? || pc.ExitRel? || pc.ExitSwtch?
    ensures Calm(s, ExitStep(s, c, p), c, p)
    ensures var pc, pc' := s.procs[p].pc, ExitStep(s, c, p).procs[p].pc;
            pc' == pc || (pc.ExitAcq? && pc' == Reparent(0)) || (pc.ExitLock? && pc' == ExitSet) ||
                (Plain(pc') && !pc'.ExitAcq?)
  {
    hide Calm, TableOk, LocksOk;
    StateNow(s, c, p);
    MyLocks(s, c, p);
    TwoEntries(s, ExitStep(s, c, p), c, p, p);
  }

  lemma ExitKeeps(s: Sys, c: nat, p: nat)
    requires Inv(s) && Runs(s, c, p)
    requires var pc := s.procs[p].pc; pc.ExitAcq? || pc.ExitLock? || pc.ExitRel? || pc.ExitSwtch?
    ensures Inv(ExitStep(s, c, p))
  {
    hide TableOk, LocksOk, FamilyOk, PendingOk, ClaimsOk, ExitStep, Calm, Quiet, Idle, PcInRange, ProcOk;
    var s' := ExitStep(s, c, p);
    ExitGood(s, c, p);
    ExitCalm(s, c, p);
    ExitClaims(s, c, p);
    hide WaitClaim, CondClaim, ForkClaim, Making, Origin;
    CalmKeeps(s, s', c, p);
  }

  lemma ExitClaims(s: Sys, c: nat, p: nat)
    requires Inv(s) && Runs(s, c, p)
    requires var pc := s.procs[p].pc; pc.ExitAcq? || pc.ExitLock? || pc.ExitRel? || pc.ExitSwtch?
    ensures Shape(ExitStep(s, c, p))
    ensures var s' := ExitStep(s, c, p);
            && WaitClaim(s', p) && CondClaim(s', p) && ForkClaim(s', p)
            && (Making(s'.procs[p].pc) == -1 || Making(s'.procs[p].pc) == Making(s.procs[p].pc))
            && (Origin(s'.procs[p].pc) == ExitAcq ==> p != s.initproc)
  {
    hide TableOk, LocksOk, FamilyOk, PendingOk, ClaimsOk, ExitStep, Calm, Quiet, Idle, PcInRange, ProcOk,
         NoZombieKids, ParentAwake, HasKid;
    var s' := ExitStep(s, c, p);
    ExitGood(s, c, p);
    ClaimNow(s, p);
    InitStays(s);
    ExitCalm(s, c, p);
    CalmIsQuiet(s, s', c, p);
    QuietKids(s, s', p);
    ExitTies(s, c, p);
  }

  lemma ExitTies(s: Sys, c: nat, p: nat)
    requires Shape(s) && c < |s.cpus| && p < |s.procs| && !s.procs[p].pc.Reparent?
    ensures ExitStep(s, c, p).procs[p].parent == s.procs[p].parent && ExitStep(s, c, p).initproc == s.initproc
  {
  }

  /** A round of reparent that finds no child, and the end of its loop. */
  lemma ReparentCalm(s: Sys, c: nat, p: nat, i: nat)
    requires Runs(s, c, p) && s.procs[p].pc == Reparent(i) && (i == |s.procs| || s.procs[i].parent != p)
    ensures Calm(s, ExitStep(s, c, p), c, p)
  {
    hide Calm, TableOk, LocksOk;
    StateNow(s, c, p);
    TwoEntries(s, ExitStep(s, c, p), c, p, p);
  }

  lemma ReparentNextKeeps(s: Sys, c: nat, p: nat, i: nat)
    requires Inv(s) && Runs(s, c, p) && s.procs[p].pc == Reparent(i) && (i == |s.procs| || s.procs[i].parent != p)
    ensures Inv(ExitStep(s, c, p))
  {
    hide TableOk, LocksOk, FamilyOk, PendingOk, ClaimsOk, Calm;
    var s' := ExitStep(s, c, p);
    ExitGood(s, c, p);
    ClaimNow(s, p);
    ReparentCalm(s, c, p, i);
    CalmKeeps(s, s', c, p);
  }

  /** A child is given to init; until the wakeup that follows is over, init may sleep although it has a zombie child. */
  lemma ReparentOneKeeps(s: Sys, c: nat, p: nat, i: nat)
    requires Inv(s) && Runs(s, c, p) && s.procs[p].pc == Reparent(i) && i < |s.procs| && s.procs[i].parent == p
    ensures Inv(ExitStep(s, c, p))
  {
    hide TableOk, LocksOk, FamilyOk, PendingOk, WaitClaim, ClaimsOk;
    var s' := ExitStep(s, c, p);
    StateNow(s, c, p);
    ExitGood(s, c, p);
    ReparentShape(s, c, p, i);
    ReparentFamily(s, c, p, i);
    AllClaims(s, s', c, p, -1, 0);
    ReparentPending(s, c, p, i);
  }

  lemma ReparentShape(s: Sys, c: nat, p: nat, i: nat)
    requires Inv(s) && Runs(s, c, p) && s.procs[p].pc == Reparent(i) && i < |s.procs| && s.procs[i].parent == p
    requires Shape(ExitStep(s, c, p))
    ensures OtherPcs(s, ExitStep(s, c, p), c, p) && WaitClaim(ExitStep(s, c, p), p)
  {
    hide TableOk, LocksOk, PendingOk, ClaimsOk;
    ClaimNow(s, p);
  }

  lemma ReparentFamily(s: Sys, c: nat, p: nat, i: nat)
    requires Inv(s) && Runs(s, c, p) && s.procs[p].pc == Reparent(i) && i < |s.procs| && s.procs[i].parent == p
    requires Shape(ExitStep(s, c, p))
    ensures FamilyOk(ExitStep(s, c, p))
  {
    hide TableOk, LocksOk, PendingOk, ClaimsOk;
    var s' := ExitStep(s, c, p);
    assert i != p && i != s.initproc;
    assert forall j :: 0 <= j < |s.procs| ==> s'.procs[j].state == s.procs[j].state && s'.procs[j].parent == if j == i
                                              then s.initproc else s.procs[j].parent;
    hide ExitStep;
  }

  lemma ReparentPending(s: Sys, c: nat, p: nat, i: nat)
    requires Inv(s) && Runs(s, c, p) && s.procs[p].pc == Reparent(i) && i < |s.procs| && s.procs[i].parent == p
    requires Good(ExitStep(s, c, p))
    ensures PendingOk(ExitStep(s, c, p))
  {
    hide TableOk, LocksOk, FamilyOk, ClaimsOk, PcInRange, ProcOk;
    var s' := ExitStep(s, c, p);
    MyLocks(s, c, p);
    forall x: nat, q: nat | x < |s.procs| && q < |s.procs| && Committed(s'.procs[x], 0) && ZombieKid(s'.procs[q], x)
      ensures PendingWake(s', 0, x)
    {
      if q != i { assert ZombieKid(s.procs[q], x); PendingStays(s, s', c, p, 0, x); }
    }
    forall x: nat, k: nat | x < |s.procs| && 0 < k < |s.locks| && Committed(s'.procs[x], k) && s'.cond[k]
      ensures PendingWake(s', k, x)
    {
      PendingStays(s, s', c, p, k, x);
    }
  }

  /** The process becomes a zombie: it has no children, and its parent is not asleep in kwait. */
  lemma ExitSetKeeps(s: Sys, c: nat, p: nat)
    requires Inv(s) && Runs(s, c, p) && s.procs[p].pc == ExitSet
    ensures Inv(ExitStep(s, c, p))
  {
    hide TableOk, LocksOk, FamilyOk, PendingOk, WaitClaim, ClaimsOk;
    var s' := ExitStep(s, c, p);
    StateNow(s, c, p);
    ExitGood(s, c, p);
    ExitSetFamily(s, c, p);
    ExitSetRest(s, c, p);
    ExitSetZombies(s, c, p);
    AllClaims(s, s', c, p, -1, 0);
    PendingKept(s, s', c, p);
  }

  lemma ExitSetFamily(s: Sys, c: nat, p: nat)
    requires Inv(s) && Runs(s, c, p) && s.procs[p].pc == ExitSet
    ensures Shape(ExitStep(s, c, p)) && FamilyOk(ExitStep(s, c, p))
  {
    hide TableOk, LocksOk, PendingOk, ClaimsOk, Committed, Idle;
    StateNow(s, c, p);
    ClaimNow(s, p);
  }

  lemma ExitSetRest(s: Sys, c: nat, p: nat)
    requires Inv(s) && Runs(s, c, p) && s.procs[p].pc == ExitSet && Shape(ExitStep(s, c, p))
    ensures var s' := ExitStep(s, c, p);
            && OtherPcs(s, s', c, p) && WaitClaim(s', p) && NoNewSleeper(s, s')
            && (forall j :: 0 <= j < |s.procs| && s.procs[j].state == Used ==>
                              s'.procs[j].state == Used && s'.procs[j].parent == s.procs[j].parent)
  {
    hide TableOk, LocksOk, PendingOk, ClaimsOk, FamilyOk, PcInRange;
    StateNow(s, c, p);
  }

  /** The new zombie's parent is not asleep in kwait. */
  lemma ExitSetZombies(s: Sys, c: nat, p: nat)
    requires Inv(s) && Runs(s, c, p) && s.procs[p].pc == ExitSet && Shape(ExitStep(s, c, p))
    ensures var s' := ExitStep(s, c, p);
            forall x: nat, q: nat :: x < |s.procs| && q < |s.procs| && Committed(s'.procs[x], 0) &&
                                     ZombieKid(s'.procs[q], x) ==>
              ZombieKid(s.procs[q], x)
  {
    hide TableOk, LocksOk, PendingOk, ClaimsOk, FamilyOk, PcInRange;
    StateNow(s, c, p);
    ClaimNow(s, p);
  }

  // -- kwait

  predicate Reaps(s: Sys, p: nat, ok: bool)
    requires Shape(s) && p < |s.procs|
  {
    s.procs[p].pc.WaitChild? && s.procs[s.procs[p].pc.i].state == Zombie && ok
  }

  lemma WaitCalm(s: Sys, c: nat, p: nat, ok: bool)
    requires Runs(s, c, p) && !Reaps(s, p, ok)
    requires WaitPoint(s.procs[p].pc)
    ensures Calm(s, WaitStep(s, c, p, ok), c, p)
  {
    hide Calm, TableOk, LocksOk;
    StateNow(s, c, p);
    MyLocks(s, c, p);
    if s.procs[p].pc.WaitScan? || s.procs[p].pc.WaitChild? {
      ScanCalm(s, c, p, ok);
    } else {
      TwoEntries(s, WaitStep(s, c, p, ok), c, p, p);
    }
  }

  lemma ScanCalm(s: Sys, c: nat, p: nat, ok: bool)
    requires Shape(s) && c < |s.cpus| && s.cpus[c] == Cpu(p, InProc) && !Reaps(s, p, ok)
    requires (s.procs[p].pc.WaitScan? || s.procs[p].pc.WaitChild?)
    ensures Calm(s, WaitStep(s, c, p, ok), c, p)
  {
    hide Calm;
    TwoEntries(s, WaitStep(s, c, p, ok), c, p, s.procs[p].pc.i);
  }

  lemma WaitClaimNext(s: Sys, c: nat, p: nat, ok: bool)
    requires Inv(s) && Runs(s, c, p) && !Reaps(s, p, ok) && Shape(WaitStep(s, c, p, ok))
    requires Quiet(s, WaitStep(s, c, p, ok))
    requires WaitPoint(s.procs[p].pc)
    ensures WaitClaim(WaitStep(s, c, p, ok), p)
  {
    hide TableOk, LocksOk, FamilyOk, PendingOk, ClaimsOk, Quiet;
    var s' := WaitStep(s, c, p, ok);
    ClaimNow(s, p);
    QuietKids(s, s', p);
    hide NoKids, ParentAwake, Committed, NoZombieKids;
    if s.procs[p].pc.WaitScan? || s.procs[p].pc.WaitChild? { ScanClaimNext(s, c, p, ok); } else { NoneScanned(s', p); }
  }

  lemma NoneScanned(s: Sys, p: nat)
    ensures NoZombieKids(s, p, 0)
  {
  }

  lemma ScanClaimNext(s: Sys, c: nat, p: nat, ok: bool)
    requires Shape(s) && p < |s.procs| && c < |s.cpus| && WaitClaim(s, p) && !Reaps(s, p, ok)
    requires Shape(WaitStep(s, c, p, ok)) && Quiet(s, WaitStep(s, c, p, ok))
    requires (s.procs[p].pc.WaitScan? || s.procs[p].pc.WaitChild?)
    ensures WaitClaim(WaitStep(s, c, p, ok), p)
  {
    hide Quiet, NoZombieKids, WaitStep, WaitClaim;
    if s.procs[p].pc.WaitScan? { ScanOn(s, c, p, ok); } else { ChildSeen(s, c, p, ok); }
  }

  lemma ScanOn(s: Sys, c: nat, p: nat, ok: bool)
    requires Shape(s) && p < |s.procs| && c < |s.cpus| && WaitClaim(s, p) && s.procs[p].pc.WaitScan?
    requires Shape(WaitStep(s, c, p, ok)) && Quiet(s, WaitStep(s, c, p, ok))
    ensures WaitClaim(WaitStep(s, c, p, ok), p)
  {
    hide Quiet, NoZombieKids;
    var s' := WaitStep(s, c, p, ok);
    QuietKids(s, s', p);
    var i := s.procs[p].pc.i;
    if i < |s.procs| && !ZombieKid(s.procs[i], p) { MoreKids(s, s', p, i); }
  }

  lemma ChildSeen(s: Sys, c: nat, p: nat, ok: bool)
    requires Shape(s) && p < |s.procs| && c < |s.cpus| && WaitClaim(s, p) && s.procs[p].pc.WaitChild?
    requires !Reaps(s, p, ok) && Shape(WaitStep(s, c, p, ok)) && Quiet(s, WaitStep(s, c, p, ok))
    ensures WaitClaim(WaitStep(s, c, p, ok), p)
  {
    hide Quiet, NoZombieKids;
    var s' := WaitStep(s, c, p, ok);
    QuietKids(s, s', p);
    var i := s.procs[p].pc.i;
    if i < |s.procs| && !ZombieKid(s.procs[i], p) { MoreKids(s, s', p, i); }
  }

  lemma MoreKids(s: Sys, s': Sys, p: nat, i: nat)
    requires i < |s.procs| && Quiet(s, s') && NoZombieKids(s, p, i) && !ZombieKid(s.procs[i], p)
    ensures NoZombieKids(s', p, i + 1)
  {
  }

  /** Where kwait can go from its own points. */
  lemma WaitGoes(s: Sys, c: nat, p: nat, ok: bool)
    requires Shape(s) && p < |s.procs| && c < |s.cpus|
    requires WaitPoint(s.procs[p].pc)
    ensures var pc := WaitStep(s, c, p, ok).procs[p].pc;
            WaitPoint(pc) || pc.Run? || pc == SleepAcq(0)
  {
    hide Idle;
  }

  lemma WaitPlain(s: Sys, c: nat, p: nat, ok: bool)
    requires Runs(s, c, p) && Shape(WaitStep(s, c, p, ok))
    requires WaitPoint(s.procs[p].pc)
    ensures var s' := WaitStep(s, c, p, ok);
            && CondClaim(s', p) && ForkClaim(s', p) && Making(s'.procs[p].pc) == -1
            && !Origin(s'.procs[p].pc).ExitAcq?
  {
    hide TableOk, LocksOk, Idle, PcInRange, WaitStep;
    WaitGoes(s, c, p, ok);
  }

  lemma WaitKeeps(s: Sys, c: nat, p: nat, ok: bool)
    requires Inv(s) && Runs(s, c, p) && !Reaps(s, p, ok)
    requires WaitPoint(s.procs[p].pc)
    ensures Inv(WaitStep(s, c, p, ok))
  {
    hide TableOk, LocksOk, FamilyOk, PendingOk, ClaimsOk, WaitStep, Calm, Quiet;
    var s' := WaitStep(s, c, p, ok);
    WaitGood(s, c, p, ok);
    WaitCalm(s, c, p, ok);
    CalmIsQuiet(s, s', c, p);
    WaitClaimNext(s, c, p, ok);
    WaitPlain(s, c, p, ok);
    CalmKeeps(s, s', c, p);
  }

  /** A zombie child is freed: nobody has it as parent, and no fork is filling its slot. */
  lemma ReapKeeps(s: Sys, c: nat, p: nat)
    requires Inv(s) && Runs(s, c, p) && Reaps(s, p, true)
    ensures Inv(WaitStep(s, c, p, true))
  {
    hide TableOk, LocksOk, FamilyOk, PendingOk, WaitClaim, ClaimsOk, WaitStep, Reaped;
    var s' := WaitStep(s, c, p, true);
    StateNow(s, c, p);
    WaitGood(s, c, p, true);
    ReapEntries(s, c, p);
    ReapedKeeps(s, s', c, p, s.procs[p].pc.i);
  }

  lemma ReapedKeeps(s: Sys, s': Sys, c: nat, p: nat, i: nat)
    requires Inv(s) && Good(s') && Reaped(s, s', c, p, i) && s.procs[p].pc == WaitChild(i)
    ensures Inv(s')
  {
    hide TableOk, LocksOk, FamilyOk, PendingOk, ClaimsOk, WaitClaim, ZombieKid, NoNewSleeper, OtherPcs, KeepsSlot,
        Committed;
    ReapFamily(s, s', c, p, i);
    ReapRest(s, s', c, p, i);
    AllClaims(s, s', c, p, -1, 0);
    PendingKept(s, s', c, p);
  }

  ghost predicate Reaped(s: Sys, s': Sys, c: nat, p: nat, i: nat) {
    && Shape(s) && Shape(s') && c < |s.cpus| && s.cpus[c] == Cpu(p, InProc) && s' == s.(procs := s'.procs) &&
       |s'.procs| == |s.procs|
    && i < |s.procs| && i != p && s.procs[i].state == Zombie && s'.procs[i] == Freed(s.procs[i]).(lock := -1)
    && s'.procs[p] == s.procs[p].(pc := WaitRel)
    && (forall j :: 0 <= j < |s.procs| && j != i && j != p ==> s'.procs[j] == s.procs[j])
  }

  lemma ReapEntries(s: Sys, c: nat, p: nat)
    requires Runs(s, c, p) && Reaps(s, p, true) && Shape(WaitStep(s, c, p, true))
    ensures Reaped(s, WaitStep(s, c, p, true), c, p, s.procs[p].pc.i)
  {
    hide TableOk, LocksOk;
    StateNow(s, c, p);
  }

  lemma ReapFamily(s: Sys, s': Sys, c: nat, p: nat, i: nat)
    requires Reaped(s, s', c, p, i) && FamilyOk(s)
    ensures FamilyOk(s')
  {
  }

  lemma ReapRest(s: Sys, s': Sys, c: nat, p: nat, i: nat)
    requires Reaped(s, s', c, p, i)
    ensures OtherPcs(s, s', c, p) && WaitClaim(s', p) && CondClaim(s', p) && ForkClaim(s', p) && NoNewSleeper(s, s')
    ensures forall j :: 0 <= j < |s.procs| && s.procs[j].state == Used ==> KeepsSlot(s.procs[j], s'.procs[j], p)
    ensures forall x: nat, q: nat :: x < |s.procs| && q < |s.procs| && ZombieKid(s'.procs[q], x) ==>
                                       ZombieKid(s.procs[q], x)
  {
  }

  // -- kfork

  lemma ForkCalm(s: Sys, c: nat, p: nat, ok: bool)
    requires Runs(s, c, p)
    requires var pc := s.procs[p].pc;
             pc.ForkScan? || (pc.ForkCheck? && s.procs[pc.i].state != Unused) || (pc.ForkCopy? && ok) || pc.ForkWait? ||
                 pc.ForkLock?
    ensures Calm(s, ForkStep(s, c, p, ok), c, p)
  {
    hide Calm, TableOk, LocksOk, Idle;
    StateNow(s, c, p);
    TwoEntries(s, ForkStep(s, c, p, ok), c, p, s.procs[p].pc.i);
  }

  /** What a forking thread claims after each of its quiet steps. */
  ghost predicate ForkOn(s: Sys, s': Sys, p: nat)
    requires Shape(s) && Shape(s') && p < |s.procs| == |s'.procs|
  {
    && WaitClaim(s', p) && CondClaim(s', p) && ForkClaim(s', p) && !Origin(s'.procs[p].pc).ExitAcq?
    && (Making(s'.procs[p].pc) == -1 || Making(s'.procs[p].pc) == Making(s.procs[p].pc))
  }

  lemma ForkScanNext(s: Sys, c: nat, p: nat, ok: bool)
    requires Shape(s) && p < |s.procs| && c < |s.cpus| && Shape(ForkStep(s, c, p, ok))
    requires var pc := s.procs[p].pc; pc.ForkScan? || (pc.ForkCheck? && s.procs[pc.i].state != Unused)
    ensures ForkOn(s, ForkStep(s, c, p, ok), p)
  {
    hide Idle;
  }

  lemma ForkSlotNext(s: Sys, c: nat, p: nat, ok: bool)
    requires Shape(s) && p < |s.procs| && c < |s.cpus| && ForkClaim(s, p) && Shape(ForkStep(s, c, p, ok))
    requires var pc := s.procs[p].pc; (pc.ForkCopy? && ok) || pc.ForkWait? || pc.ForkLock?
    ensures ForkOn(s, ForkStep(s, c, p, ok), p)
  {
    hide Idle;
  }

  lemma ForkKeeps(s: Sys, c: nat, p: nat, ok: bool)
    requires Inv(s) && Runs(s, c, p)
    requires var pc := s.procs[p].pc;
             pc.ForkScan? || (pc.ForkCheck? && s.procs[pc.i].state != Unused) || (pc.ForkCopy? && ok) || pc.ForkWait? ||
                 pc.ForkLock?
    ensures Inv(ForkStep(s, c, p, ok))
  {
    hide TableOk, LocksOk, FamilyOk, PendingOk, ClaimsOk, Calm, ForkStep, WaitClaim, CondClaim, ForkClaim;
    var s' := ForkStep(s, c, p, ok);
    ClaimNow(s, p);
    ForkGood(s, c, p, ok);
    if s.procs[p].pc.ForkScan? || s.procs[p].pc.ForkCheck? { ForkScanNext(s, c, p, ok); }
        else { ForkSlotNext(s, c, p, ok); }
    ForkCalm(s, c, p, ok);
    CalmKeeps(s, s', c, p);
  }

  /** A step of a fork that gives its slot a new state. */
  ghost predicate SlotStep(s: Sys, s': Sys, c: nat, p: nat, i: nat) {
    && Quiet(s, s') && OtherPcs(s, s', c, p) && NoNewSleeper(s, s') && s'.cond == s.cond
    && (forall j :: 0 <= j < |s.procs| && j != i && s.procs[j].state == Used ==> KeepsSlot(s.procs[j], s'.procs[j], p))
    && (s'.procs[p].pc == Run ||
        (s'.procs[p].pc == ForkCopy(i) && i != p && i < |s.procs| && s'.procs[i].state == Used &&
         s'.procs[i].parent == -1))
  }

  /** A step that changes the thread's own point and one slot. */
  lemma SlotEntries(s: Sys, s': Sys, c: nat, p: nat, i: nat)
    requires c < |s.cpus| && p < |s.procs| && i < |s.procs| && i != p && s.cpus[c] == Cpu(p, InProc)
    requires |s'.procs| == |s.procs| && s' == s.(procs := s'.procs, nextpid := s'.nextpid)
    requires forall j :: 0 <= j < |s.procs| && j != p && j != i ==> s'.procs[j] == s.procs[j]
    requires s'.procs[p] == s.procs[p].(pc := s'.procs[p].pc) && s.procs[p].state == Running
    requires CalmProc(s.procs[i], s'.procs[i]) && !s'.procs[i].pc.SleepSet? && !s'.procs[i].pc.SleepSwtch?
    requires s'.procs[i].state != Sleeping
    requires s'.procs[i].pc == s.procs[i].pc || (!OnCpu(s, i) && s'.procs[i].pc.ForkRet?)
    requires s'.procs[p].pc == Run ||
             (s'.procs[p].pc == ForkCopy(i) && s'.procs[i].state == Used && s'.procs[i].parent == -1)
    ensures SlotStep(s, s', c, p, i)
  {
    hide OnCpu;
  }

  lemma SlotClaims(s: Sys, s': Sys, c: nat, p: nat, i: nat)
    requires Shape(s') && SlotStep(s, s', c, p, i)
    ensures WaitClaim(s', p) && CondClaim(s', p) && ForkClaim(s', p) && !Origin(s'.procs[p].pc).ExitAcq?
    ensures Making(s'.procs[p].pc) == -1 || Making(s'.procs[p].pc) == i
  {
    hide PcInRange, CalmProc, NoNewSleeper;
  }

  lemma SlotKeeps(s: Sys, s': Sys, c: nat, p: nat, i: nat)
    requires Inv(s) && Good(s') && SlotStep(s, s', c, p, i) && !s.procs[p].pc.WakeNext? && !s.procs[p].pc.WakeCheck?
    requires i == Making(s.procs[p].pc) || (i < |s.procs| && s.procs[i].state != Used)
    ensures Inv(s')
  {
    hide TableOk, LocksOk, FamilyOk, PendingOk, ClaimsOk, Quiet, Idle, KeepsSlot, OtherPcs, NoNewSleeper, WaitClaim,
         CondClaim, ForkClaim, PcInRange, Making, Origin;
    SlotClaims(s, s', c, p, i);
    AllClaims(s, s', c, p, i, 0);
    QuietFamily(s, s');
    QuietZombies(s, s');
    PendingKept(s, s', c, p);
  }

  lemma QuietZombies(s: Sys, s': Sys)
    requires Quiet(s, s')
    ensures forall x: nat, q: nat :: x < |s.procs| && q < |s.procs| && ZombieKid(s'.procs[q], x) ==>
                                       ZombieKid(s.procs[q], x)
  {
  }

  lemma ForkClaimSlot(s: Sys, c: nat, p: nat, ok: bool, i: nat)
    requires Inv(s) && Runs(s, c, p) && s.procs[p].pc == ForkCheck(i) && s.procs[i].state == Unused
    ensures SlotStep(s, ForkStep(s, c, p, ok), c, p, i)
  {
    hide TableOk, LocksOk, PendingOk, ClaimsOk, WaitClaim, Idle, SlotStep;
    StateNow(s, c, p);
    ClaimNow(s, p);
    var s' := ForkStep(s, c, p, ok);
    HeldIsOff(s, c, p, i);
    assert s'.procs[i] == s.procs[i].(state := Used, pid := s.nextpid, level := Mlfq.Fresh(), pc := ForkRet);
    SlotEntries(s, s', c, p, i);
  }

  lemma ForkFail(s: Sys, c: nat, p: nat, i: nat)
    requires Inv(s) && Runs(s, c, p) && s.procs[p].pc == ForkCopy(i)
    ensures SlotStep(s, ForkStep(s, c, p, false), c, p, i)
  {
    hide TableOk, LocksOk, PendingOk, ClaimsOk, WaitClaim, Idle, SlotStep, PcInRange;
    StateNow(s, c, p);
    ClaimNow(s, p);
    var s' := ForkStep(s, c, p, false);
    HeldIsOff(s, c, p, i);
    assert s'.procs[i] == Freed(s.procs[i]).(lock := -1);
    SlotEntries(s, s', c, p, i);
  }

  lemma ForkReadies(s: Sys, c: nat, p: nat, ok: bool, i: nat)
    requires Inv(s) && Runs(s, c, p) && s.procs[p].pc == ForkReady(i)
    ensures SlotStep(s, ForkStep(s, c, p, ok), c, p, i)
  {
    hide TableOk, LocksOk, PendingOk, ClaimsOk, WaitClaim, Idle, SlotStep, PcInRange;
    StateNow(s, c, p);
    ClaimNow(s, p);
    var s' := ForkStep(s, c, p, ok);
    HeldIsOff(s, c, p, i);
    assert s'.procs[i] == s.procs[i].(state := Runnable, lock := -1);
    SlotEntries(s, s', c, p, i);
  }

  lemma ForkSlotKeeps(s: Sys, c: nat, p: nat, ok: bool)
    requires Inv(s) && Runs(s, c, p)
    requires var pc := s.procs[p].pc; (pc.ForkCheck? && s.procs[pc.i].state == Unused) || (pc.ForkCopy? && !ok) ||
                                      pc.ForkReady?
    ensures Inv(ForkStep(s, c, p, ok))
  {
    hide TableOk, LocksOk, FamilyOk, PendingOk, ClaimsOk, ForkStep, SlotStep;
    ClaimNow(s, p);
    ForkGood(s, c, p, ok);
    var i := s.procs[p].pc.i;
    if s.procs[p].pc.ForkCheck? {
      ForkClaimSlot(s, c, p, ok, i);
    } else if s.procs[p].pc.ForkCopy? {
      ForkFail(s, c, p, i);
    } else {
      ForkReadies(s, c, p, ok, i);
    }
    SlotKeeps(s, ForkStep(s, c, p, ok), c, p, i);
  }

  lemma ForkParentKeeps(s: Sys, c: nat, p: nat, ok: bool)
    requires Inv(s) && Runs(s, c, p) && s.procs[p].pc.ForkParent?
    ensures Inv(ForkStep(s, c, p, ok))
  {
    hide TableOk, LocksOk, FamilyOk, PendingOk, ClaimsOk, ForkStep, Adopted;
    ClaimNow(s, p);
    ForkGood(s, c, p, ok);
    AdoptEntries(s, c, p, ok);
    AdoptKeeps(s, ForkStep(s, c, p, ok), c, p, s.procs[p].pc.i);
  }

  lemma AdoptKeeps(s: Sys, s': Sys, c: nat, p: nat, i: nat)
    requires Inv(s) && Good(s') && Adopted(s, s', c, p, i) && s.procs[p].pc == ForkParent(i)
    ensures Inv(s')
  {
    hide TableOk, LocksOk, FamilyOk, PendingOk, ClaimsOk, WaitClaim, CondClaim, ForkClaim, ZombieKid, NoNewSleeper,
        OtherPcs, KeepsSlot, Committed;
    AdoptFamily(s, s', c, p, i);
    AdoptRest(s, s', c, p, i);
    AllClaims(s, s', c, p, i, 0);
    PendingKept(s, s', c, p);
  }

  ghost predicate Adopted(s: Sys, s': Sys, c: nat, p: nat, i: nat) {
    && Shape(s) && Shape(s') && c < |s.cpus| && s.cpus[c] == Cpu(p, InProc) &&
       s' == s.(procs := s'.procs, locks := s'.locks)
    && |s'.procs| == |s.procs| && s'.locks == s.locks[0 := -1] && s.locks[0] == c
    && i < |s.procs| && i != p && s.procs[i].state == Used && s'.procs[i] == s.procs[i].(parent := p)
    && s.procs[p].state == Running && !Committed(s.procs[p], 0) && s'.procs[p] == s.procs[p].(pc := ForkLock(i))
    && (forall j :: 0 <= j < |s.procs| && j != i && j != p ==> s'.procs[j] == s.procs[j])
  }

  lemma AdoptEntries(s: Sys, c: nat, p: nat, ok: bool)
    requires Runs(s, c, p) && s.procs[p].pc.ForkParent? && ForkClaim(s, p) && Shape(ForkStep(s, c, p, ok))
    ensures Adopted(s, ForkStep(s, c, p, ok), c, p, s.procs[p].pc.i)
  {
    hide TableOk, LocksOk;
    StateNow(s, c, p);
    MyLocks(s, c, p);
  }

  lemma AdoptFamily(s: Sys, s': Sys, c: nat, p: nat, i: nat)
    requires Adopted(s, s', c, p, i) && FamilyOk(s)
    ensures FamilyOk(s')
  {
  }

  lemma AdoptRest(s: Sys, s': Sys, c: nat, p: nat, i: nat)
    requires Adopted(s, s', c, p, i)
    ensures OtherPcs(s, s', c, p) && WaitClaim(s', p) && CondClaim(s', p) && ForkClaim(s', p) && NoNewSleeper(s, s')
    ensures forall j :: 0 <= j < |s.procs| && j != i && s.procs[j].state == Used ==>
                          KeepsSlot(s.procs[j], s'.procs[j], p)
    ensures forall x: nat, q: nat :: x < |s.procs| && q < |s.procs| && ZombieKid(s'.procs[q], x) ==>
                                       ZombieKid(s.procs[q], x)
  {
  }

  // ---- Runs -------------------------------------------------------------------------------------------

  lemma ProcStepKeeps(s: Sys, c: nat, p: nat, ch: Choice)
    requires Inv(s) && Runs(s, c, p)
    ensures Inv(ProcStep(s, c, p, ch))
  {
    hide TableOk, LocksOk, FamilyOk, PendingOk, ClaimsOk, StartStep, YieldStep, SleepStep, WakeStep, ExitStep, WaitStep,
        ForkStep, KillStep;
    StateNow(s, c, p);
    if ch.op.Preempt? && Idle(s.procs[p].pc) {
      PreemptKeeps(s, c, p);
      return;
    }
    if ch.op.Signal? && 0 < ch.op.l < |s.locks| && Idle(s.procs[p].pc) {
      InterruptKeeps(s, c, p, ch.op.l);
      return;
    }
    if ForkPoint(s.procs[p].pc) {
      KforkKeeps(s, c, p, ch.ok);
      return;
    }
    if FamilyPoint(s.procs[p].pc) {
      FamilyKeeps(s, c, p, ch.ok);
      return;
    }
    match s.procs[p].pc {
      case Run => StartKeeps(s, c, p, ch.op);
      case WakeNext(_, _) => WakeKeeps(s, c, p);
      case WakeCheck(_, _) => WakeKeeps(s, c, p);
      case KillScan(_, _) => KillKeeps(s, c, p);
      case KillCheck(_, _) => KillKeeps(s, c, p);
      case YieldAcq(_) => YieldKeeps(s, c, p);
      case YieldSet(_) => YieldKeeps(s, c, p);
      case YieldSwtch(_) => YieldKeeps(s, c, p);
      case YieldBack(_) => YieldKeeps(s, c, p);
      case ForkRet => ForkRetKeeps(s, c, p);
      case _ => SleepSignalKeeps(s, c, p, ch.ok);
    }
  }

  predicate FamilyPoint(pc: Pc) {
    ExitPoint(pc) || WaitPoint(pc)
  }

  /** The points of kexit and kwait. */
  lemma FamilyKeeps(s: Sys, c: nat, p: nat, ok: bool)
    requires Inv(s) && Runs(s, c, p) && FamilyPoint(s.procs[p].pc)
    ensures ExitPoint(s.procs[p].pc) ==> Inv(ExitStep(s, c, p))
    ensures WaitPoint(s.procs[p].pc) ==> Inv(WaitStep(s, c, p, ok))
  {
    hide TableOk, LocksOk, FamilyOk, PendingOk, ClaimsOk, ExitStep, WaitStep;
    StateNow(s, c, p);
    if WaitPoint(s.procs[p].pc) {
      if Reaps(s, p, ok) { ReapKeeps(s, c, p); } else { WaitKeeps(s, c, p, ok); }
    } else {
      match s.procs[p].pc {
        case Reparent(i) =>
          if i < |s.procs| && s.procs[i].parent == p { ReparentOneKeeps(s, c, p, i); }
              else { ReparentNextKeeps(s, c, p, i); }
        case ExitSet => ExitSetKeeps(s, c, p);
        case _ => ExitKeeps(s, c, p);
      }
    }
  }

  /** The points of sleep, of the loops around it and of a signal. */
  predicate SleepPoint(pc: Pc) {
    pc.CondAcq? || pc.CondTest? || pc.CondKilled? || pc.CondRel? || pc.SignalAcq? || pc.SignalSet? || pc.SignalRel? ||
    pc.SleepAcq? || pc.SleepRel? || pc.SleepSet? || pc.SleepSwtch? || pc.SleepBack? || pc.SleepRelock?
  }

  lemma SleepSignalKeeps(s: Sys, c: nat, p: nat, ok: bool)
    requires Inv(s) && Runs(s, c, p) && SleepPoint(s.procs[p].pc)
    ensures Inv(SleepStep(s, c, p, ok))
  {
    hide TableOk, LocksOk, FamilyOk, PendingOk, ClaimsOk, SleepStep;
    match s.procs[p].pc {
      case CondTest(l) => CondTestKeeps(s, c, p, ok, l);
      case CondKilled(_) => CondKilledKeeps(s, c, p, ok);
      case SleepRel(l) => SleepRelKeeps(s, c, p, ok, l);
      case SignalSet(l, _) => SignalSetKeeps(s, c, p, ok, l);
      case SignalAcq(_, _) => SignalKeeps(s, c, p, ok);
      case SignalRel(_, _) => SignalKeeps(s, c, p, ok);
      case _ => SleepKeeps(s, c, p, ok);
    }
  }

  lemma KforkKeeps(s: Sys, c: nat, p: nat, ok: bool)
    requires Inv(s) && Runs(s, c, p) && ForkPoint(s.procs[p].pc)
    ensures Inv(ForkStep(s, c, p, ok))
  {
    hide TableOk, LocksOk, FamilyOk, PendingOk, ClaimsOk, ForkStep;
    StateNow(s, c, p);
    match s.procs[p].pc {
      case ForkScan(_) => ForkKeeps(s, c, p, ok);
      case ForkCheck(i) => if s.procs[i].state == Unused { ForkSlotKeeps(s, c, p, ok); }
          else { ForkKeeps(s, c, p, ok); }
      case ForkCopy(_) => if ok { ForkKeeps(s, c, p, ok); } else { ForkSlotKeeps(s, c, p, ok); }
      case ForkWait(_) => ForkKeeps(s, c, p, ok);
      case ForkParent(_) => ForkParentKeeps(s, c, p, ok);
      case ForkLock(_) => ForkKeeps(s, c, p, ok);
      case ForkReady(_) => ForkSlotKeeps(s, c, p, ok);
    }
  }

  lemma StepKeeps(s: Sys, c: nat, ch: Choice)
    requires Inv(s) && c < |s.cpus|
    ensures Inv(Step(s, c, ch))
  {
    hide TableOk, LocksOk, FamilyOk, PendingOk, ClaimsOk, ProcStep, IdleStep;
    if s.cpus[c].at.InProc? { ProcStepKeeps(s, c, s.cpus[c].proc, ch); } else { IdleKeeps(s, c, ch); }
  }

  /** The system after boot: userinit has made init runnable, every other slot is unused. */
  function Boot(n: nat, cpus: nat, cond: seq<bool>): Sys
    requires n > 0 && |cond| > 0
  {
    var empty := Proc(Unused, NoChan, -1, false, 0, Mlfq.Fresh(), -1, ForkRet);
    Sys(seq(n, i => if i == 0 then empty.(state := Runnable, pid := 1) else empty),
        seq(cpus, _ => Cpu(-1, Scan(0, 0))), seq(|cond|, _ => -1), cond, 0, 2)
  }

  lemma BootOk(n: nat, cpus: nat, cond: seq<bool>)
    requires n > 0 && |cond| > 0
    ensures Inv(Boot(n, cpus, cond))
  {
    BootGood(n, cpus, cond);
    hide TableOk, LocksOk;
    BootQuiet(n, cpus, cond);
  }

  lemma BootGood(n: nat, cpus: nat, cond: seq<bool>)
    requires n > 0 && |cond| > 0
    ensures Good(Boot(n, cpus, cond))
  {
  }

  lemma BootQuiet(n: nat, cpus: nat, cond: seq<bool>)
    requires n > 0 && |cond| > 0 && Shape(Boot(n, cpus, cond))
    ensures FamilyOk(Boot(n, cpus, cond)) && ClaimsOk(Boot(n, cpus, cond)) && PendingOk(Boot(n, cpus, cond))
  {
    hide Origin, Making, PcInRange, PendingWake;
    NewThread(ForkRet);
  }

  /** The states reached when the CPUs step in the given order. */
  ghost function Reached(s: Sys, schedule: seq<(nat, Choice)>): (t: Sys)
    requires Inv(s) && forall k :: 0 <= k < |schedule| ==> schedule[k].0 < |s.cpus|
    ensures Inv(t) && |t.cpus| == |s.cpus| && |t.procs| == |s.procs|
    decreases |schedule|
  {
    if schedule == [] then s
    else
      var t := Reached(s, schedule[..|schedule| - 1]);
      var (c, ch) := schedule[|schedule| - 1];
      StepKeeps(t, c, ch);
      Step(t, c, ch)
  }

  /** Whenever p->lock is free, p is running exactly when one CPU has it, and never two. */
  ghost predicate HandedOff(s: Sys) {
    && (forall p :: 0 <= p < |s.procs| && s.procs[p].lock == -1 ==> (s.procs[p].state == Running <==> OnCpu(s, p)))
    && (forall c, d :: 0 <= c < |s.cpus| && 0 <= d < |s.cpus| && s.cpus[c].proc == s.cpus[d].proc >= 0 ==> c == d)
  }

  lemma HandOff(s: Sys)
    requires Inv(s)
    ensures HandedOff(s)
  {
    hide PcInRange, HasLock, FamilyOk, PendingOk, ClaimsOk;
    forall p | 0 <= p < |s.procs| && s.procs[p].lock == -1 && OnCpu(s, p) ensures s.procs[p].state == Running {
      var c :| 0 <= c < |s.cpus| && s.cpus[c].proc == p;
      assert CpuOk(s, c);
      assert s.procs[p].lock == c <==> HoldsProc(s, c, p);
    }
  }

  predicate AsleepOn(q: Proc, ch: Chan) {
    q.state == Sleeping && q.chan == ch
  }

  /** When wait_lock is free nobody sleeps in kwait with a zombie child, when the lock of a condition is free
      nobody sleeps on it while it is true, and no parent is ever a zombie. */
  ghost predicate NoneLost(s: Sys)
    requires Shape(s)
  {
    && (forall x: nat, q :: x < |s.procs| && 0 <= q < |s.procs| && s.locks[0] == -1 &&
                            AsleepOn(s.procs[x], OfProc(x)) ==>
          !ZombieKid(s.procs[q], x))
    && (forall x, l: nat :: 0 <= x < |s.procs| && 0 < l < |s.locks| && AsleepOn(s.procs[x], OfCond(l)) ==>
          s.locks[l] != -1 || !s.cond[l])
    && (forall q :: 0 <= q < |s.procs| && s.procs[q].parent >= 0 ==> s.procs[s.procs[q].parent].state != Zombie)
  }

  /** CPU c, in a thread or in a handler without a process, has gone through the table for condition l and still holds
      its lock. */
  predicate Signalled(s: Sys, c: nat, l: nat)
    requires Shape(s) && c < |s.cpus|
  {
    s.cpus[c].at == IntrRel(l) ||
    (s.cpus[c].at.InProc? && s.procs[s.cpus[c].proc].pc.SignalRel? && s.procs[s.cpus[c].proc].pc.l == l)
  }

  /** A signal reaches everybody: when it is done, no process at all sleeps on its condition. */
  lemma SignalReaches(s: Sys, c: nat, l: nat, x: nat)
    requires Inv(s) && c < |s.cpus| && Signalled(s, c, l) && x < |s.procs|
    ensures !AsleepOn(s.procs[x], OfCond(l))
  {
    hide TableOk, FamilyOk, ClaimsOk, PendingOk, PcInRange;
    SignalledCond(s, c, l);
    assert HoldsLock(s, c, l);
    if AsleepOn(s.procs[x], OfCond(l)) {
      SleeperCommitted(s, x);
      AboutToWake(s, x, l);
      assert false;
    }
  }

  ghost predicate AllWoken(s: Sys)
    requires Shape(s)
  {
    forall c: nat, l: nat, x: nat :: c < |s.cpus| && x < |s.procs| && Signalled(s, c, l) ==>
                                       !AsleepOn(s.procs[x], OfCond(l))
  }

  lemma SignalsReach(s: Sys)
    requires Inv(s)
    ensures AllWoken(s)
  {
    hide TableOk, LocksOk, FamilyOk, ClaimsOk, PendingOk, PcInRange, Signalled, AsleepOn;
    forall c: nat, l: nat, x: nat | c < |s.cpus| && x < |s.procs| && Signalled(s, c, l)
      ensures !AsleepOn(s.procs[x], OfCond(l))
    {
      SignalReaches(s, c, l, x);
    }
  }

  lemma SignalledCond(s: Sys, c: nat, l: nat)
    requires Inv(s) && c < |s.cpus| && Signalled(s, c, l)
    ensures 0 < l < |s.locks| && s.cond[l]
  {
    hide TableOk, LocksOk, FamilyOk, PendingOk, WaitClaim, ForkClaim, Different;
    if s.cpus[c].at.InProc? { assert CondClaim(s, s.cpus[c].proc); } else { assert HandlerClaim(s, c); }
  }

  lemma AboutToWake(s: Sys, x: nat, l: nat)
    requires Inv(s) && x < |s.procs| && 0 < l < |s.locks| && Committed(s.procs[x], l) && s.cond[l]
    ensures PendingWake(s, l, x)
  {
    hide TableOk, LocksOk, FamilyOk, ClaimsOk, PcInRange, Committed, PendingWake;
  }

  lemma NoLostWakeup(s: Sys)
    requires Inv(s)
    ensures NoneLost(s)
  {
    hide ClaimsOk, TableOk, LocksOk, Committed, PendingOk, AsleepOn, ZombieKid;
    forall x: nat, q | x < |s.procs| && 0 <= q < |s.procs| && s.locks[0] == -1 && AsleepOn(s.procs[x], OfProc(x))
      ensures !ZombieKid(s.procs[q], x)
    {
      AwaitsNoZombie(s, x, q);
    }
    forall x, l: nat | 0 <= x < |s.procs| && 0 < l < |s.locks| && s.locks[l] == -1 && AsleepOn(s.procs[x], OfCond(l))
      ensures !s.cond[l]
    {
      AwaitsNoCond(s, x, l);
    }
  }

  lemma AwaitsNoZombie(s: Sys, x: nat, q: nat)
    requires Inv(s) && x < |s.procs| && q < |s.procs| && s.locks[0] == -1 && AsleepOn(s.procs[x], OfProc(x))
    ensures !ZombieKid(s.procs[q], x)
  {
    hide ClaimsOk, TableOk, LocksOk, FamilyOk, Committed, ZombieKid;
    SleeperCommitted(s, x);
  }

  lemma AwaitsNoCond(s: Sys, x: nat, l: nat)
    requires Inv(s) && x < |s.procs| && 0 < l < |s.locks| && s.locks[l] == -1 && AsleepOn(s.procs[x], OfCond(l))
    ensures !s.cond[l]
  {
    hide ClaimsOk, TableOk, LocksOk, FamilyOk, Committed, ZombieKid;
    SleeperCommitted(s, x);
  }

  lemma SleeperCommitted(s: Sys, x: nat)
    requires Good(s) && x < |s.procs| && s.procs[x].state == Sleeping
    ensures AsleepOn(s.procs[x], OfProc(x)) ==> Committed(s.procs[x], 0)
    ensures forall l: nat :: 0 < l && AsleepOn(s.procs[x], OfCond(l)) ==> Committed(s.procs[x], l)
  {
    assert StateOk(s.procs[x], x);
  }

  /** A thread about to call swtch in sched holds its own lock and no other, and is not Running: none of
      sched's panics can happen. */
  ghost predicate SchedSafe(s: Sys) {
    forall c :: 0 <= c < |s.cpus| && s.cpus[c].at.InProc? && 0 <= s.cpus[c].proc < |s.procs| ==>
      var p := s.cpus[c].proc;
      s.procs[p].pc.YieldSwtch? || s.procs[p].pc.SleepSwtch? || s.procs[p].pc.ExitSwtch? ==>
        && s.procs[p].state != Running && (forall i :: 0 <= i < |s.procs| ==> (s.procs[i].lock == c <==> i == p))
        && (forall l :: 0 <= l < |s.locks| ==> s.locks[l] != c)
  }

  lemma SchedNeverPanics(s: Sys)
    requires Inv(s)
    ensures SchedSafe(s)
  {
    hide FamilyOk, ClaimsOk, PendingOk, TableOk, LocksOk;
    forall c | 0 <= c < |s.cpus| && s.cpus[c].at.InProc?
      ensures 0 <= s.cpus[c].proc < |s.procs| && Mine(s, c, s.cpus[c].proc)
    {
      MyLocks(s, c, s.cpus[c].proc);
      StateNow(s, c, s.cpus[c].proc);
    }
    forall c | 0 <= c < |s.cpus| && s.cpus[c].at.InProc?
      ensures s.procs[s.cpus[c].proc].state == StateAt(s.procs[s.cpus[c].proc].pc)
    {
      StateNow(s, c, s.cpus[c].proc);
    }
  }

  /** kwait frees no process that is still on a CPU. */
  lemma FreedIsOffCpu(s: Sys, c: nat, i: nat)
    requires Inv(s) && c < |s.cpus| && s.cpus[c].at.InProc? && s.procs[s.cpus[c].proc].pc == WaitChild(i)
    requires s.procs[i].state == Zombie
    ensures !OnCpu(s, i) && Step(s, c, Choice(Stay, true)).procs[i].state == Unused
  {
    hide FamilyOk, ClaimsOk, PendingOk, TableOk, LocksOk;
    StateNow(s, c, s.cpus[c].proc);
    FreeGood(s, c, s.cpus[c].proc, i);
  }

  /** The process lock CPU c is about to take, -1 for none. */
  function WantedProc(s: Sys, c: nat): int
    requires Shape(s) && c < |s.cpus|
  {
    var u := s.cpus[c];
    match u.at
    case Scan(priority, i) => if priority < 3 && i < |s.procs| then i else -1
    case IntrNext(i, _) => if i < |s.procs| then i else -1
    case InProc => (
      match s.procs[u.proc].pc
      case YieldAcq(_) => u.proc
      case SleepAcq(_) => u.proc
      case ExitLock => u.proc
      case WaitKilled => u.proc
      case CondKilled(_) => u.proc
      case WakeNext(i, _) => if i < |s.procs| && i != u.proc then i else -1
      case WaitScan(i, _) => if i < |s.procs| && s.procs[i].parent == u.proc then i else -1
      case ForkScan(i) => if i < |s.procs| then i else -1
      case ForkLock(i) => i
      case KillScan(i, _) => if i < |s.procs| then i else -1
      case _ => -1)
    case _ => -1
  }

  function WantedLock(s: Sys, c: nat): int
    requires Shape(s) && c < |s.cpus|
  {
    var u := s.cpus[c];
    if u.at.IntrAcq? then u.at.l else if !u.at.InProc? then -1 else
    match s.procs[u.proc].pc
    case CondAcq(l) => l
    case SignalAcq(l, _) => l
    case SleepRelock(l) => l
    case ExitAcq => 0
    case WaitAcq => 0
    case ForkWait(_) => 0
    case _ => -1
  }

  /** CPU c spins. */
  predicate Blocked(s: Sys, c: nat)
    requires Shape(s) && c < |s.cpus|
  {
    || (0 <= WantedProc(s, c) < |s.procs| && s.procs[WantedProc(s, c)].lock != -1)
    || (0 <= WantedLock(s, c) < |s.locks| && s.locks[WantedLock(s, c)] != -1)
  }

  /** acquire never finds the lock held by its own CPU. */
  lemma NoSelfDeadlock(s: Sys, c: nat)
    requires Inv(s) && c < |s.cpus|
    ensures 0 <= WantedProc(s, c) < |s.procs| ==> s.procs[WantedProc(s, c)].lock != c
    ensures 0 <= WantedLock(s, c) < |s.locks| ==> s.locks[WantedLock(s, c)] != c
  {
    hide FamilyOk, PendingOk, ClaimsOk, TableOk;
    var i, l := WantedProc(s, c), WantedLock(s, c);
    if 0 <= i < |s.procs| { assert s.procs[i].lock == c <==> HoldsProc(s, c, i); }
    if 0 <= l < |s.locks| { assert s.locks[l] == c <==> HoldsLock(s, c, l); }
  }

  /** Locks are taken in one order, wait_lock or a condition's lock before a process's: whatever the state,
      some CPU does not spin. */
  lemma NoDeadlock(s: Sys)
    requires Inv(s) && |s.cpus| > 0
    ensures exists c: nat :: c < |s.cpus| && !Blocked(s, c)
  {
    hide FamilyOk, PendingOk, ClaimsOk, TableOk, LocksOk;
    if Blocked(s, 0) {
      if 0 <= WantedProc(s, 0) < |s.procs| && s.procs[WantedProc(s, 0)].lock != -1 {
        ProcLockHolderRuns(s, WantedProc(s, 0));
      } else {
        var d := s.locks[WantedLock(s, 0)];
        LockHolderWantsNoLock(s, WantedLock(s, 0));
        if Blocked(s, d) { ProcLockHolderRuns(s, WantedProc(s, d)); }
      }
    }
  }

  lemma ProcLockHolderRuns(s: Sys, i: nat)
    requires Inv(s) && i < |s.procs| && s.procs[i].lock != -1
    ensures !Blocked(s, s.procs[i].lock)
  {
    hide FamilyOk, PendingOk, ClaimsOk, TableOk;
    var c := s.procs[i].lock;
    assert HoldsProc(s, c, i);
  }

  lemma LockHolderWantsNoLock(s: Sys, l: nat)
    requires Inv(s) && l < |s.locks| && s.locks[l] != -1
    ensures WantedLock(s, s.locks[l]) == -1
  {
    hide FamilyOk, PendingOk, ClaimsOk, TableOk;
    assert HoldsLock(s, s.locks[l], l);
  }

  /** Safety over whole runs: any number of processes and CPUs, any schedule, any choices. */
  lemma AllRunsSafe(n: nat, cpus: nat, cond: seq<bool>, schedule: seq<(nat, Choice)>)
    requires n > 0 && |cond| > 0 && forall k :: 0 <= k < |schedule| ==> schedule[k].0 < cpus
    ensures Inv(Boot(n, cpus, cond))
    ensures var s := Reached(Boot(n, cpus, cond), schedule);
            && HandedOff(s) && NoneLost(s) && SchedSafe(s) && PidsOk(s)
            && (cpus > 0 ==> exists c: nat :: c < |s.cpus| && !Blocked(s, c))
            && AllWoken(s)
  {
    hide Inv, Boot, PidsOk;
    BootOk(n, cpus, cond);
    BootCpus(n, cpus, cond);
    var s := Reached(Boot(n, cpus, cond), schedule);
    HandOff(s);
    NoLostWakeup(s);
    SignalsReach(s);
    SchedNeverPanics(s);
    BootPids(n, cpus, cond);
    PidsStayUnique(Boot(n, cpus, cond), schedule);
    if cpus > 0 { NoDeadlock(s); }
  }

  lemma BootPids(n: nat, cpus: nat, cond: seq<bool>)
    requires n > 0 && |cond| > 0
    ensures PidsOk(Boot(n, cpus, cond))
  {
  }

  lemma {:induction false} PidsStayUnique(s: Sys, schedule: seq<(nat, Choice)>)
    requires Inv(s) && PidsOk(s) && forall k :: 0 <= k < |schedule| ==> schedule[k].0 < |s.cpus|
    ensures PidsOk(Reached(s, schedule))
  {
    hide Inv, PidsOk, Step;
    if schedule != [] {
      var n := |schedule| - 1;
      PidsStayUnique(s, schedule[..n]);
      PidsKeep(Reached(s, schedule[..n]), schedule[n].0, schedule[n].1);
    }
  }

  lemma BootCpus(n: nat, cpus: nat, cond: seq<bool>)
    requires n > 0 && |cond| > 0
    ensures |Boot(n, cpus, cond).cpus| == cpus
  {
  }

  /** Blocked is exactly spinning: a blocked CPU changes nothing once it is in acquire, where interrupts are off, and
      any other one can move without the help of an interrupt. */
  lemma BlockedSpins(s: Sys, c: nat, ch: Choice)
    requires Inv(s) && c < |s.cpus| && Blocked(s, c) && !ch.op.Preempt? && !ch.op.Signal?
    ensures Step(s, c, ch) == s
  {
    hide FamilyOk, PendingOk, ClaimsOk, TableOk, LocksOk;
  }

  lemma UnblockedMoves(s: Sys, c: nat)
    requires Inv(s) && c < |s.cpus| && !Blocked(s, c)
    ensures Step(s, c, Choice(Wait, true)) != s
  {
    hide FamilyOk, PendingOk, ClaimsOk, LocksOk, TableOk, ProcStep;
    if s.cpus[c].at.InProc? {
      StateNow(s, c, s.cpus[c].proc);
      ThreadMoves(s, c, s.cpus[c].proc);
    } else {
      assert Step(s, c, Choice(Wait, true)).cpus[c] != s.cpus[c];
    }
  }

  lemma ThreadMoves(s: Sys, c: nat, p: nat)
    requires Shape(s) && c < |s.cpus| && s.cpus[c] == Cpu(p, InProc) && !s.procs[p].pc.Exited? && !Blocked(s, c)
    ensures ProcStep(s, c, p, Choice(Wait, true)).procs[p].pc != s.procs[p].pc
  {
    hide WakeStep, ExitStep, WaitStep, ForkStep;
    FamilyMoves(s, c, p);
    WaitMoves(s, c, p);
    ForkMoves(s, c, p);
  }

  lemma FamilyMoves(s: Sys, c: nat, p: nat)
    requires Shape(s) && c < |s.cpus| && s.cpus[c] == Cpu(p, InProc) && !Blocked(s, c)
    ensures var pc := s.procs[p].pc;
            && (pc.WakeNext? || pc.WakeCheck? ==> WakeStep(s, c, p).procs[p].pc != pc)
            && (ExitPoint(pc) ==> ExitStep(s, c, p).procs[p].pc != pc)
  {
    hide Idle;
  }

  lemma WaitMoves(s: Sys, c: nat, p: nat)
    requires Shape(s) && c < |s.cpus| && s.cpus[c] == Cpu(p, InProc) && !Blocked(s, c)
    ensures var pc := s.procs[p].pc;
            WaitPoint(pc) ==>
              WaitStep(s, c, p, true).procs[p].pc != pc
  {
    hide Idle;
  }

  lemma ForkMoves(s: Sys, c: nat, p: nat)
    requires Shape(s) && c < |s.cpus| && s.cpus[c] == Cpu(p, InProc) && !Blocked(s, c)
    ensures ForkPoint(s.procs[p].pc) ==> ForkStep(s, c, p, true).procs[p].pc != s.procs[p].pc
  {
    hide Idle;
  }

  /** A zombie stays one until its parent reaps it in kwait, when it is on no CPU. */
  lemma ZombieStays(s: Sys, c: nat, ch: Choice, i: nat)
    requires Inv(s) && c < |s.cpus| && i < |s.procs| && s.procs[i].state == Zombie
    ensures var s' := Step(s, c, ch);
            || s'.procs[i].state == Zombie
            || (s.cpus[c] == Cpu(s.procs[i].parent, InProc) && s.procs[s.procs[i].parent].pc == WaitChild(i)
                && s'.procs[i].state == Unused && !OnCpu(s, i))
  {
    hide TableOk, LocksOk, FamilyOk, PendingOk, ClaimsOk, StartStep, YieldStep, SleepStep, WakeStep, ExitStep, WaitStep,
        ForkStep, KillStep;
    if s.cpus[c].at.InProc? {
      var p := s.cpus[c].proc;
      StateNow(s, c, p);
      ClaimNow(s, p);
      DeadThroughCalls(s, c, p, ch, i);
      DeadThroughSleep(s, c, p, ch, i);
      DeadThroughExit(s, c, p, i);
      DeadThroughFork(s, c, p, ch, i);
      DeadThroughWait(s, c, p, ch, i);
      if s.procs[p].pc == WaitChild(i) { FreeGood(s, c, p, i); }
    }
  }

  lemma DeadThroughCalls(s: Sys, c: nat, p: nat, ch: Choice, i: nat)
    requires Shape(s) && p < |s.procs| && c < |s.cpus| && i < |s.procs| && s.procs[i].state == Zombie
    requires s.procs[p].state == StateAt(s.procs[p].pc)
    ensures StartStep(s, p, ch.op).procs[i].state == Zombie && YieldStep(s, c, p).procs[i].state == Zombie
    ensures KillStep(s, c, p).procs[i].state == Zombie
  {
  }

  lemma DeadThroughSleep(s: Sys, c: nat, p: nat, ch: Choice, i: nat)
    requires Shape(s) && p < |s.procs| && c < |s.cpus| && i < |s.procs| && s.procs[i].state == Zombie
    requires s.procs[p].state == StateAt(s.procs[p].pc)
    ensures SleepStep(s, c, p, ch.ok).procs[i].state == Zombie
  {
  }

  lemma DeadThroughExit(s: Sys, c: nat, p: nat, i: nat)
    requires Shape(s) && p < |s.procs| && c < |s.cpus| && i < |s.procs| && s.procs[i].state == Zombie
    requires s.procs[p].state == StateAt(s.procs[p].pc)
    ensures WakeStep(s, c, p).procs[i].state == Zombie && ExitStep(s, c, p).procs[i].state == Zombie
  {
  }

  lemma DeadThroughFork(s: Sys, c: nat, p: nat, ch: Choice, i: nat)
    requires Shape(s) && p < |s.procs| && c < |s.cpus| && i < |s.procs| && s.procs[i].state == Zombie
    requires s.procs[p].state == StateAt(s.procs[p].pc) && ForkClaim(s, p)
    ensures ForkStep(s, c, p, ch.ok).procs[i].state == Zombie
  {
  }

  lemma DeadThroughWait(s: Sys, c: nat, p: nat, ch: Choice, i: nat)
    requires Shape(s) && p < |s.procs| && c < |s.cpus| && i < |s.procs| && s.procs[i].state == Zombie
    requires s.procs[p].state == StateAt(s.procs[p].pc) && WaitClaim(s, p)
    ensures if s.procs[p].pc == WaitChild(i)
            then s.procs[i].parent == p && (WaitStep(s, c, p, ch.ok).procs[i].state == if ch.ok then Unused else Zombie)
            else WaitStep(s, c, p, ch.ok).procs[i].state == Zombie
  {
  }

  // ---- Process numbers and kkill ----------------------------------------------------------------------

  /** Process numbers are handed out once: no two processes have the same one. */
  ghost predicate PidsOk(s: Sys) {
    && s.nextpid > 0
    && (forall i :: 0 <= i < |s.procs| ==> s.procs[i].pid < s.nextpid)
    && (forall i, j :: 0 <= i < |s.procs| && 0 <= j < |s.procs| && s.procs[i].pid == s.procs[j].pid > 0 ==> i == j)
  }

  /** Every number is one that was there, or 0, or the next one. */
  ghost predicate PidsFrom(s: Sys, s': Sys) {
    && |s'.procs| == |s.procs| && s'.nextpid == s.nextpid
    && forall i :: 0 <= i < |s.procs| ==> s'.procs[i].pid == s.procs[i].pid || s'.procs[i].pid == 0
  }

  lemma PidsThroughCalls(s: Sys, c: nat, p: nat, ch: Choice)
    requires Shape(s) && p < |s.procs| && c < |s.cpus|
    ensures PidsFrom(s, StartStep(s, p, ch.op)) && PidsFrom(s, YieldStep(s, c, p))
  {
    hide Idle;
  }

  lemma PidsThroughSleep(s: Sys, c: nat, p: nat, ok: bool)
    requires Shape(s) && p < |s.procs| && c < |s.cpus|
    ensures PidsFrom(s, SleepStep(s, c, p, ok))
  {
    hide Idle;
  }

  lemma PidsThroughKill(s: Sys, c: nat, p: nat)
    requires Shape(s) && p < |s.procs| && c < |s.cpus|
    ensures PidsFrom(s, KillStep(s, c, p))
  {
    hide Idle;
  }

  lemma PidsThroughWake(s: Sys, c: nat, p: nat)
    requires Shape(s) && p < |s.procs| && c < |s.cpus|
    ensures PidsFrom(s, WakeStep(s, c, p))
  {
    hide Idle;
  }

  lemma PidsThroughExit(s: Sys, c: nat, p: nat)
    requires Shape(s) && p < |s.procs| && c < |s.cpus|
    ensures PidsFrom(s, ExitStep(s, c, p))
  {
    hide Idle;
  }

  lemma PidsThroughWait(s: Sys, c: nat, p: nat, ok: bool)
    requires Shape(s) && p < |s.procs| && c < |s.cpus|
    ensures PidsFrom(s, WaitStep(s, c, p, ok))
  {
    hide Idle, Origin;
  }

  lemma PidsThroughFork(s: Sys, c: nat, p: nat, ok: bool)
    requires Shape(s) && p < |s.procs| && c < |s.cpus|
    ensures (s.procs[p].pc.ForkCheck? && s.procs[s.procs[p].pc.i].state == Unused) || PidsFrom(s, ForkStep(s, c, p, ok))
  {
    hide Idle, PidsFrom;
    var pc := s.procs[p].pc;
    if !ForkPoint(pc) {
      SamePids(s);
    } else if !pc.ForkCheck? || s.procs[pc.i].state != Unused {
      PidsInSlot(s, c, p, ok, pc.i);
    }
  }

  lemma SamePids(s: Sys)
    ensures PidsFrom(s, s)
  {
  }

  lemma PidsInSlot(s: Sys, c: nat, p: nat, ok: bool, i: nat)
    requires Shape(s) && p < |s.procs| && c < |s.cpus| && ForkPoint(s.procs[p].pc) && s.procs[p].pc.i == i
    requires s.procs[p].pc.ForkCheck? ==> s.procs[i].state != Unused
    ensures PidsFrom(s, ForkStep(s, c, p, ok))
  {
    hide Idle;
  }

  lemma PidsThroughSched(s: Sys, c: nat)
    requires Shape(s) && c < |s.cpus|
    ensures PidsFrom(s, SchedStep(s, c)) && PidsFrom(s, HandlerStep(s, c)) && forall at :: PidsFrom(s, AtIdle(s, c, at))
  {
    hide PcInRange;
  }

  lemma FewerPids(s: Sys, s': Sys)
    requires PidsOk(s) && PidsFrom(s, s')
    ensures PidsOk(s')
  {
  }

  /** allocproc gives out the next number. */
  lemma NewPid(s: Sys, c: nat, p: nat, ok: bool, i: nat)
    requires Shape(s) && p < |s.procs| && c < |s.cpus| && s.procs[p].pc == ForkCheck(i) && s.procs[i].state == Unused
    requires PidsOk(s)
    ensures PidsOk(ForkStep(s, c, p, ok))
  {
    var s' := ForkStep(s, c, p, ok);
    assert s'.nextpid == s.nextpid + 1 && s'.procs[i].pid == s.nextpid;
    assert forall j :: 0 <= j < |s.procs| && j != i ==> s'.procs[j].pid == s.procs[j].pid;
    hide ForkStep, Shape;
  }

  lemma PidsKeep(s: Sys, c: nat, ch: Choice)
    requires Inv(s) && PidsOk(s) && c < |s.cpus|
    ensures PidsOk(Step(s, c, ch))
  {
    hide TableOk, LocksOk, FamilyOk, PendingOk, ClaimsOk, PidsOk, PidsFrom;
    hide StartStep, YieldStep, SleepStep, WakeStep, ExitStep, WaitStep, ForkStep, KillStep, SchedStep, Go,
         HandlerStep, AtIdle;
    if !s.cpus[c].at.InProc? {
      PidsThroughSched(s, c);
      FewerPids(s, IdleStep(s, c, ch));
      return;
    }
    var p := s.cpus[c].proc;
    StateNow(s, c, p);
    PidsThroughCalls(s, c, p, ch);
    PidsThroughSleep(s, c, p, ch.ok);
    PidsThroughKill(s, c, p);
    PidsThroughWake(s, c, p);
    PidsThroughExit(s, c, p);
    PidsThroughWait(s, c, p, ch.ok);
    PidsThroughFork(s, c, p, ch.ok);
    GoPids(s, p, YieldAcq(s.procs[p].pc));
    if ch.op.Signal? { GoPids(s, p, SignalAcq(ch.op.l, s.procs[p].pc)); }
    if s.procs[p].pc.ForkCheck? && s.procs[s.procs[p].pc.i].state == Unused {
      NewPid(s, c, p, ch.ok, s.procs[p].pc.i);
    } else {
      FewerPids(s, ProcStep(s, c, p, ch));
    }
  }

  lemma GoPids(s: Sys, p: nat, pc: Pc)
    requires p < |s.procs|
    ensures PidsFrom(s, Go(s, p, pc))
  {
  }

  // -- a step moves no other thread

  lemma OthersInCalls(s: Sys, c: nat, p: nat, ch: Choice, q: nat)
    requires Shape(s) && p < |s.procs| && c < |s.cpus| && q < |s.procs| && q != p
    ensures StartStep(s, p, ch.op).procs[q].pc == s.procs[q].pc && YieldStep(s, c, p).procs[q].pc == s.procs[q].pc
    ensures SleepStep(s, c, p, ch.ok).procs[q].pc == s.procs[q].pc
  {
    hide Idle;
  }

  lemma OthersInKill(s: Sys, c: nat, p: nat, q: nat)
    requires Shape(s) && p < |s.procs| && c < |s.cpus| && q < |s.procs| && q != p
    ensures KillStep(s, c, p).procs[q].pc == s.procs[q].pc && WakeStep(s, c, p).procs[q].pc == s.procs[q].pc
  {
    hide Idle;
  }

  lemma OthersInExit(s: Sys, c: nat, p: nat, ok: bool, q: nat)
    requires Shape(s) && p < |s.procs| && c < |s.cpus| && q < |s.procs| && q != p
    ensures ExitStep(s, c, p).procs[q].pc == s.procs[q].pc && WaitStep(s, c, p, ok).procs[q].pc == s.procs[q].pc
  {
    hide Idle;
  }

  lemma OthersInFork(s: Sys, c: nat, p: nat, ok: bool, q: nat)
    requires Shape(s) && p < |s.procs| && c < |s.cpus| && q < |s.procs| && q != p && s.procs[q].state != Unused
    ensures ForkStep(s, c, p, ok).procs[q].pc == s.procs[q].pc
  {
    hide Idle;
  }

  lemma OthersInSched(s: Sys, c: nat, q: nat)
    requires Shape(s) && c < |s.cpus| && q < |s.procs|
    ensures SchedStep(s, c).procs[q].pc == s.procs[q].pc && HandlerStep(s, c).procs[q].pc == s.procs[q].pc
  {
    hide PcInRange;
  }

  lemma OthersStay(s: Sys, c: nat, ch: Choice, q: nat)
    requires Inv(s) && c < |s.cpus| && q < |s.procs| && s.procs[q].state != Unused && s.cpus[c] != Cpu(q, InProc)
    ensures Step(s, c, ch).procs[q].pc == s.procs[q].pc
  {
    hide TableOk, LocksOk, FamilyOk, PendingOk, ClaimsOk;
    hide StartStep, YieldStep, SleepStep, WakeStep, ExitStep, WaitStep, ForkStep, KillStep, SchedStep,
         HandlerStep;
    if !s.cpus[c].at.InProc? {
      OthersInSched(s, c, q);
      return;
    }
    var p := s.cpus[c].proc;
    StateNow(s, c, p);
    OthersInCalls(s, c, p, ch, q);
    OthersInKill(s, c, p, q);
    OthersInExit(s, c, p, ch.ok, q);
    OthersInFork(s, c, p, ch.ok, q);
  }

  // -- kkill

  /** The thread is in kkill(pid) and has not looked beyond slot q. */
  predicate Hunting(pc: Pc, pid: nat, q: nat) {
    var o := Origin(pc);
    (o.KillScan? || o.KillCheck?) && o.pid == pid && o.i <= q
  }

  /** q has been marked and is not asleep. */
  predicate Struck(s: Sys, q: nat)
    requires q < |s.procs|
  {
    s.procs[q].killed && s.procs[q].state != Sleeping
  }

  lemma HuntAside(s: Sys, c: nat, p: nat, ok: bool)
    requires Shape(s) && p < |s.procs| && c < |s.cpus|
    ensures Yielding(s.procs[p].pc) ==> Origin(YieldStep(s, c, p).procs[p].pc) == Origin(s.procs[p].pc)
    ensures s.procs[p].pc.SignalAcq? || s.procs[p].pc.SignalSet? || s.procs[p].pc.SignalRel? ==>
              Origin(SleepStep(s, c, p, ok).procs[p].pc) == Origin(s.procs[p].pc)
  {
    hide PointInRange;
  }

  lemma HuntWake(s: Sys, c: nat, p: nat)
    requires Shape(s) && p < |s.procs| && c < |s.cpus| && (s.procs[p].pc.WakeNext? || s.procs[p].pc.WakeCheck?)
    requires s.procs[p].pc.k.SignalWake?
    ensures Origin(WakeStep(s, c, p).procs[p].pc) == Origin(s.procs[p].pc)
  {
    hide WakeStep;
    WakeGoes(s, c, p);
  }

  /** A round of kkill's loop does not pass by the process it looks for. */
  lemma HuntRound(s: Sys, c: nat, p: nat, q: nat, pid: nat)
    requires Shape(s) && PidsOk(s) && p < |s.procs| && c < |s.cpus| && q < |s.procs| && s.procs[q].pid == pid > 0
    requires Hunting(s.procs[p].pc, pid, q) && !Yielding(s.procs[p].pc) && !Signalling(s.procs[p].pc)
    ensures var s' := KillStep(s, c, p);
            Hunting(s'.procs[p].pc, pid, q) || (s'.procs[p].pc == Run && Struck(s', q))
  {
  }

  /** A thread in yield goes on there. */
  lemma YieldTurn(s: Sys, c: nat, p: nat, ch: Choice)
    requires Shape(s) && p < |s.procs| && c < |s.cpus| && Yielding(s.procs[p].pc)
    ensures ProcStep(s, c, p, ch) == YieldStep(s, c, p)
  {
    hide StartStep, YieldStep, SleepStep, WakeStep, ExitStep, WaitStep, ForkStep, KillStep, PcInRange;
  }

  /** A thread in a handler goes on there. */
  lemma SignalTurn(s: Sys, c: nat, p: nat, ch: Choice)
    requires Shape(s) && p < |s.procs| && c < |s.cpus| && Signalling(s.procs[p].pc)
    ensures var waking := s.procs[p].pc.WakeNext? || s.procs[p].pc.WakeCheck?;
            ProcStep(s, c, p, ch) == if waking then WakeStep(s, c, p) else SleepStep(s, c, p, ch.ok)
  {
    hide StartStep, YieldStep, SleepStep, WakeStep, ExitStep, WaitStep, ForkStep, KillStep, PcInRange;
  }

  /** A thread in kkill goes on there, unless an interrupt comes first. */
  lemma KillTurn(s: Sys, c: nat, p: nat, ch: Choice)
    requires Shape(s) && p < |s.procs| && c < |s.cpus| && (s.procs[p].pc.KillScan? || s.procs[p].pc.KillCheck?)
    ensures var s' := ProcStep(s, c, p, ch);
            s' == KillStep(s, c, p) || Origin(s'.procs[p].pc) == Origin(s.procs[p].pc)
  {
    hide StartStep, YieldStep, SleepStep, WakeStep, ExitStep, WaitStep, ForkStep, KillStep, PcInRange;
  }

  lemma HuntStep(s: Sys, c: nat, p: nat, ch: Choice, q: nat, pid: nat)
    requires Inv(s) && PidsOk(s) && Runs(s, c, p) && q < |s.procs| && s.procs[q].pid == pid > 0
    requires Hunting(s.procs[p].pc, pid, q)
    ensures var s' := ProcStep(s, c, p, ch);
            Hunting(s'.procs[p].pc, pid, q) || (s'.procs[p].pc == Run && Struck(s', q))
  {
    hide TableOk, LocksOk, FamilyOk, PendingOk, ClaimsOk, PidsOk, Struck, PcInRange, ProcStep;
    hide YieldStep, SleepStep, WakeStep, KillStep;
    if Yielding(s.procs[p].pc) {
      YieldTurn(s, c, p, ch);
      HuntAside(s, c, p, ch.ok);
    } else if Signalling(s.procs[p].pc) {
      SignalTurn(s, c, p, ch);
      if s.procs[p].pc.WakeNext? || s.procs[p].pc.WakeCheck? { HuntWake(s, c, p); } else { HuntAside(s, c, p, ch.ok); }
    } else {
      KillTurn(s, c, p, ch);
      HuntRound(s, c, p, q, pid);
    }
  }

  lemma HuntGoesOn(s: Sys, c: nat, p: nat, ch: Choice, q: nat, pid: nat)
    requires Inv(s) && PidsOk(s) && c < |s.cpus| && p < |s.procs| && q < |s.procs| && s.procs[q].pid == pid > 0
    requires Hunting(s.procs[p].pc, pid, q)
    ensures var s' := Step(s, c, ch);
            Hunting(s'.procs[p].pc, pid, q) || (s'.procs[p].pc == Run && Struck(s', q))
  {
    hide LocksOk, FamilyOk, PendingOk, ClaimsOk, ProcStep, IdleStep, PidsOk;
    if s.cpus[c] == Cpu(p, InProc) {
      HuntStep(s, c, p, ch, q, pid);
    } else {
      assert StateOk(s.procs[p], p);
      OthersStay(s, c, ch, p);
    }
  }

  /** When kkill(pid) returns, a process that had that number all along is marked as killed and is not asleep: whatever
      the other CPUs did meanwhile, and however often the killer was preempted, it was not missed. */
  lemma {:induction false} KillReaches(s: Sys, schedule: seq<(nat, Choice)>, p: nat, q: nat, pid: nat)
    requires Inv(s) && PidsOk(s) && p < |s.procs| && q < |s.procs| && pid > 0 && s.procs[p].pc == KillScan(0, pid)
    requires forall k :: 0 <= k < |schedule| ==> schedule[k].0 < |s.cpus|
    requires forall k :: 0 <= k <= |schedule| ==> Reached(s, schedule[..k]).procs[q].pid == pid
    requires forall k :: 0 <= k < |schedule| ==> Reached(s, schedule[..k]).procs[p].pc != Run
    ensures var t := Reached(s, schedule);
            PidsOk(t) && (Hunting(t.procs[p].pc, pid, q) || (t.procs[p].pc == Run && Struck(t, q)))
  {
    hide Inv, PidsOk, Step, Struck;
    assert schedule[..|schedule|] == schedule;
    if schedule != [] {
      var n := |schedule| - 1;
      var before := schedule[..n];
      assert forall k :: 0 <= k <= n ==> before[..k] == schedule[..k];
      KillReaches(s, before, p, q, pid);
      var t := Reached(s, before);
      PidsKeep(t, schedule[n].0, schedule[n].1);
      HuntGoesOn(t, schedule[n].0, p, schedule[n].1, q, pid);
    }
  }
}
