/** The process table: fork, exit, wait, kill, yield and the two-level scheduler, as steps of many
  * processes on many CPUs.
  *
  * A process switches away by handing ptable.lock to the scheduler of its CPU, and is resumed with
  * the lock.  Scans of the table are one step per slot. */
module Procs {
  const QUANTUM: nat := 5

  datatype Option<T> = None | Some(value: T)

  datatype Status = UNUSED | EMBRYO | SLEEPING | RUNNABLE | RUNNING | ZOMBIE

  /** wait sleeps on the process's own slot; everything else on some other address. */
  datatype Chan = Child(p: nat) | Other(n: nat)

  datatype Pc =
    | Run                              // user code, or kernel code that is not modelled
    | ForkPt                           // allocproc: about to acquire ptable.lock
    | ForkFind                         // looking for an UNUSED slot
    | ForkRel(np: nat)
    | ForkFill(np: nat)                // allocating and copying, without the lock
    | ForkPt2(np: nat)
    | ForkSet(np: nat)
    | ExitPt
    | ExitWake                         // about to wake the parent
    | ExitScan(k: nat)                 // passing children on to init
    | ExitDie                          // about to become a zombie and switch away
    | Dead
    | WaitPt
    | WaitScan(k: nat, havekids: bool)
    | WaitCheck(havekids: bool)
    | WaitOut                          // asleep in wait, or woken and not yet resumed
    | WaitTidy
    | YieldPt
    | YieldSet
    | YieldOut
    | SleepPt(ch: Chan)
    | SleepSet(ch: Chan)
    | SleepOut(ch: Chan)
    | SleepTidy
    | WakePt(ch: Chan)
    | WakeDo(ch: Chan)
    | KillPt(pid: nat)
    | KillDo(pid: nat)
    | Born                             // never run: forkret comes next
    | Rel                              // about to release ptable.lock and go on

  /** cpu is the CPU that executes the process; maker the process whose fork is filling the slot;
    * charged is history: ticks charged to this pid at level 0. */
  datatype Proc = Proc(state: Status, pid: nat, parent: Option<nat>, chan: Option<Chan>, killed: bool,
                       priority: nat, ticks: nat, pc: Pc, cpu: Option<nat>, maker: Option<nat>, charged: nat)

  datatype SchedPc =
    | Outside                          // before acquiring ptable.lock
    | High(k: nat)                     // looking for level 0
    | InHigh(p: nat)
    | Test                             // if(c->proc == 0)
    | Low(k: nat)                      // looking for level 1
    | InLow(p: nat)
    | Done                             // about to release ptable.lock

  /** proc is c->proc.  highs is history: level-0 dispatches since level 1 last had its turn, that
    * is, since its last dispatch or since a search found it without RUNNABLE processes. */
  datatype Cpu = Cpu(proc: Option<nat>, pc: SchedPc, highs: nat)

  datatype Holder = Nobody | ByProc(p: nat) | ByCpu(c: nat)

  datatype State = State(procs: seq<Proc>, cpus: seq<Cpu>, pt: Holder, nextpid: nat, init: nat)

  // ---- reading a program counter ----

  predicate HoldsPt(pc: Pc) {
    match pc
    case ForkFind => true
    case ForkRel(_) => true
    case ForkSet(_) => true
    case ExitWake => true
    case ExitScan(_) => true
    case ExitDie => true
    case WaitScan(_, _) => true
    case WaitCheck(_) => true
    case WaitTidy => true
    case YieldSet => true
    case SleepSet(_) => true
    case SleepTidy => true
    case WakeDo(_) => true
    case KillDo(_) => true
    case Rel => true
    case _ => false
  }

  predicate Away(pc: Pc) {
    pc.WaitOut? || pc.YieldOut? || pc.SleepOut? || pc.Born?
  }

  function Resumed(pc: Pc): Pc {
    match pc
    case WaitOut => WaitTidy
    case SleepOut(_) => SleepTidy
    case _ => Rel
  }

  /** The slot a fork is filling. */
  function Target(pc: Pc): Option<nat> {
    match pc
    case ForkRel(np) => Some(np)
    case ForkFill(np) => Some(np)
    case ForkPt2(np) => Some(np)
    case ForkSet(np) => Some(np)
    case _ => None
  }

  predicate Alive(st: Status) {
    st == SLEEPING || st == RUNNABLE || st == RUNNING
  }

  // ---- steps ----

  function With(s: State, p: nat, x: Proc): State {
    if p < |s.procs| then s.(procs := s.procs[p := x]) else s
  }

  function WithPc(s: State, p: nat, pc: Pc): State {
    if p < |s.procs| then s.(procs := s.procs[p := s.procs[p].(pc := pc)]) else s
  }

  function WithCpu(s: State, c: nat, x: Cpu): State {
    if c < |s.cpus| then s.(cpus := s.cpus[c := x]) else s
  }

  predicate SleepsOn(x: Proc, ch: Chan) {
    x.state == SLEEPING && x.chan == Some(ch)
  }

  /** wakeup1 */
  function Wakeup1(s: State, ch: Chan): (t: State)
    ensures t == s.(procs := t.procs) && |t.procs| == |s.procs|
    ensures forall q :: 0 <= q < |t.procs| ==>
              t.procs[q] == if SleepsOn(s.procs[q], ch) then s.procs[q].(state := RUNNABLE) else s.procs[q]
  {
    s.(procs := seq(|s.procs|, q requires 0 <= q < |s.procs| =>
                  if SleepsOn(s.procs[q], ch) then s.procs[q].(state := RUNNABLE) else s.procs[q]))
  }

  predicate Unused(s: State, np: nat) {
    np < |s.procs| && s.procs[np].state == UNUSED
  }

  /** A new slot: EMBRYO, with a fresh pid, at level 0. */
  function Embryo(x: Proc, pid: nat, maker: nat): Proc {
    x.(state := EMBRYO, pid := pid, priority := 0, ticks := 0, pc := Born, maker := Some(maker), charged := 0)
  }

  /** The timer tick of a RUNNING process. */
  function Ticked(x: Proc): Proc {
    var charged := if x.priority == 0 then x.charged + 1 else x.charged;
    if x.priority == 0 && x.ticks + 1 >= QUANTUM then x.(priority := 1, ticks := 0, charged := charged)
    else x.(ticks := x.ticks + 1, charged := charged)
  }

  /** The process switches away; its CPU's scheduler goes on with the lock. */
  function Switched(s: State, p: nat, x: Proc): State {
    if p < |s.procs| && s.procs[p].cpu.Some? && s.procs[p].cpu.value < |s.cpus| then
      var c := s.procs[p].cpu.value;
      var y := s.cpus[c];
      s.(procs := s.procs[p := x.(cpu := None)], pt := ByCpu(c),
         cpus := s.cpus[c := y.(proc := None, pc := if y.pc.InHigh? then Test else Done)])
    else s
  }

  /** What wait clears when it reaps. */
  function Reaped(x: Proc): Proc {
    x.(state := UNUSED, pid := 0, parent := None, killed := false, pc := Born)
  }

  /** A running process in user code enters the kernel.  init does not exit. */
  predicate Starts(s: State, p: nat, pc: Pc) {
    && (pc.ForkPt? || pc.ExitPt? || pc.WaitPt? || pc.SleepPt? || pc.WakePt? || pc.KillPt? || pc.YieldPt?)
    && (pc.ExitPt? ==> p != s.init)
    && (pc.SleepPt? || pc.WakePt? ==> pc.ch.Other?)
  }

  predicate Enabled(s: State, p: nat) {
    && p < |s.procs| && s.procs[p].state == RUNNING
    && match s.procs[p].pc
       case Run => false
       case ForkPt => s.pt == Nobody
       case ForkPt2(_) => s.pt == Nobody
       case ExitPt => s.pt == Nobody
       case WaitPt => s.pt == Nobody
       case YieldPt => s.pt == Nobody
       case SleepPt(_) => s.pt == Nobody
       case WakePt(_) => s.pt == Nobody
       case KillPt(_) => s.pt == Nobody
       case Dead => false
       case _ => true
  }

  function Take(s: State, p: nat, pc: Pc): State {
    WithPc(s.(pt := ByProc(p)), p, pc)
  }

  /** The lowest UNUSED slot from k on, or the table's length. */
  function FirstUnused(s: State, k: nat): (i: nat)
    requires k <= |s.procs|
    ensures k <= i <= |s.procs|
    ensures i < |s.procs| ==> s.procs[i].state == UNUSED
    decreases |s.procs| - k
  {
    if k == |s.procs| || s.procs[k].state == UNUSED then k else FirstUnused(s, k + 1)
  }

  /** One slot of exit's scan. */
  function PassOn(s: State, p: nat, k: nat): State {
    if k >= |s.procs| then WithPc(s, p, ExitDie)
    else if s.procs[k].parent == Some(p) then
      var t := With(s, k, s.procs[k].(parent := Some(s.init)));
      WithPc(if s.procs[k].state == ZOMBIE then Wakeup1(t, Child(s.init)) else t, p, ExitScan(k + 1))
    else WithPc(s, p, ExitScan(k + 1))
  }

  /** One slot of wait's scan. */
  function Look(s: State, p: nat, k: nat, havekids: bool): State {
    if k >= |s.procs| then WithPc(s, p, WaitCheck(havekids))
    else if s.procs[k].parent != Some(p) then WithPc(s, p, WaitScan(k + 1, havekids))
    else if s.procs[k].state == ZOMBIE then WithPc(With(s, k, Reaped(s.procs[k])), p, Rel)
    else WithPc(s, p, WaitScan(k + 1, true))
  }

  /** The first slot from k on with this pid is killed, and woken if asleep. */
  function Killed(s: State, pid: nat, k: nat): State
    requires k <= |s.procs|
    decreases |s.procs| - k
  {
    if k == |s.procs| then s
    else if s.procs[k].pid == pid then
      var x := s.procs[k];
      s.(procs := s.procs[k := x.(killed := true, state := if x.state == SLEEPING then RUNNABLE else x.state)])
    else Killed(s, pid, k + 1)
  }

  /** The step of a process in the kernel.  memory says whether a fork in progress finds the memory
    * it needs. */
  function Do(s: State, p: nat, memory: bool): State
    requires Enabled(s, p)
  {
    var x := s.procs[p];
    match x.pc
    case Run => s
    case ForkPt => Take(s, p, ForkFind)
    case ForkFind =>
      var np := FirstUnused(s, 0);
      if np == |s.procs| then WithPc(s, p, Rel)
      else WithPc(With(s, np, Embryo(s.procs[np], s.nextpid, p)).(nextpid := s.nextpid + 1), p, ForkRel(np))
    case ForkRel(np) => WithPc(s.(pt := Nobody), p, ForkFill(np))
    case ForkFill(np) =>
      if np >= |s.procs| then s
      else if memory then WithPc(With(s, np, s.procs[np].(parent := Some(p))), p, ForkPt2(np))
      else WithPc(With(s, np, s.procs[np].(state := UNUSED, maker := None)), p, Run)
    case ForkPt2(np) => Take(s, p, ForkSet(np))
    case ForkSet(np) =>
      if np >= |s.procs| then s
      else WithPc(With(s, np, s.procs[np].(state := RUNNABLE, maker := None)), p, Rel)
    case ExitPt => Take(s, p, ExitWake)
    case ExitWake =>
      WithPc(if x.parent.Some? then Wakeup1(s, Child(x.parent.value)) else s, p, ExitScan(0))
    case ExitScan(k) => PassOn(s, p, k)
    case ExitDie => Switched(s, p, x.(state := ZOMBIE, pc := Dead))
    case Dead => s
    case WaitPt => Take(s, p, WaitScan(0, false))
    case WaitScan(k, havekids) => Look(s, p, k, havekids)
    case WaitCheck(havekids) =>
      if !havekids || x.killed then WithPc(s, p, Rel)
      else Switched(s, p, x.(state := SLEEPING, chan := Some(Child(p)), pc := WaitOut))
    case WaitOut => s
    case WaitTidy => With(s, p, x.(chan := None, pc := WaitScan(0, false)))
    case YieldPt => Take(s, p, YieldSet)
    case YieldSet => Switched(s, p, x.(state := RUNNABLE, pc := YieldOut))
    case YieldOut => s
    case SleepPt(ch) => Take(s, p, SleepSet(ch))
    case SleepSet(ch) => Switched(s, p, x.(state := SLEEPING, chan := Some(ch), pc := SleepOut(ch)))
    case SleepOut(_) => s
    case SleepTidy => With(s, p, x.(chan := None, pc := Rel))
    case WakePt(ch) => Take(s, p, WakeDo(ch))
    case WakeDo(ch) => WithPc(Wakeup1(s, ch), p, Rel)
    case KillPt(pid) => Take(s, p, KillDo(pid))
    case KillDo(pid) => WithPc(Killed(s, pid, 0), p, Rel)
    case Born => s
    case Rel => WithPc(s.(pt := Nobody), p, Run)
  }

  predicate Ready(x: Proc, level: nat) {
    x.state == RUNNABLE && x.priority == level
  }

  /** CPU c runs p: the process has the lock until it releases it. */
  function Dispatched(s: State, c: nat, p: nat, y: Cpu): State
    requires p < |s.procs|
  {
    var x := s.procs[p];
    WithCpu(With(s, p, x.(state := RUNNING, pc := Resumed(x.pc), cpu := Some(c))), c,
      y.(proc := Some(p))).(pt := ByProc(p))
  }

  predicate CpuEnabled(s: State, c: nat) {
    c < |s.cpus| && !s.cpus[c].pc.InHigh? && !s.cpus[c].pc.InLow? && (s.cpus[c].pc.Outside? ==> s.pt == Nobody)
  }

  /** The step of CPU c's scheduler. */
  function Schedule(s: State, c: nat): State
    requires CpuEnabled(s, c)
  {
    var y := s.cpus[c];
    match y.pc
    case Outside => WithCpu(s.(pt := ByCpu(c)), c, y.(pc := High(0)))
    case High(k) =>
      if k >= |s.procs| then WithCpu(s, c, y.(pc := Test))
      else if Ready(s.procs[k], 0) then Dispatched(s, c, k, y.(pc := InHigh(k), highs := y.highs + 1))
      else WithCpu(s, c, y.(pc := High(k + 1)))
    case InHigh(_) => s
    case Test => WithCpu(s, c, y.(pc := if y.proc == None then Low(0) else Done))
    case Low(k) =>
      if k >= |s.procs| then WithCpu(s, c, y.(pc := Done, highs := 0))
      else if Ready(s.procs[k], 1) then Dispatched(s, c, k, y.(pc := InLow(k), highs := 0))
      else WithCpu(s, c, y.(pc := Low(k + 1)))
    case InLow(_) => s
    case Done => WithCpu(s.(pt := Nobody), c, y.(pc := Outside))
  }

  datatype Label = Begins(p: nat, pc: Pc) | Goes(p: nat, memory: bool) | Ticks(p: nat) | Schedules(c: nat)

  predicate Step(s: State, t: State, l: Label) {
    match l
    case Begins(p, pc) =>
      && p < |s.procs| && s.procs[p].state == RUNNING && s.procs[p].pc == Run
      && Starts(s, p, pc) && t == WithPc(s, p, pc)
    case Goes(p, memory) => Enabled(s, p) && t == Do(s, p, memory)
    case Ticks(p) =>
      && p < |s.procs| && s.procs[p].state == RUNNING && s.procs[p].pc == Run
      && t == With(s, p, Ticked(s.procs[p]).(pc := YieldPt))
    case Schedules(c) => CpuEnabled(s, c) && t == Schedule(s, c)
  }
}
