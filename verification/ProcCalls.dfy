/** What the steps of fork, exit, wait, kill, the timer and the schedulers have done, for whoever makes the
  * call and whatever the other processes do meanwhile. */
module ProcCalls {
  import opened Procs
  import opened ProcSafety
  import opened ProcRuns

  // ---- what others do to a process ----

  /** Only the process itself, and the CPU that resumes it, move it on; a slot that is given or taken back
    * starts anew. */
  lemma OtherPc(s: State, t: State, l: Label, p: nat)
    requires Inv(s) && Step(s, t, l) && p < |s.procs| && !(l.Goes? && l.p == p)
    ensures |t.procs| == |s.procs|
    ensures var x, y := s.procs[p].pc, t.procs[p].pc;
      || y == x
      || (y == Born && (s.procs[p].state == UNUSED || s.procs[p].state == ZOMBIE))
      || (y == Resumed(x) && s.procs[p].state == RUNNABLE)
      || (x == Run && (l == Begins(p, y) || (l == Ticks(p) && y == YieldPt)))
  {
    hide Inv, Do;
    match l
    case Goes(r, memory) => DoOtherPc(s, r, memory, p);
    case _ =>
  }

  lemma DoOtherPc(s: State, r: nat, memory: bool, p: nat)
    requires Enabled(s, r) && p < |s.procs| && r != p
    ensures |Do(s, r, memory).procs| == |s.procs|
    ensures var (x, y) := (s.procs[p], Do(s, r, memory).procs[p]);
      y.pc == x.pc || (y.pc == Born && (x.state == UNUSED || x.state == ZOMBIE))
  {
    if OwnOnly(s.procs[r].pc) {
      hide Do;
      OthersStay(s, r, memory, p);
    } else if s.procs[r].pc.KillDo? {
      hide Do;
      KillIs(s, r, memory);
      var _ := KilledOne(s, s.procs[r].pc.pid, 0);
    } else {
      hide Do;
      RestOtherPc(s, r, memory, p);
    }
  }

  lemma RestOtherPc(s: State, r: nat, memory: bool, p: nat)
    requires Enabled(s, r) && p < |s.procs| && r != p && !OwnOnly(s.procs[r].pc) && !s.procs[r].pc.KillDo?
    ensures |Do(s, r, memory).procs| == |s.procs|
    ensures var (x, y) := (s.procs[p], Do(s, r, memory).procs[p]);
      y.pc == x.pc || (y.pc == Born && (x.state == UNUSED || x.state == ZOMBIE))
  {
    hide Killed, Switched, Take;
  }

  /** kill's scan: the lowest slot with the pid, if there is one. */
  lemma {:induction false} KilledOne(s: State, pid: nat, k: nat) returns (q: nat)
    requires k <= |s.procs|
    ensures k <= q <= |s.procs| && forall r: nat :: k <= r < q ==> s.procs[r].pid != pid
    ensures q == |s.procs| ==> Killed(s, pid, k) == s
    ensures q < |s.procs| ==>
      var x := s.procs[q];
      && x.pid == pid
      && Killed(s, pid, k) == s.(procs := s.procs[q := x.(killed := true, state := if x.state == SLEEPING then RUNNABLE
                                                                                  else x.state)])
    decreases |s.procs| - k
  {
    q := k;
    if k < |s.procs| && s.procs[k].pid != pid {
      q := KilledOne(s, pid, k + 1);
    }
  }

  /** While p has ptable.lock no other step moves p, or changes whose child a slot is. */
  lemma LockedStep(s: State, t: State, l: Label, p: nat)
    requires Inv(s) && Step(s, t, l) && p < |s.procs| && s.pt == ByProc(p) && HoldsPt(s.procs[p].pc)
    requires s.procs[p].state == RUNNING && !(l.Goes? && l.p == p)
    ensures |t.procs| == |s.procs| && t.procs[p] == s.procs[p]
    ensures forall q: nat :: ChildOf(t, q, p) <==> ChildOf(s, q, p)
  {
    hide Inv, Do;
    match l
    case Goes(r, memory) =>
      At(s, r);
      FillsOnly(s, r, memory, p);
    case Schedules(c) => CpuAt(s, c);
    case _ =>
  }

  lemma FillsOnly(s: State, r: nat, memory: bool, p: nat)
    requires Inv(s) && Enabled(s, r) && p < |s.procs| && s.pt == ByProc(p) && r != p && s.procs[p].state == RUNNING
    ensures var t := Do(s, r, memory);
      && |t.procs| == |s.procs| && t.procs[p] == s.procs[p]
      && forall q: nat :: ChildOf(t, q, p) <==> ChildOf(s, q, p)
  {
    hide Inv;
    At(s, r);
    At(s, p);
    assert s.procs[r].pc.ForkFill?;
  }

  // ---- wait ----

  ghost predicate HasChild(s: State, p: nat) {
    exists q: nat :: ChildOf(s, q, p)
  }

  ghost predicate HasChildBefore(s: State, p: nat, k: nat) {
    exists q: nat :: q < k && ChildOf(s, q, p)
  }

  /** havekids is right about the slots scanned. */
  ghost predicate Knows(s: State, p: nat) {
    p < |s.procs| ==>
      match s.procs[p].pc
      case WaitScan(k, havekids) => havekids <==> HasChildBefore(s, p, k)
      case WaitCheck(havekids) => havekids <==> HasChild(s, p)
      case _ => true
  }

  lemma SameChildren(s: State, t: State, p: nat)
    requires p < |s.procs| && p < |t.procs| && t.procs[p].pc == s.procs[p].pc && Knows(s, p)
    requires forall q: nat :: ChildOf(t, q, p) <==> ChildOf(s, q, p)
    ensures Knows(t, p)
  {
  }

  lemma KnowsStep(s: State, t: State, l: Label, p: nat)
    requires Inv(s) && Step(s, t, l) && Knows(s, p) && p < |s.procs|
    ensures Knows(t, p)
  {
    hide Inv, Do;
    At(s, p);
    if l.Goes? && l.p == p {
      KnowsOwn(s, p, l.memory);
    } else {
      OtherPc(s, t, l, p);
      var y := t.procs[p].pc;
      if y.WaitScan? || y.WaitCheck? {
        assert y == s.procs[p].pc && HoldsPt(y);
        LockedStep(s, t, l, p);
        SameChildren(s, t, p);
      }
    }
  }

  lemma KnowsOwn(s: State, p: nat, memory: bool)
    requires Inv(s) && Enabled(s, p) && Knows(s, p)
    ensures Knows(Do(s, p, memory), p)
  {
    hide Inv, Do;
    At(s, p);
    if s.procs[p].pc.WaitScan? {
      LookKnows(s, p, memory);
    } else if s.procs[p].pc.WaitPt? || s.procs[p].pc.WaitTidy? {
      ScanStarts(s, p, memory);
    } else {
      OwnMove(s, p, memory);
    }
  }

  lemma ScanStarts(s: State, p: nat, memory: bool)
    requires Enabled(s, p) && (s.procs[p].pc.WaitPt? || s.procs[p].pc.WaitTidy?)
    ensures Knows(Do(s, p, memory), p)
  {
  }

  lemma LookKnows(s: State, p: nat, memory: bool)
    requires Enabled(s, p) && s.procs[p].pc.WaitScan? && Knows(s, p)
    ensures Knows(Do(s, p, memory), p)
  {
    var k, t := s.procs[p].pc.k, Do(s, p, memory);
    LookIs(s, p, memory);
    hide Do;
    if t.procs[p].pc != Rel {
      ChildrenSeen(s, t, p, k);
    }
  }

  /** wait's look at slot k, when it goes on. */
  lemma LookIs(s: State, p: nat, memory: bool)
    requires Enabled(s, p) && s.procs[p].pc.WaitScan?
    ensures var (k, h, t) := (s.procs[p].pc.k, s.procs[p].pc.havekids, Do(s, p, memory));
      && |t.procs| == |s.procs|
      && (t.procs[p].pc == Rel
          || (t.procs[p].pc == (if k >= |s.procs| then WaitCheck(h) else WaitScan(k + 1, h || ChildOf(s, k, p)))
              && forall q: nat :: ChildOf(t, q, p) <==> ChildOf(s, q, p)))
  {
  }

  lemma ChildrenSeen(s: State, t: State, p: nat, k: nat)
    requires forall q: nat :: ChildOf(t, q, p) <==> ChildOf(s, q, p)
    ensures HasChildBefore(t, p, k) <==> HasChildBefore(s, p, k)
    ensures HasChildBefore(t, p, k + 1) <==> HasChildBefore(t, p, k) || ChildOf(t, k, p)
    ensures k >= |t.procs| ==> (HasChild(t, p) <==> HasChildBefore(t, p, k))
  {
    hide ChildOf;
    assert ChildOf(t, k, p) <==> ChildOf(s, k, p);
    assert k >= |t.procs| ==> forall q: nat :: ChildOf(t, q, p) ==> q < k by {
      forall q: nat | k >= |t.procs| && ChildOf(t, q, p) ensures q < k { ChildIn(t, q, p); }
    }
  }

  lemma ChildIn(s: State, q: nat, p: nat)
    requires ChildOf(s, q, p)
    ensures q < |s.procs|
  {
  }

  /** At each point of a run havekids is right. */
  lemma {:induction false} KnowsAlways(run: seq<State>, labels: seq<Label>, k: nat, p: nat)
    requires IsRun(run, labels) && k < |run|
    ensures Knows(run[k], p)
  {
    hide Inv, Step, Knows;
    if k > 0 {
      assert StepAt(run, labels, k - 1);
      RunInv(run, labels, k - 1);
      KnowsAlways(run, labels, k - 1, p);
      SlotsStay(run[k - 1], run[k], labels[k - 1]);
      if p < |run[k].procs| { KnowsStep(run[k - 1], run[k], labels[k - 1], p); } else { KnowsNothing(run[k], p); }
    } else {
      KnowsFirst(run[0], p);
    }
  }

  lemma KnowsNothing(s: State, p: nat)
    requires p >= |s.procs|
    ensures Knows(s, p)
  {
  }

  lemma KnowsFirst(s: State, p: nat)
    requires Init(s)
    ensures Knows(s, p)
  {
  }

  lemma SlotsStay(s: State, t: State, l: Label)
    requires Step(s, t, l)
    ensures |t.procs| == |s.procs| && t.init == s.init
  {
    hide Do;
    if l.Goes? { DoSlots(s, l.p, l.memory); }
  }

  lemma DoSlots(s: State, p: nat, memory: bool)
    requires Enabled(s, p)
    ensures |Do(s, p, memory).procs| == |s.procs| && Do(s, p, memory).init == s.init
  {
    hide Killed;
    if s.procs[p].pc.KillDo? { var _ := KilledOne(s, s.procs[p].pc.pid, 0); }
  }

  /** Zombie q, a child of p, is freed: its slot is UNUSED, without pid, parent and killed flag; but for
    * p's return nothing else changed. */
  ghost predicate Freed(s: State, t: State, p: nat, q: nat) {
    && p < |s.procs| == |t.procs| && q != p && ChildOf(s, q, p) && s.procs[q].state == ZOMBIE
    && t.procs[q].state == UNUSED && t.procs[q].pid == 0 && t.procs[q].parent == None && !t.procs[q].killed
    && t == s.(procs := t.procs) && t.procs[p] == s.procs[p].(pc := Rel)
    && forall r: nat :: r < |s.procs| && r != p && r != q ==> t.procs[r] == s.procs[r]
  }

  ghost predicate FreedOne(s: State, t: State, p: nat) {
    exists q: nat :: Freed(s, t, p, q)
  }

  ghost predicate OnlyPc(s: State, t: State, p: nat, pc: Pc) {
    p < |s.procs| && t == s.(procs := s.procs[p := s.procs[p].(pc := pc)])
  }

  /** One step of wait with ptable.lock.  It frees a zombie child as soon as it comes to one, and returns;
    * or goes on to the next slot; or returns without one, having no children, or killed, with no zombie
    * child; or sleeps, on its own channel, with children of which none is a zombie. */
  lemma WaitStep(run: seq<State>, labels: seq<Label>, k: nat, p: nat, memory: bool)
    requires IsRun(run, labels) && k + 1 < |run| && labels[k] == Goes(p, memory) && p < |run[k].procs|
    requires run[k].procs[p].pc.WaitScan? || run[k].procs[p].pc.WaitCheck?
    ensures p < |run[k + 1].procs|
    ensures var (s, t, pc) := (run[k], run[k + 1], run[k].procs[p].pc);
      if pc.WaitScan? && ChildOf(s, pc.k, p) && s.procs[pc.k].state == ZOMBIE then Freed(s, t, p, pc.k)
      else if pc.WaitScan? then OnlyPc(s, t, p, t.procs[p].pc) && ScansOn(pc, t.procs[p].pc, |s.procs|)
      else
        && (forall q: nat :: ChildOf(s, q, p) ==> s.procs[q].state != ZOMBIE)
        && if s.procs[p].killed || !HasChild(s, p) then OnlyPc(s, t, p, Rel)
           else SleepsOn(t.procs[p], Child(p)) && t.procs[p].pc == WaitOut
  {
    hide Inv, IsRun;
    RunInv(run, labels, k);
    KnowsAlways(run, labels, k, p);
    assert Step(run[k], run[k + 1], labels[k]) by { TakesStep(run, labels, k); }
    At(run[k], p);
    if run[k].procs[p].pc.WaitScan? {
      WaitLooks(run[k], p, memory);
    } else {
      WaitDecides(run[k], p, memory);
    }
  }

  predicate ScansOn(pc: Pc, pc': Pc, n: nat) {
    pc.WaitScan? && if pc.k >= n then pc'.WaitCheck? else pc'.WaitScan? && pc'.k == pc.k + 1
  }

  lemma TakesStep(run: seq<State>, labels: seq<Label>, k: nat)
    requires IsRun(run, labels) && k + 1 < |run|
    ensures k < |labels| && Step(run[k], run[k + 1], labels[k])
  {
    assert StepAt(run, labels, k);
  }

  lemma WaitLooks(s: State, p: nat, memory: bool)
    requires Inv(s) && Enabled(s, p) && s.procs[p].pc.WaitScan?
    ensures var (t, pc) := (Do(s, p, memory), s.procs[p].pc);
      && |t.procs| == |s.procs|
      && if ChildOf(s, pc.k, p) && s.procs[pc.k].state == ZOMBIE then Freed(s, t, p, pc.k)
         else OnlyPc(s, t, p, t.procs[p].pc) && ScansOn(pc, t.procs[p].pc, |s.procs|)
  {
    hide Inv;
    At(s, p);
  }

  lemma WaitDecides(s: State, p: nat, memory: bool)
    requires Inv(s) && Enabled(s, p) && s.procs[p].pc.WaitCheck? && Knows(s, p)
    ensures var t := Do(s, p, memory);
      && |t.procs| == |s.procs|
      && (forall q: nat :: ChildOf(s, q, p) ==> s.procs[q].state != ZOMBIE)
      && if s.procs[p].killed || !HasChild(s, p) then OnlyPc(s, t, p, Rel)
         else SleepsOn(t.procs[p], Child(p)) && t.procs[p].pc == WaitOut
  {
    hide Inv;
    At(s, p);
    forall q: nat | ChildOf(s, q, p) ensures s.procs[q].state != ZOMBIE { ScannedAt(s, p, q); }
  }

  /** When wait returns it has freed exactly one zombie child; or nothing has changed, and p has no child
    * or is killed, and no zombie child. */
  lemma WaitReturns(run: seq<State>, labels: seq<Label>, k: nat, p: nat, memory: bool)
    requires IsRun(run, labels) && k + 1 < |run| && labels[k] == Goes(p, memory)
    requires p < |run[k].procs| && p < |run[k + 1].procs| && run[k + 1].procs[p].pc == Rel
    requires run[k].procs[p].pc.WaitScan? || run[k].procs[p].pc.WaitCheck?
    ensures || FreedOne(run[k], run[k + 1], p)
            || (&& OnlyPc(run[k], run[k + 1], p, Rel) && (run[k].procs[p].killed || !HasChild(run[k], p))
                && forall q: nat :: ChildOf(run[k], q, p) ==> run[k].procs[q].state != ZOMBIE)
  {
    hide Freed, OnlyPc, IsRun, HasChild;
    WaitStep(run, labels, k, p, memory);
    var pc := run[k].procs[p].pc;
    assert pc.WaitScan? && Freed(run[k], run[k + 1], p, pc.k) ==> FreedOne(run[k], run[k + 1], p);
  }

  // ---- kill ----

  /** kill marks the process with that pid, and lets it run if it slept; without one nothing changes. */
  lemma KillReturns(run: seq<State>, labels: seq<Label>, k: nat, p: nat, memory: bool) returns (q: nat)
    requires IsRun(run, labels) && k + 1 < |run| && labels[k] == Goes(p, memory)
    requires p < |run[k].procs| && run[k].procs[p].pc.KillDo?
    ensures var (s, t, pid) := (run[k], run[k + 1], run[k].procs[p].pc.pid);
      && q <= |s.procs| == |t.procs| && t == s.(procs := t.procs) && t.procs[p].pc == Rel
      && (forall r: nat :: r < q ==> s.procs[r].pid != pid)
      && (forall r: nat :: r < |s.procs| && r != p && r != q ==> t.procs[r] == s.procs[r])
      && (q != p ==> t.procs[p] == s.procs[p].(pc := Rel))
      && (q < |s.procs| ==>
            && s.procs[q].pid == pid && t.procs[q].killed
            && t.procs[q].state == (if s.procs[q].state == SLEEPING then RUNNABLE else s.procs[q].state)
            && t.procs[q] == s.procs[q].(killed := true, state := t.procs[q].state, pc := t.procs[q].pc))
  {
    hide IsRun, Do;
    TakesStep(run, labels, k);
    KillIs(run[k], p, memory);
    q := KilledOne(run[k], run[k].procs[p].pc.pid, 0);
  }

  // ---- fork ----

  /** What fork's steps on the table have done: found the lowest UNUSED slot, or none and returned; given the
    * slot back, as it found no memory; or made the child RUNNABLE, at level 0, with p for its parent. */
  lemma ForkSteps(run: seq<State>, labels: seq<Label>, k: nat, p: nat, memory: bool)
    requires IsRun(run, labels) && k + 1 < |run| && labels[k] == Goes(p, memory) && p < |run[k].procs|
    ensures |run[k + 1].procs| == |run[k].procs|
    ensures var (s, t) := (run[k], run[k + 1]);
      match s.procs[p].pc
      case ForkFind =>
        if t.procs[p].pc == Rel then
          OnlyPc(s, t, p, Rel) && forall r: nat :: r < |s.procs| ==> s.procs[r].state != UNUSED
        else
          && t.procs[p].pc.ForkRel? && NewSlot(s, t, p, t.procs[p].pc.np)
          && t.nextpid == s.nextpid + 1
      case ForkFill(np) =>
        && np < |s.procs| && OneOther(s, t, p, np) && t.nextpid == s.nextpid
        && if memory then t.procs[p].pc == ForkPt2(np) && t.procs[np] == s.procs[np].(parent := Some(p))
           else t.procs[p].pc == Run && t.procs[np] == s.procs[np].(state := UNUSED, maker := None)
      case ForkSet(np) =>
        && np < |s.procs| && OneOther(s, t, p, np) && t.procs[p].pc == Rel && t.nextpid == s.nextpid
        && ChildOf(t, np, p) && Ready(t.procs[np], 0) && t.procs[np].charged == 0 == t.procs[np].ticks
        && t.procs[np].pid == s.procs[np].pid && t.procs[np].pc == Born
      case _ => true
  {
    hide IsRun, Inv;
    RunInv(run, labels, k);
    TakesStep(run, labels, k);
    SlotsStay(run[k], run[k + 1], labels[k]);
    At(run[k], p);
    match run[k].procs[p].pc
    case ForkFind => ForkFindsSlot(run[k], p, memory);
    case ForkFill(np) => FillsOrNot(run[k], p, memory);
    case ForkSet(np) => ChildIsReady(run, labels, k, p, memory);
    case _ =>
  }

  /** Only slot q, and p's pc, changed. */
  ghost predicate OneOther(s: State, t: State, p: nat, q: nat) {
    && p < |s.procs| == |t.procs| && q != p && t == s.(procs := t.procs, nextpid := t.nextpid)
    && t.procs[p] == s.procs[p].(pc := t.procs[p].pc)
    && forall r: nat :: r < |s.procs| && r != p && r != q ==> t.procs[r] == s.procs[r]
  }

  /** The lowest UNUSED slot is set up for a new process with the next pid. */
  ghost predicate NewSlot(s: State, t: State, p: nat, np: nat) {
    && OneOther(s, t, p, np) && np < |s.procs| && s.procs[np].state == UNUSED
    && (forall r: nat :: r < np ==> s.procs[r].state != UNUSED)
    && t.procs[np].state == EMBRYO && t.procs[np].pid == s.nextpid && t.procs[np].maker == Some(p)
    && t.procs[np].priority == 0 && t.procs[np].ticks == 0 && t.procs[np].charged == 0 && t.procs[np].parent == None
    && t.procs[np].killed == s.procs[np].killed
  }

  lemma {:induction false} LowestUnused(s: State, k: nat)
    requires k <= |s.procs|
    ensures forall r: nat :: k <= r < FirstUnused(s, k) ==> s.procs[r].state != UNUSED
    decreases |s.procs| - k
  {
    if k < |s.procs| && s.procs[k].state != UNUSED { LowestUnused(s, k + 1); }
  }

  lemma ForkFindsSlot(s: State, p: nat, memory: bool)
    requires Inv(s) && Enabled(s, p) && s.procs[p].pc.ForkFind?
    ensures var t := Do(s, p, memory);
      && |t.procs| == |s.procs|
      && if t.procs[p].pc == Rel then
           OnlyPc(s, t, p, Rel) && forall r: nat :: r < |s.procs| ==> s.procs[r].state != UNUSED
         else t.procs[p].pc.ForkRel? && NewSlot(s, t, p, t.procs[p].pc.np) && t.nextpid == s.nextpid + 1
  {
    hide Inv;
    LowestUnused(s, 0);
    var np := FirstUnused(s, 0);
    if np < |s.procs| { At(s, np); }
  }

  lemma FillsOrNot(s: State, p: nat, memory: bool)
    requires Inv(s) && Enabled(s, p) && s.procs[p].pc.ForkFill?
    ensures var (t, np) := (Do(s, p, memory), s.procs[p].pc.np);
      && np < |s.procs| && OneOther(s, t, p, np) && t.nextpid == s.nextpid
      && if memory then t.procs[p].pc == ForkPt2(np) && t.procs[np] == s.procs[np].(parent := Some(p))
         else t.procs[p].pc == Run && t.procs[np] == s.procs[np].(state := UNUSED, maker := None)
  {
    hide Inv;
    At(s, p);
    At(s, s.procs[p].pc.np);
  }

  lemma ChildIsReady(run: seq<State>, labels: seq<Label>, k: nat, p: nat, memory: bool)
    requires IsRun(run, labels) && k < |run| && Enabled(run[k], p) && run[k].procs[p].pc.ForkSet?
    ensures var (s, t, np) := (run[k], Do(run[k], p, memory), run[k].procs[p].pc.np);
      && np < |s.procs| && OneOther(s, t, p, np) && t.procs[p].pc == Rel && t.nextpid == s.nextpid
      && ChildOf(t, np, p) && Ready(t.procs[np], 0) && t.procs[np].charged == 0 == t.procs[np].ticks
      && t.procs[np].pid == s.procs[np].pid && t.procs[np].pc == Born
  {
    hide IsRun, Inv;
    RunInv(run, labels, k);
    At(run[k], p);
    At(run[k], run[k].procs[p].pc.np);
    EmbryoIsNew(run, labels, k, run[k].procs[p].pc.np);
  }

  // ---- the quantum ----

  ghost predicate SameQuantum(x: Proc, y: Proc) {
    y.priority == x.priority && y.ticks == x.ticks && y.charged == x.charged
  }

  /** Slot q is given to a new process. */
  ghost predicate Given(s: State, t: State, q: nat) {
    && q < |s.procs| == |t.procs| && s.procs[q].state == UNUSED && t.procs[q].state == EMBRYO
    && t.procs[q].priority == 0 && t.procs[q].ticks == 0 && t.procs[q].charged == 0 && t.procs[q].pid == s.nextpid
    && t.nextpid == s.nextpid + 1
  }

  ghost predicate QuantumKept(s: State, t: State, q: nat) {
    && q < |s.procs| == |t.procs|
    && (SameQuantum(s.procs[q], t.procs[q]) || Given(s, t, q))
    && (s.procs[q].state != EMBRYO && t.procs[q].state == EMBRYO ==> Given(s, t, q))
  }

  /** Nothing but the timer, and being new, changes a process's level and ticks. */
  lemma DoQuantum(s: State, p: nat, memory: bool, q: nat)
    requires Enabled(s, p) && q < |s.procs|
    ensures QuantumKept(s, Do(s, p, memory), q)
  {
    hide Do, QuantumKept;
    var pc := s.procs[p].pc;
    if OwnOnly(pc) {
      OwnQuantum(s, p, memory, q);
    } else if pc.ForkFind? || pc.ForkFill? || pc.ForkSet? {
      ForkQuantum(s, p, memory, q);
    } else if pc.WakeDo? || pc.KillDo? {
      WakeQuantum(s, p, memory, q);
    } else {
      ScanQuantum(s, p, memory, q);
    }
  }

  lemma ForkQuantum(s: State, p: nat, memory: bool, q: nat)
    requires Enabled(s, p) && q < |s.procs|
    requires s.procs[p].pc.ForkFind? || s.procs[p].pc.ForkFill? || s.procs[p].pc.ForkSet?
    ensures QuantumKept(s, Do(s, p, memory), q)
  {
    hide Killed, Switched, Take, Look, PassOn, Wakeup1;
  }

  lemma WakeQuantum(s: State, p: nat, memory: bool, q: nat)
    requires Enabled(s, p) && q < |s.procs| && (s.procs[p].pc.WakeDo? || s.procs[p].pc.KillDo?)
    ensures QuantumKept(s, Do(s, p, memory), q)
  {
    hide Do;
    if s.procs[p].pc.KillDo? {
      KillIs(s, p, memory);
      var _ := KilledOne(s, s.procs[p].pc.pid, 0);
    } else {
      WakeIs(s, p, memory);
    }
  }

  lemma ScanQuantum(s: State, p: nat, memory: bool, q: nat)
    requires Enabled(s, p) && q < |s.procs|
    requires s.procs[p].pc.ExitWake? || s.procs[p].pc.ExitScan? || s.procs[p].pc.WaitScan?
    ensures QuantumKept(s, Do(s, p, memory), q)
  {
    hide Killed, Switched, Take, FirstUnused, Embryo;
  }

  lemma OwnQuantum(s: State, p: nat, memory: bool, q: nat)
    requires Enabled(s, p) && OwnOnly(s.procs[p].pc) && q < |s.procs|
    ensures QuantumKept(s, Do(s, p, memory), q)
  {
    OwnSelf(s, p, memory);
    hide Do;
    OthersStay(s, p, memory, q);
  }

  lemma OwnSelf(s: State, p: nat, memory: bool)
    requires Enabled(s, p) && OwnOnly(s.procs[p].pc)
    ensures var t := Do(s, p, memory);
      && |t.procs| == |s.procs| && SameQuantum(s.procs[p], t.procs[p])
      && (t.procs[p].state == s.procs[p].state || t.procs[p].state != EMBRYO)
  {
    hide Killed, FirstUnused, Look, PassOn, Wakeup1, Embryo;
  }

  lemma StepQuantum(s: State, t: State, l: Label, q: nat)
    requires Step(s, t, l) && q < |s.procs|
    ensures |t.procs| == |s.procs|
    ensures l != Ticks(q) ==> SameQuantum(s.procs[q], t.procs[q]) || Given(s, t, q)
    ensures s.procs[q].state != EMBRYO && t.procs[q].state == EMBRYO ==> Given(s, t, q)
    ensures l == Ticks(q) ==> s.procs[q].state == RUNNING && SameQuantum(Ticked(s.procs[q]), t.procs[q])
  {
    hide Do;
    if l.Goes? { DoQuantum(s, l.p, l.memory, q); }
  }

  lemma {:induction false} EmbryoIsNew(run: seq<State>, labels: seq<Label>, k: nat, q: nat)
    requires IsRun(run, labels) && k < |run| && q < |run[k].procs| && run[k].procs[q].state == EMBRYO
    ensures run[k].procs[q].priority == 0 == run[k].procs[q].ticks == run[k].procs[q].charged
  {
    hide Step;
    if k > 0 {
      TakesStep(run, labels, k - 1);
      SlotsStay(run[k - 1], run[k], labels[k - 1]);
      StepQuantum(run[k - 1], run[k], labels[k - 1], q);
      if run[k - 1].procs[q].state == EMBRYO { EmbryoIsNew(run, labels, k - 1, q); }
    }
  }

  /** The timer ticks of slot q among labels lo to hi - 1. */
  function TicksOf(labels: seq<Label>, lo: nat, hi: nat, q: nat): nat
    requires lo <= hi <= |labels|
    decreases hi - lo
  {
    if lo == hi then 0 else TicksOf(labels, lo, hi - 1, q) + (if labels[hi - 1] == Ticks(q) then 1 else 0)
  }

  /** No other process has been given slot q since state lo. */
  ghost predicate SameProcess(run: seq<State>, lo: nat, hi: nat, q: nat) {
    forall i: nat :: lo <= i < hi && i + 1 < |run| ==> !Given(run[i], run[i + 1], q)
  }

  /** A process's ticks are counted one by one: it is at level 0 exactly before the fifth since it was new. */
  lemma {:induction false} FifthTickDemotes(run: seq<State>, labels: seq<Label>, lo: nat, hi: nat, q: nat)
    requires IsRun(run, labels) && lo <= hi < |run| && q < |run[lo].procs| && SameProcess(run, lo, hi, q)
    requires run[lo].procs[q].priority == 0 == run[lo].procs[q].ticks
    ensures q < |run[hi].procs|
    ensures var (x, n) := (run[hi].procs[q], TicksOf(labels, lo, hi, q));
      if n < QUANTUM then x.priority == 0 && x.ticks == n else x.priority == 1 && x.ticks == n - QUANTUM
    decreases hi - lo
  {
    hide Step, Inv;
    if lo < hi {
      TakesStep(run, labels, hi - 1);
      FifthTickDemotes(run, labels, lo, hi - 1, q);
      StepQuantum(run[hi - 1], run[hi], labels[hi - 1], q);
      assert !Given(run[hi - 1], run[hi - 1 + 1], q);
    }
  }

  // ---- the schedulers' searches ----

  /** A search looks at one slot after another, dispatches the first process of its level, and ends only when
    * no process of the level is RUNNABLE. */
  lemma LevelsSearched(run: seq<State>, labels: seq<Label>, k: nat, c: nat)
    requires IsRun(run, labels) && k + 1 < |run| && labels[k] == Schedules(c)
    requires c < |run[k].cpus| && (run[k].cpus[c].pc.High? || run[k].cpus[c].pc.Low?)
    ensures c < |run[k + 1].cpus|
    ensures var (s, pc, pc') := (run[k], run[k].cpus[c].pc, run[k + 1].cpus[c].pc);
      var level := if pc.High? then 0 else 1;
      if pc.k < |s.procs| && Ready(s.procs[pc.k], level) then
        pc' == (if pc.High? then InHigh(pc.k) else InLow(pc.k)) && run[k + 1].cpus[c].proc == Some(pc.k)
      else if pc.k < |s.procs| then pc' == if pc.High? then High(pc.k + 1) else Low(pc.k + 1)
      else pc' == (if pc.High? then Test else Done) && forall q: nat :: q < |s.procs| ==> !Ready(s.procs[q], level)
  {
    hide Inv, IsRun;
    RunInv(run, labels, k);
    TakesStep(run, labels, k);
    SearchStep(run[k], c);
  }

  lemma SearchStep(s: State, c: nat)
    requires Inv(s) && CpuEnabled(s, c) && (s.cpus[c].pc.High? || s.cpus[c].pc.Low?)
    ensures c < |Schedule(s, c).cpus|
    ensures var (pc, y) := (s.cpus[c].pc, Schedule(s, c).cpus[c]);
      var level := if pc.High? then 0 else 1;
      if pc.k < |s.procs| && Ready(s.procs[pc.k], level) then
        y.pc == (if pc.High? then InHigh(pc.k) else InLow(pc.k)) && y.proc == Some(pc.k)
      else if pc.k < |s.procs| then y.pc == if pc.High? then High(pc.k + 1) else Low(pc.k + 1)
      else y.pc == (if pc.High? then Test else Done) && forall q: nat :: q < |s.procs| ==> !Ready(s.procs[q], level)
  {
    hide Inv;
    CpuAt(s, c);
    var level := if s.cpus[c].pc.High? then 0 else 1;
    forall q: nat | q < |s.procs| && s.cpus[c].pc.k >= |s.procs| ensures !Ready(s.procs[q], level) {
      assert Passed(s, c, q);
    }
  }

  // ---- switching away ----

  /** exit, yield, sleep and wait give the CPU up: the process is in its new state, its scheduler has the
    * lock, and no other process changed. */
  lemma GivesUpCpu(run: seq<State>, labels: seq<Label>, k: nat, p: nat, memory: bool)
    requires IsRun(run, labels) && k + 1 < |run| && labels[k] == Goes(p, memory) && p < |run[k].procs|
    requires var pc := run[k].procs[p].pc; pc == ExitDie || pc.YieldSet? || pc.SleepSet?
    ensures |run[k + 1].procs| == |run[k].procs|
    ensures var (s, t, pc) := (run[k], run[k + 1], run[k].procs[p].pc);
      && s.procs[p].cpu.Some? && s.procs[p].cpu.value < |t.cpus| == |s.cpus|
      && t.cpus[s.procs[p].cpu.value].proc == None && t.pt == ByCpu(s.procs[p].cpu.value)
      && (forall r: nat :: r < |s.procs| && r != p ==> t.procs[r] == s.procs[r])
      && t.procs[p].pid == s.procs[p].pid && t.procs[p].parent == s.procs[p].parent
      && (pc == ExitDie ==> t.procs[p].state == ZOMBIE && forall r: nat :: !ChildOf(t, r, p))
      && (pc.YieldSet? ==> t.procs[p].state == RUNNABLE)
      && (pc.SleepSet? ==> SleepsOn(t.procs[p], pc.ch))
  {
    hide Inv, IsRun, Do;
    var s, t := run[k], run[k + 1];
    RunInv(run, labels, k);
    TakesStep(run, labels, k);
    At(s, p);
    var z := s.procs[p];
    var x := if z.pc == ExitDie then z.(state := ZOMBIE, pc := Dead)
      else if z.pc.YieldSet? then z.(state := RUNNABLE, pc := YieldOut)
      else z.(state := SLEEPING, chan := Some(z.pc.ch), pc := SleepOut(z.pc.ch));
    SwitchIs(s, p, memory, x);
    if z.pc == ExitDie {
      forall r: nat ensures !ChildOf(t, r, p) { ScannedAt(s, p, r); }
    }
  }

  /** wakeup: whoever slept on the channel is RUNNABLE, and nobody else changed. */
  lemma AllWoken(run: seq<State>, labels: seq<Label>, k: nat, p: nat, memory: bool, q: nat)
    requires IsRun(run, labels) && k + 1 < |run| && labels[k] == Goes(p, memory) && p < |run[k].procs|
    requires run[k].procs[p].pc.WakeDo? && q < |run[k].procs| && q != p
    ensures |run[k + 1].procs| == |run[k].procs|
    ensures var (x, y) := (run[k].procs[q], run[k + 1].procs[q]);
      y == if SleepsOn(x, run[k].procs[p].pc.ch) then x.(state := RUNNABLE) else x
  {
    hide Do;
    TakesStep(run, labels, k);
    WakeIs(run[k], p, memory);
  }

  // ---- whole calls ----

  /** Where a process can be after x. */
  predicate Successor(x: Pc, y: Pc) {
    match x
    case Run =>
      y.ForkPt? || y.ExitPt? || y.WaitPt? || y.SleepPt? || y.WakePt? || y.KillPt? || y.YieldPt?
    case ForkPt => y == ForkFind
    case ForkFind => y == Rel || y.ForkRel?
    case ForkRel(np) => y == ForkFill(np)
    case ForkFill(np) => y == ForkPt2(np) || y == Run
    case ForkPt2(np) => y == ForkSet(np)
    case ForkSet(_) => y == Rel
    case ExitPt => y == ExitWake
    case ExitWake => y == ExitScan(0)
    case ExitScan(k) => y == ExitScan(k + 1) || y == ExitDie
    case ExitDie => y == Dead
    case Dead => y == Born
    case WaitPt => y == WaitScan(0, false)
    case WaitScan(k, havekids) => y == Rel || y == WaitCheck(havekids) || (y.WaitScan? && y.k == k + 1)
    case WaitCheck(_) => y == Rel || y == WaitOut
    case WaitOut => y == WaitTidy
    case WaitTidy => y == WaitScan(0, false)
    case YieldPt => y == YieldSet
    case YieldSet => y == YieldOut
    case YieldOut => y == Rel
    case SleepPt(ch) => y == SleepSet(ch)
    case SleepSet(ch) => y == SleepOut(ch)
    case SleepOut(_) => y == SleepTidy
    case SleepTidy => y == Rel
    case WakePt(ch) => y == WakeDo(ch)
    case WakeDo(_) => y == Rel
    case KillPt(pid) => y == KillDo(pid)
    case KillDo(_) => y == Rel
    case Born => y == Rel
    case Rel => y == Run
  }

  lemma OwnMove(s: State, p: nat, memory: bool)
    requires Inv(s) && Enabled(s, p)
    ensures var t := Do(s, p, memory); |t.procs| == |s.procs| && Successor(s.procs[p].pc, t.procs[p].pc)
  {
    hide Inv, Do;
    At(s, p);
    DoSlots(s, p, memory);
    var pc := s.procs[p].pc;
    if OwnOnly(pc) {
      OwnOnlyMove(s, p, memory);
    } else if pc.KillDo? {
      KillIs(s, p, memory);
      var _ := KilledOne(s, pc.pid, 0);
    } else if pc.WakeDo? {
      WakeIs(s, p, memory);
    } else if pc.ForkFill? {
      FillsOrNot(s, p, memory);
    } else if pc.WaitScan? {
      WaitLooks(s, p, memory);
      LookIs(s, p, memory);
    } else {
      RestMove(s, p, memory);
    }
  }

  lemma OwnOnlyMove(s: State, p: nat, memory: bool)
    requires Inv(s) && Enabled(s, p) && OwnOnly(s.procs[p].pc) && Placed(s, p)
    ensures var t := Do(s, p, memory); |t.procs| == |s.procs| && Successor(s.procs[p].pc, t.procs[p].pc)
  {
    hide Inv, Killed, FirstUnused, Look, PassOn, Wakeup1, Embryo, With;
    At(s, p);
    if s.procs[p].pc.WaitTidy? || s.procs[p].pc.SleepTidy? {
      var pc := if s.procs[p].pc.WaitTidy? then WaitScan(0, false) else Rel;
      TidyIs(s, p, memory, s.procs[p].(chan := None, pc := pc));
    }
  }

  lemma RestMove(s: State, p: nat, memory: bool)
    requires Inv(s) && Enabled(s, p)
    requires var pc := s.procs[p].pc; pc.ForkFind? || pc.ForkSet? || pc.ExitWake? || pc.ExitScan?
    ensures var t := Do(s, p, memory); |t.procs| == |s.procs| && Successor(s.procs[p].pc, t.procs[p].pc)
  {
    hide Inv, Killed, Look, Switched;
    At(s, p);
    if s.procs[p].pc.ForkSet? { At(s, s.procs[p].pc.np); }
  }

  /** Each process goes the way of its calls, one place after the other. */
  lemma PcMoves(run: seq<State>, labels: seq<Label>, k: nat, p: nat)
    requires IsRun(run, labels) && k + 1 < |run| && p < |run[k].procs|
    ensures p < |run[k + 1].procs|
    ensures var (x, y) := (run[k].procs[p].pc, run[k + 1].procs[p].pc); y == x || Successor(x, y)
  {
    hide IsRun, Inv, Do;
    RunInv(run, labels, k);
    TakesStep(run, labels, k);
    var s, t, l := run[k], run[k + 1], labels[k];
    SlotsStay(s, t, l);
    At(s, p);
    if l.Goes? && l.p == p {
      OwnMove(s, p, l.memory);
    } else {
      OtherPc(s, t, l, p);
      OtherMoves(s, t, l, p);
    }
  }

  lemma OtherMoves(s: State, t: State, l: Label, p: nat)
    requires Step(s, t, l) && p < |s.procs| == |t.procs| && Placed(s, p) && !(l.Goes? && l.p == p)
    requires var x, y := s.procs[p].pc, t.procs[p].pc;
      || y == x
      || (y == Born && (s.procs[p].state == UNUSED || s.procs[p].state == ZOMBIE))
      || (y == Resumed(x) && s.procs[p].state == RUNNABLE)
      || (x == Run && (l == Begins(p, y) || (l == Ticks(p) && y == YieldPt)))
    ensures var (x, y) := (s.procs[p].pc, t.procs[p].pc); y == x || Successor(x, y)
  {
    hide Do, Schedule, Charged, Fills;
  }

  /** p begins a call in state lo and has not gone back to its program up to hi. */
  ghost predicate InCall(run: seq<State>, labels: seq<Label>, lo: nat, hi: nat, p: nat, pc: Pc) {
    && IsRun(run, labels) && |run| == |labels| + 1 && lo < hi < |run| && labels[lo] == Begins(p, pc)
    && forall j: nat :: lo < j <= hi ==> p < |run[j].procs| && run[j].procs[p].pc != Run
  }

  lemma CallBegins(run: seq<State>, labels: seq<Label>, lo: nat, p: nat, pc: Pc)
    requires IsRun(run, labels) && lo + 1 < |run| && labels[lo] == Begins(p, pc)
    ensures p < |run[lo + 1].procs| && run[lo + 1].procs[p].pc == pc
  {
    TakesStep(run, labels, lo);
  }

  predicate InWait(pc: Pc) {
    pc.WaitPt? || pc.WaitScan? || pc.WaitCheck? || pc.WaitOut? || pc.WaitTidy?
  }

  /** A call of wait, however often it slept, returns by the step that freed a zombie child, or by one that found
    * that there is none to come (WaitReturns). */
  lemma {:induction false} WaitCall(run: seq<State>, labels: seq<Label>, lo: nat, hi: nat, p: nat) returns (j: nat)
    requires InCall(run, labels, lo, hi, p, WaitPt)
    ensures p < |run[hi].procs| && (InWait(run[hi].procs[p].pc) || run[hi].procs[p].pc == Rel)
    ensures run[hi].procs[p].pc == Rel ==>
      && lo < j < hi && p < |run[j].procs| && p < |run[j + 1].procs| && labels[j].Goes? && labels[j].p == p
      && (run[j].procs[p].pc.WaitScan? || run[j].procs[p].pc.WaitCheck?) && run[j + 1].procs[p].pc == Rel
      && forall i: nat :: j < i <= hi ==> p < |run[i].procs| && run[i].procs[p].pc == Rel
    decreases hi
  {
    hide IsRun, Inv, Do, Step;
    j := 0;
    if hi == lo + 1 {
      CallBegins(run, labels, lo, p, WaitPt);
    } else {
      j := WaitCall(run, labels, lo, hi - 1, p);
      PcMoves(run, labels, hi - 1, p);
      if InWait(run[hi - 1].procs[p].pc) && run[hi].procs[p].pc == Rel {
        j := hi - 1;
        OwnReturn(run, labels, j, p);
      }
    }
  }

  lemma OwnReturn(run: seq<State>, labels: seq<Label>, k: nat, p: nat)
    requires IsRun(run, labels) && k + 1 < |run| && p < |run[k].procs| && p < |run[k + 1].procs|
    requires InWait(run[k].procs[p].pc) && run[k + 1].procs[p].pc == Rel
    ensures labels[k].Goes? && labels[k].p == p
  {
    hide IsRun, Inv, Do;
    RunInv(run, labels, k);
    TakesStep(run, labels, k);
    At(run[k], p);
    if !(labels[k].Goes? && labels[k].p == p) { OtherPc(run[k], run[k + 1], labels[k], p); }
  }

  /** Slot q is being set up by p, for the process with this pid. */
  ghost predicate SetUp(s: State, q: nat, p: nat, pid: nat) {
    q < |s.procs| && s.procs[q].state == EMBRYO && s.procs[q].maker == Some(p) && s.procs[q].pid == pid
  }

  lemma DoSetUp(s: State, r: nat, memory: bool, q: nat, p: nat, pid: nat)
    requires Inv(s) && Enabled(s, r) && r != p && SetUp(s, q, p, pid)
    ensures SetUp(Do(s, r, memory), q, p, pid)
  {
    hide Inv, Do;
    DoSlots(s, r, memory);
    At(s, r);
    At(s, q);
    var pc := s.procs[r].pc;
    if OwnOnly(pc) {
      OthersStay(s, r, memory, q);
    } else if pc.KillDo? {
      KillIs(s, r, memory);
      var _ := KilledOne(s, pc.pid, 0);
    } else if pc.WakeDo? {
      WakeIs(s, r, memory);
    } else if pc.WaitScan? {
      WaitLooks(s, r, memory);
    } else if pc.ForkFind? {
      ForkFindsSlot(s, r, memory);
    } else if pc.ForkFill? {
      FillsOrNot(s, r, memory);
    } else {
      RestSetUp(s, r, memory, q, p, pid);
    }
  }

  lemma RestSetUp(s: State, r: nat, memory: bool, q: nat, p: nat, pid: nat)
    requires Inv(s) && Enabled(s, r) && r != p && SetUp(s, q, p, pid)
    requires var pc := s.procs[r].pc; pc.ForkSet? || pc.ExitWake? || pc.ExitScan?
    ensures SetUp(Do(s, r, memory), q, p, pid)
  {
    hide Inv, Killed, Look, Switched, FirstUnused;
    At(s, r);
    At(s, q);
  }

  lemma StepSetUp(s: State, t: State, l: Label, q: nat, p: nat, pid: nat)
    requires Inv(s) && Step(s, t, l) && !(l.Goes? && l.p == p) && SetUp(s, q, p, pid)
    ensures SetUp(t, q, p, pid)
  {
    hide Inv, Do;
    At(s, q);
    if l.Goes? { DoSetUp(s, l.p, l.memory, q, p, pid); }
  }

  lemma OwnSetUp(s: State, p: nat, memory: bool, q: nat, pid: nat)
    requires Inv(s) && Enabled(s, p) && SetUp(s, q, p, pid)
    requires s.procs[p].pc.ForkRel? || s.procs[p].pc.ForkPt2? || (s.procs[p].pc == ForkFill(q) && memory)
    ensures SetUp(Do(s, p, memory), q, p, pid)
  {
    hide Inv, Do;
    At(s, p);
    At(s, q);
    if s.procs[p].pc.ForkFill? {
      FillsOrNot(s, p, memory);
    } else {
      OthersStay(s, p, memory, q);
    }
  }

  predicate InFork(pc: Pc) {
    pc.ForkPt? || pc.ForkFind? || Target(pc).Some?
  }

  /** Between finding its slot and its return, a call of fork sets up one process, whose pid was the next one. */
  lemma {:induction false} ForkSoFar(run: seq<State>, labels: seq<Label>, lo: nat, hi: nat, p: nat) returns (j: nat)
    requires InCall(run, labels, lo, hi, p, ForkPt) && InFork(run[hi].procs[p].pc)
    ensures j < hi && p < |run[hi].procs|
    ensures var pc := run[hi].procs[p].pc;
      Target(pc).Some? ==>
        && lo < j < hi && Given(run[j], run[j + 1], Target(pc).value)
        && SetUp(run[hi], Target(pc).value, p, run[j].nextpid)
    decreases hi
  {
    hide IsRun, Inv, Do, Step;
    j := 0;
    if hi == lo + 1 {
      CallBegins(run, labels, lo, p, ForkPt);
    } else {
      PcMoves(run, labels, hi - 1, p);
      StillFork(run[hi - 1].procs[p].pc, run[hi].procs[p].pc);
      RunInv(run, labels, hi - 1);
      TakesStep(run, labels, hi - 1);
      var s, t, l := run[hi - 1], run[hi], labels[hi - 1];
      j := ForkSoFar(run, labels, lo, hi - 1, p);
      if l.Goes? && l.p == p {
        GoesOn(s, t, l);
        ForkOwn(s, p, l.memory, run[j].nextpid);
        if s.procs[p].pc.ForkFind? { j := hi - 1; }
      } else {
        NotOwn(s, t, l, p);
        if Target(s.procs[p].pc).Some? { StepSetUp(s, t, l, Target(s.procs[p].pc).value, p, run[j].nextpid); }
      }
    }
  }

  lemma ForkOwn(s: State, p: nat, memory: bool, pid: nat)
    requires Inv(s) && Enabled(s, p) && InFork(s.procs[p].pc)
    requires Target(s.procs[p].pc).Some? ==> SetUp(s, Target(s.procs[p].pc).value, p, pid)
    ensures |Do(s, p, memory).procs| == |s.procs|
    ensures var (t, x, y) := (Do(s, p, memory), s.procs[p].pc, Do(s, p, memory).procs[p].pc);
      && (x.ForkFind? && Target(y).Some? ==>
            Given(s, t, Target(y).value) && SetUp(t, Target(y).value, p, s.nextpid))
      && (Target(x).Some? && Target(y).Some? ==> SetUp(t, Target(x).value, p, pid))
  {
    hide Inv, Do;
    OwnMove(s, p, memory);
    var t, x := Do(s, p, memory), s.procs[p].pc;
    if x.ForkFind? {
      ForkFindsSlot(s, p, memory);
      if t.procs[p].pc != Rel { MakerSet(s, t, p, t.procs[p].pc.np); }
    } else if Target(x).Some? && Target(t.procs[p].pc).Some? {
      if x.ForkFill? { FillsOrNot(s, p, memory); }
      OwnSetUp(s, p, memory, Target(x).value, pid);
    }
  }

  lemma GoesOn(s: State, t: State, l: Label)
    requires Step(s, t, l) && l.Goes?
    ensures Enabled(s, l.p) && t == Do(s, l.p, l.memory)
  {
    hide Do;
  }

  lemma MakerSet(s: State, t: State, p: nat, np: nat)
    requires NewSlot(s, t, p, np) && t.nextpid == s.nextpid + 1
    ensures Given(s, t, np) && SetUp(t, np, p, s.nextpid)
  {
  }

  lemma StillFork(x: Pc, y: Pc)
    requires (y == x || Successor(x, y)) && InFork(y) && x != Run
    ensures InFork(x) && (Target(x).Some? ==> Target(y) == Target(x)) && (y.ForkPt? ==> x == y)
  {
  }

  /** Others do not move a process that is in fork. */
  lemma NotOwn(s: State, t: State, l: Label, p: nat)
    requires Inv(s) && Step(s, t, l) && p < |s.procs| && !(l.Goes? && l.p == p) && InFork(s.procs[p].pc)
    ensures p < |t.procs| && t.procs[p].pc == s.procs[p].pc
  {
    hide Inv, Do;
    At(s, p);
    OtherPc(s, t, l, p);
  }

  /** The last step of a fork, from s to t: the table is full, or the process that slot np was given to by the
    * step from s0 to t0 is RUNNABLE, a child of p, and has the pid that was the next one then. */
  ghost predicate ForkDone(s0: State, t0: State, s: State, t: State, p: nat) {
    p < |s.procs| == |t.procs| &&
    match s.procs[p].pc
    case ForkFind => forall r: nat :: r < |s.procs| ==> s.procs[r].state != UNUSED
    case ForkSet(np) =>
      Given(s0, t0, np) && ChildOf(t, np, p) && t.procs[np].state == RUNNABLE && t.procs[np].pid == s0.nextpid
    case _ => false
  }

  /** A call of fork that comes to its return has found the table full; or it has made the process it set up
    * RUNNABLE, a child of p with a pid that was the next one. */
  lemma {:induction false} ForkCall(run: seq<State>, labels: seq<Label>, lo: nat, hi: nat, p: nat)
    returns (j: nat, k: nat)
    requires InCall(run, labels, lo, hi, p, ForkPt) && run[hi].procs[p].pc == Rel
    ensures lo < k < hi && j < hi && p < |run[k].procs| && ForkDone(run[j], run[j + 1], run[k], run[k + 1], p)
    ensures run[k].procs[p].pc.ForkSet? ==> lo < j < k
    decreases hi
  {
    hide IsRun, ForkDone, InFork;
    if hi == lo + 1 { CallBegins(run, labels, lo, p, ForkPt); }
    if run[hi - 1].procs[p].pc == Rel {
      j, k := ForkCall(run, labels, lo, hi - 1, p);
    } else {
      OnlyFork(run, labels, lo, hi - 1, p);
      k := hi - 1;
      j := ForkLast(run, labels, lo, k, p);
    }
  }

  lemma ForkLast(run: seq<State>, labels: seq<Label>, lo: nat, k: nat, p: nat) returns (j: nat)
    requires InCall(run, labels, lo, k, p, ForkPt) && k + 1 < |run| && InFork(run[k].procs[p].pc)
    requires p < |run[k + 1].procs| && run[k + 1].procs[p].pc == Rel
    ensures j < k && ForkDone(run[j], run[j + 1], run[k], run[k + 1], p)
    ensures run[k].procs[p].pc.ForkSet? ==> lo < j < k
  {
    hide IsRun, Inv, Do, Step, ForkDone, Given, SetUp;
    RunInv(run, labels, k);
    TakesStep(run, labels, k);
    var s, t, l := run[k], run[k + 1], labels[k];
    j := ForkSoFar(run, labels, lo, k, p);
    if !(l.Goes? && l.p == p) { NotOwn(s, t, l, p); }
    SlotsStay(s, t, l);
    ForkEnds(run, labels, k, p, l.memory);
    ForkIsDone(run[j], run[j + 1], s, t, p);
  }



  lemma ForkIsDone(s0: State, t0: State, s: State, t: State, p: nat)
    requires p < |s.procs| == |t.procs|
    requires match s.procs[p].pc
             case ForkFind => forall r: nat :: r < |s.procs| ==> s.procs[r].state != UNUSED
             case ForkSet(np) =>
               && np < |s.procs| && ChildOf(t, np, p) && t.procs[np].state == RUNNABLE
               && t.procs[np].pid == s.procs[np].pid && Given(s0, t0, np) && SetUp(s, np, p, s0.nextpid)
             case _ => false
    ensures ForkDone(s0, t0, s, t, p)
  {
  }

  /** The last step of a fork that returns. */
  lemma ForkEnds(run: seq<State>, labels: seq<Label>, k: nat, p: nat, memory: bool)
    requires IsRun(run, labels) && k + 1 < |run| && labels[k] == Goes(p, memory) && p < |run[k].procs|
    requires p < |run[k + 1].procs| && InFork(run[k].procs[p].pc) && run[k + 1].procs[p].pc == Rel
    ensures var (s, t) := (run[k], run[k + 1]);
      match s.procs[p].pc
      case ForkFind => forall r: nat :: r < |s.procs| ==> s.procs[r].state != UNUSED
      case ForkSet(np) =>
        np < |s.procs| && ChildOf(t, np, p) && t.procs[np].state == RUNNABLE && t.procs[np].pid == s.procs[np].pid
      case _ => false
  {
    hide IsRun, Inv, Do, Step;
    ForkSteps(run, labels, k, p, memory);
    PcMoves(run, labels, k, p);
  }

  lemma {:induction false} OnlyFork(run: seq<State>, labels: seq<Label>, lo: nat, hi: nat, p: nat)
    requires InCall(run, labels, lo, hi, p, ForkPt)
    ensures p < |run[hi].procs| && (InFork(run[hi].procs[p].pc) || run[hi].procs[p].pc == Rel)
    decreases hi
  {
    hide IsRun, Inv, Do, Step;
    if hi == lo + 1 {
      CallBegins(run, labels, lo, p, ForkPt);
    } else {
      OnlyFork(run, labels, lo, hi - 1, p);
      PcMoves(run, labels, hi - 1, p);
    }
  }

  // ---- waking up ----

  /** The wakeups and the kill that this step is. */
  predicate WakesUp(s: State, l: Label, q: nat) {
    && l.Goes? && l.p < |s.procs| && q < |s.procs|
    && match s.procs[l.p].pc
       case WakeDo(ch) => s.procs[q].chan == Some(ch)
       case ExitWake => s.procs[l.p].parent.Some? && s.procs[q].chan == Some(Child(s.procs[l.p].parent.value))
       case ExitScan(_) => s.procs[q].chan == Some(Child(s.init))
       case KillDo(pid) => s.procs[q].pid == pid
       case _ => false
  }

  /** Who sleeps does so until a wakeup on its channel or a kill of its pid, and is RUNNABLE then. */
  lemma SleepsUntilWoken(run: seq<State>, labels: seq<Label>, k: nat, q: nat)
    requires IsRun(run, labels) && k + 1 < |run| && q < |run[k].procs| && run[k].procs[q].state == SLEEPING
    ensures q < |run[k + 1].procs|
    ensures var (x, y) := (run[k].procs[q], run[k + 1].procs[q]);
      && y.pc == x.pc && y.chan == x.chan
      && (y.state == SLEEPING || (y.state == RUNNABLE && WakesUp(run[k], labels[k], q)))
  {
    hide IsRun, Inv, Do;
    RunInv(run, labels, k);
    TakesStep(run, labels, k);
    var s, t, l := run[k], run[k + 1], labels[k];
    SlotsStay(s, t, l);
    if l.Goes? {
      GoesOn(s, t, l);
      DoSleeper(s, l.p, l.memory, q);
    }
  }

  predicate StillSleeps(s: State, l: Label, q: nat, x: Proc, y: Proc) {
    && y.pc == x.pc && y.chan == x.chan
    && (y.state == SLEEPING || (y.state == RUNNABLE && WakesUp(s, l, q)))
  }

  lemma DoSleeper(s: State, r: nat, memory: bool, q: nat)
    requires Inv(s) && Enabled(s, r) && q < |s.procs| && s.procs[q].state == SLEEPING
    ensures |Do(s, r, memory).procs| == |s.procs|
    ensures StillSleeps(s, Goes(r, memory), q, s.procs[q], Do(s, r, memory).procs[q])
  {
    hide Inv, Do;
    DoSlots(s, r, memory);
    At(s, r);
    At(s, q);
    var pc := s.procs[r].pc;
    if OwnOnly(pc) {
      OthersStay(s, r, memory, q);
    } else if pc.KillDo? {
      KillIs(s, r, memory);
      var _ := KilledOne(s, pc.pid, 0);
    } else if pc.WakeDo? {
      WakeIs(s, r, memory);
    } else if pc.WaitScan? || pc.ForkFind? || pc.ForkFill? {
      OtherSleeper(s, r, memory, q);
    } else if pc.ForkSet? {
      SetSleeper(s, r, memory, q);
    } else {
      ExitSleeper(s, r, memory, q);
    }
  }

  lemma OtherSleeper(s: State, r: nat, memory: bool, q: nat)
    requires Inv(s) && Enabled(s, r) && q < |s.procs| && s.procs[q].state == SLEEPING
    requires var pc := s.procs[r].pc; pc.WaitScan? || pc.ForkFind? || pc.ForkFill?
    ensures |Do(s, r, memory).procs| == |s.procs| && Do(s, r, memory).procs[q] == s.procs[q]
  {
    hide Inv, Do;
    At(s, r);
    At(s, q);
    match s.procs[r].pc
    case WaitScan(_, _) => WaitLooks(s, r, memory);
    case ForkFind => ForkFindsSlot(s, r, memory);
    case ForkFill(np) =>
      At(s, np);
      FillsOrNot(s, r, memory);
    case _ =>
  }

  lemma SetSleeper(s: State, r: nat, memory: bool, q: nat)
    requires Inv(s) && Enabled(s, r) && q < |s.procs| && s.procs[q].state == SLEEPING && s.procs[r].pc.ForkSet?
    ensures |Do(s, r, memory).procs| == |s.procs| && Do(s, r, memory).procs[q] == s.procs[q]
  {
    hide Inv, Killed, Look, Switched, FirstUnused, PassOn, Wakeup1;
    At(s, r);
    At(s, q);
    At(s, s.procs[r].pc.np);
  }

  lemma ExitSleeper(s: State, r: nat, memory: bool, q: nat)
    requires Enabled(s, r) && q < |s.procs| && q != r && s.procs[q].state == SLEEPING
    requires s.procs[r].pc.ExitWake? || s.procs[r].pc.ExitScan?
    ensures |Do(s, r, memory).procs| == |s.procs|
    ensures StillSleeps(s, Goes(r, memory), q, s.procs[q], Do(s, r, memory).procs[q])
  {
    hide Killed, Look, Switched, FirstUnused, Embryo;
  }
}
