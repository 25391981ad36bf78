/** The protocol of exit and wait, and the two-level scheduler, over whole runs. */
module ProcRuns {
  import opened Procs
  import opened ProcSafety

  // ---- every step keeps the invariant ----

  /** Steps that change only the process's own pc and the lock. */
  lemma PlainStep(s: State, p: nat, x: Proc, pt: Holder)
    requires Inv(s) && p < |s.procs| && s.procs[p].state == RUNNING && SameSlot(s, p, x)
    requires pt == s.pt || (s.pt in {Nobody, ByProc(p)} && pt in {Nobody, ByProc(p)})
    requires Shape(x, p) && Charged(x) && (HoldsPt(x.pc) <==> pt == ByProc(p))
    requires p == s.init ==> !(x.pc.ExitPt? || x.pc.ExitWake?)
    requires Target(x.pc) == Target(s.procs[p].pc)
    requires Target(x.pc).Some? ==>
      (x.pc.ForkRel? || x.pc.ForkFill? <==> s.procs[p].pc.ForkRel? || s.procs[p].pc.ForkFill?)
    requires !x.pc.ExitScan? && x.pc != ExitDie && !x.pc.WaitCheck? && (x.pc.WaitScan? ==> x.pc.k == 0)
    ensures Inv(s.(procs := s.procs[p := x], pt := pt))
  {
    hide Inv, Shape, Charged, HoldsPt;
    var t := s.(procs := s.procs[p := x], pt := pt);
    assert Announced(t, p);
    forall q: nat ensures Scanned(t, p, q) {
    }
    OwnStep(s, p, x, pt);
  }

  lemma At(s: State, p: nat)
    requires Inv(s) && p < |s.procs|
    ensures Placed(s, p) && Announced(s, p) && Parented(s, p) && s.init < |s.procs|
    ensures p == s.init ==> !(s.procs[p].pc.ExitPt? || s.procs[p].pc.ExitWake?)
    ensures s.procs[p].cpu.Some? ==> CpuOk(s, s.procs[p].cpu.value)
  {
    assert Placed(s, p);
  }

  /** Process p goes on to pc, taking, releasing or keeping ptable.lock. */
  lemma MoveStep(s: State, p: nat, pc: Pc, pt: Holder)
    requires Inv(s) && p < |s.procs| && s.procs[p].state == RUNNING && !Away(pc) && pc != Dead
    requires pt == s.pt || (s.pt in {Nobody, ByProc(p)} && pt in {Nobody, ByProc(p)})
    requires HoldsPt(pc) <==> pt == ByProc(p)
    requires p == s.init ==> !(pc.ExitPt? || pc.ExitWake?)
    requires Target(pc) == Target(s.procs[p].pc)
    requires Target(pc).Some? ==> (pc.ForkRel? || pc.ForkFill? <==> s.procs[p].pc.ForkRel? || s.procs[p].pc.ForkFill?)
    requires !pc.ExitScan? && pc != ExitDie && !pc.WaitCheck? && (pc.WaitScan? ==> pc.k == 0)
    requires pc.SleepPt? || pc.SleepSet? || pc.WakePt? || pc.WakeDo? ==> pc.ch.Other?
    ensures Inv(WithPc(s.(pt := pt), p, pc))
  {
    hide Inv, HoldsPt, Target;
    At(s, p);
    hide Charged;
    PlainStep(s, p, s.procs[p].(pc := pc), pt);
    assert WithPc(s.(pt := pt), p, pc) == s.(procs := s.procs[p := s.procs[p].(pc := pc)], pt := pt);
  }

  lemma LockStep(s: State, p: nat, memory: bool)
    requires Inv(s) && Enabled(s, p)
    requires var pc := s.procs[p].pc;
      pc.ForkPt? || pc.ForkPt2? || pc.ExitPt? || pc.WaitPt? || pc.YieldPt?
    ensures Inv(Do(s, p, memory))
  {
    hide Inv, Charged, HoldsPt;
    At(s, p);
    match s.procs[p].pc
    case ForkPt => Lock(s, p, ForkFind);
    case ForkPt2(np) => Lock(s, p, ForkSet(np));
    case ExitPt => Lock(s, p, ExitWake);
    case WaitPt => Lock(s, p, WaitScan(0, false));
    case YieldPt => Lock(s, p, YieldSet);
    case _ =>
  }

  lemma LockForCall(s: State, p: nat, memory: bool)
    requires Inv(s) && Enabled(s, p)
    requires s.procs[p].pc.SleepPt? || s.procs[p].pc.WakePt? || s.procs[p].pc.KillPt?
    ensures Inv(Do(s, p, memory))
  {
    hide Inv, Charged, HoldsPt;
    At(s, p);
    match s.procs[p].pc
    case SleepPt(ch) => Lock(s, p, SleepSet(ch));
    case WakePt(ch) => Lock(s, p, WakeDo(ch));
    case KillPt(pid) => Lock(s, p, KillDo(pid));
    case _ =>
  }

  /** Process p takes the free lock and goes on to pc. */
  lemma Lock(s: State, p: nat, pc: Pc)
    requires Inv(s) && p < |s.procs| && s.procs[p].state == RUNNING && s.pt == Nobody
    requires pc.ForkFind? || pc.ForkSet? || pc.ExitWake? || pc.YieldSet? || pc.SleepSet? || pc.WakeDo? || pc.KillDo?
             || pc == WaitScan(0, false)
    requires Target(pc) == Target(s.procs[p].pc) && !s.procs[p].pc.ForkRel? && !s.procs[p].pc.ForkFill?
    requires pc.ExitWake? ==> p != s.init
    requires pc.SleepSet? || pc.WakeDo? ==> pc.ch.Other?
    ensures Inv(Take(s, p, pc))
  {
    hide Inv;
    MoveStep(s, p, pc, ByProc(p));
  }

  lemma UnlockStep(s: State, p: nat, memory: bool)
    requires Inv(s) && Enabled(s, p) && (s.procs[p].pc.ForkRel? || s.procs[p].pc.Rel?)
    ensures Inv(Do(s, p, memory))
  {
    hide Inv, Charged;
    At(s, p);
    match s.procs[p].pc
    case ForkRel(np) => MoveStep(s, p, ForkFill(np), Nobody);
    case Rel => MoveStep(s, p, Run, Nobody);
    case _ =>
  }

  lemma TidyStep(s: State, p: nat, memory: bool)
    requires Inv(s) && Enabled(s, p) && (s.procs[p].pc.WaitTidy? || s.procs[p].pc.SleepTidy?)
    ensures Inv(Do(s, p, memory))
  {
    hide Inv, Do;
    At(s, p);
    var x := s.procs[p].(chan := None, pc := if s.procs[p].pc.WaitTidy? then WaitScan(0, false) else Rel);
    TidyIs(s, p, memory, x);
    PlainStep(s, p, x, s.pt);
  }

  lemma TidyIs(s: State, p: nat, memory: bool, x: Proc)
    requires Enabled(s, p) && (s.procs[p].pc.WaitTidy? || s.procs[p].pc.SleepTidy?)
    requires x == s.procs[p].(chan := None, pc := if s.procs[p].pc.WaitTidy? then WaitScan(0, false) else Rel)
    ensures Do(s, p, memory) == s.(procs := s.procs[p := x], pt := s.pt)
  {
  }

  lemma ForkFinds(s: State, p: nat, memory: bool)
    requires Inv(s) && Enabled(s, p) && s.procs[p].pc.ForkFind?
    ensures Inv(Do(s, p, memory))
  {
    hide Inv, Do;
    if FirstUnused(s, 0) == |s.procs| { ForkFindsNone(s, p, memory); } else { ForkFindsOne(s, p, memory); }
  }

  lemma ForkFindsNone(s: State, p: nat, memory: bool)
    requires Inv(s) && Enabled(s, p) && s.procs[p].pc.ForkFind? && FirstUnused(s, 0) == |s.procs|
    ensures Inv(Do(s, p, memory))
  {
    hide Inv, Charged;
    At(s, p);
    MoveStep(s, p, Rel, s.pt);
  }

  lemma ForkFindsOne(s: State, p: nat, memory: bool)
    requires Inv(s) && Enabled(s, p) && s.procs[p].pc.ForkFind? && FirstUnused(s, 0) < |s.procs|
    ensures Inv(Do(s, p, memory))
  {
    hide Inv;
    At(s, p);
    var np := FirstUnused(s, 0);
    At(s, np);
    ForkStep(s, Do(s, p, memory), p, np, Embryo(s.procs[np], s.nextpid, p), s.procs[p].(pc := ForkRel(np)));
  }

  lemma ForkFills(s: State, p: nat, memory: bool)
    requires Inv(s) && Enabled(s, p) && s.procs[p].pc.ForkFill?
    ensures Inv(Do(s, p, memory))
  {
    hide Inv, Do;
    if memory { ForkGetsMemory(s, p); } else { ForkGivesUp(s, p); }
  }

  lemma ForkGetsMemory(s: State, p: nat)
    requires Inv(s) && Enabled(s, p) && s.procs[p].pc.ForkFill?
    ensures Inv(Do(s, p, true))
  {
    hide Inv;
    At(s, p);
    var np := s.procs[p].pc.np;
    At(s, np);
    ForkStep(s, Do(s, p, true), p, np, s.procs[np].(parent := Some(p)), s.procs[p].(pc := ForkPt2(np)));
  }

  lemma ForkGivesUp(s: State, p: nat)
    requires Inv(s) && Enabled(s, p) && s.procs[p].pc.ForkFill?
    ensures Inv(Do(s, p, false))
  {
    hide Inv;
    At(s, p);
    var np := s.procs[p].pc.np;
    At(s, np);
    ForkStep(s, Do(s, p, false), p, np, s.procs[np].(state := UNUSED, maker := None), s.procs[p].(pc := Run));
  }

  lemma ForkSets(s: State, p: nat, memory: bool)
    requires Inv(s) && Enabled(s, p) && s.procs[p].pc.ForkSet?
    ensures Inv(Do(s, p, memory))
  {
    hide Inv;
    At(s, p);
    var np := s.procs[p].pc.np;
    At(s, np);
    ForkStep(s, Do(s, p, memory), p, np, s.procs[np].(state := RUNNABLE, maker := None), s.procs[p].(pc := Rel));
  }

  lemma WakingStep(s: State, p: nat, memory: bool)
    requires Inv(s) && Enabled(s, p) && (s.procs[p].pc.WakeDo? || s.procs[p].pc.KillDo?)
    ensures Inv(Do(s, p, memory))
  {
    hide Inv, Killed, Shape, Charged, Fills, CpuOk, Parented, Do;
    At(s, p);
    var pc := s.procs[p].pc;
    if pc.WakeDo? {
      WakeIs(s, p, memory);
      WakeupKeeps(s, pc.ch, p);
      MoveStep(Wakeup1(s, pc.ch), p, Rel, s.pt);
    } else {
      KillIs(s, p, memory);
      KilledKeeps(s, p, pc.pid, 0);
      MoveStep(Killed(s, pc.pid, 0), p, Rel, s.pt);
    }
  }

  lemma WakeIs(s: State, p: nat, memory: bool)
    requires Enabled(s, p) && s.procs[p].pc.WakeDo?
    ensures Do(s, p, memory) == WithPc(Wakeup1(s, s.procs[p].pc.ch), p, Rel)
  {
    hide Killed, Wakeup1, PassOn, Look, Switched, FirstUnused, WithPc, With, Take;
  }

  lemma KillIs(s: State, p: nat, memory: bool)
    requires Enabled(s, p) && s.procs[p].pc.KillDo?
    ensures Do(s, p, memory) == WithPc(Killed(s, s.procs[p].pc.pid, 0), p, Rel)
  {
    hide Killed, Wakeup1, PassOn, Look, Switched, FirstUnused, WithPc, With, Take;
  }

  lemma {:induction false} KilledKeeps(s: State, p: nat, pid: nat, k: nat)
    requires Inv(s) && p < |s.procs| && k <= |s.procs| && s.pt == ByProc(p) && s.procs[p].state == RUNNING
    ensures var t := Killed(s, pid, k);
      Inv(t) && |t.procs| == |s.procs| && t.pt == s.pt
      && t.procs[p].pc == s.procs[p].pc && t.procs[p].state == s.procs[p].state
    decreases |s.procs| - k
  {
    hide Inv;
    if k < |s.procs| {
      if s.procs[k].pid == pid {
        KillStep(s, p, k);
      } else {
        KilledKeeps(s, p, pid, k + 1);
      }
    }
  }

  lemma ExitWakes(s: State, p: nat, memory: bool)
    requires Inv(s) && Enabled(s, p) && s.procs[p].pc == ExitWake
    ensures Inv(Do(s, p, memory))
  {
    hide Inv;
    At(s, p);
    var par := s.procs[p].parent;
    var m := if par.Some? then Wakeup1(s, Child(par.value)) else s;
    if par.Some? { WakeupKeeps(s, Child(par.value), p); }
    At(m, p);
    var x := m.procs[p].(pc := ExitScan(0));
    var t := m.(procs := m.procs[p := x], pt := m.pt);
    forall q: nat ensures Scanned(t, p, q) {
    }
    assert Announced(t, p);
    OwnStep(m, p, x, m.pt);
    assert t == Do(s, p, memory);
  }

  lemma ExitPasses(s: State, p: nat, memory: bool)
    requires Inv(s) && Enabled(s, p) && s.procs[p].pc.ExitScan? && ChildOf(s, s.procs[p].pc.k, p)
    ensures Inv(Do(s, p, memory))
  {
    hide Inv, Shape, Charged, Fills;
    At(s, p);
    var k := s.procs[p].pc.k;
    AliveInit(s);
    var m := if s.procs[k].state == ZOMBIE then Wakeup1(s, Child(s.init)) else s;
    if s.procs[k].state == ZOMBIE { WakeupKeeps(s, Child(s.init), p); }
    NoMaker(s, p, k);
    AliveInit(m);
    var t := WithPc(With(m, k, m.procs[k].(parent := Some(m.init))), p, ExitScan(k + 1));
    PassedOn(m, t, p, k);
    assert t.procs == Do(s, p, memory).procs;
    assert t == Do(s, p, memory);
  }

  lemma ExitGoesOn(s: State, p: nat, memory: bool)
    requires Inv(s) && Enabled(s, p) && s.procs[p].pc.ExitScan? && !ChildOf(s, s.procs[p].pc.k, p)
    ensures Inv(Do(s, p, memory))
  {
    hide Inv, Charged, Fills, Scanned, Parented;
    At(s, p);
    var k := s.procs[p].pc.k;
    var x := s.procs[p].(pc := if k >= |s.procs| then ExitDie else ExitScan(k + 1));
    var t := s.(procs := s.procs[p := x], pt := s.pt);
    forall q: nat ensures Scanned(t, p, q) {
      ExitScanGrows(s, t, p, q);
    }
    assert Announced(t, p);
    SameCharge(s.procs[p], x);
    OwnStep(s, p, x, s.pt);
    assert t == Do(s, p, memory);
  }

  lemma ExitScanGrows(s: State, t: State, p: nat, q: nat)
    requires Inv(s) && p < |s.procs| && s.procs[p].pc.ExitScan? && !ChildOf(s, s.procs[p].pc.k, p)
    requires var k := s.procs[p].pc.k;
      t == s.(procs := s.procs[p := s.procs[p].(pc := if k >= |s.procs| then ExitDie else ExitScan(k + 1))])
    ensures Scanned(t, p, q)
  {
    hide Inv;
    ScannedAt(s, p, q);
  }

  lemma SameCharge(x: Proc, y: Proc)
    requires Charged(x) && y == x.(pc := y.pc, chan := y.chan)
    ensures Charged(y)
  {
  }

  lemma AliveInit(s: State)
    requires Inv(s)
    ensures s.init < |s.procs| && Alive(s.procs[s.init].state)
  {
  }

  lemma ScannedAt(s: State, p: nat, q: nat)
    requires Inv(s)
    ensures Scanned(s, p, q)
  {
  }

  lemma NoMaker(s: State, p: nat, k: nat)
    requires Inv(s) && p < |s.procs| && s.procs[p].pc.ExitScan? && ChildOf(s, k, p)
    ensures s.procs[k].maker == None && k != p && k != s.init
  {
    assert Placed(s, p) && Placed(s, k) && Parented(s, k) && Placed(s, s.init) && Announced(s, p);
    assert Parented(s, p) && Parented(s, s.init);
  }

  lemma WaitGoesOn(s: State, p: nat, memory: bool)
    requires Inv(s) && Enabled(s, p) && s.procs[p].pc.WaitScan?
    requires !(ChildOf(s, s.procs[p].pc.k, p) && s.procs[s.procs[p].pc.k].state == ZOMBIE)
    ensures Inv(Do(s, p, memory))
  {
    hide Inv, Charged, Fills, Scanned, Parented;
    At(s, p);
    var t := Do(s, p, memory);
    var x := t.procs[p];
    assert t == s.(procs := s.procs[p := x], pt := s.pt);
    forall q: nat ensures Scanned(t, p, q) {
      ScanGrows(s, p, memory, q);
    }
    assert Announced(t, p);
    SameCharge(s.procs[p], x);
    OwnStep(s, p, x, s.pt);
  }

  lemma ScanGrows(s: State, p: nat, memory: bool, q: nat)
    requires Inv(s) && Enabled(s, p) && s.procs[p].pc.WaitScan?
    requires !(ChildOf(s, s.procs[p].pc.k, p) && s.procs[s.procs[p].pc.k].state == ZOMBIE)
    ensures Scanned(Do(s, p, memory), p, q)
  {
    hide Inv;
    ScannedAt(s, p, q);
  }

  lemma WaitReaps(s: State, p: nat, memory: bool)
    requires Inv(s) && Enabled(s, p) && s.procs[p].pc.WaitScan?
    requires ChildOf(s, s.procs[p].pc.k, p) && s.procs[s.procs[p].pc.k].state == ZOMBIE
    ensures Inv(Do(s, p, memory))
  {
    hide Inv, Charged, Fills, Shape;
    At(s, p);
    var k := s.procs[p].pc.k;
    NotInit(s, k);
    ReapedChild(s, Do(s, p, memory), p, k);
  }

  lemma NotInit(s: State, k: nat)
    requires Inv(s) && k < |s.procs| && s.procs[k].state == ZOMBIE
    ensures k != s.init && s.init < |s.procs|
  {
  }

  lemma WaitScans(s: State, p: nat, memory: bool)
    requires Inv(s) && Enabled(s, p) && s.procs[p].pc.WaitScan?
    ensures Inv(Do(s, p, memory))
  {
    hide Inv, Do;
    var k := s.procs[p].pc.k;
    if ChildOf(s, k, p) && s.procs[k].state == ZOMBIE {
      WaitReaps(s, p, memory);
    } else {
      WaitGoesOn(s, p, memory);
    }
  }

  lemma WaitChecks(s: State, p: nat, memory: bool)
    requires Inv(s) && Enabled(s, p) && s.procs[p].pc.WaitCheck?
    ensures Inv(Do(s, p, memory))
  {
    hide Inv, Charged, Fills;
    At(s, p);
    if !s.procs[p].pc.havekids || s.procs[p].killed {
      MoveStep(s, p, Rel, s.pt);
    } else {
      var x := s.procs[p].(state := SLEEPING, chan := Some(Child(p)), pc := WaitOut);
      LeaveStep(s, Do(s, p, memory), p, x, s.procs[p].cpu.value);
    }
  }

  lemma SwitchStep(s: State, p: nat, memory: bool)
    requires Inv(s) && Enabled(s, p)
    requires s.procs[p].pc == ExitDie || s.procs[p].pc.YieldSet? || s.procs[p].pc.SleepSet?
    ensures Inv(Do(s, p, memory))
  {
    hide Inv, Charged, Fills, Do;
    At(s, p);
    var z := s.procs[p];
    match z.pc
    case ExitDie => SwitchAway(s, p, memory, z.(state := ZOMBIE, pc := Dead));
    case YieldSet => SwitchAway(s, p, memory, z.(state := RUNNABLE, pc := YieldOut));
    case SleepSet(ch) => SwitchAway(s, p, memory, z.(state := SLEEPING, chan := Some(ch), pc := SleepOut(ch)));
    case _ =>
  }

  lemma SwitchAway(s: State, p: nat, memory: bool, x: Proc)
    requires Inv(s) && Enabled(s, p)
    requires var z := s.procs[p];
      || (z.pc == ExitDie && x == z.(state := ZOMBIE, pc := Dead))
      || (z.pc.YieldSet? && x == z.(state := RUNNABLE, pc := YieldOut))
      || (z.pc.SleepSet? && x == z.(state := SLEEPING, chan := Some(z.pc.ch), pc := SleepOut(z.pc.ch)))
    ensures Inv(Do(s, p, memory))
  {
    hide Inv, Charged, Fills, Do;
    At(s, p);
    SwitchIs(s, p, memory, x);
    LeaveStep(s, Do(s, p, memory), p, x, s.procs[p].cpu.value);
  }

  lemma SwitchIs(s: State, p: nat, memory: bool, x: Proc)
    requires Enabled(s, p)
    requires var z := s.procs[p];
      || (z.pc == ExitDie && x == z.(state := ZOMBIE, pc := Dead))
      || (z.pc.YieldSet? && x == z.(state := RUNNABLE, pc := YieldOut))
      || (z.pc.SleepSet? && x == z.(state := SLEEPING, chan := Some(z.pc.ch), pc := SleepOut(z.pc.ch)))
    ensures Do(s, p, memory) == Switched(s, p, x)
  {
  }

  lemma DoKeeps(s: State, p: nat, memory: bool)
    requires Inv(s) && Enabled(s, p)
    ensures Inv(Do(s, p, memory))
  {
    hide Inv, Do;
    assert Placed(s, p) by { At(s, p); }
    match s.procs[p].pc
    case ForkFind => ForkFinds(s, p, memory);
    case ForkFill(_) => ForkFills(s, p, memory);
    case ForkSet(_) => ForkSets(s, p, memory);
    case ForkRel(_) => UnlockStep(s, p, memory);
    case Rel => UnlockStep(s, p, memory);
    case ExitWake => ExitWakes(s, p, memory);
    case ExitScan(k) => if ChildOf(s, k, p) { ExitPasses(s, p, memory); } else { ExitGoesOn(s, p, memory); }
    case ExitDie => SwitchStep(s, p, memory);
    case YieldSet => SwitchStep(s, p, memory);
    case SleepSet(_) => SwitchStep(s, p, memory);
    case WaitScan(_, _) => WaitScans(s, p, memory);
    case WaitCheck(_) => WaitChecks(s, p, memory);
    case WaitTidy => TidyStep(s, p, memory);
    case SleepTidy => TidyStep(s, p, memory);
    case WakeDo(_) => WakingStep(s, p, memory);
    case KillDo(_) => WakingStep(s, p, memory);
    case SleepPt(_) => LockForCall(s, p, memory);
    case WakePt(_) => LockForCall(s, p, memory);
    case KillPt(_) => LockForCall(s, p, memory);
    case ForkPt => LockStep(s, p, memory);
    case ForkPt2(_) => LockStep(s, p, memory);
    case ExitPt => LockStep(s, p, memory);
    case WaitPt => LockStep(s, p, memory);
    case YieldPt => LockStep(s, p, memory);
    case _ =>
  }

  lemma CpuAt(s: State, c: nat)
    requires Inv(s) && c < |s.cpus|
    ensures CpuOk(s, c)
    ensures forall q: nat :: Passed(s, c, q)
  {
  }

  lemma ScheduleKeeps(s: State, c: nat)
    requires Inv(s) && CpuEnabled(s, c)
    ensures Inv(Schedule(s, c))
  {
    hide Inv, Placed;
    CpuAt(s, c);
    var y, t := s.cpus[c], Schedule(s, c);
    if RunsAt(t.cpus[c].pc) == None {
      forall q: nat ensures Passed(t, c, q) {
        assert Passed(s, c, q);
      }
    }
    match y.pc
    case High(k) =>
      if k < |s.procs| && Ready(s.procs[k], 0) {
        ResumeStep(s, t, c, k, y.(pc := InHigh(k), highs := y.highs + 1));
      } else {
        ScanStep(s, t, c, t.cpus[c], s.pt);
      }
    case Low(k) =>
      if k < |s.procs| && Ready(s.procs[k], 1) {
        ResumeStep(s, t, c, k, y.(pc := InLow(k), highs := 0));
      } else {
        ScanStep(s, t, c, t.cpus[c], s.pt);
      }
    case Outside => ScanStep(s, t, c, t.cpus[c], t.pt);
    case Test => ScanStep(s, t, c, t.cpus[c], t.pt);
    case Done => ScanStep(s, t, c, t.cpus[c], t.pt);
    case _ =>
  }

  lemma TickKeeps(s: State, p: nat)
    requires Inv(s) && p < |s.procs| && s.procs[p].state == RUNNING && s.procs[p].pc == Run
    ensures Inv(With(s, p, Ticked(s.procs[p]).(pc := YieldPt)))
  {
    hide Inv, Fills;
    At(s, p);
    PlainStep(s, p, Ticked(s.procs[p]).(pc := YieldPt), s.pt);
  }

  lemma StepKeeps(s: State, t: State, l: Label)
    requires Inv(s) && Step(s, t, l)
    ensures Inv(t)
  {
    hide Inv;
    match l
    case Begins(p, pc) =>
      At(s, p);
      MoveStep(s, p, pc, s.pt);
    case Goes(p, memory) => DoKeeps(s, p, memory);
    case Ticks(p) => TickKeeps(s, p);
    case Schedules(c) => ScheduleKeeps(s, c);
  }

  // ---- runs ----

  /** Only init exists, and it has not run yet. */
  predicate Init(s: State) {
    && s.pt == Nobody && s.init < |s.procs| && s.nextpid == 2
    && (forall p :: 0 <= p < |s.procs| ==>
          var x := s.procs[p];
          && x.pc == Born && x.cpu == None && x.maker == None && x.parent == None && !x.killed
          && x.pid == (if p == s.init then 1 else 0)
          && x.state == (if p == s.init then RUNNABLE else UNUSED)
          && (p == s.init ==> x.priority == 0 && x.ticks == 0 && x.charged == 0))
    && (forall c :: 0 <= c < |s.cpus| ==> s.cpus[c] == Cpu(None, Outside, 0))
  }

  lemma InitInv(s: State)
    requires Init(s)
    ensures Inv(s)
  {
    forall p: nat | p < |s.procs| ensures Placed(s, p) {
    }
    forall c: nat | c < |s.cpus| ensures CpuOk(s, c) {
    }
  }

  ghost predicate StepAt(run: seq<State>, labels: seq<Label>, k: nat) {
    k + 1 < |run| && k < |labels| && Step(run[k], run[k + 1], labels[k])
  }

  ghost predicate IsRun(run: seq<State>, labels: seq<Label>) {
    && |run| == |labels| + 1
    && Init(run[0])
    && forall k: nat :: k < |labels| ==> StepAt(run, labels, k)
  }

  lemma {:induction false} RunInv(run: seq<State>, labels: seq<Label>, k: nat)
    requires IsRun(run, labels) && k < |run|
    ensures Inv(run[k])
  {
    if k == 0 {
      InitInv(run[0]);
    } else {
      RunInv(run, labels, k - 1);
      assert StepAt(run, labels, k - 1);
      StepKeeps(run[k - 1], run[k], labels[k - 1]);
    }
  }

  // ---- exit and wait ----

  /** A process asleep in wait has no zombie child, its own or one passed on to it. */
  lemma NoZombieIsMissed(run: seq<State>, labels: seq<Label>, k: nat, p: nat, q: nat)
    requires IsRun(run, labels) && k < |run| && p < |run[k].procs|
    requires SleepsOn(run[k].procs[p], Child(p)) && ChildOf(run[k], q, p)
    ensures run[k].procs[q].state != ZOMBIE
  {
    RunInv(run, labels, k);
    assert Placed(run[k], p) && Scanned(run[k], p, q);
  }

  /** Every zombie has a parent that is alive, and init is always alive: none is left unreaped for
    * want of a parent. */
  lemma ZombiesHaveParents(run: seq<State>, labels: seq<Label>, k: nat, q: nat)
    requires IsRun(run, labels) && k < |run| && q < |run[k].procs| && run[k].procs[q].state == ZOMBIE
    ensures q != run[k].init
    ensures run[k].procs[q].parent.Some? && run[k].procs[q].parent.value < |run[k].procs|
    ensures Alive(run[k].procs[run[k].procs[q].parent.value].state)
  {
    RunInv(run, labels, k);
    assert Parented(run[k], q);
  }

  /** A zombie stays as it is, with its pid, until its parent's wait finds it and frees the slot; so
    * it is reaped once, and by its parent. */
  lemma ZombieReapedByParent(run: seq<State>, labels: seq<Label>, k: nat, q: nat)
    requires IsRun(run, labels) && k + 1 < |run| && q < |run[k].procs| && run[k].procs[q].state == ZOMBIE
    ensures |run[k + 1].procs| == |run[k].procs|
    ensures var x, y, l := run[k].procs[q], run[k + 1].procs[q], labels[k];
      if y.state == ZOMBIE then y.pid == x.pid
      else
        && y.state == UNUSED && l.Goes? && x.parent == Some(l.p) && l.p < |run[k].procs|
        && run[k].procs[l.p].pc.WaitScan? && run[k].procs[l.p].pc.k == q
  {
    RunInv(run, labels, k);
    assert StepAt(run, labels, k);
    var s, t, l := run[k], run[k + 1], labels[k];
    assert Placed(s, q);
    match l
    case Goes(p, memory) => ZombieStep(s, p, memory, q);
    case _ =>
  }

  /** A pc whose step changes no slot but the process's own. */
  predicate OwnOnly(pc: Pc) {
    !(pc.ForkFind? || pc.ForkFill? || pc.ForkSet? || pc.ExitWake? || pc.ExitScan? || pc.WaitScan? || pc.WakeDo?
      || pc.KillDo?)
  }

  lemma OthersStay(s: State, p: nat, memory: bool, q: nat)
    requires Enabled(s, p) && q < |s.procs| && OwnOnly(s.procs[p].pc)
    ensures |Do(s, p, memory).procs| == |s.procs|
    ensures q != p ==> Do(s, p, memory).procs[q] == s.procs[q]
    ensures Do(s, p, memory).procs[p].priority == s.procs[p].priority
  {
  }

  lemma ZombieStep(s: State, p: nat, memory: bool, q: nat)
    requires Inv(s) && Enabled(s, p) && q < |s.procs| && s.procs[q].state == ZOMBIE
    ensures var x, t := s.procs[q], Do(s, p, memory);
      && |t.procs| == |s.procs|
      && if t.procs[q].state == ZOMBIE then t.procs[q].pid == x.pid
         else
           && t.procs[q].state == UNUSED && x.parent == Some(p) && s.procs[p].pc.WaitScan? && s.procs[p].pc.k == q
  {
    hide Inv, Charged;
    if OwnOnly(s.procs[p].pc) {
      hide Do;
      OthersStay(s, p, memory, q);
    } else {
      hide Do;
      match s.procs[p].pc
      case ExitScan(_) => ZombieScans(s, p, memory, q);
      case WaitScan(_, _) => ZombieScans(s, p, memory, q);
      case ExitWake => ZombieWakes(s, p, memory, q);
      case WakeDo(_) => ZombieWakes(s, p, memory, q);
      case KillDo(_) => ZombieWakes(s, p, memory, q);
      case _ => ZombieForks(s, p, memory, q);
    }
  }

  lemma ZombieForks(s: State, p: nat, memory: bool, q: nat)
    requires Inv(s) && Enabled(s, p) && q < |s.procs| && s.procs[q].state == ZOMBIE
    requires var pc := s.procs[p].pc; pc.ForkFind? || pc.ForkFill? || pc.ForkSet?
    ensures var x, t := s.procs[q], Do(s, p, memory);
      && |t.procs| == |s.procs|
      && if t.procs[q].state == ZOMBIE then t.procs[q].pid == x.pid
         else
           && t.procs[q].state == UNUSED && x.parent == Some(p) && s.procs[p].pc.WaitScan? && s.procs[p].pc.k == q
  {
    hide Inv, Charged, Killed;
    At(s, q);
    At(s, p);
  }

  lemma ZombieWakes(s: State, p: nat, memory: bool, q: nat)
    requires Inv(s) && Enabled(s, p) && q < |s.procs| && s.procs[q].state == ZOMBIE
    requires var pc := s.procs[p].pc; pc.ExitWake? || pc.WakeDo? || pc.KillDo?
    ensures var x, t := s.procs[q], Do(s, p, memory);
      && |t.procs| == |s.procs|
      && if t.procs[q].state == ZOMBIE then t.procs[q].pid == x.pid
         else
           && t.procs[q].state == UNUSED && x.parent == Some(p) && s.procs[p].pc.WaitScan? && s.procs[p].pc.k == q
  {
    hide Inv, Charged, Killed;
    At(s, q);
    if s.procs[p].pc.KillDo? { KilledZombie(s, s.procs[p].pc.pid, 0, q); }
  }

  lemma ZombieScans(s: State, p: nat, memory: bool, q: nat)
    requires Inv(s) && Enabled(s, p) && q < |s.procs| && s.procs[q].state == ZOMBIE
    requires var pc := s.procs[p].pc; pc.ExitScan? || pc.WaitScan?
    ensures var x, t := s.procs[q], Do(s, p, memory);
      && |t.procs| == |s.procs|
      && if t.procs[q].state == ZOMBIE then t.procs[q].pid == x.pid
         else
           && t.procs[q].state == UNUSED && x.parent == Some(p) && s.procs[p].pc.WaitScan? && s.procs[p].pc.k == q
  {
    hide Inv, Charged, Killed;
    At(s, q);
  }

  lemma {:induction false} KilledZombie(s: State, pid: nat, k: nat, q: nat)
    requires k <= |s.procs| && q < |s.procs| && s.procs[q].state == ZOMBIE
    ensures var t := Killed(s, pid, k);
      |t.procs| == |s.procs| && t.procs[q].state == ZOMBIE && t.procs[q].pid == s.procs[q].pid
    decreases |s.procs| - k
  {
    if k < |s.procs| && s.procs[k].pid != pid {
      KilledZombie(s, pid, k + 1, q);
    }
  }

  // ---- scheduling ----

  /** A process is RUNNING exactly when some CPU has it as its process, and then only one has. */
  lemma RunningOnOneCpu(run: seq<State>, labels: seq<Label>, k: nat, p: nat)
    requires IsRun(run, labels) && k < |run| && p < |run[k].procs|
    ensures var s := run[k];
      && (s.procs[p].state == RUNNING ==>
            s.procs[p].cpu.Some? && s.procs[p].cpu.value < |s.cpus| && s.cpus[s.procs[p].cpu.value].proc == Some(p))
      && (forall c :: 0 <= c < |s.cpus| && s.cpus[c].proc == Some(p) ==>
            s.procs[p].state == RUNNING && s.procs[p].cpu == Some(c))
  {
    RunInv(run, labels, k);
    var s := run[k];
    assert Placed(s, p);
    if s.procs[p].cpu.Some? { assert CpuOk(s, s.procs[p].cpu.value); }
    forall c | 0 <= c < |s.cpus| && s.cpus[c].proc == Some(p) ensures s.procs[p].cpu == Some(c) {
      assert CpuOk(s, c);
    }
  }

  /** The test of c->proc after the search of level 0 always succeeds, dispatch or not: a pass runs
    * at most one process of level 0 and then at most one of level 1. */
  lemma TestAlwaysSucceeds(run: seq<State>, labels: seq<Label>, k: nat, c: nat)
    requires IsRun(run, labels) && k + 1 < |run| && c < |run[k].cpus| && run[k].cpus[c].pc.Test?
    requires labels[k] == Schedules(c)
    ensures c < |run[k + 1].cpus| && run[k + 1].cpus[c].pc == Low(0)
  {
    RunInv(run, labels, k);
    assert StepAt(run, labels, k) && CpuOk(run[k], c);
  }

  /** Each dispatch takes the lowest-numbered RUNNABLE process of its level; and while level 1 has a
    * RUNNABLE process at each of its turns, at most one level-0 dispatch lies between two of level 1. */
  lemma DispatchOrder(run: seq<State>, labels: seq<Label>, k: nat, c: nat, p: nat)
    requires IsRun(run, labels) && k + 1 < |run| && labels[k] == Schedules(c)
    requires c < |run[k].cpus| && c < |run[k + 1].cpus|
    requires run[k].cpus[c].proc == None && run[k + 1].cpus[c].proc == Some(p)
    ensures var s := run[k];
      var level := if run[k + 1].cpus[c].pc.InHigh? then 0 else 1;
      && p < |s.procs| && Ready(s.procs[p], level)
      && (forall q: nat :: q < p ==> !Ready(s.procs[q], level))
      && (level == 0 ==> s.cpus[c].highs == 0)
  {
    RunInv(run, labels, k);
    assert StepAt(run, labels, k) && CpuOk(run[k], c);
    var level := if run[k + 1].cpus[c].pc.InHigh? then 0 else 1;
    forall q: nat | q < p ensures !Ready(run[k].procs[q], level) {
      assert Passed(run[k], c, q);
    }
  }

  /** The level-0 dispatch of the pass that CPU c is in. */
  lemma {:induction false} RanHigh(run: seq<State>, labels: seq<Label>, k: nat, c: nat) returns (j: nat)
    requires IsRun(run, labels) && k < |run| && c < |run[k].cpus| && run[k].cpus[c].highs == 1
    ensures j < k && labels[j] == Schedules(c) && c < |run[j + 1].cpus| && run[j + 1].cpus[c].pc.InHigh?
    ensures forall i :: j < i <= k ==> c < |run[i].cpus| && !run[i].cpus[c].pc.Outside?
  {
    hide Inv, Step, Schedule;
    j := 0;
    if k > 0 {
      assert StepAt(run, labels, k - 1);
      CpusStep(run[k - 1], run[k], labels[k - 1], c);
      RunInv(run, labels, k - 1);
      CpuAt(run[k - 1], c);
      RunInv(run, labels, k);
      CpuAt(run[k], c);
      if run[k - 1].cpus[c].highs == 1 {
        j := RanHigh(run, labels, k - 1, c);
      } else {
        j := k - 1;
      }
    }
  }

  /** Only its own scheduler, and the process it runs, move a CPU. */
  lemma CpusStep(s: State, t: State, l: Label, c: nat)
    requires Step(s, t, l)
    ensures |t.cpus| == |s.cpus|
    ensures c < |s.cpus| && l != Schedules(c) ==> t.cpus[c].highs == s.cpus[c].highs
    ensures c < |s.cpus| && l == Schedules(c) && t.cpus[c].highs > s.cpus[c].highs ==> t.cpus[c].pc.InHigh?
  {
    hide Do;
    if l.Goes? { DoCpus(s, l.p, l.memory, c); }
  }

  lemma DoCpus(s: State, p: nat, memory: bool, c: nat)
    requires Enabled(s, p)
    ensures var t := Do(s, p, memory); |t.cpus| == |s.cpus| && (c < |s.cpus| ==> t.cpus[c].highs == s.cpus[c].highs)
  {
    hide Killed;
    if s.procs[p].pc.KillDo? { KilledCpus(s, s.procs[p].pc.pid, 0); }
  }

  lemma {:induction false} KilledCpus(s: State, pid: nat, k: nat)
    requires k <= |s.procs|
    ensures Killed(s, pid, k).cpus == s.cpus
    decreases |s.procs| - k
  {
    if k < |s.procs| && s.procs[k].pid != pid {
      KilledCpus(s, pid, k + 1);
    }
  }

  /** When level 0 waits for level 1: a dispatch of level 1 passes over a RUNNABLE process of level 0
    * only in a pass that has run a process of level 0 before, perhaps the same one, since when the
    * scheduler has not looked at level 0 again.  A pass that found none there keeps strict priority. */
  lemma OvertakingPass(run: seq<State>, labels: seq<Label>, k: nat, c: nat, q: nat) returns (j: nat)
    requires IsRun(run, labels) && k + 1 < |run| && labels[k] == Schedules(c) && q < |run[k].procs|
    requires c < |run[k].cpus| && c < |run[k + 1].cpus|
    requires run[k].cpus[c].pc.Low? && run[k + 1].cpus[c].pc.InLow? && Ready(run[k].procs[q], 0)
    ensures j < k && labels[j] == Schedules(c) && c < |run[j + 1].cpus| && run[j + 1].cpus[c].pc.InHigh?
    ensures forall i :: j < i <= k ==> c < |run[i].cpus| && !run[i].cpus[c].pc.Outside?
  {
    RunInv(run, labels, k);
    assert CpuOk(run[k], c) && Passed(run[k], c, q);
    j := RanHigh(run, labels, k, c);
  }

  /** A pid is charged at most five ticks at level 0. */
  lemma FiveTicks(run: seq<State>, labels: seq<Label>, k: nat, p: nat)
    requires IsRun(run, labels) && k < |run| && p < |run[k].procs| && run[k].procs[p].state != UNUSED
    ensures run[k].procs[p].charged <= QUANTUM
    ensures run[k].procs[p].priority == 0 ==> run[k].procs[p].charged < QUANTUM
    ensures run[k].procs[p].priority == 0 || run[k].procs[p].priority == 1
  {
    RunInv(run, labels, k);
    assert Placed(run[k], p);
  }

  /** Level 1 is for life: only a slot given to a new process is at level 0 again. */
  lemma NeverPromoted(run: seq<State>, labels: seq<Label>, k: nat, p: nat)
    requires IsRun(run, labels) && k + 1 < |run| && p < |run[k].procs| && run[k].procs[p].priority == 1
    ensures p < |run[k + 1].procs|
    ensures run[k + 1].procs[p].priority == 1
            || (run[k].procs[p].state == UNUSED && run[k + 1].procs[p].state == EMBRYO
              && run[k + 1].procs[p].charged == 0)
  {
    assert StepAt(run, labels, k);
    var s, l := run[k], labels[k];
    match l
    case Goes(q, memory) => PriorityStep(s, q, memory, p);
    case _ =>
  }

  lemma PriorityStep(s: State, p: nat, memory: bool, q: nat)
    requires Enabled(s, p) && q < |s.procs| && s.procs[q].priority == 1
    ensures var t := Do(s, p, memory);
      && |t.procs| == |s.procs|
      && (t.procs[q].priority == 1
          || (s.procs[q].state == UNUSED && t.procs[q].state == EMBRYO && t.procs[q].charged == 0))
  {
    hide Do;
    if OwnOnly(s.procs[p].pc) {
      OthersStay(s, p, memory, q);
    } else if s.procs[p].pc.ForkFind? {
      PriorityFork(s, p, memory, q);
    } else if s.procs[p].pc.WakeDo? || s.procs[p].pc.KillDo? {
      PriorityWakes(s, p, memory, q);
    } else {
      PriorityRest(s, p, memory, q);
    }
  }

  lemma PriorityFork(s: State, p: nat, memory: bool, q: nat)
    requires Enabled(s, p) && q < |s.procs| && s.procs[q].priority == 1 && s.procs[p].pc.ForkFind?
    ensures var t := Do(s, p, memory);
      && |t.procs| == |s.procs|
      && (t.procs[q].priority == 1
          || (s.procs[q].state == UNUSED && t.procs[q].state == EMBRYO && t.procs[q].charged == 0))
  {
  }

  lemma PriorityWakes(s: State, p: nat, memory: bool, q: nat)
    requires Enabled(s, p) && q < |s.procs| && (s.procs[p].pc.WakeDo? || s.procs[p].pc.KillDo?)
    ensures var t := Do(s, p, memory); |t.procs| == |s.procs| && t.procs[q].priority == s.procs[q].priority
  {
    hide Do, Killed;
    if s.procs[p].pc.KillDo? {
      KillIs(s, p, memory);
      KilledPriority(s, s.procs[p].pc.pid, 0, q);
    } else {
      WakeIs(s, p, memory);
    }
  }

  lemma PriorityRest(s: State, p: nat, memory: bool, q: nat)
    requires Enabled(s, p) && q < |s.procs|
    requires var pc := s.procs[p].pc; pc.ForkFill? || pc.ForkSet? || pc.ExitWake? || pc.ExitScan? || pc.WaitScan?
    ensures var t := Do(s, p, memory); |t.procs| == |s.procs| && t.procs[q].priority == s.procs[q].priority
  {
    hide Killed;
  }

  lemma {:induction false} KilledPriority(s: State, pid: nat, k: nat, q: nat)
    requires k <= |s.procs| && q < |s.procs|
    ensures var t := Killed(s, pid, k); |t.procs| == |s.procs| && t.procs[q].priority == s.procs[q].priority
    decreases |s.procs| - k
  {
    if k < |s.procs| && s.procs[k].pid != pid {
      KilledPriority(s, pid, k + 1, q);
    }
  }
}
