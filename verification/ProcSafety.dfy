/** What holds of the process table in every state of every run. */
module ProcSafety {
  import opened Procs

  // ---- the invariant ----

  predicate CpuHolds(pc: SchedPc) {
    pc.High? || pc.Test? || pc.Low? || pc.Done?
  }

  function RunsAt(pc: SchedPc): Option<nat> {
    match pc
    case InHigh(p) => Some(p)
    case InLow(p) => Some(p)
    case _ => None
  }

  /** State and program counter of one slot agree. */
  predicate Shape(x: Proc, p: nat) {
    && (x.state == RUNNING <==> x.cpu.Some?)
    && (x.state == RUNNING ==> !Away(x.pc) && x.pc != Dead)
    && (x.state == RUNNABLE ==> Away(x.pc))
    && (x.state == SLEEPING ==> x.pc.WaitOut? || x.pc.SleepOut?)
    && (x.state == ZOMBIE ==> x.pc == Dead)
    && (x.state == UNUSED || x.state == EMBRYO ==> x.pc == Born)
    && (x.pc.WaitOut? ==> x.chan == Some(Child(p)))
    && (x.pc.SleepOut? ==> x.pc.ch.Other? && x.chan == Some(x.pc.ch))
    && (x.pc.SleepPt? || x.pc.SleepSet? ==> x.pc.ch.Other?)
    && (x.pc.WakePt? || x.pc.WakeDo? ==> x.pc.ch.Other?)
    && (x.state == EMBRYO <==> x.maker.Some?)
    && (x.state == UNUSED ==> x.parent == None)
    && (x.state == EMBRYO ==> x.parent == None || x.parent == x.maker)
  }

  /** At most five ticks at level 0, and never back. */
  predicate Charged(x: Proc) {
    x.state != UNUSED ==>
      if x.priority == 0 then x.charged == x.ticks < QUANTUM else x.priority == 1 && x.charged == QUANTUM
  }

  /** Who runs where, and who has the lock. */
  predicate Placed(s: State, p: nat) {
    && p < |s.procs|
    && var x := s.procs[p];
    && Shape(x, p) && Charged(x)
    && (HoldsPt(x.pc) <==> s.pt == ByProc(p))
    && (x.cpu.Some? ==> x.cpu.value < |s.cpus| && RunsAt(s.cpus[x.cpu.value].pc) == Some(p))
    && (Target(x.pc).Some? ==> Fills(s, p, Target(x.pc).value))
    && (x.maker.Some? ==> x.maker.value < |s.procs| && Target(s.procs[x.maker.value].pc) == Some(p))
  }

  /** The fork of p is filling slot np, which nobody else is. */
  predicate Fills(s: State, p: nat, np: nat) {
    && p < |s.procs| && np < |s.procs|
    && s.procs[np].maker == Some(p)
    && (s.procs[p].pc.ForkRel? || s.procs[p].pc.ForkFill? ==> s.procs[np].parent == None)
    && (s.procs[p].pc.ForkPt2? || s.procs[p].pc.ForkSet? ==> s.procs[np].parent == Some(p))
  }

  predicate CpuOk(s: State, c: nat) {
    && c < |s.cpus|
    && var y := s.cpus[c];
    && (CpuHolds(y.pc) <==> s.pt == ByCpu(c))
    && y.proc == RunsAt(y.pc)
    && (y.proc.Some? ==> y.proc.value < |s.procs| && s.procs[y.proc.value].cpu == Some(c))
    && (y.pc.Outside? || y.pc.High? || y.pc.Done? || y.pc.InLow? ==> y.highs == 0)
    && (y.pc.InHigh? ==> y.highs == 1)
    && y.highs <= 1
  }

  /** Every process but init has a parent that lives, and so can wait for it. */
  predicate Parented(s: State, q: nat) {
    q < |s.procs| && s.procs[q].state != UNUSED && s.procs[q].state != EMBRYO ==>
      if q == s.init then s.procs[q].parent == None && Alive(s.procs[q].state)
      else
        && s.procs[q].parent.Some? && s.procs[q].parent.value != q
        && s.procs[q].parent.value < |s.procs|
        && Alive(s.procs[s.procs[q].parent.value].state)
  }

  predicate ChildOf(s: State, q: nat, p: nat) {
    q < |s.procs| && s.procs[q].parent == Some(p)
  }

  /** What exit and wait have established about slot q so far. */
  predicate Scanned(s: State, p: nat, q: nat) {
    p < |s.procs| && q < |s.procs| ==>
      match s.procs[p].pc
      case ExitScan(k) => q < k ==> !ChildOf(s, q, p)
      case ExitDie => !ChildOf(s, q, p)
      case WaitScan(k, _) => q < k && ChildOf(s, q, p) ==> s.procs[q].state != ZOMBIE
      case WaitCheck(_) => ChildOf(s, q, p) ==> s.procs[q].state != ZOMBIE
      case WaitOut => s.procs[p].state == SLEEPING && ChildOf(s, q, p) ==> s.procs[q].state != ZOMBIE
      case _ => true
  }

  /** A process that is about to become a zombie has woken its parent. */
  predicate Announced(s: State, p: nat) {
    p < |s.procs| && (s.procs[p].pc.ExitScan? || s.procs[p].pc == ExitDie) ==>
      && p != s.init
      && (s.procs[p].parent.Some? && s.procs[p].parent.value < |s.procs| ==>
            !SleepsOn(s.procs[s.procs[p].parent.value], Child(s.procs[p].parent.value)))
  }

  /** No slot before the scan has a process of the level the scheduler looks for; and a pass that has
    * run no process of level 0 goes on to level 1 only if there is none. */
  predicate Passed(s: State, c: nat, q: nat) {
    c < |s.cpus| && q < |s.procs| ==>
      match s.cpus[c].pc
      case High(k) => q < k ==> !Ready(s.procs[q], 0)
      case Test => s.cpus[c].highs == 0 ==> !Ready(s.procs[q], 0)
      case Low(k) =>
        && (q < k ==> !Ready(s.procs[q], 1))
        && (s.cpus[c].highs == 0 ==> !Ready(s.procs[q], 0))
      case _ => true
  }

  ghost predicate Inv(s: State) {
    && s.init < |s.procs| && Alive(s.procs[s.init].state)
    && !(s.procs[s.init].pc.ExitPt? || s.procs[s.init].pc.ExitWake?)
    && (s.pt.ByProc? ==> s.pt.p < |s.procs|) && (s.pt.ByCpu? ==> s.pt.c < |s.cpus|)
    && AllPlaced(s) && AllCpus(s) && AllParented(s) && AllScanned(s) && AllAnnounced(s) && AllPassed(s)
  }

  ghost predicate AllPlaced(s: State) {
    forall p: nat :: p < |s.procs| ==> Placed(s, p)
  }

  ghost predicate AllCpus(s: State) {
    forall c: nat :: c < |s.cpus| ==> CpuOk(s, c)
  }

  ghost predicate AllParented(s: State) {
    forall q: nat :: Parented(s, q)
  }

  ghost predicate AllScanned(s: State) {
    forall p: nat, q: nat :: Scanned(s, p, q)
  }

  ghost predicate AllAnnounced(s: State) {
    forall p: nat :: Announced(s, p)
  }

  ghost predicate AllPassed(s: State) {
    forall c: nat, q: nat :: Passed(s, c, q)
  }

  // ---- steps of one process alone ----

  /** Slot x keeps its place in what other processes say about it. */
  predicate KeepsPlace(s: State, t: State, x: nat, p: nat, k: nat)
    requires x < |s.procs| == |t.procs|
  {
    && (s.procs[x].maker.Some? && s.procs[x].maker.value != p && s.procs[x].maker.value != k ==>
          t.procs[x].maker == s.procs[x].maker && t.procs[x].parent == s.procs[x].parent)
    && (Target(s.procs[x].pc).Some? && Target(s.procs[x].pc).value != p && Target(s.procs[x].pc).value != k ==>
          Target(t.procs[x].pc) == Target(s.procs[x].pc))
  }

  lemma PlacedKept(s: State, t: State, p: nat, k: nat)
    requires AllPlaced(s) && t.cpus == s.cpus && |t.procs| == |s.procs| && p < |s.procs| && k < |s.procs|
    requires forall q: nat :: q < |s.procs| && q != p && q != k ==> t.procs[q] == s.procs[q]
    requires t.pt == s.pt || (s.pt in {Nobody, ByProc(p)} && t.pt in {Nobody, ByProc(p)})
    requires Placed(t, p) && Placed(t, k) && KeepsPlace(s, t, p, p, k) && KeepsPlace(s, t, k, p, k)
    ensures AllPlaced(t)
  {
    hide Shape, Charged;
    forall q: nat | q < |t.procs| ensures Placed(t, q) {
      assert Placed(s, q);
      if q != p && q != k && Target(t.procs[q].pc).Some? { assert Placed(s, Target(t.procs[q].pc).value); }
    }
  }

  ghost predicate SameCpus(s: State, t: State) {
    && t.cpus == s.cpus && |t.procs| == |s.procs|
    && (forall q: nat :: q < |s.procs| ==> t.procs[q].cpu == s.procs[q].cpu)
    && (t.pt == s.pt || !(t.pt.ByCpu? || s.pt.ByCpu?))
    && (s.pt.ByProc? || forall q: nat :: q < |s.procs| && t.procs[q].state == RUNNABLE ==>
                          s.procs[q].state == RUNNABLE && t.procs[q].priority == s.procs[q].priority)
  }

  /** What the schedulers know survives a step of a process. */
  lemma SchedulersKeep(s: State, t: State)
    requires AllCpus(s) && AllPassed(s) && SameCpus(s, t)
    ensures AllCpus(t) && AllPassed(t)
  {
    forall c: nat | c < |t.cpus| ensures CpuOk(t, c) {
      assert CpuOk(s, c);
    }
    forall c: nat, q: nat ensures Passed(t, c, q) {
      assert Passed(s, c, q);
      if c < |s.cpus| { assert CpuOk(s, c); }
    }
  }


  /** x differs from slot p only in what the process itself keeps: its pc, chan and ticks. */
  predicate SameSlot(s: State, p: nat, x: Proc) {
    && p < |s.procs|
    && x.state == s.procs[p].state && x.parent == s.procs[p].parent && x.cpu == s.procs[p].cpu
    && x.maker == s.procs[p].maker
  }

  lemma OwnPlaced(s: State, p: nat, x: Proc, pt: Holder)
    requires AllPlaced(s) && SameSlot(s, p, x) && s.procs[p].state == RUNNING
    requires pt == s.pt || (s.pt in {Nobody, ByProc(p)} && pt in {Nobody, ByProc(p)})
    requires Shape(x, p) && Charged(x) && (HoldsPt(x.pc) <==> pt == ByProc(p))
    requires Target(x.pc) == Target(s.procs[p].pc)
    requires Target(x.pc).Some? ==>
      (x.pc.ForkRel? || x.pc.ForkFill? <==> s.procs[p].pc.ForkRel? || s.procs[p].pc.ForkFill?)
    ensures AllPlaced(s.(procs := s.procs[p := x], pt := pt))
  {
    var t := s.(procs := s.procs[p := x], pt := pt);
    assert Placed(s, p);
    forall q: nat | q < |t.procs| ensures Placed(t, q) {
      assert Placed(s, q);
      if Target(t.procs[q].pc).Some? { assert Placed(s, Target(t.procs[q].pc).value); }
    }
  }

  lemma OwnStep(s: State, p: nat, x: Proc, pt: Holder)
    requires Inv(s) && SameSlot(s, p, x) && s.procs[p].state == RUNNING
    requires pt == s.pt || (s.pt in {Nobody, ByProc(p)} && pt in {Nobody, ByProc(p)})
    requires Shape(x, p) && Charged(x) && (HoldsPt(x.pc) <==> pt == ByProc(p))
    requires p == s.init ==> !(x.pc.ExitPt? || x.pc.ExitWake?)
    requires Target(x.pc) == Target(s.procs[p].pc)
    requires Target(x.pc).Some? ==>
      (x.pc.ForkRel? || x.pc.ForkFill? <==> s.procs[p].pc.ForkRel? || s.procs[p].pc.ForkFill?)
    requires var t := s.(procs := s.procs[p := x], pt := pt);
      Announced(t, p) && forall q: nat :: Scanned(t, p, q)
    ensures Inv(s.(procs := s.procs[p := x], pt := pt))
  {
    hide Shape, Charged, Fills, AllPlaced, Placed;
    var t := s.(procs := s.procs[p := x], pt := pt);
    OwnPlaced(s, p, x, pt);
    SchedulersKeep(s, t);
    assert AllParented(t) by {
      forall q: nat ensures Parented(t, q) {
        assert Parented(s, q);
      }
    }
    assert AllScanned(t) by {
      forall r: nat, q: nat ensures Scanned(t, r, q) {
        assert Scanned(s, r, q);
      }
    }
    assert AllAnnounced(t) by {
      forall r: nat ensures Announced(t, r) {
        assert Announced(s, r);
      }
    }
  }

  // ---- steps that touch another slot ----

  /** The fork of p changes the slot it fills to y, and moves on to x. */
  ghost predicate Forking(s: State, t: State, p: nat, np: nat, y: Proc, x: Proc) {
    && p < |s.procs| && np < |s.procs| && np != p && s.procs[p].state == RUNNING && x.state == RUNNING
    && SameSlot(s, p, x) && Shape(x, p) && Charged(x) && (HoldsPt(x.pc) <==> s.pt == ByProc(p))
    && (s.procs[np].state == UNUSED || (s.procs[np].state == EMBRYO && Target(s.procs[p].pc) == Some(np)))
    && (s.procs[np].state == UNUSED ==> Target(s.procs[p].pc) == None)
    && (Target(x.pc).Some? <==> y.state == EMBRYO)
    && (y.state == EMBRYO ==> Target(x.pc) == Some(np) && y.maker == Some(p))
    && (x.pc.ForkRel? || x.pc.ForkFill? ==> y.parent == None)
    && (x.pc.ForkPt2? || x.pc.ForkSet? ==> y.parent == Some(p))
    && (y.state == UNUSED || y.state == EMBRYO || (y.state == RUNNABLE && y.parent == Some(p) && s.pt == ByProc(p)))
    && Shape(y, np) && Charged(y) && y.pc == Born && y.cpu == s.procs[np].cpu
    && (x.pc.Rel? || x.pc.Run? || x.pc.ForkRel? || x.pc.ForkPt2?)
    && t == s.(procs := s.procs[np := y][p := x], nextpid := t.nextpid)
  }

  lemma ForkPlaced(s: State, t: State, p: nat, np: nat, y: Proc, x: Proc)
    requires AllPlaced(s) && Forking(s, t, p, np, y, x)
    ensures AllPlaced(t)
  {
    assert Placed(s, p) && Placed(s, np);
    assert Placed(t, p) && Placed(t, np);
    PlacedKept(s, t, p, np);
  }

  lemma ForkFamily(s: State, t: State, p: nat, np: nat, y: Proc, x: Proc)
    requires AllParented(s) && AllAnnounced(s) && Forking(s, t, p, np, y, x) && s.init < |s.procs|
    requires Alive(s.procs[s.init].state)
    ensures AllParented(t) && AllAnnounced(t)
  {
    hide Charged, HoldsPt, Fills;
    ForkAnnounced(s, t, p, np, y, x);
    forall q: nat ensures Parented(t, q) {
      assert Parented(s, q);
    }
  }

  lemma ForkAnnounced(s: State, t: State, p: nat, np: nat, y: Proc, x: Proc)
    requires AllAnnounced(s) && Forking(s, t, p, np, y, x)
    ensures AllAnnounced(t)
  {
    hide Charged, HoldsPt, Fills;
    forall r: nat ensures Announced(t, r) {
      assert Announced(s, r);
    }
  }

  lemma ForkScanned(s: State, t: State, p: nat, np: nat, y: Proc, x: Proc)
    requires AllScanned(s) && AllPlaced(s) && Forking(s, t, p, np, y, x)
    ensures AllScanned(t)
  {
    forall r: nat, q: nat ensures Scanned(t, r, q) {
      assert Scanned(s, r, q);
    }
  }

  lemma ForkStep(s: State, t: State, p: nat, np: nat, y: Proc, x: Proc)
    requires Inv(s) && Forking(s, t, p, np, y, x)
    ensures Inv(t)
  {
    hide AllPlaced, AllCpus, AllPassed, AllParented, AllScanned, AllAnnounced, Shape, Charged, HoldsPt;
    ForkPlaced(s, t, p, np, y, x);
    SchedulersKeep(s, t);
    ForkFamily(s, t, p, np, y, x);
    ForkScanned(s, t, p, np, y, x);
  }

  lemma WakeupPlaced(s: State, ch: Chan)
    requires AllPlaced(s)
    ensures AllPlaced(Wakeup1(s, ch))
  {
    var t := Wakeup1(s, ch);
    forall q: nat | q < |t.procs| ensures Placed(t, q) {
      assert Placed(s, q);
      if Target(t.procs[q].pc).Some? { assert Placed(s, Target(t.procs[q].pc).value); }
    }
  }

  /** Sleepers on ch become RUNNABLE while some process has the lock. */
  lemma WakeupKeeps(s: State, ch: Chan, p: nat)
    requires Inv(s) && s.pt == ByProc(p) && p < |s.procs|
    ensures Inv(Wakeup1(s, ch))
  {
    hide Shape, Charged, Fills, AllPlaced, Placed;
    var t := Wakeup1(s, ch);
    WakeupPlaced(s, ch);
    SchedulersKeep(s, t);
    assert AllParented(t) by {
      forall q: nat ensures Parented(t, q) {
        assert Parented(s, q);
      }
    }
    assert AllScanned(t) by {
      forall r: nat, q: nat ensures Scanned(t, r, q) {
        assert Scanned(s, r, q);
      }
    }
    assert AllAnnounced(t) by {
      forall r: nat ensures Announced(t, r) {
        assert Announced(s, r);
      }
    }
  }

  /** An exiting process passes child k on to init, which does not miss it. */
  ghost predicate Passing(s: State, t: State, p: nat, k: nat) {
    && p < |s.procs| && s.pt == ByProc(p) && s.procs[p].pc == ExitScan(k) && s.procs[p].state == RUNNING
    && ChildOf(s, k, p) && k != p && s.init < |s.procs| && Alive(s.procs[s.init].state) && s.init != p
    && s.procs[k].maker == None && k != s.init
    && (s.procs[k].state == ZOMBIE ==> !SleepsOn(s.procs[s.init], Child(s.init)))
    && t == WithPc(With(s, k, s.procs[k].(parent := Some(s.init))), p, ExitScan(k + 1))
  }

  lemma PassPlaced(s: State, t: State, p: nat, k: nat)
    requires AllPlaced(s) && Passing(s, t, p, k)
    ensures AllPlaced(t)
  {
    hide Shape, Charged, Fills, Placed;
    PasserPlaced(s, t, p, k);
    PassedPlaced(s, t, p, k);
    PlacedKept(s, t, p, k);
  }

  lemma PasserPlaced(s: State, t: State, p: nat, k: nat)
    requires AllPlaced(s) && Passing(s, t, p, k)
    ensures Placed(t, p) && KeepsPlace(s, t, p, p, k)
  {
    assert Placed(s, p) && Placed(s, k);
  }

  lemma PassedPlaced(s: State, t: State, p: nat, k: nat)
    requires AllPlaced(s) && Passing(s, t, p, k)
    ensures Placed(t, k) && KeepsPlace(s, t, k, p, k)
  {
    assert Placed(s, p) && Placed(s, k);
    if Target(t.procs[k].pc).Some? { assert Placed(s, Target(t.procs[k].pc).value); }
  }

  lemma PassFamily(s: State, t: State, p: nat, k: nat)
    requires AllPlaced(s) && AllParented(s) && AllAnnounced(s) && Passing(s, t, p, k)
    ensures AllParented(t) && AllAnnounced(t)
  {
    forall q: nat ensures Parented(t, q) {
      assert Parented(s, q);
    }
    forall r: nat ensures Announced(t, r) {
      assert Announced(s, r);
      if r < |s.procs| { assert Placed(s, r); }
    }
  }

  lemma PassScanned(s: State, t: State, p: nat, k: nat)
    requires AllScanned(s) && AllPlaced(s) && Passing(s, t, p, k)
    ensures AllScanned(t)
  {
    forall r: nat, q: nat ensures Scanned(t, r, q) {
      assert Scanned(s, r, q);
      if r < |s.procs| { assert Placed(s, r); }
    }
  }

  lemma PassedOn(s: State, t: State, p: nat, k: nat)
    requires Inv(s) && Passing(s, t, p, k)
    ensures Inv(t)
  {
    hide AllPlaced, AllCpus, AllPassed, AllParented, AllScanned, AllAnnounced;
    PassPlaced(s, t, p, k);
    SchedulersKeep(s, t);
    PassFamily(s, t, p, k);
    PassScanned(s, t, p, k);
  }

  /** wait reaps child k. */
  ghost predicate Reaping(s: State, t: State, p: nat, k: nat) {
    && p < |s.procs| && s.pt == ByProc(p) && s.procs[p].pc.WaitScan? && s.procs[p].state == RUNNING
    && ChildOf(s, k, p) && s.procs[k].state == ZOMBIE && k != s.init && s.init < |s.procs|
    && t == WithPc(With(s, k, Reaped(s.procs[k])), p, Rel)
  }

  lemma ReapPlaced(s: State, t: State, p: nat, k: nat)
    requires AllPlaced(s) && Reaping(s, t, p, k)
    ensures AllPlaced(t)
  {
    hide Shape, Charged, Fills, Placed;
    ReapedPlaced(s, t, p, k);
    ReaperPlaced(s, t, p, k);
    PlacedKept(s, t, p, k);
  }

  lemma ReapedPlaced(s: State, t: State, p: nat, k: nat)
    requires AllPlaced(s) && Reaping(s, t, p, k)
    ensures Placed(t, k) && KeepsPlace(s, t, k, p, k)
  {
    assert Placed(s, p) && Placed(s, k);
  }

  lemma ReaperPlaced(s: State, t: State, p: nat, k: nat)
    requires AllPlaced(s) && Reaping(s, t, p, k)
    ensures Placed(t, p) && KeepsPlace(s, t, p, p, k)
  {
    assert Placed(s, p) && Placed(s, k);
  }

  lemma ReapFamily(s: State, t: State, p: nat, k: nat)
    requires AllPlaced(s) && AllParented(s) && AllAnnounced(s) && Reaping(s, t, p, k)
    ensures AllParented(t) && AllAnnounced(t)
  {
    forall q: nat ensures Parented(t, q) {
      assert Parented(s, q);
    }
    forall r: nat ensures Announced(t, r) {
      assert Announced(s, r);
      if r < |s.procs| { assert Placed(s, r); }
    }
  }

  lemma ReapScanned(s: State, t: State, p: nat, k: nat)
    requires AllScanned(s) && AllPlaced(s) && Reaping(s, t, p, k)
    ensures AllScanned(t)
  {
    forall r: nat, q: nat ensures Scanned(t, r, q) {
      assert Scanned(s, r, q);
      if r < |s.procs| { assert Placed(s, r); }
    }
  }

  lemma ReapedChild(s: State, t: State, p: nat, k: nat)
    requires Inv(s) && Reaping(s, t, p, k)
    ensures Inv(t)
  {
    hide AllPlaced, AllCpus, AllPassed, AllParented, AllScanned, AllAnnounced;
    ReapPlaced(s, t, p, k);
    SchedulersKeep(s, t);
    ReapFamily(s, t, p, k);
    ReapScanned(s, t, p, k);
  }

  // ---- switching ----

  /** Process p switches away from CPU c as x. */
  ghost predicate Leaving(s: State, t: State, p: nat, x: Proc, c: nat) {
    && p < |s.procs| && c < |s.cpus| && s.procs[p].state == RUNNING && s.procs[p].cpu == Some(c) && s.pt == ByProc(p)
    && x.parent == s.procs[p].parent && x.maker == s.procs[p].maker && x.priority == s.procs[p].priority
    && x.ticks == s.procs[p].ticks && x.charged == s.procs[p].charged
    && Target(s.procs[p].pc) == None && Target(x.pc) == None && !HoldsPt(x.pc)
    && (x.state == ZOMBIE || x.state == RUNNABLE || x.state == SLEEPING) && Shape(x.(cpu := None), p)
    && (x.state == ZOMBIE ==> s.procs[p].pc == ExitDie)
    && (x.pc == WaitOut ==> s.procs[p].pc.WaitCheck?)
    && t == s.(procs := s.procs[p := x.(cpu := None)], pt := ByCpu(c),
               cpus := s.cpus[c := s.cpus[c].(proc := None, pc := if s.cpus[c].pc.InHigh? then Test else Done)])
  }

  lemma LeavePlaced(s: State, t: State, p: nat, x: Proc, c: nat)
    requires AllPlaced(s) && AllCpus(s) && Leaving(s, t, p, x, c)
    ensures AllPlaced(t)
  {
    assert Placed(s, p) && CpuOk(s, c);
    forall q: nat | q < |t.procs| ensures Placed(t, q) {
      assert Placed(s, q);
      if Target(s.procs[q].pc).Some? { assert Placed(s, Target(s.procs[q].pc).value); }
    }
  }

  lemma LeaveCpus(s: State, t: State, p: nat, x: Proc, c: nat)
    requires AllPlaced(s) && AllCpus(s) && AllPassed(s) && Leaving(s, t, p, x, c)
    ensures AllCpus(t) && AllPassed(t)
  {
    hide Shape, Charged, Fills;
    assert Placed(s, p);
    forall d: nat | d < |t.cpus| ensures CpuOk(t, d) {
      assert CpuOk(s, d);
    }
    forall d: nat, q: nat ensures Passed(t, d, q) {
      if d < |s.cpus| { assert CpuOk(s, d); }
    }
  }

  lemma LeaveFamily(s: State, t: State, p: nat, x: Proc, c: nat)
    requires AllPlaced(s) && AllParented(s) && AllAnnounced(s) && AllScanned(s) && Leaving(s, t, p, x, c)
    requires s.init < |s.procs|
    ensures AllParented(t) && AllAnnounced(t)
  {
    hide Charged, Fills;
    forall q: nat ensures Parented(t, q) {
      assert Parented(s, q) && Scanned(s, p, q) && Announced(s, p);
    }
    forall r: nat ensures Announced(t, r) {
      assert Announced(s, r);
      if r < |s.procs| { assert Placed(s, r); }
    }
  }

  lemma LeaveScanned(s: State, t: State, p: nat, x: Proc, c: nat)
    requires AllPlaced(s) && AllParented(s) && AllAnnounced(s) && AllScanned(s) && Leaving(s, t, p, x, c)
    ensures AllScanned(t)
  {
    hide Charged, Fills;
    assert Announced(s, p) && Parented(s, p);
    forall r: nat, q: nat ensures Scanned(t, r, q) {
      assert Scanned(s, r, q);
      if r < |s.procs| { assert Placed(s, r); }
      if q < |s.procs| { assert Placed(s, q); }
    }
  }

  lemma LeaveStep(s: State, t: State, p: nat, x: Proc, c: nat)
    requires Inv(s) && Leaving(s, t, p, x, c)
    ensures Inv(t)
  {
    assert Announced(s, p);
    assert Placed(s, s.init) && Placed(s, p);
    hide AllPlaced, AllCpus, AllPassed, AllParented, AllScanned, AllAnnounced;
    LeavePlaced(s, t, p, x, c);
    LeaveCpus(s, t, p, x, c);
    LeaveFamily(s, t, p, x, c);
    LeaveScanned(s, t, p, x, c);
  }

  /** CPU c resumes process p. */
  ghost predicate Resuming(s: State, t: State, c: nat, p: nat, y: Cpu) {
    && c < |s.cpus| && p < |s.procs| && s.procs[p].state == RUNNABLE && s.pt == ByCpu(c)
    && RunsAt(y.pc) == Some(p) && y.highs == (if y.pc.InHigh? then 1 else 0)
    && t == Dispatched(s, c, p, y)
  }

  lemma ResumePlaced(s: State, t: State, c: nat, p: nat, y: Cpu)
    requires AllPlaced(s) && AllCpus(s) && Resuming(s, t, c, p, y)
    ensures AllPlaced(t)
  {
    assert Placed(s, p) && CpuOk(s, c);
    forall q: nat | q < |t.procs| ensures Placed(t, q) {
      assert Placed(s, q);
      if Target(s.procs[q].pc).Some? { assert Placed(s, Target(s.procs[q].pc).value); }
    }
  }

  lemma ResumeCpus(s: State, t: State, c: nat, p: nat, y: Cpu)
    requires AllPlaced(s) && AllCpus(s) && AllPassed(s) && Resuming(s, t, c, p, y)
    ensures AllCpus(t) && AllPassed(t)
  {
    hide Charged, Fills;
    assert Placed(s, p);
    forall d: nat | d < |t.cpus| ensures CpuOk(t, d) {
      assert CpuOk(s, d);
    }
    forall d: nat, q: nat ensures Passed(t, d, q) {
      if d < |s.cpus| { assert CpuOk(s, d); }
    }
  }

  lemma ResumeFamily(s: State, t: State, c: nat, p: nat, y: Cpu)
    requires AllPlaced(s) && AllParented(s) && AllAnnounced(s) && AllScanned(s) && Resuming(s, t, c, p, y)
    ensures AllParented(t) && AllAnnounced(t) && AllScanned(t)
  {
    hide Charged, Fills;
    assert Placed(s, p);
    forall q: nat ensures Parented(t, q) {
      assert Parented(s, q);
    }
    forall r: nat ensures Announced(t, r) {
      assert Announced(s, r);
    }
    forall r: nat, q: nat ensures Scanned(t, r, q) {
      assert Scanned(s, r, q);
    }
  }

  lemma ResumeStep(s: State, t: State, c: nat, p: nat, y: Cpu)
    requires Inv(s) && Resuming(s, t, c, p, y)
    ensures Inv(t)
  {
    assert Placed(s, p);
    hide AllPlaced, AllCpus, AllPassed, AllParented, AllScanned, AllAnnounced;
    ResumePlaced(s, t, c, p, y);
    ResumeCpus(s, t, c, p, y);
    ResumeFamily(s, t, c, p, y);
  }

  /** A scheduler's own step. */
  lemma ScanStep(s: State, t: State, c: nat, y: Cpu, pt: Holder)
    requires Inv(s) && c < |s.cpus| && t == s.(cpus := s.cpus[c := y], pt := pt)
    requires RunsAt(s.cpus[c].pc) == None && RunsAt(y.pc) == None && y.proc == s.cpus[c].proc
    requires pt == s.pt || (s.pt in {Nobody, ByCpu(c)} && pt in {Nobody, ByCpu(c)})
    requires (CpuHolds(y.pc) <==> pt == ByCpu(c)) && y.highs <= 1
    requires y.pc.Outside? || y.pc.High? || y.pc.Done? ==> y.highs == 0
    requires forall q: nat :: Passed(t, c, q)
    ensures Inv(t)
  {
    assert CpuOk(s, c);
    forall q: nat | q < |t.procs| ensures Placed(t, q) {
      assert Placed(s, q);
      if Target(s.procs[q].pc).Some? { assert Placed(s, Target(s.procs[q].pc).value); }
    }
    forall d: nat | d < |t.cpus| ensures CpuOk(t, d) {
      assert CpuOk(s, d);
    }
    forall d: nat, q: nat ensures Passed(t, d, q) {
      assert Passed(s, d, q);
    }
    forall q: nat ensures Parented(t, q) {
      assert Parented(s, q);
    }
    forall r: nat ensures Announced(t, r) {
      assert Announced(s, r);
    }
    forall r: nat, q: nat ensures Scanned(t, r, q) {
      assert Scanned(s, r, q);
    }
  }

  /** kill marks slot k. */
  lemma KillStep(s: State, p: nat, k: nat)
    requires Inv(s) && p < |s.procs| && k < |s.procs| && s.pt == ByProc(p)
    ensures var x := s.procs[k];
      Inv(s.(procs := s.procs[k := x.(killed := true, state := if x.state == SLEEPING then RUNNABLE else x.state)]))
  {
    var x := s.procs[k];
    var t := s.(procs := s.procs[k := x.(killed := true, state := if x.state == SLEEPING then RUNNABLE else x.state)]);
    assert AllPlaced(t) by {
      hide AllParented, AllScanned, AllAnnounced, AllPassed;
      forall q: nat | q < |t.procs| ensures Placed(t, q) {
        assert Placed(s, q);
        if Target(t.procs[q].pc).Some? { assert Placed(s, Target(t.procs[q].pc).value); }
      }
    }
    hide Shape, Charged, Fills;
    SchedulersKeep(s, t);
    forall q: nat ensures Parented(t, q) {
      assert Parented(s, q);
    }
    forall r: nat ensures Announced(t, r) {
      assert Announced(s, r);
    }
    forall r: nat, q: nat ensures Scanned(t, r, q) {
      assert Scanned(s, r, q);
    }
  }
}
