/** A run in which level 1 is dispatched before a RUNNABLE process of level 0. */
module ProcPriority {
  import opened Procs
  import opened ProcSafety
  import opened ProcRuns

  /** One CPU and n slots, of which only the first two are ever used. */
  function Table(n: nat, x: Proc, y: Proc): (r: seq<Proc>)
    requires n >= 2
    ensures |r| == n && r[0] == x && r[1] == y && forall q :: 2 <= q < n ==> r[q] == Vacant()
  {
    [x, y] + seq(n - 2, _ => Vacant())
  }

  function Vacant(): Proc {
    Proc(UNUSED, 0, None, None, false, 0, 0, Born, None, None, 0)
  }

  function Now(n: nat, x: Proc, y: Proc, cpu: Cpu, pt: Holder, next: nat): State
    requires n >= 2
  {
    State(Table(n, x, y), [cpu], pt, next, 0)
  }

  /** init, on the CPU, at level 0 after so many ticks. */
  function Running(pc: Pc, ticks: nat): Proc {
    Proc(RUNNING, 1, None, None, false, 0, ticks, pc, Some(0), None, ticks)
  }

  /** The child init has forked, in a slot whose killed flag is as given. */
  function Child(killed: bool): Proc {
    Proc(RUNNABLE, 2, Some(0), None, killed, 0, 0, Born, None, None, 0)
  }

  function Forked(): Proc {
    Child(false)
  }

  function Busy(): Cpu {
    Cpu(Some(0), InHigh(0), 1)
  }

  lemma First(n: nat, x: Proc, y: Proc, z: Proc)
    requires n >= 2
    ensures Table(n, x, y)[0 := z] == Table(n, z, y)
  {
  }

  lemma Second(n: nat, x: Proc, y: Proc, z: Proc)
    requires n >= 2
    ensures Table(n, x, y)[1 := z] == Table(n, x, z)
  {
  }

  // ---- runs, one step longer ----

  ghost predicate Ends(run: seq<State>, labels: seq<Label>, s: State) {
    |run| == |labels| + 1 && run[|labels|] == s && IsRun(run, labels)
  }

  lemma Then(run: seq<State>, labels: seq<Label>, s: State, t: State, l: Label)
    returns (r: seq<State>, ls: seq<Label>)
    requires Ends(run, labels, s) && Step(s, t, l)
    ensures Ends(r, ls, t) && r == run + [t] && ls == labels + [l] && r[0] == run[0]
  {
    hide Step, Init;
    r, ls := run + [t], labels + [l];
    forall k: nat | k < |ls| ensures StepAt(r, ls, k) {
      if k < |labels| { assert StepAt(run, labels, k); }
    }
  }

  // ---- single steps of init ----

  lemma Locks(n: nat, x: Proc, y: Proc, next: nat, pc: Pc)
    requires n >= 2 && x.state == RUNNING
    requires || (x.pc.ForkPt? && pc.ForkFind?)
             || (x.pc.ForkPt2? && pc == ForkSet(x.pc.np))
             || (x.pc.YieldPt? && pc.YieldSet?)
             || (x.pc.KillPt? && pc == KillDo(x.pc.pid))
    ensures Step(Now(n, x, y, Busy(), Nobody, next), Now(n, x.(pc := pc), y, Busy(), ByProc(0), next), Goes(0, true))
  {
    First(n, x, y, x.(pc := pc));
  }

  lemma Unlocks(n: nat, x: Proc, y: Proc, cpu: Cpu, next: nat, pc: Pc)
    requires n >= 2 && x.state == RUNNING
    requires (x.pc.Rel? && pc.Run?) || (x.pc.ForkRel? && pc == ForkFill(x.pc.np))
    ensures Step(Now(n, x, y, cpu, ByProc(0), next), Now(n, x.(pc := pc), y, cpu, Nobody, next), Goes(0, true))
  {
    First(n, x, y, x.(pc := pc));
  }

  lemma BeginsFork(n: nat, x: Proc, y: Proc, next: nat)
    requires n >= 2 && x.state == RUNNING && x.pc.Run?
    ensures Step(Now(n, x, y, Busy(), Nobody, next), Now(n, x.(pc := ForkPt), y, Busy(), Nobody, next),
                 Begins(0, ForkPt))
  {
    First(n, x, y, x.(pc := ForkPt));
  }

  lemma FindsSlot(n: nat, x: Proc, v: Proc)
    requires n >= 2 && x.state == RUNNING && x.pc.ForkFind? && v.state == UNUSED
    ensures Step(Now(n, x, v, Busy(), ByProc(0), 2),
                 Now(n, x.(pc := ForkRel(1)), Embryo(v, 2, 0), Busy(), ByProc(0), 3), Goes(0, true))
  {
    var s, y := Now(n, x, v, Busy(), ByProc(0), 2), Embryo(v, 2, 0);
    assert FirstUnused(s, 0) == FirstUnused(s, 1) == 1;
    Second(n, x, v, y);
    First(n, x, y, x.(pc := ForkRel(1)));
  }

  lemma FillsSlot(n: nat, x: Proc, y: Proc, next: nat)
    requires n >= 2 && x.state == RUNNING && x.pc == ForkFill(1)
    ensures Step(Now(n, x, y, Busy(), Nobody, next),
                 Now(n, x.(pc := ForkPt2(1)), y.(parent := Some(0)), Busy(), Nobody, next), Goes(0, true))
  {
    Second(n, x, y, y.(parent := Some(0)));
    First(n, x, y.(parent := Some(0)), x.(pc := ForkPt2(1)));
  }

  lemma SetsChild(n: nat, x: Proc, y: Proc, next: nat)
    requires n >= 2 && x.state == RUNNING && x.pc == ForkSet(1)
    ensures Step(Now(n, x, y, Busy(), ByProc(0), next),
                 Now(n, x.(pc := Rel), y.(state := RUNNABLE, maker := None), Busy(), ByProc(0), next), Goes(0, true))
  {
    Second(n, x, y, y.(state := RUNNABLE, maker := None));
    First(n, x, y.(state := RUNNABLE, maker := None), x.(pc := Rel));
  }

  lemma TicksOnce(n: nat, x: Proc, y: Proc, next: nat)
    requires n >= 2 && x.state == RUNNING && x.pc.Run?
    ensures Step(Now(n, x, y, Busy(), Nobody, next), Now(n, Ticked(x).(pc := YieldPt), y, Busy(), Nobody, next),
                 Ticks(0))
  {
    First(n, x, y, Ticked(x).(pc := YieldPt));
  }

  /** init as yield leaves it. */
  function Yielded(x: Proc): Proc {
    x.(state := RUNNABLE, pc := YieldOut, cpu := None)
  }

  lemma Yields(n: nat, x: Proc, y: Proc, next: nat)
    requires n >= 2 && x.state == RUNNING && x.pc.YieldSet? && x.cpu == Some(0)
    ensures Step(Now(n, x, y, Busy(), ByProc(0), next), Now(n, Yielded(x), y, Cpu(None, Test, 1), ByCpu(0), next),
                 Goes(0, true))
  {
    First(n, x, y, Yielded(x));
    assert [Busy()][0 := Cpu(None, Test, 1)] == [Cpu(None, Test, 1)];
  }

  // ---- single steps of the scheduler ----

  /** A step that only moves the scheduler on. */
  lemma Scans(n: nat, x: Proc, y: Proc, cpu: Cpu, cpu': Cpu, pt: Holder, pt': Holder, next: nat)
    requires n >= 2
    requires (cpu.pc.Outside? && pt == Nobody && cpu' == cpu.(pc := High(0)) && pt' == ByCpu(0))
          || (cpu.pc.Done? && cpu' == cpu.(pc := Outside) && pt' == Nobody)
          || (cpu.pc.Test? && cpu.proc == None && cpu' == cpu.(pc := Low(0)) && pt' == pt)
          || (cpu.pc.Low? && cpu.pc.k == n && cpu' == cpu.(pc := Done, highs := 0) && pt' == pt)
          || (cpu.pc.Low? && cpu.pc.k < n && cpu' == cpu.(pc := Low(cpu.pc.k + 1)) && pt' == pt
              && !Ready(Table(n, x, y)[cpu.pc.k], 1))
    ensures Step(Now(n, x, y, cpu, pt, next), Now(n, x, y, cpu', pt', next), Schedules(0))
  {
    assert [cpu][0 := cpu'] == [cpu'];
  }

  lemma Resumes(n: nat, x: Proc, y: Proc, cpu: Cpu, cpu': Cpu, next: nat)
    requires n >= 2
    requires (cpu.pc == High(0) && Ready(x, 0) && cpu' == Cpu(Some(0), InHigh(0), cpu.highs + 1))
          || (cpu.pc == Low(0) && Ready(x, 1) && cpu' == Cpu(Some(0), InLow(0), 0))
    ensures Step(Now(n, x, y, cpu, ByCpu(0), next),
                 Now(n, x.(state := RUNNING, pc := Resumed(x.pc), cpu := Some(0)), y, cpu', ByProc(0), next),
                 Schedules(0))
  {
    First(n, x, y, x.(state := RUNNING, pc := Resumed(x.pc), cpu := Some(0)));
    assert [cpu][0 := cpu'] == [cpu'];
  }

  // ---- the run ----

  /** No kill begins among the labels from lo on. */
  ghost predicate NoKill(labels: seq<Label>, lo: nat) {
    forall i: nat :: lo <= i < |labels| ==> !(labels[i].Begins? && labels[i].pc.KillPt?)
  }

  /** init is dispatched for the first time. */
  lemma Boots(n: nat) returns (run: seq<State>, labels: seq<Label>)
    requires n >= 2
    ensures Ends(run, labels, Now(n, Running(Run, 0), Vacant(), Busy(), Nobody, 2)) && |run[0].procs| == n
    ensures NoKill(labels, 0)
  {
    hide Step, Table;
    var x := Running(Born, 0).(state := RUNNABLE, cpu := None);
    var cpu := Cpu(None, Outside, 0);
    var s := Now(n, x, Vacant(), cpu, Nobody, 2);
    assert Table(n, x, Vacant()) == s.procs;
    run, labels := [s], [];
    Scans(n, x, Vacant(), cpu, cpu.(pc := High(0)), Nobody, ByCpu(0), 2);
    run, labels := Then(run, labels, s, Now(n, x, Vacant(), cpu.(pc := High(0)), ByCpu(0), 2), Schedules(0));
    Resumes(n, x, Vacant(), cpu.(pc := High(0)), Busy(), 2);
    run, labels := Then(run, labels, Now(n, x, Vacant(), cpu.(pc := High(0)), ByCpu(0), 2),
                        Now(n, Running(Rel, 0), Vacant(), Busy(), ByProc(0), 2), Schedules(0));
    Unlocks(n, Running(Rel, 0), Vacant(), Busy(), 2, Run);
    run, labels := Then(run, labels, Now(n, Running(Rel, 0), Vacant(), Busy(), ByProc(0), 2),
                        Now(n, Running(Run, 0), Vacant(), Busy(), Nobody, 2), Goes(0, true));
  }

  /** init forks a child. */
  lemma Forks(n: nat, killed: bool, run0: seq<State>, labels0: seq<Label>)
    returns (run: seq<State>, labels: seq<Label>)
    requires n >= 2
    requires Ends(run0, labels0, Now(n, Running(Run, 0), Vacant().(killed := killed), Busy(), Nobody, 2))
    ensures Ends(run, labels, Now(n, Running(Run, 0), Child(killed), Busy(), Nobody, 3)) && run[0] == run0[0]
    ensures labels0 <= labels && NoKill(labels, |labels0|)
  {
    hide Step, Table, IsRun, Ends;
    var run1, labels1 := ForkBegins(n, killed, run0, labels0);
    run, labels := ForkFinishes(n, killed, run1, labels1);
    assert forall i: nat :: i < |labels1| ==> labels[i] == labels1[i];
  }

  /** The child's slot as fork finds it, and with its parent set. */
  function Found(killed: bool): Proc {
    Embryo(Vacant().(killed := killed), 2, 0)
  }

  lemma ForkBegins(n: nat, killed: bool, run0: seq<State>, labels0: seq<Label>)
    returns (run: seq<State>, labels: seq<Label>)
    requires n >= 2
    requires Ends(run0, labels0, Now(n, Running(Run, 0), Vacant().(killed := killed), Busy(), Nobody, 2))
    ensures Ends(run, labels, Now(n, Running(ForkFill(1), 0), Found(killed), Busy(), Nobody, 3)) && run[0] == run0[0]
    ensures labels0 <= labels && NoKill(labels, |labels0|)
  {
    hide Step, Table, IsRun;
    var v, y := Vacant().(killed := killed), Found(killed);
    var s0 := Now(n, Running(Run, 0), v, Busy(), Nobody, 2);
    var s1 := Now(n, Running(ForkPt, 0), v, Busy(), Nobody, 2);
    var s2 := Now(n, Running(ForkFind, 0), v, Busy(), ByProc(0), 2);
    var s3 := Now(n, Running(ForkRel(1), 0), y, Busy(), ByProc(0), 3);
    BeginsFork(n, Running(Run, 0), v, 2);
    run, labels := Then(run0, labels0, s0, s1, Begins(0, ForkPt));
    Locks(n, Running(ForkPt, 0), v, 2, ForkFind);
    run, labels := Then(run, labels, s1, s2, Goes(0, true));
    FindsSlot(n, Running(ForkFind, 0), v);
    run, labels := Then(run, labels, s2, s3, Goes(0, true));
    Unlocks(n, Running(ForkRel(1), 0), y, Busy(), 3, ForkFill(1));
    run, labels := Then(run, labels, s3, Now(n, Running(ForkFill(1), 0), y, Busy(), Nobody, 3), Goes(0, true));
  }

  lemma ForkFinishes(n: nat, killed: bool, run0: seq<State>, labels0: seq<Label>)
    returns (run: seq<State>, labels: seq<Label>)
    requires n >= 2
    requires Ends(run0, labels0, Now(n, Running(ForkFill(1), 0), Found(killed), Busy(), Nobody, 3))
    ensures Ends(run, labels, Now(n, Running(Run, 0), Child(killed), Busy(), Nobody, 3)) && run[0] == run0[0]
    ensures labels0 <= labels && NoKill(labels, |labels0|)
  {
    hide Step, Table, IsRun;
    var y := Found(killed);
    var z := y.(parent := Some(0));
    var s4 := Now(n, Running(ForkFill(1), 0), y, Busy(), Nobody, 3);
    var s5 := Now(n, Running(ForkPt2(1), 0), z, Busy(), Nobody, 3);
    var s6 := Now(n, Running(ForkSet(1), 0), z, Busy(), ByProc(0), 3);
    var s7 := Now(n, Running(Rel, 0), Child(killed), Busy(), ByProc(0), 3);
    FillsSlot(n, Running(ForkFill(1), 0), y, 3);
    run, labels := Then(run0, labels0, s4, s5, Goes(0, true));
    Locks(n, Running(ForkPt2(1), 0), z, 3, ForkSet(1));
    run, labels := Then(run, labels, s5, s6, Goes(0, true));
    SetsChild(n, Running(ForkSet(1), 0), z, 3);
    run, labels := Then(run, labels, s6, s7, Goes(0, true));
    Unlocks(n, Running(Rel, 0), Child(killed), Busy(), 3, Run);
    run, labels := Then(run, labels, s7, Now(n, Running(Run, 0), Child(killed), Busy(), Nobody, 3), Goes(0, true));
  }

  /** A tick makes init yield, and the scheduler come to its test. */
  lemma TickYields(n: nat, x: Proc, run0: seq<State>, labels0: seq<Label>) returns (run: seq<State>, labels: seq<Label>)
    requires n >= 2 && x.state == RUNNING && x.pc.Run? && x.cpu == Some(0)
    requires Ends(run0, labels0, Now(n, x, Forked(), Busy(), Nobody, 3))
    ensures Ends(run, labels, Now(n, Yielded(Ticked(x)), Forked(), Cpu(None, Low(0), 1), ByCpu(0), 3))
      && run[0] == run0[0]
  {
    hide Step, Table, IsRun, Ticked;
    var y := Ticked(x);
    assert y == x.(priority := y.priority, ticks := y.ticks, charged := y.charged) by { TickedKeeps(x); }
    var s1 := Now(n, y.(pc := YieldPt), Forked(), Busy(), Nobody, 3);
    var s2 := Now(n, y.(pc := YieldSet), Forked(), Busy(), ByProc(0), 3);
    var s3 := Now(n, Yielded(y), Forked(), Cpu(None, Test, 1), ByCpu(0), 3);
    TicksOnce(n, x, Forked(), 3);
    run, labels := Then(run0, labels0, Now(n, x, Forked(), Busy(), Nobody, 3), s1, Ticks(0));
    Locks(n, y.(pc := YieldPt), Forked(), 3, YieldSet);
    run, labels := Then(run, labels, s1, s2, Goes(0, true));
    Yields(n, y.(pc := YieldSet), Forked(), 3);
    run, labels := Then(run, labels, s2, s3, Goes(0, true));
    Scans(n, Yielded(y), Forked(), Cpu(None, Test, 1), Cpu(None, Low(0), 1), ByCpu(0), ByCpu(0), 3);
    run, labels := Then(run, labels, s3, Now(n, Yielded(y), Forked(), Cpu(None, Low(0), 1), ByCpu(0), 3), Schedules(0));
  }

  lemma TickedKeeps(x: Proc)
    ensures var y := Ticked(x); y == x.(priority := y.priority, ticks := y.ticks, charged := y.charged)
  {
  }

  /** Level 1 is empty, and init is dispatched again. */
  lemma ComesBack(n: nat, ticks: nat, run0: seq<State>, labels0: seq<Label>)
    returns (run: seq<State>, labels: seq<Label>)
    requires n >= 2
    requires Ends(run0, labels0, Now(n, Yielded(Running(Run, ticks)), Forked(), Cpu(None, Low(0), 1), ByCpu(0), 3))
    ensures Ends(run, labels, Now(n, Running(Run, ticks), Forked(), Busy(), Nobody, 3)) && run[0] == run0[0]
  {
    hide Step, IsRun;
    var x := Yielded(Running(Run, ticks));
    run, labels := run0, labels0;
    var k: nat := 0;
    while k < n
      invariant Ends(run, labels, Now(n, x, Forked(), Cpu(None, Low(k), 1), ByCpu(0), 3))
      invariant k <= n && run[0] == run0[0]
    {
      assert !Ready(Table(n, x, Forked())[k], 1);
      Scans(n, x, Forked(), Cpu(None, Low(k), 1), Cpu(None, Low(k + 1), 1), ByCpu(0), ByCpu(0), 3);
      run, labels := Then(run, labels, Now(n, x, Forked(), Cpu(None, Low(k), 1), ByCpu(0), 3),
                          Now(n, x, Forked(), Cpu(None, Low(k + 1), 1), ByCpu(0), 3), Schedules(0));
      k := k + 1;
    }
    run, labels := NewPass(n, ticks, run, labels);
  }

  lemma NewPass(n: nat, ticks: nat, run0: seq<State>, labels0: seq<Label>) returns (run: seq<State>, labels: seq<Label>)
    requires n >= 2
    requires Ends(run0, labels0, Now(n, Yielded(Running(Run, ticks)), Forked(), Cpu(None, Low(n), 1), ByCpu(0), 3))
    ensures Ends(run, labels, Now(n, Running(Run, ticks), Forked(), Busy(), Nobody, 3)) && run[0] == run0[0]
  {
    hide Step, Table, IsRun;
    var x := Yielded(Running(Run, ticks));
    var s0 := Now(n, x, Forked(), Cpu(None, Low(n), 1), ByCpu(0), 3);
    var s1 := Now(n, x, Forked(), Cpu(None, Done, 0), ByCpu(0), 3);
    var s2 := Now(n, x, Forked(), Cpu(None, Outside, 0), Nobody, 3);
    var s3 := Now(n, x, Forked(), Cpu(None, High(0), 0), ByCpu(0), 3);
    var s4 := Now(n, Running(Rel, ticks), Forked(), Busy(), ByProc(0), 3);
    Scans(n, x, Forked(), Cpu(None, Low(n), 1), Cpu(None, Done, 0), ByCpu(0), ByCpu(0), 3);
    run, labels := Then(run0, labels0, s0, s1, Schedules(0));
    Scans(n, x, Forked(), Cpu(None, Done, 0), Cpu(None, Outside, 0), ByCpu(0), Nobody, 3);
    run, labels := Then(run, labels, s1, s2, Schedules(0));
    Scans(n, x, Forked(), Cpu(None, Outside, 0), Cpu(None, High(0), 0), Nobody, ByCpu(0), 3);
    run, labels := Then(run, labels, s2, s3, Schedules(0));
    Resumes(n, x, Forked(), Cpu(None, High(0), 0), Busy(), 3);
    run, labels := Then(run, labels, s3, s4, Schedules(0));
    Unlocks(n, Running(Rel, ticks), Forked(), Busy(), 3, Run);
    run, labels := Then(run, labels, s4, Now(n, Running(Run, ticks), Forked(), Busy(), Nobody, 3), Goes(0, true));
  }

  /** Strict priority fails, in a table of any size: init forks, uses up its quantum, and is
    * dispatched at level 1 while its child, at level 0, has been RUNNABLE all along. */
  lemma LevelOneOvertakes(n: nat) returns (run: seq<State>, labels: seq<Label>, k: nat)
    requires n >= 2
    ensures IsRun(run, labels) && |run[0].procs| == n && k + 1 == |labels| && labels[k] == Schedules(0)
    ensures |run[k].cpus| == 1 == |run[k + 1].cpus| && run[k].cpus[0].pc.Low? && run[k + 1].cpus[0].pc.InLow?
    ensures |run[k].procs| == n && Ready(run[k].procs[1], 0)
  {
    hide Step, IsRun, StepAt;
    run, labels := Boots(n);
    run, labels := Forks(n, false, run, labels);
    var i: nat := 0;
    while i < QUANTUM - 1
      invariant Ends(run, labels, Now(n, Running(Run, i), Forked(), Busy(), Nobody, 3))
      invariant i <= QUANTUM - 1 && |run[0].procs| == n
    {
      run, labels := TickYields(n, Running(Run, i), run, labels);
      assert Yielded(Ticked(Running(Run, i))) == Yielded(Running(Run, i + 1));
      run, labels := ComesBack(n, i + 1, run, labels);
      i := i + 1;
    }
    run, labels := TickYields(n, Running(Run, i), run, labels);
    var x := Yielded(Ticked(Running(Run, i)));
    Resumes(n, x, Forked(), Cpu(None, Low(0), 1), Cpu(Some(0), InLow(0), 0), 3);
    k := |labels|;
    assert |run| == k + 1;
    var r, ls := Then(run, labels, Now(n, x, Forked(), Cpu(None, Low(0), 1), ByCpu(0), 3),
                        Now(n, x.(state := RUNNING, pc := Rel, cpu := Some(0)), Forked(),
                            Cpu(Some(0), InLow(0), 0), ByProc(0), 3),
                        Schedules(0));
    assert r[k] == run[k];
    run, labels := r, ls;
  }
}
