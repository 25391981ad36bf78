/** A run in which a process is killed before it exists. */
module ProcKilled {
  import opened Procs
  import opened ProcRuns
  import opened ProcPriority

  lemma BeginsKill(n: nat, x: Proc, y: Proc, pid: nat)
    requires n >= 2 && x.state == RUNNING && x.pc.Run?
    ensures Step(Now(n, x, y, Busy(), Nobody, 2), Now(n, x.(pc := KillPt(pid)), y, Busy(), Nobody, 2),
                 Begins(0, KillPt(pid)))
  {
    First(n, x, y, x.(pc := KillPt(pid)));
  }

  /** kill(0) comes to the first slot that never had a process. */
  lemma KillsVacant(n: nat, x: Proc)
    requires n >= 2 && x.state == RUNNING && x.pc == KillDo(0) && x.pid != 0
    ensures Step(Now(n, x, Vacant(), Busy(), ByProc(0), 2),
                 Now(n, x.(pc := Rel), Vacant().(killed := true), Busy(), ByProc(0), 2), Goes(0, true))
  {
    var s := Now(n, x, Vacant(), Busy(), ByProc(0), 2);
    assert Killed(s, 0, 0) == Killed(s, 0, 1);
    Second(n, x, Vacant(), Vacant().(killed := true));
    First(n, x, Vacant().(killed := true), x.(pc := Rel));
  }

  /** In a table of any size init calls kill(0) and forks: the child is RUNNABLE, and killed, though that is
    * the only kill there is. */
  lemma BornKilled(n: nat) returns (run: seq<State>, labels: seq<Label>)
    requires n >= 2
    ensures IsRun(run, labels) && |run[0].procs| == n && |run[|labels|].procs| == n
    ensures var x := run[|labels|].procs[1]; x.state == RUNNABLE && x.pid == 2 && x.killed
    ensures forall i: nat :: i < |labels| && labels[i].Begins? && labels[i].pc.KillPt? ==> labels[i].pc.pid == 0
  {
    hide Step, IsRun, StepAt, Table;
    var x, v := Running(Run, 0), Vacant();
    run, labels := Boots(n);
    var m := |labels|;
    BeginsKill(n, x, v, 0);
    run, labels := Then(run, labels, Now(n, x, v, Busy(), Nobody, 2), Now(n, x.(pc := KillPt(0)), v, Busy(), Nobody, 2),
                        Begins(0, KillPt(0)));
    Locks(n, x.(pc := KillPt(0)), v, 2, KillDo(0));
    run, labels := Then(run, labels, Now(n, x.(pc := KillPt(0)), v, Busy(), Nobody, 2),
                        Now(n, x.(pc := KillDo(0)), v, Busy(), ByProc(0), 2), Goes(0, true));
    KillsVacant(n, x.(pc := KillDo(0)));
    v := v.(killed := true);
    run, labels := Then(run, labels, Now(n, x.(pc := KillDo(0)), Vacant(), Busy(), ByProc(0), 2),
                        Now(n, x.(pc := Rel), v, Busy(), ByProc(0), 2), Goes(0, true));
    Unlocks(n, x.(pc := Rel), v, Busy(), 2, Run);
    run, labels := Then(run, labels, Now(n, x.(pc := Rel), v, Busy(), ByProc(0), 2),
                        Now(n, x, v, Busy(), Nobody, 2), Goes(0, true));
    var labels1 := labels;
    run, labels := Forks(n, true, run, labels);
    assert labels[..|labels1|] == labels1;
  }
}
