/** What becomes of parents, pids and killed flags over a run. */
module ProcHistory {
  import opened Procs
  import opened ProcSafety
  import opened ProcRuns
  import opened ProcCalls

  // ---- parents ----

  /** A child stays its parent's until that exits, when it becomes init's, or reaps it. */
  lemma ParentsChange(run: seq<State>, labels: seq<Label>, k: nat, q: nat, p: nat)
    requires IsRun(run, labels) && k + 1 < |run| && ChildOf(run[k], q, p)
    ensures |run[k + 1].procs| == |run[k].procs|
    ensures var (s, t, l) := (run[k], run[k + 1], labels[k]);
      || t.procs[q].parent == Some(p)
      || (&& l.Goes? && l.p == p && p < |s.procs|
          && if s.procs[p].pc.ExitScan? then t.procs[q].parent == Some(s.init) else Freed(s, t, p, q))
  {
    hide Inv, Step;
    var s, t, l := run[k], run[k + 1], labels[k];
    RunInv(run, labels, k);
    TakesStep(run, labels, k);
    SlotsStay(s, t, l);
    if l.Goes? {
      StepGoes(s, t, l);
      DoParents(s, l.p, l.memory, q, p);
    } else {
      NoParents(s, t, l, q);
    }
  }

  lemma StepGoes(s: State, t: State, l: Label)
    requires Step(s, t, l) && l.Goes?
    ensures Enabled(s, l.p) && t == Do(s, l.p, l.memory)
  {
    hide Do;
  }

  lemma NoParents(s: State, t: State, l: Label, q: nat)
    requires Step(s, t, l) && !l.Goes? && q < |s.procs|
    ensures |t.procs| == |s.procs| && t.procs[q].parent == s.procs[q].parent
  {
  }

  lemma DoParents(s: State, r: nat, memory: bool, q: nat, p: nat)
    requires Inv(s) && Enabled(s, r) && ChildOf(s, q, p)
    ensures var t := Do(s, r, memory);
      && |t.procs| == |s.procs|
      && (|| t.procs[q].parent == Some(p)
          || (r == p && if s.procs[p].pc.ExitScan? then t.procs[q].parent == Some(s.init) else Freed(s, t, p, q)))
  {
    hide Do, Inv;
    DoSlots(s, r, memory);
    var pc := s.procs[r].pc;
    if OwnOnly(pc) {
      OwnParent(s, r, memory);
      OthersStay(s, r, memory, q);
    } else if pc.WaitScan? {
      WaitParents(s, r, memory, q, p);
    } else if pc.ExitScan? {
      ExitParents(s, r, memory, q, p);
    } else if pc.KillDo? {
      KillIs(s, r, memory);
      var _ := KilledOne(s, pc.pid, 0);
    } else if pc.WakeDo? {
      WakeIs(s, r, memory);
    } else {
      RestParents(s, r, memory, q, p);
    }
  }

  lemma OwnParent(s: State, p: nat, memory: bool)
    requires Enabled(s, p) && OwnOnly(s.procs[p].pc)
    ensures |Do(s, p, memory).procs| == |s.procs| && Do(s, p, memory).procs[p].parent == s.procs[p].parent
  {
    hide Killed, FirstUnused, Look, PassOn, Wakeup1, Embryo;
  }

  lemma WaitParents(s: State, r: nat, memory: bool, q: nat, p: nat)
    requires Inv(s) && Enabled(s, r) && ChildOf(s, q, p) && s.procs[r].pc.WaitScan?
    ensures var t := Do(s, r, memory);
      |t.procs| == |s.procs| && (t.procs[q].parent == Some(p) || (r == p && Freed(s, t, p, q)))
  {
    hide Inv, Do;
    WaitLooks(s, r, memory);
    var k := s.procs[r].pc.k;
    assert ChildOf(s, k, r) && k == q ==> r == p;
  }

  lemma ExitParents(s: State, r: nat, memory: bool, q: nat, p: nat)
    requires Enabled(s, r) && ChildOf(s, q, p) && s.procs[r].pc.ExitScan?
    ensures var t := Do(s, r, memory);
      && |t.procs| == |s.procs|
      && (t.procs[q].parent == Some(p) || (r == p && t.procs[q].parent == Some(s.init)))
  {
  }

  lemma RestParents(s: State, r: nat, memory: bool, q: nat, p: nat)
    requires Inv(s) && Enabled(s, r) && ChildOf(s, q, p)
    requires var pc := s.procs[r].pc; pc.ForkFind? || pc.ForkFill? || pc.ForkSet? || pc.ExitWake?
    ensures var t := Do(s, r, memory); |t.procs| == |s.procs| && t.procs[q].parent == Some(p)
  {
    hide Inv;
    At(s, r);
    At(s, q);
    hide Killed, Look, PassOn, Switched;
  }

  // ---- pids ----

  ghost predicate PidsOk(s: State) {
    && s.nextpid > 0
    && (forall q: nat :: q < |s.procs| ==> s.procs[q].pid < s.nextpid)
    && forall q: nat, r: nat :: q < r < |s.procs| ==> PidsApart(s, q, r)
  }

  ghost predicate PidsApart(s: State, q: nat, r: nat) {
    q < |s.procs| && r < |s.procs| ==> s.procs[q].pid != s.procs[r].pid || s.procs[q].pid == 0
  }

  /** One slot at most gets a pid, the next; others keep theirs or lose it. */
  ghost predicate PidsStep(s: State, t: State, np: nat) {
    && |t.procs| == |s.procs|
    && (forall q: nat :: q < |s.procs| && q != np ==> t.procs[q].pid == s.procs[q].pid || t.procs[q].pid == 0)
    && (np < |s.procs| ==> t.procs[np].pid == s.nextpid)
    && t.nextpid == if np < |s.procs| then s.nextpid + 1 else s.nextpid
  }

  lemma StepPids(s: State, t: State, l: Label) returns (np: nat)
    requires Inv(s) && Step(s, t, l)
    ensures PidsStep(s, t, np)
  {
    hide Inv, Do, PidsStep;
    if l.Goes? {
      np := DoPids(s, l.p, l.memory);
    } else {
      np := |s.procs|;
      OtherPids(s, t, l);
    }
  }

  lemma OtherPids(s: State, t: State, l: Label)
    requires Step(s, t, l) && !l.Goes?
    ensures PidsStep(s, t, |s.procs|)
  {
  }

  lemma DoPids(s: State, p: nat, memory: bool) returns (np: nat)
    requires Inv(s) && Enabled(s, p)
    ensures PidsStep(s, Do(s, p, memory), np)
  {
    hide Do, Inv;
    DoSlots(s, p, memory);
    var pc, t := s.procs[p].pc, Do(s, p, memory);
    np := |s.procs|;
    if OwnOnly(pc) {
      OwnPid(s, p, memory);
      forall q: nat | q < |s.procs| ensures t.procs[q].pid == s.procs[q].pid { OthersStay(s, p, memory, q); }
    } else if pc.ForkFind? {
      ForkFindsSlot(s, p, memory);
      ForkPids(s, p, memory);
      if t.procs[p].pc != Rel { np := t.procs[p].pc.np; }
    } else if pc.KillDo? {
      KillIs(s, p, memory);
      var _ := KilledOne(s, pc.pid, 0);
    } else if pc.WakeDo? {
      WakeIs(s, p, memory);
    } else if pc.WaitScan? {
      WaitLooks(s, p, memory);
    } else {
      RestPids(s, p, memory);
    }
  }

  lemma ForkPids(s: State, p: nat, memory: bool)
    requires Enabled(s, p) && s.procs[p].pc.ForkFind?
    ensures Do(s, p, memory).procs[p].pc == Rel ==> Do(s, p, memory).nextpid == s.nextpid
  {
  }

  lemma OwnPid(s: State, p: nat, memory: bool)
    requires Enabled(s, p) && OwnOnly(s.procs[p].pc)
    ensures var t := Do(s, p, memory);
      |t.procs| == |s.procs| && t.procs[p].pid == s.procs[p].pid && t.nextpid == s.nextpid
  {
    hide Killed, FirstUnused, Look, PassOn, Wakeup1, Embryo;
  }

  lemma RestPids(s: State, p: nat, memory: bool)
    requires Enabled(s, p)
    requires var pc := s.procs[p].pc; pc.ForkFill? || pc.ForkSet? || pc.ExitWake? || pc.ExitScan?
    ensures PidsStep(s, Do(s, p, memory), |s.procs|)
  {
    hide Killed, Look, Switched, FirstUnused;
  }

  lemma PidsKept(s: State, t: State, np: nat)
    requires PidsOk(s) && PidsStep(s, t, np)
    ensures PidsOk(t) && s.nextpid <= t.nextpid
  {
    forall q: nat, r: nat | q < r < |t.procs| ensures PidsApart(t, q, r) {
      assert PidsApart(s, q, r);
    }
  }

  /** No two slots have the same pid, unless it is 0, and no pid is ever given out again. */
  lemma {:induction false} PidsDiffer(run: seq<State>, labels: seq<Label>, lo: nat, hi: nat)
    requires IsRun(run, labels) && lo <= hi < |run|
    ensures PidsOk(run[hi]) && run[lo].nextpid <= run[hi].nextpid
    decreases hi
  {
    hide Inv, Step, PidsOk, PidsStep;
    if hi > 0 {
      PidsDiffer(run, labels, if lo < hi then lo else hi - 1, hi - 1);
      TakesStep(run, labels, hi - 1);
      RunInv(run, labels, hi - 1);
      var np := StepPids(run[hi - 1], run[hi], labels[hi - 1]);
      PidsKept(run[hi - 1], run[hi], np);
    } else {
      FirstPids(run[0]);
    }
  }

  lemma FirstPids(s: State)
    requires Init(s)
    ensures PidsOk(s)
  {
    forall q: nat, r: nat | q < r < |s.procs| ensures PidsApart(s, q, r) {
    }
  }

  /** A new process has a pid that no slot has had before. */
  lemma PidIsNew(run: seq<State>, labels: seq<Label>, lo: nat, hi: nat, q: nat, r: nat)
    requires IsRun(run, labels) && lo <= hi && hi + 1 < |run| && r < |run[lo].procs| && Given(run[hi], run[hi + 1], q)
    ensures run[hi + 1].procs[q].pid > run[lo].procs[r].pid
  {
    PidsDiffer(run, labels, lo, lo);
    PidsDiffer(run, labels, lo, hi);
  }

  // ---- born killed ----

  /** The slot is not in use by a process yet, or any more, and its killed flag is set. */
  predicate Marked(x: Proc) {
    (x.state == UNUSED || x.state == EMBRYO) && x.killed
  }

  /** The pid that p is about to kill is that of slot q, which is no process's. */
  predicate Marks(s: State, l: Label, q: nat) {
    && l.Goes? && l.p < |s.procs| && s.procs[l.p].pc.KillDo? && q < |s.procs|
    && s.procs[q].pid == s.procs[l.p].pc.pid && (s.procs[q].state == UNUSED || s.procs[q].state == EMBRYO)
  }

  lemma DoMarks(s: State, p: nat, memory: bool, q: nat)
    requires Inv(s) && Enabled(s, p) && q < |s.procs|
    ensures |Do(s, p, memory).procs| == |s.procs|
    ensures Marked(Do(s, p, memory).procs[q]) ==> Marked(s.procs[q]) || Marks(s, Goes(p, memory), q)
  {
    hide Do, Inv;
    DoSlots(s, p, memory);
    var pc := s.procs[p].pc;
    if pc.ForkFill? {
      FillsOrNot(s, p, memory);
      At(s, p);
      At(s, pc.np);
    } else if OwnOnly(pc) {
      if q != p { OthersStay(s, p, memory, q); } else { OwnState(s, p, memory); }
    } else if pc.KillDo? {
      KillIs(s, p, memory);
      var _ := KilledOne(s, pc.pid, 0);
    } else if pc.WakeDo? {
      WakeIs(s, p, memory);
    } else {
      RestMarks(s, p, memory, q);
    }
  }

  lemma OwnState(s: State, p: nat, memory: bool)
    requires Enabled(s, p) && OwnOnly(s.procs[p].pc)
    ensures |Do(s, p, memory).procs| == |s.procs|
    ensures var x := Do(s, p, memory).procs[p]; x.state != UNUSED && x.state != EMBRYO
  {
    hide Killed, FirstUnused, Look, PassOn, Wakeup1, Embryo;
  }

  lemma RestMarks(s: State, p: nat, memory: bool, q: nat)
    requires Enabled(s, p) && q < |s.procs|
    requires var pc := s.procs[p].pc;
      pc.ForkFind? || pc.ForkSet? || pc.ExitWake? || pc.ExitScan? || pc.WaitScan?
    ensures |Do(s, p, memory).procs| == |s.procs|
    ensures Marked(Do(s, p, memory).procs[q]) ==> Marked(s.procs[q])
  {
    hide Killed, Switched;
  }

  lemma StepMarks(s: State, t: State, l: Label, q: nat)
    requires Inv(s) && Step(s, t, l) && q < |s.procs|
    ensures |t.procs| == |s.procs| && (Marked(t.procs[q]) ==> Marked(s.procs[q]) || Marks(s, l, q))
  {
    hide Do, Inv;
    if l.Goes? { DoMarks(s, l.p, l.memory, q); }
  }

  /** A slot that waits for a process, or is being filled, has its killed flag set only if kill has named its
    * pid since it was last a process's: 0, or that of a fork that is not through or failed. */
  lemma {:induction false} MarkedByKill(run: seq<State>, labels: seq<Label>, k: nat, q: nat) returns (j: nat)
    requires IsRun(run, labels) && k < |run| && q < |run[k].procs| && Marked(run[k].procs[q])
    ensures j < k && Marks(run[j], labels[j], q)
    ensures forall i: nat :: j < i <= k ==> q < |run[i].procs| && Marked(run[i].procs[q])
  {
    hide Step, Inv;
    j := 0;
    if k > 0 {
      TakesStep(run, labels, k - 1);
      SlotsStay(run[k - 1], run[k], labels[k - 1]);
      RunInv(run, labels, k - 1);
      StepMarks(run[k - 1], run[k], labels[k - 1], q);
      if Marked(run[k - 1].procs[q]) {
        j := MarkedByKill(run, labels, k - 1, q);
      } else {
        j := k - 1;
      }
    }
  }
}
