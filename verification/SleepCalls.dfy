/** What whole calls of acquiresleep, releasesleep, pipewrite, piperead and pipeclose have done, whatever other
  * processes do in between. */
module SleepCalls {
  import opened Sleep

  // ---- reading a program counter ----

  /** The call that p is in, with how far it got, until it has done what it is for. */
  function CallOf(pc: Pc): Option<Call> {
    match pc
    case Enter(c) => Some(c)
    case Loop(c) => Some(c)
    case SleepPt(c) => Some(c)
    case SleepRel(c) => Some(c)
    case SleepSet(c) => Some(c)
    case Out(c) => Some(c)
    case Tidy(c) => Some(c)
    case Back(c) => Some(c)
    case WakePt(Full(i, src, k)) => Some(Write(i, src, k))
    case Wakes(Full(i, src, k)) => Some(Write(i, src, k))
    case WakeRel(Full(i, src, k)) => Some(Write(i, src, k))
    case _ => None
  }

  function AfterOf(pc: Pc): Option<After> {
    match pc
    case WakePt(a) => Some(a)
    case Wakes(a) => Some(a)
    case WakeRel(a) => Some(a)
    case _ => None
  }

  // ---- what one step does ----

  /** A pipe with the same bytes: stored, delivered and in the ring. */
  predicate SameBytes(x: Pipe, y: Pipe) {
    y.sent == x.sent && y.got == x.got && y.data == x.data && y.nread == x.nread && y.nwrite == x.nwrite
  }

  /** Pipes other than i are as they were. */
  ghost predicate OtherPipes(s: State, t: State, i: nat) {
    && |t.pipes| == |s.pipes|
    && forall j: nat :: j < |s.pipes| && j != i ==> SameBytes(s.pipes[j], t.pipes[j])
  }

  /** Processes keep their pc and sleep-locks when others move; nothing comes or goes. */
  ghost predicate Frame(s: State, t: State, p: nat) {
    && |t.procs| == |s.procs| && |t.pipes| == |s.pipes| && |t.locks| == |s.locks|
    && forall q: nat :: q < |s.procs| && q != p ==> SameCall(s.procs[q], t.procs[q])
  }

  predicate SameCall(x: Proc, y: Proc) {
    y.pc == x.pc && y.held == x.held
  }

  lemma LoopFrame(s: State, p: nat)
    requires Enabled(s, p) && s.procs[p].pc.Loop?
    ensures Frame(s, Do(s, p), p)
  {
    hide Stored;
  }

  lemma DataFrame(s: State, p: nat)
    requires Enabled(s, p)
    requires var x := s.procs[p].pc; x.Copy? || x.RelClear? || x.CloseSet? || x.Wakes?
    ensures Frame(s, Do(s, p), p)
  {
    hide Taken, Next;
  }

  lemma LockFrame(s: State, p: nat)
    requires Enabled(s, p)
    requires var x := s.procs[p].pc; x.Enter? || x.Back? || x.RelEnter? || x.CloseEnter? || x.SleepRel? || x.Unlock?
    ensures Frame(s, Do(s, p), p)
  {
    hide AfterLoop, Waking, WithPipe, Taken, AfterWake;
  }

  lemma SwitchFrame(s: State, p: nat)
    requires Enabled(s, p)
    requires var x := s.procs[p].pc; x.SleepSet? || x.Tidy? || x.WakePt? || x.WakeRel? || x.SleepPt? || x.Out?
    ensures Frame(s, Do(s, p), p)
  {
    hide AfterLoop, Waking, WithPipe, WithOwner, Taken;
  }

  lemma DoFrame(s: State, p: nat)
    requires Enabled(s, p)
    ensures Frame(s, Do(s, p), p)
  {
    hide Do, Frame;
    var x := s.procs[p].pc;
    if x.Loop? {
      LoopFrame(s, p);
    } else if x.Copy? || x.RelClear? || x.CloseSet? || x.Wakes? {
      DataFrame(s, p);
    } else if x.SleepSet? || x.Tidy? || x.WakePt? || x.WakeRel? || x.SleepPt? || x.Out? {
      SwitchFrame(s, p);
    } else {
      LockFrame(s, p);
    }
  }

  /** Only its own steps, and the beginning of a call, move a process. */
  lemma OtherStep(s: State, t: State, l: Label, p: nat)
    requires Step(s, t, l) && p < |s.procs| && l != Goes(p) && s.procs[p].pc != Idle
    ensures |t.procs| == |s.procs| && SameCall(s.procs[p], t.procs[p])
  {
    hide Do;
    if l.Goes? { DoFrame(s, l.p); }
  }

  lemma SlotsStay(s: State, t: State, l: Label)
    requires Step(s, t, l)
    ensures |t.procs| == |s.procs| && |t.pipes| == |s.pipes| && |t.locks| == |s.locks|
  {
    hide Do;
    if l.Goes? { DoFrame(s, l.p); }
  }

  /** The way of a call between its loops. */
  predicate Follows(x: Pc, y: Pc) {
    match x
    case Enter(c) => y == Loop(c)
    case Back(c) => y == Loop(c)
    case SleepPt(c) => y == SleepRel(c)
    case SleepRel(c) => y == SleepSet(c)
    case SleepSet(c) => y == Out(c)
    case Out(c) => y == Tidy(c)
    case Tidy(c) => y == Back(c)
    case WakePt(a) => y == Wakes(a)
    case Wakes(a) => y == WakeRel(a)
    case WakeRel(a) => y == AfterWake(a)
    case RelEnter(i) => y == RelClear(i)
    case RelClear(i) => y == WakePt(Released(i))
    case CloseEnter(i, w) => y == CloseSet(i, w)
    case CloseSet(i, w) => y == WakePt(if w then ClosedWrite(i) else ClosedRead(i))
    case Unlock(_) => y == Idle
    case _ => false
  }

  /** Steps but those of a loop go on in that way, and leave all bytes where they are. */
  lemma QuietStep(s: State, p: nat)
    requires Enabled(s, p) && POk(s, p) && !s.procs[p].pc.Loop? && !s.procs[p].pc.Copy?
    ensures var t := Do(s, p);
      && |t.procs| == |s.procs| && OtherPipes(s, t, |s.pipes|)
      && Follows(s.procs[p].pc, t.procs[p].pc)
      && (!s.procs[p].pc.RelClear? ==> t.procs[p].held == s.procs[p].held)
  {
    hide Do, OtherPipes;
    var x := s.procs[p].pc;
    if x.RelClear? || x.CloseSet? || x.Wakes? {
      DataStep(s, p);
    } else if x.SleepSet? || x.Tidy? || x.WakePt? || x.WakeRel? || x.SleepPt? || x.Out? {
      SwitchesStep(s, p);
    } else {
      LocksStep(s, p);
    }
  }

  lemma DataStep(s: State, p: nat)
    requires Enabled(s, p) && POk(s, p)
    requires var x := s.procs[p].pc; x.RelClear? || x.CloseSet? || x.Wakes?
    ensures var t := Do(s, p);
      && |t.procs| == |s.procs| && OtherPipes(s, t, |s.pipes|) && Follows(s.procs[p].pc, t.procs[p].pc)
      && (!s.procs[p].pc.RelClear? ==> t.procs[p].held == s.procs[p].held)
  {
    hide AfterLoop, Taken;
  }

  lemma SwitchesStep(s: State, p: nat)
    requires Enabled(s, p)
    requires var x := s.procs[p].pc; x.SleepSet? || x.Tidy? || x.WakePt? || x.WakeRel? || x.SleepPt? || x.Out?
    ensures var t := Do(s, p);
      && |t.procs| == |s.procs| && OtherPipes(s, t, |s.pipes|) && Follows(s.procs[p].pc, t.procs[p].pc)
      && t.procs[p].held == s.procs[p].held
  {
    hide AfterLoop, Taken, Waking, WithOwner, WithPipe;
  }

  lemma LocksStep(s: State, p: nat)
    requires Enabled(s, p)
    requires var x := s.procs[p].pc; x.Enter? || x.Back? || x.RelEnter? || x.CloseEnter? || x.SleepRel? || x.Unlock?
    ensures var t := Do(s, p);
      && |t.procs| == |s.procs| && OtherPipes(s, t, |s.pipes|) && Follows(s.procs[p].pc, t.procs[p].pc)
      && t.procs[p].held == s.procs[p].held
  {
    hide OtherPipes;
    OwnerBytes(s, p);
    hide AfterLoop, Taken, Waking, WithPipe, AfterWake, Wakeup1;
  }

  lemma OwnerBytes(s: State, p: nat)
    requires Enabled(s, p)
    requires var x := s.procs[p].pc; x.Enter? || x.Back? || x.RelEnter? || x.CloseEnter? || x.SleepRel? || x.Unlock?
    ensures OtherPipes(s, Do(s, p), |s.pipes|)
  {
    hide AfterLoop, Taken, Waking, WithPipe, AfterWake, Wakeup1;
  }

  /** A step of the loop of a call. */
  lemma LoopStep(s: State, p: nat)
    requires Enabled(s, p) && s.procs[p].pc.Loop? && IsObj(s, ObjOf(s.procs[p].pc.call))
    ensures var (t, c) := (Do(s, p), s.procs[p].pc.call);
      && |t.procs| == |s.procs| && |t.pipes| == |s.pipes|
      && var y := t.procs[p].pc;
      match c
      case Acquire(i) =>
        && OtherPipes(s, t, |s.pipes|) && |t.locks| == |s.locks|
        && if s.locks[i].locked then y == SleepPt(c) && t.procs[p].held == s.procs[p].held
           else y == Unlock(LockObj(i)) && i in t.procs[p].held && t.locks[i].locked && t.locks[i].holder == Some(p)
      case Read(i, n) =>
        && OtherPipes(s, t, |s.pipes|)
        && if s.pipes[i].Empty() && s.pipes[i].writeopen then
             y == if s.procs[p].killed then Unlock(PipeObj(i)) else SleepPt(c)
           else y == Copy(i, n, [])
      case Write(i, src, k) =>
        if k >= |src| then OtherPipes(s, t, |s.pipes|) && y == WakePt(Wrote(i))
        else if s.pipes[i].IsFull() then
          && OtherPipes(s, t, |s.pipes|)
          && y == if !s.pipes[i].readopen || s.procs[p].killed then Unlock(PipeObj(i)) else WakePt(Full(i, src, k))
        else
          && OtherPipes(s, t, i) && t.pipes[i].sent == s.pipes[i].sent + [src[k]] && t.pipes[i].got == s.pipes[i].got
          && y == Loop(Write(i, src, k + 1))
  {
  }

  /** A step of piperead's copying loop. */
  lemma CopyStep(s: State, p: nat)
    requires Enabled(s, p) && s.procs[p].pc.Copy? && s.procs[p].pc.i < |s.pipes|
    ensures var (t, x) := (Do(s, p), s.procs[p].pc);
      && |t.procs| == |s.procs| && |t.pipes| == |s.pipes|
      && var y := t.procs[p].pc;
      if |x.got| < x.n && !s.pipes[x.i].Empty() then
        && OtherPipes(s, t, x.i) && t.pipes[x.i].sent == s.pipes[x.i].sent
        && y.Copy? && y.i == x.i && y.n == x.n && |y.got| == |x.got| + 1 && y.got[..|x.got|] == x.got
        && t.pipes[x.i].got == s.pipes[x.i].got + [y.got[|x.got|]]
      else OtherPipes(s, t, |s.pipes|) && y == WakePt(DidRead(x.i))
  {
  }

  // ---- a call of p over a run ----

  /** From lo to hi p has not been between calls. */
  ghost predicate InCall(run: seq<State>, lo: nat, hi: nat, p: nat) {
    forall j: nat :: lo < j <= hi && j < |run| ==> p < |run[j].procs| && run[j].procs[p].pc != Idle
  }

  /** p begins a call as pc in state lo, and is in it in state hi. */
  ghost predicate Calling(run: seq<State>, labels: seq<Label>, lo: nat, hi: nat, p: nat, pc: Pc) {
    IsRun(run, labels) && lo < hi < |run| && labels[lo] == Begins(p, pc) && InCall(run, lo, hi, p)
  }

  /** What was added to the end of a list. */
  function Added(a: seq<Byte>, b: seq<Byte>): seq<Byte> {
    if |a| <= |b| then b[|a|..] else []
  }

  /** The bytes that p has put into pipe i between states lo and hi. */
  ghost function Put(run: seq<State>, labels: seq<Label>, lo: nat, hi: nat, p: nat, i: nat): seq<Byte>
    requires lo <= hi < |run| && |run| == |labels| + 1
    decreases hi - lo
  {
    if lo == hi then []
    else Put(run, labels, lo, hi - 1, p, i) +
         if labels[hi - 1] == Goes(p) && i < |run[hi - 1].pipes| && i < |run[hi].pipes| then
           Added(run[hi - 1].pipes[i].sent, run[hi].pipes[i].sent)
         else []
  }

  /** And those that it has been given. */
  ghost function Given(run: seq<State>, labels: seq<Label>, lo: nat, hi: nat, p: nat, i: nat): seq<Byte>
    requires lo <= hi < |run| && |run| == |labels| + 1
    decreases hi - lo
  {
    if lo == hi then []
    else Given(run, labels, lo, hi - 1, p, i) +
         if labels[hi - 1] == Goes(p) && i < |run[hi - 1].pipes| && i < |run[hi].pipes| then
           Added(run[hi - 1].pipes[i].got, run[hi].pipes[i].got)
         else []
  }

  lemma TakesStep(run: seq<State>, labels: seq<Label>, k: nat)
    requires IsRun(run, labels) && k + 1 < |run|
    ensures k < |labels| && Step(run[k], run[k + 1], labels[k]) && Base(run[k])
    ensures |run[k + 1].procs| == |run[k].procs| && |run[k + 1].pipes| == |run[k].pipes|
    ensures |run[k + 1].locks| == |run[k].locks|
  {
    hide Step, Base;
    assert StepAt(run, labels, k);
    RunKeeps(run, labels, k);
    SlotsStay(run[k], run[k + 1], labels[k]);
  }

  /** The call has just begun. */
  lemma CallBegins(run: seq<State>, labels: seq<Label>, lo: nat, p: nat, pc: Pc)
    requires IsRun(run, labels) && lo + 1 < |run| && labels[lo] == Begins(p, pc)
    ensures p < |run[lo + 1].procs| && run[lo + 1].procs[p].pc == pc
    ensures match pc
            case Enter(c) => IsObj(run[lo + 1], ObjOf(c)) && (c.Write? ==> c.k == 0)
            case CloseEnter(i, _) => i < |run[lo + 1].pipes|
            case RelEnter(_) => true
            case _ => false
  {
    TakesStep(run, labels, lo);
  }

  // ---- pipewrite ----

  /** Where a write of src to pipe i is when it has stored `put`. */
  predicate WriteAt(pc: Pc, i: nat, src: seq<Byte>, put: seq<Byte>) {
    && put <= src
    && if pc.Unlock? then pc.obj == PipeObj(i)
       else CallOf(pc) == Some(Write(i, src, |put|)) || (AfterOf(pc) == Some(Wrote(i)) && put == src)
  }

  lemma WriteGoesOn(x: Pc, y: Pc, i: nat, src: seq<Byte>, put: seq<Byte>)
    requires WriteAt(x, i, src, put) && Follows(x, y) && y != Idle
    ensures WriteAt(y, i, src, put)
  {
  }

  lemma WriteStep(s: State, p: nat, i: nat, src: seq<Byte>, put: seq<Byte>)
    requires Enabled(s, p) && POk(s, p) && i < |s.pipes| && WriteAt(s.procs[p].pc, i, src, put)
    ensures var t := Do(s, p);
      && |t.procs| == |s.procs| && |t.pipes| == |s.pipes|
      && (t.procs[p].pc != Idle ==>
            WriteAt(t.procs[p].pc, i, src, put + Added(s.pipes[i].sent, t.pipes[i].sent)))
  {
    hide Do, Follows;
    var t := Do(s, p);
    if s.procs[p].pc.Loop? {
      LoopStep(s, p);
      assert i < |s.pipes| && OtherPipes(s, t, |s.pipes|) ==> SameBytes(s.pipes[i], t.pipes[i]);
      assert put == src[..|put|];
    } else {
      QuietStep(s, p);
      assert SameBytes(s.pipes[i], t.pipes[i]);
      if t.procs[p].pc != Idle { WriteGoesOn(s.procs[p].pc, t.procs[p].pc, i, src, put); }
      assert put + [] == put;
    }
  }

  /** At each point of a call of pipewrite the bytes it has stored are the first of its own, in order, as many
    * as it counts, and all of them when it goes on to its last wakeup. */
  lemma {:induction false} WriteSoFar(run: seq<State>, labels: seq<Label>, lo: nat, hi: nat, p: nat, i: nat,
                                      src: seq<Byte>)
    requires Calling(run, labels, lo, hi, p, Enter(Write(i, src, 0)))
    ensures i < |run[hi].pipes| && p < |run[hi].procs|
    ensures WriteAt(run[hi].procs[p].pc, i, src, Put(run, labels, lo + 1, hi, p, i))
    decreases hi
  {
    hide Step, Base, WriteAt, IsObj, Added;
    if hi == lo + 1 {
      CallBegins(run, labels, lo, p, Enter(Write(i, src, 0)));
      WriteFirst(run[hi], i, src);
    } else {
      WriteSoFar(run, labels, lo, hi - 1, p, i, src);
      var s, t, put := run[hi - 1], run[hi], Put(run, labels, lo + 1, hi - 1, p, i);
      TakesStep(run, labels, hi - 1);
      if labels[hi - 1] == Goes(p) {
        Part(s, p);
        StepDoes(s, t, p);
        WriteStep(s, p, i, src, put);
      } else {
        OtherStep(s, t, labels[hi - 1], p);
        assert put + [] == put;
      }
    }
  }

  lemma WriteFirst(s: State, i: nat, src: seq<Byte>)
    requires IsObj(s, ObjOf(Write(i, src, 0)))
    ensures i < |s.pipes| && WriteAt(Enter(Write(i, src, 0)), i, src, [])
  {
  }

  lemma StepDoes(s: State, t: State, p: nat)
    requires Step(s, t, Goes(p))
    ensures Enabled(s, p) && t == Do(s, p)
  {
  }

  /** A call that returns has stored all its bytes; or it stopped before one at a full pipe that nobody will read,
    * or because the process was killed. */
  lemma {:induction false} WriteReturns(run: seq<State>, labels: seq<Label>, lo: nat, hi: nat, p: nat, i: nat,
                                        src: seq<Byte>) returns (j: nat)
    requires Calling(run, labels, lo, hi, p, Enter(Write(i, src, 0))) && run[hi].procs[p].pc.Unlock?
    requires Put(run, labels, lo + 1, hi, p, i) != src
    ensures lo < j < hi && p < |run[j].procs| && i < |run[j].pipes| && labels[j] == Goes(p)
    ensures var (s, put) := (run[j], Put(run, labels, lo + 1, hi, p, i));
      && put <= src && s.procs[p].pc == Loop(Write(i, src, |put|))
      && s.pipes[i].IsFull() && (!s.pipes[i].readopen || s.procs[p].killed)
    decreases hi
  {
    hide Step, Base, IsObj, Added;
    WriteSoFar(run, labels, lo, hi, p, i, src);
    if hi == lo + 1 { CallBegins(run, labels, lo, p, Enter(Write(i, src, 0))); }
    WriteSoFar(run, labels, lo, hi - 1, p, i, src);
    var s, t := run[hi - 1], run[hi];
    TakesStep(run, labels, hi - 1);
    if labels[hi - 1] == Goes(p) {
      Part(s, p);
      StepDoes(s, t, p);
      WriteStops(s, p, i, src, Put(run, labels, lo + 1, hi - 1, p, i));
      j := hi - 1;
    } else {
      OtherStep(s, t, labels[hi - 1], p);
      j := WriteReturns(run, labels, lo, hi - 1, p, i, src);
    }
  }

  lemma WriteStops(s: State, p: nat, i: nat, src: seq<Byte>, put: seq<Byte>)
    requires Enabled(s, p) && POk(s, p) && i < |s.pipes| && WriteAt(s.procs[p].pc, i, src, put)
    ensures var t := Do(s, p);
      && |t.procs| == |s.procs| && |t.pipes| == |s.pipes|
      && (t.procs[p].pc.Unlock? && put + Added(s.pipes[i].sent, t.pipes[i].sent) != src ==>
            && s.procs[p].pc == Loop(Write(i, src, |put|)) && put + Added(s.pipes[i].sent, t.pipes[i].sent) == put
            && s.pipes[i].IsFull() && (!s.pipes[i].readopen || s.procs[p].killed))
  {
    hide Do;
    var t := Do(s, p);
    if s.procs[p].pc.Loop? {
      LoopStep(s, p);
      assert OtherPipes(s, t, |s.pipes|) ==> SameBytes(s.pipes[i], t.pipes[i]);
    } else {
      QuietStep(s, p);
      assert SameBytes(s.pipes[i], t.pipes[i]);
    }
    assert put + [] == put;
  }

  // ---- piperead ----

  /** While p has a pipe's lock nobody else changes the pipe. */
  lemma OthersLeavePipe(s: State, t: State, l: Label, p: nat, i: nat)
    requires Base(s) && Step(s, t, l) && l != Goes(p) && i < |s.pipes| && s.pipes[i].owner == Some(p)
    ensures |t.pipes| == |s.pipes| && t.pipes[i] == s.pipes[i]
  {
    hide Do, Base;
    if l.Goes? { DoLeavesPipe(s, l.p, p, i); }
  }

  lemma DoLeavesPipe(s: State, q: nat, p: nat, i: nat)
    requires Base(s) && Enabled(s, q) && q != p && i < |s.pipes| && s.pipes[i].owner == Some(p)
    ensures |Do(s, q).pipes| == |s.pipes| && Do(s, q).pipes[i] == s.pipes[i]
  {
    hide Base, Do;
    assert POk(s, q) by { Part(s, q); }
    assert Holds(s.procs[q].pc) != Some(PipeObj(i));
    var x := s.procs[q].pc;
    if x.Loop? || x.Copy? || x.RelClear? || x.CloseSet? || x.Wakes? {
      HeldElsewhere(s, q, i);
    } else {
      LockedElsewhere(s, q, p, i);
    }
  }

  lemma HeldElsewhere(s: State, q: nat, i: nat)
    requires Enabled(s, q) && i < |s.pipes| && Holds(s.procs[q].pc) != Some(PipeObj(i))
    requires var x := s.procs[q].pc; x.Loop? || x.Copy? || x.RelClear? || x.CloseSet? || x.Wakes?
    ensures |Do(s, q).pipes| == |s.pipes| && Do(s, q).pipes[i] == s.pipes[i]
  {
    hide Stored, Taken, Next;
  }

  lemma LockedElsewhere(s: State, q: nat, p: nat, i: nat)
    requires Enabled(s, q) && i < |s.pipes| && s.pipes[i].owner == Some(p)
    requires Holds(s.procs[q].pc) != Some(PipeObj(i))
    requires var x := s.procs[q].pc; !(x.Loop? || x.Copy? || x.RelClear? || x.CloseSet? || x.Wakes?)
    ensures |Do(s, q).pipes| == |s.pipes| && Do(s, q).pipes[i] == s.pipes[i]
  {
    hide AfterLoop, Waking, WithPipe;
  }

  /** Where a read of n bytes from pipe i is when it has been given `got`. */
  predicate ReadAt(pc: Pc, i: nat, n: nat, got: seq<Byte>) {
    && |got| <= n
    && match pc
       case Unlock(o) => o == PipeObj(i)
       case Copy(j, m, g) => j == i && m == n && g == got
       case _ => (CallOf(pc) == Some(Read(i, n)) && got == []) || AfterOf(pc) == Some(DidRead(i))
  }

  /** A read that copies has found something, or the write end closed. */
  predicate HasSource(s: State, pc: Pc, i: nat, got: seq<Byte>) {
    pc.Copy? && got == [] && i < |s.pipes| ==> !(s.pipes[i].Empty() && s.pipes[i].writeopen)
  }

  lemma ReadGoesOn(x: Pc, y: Pc, i: nat, n: nat, got: seq<Byte>)
    requires ReadAt(x, i, n, got) && Follows(x, y) && y != Idle
    ensures ReadAt(y, i, n, got) && !y.Copy?
  {
  }

  lemma ReadStep(s: State, p: nat, i: nat, n: nat, got: seq<Byte>)
    requires Enabled(s, p) && POk(s, p) && i < |s.pipes| && ReadAt(s.procs[p].pc, i, n, got)
    ensures var t := Do(s, p);
      && |t.procs| == |s.procs| && |t.pipes| == |s.pipes|
      && var more := got + Added(s.pipes[i].got, t.pipes[i].got);
      t.procs[p].pc != Idle ==> ReadAt(t.procs[p].pc, i, n, more) && HasSource(t, t.procs[p].pc, i, more)
  {
    hide Do, Follows;
    var t, x := Do(s, p), s.procs[p].pc;
    if x.Loop? {
      LoopStep(s, p);
      assert SameBytes(s.pipes[i], t.pipes[i]);
      if t.procs[p].pc.Copy? { EndKept(s, p, i); }
    } else if x.Copy? {
      CopyStep(s, p);
      if !(|x.got| < x.n && !s.pipes[i].Empty()) { assert SameBytes(s.pipes[i], t.pipes[i]); }
    } else {
      QuietStep(s, p);
      assert SameBytes(s.pipes[i], t.pipes[i]);
      if t.procs[p].pc != Idle { ReadGoesOn(x, t.procs[p].pc, i, n, got); }
    }
    assert got + [] == got;
  }

  lemma EndKept(s: State, p: nat, i: nat)
    requires Enabled(s, p) && s.procs[p].pc.Loop? && s.procs[p].pc.call.Read? && i < |s.pipes|
    ensures |Do(s, p).pipes| == |s.pipes| && Do(s, p).pipes[i] == s.pipes[i]
  {
  }

  /** At each point of a call of piperead the bytes that it has been given are those it has copied, n at most. */
  lemma {:induction false} ReadSoFar(run: seq<State>, labels: seq<Label>, lo: nat, hi: nat, p: nat, i: nat, n: nat)
    requires Calling(run, labels, lo, hi, p, Enter(Read(i, n)))
    ensures i < |run[hi].pipes| && p < |run[hi].procs|
    ensures var (s, got) := (run[hi], Given(run, labels, lo + 1, hi, p, i));
      ReadAt(s.procs[p].pc, i, n, got) && HasSource(s, s.procs[p].pc, i, got)
    decreases hi
  {
    hide Step, Base, ReadAt, IsObj, Added, HasSource;
    if hi == lo + 1 {
      CallBegins(run, labels, lo, p, Enter(Read(i, n)));
      ReadFirst(run[hi], i, n);
    } else {
      ReadSoFar(run, labels, lo, hi - 1, p, i, n);
      var s, t, got := run[hi - 1], run[hi], Given(run, labels, lo + 1, hi - 1, p, i);
      TakesStep(run, labels, hi - 1);
      Part(s, p);
      if labels[hi - 1] == Goes(p) {
        StepDoes(s, t, p);
        ReadStep(s, p, i, n, got);
      } else {
        OtherStep(s, t, labels[hi - 1], p);
        assert got + [] == got;
        SourceKept(s, t, labels[hi - 1], p, i, n, got);
      }
    }
  }

  lemma ReadFirst(s: State, i: nat, n: nat)
    requires IsObj(s, ObjOf(Read(i, n)))
    ensures i < |s.pipes| && ReadAt(Enter(Read(i, n)), i, n, []) && HasSource(s, Enter(Read(i, n)), i, [])
  {
  }

  lemma SourceKept(s: State, t: State, l: Label, p: nat, i: nat, n: nat, got: seq<Byte>)
    requires Base(s) && Step(s, t, l) && l != Goes(p) && p < |s.procs| == |t.procs| && POk(s, p)
    requires ReadAt(s.procs[p].pc, i, n, got) && HasSource(s, s.procs[p].pc, i, got) && i < |s.pipes|
    requires t.procs[p].pc == s.procs[p].pc
    ensures HasSource(t, t.procs[p].pc, i, got)
  {
    hide Base, Step;
    if s.procs[p].pc.Copy? { OthersLeavePipe(s, t, l, p, i); }
  }

  /** The last step of a read that has been given `got`. */
  predicate ReadEnds(s: State, p: nat, i: nat, n: nat, got: seq<Byte>) {
    && p < |s.procs| && i < |s.pipes|
    && var (x, pc) := (s.pipes[i], s.procs[p].pc);
    || (pc == Copy(i, n, got) && (|got| == n || x.Empty()) && (got == [] && n > 0 ==> x.Empty() && !x.writeopen))
    || (pc == Loop(Read(i, n)) && got == [] && x.Empty() && x.writeopen && s.procs[p].killed)
  }

  /** A call that has done its copying stopped it with n bytes or an empty pipe; without any, only if the write end
    * was closed, or before copying, if the process was killed. */
  lemma {:induction false} ReadReturns(run: seq<State>, labels: seq<Label>, lo: nat, hi: nat, p: nat, i: nat, n: nat)
    returns (j: nat)
    requires Calling(run, labels, lo, hi, p, Enter(Read(i, n)))
    requires run[hi].procs[p].pc.Unlock? || AfterOf(run[hi].procs[p].pc) == Some(DidRead(i))
    ensures lo < j < hi && p < |run[j].procs| && i < |run[j].pipes| && labels[j] == Goes(p)
    ensures ReadEnds(run[j], p, i, n, Given(run, labels, lo + 1, hi, p, i))
    decreases hi
  {
    hide Step, Base, IsObj, Added, ReadAt, HasSource, ReadEnds;
    if hi == lo + 1 { CallBegins(run, labels, lo, p, Enter(Read(i, n))); }
    ReadSoFar(run, labels, lo, hi - 1, p, i, n);
    TakesStep(run, labels, hi - 1);
    if labels[hi - 1] == Goes(p) {
      ReadLast(run, labels, lo, hi - 1, p, i, n);
      if run[hi - 1].procs[p].pc.Copy? || run[hi - 1].procs[p].pc.Loop? {
        j := hi - 1;
      } else {
        j := ReadReturns(run, labels, lo, hi - 1, p, i, n);
      }
    } else {
      OtherStep(run[hi - 1], run[hi], labels[hi - 1], p);
      assert Given(run, labels, lo + 1, hi - 1, p, i) + [] == Given(run, labels, lo + 1, hi - 1, p, i);
      j := ReadReturns(run, labels, lo, hi - 1, p, i, n);
    }
  }

  /** The step of p that brings it to its last wakeup or its return, or goes on from there. */
  lemma ReadLast(run: seq<State>, labels: seq<Label>, lo: nat, k: nat, p: nat, i: nat, n: nat)
    requires Calling(run, labels, lo, k, p, Enter(Read(i, n))) && k + 1 < |run| && labels[k] == Goes(p)
    requires p < |run[k + 1].procs|
    requires run[k + 1].procs[p].pc.Unlock? || AfterOf(run[k + 1].procs[p].pc) == Some(DidRead(i))
    ensures Given(run, labels, lo + 1, k + 1, p, i) == Given(run, labels, lo + 1, k, p, i)
    ensures if run[k].procs[p].pc.Copy? || run[k].procs[p].pc.Loop? then
              ReadEnds(run[k], p, i, n, Given(run, labels, lo + 1, k, p, i))
            else AfterOf(run[k].procs[p].pc) == Some(DidRead(i))
  {
    hide Step, Base, IsObj, Added, ReadAt, HasSource, ReadEnds;
    ReadSoFar(run, labels, lo, k, p, i, n);
    TakesStep(run, labels, k);
    Part(run[k], p);
    StepDoes(run[k], run[k + 1], p);
    ReadStops(run[k], p, i, n, Given(run, labels, lo + 1, k, p, i));
  }

  lemma ReadStops(s: State, p: nat, i: nat, n: nat, got: seq<Byte>)
    requires Enabled(s, p) && POk(s, p) && i < |s.pipes| && ReadAt(s.procs[p].pc, i, n, got)
    requires HasSource(s, s.procs[p].pc, i, got)
    requires |Do(s, p).procs| == |s.procs|
    requires var y := Do(s, p).procs[p].pc; y.Unlock? || AfterOf(y) == Some(DidRead(i))
    ensures |Do(s, p).pipes| == |s.pipes| && got + Added(s.pipes[i].got, Do(s, p).pipes[i].got) == got
    ensures if s.procs[p].pc.Copy? || s.procs[p].pc.Loop? then ReadEnds(s, p, i, n, got)
            else AfterOf(s.procs[p].pc) == Some(DidRead(i))
  {
    hide Do;
    var t := Do(s, p);
    if s.procs[p].pc.Loop? {
      LoopStep(s, p);
      assert SameBytes(s.pipes[i], t.pipes[i]);
    } else if s.procs[p].pc.Copy? {
      CopyStep(s, p);
      assert OtherPipes(s, t, |s.pipes|) ==> SameBytes(s.pipes[i], t.pipes[i]);
    } else {
      QuietStep(s, p);
      assert SameBytes(s.pipes[i], t.pipes[i]);
    }
    assert got + [] == got;
  }

  // ---- acquiresleep and releasesleep ----

  /** Where an acquiresleep of lock i is. */
  predicate AcquireAt(x: Proc, i: nat) {
    if x.pc.Unlock? then x.pc.obj == LockObj(i) && i in x.held else CallOf(x.pc) == Some(Acquire(i))
  }

  /** And a releasesleep. */
  predicate ReleaseAt(x: Proc, i: nat) {
    match x.pc
    case RelEnter(j) => j == i
    case RelClear(j) => j == i
    case Unlock(o) => o == LockObj(i) && i !in x.held
    case _ => AfterOf(x.pc) == Some(Released(i)) && i !in x.held
  }

  lemma AcquireStep(s: State, p: nat, i: nat)
    requires Enabled(s, p) && POk(s, p) && AcquireAt(s.procs[p], i)
    ensures |Do(s, p).procs| == |s.procs|
    ensures var y := Do(s, p).procs[p]; if y.pc == Idle then i in y.held else AcquireAt(y, i)
  {
    hide Do;
    if s.procs[p].pc.Loop? { LoopStep(s, p); } else { QuietStep(s, p); }
  }

  lemma ReleaseStep(s: State, p: nat, i: nat)
    requires Enabled(s, p) && POk(s, p) && ReleaseAt(s.procs[p], i)
    ensures |Do(s, p).procs| == |s.procs|
    ensures var y := Do(s, p).procs[p]; if y.pc == Idle then i !in y.held else ReleaseAt(y, i)
  {
    hide Do;
    QuietStep(s, p);
    if s.procs[p].pc.RelClear? { ClearsLock(s, p); }
  }

  /** The step that releases the sleep-lock. */
  lemma ClearsLock(s: State, p: nat)
    requires Enabled(s, p) && POk(s, p) && s.procs[p].pc.RelClear?
    ensures var (t, i) := (Do(s, p), s.procs[p].pc.i);
      && i < |t.locks| && !t.locks[i].locked && t.locks[i].holder == None
      && |t.procs| == |s.procs| && t.procs[p].held == s.procs[p].held - {i}
  {
  }

  lemma {:induction false} AcquireSoFar(run: seq<State>, labels: seq<Label>, lo: nat, hi: nat, p: nat, i: nat)
    requires Calling(run, labels, lo, hi, p, Enter(Acquire(i)))
    ensures p < |run[hi].procs| && AcquireAt(run[hi].procs[p], i)
    decreases hi
  {
    hide Step, Base;
    if hi == lo + 1 {
      CallBegins(run, labels, lo, p, Enter(Acquire(i)));
    } else {
      AcquireSoFar(run, labels, lo, hi - 1, p, i);
      var s, t := run[hi - 1], run[hi];
      TakesStep(run, labels, hi - 1);
      if labels[hi - 1] == Goes(p) {
        Part(s, p);
        StepDoes(s, t, p);
        AcquireStep(s, p, i);
      } else {
        OtherStep(s, t, labels[hi - 1], p);
      }
    }
  }

  /** A process that returns from acquiresleep holds the sleep-lock, alone. */
  lemma AcquireReturns(run: seq<State>, labels: seq<Label>, lo: nat, hi: nat, p: nat, i: nat)
    requires Calling(run, labels, lo, hi, p, Enter(Acquire(i))) && hi + 1 < |run| && p < |run[hi + 1].procs|
    requires run[hi + 1].procs[p].pc == Idle
    ensures var s := run[hi + 1];
      i in s.procs[p].held && i < |s.locks| && s.locks[i].locked && s.locks[i].holder == Some(p)
  {
    hide Step, Base;
    AcquireSoFar(run, labels, lo, hi, p, i);
    TakesStep(run, labels, hi);
    if labels[hi] == Goes(p) {
      Part(run[hi], p);
      StepDoes(run[hi], run[hi + 1], p);
      AcquireStep(run[hi], p, i);
    } else {
      OtherStep(run[hi], run[hi + 1], labels[hi], p);
    }
    MutualExclusion(run, labels, hi + 1, p, p, i);
  }

  lemma {:induction false} ReleaseSoFar(run: seq<State>, labels: seq<Label>, lo: nat, hi: nat, p: nat, i: nat)
    requires Calling(run, labels, lo, hi, p, RelEnter(i))
    ensures p < |run[hi].procs| && ReleaseAt(run[hi].procs[p], i)
    decreases hi
  {
    hide Step, Base;
    if hi == lo + 1 {
      CallBegins(run, labels, lo, p, RelEnter(i));
    } else {
      ReleaseSoFar(run, labels, lo, hi - 1, p, i);
      var s, t := run[hi - 1], run[hi];
      TakesStep(run, labels, hi - 1);
      if labels[hi - 1] == Goes(p) {
        Part(s, p);
        StepDoes(s, t, p);
        ReleaseStep(s, p, i);
      } else {
        OtherStep(s, t, labels[hi - 1], p);
      }
    }
  }

  /** One that returns from releasesleep does not hold it. */
  lemma ReleaseReturns(run: seq<State>, labels: seq<Label>, lo: nat, hi: nat, p: nat, i: nat)
    requires Calling(run, labels, lo, hi, p, RelEnter(i)) && hi + 1 < |run| && p < |run[hi + 1].procs|
    requires run[hi + 1].procs[p].pc == Idle
    ensures i !in run[hi + 1].procs[p].held && (i < |run[hi + 1].locks| ==> run[hi + 1].locks[i].holder != Some(p))
  {
    hide Step, Base;
    ReleaseSoFar(run, labels, lo, hi, p, i);
    TakesStep(run, labels, hi);
    if labels[hi] == Goes(p) {
      Part(run[hi], p);
      StepDoes(run[hi], run[hi + 1], p);
      ReleaseStep(run[hi], p, i);
    } else {
      OtherStep(run[hi], run[hi + 1], labels[hi], p);
    }
    RunKeeps(run, labels, hi + 1);
    if i < |run[hi + 1].locks| { HolderHolds(run[hi + 1], i); }
  }

  lemma HolderHolds(s: State, i: nat)
    requires Base(s) && i < |s.locks|
    ensures LockOk(s, i)
  {
  }

  // ---- pipeclose ----

  predicate Open(s: State, i: nat, writable: bool) {
    i < |s.pipes| && if writable then s.pipes[i].writeopen else s.pipes[i].readopen
  }

  predicate Closes(s: State, l: Label, i: nat, writable: bool) {
    l.Goes? && l.p < |s.procs| && s.procs[l.p].pc == CloseSet(i, writable)
  }

  /** An end of a pipe is closed by a call of pipeclose for it, by nothing else, and for good. */
  lemma EndsStep(s: State, t: State, l: Label, i: nat, writable: bool)
    requires Step(s, t, l) && i < |s.pipes|
    ensures Open(t, i, writable) <==> Open(s, i, writable) && !Closes(s, l, i, writable)
  {
    hide Do;
    if l.Goes? { DoEnds(s, l.p, i, writable); }
  }

  lemma DoEnds(s: State, p: nat, i: nat, writable: bool)
    requires Enabled(s, p) && i < |s.pipes|
    ensures Open(Do(s, p), i, writable) <==> Open(s, i, writable) && !Closes(s, Goes(p), i, writable)
  {
    hide Do, Open, Closes;
    var x := s.procs[p].pc;
    if x.Loop? || x.Copy? {
      LoopEnds(s, p, i, writable);
    } else if x.Wakes? || x.CloseSet? || x.RelClear? {
      DataEnds(s, p, i, writable);
    } else {
      LockEnds(s, p, i, writable);
    }
  }

  lemma LoopEnds(s: State, p: nat, i: nat, writable: bool)
    requires Enabled(s, p) && i < |s.pipes| && (s.procs[p].pc.Loop? || s.procs[p].pc.Copy?)
    ensures Open(Do(s, p), i, writable) <==> Open(s, i, writable) && !Closes(s, Goes(p), i, writable)
  {
    hide Next;
  }

  lemma DataEnds(s: State, p: nat, i: nat, writable: bool)
    requires Enabled(s, p) && i < |s.pipes|
    requires s.procs[p].pc.Wakes? || s.procs[p].pc.CloseSet? || s.procs[p].pc.RelClear?
    ensures Open(Do(s, p), i, writable) <==> Open(s, i, writable) && !Closes(s, Goes(p), i, writable)
  {
    hide AfterLoop, Taken;
  }

  lemma LockEnds(s: State, p: nat, i: nat, writable: bool)
    requires Enabled(s, p) && i < |s.pipes|
    requires var x := s.procs[p].pc; !(x.Loop? || x.Copy? || x.Wakes? || x.CloseSet? || x.RelClear?)
    ensures Open(Do(s, p), i, writable) <==> Open(s, i, writable) && !Closes(s, Goes(p), i, writable)
  {
    hide AfterLoop, Taken, Waking, WithPipe;
  }

  /** Where a pipeclose is. */
  predicate CloseAt(s: State, pc: Pc, i: nat, writable: bool) {
    i < |s.pipes| &&
    match pc
    case CloseEnter(j, w) => j == i && w == writable
    case CloseSet(j, w) => j == i && w == writable
    case Unlock(o) => o == PipeObj(i) && !Open(s, i, writable)
    case _ => AfterOf(pc) == Some(if writable then ClosedWrite(i) else ClosedRead(i)) && !Open(s, i, writable)
  }

  lemma CloseStep(s: State, p: nat, i: nat, writable: bool)
    requires Enabled(s, p) && POk(s, p) && CloseAt(s, s.procs[p].pc, i, writable)
    ensures var t := Do(s, p);
      && |t.procs| == |s.procs| && |t.pipes| == |s.pipes|
      && if t.procs[p].pc == Idle then !Open(t, i, writable) else CloseAt(t, t.procs[p].pc, i, writable)
  {
    hide Do;
    QuietStep(s, p);
    DoEnds(s, p, i, writable);
  }

  lemma {:induction false} CloseSoFar(run: seq<State>, labels: seq<Label>, lo: nat, hi: nat, p: nat, i: nat,
                                      writable: bool)
    requires Calling(run, labels, lo, hi, p, CloseEnter(i, writable))
    ensures p < |run[hi].procs| && CloseAt(run[hi], run[hi].procs[p].pc, i, writable)
    decreases hi
  {
    hide Step, Base;
    if hi == lo + 1 {
      CallBegins(run, labels, lo, p, CloseEnter(i, writable));
    } else {
      CloseSoFar(run, labels, lo, hi - 1, p, i, writable);
      var s, t := run[hi - 1], run[hi];
      TakesStep(run, labels, hi - 1);
      if labels[hi - 1] == Goes(p) {
        Part(s, p);
        StepDoes(s, t, p);
        CloseStep(s, p, i, writable);
      } else {
        OtherStep(s, t, labels[hi - 1], p);
        EndsStep(s, t, labels[hi - 1], i, writable);
      }
    }
  }

  /** After pipeclose the end is closed, for good. */
  lemma {:induction false} CloseReturns(run: seq<State>, labels: seq<Label>, lo: nat, hi: nat, p: nat, i: nat,
                                        writable: bool, k: nat)
    requires Calling(run, labels, lo, hi, p, CloseEnter(i, writable)) && hi < k < |run|
    requires p < |run[hi + 1].procs| && run[hi + 1].procs[p].pc == Idle
    ensures i < |run[k].pipes| && !Open(run[k], i, writable)
    decreases k
  {
    hide Step, Base;
    TakesStep(run, labels, k - 1);
    if k == hi + 1 {
      CloseSoFar(run, labels, lo, hi, p, i, writable);
      if labels[hi] == Goes(p) {
        Part(run[hi], p);
        StepDoes(run[hi], run[k], p);
        CloseStep(run[hi], p, i, writable);
      } else {
        OtherStep(run[hi], run[k], labels[hi], p);
      }
    } else {
      CloseReturns(run, labels, lo, hi, p, i, writable, k - 1);
      EndsStep(run[k - 1], run[k], labels[k - 1], i, writable);
    }
  }

  // ---- kill ----

  ghost predicate SameKilled(s: State, t: State) {
    |t.procs| == |s.procs| && forall q: nat :: q < |s.procs| ==> t.procs[q].killed == s.procs[q].killed
  }

  lemma DoKilled(s: State, p: nat)
    requires Enabled(s, p)
    ensures SameKilled(s, Do(s, p))
  {
    hide Do, SameKilled;
    var x := s.procs[p].pc;
    if x.Loop? {
      LoopKilled(s, p);
    } else if x.Copy? || x.RelClear? || x.CloseSet? || x.Wakes? {
      DataKilled(s, p);
    } else if x.SleepSet? || x.Tidy? || x.WakePt? || x.WakeRel? || x.SleepPt? || x.Out? {
      SwitchKilled(s, p);
    } else {
      LockKilled(s, p);
    }
  }

  lemma LoopKilled(s: State, p: nat)
    requires Enabled(s, p) && s.procs[p].pc.Loop?
    ensures SameKilled(s, Do(s, p))
  {
    hide Stored;
  }

  lemma DataKilled(s: State, p: nat)
    requires Enabled(s, p)
    requires var x := s.procs[p].pc; x.Copy? || x.RelClear? || x.CloseSet? || x.Wakes?
    ensures SameKilled(s, Do(s, p))
  {
    hide AfterLoop, Taken, Next;
  }

  lemma LockKilled(s: State, p: nat)
    requires Enabled(s, p)
    requires var x := s.procs[p].pc; x.Enter? || x.Back? || x.RelEnter? || x.CloseEnter? || x.SleepRel? || x.Unlock?
    ensures SameKilled(s, Do(s, p))
  {
    hide AfterLoop, Waking, WithPipe, Taken, AfterWake;
  }

  lemma SwitchKilled(s: State, p: nat)
    requires Enabled(s, p)
    requires var x := s.procs[p].pc; x.SleepSet? || x.Tidy? || x.WakePt? || x.WakeRel? || x.SleepPt? || x.Out?
    ensures SameKilled(s, Do(s, p))
  {
    hide AfterLoop, Waking, WithPipe, WithOwner, Taken;
  }

  /** A process that is killed is awake then, and killed for good. */
  lemma {:induction false} KilledForGood(run: seq<State>, labels: seq<Label>, k: nat, hi: nat, q: nat)
    requires IsRun(run, labels) && k < hi < |run| && labels[k] == Kills(q)
    ensures q < |run[k + 1].procs| && !run[k + 1].procs[q].sleeping
    ensures q < |run[hi].procs| && run[hi].procs[q].killed
    decreases hi
  {
    hide Base, Do;
    TakesStep(run, labels, hi - 1);
    if hi == k + 1 {
    } else {
      KilledForGood(run, labels, k, hi - 1, q);
      if labels[hi - 1].Goes? { DoKilled(run[hi - 1], labels[hi - 1].p); }
    }
  }
}
