/** sleep and wakeup under sleep-locks and pipes, as steps of many processes.
  *
  * A step is what happens between two points where another process can see a difference: taking or
  * releasing a spinlock, one loop test, one byte copied, one call of wakeup1.  A process that goes
  * to sleep hands ptable.lock to the scheduler, and gets it back from there when it is resumed. */
module Sleep {
  const PIPESIZE: nat := 512
  const WRAP: nat := 0x1_0000_0000

  type Byte = nat

  datatype Option<T> = None | Some(value: T)

  /** What a process can sleep on: a sleep-lock, or a pipe's read or write counter. */
  datatype Chan = OnLock(i: nat) | OnRead(i: nat) | OnWrite(i: nat)

  /** What a spinlock protects. */
  datatype Obj = LockObj(i: nat) | PipeObj(i: nat)

  /** The calls that may sleep, with how far they got. */
  datatype Call = Acquire(i: nat) | Read(i: nat, n: nat) | Write(i: nat, src: seq<Byte>, k: nat)

  /** What a call of wakeup is for, and so what comes after it. */
  datatype After = Released(i: nat) | Wrote(i: nat) | Full(i: nat, src: seq<Byte>, k: nat) | DidRead(i: nat)
                 | ClosedWrite(i: nat) | ClosedRead(i: nat)

  datatype Pc =
    | Idle
    | Enter(call: Call)                    // about to acquire the object's spinlock
    | Loop(call: Call)                     // holds it, at the loop test
    | Copy(i: nat, n: nat, got: seq<Byte>) // piperead's copying loop
    | SleepPt(call: Call)                  // sleep: about to acquire ptable.lock
    | SleepRel(call: Call)                 // about to release the object's spinlock
    | SleepSet(call: Call)                 // about to set chan and state and switch away
    | Out(call: Call)                      // switched away
    | Tidy(call: Call)                     // back, with ptable.lock
    | Back(call: Call)                     // about to reacquire the object's spinlock
    | WakePt(after: After)                 // wakeup: about to acquire ptable.lock
    | Wakes(after: After)
    | WakeRel(after: After)
    | RelEnter(i: nat)                     // releasesleep
    | RelClear(i: nat)
    | CloseEnter(i: nat, writable: bool)   // pipeclose
    | CloseSet(i: nat, writable: bool)
    | Unlock(obj: Obj)                     // about to release the spinlock and return

  /** held is history: the sleep-locks this process has acquired and not released. */
  datatype Proc = Proc(pc: Pc, sleeping: bool, chan: Option<Chan>, killed: bool, held: set<nat>)

  datatype SleepLock = SleepLock(owner: Option<nat>, locked: bool, holder: Option<nat>)

  /** sent and got are history: every byte stored and every byte delivered; quiet says whether a
    * byte was stored since the last wakeup of the readers. */
  datatype Pipe = Pipe(owner: Option<nat>, data: seq<Byte>, nread: nat, nwrite: nat, readopen: bool, writeopen: bool,
                       sent: seq<Byte>, got: seq<Byte>, quiet: bool)
  {
    predicate Empty() {
      nread == nwrite
    }

    predicate IsFull() {
      nwrite == (nread + PIPESIZE) % WRAP
    }
  }

  datatype Holder = Nobody | ByProc(p: nat) | BySched

  datatype State = State(procs: seq<Proc>, locks: seq<SleepLock>, pipes: seq<Pipe>, pt: Holder)

  // ---- reading a program counter ----

  function ObjOf(c: Call): Obj {
    match c
    case Acquire(i) => LockObj(i)
    case Read(i, _) => PipeObj(i)
    case Write(i, _, _) => PipeObj(i)
  }

  function ChanOf(c: Call): Chan {
    match c
    case Acquire(i) => OnLock(i)
    case Read(i, _) => OnRead(i)
    case Write(i, _, _) => OnWrite(i)
  }

  function Woken(a: After): Chan {
    match a
    case Released(i) => OnLock(i)
    case Wrote(i) => OnRead(i)
    case Full(i, _, _) => OnRead(i)
    case DidRead(i) => OnWrite(i)
    case ClosedWrite(i) => OnRead(i)
    case ClosedRead(i) => OnWrite(i)
  }

  function Guards(ch: Chan): Obj {
    match ch
    case OnLock(i) => LockObj(i)
    case OnRead(i) => PipeObj(i)
    case OnWrite(i) => PipeObj(i)
  }

  /** The spinlock a process holds at pc. */
  function Holds(pc: Pc): Option<Obj> {
    match pc
    case Loop(c) => Some(ObjOf(c))
    case Copy(i, _, _) => Some(PipeObj(i))
    case SleepPt(c) => Some(ObjOf(c))
    case SleepRel(c) => Some(ObjOf(c))
    case WakePt(a) => Some(Guards(Woken(a)))
    case Wakes(a) => Some(Guards(Woken(a)))
    case WakeRel(a) => Some(Guards(Woken(a)))
    case RelClear(i) => Some(LockObj(i))
    case CloseSet(i, _) => Some(PipeObj(i))
    case Unlock(o) => Some(o)
    case _ => None
  }

  predicate HoldsPt(pc: Pc) {
    pc.SleepRel? || pc.SleepSet? || pc.Tidy? || pc.Wakes? || pc.WakeRel?
  }

  /** Past the test of its loop and on the way to sleep, or asleep. */
  predicate Committed(x: Proc, ch: Chan) {
    match x.pc
    case SleepPt(c) => ChanOf(c) == ch
    case SleepRel(c) => ChanOf(c) == ch
    case SleepSet(c) => ChanOf(c) == ch
    case Out(c) => x.sleeping && ChanOf(c) == ch
    case WakePt(a) => a.Full? && ch == OnWrite(a.i)
    case Wakes(a) => a.Full? && ch == OnWrite(a.i)
    case WakeRel(a) => a.Full? && ch == OnWrite(a.i)
    case _ => false
  }

  /** Inside piperead, or about to be. */
  predicate Reads(pc: Pc, i: nat) {
    match pc
    case Enter(c) => c.Read? && c.i == i
    case Loop(c) => c.Read? && c.i == i
    case SleepPt(c) => c.Read? && c.i == i
    case SleepRel(c) => c.Read? && c.i == i
    case SleepSet(c) => c.Read? && c.i == i
    case Out(c) => c.Read? && c.i == i
    case Tidy(c) => c.Read? && c.i == i
    case Back(c) => c.Read? && c.i == i
    case Copy(j, _, _) => j == i
    case _ => false
  }

  // ---- reading a state ----

  predicate IsObj(s: State, o: Obj) {
    match o
    case LockObj(i) => i < |s.locks|
    case PipeObj(i) => i < |s.pipes|
  }

  function Owner(s: State, o: Obj): Option<nat> {
    match o
    case LockObj(i) => if i < |s.locks| then s.locks[i].owner else None
    case PipeObj(i) => if i < |s.pipes| then s.pipes[i].owner else None
  }

  /** There is reason to sleep on ch. */
  predicate Waiting(s: State, ch: Chan) {
    match ch
    case OnLock(i) => i < |s.locks| && s.locks[i].locked
    case OnRead(i) => i < |s.pipes| && s.pipes[i].Empty() && s.pipes[i].writeopen
    case OnWrite(i) => i < |s.pipes| && s.pipes[i].IsFull() && s.pipes[i].readopen
  }

  /** A process at pc, holding the object's lock, will still call wakeup1(ch). */
  predicate WillWake(pc: Pc, ch: Chan, quiet: bool) {
    match pc
    case WakePt(a) => Woken(a) == ch
    case Wakes(a) => Woken(a) == ch
    case Loop(c) => c.Write? && ch == OnRead(c.i) && !quiet
    case Copy(i, _, got) => ch == OnWrite(i) && got != []
    case _ => false
  }

  predicate Quiet(s: State, ch: Chan) {
    match ch
    case OnRead(i) => i < |s.pipes| && s.pipes[i].quiet
    case _ => false
  }

  predicate Pending(s: State, ch: Chan) {
    var o := Owner(s, Guards(ch));
    o.Some? && o.value < |s.procs| && WillWake(s.procs[o.value].pc, ch, Quiet(s, ch))
  }

  // ---- steps ----

  function WithPc(s: State, p: nat, pc: Pc): State
    requires p < |s.procs|
  {
    s.(procs := s.procs[p := s.procs[p].(pc := pc)])
  }

  function WithOwner(s: State, o: Obj, w: Option<nat>): State {
    match o
    case LockObj(i) => if i < |s.locks| then s.(locks := s.locks[i := s.locks[i].(owner := w)]) else s
    case PipeObj(i) => if i < |s.pipes| then s.(pipes := s.pipes[i := s.pipes[i].(owner := w)]) else s
  }

  function WithPipe(s: State, i: nat, x: Pipe): State {
    if i < |s.pipes| then s.(pipes := s.pipes[i := x]) else s
  }

  /** wakeup1 */
  function Wakeup1(procs: seq<Proc>, ch: Chan): (r: seq<Proc>)
    ensures |r| == |procs|
    ensures forall q :: 0 <= q < |r| ==>
              r[q] == if procs[q].sleeping && procs[q].chan == Some(ch) then procs[q].(sleeping := false) else procs[q]
  {
    seq(|procs|, q requires 0 <= q < |procs| =>
      if procs[q].sleeping && procs[q].chan == Some(ch) then procs[q].(sleeping := false) else procs[q])
  }

  function Stored(x: Pipe, b: Byte): Pipe {
    x.(data := if |x.data| == PIPESIZE then x.data[x.nwrite % PIPESIZE := b] else x.data,
       nwrite := (x.nwrite + 1) % WRAP, sent := x.sent + [b], quiet := false)
  }

  function Next(x: Pipe): Byte {
    if |x.data| == PIPESIZE then x.data[x.nread % PIPESIZE] else 0
  }

  function Taken(x: Pipe): Pipe {
    x.(nread := (x.nread + 1) % WRAP, got := x.got + [Next(x)])
  }

  predicate ClosesRead(pc: Pc, i: nat) {
    (pc.CloseEnter? || pc.CloseSet?) && pc.i == i && !pc.writable
  }

  predicate NobodyReads(s: State, i: nat) {
    forall q :: 0 <= q < |s.procs| ==> !Reads(s.procs[q].pc, i)
  }

  predicate NobodyClosesRead(s: State, i: nat) {
    forall q :: 0 <= q < |s.procs| ==> !ClosesRead(s.procs[q].pc, i)
  }

  /** A process begins a call.  It releases only what it holds; it reads only through an end that is
    * open; and an end is closed only after the last call through it has returned. */
  predicate Start(s: State, t: State, p: nat, pc: Pc) {
    && p < |s.procs| && s.procs[p].pc == Idle && t == WithPc(s, p, pc)
    && match pc
       case Enter(c) =>
         && IsObj(s, ObjOf(c)) && (c.Write? ==> c.k == 0)
         && (c.Read? ==> s.pipes[c.i].readopen && NobodyClosesRead(s, c.i))
       case RelEnter(i) => i in s.procs[p].held
       case CloseEnter(i, writable) => i < |s.pipes| && (!writable ==> NobodyReads(s, i))
       case _ => false
  }

  /** A process that is in a call can take its next step. */
  predicate Enabled(s: State, p: nat) {
    && p < |s.procs|
    && match s.procs[p].pc
       case Idle => false
       case Enter(c) => Owner(s, ObjOf(c)) == None
       case Back(c) => Owner(s, ObjOf(c)) == None
       case RelEnter(i) => Owner(s, LockObj(i)) == None
       case CloseEnter(i, _) => Owner(s, PipeObj(i)) == None
       case SleepPt(_) => s.pt == Nobody
       case WakePt(_) => s.pt == Nobody
       case Out(_) => !s.procs[p].sleeping && s.pt == BySched
       case _ => true
  }

  function AfterLoop(s: State, p: nat, c: Call): State
    requires p < |s.procs| && IsObj(s, ObjOf(c))
  {
    var x := s.procs[p];
    match c
    case Acquire(i) =>
      if s.locks[i].locked then WithPc(s, p, SleepPt(c))
      else s.(locks := s.locks[i := s.locks[i].(locked := true, holder := Some(p))],
              procs := s.procs[p := x.(pc := Unlock(LockObj(i)), held := x.held + {i})])
    case Read(i, n) =>
      if s.pipes[i].Empty() && s.pipes[i].writeopen then
        WithPc(s, p, if x.killed then Unlock(PipeObj(i)) else SleepPt(c))
      else WithPc(s, p, Copy(i, n, []))
    case Write(i, src, k) =>
      if k >= |src| then WithPc(s, p, WakePt(Wrote(i)))
      else if s.pipes[i].IsFull() then
        WithPc(s, p, if !s.pipes[i].readopen || x.killed then Unlock(PipeObj(i)) else WakePt(Full(i, src, k)))
      else WithPc(WithPipe(s, i, Stored(s.pipes[i], src[k])), p, Loop(Write(i, src, k + 1)))
  }

  function AfterWake(a: After): Pc {
    match a
    case Full(i, src, k) => SleepPt(Write(i, src, k))
    case _ => Unlock(Guards(Woken(a)))
  }

  /** wakeup1, remembering when a pipe's readers have been told of what was stored. */
  function Waking(s: State, ch: Chan): State {
    var t := s.(procs := Wakeup1(s.procs, ch));
    if ch.OnRead? && ch.i < |s.pipes| then WithPipe(t, ch.i, t.pipes[ch.i].(quiet := true)) else t
  }

  /** The step of a process in a call. */
  function Do(s: State, p: nat): State
    requires Enabled(s, p)
  {
    var x := s.procs[p];
    match x.pc
    case Idle => s
    case Enter(c) => WithPc(WithOwner(s, ObjOf(c), Some(p)), p, Loop(c))
    case Back(c) => WithPc(WithOwner(s, ObjOf(c), Some(p)), p, Loop(c))
    case RelEnter(i) => WithPc(WithOwner(s, LockObj(i), Some(p)), p, RelClear(i))
    case CloseEnter(i, w) => WithPc(WithOwner(s, PipeObj(i), Some(p)), p, CloseSet(i, w))
    case Loop(c) => if IsObj(s, ObjOf(c)) then AfterLoop(s, p, c) else s
    case Copy(i, n, got) =>
      if i >= |s.pipes| then s
      else if |got| < n && !s.pipes[i].Empty() then
        WithPc(WithPipe(s, i, Taken(s.pipes[i])), p, Copy(i, n, got + [Next(s.pipes[i])]))
      else WithPc(s, p, WakePt(DidRead(i)))
    case SleepPt(c) => WithPc(s.(pt := ByProc(p)), p, SleepRel(c))
    case SleepRel(c) => WithPc(WithOwner(s, ObjOf(c), None), p, SleepSet(c))
    case SleepSet(c) =>
      s.(pt := BySched, procs := s.procs[p := x.(pc := Out(c), sleeping := true, chan := Some(ChanOf(c)))])
    case Out(c) => WithPc(s.(pt := ByProc(p)), p, Tidy(c))
    case Tidy(c) => s.(pt := Nobody, procs := s.procs[p := x.(pc := Back(c), chan := None)])
    case WakePt(a) => WithPc(s.(pt := ByProc(p)), p, Wakes(a))
    case Wakes(a) => WithPc(Waking(s, Woken(a)), p, WakeRel(a))
    case WakeRel(a) => WithPc(s.(pt := Nobody), p, AfterWake(a))
    case RelClear(i) =>
      if i >= |s.locks| then s
      else s.(locks := s.locks[i := s.locks[i].(locked := false, holder := None)],
         procs := s.procs[p := x.(pc := WakePt(Released(i)), held := x.held - {i})])
    case CloseSet(i, w) =>
      if i >= |s.pipes| then s
      else var y := s.pipes[i]; WithPc(WithPipe(s, i, if w then y.(writeopen := false) else y.(readopen := false)), p,
             WakePt(if w then ClosedWrite(i) else ClosedRead(i)))
    case Unlock(o) => WithPc(WithOwner(s, o, None), p, Idle)
  }

  /** kill: the victim is marked, and woken if it sleeps. */
  predicate Kill(s: State, t: State, q: nat) {
    && s.pt == Nobody && q < |s.procs|
    && t == s.(procs := s.procs[q := s.procs[q].(killed := true, sleeping := false)])
  }

  /** The scheduler takes or releases ptable.lock. */
  predicate Sched(s: State, t: State) {
    || (s.pt == Nobody && t == s.(pt := BySched))
    || (s.pt == BySched && t == s.(pt := Nobody))
  }

  // ---- the invariant ----

  /** The bytes in the ring, oldest first. */
  function Ring(x: Pipe): seq<Byte>
    requires |x.data| == PIPESIZE
  {
    seq((x.nwrite + WRAP - x.nread) % WRAP, j requires 0 <= j => x.data[(x.nread + j) % PIPESIZE])
  }

  /** What was stored is what was delivered followed by what is in the ring. */
  predicate PipeOk(x: Pipe) {
    && |x.data| == PIPESIZE && x.nread < WRAP && x.nwrite < WRAP
    && |Ring(x)| <= PIPESIZE
    && x.sent == x.got + Ring(x)
  }

  predicate CallOk(s: State, pc: Pc) {
    match pc
    case Enter(c) => IsObj(s, ObjOf(c))
    case SleepSet(c) => IsObj(s, ObjOf(c))
    case Out(c) => IsObj(s, ObjOf(c))
    case Tidy(c) => IsObj(s, ObjOf(c))
    case Back(c) => IsObj(s, ObjOf(c))
    case RelEnter(i) => IsObj(s, LockObj(i))
    case CloseEnter(i, _) => IsObj(s, PipeObj(i))
    case _ => true
  }

  predicate POk(s: State, p: nat) {
    && p < |s.procs|
    && var x := s.procs[p];
    && (HoldsPt(x.pc) <==> s.pt == ByProc(p))
    && (Holds(x.pc).Some? ==> IsObj(s, Holds(x.pc).value) && Owner(s, Holds(x.pc).value) == Some(p))
    && CallOk(s, x.pc)
    && (x.sleeping ==> x.pc.Out?)
    && (x.pc.Out? ==> x.chan == Some(ChanOf(x.pc.call)))
    && (x.pc.RelEnter? || x.pc.RelClear? ==> x.pc.i in x.held)
    && (forall i :: i in x.held ==> HeldOk(s, p, i))
  }

  predicate HeldOk(s: State, p: nat, i: nat) {
    i < |s.locks| && s.locks[i].locked && s.locks[i].holder == Some(p)
  }

  predicate OwnerOk(s: State, o: Obj) {
    Owner(s, o).Some? ==>
      && Owner(s, o).value < |s.procs|
      && Holds(s.procs[Owner(s, o).value].pc) == Some(o)
  }

  predicate LockOk(s: State, i: nat) {
    && i < |s.locks|
    && (s.locks[i].locked <==> s.locks[i].holder.Some?)
    && (s.locks[i].holder.Some? ==>
          s.locks[i].holder.value < |s.procs| && i in s.procs[s.locks[i].holder.value].held)
  }

  predicate EndsOk(s: State, i: nat) {
    && i < |s.pipes|
    && PipeOk(s.pipes[i])
    && (!s.pipes[i].readopen ==> NobodyReads(s, i))
    && (NobodyReads(s, i) || NobodyClosesRead(s, i))
  }

  ghost predicate Base(s: State) {
    && (forall p :: 0 <= p < |s.procs| ==> POk(s, p))
    && (forall o :: OwnerOk(s, o))
    && (forall i :: 0 <= i < |s.locks| ==> LockOk(s, i))
    && (forall i :: 0 <= i < |s.pipes| ==> EndsOk(s, i))
  }

  /** Whoever is asleep on ch, or about to be, has reason to be or will be woken. */
  ghost predicate NotMissed(s: State, p: nat, ch: Chan) {
    p < |s.procs| && Committed(s.procs[p], ch) ==> Waiting(s, ch) || Pending(s, ch)
  }

  ghost predicate NoneMissed(s: State) {
    forall p: nat, ch: Chan :: NotMissed(s, p, ch)
  }


  // ---- every step keeps the base invariant ----

  /** Process p moved from x to y without entering or leaving an end of a pipe it reads. */
  ghost predicate SameEnds(x: Pc, y: Pc) {
    forall i :: (Reads(y, i) ==> Reads(x, i)) && (ClosesRead(y, i) ==> ClosesRead(x, i))
  }

  /** Only process p changed, and ptable.lock moved at most between p, the scheduler and nobody. */
  ghost predicate OneMoves(s: State, t: State, p: nat) {
    && p < |s.procs| && |t.procs| == |s.procs|
    && (forall q :: 0 <= q < |s.procs| && q != p ==> t.procs[q] == s.procs[q])
    && (t.pt == s.pt || (!(s.pt.ByProc? && s.pt.p != p) && !(t.pt.ByProc? && t.pt.p != p)))
    && SameEnds(s.procs[p].pc, t.procs[p].pc)
  }

  ghost predicate SameData(s: State, t: State) {
    && |t.locks| == |s.locks| && |t.pipes| == |s.pipes|
    && (forall i :: 0 <= i < |s.locks| ==> t.locks[i].(owner := None) == s.locks[i].(owner := None))
    && (forall i :: 0 <= i < |s.pipes| ==> t.pipes[i].(owner := None) == s.pipes[i].(owner := None))
  }

  /** Steps that take or release locks but change nothing the locks protect. */
  lemma LockingKeeps(s: State, t: State, p: nat)
    requires Base(s) && OneMoves(s, t, p) && SameData(s, t) && t.procs[p].held == s.procs[p].held
    requires POk(t, p)
    requires forall o :: OwnerMoves(s, t, p, o)
    ensures Base(t)
  {
    forall q | 0 <= q < |t.procs| ensures POk(t, q) {
      assert POk(s, q);
      if q != p {
        var h := Holds(t.procs[q].pc);
        assert h.Some? ==> OwnerMoves(s, t, p, h.value);
        forall i | i in t.procs[q].held ensures HeldOk(t, q, i) {
          assert HeldOk(s, q, i);
          assert t.locks[i].(owner := None) == s.locks[i].(owner := None);
        }
      }
    }
    forall o ensures OwnerOk(t, o) {
      assert OwnerOk(s, o) && OwnerMoves(s, t, p, o);
    }
    forall i | 0 <= i < |t.locks| ensures LockOk(t, i) {
      assert LockOk(s, i);
      assert t.locks[i].(owner := None) == s.locks[i].(owner := None);
    }
    forall i | 0 <= i < |t.pipes| ensures EndsOk(t, i) {
      assert EndsOk(s, i);
      assert t.pipes[i].(owner := None) == s.pipes[i].(owner := None);
      RingAlone(s.pipes[i], t.pipes[i]);
    }
  }

  lemma RingAlone(x: Pipe, y: Pipe)
    requires PipeOk(x) && y.(owner := None) == x.(owner := None)
    ensures PipeOk(y)
  {
    assert y.data == x.data && y.nread == x.nread && y.nwrite == x.nwrite && y.sent == x.sent && y.got == x.got;
    assert Ring(y) == Ring(x);
  }

  /** What a step that only locks does to the lock of o. */
  ghost predicate OwnerMoves(s: State, t: State, p: nat, o: Obj) {
    || (Owner(t, o) == Owner(s, o) && (Owner(s, o) == Some(p) ==> p < |t.procs| && Holds(t.procs[p].pc) == Some(o)))
    || (Owner(s, o) == None && Owner(t, o) == Some(p) && p < |t.procs| && Holds(t.procs[p].pc) == Some(o))
    || (Owner(s, o) == Some(p) && Owner(t, o) == None)
  }

  lemma HeldStays(s: State, t: State, p: nat)
    requires Base(s) && p < |s.procs| == |t.procs| && t.procs[p].held == s.procs[p].held && SameData(s, t)
    ensures forall i :: i in t.procs[p].held ==> HeldOk(t, p, i)
  {
    assert POk(s, p);
    forall i | i in t.procs[p].held ensures HeldOk(t, p, i) {
      assert HeldOk(s, p, i);
      assert t.locks[i].(owner := None) == s.locks[i].(owner := None);
    }
  }

  /** Process p takes the free spinlock of o. */
  lemma TakeOne(s: State, p: nat, o: Obj, pc: Pc)
    requires Base(s) && p < |s.procs| && IsObj(s, o) && Owner(s, o) == None
    requires Holds(s.procs[p].pc) == None && Holds(pc) == Some(o) && SameEnds(s.procs[p].pc, pc)
    requires !HoldsPt(s.procs[p].pc) && !HoldsPt(pc) && !s.procs[p].sleeping && CallOk(s, pc) && !pc.Out?
      && !pc.RelEnter?
    requires pc.RelClear? ==> pc.i in s.procs[p].held
    ensures Base(WithPc(WithOwner(s, o, Some(p)), p, pc))
  {
    hide PipeOk, EndsOk, LockOk, Reads, ClosesRead;
    assert POk(s, p);
    var t := WithPc(WithOwner(s, o, Some(p)), p, pc);
    HeldStays(s, t, p);
    forall x ensures OwnerMoves(s, t, p, x) {
      assert OwnerOk(s, x);
    }
    LockingKeeps(s, t, p);
  }

  lemma TakeStep(s: State, p: nat)
    requires Base(s) && Enabled(s, p)
    requires var pc := s.procs[p].pc; pc.Enter? || pc.Back? || pc.RelEnter? || pc.CloseEnter?
    ensures Base(Do(s, p))
  {
    hide Base;
    assert POk(s, p) by { Part(s, p); }
    match s.procs[p].pc
    case Enter(c) => TakeOne(s, p, ObjOf(c), Loop(c));
    case Back(c) => TakeOne(s, p, ObjOf(c), Loop(c));
    case RelEnter(i) => TakeOne(s, p, LockObj(i), RelClear(i));
    case CloseEnter(i, w) => TakeOne(s, p, PipeObj(i), CloseSet(i, w));
    case _ =>
  }

  lemma Part(s: State, p: nat)
    requires Base(s) && p < |s.procs|
    ensures POk(s, p)
  {
  }

  /** Process p releases the spinlock it holds. */
  lemma DropOne(s: State, p: nat, o: Obj, pc: Pc)
    requires Base(s) && p < |s.procs| && Holds(s.procs[p].pc) == Some(o) && Holds(pc) == None
    requires HoldsPt(pc) <==> HoldsPt(s.procs[p].pc)
    requires SameEnds(s.procs[p].pc, pc) && CallOk(s, pc) && !pc.Out? && !pc.RelEnter? && !s.procs[p].pc.Out?
    ensures Base(WithPc(WithOwner(s, o, None), p, pc))
  {
    hide PipeOk, EndsOk, LockOk, Reads, ClosesRead;
    assert POk(s, p);
    var t := WithPc(WithOwner(s, o, None), p, pc);
    HeldStays(s, t, p);
    forall x ensures OwnerMoves(s, t, p, x) {
      assert OwnerOk(s, x);
    }
    LockingKeeps(s, t, p);
  }

  lemma DropStep(s: State, p: nat)
    requires Base(s) && Enabled(s, p) && (s.procs[p].pc.SleepRel? || s.procs[p].pc.Unlock?)
    ensures Base(Do(s, p))
  {
    hide Base;
    assert POk(s, p) by { Part(s, p); }
    match s.procs[p].pc
    case SleepRel(c) => DropOne(s, p, ObjOf(c), SleepSet(c));
    case Unlock(o) => DropOne(s, p, o, Idle);
    case _ =>
  }

  /** Process p becomes x, and ptable.lock moves between it, the scheduler and nobody. */
  lemma SwitchOne(s: State, p: nat, x: Proc, pt: Holder)
    requires Base(s) && p < |s.procs| && x.held == s.procs[p].held && Holds(x.pc) == Holds(s.procs[p].pc)
    requires pt == s.pt || (!(s.pt.ByProc? && s.pt.p != p) && !(pt.ByProc? && pt.p != p))
    requires HoldsPt(x.pc) <==> pt == ByProc(p)
    requires SameEnds(s.procs[p].pc, x.pc) && CallOk(s, x.pc) && !x.pc.RelEnter? && !x.pc.RelClear?
    requires (x.sleeping ==> x.pc.Out?) && (x.pc.Out? ==> x.chan == Some(ChanOf(x.pc.call)))
    ensures Base(s.(procs := s.procs[p := x], pt := pt))
  {
    hide PipeOk, EndsOk, LockOk, Reads, ClosesRead;
    assert POk(s, p);
    var t := s.(procs := s.procs[p := x], pt := pt);
    HeldStays(s, t, p);
    forall y ensures OwnerMoves(s, t, p, y) {
      assert OwnerOk(s, y);
    }
    LockingKeeps(s, t, p);
  }

  lemma SwitchStep(s: State, p: nat)
    requires Base(s) && Enabled(s, p)
    requires var pc := s.procs[p].pc;
      pc.SleepPt? || pc.SleepSet? || pc.Out? || pc.Tidy? || pc.WakePt? || pc.WakeRel?
    ensures Base(Do(s, p))
  {
    hide Base;
    assert POk(s, p) by { Part(s, p); }
    var x, t := s.procs[p], Do(s, p);
    SwitchOne(s, p, t.procs[p], t.pt);
    assert t == s.(procs := s.procs[p := t.procs[p]], pt := t.pt);
  }

  // ---- the ring ----

  lemma Count(x: Pipe)
    requires PipeOk(x)
    ensures var n := |Ring(x)|;
      && (x.Empty() <==> n == 0) && (x.IsFull() <==> n == PIPESIZE)
      && (x.nwrite == x.nread + n || x.nwrite + WRAP == x.nread + n)
  {
  }

  lemma Wraps(a: nat, b: nat)
    requires a + WRAP == b
    ensures a % PIPESIZE == b % PIPESIZE
  {
    assert WRAP % PIPESIZE == 0;
    assert b == a + 0x80_0000 * PIPESIZE;
  }

  lemma Apart(r: nat, i: nat, j: nat)
    requires i < j < i + PIPESIZE
    ensures (r + i) % PIPESIZE != (r + j) % PIPESIZE
  {
    var a, b := r + i, r + j;
    assert a == PIPESIZE * (a / PIPESIZE) + a % PIPESIZE;
    assert b == PIPESIZE * (b / PIPESIZE) + b % PIPESIZE;
  }

  lemma StoredOk(x: Pipe, b: Byte)
    requires PipeOk(x) && !x.IsFull()
    ensures PipeOk(Stored(x, b)) && Ring(Stored(x, b)) == Ring(x) + [b]
  {
    RingStored(x, b);
    Count(x);
    hide Ring;
    var y := Stored(x, b);
    assert y.sent == y.got + Ring(y);
  }

  lemma RingStored(x: Pipe, b: Byte)
    requires PipeOk(x) && !x.IsFull()
    ensures |Stored(x, b).data| == PIPESIZE && Ring(Stored(x, b)) == Ring(x) + [b]
  {
    Count(x);
    var n, y := |Ring(x)|, Stored(x, b);
    if x.nwrite != x.nread + n {
      Wraps(x.nwrite, x.nread + n);
    }
    assert |Ring(y)| == n + 1;
    forall j | 0 <= j < n ensures Ring(y)[j] == Ring(x)[j] {
      Apart(x.nread, j, n);
    }
  }

  lemma SlotAfter(r: nat, j: nat)
    requires r < WRAP
    ensures ((r + 1) % WRAP + j) % PIPESIZE == (r + (j + 1)) % PIPESIZE
  {
    if r + 1 == WRAP {
      Wraps(j, r + 1 + j);
    }
  }

  lemma RingTaken(x: Pipe)
    requires PipeOk(x) && !x.Empty()
    ensures |Ring(Taken(x))| == |Ring(x)| - 1 && Ring(x) == [Next(x)] + Ring(Taken(x))
  {
    Count(x);
    var n, y := |Ring(x)|, Taken(x);
    assert |Ring(y)| == n - 1;
    forall j | 0 <= j < n - 1 ensures Ring(y)[j] == Ring(x)[j + 1] {
      SlotAfter(x.nread, j);
    }
    assert Ring(x)[0] == Next(x);
  }

  lemma TakenOk(x: Pipe)
    requires PipeOk(x) && !x.Empty()
    ensures PipeOk(Taken(x)) && Ring(x) == [Next(x)] + Ring(Taken(x))
  {
    hide Ring;
    RingTaken(x);
    var y := Taken(x);
    assert x.got + ([Next(x)] + Ring(y)) == (x.got + [Next(x)]) + Ring(y);
  }

  // ---- steps that change what a lock protects ----

  lemma PipeChange(s: State, p: nat, i: nat, y: Pipe, pc: Pc)
    requires Base(s) && p < |s.procs| && Holds(s.procs[p].pc) == Some(PipeObj(i)) && Holds(pc) == Some(PipeObj(i))
    requires i < |s.pipes| && y.owner == s.pipes[i].owner && PipeOk(y)
    requires (y.readopen <==> s.pipes[i].readopen) || NobodyReads(s, i)
    requires !HoldsPt(s.procs[p].pc) && !HoldsPt(pc) && SameEnds(s.procs[p].pc, pc) && CallOk(s, pc)
    requires !s.procs[p].pc.Out? && !pc.Out?
    ensures Base(WithPc(WithPipe(s, i, y), p, pc))
  {
    hide PipeOk, Reads, ClosesRead;
    var t := WithPc(WithPipe(s, i, y), p, pc);
    forall q | 0 <= q < |t.procs| ensures POk(t, q) {
      assert POk(s, q);
      forall j | j in t.procs[q].held ensures HeldOk(t, q, j) {
        assert HeldOk(s, q, j);
      }
    }
    forall o ensures OwnerOk(t, o) {
      assert OwnerOk(s, o) && POk(s, p);
    }
    forall j | 0 <= j < |t.locks| ensures LockOk(t, j) {
      assert LockOk(s, j);
    }
    forall j | 0 <= j < |t.pipes| ensures EndsOk(t, j) {
      assert EndsOk(s, j);
    }
  }

  lemma LockChange(s: State, p: nat, i: nat, y: SleepLock, x: Proc)
    requires Base(s) && p < |s.procs| && Holds(s.procs[p].pc) == Some(LockObj(i)) && Holds(x.pc) == Some(LockObj(i))
    requires i < |s.locks| && y.owner == s.locks[i].owner
    requires || (!s.locks[i].locked && y.locked && y.holder == Some(p) && x.held == s.procs[p].held + {i})
             || (i in s.procs[p].held && !y.locked && y.holder == None && x.held == s.procs[p].held - {i})
    requires !HoldsPt(s.procs[p].pc) && !HoldsPt(x.pc) && SameEnds(s.procs[p].pc, x.pc) && CallOk(s, x.pc)
    requires !x.pc.Out? && !x.pc.RelEnter? && !x.pc.RelClear? && !x.sleeping
    ensures Base(s.(locks := s.locks[i := y], procs := s.procs[p := x]))
  {
    hide PipeOk, Reads, ClosesRead;
    var t := s.(locks := s.locks[i := y], procs := s.procs[p := x]);
    assert POk(s, p) && LockOk(s, i);
    forall q | 0 <= q < |t.procs| ensures POk(t, q) {
      assert POk(s, q);
      forall j | j in t.procs[q].held ensures HeldOk(t, q, j) {
        assert j in s.procs[q].held ==> HeldOk(s, q, j);
        assert HeldOk(s, p, i) || !s.locks[i].locked;
      }
    }
    forall o ensures OwnerOk(t, o) {
      assert OwnerOk(s, o);
    }
    forall j | 0 <= j < |t.locks| ensures LockOk(t, j) {
      assert LockOk(s, j);
    }
    forall j | 0 <= j < |t.pipes| ensures EndsOk(t, j) {
      assert EndsOk(s, j);
    }
  }

  lemma WakeupKeeps(s: State, ch: Chan)
    requires Base(s)
    ensures Base(s.(procs := Wakeup1(s.procs, ch)))
  {
    hide PipeOk, Reads, ClosesRead;
    var t := s.(procs := Wakeup1(s.procs, ch));
    forall q | 0 <= q < |t.procs| ensures POk(t, q) {
      assert POk(s, q);
      forall j | j in t.procs[q].held ensures HeldOk(t, q, j) {
        assert HeldOk(s, q, j);
      }
    }
    forall o ensures OwnerOk(t, o) {
      assert OwnerOk(s, o);
    }
    forall j | 0 <= j < |t.locks| ensures LockOk(t, j) {
      assert LockOk(s, j);
    }
    forall j | 0 <= j < |t.pipes| ensures EndsOk(t, j) {
      assert EndsOk(s, j);
    }
  }

  lemma QuietKeeps(s: State, i: nat)
    requires Base(s) && i < |s.pipes|
    ensures Base(WithPipe(s, i, s.pipes[i].(quiet := true)))
  {
    hide Reads, ClosesRead;
    var t := WithPipe(s, i, s.pipes[i].(quiet := true));
    forall q | 0 <= q < |t.procs| ensures POk(t, q) {
      assert POk(s, q);
      forall j | j in t.procs[q].held ensures HeldOk(t, q, j) {
        assert HeldOk(s, q, j);
      }
    }
    forall o ensures OwnerOk(t, o) {
      assert OwnerOk(s, o);
    }
    forall j | 0 <= j < |t.locks| ensures LockOk(t, j) {
      assert LockOk(s, j);
    }
    forall j | 0 <= j < |t.pipes| ensures EndsOk(t, j) {
      assert EndsOk(s, j);
      if j == i { assert Ring(t.pipes[i]) == Ring(s.pipes[i]); }
    }
  }

  lemma WakesStep(s: State, p: nat)
    requires Base(s) && Enabled(s, p) && s.procs[p].pc.Wakes?
    ensures Base(Do(s, p))
  {
    hide Base;
    assert POk(s, p) by { Part(s, p); }
    var a := s.procs[p].pc.after;
    var ch := Woken(a);
    WakeupKeeps(s, ch);
    var u := s.(procs := Wakeup1(s.procs, ch));
    var v := Waking(s, ch);
    if ch.OnRead? && ch.i < |s.pipes| {
      QuietKeeps(u, ch.i);
    }
    assert v.procs[p] == s.procs[p];
    SwitchOne(v, p, v.procs[p].(pc := WakeRel(a)), v.pt);
  }

  lemma DataStep(s: State, p: nat)
    requires Base(s) && Enabled(s, p)
    requires s.procs[p].pc.Copy? || s.procs[p].pc.RelClear? || s.procs[p].pc.CloseSet?
    ensures Base(Do(s, p))
  {
    hide Base, PipeOk;
    Part(s, p);
    match s.procs[p].pc
    case Copy(i, n, got) =>
      End(s, i);
      if |got| < n && !s.pipes[i].Empty() {
        TakenOk(s.pipes[i]);
        PipeChange(s, p, i, Taken(s.pipes[i]), Copy(i, n, got + [Next(s.pipes[i])]));
      } else {
        SwitchOne(s, p, s.procs[p].(pc := WakePt(DidRead(i))), s.pt);
      }
    case RelClear(i) =>
      LockChange(s, p, i, s.locks[i].(locked := false, holder := None),
                 s.procs[p].(pc := WakePt(Released(i)), held := s.procs[p].held - {i}));
    case CloseSet(i, w) =>
      End(s, i);
      var y := s.pipes[i];
      Closed(y, w);
      assert ClosesRead(s.procs[p].pc, i) || w;
      PipeChange(s, p, i, if w then y.(writeopen := false) else y.(readopen := false),
                 WakePt(if w then ClosedWrite(i) else ClosedRead(i)));
    case _ =>
  }

  lemma End(s: State, i: nat)
    requires Base(s) && i < |s.pipes|
    ensures EndsOk(s, i) && |s.pipes[i].data| == PIPESIZE
  {
    assert EndsOk(s, i);
  }

  lemma Closed(y: Pipe, w: bool)
    requires PipeOk(y)
    ensures PipeOk(if w then y.(writeopen := false) else y.(readopen := false))
  {
    var z := if w then y.(writeopen := false) else y.(readopen := false);
    assert Ring(z) == Ring(y);
  }

  lemma AcquireStep(s: State, p: nat)
    requires Base(s) && Enabled(s, p) && s.procs[p].pc.Loop? && s.procs[p].pc.call.Acquire?
    ensures Base(Do(s, p))
  {
    hide Base, PipeOk;
    Part(s, p);
    var x, i := s.procs[p], s.procs[p].pc.call.i;
    if !s.locks[i].locked {
      LockChange(s, p, i, s.locks[i].(locked := true, holder := Some(p)),
                 x.(pc := Unlock(LockObj(i)), held := x.held + {i}));
    } else {
      SwitchOne(s, p, x.(pc := SleepPt(x.pc.call)), s.pt);
    }
  }

  lemma ReadStep(s: State, p: nat)
    requires Base(s) && Enabled(s, p) && s.procs[p].pc.Loop? && s.procs[p].pc.call.Read?
    ensures Base(Do(s, p))
  {
    hide Base, PipeOk;
    Part(s, p);
    SwitchOne(s, p, Do(s, p).procs[p], s.pt);
  }

  lemma WriteStep(s: State, p: nat)
    requires Base(s) && Enabled(s, p) && s.procs[p].pc.Loop? && s.procs[p].pc.call.Write?
    ensures Base(Do(s, p))
  {
    hide Base, PipeOk;
    Part(s, p);
    var c := s.procs[p].pc.call;
    End(s, c.i);
    if c.k < |c.src| && !s.pipes[c.i].IsFull() {
      StoredOk(s.pipes[c.i], c.src[c.k]);
      PipeChange(s, p, c.i, Stored(s.pipes[c.i], c.src[c.k]), Loop(Write(c.i, c.src, c.k + 1)));
    } else {
      SwitchOne(s, p, Do(s, p).procs[p], s.pt);
    }
  }

  lemma LoopStep(s: State, p: nat)
    requires Base(s) && Enabled(s, p) && s.procs[p].pc.Loop?
    ensures Base(Do(s, p))
  {
    hide Base, Do;
    match s.procs[p].pc.call
    case Acquire(_) => AcquireStep(s, p);
    case Read(_, _) => ReadStep(s, p);
    case Write(_, _, _) => WriteStep(s, p);
  }

  lemma DoKeeps(s: State, p: nat)
    requires Base(s) && Enabled(s, p)
    ensures Base(Do(s, p))
  {
    hide Base, Do;
    match s.procs[p].pc
    case Loop(_) => LoopStep(s, p);
    case Copy(_, _, _) => DataStep(s, p);
    case RelClear(_) => DataStep(s, p);
    case CloseSet(_, _) => DataStep(s, p);
    case Wakes(_) => WakesStep(s, p);
    case SleepRel(_) => DropStep(s, p);
    case Unlock(_) => DropStep(s, p);
    case Enter(_) => TakeStep(s, p);
    case Back(_) => TakeStep(s, p);
    case RelEnter(_) => TakeStep(s, p);
    case CloseEnter(_, _) => TakeStep(s, p);
    case _ => SwitchStep(s, p);
  }

  lemma StartKeeps(s: State, t: State, p: nat, pc: Pc)
    requires Base(s) && Start(s, t, p, pc)
    ensures Base(t)
  {
    hide PipeOk;
    forall q | 0 <= q < |t.procs| ensures POk(t, q) {
      assert POk(s, q) && POk(s, p);
      forall j | j in t.procs[q].held ensures HeldOk(t, q, j) {
        assert HeldOk(s, q, j);
      }
    }
    forall o ensures OwnerOk(t, o) {
      assert OwnerOk(s, o);
    }
    forall j | 0 <= j < |t.locks| ensures LockOk(t, j) {
      assert LockOk(s, j);
    }
    forall j | 0 <= j < |t.pipes| ensures EndsOk(t, j) {
      assert EndsOk(s, j);
    }
  }

  lemma KillKeeps(s: State, t: State, v: nat)
    requires Base(s) && Kill(s, t, v)
    ensures Base(t)
  {
    hide PipeOk, Reads, ClosesRead;
    forall q | 0 <= q < |t.procs| ensures POk(t, q) {
      assert POk(s, q);
      forall j | j in t.procs[q].held ensures HeldOk(t, q, j) {
        assert HeldOk(s, q, j);
      }
    }
    forall o ensures OwnerOk(t, o) {
      assert OwnerOk(s, o);
    }
    forall j | 0 <= j < |t.locks| ensures LockOk(t, j) {
      assert LockOk(s, j);
    }
    forall j | 0 <= j < |t.pipes| ensures EndsOk(t, j) {
      assert EndsOk(s, j);
    }
  }

  lemma SchedKeeps(s: State, t: State)
    requires Base(s) && Sched(s, t)
    ensures Base(t)
  {
    hide PipeOk, Reads, ClosesRead;
    forall q | 0 <= q < |t.procs| ensures POk(t, q) {
      assert POk(s, q);
      forall j | j in t.procs[q].held ensures HeldOk(t, q, j) {
        assert HeldOk(s, q, j);
      }
    }
    forall o ensures OwnerOk(t, o) {
      assert OwnerOk(s, o);
    }
    forall j | 0 <= j < |t.locks| ensures LockOk(t, j) {
      assert LockOk(s, j);
    }
    forall j | 0 <= j < |t.pipes| ensures EndsOk(t, j) {
      assert EndsOk(s, j);
    }
  }

  // ---- no step loses a wakeup, but one ----

  /** A killed writer finds the pipe full and returns, while a reader sleeps or is about to: the
    * bytes it stored on the way are never announced. */
  ghost predicate Drops(s: State, p: nat) {
    && Enabled(s, p) && s.procs[p].pc.Loop? && s.procs[p].pc.call.Write?
    && var c := s.procs[p].pc.call;
    && c.i < |s.pipes| && c.k < |c.src| && s.pipes[c.i].IsFull() && s.pipes[c.i].readopen && s.procs[p].killed
    && SomeCommitted(s, OnRead(c.i))
  }

  ghost predicate SomeCommitted(s: State, ch: Chan) {
    exists q :: 0 <= q < |s.procs| && Committed(s.procs[q], ch)
  }

  lemma EnterMisses(s: State, p: nat, q: nat, ch: Chan)
    requires Base(s) && Enabled(s, p) && NotMissed(s, q, ch) && (s.procs[p].pc.Enter? || s.procs[p].pc.Back?)
    ensures NotMissed(Do(s, p), q, ch)
  {
    hide PipeOk, EndsOk, LockOk;
    assert POk(s, p) && OwnerOk(s, Guards(ch));
    var t := Do(s, p);
    if q < |s.procs| && Committed(t.procs[q], ch) {
      assert Committed(s.procs[q], ch);
    }
  }

  lemma EnterEndMisses(s: State, p: nat, q: nat, ch: Chan)
    requires Base(s) && Enabled(s, p) && NotMissed(s, q, ch)
    requires s.procs[p].pc.RelEnter? || s.procs[p].pc.CloseEnter?
    ensures NotMissed(Do(s, p), q, ch)
  {
    hide PipeOk, EndsOk, LockOk;
    assert POk(s, p) && OwnerOk(s, Guards(ch));
    var t := Do(s, p);
    if q < |s.procs| && Committed(t.procs[q], ch) {
      assert Committed(s.procs[q], ch);
    }
  }

  lemma SwitchMisses(s: State, p: nat, q: nat, ch: Chan)
    requires Base(s) && Enabled(s, p) && NotMissed(s, q, ch)
    requires var pc := s.procs[p].pc;
      pc.SleepPt? || pc.SleepSet? || pc.Out? || pc.Tidy? || pc.WakePt? || pc.WakeRel?
    ensures NotMissed(Do(s, p), q, ch)
  {
    hide PipeOk, EndsOk, LockOk;
    assert POk(s, p) && OwnerOk(s, Guards(ch));
    var t := Do(s, p);
    if q < |s.procs| && Committed(t.procs[q], ch) {
      assert Committed(s.procs[q], ch);
    }
  }

  lemma SleepRelMisses(s: State, p: nat, q: nat, ch: Chan)
    requires Base(s) && Enabled(s, p) && NotMissed(s, q, ch) && s.procs[p].pc.SleepRel?
    ensures NotMissed(Do(s, p), q, ch)
  {
    hide PipeOk, EndsOk, LockOk;
    assert POk(s, p) && OwnerOk(s, Guards(ch));
    var t := Do(s, p);
    if q < |s.procs| && Committed(t.procs[q], ch) {
      assert Committed(s.procs[q], ch);
    }
  }

  lemma UnlockMisses(s: State, p: nat, q: nat, ch: Chan)
    requires Base(s) && Enabled(s, p) && NotMissed(s, q, ch) && s.procs[p].pc.Unlock?
    ensures NotMissed(Do(s, p), q, ch)
  {
    hide PipeOk, EndsOk, LockOk;
    assert POk(s, p) && OwnerOk(s, Guards(ch));
    var t := Do(s, p);
    if q < |s.procs| && Committed(t.procs[q], ch) {
      assert Committed(s.procs[q], ch);
    }
  }

  /** wakeup1 leaves nobody behind: the object's lock keeps out those who only tested, and
    * ptable.lock those who have released it. */
  lemma WakesMisses(s: State, p: nat, q: nat, ch: Chan)
    requires Base(s) && Enabled(s, p) && NotMissed(s, q, ch) && s.procs[p].pc.Wakes?
    ensures NotMissed(Do(s, p), q, ch)
  {
    hide Base, Do, NotMissed;
    if ch == Woken(s.procs[p].pc.after) { WakesAll(s, p, q, ch); } else { WakesOthers(s, p, q, ch); }
  }

  lemma WakesAll(s: State, p: nat, q: nat, ch: Chan)
    requires Base(s) && Enabled(s, p) && s.procs[p].pc.Wakes? && ch == Woken(s.procs[p].pc.after)
    ensures NotMissed(Do(s, p), q, ch)
  {
    hide PipeOk, EndsOk, LockOk;
    assert POk(s, p) && OwnerOk(s, Guards(ch));
    if q < |s.procs| { assert POk(s, q); }
  }

  lemma WakesOthers(s: State, p: nat, q: nat, ch: Chan)
    requires Base(s) && Enabled(s, p) && NotMissed(s, q, ch) && s.procs[p].pc.Wakes?
    requires ch != Woken(s.procs[p].pc.after)
    ensures NotMissed(Do(s, p), q, ch)
  {
    hide PipeOk, EndsOk, LockOk;
    assert POk(s, p) && OwnerOk(s, Guards(ch));
    var t := Do(s, p);
    if q < |s.procs| && Committed(t.procs[q], ch) {
      assert Committed(s.procs[q], ch);
      assert Owner(t, Guards(ch)) == Owner(s, Guards(ch));
    }
  }

  lemma ClearMisses(s: State, p: nat, q: nat, ch: Chan)
    requires Base(s) && Enabled(s, p) && NotMissed(s, q, ch) && (s.procs[p].pc.RelClear? || s.procs[p].pc.CloseSet?)
    ensures NotMissed(Do(s, p), q, ch)
  {
    hide PipeOk, EndsOk, LockOk;
    assert POk(s, p) && OwnerOk(s, Guards(ch));
    var t := Do(s, p);
    if q < |s.procs| && Committed(t.procs[q], ch) {
      assert Committed(s.procs[q], ch);
    }
  }

  lemma CopyMisses(s: State, p: nat, q: nat, ch: Chan)
    requires Base(s) && Enabled(s, p) && NotMissed(s, q, ch) && s.procs[p].pc.Copy?
    ensures NotMissed(Do(s, p), q, ch)
  {
    hide PipeOk, LockOk;
    assert POk(s, p) && OwnerOk(s, Guards(ch));
    End(s, s.procs[p].pc.i);
    var t := Do(s, p);
    if q < |s.procs| && Committed(t.procs[q], ch) {
      assert Committed(s.procs[q], ch);
    }
  }

  /** A loop test commits a process to sleep only while there is reason to. */
  lemma AcquireMisses(s: State, p: nat, q: nat, ch: Chan)
    requires Base(s) && Enabled(s, p) && NotMissed(s, q, ch) && s.procs[p].pc.Loop? && !Drops(s, p)
    requires s.procs[p].pc.call.Acquire?
    ensures NotMissed(Do(s, p), q, ch)
  {
    hide PipeOk, LockOk;
    assert POk(s, p) && OwnerOk(s, Guards(ch));
    var c, t := s.procs[p].pc.call, Do(s, p);
    if q < |s.procs| && Committed(t.procs[q], ch) {
      assert Committed(s.procs[q], ch) || Waiting(s, ch);
    }
  }

  lemma ReadMisses(s: State, p: nat, q: nat, ch: Chan)
    requires Base(s) && Enabled(s, p) && NotMissed(s, q, ch) && s.procs[p].pc.Loop? && !Drops(s, p)
    requires s.procs[p].pc.call.Read?
    ensures NotMissed(Do(s, p), q, ch)
  {
    hide PipeOk, LockOk;
    assert POk(s, p) && OwnerOk(s, Guards(ch));
    var c, t := s.procs[p].pc.call, Do(s, p);
    End(s, c.i);
    if q < |s.procs| && Committed(t.procs[q], ch) {
      assert Committed(s.procs[q], ch) || Waiting(s, ch);
    }
  }

  lemma WriteMisses(s: State, p: nat, q: nat, ch: Chan)
    requires Base(s) && Enabled(s, p) && NotMissed(s, q, ch) && s.procs[p].pc.Loop? && !Drops(s, p)
    requires s.procs[p].pc.call.Write?
    ensures NotMissed(Do(s, p), q, ch)
  {
    hide PipeOk, LockOk;
    assert POk(s, p) && OwnerOk(s, Guards(ch));
    var c, t := s.procs[p].pc.call, Do(s, p);
    End(s, c.i);
    if q < |s.procs| && Committed(t.procs[q], ch) {
      if Committed(s.procs[q], ch) {
        assert SomeCommitted(s, ch);
        assert ch.OnRead? ==> Reads(s.procs[q].pc, ch.i);
      }
    }
  }

  lemma {:induction false} MissesStep(s: State, p: nat, q: nat, ch: Chan)
    requires Base(s) && Enabled(s, p) && NotMissed(s, q, ch) && !Drops(s, p)
    ensures NotMissed(Do(s, p), q, ch)
  {
    hide Base, Do, NotMissed;
    match s.procs[p].pc
    case Loop(Acquire(_)) => AcquireMisses(s, p, q, ch);
    case Loop(Read(_, _)) => ReadMisses(s, p, q, ch);
    case Loop(Write(_, _, _)) => WriteMisses(s, p, q, ch);
    case Copy(_, _, _) => CopyMisses(s, p, q, ch);
    case RelClear(_) => ClearMisses(s, p, q, ch);
    case CloseSet(_, _) => ClearMisses(s, p, q, ch);
    case Wakes(_) => WakesMisses(s, p, q, ch);
    case SleepRel(_) => SleepRelMisses(s, p, q, ch);
    case Unlock(_) => UnlockMisses(s, p, q, ch);
    case Enter(_) => EnterMisses(s, p, q, ch);
    case Back(_) => EnterMisses(s, p, q, ch);
    case RelEnter(_) => EnterEndMisses(s, p, q, ch);
    case CloseEnter(_, _) => EnterEndMisses(s, p, q, ch);
    case _ => SwitchMisses(s, p, q, ch);
  }

  /** One step of a call loses a wakeup exactly when it is a killed writer's return described by
    * Drops. */
  lemma OnlyDropsMiss(s: State, p: nat)
    requires Base(s) && NoneMissed(s) && Enabled(s, p)
    ensures NoneMissed(Do(s, p)) <==> !Drops(s, p)
  {
    var t := Do(s, p);
    if Drops(s, p) {
      var ch := OnRead(s.procs[p].pc.call.i);
      var q: nat :| q < |s.procs| && Committed(s.procs[q], ch);
      assert POk(s, p) && EndsOk(s, ch.i);
      Count(s.pipes[ch.i]);
      assert t.procs[q] == s.procs[q];
      assert !NotMissed(t, q, ch);
    } else {
      forall q: nat, ch: Chan ensures NotMissed(t, q, ch) {
        assert NotMissed(s, q, ch);
        MissesStep(s, p, q, ch);
      }
    }
  }

  // ---- whole runs ----

  datatype Label = Begins(p: nat, pc: Pc) | Goes(p: nat) | Kills(q: nat) | Scheduler

  ghost predicate Step(s: State, t: State, l: Label) {
    match l
    case Begins(p, pc) => Start(s, t, p, pc)
    case Goes(p) => Enabled(s, p) && t == Do(s, p)
    case Kills(q) => Kill(s, t, q)
    case Scheduler => Sched(s, t)
  }

  predicate Fresh(x: Proc) {
    x == Proc(Idle, false, None, false, {})
  }

  predicate NewPipe(x: Pipe) {
    |x.data| == PIPESIZE && x == Pipe(None, x.data, 0, 0, true, true, [], [], true)
  }

  predicate Init(s: State) {
    && s.pt == Nobody
    && (forall p :: 0 <= p < |s.procs| ==> Fresh(s.procs[p]))
    && (forall i :: 0 <= i < |s.locks| ==> s.locks[i] == SleepLock(None, false, None))
    && (forall i :: 0 <= i < |s.pipes| ==> NewPipe(s.pipes[i]))
  }

  ghost predicate StepAt(run: seq<State>, labels: seq<Label>, k: nat) {
    k + 1 < |run| && k < |labels| && Step(run[k], run[k + 1], labels[k])
  }

  ghost predicate IsRun(run: seq<State>, labels: seq<Label>) {
    && |run| == |labels| + 1
    && Init(run[0])
    && forall k: nat :: k < |labels| ==> StepAt(run, labels, k)
  }

  /** No step of the run is a killed writer's silent return. */
  ghost predicate NoDrops(run: seq<State>, labels: seq<Label>) {
    forall k: nat :: k < |labels| && k < |run| && labels[k].Goes? ==> !Drops(run[k], labels[k].p)
  }

  lemma InitBase(s: State)
    requires Init(s)
    ensures Base(s) && NoneMissed(s)
  {
    forall p | 0 <= p < |s.procs| ensures POk(s, p) {
      assert Fresh(s.procs[p]);
    }
    forall i | 0 <= i < |s.pipes| ensures EndsOk(s, i) {
      assert NewPipe(s.pipes[i]);
      assert Ring(s.pipes[i]) == [];
      forall q | 0 <= q < |s.procs| ensures !Reads(s.procs[q].pc, i) {
        assert Fresh(s.procs[q]);
      }
    }
    forall p: nat, ch: Chan ensures NotMissed(s, p, ch) {
      if p < |s.procs| { assert Fresh(s.procs[p]); }
    }
    forall o ensures OwnerOk(s, o) {
      match o
      case LockObj(i) =>
      case PipeObj(i) => if i < |s.pipes| { assert NewPipe(s.pipes[i]); }
    }
  }

  lemma StepKeeps(s: State, t: State, l: Label)
    requires Base(s) && Step(s, t, l)
    ensures Base(t)
    ensures NoneMissed(s) && !(l.Goes? && Drops(s, l.p)) ==> NoneMissed(t)
  {
    match l
    case Begins(p, pc) =>
      StartKeeps(s, t, p, pc);
      if NoneMissed(s) { OthersMisses(s, t, p); }
    case Goes(p) =>
      DoKeeps(s, p);
      if NoneMissed(s) { OnlyDropsMiss(s, p); }
    case Kills(q) =>
      KillKeeps(s, t, q);
      if NoneMissed(s) { OthersMisses(s, t, q); }
    case Scheduler =>
      SchedKeeps(s, t);
      if NoneMissed(s) && |s.procs| > 0 { OthersMisses(s, t, 0); }
  }

  /** Beginning a call, kill and the scheduler commit nobody and release nothing. */
  lemma OthersMisses(s: State, t: State, p: nat)
    requires Base(s) && NoneMissed(s) && p < |s.procs| == |t.procs| && t.locks == s.locks && t.pipes == s.pipes
    requires forall q :: 0 <= q < |s.procs| && q != p ==> t.procs[q] == s.procs[q]
    requires t.procs[p].pc == s.procs[p].pc || (s.procs[p].pc == Idle && !Committed(t.procs[p], OnLock(0)))
    requires t.procs[p].sleeping ==> s.procs[p].sleeping
    requires t.procs[p].pc != s.procs[p].pc ==>
      t.procs[p].pc.Enter? || t.procs[p].pc.RelEnter? || t.procs[p].pc.CloseEnter?
    ensures NoneMissed(t)
  {
    hide PipeOk, EndsOk, LockOk;
    forall q: nat, ch: Chan ensures NotMissed(t, q, ch) {
      assert NotMissed(s, q, ch) && POk(s, p) && OwnerOk(s, Guards(ch));
    }
  }

  lemma {:induction false} RunKeeps(run: seq<State>, labels: seq<Label>, k: nat)
    requires IsRun(run, labels) && k < |run|
    ensures Base(run[k])
    ensures NoDrops(run, labels) ==> NoneMissed(run[k])
  {
    if k == 0 {
      InitBase(run[0]);
    } else {
      RunKeeps(run, labels, k - 1);
      assert StepAt(run, labels, k - 1);
      StepKeeps(run[k - 1], run[k], labels[k - 1]);
    }
  }

  /** In every interleaving without a silent return: a process asleep while the object's spinlock is
    * free has reason to sleep.  Asleep on a sleep-lock, it is locked; on a pipe's read counter, the
    * pipe is empty and can still be written; on its write counter, it is full and can still be read. */
  lemma NoLostWakeup(run: seq<State>, labels: seq<Label>, k: nat, p: nat)
    requires IsRun(run, labels) && NoDrops(run, labels) && k < |run| && p < |run[k].procs|
    requires run[k].procs[p].sleeping
    ensures run[k].procs[p].chan.Some?
    ensures var ch := run[k].procs[p].chan.value;
      Owner(run[k], Guards(ch)) == None ==> Waiting(run[k], ch)
  {
    RunKeeps(run, labels, k);
    assert POk(run[k], p);
    assert NotMissed(run[k], p, run[k].procs[p].chan.value);
  }

  /** At most one process holds a sleep-lock, and only while it is locked. */
  lemma MutualExclusion(run: seq<State>, labels: seq<Label>, k: nat, p: nat, q: nat, i: nat)
    requires IsRun(run, labels) && k < |run| && p < |run[k].procs| && q < |run[k].procs|
    requires i in run[k].procs[p].held && i in run[k].procs[q].held
    ensures p == q && i < |run[k].locks| && run[k].locks[i].locked && run[k].locks[i].holder == Some(p)
  {
    RunKeeps(run, labels, k);
    assert POk(run[k], p) && POk(run[k], q) && HeldOk(run[k], p, i) && HeldOk(run[k], q, i);
  }

  /** A pipe delivers what was stored, in order, each byte once, and holds at most PIPESIZE bytes,
    * however often the 32-bit counters wrap. */
  lemma Fifo(run: seq<State>, labels: seq<Label>, k: nat, i: nat)
    requires IsRun(run, labels) && k < |run| && i < |run[k].pipes|
    ensures var x := run[k].pipes[i];
      && |x.data| == PIPESIZE && x.sent == x.got + Ring(x)
      && |Ring(x)| == (x.nwrite + WRAP - x.nread) % WRAP && |Ring(x)| <= PIPESIZE
  {
    RunKeeps(run, labels, k);
    assert EndsOk(run[k], i);
  }

  // ---- the silent return does happen ----

  lemma Extend(run: seq<State>, labels: seq<Label>, t: State, l: Label)
    requires IsRun(run, labels) && Step(run[|labels|], t, l)
    ensures IsRun(run + [t], labels + [l])
  {
    var r, ls := run + [t], labels + [l];
    forall k: nat | k < |ls| ensures StepAt(r, ls, k) {
      if k < |labels| { assert StepAt(run, labels, k); }
    }
  }

  const Src: seq<Byte> := seq(PIPESIZE + 1, i => 0)

  function Asleep(): Proc {
    Proc(Out(Read(0, 1)), true, Some(OnRead(0)), false, {})
  }

  function Writer(pc: Pc, killed: bool): Proc {
    Proc(pc, false, None, killed, {})
  }

  function Begin(): State {
    State([Writer(Idle, false), Writer(Idle, false)], [],
          [Pipe(None, seq(PIPESIZE, i => 0), 0, 0, true, true, [], [], true)], Nobody)
  }

  function WithProc(s: State, p: nat, x: Proc): State {
    if p < |s.procs| then s.(procs := s.procs[p := x]) else s
  }

  /** The reader n steps into read, at an empty pipe. */
  ghost predicate Falling(s: State, n: nat) {
    var c := Read(0, 1);
    && |s.procs| == 2 && s.procs[1..] == Begin().procs[1..] && s.locks == []
    && |s.pipes| == 1 && s.pipes[0].(owner := None) == Begin().pipes[0]
    && (n == 0 ==> s.procs[0] == Writer(Enter(c), false))
    && (n == 1 ==> s.procs[0] == Writer(Loop(c), false))
    && (n == 2 ==> s.procs[0] == Writer(SleepPt(c), false))
    && (n == 3 ==> s.procs[0] == Writer(SleepRel(c), false))
    && (n == 4 ==> s.procs[0] == Writer(SleepSet(c), false))
    && (n == 5 ==> s.procs[0] == Asleep())
    && (n == 0 || n >= 4 ==> s.pipes[0].owner == None)
    && s.pt == if n < 3 then Nobody else if n < 5 then ByProc(0) else BySched
  }

  lemma FallsOn(s: State, n: nat)
    requires Falling(s, n) && n < 5
    ensures Enabled(s, 0) && Falling(Do(s, 0), n + 1)
  {
  }

  /** A reader finds the pipe empty and goes to sleep. */
  lemma ReaderSleeps() returns (run: seq<State>, labels: seq<Label>)
    ensures IsRun(run, labels)
    ensures run[|labels|] == WithProc(Begin(), 0, Asleep())
  {
    var s := Begin();
    run, labels := [s], [];
    var c := Read(0, 1);
    var t := WithPc(s, 0, Enter(c));
    assert NobodyClosesRead(s, 0);
    Extend(run, labels, t, Begins(0, Enter(c)));
    run, labels, s := run + [t], labels + [Begins(0, Enter(c))], t;
    var n := 0;
    while n < 5
      invariant n <= 5 && IsRun(run, labels) && run[|labels|] == s && Falling(s, n)
    {
      t := Do(s, 0);
      FallsOn(s, n);
      Extend(run, labels, t, Goes(0));
      run, labels, s := run + [t], labels + [Goes(0)], t;
      n := n + 1;
    }
    t := s.(pt := Nobody);
    Extend(run, labels, t, Scheduler);
    run, labels := run + [t], labels + [Scheduler];
    assert t.procs == [t.procs[0]] + t.procs[1..];
    assert t == WithProc(Begin(), 0, Asleep());
  }

  /** The writer fills the pipe. */
  lemma WriterFills() returns (run: seq<State>, labels: seq<Label>)
    ensures IsRun(run, labels)
    ensures var s := run[|labels|];
      && s.procs == [Asleep(), Writer(Loop(Write(0, Src, PIPESIZE)), false)] && s.locks == [] && |s.pipes| == 1
      && s.pt == Nobody && s.pipes[0].nread == 0 && s.pipes[0].nwrite == PIPESIZE
      && s.pipes[0].owner == Some(1) && s.pipes[0].readopen && s.pipes[0].writeopen
  {
    run, labels := ReaderSleeps();
    var s := run[|labels|];
    var t := WithPc(s, 1, Enter(Write(0, Src, 0)));
    Extend(run, labels, t, Begins(1, Enter(Write(0, Src, 0))));
    run, labels, s := run + [t], labels + [Begins(1, Enter(Write(0, Src, 0)))], t;
    t := Do(s, 1);
    Extend(run, labels, t, Goes(1));
    run, labels, s := run + [t], labels + [Goes(1)], t;
    var k := 0;
    while k < PIPESIZE
      invariant k <= PIPESIZE && IsRun(run, labels) && run[|labels|] == s
      invariant s.procs == [Asleep(), Writer(Loop(Write(0, Src, k)), false)] && s.locks == [] && |s.pipes| == 1
      invariant s.pt == Nobody && s.pipes[0].nread == 0 && s.pipes[0].nwrite == k
      invariant s.pipes[0].owner == Some(1) && s.pipes[0].readopen && s.pipes[0].writeopen
    {
      t := Do(s, 1);
      Extend(run, labels, t, Goes(1));
      run, labels, s := run + [t], labels + [Goes(1)], t;
      k := k + 1;
    }
  }

  /** A reader can be left asleep on a pipe with 512 unread bytes, both ends open and no lock taken:
    * the writer that stored them was killed and returned without a wakeup. */
  lemma KilledWriterStrandsReader() returns (run: seq<State>, labels: seq<Label>)
    ensures IsRun(run, labels)
    ensures var s := run[|labels|];
      && |s.procs| == 2 && s.procs[0].sleeping && s.procs[0].chan == Some(OnRead(0)) && s.procs[1].pc == Idle
      && s.pt == Nobody && |s.pipes| == 1 && s.pipes[0].owner == None
      && s.pipes[0].readopen && s.pipes[0].writeopen && s.pipes[0].nwrite == s.pipes[0].nread + PIPESIZE
  {
    run, labels := WriterFills();
    var s := run[|labels|];
    var t := s.(procs := s.procs[1 := s.procs[1].(killed := true, sleeping := false)]);
    Extend(run, labels, t, Kills(1));
    run, labels, s := run + [t], labels + [Kills(1)], t;
    t := Do(s, 1);
    Extend(run, labels, t, Goes(1));
    run, labels, s := run + [t], labels + [Goes(1)], t;
    assert s.procs[1].pc == Unlock(PipeObj(0));
    t := Do(s, 1);
    Extend(run, labels, t, Goes(1));
    run, labels := run + [t], labels + [Goes(1)];
  }
}
