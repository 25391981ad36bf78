/** The original scheduler: one CPU scans the process table, dispatching every RUNNABLE process it
  * comes to, over and over. */
module RoundRobin {
  /** The scan is about to look at slot k; runnable says which slots are RUNNABLE. */
  datatype State = State(k: nat, runnable: seq<bool>)

  datatype Event = Passes | Dispatches(p: nat)

  /** One slot of the scan.  What the other slots do meanwhile, while the dispatched process runs or
    * between two scans, is up to the environment: t's runnable is arbitrary. */
  predicate Step(s: State, e: Event, t: State) {
    && s.k < |s.runnable| == |t.runnable|
    && e == (if s.runnable[s.k] then Dispatches(s.k) else Passes)
    && t.k == if s.k + 1 == |s.runnable| then 0 else s.k + 1
  }

  ghost predicate StepAt(run: seq<State>, events: seq<Event>, i: nat) {
    i < |events| && i + 1 < |run| && Step(run[i], events[i], run[i + 1])
  }

  ghost predicate IsRun(run: seq<State>, events: seq<Event>) {
    && |run| == |events| + 1
    && (forall i: nat :: i < |events| ==> StepAt(run, events, i))
    && run[0].k < |run[0].runnable|
  }

  /** p is RUNNABLE whenever the scan looks at a slot, and is never dispatched. */
  ghost predicate Waits(run: seq<State>, events: seq<Event>, p: nat) {
    && (forall i: nat :: i < |run| ==> p < |run[i].runnable| && run[i].runnable[p])
    && (forall i: nat :: i < |events| ==> events[i] != Dispatches(p))
  }

  function Dispatched(events: seq<Event>): nat {
    if events == [] then 0
    else Dispatched(events[..|events| - 1]) + (if events[|events| - 1].Dispatches? then 1 else 0)
  }

  /** Slots the scan still has to look at before slot p, from slot k, of n. */
  function Before(k: nat, p: nat, n: nat): nat
    requires k < n && p < n
  {
    if k <= p then p - k else n - k + p
  }

  lemma {:induction false} Approaches(run: seq<State>, events: seq<Event>, p: nat)
    requires IsRun(run, events) && Waits(run, events, p)
    ensures var s, t, n := run[0], run[|events|], |run[0].runnable|;
      && |t.runnable| == n && t.k < n && p < n
      && Dispatched(events) <= |events|
      && |events| + Before(t.k, p, n) == Before(s.k, p, n)
    decreases |events|
  {
    if events != [] {
      var m := |events| - 1;
      var r, es := run[..m + 1], events[..m];
      forall i: nat | i < |es| ensures StepAt(r, es, i) {
        assert StepAt(run, events, i);
      }
      Approaches(r, es, p);
      assert StepAt(run, events, m);
      assert run[m].runnable[p] && events[m] != Dispatches(p);
    }
  }

  /** A process that stays RUNNABLE waits for at most |table| - 1 slots to be looked at, and so for at
    * most that many other dispatches, wherever the scan is when it becomes RUNNABLE. */
  lemma BoundedWaiting(run: seq<State>, events: seq<Event>, p: nat)
    requires IsRun(run, events) && Waits(run, events, p)
    ensures Dispatched(events) <= |events| <= |run[0].runnable| - 1
  {
    Approaches(run, events, p);
  }

  /** The bound is reached: with every slot RUNNABLE and the scan just past p, all others come first. */
  lemma BoundIsReached(n: nat) returns (run: seq<State>, events: seq<Event>)
    requires n > 0
    ensures IsRun(run, events) && Waits(run, events, 0) && Dispatched(events) == n - 1 && |run[0].runnable| == n
  {
    var all := seq(n, i => true);
    run, events := [State(if n == 1 then 0 else 1, all)], [];
    var k := 1;
    while k < n
      invariant 1 <= k <= n && IsRun(run, events) && Waits(run, events, 0) && |run[0].runnable| == n
      invariant Dispatched(events) == k - 1 && run[|events|] == State(if k == n then 0 else k, all)
    {
      var t := State(if k + 1 == n then 0 else k + 1, all);
      var r, es := run + [t], events + [Dispatches(k)];
      forall i: nat | i < |es| ensures StepAt(r, es, i) {
        if i < |events| { assert StepAt(run, events, i); }
      }
      assert es[..|es| - 1] == events;
      run, events := r, es;
      k := k + 1;
    }
  }
}
