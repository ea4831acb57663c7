/** A counting semaphore with a FIFO queue of parked waiters.

    In the TypeScript service, a caller that finds no permit is suspended on a promise whose
    `resolve` callback sits in `tasks`; here the queue holds the waiter's identity
    instead, and waking a waiter means removing it from the head of the queue.
 */
module Semaphores {

  datatype Option<T> = None | Some(value: T)

  /** The whole observable state of one semaphore: its permit counter and its queue. */
  datatype SemState<W> = SemState(count: int, tasks: seq<W>)

  /** A free permit is never left unused while someone waits. */
  predicate NoIdlePermit<W>(s: SemState<W>) {
    s.count > 0 ==> s.tasks == []
  }

  datatype AcquireResult<W> = AcquireResult(state: SemState<W>, granted: bool)
  datatype ReleaseResult<W> = ReleaseResult(state: SemState<W>, woken: Option<W>)

  /** `acquire()` issued by waiter `w`: take a permit if there is one, otherwise park `w`.
      `granted` says whether the returned promise is already resolved. */
  function Acquired<W>(s: SemState<W>, w: W): (r: AcquireResult<W>)
    // the caller gets through at once exactly when a permit was available
    ensures r.granted <==> s.count > 0
    // an acquire always consumes one unit of availability, one way or the other
    ensures r.state.count - |r.state.tasks| == s.count - |s.tasks| - 1
    // the queue only ever grows at its tail, and only by the caller
    ensures r.state.tasks == if r.granted then s.tasks else s.tasks + [w]
    ensures s.count >= 0 ==> r.state.count >= 0
    ensures NoIdlePermit(s) ==> NoIdlePermit(r.state)
  {
    if s.count > 0 then AcquireResult(SemState(s.count - 1, s.tasks), true)
    else AcquireResult(SemState(s.count, s.tasks + [w]), false)
  }

  /** `release()`: hand the permit to the head waiter if there is one, otherwise add a permit. */
  function Released<W>(s: SemState<W>): (r: ReleaseResult<W>)
    // someone is woken exactly when someone was waiting, and it is the head of the queue
    ensures r.woken.Some? <==> s.tasks != []
    ensures r.woken.Some? ==> s.tasks == [r.woken.value] + r.state.tasks
    // with nobody waiting, the permit goes back to the counter, whatever it held
    ensures r.woken.None? ==> r.state == SemState(s.count + 1, s.tasks)
    // a release always produces one unit of availability
    ensures r.state.count - |r.state.tasks| == s.count - |s.tasks| + 1
    // the counter never goes down, and it has no upper bound
    ensures r.state.count >= s.count
    ensures NoIdlePermit(s) ==> NoIdlePermit(r.state)
  {
    if |s.tasks| > 0 then ReleaseResult(SemState(s.count, s.tasks[1..]), Some(s.tasks[0]))
    else ReleaseResult(SemState(s.count + 1, s.tasks), None)
  }

  /** A release undoes an acquire issued while nobody was waiting. */
  lemma AcquireThenRelease<W>(s: SemState<W>, w: W)
    requires s.tasks == []
    ensures Released(Acquired(s, w).state).state == s
    ensures Released(Acquired(s, w).state).woken == if s.count > 0 then None else Some(w)
  {
  }

  // ---------------------------------------------------------------------------
  // Sequences of operations

  datatype Op<W> = AcquireOp(waiter: W) | ReleaseOp

  /** What a run of operations did: the final state, the waiters that had to park
      (in the order they parked) and the waiters that were woken (in wake order). */
  datatype Trace<W> = Trace(final: SemState<W>, parked: seq<W>, woken: seq<W>)

  /** One operation, as a piece of trace. */
  function Step<W>(s: SemState<W>, op: Op<W>): (t: Trace<W>)
    // what was queued plus who parked is who was woken plus what is now queued
    ensures s.tasks + t.parked == t.woken + t.final.tasks
  {
    match op
    case AcquireOp(w) =>
      var a := Acquired(s, w);
      Trace(a.state, if a.granted then [] else [w], [])
    case ReleaseOp =>
      var rel := Released(s);
      Trace(rel.state, [], if rel.woken.Some? then [rel.woken.value] else [])
  }

  function Run<W>(s: SemState<W>, ops: seq<Op<W>>): Trace<W>
    decreases |ops|
  {
    if ops == [] then Trace(s, [], [])
    else
      var first := Step(s, ops[0]);
      var rest := Run(first.final, ops[1..]);
      Trace(rest.final, first.parked + rest.parked, first.woken + rest.woken)
  }

  function AcquireCount<W>(ops: seq<Op<W>>): nat {
    if ops == [] then 0 else (if ops[0].AcquireOp? then 1 else 0) + AcquireCount(ops[1..])
  }

  function ReleaseCount<W>(ops: seq<Op<W>>): nat {
    if ops == [] then 0 else (if ops[0].ReleaseOp? then 1 else 0) + ReleaseCount(ops[1..])
  }

  /** `count` never goes negative under any sequence of acquires and releases. */
  lemma {:induction false} RunNeverUnderflows<W>(s: SemState<W>, ops: seq<Op<W>>)
    requires s.count >= 0
    ensures Run(s, ops).final.count >= 0
    decreases |ops|
  {
    if ops != [] {
      RunNeverUnderflows(Step(s, ops[0]).final, ops[1..]);
    }
  }

  /** Both operations preserve "a free permit implies an empty queue". */
  lemma {:induction false} RunKeepsNoIdlePermit<W>(s: SemState<W>, ops: seq<Op<W>>)
    requires NoIdlePermit(s)
    ensures NoIdlePermit(Run(s, ops).final)
    decreases |ops|
  {
    if ops != [] {
      RunKeepsNoIdlePermit(Step(s, ops[0]).final, ops[1..]);
    }
  }

  /** Permit conservation: free permits minus parked waiters moves by exactly one per
      operation, up for a release and down for an acquire. */
  lemma {:induction false} RunConservesPermits<W>(s: SemState<W>, ops: seq<Op<W>>)
    ensures Run(s, ops).final.count - |Run(s, ops).final.tasks|
         == s.count - |s.tasks| + ReleaseCount(ops) - AcquireCount(ops)
    decreases |ops|
  {
    if ops != [] {
      RunConservesPermits(Step(s, ops[0]).final, ops[1..]);
    }
  }

  /** FIFO: the waiters already queued followed by those that parked during the run are
      exactly the waiters woken during the run followed by those still queued. */
  lemma {:induction false} RunIsFifo<W>(s: SemState<W>, ops: seq<Op<W>>)
    ensures s.tasks + Run(s, ops).parked == Run(s, ops).woken + Run(s, ops).final.tasks
    decreases |ops|
  {
    if ops != [] {
      var first := Step(s, ops[0]);
      var rest := Run(first.final, ops[1..]);
      RunIsFifo(first.final, ops[1..]);
      FifoCompose(s.tasks, first.parked, first.woken, first.final.tasks, rest.parked, rest.woken, rest.final.tasks);
    }
  }

  /** Two queue histories, each "queued + parked == woken + left", chain into one. */
  lemma FifoCompose<W>(q0: seq<W>, p1: seq<W>, w1: seq<W>, q1: seq<W>, p2: seq<W>, w2: seq<W>, q2: seq<W>)
    requires q0 + p1 == w1 + q1
    requires q1 + p2 == w2 + q2
    ensures q0 + (p1 + p2) == (w1 + w2) + q2
  {
    calc {
      q0 + (p1 + p2);
      (q0 + p1) + p2;
      (w1 + q1) + p2;
      w1 + (q1 + p2);
      w1 + (w2 + q2);
    }
  }

  /** Starting from an empty queue, waiters are woken in the order in which they parked. */
  lemma WakeOrderIsParkOrder<W>(s: SemState<W>, ops: seq<Op<W>>)
    requires s.tasks == []
    ensures Run(s, ops).woken <= Run(s, ops).parked
  {
    RunIsFifo(s, ops);
    assert [] + Run(s, ops).parked == Run(s, ops).parked;
  }

  function Releases<W>(k: nat): (ops: seq<Op<W>>)
    ensures |ops| == k && forall i :: 0 <= i < k ==> ops[i] == ReleaseOp
  {
    if k == 0 then [] else [ReleaseOp] + Releases(k - 1)
  }

  /** Over-release is allowed: with nobody waiting, k releases add k permits, whatever the
      counter held before. */
  lemma {:induction false} OverReleaseIsUnbounded<W>(c: int, k: nat)
    ensures Run<W>(SemState(c, []), Releases(k)).final == SemState(c + k, [])
    ensures Run<W>(SemState(c, []), Releases(k)).woken == []
    decreases k
  {
    if k > 0 {
      OverReleaseIsUnbounded<W>(c + 1, k - 1);
      assert Releases<W>(k)[1..] == Releases(k - 1);
    }
  }

  /** Three waiters parked on an empty semaphore are woken by three releases in the order
      they called `acquire`. This is the FIFO scenario stated on values, through `Run`;
      `FifoWakeOrder` below states the same scenario on a `Semaphore` object. */
  lemma ThreeWaitersWakeInOrder()
    ensures Run(SemState(0, []), [AcquireOp(1), AcquireOp(2), AcquireOp(3), ReleaseOp, ReleaseOp, ReleaseOp])
         == Trace(SemState(0, []), [1, 2, 3], [1, 2, 3])
  {
  }

  // ---------------------------------------------------------------------------
  // The semaphore object

  class Semaphore<W> {
    var count: int
    var tasks: seq<W>

    function State(): SemState<W>
      reads this
    {
      SemState(count, tasks)
    }

    constructor (count: int)
      ensures State() == SemState(count, [])
    {
      this.count := count;
      tasks := [];
    }

    /** Returns whether the caller may proceed at once; otherwise `w` is left parked. */
    method Acquire(w: W) returns (granted: bool)
      modifies this
      ensures AcquireResult(State(), granted) == Acquired(old(State()), w)
      ensures old(count) > 0 ==> granted && count == old(count) - 1 && tasks == old(tasks)
      ensures old(count) <= 0 ==> !granted && count == old(count) && tasks == old(tasks) + [w]
    {
      if count > 0 {
        count := count - 1;
        return true;
      }
      tasks := tasks + [w];
      return false;
    }

    /** Returns the waiter that was woken, if any. */
    method Release() returns (woken: Option<W>)
      modifies this
      ensures ReleaseResult(State(), woken) == Released(old(State()))
      ensures old(tasks) != [] ==> woken == Some(old(tasks)[0]) && tasks == old(tasks)[1..] && count == old(count)
      ensures old(tasks) == [] ==> woken == None && tasks == [] && count == old(count) + 1
    {
      if |tasks| > 0 {
        var next := tasks[0];
        tasks := tasks[1..];
        woken := Some(next);
      } else {
        count := count + 1;
        woken := None;
      }
    }
  }

  /** A semaphore created with one permit lets the first caller through at once. */
  method ImmediateAcquire() returns (granted: bool)
    ensures granted
  {
    var sem := new Semaphore<nat>(1);
    granted := sem.Acquire(1);
  }

  /** With its only permit taken, a second caller stays parked until one release wakes it. */
  method BlockUntilRelease() returns (first: bool, second: bool, stillParked: bool, woken: Option<nat>)
    ensures first && !second && stillParked
    ensures woken == Some(2)
  {
    var sem := new Semaphore<nat>(1);
    first := sem.Acquire(1);
    second := sem.Acquire(2);
    stillParked := sem.tasks == [2];
    woken := sem.Release();
  }

  /** Three callers parked on a semaphore with no permits are woken one per release, in
      the order in which they called `acquire`: the FIFO scenario of
      `ThreeWaitersWakeInOrder`, here run on a `Semaphore` object whose fields change. */
  method FifoWakeOrder() returns (afterFirst: seq<nat>, afterSecond: seq<nat>, afterThird: seq<nat>)
    ensures afterFirst == [1] && afterSecond == [1, 2] && afterThird == [1, 2, 3]
  {
    var sem := new Semaphore<nat>(0);
    var g1 := sem.Acquire(1);
    var g2 := sem.Acquire(2);
    var g3 := sem.Acquire(3);
    var w1 := sem.Release();
    afterFirst := [w1.value];
    var w2 := sem.Release();
    afterSecond := afterFirst + [w2.value];
    var w3 := sem.Release();
    afterThird := afterSecond + [w3.value];
  }
}
