/** The bounded producer/consumer buffer of the transaction service.

    Each asynchronous operation of the service runs synchronously between its `await`
    points, so it is modelled as a series of atomic steps, one per stretch of code
    between two awaits. A task that awaits a semaphore either passes at once or sits,
    under its own identity, in that semaphore's queue until a release removes it;
    after that any enabled step of any task may run next.
 */
module Transactions {
  import opened Semaphores

  /** The payload; the service only stores and forwards it. */
  datatype Transaction = Transaction(id: string, amount: real, accountId: string, timestamp: int)

  /** The identities that wait in the semaphores' queues: one per `submitTransaction`
      call, and the single consumer loop. */
  datatype Task = Producer(call: nat) | Consumer

  /** Where an unfinished `submitTransaction` call stands: it has issued
      `spaces.acquire()` (and may be parked there), or it has issued `mutex.acquire()`. */
  datatype ProducerStage = AwaitingSpace(tx: Transaction) | AwaitingLock(tx: Transaction)

  /** Where the consumer loop stands within one iteration. */
  datatype ConsumerStage =
    | Idle                               // between iterations
    | AwaitingItem                       // has issued `items.acquire()`
    | AwaitingBufferLock                 // has issued `mutex.acquire()`
    | AwaitingCallback(tx: Transaction)  // is awaiting the business logic for `tx`

  type Producers = map<nat, ProducerStage>

  ghost predicate NoDuplicates<T>(s: seq<T>) {
    forall i, j :: 0 <= i < j < |s| ==> s[i] != s[j]
  }

  lemma NoDuplicatesAppend<T>(s: seq<T>, x: T)
    requires NoDuplicates(s) && x !in s
    ensures NoDuplicates(s + [x])
  {
  }

  lemma NoDuplicatesTail<T>(s: seq<T>)
    requires NoDuplicates(s) && s != []
    ensures NoDuplicates(s[1..]) && s[0] !in s[1..]
  {
  }

  // ---------------------------------------------------------------------------
  // The semaphore `spaces` against the buffer

  /** The unfinished calls that hold a `spaces` permit but have not pushed yet: every
      unfinished call that is not parked on `spaces`. */
  ghost function SpaceHolders(ps: Producers, parked: seq<Task>): set<nat> {
    set n | n in ps && Producer(n) !in parked
  }

  /** Only calls still waiting for a space are parked on `spaces`, each once; and every
      slot of the buffer is either free (a permit), filled, or promised to a call that
      holds a permit. */
  ghost predicate SpacesInv(sp: SemState<Task>, ps: Producers, used: nat, capacity: nat) {
    sp.count >= 0 && NoIdlePermit(sp) &&
    NoDuplicates(sp.tasks) &&
    (forall t :: t in sp.tasks ==> t.Producer? && t.call in ps && ps[t.call].AwaitingSpace?) &&
    sp.count + used + |SpaceHolders(ps, sp.tasks)| == capacity
  }

  /** Every unfinished call is either parked on `spaces` or holds one of its permits. */
  lemma {:induction false} EveryCallParkedOrHolding(ps: Producers, parked: seq<Task>)
    requires NoDuplicates(parked)
    requires forall t :: t in parked ==> t.Producer? && t.call in ps
    ensures |parked| + |SpaceHolders(ps, parked)| == |ps|
    decreases |parked|
  {
    if parked == [] {
      assert SpaceHolders(ps, parked) == ps.Keys;
    } else {
      var rest := parked[1..];
      NoDuplicatesTail(parked);
      EveryCallParkedOrHolding(ps, rest);
      assert SpaceHolders(ps, rest) == SpaceHolders(ps, parked) + {parked[0].call};
    }
  }

  /** The buffer never holds more than its capacity. */
  lemma CapacityBound(sp: SemState<Task>, ps: Producers, used: nat, capacity: nat)
    requires SpacesInv(sp, ps, used, capacity)
    ensures used + |SpaceHolders(ps, sp.tasks)| <= capacity
    ensures used <= capacity
  {
  }

  /** A new call issues `spaces.acquire()`. */
  lemma SpacesOnBegin(sp: SemState<Task>, ps: Producers, used: nat, capacity: nat, id: nat, tx: Transaction)
    requires SpacesInv(sp, ps, used, capacity) && id !in ps
    ensures SpacesInv(Acquired(sp, Producer(id)).state, ps[id := AwaitingSpace(tx)], used, capacity)
  {
    var a := Acquired(sp, Producer(id));
    var ps' := ps[id := AwaitingSpace(tx)];
    assert Producer(id) !in sp.tasks;
    if a.granted {
      assert SpaceHolders(ps', a.state.tasks) == SpaceHolders(ps, sp.tasks) + {id};
    } else {
      NoDuplicatesAppend(sp.tasks, Producer(id));
      assert SpaceHolders(ps', a.state.tasks) == SpaceHolders(ps, sp.tasks);
    }
  }

  /** A call that got its space moves on to the mutex. */
  lemma SpacesOnLock(sp: SemState<Task>, ps: Producers, used: nat, capacity: nat, id: nat, tx: Transaction)
    requires SpacesInv(sp, ps, used, capacity)
    requires id in ps && ps[id].AwaitingSpace? && Producer(id) !in sp.tasks
    ensures SpacesInv(sp, ps[id := AwaitingLock(tx)], used, capacity)
  {
    assert SpaceHolders(ps[id := AwaitingLock(tx)], sp.tasks) == SpaceHolders(ps, sp.tasks);
  }

  /** A call pushes its item and finishes: its promised slot is now a filled one. */
  lemma SpacesOnPush(sp: SemState<Task>, ps: Producers, used: nat, capacity: nat, id: nat)
    requires SpacesInv(sp, ps, used, capacity)
    requires id in ps && ps[id].AwaitingLock?
    ensures SpacesInv(sp, ps - {id}, used + 1, capacity)
  {
    assert Producer(id) !in sp.tasks;
    assert SpaceHolders(ps - {id}, sp.tasks) == SpaceHolders(ps, sp.tasks) - {id};
  }

  /** The consumer shifts an item and issues `spaces.release()`: the freed slot goes to
      the longest-waiting call, or back to the counter. */
  lemma SpacesOnShift(sp: SemState<Task>, ps: Producers, used: nat, capacity: nat)
    requires SpacesInv(sp, ps, used, capacity) && used > 0
    ensures SpacesInv(Released(sp).state, ps, used - 1, capacity)
  {
    var r := Released(sp);
    if sp.tasks != [] {
      NoDuplicatesTail(sp.tasks);
      assert SpaceHolders(ps, r.state.tasks) == SpaceHolders(ps, sp.tasks) + {sp.tasks[0].call};
    }
  }

  // ---------------------------------------------------------------------------
  // The semaphore `items` against the buffer

  /** 1 while the consumer has issued `items.acquire()` and not yet shifted. */
  function ItemClaims(c: ConsumerStage): nat {
    if c == AwaitingItem || c == AwaitingBufferLock then 1 else 0
  }

  /** Only the consumer ever waits for an item, and the item permits, less the one the
      consumer may have claimed, are the items in the buffer. */
  ghost predicate ItemsInv(it: SemState<Task>, c: ConsumerStage, used: nat) {
    it.count >= 0 && NoIdlePermit(it) &&
    (it.tasks == [] || (it.tasks == [Consumer] && c == AwaitingItem)) &&
    it.count - |it.tasks| == used - ItemClaims(c)
  }

  /** Between iterations of the consumer loop, `items` holds one permit per buffered item. */
  lemma ItemsMatchBuffer(it: SemState<Task>, used: nat)
    requires ItemsInv(it, Idle, used)
    ensures it == SemState(used, [])
  {
  }

  lemma ItemsOnAwait(it: SemState<Task>, used: nat)
    requires ItemsInv(it, Idle, used)
    ensures ItemsInv(Acquired(it, Consumer).state, AwaitingItem, used)
    ensures Acquired(it, Consumer).granted <==> used > 0
  {
  }

  lemma ItemsOnLock(it: SemState<Task>, used: nat)
    requires ItemsInv(it, AwaitingItem, used) && Consumer !in it.tasks
    ensures ItemsInv(it, AwaitingBufferLock, used)
  {
  }

  /** The consumer holds an item permit when it shifts, so the buffer is not empty. */
  lemma ItemsOnShift(it: SemState<Task>, used: nat, tx: Transaction)
    requires ItemsInv(it, AwaitingBufferLock, used)
    ensures used > 0 && ItemsInv(it, AwaitingCallback(tx), used - 1)
  {
  }

  /** A producer pushes and issues `items.release()`, waking the consumer if it waits. */
  lemma ItemsOnPush(it: SemState<Task>, c: ConsumerStage, used: nat)
    requires ItemsInv(it, c, used)
    ensures ItemsInv(Released(it).state, c, used + 1)
  {
  }

  lemma ItemsOnSettle(it: SemState<Task>, used: nat, tx: Transaction)
    requires ItemsInv(it, AwaitingCallback(tx), used)
    ensures ItemsInv(it, Idle, used)
  {
  }

  // ---------------------------------------------------------------------------
  // The semaphore `mutex`

  /** `t` has issued `mutex.acquire()` and not yet released the mutex. */
  ghost predicate InLockStage(ps: Producers, c: ConsumerStage, t: Task) {
    match t
    case Producer(n) => n in ps && ps[n].AwaitingLock?
    case Consumer => c == AwaitingBufferLock
  }

  ghost predicate HoldsLock(mx: SemState<Task>, ps: Producers, c: ConsumerStage, t: Task) {
    InLockStage(ps, c, t) && t !in mx.tasks
  }

  /** Only tasks that asked for the mutex wait on it, each once; the tasks in their
      critical section that are not waiting are exactly `holder`, and the mutex has its
      permit exactly when nobody holds it. */
  ghost predicate MutexInv(mx: SemState<Task>, ps: Producers, c: ConsumerStage, holder: Option<Task>) {
    mx.count >= 0 && NoIdlePermit(mx) &&
    NoDuplicates(mx.tasks) &&
    (forall t :: t in mx.tasks ==> InLockStage(ps, c, t)) &&
    mx.count == (if holder.None? then 1 else 0) &&
    (forall t :: HoldsLock(mx, ps, c, t) <==> holder == Some(t))
  }

  /** Mutual exclusion: at most one task is inside a critical section. */
  lemma AtMostOneHolder(mx: SemState<Task>, ps: Producers, c: ConsumerStage, holder: Option<Task>, t1: Task, t2: Task)
    requires MutexInv(mx, ps, c, holder)
    requires HoldsLock(mx, ps, c, t1) && HoldsLock(mx, ps, c, t2)
    ensures t1 == t2
  {
  }

  /** The mutex is given back: whenever no task is inside a critical section, it is at
      one permit with nobody waiting. */
  lemma MutexReturned(mx: SemState<Task>, ps: Producers, c: ConsumerStage, holder: Option<Task>)
    requires MutexInv(mx, ps, c, holder)
    requires c != AwaitingBufferLock && forall n :: n in ps ==> ps[n].AwaitingSpace?
    ensures mx == SemState(1, []) && holder == None
  {
  }

  lemma MutexOnBegin(mx: SemState<Task>, ps: Producers, c: ConsumerStage, holder: Option<Task>, id: nat, tx: Transaction)
    requires MutexInv(mx, ps, c, holder) && id !in ps
    ensures MutexInv(mx, ps[id := AwaitingSpace(tx)], c, holder)
  {
    var ps' := ps[id := AwaitingSpace(tx)];
    assert forall t :: InLockStage(ps', c, t) <==> InLockStage(ps, c, t);
  }

  lemma MutexOnConsumerAwait(mx: SemState<Task>, ps: Producers, holder: Option<Task>)
    requires MutexInv(mx, ps, Idle, holder)
    ensures MutexInv(mx, ps, AwaitingItem, holder)
  {
    assert forall t :: InLockStage(ps, AwaitingItem, t) <==> InLockStage(ps, Idle, t);
  }

  lemma MutexOnSettle(mx: SemState<Task>, ps: Producers, holder: Option<Task>, tx: Transaction)
    requires MutexInv(mx, ps, AwaitingCallback(tx), holder)
    ensures MutexInv(mx, ps, Idle, holder)
  {
    assert forall t :: InLockStage(ps, Idle, t) <==> InLockStage(ps, AwaitingCallback(tx), t);
  }

  /** A task outside its critical section issues `mutex.acquire()`: it becomes the
      holder if the mutex was free, and waits at the tail otherwise. */
  lemma MutexOnAcquire(mx: SemState<Task>, ps: Producers, c: ConsumerStage, holder: Option<Task>,
                       ps': Producers, c': ConsumerStage, t: Task)
    requires MutexInv(mx, ps, c, holder)
    requires !InLockStage(ps, c, t) && InLockStage(ps', c', t)
    requires forall u :: u != t ==> (InLockStage(ps', c', u) <==> InLockStage(ps, c, u))
    ensures var a := Acquired(mx, t);
      MutexInv(a.state, ps', c', if a.granted then Some(t) else holder)
  {
    var a := Acquired(mx, t);
    assert t !in mx.tasks;
    if !a.granted {
      NoDuplicatesAppend(mx.tasks, t);
    } else {
      assert holder == None;
      forall u | HoldsLock(a.state, ps', c', u)
        ensures u == t
      {
        assert u != t ==> HoldsLock(mx, ps, c, u);
      }
    }
  }

  /** The holder leaves its critical section and issues `mutex.release()`: the mutex
      passes to the head waiter, or its permit returns. */
  lemma MutexOnRelease(mx: SemState<Task>, ps: Producers, c: ConsumerStage, holder: Option<Task>,
                       ps': Producers, c': ConsumerStage, t: Task)
    requires MutexInv(mx, ps, c, holder)
    requires HoldsLock(mx, ps, c, t) && !InLockStage(ps', c', t)
    requires forall u :: u != t ==> (InLockStage(ps', c', u) <==> InLockStage(ps, c, u))
    ensures var r := Released(mx);
      MutexInv(r.state, ps', c', r.woken)
  {
    var r := Released(mx);
    assert holder == Some(t);
    if mx.tasks != [] {
      NoDuplicatesTail(mx.tasks);
      forall u | HoldsLock(r.state, ps', c', u)
        ensures u == mx.tasks[0]
      {
        assert u != mx.tasks[0] ==> u in mx.tasks[1..] || HoldsLock(mx, ps, c, u);
      }
    } else {
      forall u | InLockStage(ps', c', u)
        ensures false
      {
        assert HoldsLock(mx, ps, c, u);
      }
    }
  }

  // ---------------------------------------------------------------------------
  // The service object

  class TransactionService {
    const BUFFER_CAPACITY: nat := 10
    var buffer: seq<Transaction>
    const items: Semaphore<Task>
    const spaces: Semaphore<Task>
    const mutex: Semaphore<Task>

    /** The unfinished `submitTransaction` calls, by call number. */
    var producers: Producers
    var consumer: ConsumerStage
    /** Every transaction handed to the business logic, in call order. */
    var processed: seq<Transaction>

    /** Every transaction ever pushed onto the buffer, in push order. */
    ghost var arrived: seq<Transaction>
    /** The task inside a critical section, if any. */
    ghost var lockHolder: Option<Task>

    ghost predicate Valid()
      reads this, items, spaces, mutex
    {
      items != spaces && items != mutex && spaces != mutex &&
      SpacesInv(spaces.State(), producers, |buffer|, BUFFER_CAPACITY) &&
      ItemsInv(items.State(), consumer, |buffer|) &&
      MutexInv(mutex.State(), producers, consumer, lockHolder) &&
      // items leave the buffer in the order in which they entered it
      processed + buffer == arrived
    }

    constructor ()
      ensures Valid()
      ensures fresh(items) && fresh(spaces) && fresh(mutex)
      ensures buffer == [] && producers == map[] && consumer == Idle && processed == []
      ensures items.State() == SemState(0, [])
      ensures spaces.State() == SemState(BUFFER_CAPACITY, [])
      ensures mutex.State() == SemState(1, [])
    {
      buffer := [];
      items := new Semaphore(0);
      spaces := new Semaphore(BUFFER_CAPACITY);
      mutex := new Semaphore(1);
      producers := map[];
      consumer := Idle;
      processed := [];
      arrived := [];
      lockHolder := None;
      new;
      assert SpaceHolders(producers, spaces.tasks) == {};
    }

    // -------------------------------------------------------------------------
    // submitTransaction, one step per stretch between awaits

    /** Call `id` starts: `await this.spaces.acquire()`. */
    method SubmitBegin(id: nat, tx: Transaction) returns (granted: bool)
      requires Valid() && id !in producers
      modifies this`producers, spaces
      ensures Valid()
      ensures producers == old(producers)[id := AwaitingSpace(tx)]
      ensures AcquireResult(spaces.State(), granted) == Acquired(old(spaces.State()), Producer(id))
    {
      SpacesOnBegin(spaces.State(), producers, |buffer|, BUFFER_CAPACITY, id, tx);
      MutexOnBegin(mutex.State(), producers, consumer, lockHolder, id, tx);
      producers := producers[id := AwaitingSpace(tx)];
      granted := spaces.Acquire(Producer(id));
    }

    /** Call `id`, past `spaces`: `await this.mutex.acquire()`. */
    method SubmitLock(id: nat) returns (granted: bool)
      requires Valid() && id in producers && producers[id].AwaitingSpace? && Producer(id) !in spaces.tasks
      modifies this`producers, this`lockHolder, mutex
      ensures Valid()
      ensures producers == old(producers)[id := AwaitingLock(old(producers)[id].tx)]
      ensures AcquireResult(mutex.State(), granted) == Acquired(old(mutex.State()), Producer(id))
      ensures lockHolder == if granted then Some(Producer(id)) else old(lockHolder)
    {
      var ps' := producers[id := AwaitingLock(producers[id].tx)];
      SpacesOnLock(spaces.State(), producers, |buffer|, BUFFER_CAPACITY, id, producers[id].tx);
      MutexOnAcquire(mutex.State(), producers, consumer, lockHolder, ps', consumer, Producer(id));
      producers := ps';
      granted := mutex.Acquire(Producer(id));
      if granted {
        lockHolder := Some(Producer(id));
      }
    }

    /** Call `id`, inside its critical section: `this.buffer.push(transaction)`, then
        `this.mutex.release()` and `this.items.release()`; the call returns. */
    method SubmitFinish(id: nat)
      requires Valid() && id in producers && producers[id].AwaitingLock? && Producer(id) !in mutex.tasks
      modifies this`buffer, this`producers, this`arrived, this`lockHolder, mutex, items
      ensures Valid()
      ensures buffer == old(buffer) + [old(producers)[id].tx]
      ensures arrived == old(arrived) + [old(producers)[id].tx]
      ensures producers == old(producers) - {id}
      ensures ReleaseResult(mutex.State(), lockHolder) == Released(old(mutex.State()))
      ensures items.State() == Released(old(items.State())).state
    {
      var ps' := producers - {id};
      SpacesOnPush(spaces.State(), producers, |buffer|, BUFFER_CAPACITY, id);
      MutexOnRelease(mutex.State(), producers, consumer, lockHolder, ps', consumer, Producer(id));
      ItemsOnPush(items.State(), consumer, |buffer|);
      var tx := producers[id].tx;
      buffer := buffer + [tx];
      arrived := arrived + [tx];
      producers := ps';
      var next := mutex.Release();
      lockHolder := next;
      var _ := items.Release();
    }

    // -------------------------------------------------------------------------
    // One iteration of the consumer loop, one step per stretch between awaits

    /** `await this.items.acquire()`. */
    method ConsumerAwaitItem() returns (granted: bool)
      requires Valid() && consumer == Idle
      modifies this`consumer, items
      ensures Valid()
      ensures consumer == AwaitingItem
      ensures AcquireResult(items.State(), granted) == Acquired(old(items.State()), Consumer)
      ensures granted <==> old(buffer) != []
    {
      ItemsOnAwait(items.State(), |buffer|);
      MutexOnConsumerAwait(mutex.State(), producers, lockHolder);
      consumer := AwaitingItem;
      granted := items.Acquire(Consumer);
    }

    /** Past `items`: `await this.mutex.acquire()`. */
    method ConsumerLock() returns (granted: bool)
      requires Valid() && consumer == AwaitingItem && Consumer !in items.tasks
      modifies this`consumer, this`lockHolder, mutex
      ensures Valid()
      ensures consumer == AwaitingBufferLock
      ensures AcquireResult(mutex.State(), granted) == Acquired(old(mutex.State()), Consumer)
      ensures lockHolder == if granted then Some(Consumer) else old(lockHolder)
    {
      ItemsOnLock(items.State(), |buffer|);
      MutexOnAcquire(mutex.State(), producers, consumer, lockHolder, producers, AwaitingBufferLock, Consumer);
      consumer := AwaitingBufferLock;
      granted := mutex.Acquire(Consumer);
      if granted {
        lockHolder := Some(Consumer);
      }
    }

    /** Inside the critical section: `this.buffer.shift()`, `this.mutex.release()`,
        `this.spaces.release()`, then the business logic is called on the item that was
        shifted, if any. An item is always shifted here. */
    method ConsumerTake() returns (taken: Option<Transaction>)
      requires Valid() && consumer == AwaitingBufferLock && Consumer !in mutex.tasks
      modifies this`buffer, this`consumer, this`processed, this`lockHolder, mutex, spaces
      ensures Valid()
      ensures old(buffer) != [] && taken == Some(old(buffer)[0])
      ensures buffer == old(buffer)[1..]
      ensures processed == old(processed) + [taken.value]
      ensures consumer == AwaitingCallback(taken.value)
      ensures ReleaseResult(mutex.State(), lockHolder) == Released(old(mutex.State()))
      ensures spaces.State() == Released(old(spaces.State())).state
    {
      ItemsOnShift(items.State(), |buffer|, buffer[0]);
      SpacesOnShift(spaces.State(), producers, |buffer|, BUFFER_CAPACITY);
      MutexOnRelease(mutex.State(), producers, consumer, lockHolder, producers, AwaitingCallback(buffer[0]), Consumer);
      taken := if |buffer| > 0 then Some(buffer[0]) else None;
      buffer := if |buffer| > 0 then buffer[1..] else buffer;
      var next := mutex.Release();
      lockHolder := next;
      var _ := spaces.Release();
      if taken.Some? {
        processed := processed + [taken.value];
        consumer := AwaitingCallback(taken.value);
      }
    }

    // -------------------------------------------------------------------------
    // Whole operations, when no other task runs in between

    /** `submitTransaction(tx)` run as call `id` for as long as it does not have to wait.
        It completes exactly when a space and the mutex were both free; then the item is
        at the tail of the buffer, the mutex is back as it was, and one item permit was
        released. Otherwise the call is left parked on the semaphore it waits for. */
    method SubmitTransaction(id: nat, tx: Transaction) returns (completed: bool)
      requires Valid() && id !in producers
      modifies this`buffer, this`producers, this`arrived, this`lockHolder, spaces, mutex, items
      ensures Valid()
      ensures completed <==> old(spaces.count) > 0 && old(mutex.count) > 0
      ensures completed ==>
        buffer == old(buffer) + [tx] && producers == old(producers) &&
        mutex.State() == old(mutex.State()) &&
        spaces.State() == Acquired(old(spaces.State()), Producer(id)).state &&
        items.State() == Released(old(items.State())).state
      ensures !completed ==>
        buffer == old(buffer) && items.State() == old(items.State()) && id in producers &&
        producers == old(producers)[id := producers[id]] &&
        spaces.State() == Acquired(old(spaces.State()), Producer(id)).state &&
        ((producers[id] == AwaitingSpace(tx) && spaces.tasks == old(spaces.tasks) + [Producer(id)] &&
          mutex.State() == old(mutex.State())) ||
         (producers[id] == AwaitingLock(tx) && mutex.tasks == old(mutex.tasks) + [Producer(id)] &&
          mutex.State() == Acquired(old(mutex.State()), Producer(id)).state))
    {
      var space := SubmitBegin(id, tx);
      if !space {
        return false;
      }
      var lock := SubmitLock(id);
      if !lock {
        return false;
      }
      SubmitFinish(id);
      assert producers == old(producers);
      return true;
    }

    /** One iteration of the consumer loop, run for as long as it does not have to wait,
        with `failed` saying whether the business logic threw. It completes exactly when
        the buffer had an item and the mutex was free; then the head item was handed to
        the business logic and removed, and the mutex is back as it was. */
    method ConsumerIteration(failed: bool) returns (completed: bool)
      requires Valid() && consumer == Idle
      modifies this`buffer, this`consumer, this`processed, this`lockHolder, items, mutex, spaces
      ensures Valid()
      ensures completed <==> old(buffer) != [] && old(mutex.count) > 0
      ensures completed ==>
        processed == old(processed) + [old(buffer)[0]] && buffer == old(buffer)[1..] &&
        consumer == Idle && mutex.State() == old(mutex.State()) &&
        spaces.State() == Released(old(spaces.State())).state
      ensures !completed ==>
        processed == old(processed) && buffer == old(buffer) &&
        spaces.State() == old(spaces.State()) &&
        ((consumer == AwaitingItem && items.tasks == [Consumer] &&
          items.State() == Acquired(old(items.State()), Consumer).state &&
          mutex.State() == old(mutex.State())) ||
         (consumer == AwaitingBufferLock && mutex.tasks == old(mutex.tasks) + [Consumer] &&
          mutex.State() == Acquired(old(mutex.State()), Consumer).state))
    {
      var item := ConsumerAwaitItem();
      if !item {
        return false;
      }
      var lock := ConsumerLock();
      if !lock {
        return false;
      }
      var _ := ConsumerTake();
      ConsumerSettle(failed);
      return true;
    }

    /** The business logic settles. `failed` only names which of the two paths was taken,
        completion or a thrown error; the loop catches and logs the error, so both paths
        end the iteration the same way and the item is not put back in the buffer. */
    method ConsumerSettle(failed: bool)
      requires Valid() && consumer.AwaitingCallback?
      modifies this`consumer
      ensures Valid()
      ensures consumer == Idle
    {
      ItemsOnSettle(items.State(), |buffer|, consumer.tx);
      MutexOnSettle(mutex.State(), producers, lockHolder, consumer.tx);
      consumer := Idle;
    }
  }

  // ---------------------------------------------------------------------------
  // Facts about every reachable state

  /** The buffer never holds more than `BUFFER_CAPACITY` transactions. */
  lemma BufferWithinCapacity(s: TransactionService)
    requires s.Valid()
    ensures |s.buffer| <= s.BUFFER_CAPACITY
  {
    CapacityBound(s.spaces.State(), s.producers, |s.buffer|, s.BUFFER_CAPACITY);
  }

  /** Every transaction handed to the business logic entered the buffer, and they are
      handed over in the order in which they entered it. */
  lemma ProcessedInArrivalOrder(s: TransactionService)
    requires s.Valid()
    ensures s.processed <= s.arrived
    ensures s.arrived[|s.processed|..] == s.buffer
  {
  }

  /** Between complete operations (no call in progress, the consumer between
      iterations), `items` holds one permit per buffered item, `spaces` one per free
      slot, and the mutex its single permit; nobody waits anywhere. */
  lemma BetweenOperations(s: TransactionService)
    requires s.Valid() && s.producers == map[] && s.consumer == Idle
    ensures s.items.State() == SemState(|s.buffer|, [])
    ensures s.spaces.State() == SemState(s.BUFFER_CAPACITY - |s.buffer|, [])
    ensures s.mutex.State() == SemState(1, [])
  {
    ItemsMatchBuffer(s.items.State(), |s.buffer|);
    EveryCallParkedOrHolding(s.producers, s.spaces.tasks);
    MutexReturned(s.mutex.State(), s.producers, s.consumer, s.lockHolder);
  }

  // ---------------------------------------------------------------------------
  // Scenarios

  /** A single submitted transaction reaches the business logic. */
  method SingleTransaction(tx: Transaction) returns (handled: seq<Transaction>)
    ensures handled == [tx]
  {
    var s := new TransactionService();
    var submitted := s.SubmitTransaction(0, tx);
    var consumed := s.ConsumerIteration(false);
    handled := s.processed;
  }

  /** Transactions submitted one at a time, each awaited before the next, reach the
      business logic in submission order. */
  method SequentialSubmissions(txs: seq<Transaction>) returns (handled: seq<Transaction>)
    ensures handled == txs
  {
    var s := new TransactionService();
    var i := 0;
    while i < |txs|
      invariant 0 <= i <= |txs|
      invariant fresh(s.items) && fresh(s.spaces) && fresh(s.mutex)
      invariant s.Valid()
      invariant s.producers == map[] && s.consumer == Idle && s.buffer == []
      invariant s.processed == txs[..i]
    {
      BetweenOperations(s);
      var submitted := s.SubmitTransaction(i, txs[i]);
      var consumed := s.ConsumerIteration(false);
      assert txs[..i + 1] == txs[..i] + [txs[i]];
      i := i + 1;
    }
    assert txs[..|txs|] == txs;
    handled := s.processed;
  }

  /** The calls numbered `lo` up to (not including) `hi`, in call order. */
  function Calls(lo: nat, hi: nat): (q: seq<Task>)
    ensures |q| == if lo < hi then hi - lo else 0
    ensures forall k :: 0 <= k < |q| ==> q[k] == Producer(lo + k)
    decreases hi - lo
  {
    if lo < hi then [Producer(lo)] + Calls(lo + 1, hi) else []
  }

  /** The unfinished calls numbered `lo` up to `hi`, none of them past `spaces` yet. */
  function Waiting(txs: seq<Transaction>, lo: nat, hi: nat): Producers
    requires hi <= |txs|
  {
    map j | lo <= j < hi :: AwaitingSpace(txs[j])
  }

  /** Every call runs up to `await this.spaces.acquire()`: the first `BUFFER_CAPACITY`
      calls get a space, the others are parked in call order. */
  method FireAll(s: TransactionService, txs: seq<Transaction>)
    requires s.Valid()
    requires s.producers == map[] && s.buffer == [] && s.consumer == Idle && s.processed == []
    requires s.spaces.State() == SemState(s.BUFFER_CAPACITY, []) && s.items.State() == SemState(0, [])
    modifies s, s.spaces
    ensures s.Valid()
    ensures s.producers == Waiting(txs, 0, |txs|)
    ensures s.spaces.State() ==
      SemState(if |txs| < s.BUFFER_CAPACITY then s.BUFFER_CAPACITY - |txs| else 0, Calls(s.BUFFER_CAPACITY, |txs|))
    ensures s.buffer == [] && s.consumer == Idle && s.processed == []
    ensures s.items.State() == SemState(0, [])
  {
    var n := |txs|;
    var cap := s.BUFFER_CAPACITY;
    var i := 0;
    while i < n
      invariant 0 <= i <= n
      invariant s.Valid()
      invariant s.producers == Waiting(txs, 0, i)
      invariant s.spaces.State() == SemState(if i < cap then cap - i else 0, Calls(cap, i))
      invariant s.buffer == [] && s.consumer == Idle && s.processed == []
      invariant s.items.State() == SemState(0, [])
    {
      assert i !in s.producers;
      var _ := s.SubmitBegin(i, txs[i]);
      if cap <= i {
        assert Calls(cap, i) + [Producer(i)] == Calls(cap, i + 1);
      }
      assert s.producers == Waiting(txs, 0, i + 1);
      i := i + 1;
    }
  }

  /** One round of the chosen drain schedule: the oldest pending call `i` takes the mutex
      and pushes; the consumer then runs a whole iteration, taking that transaction and
      giving the freed slot to call `i + BUFFER_CAPACITY`, if there is one. */
  method DrainOne(s: TransactionService, txs: seq<Transaction>, i: nat)
    requires i < |txs|
    requires s.Valid()
    requires s.producers == Waiting(txs, i, |txs|)
    requires s.spaces.State() ==
      SemState(if |txs| - i < s.BUFFER_CAPACITY then s.BUFFER_CAPACITY - (|txs| - i) else 0, Calls(i + s.BUFFER_CAPACITY, |txs|))
    requires s.buffer == [] && s.consumer == Idle && s.processed == txs[..i]
    requires s.items.State() == SemState(0, [])
    modifies s, s.items, s.spaces, s.mutex
    ensures s.Valid()
    ensures s.producers == Waiting(txs, i + 1, |txs|)
    ensures s.spaces.State() ==
      SemState(if |txs| - (i + 1) < s.BUFFER_CAPACITY then s.BUFFER_CAPACITY - (|txs| - (i + 1)) else 0, Calls(i + 1 + s.BUFFER_CAPACITY, |txs|))
    ensures s.buffer == [] && s.consumer == Idle && s.processed == txs[..i + 1]
    ensures s.items.State() == SemState(0, [])
  {
    var n := |txs|;
    var cap := s.BUFFER_CAPACITY;
    MutexReturned(s.mutex.State(), s.producers, s.consumer, s.lockHolder);
    assert i in s.producers;
    var locked := s.SubmitLock(i);
    s.SubmitFinish(i);
    var consumed := s.ConsumerIteration(false);
    assert s.producers == Waiting(txs, i + 1, n);
    assert txs[..i + 1] == txs[..i] + [txs[i]];
    if i + cap < n {
      assert Calls(i + cap, n)[1..] == Calls(i + 1 + cap, n);
    }
  }

  /** In call order, each call gets the mutex and pushes, and the consumer takes the
      item, which hands the freed slot to the longest-waiting call. */
  method DrainInOrder(s: TransactionService, txs: seq<Transaction>)
    requires s.Valid()
    requires s.producers == Waiting(txs, 0, |txs|)
    requires s.spaces.State() ==
      SemState(if |txs| < s.BUFFER_CAPACITY then s.BUFFER_CAPACITY - |txs| else 0, Calls(s.BUFFER_CAPACITY, |txs|))
    requires s.buffer == [] && s.consumer == Idle && s.processed == []
    requires s.items.State() == SemState(0, [])
    modifies s, s.items, s.spaces, s.mutex
    ensures s.Valid()
    ensures s.producers == map[] && s.buffer == [] && s.consumer == Idle && s.processed == txs
  {
    var n := |txs|;
    var cap := s.BUFFER_CAPACITY;
    var i := 0;
    while i < n
      invariant 0 <= i <= n
      invariant s.Valid()
      invariant s.producers == Waiting(txs, i, n)
      invariant s.spaces.State() == SemState(if n - i < cap then cap - (n - i) else 0, Calls(i + cap, n))
      invariant s.buffer == [] && s.consumer == Idle && s.processed == txs[..i]
      invariant s.items.State() == SemState(0, [])
    {
      DrainOne(s, txs, i);
      i := i + 1;
    }
    assert txs[..n] == txs;
    assert s.producers == map[];
  }

  /** All submissions are fired at once, as in the bulk test of the service, and then
      drained under one chosen schedule: the oldest pending call pushes, the consumer runs
      a whole iteration, and only then does the next call take the mutex. The calls beyond
      the capacity are left parked on `spaces` in call order, every transaction then
      reaches the business logic in submission order, and afterwards every permit is back
      where it started. */
  method ConcurrentSubmissions(txs: seq<Transaction>)
    returns (parkedAfterBurst: seq<Task>, handled: seq<Transaction>,
             itemsAfter: SemState<Task>, spacesAfter: SemState<Task>, mutexAfter: SemState<Task>)
    ensures parkedAfterBurst == Calls(10, |txs|)
    ensures handled == txs
    ensures itemsAfter == SemState(0, []) && spacesAfter == SemState(10, []) && mutexAfter == SemState(1, [])
  {
    var s := new TransactionService();
    FireAll(s, txs);
    parkedAfterBurst := s.spaces.tasks;
    DrainInOrder(s, txs);
    BetweenOperations(s);
    handled := s.processed;
    itemsAfter := s.items.State();
    spacesAfter := s.spaces.State();
    mutexAfter := s.mutex.State();
  }
}
