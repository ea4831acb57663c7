# Bounded transaction buffer guarded by counting semaphores

This project models the bounded producer/consumer buffer of a NestJS transaction service.

- A counting `Semaphore` keeps a permit counter and a FIFO queue of suspended callers.
  - `acquire()` takes a permit, or suspends the caller at the tail of the queue.
  - `release()` wakes the head of the queue, or adds a permit. There is no upper bound on the count.
- `TransactionService` keeps a buffer of at most `BUFFER_CAPACITY` (10) transactions and three
  semaphores:
  - `items`, starting at 0;
  - `spaces`, starting at 10;
  - `mutex`, starting at 1.
- `submitTransaction` is the producer. It waits for a space, then for the mutex, pushes the
  transaction, gives the mutex back and signals an item.
- The consumer loop repeatedly runs `processNextTransaction`. One run waits for an item, then for
  the mutex, shifts the head of the buffer, gives the mutex back, signals a space, and awaits the
  business logic on the shifted transaction. A failure there is caught by the loop.

## How the model is built

- **Semaphore state.** `semaphores.dfy` (module `Semaphores`) describes a semaphore's state as a
  value, `SemState(count, tasks)`.
- **Acquire and release.** The functions `Acquired` and `Released` specify the two operations.
  The class `Semaphore` has the same two fields and reassigns them in place. Each of its methods
  is tied to one of those functions.
- **Suspended callers.** A suspended caller is stored by identity in `tasks`. In the TypeScript
  source the queue holds its promise's `resolve` callback. Releasing means removing the head.
- **Op sequences.** `Run` folds any sequence of acquires and releases. The lemmas about it give:
  - FIFO wake order;
  - no underflow;
  - conservation of permits;
  - unbounded over-release.
- **The service.** `transactions.dfy` (module `Transactions`) models the service as a class. Its
  fields are the buffer, the three semaphore objects, the unfinished producer calls
  (`producers`, by call number) and the consumer's position in its iteration (`consumer`).
- **Atomic steps.** JavaScript runs an async function without interruption between two `await`s.
  So each async operation is split at its awaits into atomic step methods:
  - `SubmitBegin`, `SubmitLock` and `SubmitFinish` for `submitTransaction`;
  - `ConsumerAwaitItem`, `ConsumerLock`, `ConsumerTake` and `ConsumerSettle` for one loop
    iteration.
- **Scheduling.** A step may be called whenever its task is not parked. The steps of different
  tasks can interleave in any order.
- **The invariant.** `Valid()` holds the service invariant. Every step preserves it. It combines:
  - `SpacesInv`: free permits + buffered items + calls holding a space == capacity;
  - `ItemsInv`: item permits track the buffer;
  - `MutexInv`: at most one task is in a critical section, and the permit is there exactly when
    nobody is;
  - `processed + buffer == arrived`: items leave the buffer in the order they entered it.
- **Recorded and ghost state.** The ordinary field `processed` records every transaction
  handed to the business logic. Two ghost fields exist only for the proofs:
  - `arrived` is the push history;
  - `lockHolder` is the task inside a critical section.

## Model

| member | source | states |
|---|---|---|
| Semaphores.Acquired | src/util/semaphore.util.ts:10-21 | the caller passes at once exactly when `count > 0`; otherwise it is appended at the tail of the queue; availability (count minus waiters) drops by one; a non-negative count stays non-negative; a free permit with waiters never arises |
| Semaphores.Released | src/util/semaphore.util.ts:27-34 | someone is woken exactly when the queue was non-empty, and it is the head; the rest of the queue keeps its order; otherwise, whatever the count held, it grows by exactly one (no cap) and the queue stays empty; availability rises by one; the count never decreases |
| Semaphores.AcquireThenRelease | src/util/semaphore.util.ts:10-34 | with nobody waiting, a release undoes an acquire; it wakes the acquirer exactly when that acquirer had to wait |
| Semaphores.Step | src/util/semaphore.util.ts:10-34 | for one operation: waiters queued before plus the caller that parked equal the waiter woken plus the waiters queued after |
| Semaphores.RunNeverUnderflows | src/util/semaphore.util.ts:11-13 | under any sequence of acquires and releases the count never goes negative |
| Semaphores.RunKeepsNoIdlePermit | src/util/semaphore.util.ts:10-34 | under any sequence, `count > 0` implies an empty queue |
| Semaphores.RunConservesPermits | src/util/semaphore.util.ts:10-34 | count minus waiters changes by exactly the number of releases minus the number of acquires |
| Semaphores.RunIsFifo | src/util/semaphore.util.ts:19-30 | under any sequence: initial queue + parked callers (in park order) == woken callers (in wake order) + final queue |
| Semaphores.WakeOrderIsParkOrder | src/util/semaphore.util.ts:19-30 | from an empty queue, the woken callers are a prefix of the parked callers, in the same order |
| Semaphores.OverReleaseIsUnbounded | src/util/semaphore.util.ts:31-33 | with nobody waiting, k releases raise any count by exactly k and wake nobody |
| Semaphores.ThreeWaitersWakeInOrder | src/util/semaphore.util.spec.ts:42-63 | three acquires on a zero semaphore park 1, 2, 3; three releases wake 1, 2, 3 and restore the state |
| Semaphores.Semaphore.constructor | src/util/semaphore.util.ts:1-4 | a new semaphore has the given count and no waiters |
| Semaphores.Semaphore.Acquire | src/util/semaphore.util.ts:10-21 | updates the fields as `Acquired` says: a decrement when a permit is free, otherwise the caller is appended to `tasks` |
| Semaphores.Semaphore.Release | src/util/semaphore.util.ts:27-34 | updates the fields as `Released` says: the head of `tasks` is removed and returned as woken, otherwise `count` grows by one |
| Semaphores.ImmediateAcquire | src/util/semaphore.util.spec.ts:14-19 | on a semaphore created with one permit, the first acquire passes at once |
| Semaphores.BlockUntilRelease | src/util/semaphore.util.spec.ts:21-40 | a second acquire on a one-permit semaphore is parked, and one release wakes exactly that caller |
| Semaphores.FifoWakeOrder | src/util/semaphore.util.spec.ts:42-63 | three parked callers are woken one per release, in their calling order |
| Transactions.EveryCallParkedOrHolding | src/transaction/transaction.service.ts:33-34 | every unfinished producer call is either parked on `spaces` or holds one of its permits |
| Transactions.CapacityBound | src/transaction/transaction.service.ts:13-18 | the `spaces` invariant bounds buffered items plus spaces still promised to calls by the capacity |
| Transactions.SpacesOnBegin | src/transaction/transaction.service.ts:34 | a new call's `spaces.acquire()` preserves the `spaces` invariant |
| Transactions.SpacesOnLock | src/transaction/transaction.service.ts:37 | a call moving on to the mutex preserves the `spaces` invariant |
| Transactions.SpacesOnPush | src/transaction/transaction.service.ts:39 | the push turns a promised slot into a filled one and keeps the invariant |
| Transactions.SpacesOnShift | src/transaction/transaction.service.ts:74-80 | a shift followed by `spaces.release()` frees one slot and keeps the invariant |
| Transactions.ItemsMatchBuffer | src/transaction/transaction.service.ts:17 | between consumer iterations, `items` has exactly one permit per buffered transaction and no waiter |
| Transactions.ItemsOnAwait | src/transaction/transaction.service.ts:67 | the consumer's `items.acquire()` passes exactly when the buffer is non-empty, and keeps the invariant |
| Transactions.ItemsOnLock | src/transaction/transaction.service.ts:72 | the consumer moving on to the mutex keeps the `items` invariant |
| Transactions.ItemsOnShift | src/transaction/transaction.service.ts:74 | when the consumer shifts, the buffer is non-empty; the invariant holds with one item fewer |
| Transactions.ItemsOnPush | src/transaction/transaction.service.ts:39-46 | a push followed by `items.release()` keeps the invariant with one item more |
| Transactions.ItemsOnSettle | src/transaction/transaction.service.ts:82-84 | the end of an iteration keeps the `items` invariant |
| Transactions.AtMostOneHolder | src/transaction/transaction.service.ts:19 | mutual exclusion: two tasks inside a critical section are the same task |
| Transactions.MutexReturned | src/transaction/transaction.service.ts:37-43 | when no task is at or inside a critical section, the mutex has its single permit and no waiter: it is always given back |
| Transactions.MutexOnBegin | src/transaction/transaction.service.ts:30-34 | a new call waiting for a space leaves the mutex invariant intact |
| Transactions.MutexOnConsumerAwait | src/transaction/transaction.service.ts:67 | the consumer waiting for an item leaves the mutex invariant intact |
| Transactions.MutexOnSettle | src/transaction/transaction.service.ts:82-84 | the end of an iteration leaves the mutex invariant intact |
| Transactions.MutexOnAcquire | src/transaction/transaction.service.ts:37-72 | `mutex.acquire()` makes the caller the holder when the mutex is free, and parks it at the tail otherwise; the invariant is kept |
| Transactions.MutexOnRelease | src/transaction/transaction.service.ts:38-77 | the holder's `mutex.release()` in `finally` passes the mutex to the head waiter, or returns the permit; the invariant is kept |
| Transactions.TransactionService.constructor | src/transaction/transaction.service.ts:13-19 | empty buffer; `items` at 0, `spaces` at 10 and `mutex` at 1, none with waiters; the invariant holds |
| Transactions.TransactionService.SubmitBegin | src/transaction/transaction.service.ts:30-34 | registers the call, then runs `spaces.acquire()` as `Acquired` says; the invariant is kept |
| Transactions.TransactionService.SubmitLock | src/transaction/transaction.service.ts:37 | the call, past `spaces`, issues `mutex.acquire()`; it becomes the holder exactly when the mutex was free |
| Transactions.TransactionService.SubmitFinish | src/transaction/transaction.service.ts:38-46 | appends the transaction to the buffer, releases the mutex to the next waiter (or returns the permit), releases `items`, and ends the call |
| Transactions.TransactionService.ConsumerAwaitItem | src/transaction/transaction.service.ts:67 | the consumer passes `items.acquire()` exactly when the buffer is non-empty |
| Transactions.TransactionService.ConsumerLock | src/transaction/transaction.service.ts:72 | the consumer issues `mutex.acquire()`; it becomes the holder exactly when the mutex was free |
| Transactions.TransactionService.ConsumerTake | src/transaction/transaction.service.ts:72-84 | an item is always shifted: it is the old head; it goes to the business logic exactly once; the mutex and `spaces` are released |
| Transactions.TransactionService.ConsumerSettle | src/transaction/transaction.service.ts:55-84 | whether the business logic completed or threw, the iteration ends with the invariant kept, and nothing returns to the buffer |
| Transactions.TransactionService.SubmitTransaction | src/transaction/transaction.service.ts:30-47 | a submission completes without waiting exactly when a space and the mutex are free; the item is then at the buffer's tail, the mutex is back as it was, and one item was signalled; otherwise the call is parked at the tail of the semaphore it needs, having taken a space if it waits for the mutex, while the other semaphores and the other calls are unchanged |
| Transactions.TransactionService.ConsumerIteration | src/transaction/transaction.service.ts:52-85 | one iteration completes without waiting exactly when the buffer is non-empty and the mutex is free; it then hands the head to the business logic and removes it, even when the logic throws; otherwise nothing was taken, `spaces` is unchanged, and the consumer is parked on `items` with the mutex untouched, or at the tail of the mutex queue |
| Transactions.BufferWithinCapacity | src/transaction/transaction.service.ts:13-34 | in every reachable state the buffer holds at most `BUFFER_CAPACITY` transactions |
| Transactions.ProcessedInArrivalOrder | src/transaction/transaction.service.ts:39-74 | the transactions handed to the business logic are a prefix of those pushed, and the buffer holds the remainder, in FIFO order |
| Transactions.BetweenOperations | src/transaction/transaction.service.ts:17-19 | with no call in progress and the consumer between iterations: `items` == buffer length, `spaces` == capacity minus buffer length, mutex at 1, no waiters anywhere |
| Transactions.SingleTransaction | src/transaction/transaction.service.spec.ts:35-51 | one submitted transaction is handed to the business logic |
| Transactions.SequentialSubmissions | src/transaction/transaction.service.ts:30-85 | transactions submitted one after the other all reach the business logic, in submission order |
| Transactions.FireAll | src/transaction/transaction.service.ts:33-34 | when any number of calls are fired at once, the first 10 get a space and the rest are parked on `spaces` in call order |
| Transactions.DrainOne | src/transaction/transaction.service.ts:37-85 | under the chosen drain schedule (one push, then one whole consumer iteration): the oldest pending call pushes, the consumer hands that transaction on, and the freed slot passes to the call 10 positions later |
| Transactions.DrainInOrder | src/transaction/transaction.service.ts:37-85 | draining after the burst hands every transaction to the business logic in call order |
| Transactions.ConcurrentSubmissions | src/transaction/transaction.service.spec.ts:53-101 | with every submission fired at once, as in the bulk test, then drained under the chosen schedule: the calls beyond 10 park on `spaces` in call order; all transactions then reach the business logic in submission order; the semaphores end at items 0, spaces 10, mutex 1, with no waiters |

## Left out

- Logging (`Logger`) is left out, as is the 500 ms `setTimeout` in `executeBusinessLogic`. The business logic is a step that either completes or throws, selected by the `failed` parameter.
- `onModuleInit` and `process.nextTick` are not modelled: the consumer loop is taken as already started. The endless `while (true)` is modelled one iteration at a time (`ConsumerIteration`, or the steps it is made of).
- The JavaScript microtask queue is not modelled. The model allows any interleaving of ready steps, which covers the order the event loop actually picks. In the model a woken waiter is removed from the queue and runs its next step later. In the source, the promise is resolved at once and continues on a later microtask.
- Liveness (every submission eventually completes) is not proved for arbitrary schedules. It is shown only for the two schedules in `SequentialSubmissions` and `ConcurrentSubmissions`.
- Transaction fields are not JavaScript `number`s or `Date`s in the model: `amount` is a `real` and `timestamp` an `int`. The service never inspects them. The semaphore count is an unbounded `int`.
- The HTTP controller, the dependency-injection wiring and the test-module setup are not part of this model.
- Transactions.TransactionService.ConsumerTake: the `if (transaction)` guard's false branch is not modelled as reachable. The `items` invariant proves that `buffer.shift()` always yields a transaction there. The model therefore states that the callback runs exactly once per shift, instead of giving a separate empty-buffer path.
- Call order equals buffer entry order only under the two schedules named above. Under an arbitrary schedule, FIFO is stated relative to the order in which items entered the buffer (`ProcessedInArrivalOrder`). Any two calls past `spaces` can take the mutex, and so push, out of call order: this holds whether they got their space at once or were woken.
