# Bounded priority blocking queue

A model of `PriorityBlockingCapacityQueue`, a Java queue that extends the
unbounded `PriorityBlockingQueue` with a fixed capacity: `put` waits while the
queue holds `capacity` elements, `take` waits while it is empty, and elements
leave in priority order rather than insertion order. The queue keeps a
`count` of its own beside the inherited store and uses it as the guard of
both wait loops, with two lock/condition pairs (`putLock`/`notFull` and
`takeLock`/`notEmpty`) for producers and consumers.

The model treats the queue as a sequential state machine:

- `PriorityStore.dfy` (module `PriorityStore`) is the inherited priority
  store, abstracted to the multiset of its elements. A take removes one
  occurrence of a least element under the ordering; which of several
  equal-priority elements comes out is left open. It also proves that a
  non-empty store always has a least element and that draining a store by
  repeated takes yields exactly its elements, in priority order.
- `CapacityQueue.dfy` (module `CapacityQueue`) is the class with its final
  `capacity`, the ordering, the `count` and the store. The class invariant
  `Valid()` is `0 < capacity`, `0 <= count <= capacity`, `count == |store|`
  and a total preorder as ordering. Each wait loop becomes a precondition (its exit
  condition); each condition signal becomes a returned decision (a `Wakeups`
  record). A null element is `None` of an `Option`, and the
  `NullPointerException` of `put` is a returned outcome.
- The ordering: the source calls `super()`, so the store orders by the
  elements' natural ordering (`compareTo`). The model takes that ordering as a
  constructor argument `ordering(a, b)` meaning "a may come out before b", and
  requires it to be total and transitive, as the `Comparable` contract does.

## Model

| member | source | states |
|---|---|---|
| CapacityQueue.PriorityBlockingCapacityQueue.constructor | PriorityBlockingCapacityQueue.java:21-37 | a new queue holds the given capacity, `count == 0` and an empty store; the invariant holds; `capacity` is a constant and can never change |
| CapacityQueue.PriorityBlockingCapacityQueue.PutMustWait | PriorityBlockingCapacityQueue.java:68 | put's wait guard `count == capacity`, read from the count alone, holds exactly when the store holds `capacity` elements |
| CapacityQueue.PriorityBlockingCapacityQueue.TakeMustWait | PriorityBlockingCapacityQueue.java:114 | take's wait guard `count == 0`, read from the count alone, holds exactly when the store is empty |
| CapacityQueue.PriorityBlockingCapacityQueue.Put | PriorityBlockingCapacityQueue.java:44-84 | a null element is rejected with `NullPointerException` and nothing changes; otherwise (once the queue is not full) the store gains exactly that element, `count` grows by exactly one, the invariant `0 <= count <= capacity`, `count == |store|` is kept, `notFull` is passed along iff `c + 1 < capacity` for the pre-increment count `c` (room is left after the insert) and `notEmpty` is signalled iff `c == 0` (the queue was empty before) |
| CapacityQueue.PriorityBlockingCapacityQueue.Take | PriorityBlockingCapacityQueue.java:96-138 | once the queue is not empty, returns an element of the store that is less than or equal to every element of it, removes exactly one occurrence of it, `count` drops by exactly one, the invariant is kept, `notEmpty` is passed along iff `c > 1` for the pre-decrement count `c` (elements remain) and `notFull` is signalled iff `c == capacity` (the queue was full before) |
| PriorityStore.LeastExists | PriorityBlockingCapacityQueue.java:124 | a non-empty store under a total preorder has a least element, so the extraction take relies on always has something to return |
| PriorityStore.DrainSorted | PriorityBlockingCapacityQueue.java:96-99 | any sequence of takes that empties a store returns exactly the store's elements (as a multiset) and returns them in priority order |
| PriorityStore.DrainExists | PriorityBlockingCapacityQueue.java:114-124 | every store can be emptied by a sequence of takes |
| CapacityQueue.CapacityTwoScenario | PriorityBlockingCapacityQueue.java:44-138 | with capacity two and the natural order of integers: after put 5 and put 3 a further put must wait; take then returns 3 and signals a waiting producer; after put 1, the next takes return 1 and 5 and the queue is empty |

## Left out

- Locks and conditions (`ReentrantLock`, `lockInterruptibly`, `await`, `signal`, `unlock`, the private `signalNotEmpty` and `signalNotFull`): concurrency is not modelled; each wait loop is a precondition of the step after it and each signal is a returned boolean decision.
- Interrupt paths: an interrupted `lockInterruptibly` is swallowed and the unheld lock is unlocked later; an interrupted `await` in `put` is swallowed and the insert goes ahead even when the queue is full, which would break the capacity bound; an interrupted `super.take()` leaves `x` null while `count` is still decremented. None of these paths is modelled: the model assumes the guard holds when the insert or removal step starts.
- The heap inside the inherited `PriorityBlockingQueue`: it is a library whose internals are not shown; the store is a multiset with "remove a least element" semantics, and ties come out in an unspecified order.
- The other inherited operations (`offer`, `add`, `poll`, `size`, iteration): they would bypass `count` and are not part of the bounded queue's interface.
- Put: does not model the `ClassCastException` that `super.offer(e)` throws when `e` is not `Comparable` or cannot be compared with the elements already held (then `count` and the store stay as they were and no signal is sent); the ordering is a total preorder over the whole element type, so every element is comparable and that outcome cannot arise in the model.
- Non-positive capacity: the constructor does not check it; the model requires `cap > 0` (with zero every put would wait forever, with a negative value the guard never fires).
- `AtomicInteger` atomicity and lock-free reads of `count`: memory-model concerns; `count` is a plain integer field.
- Java `int` overflow of `count`: `count` never exceeds `capacity`, itself an `int`, so `count + 1` cannot overflow on the modelled paths; integers are unbounded.
- `XMLReader.java`: XML validation and SAX parsing that produce items for the queue; I/O and library glue, not part of this model.
