/**
 The bounded priority queue: a fixed capacity, a count that mirrors the size of
 the priority store, and the two operations put and take. Each operation is
 modelled from the moment its wait loop has exited: the wait condition is a
 precondition, and the condition signals the operation would send are returned
 as decisions instead of being sent.
 */
module CapacityQueue {
  import opened PriorityStore

  /** A possibly absent element: `None` stands for a Java null reference. */
  datatype Option<T> = None | Some(value: T)

  /** Which condition signals an operation decides to send: `notFull` wakes a
      waiting producer, `notEmpty` a waiting consumer. */
  datatype Wakeups = Wakeups(notFull: bool, notEmpty: bool)

  /** Result of put: rejected for a null element, or inserted with its wake-up decisions. */
  datatype PutOutcome = NullPointerException | Inserted(wakeups: Wakeups)

  class PriorityBlockingCapacityQueue<E(==,!new)> {
    /** Maximum number of elements held at once; final in the source. */
    const capacity: int
    /** The ordering the store extracts by: `le(a, b)` when `a` may come out before `b`. */
    const le: (E, E) -> bool
    /** Number of elements inserted through put and not yet taken. */
    var count: int
    /** The inherited priority store, as the multiset of its elements. */
    var store: multiset<E>

    /** The queue's invariant: the capacity bound, and `count` mirrors the store's size. */
    ghost predicate Valid()
      reads this
    {
      && TotalPreorder(le)
      && 0 < capacity
      && 0 <= count <= capacity
      && count == |store|
    }

    constructor (cap: int, ordering: (E, E) -> bool)
      requires cap > 0
      requires TotalPreorder(ordering)
      ensures Valid()
      ensures capacity == cap && le == ordering
      ensures count == 0 && store == multiset{}
    {
      capacity := cap;
      le := ordering;
      count := 0;
      store := multiset{};
    }

    /** The guard of put's wait loop: reading only `count`, it is true exactly
        when the store holds `capacity` elements. */
    predicate PutMustWait()
      reads this
      requires Valid()
      ensures PutMustWait() <==> |store| == capacity
    {
      count == capacity
    }

    /** The guard of take's wait loop: reading only `count`, it is true exactly
        when the store is empty. */
    predicate TakeMustWait()
      reads this
      requires Valid()
      ensures TakeMustWait() <==> store == multiset{}
    {
      count == 0
    }

    /** Inserts `e` once the wait for room is over. A null element is rejected
        before anything changes. Otherwise the element goes into the store,
        `count` grows by one, `notFull` is passed along when room is left after
        the insert and `notEmpty` is signalled when the queue was empty before it. */
    method Put(e: Option<E>) returns (r: PutOutcome)
      requires Valid()
      requires e.Some? ==> !PutMustWait()
      modifies this
      ensures Valid()
      ensures e.None? ==> r == NullPointerException && count == old(count) && store == old(store)
      ensures e.Some? ==> && r.Inserted?
                          && store == old(store) + multiset{e.value}
                          && count == old(count) + 1
      ensures e.Some? ==> && (r.wakeups.notFull <==> old(count) + 1 < capacity)
                          && (r.wakeups.notFull <==> |store| < capacity)
      ensures e.Some? ==> && (r.wakeups.notEmpty <==> old(count) == 0)
                          && (r.wakeups.notEmpty <==> old(store) == multiset{})
    {
      if e.None? {
        return NullPointerException;
      }
      store := store + multiset{e.value};
      var c := count;
      count := count + 1;
      r := Inserted(Wakeups(notFull := c + 1 < capacity, notEmpty := c == 0));
    }

    /** Removes and returns a least element once the wait for an element is
        over. `count` drops by one, `notEmpty` is passed along when elements
        remain after the removal and `notFull` is signalled when the queue was
        full before it. */
    method Take() returns (x: E, w: Wakeups)
      requires Valid()
      requires !TakeMustWait()
      modifies this
      ensures Valid()
      ensures TakeStep(le, old(store), x, store)
      ensures count == old(count) - 1
      ensures w.notEmpty <==> old(count) > 1
      ensures w.notEmpty <==> store != multiset{}
      ensures w.notFull <==> old(count) == capacity
      ensures w.notFull <==> |old(store)| == capacity
    {
      LeastExists(le, store);
      x :| x in store && IsLeast(le, x, store);
      store := store - multiset{x};
      var c := count;
      count := count - 1;
      w := Wakeups(notFull := c == capacity, notEmpty := c > 1);
    }
  }

  /** The natural order of integers, the ordering the scenario below uses. */
  predicate NaturalOrder(a: int, b: int) {
    a <= b
  }

  lemma NaturalOrderIsTotalPreorder()
    ensures TotalPreorder(NaturalOrder)
  {
  }

  /** The queue of capacity two under the natural order of integers: put 5 and
      put 3 fill it, a third put must wait, take yields 3 and signals the
      waiting producer, the waiting put of 1 then goes through, and two more takes yield 1 and 5 and empty the queue. */
  method CapacityTwoScenario() returns (first: int, second: int, third: int, fullAfterTwoPuts: bool, firstTakeWakesProducer: bool, emptyAtEnd: bool)
    ensures first == 3 && second == 1 && third == 5
    ensures fullAfterTwoPuts && firstTakeWakesProducer && emptyAtEnd
  {
    NaturalOrderIsTotalPreorder();
    var q := new PriorityBlockingCapacityQueue<int>(2, NaturalOrder);
    var r := q.Put(Some(5));
    assert r.wakeups == Wakeups(notFull := true, notEmpty := true);
    r := q.Put(Some(3));
    assert r.wakeups == Wakeups(notFull := false, notEmpty := false);
    fullAfterTwoPuts := q.PutMustWait();
    assert q.store == multiset{5, 3};
    var w;
    first, w := q.Take();
    assert first in multiset{5, 3} && NaturalOrder(first, 3);
    assert first == 3;
    assert w == Wakeups(notFull := true, notEmpty := true);
    firstTakeWakesProducer := w.notFull;
    assert q.store == multiset{5};
    r := q.Put(Some(1));
    assert q.store == multiset{5, 1};
    second, w := q.Take();
    assert second in multiset{5, 1} && NaturalOrder(second, 1);
    assert second == 1;
    assert q.store == multiset{5};
    third, w := q.Take();
    assert third in multiset{5};
    emptyAtEnd := q.TakeMustWait();
  }
}
