/**
 The priority store underneath the bounded queue: the unbounded priority
 container the queue inherits from. Its heap layout is not modelled; the store
 is the multiset of elements it holds, and extraction removes one occurrence of
 a least element under the ordering. Equal-priority elements may come out in
 any order, so a take is a relation between the store before, the element and
 the store after, not a function.
 */
module PriorityStore {

  /** The ordering is total and transitive (the contract of a comparator);
      totality also makes it reflexive. Ties between distinct elements are allowed. */
  ghost predicate TotalPreorder<E(!new)>(le: (E, E) -> bool) {
    && (forall x, y :: le(x, y) || le(y, x))
    && (forall x, y, z :: le(x, y) && le(y, z) ==> le(x, z))
  }

  /** `x` is in `s` and no element of `s` comes before it. */
  predicate IsLeast<E>(le: (E, E) -> bool, x: E, s: multiset<E>) {
    x in s && forall y | y in s :: le(x, y)
  }

  /** One extraction: `x` is a least element of `s` and `s'` is `s` without one occurrence of it. */
  predicate TakeStep<E>(le: (E, E) -> bool, s: multiset<E>, x: E, s': multiset<E>) {
    IsLeast(le, x, s) && s' == s - multiset{x}
  }

  /** `xs` is the sequence of elements that repeated extractions yield until `s` is empty. */
  ghost predicate Drains<E>(le: (E, E) -> bool, s: multiset<E>, xs: seq<E>)
    decreases |xs|
  {
    if xs == [] then s == multiset{}
    else TakeStep(le, s, xs[0], s - multiset{xs[0]}) && Drains(le, s - multiset{xs[0]}, xs[1..])
  }

  ghost predicate SortedBy<E>(le: (E, E) -> bool, xs: seq<E>) {
    forall i, j | 0 <= i < j < |xs| :: le(xs[i], xs[j])
  }

  /** A non-empty store always has a least element, so extraction never gets stuck. */
  lemma {:induction false} LeastExists<E(!new)>(le: (E, E) -> bool, s: multiset<E>)
    requires TotalPreorder(le)
    requires |s| > 0
    ensures exists x :: IsLeast(le, x, s)
    decreases |s|
  {
    var y :| y in s;
    var rest := s - multiset{y};
    assert s == rest + multiset{y};
    if |rest| == 0 {
      assert s == multiset{y};
      assert le(y, y);
      assert IsLeast(le, y, s);
    } else {
      LeastExists(le, rest);
      var m :| IsLeast(le, m, rest);
      if le(y, m) {
        assert IsLeast(le, y, s);
      } else {
        assert le(m, y);
        assert IsLeast(le, m, s);
      }
    }
  }

  /** Draining a store yields exactly its elements (as a multiset) in priority order. */
  lemma {:induction false} DrainSorted<E>(le: (E, E) -> bool, s: multiset<E>, xs: seq<E>)
    requires Drains(le, s, xs)
    ensures multiset(xs) == s
    ensures SortedBy(le, xs)
    decreases |xs|
  {
    if xs != [] {
      var rest := s - multiset{xs[0]};
      DrainSorted(le, rest, xs[1..]);
      assert xs == [xs[0]] + xs[1..];
      assert s == rest + multiset{xs[0]};
      forall i, j | 0 <= i < j < |xs| ensures le(xs[i], xs[j]) {
        if i > 0 {
          assert le(xs[1..][i - 1], xs[1..][j - 1]);
        } else {
          assert xs[j] == xs[1..][j - 1];
          assert xs[j] in multiset(xs[1..]);
        }
      }
    }
  }

  /** Every store can be drained: with a total preorder, a sequence of extractions
      that empties it always exists. */
  lemma {:induction false} DrainExists<E(!new)>(le: (E, E) -> bool, s: multiset<E>)
    requires TotalPreorder(le)
    ensures exists xs :: Drains(le, s, xs)
    decreases |s|
  {
    if |s| == 0 {
      assert Drains(le, s, []);
    } else {
      LeastExists(le, s);
      var x :| IsLeast(le, x, s);
      var rest := s - multiset{x};
      DrainExists(le, rest);
      var tail :| Drains(le, rest, tail);
      assert ([x] + tail)[1..] == tail;
      assert Drains(le, s, [x] + tail);
    }
  }
}
