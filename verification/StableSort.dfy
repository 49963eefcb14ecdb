/** Stable sorting by a comparison, as the library sort behaves. */
module StableSorting {

  ghost predicate TotalPreorder<T(!new)>(leq: (T, T) -> bool) {
    && (forall x, y :: leq(x, y) || leq(y, x))
    && (forall x, y, z :: leq(x, y) && leq(y, z) ==> leq(x, z))
  }

  ghost predicate SortedBy<T>(xs: seq<T>, leq: (T, T) -> bool) {
    forall i, j :: 0 <= i < j < |xs| ==> leq(xs[i], xs[j])
  }

  /** Insert `x` after every element that is not greater. */
  function Insert<T>(xs: seq<T>, x: T, leq: (T, T) -> bool): seq<T> {
    if xs == [] then [x]
    else if leq(xs[|xs| - 1], x) then xs + [x]
    else Insert(xs[..|xs| - 1], x, leq) + [xs[|xs| - 1]]
  }

  function Sort<T>(xs: seq<T>, leq: (T, T) -> bool): seq<T> {
    if xs == [] then [] else Insert(Sort(xs[..|xs| - 1], leq), xs[|xs| - 1], leq)
  }

  lemma {:induction false} InsertMembers<T>(xs: seq<T>, x: T, leq: (T, T) -> bool)
    ensures multiset(Insert(xs, x, leq)) == multiset(xs) + multiset{x}
  {
    if xs != [] && !leq(xs[|xs| - 1], x) {
      InsertMembers(xs[..|xs| - 1], x, leq);
      assert xs == xs[..|xs| - 1] + [xs[|xs| - 1]];
    }
  }

  lemma {:induction false} InsertSorted<T(!new)>(xs: seq<T>, x: T, leq: (T, T) -> bool)
    requires TotalPreorder(leq) && SortedBy(xs, leq)
    ensures SortedBy(Insert(xs, x, leq), leq)
  {
    if xs != [] && !leq(xs[|xs| - 1], x) {
      var init, last := xs[..|xs| - 1], xs[|xs| - 1];
      InsertSorted(init, x, leq);
      InsertMembers(init, x, leq);
      forall y | y in Insert(init, x, leq) ensures leq(y, last) {
        assert y in multiset(Insert(init, x, leq));
        if y != x {
          assert y in multiset(init);
          var i :| 0 <= i < |init| && init[i] == y;
          assert leq(xs[i], xs[|xs| - 1]);
        }
      }
    }
  }

  /** The sort is a permutation of its input, in order. */
  lemma {:induction false} SortCorrect<T(!new)>(xs: seq<T>, leq: (T, T) -> bool)
    requires TotalPreorder(leq)
    ensures SortedBy(Sort(xs, leq), leq)
    ensures multiset(Sort(xs, leq)) == multiset(xs)
    ensures |Sort(xs, leq)| == |xs|
  {
    if xs != [] {
      var init, last := xs[..|xs| - 1], xs[|xs| - 1];
      SortCorrect(init, leq);
      InsertSorted(Sort(init, leq), last, leq);
      InsertMembers(Sort(init, leq), last, leq);
      assert xs == init + [last];
    }
    assert |multiset(Sort(xs, leq))| == |multiset(xs)|;
  }

  lemma SortMembers<T(!new)>(xs: seq<T>, leq: (T, T) -> bool, x: T)
    requires TotalPreorder(leq)
    ensures x in Sort(xs, leq) <==> x in xs
  {
    SortCorrect(xs, leq);
    assert x in Sort(xs, leq) <==> x in multiset(Sort(xs, leq));
    assert x in xs <==> x in multiset(xs);
  }

  /** The elements that compare equal to `p`, in order. */
  function Like<T>(xs: seq<T>, p: T, leq: (T, T) -> bool): seq<T> {
    if xs == [] then []
    else
      var last := xs[|xs| - 1];
      Like(xs[..|xs| - 1], p, leq) + if leq(last, p) && leq(p, last) then [last] else []
  }

  lemma LikeNext<T>(xs: seq<T>, x: T, p: T, leq: (T, T) -> bool)
    ensures Like(xs + [x], p, leq) == Like(xs, p, leq) + if leq(x, p) && leq(p, x) then [x] else []
  {
    assert (xs + [x])[..|xs|] == xs;
  }

  lemma {:induction false} InsertLike<T(!new)>(xs: seq<T>, x: T, p: T, leq: (T, T) -> bool)
    requires TotalPreorder(leq)
    ensures Like(Insert(xs, x, leq), p, leq) == Like(xs, p, leq) + if leq(x, p) && leq(p, x) then [x] else []
  {
    if xs == [] || leq(xs[|xs| - 1], x) {
      LikeNext(xs, x, p, leq);
    } else {
      var init, last := xs[..|xs| - 1], xs[|xs| - 1];
      InsertLike(init, x, p, leq);
      LikeNext(Insert(init, x, leq), last, p, leq);
    }
  }

  /** The sort is stable: elements that compare equal keep their order. */
  lemma {:induction false} SortStable<T(!new)>(xs: seq<T>, p: T, leq: (T, T) -> bool)
    requires TotalPreorder(leq)
    ensures Like(Sort(xs, leq), p, leq) == Like(xs, p, leq)
  {
    if xs != [] {
      SortStable(xs[..|xs| - 1], p, leq);
      InsertLike(Sort(xs[..|xs| - 1], leq), xs[|xs| - 1], p, leq);
    }
  }
}
