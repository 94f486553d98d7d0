/** The stable sort of a library, as insertion: each element goes behind all that it is not below. */
module Sorting {

  function Place<T>(sorted: seq<T>, x: T, le: (T, T) -> bool): seq<T> {
    if sorted == [] then [x]
    else if le(sorted[0], x) then [sorted[0]] + Place(sorted[1..], x, le)
    else [x] + sorted
  }

  function Sort<T>(xs: seq<T>, le: (T, T) -> bool): seq<T> {
    if xs == [] then [] else Place(Sort(xs[..|xs| - 1], le), xs[|xs| - 1], le)
  }

  ghost predicate Sorted<T>(xs: seq<T>, le: (T, T) -> bool) {
    forall i, j :: 0 <= i < j < |xs| ==> le(xs[i], xs[j])
  }

  ghost predicate TotalPreorder<T(!new)>(le: (T, T) -> bool) {
    && (forall x, y :: le(x, y) || le(y, x))
    && (forall x, y, z :: le(x, y) && le(y, z) ==> le(x, z))
  }

  /** A symmetric relation between any two elements at different places. */
  ghost predicate Pairwise<T>(xs: seq<T>, rel: (T, T) -> bool) {
    forall i, j :: 0 <= i < |xs| && 0 <= j < |xs| && i != j ==> rel(xs[i], xs[j])
  }

  lemma {:induction false} PlaceAdds<T(!new)>(sorted: seq<T>, x: T, le: (T, T) -> bool)
    ensures multiset(Place(sorted, x, le)) == multiset(sorted) + multiset{x}
    ensures |Place(sorted, x, le)| == |sorted| + 1
    ensures forall y :: y in Place(sorted, x, le) <==> y in sorted || y == x
    decreases |sorted|
  {
    if sorted != [] {
      PlaceAdds(sorted[1..], x, le);
      assert sorted == [sorted[0]] + sorted[1..];
    }
  }

  lemma HeadSorted<T(!new)>(x: T, rest: seq<T>, le: (T, T) -> bool)
    requires Sorted(rest, le) && forall y :: y in rest ==> le(x, y)
    ensures Sorted([x] + rest, le)
  {
    var all := [x] + rest;
    forall i, j | 0 <= i < j < |all|
      ensures le(all[i], all[j])
    {
      assert all[j] == rest[j - 1] && (i > 0 ==> all[i] == rest[i - 1]);
    }
  }

  lemma {:induction false} PlaceSorted<T(!new)>(sorted: seq<T>, x: T, le: (T, T) -> bool)
    requires TotalPreorder(le) && Sorted(sorted, le)
    ensures Sorted(Place(sorted, x, le), le)
    decreases |sorted|
  {
    if sorted == [] {
    } else if le(sorted[0], x) {
      PlaceSorted(sorted[1..], x, le);
      PlaceAdds(sorted[1..], x, le);
      HeadSorted(sorted[0], Place(sorted[1..], x, le), le);
    } else {
      HeadSorted(x, sorted, le);
    }
  }

  /** Sorting orders the elements and neither adds nor drops any. */
  lemma {:induction false} SortSorts<T(!new)>(xs: seq<T>, le: (T, T) -> bool)
    requires TotalPreorder(le)
    ensures Sorted(Sort(xs, le), le) && multiset(Sort(xs, le)) == multiset(xs) && |Sort(xs, le)| == |xs|
    ensures forall y :: y in Sort(xs, le) <==> y in xs
    decreases |xs|
  {
    if xs != [] {
      var front, last := xs[..|xs| - 1], xs[|xs| - 1];
      assert xs == front + [last];
      SortSorts(front, le);
      PlaceSorted(Sort(front, le), last, le);
      PlaceAdds(Sort(front, le), last, le);
    }
  }

  lemma HeadPairwise<T(!new)>(x: T, rest: seq<T>, rel: (T, T) -> bool)
    requires Pairwise(rest, rel) && forall y :: y in rest ==> rel(x, y) && rel(y, x)
    ensures Pairwise([x] + rest, rel)
  {
    var all := [x] + rest;
    forall i, j | 0 <= i < |all| && 0 <= j < |all| && i != j
      ensures rel(all[i], all[j])
    {
      assert (i > 0 ==> all[i] == rest[i - 1]) && (j > 0 ==> all[j] == rest[j - 1]);
    }
  }

  lemma PairwiseHead<T(!new)>(xs: seq<T>, rel: (T, T) -> bool)
    requires Pairwise(xs, rel) && xs != []
    ensures forall y :: y in xs[1..] ==> rel(xs[0], y) && rel(y, xs[0])
  {
    forall y | y in xs[1..]
      ensures rel(xs[0], y) && rel(y, xs[0])
    {
      var i :| 0 <= i < |xs| - 1 && xs[1..][i] == y;
      assert xs[i + 1] == y;
    }
  }

  lemma {:induction false} PlacePairwise<T(!new)>(sorted: seq<T>, x: T, le: (T, T) -> bool, rel: (T, T) -> bool)
    requires Pairwise(sorted, rel) && forall y :: y in sorted ==> rel(x, y) && rel(y, x)
    ensures Pairwise(Place(sorted, x, le), rel)
    decreases |sorted|
  {
    if sorted == [] {
    } else if le(sorted[0], x) {
      PlacePairwise(sorted[1..], x, le, rel);
      PlaceAdds(sorted[1..], x, le);
      PairwiseHead(sorted, rel);
      forall y | y in Place(sorted[1..], x, le)
        ensures rel(sorted[0], y) && rel(y, sorted[0])
      {
        assert sorted[0] in sorted;
        assert y in sorted[1..] || y == x;
      }
      HeadPairwise(sorted[0], Place(sorted[1..], x, le), rel);
    } else {
      HeadPairwise(x, sorted, rel);
    }
  }

  /** A relation between all pairs survives sorting. */
  lemma {:induction false} SortPairwise<T(!new)>(xs: seq<T>, le: (T, T) -> bool, rel: (T, T) -> bool)
    requires TotalPreorder(le) && Pairwise(xs, rel)
    ensures Pairwise(Sort(xs, le), rel)
    decreases |xs|
  {
    if xs != [] {
      var front, last := xs[..|xs| - 1], xs[|xs| - 1];
      SortPairwise(front, le, rel);
      SortSorts(front, le);
      PlacePairwise(Sort(front, le), last, le, rel);
    }
  }

  lemma {:induction false} PlaceLast<T(!new)>(front: seq<T>, last: T, le: (T, T) -> bool)
    requires forall i :: 0 <= i < |front| ==> le(front[i], last)
    ensures Place(front, last, le) == front + [last]
    decreases |front|
  {
    if front != [] {
      PlaceLast(front[1..], last, le);
      assert front == [front[0]] + front[1..];
    }
  }

  /** What is in order already stays as it is. */
  lemma {:induction false} SortAlready<T(!new)>(xs: seq<T>, le: (T, T) -> bool)
    requires Sorted(xs, le)
    ensures Sort(xs, le) == xs
    decreases |xs|
  {
    if xs != [] {
      var front, last := xs[..|xs| - 1], xs[|xs| - 1];
      SortAlready(front, le);
      PlaceLast(front, last, le);
      assert xs == front + [last];
    }
  }

  // ----- ties keep their order --------------------------------------------------------

  predicate Ties<T>(x: T, y: T, le: (T, T) -> bool) { le(x, y) && le(y, x) }

  /** The elements that the order cannot tell from `x`, as they are listed. */
  function Alike<T>(xs: seq<T>, x: T, le: (T, T) -> bool): seq<T> {
    if xs == [] then [] else (if Ties(x, xs[0], le) then [xs[0]] else []) + Alike(xs[1..], x, le)
  }

  function IfAlike<T>(x: T, y: T, le: (T, T) -> bool): seq<T> { if Ties(x, y, le) then [y] else [] }

  lemma AlikeCons<T(!new)>(y: T, rest: seq<T>, x: T, le: (T, T) -> bool)
    ensures Alike([y] + rest, x, le) == IfAlike(x, y, le) + Alike(rest, x, le)
  {
    assert ([y] + rest)[1..] == rest;
  }

  lemma Joined<T>(a: seq<T>, b: seq<T>, c: seq<T>)
    ensures a + (b + c) == (a + b) + c
  {
  }

  lemma AlikeNone<T(!new)>(x: T, le: (T, T) -> bool)
    ensures Alike([], x, le) == []
  {
  }

  lemma {:induction false} AlikeBoth<T(!new)>(a: seq<T>, b: seq<T>, x: T, le: (T, T) -> bool)
    ensures Alike(a + b, x, le) == Alike(a, x, le) + Alike(b, x, le)
    decreases |a|
  {
    hide *;
    if a == [] {
      AlikeNone(x, le);
      assert a + b == b;
    } else {
      AlikeBoth(a[1..], b, x, le);
      assert a == [a[0]] + a[1..];
      Joined([a[0]], a[1..], b);
      AlikeCons(a[0], a[1..], x, le);
      AlikeCons(a[0], a[1..] + b, x, le);
      Joined(IfAlike(x, a[0], le), Alike(a[1..], x, le), Alike(b, x, le));
    }
  }

  lemma {:induction false} NoneAlike<T(!new)>(xs: seq<T>, x: T, le: (T, T) -> bool)
    requires forall y :: y in xs ==> !Ties(x, y, le)
    ensures Alike(xs, x, le) == []
    decreases |xs|
  {
    if xs != [] {
      assert xs[0] in xs;
      NoneAlike(xs[1..], x, le);
    }
  }

  lemma SortedTail<T(!new)>(sorted: seq<T>, le: (T, T) -> bool)
    requires Sorted(sorted, le) && sorted != []
    ensures Sorted(sorted[1..], le)
  {
  }

  lemma PlaceHere<T(!new)>(sorted: seq<T>, y: T, le: (T, T) -> bool)
    ensures sorted == [] ==> Place(sorted, y, le) == [y]
    ensures sorted != [] && le(sorted[0], y) ==> Place(sorted, y, le) == [sorted[0]] + Place(sorted[1..], y, le)
    ensures sorted != [] && !le(sorted[0], y) ==> Place(sorted, y, le) == [y] + sorted
  {
  }

  lemma {:induction false} PlaceTies<T(!new)>(sorted: seq<T>, y: T, le: (T, T) -> bool, x: T)
    requires TotalPreorder(le) && Sorted(sorted, le)
    ensures Alike(Place(sorted, y, le), x, le) == Alike(sorted, x, le) + Alike([y], x, le)
    decreases |sorted|
  {
    hide *;
    PlaceHere(sorted, y, le);
    AlikeNone(x, le);
    if sorted == [] {
    } else if le(sorted[0], y) {
      SortedTail(sorted, le);
      PlaceTies(sorted[1..], y, le, x);
      assert sorted == [sorted[0]] + sorted[1..];
      AlikeBoth([sorted[0]], sorted[1..], x, le);
      AlikeBoth([sorted[0]], Place(sorted[1..], y, le), x, le);
      Joined(Alike([sorted[0]], x, le), Alike(sorted[1..], x, le), Alike([y], x, le));
    } else {
      AlikeBoth([y], sorted, x, le);
      if Ties(x, y, le) {
        TiesLieBefore(sorted, y, le, x);
        NoneAlike(sorted, x, le);
      } else {
        NoneAlike([y], x, le);
      }
    }
  }

  lemma TiesLieBefore<T(!new)>(sorted: seq<T>, y: T, le: (T, T) -> bool, x: T)
    requires TotalPreorder(le) && Sorted(sorted, le) && sorted != [] && !le(sorted[0], y) && Ties(x, y, le)
    ensures forall z :: z in sorted ==> !Ties(x, z, le)
  {
    forall z | z in sorted
      ensures !Ties(x, z, le)
    {
      assert le(sorted[0], z);
      assert le(z, x) ==> le(z, y);
    }
  }

  lemma SortStep<T(!new)>(front: seq<T>, last: T, le: (T, T) -> bool)
    ensures Sort(front + [last], le) == Place(Sort(front, le), last, le)
  {
    assert (front + [last])[..|front|] == front;
  }

  /** The sort is stable: elements that tie come out as they were listed. */
  lemma {:induction false} SortKeepsTies<T(!new)>(xs: seq<T>, le: (T, T) -> bool, x: T)
    requires TotalPreorder(le)
    ensures Alike(Sort(xs, le), x, le) == Alike(xs, x, le)
    decreases |xs|
  {
    if xs != [] {
      hide *;
      var front, last := xs[..|xs| - 1], xs[|xs| - 1];
      assert xs == front + [last];
      SortSorts(front, le);
      SortKeepsTies(front, le, x);
      SortStep(front, last, le);
      PlaceTies(Sort(front, le), last, le, x);
      AlikeBoth(front, [last], x, le);
    }
  }
}
