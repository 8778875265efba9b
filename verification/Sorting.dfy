/** Array.prototype.sort: a stable sort by a comparison. */
module Sorting {
  import opened Basics

  /** x goes in after everything that may stand before it. */
  function InsertBy<T>(sorted: seq<T>, x: T, leq: (T, T) -> bool): seq<T> {
    if sorted == [] || leq(sorted[|sorted| - 1], x) then sorted + [x]
    else InsertBy(sorted[..|sorted| - 1], x, leq) + [sorted[|sorted| - 1]]
  }

  function SortBy<T>(xs: seq<T>, leq: (T, T) -> bool): seq<T> {
    if xs == [] then [] else InsertBy(SortBy(xs[..|xs| - 1], leq), xs[|xs| - 1], leq)
  }

  ghost predicate SortedBy<T>(xs: seq<T>, leq: (T, T) -> bool) {
    forall i, j :: 0 <= i < j < |xs| ==> leq(xs[i], xs[j])
  }

  ghost predicate TotalPreorder<T(!new)>(leq: (T, T) -> bool) {
    && (forall a, b :: leq(a, b) || leq(b, a))
    && (forall a, b, c :: leq(a, b) && leq(b, c) ==> leq(a, c))
  }

  lemma SortedSnoc<T(!new)>(xs: seq<T>, last: T, leq: (T, T) -> bool)
    ensures SortedBy(xs + [last], leq) <==> SortedBy(xs, leq) && forall x :: x in xs ==> leq(x, last)
  {
    var all := xs + [last];
    assert forall i :: 0 <= i < |xs| ==> all[i] == xs[i];
    if SortedBy(all, leq) {
      forall x | x in xs
        ensures leq(x, last)
      {
        var i :| 0 <= i < |xs| && xs[i] == x;
        assert leq(all[i], all[|xs|]);
      }
    }
  }

  lemma DistinctSnoc<T(!new)>(xs: seq<T>, last: T)
    ensures Distinct(xs + [last]) <==> Distinct(xs) && last !in xs
  {
    var all := xs + [last];
    assert forall i :: 0 <= i < |xs| ==> all[i] == xs[i];
    if last in xs {
      var i :| 0 <= i < |xs| && xs[i] == last;
      assert all[i] == all[|xs|];
    }
  }

  lemma InsertStep<T>(sorted: seq<T>, x: T, leq: (T, T) -> bool)
    ensures InsertBy(sorted, x, leq)
         == if sorted == [] || leq(sorted[|sorted| - 1], x) then sorted + [x]
            else InsertBy(sorted[..|sorted| - 1], x, leq) + [sorted[|sorted| - 1]]
  {
  }

  lemma {:induction false} InsertMembers<T(!new)>(sorted: seq<T>, x: T, leq: (T, T) -> bool)
    ensures forall y :: y in InsertBy(sorted, x, leq) <==> y in sorted || y == x
    ensures Distinct(sorted) && x !in sorted ==> Distinct(InsertBy(sorted, x, leq))
  {
    InsertStep(sorted, x, leq);
    hide InsertBy, Distinct;
    if sorted == [] || leq(sorted[|sorted| - 1], x) {
      DistinctSnoc(sorted, x);
    } else {
      var init, last := sorted[..|sorted| - 1], sorted[|sorted| - 1];
      assert sorted == init + [last];
      InsertMembers(init, x, leq);
      DistinctSnoc(init, last);
      DistinctSnoc(InsertBy(init, x, leq), last);
    }
  }

  lemma {:induction false} InsertSorted<T(!new)>(sorted: seq<T>, x: T, leq: (T, T) -> bool)
    requires SortedBy(sorted, leq) && TotalPreorder(leq)
    ensures SortedBy(InsertBy(sorted, x, leq), leq)
  {
    InsertStep(sorted, x, leq);
    hide InsertBy, SortedBy;
    if sorted != [] {
      var init, last := sorted[..|sorted| - 1], sorted[|sorted| - 1];
      assert sorted == init + [last];
      SortedSnoc(init, last, leq);
      InsertSorted(init, x, leq);
      InsertMembers(init, x, leq);
      SortedSnoc(InsertBy(init, x, leq), last, leq);
    }
    SortedSnoc(sorted, x, leq);
  }

  /** Sorting keeps the elements, and keeps them distinct. */
  lemma {:induction false} SortMembers<T(!new)>(xs: seq<T>, leq: (T, T) -> bool)
    ensures forall y :: y in SortBy(xs, leq) <==> y in xs
    ensures Distinct(xs) ==> Distinct(SortBy(xs, leq))
  {
    if xs == [] {
    } else {
      var init, last := xs[..|xs| - 1], xs[|xs| - 1];
      assert xs == init + [last];
      assert SortBy(xs, leq) == InsertBy(SortBy(init, leq), last, leq);
      hide InsertBy, SortBy, Distinct;
      SortMembers(init, leq);
      InsertMembers(SortBy(init, leq), last, leq);
      DistinctSnoc(init, last);
    }
  }

  lemma {:induction false} SortSorts<T(!new)>(xs: seq<T>, leq: (T, T) -> bool)
    requires TotalPreorder(leq)
    ensures SortedBy(SortBy(xs, leq), leq)
  {
    if xs == [] {
    } else {
      var init, last := xs[..|xs| - 1], xs[|xs| - 1];
      assert SortBy(xs, leq) == InsertBy(SortBy(init, leq), last, leq);
      hide InsertBy, SortBy, SortedBy;
      SortSorts(init, leq);
      InsertSorted(SortBy(init, leq), last, leq);
    }
  }
}
