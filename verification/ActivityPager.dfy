/** ActivityPage.tsx as the object it is: the state that load, the effect and the two handlers
    update. */
module ActivityPager {
  import opened Basics
  import opened Paging
  import opened ActivityCursor

  class ActivityPager {
    var filters: Filters
    var before: int
    var stack: seq<int>
    var page: Page
    var loading: bool
    var loaded: bool
    var err: Failure
    var pending: seq<Query>          // requests sent and not answered
    ghost var trail: seq<Page>

    ghost function Now(): View
      reads this
    {
      View(filters, before, stack, page, loading, loaded, err, pending, trail)
    }

    ghost predicate Valid()
      reads this
    {
      Rooted(Now())
    }

    constructor (filters: Filters)
      ensures Now() == Mounted(filters) && Valid()
    {
      this.filters, before, stack, page := filters, 0, [], Page(None, 0, 0);
      loading, loaded, err := true, false, NoFailure;
      pending, trail := [Query(filters, 0)], [];
    }

    /** load, up to its await. */
    method StartLoad(nextBefore: int)
      modifies this`loading, this`pending
      ensures Now() == Load(old(Now()), nextBefore)
    {
      loading := true;
      pending := pending + [Query(filters, nextBefore)];
    }

    /** The effect that runs after a filter has changed. */
    method OnFilters(next: Filters)
      requires Valid() && next != filters
      modifies this
      ensures Now() == Step(old(Now()), SetFilters(next)) && Valid()
    {
      StepIsRooted(Now(), SetFilters(next));
      filters := next;
      before := 0;
      stack, trail := [], [];
      StartLoad(0);
    }

    method OnRefresh()
      requires Valid() && !loading
      modifies this
      ensures Now() == Step(old(Now()), Refresh) && Valid()
    {
      StepIsRooted(Now(), Refresh);
      StartLoad(before);
    }

    predicate IsBlocked()
      reads this
    {
      Blocks(ClassifyPageState(loading, loaded, err, page.records, loaded && page.records > 0).kind)
    }

    method GoNext()
      requires Valid() && !loading
      modifies this
      ensures Now() == if Enabled(old(Now()), Next) then Step(old(Now()), Next) else old(Now())
      ensures Valid()
    {
      if IsBlocked() {
        return;
      }
      var next := page.next;
      if next == 0 {
        return;
      }
      StepIsRooted(Now(), Next);
      stack, trail := stack + [before], trail + [page];
      before := next;
      StartLoad(next);
    }

    method GoPrev()
      requires Valid() && !loading && stack != []
      modifies this
      ensures Now() == if Enabled(old(Now()), Prev) then Step(old(Now()), Prev) else old(Now())
      ensures Valid()
    {
      if IsBlocked() {
        return;
      }
      StepIsRooted(Now(), Prev);
      var n := |stack| - 1;
      var prev := stack[n];
      stack := stack[..n];
      trail := if |trail| > n then trail[..n] else trail;
      before := prev;
      StartLoad(prev);
    }

    /** load, after its await. */
    method OnLoaded(i: nat, records: nat, next: int)
      requires Valid() && i < |pending|
      modifies this
      ensures Now() == Step(old(Now()), Loaded(i, records, next)) && Valid()
    {
      StepIsRooted(Now(), Loaded(i, records, next));
      page := Page(Some(pending[i]), records, next);
      pending := Without(pending, i);
      loaded := true;
      err := NoFailure;
      loading := false;
    }

    method OnFailed(i: nat, message: string)
      requires Valid() && i < |pending|
      modifies this
      ensures Now() == Step(old(Now()), Failed(i, message)) && Valid()
    {
      StepIsRooted(Now(), Failed(i, message));
      pending := Without(pending, i);
      err := Thrown(message);
      loading := false;
    }
  }
}
