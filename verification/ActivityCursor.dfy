/** The cursor of the activity page, ActivityPage.tsx: `before` is the cursor of the page asked
    for, `stack` the cursors it was reached through. Loads carry no token and may end in any
    order, or fail. */
module ActivityCursor {
  import opened Basics
  import opened Paging

  datatype Filters = Filters(action: string, actor: string, entity: string, ip: string, range: string)

  datatype Query = Query(filters: Filters, before: int)

  /** `of` is the request that the page answers (None before the first answer). A missing
      next_before is 0. */
  datatype Page = Page(of: Option<Query>, records: nat, next: int)

  /** `trail` is a history variable: the page that was on show when Next was pressed, for each
      entry of `stack`. */
  datatype View = View(
    filters: Filters, before: int, stack: seq<int>, page: Page, loading: bool, loaded: bool, err: Failure,
    pending: seq<Query>, trail: seq<Page>)

  datatype Event =
    | SetFilters(filters: Filters)
    | Refresh
    | Next
    | Prev
    | Loaded(i: nat, records: nat, next: int)
    | Failed(i: nat, message: string)

  /** After the first run of the effect. */
  function Mounted(filters: Filters): View {
    View(filters, 0, [], Page(None, 0, 0), true, false, NoFailure, [Query(filters, 0)], [])
  }

  predicate Blocked(v: View) {
    Blocks(ClassifyPageState(v.loading, v.loaded, v.err, v.page.records, v.loaded && v.page.records > 0).kind)
  }

  /** The guards of the buttons; a request in flight may end at any time, well or badly. */
  predicate Enabled(v: View, e: Event) {
    match e
    case SetFilters(f) => f != v.filters
    case Refresh => !v.loading
    case Next => !Blocked(v) && !v.loading && v.page.next != 0
    case Prev => !Blocked(v) && !v.loading && v.stack != []
    case Loaded(i, _, _) => i < |v.pending|
    case Failed(i, _) => i < |v.pending|
  }

  /** The part of load before its await. */
  function Load(v: View, before: int): View {
    v.(loading := true, pending := v.pending + [Query(v.filters, before)])
  }

  function Without(pending: seq<Query>, i: nat): seq<Query>
    requires i < |pending|
  {
    pending[..i] + pending[i + 1..]
  }

  function Step(v: View, e: Event): View
    requires Enabled(v, e)
  {
    match e
    case SetFilters(f) => Load(v.(filters := f, before := 0, stack := [], trail := []), 0)
    case Refresh => Load(v, v.before)
    case Next =>
      Load(v.(stack := v.stack + [v.before], before := v.page.next, trail := v.trail + [v.page]), v.page.next)
    case Prev =>
      var n := |v.stack| - 1;
      Load(v.(stack := v.stack[..n], before := v.stack[n], trail := if |v.trail| > n then v.trail[..n] else v.trail),
           v.stack[n])
    case Loaded(i, records, next) =>
      v.(page := Page(Some(v.pending[i]), records, next), loading := false, loaded := true, err := NoFailure,
         pending := Without(v.pending, i))
    case Failed(i, message) =>
      v.(loading := false, err := Thrown(message), pending := Without(v.pending, i))
  }

  predicate IsRun(v: View, events: seq<Event>)
    decreases events
  {
    events == [] || (Enabled(v, events[0]) && IsRun(Step(v, events[0]), events[1..]))
  }

  function After(v: View, events: seq<Event>): View
    requires IsRun(v, events)
    decreases events
  {
    if events == [] then v else After(Step(v, events[0]), events[1..])
  }

  // ----- what holds of the cursors -----

  function Path(v: View): (p: seq<int>)
    ensures |p| == |v.stack| + 1
  {
    v.stack + [v.before]
  }

  /** The path begins at the newest page, and passes it only once. */
  ghost predicate Rooted(v: View) {
    var p := Path(v);
    p[0] == 0 && forall k :: 1 <= k < |p| ==> p[k] != 0
  }

  /** Every cursor on the path is the one reported by the page before it, under the filters
      that are set. */
  ghost predicate Trail(v: View) {
    && |v.trail| == |v.stack|
    && forall k :: 0 <= k < |v.stack| ==>
         v.trail[k].of == Some(Query(v.filters, Path(v)[k])) && v.trail[k].next == Path(v)[k + 1]
  }

  /** The page on show is the one asked for. */
  predicate InStep(v: View) {
    v.page.of == Some(Query(v.filters, v.before))
  }

  lemma {:induction false} RunIsRooted(v: View, events: seq<Event>)
    requires Rooted(v) && IsRun(v, events)
    ensures Rooted(After(v, events))
    decreases events
  {
    if events == [] {
    } else {
      StepIsRooted(v, events[0]);
      RunIsRooted(Step(v, events[0]), events[1..]);
    }
  }

  lemma StepIsRooted(v: View, e: Event)
    requires Rooted(v) && Enabled(v, e)
    ensures Rooted(Step(v, e))
  {
    var p, q := Path(v), Path(Step(v, e));
    if e.Next? {
      assert q == p + [v.page.next];
    } else if e.Prev? {
      assert q == p[..|p| - 1];
    }
  }

  /** Next keeps the trail exactly when the page on show is the one asked for; every other step
      keeps it in any case. */
  lemma StepKeepsTrail(v: View, e: Event)
    requires Trail(v) && Enabled(v, e)
    ensures Trail(Step(v, e)) <==> e.Next? ==> InStep(v)
  {
    var w := Step(v, e);
    var p, q := Path(v), Path(w);
    if e.Next? {
      var n := |v.stack|;
      assert q == p + [v.page.next];
      assert w.trail[n] == v.page && w.trail[..n] == v.trail;
      assert p[n] == v.before && q[n] == v.before && q[n + 1] == v.page.next;
      if InStep(v) {
        forall k | 0 <= k < |w.stack|
          ensures w.trail[k].of == Some(Query(w.filters, q[k])) && w.trail[k].next == q[k + 1]
        {
          if k < n {
            assert v.trail[k].of == Some(Query(v.filters, p[k])) && v.trail[k].next == p[k + 1];
          }
        }
      }
    } else if e.Prev? {
      assert q == p[..|p| - 1];
    }
  }

  /** Next is never pressed while the page on show is another one than was asked for. */
  predicate NextInStep(v: View, events: seq<Event>)
    requires IsRun(v, events)
    decreases events
  {
    events == [] || ((events[0].Next? ==> InStep(v)) && NextInStep(Step(v, events[0]), events[1..]))
  }

  lemma {:induction false} RunKeepsTrail(v: View, events: seq<Event>)
    requires Trail(v) && IsRun(v, events) && NextInStep(v, events)
    ensures Trail(After(v, events))
    decreases events
  {
    if events == [] {
    } else {
      StepKeepsTrail(v, events[0]);
      RunKeepsTrail(Step(v, events[0]), events[1..]);
    }
  }

  /** A load that fails leaves the page and the path as they are and shows its error. Next and Prev
      then wait for a good load exactly if the page shows nothing, or the error is a refusal. */
  lemma FailureShows(v: View, i: nat, message: string)
    requires i < |v.pending|
    ensures var w := Step(v, Failed(i, message));
            && w.err == Thrown(message) && !w.loading && w.loaded == v.loaded && w.filters == v.filters
            && w.page == v.page && Path(w) == Path(v) && |w.pending| == |v.pending| - 1
            && (Blocked(w) <==> !v.loaded || v.page.records == 0 || IsPermissionError(Thrown(message)))
            && (Blocked(w) ==> !Enabled(w, Next) && !Enabled(w, Prev) && Enabled(w, Refresh))
  {
    hide IsPermissionError;
  }

  // ----- orderly runs -----

  /** No load fails, and filters change only when none is under way. (The buttons wait by
      themselves: they are disabled while the page is loading.) */
  predicate Orderly(v: View, events: seq<Event>)
    requires IsRun(v, events)
    decreases events
  {
    || events == []
    || (&& !events[0].Failed?
        && (events[0].SetFilters? ==> v.pending == [])
        && Orderly(Step(v, events[0]), events[1..]))
  }

  ghost predicate Settled(v: View) {
    if v.loading then v.pending == [Query(v.filters, v.before)]
    else v.pending == [] && v.loaded && v.err.NoFailure? && InStep(v)
  }

  lemma StepSettles(v: View, e: Event)
    requires Settled(v) && Enabled(v, e) && !e.Failed? && (e.SetFilters? ==> v.pending == [])
    ensures Settled(Step(v, e))
    ensures e.Next? ==> InStep(v)
  {
  }

  /** Provided each load ends well before the next filter is set, the stack and `before` are at
      any moment the path of reported cursors from the newest page, and the page on show is
      the one at its end as soon as nothing is loading. */
  lemma {:induction false} OrderlyRuns(filters: Filters, events: seq<Event>)
    requires IsRun(Mounted(filters), events) && Orderly(Mounted(filters), events)
    ensures var v := After(Mounted(filters), events);
            Trail(v) && Rooted(v) && Settled(v)
  {
    OrderlyInStep(Mounted(filters), events);
    RunKeepsTrail(Mounted(filters), events);
    RunIsRooted(Mounted(filters), events);
  }

  lemma {:induction false} OrderlyInStep(v: View, events: seq<Event>)
    requires Settled(v) && IsRun(v, events) && Orderly(v, events)
    ensures NextInStep(v, events) && Settled(After(v, events))
    decreases events
  {
    if events == [] {
    } else {
      StepSettles(v, events[0]);
      OrderlyInStep(Step(v, events[0]), events[1..]);
    }
  }

  /** Loads that end well or badly, and refreshes. */
  predicate Staying(events: seq<Event>) {
    forall i :: 0 <= i < |events| ==> events[i].Loaded? || events[i].Failed? || events[i].Refresh?
  }

  predicate SameCursors(v: View, w: View) {
    w.filters == v.filters && w.before == v.before && w.stack == v.stack && w.trail == v.trail
  }

  lemma {:induction false} StayingRun(v: View, events: seq<Event>)
    requires IsRun(v, events) && Staying(events)
    ensures SameCursors(v, After(v, events))
    decreases events
  {
    if events == [] {
    } else {
      StayingRun(Step(v, events[0]), events[1..]);
    }
  }

  /** Prev undoes Next, whatever loads end, well or badly, and however often the page is refreshed
      in between: the cursors are what they were, and the page they stand for is asked for. */
  lemma PrevUndoesNext(v: View, events: seq<Event>)
    requires Enabled(v, Next) && IsRun(Step(v, Next), events) && Staying(events)
    requires Enabled(After(Step(v, Next), events), Prev)
    ensures var w := Step(After(Step(v, Next), events), Prev);
            && Path(w) == Path(v) && w.filters == v.filters && (Trail(v) ==> w.trail == v.trail)
            && Query(v.filters, v.before) in w.pending
  {
    var a := Step(v, Next);
    var b := After(a, events);
    StayingRun(a, events);
    assert b.stack == v.stack + [v.before] && b.filters == v.filters;
    var w := Step(b, Prev);
    assert w.pending[|b.pending|] == Query(v.filters, v.before);
  }

  /** And if both loads end well and the first page is answered as before, everything is what it
      was. */
  lemma PrevRestoresThePage(v: View, n1: nat, next1: int, n2: nat, next2: int)
    requires !v.loading && v.pending == [] && Enabled(v, Next)
    ensures var events := [Next, Loaded(0, n1, next1), Prev, Loaded(0, n2, next2)];
            && IsRun(v, events)
            && var w := After(v, events);
               && Path(w) == Path(v) && w.filters == v.filters && InStep(w)
               && (Trail(v) ==> w.trail == v.trail)
               && (Trail(v) && Settled(v) && v.page == Page(v.page.of, n2, next2) ==> w == v)
  {
    var a := Step(v, Next);
    var b := Step(a, Loaded(0, n1, next1));
    assert b.pending == [] && b.stack == v.stack + [v.before];
    var c := Step(b, Prev);
    assert c.stack == v.stack && c.pending == [Query(v.filters, v.before)];
    var d := Step(c, Loaded(0, n2, next2));
    assert d.pending == [];
    RunFour(v, Next, Loaded(0, n1, next1), Prev, Loaded(0, n2, next2));
    assert |v.trail| == |v.stack| ==> c.trail == v.trail;
  }

  lemma RunFour(v: View, e1: Event, e2: Event, e3: Event, e4: Event)
    requires Enabled(v, e1) && Enabled(Step(v, e1), e2) && Enabled(Step(Step(v, e1), e2), e3)
    requires Enabled(Step(Step(Step(v, e1), e2), e3), e4)
    ensures IsRun(v, [e1, e2, e3, e4])
    ensures After(v, [e1, e2, e3, e4]) == Step(Step(Step(Step(v, e1), e2), e3), e4)
  {
    hide Step, Enabled;
    var a, b, c := Step(v, e1), Step(Step(v, e1), e2), Step(Step(Step(v, e1), e2), e3);
    RunCons(c, e4, []);
    RunCons(b, e3, [e4]);
    RunCons(a, e2, [e3, e4]);
    RunCons(v, e1, [e2, e3, e4]);
    assert [e1] + [e2, e3, e4] == [e1, e2, e3, e4] && [e2] + [e3, e4] == [e2, e3, e4] && [e4] + [] == [e4];
  }

  lemma RunCons(v: View, e: Event, rest: seq<Event>)
    requires Enabled(v, e) && IsRun(Step(v, e), rest)
    ensures IsRun(v, [e] + rest) && After(v, [e] + rest) == After(Step(v, e), rest)
  {
    assert ([e] + rest)[1..] == rest;
  }

  /** A change of filters starts again at the newest page, from any state and whatever is still
      in flight. */
  lemma FiltersRestart(v: View, filters: Filters)
    requires filters != v.filters
    ensures var w := Step(v, SetFilters(filters));
            Path(w) == [0] && Trail(w) && Query(filters, 0) in w.pending
  {
    var w := Step(v, SetFilters(filters));
    assert w.pending[|v.pending|] == Query(filters, 0);
  }

  /** A load that ends well brings the page in step exactly when it was asked for the cursor and
      the filters that are set. */
  lemma LoadInStep(v: View, i: nat, records: nat, next: int)
    requires Enabled(v, Loaded(i, records, next))
    ensures InStep(Step(v, Loaded(i, records, next))) <==> v.pending[i] == Query(v.filters, v.before)
  {
  }

  /** So a refresh that succeeds repairs the page, after a failed load and whatever else is still
      in flight. */
  lemma RefreshRepairs(v: View, records: nat, next: int)
    requires Enabled(v, Refresh)
    ensures var w := Step(v, Refresh);
            && Enabled(w, Loaded(|v.pending|, records, next)) && Path(w) == Path(v)
            && InStep(Step(w, Loaded(|v.pending|, records, next)))
  {
    LoadInStep(Step(v, Refresh), |v.pending|, records, next);
  }

  // ----- why the hypotheses are needed -----

  /** A failed load moves the cursor without the page: the second Next takes the cursor that
      the first one took already, and the page in between is skipped over. */
  lemma FailureExample(f: Filters)
    ensures var events := [Loaded(0, 25, 100), Next, Failed(0, "500"), Next];
            && IsRun(Mounted(f), events)
            && Path(After(Mounted(f), events)) == [0, 100, 100] && !Trail(After(Mounted(f), events))
  {
    var a := Step(Mounted(f), Loaded(0, 25, 100));
    var b := Step(a, Next);
    var c := Step(b, Failed(0, "500"));
    assert b.pending == [Query(f, 100)];
    assert c.pending == [];
    var d := Step(c, Next);
    RunFour(Mounted(f), Loaded(0, 25, 100), Next, Failed(0, "500"), Next);
    assert d.trail == [a.page, a.page];
    assert d.trail[1].of == Some(Query(f, 0)) && Path(d)[1] == 100;
  }

  /** Filters changed while a load is under way: the older answer may come last, and then Next
      follows a cursor of the other list. */
  lemma RaceExample(f: Filters, g: Filters)
    requires f != g
    ensures var events := [SetFilters(g), Loaded(1, 25, 7), Loaded(0, 25, 100), Next];
            && IsRun(Mounted(f), events)
            && var v := After(Mounted(f), events);
               v.filters == g && Path(v) == [0, 100] && !Trail(v)
  {
    var a := Step(Mounted(f), SetFilters(g));
    assert a.pending == [Query(f, 0), Query(g, 0)];
    var b := Step(a, Loaded(1, 25, 7));
    assert b.pending == [Query(f, 0)];
    var c := Step(b, Loaded(0, 25, 100));
    var d := Step(c, Next);
    RunFour(Mounted(f), SetFilters(g), Loaded(1, 25, 7), Loaded(0, 25, 100), Next);
    assert d.trail == [c.page] && c.page.of == Some(Query(f, 0));
    assert d.trail[0].of != Some(Query(g, Path(d)[0]));
  }
}
