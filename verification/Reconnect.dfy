/** The reconnect loop of Events.tsx as a state machine. Each run of the effect that finds the
    page live starts a runner; its cleanup stops that runner, which may still be suspended. */
module Reconnect {
  import opened Basics
  import opened LiveTail

  datatype Conn = Off | Connecting | Live | Paused | Retrying

  /** Where the loop of a runner is suspended. */
  datatype Phase = Streaming | Waiting(ms: nat) | Ended

  datatype Runner = Runner(phase: Phase, stopped: bool, attempt: nat)

  /** A connection that has been opened: by which runner, and the Last-Event-ID it asks for. */
  datatype Connection = Connection(runner: nat, after: Option<int>)

  datatype Page = Page(
    conn: Conn, retryIn: nat, lastSeq: int, rows: seq<GatewayEvent>,
    runners: seq<Runner>, connections: seq<Connection>)

  datatype Event =
    | RunEffect(live: bool, paused: bool, blocked: bool)
    | Leave
    | Deliver(runner: nat, event: GatewayEvent)
    | Ready(runner: nat)
    | StreamEnd(runner: nat)
    | StreamThrow(runner: nat)
    | WaitOver(runner: nat)
    | ClearView

  const INIT := Page(Off, 0, 0, [], [], [])

  function Pow2(n: nat): nat {
    if n == 0 then 1 else 2 * Pow2(n - 1)
  }

  function BackoffDelay(attempt: int): nat {
    var n := Max(0, attempt);
    Min(1000 * Pow2(Min(n, 4)), 15000)
  }

  /** The delays that the loop can choose. */
  lemma BackoffTable(attempt: int)
    ensures BackoffDelay(attempt)
         == if attempt <= 0 then 1000 else if attempt == 1 then 2000 else if attempt == 2 then 4000
            else if attempt == 3 then 8000 else 15000
  {
    assert Pow2(1) == 2 && Pow2(2) == 4 && Pow2(3) == 8;
    assert Pow2(4) == 2 * Pow2(3);
  }

  // ----- one piece of code between two awaits -----

  predicate Enabled(p: Page, e: Event) {
    match e
    case RunEffect(_, _, _) => true
    case Leave => true
    case Deliver(r, _) => r < |p.runners| && p.runners[r].phase == Streaming
    case Ready(r) => r < |p.runners| && p.runners[r].phase == Streaming
    case StreamEnd(r) => r < |p.runners| && p.runners[r].phase == Streaming
    case StreamThrow(r) => r < |p.runners| && p.runners[r].phase == Streaming
    case WaitOver(r) => r < |p.runners| && p.runners[r].phase.Waiting?
    case ClearView => true
  }

  function Step(san: Sanitiser, p: Page, e: Event): Page
    requires Enabled(p, e)
  {
    match e
    case RunEffect(live, paused, blocked) =>
      var q := Cleanup(p);
      if blocked then q.(conn := Off, retryIn := 0)
      else if !live || paused then q.(conn := if live then Paused else Off, retryIn := 0)
      else Open(q.(runners := q.runners + [Runner(Streaming, false, 0)]), |q.runners|)
    case Leave => Cleanup(p)
    case Deliver(r, event) =>
      p.(lastSeq := if event.seq_.Some? && event.seq_.value > p.lastSeq then event.seq_.value else p.lastSeq,
         rows := MergeLive(san, p.rows, event, LIVE_CAP))
    case Ready(r) => p.(conn := Live, runners := p.runners[r := p.runners[r].(attempt := 0)])
    case StreamEnd(r) => Retry(p, r)
    case StreamThrow(r) => Retry(p, r)
    case WaitOver(r) => if p.runners[r].stopped then End(p, r) else Open(p, r)
    case ClearView => p.(rows := [])
  }

  /** The cleanup of the last effect: its runner, if it made one, is stopped. */
  function Cleanup(p: Page): Page {
    var n := |p.runners|;
    if n == 0 then p else p.(runners := p.runners[n - 1 := p.runners[n - 1].(stopped := true)])
  }

  function End(p: Page, r: nat): Page
    requires r < |p.runners|
  {
    p.(runners := p.runners[r := p.runners[r].(phase := Ended)])
  }

  /** The head of the loop: a new connection that resumes after the last number seen. */
  function Open(p: Page, r: nat): Page
    requires r < |p.runners|
  {
    p.(conn := Connecting, retryIn := 0,
       runners := p.runners[r := p.runners[r].(phase := Streaming)],
       connections := p.connections + [Connection(r, if p.lastSeq != 0 then Some(p.lastSeq) else None)])
  }

  /** After the stream is over, one way or the other. */
  function Retry(p: Page, r: nat): Page
    requires r < |p.runners|
  {
    var runner := p.runners[r];
    if runner.stopped then End(p, r)
    else
      var attempt := runner.attempt + 1;
      var ms := BackoffDelay(attempt - 1);
      p.(conn := Retrying, retryIn := (ms + 999) / 1000,
         runners := p.runners[r := runner.(phase := Waiting(ms), attempt := attempt)])
  }

  // ----- runs, and what can be read off their events -----

  ghost predicate ValidRun(san: Sanitiser, events: seq<Event>)
    decreases |events|, 0
  {
    events == [] || (
      && ValidRun(san, events[..|events| - 1])
      && Enabled(After(san, events[..|events| - 1]), events[|events| - 1]))
  }

  ghost function After(san: Sanitiser, events: seq<Event>): Page
    requires ValidRun(san, events)
    decreases |events|, 1
  {
    if events == [] then INIT
    else Step(san, After(san, events[..|events| - 1]), events[|events| - 1])
  }

  /** The largest positive number delivered, or 0. */
  function LargestSeq(events: seq<Event>): int {
    if events == [] then 0
    else
      var rest, e := LargestSeq(events[..|events| - 1]), events[|events| - 1];
      if e.Deliver? && e.event.seq_.Some? then Max(rest, e.event.seq_.value) else rest
  }

  /** The events delivered since the view was last cleared. */
  function Delivered(events: seq<Event>): seq<GatewayEvent> {
    if events == [] then []
    else
      var rest, e := Delivered(events[..|events| - 1]), events[|events| - 1];
      if e.ClearView? then [] else if e.Deliver? then rest + [e.event] else rest
  }

  /** How many connections of a runner have ended since its last ready. */
  function EndsSinceReady(r: nat, events: seq<Event>): nat {
    if events == [] then 0
    else
      var rest, e := EndsSinceReady(r, events[..|events| - 1]), events[|events| - 1];
      if e == Ready(r) then 0 else if e == StreamEnd(r) || e == StreamThrow(r) then rest + 1 else rest
  }

  // ----- what every reachable page keeps -----

  ghost predicate Inv(p: Page) {
    && p.lastSeq >= 0
    // only the runner of the last effect can be unstopped
    && (forall r :: 0 <= r < |p.runners| && !p.runners[r].stopped ==> r == |p.runners| - 1)
    // a waiting runner waits as long as its attempts say
    && (forall r :: 0 <= r < |p.runners| && p.runners[r].phase.Waiting? ==>
          p.runners[r].attempt > 0 && p.runners[r].phase.ms == BackoffDelay(p.runners[r].attempt - 1))
    && (forall i :: 0 <= i < |p.connections| ==>
          && p.connections[i].runner < |p.runners|
          && (p.connections[i].after.Some? ==> 0 < p.connections[i].after.value <= p.lastSeq))
  }

  lemma StepInv(san: Sanitiser, p: Page, e: Event)
    requires Inv(p) && Enabled(p, e)
    ensures Inv(Step(san, p, e))
    ensures Step(san, p, e).lastSeq >= p.lastSeq
    ensures p.connections <= Step(san, p, e).connections
  {
    hide BackoffDelay, MergeLive;
  }

  lemma {:induction false} RunInv(san: Sanitiser, events: seq<Event>)
    requires ValidRun(san, events)
    ensures Inv(After(san, events))
  {
    if events == [] {
    } else {
      var before := events[..|events| - 1];
      RunInv(san, before);
      StepInv(san, After(san, before), events[|events| - 1]);
    }
  }

  /** The resume cursor is the largest number delivered so far, by whatever runner. */
  lemma {:induction false} CursorIsLargest(san: Sanitiser, events: seq<Event>)
    requires ValidRun(san, events)
    ensures After(san, events).lastSeq == LargestSeq(events)
  {
    if events == [] {
    } else {
      CursorIsLargest(san, events[..|events| - 1]);
    }
  }

  /** A step opens at most one connection, for a runner that is not stopped. */
  lemma StepOpens(san: Sanitiser, p: Page, e: Event) returns (r: nat)
    requires Enabled(p, e) && p.lastSeq >= 0
    ensures var q := Step(san, p, e);
            q.connections != p.connections ==>
              && q.connections == p.connections + [Connection(r, if q.lastSeq > 0 then Some(q.lastSeq) else None)]
              && r < |q.runners| && !q.runners[r].stopped && q.runners[r].phase == Streaming && q.conn == Connecting
  {
    hide BackoffDelay, MergeLive;
    r := if e.WaitOver? then e.runner else |p.runners|;
  }

  /** A connection opened by the last step resumes after the largest number delivered so far. */
  lemma ResumesAtLargest(san: Sanitiser, events: seq<Event>) returns (r: nat)
    requires ValidRun(san, events) && events != []
    ensures var before, now, largest := After(san, events[..|events| - 1]), After(san, events), LargestSeq(events);
            now.connections != before.connections ==>
              && now.connections == before.connections + [Connection(r, if largest > 0 then Some(largest) else None)]
              && r < |now.runners| && !now.runners[r].stopped && now.runners[r].phase == Streaming
              && now.conn == Connecting
  {
    var before := events[..|events| - 1];
    RunInv(san, before);
    CursorIsLargest(san, events);
    r := StepOpens(san, After(san, before), events[|events| - 1]);
  }

  /** The tail shown is the live tail of the events delivered since the last clear. */
  lemma {:induction false} TailOfDelivered(san: Sanitiser, events: seq<Event>)
    requires ValidRun(san, events)
    ensures After(san, events).rows == Tail(san, Delivered(events), LIVE_CAP)
  {
    if events == [] {
    } else {
      var before, e := events[..|events| - 1], events[|events| - 1];
      TailOfDelivered(san, before);
      hide MergeLive, BackoffDelay;
      if e.Deliver? {
        assert (Delivered(before) + [e.event])[..|Delivered(before)|] == Delivered(before);
      }
    }
  }

  predicate EndsRunner(e: Event, r: nat) {
    e == StreamEnd(r) || e == StreamThrow(r)
  }

  /** What a step does to the attempts of one runner. */
  lemma AttemptStep(san: Sanitiser, p: Page, e: Event, r: nat)
    requires Enabled(p, e)
    ensures var q := Step(san, p, e);
            && |p.runners| <= |q.runners|
            && (r >= |p.runners| ==> e != Ready(r) && !EndsRunner(e, r))
            && (r >= |p.runners| && r < |q.runners| ==> q.runners[r].attempt == 0)
            && (r < |p.runners| && !q.runners[r].stopped ==>
                  && !p.runners[r].stopped
                  && q.runners[r].attempt
                     == if e == Ready(r) then 0
                        else if EndsRunner(e, r) then p.runners[r].attempt + 1 else p.runners[r].attempt)
  {
    hide BackoffDelay, MergeLive;
  }

  lemma EndsStep(r: nat, before: seq<Event>, e: Event)
    ensures EndsSinceReady(r, before + [e])
         == if e == Ready(r) then 0
            else if EndsRunner(e, r) then EndsSinceReady(r, before) + 1 else EndsSinceReady(r, before)
  {
    assert (before + [e])[..|before|] == before;
  }

  /** An unstopped runner counts the connections that ended since its last ready. */
  lemma {:induction false} AttemptCountsEnds(san: Sanitiser, events: seq<Event>, r: nat)
    requires ValidRun(san, events)
    ensures r >= |After(san, events).runners| ==> EndsSinceReady(r, events) == 0
    ensures r < |After(san, events).runners| && !After(san, events).runners[r].stopped ==>
              After(san, events).runners[r].attempt == EndsSinceReady(r, events)
  {
    if events == [] {
    } else {
      var before, e := events[..|events| - 1], events[|events| - 1];
      AttemptCountsEnds(san, before, r);
      AttemptStep(san, After(san, before), e, r);
      assert events == before + [e];
      EndsStep(r, before, e);
      hide Step, Enabled, EndsSinceReady;
    }
  }

  /** Main result on waiting: an unstopped runner that waits has seen k > 0 connections end since
      its last ready, and waits min(1000 * 2^min(k - 1, 4), 15000) milliseconds. */
  lemma WaitFollowsBackoff(san: Sanitiser, events: seq<Event>, r: nat)
    requires ValidRun(san, events)
    requires r < |After(san, events).runners| && !After(san, events).runners[r].stopped
    requires After(san, events).runners[r].phase.Waiting?
    ensures var k := EndsSinceReady(r, events);
            k > 0 && After(san, events).runners[r].phase.ms == Min(1000 * Pow2(Min(k - 1, 4)), 15000)
  {
    RunInv(san, events);
    AttemptCountsEnds(san, events, r);
  }

  lemma StoppedStep(san: Sanitiser, p: Page, e: Event, r: nat)
    requires Enabled(p, e) && r < |p.runners| && p.runners[r].stopped
    ensures var q := Step(san, p, e);
            && r < |q.runners| && q.runners[r].stopped && p.connections <= q.connections
            && forall i :: |p.connections| <= i < |q.connections| ==> q.connections[i].runner != r
  {
    hide BackoffDelay, MergeLive;
  }

  /** A stopped runner opens no connection, whatever follows. */
  lemma {:induction false} StoppedOpensNothing(san: Sanitiser, events: seq<Event>, n: nat, r: nat)
    requires ValidRun(san, events) && n <= |events| && ValidRun(san, events[..n])
    requires r < |After(san, events[..n]).runners| && After(san, events[..n]).runners[r].stopped
    ensures r < |After(san, events).runners| && After(san, events).runners[r].stopped
    ensures After(san, events[..n]).connections <= After(san, events).connections
    ensures forall i :: |After(san, events[..n]).connections| <= i < |After(san, events).connections| ==>
                          After(san, events).connections[i].runner != r
    decreases |events|
  {
    if n == |events| {
      assert events[..n] == events;
    } else {
      var before := events[..|events| - 1];
      assert before[..n] == events[..n];
      StoppedOpensNothing(san, before, n, r);
      StoppedStep(san, After(san, before), events[|events| - 1], r);
      hide Step;
    }
  }

  /** At most one runner is not stopped, so two connections are never kept open at a time. */
  lemma OneRunner(san: Sanitiser, events: seq<Event>, r: nat, s: nat)
    requires ValidRun(san, events)
    requires r < |After(san, events).runners| && s < |After(san, events).runners|
    requires !After(san, events).runners[r].stopped && !After(san, events).runners[s].stopped
    ensures r == s
  {
    RunInv(san, events);
  }

  // ----- the status -----

  /** Some runner is not stopped. It is the newest one. */
  predicate Running(p: Page) {
    p.runners != [] && !p.runners[|p.runners| - 1].stopped
  }

  /** The status is that of the runner that is not stopped, if there is one. */
  predicate ConnFits(p: Page) {
    Running(p) ==>
      match p.runners[|p.runners| - 1].phase
      case Streaming => p.conn == Connecting || p.conn == Live
      case Waiting(_) => p.conn == Retrying
      case Ended => false
  }

  /** A ready that comes from a stopped runner while the newest one waits. */
  predicate StaleReady(p: Page, e: Event) {
    e.Ready? && Running(p) && p.runners[|p.runners| - 1].phase.Waiting?
  }

  /** The status keeps fitting in every step but exactly that one. */
  lemma StepConn(san: Sanitiser, p: Page, e: Event)
    requires Inv(p) && ConnFits(p) && Enabled(p, e)
    ensures ConnFits(Step(san, p, e)) <==> !StaleReady(p, e)
    ensures StaleReady(p, e) ==> p.runners[e.runner].stopped
  {
    hide BackoffDelay, MergeLive;
  }

  /** No stale ready in a run. */
  ghost predicate NoStaleReady(san: Sanitiser, events: seq<Event>)
    requires ValidRun(san, events)
    decreases |events|
  {
    events == [] || (
      && NoStaleReady(san, events[..|events| - 1])
      && !StaleReady(After(san, events[..|events| - 1]), events[|events| - 1]))
  }

  lemma {:induction false} StatusFitsRunner(san: Sanitiser, events: seq<Event>)
    requires ValidRun(san, events) && NoStaleReady(san, events)
    ensures ConnFits(After(san, events))
  {
    if events == [] {
    } else {
      var before := events[..|events| - 1];
      StatusFitsRunner(san, before);
      RunInv(san, before);
      StepConn(san, After(san, before), events[|events| - 1]);
    }
  }

  /** Such a step: the stream of a stopped runner still reports ready, and the page says it is
      live while its own runner waits. */
  lemma StaleReadyExample(san: Sanitiser, p: Page)
    requires Inv(p) && ConnFits(p)
    ensures var on := RunEffect(true, false, false);
            var n := |p.runners|;
            var q := Step(san, Step(san, p, on), on);
            && Enabled(q, StreamEnd(n + 1))
            && var r := Step(san, q, StreamEnd(n + 1));
               Enabled(r, Ready(n)) && StaleReady(r, Ready(n)) && Step(san, r, Ready(n)).conn == Live
  {
    hide BackoffDelay;
  }

  // ----- when a runner runs, and when it does not -----

  const RESUME := RunEffect(true, false, false)

  /** The effect or the leaving that the page has seen last. */
  function LastEffect(events: seq<Event>): Option<Event> {
    if events == [] then None
    else
      var e := events[|events| - 1];
      if e.RunEffect? || e.Leave? then Some(e) else LastEffect(events[..|events| - 1])
  }

  /** The newest runner is stopped by an effect or by leaving, and by nothing else. */
  lemma RunningStep(san: Sanitiser, p: Page, e: Event)
    requires Enabled(p, e)
    ensures Running(Step(san, p, e)) <==> e == RESUME || (!e.RunEffect? && !e.Leave? && Running(p))
  {
    hide BackoffDelay, MergeLive;
  }

  /** Over every run: an unstopped runner exists if and only if the last effect found the page
      live, not paused and not blocked, and the page has not been left since. */
  lemma {:induction false} RunsIffResumed(san: Sanitiser, events: seq<Event>)
    requires ValidRun(san, events)
    ensures Running(After(san, events)) <==> LastEffect(events) == Some(RunEffect(true, false, false))
  {
    if events == [] {
    } else {
      var before := events[..|events| - 1];
      RunsIffResumed(san, before);
      RunningStep(san, After(san, before), events[|events| - 1]);
      hide Step, Enabled;
    }
  }

  /** What an effect shows: the one that resumes opens one connection of a new runner, and every
      other one opens none, waits for nothing and says that the page is paused or off. */
  lemma EffectShows(san: Sanitiser, p: Page, live: bool, paused: bool, blocked: bool)
    requires Inv(p)
    ensures var q, n := Step(san, p, RunEffect(live, paused, blocked)), |p.runners|;
            && q.rows == p.rows && q.lastSeq == p.lastSeq && q.retryIn == 0
            && |q.runners| >= n && (forall r :: 0 <= r < n ==> q.runners[r].stopped)
            && if live && !paused && !blocked then
                 && q.runners[n..] == [Runner(Streaming, false, 0)] && q.conn == Connecting
                 && q.connections
                    == p.connections + [Connection(n, if p.lastSeq > 0 then Some(p.lastSeq) else None)]
               else
                 && |q.runners| == n && q.connections == p.connections
                 && q.conn == if live && paused && !blocked then Paused else Off
  {
    hide BackoffDelay, MergeLive;
  }

  /** A connection is opened by an effect that resumes and by the end of an unstopped runner's
      wait, and by nothing else. */
  lemma OpensIff(san: Sanitiser, p: Page, e: Event)
    requires Enabled(p, e)
    ensures Step(san, p, e).connections != p.connections <==>
              || e == RunEffect(true, false, false)
              || (e.WaitOver? && !p.runners[e.runner].stopped)
  {
    hide BackoffDelay, MergeLive;
  }

  /** A step between two effects on a page without an unstopped runner. */
  lemma QuietStep(san: Sanitiser, p: Page, e: Event)
    requires Inv(p) && Enabled(p, e) && !Running(p) && !e.RunEffect?
    ensures var q := Step(san, p, e);
            && !Running(q) && q.connections == p.connections && q.retryIn == p.retryIn
            && q.conn == if e.Ready? then Live else p.conn
  {
    hide BackoffDelay, MergeLive;
  }

  lemma {:induction false} ValidPrefix(san: Sanitiser, events: seq<Event>, n: nat)
    requires ValidRun(san, events) && n <= |events|
    ensures ValidRun(san, events[..n])
    decreases |events|
  {
    if n == |events| {
      assert events[..n] == events;
    } else {
      var before := events[..|events| - 1];
      assert before[..n] == events[..n];
      ValidPrefix(san, before, n);
    }
  }

  /** Main result on pausing: an effect that does not resume keeps the page without a connection
      of its own until the next effect. It says paused, or off, exactly as long as no stopped
      stream reports ready. */
  lemma {:induction false} PauseHolds(
      san: Sanitiser, events: seq<Event>, n: nat, live: bool, paused: bool, blocked: bool)
    requires ValidRun(san, events) && n < |events| && ValidRun(san, events[..n])
    requires events[n] == RunEffect(live, paused, blocked) && !(live && !paused && !blocked)
    requires forall i :: n < i < |events| ==> !events[i].RunEffect?
    ensures var p := After(san, events);
            && p.connections == After(san, events[..n]).connections
            && !Running(p) && p.retryIn == 0
            && p.conn == if exists i :: n < i < |events| && events[i].Ready? then Live
                         else if live && paused && !blocked then Paused else Off
    decreases |events|
  {
    hide Step, Enabled, Inv, Running;
    var before, e := events[..|events| - 1], events[|events| - 1];
    RunInv(san, before);
    if n == |events| - 1 {
      EffectShows(san, After(san, before), live, paused, blocked);
      RunningStep(san, After(san, before), e);
    } else {
      assert before[..n] == events[..n];
      PauseHolds(san, before, n, live, paused, blocked);
      QuietStep(san, After(san, before), e);
      assert forall i :: n < i < |before| ==> events[i] == before[i];
    }
  }

  /** The seconds on show are those that the unstopped runner waits, or none. */
  predicate WaitShown(p: Page) {
    Running(p) ==>
      match p.runners[|p.runners| - 1].phase
      case Waiting(ms) => p.retryIn * 1000 == ms
      case _ => p.retryIn == 0
  }

  lemma WaitShownStep(san: Sanitiser, p: Page, e: Event)
    requires Inv(p) && WaitShown(p) && Enabled(p, e)
    ensures WaitShown(Step(san, p, e))
  {
    hide BackoffDelay, MergeLive;
    if Running(p) && EndsRunner(e, |p.runners| - 1) {
      BackoffTable(p.runners[|p.runners| - 1].attempt);
    }
  }

  lemma {:induction false} SecondsShown(san: Sanitiser, events: seq<Event>)
    requires ValidRun(san, events)
    ensures WaitShown(After(san, events))
  {
    if events == [] {
    } else {
      var before := events[..|events| - 1];
      SecondsShown(san, before);
      RunInv(san, before);
      WaitShownStep(san, After(san, before), events[|events| - 1]);
      hide Step, Enabled, Inv;
    }
  }
}
