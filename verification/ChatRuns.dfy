/** What the chat page guarantees over whole runs: any interleaving of session switches, loads,
    sends, deltas, aborts and failures. */
module ChatRuns {
  import opened Basics
  import opened Text
  import opened ChatProtocol
  import SseReaders

  lemma {:induction false} RunInv(p: Page, events: seq<Event>)
    requires Inv(p) && ValidRun(p, events)
    ensures Inv(After(p, events))
    decreases |events|
  {
    if events == [] {
    } else {
      hide Inv, Step, Enabled;
      StepInv(p, events[0]);
      RunInv(Step(p, events[0]), events[1..]);
    }
  }

  /** Safety: once the switch effect has run, every row shown belongs to the selected session, and
      every stream left over from an earlier visit has been aborted. */
  lemma OnlySelectedSession(session: string, events: seq<Event>)
    requires ValidRun(Init(session), events)
    ensures var p := After(Init(session), events);
            !p.effectDue ==>
              && (forall row :: row in p.rows ==> row.session == p.session)
              && (forall t :: 0 <= t < |p.turns| && Open(p.turns[t]) ==> Current(p, p.turns[t].token))
  {
    InitInv(session);
    RunInv(Init(session), events);
  }

  /** Status: once the switch effect has run, exactly one send of the current visit runs while
      the page says it is sending, the stream status is the one of its await, and with no such
      send the status is idle or error. */
  lemma StatusIsTheTurn(session: string, events: seq<Event>)
    requires ValidRun(Init(session), events)
    ensures var p := After(Init(session), events);
            !p.effectDue ==>
              && (p.sending <==> SomeLive(p))
              && (forall t, u :: 0 <= t < u < |p.turns| ==> !(Live(p, p.turns[t]) && Live(p, p.turns[u])))
              && (forall t :: 0 <= t < |p.turns| && Live(p, p.turns[t]) ==> Shows(p.stream, p.turns[t].phase))
              && (!SomeLive(p) ==> p.stream in {Idle, Error})
  {
    InitInv(session);
    RunInv(Init(session), events);
  }

  // ----- generations -----

  function Switches(events: seq<Event>): nat {
    if events == [] then 0 else (if events[0].SwitchEffect? then 1 else 0) + Switches(events[1..])
  }

  /** What a step does to the visit. */
  lemma StepVisit(p: Page, e: Event)
    requires Enabled(p, e)
    ensures Step(p, e).gen == if e.SwitchEffect? then p.gen + 1 else p.gen
    ensures p.effectDue && !e.SwitchEffect? ==> Step(p, e).effectDue && Step(p, e).session == p.session
  {
    hide Abort, Settled, Finished, Current, Drop, DropEmpty;
  }

  /** The generation counts the switches. */
  lemma {:induction false} GenerationCounts(p: Page, events: seq<Event>)
    requires ValidRun(p, events)
    ensures After(p, events).gen == p.gen + Switches(events)
    decreases |events|
  {
    if events == [] {
    } else {
      StepVisit(p, events[0]);
      hide Step, Enabled;
      GenerationCounts(Step(p, events[0]), events[1..]);
    }
  }

  /** A token of the past is dead after any switch, also when the same session comes back. */
  lemma TokenNeverReturns(p: Page, token: Token, events: seq<Event>)
    requires ValidRun(p, events) && token.gen <= p.gen && Switches(events) > 0
    ensures !Current(After(p, events), token)
  {
    GenerationCounts(p, events);
  }

  /** Whether a step belongs to a load or a send of another visit. */
  predicate Stale(p: Page, e: Event)
    requires Enabled(p, e)
  {
    match e
    case SettleLoad(i, _) => !Current(p, p.loads[i].token)
    case Delta(t, _) => !Current(p, p.turns[t].token)
    case StreamDone(t) => !Current(p, p.turns[t].token)
    case StreamAborted(t) => !Current(p, p.turns[t].token)
    case StreamFailed(t, _) => !Current(p, p.turns[t].token)
    case TimerFired(t) => !Current(p, p.turns[t].token)
    case ProbeDone(t) => !Current(p, p.turns[t].token)
    case Resume(t) => !Current(p, p.turns[t].token)
    case SaveEnds(token, _) => !Current(p, token)
    case _ => false
  }

  /** Late results are dropped: such a step changes nothing that the page shows, unless it is the
      end of a save, whose error or success shows on any page that does not show it already. */
  lemma StaleStepsDoNotShow(p: Page, e: Event)
    requires Enabled(p, e) && Stale(p, e)
    ensures var q := Step(p, e);
            && (q.err == p.err <==> e.SaveEnds? ==> p.err == SaveResult(e.failure))
            && q.rows == p.rows && q.stream == p.stream
            && q.sending == p.sending && q.loading == p.loading && q.gen == p.gen && q.session == p.session
  {
  }

  /** A save of session "a" that fails after "b" has been selected shows its error there. */
  lemma LateSaveExample()
    ensures var events := [SwitchEffect, Render("b"), SwitchEffect, SaveEnds(Token("a", 1), Some("500"))];
            && ValidRun(Init("a"), events)
            && var p := After(Init("a"), events);
               p.session == "b" && p.err == "500" && !Current(p, Token("a", 1))
  {
    var p0 := Init("a");
    var p1 := Step(p0, SwitchEffect);
    var p2 := Step(p1, Render("b"));
    var p3 := Step(p2, SwitchEffect);
    FourSteps(p0, SwitchEffect, Render("b"), SwitchEffect, SaveEnds(Token("a", 1), Some("500")));
  }

  // ----- conservation of a turn -----

  function DeltasOf(t: nat, events: seq<Event>): seq<string> {
    if events == [] then []
    else (if events[0].Delta? && events[0].turn == t then [events[0].delta] else []) + DeltasOf(t, events[1..])
  }

  /** No load of this token commits its rows during the run. */
  ghost predicate NoCommit(p: Page, events: seq<Event>, token: Token)
    requires ValidRun(p, events)
    decreases |events|
  {
    events == [] || (
      && !Commits(p, events[0], token)
      && NoCommit(Step(p, events[0]), events[1..], token))
  }

  /** What becomes of a turn over time: it moves on, and never back. */
  predicate Follows(turn: Turn, turn': Turn) {
    && turn'.token == turn.token && turn'.asst == turn.asst && (turn.replaced ==> turn'.replaced)
    && (turn.phase != Awaiting ==> turn'.phase != Awaiting)
    && (turn.phase.Waiting? ==>
          turn'.phase == turn.phase || turn'.phase == Probing(turn.phase.msg) || turn'.phase == Done)
    && (turn.phase.Probing? ==> turn'.phase == turn.phase || turn'.phase == Done)
    && (turn.phase == Done ==> turn'.phase == Done)
  }

  /** Whether a step commits the rows of a load of this token, if that is current. */
  predicate Commits(p: Page, e: Event, token: Token)
    requires Enabled(p, e)
  {
    e.SettleLoad? && e.reply.Rows? && p.loads[e.load].token == token
  }

  /** One step: what a turn has been given and whether it was replaced changes by its deltas and
      by commits of its visit only, and it awaits a load only after its stream is done. */
  predicate TurnStep(p: Page, e: Event, t: nat, turn: Turn, turn': Turn)
    requires Enabled(p, e)
  {
    && Follows(turn, turn')
    && turn'.delivered == turn.delivered + (if e.Delta? && e.turn == t && Current(p, turn.token) then [e.delta] else [])
    && (turn'.replaced <==> turn.replaced || (Commits(p, e, turn.token) && Current(p, turn.token)))
    && (turn'.phase == Reloading ==> turn.phase == Reloading || e == StreamDone(t))
  }

  lemma WakeTurn(p: Page, i: nat, t: nat)
    requires Linked(p) && i < |p.loads| && !p.loads[i].settled && t < |p.turns|
    ensures var turns := Woken(p, i).turns;
            && |turns| == |p.turns|
            && turns[t] == if p.loads[i].turn == Some(t) then p.turns[t].(phase := Reloaded) else p.turns[t]
    ensures p.loads[i].turn == Some(t) ==> p.turns[t].phase == Reloading
  {
  }

  lemma SettleTurn(p: Page, i: nat, reply: Reply, t: nat)
    requires Linked(p) && Enabled(p, SettleLoad(i, reply)) && t < |p.turns|
    ensures var q := Settled(p, i, reply);
            t < |q.turns| && TurnStep(p, SettleLoad(i, reply), t, p.turns[t], q.turns[t])
    ensures p.loads[i].turn == Some(t) ==> Settled(p, i, reply).turns[t].phase == Reloaded
  {
    WakeTurn(p, i, t);
    assert p.turns[t].delivered + [] == p.turns[t].delivered;
    hide Linked, Woken;
  }

  /** The steps that one send takes. */
  predicate OfTurn(e: Event) {
    e.Delta? || e.StreamDone? || e.StreamAborted? || e.StreamFailed? || e.TimerFired? || e.ProbeDone? || e.Resume?
  }

  lemma FinishedTurn(p: Page, t: nat)
    requires t < |p.turns|
    ensures Finished(p, t).turns == p.turns[t := p.turns[t].(phase := Done)]
    ensures Finished(p, t).loads == p.loads && Finished(p, t).rows == p.rows && Finished(p, t).localSeq == p.localSeq
  {
  }

  /** Of another visit, the steps of a send end it, and a delta does nothing. */
  lemma StaleStep(p: Page, e: Event)
    requires Enabled(p, e) && OfTurn(e) && !Current(p, p.turns[e.turn].token)
    ensures Step(p, e) == if e.Delta? then p else Finished(p, e.turn)
  {
    hide Finished, Current;
  }

  /** The turn after a step of its own, in its own visit. */
  lemma OwnTurn(p: Page, e: Event)
    requires Enabled(p, e) && OfTurn(e) && Current(p, p.turns[e.turn].token)
    ensures var q, t := Step(p, e), e.turn;
            && t < |p.turns|
            && q.turns == p.turns[t := p.turns[t].(
                            phase := match e
                                     case Delta(_, _) => p.turns[t].phase
                                     case StreamDone(_) => Reloading
                                     case StreamFailed(_, msg) => Waiting(msg)
                                     case TimerFired(_) => Probing(p.turns[t].phase.msg)
                                     case _ => Done,
                            delivered := p.turns[t].delivered + if e.Delta? then [e.delta] else [])]
  {
    var t := e.turn;
    assert p.turns[t].delivered + [] == p.turns[t].delivered;
    if e.StreamAborted? {
      FinishedTurn(p.(rows := DropEmpty(p.rows, p.turns[t].asst), stream := Idle, err := ""), t);
    } else if e.ProbeDone? {
      FinishedTurn(p.(err := p.turns[t].phase.msg, stream := Error), t);
    } else if e.Resume? {
      FinishedTurn(p, t);
    }
    hide Finished, Current, Drop, DropEmpty;
  }

  lemma OwnStep(p: Page, e: Event)
    requires Enabled(p, e) && OfTurn(e)
    ensures var q, t := Step(p, e), e.turn;
            && t < |p.turns| && |q.turns| == |p.turns| && q.turns == p.turns[t := q.turns[t]]
            && TurnStep(p, e, t, p.turns[t], q.turns[t])
  {
    var t := e.turn;
    assert p.turns[t].delivered + [] == p.turns[t].delivered;
    if Current(p, p.turns[t].token) {
      OwnTurn(p, e);
    } else {
      StaleStep(p, e);
      FinishedTurn(p, t);
    }
    hide Step, Current, Finished;
  }

  /** The other steps abort a turn, or leave it alone. */
  lemma OtherStep(p: Page, e: Event, t: nat)
    requires Enabled(p, e) && !OfTurn(e) && !e.SettleLoad? && t < |p.turns|
    ensures var q := Step(p, e);
            && |p.turns| <= |q.turns|
            && q.turns[t] == p.turns[t].(aborted := q.turns[t].aborted)
  {
    AbortShape(p.turns, p.abortRef);
    hide Abort;
  }

  lemma TurnStays(p: Page, e: Event, t: nat)
    requires Linked(p) && Enabled(p, e) && t < |p.turns|
    ensures var q := Step(p, e);
            t < |q.turns| && TurnStep(p, e, t, p.turns[t], q.turns[t])
  {
    assert p.turns[t].delivered + [] == p.turns[t].delivered;
    if e.SettleLoad? {
      SettleTurn(p, e.load, e.reply, t);
    } else if OfTurn(e) {
      OwnStep(p, e);
    } else {
      OtherStep(p, e, t);
    }
    hide Step, Linked, Settled, Current;
  }

  /** In the gap before a switch effect, a token of another session can only die. */
  lemma {:induction false} GapNeverCloses(p: Page, events: seq<Event>, token: Token)
    requires ValidRun(p, events) && token.gen <= p.gen && p.effectDue && !Current(p, token)
    ensures !Current(After(p, events), token)
    decreases |events|
  {
    if events == [] {
    } else {
      var q := Step(p, events[0]);
      StepVisit(p, events[0]);
      hide Step, Enabled;
      if events[0].SwitchEffect? {
        GenerationCounts(q, events[1..]);
      } else {
        GapNeverCloses(q, events[1..], token);
      }
    }
  }

  /** A turn that is current at the end of a run was current all along. */
  lemma CurrentAllAlong(p: Page, events: seq<Event>, t: nat)
    requires Inv(p) && ValidRun(p, events) && t < |p.turns|
    requires Current(After(p, events), p.turns[t].token)
    ensures Current(p, p.turns[t].token)
  {
    var token := p.turns[t].token;
    GenerationCounts(p, events);
    if p.effectDue && !Current(p, token) {
      GapNeverCloses(p, events, token);
    }
  }

  lemma {:induction false} TurnsStay(p: Page, events: seq<Event>, t: nat)
    requires Inv(p) && ValidRun(p, events) && t < |p.turns|
    ensures var q := After(p, events);
            t < |q.turns| && Follows(p.turns[t], q.turns[t])
    decreases |events|
  {
    if events == [] {
    } else {
      StepInv(p, events[0]);
      TurnStays(p, events[0], t);
      hide Inv, Step, Enabled;
      TurnsStay(Step(p, events[0]), events[1..], t);
    }
  }

  lemma OneDelta(e: Event, t: nat)
    ensures DeltasOf(t, [e]) == if e.Delta? && e.turn == t then [e.delta] else []
  {
    assert [e][1..] == [];
  }

  lemma DeltasCons(t: nat, events: seq<Event>)
    requires events != []
    ensures DeltasOf(t, events) == DeltasOf(t, [events[0]]) + DeltasOf(t, events[1..])
  {
    assert [events[0]][1..] == [];
  }

  /** A turn that still awaits its stream has been given exactly the deltas of the run. */
  lemma {:induction false} History(p: Page, events: seq<Event>, t: nat)
    requires Inv(p) && ValidRun(p, events) && t < |p.turns|
    requires InPhase(After(p, events), t, Awaiting) && Current(After(p, events), p.turns[t].token)
    requires NoCommit(p, events, p.turns[t].token)
    ensures var turn, turn' := p.turns[t], After(p, events).turns[t];
            && turn'.asst == turn.asst && turn'.token == turn.token && turn'.replaced == turn.replaced
            && turn'.delivered == turn.delivered + DeltasOf(t, events)
    decreases |events|
  {
    if events == [] {
      assert p.turns[t].delivered + [] == p.turns[t].delivered;
    } else {
      var q := Step(p, events[0]);
      StepInv(p, events[0]);
      TurnStays(p, events[0], t);
      TurnsStay(q, events[1..], t);
      CurrentAllAlong(p, events, t);
      CurrentAllAlong(q, events[1..], t);
      OneDelta(events[0], t);
      hide Inv, Step, Enabled, Current;
      History(q, events[1..], t);
      DeltasCons(t, events);
      Assoc(p.turns[t].delivered, DeltasOf(t, [events[0]]), DeltasOf(t, events[1..]));
    }
  }

  /** Conservation: from the moment a send starts, while its stream is awaited, its visit lasts
      and no load of the visit commits, the assistant row is on the page once and reads exactly
      the deltas delivered so far, joined. */
  lemma TurnConservation(p: Page, text: string, events: seq<Event>)
    requires Inv(p) && !p.sending && text != "" && p.session != ""
    requires ValidRun(Sent(p, text), events)
    requires InPhase(After(Sent(p, text), events), |p.turns|, Awaiting)
    requires Current(After(Sent(p, text), events), Token(p.session, p.gen))
    requires NoCommit(Sent(p, text), events, Token(p.session, p.gen))
    ensures ShowsDeltas(After(Sent(p, text), events).rows, Local(p.localSeq + 2), DeltasOf(|p.turns|, events))
  {
    var q, t := Sent(p, text), |p.turns|;
    SendInv(p, text);
    SentTurn(p, text);
    hide Sent, Step, Enabled, Inv;
    History(q, events, t);
    RunInv(q, events);
    RowOfTurn(After(q, events), t);
    assert [] + DeltasOf(t, events) == DeltasOf(t, events);
  }

  lemma SentTurn(p: Page, text: string)
    ensures var q := Sent(p, text);
            && |q.turns| == |p.turns| + 1
            && q.turns[|p.turns|] == Turn(Token(p.session, p.gen), Local(p.localSeq + 2), Awaiting, false, [], false)
  {
  }

  lemma RowOfTurn(p: Page, t: nat)
    requires Inv(p) && InPhase(p, t, Awaiting) && Current(p, p.turns[t].token) && !p.turns[t].replaced
    ensures ShowsDeltas(p.rows, p.turns[t].asst, p.turns[t].delivered)
  {
    hide Bounded, Linked, Exclusive, Gone, Home, Honest, ShowsDeltas;
    assert TurnConserved(p, p.turns[t]);
  }

  // ----- how a turn ends -----

  lemma {:induction false} DropEmptyNone(rows: seq<Row>, id: RowId)
    requires NoRow(rows, id)
    ensures DropEmpty(rows, id) == rows
  {
    if rows == [] {
    } else {
      DropEmptyNone(rows[1..], id);
    }
  }

  /** A user's abort: the partial reply stays exactly when something visible has arrived and no
      load of the visit has committed since the send began. If one has, the rows stay as they
      are; in any case no other row is touched. */
  lemma AbortKeepsPartialReply(p: Page, t: nat)
    requires Inv(p) && Enabled(p, StreamAborted(t)) && Current(p, p.turns[t].token)
    ensures var q, turn := Step(p, StreamAborted(t)), p.turns[t];
            && ((exists row :: row in q.rows && row.id == turn.asst)
                <==> !turn.replaced && !Blank(Concat(turn.delivered)))
            && (forall row :: row in q.rows && row.id == turn.asst ==> row.content == Concat(turn.delivered))
            && (forall row: Row :: row.id != turn.asst ==> (row in q.rows <==> row in p.rows))
            && (turn.replaced ==> q.rows == p.rows)
            && !q.sending && q.stream == Idle
  {
    var turn := p.turns[t];
    assert TurnConserved(p, turn) && Live(p, turn);
    assert turn.replaced ==> NoRow(p.rows, turn.asst);
    TrimBlank(Concat(turn.delivered));
    hide Concat, Trim, Blank, Inv;
    if turn.replaced {
      DropEmptyNone(p.rows, turn.asst);
    } else {
      var k :| 0 <= k < |p.rows| && ShownAt(p.rows, k, turn.asst, turn.delivered);
      assert p.rows[k] in p.rows;
    }
  }

  /** A visible partial reply that an abort does not keep: the first load of the session has
      committed in between. */
  lemma LostAbortExample()
    ensures var events := [SwitchEffect, Send("hi", false), Delta(0, "x"), SettleLoad(0, Rows([])), Stop,
                           StreamAborted(0)];
            && ValidRun(Init("a"), events)
            && var p := After(Init("a"), events);
               p.rows == [] && |p.turns| == 1 && p.turns[0].delivered == ["x"] && p.turns[0].replaced && !p.sending
  {
    var four := [SwitchEffect, Send("hi", false), Delta(0, "x"), SettleLoad(0, Rows([]))];
    LostRows();
    var p4 := After(Init("a"), four);
    StopAndAbort(p4);
    hide ValidRun, After, Step, Enabled;
    RunSnoc(Init("a"), four, Stop);
    RunSnoc(Init("a"), four + [Stop], StreamAborted(0));
    assert four + [Stop] + [StreamAborted(0)]
        == [SwitchEffect, Send("hi", false), Delta(0, "x"), SettleLoad(0, Rows([])), Stop, StreamAborted(0)];
  }

  lemma StopAndAbort(p: Page)
    requires p.rows == [] && |p.turns| == 1 && p.abortRef == Some(0)
    requires p.turns[0].phase == Awaiting && Current(p, p.turns[0].token)
    ensures Enabled(p, Stop) && Enabled(Step(p, Stop), StreamAborted(0))
    ensures var q := Step(Step(p, Stop), StreamAborted(0));
            && q.rows == [] && |q.turns| == 1 && !q.sending
            && q.turns[0].delivered == p.turns[0].delivered && q.turns[0].replaced == p.turns[0].replaced
  {
    AbortShape(p.turns, p.abortRef);
    hide Abort, Drop;
  }

  lemma LostRows()
    ensures var four := [SwitchEffect, Send("hi", false), Delta(0, "x"), SettleLoad(0, Rows([]))];
            && ValidRun(Init("a"), four)
            && var p := After(Init("a"), four);
               && p.rows == [] && p.session == "a" && p.gen == 1 && p.abortRef == Some(0)
               && p.turns == [Turn(Token("a", 1), Local(2), Awaiting, false, ["x"], true)]
  {
    var p0 := Init("a");
    var p1 := Step(p0, SwitchEffect);
    var p2 := Step(p1, Send("hi", false));
    assert p2.loads == [Load(Token("a", 1), None, false)];
    assert p2.turns == [Turn(Token("a", 1), Local(2), Awaiting, false, [], false)];
    var p3 := Step(p2, Delta(0, "x"));
    assert [] + ["x"] == ["x"];
    assert p3.turns[0].delivered == ["x"];
    assert p3.turns == [Turn(Token("a", 1), Local(2), Awaiting, false, ["x"], false)];
    var p4 := Step(p3, SettleLoad(0, Rows([])));
    FourSteps(p0, SwitchEffect, Send("hi", false), Delta(0, "x"), SettleLoad(0, Rows([])));
  }

  lemma {:induction false} RunSnoc(p: Page, events: seq<Event>, e: Event)
    requires ValidRun(p, events) && Enabled(After(p, events), e)
    ensures ValidRun(p, events + [e]) && After(p, events + [e]) == Step(After(p, events), e)
    decreases |events|
  {
    hide Step, Enabled;
    if events == [] {
      RunCons(p, e, []);
      assert [] + [e] == [e] + [];
    } else {
      RunSnoc(Step(p, events[0]), events[1..], e);
      assert (events + [e])[1..] == events[1..] + [e];
    }
  }

  /** A failed stream replaces the assistant row by the message. Whatever happens then, if the
      visit lasts until the probe is over, the page ends in the error status with the same
      message; and with the same rows if nothing happens in between. */
  lemma FailureShowsMessage(p: Page, t: nat, msg: string, events: seq<Event>)
    requires Inv(p) && Enabled(p, StreamFailed(t, msg)) && Current(p, p.turns[t].token)
    requires ValidRun(Step(p, StreamFailed(t, msg)), events)
    ensures var q := Step(p, StreamFailed(t, msg));
            && q.err == msg && q.stream == Reconnect && q.sending
            && q.rows != [] && q.rows[|q.rows| - 1].content == msg
            && (forall row :: row in q.rows ==> row.id != p.turns[t].asst)
            && Enabled(q, TimerFired(t)) && Enabled(Step(q, TimerFired(t)), ProbeDone(t))
            && (var end := Step(Step(q, TimerFired(t)), ProbeDone(t));
                end.err == msg && end.stream == Error && !end.sending && end.rows == q.rows)
    ensures var r := After(Step(p, StreamFailed(t, msg)), events);
            Enabled(r, ProbeDone(t)) && Current(r, p.turns[t].token) ==>
              var end := Step(r, ProbeDone(t));
              end.err == msg && end.stream == Error && !end.sending
  {
    hide Inv, Step, Enabled, ValidRun, After;
    FailureAtOnce(p, t, msg);
    FailureInTheEnd(p, t, msg, events);
  }

  lemma FailureAtOnce(p: Page, t: nat, msg: string)
    requires Inv(p) && Enabled(p, StreamFailed(t, msg)) && Current(p, p.turns[t].token)
    ensures var q := Step(p, StreamFailed(t, msg));
            && q.err == msg && q.stream == Reconnect && q.sending
            && q.rows != [] && q.rows[|q.rows| - 1].content == msg
            && (forall row :: row in q.rows ==> row.id != p.turns[t].asst)
            && Enabled(q, TimerFired(t)) && Enabled(Step(q, TimerFired(t)), ProbeDone(t))
            && (var end := Step(Step(q, TimerFired(t)), ProbeDone(t));
                end.err == msg && end.stream == Error && !end.sending && end.rows == q.rows)
  {
    assert Live(p, p.turns[t]) && p.sending;
    assert p.turns[t].asst.Local? && p.turns[t].asst.n <= p.localSeq;
    assert Step(p, StreamFailed(t, msg)) == Failing(p, t, msg);
    hide Inv, Step, Drop;
    WaitEnds(Failing(p, t, msg), t, msg);
  }

  lemma FailureInTheEnd(p: Page, t: nat, msg: string, events: seq<Event>)
    requires Inv(p) && Enabled(p, StreamFailed(t, msg)) && Current(p, p.turns[t].token)
    requires ValidRun(Step(p, StreamFailed(t, msg)), events)
    ensures var r := After(Step(p, StreamFailed(t, msg)), events);
            Enabled(r, ProbeDone(t)) && Current(r, p.turns[t].token) ==>
              var end := Step(r, ProbeDone(t));
              end.err == msg && end.stream == Error && !end.sending
  {
    hide Inv, ValidRun, After, Current, Drop, Finished;
    var q := Step(p, StreamFailed(t, msg));
    assert q == Failing(p, t, msg);
    assert q.turns[t] == p.turns[t].(phase := Waiting(msg)) && t < |q.turns|;
    StepInv(p, StreamFailed(t, msg));
    hide Step, Enabled, Failing;
    TurnsStay(q, events, t);
    ProbeEnds(After(q, events), t, msg);
  }

  lemma ProbeEnds(r: Page, t: nat, msg: string)
    ensures Enabled(r, ProbeDone(t)) && r.turns[t].phase == Probing(msg) && Current(r, r.turns[t].token) ==>
              var end := Step(r, ProbeDone(t));
              end.err == msg && end.stream == Error && !end.sending
  {
  }

  lemma WaitEnds(q: Page, t: nat, msg: string)
    requires t < |q.turns| && q.turns[t].phase == Waiting(msg) && Current(q, q.turns[t].token)
    ensures Enabled(q, TimerFired(t)) && Enabled(Step(q, TimerFired(t)), ProbeDone(t))
    ensures var end := Step(Step(q, TimerFired(t)), ProbeDone(t));
            end.err == msg && end.stream == Error && !end.sending && end.rows == q.rows
  {
    hide Abort, Drop, DropEmpty, Settled, Switched, Sent, Grown;
    assert Step(q, TimerFired(t)) == At(q, t, Probing(msg));
  }

  /** Between the render of another session and its switch effect the status may name a send that
      is over: the guarantees above need the effect to have run. */
  lemma GapExample()
    ensures var events := [SwitchEffect, Send("hi", false), Render("b"), StreamDone(0)];
            && ValidRun(Init("a"), events)
            && After(Init("a"), events).stream == Connecting
            && !SomeLive(After(Init("a"), events))
  {
    var p0 := Init("a");
    var p1 := Step(p0, SwitchEffect);
    var p2 := Step(p1, Send("hi", false));
    var p3 := Step(p2, Render("b"));
    var p4 := Step(p3, StreamDone(0));
    FourSteps(p0, SwitchEffect, Send("hi", false), Render("b"), StreamDone(0));
  }

  // ----- in the gap -----

  /** The stream status is that of the current send, or idle or error without one. */
  ghost predicate StatusFits(p: Page) {
    && (forall t :: 0 <= t < |p.turns| && Live(p, p.turns[t]) ==> Shows(p.stream, p.turns[t].phase))
    && (!SomeLive(p) ==> p.stream == Idle || p.stream == Error)
  }

  /** A send of the session left behind has not ended for the page, and no current one runs. */
  ghost predicate Stuck(p: Page) {
    p.effectDue && p.sending && forall t :: 0 <= t < |p.turns| ==> !Current(p, p.turns[t].token)
  }

  lemma StuckStep(p: Page, e: Event)
    requires Stuck(p) && Enabled(p, e) && !e.SwitchEffect?
    ensures Stuck(Step(p, e)) && Step(p, e).stream == p.stream
  {
    AbortShape(p.turns, p.abortRef);
    hide Abort, Drop, DropEmpty, Switched, Sent, Grown;
  }

  lemma {:induction false} StuckRun(p: Page, events: seq<Event>)
    requires Stuck(p) && ValidRun(p, events) && Switches(events) == 0
    ensures Stuck(After(p, events)) && After(p, events).stream == p.stream
    decreases |events|
  {
    if events == [] {
    } else {
      StuckStep(p, events[0]);
      hide Step, Enabled, Stuck;
      StuckRun(Step(p, events[0]), events[1..]);
    }
  }

  lemma {:induction false} HonestRun(p: Page, events: seq<Event>)
    requires Inv(p) && Honest(p) && p.effectDue && ValidRun(p, events) && Switches(events) == 0
    ensures Inv(After(p, events)) && Honest(After(p, events))
    decreases |events|
  {
    if events == [] {
    } else {
      StepInv(p, events[0]);
      StepVisit(p, events[0]);
      assert !events[0].Render?;
      hide Inv, Honest, Step, Enabled;
      HonestRun(Step(p, events[0]), events[1..]);
    }
  }

  lemma GapBegins(p: Page, session: string)
    requires Inv(p) && !p.effectDue && session != p.session
    ensures var q := Step(p, Render(session));
            && q.effectDue && Inv(q) && q.stream == p.stream
            && (if p.sending then Stuck(q) else Honest(q))
  {
    RenderInv(p, session);
    var q := Step(p, Render(session));
    assert forall t :: 0 <= t < |p.turns| ==> !Current(q, p.turns[t].token);
    hide Shows, ShowsDeltas, Linked, NoRow;
  }

  /** Between the render of another session and its switch effect, whatever happens there: the
      page says truly whether it is sending if and only if it was not sending at the render. */
  lemma GapStatus(p: Page, session: string, events: seq<Event>)
    requires Inv(p) && !p.effectDue && session != p.session
    requires ValidRun(Step(p, Render(session)), events) && Switches(events) == 0
    ensures var q := After(Step(p, Render(session)), events);
            (q.sending <==> SomeLive(q)) <==> !p.sending
  {
    var q0 := Step(p, Render(session));
    GapBegins(p, session);
    if p.sending {
      StuckRun(q0, events);
      hide Inv;
    } else {
      HonestRun(q0, events);
      hide Bounded, Linked, Conserved, Gone, Home, Shows;
    }
  }

  /** In the same gap the stream status is right if and only if it was idle or error at the
      render. */
  lemma GapStream(p: Page, session: string, events: seq<Event>)
    requires Inv(p) && !p.effectDue && session != p.session
    requires ValidRun(Step(p, Render(session)), events) && Switches(events) == 0
    ensures StatusFits(After(Step(p, Render(session)), events)) <==> p.stream == Idle || p.stream == Error
  {
    var q0 := Step(p, Render(session));
    GapBegins(p, session);
    if p.sending {
      StuckRun(q0, events);
      hide Inv;
    } else {
      assert Shows(p.stream, Done);
      HonestRun(q0, events);
      hide Bounded, Linked, Conserved, Gone, Home;
    }
  }

  /** All rows are of the selected session. */
  ghost predicate OwnRows(p: Page) {
    forall row :: row in p.rows ==> row.session == p.session
  }

  /** In the gap a row of another session is on the page that no send of this one can drop. */
  ghost predicate ForeignRow(p: Page, last: nat) {
    && p.effectDue && last <= p.localSeq
    && (forall t :: 0 <= t < |p.turns| && Current(p, p.turns[t].token) ==>
          p.turns[t].asst.Local? && p.turns[t].asst.n > last)
    && exists row :: row in p.rows && IsForeign(p, row, last)
  }

  predicate IsForeign(p: Page, row: Row, last: nat) {
    row.session != p.session && (row.id.Local? ==> row.id.n <= last)
  }

  lemma GrownRows(p: Page, t: nat, d: string)
    requires t < |p.turns|
    ensures Grown(p, t, d).session == p.session
    ensures forall row :: row in p.rows ==>
              exists r :: r in Grown(p, t, d).rows && r.id == row.id && r.session == row.session
    ensures forall row :: row in Grown(p, t, d).rows ==>
              exists r :: r in p.rows && r.id == row.id && r.session == row.session
  {
    var q := Grown(p, t, d);
    forall row | row in p.rows
      ensures exists r :: r in q.rows && r.id == row.id && r.session == row.session
    {
      var k :| 0 <= k < |p.rows| && p.rows[k] == row;
      assert q.rows[k] in q.rows;
    }
    forall row | row in q.rows
      ensures exists r :: r in p.rows && r.id == row.id && r.session == row.session
    {
      var k :| 0 <= k < |q.rows| && q.rows[k] == row;
      assert p.rows[k] in p.rows;
    }
  }

  lemma OwnRowsStep(p: Page, e: Event)
    requires Enabled(p, e) && p.effectDue && !e.SwitchEffect?
    requires OwnRows(p) || (e.SettleLoad? && e.reply.Rows? && Current(p, p.loads[e.load].token))
    ensures OwnRows(Step(p, e))
  {
    hide Grown, Finished, Drop, DropEmpty, Abort, MarkReplaced;
    if e.Delta? {
      GrownRows(p, e.turn, e.delta);
    } else if OfTurn(e) {
      FinishedTurn(p, e.turn);
      FinishedTurn(p.(rows := DropEmpty(p.rows, p.turns[e.turn].asst), stream := Idle, err := ""), e.turn);
      if e.ProbeDone? {
        FinishedTurn(p.(err := p.turns[e.turn].phase.msg, stream := Error), e.turn);
      }
    }
  }

  lemma StepSeq(p: Page, e: Event)
    requires Enabled(p, e)
    ensures p.localSeq <= Step(p, e).localSeq
  {
    if OfTurn(e) && !Current(p, p.turns[e.turn].token) {
      StaleStep(p, e);
    }
    hide Current, Drop, DropEmpty, Abort, MarkReplaced;
  }

  lemma SettledIds(p: Page, i: nat, reply: Reply)
    requires i < |p.loads|
    ensures var turns := Settled(p, i, reply).turns;
            && |turns| == |p.turns|
            && forall t :: 0 <= t < |p.turns| ==> turns[t].token == p.turns[t].token && turns[t].asst == p.turns[t].asst
  {
    hide Current;
  }

  /** A new turn has a new id. */
  lemma NewTurn(p: Page, e: Event)
    requires Enabled(p, e) && !OfTurn(e)
    ensures var q := Step(p, e);
            && |p.turns| <= |q.turns| <= |p.turns| + 1
            && (|q.turns| > |p.turns| ==>
                  q.turns[|p.turns|].asst == Local(p.localSeq + 2) && q.turns[|p.turns|].phase == Awaiting)
  {
    AbortShape(p.turns, p.abortRef);
    if e.SettleLoad? {
      SettledIds(p, e.load, e.reply);
    }
    hide Abort, Settled, OfTurn;
  }

  /** Turns keep their tokens and ids. */
  lemma StepIds(p: Page, e: Event)
    requires Enabled(p, e)
    ensures var q := Step(p, e);
            && p.localSeq <= q.localSeq && |p.turns| <= |q.turns| <= |p.turns| + 1
            && (forall t :: 0 <= t < |p.turns| ==>
                  q.turns[t].token == p.turns[t].token && q.turns[t].asst == p.turns[t].asst)
            && (|q.turns| > |p.turns| ==>
                  q.turns[|p.turns|].asst == Local(p.localSeq + 2) && q.turns[|p.turns|].phase == Awaiting)
  {
    StepSeq(p, e);
    if OfTurn(e) {
      OwnStep(p, e);
    } else {
      NewTurn(p, e);
      if e.SettleLoad? {
        SettledIds(p, e.load, e.reply);
      } else {
        forall t | 0 <= t < |p.turns|
          ensures Step(p, e).turns[t].token == p.turns[t].token && Step(p, e).turns[t].asst == p.turns[t].asst
        {
          OtherStep(p, e, t);
        }
      }
    }
    hide Step, Settled, OfTurn;
  }

  /** Only a turn that is current can drop a row of its own id. */
  lemma RowStays(p: Page, e: Event, row: Row)
    requires Enabled(p, e) && !e.SwitchEffect? && row in p.rows
    requires e.SettleLoad? && e.reply.Rows? ==> !Current(p, p.loads[e.load].token)
    requires OfTurn(e) && Current(p, p.turns[e.turn].token) ==> row.id != p.turns[e.turn].asst
    ensures row in Step(p, e).rows
  {
    if e.Delta? && Current(p, p.turns[e.turn].token) {
      var k :| 0 <= k < |p.rows| && p.rows[k] == row;
      assert Step(p, e).rows[k] == row;
    } else if OfTurn(e) {
      FinishedTurn(p, e.turn);
      hide Drop, DropEmpty, Current;
    } else {
      hide Abort, Current;
    }
  }

  lemma ForeignStays(p: Page, q: Page, last: nat, row: Row)
    requires ForeignRow(p, last) && q.effectDue && q.gen == p.gen && q.session == p.session
    requires p.localSeq <= q.localSeq && |p.turns| <= |q.turns| <= |p.turns| + 1
    requires forall t :: 0 <= t < |p.turns| ==>
               q.turns[t].token == p.turns[t].token && q.turns[t].asst == p.turns[t].asst
    requires |q.turns| > |p.turns| ==> q.turns[|p.turns|].asst == Local(p.localSeq + 2)
    requires row in q.rows && IsForeign(p, row, last)
    ensures ForeignRow(q, last)
  {
    assert IsForeign(q, row, last);
  }

  lemma ForeignRowStep(p: Page, e: Event, last: nat)
    requires Enabled(p, e) && ForeignRow(p, last) && !e.SwitchEffect?
    requires e.SettleLoad? && e.reply.Rows? ==> !Current(p, p.loads[e.load].token)
    ensures ForeignRow(Step(p, e), last)
  {
    var row :| row in p.rows && IsForeign(p, row, last);
    var q := Step(p, e);
    assert OfTurn(e) ==> e.turn < |p.turns|;
    hide Step, Enabled, OfTurn;
    StepIds(p, e);
    StepVisit(p, e);
    RowStays(p, e, row);
    ForeignStays(p, q, last, row);
  }

  /** In the gap a token of the selected session and this generation is current throughout. */
  lemma {:induction false} OwnRowsRun(p: Page, events: seq<Event>)
    requires p.effectDue && ValidRun(p, events) && Switches(events) == 0
    requires OwnRows(p) || !NoCommit(p, events, Token(p.session, p.gen))
    ensures OwnRows(After(p, events)) && After(p, events).session == p.session
    decreases |events|
  {
    if events == [] {
    } else {
      var e := events[0];
      StepVisit(p, e);
      if OwnRows(p) || Commits(p, e, Token(p.session, p.gen)) {
        OwnRowsStep(p, e);
      }
      hide Step, Enabled, OwnRows;
      OwnRowsRun(Step(p, e), events[1..]);
    }
  }

  lemma {:induction false} ForeignRowRun(p: Page, events: seq<Event>, last: nat)
    requires ForeignRow(p, last) && ValidRun(p, events) && Switches(events) == 0
    requires NoCommit(p, events, Token(p.session, p.gen))
    ensures ForeignRow(After(p, events), last)
    decreases |events|
  {
    if events == [] {
    } else {
      var e := events[0];
      StepVisit(p, e);
      ForeignRowStep(p, e, last);
      assert p.effectDue;
      hide Step, Enabled, ForeignRow;
      ForeignRowRun(Step(p, e), events[1..], last);
    }
  }

  /** In the same gap all rows shown are of the selected session if and only if there was none to
      begin with, or a load of that session has committed meanwhile. */
  lemma GapRows(p: Page, session: string, events: seq<Event>)
    requires Inv(p) && !p.effectDue && session != p.session
    requires ValidRun(Step(p, Render(session)), events) && Switches(events) == 0
    ensures OwnRows(After(Step(p, Render(session)), events))
       <==> p.rows == [] || !NoCommit(Step(p, Render(session)), events, Token(session, p.gen))
  {
    var q := Step(p, Render(session));
    if p.rows == [] || !NoCommit(q, events, Token(session, p.gen)) {
      OwnRowsRun(q, events);
    } else {
      assert p.rows[0] in p.rows && IsForeign(q, p.rows[0], p.localSeq);
      assert forall t :: 0 <= t < |p.turns| ==> !Current(q, p.turns[t].token);
      ForeignRowRun(q, events, p.localSeq);
      hide Inv;
    }
  }

  /** Such rows: those of a send of the session left behind. */
  lemma GapRowsExample()
    ensures var events := [SwitchEffect, Send("hi", false), Render("b")];
            && ValidRun(Init("a"), events) && !OwnRows(After(Init("a"), events))
  {
    var p0 := Init("a");
    var p1 := Step(p0, SwitchEffect);
    var p2 := Step(p1, Send("hi", false));
    var p3 := Step(p2, Render("b"));
    assert After(p0, []) == p0;
    RunSnoc(p0, [], SwitchEffect);
    RunSnoc(p0, [SwitchEffect], Send("hi", false));
    RunSnoc(p0, [SwitchEffect, Send("hi", false)], Render("b"));
    assert [] + [SwitchEffect] == [SwitchEffect];
    assert [SwitchEffect] + [Send("hi", false)] == [SwitchEffect, Send("hi", false)];
    assert [SwitchEffect, Send("hi", false)] + [Render("b")] == [SwitchEffect, Send("hi", false), Render("b")];
    assert p3.rows[0] in p3.rows && p3.rows[0].session == "a";
  }

  // ----- every send can end -----

  /** A turn that awaits its load has one under way. */
  ghost predicate Awaited(p: Page) {
    forall t :: 0 <= t < |p.turns| && p.turns[t].phase == Reloading ==> HasLoad(p, t)
  }

  ghost predicate HasLoad(p: Page, t: nat) {
    exists i :: 0 <= i < |p.loads| && p.loads[i].turn == Some(t) && !p.loads[i].settled
  }

  lemma StepLoads(p: Page, e: Event)
    requires Enabled(p, e)
    ensures var q := Step(p, e);
            && |p.loads| <= |q.loads|
            && (forall i :: 0 <= i < |p.loads| ==>
                  && q.loads[i].turn == p.loads[i].turn
                  && (q.loads[i].settled ==> p.loads[i].settled || (e.SettleLoad? && e.load == i)))
  {
    if OfTurn(e) {
      FinishedTurn(p, e.turn);
      hide Drop, DropEmpty, Current;
    } else {
      hide Abort, Current;
    }
  }

  /** A turn whose stream is done awaits a new load, unless its visit is over. */
  lemma DoneLoads(p: Page, t: nat)
    requires Enabled(p, StreamDone(t))
    ensures var q := Step(p, StreamDone(t));
            q.turns[t].phase == Reloading ==> HasLoad(q, t)
  {
    var q := Step(p, StreamDone(t));
    if Current(p, p.turns[t].token) {
      assert q.loads[|p.loads|].turn == Some(t) && !q.loads[|p.loads|].settled;
    }
  }

  lemma StepAwaited(p: Page, e: Event)
    requires Linked(p) && Awaited(p) && Enabled(p, e)
    ensures Awaited(Step(p, e))
  {
    hide Step, Linked, Enabled, HasLoad, Awaited;
    var q := Step(p, e);
    StepIds(p, e);
    forall t | 0 <= t < |q.turns| && q.turns[t].phase == Reloading
      ensures HasLoad(q, t)
    {
      AwaitedTurn(p, e, t);
    }
    AllAwaited(q);
  }

  lemma AllAwaited(q: Page)
    requires forall t :: 0 <= t < |q.turns| && q.turns[t].phase == Reloading ==> HasLoad(q, t)
    ensures Awaited(q)
  {
    hide HasLoad;
  }

  lemma AwaitedTurn(p: Page, e: Event, t: nat)
    requires Linked(p) && Awaited(p) && Enabled(p, e) && t < |p.turns| && t < |Step(p, e).turns|
    requires Step(p, e).turns[t].phase == Reloading
    ensures HasLoad(Step(p, e), t)
  {
    var q := Step(p, e);
    StepLoads(p, e);
    TurnStays(p, e, t);
    if e.SettleLoad? {
      SettleTurn(p, e.load, e.reply, t);
    } else if e == StreamDone(t) {
      DoneLoads(p, t);
    }
    hide Step, Linked, Settled, Current;
    if p.turns[t].phase == Reloading {
      var i :| 0 <= i < |p.loads| && p.loads[i].turn == Some(t) && !p.loads[i].settled;
      assert q.loads[i].turn == Some(t) && !q.loads[i].settled;
    }
  }

  lemma {:induction false} RunAwaited(p: Page, events: seq<Event>)
    requires Inv(p) && Awaited(p) && ValidRun(p, events)
    ensures Awaited(After(p, events))
    decreases |events|
  {
    if events == [] {
    } else {
      StepInv(p, events[0]);
      StepAwaited(p, events[0]);
      hide Inv, Awaited, Step, Enabled;
      RunAwaited(Step(p, events[0]), events[1..]);
    }
  }

  /** The last two pieces of a send: the page stops sending. */
  lemma LastPiece(p: Page, t: nat, e: Event)
    requires t < |p.turns| && Current(p, p.turns[t].token) && (e == ProbeDone(t) || e == Resume(t)) && Enabled(p, e)
    ensures ValidRun(p, [e]) && !After(p, [e]).sending
  {
    RunCons(p, e, []);
    assert [e] + [] == [e];
  }

  lemma TwoPieces(p: Page, t: nat, d: Event, e: Event)
    requires t < |p.turns| && Current(p, p.turns[t].token)
    requires (d == TimerFired(t) && e == ProbeDone(t) && p.turns[t].phase.Waiting?)
          || (d.SettleLoad? && d.reply.Rejected? && e == Resume(t) && d.load < |p.loads|
              && p.loads[d.load].turn == Some(t) && !p.loads[d.load].settled)
    ensures ValidRun(p, [d, e]) && !After(p, [d, e]).sending
  {
    var q := Step(p, d);
    assert t < |q.turns| && Current(q, q.turns[t].token) && Enabled(q, e);
    LastPiece(q, t, e);
    RunCons(p, d, [e]);
    assert [d] + [e] == [d, e];
  }

  /** From every reachable page the current send can come to its end. */
  lemma SendCanEnd(session: string, events: seq<Event>, t: nat) returns (more: seq<Event>)
    requires ValidRun(Init(session), events)
    requires t < |After(Init(session), events).turns|
    requires Live(After(Init(session), events), After(Init(session), events).turns[t])
    ensures ValidRun(After(Init(session), events), more) && !After(After(Init(session), events), more).sending
  {
    var p := After(Init(session), events);
    InitInv(session);
    RunAwaited(Init(session), events);
    match p.turns[t].phase
    case Awaiting =>
      var q := Step(p, StreamFailed(t, ""));
      TwoPieces(q, t, TimerFired(t), ProbeDone(t));
      RunCons(p, StreamFailed(t, ""), [TimerFired(t), ProbeDone(t)]);
      more := [StreamFailed(t, "")] + [TimerFired(t), ProbeDone(t)];
    case Waiting(_) =>
      TwoPieces(p, t, TimerFired(t), ProbeDone(t));
      more := [TimerFired(t), ProbeDone(t)];
    case Probing(_) =>
      LastPiece(p, t, ProbeDone(t));
      more := [ProbeDone(t)];
    case Reloading =>
      assert HasLoad(p, t);
      var i :| 0 <= i < |p.loads| && p.loads[i].turn == Some(t) && !p.loads[i].settled;
      TwoPieces(p, t, SettleLoad(i, Rejected("")), Resume(t));
      more := [SettleLoad(i, Rejected("")), Resume(t)];
    case Reloaded =>
      LastPiece(p, t, Resume(t));
      more := [Resume(t)];
  }

  // ----- loads of the visit during a turn -----

  /** The assistant row of a send that awaits its stream is on the page if and only if no load of
      the visit has committed since the send began. */
  lemma RowUnlessReplaced(p: Page, t: nat)
    requires Inv(p) && InPhase(p, t, Awaiting) && Current(p, p.turns[t].token)
    ensures (exists row :: row in p.rows && row.id == p.turns[t].asst) <==> !p.turns[t].replaced
  {
    var turn := p.turns[t];
    assert TurnConserved(p, turn);
    assert turn.replaced ==> NoRow(p.rows, turn.asst);
    hide Inv;
    if !turn.replaced {
      var k :| 0 <= k < |p.rows| && ShownAt(p.rows, k, turn.asst, turn.delivered);
      assert p.rows[k] in p.rows;
    }
  }

  /** A commit of its visit marks a turn for good. */
  lemma {:induction false} CommitStays(p: Page, events: seq<Event>, t: nat)
    requires Inv(p) && ValidRun(p, events) && t < |p.turns|
    requires Current(After(p, events), p.turns[t].token) && !NoCommit(p, events, p.turns[t].token)
    ensures t < |After(p, events).turns| && After(p, events).turns[t].replaced
    decreases |events|
  {
    var e, q := events[0], Step(p, events[0]);
    CurrentAllAlong(p, events, t);
    StepInv(p, e);
    TurnStays(p, e, t);
    TurnsStay(q, events[1..], t);
    if !Commits(p, e, p.turns[t].token) {
      hide Inv, Step, Enabled;
      CommitStays(q, events[1..], t);
    }
  }

  /** From the moment a send starts, while its stream is awaited and its visit lasts: the
      assistant row is on the page if and only if no load of the visit has committed. */
  lemma RowIffNoCommit(p: Page, text: string, events: seq<Event>)
    requires Inv(p) && !p.sending && text != "" && p.session != ""
    requires ValidRun(Sent(p, text), events)
    requires InPhase(After(Sent(p, text), events), |p.turns|, Awaiting)
    requires Current(After(Sent(p, text), events), Token(p.session, p.gen))
    ensures (exists row :: row in After(Sent(p, text), events).rows && row.id == Local(p.localSeq + 2))
       <==> NoCommit(Sent(p, text), events, Token(p.session, p.gen))
  {
    var q, t := Sent(p, text), |p.turns|;
    SendInv(p, text);
    SentTurn(p, text);
    hide Sent, Step, Enabled, Inv;
    RunInv(q, events);
    TurnsStay(q, events, t);
    var token := Token(p.session, p.gen);
    if NoCommit(q, events, token) {
      History(q, events, t);
    } else {
      CommitStays(q, events, t);
    }
    hide Current, NoCommit;
    RowUnlessReplaced(After(q, events), t);
  }

  /** The load that the switch effect began settles during a send: both rows of the send are
      gone, and a delta that comes later is shown nowhere. */
  lemma LostReplyExample()
    ensures var events := [SwitchEffect, Send("hi", false), SettleLoad(0, Rows([])), Delta(0, "x")];
            && ValidRun(Init("a"), events)
            && var p := After(Init("a"), events);
               p.rows == [] && |p.turns| == 1 && p.turns[0].delivered == ["x"] && p.stream == Streaming
  {
    var p0 := Init("a");
    var p1 := Step(p0, SwitchEffect);
    var p2 := Step(p1, Send("hi", false));
    assert p2.loads == [Load(Token("a", 1), None, false)];
    var p3 := Step(p2, SettleLoad(0, Rows([])));
    var p4 := Step(p3, Delta(0, "x"));
    FourSteps(p0, SwitchEffect, Send("hi", false), SettleLoad(0, Rows([])), Delta(0, "x"));
  }

  lemma FourSteps(p: Page, e1: Event, e2: Event, e3: Event, e4: Event)
    requires Enabled(p, e1) && Enabled(Step(p, e1), e2) && Enabled(Step(Step(p, e1), e2), e3)
    requires Enabled(Step(Step(Step(p, e1), e2), e3), e4)
    ensures ValidRun(p, [e1, e2, e3, e4])
    ensures After(p, [e1, e2, e3, e4]) == Step(Step(Step(Step(p, e1), e2), e3), e4)
  {
    hide Step, Enabled;
    var a, b, c := Step(p, e1), Step(Step(p, e1), e2), Step(Step(Step(p, e1), e2), e3);
    RunCons(c, e4, []);
    RunCons(b, e3, [e4]);
    RunCons(a, e2, [e3, e4]);
    RunCons(p, e1, [e2, e3, e4]);
    assert [e1] + [e2, e3, e4] == [e1, e2, e3, e4] && [e2] + [e3, e4] == [e2, e3, e4];
    assert [e3] + [e4] == [e3, e4] && [e4] + [] == [e4];
  }

  lemma RunCons(p: Page, e: Event, rest: seq<Event>)
    requires Enabled(p, e) && ValidRun(Step(p, e), rest)
    ensures ValidRun(p, [e] + rest) && After(p, [e] + rest) == After(Step(p, e), rest)
  {
    assert ([e] + rest)[1..] == rest;
    hide Step, Enabled;
  }

  // ----- a whole reply -----

  function DeltaEvents(t: nat, deltas: seq<string>): seq<Event> {
    seq(|deltas|, i requires 0 <= i < |deltas| => Delta(t, deltas[i]))
  }

  lemma {:induction false} DeltasOnly(p: Page, t: nat, deltas: seq<string>)
    requires InPhase(p, t, Awaiting) && Current(p, p.turns[t].token)
    ensures var events := DeltaEvents(t, deltas);
            && ValidRun(p, events) && NoCommit(p, events, p.turns[t].token)
            && InPhase(After(p, events), t, Awaiting) && Current(After(p, events), p.turns[t].token)
            && DeltasOf(t, events) == deltas
    decreases |deltas|
  {
    if deltas == [] {
    } else {
      var q := Step(p, Delta(t, deltas[0]));
      DeltasOnly(q, t, deltas[1..]);
      assert DeltaEvents(t, deltas)[1..] == DeltaEvents(t, deltas[1..]);
    }
  }

  /** From bytes to page: in any run in which the send has been given the deltas of the reader, in
      which its visit lasts and no load of it commits, the assistant row reads the reply that
      readChatSSE returns, however the stream was chunked. */
  lemma ReplyIsShown<E>(p: Page, text: string, events: seq<Event>,
                        json: SseReaders.Json<E>, chunks: seq<string>, end: SseReaders.StreamEnd)
    requires Inv(p) && !p.sending && text != "" && p.session != ""
    requires ValidRun(Sent(p, text), events)
    requires InPhase(After(Sent(p, text), events), |p.turns|, Awaiting)
    requires Current(After(Sent(p, text), events), Token(p.session, p.gen))
    requires NoCommit(Sent(p, text), events, Token(p.session, p.gen))
    ensures var read := SseReaders.ChatResult(json, chunks, end);
            DeltasOf(|p.turns|, events) == read.deltas ==>
              exists row :: row in After(Sent(p, text), events).rows
                            && row.id == Local(p.localSeq + 2) && row.content == read.reply
  {
    TurnConservation(p, text, events);
    var rows, deltas := After(Sent(p, text), events).rows, DeltasOf(|p.turns|, events);
    hide Inv, Step, Enabled;
    var k :| 0 <= k < |rows| && ShownAt(rows, k, Local(p.localSeq + 2), deltas);
    assert rows[k] in rows;
  }

  /** There is always such a run: the one that hands over the deltas one after the other. */
  lemma ReplyCanBeShown<E>(p: Page, text: string,
                           json: SseReaders.Json<E>, chunks: seq<string>, end: SseReaders.StreamEnd)
    requires Inv(p) && !p.sending && text != "" && p.session != ""
    ensures var read := SseReaders.ChatResult(json, chunks, end);
            var events := DeltaEvents(|p.turns|, read.deltas);
            && ValidRun(Sent(p, text), events)
            && (exists row :: row in After(Sent(p, text), events).rows
                              && row.id == Local(p.localSeq + 2) && row.content == read.reply)
  {
    var read := SseReaders.ChatResult(json, chunks, end);
    var q, t := Sent(p, text), |p.turns|;
    SentTurn(p, text);
    assert InPhase(q, t, Awaiting) && Current(q, q.turns[t].token) && q.turns[t].token == Token(p.session, p.gen);
    hide Sent, Step, Enabled, Inv, DeltaEvents, DeltasOf, NoCommit, Current, InPhase, SseReaders.ChatResult;
    hide ValidRun, After;
    DeltasOnly(q, t, read.deltas);
    ReplyIsShown(p, text, DeltaEvents(t, read.deltas), json, chunks, end);
  }
}
