/** What each piece of the chat page's code shows, and which rows a run leaves on the page. */
module ChatEffects {
  import opened Basics
  import opened ChatProtocol
  import ChatRuns

  // ----- one step -----

  lemma RenderShows(p: Page, session: string)
    requires Enabled(p, Render(session))
    ensures var q := Step(p, Render(session));
            q.session == session && q.rows == p.rows && (q.effectDue <==> session != p.session)
  {
  }

  /** A switch empties the page, aborts the stream that was open, and loads the session. */
  lemma SwitchShows(p: Page)
    requires Inv(p) && Enabled(p, SwitchEffect)
    ensures var q := Step(p, SwitchEffect);
            && q.rows == [] && q.err == "" && !q.sending && q.stream == Idle && !q.effectDue
            && q.session == p.session && (q.loading <==> p.session != "")
            && (forall t :: 0 <= t < |q.turns| ==> !Open(q.turns[t]))
            && (p.session != "" ==>
                  && q.loads == p.loads + [Load(Token(p.session, q.gen), None, false)]
                  && Current(q, Token(p.session, q.gen)))
            && (p.session == "" ==> q.loads == p.loads)
  {
    AbortShape(p.turns, p.abortRef);
    hide Abort, Linked, Conserved, Gone, Home, Honest;
    assert p.loads + [] == p.loads;
  }

  /** A load of the visit that ends well shows the rows of the reply and no error; one that is
      rejected shows the error and leaves the rows. */
  lemma LoadShows(p: Page, i: nat, reply: Reply)
    requires Enabled(p, SettleLoad(i, reply)) && Current(p, p.loads[i].token)
    ensures var q := Step(p, SettleLoad(i, reply));
            && !q.loading && q.sending == p.sending && q.stream == p.stream
            && match reply
               case Rows(rows) => q.rows == rows && q.err == ""
               case Rejected(msg) => q.rows == p.rows && q.err == msg
  {
    hide MarkReplaced;
  }

  /** A send goes out exactly when there is a text and a session, and neither a send nor a save
      under way. Then the page shows the text and an empty reply, under ids it never showed. */
  lemma SendShows(p: Page, text: string, saving: bool)
    requires Inv(p)
    ensures var q := Step(p, Send(text, saving));
            if text != "" && p.session != "" && !p.sending && !saving then
              && q.sending && q.stream == Connecting && q.err == "" && q.session == p.session
              && |q.rows| == |p.rows| + 2 && p.rows <= q.rows
              && q.rows[|p.rows|].(id := q.rows[|p.rows| + 1].id, role := "assistant", content := "")
                 == q.rows[|p.rows| + 1]
              && q.rows[|p.rows|].session == p.session
              && q.rows[|p.rows|].role == "user" && q.rows[|p.rows|].content == text
              && q.rows[|p.rows|].id != q.rows[|p.rows| + 1].id
              && (forall row :: row in p.rows ==> row.id != q.rows[|p.rows|].id && row.id != q.rows[|p.rows| + 1].id)
              && |q.turns| == |p.turns| + 1
              && InPhase(q, |p.turns|, Awaiting) && Current(q, q.turns[|p.turns|].token)
              && q.turns[|p.turns|].asst == q.rows[|p.rows| + 1].id
            else q == p
  {
    hide Linked, Exclusive, Conserved, Gone, Home, Honest;
  }

  /** A delta of the visit is put to the end of the assistant's row, and of no other. */
  lemma DeltaShows(p: Page, t: nat, d: string)
    requires Enabled(p, Delta(t, d)) && Current(p, p.turns[t].token)
    ensures var q := Step(p, Delta(t, d));
            && q.stream == Streaming && q.sending == p.sending && q.err == p.err && |q.rows| == |p.rows|
            && forall k :: 0 <= k < |p.rows| ==>
                 if p.rows[k].id == p.turns[t].asst then q.rows[k] == p.rows[k].(content := p.rows[k].content + d)
                 else q.rows[k] == p.rows[k]
  {
  }

  /** When its stream is done, a send of the visit loads the session again, and ends when that
      load is over, whether it was well or not. */
  lemma DoneShows(p: Page, t: nat, reply: Reply)
    requires Inv(p) && Enabled(p, StreamDone(t)) && Current(p, p.turns[t].token)
    requires var q := Step(p, StreamDone(t)); Enabled(q, SettleLoad(|p.loads|, reply))
    ensures var q := Step(p, StreamDone(t));
            && q.stream == Idle && q.sending && q.rows == p.rows
            && |q.loads| == |p.loads| + 1 && q.loads[|p.loads|] == Load(p.turns[t].token, Some(t), false)
            && (var r := Step(q, SettleLoad(|p.loads|, reply));
                && Enabled(r, Resume(t))
                && (reply.Rows? ==> r.rows == reply.rows)
                && (var end := Step(r, Resume(t)); !end.sending && end.stream == Idle && end.rows == r.rows))
  {
    assert Live(p, p.turns[t]) && p.sending;
    hide Inv;
  }

  /** After the stop button no stream is open, and nothing else has changed. */
  lemma StopShows(p: Page)
    requires Inv(p)
    ensures var q := Step(p, Stop);
            && q == p.(turns := q.turns) && |q.turns| == |p.turns|
            && (forall t :: 0 <= t < |p.turns| ==>
                  !Open(q.turns[t]) && q.turns[t] == p.turns[t].(aborted := q.turns[t].aborted))
            && (forall t :: 0 <= t < |p.turns| && Open(p.turns[t]) ==> Enabled(q, StreamAborted(t)))
  {
    AbortShape(p.turns, p.abortRef);
    hide Abort, Linked, Conserved, Gone, Home, Honest;
  }

  // ----- the rows of a run -----

  /** The rows that come from the gateway, without those that sends have put on the page. */
  function ServerRows(rows: seq<Row>): seq<Row> {
    if rows == [] then []
    else (if rows[0].id.Gateway? then [rows[0]] else []) + ServerRows(rows[1..])
  }

  /** The rows of the last reply of the visit, `shown` before the run. */
  ghost function LastReply(p: Page, shown: seq<Row>, events: seq<Event>): seq<Row>
    requires ValidRun(p, events)
    decreases |events|
  {
    if events == [] then shown
    else
      var e := events[0];
      LastReply(Step(p, e),
                if e.SwitchEffect? then []
                else if e.SettleLoad? && e.reply.Rows? && Current(p, p.loads[e.load].token) then e.reply.rows
                else shown,
                events[1..])
  }

  lemma ServerCons(row: Row, rest: seq<Row>)
    ensures ServerRows([row] + rest) == (if row.id.Gateway? then [row] else []) + ServerRows(rest)
    ensures ServerRows([]) == []
  {
    assert ([row] + rest)[1..] == rest;
  }

  lemma {:induction false} ServerRowsAppend(a: seq<Row>, b: seq<Row>)
    ensures ServerRows(a + b) == ServerRows(a) + ServerRows(b)
  {
    hide ServerRows;
    if a == [] {
      assert a + b == b;
      ServerCons(Row(Local(0), "", "", ""), []);
    } else {
      var row, rest := a[0], a[1..];
      ServerRowsAppend(rest, b);
      assert a == [row] + rest;
      Assoc([row], rest, b);
      ServerCons(row, rest);
      ServerCons(row, rest + b);
    }
  }

  /** Rows of the page itself count for nothing. */
  lemma LocalRowsDoNotCount(rows: seq<Row>, more: seq<Row>)
    requires |more| <= 2 && forall k :: 0 <= k < |more| ==> more[k].id.Local?
    ensures ServerRows(rows + more) == ServerRows(rows)
  {
    hide ServerRows;
    ServerRowsAppend(rows, more);
    ServerCons(Row(Local(0), "", "", ""), []);
    if |more| == 1 {
      assert more == [more[0]] + [];
      ServerCons(more[0], []);
    } else if |more| == 2 {
      assert more == [more[0]] + [more[1]] && [more[1]] == [more[1]] + [];
      ServerCons(more[0], [more[1]]);
      ServerCons(more[1], []);
    }
  }

  lemma {:induction false} ServerRowsOnly(rows: seq<Row>)
    requires forall k :: 0 <= k < |rows| ==> rows[k].id.Gateway?
    ensures ServerRows(rows) == rows
  {
    if rows == [] {
    } else {
      ServerRowsOnly(rows[1..]);
    }
  }

  lemma {:induction false} DropKeepsServerRows(rows: seq<Row>, id: RowId)
    requires id.Local?
    ensures ServerRows(Drop(rows, id)) == ServerRows(rows)
    ensures ServerRows(DropEmpty(rows, id)) == ServerRows(rows)
  {
    if rows == [] {
    } else {
      DropKeepsServerRows(rows[1..], id);
      ServerCons(rows[0], Drop(rows[1..], id));
      ServerCons(rows[0], DropEmpty(rows[1..], id));
    }
  }

  lemma {:induction false} GrowthKeepsServerRows(rows: seq<Row>, grown: seq<Row>, id: RowId)
    requires id.Local? && |grown| == |rows|
    requires forall k :: 0 <= k < |rows| ==> grown[k].id == rows[k].id && (rows[k].id != id ==> grown[k] == rows[k])
    ensures ServerRows(grown) == ServerRows(rows)
  {
    if rows == [] {
    } else {
      GrowthKeepsServerRows(rows[1..], grown[1..], id);
    }
  }

  lemma ServerRowsStep(p: Page, e: Event)
    requires Bounded(p) && Enabled(p, e)
    ensures ServerRows(Step(p, e).rows)
         == if e.SwitchEffect? then []
            else if e.SettleLoad? && e.reply.Rows? && Current(p, p.loads[e.load].token) then e.reply.rows
            else ServerRows(p.rows)
  {
    if ChatRuns.OfTurn(e) {
      OwnStepRows(p, e);
    } else if e.SettleLoad? && e.reply.Rows? && Current(p, p.loads[e.load].token) {
      LoadShows(p, e.load, e.reply);
      ServerRowsOnly(e.reply.rows);
    } else if e.Send? {
      SendRowsShown(p, e.text);
    }
    hide ServerRows, Abort, MarkReplaced, Sent, ChatRuns.OfTurn;
  }

  lemma SendRowsShown(p: Page, text: string)
    ensures ServerRows(Sent(p, text).rows) == ServerRows(p.rows)
  {
    hide ServerRows;
    LocalRowsDoNotCount(p.rows, [Row(Local(p.localSeq + 1), p.session, "user", text),
                                 Row(Local(p.localSeq + 2), p.session, "assistant", "")]);
  }

  lemma FailedRows(p: Page, t: nat, msg: string)
    requires t < |p.turns| && p.turns[t].asst.Local?
    ensures ServerRows(Failing(p, t, msg).rows) == ServerRows(p.rows)
  {
    hide ServerRows, Drop;
    DropKeepsServerRows(p.rows, p.turns[t].asst);
    LocalRowsDoNotCount(Drop(p.rows, p.turns[t].asst),
                        [Row(Local(p.localSeq + 1), p.turns[t].token.session, "assistant", msg)]);
  }

  lemma GrownServerRows(p: Page, t: nat, d: string)
    requires t < |p.turns| && p.turns[t].asst.Local?
    ensures ServerRows(Grown(p, t, d).rows) == ServerRows(p.rows)
  {
    hide ServerRows;
    GrowthKeepsServerRows(p.rows, Grown(p, t, d).rows, p.turns[t].asst);
  }

  lemma OwnStepRows(p: Page, e: Event)
    requires Bounded(p) && Enabled(p, e) && ChatRuns.OfTurn(e)
    ensures ServerRows(Step(p, e).rows) == ServerRows(p.rows)
  {
    hide ServerRows, Drop, DropEmpty, Grown, Failing, Finished, Current;
    var t := e.turn;
    assert p.turns[t].asst.Local?;
    ChatRuns.FinishedTurn(p, t);
    if e.Delta? {
      GrownServerRows(p, t, e.delta);
    } else if e.StreamFailed? {
      FailedRows(p, t, e.msg);
    } else if e.StreamAborted? {
      DropKeepsServerRows(p.rows, p.turns[t].asst);
      ChatRuns.FinishedTurn(p.(rows := DropEmpty(p.rows, p.turns[t].asst), stream := Idle, err := ""), t);
    } else if e.ProbeDone? {
      ChatRuns.FinishedTurn(p.(err := p.turns[t].phase.msg, stream := Error), t);
    }
  }

  /** Over any run the rows from the gateway are exactly those of the last reply to a load of the
      visit: nothing else adds, drops or changes one. */
  lemma {:induction false} RowsAreTheLastReply(p: Page, events: seq<Event>)
    requires Inv(p) && ValidRun(p, events)
    ensures ServerRows(After(p, events).rows) == LastReply(p, ServerRows(p.rows), events)
    decreases |events|
  {
    if events == [] {
    } else {
      ServerRowsStep(p, events[0]);
      StepInv(p, events[0]);
      hide Inv, Step, Enabled, ServerRows, Current;
      RowsAreTheLastReply(Step(p, events[0]), events[1..]);
    }
  }

  /** In particular from the start of the page. */
  lemma PageShowsTheLastReply(session: string, events: seq<Event>)
    requires ValidRun(Init(session), events)
    ensures ServerRows(After(Init(session), events).rows) == LastReply(Init(session), [], events)
  {
    InitInv(session);
    RowsAreTheLastReply(Init(session), events);
  }
}
