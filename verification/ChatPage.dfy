/** ChatPage.tsx as the object it is: refs and state variables that the handlers, and the parts
    of load and send between two awaits, update one after the other. */
module ChatPage {
  import opened Basics
  import opened ChatProtocol

  class ChatPage {
    var session: string          // sessionRef
    var gen: nat                 // genRef
    var effectDue: bool
    var msgs: seq<Row>
    var loading: bool
    var sending: bool
    var stream: Stream
    var err: string
    var turns: seq<Turn>         // the suspended calls of send
    var loads: seq<Load>         // the suspended calls of load
    var abortRef: Option<nat>
    var localSeq: nat

    function View(): Page
      reads this
    {
      Page(session, gen, effectDue, msgs, loading, sending, stream, err, turns, loads, abortRef, localSeq)
    }

    ghost predicate Valid()
      reads this
    {
      Inv(View())
    }

    constructor (sessionId: string)
      ensures View() == Init(sessionId) && Valid()
    {
      session, gen, effectDue := sessionId, 0, true;
      msgs, loading, sending, stream, err := [], sessionId != "", false, Idle, "";
      turns, loads, abortRef, localSeq := [], [], None, 0;
      new;
      InitInv(sessionId);
    }

    predicate StillCurrent(token: Token)
      reads this
    {
      token.gen == gen && session == token.session
    }

    method Render(sessionId: string)
      requires Valid() && Enabled(View(), ChatProtocol.Render(sessionId))
      modifies this
      ensures View() == Step(old(View()), ChatProtocol.Render(sessionId)) && Valid()
    {
      hide Inv;
      StepInv(View(), ChatProtocol.Render(sessionId));
      effectDue := sessionId != session;
      session := sessionId;
    }

    method AbortStream()
      modifies this`turns
      ensures turns == Abort(old(turns), abortRef)
    {
      if abortRef.Some? && abortRef.value < |turns| {
        turns := turns[abortRef.value := turns[abortRef.value].(aborted := true)];
      }
    }

    /** Both branches of the switch effect empty the thread and abort its stream. */
    method ClearThread()
      modifies this`msgs, this`err, this`sending, this`stream, this`turns
      ensures View() == old(View()).(rows := [], err := "", sending := false, stream := Idle,
                                     turns := Abort(old(turns), abortRef))
    {
      hide Abort;
      msgs := [];
      err := "";
      sending := false;
      stream := Idle;
      AbortStream();
    }

    /** The body of the switch effect. */
    method SwitchVisit()
      modifies this
      ensures View() == Switched(old(View()))
    {
      hide Abort;
      effectDue := false;
      gen := gen + 1;
      ClearThread();
      loading := session != "";
      if session == "" {
        assert loads + [] == loads;
        return;
      }
      loads := loads + [Load(Token(session, gen), None, false)];
    }

    method RunSwitchEffect()
      requires Valid() && Enabled(View(), SwitchEffect)
      modifies this
      ensures View() == Step(old(View()), SwitchEffect) && Valid()
    {
      hide Inv, Switched;
      StepInv(View(), SwitchEffect);
      SwitchVisit();
    }

    /** load(forSession, genRef.current), up to its first await. */
    method StartLoad(forSession: string)
      requires Valid()
      modifies this
      ensures View() == Step(old(View()), BeginLoad(forSession)) && Valid()
    {
      hide Inv;
      StepInv(View(), BeginLoad(forSession));
      loads := loads + [Load(Token(forSession, gen), None, false)];
    }

    /** A load is over: the send that awaits it can go on. */
    method Wake(i: nat)
      requires i < |loads|
      modifies this`turns, this`loads
      ensures View() == Woken(old(View()), i)
    {
      var load := loads[i];
      if load.turn.Some? && load.turn.value < |turns| {
        turns := turns[load.turn.value := turns[load.turn.value].(phase := Reloaded)];
      }
      loads := loads[i := load.(settled := true)];
    }

    /** load, after its requests have settled. */
    method FinishLoad(i: nat, reply: Reply)
      requires Valid() && Enabled(View(), SettleLoad(i, reply))
      modifies this
      ensures View() == Step(old(View()), SettleLoad(i, reply)) && Valid()
    {
      hide Inv, MarkReplaced, Woken;
      StepInv(View(), SettleLoad(i, reply));
      var load := loads[i];
      Wake(i);
      if !StillCurrent(load.token) {
        return;
      }
      match reply {
        case Rejected(msg) =>
          err := msg;
        case Rows(rows) =>
          msgs := rows;
          err := "";
          turns := MarkReplaced(turns, load.token);
      }
      loading := false;
    }

    /** The optimistic rows of send. */
    method AddRows(text: string) returns (asst: RowId)
      modifies this`localSeq, this`msgs
      ensures asst == Local(old(localSeq) + 2) && localSeq == old(localSeq) + 2
      ensures msgs == old(msgs) + [Row(Local(old(localSeq) + 1), session, "user", text),
                                   Row(asst, session, "assistant", "")]
    {
      localSeq := localSeq + 1;
      var userMsg := Row(Local(localSeq), session, "user", text);
      localSeq := localSeq + 1;
      asst := Local(localSeq);
      msgs := msgs + [userMsg, Row(asst, session, "assistant", "")];
    }

    /** send, from its guards to its first await. */
    method BeginTurn(text: string)
      modifies this
      ensures View() == Sent(old(View()), text)
    {
      var asst := AddRows(text);
      sending, stream, err := true, Connecting, "";
      abortRef := Some(|turns|);
      turns := turns + [Turn(Token(session, gen), asst, Awaiting, false, [], false)];
    }

    /** send, up to its first await. */
    method StartSend(text: string, savingMeta: bool)
      requires Valid()
      modifies this
      ensures View() == Step(old(View()), Send(text, savingMeta)) && Valid()
    {
      hide Inv, Sent;
      StepInv(View(), Send(text, savingMeta));
      if text == "" || sending || savingMeta || session == "" {
        return;
      }
      BeginTurn(text);
    }

    /** The callback that chatStream calls with each delta. */
    method OnDelta(t: nat, delta: string)
      requires Valid() && Enabled(View(), Delta(t, delta))
      modifies this
      ensures View() == Step(old(View()), Delta(t, delta)) && Valid()
    {
      hide Inv;
      StepInv(View(), Delta(t, delta));
      if !StillCurrent(turns[t].token) {
        return;
      }
      stream := Streaming;
      var rows, id := msgs, turns[t].asst;
      msgs := seq(|rows|, k requires 0 <= k < |rows| =>
                    if rows[k].id == id then rows[k].(content := rows[k].content + delta) else rows[k]);
      turns := turns[t := turns[t].(delivered := turns[t].delivered + [delta])];
    }

    /** The finally clause of send. */
    method EndTurn(t: nat)
      requires t < |turns|
      modifies this`turns, this`sending, this`stream
      ensures View() == Finished(old(View()), t)
    {
      var token := turns[t].token;
      turns := turns[t := turns[t].(phase := Done)];
      if StillCurrent(token) {
        sending := false;
        if stream == Connecting || stream == Streaming || stream == Reconnect {
          stream := Idle;
        }
      }
    }

    /** send, when chatStream has returned. */
    method OnStreamDone(t: nat)
      requires Valid() && Enabled(View(), StreamDone(t))
      modifies this
      ensures View() == Step(old(View()), StreamDone(t)) && Valid()
    {
      hide Inv;
      StepInv(View(), StreamDone(t));
      if !StillCurrent(turns[t].token) {
        EndTurn(t);
        return;
      }
      stream := Idle;
      loads := loads + [Load(turns[t].token, Some(t), false)];
      turns := turns[t := turns[t].(phase := Reloading)];
    }

    /** send, when chatStream has thrown an AbortError. */
    method OnStreamAborted(t: nat)
      requires Valid() && Enabled(View(), StreamAborted(t))
      modifies this
      ensures View() == Step(old(View()), StreamAborted(t)) && Valid()
    {
      hide Inv, Finished, DropEmpty;
      StepInv(View(), StreamAborted(t));
      if StillCurrent(turns[t].token) {
        msgs := DropEmpty(msgs, turns[t].asst);
        stream := Idle;
        err := "";
      }
      EndTurn(t);
    }

    /** The message row and the wait after an error of the current turn. */
    method ShowFailure(t: nat, msg: string)
      requires t < |turns|
      modifies this
      ensures View() == Failing(old(View()), t, msg)
    {
      hide Drop;
      err, stream, localSeq := msg, Reconnect, localSeq + 1;
      msgs := Drop(msgs, turns[t].asst) + [Row(Local(localSeq), turns[t].token.session, "assistant", msg)];
      turns := turns[t := turns[t].(phase := Waiting(msg))];
    }

    /** send, when chatStream has thrown any other error. */
    method OnStreamFailed(t: nat, msg: string)
      requires Valid() && Enabled(View(), StreamFailed(t, msg))
      modifies this
      ensures View() == Step(old(View()), StreamFailed(t, msg)) && Valid()
    {
      hide Inv, Finished, Failing;
      StepInv(View(), StreamFailed(t, msg));
      if !StillCurrent(turns[t].token) {
        EndTurn(t);
        return;
      }
      ShowFailure(t, msg);
    }

    /** send, when the reconnect delay is over: probe the session. */
    method OnTimer(t: nat)
      requires Valid() && Enabled(View(), TimerFired(t))
      modifies this
      ensures View() == Step(old(View()), TimerFired(t)) && Valid()
    {
      hide Inv;
      StepInv(View(), TimerFired(t));
      if !StillCurrent(turns[t].token) {
        EndTurn(t);
        return;
      }
      turns := turns[t := turns[t].(phase := Probing(turns[t].phase.msg))];
    }

    /** send, when the probe has come back, whatever it found. */
    method OnProbe(t: nat)
      requires Valid() && Enabled(View(), ProbeDone(t))
      modifies this
      ensures View() == Step(old(View()), ProbeDone(t)) && Valid()
    {
      hide Inv, Finished;
      StepInv(View(), ProbeDone(t));
      if StillCurrent(turns[t].token) {
        err := turns[t].phase.msg;
        stream := Error;
      }
      EndTurn(t);
    }

    /** send, when the load it awaited is over. */
    method OnReloaded(t: nat)
      requires Valid() && Enabled(View(), Resume(t))
      modifies this
      ensures View() == Step(old(View()), Resume(t)) && Valid()
    {
      hide Inv;
      StepInv(View(), Resume(t));
      EndTurn(t);
    }

    /** The stop button. */
    method StopStream()
      requires Valid()
      modifies this
      ensures View() == Step(old(View()), Stop) && Valid()
    {
      hide Inv;
      StepInv(View(), Stop);
      AbortStream();
    }

    /** The end of persistAgent's or persistModel's request: the error is set in any case. */
    method OnSaveEnds(token: Token, failure: Option<string>)
      requires Valid() && Enabled(View(), SaveEnds(token, failure))
      modifies this
      ensures View() == Step(old(View()), SaveEnds(token, failure)) && Valid()
    {
      hide Inv;
      StepInv(View(), SaveEnds(token, failure));
      err := if failure.Some? then failure.value else "";
    }
  }
}
