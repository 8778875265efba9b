/** Events.tsx as the object it is: the variables that the effect, its runner and the stream
    callbacks update. */
module EventsPage {
  import opened Basics
  import opened LiveTail
  import opened Reconnect

  class EventsPage {
    const san: Sanitiser
    var conn: Conn
    var retryIn: nat
    var lastSeq: int
    var liveRows: seq<GatewayEvent>
    var runners: seq<Runner>              // the effect's locals attempt and stopped, and the await it is at
    ghost var connections: seq<Connection>

    ghost function View(): Page
      reads this
    {
      Page(conn, retryIn, lastSeq, liveRows, runners, connections)
    }

    ghost predicate Valid()
      reads this
    {
      Inv(View())
    }

    constructor (san: Sanitiser)
      ensures View() == INIT && Valid() && this.san == san
    {
      this.san := san;
      conn, retryIn, lastSeq, liveRows, runners, connections := Off, 0, 0, [], [], [];
    }

    method StopRunner()
      modifies this`runners
      ensures View() == Cleanup(old(View()))
    {
      if |runners| > 0 {
        runners := runners[|runners| - 1 := runners[|runners| - 1].(stopped := true)];
      }
    }

    /** The head of the loop in run. */
    method Connect(r: nat)
      requires r < |runners|
      modifies this
      ensures View() == Open(old(View()), r)
    {
      conn := Connecting;
      retryIn := 0;
      connections := connections + [Connection(r, if lastSeq != 0 then Some(lastSeq) else None)];
      runners := runners[r := runners[r].(phase := Streaming)];
    }

    method OnEffect(live: bool, paused: bool, blocked: bool)
      requires Valid()
      modifies this
      ensures View() == Step(san, old(View()), RunEffect(live, paused, blocked)) && Valid()
    {
      hide Inv, BackoffDelay, MergeLive;
      StepInv(san, View(), RunEffect(live, paused, blocked));
      StopRunner();
      if blocked {
        conn := Off;
        retryIn := 0;
        return;
      }
      if !live || paused {
        conn := if live then Paused else Off;
        retryIn := 0;
        return;
      }
      runners := runners + [Runner(Streaming, false, 0)];
      Connect(|runners| - 1);
    }

    method OnLeave()
      requires Valid()
      modifies this
      ensures View() == Step(san, old(View()), Leave) && Valid()
    {
      hide Inv, BackoffDelay, MergeLive;
      StepInv(san, View(), Leave);
      StopRunner();
    }

    method OnEvent(r: nat, e: GatewayEvent)
      requires Valid() && Enabled(View(), Deliver(r, e))
      modifies this
      ensures View() == Step(san, old(View()), Deliver(r, e)) && Valid()
    {
      hide Inv, BackoffDelay, MergeLive;
      StepInv(san, View(), Deliver(r, e));
      if e.seq_.Some? && e.seq_.value > lastSeq {
        lastSeq := e.seq_.value;
      }
      liveRows := MergeLive(san, liveRows, e, LIVE_CAP);
    }

    method OnReady(r: nat)
      requires Valid() && Enabled(View(), Ready(r))
      modifies this
      ensures View() == Step(san, old(View()), Ready(r)) && Valid()
    {
      hide Inv, BackoffDelay, MergeLive;
      StepInv(san, View(), Ready(r));
      runners := runners[r := runners[r].(attempt := 0)];
      conn := Live;
    }

    /** The stream of a runner is over: it returned, or `failed`. */
    method OnStreamOver(r: nat, failed: bool)
      requires Valid() && Enabled(View(), StreamEnd(r))
      modifies this
      ensures View() == Step(san, old(View()), if failed then StreamThrow(r) else StreamEnd(r)) && Valid()
    {
      hide Inv, BackoffDelay, MergeLive;
      StepInv(san, View(), if failed then StreamThrow(r) else StreamEnd(r));
      if runners[r].stopped {
        runners := runners[r := runners[r].(phase := Ended)];
        return;
      }
      var attempt := runners[r].attempt + 1;
      var delay := BackoffDelay(attempt - 1);
      conn := Retrying;
      retryIn := (delay + 999) / 1000;
      runners := runners[r := runners[r].(attempt := attempt, phase := Waiting(delay))];
    }

    method OnWaitOver(r: nat)
      requires Valid() && Enabled(View(), WaitOver(r))
      modifies this
      ensures View() == Step(san, old(View()), WaitOver(r)) && Valid()
    {
      hide Inv, BackoffDelay, MergeLive;
      StepInv(san, View(), WaitOver(r));
      if runners[r].stopped {
        runners := runners[r := runners[r].(phase := Ended)];
        return;
      }
      Connect(r);
    }

    method OnClear()
      requires Valid()
      modifies this
      ensures View() == Step(san, old(View()), ClearView) && Valid()
    {
      hide Inv, BackoffDelay, MergeLive;
      StepInv(san, View(), ClearView);
      liveRows := [];
    }
  }
}
