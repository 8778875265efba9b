/** The chat page as a state machine over the interleavings of ChatPage.tsx: between two awaits
    a load or a send runs to its end, and any such pieces may follow each other. */
module ChatProtocol {
  import opened Basics
  import opened Text

  /** Rows made on the page are numbered by localSeq; the gateway's rows have their own names. */
  datatype RowId = Gateway(name: string) | Local(n: nat)

  datatype Row = Row(id: RowId, session: string, role: string, content: string)

  datatype Stream = Idle | Connecting | Streaming | Reconnect | Error

  /** What a load or a send remembers of the moment it began. */
  datatype Token = Token(session: string, gen: nat)

  /** The await at which a send is suspended. */
  datatype Phase = Awaiting | Reloading | Reloaded | Waiting(msg: string) | Probing(msg: string) | Done

  /** A send. `delivered` (the deltas shown so far) and `replaced` (a load of the same token has
      committed since) are history: the page keeps no such variables. */
  datatype Turn = Turn(token: Token, asst: RowId, phase: Phase, aborted: bool, delivered: seq<string>, replaced: bool)

  /** A load; `turn` is the send that awaits it, if any. */
  datatype Load = Load(token: Token, turn: Option<nat>, settled: bool)

  /** `effectDue`: a session has been rendered whose switch effect has not run yet. */
  datatype Page = Page(
    session: string, gen: nat, effectDue: bool,
    rows: seq<Row>, loading: bool, sending: bool, stream: Stream, err: string,
    turns: seq<Turn>, loads: seq<Load>, abortRef: Option<nat>, localSeq: nat)

  datatype Reply = Rows(rows: seq<Row>) | Rejected(msg: string)

  datatype Event =
    | Render(session: string)
    | SwitchEffect
    | BeginLoad(session: string)
    | SettleLoad(load: nat, reply: Reply)
    | Send(text: string, saving: bool)
    | Delta(turn: nat, delta: string)
    | StreamDone(turn: nat)
    | StreamAborted(turn: nat)
    | StreamFailed(turn: nat, msg: string)
    | TimerFired(turn: nat)
    | ProbeDone(turn: nat)
    | Resume(turn: nat)
    | Stop
    | SaveEnds(token: Token, failure: Option<string>)

  function Init(session: string): Page {
    Page(session, 0, true, [], session != "", false, Idle, "", [], [], None, 0)
  }

  /** stillCurrent */
  predicate Current(p: Page, token: Token) {
    token.gen == p.gen && p.session == token.session
  }

  predicate InPhase(p: Page, t: nat, phase: Phase) {
    t < |p.turns| && p.turns[t].phase == phase
  }

  // ----- one piece of code between two awaits -----

  predicate Enabled(p: Page, e: Event) {
    match e
    case Render(_) => !p.effectDue
    case SwitchEffect => p.effectDue
    case BeginLoad(_) => true
    case SettleLoad(i, reply) =>
      && i < |p.loads| && !p.loads[i].settled
      && (reply.Rows? ==> forall k :: 0 <= k < |reply.rows| ==>
                            reply.rows[k].session == p.loads[i].token.session && reply.rows[k].id.Gateway?)
    case Send(_, _) => true
    case Delta(t, _) => InPhase(p, t, Awaiting)
    case StreamDone(t) => InPhase(p, t, Awaiting)
    case StreamAborted(t) => InPhase(p, t, Awaiting) && p.turns[t].aborted
    case StreamFailed(t, _) => InPhase(p, t, Awaiting)
    case TimerFired(t) => t < |p.turns| && p.turns[t].phase.Waiting?
    case ProbeDone(t) => t < |p.turns| && p.turns[t].phase.Probing?
    case Resume(t) => InPhase(p, t, Reloaded)
    case Stop => true
    case SaveEnds(token, _) => token.gen <= p.gen
  }

  function Step(p: Page, e: Event): Page
    requires Enabled(p, e)
  {
    match e
    case Render(sid) => p.(session := sid, effectDue := sid != p.session)
    case SwitchEffect => Switched(p)
    case BeginLoad(sid) => p.(loads := p.loads + [Load(Token(sid, p.gen), None, false)])
    case SettleLoad(i, reply) => Settled(p, i, reply)
    case Send(text, saving) =>
      if text == "" || p.sending || saving || p.session == "" then p else Sent(p, text)
    case Delta(t, d) => if Current(p, p.turns[t].token) then Grown(p, t, d) else p
    case StreamDone(t) =>
      if Current(p, p.turns[t].token) then
        At(p, t, Reloading).(stream := Idle, loads := p.loads + [Load(p.turns[t].token, Some(t), false)])
      else Finished(p, t)
    case StreamAborted(t) =>
      if Current(p, p.turns[t].token) then
        Finished(p.(rows := DropEmpty(p.rows, p.turns[t].asst), stream := Idle, err := ""), t)
      else Finished(p, t)
    case StreamFailed(t, msg) =>
      if Current(p, p.turns[t].token) then Failing(p, t, msg) else Finished(p, t)
    case TimerFired(t) =>
      if Current(p, p.turns[t].token) then At(p, t, Probing(p.turns[t].phase.msg)) else Finished(p, t)
    case ProbeDone(t) =>
      if Current(p, p.turns[t].token) then Finished(p.(err := p.turns[t].phase.msg, stream := Error), t)
      else Finished(p, t)
    case Resume(t) => Finished(p, t)
    case Stop => p.(turns := Abort(p.turns, p.abortRef))
    case SaveEnds(_, failure) => p.(err := SaveResult(failure))
  }

  /** persistAgent and persistModel set the error without asking whether their visit lasts. */
  function SaveResult(failure: Option<string>): string {
    if failure.Some? then failure.value else ""
  }

  function At(p: Page, t: nat, phase: Phase): Page
    requires t < |p.turns|
  {
    p.(turns := p.turns[t := p.turns[t].(phase := phase)])
  }

  /** After an error of a current turn: the message takes the place of the assistant row. */
  function Failing(p: Page, t: nat, msg: string): Page
    requires t < |p.turns|
  {
    At(p, t, Waiting(msg)).(
      err := msg, stream := Reconnect, localSeq := p.localSeq + 1,
      rows := Drop(p.rows, p.turns[t].asst)
              + [Row(Local(p.localSeq + 1), p.turns[t].token.session, "assistant", msg)])
  }

  /** The finally clause of send. */
  function Finished(p: Page, t: nat): (q: Page)
    requires t < |p.turns|
    ensures q.gen == p.gen && q.session == p.session && q.effectDue == p.effectDue
  {
    var q := At(p, t, Done);
    if Current(p, p.turns[t].token) then
      q.(sending := false, stream := if p.stream in {Connecting, Streaming, Reconnect} then Idle else p.stream)
    else q
  }

  function Abort(turns: seq<Turn>, ref: Option<nat>): seq<Turn> {
    if ref.Some? && ref.value < |turns| then turns[ref.value := turns[ref.value].(aborted := true)] else turns
  }

  /** The switch effect: a new generation, an empty page, the old stream aborted, a load begun. */
  function Switched(p: Page): Page {
    var gen := p.gen + 1;
    p.(gen := gen, effectDue := false, rows := [], err := "", sending := false, stream := Idle,
       loading := p.session != "", turns := Abort(p.turns, p.abortRef),
       loads := p.loads + if p.session == "" then [] else [Load(Token(p.session, gen), None, false)])
  }

  function Sent(p: Page, text: string): Page {
    var user, asst := Local(p.localSeq + 1), Local(p.localSeq + 2);
    p.(sending := true, stream := Connecting, err := "", localSeq := p.localSeq + 2,
       rows := p.rows + [Row(user, p.session, "user", text), Row(asst, p.session, "assistant", "")],
       abortRef := Some(|p.turns|),
       turns := p.turns + [Turn(Token(p.session, p.gen), asst, Awaiting, false, [], false)])
  }

  /** onDelta for a current turn: the row with the assistant's id grows, if it is still there. */
  function Grown(p: Page, t: nat, d: string): Page
    requires t < |p.turns|
  {
    p.(stream := Streaming,
       rows := seq(|p.rows|, k requires 0 <= k < |p.rows| =>
                     if p.rows[k].id == p.turns[t].asst
                     then p.rows[k].(content := p.rows[k].content + d) else p.rows[k]),
       turns := p.turns[t := p.turns[t].(delivered := p.turns[t].delivered + [d])])
  }

  function Drop(rows: seq<Row>, id: RowId): (r: seq<Row>)
    ensures forall row :: row in r <==> row in rows && row.id != id
  {
    if rows == [] then []
    else
      var rest := Drop(rows[1..], id);
      assert rows == [rows[0]] + rows[1..];
      if rows[0].id == id then rest else [rows[0]] + rest
  }

  /** After an abort the assistant row goes only if nothing visible has arrived. */
  function DropEmpty(rows: seq<Row>, id: RowId): (r: seq<Row>)
    ensures forall row :: row in r <==> row in rows && (row.id != id || Trim(row.content) != "")
  {
    if rows == [] then []
    else
      var rest := DropEmpty(rows[1..], id);
      assert rows == [rows[0]] + rows[1..];
      if rows[0].id == id && Trim(rows[0].content) == "" then rest else [rows[0]] + rest
  }

  function MarkReplaced(turns: seq<Turn>, token: Token): seq<Turn> {
    seq(|turns|, t requires 0 <= t < |turns| =>
          if turns[t].token == token then turns[t].(replaced := true) else turns[t])
  }

  /** A load is over: the turn that awaits it can go on. */
  function Woken(p: Page, i: nat): Page
    requires i < |p.loads|
  {
    var load := p.loads[i];
    var q := if load.turn.Some? && load.turn.value < |p.turns| then At(p, load.turn.value, Reloaded) else p;
    q.(loads := p.loads[i := load.(settled := true)])
  }

  function Committed(p: Page, token: Token, rows: seq<Row>): Page {
    p.(rows := rows, err := "", loading := false, turns := MarkReplaced(p.turns, token))
  }

  /** The rest of load, after its requests have settled. */
  function Settled(p: Page, i: nat, reply: Reply): (q: Page)
    requires i < |p.loads|
    ensures q.gen == p.gen && q.session == p.session && q.effectDue == p.effectDue
  {
    var q := Woken(p, i);
    if !Current(p, p.loads[i].token) then q
    else match reply
      case Rows(rows) => Committed(q, p.loads[i].token, rows)
      case Rejected(msg) => q.(err := msg, loading := false)
  }

  // ----- runs -----

  ghost predicate ValidRun(p: Page, events: seq<Event>)
    decreases |events|
  {
    events == [] || (Enabled(p, events[0]) && ValidRun(Step(p, events[0]), events[1..]))
  }

  ghost function After(p: Page, events: seq<Event>): Page
    requires ValidRun(p, events)
    decreases |events|
  {
    if events == [] then p else After(Step(p, events[0]), events[1..])
  }

  // ----- what every reachable page keeps -----

  /** The turn is suspended and its token still names the page's visit. */
  predicate Live(p: Page, turn: Turn) {
    turn.phase != Done && Current(p, turn.token)
  }

  predicate Open(turn: Turn) {
    turn.phase == Awaiting && !turn.aborted
  }

  /** Tokens come from the past, and a local id has been handed out once. */
  ghost predicate Bounded(p: Page) {
    && (forall t :: 0 <= t < |p.turns| ==> p.turns[t].token.gen <= p.gen)
    && (forall i :: 0 <= i < |p.loads| ==> p.loads[i].token.gen <= p.gen)
    && (forall t :: 0 <= t < |p.turns| ==> p.turns[t].asst.Local? && p.turns[t].asst.n <= p.localSeq)
    && (forall row :: row in p.rows && row.id.Local? ==> row.id.n <= p.localSeq)
  }

  /** A turn awaits the load it began, and no other. */
  ghost predicate Linked(p: Page) {
    && (forall i :: 0 <= i < |p.loads| && p.loads[i].turn.Some? ==>
          && p.loads[i].turn.value < |p.turns|
          && p.turns[p.loads[i].turn.value].phase != Awaiting
          && (!p.loads[i].settled ==> p.turns[p.loads[i].turn.value].phase == Reloading))
    && (forall i, j :: 0 <= i < j < |p.loads| && p.loads[i].turn.Some? ==> p.loads[i].turn != p.loads[j].turn)
  }

  /** At most one stream is open and not aborted: the one abortRef points to. At most one current
      turn runs, and while it runs no other stream is open and no second send can start. */
  ghost predicate Exclusive(p: Page) {
    && (forall t :: 0 <= t < |p.turns| && Open(p.turns[t]) ==> p.abortRef == Some(t) && p.sending)
    && (forall t :: 0 <= t < |p.turns| && Live(p, p.turns[t]) ==> p.sending)
    && (forall t, u :: 0 <= t < |p.turns| && 0 <= u < |p.turns| && Live(p, p.turns[t]) && t != u ==>
          !Live(p, p.turns[u]) && !Open(p.turns[u]))
  }

  /** The status shown while a turn is suspended. */
  predicate Shows(stream: Stream, phase: Phase) {
    match phase
    case Awaiting => stream == Connecting || stream == Streaming
    case Reloading => stream == Idle
    case Reloaded => stream == Idle
    case Waiting(_) => stream == Reconnect
    case Probing(_) => stream == Reconnect
    case Done => stream == Idle || stream == Error
  }

  ghost predicate SomeLive(p: Page) {
    exists t :: 0 <= t < |p.turns| && Live(p, p.turns[t])
  }

  /** The page says it is sending while a current turn runs, and shows the status of its await. */
  ghost predicate Honest(p: Page) {
    && (p.sending ==> SomeLive(p))
    && (forall t :: 0 <= t < |p.turns| && Live(p, p.turns[t]) ==> Shows(p.stream, p.turns[t].phase))
    && (!p.sending ==> Shows(p.stream, Done))
  }

  /** Rows, turns of this generation and open streams belong to the selected session. */
  ghost predicate Home(p: Page) {
    && (forall row :: row in p.rows ==> row.session == p.session)
    && (forall t :: 0 <= t < |p.turns| && p.turns[t].token.gen == p.gen ==> p.turns[t].token.session == p.session)
    && (forall t :: 0 <= t < |p.turns| && Open(p.turns[t]) ==> Current(p, p.turns[t].token))
  }

  /** The assistant row of a turn shows the deltas delivered so far, joined, and is the only row
      with its id. */
  ghost predicate ShowsDeltas(rows: seq<Row>, asst: RowId, deltas: seq<string>) {
    exists k :: 0 <= k < |rows| && ShownAt(rows, k, asst, deltas)
  }

  ghost predicate ShownAt(rows: seq<Row>, k: nat, asst: RowId, deltas: seq<string>)
    requires k < |rows|
  {
    && rows[k].id == asst && rows[k].content == Concat(deltas)
    && (forall m :: 0 <= m < |rows| && m != k ==> rows[m].id != asst)
  }

  ghost predicate TurnConserved(p: Page, turn: Turn) {
    Live(p, turn) && turn.phase == Awaiting && !turn.replaced ==> ShowsDeltas(p.rows, turn.asst, turn.delivered)
  }

  ghost predicate Conserved(p: Page) {
    forall t :: 0 <= t < |p.turns| ==> TurnConserved(p, p.turns[t])
  }

  /** Once a load of its visit has committed, the assistant row of a turn is gone for good. */
  ghost predicate Gone(p: Page) {
    forall t :: 0 <= t < |p.turns| && p.turns[t].replaced ==> NoRow(p.rows, p.turns[t].asst)
  }

  ghost predicate NoRow(rows: seq<Row>, id: RowId) {
    forall row :: row in rows ==> row.id != id
  }

  /** Home and Honest hold once the switch effect has run. */
  ghost predicate Inv(p: Page) {
    && Bounded(p) && Linked(p) && Exclusive(p) && Conserved(p) && Gone(p)
    && (!p.effectDue ==> Home(p) && Honest(p))
  }

  /** What every step but a render does, also in the gap before a switch effect. */
  ghost predicate Kept(p: Page, q: Page) {
    Inv(q) && (Honest(p) ==> Honest(q))
  }

  lemma InitInv(session: string)
    ensures Inv(Init(session))
  {
  }

  // ----- steps that no current turn takes -----

  /** What a turn does while another piece of code runs: nothing, or a move on that shows the
      same status, or its end when its visit is over. */
  predicate Settles(p: Page, turn: Turn, turn': Turn) {
    && turn'.token == turn.token && turn'.asst == turn.asst && (turn.aborted ==> turn'.aborted)
    && (|| turn'.phase == turn.phase
        || (turn.phase == Reloading && turn'.phase == Reloaded)
        || (turn.phase.Waiting? && turn'.phase.Probing?)
        || (turn'.phase == Done && !Current(p, turn.token)))
  }

  ghost predicate Calm(p: Page, q: Page) {
    && q.session == p.session && q.gen == p.gen && q.sending == p.sending && q.stream == p.stream
    && q.abortRef == p.abortRef && |q.turns| == |p.turns|
    && forall t :: 0 <= t < |p.turns| ==> Settles(p, p.turns[t], q.turns[t])
  }

  /** Rows, and what turns know of them, stay as they are. */
  ghost predicate SameRows(p: Page, q: Page) {
    && q.rows == p.rows && q.localSeq == p.localSeq && |q.turns| == |p.turns|
    && (forall t :: 0 <= t < |p.turns| ==>
          q.turns[t].delivered == p.turns[t].delivered && q.turns[t].replaced == p.turns[t].replaced)
    && forall i :: 0 <= i < |q.loads| ==> q.loads[i].token.gen <= q.gen
  }

  lemma SettlesLive(p: Page, q: Page, t: nat)
    requires Calm(p, q) && t < |p.turns|
    ensures Live(q, q.turns[t]) <==> Live(p, p.turns[t])
    ensures Open(q.turns[t]) ==> Open(p.turns[t])
    ensures Shows(p.stream, p.turns[t].phase) && Live(p, p.turns[t]) ==> Shows(q.stream, q.turns[t].phase)
  {
    assert Settles(p, p.turns[t], q.turns[t]);
  }

  lemma CalmExclusive(p: Page, q: Page)
    requires Exclusive(p) && Calm(p, q)
    ensures Exclusive(q)
  {
    forall t | 0 <= t < |p.turns|
      ensures Live(q, q.turns[t]) <==> Live(p, p.turns[t])
      ensures Open(q.turns[t]) ==> Open(p.turns[t])
    {
      SettlesLive(p, q, t);
    }
    hide Live, Open, Settles;
  }

  lemma CalmHonest(p: Page, q: Page)
    requires Honest(p) && Calm(p, q)
    ensures Honest(q)
  {
    forall t | 0 <= t < |p.turns|
      ensures Live(q, q.turns[t]) <==> Live(p, p.turns[t])
      ensures Shows(p.stream, p.turns[t].phase) && Live(p, p.turns[t]) ==> Shows(q.stream, q.turns[t].phase)
    {
      SettlesLive(p, q, t);
    }
    hide Live, Shows, Settles;
    if SomeLive(p) {
      var t :| 0 <= t < |p.turns| && Live(p, p.turns[t]);
      assert Live(q, q.turns[t]);
    }
  }

  lemma CalmHome(p: Page, q: Page)
    requires Home(p) && Calm(p, q) && forall row :: row in q.rows ==> row.session == p.session
    ensures Home(q)
  {
    forall t | 0 <= t < |p.turns|
      ensures q.turns[t].token == p.turns[t].token && (Open(q.turns[t]) ==> Open(p.turns[t]))
    {
      SettlesLive(p, q, t);
      assert Settles(p, p.turns[t], q.turns[t]);
    }
    hide Open, Settles;
  }

  lemma SameRowsKept(p: Page, q: Page)
    requires Bounded(p) && Conserved(p) && Gone(p) && Calm(p, q) && SameRows(p, q)
    ensures Bounded(q) && Conserved(q) && Gone(q)
  {
    forall t | 0 <= t < |p.turns|
      ensures q.turns[t].token == p.turns[t].token && q.turns[t].asst == p.turns[t].asst
      ensures TurnConserved(q, q.turns[t])
    {
      SettlesLive(p, q, t);
      assert Settles(p, p.turns[t], q.turns[t]) && TurnConserved(p, p.turns[t]);
    }
    hide TurnConserved, Settles, NoRow;
  }

  /** A step that leaves rows, status and current turns alone. */
  lemma CalmInv(p: Page, q: Page)
    requires Inv(p) && Calm(p, q) && SameRows(p, q) && q.effectDue == p.effectDue && Linked(q)
    ensures Kept(p, q)
  {
    hide Bounded, Linked, Exclusive, Conserved, Gone, Calm, Honest;
    CalmExclusive(p, q);
    SameRowsKept(p, q);
    if Honest(p) {
      CalmHonest(p, q);
    }
    if !p.effectDue {
      CalmHome(p, q);
    }
    hide Home;
  }

  // ----- links -----

  /** Links stay when a load that no turn awaits is added. */
  lemma LinkedMore(p: Page, q: Page, token: Token)
    requires Linked(p) && q.turns == p.turns && q.loads == p.loads + [Load(token, None, false)]
    ensures Linked(q)
  {
  }

  /** Links stay when a turn that awaits no load moves on. */
  lemma LinkedAt(p: Page, q: Page, t: nat, phase: Phase)
    requires Linked(p) && q.loads == p.loads && t < |p.turns|
    requires q.turns == p.turns[t := p.turns[t].(phase := phase)]
    requires p.turns[t].phase != Reloading && phase != Awaiting
    ensures Linked(q)
  {
  }

  /** Links stay when turns keep their phases. */
  lemma LinkedSame(p: Page, q: Page)
    requires Linked(p) && q.loads == p.loads && |q.turns| >= |p.turns|
    requires forall t :: 0 <= t < |p.turns| ==> q.turns[t].phase == p.turns[t].phase
    ensures Linked(q)
  {
  }

  lemma LinkedWake(p: Page, i: nat)
    requires Linked(p) && i < |p.loads| && !p.loads[i].settled
    ensures Linked(Woken(p, i))
  {
    var q := Woken(p, i);
    forall j | 0 <= j < |q.loads| && q.loads[j].turn.Some?
      ensures q.loads[j].turn.value < |q.turns| && q.turns[q.loads[j].turn.value].phase != Awaiting
      ensures !q.loads[j].settled ==> q.turns[q.loads[j].turn.value].phase == Reloading
    {
      assert q.loads[j].turn == p.loads[j].turn;
      assert i < j ==> p.loads[i].turn != p.loads[j].turn;
      assert j < i ==> p.loads[j].turn != p.loads[i].turn;
    }
  }

  /** A current turn that begins the load it then awaits. */
  lemma LinkedReload(p: Page, q: Page, t: nat, token: Token)
    requires Linked(p) && t < |p.turns| && p.turns[t].phase == Awaiting
    requires q.turns == p.turns[t := p.turns[t].(phase := Reloading)]
    requires q.loads == p.loads + [Load(token, Some(t), false)]
    ensures Linked(q)
  {
  }

  // ----- the calm steps -----

  lemma AbortShape(turns: seq<Turn>, ref: Option<nat>)
    ensures |Abort(turns, ref)| == |turns|
    ensures forall t :: 0 <= t < |turns| ==>
              Abort(turns, ref)[t] == if ref == Some(t) then turns[t].(aborted := true) else turns[t]
  {
  }

  lemma BeginLoadInv(p: Page, session: string)
    requires Inv(p)
    ensures Kept(p, p.(loads := p.loads + [Load(Token(session, p.gen), None, false)]))
  {
    var q := p.(loads := p.loads + [Load(Token(session, p.gen), None, false)]);
    hide Linked, Exclusive, Conserved, Gone, Home, Honest;
    LinkedMore(p, q, Token(session, p.gen));
    CalmInv(p, q);
  }

  lemma StopInv(p: Page)
    requires Inv(p)
    ensures Kept(p, p.(turns := Abort(p.turns, p.abortRef)))
  {
    hide Linked, Exclusive, Conserved, Gone, Home, Honest, Abort;
    var q := p.(turns := Abort(p.turns, p.abortRef));
    AbortShape(p.turns, p.abortRef);
    LinkedSame(p, q);
    CalmInv(p, q);
  }

  lemma ErrInv(p: Page, msg: string, loading: bool)
    requires Inv(p)
    ensures Kept(p, p.(err := msg, loading := loading))
  {
    hide Linked, Exclusive, Conserved, Gone, Home, Honest;
    var q := p.(err := msg, loading := loading);
    LinkedSame(p, q);
    CalmInv(p, q);
  }

  /** One turn moves on while another piece of code, or none of its visit, runs. */
  lemma AtInv(p: Page, t: nat, phase: Phase)
    requires Inv(p) && t < |p.turns| && Settles(p, p.turns[t], p.turns[t].(phase := phase))
    requires p.turns[t].phase != Reloading && phase != Awaiting
    ensures Kept(p, At(p, t, phase))
  {
    hide Linked, Exclusive, Conserved, Gone, Home, Honest;
    var q := At(p, t, phase);
    LinkedAt(p, q, t, phase);
    CalmInv(p, q);
  }

  lemma WakeInv(p: Page, i: nat)
    requires Inv(p) && i < |p.loads| && !p.loads[i].settled
    ensures Kept(p, Woken(p, i)) && Calm(p, Woken(p, i))
  {
    LinkedWake(p, i);
    var q := Woken(p, i);
    assert p.loads[i].turn.Some? ==> p.turns[p.loads[i].turn.value].phase == Reloading;
    hide Linked, Exclusive, Conserved, Gone, Home, Honest;
    CalmInv(p, q);
  }

  // ----- the steps of a current turn -----

  /** Only turn t changes: its phase, and perhaps what it was given. */
  predicate Moves(p: Page, q: Page, t: nat, phase: Phase) {
    && t < |p.turns| && Live(p, p.turns[t]) && |q.turns| == |p.turns|
    && q.turns == p.turns[t := p.turns[t].(phase := phase, delivered := q.turns[t].delivered)]
    && q.session == p.session && q.gen == p.gen && q.abortRef == p.abortRef && q.effectDue == p.effectDue
    && q.sending == (phase != Done) && (phase == Awaiting ==> p.turns[t].phase == Awaiting)
  }

  lemma MoveExclusive(p: Page, q: Page, t: nat, phase: Phase)
    requires Exclusive(p) && Moves(p, q, t, phase)
    ensures Exclusive(q)
  {
  }

  lemma MoveHonest(p: Page, q: Page, t: nat, phase: Phase)
    requires Exclusive(p) && Moves(p, q, t, phase) && Shows(q.stream, phase)
    ensures Honest(q)
  {
    hide Shows;
    assert phase != Done ==> Live(q, q.turns[t]);
  }

  /** Rows come from the page, or are new ones of its session. */
  ghost predicate RowsFrom(p: Page, q: Page) {
    && q.localSeq >= p.localSeq
    && forall row :: row in q.rows ==>
         row in p.rows || (row.id.Local? && p.localSeq < row.id.n <= q.localSeq && row.session == p.session)
  }

  lemma MoveRows(p: Page, q: Page, t: nat, phase: Phase)
    requires Bounded(p) && Gone(p) && Moves(p, q, t, phase) && RowsFrom(p, q)
    requires forall i :: 0 <= i < |q.loads| ==> q.loads[i].token.gen <= p.gen
    ensures Bounded(q) && Gone(q)
    ensures Home(p) ==> Home(q)
  {
    hide Live;
    forall u | 0 <= u < |q.turns| && q.turns[u].replaced
      ensures NoRow(q.rows, q.turns[u].asst)
    {
      assert NoRow(p.rows, p.turns[u].asst);
    }
  }

  /** Once its stream is no longer awaited, a turn has nothing more to conserve. */
  lemma MoveConserved(p: Page, q: Page, t: nat, phase: Phase)
    requires Exclusive(p) && Moves(p, q, t, phase) && phase != Awaiting
    ensures Conserved(q)
  {
    hide ShowsDeltas;
    assert forall u :: 0 <= u < |p.turns| && u != t ==> !Live(p, p.turns[u]) && q.turns[u] == p.turns[u];
  }

  lemma MoveInv(p: Page, q: Page, t: nat, phase: Phase)
    requires Inv(p) && Moves(p, q, t, phase) && phase != Awaiting && Shows(q.stream, phase)
    requires RowsFrom(p, q) && Linked(q)
    requires forall i :: 0 <= i < |q.loads| ==> q.loads[i].token.gen <= p.gen
    ensures Kept(p, q)
  {
    hide Bounded, Linked, Exclusive, Conserved, Gone, Home, Honest, Shows, RowsFrom;
    MoveExclusive(p, q, t, phase);
    MoveHonest(p, q, t, phase);
    MoveRows(p, q, t, phase);
    MoveConserved(p, q, t, phase);
    hide Moves;
  }

  lemma ReloadInv(p: Page, t: nat)
    requires Inv(p) && InPhase(p, t, Awaiting) && Current(p, p.turns[t].token)
    ensures Kept(p, At(p, t, Reloading).(stream := Idle, loads := p.loads + [Load(p.turns[t].token, Some(t), false)]))
  {
    var q := At(p, t, Reloading).(stream := Idle, loads := p.loads + [Load(p.turns[t].token, Some(t), false)]);
    assert Live(p, p.turns[t]) && p.sending;
    hide Linked, Exclusive, Conserved, Gone, Home, Honest;
    LinkedReload(p, q, t, p.turns[t].token);
    MoveInv(p, q, t, Reloading);
  }

  lemma FailInv(p: Page, t: nat, msg: string)
    requires Inv(p) && InPhase(p, t, Awaiting) && Current(p, p.turns[t].token)
    ensures Kept(p, Failing(p, t, msg))
  {
    var q := Failing(p, t, msg);
    assert Live(p, p.turns[t]) && p.sending;
    hide Linked, Exclusive, Conserved, Gone, Home, Honest, Drop;
    LinkedAt(p, q, t, Waiting(msg));
    MoveInv(p, q, t, Waiting(msg));
  }

  /** The current turn ends: sending stops, and the status is idle or error. */
  lemma EndInv(p: Page, t: nat, rows: seq<Row>, stream: Stream, err: string)
    requires Inv(p) && t < |p.turns| && Live(p, p.turns[t])
    requires p.turns[t].phase != Reloading && (stream == Idle || stream == Error)
    requires forall row :: row in rows ==> row in p.rows
    ensures Kept(p, At(p, t, Done).(rows := rows, stream := stream, err := err, sending := false))
  {
    hide Linked, Exclusive, Conserved, Gone, Home, Honest;
    var q := At(p, t, Done).(rows := rows, stream := stream, err := err, sending := false);
    LinkedAt(p, q, t, Done);
    MoveInv(p, q, t, Done);
  }

  lemma GrowthShows(rows: seq<Row>, asst: RowId, deltas: seq<string>, d: string, grown: seq<Row>)
    requires ShowsDeltas(rows, asst, deltas) && |grown| == |rows|
    requires forall k :: 0 <= k < |rows| ==>
               grown[k] == if rows[k].id == asst then rows[k].(content := rows[k].content + d) else rows[k]
    ensures ShowsDeltas(grown, asst, deltas + [d])
  {
    var k :| 0 <= k < |rows| && ShownAt(rows, k, asst, deltas);
    ConcatSnoc(deltas, d);
    assert ShownAt(grown, k, asst, deltas + [d]);
  }

  /** Growth changes no row but in its content. */
  lemma GrowthRows(p: Page, q: Page, t: nat, d: string)
    requires Bounded(p) && Gone(p) && t < |p.turns| && q == Grown(p, t, d)
    ensures Bounded(q) && Gone(q)
    ensures Home(p) ==> Home(q)
  {
    forall row | row in q.rows
      ensures exists r :: r in p.rows && r.id == row.id && r.session == row.session
    {
      var k :| 0 <= k < |q.rows| && q.rows[k] == row;
      assert p.rows[k] in p.rows;
    }
  }

  lemma DeltaConserved(p: Page, q: Page, t: nat, d: string)
    requires Exclusive(p) && Conserved(p) && t < |p.turns| && Live(p, p.turns[t]) && q == Grown(p, t, d)
    ensures Conserved(q)
  {
    assert TurnConserved(p, p.turns[t]);
    hide ShowsDeltas;
    if p.turns[t].phase == Awaiting && !p.turns[t].replaced {
      GrowthShows(p.rows, p.turns[t].asst, p.turns[t].delivered, d, q.rows);
    }
    forall u | 0 <= u < |q.turns|
      ensures TurnConserved(q, q.turns[u])
    {
      assert u != t ==> !Live(p, p.turns[u]) && q.turns[u] == p.turns[u];
    }
  }

  lemma DeltaInv(p: Page, t: nat, d: string)
    requires Inv(p) && InPhase(p, t, Awaiting) && Current(p, p.turns[t].token)
    ensures Kept(p, Grown(p, t, d))
  {
    var q := Grown(p, t, d);
    assert Live(p, p.turns[t]) && p.sending;
    hide Linked, Exclusive, Conserved, Gone, Home, Honest, Bounded;
    LinkedSame(p, q);
    MoveExclusive(p, q, t, Awaiting);
    MoveHonest(p, q, t, Awaiting);
    GrowthRows(p, q, t, d);
    DeltaConserved(p, q, t, d);
    hide Grown;
  }

  // ----- the steps that change rows or the visit -----

  lemma RenderInv(p: Page, session: string)
    requires Inv(p) && Enabled(p, Render(session))
    ensures Inv(Step(p, Render(session)))
  {
    var q := Step(p, Render(session));
    hide ShowsDeltas, Shows, NoRow, Linked, SomeLive;
    LinkedSame(p, q);
    if session == p.session {
      assert q == p;
    } else {
      assert forall t :: 0 <= t < |p.turns| ==> !Current(q, p.turns[t].token);
      hide Honest;
    }
  }

  /** In a new generation no turn is current. */
  lemma SwitchConjuncts(p: Page, q: Page)
    requires Bounded(p) && Exclusive(p) && q.gen == p.gen + 1 && q.rows == [] && q.localSeq == p.localSeq
    requires q.turns == Abort(p.turns, p.abortRef) && q.stream == Idle && !q.sending
    requires forall i :: 0 <= i < |q.loads| ==> q.loads[i].token.gen <= q.gen
    ensures Bounded(q) && Exclusive(q) && Conserved(q) && Gone(q) && Home(q) && Honest(q)
  {
    hide ShowsDeltas, Abort;
    AbortShape(p.turns, p.abortRef);
    assert forall t :: 0 <= t < |q.turns| ==> q.turns[t].token == p.turns[t].token && !Current(q, q.turns[t].token);
    assert forall t :: 0 <= t < |q.turns| ==> !Open(q.turns[t]);
    hide Current, Open;
  }

  lemma SwitchInv(p: Page)
    requires Inv(p)
    ensures Kept(p, Switched(p))
  {
    var q := Switched(p);
    hide Linked, Exclusive, Conserved, Gone, Home, Honest, Abort;
    AbortShape(p.turns, p.abortRef);
    var aborted := p.(turns := Abort(p.turns, p.abortRef));
    LinkedSame(p, aborted);
    if p.session != "" {
      LinkedMore(aborted, q, Token(p.session, p.gen + 1));
    } else {
      assert p.loads + [] == p.loads;
      LinkedSame(aborted, q);
    }
    SwitchConjuncts(p, q);
  }

  lemma SendExclusive(p: Page, text: string)
    requires Exclusive(p) && !p.sending
    ensures Exclusive(Sent(p, text)) && Honest(Sent(p, text))
  {
    var q, n := Sent(p, text), |p.turns|;
    assert Live(q, q.turns[n]);
    assert forall t :: 0 <= t < n ==> q.turns[t] == p.turns[t] && !Live(p, p.turns[t]) && !Open(p.turns[t]);
    assert forall t :: 0 <= t < n ==> !Live(q, q.turns[t]);
    hide Live, Open;
  }

  lemma SendRows(p: Page, text: string)
    requires Bounded(p) && Gone(p) && Exclusive(p) && !p.sending
    ensures Bounded(Sent(p, text)) && Gone(Sent(p, text)) && Conserved(Sent(p, text))
    ensures Home(p) ==> Home(Sent(p, text))
  {
    var q, n := Sent(p, text), |p.turns|;
    assert ShownAt(q.rows, |p.rows| + 1, q.turns[n].asst, q.turns[n].delivered);
    assert forall t :: 0 <= t < n ==> q.turns[t] == p.turns[t] && !Live(p, p.turns[t]);
    hide ShownAt;
    forall t | 0 <= t < |q.turns| && q.turns[t].replaced
      ensures NoRow(q.rows, q.turns[t].asst)
    {
      assert NoRow(p.rows, p.turns[t].asst);
    }
  }

  lemma SendInv(p: Page, text: string)
    requires Inv(p) && !p.sending
    ensures Kept(p, Sent(p, text))
  {
    hide Linked, Exclusive, Conserved, Gone, Home, Honest, Bounded;
    LinkedSame(p, Sent(p, text));
    SendExclusive(p, text);
    SendRows(p, text);
    hide Sent;
  }

  lemma MarkShape(p: Page, token: Token, rows: seq<Row>)
    ensures Calm(p, Committed(p, token, rows))
    ensures forall t :: 0 <= t < |p.turns| ==>
              Committed(p, token, rows).turns[t]
              == if p.turns[t].token == token then p.turns[t].(replaced := true) else p.turns[t]
  {
  }

  lemma CommitRows(p: Page, q: Page, token: Token)
    requires Bounded(p) && Current(p, token) && q == Committed(p, token, q.rows)
    requires forall row :: row in q.rows ==> row.session == token.session && row.id.Gateway?
    ensures Bounded(q) && Gone(q) && Conserved(q)
  {
    MarkShape(p, token, q.rows);
    hide ShowsDeltas, MarkReplaced, Calm;
    assert forall t :: 0 <= t < |q.turns| && Current(q, q.turns[t].token) ==> q.turns[t].token == token;
  }

  lemma CommitInv(p: Page, token: Token, rows: seq<Row>)
    requires Inv(p) && Current(p, token)
    requires forall row :: row in rows ==> row.session == token.session && row.id.Gateway?
    ensures Kept(p, Committed(p, token, rows))
  {
    hide Linked, Exclusive, Conserved, Gone, Home, Honest, Calm;
    var q := Committed(p, token, rows);
    MarkShape(p, token, rows);
    LinkedSame(p, q);
    CalmExclusive(p, q);
    CommitRows(p, q, token);
    if Honest(p) {
      CalmHonest(p, q);
    }
    if !p.effectDue {
      CalmHome(p, q);
    }
    hide Bounded, Committed;
  }

  // ----- every step, every run -----

  lemma SettleInv(p: Page, i: nat, reply: Reply)
    requires Inv(p) && Enabled(p, SettleLoad(i, reply))
    ensures Kept(p, Settled(p, i, reply))
  {
    hide Inv, Honest, Woken, Committed;
    WakeInv(p, i);
    var token := p.loads[i].token;
    if Current(p, token) {
      match reply
      case Rows(rows) => CommitInv(Woken(p, i), token, rows);
      case Rejected(msg) => ErrInv(Woken(p, i), msg, false);
    }
  }

  /** A turn of an earlier visit that wakes up just ends. */
  lemma StaleInv(p: Page, t: nat)
    requires Inv(p) && t < |p.turns| && !Current(p, p.turns[t].token) && p.turns[t].phase != Reloading
    ensures Kept(p, Finished(p, t))
  {
    hide Inv, Honest;
    AtInv(p, t, Done);
  }

  /** The steps that end a turn in any case. */
  lemma LastStepInv(p: Page, e: Event, t: nat)
    requires Inv(p) && Enabled(p, e) && (e == StreamAborted(t) || e == ProbeDone(t) || e == Resume(t))
    ensures Kept(p, Step(p, e))
  {
    hide Inv, Honest, DropEmpty;
    if !Current(p, p.turns[t].token) {
      StaleInv(p, t);
    } else {
      match e
      case StreamAborted(_) => EndInv(p, t, DropEmpty(p.rows, p.turns[t].asst), Idle, "");
      case ProbeDone(_) => EndInv(p, t, p.rows, Error, p.turns[t].phase.msg);
      case Resume(_) => EndInv(p, t, p.rows, Finished(p, t).stream, p.err);
    }
  }

  lemma StepInv(p: Page, e: Event)
    requires Inv(p) && Enabled(p, e)
    ensures Inv(Step(p, e))
    ensures !e.Render? && Honest(p) ==> Honest(Step(p, e))
  {
    hide Inv, Honest, Grown, Failing, Sent, Switched, Settled, Abort, DropEmpty;
    match e
    case Render(sid) => RenderInv(p, sid);
    case SwitchEffect => SwitchInv(p);
    case BeginLoad(sid) => BeginLoadInv(p, sid);
    case SettleLoad(i, reply) => SettleInv(p, i, reply);
    case Send(text, saving) =>
      if !(text == "" || p.sending || saving || p.session == "") { SendInv(p, text); }
    case Delta(t, d) =>
      if Current(p, p.turns[t].token) { DeltaInv(p, t, d); }
    case StreamDone(t) =>
      if Current(p, p.turns[t].token) { ReloadInv(p, t); } else { StaleInv(p, t); }
    case StreamFailed(t, msg) =>
      if Current(p, p.turns[t].token) { FailInv(p, t, msg); } else { StaleInv(p, t); }
    case TimerFired(t) =>
      if Current(p, p.turns[t].token) { AtInv(p, t, Probing(p.turns[t].phase.msg)); } else { StaleInv(p, t); }
    case StreamAborted(t) => LastStepInv(p, e, t);
    case ProbeDone(t) => LastStepInv(p, e, t);
    case Resume(t) => LastStepInv(p, e, t);
    case Stop => StopInv(p);
    case SaveEnds(_, failure) => ErrInv(p, SaveResult(failure), p.loading);
  }
}
