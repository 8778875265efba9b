/** The live tail of events-ops.ts: a bounded list of distinct events, newest first. */
module LiveTail {
  import opened Basics

  const LIVE_CAP := 200

  /** A gateway event; a JavaScript number `seq` is modelled by an integer. */
  datatype GatewayEvent = GatewayEvent(
    seq_: Option<int>, trace_id: string, type_: Option<string>, kind: string, action: Option<string>,
    actor: Option<string>, agent_id: Option<string>, team_id: Option<string>, entity: Option<string>,
    connector: Option<string>, tool: Option<string>, ts: string, summary: string)

  /** publicSummary and publicHasSecrets of events-ops.ts, which decide by patterns. */
  datatype Sanitiser = Sanitiser(summary: string -> string, hasSecrets: GatewayEvent -> bool)

  /** raw.x ? String(raw.x) : undefined */
  function NonEmpty(s: Option<string>): Option<string> {
    if s == Some("") then None else s
  }

  function AsPublicEvent(san: Sanitiser, raw: GatewayEvent): Option<GatewayEvent> {
    var summary := san.summary(raw.summary);
    if san.hasSecrets(raw.(summary := summary)) then None
    else Some(GatewayEvent(
                raw.seq_, raw.trace_id, Some(if NonEmpty(raw.type_).Some? then raw.type_.value else "connector"),
                raw.kind, NonEmpty(raw.action), NonEmpty(raw.actor), NonEmpty(raw.agent_id), NonEmpty(raw.team_id),
                NonEmpty(raw.entity), NonEmpty(raw.connector), NonEmpty(raw.tool), raw.ts, summary))
  }

  // ----- keys -----

  function Digits(n: nat): string {
    var last := [('0' as int + n % 10) as char];
    if n < 10 then last else Digits(n / 10) + last
  }

  /** eventKey with its default fallback 0. */
  function EventKey(e: GatewayEvent): string {
    if e.seq_.Some? && e.seq_.value > 0 then "seq:" + Digits(e.seq_.value)
    else e.trace_id + ":" + e.kind + ":" + e.ts + ":" + "0"
  }

  lemma {:induction false} DigitsFaithful(m: nat, n: nat)
    requires Digits(m) == Digits(n)
    ensures m == n
  {
    var a, b := Digits(m), Digits(n);
    assert a[|a| - 1] == ('0' as int + m % 10) as char;
    assert b[|b| - 1] == ('0' as int + n % 10) as char;
    if m >= 10 || n >= 10 {
      assert |Digits(m / 10)| > 0 && |Digits(n / 10)| > 0;
      assert m >= 10 && n >= 10;
      assert Digits(m / 10) == a[..|a| - 1] && Digits(n / 10) == b[..|b| - 1];
      DigitsFaithful(m / 10, n / 10);
    }
  }

  lemma {:induction false} DigitsOnly(n: nat)
    ensures ':' !in Digits(n)
  {
    if n >= 10 {
      DigitsOnly(n / 10);
    }
  }

  lemma OneColon(n: nat)
    ensures forall i :: 0 <= i < |"seq:" + Digits(n)| && ("seq:" + Digits(n))[i] == ':' ==> i == 3
  {
    DigitsOnly(n);
  }

  predicate Unnumbered(e: GatewayEvent) {
    e.seq_.None? || e.seq_.value <= 0
  }

  lemma TwoColons(e: GatewayEvent) returns (i: nat, j: nat)
    requires Unnumbered(e)
    ensures i < j < |EventKey(e)| && EventKey(e)[i] == EventKey(e)[j] == ':'
  {
    i, j := |e.trace_id|, |EventKey(e)| - 2;
  }

  /** A numbered event shares its key exactly with the events of the same number. */
  lemma KeyOfNumbered(a: GatewayEvent, b: GatewayEvent)
    requires a.seq_.Some? && a.seq_.value > 0
    ensures EventKey(a) == EventKey(b) <==> b.seq_ == a.seq_
  {
    var n := a.seq_.value;
    var k := "seq:" + Digits(n);
    assert EventKey(a) == k;
    if EventKey(a) == EventKey(b) {
      if b.seq_.Some? && b.seq_.value > 0 {
        assert Digits(n) == EventKey(a)[4..] == EventKey(b)[4..] == Digits(b.seq_.value);
        DigitsFaithful(n, b.seq_.value);
      } else {
        var i, j := TwoColons(b);
        OneColon(n);
      }
    }
  }

  lemma FirstColon(x: string, a: string)
    requires ':' !in x
    ensures var s := x + ":" + a;
            s[|x|] == ':' && (forall k :: 0 <= k < |x| ==> s[k] != ':') && s[..|x|] == x && s[|x| + 1..] == a
  {
    var s := x + ":" + a;
    assert forall k :: 0 <= k < |x| ==> s[k] == x[k];
  }

  lemma CutAtColon(x: string, a: string, y: string, b: string)
    requires ':' !in x && ':' !in y && x + ":" + a == y + ":" + b
    ensures x == y && a == b
  {
    FirstColon(x, a);
    FirstColon(y, b);
  }

  /** Unnumbered events of one trace, kind and time share their key, and no others do unless a
      trace id or a kind holds a colon. */
  lemma KeyOfUnnumbered(a: GatewayEvent, b: GatewayEvent)
    requires Unnumbered(a) && Unnumbered(b)
    ensures a.trace_id == b.trace_id && a.kind == b.kind && a.ts == b.ts ==> EventKey(a) == EventKey(b)
    ensures ':' !in a.trace_id + a.kind && ':' !in b.trace_id + b.kind && EventKey(a) == EventKey(b) ==>
              a.trace_id == b.trace_id && a.kind == b.kind && a.ts == b.ts
  {
    if ':' !in a.trace_id + a.kind && ':' !in b.trace_id + b.kind && EventKey(a) == EventKey(b) {
      assert forall c :: c in a.trace_id || c in a.kind ==> c in a.trace_id + a.kind;
      assert forall c :: c in b.trace_id || c in b.kind ==> c in b.trace_id + b.kind;
      var endA, endB := a.ts + ":" + "0", b.ts + ":" + "0";
      assert EventKey(a) == a.trace_id + ":" + (a.kind + ":" + endA);
      assert EventKey(b) == b.trace_id + ":" + (b.kind + ":" + endB);
      CutAtColon(a.trace_id, a.kind + ":" + endA, b.trace_id, b.kind + ":" + endB);
      CutAtColon(a.kind, endA, b.kind, endB);
      assert endA[..|a.ts|] == a.ts && endB[..|b.ts|] == b.ts;
    }
  }

  /** With a colon two events may share a key that have nothing in common. */
  lemma ColonExample(e: GatewayEvent)
    ensures var a := e.(seq_ := None, trace_id := "a:b", kind := "c");
            var b := e.(seq_ := None, trace_id := "a", kind := "b:c");
            EventKey(a) == EventKey(b)
  {
    assert "a:b" + ":" + "c" == "a" + ":" + "b:c";
  }

  /** What is published of a field: the field, unless it is empty. */
  predicate Kept(from: Option<string>, to: Option<string>) {
    if from.Some? && from.value != "" then to == from else to == None
  }

  /** An event is published exactly if its row with the public summary shows no secret; it then
      keeps its number, its texts and its fields. */
  lemma PublishedKeeps(san: Sanitiser, raw: GatewayEvent)
    ensures AsPublicEvent(san, raw).None? <==> san.hasSecrets(raw.(summary := san.summary(raw.summary)))
    ensures AsPublicEvent(san, raw).Some? ==>
              var e := AsPublicEvent(san, raw).value;
              && e.seq_ == raw.seq_ && e.trace_id == raw.trace_id && e.kind == raw.kind && e.ts == raw.ts
              && e.summary == san.summary(raw.summary)
              && (Kept(raw.type_, e.type_) || (Kept(raw.type_, None) && e.type_ == Some("connector")))
              && Kept(raw.action, e.action) && Kept(raw.actor, e.actor) && Kept(raw.agent_id, e.agent_id)
              && Kept(raw.team_id, e.team_id) && Kept(raw.entity, e.entity) && Kept(raw.connector, e.connector)
              && Kept(raw.tool, e.tool)
  {
  }

  /** The stream publishes an event, and merging publishes it again: that changes nothing exactly
      when the summary is stable and dropping empty fields shows no secret. */
  lemma PublishedTwice(san: Sanitiser, raw: GatewayEvent)
    requires AsPublicEvent(san, raw).Some?
    ensures var e := AsPublicEvent(san, raw).value;
            && EventKey(e) == EventKey(raw) && e.seq_ == raw.seq_
            && (AsPublicEvent(san, e) == Some(e) <==> san.summary(e.summary) == e.summary && !san.hasSecrets(e))
  {
    var e := AsPublicEvent(san, raw).value;
    assert e.(summary := e.summary) == e;
    assert NonEmpty(e.type_) == e.type_ && NonEmpty(e.action) == e.action && NonEmpty(e.actor) == e.actor;
  }

  // ----- merging -----

  function Without(rows: seq<GatewayEvent>, key: string): (r: seq<GatewayEvent>)
    ensures |r| <= |rows|
  {
    if rows == [] then []
    else if EventKey(rows[0]) == key then Without(rows[1..], key)
    else [rows[0]] + Without(rows[1..], key)
  }

  function MergeLive(san: Sanitiser, existing: seq<GatewayEvent>, incoming: GatewayEvent, cap: nat): seq<GatewayEvent> {
    match AsPublicEvent(san, incoming)
    case None => existing
    case Some(next) => Take([next] + Without(existing, EventKey(next)), cap)
  }

  /** The list after a stream of events, oldest first, with the list cut at every step. */
  function Tail(san: Sanitiser, events: seq<GatewayEvent>, cap: nat): seq<GatewayEvent> {
    if events == [] then []
    else MergeLive(san, Tail(san, events[..|events| - 1], cap), events[|events| - 1], cap)
  }

  // ----- the unbounded list -----

  /** The publishable events, in order. */
  function Published(san: Sanitiser, events: seq<GatewayEvent>): seq<GatewayEvent> {
    if events == [] then []
    else
      var rest := Published(san, events[..|events| - 1]);
      match AsPublicEvent(san, events[|events| - 1]) case None => rest case Some(e) => rest + [e]
  }

  /** Of each key the last event, the latest first. */
  function Latest(events: seq<GatewayEvent>): seq<GatewayEvent> {
    if events == [] then []
    else
      var e := events[|events| - 1];
      [e] + Without(Latest(events[..|events| - 1]), EventKey(e))
  }

  ghost predicate DistinctKeys(rows: seq<GatewayEvent>) {
    forall i, j :: 0 <= i < j < |rows| ==> EventKey(rows[i]) != EventKey(rows[j])
  }

  lemma WithoutCons(e: GatewayEvent, rest: seq<GatewayEvent>, key: string)
    ensures Without([e] + rest, key) == if EventKey(e) == key then Without(rest, key) else [e] + Without(rest, key)
    ensures Without([], key) == []
  {
    assert ([e] + rest)[1..] == rest;
  }

  lemma DistinctCons(e: GatewayEvent, rest: seq<GatewayEvent>)
    ensures DistinctKeys([e] + rest) <==>
              DistinctKeys(rest) && forall x :: x in rest ==> EventKey(x) != EventKey(e)
  {
    hide EventKey;
    var rows := [e] + rest;
    assert forall i :: 0 <= i < |rest| ==> rest[i] == rows[i + 1];
    if DistinctKeys(rows) {
      forall x | x in rest
        ensures EventKey(x) != EventKey(e)
      {
        var i :| 0 <= i < |rest| && rest[i] == x;
        assert EventKey(rows[0]) != EventKey(rows[i + 1]);
      }
    }
  }

  lemma {:induction false} WithoutShape(rows: seq<GatewayEvent>, key: string)
    ensures forall e :: e in Without(rows, key) <==> e in rows && EventKey(e) != key
    ensures DistinctKeys(rows) ==> DistinctKeys(Without(rows, key))
  {
    hide Without, EventKey, DistinctKeys;
    if rows == [] {
      WithoutNone(key);
    } else {
      var e, rest := rows[0], rows[1..];
      assert rows == [e] + rest;
      WithoutCons(e, rest, key);
      WithoutShape(rest, key);
      DistinctCons(e, rest);
      DistinctCons(e, Without(rest, key));
    }
  }

  lemma WithoutNone(key: string)
    ensures Without([], key) == []
  {
  }

  /** An absent key takes nothing out. */
  lemma {:induction false} WithoutAbsent(rows: seq<GatewayEvent>, key: string)
    requires forall e :: e in rows ==> EventKey(e) != key
    ensures Without(rows, key) == rows
  {
    hide Without, EventKey;
    if rows == [] {
      WithoutNone(key);
    } else {
      var e, rest := rows[0], rows[1..];
      assert rows == [e] + rest;
      WithoutCons(e, rest, key);
      WithoutAbsent(rest, key);
    }
  }

  lemma TakeCons<T>(e: T, rest: seq<T>, n: nat)
    requires n > 0
    ensures Take([e] + rest, n) == [e] + Take(rest, n - 1)
  {
  }

  lemma TakeShape<T>(s: seq<T>, n: nat)
    ensures |s| <= n ==> Take(s, n) == s
    ensures Take(s, 0) == []
    ensures Take(Take(s, n), n) == Take(s, n)
    ensures forall x :: x in Take(s, n) ==> x in s
  {
  }

  /** Cutting after n + 1 rows before a removal loses nothing of the first n rows after it:
      distinct keys let at most one row go. */
  lemma {:induction false} TakeWithout(rows: seq<GatewayEvent>, key: string, n: nat)
    requires DistinctKeys(rows)
    ensures Take(Without(Take(rows, n + 1), key), n) == Take(Without(rows, key), n)
  {
    hide Without, EventKey, DistinctKeys, Take;
    if n == 0 {
      TakeShape(Without(Take(rows, n + 1), key), n);
      TakeShape(Without(rows, key), n);
    } else if |rows| <= n + 1 {
      TakeShape(rows, n + 1);
    } else {
      var e, rest := rows[0], rows[1..];
      assert rows == [e] + rest;
      TakeShape(rest, n);
      TakeCons(e, rest, n + 1);
      DistinctCons(e, rest);
      WithoutCons(e, rest, key);
      WithoutCons(e, Take(rest, n), key);
      if EventKey(e) == key {
        WithoutAbsent(rest, key);
        WithoutAbsent(Take(rest, n), key);
      } else {
        TakeWithout(rest, key, n - 1);
        TakeCons(e, Without(Take(rest, n), key), n);
        TakeCons(e, Without(rest, key), n);
      }
    }
  }

  lemma LatestNone()
    ensures Latest([]) == []
  {
  }

  lemma LatestSnoc(events: seq<GatewayEvent>, e: GatewayEvent)
    ensures Latest(events + [e]) == [e] + Without(Latest(events), EventKey(e))
  {
    assert (events + [e])[..|events|] == events;
  }

  /** Each event is represented by one of its key. */
  ghost predicate Represented(e: GatewayEvent, rows: seq<GatewayEvent>) {
    exists l :: l in rows && EventKey(l) == EventKey(e)
  }

  lemma {:induction false} LatestDistinct(events: seq<GatewayEvent>)
    ensures DistinctKeys(Latest(events))
  {
    if events == [] {
    } else {
      var e, rest := events[|events| - 1], events[..|events| - 1];
      assert rest + [e] == events;
      hide EventKey, Without, Latest, DistinctKeys;
      LatestDistinct(rest);
      LatestSnoc(rest, e);
      WithoutShape(Latest(rest), EventKey(e));
      DistinctCons(e, Without(Latest(rest), EventKey(e)));
    }
  }

  lemma RepresentedAfter(events: seq<GatewayEvent>, rows: seq<GatewayEvent>, e: GatewayEvent, w: seq<GatewayEvent>)
    requires forall x :: x in events ==> Represented(x, rows)
    requires forall x :: x in w <==> x in rows && EventKey(x) != EventKey(e)
    ensures forall x :: x in events + [e] ==> Represented(x, [e] + w)
  {
    hide EventKey;
    forall x | x in events + [e]
      ensures Represented(x, [e] + w)
    {
      if EventKey(x) == EventKey(e) {
        assert e in [e] + w;
      } else {
        var l :| l in rows && EventKey(l) == EventKey(x);
        assert l in [e] + w;
      }
    }
  }

  lemma MembersAfter(events: seq<GatewayEvent>, rows: seq<GatewayEvent>, e: GatewayEvent, w: seq<GatewayEvent>)
    requires forall x :: x in rows ==> x in events
    requires forall x :: x in w ==> x in rows
    ensures forall x :: x in [e] + w ==> x in events + [e]
  {
  }

  lemma {:induction false} LatestMembers(events: seq<GatewayEvent>)
    ensures forall e :: e in Latest(events) ==> e in events
    ensures forall e :: e in events ==> Represented(e, Latest(events))
    ensures events != [] ==> Latest(events) != [] && Latest(events)[0] == events[|events| - 1]
  {
    LatestNone();
    hide EventKey, Without, Represented, Latest;
    if events == [] {
    } else {
      var e, rest := events[|events| - 1], events[..|events| - 1];
      LatestMembers(rest);
      LatestSnoc(rest, e);
      assert rest + [e] == events;
      var w := Without(Latest(rest), EventKey(e));
      WithoutShape(Latest(rest), EventKey(e));
      RepresentedAfter(rest, Latest(rest), e, w);
      MembersAfter(rest, Latest(rest), e, w);
    }
  }

  lemma MergeStep(all: seq<GatewayEvent>, next: GatewayEvent, cap: nat)
    requires DistinctKeys(all)
    ensures Take([next] + Without(Take(all, cap), EventKey(next)), cap)
         == Take([next] + Without(all, EventKey(next)), cap)
  {
    hide Without, EventKey, DistinctKeys, Take;
    var key := EventKey(next);
    if cap == 0 {
      TakeShape([next] + Without(Take(all, cap), key), cap);
      TakeShape([next] + Without(all, key), cap);
    } else {
      TakeWithout(all, key, cap - 1);
      TakeCons(next, Without(Take(all, cap), key), cap);
      TakeCons(next, Without(all, key), cap);
    }
  }

  /** Main result: the list cut at every step is the unbounded list cut once, at the end, and the
      unbounded list holds of each key the last published event, the latest first. */
  lemma {:induction false} CutOnceOrEveryTime(san: Sanitiser, events: seq<GatewayEvent>, cap: nat)
    ensures Tail(san, events, cap) == Take(Latest(Published(san, events)), cap)
  {
    if events == [] {
    } else {
      var rest, last := events[..|events| - 1], events[|events| - 1];
      var before := Published(san, rest);
      CutOnceOrEveryTime(san, rest, cap);
      assert Tail(san, events, cap) == MergeLive(san, Tail(san, rest, cap), last, cap);
      var next := AsPublicEvent(san, last);
      hide AsPublicEvent, Latest, EventKey, Without, Take;
      if next.Some? {
        assert Published(san, events) == before + [next.value];
        LatestSnoc(before, next.value);
        LatestDistinct(before);
        MergeStep(Latest(before), next.value, cap);
      }
    }
  }

  /** What the page shows after any stream of events. */
  lemma TailGuarantees(san: Sanitiser, events: seq<GatewayEvent>, cap: nat)
    ensures var tail, published := Tail(san, events, cap), Published(san, events);
            && |tail| <= cap && DistinctKeys(tail)
            && (forall e :: e in tail ==> e in published)
            && (cap > 0 && published != [] ==> tail != [] && tail[0] == published[|published| - 1])
            && (|Latest(published)| <= cap ==>
                  forall e :: e in published ==> Represented(e, tail))
  {
    CutOnceOrEveryTime(san, events, cap);
    LatestDistinct(Published(san, events));
    LatestMembers(Published(san, events));
  }
}
