/** Event summaries without payloads: dropPayload of events-ops.ts. */
module DropPayload {
  import opened Basics
  import opened Text
  import opened JsonTree
  import opened TokenShape

  predicate IsSecretKey(k: string) {
    || Includes(k, "token") || Includes(k, "password") || Includes(k, "secret") || Includes(k, "authorization")
    || Includes(k, "api_key") || Includes(k, "apikey") || Includes(k, "bearer") || Includes(k, "credential")
    || Includes(k, "hmac") || Includes(k, "private_key") || Includes(k, "bot_token") || Includes(k, "access_token")
  }

  predicate IsPayloadKey(k: string) {
    || Includes(k, "arguments") || Includes(k, "args") || Includes(k, "body") || Includes(k, "content")
    || Includes(k, "messages") || Includes(k, "prompt") || Includes(k, "result") || Includes(k, "tool_input")
    || Includes(k, "tool_result") || Includes(k, "text") || Includes(k, "input") || Includes(k, "output")
    || Includes(k, "message")
  }

  predicate HideKey(k: string) {
    var lk := Lower(k);
    IsSecretKey(lk) || IsPayloadKey(lk)
  }

  /** A key under which something is kept. */
  predicate KeptKey(k: string) {
    !HideKey(k) && k != PROTO
  }

  // ----- the result, as a function -----

  function Dropped(v: Json): Json
    decreases v, 1
  {
    match v
    case Str(s) => if HasEventToken(s) then Str(REDACTED) else v
    case Arr(items) => Arr(DroppedItems(items))
    case Obj(entries) => Obj(DroppedEntries(entries))
    case _ => v
  }

  function DroppedItems(items: seq<Json>): (r: seq<Json>)
    ensures |r| == |items| && forall i :: 0 <= i < |items| ==> r[i] == Dropped(items[i])
  {
    if items == [] then [] else DroppedItems(items[..|items| - 1]) + [Dropped(items[|items| - 1])]
  }

  function DroppedEntries(entries: seq<Entry>): seq<Entry> {
    if entries == [] then []
    else
      var rest, last := DroppedEntries(entries[..|entries| - 1]), entries[|entries| - 1];
      if KeptKey(last.key) then rest + [Entry(last.key, Dropped(last.value))] else rest
  }

  // ----- the code -----

  method DropPayload(v: Json) returns (r: Json)
    ensures r == Dropped(v)
    decreases v
  {
    hide DroppedEntries, KeptKey;
    match v
    case Arr(items) =>
      var out: seq<Json> := [];
      for i := 0 to |items|
        invariant out == DroppedItems(items)[..i]
      {
        var one := DropPayload(items[i]);
        out := out + [one];
      }
      r := Arr(out);
    case Obj(entries) =>
      var out: seq<Entry> := [];
      NoEntries(entries);
      for i := 0 to |entries|
        invariant out == DroppedEntries(entries[..i])
      {
        var k, child := entries[i].key, entries[i].value;
        DroppedStep(entries, i);
        if HideKey(k) {
          continue;
        }
        var value := DropPayload(child);
        if k != PROTO {
          out := out + [Entry(k, value)];
        }
      }
      assert entries[..|entries|] == entries;
      r := Obj(out);
    case Str(s) =>
      r := if HasEventToken(s) then Str(REDACTED) else v;
    case _ =>
      r := v;
  }

  lemma NoEntries(entries: seq<Entry>)
    ensures DroppedEntries(entries[..0]) == []
  {
  }

  lemma DroppedSnoc(entries: seq<Entry>, e: Entry)
    ensures DroppedEntries(entries + [e])
         == if KeptKey(e.key) then DroppedEntries(entries) + [Entry(e.key, Dropped(e.value))]
            else DroppedEntries(entries)
  {
    assert (entries + [e])[..|entries|] == entries;
  }

  lemma DroppedStep(entries: seq<Entry>, i: nat)
    requires i < |entries|
    ensures DroppedEntries(entries[..i + 1])
         == if !HideKey(entries[i].key) && entries[i].key != PROTO
            then DroppedEntries(entries[..i]) + [Entry(entries[i].key, Dropped(entries[i].value))]
            else DroppedEntries(entries[..i])
  {
    assert entries[..i + 1] == entries[..i] + [entries[i]];
    DroppedSnoc(entries[..i], entries[i]);
    hide DroppedEntries, HideKey;
  }

  // ----- what it means -----

  /** No hidden key and no credential, at any depth. */
  ghost predicate Clean(v: Json) {
    match v
    case Str(s) => !HasEventToken(s)
    case Arr(items) => forall i :: 0 <= i < |items| ==> Clean(items[i])
    case Obj(entries) =>
      && (forall i :: 0 <= i < |entries| ==> KeptKey(entries[i].key))
      && forall i :: 0 <= i < |entries| ==> Clean(entries[i].value)
    case _ => true
  }

  /** Entries are judged one by one, by their keys alone, and stay in order. */
  lemma {:induction false} EntryByEntry(a: seq<Entry>, e: Entry, b: seq<Entry>)
    ensures var here := if KeptKey(e.key) then [Entry(e.key, Dropped(e.value))] else [];
            DroppedEntries(a + [e] + b) == DroppedEntries(a) + here + DroppedEntries(b)
  {
    hide DroppedEntries, KeptKey, Dropped;
    DroppedSnoc(a, e);
    if b == [] {
      assert a + [e] + b == a + [e];
      NoEntries([]);
      assert [][..0] == b;
    } else {
      var init, last := b[..|b| - 1], b[|b| - 1];
      EntryByEntry(a, e, init);
      assert b == init + [last];
      Assoc(a + [e], init, [last]);
      DroppedSnoc(a + [e] + init, last);
      DroppedSnoc(init, last);
    }
  }

  /** The result is clean at every depth; what is clean already is not touched; so dropping
      twice is dropping once. */
  lemma {:induction false} DropsExactlyPayload(v: Json)
    ensures Clean(Dropped(v))
    ensures Dropped(v) == v <==> Clean(v)
    ensures Dropped(Dropped(v)) == Dropped(v)
    decreases v, 1
  {
    DropCleans(v);
    if Clean(v) {
      CleanIsKept(v);
    }
    CleanIsKept(Dropped(v));
  }

  lemma {:induction false} DropCleans(v: Json)
    ensures Clean(Dropped(v))
    decreases v
  {
    hide HasEventToken, KeptKey;
    match v
    case Str(s) =>
      RedactedIsClean();
    case Arr(items) =>
      forall i | 0 <= i < |items|
        ensures Clean(Dropped(items[i]))
      {
        DropCleans(items[i]);
      }
    case Obj(entries) =>
      EntriesClean(entries);
    case _ =>
  }

  lemma {:induction false} EntriesClean(entries: seq<Entry>)
    ensures Clean(Obj(DroppedEntries(entries)))
    decreases entries
  {
    if entries == [] {
    } else {
      var init, last := entries[..|entries| - 1], entries[|entries| - 1];
      EntriesClean(init);
      DropCleans(last.value);
      assert entries == init + [last];
      DroppedSnoc(init, last);
      CleanSnoc(DroppedEntries(init), Entry(last.key, Dropped(last.value)));
      hide DroppedEntries, Dropped, Clean, KeptKey;
    }
  }

  lemma CleanSnoc(entries: seq<Entry>, e: Entry)
    ensures Clean(Obj(entries + [e])) <==> Clean(Obj(entries)) && KeptKey(e.key) && Clean(e.value)
  {
    hide KeptKey;
    var all := entries + [e];
    assert all[|entries|] == e && forall i :: 0 <= i < |entries| ==> all[i] == entries[i];
  }

  lemma {:induction false} CleanIsKept(v: Json)
    requires Clean(v)
    ensures Dropped(v) == v
    decreases v
  {
    hide HasEventToken, KeptKey;
    match v
    case Arr(items) =>
      forall i | 0 <= i < |items|
        ensures Dropped(items[i]) == items[i]
      {
        CleanIsKept(items[i]);
      }
      assert DroppedItems(items) == items;
    case Obj(entries) =>
      EntriesKept(entries);
    case _ =>
  }

  lemma {:induction false} EntriesKept(entries: seq<Entry>)
    requires Clean(Obj(entries))
    ensures DroppedEntries(entries) == entries
    decreases entries
  {
    if entries == [] {
    } else {
      var init, last := entries[..|entries| - 1], entries[|entries| - 1];
      assert entries == init + [last];
      CleanSnoc(init, last);
      EntriesKept(init);
      CleanIsKept(last.value);
      DroppedSnoc(init, last);
      hide DroppedEntries, Dropped, Clean, KeptKey;
    }
  }
}
