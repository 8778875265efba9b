/** Metadata of an activity record as the page may show it: publicMeta and publicValue of
    activity-ops.ts. */
module PublicMeta {
  import opened Basics
  import opened Text
  import opened JsonTree
  import opened TokenShape

  const META_CAP := 200
  const ENTRY_CAP := 16

  predicate IsSecretKey(k: string) {
    || Includes(k, "token") || Includes(k, "password") || Includes(k, "secret") || Includes(k, "authorization")
    || Includes(k, "api_key") || Includes(k, "apikey") || Includes(k, "bearer") || Includes(k, "credential")
    || Includes(k, "hmac") || Includes(k, "private_key") || Includes(k, "bot_token") || Includes(k, "access_token")
    || Includes(k, "hmac_key")
  }

  predicate IsPayloadKey(k: string) {
    || k == "arguments" || k == "args" || k == "body" || k == "content" || k == "messages" || k == "prompt"
    || k == "result" || k == "tool_input" || k == "tool_result" || k == "text" || k == "input" || k == "output"
    || k == "message"
  }

  predicate HideKey(k: string) {
    var lk := Lower(k);
    !EndsWith(lk, "_set") && (IsSecretKey(lk) || IsPayloadKey(lk))
  }

  predicate EndsWith(s: string, suffix: string) {
    |suffix| <= |s| && s[|s| - |suffix|..] == suffix
  }

  predicate VisibleKey(k: string) {
    k != "" && !HideKey(k)
  }

  /** s.replace(/\u0000/g, "") */
  function StripNul(s: string): (r: string)
    ensures '\0' !in r
  {
    if s == "" then ""
    else if s[0] == '\0' then StripNul(s[1..])
    else [s[0]] + StripNul(s[1..])
  }

  /** capText(s, META_CAP) */
  function CapText(s: string): string {
    var v := StripNul(s);
    if |v| <= META_CAP then v else v[..META_CAP] + [ELLIPSIS]
  }

  function PublicText(s: string): string {
    if HasToken(s) then REDACTED else CapText(s)
  }

  // ----- the result, as a function -----

  function PublicValue(v: Json): Json
    decreases v, 1
  {
    match v
    case Str(s) => Str(PublicText(s))
    case Arr(items) => Arr(Take(PublicItems(items), ENTRY_CAP))
    case Obj(entries) => PublicObject(entries)
    case _ => v
  }

  function PublicItems(items: seq<Json>): (r: seq<Json>)
    ensures |r| == |items|
    ensures forall i :: 0 <= i < |items| ==> r[i] == PublicValue(items[i])
  {
    if items == [] then [] else PublicItems(items[..|items| - 1]) + [PublicValue(items[|items| - 1])]
  }

  /** publicMeta of an object. */
  function PublicObject(entries: seq<Entry>): Json
    decreases entries, 1
  {
    var out := Own(Kept(PublicEntries(entries)));
    if out == [] then Undefined else Obj(out)
  }

  function PublicEntries(entries: seq<Entry>): (r: seq<Entry>)
    decreases entries, 0
    ensures |r| == |entries|
    ensures forall i :: 0 <= i < |entries| ==> r[i] == Entry(entries[i].key, PublicValue(entries[i].value))
  {
    if entries == [] then []
    else
      var last := entries[|entries| - 1];
      PublicEntries(entries[..|entries| - 1]) + [Entry(last.key, PublicValue(last.value))]
  }

  /** The first 16 entries with visible keys. */
  function Kept(entries: seq<Entry>): seq<Entry> {
    Take(Visible(entries), ENTRY_CAP)
  }

  function Visible(entries: seq<Entry>): seq<Entry> {
    Filter(entries, VisibleKey)
  }

  /** The assignments that make a property. */
  function Own(entries: seq<Entry>): seq<Entry> {
    Filter(entries, MakesProperty)
  }

  predicate MakesProperty(key: string) {
    key != PROTO
  }

  function Filter(entries: seq<Entry>, keep: string -> bool): seq<Entry> {
    if entries == [] then []
    else
      var rest, last := Filter(entries[..|entries| - 1], keep), entries[|entries| - 1];
      if keep(last.key) then rest + [last] else rest
  }

  // ----- the code -----

  method PublicValueOf(v: Json) returns (r: Json)
    ensures r == PublicValue(v)
    decreases v, 1
  {
    match v
    case Str(s) =>
      r := Str(if HasToken(s) then REDACTED else CapText(s));
    case Arr(items) =>
      var all: seq<Json> := [];
      for i := 0 to |items|
        invariant all == PublicItems(items)[..i]
      {
        var one := PublicValueOf(items[i]);
        all := all + [one];
      }
      r := Arr(Take(all, ENTRY_CAP));
    case Obj(entries) =>
      r := PublicMetaOf(entries);
    case _ =>
      r := v;
  }

  /** publicMeta */
  method PublicMetaOf(entries: seq<Entry>) returns (r: Json)
    ensures r == PublicObject(entries)
  {
    hide Scanned, PublicObject, VisibleKey, HideKey, PublicValue;
    var out: seq<Entry> := [];
    var n := 0;
    ghost var end := |entries|;
    ScanStart(entries);
    for i := 0 to |entries|
      invariant Scanned(entries, i, n, out) && end == |entries|
    {
      ScanStep(entries, i, n, out);
      if n >= ENTRY_CAP {
        end := i;
        break;
      }
      var k, v := entries[i].key, entries[i].value;
      if !VisibleKey(k) {
        continue;
      }
      var value := PublicValueOf(v);
      if MakesProperty(k) {
        out := out + [Entry(k, value)];
      }
      n := n + 1;
    }
    ScanEnd(entries, end, n, out);
    r := if out == [] then Undefined else Obj(out);
  }

  /** The state of the loop in front of entry i. */
  ghost predicate Scanned(entries: seq<Entry>, i: nat, n: nat, out: seq<Entry>) {
    && i <= |entries|
    && n == |Visible(PublicEntries(entries)[..i])| <= ENTRY_CAP
    && out == Own(Visible(PublicEntries(entries)[..i]))
  }

  lemma ScanStart(entries: seq<Entry>)
    ensures Scanned(entries, 0, 0, [])
  {
  }

  lemma ScanStep(entries: seq<Entry>, i: nat, n: nat, out: seq<Entry>)
    requires Scanned(entries, i, n, out) && i < |entries|
    ensures var k := entries[i].key;
            && (!VisibleKey(k) ==> Scanned(entries, i + 1, n, out))
            && (VisibleKey(k) && n < ENTRY_CAP ==>
                  Scanned(entries, i + 1, n + 1,
                          if MakesProperty(k) then out + [Entry(k, PublicValue(entries[i].value))] else out))
  {
    hide Filter, PublicEntries, VisibleKey, PublicValue, MakesProperty;
    var all := PublicEntries(entries);
    VisibleStep(all, i);
    FilterSnoc(Visible(all[..i]), all[i], MakesProperty);
  }

  lemma ScanEnd(entries: seq<Entry>, i: nat, n: nat, out: seq<Entry>)
    requires Scanned(entries, i, n, out) && (n >= ENTRY_CAP || i == |entries|)
    ensures PublicObject(entries) == if out == [] then Undefined else Obj(out)
  {
    ObjectShape(entries);
    KeptAt(PublicEntries(entries), i);
    hide Filter, Kept, PublicEntries, PublicObject, PublicValue;
  }

  lemma ObjectShape(entries: seq<Entry>)
    ensures var out := Own(Kept(PublicEntries(entries)));
            PublicObject(entries) == if out == [] then Undefined else Obj(out)
  {
  }

  /** Where the first 16 visible entries end. */
  lemma KeptAt(entries: seq<Entry>, i: nat)
    requires i <= |entries| && |Visible(entries[..i])| <= ENTRY_CAP
    ensures |Visible(entries[..i])| == ENTRY_CAP || i == |entries| ==> Kept(entries) == Visible(entries[..i])
  {
    VisibleGrows(entries, i);
    assert i == |entries| ==> entries[..i] == entries;
  }

  lemma FilterSnoc(entries: seq<Entry>, e: Entry, keep: string -> bool)
    ensures Filter(entries + [e], keep) == if keep(e.key) then Filter(entries, keep) + [e] else Filter(entries, keep)
  {
    assert (entries + [e])[..|entries|] == entries;
  }

  lemma VisibleStep(entries: seq<Entry>, i: nat)
    requires i < |entries|
    ensures Visible(entries[..i + 1])
         == if VisibleKey(entries[i].key) then Visible(entries[..i]) + [entries[i]] else Visible(entries[..i])
  {
    assert entries[..i + 1] == entries[..i] + [entries[i]];
    FilterSnoc(entries[..i], entries[i], VisibleKey);
  }

  lemma {:induction false} VisibleGrows(entries: seq<Entry>, i: nat)
    requires i <= |entries|
    ensures Visible(entries[..i]) <= Visible(entries)
    decreases |entries| - i
  {
    if i < |entries| {
      VisibleGrows(entries, i + 1);
      VisibleStep(entries, i);
    } else {
      assert entries[..i] == entries;
    }
  }

  // ----- texts -----

  /** A text that is shown as it is. */
  predicate PublicString(s: string) {
    '\0' !in s && !HasToken(s) && (|s| <= META_CAP || (|s| == META_CAP + 1 && s[META_CAP] == ELLIPSIS))
  }

  predicate NulFree(s: string) {
    '\0' !in s
  }

  lemma {:induction false} StripNulFixes(s: string)
    ensures StripNul(s) == s <==> NulFree(s)
  {
    if s == "" {
    } else {
      StripNulFixes(s[1..]);
      assert s == [s[0]] + s[1..];
    }
  }

  lemma TextFixed(s: string)
    ensures PublicText(s) == s <==> PublicString(s)
  {
    RedactedIsClean();
    StripNulFixes(s);
    hide HasToken, StripNul;
    var v := StripNul(s);
    if |v| > META_CAP {
      assert (v[..META_CAP] + [ELLIPSIS])[META_CAP] == ELLIPSIS;
      assert |s| == META_CAP + 1 && s[META_CAP] == ELLIPSIS ==> s == s[..META_CAP] + [ELLIPSIS];
    }
  }

  /** Its form without NULs shows a credential in the part that is kept, which the text itself
      does not show. */
  predicate TokenByStripping(s: string) {
    !HasToken(s) && HasToken(Take(StripNul(s), META_CAP))
  }

  /** What a text becomes stays as it is, unless stripping NULs makes a credential in front of the
      cut; without NULs that cannot be. */
  lemma TextStable(s: string)
    ensures PublicString(PublicText(s)) <==> !TokenByStripping(s)
    ensures NulFree(s) ==> !TokenByStripping(s)
  {
    RedactedIsClean();
    StripNulFixes(s);
    var v := StripNul(s);
    var front := Take(v, META_CAP);
    CutShowsNoToken(front, v);
    MarkAddsNoToken(front);
    hide HasToken;
  }

  lemma NulExample()
    ensures var s := "sk-1234\05678";
            PublicText(s) == "sk-12345678" && PublicText(PublicText(s)) == REDACTED
  {
    NulExampleStripped();
    NulExampleTokens();
    hide StripNul, HasToken;
  }

  lemma NulExampleTokens()
    ensures !HasToken("sk-1234\05678") && HasToken("sk-12345678")
  {
    var s, t := "sk-1234\05678", "sk-12345678";
    assert !IsWordChar(s[7]) && s[7] != '-' && IsWordChar(s[0]) && |s| == 12;
    forall i | 0 <= i < |s|
      ensures !TokenAt(s, i)
    {
      TokenLength(s, i);
      if i == 0 {
        RunBroken(s, 3, 8, KeyChar, 7);
      }
    }
    assert NameAt(t, "sk-", 0);
    assert Run(t, 3, 8, KeyChar);
    assert TokenAt(t, 0);
  }

  lemma RunBroken(s: string, i: nat, n: nat, class_: char -> bool, k: nat)
    requires i <= k < i + n && k < |s| && !class_(s[k])
    ensures !Run(s, i, n, class_)
  {
  }

  lemma TokenLength(s: string, i: nat)
    ensures SkAt(s, i) ==> i + 11 <= |s|
    ensures BearerAt(s, i) ==> i + 15 <= |s|
  {
  }

  lemma NulExampleStripped()
    ensures StripNul("sk-1234\05678") == "sk-12345678"
  {
    StripSplit("sk-1234", "5678");
    StripNulFixes("sk-1234");
    StripNulFixes("5678");
    hide StripNul;
    assert "sk-1234" + ['\0'] + "5678" == "sk-1234\05678";
    assert "sk-1234" + "5678" == "sk-12345678";
  }

  lemma StripCons(c: char, rest: string)
    ensures StripNul([c] + rest) == if c == '\0' then StripNul(rest) else [c] + StripNul(rest)
  {
    assert ([c] + rest)[1..] == rest;
  }

  lemma {:induction false} StripSplit(a: string, b: string)
    ensures StripNul(a + ['\0'] + b) == StripNul(a) + StripNul(b)
  {
    StripCons('\0', b);
    if a == "" {
      assert a + ['\0'] + b == ['\0'] + b;
    } else {
      hide StripNul;
      var rest := a[1..];
      StripSplit(rest, b);
      StripCons(a[0], rest);
      StripCons(a[0], rest + ['\0'] + b);
      assert a == [a[0]] + rest;
      Assoc([a[0]], rest, ['\0']);
      Assoc([a[0]], rest + ['\0'], b);
      Assoc([a[0]], StripNul(rest), StripNul(b));
    }
  }

  // ----- trees -----

  /** At every depth: texts that are fine, at most 16 items or entries, no hidden key. */
  ghost predicate Bounded(v: Json, fine: string -> bool) {
    match v
    case Str(s) => fine(s)
    case Arr(items) => |items| <= ENTRY_CAP && forall i :: 0 <= i < |items| ==> Bounded(items[i], fine)
    case Obj(entries) =>
      && 0 < |entries| <= ENTRY_CAP
      && (forall i :: 0 <= i < |entries| ==> Storable(entries[i].key))
      && forall i :: 0 <= i < |entries| ==> Bounded(entries[i].value, fine)
    case _ => true
  }

  predicate Storable(key: string) {
    VisibleKey(key) && key != PROTO
  }

  ghost predicate AllTexts(v: Json, ok: string -> bool) {
    match v
    case Str(s) => ok(s)
    case Arr(items) => forall i :: 0 <= i < |items| ==> AllTexts(items[i], ok)
    case Obj(entries) => forall i :: 0 <= i < |entries| ==> AllTexts(entries[i].value, ok)
    case _ => true
  }

  lemma {:induction false} FilterMeans(entries: seq<Entry>, keep: string -> bool)
    ensures |Filter(entries, keep)| <= |entries|
    ensures forall e :: e in Filter(entries, keep) ==> keep(e.key) && e in entries
    ensures |Filter(entries, keep)| == |entries| <==> forall i :: 0 <= i < |entries| ==> keep(entries[i].key)
    ensures |Filter(entries, keep)| == |entries| ==> Filter(entries, keep) == entries
  {
    hide Filter;
    if entries == [] {
      NothingKept(keep);
    } else {
      var init, last := entries[..|entries| - 1], entries[|entries| - 1];
      FilterMeans(init, keep);
      assert entries == init + [last];
      FilterSnoc(init, last, keep);
    }
  }

  /** Making values public and choosing keys do not interfere. */
  lemma {:induction false} FilterCommutes(entries: seq<Entry>, keep: string -> bool)
    ensures Filter(PublicEntries(entries), keep) == PublicEntries(Filter(entries, keep))
  {
    hide PublicEntries, Filter;
    if entries == [] {
      NothingKept(keep);
      return;
    }
    var init, last := entries[..|entries| - 1], entries[|entries| - 1];
    FilterCommutes(init, keep);
    FilterCommutesStep(init, last, keep);
    assert entries == init + [last];
  }

  lemma NothingKept(keep: string -> bool)
    ensures Filter([], keep) == [] && PublicEntries([]) == []
  {
  }

  lemma FilterCommutesStep(init: seq<Entry>, last: Entry, keep: string -> bool)
    requires Filter(PublicEntries(init), keep) == PublicEntries(Filter(init, keep))
    ensures Filter(PublicEntries(init + [last]), keep) == PublicEntries(Filter(init + [last], keep))
  {
    hide PublicValue, PublicEntries, Filter;
    PublicSnoc(init, last);
    PublicSnoc(Filter(init, keep), last);
    FilterSnoc(init, last, keep);
    FilterSnoc(PublicEntries(init), Entry(last.key, PublicValue(last.value)), keep);
  }

  lemma PublicSnoc(entries: seq<Entry>, e: Entry)
    ensures PublicEntries(entries + [e]) == PublicEntries(entries) + [Entry(e.key, PublicValue(e.value))]
  {
    assert (entries + [e])[..|entries|] == entries;
  }

  /** The properties of the result are those of the first 16 visible entries of the object, in
      order; all of them unless one has the key that makes no property. */
  lemma FirstVisibleAreKept(entries: seq<Entry>)
    ensures var kept := PublicEntries(Kept(entries));
            var out := if PublicObject(entries).Obj? then PublicObject(entries).entries else [];
            out == Own(kept) && (out == kept <==> forall i :: 0 <= i < |kept| ==> Kept(entries)[i].key != PROTO)
  {
    FilterCommutes(entries, VisibleKey);
    hide Filter, PublicValue;
    FilterMeans(Kept(PublicEntries(entries)), MakesProperty);
    assert Kept(PublicEntries(entries)) == PublicEntries(Kept(entries));
  }

  /** The bounds hold of every result, at every depth. */
  lemma {:induction false} ResultIsBounded(v: Json, fine: string -> bool, ok: string -> bool)
    requires AllTexts(v, ok) && forall s :: ok(s) ==> fine(PublicText(s))
    ensures Bounded(PublicValue(v), fine)
    decreases v
  {
    hide PublicText, Storable;
    match v
    case Arr(items) =>
      forall i | 0 <= i < |items|
        ensures Bounded(PublicValue(items[i]), fine)
      {
        ResultIsBounded(items[i], fine, ok);
      }
    case Obj(entries) =>
      forall i | 0 <= i < |entries|
        ensures Bounded(PublicValue(entries[i].value), fine)
      {
        ResultIsBounded(entries[i].value, fine, ok);
      }
      ObjectIsBounded(entries, fine);
    case _ =>
  }

  lemma ObjectIsBounded(entries: seq<Entry>, fine: string -> bool)
    requires forall i :: 0 <= i < |entries| ==> Bounded(PublicValue(entries[i].value), fine)
    ensures Bounded(PublicObject(entries), fine)
  {
    hide Visible, Own, Kept, PublicValue, PublicEntries, PublicObject, Storable, Bounded;
    var all := PublicEntries(entries);
    var out := Own(Kept(all));
    StoredEntries(all);
    forall i | 0 <= i < |out|
      ensures Storable(out[i].key) && Bounded(out[i].value, fine)
    {
      assert out[i] in all;
      var j :| 0 <= j < |all| && all[j] == out[i];
    }
    ObjectShape(entries);
    BoundedObject(out, fine);
  }

  lemma BoundedObject(out: seq<Entry>, fine: string -> bool)
    ensures Bounded(Undefined, fine)
    ensures Bounded(Obj(out), fine)
       <==> && 0 < |out| <= ENTRY_CAP
            && forall i :: 0 <= i < |out| ==> Storable(out[i].key) && Bounded(out[i].value, fine)
  {
    hide Storable;
  }

  lemma StoredEntries(entries: seq<Entry>)
    ensures |Own(Kept(entries))| <= ENTRY_CAP
    ensures forall e :: e in Own(Kept(entries)) ==> e in entries && Storable(e.key)
  {
    FilterMeans(entries, VisibleKey);
    FilterMeans(Kept(entries), MakesProperty);
    hide Filter, VisibleKey;
    assert forall e :: e in Kept(entries) ==> e in Visible(entries);
  }

  lemma StoredUnchanged(entries: seq<Entry>)
    ensures Own(Kept(entries)) == entries
       <==> |entries| <= ENTRY_CAP && forall i :: 0 <= i < |entries| ==> Storable(entries[i].key)
    ensures |Own(Kept(entries))| == |entries| ==> Own(Kept(entries)) == entries
  {
    FilterMeans(entries, VisibleKey);
    FilterMeans(Kept(entries), MakesProperty);
    hide Filter, VisibleKey;
  }

  /** A value is shown unchanged exactly when it is within the bounds already. */
  lemma {:induction false} UnchangedMeans(v: Json)
    ensures PublicValue(v) == v <==> Bounded(v, PublicString)
    decreases v
  {
    hide PublicText, Storable, PublicString;
    match v
    case Str(s) =>
      TextFixed(s);
    case Arr(items) =>
      forall i | 0 <= i < |items|
        ensures PublicValue(items[i]) == items[i] <==> Bounded(items[i], PublicString)
      {
        UnchangedMeans(items[i]);
      }
    case Obj(entries) =>
      forall i | 0 <= i < |entries|
        ensures PublicValue(entries[i].value) == entries[i].value <==> Bounded(entries[i].value, PublicString)
      {
        UnchangedMeans(entries[i].value);
      }
      ObjectUnchanged(entries);
    case _ =>
  }

  lemma ObjectUnchanged(entries: seq<Entry>)
    requires forall i :: 0 <= i < |entries| ==>
               (PublicValue(entries[i].value) == entries[i].value <==> Bounded(entries[i].value, PublicString))
    ensures PublicObject(entries) == Obj(entries) <==> Bounded(Obj(entries), PublicString)
  {
    hide Visible, Own, Kept, PublicValue, PublicEntries, PublicObject, Storable, Bounded;
    var all := PublicEntries(entries);
    StoredUnchanged(all);
    ObjectShape(entries);
    BoundedObject(entries, PublicString);
    EntriesUnchanged(entries);
  }

  lemma EntriesUnchanged(entries: seq<Entry>)
    ensures PublicEntries(entries) == entries
       <==> forall i :: 0 <= i < |entries| ==> PublicValue(entries[i].value) == entries[i].value
    ensures forall i :: 0 <= i < |entries| ==> PublicEntries(entries)[i].key == entries[i].key
  {
    hide PublicEntries, PublicValue;
  }

  /** publicMeta and publicValue, for any input: the result is bounded at every depth; a text of
      it is at most META_CAP + 1 long. */
  lemma PublicIsBounded(v: Json)
    ensures Bounded(PublicValue(v), s => |s| <= META_CAP + 1)
  {
    var any: string -> bool := _ => true;
    AnyText(v, any);
    ResultIsBounded(v, s => |s| <= META_CAP + 1, any);
  }

  lemma {:induction false} AnyText(v: Json, ok: string -> bool)
    requires forall s :: ok(s)
    ensures AllTexts(v, ok)
    decreases v
  {
    match v
    case Arr(items) =>
      forall i | 0 <= i < |items|
        ensures AllTexts(items[i], ok)
      {
        AnyText(items[i], ok);
      }
    case Obj(entries) =>
      forall i | 0 <= i < |entries|
        ensures AllTexts(entries[i].value, ok)
      {
        AnyText(entries[i].value, ok);
      }
    case _ =>
  }

  // ----- when the result stays as it is -----

  /** Entry i becomes a property: its key makes one, and is among the first 16 visible ones. */
  predicate KeepsAt(entries: seq<Entry>, i: nat)
    requires i < |entries|
  {
    Storable(entries[i].key) && |Visible(entries[..i])| < ENTRY_CAP
  }

  /** No text that is kept turns into a credential by stripping. */
  ghost predicate StableKept(v: Json) {
    match v
    case Str(s) => !TokenByStripping(s)
    case Arr(items) => forall i :: 0 <= i < |items| && i < ENTRY_CAP ==> StableKept(items[i])
    case Obj(entries) => forall i :: 0 <= i < |entries| && KeepsAt(entries, i) ==> StableKept(entries[i].value)
    case _ => true
  }

  lemma TakeSnoc<T>(s: seq<T>, x: T, n: nat)
    ensures Take(s + [x], n) == if |s| < n then Take(s, n) + [x] else Take(s, n)
  {
  }

  lemma KeptSnoc(entries: seq<Entry>, e: Entry)
    ensures Own(Kept(entries + [e]))
         == if Storable(e.key) && |Visible(entries)| < ENTRY_CAP then Own(Kept(entries)) + [e] else Own(Kept(entries))
  {
    FilterSnoc(entries, e, VisibleKey);
    TakeSnoc(Visible(entries), e, ENTRY_CAP);
    FilterSnoc(Kept(entries), e, MakesProperty);
    hide Filter, VisibleKey;
  }

  lemma KeepsAtInit(init: seq<Entry>, last: Entry, i: nat)
    requires i < |init|
    ensures KeepsAt(init + [last], i) <==> KeepsAt(init, i)
  {
    assert (init + [last])[..i] == init[..i];
    hide Visible, Storable;
  }

  lemma KeepsAtLast(init: seq<Entry>, last: Entry)
    ensures KeepsAt(init + [last], |init|) <==> Storable(last.key) && |Visible(init)| < ENTRY_CAP
  {
    assert (init + [last])[..|init|] == init;
    hide Visible, Storable;
  }

  /** The properties kept are the entries at the places so described. */
  lemma {:induction false} KeptPlaces(entries: seq<Entry>, good: Entry -> bool)
    ensures (forall e :: e in Own(Kept(entries)) ==> good(e))
       <==> (forall i :: 0 <= i < |entries| && KeepsAt(entries, i) ==> good(entries[i]))
  {
    hide Own, Kept, KeepsAt, Storable, Visible;
    if entries == [] {
      NothingIn();
      return;
    }
    var init, last := entries[..|entries| - 1], entries[|entries| - 1];
    KeptPlaces(init, good);
    KeptSnoc(init, last);
    assert entries == init + [last];
    KeepsAtLast(init, last);
    forall i | 0 <= i < |init|
      ensures KeepsAt(entries, i) <==> KeepsAt(init, i)
    {
      KeepsAtInit(init, last, i);
    }
    LastPlace(entries, init, last, good);
  }

  lemma LastPlace(entries: seq<Entry>, init: seq<Entry>, last: Entry, good: Entry -> bool)
    requires entries == init + [last] && forall i :: 0 <= i < |init| ==> (KeepsAt(entries, i) <==> KeepsAt(init, i))
    ensures (forall i :: 0 <= i < |entries| && KeepsAt(entries, i) ==> good(entries[i]))
       <==> (&& (forall i :: 0 <= i < |init| && KeepsAt(init, i) ==> good(init[i]))
             && (KeepsAt(entries, |init|) ==> good(last)))
  {
    hide KeepsAt;
    assert forall i :: 0 <= i < |init| ==> entries[i] == init[i];
    assert entries[|init|] == last;
  }

  /** Publishing values moves no entry. */
  lemma PublicKeepsPlaces(entries: seq<Entry>, i: nat)
    requires i < |entries|
    ensures KeepsAt(PublicEntries(entries), i) <==> KeepsAt(entries, i)
  {
    hide Filter, PublicEntries, PublicValue, Storable;
    PublicPrefix(entries, i);
    FilterCommutes(entries[..i], VisibleKey);
  }

  lemma PublicPrefix(entries: seq<Entry>, i: nat)
    requires i <= |entries|
    ensures PublicEntries(entries)[..i] == PublicEntries(entries[..i])
  {
    hide PublicEntries, PublicValue;
  }

  lemma ObjectStable(entries: seq<Entry>, fine: string -> bool)
    ensures Bounded(PublicObject(entries), fine)
       <==> forall i :: 0 <= i < |entries| && KeepsAt(entries, i) ==> Bounded(PublicValue(entries[i].value), fine)
  {
    hide Own, Kept, PublicValue, PublicEntries, PublicObject, Storable, Bounded, KeepsAt, Visible;
    var all := PublicEntries(entries);
    var out := Own(Kept(all));
    var good := (e: Entry) => Bounded(e.value, fine);
    StoredEntries(all);
    KeptPlaces(all, good);
    forall i | 0 <= i < |entries|
      ensures KeepsAt(all, i) <==> KeepsAt(entries, i)
    {
      PublicKeepsPlaces(entries, i);
    }
    ObjectShape(entries);
    BoundedObject(out, fine);
    AllOfThem(out, fine);
  }

  lemma AllOfThem(out: seq<Entry>, fine: string -> bool)
    ensures (forall i :: 0 <= i < |out| ==> Bounded(out[i].value, fine))
       <==> (forall e :: e in out ==> Bounded(e.value, fine))
  {
    hide Bounded;
  }

  lemma {:induction false} StableMeans(v: Json)
    ensures Bounded(PublicValue(v), PublicString) <==> StableKept(v)
    decreases v
  {
    hide PublicText, PublicString, TokenByStripping, KeepsAt, PublicObject;
    match v
    case Str(s) =>
      TextStable(s);
    case Arr(items) =>
      forall i | 0 <= i < |items|
        ensures Bounded(PublicValue(items[i]), PublicString) <==> StableKept(items[i])
      {
        StableMeans(items[i]);
      }
    case Obj(entries) =>
      forall i | 0 <= i < |entries|
        ensures Bounded(PublicValue(entries[i].value), PublicString) <==> StableKept(entries[i].value)
      {
        StableMeans(entries[i].value);
      }
      ObjectStable(entries, PublicString);
    case _ =>
  }

  /** Making a value public twice is making it public once, exactly when no text that the result
      keeps turns into a credential by stripping NULs. Then it holds no credential either. */
  lemma PublicIsStable(v: Json)
    ensures PublicValue(PublicValue(v)) == PublicValue(v) <==> StableKept(v)
    ensures StableKept(v) <==> Bounded(PublicValue(v), PublicString)
  {
    StableMeans(v);
    UnchangedMeans(PublicValue(v));
  }

  /** In particular when no text holds a NUL. */
  lemma {:induction false} NulFreeIsStable(v: Json)
    requires AllTexts(v, NulFree)
    ensures StableKept(v)
    decreases v
  {
    hide TokenByStripping, KeepsAt;
    match v
    case Str(s) =>
      TextStable(s);
    case Arr(items) =>
      forall i | 0 <= i < |items|
        ensures StableKept(items[i])
      {
        NulFreeIsStable(items[i]);
      }
    case Obj(entries) =>
      forall i | 0 <= i < |entries|
        ensures StableKept(entries[i].value)
      {
        NulFreeIsStable(entries[i].value);
      }
    case _ =>
  }

  /** An object whose first entry has the key that makes no property: one of two visible entries
      is kept, though there is room for both. */
  lemma ProtoExample()
    ensures var entries := [Entry(PROTO, Null), Entry("_top", Null)];
            VisibleKey(PROTO) && VisibleKey("_top") && PublicObject(entries) == Obj([Entry("_top", Null)])
  {
    ProtoIsVisible();
    var first, second := Entry(PROTO, Null), Entry("_top", Null);
    hide VisibleKey;
    FilterSnoc([], first, VisibleKey);
    FilterSnoc([first], second, VisibleKey);
    FilterSnoc([], first, MakesProperty);
    FilterSnoc([first], second, MakesProperty);
    PublicSnoc([], first);
    PublicSnoc([first], second);
    assert [] + [first] == [first] && [first] + [second] == [first, second];
    assert PROTO != "_top";
    hide Filter, PublicEntries;
    NothingIn();
  }

  lemma NothingIn()
    ensures Filter([], VisibleKey) == [] && Filter([], MakesProperty) == [] && PublicEntries([]) == []
    ensures Own(Kept([])) == []
  {
  }

  lemma ProtoIsVisible()
    ensures VisibleKey(PROTO) && VisibleKey("_top")
  {
    hide VisibleKey;
    UnderscoreIsVisible(PROTO);
    UnderscoreIsVisible("_top");
  }

  /** The letters of the two keys of the example. */
  predicate HarmlessLetter(c: char) {
    c == '_' || c == 'p' || c == 'r' || c == 'o' || c == 't'
  }

  lemma UnderscoreIsVisible(k: string)
    requires k != "" && k[0] == '_' && forall i :: 0 <= i < |k| ==> HarmlessLetter(k[i])
    ensures VisibleKey(k)
  {
    hide IsSecretKey, Lower;
    assert forall i :: 0 <= i < |k| ==> LowerChar(k[i]) == k[i];
    assert Lower(k) == k;
    NamesHoldNoSecret(k);
  }

  lemma Lacks(s: string, sub: string, k: nat)
    requires k < |sub| && sub[k] !in s
    ensures !Includes(s, sub)
  {
    forall i | 0 <= i <= |s|
      ensures !OccursAt(s, sub, i)
    {
      if i + |sub| <= |s| {
        assert s[i..i + |sub|][k] == s[i + k];
      }
    }
  }

  /** Names of these letters hold no secret name, which all have another one. */
  lemma NamesHoldNoSecret(k: string)
    requires forall i :: 0 <= i < |k| ==> HarmlessLetter(k[i])
    ensures !IsSecretKey(k)
  {
    hide Includes;
    assert forall c :: c in k ==> HarmlessLetter(c);
    Lacks(k, "token", 2);
    Lacks(k, "password", 1);
    Lacks(k, "secret", 0);
    Lacks(k, "authorization", 0);
    Lacks(k, "api_key", 0);
    Lacks(k, "apikey", 0);
    Lacks(k, "bearer", 0);
    Lacks(k, "credential", 0);
    Lacks(k, "hmac", 0);
    Lacks(k, "private_key", 2);
    Lacks(k, "bot_token", 0);
    Lacks(k, "access_token", 0);
    Lacks(k, "hmac_key", 0);
  }
}
