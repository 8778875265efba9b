/** Which keys and which texts get past publicMeta (activity-ops.ts) and dropPayload
    (events-ops.ts), by the names and shapes that the two files list. */
module PublicKeys {
  import opened Basics
  import opened Text
  import opened JsonTree
  import opened TokenShape
  import PublicMeta
  import DropPayload

  /** SECRET_KEYS of activity-ops.ts; events-ops.ts has all of them but the last. */
  const SECRETS := [
    "token", "password", "secret", "authorization", "api_key", "apikey", "bearer", "credential", "hmac",
    "private_key", "bot_token", "access_token", "hmac_key"]

  /** PAYLOAD_KEYS of both files. */
  const PAYLOADS := [
    "arguments", "args", "body", "content", "messages", "prompt", "result", "tool_input", "tool_result", "text",
    "input", "output", "message"]

  /** One of the names stands somewhere in the text. */
  predicate IncludesAny(s: string, names: seq<string>) {
    exists i :: 0 <= i < |names| && Includes(s, names[i])
  }

  /** The keys that metadata may show: in lower case they end in "_set", or hold no secret name and
      are no payload name. */
  predicate ShownKey(key: string) {
    var k := Lower(key);
    (|k| >= 4 && k[|k| - 4..] == "_set") || (!IncludesAny(k, SECRETS) && k !in PAYLOADS)
  }

  /** The keys that a summary may show: in lower case they hold no secret name and no payload
      name. */
  predicate SummaryKey(key: string) {
    !IncludesAny(Lower(key), SECRETS) && !IncludesAny(Lower(key), PAYLOADS)
  }

  /** Only such keys, at every depth. */
  ghost predicate KeysAre(v: Json, fine: string -> bool) {
    match v
    case Arr(items) => forall i :: 0 <= i < |items| ==> KeysAre(items[i], fine)
    case Obj(entries) =>
      && (forall i :: 0 <= i < |entries| ==> fine(entries[i].key))
      && forall i :: 0 <= i < |entries| ==> KeysAre(entries[i].value, fine)
    case _ => true
  }

  // ----- the lists -----

  lemma SecretsAre(k: string)
    ensures IncludesAny(k, SECRETS) <==> PublicMeta.IsSecretKey(k)
  {
    hide Includes;
    var s := SECRETS;
    if PublicMeta.IsSecretKey(k) {
      assert s[0] == "token" && s[1] == "password" && s[2] == "secret" && s[3] == "authorization";
      assert s[4] == "api_key" && s[5] == "apikey" && s[6] == "bearer" && s[7] == "credential" && s[8] == "hmac";
      assert s[9] == "private_key" && s[10] == "bot_token" && s[11] == "access_token" && s[12] == "hmac_key";
    }
  }

  lemma PayloadsInclude(k: string)
    ensures IncludesAny(k, PAYLOADS) <==> DropPayload.IsPayloadKey(k)
  {
    hide Includes;
    var s := PAYLOADS;
    if DropPayload.IsPayloadKey(k) {
      assert s[0] == "arguments" && s[1] == "args" && s[2] == "body" && s[3] == "content" && s[4] == "messages";
      assert s[5] == "prompt" && s[6] == "result" && s[7] == "tool_input" && s[8] == "tool_result";
      assert s[9] == "text" && s[10] == "input" && s[11] == "output" && s[12] == "message";
    }
  }

  lemma PayloadsAre(k: string)
    ensures k in PAYLOADS <==> PublicMeta.IsPayloadKey(k)
  {
  }

  lemma ShownIsVisible(key: string)
    ensures PublicMeta.VisibleKey(key) <==> key != "" && ShownKey(key)
  {
    hide IncludesAny, Includes, PublicMeta.IsSecretKey, PublicMeta.IsPayloadKey, Lower;
    SecretsAre(Lower(key));
    PayloadsAre(Lower(key));
  }

  lemma HmacKey(k: string)
    ensures Includes(k, "hmac_key") ==> Includes(k, "hmac")
  {
    if Includes(k, "hmac_key") {
      var i :| 0 <= i <= |k| && OccursAt(k, "hmac_key", i);
      assert k[i..i + 4] == k[i..i + 8][..4] == "hmac";
      assert OccursAt(k, "hmac", i);
    }
  }

  lemma SummaryIsKept(key: string)
    ensures DropPayload.HideKey(key) <==> !SummaryKey(key)
  {
    hide IncludesAny, Includes, PublicMeta.IsPayloadKey, DropPayload.IsPayloadKey, Lower;
    SecretsAre(Lower(key));
    PayloadsInclude(Lower(key));
    HmacKey(Lower(key));
  }

  // ----- the keys of every result -----

  lemma {:induction false} BoundedKeys(v: Json, fine: string -> bool)
    requires PublicMeta.Bounded(v, fine)
    ensures KeysAre(v, ShownKey)
    decreases v
  {
    hide ShownKey, PublicMeta.VisibleKey;
    match v
    case Arr(items) =>
      forall i | 0 <= i < |items|
        ensures KeysAre(items[i], ShownKey)
      {
        BoundedKeys(items[i], fine);
      }
    case Obj(entries) =>
      forall i | 0 <= i < |entries|
        ensures ShownKey(entries[i].key) && KeysAre(entries[i].value, ShownKey)
      {
        assert PublicMeta.Storable(entries[i].key);
        ShownIsVisible(entries[i].key);
        BoundedKeys(entries[i].value, fine);
      }
    case _ =>
  }

  /** At every depth of every result, no key holds a secret name in any letter case unless it ends
      in "_set", and none is a payload name in any letter case. */
  lemma PublicKeysAreShown(v: Json)
    ensures KeysAre(PublicMeta.PublicValue(v), ShownKey)
  {
    hide PublicMeta.PublicValue, PublicMeta.Bounded, KeysAre, ShownKey;
    PublicMeta.PublicIsBounded(v);
    BoundedKeys(PublicMeta.PublicValue(v), s => |s| <= PublicMeta.META_CAP + 1);
  }

  /** Of an object with one entry the entry is shown if and only if its key may be. */
  lemma KeyIsShownIff(key: string, v: Json)
    ensures PublicMeta.PublicObject([Entry(key, v)])
         == if key != "" && key != PROTO && ShownKey(key) then Obj([Entry(key, PublicMeta.PublicValue(v))])
            else Undefined
  {
    hide ShownKey, PublicMeta.VisibleKey, PublicMeta.PublicValue, PublicMeta.Filter, PublicMeta.PublicEntries;
    var all := [Entry(key, PublicMeta.PublicValue(v))];
    ShownIsVisible(key);
    OneEntry(key, v);
    OneFiltered(all[0], PublicMeta.VisibleKey);
    OneFiltered(all[0], PublicMeta.MakesProperty);
    PublicMeta.NothingKept(PublicMeta.MakesProperty);
    PublicMeta.ObjectShape([Entry(key, v)]);
  }

  lemma OneEntry(key: string, v: Json)
    ensures PublicMeta.PublicEntries([Entry(key, v)]) == [Entry(key, PublicMeta.PublicValue(v))]
  {
    hide PublicMeta.PublicValue;
    assert PublicMeta.PublicEntries([]) == [];
    PublicMeta.PublicSnoc([], Entry(key, v));
    assert [] + [Entry(key, v)] == [Entry(key, v)];
  }

  lemma OneFiltered(e: Entry, keep: string -> bool)
    ensures PublicMeta.Filter([e], keep) == if keep(e.key) then [e] else []
  {
    PublicMeta.NothingKept(keep);
    hide PublicMeta.Filter;
    PublicMeta.FilterSnoc([], e, keep);
    assert [] + [e] == [e];
  }

  lemma LowerOf(s: string)
    requires forall i :: 0 <= i < |s| ==> 'a' <= s[i] <= 'z' || s[i] == '_'
    ensures Lower(s) == s
  {
  }

  /** The flags that metadata reports of a secret: shown, though their names hold secret names. */
  lemma SetFlagsAreShown(v: Json)
    ensures PublicMeta.PublicObject([Entry("secret_set", v)]) == Obj([Entry("secret_set", PublicMeta.PublicValue(v))])
    ensures PublicMeta.PublicObject([Entry("key_set", v)]) == Obj([Entry("key_set", PublicMeta.PublicValue(v))])
    ensures PublicMeta.PublicObject([Entry("secret", v)]) == Undefined
  {
    SetFlagKeys();
    hide ShownKey, PublicMeta.PublicObject;
    KeyIsShownIff("secret_set", v);
    KeyIsShownIff("key_set", v);
    KeyIsShownIff("secret", v);
  }

  lemma SetFlag(key: string)
    requires |Lower(key)| >= 4 && Lower(key)[|Lower(key)| - 4..] == "_set"
    ensures ShownKey(key)
  {
    hide IncludesAny;
  }

  lemma SecretIsHidden()
    ensures !ShownKey("secret")
  {
    LowerOf("secret");
    hide Lower;
    assert OccursAt("secret", "secret", 0) && SECRETS[2] == "secret";
    assert Includes("secret", SECRETS[2]);
    assert "secret"[2..] == "cret";
  }

  lemma SetFlagKeys()
    ensures ShownKey("secret_set") && ShownKey("key_set") && !ShownKey("secret")
  {
    hide Lower, ShownKey;
    LowerOf("secret_set");
    LowerOf("key_set");
    assert "secret_set"[6..] == "_set" && "key_set"[3..] == "_set";
    SetFlag("secret_set");
    SetFlag("key_set");
    SecretIsHidden();
  }

  lemma {:induction false} CleanKeys(v: Json)
    requires DropPayload.Clean(v)
    ensures KeysAre(v, SummaryKey)
    decreases v
  {
    hide SummaryKey, DropPayload.HideKey;
    match v
    case Arr(items) =>
      forall i | 0 <= i < |items|
        ensures KeysAre(items[i], SummaryKey)
      {
        CleanKeys(items[i]);
      }
    case Obj(entries) =>
      forall i | 0 <= i < |entries|
        ensures SummaryKey(entries[i].key) && KeysAre(entries[i].value, SummaryKey)
      {
        assert DropPayload.KeptKey(entries[i].key);
        SummaryIsKept(entries[i].key);
        CleanKeys(entries[i].value);
      }
    case _ =>
  }

  /** At every depth of every summary, no key holds a secret or a payload name in any letter case,
      and no text holds a credential. */
  lemma SummaryKeysAreShown(v: Json)
    ensures KeysAre(DropPayload.Dropped(v), SummaryKey)
  {
    hide DropPayload.Dropped, DropPayload.Clean, KeysAre, SummaryKey;
    DropPayload.DropsExactlyPayload(v);
    CleanKeys(DropPayload.Dropped(v));
  }

  /** An entry of an object is kept in a summary if and only if its key may be shown. */
  lemma SummaryKeepsIff(a: seq<Entry>, e: Entry, b: seq<Entry>)
    ensures var kept := if SummaryKey(e.key) && e.key != PROTO then [e.(value := DropPayload.Dropped(e.value))] else [];
            DropPayload.DroppedEntries(a + [e] + b)
            == DropPayload.DroppedEntries(a) + kept + DropPayload.DroppedEntries(b)
  {
    hide DropPayload.Dropped, DropPayload.DroppedEntries, SummaryKey, DropPayload.HideKey;
    SummaryIsKept(e.key);
    DropPayload.EntryByEntry(a, e, b);
  }

  // ----- texts and lists -----

  /** A text without a credential and without NULs is shown up to its first 200 characters, with a
      mark behind them if it is longer; a text with a credential is not shown at all. */
  lemma TextIsShown(s: string)
    ensures HasToken(s) ==> PublicMeta.PublicValue(Str(s)) == Str("[redacted]")
    ensures !HasToken(s) && '\0' !in s ==>
              PublicMeta.PublicValue(Str(s)) == Str(if |s| <= 200 then s else s[..200] + [ELLIPSIS])
  {
    hide HasToken, PublicMeta.StripNul;
    PublicMeta.StripNulFixes(s);
  }

  /** Of a list the first 16 items are shown. */
  lemma ItemsAreShown(items: seq<Json>)
    ensures var shown := PublicMeta.PublicValue(Arr(items));
            && shown.Arr? && |shown.items| == Min(|items|, 16)
            && forall i :: 0 <= i < |shown.items| ==> shown.items[i] == PublicMeta.PublicValue(items[i])
  {
  }

  predicate AtWordStart(p: string) {
    p == "" || !IsWordChar(p[|p| - 1])
  }

  predicate AreAll(s: string, class_: char -> bool) {
    forall i :: 0 <= i < |s| ==> class_(s[i])
  }

  lemma KeyBehind(p: string, typed: string, name: string, x: string, rest: string, class_: char -> bool)
    requires |typed| == |name| && forall k :: 0 <= k < |name| ==> SameLetter(typed[k], name[k])
    requires AreAll(x, class_)
    ensures KeyAt(p + typed + x + rest, name, |x|, class_, |p|)
  {
    var s := p + typed + x + rest;
    assert forall k :: 0 <= k < |name| ==> s[|p| + k] == typed[k];
    assert forall k :: 0 <= k < |x| ==> s[|p| + |name| + k] == x[k];
  }

  lemma StartOfWord(p: string, s: string)
    requires AtWordStart(p)
    ensures WordStart(p + s, |p|)
  {
    assert p != "" ==> (p + s)[|p| - 1] == p[|p| - 1];
  }

  /** A key that begins with "sk-" at the start of a word, in any letter case, is a credential. */
  lemma KeysAreTokens(p: string, typed: string, x: string, rest: string)
    requires AtWordStart(p) && |x| == 8 && AreAll(x, KeyChar)
    requires |typed| == 3 && forall k :: 0 <= k < 3 ==> SameLetter(typed[k], "sk-"[k])
    ensures HasToken(p + typed + x + rest) && HasEventToken(p + typed + x + rest)
  {
    var s := p + typed + x + rest;
    KeyBehind(p, typed, "sk-", x, rest, KeyChar);
    StartOfWord(p, typed + x + rest);
    assert s == p + (typed + x + rest);
    assert SkAt(s, |p|);
    hide SkAt, BearerAt, WordStart, KeyAt;
    assert TokenAt(s, |p|) && EventTokenAt(s, |p|);
  }

  /** So is the word "Bearer", in any letter case, with white space and eight characters of a key
      behind it. */
  lemma BearersAreTokens(p: string, typed: string, gap: string, x: string, rest: string)
    requires AtWordStart(p) && gap != "" && AreAll(gap, IsSpace) && |x| == 8 && AreAll(x, BearerChar)
    requires |typed| == 6 && forall k :: 0 <= k < 6 ==> SameLetter(typed[k], "bearer"[k])
    ensures HasToken(p + typed + gap + x + rest) && HasEventToken(p + typed + gap + x + rest)
  {
    hide IsSpace, BearerChar;
    var s := p + typed + gap + x + rest;
    var i, n := |p|, |gap|;
    KeyBehind(p, typed, "bearer", gap, x + rest, IsSpace);
    KeyBehind(p, typed + gap, typed + gap, x, rest, BearerChar);
    StartOfWord(p, typed + gap + x + rest);
    assert s == p + (typed + gap + x + rest);
    assert s == p + typed + gap + (x + rest) == p + (typed + gap) + x + rest;
    assert Spaced(s, i, n);
    assert BearerAt(s, i);
    hide SkAt, BearerAt, WordStart, KeyAt;
    assert TokenAt(s, i) && EventTokenAt(s, i);
  }

  /** A summary also hides what begins with a provider's prefix at the start of a word. */
  lemma PrefixesAreEventTokens(p: string, name: string, typed: string, c: char, rest: string)
    requires AtWordStart(p) && name in ["gsk_", "xai-", "aiza", "wh_"]
    requires if name == "aiza" then KeyChar(c) else AlphaNum(c)
    requires |typed| == |name| && forall k :: 0 <= k < |name| ==> SameLetter(typed[k], name[k])
    ensures HasEventToken(p + typed + [c] + rest)
  {
    var s := p + typed + [c] + rest;
    KeyBehind(p, typed, name, [c], rest, if name == "aiza" then KeyChar else AlphaNum);
    StartOfWord(p, typed + [c] + rest);
    assert s == p + (typed + [c] + rest);
    hide SkAt, BearerAt, WordStart, KeyAt;
    assert EventTokenAt(s, |p|);
  }
}
