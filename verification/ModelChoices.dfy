/** Model choices of chat-turn.ts: a pair of provider and model packed into one select value,
    and the list of choices that the agents offer. */
module ModelChoices {
  import opened Basics
  import opened Sorting
  import opened Text

  datatype ModelChoice = ModelChoice(provider: string, model: string)

  /** The fields of a TurnAgent that count here; a missing field is None or "". */
  datatype TurnAgent = TurnAgent(model: string, llm_provider: string, enabled: Option<bool>)

  const SEP := '\U{0001}'
  const BARE := '\U{0002}'

  function ModelChoiceValue(provider: string, model: string): string {
    var p, m := Trim(provider), Trim(model);
    if p == "" || m == "" then "" else p + [SEP] + m
  }

  function SelectValueForChoice(choice: ModelChoice): string {
    var model, provider := Trim(choice.model), Trim(choice.provider);
    if model == "" then ""
    else if provider == "" then [BARE] + model
    else ModelChoiceValue(provider, model)
  }

  function ParseModelChoice(value: string): Option<ModelChoice> {
    var i := IndexOf(value, SEP);
    if i <= 0 || i >= |value| - 1 then None
    else Some(ModelChoice(value[..i], value[i + 1..]))
  }

  function ChoiceFromSelect(value: string): Option<ModelChoice> {
    if value == "" then None
    else if value[0] == BARE then
      var model := Trim(value[1..]);
      if model != "" then Some(ModelChoice("", model)) else None
    else ParseModelChoice(value)
  }

  function TrimChoice(c: ModelChoice): ModelChoice {
    ModelChoice(Trim(c.provider), Trim(c.model))
  }

  lemma IndexOfSep(a: string, b: string)
    requires SEP !in a
    ensures IndexOf(a + [SEP] + b, SEP) == |a|
  {
    var s := a + [SEP] + b;
    assert s[|a|] == SEP && s[..|a|] == a;
    FirstPosition(s, SEP, |a|);
  }

  lemma FirstPosition(s: string, c: char, k: nat)
    requires k < |s| && s[k] == c
    ensures IndexOf(s, c) <= k
    ensures c !in s[..k] ==> IndexOf(s, c) == k
  {
    var i := IndexOf(s, c);
    assert c in s;
    assert 0 <= i < k ==> s[i] == s[..k][i];
  }

  /** A packed choice unpacks to the trimmed choice, for exactly the choices with a model whose
      trimmed provider neither holds the separator nor begins with the mark of a bare model. */
  lemma ChoiceRoundTrip(c: ModelChoice)
    ensures var p := Trim(c.provider);
            ChoiceFromSelect(SelectValueForChoice(c)) == Some(TrimChoice(c))
            <==> Trim(c.model) != "" && SEP !in p && (p == "" || p[0] != BARE)
  {
    var p, m := Trim(c.provider), Trim(c.model);
    TrimIdempotent(c.provider);
    TrimIdempotent(c.model);
    if m != "" {
      var v := SelectValueForChoice(c);
      if p == "" {
        assert v[1..] == m;
      } else {
        assert v == p + [SEP] + m && v[0] == p[0];
        if SEP !in p {
          IndexOfSep(p, m);
          assert v[..|p|] == p && v[|p| + 1..] == m;
        } else {
          var k :| 0 <= k < |p| && p[k] == SEP;
          FirstPosition(v, SEP, k);
        }
      }
    }
  }

  // ----- the choices on offer -----

  predicate Offers(a: TurnAgent) {
    a.enabled != Some(false) && Trim(a.model) != "" && Trim(a.llm_provider) != ""
  }

  function ChoiceOf(a: TurnAgent): ModelChoice {
    ModelChoice(Trim(a.llm_provider), Trim(a.model))
  }

  function Key(c: ModelChoice): string {
    ModelChoiceValue(c.provider, c.model)
  }

  /** Some enabled agent with a model and a provider has this choice. */
  ghost predicate Offered(c: ModelChoice, agents: seq<TurnAgent>) {
    exists a :: a in agents && Offers(a) && ChoiceOf(a) == c
  }

  /** Blank fields and switched-off agents offer nothing. */
  lemma OfferedIff(c: ModelChoice, agents: seq<TurnAgent>)
    ensures Offered(c, agents) <==>
              && c.provider != "" && c.model != ""
              && exists a :: a in agents && a.enabled != Some(false)
                             && Trim(a.llm_provider) == c.provider && Trim(a.model) == c.model
  {
    hide Trim;
    if c.provider != "" && c.model != "" {
      forall a | a in agents && a.enabled != Some(false)
                 && Trim(a.llm_provider) == c.provider && Trim(a.model) == c.model
        ensures Offered(c, agents)
      {
        assert Offers(a) && ChoiceOf(a) == c;
      }
    }
  }

  /** A list of offered choices, each key once, each offered key there. */
  ghost predicate Lists(out: seq<ModelChoice>, agents: seq<TurnAgent>) {
    && (forall c :: c in out ==> Offered(c, agents))
    && (forall c, d :: c in out && d in out && Key(c) == Key(d) ==> c == d)
    && (forall c :: Offered(c, agents) ==> exists d :: d in out && Key(d) == Key(c))
    && Distinct(out)
  }

  /** The order of the menu: by model, then by provider, as localeCompare has it. */
  function MenuOrder(compare: (string, string) -> int): (ModelChoice, ModelChoice) -> bool {
    (a: ModelChoice, b: ModelChoice) =>
      compare(a.model, b.model) < 0 || (compare(a.model, b.model) == 0 && compare(a.provider, b.provider) <= 0)
  }

  lemma OfferedSnoc(agents: seq<TurnAgent>, a: TurnAgent)
    ensures forall c :: Offered(c, agents + [a]) <==> Offered(c, agents) || (Offers(a) && c == ChoiceOf(a))
  {
    hide Offers, ChoiceOf;
    forall c
      ensures Offered(c, agents + [a]) <==> Offered(c, agents) || (Offers(a) && c == ChoiceOf(a))
    {
      if Offered(c, agents) {
        var b :| b in agents && Offers(b) && ChoiceOf(b) == c;
        assert b in agents + [a];
      }
      if Offers(a) && c == ChoiceOf(a) {
        assert a in agents + [a];
      }
    }
  }

  /** modelOptions; `compare` is localeCompare. */
  method ModelOptions(agents: seq<TurnAgent>, compare: (string, string) -> int) returns (out: seq<ModelChoice>)
    ensures Lists(out, agents)
    ensures TotalPreorder(MenuOrder(compare)) ==> SortedBy(out, MenuOrder(compare))
  {
    var seen: set<string> := {};
    out := [];
    for i := 0 to |agents|
      invariant seen == set c | c in out :: Key(c)
      invariant Lists(out, agents[..i])
    {
      var a := agents[i];
      assert agents[..i + 1] == agents[..i] + [a];
      OfferedSnoc(agents[..i], a);
      if a.enabled == Some(false) {
        continue;
      }
      var model, provider := Trim(a.model), Trim(a.llm_provider);
      if model == "" || provider == "" {
        continue;
      }
      var key := ModelChoiceValue(provider, model);
      var choice := ModelChoice(provider, model);
      KeyNotEmpty(a);
      if key == "" || key in seen {
        ListsSame(out, agents[..i], a);
        continue;
      }
      ListsMore(out, agents[..i], a);
      seen := seen + {key};
      out := out + [choice];
    }
    assert agents[..|agents|] == agents;
    SortMembers(out, MenuOrder(compare));
    if TotalPreorder(MenuOrder(compare)) {
      SortSorts(out, MenuOrder(compare));
    }
    out := SortBy(out, MenuOrder(compare));
  }

  lemma KeyNotEmpty(a: TurnAgent)
    requires Offers(a)
    ensures Key(ChoiceOf(a)) != ""
  {
    TrimIdempotent(a.model);
    TrimIdempotent(a.llm_provider);
  }

  lemma ListsSame(out: seq<ModelChoice>, agents: seq<TurnAgent>, a: TurnAgent)
    requires Lists(out, agents) && Offers(a) && exists c :: c in out && Key(c) == Key(ChoiceOf(a))
    ensures Lists(out, agents + [a])
  {
    OfferedSnoc(agents, a);
    hide Key, ChoiceOf, Offers, Offered;
  }

  lemma ListsMore(out: seq<ModelChoice>, agents: seq<TurnAgent>, a: TurnAgent)
    requires Lists(out, agents) && Offers(a) && forall c :: c in out ==> Key(c) != Key(ChoiceOf(a))
    ensures Lists(out + [ChoiceOf(a)], agents + [a])
  {
    OfferedSnoc(agents, a);
    DistinctSnoc(out, ChoiceOf(a));
    hide Key, ChoiceOf, Offers, Offered, Distinct;
    var all := out + [ChoiceOf(a)];
    assert forall c :: c in all <==> c in out || c == ChoiceOf(a);
  }

  /** The list offers every choice exactly when different choices on offer have different keys. */
  lemma AllOptionsListed(out: seq<ModelChoice>, agents: seq<TurnAgent>)
    requires Lists(out, agents)
    ensures (forall c :: Offered(c, agents) ==> c in out)
       <==> (forall c, d :: Offered(c, agents) && Offered(d, agents) && Key(c) == Key(d) ==> c == d)
  {
    hide Key, Offered;
  }

  /** Providers free of the separator keep the keys of different choices different. */
  lemma PlainProvidersListAll(out: seq<ModelChoice>, agents: seq<TurnAgent>)
    requires Lists(out, agents) && forall a :: a in agents && Offers(a) ==> SEP !in Trim(a.llm_provider)
    ensures forall c :: Offered(c, agents) <==> c in out
    ensures Distinct(out)
  {
    forall c, d | Offered(c, agents) && Offered(d, agents) && Key(c) == Key(d)
      ensures c == d
    {
      var a :| a in agents && Offers(a) && ChoiceOf(a) == c;
      var b :| b in agents && Offers(b) && ChoiceOf(b) == d;
      KeyOfChoice(a);
      KeyOfChoice(b);
      IndexOfSep(c.provider, c.model);
      IndexOfSep(d.provider, d.model);
      SameParts(c.provider, c.model, d.provider, d.model);
    }
    AllOptionsListed(out, agents);
  }

  lemma KeyOfChoice(a: TurnAgent)
    requires Offers(a)
    ensures Key(ChoiceOf(a)) == ChoiceOf(a).provider + [SEP] + ChoiceOf(a).model
  {
    TrimIdempotent(a.model);
    TrimIdempotent(a.llm_provider);
  }

  lemma SameParts(a: string, b: string, c: string, d: string)
    requires |a| == |c| && a + [SEP] + b == c + [SEP] + d
    ensures a == c && b == d
  {
    assert (a + [SEP] + b)[..|a|] == a && (c + [SEP] + d)[..|c|] == c;
    assert (a + [SEP] + b)[|a| + 1..] == b && (c + [SEP] + d)[|c| + 1..] == d;
  }

  const FIRST := TurnAgent("b" + [SEP] + "c", "a", None)
  const SECOND := TurnAgent("c", "a" + [SEP] + "b", None)

  lemma SharedKey()
    ensures Offers(FIRST) && Offers(SECOND)
    ensures ChoiceOf(FIRST) == ModelChoice("a", "b" + [SEP] + "c")
    ensures ChoiceOf(SECOND) == ModelChoice("a" + [SEP] + "b", "c")
    ensures Key(ChoiceOf(FIRST)) == Key(ChoiceOf(SECOND))
  {
    TrimFixes("a");
    TrimFixes("c");
    TrimFixes("b" + [SEP] + "c");
    TrimFixes("a" + [SEP] + "b");
    assert "a" + [SEP] + ("b" + [SEP] + "c") == ("a" + [SEP] + "b") + [SEP] + "c";
    hide Trim;
  }

  /** Two agents whose different choices share a key: one of them is not listed. */
  lemma SharedKeyExample(out: seq<ModelChoice>)
    requires Lists(out, [FIRST, SECOND])
    ensures Offered(ChoiceOf(FIRST), [FIRST, SECOND]) && Offered(ChoiceOf(SECOND), [FIRST, SECOND])
    ensures !(ChoiceOf(FIRST) in out && ChoiceOf(SECOND) in out)
  {
    SharedKey();
    assert FIRST in [FIRST, SECOND] && SECOND in [FIRST, SECOND];
    assert |ChoiceOf(FIRST).provider| != |ChoiceOf(SECOND).provider|;
    hide Key, ChoiceOf, Offers;
  }

  // ----- runs of switch markers -----

  /** A row stays unless it is an event followed by another event. */
  predicate Stays<T>(rows: seq<T>, isEvent: T -> bool, i: nat)
    requires i < |rows|
  {
    !isEvent(rows[i]) || i + 1 == |rows| || !isEvent(rows[i + 1])
  }

  /** The first n rows without those that do not stay. */
  function Kept<T>(rows: seq<T>, isEvent: T -> bool, n: nat): seq<T>
    requires n <= |rows|
  {
    if n == 0 then [] else Kept(rows, isEvent, n - 1) + if Stays(rows, isEvent, n - 1) then [rows[n - 1]] else []
  }

  /** collapseSwitchRuns */
  method CollapseSwitchRuns<T>(rows: seq<T>, isEvent: T -> bool) returns (out: seq<T>)
    ensures out == Kept(rows, isEvent, |rows|)
  {
    out := [];
    var i := 0;
    while i < |rows|
      invariant 0 <= i <= |rows|
      invariant out == Kept(rows, isEvent, i)
    {
      var row := rows[i];
      if !isEvent(row) {
        out := out + [row];
      } else {
        var j := i;
        while j + 1 < |rows| && isEvent(rows[j + 1])
          invariant i <= j < |rows| && isEvent(rows[j])
          invariant out == Kept(rows, isEvent, j)
        {
          j := j + 1;
        }
        out := out + [rows[j]];
        i := j;
      }
      i := i + 1;
    }
  }

  /** Collapsing leaves no two markers next to each other, and takes out no other row. */
  lemma {:induction false} CollapseMeaning<T(!new)>(rows: seq<T>, isEvent: T -> bool, n: nat)
    requires n <= |rows|
    ensures var k := Kept(rows, isEvent, n);
            && (forall i :: 0 <= i && i + 1 < |k| ==> !(isEvent(k[i]) && isEvent(k[i + 1])))
            && (forall r :: r in rows[..n] && !isEvent(r) ==> r in k)
            && (forall r :: r in k ==> r in rows[..n])
            && (k != [] && isEvent(k[|k| - 1]) ==> n > 0 && isEvent(rows[n - 1]) && Stays(rows, isEvent, n - 1))
  {
    if n > 0 {
      CollapseMeaning(rows, isEvent, n - 1);
      assert rows[..n] == rows[..n - 1] + [rows[n - 1]];
    }
  }

  lemma {:induction false} KeptFront<T>(a: seq<T>, b: seq<T>, isEvent: T -> bool, n: nat)
    requires n <= |a| && (n < |a| || a == [] || b == [] || !isEvent(a[n - 1]) || !isEvent(b[0]))
    ensures Kept(a + b, isEvent, n) == Kept(a, isEvent, n)
  {
    if n > 0 {
      KeptFront(a, b, isEvent, n - 1);
      assert n < |a| ==> (a + b)[n] == a[n];
    }
  }

  lemma {:induction false} KeptBack<T>(a: seq<T>, b: seq<T>, isEvent: T -> bool, n: nat)
    requires n <= |b|
    ensures Kept(a + b, isEvent, |a| + n) == Kept(a + b, isEvent, |a|) + Kept(b, isEvent, n)
  {
    if n == 0 {
      assert Kept(a + b, isEvent, |a|) + [] == Kept(a + b, isEvent, |a|);
    } else {
      var here := if Stays(b, isEvent, n - 1) then [b[n - 1]] else [];
      KeptBack(a, b, isEvent, n - 1);
      assert n < |b| ==> (a + b)[|a| + n] == b[n];
      assert Stays(a + b, isEvent, |a| + n - 1) <==> Stays(b, isEvent, n - 1);
      Assoc(Kept(a + b, isEvent, |a|), Kept(b, isEvent, n - 1), here);
    }
  }

  /** Rows collapse part by part, wherever no run of events is cut. */
  lemma CollapseParts<T>(a: seq<T>, b: seq<T>, isEvent: T -> bool)
    requires a == [] || b == [] || !isEvent(a[|a| - 1]) || !isEvent(b[0])
    ensures Kept(a + b, isEvent, |a + b|) == Kept(a, isEvent, |a|) + Kept(b, isEvent, |b|)
  {
    hide Kept;
    KeptFront(a, b, isEvent, |a|);
    KeptBack(a, b, isEvent, |b|);
    assert |a + b| == |a| + |b|;
  }

  /** A run of events collapses to its last one, and a row that is no event stays. */
  lemma {:induction false} CollapseRun<T>(run: seq<T>, isEvent: T -> bool, n: nat)
    requires run != [] && n <= |run| && forall i :: 0 <= i < |run| ==> isEvent(run[i]) || |run| == 1
    ensures Kept(run, isEvent, n) == if n < |run| then [] else [run[|run| - 1]]
  {
    if n > 0 {
      CollapseRun(run, isEvent, n - 1);
    }
  }
}
