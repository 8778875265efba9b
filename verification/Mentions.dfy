/** @ mentions of chat-turn.ts: the editor that inserts one and the scanner that highlights them. */
module Mentions {
  import opened Basics
  import opened Sorting
  import opened Text

  datatype Span = Span(text: string, mention: bool)

  // ----- highlighting -----

  /** /[\s.,!?;:)\]，。]/ */
  predicate Boundary(c: char) {
    || IsSpace(c) || c == '.' || c == ',' || c == '!' || c == '?' || c == ';' || c == ':' || c == ')' || c == ']'
    || c == '\U{FF0C}' || c == '\U{3002}'
  }

  /** The name stands here, and does not run on into a longer word. */
  predicate Hits(rest: string, name: string) {
    name <= rest && (|name| == |rest| || Boundary(rest[|name|]))
  }

  /** The names worth looking for: trimmed, not empty. */
  function Candidates(names: seq<string>): (r: seq<string>)
    ensures forall n :: n in r <==> n != "" && exists m :: m in names && Trim(m) == n
  {
    if names == [] then []
    else
      var rest := Candidates(names[1..]);
      assert names == [names[0]] + names[1..];
      if Trim(names[0]) == "" then rest else [Trim(names[0])] + rest
  }

  predicate Longer(a: string, b: string) {
    |a| >= |b|
  }

  /** sort((a, b) => b.length - a.length) */
  function SortByLength(names: seq<string>): seq<string> {
    SortBy(names, Longer)
  }

  /** sorted.find(...) */
  function FirstHit(rest: string, sorted: seq<string>): Option<string> {
    if sorted == [] then None
    else if Hits(rest, sorted[0]) then Some(sorted[0])
    else FirstHit(rest, sorted[1..])
  }

  /** The longest listed name that stands here. */
  ghost predicate Best(rest: string, names: seq<string>, name: string) {
    name in names && Hits(rest, name) && forall m :: m in names && Hits(rest, m) ==> |m| <= |name|
  }

  lemma {:induction false} FirstHitIsBest(rest: string, sorted: seq<string>)
    requires SortedBy(sorted, Longer)
    ensures match FirstHit(rest, sorted)
            case None => forall m :: m in sorted ==> !Hits(rest, m)
            case Some(name) => Best(rest, sorted, name)
  {
    if sorted == [] {
    } else {
      assert sorted == [sorted[0]] + sorted[1..];
      if Hits(rest, sorted[0]) {
        assert forall m :: m in sorted ==> |m| <= |sorted[0]|;
      } else {
        FirstHitIsBest(rest, sorted[1..]);
      }
    }
  }

  /** What a span says about the text it begins. */
  ghost predicate SpanOk(s: string, span: Span, names: seq<string>) {
    && span.text != "" && span.text <= s
    && if span.mention then
         s[0] == '@' && Best(s[1..], names, span.text[1..])
       else
         && '@' !in span.text[1..]
         && (|span.text| == |s| || s[|span.text|] == '@')
         && (s[0] == '@' ==> forall n :: n in names ==> !Hits(s[1..], n))
  }

  /** The spans cut the text up to `rest`, each one right for the place where it begins. */
  ghost predicate Covers(s: string, spans: seq<Span>, rest: string, names: seq<string>)
    decreases |spans|
  {
    if spans == [] then s == rest
    else SpanOk(s, spans[0], names) && Covers(s[|spans[0].text|..], spans[1..], rest, names)
  }

  ghost predicate Highlights(s: string, spans: seq<Span>, names: seq<string>) {
    Covers(s, spans, "", names)
  }

  function Texts(spans: seq<Span>): seq<string> {
    seq(|spans|, i requires 0 <= i < |spans| => spans[i].text)
  }

  /** There is one way to highlight. */
  lemma {:induction false} HighlightsUnique(s: string, a: seq<Span>, b: seq<Span>, names: seq<string>)
    requires Highlights(s, a, names) && Highlights(s, b, names)
    ensures a == b
    decreases |a|
  {
    if a != [] && b != [] {
      if a[0].mention && b[0].mention {
        assert a[0].text[1..] == b[0].text[1..];
      } else if !a[0].mention && !b[0].mention {
        SamePlain(s, a[0].text, b[0].text);
        SamePlain(s, b[0].text, a[0].text);
      }
      assert a[0].text == b[0].text;
      HighlightsUnique(s[|a[0].text|..], a[1..], b[1..], names);
      assert a == [a[0]] + a[1..] && b == [b[0]] + b[1..];
    }
  }

  lemma SamePlain(s: string, a: string, b: string)
    requires a != "" && b != "" && a <= s && b <= s && '@' !in b[1..] && (|a| == |s| || s[|a|] == '@')
    ensures |b| <= |a|
  {
    assert forall i :: 1 <= i < |b| ==> b[i] == b[1..][i - 1];
  }

  /** Where a name ends: at the end of the text, at white space or at one of ten marks. */
  predicate EndsThere(rest: string) {
    rest == "" || IsSpace(rest[0]) || rest[0] in ".,!?;:)]\U{FF0C}\U{3002}"
  }

  /** A text that begins with "@" and a listed name is a mention if and only if the name ends
      there; with one name listed the mention is of that name. */
  lemma MentionIffItEnds(name: string, rest: string, spans: seq<Span>)
    requires name != "" && Highlights("@" + name + rest, spans, [name])
    ensures spans != [] && (spans[0].mention <==> EndsThere(rest))
    ensures spans[0].mention ==> spans[0].text == "@" + name
  {
    var s := "@" + name + rest;
    assert s[0] == '@' && s[1..] == name + rest;
    NameStands(name, rest);
    hide Hits, EndsThere;
    var n := spans[0];
    assert SpanOk(s, n, [name]);
    assert n.mention ==> n.text[1..] in [name];
    assert name in [name];
    assert n.text[0] == s[0] && n.text == [n.text[0]] + n.text[1..];
  }

  lemma NameStands(name: string, rest: string)
    ensures Hits(name + rest, name) <==> EndsThere(rest)
  {
    var s := name + rest;
    assert name <= s && s[|name|..] == rest;
    assert rest != "" ==> s[|name|] == rest[0];
  }

  lemma SpanText(s: string, span: Span, names: seq<string>)
    requires SpanOk(s, span, names)
    ensures span.text != "" && span.text <= s
  {
  }

  /** Highlighting keeps the text. */
  lemma {:induction false} HighlightsKeepText(s: string, spans: seq<Span>, names: seq<string>)
    requires Highlights(s, spans, names)
    ensures Concat(Texts(spans)) == s
    decreases |spans|
  {
    hide SpanOk;
    if spans == [] {
    } else {
      var n := |spans[0].text|;
      SpanText(s, spans[0], names);
      HighlightsKeepText(s[n..], spans[1..], names);
      assert Texts(spans) == [spans[0].text] + Texts(spans[1..]);
      ConcatCons(spans[0].text, Texts(spans[1..]));
      assert s[..n] + s[n..] == s;
    }
  }

  lemma {:induction false} CoversSnoc(s: string, spans: seq<Span>, rest: string, span: Span, names: seq<string>)
    requires Covers(s, spans, rest, names) && SpanOk(rest, span, names)
    ensures Covers(s, spans + [span], rest[|span.text|..], names)
    decreases |spans|
  {
    if spans == [] {
      assert [span][1..] == [];
    } else {
      hide SpanOk;
      CoversSnoc(s[|spans[0].text|..], spans[1..], rest, span, names);
      assert (spans + [span])[1..] == spans[1..] + [span];
    }
  }

  lemma SortedIsBest(rest: string, cands: seq<string>)
    ensures match FirstHit(rest, SortByLength(cands))
            case None => forall m :: m in cands ==> !Hits(rest, m)
            case Some(name) => Best(rest, cands, name)
  {
    SortMembers(cands, Longer);
    SortSorts(cands, Longer);
    FirstHitIsBest(rest, SortByLength(cands));
    hide SortBy, FirstHit, Hits, SortedBy;
  }

  lemma MentionSpan(here: string, name: string, names: seq<string>)
    requires here != "" && here[0] == '@' && Best(here[1..], names, name)
    ensures SpanOk(here, Span("@" + name, true), names)
  {
    assert ("@" + name)[1..] == name;
    assert here == "@" + here[1..];
  }

  lemma PlainSpan(here: string, n: nat, names: seq<string>)
    requires 0 < n <= |here| && '@' !in here[1..n] && (n == |here| || here[n] == '@')
    requires here[0] == '@' ==> forall m :: m in names ==> !Hits(here[1..], m)
    ensures SpanOk(here, Span(here[..n], false), names)
  {
    assert here[..n][1..] == here[1..n];
  }

  lemma DropDrop(s: string, i: nat, n: nat)
    requires i + n <= |s|
    ensures s[i..][n..] == s[i + n..]
  {
  }

  lemma SliceOfRest(s: string, i: nat, j: nat)
    requires i < j <= |s|
    ensures s[i..][..j - i] == s[i..j] && s[i..][1..j - i] == s[i + 1..j]
    ensures s[i..][0] == s[i] && s[i..][1..] == s[i + 1..] && (j < |s| ==> s[i..][j - i] == s[j])
  {
  }

  /** The inner loop: the next "@" behind i, or the end. */
  method NextAt(content: string, i: nat) returns (j: nat)
    requires i < |content|
    ensures i < j <= |content| && '@' !in content[i + 1..j] && (j < |content| ==> content[j] == '@')
  {
    j := i + 1;
    while j < |content| && content[j] != '@'
      invariant i < j <= |content|
      invariant '@' !in content[i + 1..j]
    {
      assert content[i + 1..j + 1] == content[i + 1..j] + [content[j]];
      j := j + 1;
    }
  }

  lemma NoCandidates(cands: seq<string>)
    ensures SortByLength(cands) == [] <==> cands == []
  {
    SortMembers(cands, Longer);
    hide SortBy;
    assert cands != [] ==> cands[0] in SortByLength(cands);
    assert SortByLength(cands) != [] ==> SortByLength(cands)[0] in cands;
  }

  /** highlightMentions */
  method HighlightMentions(content: string, names: seq<string>) returns (spans: seq<Span>)
    ensures Candidates(names) == [] || content == "" ==> spans == [Span(content, false)]
    ensures Candidates(names) != [] && content != "" ==> Highlights(content, spans, Candidates(names))
    ensures Concat(Texts(spans)) == content
  {
    hide Covers, SpanOk, Hits, Candidates, SortByLength, FirstHit, Concat, Best, Texts;
    var cands := Candidates(names);
    var sorted := SortByLength(cands);
    NoCandidates(cands);
    if sorted == [] || content == "" {
      spans := [Span(content, false)];
      WholeText(content);
      return;
    }
    spans := [];
    CoversNothing(content, cands);
    var i := 0;
    while i < |content|
      invariant 0 <= i <= |content|
      invariant Covers(content, spans, content[i..], cands)
      decreases |content| - i
    {
      ghost var here := content[i..];
      if content[i] == '@' {
        var rest := content[i + 1..];
        SliceOfRest(content, i, |content|);
        SortedIsBest(rest, cands);
        var hit := FirstHit(rest, sorted);
        if hit.Some? {
          var span := Span("@" + hit.value, true);
          MentionSpan(here, hit.value, cands);
          SpanFits(here, span, cands);
          CoversSnoc(content, spans, here, span, cands);
          DropDrop(content, i, |span.text|);
          spans := spans + [span];
          i := i + 1 + |hit.value|;
          continue;
        }
      }
      var j := NextAt(content, i);
      var span := Span(content[i..j], false);
      SliceOfRest(content, i, j);
      PlainSpan(here, j - i, cands);
      CoversSnoc(content, spans, here, span, cands);
      DropDrop(content, i, j - i);
      spans := spans + [span];
      i := j;
    }
    assert content[i..] == "";
    HighlightsKeepText(content, spans, cands);
  }

  lemma CoversNothing(s: string, names: seq<string>)
    ensures Covers(s, [], s[0..], names)
  {
    assert s[0..] == s;
  }

  lemma SpanFits(here: string, span: Span, names: seq<string>)
    requires SpanOk(here, span, names)
    ensures |span.text| <= |here|
  {
  }

  lemma WholeText(s: string)
    ensures Concat(Texts([Span(s, false)])) == s
  {
    assert Texts([Span(s, false)]) == [s] + [];
    ConcatCons(s, []);
  }

  // ----- editing -----

  /** The caret is in a mention that begins at k: what /(^|[\s])@([^\s@]*)$/ finds. */
  predicate TokenAt(upto: string, k: nat) {
    && k < |upto| && upto[k] == '@' && (k == 0 || IsSpace(upto[k - 1]))
    && forall i :: k < i < |upto| ==> !IsSpace(upto[i]) && upto[i] != '@'
  }

  function TokenStart(upto: string): (r: Option<nat>)
    ensures match r case Some(k) => TokenAt(upto, k) case None => forall k: nat :: !TokenAt(upto, k)
  {
    if upto == "" then None
    else
      var n := |upto| - 1;
      if upto[n] == '@' then if n == 0 || IsSpace(upto[n - 1]) then Some(n) else None
      else if IsSpace(upto[n]) then None
      else
        var r := TokenStart(upto[..n]);
        assert forall k: nat :: TokenAt(upto, k) ==> TokenAt(upto[..n], k);
        r
  }

  function Clamp(cursor: int, n: nat): nat {
    if cursor < 0 then 0 else if cursor > n then n else cursor
  }

  function MentionQueryAt(text: string, cursor: int): Option<string> {
    var upto := text[..Clamp(cursor, |text|)];
    match TokenStart(upto) case None => None case Some(k) => Some(upto[k + 1..])
  }

  lemma TokenIff(before: string, query: string)
    ensures TokenAt(before + "@" + query, |before|)
       <==> (before == "" || IsSpace(before[|before| - 1])) && '@' !in query && forall c :: c in query ==> !IsSpace(c)
  {
    hide IsSpace;
    var s, k := before + "@" + query, |before|;
    assert forall i :: k < i < |s| ==> s[i] == query[i - k - 1];
    assert forall i :: 0 <= i < |query| ==> query[i] == s[k + 1 + i];
    assert before != "" ==> s[k - 1] == before[|before| - 1];
  }

  /** There is one token under the caret, if any. */
  lemma OneToken(upto: string, k: nat)
    ensures TokenStart(upto) == Some(k) <==> TokenAt(upto, k)
  {
    hide IsSpace;
    if TokenAt(upto, k) {
      var r := TokenStart(upto);
      assert r.Some?;
      assert upto[r.value] == '@' && upto[k] == '@';
    }
  }

  /** The query is what stands between the caret and an "@" in front of it, if the "@" begins the
      text or follows white space and neither white space nor another "@" comes in between. */
  lemma QueryIff(text: string, cursor: nat, before: string, query: string)
    requires cursor <= |text| && text[..cursor] == before + "@" + query
    ensures MentionQueryAt(text, cursor) == Some(query)
       <==> (before == "" || IsSpace(before[|before| - 1])) && '@' !in query && forall c :: c in query ==> !IsSpace(c)
  {
    hide IsSpace, TokenStart, TokenAt;
    TokenIff(before, query);
    OneToken(text[..cursor], |before|);
    QueryLength(text, cursor, before, query);
  }

  lemma QueryLength(text: string, cursor: nat, before: string, query: string)
    requires cursor <= |text| && text[..cursor] == before + "@" + query
    ensures MentionQueryAt(text, cursor) == Some(query) <==> TokenStart(text[..cursor]) == Some(|before|)
  {
    hide TokenStart, IsSpace;
    var upto := text[..cursor];
    var r := TokenStart(upto);
    assert upto[|before| + 1..] == query && |upto| == |before| + 1 + |query|;
    assert r.Some? ==> |upto[r.value + 1..]| == |upto| - r.value - 1;
  }

  datatype Edit = Edit(text: string, cursor: nat)

  function ApplyMention(text: string, cursor: int, name: string): Edit {
    var at := Clamp(cursor, |text|);
    var upto := text[..at];
    var insert := "@" + name + " ";
    match TokenStart(upto)
    case None => Edit(text[..at] + insert + text[at..], at + |insert|)
    case Some(start) => Edit(text[..start] + insert + text[at..], start + |insert|)
  }

  /** What the edit keeps, and the token it takes out. */
  lemma EditShape(text: string, cursor: int, name: string) returns (before: string, after: string)
    ensures var e, q := ApplyMention(text, cursor, name), MentionQueryAt(text, cursor);
            && text == before + (if q.Some? then "@" + q.value else "") + after
            && after == text[Clamp(cursor, |text|)..]
            && e == Edit(before + ("@" + name + " ") + after, |before| + |"@" + name + " "|)
            && (q.Some? ==> before == "" || IsSpace(before[|before| - 1]))
  {
    hide TokenStart, IsSpace;
    var at := Clamp(cursor, |text|);
    var upto := text[..at];
    var start := match TokenStart(upto) case None => at case Some(k) => k;
    before, after := text[..start], text[at..];
    if TokenStart(upto).Some? {
      assert upto == before + "@" + upto[start + 1..];
    }
  }

  /** Behind a blank the caret is in no token. */
  lemma NoTokenAfterBlank(text: string, cursor: nat)
    requires 0 < cursor <= |text| && IsSpace(text[cursor - 1])
    ensures MentionQueryAt(text, cursor) == None
  {
    var upto := text[..cursor];
    assert upto[|upto| - 1] == text[cursor - 1];
    assert !IsSpace('@');
    hide TokenStart, IsSpace;
    assert forall k: nat :: !TokenAt(upto, k);
  }

  /** Only the token under the caret is replaced, the caret ends up right after the inserted
      mention, and it is then in no token. */
  lemma MentionReplacesToken(text: string, cursor: int, name: string) returns (before: string, after: string)
    ensures var e, q := ApplyMention(text, cursor, name), MentionQueryAt(text, cursor);
            && text == before + (if q.Some? then "@" + q.value else "") + after
            && after == text[Clamp(cursor, |text|)..]
            && e.text == before + "@" + name + " " + after
            && e.cursor == |before + "@" + name + " "|
            && (q.Some? ==> before == "" || IsSpace(before[|before| - 1]))
            && MentionQueryAt(e.text, e.cursor) == None
  {
    before, after := EditShape(text, cursor, name);
    var e := ApplyMention(text, cursor, name);
    assert IsSpace(' ');
    hide ApplyMention, MentionQueryAt, IsSpace;
    assert before + ("@" + name + " ") == before + "@" + name + " ";
    assert e.text[e.cursor - 1] == ' ';
    NoTokenAfterBlank(e.text, e.cursor);
  }

  /** mentionStillPresent */
  predicate MentionStillPresent(text: string, name: string) {
    Trim(name) != "" && Includes(text, "@" + Trim(name))
  }

  // ----- the editor and the scanner agree -----

  /** Where the k-th span begins. */
  function Offset(spans: seq<Span>, k: nat): nat
    requires k <= |spans|
  {
    if k == 0 then 0 else Offset(spans, k - 1) + |spans[k - 1].text|
  }

  lemma {:induction false} OffsetShift(spans: seq<Span>, k: nat)
    requires 0 < k <= |spans|
    ensures Offset(spans, k) == |spans[0].text| + Offset(spans[1..], k - 1)
  {
    if k > 1 {
      OffsetShift(spans, k - 1);
    }
  }

  /** With names free of "@", a span holds "@" at most at its beginning. */
  lemma SpanHasOneAt(s: string, span: Span, names: seq<string>, p: nat)
    requires SpanOk(s, span, names) && 0 < p < |s| && s[p] == '@'
    requires forall n :: n in names ==> '@' !in n
    ensures |span.text| <= p
  {
    var t := span.text;
    assert '@' !in t[1..];
    assert forall i :: 1 <= i < |t| ==> s[i] == t[i] == t[1..][i - 1];
  }

  /** With names free of "@", every "@" of the text begins a span. */
  lemma {:induction false} SpanAtSign(s: string, spans: seq<Span>, names: seq<string>, p: nat) returns (k: nat)
    requires Highlights(s, spans, names) && p < |s| && s[p] == '@'
    requires forall n :: n in names ==> '@' !in n
    ensures k < |spans| && Offset(spans, k) == p && SpanOk(s[p..], spans[k], names)
    decreases |spans|
  {
    hide SpanOk;
    if p == 0 {
      k := 0;
      assert s[0..] == s;
    } else {
      var n := |spans[0].text|;
      SpanHasOneAt(s, spans[0], names, p);
      k := SpanAtSign(s[n..], spans[1..], names, p - n);
      assert s[n..][p - n..] == s[p..];
      OffsetShift(spans, k + 1);
      k := k + 1;
    }
  }

  lemma CandidatesFreeOfAt(names: seq<string>)
    requires forall n :: n in names ==> '@' !in n
    ensures forall n :: n in Candidates(names) ==> '@' !in n
  {
    forall n | n in Candidates(names)
      ensures '@' !in n
    {
      var m :| m in names && Trim(m) == n;
      var l, r := TrimShape(m);
    }
  }

  /** Where a listed name stands, a right span is a mention that begins with it. */
  lemma HitIsHighlighted(here: string, span: Span, names: seq<string>, name: string)
    requires SpanOk(here, span, names) && here[0] == '@' && name in names && Hits(here[1..], name)
    ensures span.mention && "@" + name <= span.text
  {
    var t := span.text;
    assert |name| <= |t[1..]|;
    assert forall i :: 0 <= i < |name| ==> name[i] == here[1..][i] == here[i + 1] == t[i + 1];
  }

  /** A mention put in by the editor is found by the scanner: among names free of "@", the
      inserted name leads to a highlighted span that begins at the inserted "@" and with it. */
  lemma InsertedMentionIsHighlighted(text: string, cursor: int, name: string, names: seq<string>, spans: seq<Span>)
    returns (k: nat)
    requires Trimmed(name) && name != "" && name in names && forall n :: n in names ==> '@' !in n
    requires Highlights(ApplyMention(text, cursor, name).text, spans, Candidates(names))
    ensures k < |spans| && spans[k].mention && "@" + name <= spans[k].text
    ensures Offset(spans, k) == ApplyMention(text, cursor, name).cursor - |name| - 2
  {
    TrimFixes(name);
    assert name in Candidates(names);
    CandidatesFreeOfAt(names);
    hide Candidates, ApplyMention, Highlights, Trim, SpanOk, Offset, MentionQueryAt, Hits;
    var e := ApplyMention(text, cursor, name);
    var before, after := MentionReplacesToken(text, cursor, name);
    InsertedText(before, name, after);
    var p := |before|;
    k := SpanAtSign(e.text, spans, Candidates(names), p);
    HitIsHighlighted(e.text[p..], spans[k], Candidates(names), name);
  }

  lemma InsertedText(before: string, name: string, after: string)
    ensures var t, p := before + "@" + name + " " + after, |before|;
            && p < |t| && t[p] == t[p..][0] == '@' && Hits(t[p..][1..], name)
            && |before + "@" + name + " "| == p + |name| + 2
  {
    var t, p := before + "@" + name + " " + after, |before|;
    assert t[p..][1..] == name + " " + after;
  }

  lemma MentionText(before: string, name: string, after: string)
    ensures before + "@" + name + " " + after == before + ("@" + name) + (" " + after)
  {
  }

  lemma OccursThere(before: string, s: string, after: string)
    ensures OccursAt(before + s + after, s, |before|)
  {
  }

  /** The page still holds the mention it has just inserted. */
  lemma InsertedMentionIsPresent(text: string, cursor: int, name: string)
    requires Trimmed(name) && name != ""
    ensures MentionStillPresent(ApplyMention(text, cursor, name).text, name)
  {
    hide ApplyMention, Trim, Trimmed, MentionQueryAt, OccursAt;
    var before, after := MentionReplacesToken(text, cursor, name);
    TrimFixes(name);
    var t := ApplyMention(text, cursor, name).text;
    OccursThere(before, "@" + name, " " + after);
    MentionText(before, name, after);
    assert t == before + ("@" + name) + (" " + after);
    assert OccursAt(t, "@" + name, |before|);
  }
}
