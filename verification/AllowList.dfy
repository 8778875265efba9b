/** The allow list of a channel as text: parseAllowFrom and formatAllowFrom of channel-ops.ts. */
module AllowList {
  import opened Basics
  import opened Text

  /** [\s,] */
  predicate IsSep(c: char) {
    IsSpace(c) || c == ','
  }

  predicate NoSep(s: string) {
    forall i :: 0 <= i < |s| ==> !IsSep(s[i])
  }

  /** The longest beginning without a separator. */
  function Word(s: string): (w: string)
    ensures w <= s && NoSep(w) && (|w| < |s| ==> IsSep(s[|w|]))
  {
    if s == "" || IsSep(s[0]) then "" else [s[0]] + Word(s[1..])
  }

  function SkipSeps(s: string): (r: string)
    ensures |r| <= |s| && r == s[|s| - |r|..] && (r != "" ==> !IsSep(r[0]))
    ensures forall i :: 0 <= i < |s| - |r| ==> IsSep(s[i])
  {
    if s != "" && IsSep(s[0]) then SkipSeps(s[1..]) else s
  }

  /** raw.split(/[\s,]+/): separators in a row count as one; one at an end leaves an empty part. */
  function Parts(s: string): seq<string>
    decreases |s|
  {
    var w := Word(s);
    if |w| == |s| then [w] else [w] + Parts(SkipSeps(s[|w|..]))
  }

  /** Of equal parts the first, and no empty ones. */
  function Ids(parts: seq<string>): seq<string> {
    if parts == [] then []
    else
      var rest, id := Ids(parts[..|parts| - 1]), Trim(parts[|parts| - 1]);
      if id == "" || id in rest then rest else rest + [id]
  }

  method ParseAllowFrom(raw: string) returns (ids: seq<string>)
    ensures ids == Ids(Parts(raw))
  {
    var seen: set<string> := {};
    ids := [];
    var parts := Parts(raw);
    for i := 0 to |parts|
      invariant ids == Ids(parts[..i])
      invariant forall id :: id in seen <==> id in ids
    {
      assert parts[..i + 1][..i] == parts[..i];
      var id := Trim(parts[i]);
      if id == "" || id in seen {
        continue;
      }
      seen := seen + {id};
      ids := ids + [id];
    }
    assert parts[..|parts|] == parts;
  }

  function NotBlank(ids: seq<string>): seq<string> {
    if ids == [] then []
    else if Trim(ids[0]) != "" then [ids[0]] + NotBlank(ids[1..])
    else NotBlank(ids[1..])
  }

  function FormatAllowFrom(ids: seq<string>): string {
    Join(NotBlank(ids), "\n")
  }

  // ----- what is parsed -----

  /** The text from i to j is a word of s: no separators in it, and none missing around it. */
  predicate WordOf(s: string, i: nat, j: nat) {
    && i < j <= |s| && (forall k :: i <= k < j ==> !SepAt(s, k))
    && (i == 0 || SepAt(s, i - 1)) && (j == |s| || SepAt(s, j))
  }

  predicate SepAt(s: string, k: int) {
    0 <= k < |s| && IsSep(s[k])
  }

  ghost predicate HasWord(s: string, id: string) {
    exists i, j :: 0 <= i < j <= |s| && WordOf(s, i, j) && s[i..j] == id
  }

  /** A list that the text form can carry. */
  ghost predicate Plain(ids: seq<string>) {
    Distinct(ids) && forall i :: 0 <= i < |ids| ==> ids[i] != "" && NoSep(ids[i])
  }

  lemma NoSepTrims(s: string)
    requires NoSep(s)
    ensures Trim(s) == s
  {
    assert s != "" ==> !IsSep(s[0]) && !IsSep(s[|s| - 1]);
    TrimFixes(s);
  }

  lemma {:induction false} PartsHaveNoSep(s: string)
    ensures forall k :: 0 <= k < |Parts(s)| ==> NoSep(Parts(s)[k])
    decreases |s|
  {
    var w := Word(s);
    if |w| < |s| {
      PartsHaveNoSep(SkipSeps(s[|w|..]));
      hide NoSep;
    }
  }

  lemma {:induction false} IdsMeaning(parts: seq<string>)
    requires forall k :: 0 <= k < |parts| ==> NoSep(parts[k])
    ensures Plain(Ids(parts))
    ensures forall id :: id in Ids(parts) <==> id != "" && id in parts
  {
    if parts == [] {
    } else {
      var init, last := parts[..|parts| - 1], parts[|parts| - 1];
      IdsMeaning(init);
      NoSepTrims(last);
      assert parts == init + [last];
      hide NoSep;
    }
  }

  /** More text only adds ids, at the end; so each stands where it was met first. */
  lemma {:induction false} IdsGrow(parts: seq<string>, i: nat)
    requires i <= |parts|
    ensures Ids(parts[..i]) <= Ids(parts)
  {
    if i < |parts| {
      var init := parts[..|parts| - 1];
      IdsGrow(init, i);
      assert init[..i] == parts[..i];
    } else {
      assert parts[..i] == parts;
    }
  }

  /** The non-empty parts are the words of the text, all of them. */
  lemma {:induction false} PartsAreWords(s: string, id: string)
    requires id != ""
    ensures id in Parts(s) <==> HasWord(s, id)
    decreases |s|
  {
    var w := Word(s);
    if |w| < |s| {
      var rest := SkipSeps(s[|w|..]);
      var n := |s| - |rest|;
      assert rest == s[n..];
      PartsAreWords(rest, id);
      WordsOfRest(s, n, id);
    } else if id == w {
      assert s[0..|s|] == s && WordOf(s, 0, |s|);
    }
  }

  lemma WordsOfRest(s: string, n: nat, id: string)
    requires id != ""
    requires |Word(s)| < n <= |s| && forall i :: |Word(s)| <= i < n ==> IsSep(s[i])
    ensures HasWord(s, id) <==> id == Word(s) || HasWord(s[n..], id)
  {
    hide Word, IsSep;
    var w, rest := Word(s), s[n..];
    assert SepAt(s, n - 1);
    if id == w {
      assert s[0..|w|] == w && forall k :: 0 <= k < |w| ==> s[k] == w[k] && !SepAt(s, k);
      assert WordOf(s, 0, |w|);
    }
    if HasWord(rest, id) {
      var i, j :| 0 <= i < j <= |rest| && WordOf(rest, i, j) && rest[i..j] == id;
      Shifted(s, n, n + i, n + j);
    }
    if HasWord(s, id) {
      var i, j :| 0 <= i < j <= |s| && WordOf(s, i, j) && s[i..j] == id;
      if i >= n {
        Shifted(s, n, i, j);
      } else {
        FirstWord(s, i, j, n);
      }
    }
  }

  lemma Shifted(s: string, n: nat, i: nat, j: nat)
    requires 0 < n <= i < j <= |s| && SepAt(s, n - 1)
    ensures WordOf(s[n..], i - n, j - n) <==> WordOf(s, i, j)
    ensures s[n..][i - n..j - n] == s[i..j]
  {
    var rest := s[n..];
    assert forall k :: 0 <= k ==> SepAt(rest, k) == SepAt(s, n + k);
    assert forall k :: n <= k ==> SepAt(s, k) == SepAt(rest, k - n);
    hide SepAt;
  }

  lemma FirstWord(s: string, i: nat, j: nat, n: nat)
    requires WordOf(s, i, j) && i < n <= |s| && forall k :: |Word(s)| <= k < n ==> IsSep(s[k])
    ensures s[i..j] == Word(s)
  {
    var w := Word(s);
    assert forall k :: 0 <= k < |w| ==> w[k] == s[k] && !SepAt(s, k);
    assert |w| < |s| ==> SepAt(s, |w|);
    assert forall k :: |w| <= k < n ==> SepAt(s, k);
    hide Word, SepAt;
    assert !SepAt(s, i) && i < |w|;
    assert i > 0 ==> SepAt(s, i - 1);
    assert |w| < j ==> !SepAt(s, |w|);
  }

  /** What parseAllowFrom finds: the words of the text, each once, none empty, without white
      space and commas. */
  lemma ParsedIds(raw: string)
    ensures Plain(Ids(Parts(raw)))
    ensures forall id :: id in Ids(Parts(raw)) <==> id != "" && HasWord(raw, id)
  {
    PartsHaveNoSep(raw);
    IdsMeaning(Parts(raw));
    forall id | id != ""
      ensures id in Parts(raw) <==> HasWord(raw, id)
    {
      PartsAreWords(raw, id);
    }
  }

  // ----- writing and reading -----

  lemma {:induction false} PartsOfJoin(ids: seq<string>)
    requires ids != [] && forall i :: 0 <= i < |ids| ==> ids[i] != "" && NoSep(ids[i])
    ensures Parts(Join(ids, "\n")) == ids
  {
    hide Parts, Join, NoSep, IsSep;
    var w, rest := ids[0], ids[1..];
    assert ids == [w] + rest;
    JoinCons(w, rest);
    if rest == [] {
      OnePart(w);
    } else {
      PartsOfJoin(rest);
      JoinStarts(rest);
      PartsCons(w, Join(rest, "\n"));
    }
  }

  lemma JoinCons(w: string, rest: seq<string>)
    ensures Join([w] + rest, "\n") == if rest == [] then w else w + "\n" + Join(rest, "\n")
  {
    assert ([w] + rest)[1..] == rest;
  }

  lemma OnePart(w: string)
    requires NoSep(w)
    ensures Parts(w) == [w]
  {
    WordStops(w, "");
    assert w + "" == w;
  }

  lemma PartsCons(w: string, rest: string)
    requires NoSep(w) && rest != "" && !IsSep(rest[0])
    ensures Parts(w + "\n" + rest) == [w] + Parts(rest)
  {
    var tail := "\n" + rest;
    Assoc(w, "\n", rest);
    WordStops(w, tail);
    assert (w + tail)[|w|..] == tail;
    assert tail[1..] == rest;
    assert SkipSeps(tail) == rest;
  }

  lemma {:induction false} WordStops(w: string, rest: string)
    requires NoSep(w) && (rest != "" ==> IsSep(rest[0]))
    ensures Word(w + rest) == w
  {
    if w == "" {
      assert w + rest == rest;
    } else {
      WordStops(w[1..], rest);
      assert (w + rest)[1..] == w[1..] + rest;
    }
  }

  lemma JoinStarts(ids: seq<string>)
    requires ids != [] && forall i :: 0 <= i < |ids| ==> ids[i] != "" && NoSep(ids[i])
    ensures var s := Join(ids, "\n"); s != "" && !IsSep(s[0])
  {
    assert ids[0] != "" && !IsSep(ids[0][0]);
  }

  lemma {:induction false} PlainIdsStay(ids: seq<string>)
    requires Plain(ids)
    ensures Ids(ids) == ids
  {
    if ids == [] {
    } else {
      var init, last := ids[..|ids| - 1], ids[|ids| - 1];
      PlainIdsStay(init);
      NoSepTrims(last);
      assert ids == init + [last];
      assert last !in init;
    }
  }

  lemma {:induction false} PlainIsNotBlank(ids: seq<string>)
    requires forall i :: 0 <= i < |ids| ==> ids[i] != "" && NoSep(ids[i])
    ensures NotBlank(ids) == ids
  {
    if ids == [] {
    } else {
      NoSepTrims(ids[0]);
      PlainIsNotBlank(ids[1..]);
    }
  }

  /** A list comes back from its text exactly when its entries are distinct, not empty, and
      free of white space and commas. */
  lemma WrittenAndRead(ids: seq<string>)
    ensures Ids(Parts(FormatAllowFrom(ids))) == ids <==> Plain(ids)
  {
    ParsedIds(FormatAllowFrom(ids));
    if Plain(ids) {
      PlainIsNotBlank(ids);
      PlainIdsStay(ids);
      if ids != [] {
        PartsOfJoin(ids);
      } else {
        assert Parts("") == [""];
        assert Ids([""]) == [];
      }
    }
  }

  /** Whatever was typed: what is read from it survives being written and read again. */
  lemma ParseFormatParse(raw: string)
    ensures var ids := Ids(Parts(raw)); Ids(Parts(FormatAllowFrom(ids))) == ids
  {
    ParsedIds(raw);
    WrittenAndRead(Ids(Parts(raw)));
  }

  /** No id of any text holds a comma or white space. */
  lemma IdsHoldNoSeparator(raw: string, id: string)
    requires id in Ids(Parts(raw))
    ensures id != "" && ',' !in id && forall c :: c in id ==> !IsSpace(c)
  {
    ParsedIds(raw);
    hide IsSpace;
    var i :| 0 <= i < |Ids(Parts(raw))| && Ids(Parts(raw))[i] == id;
    assert NoSep(id) && id != "";
    assert forall c :: c in id ==> !IsSep(c);
  }
}
