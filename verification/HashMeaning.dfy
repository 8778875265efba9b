/** Where hashes lead: the other names of a tab, unknown hashes, and the hashes that the address
    bar keeps as they were typed. */
module HashMeaning {
  import opened Basics
  import opened Text
  import opened HashRoute

  /** The other names of the tabs: `alias` stands for the tab whose own name is `name`. */
  predicate IsAlias(alias: string, tab: Tab, name: string) {
    match tab
    case Kg => alias == "kgraph" && name == "kg"
    case Hooks => alias == "webhooks" && name == "hooks"
    case Chat => alias == "projects" && name == "chat"
    case Apikeys => alias == "api-keys" && name == "apikeys"
    case Tools => alias == "functions" && name == "tools"
    case Agents => alias in ["agent-team", "agent-link", "agent-setting"] && name == "agents"
    case Impexp => alias == "import-export" && name == "impexp"
    case Backup => alias == "backup-restore" && name == "backup"
    case _ => false
  }

  /** The parts of a hash between slashes. */
  function Segments(hash: string): seq<string> {
    SegsOf(BodyOf(Trim(hash)))
  }

  // ----- what a head means -----

  /** The two cases that have no head: a trace link without the slash, and the empty hash. */
  lemma ParseByHead(hash: string, demo: bool)
    ensures Head(hash) != "" ==>
              && Segments(hash) != [] && Head(hash) == Lower(Segments(hash)[0])
              && ParseHash(hash, demo) == ParseSegs(Head(hash), Segments(hash), demo)
    ensures Head(hash) == "" ==>
              var p := ParseHash(hash, demo);
              !p.unknown && (p.rewrite <==> IsShortTrace(hash)) && (IsShortTrace(hash) || Segments(hash) == [])
  {
    TrimIdempotent(hash);
    hide ParseSegs, SerializeHash, TraceIdOf, Trim, SegsOf, Lower;
    var body := BodyOf(Trim(hash));
    assert Segments(hash) != [] ==> Lower(Segments(hash)[0]) != "" by {
      NonEmptyParts(Split(body, '/'));
      hide Split, NonEmpty;
      assert SegsOf(body) == NonEmpty(Split(body, '/')) by { SegsMeans(body); }
    }
  }

  lemma SegsMeans(body: string)
    ensures SegsOf(body) == NonEmpty(Split(body, '/'))
  {
  }

  lemma {:induction false} NonEmptyParts(parts: seq<string>)
    ensures "" !in NonEmpty(parts)
  {
    if parts == [] {
    } else {
      NonEmptyParts(parts[1..]);
    }
  }

  /** A trace link without the slash. */
  predicate IsShortTrace(hash: string) {
    var body := BodyOf(Trim(hash));
    body == "traces" || StartsWith(body, "traces/")
  }

  // ----- aliases -----

  /** An alias has an entry of its own in the table, and the tab is printed by its name. */
  predicate AliasEntry(s: string, tab: Tab, name: string) {
    && PlainName(s) && SegTab(s) == Some(tab) && TabSeg(tab) == name && s != name
    && !OwnCase(s) && s != "functions" && BySegment(tab) && !IsDemoTab(tab)
  }

  lemma OneWordAlias(s: string, tab: Tab, name: string)
    requires IsAlias(s, tab, name) && (tab.Kg? || tab.Hooks? || tab.Chat?)
    ensures AliasEntry(s, tab, name)
  {
  }

  lemma TwoWordAlias(s: string, tab: Tab, name: string)
    requires IsAlias(s, tab, name) && (tab.Apikeys? || tab.Impexp? || tab.Backup?)
    ensures AliasEntry(s, tab, name)
  {
  }

  lemma AgentsAlias(s: string)
    requires IsAlias(s, Agents, "agents")
    ensures AliasEntry(s, Agents, "agents")
  {
  }

  lemma OtherAlias(s: string, tab: Tab, name: string)
    requires IsAlias(s, tab, name) && !tab.Tools?
    ensures AliasEntry(s, tab, name)
  {
    hide AliasEntry;
    if tab.Agents? {
      AgentsAlias(s);
    } else if tab.Apikeys? || tab.Impexp? || tab.Backup? {
      TwoWordAlias(s, tab, name);
    } else {
      OneWordAlias(s, tab, name);
    }
  }

  lemma ToolsAlias(segs: seq<string>, demo: bool)
    requires segs != []
    ensures ParseSegs("functions", segs, demo) == HashParse(Route(Tools, None, None), "#/tools", true, false)
    ensures PlainName("functions")
  {
    hide ParseTab;
  }

  /** The hash of a tab that is printed by its segment. */
  lemma PrintsSegment(tab: Tab, demo: bool)
    requires BySegment(tab) && (IsDemoTab(tab) ==> demo)
    ensures SerializeHash(Route(tab, None, None), demo) == "#/" + TabSeg(tab)
    ensures CanonHead("#/" + TabSeg(tab)) == TabSeg(tab)
  {
    hide TabSeg, SegTab, TraceShaped, IsDemoTab, CanonHead, Lower, BodyOf, SegsOf, Trim;
    SegmentOfTab(tab);
    LowerFixes(TabSeg(tab));
    OneSegment(TabSeg(tab));
  }

  /** A head in the table, past the heads of a case of their own. */
  lemma ParseKnown(head: string, segs: seq<string>, demo: bool, tab: Tab)
    requires segs != [] && !OwnCase(head) && head != "functions"
    requires SegTab(head) == Some(tab) && BySegment(tab) && (IsDemoTab(tab) ==> demo)
    ensures ParseSegs(head, segs, demo)
         == HashParse(Route(tab, None, None), "#/" + TabSeg(tab), |segs| > 1 || head != TabSeg(tab), false)
    ensures TabSeg(tab) != ""
  {
    hide TabSeg, SegTab, IsDemoTab, CanonHead, SerializeHash, ParseSegs, OwnCase, PlainName;
    SegmentOfTab(tab);
    PlainIsNotEmpty(TabSeg(tab));
    PrintsSegment(tab, demo);
    ParseOther(head, segs, demo);
  }

  lemma PlainIsNotEmpty(s: string)
    requires PlainName(s)
    ensures s != ""
  {
  }

  lemma AliasIsPlain(alias: string, tab: Tab, name: string)
    requires IsAlias(alias, tab, name)
    ensures PlainName(alias)
  {
    hide PlainName, SegTab, TabSeg, OwnCase, BySegment, IsDemoTab;
    if tab.Tools? {
      ToolsAlias([""], false);
    } else {
      OtherAlias(alias, tab, name);
    }
  }

  /** Main result on aliases: a hash with an alias for its head leads to the tab meant, has the
      canonical hash of the tab's own name, and is rewritten to it. */
  lemma AliasLeadsToTab(hash: string, demo: bool, tab: Tab, name: string)
    requires IsAlias(Head(hash), tab, name)
    ensures ParseHash(hash, demo) == HashParse(Route(tab, None, None), "#/" + name, true, false)
  {
    hide ParseHash, ParseSegs, TabSeg, SegTab, Head, Segments, IsDemoTab, Lower, PlainName, OwnCase;
    var head := Head(hash);
    AliasIsPlain(head, tab, name);
    PlainIsNotEmpty(head);
    ParseByHead(hash, demo);
    if tab.Tools? {
      ToolsAlias(Segments(hash), demo);
      assert "#/" + "tools" == "#/tools";
    } else {
      OtherAlias(head, tab, name);
      hide IsAlias, BySegment;
      ParseKnown(head, Segments(hash), demo, tab);
    }
  }

  lemma LetterOfPlain(c: char)
    requires 'a' <= LowerChar(c) <= 'z' || LowerChar(c) == '-'
    ensures c != '/' && !IsSpace(c)
  {
  }

  lemma LettersOfName(a: string)
    requires PlainName(Lower(a))
    ensures a != "" && '/' !in a && !IsSpace(a[|a| - 1])
  {
    hide IsSpace;
    forall i | 0 <= i < |a| ensures a[i] != '/' && !IsSpace(a[i]) {
      assert LowerChar(a[i]) == Lower(a)[i];
      LetterOfPlain(a[i]);
    }
  }

  /** A name in any letter case. */
  lemma HeadOfName(a: string)
    requires PlainName(Lower(a))
    ensures Head("#/" + a) == Lower(a) && Segments("#/" + a) == [a]
  {
    hide Lower, PlainName, IsSpace, Trim, BodyOf, SegsOf, NonEmpty, Split, CanonHead;
    LettersOfName(a);
    PrintedText(a);
    SlashSegs(a);
    OneName(a);
    SlashIsNoTrace(a);
  }

  lemma SlashIsNoTrace(rest: string)
    ensures "/" + rest != "traces" && !StartsWith("/" + rest, "traces/")
  {
    assert ("/" + rest)[0] == '/' && "traces"[0] == 't' && "traces/"[0] == 't';
  }

  /** The same on the text of the hash. */
  lemma AliasInAnyCase(typed: string, demo: bool, tab: Tab, name: string)
    requires IsAlias(Lower(typed), tab, name)
    ensures ParseHash("#/" + typed, demo) == HashParse(Route(tab, None, None), "#/" + name, true, false)
  {
    hide Lower, PlainName, Head, Segments, ParseHash, IsAlias;
    AliasIsPlain(Lower(typed), tab, name);
    HeadOfName(typed);
    AliasLeadsToTab("#/" + typed, demo, tab, name);
  }

  /** A tab's own name, in any letter case, leads to the tab, and stays as it is typed. */
  lemma NameInAnyCase(typed: string, demo: bool, tab: Tab)
    requires BySegment(tab) && (IsDemoTab(tab) ==> demo) && Lower(typed) == TabSeg(tab)
    ensures ParseHash("#/" + typed, demo)
         == HashParse(Route(tab, None, None), "#/" + TabSeg(tab), false, false)
  {
    hide Lower, PlainName, Head, Segments, ParseHash, ParseSegs, TabSeg, SegTab, IsDemoTab, BySegment, OwnCase;
    SegmentOfTab(tab);
    PlainIsNotEmpty(TabSeg(tab));
    HeadOfName(typed);
    ParseByHead("#/" + typed, demo);
    ParseKnown(TabSeg(tab), [typed], demo, tab);
  }

  predicate EntryKnown(s: string) {
    SegTab(s).Some? && !OwnCase(s) && !InheritedName(s) ==>
      var tab := SegTab(s).value;
      s == TabSeg(tab) || IsAlias(s, tab, TabSeg(tab))
      || (s == "functions" && tab == Tools)
  }

  lemma EntriesOfA(s: string)
    requires s == "" || s[0] < 'b'
    ensures EntryKnown(s)
  {
  }

  lemma EntriesOfBAndC(s: string)
    requires s != "" && 'b' <= s[0] < 'd'
    ensures EntryKnown(s)
  {
  }

  lemma EntriesOfDToG(s: string)
    requires s != "" && 'd' <= s[0] < 'h'
    ensures EntryKnown(s)
  {
  }

  lemma EntriesOfHToL(s: string)
    requires s != "" && 'h' <= s[0] < 'm'
    ensures EntryKnown(s)
  {
  }

  lemma EntriesOfMToO(s: string)
    requires s != "" && 'm' <= s[0] < 'p'
    ensures EntryKnown(s)
  {
  }

  lemma EntriesOfPToS(s: string)
    requires s != "" && 'p' <= s[0] < 't'
    ensures EntryKnown(s)
  {
  }

  lemma EntriesOfTToZ(s: string)
    requires s != "" && 't' <= s[0]
    ensures EntryKnown(s)
  {
  }

  /** The table holds the names of the tabs, the aliases and the two inherited names, and nothing
      else. */
  lemma TableHolds(s: string)
    requires SegTab(s).Some? && !OwnCase(s) && !InheritedName(s)
    ensures s == TabSeg(SegTab(s).value) || IsAlias(s, SegTab(s).value, TabSeg(SegTab(s).value))
  {
    hide SegTab, TabSeg, InheritedName, OwnCase, IsAlias;
    if s == "" || s[0] < 'b' {
      EntriesOfA(s);
    } else if s[0] < 'd' {
      EntriesOfBAndC(s);
    } else if s[0] < 'h' {
      EntriesOfDToG(s);
    } else if s[0] < 'm' {
      EntriesOfHToL(s);
    } else if s[0] < 'p' {
      EntriesOfMToO(s);
    } else if s[0] < 't' {
      EntriesOfPToS(s);
    } else {
      EntriesOfTToZ(s);
    }
    if s == "functions" {
      FunctionsAlias();
    }
  }

  lemma FunctionsAlias()
    ensures IsAlias("functions", Tools, TabSeg(Tools)) && SegTab("functions") == Some(Tools)
  {
  }

  // ----- unknown hashes -----

  lemma OwnEntries()
    ensures SegTab("overview") == Some(Crm) && SegTab("config") == Some(Settings) && SegTab("traces") == Some(Traces)
    ensures SegTab("functions") == Some(Tools)
    ensures !IsDemoTab(Crm) && !IsDemoTab(Settings) && !IsDemoTab(Traces) && !IsDemoTab(Tools)
  {
  }

  lemma UnknownByHead(head: string, segs: seq<string>, demo: bool)
    requires segs != []
    ensures var p := ParseSegs(head, segs, demo);
            && (p.unknown <==> || SegTab(head).None? || (IsDemoTab(SegTab(head).value) && !demo)
                               || (head == "overview" && |segs| > 1))
            && (p.unknown ==> p == HashParse(OVERVIEW, "#/overview", true, true))
  {
    OwnEntries();
    OverviewPrints(demo);
    hide SegTab, IsDemoTab, SerializeHash, CanonHead, SettingsPageOf, TraceIdOf, Lower;
  }

  lemma OverviewPrints(demo: bool)
    ensures SerializeHash(OVERVIEW, demo) == "#/overview"
  {
  }

  /** A hash is unknown if and only if it has a head that is no segment, or that stands for a tab
      of the demo outside of it, or that is the overview with more segments behind it. It then leads
      to the overview. */
  lemma UnknownIff(hash: string, demo: bool)
    ensures var p, head := ParseHash(hash, demo), Head(hash);
            && (p.unknown <==> head != "" && (|| SegTab(head).None? || (IsDemoTab(SegTab(head).value) && !demo)
                                              || (head == "overview" && |Segments(hash)| > 1)))
            && (p.unknown ==> p == HashParse(OVERVIEW, "#/overview", true, true))
  {
    hide ParseHash, ParseSegs, Head, Segments, SegTab, IsDemoTab, IsShortTrace;
    ParseByHead(hash, demo);
    if Head(hash) != "" {
      UnknownByHead(Head(hash), Segments(hash), demo);
    }
  }

  // ----- hashes that stay as they are typed -----

  /** The segments typed are the canonical ones: the head and the page up to letter case, and the
      trace id up to white space around it. */
  predicate SameSegments(typed: seq<string>, canonical: seq<string>) {
    && |typed| == |canonical| && typed != []
    && Lower(typed[0]) == canonical[0]
    && (|typed| > 1 ==> (if canonical[0] == "traces" then Trim(typed[1]) else Lower(typed[1])) == canonical[1])
  }

  lemma SegmentsOfOne(a: string)
    requires TraceShaped(a)
    ensures Segments("#/" + a) == [a]
  {
    OneSegment(a);
    hide Trim, BodyOf, SegsOf, TraceShaped;
  }

  lemma SegmentsOfTwo(a: string, b: string)
    requires TraceShaped(a) && TraceShaped(b)
    ensures Segments("#/" + a + "/" + b) == [a, b]
  {
    TwoSegments(a, b);
    hide Trim, BodyOf, SegsOf, TraceShaped;
  }

  lemma OverviewSegments()
    ensures Segments("#/overview") == ["overview"]
  {
    hide TraceShaped, Segments, Lower;
    FixedNames();
    SegmentsOfOne("overview");
    assert "#/" + "overview" == "#/overview";
  }

  lemma PageOfName(s: string)
    ensures SettingsPageOf(s).Some? ==> PageName(SettingsPageOf(s).value) == s
  {
  }

  predicate KeptIff(p: HashParse, segs: seq<string>) {
    p.rewrite <==> !SameSegments(segs, Segments(p.canonical))
  }

  lemma ConfigKept(segs: seq<string>, demo: bool)
    requires segs != [] && Lower(segs[0]) == "config"
    ensures KeptIff(ParseConfig(segs, demo), segs)
  {
    hide SerializeHash, SettingsPageOf, Lower, Trim, PageName, TraceShaped, Segments;
    FixedNames();
    SegmentsOfOne("config");
    PrintsSettings(demo, DEFAULT_SETTINGS_PAGE);
    if |segs| > 1 {
      PageOfName(Lower(segs[1]));
      var page := SettingsPageOf(Lower(segs[1]));
      if page.Some? {
        PrintsSettings(demo, page.value);
        NameOfPage(page.value);
        LowerFixes(PageName(page.value));
        SegmentsOfTwo("config", PageName(page.value));
      }
    }
  }

  lemma TracesKept(segs: seq<string>, demo: bool)
    requires segs != [] && Lower(segs[0]) == "traces"
    ensures KeptIff(ParseTraces(segs, demo), segs)
  {
    hide SerializeHash, Lower, Trim, TraceShaped, Segments;
    FixedNames();
    SegmentsOfOne("traces");
    PrintsTrace(demo, None);
    if |segs| > 1 && TraceIdOf(segs[1]).Some? {
      var id := TraceIdOf(segs[1]);
      NoSlash(id.value);
      PrintsTrace(demo, id);
      SegmentsOfTwo("traces", id.value);
    }
  }

  lemma KnownKept(head: string, segs: seq<string>, demo: bool, tab: Tab)
    requires segs != [] && head == Lower(segs[0]) && !OwnCase(head) && head != "functions"
    requires SegTab(head) == Some(tab) && BySegment(tab) && (IsDemoTab(tab) ==> demo)
    ensures KeptIff(ParseSegs(head, segs, demo), segs)
  {
    hide SegTab, TabSeg, ParseSegs, Lower, Trim, TraceShaped, Segments, IsDemoTab, OwnCase;
    ParseKnown(head, segs, demo, tab);
    SegmentOfTab(tab);
    LowerFixes(TabSeg(tab));
    SegmentsOfOne(TabSeg(tab));
    hide PlainName, BySegment;
  }

  lemma OverviewKept(head: string, segs: seq<string>, demo: bool)
    requires segs != [] && head == Lower(segs[0])
    requires || head == "overview" || head == "functions" || SegTab(head).None?
             || (!OwnCase(head) && ((IsDemoTab(SegTab(head).value) && !demo) || InheritedName(head)))
    ensures KeptIff(ParseSegs(head, segs, demo), segs)
  {
    OwnEntries();
    hide SegTab, Lower, Trim, TraceShaped, Segments, SerializeHash, CanonHead;
    OverviewPrints(demo);
    OverviewSegments();
    if head == "functions" {
      ToolsAlias(segs, demo);
      ToolsSegments();
    } else if InheritedName(head) {
      InheritedSegment(head);
      InheritedHash(head, demo);
    }
  }

  lemma ToolsSegments()
    ensures Segments("#/tools") == ["tools"]
  {
    hide TraceShaped, Segments, Lower;
    LowerFixes("tools");
    SegmentsOfOne("tools");
    assert "#/" + "tools" == "#/tools";
  }

  /** Main result on rewriting: a hash with a head stays as it is typed if and only if its segments
      are those of its canonical hash, but for letter case and white space around a trace id. A trace
      link without the slash is always rewritten, and the empty hash never. */
  lemma RewriteIff(hash: string, demo: bool)
    ensures var p := ParseHash(hash, demo);
            p.rewrite <==> IsShortTrace(hash)
                           || (Segments(hash) != [] && !SameSegments(Segments(hash), Segments(p.canonical)))
  {
    hide ParseHash, ParseSegs, Head, Segments, SegTab, IsDemoTab, IsShortTrace, SameSegments, Lower, OwnCase;
    ParseByHead(hash, demo);
    var head, segs := Head(hash), Segments(hash);
    if head != "" {
      HeadIsLong(hash);
      SegsKept(head, segs, demo);
    }
  }

  lemma HeadIsLong(hash: string)
    requires Head(hash) != ""
    ensures !IsShortTrace(hash)
  {
    TrimIdempotent(hash);
    hide Trim, SegsOf, Lower;
  }

  lemma SegsKept(head: string, segs: seq<string>, demo: bool)
    requires segs != [] && head == Lower(segs[0])
    ensures KeptIff(ParseSegs(head, segs, demo), segs)
  {
    hide ParseConfig, ParseTraces, SegTab, KeptIff, Lower, IsDemoTab, InheritedName;
    ParseFixed(segs, demo);
    if head == "config" {
      ConfigKept(segs, demo);
    } else if head == "traces" {
      TracesKept(segs, demo);
    } else if head == "overview" || head == "functions" || SegTab(head).None? {
      OverviewKept(head, segs, demo);
    } else {
      TabOfSegment(head);
      if InheritedName(head) || (IsDemoTab(SegTab(head).value) && !demo) {
        OverviewKept(head, segs, demo);
      } else {
        KnownKept(head, segs, demo, SegTab(head).value);
      }
    }
  }

  // ----- trace links without the slash -----

  lemma {:induction false} TrimAfter(p: string, s: string)
    requires p != "" && !IsSpace(p[0]) && !IsSpace(p[|p| - 1])
    ensures Trim(p + s) == p + TrimEnd(s)
    decreases |s|
  {
    var t := p + s;
    assert TrimStart(t) == t;
    if s == "" {
      assert t == p;
    } else {
      assert t[|t| - 1] == s[|s| - 1];
      var init := s[..|s| - 1];
      assert t[..|t| - 1] == p + init;
      if IsSpace(s[|s| - 1]) {
        TrimAfter(p, init);
      }
    }
  }

  lemma ShortTexts(t: string)
    ensures BodyOf("#traces/" + t) == BodyOf(Trim("#traces/" + t)) || Trim("#traces/" + t) != "#traces/" + t
    ensures Trim("#traces/" + t) == "#traces/" + t ==> BodyOf("#traces/" + t) == "traces/" + t
    ensures StartsWith("traces/" + t, "traces/")
    ensures ("traces/" + t)[6..] == "/" + t && StartsWith("/" + t, "/") && ("/" + t)[1..] == t
  {
    hide Trim;
    var raw := "#traces/" + t;
    assert raw[0] == '#' && raw[1..] == "traces/" + t;
  }

  lemma ShortLink(id: string, demo: bool)
    ensures var p := ParseHash("#traces/" + id, demo);
            p.route == Route(Traces, None, TraceIdOf(TrimEnd(id))) && p.rewrite && !p.unknown
  {
    assert !IsSpace('#') && !IsSpace('/');
    hide IsSpace, TrimEnd, TrimStart, TraceIdOf, SerializeHash, Trim, BodyOf, StartsWith, SegsOf, ParseSegs, Lower;
    TrimAfter("#traces/", id);
    TrimIdempotent("#traces/" + id);
    ShortTexts(TrimEnd(id));
  }

  lemma LongTexts(rest: string)
    requires Trim("#/" + rest) == "#/" + rest
    ensures BodyOf("#/" + rest) == "/" + rest
  {
    hide Trim;
    assert ("#/" + rest)[0] == '#' && ("#/" + rest)[1..] == "/" + rest;
  }

  lemma LongSegs(t: string)
    ensures SegsOf("/" + ("traces/" + t)) == ["traces"] + SegsOf(t)
  {
    assert '/' !in "traces";
    hide Split, NonEmpty;
    SlashSegs("traces/" + t);
    SplitFirst("traces", t, '/');
    assert "traces" + ['/'] + t == "traces/" + t;
    NonEmptyCons("traces", Split(t, '/'));
  }

  lemma LinkTrims(id: string)
    ensures Trim("#/" + ("traces/" + id)) == "#/" + ("traces/" + TrimEnd(id))
  {
    var p := "#/traces/";
    assert p[0] == '#' && p[|p| - 1] == '/' && !IsSpace('#') && !IsSpace('/');
    assert p == "#/" + "traces/";
    hide IsSpace, TrimEnd, Trim;
    TrimAfter(p, id);
    Assoc("#/", "traces/", id);
    Assoc("#/", "traces/", TrimEnd(id));
  }

  lemma LongBody(id: string)
    ensures BodyOf(Trim("#/" + ("traces/" + id))) == "/" + ("traces/" + TrimEnd(id))
  {
    hide TrimEnd, Trim, BodyOf;
    LinkTrims(id);
    TrimIdempotent("#/" + ("traces/" + id));
    LongTexts("traces/" + TrimEnd(id));
  }

  lemma HeadOfBody(hash: string, rest: string, segs: seq<string>)
    requires BodyOf(Trim(hash)) == "/" + rest && SegsOf("/" + rest) == segs && segs != []
    ensures Segments(hash) == segs && Head(hash) == Lower(segs[0])
  {
    hide BodyOf, Trim, SegsOf, Lower;
    SlashIsNoTrace(rest);
  }

  lemma LinkText(id: string)
    ensures "#/traces/" + id == "#/" + ("traces/" + id)
  {
    assert "#/" + "traces/" == "#/traces/";
    Assoc("#/", "traces/", id);
  }

  lemma LongHead(id: string)
    ensures Segments("#/traces/" + id) == ["traces"] + SegsOf(TrimEnd(id))
    ensures Head("#/traces/" + id) == "traces"
  {
    hide TrimEnd, Trim, BodyOf, SegsOf, Lower, TraceShaped, Segments, Head;
    LinkText(id);
    LongBody(id);
    LongSegs(TrimEnd(id));
    HeadOfBody("#/" + ("traces/" + id), "traces/" + TrimEnd(id), ["traces"] + SegsOf(TrimEnd(id)));
    FixedNames();
  }

  lemma LongLink(id: string, demo: bool)
    ensures var parts := SegsOf(TrimEnd(id));
            ParseHash("#/traces/" + id, demo).route
            == Route(Traces, None, if parts == [] then None else TraceIdOf(parts[0]))
  {
    hide TrimEnd, TraceIdOf, SerializeHash, SegsOf, ParseSegs, ParseHash, Segments, Head;
    LongHead(id);
    ParseByHead("#/traces/" + id, demo);
    ParseFixed(["traces"] + SegsOf(TrimEnd(id)), demo);
  }

  lemma SlashIsInside(left: string, s: string, right: string)
    requires Blank(left) && Blank(right)
    ensures '/' in left + s + right <==> '/' in s
  {
    assert !IsSpace('/');
    hide IsSpace;
    assert '/' !in left && '/' !in right;
  }

  lemma SlashIsNoId(t: string)
    requires '/' in t
    ensures TraceIdOf(t) == None
  {
    hide Trim, Blank, TraceShaped;
    var l, r := TrimShape(t);
    SlashIsInside(l, Trim(t), r);
    if TraceShaped(Trim(t)) {
      NoSlash(Trim(t));
    }
  }

  lemma NoSlashParts(t: string)
    requires '/' !in t
    ensures SegsOf(t) == if t == "" then [] else [t]
    ensures TraceIdOf("") == None
  {
    SplitFirst(t, "", '/');
    hide Split;
    NonEmptyCons(t, []);
    assert [t] + [] == [t] && Trim("") == "";
  }

  lemma SlashStays(id: string)
    ensures '/' in id <==> '/' in TrimEnd(id)
  {
    hide TrimEnd, Blank;
    TrimEndShape(id);
    var t := TrimEnd(id);
    assert Blank("") by { NothingIsBlank(); }
    SlashIsInside("", t, id[|t|..]);
    assert id == "" + t + id[|t|..];
  }

  lemma NothingIsBlank()
    ensures Blank("")
  {
  }

  /** A trace link without the slash leads where the one with the slash leads, unless the id holds
      a slash and begins with something that is shaped like an id. */
  lemma ShortLinkMeans(id: string, demo: bool)
    ensures var parts := SegsOf(TrimEnd(id));
            ParseHash("#traces/" + id, demo).route == ParseHash("#/traces/" + id, demo).route
            <==> '/' !in id || parts == [] || TraceIdOf(parts[0]) == None
  {
    hide ParseHash, TraceIdOf, SegsOf, TrimEnd;
    ShortLink(id, demo);
    LongLink(id, demo);
    SlashStays(id);
    var t := TrimEnd(id);
    if '/' in t {
      SlashIsNoId(t);
    } else {
      NoSlashParts(t);
    }
  }

  /** Such a link. */
  lemma ShortLinkExample(demo: bool)
    ensures ParseHash("#traces/" + "a/b", demo).route == Route(Traces, None, None)
    ensures ParseHash("#/traces/" + "a/b", demo).route == Route(Traces, None, Some("a"))
  {
    TrimFixes("a/b");
    assert TrimEnd("a/b") == "a/b" && "a/b" == "a" + "/" + "b";
    hide ParseHash, TraceIdOf, TrimEnd, SegsOf, Trim, TraceShaped;
    ShortLink("a/b", demo);
    LongLink("a/b", demo);
    SlashIsNoId("a/b");
    assert SegsOf("a/b") == ["a", "b"] by { TwoNames("a", "b"); SegsMeans("a/b"); }
    assert TraceShaped("a") by { LowerFixes("a"); }
    NoSlash("a");
  }
}
