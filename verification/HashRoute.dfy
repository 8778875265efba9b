/** The hash router of hash-route.ts: a parser with aliases, a printer, and their agreement. */
module HashRoute {
  import opened Basics
  import opened Text

  /** The tabs. `Inherited` stands for what a lookup of "constructor" or "__proto__" in the
      segment table finds on Object.prototype: neither undefined nor a tab. */
  datatype Tab =
    | Home | Tasks | Meetings | Crm | Agents | Sessions | Chat | Friends | Calendar | Gallery | Marketing
    | Heatmap | Connectors | Functions | Skills | Tools | Mcp | Cron | Decision | DecisionFlow | Hooks
    | Events | Activity | Logs | Tenants | Apikeys | Packages | Approvals | Impexp | Teams | Vault | Memory
    | Kg | Storage | Providers | Channels | Webhooks | Traces | Pending | Contacts | Nodes | Workstations
    | Tts | Backup | Settings
    | Inherited(name: string)

  datatype SettingsPage =
    | Account | Users | Roles | Nicks | Quotas | Templates | Billing | Gateway | Backup | Pairing | Theme

  datatype Route = Route(tab: Tab, settingsPage: Option<SettingsPage>, traceId: Option<string>)

  datatype HashParse = HashParse(route: Route, canonical: string, rewrite: bool, unknown: bool)

  const DEFAULT_SETTINGS_PAGE := Gateway

  predicate IsDemoTab(tab: Tab) {
    tab.Home? || tab.Tasks? || tab.Friends? || tab.Calendar? || tab.Gallery?
  }

  // ----- the two segment tables -----

  /** TAB_SEG, with "" for no entry. */
  function TabSeg(tab: Tab): string {
    match tab
    case Crm => "overview"
    case Heatmap => "heatmap"
    case Chat => "chat"
    case Agents => "agents"
    case Teams => "teams"
    case Sessions => "sessions"
    case Pending => "pending"
    case Contacts => "contacts"
    case Marketing => "marketing"
    case Channels => "channels"
    case Nodes => "nodes"
    case Workstations => "workstations"
    case Skills => "skills"
    case Tools => "tools"
    case Mcp => "mcp"
    case Tts => "tts"
    case Cron => "cron"
    case Decision => "decision"
    case DecisionFlow => "decision-flow"
    case Hooks => "hooks"
    case Webhooks => "webhooks"
    case Connectors => "connectors"
    case Memory => "memory"
    case Vault => "vault"
    case Kg => "kg"
    case Storage => "storage"
    case Traces => "traces"
    case Events => "events"
    case Activity => "activity"
    case Logs => "logs"
    case Tenants => "tenants"
    case Providers => "providers"
    case Apikeys => "apikeys"
    case Packages => "packages"
    case Settings => "config"
    case Approvals => "approvals"
    case Impexp => "impexp"
    case Backup => "backup"
    case Home => "home"
    case Tasks => "tasks"
    case Meetings => "meetings"
    case Friends => "friends"
    case Calendar => "calendar"
    case Gallery => "gallery"
    case Functions => ""
    case Inherited(_) => ""
  }

  /** SEG_TAB as a JavaScript object sees it, its entries grouped by their first letter. */
  function SegTab(s: string): Option<Tab> {
    if s == "" then None
    else match s[0]
      case '_' =>
        if s == "__proto__" then Some(Inherited(s))
        else None
      case 'a' =>
        if s == "agents" then Some(Agents)
        else if s == "apikeys" then Some(Apikeys)
        else if s == "api-keys" then Some(Apikeys)
        else if s == "activity" then Some(Activity)
        else if s == "approvals" then Some(Approvals)
        else if s == "agent-team" then Some(Agents)
        else if s == "agent-link" then Some(Agents)
        else if s == "agent-setting" then Some(Agents)
        else None
      case 'b' =>
        if s == "backup" then Some(Tab.Backup)
        else if s == "backup-restore" then Some(Tab.Backup)
        else None
      case 'c' =>
        if s == "chat" then Some(Chat)
        else if s == "cron" then Some(Cron)
        else if s == "config" then Some(Settings)
        else if s == "contacts" then Some(Contacts)
        else if s == "channels" then Some(Channels)
        else if s == "calendar" then Some(Calendar)
        else if s == "connectors" then Some(Connectors)
        else if s == "constructor" then Some(Inherited(s))
        else None
      case 'd' =>
        if s == "decision" then Some(Decision)
        else if s == "decision-flow" then Some(DecisionFlow)
        else None
      case 'e' =>
        if s == "events" then Some(Events)
        else None
      case 'f' =>
        if s == "friends" then Some(Friends)
        else if s == "functions" then Some(Tools)
        else None
      case 'g' =>
        if s == "gallery" then Some(Gallery)
        else None
      case 'h' =>
        if s == "home" then Some(Home)
        else if s == "hooks" then Some(Hooks)
        else if s == "heatmap" then Some(Heatmap)
        else None
      case 'i' =>
        if s == "impexp" then Some(Impexp)
        else if s == "import-export" then Some(Impexp)
        else None
      case 'k' =>
        if s == "kg" then Some(Kg)
        else if s == "kgraph" then Some(Kg)
        else None
      case 'l' =>
        if s == "logs" then Some(Logs)
        else None
      case 'm' =>
        if s == "mcp" then Some(Mcp)
        else if s == "memory" then Some(Memory)
        else if s == "meetings" then Some(Meetings)
        else if s == "marketing" then Some(Marketing)
        else None
      case 'n' =>
        if s == "nodes" then Some(Nodes)
        else None
      case 'o' =>
        if s == "overview" then Some(Crm)
        else None
      case 'p' =>
        if s == "pending" then Some(Pending)
        else if s == "projects" then Some(Chat)
        else if s == "packages" then Some(Packages)
        else if s == "providers" then Some(Providers)
        else None
      case 's' =>
        if s == "skills" then Some(Skills)
        else if s == "storage" then Some(Storage)
        else if s == "sessions" then Some(Sessions)
        else None
      case 't' =>
        if s == "tts" then Some(Tts)
        else if s == "teams" then Some(Teams)
        else if s == "tools" then Some(Tools)
        else if s == "tasks" then Some(Tasks)
        else if s == "traces" then Some(Traces)
        else if s == "tenants" then Some(Tenants)
        else None
      case 'v' =>
        if s == "vault" then Some(Vault)
        else None
      case 'w' =>
        if s == "webhooks" then Some(Hooks)
        else if s == "workstations" then Some(Workstations)
        else None
      case _ => None
  }

  /** The lower-case names that every object inherits. */
  predicate InheritedName(s: string) {
    s == "constructor" || s == "__proto__"
  }

  function PageName(page: SettingsPage): string {
    match page
    case Account => "account"
    case Users => "users"
    case Roles => "roles"
    case Nicks => "nicks"
    case Quotas => "quotas"
    case Templates => "templates"
    case Billing => "billing"
    case Gateway => "gateway"
    case Backup => "backup"
    case Pairing => "pairing"
    case Theme => "theme"
  }

  function SettingsPageOf(s: string): Option<SettingsPage> {
    if s == "account" then Some(Account)
    else if s == "users" then Some(Users)
    else if s == "roles" then Some(Roles)
    else if s == "nicks" then Some(Nicks)
    else if s == "quotas" then Some(Quotas)
    else if s == "templates" then Some(Templates)
    else if s == "billing" then Some(Billing)
    else if s == "gateway" then Some(Gateway)
    else if s == "backup" then Some(SettingsPage.Backup)
    else if s == "pairing" then Some(Pairing)
    else if s == "theme" then Some(Theme)
    else None
  }

  // ----- printing -----

  /** The characters of a trace id, which include those of every segment name. */
  predicate TraceChar(c: char) {
    'A' <= c <= 'Z' || 'a' <= c <= 'z' || '0' <= c <= '9' || c == '_' || c == '-'
  }

  predicate TraceShaped(s: string) {
    s != "" && forall i :: 0 <= i < |s| ==> TraceChar(s[i])
  }

  function TraceIdOf(raw: string): Option<string> {
    var v := Trim(raw);
    if TraceShaped(v) then Some(v) else None
  }

  function SerializeHash(route: Route, demo: bool): string {
    var tab := if route.tab == Functions then Tools else route.tab;
    if IsDemoTab(tab) && !demo then "#/overview"
    else if tab == Crm then "#/overview"
    else if tab == Settings then
      if route.settingsPage.Some? && route.settingsPage.value != DEFAULT_SETTINGS_PAGE
      then "#/config/" + PageName(route.settingsPage.value) else "#/config"
    else if tab == Traces then
      var id := if route.traceId.Some? then TraceIdOf(route.traceId.value) else None;
      if id.Some? then "#/traces/" + id.value else "#/traces"
    else if TabSeg(tab) == "" then "#/overview"
    else "#/" + TabSeg(tab)
  }

  // ----- parsing -----

  function BodyOf(hash: string): string {
    var s := Trim(hash);
    if StartsWith(s, "#") then s[1..] else s
  }

  function NonEmpty(parts: seq<string>): seq<string> {
    if parts == [] then [] else (if parts[0] == "" then [] else [parts[0]]) + NonEmpty(parts[1..])
  }

  /** The non-empty parts between slashes. */
  function SegsOf(body: string): seq<string> {
    NonEmpty(Split(body, '/'))
  }

  function Parsed(route: Route, demo: bool, rewrite: bool, unknown: bool): HashParse {
    HashParse(route, SerializeHash(route, demo), rewrite, unknown)
  }

  const OVERVIEW := Route(Crm, None, None)

  function ParseHash(hash: string, demo: bool): HashParse {
    var raw := Trim(hash);
    var body := BodyOf(raw);
    if body == "traces" || StartsWith(body, "traces/") then
      var tail := body[6..];
      var id := TraceIdOf(if StartsWith(tail, "/") then tail[1..] else tail);
      Parsed(Route(Traces, None, id), demo, true, false)
    else
      var segs := SegsOf(body);
      if segs == [] then
        HashParse(OVERVIEW, if raw == "#/" then "#/" else if raw == "#" || raw == "" then "" else "#/", false, false)
      else ParseSegs(Lower(segs[0]), segs, demo)
  }

  function ParseSegs(head: string, segs: seq<string>, demo: bool): HashParse
    requires segs != []
  {
    if head == "overview" then Parsed(OVERVIEW, demo, |segs| > 1, |segs| > 1)
    else if head == "config" then ParseConfig(segs, demo)
    else if head == "traces" then ParseTraces(segs, demo)
    else if head == "functions" then Parsed(Route(Tools, None, None), demo, true, false)
    else ParseTab(head, segs, demo)
  }

  function ParseConfig(segs: seq<string>, demo: bool): HashParse {
    if |segs| <= 1 then Parsed(Route(Settings, Some(DEFAULT_SETTINGS_PAGE), None), demo, false, false)
    else
      var page := SettingsPageOf(Lower(segs[1]));
      if page.None? then Parsed(Route(Settings, Some(DEFAULT_SETTINGS_PAGE), None), demo, true, false)
      else if |segs| > 2 then Parsed(Route(Settings, page, None), demo, true, false)
      else Parsed(Route(Settings, page, None), demo, page.value == DEFAULT_SETTINGS_PAGE, false)
  }

  function ParseTraces(segs: seq<string>, demo: bool): HashParse {
    var id := if |segs| > 1 then TraceIdOf(segs[1]) else None;
    Parsed(Route(Traces, None, id), demo, |segs| > 2 || (|segs| > 1 && id.None?), false)
  }

  function ParseTab(head: string, segs: seq<string>, demo: bool): HashParse {
    var tab := SegTab(head);
    if tab.None? then Parsed(OVERVIEW, demo, true, true)
    else if IsDemoTab(tab.value) && !demo then Parsed(OVERVIEW, demo, true, true)
    else
      var out := Parsed(Route(tab.value, None, None), demo, |segs| > 1, false);
      var canonHead := CanonHead(out.canonical);
      if canonHead != "" && canonHead != head then out.(rewrite := true) else out
  }

  /** canonical.replace(/^#\//, "").split("/")[0] */
  function CanonHead(canonical: string): string {
    Split(if StartsWith(canonical, "#/") then canonical[2..] else canonical, '/')[0]
  }

  // ----- text lemmas -----

  lemma {:induction false} SplitFirst(a: string, b: string, sep: char)
    requires sep !in a
    ensures Split(a, sep) == [a]
    ensures Split(a + [sep] + b, sep) == [a] + Split(b, sep)
  {
    var s := a + [sep] + b;
    if a == "" {
      assert s[0] == sep && s[1..] == b;
    } else {
      SplitFirst(a[1..], b, sep);
      assert s[0] == a[0] && s[1..] == a[1..] + [sep] + b;
      assert [a[0]] + a[1..] == a;
    }
  }

  lemma NoSlash(s: string)
    requires TraceShaped(s)
    ensures '/' !in s && Trim(s) == s && TraceIdOf(s) == Some(s)
  {
    assert forall c :: c in s ==> TraceChar(c);
    assert Trimmed(s);
    TrimFixes(s);
  }

  lemma NonEmptyCons(x: string, rest: seq<string>)
    ensures NonEmpty([x] + rest) == if x == "" then NonEmpty(rest) else [x] + NonEmpty(rest)
  {
    assert ([x] + rest)[1..] == rest;
  }

  /** A printed hash is trimmed, and its body begins with the slash. */
  lemma PrintedText(rest: string)
    requires rest != "" && !IsSpace(rest[|rest| - 1])
    ensures Trim("#/" + rest) == "#/" + rest && BodyOf("#/" + rest) == "/" + rest
  {
    var h := "#/" + rest;
    assert Trimmed(h);
    TrimFixes(h);
    assert h[1..] == "/" + rest;
  }

  lemma SlashSegs(rest: string)
    ensures SegsOf("/" + rest) == NonEmpty(Split(rest, '/'))
  {
    SplitFirst("", rest, '/');
    assert "" + ['/'] + rest == "/" + rest;
    hide Split, NonEmpty;
    NonEmptyCons("", Split(rest, '/'));
  }

  lemma OneName(a: string)
    requires a != "" && '/' !in a
    ensures NonEmpty(Split(a, '/')) == [a] && CanonHead("#/" + a) == a
  {
    SplitFirst(a, "", '/');
    assert ("#/" + a)[2..] == a;
    hide Split;
    NonEmptyCons(a, []);
    assert [a] + [] == [a] && NonEmpty([]) == [];
  }

  /** The shape of the printed hashes: trimmed, with a body of one segment or two. */
  lemma OneSegment(a: string)
    requires TraceShaped(a)
    ensures Trim("#/" + a) == "#/" + a && BodyOf("#/" + a) == "/" + a
    ensures SegsOf("/" + a) == [a] && CanonHead("#/" + a) == a
  {
    NoSlash(a);
    assert !IsSpace(a[|a| - 1]);
    hide TraceShaped, Trim, BodyOf, SegsOf, CanonHead, NonEmpty, Split, IsSpace;
    PrintedText(a);
    SlashSegs(a);
    OneName(a);
  }

  lemma TwoNames(a: string, b: string)
    requires a != "" && b != "" && '/' !in a && '/' !in b
    ensures NonEmpty(Split(a + "/" + b, '/')) == [a, b]
  {
    assert a + ['/'] + b == a + "/" + b;
    SplitFirst(a, b, '/');
    OneName(b);
    hide Split, NonEmpty;
    NonEmptyCons(a, Split(b, '/'));
  }

  lemma TwoSegments(a: string, b: string)
    requires TraceShaped(a) && TraceShaped(b)
    ensures var h := "#/" + a + "/" + b;
            Trim(h) == h && BodyOf(h) == "/" + a + "/" + b && SegsOf("/" + a + "/" + b) == [a, b]
  {
    NoSlash(a);
    NoSlash(b);
    var rest := a + "/" + b;
    assert rest[|rest| - 1] == b[|b| - 1] && !IsSpace(b[|b| - 1]);
    hide TraceShaped, Trim, BodyOf, SegsOf, NonEmpty, Split, IsSpace;
    PrintedText(rest);
    SlashSegs(rest);
    TwoNames(a, b);
    assert "#/" + a + "/" + b == "#/" + rest && "/" + a + "/" + b == "/" + rest;
  }

  lemma LowerFixes(s: string)
    requires forall i :: 0 <= i < |s| ==> 'a' <= s[i] <= 'z' || s[i] == '-'
    ensures Lower(s) == s && (s != "" ==> TraceShaped(s))
  {
  }

  // ----- the tables agree -----

  predicate PlainName(s: string) {
    s != "" && forall i :: 0 <= i < |s| ==> 'a' <= s[i] <= 'z' || s[i] == '-'
  }

  /** The segments that parseHash treats apart and prints again. */
  predicate OwnCase(s: string) {
    s == "overview" || s == "config" || s == "traces"
  }

  /** Tabs that are printed by their segment alone. */
  predicate BySegment(tab: Tab) {
    !tab.Crm? && !tab.Settings? && !tab.Traces? && !tab.Functions? && !tab.Webhooks? && !tab.Inherited?
  }

  /** The segment of a tab leads back to the tab, past the segments of a case of their own. */
  predicate ReadsBack(tab: Tab) {
    && PlainName(TabSeg(tab)) && SegTab(TabSeg(tab)) == Some(tab)
    && !OwnCase(TabSeg(tab)) && TabSeg(tab) != "functions"
  }

  lemma ActivityToApprovalsSegments(tab: Tab)
    requires tab.Activity? || tab.Agents? || tab.Apikeys? || tab.Approvals?
    ensures ReadsBack(tab)
  {
  }

  lemma BackupToChatSegments(tab: Tab)
    requires tab.Backup? || tab.Calendar? || tab.Channels? || tab.Chat?
    ensures ReadsBack(tab)
  {
  }

  lemma ConnectorsToDecisionSegments(tab: Tab)
    requires tab.Connectors? || tab.Contacts? || tab.Cron? || tab.Decision?
    ensures ReadsBack(tab)
  {
  }

  lemma DecisionFlowToGallerySegments(tab: Tab)
    requires tab.DecisionFlow? || tab.Events? || tab.Friends? || tab.Gallery?
    ensures ReadsBack(tab)
  {
  }

  lemma HeatmapToImpexpSegments(tab: Tab)
    requires tab.Heatmap? || tab.Home? || tab.Hooks? || tab.Impexp?
    ensures ReadsBack(tab)
  {
  }

  lemma KgToMcpSegments(tab: Tab)
    requires tab.Kg? || tab.Logs? || tab.Marketing? || tab.Mcp?
    ensures ReadsBack(tab)
  {
  }

  lemma MeetingsToPackagesSegments(tab: Tab)
    requires tab.Meetings? || tab.Memory? || tab.Nodes? || tab.Packages?
    ensures ReadsBack(tab)
  {
  }

  lemma PendingToSkillsSegments(tab: Tab)
    requires tab.Pending? || tab.Providers? || tab.Sessions? || tab.Skills?
    ensures ReadsBack(tab)
  {
  }

  lemma StorageToTenantsSegments(tab: Tab)
    requires tab.Storage? || tab.Tasks? || tab.Teams? || tab.Tenants?
    ensures ReadsBack(tab)
  {
  }

  lemma ToolsToWorkstationsSegments(tab: Tab)
    requires tab.Tools? || tab.Tts? || tab.Vault? || tab.Workstations?
    ensures ReadsBack(tab)
  {
  }

  /** The tables invert each other on the tabs printed by a segment. */
  lemma SegmentOfTab(tab: Tab)
    requires BySegment(tab)
    ensures PlainName(TabSeg(tab)) && SegTab(TabSeg(tab)) == Some(tab)
    ensures !OwnCase(TabSeg(tab)) && TabSeg(tab) != "functions"
  {
    hide TabSeg, SegTab, PlainName, OwnCase;
    match tab
    case Activity | Agents | Apikeys | Approvals => ActivityToApprovalsSegments(tab);
    case Backup | Calendar | Channels | Chat => BackupToChatSegments(tab);
    case Connectors | Contacts | Cron | Decision => ConnectorsToDecisionSegments(tab);
    case DecisionFlow | Events | Friends | Gallery => DecisionFlowToGallerySegments(tab);
    case Heatmap | Home | Hooks | Impexp => HeatmapToImpexpSegments(tab);
    case Kg | Logs | Marketing | Mcp => KgToMcpSegments(tab);
    case Meetings | Memory | Nodes | Packages => MeetingsToPackagesSegments(tab);
    case Pending | Providers | Sessions | Skills => PendingToSkillsSegments(tab);
    case Storage | Tasks | Teams | Tenants => StorageToTenantsSegments(tab);
    case Tools | Tts | Vault | Workstations => ToolsToWorkstationsSegments(tab);
  }

  lemma NameOfPage(page: SettingsPage)
    ensures PlainName(PageName(page)) && SettingsPageOf(PageName(page)) == Some(page)
  {
  }

  predicate OwnTab(s: string) {
    SegTab(s).Some? && !OwnCase(s) ==>
      BySegment(SegTab(s).value) || (SegTab(s).value == Inherited(s) && InheritedName(s))
  }

  lemma TabOfEarlyName(s: string)
    requires s == "" || s[0] < 'd'
    ensures OwnTab(s)
  {
  }

  lemma TabOfMiddleName(s: string)
    requires s != "" && 'd' <= s[0] < 'p'
    ensures OwnTab(s)
  {
  }

  lemma TabOfLateName(s: string)
    requires s != "" && 'p' <= s[0]
    ensures OwnTab(s)
  {
  }

  lemma InheritedSegment(s: string)
    requires InheritedName(s)
    ensures SegTab(s) == Some(Inherited(s))
  {
  }

  /** A segment that is no case of its own stands for a tab printed by a segment, or is one of
      the two names every object inherits. */
  lemma TabOfSegment(s: string)
    requires !OwnCase(s) && SegTab(s).Some?
    ensures BySegment(SegTab(s).value) || SegTab(s).value == Inherited(s)
    ensures SegTab(s).value.Inherited? <==> InheritedName(s)
  {
    hide SegTab, InheritedName;
    if InheritedName(s) {
      InheritedSegment(s);
    }
    if s == "" || s[0] < 'd' {
      TabOfEarlyName(s);
    } else if s[0] < 'p' {
      TabOfMiddleName(s);
    } else {
      TabOfLateName(s);
    }
    hide OwnCase, BySegment;
  }

  // ----- main results -----

  /** The routes that have a hash of their own. */
  predicate Normal(route: Route, demo: bool) {
    && !route.tab.Functions? && !route.tab.Webhooks? && !route.tab.Inherited?
    && (IsDemoTab(route.tab) ==> demo)
    && (route.settingsPage.Some? <==> route.tab == Settings)
    && (route.traceId.Some? ==> route.tab == Traces && TraceShaped(route.traceId.value))
  }

  /** What parsing a printed hash of one segment comes to. */
  lemma ParseOne(a: string, demo: bool)
    requires TraceShaped(a)
    ensures ParseHash("#/" + a, demo) == ParseSegs(Lower(a), [a], demo)
  {
    OneSegment(a);
    hide ParseSegs, SegTab, TraceShaped, SegsOf;
  }

  lemma ParseTwo(a: string, b: string, demo: bool)
    requires TraceShaped(a) && TraceShaped(b)
    ensures ParseHash("#/" + a + "/" + b, demo) == ParseSegs(Lower(a), [a, b], demo)
  {
    TwoSegments(a, b);
    hide ParseSegs, SegTab, TraceShaped, SegsOf;
  }

  lemma FixedNames()
    ensures TraceShaped("overview") && Lower("overview") == "overview"
    ensures TraceShaped("config") && Lower("config") == "config"
    ensures TraceShaped("traces") && Lower("traces") == "traces"
  {
    hide TraceShaped, Lower;
    LowerFixes("overview");
    LowerFixes("config");
    LowerFixes("traces");
  }

  /** Heads of a case of their own. */
  lemma ParseFixed(segs: seq<string>, demo: bool)
    requires segs != []
    ensures ParseSegs("overview", segs, demo) == Parsed(OVERVIEW, demo, |segs| > 1, |segs| > 1)
    ensures ParseSegs("config", segs, demo) == ParseConfig(segs, demo)
    ensures ParseSegs("traces", segs, demo) == ParseTraces(segs, demo)
  {
    hide ParseConfig, ParseTraces, ParseTab, Parsed;
  }

  /** The printed forms. */
  lemma PrintsSettings(demo: bool, page: SettingsPage)
    ensures SerializeHash(Route(Settings, Some(page), None), demo)
         == if page == DEFAULT_SETTINGS_PAGE then "#/" + "config" else "#/" + "config" + "/" + PageName(page)
  {
    assert !IsDemoTab(Settings);
    hide PageName, TraceIdOf, TabSeg, IsDemoTab;
    assert "#/config" == "#/" + "config" && "#/config/" == "#/" + "config" + "/";
  }

  lemma PrintsTrace(demo: bool, id: Option<string>)
    requires id.Some? ==> TraceIdOf(id.value) == id
    ensures SerializeHash(Route(Traces, None, id), demo)
         == if id.None? then "#/" + "traces" else "#/" + "traces" + "/" + id.value
  {
    assert !IsDemoTab(Traces);
    hide PageName, TraceIdOf, TabSeg, IsDemoTab;
    assert "#/traces" == "#/" + "traces" && "#/traces/" == "#/" + "traces" + "/";
  }

  lemma PrintedSettings(page: SettingsPage, demo: bool)
    ensures var route := Route(Settings, Some(page), None);
            ParseHash(SerializeHash(route, demo), demo) == HashParse(route, SerializeHash(route, demo), false, false)
  {
    hide SerializeHash, PageName, ParseHash, ParseSegs, SettingsPageOf, TraceShaped, Lower;
    PrintsSettings(demo, page);
    FixedNames();
    NameOfPage(page);
    LowerFixes(PageName(page));
    if page == DEFAULT_SETTINGS_PAGE {
      ParseOne("config", demo);
      ParseFixed(["config"], demo);
    } else {
      ParseTwo("config", PageName(page), demo);
      ParseFixed(["config", PageName(page)], demo);
    }
  }

  lemma PrintedTrace(id: Option<string>, demo: bool)
    requires id.Some? ==> TraceShaped(id.value)
    ensures var route := Route(Traces, None, id);
            ParseHash(SerializeHash(route, demo), demo) == HashParse(route, SerializeHash(route, demo), false, false)
  {
    hide SerializeHash, ParseHash, ParseSegs, TraceIdOf, TraceShaped, Lower;
    FixedNames();
    if id.None? {
      PrintsTrace(demo, id);
      ParseOne("traces", demo);
      ParseFixed(["traces"], demo);
    } else {
      NoSlash(id.value);
      PrintsTrace(demo, id);
      ParseTwo("traces", id.value, demo);
      ParseFixed(["traces", id.value], demo);
    }
  }

  lemma ParseOther(head: string, segs: seq<string>, demo: bool)
    requires segs != [] && !OwnCase(head) && head != "functions"
    ensures ParseSegs(head, segs, demo) == ParseTab(head, segs, demo)
  {
    hide ParseConfig, ParseTraces, ParseTab;
  }

  lemma PrintedSegment(tab: Tab, demo: bool)
    requires BySegment(tab) && (IsDemoTab(tab) ==> demo)
    ensures var route := Route(tab, None, None);
            ParseHash(SerializeHash(route, demo), demo) == HashParse(route, SerializeHash(route, demo), false, false)
  {
    hide SegTab, TabSeg, ParseHash, ParseSegs, TraceShaped, Lower, CanonHead, IsDemoTab;
    var seg := TabSeg(tab);
    SegmentOfTab(tab);
    LowerFixes(seg);
    ParseOne(seg, demo);
    OneSegment(seg);
    ParseOther(seg, [seg], demo);
    assert SerializeHash(Route(tab, None, None), demo) == "#/" + seg;
  }

  lemma PrintedOverview(demo: bool)
    ensures ParseHash("#/overview", demo) == HashParse(OVERVIEW, "#/overview", false, false)
  {
    hide ParseHash, ParseSegs, TraceShaped, Lower;
    FixedNames();
    ParseOne("overview", demo);
    ParseFixed(["overview"], demo);
    assert "#/" + "overview" == "#/overview";
  }

  /** Reading back a normal route gives the route, the same hash, and nothing to rewrite. */
  lemma ReadBack(route: Route, demo: bool)
    requires Normal(route, demo)
    ensures ParseHash(SerializeHash(route, demo), demo) == HashParse(route, SerializeHash(route, demo), false, false)
  {
    hide TabSeg, ParseHash, TraceIdOf, TraceShaped, PageName;
    match route.tab
    case Settings => PrintedSettings(route.settingsPage.value, demo);
    case Traces => PrintedTrace(route.traceId, demo);
    case Crm => PrintedOverview(demo);
    case _ => PrintedSegment(route.tab, demo);
  }

  /** What parsing yields: a normal route with its printed hash, or, for the empty hash, the
      overview with the hash as typed, or a name every object inherits. */
  ghost predicate Outcome(p: HashParse, demo: bool) {
    || (Normal(p.route, demo) && p.canonical == SerializeHash(p.route, demo))
    || p == HashParse(OVERVIEW, "", false, false) || p == HashParse(OVERVIEW, "#/", false, false)
    || (p.route.tab.Inherited? && p.canonical == "#/overview" && p.rewrite && !p.unknown)
  }

  /** The head that the segment table is asked for, if it is. */
  function Head(hash: string): string {
    var body := BodyOf(Trim(hash));
    if body == "traces" || StartsWith(body, "traces/") || SegsOf(body) == [] then "" else Lower(SegsOf(body)[0])
  }

  lemma ConfigOutcome(segs: seq<string>, demo: bool)
    ensures Outcome(ParseConfig(segs, demo), demo) && !ParseConfig(segs, demo).route.tab.Inherited?
  {
    assert !IsDemoTab(Settings);
    hide IsDemoTab, SerializeHash, SettingsPageOf, Lower, TraceShaped;
  }

  lemma TracesOutcome(segs: seq<string>, demo: bool, id: Option<string>)
    requires id.Some? ==> TraceShaped(id.value)
    ensures forall rewrite, unknown ::
              Outcome(Parsed(Route(Traces, None, id), demo, rewrite, unknown), demo)
  {
    assert !IsDemoTab(Traces);
    hide IsDemoTab, SerializeHash, TraceShaped;
  }

  lemma FixedOutcome(head: string, segs: seq<string>, demo: bool)
    requires segs != [] && (OwnCase(head) || head == "functions")
    ensures Outcome(ParseSegs(head, segs, demo), demo) && !ParseSegs(head, segs, demo).route.tab.Inherited?
  {
    assert !IsDemoTab(Crm) && !IsDemoTab(Tools);
    if head == "config" {
      ConfigOutcome(segs, demo);
      hide ParseConfig;
    } else if head == "traces" {
      TracesOutcome(segs, demo, if |segs| > 1 then TraceIdOf(segs[1]) else None);
    }
    hide IsDemoTab, SerializeHash, Lower, TraceShaped, ParseTab, ParseConfig;
  }

  lemma TabOutcome(head: string, segs: seq<string>, demo: bool)
    requires segs != [] && !OwnCase(head)
    ensures Outcome(ParseTab(head, segs, demo), demo)
    ensures ParseTab(head, segs, demo).route.tab.Inherited? <==> InheritedName(head)
  {
    InheritedIsOwn(head);
    hide SegTab, CanonHead, InheritedName, SerializeHash, OwnCase, TabSeg;
    assert SegTab(head).Some? && SegTab(head).value.Inherited? ==> !IsDemoTab(SegTab(head).value);
    hide IsDemoTab;
    if SegTab(head).Some? {
      TabOfSegment(head);
      if SegTab(head).value.Inherited? {
        InheritedHash(SegTab(head).value.name, demo);
        InheritedIsNotOverview(head);
      }
    }
  }

  lemma InheritedIsNotOverview(head: string)
    requires !OwnCase(head)
    ensures head != "overview"
  {
  }

  lemma SegsOutcome(head: string, segs: seq<string>, demo: bool)
    requires segs != []
    ensures Outcome(ParseSegs(head, segs, demo), demo)
    ensures ParseSegs(head, segs, demo).route.tab.Inherited? <==> InheritedName(head)
  {
    InheritedIsOwn(head);
    hide Outcome, ParseSegs, InheritedName;
    if OwnCase(head) || head == "functions" {
      FixedOutcome(head, segs, demo);
    } else {
      ParseOther(head, segs, demo);
      TabOutcome(head, segs, demo);
    }
  }

  lemma InheritedIsOwn(head: string)
    ensures InheritedName(head) ==> !OwnCase(head) && head != "functions" && SegTab(head).Some?
  {
  }

  lemma InheritedHash(name: string, demo: bool)
    ensures SerializeHash(Route(Inherited(name), None, None), demo) == "#/overview"
    ensures CanonHead("#/overview") == "overview"
  {
    InheritedPrints(Route(Inherited(name), None, None), demo);
    hide CanonHead, TraceShaped, Lower, BodyOf, SegsOf, Trim, SerializeHash;
    FixedNames();
    OneSegment("overview");
    assert "#/" + "overview" == "#/overview";
  }

  lemma HashOutcome(hash: string, demo: bool)
    ensures Outcome(ParseHash(hash, demo), demo)
    ensures ParseHash(hash, demo).route.tab.Inherited? <==> InheritedName(Head(hash))
  {
    assert !InheritedName("");
    hide ParseSegs, SegsOf, Lower, TraceShaped, Trim, SerializeHash, InheritedName;
    var body := BodyOf(Trim(hash));
    if !(body == "traces" || StartsWith(body, "traces/")) && SegsOf(body) != [] {
      SegsOutcome(Lower(SegsOf(body)[0]), SegsOf(body), demo);
    }
  }

  lemma EmptyHash(demo: bool)
    ensures ParseHash("", demo) == HashParse(OVERVIEW, "", false, false)
  {
  }

  lemma SlashHash(demo: bool)
    ensures ParseHash("#/", demo) == HashParse(OVERVIEW, "#/", false, false)
  {
    SlashText();
    hide Trim, NonEmpty, ParseSegs;
  }

  lemma SlashText()
    ensures Trim("#/") == "#/" && BodyOf("#/") == "/" && SegsOf("/") == []
  {
    assert Trim("#/") == "#/" by { TrimFixes("#/"); }
    assert "#/"[1..] == "/";
    SplitFirst("", "", '/');
    assert "" + ['/'] + "" == "/";
    assert NonEmpty(["", ""]) == [] by { assert ["", ""][1..] == [""] && [""][1..] == []; }
    assert [""] + [""] == ["", ""];
  }

  /** Canonicalisation is a fixed point: parsing the canonical hash gives the same route and the
      same canonical hash, with nothing to rewrite, exactly when the head of the hash is not a
      name that every object inherits. */
  lemma CanonicalFixedPoint(hash: string, demo: bool)
    ensures var p := ParseHash(hash, demo); var q := ParseHash(p.canonical, demo);
            && q.canonical == p.canonical && !q.rewrite && !q.unknown
            && (q.route == p.route <==> !InheritedName(Head(hash)))
  {
    hide ParseHash, SerializeHash, Normal, Head, InheritedName;
    var p := ParseHash(hash, demo);
    HashOutcome(hash, demo);
    EmptyHash(demo);
    SlashHash(demo);
    PrintedOverview(demo);
    if Normal(p.route, demo) && p.canonical == SerializeHash(p.route, demo) {
      NormalIsATab(p.route, demo);
      ReadBack(p.route, demo);
    }
  }

  /** Such a hash parses to no tab, and its canonical hash to the overview. */
  lemma InheritedParse(name: string, demo: bool)
    requires InheritedName(name) && TraceShaped(name) && Lower(name) == name
    ensures var p := ParseHash("#/" + name, demo);
            && Head("#/" + name) == name
            && p.route == Route(Inherited(name), None, None) && p.canonical == "#/overview"
            && ParseHash(p.canonical, demo).route == OVERVIEW
  {
    hide SegTab, TraceShaped, SerializeHash, Trim, IsDemoTab, CanonHead, InheritedName, OwnCase, ParseSegs, ParseHash;
    hide Lower, Head;
    InheritedIsOwn(name);
    InheritedSegment(name);
    InheritedIsNoDemo(name);
    InheritedHash(name, demo);
    PrintedOverview(demo);
    OneSegment(name);
    ParseOne(name, demo);
    ParseOther(name, [name], demo);
    HeadOfOne(name);
  }

  lemma HeadOfOne(a: string)
    requires TraceShaped(a)
    ensures Head("#/" + a) == Lower(a)
  {
    OneSegment(a);
    hide TraceShaped, SegsOf, Trim;
  }

  lemma ConstructorName()
    ensures TraceShaped("constructor") && Lower("constructor") == "constructor" && InheritedName("constructor")
  {
    hide Lower, TraceShaped;
    LowerFixes("constructor");
  }

  lemma ConstructorExample(demo: bool)
    ensures InheritedName(Head("#/" + "constructor"))
    ensures var p := ParseHash("#/" + "constructor", demo);
            p.route.tab == Inherited("constructor") && ParseHash(p.canonical, demo).route == OVERVIEW
  {
    ConstructorName();
    hide InheritedName, TraceShaped, Lower, Head, ParseHash;
    InheritedParse("constructor", demo);
  }

  lemma InheritedIsNoDemo(name: string)
    ensures !IsDemoTab(Inherited(name))
  {
  }

  lemma NormalIsATab(route: Route, demo: bool)
    requires Normal(route, demo)
    ensures !route.tab.Inherited?
  {
  }

  /** The round trip succeeds on the normal routes and on no other. */
  lemma RoundTrip(route: Route, demo: bool)
    ensures ParseHash(SerializeHash(route, demo), demo).route == route <==> Normal(route, demo)
  {
    hide ParseHash, SerializeHash, Normal;
    if Normal(route, demo) {
      ReadBack(route, demo);
    } else {
      HashOutcome(SerializeHash(route, demo), demo);
      PrintedOverview(demo);
      OverviewIsNormal(demo);
      InheritedPrints(route, demo);
    }
  }

  lemma OverviewIsNormal(demo: bool)
    ensures Normal(OVERVIEW, demo)
  {
  }

  lemma InheritedPrints(route: Route, demo: bool)
    ensures route.tab.Inherited? ==> SerializeHash(route, demo) == "#/overview"
  {
  }

  /** Different normal routes have different hashes. */
  lemma PrintingIsInjective(a: Route, b: Route, demo: bool)
    requires Normal(a, demo) && Normal(b, demo) && SerializeHash(a, demo) == SerializeHash(b, demo)
    ensures a == b
  {
    hide ParseHash, SerializeHash, Normal;
    ReadBack(a, demo);
    ReadBack(b, demo);
  }

  // ----- traces-ops.ts -----

  function TracesHash(id: Option<string>): string {
    SerializeHash(Route(Traces, None, id), false)
  }

  function ParseTraceHash(hash: string): string {
    var route := ParseHash(hash, false).route;
    if route.tab != Traces || route.traceId.None? then "" else route.traceId.value
  }

  /** A trace link leads back to the trimmed id, or to no id if that is not shaped like one. */
  lemma TraceLink(id: string)
    ensures ParseTraceHash(TracesHash(Some(id))) == if TraceShaped(Trim(id)) then Trim(id) else ""
    ensures ParseTraceHash(TracesHash(None)) == ""
  {
    PrintedTrace(None, false);
    var shaped := TraceIdOf(id);
    if shaped.Some? {
      PrintedTrace(shaped, false);
      NoSlash(shaped.value);
    }
    hide ParseHash, Trim, TraceShaped;
  }
}
