/** The module-listing side of the portal library: the closed enumeration of
    tool kinds, tools and modules, filtering a module's tools by kind, and
    building the module list from the headings of the "my modules" page
    (src/mmslib.py). The page is given as already-extracted headings, each
    with its link and the links of the tool list that follows it. */
module MmsLib {
  import opened Wrappers
  import opened Seqs

  /** All portal URLs are relative to this origin. */
  const BASE_URL := "https://mms.st-andrews.ac.uk"

  /** Markup errors that end a parse; each stands for the Python exception
      the corresponding access raises on a page of unexpected shape. */
  datatype ParseError =
    | NoTable                   // the coursework page has no <tbody>
    | MissingCell(column: nat)  // the row has no cell at this column
    | EmptyCell(column: nat)    // the cell has no content to read
    | BadDate(column: nat)      // a due or feedback date not in its format
    | NoFeedbackList            // the feedback cell has no <ul class="horizontal">
    | NoAnchor(column: nat)     // the cell has no link
    | NoInput                   // the id cell has no hidden <input>
    | BadId                     // the hidden id is not an integer
    | NoHeadingLink             // a module heading without a link
    | NoToolClass               // a tool link with fewer than two classes

  /** A link: its first child's text and its href attribute. */
  datatype Link = Link(text: string, href: string)

  datatype ToolType = Attendance | Content | Coursework | Enrollment | Moodle | Signup | URL | Invalid

  /** The class strings of tool links that denote a known kind. */
  const KNOWN_TOOL_CLASSES: set<string> :=
    {"coursework", "tas", "Enrollment", "URL", "content", "signup", "moodlelink"}

  /** Classifies a tool link's class string; never fails. */
  function FromString(toolStr: string): (kind: ToolType)
    ensures kind == Coursework <==> toolStr == "coursework"
    ensures kind == Attendance <==> toolStr == "tas"
    ensures kind == Enrollment <==> toolStr == "Enrollment"
    ensures kind == URL <==> toolStr == "URL"
    ensures kind == Content <==> toolStr == "content"
    ensures kind == Signup <==> toolStr == "signup"
    ensures kind == Moodle <==> toolStr == "moodlelink"
    ensures kind == Invalid <==> toolStr !in KNOWN_TOOL_CLASSES
  {
    if toolStr == "coursework" then Coursework
    else if toolStr == "tas" then Attendance
    else if toolStr == "Enrollment" then Enrollment
    else if toolStr == "URL" then URL
    else if toolStr == "content" then Content
    else if toolStr == "signup" then Signup
    else if toolStr == "moodlelink" then Moodle
    else Invalid
  }

  /** Every kind, `Invalid` included, is the classification of some string. */
  lemma FromStringOnto(kind: ToolType)
    ensures exists s :: FromString(s) == kind
  {
    match kind
    case Attendance => assert FromString("tas") == kind;
    case Content => assert FromString("content") == kind;
    case Coursework => assert FromString("coursework") == kind;
    case Enrollment => assert FromString("Enrollment") == kind;
    case Moodle => assert FromString("moodlelink") == kind;
    case Signup => assert FromString("signup") == kind;
    case URL => assert FromString("URL") == kind;
    case Invalid => assert FromString("") == kind;
  }

  /** The human-readable label of a kind. */
  function ShowString(kind: ToolType): (shown: string)
    ensures shown == "Invalid Tool" <==> kind == Invalid
  {
    match kind
    case Attendance => "Attendance"
    case Content => "Content"
    case Coursework => "Coursework"
    case Enrollment => "Enrollment"
    case Moodle => "Moodle Link"
    case Signup => "Signup"
    case URL => "URL"
    case Invalid => "Invalid Tool"
  }

  /** The eight labels are pairwise distinct. */
  lemma ShowStringInjective(k1: ToolType, k2: ToolType)
    requires ShowString(k1) == ShowString(k2)
    ensures k1 == k2
  {
  }

  /** A tool of a module; a coursework tool is its own constructor, as the
      source builds a coursework-tool object for that kind only. */
  datatype Tool =
    | Tool(name: string, toolType: ToolType, url: string)
    | CourseworkTool(name: string, url: string)
  {
    function Kind(): ToolType {
      if CourseworkTool? then Coursework else toolType
    }
  }

  datatype MmsModule = MmsModule(moduleCode: string, moduleName: string, semester: string, tools: seq<Tool>)

  /** The module's tools, or only those of kind `toolTy`, in their original order. */
  function GetTools(m: MmsModule, toolTy: Option<ToolType>): (r: seq<Tool>)
    ensures toolTy.None? ==> r == m.tools
    ensures toolTy.Some? ==> forall t :: t in r ==> t in m.tools && t.Kind() == toolTy.value
    ensures toolTy.Some? ==>
      forall t :: t in m.tools && t.Kind() == toolTy.value ==> multiset(r)[t] == multiset(m.tools)[t]
    ensures IsSubsequence(r, m.tools)
  {
    if toolTy.None? then
      assert IsSubsequence(m.tools, m.tools) by { SubsequenceReflexive(m.tools); }
      m.tools
    else Filter((t: Tool) => t.Kind() == toolTy.value, m.tools)
  }

  lemma {:induction false} SubsequenceReflexive<T>(s: seq<T>)
    ensures IsSubsequence(s, s)
    decreases |s|
  {
    if s != [] {
      SubsequenceReflexive(s[..|s| - 1]);
    }
  }

  /** A link of a module's tool list: its classes, text and href. */
  datatype ToolLink = ToolLink(classes: seq<string>, text: string, href: string)

  /** The tool one link of the tool list describes; its kind comes from the
      link's second class. */
  function ToolFromLink(link: ToolLink): (t: Tool)
    requires |link.classes| >= 2
    ensures t.name == link.text && t.url == BASE_URL + link.href
    ensures t.Kind() == FromString(link.classes[1])
    ensures t.CourseworkTool? <==> FromString(link.classes[1]) == Coursework
  {
    var kind := FromString(link.classes[1]);
    var url := BASE_URL + link.href;
    if kind == Coursework then CourseworkTool(link.text, url) else Tool(link.text, kind, url)
  }

  /** Every link of the tool list has a second class. */
  predicate AllClassed(links: seq<ToolLink>) {
    forall i :: 0 <= i < |links| ==> |links[i].classes| >= 2
  }

  /** The tools of a module's tool list (`None` when the module has no
      `ul.module_resources`): one per link, in order, failing on the first
      link without a second class. */
  function ToolsOf(resources: Option<seq<ToolLink>>): (r: Result<seq<Tool>, ParseError>)
    ensures resources.None? ==> r == Ok([])
    ensures resources.Some? ==> (r.Ok? <==> AllClassed(resources.value))
    ensures r.Err? ==> r.error == NoToolClass
    ensures r.Ok? && resources.Some? ==>
      |r.value| == |resources.value|
      && forall i :: 0 <= i < |r.value| ==> r.value[i] == ToolFromLink(resources.value[i])
    decreases if resources.Some? then |resources.value| else 0
  {
    match resources
    case None => Ok([])
    case Some(links) =>
      if links == [] then Ok([])
      else
        var init := links[..|links| - 1];
        var link := links[|links| - 1];
        var tools :- ToolsOf(Some(init));
        if |link.classes| < 2 then Err(NoToolClass) else Ok(tools + [ToolFromLink(link)])
  }

  /** `_parse_module_tools`: walks the tool links and appends one tool per link. */
  method ParseModuleTools(resources: Option<seq<ToolLink>>) returns (r: Result<seq<Tool>, ParseError>)
    ensures r == ToolsOf(resources)
  {
    var tools: seq<Tool> := [];
    if resources.Some? {
      var links := resources.value;
      var i := 0;
      while i < |links|
        invariant 0 <= i <= |links|
        invariant ToolsOf(Some(links[..i])) == Ok(tools)
      {
        ToolsOfSnoc(links, i);
        var link := links[i];
        if |link.classes| < 2 {
          ToolsOfPrefixErr(links, i + 1);
          return Err(NoToolClass);
        }
        tools := tools + [ToolFromLink(link)];
        i := i + 1;
      }
      assert links[..i] == links;
    }
    r := Ok(tools);
  }

  /** One more tool link after a prefix that parsed. */
  lemma ToolsOfSnoc(links: seq<ToolLink>, i: nat)
    requires i < |links| && ToolsOf(Some(links[..i])).Ok?
    ensures ToolsOf(Some(links[..i + 1])) ==
      if |links[i].classes| < 2 then Err(NoToolClass) else Ok(ToolsOf(Some(links[..i])).value + [ToolFromLink(links[i])])
  {
    assert links[..i + 1][..i] == links[..i];
  }

  /** A failure on a prefix of the tool links is the failure of the whole list. */
  lemma {:induction false} ToolsOfPrefixErr(links: seq<ToolLink>, k: nat)
    requires k <= |links| && ToolsOf(Some(links[..k])).Err?
    ensures ToolsOf(Some(links)) == ToolsOf(Some(links[..k]))
    decreases |links| - k
  {
    if k < |links| {
      assert links[..k + 1][..k] == links[..k];
      ToolsOfPrefixErr(links, k + 1);
    } else {
      assert links[..k] == links;
    }
  }

  // ---- The module URL regex `/mms/module/(.+)/(.+)/(.+)/` under `re.search`.

  const MODULE_URL_PREFIX := "/mms/module/"

  /** No newline occurs in `t` before position `n`. */
  predicate NoNewlineBefore(t: string, n: int)
    requires n <= |t|
  {
    forall k :: 0 <= k < n ==> t[k] != '\n'
  }

  /** `(.+)/(.+)/(.+)/` matches at the start of `t` with its three slashes at
      `x`, `y` and `z` (`.` matches any character but a newline). */
  predicate GroupsAt(t: string, x: int, y: int, z: int) {
    && 1 <= x && x + 2 <= y && y + 2 <= z && z < |t|
    && t[x] == '/' && t[y] == '/' && t[z] == '/'
    && NoNewlineBefore(t, z)
  }

  /** The literal prefix of the pattern occurs in `href` at `s`. */
  predicate PrefixAt(href: string, s: int) {
    0 <= s && s + |MODULE_URL_PREFIX| <= |href| && href[s..s + |MODULE_URL_PREFIX|] == MODULE_URL_PREFIX
  }

  /** The whole pattern matches `href` starting at `s`; the slash positions are
      relative to the end of the literal prefix. */
  predicate ModuleUrlAt(href: string, s: int, x: int, y: int, z: int) {
    PrefixAt(href, s) && GroupsAt(href[s + |MODULE_URL_PREFIX|..], x, y, z)
  }

  function FirstNewline(t: string): (n: nat)
    ensures n <= |t| && NoNewlineBefore(t, n) && (n < |t| ==> t[n] == '\n')
    decreases |t|
  {
    if t == [] || t[0] == '\n' then 0 else 1 + FirstNewline(t[1..])
  }

  /** The last slash of `t` before position `hi`. */
  function LastSlash(t: string, hi: nat): (r: Option<nat>)
    requires hi <= |t|
    ensures r.Some? ==> r.value < hi && t[r.value] == '/' && forall k :: r.value < k < hi ==> t[k] != '/'
    ensures r.None? ==> forall k :: 0 <= k < hi ==> t[k] != '/'
    decreases hi
  {
    if hi == 0 then None else if t[hi - 1] == '/' then Some(hi - 1) else LastSlash(t, hi - 1)
  }

  /** The slash positions backtracking settles on: greedy groups make each of
      `z`, `y`, `x` as large as the others allow. */
  function MatchGroups(t: string): (r: Option<(nat, nat, nat)>)
    ensures r.Some? ==> GroupsAt(t, r.value.0, r.value.1, r.value.2)
    ensures r.Some? ==> forall x, y, z :: GroupsAt(t, x, y, z) ==>
      x <= r.value.0 && y <= r.value.1 && z <= r.value.2
    ensures r.None? ==> forall x, y, z :: !GroupsAt(t, x, y, z)
  {
    var n := FirstNewline(t);
    match LastSlash(t, n)
    case None => None
    case Some(z) =>
      if z < 2 then None
      else
        match LastSlash(t, z - 1)
        case None => None
        case Some(y) =>
          if y < 3 then None
          else
            match LastSlash(t, y - 1)
            case None => None
            case Some(x) => if x == 0 then None else Some((x, y, z))
  }

  /** `re.search` scanning start positions from `s` on: the first start where
      the prefix occurs and the groups match. */
  function SearchModuleUrl(href: string, s: nat): (r: Option<(nat, nat, nat, nat)>)
    ensures r.Some? ==> ModuleUrlAt(href, r.value.0, r.value.1, r.value.2, r.value.3)
    decreases |href| - s
  {
    var p := |MODULE_URL_PREFIX|;
    if s + p > |href| then None
    else
      var m := MatchGroups(href[s + p..]);
      if PrefixAt(href, s) && m.Some? then Some((s, m.value.0, m.value.1, m.value.2))
      else SearchModuleUrl(href, s + 1)
  }

  /** The pattern matches at no start in `lo..hi`. */
  ghost predicate NoMatchIn(href: string, lo: int, hi: int) {
    forall s, x, y, z :: lo <= s < hi ==> !ModuleUrlAt(href, s, x, y, z)
  }

  /** The pattern matches at no start from `lo` on. */
  ghost predicate NoMatchFrom(href: string, lo: int) {
    forall s, x, y, z :: lo <= s ==> !ModuleUrlAt(href, s, x, y, z)
  }

  /** The pattern matches at `s` with slashes `x`, `y`, `z`, and no match at
      `s` puts any slash further right. */
  ghost predicate GreedyAt(href: string, s: int, x: int, y: int, z: int) {
    && ModuleUrlAt(href, s, x, y, z)
    && forall x', y', z' :: ModuleUrlAt(href, s, x', y', z') ==> x' <= x && y' <= y && z' <= z
  }

  /** The search finds the leftmost start at which the pattern matches, with
      the greedy slash positions there, and finds nothing when there is no
      match from `s` on. */
  lemma {:induction false} SearchModuleUrlSpec(href: string, s: nat)
    ensures var r := SearchModuleUrl(href, s);
      r.Some? ==> (s <= r.value.0 && NoMatchIn(href, s, r.value.0)
                   && GreedyAt(href, r.value.0, r.value.1, r.value.2, r.value.3))
    ensures SearchModuleUrl(href, s).None? ==> NoMatchFrom(href, s)
    decreases |href| - s
  {
    var p := |MODULE_URL_PREFIX|;
    if s + p > |href| {
      assert NoMatchFrom(href, s);
    } else {
      var m := MatchGroups(href[s + p..]);
      if PrefixAt(href, s) && m.Some? {
        assert GreedyAt(href, s, m.value.0, m.value.1, m.value.2);
      } else {
        NoMatchAt(href, s);
        SearchModuleUrlSpec(href, s + 1);
        var r := SearchModuleUrl(href, s + 1);
        if r.Some? {
          NoMatchInCons(href, s, r.value.0);
        } else {
          NoMatchFromCons(href, s);
        }
      }
    }
  }

  lemma NoMatchAt(href: string, s: nat)
    requires s + |MODULE_URL_PREFIX| <= |href|
    requires !(PrefixAt(href, s) && MatchGroups(href[s + |MODULE_URL_PREFIX|..]).Some?)
    ensures forall x, y, z :: !ModuleUrlAt(href, s, x, y, z)
  {
  }

  lemma NoMatchInCons(href: string, s: int, hi: int)
    requires forall x, y, z :: !ModuleUrlAt(href, s, x, y, z)
    requires NoMatchIn(href, s + 1, hi)
    ensures NoMatchIn(href, s, hi)
  {
  }

  lemma NoMatchFromCons(href: string, s: int)
    requires forall x, y, z :: !ModuleUrlAt(href, s, x, y, z)
    requires NoMatchFrom(href, s + 1)
    ensures NoMatchFrom(href, s)
  {
  }

  /** The groups (academic year, semester, module code) of a module URL. */
  datatype ModulePath = ModulePath(academicYear: string, semester: string, code: string)

  /** `re.search("/mms/module/(.+)/(.+)/(.+)/", href)` and its three groups. */
  function MatchModuleUrl(href: string): Option<ModulePath>
  {
    match SearchModuleUrl(href, 0)
    case None => None
    case Some((s, x, y, z)) =>
      var t := href[s + |MODULE_URL_PREFIX|..];
      Some(ModulePath(t[..x], t[x + 1..y], t[y + 1..z]))
  }

  /** `None` exactly when the pattern occurs nowhere in `href`; otherwise the
      groups of the leftmost occurrence, each as long as backtracking allows. */
  lemma MatchModuleUrlSpec(href: string)
    ensures MatchModuleUrl(href).None? <==> NoMatchFrom(href, 0)
    ensures MatchModuleUrl(href).Some? ==> exists s, x, y, z ::
      && NoMatchIn(href, 0, s) && GreedyAt(href, s, x, y, z)
      && var t := href[s + |MODULE_URL_PREFIX|..];
         MatchModuleUrl(href).value == ModulePath(t[..x], t[x + 1..y], t[y + 1..z])
  {
    SearchModuleUrlSpec(href, 0);
    var r := SearchModuleUrl(href, 0);
    if r.Some? {
      var (s, x, y, z) := r.value;
      assert ModuleUrlAt(href, s, x, y, z);
    }
  }

  /** A module heading (`h3.module_heading`): its link, and the tool list of
      the block after it (`None` when that block has no `ul.module_resources`). */
  datatype Heading = Heading(anchor: Option<Link>, resources: Option<seq<ToolLink>>)

  /** One heading of the listing: `Ok(None)` when its link is not a module URL. */
  function ModuleOf(h: Heading): (r: Result<Option<MmsModule>, ParseError>)
    ensures h.anchor.None? ==> r == Err(NoHeadingLink)
    ensures h.anchor.Some? && MatchModuleUrl(h.anchor.value.href).None? ==> r == Ok(None)
    ensures h.anchor.Some? && MatchModuleUrl(h.anchor.value.href).Some? ==>
      && (r.Ok? <==> ToolsOf(h.resources).Ok?)
      && (r.Err? ==> r.error == ToolsOf(h.resources).error)
      && (r.Ok? ==> r.value.Some?)
    ensures r.Ok? && r.value.Some? ==>
      var path := MatchModuleUrl(h.anchor.value.href).value;
      && r.value.value.moduleCode == path.code
      && r.value.value.semester == path.semester
      && r.value.value.moduleName == h.anchor.value.text
      && ToolsOf(h.resources) == Ok(r.value.value.tools)
  {
    if h.anchor.None? then Err(NoHeadingLink)
    else
      match MatchModuleUrl(h.anchor.value.href)
      case None => Ok(None)
      case Some(path) =>
        var tools :- ToolsOf(h.resources);
        Ok(Some(MmsModule(path.code, h.anchor.value.text, path.semester, tools)))
  }

  /** What each heading of the page gives, in heading order. */
  function HeadingResults(headings: seq<Heading>): (rs: seq<Result<Option<MmsModule>, ParseError>>)
    ensures |rs| == |headings|
    ensures forall i :: 0 <= i < |headings| ==> rs[i] == ModuleOf(headings[i])
  {
    seq(|headings|, i requires 0 <= i < |headings| => ModuleOf(headings[i]))
  }

  /** Gathering per-heading results: the modules of the headings that
      matched, in order, failing with the first failure. */
  function CollectModules(rs: seq<Result<Option<MmsModule>, ParseError>>): Result<seq<MmsModule>, ParseError>
    decreases |rs|
  {
    if rs == [] then Ok([])
    else
      var modules :- CollectModules(rs[..|rs| - 1]);
      var m :- rs[|rs| - 1];
      if m.Some? then Ok(modules + [m.value]) else Ok(modules)
  }

  /** The module list of a page. */
  function ModulesOf(headings: seq<Heading>): Result<seq<MmsModule>, ParseError> {
    CollectModules(HeadingResults(headings))
  }

  /** `_parse_modules_list`: walks the headings and appends a module for each
      heading whose link matches the module URL pattern. */
  method ParseModulesList(headings: seq<Heading>) returns (r: Result<seq<MmsModule>, ParseError>)
    ensures r == ModulesOf(headings)
  {
    ghost var rs := HeadingResults(headings);
    var ret: seq<MmsModule> := [];
    var i := 0;
    while i < |headings|
      invariant 0 <= i <= |headings|
      invariant CollectModules(rs[..i]) == Ok(ret)
    {
      CollectSnoc(rs, i);
      var entry := headings[i];
      if entry.anchor.None? {
        assert rs[i] == Err(NoHeadingLink);
        CollectPrefixErr(rs, i + 1);
        return Err(NoHeadingLink);
      }
      var link := entry.anchor.value;
      var found := MatchModuleUrl(link.href);
      if found.Some? {
        var tools := ParseModuleTools(entry.resources);
        if tools.Err? {
          assert rs[i] == Err(tools.error);
          CollectPrefixErr(rs, i + 1);
          return Err(tools.error);
        }
        var m := MmsModule(found.value.code, link.text, found.value.semester, tools.value);
        assert rs[i] == Ok(Some(m));
        ret := ret + [m];
      } else {
        assert rs[i] == Ok(None);
      }
      i := i + 1;
    }
    assert rs[..i] == rs;
    r := Ok(ret);
  }

  /** One more per-heading result after a prefix that gathered. */
  lemma CollectSnoc(rs: seq<Result<Option<MmsModule>, ParseError>>, i: nat)
    requires i < |rs| && CollectModules(rs[..i]).Ok?
    ensures CollectModules(rs[..i + 1]) ==
      if rs[i].Err? then Err(rs[i].error)
      else if rs[i].value.Some? then Ok(CollectModules(rs[..i]).value + [rs[i].value.value])
      else Ok(CollectModules(rs[..i]).value)
  {
    assert rs[..i + 1][..i] == rs[..i];
  }

  lemma {:induction false} CollectPrefixErr(rs: seq<Result<Option<MmsModule>, ParseError>>, k: nat)
    requires k <= |rs| && CollectModules(rs[..k]).Err?
    ensures CollectModules(rs) == CollectModules(rs[..k])
    decreases |rs| - k
  {
    if k < |rs| {
      assert rs[..k + 1][..k] == rs[..k];
      CollectPrefixErr(rs, k + 1);
    } else {
      assert rs[..k] == rs;
    }
  }

  lemma {:induction false} CollectLength(rs: seq<Result<Option<MmsModule>, ParseError>>)
    ensures CollectModules(rs).Ok? ==> |CollectModules(rs).value| <= |rs|
    decreases |rs|
  {
    if rs != [] {
      CollectLength(rs[..|rs| - 1]);
    }
  }

  lemma {:induction false} CollectOk(rs: seq<Result<Option<MmsModule>, ParseError>>)
    ensures CollectModules(rs).Ok? <==> forall i :: 0 <= i < |rs| ==> rs[i].Ok?
    decreases |rs|
  {
    if rs != [] {
      var n := |rs| - 1;
      CollectOk(rs[..n]);
      assert forall i :: 0 <= i < n ==> rs[..n][i] == rs[i];
    }
  }

  lemma {:induction false} CollectAppend(a: seq<Result<Option<MmsModule>, ParseError>>, b: seq<Result<Option<MmsModule>, ParseError>>)
    ensures CollectModules(a).Err? ==> CollectModules(a + b) == CollectModules(a)
    ensures CollectModules(a).Ok? && CollectModules(b).Err? ==> CollectModules(a + b) == CollectModules(b)
    ensures CollectModules(a).Ok? && CollectModules(b).Ok? ==>
      CollectModules(a + b) == Ok(CollectModules(a).value + CollectModules(b).value)
    decreases |b|
  {
    if b == [] {
      assert a + b == a;
      if CollectModules(a).Ok? {
        assert CollectModules(a).value + [] == CollectModules(a).value;
      }
    } else {
      var init := b[..|b| - 1];
      assert (a + b)[..|a + b| - 1] == a + init;
      assert (a + b)[|a + b| - 1] == b[|b| - 1];
      CollectAppend(a, init);
      if CollectModules(a).Ok? && CollectModules(b).Ok? {
        var h := b[|b| - 1];
        var left, mid := CollectModules(a).value, CollectModules(init).value;
        if h.value.Some? {
          assert left + mid + [h.value.value] == left + (mid + [h.value.value]);
        }
      }
    }
  }

  lemma {:induction false} CollectFrom(rs: seq<Result<Option<MmsModule>, ParseError>>, m: MmsModule)
    requires CollectModules(rs).Ok? && m in CollectModules(rs).value
    ensures exists i :: 0 <= i < |rs| && rs[i] == Ok(Some(m))
    decreases |rs|
  {
    var n := |rs| - 1;
    var init := rs[..n];
    if m in CollectModules(init).value {
      CollectFrom(init, m);
      var i :| 0 <= i < n && init[i] == Ok(Some(m));
      assert rs[i] == init[i];
    } else {
      assert rs[n] == Ok(Some(m));
    }
  }

  lemma HeadingResultsPrefix(headings: seq<Heading>, k: nat)
    requires k <= |headings|
    ensures HeadingResults(headings[..k]) == HeadingResults(headings)[..k]
  {
  }

  lemma HeadingResultsAppend(a: seq<Heading>, b: seq<Heading>)
    ensures HeadingResults(a + b) == HeadingResults(a) + HeadingResults(b)
  {
    var l, r := HeadingResults(a + b), HeadingResults(a) + HeadingResults(b);
    forall i | 0 <= i < |l| ensures l[i] == r[i] {
      if i < |a| {
        assert (a + b)[i] == a[i];
      } else {
        assert (a + b)[i] == b[i - |a|];
      }
    }
  }

  /** The first failing heading ends the listing with its failure, whatever follows. */
  lemma ModulesOfPrefixErr(headings: seq<Heading>, k: nat)
    requires k <= |headings| && ModulesOf(headings[..k]).Err?
    ensures ModulesOf(headings) == ModulesOf(headings[..k])
  {
    HeadingResultsPrefix(headings, k);
    CollectPrefixErr(HeadingResults(headings), k);
  }

  /** The module list is no longer than the heading list, and it fails only
      when some heading fails. */
  lemma ModulesOfBound(headings: seq<Heading>)
    ensures ModulesOf(headings).Ok? ==> |ModulesOf(headings).value| <= |headings|
    ensures ModulesOf(headings).Ok? <==> forall i :: 0 <= i < |headings| ==> ModuleOf(headings[i]).Ok?
  {
    CollectLength(HeadingResults(headings));
    CollectOk(HeadingResults(headings));
  }

  /** Heading order is kept: the modules of `a + b` are those of `a` followed by
      those of `b`, and a failure in `a` wins over one in `b`. */
  lemma ModulesOfAppend(a: seq<Heading>, b: seq<Heading>)
    ensures ModulesOf(a).Err? ==> ModulesOf(a + b) == ModulesOf(a)
    ensures ModulesOf(a).Ok? && ModulesOf(b).Err? ==> ModulesOf(a + b) == ModulesOf(b)
    ensures ModulesOf(a).Ok? && ModulesOf(b).Ok? ==>
      ModulesOf(a + b) == Ok(ModulesOf(a).value + ModulesOf(b).value)
  {
    HeadingResultsAppend(a, b);
    CollectAppend(HeadingResults(a), HeadingResults(b));
  }

  /** A heading whose link is not a module URL is skipped silently. */
  lemma UnmatchedHeadingSkipped(headings: seq<Heading>, h: Heading)
    requires h.anchor.Some? && MatchModuleUrl(h.anchor.value.href).None?
    ensures ModulesOf(headings + [h]) == ModulesOf(headings)
  {
    var rs := HeadingResults(headings + [h]);
    HeadingResultsPrefix(headings + [h], |headings|);
    assert (headings + [h])[..|headings|] == headings;
    assert rs[|headings|] == Ok(None);
  }

  /** A heading whose link matches and whose tool list parses adds its module,
      built from the URL's groups, the link text and the tools, at the end of
      the list. */
  lemma MatchedHeadingListed(headings: seq<Heading>, h: Heading)
    requires ModulesOf(headings).Ok?
    requires h.anchor.Some? && MatchModuleUrl(h.anchor.value.href).Some? && ToolsOf(h.resources).Ok?
    ensures var path := MatchModuleUrl(h.anchor.value.href).value;
      ModulesOf(headings + [h]) ==
        Ok(ModulesOf(headings).value + [MmsModule(path.code, h.anchor.value.text, path.semester, ToolsOf(h.resources).value)])
  {
    var rs := HeadingResults(headings + [h]);
    HeadingResultsPrefix(headings + [h], |headings|);
    assert (headings + [h])[..|headings|] == headings;
    assert rs[..|headings| + 1] == rs;
    CollectSnoc(rs, |headings|);
  }

  /** Every module of the list comes from a heading that matched. */
  lemma ModulesOfFromHeadings(headings: seq<Heading>, m: MmsModule)
    requires ModulesOf(headings).Ok? && m in ModulesOf(headings).value
    ensures exists i :: 0 <= i < |headings| && ModuleOf(headings[i]) == Ok(Some(m))
  {
    CollectFrom(HeadingResults(headings), m);
  }

  const MODULES_PATH := "/mms/user/me/Modules?academic_year="
  const MODULES_COMMAND := "&unit=&command=Get+My+Modules"

  /** The query string's year: empty when none is given (an empty year is
      as good as none, Python's truthiness). */
  function YearParameter(academicYear: Option<string>): string {
    if academicYear.Some? then academicYear.value else ""
  }

  /** The address `get_modules` requests: the listing path with the year,
      if any, followed by the listing command; the year can be read back
      from between the two. */
  function ModulesRequestUrl(academicYear: Option<string>): (url: string)
    ensures |url| == |BASE_URL + MODULES_PATH| + |YearParameter(academicYear)| + |MODULES_COMMAND|
    ensures url[..|BASE_URL + MODULES_PATH|] == BASE_URL + MODULES_PATH
    ensures url[|url| - |MODULES_COMMAND|..] == MODULES_COMMAND
    ensures url[|BASE_URL + MODULES_PATH|..|url| - |MODULES_COMMAND|] == YearParameter(academicYear)
  {
    var reqUrl := BASE_URL + MODULES_PATH;
    var reqUrl := if academicYear.Some? && academicYear.value != "" then reqUrl + academicYear.value else reqUrl;
    reqUrl + MODULES_COMMAND
  }

  /** `get_modules`: the module list of the page `fetch` returns for the
      listing request of the year. */
  function GetModules(academicYear: Option<string>, fetch: string -> seq<Heading>): (r: Result<seq<MmsModule>, ParseError>)
    ensures r == ModulesOf(fetch(ModulesRequestUrl(academicYear)))
    ensures var page := fetch(ModulesRequestUrl(academicYear));
      && (r.Ok? <==> forall i :: 0 <= i < |page| ==> ModuleOf(page[i]).Ok?)
      && (r.Ok? ==> |r.value| <= |page|)
  {
    ModulesOfBound(fetch(ModulesRequestUrl(academicYear)));
    ModulesOf(fetch(ModulesRequestUrl(academicYear)))
  }
}
