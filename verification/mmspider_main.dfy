/** One run of the change tracker (`main` in src/mmspider.py): check every
    coursework tool of every module against the store, keep the non-empty
    diffs per tool and the non-empty tool maps per module, and produce the
    alert e-mail when anything changed. The module list, each tool's current
    listing and the rendering of feedback are inputs. */
module SpiderMain {
  import opened Wrappers
  import opened Dicts
  import opened MmsLib
  import opened MmsCoursework
  import opened MmSpider
  import opened SpiderReport

  /** `d[k] = v` for each pair whose value is non-empty, in order. */
  function CollectNonEmpty<X>(pairs: seq<(string, seq<X>)>): (d: Dict<seq<X>>)
    ensures forall e :: e in d ==> e.1 != []
    ensures DistinctKeys(d)
    decreases |pairs|
  {
    if pairs == [] then []
    else
      var rest := CollectNonEmpty(pairs[..|pairs| - 1]);
      var (k, v) := pairs[|pairs| - 1];
      if |v| > 0 then
        AssignKeepsDistinct(rest, k, v);
        Assign(rest, k, v)
      else rest
  }

  /** Some pair with key `k` has a non-empty value. */
  predicate HasNonEmpty<X>(pairs: seq<(string, seq<X>)>, k: string) {
    exists i :: 0 <= i < |pairs| && pairs[i].0 == k && pairs[i].1 != []
  }

  lemma HasNonEmptySnoc<X>(pairs: seq<(string, seq<X>)>, k: string)
    requires pairs != []
    ensures HasNonEmpty(pairs, k) <==>
      HasNonEmpty(pairs[..|pairs| - 1], k) || (pairs[|pairs| - 1].0 == k && pairs[|pairs| - 1].1 != [])
  {
    var n := |pairs| - 1;
    var init := pairs[..n];
    if HasNonEmpty(init, k) {
      var i :| 0 <= i < |init| && init[i].0 == k && init[i].1 != [];
      assert pairs[i] == init[i];
    }
    if HasNonEmpty(pairs, k) {
      var i :| 0 <= i < |pairs| && pairs[i].0 == k && pairs[i].1 != [];
      if i < n {
        assert init[i] == pairs[i];
      }
    }
  }

  /** A key is present exactly when some pair with that key had a non-empty value. */
  lemma {:induction false} CollectNonEmptyKeys<X>(pairs: seq<(string, seq<X>)>, k: string)
    ensures Get(CollectNonEmpty(pairs), k).Some? <==> HasNonEmpty(pairs, k)
    decreases |pairs|
  {
    if pairs != [] {
      var n := |pairs| - 1;
      CollectNonEmptyKeys(pairs[..n], k);
      HasNonEmptySnoc(pairs, k);
      if |pairs[n].1| > 0 {
        AssignGet(CollectNonEmpty(pairs[..n]), pairs[n].0, pairs[n].1, k);
      }
    }
  }

  /** A later non-empty value for the same key replaces an earlier one: the
      value kept is the last non-empty one. */
  lemma {:induction false} CollectNonEmptyLastWins<X>(pairs: seq<(string, seq<X>)>, i: nat)
    requires i < |pairs| && pairs[i].1 != []
    requires forall j :: i < j < |pairs| && pairs[j].0 == pairs[i].0 ==> pairs[j].1 == []
    ensures Get(CollectNonEmpty(pairs), pairs[i].0) == Some(pairs[i].1)
    decreases |pairs|
  {
    var n := |pairs| - 1;
    var init := pairs[..n];
    var k := pairs[i].0;
    AssignGet(CollectNonEmpty(init), pairs[n].0, pairs[n].1, k);
    if i < n {
      CollectNonEmptyLastWins(init, i);
    }
  }

  /** Every value is empty. */
  predicate AllEmpty<X>(pairs: seq<(string, seq<X>)>) {
    forall i :: 0 <= i < |pairs| ==> pairs[i].1 == []
  }

  /** Nothing is collected exactly when every value is empty. */
  lemma CollectNonEmptyEmpty<X>(pairs: seq<(string, seq<X>)>)
    ensures CollectNonEmpty(pairs) == [] <==> AllEmpty(pairs)
  {
    var d := CollectNonEmpty(pairs);
    if d != [] {
      assert Keys(d)[0] == d[0].0;
      CollectNonEmptyKeys(pairs, d[0].0);
    } else {
      forall i | 0 <= i < |pairs| ensures pairs[i].1 == [] {
        CollectNonEmptyKeys(pairs, pairs[i].0);
      }
    }
  }

  /** The coursework tools of a module. */
  function CourseworkTools(m: MmsModule): seq<Tool> {
    GetTools(m, Some(Coursework))
  }

  /** The checks of a list of tools, in order, each against the store the
      previous ones left: each tool's name with the diffs it reported. */
  function RunChecks(entries: Entries, sha256: string -> string, tools: seq<Tool>,
                     listing: string -> seq<Assignment>, render: string -> string)
    : (r: (seq<(string, seq<Assignment>)>, Entries))
    ensures |r.0| == |tools|
    ensures forall i :: 0 <= i < |tools| ==> r.0[i].0 == tools[i].name
    ensures forall k :: (forall i :: 0 <= i < |tools| ==> k != GetPersistentKey(sha256, tools[i])) ==>
      (k in r.1 <==> k in entries) && (k in entries ==> r.1[k] == entries[k])
    decreases |tools|
  {
    if tools == [] then ([], entries)
    else
      var (checks, current) := RunChecks(entries, sha256, tools[..|tools| - 1], listing, render);
      var tool := tools[|tools| - 1];
      var (diffs, updated) := Check(current, GetPersistentKey(sha256, tool), listing(tool.url), render);
      (checks + [(tool.name, diffs)], updated)
  }

  /** The coursework tools of all modules, in the order they are checked. */
  function AllCourseworkTools(modules: seq<MmsModule>): (tools: seq<Tool>)
    decreases |modules|
  {
    if modules == [] then []
    else AllCourseworkTools(modules[..|modules| - 1]) + CourseworkTools(modules[|modules| - 1])
  }

  /** Whether `k` is the store key of one of `tools`. */
  predicate IsToolKey(sha256: string -> string, tools: seq<Tool>, k: string) {
    exists j :: 0 <= j < |tools| && k == GetPersistentKey(sha256, tools[j])
  }

  /** No two of `tools` share a store key (distinct URLs, no SHA-256 collision). */
  predicate DistinctToolKeys(sha256: string -> string, tools: seq<Tool>) {
    forall j, j' :: 0 <= j < j' < |tools| ==> GetPersistentKey(sha256, tools[j]) != GetPersistentKey(sha256, tools[j'])
  }

  /** The store holds no entry for any of `tools`. */
  predicate NoneStored(entries: Entries, sha256: string -> string, tools: seq<Tool>) {
    forall j :: 0 <= j < |tools| ==> GetPersistentKey(sha256, tools[j]) !in entries
  }

  /** The checks of every module, in order: each module's code with the
      checks of its coursework tools. */
  function RunModules(entries: Entries, sha256: string -> string, modules: seq<MmsModule>,
                      listing: string -> seq<Assignment>, render: string -> string)
    : (r: (seq<(string, seq<(string, seq<Assignment>)>)>, Entries))
    ensures |r.0| == |modules|
    ensures forall i :: 0 <= i < |modules| ==>
      r.0[i].0 == modules[i].moduleCode && |r.0[i].1| == |CourseworkTools(modules[i])|
    decreases |modules|
  {
    if modules == [] then ([], entries)
    else
      var n := |modules| - 1;
      var (perModule, current) := RunModules(entries, sha256, modules[..n], listing, render);
      var m := modules[n];
      var (checks, updated) := RunChecks(current, sha256, CourseworkTools(m), listing, render);
      (perModule + [(m.moduleCode, checks)], updated)
  }

  /** The run leaves every entry alone whose key is not that of a coursework
      tool of one of the modules. */
  lemma {:induction false} RunModulesOnlyToolKeys(entries: Entries, sha256: string -> string, modules: seq<MmsModule>,
                                                  listing: string -> seq<Assignment>, render: string -> string, k: string)
    requires !IsToolKey(sha256, AllCourseworkTools(modules), k)
    ensures var updated := RunModules(entries, sha256, modules, listing, render).1;
      (k in updated <==> k in entries) && (k in entries ==> updated[k] == entries[k])
    decreases |modules|
  {
    if modules != [] {
      var n := |modules| - 1;
      NotToolKeySplit(sha256, AllCourseworkTools(modules[..n]), CourseworkTools(modules[n]), k);
      RunModulesOnlyToolKeys(entries, sha256, modules[..n], listing, render, k);
    }
  }

  /** A key of none of `prior + tools` is a key of none of `prior` and none of `tools`. */
  lemma NotToolKeySplit(sha256: string -> string, prior: seq<Tool>, tools: seq<Tool>, k: string)
    requires !IsToolKey(sha256, prior + tools, k)
    ensures !IsToolKey(sha256, prior, k)
    ensures forall j :: 0 <= j < |tools| ==> k != GetPersistentKey(sha256, tools[j])
  {
    var all := prior + tools;
    assert forall j :: 0 <= j < |prior| ==> all[j] == prior[j];
    assert forall j :: 0 <= j < |tools| ==> all[|prior| + j] == tools[j];
  }

  /** Each module's code with the map of its tools that reported something. */
  function ModuleDicts(perModule: seq<(string, seq<(string, seq<Assignment>)>)>)
    : (r: seq<(string, Dict<seq<Assignment>>)>)
    ensures |r| == |perModule|
    ensures forall i :: 0 <= i < |perModule| ==> r[i] == (perModule[i].0, CollectNonEmpty(perModule[i].1))
  {
    seq(|perModule|, i requires 0 <= i < |perModule| => (perModule[i].0, CollectNonEmpty(perModule[i].1)))
  }

  /** What one run collects, and the store it leaves. */
  function Gather(entries: Entries, sha256: string -> string, modules: seq<MmsModule>,
                  listing: string -> seq<Assignment>, render: string -> string): (ModuleDiffs, Entries)
  {
    var run := RunModules(entries, sha256, modules, listing, render);
    (CollectNonEmpty(ModuleDicts(run.0)), run.1)
  }

  /** Every check of every tool of every module reported no diffs. */
  predicate NoChange(perModule: seq<(string, seq<(string, seq<Assignment>)>)>) {
    forall i :: 0 <= i < |perModule| ==> AllEmpty(perModule[i].1)
  }

  /** A module map is empty exactly when every tool of every module reported
      no diffs. */
  lemma ModuleDictsEmpty(perModule: seq<(string, seq<(string, seq<Assignment>)>)>)
    ensures CollectNonEmpty(ModuleDicts(perModule)) == [] <==> NoChange(perModule)
  {
    var dicts := ModuleDicts(perModule);
    CollectNonEmptyEmpty(dicts);
    forall i | 0 <= i < |perModule|
      ensures dicts[i].1 == [] <==> AllEmpty(perModule[i].1)
    {
      CollectNonEmptyEmpty(perModule[i].1);
    }
  }

  /** Nothing is reported exactly when every check of every coursework tool
      returned no diffs. */
  lemma GatherEmptyIffNoChange(entries: Entries, sha256: string -> string, modules: seq<MmsModule>,
                               listing: string -> seq<Assignment>, render: string -> string)
    ensures Gather(entries, sha256, modules, listing, render).0 == [] <==>
      NoChange(RunModules(entries, sha256, modules, listing, render).0)
  {
    ModuleDictsEmpty(RunModules(entries, sha256, modules, listing, render).0);
  }

  /** Tools the store has never seen report nothing. */
  lemma {:induction false} RunChecksFirstSeen(entries: Entries, sha256: string -> string, tools: seq<Tool>,
                                              listing: string -> seq<Assignment>, render: string -> string)
    requires NoneStored(entries, sha256, tools) && DistinctToolKeys(sha256, tools)
    ensures AllEmpty(RunChecks(entries, sha256, tools, listing, render).0)
    decreases |tools|
  {
    if tools != [] {
      var n := |tools| - 1;
      var init := tools[..n];
      assert tools == init + [tools[n]];
      SplitToolKeys(entries, sha256, init, [tools[n]]);
      RunChecksFirstSeen(entries, sha256, init, listing, render);
      var before := RunChecks(entries, sha256, init, listing, render);
      var check := Check(before.1, GetPersistentKey(sha256, tools[n]), listing(tools[n].url), render);
      AllEmptySnoc(before.0, (tools[n].name, check.0));
    }
  }

  lemma AllEmptySnoc<X>(pairs: seq<(string, seq<X>)>, p: (string, seq<X>))
    requires AllEmpty(pairs) && p.1 == []
    ensures AllEmpty(pairs + [p])
  {
    var all := pairs + [p];
    assert forall i :: 0 <= i < |pairs| ==> all[i] == pairs[i];
  }

  /** Splitting a list of never-seen tools with distinct keys in two. */
  lemma SplitToolKeys(entries: Entries, sha256: string -> string, prior: seq<Tool>, tools: seq<Tool>)
    requires NoneStored(entries, sha256, prior + tools) && DistinctToolKeys(sha256, prior + tools)
    ensures NoneStored(entries, sha256, prior) && DistinctToolKeys(sha256, prior)
    ensures DistinctToolKeys(sha256, tools)
    ensures forall j :: 0 <= j < |tools| ==>
      GetPersistentKey(sha256, tools[j]) !in entries && !IsToolKey(sha256, prior, GetPersistentKey(sha256, tools[j]))
  {
    var all := prior + tools;
    assert forall j :: 0 <= j < |prior| ==> all[j] == prior[j];
    assert forall j :: 0 <= j < |tools| ==> all[|prior| + j] == tools[j];
  }

  /** A run over modules whose coursework tools the store has never seen
      reports nothing: the first run only fills the store. */
  lemma {:induction false} RunModulesFirstSeen(entries: Entries, sha256: string -> string, modules: seq<MmsModule>,
                                               listing: string -> seq<Assignment>, render: string -> string)
    requires NoneStored(entries, sha256, AllCourseworkTools(modules))
    requires DistinctToolKeys(sha256, AllCourseworkTools(modules))
    ensures NoChange(RunModules(entries, sha256, modules, listing, render).0)
    decreases |modules|
  {
    if modules != [] {
      var n := |modules| - 1;
      var prior, tools := AllCourseworkTools(modules[..n]), CourseworkTools(modules[n]);
      SplitToolKeys(entries, sha256, prior, tools);
      RunModulesFirstSeen(entries, sha256, modules[..n], listing, render);
      var before := RunModules(entries, sha256, modules[..n], listing, render);
      forall j | 0 <= j < |tools| ensures GetPersistentKey(sha256, tools[j]) !in before.1 {
        RunModulesOnlyToolKeys(entries, sha256, modules[..n], listing, render, GetPersistentKey(sha256, tools[j]));
      }
      RunChecksFirstSeen(before.1, sha256, tools, listing, render);
      NoChangeSnoc(before.0, modules[n].moduleCode, RunChecks(before.1, sha256, tools, listing, render).0);
    }
  }

  lemma NoChangeSnoc(perModule: seq<(string, seq<(string, seq<Assignment>)>)>,
                     code: string, checks: seq<(string, seq<Assignment>)>)
    requires NoChange(perModule) && AllEmpty(checks)
    ensures NoChange(perModule + [(code, checks)])
  {
    var all := perModule + [(code, checks)];
    assert forall i :: 0 <= i < |perModule| ==> all[i] == perModule[i];
  }

  /** The first run against an empty store sends no e-mail. */
  lemma GatherFirstRunSilent(sha256: string -> string, modules: seq<MmsModule>,
                             listing: string -> seq<Assignment>, render: string -> string)
    requires DistinctToolKeys(sha256, AllCourseworkTools(modules))
    ensures Gather(map[], sha256, modules, listing, render).0 == []
  {
    RunModulesFirstSeen(map[], sha256, modules, listing, render);
    GatherEmptyIffNoChange(map[], sha256, modules, listing, render);
  }

  /** Every module reported has at least one tool, and every tool reported
      has at least one changed assignment. */
  lemma GatherNoEmptyEntries(entries: Entries, sha256: string -> string, modules: seq<MmsModule>,
                             listing: string -> seq<Assignment>, render: string -> string)
    ensures forall m :: m in Gather(entries, sha256, modules, listing, render).0 ==>
      m.1 != [] && forall t :: t in m.1 ==> t.1 != []
  {
    var perModule := RunModules(entries, sha256, modules, listing, render).0;
    var dicts := ModuleDicts(perModule);
    var d := CollectNonEmpty(dicts);
    forall m | m in d ensures m.1 != [] && forall t :: t in m.1 ==> t.1 != [] {
      CollectNonEmptyMember(dicts, m);
      var i :| 0 <= i < |dicts| && dicts[i] == m;
    }
  }

  /** Every collected pair is one of the input pairs. */
  lemma {:induction false} CollectNonEmptyMember<X>(pairs: seq<(string, seq<X>)>, e: (string, seq<X>))
    requires e in CollectNonEmpty(pairs)
    ensures exists i :: 0 <= i < |pairs| && pairs[i] == e
    decreases |pairs|
  {
    var n := |pairs| - 1;
    var init := pairs[..n];
    if e != pairs[n] {
      CollectNonEmptyMember(init, e);
      var i :| 0 <= i < n && init[i] == e;
      assert pairs[i] == e;
    }
  }

  /** Collecting one more pair. */
  lemma CollectNonEmptySnoc<X>(pairs: seq<(string, seq<X>)>, p: (string, seq<X>))
    ensures CollectNonEmpty(pairs + [p]) ==
      if |p.1| > 0 then Assign(CollectNonEmpty(pairs), p.0, p.1) else CollectNonEmpty(pairs)
  {
    assert (pairs + [p])[..|pairs|] == pairs;
  }

  /** Checking one more tool. */
  lemma RunChecksSnoc(entries: Entries, sha256: string -> string, tools: seq<Tool>, j: nat,
                      listing: string -> seq<Assignment>, render: string -> string)
    requires j < |tools|
    ensures var before := RunChecks(entries, sha256, tools[..j], listing, render);
      var check := Check(before.1, GetPersistentKey(sha256, tools[j]), listing(tools[j].url), render);
      RunChecks(entries, sha256, tools[..j + 1], listing, render) == (before.0 + [(tools[j].name, check.0)], check.1)
  {
    assert tools[..j + 1][..j] == tools[..j];
  }

  /** Checking the tools of one more module. */
  lemma RunModulesSnoc(entries: Entries, sha256: string -> string, modules: seq<MmsModule>, i: nat,
                       listing: string -> seq<Assignment>, render: string -> string)
    requires i < |modules|
    ensures var before := RunModules(entries, sha256, modules[..i], listing, render);
      var checks := RunChecks(before.1, sha256, CourseworkTools(modules[i]), listing, render);
      RunModules(entries, sha256, modules[..i + 1], listing, render) ==
        (before.0 + [(modules[i].moduleCode, checks.0)], checks.1)
  {
    assert modules[..i + 1][..i] == modules[..i];
  }

  /** The module maps of one more module. */
  lemma ModuleDictsSnoc(perModule: seq<(string, seq<(string, seq<Assignment>)>)>,
                        code: string, checks: seq<(string, seq<Assignment>)>)
    ensures ModuleDicts(perModule + [(code, checks)]) == ModuleDicts(perModule) + [(code, CollectNonEmpty(checks))]
  {
  }

  /** The inner loop of `main`: checks each coursework tool of one module and
      keeps the diffs of those that reported any. */
  method CollectToolDiffs(store: Store, sha256: string -> string, cwkTools: seq<Tool>,
                          listing: string -> seq<Assignment>, render: string -> string)
    returns (moduleDiffs: Dict<seq<Assignment>>)
    modifies store
    ensures var run := RunChecks(old(store.entries), sha256, cwkTools, listing, render);
      moduleDiffs == CollectNonEmpty(run.0) && store.entries == run.1
  {
    moduleDiffs := [];
    for j := 0 to |cwkTools|
      invariant var run := RunChecks(old(store.entries), sha256, cwkTools[..j], listing, render);
        moduleDiffs == CollectNonEmpty(run.0) && store.entries == run.1
    {
      ghost var before := RunChecks(old(store.entries), sha256, cwkTools[..j], listing, render);
      var cwkTool := cwkTools[j];
      var cwkDiffs := CheckCwk(store, sha256, cwkTool, listing(cwkTool.url), render);
      RunChecksSnoc(old(store.entries), sha256, cwkTools, j, listing, render);
      CollectNonEmptySnoc(before.0, (cwkTool.name, cwkDiffs));
      if |cwkDiffs| > 0 {
        moduleDiffs := Assign(moduleDiffs, cwkTool.name, cwkDiffs);
      }
    }
    assert cwkTools[..|cwkTools|] == cwkTools;
  }

  /** The `main` loop: checks every coursework tool of every module, keeps a
      module's tool map when it is not empty. */
  method CollectDiffs(store: Store, sha256: string -> string, modules: seq<MmsModule>,
                      listing: string -> seq<Assignment>, render: string -> string) returns (diffs: ModuleDiffs)
    modifies store
    ensures (diffs, store.entries) == Gather(old(store.entries), sha256, modules, listing, render)
  {
    diffs := [];
    for i := 0 to |modules|
      invariant var run := RunModules(old(store.entries), sha256, modules[..i], listing, render);
        diffs == CollectNonEmpty(ModuleDicts(run.0)) && store.entries == run.1
    {
      ghost var before := RunModules(old(store.entries), sha256, modules[..i], listing, render);
      var mmsModule := modules[i];
      var moduleDiffs := CollectToolDiffs(store, sha256, GetTools(mmsModule, Some(Coursework)), listing, render);
      RunModulesSnoc(old(store.entries), sha256, modules, i, listing, render);
      ghost var checks := RunChecks(before.1, sha256, CourseworkTools(mmsModule), listing, render).0;
      ModuleDictsSnoc(before.0, mmsModule.moduleCode, checks);
      CollectNonEmptySnoc(ModuleDicts(before.0), (mmsModule.moduleCode, moduleDiffs));
      if |moduleDiffs| > 0 {
        diffs := Assign(diffs, mmsModule.moduleCode, moduleDiffs);
      }
    }
    assert modules[..|modules|] == modules;
  }

  /** One run of `main` after the configuration and login: collects the diffs
      and, when there are any, the e-mail to send to `address`. */
  method RunSpider(store: Store, sha256: string -> string, modules: seq<MmsModule>,
                   listing: string -> seq<Assignment>, render: string -> string,
                   fmt: Formats, address: string) returns (email: Option<string>)
    modifies store
    ensures var (diffs, updated) := Gather(old(store.entries), sha256, modules, listing, render);
      && store.entries == updated
      && (email.Some? <==> diffs != [])
      && (email.Some? ==> email.value == EmailMessage(address, MsgBody(diffs, fmt, render)))
  {
    var diffs := CollectDiffs(store, sha256, modules, listing, render);
    if |diffs| > 0 {
      var body := GenerateMsgBody(diffs, fmt, render);
      email := Some(EmailMessage(address, body));
    } else {
      email := None;
    }
  }
}
