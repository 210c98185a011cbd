/** The alert e-mail of the change tracker (src/mmspider.py): the text of one
    changed assignment and the message body that lists every change, grouped
    by module and then by coursework tool. */
module SpiderReport {
  import opened Seqs
  import opened Dicts
  import opened MmsCoursework
  import opened MmSpider

  const MSG_TEXT := "MMSpider has detected a change for some elements of coursework. These are detailed below."
  const SUBJECT_LINE := "MMSpider Alert: Coursework has changed"
  const CRLF := "\r\n"

  /** The diffs of one run: module code to (tool name to changed assignments). */
  type ModuleDiffs = Dict<Dict<seq<Assignment>>>

  /** Each part followed by a line break. */
  function Terminated(parts: seq<string>): (lines: seq<string>)
    ensures |lines| == |parts|
    ensures forall i :: 0 <= i < |parts| ==> lines[i] == parts[i] + CRLF
  {
    seq(|parts|, i requires 0 <= i < |parts| => parts[i] + CRLF)
  }

  /** The text `generate_cwk_str` gives one changed assignment: its rendering,
      then each rendered feedback entry on a line of its own. */
  function CwkString(a: Assignment, fmt: Formats, render: string -> string): string {
    Repr(a, fmt) + CRLF + Concat(Terminated(FeedbackBodies(a.feedbackUrls, render)))
  }

  /** `generate_cwk_str`. */
  method GenerateCwkStr(diff: Assignment, fmt: Formats, render: string -> string) returns (ret: string)
    ensures ret == CwkString(diff, fmt, render)
  {
    ret := AppendLines(Repr(diff, fmt) + CRLF, Terminated(FeedbackBodies(diff.feedbackUrls, render)));
  }

  /** The loop of `generate_cwk_str`: each feedback line appended in turn. */
  method AppendLines(head: string, lines: seq<string>) returns (ret: string)
    ensures ret == head + Concat(lines)
  {
    ret := head;
    for i := 0 to |lines|
      invariant ret == head + Concat(lines[..i])
    {
      assert lines[..i + 1] == lines[..i] + [lines[i]];
      ConcatSnoc(lines[..i], lines[i]);
      AppendAssoc(head, Concat(lines[..i]), lines[i]);
      ret := ret + lines[i];
    }
    assert lines[..|lines|] == lines;
  }

  /** The changed assignments of a tool, each followed by a blank line. */
  function DiffsText(diffs: seq<Assignment>, fmt: Formats, render: string -> string): string
    decreases |diffs|
  {
    if diffs == [] then ""
    else DiffsText(diffs[..|diffs| - 1], fmt, render) + (CwkString(diffs[|diffs| - 1], fmt, render) + CRLF)
  }

  /** One more changed assignment after a prefix of a tool's diffs. */
  lemma DiffsTextSnoc(diffs: seq<Assignment>, k: nat, fmt: Formats, render: string -> string)
    requires k < |diffs|
    ensures DiffsText(diffs[..k + 1], fmt, render) == DiffsText(diffs[..k], fmt, render) + (CwkString(diffs[k], fmt, render) + CRLF)
  {
    assert diffs[..k + 1][..k] == diffs[..k];
  }

  /** A tool's section: its header line, then each changed assignment. */
  function ToolSection(name: string, diffs: seq<Assignment>, fmt: Formats, render: string -> string): string {
    "Coursework tool name: " + name + CRLF + DiffsText(diffs, fmt, render)
  }

  function ToolsText(tools: Dict<seq<Assignment>>, fmt: Formats, render: string -> string): string
    decreases |tools|
  {
    if tools == [] then ""
    else
      var (name, diffs) := tools[|tools| - 1];
      ToolsText(tools[..|tools| - 1], fmt, render) + ToolSection(name, diffs, fmt, render)
  }

  /** A module's section: its header line, then one section per tool. */
  function ModuleSection(code: string, tools: Dict<seq<Assignment>>, fmt: Formats, render: string -> string): string {
    "Module " + code + ":" + CRLF + ToolsText(tools, fmt, render)
  }

  function ModulesText(diffs: ModuleDiffs, fmt: Formats, render: string -> string): string
    decreases |diffs|
  {
    if diffs == [] then ""
    else
      var (code, tools) := diffs[|diffs| - 1];
      ModulesText(diffs[..|diffs| - 1], fmt, render) + ModuleSection(code, tools, fmt, render)
  }

  /** The message body: the fixed preamble, then one section per module, in
      dictionary order. */
  function MsgBody(diffs: ModuleDiffs, fmt: Formats, render: string -> string): string {
    MSG_TEXT + CRLF + ModulesText(diffs, fmt, render)
  }

  /** The module sections of a body, one per module. */
  function ModuleSections(diffs: ModuleDiffs, fmt: Formats, render: string -> string): (sections: seq<string>)
    ensures |sections| == |diffs|
    ensures forall i :: 0 <= i < |diffs| ==> sections[i] == ModuleSection(diffs[i].0, diffs[i].1, fmt, render)
  {
    seq(|diffs|, i requires 0 <= i < |diffs| => ModuleSection(diffs[i].0, diffs[i].1, fmt, render))
  }

  /** The modules' text is exactly one section per module, in dictionary
      order. */
  lemma {:induction false} ModulesTextSections(diffs: ModuleDiffs, fmt: Formats, render: string -> string)
    ensures ModulesText(diffs, fmt, render) == Concat(ModuleSections(diffs, fmt, render))
    decreases |diffs|
  {
    if diffs != [] {
      var n := |diffs| - 1;
      var sections := ModuleSections(diffs, fmt, render);
      ModulesTextSections(diffs[..n], fmt, render);
      assert sections[..n] == ModuleSections(diffs[..n], fmt, render);
    }
  }

  /** Each module's section starts with its "Module" header line. */
  lemma ModuleSectionHeader(code: string, tools: Dict<seq<Assignment>>, fmt: Formats, render: string -> string)
    ensures "Module " + code + ":" + CRLF <= ModuleSection(code, tools, fmt, render)
  {
  }

  /** Sections are independent: the text for more modules is the text for the
      first ones followed by the new modules' sections. */
  lemma {:induction false} ModulesTextAppend(d1: ModuleDiffs, d2: ModuleDiffs, fmt: Formats, render: string -> string)
    ensures ModulesText(d1 + d2, fmt, render) == ModulesText(d1, fmt, render) + ModulesText(d2, fmt, render)
    decreases |d2|
  {
    if d2 == [] {
      assert d1 + d2 == d1;
    } else {
      var n := |d2| - 1;
      ModulesTextAppend(d1, d2[..n], fmt, render);
      assert (d1 + d2)[..|d1 + d2| - 1] == d1 + d2[..n];
      assert (d1 + d2)[|d1 + d2| - 1] == d2[n];
      AppendAssoc(ModulesText(d1, fmt, render), ModulesText(d2[..n], fmt, render),
                  ModuleSection(d2[n].0, d2[n].1, fmt, render));
    }
  }

  /** With nothing to report the body is the preamble alone. */
  lemma MsgBodyEmpty(fmt: Formats, render: string -> string)
    ensures MsgBody([], fmt, render) == MSG_TEXT + CRLF
  {
  }

  /** One more snoc onto a concatenation. */
  lemma ConcatSnoc(parts: seq<string>, last: string)
    ensures Concat(parts + [last]) == Concat(parts) + last
  {
    assert (parts + [last])[..|parts|] == parts;
  }

  lemma AppendAssoc(a: string, b: string, c: string)
    ensures a + (b + c) == (a + b) + c
  {
  }

  /** The innermost loop of `generate_msg_body`: one tool's header and its
      changed assignments, appended to the text so far. */
  method AppendToolSection(ret0: string, toolName: string, cwkDiffs: seq<Assignment>, fmt: Formats, render: string -> string)
    returns (ret: string)
    ensures ret == ret0 + ToolSection(toolName, cwkDiffs, fmt, render)
  {
    var header := "Coursework tool name: " + toolName + CRLF;
    ret := ret0 + header;
    for k := 0 to |cwkDiffs|
      invariant ret == ret0 + (header + DiffsText(cwkDiffs[..k], fmt, render))
    {
      var cwkStr := GenerateCwkStr(cwkDiffs[k], fmt, render);
      DiffsTextSnoc(cwkDiffs, k, fmt, render);
      AppendAssoc(header, DiffsText(cwkDiffs[..k], fmt, render), cwkStr + CRLF);
      AppendAssoc(ret0, header + DiffsText(cwkDiffs[..k], fmt, render), cwkStr + CRLF);
      ret := ret + (cwkStr + CRLF);
    }
    assert cwkDiffs[..|cwkDiffs|] == cwkDiffs;
  }

  /** The middle loop of `generate_msg_body`: one module's header and its
      tools' sections, appended to the text so far. */
  method AppendModuleSection(ret0: string, moduleCode: string, moduleDiffs: Dict<seq<Assignment>>,
                             fmt: Formats, render: string -> string) returns (ret: string)
    ensures ret == ret0 + ModuleSection(moduleCode, moduleDiffs, fmt, render)
  {
    var header := "Module " + moduleCode + ":" + CRLF;
    ret := ret0 + header;
    for j := 0 to |moduleDiffs|
      invariant ret == ret0 + (header + ToolsText(moduleDiffs[..j], fmt, render))
    {
      var (toolName, cwkDiffs) := moduleDiffs[j];
      var section := ToolSection(toolName, cwkDiffs, fmt, render);
      assert moduleDiffs[..j + 1][..j] == moduleDiffs[..j];
      AppendAssoc(header, ToolsText(moduleDiffs[..j], fmt, render), section);
      AppendAssoc(ret0, header + ToolsText(moduleDiffs[..j], fmt, render), section);
      ret := AppendToolSection(ret, toolName, cwkDiffs, fmt, render);
    }
    assert moduleDiffs[..|moduleDiffs|] == moduleDiffs;
  }

  /** `generate_msg_body`: the preamble, then each module's section. */
  method GenerateMsgBody(diffs: ModuleDiffs, fmt: Formats, render: string -> string) returns (ret: string)
    ensures ret == MsgBody(diffs, fmt, render)
  {
    var preamble := MSG_TEXT + CRLF;
    ret := preamble;
    for i := 0 to |diffs|
      invariant ret == preamble + ModulesText(diffs[..i], fmt, render)
    {
      var (moduleCode, moduleDiffs) := diffs[i];
      assert diffs[..i + 1][..i] == diffs[..i];
      AppendAssoc(preamble, ModulesText(diffs[..i], fmt, render), ModuleSection(moduleCode, moduleDiffs, fmt, render));
      ret := AppendModuleSection(ret, moduleCode, moduleDiffs, fmt, render);
    }
    assert diffs[..|diffs|] == diffs;
  }

  /** The message `email_diffs` sends to `address`: headers, a blank line and
      the body. */
  function EmailMessage(address: string, body: string): (msg: string)
    ensures |body| <= |msg| && msg[|msg| - |body|..] == body
    ensures msg[..|msg| - |body|] == EmailHeaders(address)
  {
    var msg := EmailHeaders(address) + body;
    assert msg[..|msg| - |body|] == EmailHeaders(address);
    msg
  }

  /** The header block of the alert: sender and recipient are both `address`,
      the subject is the alert's subject line, and a blank line ends it. */
  function EmailHeaders(address: string): (h: string)
    ensures var from := "From: " + address + CRLF;
      var to := "To: " + address + CRLF;
      && |from| + |to| <= |h|
      && h[..|from|] == from
      && h[|from|..|from| + |to|] == to
      && h[|from| + |to|..] == "Subject: " + SUBJECT_LINE + CRLF + CRLF
  {
    var from := "From: " + address + CRLF;
    var to := "To: " + address + CRLF;
    var rest := "Subject: " + SUBJECT_LINE + CRLF + CRLF;
    assert (from + to + rest)[|from|..|from| + |to|] == to;
    from + to + rest
  }
}
