/** The coursework side of the portal library (src/mmslib.py): assignments,
    the per-row rules that turn a row of the coursework table into an
    assignment, the feedback-link field, the weighting regex, the text
    rendering of an assignment and the download guard. A row is given as its
    already-extracted cells; the date, float and int parsers of the runtime
    are parameters. */
module MmsCoursework {
  import opened Wrappers
  import opened Seqs
  import opened Text
  import opened MmsLib

  /** A `time.struct_time`, produced only by the date parser. */
  type Time(==)

  /** A Python float (grades), produced only by the float parser. */
  type Float(==)

  /** The runtime's parsers, each `None` where it would raise `ValueError`:
      `time.strptime(text, format)`, `float(text)` and `int(text)`. */
  datatype Parsers = Parsers(
    strptime: (string, string) -> Option<Time>,
    toFloat: string -> Option<Float>,
    toInt: string -> Option<int>)

  const DUE_DATE_FORMAT := "%d %b %y, %H:%M"
  const FEEDBACK_DATE_FORMAT := "%d %b %y"
  const ADD_COMMENT := "[Add Comment]"
  const JSON_FORMAT_SUFFIX := "&template_format=application/json"

  /** A cell (`td`) of the coursework table, as far as the parser looks at it:
      its first child's text (`None` when it has no children), its first link,
      the items of its `ul.horizontal` (each item's first link, if any) and the
      value of its first `input`. */
  datatype Cell = Cell(
    text: Option<string>,
    anchor: Option<Link>,
    listItems: Option<seq<Option<Link>>>,
    inputValue: Option<string>)

  datatype Assignment = Assignment(
    id: int,
    name: string,
    dueDate: Time,
    feedbackDate: Time,
    submittedDate: Option<Time>,
    submissionUrl: Option<string>,
    feedbackUrls: seq<string>,
    grade: Option<Float>,
    weighting: Option<nat>)

  /** `is_float`: whether `float(text)` succeeds. */
  function IsFloat(p: Parsers, text: string): (ok: bool)
    ensures ok <==> p.toFloat(text) != None
  {
    p.toFloat(text).Some?
  }

  // ---- Feedback links.

  /** An item of the feedback list that names real feedback: it has a link,
      and the link is not the "add comment" action. */
  predicate IsFeedbackLink(item: Option<Link>) {
    item.Some? && item.value.text != ADD_COMMENT
  }

  /** The JSON feedback URL of a feedback link on the page at `url`. */
  function FeedbackUrl(url: string, link: Link): string {
    url + link.href + JSON_FORMAT_SUFFIX
  }

  /** The feedback URLs of a list of items, in item order. */
  function FeedbackUrls(items: seq<Option<Link>>, url: string): (r: seq<string>)
    ensures |r| <= |items|
    decreases |items|
  {
    if items == [] then []
    else
      var rest := FeedbackUrls(items[..|items| - 1], url);
      var item := items[|items| - 1];
      if IsFeedbackLink(item) then rest + [FeedbackUrl(url, item.value)] else rest
  }

  /** The feedback URLs are the kept items, filtered in order, each turned
      into its URL. */
  lemma {:induction false} FeedbackUrlsAreKeptItems(items: seq<Option<Link>>, url: string)
    ensures var kept := Filter(IsFeedbackLink, items);
      && |FeedbackUrls(items, url)| == |kept|
      && forall k :: 0 <= k < |kept| ==> kept[k].Some? && FeedbackUrls(items, url)[k] == FeedbackUrl(url, kept[k].value)
    decreases |items|
  {
    if items != [] {
      var init := items[..|items| - 1];
      FeedbackUrlsAreKeptItems(init, url);
    }
  }

  /** A URL is listed exactly when some item is a feedback link with that URL;
      items without a link and "add comment" links contribute nothing. */
  lemma {:induction false} FeedbackUrlsMembers(items: seq<Option<Link>>, url: string, e: string)
    ensures e in FeedbackUrls(items, url) <==>
      exists i :: 0 <= i < |items| && IsFeedbackLink(items[i]) && e == FeedbackUrl(url, items[i].value)
    decreases |items|
  {
    if items != [] {
      var init := items[..|items| - 1];
      FeedbackUrlsMembers(init, url, e);
      if e in FeedbackUrls(init, url) {
        var i :| 0 <= i < |init| && IsFeedbackLink(init[i]) && e == FeedbackUrl(url, init[i].value);
        assert items[i] == init[i];
      }
      if exists i :: 0 <= i < |items| && IsFeedbackLink(items[i]) && e == FeedbackUrl(url, items[i].value) {
        var i :| 0 <= i < |items| && IsFeedbackLink(items[i]) && e == FeedbackUrl(url, items[i].value);
        if i < |init| {
          assert init[i] == items[i];
        }
      }
    }
  }

  /** `_parse_cwk_feedback_field`: walks the `li` items of the cell's
      `ul.horizontal` and appends the URL of each real feedback link. */
  method ParseCwkFeedbackField(cell: Cell, url: string) returns (r: Result<seq<string>, ParseError>)
    ensures cell.listItems.None? ==> r == Err(NoFeedbackList)
    ensures cell.listItems.Some? ==> r == Ok(FeedbackUrls(cell.listItems.value, url))
  {
    if cell.listItems.None? {
      return Err(NoFeedbackList);
    }
    var items := cell.listItems.value;
    var entries: seq<string> := [];
    for i := 0 to |items|
      invariant entries == FeedbackUrls(items[..i], url)
    {
      assert items[..i + 1][..i] == items[..i];
      var item := items[i];
      if item.Some? && item.value.text != ADD_COMMENT {
        entries := entries + [url + item.value.href + JSON_FORMAT_SUFFIX];
      }
    }
    assert items[..|items|] == items;
    r := Ok(entries);
  }

  // ---- The weighting regex `(\d*) %` under `re.search`.

  /** `(\d*) %` matches `s` at `i` with the digits `s[i..j]`. */
  predicate WeightAt(s: string, i: int, j: int) {
    && 0 <= i <= j && j + 2 <= |s|
    && (forall k :: i <= k < j ==> IsDigit(s[k]))
    && s[j] == ' ' && s[j + 1] == '%'
  }

  /** The end of the run of digits that starts at `i`. */
  function DigitRunEnd(s: string, i: nat): (j: nat)
    requires i <= |s|
    ensures i <= j <= |s| && (forall k :: i <= k < j ==> IsDigit(s[k])) && (j < |s| ==> !IsDigit(s[j]))
    decreases |s| - i
  {
    if i == |s| || !IsDigit(s[i]) then i else DigitRunEnd(s, i + 1)
  }

  /** `re.search` for the weighting pattern from start position `i` on; the
      greedy `\d*` can only stop at the end of the digit run. */
  function SearchWeighting(s: string, i: nat): (r: Option<(nat, nat)>)
    requires i <= |s|
    ensures r.Some? ==> WeightAt(s, r.value.0, r.value.1)
    decreases |s| - i
  {
    if i == |s| then None
    else
      var j := DigitRunEnd(s, i);
      if j + 2 <= |s| && s[j] == ' ' && s[j + 1] == '%' then Some((i, j))
      else SearchWeighting(s, i + 1)
  }

  /** The search returns the leftmost match, and nothing when there is none. */
  lemma {:induction false} SearchWeightingSpec(s: string, i: nat)
    requires i <= |s|
    ensures var r := SearchWeighting(s, i);
      && (r.Some? ==> i <= r.value.0 && forall i', j' :: i <= i' < r.value.0 ==> !WeightAt(s, i', j'))
      && (r.None? ==> forall i', j' :: i <= i' ==> !WeightAt(s, i', j'))
    decreases |s| - i
  {
    if i < |s| {
      var j := DigitRunEnd(s, i);
      if !(j + 2 <= |s| && s[j] == ' ' && s[j + 1] == '%') {
        forall j' | WeightAt(s, i, j') ensures false {
        }
        SearchWeightingSpec(s, i + 1);
      }
    }
  }

  /** The weighting of a weighting cell's text: the number the leftmost
      `(\d*) %` match captured; `None` when nothing matches, and also when the
      captured digits are empty (`float("")` raises and the error is caught). */
  function WeightingOf(text: string): Option<nat>
  {
    match SearchWeighting(text, 0)
    case None => None
    case Some((i, j)) => if i == j then None else Some(DigitsValue(text[i..j]))
  }

  /** The weighting in terms of the regex alone: no match gives `None`; the
      leftmost match gives the value of its digits, or `None` if it has none. */
  lemma WeightingOfSpec(text: string, i: nat, j: nat)
    ensures (forall i', j' :: !WeightAt(text, i', j')) ==> WeightingOf(text) == None
    ensures WeightAt(text, i, j) && (forall i', j' :: 0 <= i' < i ==> !WeightAt(text, i', j')) ==>
      WeightingOf(text) == (if i == j then None else Some(DigitsValue(text[i..j])))
  {
    SearchWeightingSpec(text, 0);
    if WeightAt(text, i, j) && (forall i', j' :: 0 <= i' < i ==> !WeightAt(text, i', j')) {
      var r := SearchWeighting(text, 0);
      assert r.Some?;
      var (i0, j0) := r.value;
      assert i0 == i;
    }
  }

  /** "50 %" weighs 50; " %" and "N/A" carry no weighting. */
  lemma WeightingExamples()
    ensures WeightingOf("50 %") == Some(50)
    ensures WeightingOf(" %") == None
    ensures WeightingOf("N/A") == None
  {
    WeightingOfSpec("50 %", 0, 2);
    assert "50 %"[0..2] == "50";
    assert DigitsValue("50") == 5 * 10 + 0 by {
      assert "50"[..1] == "5";
      assert "5"[..0] == "";
    }
    WeightingOfSpec(" %", 0, 0);
    SearchWeightingSpec("N/A", 0);
  }

  // ---- One row of the coursework table.

  function CellAt(cells: seq<Cell>, column: nat): (r: Result<Cell, ParseError>)
    ensures r.Ok? <==> column < |cells|
  {
    if column < |cells| then Ok(cells[column]) else Err(MissingCell(column))
  }

  /** `children[column].contents[0]`. */
  function CellText(cells: seq<Cell>, column: nat): (r: Result<string, ParseError>)
    ensures r.Ok? <==> column < |cells| && cells[column].text.Some?
  {
    if column >= |cells| then Err(MissingCell(column))
    else if cells[column].text.None? then Err(EmptyCell(column))
    else Ok(cells[column].text.value)
  }

  /** A date the row cannot do without: a parse failure ends the page. */
  function RequiredDate(p: Parsers, text: string, format: string, column: nat): (r: Result<Time, ParseError>)
    ensures r.Ok? <==> p.strptime(text, format).Some?
  {
    match p.strptime(text, format)
    case None => Err(BadDate(column))
    case Some(t) => Ok(t)
  }

  /** The submitted date: absent for an empty cell, and absent when the text
      does not parse (the `ValueError` is caught). */
  function SubmittedDate(p: Parsers, cell: Cell): (d: Option<Time>)
    ensures d.None? <==> cell.text.None? || p.strptime(cell.text.value, DUE_DATE_FORMAT).None?
    ensures d.Some? ==> p.strptime(cell.text.value, DUE_DATE_FORMAT) == d
  {
    if cell.text.Some? then p.strptime(cell.text.value, DUE_DATE_FORMAT) else None
  }

  /** The grade: absent for an empty cell and for text that is not a float. */
  function GradeOf(p: Parsers, cell: Cell): (g: Option<Float>)
    ensures g.None? <==> cell.text.None? || !IsFloat(p, cell.text.value)
    ensures g.Some? ==> p.toFloat(cell.text.value) == g
  {
    if cell.text.Some? && IsFloat(p, cell.text.value) then p.toFloat(cell.text.value) else None
  }

  /** Whether a row has the shape the parser needs: ten cells, a name, due and
      feedback dates that parse, a feedback list, a chart link and a hidden
      integer id. Everything else in a row is optional. */
  predicate WellFormedRow(p: Parsers, cells: seq<Cell>) {
    && |cells| >= 10
    && cells[0].text.Some?
    && cells[1].text.Some? && p.strptime(cells[1].text.value, DUE_DATE_FORMAT).Some?
    && cells[2].text.Some? && p.strptime(cells[2].text.value, FEEDBACK_DATE_FORMAT).Some?
    && cells[5].listItems.Some?
    && cells[7].text.Some?
    && cells[8].anchor.Some?
    && cells[9].inputValue.Some? && p.toInt(cells[9].inputValue.value).Some?
  }

  /** The assignment a row of the coursework table on the page at `url`
      describes, or the error the first missing piece raises. */
  function AssignmentOf(p: Parsers, cells: seq<Cell>, url: string): (r: Result<Assignment, ParseError>)
    ensures r.Ok? <==> WellFormedRow(p, cells)
    ensures r.Ok? ==>
      var a := r.value;
      && a.name == cells[0].text.value
      && p.strptime(cells[1].text.value, DUE_DATE_FORMAT) == Some(a.dueDate)
      && p.strptime(cells[2].text.value, FEEDBACK_DATE_FORMAT) == Some(a.feedbackDate)
      && (a.submissionUrl.Some? <==> cells[3].anchor.Some?)
      && (a.submissionUrl.Some? ==> a.submissionUrl.value == url + cells[3].anchor.value.href)
      && a.submittedDate == SubmittedDate(p, cells[4])
      && a.feedbackUrls == FeedbackUrls(cells[5].listItems.value, url)
      && a.grade == GradeOf(p, cells[6])
      && a.weighting == WeightingOf(cells[7].text.value)
      && p.toInt(cells[9].inputValue.value) == Some(a.id)
  {
    var name :- CellText(cells, 0);
    var dueText :- CellText(cells, 1);
    var dueDate :- RequiredDate(p, dueText, DUE_DATE_FORMAT, 1);
    var feedbackText :- CellText(cells, 2);
    var feedbackDate :- RequiredDate(p, feedbackText, FEEDBACK_DATE_FORMAT, 2);
    var fileCell :- CellAt(cells, 3);
    var fileUrl := if fileCell.anchor.Some? then Some(url + fileCell.anchor.value.href) else None;
    var submittedCell :- CellAt(cells, 4);
    var feedbackCell :- CellAt(cells, 5);
    var feedback :-
      if feedbackCell.listItems.None? then Err(NoFeedbackList)
      else Ok(FeedbackUrls(feedbackCell.listItems.value, url));
    var gradeCell :- CellAt(cells, 6);
    var weightingText :- CellText(cells, 7);
    var chartCell :- CellAt(cells, 8);
    var chartLink :- if chartCell.anchor.None? then Err(NoAnchor(8)) else Ok(chartCell.anchor.value.href);
    var idCell :- CellAt(cells, 9);
    var idText :- if idCell.inputValue.None? then Err(NoInput) else Ok(idCell.inputValue.value);
    var id :- if p.toInt(idText).None? then Err(BadId) else Ok(p.toInt(idText).value);
    Ok(Assignment(id, name, dueDate, feedbackDate, SubmittedDate(p, submittedCell), fileUrl,
                  feedback, GradeOf(p, gradeCell), WeightingOf(weightingText)))
  }

  /** A row of fewer than ten cells ends the page with an error; it is never skipped. */
  lemma ShortRowFails(p: Parsers, cells: seq<Cell>, url: string)
    requires |cells| < 10
    ensures AssignmentOf(p, cells, url).Err?
  {
  }

  /** The body of the row loop of `_parse_cwk`, statement by statement. */
  method ParseRow(p: Parsers, children: seq<Cell>, url: string) returns (r: Result<Assignment, ParseError>)
    ensures r == AssignmentOf(p, children, url)
  {
    if |children| < 1 { return Err(MissingCell(0)); }
    if children[0].text.None? { return Err(EmptyCell(0)); }
    var name := children[0].text.value;
    if |children| < 2 { return Err(MissingCell(1)); }
    if children[1].text.None? { return Err(EmptyCell(1)); }
    var dueDate := p.strptime(children[1].text.value, DUE_DATE_FORMAT);
    if dueDate.None? { return Err(BadDate(1)); }
    if |children| < 3 { return Err(MissingCell(2)); }
    if children[2].text.None? { return Err(EmptyCell(2)); }
    var feedbackDate := p.strptime(children[2].text.value, FEEDBACK_DATE_FORMAT);
    if feedbackDate.None? { return Err(BadDate(2)); }
    if |children| < 4 { return Err(MissingCell(3)); }
    var fileUrl: Option<string> := None;
    if children[3].anchor.Some? {
      fileUrl := Some(url + children[3].anchor.value.href);
    }
    if |children| < 5 { return Err(MissingCell(4)); }
    var submittedDate: Option<Time> := None;
    if children[4].text.Some? {
      submittedDate := p.strptime(children[4].text.value, DUE_DATE_FORMAT);
    }
    if |children| < 6 { return Err(MissingCell(5)); }
    var feedback := ParseCwkFeedbackField(children[5], url);
    if feedback.Err? { return Err(feedback.error); }
    if |children| < 7 { return Err(MissingCell(6)); }
    var grade: Option<Float> := None;
    if children[6].text.Some? {
      var gradeText := children[6].text.value;
      if IsFloat(p, gradeText) {
        grade := p.toFloat(gradeText);
      }
    }
    if |children| < 8 { return Err(MissingCell(7)); }
    if children[7].text.None? { return Err(EmptyCell(7)); }
    var weighting := WeightingOf(children[7].text.value);
    if |children| < 9 { return Err(MissingCell(8)); }
    if children[8].anchor.None? { return Err(NoAnchor(8)); }
    if |children| < 10 { return Err(MissingCell(9)); }
    if children[9].inputValue.None? { return Err(NoInput); }
    var id := p.toInt(children[9].inputValue.value);
    if id.None? { return Err(BadId); }
    r := Ok(Assignment(id.value, name, dueDate.value, feedbackDate.value, submittedDate, fileUrl,
                       feedback.value, grade, weighting));
  }

  /** `_parse_cwk`: one assignment per row of the table body, in row order;
      the first row that fails ends the page with its error. */
  method ParseCwk(p: Parsers, table: Option<seq<seq<Cell>>>, url: string)
    returns (r: Result<seq<Assignment>, ParseError>)
    ensures table.None? ==> r == Err(NoTable)
    ensures table.Some? ==>
      (r.Ok? <==> forall i :: 0 <= i < |table.value| ==> AssignmentOf(p, table.value[i], url).Ok?)
    ensures r.Ok? ==>
      && |r.value| == |table.value|
      && forall i :: 0 <= i < |r.value| ==> Ok(r.value[i]) == AssignmentOf(p, table.value[i], url)
    ensures r.Err? && table.Some? ==>
      exists i :: 0 <= i < |table.value|
        && AssignmentOf(p, table.value[i], url) == Err(r.error)
        && forall j :: 0 <= j < i ==> AssignmentOf(p, table.value[j], url).Ok?
  {
    if table.None? {
      return Err(NoTable);
    }
    var entries := table.value;
    var ret: seq<Assignment> := [];
    for i := 0 to |entries|
      invariant |ret| == i
      invariant forall k :: 0 <= k < i ==> Ok(ret[k]) == AssignmentOf(p, entries[k], url)
    {
      var assignment := ParseRow(p, entries[i], url);
      if assignment.Err? {
        return Err(assignment.error);
      }
      ret := ret + [assignment.value];
    }
    r := Ok(ret);
  }

  // ---- Rendering and download.

  /** The runtime's formatters: `time.strftime`, and `"%f" %` on a grade and
      on a weighting. */
  datatype Formats = Formats(
    strftime: (Time, string) -> string,
    showGrade: Float -> string,
    showWeighting: nat -> string)

  /** `"%s" % value` for an optional string. */
  function ShowOptional(s: Option<string>): string {
    if s.Some? then s.value else "None"
  }

  /** The header, id and date lines. */
  function HeaderLines(a: Assignment, fmt: Formats): (lines: seq<string>)
    ensures |lines| == 4
    ensures lines[0] == "------ Assignment " + a.name + " -------"
    ensures lines[1] == "ID: " + IntToString(a.id)
    ensures lines[2] == "Due date: " + fmt.strftime(a.dueDate, DUE_DATE_FORMAT)
    ensures lines[3] == "Feedback date: " + fmt.strftime(a.feedbackDate, FEEDBACK_DATE_FORMAT)
    ensures "Not submitted" !in lines && "No grade recorded" !in lines && "Not weighted" !in lines
  {
    var lines := [
      "------ Assignment " + a.name + " -------",
      "ID: " + IntToString(a.id),
      "Due date: " + fmt.strftime(a.dueDate, DUE_DATE_FORMAT),
      "Feedback date: " + fmt.strftime(a.feedbackDate, FEEDBACK_DATE_FORMAT)];
    assert lines[0][0] == '-' && lines[1][0] == 'I' && lines[2][0] == 'D' && lines[3][0] == 'F';
    lines
  }

  /** The submission lines: the submitted date and the uploaded file's URL,
      or "Not submitted". */
  function SubmissionLines(a: Assignment, fmt: Formats): (lines: seq<string>)
    ensures |lines| == if a.submittedDate.Some? then 2 else 1
    ensures a.submittedDate.Some? ==>
      && lines[0] == "Submitted date: " + fmt.strftime(a.submittedDate.value, DUE_DATE_FORMAT)
      && lines[1] == "Uploaded file URL: " + ShowOptional(a.submissionUrl)
    ensures a.submittedDate.None? ==> lines[0] == "Not submitted"
    ensures "Not submitted" in lines <==> a.submittedDate.None?
    ensures "No grade recorded" !in lines && "Not weighted" !in lines
  {
    if a.submittedDate.Some? then
      var lines := [
        "Submitted date: " + fmt.strftime(a.submittedDate.value, DUE_DATE_FORMAT),
        "Uploaded file URL: " + ShowOptional(a.submissionUrl)];
      assert lines[0][0] == 'S' && lines[1][0] == 'U';
      lines
    else
      var lines := ["Not submitted"];
      assert "Not submitted"[4] != "Not weighted"[4];
      lines
  }

  /** The grade line, or "No grade recorded". */
  function GradeLines(a: Assignment, fmt: Formats): (lines: seq<string>)
    ensures |lines| == 1
    ensures lines[0] == if a.grade.Some? then "Grade: " + fmt.showGrade(a.grade.value) else "No grade recorded"
    ensures "No grade recorded" in lines <==> a.grade.None?
    ensures "Not submitted" !in lines && "Not weighted" !in lines
  {
    if a.grade.Some? then
      var line := "Grade: " + fmt.showGrade(a.grade.value);
      assert line[0] == 'G';
      [line]
    else
      assert "No grade recorded"[2] != "Not submitted"[2];
      ["No grade recorded"]
  }

  /** The weighting line, or "Not weighted". */
  function WeightingLines(a: Assignment, fmt: Formats): (lines: seq<string>)
    ensures |lines| == 1
    ensures lines[0] == if a.weighting.Some? then "Weighting: " + fmt.showWeighting(a.weighting.value) else "Not weighted"
    ensures "Not weighted" in lines <==> a.weighting.None?
    ensures "Not submitted" !in lines && "No grade recorded" !in lines
  {
    if a.weighting.Some? then
      var line := "Weighting: " + fmt.showWeighting(a.weighting.value);
      assert line[0] == 'W';
      [line]
    else
      assert "Not weighted"[4] != "Not submitted"[4];
      assert "Not weighted"[2] != "No grade recorded"[2];
      ["Not weighted"]
  }

  /** The lines `__repr__` joins, in order: a header, the id and the two
      dates, then the submission lines, the grade line and the weighting
      line, each with its "absent" form. */
  function AssignmentLines(a: Assignment, fmt: Formats): (lines: seq<string>)
    ensures |lines| == if a.submittedDate.Some? then 8 else 7
    ensures lines[..4] == HeaderLines(a, fmt)
    ensures lines[4..|lines| - 2] == SubmissionLines(a, fmt)
    ensures lines[|lines| - 2] == GradeLines(a, fmt)[0]
    ensures lines[|lines| - 1] == WeightingLines(a, fmt)[0]
    ensures "Not submitted" in lines <==> a.submittedDate.None?
    ensures "No grade recorded" in lines <==> a.grade.None?
    ensures "Not weighted" in lines <==> a.weighting.None?
  {
    var lines := HeaderLines(a, fmt) + SubmissionLines(a, fmt) + GradeLines(a, fmt) + WeightingLines(a, fmt);
    assert lines[..4] == HeaderLines(a, fmt);
    assert lines[4..|lines| - 2] == SubmissionLines(a, fmt);
    lines
  }

  /** The rendering can be read back: two assignments with the same lines have
      the same name, id and grade/weighting/submission presence, and when
      submitted the same uploaded-file text. */
  lemma AssignmentLinesReadBack(a: Assignment, b: Assignment, fmt: Formats)
    requires AssignmentLines(a, fmt) == AssignmentLines(b, fmt)
    ensures a.name == b.name && a.id == b.id
    ensures a.submittedDate.None? <==> b.submittedDate.None?
    ensures a.grade.None? <==> b.grade.None?
    ensures a.weighting.None? <==> b.weighting.None?
    ensures a.submittedDate.Some? ==> ShowOptional(a.submissionUrl) == ShowOptional(b.submissionUrl)
  {
    var la, lb := AssignmentLines(a, fmt), AssignmentLines(b, fmt);
    assert la[0] == HeaderLines(a, fmt)[0] && lb[0] == HeaderLines(b, fmt)[0];
    AffixInjective("------ Assignment ", a.name, b.name, " -------");
    assert la[1] == HeaderLines(a, fmt)[1] && lb[1] == HeaderLines(b, fmt)[1];
    AffixInjective("ID: ", IntToString(a.id), IntToString(b.id), "");
    IntToStringInjective(a.id, b.id);
    if a.submittedDate.Some? {
      assert la[5] == SubmissionLines(a, fmt)[1] && lb[5] == SubmissionLines(b, fmt)[1];
      AffixInjective("Uploaded file URL: ", ShowOptional(a.submissionUrl), ShowOptional(b.submissionUrl), "");
    }
  }

  /** `__repr__` of an assignment. */
  function Repr(a: Assignment, fmt: Formats): string {
    Join("\n", AssignmentLines(a, fmt))
  }

  datatype DownloadError = CourseworkNotAvailable

  /** The guard of `download_submission`: the URL to download, or
      `CourseworkNotAvailable` when nothing was uploaded. */
  function DownloadSubmission(a: Assignment): (r: Result<string, DownloadError>)
    ensures r.Err? <==> a.submissionUrl.None?
    ensures r.Ok? ==> r.value == a.submissionUrl.value
  {
    if a.submissionUrl.None? then Err(CourseworkNotAvailable) else Ok(a.submissionUrl.value)
  }

  /** A parsed assignment can be downloaded exactly when its row had a link in
      the submission-file cell, and the download URL is that link on the page URL. */
  lemma DownloadNeedsFileLink(p: Parsers, cells: seq<Cell>, url: string)
    requires AssignmentOf(p, cells, url).Ok?
    ensures var d := DownloadSubmission(AssignmentOf(p, cells, url).value);
      && (d.Ok? <==> cells[3].anchor.Some?)
      && (d.Ok? ==> d.value == url + cells[3].anchor.value.href)
  {
  }
}
