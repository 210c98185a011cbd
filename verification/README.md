# mmslib / mmspider in Dafny

A model of the two halves of a coursework watcher for the St Andrews MMS
portal, with proofs about it.

- `src/mmslib.py` is the extraction layer. It classifies tools by the class of
  their link. It builds the module list from the headings of the "my modules"
  page, matching each heading's link against `/mms/module/(.+)/(.+)/(.+)/`. It
  turns each row of a coursework table into an assignment: name, due and
  feedback dates, submitted date, uploaded-file URL, feedback URLs, grade, the
  weighting captured by `(\d*) %`, and the id. It also renders an assignment as
  text and guards the submission download.
- `src/mmspider.py` is the change tracker. It keeps a store of one snapshot per
  coursework tool, keyed by the SHA-256 digest of the tool's URL. Each snapshot
  maps `str(id)` to a persistent record of an assignment. On each run, every
  coursework tool of every module is checked. A tool seen for the first time is
  recorded silently. For a known tool, the assignments that are new or whose
  record changed are reported, and the snapshot is updated. The non-empty
  reports are grouped by module and by tool, and one alert e-mail goes out when
  there is anything to report.

The model is spread over these files:

- `wrappers.dfy`, `seqs.dfy`, `text.dfy` and `dicts.dfy` hold the general
  pieces.
  - `Option` and `Result`.
  - `Filter`, `Concat` and `Join` on sequences.
  - Python's `str` on integers, and reading digits back.
  - Python dictionaries with string keys, modelled as key/value pairs in
    insertion order.
- `mmslib_modules.dfy` holds tool kinds, tools, modules, the module-URL regex
  and the module list.
- `mmslib_coursework.dfy` holds assignments, row parsing, the feedback field,
  the weighting regex, `__repr__` and the download guard.
- `mmspider.dfy` holds persistent records, snapshots, `check_cwk` (as the
  function `Check` and the method `CheckCwk` on the `Store` class) and
  `populate_store`.
- `mmspider_report.dfy` holds `generate_cwk_str`, `generate_msg_body` and the
  e-mail text.
- `mmspider_main.dfy` holds the loop of `main`: `CollectDiffs` and `RunSpider`.

Pages enter the model already broken into the parts the parser reads. The
coursework table is a list of rows of `Cell`s. The module page is a list of
`Heading`s, each with its link and tool links.

The following runtime services are parameters of the model:

- **`Parsers`**: `time.strptime`, `float` and `int`. Each returns `None` where
  Python raises `ValueError`.
- **`Formats`**: `time.strftime`, and `%f` on a grade or a weighting.
- **`sha256`**: the hex digest of a tool URL.
- **`render`**: fetching a feedback URL and taking `str` of the feedback it
  describes.
- **`listing`**: the current assignments of a coursework tool, given its URL.

A markup error that makes Python raise ends the parse. It is modelled as an
`Err` carrying a `ParseError`.

Three consequences of the code are worth stating, because they are easy to
misread:

- **Stale ids stay in the store.** `check_cwk` updates the stored dictionary
  in place (src/mmspider.py:81-95) rather than replacing it, so ids that left
  the listing stay stored with their old records. See `MmSpider.SweepStore`
  and `MmSpider.CheckKeepsStale`.
- **Feedback is compared by content, not by URL.** The persistent record
  stores `map(str, get_feedback())` (src/mmspider.py:27), so equality compares
  the rendered feedback bodies, not the feedback URLs. See
  `MmSpider.RecordsEqualIff`.
- **Only the persistent record is compared.** The record has no submitted
  date, uploaded-file URL or weighting (src/mmspider.py:16-30), so a change
  to those alone is never reported. See
  `MmSpider.RecordIgnoresUntrackedFields`.

## Model

| member | source | states |
|---|---|---|
| MmsLib.FromString | src/mmslib.py:52-68 | each of the seven class strings gives its kind and only it does; every other string gives `Invalid` |
| MmsLib.FromStringOnto | src/mmslib.py:52-68 | every kind, `Invalid` included, is the classification of some string |
| MmsLib.ShowString | src/mmslib.py:71-87 | the label is "Invalid Tool" exactly for `Invalid` |
| MmsLib.ShowStringInjective | src/mmslib.py:71-87 | the eight labels are pairwise distinct |
| MmsLib.GetTools | src/mmslib.py:113-116 | with no kind, all tools; with a kind, exactly the tools of that kind, each as often as in the module, in their original order |
| MmsLib.ToolFromLink | src/mmslib.py:303-313 | name is the link text, URL is the base URL plus the href, kind is the classification of the second class, and a coursework tool is built exactly for kind Coursework |
| MmsLib.ToolsOf | src/mmslib.py:295-316 | no tool list gives no tools; otherwise one tool per link in order, and it fails (`NoToolClass`) exactly when some link has fewer than two classes |
| MmsLib.ParseModuleTools | src/mmslib.py:295-316 | the loop over the tool links computes `ToolsOf` |
| MmsLib.ToolsOfPrefixErr | src/mmslib.py:301-303 | a failing link ends the tool list with that failure, whatever follows |
| MmsLib.FirstNewline | src/mmslib.py:280-281 | the first newline position (`.` does not match a newline) |
| MmsLib.LastSlash | src/mmslib.py:280-281 | the last slash before a bound, or none |
| MmsLib.MatchGroups | src/mmslib.py:280-281 | the three slash positions satisfy the pattern, are the largest ones that do (greedy groups), and none is returned when no positions satisfy it |
| MmsLib.SearchModuleUrl | src/mmslib.py:280-281 | a returned start and slash positions form a match of the whole pattern |
| MmsLib.SearchModuleUrlSpec | src/mmslib.py:280-281 | the search finds the leftmost start with a match, with the greedy groups there, and nothing exactly when no start matches |
| MmsLib.NoMatchAt | src/mmslib.py:280-281 | a start where the prefix or the groups fail has no match |
| MmsLib.MatchModuleUrl | src/mmslib.py:279-287 | the `re.search` and its three groups; its meaning is stated by `MatchModuleUrlSpec` (leftmost, greedy match; `None` exactly when the pattern occurs nowhere) |
| MmsLib.MatchModuleUrlSpec | src/mmslib.py:280-287 | `None` exactly when the pattern occurs nowhere; otherwise year, semester and code are the groups of the leftmost, greedy match |
| MmsLib.ModuleOf | src/mmslib.py:276-291 | a heading without a link fails; an unmatched link is skipped; a matched link gives a module exactly when its tool list parses (and otherwise the tool list's error), with the URL's code and semester, the link text as name and the tools of its tool list |
| MmsLib.ModulesOf | src/mmslib.py:269-292 | the module list of a page; its meaning is stated by `ParseModulesList`, `ModulesOfBound`, `ModulesOfAppend`, `UnmatchedHeadingSkipped`, `MatchedHeadingListed` and `ModulesOfFromHeadings` |
| MmsLib.ParseModulesList | src/mmslib.py:269-292 | the loop over the headings computes `ModulesOf` |
| MmsLib.ModulesOfPrefixErr | src/mmslib.py:274-291 | the first failing heading ends the listing with its failure |
| MmsLib.ModulesOfBound | src/mmslib.py:269-292 | the listing succeeds exactly when every heading does, and has at most one module per heading |
| MmsLib.ModulesOfAppend | src/mmslib.py:269-292 | heading order is kept: the listing of `a + b` is that of `a` followed by that of `b`, and the earlier failure wins |
| MmsLib.UnmatchedHeadingSkipped | src/mmslib.py:282-291 | a heading whose link does not match is silently skipped |
| MmsLib.MatchedHeadingListed | src/mmslib.py:282-292 | a heading whose link matches and whose tool list parses appends its module (code and semester from the URL, name from the link text, its tools) to the list |
| MmsLib.ModulesOfFromHeadings | src/mmslib.py:269-292 | every listed module comes from a heading that matched |
| MmsLib.ModulesRequestUrl | src/mmslib.py:252-257 | the request is the listing path, then the year (empty when none or empty is given), then the command; the year can be read back from between the two |
| MmsLib.GetModules | src/mmslib.py:252-260 | the result is the module list of the page fetched for the request URL; it succeeds exactly when every heading parses, and has at most one module per heading |
| MmsCoursework.IsFloat | src/mmslib.py:333-338 | true exactly when `float` accepts the text |
| MmsCoursework.FeedbackUrls | src/mmslib.py:406-414 | never more URLs than list items |
| MmsCoursework.FeedbackUrlsAreKeptItems | src/mmslib.py:409-413 | the URLs are the items that have a link other than "[Add Comment]", in order, each as page URL + href + the JSON-format suffix |
| MmsCoursework.FeedbackUrlsMembers | src/mmslib.py:409-413 | a URL is listed exactly when some item is a real feedback link with that URL |
| MmsCoursework.ParseCwkFeedbackField | src/mmslib.py:406-414 | no `ul.horizontal` fails with `NoFeedbackList`; otherwise the loop computes `FeedbackUrls` |
| MmsCoursework.DigitRunEnd | src/mmslib.py:386-387 | the end of the maximal digit run from a position |
| MmsCoursework.SearchWeighting | src/mmslib.py:386-387 | a returned match is digits followed by " %" |
| MmsCoursework.SearchWeightingSpec | src/mmslib.py:386-388 | the search finds the leftmost match, and none exactly when there is none |
| MmsCoursework.WeightingOf | src/mmslib.py:383-391 | the weighting of a row; its meaning is stated by `WeightingOfSpec` |
| MmsCoursework.WeightingOfSpec | src/mmslib.py:383-391 | no match gives no weighting; the leftmost match gives its digits' value, or none when it captured no digits (`float("")` raises and is caught) |
| MmsCoursework.WeightingExamples | src/mmslib.py:383-391 | "50 %" weighs 50; " %" and "N/A" are unweighted |
| MmsCoursework.CellAt | src/mmslib.py:348-393 | a cell is found exactly when the row has that column |
| MmsCoursework.CellText | src/mmslib.py:349-383 | `contents[0]` exists exactly when the column exists and the cell has content |
| MmsCoursework.RequiredDate | src/mmslib.py:351-357 | a due or feedback date succeeds exactly when `strptime` accepts it |
| MmsCoursework.SubmittedDate | src/mmslib.py:364-371 | absent exactly when the cell is empty or the date does not parse; otherwise the parsed date |
| MmsCoursework.GradeOf | src/mmslib.py:376-380 | absent exactly when the cell is empty or its text is not a float; otherwise that float |
| MmsCoursework.AssignmentOf | src/mmslib.py:347-398 | a row gives an assignment exactly when it is well formed, and each field is what its cell says: name, both dates, file URL iff a link, submitted date, feedback URLs, grade, weighting, id |
| MmsCoursework.ShortRowFails | src/mmslib.py:348-394 | a row of fewer than ten cells fails rather than being skipped |
| MmsCoursework.ParseRow | src/mmslib.py:348-398 | the statement-by-statement row body computes `AssignmentOf` |
| MmsCoursework.ParseCwk | src/mmslib.py:340-399 | no table body fails with `NoTable`; success exactly when every row parses, with one assignment per row in order; a failure is the error of the first failing row |
| MmsCoursework.HeaderLines | src/mmslib.py:146-149 | the four lines are "------ Assignment <name> -------", "ID: <id>", "Due date: <due date>" and "Feedback date: <feedback date>", none an "absent" line |
| MmsCoursework.SubmissionLines | src/mmslib.py:151-156 | when submitted, "Submitted date: <date>" then "Uploaded file URL: <url>"; otherwise the single line "Not submitted" |
| MmsCoursework.GradeLines | src/mmslib.py:160-163 | one line: "Grade: <grade>" when there is a grade, otherwise "No grade recorded" |
| MmsCoursework.WeightingLines | src/mmslib.py:164-167 | one line: "Weighting: <weighting>" when there is one, otherwise "Not weighted" |
| MmsCoursework.AssignmentLines | src/mmslib.py:145-169 | the header lines, then the submission lines, then the grade line, then the weighting line, in that order; eight lines when submitted, seven otherwise; each "absent" line appears exactly when its field is absent |
| MmsCoursework.AssignmentLinesReadBack | src/mmslib.py:145-169 | the lines determine the name, the id, which of submitted date, grade and weighting are present, and the uploaded-file text of a submitted assignment |
| MmsCoursework.Repr | src/mmslib.py:145-169 | `__repr__`: the lines of `AssignmentLines` joined by newlines; what they say is stated by `AssignmentLines` and `AssignmentLinesReadBack` |
| MmsCoursework.DownloadSubmission | src/mmslib.py:177-180 | `CourseworkNotAvailable` exactly when there is no uploaded file, otherwise its URL |
| MmsCoursework.DownloadNeedsFileLink | src/mmslib.py:358-361 | a parsed assignment can be downloaded exactly when its row had a link in the file cell, from the page URL plus that href |
| Text.IntToString | src/mmspider.py:61 | `str(id)` starts with a minus sign exactly for negative ids |
| Text.IntToStringInjective | src/mmspider.py:61 | distinct ids have distinct keys |
| Text.DigitsValueOfNatToString | src/mmspider.py:61 | the decimal digits `str` writes for a number read back as that number |
| MmSpider.FeedbackBodies | src/mmspider.py:27 | one rendered body per feedback URL, in order |
| MmSpider.CreateFromAssignment | src/mmspider.py:25-30 | the persistent record of an assignment; its meaning is stated by `RecordsEqualIff` and `RecordIgnoresUntrackedFields` |
| MmSpider.RecordsEqualIff | src/mmspider.py:33-40 | two assignments have equal records exactly when id, name, both dates, grade and every rendered feedback body agree |
| MmSpider.RecordIgnoresUntrackedFields | src/mmspider.py:26-31 | submitted date, file URL and weighting never affect the record |
| MmSpider.Records | src/mmspider.py:71-72 | one record per assignment, in order |
| MmSpider.SnapshotOf | src/mmspider.py:57-61 | the dictionary `populate_store` builds; its meaning is stated by `SnapshotKeys`, `SnapshotValueLater` and `FreshIdNotInSnapshot` |
| MmSpider.SnapshotKeys | src/mmspider.py:57-62 | the populated dictionary's keys are exactly the ids of the records |
| MmSpider.SnapshotValueLater | src/mmspider.py:57-61 | every record's id is a key of the dictionary, holding the record of the last record with that id (a later record with a repeated id overwrites) |
| MmSpider.Sweep | src/mmspider.py:79-96 | the comparison loop of `check_cwk` for a tracked tool; its meaning is stated by `SweepStore`, `SweepStep`, `SweepDiffs`, `SweepUpToDate` and `SweepSilent` |
| MmSpider.SweepStore | src/mmspider.py:81-95 | the updated dictionary is the stored one overwritten by the current snapshot (stale ids stay) |
| MmSpider.FreshIdNotInSnapshot | src/mmspider.py:59-61 | an id no record carries has no key |
| MmSpider.SweepStep | src/mmspider.py:82-93 | an assignment whose id is not earlier in the listing is reported exactly when it changed against the stored dictionary |
| MmSpider.SweepDiffs | src/mmspider.py:80-93 | with distinct ids, the diffs are exactly the new or changed assignments, in listing order |
| MmSpider.LastIdIsFresh | src/mmspider.py:85-86 | with distinct ids, the last id is not among the earlier ones |
| MmSpider.Check | src/mmspider.py:65-96 | the tool's key is stored afterwards, no other key changes, and a first-seen tool reports nothing |
| MmSpider.CheckFirstSeen | src/mmspider.py:74-77 | for any listing, a first-seen tool's dictionary holds exactly the current ids, each under the record of the last assignment carrying it (with distinct ids, every assignment's own record) |
| MmSpider.CheckDiffs | src/mmspider.py:79-96 | for a known tool with distinct ids, the diffs are the new or changed assignments, in order |
| MmSpider.CheckPostState | src/mmspider.py:65-96 | for any listing, after a check every current id is stored, under the record of an assignment with that id at or after it, and the last assignment with an id has its own record stored |
| MmSpider.CheckKeepsStale | src/mmspider.py:81-95 | an id that left the listing keeps its old record and is not reported |
| MmSpider.SweepDiffsInListing | src/mmspider.py:82-93 | every reported assignment is from the current listing |
| MmSpider.SweepUpToDate | src/mmspider.py:86-90 | a dictionary already holding every current record gives no diffs and no change |
| MmSpider.SweepSilent | src/mmspider.py:82-93 | a comparison loop that reports nothing leaves the dictionary unchanged, and then every current assignment already had its record stored |
| MmSpider.CheckStable | src/mmspider.py:65-96 | checking the same listing twice: the second check reports nothing exactly when assignments sharing an id give equal records (always so with distinct ids), and then it changes nothing; with a repeated id whose records differ it reports again |
| MmSpider.Store.constructor | src/mmspider.py:139 | the opened store holds what was saved |
| MmSpider.GetPersistentKey | src/mmspider.py:51-54 | the store key of a tool is `sha256` of its URL; `sha256` is a parameter, and the core asks of it only that it be a function of the URL |
| MmSpider.PopulateStore | src/mmspider.py:57-62 | the store gains the snapshot of the records under the key, nothing else changes |
| MmSpider.CheckCwk | src/mmspider.py:65-96 | the loop returns the diffs and leaves the store that `Check` describes |
| Dicts.Keys | src/mmspider.py:109-111 | one key per pair, in order |
| Dicts.Get | src/mmspider.py:148-151 | absent exactly when the key is not in the dictionary; a value found is paired with the key |
| Dicts.Assign | src/mmspider.py:148-151 | assigning keeps the key order, appending a new key at the end, and adds no pair but the assigned one |
| Dicts.AssignGet | src/mmspider.py:148-151 | after assignment the key reads the new value and every other key reads what it did |
| Dicts.AssignKeepsDistinct | src/mmspider.py:148-151 | assignment keeps keys distinct |
| SpiderReport.Terminated | src/mmspider.py:103-104 | each part followed by CRLF |
| SpiderReport.CwkString | src/mmspider.py:100-105 | the text of one changed assignment; its meaning is stated by `GenerateCwkStr` |
| SpiderReport.GenerateCwkStr | src/mmspider.py:100-105 | the loop produces the rendering, CRLF, then each feedback body with CRLF |
| SpiderReport.AppendLines | src/mmspider.py:103-104 | appending each line in turn leaves the head followed by all the lines, in order |
| SpiderReport.MsgBody | src/mmspider.py:107-115 | the message body; its meaning is stated by `GenerateMsgBody`, `ModulesTextSections`, `ModulesTextAppend` and `MsgBodyEmpty` |
| SpiderReport.ModuleSections | src/mmspider.py:109-114 | one section per module |
| SpiderReport.ModulesTextSections | src/mmspider.py:109-114 | the body after the preamble is exactly one section per module, in dictionary order |
| SpiderReport.ModuleSectionHeader | src/mmspider.py:110 | each module's section starts with its "Module" header |
| SpiderReport.ModulesTextAppend | src/mmspider.py:109-114 | sections are independent: more modules append their sections |
| SpiderReport.MsgBodyEmpty | src/mmspider.py:107-108 | with nothing to report the body is the preamble alone |
| SpiderReport.AppendToolSection | src/mmspider.py:111-114 | the inner loop appends one tool's header and its changed assignments |
| SpiderReport.AppendModuleSection | src/mmspider.py:109-114 | the middle loop appends one module's header and its tools' sections |
| SpiderReport.GenerateMsgBody | src/mmspider.py:107-115 | the nested loops compute `MsgBody` |
| SpiderReport.EmailMessage | src/mmspider.py:117-120 | the message is the header block followed by the body, and the header block does not depend on the body |
| SpiderReport.EmailHeaders | src/mmspider.py:118-119 | the header lines are "From: <address>", "To: <address>" and "Subject: <subject line>", each ended by CRLF, then a blank line |
| SpiderMain.CollectNonEmpty | src/mmspider.py:144-151 | only non-empty values are kept, and keys stay distinct |
| SpiderMain.HasNonEmptySnoc | src/mmspider.py:147-148 | a key has a non-empty value in a longer list exactly when it had one before or the new pair is it |
| SpiderMain.CollectNonEmptyKeys | src/mmspider.py:147-151 | a key is present exactly when some pair with that key had a non-empty value |
| SpiderMain.CollectNonEmptyLastWins | src/mmspider.py:147-148 | the value kept for a key is its last non-empty one (same-named tools overwrite each other) |
| SpiderMain.CollectNonEmptyEmpty | src/mmspider.py:150-155 | nothing is collected exactly when every value is empty |
| SpiderMain.CollectNonEmptyMember | src/mmspider.py:147-151 | every collected pair is one of the input pairs |
| SpiderMain.RunChecks | src/mmspider.py:145-146 | one check per tool, named after it, in order, and no key but the tools' keys changes |
| SpiderMain.RunModules | src/mmspider.py:142-146 | one entry per module with its code and one check per coursework tool |
| SpiderMain.RunModulesOnlyToolKeys | src/mmspider.py:142-146 | a run changes no store entry but those of the modules' coursework tools |
| SpiderMain.ModuleDictsEmpty | src/mmspider.py:150-155 | the module map is empty exactly when every tool of every module reported nothing |
| SpiderMain.Gather | src/mmspider.py:140-153 | the diffs dictionary and store of a run; its meaning is stated by `CollectDiffs`, `GatherEmptyIffNoChange`, `GatherNoEmptyEntries` and `GatherFirstRunSilent` |
| SpiderMain.GatherEmptyIffNoChange | src/mmspider.py:142-155 | the run reports nothing exactly when every check returned no diffs |
| SpiderMain.GatherNoEmptyEntries | src/mmspider.py:147-151 | every reported module has a tool, and every reported tool has a changed assignment |
| SpiderMain.RunChecksFirstSeen | src/mmspider.py:74-77 | tools the store has never seen, with distinct keys, report nothing |
| SpiderMain.SplitToolKeys | src/mmspider.py:142-146 | never-seen tools with distinct keys stay so when the list is split |
| SpiderMain.RunModulesFirstSeen | src/mmspider.py:142-151 | modules whose coursework tools were never seen report nothing |
| SpiderMain.GatherFirstRunSilent | src/mmspider.py:139-159 | the first run against an empty store sends no e-mail |
| SpiderMain.CollectToolDiffs | src/mmspider.py:144-148 | the inner loop of `main` keeps the diffs of the tools that reported any and leaves the store the checks describe |
| SpiderMain.CollectDiffs | src/mmspider.py:140-151 | the nested loops of `main` compute `Gather` and the store it leaves |
| SpiderMain.RunSpider | src/mmspider.py:139-159 | the store is updated as `Gather` says, and an e-mail with the body of the diffs is produced exactly when there are diffs |

## Left out

- Logging in and HTTP (`_login`, `_mms_get`, `_parse_login`, the `requests` session, `MMSLib.__init__`) are not modelled. They are network I/O, so pages enter the model already fetched and broken into cells and headings.
- `_mms_download` (streaming a file to disk) is not modelled, because it is I/O. Only the guard of `download_submission` is modelled.
- Every fetch of one feedback URL within a run is assumed to return the same text. The source fetches feedback when it builds a record (src/mmspider.py:72 and :84) and again for the e-mail (src/mmspider.py:102); the model uses one pure `render` for all of them, and `MmSpider.CheckStable` and `MmSpider.SweepDiffs` rely on this.
- `_fetch_feedback`, the JSON decoding, `MMSFeedback` and its `__repr__`/`__str__` are folded into the `render` parameter. They are network I/O and string encoding.
- Link: a link's text and `href` are always present in the model. The source raises on an `a` with no contents or no `href`; those failures are not modelled.
- ModuleOf: does not fail on a heading link without `href` or without contents (src/mmslib.py:277, :286), because links always carry both in the model.
- ToolFromLink: does not fail on a tool link without `href` or without contents (src/mmslib.py:306-307), for the same reason.
- AssignmentOf: does not fail on a file link or chart link without `href` (src/mmslib.py:361, :393), for the same reason.
- FeedbackUrls: does not fail on a feedback link without contents or `href` (src/mmslib.py:411-412), for the same reason.
- HTML navigation with BeautifulSoup is not modelled. The model starts from the cells, links, list items and inputs the parser reads.
- `time.strptime`, `time.strftime`, `float`, `int` and `%f` are parameters, because they belong to the runtime. The weighting is kept as the exact natural number its digits denote, where Python's `float` rounds above 2^53; no contract compares weightings, and `showWeighting` stands for the `%f` rendering.
- `unescape` is not modelled: nothing calls it.
- The `utf-8`/`ascii` encodings in `__str__` and `_mms_get` are not modelled; strings are sequences of characters.
- SHA-256 is a parameter. `SpiderMain.RunChecksFirstSeen` and the lemmas after it assume that all coursework tools have distinct URLs and distinct digests (`SpiderMain.DistinctToolKeys`); two tools with one URL share one digest and are not covered.
- `shelve`, `ConfigParser`, SMTP delivery, `print` and `sys.exit` are not modelled, because they are I/O. `RunSpider` returns the e-mail text instead of sending it. The addresses, the module list and each tool's listing are parameters.
- `main` fetches modules for the fixed year "2011_2". `RunSpider` takes the module list as a parameter, and `MmsLib.GetModules` models the fetch over a `fetch` parameter.
- An exception in a parse aborts `main` in the source. This is not modelled at the level of `main`: a parse error is an `Err` of the parsing functions, and `RunSpider` takes each tool's listing as already parsed.
- Python 2 dictionaries do not keep a defined order. The model uses insertion order, which is one order Python may produce; the e-mail text is stated for that order.
- A NaN grade is never equal to itself in Python, so such an assignment is reported on every run. In the model, grades are values of an abstract type with ordinary equality, so this is not captured.
- `get_module` has no body (`pass`) and is not modelled.
- `mmslib_test.py` is not part of this model.
- MmSpider.SweepDiffs, MmSpider.CheckDiffs: assume distinct ids in a listing. With a repeated id the comparison loop compares a later assignment against the record just written for the earlier one, and the last record with that id is the one kept; `MmSpider.CheckStable` states what then happens on the next run.
- `MmsLib.ModulesRequestUrl`: the year is not URL-encoded, matching the source.
