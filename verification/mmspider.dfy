/** The change tracker (src/mmspider.py): persistent snapshots of a
    coursework tool's assignments, kept in a store under a digest of the
    tool's URL, and the comparison that reports which assignments changed
    since the last run. */
module MmSpider {
  import opened Wrappers
  import opened Seqs
  import opened Text
  import opened MmsLib
  import opened MmsCoursework

  /** The part of an assignment that is stored and compared. The feedback is
      the rendered text of each feedback entry, not its URL. */
  datatype PersistentCoursework = PersistentCoursework(
    id: int,
    name: string,
    dueDate: Time,
    feedbackDate: Time,
    feedback: seq<string>,
    grade: Option<Float>)

  /** The stored records of one tool, keyed by the decimal id. */
  type IdMap = map<string, PersistentCoursework>

  /** The whole store: one `IdMap` per tool digest. */
  type Entries = map<string, IdMap>

  /** `str(id)`, the key of an assignment in its tool's `IdMap`. */
  function IdKey(id: int): string {
    IntToString(id)
  }

  /** The rendered feedback bodies of a list of feedback URLs; `render`
      stands for fetching each feedback entry and taking `str` of it. */
  function FeedbackBodies(urls: seq<string>, render: string -> string): (bodies: seq<string>)
    ensures |bodies| == |urls|
    ensures forall i :: 0 <= i < |urls| ==> bodies[i] == render(urls[i])
  {
    seq(|urls|, i requires 0 <= i < |urls| => render(urls[i]))
  }

  /** `create_from_assignment`. */
  function CreateFromAssignment(a: Assignment, render: string -> string): PersistentCoursework {
    PersistentCoursework(a.id, a.name, a.dueDate, a.feedbackDate, FeedbackBodies(a.feedbackUrls, render), a.grade)
  }

  /** Two assignments give equal records exactly when id, name, both dates,
      grade and every rendered feedback body agree. */
  lemma RecordsEqualIff(a: Assignment, b: Assignment, render: string -> string)
    ensures CreateFromAssignment(a, render) == CreateFromAssignment(b, render) <==>
      && a.id == b.id && a.name == b.name
      && a.dueDate == b.dueDate && a.feedbackDate == b.feedbackDate
      && a.grade == b.grade
      && |a.feedbackUrls| == |b.feedbackUrls|
      && forall i :: 0 <= i < |a.feedbackUrls| ==> render(a.feedbackUrls[i]) == render(b.feedbackUrls[i])
  {
    var fa := FeedbackBodies(a.feedbackUrls, render);
    var fb := FeedbackBodies(b.feedbackUrls, render);
    if |a.feedbackUrls| == |b.feedbackUrls| && forall i :: 0 <= i < |a.feedbackUrls| ==> render(a.feedbackUrls[i]) == render(b.feedbackUrls[i]) {
      assert fa == fb;
    }
  }

  /** The submitted date, the uploaded file's URL and the weighting are not
      stored, so changing them alone never makes a record differ. */
  lemma RecordIgnoresUntrackedFields(a: Assignment, render: string -> string,
                                     submitted: Option<Time>, url: Option<string>, weighting: Option<nat>)
    ensures CreateFromAssignment(a.(submittedDate := submitted, submissionUrl := url, weighting := weighting), render)
         == CreateFromAssignment(a, render)
  {
  }

  /** The records of a listing, one per assignment. */
  function Records(assignments: seq<Assignment>, render: string -> string): (records: seq<PersistentCoursework>)
    ensures |records| == |assignments|
    ensures forall i :: 0 <= i < |assignments| ==> records[i] == CreateFromAssignment(assignments[i], render)
    decreases |assignments|
  {
    if assignments == [] then []
    else Records(assignments[..|assignments| - 1], render) + [CreateFromAssignment(assignments[|assignments| - 1], render)]
  }

  /** The dictionary `populate_store` builds: each record under its id key,
      a later record with the same id replacing an earlier one. */
  function SnapshotOf(records: seq<PersistentCoursework>): IdMap
    decreases |records|
  {
    if records == [] then map[]
    else
      var last := records[|records| - 1];
      SnapshotOf(records[..|records| - 1])[IdKey(last.id) := last]
  }

  /** The keys of a snapshot are the id keys of its records. */
  lemma {:induction false} SnapshotKeys(records: seq<PersistentCoursework>, k: string)
    ensures k in SnapshotOf(records) <==> exists i :: 0 <= i < |records| && IdKey(records[i].id) == k
    decreases |records|
  {
    if records != [] {
      var init := records[..|records| - 1];
      SnapshotKeys(init, k);
      if exists i :: 0 <= i < |init| && IdKey(init[i].id) == k {
        var i :| 0 <= i < |init| && IdKey(init[i].id) == k;
        assert records[i] == init[i];
      }
      if exists i :: 0 <= i < |records| && IdKey(records[i].id) == k {
        var i :| 0 <= i < |records| && IdKey(records[i].id) == k;
        if i < |init| {
          assert init[i] == records[i];
        }
      }
    }
  }

  /** No two assignments of a listing share an id. */
  predicate DistinctIds(assignments: seq<Assignment>) {
    forall i, j :: 0 <= i < j < |assignments| ==> assignments[i].id != assignments[j].id
  }

  /** Whether `check_cwk` reports an assignment against the stored `IdMap`:
      its id is new, or its stored record differs from its current one. */
  predicate Changed(stored: IdMap, a: Assignment, render: string -> string) {
    IdKey(a.id) !in stored || stored[IdKey(a.id)] != CreateFromAssignment(a, render)
  }

  function ChangedTest(stored: IdMap, render: string -> string): Assignment -> bool {
    a => Changed(stored, a, render)
  }

  /** The comparison loop of `check_cwk` for a tracked tool: the diffs in
      listing order, and the updated `IdMap`. */
  function Sweep(stored: IdMap, assignments: seq<Assignment>, render: string -> string): (seq<Assignment>, IdMap)
    decreases |assignments|
  {
    if assignments == [] then ([], stored)
    else
      var (diffs, current) := Sweep(stored, assignments[..|assignments| - 1], render);
      var a := assignments[|assignments| - 1];
      var rec := CreateFromAssignment(a, render);
      var k := IdKey(a.id);
      if k in current && current[k] == rec then (diffs, current)
      else (diffs + [a], current[k := rec])
  }

  /** The updated `IdMap` is the stored one overwritten by the snapshot of the
      current listing: current ids get their current record, stale ids stay. */
  lemma {:induction false} SweepStore(stored: IdMap, assignments: seq<Assignment>, render: string -> string)
    ensures Sweep(stored, assignments, render).1 == stored + SnapshotOf(Records(assignments, render))
    decreases |assignments|
  {
    if assignments != [] {
      var n := |assignments| - 1;
      var init := assignments[..n];
      SweepStore(stored, init, render);
      var records := Records(assignments, render);
      assert records[..n] == Records(init, render);
      var rec := CreateFromAssignment(assignments[n], render);
      var before := stored + SnapshotOf(Records(init, render));
      assert stored + SnapshotOf(records) == before[IdKey(assignments[n].id) := rec];
    }
  }

  /** An id that no record carries has no key in the snapshot. */
  lemma FreshIdNotInSnapshot(records: seq<PersistentCoursework>, id: int)
    requires forall i :: 0 <= i < |records| ==> records[i].id != id
    ensures IdKey(id) !in SnapshotOf(records)
  {
    SnapshotKeys(records, IdKey(id));
    forall i | 0 <= i < |records| ensures IdKey(records[i].id) != IdKey(id) {
      IntToStringDistinct(records[i].id, id);
    }
  }

  /** One step of the sweep, for an assignment whose id the earlier part of
      the listing does not carry: it is reported exactly when it changed
      against the stored `IdMap`. */
  lemma SweepStep(stored: IdMap, assignments: seq<Assignment>, render: string -> string)
    requires assignments != []
    requires var n := |assignments| - 1;
      IdKey(assignments[n].id) !in SnapshotOf(Records(assignments[..n], render))
    ensures var n := |assignments| - 1;
      Sweep(stored, assignments, render).0 ==
        Sweep(stored, assignments[..n], render).0 + (if Changed(stored, assignments[n], render) then [assignments[n]] else [])
  {
    SweepStore(stored, assignments[..|assignments| - 1], render);
  }

  /** With distinct ids, the diffs are exactly the changed assignments of the
      listing, in listing order. */
  lemma {:induction false} SweepDiffs(stored: IdMap, assignments: seq<Assignment>, render: string -> string)
    requires DistinctIds(assignments)
    ensures Sweep(stored, assignments, render).0 == Filter(ChangedTest(stored, render), assignments)
    decreases |assignments|
  {
    if assignments != [] {
      var n := |assignments| - 1;
      LastIdIsFresh(assignments, render);
      SweepDiffs(stored, assignments[..n], render);
      SweepStep(stored, assignments, render);
      assert ChangedTest(stored, render)(assignments[n]) == Changed(stored, assignments[n], render);
    }
  }

  /** With distinct ids, the last assignment's id has no key in the snapshot
      of the ones before it, and those still have distinct ids. */
  lemma LastIdIsFresh(assignments: seq<Assignment>, render: string -> string)
    requires assignments != [] && DistinctIds(assignments)
    ensures var n := |assignments| - 1;
      DistinctIds(assignments[..n]) && IdKey(assignments[n].id) !in SnapshotOf(Records(assignments[..n], render))
  {
    var n := |assignments| - 1;
    var init := assignments[..n];
    forall i, j | 0 <= i < j < |init| ensures init[i].id != init[j].id {
      assert init[i] == assignments[i] && init[j] == assignments[j];
    }
    var records := Records(init, render);
    forall i | 0 <= i < |records| ensures records[i].id != assignments[n].id {
      assert records[i] == CreateFromAssignment(init[i], render);
      assert init[i] == assignments[i];
    }
    FreshIdNotInSnapshot(records, assignments[n].id);
  }

  /** `check_cwk` as a transition of the store under the tool's `key`: the
      diffs it returns and the new store. A tool seen for the first time is
      recorded and reports nothing. */
  function Check(entries: Entries, key: string, assignments: seq<Assignment>, render: string -> string)
    : (r: (seq<Assignment>, Entries))
    ensures key in r.1
    ensures forall k :: k != key ==> (k in r.1 <==> k in entries) && (k in entries ==> r.1[k] == entries[k])
    ensures key !in entries ==> r.0 == []
  {
    if key !in entries then ([], entries[key := SnapshotOf(Records(assignments, render))])
    else
      var (diffs, updated) := Sweep(entries[key], assignments, render);
      (diffs, entries[key := updated])
  }

  /** The first time a tool is seen, its `IdMap` holds exactly the current
      ids; under each id the record of the last assignment carrying it. */
  lemma CheckFirstSeen(entries: Entries, key: string, assignments: seq<Assignment>, render: string -> string)
    requires key !in entries
    ensures var stored := Check(entries, key, assignments, render).1[key];
      && (forall k :: k in stored <==> exists i :: 0 <= i < |assignments| && IdKey(assignments[i].id) == k)
      && (forall i :: 0 <= i < |assignments| && LastWithId(assignments, i) ==>
            stored[IdKey(assignments[i].id)] == CreateFromAssignment(assignments[i], render))
  {
    var records := Records(assignments, render);
    forall k ensures k in SnapshotOf(records) <==> exists i :: 0 <= i < |assignments| && IdKey(assignments[i].id) == k {
      SnapshotKeys(records, k);
    }
    CheckPostState(entries, key, assignments, render);
  }

  /** For a tracked tool with distinct ids, the diffs are the assignments
      whose id was not stored or whose stored record differs, in listing order. */
  lemma CheckDiffs(entries: Entries, key: string, assignments: seq<Assignment>, render: string -> string)
    requires key in entries
    requires DistinctIds(assignments)
    ensures Check(entries, key, assignments, render).0 == Filter(ChangedTest(entries[key], render), assignments)
  {
    SweepDiffs(entries[key], assignments, render);
  }

  /** No later assignment of the listing carries the id of the one at `i`. */
  predicate LastWithId(assignments: seq<Assignment>, i: int)
    requires 0 <= i < |assignments|
  {
    forall j :: i < j < |assignments| ==> assignments[j].id != assignments[i].id
  }

  /** Assignments of the listing that share an id give the same record. */
  predicate ConsistentRecords(assignments: seq<Assignment>, render: string -> string) {
    forall i, j :: 0 <= i < j < |assignments| && assignments[i].id == assignments[j].id ==>
      CreateFromAssignment(assignments[i], render) == CreateFromAssignment(assignments[j], render)
  }

  /** Every record's id is a key of the snapshot, holding the record of the
      same id that comes last. */
  lemma {:induction false} SnapshotValueLater(records: seq<PersistentCoursework>, i: nat)
    requires i < |records|
    ensures IdKey(records[i].id) in SnapshotOf(records)
    ensures exists j :: (i <= j < |records| && records[j].id == records[i].id
      && SnapshotOf(records)[IdKey(records[i].id)] == records[j])
    decreases |records|
  {
    var n := |records| - 1;
    if i == n || records[n].id == records[i].id {
      assert SnapshotOf(records)[IdKey(records[i].id)] == records[n];
    } else {
      var init := records[..n];
      SnapshotValueLater(init, i);
      var j :| i <= j < |init| && init[j].id == init[i].id && SnapshotOf(init)[IdKey(init[i].id)] == init[j];
      IntToStringDistinct(records[n].id, records[i].id);
      assert init[j] == records[j] && init[i] == records[i];
    }
  }

  /** The assignment at `i` has its id stored, under the record of an
      assignment with that id at or after `i`. */
  predicate StoredLater(stored: IdMap, assignments: seq<Assignment>, render: string -> string, i: int)
    requires 0 <= i < |assignments|
  {
    && IdKey(assignments[i].id) in stored
    && exists j :: (i <= j < |assignments| && assignments[j].id == assignments[i].id
         && stored[IdKey(assignments[i].id)] == CreateFromAssignment(assignments[j], render))
  }

  /** Every current assignment is stored as `StoredLater` says. */
  predicate HoldsListing(stored: IdMap, assignments: seq<Assignment>, render: string -> string) {
    forall i :: 0 <= i < |assignments| ==> StoredLater(stored, assignments, render, i)
  }

  /** Overwriting any `IdMap` with the snapshot of a listing stores every
      current id under the record of the last assignment carrying it. */
  lemma SnapshotHoldsListing(prior: IdMap, assignments: seq<Assignment>, render: string -> string)
    ensures HoldsListing(prior + SnapshotOf(Records(assignments, render)), assignments, render)
  {
    var records := Records(assignments, render);
    var stored := prior + SnapshotOf(records);
    forall i | 0 <= i < |assignments| ensures StoredLater(stored, assignments, render, i) {
      SnapshotValueLater(records, i);
      var j :| i <= j < |records| && records[j].id == records[i].id
        && SnapshotOf(records)[IdKey(records[i].id)] == records[j];
      assert stored[IdKey(assignments[i].id)] == CreateFromAssignment(assignments[j], render);
    }
  }

  /** A stored record that comes from the last assignment with its id is that
      assignment's own record. */
  lemma LastStoredIsOwn(stored: IdMap, assignments: seq<Assignment>, render: string -> string, i: int)
    requires 0 <= i < |assignments| && LastWithId(assignments, i) && StoredLater(stored, assignments, render, i)
    ensures stored[IdKey(assignments[i].id)] == CreateFromAssignment(assignments[i], render)
  {
  }

  /** After a check every current id is stored, under the record of the last
      assignment carrying it (so, with distinct ids, every assignment's own
      record). */
  lemma CheckPostState(entries: Entries, key: string, assignments: seq<Assignment>, render: string -> string)
    ensures HoldsListing(Check(entries, key, assignments, render).1[key], assignments, render)
    ensures var stored := Check(entries, key, assignments, render).1[key];
      forall i :: 0 <= i < |assignments| && LastWithId(assignments, i) ==>
        IdKey(assignments[i].id) in stored && stored[IdKey(assignments[i].id)] == CreateFromAssignment(assignments[i], render)
  {
    var snapshot := SnapshotOf(Records(assignments, render));
    var stored := Check(entries, key, assignments, render).1[key];
    if key in entries {
      SweepStore(entries[key], assignments, render);
      SnapshotHoldsListing(entries[key], assignments, render);
    } else {
      SnapshotHoldsListing(map[], assignments, render);
      assert map[] + snapshot == snapshot;
    }
    forall i | 0 <= i < |assignments| && LastWithId(assignments, i)
      ensures IdKey(assignments[i].id) in stored && stored[IdKey(assignments[i].id)] == CreateFromAssignment(assignments[i], render)
    {
      LastStoredIsOwn(stored, assignments, render, i);
    }
  }

  /** Ids stored earlier but missing from the current listing stay in the
      tool's `IdMap` with their old records, and are not reported. */
  lemma CheckKeepsStale(entries: Entries, key: string, assignments: seq<Assignment>, render: string -> string, k: string)
    requires key in entries && k in entries[key]
    requires forall i :: 0 <= i < |assignments| ==> IdKey(assignments[i].id) != k
    ensures var r := Check(entries, key, assignments, render);
      && k in r.1[key] && r.1[key][k] == entries[key][k]
      && forall a :: a in r.0 ==> IdKey(a.id) != k
  {
    var records := Records(assignments, render);
    SweepStore(entries[key], assignments, render);
    SnapshotKeys(records, k);
    if DistinctIds(assignments) {
      SweepDiffs(entries[key], assignments, render);
    } else {
      SweepDiffsInListing(entries[key], assignments, render);
    }
  }

  /** Every reported assignment comes from the current listing. */
  lemma {:induction false} SweepDiffsInListing(stored: IdMap, assignments: seq<Assignment>, render: string -> string)
    ensures forall a :: a in Sweep(stored, assignments, render).0 ==> a in assignments
    decreases |assignments|
  {
    if assignments != [] {
      var n := |assignments| - 1;
      SweepDiffsInListing(stored, assignments[..n], render);
      forall a | a in assignments[..n] ensures a in assignments {
        var i :| 0 <= i < n && assignments[..n][i] == a;
        assert assignments[i] == a;
      }
    }
  }

  /** A sweep over an `IdMap` that already holds every current record reports
      nothing and changes nothing. */
  lemma {:induction false} SweepUpToDate(stored: IdMap, assignments: seq<Assignment>, render: string -> string)
    requires forall i :: 0 <= i < |assignments| ==>
      IdKey(assignments[i].id) in stored && stored[IdKey(assignments[i].id)] == CreateFromAssignment(assignments[i], render)
    ensures Sweep(stored, assignments, render) == ([], stored)
    decreases |assignments|
  {
    if assignments != [] {
      var n := |assignments| - 1;
      SweepUpToDate(stored, assignments[..n], render);
    }
  }

  /** A sweep that reports nothing changes nothing, and then every current
      assignment already had its record stored under its id. */
  lemma {:induction false} SweepSilent(stored: IdMap, assignments: seq<Assignment>, render: string -> string)
    ensures Sweep(stored, assignments, render).0 == [] ==>
      && Sweep(stored, assignments, render).1 == stored
      && forall i :: 0 <= i < |assignments| ==>
           IdKey(assignments[i].id) in stored && stored[IdKey(assignments[i].id)] == CreateFromAssignment(assignments[i], render)
    decreases |assignments|
  {
    if assignments != [] {
      var n := |assignments| - 1;
      var init := assignments[..n];
      SweepSilent(stored, init, render);
      if Sweep(stored, assignments, render).0 == [] {
        assert Sweep(stored, init, render).0 == [];
        forall i | 0 <= i < n
          ensures IdKey(assignments[i].id) in stored && stored[IdKey(assignments[i].id)] == CreateFromAssignment(assignments[i], render)
        {
          assert init[i] == assignments[i];
        }
      }
    }
  }

  /** Checking the same listing twice: the second check reports nothing
      exactly when assignments that share an id give the same record, and
      then it leaves the store as the first check left it. With a repeated id
      whose records differ, the second check reports again. */
  lemma CheckStable(entries: Entries, key: string, assignments: seq<Assignment>, render: string -> string)
    ensures var after := Check(entries, key, assignments, render).1;
      Check(after, key, assignments, render).0 == [] <==> ConsistentRecords(assignments, render)
    ensures var after := Check(entries, key, assignments, render).1;
      ConsistentRecords(assignments, render) ==> Check(after, key, assignments, render) == ([], after)
  {
    var after := Check(entries, key, assignments, render).1;
    var stored := after[key];
    CheckPostState(entries, key, assignments, render);
    if ConsistentRecords(assignments, render) {
      forall i | 0 <= i < |assignments|
        ensures IdKey(assignments[i].id) in stored
        ensures stored[IdKey(assignments[i].id)] == CreateFromAssignment(assignments[i], render)
      {
        assert StoredLater(stored, assignments, render, i);
      }
      SweepUpToDate(stored, assignments, render);
      assert after[key := stored] == after;
    }
    if Check(after, key, assignments, render).0 == [] {
      SweepSilent(stored, assignments, render);
    }
  }

  /** The persistent store (a `shelve`): a tool digest to its `IdMap`. */
  class Store {
    var entries: Entries

    /** The store as it was saved by earlier runs. */
    constructor (saved: Entries)
      ensures entries == saved
    {
      entries := saved;
    }
  }

  /** `get_persistent_key`: the hex digest of the tool's URL; `sha256` stands
      for `hashlib.sha256(...).hexdigest()`. */
  function GetPersistentKey(sha256: string -> string, tool: Tool): string {
    sha256(tool.url)
  }

  /** `populate_store`: stores the snapshot of `records` under `key`. */
  method PopulateStore(records: seq<PersistentCoursework>, store: Store, key: string)
    modifies store
    ensures store.entries == old(store.entries)[key := SnapshotOf(records)]
  {
    var assignmentDict: IdMap := map[];
    for i := 0 to |records|
      invariant assignmentDict == SnapshotOf(records[..i])
    {
      assert records[..i + 1][..i] == records[..i];
      assignmentDict := assignmentDict[IdKey(records[i].id) := records[i]];
    }
    assert records[..|records|] == records;
    store.entries := store.entries[key := assignmentDict];
  }

  /** `check_cwk` for one coursework tool whose current listing is
      `assignments`: returns the diffs and updates the store, as `Check` says. */
  method CheckCwk(store: Store, sha256: string -> string, tool: Tool, assignments: seq<Assignment>,
                  render: string -> string) returns (diffs: seq<Assignment>)
    modifies store
    ensures (diffs, store.entries) == Check(old(store.entries), GetPersistentKey(sha256, tool), assignments, render)
  {
    var key := GetPersistentKey(sha256, tool);
    var persistentAssignments := Records(assignments, render);
    if key !in store.entries {
      PopulateStore(persistentAssignments, store, key);
      return [];
    }
    diffs := [];
    var stored := store.entries[key];
    var assignmentDict := stored;
    for i := 0 to |assignments|
      invariant (diffs, assignmentDict) == Sweep(stored, assignments[..i], render)
    {
      assert assignments[..i + 1][..i] == assignments[..i];
      var assignment := assignments[i];
      var persistentAssignment := CreateFromAssignment(assignment, render);
      var assignmentKey := IdKey(assignment.id);
      if assignmentKey in assignmentDict {
        if persistentAssignment != assignmentDict[assignmentKey] {
          assignmentDict := assignmentDict[assignmentKey := persistentAssignment];
          diffs := diffs + [assignment];
        }
      } else {
        assignmentDict := assignmentDict[assignmentKey := persistentAssignment];
        diffs := diffs + [assignment];
      }
    }
    assert assignments[..|assignments|] == assignments;
    store.entries := store.entries[key := assignmentDict];
  }
}
