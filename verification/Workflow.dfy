/** The cross-table invariants of the recovery workflow, in every reachable state. */
module Workflow {
  import opened Prelude
  import opened Status
  import opened Tables
  import opened Transactions

  // ---------- The invariants ----------

  /** Rows refer to rows that exist, and a job belongs to its buoy's mission. */
  ghost predicate References(db: Db) {
    && (forall p | p in db.items :: p.0 in db.windows && p.1 in db.jobs)
    && (forall r | r in db.reports :: (db.reports[r].windowId, db.reports[r].jobId) in db.items)
    && (forall b | b in db.buoys :: db.buoys[b].missionId in db.missions)
    && (forall j | j in db.jobs ::
          db.jobs[j].buoyId in db.buoys && db.buoys[db.jobs[j].buoyId].missionId == db.jobs[j].missionId)
  }

  ghost predicate OneReportPerItem(reports: map<Id, Report>) {
    forall r, s | r in reports && s in reports
                  && reports[r].jobId == reports[s].jobId && reports[r].windowId == reports[s].windowId :: r == s
  }

  /** Window `w` still accounts for job `j`: it is open and the job's report is absent or pending. */
  ghost predicate AccountsFor(windows: map<Id, Window>, items: set<(Id, Id)>, reports: map<Id, Report>, w: Id, j: Id) {
    && (w, j) in items && w in windows && windows[w].status.Open()
    && forall r | ReportFor(reports, r, w, j) :: reports[r].status.Pending?
  }

  ghost predicate Accounted(windows: map<Id, Window>, items: set<(Id, Id)>, reports: map<Id, Report>, j: Id) {
    exists w :: AccountsFor(windows, items, reports, w, j)
  }

  ghost predicate InProgressCovered(db: Db) {
    forall j | j in db.jobs && db.jobs[j].status.InProgress? :: Accounted(db.windows, db.items, db.reports, j)
  }

  /** Reports exist only in windows that started and were not cancelled; a
      completed window has every item reviewed. */
  ghost predicate WindowHistory(db: Db) {
    && (forall r | r in db.reports ::
          var w := db.reports[r].windowId;
          w in db.windows && (db.windows[w].status.Running? || db.windows[w].status.Done?))
    && (forall w | w in db.windows && db.windows[w].status.Done? :: AllItemsReviewed(db.items, db.reports, w))
  }

  ghost predicate Core(db: Db) {
    References(db) && OneReportPerItem(db.reports) && InProgressCovered(db) && WindowHistory(db)
  }

  ghost predicate HasReassessment(incidents: map<Id, Incident>, j: Id) {
    exists i :: i in incidents && incidents[i].jobId == j && incidents[i].kind == Reassess
  }

  ghost predicate RefusalsEscalated(db: Db) {
    forall r | r in db.reports && db.reports[r].status.Refused? :: HasReassessment(db.incidents, db.reports[r].jobId)
  }

  function ItemsOf(items: set<(Id, Id)>, w: Id): set<(Id, Id)> {
    set p | p in items && p.0 == w
  }

  ghost predicate Staffed(db: Db) {
    forall w | w in db.windows :: 1 <= |ItemsOf(db.items, w)| <= db.windows[w].capacity
  }

  ghost predicate Invariant(db: Db) {
    Core(db) && RefusalsEscalated(db) && Staffed(db)
  }

  // ---------- Statements keep the core ----------

  lemma MoveJobKeepsCore(db: Db, id: Id, next: JobStatus, version: int, now: int)
    requires Core(db) && !next.InProgress?
    requires MoveJob(db, id, next, version, now).Ok?
    ensures Core(MoveJob(db, id, next, version, now).value)
  {
  }

  lemma AttachItemKeepsCore(db: Db, w: Id, j: Id, dbNow: int)
    requires Core(db) && w in db.windows && db.windows[w].status.Waiting?
    requires AttachItem(db, w, j, dbNow).Ok?
    ensures Core(AttachItem(db, w, j, dbNow).value)
  {
    var d := AttachItem(db, w, j, dbNow).value;
    forall k | k in d.jobs && d.jobs[k].status.InProgress?
      ensures Accounted(d.windows, d.items, d.reports, k)
    {
      if k == j {
        assert AccountsFor(d.windows, d.items, d.reports, w, j);
      } else {
        var v :| AccountsFor(db.windows, db.items, db.reports, v, k);
        assert AccountsFor(d.windows, d.items, d.reports, v, k);
      }
    }
    forall v | v in d.windows && d.windows[v].status.Done?
      ensures AllItemsReviewed(d.items, d.reports, v)
    {
      assert AllItemsReviewed(db.items, db.reports, v);
    }
  }

  lemma {:induction false} AttachItemsKeepsCore(db: Db, w: Id, jobIds: seq<Id>, dbNow: int)
    requires Core(db) && w in db.windows && db.windows[w].status.Waiting?
    requires AttachItems(db, w, jobIds, dbNow).Ok?
    ensures Core(AttachItems(db, w, jobIds, dbNow).value)
    decreases |jobIds|
  {
    if jobIds != [] {
      AttachItemKeepsCore(db, w, jobIds[0], dbNow);
      AttachItemsKeepsCore(AttachItem(db, w, jobIds[0], dbNow).value, w, jobIds[1..], dbNow);
    }
  }

  lemma InsertWindowKeepsCore(db: Db, id: Id, code: string, capacity: int)
    requires Core(db) && InsertWindow(db, id, code, capacity).Ok?
    ensures Core(InsertWindow(db, id, code, capacity).value)
  {
    var d := InsertWindow(db, id, code, capacity).value;
    forall j | j in d.jobs && d.jobs[j].status.InProgress?
      ensures Accounted(d.windows, d.items, d.reports, j)
    {
      var w :| AccountsFor(db.windows, db.items, db.reports, w, j);
      assert AccountsFor(d.windows, d.items, d.reports, w, j);
    }
  }

  lemma StartWindowKeepsCore(db: Db, id: Id, version: int, dbNow: int)
    requires Core(db) && StartWindowRow(db, id, version, dbNow).Ok?
    ensures Core(StartWindowRow(db, id, version, dbNow).value)
  {
    var d := StartWindowRow(db, id, version, dbNow).value;
    forall j | j in d.jobs && d.jobs[j].status.InProgress?
      ensures Accounted(d.windows, d.items, d.reports, j)
    {
      var w :| AccountsFor(db.windows, db.items, db.reports, w, j);
      assert AccountsFor(d.windows, d.items, d.reports, w, j);
    }
  }

  lemma ReviewedWindowAccountsForNothing(db: Db, w: Id, j: Id)
    requires AllItemsReviewed(db.items, db.reports, w)
    ensures !AccountsFor(db.windows, db.items, db.reports, w, j)
  {
    var p := (w, j);
    if p in db.items {
      var r :| r in db.reports && ReportFor(db.reports, r, w, p.1);
      assert !db.reports[r].status.Pending?;
    }
  }

  lemma CompleteWindowKeepsCore(db: Db, id: Id, version: int, dbNow: int)
    requires Core(db) && CompleteWindowRow(db, id, version, dbNow).Ok?
    ensures Core(CompleteWindowRow(db, id, version, dbNow).value)
  {
    var d := CompleteWindowRow(db, id, version, dbNow).value;
    forall j | j in d.jobs && d.jobs[j].status.InProgress?
      ensures Accounted(d.windows, d.items, d.reports, j)
    {
      var w :| AccountsFor(db.windows, db.items, db.reports, w, j);
      ReviewedWindowAccountsForNothing(db, id, j);
      assert AccountsFor(d.windows, d.items, d.reports, w, j);
    }
  }

  lemma CancelWindowKeepsCore(db: Db, id: Id, version: int, dbNow: int)
    requires Core(db) && CancelWindowRow(db, id, version, dbNow).Ok?
    ensures Core(CancelWindowRow(db, id, version, dbNow).value)
  {
    var d := CancelWindowRow(db, id, version, dbNow).value;
    forall j | j in d.jobs && d.jobs[j].status.InProgress?
      ensures Accounted(d.windows, d.items, d.reports, j)
    {
      var w :| AccountsFor(db.windows, db.items, db.reports, w, j);
      assert AccountsFor(d.windows, d.items, d.reports, w, j);
    }
  }

  lemma NewReportKeepsCovered(db: Db, d: Db, id: Id, r: Report)
    requires InProgressCovered(db) && id !in db.reports && r.status.Pending?
    requires d.jobs == db.jobs && d.windows == db.windows && d.items == db.items && d.reports == db.reports[id := r]
    ensures InProgressCovered(d)
  {
    forall j | j in d.jobs && d.jobs[j].status.InProgress?
      ensures Accounted(d.windows, d.items, d.reports, j)
    {
      var w :| AccountsFor(db.windows, db.items, db.reports, w, j);
      forall r | ReportFor(d.reports, r, w, j) ensures d.reports[r].status.Pending? {
        if r != id {
          assert ReportFor(db.reports, r, w, j);
        }
      }
      assert AccountsFor(d.windows, d.items, d.reports, w, j);
    }
  }

  lemma NewReportKeepsHistory(db: Db, d: Db, id: Id, r: Report)
    requires WindowHistory(db) && id !in db.reports && r.windowId in db.windows
    requires db.windows[r.windowId].status.Running?
    requires d.windows == db.windows && d.items == db.items && d.reports == db.reports[id := r]
    ensures WindowHistory(d)
  {
    forall w, p | w in d.windows && d.windows[w].status.Done? && p in d.items && p.0 == w
      ensures exists r :: r in d.reports && ReportFor(d.reports, r, w, p.1)
      ensures forall r :: r in d.reports && ReportFor(d.reports, r, w, p.1) ==> !d.reports[r].status.Pending?
    {
      assert AllItemsReviewed(db.items, db.reports, w);
      var r :| r in db.reports && ReportFor(db.reports, r, w, p.1);
      assert ReportFor(d.reports, r, w, p.1);
      forall s | s in d.reports && ReportFor(d.reports, s, w, p.1) ensures !d.reports[s].status.Pending? {
        assert s != id ==> ReportFor(db.reports, s, w, p.1);
      }
    }
  }

  lemma NewReportIsOnly(db: Db, d: Db, id: Id, r: Report)
    requires OneReportPerItem(db.reports) && id !in db.reports && d.reports == db.reports[id := r]
    requires !exists s :: s in db.reports && ReportFor(db.reports, s, r.windowId, r.jobId)
    ensures OneReportPerItem(d.reports)
  {
    forall s | s in db.reports
      ensures !(db.reports[s].jobId == r.jobId && db.reports[s].windowId == r.windowId)
    {
      assert !ReportFor(db.reports, s, r.windowId, r.jobId);
    }
  }

  lemma InsertReportKeepsCore(db: Db, id: Id, jobId: Id, windowId: Id, recorder: Id)
    requires Core(db) && (windowId, jobId) in db.items
    requires windowId in db.windows && db.windows[windowId].status.Running?
    requires InsertReport(db, id, jobId, windowId, recorder).Ok?
    ensures Core(InsertReport(db, id, jobId, windowId, recorder).value)
  {
    hide OneReportPerItem, InProgressCovered, WindowHistory;
    var d := InsertReport(db, id, jobId, windowId, recorder).value;
    var r := Report(jobId, windowId, ReportStatus.Pending, None, 1);
    NewReportKeepsCovered(db, d, id, r);
    NewReportKeepsHistory(db, d, id, r);
    NewReportIsOnly(db, d, id, r);
  }

  lemma ReviewKeepsWindowHistory(db: Db, d: Db, id: Id)
    requires WindowHistory(db) && id in db.reports && d.windows == db.windows && d.items == db.items
    requires d.reports.Keys == db.reports.Keys && !d.reports[id].status.Pending?
    requires forall r | r in db.reports ::
               d.reports[r].jobId == db.reports[r].jobId && d.reports[r].windowId == db.reports[r].windowId
    requires forall r | r in db.reports && r != id :: d.reports[r] == db.reports[r]
    ensures WindowHistory(d)
  {
    forall w, p | w in d.windows && d.windows[w].status.Done? && p in d.items && p.0 == w
      ensures exists r :: r in d.reports && ReportFor(d.reports, r, w, p.1)
      ensures forall r :: r in d.reports && ReportFor(d.reports, r, w, p.1) ==> !d.reports[r].status.Pending?
    {
      assert AllItemsReviewed(db.items, db.reports, w);
      var r :| r in db.reports && ReportFor(db.reports, r, w, p.1);
      assert ReportFor(d.reports, r, w, p.1);
      forall s | s in d.reports && ReportFor(d.reports, s, w, p.1) ensures !d.reports[s].status.Pending? {
        assert ReportFor(db.reports, s, w, p.1);
      }
    }
  }

  lemma ReviewKeepsCovered(db: Db, d: Db, id: Id, jobId: Id)
    requires InProgressCovered(db) && id in db.reports && db.reports[id].jobId == jobId
    requires d.windows == db.windows && d.items == db.items && d.reports.Keys == db.reports.Keys
    requires forall r | r in db.reports && r != id :: d.reports[r] == db.reports[r]
    requires d.reports[id].jobId == jobId
    requires d.jobs.Keys == db.jobs.Keys && jobId in d.jobs && !d.jobs[jobId].status.InProgress?
    requires forall j | j in db.jobs && j != jobId :: d.jobs[j] == db.jobs[j]
    ensures InProgressCovered(d)
  {
    forall j | j in d.jobs && d.jobs[j].status.InProgress?
      ensures Accounted(d.windows, d.items, d.reports, j)
    {
      var w :| AccountsFor(db.windows, db.items, db.reports, w, j);
      forall r | ReportFor(d.reports, r, w, j) ensures d.reports[r].status.Pending? {
        assert ReportFor(db.reports, r, w, j);
      }
      assert AccountsFor(d.windows, d.items, d.reports, w, j);
    }
  }

  lemma ReviewKeepsReferences(db: Db, d: Db, id: Id, jobId: Id)
    requires References(db) && OneReportPerItem(db.reports) && id in db.reports && id in d.reports
    requires d.windows == db.windows && d.items == db.items && d.missions == db.missions && d.buoys == db.buoys
    requires d.reports == db.reports[id := d.reports[id]]
    requires d.reports[id].jobId == db.reports[id].jobId && d.reports[id].windowId == db.reports[id].windowId
    requires jobId in db.jobs && jobId in d.jobs && d.jobs == db.jobs[jobId := d.jobs[jobId]]
    requires d.jobs[jobId].missionId == db.jobs[jobId].missionId && d.jobs[jobId].buoyId == db.jobs[jobId].buoyId
    ensures References(d) && OneReportPerItem(d.reports)
  {
  }

  lemma MarkExpiredKeepsCore(db: Db, id: Id)
    requires Core(db)
    ensures Core(MarkExpired(db, id))
  {
  }

  lemma {:induction false} MarkAllExpiredKeepsCore(db: Db, ids: seq<Id>)
    requires Core(db)
    ensures Core(MarkAllExpired(db, ids))
    ensures MarkAllExpired(db, ids).(jobs := db.jobs, audits := db.audits) == db
    decreases |ids|
  {
    if ids != [] {
      MarkExpiredKeepsCore(db, ids[0]);
      MarkAllExpiredKeepsCore(MarkExpired(db, ids[0]), ids[1..]);
    }
  }

  // ---------- Attaching jobs to a window ----------

  ghost predicate Attachable(db: Db, w: Id, j: Id, dbNow: int) {
    && w in db.windows && j in db.jobs && (w, j) !in db.items
    && db.jobs[j].status.Accepted? && dbNow <= db.jobs[j].expiresAt
  }

  function Pairs(w: Id, jobIds: seq<Id>): set<(Id, Id)> {
    set j | j in jobIds :: (w, j)
  }

  ghost function Attached(db: Db, w: Id, jobIds: seq<Id>): Db {
    db.(items := db.items + Pairs(w, jobIds),
        jobs := map j | j in db.jobs ::
          if j in jobIds then db.jobs[j].(status := JobStatus.InProgress, version := db.jobs[j].version + 1)
          else db.jobs[j])
  }

  lemma AttachedInTwo(db: Db, w: Id, first: Id, rest: seq<Id>, dbNow: int)
    requires AttachItem(db, w, first, dbNow).Ok? && first !in rest
    ensures Attached(AttachItem(db, w, first, dbNow).value, w, rest) == Attached(db, w, [first] + rest)
  {
    var d := AttachItem(db, w, first, dbNow).value;
    assert Attached(d, w, rest).jobs == Attached(db, w, [first] + rest).jobs;
    assert Attached(d, w, rest).items == Attached(db, w, [first] + rest).items;
  }

  /** The attach loop succeeds exactly when the ids are distinct and each was
      attachable at the start, and then its effect is simultaneous. */
  lemma {:induction false} AttachItemsExact(db: Db, w: Id, jobIds: seq<Id>, dbNow: int)
    ensures AttachItems(db, w, jobIds, dbNow).Ok?
            <==> Distinct(jobIds) && forall j | j in jobIds :: Attachable(db, w, j, dbNow)
    ensures AttachItems(db, w, jobIds, dbNow).Ok? ==> AttachItems(db, w, jobIds, dbNow).value == Attached(db, w, jobIds)
    decreases |jobIds|
  {
    if jobIds == [] {
      assert Attached(db, w, []) == db;
    } else {
      hide Attached;
      var first, rest := jobIds[0], jobIds[1..];
      assert jobIds == [first] + rest;
      var step := AttachItem(db, w, first, dbNow);
      if step.Ok? {
        AttachItemsExact(step.value, w, rest, dbNow);
        AttachRestUnaffected(db, step.value, w, first, rest, dbNow);
        if AttachItems(step.value, w, rest, dbNow).Ok? {
          AttachedInTwo(db, w, first, rest, dbNow);
        }
      } else {
        assert first in jobIds && !Attachable(db, w, first, dbNow);
      }
    }
  }

  lemma AttachRestUnaffected(db: Db, d: Db, w: Id, first: Id, rest: seq<Id>, dbNow: int)
    requires AttachItem(db, w, first, dbNow) == Ok(d)
    ensures Distinct(rest) && (forall j | j in rest :: Attachable(d, w, j, dbNow))
            <==> Distinct([first] + rest) && (forall j | j in [first] + rest :: Attachable(db, w, j, dbNow))
  {
    var all := [first] + rest;
    assert forall i | 0 <= i < |rest| :: rest[i] == all[i + 1];
    assert Attachable(db, w, first, dbNow) && !Attachable(d, w, first, dbNow);
    assert forall j | j != first :: Attachable(d, w, j, dbNow) <==> Attachable(db, w, j, dbNow);
    if Distinct(rest) && forall j | j in rest :: Attachable(d, w, j, dbNow) {
      assert first !in rest;
    }
    if Distinct(all) {
      assert forall i | 0 <= i < |rest| :: rest[i] != all[0];
    }
  }

  lemma {:induction false} PairsOfDistinct(w: Id, jobIds: seq<Id>)
    requires Distinct(jobIds)
    ensures |Pairs(w, jobIds)| == |jobIds|
    decreases |jobIds|
  {
    if jobIds == [] {
      assert Pairs(w, jobIds) == {};
    } else {
      var rest := jobIds[1..];
      PairsOfDistinct(w, rest);
      assert jobIds == [jobIds[0]] + rest && jobIds[0] !in rest;
      assert Pairs(w, jobIds) == {(w, jobIds[0])} + Pairs(w, rest);
    }
  }

  lemma ItemsAfterAttach(items: set<(Id, Id)>, id: Id, jobIds: seq<Id>, w: Id)
    requires forall p | p in items :: p.0 != id
    ensures ItemsOf(items + Pairs(id, jobIds), w) == if w == id then Pairs(id, jobIds) else ItemsOf(items, w)
  {
    var after := ItemsOf(items + Pairs(id, jobIds), w);
    forall p ensures p in after <==> p in (if w == id then Pairs(id, jobIds) else ItemsOf(items, w)) {
    }
  }

  lemma NewWindowStaffed(db: Db, d: Db, id: Id, jobIds: seq<Id>)
    requires References(db) && Staffed(db) && id !in db.windows && Distinct(jobIds)
    requires d.windows.Keys == db.windows.Keys + {id} && d.items == db.items + Pairs(id, jobIds)
    requires forall w | w in db.windows :: d.windows[w] == db.windows[w]
    requires 1 <= |jobIds| <= d.windows[id].capacity
    ensures Staffed(d)
  {
    forall w | w in d.windows ensures 1 <= |ItemsOf(d.items, w)| <= d.windows[w].capacity {
      ItemsAfterAttach(db.items, id, jobIds, w);
      PairsOfDistinct(id, jobIds);
    }
  }

  lemma RefusalsIgnoreOthers(db: Db, d: Db)
    requires RefusalsEscalated(db) && d.reports == db.reports && d.incidents == db.incidents
    ensures RefusalsEscalated(d)
  {
  }

  lemma CreateWindowKeepsInvariant(db: Db, id: Id, code: string, capacity: int, jobIds: seq<Id>, dbNow: int,
                                   actor: Option<Id>, d: Db)
    requires Invariant(db) && CreateWindow(db, id, code, capacity, jobIds, dbNow, actor) == Ok(d)
    ensures Invariant(d)
  {
    hide References, OneReportPerItem, InProgressCovered, WindowHistory, RefusalsEscalated, Staffed, AttachItems;
    var d1 := InsertWindow(db, id, code, capacity).value;
    var d2 := AttachItems(d1, id, jobIds, dbNow).value;
    InsertWindowKeepsCore(db, id, code, capacity);
    AttachItemsKeepsCore(d1, id, jobIds, dbNow);
    AttachItemsExact(d1, id, jobIds, dbNow);
    CoreIgnoresLog(d2, d);
    NewWindowStaffed(db, d, id, jobIds);
    RefusalsIgnoreOthers(db, d);
  }

  lemma CoreIgnoresLog(db: Db, d: Db)
    requires Core(db)
    requires d == db.(operators := d.operators, incidents := d.incidents, moorings := d.moorings, audits := d.audits)
    ensures Core(d)
  {
  }

  // ---------- Every transaction keeps the invariant ----------

  lemma {:induction false} InsertBuoysKeepsInvariant(db: Db, missionId: Id, inputs: seq<BuoyInput>)
    requires Invariant(db) && InsertBuoys(db, missionId, inputs).Ok?
    ensures Invariant(InsertBuoys(db, missionId, inputs).value)
    decreases |inputs|
  {
    if inputs != [] {
      InsertBuoysKeepsInvariant(InsertBuoy(db, missionId, inputs[0]).value, missionId, inputs[1..]);
    }
  }

  lemma {:induction false} PlaceJobsKeepsInvariant(db: Db, inputs: seq<JobInput>)
    requires Invariant(db) && PlaceJobs(db, inputs).Ok?
    ensures Invariant(PlaceJobs(db, inputs).value)
    decreases |inputs|
  {
    if inputs != [] {
      PlaceJobsKeepsInvariant(PlaceJob(db, inputs[0]).value, inputs[1..]);
    }
  }

  lemma MoveJobKeepsInvariant(db: Db, id: Id, next: JobStatus, version: int, now: int)
    requires Invariant(db) && !next.InProgress?
    requires MoveJob(db, id, next, version, now).Ok?
    ensures Invariant(MoveJob(db, id, next, version, now).value)
  {
    MoveJobKeepsCore(db, id, next, version, now);
  }

  lemma ReviewKeepsEscalation(db: Db, d: Db, input: ReviewInput)
    requires RefusalsEscalated(db) && d.reports.Keys == db.reports.Keys && input.reportId in d.reports
    requires forall r | r in db.reports && r != input.reportId :: d.reports[r] == db.reports[r]
    requires d.reports[input.reportId].status.Refused? ==> HasReassessment(d.incidents, d.reports[input.reportId].jobId)
    requires forall i | i in db.incidents :: i in d.incidents && d.incidents[i] == db.incidents[i]
    ensures RefusalsEscalated(d)
  {
    forall r | r in d.reports && d.reports[r].status.Refused?
      ensures HasReassessment(d.incidents, d.reports[r].jobId)
    {
      if r != input.reportId {
        var i :| i in db.incidents && db.incidents[i].jobId == d.reports[r].jobId && db.incidents[i].kind == Reassess;
        assert i in d.incidents;
      }
    }
  }

  /** A successful review touches three tables and the log, and nothing else. */
  lemma ReviewShape(db: Db, input: ReviewInput, now: int, actor: Option<Id>, d: Db)
    requires ReviewReport(db, input, now, actor) == Ok(d)
    ensures input.reportId in db.reports && input.jobId in db.jobs && db.reports[input.reportId].jobId == input.jobId
    ensures db.reports[input.reportId].status.Pending?
    ensures d == db.(jobs := d.jobs, reports := d.reports, incidents := d.incidents, audits := d.audits)
    ensures d.reports == db.reports[input.reportId := Report(input.jobId, db.reports[input.reportId].windowId,
              if input.accepted then Confirmed else Refused, Some(now), db.reports[input.reportId].version + 1)]
    ensures d.jobs == db.jobs[input.jobId := db.jobs[input.jobId].(
              status := if input.accepted then JobStatus.Verified else JobStatus.Rejected,
              version := db.jobs[input.jobId].version + 1)]
    ensures input.accepted ==> d.incidents == db.incidents
    ensures !input.accepted ==> input.incidentId !in db.incidents
    ensures !input.accepted ==>
      d.incidents == db.incidents[input.incidentId := Incident(input.jobId, Reassess, Opened, now + 72 * HOUR)]
    ensures d.audits == db.audits
                        + (if input.accepted then [] else [AuditEvent(IncidentObject, input.incidentId, Open)])
                        + [AuditEvent(ReportObject, input.reportId, Review)]
  {
    assert db.audits + [] == db.audits;
  }

  lemma ReviewKeepsInvariant(db: Db, input: ReviewInput, now: int, actor: Option<Id>, d: Db)
    requires Invariant(db) && ReviewReport(db, input, now, actor) == Ok(d)
    ensures Invariant(d)
  {
    ReviewTransactionKeepsCore(db, input, now, actor, d);
    ReviewTransactionEscalates(db, input, now, actor, d);
  }

  lemma ReviewTransactionEscalates(db: Db, input: ReviewInput, now: int, actor: Option<Id>, d: Db)
    requires RefusalsEscalated(db) && Staffed(db) && ReviewReport(db, input, now, actor) == Ok(d)
    ensures RefusalsEscalated(d) && Staffed(d)
  {
    ReviewShape(db, input, now, actor, d);
    assert !input.accepted ==> d.incidents[input.incidentId].kind == Reassess;
    ReviewKeepsEscalation(db, d, input);
  }

  /** Reviewing a report and moving its job keep the core together; neither does alone. */
  lemma ReviewTransactionKeepsCore(db: Db, input: ReviewInput, now: int, actor: Option<Id>, d: Db)
    requires Core(db) && ReviewReport(db, input, now, actor) == Ok(d)
    ensures Core(d)
  {
    hide ReviewReport, References, OneReportPerItem, InProgressCovered, WindowHistory;
    ReviewShape(db, input, now, actor, d);
    ReviewKeepsReferences(db, d, input.reportId, input.jobId);
    ReviewKeepsCovered(db, d, input.reportId, input.jobId);
    ReviewKeepsWindowHistory(db, d, input.reportId);
  }

  lemma IncidentMoveKeepsInvariant(db: Db, d: Db)
    requires Invariant(db)
    requires d == db.(incidents := d.incidents, audits := d.audits) && db.incidents.Keys <= d.incidents.Keys
    requires forall i | i in db.incidents ::
               d.incidents[i].jobId == db.incidents[i].jobId && d.incidents[i].kind == db.incidents[i].kind
    ensures Invariant(d)
  {
    CoreIgnoresLog(db, d);
    forall r | r in d.reports && d.reports[r].status.Refused?
      ensures HasReassessment(d.incidents, d.reports[r].jobId)
    {
      var i :| i in db.incidents && db.incidents[i].jobId == d.reports[r].jobId && db.incidents[i].kind == Reassess;
      assert i in d.incidents;
    }
  }

  lemma LogKeepsInvariant(db: Db, d: Db)
    requires Invariant(db) && d == db.(operators := d.operators, moorings := d.moorings, audits := d.audits)
    ensures Invariant(d)
  {
    CoreIgnoresLog(db, d);
  }

  lemma CreateMissionKeepsInvariant(db: Db, id: Id, m: MissionInput, now: int, actor: Option<Id>, d: Db)
    requires Invariant(db) && CreateMission(db, id, m, now, actor) == Ok(d)
    ensures Invariant(d)
  {
    var db1 := InsertMission(db, id, m.creator, Mission(m.code, Draft, m.startsAt, m.endsAt, 1)).value;
    assert Invariant(db1);
    InsertBuoysKeepsInvariant(db1, id, m.buoys);
    LogKeepsInvariant(InsertBuoys(db1, id, m.buoys).value, d);
  }

  lemma CreateJobKeepsInvariant(db: Db, input: JobInput, now: int, actor: Option<Id>, d: Db)
    requires Invariant(db) && CreateJob(db, input, now, actor) == Ok(d)
    ensures Invariant(d)
  {
    assert Invariant(PlaceJob(db, input).value);
    LogKeepsInvariant(PlaceJob(db, input).value, d);
  }

  lemma CreateJobsKeepsInvariant(db: Db, inputs: seq<JobInput>, now: int, actor: Option<Id>, d: Db)
    requires Invariant(db) && CreateJobsBulk(db, inputs, now, actor) == Ok(d)
    ensures Invariant(d)
  {
    PlaceJobsKeepsInvariant(db, inputs);
    LogKeepsInvariant(PlaceJobs(db, inputs).value, d);
  }

  lemma CompleteJobKeepsInvariant(db: Db, id: Id, version: int, now: int, actor: Option<Id>, d: Db)
    requires Invariant(db) && CompleteJob(db, id, version, now, actor) == Ok(d)
    ensures Invariant(d)
  {
    MoveJobKeepsInvariant(db, id, JobStatus.Completed, version, now);
    LogKeepsInvariant(MoveJob(db, id, JobStatus.Completed, version, now).value, d);
  }

  lemma ArchiveJobKeepsInvariant(db: Db, id: Id, version: int, now: int, actor: Option<Id>, d: Db)
    requires Invariant(db) && ArchiveJob(db, id, version, now, actor) == Ok(d)
    ensures Invariant(d)
  {
    MoveJobKeepsInvariant(db, id, JobStatus.Archived, version, now);
    LogKeepsInvariant(MoveJob(db, id, JobStatus.Archived, version, now).value, d);
  }

  lemma HandOverKeepsInvariant(db: Db, h: Handover, next: JobStatus, version: int, actor: Option<Id>, action: Action,
                               d: Db)
    requires Invariant(db) && !next.InProgress? && HandOver(db, h, next, version, actor, action) == Ok(d)
    ensures Invariant(d)
  {
    MoveJobKeepsInvariant(db, h.jobId, next, version, h.recordedAt);
    LogKeepsInvariant(MoveJob(db, h.jobId, next, version, h.recordedAt).value, d);
  }

  lemma StartWindowKeepsInvariant(db: Db, id: Id, version: int, now: int, actor: Option<Id>, d: Db)
    requires Invariant(db) && StartWindow(db, id, version, now, actor) == Ok(d)
    ensures Invariant(d)
  {
    StartWindowKeepsCore(db, id, version, now);
    assert Invariant(StartWindowRow(db, id, version, now).value);
    LogKeepsInvariant(StartWindowRow(db, id, version, now).value, d);
  }

  lemma CompleteWindowKeepsInvariant(db: Db, id: Id, version: int, now: int, actor: Option<Id>, d: Db)
    requires Invariant(db) && CompleteWindow(db, id, version, now, actor) == Ok(d)
    ensures Invariant(d)
  {
    hide Core;
    CompleteWindowKeepsCore(db, id, version, now);
    assert Invariant(CompleteWindowRow(db, id, version, now).value);
    LogKeepsInvariant(CompleteWindowRow(db, id, version, now).value, d);
  }

  lemma CancelWindowKeepsInvariant(db: Db, id: Id, version: int, now: int, actor: Option<Id>, d: Db)
    requires Invariant(db) && CancelWindow(db, id, version, now, actor) == Ok(d)
    ensures Invariant(d)
  {
    hide Core;
    CancelWindowKeepsCore(db, id, version, now);
    assert Invariant(CancelWindowRow(db, id, version, now).value);
    LogKeepsInvariant(CancelWindowRow(db, id, version, now).value, d);
  }

  lemma SubmitKeepsInvariant(db: Db, id: Id, jobId: Id, windowId: Id, recorder: Id, actor: Option<Id>, d: Db)
    requires Invariant(db) && SubmitReport(db, id, jobId, windowId, recorder, actor) == Ok(d)
    ensures Invariant(d)
  {
    InsertReportKeepsCore(db, id, jobId, windowId, recorder);
    assert Invariant(InsertReport(db, id, jobId, windowId, recorder).value);
    LogKeepsInvariant(InsertReport(db, id, jobId, windowId, recorder).value, d);
  }

  lemma AdvanceMissionKeepsInvariant(db: Db, id: Id, next: MissionStatus, version: int, actor: Option<Id>, d: Db)
    requires Invariant(db) && AdvanceMission(db, id, next, version, actor) == Ok(d)
    ensures Invariant(d)
  {
  }

  lemma SweepKeepsInvariant(db: Db, picked: seq<Id>)
    requires Invariant(db)
    ensures Invariant(MarkAllExpired(db, picked))
  {
    MarkAllExpiredKeepsCore(db, picked);
  }

  lemma IncidentKeepsInvariant(db: Db, op: Op, d: Db)
    requires op.OpenIncidentOp? || op.StartIncidentOp? || op.CloseIncidentOp?
    requires Invariant(db) && Apply(db, op) == Ok(d)
    ensures Invariant(d)
  {
    IncidentMoveKeepsInvariant(db, d);
  }

  /** The inductive step over all nineteen transactions. */
  lemma ApplyKeepsInvariant(db: Db, op: Op, d: Db)
    requires Invariant(db) && Apply(db, op) == Ok(d)
    ensures Invariant(d)
  {
    hide Invariant;
    hide CreateMission, AdvanceMission, CreateJob, CreateJobsBulk, CompleteJob, ArchiveJob, HandOver;
    hide CreateWindow, StartWindow, CompleteWindow, CancelWindow, SubmitReport, ReviewReport;
    hide SweepPicks, MarkAllExpired;
    match op
    case AddOperatorOp(_, _, _) => LogKeepsInvariant(db, d);
    case CreateMissionOp(id, m, now, actor) => CreateMissionKeepsInvariant(db, id, m, now, actor, d);
    case AdvanceMissionOp(id, next, version, actor) => AdvanceMissionKeepsInvariant(db, id, next, version, actor, d);
    case CreateJobOp(job, now, actor) => CreateJobKeepsInvariant(db, job, now, actor, d);
    case CreateJobsBulkOp(jobs, now, actor) => CreateJobsKeepsInvariant(db, jobs, now, actor, d);
    case CompleteJobOp(id, version, now, actor) => CompleteJobKeepsInvariant(db, id, version, now, actor, d);
    case ArchiveJobOp(id, version, now, actor) => ArchiveJobKeepsInvariant(db, id, version, now, actor, d);
    case ActivateJobOp(h, version, actor) =>
      HandOverKeepsInvariant(db, h, JobStatus.ActivationPending, version, actor, Activation, d);
    case AcceptJobOp(h, version, actor) => HandOverKeepsInvariant(db, h, JobStatus.Accepted, version, actor, Accept, d);
    case CreateWindowOp(id, code, capacity, jobIds, now, actor) =>
      CreateWindowKeepsInvariant(db, id, code, capacity, jobIds, now, actor, d);
    case StartWindowOp(id, version, now, actor) => StartWindowKeepsInvariant(db, id, version, now, actor, d);
    case CompleteWindowOp(id, version, now, actor) => CompleteWindowKeepsInvariant(db, id, version, now, actor, d);
    case CancelWindowOp(id, version, now, actor) => CancelWindowKeepsInvariant(db, id, version, now, actor, d);
    case SubmitReportOp(id, jobId, windowId, recorder, actor) =>
      SubmitKeepsInvariant(db, id, jobId, windowId, recorder, actor, d);
    case ReviewReportOp(review, now, actor) => ReviewKeepsInvariant(db, review, now, actor, d);
    case SweepOp(now, limit, picked) => SweepKeepsInvariant(db, picked);
    case _ => IncidentKeepsInvariant(db, op, d);
  }

  /** The invariant holds in every state reached from the empty tables by any
      sequence of transactions, failed ones included. */
  lemma {:induction false} RunKeepsInvariant(ops: seq<Op>)
    ensures Invariant(Run(EMPTY_DB, ops))
    decreases |ops|
  {
    if ops != [] {
      var before, op := Run(EMPTY_DB, ops[..|ops| - 1]), ops[|ops| - 1];
      RunKeepsInvariant(ops[..|ops| - 1]);
      if Apply(before, op).Ok? {
        ApplyKeepsInvariant(before, op, Apply(before, op).value);
      }
    }
  }
}
