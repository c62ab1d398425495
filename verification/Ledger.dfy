/** The audit log accounts for every version number, over whole runs. */
module Ledger {
  import opened Prelude
  import opened Status
  import opened Tables
  import opened Transactions
  import opened Workflow
  import opened Frames

  /** How many events the log holds about one object. */
  function Logged(audits: seq<AuditEvent>, objectType: ObjectType, id: Id): nat {
    if audits == [] then 0
    else
      var last := audits[|audits| - 1];
      Logged(audits[..|audits| - 1], objectType, id)
      + (if last.objectType == objectType && last.objectId == id then 1 else 0)
  }

  predicate WritesJob(e: AuditEvent, j: Id) {
    (e.objectType.JobObject? || e.objectType.SweptJob?) && e.objectId == j && !e.action.Create?
  }

  /** How many events the log holds about writes to a job, its creation not counted. */
  function JobEvents(audits: seq<AuditEvent>, j: Id): nat {
    if audits == [] then 0
    else JobEvents(audits[..|audits| - 1], j) + (if WritesJob(audits[|audits| - 1], j) then 1 else 0)
  }

  function ItemsFor(items: set<(Id, Id)>, j: Id): set<(Id, Id)> {
    set p | p in items && p.1 == j
  }

  function ReviewedFor(reports: map<Id, Report>, j: Id): set<Id> {
    set r | r in reports && reports[r].jobId == j && !reports[r].status.Pending?
  }

  /** Version minus log entries, for each kind of row; 0 means the log explains the version. */
  function MissionBalance(db: Db, m: Id): int {
    (if m in db.missions then db.missions[m].version else 0) - Logged(db.audits, MissionObject, m)
  }

  function WindowBalance(db: Db, w: Id): int {
    (if w in db.windows then db.windows[w].version else 0) - Logged(db.audits, WindowObject, w)
  }

  function ReportBalance(db: Db, r: Id): int {
    (if r in db.reports then db.reports[r].version else 0) - Logged(db.audits, ReportObject, r)
  }

  /** Attaching to a window and being reviewed write the job without a job event,
      so items and reviewed reports count too. */
  function JobBalance(db: Db, j: Id): int {
    (if j in db.jobs then db.jobs[j].version - 1 else 0)
    - JobEvents(db.audits, j) - |ItemsFor(db.items, j)| - |ReviewedFor(db.reports, j)|
  }

  /** All four balances of `x` are kept, except that `restored` writes of job `x` went unlogged. */
  ghost predicate Keeps(db: Db, d: Db, x: Id, restored: nat) {
    && MissionBalance(d, x) == MissionBalance(db, x)
    && WindowBalance(d, x) == WindowBalance(db, x)
    && ReportBalance(d, x) == ReportBalance(db, x)
    && JobBalance(d, x) == JobBalance(db, x) + restored
  }

  lemma LogOne(audits: seq<AuditEvent>, e: AuditEvent, x: Id)
    ensures Logged(audits + [e], MissionObject, x)
         == Logged(audits, MissionObject, x) + (if e.objectType.MissionObject? && e.objectId == x then 1 else 0)
    ensures Logged(audits + [e], WindowObject, x)
         == Logged(audits, WindowObject, x) + (if e.objectType.WindowObject? && e.objectId == x then 1 else 0)
    ensures Logged(audits + [e], ReportObject, x)
         == Logged(audits, ReportObject, x) + (if e.objectType.ReportObject? && e.objectId == x then 1 else 0)
    ensures JobEvents(audits + [e], x) == JobEvents(audits, x) + (if WritesJob(e, x) then 1 else 0)
  {
    assert (audits + [e])[..|audits|] == audits;
  }

  lemma {:induction false} LogExpiries(audits: seq<AuditEvent>, ids: seq<Id>, x: Id)
    requires Distinct(ids)
    ensures Logged(audits + ExpiryEvents(ids), MissionObject, x) == Logged(audits, MissionObject, x)
    ensures Logged(audits + ExpiryEvents(ids), WindowObject, x) == Logged(audits, WindowObject, x)
    ensures Logged(audits + ExpiryEvents(ids), ReportObject, x) == Logged(audits, ReportObject, x)
    ensures JobEvents(audits + ExpiryEvents(ids), x) == JobEvents(audits, x) + (if x in ids then 1 else 0)
    decreases |ids|
  {
    if ids == [] {
      assert audits + ExpiryEvents(ids) == audits;
    } else {
      var rest, last := ids[..|ids| - 1], ids[|ids| - 1];
      LogExpiries(audits, rest, x);
      assert ids == rest + [last] && last !in rest;
      assert audits + ExpiryEvents(ids) == (audits + ExpiryEvents(rest)) + [AuditEvent(SweptJob, last, Expire)];
      LogOne(audits + ExpiryEvents(rest), AuditEvent(SweptJob, last, Expire), x);
    }
  }

  // ---------- Per transaction ----------

  lemma AddOperatorBalances(db: Db, id: Id, mayRecord: bool, actor: Option<Id>, d: Db, x: Id)
    requires AddOperator(db, id, mayRecord, actor) == Ok(d)
    ensures Keeps(db, d, x, 0)
  {
    hide Logged, JobEvents;
    LogOne(db.audits, AuditEvent(OperatorObject, id, Create), x);
  }

  lemma CreateMissionBalances(db: Db, id: Id, m: MissionInput, now: int, actor: Option<Id>, d: Db, x: Id)
    requires CreateMission(db, id, m, now, actor) == Ok(d)
    ensures Keeps(db, d, x, 0)
  {
    hide Logged, JobEvents;
    var db1 := InsertMission(db, id, m.creator, Mission(m.code, Draft, m.startsAt, m.endsAt, 1)).value;
    InsertBuoysFrame(db1, id, m.buoys, InsertBuoys(db1, id, m.buoys).value);
    LogOne(db.audits, AuditEvent(MissionObject, id, Create), x);
  }

  lemma AdvanceMissionBalances(db: Db, id: Id, next: MissionStatus, version: int, actor: Option<Id>, d: Db, x: Id)
    requires AdvanceMission(db, id, next, version, actor) == Ok(d)
    ensures Keeps(db, d, x, 0)
  {
    hide Logged, JobEvents;
    LogOne(db.audits, AuditEvent(MissionObject, id, MissionAction(next)), x);
  }

  lemma CreateJobBalances(db: Db, job: JobInput, now: int, actor: Option<Id>, d: Db, x: Id)
    requires CreateJob(db, job, now, actor) == Ok(d)
    ensures Keeps(db, d, x, 0)
  {
    hide Logged, JobEvents;
    LogOne(db.audits, AuditEvent(JobObject, job.id, Create), x);
  }

  lemma CreateJobsBalances(db: Db, jobs: seq<JobInput>, now: int, actor: Option<Id>, d: Db, x: Id)
    requires CreateJobsBulk(db, jobs, now, actor) == Ok(d)
    ensures Keeps(db, d, x, 0)
  {
    hide Logged, JobEvents;
    PlaceJobsFrame(db, jobs, PlaceJobs(db, jobs).value);
    LogOne(db.audits, AuditEvent(BulkObject, jobs[0].missionId, CreateBulk), x);
  }

  lemma MoveJobBalances(db: Db, id: Id, next: JobStatus, version: int, now: int, action: Action, d: Db, x: Id)
    requires MoveJob(db, id, next, version, now).Ok? && !action.Create?
    requires d == MoveJob(db, id, next, version, now).value.(
                    moorings := d.moorings, audits := db.audits + [AuditEvent(JobObject, id, action)])
    ensures Keeps(db, d, x, 0)
  {
    hide Logged, JobEvents;
    LogOne(db.audits, AuditEvent(JobObject, id, action), x);
  }

  lemma CompleteJobBalances(db: Db, id: Id, version: int, now: int, actor: Option<Id>, d: Db, x: Id)
    requires CompleteJob(db, id, version, now, actor) == Ok(d)
    ensures Keeps(db, d, x, 0)
  {
    hide Keeps;
    MoveJobBalances(db, id, JobStatus.Completed, version, now, Complete, d, x);
  }

  lemma ArchiveJobBalances(db: Db, id: Id, version: int, now: int, actor: Option<Id>, d: Db, x: Id)
    requires ArchiveJob(db, id, version, now, actor) == Ok(d)
    ensures Keeps(db, d, x, 0)
  {
    hide Keeps;
    MoveJobBalances(db, id, JobStatus.Archived, version, now, Archive, d, x);
  }

  lemma HandOverBalances(db: Db, h: Handover, next: JobStatus, version: int, actor: Option<Id>, action: Action, d: Db,
                         x: Id)
    requires HandOver(db, h, next, version, actor, action) == Ok(d) && !action.Create?
    ensures Keeps(db, d, x, 0)
  {
    hide Keeps;
    MoveJobBalances(db, h.jobId, next, version, h.recordedAt, action, d, x);
  }

  lemma ItemsForAfterAttach(items: set<(Id, Id)>, w: Id, jobIds: seq<Id>, x: Id)
    requires x in jobIds ==> (w, x) !in items
    ensures |ItemsFor(items + Pairs(w, jobIds), x)| == |ItemsFor(items, x)| + (if x in jobIds then 1 else 0)
  {
    if x in jobIds {
      assert ItemsFor(items + Pairs(w, jobIds), x) == ItemsFor(items, x) + {(w, x)};
    } else {
      assert ItemsFor(items + Pairs(w, jobIds), x) == ItemsFor(items, x);
    }
  }

  /** Attaching raises a job's version once and gives it one more item. */
  lemma AttachedJobBalance(db: Db, w: Id, jobIds: seq<Id>, now: int, x: Id)
    requires forall j | j in jobIds :: Attachable(db, w, j, now)
    ensures JobBalance(Attached(db, w, jobIds), x) == JobBalance(db, x)
  {
    if x in jobIds {
      assert Attachable(db, w, x, now);
    }
    ItemsForAfterAttach(db.items, w, jobIds, x);
  }

  lemma CreateWindowBalances(db: Db, id: Id, code: string, capacity: int, jobIds: seq<Id>, now: int, actor: Option<Id>,
                             d: Db, x: Id)
    requires CreateWindow(db, id, code, capacity, jobIds, now, actor) == Ok(d)
    ensures Keeps(db, d, x, 0)
  {
    hide Logged, JobEvents;
    var db1 := InsertWindow(db, id, code, capacity).value;
    AttachItemsExact(db1, id, jobIds, now);
    var db2 := Attached(db1, id, jobIds);
    assert d == db2.(audits := db.audits + [AuditEvent(WindowObject, id, Create)]);
    AttachedJobBalance(db1, id, jobIds, now, x);
    LogOne(db.audits, AuditEvent(WindowObject, id, Create), x);
    assert JobBalance(d, x) == JobBalance(db2, x) && JobBalance(db1, x) == JobBalance(db, x);
  }

  lemma StartWindowBalances(db: Db, id: Id, version: int, now: int, actor: Option<Id>, d: Db, x: Id)
    requires StartWindow(db, id, version, now, actor) == Ok(d)
    ensures Keeps(db, d, x, 0)
  {
    hide Logged, JobEvents;
    LogOne(db.audits, AuditEvent(WindowObject, id, Start), x);
  }

  lemma CompleteWindowBalances(db: Db, id: Id, version: int, now: int, actor: Option<Id>, d: Db, x: Id)
    requires CompleteWindow(db, id, version, now, actor) == Ok(d)
    ensures Keeps(db, d, x, 0)
  {
    hide Logged, JobEvents;
    LogOne(db.audits, AuditEvent(WindowObject, id, Complete), x);
  }

  lemma CancelWindowBalances(db: Db, id: Id, version: int, now: int, actor: Option<Id>, d: Db, x: Id)
    requires CancelWindow(db, id, version, now, actor) == Ok(d)
    ensures Keeps(db, d, x, if RestoredBy(db, id, x) then 1 else 0)
  {
    hide Logged, JobEvents;
    LogOne(db.audits, AuditEvent(WindowObject, id, Cancel), x);
  }

  lemma SubmitReportBalances(db: Db, id: Id, jobId: Id, windowId: Id, recorder: Id, actor: Option<Id>, d: Db, x: Id)
    requires SubmitReport(db, id, jobId, windowId, recorder, actor) == Ok(d)
    ensures Keeps(db, d, x, 0)
  {
    hide Logged, JobEvents;
    LogOne(db.audits, AuditEvent(ReportObject, id, Record), x);
    assert ReviewedFor(d.reports, x) == ReviewedFor(db.reports, x);
  }

  lemma LogReview(before: seq<AuditEvent>, after: seq<AuditEvent>, input: ReviewInput, x: Id)
    requires after == before + (if input.accepted then [] else [AuditEvent(IncidentObject, input.incidentId, Open)])
                      + [AuditEvent(ReportObject, input.reportId, Review)]
    ensures Logged(after, MissionObject, x) == Logged(before, MissionObject, x)
    ensures Logged(after, WindowObject, x) == Logged(before, WindowObject, x)
    ensures Logged(after, ReportObject, x) == Logged(before, ReportObject, x) + (if x == input.reportId then 1 else 0)
    ensures JobEvents(after, x) == JobEvents(before, x)
  {
    hide Logged, JobEvents;
    var opening := AuditEvent(IncidentObject, input.incidentId, Open);
    var middle := if input.accepted then before else before + [opening];
    assert after == middle + [AuditEvent(ReportObject, input.reportId, Review)];
    LogOne(before, opening, x);
    LogOne(middle, AuditEvent(ReportObject, input.reportId, Review), x);
  }

  lemma ReviewedAfterReview(before: map<Id, Report>, after: map<Id, Report>, id: Id, x: Id)
    requires id in before && before[id].status.Pending? && after.Keys == before.Keys
    requires after[id].jobId == before[id].jobId && !after[id].status.Pending?
    requires forall r | r in before && r != id :: after[r] == before[r]
    ensures |ReviewedFor(after, x)| == |ReviewedFor(before, x)| + (if x == before[id].jobId then 1 else 0)
  {
    if x == before[id].jobId {
      assert ReviewedFor(after, x) == ReviewedFor(before, x) + {id};
    } else {
      assert ReviewedFor(after, x) == ReviewedFor(before, x);
    }
  }

  lemma ReviewReportBalances(db: Db, input: ReviewInput, now: int, actor: Option<Id>, d: Db, x: Id)
    requires ReviewReport(db, input, now, actor) == Ok(d)
    ensures Keeps(db, d, x, 0)
  {
    hide Logged, JobEvents;
    ReviewShape(db, input, now, actor, d);
    LogReview(db.audits, d.audits, input, x);
    ReviewedAfterReview(db.reports, d.reports, input.reportId, x);
  }

  lemma IncidentBalances(db: Db, id: Id, action: Action, d: Db, x: Id)
    requires d == db.(incidents := d.incidents, audits := db.audits + [AuditEvent(IncidentObject, id, action)])
    ensures Keeps(db, d, x, 0)
  {
    hide Logged, JobEvents;
    LogOne(db.audits, AuditEvent(IncidentObject, id, action), x);
  }

  lemma IncidentOpBalances(db: Db, op: Op, d: Db, x: Id)
    requires (op.OpenIncidentOp? || op.StartIncidentOp? || op.CloseIncidentOp?) && Apply(db, op) == Ok(d)
    ensures Keeps(db, d, x, 0)
  {
    hide Keeps;
    match op
    case OpenIncidentOp(id, jobId, kind, dueAt, now, actor) => IncidentBalances(db, id, Open, d, x);
    case StartIncidentOp(id, actor) => IncidentBalances(db, id, Start, d, x);
    case CloseIncidentOp(id, actor) => IncidentBalances(db, id, Close, d, x);
  }

  lemma SweepBalances(db: Db, now: int, limit: int, picked: seq<Id>, x: Id)
    requires SweepPicks(db.jobs, now, limit, picked)
    ensures Keeps(db, MarkAllExpired(db, picked), x, 0)
  {
    hide Logged, JobEvents;
    MarkAllExpiredExact(db, picked);
    LogExpiries(db.audits, picked, x);
  }

  // ---------- Over whole runs ----------

  /** Cancelling window `w` in this state puts job `j` back to accepted. */
  predicate RestoredBy(db: Db, w: Id, j: Id) {
    j in db.jobs && (w, j) in db.items && db.jobs[j].status.InProgress?
  }

  /** How many cancellations in a run restored job `j`. */
  ghost function Restores(db: Db, ops: seq<Op>, j: Id): nat
    decreases |ops|
  {
    if ops == [] then 0
    else
      var rest, op := ops[..|ops| - 1], ops[|ops| - 1];
      Restores(db, rest, j) + StepRestores(Run(db, rest), op, j)
  }

  ghost function StepRestores(db: Db, op: Op, j: Id): nat {
    if op.CancelWindowOp? && Apply(db, op).Ok? && RestoredBy(db, op.id, j) then 1 else 0
  }

  lemma ApplyBalances(db: Db, op: Op, d: Db, x: Id)
    requires Apply(db, op) == Ok(d)
    ensures Keeps(db, d, x, StepRestores(db, op, x))
  {
    hide Keeps, AddOperator, OpenIncident, StartIncident, CloseIncident;
    hide CreateMission, AdvanceMission, CreateJob, CreateJobsBulk, CompleteJob, ArchiveJob, HandOver;
    hide CreateWindow, StartWindow, CompleteWindow, CancelWindow, SubmitReport, ReviewReport;
    hide SweepPicks, MarkAllExpired;
    match op
    case AddOperatorOp(id, mayRecord, actor) => AddOperatorBalances(db, id, mayRecord, actor, d, x);
    case CreateMissionOp(id, m, now, actor) => CreateMissionBalances(db, id, m, now, actor, d, x);
    case AdvanceMissionOp(id, next, version, actor) => AdvanceMissionBalances(db, id, next, version, actor, d, x);
    case CreateJobOp(job, now, actor) => CreateJobBalances(db, job, now, actor, d, x);
    case CreateJobsBulkOp(jobs, now, actor) => CreateJobsBalances(db, jobs, now, actor, d, x);
    case CompleteJobOp(id, version, now, actor) =>
      CompleteJobBalances(db, id, version, now, actor, d, x);
    case ArchiveJobOp(id, version, now, actor) => ArchiveJobBalances(db, id, version, now, actor, d, x);
    case ActivateJobOp(h, version, actor) =>
      HandOverBalances(db, h, JobStatus.ActivationPending, version, actor, Activation, d, x);
    case AcceptJobOp(h, version, actor) =>
      HandOverBalances(db, h, JobStatus.Accepted, version, actor, Accept, d, x);
    case CreateWindowOp(id, code, capacity, jobIds, now, actor) =>
      CreateWindowBalances(db, id, code, capacity, jobIds, now, actor, d, x);
    case StartWindowOp(id, version, now, actor) => StartWindowBalances(db, id, version, now, actor, d, x);
    case CompleteWindowOp(id, version, now, actor) => CompleteWindowBalances(db, id, version, now, actor, d, x);
    case CancelWindowOp(id, version, now, actor) => CancelWindowBalances(db, id, version, now, actor, d, x);
    case SubmitReportOp(id, jobId, windowId, recorder, actor) =>
      SubmitReportBalances(db, id, jobId, windowId, recorder, actor, d, x);
    case ReviewReportOp(review, now, actor) => ReviewReportBalances(db, review, now, actor, d, x);
    case SweepOp(now, limit, picked) => SweepBalances(db, now, limit, picked, x);
    case _ => IncidentOpBalances(db, op, d, x);
  }

  /** Over every run: a mission's, window's or report's version is the number of
      its log events, and a job's version minus one is its non-creation events plus
      its window items plus its reviewed reports plus the cancellations that
      restored it.  Ids without a row have no events at all. */
  lemma {:induction false} RunBalances(ops: seq<Op>, x: Id)
    ensures var db := Run(EMPTY_DB, ops);
            && MissionBalance(db, x) == WindowBalance(db, x) == ReportBalance(db, x) == 0
            && JobBalance(db, x) == Restores(EMPTY_DB, ops, x)
    decreases |ops|
  {
    if ops == [] {
      assert ItemsFor(EMPTY_DB.items, x) == {} && ReviewedFor(EMPTY_DB.reports, x) == {};
    } else {
      var rest, op := ops[..|ops| - 1], ops[|ops| - 1];
      RunBalances(rest, x);
      if Apply(Run(EMPTY_DB, rest), op).Ok? {
        ApplyBalances(Run(EMPTY_DB, rest), op, Apply(Run(EMPTY_DB, rest), op).value, x);
      }
    }
  }
}
