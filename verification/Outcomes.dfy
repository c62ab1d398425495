/** What every committed transaction leaves behind, table by table and column by column, with
    its loops taken at once. */
module Outcomes {
  import opened Prelude
  import opened Status
  import opened Tables
  import opened Transactions
  import opened Workflow
  import opened Frames

  function Logged(db: Db, objectType: ObjectType, id: Id, action: Action): seq<AuditEvent> {
    db.audits + [AuditEvent(objectType, id, action)]
  }

  /** The table with a new row for each input. */
  ghost predicate BuoysAdded(before: map<Id, Buoy>, after: map<Id, Buoy>, missionId: Id, inputs: seq<BuoyInput>) {
    && (forall b | b in after && b !in before :: exists i :: 0 <= i < |inputs| && inputs[i].id == b)
    && (forall b | b in before :: b in after && after[b] == before[b])
    && (forall i | 0 <= i < |inputs| ::
          && inputs[i].id in after && inputs[i].id !in before
          && after[inputs[i].id] == Buoy(missionId, inputs[i].code, inputs[i].required, 0))
  }

  function QueuedJob(input: JobInput): Job {
    Job(input.missionId, input.buoyId, input.code, JobStatus.Queued, None, None, input.expiresAt, 1)
  }

  ghost predicate JobsAdded(before: map<Id, Job>, after: map<Id, Job>, inputs: seq<JobInput>) {
    && (forall j | j in after && j !in before :: exists i :: 0 <= i < |inputs| && inputs[i].id == j)
    && (forall j | j in before :: j in after && after[j] == before[j])
    && (forall i | 0 <= i < |inputs| ::
          inputs[i].id in after && inputs[i].id !in before && after[inputs[i].id] == QueuedJob(inputs[i]))
  }

  /** The rows among `moved` get a new status and one more version, the others stay. */
  ghost predicate JobsMoved(before: map<Id, Job>, after: map<Id, Job>, moved: set<Id>, status: JobStatus) {
    && after.Keys == before.Keys
    && forall j | j in before ::
         after[j] == if j in moved then before[j].(status := status, version := before[j].version + 1) else before[j]
  }

  function JobMoved(db: Db, id: Id, status: JobStatus): map<Id, Job>
    requires id in db.jobs
  {
    db.jobs[id := db.jobs[id].(status := status, version := db.jobs[id].version + 1)]
  }

  ghost predicate HandedOn(db: Db, h: Handover, d: Db, row: Job, action: Action) {
    d == db.(jobs := db.jobs[h.jobId := row],
             moorings := db.moorings + [Mooring(h.jobId, h.from, h.to, h.recordedAt)],
             audits := Logged(db, JobObject, h.jobId, action))
  }

  ghost predicate WindowMoved(db: Db, id: Id, d: Db, row: Window, action: Action) {
    d == db.(windows := db.windows[id := row], jobs := d.jobs, audits := Logged(db, WindowObject, id, action))
  }

  ghost predicate IncidentWritten(db: Db, id: Id, d: Db, row: Incident, action: Action) {
    d == db.(incidents := db.incidents[id := row], audits := Logged(db, IncidentObject, id, action))
  }

  /** The tables after a committed operation. */
  ghost predicate Outcome(db: Db, op: Op, d: Db) {
    match op
    case AddOperatorOp(id, mayRecord, _) =>
      d == db.(operators := db.operators[id := mayRecord], audits := Logged(db, OperatorObject, id, Create))
    case CreateMissionOp(id, m, _, _) =>
      && BuoysAdded(db.buoys, d.buoys, id, m.buoys)
      && d == db.(missions := db.missions[id := Mission(m.code, Draft, m.startsAt, m.endsAt, 1)], buoys := d.buoys,
                  audits := Logged(db, MissionObject, id, Create))
    case AdvanceMissionOp(id, next, version, _) =>
      && id in db.missions
      && d == db.(missions := db.missions[id := db.missions[id].(status := next, version := version + 1)],
                  audits := Logged(db, MissionObject, id, if next.Scheduled? then Schedule
                                                          else if next.Active? then Activate else Close))
    case CreateJobOp(job, _, _) =>
      d == db.(jobs := db.jobs[job.id := QueuedJob(job)], audits := Logged(db, JobObject, job.id, Create))
    case CreateJobsBulkOp(jobs, _, _) =>
      && jobs != [] && JobsAdded(db.jobs, d.jobs, jobs)
      && d == db.(jobs := d.jobs, audits := Logged(db, BulkObject, jobs[0].missionId, CreateBulk))
    case CompleteJobOp(id, version, now, _) =>
      && id in db.jobs && db.jobs[id].buoyId in db.buoys
      && var job := db.jobs[id];
         var buoy := db.buoys[job.buoyId];
      d == db.(jobs := db.jobs[id := job.(status := JobStatus.Completed, version := version + 1,
                                          completedAt := Some(now))],
               buoys := db.buoys[job.buoyId := buoy.(completed := buoy.completed + 1)],
               audits := Logged(db, JobObject, id, Complete))
    case ArchiveJobOp(id, _, _, _) =>
      && id in db.jobs
      && d == db.(jobs := JobMoved(db, id, JobStatus.Archived), audits := Logged(db, JobObject, id, Archive))
    case ActivateJobOp(h, version, _) =>
      && h.jobId in db.jobs
      && HandedOn(db, h, d, db.jobs[h.jobId].(status := ActivationPending, version := version + 1), Activation)
    case AcceptJobOp(h, version, _) =>
      && h.jobId in db.jobs
      && HandedOn(db, h, d, db.jobs[h.jobId].(status := JobStatus.Accepted, version := version + 1,
                                              acceptedAt := Some(h.recordedAt)), Accept)
    case CreateWindowOp(id, code, capacity, jobIds, _, _) =>
      && JobsMoved(db.jobs, d.jobs, (set j | j in jobIds), JobStatus.InProgress)
      && d == db.(windows := db.windows[id := Window(code, Waiting, capacity, None, None, 1)],
                  items := db.items + (set j | j in jobIds :: (id, j)),
                  jobs := d.jobs, audits := Logged(db, WindowObject, id, Create))
    case StartWindowOp(id, version, now, _) =>
      && id in db.windows && d.jobs == db.jobs
      && WindowMoved(db, id, d, db.windows[id].(status := Running, version := version + 1, startedAt := Some(now)),
                     Start)
    case CompleteWindowOp(id, version, now, _) =>
      && id in db.windows && d.jobs == db.jobs
      && WindowMoved(db, id, d, db.windows[id].(status := Done, version := version + 1, completedAt := Some(now)),
                     Complete)
    case CancelWindowOp(id, version, now, _) =>
      && id in db.windows
      && JobsMoved(db.jobs, d.jobs,
                   (set j | j in db.jobs && (id, j) in db.items && db.jobs[j].status == JobStatus.InProgress),
                   JobStatus.Accepted)
      && WindowMoved(db, id, d,
                     db.windows[id].(status := WindowStatus.Cancelled, version := version + 1,
                                     completedAt := Some(now)),
                     Cancel)
    case SubmitReportOp(id, jobId, windowId, _, _) =>
      d == db.(reports := db.reports[id := Report(jobId, windowId, ReportStatus.Pending, None, 1)],
               audits := Logged(db, ReportObject, id, Action.Record))
    case ReviewReportOp(input, now, _) =>
      && input.reportId in db.reports && input.jobId in db.jobs
      && d == db.(reports := d.reports, jobs := d.jobs, incidents := d.incidents, audits := d.audits)
      && d.reports == db.reports[input.reportId :=
           db.reports[input.reportId].(status := if input.accepted then Confirmed else Refused,
                                       reviewedAt := Some(now), version := input.reportVersion + 1)]
      && d.jobs == JobMoved(db, input.jobId, if input.accepted then JobStatus.Verified else JobStatus.Rejected)
      && (if input.accepted
          then d.incidents == db.incidents && d.audits == Logged(db, ReportObject, input.reportId, Review)
          else && d.incidents == db.incidents[input.incidentId :=
                    Incident(input.jobId, Reassess, Opened, now + 259_200_000_000_000)]
               && d.audits == Logged(db, IncidentObject, input.incidentId, Open)
                              + [AuditEvent(ReportObject, input.reportId, Review)])
    case OpenIncidentOp(id, jobId, kind, dueAt, now, _) =>
      IncidentWritten(db, id, d, Incident(jobId, kind, Opened, if dueAt.Some? then dueAt.value
                                                               else now + 259_200_000_000_000), Open)
    case StartIncidentOp(id, _) =>
      id in db.incidents && IncidentWritten(db, id, d, db.incidents[id].(status := Handling), Start)
    case CloseIncidentOp(id, _) =>
      id in db.incidents && IncidentWritten(db, id, d, db.incidents[id].(status := Settled), Close)
    case SweepOp(_, _, picked) =>
      && JobsMoved(db.jobs, d.jobs, (set j | j in picked), JobStatus.Rejected)
      && d == db.(jobs := d.jobs, audits := d.audits)
      && |d.audits| == |db.audits| + |picked| && d.audits[..|db.audits|] == db.audits
      && forall i | 0 <= i < |picked| :: d.audits[|db.audits| + i] == AuditEvent(SweptJob, picked[i], Expire)
  }

  // ---------- The outcomes are right ----------

  lemma {:induction false} BuoysAre(db: Db, missionId: Id, inputs: seq<BuoyInput>)
    requires InsertBuoys(db, missionId, inputs).Ok?
    ensures BuoysAdded(db.buoys, InsertBuoys(db, missionId, inputs).value.buoys, missionId, inputs)
    decreases |inputs|
  {
    if inputs != [] {
      var next, rest := InsertBuoy(db, missionId, inputs[0]).value, inputs[1..];
      BuoysAre(next, missionId, rest);
      assert forall i | 0 <= i < |rest| :: rest[i] == inputs[i + 1];
      forall i | 0 <= i < |inputs|
        ensures inputs[i].id !in db.buoys
        ensures inputs[i].id in InsertBuoys(db, missionId, inputs).value.buoys
        ensures InsertBuoys(db, missionId, inputs).value.buoys[inputs[i].id]
             == Buoy(missionId, inputs[i].code, inputs[i].required, 0)
      {
        if i > 0 {
          assert rest[i - 1] == inputs[i];
        }
      }
      forall b | b in InsertBuoys(db, missionId, inputs).value.buoys && b !in db.buoys
        ensures exists i :: 0 <= i < |inputs| && inputs[i].id == b
      {
        if i :| 0 <= i < |rest| && rest[i].id == b {
          assert inputs[i + 1].id == b;
        } else {
          assert inputs[0].id == b;
        }
      }
    }
  }

  lemma {:induction false} JobsAre(db: Db, inputs: seq<JobInput>)
    requires PlaceJobs(db, inputs).Ok?
    ensures JobsAdded(db.jobs, PlaceJobs(db, inputs).value.jobs, inputs)
    decreases |inputs|
  {
    if inputs != [] {
      var next, rest := PlaceJob(db, inputs[0]).value, inputs[1..];
      JobsAre(next, rest);
      assert forall i | 0 <= i < |rest| :: rest[i] == inputs[i + 1];
      forall i | 0 <= i < |inputs|
        ensures inputs[i].id !in db.jobs
        ensures inputs[i].id in PlaceJobs(db, inputs).value.jobs
        ensures PlaceJobs(db, inputs).value.jobs[inputs[i].id] == QueuedJob(inputs[i])
      {
        if i > 0 {
          assert rest[i - 1] == inputs[i];
        }
      }
      forall j | j in PlaceJobs(db, inputs).value.jobs && j !in db.jobs
        ensures exists i :: 0 <= i < |inputs| && inputs[i].id == j
      {
        if i :| 0 <= i < |rest| && rest[i].id == j {
          assert inputs[i + 1].id == j;
        } else {
          assert inputs[0].id == j;
        }
      }
    }
  }

  lemma CreateMissionLeaves(db: Db, id: Id, m: MissionInput, now: int, actor: Option<Id>, d: Db)
    requires CreateMission(db, id, m, now, actor) == Ok(d)
    ensures Outcome(db, CreateMissionOp(id, m, now, actor), d)
  {
    hide BuoysAdded;
    CreateMissionFrame(db, id, m, now, actor, d);
    var db1 := InsertMission(db, id, m.creator, Mission(m.code, Draft, m.startsAt, m.endsAt, 1)).value;
    BuoysAre(db1, id, m.buoys);
    InsertBuoysFrame(db1, id, m.buoys, InsertBuoys(db1, id, m.buoys).value);
  }

  lemma CreateJobsLeaves(db: Db, jobs: seq<JobInput>, now: int, actor: Option<Id>, d: Db)
    requires CreateJobsBulk(db, jobs, now, actor) == Ok(d)
    ensures Outcome(db, CreateJobsBulkOp(jobs, now, actor), d)
  {
    hide JobsAdded;
    CreateJobsFrame(db, jobs, now, actor, d);
    JobsAre(db, jobs);
  }

  lemma CreateWindowLeaves(db: Db, id: Id, code: string, capacity: int, jobIds: seq<Id>, now: int, actor: Option<Id>,
                           d: Db)
    requires CreateWindow(db, id, code, capacity, jobIds, now, actor) == Ok(d)
    ensures Outcome(db, CreateWindowOp(id, code, capacity, jobIds, now, actor), d)
  {
    hide Distinct;
    CreateWindowFrame(db, id, code, capacity, jobIds, now, actor, d);
    AttachItemsExact(InsertWindow(db, id, code, capacity).value, id, jobIds, now);
    assert Pairs(id, jobIds) == set j | j in jobIds :: (id, j);
  }

  lemma MissionOpsLeave(db: Db, op: Op, d: Db)
    requires op.AddOperatorOp? || op.AdvanceMissionOp? || op.CreateJobOp?
    requires Apply(db, op) == Ok(d)
    ensures Outcome(db, op, d)
  {
  }

  lemma JobOpsLeave(db: Db, op: Op, d: Db)
    requires op.CompleteJobOp? || op.ArchiveJobOp? || op.ActivateJobOp? || op.AcceptJobOp?
    requires Apply(db, op) == Ok(d)
    ensures Outcome(db, op, d)
  {
  }

  lemma WindowOpsLeave(db: Db, op: Op, d: Db)
    requires op.StartWindowOp? || op.CompleteWindowOp? || op.CancelWindowOp?
    requires Apply(db, op) == Ok(d)
    ensures Outcome(db, op, d)
  {
    hide AllItemsReviewed;
  }

  lemma ReviewLeaves(db: Db, input: ReviewInput, now: int, actor: Option<Id>, d: Db)
    requires ReviewReport(db, input, now, actor) == Ok(d)
    ensures Outcome(db, ReviewReportOp(input, now, actor), d)
  {
    ReviewShape(db, input, now, actor, d);
  }

  lemma IncidentOpsLeave(db: Db, op: Op, d: Db)
    requires op.SubmitReportOp? || op.OpenIncidentOp? || op.StartIncidentOp? || op.CloseIncidentOp?
    requires Apply(db, op) == Ok(d)
    ensures Outcome(db, op, d)
  {
  }

  lemma SweepLeaves(db: Db, now: int, limit: int, picked: seq<Id>, d: Db)
    requires Apply(db, SweepOp(now, limit, picked)) == Ok(d)
    ensures Outcome(db, SweepOp(now, limit, picked), d)
  {
    MarkAllExpiredExact(db, picked);
  }

  /** Over all nineteen transactions: a committed one leaves exactly this. */
  lemma CommitLeaves(db: Db, op: Op, d: Db)
    requires Apply(db, op) == Ok(d)
    ensures Outcome(db, op, d)
  {
    hide Outcome, CreateMission, CreateJob, CreateJobsBulk, HandOver, CreateWindow, SubmitReport, ReviewReport;
    hide SweepPicks, MarkAllExpired, AddOperator, AdvanceMission, CompleteJob, ArchiveJob, StartWindow;
    hide CompleteWindow, CancelWindow, OpenIncident, StartIncident, CloseIncident;
    match op
    case CreateMissionOp(id, m, now, actor) => CreateMissionLeaves(db, id, m, now, actor, d);
    case CreateJobsBulkOp(jobs, now, actor) => CreateJobsLeaves(db, jobs, now, actor, d);
    case CreateWindowOp(id, code, capacity, jobIds, now, actor) =>
      CreateWindowLeaves(db, id, code, capacity, jobIds, now, actor, d);
    case ReviewReportOp(input, now, actor) => ReviewLeaves(db, input, now, actor, d);
    case SweepOp(now, limit, picked) => SweepLeaves(db, now, limit, picked, d);
    case AddOperatorOp(_, _, _) => MissionOpsLeave(db, op, d);
    case AdvanceMissionOp(_, _, _, _) => MissionOpsLeave(db, op, d);
    case CreateJobOp(_, _, _) => MissionOpsLeave(db, op, d);
    case CompleteJobOp(_, _, _, _) => JobOpsLeave(db, op, d);
    case ArchiveJobOp(_, _, _, _) => JobOpsLeave(db, op, d);
    case ActivateJobOp(_, _, _) => JobOpsLeave(db, op, d);
    case AcceptJobOp(_, _, _) => JobOpsLeave(db, op, d);
    case StartWindowOp(_, _, _, _) => WindowOpsLeave(db, op, d);
    case CompleteWindowOp(_, _, _, _) => WindowOpsLeave(db, op, d);
    case CancelWindowOp(_, _, _, _) => WindowOpsLeave(db, op, d);
    case _ => IncidentOpsLeave(db, op, d);
  }
}
