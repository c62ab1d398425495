/** How one transaction may change a single job or mission row. */
module RowSteps {
  import opened Prelude
  import opened Status
  import opened Tables
  import opened Transactions
  import opened Workflow
  import opened Frames

  /** One write to a job row: the version goes up by one, the identity columns
      stay, and nothing ever returns to the queue. */
  ghost predicate JobWrite(before: Job, after: Job) {
    && after.version == before.version + 1
    && after.missionId == before.missionId && after.buoyId == before.buoyId
    && after.code == before.code && after.expiresAt == before.expiresAt
    && !after.status.Queued?
    && (after.status.Completed? ==> before.status.Queued? && after.completedAt.Some?)
    && (!after.status.Completed? ==> after.completedAt == before.completedAt)
  }

  ghost predicate NewJob(db: Db, job: Job) {
    job.version == 1 && job.status.Queued? && job.completedAt.None? && job.buoyId in db.buoys
  }

  ghost predicate JobsStep(db: Db, d: Db) {
    && (forall j | j in db.jobs ::
          j in d.jobs && (d.jobs[j] == db.jobs[j] || JobWrite(db.jobs[j], d.jobs[j])))
    && (forall j | j in d.jobs && j !in db.jobs :: NewJob(db, d.jobs[j]))
  }

  ghost predicate MissionWrite(before: Mission, after: Mission) {
    && after == before.(status := after.status, version := before.version + 1)
    && before.status.CanMoveTo(after.status)
  }

  ghost predicate MissionsStep(db: Db, d: Db) {
    && (forall m | m in db.missions ::
          m in d.missions && (d.missions[m] == db.missions[m] || MissionWrite(db.missions[m], d.missions[m])))
    && (forall m | m in d.missions && m !in db.missions :: d.missions[m].version == 1 && d.missions[m].status.Draft?)
  }

  ghost predicate CompletionTimesKept(db: Db, d: Db) {
    forall j | j in db.jobs && j in d.jobs :: d.jobs[j].completedAt == db.jobs[j].completedAt
  }

  /** A step that completes no job and creates no buoy with installs. */
  ghost predicate PlainStep(db: Db, d: Db) {
    && JobsStep(db, d) && MissionsStep(db, d) && CompletionTimesKept(db, d)
    && (forall b | b in db.buoys :: b in d.buoys && d.buoys[b] == db.buoys[b])
    && (forall b | b in d.buoys && b !in db.buoys :: d.buoys[b].completed == 0 && d.buoys[b].required >= 1)
  }

  /** No job is put into progress. */
  ghost predicate NoNewProgress(db: Db, d: Db) {
    forall j | j in d.jobs && d.jobs[j].status.InProgress? :: j in db.jobs && db.jobs[j].status.InProgress?
  }

  /** Jobs put into progress were accepted and had not expired. */
  ghost predicate ProgressBefore(db: Db, d: Db, dbNow: int) {
    forall j | j in d.jobs && d.jobs[j].status.InProgress? ::
      j in db.jobs && (db.jobs[j].status.InProgress? || (db.jobs[j].status.Accepted? && dbNow <= db.jobs[j].expiresAt))
  }

  lemma CreateMissionSteps(db: Db, id: Id, m: MissionInput, now: int, actor: Option<Id>, d: Db)
    requires CreateMission(db, id, m, now, actor) == Ok(d)
    ensures PlainStep(db, d) && NoNewProgress(db, d)
  {
    var db1 := InsertMission(db, id, m.creator, Mission(m.code, Draft, m.startsAt, m.endsAt, 1)).value;
    InsertBuoysFrame(db1, id, m.buoys, InsertBuoys(db1, id, m.buoys).value);
  }

  lemma AdvanceMissionSteps(db: Db, id: Id, next: MissionStatus, version: int, actor: Option<Id>, d: Db)
    requires AdvanceMission(db, id, next, version, actor) == Ok(d)
    ensures PlainStep(db, d) && NoNewProgress(db, d)
  {
  }

  lemma CreateJobSteps(db: Db, job: JobInput, now: int, actor: Option<Id>, d: Db)
    requires CreateJob(db, job, now, actor) == Ok(d)
    ensures PlainStep(db, d) && NoNewProgress(db, d)
  {
  }

  lemma CreateJobsSteps(db: Db, jobs: seq<JobInput>, now: int, actor: Option<Id>, d: Db)
    requires CreateJobsBulk(db, jobs, now, actor) == Ok(d)
    ensures PlainStep(db, d) && NoNewProgress(db, d)
  {
    PlaceJobsFrame(db, jobs, PlaceJobs(db, jobs).value);
  }

  lemma CreateWindowSteps(db: Db, id: Id, code: string, capacity: int, jobIds: seq<Id>, now: int, actor: Option<Id>,
                          d: Db)
    requires CreateWindow(db, id, code, capacity, jobIds, now, actor) == Ok(d)
    ensures PlainStep(db, d) && ProgressBefore(db, d, now)
  {
    var db1 := InsertWindow(db, id, code, capacity).value;
    AttachItemsExact(db1, id, jobIds, now);
    forall j | j in jobIds ensures db.jobs[j].status.Accepted? && now <= db.jobs[j].expiresAt {
      assert Attachable(db1, id, j, now);
    }
  }

  lemma ReviewSteps(db: Db, input: ReviewInput, now: int, actor: Option<Id>, d: Db)
    requires ReviewReport(db, input, now, actor) == Ok(d)
    ensures PlainStep(db, d) && NoNewProgress(db, d)
  {
    ReviewShape(db, input, now, actor, d);
  }

  lemma SweepSteps(db: Db, now: int, limit: int, picked: seq<Id>)
    requires SweepPicks(db.jobs, now, limit, picked)
    ensures PlainStep(db, MarkAllExpired(db, picked)) && NoNewProgress(db, MarkAllExpired(db, picked))
  {
    MarkAllExpiredExact(db, picked);
  }

  lemma MoveJobSteps(db: Db, id: Id, next: JobStatus, version: int, now: int, d: Db)
    requires !next.Queued? && !next.Completed? && !next.InProgress? && MoveJob(db, id, next, version, now).Ok?
    requires d == MoveJob(db, id, next, version, now).value.(moorings := d.moorings, audits := d.audits)
    ensures PlainStep(db, d) && NoNewProgress(db, d)
  {
  }

  lemma ArchiveSteps(db: Db, id: Id, version: int, now: int, actor: Option<Id>, d: Db)
    requires ArchiveJob(db, id, version, now, actor) == Ok(d)
    ensures PlainStep(db, d) && NoNewProgress(db, d)
  {
    hide PlainStep, NoNewProgress;
    MoveJobSteps(db, id, JobStatus.Archived, version, now, d);
  }

  lemma HandOverSteps(db: Db, h: Handover, next: JobStatus, version: int, actor: Option<Id>, action: Action, d: Db)
    requires HandOver(db, h, next, version, actor, action) == Ok(d) && (next.ActivationPending? || next.Accepted?)
    ensures PlainStep(db, d) && NoNewProgress(db, d)
  {
    hide PlainStep, NoNewProgress;
    MoveJobSteps(db, h.jobId, next, version, h.recordedAt, d);
  }

  /** The transactions that write no job, mission or buoy row. */
  predicate LeavesRows(op: Op) {
    || op.AddOperatorOp? || op.StartWindowOp? || op.CompleteWindowOp? || op.SubmitReportOp?
    || op.OpenIncidentOp? || op.StartIncidentOp? || op.CloseIncidentOp?
  }

  lemma RowsLeft(db: Db, op: Op, d: Db)
    requires LeavesRows(op) && Apply(db, op) == Ok(d)
    ensures d.jobs == db.jobs && d.missions == db.missions && d.buoys == db.buoys
  {
  }

  lemma QuietSteps(db: Db, op: Op, d: Db)
    requires LeavesRows(op) && Apply(db, op) == Ok(d)
    ensures PlainStep(db, d) && NoNewProgress(db, d)
  {
    RowsLeft(db, op, d);
    hide Apply;
  }

  lemma CancelSteps(db: Db, id: Id, version: int, now: int, actor: Option<Id>, d: Db)
    requires CancelWindow(db, id, version, now, actor) == Ok(d)
    ensures PlainStep(db, d) && NoNewProgress(db, d)
  {
  }

  /** Completion is the one step that sets a completion time and claims an install. */
  lemma CompleteJobSteps(db: Db, id: Id, version: int, now: int, actor: Option<Id>, d: Db)
    requires CompleteJob(db, id, version, now, actor) == Ok(d)
    ensures JobsStep(db, d) && d.missions == db.missions
    ensures id in db.jobs && db.jobs[id].status.Queued?
    ensures d.jobs == db.jobs[id := db.jobs[id].(
              status := JobStatus.Completed, version := db.jobs[id].version + 1, completedAt := Some(now))]
    ensures var b := db.jobs[id].buoyId;
            && b in db.buoys && db.buoys[b].completed < db.buoys[b].required
            && d.buoys == db.buoys[b := db.buoys[b].(completed := db.buoys[b].completed + 1)]
  {
  }

  lemma CompletionSteps(db: Db, id: Id, version: int, now: int, actor: Option<Id>, d: Db)
    requires CompleteJob(db, id, version, now, actor) == Ok(d)
    ensures JobsStep(db, d) && MissionsStep(db, d) && NoNewProgress(db, d)
  {
    CompleteJobSteps(db, id, version, now, actor, d);
  }

  lemma PlainIsSteps(db: Db, d: Db)
    requires PlainStep(db, d)
    ensures JobsStep(db, d) && MissionsStep(db, d)
  {
  }

  /** Every transaction writes each job row at most once and each mission row at
      most once, raising its version by exactly one; a mission row only moves along
      an edge of its transition relation. */
  lemma ApplySteps(db: Db, op: Op, d: Db)
    requires Apply(db, op) == Ok(d)
    ensures JobsStep(db, d) && MissionsStep(db, d)
    ensures !op.CompleteJobOp? ==> PlainStep(db, d)
    ensures if op.CreateWindowOp? then ProgressBefore(db, d, op.now) else NoNewProgress(db, d)
  {
    hide JobsStep, MissionsStep, PlainStep, NoNewProgress, ProgressBefore;
    hide CreateMission, AdvanceMission, CreateJob, CreateJobsBulk, CompleteJob, ArchiveJob, HandOver;
    hide CreateWindow, StartWindow, CompleteWindow, CancelWindow, SubmitReport, ReviewReport;
    hide SweepPicks, MarkAllExpired;
    match op {
      case CreateMissionOp(id, m, now, actor) => CreateMissionSteps(db, id, m, now, actor, d);
      case AdvanceMissionOp(id, next, version, actor) => AdvanceMissionSteps(db, id, next, version, actor, d);
      case CreateJobOp(job, now, actor) => CreateJobSteps(db, job, now, actor, d);
      case CreateJobsBulkOp(jobs, now, actor) => CreateJobsSteps(db, jobs, now, actor, d);
      case CreateWindowOp(id, code, capacity, jobIds, now, actor) =>
        CreateWindowSteps(db, id, code, capacity, jobIds, now, actor, d);
      case ReviewReportOp(review, now, actor) => ReviewSteps(db, review, now, actor, d);
      case SweepOp(now, limit, picked) => SweepSteps(db, now, limit, picked);
      case CompleteJobOp(id, version, now, actor) => CompletionSteps(db, id, version, now, actor, d);
      case ArchiveJobOp(id, version, now, actor) => ArchiveSteps(db, id, version, now, actor, d);
      case ActivateJobOp(h, version, actor) =>
        HandOverSteps(db, h, JobStatus.ActivationPending, version, actor, Activation, d);
      case AcceptJobOp(h, version, actor) => HandOverSteps(db, h, JobStatus.Accepted, version, actor, Accept, d);
      case CancelWindowOp(id, version, now, actor) => CancelSteps(db, id, version, now, actor, d);
      case _ => QuietSteps(db, op, d);
    }
    if !op.CompleteJobOp? {
      PlainIsSteps(db, d);
    }
  }
}
