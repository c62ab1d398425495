/** What each SQL statement and each service transaction does to the tables, as
    functions from tables to tables or an error.  An error stands for a rollback. */
module Transactions {
  import opened Prelude
  import opened Status
  import opened Tables

  datatype BuoyInput = BuoyInput(id: Id, code: string, required: int)

  datatype MissionInput = MissionInput(code: string, creator: Id, startsAt: int, endsAt: int, buoys: seq<BuoyInput>)

  datatype JobInput = JobInput(id: Id, missionId: Id, buoyId: Id, code: string, expiresAt: int)

  datatype Handover = Handover(jobId: Id, from: Option<Id>, to: Id, recordedAt: int)

  datatype ReviewInput = ReviewInput(reportId: Id, jobId: Id, accepted: bool,
                                     reportVersion: int, jobVersion: int, incidentId: Id)

  // ---------- Statements ----------

  function WriteAudit(db: Db, actor: Option<Id>, objectType: ObjectType, objectId: Id, action: Action): Result<Db,
                      Error> {
    if actor.Some? && actor.value !in db.operators then Err(Conflict)
    else Ok(db.(audits := db.audits + [AuditEvent(objectType, objectId, action)]))
  }

  function InsertMission(db: Db, id: Id, creator: Id, mission: Mission): Result<Db, Error> {
    if id in db.missions || creator !in db.operators || mission.endsAt <= mission.startsAt
       || exists m | m in db.missions :: db.missions[m].code == mission.code
    then Err(Conflict)
    else Ok(db.(missions := db.missions[id := mission]))
  }

  function InsertBuoy(db: Db, missionId: Id, input: BuoyInput): Result<Db, Error> {
    if input.id in db.buoys || missionId !in db.missions || input.required < 1
       || exists b | b in db.buoys :: db.buoys[b].missionId == missionId && db.buoys[b].code == input.code
    then Err(Conflict)
    else Ok(db.(buoys := db.buoys[input.id := Buoy(missionId, input.code, input.required, 0)]))
  }

  function InsertBuoys(db: Db, missionId: Id, inputs: seq<BuoyInput>): Result<Db, Error>
    decreases |inputs|
  {
    if inputs == [] then Ok(db)
    else
      var next :- InsertBuoy(db, missionId, inputs[0]);
      InsertBuoys(next, missionId, inputs[1..])
  }

  function UpdateMission(db: Db, id: Id, next: MissionStatus, version: int): Result<Db, Error> {
    if id !in db.missions || db.missions[id].version != version then Err(Conflict)
    else Ok(db.(missions := db.missions[id := db.missions[id].(status := next, version := version + 1)]))
  }

  function PlacementError(db: Db, missionId: Id, buoyId: Id): Option<Error> {
    if buoyId in db.buoys && db.buoys[buoyId].missionId == missionId then None else Some(Conflict)
  }

  function InsertJob(db: Db, input: JobInput): Result<Db, Error> {
    if input.id in db.jobs || input.missionId !in db.missions || input.buoyId !in db.buoys
       || exists j | j in db.jobs :: db.jobs[j].code == input.code
    then Err(Conflict)
    else Ok(db.(jobs := db.jobs[input.id :=
      Job(input.missionId, input.buoyId, input.code, JobStatus.Queued, None, None, input.expiresAt, 1)]))
  }

  function PlaceJob(db: Db, input: JobInput): Result<Db, Error> {
    var failed := PlacementError(db, input.missionId, input.buoyId);
    if failed.Some? then Err(failed.value) else InsertJob(db, input)
  }

  function PlaceJobs(db: Db, inputs: seq<JobInput>): Result<Db, Error>
    decreases |inputs|
  {
    if inputs == [] then Ok(db)
    else
      var next :- PlaceJob(db, inputs[0]);
      PlaceJobs(next, inputs[1..])
  }

  /** The statement behind every versioned job move.  Completion also claims one
      of the buoy's remaining installs; no status is checked here. */
  function MoveJob(db: Db, id: Id, next: JobStatus, version: int, now: int): Result<Db, Error> {
    if id !in db.jobs || db.jobs[id].version != version then Err(Conflict)
    else if next.Completed? then
      var job := db.jobs[id];
      if job.buoyId !in db.buoys || db.buoys[job.buoyId].completed >= db.buoys[job.buoyId].required then Err(Conflict)
      else
        var buoy := db.buoys[job.buoyId];
        Ok(db.(jobs := db.jobs[id := job.(status := next, version := version + 1, completedAt := Some(now))],
               buoys := db.buoys[job.buoyId := buoy.(completed := buoy.completed + 1)]))
    else
      var job := db.jobs[id];
      Ok(db.(jobs := db.jobs[id := job.(status := next, version := version + 1,
        acceptedAt := if next.Accepted? then Some(now) else job.acceptedAt)]))
  }

  function InsertMooring(db: Db, h: Handover): Result<Db, Error> {
    if h.jobId !in db.jobs || h.to !in db.operators || (h.from.Some? && h.from.value !in db.operators)
    then Err(Conflict)
    else Ok(db.(moorings := db.moorings + [Mooring(h.jobId, h.from, h.to, h.recordedAt)]))
  }

  function InsertWindow(db: Db, id: Id, code: string, capacity: int): Result<Db, Error> {
    if id in db.windows || capacity < 1 || exists w | w in db.windows :: db.windows[w].code == code then Err(Conflict)
    else Ok(db.(windows := db.windows[id := Window(code, Waiting, capacity, None, None, 1)]))
  }

  function AttachItem(db: Db, windowId: Id, jobId: Id, dbNow: int): Result<Db, Error> {
    if (windowId, jobId) in db.items || windowId !in db.windows || jobId !in db.jobs then Err(Conflict)
    else if !db.jobs[jobId].status.Accepted? || db.jobs[jobId].expiresAt < dbNow then Err(InvalidTransition)
    else
      var job := db.jobs[jobId];
      Ok(db.(items := db.items + {(windowId, jobId)},
             jobs := db.jobs[jobId := job.(status := JobStatus.InProgress, version := job.version + 1)]))
  }

  function AttachItems(db: Db, windowId: Id, jobIds: seq<Id>, dbNow: int): Result<Db, Error>
    decreases |jobIds|
  {
    if jobIds == [] then Ok(db)
    else
      var next :- AttachItem(db, windowId, jobIds[0], dbNow);
      AttachItems(next, windowId, jobIds[1..], dbNow)
  }

  function StartWindowRow(db: Db, id: Id, version: int, dbNow: int): Result<Db, Error> {
    if id !in db.windows || db.windows[id].version != version || !db.windows[id].status.Waiting? then Err(Conflict)
    else Ok(db.(windows := db.windows[id :=
      db.windows[id].(status := Running, startedAt := Some(dbNow), version := version + 1)]))
  }

  /** Every item of the window has a report and none of its reports is pending. */
  predicate AllItemsReviewed(items: set<(Id, Id)>, reports: map<Id, Report>, id: Id) {
    forall p | p in items && p.0 == id ::
      && (exists r :: r in reports && ReportFor(reports, r, id, p.1))
      && (forall r :: r in reports && ReportFor(reports, r, id, p.1) ==> !reports[r].status.Pending?)
  }

  function CompleteWindowRow(db: Db, id: Id, version: int, dbNow: int): Result<Db, Error> {
    if id !in db.windows || db.windows[id].version != version || !db.windows[id].status.Running?
       || !AllItemsReviewed(db.items, db.reports, id)
    then Err(Conflict)
    else Ok(db.(windows := db.windows[id :=
      db.windows[id].(status := Done, completedAt := Some(dbNow), version := version + 1)]))
  }

  /** Item jobs still in progress go back to accepted. */
  function RestoreJobs(jobs: map<Id, Job>, items: set<(Id, Id)>, id: Id): map<Id, Job> {
    map j | j in jobs ::
      if (id, j) in items && jobs[j].status.InProgress?
      then jobs[j].(status := JobStatus.Accepted, version := jobs[j].version + 1)
      else jobs[j]
  }

  function CancelWindowRow(db: Db, id: Id, version: int, dbNow: int): Result<Db, Error> {
    if id !in db.windows || db.windows[id].version != version || !db.windows[id].status.Open()
       || exists r | r in db.reports :: db.reports[r].windowId == id
    then Err(Conflict)
    else Ok(db.(windows := db.windows[id :=
                  db.windows[id].(status := WindowStatus.Cancelled, completedAt := Some(dbNow),
                                     version := version + 1)],
                jobs := RestoreJobs(db.jobs, db.items, id)))
  }

  function ReportTargetError(db: Db, jobId: Id, windowId: Id): Option<Error> {
    if (windowId, jobId) !in db.items || jobId !in db.jobs || windowId !in db.windows then Some(Conflict)
    else if !db.jobs[jobId].status.InProgress? || !db.windows[windowId].status.Running? then Some(InvalidTransition)
    else None
  }

  function InsertReport(db: Db, id: Id, jobId: Id, windowId: Id, recorder: Id): Result<Db, Error> {
    if id in db.reports || jobId !in db.jobs || windowId !in db.windows || recorder !in db.operators
       || exists r | r in db.reports :: ReportFor(db.reports, r, windowId, jobId)
    then Err(Conflict)
    else Ok(db.(reports := db.reports[id := Report(jobId, windowId, ReportStatus.Pending, None, 1)]))
  }

  function ReviewReportRow(db: Db, id: Id, accepted: bool, version: int, now: int): Result<Db, Error> {
    if id !in db.reports || !db.reports[id].status.Pending? || db.reports[id].version != version then Err(Conflict)
    else Ok(db.(reports := db.reports[id :=
      db.reports[id].(status := if accepted then Confirmed else Refused, reviewedAt := Some(now),
                            version := version + 1)]))
  }

  function InsertIncident(db: Db, id: Id, jobId: Id, kind: IncidentKind, dueAt: int): Result<Db, Error> {
    if id in db.incidents || jobId !in db.jobs
       || exists i | i in db.incidents ::
            db.incidents[i].jobId == jobId && db.incidents[i].kind == kind && db.incidents[i].status.Opened?
    then Err(Conflict)
    else Ok(db.(incidents := db.incidents[id := Incident(jobId, kind, Opened, dueAt)]))
  }

  /** Moves an incident on; a second row with the new status for the same job and
      kind breaks a uniqueness constraint. */
  function MoveIncident(db: Db, id: Id, next: IncidentStatus): Result<Db, Error> {
    if id !in db.incidents || !(db.incidents[id].status.Opened? || (next.Settled? && db.incidents[id].status.Handling?))
    then Err(Conflict)
    else if exists i | i in db.incidents :: i != id && db.incidents[i].jobId == db.incidents[id].jobId
              && db.incidents[i].kind == db.incidents[id].kind && db.incidents[i].status == next
    then Err(Unavailable)
    else Ok(db.(incidents := db.incidents[id := db.incidents[id].(status := next)]))
  }

  /** One iteration of the sweep: reject a live job and log it. */
  function MarkExpired(db: Db, id: Id): Db {
    if id !in db.jobs || !db.jobs[id].status.Live() then db
    else db.(jobs := db.jobs[id := db.jobs[id].(status := JobStatus.Rejected, version := db.jobs[id].version + 1)],
             audits := db.audits + [AuditEvent(SweptJob, id, Expire)])
  }

  function MarkAllExpired(db: Db, ids: seq<Id>): Db
    decreases |ids|
  {
    if ids == [] then db else MarkAllExpired(MarkExpired(db, ids[0]), ids[1..])
  }

  // ---------- Service transactions ----------

  /** Capitals and digits, and from the second character on also underscores and hyphens. */
  predicate CodeChar(c: char, at: nat) {
    'A' <= c <= 'Z' || '0' <= c <= '9' || (at > 0 && (c == '_' || c == '-'))
  }

  /** A code is checked as trimmed, and stored as given. */
  predicate ValidCode(s: string) {
    var code := TrimSpace(s);
    3 <= |code| <= 32 && forall i | 0 <= i < |code| :: CodeChar(code[i], i)
  }

  /** Registration of an operator. */
  function AddOperator(db: Db, id: Id, mayRecord: bool, actor: Option<Id>): Result<Db, Error> {
    if id in db.operators then Err(Conflict)
    else WriteAudit(db.(operators := db.operators[id := mayRecord]), actor, OperatorObject, id, Create)
  }

  predicate BuoyInputsValid(inputs: seq<BuoyInput>) {
    && inputs != []
    && (forall i | 0 <= i < |inputs| :: inputs[i].required >= 1 && ValidCode(inputs[i].code))
    && (forall i, k | 0 <= i < k < |inputs| :: inputs[i].code != inputs[k].code)
  }

  function CreateMission(db: Db, id: Id, input: MissionInput, now: int, actor: Option<Id>): Result<Db, Error> {
    if !ValidCode(input.code) || !BuoyInputsValid(input.buoys) || input.endsAt <= input.startsAt then Err(Conflict)
    else if now > input.endsAt then Err(Expired)
    else
      var db1 :- InsertMission(db, id, input.creator, Mission(input.code, Draft, input.startsAt, input.endsAt, 1));
      var db2 :- InsertBuoys(db1, id, input.buoys);
      WriteAudit(db2, actor, MissionObject, id, Create)
  }

  function MissionAction(next: MissionStatus): Action {
    match next case Scheduled => Schedule case Active => Activate case _ => Close
  }

  function AdvanceMission(db: Db, id: Id, next: MissionStatus, version: int, actor: Option<Id>): Result<Db, Error> {
    if id !in db.missions then Err(NotFound)
    else if !db.missions[id].status.CanMoveTo(next) then Err(InvalidTransition)
    else
      var db1 :- UpdateMission(db, id, next, version);
      WriteAudit(db1, actor, MissionObject, id, MissionAction(next))
  }

  function CreateJob(db: Db, input: JobInput, now: int, actor: Option<Id>): Result<Db, Error> {
    if Blank(input.code) then Err(Conflict)
    else if input.expiresAt < now then Err(Expired)
    else if !ValidCode(input.code) then Err(Conflict)
    else
      var db1 :- PlaceJob(db, input);
      WriteAudit(db1, actor, JobObject, input.id, Create)
  }

  /** The first problem a bulk request has before its transaction starts; a bulk code need only not be blank. */
  function BulkError(inputs: seq<JobInput>, now: int, seen: set<string>): Option<Error> {
    if inputs == [] then None
    else if Blank(inputs[0].code) then Some(Conflict)
    else if inputs[0].expiresAt < now then Some(Expired)
    else if inputs[0].code in seen then Some(Conflict)
    else BulkError(inputs[1..], now, seen + {inputs[0].code})
  }

  function CreateJobsBulk(db: Db, inputs: seq<JobInput>, now: int, actor: Option<Id>): Result<Db, Error> {
    if inputs == [] then Err(Conflict)
    else
      var failed := BulkError(inputs, now, {});
      if failed.Some? then Err(failed.value)
      else
        var db1 :- PlaceJobs(db, inputs);
        WriteAudit(db1, actor, BulkObject, inputs[0].missionId, CreateBulk)
  }

  /** The check `RecoveryJob.Move` makes on the row that was read. */
  function MoveError(job: Job, next: JobStatus, now: int): Option<Error> {
    if !job.status.CanMoveTo(next) then Some(InvalidTransition)
    else if now > job.expiresAt && !next.Archived? then Some(Expired)
    else None
  }

  function CompleteJob(db: Db, id: Id, version: int, now: int, actor: Option<Id>): Result<Db, Error> {
    if id !in db.jobs || db.jobs[id].missionId !in db.missions then Err(NotFound)
    else if !db.missions[db.jobs[id].missionId].CanExecuteAt(now) then Err(InvalidTransition)
    else
      var failed := MoveError(db.jobs[id], JobStatus.Completed, now);
      if failed.Some? then Err(failed.value)
      else
        var db1 :- MoveJob(db, id, JobStatus.Completed, version, now);
        WriteAudit(db1, actor, JobObject, id, Complete)
  }

  function ArchiveJob(db: Db, id: Id, version: int, now: int, actor: Option<Id>): Result<Db, Error> {
    if id !in db.jobs then Err(NotFound)
    else
      var failed := MoveError(db.jobs[id], JobStatus.Archived, now);
      if failed.Some? then Err(failed.value)
      else
        var db1 :- MoveJob(db, id, JobStatus.Archived, version, now);
        WriteAudit(db1, actor, JobObject, id, Archive)
  }

  function HandOver(db: Db, h: Handover, next: JobStatus, version: int, actor: Option<Id>, action: Action): Result<Db,
                    Error> {
    var db1 :- MoveJob(db, h.jobId, next, version, h.recordedAt);
    var db2 :- InsertMooring(db1, h);
    WriteAudit(db2, actor, JobObject, h.jobId, action)
  }

  function ActivateJob(db: Db, h: Handover, version: int, actor: Option<Id>): Result<Db, Error> {
    HandOver(db, h, JobStatus.ActivationPending, version, actor, Activation)
  }

  function AcceptJob(db: Db, h: Handover, version: int, actor: Option<Id>): Result<Db, Error> {
    HandOver(db, h, JobStatus.Accepted, version, actor, Accept)
  }

  predicate Distinct(ids: seq<Id>) {
    forall i, k | 0 <= i < k < |ids| :: ids[i] != ids[k]
  }

  function CreateWindow(db: Db, id: Id, code: string, capacity: int, jobIds: seq<Id>, dbNow: int,
                        actor: Option<Id>): Result<Db, Error> {
    if jobIds == [] || |jobIds| > capacity then Err(CapacityExceeded)
    else if !ValidCode(code) || !Distinct(jobIds) then Err(Conflict)
    else
      var db1 :- InsertWindow(db, id, code, capacity);
      var db2 :- AttachItems(db1, id, jobIds, dbNow);
      WriteAudit(db2, actor, WindowObject, id, Create)
  }

  function StartWindow(db: Db, id: Id, version: int, dbNow: int, actor: Option<Id>): Result<Db, Error> {
    var db1 :- StartWindowRow(db, id, version, dbNow);
    WriteAudit(db1, actor, WindowObject, id, Start)
  }

  function CompleteWindow(db: Db, id: Id, version: int, dbNow: int, actor: Option<Id>): Result<Db, Error> {
    var db1 :- CompleteWindowRow(db, id, version, dbNow);
    WriteAudit(db1, actor, WindowObject, id, Complete)
  }

  function CancelWindow(db: Db, id: Id, version: int, dbNow: int, actor: Option<Id>): Result<Db, Error> {
    var db1 :- CancelWindowRow(db, id, version, dbNow);
    WriteAudit(db1, actor, WindowObject, id, Cancel)
  }

  function SubmitReport(db: Db, id: Id, jobId: Id, windowId: Id, recorder: Id, actor: Option<Id>): Result<Db, Error> {
    var failed := ReportTargetError(db, jobId, windowId);
    if failed.Some? then Err(failed.value)
    else if recorder !in db.operators then Err(NotFound)
    else if !db.operators[recorder] then Err(Conflict)
    else
      var db1 :- InsertReport(db, id, jobId, windowId, recorder);
      WriteAudit(db1, actor, ReportObject, id, Record)
  }

  /** Times are counted in nanoseconds. */
  const HOUR: int := 3_600_000_000_000

  function EscalateRefusal(db: Db, input: ReviewInput, now: int, actor: Option<Id>): Result<Db, Error> {
    var db1 :- InsertIncident(db, input.incidentId, input.jobId, Reassess, now + 72 * HOUR);
    WriteAudit(db1, actor, IncidentObject, input.incidentId, Open)
  }

  function ReviewReport(db: Db, input: ReviewInput, now: int, actor: Option<Id>): Result<Db, Error> {
    if input.reportId !in db.reports then Err(NotFound)
    else if db.reports[input.reportId].jobId != input.jobId then Err(Conflict)
    else
      var db1 :- ReviewReportRow(db, input.reportId, input.accepted, input.reportVersion, now);
      var db2 :- MoveJob(db1, input.jobId, if input.accepted then JobStatus.Verified else JobStatus.Rejected,
                              input.jobVersion, now);
      var db3 :- if input.accepted then Ok(db2) else EscalateRefusal(db2, input, now, actor);
      WriteAudit(db3, actor, ReportObject, input.reportId, Review)
  }

  /** A request without a due time is given three days. */
  function DueTime(dueAt: Option<int>, now: int): int {
    if dueAt.None? then now + 72 * HOUR else dueAt.value
  }

  function OpenIncident(db: Db, id: Id, jobId: Id, kind: IncidentKind, dueAt: Option<int>, now: int,
                        actor: Option<Id>): Result<Db, Error> {
    if DueTime(dueAt, now) < now - 24 * HOUR then Err(Conflict)
    else
      var db1 :- InsertIncident(db, id, jobId, kind, DueTime(dueAt, now));
      WriteAudit(db1, actor, IncidentObject, id, Open)
  }

  function StartIncident(db: Db, id: Id, actor: Option<Id>): Result<Db, Error> {
    var db1 :- MoveIncident(db, id, Handling);
    WriteAudit(db1, actor, IncidentObject, id, Start)
  }

  function CloseIncident(db: Db, id: Id, actor: Option<Id>): Result<Db, Error> {
    var db1 :- MoveIncident(db, id, Settled);
    WriteAudit(db1, actor, IncidentObject, id, Close)
  }

  // ---------- The expiry sweep ----------

  predicate Overdue(jobs: map<Id, Job>, j: Id, now: int) {
    j in jobs && jobs[j].status.Live() && jobs[j].expiresAt < now
  }

  function OverdueJobs(jobs: map<Id, Job>, now: int): set<Id> {
    set j | j in jobs && Overdue(jobs, j, now)
  }

  function SweepLimit(limit: int): nat {
    if limit < 1 || limit > 500 then 100 else limit
  }

  /** `picked` is a possible answer to the sweep's ordered, limited query: equal
      expiry times may come in any order. */
  predicate SweepPicks(jobs: map<Id, Job>, now: int, limit: int, picked: seq<Id>) {
    && Distinct(picked)
    && |picked| == Min(SweepLimit(limit), |OverdueJobs(jobs, now)|)
    && (forall i | 0 <= i < |picked| :: Overdue(jobs, picked[i], now))
    && (forall i, k | 0 <= i < k < |picked| :: jobs[picked[i]].expiresAt <= jobs[picked[k]].expiresAt)
    && (forall i, j | 0 <= i < |picked| && j in jobs && Overdue(jobs, j, now) && j !in picked ::
          jobs[picked[i]].expiresAt <= jobs[j].expiresAt)
  }

  // ---------- Runs ----------

  datatype Op =
    | AddOperatorOp(id: Id, mayRecord: bool, actor: Option<Id>)
    | CreateMissionOp(id: Id, mission: MissionInput, now: int, actor: Option<Id>)
    | AdvanceMissionOp(id: Id, nextMission: MissionStatus, version: int, actor: Option<Id>)
    | CreateJobOp(job: JobInput, now: int, actor: Option<Id>)
    | CreateJobsBulkOp(jobs: seq<JobInput>, now: int, actor: Option<Id>)
    | CompleteJobOp(id: Id, version: int, now: int, actor: Option<Id>)
    | ArchiveJobOp(id: Id, version: int, now: int, actor: Option<Id>)
    | ActivateJobOp(handover: Handover, version: int, actor: Option<Id>)
    | AcceptJobOp(handover: Handover, version: int, actor: Option<Id>)
    | CreateWindowOp(id: Id, code: string, capacity: int, jobIds: seq<Id>, now: int, actor: Option<Id>)
    | StartWindowOp(id: Id, version: int, now: int, actor: Option<Id>)
    | CompleteWindowOp(id: Id, version: int, now: int, actor: Option<Id>)
    | CancelWindowOp(id: Id, version: int, now: int, actor: Option<Id>)
    | SubmitReportOp(id: Id, jobId: Id, windowId: Id, recorder: Id, actor: Option<Id>)
    | ReviewReportOp(review: ReviewInput, now: int, actor: Option<Id>)
    | OpenIncidentOp(id: Id, jobId: Id, kind: IncidentKind, dueAt: Option<int>, now: int, actor: Option<Id>)
    | StartIncidentOp(id: Id, actor: Option<Id>)
    | CloseIncidentOp(id: Id, actor: Option<Id>)
    | SweepOp(now: int, limit: int, picked: seq<Id>)

  function Apply(db: Db, op: Op): Result<Db, Error> {
    match op
    case AddOperatorOp(id, mayRecord, actor) => AddOperator(db, id, mayRecord, actor)
    case CreateMissionOp(id, mission, now, actor) => CreateMission(db, id, mission, now, actor)
    case AdvanceMissionOp(id, next, version, actor) => AdvanceMission(db, id, next, version, actor)
    case CreateJobOp(job, now, actor) => CreateJob(db, job, now, actor)
    case CreateJobsBulkOp(jobs, now, actor) => CreateJobsBulk(db, jobs, now, actor)
    case CompleteJobOp(id, version, now, actor) => CompleteJob(db, id, version, now, actor)
    case ArchiveJobOp(id, version, now, actor) => ArchiveJob(db, id, version, now, actor)
    case ActivateJobOp(h, version, actor) => ActivateJob(db, h, version, actor)
    case AcceptJobOp(h, version, actor) => AcceptJob(db, h, version, actor)
    case CreateWindowOp(id, code, capacity, jobIds, now, actor) =>
      CreateWindow(db, id, code, capacity, jobIds, now, actor)
    case StartWindowOp(id, version, now, actor) => StartWindow(db, id, version, now, actor)
    case CompleteWindowOp(id, version, now, actor) => CompleteWindow(db, id, version, now, actor)
    case CancelWindowOp(id, version, now, actor) => CancelWindow(db, id, version, now, actor)
    case SubmitReportOp(id, jobId, windowId, recorder, actor) => SubmitReport(db, id, jobId, windowId, recorder, actor)
    case ReviewReportOp(review, now, actor) => ReviewReport(db, review, now, actor)
    case OpenIncidentOp(id, jobId, kind, dueAt, now, actor) => OpenIncident(db, id, jobId, kind, dueAt, now, actor)
    case StartIncidentOp(id, actor) => StartIncident(db, id, actor)
    case CloseIncidentOp(id, actor) => CloseIncident(db, id, actor)
    case SweepOp(now, limit, picked) =>
      if SweepPicks(db.jobs, now, limit, picked) then Ok(MarkAllExpired(db, picked)) else Err(Unavailable)
  }

  /** A failed transaction leaves the tables as they were. */
  function Next(db: Db, op: Op): Db {
    var r := Apply(db, op);
    if r.Ok? then r.value else db
  }

  function Run(db: Db, ops: seq<Op>): Db {
    if ops == [] then db else Next(Run(db, ops[..|ops| - 1]), ops[|ops| - 1])
  }
}
