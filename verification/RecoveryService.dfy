/** The services and statements as they run: tables changed in place, statement by
    statement, inside a transaction that rolls back on the first error.  Every
    method is proved against its function in `Transactions`. */
module RecoveryService {
  import opened Prelude
  import opened Status
  import opened Tables
  import opened Transactions
  import opened Frames
  import opened Sweep

  /** A statement: it did what `r` says, or failed and changed nothing. */
  ghost predicate Did(before: Db, after: Db, e: Option<Error>, r: Result<Db, Error>) {
    if r.Ok? then e.None? && after == r.value else e == Some(r.error) && after == before
  }

  /** A transaction: all of `r` was committed, or nothing happened. */
  ghost predicate Transacted(before: Db, after: Db, e: Option<Error>, commits: bool, r: Result<Db, Error>) {
    if r.Err? then e == Some(r.error) && after == before
    else if !commits then e == Some(Unavailable) && after == before
    else e.None? && after == r.value
  }

  datatype SweepResult = SweepResult(scanned: nat, marked: nat, failed: nat)

  datatype BulkItem = BulkItem(index: nat, code: string, id: Id)

  class Store {
    var operators: map<Id, bool>
    var missions: map<Id, Mission>
    var buoys: map<Id, Buoy>
    var jobs: map<Id, Job>
    var windows: map<Id, Window>
    var items: set<(Id, Id)>
    var reports: map<Id, Report>
    var incidents: map<Id, Incident>
    var moorings: seq<Mooring>
    var audits: seq<AuditEvent>

    function Tables(): Db
      reads this
    {
      Db(operators, missions, buoys, jobs, windows, items, reports, incidents, moorings, audits)
    }

    constructor ()
      ensures Tables() == EMPTY_DB
    {
      operators, missions, buoys, jobs, windows := map[], map[], map[], map[], map[];
      items, reports, incidents, moorings, audits := {}, map[], map[], [], [];
    }

    // ---------- Transaction brackets ----------

    method Restore(saved: Db)
      modifies this
      ensures Tables() == saved
    {
      operators, missions, buoys := saved.operators, saved.missions, saved.buoys;
      jobs, windows, items, reports := saved.jobs, saved.windows, saved.items, saved.reports;
      incidents, moorings, audits := saved.incidents, saved.moorings, saved.audits;
    }

    /** Commits, or rolls back to `saved`; `commits` is whether the commit itself goes through. */
    method Finish(saved: Db, failure: Option<Error>, commits: bool) returns (e: Option<Error>)
      modifies this
      ensures if failure.Some? then e == failure && Tables() == saved
              else if !commits then e == Some(Unavailable) && Tables() == saved
              else e.None? && Tables() == old(Tables())
    {
      if failure.Some? {
        Restore(saved);
        return failure;
      }
      if !commits {
        Restore(saved);
        return Some(Unavailable);
      }
      return None;
    }

    // ---------- Statements ----------

    method WriteAudit(actor: Option<Id>, objectType: ObjectType, objectId: Id, action: Action)
      returns (e: Option<Error>)
      modifies this`audits
      ensures Did(old(Tables()), Tables(), e,
                  Transactions.WriteAudit(old(Tables()), actor, objectType, objectId, action))
    {
      if actor.Some? && actor.value !in operators {
        return Some(Conflict);
      }
      audits := audits + [AuditEvent(objectType, objectId, action)];
      return None;
    }

    method InsertMission(id: Id, creator: Id, mission: Mission) returns (e: Option<Error>)
      modifies this`missions
      ensures Did(old(Tables()), Tables(), e, Transactions.InsertMission(old(Tables()), id, creator, mission))
    {
      if id in missions || creator !in operators || mission.endsAt <= mission.startsAt
         || exists m | m in missions :: missions[m].code == mission.code {
        return Some(Conflict);
      }
      missions := missions[id := mission];
      return None;
    }

    method InsertBuoy(missionId: Id, input: BuoyInput) returns (e: Option<Error>)
      modifies this`buoys
      ensures Did(old(Tables()), Tables(), e, Transactions.InsertBuoy(old(Tables()), missionId, input))
    {
      if input.id in buoys || missionId !in missions || input.required < 1
         || exists b | b in buoys :: buoys[b].missionId == missionId && buoys[b].code == input.code {
        return Some(Conflict);
      }
      buoys := buoys[input.id := Buoy(missionId, input.code, input.required, 0)];
      return None;
    }

    method UpdateMission(id: Id, next: MissionStatus, version: int) returns (e: Option<Error>)
      modifies this`missions
      ensures Did(old(Tables()), Tables(), e, Transactions.UpdateMission(old(Tables()), id, next, version))
    {
      if id !in missions || missions[id].version != version {
        return Some(Conflict);
      }
      missions := missions[id := missions[id].(status := next, version := missions[id].version + 1)];
      return None;
    }

    method InsertJob(input: JobInput) returns (e: Option<Error>)
      modifies this`jobs
      ensures Did(old(Tables()), Tables(), e, Transactions.InsertJob(old(Tables()), input))
    {
      if input.id in jobs || input.missionId !in missions || input.buoyId !in buoys
         || exists j | j in jobs :: jobs[j].code == input.code {
        return Some(Conflict);
      }
      jobs := jobs[input.id :=
        Job(input.missionId, input.buoyId, input.code, JobStatus.Queued, None, None, input.expiresAt, 1)];
      return None;
    }

    method PlaceJob(input: JobInput) returns (e: Option<Error>)
      modifies this`jobs
      ensures Did(old(Tables()), Tables(), e, Transactions.PlaceJob(old(Tables()), input))
    {
      e := PlacementError(Tables(), input.missionId, input.buoyId);
      if e.None? {
        e := InsertJob(input);
      }
    }

    method MoveJob(id: Id, next: JobStatus, version: int, now: int) returns (e: Option<Error>)
      modifies this`jobs, this`buoys
      ensures Did(old(Tables()), Tables(), e, Transactions.MoveJob(old(Tables()), id, next, version, now))
    {
      if id !in jobs || jobs[id].version != version {
        return Some(Conflict);
      }
      var job := jobs[id];
      if next.Completed? {
        if job.buoyId !in buoys || buoys[job.buoyId].completed >= buoys[job.buoyId].required {
          return Some(Conflict);
        }
        jobs := jobs[id := job.(status := next, version := job.version + 1, completedAt := Some(now))];
        buoys := buoys[job.buoyId := buoys[job.buoyId].(completed := buoys[job.buoyId].completed + 1)];
        return None;
      }
      if next.Accepted? {
        job := job.(acceptedAt := Some(now));
      }
      jobs := jobs[id := job.(status := next, version := job.version + 1)];
      return None;
    }

    method RecordMooring(h: Handover) returns (e: Option<Error>)
      modifies this`moorings
      ensures Did(old(Tables()), Tables(), e, InsertMooring(old(Tables()), h))
    {
      if h.jobId !in jobs || h.to !in operators || (h.from.Some? && h.from.value !in operators) {
        return Some(Conflict);
      }
      moorings := moorings + [Mooring(h.jobId, h.from, h.to, h.recordedAt)];
      return None;
    }

    method InsertWindow(id: Id, code: string, capacity: int) returns (e: Option<Error>)
      modifies this`windows
      ensures Did(old(Tables()), Tables(), e, Transactions.InsertWindow(old(Tables()), id, code, capacity))
    {
      if id in windows || capacity < 1 || exists w | w in windows :: windows[w].code == code {
        return Some(Conflict);
      }
      windows := windows[id := Window(code, Waiting, capacity, None, None, 1)];
      return None;
    }

    /** The attach loop stops at the first job that cannot be attached, leaving the
        earlier ones attached for the enclosing transaction to roll back. */
    method AttachRecoveryJobs(windowId: Id, jobIds: seq<Id>, dbNow: int) returns (e: Option<Error>)
      modifies this`items, this`jobs
      ensures var r := AttachItems(old(Tables()), windowId, jobIds, dbNow);
              if r.Ok? then e.None? && Tables() == r.value else e == Some(r.error)
    {
      for i := 0 to |jobIds|
        invariant AttachItems(Tables(), windowId, jobIds[i..], dbNow)
                  == AttachItems(old(Tables()), windowId, jobIds, dbNow)
      {
        var j := jobIds[i];
        assert jobIds[i..][0] == j && jobIds[i..][1..] == jobIds[i + 1..];
        if (windowId, j) in items || windowId !in windows || j !in jobs {
          return Some(Conflict);
        }
        if !jobs[j].status.Accepted? || jobs[j].expiresAt < dbNow {
          return Some(InvalidTransition);
        }
        items := items + {(windowId, j)};
        jobs := jobs[j := jobs[j].(status := JobStatus.InProgress, version := jobs[j].version + 1)];
      }
      return None;
    }

    /** Start, complete and cancel share one statement method, as in the repository. */
    method ChangeWindow(id: Id, next: WindowStatus, version: int, dbNow: int) returns (e: Option<Error>)
      modifies this`windows, this`jobs
      ensures Did(old(Tables()), Tables(), e,
                  match next
                  case Running => StartWindowRow(old(Tables()), id, version, dbNow)
                  case Done => CompleteWindowRow(old(Tables()), id, version, dbNow)
                  case Cancelled => CancelWindowRow(old(Tables()), id, version, dbNow)
                  case Waiting => Err(InvalidTransition))
    {
      if next.Cancelled? {
        if id !in windows || windows[id].version != version || !windows[id].status.Open()
           || exists r | r in reports :: reports[r].windowId == id {
          return Some(Conflict);
        }
        windows := windows[id :=
          windows[id].(status := WindowStatus.Cancelled, completedAt := Some(dbNow),
                      version := windows[id].version + 1)];
        jobs := RestoreJobs(jobs, items, id);
        return None;
      }
      if next.Waiting? {
        return Some(InvalidTransition);
      }
      var from := if next.Running? then Waiting else Running;
      if id !in windows || windows[id].version != version || windows[id].status != from
         || (next.Done? && !AllItemsReviewed(items, reports, id)) {
        return Some(Conflict);
      }
      var row := windows[id];
      windows := windows[id := row.(status := next, version := row.version + 1,
        startedAt := if next.Running? then Some(dbNow) else row.startedAt,
        completedAt := if next.Done? then Some(dbNow) else row.completedAt)];
      return None;
    }

    method InsertReport(id: Id, jobId: Id, windowId: Id, recorder: Id) returns (e: Option<Error>)
      modifies this`reports
      ensures Did(old(Tables()), Tables(), e, Transactions.InsertReport(old(Tables()), id, jobId, windowId, recorder))
    {
      if id in reports || jobId !in jobs || windowId !in windows || recorder !in operators
         || exists r | r in reports :: ReportFor(reports, r, windowId, jobId) {
        return Some(Conflict);
      }
      reports := reports[id := Report(jobId, windowId, ReportStatus.Pending, None, 1)];
      return None;
    }

    method ReviewRow(id: Id, accepted: bool, version: int, now: int) returns (e: Option<Error>)
      modifies this`reports
      ensures Did(old(Tables()), Tables(), e, ReviewReportRow(old(Tables()), id, accepted, version, now))
    {
      if id !in reports || !reports[id].status.Pending? || reports[id].version != version {
        return Some(Conflict);
      }
      reports := reports[id := reports[id].(status := if accepted then Confirmed else Refused,
                                            reviewedAt := Some(now), version := reports[id].version + 1)];
      return None;
    }

    method InsertIncident(id: Id, jobId: Id, kind: IncidentKind, dueAt: int) returns (e: Option<Error>)
      modifies this`incidents
      ensures Did(old(Tables()), Tables(), e, Transactions.InsertIncident(old(Tables()), id, jobId, kind, dueAt))
    {
      if id in incidents || jobId !in jobs
         || exists i | i in incidents ::
              incidents[i].jobId == jobId && incidents[i].kind == kind && incidents[i].status.Opened? {
        return Some(Conflict);
      }
      incidents := incidents[id := Incident(jobId, kind, Opened, dueAt)];
      return None;
    }

    method MoveIncident(id: Id, next: IncidentStatus) returns (e: Option<Error>)
      modifies this`incidents
      ensures Did(old(Tables()), Tables(), e, Transactions.MoveIncident(old(Tables()), id, next))
    {
      if id !in incidents || !(incidents[id].status.Opened? || (next.Settled? && incidents[id].status.Handling?)) {
        return Some(Conflict);
      }
      var row := incidents[id];
      if exists i | i in incidents ::
           i != id && incidents[i].jobId == row.jobId && incidents[i].kind == row.kind && incidents[i].status == next {
        return Some(Unavailable);
      }
      incidents := incidents[id := row.(status := next)];
      return None;
    }

    // ---------- Services ----------

    method RegisterOperator(id: Id, mayRecord: bool, actor: Option<Id>, commits: bool) returns (e: Option<Error>)
      modifies this
      ensures Transacted(old(Tables()), Tables(), e, commits, AddOperator(old(Tables()), id, mayRecord, actor))
    {
      var saved := Tables();
      if id in operators {
        e := Some(Conflict);
      } else {
        operators := operators[id := mayRecord];
        e := WriteAudit(actor, OperatorObject, id, Create);
      }
      e := Finish(saved, e, commits);
    }

    method CheckBuoyInputs(inputs: seq<BuoyInput>) returns (ok: bool)
      ensures ok <==> BuoyInputsValid(inputs)
    {
      if inputs == [] {
        return false;
      }
      var seen: set<string> := {};
      for i := 0 to |inputs|
        invariant seen == set k | 0 <= k < i :: inputs[k].code
        invariant forall k | 0 <= k < i :: inputs[k].required >= 1 && ValidCode(inputs[k].code)
        invariant forall k, l | 0 <= k < l < i :: inputs[k].code != inputs[l].code
      {
        if inputs[i].required < 1 || !ValidCode(inputs[i].code) || inputs[i].code in seen {
          return false;
        }
        seen := seen + {inputs[i].code};
      }
      return true;
    }

    method CreateSurveyMission(id: Id, input: MissionInput, now: int, actor: Option<Id>, commits: bool)
      returns (e: Option<Error>, buoyIds: seq<Id>)
      modifies this
      ensures Transacted(old(Tables()), Tables(), e, commits, CreateMission(old(Tables()), id, input, now, actor))
      ensures e.None? ==> |buoyIds| == |input.buoys| && forall i | 0 <= i < |buoyIds| :: buoyIds[i] == input.buoys[i].id
    {
      buoyIds := [];
      var valid := CheckBuoyInputs(input.buoys);
      if !ValidCode(input.code) || !valid || input.endsAt <= input.startsAt {
        return Some(Conflict), [];
      }
      if now > input.endsAt {
        return Some(Expired), [];
      }
      var saved := Tables();
      e := InsertMission(id, input.creator, Mission(input.code, Draft, input.startsAt, input.endsAt, 1));
      ghost var start := Tables();
      var i := 0;
      while e.None? && i < |input.buoys|
        invariant 0 <= i <= |input.buoys| && |buoyIds| == i
        invariant forall k | 0 <= k < i :: buoyIds[k] == input.buoys[k].id
        invariant var inserted := Transactions.InsertMission(saved, id, input.creator,
                                    Mission(input.code, Draft, input.startsAt, input.endsAt, 1));
                  if inserted.Err? then e == Some(inserted.error)
                  else var all := InsertBuoys(inserted.value, id, input.buoys);
                       if e.None? then InsertBuoys(Tables(), id, input.buoys[i..]) == all
                       else all == Err(e.value)
        decreases |input.buoys| - i, e.None?
      {
        assert input.buoys[i..][0] == input.buoys[i] && input.buoys[i..][1..] == input.buoys[i + 1..];
        e := InsertBuoy(id, input.buoys[i]);
        if e.None? {
          buoyIds := buoyIds + [input.buoys[i].id];
          i := i + 1;
        }
      }
      if e.None? {
        e := WriteAudit(actor, MissionObject, id, Create);
      }
      e := Finish(saved, e, commits);
    }

    method AdvanceSurveyMission(id: Id, next: MissionStatus, version: int, actor: Option<Id>, commits: bool)
      returns (e: Option<Error>)
      modifies this
      ensures Transacted(old(Tables()), Tables(), e, commits, AdvanceMission(old(Tables()), id, next, version, actor))
    {
      var saved := Tables();
      if id !in missions {
        e := Some(NotFound);
      } else if !missions[id].status.CanMoveTo(next) {
        e := Some(InvalidTransition);
      } else {
        e := UpdateMission(id, next, version);
        if e.None? {
          e := WriteAudit(actor, MissionObject, id, MissionAction(next));
        }
      }
      e := Finish(saved, e, commits);
    }

    method CreateRecoveryJob(input: JobInput, now: int, actor: Option<Id>, commits: bool) returns (e: Option<Error>)
      modifies this
      ensures Transacted(old(Tables()), Tables(), e, commits, CreateJob(old(Tables()), input, now, actor))
    {
      if Blank(input.code) {
        return Some(Conflict);
      }
      if input.expiresAt < now {
        return Some(Expired);
      }
      if !ValidCode(input.code) {
        return Some(Conflict);
      }
      var saved := Tables();
      e := PlaceJob(input);
      if e.None? {
        e := WriteAudit(actor, JobObject, input.id, Create);
      }
      e := Finish(saved, e, commits);
    }

    method CheckBulk(inputs: seq<JobInput>, now: int) returns (e: Option<Error>)
      ensures e == BulkError(inputs, now, {})
    {
      var seen: set<string> := {};
      for i := 0 to |inputs|
        invariant BulkError(inputs[i..], now, seen) == BulkError(inputs, now, {})
      {
        assert inputs[i..][0] == inputs[i] && inputs[i..][1..] == inputs[i + 1..];
        if Blank(inputs[i].code) {
          return Some(Conflict);
        }
        if inputs[i].expiresAt < now {
          return Some(Expired);
        }
        if inputs[i].code in seen {
          return Some(Conflict);
        }
        seen := seen + {inputs[i].code};
      }
      return None;
    }

    method CreateRecoveryJobsBulk(inputs: seq<JobInput>, now: int, actor: Option<Id>, commits: bool)
      returns (e: Option<Error>, results: seq<BulkItem>)
      modifies this
      ensures Transacted(old(Tables()), Tables(), e, commits, CreateJobsBulk(old(Tables()), inputs, now, actor))
      ensures e.None? ==> |results| == |inputs|
                          && forall i | 0 <= i < |inputs| :: results[i] == BulkItem(i, inputs[i].code, inputs[i].id)
    {
      results := [];
      if inputs == [] {
        return Some(Conflict), [];
      }
      e := CheckBulk(inputs, now);
      if e.Some? {
        return;
      }
      var saved := Tables();
      var i := 0;
      while e.None? && i < |inputs|
        invariant 0 <= i <= |inputs| && |results| == i
        invariant forall k | 0 <= k < i :: results[k] == BulkItem(k, inputs[k].code, inputs[k].id)
        invariant if e.None? then PlaceJobs(Tables(), inputs[i..]) == PlaceJobs(saved, inputs)
                  else PlaceJobs(saved, inputs) == Err(e.value)
        decreases |inputs| - i, e.None?
      {
        assert inputs[i..][0] == inputs[i] && inputs[i..][1..] == inputs[i + 1..];
        e := PlaceJob(inputs[i]);
        if e.None? {
          results := results + [BulkItem(i, inputs[i].code, inputs[i].id)];
          i := i + 1;
        }
      }
      if e.None? {
        e := WriteAudit(actor, BulkObject, inputs[0].missionId, CreateBulk);
      }
      e := Finish(saved, e, commits);
    }

    method CompleteRecoveryJob(id: Id, version: int, now: int, actor: Option<Id>, commits: bool)
      returns (e: Option<Error>)
      modifies this
      ensures Transacted(old(Tables()), Tables(), e, commits, CompleteJob(old(Tables()), id, version, now, actor))
    {
      var saved := Tables();
      if id !in jobs || jobs[id].missionId !in missions {
        e := Some(NotFound);
      } else if !missions[jobs[id].missionId].CanExecuteAt(now) {
        e := Some(InvalidTransition);
      } else {
        e := MoveError(jobs[id], JobStatus.Completed, now);
        if e.None? {
          e := MoveJob(id, JobStatus.Completed, version, now);
        }
        if e.None? {
          e := WriteAudit(actor, JobObject, id, Complete);
        }
      }
      e := Finish(saved, e, commits);
    }

    method ArchiveRecoveryJob(id: Id, version: int, now: int, actor: Option<Id>, commits: bool)
      returns (e: Option<Error>)
      modifies this
      ensures Transacted(old(Tables()), Tables(), e, commits, ArchiveJob(old(Tables()), id, version, now, actor))
    {
      var saved := Tables();
      if id !in jobs {
        e := Some(NotFound);
      } else {
        e := MoveError(jobs[id], JobStatus.Archived, now);
        if e.None? {
          e := MoveJob(id, JobStatus.Archived, version, now);
        }
        if e.None? {
          e := WriteAudit(actor, JobObject, id, Archive);
        }
      }
      e := Finish(saved, e, commits);
    }

    method ActivateRecoveryJob(h: Handover, version: int, actor: Option<Id>, commits: bool) returns (e: Option<Error>)
      modifies this
      ensures Transacted(old(Tables()), Tables(), e, commits, ActivateJob(old(Tables()), h, version, actor))
    {
      var saved := Tables();
      e := MoveJob(h.jobId, JobStatus.ActivationPending, version, h.recordedAt);
      if e.None? {
        e := RecordMooring(h);
      }
      if e.None? {
        e := WriteAudit(actor, JobObject, h.jobId, Activation);
      }
      e := Finish(saved, e, commits);
    }

    method AcceptRecoveryJob(h: Handover, version: int, actor: Option<Id>, commits: bool) returns (e: Option<Error>)
      modifies this
      ensures Transacted(old(Tables()), Tables(), e, commits, AcceptJob(old(Tables()), h, version, actor))
    {
      var saved := Tables();
      e := MoveJob(h.jobId, JobStatus.Accepted, version, h.recordedAt);
      if e.None? {
        e := RecordMooring(h);
      }
      if e.None? {
        e := WriteAudit(actor, JobObject, h.jobId, Accept);
      }
      e := Finish(saved, e, commits);
    }

    method CheckDistinct(ids: seq<Id>) returns (ok: bool)
      ensures ok <==> Distinct(ids)
    {
      var seen: set<Id> := {};
      for i := 0 to |ids|
        invariant seen == set k | 0 <= k < i :: ids[k]
        invariant Distinct(ids[..i])
      {
        if ids[i] in seen {
          return false;
        }
        seen := seen + {ids[i]};
        assert ids[..i + 1] == ids[..i] + [ids[i]];
      }
      assert ids[..|ids|] == ids;
      return true;
    }

    method CreateDiveWindow(id: Id, code: string, capacity: int, jobIds: seq<Id>, dbNow: int, actor: Option<Id>,
                            commits: bool)
      returns (e: Option<Error>)
      modifies this
      ensures Transacted(old(Tables()), Tables(), e, commits,
                         CreateWindow(old(Tables()), id, code, capacity, jobIds, dbNow, actor))
    {
      if |jobIds| == 0 || |jobIds| > capacity {
        return Some(CapacityExceeded);
      }
      var distinct := CheckDistinct(jobIds);
      if !ValidCode(code) || !distinct {
        return Some(Conflict);
      }
      var saved := Tables();
      e := InsertWindow(id, code, capacity);
      if e.None? {
        e := AttachRecoveryJobs(id, jobIds, dbNow);
      }
      if e.None? {
        e := WriteAudit(actor, WindowObject, id, Create);
      }
      e := Finish(saved, e, commits);
    }

    method StartDiveWindow(id: Id, version: int, dbNow: int, actor: Option<Id>, commits: bool)
      returns (e: Option<Error>)
      modifies this
      ensures Transacted(old(Tables()), Tables(), e, commits, StartWindow(old(Tables()), id, version, dbNow, actor))
    {
      var saved := Tables();
      e := ChangeWindow(id, Running, version, dbNow);
      if e.None? {
        e := WriteAudit(actor, WindowObject, id, Start);
      }
      e := Finish(saved, e, commits);
    }

    method CompleteDiveWindow(id: Id, version: int, dbNow: int, actor: Option<Id>, commits: bool)
      returns (e: Option<Error>)
      modifies this
      ensures Transacted(old(Tables()), Tables(), e, commits, CompleteWindow(old(Tables()), id, version, dbNow, actor))
    {
      var saved := Tables();
      e := ChangeWindow(id, Done, version, dbNow);
      if e.None? {
        e := WriteAudit(actor, WindowObject, id, Complete);
      }
      e := Finish(saved, e, commits);
    }

    method CancelDiveWindow(id: Id, version: int, dbNow: int, actor: Option<Id>, commits: bool)
      returns (e: Option<Error>)
      modifies this
      ensures Transacted(old(Tables()), Tables(), e, commits, CancelWindow(old(Tables()), id, version, dbNow, actor))
    {
      var saved := Tables();
      e := ChangeWindow(id, WindowStatus.Cancelled, version, dbNow);
      if e.None? {
        e := WriteAudit(actor, WindowObject, id, Cancel);
      }
      e := Finish(saved, e, commits);
    }

    method SubmitSignalReport(id: Id, jobId: Id, windowId: Id, recorder: Id, actor: Option<Id>, commits: bool)
      returns (e: Option<Error>)
      modifies this
      ensures Transacted(old(Tables()), Tables(), e, commits,
                         SubmitReport(old(Tables()), id, jobId, windowId, recorder, actor))
    {
      var saved := Tables();
      e := ReportTargetError(saved, jobId, windowId);
      if e.None? {
        if recorder !in operators {
          e := Some(NotFound);
        } else if !operators[recorder] {
          e := Some(Conflict);
        } else {
          e := InsertReport(id, jobId, windowId, recorder);
          if e.None? {
            e := WriteAudit(actor, ReportObject, id, Record);
          }
        }
      }
      e := Finish(saved, e, commits);
    }

    method ReviewSignalReport(input: ReviewInput, now: int, actor: Option<Id>, commits: bool) returns (e: Option<Error>)
      modifies this
      ensures Transacted(old(Tables()), Tables(), e, commits, ReviewReport(old(Tables()), input, now, actor))
    {
      hide ReviewReportRow, Transactions.MoveJob, Transactions.InsertIncident, Transactions.WriteAudit;
      var saved := Tables();
      if input.reportId !in reports {
        e := Some(NotFound);
      } else if reports[input.reportId].jobId != input.jobId {
        e := Some(Conflict);
      } else {
        e := ReviewRow(input.reportId, input.accepted, input.reportVersion, now);
        if e.None? {
          e := MoveJob(input.jobId, if input.accepted then JobStatus.Verified else JobStatus.Rejected,
                       input.jobVersion, now);
        }
        if e.None? && !input.accepted {
          e := InsertIncident(input.incidentId, input.jobId, Reassess, now + 72 * HOUR);
          if e.None? {
            e := WriteAudit(actor, IncidentObject, input.incidentId, Open);
          }
        }
        if e.None? {
          e := WriteAudit(actor, ReportObject, input.reportId, Review);
        }
      }
      e := Finish(saved, e, commits);
    }

    method OpenIntegrityIncident(id: Id, jobId: Id, kind: IncidentKind, dueAt: Option<int>, now: int,
                                 actor: Option<Id>, commits: bool)
      returns (e: Option<Error>)
      modifies this
      ensures Transacted(old(Tables()), Tables(), e, commits,
                         OpenIncident(old(Tables()), id, jobId, kind, dueAt, now, actor))
    {
      var due := if dueAt.None? then now + 72 * HOUR else dueAt.value;
      if due < now - 24 * HOUR {
        return Some(Conflict);
      }
      var saved := Tables();
      e := InsertIncident(id, jobId, kind, due);
      if e.None? {
        e := WriteAudit(actor, IncidentObject, id, Open);
      }
      e := Finish(saved, e, commits);
    }

    method StartIntegrityIncident(id: Id, actor: Option<Id>, commits: bool) returns (e: Option<Error>)
      modifies this
      ensures Transacted(old(Tables()), Tables(), e, commits, StartIncident(old(Tables()), id, actor))
    {
      var saved := Tables();
      e := MoveIncident(id, Handling);
      if e.None? {
        e := WriteAudit(actor, IncidentObject, id, Start);
      }
      e := Finish(saved, e, commits);
    }

    method CloseIntegrityIncident(id: Id, actor: Option<Id>, commits: bool) returns (e: Option<Error>)
      modifies this
      ensures Transacted(old(Tables()), Tables(), e, commits, CloseIncident(old(Tables()), id, actor))
    {
      var saved := Tables();
      e := MoveIncident(id, Settled);
      if e.None? {
        e := WriteAudit(actor, IncidentObject, id, Close);
      }
      e := Finish(saved, e, commits);
    }

    // ---------- The expiry sweep ----------

    /** A soonest-expiring element of a non-empty set of jobs. */
    method Soonest(candidates: set<Id>) returns (first: Id)
      requires candidates != {} && forall j | j in candidates :: j in jobs
      ensures first in candidates && forall j | j in candidates :: jobs[first].expiresAt <= jobs[j].expiresAt
    {
      first :| first in candidates;
      var rest := candidates - {first};
      while rest != {}
        invariant rest <= candidates && first in candidates
        invariant forall j | j in candidates && j !in rest :: jobs[first].expiresAt <= jobs[j].expiresAt
        decreases |rest|
      {
        var j :| j in rest;
        if jobs[j].expiresAt < jobs[first].expiresAt {
          first := j;
        }
        rest := rest - {j};
      }
    }

    /** The ordered, limited query the sweep starts from. */
    method SelectOverdue(now: int, limit: int) returns (picked: seq<Id>)
      ensures SweepPicks(jobs, now, limit, picked)
    {
      picked := [];
      var left := OverdueJobs(jobs, now);
      while |picked| < SweepLimit(limit) && left != {}
        invariant Picking(jobs, now, picked, left) && |picked| <= SweepLimit(limit)
        decreases |left|
      {
        var j := Soonest(left);
        PickNext(jobs, now, picked, left, j);
        picked := picked + [j];
        left := left - {j};
      }
      PickedAll(jobs, now, limit, picked, left);
    }

    /** Marks and logs the scanned jobs one by one, counting those no longer live. */
    method MarkEach(ids: seq<Id>) returns (marked: int, failed: int)
      requires Distinct(ids) && forall k | 0 <= k < |ids| :: ids[k] in jobs && jobs[ids[k]].status.Live()
      modifies this
      ensures Tables() == MarkAllExpired(old(Tables()), ids)
      ensures marked == |ids| && failed == 0
    {
      marked, failed := 0, 0;
      for i := 0 to |ids|
        invariant marked == i && failed == 0
        invariant MarkAllExpired(Tables(), ids[i..]) == MarkAllExpired(old(Tables()), ids)
        invariant forall k | i <= k < |ids| :: ids[k] in jobs && jobs[ids[k]].status.Live()
      {
        assert ids[i..][0] == ids[i] && ids[i..][1..] == ids[i + 1..];
        if ids[i] in jobs && jobs[ids[i]].status.Live() {
          jobs := jobs[ids[i] := jobs[ids[i]].(status := JobStatus.Rejected, version := jobs[ids[i]].version + 1)];
          audits := audits + [AuditEvent(SweptJob, ids[i], Expire)];
          marked := marked + 1;
        } else {
          failed := failed + 1;
        }
      }
    }

    /** Scans, then marks: in one transaction every scanned job is still live, so none
        fails. */
    method MarkExpiredRecoveryJobs(now: int, limit: int, commits: bool)
      returns (result: SweepResult, e: Option<Error>, ghost picked: seq<Id>)
      modifies this
      ensures SweepPicks(old(jobs), now, limit, picked)
      ensures Transacted(old(Tables()), Tables(), e, commits, Apply(old(Tables()), SweepOp(now, limit, picked)))
      ensures e.None? ==> result == SweepResult(|picked|, |picked|, 0)
    {
      var saved := Tables();
      var ids := SelectOverdue(now, limit);
      picked := ids;
      var marked, failed := MarkEach(ids);
      e := Finish(saved, None, commits);
      result := if e.None? then SweepResult(|ids|, marked, failed) else SweepResult(0, 0, 0);
    }
  }
}
