/** The mooring rows: one for every activation and acceptance, in the order of the log. */
module Moorings {
  import opened Prelude
  import opened Status
  import opened Tables
  import opened Transactions
  import opened Workflow
  import opened Frames

  predicate HandsOver(op: Op) {
    op.ActivateJobOp? || op.AcceptJobOp?
  }

  /** A committed activation or acceptance records who had the job, who has it now and when. */
  lemma HandOverRecords(db: Db, op: Op, d: Db)
    requires HandsOver(op) && Apply(db, op) == Ok(d)
    ensures var h := op.handover;
            && d.moorings == db.moorings + [Mooring(h.jobId, h.from, h.to, h.recordedAt)]
            && d.audits == db.audits
                           + [AuditEvent(JobObject, h.jobId, if op.ActivateJobOp? then Activation else Accept)]
            && h.to in db.operators && (h.from.Some? ==> h.from.value in db.operators)
            && d.operators == db.operators
            && h.jobId in d.jobs
            && d.jobs[h.jobId].status == (if op.ActivateJobOp? then ActivationPending else JobStatus.Accepted)
            && (op.AcceptJobOp? ==> d.jobs[h.jobId].acceptedAt == Some(h.recordedAt))
  {
  }

  // ---------- The trail in the log ----------

  predicate IsHandOver(e: AuditEvent) {
    e.objectType.JobObject? && (e.action.Activation? || e.action.Accept?)
  }

  /** The jobs of the log's activations and acceptances, in order. */
  function HandedOver(audits: seq<AuditEvent>): seq<Id> {
    if audits == [] then []
    else
      var last := audits[|audits| - 1];
      HandedOver(audits[..|audits| - 1]) + (if IsHandOver(last) then [last.objectId] else [])
  }

  function JobsOf(moorings: seq<Mooring>): (ids: seq<Id>)
    ensures |ids| == |moorings| && forall i | 0 <= i < |ids| :: ids[i] == moorings[i].jobId
  {
    seq(|moorings|, i requires 0 <= i < |moorings| => moorings[i].jobId)
  }

  lemma {:induction false} HandedOverAppend(first: seq<AuditEvent>, second: seq<AuditEvent>)
    ensures HandedOver(first + second) == HandedOver(first) + HandedOver(second)
    decreases |second|
  {
    if second == [] {
      assert first + second == first;
    } else {
      var n := |second| - 1;
      assert (first + second)[..|first + second| - 1] == first + second[..n];
      HandedOverAppend(first, second[..n]);
    }
  }

  lemma {:induction false} NothingHandedOver(events: seq<AuditEvent>)
    requires forall i | 0 <= i < |events| :: !IsHandOver(events[i])
    ensures HandedOver(events) == []
    decreases |events|
  {
    if events != [] {
      NothingHandedOver(events[..|events| - 1]);
    }
  }

  /** `d` has the same moorings, and `events` more in the log, none of them a hand-over. */
  ghost predicate Logs(db: Db, d: Db, events: seq<AuditEvent>) {
    && d.moorings == db.moorings && d.audits == db.audits + events
    && (forall o | o in db.operators :: o in d.operators)
    && forall i | 0 <= i < |events| :: !IsHandOver(events[i])
  }

  ghost predicate LogsSome(db: Db, d: Db) {
    exists events :: Logs(db, d, events)
  }

  lemma OneEvent(db: Db, d: Db, e: AuditEvent)
    requires d.moorings == db.moorings && d.audits == db.audits + [e] && !IsHandOver(e)
    requires forall o | o in db.operators :: o in d.operators
    ensures LogsSome(db, d)
  {
    assert Logs(db, d, [e]);
  }

  lemma ShortOpLogs(db: Db, op: Op, d: Db)
    requires op.AddOperatorOp? || op.AdvanceMissionOp? || op.CreateJobOp? || op.CompleteJobOp? || op.ArchiveJobOp?
    requires Apply(db, op) == Ok(d)
    ensures LogsSome(db, d)
  {
    match op
    case AddOperatorOp(id, _, _) => OneEvent(db, d, AuditEvent(OperatorObject, id, Create));
    case AdvanceMissionOp(id, next, _, _) => OneEvent(db, d, AuditEvent(MissionObject, id, MissionAction(next)));
    case CreateJobOp(job, _, _) => OneEvent(db, d, AuditEvent(JobObject, job.id, Create));
    case CompleteJobOp(id, _, _, _) => OneEvent(db, d, AuditEvent(JobObject, id, Complete));
    case ArchiveJobOp(id, _, _, _) => OneEvent(db, d, AuditEvent(JobObject, id, Archive));
  }

  lemma WindowOpLogs(db: Db, op: Op, d: Db)
    requires op.StartWindowOp? || op.CompleteWindowOp? || op.CancelWindowOp? || op.SubmitReportOp?
             || op.OpenIncidentOp? || op.StartIncidentOp? || op.CloseIncidentOp?
    requires Apply(db, op) == Ok(d)
    ensures LogsSome(db, d)
  {
    match op
    case StartWindowOp(id, _, _, _) => OneEvent(db, d, AuditEvent(WindowObject, id, Start));
    case CompleteWindowOp(id, _, _, _) => OneEvent(db, d, AuditEvent(WindowObject, id, Complete));
    case CancelWindowOp(id, _, _, _) => OneEvent(db, d, AuditEvent(WindowObject, id, Cancel));
    case SubmitReportOp(id, _, _, _, _) => OneEvent(db, d, AuditEvent(ReportObject, id, Action.Record));
    case OpenIncidentOp(id, _, _, _, _, _) => OneEvent(db, d, AuditEvent(IncidentObject, id, Open));
    case StartIncidentOp(id, _) => OneEvent(db, d, AuditEvent(IncidentObject, id, Start));
    case CloseIncidentOp(id, _) => OneEvent(db, d, AuditEvent(IncidentObject, id, Close));
  }

  lemma SweepCommitted(db: Db, op: Op, d: Db)
    requires op.SweepOp? && Apply(db, op) == Ok(d)
    ensures SweepPicks(db.jobs, op.now, op.limit, op.picked) && d == MarkAllExpired(db, op.picked)
  {
  }

  lemma LongOpLogs(db: Db, op: Op, d: Db)
    requires op.CreateMissionOp? || op.CreateJobsBulkOp? || op.CreateWindowOp? || op.ReviewReportOp? || op.SweepOp?
    requires Apply(db, op) == Ok(d)
    ensures LogsSome(db, d)
  {
    hide CreateMission, CreateJobsBulk, CreateWindow, ReviewReport, SweepPicks, MarkAllExpired;
    match op
    case CreateMissionOp(id, m, now, actor) =>
      CreateMissionFrame(db, id, m, now, actor, d);
      OneEvent(db, d, AuditEvent(MissionObject, id, Create));
    case CreateJobsBulkOp(jobs, now, actor) =>
      CreateJobsFrame(db, jobs, now, actor, d);
      OneEvent(db, d, AuditEvent(BulkObject, jobs[0].missionId, CreateBulk));
    case CreateWindowOp(id, code, capacity, jobIds, now, actor) =>
      CreateWindowFrame(db, id, code, capacity, jobIds, now, actor, d);
      OneEvent(db, d, AuditEvent(WindowObject, id, Create));
    case ReviewReportOp(input, now, actor) =>
      ReviewShape(db, input, now, actor, d);
      assert Logs(db, d, (if input.accepted then [] else [AuditEvent(IncidentObject, input.incidentId, Open)])
                         + [AuditEvent(ReportObject, input.reportId, Review)]);
    case SweepOp(now, limit, picked) =>
      SweepCommitted(db, op, d);
      SweepFrame(db, now, limit, picked);
      assert Logs(db, d, ExpiryEvents(picked));
  }

  /** No other transaction writes a mooring row or logs a hand-over. */
  lemma OthersRecordNothing(db: Db, op: Op, d: Db)
    requires !HandsOver(op) && Apply(db, op) == Ok(d)
    ensures LogsSome(db, d)
  {
    hide Apply, LogsSome;
    match op
    case AddOperatorOp(_, _, _) => ShortOpLogs(db, op, d);
    case AdvanceMissionOp(_, _, _, _) => ShortOpLogs(db, op, d);
    case CreateJobOp(_, _, _) => ShortOpLogs(db, op, d);
    case CompleteJobOp(_, _, _, _) => ShortOpLogs(db, op, d);
    case ArchiveJobOp(_, _, _, _) => ShortOpLogs(db, op, d);
    case CreateMissionOp(_, _, _, _) => LongOpLogs(db, op, d);
    case CreateJobsBulkOp(_, _, _) => LongOpLogs(db, op, d);
    case CreateWindowOp(_, _, _, _, _, _) => LongOpLogs(db, op, d);
    case ReviewReportOp(_, _, _) => LongOpLogs(db, op, d);
    case SweepOp(_, _, _) => LongOpLogs(db, op, d);
    case _ => WindowOpLogs(db, op, d);
  }

  /** The log's hand-overs and the mooring rows tell one story, and name registered operators. */
  ghost predicate Told(db: Db) {
    && JobsOf(db.moorings) == HandedOver(db.audits)
    && forall i | 0 <= i < |db.moorings| ::
         && db.moorings[i].to in db.operators
         && (db.moorings[i].from.Some? ==> db.moorings[i].from.value in db.operators)
  }

  lemma HandOverTold(db: Db, op: Op, d: Db)
    requires Told(db) && HandsOver(op) && Apply(db, op) == Ok(d)
    ensures Told(d)
  {
    hide Apply;
    HandOverRecords(db, op, d);
    assert d.audits[..|d.audits| - 1] == db.audits;
    assert JobsOf(d.moorings) == JobsOf(db.moorings) + [op.handover.jobId];
  }

  lemma OthersTold(db: Db, d: Db)
    requires Told(db) && LogsSome(db, d)
    ensures Told(d)
  {
    var events :| Logs(db, d, events);
    HandedOverAppend(db.audits, events);
    NothingHandedOver(events);
  }

  /** Over any run the mooring rows are, job by job and in order, the activations and
      acceptances in the log, and every operator they name is registered. */
  lemma {:induction false} RunTellsMoorings(ops: seq<Op>)
    ensures Told(Run(EMPTY_DB, ops))
    decreases |ops|
  {
    if ops != [] {
      hide Apply, Told, HandsOver;
      var before, op := Run(EMPTY_DB, ops[..|ops| - 1]), ops[|ops| - 1];
      RunTellsMoorings(ops[..|ops| - 1]);
      if Apply(before, op).Ok? {
        if HandsOver(op) {
          HandOverTold(before, op, Apply(before, op).value);
        } else {
          OthersRecordNothing(before, op, Apply(before, op).value);
          OthersTold(before, Apply(before, op).value);
        }
      }
    }
  }

  // ---------- Counted ----------

  function MooringsFor(moorings: seq<Mooring>, j: Id): nat {
    if moorings == [] then 0
    else MooringsFor(moorings[..|moorings| - 1], j) + (if moorings[|moorings| - 1].jobId == j then 1 else 0)
  }

  function HandOverEvents(audits: seq<AuditEvent>, j: Id): nat {
    if audits == [] then 0
    else
      var last := audits[|audits| - 1];
      HandOverEvents(audits[..|audits| - 1], j)
      + (if last.objectType.JobObject? && last.objectId == j && (last.action.Activation? || last.action.Accept?)
         then 1 else 0)
  }

  lemma {:induction false} CountMoorings(moorings: seq<Mooring>, j: Id)
    ensures MooringsFor(moorings, j) == multiset(JobsOf(moorings))[j]
    decreases |moorings|
  {
    if moorings != [] {
      var rest, last := moorings[..|moorings| - 1], moorings[|moorings| - 1];
      CountMoorings(rest, j);
      assert JobsOf(moorings) == JobsOf(rest) + [last.jobId];
    }
  }

  lemma {:induction false} CountHandOvers(audits: seq<AuditEvent>, j: Id)
    ensures HandOverEvents(audits, j) == multiset(HandedOver(audits))[j]
    decreases |audits|
  {
    if audits != [] {
      CountHandOvers(audits[..|audits| - 1], j);
    }
  }

  /** So each job has as many mooring rows as activations and acceptances in the log. */
  lemma RunCountsMoorings(ops: seq<Op>, j: Id)
    ensures var db := Run(EMPTY_DB, ops); MooringsFor(db.moorings, j) == HandOverEvents(db.audits, j)
  {
    var db := Run(EMPTY_DB, ops);
    RunTellsMoorings(ops);
    CountMoorings(db.moorings, j);
    CountHandOvers(db.audits, j);
  }
}
