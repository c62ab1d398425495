/** When an integrity incident can ever be settled. */
module Incidents {
  import opened Prelude
  import opened Status
  import opened Tables
  import opened Transactions
  import opened Workflow
  import opened Frames

  /** Another incident of the same job and kind is settled already. */
  ghost predicate HasSettledTwin(incidents: map<Id, Incident>, id: Id)
    requires id in incidents
  {
    exists i :: && i in incidents && i != id && incidents[i].jobId == incidents[id].jobId
                && incidents[i].kind == incidents[id].kind && incidents[i].status.Settled?
  }

  ghost predicate Unsettled(incidents: map<Id, Incident>, id: Id) {
    id in incidents && !incidents[id].status.Settled?
  }

  ghost predicate Stuck(incidents: map<Id, Incident>, id: Id) {
    Unsettled(incidents, id) && HasSettledTwin(incidents, id)
  }

  /** Incidents stay, keep their job and kind, and stay settled; only one with a settled
      twin is barred from settling. */
  ghost predicate IncidentsStep(before: map<Id, Incident>, after: map<Id, Incident>) {
    forall i | i in before ::
      && i in after && after[i].jobId == before[i].jobId && after[i].kind == before[i].kind
      && (before[i].status.Settled? ==> after[i].status.Settled?)
      && (Stuck(before, i) ==> Unsettled(after, i))
  }

  predicate TouchesIncidents(op: Op) {
    op.ReviewReportOp? || op.OpenIncidentOp? || op.StartIncidentOp? || op.CloseIncidentOp?
  }

  lemma OthersLeaveIncidents(db: Db, op: Op, d: Db)
    requires !TouchesIncidents(op) && Apply(db, op) == Ok(d)
    ensures d.incidents == db.incidents
  {
    hide CreateMission, CreateJobsBulk, CreateWindow, SweepPicks, MarkAllExpired;
    match op
    case CreateMissionOp(id, m, now, actor) => CreateMissionFrame(db, id, m, now, actor, d);
    case CreateJobsBulkOp(jobs, now, actor) => CreateJobsFrame(db, jobs, now, actor, d);
    case CreateWindowOp(id, code, capacity, jobIds, now, actor) =>
      CreateWindowFrame(db, id, code, capacity, jobIds, now, actor, d);
    case SweepOp(now, limit, picked) => SweepFrame(db, now, limit, picked);
    case _ =>
  }

  lemma MoveSteps(db: Db, id: Id, next: IncidentStatus, d: Db)
    requires MoveIncident(db, id, next) == Ok(d)
    ensures IncidentsStep(db.incidents, d.incidents)
  {
  }

  lemma InsertSteps(db: Db, id: Id, jobId: Id, kind: IncidentKind, dueAt: int, d: Db)
    requires InsertIncident(db, id, jobId, kind, dueAt) == Ok(d)
    ensures IncidentsStep(db.incidents, d.incidents)
  {
  }

  lemma ApplySteps(db: Db, op: Op, d: Db)
    requires Apply(db, op) == Ok(d)
    ensures IncidentsStep(db.incidents, d.incidents)
  {
    hide IncidentsStep, InsertIncident, MoveIncident;
    if !TouchesIncidents(op) {
      OthersLeaveIncidents(db, op, d);
      NoStep(db.incidents);
    } else {
      match op
      case ReviewReportOp(input, now, actor) => ReviewSteps(db, input, now, actor, d);
      case OpenIncidentOp(id, jobId, kind, dueAt, now, actor) =>
        var due := DueTime(dueAt, now);
        InsertSteps(db, id, jobId, kind, due, InsertIncident(db, id, jobId, kind, due).value);
      case StartIncidentOp(id, actor) => MoveSteps(db, id, Handling, MoveIncident(db, id, Handling).value);
      case CloseIncidentOp(id, actor) => MoveSteps(db, id, Settled, MoveIncident(db, id, Settled).value);
    }
  }

  lemma NoStep(incidents: map<Id, Incident>)
    ensures IncidentsStep(incidents, incidents)
  {
  }

  lemma ReviewSteps(db: Db, input: ReviewInput, now: int, actor: Option<Id>, d: Db)
    requires ReviewReport(db, input, now, actor) == Ok(d)
    ensures IncidentsStep(db.incidents, d.incidents)
  {
    ReviewShape(db, input, now, actor, d);
  }

  lemma StepKeepsStuck(before: map<Id, Incident>, after: map<Id, Incident>, id: Id)
    requires IncidentsStep(before, after) && Stuck(before, id)
    ensures Stuck(after, id)
  {
    var twin :| && twin in before && twin != id && before[twin].jobId == before[id].jobId
                && before[twin].kind == before[id].kind && before[twin].status.Settled?;
    assert twin in after && after[twin].status.Settled?;
  }

  lemma {:induction false} StuckForever(db: Db, ops: seq<Op>, id: Id)
    requires Stuck(db.incidents, id)
    ensures Stuck(Run(db, ops).incidents, id)
    decreases |ops|
  {
    if ops != [] {
      var mid, op := Run(db, ops[..|ops| - 1]), ops[|ops| - 1];
      StuckForever(db, ops[..|ops| - 1], id);
      if Apply(mid, op).Ok? {
        ApplySteps(mid, op, Apply(mid, op).value);
        StepKeepsStuck(mid.incidents, Next(mid, op).incidents, id);
      }
    }
  }

  ghost predicate CanSettle(db: Db, id: Id) {
    exists ops :: var d := Run(db, ops); id in d.incidents && d.incidents[id].status.Settled?
  }

  /** An unsettled incident can be settled by some later run exactly when no other
      incident of its job and kind is settled yet: the table allows one settled row. */
  lemma SettleableIff(db: Db, id: Id)
    requires Unsettled(db.incidents, id)
    ensures CanSettle(db, id) <==> !HasSettledTwin(db.incidents, id)
  {
    if HasSettledTwin(db.incidents, id) {
      forall ops ensures Stuck(Run(db, ops).incidents, id) {
        StuckForever(db, ops, id);
      }
    } else {
      var op := CloseIncidentOp(id, None);
      assert [op][..0] == [];
      assert Run(db, [op]) == Next(db, op);
      assert Run(db, [op]).incidents[id].status.Settled?;
    }
  }
}
