/** Which committed writes of a job's status follow the transition relation. */
module Legality {
  import opened Prelude
  import opened Status
  import opened Tables
  import opened Transactions
  import opened Workflow
  import opened Frames

  ghost predicate Wrote(db: Db, d: Db, j: Id) {
    j in db.jobs && j in d.jobs && d.jobs[j] != db.jobs[j]
  }

  /** Whether the transaction's write of a job with this status is an edge. */
  predicate LegalFrom(op: Op, before: JobStatus) {
    match op
    case CompleteJobOp(_, _, _, _) => true
    case ArchiveJobOp(_, _, _, _) => true
    case CreateWindowOp(_, _, _, _, _, _) => true
    case ActivateJobOp(_, _, _) => before.Completed?
    case AcceptJobOp(_, _, _) => before.ActivationPending?
    case ReviewReportOp(_, _, _) => before.InProgress?
    case SweepOp(_, _, _) => before.InProgress?
    case _ => false
  }

  /** The transactions that write existing job rows. */
  predicate WritesJobs(op: Op) {
    || op.CompleteJobOp? || op.ArchiveJobOp? || op.CreateWindowOp? || op.ActivateJobOp? || op.AcceptJobOp?
    || op.ReviewReportOp? || op.SweepOp? || op.CancelWindowOp?
  }

  ghost predicate Moved(db: Db, d: Db, j: Id, legal: bool) {
    Wrote(db, d, j) ==> (db.jobs[j].status.CanMoveTo(d.jobs[j].status) <==> legal)
  }

  lemma CompletionMoves(db: Db, id: Id, version: int, now: int, actor: Option<Id>, d: Db, j: Id)
    requires CompleteJob(db, id, version, now, actor) == Ok(d)
    ensures Moved(db, d, j, true) && (Wrote(db, d, j) <==> j == id)
  {
    assert d.jobs[id].version == db.jobs[id].version + 1;
  }

  lemma ArchivalMoves(db: Db, id: Id, version: int, now: int, actor: Option<Id>, d: Db, j: Id)
    requires ArchiveJob(db, id, version, now, actor) == Ok(d)
    ensures Moved(db, d, j, true) && (Wrote(db, d, j) <==> j == id)
  {
    assert d.jobs[id].version == db.jobs[id].version + 1;
  }

  lemma HandOverMoves(db: Db, h: Handover, next: JobStatus, version: int, actor: Option<Id>, action: Action, d: Db,
                      j: Id)
    requires next.ActivationPending? || next.Accepted?
    requires HandOver(db, h, next, version, actor, action) == Ok(d)
    ensures Wrote(db, d, j) <==> j == h.jobId
    ensures j in db.jobs ==>
              Moved(db, d, j, db.jobs[j].status == if next.Accepted? then ActivationPending else JobStatus.Completed)
  {
    assert d.jobs[h.jobId].version == db.jobs[h.jobId].version + 1;
  }

  lemma AttachMoves(db: Db, id: Id, code: string, capacity: int, jobIds: seq<Id>, now: int, actor: Option<Id>, d: Db,
                    j: Id)
    requires CreateWindow(db, id, code, capacity, jobIds, now, actor) == Ok(d)
    ensures Moved(db, d, j, true) && (Wrote(db, d, j) <==> j in jobIds)
  {
    var db1 := InsertWindow(db, id, code, capacity).value;
    AttachItemsExact(db1, id, jobIds, now);
    if j in jobIds {
      assert Attachable(db1, id, j, now);
      assert d.jobs[j].version == db.jobs[j].version + 1;
    }
  }

  lemma CancelMoves(db: Db, id: Id, version: int, now: int, actor: Option<Id>, d: Db, j: Id)
    requires CancelWindow(db, id, version, now, actor) == Ok(d)
    ensures Moved(db, d, j, false)
    ensures Wrote(db, d, j) <==> j in db.jobs && (id, j) in db.items && db.jobs[j].status.InProgress?
  {
  }

  lemma ReviewMoves(db: Db, input: ReviewInput, now: int, actor: Option<Id>, d: Db, j: Id)
    requires ReviewReport(db, input, now, actor) == Ok(d)
    ensures j in db.jobs ==> Moved(db, d, j, db.jobs[j].status.InProgress?)
    ensures Wrote(db, d, j) <==> j == input.jobId
  {
    ReviewShape(db, input, now, actor, d);
    assert d.jobs[input.jobId].version == db.jobs[input.jobId].version + 1;
  }

  lemma SweepMoves(db: Db, now: int, limit: int, picked: seq<Id>, j: Id)
    requires SweepPicks(db.jobs, now, limit, picked)
    ensures j in db.jobs ==> Moved(db, MarkAllExpired(db, picked), j, db.jobs[j].status.InProgress?)
    ensures Wrote(db, MarkAllExpired(db, picked), j) <==> j in picked
  {
    MarkAllExpiredExact(db, picked);
    if j in picked {
      assert MarkAllExpired(db, picked).jobs[j].version == db.jobs[j].version + 1;
    }
  }

  lemma OthersMoveNothing(db: Db, op: Op, d: Db, j: Id)
    requires !WritesJobs(op) && Apply(db, op) == Ok(d)
    ensures !Wrote(db, d, j)
  {
    hide CreateMission, CreateJobsBulk;
    match op
    case CreateMissionOp(id, m, now, actor) => CreateMissionFrame(db, id, m, now, actor, d);
    case CreateJobsBulkOp(jobs, now, actor) => CreateJobsFrame(db, jobs, now, actor, d);
    case _ =>
  }

  /** The jobs a transaction writes, besides creating new ones. */
  ghost predicate Targets(db: Db, op: Op, j: Id) {
    match op
    case CompleteJobOp(id, _, _, _) => j == id
    case ArchiveJobOp(id, _, _, _) => j == id
    case ActivateJobOp(h, _, _) => j == h.jobId
    case AcceptJobOp(h, _, _) => j == h.jobId
    case ReviewReportOp(review, _, _) => j == review.jobId
    case CreateWindowOp(_, _, _, jobIds, _, _) => j in jobIds
    case SweepOp(_, _, picked) => j in picked
    case CancelWindowOp(id, _, _, _) => j in db.jobs && (id, j) in db.items && db.jobs[j].status.InProgress?
    case _ => false
  }

  /** Over all nineteen transactions: which job rows a committed one writes, and that
      the write is an edge of the transition relation exactly from these statuses. */
  lemma JobWriteLegalIff(db: Db, op: Op, d: Db, j: Id)
    requires Apply(db, op) == Ok(d)
    ensures Wrote(db, d, j) <==> Targets(db, op, j)
    ensures Wrote(db, d, j) ==>
              (db.jobs[j].status.CanMoveTo(d.jobs[j].status) <==> LegalFrom(op, db.jobs[j].status))
  {
    hide CompleteJob, ArchiveJob, HandOver, CreateWindow, CancelWindow, ReviewReport, MarkAllExpired;
    if !WritesJobs(op) {
      OthersMoveNothing(db, op, d, j);
    } else {
      match op
      case CompleteJobOp(id, version, now, actor) => CompletionMoves(db, id, version, now, actor, d, j);
      case ArchiveJobOp(id, version, now, actor) => ArchivalMoves(db, id, version, now, actor, d, j);
      case ActivateJobOp(h, version, actor) =>
        HandOverMoves(db, h, JobStatus.ActivationPending, version, actor, Activation, d, j);
      case AcceptJobOp(h, version, actor) => HandOverMoves(db, h, JobStatus.Accepted, version, actor, Accept, d, j);
      case CreateWindowOp(id, code, capacity, jobIds, now, actor) =>
        AttachMoves(db, id, code, capacity, jobIds, now, actor, d, j);
      case CancelWindowOp(id, version, now, actor) => CancelMoves(db, id, version, now, actor, d, j);
      case ReviewReportOp(review, now, actor) => ReviewMoves(db, review, now, actor, d, j);
      case SweepOp(now, limit, picked) => SweepMoves(db, now, limit, picked, j);
    }
  }

  /** What a caller can check on the tables before the call. */
  ghost predicate Guarded(db: Db, op: Op) {
    match op
    case ActivateJobOp(h, _, _) => h.jobId in db.jobs && db.jobs[h.jobId].status.Completed?
    case AcceptJobOp(h, _, _) => h.jobId in db.jobs && db.jobs[h.jobId].status.ActivationPending?
    case ReviewReportOp(review, _, _) => review.jobId in db.jobs && db.jobs[review.jobId].status.InProgress?
    case SweepOp(_, _, picked) => forall j | j in picked :: j in db.jobs && db.jobs[j].status.InProgress?
    case CancelWindowOp(id, _, _, _) => forall j | j in db.jobs && (id, j) in db.items :: !db.jobs[j].status.InProgress?
    case _ => true
  }

  ghost predicate AllLegal(db: Db, d: Db) {
    forall j | Wrote(db, d, j) :: db.jobs[j].status.CanMoveTo(d.jobs[j].status)
  }

  lemma GuardIsTargets(db: Db, op: Op, d: Db)
    requires Apply(db, op) == Ok(d)
    ensures Guarded(db, op) <==> forall j | Wrote(db, d, j) :: LegalFrom(op, db.jobs[j].status)
  {
    hide Apply;
    forall j ensures Wrote(db, d, j) <==> Targets(db, op, j) {
      JobWriteLegalIff(db, op, d, j);
    }
    match op
    case ActivateJobOp(h, _, _) => assert Targets(db, op, h.jobId);
    case AcceptJobOp(h, _, _) => assert Targets(db, op, h.jobId);
    case ReviewReportOp(review, _, _) => assert Targets(db, op, review.jobId);
    case SweepOp(_, _, picked) => assert forall j | j in picked :: Targets(db, op, j);
    case CancelWindowOp(id, _, _, _) =>
      assert forall j | j in db.jobs && (id, j) in db.items && db.jobs[j].status.InProgress? :: Targets(db, op, j);
    case _ =>
  }

  /** A committed transaction moves every job it writes along an edge exactly when this
      guard held before it: the code leaves it to its callers. */
  lemma TransactionLegalIff(db: Db, op: Op, d: Db)
    requires Apply(db, op) == Ok(d)
    ensures AllLegal(db, d) <==> Guarded(db, op)
  {
    hide Apply;
    GuardIsTargets(db, op, d);
    forall j | Wrote(db, d, j)
      ensures db.jobs[j].status.CanMoveTo(d.jobs[j].status) <==> LegalFrom(op, db.jobs[j].status)
    {
      JobWriteLegalIff(db, op, d, j);
    }
  }
}
