/** What never changes again: closed windows, item lists and reviewed reports. */
module Finality {
  import opened Prelude
  import opened Status
  import opened Tables
  import opened Transactions
  import opened Workflow
  import opened Frames

  /** `later` may follow `earlier`: rows persist, item lists are frozen, and
      finished windows and reviewed reports are untouched. */
  ghost predicate Follows(earlier: Db, later: Db) {
    && (forall w | w in earlier.windows ::
          && w in later.windows
          && later.windows[w].capacity == earlier.windows[w].capacity
          && (!earlier.windows[w].status.Open() ==> later.windows[w] == earlier.windows[w]))
    && (forall p | p in earlier.items :: p in later.items)
    && (forall p | p in later.items && p.0 in earlier.windows :: p in earlier.items)
    && (forall r | r in earlier.reports ::
          && r in later.reports
          && later.reports[r].jobId == earlier.reports[r].jobId
          && later.reports[r].windowId == earlier.reports[r].windowId
          && (!earlier.reports[r].status.Pending? ==> later.reports[r] == earlier.reports[r]))
  }

  lemma UntouchedTablesFollow(db: Db, d: Db)
    requires d.windows == db.windows && d.items == db.items && d.reports == db.reports
    ensures Follows(db, d)
  {
  }

  lemma CreateWindowFollows(db: Db, id: Id, code: string, capacity: int, jobIds: seq<Id>, now: int, actor: Option<Id>,
                            d: Db)
    requires CreateWindow(db, id, code, capacity, jobIds, now, actor) == Ok(d)
    ensures Follows(db, d)
  {
    AttachItemsExact(InsertWindow(db, id, code, capacity).value, id, jobIds, now);
  }

  lemma ReviewFollows(db: Db, input: ReviewInput, now: int, actor: Option<Id>, d: Db)
    requires ReviewReport(db, input, now, actor) == Ok(d)
    ensures Follows(db, d)
  {
    ReviewShape(db, input, now, actor, d);
  }

  predicate TouchesWindows(op: Op) {
    || op.CreateWindowOp? || op.StartWindowOp? || op.CompleteWindowOp? || op.CancelWindowOp?
    || op.SubmitReportOp? || op.ReviewReportOp?
  }

  lemma OtherOpsLeaveWindows(db: Db, op: Op, d: Db)
    requires !TouchesWindows(op) && Apply(db, op) == Ok(d)
    ensures d.windows == db.windows && d.items == db.items && d.reports == db.reports
  {
    hide CreateMission, CreateJobsBulk, SweepPicks, MarkAllExpired;
    match op
    case CreateMissionOp(id, m, now, actor) => CreateMissionFrame(db, id, m, now, actor, d);
    case CreateJobsBulkOp(jobs, now, actor) => CreateJobsFrame(db, jobs, now, actor, d);
    case SweepOp(now, limit, picked) => SweepFrame(db, now, limit, picked);
    case _ =>
  }

  lemma StartFollows(db: Db, id: Id, version: int, now: int, actor: Option<Id>, d: Db)
    requires StartWindow(db, id, version, now, actor) == Ok(d)
    ensures Follows(db, d)
  {
  }

  lemma CompleteFollows(db: Db, id: Id, version: int, now: int, actor: Option<Id>, d: Db)
    requires CompleteWindow(db, id, version, now, actor) == Ok(d)
    ensures Follows(db, d)
  {
  }

  lemma CancelFollows(db: Db, id: Id, version: int, now: int, actor: Option<Id>, d: Db)
    requires CancelWindow(db, id, version, now, actor) == Ok(d)
    ensures Follows(db, d)
  {
  }

  lemma SubmitFollows(db: Db, id: Id, jobId: Id, windowId: Id, recorder: Id, actor: Option<Id>, d: Db)
    requires SubmitReport(db, id, jobId, windowId, recorder, actor) == Ok(d)
    ensures Follows(db, d)
  {
  }

  lemma ApplyFollows(db: Db, op: Op, d: Db)
    requires Apply(db, op) == Ok(d)
    ensures Follows(db, d)
  {
    hide Follows, CreateWindow, StartWindow, CompleteWindow, CancelWindow, SubmitReport, ReviewReport;
    if !TouchesWindows(op) {
      hide Apply;
      OtherOpsLeaveWindows(db, op, d);
      UntouchedTablesFollow(db, d);
    } else {
      match op
      case CreateWindowOp(id, code, capacity, jobIds, now, actor) =>
        CreateWindowFollows(db, id, code, capacity, jobIds, now, actor, d);
      case StartWindowOp(id, version, now, actor) => StartFollows(db, id, version, now, actor, d);
      case CompleteWindowOp(id, version, now, actor) => CompleteFollows(db, id, version, now, actor, d);
      case CancelWindowOp(id, version, now, actor) => CancelFollows(db, id, version, now, actor, d);
      case SubmitReportOp(id, jobId, windowId, recorder, actor) =>
        SubmitFollows(db, id, jobId, windowId, recorder, actor, d);
      case ReviewReportOp(review, now, actor) => ReviewFollows(db, review, now, actor, d);
    }
  }

  lemma {:induction false} RunFollows(db: Db, ops: seq<Op>)
    ensures Follows(db, Run(db, ops))
    decreases |ops|
  {
    if ops != [] {
      var mid, op := Run(db, ops[..|ops| - 1]), ops[|ops| - 1];
      RunFollows(db, ops[..|ops| - 1]);
      if Apply(mid, op).Ok? {
        ApplyFollows(mid, op, Apply(mid, op).value);
      }
    }
  }

  /** Once a window is completed, forever after its row is the same, its items
      are the same, and every item has the same reviewed report. */
  lemma CompletedWindowIsFinal(ops: seq<Op>, more: seq<Op>, w: Id)
    requires var db := Run(EMPTY_DB, ops); w in db.windows && db.windows[w].status.Done?
    ensures var db, later := Run(EMPTY_DB, ops), Run(EMPTY_DB, ops + more);
            && w in later.windows && later.windows[w] == db.windows[w]
            && ItemsOf(later.items, w) == ItemsOf(db.items, w) != {}
            && (forall p | p in ItemsOf(db.items, w) ::
                  exists r :: && ReportFor(db.reports, r, w, p.1) && !db.reports[r].status.Pending?
                              && r in later.reports && later.reports[r] == db.reports[r])
  {
    var db := Run(EMPTY_DB, ops);
    RunAppend(EMPTY_DB, ops, more);
    RunFollows(db, more);
    RunKeepsInvariant(ops);
    var later := Run(db, more);
    assert |ItemsOf(db.items, w)| >= 1;
    forall p | p in ItemsOf(db.items, w)
      ensures exists r :: && ReportFor(db.reports, r, w, p.1) && !db.reports[r].status.Pending?
                          && r in later.reports && later.reports[r] == db.reports[r]
    {
      var r :| r in db.reports && ReportFor(db.reports, r, w, p.1);
      assert later.reports[r] == db.reports[r];
    }
  }

  /** A cancelled window stays cancelled and no report about it ever exists,
      before or after the cancellation. */
  lemma CancelledWindowIsFinal(ops: seq<Op>, more: seq<Op>, w: Id)
    requires var db := Run(EMPTY_DB, ops); w in db.windows && db.windows[w].status.Cancelled?
    ensures var db, later := Run(EMPTY_DB, ops), Run(EMPTY_DB, ops + more);
            && w in later.windows && later.windows[w] == db.windows[w]
            && forall r | r in later.reports :: later.reports[r].windowId != w
  {
    RunAppend(EMPTY_DB, ops, more);
    RunFollows(Run(EMPTY_DB, ops), more);
    RunKeepsInvariant(ops + more);
  }

  // ---------- What is not final ----------

  ghost predicate Reopens(db: Db, op: Op, j: Id) {
    var r := Apply(db, op);
    r.Ok? && j in r.value.jobs && r.value.jobs[j].status.ActivationPending?
  }

  /** No job status is final: whatever a job's status, archived included, someone who
      knows its version can put it back to activation pending. */
  lemma NoJobStatusIsFinal(db: Db, j: Id, agent: Id)
    requires j in db.jobs && agent in db.operators
    ensures exists op :: Reopens(db, op, j)
  {
    assert Reopens(db, ActivateJobOp(Handover(j, None, agent, 0), db.jobs[j].version, None), j);
  }
}
