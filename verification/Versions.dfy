/** The version a caller sends with a move: it is the version of the row, so of all moves that
    carry one version of one row at most one commits. */
module Versions {
  import opened Prelude
  import opened Status
  import opened Tables
  import opened Transactions
  import opened Workflow
  import opened Frames
  import opened RowSteps
  import opened Finality

  /** The rows that have a version. */
  datatype Row = MissionRow(id: Id) | JobRow(id: Id) | WindowRow(id: Id) | ReportRow(id: Id)

  function VersionOf(db: Db, row: Row): Option<int> {
    match row
    case MissionRow(id) => if id in db.missions then Some(db.missions[id].version) else None
    case JobRow(id) => if id in db.jobs then Some(db.jobs[id].version) else None
    case WindowRow(id) => if id in db.windows then Some(db.windows[id].version) else None
    case ReportRow(id) => if id in db.reports then Some(db.reports[id].version) else None
  }

  /** The caller sends `version` for `row` with this operation. */
  predicate Carries(op: Op, row: Row, version: int) {
    match op
    case AdvanceMissionOp(id, _, v, _) => row == MissionRow(id) && version == v
    case CompleteJobOp(id, v, _, _) => row == JobRow(id) && version == v
    case ArchiveJobOp(id, v, _, _) => row == JobRow(id) && version == v
    case ActivateJobOp(h, v, _) => row == JobRow(h.jobId) && version == v
    case AcceptJobOp(h, v, _) => row == JobRow(h.jobId) && version == v
    case StartWindowOp(id, v, _, _) => row == WindowRow(id) && version == v
    case CompleteWindowOp(id, v, _, _) => row == WindowRow(id) && version == v
    case CancelWindowOp(id, v, _, _) => row == WindowRow(id) && version == v
    case ReviewReportOp(input, _, _) =>
      || (row == ReportRow(input.reportId) && version == input.reportVersion)
      || (row == JobRow(input.jobId) && version == input.jobVersion)
    case _ => false
  }

  ghost predicate MovedOn(db: Db, d: Db, row: Row, version: int) {
    VersionOf(db, row) == Some(version) && VersionOf(d, row) == Some(version + 1)
  }

  lemma WindowMoveIsCurrent(db: Db, op: Op, d: Db)
    requires (op.StartWindowOp? || op.CompleteWindowOp? || op.CancelWindowOp?) && Apply(db, op) == Ok(d)
    ensures MovedOn(db, d, WindowRow(op.id), op.version)
  {
  }

  lemma JobMoveIsCurrent(db: Db, op: Op, d: Db)
    requires (op.CompleteJobOp? || op.ArchiveJobOp?) && Apply(db, op) == Ok(d)
    ensures MovedOn(db, d, JobRow(op.id), op.version)
  {
  }

  lemma HandOverIsCurrent(db: Db, op: Op, d: Db)
    requires (op.ActivateJobOp? || op.AcceptJobOp?) && Apply(db, op) == Ok(d)
    ensures MovedOn(db, d, JobRow(op.handover.jobId), op.version)
  {
  }

  lemma AdvanceIsCurrent(db: Db, op: Op, d: Db)
    requires op.AdvanceMissionOp? && Apply(db, op) == Ok(d)
    ensures MovedOn(db, d, MissionRow(op.id), op.version)
  {
  }

  lemma ReviewedRows(db: Db, input: ReviewInput, now: int, actor: Option<Id>, d: Db)
    requires ReviewReport(db, input, now, actor) == Ok(d)
    ensures input.reportId in db.reports && db.reports[input.reportId].version == input.reportVersion
    ensures input.jobId in db.jobs && db.jobs[input.jobId].version == input.jobVersion
  {
    hide EscalateRefusal, WriteAudit;
  }

  lemma ReviewIsCurrent(db: Db, op: Op, d: Db)
    requires op.ReviewReportOp? && Apply(db, op) == Ok(d)
    ensures MovedOn(db, d, ReportRow(op.review.reportId), op.review.reportVersion)
    ensures MovedOn(db, d, JobRow(op.review.jobId), op.review.jobVersion)
  {
    hide ReviewReport;
    ReviewedRows(db, op.review, op.now, op.actor, d);
    ReviewShape(db, op.review, op.now, op.actor, d);
  }

  /** Whatever the operation, it commits only under the versions its rows have, and raises each by one. */
  lemma CommitsUnderCurrent(db: Db, op: Op, d: Db, row: Row, version: int)
    requires Apply(db, op) == Ok(d) && Carries(op, row, version)
    ensures MovedOn(db, d, row, version)
  {
    hide Apply, MovedOn;
    match op
    case AdvanceMissionOp(_, _, _, _) => AdvanceIsCurrent(db, op, d);
    case CompleteJobOp(_, _, _, _) => JobMoveIsCurrent(db, op, d);
    case ArchiveJobOp(_, _, _, _) => JobMoveIsCurrent(db, op, d);
    case ActivateJobOp(_, _, _) => HandOverIsCurrent(db, op, d);
    case AcceptJobOp(_, _, _) => HandOverIsCurrent(db, op, d);
    case StartWindowOp(_, _, _, _) => WindowMoveIsCurrent(db, op, d);
    case CompleteWindowOp(_, _, _, _) => WindowMoveIsCurrent(db, op, d);
    case CancelWindowOp(_, _, _, _) => WindowMoveIsCurrent(db, op, d);
    case ReviewReportOp(_, _, _) => ReviewIsCurrent(db, op, d);
    case _ =>
  }

  // ---------- Rows of unchanged version ----------

  ghost predicate WindowNotBehind(earlier: Window, later: Window) {
    && earlier.version <= later.version && (earlier.version == later.version ==> earlier == later)
    && later.code == earlier.code && later.capacity == earlier.capacity
  }

  ghost predicate ReportNotBehind(earlier: Report, later: Report) {
    earlier.version <= later.version && (earlier.version == later.version ==> earlier == later)
  }

  ghost predicate WindowRowsStep(db: Db, d: Db) {
    && (forall w | w in db.windows :: w in d.windows && WindowNotBehind(db.windows[w], d.windows[w]))
    && (forall r | r in db.reports :: r in d.reports && ReportNotBehind(db.reports[r], d.reports[r]))
  }

  lemma SameRowsStep(db: Db, d: Db)
    requires d.windows == db.windows && d.reports == db.reports
    ensures WindowRowsStep(db, d)
  {
  }

  lemma NewWindowStep(db: Db, id: Id, code: string, capacity: int, jobIds: seq<Id>, now: int, actor: Option<Id>, d: Db)
    requires CreateWindow(db, id, code, capacity, jobIds, now, actor) == Ok(d)
    ensures WindowRowsStep(db, d)
  {
    hide Attachable, Distinct;
    AttachItemsExact(InsertWindow(db, id, code, capacity).value, id, jobIds, now);
  }

  lemma WindowMoveStep(db: Db, op: Op, d: Db)
    requires (op.StartWindowOp? || op.CompleteWindowOp? || op.CancelWindowOp?) && Apply(db, op) == Ok(d)
    ensures WindowRowsStep(db, d)
  {
  }

  lemma SubmitStep(db: Db, id: Id, jobId: Id, windowId: Id, recorder: Id, actor: Option<Id>, d: Db)
    requires SubmitReport(db, id, jobId, windowId, recorder, actor) == Ok(d)
    ensures WindowRowsStep(db, d)
  {
  }

  lemma ReviewStep(db: Db, input: ReviewInput, now: int, actor: Option<Id>, d: Db)
    requires ReviewReport(db, input, now, actor) == Ok(d)
    ensures WindowRowsStep(db, d)
  {
    ReviewShape(db, input, now, actor, d);
  }

  lemma ApplyStepsWindowRows(db: Db, op: Op, d: Db)
    requires Apply(db, op) == Ok(d)
    ensures WindowRowsStep(db, d)
  {
    hide WindowRowsStep, CreateWindow, StartWindow, CompleteWindow, CancelWindow, SubmitReport, ReviewReport;
    if !TouchesWindows(op) {
      hide Apply;
      OtherOpsLeaveWindows(db, op, d);
      SameRowsStep(db, d);
    } else {
      match op
      case CreateWindowOp(id, code, capacity, jobIds, now, actor) =>
        NewWindowStep(db, id, code, capacity, jobIds, now, actor, d);
      case SubmitReportOp(id, jobId, windowId, recorder, actor) =>
        SubmitStep(db, id, jobId, windowId, recorder, actor, d);
      case ReviewReportOp(review, now, actor) => ReviewStep(db, review, now, actor, d);
      case _ => WindowMoveStep(db, op, d);
    }
  }

  lemma StepTwice(a: Db, b: Db, c: Db)
    requires WindowRowsStep(a, b) && WindowRowsStep(b, c)
    ensures WindowRowsStep(a, c)
  {
  }

  /** Over any run a window or report row that still has its version is still the same row. */
  lemma {:induction false} EqualVersionsMeanEqualRows(db: Db, ops: seq<Op>)
    ensures WindowRowsStep(db, Run(db, ops))
    decreases |ops|
  {
    if ops == [] {
      SameRowsStep(db, db);
    } else {
      hide Apply, WindowRowsStep;
      var rest, op := ops[..|ops| - 1], ops[|ops| - 1];
      EqualVersionsMeanEqualRows(db, rest);
      if Apply(Run(db, rest), op).Ok? {
        ApplyStepsWindowRows(Run(db, rest), op, Apply(Run(db, rest), op).value);
        StepTwice(db, Run(db, rest), Apply(Run(db, rest), op).value);
      }
    }
  }

  // ---------- At most one commit for each version ----------

  ghost predicate NotLowered(db: Db, d: Db, row: Row) {
    VersionOf(db, row).Some? ==> VersionOf(d, row).Some? && VersionOf(db, row).value <= VersionOf(d, row).value
  }

  lemma ApplyDoesNotLower(db: Db, op: Op, d: Db, row: Row)
    requires Apply(db, op) == Ok(d)
    ensures NotLowered(db, d, row)
  {
    hide Apply;
    ApplySteps(db, op, d);
    ApplyStepsWindowRows(db, op, d);
  }

  lemma {:induction false} RunDoesNotLower(db: Db, ops: seq<Op>, row: Row)
    ensures NotLowered(db, Run(db, ops), row)
    decreases |ops|
  {
    if ops != [] {
      hide Apply, VersionOf;
      var rest, op := ops[..|ops| - 1], ops[|ops| - 1];
      RunDoesNotLower(db, rest, row);
      if Apply(Run(db, rest), op).Ok? {
        ApplyDoesNotLower(Run(db, rest), op, Apply(Run(db, rest), op).value, row);
      }
    }
  }

  ghost predicate CommitsAt(db: Db, ops: seq<Op>, i: nat)
    requires i < |ops|
  {
    Apply(Run(db, ops[..i]), ops[i]).Ok?
  }

  /** Of all operations of a run that carry one version of one row, whatever they do to it, at
      most one commits. */
  lemma OneCommitPerVersion(db: Db, ops: seq<Op>, row: Row, version: int, i: nat, k: nat)
    requires i < k < |ops| && Carries(ops[i], row, version) && Carries(ops[k], row, version)
    requires CommitsAt(db, ops, i)
    ensures !CommitsAt(db, ops, k)
  {
    hide Apply, Carries, VersionOf;
    var before, after, later := Run(db, ops[..i]), Run(db, ops[..i + 1]), Run(db, ops[..k]);
    assert ops[..i + 1][..i] == ops[..i];
    CommitsUnderCurrent(before, ops[i], after, row, version);
    assert ops[..i + 1] + ops[i + 1..k] == ops[..k];
    RunAppend(db, ops[..i + 1], ops[i + 1..k]);
    RunDoesNotLower(after, ops[i + 1..k], row);
    if CommitsAt(db, ops, k) {
      CommitsUnderCurrent(later, ops[k], Apply(later, ops[k]).value, row, version);
    }
  }
}
