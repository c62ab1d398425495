/** A dead end in the workflow: expiry can leave a running window that can be neither
    completed nor cancelled unless the database clock goes back behind the sweep's. */
module Stranded {
  import opened Prelude
  import opened Status
  import opened Tables
  import opened Transactions
  import opened Workflow
  import opened Frames
  import opened RowSteps
  import opened Finality

  /** Job `j` can no longer be reported on in `w`: it is out of progress, and it
      expired before `now`, so no window will take it again. */
  ghost predicate LostItem(db: Db, w: Id, j: Id, now: int) {
    && (w, j) in db.items && j in db.jobs
    && !db.jobs[j].status.InProgress? && db.jobs[j].expiresAt < now
    && forall r | r in db.reports :: !ReportFor(db.reports, r, w, j)
  }

  /** The window is running, one report keeps it from being cancelled, and a lost
      item keeps it from being completed. */
  ghost predicate IsStranded(db: Db, w: Id, now: int) {
    && w in db.windows && db.windows[w].status.Running?
    && (exists r :: r in db.reports && db.reports[r].windowId == w)
    && (exists j :: LostItem(db, w, j, now))
  }

  /** The database clock of an operation that consults one to attach jobs. */
  ghost predicate NotBefore(op: Op, now: int) {
    op.CreateWindowOp? ==> now <= op.now
  }

  lemma LostJobStaysOut(db: Db, op: Op, d: Db, j: Id, now: int)
    requires NotBefore(op, now) && Apply(db, op) == Ok(d)
    requires j in db.jobs && !db.jobs[j].status.InProgress? && db.jobs[j].expiresAt < now
    ensures j in d.jobs && !d.jobs[j].status.InProgress? && d.jobs[j].expiresAt < now
  {
    ApplySteps(db, op, d);
  }

  /** Only a report about the item itself, which needs its job in progress, could
      report it. */
  lemma LostItemStaysUnreported(db: Db, op: Op, d: Db, w: Id, j: Id, now: int)
    requires LostItem(db, w, j, now) && w in db.windows && Apply(db, op) == Ok(d)
    ensures forall r | r in d.reports :: !ReportFor(d.reports, r, w, j)
  {
    hide CreateWindow, ReviewReport, StartWindow, CompleteWindow, CancelWindow;
    if !TouchesWindows(op) {
      hide Apply;
      OtherOpsLeaveWindows(db, op, d);
    } else {
      match op
      case ReviewReportOp(review, at, actor) => ReviewShape(db, review, at, actor, d);
      case CreateWindowOp(id, code, capacity, jobIds, dbNow, actor) =>
        CreateWindowFrame(db, id, code, capacity, jobIds, dbNow, actor, d);
      case SubmitReportOp(_, _, _, _, _) =>
      case _ => RowChangesKeepReports(db, op, d);
    }
  }

  lemma RowChangesKeepReports(db: Db, op: Op, d: Db)
    requires (op.StartWindowOp? || op.CompleteWindowOp? || op.CancelWindowOp?) && Apply(db, op) == Ok(d)
    ensures d.reports == db.reports
  {
  }

  lemma LostItemBlocksCompletion(db: Db, w: Id, j: Id, now: int)
    requires LostItem(db, w, j, now)
    ensures !AllItemsReviewed(db.items, db.reports, w)
  {
    var p := (w, j);
    assert p in db.items && forall r | r in db.reports :: !ReportFor(db.reports, r, w, p.1);
  }

  lemma OnlyWindowMoves(db: Db, op: Op, d: Db, w: Id)
    requires (op.StartWindowOp? || op.CompleteWindowOp? || op.CancelWindowOp?) && Apply(db, op) == Ok(d)
    requires w in db.windows && db.windows[w].status.Running?
    requires !AllItemsReviewed(db.items, db.reports, w) && exists r :: r in db.reports && db.reports[r].windowId == w
    ensures w in d.windows && d.windows[w].status.Running?
  {
    hide AllItemsReviewed;
  }

  lemma StrandedWindowKeepsRunning(db: Db, op: Op, d: Db, w: Id, now: int)
    requires IsStranded(db, w, now) && Apply(db, op) == Ok(d)
    ensures w in d.windows && d.windows[w].status.Running?
  {
    hide CreateWindow, ReviewReport, StartWindow, CompleteWindow, CancelWindow, AllItemsReviewed;
    var j: Id :| LostItem(db, w, j, now);
    LostItemBlocksCompletion(db, w, j, now);
    if !TouchesWindows(op) {
      hide Apply;
      OtherOpsLeaveWindows(db, op, d);
    } else {
      match op
      case ReviewReportOp(review, at, actor) => ReviewShape(db, review, at, actor, d);
      case CreateWindowOp(id, code, capacity, jobIds, dbNow, actor) =>
        NewWindowLeaves(db, id, code, capacity, jobIds, dbNow, actor, d, w);
      case SubmitReportOp(_, _, _, _, _) =>
      case _ => OnlyWindowMoves(db, op, d, w);
    }
  }

  lemma NewWindowLeaves(db: Db, id: Id, code: string, capacity: int, jobIds: seq<Id>, dbNow: int, actor: Option<Id>,
                        d: Db, w: Id)
    requires CreateWindow(db, id, code, capacity, jobIds, dbNow, actor) == Ok(d) && w in db.windows
    ensures w in d.windows && d.windows[w] == db.windows[w]
  {
    hide Attachable, Distinct;
    AttachItemsExact(InsertWindow(db, id, code, capacity).value, id, jobIds, dbNow);
  }

  lemma ApplyKeepsStranded(db: Db, op: Op, d: Db, w: Id, now: int)
    requires IsStranded(db, w, now) && NotBefore(op, now) && Apply(db, op) == Ok(d)
    ensures IsStranded(d, w, now)
  {
    StrandedWindowKeepsRunning(db, op, d, w, now);
    ApplyFollows(db, op, d);
    var r: Id :| r in db.reports && db.reports[r].windowId == w;
    assert r in d.reports && d.reports[r].windowId == w;
    var j: Id :| LostItem(db, w, j, now);
    LostJobStaysOut(db, op, d, j, now);
    LostItemStaysUnreported(db, op, d, w, j, now);
    assert (w, j) in d.items;
    assert LostItem(d, w, j, now);
  }

  /** From a stranded state no run whose clock does not go back ever completes or
      cancels the window: it stays running for good. */
  lemma {:induction false} StrandedForever(db: Db, ops: seq<Op>, w: Id, now: int)
    requires IsStranded(db, w, now)
    requires forall i | 0 <= i < |ops| :: NotBefore(ops[i], now)
    ensures IsStranded(Run(db, ops), w, now)
    decreases |ops|
  {
    if ops != [] {
      var rest, op := ops[..|ops| - 1], ops[|ops| - 1];
      assert forall i | 0 <= i < |rest| :: rest[i] == ops[i];
      StrandedForever(db, rest, w, now);
      if Apply(Run(db, rest), op).Ok? {
        ApplyKeepsStranded(Run(db, rest), op, Apply(Run(db, rest), op).value, w, now);
      }
    }
  }

  /** The expiry sweep strands every running window that already holds a report and
      still waits for one about a job the sweep picks. */
  lemma SweepStrands(db: Db, now: int, limit: int, picked: seq<Id>, w: Id, j: Id)
    requires SweepPicks(db.jobs, now, limit, picked) && j in picked
    requires w in db.windows && db.windows[w].status.Running? && (w, j) in db.items
    requires exists r :: r in db.reports && db.reports[r].windowId == w
    requires forall r | r in db.reports :: !ReportFor(db.reports, r, w, j)
    ensures IsStranded(Next(db, SweepOp(now, limit, picked)), w, now)
  {
    MarkAllExpiredExact(db, picked);
    var d := Next(db, SweepOp(now, limit, picked));
    assert LostItem(d, w, j, now);
  }
}
