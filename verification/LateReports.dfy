/** Reports inserted some time after their target was checked: the insert does not repeat
    the check, so the window may have been cancelled in between. */
module LateReports {
  import opened Prelude
  import opened Status
  import opened Tables
  import opened Transactions
  import opened Workflow
  import opened Frames
  import opened Finality
  import Scenario

  datatype Submission = Submission(id: Id, jobId: Id, windowId: Id, recorder: Id, actor: Option<Id>)

  predicate TargetChecked(db: Db, s: Submission) {
    && ReportTargetError(db, s.jobId, s.windowId).None?
    && s.recorder in db.operators && db.operators[s.recorder]
  }

  /** What a submission still does after its checks. */
  function Record(db: Db, s: Submission): Result<Db, Error> {
    var db1 :- InsertReport(db, s.id, s.jobId, s.windowId, s.recorder);
    WriteAudit(db1, s.actor, ReportObject, s.id, Action.Record)
  }

  /** The two halves run back to back are the submission. */
  lemma CheckedThenRecorded(db: Db, s: Submission)
    ensures var whole := SubmitReport(db, s.id, s.jobId, s.windowId, s.recorder, s.actor);
            if TargetChecked(db, s) then whole == Record(db, s) else whole.Err?
  {
  }

  /** Whatever transactions run between check and insert, an insert that goes through keeps
      the workflow's invariant. */
  ghost predicate AlwaysKeeps(db: Db, s: Submission) {
    forall ops | Record(Run(db, ops), s).Ok? :: Invariant(Record(Run(db, ops), s).value)
  }

  ghost predicate HasReport(reports: map<Id, Report>, w: Id) {
    exists r :: r in reports && reports[r].windowId == w
  }

  lemma {:induction false} RunKeeps(db: Db, ops: seq<Op>)
    requires Invariant(db)
    ensures Invariant(Run(db, ops))
    decreases |ops|
  {
    hide Invariant;
    if ops != [] {
      var mid, op := Run(db, ops[..|ops| - 1]), ops[|ops| - 1];
      RunKeeps(db, ops[..|ops| - 1]);
      if Apply(mid, op).Ok? {
        ApplyKeepsInvariant(mid, op, Apply(mid, op).value);
      }
    }
  }

  /** A window with one report and an unreported item is running. */
  lemma StillRunning(db: Db, s: Submission)
    requires Invariant(db) && HasReport(db.reports, s.windowId) && (s.windowId, s.jobId) in db.items
    requires InsertReport(db, s.id, s.jobId, s.windowId, s.recorder).Ok?
    ensures s.windowId in db.windows && db.windows[s.windowId].status.Running?
  {
    var p := (s.windowId, s.jobId);
    assert p in db.items && forall r | r in db.reports :: !ReportFor(db.reports, r, s.windowId, p.1);
    assert !AllItemsReviewed(db.items, db.reports, s.windowId);
    var r :| r in db.reports && db.reports[r].windowId == s.windowId;
  }

  lemma RecordKeeps(db: Db, s: Submission)
    requires Invariant(db) && HasReport(db.reports, s.windowId) && (s.windowId, s.jobId) in db.items
    requires Record(db, s).Ok?
    ensures Invariant(Record(db, s).value)
  {
    hide Core, HasReport;
    StillRunning(db, s);
    var mid := InsertReport(db, s.id, s.jobId, s.windowId, s.recorder).value;
    InsertReportKeepsCore(db, s.id, s.jobId, s.windowId, s.recorder);
    assert Invariant(mid);
    LogKeepsInvariant(mid, Record(db, s).value);
  }

  lemma StillReported(db: Db, d: Db, w: Id)
    requires Follows(db, d) && HasReport(db.reports, w)
    ensures HasReport(d.reports, w)
  {
    var r :| r in db.reports && db.reports[r].windowId == w;
    assert r in d.reports && d.reports[r].windowId == w;
  }

  /** Rivals: the actor is registered, if it was not, and the window is cancelled. */
  function Rivals(db: Db, s: Submission): seq<Op>
    requires s.windowId in db.windows
  {
    [AddOperatorOp(if s.actor.Some? then s.actor.value else 0, true, None),
     CancelWindowOp(s.windowId, db.windows[s.windowId].version, 0, None)]
  }

  lemma Registered(db: Db, id: Id)
    ensures var d := Next(db, AddOperatorOp(id, true, None));
            && id in d.operators && db.operators.Keys <= d.operators.Keys
            && d == db.(operators := d.operators, audits := d.audits)
  {
    assert Apply(db, AddOperatorOp(id, true, None)) == AddOperator(db, id, true, None);
  }

  lemma UnreportedCancelled(db: Db, w: Id)
    requires w in db.windows && db.windows[w].status.Open() && !HasReport(db.reports, w)
    ensures var d := Next(db, CancelWindowOp(w, db.windows[w].version, 0, None));
            && w in d.windows && d.windows[w].status.Cancelled?
            && d == db.(windows := d.windows, jobs := d.jobs, audits := d.audits) && d.jobs.Keys == db.jobs.Keys
  {
    assert Apply(db, CancelWindowOp(w, db.windows[w].version, 0, None))
        == CancelWindow(db, w, db.windows[w].version, 0, None);
  }

  lemma CancelledReported(db: Db, s: Submission)
    requires s.windowId in db.windows && db.windows[s.windowId].status.Cancelled? && s.jobId in db.jobs
    requires !HasReport(db.reports, s.windowId) && s.id !in db.reports && s.recorder in db.operators
    requires s.actor.Some? ==> s.actor.value in db.operators
    ensures Record(db, s).Ok? && !Invariant(Record(db, s).value)
  {
    assert forall r | r in db.reports :: !ReportFor(db.reports, r, s.windowId, s.jobId);
    var d := Record(db, s).value;
    assert s.id in d.reports && d.reports[s.id].windowId == s.windowId;
    assert !WindowHistory(d);
  }

  lemma RivalsCancel(db: Db, s: Submission)
    requires TargetChecked(db, s) && s.id !in db.reports && !HasReport(db.reports, s.windowId)
    ensures var d := Run(db, Rivals(db, s)); Record(d, s).Ok? && !Invariant(Record(d, s).value)
  {
    hide Next, Record, Invariant, HasReport;
    var rivals := Rivals(db, s);
    assert rivals[..1] == [rivals[0]] && rivals[..1][..0] == [];
    assert Run(db, rivals[..1]) == Next(db, rivals[0]);
    Registered(db, rivals[0].id);
    UnreportedCancelled(Next(db, rivals[0]), s.windowId);
    CancelledReported(Next(Next(db, rivals[0]), rivals[1]), s);
  }

  /** A report whose target was just checked keeps the invariant, whatever transactions run
      before it is inserted, exactly when its window has some report already: only then can
      the window no longer be cancelled. */
  lemma LateReportKeepsIff(db: Db, s: Submission)
    requires Invariant(db) && TargetChecked(db, s) && s.id !in db.reports
    ensures AlwaysKeeps(db, s) <==> HasReport(db.reports, s.windowId)
  {
    hide Invariant, HasReport, Follows, Record;
    if HasReport(db.reports, s.windowId) {
      forall ops | Record(Run(db, ops), s).Ok?
        ensures Invariant(Record(Run(db, ops), s).value)
      {
        RunKeeps(db, ops);
        RunFollows(db, ops);
        StillReported(db, Run(db, ops), s.windowId);
        ItemStays(db, Run(db, ops), (s.windowId, s.jobId));
        RecordKeeps(Run(db, ops), s);
      }
    } else {
      RivalsCancel(db, s);
    }
  }

  lemma ItemStays(db: Db, d: Db, p: (Id, Id))
    requires Follows(db, d) && p in db.items
    ensures p in d.items
  {
  }

  const LATE: Submission := Submission(0, 0, 0, 0, None)

  /** A run from empty tables: the target is checked, the window cancelled, the report
      recorded all the same, in a cancelled window. */
  lemma RunReportsCancelled()
    ensures var before := Run(EMPTY_DB, Scenario.OPENING[..10]);
            var after := Run(EMPTY_DB, Scenario.OPENING[..10] + [CancelWindowOp(0, 2, 0, None)]);
            && TargetChecked(before, LATE) && Record(after, LATE).Ok?
            && 0 in after.windows && after.windows[0].status.Cancelled? && !Invariant(Record(after, LATE).value)
  {
    hide Next, Invariant, Record;
    Scenario.Underway();
    var before := Run(EMPTY_DB, Scenario.OPENING[..10]);
    Scenario.RunNext(Scenario.OPENING[..10], CancelWindowOp(0, 2, 0, None));
    UnreportedCancelled(before, 0);
    CancelledReported(Next(before, CancelWindowOp(0, 2, 0, None)), LATE);
  }
}
