/** Two runs from empty tables: a sweep rejects two jobs of a running window between the
    report on one and the report on the other; a settled incident is opened again. */
module Scenario {
  import opened Prelude
  import opened Status
  import opened Tables
  import opened Transactions
  import opened Workflow
  import opened Frames
  import opened Incidents
  import opened Stranded

  const OPENING: seq<Op> := [
    AddOperatorOp(0, true, None),
    CreateMissionOp(0, MissionInput("MSN-1", 0, 0, 100, [BuoyInput(0, "BUOY-1", 2)]), 0, None),
    CreateJobOp(JobInput(0, 0, 0, "JOB-1", 5), 0, None),
    CreateJobOp(JobInput(1, 0, 0, "JOB-2", 5), 0, None),
    ActivateJobOp(Handover(0, None, 0, 0), 1, None),
    AcceptJobOp(Handover(0, None, 0, 0), 2, None),
    ActivateJobOp(Handover(1, None, 0, 0), 1, None),
    AcceptJobOp(Handover(1, None, 0, 0), 2, None),
    CreateWindowOp(0, "WIN-1", 2, [0, 1], 0, None),
    StartWindowOp(0, 1, 0, None),
    SubmitReportOp(0, 0, 0, 0, None)]

  const SWEEP: Op := SweepOp(10, 2, [0, 1])

  const REVIEW: Op := ReviewReportOp(ReviewInput(0, 0, true, 1, 5, 0), 10, None)

  const MISSIONS: map<Id, Mission> := map[0 := Mission("MSN-1", Draft, 0, 100, 1)]

  const BUOYS: map<Id, Buoy> := map[0 := Buoy(0, "BUOY-1", 2, 0)]

  function JobAt(code: string, status: JobStatus, acceptedAt: Option<int>, version: int): Job {
    Job(0, 0, code, status, None, acceptedAt, 5, version)
  }

  /** Both jobs in one status. */
  function Both(status: JobStatus, version: int): map<Id, Job> {
    map[0 := JobAt("JOB-1", status, Some(0), version), 1 := JobAt("JOB-2", status, Some(0), version)]
  }

  function Rows(jobs: map<Id, Job>, windows: map<Id, Window>, items: set<(Id, Id)>, reports: map<Id, Report>,
                like: Db): Db {
    like.(operators := map[0 := true], missions := MISSIONS, buoys := BUOYS, jobs := jobs, windows := windows,
          items := items, reports := reports, incidents := map[])
  }

  lemma Untrimmed(s: string)
    requires s != "" && !IsSpace(s[0]) && !IsSpace(s[|s| - 1])
    ensures TrimSpace(s) == s
  {
  }

  lemma CodesAreValid()
    ensures ValidCode("MSN-1") && ValidCode("BUOY-1") && ValidCode("JOB-1") && ValidCode("JOB-2") && ValidCode("WIN-1")
  {
    Untrimmed("MSN-1");
    Untrimmed("BUOY-1");
    Untrimmed("JOB-1");
    Untrimmed("JOB-2");
    Untrimmed("WIN-1");
  }

  lemma NotBlank(s: string)
    requires s != "" && !IsSpace(s[0])
    ensures !Blank(s)
  {
  }

  lemma RunNext(ops: seq<Op>, op: Op)
    ensures Run(EMPTY_DB, ops + [op]) == Next(Run(EMPTY_DB, ops), op)
  {
    assert (ops + [op])[..|ops + [op]| - 1] == ops;
  }

  lemma Prefix(n: nat)
    requires n < |OPENING|
    ensures Run(EMPTY_DB, OPENING[..n + 1]) == Next(Run(EMPTY_DB, OPENING[..n]), OPENING[n])
  {
    assert OPENING[..n + 1] == OPENING[..n] + [OPENING[n]];
    RunNext(OPENING[..n], OPENING[n]);
  }

  lemma Founded()
    ensures var db := Run(EMPTY_DB, OPENING[..2]); db == Rows(map[], map[], {}, map[], db)
  {
    hide ValidCode;
    CodesAreValid();
    Prefix(0);
    Prefix(1);
    var input := MissionInput("MSN-1", 0, 0, 100, [BuoyInput(0, "BUOY-1", 2)]);
    var db := Run(EMPTY_DB, OPENING[..1]);
    assert db == EMPTY_DB.(operators := map[0 := true], audits := [AuditEvent(OperatorObject, 0, Create)]);
    var db1 := db.(missions := MISSIONS);
    assert input.buoys[1..] == [];
    assert InsertBuoys(db1, 0, input.buoys) == Ok(db1.(buoys := BUOYS));
    assert CreateMission(db, 0, input, 0, None).Ok?;
  }

  lemma JobPlaced(db: Db, j: Id, code: string)
    requires db == Rows(db.jobs, map[], {}, map[], db) && ValidCode(code) && !Blank(code) && j !in db.jobs
    requires forall k | k in db.jobs :: db.jobs[k].code != code
    ensures var d := Next(db, CreateJobOp(JobInput(j, 0, 0, code, 5), 0, None));
            d == Rows(db.jobs[j := JobAt(code, JobStatus.Queued, None, 1)], map[], {}, map[], d)
  {
    hide ValidCode, Blank;
  }

  lemma FirstPlaced()
    ensures var db := Run(EMPTY_DB, OPENING[..3]);
            db == Rows(map[0 := JobAt("JOB-1", JobStatus.Queued, None, 1)], map[], {}, map[], db)
  {
    hide ValidCode, Blank, Next;
    CodesAreValid();
    NotBlank("JOB-1");
    Founded();
    Prefix(2);
    JobPlaced(Run(EMPTY_DB, OPENING[..2]), 0, "JOB-1");
  }

  lemma Placed()
    ensures var db := Run(EMPTY_DB, OPENING[..4]);
            db == Rows(map[0 := JobAt("JOB-1", JobStatus.Queued, None, 1),
                           1 := JobAt("JOB-2", JobStatus.Queued, None, 1)], map[], {}, map[], db)
  {
    hide ValidCode, Blank, Next;
    CodesAreValid();
    NotBlank("JOB-2");
    FirstPlaced();
    Prefix(3);
    assert "JOB-1" != "JOB-2";
    JobPlaced(Run(EMPTY_DB, OPENING[..3]), 1, "JOB-2");
  }

  /** Activation and acceptance of a queued job, one after the other. */
  lemma TakenUp(db: Db, j: Id, code: string)
    requires db == Rows(db.jobs, map[], {}, map[], db) && j in db.jobs
    requires db.jobs[j] == JobAt(code, JobStatus.Queued, None, 1)
    ensures var h := Handover(j, None, 0, 0);
            var d := Next(Next(db, ActivateJobOp(h, 1, None)), AcceptJobOp(h, 2, None));
            d == Rows(db.jobs[j := JobAt(code, JobStatus.Accepted, Some(0), 3)], map[], {}, map[], d)
  {
    var h := Handover(j, None, 0, 0);
    var mid := Next(db, ActivateJobOp(h, 1, None));
    assert mid.jobs == db.jobs[j := JobAt(code, JobStatus.ActivationPending, None, 2)];
  }

  lemma Accepted()
    ensures var db := Run(EMPTY_DB, OPENING[..8]);
            db == Rows(Both(JobStatus.Accepted, 3),
                       map[], {}, map[], db)
  {
    hide Apply, Next;
    Placed();
    Prefix(4);
    Prefix(5);
    TakenUp(Run(EMPTY_DB, OPENING[..4]), 0, "JOB-1");
    Prefix(6);
    Prefix(7);
    TakenUp(Run(EMPTY_DB, OPENING[..6]), 1, "JOB-2");
  }

  function RunningWindow(): map<Id, Window> {
    map[0 := Window("WIN-1", Running, 2, Some(0), None, 2)]
  }

  lemma BothAttach(db: Db)
    requires db == Rows(Both(JobStatus.Accepted, 3),
                        map[0 := Window("WIN-1", Waiting, 2, None, None, 1)], {}, map[], db)
    ensures var r := AttachItems(db, 0, [0, 1], 0);
            && r.Ok? && r.value == db.(jobs := r.value.jobs, items := r.value.items)
            && r.value.items == {(0, 0), (0, 1)}
            && r.value.jobs == Both(JobStatus.InProgress, 4)
  {
    var ids: seq<Id> := [0, 1];
    assert ids[1..] == [1] && ids[1..][1..] == [];
    var db1 := AttachItem(db, 0, 0, 0).value;
    var db2 := AttachItem(db1, 0, 1, 0).value;
    assert AttachItems(db1, 0, ids[1..], 0) == Ok(db2);
  }

  lemma Manned()
    ensures var db := Run(EMPTY_DB, OPENING[..9]);
            db == Rows(Both(JobStatus.InProgress, 4),
                       map[0 := Window("WIN-1", Waiting, 2, None, None, 1)], {(0, 0), (0, 1)}, map[], db)
  {
    hide ValidCode, CreateMission, CreateJobsBulk, ReviewReport, SweepPicks, MarkAllExpired;
    CodesAreValid();
    Accepted();
    Prefix(8);
    var db := Run(EMPTY_DB, OPENING[..8]);
    var ids: seq<Id> := [0, 1];
    var db1 := db.(windows := map[0 := Window("WIN-1", Waiting, 2, None, None, 1)]);
    assert InsertWindow(db, 0, "WIN-1", 2) == Ok(db1);
    hide AttachItems;
    BothAttach(db1);
    assert CreateWindow(db, 0, "WIN-1", 2, ids, 0, None).Ok?;
  }

  lemma Underway()
    ensures var db := Run(EMPTY_DB, OPENING[..10]);
            db == Rows(Both(JobStatus.InProgress, 4),
                       RunningWindow(), {(0, 0), (0, 1)}, map[], db)
  {
    Manned();
    Prefix(9);
  }

  lemma Reported()
    ensures var db := Run(EMPTY_DB, OPENING);
            db == Rows(Both(JobStatus.InProgress, 4),
                       RunningWindow(), {(0, 0), (0, 1)}, map[0 := Report(0, 0, ReportStatus.Pending, None, 1)], db)
  {
    hide ValidCode, CreateMission, CreateJobsBulk, CreateWindow, ReviewReport, SweepPicks, MarkAllExpired;
    Underway();
    Prefix(10);
    assert OPENING[..11] == OPENING;
  }

  lemma SweepPicksBoth()
    ensures SweepPicks(Run(EMPTY_DB, OPENING).jobs, 10, 2, [0, 1])
  {
    Reported();
    var jobs := Run(EMPTY_DB, OPENING).jobs;
    assert OverdueJobs(jobs, 10) == {0, 1};
  }

  lemma BothMarked(db: Db)
    requires db.jobs.Keys == {0, 1}
    requires db.jobs[0] == JobAt("JOB-1", JobStatus.InProgress, Some(0), 4)
    requires db.jobs[1] == JobAt("JOB-2", JobStatus.InProgress, Some(0), 4)
    ensures var d := MarkAllExpired(db, [0, 1]);
            d == db.(audits := d.audits,
                     jobs := Both(JobStatus.Rejected, 5))
  {
    MarkAllExpiredExact(db, [0, 1]);
  }

  lemma SweepCommits(db: Db)
    requires SweepPicks(db.jobs, 10, 2, [0, 1])
    ensures Next(db, SWEEP) == MarkAllExpired(db, [0, 1])
  {
    hide MarkAllExpired, SweepPicks;
  }

  lemma Swept()
    ensures var db := Run(EMPTY_DB, OPENING + [SWEEP]);
            db == Rows(Both(JobStatus.Rejected, 5),
                       RunningWindow(), {(0, 0), (0, 1)}, map[0 := Report(0, 0, ReportStatus.Pending, None, 1)], db)
  {
    hide MarkAllExpired, SweepPicks, Next;
    Reported();
    SweepPicksBoth();
    RunNext(OPENING, SWEEP);
    SweepCommits(Run(EMPTY_DB, OPENING));
    BothMarked(Run(EMPTY_DB, OPENING));
  }

  /** The sweep of this run strands its window. */
  lemma RunStrands()
    ensures !IsStranded(Run(EMPTY_DB, OPENING), 0, 10)
    ensures IsStranded(Run(EMPTY_DB, OPENING + [SWEEP]), 0, 10)
  {
    Reported();
    Swept();
    var db := Run(EMPTY_DB, OPENING + [SWEEP]);
    assert 0 in db.reports && db.reports[0].windowId == 0;
    assert LostItem(db, 0, 1, 10);
    var before := Run(EMPTY_DB, OPENING);
    assert forall j: Id :: !LostItem(before, 0, j, 10);
  }

  /** The review after it takes the swept job from rejected to verified, which is no edge. */
  lemma RunRevivesRejected()
    ensures var before, after := Run(EMPTY_DB, OPENING + [SWEEP]), Run(EMPTY_DB, OPENING + [SWEEP] + [REVIEW]);
            && 0 in before.jobs && before.jobs[0].status.Rejected?
            && 0 in after.jobs && after.jobs[0].status.Verified?
            && !before.jobs[0].status.CanMoveTo(after.jobs[0].status)
  {
    Swept();
    RunNext(OPENING + [SWEEP], REVIEW);
  }

  // ---------- An incident opened twice ----------

  function Reopening(id: Id): Op {
    OpenIncidentOp(id, 0, SafetyAdjustment, None, 0, None)
  }

  const REOPENING: seq<Op> := [Reopening(0), CloseIncidentOp(0, None), Reopening(1)]

  function IncidentAt(status: IncidentStatus): Incident {
    Incident(0, SafetyAdjustment, status, 72 * HOUR)
  }

  lemma Opens(db: Db, id: Id)
    requires 0 in db.jobs && id !in db.incidents
    requires forall i | i in db.incidents :: !db.incidents[i].status.Opened?
    ensures var d := Next(db, Reopening(id));
            d == db.(incidents := db.incidents[id := IncidentAt(Opened)], audits := d.audits)
  {
    assert Apply(db, Reopening(id)) == OpenIncident(db, id, 0, SafetyAdjustment, None, 0, None);
  }

  lemma Closes(db: Db)
    requires db.incidents == map[0 := IncidentAt(Opened)]
    ensures var d := Next(db, CloseIncidentOp(0, None));
            d == db.(incidents := map[0 := IncidentAt(Settled)], audits := d.audits)
  {
    assert Apply(db, CloseIncidentOp(0, None)) == CloseIncident(db, 0, None);
  }

  lemma RunThree(db: Db, a: Op, b: Op, c: Op)
    ensures Run(db, [a, b, c]) == Next(Next(Next(db, a), b), c)
  {
    hide Next;
    assert [a, b, c][..2] == [a, b] && [a, b][..1] == [a] && [a][..0] == [];
    assert Run(db, [a]) == Next(db, a);
    assert Run(db, [a, b]) == Next(Next(db, a), b);
  }

  /** An incident is opened, settled and opened again: the second can never be settled. */
  lemma RunSticksIncident()
    ensures var db := Run(EMPTY_DB, OPENING[..4] + REOPENING);
            && db.incidents == map[0 := IncidentAt(Settled), 1 := IncidentAt(Opened)]
            && Stuck(db.incidents, 1) && !CanSettle(db, 1)
  {
    hide Next;
    Placed();
    RunAppend(EMPTY_DB, OPENING[..4], REOPENING);
    var placed := Run(EMPTY_DB, OPENING[..4]);
    RunThree(placed, Reopening(0), CloseIncidentOp(0, None), Reopening(1));
    Opens(placed, 0);
    Closes(Next(placed, Reopening(0)));
    Opens(Next(Next(placed, Reopening(0)), CloseIncidentOp(0, None)), 1);
    var db := Run(EMPTY_DB, OPENING[..4] + REOPENING);
    assert db.incidents[0].status.Settled?;
    SettleableIff(db, 1);
  }
}
