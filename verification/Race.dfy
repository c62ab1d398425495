/** One interleaved run from empty tables: a client whose version is one ahead completes a
    job that a rival has completed since it was read. */
module Race {
  import opened Prelude
  import opened Status
  import opened Tables
  import opened Transactions
  import opened Frames
  import opened Conservation
  import opened OptimisticLock
  import opened Installs
  import Scenario

  /** Transactions run in one piece, one after the other. */
  function Others(ops: seq<Op>): seq<Step> {
    seq(|ops|, i requires 0 <= i < |ops| => Other(ops[i]))
  }

  lemma {:induction false} OthersRun(sys: Sys, ops: seq<Op>)
    ensures Steps(sys, Others(ops)) == sys.(db := Run(sys.db, ops))
    decreases |ops|
  {
    if ops != [] {
      var n := |ops| - 1;
      assert Others(ops)[..n] == Others(ops[..n]);
      OthersRun(sys, ops[..n]);
    }
  }

  const BRIEFING: seq<Op> := Scenario.OPENING[..3]
                             + [AdvanceMissionOp(0, Scheduled, 1, None)]
                             + [AdvanceMissionOp(0, MissionStatus.Active, 2, None)]

  const READ: Step := ReadJob(1, 0, JobStatus.Completed, 2, 0, None)

  const RIVAL: Step := Other(CompleteJobOp(0, 1, 0, None))

  const JOB: Job := Job(0, 0, "JOB-1", JobStatus.Queued, None, None, 5, 1)

  ghost predicate Briefed(db: Db) {
    && db.missions == map[0 := Mission("MSN-1", MissionStatus.Active, 0, 100, 3)]
    && db.buoys == map[0 := Buoy(0, "BUOY-1", 2, 0)] && db.jobs == map[0 := JOB]
  }

  lemma BriefingRuns()
    ensures Briefed(Run(EMPTY_DB, BRIEFING))
  {
    hide Apply;
    Scenario.FirstPlaced();
    var db := Run(EMPTY_DB, Scenario.OPENING[..3]);
    var schedule := AdvanceMissionOp(0, Scheduled, 1, None);
    var activate := AdvanceMissionOp(0, MissionStatus.Active, 2, None);
    Scenario.RunNext(Scenario.OPENING[..3], schedule);
    Scenario.RunNext(Scenario.OPENING[..3] + [schedule], activate);
    Advances(db, Scheduled);
    Advances(Next(db, schedule), MissionStatus.Active);
  }

  lemma Advances(db: Db, next: MissionStatus)
    requires 0 in db.missions && db.missions[0].status.CanMoveTo(next)
    ensures var d := Next(db, AdvanceMissionOp(0, next, db.missions[0].version, None));
            && d == db.(missions := d.missions, audits := d.audits)
            && d.missions == db.missions[0 := db.missions[0].(status := next, version := db.missions[0].version + 1)]
  {
    assert Apply(db, AdvanceMissionOp(0, next, db.missions[0].version, None))
        == AdvanceMission(db, 0, next, db.missions[0].version, None);
  }

  const SESSION: Session := OnJob(0, JOB, JobStatus.Completed, 2, 0, None)

  lemma RivalWins(sys: Sys)
    requires Briefed(sys.db) && 1 !in sys.sessions
    ensures var t := Do(Do(sys, READ), RIVAL);
            && 1 in t.sessions && t.sessions[1] == SESSION
            && t.db.jobs == map[0 := JOB.(status := JobStatus.Completed, completedAt := Some(0), version := 2)]
            && t.db.buoys == map[0 := Buoy(0, "BUOY-1", 2, 1)]
  {
    var mid := Do(sys, READ);
    assert mid == sys.(sessions := sys.sessions[1 := SESSION]);
    assert Apply(mid.db, CompleteJobOp(0, 1, 0, None)) == CompleteJob(mid.db, 0, 1, 0, None);
  }

  /** The commit goes through, along no edge, and the buoy counts two installs of one job. */
  lemma RunInstallsTwice()
    ensures var before := Steps(START, Others(BRIEFING) + [READ] + [RIVAL]);
            var after := Steps(START, Others(BRIEFING) + [READ] + [RIVAL] + [Commit(1)]);
            && 1 in before.sessions && CommitResult(before.db, before.sessions[1]).Ok?
            && !LegalNow(before.db, before.sessions[1]) && BuoysBalanced(before.db)
            && 0 in after.db.buoys && after.db.buoys[0].completed == 2 && Installed(after.db.jobs, 0) == {0}
            && !BuoysBalanced(after.db)
  {
    hide Do, Briefed;
    BriefingRuns();
    OthersRun(START, BRIEFING);
    StepsTwo(START, Others(BRIEFING), READ, RIVAL);
    StepsOne(START, Others(BRIEFING) + [READ] + [RIVAL], Commit(1));
    RivalWins(Steps(START, Others(BRIEFING)));
    SecondCompletion(Steps(START, Others(BRIEFING) + [READ] + [RIVAL]));
  }

  lemma SecondCompletion(t: Sys)
    requires 1 in t.sessions && t.sessions[1] == SESSION
    requires t.db.jobs == map[0 := JOB.(status := JobStatus.Completed, completedAt := Some(0), version := 2)]
    requires t.db.buoys == map[0 := Buoy(0, "BUOY-1", 2, 1)]
    ensures CommitResult(t.db, SESSION).Ok? && !LegalNow(t.db, SESSION) && BuoysBalanced(t.db)
    ensures var d := Do(t, Commit(1)).db;
            && 0 in d.buoys && d.buoys[0].completed == 2 && Installed(d.jobs, 0) == {0} && !BuoysBalanced(d)
  {
    assert Installed(t.db.jobs, 0) == {0};
    var d := Do(t, Commit(1)).db;
    assert Installed(d.jobs, 0) == {0};
  }
}
