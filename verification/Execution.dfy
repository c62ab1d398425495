/** When jobs complete: while their mission is active, in its window and before they expire. */
module Execution {
  import opened Prelude
  import opened Status
  import opened Tables
  import opened Transactions
  import opened RowSteps
  import opened OptimisticLock

  /** A committed completion finds its mission active, the instant in the mission's window and
      not after the job's expiry, and writes just that instant. */
  lemma CompletesOnTime(db: Db, id: Id, version: int, now: int, actor: Option<Id>, d: Db)
    requires Apply(db, CompleteJobOp(id, version, now, actor)) == Ok(d)
    ensures id in db.jobs && db.jobs[id].status.Queued? && db.jobs[id].version == version
    ensures var m := db.jobs[id].missionId;
            && m in db.missions && db.missions[m].status.Active?
            && db.missions[m].startsAt <= now < db.missions[m].endsAt
    ensures now <= db.jobs[id].expiresAt
    ensures d.jobs == db.jobs[id := db.jobs[id].(
              status := JobStatus.Completed, version := version + 1, completedAt := Some(now))]
  {
  }

  /** A committed archival finds the job verified or rejected, expired or not. */
  lemma ArchivesReviewed(db: Db, id: Id, version: int, now: int, actor: Option<Id>, d: Db)
    requires Apply(db, ArchiveJobOp(id, version, now, actor)) == Ok(d)
    ensures id in db.jobs && (db.jobs[id].status.Verified? || db.jobs[id].status.Rejected?)
    ensures db.jobs[id].version == version
    ensures d == db.(jobs := db.jobs[id := db.jobs[id].(status := JobStatus.Archived, version := version + 1)],
                     audits := d.audits)
  {
  }

  // ---------- The two halves of a move ----------

  /** Read, check and write back to back are the transaction; where the check would refuse,
      so does the transaction. */
  lemma CheckedThenMoved(db: Db, id: Id, next: JobStatus, version: int, now: int, actor: Option<Id>)
    requires next.Completed? || next.Archived?
    ensures var whole := if next.Completed? then CompleteJob(db, id, version, now, actor)
                         else ArchiveJob(db, id, version, now, actor);
            if MayMoveJob(db, id, next, now)
            then whole == CommitResult(db, OnJob(id, db.jobs[id], next, version, now, actor)) else whole.Err?
  {
  }

  lemma CheckedThenAdvanced(db: Db, id: Id, next: MissionStatus, version: int, actor: Option<Id>)
    ensures var whole := AdvanceMission(db, id, next, version, actor);
            if id in db.missions && db.missions[id].status.CanMoveTo(next)
            then whole == CommitResult(db, OnMission(id, db.missions[id], next, version, actor)) else whole.Err?
  {
  }

  // ---------- Over whole transactions ----------

  /** The instant lies in the window of the job's mission and not after the job's expiry. */
  ghost predicate Timely(db: Db, j: Id, at: int) {
    && j in db.jobs && db.jobs[j].missionId in db.missions && at <= db.jobs[j].expiresAt
    && db.missions[db.jobs[j].missionId].startsAt <= at < db.missions[db.jobs[j].missionId].endsAt
  }

  ghost predicate Executed(db: Db) {
    forall j | j in db.jobs && db.jobs[j].completedAt.Some? ::
      && Timely(db, j, db.jobs[j].completedAt.value)
      && var m := db.missions[db.jobs[j].missionId]; m.status.Active? || m.status.Closed?
  }

  lemma CompletionExecutes(db: Db, op: Op, d: Db)
    requires Executed(db) && op.CompleteJobOp? && Apply(db, op) == Ok(d)
    ensures Executed(d)
  {
    CompletesOnTime(db, op.id, op.version, op.now, op.actor, d);
    CompleteJobSteps(db, op.id, op.version, op.now, op.actor, d);
  }

  lemma PlainExecutes(db: Db, d: Db)
    requires Executed(db) && PlainStep(db, d)
    ensures Executed(d)
  {
  }

  /** Over any run of whole transactions a job's completion time lies in its mission's window,
      not after the job's expiry, and the mission has been activated. */
  lemma {:induction false} RunExecutesOnTime(ops: seq<Op>)
    ensures Executed(Run(EMPTY_DB, ops))
    decreases |ops|
  {
    if ops != [] {
      hide Apply, Executed, PlainStep;
      var before, op := Run(EMPTY_DB, ops[..|ops| - 1]), ops[|ops| - 1];
      RunExecutesOnTime(ops[..|ops| - 1]);
      if Apply(before, op).Ok? {
        if op.CompleteJobOp? {
          CompletionExecutes(before, op, Apply(before, op).value);
        } else {
          ApplySteps(before, op, Apply(before, op).value);
          PlainExecutes(before, Apply(before, op).value);
        }
      }
    } else {
      NoneExecuted();
    }
  }

  lemma NoneExecuted()
    ensures Executed(EMPTY_DB)
  {
  }

  // ---------- In every interleaving ----------

  /** Jobs keep their mission and expiry, missions their window. */
  ghost predicate Frozen(db: Db, d: Db) {
    && (forall j | j in db.jobs ::
          && j in d.jobs && d.jobs[j].missionId == db.jobs[j].missionId && d.jobs[j].expiresAt == db.jobs[j].expiresAt)
    && (forall m | m in db.missions ::
          && m in d.missions && d.missions[m].startsAt == db.missions[m].startsAt
          && d.missions[m].endsAt == db.missions[m].endsAt)
  }

  ghost predicate AllTimely(db: Db) {
    forall j | j in db.jobs && db.jobs[j].completedAt.Some? :: Timely(db, j, db.jobs[j].completedAt.value)
  }

  /** What was read for a completion was read on time. */
  ghost predicate SessionTimely(db: Db, s: Session) {
    s.OnJob? && s.nextJob.Completed? ==> Timely(db, s.id, s.now)
  }

  ghost predicate SessionsTimely(sys: Sys) {
    forall c | c in sys.sessions :: SessionTimely(sys.db, sys.sessions[c])
  }

  lemma StaysTimely(db: Db, d: Db, j: Id, at: int)
    requires Timely(db, j, at) && Frozen(db, d)
    ensures Timely(d, j, at)
  {
  }

  lemma PlainIsFrozen(db: Db, d: Db)
    requires JobsStep(db, d) && MissionsStep(db, d)
    ensures Frozen(db, d)
  {
  }

  lemma OtherTimely(db: Db, op: Op, d: Db)
    requires AllTimely(db) && Apply(db, op) == Ok(d)
    ensures AllTimely(d) && Frozen(db, d)
  {
    hide Apply, Timely, PlainStep;
    ApplySteps(db, op, d);
    PlainIsFrozen(db, d);
    if op.CompleteJobOp? {
      CompletionTimely(db, op, d);
    } else {
      PlainTimely(db, d);
    }
  }

  lemma CompletionTimely(db: Db, op: Op, d: Db)
    requires AllTimely(db) && op.CompleteJobOp? && Apply(db, op) == Ok(d) && Frozen(db, d)
    ensures AllTimely(d)
  {
    CompletesOnTime(db, op.id, op.version, op.now, op.actor, d);
    hide Apply;
    assert Timely(db, op.id, op.now);
    forall j | j in d.jobs && d.jobs[j].completedAt.Some?
      ensures Timely(d, j, d.jobs[j].completedAt.value)
    {
      StaysTimely(db, d, j, d.jobs[j].completedAt.value);
    }
  }

  lemma PlainTimely(db: Db, d: Db)
    requires AllTimely(db) && PlainStep(db, d) && Frozen(db, d)
    ensures AllTimely(d)
  {
  }

  lemma JobCommitRow(db: Db, s: Session)
    requires s.OnJob? && CommitResult(db, s).Ok?
    ensures var d := CommitResult(db, s).value;
            && d.missions == db.missions && s.id in db.jobs && s.id in d.jobs
            && d.jobs == db.jobs[s.id := d.jobs[s.id]]
            && d.jobs[s.id].missionId == db.jobs[s.id].missionId && d.jobs[s.id].expiresAt == db.jobs[s.id].expiresAt
            && d.jobs[s.id].completedAt == if s.nextJob.Completed? then Some(s.now) else db.jobs[s.id].completedAt
  {
  }

  lemma JobCommitTimely(db: Db, s: Session)
    requires AllTimely(db) && s.OnJob? && SessionTimely(db, s) && CommitResult(db, s).Ok?
    ensures AllTimely(CommitResult(db, s).value) && Frozen(db, CommitResult(db, s).value)
  {
    hide CommitResult;
    JobCommitRow(db, s);
  }

  lemma MissionCommitTimely(db: Db, s: Session)
    requires AllTimely(db) && s.OnMission? && CommitResult(db, s).Ok?
    ensures AllTimely(CommitResult(db, s).value) && Frozen(db, CommitResult(db, s).value)
  {
  }

  lemma SameIsFrozen(db: Db)
    ensures Frozen(db, db)
  {
  }

  lemma DoTimely(sys: Sys, step: Step)
    requires AllTimely(sys.db) && SessionsTimely(sys)
    ensures AllTimely(Do(sys, step).db) && Frozen(sys.db, Do(sys, step).db)
  {
    hide AllTimely, Frozen, CommitResult, Apply, Timely;
    SameIsFrozen(sys.db);
    match step
    case Other(op) =>
      if Apply(sys.db, op).Ok? {
        OtherTimely(sys.db, op, Apply(sys.db, op).value);
      }
    case Commit(c) =>
      if c in sys.sessions && CommitResult(sys.db, sys.sessions[c]).Ok? {
        if sys.sessions[c].OnJob? {
          JobCommitTimely(sys.db, sys.sessions[c]);
        } else {
          MissionCommitTimely(sys.db, sys.sessions[c]);
        }
      }
    case _ =>
  }

  lemma DoSessionsTimely(sys: Sys, step: Step)
    requires SessionsTimely(sys) && Frozen(sys.db, Do(sys, step).db)
    ensures SessionsTimely(Do(sys, step))
  {
    hide CommitResult, Next, Frozen;
    var after := Do(sys, step);
    forall c | c in after.sessions
      ensures SessionTimely(after.db, after.sessions[c])
    {
      if c in sys.sessions {
        var s := sys.sessions[c];
        if s.OnJob? && s.nextJob.Completed? {
          StaysTimely(sys.db, after.db, s.id, s.now);
        }
      }
    }
  }

  lemma StartTimely()
    ensures AllTimely(EMPTY_DB) && SessionsTimely(Sys(EMPTY_DB, map[]))
  {
  }

  /** In every interleaving, whoever commits and under whatever version, a completion time
      lies in the mission's window and not after the job's expiry. */
  lemma {:induction false} StepsCompleteOnTime(steps: seq<Step>)
    ensures AllTimely(Steps(Sys(EMPTY_DB, map[]), steps).db) && SessionsTimely(Steps(Sys(EMPTY_DB, map[]), steps))
    decreases |steps|
  {
    hide Do, AllTimely, SessionsTimely, Frozen;
    if steps == [] {
      StartTimely();
    } else {
      var before := Steps(Sys(EMPTY_DB, map[]), steps[..|steps| - 1]);
      StepsCompleteOnTime(steps[..|steps| - 1]);
      DoTimely(before, steps[|steps| - 1]);
      DoSessionsTimely(before, steps[|steps| - 1]);
    }
  }
}
