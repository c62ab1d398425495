/** Installs under interleaved completions: what every interleaving keeps, and exactly when
    they stay counted once per job. */
module Installs {
  import opened Prelude
  import opened Status
  import opened Tables
  import opened Transactions
  import opened Workflow
  import opened RowSteps
  import opened Conservation
  import opened OptimisticLock

  // ---------- What every interleaving keeps ----------

  /** The counter is never below the number of installed jobs and never above the quota. */
  ghost predicate WithinQuota(db: Db) {
    forall b | b in db.buoys ::
      && |Installed(db.jobs, b)| <= db.buoys[b].completed <= db.buoys[b].required
      && db.buoys[b].required >= 1
  }

  /** The effect of a completion, legal or not, on jobs and buoys. */
  ghost predicate Completes(db: Db, d: Db, id: Id) {
    && id in db.jobs && db.jobs[id].buoyId in db.buoys
    && (exists now :: d.jobs == db.jobs[id := db.jobs[id].(
          status := JobStatus.Completed, version := db.jobs[id].version + 1, completedAt := Some(now))])
    && var b := db.jobs[id].buoyId;
       && db.buoys[b].completed < db.buoys[b].required
       && d.buoys == db.buoys[b := db.buoys[b].(completed := db.buoys[b].completed + 1)]
  }

  lemma InstalledAfter(db: Db, d: Db, id: Id, b: Id)
    requires Completes(db, d, id)
    ensures Installed(d.jobs, b) == Installed(db.jobs, b) + if db.jobs[id].buoyId == b then {id} else {}
  {
  }

  lemma CompletionWithinQuota(db: Db, d: Db, id: Id)
    requires WithinQuota(db) && Completes(db, d, id)
    ensures WithinQuota(d)
  {
    forall b | b in d.buoys
      ensures |Installed(d.jobs, b)| <= d.buoys[b].completed <= d.buoys[b].required && d.buoys[b].required >= 1
    {
      InstalledAfter(db, d, id, b);
    }
  }

  /** A completion keeps installs counted once per job exactly when the job was never completed before. */
  lemma BalancedIffFirst(db: Db, d: Db, id: Id)
    requires BuoysBalanced(db) && Completes(db, d, id)
    ensures BuoysBalanced(d) <==> db.jobs[id].completedAt.None?
  {
    if db.jobs[id].completedAt.None? {
      CompletionBalancesRows(db, d, id);
    } else {
      var b := db.jobs[id].buoyId;
      InstalledAfter(db, d, id, b);
      assert Installed(d.jobs, b) == Installed(db.jobs, b);
      assert b in d.buoys && d.buoys[b].completed != |Installed(d.jobs, b)|;
    }
  }

  lemma PlainStepWithinQuota(db: Db, d: Db)
    requires References(db) && WithinQuota(db) && PlainStep(db, d)
    ensures WithinQuota(d)
  {
    forall b | b in d.buoys
      ensures |Installed(d.jobs, b)| <= d.buoys[b].completed <= d.buoys[b].required && d.buoys[b].required >= 1
    {
      InstalledUnchanged(db, d, b);
      if b !in db.buoys {
        NewBuoyUninstalled(db, b);
      }
    }
  }

  ghost predicate Kept(db: Db) {
    Invariant(db) && WithinQuota(db) && JobsWellFormed(db.jobs)
  }

  lemma OtherKeeps(db: Db, op: Op)
    requires Kept(db)
    ensures Kept(Next(db, op))
  {
    hide Invariant, WithinQuota, JobsWellFormed, PlainStep, JobsStep, CompleteJob;
    if Apply(db, op).Ok? {
      var d := Next(db, op);
      ApplyKeepsInvariant(db, op, d);
      ApplySteps(db, op, d);
      StepsKeepJobsWellFormed(db, d);
      if op.CompleteJobOp? {
        CompleteJobSteps(db, op.id, op.version, op.now, op.actor, d);
        CompletionWithinQuota(db, d, op.id);
      } else {
        hide Apply;
        ReferencesOf(db);
        PlainStepWithinQuota(db, d);
      }
    }
  }

  lemma ReferencesOf(db: Db)
    requires Invariant(db)
    ensures References(db)
  {
  }

  lemma MoveKeeps(db: Db, id: Id, next: JobStatus, version: int, now: int, d: Db)
    requires Kept(db) && (next.Completed? || next.Archived?) && MoveJob(db, id, next, version, now) == Ok(d)
    ensures Kept(d)
  {
    hide Invariant, WithinQuota;
    MoveJobKeepsInvariant(db, id, next, version, now);
    if next.Completed? {
      CompletionWithinQuota(db, d, id);
    } else {
      ReferencesOf(db);
      MoveJobSteps(db, id, next, version, now, d);
      PlainStepWithinQuota(db, d);
    }
  }

  lemma MissionMoveKeeps(db: Db, id: Id, next: MissionStatus, version: int, d: Db)
    requires Kept(db) && UpdateMission(db, id, next, version) == Ok(d)
    ensures Kept(d)
  {
    assert Core(d);
    hide Core;
  }

  lemma LogKeeps(db: Db, d: Db)
    requires Kept(db) && d == db.(audits := d.audits)
    ensures Kept(d)
  {
    assert WithinQuota(d);
    hide WithinQuota, JobsWellFormed;
    LogKeepsInvariant(db, d);
  }

  lemma CommitKeeps(db: Db, s: Session)
    requires Kept(db) && SessionSound(db, s) && CommitResult(db, s).Ok?
    ensures Kept(CommitResult(db, s).value)
  {
    hide Kept, MoveJob, UpdateMission;
    match s
    case OnMission(id, _, next, version, _) =>
      var mid := UpdateMission(db, id, next, version).value;
      MissionMoveKeeps(db, id, next, version, mid);
      LogKeeps(mid, CommitResult(db, s).value);
    case OnJob(id, _, next, version, now, _) =>
      var mid := MoveJob(db, id, next, version, now).value;
      MoveKeeps(db, id, next, version, now, mid);
      LogKeeps(mid, CommitResult(db, s).value);
  }

  lemma DoKeeps(sys: Sys, step: Step)
    requires Kept(sys.db) && AllSound(sys)
    ensures Kept(Do(sys, step).db)
  {
    hide Kept, Next, CommitResult, SessionSound;
    match step
    case Other(op) => OtherKeeps(sys.db, op);
    case Commit(c) =>
      if c in sys.sessions && CommitResult(sys.db, sys.sessions[c]).Ok? {
        CommitKeeps(sys.db, sys.sessions[c]);
      }
    case _ =>
  }

  const START: Sys := Sys(EMPTY_DB, map[])

  lemma StartIsSound()
    ensures AllSound(START)
  {
  }

  /** In every interleaving of these moves with whole transactions, illegal commits included,
      the workflow's invariant holds and the counter of a buoy lies between the number of its
      installed jobs and its quota. */
  lemma {:induction false} StepsKeep(steps: seq<Step>)
    ensures var db := Steps(START, steps).db;
            Invariant(db) && WithinQuota(db) && JobsWellFormed(db.jobs)
    decreases |steps|
  {
    if steps != [] {
      hide Do, AllSound, Invariant, WithinQuota, JobsWellFormed;
      StartIsSound();
      StepsKeep(steps[..|steps| - 1]);
      assert Kept(Steps(START, steps[..|steps| - 1]).db);
      SessionsStaySound(START, steps[..|steps| - 1]);
      DoKeeps(Steps(START, steps[..|steps| - 1]), steps[|steps| - 1]);
    }
  }

  // ---------- One completion, all interleavings ----------

  /** The session has just read its job and checked the move. */
  ghost predicate JustRead(sys: Sys, c: nat) {
    && c in sys.sessions && sys.sessions[c].OnJob?
    && MayMoveJob(sys.db, sys.sessions[c].id, sys.sessions[c].nextJob, sys.sessions[c].now)
    && sys.db.jobs[sys.sessions[c].id] == sys.sessions[c].seenJob
  }

  /** The session is about to commit its completion, and installs are counted once per job. */
  ghost predicate CommitsFromBalance(t: Sys, c: nat, s: Session) {
    c in t.sessions && t.sessions[c] == s && BuoysBalanced(t.db) && CommitResult(t.db, s).Ok?
  }

  /** However the rest of the system runs first, a commit of this session from a balanced
      state leaves a balanced one. */
  ghost predicate AlwaysBalanced(sys: Sys, c: nat)
    requires c in sys.sessions
  {
    forall steps | CommitsFromBalance(Steps(sys, steps), c, sys.sessions[c]) ::
      BuoysBalanced(Do(Steps(sys, steps), Commit(c)).db)
  }

  lemma CommitCompletes(db: Db, s: Session)
    requires s.OnJob? && s.nextJob.Completed? && CommitResult(db, s).Ok?
    ensures Completes(db, CommitResult(db, s).value, s.id) && db.jobs[s.id].version == s.version
  {
  }

  lemma CommitBalancedIff(t: Sys, c: nat, s: Session)
    requires s.OnJob? && s.nextJob.Completed? && CommitsFromBalance(t, c, s)
    ensures s.id in t.db.jobs && (BuoysBalanced(Do(t, Commit(c)).db) <==> t.db.jobs[s.id].completedAt.None?)
  {
    hide CommitResult, BuoysBalanced;
    CommitCompletes(t.db, s);
    BalancedIffFirst(t.db, CommitResult(t.db, s).value, s.id);
  }

  lemma OldVersionIsFirst(db: Db, s: Session)
    requires s.OnJob? && s.nextJob.Completed? && SessionSound(db, s) && s.version <= s.seenJob.version
    requires s.seenJob.completedAt.None? && CommitResult(db, s).Ok?
    ensures db.jobs[s.id].completedAt.None?
  {
    hide CommitResult;
    CommitCompletes(db, s);
  }

  lemma SameSize(a: set<Id>, b: set<Id>)
    requires a <= b && |b| <= |a|
    ensures a == b
  {
    assert b == a + (b - a);
  }

  /** With one install left to claim, a counter that has not moved means no job was completed. */
  lemma LastInstallIsFirst(db: Db, d: Db, s: Session)
    requires s.OnJob? && s.nextJob.Completed? && NotBehind(db, d) && BuoysBalanced(db) && BuoysBalanced(d)
    requires s.id in db.jobs && db.jobs[s.id].completedAt.None?
    requires var b := db.jobs[s.id].buoyId; b in db.buoys && db.buoys[b].completed + 1 >= db.buoys[b].required
    requires CommitResult(d, s).Ok?
    ensures s.id in d.jobs && d.jobs[s.id].completedAt.None?
  {
    hide CommitResult;
    CommitCompletes(d, s);
    var b := db.jobs[s.id].buoyId;
    assert JobNotBehind(db.jobs[s.id], d.jobs[s.id]) && BuoyNotBehind(db.buoys[b], d.buoys[b]);
    assert Installed(db.jobs, b) <= Installed(d.jobs, b);
    SameSize(Installed(db.jobs, b), Installed(d.jobs, b));
    assert s.id !in Installed(db.jobs, b);
  }

  /** A job about to be completed is in the queue, so it never completed. */
  lemma FirstRead(sys: Sys, c: nat)
    requires JustRead(sys, c) && sys.sessions[c].nextJob.Completed? && Conserved(sys.db)
    ensures BuoysBalanced(sys.db) && sys.sessions[c].seenJob.completedAt.None?
    ensures sys.sessions[c].seenJob.buoyId in sys.db.buoys
  {
  }

  lemma SafeCompletion(sys: Sys, c: nat)
    requires AllSound(sys) && JustRead(sys, c) && sys.sessions[c].nextJob.Completed? && Conserved(sys.db)
    requires var s := sys.sessions[c];
             var b := s.seenJob.buoyId;
             s.version <= s.seenJob.version || sys.db.buoys[b].completed + 1 >= sys.db.buoys[b].required
    ensures AlwaysBalanced(sys, c)
  {
    hide CommitResult, BuoysBalanced, SessionSound, NotBehind, Do;
    var s := sys.sessions[c];
    FirstRead(sys, c);
    forall steps | CommitsFromBalance(Steps(sys, steps), c, s)
      ensures BuoysBalanced(Do(Steps(sys, steps), Commit(c)).db)
    {
      var t := Steps(sys, steps);
      if s.version <= s.seenJob.version {
        SessionsStaySound(sys, steps);
        OldVersionIsFirst(t.db, s);
      } else {
        EqualVersionsMeanEqualRows(sys, steps);
        LastInstallIsFirst(sys.db, t.db, s);
      }
      CommitBalancedIff(t, c, s);
    }
  }

  /** The rival completes the very row that was read. */
  lemma RivalCompletes(sys: Sys, c: nat)
    requires JustRead(sys, c) && sys.sessions[c].nextJob.Completed? && Conserved(sys.db)
    requires var b := sys.sessions[c].seenJob.buoyId; sys.db.buoys[b].completed < sys.db.buoys[b].required
    ensures var s, t := sys.sessions[c],
                        Do(sys, Other(CompleteJobOp(sys.sessions[c].id, sys.sessions[c].seenJob.version,
                                                    sys.sessions[c].now, None)));
            && t.sessions == sys.sessions && Completes(sys.db, t.db, s.id) && BuoysBalanced(t.db)
  {
    hide BuoysBalanced;
    var s := sys.sessions[c];
    FirstRead(sys, c);
    var d := CompleteJob(sys.db, s.id, s.seenJob.version, s.now, None).value;
    CompleteJobSteps(sys.db, s.id, s.seenJob.version, s.now, None, d);
    BalancedIffFirst(sys.db, d, s.id);
  }

  lemma ActivationsBalance(sys: Sys, t: Sys, s: Session, k: nat)
    requires s.OnJob? && s.id in sys.db.jobs && AfterActivations(sys, t, s, k) && BuoysBalanced(sys.db)
    ensures BuoysBalanced(t.db)
  {
    forall b ensures Installed(t.db.jobs, b) == Installed(sys.db.jobs, b) {
    }
  }

  /** After that the caller's version has come, and its commit claims a second install. */
  lemma SecondInstall(sys: Sys, t: Sys, c: nat, k: nat)
    requires c in sys.sessions && sys.sessions[c].OnJob? && sys.sessions[c].nextJob.Completed? && BuoysBalanced(sys.db)
    requires sys.sessions[c].id in sys.db.jobs && AfterActivations(sys, t, sys.sessions[c], k)
    requires var s, job := sys.sessions[c], sys.db.jobs[sys.sessions[c].id];
             && s.version == job.version + k && job.completedAt.Some?
             && job.buoyId in sys.db.buoys && !BuoyFull(sys.db, job.buoyId)
    ensures CommitsFromBalance(t, c, sys.sessions[c]) && !BuoysBalanced(Do(t, Commit(c)).db)
  {
    hide BuoysBalanced, Do;
    ActivationsBalance(sys, t, sys.sessions[c], k);
    CommitBalancedIff(t, c, sys.sessions[c]);
  }

  lemma UnsafeCompletion(sys: Sys, c: nat)
    requires JustRead(sys, c) && sys.sessions[c].nextJob.Completed? && Conserved(sys.db)
    requires var s := sys.sessions[c];
             var b := s.seenJob.buoyId;
             s.version > s.seenJob.version && sys.db.buoys[b].completed + 1 < sys.db.buoys[b].required
    ensures !AlwaysBalanced(sys, c)
  {
    hide CommitsFromBalance, BuoysBalanced, Do, AfterActivations;
    var s := sys.sessions[c];
    var rival := Other(CompleteJobOp(s.id, s.seenJob.version, s.now, None));
    var mid := Do(sys, rival);
    RivalCompletes(sys, c);
    assert [rival][..0] == [] && Steps(sys, [rival]) == mid;
    var k := s.version - s.seenJob.version - 1;
    var rest := Activations(s, s.seenJob.version + 1, k);
    ActivationsRun(mid, s, k);
    StepsAppend(sys, [rival], rest);
    SecondInstall(mid, Steps(mid, rest), c, k);
    assert CommitsFromBalance(Steps(sys, [rival] + rest), c, s);
  }

  /** A completion just read keeps installs counted once per job in every interleaving exactly
      when the caller's version is no newer than the row read, or it claims the last install. */
  lemma CompletionAlwaysBalancedIff(sys: Sys, c: nat)
    requires AllSound(sys) && JustRead(sys, c) && sys.sessions[c].nextJob.Completed? && Conserved(sys.db)
    ensures var s := sys.sessions[c];
            var b := s.seenJob.buoyId;
            AlwaysBalanced(sys, c)
            <==> s.version <= s.seenJob.version || sys.db.buoys[b].completed + 1 >= sys.db.buoys[b].required
  {
    hide AlwaysBalanced, AllSound;
    var s := sys.sessions[c];
    if s.version <= s.seenJob.version || sys.db.buoys[s.seenJob.buoyId].completed + 1
                                         >= sys.db.buoys[s.seenJob.buoyId].required {
      SafeCompletion(sys, c);
    } else {
      UnsafeCompletion(sys, c);
    }
  }

  // ---------- Interleaved runs of careful callers ----------

  /** A caller completes a job under a version no newer than the row it reads. */
  ghost predicate CarefulStep(sys: Sys, step: Step) {
    step.ReadJob? && step.nextJob.Completed? && step.id in sys.db.jobs ==>
      step.version <= sys.db.jobs[step.id].version
  }

  ghost predicate Careful(steps: seq<Step>) {
    forall i | 0 <= i < |steps| :: CarefulStep(Steps(START, steps[..i]), steps[i])
  }

  ghost predicate NoneAhead(sys: Sys) {
    forall c | c in sys.sessions && sys.sessions[c].OnJob? && sys.sessions[c].nextJob.Completed? ::
      sys.sessions[c].version <= sys.sessions[c].seenJob.version && sys.sessions[c].seenJob.completedAt.None?
  }

  lemma DoKeepsNoneAhead(sys: Sys, step: Step)
    requires NoneAhead(sys) && CarefulStep(sys, step) && JobsWellFormed(sys.db.jobs)
    ensures NoneAhead(Do(sys, step))
  {
    hide Next, CommitResult;
  }

  lemma MissionMoveBalances(db: Db, s: Session)
    requires s.OnMission? && BuoysBalanced(db) && CommitResult(db, s).Ok?
    ensures BuoysBalanced(CommitResult(db, s).value)
  {
  }

  lemma ArchivalBalances(db: Db, s: Session)
    requires s.OnJob? && s.nextJob.Archived? && Conserved(db) && CommitResult(db, s).Ok?
    ensures BuoysBalanced(CommitResult(db, s).value)
  {
    hide PlainStep;
    var d := CommitResult(db, s).value;
    MoveJobSteps(db, s.id, s.nextJob, s.version, s.now, d);
    PlainStepBalances(db, d);
  }

  lemma DoKeepsBalance(sys: Sys, step: Step)
    requires Conserved(sys.db) && AllSound(sys) && NoneAhead(sys)
    ensures BuoysBalanced(Do(sys, step).db)
  {
    hide Next, CommitResult, BuoysBalanced, JobsWellFormed, References, SessionSound;
    match step
    case Other(op) =>
      NextBalances(sys.db, op);
    case Commit(c) =>
      if c in sys.sessions && CommitResult(sys.db, sys.sessions[c]).Ok? {
        CommitKeepsBalance(sys, c);
      }
    case _ =>
  }

  lemma NextBalances(db: Db, op: Op)
    requires Conserved(db)
    ensures BuoysBalanced(Next(db, op))
  {
    hide Apply, BuoysBalanced, JobsWellFormed, References;
    if Apply(db, op).Ok? {
      ApplyConserves(db, op, Apply(db, op).value);
    }
  }

  lemma CommitKeepsBalance(sys: Sys, c: nat)
    requires Conserved(sys.db) && AllSound(sys) && NoneAhead(sys)
    requires c in sys.sessions && CommitResult(sys.db, sys.sessions[c]).Ok?
    ensures BuoysBalanced(Do(sys, Commit(c)).db)
  {
    hide CommitResult, BuoysBalanced, JobsWellFormed, References;
    var s := sys.sessions[c];
    if s.OnMission? {
      MissionMoveBalances(sys.db, s);
    } else if s.nextJob.Completed? {
      OldVersionIsFirst(sys.db, s);
      CommitBalancedIff(sys, c, s);
    } else {
      ArchivalBalances(sys.db, s);
    }
  }

  lemma StartIsBalanced()
    ensures BuoysBalanced(START.db) && NoneAhead(START)
  {
  }

  /** However transactions interleave, while no caller completes a job under a version newer
      than the row it read, installs are counted once per job. */
  lemma {:induction false} CarefulStepsConserve(steps: seq<Step>)
    requires Careful(steps)
    ensures Conserved(Steps(START, steps).db) && NoneAhead(Steps(START, steps))
    decreases |steps|
  {
    hide BuoysBalanced, JobsWellFormed, Do, AllSound, NoneAhead, CarefulStep;
    StepsKeep(steps);
    StartIsSound();
    if steps == [] {
      StartIsBalanced();
    } else {
      var rest, last := steps[..|steps| - 1], steps[|steps| - 1];
      assert Careful(rest) by {
        assert forall i | 0 <= i < |rest| :: rest[..i] == steps[..i] && rest[i] == steps[i];
      }
      CarefulStepsConserve(rest);
      SessionsStaySound(START, rest);
      assert CarefulStep(Steps(START, rest), last);
      DoKeepsNoneAhead(Steps(START, rest), last);
      DoKeepsBalance(Steps(START, rest), last);
    }
  }
}
