/** Completed installs are conserved by transactions run in one piece: counted once per job,
    never above the quota. */
module Conservation {
  import opened Prelude
  import opened Status
  import opened Tables
  import opened Transactions
  import opened Workflow
  import opened Frames
  import opened RowSteps

  ghost function Installed(jobs: map<Id, Job>, b: Id): set<Id> {
    set j | j in jobs && jobs[j].buoyId == b && jobs[j].completedAt.Some?
  }

  ghost predicate BuoysBalanced(db: Db) {
    forall b | b in db.buoys ::
      && db.buoys[b].completed == |Installed(db.jobs, b)|
      && db.buoys[b].completed <= db.buoys[b].required
      && db.buoys[b].required >= 1
  }

  ghost predicate JobsWellFormed(jobs: map<Id, Job>) {
    forall j | j in jobs ::
      && jobs[j].version >= 1
      && (jobs[j].status.Queued? <==> jobs[j].version == 1)
      && (jobs[j].status.Queued? ==> jobs[j].completedAt.None?)
      && (jobs[j].status.Completed? ==> jobs[j].completedAt.Some?)
  }

  ghost predicate Conserved(db: Db) {
    References(db) && BuoysBalanced(db) && JobsWellFormed(db.jobs)
  }

  lemma CompletionBalances(db: Db, id: Id, version: int, now: int, actor: Option<Id>, d: Db)
    requires Conserved(db) && CompleteJob(db, id, version, now, actor) == Ok(d)
    ensures BuoysBalanced(d) && JobsWellFormed(d.jobs)
  {
    CompleteJobSteps(db, id, version, now, actor, d);
    CompletionBalancesRows(db, d, id);
  }

  lemma CompletionBalancesRows(db: Db, d: Db, id: Id)
    requires BuoysBalanced(db) && id in db.jobs && db.jobs[id].completedAt.None?
    requires d.jobs.Keys == db.jobs.Keys && d.jobs[id].buoyId == db.jobs[id].buoyId && d.jobs[id].completedAt.Some?
    requires forall j | j in db.jobs && j != id :: d.jobs[j] == db.jobs[j]
    requires var b := db.jobs[id].buoyId;
             && b in db.buoys && db.buoys[b].completed < db.buoys[b].required
             && d.buoys == db.buoys[b := db.buoys[b].(completed := db.buoys[b].completed + 1)]
    ensures BuoysBalanced(d)
  {
    var b := db.jobs[id].buoyId;
    assert Installed(d.jobs, b) == Installed(db.jobs, b) + {id};
    forall c | c in d.buoys && c != b ensures Installed(d.jobs, c) == Installed(db.jobs, c) {
    }
  }

  lemma InstalledUnchanged(db: Db, d: Db, b: Id)
    requires JobsStep(db, d) && CompletionTimesKept(db, d)
    ensures Installed(d.jobs, b) == Installed(db.jobs, b)
  {
  }

  lemma NewBuoyUninstalled(db: Db, b: Id)
    requires References(db) && b !in db.buoys
    ensures Installed(db.jobs, b) == {}
  {
  }

  lemma PlainStepBalances(db: Db, d: Db)
    requires Conserved(db) && PlainStep(db, d)
    ensures BuoysBalanced(d)
  {
    forall b | b in d.buoys
      ensures d.buoys[b].completed == |Installed(d.jobs, b)| <= d.buoys[b].required && d.buoys[b].required >= 1
    {
      InstalledUnchanged(db, d, b);
      if b !in db.buoys {
        NewBuoyUninstalled(db, b);
      }
    }
  }

  lemma StepsKeepJobsWellFormed(db: Db, d: Db)
    requires JobsWellFormed(db.jobs) && JobsStep(db, d)
    ensures JobsWellFormed(d.jobs)
  {
  }

  lemma ApplyConserves(db: Db, op: Op, d: Db)
    requires Conserved(db) && Apply(db, op) == Ok(d)
    ensures BuoysBalanced(d) && JobsWellFormed(d.jobs)
  {
    if op.CompleteJobOp? {
      CompletionBalances(db, op.id, op.version, op.now, op.actor, d);
    } else {
      ApplySteps(db, op, d);
      PlainStepBalances(db, d);
      StepsKeepJobsWellFormed(db, d);
    }
  }

  /** In every reachable state the counter of each buoy is the number of its jobs
      that were ever completed, within the quota; queued jobs are exactly those
      never written. */
  lemma {:induction false} RunConserves(ops: seq<Op>)
    ensures Conserved(Run(EMPTY_DB, ops))
    decreases |ops|
  {
    RunKeepsInvariant(ops);
    if ops != [] {
      var before, op := Run(EMPTY_DB, ops[..|ops| - 1]), ops[|ops| - 1];
      RunConserves(ops[..|ops| - 1]);
      if Apply(before, op).Ok? {
        ApplyConserves(before, op, Apply(before, op).value);
      }
    }
  }

  // ---------- Each job completes at most once ----------

  /** How many completions of job `j` a run commits. */
  ghost function Completions(db: Db, ops: seq<Op>, j: Id): nat
    decreases |ops|
  {
    if ops == [] then 0
    else
      var rest, op := ops[..|ops| - 1], ops[|ops| - 1];
      Completions(db, rest, j)
      + (if op.CompleteJobOp? && op.id == j && Apply(Run(db, rest), op).Ok? then 1 else 0)
  }

  ghost predicate EverCompleted(jobs: map<Id, Job>, j: Id) {
    j in jobs && jobs[j].completedAt.Some?
  }

  lemma CompletionStep(db: Db, op: Op, d: Db, j: Id)
    requires JobsWellFormed(db.jobs) && Apply(db, op) == Ok(d)
    ensures op.CompleteJobOp? && op.id == j ==> !EverCompleted(db.jobs, j) && EverCompleted(d.jobs, j)
    ensures !(op.CompleteJobOp? && op.id == j) ==> (EverCompleted(d.jobs, j) <==> EverCompleted(db.jobs, j))
  {
    if op.CompleteJobOp? {
      CompleteJobSteps(db, op.id, op.version, op.now, op.actor, d);
    } else {
      ApplySteps(db, op, d);
    }
  }

  lemma {:induction false} JobCompletesAtMostOnce(ops: seq<Op>, j: Id)
    ensures var db := Run(EMPTY_DB, ops);
            Completions(EMPTY_DB, ops, j) == if EverCompleted(db.jobs, j) then 1 else 0
    decreases |ops|
  {
    if ops != [] {
      var rest, op := ops[..|ops| - 1], ops[|ops| - 1];
      var before := Run(EMPTY_DB, rest);
      JobCompletesAtMostOnce(rest, j);
      RunConserves(rest);
      if Apply(before, op).Ok? {
        CompletionStep(before, op, Apply(before, op).value, j);
      }
    }
  }

  // ---------- Mission progress ----------

  function BuoysOf(buoys: map<Id, Buoy>, m: Id): set<Id> {
    set b | b in buoys && buoys[b].missionId == m
  }

  ghost function Pick(s: set<Id>): (b: Id)
    requires s != {}
    ensures b in s
  {
    var b :| b in s; b
  }

  ghost function SumRequired(buoys: map<Id, Buoy>, s: set<Id>): int
    requires s <= buoys.Keys
  {
    if s == {} then 0 else buoys[Pick(s)].required + SumRequired(buoys, s - {Pick(s)})
  }

  /** The aggregate the progress query returns. */
  datatype Progress = Progress(buoys: nat, required: int, completed: nat, accepted: nat, inProgress: nat,
                               verified: nat, rejected: nat, archived: nat)

  function JobsIn(jobs: map<Id, Job>, m: Id, status: JobStatus): set<Id> {
    set j | j in jobs && jobs[j].missionId == m && jobs[j].status == status
  }

  ghost function ProgressOf(db: Db, m: Id): Progress {
    Progress(|BuoysOf(db.buoys, m)|, SumRequired(db.buoys, BuoysOf(db.buoys, m)),
             |JobsIn(db.jobs, m, JobStatus.Completed)|, |JobsIn(db.jobs, m, JobStatus.Accepted)|,
             |JobsIn(db.jobs, m, JobStatus.InProgress)|, |JobsIn(db.jobs, m, JobStatus.Verified)|,
             |JobsIn(db.jobs, m, JobStatus.Rejected)|, |JobsIn(db.jobs, m, JobStatus.Archived)|)
  }

  ghost function InstalledIn(jobs: map<Id, Job>, s: set<Id>): set<Id> {
    set j | j in jobs && jobs[j].buoyId in s && jobs[j].completedAt.Some?
  }

  lemma {:induction false} InstallsWithinQuota(db: Db, s: set<Id>)
    requires BuoysBalanced(db) && s <= db.buoys.Keys
    ensures |InstalledIn(db.jobs, s)| <= SumRequired(db.buoys, s)
    decreases s
  {
    if s == {} {
      assert InstalledIn(db.jobs, s) == {};
    } else {
      var b := Pick(s);
      InstallsWithinQuota(db, s - {b});
      assert InstalledIn(db.jobs, s) == InstalledIn(db.jobs, s - {b}) + Installed(db.jobs, b);
    }
  }

  lemma SubsetCardinality(a: set<Id>, b: set<Id>)
    requires a <= b
    ensures |a| <= |b|
  {
    assert b == a + (b - a);
  }

  /** A mission never reports more completed jobs than it requires, even counting
      the jobs that completed and have since moved on. */
  lemma ProgressWithinRequirement(ops: seq<Op>, m: Id)
    ensures var db := Run(EMPTY_DB, ops);
            && ProgressOf(db, m).completed <= |InstalledIn(db.jobs, BuoysOf(db.buoys, m))|
            && |InstalledIn(db.jobs, BuoysOf(db.buoys, m))| <= ProgressOf(db, m).required
  {
    var db := Run(EMPTY_DB, ops);
    RunConserves(ops);
    InstallsWithinQuota(db, BuoysOf(db.buoys, m));
    SubsetCardinality(JobsIn(db.jobs, m, JobStatus.Completed), InstalledIn(db.jobs, BuoysOf(db.buoys, m)));
  }
}
