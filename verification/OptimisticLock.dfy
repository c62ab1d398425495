/** Reads and conditional writes as separate, freely interleaved steps: what the
    version check of a mission or job move protects against, and what it does not. */
module OptimisticLock {
  import opened Prelude
  import opened Status
  import opened Tables
  import opened Transactions
  import opened RowSteps

  /** A transaction that has read its row and checked the move, and has not written yet.
      `version` is the caller's; the code never compares it with the row it read. */
  datatype Session =
    | OnMission(id: Id, seenMission: Mission, nextMission: MissionStatus, version: int, actor: Option<Id>)
    | OnJob(id: Id, seenJob: Job, nextJob: JobStatus, version: int, now: int, actor: Option<Id>)

  datatype Sys = Sys(db: Db, sessions: map<nat, Session>)

  /** `Other` is any transaction of the workflow, run in one piece. */
  datatype Step =
    | ReadMission(client: nat, id: Id, nextMission: MissionStatus, version: int, actor: Option<Id>)
    | ReadJob(client: nat, id: Id, nextJob: JobStatus, version: int, now: int, actor: Option<Id>)
    | Commit(client: nat)
    | Abandon(client: nat)
    | Other(op: Op)

  predicate MayMoveJob(db: Db, id: Id, next: JobStatus, now: int) {
    && id in db.jobs && (next.Completed? || next.Archived?)
    && (next.Completed? ==>
          db.jobs[id].missionId in db.missions && db.missions[db.jobs[id].missionId].CanExecuteAt(now))
    && MoveError(db.jobs[id], next, now).None?
  }

  function CommitResult(db: Db, s: Session): Result<Db, Error> {
    match s
    case OnMission(id, _, next, version, actor) =>
      var d :- UpdateMission(db, id, next, version);
      WriteAudit(d, actor, MissionObject, id, MissionAction(next))
    case OnJob(id, _, next, version, now, actor) =>
      var d :- MoveJob(db, id, next, version, now);
      WriteAudit(d, actor, JobObject, id, if next.Completed? then Complete else Archive)
  }

  function Do(sys: Sys, step: Step): Sys {
    match step
    case ReadMission(c, id, next, version, actor) =>
      if c !in sys.sessions && id in sys.db.missions && sys.db.missions[id].status.CanMoveTo(next)
      then sys.(sessions := sys.sessions[c := OnMission(id, sys.db.missions[id], next, version, actor)]) else sys
    case ReadJob(c, id, next, version, now, actor) =>
      if c !in sys.sessions && MayMoveJob(sys.db, id, next, now)
      then sys.(sessions := sys.sessions[c := OnJob(id, sys.db.jobs[id], next, version, now, actor)]) else sys
    case Commit(c) =>
      if c !in sys.sessions then sys
      else
        var r := CommitResult(sys.db, sys.sessions[c]);
        Sys(if r.Ok? then r.value else sys.db, sys.sessions - {c})
    case Abandon(c) => sys.(sessions := sys.sessions - {c})
    case Other(op) => sys.(db := Next(sys.db, op))
  }

  function Steps(sys: Sys, steps: seq<Step>): Sys {
    if steps == [] then sys else Do(Steps(sys, steps[..|steps| - 1]), steps[|steps| - 1])
  }

  // ---------- No ABA ----------

  /** A row of `later` was written to since `earlier` exactly as often as its version rose. */
  ghost predicate JobNotBehind(earlier: Job, later: Job) {
    && earlier.version <= later.version && later.buoyId == earlier.buoyId
    && (earlier.completedAt.Some? ==> later.completedAt.Some?)
    && (earlier.version == later.version ==> earlier == later)
  }

  ghost predicate MissionNotBehind(earlier: Mission, later: Mission) {
    earlier.version <= later.version && (earlier.version == later.version ==> earlier == later)
  }

  ghost predicate BuoyNotBehind(earlier: Buoy, later: Buoy) {
    earlier.completed <= later.completed && earlier.required == later.required
  }

  ghost predicate NotBehind(db: Db, d: Db) {
    && (forall j | j in db.jobs :: j in d.jobs && JobNotBehind(db.jobs[j], d.jobs[j]))
    && (forall m | m in db.missions :: m in d.missions && MissionNotBehind(db.missions[m], d.missions[m]))
    && (forall b | b in db.buoys :: b in d.buoys && BuoyNotBehind(db.buoys[b], d.buoys[b]))
  }

  lemma CompletionNotBehind(db: Db, id: Id, version: int, now: int, actor: Option<Id>, d: Db)
    requires CompleteJob(db, id, version, now, actor) == Ok(d)
    ensures NotBehind(db, d)
  {
    CompleteJobSteps(db, id, version, now, actor, d);
  }

  lemma PlainNotBehind(db: Db, d: Db)
    requires PlainStep(db, d)
    ensures NotBehind(db, d)
  {
  }

  lemma OtherNotBehind(db: Db, op: Op)
    ensures NotBehind(db, Next(db, op))
  {
    hide NotBehind, PlainStep, CompleteJob;
    if Apply(db, op).Ok? {
      if op.CompleteJobOp? {
        CompletionNotBehind(db, op.id, op.version, op.now, op.actor, Next(db, op));
      } else {
        hide Apply;
        ApplySteps(db, op, Next(db, op));
        PlainNotBehind(db, Next(db, op));
      }
    } else {
      SameNotBehind(db);
    }
  }

  lemma LogNotBehind(db: Db, mid: Db, d: Db)
    requires NotBehind(db, mid) && d == mid.(audits := d.audits)
    ensures NotBehind(db, d)
  {
  }

  lemma AdvanceNotBehind(db: Db, id: Id, next: MissionStatus, version: int, d: Db)
    requires UpdateMission(db, id, next, version) == Ok(d)
    ensures NotBehind(db, d)
  {
  }

  lemma CommitNotBehind(db: Db, s: Session)
    requires CommitResult(db, s).Ok?
    ensures NotBehind(db, CommitResult(db, s).value)
  {
    hide NotBehind, MoveJob, UpdateMission;
    match s
    case OnMission(id, _, next, version, _) =>
      var mid := UpdateMission(db, id, next, version).value;
      AdvanceNotBehind(db, id, next, version, mid);
      LogNotBehind(db, mid, CommitResult(db, s).value);
    case OnJob(id, _, next, version, now, _) =>
      var mid := MoveJob(db, id, next, version, now).value;
      MoveNotBehind(db, id, next, version, now, mid);
      LogNotBehind(db, mid, CommitResult(db, s).value);
  }

  lemma MoveNotBehind(db: Db, id: Id, next: JobStatus, version: int, now: int, d: Db)
    requires MoveJob(db, id, next, version, now) == Ok(d)
    ensures NotBehind(db, d)
  {
  }

  lemma SameNotBehind(db: Db)
    ensures NotBehind(db, db)
  {
  }

  lemma DoNotBehind(sys: Sys, step: Step)
    ensures NotBehind(sys.db, Do(sys, step).db)
  {
    hide NotBehind, Next, CommitResult;
    SameNotBehind(sys.db);
    match step
    case Other(op) => OtherNotBehind(sys.db, op);
    case Commit(c) =>
      if c in sys.sessions && CommitResult(sys.db, sys.sessions[c]).Ok? {
        CommitNotBehind(sys.db, sys.sessions[c]);
      }
    case _ =>
  }

  /** In any interleaving, a mission or job row that still has the version it had
      earlier is still the same row, column for column. */
  lemma {:induction false} EqualVersionsMeanEqualRows(sys: Sys, steps: seq<Step>)
    ensures NotBehind(sys.db, Steps(sys, steps).db)
    decreases |steps|
  {
    if steps != [] {
      EqualVersionsMeanEqualRows(sys, steps[..|steps| - 1]);
      DoNotBehind(Steps(sys, steps[..|steps| - 1]), steps[|steps| - 1]);
    }
  }

  // ---------- Commits along legal edges ----------

  /** What a session read is an earlier or the current state of its row, and its move
      was legal there. */
  ghost predicate SessionSound(db: Db, s: Session) {
    match s
    case OnMission(id, seen, next, _, _) =>
      id in db.missions && MissionNotBehind(seen, db.missions[id]) && seen.status.CanMoveTo(next)
    case OnJob(id, seen, next, _, _, _) =>
      && id in db.jobs && JobNotBehind(seen, db.jobs[id]) && seen.status.CanMoveTo(next)
      && (next.Completed? || next.Archived?)
  }

  ghost predicate AllSound(sys: Sys) {
    forall c | c in sys.sessions :: SessionSound(sys.db, sys.sessions[c])
  }

  lemma SessionStaysSound(db: Db, d: Db, s: Session)
    requires NotBehind(db, d) && SessionSound(db, s)
    ensures SessionSound(d, s)
  {
  }

  lemma DoStaysSound(sys: Sys, step: Step)
    requires AllSound(sys)
    ensures AllSound(Do(sys, step))
  {
    hide NotBehind, Next, CommitResult;
    var after := Do(sys, step);
    DoNotBehind(sys, step);
    forall c | c in after.sessions ensures SessionSound(after.db, after.sessions[c]) {
      if c in sys.sessions {
        SessionStaysSound(sys.db, after.db, sys.sessions[c]);
      }
    }
  }

  lemma {:induction false} SessionsStaySound(sys: Sys, steps: seq<Step>)
    requires AllSound(sys)
    ensures AllSound(Steps(sys, steps))
    decreases |steps|
  {
    hide Do, AllSound;
    if steps != [] {
      SessionsStaySound(sys, steps[..|steps| - 1]);
      DoStaysSound(Steps(sys, steps[..|steps| - 1]), steps[|steps| - 1]);
    }
  }

  /** The row a commit is about to overwrite has an edge to the requested status. */
  ghost predicate LegalNow(db: Db, s: Session) {
    match s
    case OnMission(id, _, next, _, _) => id in db.missions && db.missions[id].status.CanMoveTo(next)
    case OnJob(id, _, next, _, _, _) => id in db.jobs && db.jobs[id].status.CanMoveTo(next)
  }

  function SeenVersion(s: Session): int {
    match s case OnMission(_, seen, _, _, _) => seen.version case OnJob(_, seen, _, _, _, _) => seen.version
  }

  function RowVersion(db: Db, s: Session): Option<int> {
    match s
    case OnMission(id, _, _, _, _) => if id in db.missions then Some(db.missions[id].version) else None
    case OnJob(id, _, _, _, _, _) => if id in db.jobs then Some(db.jobs[id].version) else None
  }

  lemma MatchingCommit(sys: Sys, c: nat)
    requires c in sys.sessions && SessionSound(sys.db, sys.sessions[c])
    requires sys.sessions[c].version == SeenVersion(sys.sessions[c]) && CommitResult(sys.db, sys.sessions[c]).Ok?
    ensures LegalNow(sys.db, sys.sessions[c])
    ensures RowVersion(Do(sys, Commit(c)).db, sys.sessions[c]) == Some(sys.sessions[c].version + 1)
  {
  }

  /** When the caller's version is the version that was read, a commit that goes
      through in any interleaving moves the row actually written along a legal edge
      and raises its version by one. */
  lemma MatchingVersionCommitsLegally(db: Db, steps: seq<Step>, c: nat)
    requires var sys := Steps(Sys(db, map[]), steps);
             && c in sys.sessions && sys.sessions[c].version == SeenVersion(sys.sessions[c])
             && CommitResult(sys.db, sys.sessions[c]).Ok?
    ensures var sys := Steps(Sys(db, map[]), steps);
            && LegalNow(sys.db, sys.sessions[c])
            && RowVersion(Do(sys, Commit(c)).db, sys.sessions[c]) == Some(sys.sessions[c].version + 1)
  {
    hide CommitResult, SessionSound, Do;
    SessionsStaySound(Sys(db, map[]), steps);
    MatchingCommit(Steps(Sys(db, map[]), steps), c);
  }

  // ---------- Exactly when every interleaving is legal ----------

  /** However the rest of the system runs first, a commit of this session that goes
      through is legal. */
  ghost predicate AlwaysLegal(sys: Sys, c: nat)
    requires c in sys.sessions
  {
    forall steps | var t := Steps(sys, steps);
                   c in t.sessions && t.sessions[c] == sys.sessions[c] && CommitResult(t.db, t.sessions[c]).Ok? ::
      LegalNow(Steps(sys, steps).db, sys.sessions[c])
  }

  lemma OldVersionIsSafe(sys: Sys, c: nat)
    requires AllSound(sys) && c in sys.sessions && sys.sessions[c].version <= SeenVersion(sys.sessions[c])
    ensures AlwaysLegal(sys, c)
  {
    forall steps | var t := Steps(sys, steps);
                   c in t.sessions && t.sessions[c] == sys.sessions[c] && CommitResult(t.db, t.sessions[c]).Ok?
      ensures LegalNow(Steps(sys, steps).db, sys.sessions[c])
    {
      SessionsStaySound(sys, steps);
    }
  }

  /** Someone the log may name: the session's own actor, if it has one. */
  function Agent(s: Session): Id {
    if s.actor.Some? then s.actor.value else 0
  }

  /** Rivals: once that operator is registered, `k` other clients read the mission for the same move, each with the
      version the row will have when its turn comes. */
  function RivalReads(s: Session, c: nat, k: nat): seq<Step>
    requires s.OnMission?
  {
    if k == 0 then [Other(AddOperatorOp(Agent(s), true, None))]
    else RivalReads(s, c, k - 1)
         + [Abandon(c + k)]
         + [ReadMission(c + k, s.id, s.nextMission, s.seenMission.version + k - 1, None)]
  }

  function RivalCommits(c: nat, k: nat): seq<Step> {
    if k == 0 then [] else RivalCommits(c, k - 1) + [Commit(c + k)]
  }

  lemma StepsOne(sys: Sys, steps: seq<Step>, last: Step)
    ensures Steps(sys, steps + [last]) == Do(Steps(sys, steps), last)
  {
    assert (steps + [last])[..|steps|] == steps;
  }

  lemma StepsTwo(sys: Sys, steps: seq<Step>, a: Step, b: Step)
    ensures Steps(sys, steps + [a] + [b]) == Do(Do(Steps(sys, steps), a), b)
  {
    StepsOne(sys, steps, a);
    StepsOne(sys, steps + [a], b);
  }

  lemma {:induction false} StepsAppend(sys: Sys, first: seq<Step>, second: seq<Step>)
    ensures Steps(sys, first + second) == Steps(Steps(sys, first), second)
    decreases |second|
  {
    if second == [] {
      assert first + second == first;
    } else {
      var n := |second| - 1;
      assert (first + second)[..|first + second| - 1] == first + second[..n];
      StepsAppend(sys, first, second[..n]);
    }
  }

  ghost predicate RivalReady(sys: Sys, s: Session, c: nat, i: nat)
    requires s.OnMission?
  {
    && c + i in sys.sessions
    && sys.sessions[c + i] == OnMission(s.id, s.seenMission, s.nextMission, s.seenMission.version + i - 1, None)
  }

  ghost predicate RivalsReady(sys: Sys, s: Session, c: nat, from: nat, k: nat)
    requires s.OnMission?
  {
    forall i: nat | from < i <= k :: RivalReady(sys, s, c, i)
  }

  lemma RivalReadsRow(sys: Sys, s: Session, c: nat, k: nat)
    requires s.OnMission? && SessionSound(sys.db, s) && sys.db.missions[s.id] == s.seenMission && k > 0
    ensures var version := s.seenMission.version + k - 1;
            Do(Do(sys, Abandon(c + k)), ReadMission(c + k, s.id, s.nextMission, version, None))
            == sys.(sessions := sys.sessions[c + k := OnMission(s.id, s.seenMission, s.nextMission, version, None)])
  {
  }

  lemma AgentRegistered(sys: Sys, s: Session)
    ensures var t := Steps(sys, [Other(AddOperatorOp(Agent(s), true, None))]);
            && t.sessions == sys.sessions && Agent(s) in t.db.operators
            && t.db == sys.db.(operators := t.db.operators, audits := t.db.audits)
  {
    var only := [Other(AddOperatorOp(Agent(s), true, None))];
    assert only[..|only| - 1] == [];
    assert Steps(sys, []) == sys;
  }

  lemma RivalReadsAfterOthers(sys: Sys, s: Session, c: nat, k: nat)
    requires c in sys.sessions && sys.sessions[c] == s && s.OnMission? && SessionSound(sys.db, s)
    requires sys.db.missions[s.id] == s.seenMission && k > 0 && RivalsReady(sys, s, c, 0, k - 1)
    ensures var t := Do(Do(sys, Abandon(c + k)),
                        ReadMission(c + k, s.id, s.nextMission, s.seenMission.version + k - 1, None));
            t.db == sys.db && c in t.sessions && t.sessions[c] == s && RivalsReady(t, s, c, 0, k)
  {
    RivalReadsRow(sys, s, c, k);
    var t := Do(Do(sys, Abandon(c + k)), ReadMission(c + k, s.id, s.nextMission, s.seenMission.version + k - 1, None));
    forall i: nat | 0 < i <= k ensures RivalReady(t, s, c, i) {
      assert i < k ==> RivalReady(sys, s, c, i);
    }
  }

  lemma {:induction false} RivalsRead(sys: Sys, s: Session, c: nat, k: nat)
    requires c in sys.sessions && sys.sessions[c] == s && s.OnMission? && SessionSound(sys.db, s)
    requires sys.db.missions[s.id] == s.seenMission
    ensures var t := Steps(sys, RivalReads(s, c, k));
            && t.db.missions == sys.db.missions && Agent(s) in t.db.operators
            && c in t.sessions && t.sessions[c] == s && RivalsReady(t, s, c, 0, k)
  {
    hide Do;
    if k == 0 {
      AgentRegistered(sys, s);
    } else {
      var before := RivalReads(s, c, k - 1);
      RivalsRead(sys, s, c, k - 1);
      RivalReadsAfterOthers(Steps(sys, before), s, c, k);
      StepsTwo(sys, before, Abandon(c + k),
               ReadMission(c + k, s.id, s.nextMission, s.seenMission.version + k - 1, None));
    }
  }

  lemma RivalCommitsRow(sys: Sys, s: Session, c: nat, n: nat)
    requires s.OnMission? && n > 0 && c + n in sys.sessions
    requires sys.sessions[c + n] == OnMission(s.id, s.seenMission, s.nextMission, s.seenMission.version + n - 1, None)
    requires s.id in sys.db.missions && sys.db.missions[s.id].version == s.seenMission.version + n - 1
    ensures var t := Do(sys, Commit(c + n));
            && t.sessions == sys.sessions - {c + n}
            && s.id in t.db.missions && t.db.missions[s.id].version == s.seenMission.version + n
            && t.db.missions[s.id].status == s.nextMission && t.db.operators == sys.db.operators
  {
  }

  lemma NextRivalCommits(sys: Sys, s: Session, c: nat, k: nat, n: nat)
    requires c in sys.sessions && sys.sessions[c] == s && s.OnMission? && 0 < n <= k && RivalsReady(sys, s, c, n - 1, k)
    requires s.id in sys.db.missions && sys.db.missions[s.id].version == s.seenMission.version + n - 1
    ensures var t := Do(sys, Commit(c + n));
            && c in t.sessions && t.sessions[c] == s && RivalsReady(t, s, c, n, k)
            && s.id in t.db.missions && t.db.missions[s.id].version == s.seenMission.version + n
            && t.db.missions[s.id].status == s.nextMission && t.db.operators == sys.db.operators
  {
    assert RivalReady(sys, s, c, n);
    RivalCommitsRow(sys, s, c, n);
    hide Do;
    var t := Do(sys, Commit(c + n));
    forall i: nat | n < i <= k ensures RivalReady(t, s, c, i) {
      assert RivalReady(sys, s, c, i);
    }
  }

  lemma {:induction false} RivalsCommit(sys: Sys, s: Session, c: nat, k: nat, n: nat)
    requires c in sys.sessions && sys.sessions[c] == s && s.OnMission? && n <= k
    requires s.id in sys.db.missions && sys.db.missions[s.id] == s.seenMission && RivalsReady(sys, s, c, 0, k)
    ensures var t := Steps(sys, RivalCommits(c, n));
            && c in t.sessions && t.sessions[c] == s && RivalsReady(t, s, c, n, k)
            && s.id in t.db.missions && t.db.missions[s.id].version == s.seenMission.version + n
            && (n > 0 ==> t.db.missions[s.id].status == s.nextMission) && t.db.operators == sys.db.operators
  {
    if n > 0 {
      hide Do, RivalsReady;
      RivalsCommit(sys, s, c, k, n - 1);
      StepsOne(sys, RivalCommits(c, n - 1), Commit(c + n));
      NextRivalCommits(Steps(sys, RivalCommits(c, n - 1)), s, c, k, n);
    }
  }

  lemma FutureMissionVersionIsUnsafe(sys: Sys, c: nat)
    requires AllSound(sys) && c in sys.sessions && sys.sessions[c].OnMission?
    requires var s := sys.sessions[c];
             && sys.db.missions[s.id] == s.seenMission && s.version > s.seenMission.version
    ensures !AlwaysLegal(sys, c)
  {
    var s := sys.sessions[c];
    var k := s.version - s.seenMission.version;
    var opening, closing := RivalReads(s, c, k), RivalCommits(c, k);
    RivalsRead(sys, s, c, k);
    RivalsCommit(Steps(sys, opening), s, c, k, k);
    StepsAppend(sys, opening, closing);
    assert !LegalNow(Steps(sys, opening + closing).db, s);
  }

  /** A mission move is legal in every interleaving exactly when the caller's version
      is no newer than the row the transaction read. */
  lemma MissionMoveAlwaysLegalIff(sys: Sys, c: nat)
    requires AllSound(sys) && c in sys.sessions && sys.sessions[c].OnMission?
    requires sys.db.missions[sys.sessions[c].id] == sys.sessions[c].seenMission
    ensures AlwaysLegal(sys, c) <==> sys.sessions[c].version <= sys.sessions[c].seenMission.version
  {
    if sys.sessions[c].version <= sys.sessions[c].seenMission.version {
      OldVersionIsSafe(sys, c);
    } else {
      FutureMissionVersionIsUnsafe(sys, c);
    }
  }

  // ---------- Jobs: activation as the rival ----------

  /** `k` activations of the job from version `from` on, which check the version only, after
      registering an operator. */
  function Activations(s: Session, from: int, k: nat): seq<Step>
    requires s.OnJob?
  {
    if k == 0 then [Other(AddOperatorOp(Agent(s), true, None))]
    else Activations(s, from, k - 1) + [Other(ActivateJobOp(Handover(s.id, None, Agent(s), 0), from + k - 1, None))]
  }

  /** The job after `k` activations. */
  function Activated(job: Job, k: nat): Job {
    if k == 0 then job else job.(status := JobStatus.ActivationPending, version := job.version + k)
  }

  lemma ActivationRuns(sys: Sys, j: Id, agent: Id)
    requires j in sys.db.jobs && agent in sys.db.operators
    ensures var t := Do(sys, Other(ActivateJobOp(Handover(j, None, agent, 0), sys.db.jobs[j].version, None)));
            && t.sessions == sys.sessions && t.db.buoys == sys.db.buoys && t.db.operators == sys.db.operators
            && t.db.jobs == sys.db.jobs[j := Activated(sys.db.jobs[j], 1)]
  {
  }

  /** `t` is `sys` after a new operator and `k` activations of the session's job. */
  ghost predicate AfterActivations(sys: Sys, t: Sys, s: Session, k: nat)
    requires s.OnJob? && s.id in sys.db.jobs
  {
    && t.sessions == sys.sessions && t.db.buoys == sys.db.buoys && Agent(s) in t.db.operators
    && t.db.jobs == sys.db.jobs[s.id := Activated(sys.db.jobs[s.id], k)]
  }

  lemma NoActivationYet(sys: Sys, s: Session)
    requires s.OnJob? && s.id in sys.db.jobs
    ensures AfterActivations(sys, Steps(sys, [Other(AddOperatorOp(Agent(s), true, None))]), s, 0)
  {
    hide Do;
    AgentRegistered(sys, s);
  }

  lemma OneMoreActivation(sys: Sys, t: Sys, s: Session, k: nat)
    requires s.OnJob? && s.id in sys.db.jobs && AfterActivations(sys, t, s, k)
    ensures var h, version := Handover(s.id, None, Agent(s), 0), sys.db.jobs[s.id].version + k;
            AfterActivations(sys, Do(t, Other(ActivateJobOp(h, version, None))), s, k + 1)
  {
    hide Do;
    ActivationRuns(t, s.id, Agent(s));
  }

  lemma {:induction false} ActivationsRun(sys: Sys, s: Session, k: nat)
    requires s.OnJob? && s.id in sys.db.jobs
    ensures AfterActivations(sys, Steps(sys, Activations(s, sys.db.jobs[s.id].version, k)), s, k)
  {
    hide Do, AfterActivations;
    if k == 0 {
      NoActivationYet(sys, s);
    } else {
      ActivationsRun(sys, s, k - 1);
      var from := sys.db.jobs[s.id].version;
      StepsOne(sys, Activations(s, from, k - 1),
               Other(ActivateJobOp(Handover(s.id, None, Agent(s), 0), from + k - 1, None)));
      OneMoreActivation(sys, Steps(sys, Activations(s, from, k - 1)), s, k - 1);
    }
  }

  predicate BuoyFull(db: Db, b: Id) {
    b in db.buoys && db.buoys[b].completed >= db.buoys[b].required
  }

  lemma FullBuoyNeverCommits(sys: Sys, steps: seq<Step>, s: Session)
    requires s.OnJob? && s.nextJob.Completed? && SessionSound(sys.db, s) && BuoyFull(sys.db, s.seenJob.buoyId)
    ensures CommitResult(Steps(sys, steps).db, s).Err?
  {
    EqualVersionsMeanEqualRows(sys, steps);
    SessionStaysSound(sys.db, Steps(sys, steps).db, s);
  }

  lemma FullBuoyIsSafe(sys: Sys, c: nat)
    requires AllSound(sys) && c in sys.sessions && sys.sessions[c].OnJob? && sys.sessions[c].nextJob.Completed?
    requires BuoyFull(sys.db, sys.sessions[c].seenJob.buoyId)
    ensures AlwaysLegal(sys, c)
  {
    forall steps ensures CommitResult(Steps(sys, steps).db, sys.sessions[c]).Err? {
      FullBuoyNeverCommits(sys, steps, sys.sessions[c]);
    }
  }

  lemma ActivatedCommitsIllegally(sys: Sys, t: Sys, s: Session, k: nat)
    requires s.OnJob? && s.id in sys.db.jobs && AfterActivations(sys, t, s, k) && k > 0
    requires s.version == sys.db.jobs[s.id].version + k && (s.nextJob.Completed? || s.nextJob.Archived?)
    requires var b := sys.db.jobs[s.id].buoyId;
             b in sys.db.buoys && !(s.nextJob.Completed? && BuoyFull(sys.db, b))
    ensures CommitResult(t.db, s).Ok? && !LegalNow(t.db, s)
  {
  }

  lemma FutureJobVersionIsUnsafe(sys: Sys, c: nat)
    requires AllSound(sys) && c in sys.sessions && sys.sessions[c].OnJob?
    requires var s := sys.sessions[c];
             && sys.db.jobs[s.id] == s.seenJob && s.version > s.seenJob.version
             && s.seenJob.buoyId in sys.db.buoys && !(s.nextJob.Completed? && BuoyFull(sys.db, s.seenJob.buoyId))
    ensures !AlwaysLegal(sys, c)
  {
    hide CommitResult, LegalNow, Do;
    var s := sys.sessions[c];
    var k := s.version - s.seenJob.version;
    var steps := Activations(s, s.seenJob.version, k);
    ActivationsRun(sys, s, k);
    ActivatedCommitsIllegally(sys, Steps(sys, steps), s, k);
    assert !LegalNow(Steps(sys, steps).db, s);
  }

  /** A completion or archival is legal in every interleaving exactly when the
      caller's version is no newer than the row read, or no install is left to claim. */
  lemma JobMoveAlwaysLegalIff(sys: Sys, c: nat)
    requires AllSound(sys) && c in sys.sessions && sys.sessions[c].OnJob?
    requires sys.db.jobs[sys.sessions[c].id] == sys.sessions[c].seenJob
    requires sys.sessions[c].seenJob.buoyId in sys.db.buoys
    ensures AlwaysLegal(sys, c)
            <==> || sys.sessions[c].version <= sys.sessions[c].seenJob.version
                 || (sys.sessions[c].nextJob.Completed? && BuoyFull(sys.db, sys.sessions[c].seenJob.buoyId))
  {
    if sys.sessions[c].version <= sys.sessions[c].seenJob.version {
      OldVersionIsSafe(sys, c);
    } else if sys.sessions[c].nextJob.Completed? && BuoyFull(sys.db, sys.sessions[c].seenJob.buoyId) {
      FullBuoyIsSafe(sys, c);
    } else {
      FutureJobVersionIsUnsafe(sys, c);
    }
  }
}
