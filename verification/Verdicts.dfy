/** How every transaction ends, read off the tables as they are before it: the error it meets
    first, or none. */
module Verdicts {
  import opened Prelude
  import opened Status
  import opened Tables
  import opened Transactions

  /** The log refuses an actor it does not know. */
  predicate Stranger(db: Db, actor: Option<Id>) {
    actor.Some? && actor.value !in db.operators
  }

  function ConflictIf(b: bool): Option<Error> {
    if b then Some(Conflict) else None
  }

  // ---------- Creations ----------

  predicate MissionMalformed(m: MissionInput) {
    || !ValidCode(m.code) || m.buoys == [] || m.endsAt <= m.startsAt
    || (exists i | 0 <= i < |m.buoys| :: m.buoys[i].required < 1 || !ValidCode(m.buoys[i].code))
    || (exists i, k | 0 <= i < k < |m.buoys| :: m.buoys[i].code == m.buoys[k].code)
  }

  /** Some buoy of the list cannot be stored beside the others and the table. */
  predicate BuoysTaken(buoys: map<Id, Buoy>, missionId: Id, inputs: seq<BuoyInput>) {
    || (exists i | 0 <= i < |inputs| :: Unstorable(buoys, missionId, inputs[i]))
    || (exists i, k | 0 <= i < k < |inputs| :: inputs[i].id == inputs[k].id || inputs[i].code == inputs[k].code)
  }

  predicate Unstorable(buoys: map<Id, Buoy>, missionId: Id, input: BuoyInput) {
    input.id in buoys || input.required < 1 || BuoyCodeTaken(buoys, missionId, input.code)
  }

  predicate BuoyCodeTaken(buoys: map<Id, Buoy>, missionId: Id, code: string) {
    exists b | b in buoys :: buoys[b].missionId == missionId && buoys[b].code == code
  }

  function CreateMissionVerdict(db: Db, id: Id, m: MissionInput, now: int, actor: Option<Id>): Option<Error> {
    if MissionMalformed(m) then Some(Conflict)
    else if m.endsAt < now then Some(Expired)
    else
      ConflictIf(id in db.missions || m.creator !in db.operators || Stranger(db, actor)
                 || (exists n | n in db.missions :: db.missions[n].code == m.code)
                 || BuoysTaken(db.buoys, id, m.buoys))
  }

  predicate JobCodeTaken(jobs: map<Id, Job>, code: string) {
    exists j | j in jobs :: jobs[j].code == code
  }

  predicate Misplaced(db: Db, input: JobInput) {
    || input.missionId !in db.missions || input.buoyId !in db.buoys
    || db.buoys[input.buoyId].missionId != input.missionId
    || input.id in db.jobs || JobCodeTaken(db.jobs, input.code)
  }

  function CreateJobVerdict(db: Db, input: JobInput, now: int, actor: Option<Id>): Option<Error> {
    if Blank(input.code) then Some(Conflict)
    else if input.expiresAt < now then Some(Expired)
    else ConflictIf(!ValidCode(input.code) || Misplaced(db, input) || Stranger(db, actor))
  }

  /** The first blank, overdue or repeated request from the `i`-th on. */
  function FirstFault(inputs: seq<JobInput>, i: nat, now: int): Option<Error>
    requires i <= |inputs|
    decreases |inputs| - i
  {
    if i == |inputs| then None
    else if Blank(inputs[i].code) then Some(Conflict)
    else if inputs[i].expiresAt < now then Some(Expired)
    else if exists k | 0 <= k < i :: inputs[k].code == inputs[i].code then Some(Conflict)
    else FirstFault(inputs, i + 1, now)
  }

  predicate SomeMisplaced(db: Db, inputs: seq<JobInput>) {
    || (exists i | 0 <= i < |inputs| :: Misplaced(db, inputs[i]))
    || (exists i, k | 0 <= i < k < |inputs| :: inputs[i].id == inputs[k].id || inputs[i].code == inputs[k].code)
  }

  function CreateJobsVerdict(db: Db, inputs: seq<JobInput>, now: int, actor: Option<Id>): Option<Error> {
    if inputs == [] then Some(Conflict)
    else
      var fault := FirstFault(inputs, 0, now);
      if fault.Some? then fault else ConflictIf(SomeMisplaced(db, inputs) || Stranger(db, actor))
  }

  /** The first job that cannot be attached to the window. */
  function FirstUnfit(db: Db, w: Id, jobIds: seq<Id>, now: int): Option<Error> {
    if jobIds == [] then None
    else if (w, jobIds[0]) in db.items || jobIds[0] !in db.jobs then Some(Conflict)
    else if db.jobs[jobIds[0]].status != JobStatus.Accepted || db.jobs[jobIds[0]].expiresAt < now
    then Some(InvalidTransition)
    else FirstUnfit(db, w, jobIds[1..], now)
  }

  function CreateWindowVerdict(db: Db, id: Id, code: string, capacity: int, jobIds: seq<Id>, now: int,
                               actor: Option<Id>): Option<Error> {
    if |jobIds| == 0 || |jobIds| > capacity then Some(CapacityExceeded)
    else if !ValidCode(code) || (exists i, k | 0 <= i < k < |jobIds| :: jobIds[i] == jobIds[k])
            || id in db.windows || exists w | w in db.windows :: db.windows[w].code == code
    then Some(Conflict)
    else
      var unfit := FirstUnfit(db, id, jobIds, now);
      if unfit.Some? then unfit else ConflictIf(Stranger(db, actor))
  }

  // ---------- Moves ----------

  function AdvanceVerdict(db: Db, id: Id, next: MissionStatus, version: int, actor: Option<Id>): Option<Error> {
    if id !in db.missions then Some(NotFound)
    else if !db.missions[id].status.CanMoveTo(next) then Some(InvalidTransition)
    else ConflictIf(db.missions[id].version != version || Stranger(db, actor))
  }

  function CompleteJobVerdict(db: Db, id: Id, version: int, now: int, actor: Option<Id>): Option<Error> {
    if id !in db.jobs || db.jobs[id].missionId !in db.missions then Some(NotFound)
    else
      var job := db.jobs[id];
      var mission := db.missions[job.missionId];
      if mission.status != MissionStatus.Active || now < mission.startsAt || mission.endsAt <= now
         || job.status != JobStatus.Queued
      then Some(InvalidTransition)
      else if job.expiresAt < now then Some(Expired)
      else
        ConflictIf(job.version != version || job.buoyId !in db.buoys || Stranger(db, actor)
                   || db.buoys[job.buoyId].required <= db.buoys[job.buoyId].completed)
  }

  function ArchiveJobVerdict(db: Db, id: Id, version: int, actor: Option<Id>): Option<Error> {
    if id !in db.jobs then Some(NotFound)
    else if db.jobs[id].status != JobStatus.Verified && db.jobs[id].status != JobStatus.Rejected
    then Some(InvalidTransition)
    else ConflictIf(db.jobs[id].version != version || Stranger(db, actor))
  }

  function HandOverVerdict(db: Db, h: Handover, version: int, actor: Option<Id>): Option<Error> {
    ConflictIf(h.jobId !in db.jobs || db.jobs[h.jobId].version != version || h.to !in db.operators
               || (h.from.Some? && h.from.value !in db.operators) || Stranger(db, actor))
  }

  /** Some item of the window has no report that was reviewed, or one that is still pending. */
  predicate Unreviewed(db: Db, w: Id) {
    exists p | p in db.items && p.0 == w ::
      || (forall r | r in db.reports :: !ReportFor(db.reports, r, w, p.1))
      || (exists r :: r in db.reports && ReportFor(db.reports, r, w, p.1) && db.reports[r].status.Pending?)
  }

  predicate AnyReport(db: Db, w: Id) {
    exists r | r in db.reports :: db.reports[r].windowId == w
  }

  function StartVerdict(db: Db, id: Id, version: int, actor: Option<Id>): Option<Error> {
    ConflictIf(id !in db.windows || db.windows[id].version != version || db.windows[id].status != Waiting
               || Stranger(db, actor))
  }

  function FinishVerdict(db: Db, id: Id, version: int, actor: Option<Id>): Option<Error> {
    ConflictIf(id !in db.windows || db.windows[id].version != version || db.windows[id].status != Running
               || Unreviewed(db, id) || Stranger(db, actor))
  }

  function CancelVerdict(db: Db, id: Id, version: int, actor: Option<Id>): Option<Error> {
    ConflictIf(id !in db.windows || db.windows[id].version != version || AnyReport(db, id)
               || (db.windows[id].status != Waiting && db.windows[id].status != Running) || Stranger(db, actor))
  }

  // ---------- Reports and incidents ----------

  function SubmitVerdict(db: Db, id: Id, jobId: Id, windowId: Id, recorder: Id, actor: Option<Id>): Option<Error> {
    if (windowId, jobId) !in db.items || jobId !in db.jobs || windowId !in db.windows then Some(Conflict)
    else if db.jobs[jobId].status != JobStatus.InProgress || db.windows[windowId].status != Running
    then Some(InvalidTransition)
    else if recorder !in db.operators then Some(NotFound)
    else
      ConflictIf(!db.operators[recorder] || id in db.reports || Stranger(db, actor)
                 || exists r | r in db.reports ::
                      db.reports[r].windowId == windowId && db.reports[r].jobId == jobId)
  }

  predicate OpenIncidentOf(db: Db, jobId: Id, kind: IncidentKind) {
    exists i | i in db.incidents ::
      db.incidents[i].jobId == jobId && db.incidents[i].kind == kind && db.incidents[i].status == Opened
  }

  function ReviewVerdict(db: Db, input: ReviewInput, actor: Option<Id>): Option<Error> {
    if input.reportId !in db.reports then Some(NotFound)
    else
      var report := db.reports[input.reportId];
      ConflictIf(report.jobId != input.jobId || report.status != ReportStatus.Pending
                 || report.version != input.reportVersion
                 || input.jobId !in db.jobs || db.jobs[input.jobId].version != input.jobVersion
                 || (!input.accepted
                     && (input.incidentId in db.incidents || OpenIncidentOf(db, input.jobId, Reassess)))
                 || Stranger(db, actor))
  }

  function OpenIncidentVerdict(db: Db, id: Id, jobId: Id, kind: IncidentKind, dueAt: Option<int>, now: int,
                               actor: Option<Id>): Option<Error> {
    ConflictIf((dueAt.Some? && dueAt.value < now - 86_400_000_000_000)
               || id in db.incidents || jobId !in db.jobs || OpenIncidentOf(db, jobId, kind) || Stranger(db, actor))
  }

  predicate TwinIs(db: Db, id: Id, status: IncidentStatus)
    requires id in db.incidents
  {
    exists i | i in db.incidents ::
      i != id && db.incidents[i].jobId == db.incidents[id].jobId && db.incidents[i].kind == db.incidents[id].kind
      && db.incidents[i].status == status
  }

  function StartIncidentVerdict(db: Db, id: Id, actor: Option<Id>): Option<Error> {
    if id !in db.incidents || db.incidents[id].status != Opened then Some(Conflict)
    else if TwinIs(db, id, Handling) then Some(Unavailable)
    else ConflictIf(Stranger(db, actor))
  }

  function CloseIncidentVerdict(db: Db, id: Id, actor: Option<Id>): Option<Error> {
    if id !in db.incidents || db.incidents[id].status == Settled then Some(Conflict)
    else if TwinIs(db, id, Settled) then Some(Unavailable)
    else ConflictIf(Stranger(db, actor))
  }

  function Verdict(db: Db, op: Op): Option<Error> {
    match op
    case AddOperatorOp(id, _, actor) =>
      ConflictIf(id in db.operators || (actor.Some? && actor.value != id && actor.value !in db.operators))
    case CreateMissionOp(id, m, now, actor) => CreateMissionVerdict(db, id, m, now, actor)
    case AdvanceMissionOp(id, next, version, actor) => AdvanceVerdict(db, id, next, version, actor)
    case CreateJobOp(job, now, actor) => CreateJobVerdict(db, job, now, actor)
    case CreateJobsBulkOp(jobs, now, actor) => CreateJobsVerdict(db, jobs, now, actor)
    case CompleteJobOp(id, version, now, actor) => CompleteJobVerdict(db, id, version, now, actor)
    case ArchiveJobOp(id, version, _, actor) => ArchiveJobVerdict(db, id, version, actor)
    case ActivateJobOp(h, version, actor) => HandOverVerdict(db, h, version, actor)
    case AcceptJobOp(h, version, actor) => HandOverVerdict(db, h, version, actor)
    case CreateWindowOp(id, code, capacity, jobIds, now, actor) =>
      CreateWindowVerdict(db, id, code, capacity, jobIds, now, actor)
    case StartWindowOp(id, version, _, actor) => StartVerdict(db, id, version, actor)
    case CompleteWindowOp(id, version, _, actor) => FinishVerdict(db, id, version, actor)
    case CancelWindowOp(id, version, _, actor) => CancelVerdict(db, id, version, actor)
    case SubmitReportOp(id, jobId, windowId, recorder, actor) =>
      SubmitVerdict(db, id, jobId, windowId, recorder, actor)
    case ReviewReportOp(review, _, actor) => ReviewVerdict(db, review, actor)
    case OpenIncidentOp(id, jobId, kind, dueAt, now, actor) =>
      OpenIncidentVerdict(db, id, jobId, kind, dueAt, now, actor)
    case StartIncidentOp(id, actor) => StartIncidentVerdict(db, id, actor)
    case CloseIncidentOp(id, actor) => CloseIncidentVerdict(db, id, actor)
    case SweepOp(now, limit, picked) => if SweepPicks(db.jobs, now, limit, picked) then None else Some(Unavailable)
  }

  // ---------- The verdicts are right ----------

  ghost predicate Ends<T>(r: Result<T, Error>, verdict: Option<Error>) {
    if verdict.None? then r.Ok? else r == Err(verdict.value)
  }

  lemma FirstBuoyEnds(db: Db, missionId: Id, input: BuoyInput)
    requires missionId in db.missions
    ensures Ends(InsertBuoy(db, missionId, input), ConflictIf(Unstorable(db.buoys, missionId, input)))
    ensures InsertBuoy(db, missionId, input).Ok? ==> missionId in InsertBuoy(db, missionId, input).value.missions
  {
  }

  lemma {:induction false} BuoysEnd(db: Db, missionId: Id, inputs: seq<BuoyInput>)
    requires missionId in db.missions
    ensures Ends(InsertBuoys(db, missionId, inputs), ConflictIf(BuoysTaken(db.buoys, missionId, inputs)))
    decreases |inputs|
  {
    if inputs != [] {
      hide Unstorable, InsertBuoy;
      FirstBuoyEnds(db, missionId, inputs[0]);
      if InsertBuoy(db, missionId, inputs[0]).Ok? {
        BuoysEnd(InsertBuoy(db, missionId, inputs[0]).value, missionId, inputs[1..]);
        OneBuoyLess(db, InsertBuoy(db, missionId, inputs[0]).value, missionId, inputs);
      } else {
        assert Unstorable(db.buoys, missionId, inputs[0]);
      }
    }
  }

  lemma UnstorableAfter(db: Db, next: Db, missionId: Id, first: BuoyInput, input: BuoyInput)
    requires InsertBuoy(db, missionId, first) == Ok(next)
    ensures !Unstorable(db.buoys, missionId, first)
    ensures Unstorable(next.buoys, missionId, input)
            <==> Unstorable(db.buoys, missionId, input) || input.id == first.id || input.code == first.code
  {
    assert first.id in next.buoys && next.buoys[first.id] == Buoy(missionId, first.code, first.required, 0);
    if b :| b in db.buoys && db.buoys[b].missionId == missionId && db.buoys[b].code == input.code {
      assert b in next.buoys && next.buoys[b] == db.buoys[b];
    }
  }

  lemma OneBuoyLess(db: Db, next: Db, missionId: Id, inputs: seq<BuoyInput>)
    requires inputs != [] && InsertBuoy(db, missionId, inputs[0]) == Ok(next)
    ensures BuoysTaken(next.buoys, missionId, inputs[1..]) <==> BuoysTaken(db.buoys, missionId, inputs)
  {
    hide Unstorable, InsertBuoy;
    var rest := inputs[1..];
    assert forall i | 0 <= i < |rest| :: rest[i] == inputs[i + 1];
    UnstorableAfter(db, next, missionId, inputs[0], inputs[0]);
    forall input: BuoyInput
      ensures Unstorable(next.buoys, missionId, input)
              <==> Unstorable(db.buoys, missionId, input) || input.id == inputs[0].id || input.code == inputs[0].code
    {
      UnstorableAfter(db, next, missionId, inputs[0], input);
    }
    if BuoysTaken(db.buoys, missionId, inputs) {
      if i :| 0 <= i < |inputs| && Unstorable(db.buoys, missionId, inputs[i]) {
        assert i > 0 && rest[i - 1] == inputs[i];
      } else {
        var i, k :| 0 <= i < k < |inputs| && (inputs[i].id == inputs[k].id || inputs[i].code == inputs[k].code);
        assert rest[k - 1] == inputs[k];
        assert i > 0 ==> rest[i - 1] == inputs[i];
      }
    }
    if BuoysTaken(next.buoys, missionId, rest) {
      if i :| 0 <= i < |rest| && Unstorable(next.buoys, missionId, rest[i]) {
        assert inputs[i + 1] == rest[i];
      } else {
        var i, k :| 0 <= i < k < |rest| && (rest[i].id == rest[k].id || rest[i].code == rest[k].code);
        assert inputs[i + 1] == rest[i] && inputs[k + 1] == rest[k];
      }
    }
  }

  lemma CreateMissionEnds(db: Db, id: Id, m: MissionInput, now: int, actor: Option<Id>)
    ensures Ends(CreateMission(db, id, m, now, actor), CreateMissionVerdict(db, id, m, now, actor))
  {
    hide ValidCode, BuoysTaken;
    var row := Mission(m.code, Draft, m.startsAt, m.endsAt, 1);
    if InsertMission(db, id, m.creator, row).Ok? {
      BuoysEnd(InsertMission(db, id, m.creator, row).value, id, m.buoys);
      InsertedBuoysKeepOperators(InsertMission(db, id, m.creator, row).value, id, m.buoys);
    }
    assert MissionMalformed(m) <==> !ValidCode(m.code) || !BuoyInputsValid(m.buoys) || m.endsAt <= m.startsAt;
  }

  lemma {:induction false} InsertedBuoysKeepOperators(db: Db, missionId: Id, inputs: seq<BuoyInput>)
    ensures InsertBuoys(db, missionId, inputs).Ok? ==>
              InsertBuoys(db, missionId, inputs).value.operators == db.operators
    decreases |inputs|
  {
    if inputs != [] && InsertBuoy(db, missionId, inputs[0]).Ok? {
      InsertedBuoysKeepOperators(InsertBuoy(db, missionId, inputs[0]).value, missionId, inputs[1..]);
    }
  }

  lemma CreateJobEnds(db: Db, input: JobInput, now: int, actor: Option<Id>)
    ensures Ends(CreateJob(db, input, now, actor), CreateJobVerdict(db, input, now, actor))
  {
    hide ValidCode, Blank;
  }

  lemma {:induction false} FaultIsBulkError(inputs: seq<JobInput>, i: nat, now: int, seen: set<string>)
    requires i <= |inputs| && seen == set k | 0 <= k < i :: inputs[k].code
    ensures BulkError(inputs[i..], now, seen) == FirstFault(inputs, i, now)
    decreases |inputs| - i
  {
    hide Blank;
    if i < |inputs| {
      assert inputs[i..][0] == inputs[i] && inputs[i..][1..] == inputs[i + 1..];
      FaultIsBulkError(inputs, i + 1, now, seen + {inputs[i].code});
    }
  }

  lemma MisplacedAfter(db: Db, next: Db, first: JobInput, input: JobInput)
    requires PlaceJob(db, first) == Ok(next)
    ensures !Misplaced(db, first)
    ensures Misplaced(next, input) <==> Misplaced(db, input) || input.id == first.id || input.code == first.code
  {
    assert first.id in next.jobs && next.jobs[first.id].code == first.code;
    if j :| j in db.jobs && db.jobs[j].code == input.code {
      assert j in next.jobs && next.jobs[j] == db.jobs[j];
    }
  }

  lemma OneJobLess(db: Db, next: Db, inputs: seq<JobInput>)
    requires inputs != [] && PlaceJob(db, inputs[0]) == Ok(next)
    ensures SomeMisplaced(next, inputs[1..]) <==> SomeMisplaced(db, inputs)
  {
    hide Misplaced, PlaceJob;
    var rest := inputs[1..];
    assert forall i | 0 <= i < |rest| :: rest[i] == inputs[i + 1];
    MisplacedAfter(db, next, inputs[0], inputs[0]);
    forall input: JobInput
      ensures Misplaced(next, input)
              <==> Misplaced(db, input) || input.id == inputs[0].id || input.code == inputs[0].code
    {
      MisplacedAfter(db, next, inputs[0], input);
    }
    if SomeMisplaced(db, inputs) {
      if i :| 0 <= i < |inputs| && Misplaced(db, inputs[i]) {
        assert i > 0 && rest[i - 1] == inputs[i];
      } else {
        var i, k :| 0 <= i < k < |inputs| && (inputs[i].id == inputs[k].id || inputs[i].code == inputs[k].code);
        assert rest[k - 1] == inputs[k];
        assert i > 0 ==> rest[i - 1] == inputs[i];
      }
    }
    if SomeMisplaced(next, rest) {
      if i :| 0 <= i < |rest| && Misplaced(next, rest[i]) {
        assert inputs[i + 1] == rest[i];
      } else {
        var i, k :| 0 <= i < k < |rest| && (rest[i].id == rest[k].id || rest[i].code == rest[k].code);
        assert inputs[i + 1] == rest[i] && inputs[k + 1] == rest[k];
      }
    }
  }

  lemma FirstJobEnds(db: Db, input: JobInput)
    ensures Ends(PlaceJob(db, input), ConflictIf(Misplaced(db, input)))
  {
  }

  lemma {:induction false} JobsEnd(db: Db, inputs: seq<JobInput>)
    ensures Ends(PlaceJobs(db, inputs), ConflictIf(SomeMisplaced(db, inputs)))
    ensures PlaceJobs(db, inputs).Ok? ==> PlaceJobs(db, inputs).value.operators == db.operators
    decreases |inputs|
  {
    if inputs != [] {
      hide Misplaced;
      FirstJobEnds(db, inputs[0]);
      if PlaceJob(db, inputs[0]).Ok? {
        JobsEnd(PlaceJob(db, inputs[0]).value, inputs[1..]);
        OneJobLess(db, PlaceJob(db, inputs[0]).value, inputs);
      } else {
        assert Misplaced(db, inputs[0]);
      }
    }
  }

  lemma CreateJobsEnd(db: Db, inputs: seq<JobInput>, now: int, actor: Option<Id>)
    ensures Ends(CreateJobsBulk(db, inputs, now, actor), CreateJobsVerdict(db, inputs, now, actor))
  {
    hide SomeMisplaced, FirstFault, BulkError, PlaceJobs;
    if inputs != [] {
      assert inputs[0..] == inputs;
      FaultIsBulkError(inputs, 0, now, {});
      JobsEnd(db, inputs);
    }
  }

  lemma UnfitElsewhere(db: Db, next: Db, w: Id, jobIds: seq<Id>, now: int, first: Id)
    requires AttachItem(db, w, first, now) == Ok(next) && first !in jobIds
    ensures FirstUnfit(next, w, jobIds, now) == FirstUnfit(db, w, jobIds, now)
    decreases |jobIds|
  {
    if jobIds != [] {
      UnfitElsewhere(db, next, w, jobIds[1..], now, first);
    }
  }

  lemma {:induction false} AttachEnds(db: Db, w: Id, jobIds: seq<Id>, now: int)
    requires w in db.windows && Distinct(jobIds)
    ensures Ends(AttachItems(db, w, jobIds, now), FirstUnfit(db, w, jobIds, now))
    ensures AttachItems(db, w, jobIds, now).Ok? ==> AttachItems(db, w, jobIds, now).value.operators == db.operators
    decreases |jobIds|
  {
    if jobIds != [] {
      assert jobIds == [jobIds[0]] + jobIds[1..];
      assert jobIds[0] !in jobIds[1..];
      if AttachItem(db, w, jobIds[0], now).Ok? {
        var next := AttachItem(db, w, jobIds[0], now).value;
        AttachEnds(next, w, jobIds[1..], now);
        UnfitElsewhere(db, next, w, jobIds[1..], now, jobIds[0]);
      }
    }
  }

  lemma UnfitIgnoresWindows(db: Db, d: Db, w: Id, jobIds: seq<Id>, now: int)
    requires d.items == db.items && d.jobs == db.jobs
    ensures FirstUnfit(d, w, jobIds, now) == FirstUnfit(db, w, jobIds, now)
    decreases |jobIds|
  {
    if jobIds != [] {
      UnfitIgnoresWindows(db, d, w, jobIds[1..], now);
    }
  }

  lemma CreateWindowEnds(db: Db, id: Id, code: string, capacity: int, jobIds: seq<Id>, now: int, actor: Option<Id>)
    ensures Ends(CreateWindow(db, id, code, capacity, jobIds, now, actor),
                 CreateWindowVerdict(db, id, code, capacity, jobIds, now, actor))
  {
    hide ValidCode, AttachItems, FirstUnfit;
    if |jobIds| > 0 && |jobIds| <= capacity && Distinct(jobIds) && InsertWindow(db, id, code, capacity).Ok? {
      var next := InsertWindow(db, id, code, capacity).value;
      AttachEnds(next, id, jobIds, now);
      UnfitIgnoresWindows(db, next, id, jobIds, now);
    }
  }

  lemma JobMovesEnd(db: Db, op: Op)
    requires op.AdvanceMissionOp? || op.CompleteJobOp? || op.ArchiveJobOp?
    ensures Ends(Apply(db, op), Verdict(db, op))
  {
  }

  lemma HandOverEnds(db: Db, h: Handover, next: JobStatus, version: int, actor: Option<Id>, action: Action)
    requires !next.Completed?
    ensures Ends(HandOver(db, h, next, version, actor, action), HandOverVerdict(db, h, version, actor))
  {
  }

  lemma UnreviewedIff(db: Db, w: Id)
    ensures Unreviewed(db, w) <==> !AllItemsReviewed(db.items, db.reports, w)
  {
  }

  lemma WindowMovesEnd(db: Db, op: Op)
    requires op.StartWindowOp? || op.CompleteWindowOp? || op.CancelWindowOp?
    ensures Ends(Apply(db, op), Verdict(db, op))
  {
    hide Unreviewed, AllItemsReviewed;
    UnreviewedIff(db, op.id);
  }

  lemma SubmitEnds(db: Db, id: Id, jobId: Id, windowId: Id, recorder: Id, actor: Option<Id>)
    ensures Ends(SubmitReport(db, id, jobId, windowId, recorder, actor),
                 SubmitVerdict(db, id, jobId, windowId, recorder, actor))
  {
    assert (exists r | r in db.reports :: ReportFor(db.reports, r, windowId, jobId))
           <==> exists r | r in db.reports :: db.reports[r].windowId == windowId && db.reports[r].jobId == jobId;
  }

  lemma RefusalEnds(db: Db, input: ReviewInput, now: int, actor: Option<Id>)
    requires input.jobId in db.jobs
    ensures Ends(EscalateRefusal(db, input, now, actor),
                 ConflictIf(input.incidentId in db.incidents || OpenIncidentOf(db, input.jobId, Reassess)
                            || Stranger(db, actor)))
    ensures EscalateRefusal(db, input, now, actor).Ok? ==>
              EscalateRefusal(db, input, now, actor).value.operators == db.operators
  {
  }

  lemma ReviewEnds(db: Db, input: ReviewInput, now: int, actor: Option<Id>)
    ensures Ends(ReviewReport(db, input, now, actor), ReviewVerdict(db, input, actor))
  {
    hide EscalateRefusal, OpenIncidentOf;
    if input.reportId in db.reports {
      var first := ReviewReportRow(db, input.reportId, input.accepted, input.reportVersion, now);
      if first.Ok? {
        var second := MoveJob(first.value, input.jobId,
                              if input.accepted then JobStatus.Verified else JobStatus.Rejected, input.jobVersion, now);
        if second.Ok? {
          RefusalEnds(second.value, input, now, actor);
          SameIncidents(db, second.value, input.jobId);
        }
      }
    }
  }

  lemma SameIncidents(db: Db, d: Db, jobId: Id)
    requires d.incidents == db.incidents
    ensures OpenIncidentOf(d, jobId, Reassess) <==> OpenIncidentOf(db, jobId, Reassess)
  {
  }

  lemma IncidentsEnd(db: Db, op: Op)
    requires op.OpenIncidentOp? || op.StartIncidentOp? || op.CloseIncidentOp?
    ensures Ends(Apply(db, op), Verdict(db, op))
  {
  }

  /** Over all nineteen transactions: which error one ends with, or that it commits, is decided
      by the tables before it, loops over buoys, requests and jobs included. */
  lemma VerdictDecides(db: Db, op: Op)
    ensures Ends(Apply(db, op), Verdict(db, op))
  {
    hide CreateMission, CreateJob, CreateJobsBulk, HandOver, CreateWindow, SubmitReport, ReviewReport, SweepPicks;
    hide CreateMissionVerdict, CreateJobVerdict, CreateJobsVerdict, HandOverVerdict, CreateWindowVerdict;
    hide SubmitVerdict, ReviewVerdict, MarkAllExpired;
    match op
    case AddOperatorOp(_, _, _) =>
    case CreateMissionOp(id, m, now, actor) => CreateMissionEnds(db, id, m, now, actor);
    case CreateJobOp(job, now, actor) => CreateJobEnds(db, job, now, actor);
    case CreateJobsBulkOp(jobs, now, actor) => CreateJobsEnd(db, jobs, now, actor);
    case ActivateJobOp(h, version, actor) =>
      HandOverEnds(db, h, JobStatus.ActivationPending, version, actor, Activation);
    case AcceptJobOp(h, version, actor) => HandOverEnds(db, h, JobStatus.Accepted, version, actor, Accept);
    case CreateWindowOp(id, code, capacity, jobIds, now, actor) =>
      CreateWindowEnds(db, id, code, capacity, jobIds, now, actor);
    case SubmitReportOp(id, jobId, windowId, recorder, actor) =>
      SubmitEnds(db, id, jobId, windowId, recorder, actor);
    case ReviewReportOp(review, now, actor) => ReviewEnds(db, review, now, actor);
    case AdvanceMissionOp(_, _, _, _) => JobMovesEnd(db, op);
    case CompleteJobOp(_, _, _, _) => JobMovesEnd(db, op);
    case ArchiveJobOp(_, _, _, _) => JobMovesEnd(db, op);
    case StartWindowOp(_, _, _, _) => WindowMovesEnd(db, op);
    case CompleteWindowOp(_, _, _, _) => WindowMovesEnd(db, op);
    case CancelWindowOp(_, _, _, _) => WindowMovesEnd(db, op);
    case SweepOp(_, _, _) =>
    case _ => IncidentsEnd(db, op);
  }
}
