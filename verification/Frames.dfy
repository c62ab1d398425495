/** Which tables the looping statements leave alone, and how runs compose. */
module Frames {
  import opened Prelude
  import opened Status
  import opened Tables
  import opened Transactions
  import opened Workflow

  lemma {:induction false} InsertBuoysFrame(db: Db, missionId: Id, inputs: seq<BuoyInput>, d: Db)
    requires InsertBuoys(db, missionId, inputs) == Ok(d)
    ensures d == db.(buoys := d.buoys)
    ensures forall b | b in db.buoys :: b in d.buoys && d.buoys[b] == db.buoys[b]
    ensures forall b | b in d.buoys && b !in db.buoys ::
              d.buoys[b].missionId == missionId && d.buoys[b].completed == 0 && d.buoys[b].required >= 1
    decreases |inputs|
  {
    if inputs != [] {
      InsertBuoysFrame(InsertBuoy(db, missionId, inputs[0]).value, missionId, inputs[1..], d);
    }
  }

  /** Bulk creation only adds queued jobs at version 1, on buoys that exist. */
  lemma {:induction false} PlaceJobsFrame(db: Db, inputs: seq<JobInput>, d: Db)
    requires PlaceJobs(db, inputs) == Ok(d)
    ensures d == db.(jobs := d.jobs)
    ensures forall j | j in db.jobs :: j in d.jobs && d.jobs[j] == db.jobs[j]
    ensures forall j | j in d.jobs && j !in db.jobs ::
              d.jobs[j].version == 1 && d.jobs[j].status.Queued? && d.jobs[j].completedAt.None?
              && d.jobs[j].buoyId in db.buoys
    decreases |inputs|
  {
    if inputs != [] {
      PlaceJobsFrame(PlaceJob(db, inputs[0]).value, inputs[1..], d);
    }
  }

  function Rejected(jobs: map<Id, Job>, ids: seq<Id>): map<Id, Job> {
    map j | j in jobs ::
      if j in ids then jobs[j].(status := JobStatus.Rejected, version := jobs[j].version + 1) else jobs[j]
  }

  function ExpiryEvents(ids: seq<Id>): seq<AuditEvent> {
    seq(|ids|, i requires 0 <= i < |ids| => AuditEvent(SweptJob, ids[i], Expire))
  }

  /** The sweep's loop as one simultaneous update: every picked job is rejected
      once, with one event each, whatever the order of the picks. */
  lemma {:induction false} MarkAllExpiredExact(db: Db, ids: seq<Id>)
    requires Distinct(ids) && forall i | 0 <= i < |ids| :: ids[i] in db.jobs && db.jobs[ids[i]].status.Live()
    ensures MarkAllExpired(db, ids) == db.(jobs := Rejected(db.jobs, ids), audits := db.audits + ExpiryEvents(ids))
    decreases |ids|
  {
    if ids == [] {
      assert Rejected(db.jobs, ids) == db.jobs;
      assert db.audits + ExpiryEvents(ids) == db.audits;
    } else {
      var d, rest := MarkExpired(db, ids[0]), ids[1..];
      assert ids == [ids[0]] + rest;
      assert ids[0] !in rest;
      MarkAllExpiredExact(d, rest);
      assert Rejected(d.jobs, rest) == Rejected(db.jobs, ids);
      assert d.audits + ExpiryEvents(rest) == db.audits + ExpiryEvents(ids);
    }
  }

  // ---------- Whole transactions that loop ----------

  lemma CreateMissionFrame(db: Db, id: Id, m: MissionInput, now: int, actor: Option<Id>, d: Db)
    requires CreateMission(db, id, m, now, actor) == Ok(d)
    ensures d == db.(missions := d.missions, buoys := d.buoys, audits := d.audits)
    ensures d.audits == db.audits + [AuditEvent(MissionObject, id, Create)]
  {
    var db1 := InsertMission(db, id, m.creator, Mission(m.code, Draft, m.startsAt, m.endsAt, 1)).value;
    InsertBuoysFrame(db1, id, m.buoys, InsertBuoys(db1, id, m.buoys).value);
  }

  lemma CreateJobsFrame(db: Db, jobs: seq<JobInput>, now: int, actor: Option<Id>, d: Db)
    requires CreateJobsBulk(db, jobs, now, actor) == Ok(d)
    ensures d == db.(jobs := d.jobs, audits := d.audits)
    ensures jobs != [] && d.audits == db.audits + [AuditEvent(BulkObject, jobs[0].missionId, CreateBulk)]
    ensures forall j | j in db.jobs :: j in d.jobs && d.jobs[j] == db.jobs[j]
  {
    PlaceJobsFrame(db, jobs, PlaceJobs(db, jobs).value);
  }

  lemma CreateWindowFrame(db: Db, id: Id, code: string, capacity: int, jobIds: seq<Id>, now: int, actor: Option<Id>,
                          d: Db)
    requires CreateWindow(db, id, code, capacity, jobIds, now, actor) == Ok(d)
    ensures d == db.(windows := d.windows, items := d.items, jobs := d.jobs, audits := d.audits)
    ensures d.audits == db.audits + [AuditEvent(WindowObject, id, Create)]
  {
    hide Attachable, Distinct;
    AttachItemsExact(InsertWindow(db, id, code, capacity).value, id, jobIds, now);
  }

  lemma SweepFrame(db: Db, now: int, limit: int, picked: seq<Id>)
    requires SweepPicks(db.jobs, now, limit, picked)
    ensures MarkAllExpired(db, picked) == db.(jobs := Rejected(db.jobs, picked),
                                              audits := db.audits + ExpiryEvents(picked))
  {
    MarkAllExpiredExact(db, picked);
  }

  lemma {:induction false} RunAppend(db: Db, first: seq<Op>, second: seq<Op>)
    ensures Run(db, first + second) == Run(Run(db, first), second)
    decreases |second|
  {
    if second == [] {
      assert first + second == first;
    } else {
      var n := |second| - 1;
      assert (first + second)[..|first + second| - 1] == first + second[..n];
      RunAppend(db, first, second[..n]);
    }
  }
}
