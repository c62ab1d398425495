/** The expiry sweep: how much one sweep clears, and that repeated sweeps drain. */
module Sweep {
  import opened Prelude
  import opened Status
  import opened Tables
  import opened Transactions
  import opened Frames

  function Elements(ids: seq<Id>): set<Id> {
    set j | j in ids
  }

  lemma {:induction false} DistinctCount(ids: seq<Id>)
    requires Distinct(ids)
    ensures |Elements(ids)| == |ids|
    decreases |ids|
  {
    if ids == [] {
      assert Elements(ids) == {};
    } else {
      var rest, last := ids[..|ids| - 1], ids[|ids| - 1];
      assert ids == rest + [last] && last !in rest;
      DistinctCount(rest);
      assert Elements(ids) == Elements(rest) + {last};
    }
  }

  ghost predicate ByExpiry(jobs: map<Id, Job>, picked: seq<Id>)
    requires forall i | 0 <= i < |picked| :: picked[i] in jobs
  {
    forall i, k | 0 <= i < k < |picked| :: jobs[picked[i]].expiresAt <= jobs[picked[k]].expiresAt
  }

  ghost predicate NoneEarlier(jobs: map<Id, Job>, picked: seq<Id>, left: set<Id>)
    requires (forall i | 0 <= i < |picked| :: picked[i] in jobs) && forall j | j in left :: j in jobs
  {
    forall i, j | 0 <= i < |picked| && j in left :: jobs[picked[i]].expiresAt <= jobs[j].expiresAt
  }

  /** A partial answer to the sweep's query: `picked` comes first, `left` is the rest. */
  ghost predicate Picking(jobs: map<Id, Job>, now: int, picked: seq<Id>, left: set<Id>) {
    && Distinct(picked) && left == OverdueJobs(jobs, now) - Elements(picked)
    && |picked| + |left| == |OverdueJobs(jobs, now)|
    && (forall i | 0 <= i < |picked| :: Overdue(jobs, picked[i], now))
    && ByExpiry(jobs, picked) && NoneEarlier(jobs, picked, left)
  }

  lemma PickNext(jobs: map<Id, Job>, now: int, picked: seq<Id>, left: set<Id>, first: Id)
    requires Picking(jobs, now, picked, left) && first in left
    requires forall j | j in left :: jobs[first].expiresAt <= jobs[j].expiresAt
    ensures Picking(jobs, now, picked + [first], left - {first})
  {
    PickNextSets(jobs, now, picked, left, first);
    PickNextOrder(jobs, picked, left, first);
    assert forall i | 0 <= i < |picked| :: (picked + [first])[i] == picked[i];
  }

  lemma PickNextOrder(jobs: map<Id, Job>, picked: seq<Id>, left: set<Id>, first: Id)
    requires (forall i | 0 <= i < |picked| :: picked[i] in jobs) && (forall j | j in left :: j in jobs) && first in left
    requires ByExpiry(jobs, picked) && NoneEarlier(jobs, picked, left)
    requires forall j | j in left :: jobs[first].expiresAt <= jobs[j].expiresAt
    ensures forall i | 0 <= i < |picked + [first]| :: (picked + [first])[i] in jobs
    ensures ByExpiry(jobs, picked + [first]) && NoneEarlier(jobs, picked + [first], left - {first})
  {
    var longer := picked + [first];
    assert forall i | 0 <= i < |longer| :: longer[i] == if i < |picked| then picked[i] else first;
  }

  lemma PickNextSets(jobs: map<Id, Job>, now: int, picked: seq<Id>, left: set<Id>, first: Id)
    requires Distinct(picked) && left == OverdueJobs(jobs, now) - Elements(picked) && first in left
    ensures Distinct(picked + [first]) && first in OverdueJobs(jobs, now)
    ensures left - {first} == OverdueJobs(jobs, now) - Elements(picked + [first])
  {
    assert Elements(picked + [first]) == Elements(picked) + {first};
    assert first !in picked;
  }

  lemma PickedAll(jobs: map<Id, Job>, now: int, limit: int, picked: seq<Id>, left: set<Id>)
    requires Picking(jobs, now, picked, left) && |picked| <= SweepLimit(limit)
    requires |picked| == SweepLimit(limit) || left == {}
    ensures SweepPicks(jobs, now, limit, picked)
  {
    forall j | j in jobs && Overdue(jobs, j, now) && j !in picked ensures j in left {
    }
  }

  lemma SweepLeaves(db: Db, now: int, picked: seq<Id>)
    requires Distinct(picked) && forall i | 0 <= i < |picked| :: Overdue(db.jobs, picked[i], now)
    ensures OverdueJobs(MarkAllExpired(db, picked).jobs, now) == OverdueJobs(db.jobs, now) - Elements(picked)
    ensures |OverdueJobs(db.jobs, now) - Elements(picked)| == |OverdueJobs(db.jobs, now)| - |picked|
  {
    MarkAllExpiredExact(db, picked);
    DistinctCount(picked);
    assert Elements(picked) <= OverdueJobs(db.jobs, now);
  }

  lemma SweepClearsOverdue(db: Db, now: int, limit: int, picked: seq<Id>)
    requires SweepPicks(db.jobs, now, limit, picked)
    ensures var d := Next(db, SweepOp(now, limit, picked));
            && OverdueJobs(d.jobs, now) == OverdueJobs(db.jobs, now) - Elements(picked)
            && |OverdueJobs(d.jobs, now)|
               == |OverdueJobs(db.jobs, now)| - Min(SweepLimit(limit), |OverdueJobs(db.jobs, now)|)
            && (forall p, j | p in picked && j in OverdueJobs(d.jobs, now) ::
                  p in db.jobs && j in db.jobs && db.jobs[p].expiresAt <= db.jobs[j].expiresAt)
            && d.audits == db.audits + ExpiryEvents(picked)
  {
    MarkAllExpiredExact(db, picked);
    SweepLeaves(db, now, picked);
  }

  // ---------- Status by status ----------

  /** The jobs that have expired and are neither verified, rejected nor archived. */
  function Due(jobs: map<Id, Job>, now: int): set<Id> {
    set j | j in jobs && jobs[j].expiresAt < now
            && !jobs[j].status.Verified? && !jobs[j].status.Rejected? && !jobs[j].status.Archived?
  }

  lemma DueIsOverdue(jobs: map<Id, Job>, now: int)
    ensures Due(jobs, now) == OverdueJobs(jobs, now)
  {
  }

  /** A sweep writes exactly its picks, in the order they expired, each expired and neither verified, rejected nor
      archived before; no job left due expired before a pick, and none is left at all if it
      picked fewer than its limit, which is 100 unless one from 1 to 500 is given. */
  lemma SweepRejectsDue(db: Db, now: int, limit: int, picked: seq<Id>, d: Db)
    requires Apply(db, SweepOp(now, limit, picked)) == Ok(d)
    ensures d == db.(jobs := d.jobs, audits := d.audits) && d.jobs.Keys == db.jobs.Keys
    ensures forall j | j in picked :: j in Due(db.jobs, now)
    ensures forall j | j in db.jobs ::
              d.jobs[j] == if j in picked
                           then db.jobs[j].(status := JobStatus.Rejected, version := db.jobs[j].version + 1)
                           else db.jobs[j]
    ensures forall p, j | p in picked && j in Due(d.jobs, now) :: db.jobs[p].expiresAt <= db.jobs[j].expiresAt
    ensures forall i, k | 0 <= i < k < |picked| ::
              picked[i] != picked[k] && db.jobs[picked[i]].expiresAt <= db.jobs[picked[k]].expiresAt
    ensures |picked| <= if 1 <= limit <= 500 then limit else 100
    ensures |picked| < (if 1 <= limit <= 500 then limit else 100) ==> Due(d.jobs, now) == {}
  {
    hide SweepPicks;
    DueIsOverdue(db.jobs, now);
    DueIsOverdue(d.jobs, now);
    SweepAnswered(db, SweepOp(now, limit, picked));
    PicksAnswer(db, now, limit, picked);
    SweepClearsOverdue(db, now, limit, picked);
    MarkAllExpiredExact(db, picked);
  }

  lemma PicksAnswer(db: Db, now: int, limit: int, picked: seq<Id>)
    requires SweepPicks(db.jobs, now, limit, picked)
    ensures Distinct(picked) && |picked| == Min(SweepLimit(limit), |OverdueJobs(db.jobs, now)|)
    ensures forall i | 0 <= i < |picked| :: picked[i] in OverdueJobs(db.jobs, now) && db.jobs[picked[i]].status.Live()
    ensures ByExpiry(db.jobs, picked)
  {
  }

  /** One sweep takes exactly its picks from the due jobs: the smaller of its limit and what
      there was, none of which expired after a job left due; each is logged once. */
  lemma SweepClears(db: Db, now: int, limit: int, picked: seq<Id>)
    requires SweepPicks(db.jobs, now, limit, picked)
    ensures var d, n := Next(db, SweepOp(now, limit, picked)), if 1 <= limit <= 500 then limit else 100;
            && Due(d.jobs, now) == Due(db.jobs, now) - Elements(picked)
            && |Due(d.jobs, now)| == |Due(db.jobs, now)| - Min(n, |Due(db.jobs, now)|)
            && (forall p, j | p in picked && j in Due(d.jobs, now) ::
                  p in db.jobs && j in db.jobs && db.jobs[p].expiresAt <= db.jobs[j].expiresAt)
            && d.audits == db.audits + ExpiryEvents(picked)
  {
    hide SweepPicks;
    DueIsOverdue(db.jobs, now);
    DueIsOverdue(Next(db, SweepOp(now, limit, picked)).jobs, now);
    SweepClearsOverdue(db, now, limit, picked);
  }

  ghost predicate SweepsAt(now: int, ops: seq<Op>) {
    forall i | 0 <= i < |ops| :: ops[i].SweepOp? && ops[i].now == now
  }

  /** Every sweep in the run commits: its picks answer its query. */
  ghost predicate AllCommit(db: Db, ops: seq<Op>) {
    forall i | 0 <= i < |ops| :: Apply(Run(db, ops[..i]), ops[i]).Ok?
  }

  function LimitSum(ops: seq<Op>): nat {
    if ops == [] then 0
    else
      var last := ops[|ops| - 1];
      LimitSum(ops[..|ops| - 1]) + (if !last.SweepOp? then 0 else if 1 <= last.limit <= 500 then last.limit else 100)
  }

  lemma SweepAnswered(db: Db, op: Op)
    requires op.SweepOp? && Apply(db, op).Ok?
    ensures SweepPicks(db.jobs, op.now, op.limit, op.picked)
  {
  }

  lemma SweepCounts(db: Db, op: Op)
    requires op.SweepOp? && Apply(db, op).Ok?
    ensures var n, limit := |Due(db.jobs, op.now)|, if 1 <= op.limit <= 500 then op.limit else 100;
            |Due(Next(db, op).jobs, op.now)| == if limit >= n then 0 else n - limit
  {
    hide SweepPicks;
    DueIsOverdue(db.jobs, op.now);
    DueIsOverdue(Next(db, op).jobs, op.now);
    SweepAnswered(db, op);
    SweepClearsOverdue(db, op.now, op.limit, op.picked);
  }

  ghost predicate SettledKept(before: map<Id, Job>, after: map<Id, Job>) {
    forall j | j in before
               && (before[j].status.Verified? || before[j].status.Rejected? || before[j].status.Archived?) ::
      j in after && after[j] == before[j]
  }

  lemma SweepKeepsSettled(db: Db, op: Op)
    requires op.SweepOp? && Apply(db, op).Ok?
    ensures SettledKept(db.jobs, Next(db, op).jobs)
  {
    hide SweepPicks;
    SweepRejectsDue(db, op.now, op.limit, op.picked, Next(db, op));
  }

  /** Repeated sweeps at one instant leave exactly as many due jobs as their limits do not
      cover, so once the limits add up to their number every expired job is verified,
      rejected or archived; those that already were stay as they are. */
  lemma {:induction false} SweepsDrain(db: Db, now: int, ops: seq<Op>)
    requires SweepsAt(now, ops) && AllCommit(db, ops)
    ensures var n := |Due(db.jobs, now)|;
            |Due(Run(db, ops).jobs, now)| == if LimitSum(ops) >= n then 0 else n - LimitSum(ops)
    ensures SettledKept(db.jobs, Run(db, ops).jobs)
    decreases |ops|
  {
    if ops != [] {
      hide Apply, SweepPicks, Next, Due, SettledKept;
      var rest, last := ops[..|ops| - 1], ops[|ops| - 1];
      forall i | 0 <= i < |rest| ensures Apply(Run(db, rest[..i]), rest[i]).Ok? {
        assert rest[..i] == ops[..i];
      }
      SweepsDrain(db, now, rest);
      assert Apply(Run(db, ops[..|rest|]), ops[|rest|]).Ok?;
      SweepCounts(Run(db, rest), last);
      SweepKeepsSettled(Run(db, rest), last);
      SettledTwice(db.jobs, Run(db, rest).jobs, Next(Run(db, rest), last).jobs);
    } else {
      SettledTwice(db.jobs, db.jobs, db.jobs);
    }
  }

  lemma SettledTwice(a: map<Id, Job>, b: map<Id, Job>, c: map<Id, Job>)
    requires a == b || SettledKept(a, b)
    requires b == c || SettledKept(b, c)
    ensures SettledKept(a, c)
  {
  }
}
