/** Exactly when a running window can still be finished. */
module Finishing {
  import opened Prelude
  import opened Status
  import opened Tables
  import opened Transactions
  import opened Workflow
  import opened Frames
  import opened Finality
  import opened Stranded

  // ---------- Reaching a state ----------

  /** The run's clock does not go back behind `now` and its windows take their codes from `codes`. */
  ghost predicate Permitted(ops: seq<Op>, now: int, codes: set<string>) {
    forall i | 0 <= i < |ops| :: NotBefore(ops[i], now) && (ops[i].CreateWindowOp? ==> ops[i].code in codes)
  }

  ghost predicate LeadsTo(db: Db, d: Db, now: int, codes: set<string>) {
    exists ops :: Permitted(ops, now, codes) && Run(db, ops) == d
  }

  lemma StaysPut(db: Db, now: int, codes: set<string>)
    ensures LeadsTo(db, db, now, codes)
  {
    assert Permitted([], now, codes) && Run(db, []) == db;
  }

  lemma OneStep(db: Db, op: Op, d: Db, now: int, codes: set<string>)
    requires Apply(db, op) == Ok(d) && NotBefore(op, now) && (op.CreateWindowOp? ==> op.code in codes)
    ensures LeadsTo(db, d, now, codes)
  {
    assert [op][..0] == [];
    assert Permitted([op], now, codes) && Run(db, [op]) == d;
  }

  lemma ThenTo(db: Db, mid: Db, d: Db, now: int, codes: set<string>)
    requires LeadsTo(db, mid, now, codes) && LeadsTo(mid, d, now, codes)
    ensures LeadsTo(db, d, now, codes)
  {
    var first :| Permitted(first, now, codes) && Run(db, first) == mid;
    var second :| Permitted(second, now, codes) && Run(mid, second) == d;
    RunAppend(db, first, second);
    assert Permitted(first + second, now, codes);
  }

  // ---------- Fresh names ----------

  lemma {:induction false} Above(s: set<Id>) returns (bound: Id)
    ensures forall x | x in s :: x < bound
    decreases s
  {
    if s == {} {
      bound := 0;
    } else {
      var x :| x in s;
      var rest := Above(s - {x});
      bound := if rest > x then rest else x + 1;
      assert forall y | y in s && y != x :: y in s - {x};
    }
  }

  ghost predicate AllValid(codes: set<string>) {
    forall code | code in codes :: ValidCode(code)
  }

  /** Of more codes than rows, one is not taken. */
  lemma {:induction false} FreshCode(windows: map<Id, Window>, rows: set<Id>, codes: set<string>)
    returns (code: string)
    requires rows <= windows.Keys && |codes| > |rows|
    ensures code in codes && forall w | w in rows :: windows[w].code != code
    decreases rows
  {
    if rows == {} {
      code :| code in codes;
    } else {
      var w :| w in rows;
      code := FreshCode(windows, rows - {w}, codes - {windows[w].code});
    }
  }

  // ---------- One job at a time ----------

  /** What the rescue of job `j` in window `w` leaves alone: the window, its items,
      every other job and every report. */
  ghost predicate Spares(db: Db, d: Db, w: Id, j: Id) {
    && w in db.windows && w in d.windows && d.windows[w] == db.windows[w]
    && (forall k :: (w, k) in d.items <==> (w, k) in db.items)
    && (forall k | k in db.jobs && k != j :: k in d.jobs && d.jobs[k] == db.jobs[k])
    && (forall r | r in db.reports ::
          r in d.reports && (ReportFor(db.reports, r, w, j) || d.reports[r] == db.reports[r]))
  }

  lemma OwnRowsSpare(db: Db, d: Db, w: Id, j: Id, r: Id)
    requires w in db.windows && d.windows == db.windows && d.items == db.items
    requires j in d.jobs && d.jobs == db.jobs[j := d.jobs[j]]
    requires r in d.reports && d.reports == db.reports[r := d.reports[r]]
    requires r in db.reports ==> ReportFor(db.reports, r, w, j)
    ensures Spares(db, d, w, j)
  {
  }

  lemma JobRowSpares(db: Db, d: Db, w: Id, j: Id)
    requires w in db.windows && d.windows == db.windows && d.items == db.items && d.reports == db.reports
    requires j in d.jobs && d.jobs == db.jobs[j := d.jobs[j]]
    ensures Spares(db, d, w, j)
  {
  }

  ghost predicate Reported(reports: map<Id, Report>, w: Id, j: Id) {
    exists r :: ReportFor(reports, r, w, j)
  }

  ghost predicate Reviewed(reports: map<Id, Report>, w: Id, j: Id) {
    exists r :: ReportFor(reports, r, w, j) && !reports[r].status.Pending?
  }

  ghost predicate RunningItem(db: Db, w: Id, j: Id) {
    && Invariant(db) && w in db.windows && db.windows[w].status.Running? && (w, j) in db.items
  }

  /** A step that commits keeps the invariant and is a run of its own. */
  lemma Committed(db: Db, op: Op, d: Db, now: int, codes: set<string>)
    requires Invariant(db) && Apply(db, op) == Ok(d) && NotBefore(op, now) && (op.CreateWindowOp? ==> op.code in codes)
    ensures LeadsTo(db, d, now, codes) && Invariant(d)
  {
    OneStep(db, op, d, now, codes);
    ApplyKeepsInvariant(db, op, d);
  }

  lemma SparesTwice(a: Db, b: Db, c: Db, w: Id, j: Id)
    requires Spares(a, b, w, j) && Spares(b, c, w, j)
    requires forall r | r in a.reports && ReportFor(a.reports, r, w, j) :: ReportFor(b.reports, r, w, j)
    requires forall r | r in a.reports && ReportFor(b.reports, r, w, j) :: ReportFor(a.reports, r, w, j)
    ensures Spares(a, c, w, j)
  {
  }

  lemma ItemIsSound(db: Db, w: Id, j: Id)
    requires RunningItem(db, w, j)
    ensures j in db.jobs && References(db)
  {
  }

  lemma Enlist(db: Db, w: Id, j: Id, now: int, codes: set<string>) returns (d: Db, agent: Id)
    requires RunningItem(db, w, j)
    ensures LeadsTo(db, d, now, codes) && RunningItem(d, w, j) && Spares(db, d, w, j)
    ensures d == db.(operators := d.operators, audits := d.audits)
    ensures agent in d.operators && d.operators[agent]
  {
    hide Invariant;
    agent := Above(db.operators.Keys);
    d := AddOperator(db, agent, true, None).value;
    Committed(db, AddOperatorOp(agent, true, None), d, now, codes);
  }

  lemma HandOn(db: Db, j: Id, next: JobStatus, agent: Id, action: Action, now: int) returns (d: Db)
    requires j in db.jobs && agent in db.operators && !next.Completed?
    ensures HandOver(db, Handover(j, None, agent, now), next, db.jobs[j].version, None, action) == Ok(d)
    ensures j in d.jobs && d.jobs == db.jobs[j := d.jobs[j]] && d.jobs[j].status == next
    ensures d.jobs[j].expiresAt == db.jobs[j].expiresAt
    ensures d == db.(jobs := d.jobs, moorings := d.moorings, audits := d.audits)
  {
    d := HandOver(db, Handover(j, None, agent, now), next, db.jobs[j].version, None, action).value;
  }

  /** Activation and acceptance ask for the version only, so any job can be made accepted. */
  lemma MakeAccepted(db: Db, w: Id, j: Id, agent: Id, now: int, codes: set<string>) returns (d: Db)
    requires RunningItem(db, w, j) && agent in db.operators
    ensures LeadsTo(db, d, now, codes) && RunningItem(d, w, j) && Spares(db, d, w, j)
    ensures d.windows == db.windows && d.reports == db.reports && d.items == db.items
    ensures j in db.jobs && j in d.jobs && d.jobs[j].status.Accepted? && d.jobs[j].expiresAt == db.jobs[j].expiresAt
  {
    hide Invariant, HandOver, Spares;
    ItemIsSound(db, w, j);
    var h := Handover(j, None, agent, now);
    var mid := HandOn(db, j, JobStatus.ActivationPending, agent, Activation, now);
    JobRowSpares(db, mid, w, j);
    Committed(db, ActivateJobOp(h, db.jobs[j].version, None), mid, now, codes);
    d := HandOn(mid, j, JobStatus.Accepted, agent, Accept, now);
    Committed(mid, AcceptJobOp(h, mid.jobs[j].version, None), d, now, codes);
    JobRowSpares(db, d, w, j);
    ThenTo(db, mid, d, now, codes);
  }

  lemma WindowForOne(db: Db, id: Id, code: string, j: Id, now: int) returns (d: Db)
    requires References(db) && id !in db.windows && forall w | w in db.windows :: db.windows[w].code != code
    requires ValidCode(code)
    requires j in db.jobs && db.jobs[j].status.Accepted? && now <= db.jobs[j].expiresAt
    ensures CreateWindow(db, id, code, 1, [j], now, None) == Ok(d)
    ensures d == db.(windows := db.windows[id := Window(code, Waiting, 1, None, None, 1)],
                     items := db.items + {(id, j)},
                     jobs := db.jobs[j :=
                               db.jobs[j].(status := JobStatus.InProgress, version := db.jobs[j].version + 1)],
                     audits := d.audits)
  {
    hide ValidCode;
    assert (id, j) !in db.items;
    var db1 := InsertWindow(db, id, code, 1).value;
    assert AttachItems(db1, id, [j], now) == AttachItem(db1, id, j, now);
    d := CreateWindow(db, id, code, 1, [j], now, None).value;
  }

  /** An accepted, unexpired job can be put into progress in a new window of its own. */
  lemma PutInProgress(db: Db, w: Id, j: Id, now: int, codes: set<string>) returns (d: Db)
    requires RunningItem(db, w, j) && j in db.jobs && db.jobs[j].status.Accepted? && now <= db.jobs[j].expiresAt
    requires AllValid(codes) && |codes| > |db.windows|
    ensures LeadsTo(db, d, now, codes) && RunningItem(d, w, j) && Spares(db, d, w, j) && d.reports == db.reports
    ensures j in d.jobs && d.jobs[j].status.InProgress? && |d.windows| == |db.windows| + 1
  {
    hide Invariant, CreateWindow, ValidCode;
    ItemIsSound(db, w, j);
    var id := Above(db.windows.Keys);
    var code := FreshCode(db.windows, db.windows.Keys, codes);
    d := WindowForOne(db, id, code, j, now);
    Committed(db, CreateWindowOp(id, code, 1, [j], now, None), d, now, codes);
  }

  /** An item that is not lost and has no report yet can be made ready for one. */
  lemma Revive(db: Db, w: Id, j: Id, now: int, codes: set<string>) returns (d: Db)
    requires RunningItem(db, w, j) && !LostItem(db, w, j, now) && !Reported(db.reports, w, j)
    requires AllValid(codes) && |codes| > |db.windows|
    ensures LeadsTo(db, d, now, codes) && RunningItem(d, w, j) && Spares(db, d, w, j) && d.reports == db.reports
    ensures j in d.jobs && d.jobs[j].status.InProgress? && |d.windows| <= |db.windows| + 1
  {
    hide Invariant, Spares, AllValid;
    ItemIsSound(db, w, j);
    if db.jobs[j].status.InProgress? {
      d := db;
      StaysPut(db, now, codes);
      JobRowSpares(db, db, w, j);
    } else {
      var hired, agent := Enlist(db, w, j, now, codes);
      var accepted := MakeAccepted(hired, w, j, agent, now, codes);
      d := PutInProgress(accepted, w, j, now, codes);
      ThenTo(db, hired, accepted, now, codes);
      ThenTo(db, accepted, d, now, codes);
      SparesTwice(db, hired, accepted, w, j);
      SparesTwice(db, accepted, d, w, j);
    }
  }

  lemma Submit(db: Db, w: Id, j: Id, now: int, codes: set<string>) returns (d: Db)
    requires RunningItem(db, w, j) && j in db.jobs && db.jobs[j].status.InProgress? && !Reported(db.reports, w, j)
    ensures LeadsTo(db, d, now, codes) && RunningItem(d, w, j) && Spares(db, d, w, j)
    ensures Reported(d.reports, w, j) && d.windows == db.windows
  {
    hide Invariant;
    var hired, agent := Enlist(db, w, j, now, codes);
    var id := Above(hired.reports.Keys);
    d := SubmitReport(hired, id, j, w, agent, None).value;
    OwnRowsSpare(hired, d, w, j, id);
    Committed(hired, SubmitReportOp(id, j, w, agent, None), d, now, codes);
    ThenTo(db, hired, d, now, codes);
    assert ReportFor(d.reports, id, w, j);
  }

  lemma ReviewCommits(db: Db, r: Id, j: Id, now: int) returns (d: Db)
    requires r in db.reports && db.reports[r].jobId == j && db.reports[r].status.Pending? && j in db.jobs
    ensures ReviewReport(db, ReviewInput(r, j, true, db.reports[r].version, db.jobs[j].version, 0), now, None) == Ok(d)
    ensures d.windows == db.windows && d.items == db.items
    ensures j in d.jobs && d.jobs == db.jobs[j := d.jobs[j]]
    ensures r in d.reports && d.reports == db.reports[r := d.reports[r]]
    ensures d.reports[r].jobId == j && d.reports[r].windowId == db.reports[r].windowId && d.reports[r].status.Confirmed?
  {
    d := ReviewReport(db, ReviewInput(r, j, true, db.reports[r].version, db.jobs[j].version, 0), now, None).value;
  }

  lemma ReviewPending(db: Db, w: Id, j: Id, r: Id, now: int, codes: set<string>) returns (d: Db)
    requires RunningItem(db, w, j) && ReportFor(db.reports, r, w, j) && db.reports[r].status.Pending?
    ensures LeadsTo(db, d, now, codes) && RunningItem(d, w, j) && Spares(db, d, w, j)
    ensures Reviewed(d.reports, w, j) && d.windows == db.windows
  {
    hide Invariant, ReviewReport, Spares, LeadsTo, References;
    ItemIsSound(db, w, j);
    var input := ReviewInput(r, j, true, db.reports[r].version, db.jobs[j].version, 0);
    d := ReviewCommits(db, r, j, now);
    OwnRowsSpare(db, d, w, j, r);
    Committed(db, ReviewReportOp(input, now, None), d, now, codes);
    assert ReportFor(d.reports, r, w, j) && !d.reports[r].status.Pending?;
  }

  /** An item that is not lost can be brought to a reviewed report, and nothing else
      of the window suffers. */
  lemma FinishItem(db: Db, w: Id, j: Id, now: int, codes: set<string>) returns (d: Db)
    requires RunningItem(db, w, j) && !LostItem(db, w, j, now) && AllValid(codes) && |codes| > |db.windows|
    ensures LeadsTo(db, d, now, codes) && RunningItem(d, w, j) && Spares(db, d, w, j)
    ensures Reviewed(d.reports, w, j) && |d.windows| <= |db.windows| + 1
  {
    hide Invariant, AllValid;
    var reported := db;
    StaysPut(db, now, codes);
    if !Reported(db.reports, w, j) {
      var ready := Revive(db, w, j, now, codes);
      reported := Submit(ready, w, j, now, codes);
      ThenTo(db, ready, reported, now, codes);
      SparesTwice(db, ready, reported, w, j);
    }
    var r :| ReportFor(reported.reports, r, w, j);
    if reported.reports[r].status.Pending? {
      d := ReviewPending(reported, w, j, r, now, codes);
      ThenTo(db, reported, d, now, codes);
      assert forall q | q in db.reports && ReportFor(db.reports, q, w, j) :: ReportFor(reported.reports, q, w, j);
      SparesTwice(db, reported, d, w, j);
    } else {
      d := reported;
    }
  }

  // ---------- All of a window's items ----------

  function JobsOf(items: set<(Id, Id)>, w: Id): set<Id> {
    set p | p in items && p.0 == w :: p.1
  }

  lemma SparedStays(db: Db, d: Db, w: Id, j: Id, k: Id, now: int)
    requires RunningItem(db, w, k) && Spares(db, d, w, j) && k != j
    ensures Reviewed(db.reports, w, k) ==> Reviewed(d.reports, w, k)
    ensures !LostItem(db, w, k, now) ==> !LostItem(d, w, k, now)
  {
    if r :| ReportFor(db.reports, r, w, k) && !db.reports[r].status.Pending? {
      assert d.reports[r] == db.reports[r];
    }
    if r :| ReportFor(db.reports, r, w, k) {
      assert ReportFor(d.reports, r, w, k);
    }
  }

  lemma {:induction false} FinishItems(db: Db, w: Id, todo: set<Id>, now: int, codes: set<string>) returns (d: Db)
    requires Invariant(db) && w in db.windows && db.windows[w].status.Running?
    requires forall k | (w, k) in db.items :: if k in todo then !LostItem(db, w, k, now) else Reviewed(db.reports, w, k)
    requires forall k | k in todo :: (w, k) in db.items
    requires AllValid(codes) && |codes| >= |db.windows| + |todo|
    ensures LeadsTo(db, d, now, codes) && Invariant(d) && w in d.windows && d.windows[w] == db.windows[w]
    ensures forall k | (w, k) in d.items :: Reviewed(d.reports, w, k)
    decreases todo
  {
    hide Invariant, AllValid;
    if todo == {} {
      d := db;
      StaysPut(db, now, codes);
    } else {
      var j :| j in todo;
      var next := FinishItem(db, w, j, now, codes);
      forall k | (w, k) in next.items && k != j
        ensures if k in todo then !LostItem(next, w, k, now) else Reviewed(next.reports, w, k)
      {
        SparedStays(db, next, w, j, k, now);
      }
      d := FinishItems(next, w, todo - {j}, now, codes);
      ThenTo(db, next, d, now, codes);
    }
  }

  ghost predicate Finished(db: Db, w: Id) {
    w in db.windows && (db.windows[w].status.Done? || db.windows[w].status.Cancelled?)
  }

  lemma NonePending(db: Db, w: Id)
    requires Invariant(db)
    requires forall k | (w, k) in db.items :: Reviewed(db.reports, w, k)
    ensures AllItemsReviewed(db.items, db.reports, w)
  {
    forall p | p in db.items && p.0 == w
      ensures exists r :: r in db.reports && ReportFor(db.reports, r, w, p.1)
      ensures forall r :: r in db.reports && ReportFor(db.reports, r, w, p.1) ==> !db.reports[r].status.Pending?
    {
      assert (w, p.1) in db.items;
      var r :| ReportFor(db.reports, r, w, p.1) && !db.reports[r].status.Pending?;
    }
  }

  lemma ReviewedCompletes(db: Db, w: Id, now: int, codes: set<string>) returns (d: Db)
    requires Invariant(db) && w in db.windows && db.windows[w].status.Running?
    requires forall k | (w, k) in db.items :: Reviewed(db.reports, w, k)
    ensures LeadsTo(db, d, now, codes) && Finished(d, w)
  {
    hide Invariant, AllItemsReviewed, LeadsTo, Reviewed;
    NonePending(db, w);
    d := CompleteWindow(db, w, db.windows[w].version, now, None).value;
    OneStep(db, CompleteWindowOp(w, db.windows[w].version, now, None), d, now, codes);
  }

  lemma UnreportedCancels(db: Db, w: Id, now: int, codes: set<string>) returns (d: Db)
    requires w in db.windows && db.windows[w].status.Running?
    requires !exists r :: r in db.reports && db.reports[r].windowId == w
    ensures LeadsTo(db, d, now, codes) && Finished(d, w)
  {
    var op := CancelWindowOp(w, db.windows[w].version, now, None);
    d := Apply(db, op).value;
    OneStep(db, op, d, now, codes);
  }

  ghost predicate CanFinish(db: Db, w: Id, now: int, codes: set<string>) {
    exists ops :: Permitted(ops, now, codes) && Finished(Run(db, ops), w)
  }

  /** A running window can still be completed or cancelled, by some run on a clock not
      before `now`, exactly when it is not stranded: when it has no report at all, or
      no item whose job expired unreported and out of progress.  The new windows such a
      run needs, at most one an item, take their codes from any set with that many
      valid codes more than there are windows. */
  lemma FinishableIff(db: Db, w: Id, now: int, codes: set<string>)
    requires Invariant(db) && w in db.windows && db.windows[w].status.Running?
    requires AllValid(codes) && |codes| >= |db.windows| + |JobsOf(db.items, w)|
    ensures CanFinish(db, w, now, codes) <==> !IsStranded(db, w, now)
  {
    if IsStranded(db, w, now) {
      forall ops | Permitted(ops, now, codes)
        ensures !Finished(Run(db, ops), w)
      {
        StrandedForever(db, ops, w, now);
      }
    } else {
      var d: Db;
      if !exists r :: r in db.reports && db.reports[r].windowId == w {
        d := UnreportedCancels(db, w, now, codes);
      } else {
        var todo := JobsOf(db.items, w);
        assert forall k :: (w, k) in db.items ==> k in todo;
        var reviewed := FinishItems(db, w, todo, now, codes);
        d := ReviewedCompletes(reviewed, w, now, codes);
        ThenTo(db, reviewed, d, now, codes);
      }
      var ops :| Permitted(ops, now, codes) && Run(db, ops) == d;
      assert Permitted(ops, now, codes) && Finished(Run(db, ops), w);
    }
  }

  // ---------- Codes enough ----------

  /** A code followed by `n` spaces, which the check trims and the table keeps. */
  function Padded(n: nat): string {
    "WIN" + seq(n, _ => ' ')
  }

  lemma {:induction false} PaddedIsTrimmed(n: nat)
    ensures TrimRight(Padded(n)) == "WIN"
  {
    if n > 0 {
      assert Padded(n)[..|Padded(n)| - 1] == Padded(n - 1);
      PaddedIsTrimmed(n - 1);
    }
  }

  /** There are sets of valid codes of every size. */
  lemma {:induction false} CodesNeverRunOut(n: nat) returns (codes: set<string>)
    ensures AllValid(codes) && |codes| == n && forall code | code in codes :: |code| < n + 3
  {
    codes := {};
    if n > 0 {
      var fewer := CodesNeverRunOut(n - 1);
      PaddedIsTrimmed(n - 1);
      codes := fewer + {Padded(n - 1)};
    }
  }
}
