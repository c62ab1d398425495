/** The capped exponential delay in machine integers, and the bounded retry loop
    against an arbitrary environment. */
module Retry {
  import opened Prelude

  /** Division by two rounding toward zero. */
  function Half(x: Int64): Int64 {
    if x >= 0 then x / 2 else (x + 1) / 2
  }

  datatype Policy = Policy(attempts: Int64, baseDelay: Int64, maxDelay: Int64)

  // ---------- Delay ----------

  /** The delay after `doublings` more turns of the loop. */
  function DelayFrom(delay: Int64, max: Int64, doublings: nat): Int64
    decreases doublings
  {
    if doublings == 0 then (if delay > max then max else delay)
    else if delay >= Half(max) then max
    else DelayFrom(Wrap(delay * 2), max, doublings - 1)
  }

  function Doublings(attempt: Int64): nat {
    if attempt < 1 then 0 else attempt - 1
  }

  function DelayFor(p: Policy, attempt: Int64): Int64 {
    DelayFrom(p.baseDelay, p.maxDelay, Doublings(attempt))
  }

  method Delay(p: Policy, attempt: Int64) returns (d: Int64)
    ensures d == DelayFor(p, attempt) && d <= p.maxDelay
  {
    var last := attempt;
    if last < 1 {
      last := 1;
    }
    d := p.baseDelay;
    var i := 1;
    while i < last
      invariant 1 <= i <= last
      invariant DelayFrom(d, p.maxDelay, last - i) == DelayFor(p, attempt)
    {
      if d >= Half(p.maxDelay) {
        return p.maxDelay;
      }
      d := Wrap(d * 2);
      i := i + 1;
    }
    if d > p.maxDelay {
      return p.maxDelay;
    }
  }

  /** The exact, unbounded exponential. */
  function Scaled(base: nat, doublings: nat): nat
    decreases doublings
  {
    if doublings == 0 then base else Scaled(base * 2, doublings - 1)
  }

  /** The one case off the ideal: the exponential lands just below the maximum. */
  predicate OneBelow(base: nat, doublings: nat, max: nat) {
    doublings > 0 && Scaled(base, doublings) + 1 == max
  }

  lemma {:induction false} ScaledGrows(base: nat, doublings: nat)
    ensures Scaled(base, doublings) >= base
    ensures doublings > 0 ==> Scaled(base, doublings) >= 2 * base && Scaled(base, doublings) % 2 == 0
    decreases doublings
  {
    if doublings > 0 {
      ScaledGrows(base * 2, doublings - 1);
    }
  }

  lemma {:induction false} ScaledIsExponential(base: nat, doublings: nat)
    ensures Scaled(base, doublings + 1) == 2 * Scaled(base, doublings)
    decreases doublings
  {
    if doublings > 0 {
      ScaledIsExponential(base * 2, doublings - 1);
    }
  }

  /** Every doubling the loop makes is exact: none leaves the machine integers. */
  ghost predicate DoublesExactly(delay: Int64, max: Int64, doublings: nat)
    decreases doublings
  {
    doublings == 0 || delay >= Half(max)
    || (Wrap(delay * 2) == delay * 2 && DoublesExactly(Wrap(delay * 2), max, doublings - 1))
  }

  /** For a non-negative base and maximum no doubling wraps and the delay is the
      capped exponential, except that it jumps to the maximum one short of it. */
  lemma {:induction false} DelayClosedForm(base: Int64, max: Int64, doublings: nat)
    requires base >= 0 && max >= 0
    ensures DoublesExactly(base, max, doublings)
    ensures DelayFrom(base, max, doublings)
         == Min(Scaled(base, doublings), max) + (if OneBelow(base, doublings, max) then 1 else 0)
    decreases doublings
  {
    if doublings > 0 {
      ScaledGrows(base, doublings);
      if base < Half(max) {
        assert Wrap(base * 2) == base * 2;
        DelayClosedForm(base * 2, max, doublings - 1);
      }
    }
  }

  /** The delay meets the ideal exactly when the exponential does not land one below
      the maximum, which takes an odd maximum. */
  lemma DelayIsIdealIff(p: Policy, attempt: Int64)
    requires p.baseDelay >= 0 && p.maxDelay >= 0
    ensures var ideal := Min(Scaled(p.baseDelay, Doublings(attempt)), p.maxDelay);
            && (DelayFor(p, attempt) == ideal <==> !OneBelow(p.baseDelay, Doublings(attempt), p.maxDelay))
            && ideal <= DelayFor(p, attempt) <= Min(ideal + 1, p.maxDelay)
            && (p.maxDelay % 2 == 0 ==> DelayFor(p, attempt) == ideal)
  {
    DelayClosedForm(p.baseDelay, p.maxDelay, Doublings(attempt));
    ScaledGrows(p.baseDelay, Doublings(attempt));
  }

  lemma OddMaximumJumps()
    ensures DelayFor(Policy(3, 1, 5), 3) == 5 && Scaled(1, Doublings(3)) == 4
  {
    assert Wrap(2) == 2 && DelayFrom(2, 5, 1) == 5;
    assert Scaled(2, 1) == 4;
  }

  /** Later attempts never wait less. */
  lemma {:induction false} DelayIsMonotone(p: Policy, attempt: Int64, later: Int64)
    requires p.baseDelay >= 0 && p.maxDelay >= 0 && attempt <= later
    ensures DelayFor(p, attempt) <= DelayFor(p, later)
    decreases later - attempt
  {
    if attempt < later {
      DelayIsMonotone(p, attempt + 1, later);
      NextDelayNotLess(p, attempt);
    }
  }

  lemma NextDelayNotLess(p: Policy, attempt: Int64)
    requires p.baseDelay >= 0 && p.maxDelay >= 0 && attempt < MAX_INT64
    ensures DelayFor(p, attempt) <= DelayFor(p, attempt + 1)
  {
    var n, m := Doublings(attempt), Doublings(attempt + 1);
    DelayClosedForm(p.baseDelay, p.maxDelay, n);
    DelayClosedForm(p.baseDelay, p.maxDelay, m);
    if m == n + 1 {
      ScaledIsExponential(p.baseDelay, n);
    }
  }

  // ---------- Retrying ----------

  /** What the world answers at each attempt: whether the context is found cancelled
      before it, the operation's error if it fails, and whether the wait after it
      ends by cancellation. */
  datatype World<!E> = World(cancelledBefore: nat -> bool, failure: nat -> Failure<E>, cancelledWaiting: nat -> bool)

  datatype Failure<E> = Succeeds | Fails(error: E)

  datatype Outcome<E> = BadPolicy | Done | Cancelled | GaveUp(error: E)

  /** What happens, in order. */
  datatype Event = Check(attempt: nat) | Call(attempt: nat) | Wait(attempt: nat, delay: Int64)

  /** A round that leads to the next: checked, called, failed, waited out. */
  ghost predicate Passed<E>(w: World<E>, k: nat) {
    !w.cancelledBefore(k) && w.failure(k).Fails? && !w.cancelledWaiting(k)
  }

  /** The events of rounds 1..n when each leads to the next. */
  function Rounds(p: Policy, n: Int64): seq<Event>
    requires n >= 0
    decreases n
  {
    if n == 0 then [] else Rounds(p, n - 1) + [Check(n), Call(n), Wait(n, DelayFor(p, n))]
  }

  /** Round `k` ends the run this way, after these further events. */
  ghost predicate Ends<E>(p: Policy, w: World<E>, k: Int64, tail: seq<Event>, outcome: Outcome<E>)
    requires k >= 1
  {
    if w.cancelledBefore(k) then tail == [Check(k)] && outcome == Cancelled
    else if w.failure(k).Succeeds? then tail == [Check(k), Call(k)] && outcome == Done
    else if k == p.attempts then tail == [Check(k), Call(k)] && outcome == GaveUp(w.failure(k).error)
    else w.cancelledWaiting(k) && tail == [Check(k), Call(k), Wait(k, DelayFor(p, k))] && outcome == Cancelled
  }

  /** The run: rounds that lead on, then one that ends it. */
  ghost predicate RunsTo<E>(p: Policy, w: World<E>, k: Int64, trace: seq<Event>, outcome: Outcome<E>) {
    && 1 <= k <= p.attempts
    && (forall i: nat | 1 <= i < k :: Passed(w, i))
    && exists tail :: Ends(p, w, k, tail, outcome) && trace == Rounds(p, k - 1) + tail
  }

  method RunWithRetry<E>(p: Policy, w: World<E>) returns (outcome: Outcome<E>, trace: seq<Event>, ghost last: Int64)
    ensures p.attempts < 1 ==> outcome == BadPolicy && trace == []
    ensures p.attempts >= 1 ==> RunsTo(p, w, last, trace, outcome)
  {
    if p.attempts < 1 {
      return BadPolicy, [], 0;
    }
    trace := [];
    var attempt: Int64 := 1;
    while attempt <= p.attempts
      invariant 1 <= attempt <= p.attempts
      invariant forall i: nat | 1 <= i < attempt :: Passed(w, i)
      invariant trace == Rounds(p, attempt - 1)
      decreases p.attempts - attempt
    {
      last := attempt;
      trace := trace + [Check(attempt)];
      if w.cancelledBefore(attempt) {
        assert Ends(p, w, attempt, [Check(attempt)], Outcome<E>.Cancelled);
        return Cancelled, trace, last;
      }
      trace := trace + [Call(attempt)];
      var failure := w.failure(attempt);
      assert trace == Rounds(p, attempt - 1) + [Check(attempt), Call(attempt)];
      if failure.Succeeds? {
        assert Ends(p, w, attempt, [Check(attempt), Call(attempt)], Outcome<E>.Done);
        return Done, trace, last;
      }
      if attempt == p.attempts {
        assert Ends(p, w, attempt, [Check(attempt), Call(attempt)], GaveUp(failure.error));
        return GaveUp(failure.error), trace, last;
      }
      var delay := Delay(p, attempt);
      trace := trace + [Wait(attempt, delay)];
      assert trace == Rounds(p, attempt - 1) + [Check(attempt), Call(attempt), Wait(attempt, delay)];
      if w.cancelledWaiting(attempt) {
        assert Ends(p, w, attempt, [Check(attempt), Call(attempt), Wait(attempt, delay)], Outcome<E>.Cancelled);
        return Cancelled, trace, last;
      }
      attempt := attempt + 1;
    }
    assert false;
  }

  function Calls(trace: seq<Event>): nat {
    if trace == [] then 0 else Calls(trace[..|trace| - 1]) + (if trace[|trace| - 1].Call? then 1 else 0)
  }

  lemma {:induction false} CallsAppend(a: seq<Event>, b: seq<Event>)
    ensures Calls(a + b) == Calls(a) + Calls(b)
    decreases |b|
  {
    if b == [] {
      assert a + b == a;
    } else {
      assert (a + b)[..|a + b| - 1] == a + b[..|b| - 1];
      CallsAppend(a, b[..|b| - 1]);
    }
  }

  lemma CallsOne(e: Event)
    ensures Calls([e]) == if e.Call? then 1 else 0
  {
    assert [e][..0] == [];
  }

  lemma CallsRound(check: Event, call: Event, wait: Event)
    requires check.Check? && call.Call? && wait.Wait?
    ensures Calls([check]) == 0 && Calls([check, call]) == 1 && Calls([check, call, wait]) == 1
  {
    CallsOne(check);
    CallsOne(call);
    CallsOne(wait);
    CallsAppend([check], [call]);
    CallsAppend([check, call], [wait]);
    assert [check] + [call] == [check, call] && [check, call] + [wait] == [check, call, wait];
  }

  lemma {:induction false} RoundsCall(p: Policy, n: Int64)
    requires n >= 0
    ensures Calls(Rounds(p, n)) == n
    decreases n
  {
    if n > 0 {
      RoundsCall(p, n - 1);
      CallsRound(Check(n), Call(n), Wait(n, DelayFor(p, n)));
      CallsAppend(Rounds(p, n - 1), [Check(n), Call(n), Wait(n, DelayFor(p, n))]);
    }
  }

  lemma TailCalls<E>(p: Policy, w: World<E>, k: Int64, tail: seq<Event>, outcome: Outcome<E>)
    requires k >= 1 && Ends(p, w, k, tail, outcome)
    ensures Calls(tail) == if w.cancelledBefore(k) then 0 else 1
  {
    CallsRound(Check(k), Call(k), Wait(k, DelayFor(p, k)));
  }

  /** The operation is called at most `attempts` times; every call but the last
      failed, and a run that gave up called it exactly that often, in vain. */
  lemma CallsBounded<E>(p: Policy, w: World<E>, k: Int64, trace: seq<Event>, outcome: Outcome<E>)
    requires RunsTo(p, w, k, trace, outcome)
    ensures Calls(trace) == (if w.cancelledBefore(k) then k - 1 else k) <= p.attempts
    ensures forall i: nat | 1 <= i < Calls(trace) :: w.failure(i).Fails?
    ensures outcome.Done? <==> Calls(trace) == k && w.failure(k).Succeeds?
    ensures outcome.GaveUp? <==> Calls(trace) == p.attempts && w.failure(p.attempts).Fails?
    ensures outcome.GaveUp? ==> w.failure(p.attempts) == Fails(outcome.error)
  {
    var tail :| Ends(p, w, k, tail, outcome) && trace == Rounds(p, k - 1) + tail;
    RoundsCall(p, k - 1);
    TailCalls(p, w, k, tail, outcome);
    CallsAppend(Rounds(p, k - 1), tail);
    forall i: nat | 1 <= i < Calls(trace)
      ensures w.failure(i).Fails?
    {
      assert i < k ==> Passed(w, i);
    }
  }

  /** The event of a run at position `i`: rounds of check, call and wait, each wait as long as
      the policy says for its round. */
  function EventAt(p: Policy, i: nat): Event
    requires i / 3 < MAX_INT64
  {
    var round := i / 3 + 1;
    if i % 3 == 0 then Check(round) else if i % 3 == 1 then Call(round) else Wait(round, DelayFor(p, round))
  }

  lemma {:induction false} RoundsInOrder(p: Policy, n: Int64)
    requires n >= 0
    ensures |Rounds(p, n)| == 3 * n && forall i | 0 <= i < 3 * n :: Rounds(p, n)[i] == EventAt(p, i)
    decreases n
  {
    if n > 0 {
      RoundsInOrder(p, n - 1);
      forall i | 0 <= i < 3 * n
        ensures Rounds(p, n)[i] == EventAt(p, i)
      {
        if i >= 3 * (n - 1) {
          assert i / 3 == n - 1;
        }
      }
    }
  }

  /** Every run is a prefix of the same endless rounds. */
  lemma TraceInOrder<E>(p: Policy, w: World<E>, k: Int64, trace: seq<Event>, outcome: Outcome<E>)
    requires RunsTo(p, w, k, trace, outcome)
    ensures 3 * (k - 1) < |trace| <= 3 * k && forall i | 0 <= i < |trace| :: trace[i] == EventAt(p, i)
  {
    var tail :| Ends(p, w, k, tail, outcome) && trace == Rounds(p, k - 1) + tail;
    RoundsInOrder(p, k - 1);
    forall i | 0 <= i < |trace|
      ensures trace[i] == EventAt(p, i)
    {
      var left := i - 3 * (k - 1);
      if left >= 0 {
        assert i / 3 == k - 1 && i % 3 == left && trace[i] == tail[left];
      }
    }
  }

  /** A cancellation is the last thing a run observes: nothing follows the check or
      the wait that found it. */
  lemma CancellationIsLast<E>(p: Policy, w: World<E>, k: Int64, trace: seq<Event>, outcome: Outcome<E>, i: nat)
    requires RunsTo(p, w, k, trace, outcome) && i < |trace|
    requires (trace[i].Check? && w.cancelledBefore(trace[i].attempt))
             || (trace[i].Wait? && w.cancelledWaiting(trace[i].attempt))
    ensures i == |trace| - 1 && outcome == Cancelled
  {
    var tail :| Ends(p, w, k, tail, outcome) && trace == Rounds(p, k - 1) + tail;
    if i < |Rounds(p, k - 1)| {
      RoundsPass(p, w, k - 1, i);
    }
  }

  lemma {:induction false} RoundsPass<E>(p: Policy, w: World<E>, n: Int64, i: nat)
    requires n >= 0 && i < |Rounds(p, n)| && forall r: nat | 1 <= r <= n :: Passed(w, r)
    ensures var e := Rounds(p, n)[i];
            !(e.Check? && w.cancelledBefore(e.attempt)) && !(e.Wait? && w.cancelledWaiting(e.attempt))
    decreases n
  {
    if n > 0 {
      if i < |Rounds(p, n - 1)| {
        RoundsPass(p, w, n - 1, i);
      } else {
        assert Passed(w, n);
      }
    }
  }

  /** The world fixes the run. */
  lemma RunUnique<E>(p: Policy, w: World<E>, k: Int64, trace: seq<Event>, outcome: Outcome<E>,
                     k': Int64, trace': seq<Event>, outcome': Outcome<E>)
    requires RunsTo(p, w, k, trace, outcome) && RunsTo(p, w, k', trace', outcome')
    ensures k == k' && trace == trace' && outcome == outcome'
  {
    var tail :| Ends(p, w, k, tail, outcome) && trace == Rounds(p, k - 1) + tail;
    var tail' :| Ends(p, w, k', tail', outcome') && trace' == Rounds(p, k' - 1) + tail';
    if k < k' {
      EndsIsNotPassed(p, w, k, tail, outcome);
    } else if k' < k {
      EndsIsNotPassed(p, w, k', tail', outcome');
    }
  }

  lemma EndsIsNotPassed<E>(p: Policy, w: World<E>, k: Int64, tail: seq<Event>, outcome: Outcome<E>)
    requires k >= 1 && Ends(p, w, k, tail, outcome)
    ensures k < p.attempts ==> !Passed(w, k)
  {
  }
}
