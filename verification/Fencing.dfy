/** The fencing lease: who holds it, which token the holder was issued, and what
    holds over whole runs of acquisitions and commits. */
module Fencing {
  import opened Prelude

  type Token = x: int | 0 <= x < TWO_TO_THE_64

  datatype Lease = Lease(owner: string, token: Token, expiresAt: int)

  const FREE: Lease := Lease("", 0, 0)

  datatype Event = Acquire(owner: string, now: int, ttl: int) | Commit(owner: string, token: Token, now: int)

  predicate Granted(l: Lease, owner: string, now: int, ttl: int) {
    !(owner == "" || ttl <= 0 || (l.owner != "" && now < l.expiresAt && l.owner != owner))
  }

  predicate Commits(l: Lease, owner: string, token: Token, now: int) {
    owner != "" && owner == l.owner && token == l.token && now < l.expiresAt
  }

  /** Whether the lease says yes to the event. */
  predicate Accepts(l: Lease, e: Event) {
    match e
    case Acquire(owner, now, ttl) => Granted(l, owner, now, ttl)
    case Commit(owner, token, now) => Commits(l, owner, token, now)
  }

  function After(l: Lease, e: Event): Lease {
    if e.Acquire? && Accepts(l, e) then Lease(e.owner, (l.token + 1) % TWO_TO_THE_64, e.now + e.ttl) else l
  }

  function Run(l: Lease, events: seq<Event>): Lease {
    if events == [] then l else After(Run(l, events[..|events| - 1]), events[|events| - 1])
  }

  // ---------- Runs ----------

  lemma {:induction false} RunAppend(l: Lease, first: seq<Event>, second: seq<Event>)
    ensures Run(l, first + second) == Run(Run(l, first), second)
    decreases |second|
  {
    if second == [] {
      assert first + second == first;
    } else {
      assert (first + second)[..|first + second| - 1] == first + second[..|second| - 1];
      RunAppend(l, first, second[..|second| - 1]);
    }
  }

  lemma RunBetween(l: Lease, events: seq<Event>, i: nat, k: nat)
    requires i <= k <= |events|
    ensures Run(l, events[..k]) == Run(Run(l, events[..i]), events[i..k])
  {
    assert events[..k] == events[..i] + events[i..k];
    RunAppend(l, events[..i], events[i..k]);
  }

  lemma RunNext(l: Lease, events: seq<Event>, i: nat)
    requires i < |events|
    ensures Run(l, events[..i + 1]) == After(Run(l, events[..i]), events[i])
  {
    assert events[..i + 1][..i] == events[..i];
  }

  /** Short of a wrap-around the token never falls and rises by at most one an event. */
  lemma {:induction false} TokenGrows(l: Lease, events: seq<Event>)
    requires l.token + |events| < TWO_TO_THE_64
    ensures l.token <= Run(l, events).token <= l.token + |events|
    decreases |events|
  {
    if events != [] {
      TokenGrows(l, events[..|events| - 1]);
    }
  }

  lemma TokenAfter(l: Lease, events: seq<Event>, i: nat, k: nat)
    requires l.token + |events| < TWO_TO_THE_64 && i < k <= |events|
    ensures Run(l, events[..i]).token <= Run(l, events[..i + 1]).token <= Run(l, events[..k]).token
    ensures events[i].Acquire? && Accepts(Run(l, events[..i]), events[i]) ==>
              Run(l, events[..i + 1]).token == Run(l, events[..i]).token + 1
  {
    TokenGrows(l, events[..i]);
    TokenGrows(l, events[..i + 1]);
    RunNext(l, events, i);
    RunBetween(l, events, i + 1, k);
    TokenGrows(Run(l, events[..i + 1]), events[i + 1..k]);
  }

  /** The token handed out by the granted acquisition at `i`. */
  function IssuedAt(l: Lease, events: seq<Event>, i: nat): Token
    requires i < |events|
  {
    Run(l, events[..i + 1]).token
  }

  predicate GrantedAt(l: Lease, events: seq<Event>, i: nat)
    requires i < |events|
  {
    events[i].Acquire? && Accepts(Run(l, events[..i]), events[i])
  }

  predicate CommitsAt(l: Lease, events: seq<Event>, i: nat)
    requires i < |events|
  {
    events[i].Commit? && Accepts(Run(l, events[..i]), events[i])
  }

  /** Issued tokens strictly increase. */
  lemma IssuedTokensIncrease(l: Lease, events: seq<Event>, i: nat, k: nat)
    requires l.token + |events| < TWO_TO_THE_64 && i < k < |events|
    requires GrantedAt(l, events, i) && GrantedAt(l, events, k)
    ensures IssuedAt(l, events, i) < IssuedAt(l, events, k)
  {
    TokenAfter(l, events, i, k);
    TokenAfter(l, events, k, k + 1);
  }

  /** Once another acquisition was granted, a token issued before it commits for
      nobody, whatever the clocks say. */
  lemma SupersededTokenNeverCommits(l: Lease, events: seq<Event>, i: nat, k: nat, m: nat)
    requires l.token + |events| < TWO_TO_THE_64 && i < k < m < |events|
    requires GrantedAt(l, events, i) && GrantedAt(l, events, k)
    requires events[m].Commit? && events[m].token == IssuedAt(l, events, i)
    ensures !CommitsAt(l, events, m)
  {
    IssuedTokensIncrease(l, events, i, k);
    TokenAfter(l, events, k, m);
  }

  /** The tokens of successful commits never go back. */
  lemma CommittedTokensDoNotFall(l: Lease, events: seq<Event>, i: nat, k: nat)
    requires l.token + |events| < TWO_TO_THE_64 && i < k < |events|
    requires CommitsAt(l, events, i) && CommitsAt(l, events, k)
    ensures events[i].token <= events[k].token
    ensures events[i].token == events[k].token <==>
              (forall j | i < j < k :: !GrantedAt(l, events, j))
  {
    TokenAfter(l, events, i, k);
    if j :| i < j < k && GrantedAt(l, events, j) {
      TokenAfter(l, events, i, j);
      TokenAfter(l, events, j, k);
    } else {
      NoGrantKeepsLease(l, events, i, k);
    }
  }

  lemma {:induction false} NoGrantKeepsLease(l: Lease, events: seq<Event>, i: nat, k: nat)
    requires i <= k <= |events| && forall j | i <= j < k :: !GrantedAt(l, events, j)
    ensures Run(l, events[..k]) == Run(l, events[..i])
    decreases k
  {
    if i < k {
      NoGrantKeepsLease(l, events, i, k - 1);
      RunNext(l, events, k - 1);
      assert !GrantedAt(l, events, k - 1);
    }
  }

  // ---------- The lease ----------

  /** Every token was issued below `bound` by the grants among the events. */
  ghost predicate IssuedBelow(events: seq<Event>, bound: int) {
    forall i | 0 <= i < |events| && GrantedAt(FREE, events, i) :: IssuedAt(FREE, events, i) < bound
  }

  predicate NoneGrantedAfter(events: seq<Event>, i: nat) {
    forall k | i < k < |events| :: !GrantedAt(FREE, events, k)
  }

  /** The grant at `i` is the last one so far, was `owner`'s, and has not run out at `now`. */
  predicate HeldBy(events: seq<Event>, i: nat, owner: string, now: int)
    requires i < |events|
  {
    && GrantedAt(FREE, events, i) && NoneGrantedAfter(events, i)
    && events[i].owner == owner && now < events[i].now + events[i].ttl
  }

  predicate NoOtherHolds(events: seq<Event>, owner: string, now: int) {
    forall i | 0 <= i < |events| && HeldBy(events, i, events[i].owner, now) :: events[i].owner == owner
  }

  /** The state is what the last grant left. */
  lemma LastGrantDecides(events: seq<Event>, i: nat)
    requires i < |events| && GrantedAt(FREE, events, i) && NoneGrantedAfter(events, i)
    ensures Run(FREE, events) == Lease(events[i].owner, IssuedAt(FREE, events, i), events[i].now + events[i].ttl)
  {
    RunNext(FREE, events, i);
    NoGrantKeepsLease(FREE, events, i + 1, |events|);
    assert events[..|events|] == events;
  }

  lemma {:induction false} SomeGrantOrFree(events: seq<Event>)
    ensures Run(FREE, events) == FREE
            || exists i :: 0 <= i < |events| && GrantedAt(FREE, events, i) && NoneGrantedAfter(events, i)
    decreases |events|
  {
    if events != [] {
      var n := |events| - 1;
      SomeGrantOrFree(events[..n]);
      if GrantedAt(FREE, events, n) {
        assert NoneGrantedAfter(events, n);
      } else if i :| 0 <= i < n && GrantedAt(FREE, events[..n], i) && NoneGrantedAfter(events[..n], i) {
        GrantsOfPrefix(events, n);
        assert GrantedAt(FREE, events, i) && NoneGrantedAfter(events, i);
      }
    }
  }

  lemma GrantsOfPrefix(events: seq<Event>, n: nat)
    requires n <= |events|
    ensures forall i | 0 <= i < n :: GrantedAt(FREE, events[..n], i) == GrantedAt(FREE, events, i)
  {
    assert forall i | 0 <= i < n :: events[..n][..i] == events[..i];
  }

  lemma CommitsIffHeld(events: seq<Event>, owner: string, token: Token, now: int)
    ensures Commits(Run(FREE, events), owner, token, now)
            <==> exists i :: 0 <= i < |events| && HeldBy(events, i, owner, now) && IssuedAt(FREE, events, i) == token
  {
    SomeGrantOrFree(events);
    forall i | 0 <= i < |events| && GrantedAt(FREE, events, i) && NoneGrantedAfter(events, i)
      ensures Run(FREE, events) == Lease(events[i].owner, IssuedAt(FREE, events, i), events[i].now + events[i].ttl)
      ensures events[i].owner != ""
    {
      LastGrantDecides(events, i);
    }
  }

  lemma GrantedIffUnheld(events: seq<Event>, owner: string, now: int, ttl: int)
    ensures Granted(Run(FREE, events), owner, now, ttl)
            <==> owner != "" && ttl > 0 && NoOtherHolds(events, owner, now)
  {
    SomeGrantOrFree(events);
    forall i | 0 <= i < |events| && GrantedAt(FREE, events, i) && NoneGrantedAfter(events, i)
      ensures Run(FREE, events) == Lease(events[i].owner, IssuedAt(FREE, events, i), events[i].now + events[i].ttl)
      ensures events[i].owner != ""
      ensures now < events[i].now + events[i].ttl ==> HeldBy(events, i, events[i].owner, now)
    {
      LastGrantDecides(events, i);
    }
  }

  /** Short of a wrap-around no token is above the current one. */
  lemma NoneIssuedAbove(events: seq<Event>)
    requires |events| < TWO_TO_THE_64
    ensures IssuedBelow(events, Run(FREE, events).token + 1)
  {
    forall i | 0 <= i < |events| && GrantedAt(FREE, events, i)
      ensures IssuedAt(FREE, events, i) <= Run(FREE, events).token
    {
      TokenAfter(FREE, events, i, |events|);
      assert events[..|events|] == events;
    }
  }

  lemma NextTokenIsNew(events: seq<Event>)
    requires |events| + 1 < TWO_TO_THE_64
    ensures IssuedBelow(events, (Run(FREE, events).token + 1) % TWO_TO_THE_64)
  {
    NoneIssuedAbove(events);
    TokenGrows(FREE, events);
  }

  lemma EventAppended(events: seq<Event>, e: Event)
    ensures var l, all := Run(FREE, events), events + [e];
            && Run(FREE, all) == After(l, e) && IssuedAt(FREE, all, |events|) == After(l, e).token
            && (GrantedAt(FREE, all, |events|) <==> e.Acquire? && Accepts(l, e))
  {
    var all := events + [e];
    assert all[..|events|] == events && all[..|events| + 1] == all;
  }

  /** Short of a wrap-around a token tells its grant: nothing was granted since a current one was issued. */
  lemma CurrentTokenIsLast(events: seq<Event>, i: nat)
    requires |events| < TWO_TO_THE_64 && i < |events| && GrantedAt(FREE, events, i)
    requires IssuedAt(FREE, events, i) == Run(FREE, events).token
    ensures NoneGrantedAfter(events, i)
  {
    assert events[..|events|] == events;
    forall k | i < k < |events|
      ensures !GrantedAt(FREE, events, k)
    {
      if GrantedAt(FREE, events, k) {
        IssuedTokensIncrease(FREE, events, i, k);
        TokenAfter(FREE, events, k, |events|);
      }
    }
  }

  /** A grant that issued `token` is `owner`'s, and nothing was granted since. */
  predicate OnlyLastGrant(events: seq<Event>, owner: string, token: Token) {
    forall i | 0 <= i < |events| && GrantedAt(FREE, events, i) && IssuedAt(FREE, events, i) == token ::
      NoneGrantedAfter(events, i) && events[i].owner == owner
  }

  class FenceLease {
    var owner: string
    var token: Token
    var expiresAt: int
    ghost var events: seq<Event>

    function State(): Lease
      reads this
    {
      Lease(owner, token, expiresAt)
    }

    /** The fields are what the history of calls makes of a new lease. */
    ghost predicate Valid()
      reads this
    {
      State() == Run(FREE, events)
    }

    constructor ()
      ensures Valid() && events == []
    {
      owner, token, expiresAt, events := "", 0, 0, [];
    }

    /** Granted unless another owner holds the lease; the token is one never issued before. */
    method Acquire(owner: string, now: int, ttl: int) returns (issued: Token, ok: bool)
      requires Valid()
      modifies this
      ensures Valid() && events == old(events) + [Event.Acquire(owner, now, ttl)]
      ensures ok <==> owner != "" && ttl > 0 && NoOtherHolds(old(events), owner, now)
      ensures ok <==> GrantedAt(FREE, events, |old(events)|)
      ensures ok ==> issued == IssuedAt(FREE, events, |old(events)|)
      ensures ok && |events| < TWO_TO_THE_64 ==> IssuedBelow(old(events), issued)
      ensures !ok ==> issued == 0 && State() == old(State())
    {
      hide Run, GrantedAt, IssuedAt, IssuedBelow, NoOtherHolds;
      GrantedIffUnheld(events, owner, now, ttl);
      EventAppended(events, Event.Acquire(owner, now, ttl));
      if |events| + 1 < TWO_TO_THE_64 {
        NextTokenIsNew(events);
      }
      events := events + [Event.Acquire(owner, now, ttl)];
      if owner == "" || ttl <= 0 || (this.owner != "" && now < expiresAt && this.owner != owner) {
        return 0, false;
      }
      token := (token + 1) % TWO_TO_THE_64;
      this.owner := owner;
      expiresAt := now + ttl;
      return token, true;
    }

    /** Accepted exactly from the owner of the last grant, with its token, before it runs out;
        short of a wrap-around nothing was then granted since that token was issued. */
    method Commit(owner: string, token: Token, now: int) returns (ok: bool)
      requires Valid()
      modifies `events
      ensures Valid() && State() == old(State()) && events == old(events) + [Event.Commit(owner, token, now)]
      ensures ok <==> exists i :: 0 <= i < |old(events)| && HeldBy(old(events), i, owner, now)
                                  && IssuedAt(FREE, old(events), i) == token
      ensures ok && |old(events)| < TWO_TO_THE_64 ==> OnlyLastGrant(old(events), owner, token)
    {
      ok := owner != "" && owner == this.owner && token == this.token && now < expiresAt;
      CommitsIffHeld(events, owner, token, now);
      if ok && |events| < TWO_TO_THE_64 {
        forall i | 0 <= i < |events| && GrantedAt(FREE, events, i) && IssuedAt(FREE, events, i) == token
          ensures NoneGrantedAfter(events, i) && events[i].owner == owner
        {
          CurrentTokenIsLast(events, i);
          LastGrantDecides(events, i);
        }
      }
      EventAppended(events, Event.Commit(owner, token, now));
      events := events + [Event.Commit(owner, token, now)];
    }
  }

  // ---------- One instant, one owner ----------

  /** The clocks of the events never rise from one to the next and none is above `now`. */
  ghost predicate Settled(events: seq<Event>, now: int) {
    && (forall i | 0 <= i < |events| :: events[i].now <= now)
    && (forall i, k | 0 <= i < k < |events| :: events[k].now <= events[i].now)
  }

  /** While the clock only falls back a live lease keeps its owner. */
  lemma {:induction false} SettledKeepsOwner(l: Lease, events: seq<Event>, now: int, n: nat)
    requires l.owner != "" && now < l.expiresAt && Settled(events, now) && n <= |events|
    ensures Run(l, events[..n]).owner == l.owner
    ensures n < |events| ==> events[n].now < Run(l, events[..n]).expiresAt
    decreases n
  {
    if n > 0 {
      SettledKeepsOwner(l, events, now, n - 1);
      RunNext(l, events, n - 1);
    }
  }

  /** Two commits accepted at one instant are the same owner's if the clocks between
      them are not above that instant and never rise; a clock that never falls at all
      gives just that. */
  lemma OneOwnerPerInstant(l: Lease, events: seq<Event>, i: nat, k: nat)
    requires i < k < |events| && CommitsAt(l, events, i) && CommitsAt(l, events, k)
    requires events[i].now == events[k].now && Settled(events[i..k], events[i].now)
    ensures events[i].owner == events[k].owner
  {
    RunBetween(l, events, i, k);
    SettledKeepsOwner(Run(l, events[..i]), events[i..k], events[i].now, k - i);
    assert events[i..k][..k - i] == events[i..k];
  }

  predicate ClockNeverFalls(events: seq<Event>) {
    forall i, k | 0 <= i < k < |events| :: events[i].now <= events[k].now
  }

  lemma SteadyClockSettles(events: seq<Event>, i: nat, k: nat)
    requires ClockNeverFalls(events) && i < k < |events| && events[i].now == events[k].now
    ensures Settled(events[i..k], events[i].now)
  {
    forall j | 0 <= j < k - i
      ensures events[i..k][j].now == events[i].now
    {
      assert events[i].now <= events[i + j].now <= events[k].now;
    }
  }

  /** After `opening` on a new lease its owner commits at `now`; then come events with
      these clocks; then another owner commits at `now`. */
  ghost predicate SharesInstant(opening: seq<Event>, events: seq<Event>, clocks: seq<int>, now: int) {
    var l := Run(FREE, opening);
    var r := Run(l, events);
    && |events| == |clocks| && (forall i | 0 <= i < |clocks| :: events[i].now == clocks[i])
    && Commits(l, l.owner, l.token, now) && Commits(r, r.owner, r.token, now) && l.owner != r.owner
  }

  lemma {:induction false} CommitsChangeNothing(l: Lease, events: seq<Event>)
    requires forall i | 0 <= i < |events| :: events[i].Commit?
    ensures Run(l, events) == l
    decreases |events|
  {
    if events != [] {
      CommitsChangeNothing(l, events[..|events| - 1]);
    }
  }

  /** Events with these clocks that only commit, but for the acquisition at `at`. */
  lemma OneAcquisition(l: Lease, events: seq<Event>, at: nat)
    requires at < |events| && forall i | 0 <= i < |events| && i != at :: events[i].Commit?
    ensures Run(l, events) == After(l, events[at])
  {
    CommitsChangeNothing(l, events[..at]);
    RunNext(l, events, at);
    RunBetween(l, events, at + 1, |events|);
    CommitsChangeNothing(After(l, events[at]), events[at + 1..|events|]);
    assert events[..|events|] == events;
  }

  lemma HeldUntilNext(now: int)
    ensures Run(FREE, [Acquire("a", now, 1)]) == Lease("a", 1, now + 1)
  {
    assert [Acquire("a", now, 1)][..0] == [];
  }

  /** A clock above the instant lets another owner in while the first lease is over. */
  lemma LaterClockShares(clocks: seq<int>, now: int, at: nat)
    requires at < |clocks| && clocks[at] > now
    ensures exists opening, events :: SharesInstant(opening, events, clocks, now)
  {
    var events := seq(|clocks|, i requires 0 <= i < |clocks| =>
      if i == at then Acquire("b", clocks[i], 1) else Commit("", 0, clocks[i]));
    HeldUntilNext(now);
    OneAcquisition(Lease("a", 1, now + 1), events, at);
    assert SharesInstant([Acquire("a", now, 1)], events, clocks, now);
  }

  /** A clock that rises below the instant lets the owner cut its lease short and
      another take it in between. */
  lemma RisingClockShares(clocks: seq<int>, now: int, i: nat, k: nat)
    requires i < k < |clocks| && clocks[i] < clocks[k] <= now
    ensures exists opening, events :: SharesInstant(opening, events, clocks, now)
  {
    var events := seq(|clocks|, n requires 0 <= n < |clocks| =>
      if n == i then Acquire("a", clocks[n], 1)
      else if n == k then Acquire("b", clocks[n], now - clocks[n] + 1)
      else Commit("", 0, clocks[n]));
    HeldUntilNext(now);
    var l, short := Lease("a", 1, now + 1), Lease("a", 2, clocks[i] + 1);
    OneAcquisition(l, events[..k], i);
    assert Run(l, events[..k]) == short;
    RunBetween(l, events, k, |events|);
    OneAcquisition(short, events[k..|events|], 0);
    assert events[..|events|] == events;
    assert SharesInstant([Acquire("a", now, 1)], events, clocks, now);
  }

  ghost predicate NeverRiseAbove(clocks: seq<int>, now: int) {
    && (forall i | 0 <= i < |clocks| :: clocks[i] <= now)
    && (forall i, k | 0 <= i < k < |clocks| :: clocks[k] <= clocks[i])
  }

  /** Exactly which clocks between two commits at one instant let two owners have it:
      those that go above it or rise. */
  lemma InstantSharedIff(clocks: seq<int>, now: int)
    ensures (exists opening, events :: SharesInstant(opening, events, clocks, now)) <==> !NeverRiseAbove(clocks, now)
  {
    if at :| 0 <= at < |clocks| && clocks[at] > now {
      LaterClockShares(clocks, now, at);
    } else if i, k :| 0 <= i < k < |clocks| && clocks[i] < clocks[k] {
      RisingClockShares(clocks, now, i, k);
    } else {
      forall opening, events
        ensures !SharesInstant(opening, events, clocks, now)
      {
        SettledClocksShareNothing(opening, events, clocks, now);
      }
    }
  }

  lemma SettledClocksShareNothing(opening: seq<Event>, events: seq<Event>, clocks: seq<int>, now: int)
    requires NeverRiseAbove(clocks, now)
    ensures !SharesInstant(opening, events, clocks, now)
  {
    if |events| == |clocks| && (forall i | 0 <= i < |clocks| :: events[i].now == clocks[i])
       && Commits(Run(FREE, opening), Run(FREE, opening).owner, Run(FREE, opening).token, now) {
      SettledKeepsOwner(Run(FREE, opening), events, now, |events|);
      assert events[..|events|] == events;
    }
  }
}
