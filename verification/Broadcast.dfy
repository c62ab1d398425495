/** The broadcaster as a protocol: any number of subscribers, a publisher that holds
    the lock while it sends, and receivers that take events at any time.  `history`,
    `since`, `until` and `taken` record what happened; no step looks at them. */
module Broadcast {

  type Event = seq<int>

  datatype Channel = Channel(capacity: nat, buffer: seq<Event>, isClosed: bool)

  datatype Publishing = Idle | Sending(event: Event, remaining: set<nat>)

  datatype Record = Record(since: nat, until: nat, taken: seq<Event>)

  datatype Sys = Sys(next: nat, subscribers: set<nat>, channels: map<nat, Channel>, onceDone: set<nat>,
                     publishing: Publishing, panicked: bool, history: seq<Event>, records: map<nat, Record>)

  const INITIAL: Sys := Sys(0, {}, map[], {}, Idle, false, [], map[])

  datatype Step =
    | Subscribe(capacity: nat)
    | Unsubscribe(id: nat)
    | Begin(event: Event)
    | Send(id: nat)
    | HandOver(id: nat)
    | End
    | Receive(id: nat)

  /** Subscribing, cancelling and starting to publish wait for the lock. */
  predicate Enabled(s: Sys, step: Step) {
    match step
    case Subscribe(_) => s.publishing.Idle?
    case Unsubscribe(id) => id in s.channels && id in s.records && (s.publishing.Idle? || id in s.onceDone)
    case Begin(_) => s.publishing.Idle?
    case Send(id) =>
      && s.publishing.Sending? && id in s.publishing.remaining && id in s.channels
      && (s.channels[id].isClosed || |s.channels[id].buffer| < s.channels[id].capacity)
    case HandOver(id) =>
      && s.publishing.Sending? && id in s.publishing.remaining && id in s.channels && id in s.records
      && (s.channels[id].isClosed || s.channels[id].buffer == [])
    case End => s.publishing.Sending? && s.publishing.remaining == {}
    case Receive(id) => id in s.channels && id in s.records && s.channels[id].buffer != []
  }

  /** One step; a send on a closed channel and a second close panic. */
  function Do(s: Sys, step: Step): Sys
    requires Enabled(s, step)
  {
    match step
    case Subscribe(capacity) =>
      s.(next := s.next + 1, subscribers := s.subscribers + {s.next},
         channels := s.channels[s.next := Channel(capacity, [], false)],
         records := s.records[s.next := Record(|s.history|, |s.history|, [])])
    case Unsubscribe(id) =>
      if id in s.onceDone then s
      else if s.channels[id].isClosed then s.(panicked := true)
      else s.(onceDone := s.onceDone + {id}, subscribers := s.subscribers - {id},
              channels := s.channels[id := s.channels[id].(isClosed := true)],
              records := s.records[id := s.records[id].(until := |s.history|)])
    case Begin(event) => s.(publishing := Sending(event, s.subscribers), history := s.history + [event])
    case Send(id) =>
      if s.channels[id].isClosed then s.(panicked := true)
      else s.(publishing := s.publishing.(remaining := s.publishing.remaining - {id}),
              channels := s.channels[id := s.channels[id].(buffer := s.channels[id].buffer + [s.publishing.event])])
    case HandOver(id) =>
      if s.channels[id].isClosed then s.(panicked := true)
      else s.(publishing := s.publishing.(remaining := s.publishing.remaining - {id}),
              records := s.records[id := s.records[id].(taken := s.records[id].taken + [s.publishing.event])])
    case End => s.(publishing := Idle)
    case Receive(id) =>
      var first := s.channels[id].buffer[0];
      s.(channels := s.channels[id := s.channels[id].(buffer := s.channels[id].buffer[1..])],
         records := s.records[id := s.records[id].(taken := s.records[id].taken + [first])])
  }

  /** A step that is not enabled waits: it changes nothing. */
  function Apply(s: Sys, step: Step): Sys {
    if Enabled(s, step) then Do(s, step) else s
  }

  function Run(s: Sys, steps: seq<Step>): Sys {
    if steps == [] then s else Apply(Run(s, steps[..|steps| - 1]), steps[|steps| - 1])
  }

  // ---------- The invariant ----------

  /** What a subscriber has of the history: taken, waiting in its buffer, and on its way. */
  function Had(s: Sys, id: nat): seq<Event>
    requires id in s.channels && id in s.records
  {
    s.records[id].taken + s.channels[id].buffer
    + (if s.publishing.Sending? && id in s.publishing.remaining then [s.publishing.event] else [])
  }

  ghost predicate UpToDate(s: Sys, id: nat)
    requires id in s.channels && id in s.records
  {
    var r := s.records[id];
    if s.channels[id].isClosed
    then r.since <= r.until <= |s.history| && Had(s, id) == s.history[r.since..r.until]
    else r.since <= |s.history| && Had(s, id) == s.history[r.since..]
  }

  ghost predicate Sound(s: Sys) {
    && !s.panicked
    && s.channels.Keys == s.records.Keys
    && (forall id | id in s.channels :: id < s.next)
    && (forall id: nat :: id in s.subscribers <==> id in s.channels && !s.channels[id].isClosed)
    && (forall id: nat :: id in s.onceDone <==> id in s.channels && s.channels[id].isClosed)
    && (s.publishing.Sending? ==> s.publishing.remaining <= s.subscribers)
    && (forall id | id in s.channels :: |s.channels[id].buffer| <= s.channels[id].capacity && UpToDate(s, id))
  }

  lemma SubscribeKeepsUpToDate(s: Sys, capacity: nat, k: nat)
    requires Sound(s) && Enabled(s, Subscribe(capacity)) && k in Do(s, Subscribe(capacity)).channels
    ensures k in Do(s, Subscribe(capacity)).records && UpToDate(Do(s, Subscribe(capacity)), k)
  {
    var d := Do(s, Subscribe(capacity));
    assert k != s.next ==> UpToDate(s, k);
  }

  lemma SubscribeKeepsSound(s: Sys, capacity: nat)
    requires Sound(s) && Enabled(s, Subscribe(capacity))
    ensures Sound(Do(s, Subscribe(capacity)))
  {
    hide UpToDate;
    forall k | k in Do(s, Subscribe(capacity)).channels
      ensures k in Do(s, Subscribe(capacity)).records && UpToDate(Do(s, Subscribe(capacity)), k)
    {
      SubscribeKeepsUpToDate(s, capacity, k);
    }
  }

  lemma UnsubscribeKeepsUpToDate(s: Sys, id: nat, k: nat)
    requires Sound(s) && Enabled(s, Unsubscribe(id)) && k in Do(s, Unsubscribe(id)).channels
    ensures k in Do(s, Unsubscribe(id)).records && UpToDate(Do(s, Unsubscribe(id)), k)
  {
    var d := Do(s, Unsubscribe(id));
    assert UpToDate(s, k);
  }

  lemma UnsubscribeKeepsSound(s: Sys, id: nat)
    requires Sound(s) && Enabled(s, Unsubscribe(id))
    ensures Sound(Do(s, Unsubscribe(id)))
  {
    hide UpToDate;
    forall k | k in Do(s, Unsubscribe(id)).channels
      ensures k in Do(s, Unsubscribe(id)).records && UpToDate(Do(s, Unsubscribe(id)), k)
    {
      UnsubscribeKeepsUpToDate(s, id, k);
    }
  }

  lemma BeginKeepsSound(s: Sys, event: Event)
    requires Sound(s) && Enabled(s, Begin(event))
    ensures Sound(Do(s, Begin(event)))
  {
    var d := Do(s, Begin(event));
    forall k | k in d.channels
      ensures UpToDate(d, k)
    {
      assert UpToDate(s, k);
      var r := s.records[k];
      assert Had(s, k) == r.taken + s.channels[k].buffer;
      if !s.channels[k].isClosed {
        assert d.history[r.since..] == s.history[r.since..] + [event];
      } else {
        assert d.history[r.since..r.until] == s.history[r.since..r.until];
      }
    }
  }

  lemma SendKeepsUpToDate(s: Sys, id: nat, k: nat)
    requires Sound(s) && Enabled(s, Send(id)) && k in Do(s, Send(id)).channels
    ensures k in Do(s, Send(id)).records && UpToDate(Do(s, Send(id)), k)
  {
    var d := Do(s, Send(id));
    assert UpToDate(s, k);
    assert Had(d, k) == Had(s, k);
  }

  lemma SendKeepsSound(s: Sys, id: nat)
    requires Sound(s) && Enabled(s, Send(id))
    ensures Sound(Do(s, Send(id)))
  {
    hide UpToDate;
    forall k | k in Do(s, Send(id)).channels
      ensures k in Do(s, Send(id)).records && UpToDate(Do(s, Send(id)), k)
    {
      SendKeepsUpToDate(s, id, k);
    }
  }

  lemma HandOverKeepsUpToDate(s: Sys, id: nat, k: nat)
    requires Sound(s) && Enabled(s, HandOver(id)) && k in Do(s, HandOver(id)).channels
    ensures k in Do(s, HandOver(id)).records && UpToDate(Do(s, HandOver(id)), k)
  {
    var d := Do(s, HandOver(id));
    assert UpToDate(s, k);
    assert Had(d, k) == Had(s, k);
  }

  lemma HandOverKeepsSound(s: Sys, id: nat)
    requires Sound(s) && Enabled(s, HandOver(id))
    ensures Sound(Do(s, HandOver(id)))
  {
    hide UpToDate;
    forall k | k in Do(s, HandOver(id)).channels
      ensures k in Do(s, HandOver(id)).records && UpToDate(Do(s, HandOver(id)), k)
    {
      HandOverKeepsUpToDate(s, id, k);
    }
  }

  lemma TakingKeepsOrder(taken: seq<Event>, buffer: seq<Event>)
    requires buffer != []
    ensures (taken + [buffer[0]]) + buffer[1..] == taken + buffer
  {
  }

  lemma ReceiveKeepsUpToDate(s: Sys, id: nat, k: nat)
    requires Sound(s) && Enabled(s, Receive(id)) && k in Do(s, Receive(id)).channels
    ensures k in Do(s, Receive(id)).records && UpToDate(Do(s, Receive(id)), k)
  {
    var d := Do(s, Receive(id));
    assert UpToDate(s, k);
    if k == id {
      TakingKeepsOrder(s.records[id].taken, s.channels[id].buffer);
    }
    assert Had(d, k) == Had(s, k);
  }

  lemma ReceiveKeepsSound(s: Sys, id: nat)
    requires Sound(s) && Enabled(s, Receive(id))
    ensures Sound(Do(s, Receive(id)))
  {
    hide UpToDate;
    forall k | k in Do(s, Receive(id)).channels
      ensures k in Do(s, Receive(id)).records && UpToDate(Do(s, Receive(id)), k)
    {
      ReceiveKeepsUpToDate(s, id, k);
    }
  }

  lemma EndKeepsSound(s: Sys)
    requires Sound(s) && Enabled(s, End)
    ensures Sound(Do(s, End))
  {
    forall k | k in s.channels
      ensures UpToDate(Do(s, End), k)
    {
      assert UpToDate(s, k);
    }
  }

  lemma StepKeepsSound(s: Sys, step: Step)
    requires Sound(s) && Enabled(s, step)
    ensures Sound(Do(s, step))
  {
    match step
    case Subscribe(capacity) => SubscribeKeepsSound(s, capacity);
    case Unsubscribe(id) => UnsubscribeKeepsSound(s, id);
    case Begin(event) => BeginKeepsSound(s, event);
    case Send(id) => SendKeepsSound(s, id);
    case HandOver(id) => HandOverKeepsSound(s, id);
    case End => EndKeepsSound(s);
    case Receive(id) => ReceiveKeepsSound(s, id);
  }

  lemma {:induction false} RunKeepsSound(s: Sys, steps: seq<Step>)
    requires Sound(s)
    ensures Sound(Run(s, steps))
    decreases |steps|
  {
    if steps != [] {
      var before, last := Run(s, steps[..|steps| - 1]), steps[|steps| - 1];
      RunKeepsSound(s, steps[..|steps| - 1]);
      if Enabled(before, last) {
        StepKeepsSound(before, last);
      }
    }
  }

  // ---------- What subscribers get ----------

  /** Between publications every subscriber has taken or holds in its buffer exactly
      the events published since it subscribed, up to its cancellation, in order and
      each once. */
  lemma SubscribersGetHistory(steps: seq<Step>, id: nat)
    requires var s := Run(INITIAL, steps); s.publishing.Idle? && id in s.channels
    ensures id in Run(INITIAL, steps).records
    ensures var s := Run(INITIAL, steps);
            var r, channel := s.records[id], s.channels[id];
            && r.since <= (if channel.isClosed then r.until else |s.history|) <= |s.history|
            && r.taken + channel.buffer
               == (if channel.isClosed then s.history[r.since..r.until] else s.history[r.since..])
  {
    RunKeepsSound(INITIAL, steps);
    assert UpToDate(Run(INITIAL, steps), id);
  }

  /** At any moment, mid-publication too, what a subscriber took is a prefix of what
      was published since it subscribed. */
  lemma TakenIsPrefix(steps: seq<Step>, id: nat)
    requires id in Run(INITIAL, steps).channels
    ensures var s := Run(INITIAL, steps);
            && id in s.records && s.records[id].since <= |s.history|
            && s.records[id].taken <= s.history[s.records[id].since..]
  {
    RunKeepsSound(INITIAL, steps);
    var s := Run(INITIAL, steps);
    assert UpToDate(s, id);
    var r := s.records[id];
    assert r.taken <= Had(s, id);
    if s.channels[id].isClosed {
      assert s.history[r.since..r.until] <= s.history[r.since..];
    }
  }

  /** A channel is in the map exactly while it is open, and no run panics: nothing is
      sent on a closed channel and none is closed twice. */
  lemma OpenIffSubscribed(steps: seq<Step>, id: nat)
    ensures var s := Run(INITIAL, steps);
            && !s.panicked
            && (id in s.subscribers <==> id in s.channels && !s.channels[id].isClosed)
  {
    RunKeepsSound(INITIAL, steps);
  }

  /** `after` keeps how much the channel buffers, where the subscription started and, once
      cancelled, where it ended. */
  ghost predicate PointsKept(before: Sys, after: Sys, id: nat) {
    && id in before.channels && id in before.records && id in after.channels && id in after.records
    && after.records[id].since == before.records[id].since
    && after.channels[id].capacity == before.channels[id].capacity
    && (before.channels[id].isClosed ==>
          after.channels[id].isClosed && after.records[id].until == before.records[id].until)
    && before.history <= after.history
  }

  lemma StepKeepsPoints(s: Sys, step: Step, id: nat)
    requires Sound(s) && id in s.channels
    ensures PointsKept(s, Apply(s, step), id)
  {
  }

  lemma PointsKeptTwice(a: Sys, b: Sys, c: Sys, id: nat)
    requires PointsKept(a, b, id) && PointsKept(b, c, id)
    ensures PointsKept(a, c, id)
  {
  }

  /** Nothing later moves the points between which a subscriber is owed the history,
      and the history itself only grows. */
  lemma {:induction false} PointsAreFixed(s: Sys, steps: seq<Step>, id: nat)
    requires Sound(s) && id in s.channels
    ensures PointsKept(s, Run(s, steps), id)
    decreases |steps|
  {
    if steps != [] {
      var before := Run(s, steps[..|steps| - 1]);
      PointsAreFixed(s, steps[..|steps| - 1], id);
      RunKeepsSound(s, steps[..|steps| - 1]);
      StepKeepsPoints(before, steps[|steps| - 1], id);
      PointsKeptTwice(s, before, Run(s, steps), id);
    }
  }

  /** A subscription starts where the history is when it is made, and never holds more
      untaken events than it asked to buffer. */
  lemma SubscribesAsAsked(s: Sys, capacity: nat, steps: seq<Step>)
    requires Sound(s) && s.publishing.Idle?
    ensures var made := Apply(s, Subscribe(capacity));
            var later := Run(made, steps);
            && s.next !in s.channels && s.next in later.channels && s.next in later.records
            && later.records[s.next].since == |s.history|
            && |later.channels[s.next].buffer| <= later.channels[s.next].capacity == capacity
  {
    hide UpToDate;
    var made := Apply(s, Subscribe(capacity));
    SubscribeKeepsSound(s, capacity);
    PointsAreFixed(made, steps, s.next);
    RunKeepsSound(made, steps);
  }
}
