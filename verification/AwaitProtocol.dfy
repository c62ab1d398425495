/** Waiters and the close-and-replace channel of the stream manager, in every
    interleaving of any number of callers.  Each locked region is one step. */
module AwaitProtocol {
  import opened Prelude
  import opened Streams

  /** A waiter before its next look under the lock, blocked on the channel it saw, or done. */
  datatype Waiter = Looking(key: string) | Parked(key: string, channel: nat)
      | Satisfied(key: string) | GaveUp(key: string)

  /** `current` is the manager's channel; `panicked` records a close of a closed channel. */
  datatype Sys = Sys(table: Table, current: nat, closedChannels: set<nat>, waiters: map<nat, Waiter>, panicked: bool)

  datatype Step =
    | Manage(op: Op)
    | Arrive(waiter: nat, key: string)
    | Look(waiter: nat)
    | Wake(waiter: nat)
    | GiveUp(waiter: nat)

  const INITIAL: Sys := Sys(map[], 0, {}, map[], false)

  /** Close the current channel and replace it by a fresh one. */
  function Signal(s: Sys): Sys {
    s.(panicked := s.panicked || s.current in s.closedChannels,
       closedChannels := s.closedChannels + {s.current}, current := s.current + 1)
  }

  /** Whether the manager signals: after every open, new segment and seal. */
  predicate Signals(t: Table, hash: seq<Byte> -> string, op: Op) {
    match op
    case OpenOp(scope, expected, labels) => Open(t, scope, expected, labels).Ok?
    case AppendOp(done, key, index, digest, payload) =>
      var r := Append(t, done, key, index, digest, payload);
      r.Ok? && r.value.1
    case FinalizeOp(_, key, _, _, _, _) => Seals(t, hash, op, key)
  }

  function Do(s: Sys, hash: seq<Byte> -> string, step: Step): Sys {
    match step
    case Manage(op) =>
      var moved := s.(table := Next(s.table, hash, op));
      if Signals(s.table, hash, op) then Signal(moved) else moved
    case Arrive(w, key) => if w in s.waiters then s else s.(waiters := s.waiters[w := Looking(key)])
    case Look(w) =>
      if w !in s.waiters || !s.waiters[w].Looking? then s
      else if Complete(s.table, s.waiters[w].key) then s.(waiters := s.waiters[w := Satisfied(s.waiters[w].key)])
      else s.(waiters := s.waiters[w := Parked(s.waiters[w].key, s.current)])
    case Wake(w) =>
      if w in s.waiters && s.waiters[w].Parked? && s.waiters[w].channel in s.closedChannels
      then s.(waiters := s.waiters[w := Looking(s.waiters[w].key)]) else s
    case GiveUp(w) =>
      if w in s.waiters && s.waiters[w].Parked?
      then s.(waiters := s.waiters[w := GaveUp(s.waiters[w].key)]) else s
  }

  function Steps(s: Sys, hash: seq<Byte> -> string, steps: seq<Step>): Sys {
    if steps == [] then s else Do(Steps(s, hash, steps[..|steps| - 1]), hash, steps[|steps| - 1])
  }

  ghost predicate Sound(s: Sys) {
    && AllWellFormed(s.table)
    && !s.panicked
    && (forall c | c in s.closedChannels :: c < s.current)
    && (forall c: nat | c < s.current :: c in s.closedChannels)
    && (forall w | w in s.waiters && s.waiters[w].Parked? ::
          && s.waiters[w].channel <= s.current
          && (s.waiters[w].channel == s.current ==> !Complete(s.table, s.waiters[w].key)))
    && (forall w | w in s.waiters && s.waiters[w].Satisfied? :: Complete(s.table, s.waiters[w].key))
  }

  lemma FinalizeCompletesNothing(t: Table, hash: seq<Byte> -> string, op: Op, key: string)
    requires AllWellFormed(t) && op.FinalizeOp?
    ensures Complete(Next(t, hash, op), key) <==> Complete(t, key)
  {
    if op.key in t {
      ExpectsSome(t, op.key);
    }
  }

  lemma OpenCompletesNothing(t: Table, hash: seq<Byte> -> string, op: Op, key: string)
    requires op.OpenOp?
    ensures Complete(Next(t, hash, op), key) <==> Complete(t, key)
  {
  }

  lemma AppendSignals(t: Table, hash: seq<Byte> -> string, op: Op, key: string)
    requires AllWellFormed(t) && op.AppendOp?
    ensures Complete(Next(t, hash, op), key) && !Complete(t, key) ==> Signals(t, hash, op)
    ensures Complete(t, key) ==> Complete(Next(t, hash, op), key)
  {
    if Complete(t, key) && op.key == key {
      FullMeansEveryIndex(t[key]);
    }
  }

  /** A step of the manager that completes a stream signals; completeness is never lost. */
  lemma CompletionSignals(t: Table, hash: seq<Byte> -> string, op: Op, key: string)
    requires AllWellFormed(t)
    ensures Complete(Next(t, hash, op), key) && !Complete(t, key) ==> Signals(t, hash, op)
    ensures Complete(t, key) ==> Complete(Next(t, hash, op), key)
  {
    hide Next, Signals, Complete, AllWellFormed;
    match op
    case OpenOp(_, _, _) => OpenCompletesNothing(t, hash, op, key);
    case AppendOp(_, _, _, _, _) => AppendSignals(t, hash, op, key);
    case FinalizeOp(_, _, _, _, _, _) => FinalizeCompletesNothing(t, hash, op, key);
  }

  lemma ManageKeepsSound(s: Sys, hash: seq<Byte> -> string, op: Op)
    requires Sound(s)
    ensures Sound(Do(s, hash, Manage(op)))
  {
    hide Next, Signals, Complete, AllWellFormed;
    NextKeepsWellFormed(s.table, hash, op);
    forall key
      ensures Complete(Next(s.table, hash, op), key) && !Complete(s.table, key) ==> Signals(s.table, hash, op)
      ensures Complete(s.table, key) ==> Complete(Next(s.table, hash, op), key)
    {
      CompletionSignals(s.table, hash, op, key);
    }
  }

  lemma DoKeepsSound(s: Sys, hash: seq<Byte> -> string, step: Step)
    requires Sound(s)
    ensures Sound(Do(s, hash, step))
  {
    match step
    case Manage(op) => ManageKeepsSound(s, hash, op);
    case _ =>
  }

  lemma {:induction false} StepsKeepSound(hash: seq<Byte> -> string, steps: seq<Step>)
    ensures Sound(Steps(INITIAL, hash, steps))
    decreases |steps|
  {
    if steps != [] {
      StepsKeepSound(hash, steps[..|steps| - 1]);
      DoKeepsSound(Steps(INITIAL, hash, steps[..|steps| - 1]), hash, steps[|steps| - 1]);
    }
  }

  /** No lost wakeup, in any interleaving: a waiter blocked on a channel that is
      still open waits for a stream that is not complete.  The manager's channel is
      open, no channel was closed twice, and a satisfied waiter's stream is complete. */
  lemma NoLostWakeup(hash: seq<Byte> -> string, steps: seq<Step>, w: nat)
    requires w in Steps(INITIAL, hash, steps).waiters
    ensures var s := Steps(INITIAL, hash, steps);
            && (s.waiters[w].Parked? ==>
                  s.waiters[w].channel in s.closedChannels || !Complete(s.table, s.waiters[w].key))
            && (s.waiters[w].Satisfied? ==> Complete(s.table, s.waiters[w].key))
            && s.current !in s.closedChannels && !s.panicked
  {
    StepsKeepSound(hash, steps);
  }

  ghost predicate ActsFor(step: Step, w: nat) {
    (step.Look? || step.Wake? || step.GiveUp? || step.Arrive?) && step.waiter == w
  }

  lemma StepKeepsComplete(s: Sys, hash: seq<Byte> -> string, step: Step, key: string)
    requires Sound(s) && Complete(s.table, key)
    ensures Complete(Do(s, hash, step).table, key)
  {
    if step.Manage? {
      CompletionSignals(s.table, hash, step.op, key);
    }
  }

  lemma {:induction false} CompletenessPersists(s: Sys, hash: seq<Byte> -> string, steps: seq<Step>, key: string)
    requires Sound(s) && Complete(s.table, key)
    ensures Sound(Steps(s, hash, steps)) && Complete(Steps(s, hash, steps).table, key)
    decreases |steps|
  {
    if steps != [] {
      var before, last := Steps(s, hash, steps[..|steps| - 1]), steps[|steps| - 1];
      CompletenessPersists(s, hash, steps[..|steps| - 1], key);
      DoKeepsSound(before, hash, last);
      StepKeepsComplete(before, hash, last, key);
    }
  }

  lemma {:induction false} OthersDoNotMoveWaiter(s: Sys, hash: seq<Byte> -> string, steps: seq<Step>, w: nat)
    requires w in s.waiters && forall i | 0 <= i < |steps| :: !ActsFor(steps[i], w)
    ensures w in Steps(s, hash, steps).waiters && Steps(s, hash, steps).waiters[w] == s.waiters[w]
    ensures s.closedChannels <= Steps(s, hash, steps).closedChannels
    decreases |steps|
  {
    if steps != [] {
      var rest := steps[..|steps| - 1];
      assert forall i | 0 <= i < |rest| :: rest[i] == steps[i];
      OthersDoNotMoveWaiter(s, hash, rest, w);
    }
  }

  lemma WakeFinds(s: Sys, hash: seq<Byte> -> string, w: nat, key: string)
    requires Sound(s) && Complete(s.table, key)
    requires w in s.waiters && s.waiters[w].key == key && (s.waiters[w].Parked? || s.waiters[w].Looking?)
    ensures Sound(Do(s, hash, Wake(w))) && Do(s, hash, Wake(w)).table == s.table
    ensures w in Do(s, hash, Wake(w)).waiters && Do(s, hash, Wake(w)).waiters[w] == Looking(key)
  {
    DoKeepsSound(s, hash, Wake(w));
  }

  lemma LookFinds(s: Sys, hash: seq<Byte> -> string, w: nat, key: string)
    requires Complete(s.table, key) && w in s.waiters && s.waiters[w] == Looking(key)
    ensures w in Do(s, hash, Look(w)).waiters && Do(s, hash, Look(w)).waiters[w] == Satisfied(key)
  {
  }

  /** Once its stream is complete a waiting caller is two of its own steps from
      returning, whatever the others do before each of them. */
  lemma CompleteWaiterReturns(s: Sys, hash: seq<Byte> -> string, w: nat, between: seq<Step>, after: seq<Step>)
    requires Sound(s) && w in s.waiters && (s.waiters[w].Parked? || s.waiters[w].Looking?)
    requires Complete(s.table, s.waiters[w].key)
    requires forall i | 0 <= i < |between| :: !ActsFor(between[i], w)
    requires forall i | 0 <= i < |after| :: !ActsFor(after[i], w)
    ensures var woken := Do(Steps(s, hash, between), hash, Wake(w));
            var done := Do(Steps(woken, hash, after), hash, Look(w));
            w in done.waiters && done.waiters[w] == Satisfied(s.waiters[w].key)
  {
    var key, early := s.waiters[w].key, Steps(s, hash, between);
    OthersDoNotMoveWaiter(s, hash, between, w);
    CompletenessPersists(s, hash, between, key);
    WakeFinds(early, hash, w, key);
    var woken := Do(early, hash, Wake(w));
    OthersDoNotMoveWaiter(woken, hash, after, w);
    CompletenessPersists(woken, hash, after, key);
    LookFinds(Steps(woken, hash, after), hash, w, key);
  }
}
