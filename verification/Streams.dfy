/** The telemetry stream manager on values: what each locked region does to the
    streams, and what holds over every run. */
module Streams {
  import opened Prelude
  import opened Keys

  type Byte = x: int | 0 <= x < 256

  datatype Error = Invalid | Conflict | ContextDone | AuditFailed

  datatype Segment = Segment(index: int, digest: string, payload: seq<Byte>)

  datatype Stream = Stream(scope: Scope, expected: int, segments: map<nat, Segment>,
                           labels: map<string, string>, isSealed: bool, version: int)

  datatype Record = Record(key: string, checksum: string, payload: seq<Byte>, sealedAt: int)

  /** The seal's audit callback, when there is one: whether it takes the record it is given. */
  type AuditCall = Option<Record -> bool>

  type Table = map<string, Stream>

  /** Payloads in index order. */
  function Assembled(segments: map<nat, Segment>, n: nat): seq<Byte> {
    if n == 0 then []
    else Assembled(segments, n - 1) + (if n - 1 in segments then segments[n - 1].payload else [])
  }

  // ---------- The locked regions ----------

  function Open(t: Table, scope: Scope, expected: int, labels: map<string, string>): Result<Table, Error> {
    var key := StreamKey(scope);
    if key.None? || expected <= 0 then Err(Invalid)
    else if key.value in t then Err(Conflict)
    else Ok(t[key.value := Stream(scope, expected, map[], labels, false, 1)])
  }

  /** The flag says whether the segment is new; a replay of the same digest is not an error. */
  function Append(t: Table, done: bool, key: string, index: int, digest: string, payload: seq<Byte>): Result<(Table,
                  bool), Error> {
    if done then Err(ContextDone)
    else if key !in t || t[key].isSealed then Err(Conflict)
    else if index < 0 || index >= t[key].expected || digest == "" || payload == [] then Err(Invalid)
    else if index in t[key].segments then
      if t[key].segments[index].digest == digest then Ok((t, false)) else Err(Conflict)
    else
      var stream := t[key];
      Ok((t[key := stream.(segments := stream.segments[index := Segment(index, digest, payload)],
                           version := stream.version + 1)], true))
  }

  function Finalize(t: Table, hash: seq<Byte> -> string, done: bool, key: string, version: int, checksum: string,
                    audit: AuditCall, now: int): Result<(Table, Record), Error>
    requires key in t ==> t[key].expected >= 0
  {
    if done then Err(ContextDone)
    else if key !in t || t[key].isSealed || t[key].version != version ||
            |t[key].segments| != t[key].expected then Err(Conflict)
    else
      var stream := t[key];
      var payload := Assembled(stream.segments, stream.expected);
      var record := Record(key, hash(payload), payload, now);
      if checksum == "" || checksum != hash(payload) then Err(Conflict)
      else if audit.Some? && !audit.value(record) then Err(AuditFailed)
      else Ok((t[key := stream.(isSealed := true, version := stream.version + 1)], record))
  }

  predicate Complete(t: Table, key: string) {
    key in t && |t[key].segments| == t[key].expected
  }

  // ---------- The stream invariant ----------

  ghost predicate WellFormed(s: Stream) {
    && s.expected > 0
    && (forall i | i in s.segments :: 0 <= i < s.expected && s.segments[i].index == i)
    && (forall i | i in s.segments :: s.segments[i].digest != "" && s.segments[i].payload != [])
    && s.version == 1 + |s.segments| + (if s.isSealed then 1 else 0)
    && (s.isSealed ==> |s.segments| == s.expected)
  }

  ghost predicate AllWellFormed(t: Table) {
    forall k | k in t :: WellFormed(t[k]) && StreamKey(t[k].scope) == Some(k)
  }

  datatype Op =
    | OpenOp(scope: Scope, expected: int, labels: map<string, string>)
    | AppendOp(done: bool, key: string, index: int, digest: string, payload: seq<Byte>)
    | FinalizeOp(done: bool, key: string, version: int, checksum: string, audit: AuditCall, now: int)

  function Next(t: Table, hash: seq<Byte> -> string, op: Op): Table {
    match op
    case OpenOp(scope, expected, labels) =>
      var r := Open(t, scope, expected, labels);
      if r.Ok? then r.value else t
    case AppendOp(done, key, index, digest, payload) =>
      var r := Append(t, done, key, index, digest, payload);
      if r.Ok? then r.value.0 else t
    case FinalizeOp(done, key, version, checksum, audit, now) =>
      if key in t && t[key].expected < 0 then t
      else
        var r := Finalize(t, hash, done, key, version, checksum, audit, now);
        if r.Ok? then r.value.0 else t
  }

  function Run(t: Table, hash: seq<Byte> -> string, ops: seq<Op>): Table {
    if ops == [] then t else Next(Run(t, hash, ops[..|ops| - 1]), hash, ops[|ops| - 1])
  }

  lemma AppendKeepsWellFormed(s: Stream, index: int, digest: string, payload: seq<Byte>)
    requires WellFormed(s) && !s.isSealed && 0 <= index < s.expected && index !in s.segments
    requires digest != "" && payload != []
    ensures WellFormed(s.(segments := s.segments[index := Segment(index, digest, payload)], version := s.version + 1))
  {
  }

  lemma OpenKeepsWellFormed(t: Table, scope: Scope, expected: int, labels: map<string, string>)
    requires AllWellFormed(t) && Open(t, scope, expected, labels).Ok?
    ensures AllWellFormed(Open(t, scope, expected, labels).value)
  {
  }

  lemma ReplaceKeepsWellFormed(t: Table, key: string, s: Stream)
    requires AllWellFormed(t) && key in t && WellFormed(s) && s.scope == t[key].scope
    ensures AllWellFormed(t[key := s])
  {
  }

  lemma ExpectsSome(t: Table, key: string)
    requires AllWellFormed(t) && key in t
    ensures t[key].expected > 0
  {
  }

  lemma AppendKeepsAllWellFormed(t: Table, done: bool, key: string, index: int, digest: string, payload: seq<Byte>)
    requires AllWellFormed(t) && Append(t, done, key, index, digest, payload).Ok?
    ensures AllWellFormed(Append(t, done, key, index, digest, payload).value.0)
  {
    var r := Append(t, done, key, index, digest, payload);
    if r.value.1 {
      AppendKeepsWellFormed(t[key], index, digest, payload);
      ReplaceKeepsWellFormed(t, key, r.value.0[key]);
    }
  }

  lemma FinalizeKeepsAllWellFormed(t: Table, hash: seq<Byte> -> string, done: bool, key: string, version: int,
                                   checksum: string, audit: AuditCall, now: int)
    requires AllWellFormed(t) && Finalize(t, hash, done, key, version, checksum, audit, now).Ok?
    ensures AllWellFormed(Finalize(t, hash, done, key, version, checksum, audit, now).value.0)
  {
    ReplaceKeepsWellFormed(t, key, t[key].(isSealed := true, version := t[key].version + 1));
  }

  lemma NextKeepsWellFormed(t: Table, hash: seq<Byte> -> string, op: Op)
    requires AllWellFormed(t)
    ensures AllWellFormed(Next(t, hash, op))
  {
    hide Open, Append, Finalize;
    match op
    case OpenOp(scope, expected, labels) =>
      if Open(t, scope, expected, labels).Ok? {
        OpenKeepsWellFormed(t, scope, expected, labels);
      }
    case AppendOp(done, key, index, digest, payload) =>
      if Append(t, done, key, index, digest, payload).Ok? {
        AppendKeepsAllWellFormed(t, done, key, index, digest, payload);
      }
    case FinalizeOp(done, key, version, checksum, audit, now) =>
      if Finalize(t, hash, done, key, version, checksum, audit, now).Ok? {
        FinalizeKeepsAllWellFormed(t, hash, done, key, version, checksum, audit, now);
      }
  }

  /** Version arithmetic, index bounds and completeness of sealed streams hold in every run. */
  lemma {:induction false} RunKeepsWellFormed(t: Table, hash: seq<Byte> -> string, ops: seq<Op>)
    requires AllWellFormed(t)
    ensures AllWellFormed(Run(t, hash, ops))
    decreases |ops|
  {
    if ops != [] {
      RunKeepsWellFormed(t, hash, ops[..|ops| - 1]);
      NextKeepsWellFormed(Run(t, hash, ops[..|ops| - 1]), hash, ops[|ops| - 1]);
    }
  }

  // ---------- Full streams ----------

  function Range(n: int): (s: set<nat>)
    ensures forall i: int :: i in s <==> 0 <= i < n
    ensures n >= 0 ==> |s| == n
    decreases n
  {
    if n <= 0 then {} else Range(n - 1) + {n - 1}
  }

  /** As many distinct indexes as slots means every slot is taken. */
  lemma FullMeansEveryIndex(s: Stream)
    requires WellFormed(s) && |s.segments| == s.expected
    ensures s.segments.Keys == Range(s.expected)
  {
    assert s.segments.Keys <= Range(s.expected);
    var missing := Range(s.expected) - s.segments.Keys;
    assert Range(s.expected) == s.segments.Keys + missing;
    assert |missing| == 0;
  }

  lemma SealedHasEveryIndex(hash: seq<Byte> -> string, ops: seq<Op>, key: string)
    requires key in Run(map[], hash, ops) && Run(map[], hash, ops)[key].isSealed
    ensures var s := Run(map[], hash, ops)[key]; s.segments.Keys == Range(s.expected)
  {
    RunKeepsWellFormed(map[], hash, ops);
    FullMeansEveryIndex(Run(map[], hash, ops)[key]);
  }

  // ---------- Seal finality ----------

  /** No run of any operations changes a sealed stream. */
  lemma {:induction false} SealedStreamIsFinal(t: Table, hash: seq<Byte> -> string, ops: seq<Op>, key: string)
    requires key in t && t[key].isSealed
    ensures key in Run(t, hash, ops) && Run(t, hash, ops)[key] == t[key]
    decreases |ops|
  {
    if ops != [] {
      SealedStreamIsFinal(t, hash, ops[..|ops| - 1], key);
    }
  }

  predicate Seals(t: Table, hash: seq<Byte> -> string, op: Op, key: string) {
    && op.FinalizeOp? && op.key == key && (key in t ==> t[key].expected >= 0)
    && Finalize(t, hash, op.done, op.key, op.version, op.checksum, op.audit, op.now).Ok?
  }

  /** Among the operations of a run, at most one seals a given stream. */
  lemma SealsAtMostOnce(t: Table, hash: seq<Byte> -> string, ops: seq<Op>, key: string, i: nat, k: nat)
    requires i < k < |ops| && Seals(Run(t, hash, ops[..i]), hash, ops[i], key)
    ensures !Seals(Run(t, hash, ops[..k]), hash, ops[k], key)
  {
    var after := Run(t, hash, ops[..i + 1]);
    assert ops[..i + 1][..i] == ops[..i];
    RunAppend(t, hash, ops[..i + 1], ops[i + 1..k]);
    assert ops[..i + 1] + ops[i + 1..k] == ops[..k];
    SealedStreamIsFinal(after, hash, ops[i + 1..k], key);
  }

  lemma {:induction false} RunAppend(t: Table, hash: seq<Byte> -> string, first: seq<Op>, second: seq<Op>)
    ensures Run(t, hash, first + second) == Run(Run(t, hash, first), hash, second)
    decreases |second|
  {
    if second == [] {
      assert first + second == first;
    } else {
      var n := |second| - 1;
      assert (first + second)[..|first + second| - 1] == first + second[..n];
      RunAppend(t, hash, first, second[..n]);
    }
  }

  // ---------- The first valid append wins ----------

  /** The index a valid append under a live context delivers to `key`. */
  function Delivered(op: Op, key: string, expected: int): set<nat> {
    if op.AppendOp? && op.key == key && !op.done && 0 <= op.index < expected && op.digest != "" && op.payload != []
    then {op.index} else {}
  }

  function ContentOf(op: Op): (string, seq<Byte>)
    requires op.AppendOp?
  {
    (op.digest, op.payload)
  }

  /** What the first valid append at index `i` carries. */
  function First(ops: seq<Op>, key: string, expected: int, i: nat): Option<(string, seq<Byte>)> {
    if ops == [] then None
    else
      var rest, last := ops[..|ops| - 1], ops[|ops| - 1];
      var before := First(rest, key, expected, i);
      if before.Some? then before else if i in Delivered(last, key, expected) then Some(ContentOf(last)) else None
  }

  /** Index `i` of `after` is what it was in `before`, or else what was delivered first. */
  ghost predicate FilledAt(before: Stream, after: Stream, first: Option<(string, seq<Byte>)>, i: nat) {
    if i in before.segments then i in after.segments && after.segments[i] == before.segments[i]
    else if first.Some? then i in after.segments && after.segments[i] == Segment(i, first.value.0, first.value.1)
    else i !in after.segments
  }

  ghost predicate SameFrame(before: Stream, after: Stream) {
    after.expected == before.expected && after.scope == before.scope && after.labels == before.labels
  }

  lemma AppendFills(t: Table, done: bool, key: string, index: int, digest: string, payload: seq<Byte>, i: nat)
    requires key in t && WellFormed(t[key])
    ensures var r := Append(t, done, key, index, digest, payload);
            var d := if r.Ok? then r.value.0 else t;
            var first := if i in Delivered(AppendOp(done, key, index, digest, payload), key, t[key].expected)
                         then Some((digest, payload)) else None;
            key in d && SameFrame(t[key], d[key]) && FilledAt(t[key], d[key], first, i)
  {
    if t[key].isSealed {
      FullMeansEveryIndex(t[key]);
    }
  }

  lemma OtherOpsFillNothing(t: Table, hash: seq<Byte> -> string, op: Op, key: string, i: nat)
    requires key in t && !(op.AppendOp? && op.key == key)
    ensures key in Next(t, hash, op) && SameFrame(t[key], Next(t, hash, op)[key])
    ensures FilledAt(t[key], Next(t, hash, op)[key], None, i)
  {
  }

  lemma DeliverOne(t: Table, hash: seq<Byte> -> string, op: Op, key: string, i: nat)
    requires key in t && WellFormed(t[key])
    ensures var first := if i in Delivered(op, key, t[key].expected) then Some(ContentOf(op)) else None;
            && key in Next(t, hash, op) && SameFrame(t[key], Next(t, hash, op)[key])
            && FilledAt(t[key], Next(t, hash, op)[key], first, i)
  {
    if op.AppendOp? && op.key == key {
      AppendFills(t, op.done, key, op.index, op.digest, op.payload, i);
    } else {
      OtherOpsFillNothing(t, hash, op, key, i);
    }
  }

  /** Whatever else a run does, seals included, every index of a stream ends up with what it
      had or else with the content of its first valid append; appends that are refused or
      replayed leave no trace. */
  lemma {:induction false} FirstAppendWins(t: Table, hash: seq<Byte> -> string, ops: seq<Op>, key: string, i: nat)
    requires AllWellFormed(t) && key in t
    ensures key in Run(t, hash, ops) && SameFrame(t[key], Run(t, hash, ops)[key])
    ensures FilledAt(t[key], Run(t, hash, ops)[key], First(ops, key, t[key].expected, i), i)
    decreases |ops|
  {
    if ops != [] {
      hide Next, WellFormed;
      var rest, last := ops[..|ops| - 1], ops[|ops| - 1];
      FirstAppendWins(t, hash, rest, key, i);
      RunKeepsWellFormed(t, hash, rest);
      DeliverOne(Run(t, hash, rest), hash, last, key, i);
    }
  }

  // ---------- When the order matters ----------

  ghost predicate SameFirsts(ops1: seq<Op>, ops2: seq<Op>, key: string, s: Stream) {
    forall i: nat | i !in s.segments :: First(ops1, key, s.expected, i) == First(ops2, key, s.expected, i)
  }

  lemma SegmentsIff(before: Stream, s1: Stream, s2: Stream, ops1: seq<Op>, ops2: seq<Op>, key: string)
    requires forall i: nat :: FilledAt(before, s1, First(ops1, key, before.expected, i), i)
    requires forall i: nat :: FilledAt(before, s2, First(ops2, key, before.expected, i), i)
    ensures s1.segments == s2.segments <==> SameFirsts(ops1, ops2, key, before)
  {
    if SameFirsts(ops1, ops2, key, before) {
      forall i: nat
        ensures (i in s1.segments <==> i in s2.segments) && (i in s1.segments ==> s1.segments[i] == s2.segments[i])
      {
        assert FilledAt(before, s1, First(ops1, key, before.expected, i), i);
        assert FilledAt(before, s2, First(ops2, key, before.expected, i), i);
      }
    } else {
      var i: nat :| i !in before.segments
                    && First(ops1, key, before.expected, i) != First(ops2, key, before.expected, i);
      assert FilledAt(before, s1, First(ops1, key, before.expected, i), i);
      assert FilledAt(before, s2, First(ops2, key, before.expected, i), i);
    }
  }

  lemma SameStream(before: Stream, s1: Stream, s2: Stream)
    requires SameFrame(before, s1) && SameFrame(before, s2) && WellFormed(s1) && WellFormed(s2)
    requires s1.segments == s2.segments && s1.isSealed == s2.isSealed
    ensures s1 == s2
  {
  }

  /** From one state two runs collect the same segments exactly when the first valid
      append is the same at every index still open; then they differ at most by a seal. */
  lemma SameSegmentsIff(t: Table, hash: seq<Byte> -> string, ops1: seq<Op>, ops2: seq<Op>, key: string)
    requires AllWellFormed(t) && key in t
    ensures key in Run(t, hash, ops1) && key in Run(t, hash, ops2)
    ensures var s1, s2 := Run(t, hash, ops1)[key], Run(t, hash, ops2)[key];
            && (s1.segments == s2.segments <==> SameFirsts(ops1, ops2, key, t[key]))
            && (s1.segments == s2.segments && s1.isSealed == s2.isSealed ==> s1 == s2)
  {
    hide Run, First, FilledAt, WellFormed, SameFrame, SameFirsts;
    FirstAppendWins(t, hash, ops1, key, 0);
    FirstAppendWins(t, hash, ops2, key, 0);
    var s1, s2 := Run(t, hash, ops1)[key], Run(t, hash, ops2)[key];
    forall i: nat
      ensures FilledAt(t[key], s1, First(ops1, key, t[key].expected, i), i)
      ensures FilledAt(t[key], s2, First(ops2, key, t[key].expected, i), i)
    {
      FirstAppendWins(t, hash, ops1, key, i);
      FirstAppendWins(t, hash, ops2, key, i);
    }
    SegmentsIff(t[key], s1, s2, ops1, ops2, key);
    RunKeepsWellFormed(t, hash, ops1);
    RunKeepsWellFormed(t, hash, ops2);
    if s1.segments == s2.segments && s1.isSealed == s2.isSealed {
      SameStream(t[key], s1, s2);
    }
  }

  /** Two valid appends of the run deliver different content to one index that `s` still has open. */
  ghost predicate Compete(ops: seq<Op>, key: string, s: Stream, m: nat, n: nat) {
    && m < |ops| && n < |ops| && Delivered(ops[m], key, s.expected) != {}
    && Delivered(ops[m], key, s.expected) == Delivered(ops[n], key, s.expected)
    && ops[m].index !in s.segments && ContentOf(ops[m]) != ContentOf(ops[n])
  }

  lemma {:induction false} FirstIsDelivered(ops: seq<Op>, key: string, expected: int, i: nat) returns (n: nat)
    requires First(ops, key, expected, i).Some?
    ensures n < |ops| && i in Delivered(ops[n], key, expected)
    ensures First(ops, key, expected, i) == Some(ContentOf(ops[n]))
    decreases |ops|
  {
    n := |ops| - 1;
    if First(ops[..n], key, expected, i).Some? {
      n := FirstIsDelivered(ops[..n], key, expected, i);
    }
  }

  lemma {:induction false} DeliveredHasFirst(ops: seq<Op>, key: string, expected: int, i: nat, n: nat)
    requires n < |ops| && i in Delivered(ops[n], key, expected)
    ensures First(ops, key, expected, i).Some?
    ensures n == 0 ==> First(ops, key, expected, i) == Some(ContentOf(ops[0]))
    decreases |ops|
  {
    if |ops| > 1 && n < |ops| - 1 {
      DeliveredHasFirst(ops[..|ops| - 1], key, expected, i, n);
    }
  }

  /** Some order of the same operations collects other segments. */
  ghost predicate OrderMatters(t: Table, hash: seq<Byte> -> string, ops: seq<Op>, key: string)
    requires key in Run(t, hash, ops)
  {
    exists other :: && multiset(other) == multiset(ops) && key in Run(t, hash, other)
                    && Run(t, hash, other)[key].segments != Run(t, hash, ops)[key].segments
  }

  /** With operation `n` in front. */
  function ToFront(ops: seq<Op>, n: nat): seq<Op>
    requires n < |ops|
  {
    [ops[n]] + ops[..n] + ops[n + 1..]
  }

  lemma ToFrontReorders(ops: seq<Op>, n: nat)
    requires n < |ops|
    ensures multiset(ToFront(ops, n)) == multiset(ops)
  {
    assert ops == ops[..n] + [ops[n]] + ops[n + 1..];
  }

  lemma UncontestedOrdersAgree(ops: seq<Op>, other: seq<Op>, key: string, s: Stream)
    requires multiset(other) == multiset(ops) && forall m: nat, n: nat :: !Compete(ops, key, s, m, n)
    ensures SameFirsts(ops, other, key, s)
  {
    forall i: nat | i !in s.segments
      ensures First(ops, key, s.expected, i) == First(other, key, s.expected, i)
    {
      if First(ops, key, s.expected, i).Some? {
        var m := FirstIsDelivered(ops, key, s.expected, i);
        assert ops[m] in multiset(other);
        var k :| 0 <= k < |other| && other[k] == ops[m];
        DeliveredHasFirst(other, key, s.expected, i, k);
      }
      if First(other, key, s.expected, i).Some? {
        var k := FirstIsDelivered(other, key, s.expected, i);
        assert other[k] in multiset(ops);
        var n :| 0 <= n < |ops| && ops[n] == other[k];
        DeliveredHasFirst(ops, key, s.expected, i, n);
        var m := FirstIsDelivered(ops, key, s.expected, i);
        assert !Compete(ops, key, s, m, n);
      }
    }
  }

  lemma CompetingOrdersDiffer(ops: seq<Op>, key: string, s: Stream, m: nat, n: nat)
    requires Compete(ops, key, s, m, n)
    ensures !SameFirsts(ToFront(ops, m), ToFront(ops, n), key, s)
  {
    DeliveredHasFirst(ToFront(ops, m), key, s.expected, ops[m].index, 0);
    DeliveredHasFirst(ToFront(ops, n), key, s.expected, ops[m].index, 0);
  }

  /** Exactly when the order of arrival matters: when two valid appends of the run differ
      at one index that was still open. */
  lemma OrderMattersIff(t: Table, hash: seq<Byte> -> string, ops: seq<Op>, key: string)
    requires AllWellFormed(t) && key in t
    ensures key in Run(t, hash, ops)
    ensures OrderMatters(t, hash, ops, key) <==> exists m: nat, n: nat :: Compete(ops, key, t[key], m, n)
  {
    SameSegmentsIff(t, hash, ops, ops, key);
    if m: nat, n: nat :| Compete(ops, key, t[key], m, n) {
      CompetingOrdersDiffer(ops, key, t[key], m, n);
      ToFrontReorders(ops, m);
      ToFrontReorders(ops, n);
      SameSegmentsIff(t, hash, ToFront(ops, m), ToFront(ops, n), key);
    } else {
      forall other | multiset(other) == multiset(ops)
        ensures key in Run(t, hash, other) && Run(t, hash, other)[key].segments == Run(t, hash, ops)[key].segments
      {
        UncontestedOrdersAgree(ops, other, key, t[key]);
        SameSegmentsIff(t, hash, ops, other, key);
      }
    }
  }

  /** Every valid append to `key` carries the content fixed for its index; refused ones may carry anything. */
  ghost predicate Agrees(ops: seq<Op>, key: string, expected: int, content: int -> (string, seq<Byte>)) {
    forall n | 0 <= n < |ops| && Delivered(ops[n], key, expected) != {} :: ContentOf(ops[n]) == content(ops[n].index)
  }

  function Covered(ops: seq<Op>, key: string, expected: int): set<nat> {
    if ops == [] then {} else Covered(ops[..|ops| - 1], key, expected) + Delivered(ops[|ops| - 1], key, expected)
  }

  lemma {:induction false} AgreedFirst(ops: seq<Op>, key: string, expected: int, content: int -> (string, seq<Byte>),
                                       i: nat)
    requires Agrees(ops, key, expected, content)
    ensures First(ops, key, expected, i) == if i in Covered(ops, key, expected) then Some(content(i)) else None
    decreases |ops|
  {
    if ops != [] {
      var rest := ops[..|ops| - 1];
      assert Agrees(rest, key, expected, content) by {
        assert forall n | 0 <= n < |rest| :: rest[n] == ops[n];
      }
      AgreedFirst(rest, key, expected, content, i);
    }
  }

  /** Two runs from one state whose valid appends deliver the same indexes with the same
      content, in any order, with any replays and any other operations between, collect the
      same segments; versions differ at most by a seal. */
  lemma ArrivalOrderIsIrrelevant(t: Table, hash: seq<Byte> -> string, ops1: seq<Op>, ops2: seq<Op>, key: string,
                                 content: int -> (string, seq<Byte>))
    requires AllWellFormed(t) && key in t
    requires Agrees(ops1, key, t[key].expected, content) && Agrees(ops2, key, t[key].expected, content)
    requires Covered(ops1, key, t[key].expected) == Covered(ops2, key, t[key].expected)
    ensures key in Run(t, hash, ops1) && key in Run(t, hash, ops2)
    ensures var s1, s2 := Run(t, hash, ops1)[key], Run(t, hash, ops2)[key];
            && s1.segments == s2.segments
            && s1.version - (if s1.isSealed then 1 else 0) == s2.version - (if s2.isSealed then 1 else 0)
            && (s1.isSealed == s2.isSealed ==> s1 == s2)
  {
    forall i: nat
      ensures First(ops1, key, t[key].expected, i) == First(ops2, key, t[key].expected, i)
    {
      AgreedFirst(ops1, key, t[key].expected, content, i);
      AgreedFirst(ops2, key, t[key].expected, content, i);
    }
    SameSegmentsIff(t, hash, ops1, ops2, key);
    RunKeepsWellFormed(t, hash, ops1);
    RunKeepsWellFormed(t, hash, ops2);
  }

  // ---------- What a seal returns ----------

  /** The payloads of the first valid appends at 0 .. n-1, one after the other. */
  function FirstPayloads(ops: seq<Op>, key: string, expected: int, n: nat): seq<Byte> {
    if n == 0 then []
    else
      var first := First(ops, key, expected, n - 1);
      FirstPayloads(ops, key, expected, n - 1) + (if first.Some? then first.value.1 else [])
  }

  lemma {:induction false} AssembledIsFirsts(s: Stream, ops: seq<Op>, key: string, n: nat)
    requires forall i | 0 <= i < n :: First(ops, key, s.expected, i).Some?
                                      && i in s.segments
                                      && s.segments[i].payload == First(ops, key, s.expected, i).value.1
    ensures Assembled(s.segments, n) == FirstPayloads(ops, key, s.expected, n)
  {
    if n > 0 {
      AssembledIsFirsts(s, ops, key, n - 1);
    }
  }

  /** After an open and a run, every index holds the content of its first valid append. */
  lemma OpenedFirsts(t: Table, hash: seq<Byte> -> string, scope: Scope, expected: int, labels: map<string, string>,
                     ops: seq<Op>, key: string, i: nat)
    requires AllWellFormed(t) && Open(t, scope, expected, labels).Ok? && StreamKey(scope) == Some(key)
    ensures var start := Open(t, scope, expected, labels).value;
            && key in start && start[key] == Stream(scope, expected, map[], labels, false, 1)
            && key in Run(start, hash, ops) && SameFrame(start[key], Run(start, hash, ops)[key])
            && var s := Run(start, hash, ops)[key];
               && WellFormed(s) && FilledAt(start[key], s, First(ops, key, expected, i), i)
  {
    var start := Open(t, scope, expected, labels).value;
    OpenKeepsWellFormed(t, scope, expected, labels);
    RunKeepsWellFormed(start, hash, ops);
    FirstAppendWins(start, hash, ops, key, i);
  }

  lemma EveryIndexMeansFull(s: Stream)
    requires WellFormed(s) && forall i: nat | i < s.expected :: i in s.segments
    ensures |s.segments| == s.expected
  {
    assert s.segments.Keys == Range(s.expected);
  }

  /** Every index had a valid append. */
  ghost predicate AllDelivered(ops: seq<Op>, key: string, expected: int) {
    forall i: nat | i < expected :: First(ops, key, expected, i).Some?
  }

  lemma WholeIffDelivered(opening: Stream, s: Stream, ops: seq<Op>, key: string)
    requires opening.segments == map[] && SameFrame(opening, s) && WellFormed(s)
    requires forall i: nat :: FilledAt(opening, s, First(ops, key, s.expected, i), i)
    ensures |s.segments| == s.expected <==> AllDelivered(ops, key, s.expected)
    ensures |s.segments| == s.expected ==> Assembled(s.segments, s.expected) == FirstPayloads(ops, key, s.expected,
              s.expected)
  {
    if |s.segments| == s.expected {
      FullMeansEveryIndex(s);
      forall i: nat | i < s.expected
        ensures First(ops, key, s.expected, i).Some? && i in s.segments
        ensures s.segments[i].payload == First(ops, key, s.expected, i).value.1
      {
        assert FilledAt(opening, s, First(ops, key, s.expected, i), i);
      }
      AssembledIsFirsts(s, ops, key, s.expected);
    } else if AllDelivered(ops, key, s.expected) {
      forall i: nat | i < s.expected
        ensures i in s.segments
      {
        assert FilledAt(opening, s, First(ops, key, s.expected, i), i);
      }
      EveryIndexMeansFull(s);
    }
  }

  /** Some operation of the run sealed the stream. */
  ghost predicate SealedBy(t: Table, hash: seq<Byte> -> string, ops: seq<Op>, key: string) {
    && ops != []
    && var rest, last := ops[..|ops| - 1], ops[|ops| - 1];
       SealedBy(t, hash, rest, key) || Seals(Run(t, hash, rest), hash, last, key)
  }

  lemma AppendUnseals(t: Table, done: bool, key: string, index: int, digest: string, payload: seq<Byte>, k: string)
    requires k in t && Append(t, done, key, index, digest, payload).Ok?
    ensures var d := Append(t, done, key, index, digest, payload).value.0; k in d && d[k].isSealed == t[k].isSealed
  {
  }

  lemma NextSealed(t: Table, hash: seq<Byte> -> string, op: Op, key: string)
    requires AllWellFormed(t) && key in t
    ensures key in Next(t, hash, op)
    ensures Next(t, hash, op)[key].isSealed <==> t[key].isSealed || Seals(t, hash, op, key)
  {
    match op
    case OpenOp(_, _, _) =>
    case AppendOp(done, k, index, digest, payload) =>
      hide Append, AllWellFormed;
      if Append(t, done, k, index, digest, payload).Ok? {
        AppendUnseals(t, done, k, index, digest, payload, key);
      }
    case FinalizeOp(_, k, _, _, _, _) =>
      ExpectsSome(t, key);
      hide AllWellFormed;
  }

  lemma {:induction false} SealedIffBy(t: Table, hash: seq<Byte> -> string, ops: seq<Op>, key: string)
    requires AllWellFormed(t) && key in t && !t[key].isSealed
    ensures key in Run(t, hash, ops) && (Run(t, hash, ops)[key].isSealed <==> SealedBy(t, hash, ops, key))
    decreases |ops|
  {
    if ops != [] {
      hide Next, Seals, AllWellFormed;
      var rest, last := ops[..|ops| - 1], ops[|ops| - 1];
      SealedIffBy(t, hash, rest, key);
      RunKeepsWellFormed(t, hash, rest);
      NextSealed(Run(t, hash, rest), hash, last, key);
    }
  }

  /** What a seal of this payload records. */
  function RecordOf(op: Op, hash: seq<Byte> -> string, payload: seq<Byte>): Record
    requires op.FinalizeOp?
  {
    Record(op.key, hash(payload), payload, op.now)
  }

  lemma FinalizeIff(t: Table, hash: seq<Byte> -> string, op: Op)
    requires op.FinalizeOp? && op.key in t && WellFormed(t[op.key])
    ensures Seals(t, hash, op, op.key)
            <==> var s := t[op.key];
                 var payload := Assembled(s.segments, s.expected);
                 && !op.done && !s.isSealed && op.version == s.expected + 1 && |s.segments| == s.expected
                 && op.checksum != "" && op.checksum == hash(payload)
                 && (op.audit.None? || op.audit.value(RecordOf(op, hash, payload)))
    ensures Seals(t, hash, op, op.key) ==>
              var r := Finalize(t, hash, op.done, op.key, op.version, op.checksum, op.audit, op.now);
              r.Ok? && r.value.1 == RecordOf(op, hash, Assembled(t[op.key].segments, t[op.key].expected))
    ensures !Seals(t, hash, op, op.key) ==>
              Finalize(t, hash, op.done, op.key, op.version, op.checksum, op.audit, op.now)
              == Err(if op.done then ContextDone
                     else if Seals(t, hash, op.(audit := None), op.key) then AuditFailed else Conflict)
  {
  }

  /** After an open and any run, a seal succeeds exactly under a live context when every index
      had a valid append, nothing sealed the stream before, the version is the one of a stream
      with all its segments, the checksum is the digest of the first payloads and the audit
      takes the record; that record is what it returns.  A failed one tells a done context and
      a failed audit from everything else. */
  lemma SealSucceedsIff(t: Table, hash: seq<Byte> -> string, scope: Scope, expected: int, labels: map<string, string>,
                        ops: seq<Op>, op: Op)
    requires AllWellFormed(t) && Open(t, scope, expected, labels).Ok?
    requires op.FinalizeOp? && StreamKey(scope) == Some(op.key)
    ensures var start := Open(t, scope, expected, labels).value;
            var at := Run(start, hash, ops);
            var payload := FirstPayloads(ops, op.key, expected, expected);
            && op.key in at && at[op.key].expected == expected
            && (Seals(at, hash, op, op.key)
                <==> && !op.done && !SealedBy(start, hash, ops, op.key) && op.version == expected + 1
                     && AllDelivered(ops, op.key, expected)
                     && op.checksum != "" && op.checksum == hash(payload)
                     && (op.audit.None? || op.audit.value(RecordOf(op, hash, payload))))
            && var r := Finalize(at, hash, op.done, op.key, op.version, op.checksum, op.audit, op.now);
               if Seals(at, hash, op, op.key) then r.Ok? && r.value.1 == RecordOf(op, hash, payload)
               else r == Err(if op.done then ContextDone
                             else if Seals(at, hash, op.(audit := None), op.key) then AuditFailed else Conflict)
  {
    hide Seals, Finalize, Run, SealedBy, First, FilledAt, WellFormed, SameFrame, AllWellFormed;
    var start := Open(t, scope, expected, labels).value;
    var at := Run(start, hash, ops);
    OpenKeepsWellFormed(t, scope, expected, labels);
    OpenedFirsts(t, hash, scope, expected, labels, ops, op.key, 0);
    SealedIffBy(start, hash, ops, op.key);
    var s := at[op.key];
    SameExpected(start[op.key], s);
    forall i: nat
      ensures FilledAt(start[op.key], s, First(ops, op.key, expected, i), i)
    {
      OpenedFirsts(t, hash, scope, expected, labels, ops, op.key, i);
    }
    WholeIffDelivered(start[op.key], s, ops, op.key);
    FinalizeIff(at, hash, op);
  }

  lemma SameExpected(a: Stream, b: Stream)
    requires SameFrame(a, b)
    ensures b.expected == a.expected
  {
  }

  /** What an append is told, by the history of its stream: the first thing that is wrong, or
      whether the segment is new. */
  ghost function Answer(start: Table, hash: seq<Byte> -> string, ops: seq<Op>, expected: int, op: Op): Result<bool,
                        Error>
    requires op.AppendOp?
  {
    if op.done then Err(ContextDone)
    else if SealedBy(start, hash, ops, op.key) then Err(Conflict)
    else if op.index < 0 || op.index >= expected || op.digest == "" || op.payload == [] then Err(Invalid)
    else
      var first := First(ops, op.key, expected, op.index);
      if first.None? then Ok(true) else if first.value.0 == op.digest then Ok(false) else Err(Conflict)
  }

  /** After an open and any run an append is answered so; a new segment is stored as it came,
      anything else leaves the streams alone. */
  lemma AppendAnswers(t: Table, hash: seq<Byte> -> string, scope: Scope, expected: int, labels: map<string, string>,
                      ops: seq<Op>, op: Op)
    requires AllWellFormed(t) && Open(t, scope, expected, labels).Ok?
    requires op.AppendOp? && StreamKey(scope) == Some(op.key)
    ensures var start := Open(t, scope, expected, labels).value;
            var at := Run(start, hash, ops);
            var answer := Answer(start, hash, ops, expected, op);
            var r := Append(at, op.done, op.key, op.index, op.digest, op.payload);
            && op.key in at
            && (if answer.Err? then r == Err(answer.error)
                else if !answer.value then r == Ok((at, false))
                else && r.Ok? && r.value.1
                     && r.value.0 == at[op.key := at[op.key].(
                          segments := at[op.key].segments[op.index := Segment(op.index, op.digest, op.payload)],
                          version := at[op.key].version + 1)])
  {
    hide Run, SealedBy, First, WellFormed, AllWellFormed, SameFrame;
    var start := Open(t, scope, expected, labels).value;
    OpenKeepsWellFormed(t, scope, expected, labels);
    OpenedFirsts(t, hash, scope, expected, labels, ops, op.key, if op.index < 0 then 0 else op.index);
    SealedIffBy(start, hash, ops, op.key);
    SameExpected(start[op.key], Run(start, hash, ops)[op.key]);
  }

  /** Once opened, a key is never opened again, whatever runs in between. */
  lemma OpensOnce(t: Table, hash: seq<Byte> -> string, scope: Scope, expected: int, labels: map<string, string>,
                  ops: seq<Op>, again: Scope, more: int, others: map<string, string>)
    requires AllWellFormed(t) && Open(t, scope, expected, labels).Ok? && StreamKey(again) == StreamKey(scope)
    ensures Open(Run(Open(t, scope, expected, labels).value, hash, ops), again, more, others)
         == Err(if more <= 0 then Invalid else Conflict)
  {
    hide Run;
    OpenKeepsWellFormed(t, scope, expected, labels);
    FirstAppendWins(Open(t, scope, expected, labels).value, hash, ops, StreamKey(scope).value, 0);
  }

  /** Whenever a seal succeeds, in any run after an open, every index had a valid append, the
      version it expects counts them all, and the record is the payloads of the first ones,
      from index 0 to the last. */
  lemma SealReturnsWholePayload(t: Table, hash: seq<Byte> -> string, scope: Scope, expected: int,
                                labels: map<string, string>, ops: seq<Op>, op: Op)
    requires AllWellFormed(t) && Open(t, scope, expected, labels).Ok?
    requires op.FinalizeOp? && StreamKey(scope) == Some(op.key)
    requires Seals(Run(Open(t, scope, expected, labels).value, hash, ops), hash, op, op.key)
    ensures var at := Run(Open(t, scope, expected, labels).value, hash, ops);
            var record := Finalize(at, hash, op.done, op.key, op.version, op.checksum, op.audit, op.now).value.1;
            && record.payload == FirstPayloads(ops, op.key, expected, expected)
            && record.checksum == hash(record.payload) == op.checksum
            && record.key == op.key && record.sealedAt == op.now && op.version == expected + 1
            && AllDelivered(ops, op.key, expected)
  {
    hide Seals, Finalize, Run, Open;
    SealSucceedsIff(t, hash, scope, expected, labels, ops, op);
  }

  /** A seal under a version seen earlier succeeds only on the very stream that was seen: no
      segment came in between. */
  lemma SealsWhatWasSeen(t: Table, hash: seq<Byte> -> string, ops: seq<Op>, op: Op)
    requires AllWellFormed(t) && op.FinalizeOp? && op.key in t && op.version == t[op.key].version
    requires Seals(Run(t, hash, ops), hash, op, op.key)
    ensures op.key in Run(t, hash, ops) && Run(t, hash, ops)[op.key] == t[op.key]
  {
    hide Seals, Finalize, Run, First;
    FirstAppendWins(t, hash, ops, op.key, 0);
    RunKeepsWellFormed(t, hash, ops);
    var seen, s := t[op.key], Run(t, hash, ops)[op.key];
    FinalizeIff(Run(t, hash, ops), hash, op);
    forall i: nat | i in seen.segments
      ensures i in s.segments && s.segments[i] == seen.segments[i]
    {
      FirstAppendWins(t, hash, ops, op.key, i);
    }
    SealedGrows(t, hash, ops, op.key);
    SameSegments(seen, s);
  }

  lemma SameSegments(seen: Stream, s: Stream)
    requires WellFormed(seen) && WellFormed(s) && SameFrame(seen, s) && !seen.isSealed && !s.isSealed
    requires seen.version == s.version
    requires forall i: nat | i in seen.segments :: i in s.segments && s.segments[i] == seen.segments[i]
    ensures s == seen
  {
    assert seen.segments.Keys <= s.segments.Keys;
    assert s.segments.Keys == seen.segments.Keys + (s.segments.Keys - seen.segments.Keys);
    assert |s.segments.Keys - seen.segments.Keys| == 0;
    assert s.segments == seen.segments;
  }

  lemma SealedGrows(t: Table, hash: seq<Byte> -> string, ops: seq<Op>, key: string)
    requires AllWellFormed(t) && key in t
    ensures key in Run(t, hash, ops) && (t[key].isSealed ==> Run(t, hash, ops)[key].isSealed)
  {
    if t[key].isSealed {
      SealedStreamIsFinal(t, hash, ops, key);
    } else {
      SealedIffBy(t, hash, ops, key);
    }
  }
}
