/** The stream manager as it runs: streams whose segment maps and payloads live on
    the heap, a channel closed and replaced on every change, and snapshots that
    share nothing with what is stored. */
module StreamManager {
  import opened Prelude
  import opened Keys
  import opened Streams
  import opened Ordering

  class Channel {
    var isClosed: bool

    constructor ()
      ensures !isClosed
    {
      isClosed := false;
    }
  }

  datatype Held = Held(index: int, digest: string, payload: array<Byte>)

  class SegmentMap {
    var entries: map<nat, Held>

    constructor ()
      ensures entries == map[]
    {
      entries := map[];
    }
  }

  class LabelMap {
    var entries: map<string, string>

    constructor ()
      ensures entries == map[]
    {
      entries := map[];
    }
  }

  /** A stream as Go copies it: the record by value, its maps and payloads by reference. */
  datatype Handle = Handle(scope: Scope, expected: int, segments: SegmentMap, labels: LabelMap,
                             isSealed: bool, version: int)

  datatype HeldRecord = HeldRecord(key: string, checksum: string, payload: array<Byte>, sealedAt: int)

  ghost function Payloads(m: SegmentMap): set<array<Byte>>
    reads m
  {
    set i | i in m.entries :: m.entries[i].payload
  }

  /** The handle holds exactly the stream. */
  ghost predicate Shows(h: Handle, s: Stream)
    reads h.segments, h.labels, Payloads(h.segments)
  {
    && h.scope == s.scope && h.expected == s.expected && h.isSealed == s.isSealed && h.version == s.version
    && h.labels.entries == s.labels
    && SegmentsShow(h.segments, s.segments)
  }

  ghost predicate SegmentsShow(m: SegmentMap, segments: map<nat, Segment>)
    reads m, Payloads(m)
  {
    && m.entries.Keys == segments.Keys
    && forall i | i in m.entries :: HeldShows(m.entries[i], segments[i])
  }

  ghost predicate HeldShows(held: Held, segment: Segment)
    reads held.payload
  {
    held.index == segment.index && held.digest == segment.digest && held.payload[..] == segment.payload
  }

  /** Everything a handle reaches. */
  ghost function Reach(h: Handle): set<object>
    reads h.segments
  {
    {h.segments, h.labels} + Payloads(h.segments)
  }

  method CopyBytes(bytes: array<Byte>) returns (copy: array<Byte>)
    ensures fresh(copy) && copy[..] == bytes[..]
  {
    copy := new Byte[bytes.Length];
    for i := 0 to bytes.Length
      invariant copy[..i] == bytes[..i]
    {
      copy[i] := bytes[i];
    }
  }

  /** Puts one entry into a segment map, in place. */
  method PutIn(m: SegmentMap, ghost value: map<nat, Segment>, index: nat, held: Held, ghost segment: Segment)
    requires SegmentsShow(m, value) && HeldShows(held, segment)
    modifies m
    ensures SegmentsShow(m, value[index := segment]) && m.entries == old(m.entries)[index := held]
  {
    m.entries := m.entries[index := held];
  }

  /** A segment with its payload copied. */
  method CopyHeld(held: Held, ghost segment: Segment) returns (copy: Held)
    requires HeldShows(held, segment)
    ensures HeldShows(copy, segment) && fresh(copy.payload)
  {
    var bytes := CopyBytes(held.payload);
    copy := held.(payload := bytes);
  }

  ghost predicate EntriesShow(entries: map<nat, Held>, segments: map<nat, Segment>)
    reads set i | i in entries :: entries[i].payload
  {
    entries.Keys == segments.Keys && forall i | i in entries :: HeldShows(entries[i], segments[i])
  }

  method CopyEntries(entries: map<nat, Held>, ghost value: map<nat, Segment>) returns (copies: map<nat, Held>)
    requires EntriesShow(entries, value)
    ensures EntriesShow(copies, value) && forall i | i in copies :: fresh(copies[i].payload)
  {
    copies := map[];
    var left := entries.Keys;
    while left != {}
      invariant left <= entries.Keys && copies.Keys == entries.Keys - left
      invariant forall i | i in copies :: fresh(copies[i].payload) && HeldShows(copies[i], value[i])
      decreases |left|
    {
      var i :| i in left;
      var copy := CopyHeld(entries[i], value[i]);
      copies, left := copies[i := copy], left - {i};
    }
  }

  method CopySegments(m: SegmentMap, ghost value: map<nat, Segment>) returns (copy: SegmentMap)
    requires SegmentsShow(m, value)
    ensures fresh(copy) && fresh(Payloads(copy)) && SegmentsShow(copy, value)
  {
    var entries := CopyEntries(m.entries, value);
    copy := new SegmentMap();
    copy.entries := entries;
  }

  method CopyLabels(m: LabelMap) returns (copy: LabelMap)
    ensures fresh(copy) && copy.entries == m.entries
  {
    copy := new LabelMap();
    var left := m.entries.Keys;
    while left != {}
      invariant fresh(copy) && left <= m.entries.Keys
      invariant copy.entries == map k | k in m.entries && k !in left :: m.entries[k]
      decreases |left|
    {
      var k :| k in left;
      copy.entries := copy.entries[k := m.entries[k]];
      left := left - {k};
    }
  }

  /** A clone holds the same stream and shares nothing with anything allocated before. */
  method CloneStream(h: Handle, ghost value: Stream) returns (clone: Handle)
    requires Shows(h, value)
    ensures fresh(Reach(clone)) && Shows(clone, value)
  {
    var segments := CopySegments(h.segments, value.segments);
    var labels := CopyLabels(h.labels);
    clone := h.(segments := segments, labels := labels);
  }

  // ---------- Assembling the payload ----------

  function Concatenated(segments: map<nat, Segment>, indexes: seq<nat>): seq<Byte> {
    if indexes == [] then []
    else
      var last := indexes[|indexes| - 1];
      Concatenated(segments, indexes[..|indexes| - 1]) + (if last in segments then segments[last].payload else [])
  }

  ghost predicate Increasing(s: seq<nat>) {
    forall i, k | 0 <= i < k < |s| :: s[i] < s[k]
  }

  ghost predicate Below(s: seq<nat>, n: nat) {
    forall i | 0 <= i < |s| :: s[i] < n
  }

  /** The indexes held below `n`, in order. */
  ghost predicate Lists(s: seq<nat>, segments: map<nat, Segment>, n: nat) {
    && Increasing(s) && Below(s, n)
    && (forall i | 0 <= i < |s| :: s[i] in segments)
    && (forall i: nat | i in segments && i < n :: i in s)
  }

  lemma NoneExceedsLast(s: seq<nat>, at: nat)
    requires Increasing(s) && at < |s|
    ensures s[at] <= s[|s| - 1]
  {
  }

  lemma ListsShorter(s: seq<nat>, segments: map<nat, Segment>, n: nat)
    requires Lists(s, segments, n) && n > 0 && n - 1 in segments
    ensures s != [] && s[|s| - 1] == n - 1 && Lists(s[..|s| - 1], segments, n - 1)
  {
    assert n - 1 in s;
    var at :| 0 <= at < |s| && s[at] == n - 1;
    NoneExceedsLast(s, at);
    forall i: nat | i in segments && i < n - 1
      ensures i in s[..|s| - 1]
    {
      assert i in s;
      assert s == s[..|s| - 1] + [n - 1];
    }
  }

  lemma ListsSkip(s: seq<nat>, segments: map<nat, Segment>, n: nat)
    requires Lists(s, segments, n) && n > 0 && n - 1 !in segments
    ensures Lists(s, segments, n - 1)
  {
  }

  /** Joining the payloads at the sorted indexes below `n` is the reference concatenation. */
  lemma {:induction false} ConcatenatedIsAssembled(segments: map<nat, Segment>, indexes: seq<nat>, n: nat)
    requires Lists(indexes, segments, n)
    ensures Concatenated(segments, indexes) == Assembled(segments, n)
    decreases n
  {
    if n > 0 {
      if n - 1 in segments {
        ListsShorter(indexes, segments, n);
        ConcatenatedIsAssembled(segments, indexes[..|indexes| - 1], n - 1);
      } else {
        ListsSkip(indexes, segments, n);
        ConcatenatedIsAssembled(segments, indexes, n - 1);
      }
    }
  }

  /** A sorted listing of all the keys repeats and misses none. */
  lemma SortedKeysList(s: seq<nat>, segments: map<nat, Segment>, n: nat)
    requires multiset(s) == multiset(segments.Keys) && forall i, k | 0 <= i < k < |s| :: s[i] <= s[k]
    requires forall i | i in segments :: i < n
    ensures Lists(s, segments, n)
  {
    forall i, k | 0 <= i < k < |s|
      ensures s[i] != s[k]
    {
      RepeatCountsTwice(s, i, k);
    }
    forall i | 0 <= i < |s|
      ensures s[i] in segments
    {
      assert s[i] in multiset(s);
    }
    forall i: nat | i in segments
      ensures i in s
    {
      assert i in multiset(segments.Keys);
    }
  }

  method SortIndexes(s: seq<nat>) returns (r: seq<nat>)
    ensures multiset(r) == multiset(s) && forall i, k | 0 <= i < k < |r| :: r[i] <= r[k]
  {
    r := StableSort(s, (a, b) => a < b);
  }

  /** The keys of a map, in whatever order it gives them. */
  method Listed(keys: set<nat>) returns (indexes: seq<nat>)
    ensures multiset(indexes) == multiset(keys)
  {
    indexes := [];
    var left := keys;
    while left != {}
      invariant left <= keys && multiset(indexes) + multiset(left) == multiset(keys)
      decreases |left|
    {
      var i :| i in left;
      indexes := indexes + [i];
      left := left - {i};
    }
  }

  /** Whatever order the map gives its indexes in, the payloads come out in index order. */
  method Assemble(h: Handle, ghost segments: map<nat, Segment>, ghost n: nat) returns (output: seq<Byte>)
    requires SegmentsShow(h.segments, segments) && forall i | i in segments :: i < n
    ensures output == Assembled(segments, n)
  {
    var indexes := Listed(h.segments.entries.Keys);
    indexes := SortIndexes(indexes);
    SortedKeysList(indexes, segments, n);
    output := [];
    for k := 0 to |indexes|
      invariant output == Concatenated(segments, indexes[..k])
    {
      assert HeldShows(h.segments.entries[indexes[k]], segments[indexes[k]]);
      output := output + h.segments.entries[indexes[k]].payload[..];
      assert indexes[..k + 1][..k] == indexes[..k];
    }
    assert indexes[..|indexes|] == indexes;
    ConcatenatedIsAssembled(segments, indexes, n);
  }

  method NewBytes(s: seq<Byte>) returns (bytes: array<Byte>)
    ensures fresh(bytes) && bytes[..] == s
  {
    bytes := new Byte[|s|];
    for i := 0 to |s|
      invariant bytes[..i] == s[..i]
    {
      bytes[i] := s[i];
    }
  }

  // ---------- The stored table ----------

  ghost predicate Owned(h: Handle, repr: set<object>)
    reads repr
  {
    && h.segments in repr && h.labels in repr
    && forall i | i in h.segments.entries :: h.segments.entries[i].payload in repr
  }

  /** The handles reach only into `repr`, share no segment map, and hold the streams of `t`. */
  ghost predicate Stores(streams: map<string, Handle>, repr: set<object>, t: Table)
    reads repr
  {
    && streams.Keys == t.Keys
    && (forall k | k in streams :: Owned(streams[k], repr) && Shows(streams[k], t[k]))
    && (forall k, l | k in streams && l in streams && streams[k].segments == streams[l].segments :: k == l)
  }

  lemma StoresOne(streams: map<string, Handle>, repr: set<object>, t: Table, key: string)
    requires Stores(streams, repr, t)
    ensures key in streams <==> key in t
    ensures key in t ==> Owned(streams[key], repr) && Shows(streams[key], t[key])
  {
  }

  lemma RaisedStores(streams: map<string, Handle>, repr: set<object>, t: Table, key: string, h: Handle, value: Stream)
    requires Stores(streams, repr, t) && key in streams
    requires h == streams[key].(isSealed := h.isSealed, version := h.version)
    requires value == t[key].(isSealed := h.isSealed, version := h.version)
    ensures Stores(streams[key := h], repr, t[key := value])
  {
    assert Shows(streams[key], t[key]) && SegmentsShow(h.segments, value.segments);
  }

  lemma AddedStores(streams: map<string, Handle>, repr: set<object>, t: Table, key: string, h: Handle, value: Stream)
    requires Stores(streams, repr, t) && key !in streams && Shows(h, value) && Reach(h) !! repr
    ensures Stores(streams[key := h], repr + Reach(h), t[key := value])
  {
  }

  lemma InsertedStores(streams: map<string, Handle>, repr: set<object>, t: Table, key: string, bytes: array<Byte>,
                       now: Stream)
    requires streams.Keys == t.Keys && key in streams && Shows(streams[key], now) && Owned(streams[key], repr + {bytes})
    requires forall k | k in streams && k != key :: Owned(streams[k], repr) && Shows(streams[k], t[k])
    requires forall k, l | k in streams && l in streams && streams[k].segments == streams[l].segments :: k == l
    ensures Stores(streams, repr + {bytes}, t[key := now])
  {
  }

  method PutInStream(streams: map<string, Handle>, ghost repr: set<object>, ghost t: Table, key: string,
                     index: nat, digest: string, bytes: array<Byte>)
    requires Stores(streams, repr, t) && key in streams
    modifies streams[key].segments
    ensures key in t && Stores(streams, repr + {bytes},
              t[key := t[key].(segments := t[key].segments[index := Segment(index, digest, bytes[..])])])
  {
    var m := streams[key].segments;
    ghost var was := t[key];
    ghost var now := was.(segments := was.segments[index := Segment(index, digest, bytes[..])]);
    PutIn(m, was.segments, index, Held(index, digest, bytes), Segment(index, digest, bytes[..]));
    forall k | k in streams && k != key
      ensures Owned(streams[k], repr) && Shows(streams[k], t[k])
    {
      assert old(Shows(streams[k], t[k]) && Owned(streams[k], repr));
      assert SegmentsShow(streams[k].segments, t[k].segments);
    }
    InsertedStores(streams, repr, t, key, bytes, now);
  }

  lemma Overwritten(t: Table, key: string, first: Stream, second: Stream)
    ensures t[key := first][key := second] == t[key := second]
  {
  }

  /** The zero value of a stream. */
  const NO_STREAM: Stream := Stream(Scope("", "", "", ""), 0, map[], map[], false, 0)

  class Manager {
    const hash: seq<Byte> -> string
    var streams: map<string, Handle>
    var changed: Channel
    ghost var Repr: set<object>
    ghost var Contents: Table

    /** The heap holds exactly `Contents`, and the channel is open. */
    ghost predicate Intact()
      reads this, changed, Repr
    {
      this !in Repr && changed !in Repr && !changed.isClosed && Stores(streams, Repr, Contents)
    }

    ghost predicate Valid()
      reads this, changed, Repr
    {
      Intact() && AllWellFormed(Contents)
    }

    constructor (hash: seq<Byte> -> string)
      ensures Valid() && Contents == map[] && this.hash == hash && Repr == {} && fresh(changed)
    {
      this.hash := hash;
      streams, Repr, Contents := map[], {}, map[];
      changed := new Channel();
    }

    /** Closes the channel waiters may hold and installs a fresh one. */
    method Signal()
      requires Intact()
      modifies this`changed, changed
      ensures Intact()
      ensures old(changed).isClosed && fresh(changed)
    {
      changed.isClosed := true;
      changed := new Channel();
    }

    /** A snapshot is a deep copy: it reaches nothing the manager stores.  An unknown key
        gives an empty stream and false. */
    method Snapshot(key: string) returns (snapshot: Handle, found: bool)
      requires Valid()
      ensures found <==> key in Contents
      ensures Shows(snapshot, if found then Contents[key] else NO_STREAM) && fresh(Reach(snapshot))
    {
      found := key in streams;
      if found {
        snapshot := CloneStream(streams[key], Contents[key]);
      } else {
        var segments := new SegmentMap();
        var labels := new LabelMap();
        snapshot := CloneStream(Handle(NO_STREAM.scope, 0, segments, labels, false, 0), NO_STREAM);
      }
    }

    /** Stores a handle that shares nothing with what is stored. */
    method Add(key: string, h: Handle, ghost value: Stream)
      requires Intact() && key !in streams && Shows(h, value)
      requires Reach(h) !! Repr && this !in Reach(h) && changed !in Reach(h)
      modifies this`streams, this`Repr, this`Contents
      ensures Intact() && Repr == old(Repr) + Reach(h)
      ensures Contents == old(Contents)[key := value]
    {
      AddedStores(streams, Repr, Contents, key, h, value);
      streams := streams[key := h];
      Repr := Repr + Reach(h);
      Contents := Contents[key := value];
    }

    /** Puts one new segment into the stream's map, in place. */
    method Insert(key: string, index: nat, digest: string, bytes: array<Byte>)
      requires Intact() && key in streams && bytes !in Repr
      modifies this`Repr, this`Contents, streams[key].segments
      ensures Intact() && Repr == old(Repr) + {bytes} && key in old(Contents)
      ensures var was := old(Contents)[key];
              Contents == old(Contents)[key :=
                was.(segments := was.segments[index := Segment(index, digest, bytes[..])])]
    {
      hide Stores;
      StoresOne(streams, Repr, Contents, key);
      ghost var was := Contents[key];
      PutInStream(streams, Repr, Contents, key, index, digest, bytes);
      Repr := Repr + {bytes};
      Contents := Contents[key := was.(segments := was.segments[index := Segment(index, digest, bytes[..])])];
    }

    /** Stores the copied record back with its state and a version one higher. */
    method Raise(key: string, isSealed: bool)
      requires Intact() && key in streams
      modifies this`streams, this`Contents
      ensures Intact() && key in old(Contents)
      ensures var was := old(Contents)[key];
              Contents == old(Contents)[key := was.(isSealed := isSealed, version := was.version + 1)]
    {
      var h := streams[key].(isSealed := isSealed, version := streams[key].version + 1);
      ghost var value := Contents[key].(isSealed := isSealed, version := Contents[key].version + 1);
      RaisedStores(streams, Repr, Contents, key, h, value);
      streams := streams[key := h];
      Contents := Contents[key := value];
    }

    method Open(scope: Scope, expected: int, labels: LabelMap) returns (r: Result<Handle, Error>)
      requires Valid()
      modifies this, changed
      ensures Valid() && fresh(Repr - old(Repr))
      ensures var spec := Streams.Open(old(Contents), scope, expected, old(labels.entries));
              if spec.Err? then r == Err(spec.error) && Contents == old(Contents) && changed == old(changed)
              else && Contents == spec.value && old(changed).isClosed && fresh(changed)
                   && r.Ok? && Shows(r.value, spec.value[StreamKey(scope).value])
                   && fresh(Reach(r.value)) && Reach(r.value) !! Repr
    {
      hide AllWellFormed, Stores;
      var key := StreamKey(scope);
      if key.None? || expected <= 0 {
        return Err(Invalid);
      }
      StoresOne(streams, Repr, Contents, key.value);
      if key.value in streams {
        return Err(Conflict);
      }
      OpenKeepsWellFormed(Contents, scope, expected, labels.entries);
      ghost var value := Stream(scope, expected, map[], labels.entries, false, 1);
      var segments := new SegmentMap();
      var own := CopyLabels(labels);
      var stream := Handle(scope, expected, segments, own, false, 1);
      var stored := CloneStream(stream, value);
      Add(key.value, stored, value);
      Signal();
      var snapshot := CloneStream(stream, value);
      return Ok(snapshot);
    }

    /** Stores the record back and signals. */
    method PutBack(key: string, isSealed: bool)
      requires Intact() && key in streams
      modifies this, changed
      ensures Intact() && Repr == old(Repr) && key in old(Contents)
      ensures var was := old(Contents)[key];
              Contents == old(Contents)[key := was.(isSealed := isSealed, version := was.version + 1)]
      ensures old(changed).isClosed && fresh(changed)
    {
      hide Stores;
      StoresOne(streams, Repr, Contents, key);
      Raise(key, isSealed);
      Signal();
    }

    method Keep(key: string, index: nat, digest: string, bytes: array<Byte>)
      requires Intact() && key in streams && bytes !in Repr && !streams[key].isSealed
      modifies this, changed, streams[key].segments
      ensures Intact() && Repr == old(Repr) + {bytes} && key in old(Contents)
      ensures var was := old(Contents)[key];
              Contents == old(Contents)[key :=
                was.(segments := was.segments[index := Segment(index, digest, bytes[..])], version := was.version + 1)]
      ensures old(changed).isClosed && fresh(changed)
    {
      hide Stores;
      StoresOne(streams, Repr, Contents, key);
      ghost var was := Contents[key];
      ghost var filled := was.(segments := was.segments[index := Segment(index, digest, bytes[..])]);
      Overwritten(Contents, key, filled, filled.(version := was.version + 1));
      Insert(key, index, digest, bytes);
      assert Contents == old(Contents)[key := filled];
      PutBack(key, false);
    }

    /** The checks of an append, in order; passing them tells a new segment from a replay. */
    method CheckAppend(done: bool, key: string, index: int, digest: string, payload: array<Byte>)
      returns (r: Result<bool, Error>)
      requires Valid()
      ensures var spec := Streams.Append(Contents, done, key, index, digest, payload[..]);
              if spec.Err? then r == Err(spec.error) else r == Ok(spec.value.1)
    {
      if done {
        return Err(ContextDone);
      }
      if key !in streams || streams[key].isSealed {
        return Err(Conflict);
      }
      var stream := streams[key];
      assert Shows(stream, Contents[key]);
      if index < 0 || index >= stream.expected || digest == "" || payload.Length == 0 {
        return Err(Invalid);
      }
      if index in stream.segments.entries {
        assert HeldShows(stream.segments.entries[index], Contents[key].segments[index]);
        if stream.segments.entries[index].digest == digest {
          return Ok(false);
        }
        return Err(Conflict);
      }
      return Ok(true);
    }

    /** The stored payload is the caller's bytes in an array of the manager's own. */
    method Append(done: bool, key: string, index: int, digest: string, payload: array<Byte>)
      returns (r: Result<bool, Error>)
      requires Valid()
      modifies this, changed, if key in streams then {streams[key].segments} else {}
      ensures Valid() && fresh(Repr - old(Repr))
      ensures var spec := Streams.Append(old(Contents), done, key, index, digest, payload[..]);
              if spec.Err? then r == Err(spec.error) && Contents == old(Contents) && changed == old(changed)
              else && r == Ok(spec.value.1) && Contents == spec.value.0
                   && if spec.value.1 then old(changed).isClosed && fresh(changed) else changed == old(changed)
    {
      hide AllWellFormed, Stores;
      StoresOne(streams, Repr, Contents, key);
      var isNew :- CheckAppend(done, key, index, digest, payload);
      if !isNew {
        return Ok(false);
      }
      AppendKeepsAllWellFormed(Contents, done, key, index, digest, payload[..]);
      ghost var filled := Contents[key].segments[index := Segment(index, digest, payload[..])];
      assert Streams.Append(Contents, done, key, index, digest, payload[..])
          == Ok((Contents[key := Contents[key].(segments := filled, version := Contents[key].version + 1)], true));
      var bytes := CopyBytes(payload);
      Keep(key, index, digest, bytes);
      return Ok(true);
    }

    /** One look of a waiter under the lock: the verdict, and the channel it would block on. */
    method Look(key: string) returns (complete: bool, channel: Channel)
      requires Valid()
      ensures complete <==> Complete(Contents, key)
      ensures channel == changed && !channel.isClosed
    {
      if key in streams {
        assert Shows(streams[key], Contents[key]);
        complete := |streams[key].segments.entries| == streams[key].expected;
      } else {
        complete := false;
      }
      channel := changed;
    }

    /** The checks of a seal, in order; passing them yields the whole payload. */
    method CheckSeal(done: bool, key: string, version: int, checksum: string) returns (r: Result<seq<Byte>, Error>)
      requires Valid()
      ensures var spec := Streams.Finalize(Contents, hash, done, key, version, checksum, None, 0);
              if spec.Err? then r == Err(spec.error) else r == Ok(spec.value.1.payload)
    {
      if done {
        return Err(ContextDone);
      }
      if key !in streams || streams[key].isSealed {
        return Err(Conflict);
      }
      var stream := streams[key];
      assert Shows(stream, Contents[key]) && WellFormed(Contents[key]);
      if stream.version != version || |stream.segments.entries| != stream.expected {
        return Err(Conflict);
      }
      var payload := Assemble(stream, Contents[key].segments, Contents[key].expected);
      if checksum == "" || checksum != hash(payload) {
        return Err(Conflict);
      }
      return Ok(payload);
    }

    /** The audit callback is given the very record a success returns.  A failed seal, a
        failed audit included, leaves everything as it was. */
    method Finalize(done: bool, key: string, version: int, checksum: string, audit: AuditCall, now: int)
      returns (r: Result<HeldRecord, Error>)
      requires Valid()
      modifies this, changed
      ensures Valid() && Repr == old(Repr)
      ensures var spec := Streams.Finalize(old(Contents), hash, done, key, version, checksum, audit, now);
              if spec.Err? then r == Err(spec.error) && Contents == old(Contents) && changed == old(changed)
              else && Contents == spec.value.0 && old(changed).isClosed && fresh(changed)
                   && r.Ok? && fresh(r.value.payload)
                   && Record(r.value.key, r.value.checksum, r.value.payload[..], r.value.sealedAt) == spec.value.1
    {
      hide AllWellFormed, Stores;
      StoresOne(streams, Repr, Contents, key);
      if key in Contents {
        ExpectsSome(Contents, key);
      }
      ghost var spec := Streams.Finalize(Contents, hash, done, key, version, checksum, audit, now);
      var payload :- CheckSeal(done, key, version, checksum);
      var bytes := NewBytes(payload);
      if audit.Some? && !audit.value(Record(key, hash(payload), bytes[..], now)) {
        return Err(AuditFailed);
      }
      assert spec == Ok((Contents[key := Contents[key].(isSealed := true, version := Contents[key].version + 1)],
                         Record(key, hash(payload), payload, now)));
      FinalizeKeepsAllWellFormed(Contents, hash, done, key, version, checksum, audit, now);
      PutBack(key, true);
      return Ok(HeldRecord(key, hash(payload), bytes, now));
    }
  }
}
