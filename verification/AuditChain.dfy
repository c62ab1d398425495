/** The audit hash chain: what its head commits to. */
module AuditChain {
  import opened Prelude

  datatype Event<D> = Event(requestID: string, operatorID: Option<string>, objectType: string, objectID: string,
                            action: string, outcome: string, detail: Option<D>, createdAt: int)

  /** The text and codec functions of the standard library: whether text is blank, the
      empty detail, the JSON of an event (which may not exist) and the digest of a text. */
  datatype Codec<!D> = Codec(blank: string -> bool, noDetail: D, encode: Event<D> -> Option<string>,
                          digest: string -> string)

  predicate Validates<D>(c: Codec<D>, e: Event<D>) {
    && !c.blank(e.requestID) && !c.blank(e.objectType) && !c.blank(e.objectID)
    && !c.blank(e.action) && !c.blank(e.outcome)
  }

  function Normalized<D>(c: Codec<D>, e: Event<D>): Event<D> {
    if e.detail.None? then e.(detail := Some(c.noDetail)) else e
  }

  predicate Accepts<D>(c: Codec<D>, e: Event<D>) {
    Validates(c, e) && c.encode(Normalized(c, e)).Some?
  }

  function Body<D>(c: Codec<D>, e: Event<D>): string {
    var body := c.encode(Normalized(c, e));
    if body.Some? then body.value else ""
  }

  /** The hashed text: the previous head and the event, as one JSON object. */
  function Framed(previous: string, body: string): string {
    "{\"previous\":\"" + previous + "\",\"event\":" + body + "}"
  }

  class Chain<D> {
    const codec: Codec<D>
    var previous: string

    constructor (codec: Codec<D>)
      ensures this.codec == codec && previous == ""
    {
      this.codec := codec;
      previous := "";
    }

    /** A rejected event leaves the head unchanged. */
    method Append(event: Event<D>) returns (head: Option<string>)
      modifies this
      ensures head.Some? <==> Accepts(codec, event)
      ensures previous == HeadAfter(codec, old(previous), event)
      ensures head.Some? ==> head.value == previous
    {
      if !Validates(codec, event) {
        return None;
      }
      var e := event;
      if e.detail.None? {
        e := e.(detail := Some(codec.noDetail));
      }
      var body := codec.encode(e);
      if body.None? {
        return None;
      }
      previous := codec.digest(Framed(previous, body.value));
      return Some(previous);
    }

    method Head() returns (head: string)
      ensures head == previous
    {
      return previous;
    }
  }

  function HeadAfter<D>(c: Codec<D>, previous: string, e: Event<D>): string {
    if Accepts(c, e) then c.digest(Framed(previous, Body(c, e))) else previous
  }

  /** The head of a new chain after a run of appends. */
  function HeadOf<D>(c: Codec<D>, events: seq<Event<D>>): string {
    if events == [] then "" else HeadAfter(c, HeadOf(c, events[..|events| - 1]), events[|events| - 1])
  }

  /** The accepted events, normalised. */
  function Accepted<D>(c: Codec<D>, events: seq<Event<D>>): seq<Event<D>> {
    if events == [] then []
    else
      var last := events[|events| - 1];
      Accepted(c, events[..|events| - 1]) + (if Accepts(c, last) then [Normalized(c, last)] else [])
  }

  /** A digest is a non-empty text without quotes, as hexadecimal is. */
  ghost predicate LooksLikeDigest(s: string) {
    s != "" && '"' !in s
  }

  ghost predicate DigestsWell<D>(c: Codec<D>) {
    forall s: string :: LooksLikeDigest(c.digest(s))
  }

  /** The texts a run of appends hashes, one for each accepted event. */
  function Hashed<D>(c: Codec<D>, events: seq<Event<D>>): seq<string> {
    if events == [] then []
    else
      var rest, last := events[..|events| - 1], events[|events| - 1];
      Hashed(c, rest) + (if Accepts(c, last) then [Framed(HeadOf(c, rest), Body(c, last))] else [])
  }

  /** Among the texts these two runs hashed, two different ones have one digest. */
  ghost predicate Collide<D>(c: Codec<D>, a: seq<Event<D>>, b: seq<Event<D>>) {
    exists s, t :: s in Hashed(c, a) && t in Hashed(c, b) && s != t && c.digest(s) == c.digest(t)
  }

  /** Among the events these two runs accepted, two different ones encode alike. */
  ghost predicate EncodeAlike<D(!new)>(c: Codec<D>, a: seq<Event<D>>, b: seq<Event<D>>) {
    exists e, f :: e in Accepted(c, a) && f in Accepted(c, b) && e != f && c.encode(e) == c.encode(f)
  }

  /** What a run of appends takes: the events, in order, that name their request, object,
      action and outcome and can be encoded, each with a detail. */
  lemma {:induction false} AcceptedAreComplete<D>(c: Codec<D>, events: seq<Event<D>>, e: Event<D>)
    ensures e in Accepted(c, events)
            <==> && e.detail.Some? && c.encode(e).Some?
                 && !c.blank(e.requestID) && !c.blank(e.objectType) && !c.blank(e.objectID)
                 && !c.blank(e.action) && !c.blank(e.outcome)
                 && (e in events || (e.detail.value == c.noDetail && e.(detail := None) in events))
    decreases |events|
  {
    if events != [] {
      var rest, last := events[..|events| - 1], events[|events| - 1];
      AcceptedAreComplete(c, rest, e);
      assert events == rest + [last];
    }
  }

  // ---------- Framing ----------

  lemma NoEarlierQuote(p: string, rest: string, n: nat)
    requires '"' !in p && n <= |p| + |rest| && (p + "\"" + rest)[n] == '"'
    ensures |p| <= n
  {
    assert forall i | 0 <= i < |p| :: p[i] != '"';
  }

  /** Cutting at the first quote tells the head from the event. */
  lemma QuotesSplit(p: string, q: string, rest: string, rest': string)
    requires '"' !in p && '"' !in q && p + "\"" + rest == q + "\"" + rest'
    ensures p == q && rest == rest'
  {
    var s, t := p + "\"" + rest, q + "\"" + rest';
    NoEarlierQuote(p, rest, |q|);
    NoEarlierQuote(q, rest', |p|);
    assert s[..|p|] == p && t[..|q|] == q;
    assert s[|p| + 1..] == rest && t[|q| + 1..] == rest';
  }

  /** The framing loses neither the previous head nor the event. */
  lemma FramedApart(p: string, body: string, q: string, body': string)
    requires '"' !in p && '"' !in q && Framed(p, body) == Framed(q, body')
    ensures p == q && body == body'
  {
    var head, tail := "{\"previous\":\"", ",\"event\":";
    var s, t := p + "\"" + (tail + body + "}"), q + "\"" + (tail + body' + "}");
    assert Framed(p, body) == head + s && Framed(q, body') == head + t;
    assert (head + s)[|head|..] == s && (head + t)[|head|..] == t;
    QuotesSplit(p, q, tail + body + "}", tail + body' + "}");
    var u, v := tail + body + "}", tail + body' + "}";
    assert u[|tail|..|u| - 1] == body && v[|tail|..|v| - 1] == body';
  }

  // ---------- Commitment ----------

  lemma {:induction false} HeadShape<D>(c: Codec<D>, events: seq<Event<D>>)
    requires DigestsWell(c)
    ensures '"' !in HeadOf(c, events) && (HeadOf(c, events) == "" <==> Accepted(c, events) == [])
    decreases |events|
  {
    if events != [] {
      var last := events[|events| - 1];
      HeadShape(c, events[..|events| - 1]);
      assert LooksLikeDigest(c.digest(Framed(HeadOf(c, events[..|events| - 1]), Body(c, last))));
    }
  }

  /** A rejected last event changes neither the head nor what was accepted. */
  lemma RejectedLast<D>(c: Codec<D>, events: seq<Event<D>>)
    requires events != [] && !Accepts(c, events[|events| - 1])
    ensures HeadOf(c, events) == HeadOf(c, events[..|events| - 1])
    ensures Accepted(c, events) == Accepted(c, events[..|events| - 1])
  {
  }

  lemma NormalizedAccepts<D>(c: Codec<D>, e: Event<D>)
    requires Accepts(c, e)
    ensures Accepts(c, Normalized(c, e)) && Normalized(c, Normalized(c, e)) == Normalized(c, e)
  {
  }

  /** What a run hashed and accepted before its last event it still has after it. */
  lemma PrefixStays<D>(c: Codec<D>, events: seq<Event<D>>)
    requires events != []
    ensures forall s :: s in Hashed(c, events[..|events| - 1]) ==> s in Hashed(c, events)
    ensures forall e :: e in Accepted(c, events[..|events| - 1]) ==> e in Accepted(c, events)
  {
  }

  /** Alternatives found in shorter runs are found in the runs themselves. */
  lemma FaultsGrow<D(!new)>(c: Codec<D>, a: seq<Event<D>>, b: seq<Event<D>>, a': seq<Event<D>>, b': seq<Event<D>>)
    requires forall s :: s in Hashed(c, a) ==> s in Hashed(c, a')
    requires forall s :: s in Hashed(c, b) ==> s in Hashed(c, b')
    requires forall e :: e in Accepted(c, a) ==> e in Accepted(c, a')
    requires forall e :: e in Accepted(c, b) ==> e in Accepted(c, b')
    ensures Collide(c, a, b) ==> Collide(c, a', b')
    ensures EncodeAlike(c, a, b) ==> EncodeAlike(c, a', b')
  {
  }

  /** The last accepted events of two runs with one head: the texts hashed last
      collide, or the runs had one head before and the two events have one body. */
  lemma SameHeadStep<D(!new)>(c: Codec<D>, a: seq<Event<D>>, b: seq<Event<D>>)
    requires DigestsWell(c) && a != [] && b != [] && HeadOf(c, a) == HeadOf(c, b)
    requires Accepts(c, a[|a| - 1]) && Accepts(c, b[|b| - 1])
    ensures || Collide(c, a, b)
            || (&& HeadOf(c, a[..|a| - 1]) == HeadOf(c, b[..|b| - 1])
                && Body(c, a[|a| - 1]) == Body(c, b[|b| - 1]))
  {
    var p, q := HeadOf(c, a[..|a| - 1]), HeadOf(c, b[..|b| - 1]);
    var e, f := a[|a| - 1], b[|b| - 1];
    HeadShape(c, a[..|a| - 1]);
    HeadShape(c, b[..|b| - 1]);
    var s, t := Framed(p, Body(c, e)), Framed(q, Body(c, f));
    assert s in Hashed(c, a) && t in Hashed(c, b);
    if s == t {
      FramedApart(p, Body(c, e), q, Body(c, f));
    }
  }

  /** Equal last bodies of accepted events: the events are the same or encode alike. */
  lemma SameBodyStep<D(!new)>(c: Codec<D>, a: seq<Event<D>>, b: seq<Event<D>>)
    requires a != [] && b != [] && Accepts(c, a[|a| - 1]) && Accepts(c, b[|b| - 1])
    requires Body(c, a[|a| - 1]) == Body(c, b[|b| - 1])
    ensures Normalized(c, a[|a| - 1]) == Normalized(c, b[|b| - 1]) || EncodeAlike(c, a, b)
  {
    var e, f := Normalized(c, a[|a| - 1]), Normalized(c, b[|b| - 1]);
    assert e in Accepted(c, a) && f in Accepted(c, b);
    assert c.encode(e) == c.encode(f);
  }

  /** Equal heads mean the same accepted events in the same order and number, unless
      two different texts these very runs hashed have one digest, or two different
      events these very runs accepted encode alike. */
  lemma {:induction false} HeadCommits<D(!new)>(c: Codec<D>, a: seq<Event<D>>, b: seq<Event<D>>)
    requires DigestsWell(c) && HeadOf(c, a) == HeadOf(c, b)
    ensures Accepted(c, a) == Accepted(c, b) || Collide(c, a, b) || EncodeAlike(c, a, b)
    decreases |a| + |b|
  {
    HeadShape(c, a);
    HeadShape(c, b);
    if a != [] && !Accepts(c, a[|a| - 1]) {
      RejectedLast(c, a);
      HeadCommits(c, a[..|a| - 1], b);
      PrefixStays(c, a);
      FaultsGrow(c, a[..|a| - 1], b, a, b);
    } else if b != [] && !Accepts(c, b[|b| - 1]) {
      RejectedLast(c, b);
      HeadCommits(c, a, b[..|b| - 1]);
      PrefixStays(c, b);
      FaultsGrow(c, a, b[..|b| - 1], a, b);
    } else if a != [] && b != [] {
      SameHeadStep(c, a, b);
      if !Collide(c, a, b) {
        HeadCommits(c, a[..|a| - 1], b[..|b| - 1]);
        PrefixStays(c, a);
        PrefixStays(c, b);
        FaultsGrow(c, a[..|a| - 1], b[..|b| - 1], a, b);
        SameBodyStep(c, a, b);
      }
    }
  }

  /** And only then: equal accepted events give equal heads, whatever was rejected
      between them. */
  lemma {:induction false} HeadIsOfAccepted<D>(c: Codec<D>, a: seq<Event<D>>)
    ensures HeadOf(c, Accepted(c, a)) == HeadOf(c, a)
    decreases |a|
  {
    if a != [] {
      var rest, last := a[..|a| - 1], a[|a| - 1];
      HeadIsOfAccepted(c, rest);
      if Accepts(c, last) {
        NormalizedAccepts(c, last);
        var all := Accepted(c, a);
        assert all == Accepted(c, rest) + [Normalized(c, last)];
        assert all[..|all| - 1] == Accepted(c, rest) && all[|all| - 1] == Normalized(c, last);
        assert Body(c, Normalized(c, last)) == Body(c, last);
      } else {
        RejectedLast(c, a);
      }
    }
  }
}
