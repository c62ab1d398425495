/** Keys joined with NUL: which scopes can and cannot share one. */
module Keys {
  import opened Prelude

  const NUL: char := '\0'

  function Join(parts: seq<string>): string {
    if parts == [] then ""
    else if |parts| == 1 then parts[0]
    else parts[0] + [NUL] + Join(parts[1..])
  }

  datatype Scope = Scope(tenant: string, mission: string, buoy: string, capture: string) {
    function Parts(): seq<string> {
      [tenant, mission, buoy, capture]
    }
  }

  function JoinUnlessBlank(parts: seq<string>): Option<string> {
    if exists i | 0 <= i < |parts| :: Blank(parts[i]) then None else Some(Join(parts))
  }

  function StreamKey(scope: Scope): Option<string> {
    JoinUnlessBlank(scope.Parts())
  }

  function IdempotencyKey(tenant: string, httpMethod: string, path: string, key: string): Option<string> {
    JoinUnlessBlank([tenant, httpMethod, path, key])
  }

  /** Callback parts need only be non-empty. */
  function CallbackKey(tenant: string, buoy: string, bundle: string, event: string): Option<string> {
    if tenant == "" || buoy == "" || bundle == "" || event == "" then None
    else Some(Join([tenant, buoy, bundle, event]))
  }

  predicate NulFree(s: string) {
    NUL !in s
  }

  predicate AllNulFree(parts: seq<string>) {
    forall i | 0 <= i < |parts| :: NulFree(parts[i])
  }

  // ---------- Splitting undoes joining ----------

  function Split(s: string): (parts: seq<string>)
    ensures parts != []
  {
    if s == "" then [""]
    else if s[0] == NUL then [""] + Split(s[1..])
    else
      var rest := Split(s[1..]);
      [[s[0]] + rest[0]] + rest[1..]
  }

  lemma {:induction false} SplitAfterNul(part: string, rest: string)
    requires NulFree(part)
    ensures Split(part + [NUL] + rest) == [part] + Split(rest)
    decreases |part|
  {
    var s := part + [NUL] + rest;
    if part == "" {
      assert s[1..] == rest;
    } else {
      assert part[0] in part && s[1..] == part[1..] + [NUL] + rest;
      assert part == [part[0]] + part[1..];
      SplitAfterNul(part[1..], rest);
    }
  }

  lemma {:induction false} SplitNulFree(part: string)
    requires NulFree(part)
    ensures Split(part) == [part]
    decreases |part|
  {
    if part != "" {
      assert part[0] in part && part == [part[0]] + part[1..];
      SplitNulFree(part[1..]);
    }
  }

  lemma {:induction false} SplitUndoesJoin(parts: seq<string>)
    requires parts != [] && AllNulFree(parts)
    ensures Split(Join(parts)) == parts
    decreases |parts|
  {
    if |parts| == 1 {
      SplitNulFree(parts[0]);
    } else {
      SplitAfterNul(parts[0], Join(parts[1..]));
      SplitUndoesJoin(parts[1..]);
    }
  }

  // ---------- One NUL-free side is enough ----------

  function CountNul(s: string): nat {
    if s == "" then 0 else (if s[0] == NUL then 1 else 0) + CountNul(s[1..])
  }

  lemma {:induction false} CountNulConcat(s: string, t: string)
    ensures CountNul(s + t) == CountNul(s) + CountNul(t)
    decreases |s|
  {
    if s == "" {
      assert s + t == t;
    } else {
      assert (s + t)[1..] == s[1..] + t;
      CountNulConcat(s[1..], t);
    }
  }

  lemma {:induction false} CountNulZero(s: string)
    ensures CountNul(s) == 0 <==> NulFree(s)
    decreases |s|
  {
    if s != "" {
      CountNulZero(s[1..]);
      assert s == [s[0]] + s[1..];
    }
  }

  /** A joined string has a NUL per seam and exactly as many more as its parts hold. */
  lemma {:induction false} CountNulJoin(parts: seq<string>)
    requires parts != []
    ensures CountNul(Join(parts)) >= |parts| - 1
    ensures CountNul(Join(parts)) == |parts| - 1 <==> AllNulFree(parts)
    decreases |parts|
  {
    if |parts| == 1 {
      CountNulZero(parts[0]);
    } else {
      var rest := parts[1..];
      CountNulJoin(rest);
      CountNulZero(parts[0]);
      CountNulConcat(parts[0] + [NUL], Join(rest));
      CountNulConcat(parts[0], [NUL]);
      assert parts == [parts[0]] + rest;
      assert AllNulFree(parts) <==> NulFree(parts[0]) && AllNulFree(rest);
    }
  }

  /** A NUL-free list of parts shares its joined form with no other list of the same
      length, NUL-free or not. */
  lemma JoinIdentifies(parts: seq<string>, others: seq<string>)
    requires parts != [] && |others| == |parts| && AllNulFree(parts)
    ensures Join(parts) == Join(others) <==> parts == others
  {
    if Join(parts) == Join(others) {
      CountNulJoin(parts);
      CountNulJoin(others);
      SplitUndoesJoin(parts);
      SplitUndoesJoin(others);
    }
  }

  lemma StreamKeyIdentifies(a: Scope, b: Scope)
    requires AllNulFree(a.Parts()) && StreamKey(a).Some? && StreamKey(b).Some?
    ensures StreamKey(a) == StreamKey(b) <==> a == b
  {
    JoinIdentifies(a.Parts(), b.Parts());
    assert a.Parts()[0] == a.tenant && a.Parts()[1] == a.mission && a.Parts()[2] == a.buoy && a.Parts()[3] == a.capture;
    assert b.Parts()[0] == b.tenant && b.Parts()[1] == b.mission && b.Parts()[2] == b.buoy && b.Parts()[3] == b.capture;
  }

  lemma IdempotencyKeyIdentifies(a: seq<string>, b: seq<string>)
    requires |a| == 4 && |b| == 4 && AllNulFree(a)
    requires IdempotencyKey(a[0], a[1], a[2], a[3]).Some? && IdempotencyKey(b[0], b[1], b[2], b[3]).Some?
    ensures IdempotencyKey(a[0], a[1], a[2], a[3]) == IdempotencyKey(b[0], b[1], b[2], b[3]) <==> a == b
  {
    assert a == [a[0], a[1], a[2], a[3]] && b == [b[0], b[1], b[2], b[3]];
    JoinIdentifies(a, b);
  }

  lemma CallbackKeyIdentifies(a: seq<string>, b: seq<string>)
    requires |a| == 4 && |b| == 4 && AllNulFree(a)
    requires CallbackKey(a[0], a[1], a[2], a[3]).Some? && CallbackKey(b[0], b[1], b[2], b[3]).Some?
    ensures CallbackKey(a[0], a[1], a[2], a[3]) == CallbackKey(b[0], b[1], b[2], b[3]) <==> a == b
  {
    assert a == [a[0], a[1], a[2], a[3]] && b == [b[0], b[1], b[2], b[3]];
    JoinIdentifies(a, b);
  }

  /** Without the NUL-free side keys do collide: a NUL may sit in either of two
      neighbouring parts. */
  lemma KeysCollideWithNul(a: string, b: string, c: string, d: string, e: string)
    requires !Blank(a) && !Blank(c) && !Blank(d) && !Blank(e)
    ensures StreamKey(Scope(a + [NUL] + b, c, d, e)).Some?
    ensures StreamKey(Scope(a + [NUL] + b, c, d, e)) == StreamKey(Scope(a, b + [NUL] + c, d, e))
    ensures Scope(a + [NUL] + b, c, d, e) != Scope(a, b + [NUL] + c, d, e)
  {
    var one, two := [a + [NUL] + b, c, d, e], [a, b + [NUL] + c, d, e];
    assert NUL in a + [NUL] + b && NUL in b + [NUL] + c && !IsSpace(NUL);
    assert |a + [NUL] + b| != |a|;
    assert one[1..] == [c, d, e] && two[1..] == [b + [NUL] + c, d, e];
    assert two[1..][1..] == [d, e] == one[1..][1..];
    assert Join(one) == a + [NUL] + b + [NUL] + (c + [NUL] + Join([d, e]));
    assert Join(two) == a + [NUL] + (b + [NUL] + c + [NUL] + Join([d, e]));
    assert Join(one) == Join(two);
    assert forall i | 0 <= i < 4 :: !Blank(one[i]);
    assert forall i | 0 <= i < 4 :: !Blank(two[i]);
  }
}
