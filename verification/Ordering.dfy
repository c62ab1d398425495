/** Stable sorting by a strict weak order, and the order of strings. */
module Ordering {

  ghost predicate StrictWeak<T(!new)>(before: (T, T) -> bool) {
    && (forall x :: !before(x, x))
    && (forall x, y, z :: before(x, y) && before(y, z) ==> before(x, z))
    && (forall x, y, z :: !before(x, y) && !before(y, z) ==> !before(x, z))
  }

  predicate Tied<T>(x: T, y: T, before: (T, T) -> bool) {
    !before(x, y) && !before(y, x)
  }

  predicate Sorted<T>(s: seq<T>, before: (T, T) -> bool) {
    forall i, k | 0 <= i < k < |s| :: !before(s[k], s[i])
  }

  /** The elements tied with `x`, in the order they occur. */
  function TiesOf<T>(s: seq<T>, x: T, before: (T, T) -> bool): seq<T> {
    if s == [] then []
    else (if Tied(s[0], x, before) then [s[0]] else []) + TiesOf(s[1..], x, before)
  }

  /** `r` is `s` sorted, with ties in their original order. */
  ghost predicate StableSortOf<T(!new)>(r: seq<T>, s: seq<T>, before: (T, T) -> bool) {
    && Sorted(r, before)
    && multiset(r) == multiset(s)
    && forall x :: TiesOf(r, x, before) == TiesOf(s, x, before)
  }

  lemma {:induction false} TiesOfConcat<T>(s: seq<T>, t: seq<T>, x: T, before: (T, T) -> bool)
    ensures TiesOf(s + t, x, before) == TiesOf(s, x, before) + TiesOf(t, x, before)
    decreases |s|
  {
    if s == [] {
      assert s + t == t;
    } else {
      var first := if Tied(s[0], x, before) then [s[0]] else [];
      assert (s + t)[0] == s[0] && (s + t)[1..] == s[1..] + t;
      TiesOfConcat(s[1..], t, x, before);
      assert TiesOf(s + t, x, before) == first + (TiesOf(s[1..], x, before) + TiesOf(t, x, before));
    }
  }

  lemma {:induction false} NoTies<T>(s: seq<T>, x: T, before: (T, T) -> bool)
    requires forall i | 0 <= i < |s| :: !Tied(s[i], x, before)
    ensures TiesOf(s, x, before) == []
    decreases |s|
  {
    if s != [] {
      NoTies(s[1..], x, before);
    }
  }

  /** Inserting after everything not greater keeps ties in order. */
  lemma InsertKeepsTies<T(!new)>(left: seq<T>, right: seq<T>, item: T, x: T, before: (T, T) -> bool)
    requires StrictWeak(before) && forall i | 0 <= i < |right| :: before(item, right[i])
    ensures TiesOf(left + [item] + right, x, before) == TiesOf(left + right + [item], x, before)
  {
    TiesOfConcat(left + [item], right, x, before);
    TiesOfConcat(left, [item], x, before);
    TiesOfConcat(left + right, [item], x, before);
    TiesOfConcat(left, right, x, before);
    if Tied(item, x, before) {
      NoTies(right, x, before);
    }
  }

  method InsertSorted<T(!new)>(s: seq<T>, item: T, before: (T, T) -> bool) returns (r: seq<T>)
    requires StrictWeak(before) && Sorted(s, before)
    ensures StableSortOf(r, s + [item], before)
  {
    var at := |s|;
    while at > 0 && before(item, s[at - 1])
      invariant 0 <= at <= |s|
      invariant forall i | at <= i < |s| :: before(item, s[i])
    {
      at := at - 1;
    }
    r := s[..at] + [item] + s[at..];
    InsertedStable(s, item, at, before);
  }

  lemma InsertedStable<T(!new)>(s: seq<T>, item: T, at: nat, before: (T, T) -> bool)
    requires StrictWeak(before) && Sorted(s, before) && at <= |s|
    requires at > 0 ==> !before(item, s[at - 1])
    requires forall i | at <= i < |s| :: before(item, s[i])
    ensures StableSortOf(s[..at] + [item] + s[at..], s + [item], before)
  {
    hide StrictWeak, TiesOf, Sorted;
    InsertedInOrder(s, item, at, before);
    assert s == s[..at] + s[at..];
    forall x ensures TiesOf(s[..at] + [item] + s[at..], x, before) == TiesOf(s + [item], x, before) {
      InsertedTies(s, item, at, x, before);
    }
  }

  lemma InsertedTies<T(!new)>(s: seq<T>, item: T, at: nat, x: T, before: (T, T) -> bool)
    requires StrictWeak(before) && at <= |s|
    requires forall i | at <= i < |s| :: before(item, s[i])
    ensures TiesOf(s[..at] + [item] + s[at..], x, before) == TiesOf(s + [item], x, before)
  {
    assert s == s[..at] + s[at..];
    forall i | 0 <= i < |s[at..]|
      ensures before(item, s[at..][i])
    {
      assert s[at..][i] == s[at + i];
    }
    InsertKeepsTies(s[..at], s[at..], item, x, before);
  }

  lemma InsertedInOrder<T(!new)>(s: seq<T>, item: T, at: nat, before: (T, T) -> bool)
    requires StrictWeak(before) && Sorted(s, before) && at <= |s|
    requires at > 0 ==> !before(item, s[at - 1])
    requires forall i | at <= i < |s| :: before(item, s[i])
    ensures Sorted(s[..at] + [item] + s[at..], before)
  {
    var r := s[..at] + [item] + s[at..];
    forall i | 0 <= i < at ensures !before(item, s[i]) {
      assert i < at - 1 ==> !before(s[at - 1], s[i]);
    }
    forall i | at <= i < |s| ensures !before(s[i], item) {
      assert before(item, s[i]) && !before(item, item);
    }
    forall i, k | 0 <= i < k < |r| ensures !before(r[k], r[i]) {
      var x := if i < at then s[i] else if i == at then item else s[i - 1];
      var y := if k < at then s[k] else if k == at then item else s[k - 1];
      assert r[i] == x && r[k] == y;
    }
  }

  method StableSort<T(!new)>(s: seq<T>, before: (T, T) -> bool) returns (r: seq<T>)
    requires StrictWeak(before)
    ensures StableSortOf(r, s, before)
  {
    r := [];
    for n := 0 to |s|
      invariant StableSortOf(r, s[..n], before)
    {
      var next := InsertSorted(r, s[n], before);
      assert s[..n + 1] == s[..n] + [s[n]];
      forall x ensures TiesOf(next, x, before) == TiesOf(s[..n + 1], x, before) {
        TiesOfConcat(r, [s[n]], x, before);
        TiesOfConcat(s[..n], [s[n]], x, before);
      }
      r := next;
    }
    assert s[..|s|] == s;
  }

  // ---------- The stable sort is unique ----------

  lemma {:induction false} TieExists<T>(s: seq<T>, x: T, before: (T, T) -> bool) returns (i: nat)
    requires TiesOf(s, x, before) != []
    ensures i < |s| && Tied(s[i], x, before)
    decreases |s|
  {
    if Tied(s[0], x, before) {
      i := 0;
    } else {
      var k := TieExists(s[1..], x, before);
      i := k + 1;
    }
  }

  lemma NotBeforeFirst<T(!new)>(s: seq<T>, x: T, before: (T, T) -> bool)
    requires StrictWeak(before) && Sorted(s, before) && TiesOf(s, x, before) != []
    ensures !before(x, s[0])
  {
    var i := TieExists(s, x, before);
    assert !before(x, s[i]) && !before(s[i], s[0]);
  }

  lemma TiesOfStep<T>(s: seq<T>, x: T, before: (T, T) -> bool)
    requires s != []
    ensures TiesOf(s[1..], x, before)
            == if Tied(s[0], x, before) then TiesOf(s, x, before)[1..] else TiesOf(s, x, before)
  {
  }

  lemma TiesWithFirst<T(!new)>(s: seq<T>, before: (T, T) -> bool)
    requires StrictWeak(before)
    ensures s != [] ==> TiesOf(s, s[0], before) != []
  {
    assert s != [] ==> Tied(s[0], s[0], before);
  }

  lemma SameFirst<T(!new)>(a: seq<T>, b: seq<T>, before: (T, T) -> bool)
    requires StrictWeak(before) && Sorted(a, before) && Sorted(b, before) && a != [] && b != []
    requires TiesOf(a, a[0], before) == TiesOf(b, a[0], before) && TiesOf(a, b[0], before) == TiesOf(b, b[0], before)
    ensures a[0] == b[0]
  {
    assert Tied(a[0], a[0], before) && Tied(b[0], b[0], before);
    NotBeforeFirst(b, a[0], before);
    NotBeforeFirst(a, b[0], before);
    assert TiesOf(a, a[0], before)[0] == a[0] && TiesOf(b, a[0], before)[0] == b[0];
  }

  /** Sortedness and the order of ties leave no freedom: any two stable sorts agree. */
  lemma {:induction false} StableSortUnique<T(!new)>(a: seq<T>, b: seq<T>, before: (T, T) -> bool)
    requires StrictWeak(before) && Sorted(a, before) && Sorted(b, before)
    requires forall x :: TiesOf(a, x, before) == TiesOf(b, x, before)
    ensures a == b
    decreases |a|
  {
    if a == [] {
      TiesWithFirst(b, before);
    } else {
      TiesWithFirst(a, before);
      SameFirst(a, b, before);
      forall x ensures TiesOf(a[1..], x, before) == TiesOf(b[1..], x, before) {
        TiesOfStep(a, x, before);
        TiesOfStep(b, x, before);
      }
      StableSortUnique(a[1..], b[1..], before);
      assert a == [a[0]] + a[1..] && b == [b[0]] + b[1..];
    }
  }

  // ---------- Strictly ascending sequences ----------

  /** Sorted with no two elements tied. */
  ghost predicate Ascending<T>(s: seq<T>, before: (T, T) -> bool) {
    forall i, k | 0 <= i < k < |s| :: before(s[i], s[k])
  }

  lemma RepeatCountsTwice<T>(s: seq<T>, i: nat, k: nat)
    requires i < k < |s|
    ensures s[i] == s[k] ==> multiset(s)[s[k]] >= 2
  {
    assert s == s[..k] + [s[k]] + s[k + 1..];
    assert s[i] in s[..k];
  }

  lemma HasFirst<T>(s: seq<T>)
    ensures s != [] ==> s[0] in s
  {
  }

  lemma NoneBeforeFirst<T>(s: seq<T>, x: T, before: (T, T) -> bool)
    requires Ascending(s, before) && x in s
    ensures x == s[0] || before(s[0], x)
  {
  }

  lemma FirstOnlyOnce<T>(s: seq<T>, x: T, before: (T, T) -> bool)
    requires Ascending(s, before) && s != [] && !before(s[0], s[0])
    ensures x in s[1..] <==> x in s && x != s[0]
  {
    assert s == [s[0]] + s[1..];
  }

  lemma SameMembersSameFirst<T(!new)>(a: seq<T>, b: seq<T>, before: (T, T) -> bool)
    requires StrictWeak(before) && Ascending(a, before) && Ascending(b, before)
    requires a != [] && b != [] && forall x :: x in a <==> x in b
    ensures a[0] == b[0] && forall x :: x in a[1..] <==> x in b[1..]
  {
    HasFirst(a);
    HasFirst(b);
    NoneBeforeFirst(a, b[0], before);
    NoneBeforeFirst(b, a[0], before);
    forall x ensures x in a[1..] <==> x in b[1..] {
      FirstOnlyOnce(a, x, before);
      FirstOnlyOnce(b, x, before);
    }
  }

  /** A strictly ascending sequence is determined by its members. */
  lemma {:induction false} AscendingUnique<T(!new)>(a: seq<T>, b: seq<T>, before: (T, T) -> bool)
    requires StrictWeak(before) && Ascending(a, before) && Ascending(b, before)
    requires forall x :: x in a <==> x in b
    ensures a == b
    decreases |a|
  {
    HasFirst(a);
    HasFirst(b);
    if a != [] {
      SameMembersSameFirst(a, b, before);
      AscendingUnique(a[1..], b[1..], before);
      assert a == [a[0]] + a[1..] && b == [b[0]] + b[1..];
    }
  }

  // ---------- Strings ----------

  /** Lexicographic order by character. */
  predicate StringBefore(a: string, b: string) {
    b != [] && (a == [] || a[0] < b[0] || (a[0] == b[0] && StringBefore(a[1..], b[1..])))
  }

  lemma {:induction false} StringBeforeTransitive(a: string, b: string, c: string)
    ensures !StringBefore(a, a)
    ensures StringBefore(a, b) && StringBefore(b, c) ==> StringBefore(a, c)
    ensures StringBefore(a, b) || StringBefore(b, a) || a == b
    decreases |a|
  {
    if a != [] && b != [] && c != [] {
      StringBeforeTransitive(a[1..], b[1..], c[1..]);
      assert a == [a[0]] + a[1..] && b == [b[0]] + b[1..];
    } else if a != [] && b != [] {
      StringBeforeTransitive(a[1..], b[1..], []);
      assert a == [a[0]] + a[1..] && b == [b[0]] + b[1..];
    } else if a != [] {
      StringBeforeTransitive(a[1..], [], []);
    }
  }

  /** `a` comes first at the first character that differs, or by ending there. */
  ghost predicate FirstAt(a: string, b: string, n: nat) {
    n <= |a| && n < |b| && a[..n] == b[..n] && (n == |a| || a[n] < b[n])
  }

  lemma {:induction false} StringBeforeIff(a: string, b: string)
    ensures StringBefore(a, b) <==> exists n :: FirstAt(a, b, n)
    decreases |a|
  {
    if a != [] && b != [] {
      StringBeforeIff(a[1..], b[1..]);
      if n: nat :| FirstAt(a[1..], b[1..], n) && a[0] == b[0] {
        assert a[..n + 1] == [a[0]] + a[1..][..n];
        assert b[..n + 1] == [b[0]] + b[1..][..n];
        assert FirstAt(a, b, n + 1);
      }
      if n: nat :| FirstAt(a, b, n) {
        if n > 0 {
          assert a[0] == a[..n][0] == b[..n][0] == b[0];
          assert a[1..][..n - 1] == a[..n][1..] && b[1..][..n - 1] == b[..n][1..];
          assert FirstAt(a[1..], b[1..], n - 1);
        }
      }
      if a[0] < b[0] {
        assert FirstAt(a, b, 0);
      }
    } else if b != [] {
      assert FirstAt(a, b, 0);
    }
  }

  /** The string order is strict, total and weak: ties are equal strings. */
  lemma StringOrder()
    ensures StrictWeak(StringBefore)
    ensures forall a, b :: Tied(a, b, StringBefore) <==> a == b
  {
    forall a, b, c
      ensures !StringBefore(a, a)
      ensures StringBefore(a, b) && StringBefore(b, c) ==> StringBefore(a, c)
      ensures StringBefore(a, b) || StringBefore(b, a) || a == b
    {
      StringBeforeTransitive(a, b, c);
    }
  }
}
