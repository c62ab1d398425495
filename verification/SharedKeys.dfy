/** Exactly which NUL-joined keys are shared by more than one list of parts. */
module SharedKeys {
  import opened Keys
  import opened Prelude

  /** What a part must be, and that anything holding a NUL is one: no NUL is blank. */
  ghost predicate AcceptsNul(ok: string -> bool) {
    forall s: string | NUL in s :: ok(s)
  }

  predicate AllOk(parts: seq<string>, ok: string -> bool) {
    forall i | 0 <= i < |parts| :: ok(parts[i])
  }

  /** Part `i` has a NUL at `at` where a piece can go over to a neighbour: an acceptable
      piece stays to its left and the rest has a right neighbour to join, or the other
      way round. */
  predicate CutAt(parts: seq<string>, ok: string -> bool, i: nat, at: nat)
    requires i < |parts|
  {
    && at < |parts[i]| && parts[i][at] == NUL
    && ((i + 1 < |parts| && ok(parts[i][..at])) || (i > 0 && ok(parts[i][at + 1..])))
  }

  ghost predicate Cuttable(parts: seq<string>, ok: string -> bool) {
    exists i, at :: 0 <= i < |parts| && 0 <= at < |parts[i]| && CutAt(parts, ok, i, at)
  }

  /** Another acceptable list of as many parts joins to the same text. */
  ghost predicate Shares(parts: seq<string>, others: seq<string>, ok: string -> bool) {
    |others| == |parts| && AllOk(others, ok) && others != parts && Join(others) == Join(parts)
  }

  lemma {:induction false} JoinSplits(first: seq<string>, second: seq<string>)
    requires first != [] && second != []
    ensures Join(first + second) == Join(first) + [NUL] + Join(second)
    decreases |first|
  {
    if |first| == 1 {
      assert (first + second)[1..] == second;
    } else {
      assert (first + second)[1..] == first[1..] + second;
      JoinSplits(first[1..], second);
    }
  }

  lemma JoinTwo(a: string, b: string)
    ensures Join([a, b]) == a + [NUL] + b
  {
    assert [a, b][1..] == [b];
  }

  /** Joining is the same wherever the two middle parts are told apart. */
  lemma SameMiddleSameJoin(left: seq<string>, mid: seq<string>, mid': seq<string>, right: seq<string>)
    requires mid != [] && mid' != [] && Join(mid) == Join(mid')
    ensures Join(left + mid + right) == Join(left + mid' + right)
  {
    if right == [] {
      assert mid + right == mid && mid' + right == mid';
    } else {
      JoinSplits(mid, right);
      JoinSplits(mid', right);
    }
    assert Join(mid + right) == Join(mid' + right);
    assert left + mid + right == left + (mid + right) && left + mid' + right == left + (mid' + right);
    if left == [] {
      assert left + (mid + right) == mid + right && left + (mid' + right) == mid' + right;
    } else {
      JoinSplits(left, mid + right);
      JoinSplits(left, mid' + right);
    }
  }

  /** The seam between neighbours `i` and `i + 1` can sit at any NUL of either. */
  lemma SeamMoves(parts: seq<string>, ok: string -> bool, i: nat, a: string, b: string)
    requires i + 1 < |parts| && AllOk(parts, ok) && ok(a) && ok(b)
    requires a + [NUL] + b == parts[i] + [NUL] + parts[i + 1] && a != parts[i]
    ensures exists others :: Shares(parts, others, ok)
  {
    var left, right := parts[..i], parts[i + 2..];
    var others := left + [a, b] + right;
    assert parts == left + [parts[i], parts[i + 1]] + right;
    JoinTwo(a, b);
    JoinTwo(parts[i], parts[i + 1]);
    SameMiddleSameJoin(left, [a, b], [parts[i], parts[i + 1]], right);
    assert others[i] == a;
    assert Shares(parts, others, ok);
  }

  lemma CutShares(parts: seq<string>, ok: string -> bool, i: nat, at: nat)
    requires AcceptsNul(ok) && AllOk(parts, ok) && i < |parts| && CutAt(parts, ok, i, at)
    ensures exists others :: Shares(parts, others, ok)
  {
    var u, v := parts[i][..at], parts[i][at + 1..];
    assert parts[i] == u + [NUL] + v;
    if i + 1 < |parts| && ok(u) {
      var b := v + [NUL] + parts[i + 1];
      assert NUL in b;
      assert u + [NUL] + b == parts[i] + [NUL] + parts[i + 1];
      SeamMoves(parts, ok, i, u, b);
    } else {
      var a := parts[i - 1] + [NUL] + u;
      assert NUL in a;
      assert a + [NUL] + v == parts[i - 1] + [NUL] + parts[i];
      SeamMoves(parts, ok, i - 1, a, v);
    }
  }

  /** Two texts that agree up to a seam each: one head goes on past the other's seam. */
  lemma HeadsCompare(p: string, x: string, q: string, y: string) returns (piece: string)
    requires p + [NUL] + x == q + [NUL] + y
    ensures |p| == |q| ==> p == q && x == y
    ensures |p| > |q| ==> p == q + [NUL] + piece && y == piece + [NUL] + x
    ensures |p| < |q| ==> q == p + [NUL] + piece && x == piece + [NUL] + y
  {
    if |p| > |q| {
      piece := PastSeam(p, x, q, y);
    } else if |p| < |q| {
      piece := PastSeam(q, y, p, x);
    } else {
      piece := "";
      var s, t := p + [NUL] + x, q + [NUL] + y;
      assert s[..|p|] == p && t[..|q|] == q && s[|p| + 1..] == x && t[|q| + 1..] == y;
    }
  }

  lemma PastSeam(p: string, x: string, q: string, y: string) returns (piece: string)
    requires p + [NUL] + x == q + [NUL] + y && |p| > |q|
    ensures p == q + [NUL] + piece && y == piece + [NUL] + x
  {
    var s, t := p + [NUL] + x, q + [NUL] + y;
    piece := p[|q| + 1..];
    assert p[..|q|] == s[..|q|] == t[..|q|] == q;
    assert p[|q|] == s[|q|] == t[|q|] == NUL;
    assert y == t[|q| + 1..] == s[|q| + 1..];
    assert s[|q| + 1..] == piece + [NUL] + x;
  }

  /** A cut of the later parts is a cut of the whole list. */
  lemma CutLater(parts: seq<string>, ok: string -> bool, i: nat, at: nat)
    requires i + 1 < |parts| && CutAt(parts[1..], ok, i, at)
    ensures CutAt(parts, ok, i + 1, at)
  {
  }

  /** A part that holds a NUL, with an acceptable piece right of it, in a list that has
      a left neighbour to give. */
  ghost predicate CutRight(parts: seq<string>, ok: string -> bool) {
    exists i, at :: 0 <= i < |parts| && 0 <= at < |parts[i]| && parts[i][at] == NUL && ok(parts[i][at + 1..])
  }

  lemma CutRightHere(parts: seq<string>, ok: string -> bool, q: string, piece: string)
    requires parts != [] && parts[0] == q + [NUL] + piece && ok(piece)
    ensures CutRight(parts, ok)
  {
    assert parts[0][|q|] == NUL && parts[0][|q| + 1..] == piece;
  }

  lemma CutRightLater(parts: seq<string>, ok: string -> bool)
    requires parts != [] && CutRight(parts[1..], ok)
    ensures CutRight(parts, ok)
  {
    var rest := parts[1..];
    var i, at :| 0 <= i < |rest| && 0 <= at < |rest[i]| && rest[i][at] == NUL && ok(rest[i][at + 1..]);
    assert parts[i + 1] == parts[1..][i];
  }

  lemma JoinHolds(parts: seq<string>)
    requires |parts| > 1
    ensures NUL in Join(parts)
  {
  }

  /** If the same text is more parts than these, the first of them arbitrary, then some
      of these parts can be cut with an acceptable piece on the right. */
  lemma {:induction false} MorePartsCutRight(parts: seq<string>, others: seq<string>, ok: string -> bool)
    requires AcceptsNul(ok) && 1 <= |parts| < |others| && AllOk(others[1..], ok) && Join(parts) == Join(others)
    ensures CutRight(parts, ok)
    decreases |parts|
  {
    var p, q := parts[0], others[0];
    if |parts| == 1 {
      var rest := Join(others[1..]);
      assert p == q + [NUL] + rest;
      if |others| == 2 {
        assert others[1..][0] == rest;
      } else {
        JoinHolds(others[1..]);
      }
      CutRightHere(parts, ok, q, rest);
    } else {
      MoreHeads(parts, others, ok);
    }
  }

  lemma {:induction false} MoreHeads(parts: seq<string>, others: seq<string>, ok: string -> bool)
    requires AcceptsNul(ok) && 2 <= |parts| < |others| && AllOk(others[1..], ok) && Join(parts) == Join(others)
    ensures CutRight(parts, ok)
    decreases |parts|, 1
  {
    var p, q := parts[0], others[0];
    var piece := HeadsCompare(p, Join(parts[1..]), q, Join(others[1..]));
    if |p| == |q| {
      OkLater(others, ok);
      MorePartsCutRight(parts[1..], others[1..], ok);
      CutRightLater(parts, ok);
    } else if |p| < |q| {
      JoinHead(piece, others[1..]);
      assert ([piece] + others[1..])[1..] == others[1..];
      MorePartsCutRight(parts[1..], [piece] + others[1..], ok);
      CutRightLater(parts, ok);
    } else {
      PieceMeets(parts, others, ok, q, piece);
    }
  }

  lemma OkLater(others: seq<string>, ok: string -> bool)
    requires |others| >= 2 && AllOk(others[1..], ok)
    ensures ok(others[1]) && AllOk(others[1..][1..], ok)
  {
    assert others[1..][0] == others[1];
  }

  lemma JoinHead(first: string, rest: seq<string>)
    requires rest != []
    ensures Join([first] + rest) == first + [NUL] + Join(rest)
  {
    assert ([first] + rest)[1..] == rest;
  }

  /** The piece past the seam is a whole part of the other list, holds a NUL itself, or
      ends inside the next part of the other list. */
  lemma {:induction false} PieceMeets(parts: seq<string>, others: seq<string>, ok: string -> bool, q: string,
                                      piece: string)
    requires AcceptsNul(ok) && 2 <= |parts| < |others| && AllOk(others[1..], ok)
    requires parts[0] == q + [NUL] + piece && Join(others[1..]) == piece + [NUL] + Join(parts[1..])
    ensures CutRight(parts, ok)
    decreases |parts|, 0
  {
    OkLater(others, ok);
    var o, tail := others[1], others[1..][1..];
    assert Join(others[1..]) == o + [NUL] + Join(tail);
    var further := HeadsCompare(piece, Join(parts[1..]), o, Join(tail));
    if |piece| < |o| {
      JoinHead(further, tail);
      assert ([further] + tail)[1..] == tail;
      MorePartsCutRight(parts[1..], [further] + tail, ok);
      CutRightLater(parts, ok);
    } else {
      if |piece| > |o| {
        assert NUL in piece;
      }
      CutRightHere(parts, ok, q, piece);
    }
  }

  lemma CutRightBehind(parts: seq<string>, ok: string -> bool)
    requires parts != [] && CutRight(parts[1..], ok)
    ensures Cuttable(parts, ok)
  {
    var rest := parts[1..];
    var i, at :| 0 <= i < |rest| && 0 <= at < |rest[i]| && rest[i][at] == NUL && ok(rest[i][at + 1..]);
    assert parts[i + 1] == parts[1..][i] && CutAt(parts, ok, i + 1, at);
  }

  lemma SingleIsItsJoin(parts: seq<string>, others: seq<string>)
    requires |parts| == |others| == 1
    ensures Join(parts) == Join(others) ==> parts == others
  {
    assert parts == [parts[0]] && others == [others[0]];
  }

  lemma {:induction false} SharedMeansCuttable(parts: seq<string>, others: seq<string>, ok: string -> bool)
    requires AcceptsNul(ok) && parts != [] && Shares(parts, others, ok)
    ensures Cuttable(parts, ok)
    decreases |parts|
  {
    if |parts| == 1 {
      SingleIsItsJoin(parts, others);
    } else {
      var p, q := parts[0], others[0];
      var piece := HeadsCompare(p, Join(parts[1..]), q, Join(others[1..]));
      if |p| > |q| {
        assert p[..|q|] == q && CutAt(parts, ok, 0, |q|);
      } else if |p| < |q| {
        JoinHead(piece, others[1..]);
        assert ([piece] + others[1..])[1..] == others[1..];
        MorePartsCutRight(parts[1..], [piece] + others[1..], ok);
        CutRightBehind(parts, ok);
      } else {
        assert parts == [p] + parts[1..] && others == [q] + others[1..];
        SharedMeansCuttable(parts[1..], others[1..], ok);
        var i, at :| 0 <= i < |parts[1..]| && 0 <= at < |parts[1..][i]| && CutAt(parts[1..], ok, i, at);
        CutLater(parts, ok, i, at);
      }
    }
  }

  /** An acceptable list shares its joined text with another exactly when some part can
      be cut. */
  lemma SharedIffCuttable(parts: seq<string>, ok: string -> bool)
    requires AcceptsNul(ok) && parts != [] && AllOk(parts, ok)
    ensures (exists others :: Shares(parts, others, ok)) <==> Cuttable(parts, ok)
  {
    if others :| Shares(parts, others, ok) {
      SharedMeansCuttable(parts, others, ok);
    } else if i, at :| 0 <= i < |parts| && 0 <= at < |parts[i]| && CutAt(parts, ok, i, at) {
      CutShares(parts, ok, i, at);
    }
  }

  /** Two NULs in one part are enough, wherever they are. */
  lemma TwoNulsCuttable(parts: seq<string>, ok: string -> bool, i: nat, first: nat, second: nat)
    requires AcceptsNul(ok) && |parts| >= 2 && i < |parts| && first < second < |parts[i]|
    requires parts[i][first] == NUL && parts[i][second] == NUL
    ensures Cuttable(parts, ok)
  {
    if i > 0 {
      assert parts[i][first + 1..][second - first - 1] == NUL;
      assert CutAt(parts, ok, i, first);
    } else {
      assert parts[i][..second][first] == NUL;
      assert CutAt(parts, ok, i, second);
    }
  }

  function NotBlank(): string -> bool {
    s => !Blank(s)
  }

  function NotEmpty(): string -> bool {
    s => s != ""
  }

  lemma NulIsAccepted()
    ensures AcceptsNul(NotBlank()) && AcceptsNul(NotEmpty())
  {
    assert !IsSpace(NUL);
  }

  /** A stream scope shares its key with another accepted scope exactly when some part
      can be cut at a NUL. */
  lemma StreamKeySharedIff(a: Scope)
    requires StreamKey(a).Some?
    ensures (exists b: Scope :: b != a && StreamKey(b) == StreamKey(a)) <==> Cuttable(a.Parts(), NotBlank())
  {
    NulIsAccepted();
    var parts := a.Parts();
    SharedIffCuttable(parts, NotBlank());
    forall b: Scope | b != a && StreamKey(b) == StreamKey(a)
      ensures Shares(parts, b.Parts(), NotBlank())
    {
      ScopeParts(a, b);
    }
    if others :| Shares(parts, others, NotBlank()) {
      var b := Scope(others[0], others[1], others[2], others[3]);
      assert b.Parts() == others;
      assert b != a && StreamKey(b) == StreamKey(a);
    }
  }

  lemma ScopeParts(a: Scope, b: Scope)
    ensures a.Parts() == b.Parts() <==> a == b
  {
    assert a.Parts()[0] == a.tenant && a.Parts()[1] == a.mission && a.Parts()[2] == a.buoy && a.Parts()[3] == a.capture;
    assert b.Parts()[0] == b.tenant && b.Parts()[1] == b.mission && b.Parts()[2] == b.buoy && b.Parts()[3] == b.capture;
  }

  function IdempotencyKeyOf(parts: seq<string>): Option<string>
    requires |parts| == 4
  {
    IdempotencyKey(parts[0], parts[1], parts[2], parts[3])
  }

  function CallbackKeyOf(parts: seq<string>): Option<string>
    requires |parts| == 4
  {
    CallbackKey(parts[0], parts[1], parts[2], parts[3])
  }

  /** The same for idempotency keys. */
  lemma IdempotencyKeySharedIff(a: seq<string>)
    requires |a| == 4 && IdempotencyKeyOf(a).Some?
    ensures (exists b: seq<string> :: |b| == 4 && b != a && IdempotencyKeyOf(b) == IdempotencyKeyOf(a))
            <==> Cuttable(a, NotBlank())
  {
    NulIsAccepted();
    assert a == [a[0], a[1], a[2], a[3]];
    SharedIffCuttable(a, NotBlank());
    forall b: seq<string> | |b| == 4
      ensures IdempotencyKeyOf(b) == if AllOk(b, NotBlank()) then Some(Join(b)) else None
    {
      assert b == [b[0], b[1], b[2], b[3]];
    }
    forall b: seq<string> | |b| == 4 && b != a && IdempotencyKeyOf(b) == IdempotencyKeyOf(a)
      ensures Shares(a, b, NotBlank())
    {
    }
    if others :| Shares(a, others, NotBlank()) {
      assert |others| == 4 && others != a && IdempotencyKeyOf(others) == IdempotencyKeyOf(a);
    }
  }

  /** The same for callback keys, whose parts need only be non-empty. */
  lemma CallbackKeySharedIff(a: seq<string>)
    requires |a| == 4 && CallbackKeyOf(a).Some?
    ensures (exists b: seq<string> :: |b| == 4 && b != a && CallbackKeyOf(b) == CallbackKeyOf(a))
            <==> Cuttable(a, NotEmpty())
  {
    NulIsAccepted();
    assert a == [a[0], a[1], a[2], a[3]];
    SharedIffCuttable(a, NotEmpty());
    forall b: seq<string> | |b| == 4
      ensures CallbackKeyOf(b) == if AllOk(b, NotEmpty()) then Some(Join(b)) else None
    {
      assert b == [b[0], b[1], b[2], b[3]];
    }
    forall b: seq<string> | |b| == 4 && b != a && CallbackKeyOf(b) == CallbackKeyOf(a)
      ensures Shares(a, b, NotEmpty())
    {
    }
    if others :| Shares(a, others, NotEmpty()) {
      assert |others| == 4 && others != a && CallbackKeyOf(others) == CallbackKeyOf(a);
    }
  }

  /** Holding a NUL is not enough: this scope shares its key with no other. */
  lemma NulWithoutSharing()
    ensures var a := Scope([NUL] + "a", "m", "b", "c");
            StreamKey(a).Some? && !exists b: Scope :: b != a && StreamKey(b) == StreamKey(a)
  {
    var a := Scope([NUL] + "a", "m", "b", "c");
    var parts := a.Parts();
    assert !IsSpace(NUL) && !IsSpace('a') && !IsSpace('m') && !IsSpace('b') && !IsSpace('c');
    assert NUL in parts[0] && 'm' in parts[1] && 'b' in parts[2] && 'c' in parts[3];
    forall i, at | 0 <= i < |parts| && 0 <= at < |parts[i]|
      ensures !CutAt(parts, NotBlank(), i, at)
    {
      assert parts[0][..0] == "" && Blank("");
    }
    StreamKeySharedIff(a);
  }
}
