/** The business codes the services take. */
module Codes {
  import opened Prelude
  import opened Transactions

  lemma {:induction false} TrimLeftCuts(s: string) returns (left: string)
    ensures Blank(left) && s == left + TrimLeft(s) && (TrimLeft(s) != "" ==> !IsSpace(TrimLeft(s)[0]))
    decreases |s|
  {
    left := "";
    if s != "" && IsSpace(s[0]) {
      var rest := TrimLeftCuts(s[1..]);
      left := [s[0]] + rest;
      assert s == [s[0]] + s[1..];
    }
  }

  lemma {:induction false} TrimRightCuts(s: string) returns (right: string)
    ensures Blank(right) && s == TrimRight(s) + right
    decreases |s|
  {
    right := "";
    if s != "" && IsSpace(s[|s| - 1]) {
      var rest := TrimRightCuts(s[..|s| - 1]);
      right := rest + [s[|s| - 1]];
    }
  }

  lemma {:induction false} LeftGoes(left: string, code: string)
    requires Blank(left) && code != "" && !IsSpace(code[0])
    ensures TrimLeft(left + code) == code
    decreases |left|
  {
    if left == "" {
      assert left + code == code;
    } else {
      assert left[0] in left && (left + code)[1..] == left[1..] + code;
      LeftGoes(left[1..], code);
    }
  }

  lemma {:induction false} RightGoes(code: string, right: string)
    requires Blank(right) && code != "" && !IsSpace(code[|code| - 1])
    ensures TrimRight(code + right) == code
    decreases |right|
  {
    if right == "" {
      assert code + right == code;
    } else {
      var n := |right| - 1;
      assert right[n] in right && (code + right)[..|code + right| - 1] == code + right[..n];
      RightGoes(code, right[..n]);
    }
  }

  /** A capital or digit, then two to 31 capitals, digits, underscores and hyphens. */
  predicate Coded(code: string) {
    && 3 <= |code| <= 32 && ('A' <= code[0] <= 'Z' || '0' <= code[0] <= '9')
    && forall i | 1 <= i < |code| ::
         'A' <= code[i] <= 'Z' || '0' <= code[i] <= '9' || code[i] == '_' || code[i] == '-'
  }

  ghost predicate Wraps(s: string, left: string, code: string, right: string) {
    s == left + code + right && Blank(left) && Blank(right)
  }

  lemma CodedIsValid(s: string, left: string, code: string, right: string)
    requires Wraps(s, left, code, right) && Coded(code)
    ensures TrimSpace(s) == code
  {
    hide TrimLeft, TrimRight, Blank;
    assert s == left + (code + right) && (code + right)[0] == code[0];
    LeftGoes(left, code + right);
    RightGoes(code, right);
  }

  lemma TrimmedWraps(s: string) returns (left: string, right: string)
    ensures Wraps(s, left, TrimSpace(s), right)
  {
    hide TrimLeft, TrimRight, Blank;
    left := TrimLeftCuts(s);
    right := TrimRightCuts(TrimLeft(s));
    assert s == left + (TrimSpace(s) + right);
  }

  /** A text passes exactly when it is a code with white space around it. */
  lemma ValidCodeIff(s: string)
    ensures ValidCode(s) <==> exists left, code, right :: Wraps(s, left, code, right) && Coded(code)
  {
    hide TrimSpace, Wraps;
    var left, right := TrimmedWraps(s);
    assert Coded(TrimSpace(s)) <==> ValidCode(s);
    if l, code, r :| Wraps(s, l, code, r) && Coded(code) {
      CodedIsValid(s, l, code, r);
    }
  }
}
