/** Windows of a listing, and what the windows at 0, L, 2L, ... give together. */
module Paging {
  import opened Prelude

  function Window<T>(s: seq<T>, start: nat, limit: nat): seq<T> {
    s[Min(start, |s|)..Min(start + limit, |s|)]
  }

  function Joined<T>(pages: seq<seq<T>>): seq<T> {
    if pages == [] then [] else Joined(pages[..|pages| - 1]) + pages[|pages| - 1]
  }

  /** Where page `i` starts: 0, L, 2L, ... */
  function PageStart(limit: nat, i: nat): nat {
    if i == 0 then 0 else PageStart(limit, i - 1) + limit
  }

  lemma {:induction false} PageStartIsProduct(limit: nat, i: nat)
    ensures PageStart(limit, i) == i * limit
  {
    if i > 0 {
      PageStartIsProduct(limit, i - 1);
    }
  }

  ghost predicate PageOf<T>(s: seq<T>, limit: nat, page: seq<T>, i: nat) {
    page == Window(s, PageStart(limit, i), limit)
  }

  lemma NextPage<T>(s: seq<T>, start: nat, limit: nat)
    ensures s[..Min(start, |s|)] + Window(s, start, limit) == s[..Min(start + limit, |s|)]
  {
  }

  ghost predicate ArePages<T>(s: seq<T>, limit: nat, pages: seq<seq<T>>) {
    forall i | 0 <= i < |pages| :: PageOf(s, limit, pages[i], i)
  }

  lemma PagesBeforeLast<T>(s: seq<T>, limit: nat, pages: seq<seq<T>>)
    requires ArePages(s, limit, pages) && pages != []
    ensures ArePages(s, limit, pages[..|pages| - 1])
    ensures PageOf(s, limit, pages[|pages| - 1], |pages| - 1)
  {
  }

  /** Consecutive pages join to the part of the listing they cover: nothing lost,
      nothing repeated. */
  lemma {:induction false} PagesJoin<T>(s: seq<T>, limit: nat, pages: seq<seq<T>>)
    requires ArePages(s, limit, pages)
    ensures Joined(pages) == s[..Min(PageStart(limit, |pages|), |s|)]
    decreases |pages|
  {
    if pages != [] {
      PagesBeforeLast(s, limit, pages);
      PagesJoin(s, limit, pages[..|pages| - 1]);
      NextPage(s, PageStart(limit, |pages| - 1), limit);
    }
  }
}
