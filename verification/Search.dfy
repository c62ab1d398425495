/** In-memory search over recovery jobs: filter, stable sort, one window. */
module Search {
  import opened Ordering
  import opened Paging
  import opened Prelude

  datatype Job = Job(id: string, missionID: string, taskCode: string, status: string, expiresAt: int)

  datatype Filter = Filter(missionID: string, status: string, search: string)

  datatype Request = Request(filter: Filter, sort: string, desc: bool, offset: int, limit: int)

  /** The text functions of the standard library, left uninterpreted. */
  datatype Text = Text(lower: string -> string, trim: string -> string)

  const SORT_CREATED := "created_at"
  const SORT_EXPIRY := "expires_at"
  const SORT_CODE := "task_code"

  function NormalizeFilter(text: Text, f: Filter): Filter {
    Filter(text.trim(f.missionID), f.status, text.trim(text.lower(f.search)))
  }

  function Normalize(text: Text, r: Request): (n: Request)
    ensures n.offset >= 0 && 1 <= n.limit <= 100 && n.sort != ""
    ensures r.offset >= 0 && 1 <= r.limit <= 100 && r.sort != "" ==> n == r.(filter := n.filter)
  {
    Request(NormalizeFilter(text, r.filter), if r.sort == "" then SORT_CREATED else r.sort, r.desc,
            if r.offset < 0 then 0 else r.offset, if r.limit < 1 || r.limit > 100 then 50 else r.limit)
  }

  predicate Contains(text: string, part: string) {
    exists i | 0 <= i <= |text| :: part <= text[i..]
  }

  predicate Matches(text: Text, filter: Filter, job: Job) {
    var f := NormalizeFilter(text, filter);
    && (f.missionID == "" || job.missionID == f.missionID)
    && (f.status == "" || job.status == f.status)
    && (f.search == "" || Contains(text.lower(job.taskCode), f.search))
  }

  function Matching(text: Text, filter: Filter, items: seq<Job>): seq<Job> {
    if items == [] then []
    else
      var last := items[|items| - 1];
      Matching(text, filter, items[..|items| - 1]) + (if Matches(text, filter, last) then [last] else [])
  }

  /** Ascending by the chosen field; an unknown field sorts by ID. */
  predicate FieldBefore(text: Text, sort: string, a: Job, b: Job) {
    if sort == SORT_EXPIRY then a.expiresAt < b.expiresAt
    else if sort == SORT_CODE then StringBefore(text.lower(a.taskCode), text.lower(b.taskCode))
    else StringBefore(a.id, b.id)
  }

  function Before(text: Text, sort: string, desc: bool): (Job, Job) -> bool {
    (a: Job, b: Job) => if desc then FieldBefore(text, sort, b, a) else FieldBefore(text, sort, a, b)
  }

  lemma FieldOrder(text: Text, sort: string, a: Job, b: Job, c: Job)
    ensures !FieldBefore(text, sort, a, a)
    ensures FieldBefore(text, sort, a, b) && FieldBefore(text, sort, b, c) ==> FieldBefore(text, sort, a, c)
    ensures !FieldBefore(text, sort, a, b) && !FieldBefore(text, sort, b, c) ==> !FieldBefore(text, sort, a, c)
  {
    StringOrder();
  }

  lemma BeforeIsStrictWeak(text: Text, sort: string, desc: bool)
    ensures StrictWeak(Before(text, sort, desc))
  {
    forall a, b, c
      ensures !Before(text, sort, desc)(a, a)
      ensures Before(text, sort, desc)(a, b) && Before(text, sort, desc)(b, c) ==> Before(text, sort, desc)(a, c)
      ensures !Before(text, sort, desc)(a, b) && !Before(text, sort, desc)(b, c) ==> !Before(text, sort, desc)(a, c)
    {
      FieldOrder(text, sort, a, b, c);
      FieldOrder(text, sort, c, b, a);
    }
  }

  /** `s` lists the jobs the request asks for, all of them, in the order it asks for. */
  ghost predicate Lists(text: Text, items: seq<Job>, request: Request, s: seq<Job>) {
    var r := Normalize(text, request);
    StableSortOf(s, Matching(text, r.filter, items), Before(text, r.sort, r.desc))
  }

  /** `answer` is the window of that listing the request asks for. */
  ghost predicate Answers(text: Text, items: seq<Job>, request: Request, answer: seq<Job>) {
    var r := Normalize(text, request);
    exists s :: Lists(text, items, request, s) && answer == Window(s, r.offset, r.limit)
  }

  method SearchRecoveryJobs(text: Text, items: seq<Job>, request: Request) returns (answer: seq<Job>)
    ensures Answers(text, items, request, answer)
  {
    var r := Normalize(text, request);
    var filtered: seq<Job> := [];
    for i := 0 to |items|
      invariant filtered == Matching(text, r.filter, items[..i])
    {
      assert items[..i + 1][..i] == items[..i];
      if Matches(text, r.filter, items[i]) {
        filtered := filtered + [items[i]];
      }
    }
    assert items[..|items|] == items;
    BeforeIsStrictWeak(text, r.sort, r.desc);
    var sorted := StableSort(filtered, Before(text, r.sort, r.desc));
    var start := r.offset;
    if start > |sorted| {
      start := |sorted|;
    }
    var end := start + r.limit;
    if end > |sorted| {
      end := |sorted|;
    }
    assert Lists(text, items, request, sorted);
    return sorted[start..end];
  }

  /** What a filter asks of a job, field by field. */
  predicate Wanted(text: Text, f: Filter, job: Job) {
    && (text.trim(f.missionID) == "" || text.trim(f.missionID) == job.missionID)
    && (f.status == "" || f.status == job.status)
    && (text.trim(text.lower(f.search)) == ""
        || exists i | 0 <= i <= |text.lower(job.taskCode)| ::
             text.trim(text.lower(f.search)) <= text.lower(job.taskCode)[i..])
  }

  lemma {:induction false} MatchingCounts(text: Text, f: Filter, items: seq<Job>, job: Job)
    ensures multiset(Matching(text, f, items))[job] == if Matches(text, f, job) then multiset(items)[job] else 0
    decreases |items|
  {
    if items != [] {
      var n := |items| - 1;
      assert items == items[..n] + [items[n]];
      MatchingCounts(text, f, items[..n], job);
    }
  }

  /** Trimming and lower-casing twice is doing so once. */
  ghost predicate Settles(text: Text) {
    && (forall s :: text.trim(text.trim(s)) == text.trim(s))
    && (forall s :: text.trim(text.lower(text.trim(text.lower(s)))) == text.trim(text.lower(s)))
  }

  /** A listing holds each item exactly as often as the items do if the filter wants it, and
      not at all if it does not. */
  lemma ListsWanted(text: Text, items: seq<Job>, request: Request, s: seq<Job>, job: Job)
    requires Settles(text) && Lists(text, items, request, s)
    ensures multiset(s)[job] == if Wanted(text, request.filter, job) then multiset(items)[job] else 0
  {
    var f := Normalize(text, request).filter;
    MatchingCounts(text, f, items, job);
    assert NormalizeFilter(text, f) == f;
  }

  /** It runs by expiry, by code or by ID, up or down as asked. */
  lemma ListsInOrder(text: Text, items: seq<Job>, request: Request, s: seq<Job>, i: nat, k: nat)
    requires Lists(text, items, request, s) && i < k < |s|
    ensures var (low, high) := if request.desc then (s[k], s[i]) else (s[i], s[k]);
            if request.sort == "expires_at" then low.expiresAt <= high.expiresAt
            else if request.sort == "task_code" then !StringBefore(text.lower(high.taskCode), text.lower(low.taskCode))
            else !StringBefore(high.id, low.id)
  {
    var r := Normalize(text, request);
    assert !Before(text, r.sort, r.desc)(s[k], s[i]);
  }

  /** A limit outside 1 to 100 means 50, a negative offset 0. */
  lemma OutOfRangeRequest(text: Text, items: seq<Job>, request: Request, answer: seq<Job>)
    ensures request.limit < 1 || request.limit > 100 ==>
              (Answers(text, items, request, answer) <==> Answers(text, items, request.(limit := 50), answer))
    ensures request.offset < 0 ==>
              (Answers(text, items, request, answer) <==> Answers(text, items, request.(offset := 0), answer))
  {
    var limited, shifted := request.(limit := 50), request.(offset := 0);
    if request.limit < 1 || request.limit > 100 {
      assert Normalize(text, limited) == Normalize(text, request);
      assert forall s :: Lists(text, items, limited, s) <==> Lists(text, items, request, s);
    }
    if request.offset < 0 {
      assert Normalize(text, shifted) == Normalize(text, request);
      assert forall s :: Lists(text, items, shifted, s) <==> Lists(text, items, request, s);
    }
  }

  /** The listing, and so every answer, is determined by the items and the request. */
  lemma ListingUnique(text: Text, items: seq<Job>, request: Request, a: seq<Job>, b: seq<Job>)
    requires Lists(text, items, request, a) && Lists(text, items, request, b)
    ensures a == b
  {
    var r := Normalize(text, request);
    BeforeIsStrictWeak(text, r.sort, r.desc);
    StableSortUnique(a, b, Before(text, r.sort, r.desc));
  }

  lemma AnswerUnique(text: Text, items: seq<Job>, request: Request, a: seq<Job>, b: seq<Job>)
    requires Answers(text, items, request, a) && Answers(text, items, request, b)
    ensures a == b
  {
    var r := Normalize(text, request);
    var s :| Lists(text, items, request, s) && a == Window(s, r.offset, r.limit);
    var t :| Lists(text, items, request, t) && b == Window(t, r.offset, r.limit);
    ListingUnique(text, items, request, s, t);
  }

  lemma WindowOfListing(text: Text, items: seq<Job>, request: Request, s: seq<Job>, answer: seq<Job>)
    requires Lists(text, items, request, s) && Answers(text, items, request, answer)
    ensures var r := Normalize(text, request); answer == Window(s, r.offset, r.limit)
  {
    var r := Normalize(text, request);
    var t :| Lists(text, items, request, t) && answer == Window(t, r.offset, r.limit);
    ListingUnique(text, items, request, s, t);
  }

  lemma AnswerAt(text: Text, items: seq<Job>, request: Request, start: nat, s: seq<Job>, page: seq<Job>)
    requires 1 <= request.limit <= 100 && Lists(text, items, request, s)
    requires Answers(text, items, request.(offset := start), page)
    ensures page == Window(s, start, request.limit)
  {
    WindowOfListing(text, items, request.(offset := start), s, page);
  }

  ghost predicate PageAnswer(text: Text, items: seq<Job>, request: Request, page: seq<Job>, i: nat) {
    request.limit >= 0 && Answers(text, items, request.(offset := PageStart(request.limit, i)), page)
  }

  lemma AnswerIsPage(text: Text, items: seq<Job>, request: Request, s: seq<Job>, page: seq<Job>, i: nat)
    requires 1 <= request.limit <= 100 && Lists(text, items, request, s) && PageAnswer(text, items, request, page, i)
    ensures PageOf(s, request.limit, page, i)
  {
    AnswerAt(text, items, request, PageStart(request.limit, i), s, page);
  }

  lemma AnswersArePages(text: Text, items: seq<Job>, request: Request, s: seq<Job>, pages: seq<seq<Job>>)
    requires 1 <= request.limit <= 100 && Lists(text, items, request, s)
    requires forall i | 0 <= i < |pages| :: PageAnswer(text, items, request, pages[i], i)
    ensures ArePages(s, request.limit, pages)
  {
    hide Lists, PageAnswer, PageOf;
    forall i | 0 <= i < |pages|
      ensures PageOf(s, request.limit, pages[i], i)
    {
      AnswerIsPage(text, items, request, s, pages[i], i);
    }
  }

  /** Answers at offsets 0, L, 2L, ... joined: the whole listing once they reach its
      end, with nothing lost and nothing twice. */
  lemma PagesGiveWhole(text: Text, items: seq<Job>, request: Request, s: seq<Job>, pages: seq<seq<Job>>)
    requires 1 <= request.limit <= 100 && Lists(text, items, request, s)
    requires forall i | 0 <= i < |pages| :: PageAnswer(text, items, request, pages[i], i)
    ensures Joined(pages) == s[..Min(PageStart(request.limit, |pages|), |s|)]
    ensures PageStart(request.limit, |pages|) >= |s| ==> Joined(pages) == s
  {
    hide Lists, PageAnswer, PageOf;
    AnswersArePages(text, items, request, s, pages);
    PagesJoin(s, request.limit, pages);
  }
}
