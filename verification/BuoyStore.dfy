/** The in-memory buoy store: writes keyed by identity, and paged queries with the
    machine arithmetic of their bounds. */
module BuoyStore {
  import opened Ordering
  import opened Paging
  import opened Prelude

  datatype Buoy = Buoy(id: string, tenantID: string, buoyClass: string, currentVersion: string, previousVersion: string,
                       generation: int, quarantined: bool)

  datatype Query = Query(tenantID: string, buoyClass: string, limit: Int64, offset: Int64)

  datatype Page = Page(items: seq<Buoy>, total: nat)

  predicate Selected(query: Query, b: Buoy) {
    b.tenantID == query.tenantID && (query.buoyClass == "" || b.buoyClass == query.buoyClass)
  }

  predicate IDBefore(a: Buoy, b: Buoy) {
    StringBefore(a.id, b.id)
  }

  /** Every stored buoy sits under its own, non-empty identity. */
  ghost predicate KeyedByID(buoys: map<string, Buoy>) {
    forall k | k in buoys :: k != "" && buoys[k].id == k
  }

  /** `s` is exactly the selected buoys in strictly ascending identity. */
  ghost predicate Lists(buoys: map<string, Buoy>, query: Query, s: seq<Buoy>) {
    && Ascending(s, IDBefore)
    && (forall b :: b in s <==> b.id in buoys && buoys[b.id] == b && Selected(query, b))
  }

  function StartOf(query: Query, total: nat): nat {
    Min(if query.offset < 0 then 0 else query.offset, total)
  }

  function LimitOf(query: Query): nat {
    if query.limit <= 0 then 50 else query.limit
  }

  /** Whether the end of the page leaves the machine integer. */
  predicate Overflows(query: Query, total: nat) {
    StartOf(query, total) + LimitOf(query) > MAX_INT64
  }

  ghost predicate PageOfStore(buoys: map<string, Buoy>, query: Query, page: Page) {
    exists s :: Lists(buoys, query, s) && page == Page(Window(s, StartOf(query, |s|), LimitOf(query)), |s|)
  }

  /** The end of a page after wrapping: exact, or negative. */
  lemma WrappedEnd(start: nat, limit: nat)
    requires start <= MAX_INT64 && limit <= MAX_INT64
    ensures start + limit <= MAX_INT64 ==> Wrap(start + limit) == start + limit
    ensures start + limit > MAX_INT64 ==> Wrap(start + limit) < 0
  {
  }

  class Store {
    var buoys: map<string, Buoy>

    ghost predicate Valid()
      reads this
    {
      KeyedByID(buoys)
    }

    constructor ()
      ensures Valid() && buoys == map[]
    {
      buoys := map[];
    }

    method PutBuoy(buoy: Buoy) returns (ok: bool)
      requires Valid()
      modifies this
      ensures Valid()
      ensures ok <==> buoy.id != "" && buoy.tenantID != ""
      ensures buoys == if ok then old(buoys)[buoy.id := buoy] else old(buoys)
    {
      if buoy.id == "" || buoy.tenantID == "" {
        return false;
      }
      buoys := buoys[buoy.id := buoy];
      return true;
    }

    /** No page when slicing with the wrapped end would panic, which is exactly when
        the end overflows. */
    method QueryBuoys(query: Query) returns (page: Option<Page>)
      requires Valid()
      ensures page.Some? ==> PageOfStore(buoys, query, page.value)
      ensures forall s | Lists(buoys, query, s) :: page.None? <==> Overflows(query, |s|)
      ensures exists s :: Lists(buoys, query, s)
    {
      hide Wrap, Lists;
      var filtered := Filtered(query);
      var sorted := SortFunc(filtered);
      SortedSelectionLists(buoys, query, filtered, sorted);
      forall s | Lists(buoys, query, s)
        ensures s == sorted
      {
        ListingUnique(buoys, query, s, sorted);
      }
      var total := |sorted|;
      var start: Int64 := Min(if query.offset < 0 then 0 else query.offset, total);
      var limit := query.limit;
      if limit <= 0 {
        limit := 50;
      }
      WrappedEnd(start, limit);
      var end := Min(Wrap(start + limit), total);
      if end < start {
        return None;
      }
      return Some(Page(sorted[start..end], total));
    }

    /** The selected buoys once each, in whatever order the map gives them. */
    method Filtered(query: Query) returns (filtered: seq<Buoy>)
      requires Valid()
      ensures forall b :: b in filtered <==> b.id in buoys && buoys[b.id] == b && Selected(query, b)
      ensures forall i, k | 0 <= i < k < |filtered| :: filtered[i].id != filtered[k].id
    {
      filtered := [];
      var left := buoys.Keys;
      while left != {}
        invariant left <= buoys.Keys
        invariant forall b :: b in filtered <==> b.id in buoys.Keys - left && buoys[b.id] == b && Selected(query, b)
        invariant forall i, k | 0 <= i < k < |filtered| :: filtered[i].id != filtered[k].id
        decreases |left|
      {
        var id :| id in left;
        left := left - {id};
        if Selected(query, buoys[id]) {
          assert forall i | 0 <= i < |filtered| :: filtered[i] in filtered;
          filtered := filtered + [buoys[id]];
        }
      }
    }
  }

  /** A sort that promises order and contents but not stability. */
  method SortFunc(s: seq<Buoy>) returns (r: seq<Buoy>)
    ensures Sorted(r, IDBefore) && multiset(r) == multiset(s)
  {
    StringOrder();
    r := StableSort(s, IDBefore);
  }

  lemma DistinctStaysDistinct(s: seq<Buoy>, r: seq<Buoy>, i: nat, k: nat)
    requires multiset(r) == multiset(s) && i < k < |r|
    requires forall i, k | 0 <= i < k < |s| :: s[i].id != s[k].id
    ensures r[i].id != r[k].id
  {
    assert r[i] in multiset(r) && r[k] in multiset(r);
    var p :| 0 <= p < |s| && s[p] == r[i];
    var q :| 0 <= q < |s| && s[q] == r[k];
    if p == q {
      RepeatCountsTwice(r, i, k);
      CountsOnce(s, p);
    }
  }

  lemma CountsOnce(s: seq<Buoy>, p: nat)
    requires p < |s| && forall i, k | 0 <= i < k < |s| :: s[i].id != s[k].id
    ensures multiset(s)[s[p]] == 1
  {
    assert s == s[..p] + [s[p]] + s[p + 1..];
    assert s[p] !in s[..p] && s[p] !in s[p + 1..];
  }

  lemma SortedSelectionLists(buoys: map<string, Buoy>, query: Query, s: seq<Buoy>, r: seq<Buoy>)
    requires forall i, k | 0 <= i < k < |s| :: s[i].id != s[k].id
    requires forall b :: b in s <==> b.id in buoys && buoys[b.id] == b && Selected(query, b)
    requires Sorted(r, IDBefore) && multiset(r) == multiset(s)
    ensures Lists(buoys, query, r)
  {
    forall i, k | 0 <= i < k < |r|
      ensures IDBefore(r[i], r[k])
    {
      DistinctStaysDistinct(s, r, i, k);
      StringBeforeTransitive(r[i].id, r[k].id, "");
    }
    assert forall b :: b in r <==> b in multiset(r);
  }

  lemma ListingUnique(buoys: map<string, Buoy>, query: Query, a: seq<Buoy>, b: seq<Buoy>)
    requires Lists(buoys, query, a) && Lists(buoys, query, b)
    ensures a == b
  {
    StringOrder();
    AscendingUnique(a, b, IDBefore);
  }

  lemma {:induction false} IDsCount(s: seq<Buoy>, ids: set<string>)
    requires forall i, k | 0 <= i < k < |s| :: s[i].id != s[k].id
    requires forall k :: k in ids <==> exists i :: 0 <= i < |s| && s[i].id == k
    ensures |ids| == |s|
    decreases |s|
  {
    if s == [] {
      assert ids == {};
    } else {
      var n := |s| - 1;
      assert s[n].id in ids;
      forall k
        ensures k in ids - {s[n].id} <==> exists i :: 0 <= i < n && s[..n][i].id == k
      {
        if i :| 0 <= i < |s| && s[i].id == k && k != s[n].id {
          assert s[..n][i].id == k;
        }
      }
      IDsCount(s[..n], ids - {s[n].id});
    }
  }

  /** The identities a query selects. */
  function SelectedIDs(buoys: map<string, Buoy>, query: Query): set<string> {
    set k | k in buoys && buoys[k].tenantID == query.tenantID
            && (query.buoyClass == "" || buoys[k].buoyClass == query.buoyClass)
  }

  ghost predicate AscendingIDs(s: seq<Buoy>) {
    forall i, k | 0 <= i < k < |s| :: StringBefore(s[i].id, s[k].id)
  }

  lemma ListingIDs(buoys: map<string, Buoy>, query: Query, s: seq<Buoy>)
    requires KeyedByID(buoys) && Lists(buoys, query, s)
    ensures AscendingIDs(s)
    ensures |SelectedIDs(buoys, query)| == |s|
  {
    forall i, k | 0 <= i < k < |s|
      ensures StringBefore(s[i].id, s[k].id) && s[i].id != s[k].id
    {
      assert IDBefore(s[i], s[k]);
      StringBeforeTransitive(s[i].id, s[k].id, "");
    }
    forall id
      ensures id in SelectedIDs(buoys, query) <==> exists i :: 0 <= i < |s| && s[i].id == id
    {
      if id in SelectedIDs(buoys, query) {
        assert buoys[id] in s;
      }
      if i :| 0 <= i < |s| && s[i].id == id {
        assert s[i] in s;
      }
    }
    IDsCount(s, SelectedIDs(buoys, query));
  }

  lemma WindowKeepsOrder(s: seq<Buoy>, start: nat, limit: nat)
    requires AscendingIDs(s)
    ensures AscendingIDs(Window(s, start, limit)) && forall b | b in Window(s, start, limit) :: b in s
  {
    hide StringBefore;
    var from := Min(start, |s|);
    forall i, k | 0 <= i < k < |Window(s, start, limit)|
      ensures StringBefore(Window(s, start, limit)[i].id, Window(s, start, limit)[k].id)
    {
      assert StringBefore(s[from + i].id, s[from + k].id);
    }
  }

  /** A page counts the tenant's buoys of the class asked for, any class if none is, and shows
      some of them by strictly ascending identity. */
  lemma PageShowsSelected(buoys: map<string, Buoy>, query: Query, page: Page)
    requires KeyedByID(buoys) && PageOfStore(buoys, query, page)
    ensures forall b | b in page.items :: b.id in SelectedIDs(buoys, query) && buoys[b.id] == b
    ensures AscendingIDs(page.items)
    ensures page.total == |SelectedIDs(buoys, query)|
  {
    hide Window, IDBefore, AscendingIDs;
    var s: seq<Buoy> :| Lists(buoys, query, s) && page == Page(Window(s, StartOf(query, |s|), LimitOf(query)), |s|);
    ListingIDs(buoys, query, s);
    WindowKeepsOrder(s, StartOf(query, |s|), LimitOf(query));
  }

  /** No positive limit means 50, a negative offset 0. */
  lemma OutOfRangeQuery(buoys: map<string, Buoy>, query: Query, page: Page)
    ensures query.limit <= 0 ==>
              (PageOfStore(buoys, query, page) <==> PageOfStore(buoys, query.(limit := 50), page))
    ensures query.offset < 0 ==>
              (PageOfStore(buoys, query, page) <==> PageOfStore(buoys, query.(offset := 0), page))
  {
    assert forall s :: Lists(buoys, query.(limit := 50), s) <==> Lists(buoys, query, s);
    assert forall s :: Lists(buoys, query.(offset := 0), s) <==> Lists(buoys, query, s);
  }

  /** One stored buoy, the largest limit and offset 1: the end of the page overflows. */
  lemma LargestLimitOverflows()
    ensures var b := Buoy("a", "t", "", "", "", 0, false);
            var query := Query("t", "", MAX_INT64, 1);
            Lists(map["a" := b], query, [b]) && Overflows(query, 1)
  {
    var b := Buoy("a", "t", "", "", "", 0, false);
    assert [b][0] == b;
  }

  /** A page is a function of the contents and the query alone, whatever order the
      map is walked in and however the sort treats ties. */
  lemma PageUnique(buoys: map<string, Buoy>, query: Query, a: Page, b: Page)
    requires PageOfStore(buoys, query, a) && PageOfStore(buoys, query, b)
    ensures a == b
  {
    var s :| Lists(buoys, query, s) && a == Page(Window(s, StartOf(query, |s|), LimitOf(query)), |s|);
    var t :| Lists(buoys, query, t) && b == Page(Window(t, StartOf(query, |t|), LimitOf(query)), |t|);
    ListingUnique(buoys, query, s, t);
  }

  ghost predicate PageNumber(buoys: map<string, Buoy>, query: Query, page: Page, i: nat) {
    query.limit > 0 && PageStart(query.limit, i) <= MAX_INT64
    && PageOfStore(buoys, query.(offset := PageStart(query.limit, i)), page)
  }

  function Items(pages: seq<Page>): (items: seq<seq<Buoy>>)
    ensures |items| == |pages| && forall i | 0 <= i < |pages| :: items[i] == pages[i].items
  {
    seq(|pages|, i requires 0 <= i < |pages| => pages[i].items)
  }

  /** Pages at offsets 0, L, 2L, ... joined give every selected buoy once, in order. */
  lemma PagesGiveWhole(buoys: map<string, Buoy>, query: Query, s: seq<Buoy>, pages: seq<Page>)
    requires Lists(buoys, query, s) && query.limit > 0
    requires forall i | 0 <= i < |pages| :: PageNumber(buoys, query, pages[i], i)
    ensures Joined(Items(pages)) == s[..Min(PageStart(query.limit, |pages|), |s|)]
    ensures PageStart(query.limit, |pages|) >= |s| ==> Joined(Items(pages)) == s
  {
    forall i | 0 <= i < |pages|
      ensures PageOf(s, query.limit, Items(pages)[i], i)
    {
      assert PageNumber(buoys, query, pages[i], i);
      PageAt(buoys, query, PageStart(query.limit, i), s, pages[i]);
    }
    PagesJoin(s, query.limit, Items(pages));
  }

  lemma PageAt(buoys: map<string, Buoy>, query: Query, start: Int64, s: seq<Buoy>, page: Page)
    requires Lists(buoys, query, s) && query.limit > 0 && start >= 0
    requires PageOfStore(buoys, query.(offset := start), page)
    ensures page.items == Window(s, start, query.limit)
  {
    var at := query.(offset := start);
    var t :| Lists(buoys, at, t) && page == Page(Window(t, StartOf(at, |t|), LimitOf(at)), |t|);
    ListingUnique(buoys, query, s, t);
  }
}
