/**
 * The shops page (pages/shops/index.tsx): the page state with its default
 * filters, the handlers that change it, the query it sends, and the list it
 * shows: the fetched shops filtered on `is_active` and sorted on a copy by
 * the chosen column.
 *
 * `localeCompare` depends on the locale and is a parameter `lc`.
 */
module ShopsPage {
  import opened Wrappers
  import opened Js
  import opened ShopsFilter
  import Sorting

  const DEFAULT_FILTERS: FilterValues := FilterValues(Undefined, "created_at", Desc, 10)

  datatype PageState = PageState(searchTerm: string, page: int, filters: FilterValues)

  const INITIAL_STATE: PageState := PageState("", 1, DEFAULT_FILTERS)

  function HandleSearch(st: PageState, searchText: string): (r: PageState)
    ensures r.page == 1 && r.searchTerm == searchText && r.filters == st.filters
  {
    st.(searchTerm := searchText, page := 1)
  }

  function HandlePagination(st: PageState, current: int): (r: PageState)
    ensures r.page == current && r.searchTerm == st.searchTerm && r.filters == st.filters
  {
    st.(page := current)
  }

  function HandleFilterChange(st: PageState, newFilters: FilterValues): (r: PageState)
    ensures r.page == 1 && r.filters == newFilters && r.searchTerm == st.searchTerm
  {
    st.(filters := newFilters, page := 1)
  }

  function HandleFilterReset(st: PageState): (r: PageState)
    ensures r.page == 1 && r.searchTerm == st.searchTerm
    ensures r.filters.isActive == Undefined && r.filters.orderBy == "created_at" && r.filters.sortedBy == Desc &&
            r.filters.limit == 10
  {
    st.(filters := DEFAULT_FILTERS, page := 1)
  }

  /** Whatever the filters were changed to, a reset gives the same state as
      a fresh page with the same search. */
  lemma ResetForgetsFilterChanges(st: PageState, f: FilterValues)
    ensures HandleFilterReset(HandleFilterChange(st, f)) == HandleFilterReset(st)
    ensures HandleFilterReset(st) == INITIAL_STATE.(searchTerm := st.searchTerm)
  {
  }

  function OrderString(o: SortOrder): string
  {
    match o
    case Asc => "asc"
    case Desc => "desc"
  }

  /** The parameters passed to the shops query (lines 32-40): `is_active`
      only for a boolean status. */
  function QueryParams(st: PageState): (r: map<string, Json>)
    ensures "is_active" in r <==> st.filters.isActive.Is?
    ensures "is_active" in r ==> r["is_active"] == JBool(st.filters.isActive.b)
    ensures Field(r, "name") == Some(JStr(st.searchTerm)) && Field(r, "page") == Some(JNum(st.page))
  {
    var base := map["name" := JStr(st.searchTerm), "limit" := JNum(st.filters.limit), "page" := JNum(st.page),
                    "orderBy" := JStr(st.filters.orderBy), "sortedBy" := JStr(OrderString(st.filters.sortedBy))];
    if st.filters.isActive.Is? then base["is_active" := JBool(st.filters.isActive.b)] else base
  }

  /* ---------------------------------------------------------------- */
  /* The shown list                                                   */
  /* ---------------------------------------------------------------- */

  /** `Boolean(s.is_active) === isActive`. */
  predicate ActiveIs(s: Json, b: bool)
  {
    Truthy(Get(Some(s), "is_active")) == b
  }

  /** The `is_active` filter; `undefined` and `null` keep every shop. */
  function ActiveFilter(list: seq<Json>, status: Status): (r: seq<Json>)
    ensures |r| <= |list|
  {
    if !status.Is? || |list| == 0 then list
    else (if ActiveIs(list[0], status.b) then [list[0]] else []) + ActiveFilter(list[1..], status)
  }

  function Direction(o: SortOrder): int
  {
    if o == Asc then 1 else -1
  }

  /** The comparator (lines 51-62). A `NaN` difference counts as equal, as
      `sort` treats it. */
  function CompareShops(a: Json, b: Json, col: string, dir: int, lc: (string, string) -> int): int
  {
    var av := Get(Some(a), col);
    var bv := Get(Some(b), col);
    if Nullish(av) && Nullish(bv) then 0
    else if Nullish(av) then dir
    else if Nullish(bv) then -dir
    else if av.value.JStr? && bv.value.JStr? then dir * lc(av.value.s, bv.value.s)
    else if av.value.JNum? && bv.value.JNum? then dir * (av.value.n - bv.value.n)
    else 0
  }

  function ShopOrder(col: string, o: SortOrder, lc: (string, string) -> int): (Json, Json) -> int
  {
    (a: Json, b: Json) => CompareShops(a, b, col, Direction(o), lc)
  }

  /** The `shops` memo: the list the page shows. */
  function VisibleShops(rawShops: Option<seq<Json>>, f: FilterValues, lc: (string, string) -> int): seq<Json>
  {
    Sorting.Sort(ShopOrder(f.orderBy, f.sortedBy, lc), ActiveFilter(rawShops.GetOr([]), f.isActive))
  }

  /** What the filter and the sort do to a `null` entry. */
  lemma ShownShopsFacts(list: seq<Json>, f: FilterValues, lc: (string, string) -> int)
    ensures !f.isActive.Is? ==> ActiveFilter(list, f.isActive) == list
    ensures JNull in ActiveFilter(list, f.isActive) ==> JNull in list
    ensures var kept := ActiveFilter(list, f.isActive);
            var sorted := Sorting.Sort(ShopOrder(f.orderBy, f.sortedBy, lc), kept);
            && multiset(sorted) == multiset(kept)
            && (JNull in sorted ==> JNull in kept)
            && (JNull in sorted && |kept| < 2 ==> sorted == [JNull])
  {
    var kept := ActiveFilter(list, f.isActive);
    ActiveFilterKeepsExactly(list, f.isActive, JNull);
    var sorted := Sorting.Sort(ShopOrder(f.orderBy, f.sortedBy, lc), kept);
    Sorting.SortPermutes(ShopOrder(f.orderBy, f.sortedBy, lc), kept);
    if JNull in sorted {
      assert JNull in multiset(kept);
    }
    if JNull in sorted && |kept| < 2 {
      assert JNull in multiset(sorted);
      assert |sorted| == |multiset(sorted)| == |kept|;
      assert sorted == [sorted[0]];
    }
  }

  /** The `shops` memo as the page evaluates it, with its throw: reading
      `is_active` or a column of a `null` entry throws. The filter reads
      every entry; the sort compares every entry once the list holds two or
      more, and none when it holds one. */
  function ShownShops(rawShops: Option<seq<Json>>, f: FilterValues, lc: (string, string) -> int): (r: Result<seq<Json>>)
    ensures var list := rawShops.GetOr([]);
            r.TypeError? <==> JNull in list && (f.isActive.Is? || |list| >= 2)
    ensures r.Ok? ==> multiset(r.value) == multiset(ActiveFilter(rawShops.GetOr([]), f.isActive))
    ensures r.Ok? && JNull in r.value ==> r.value == [JNull]
  {
    var list := rawShops.GetOr([]);
    if f.isActive.Is? && JNull in list then TypeError
    else
      var kept := ActiveFilter(list, f.isActive);
      ShownShopsFacts(list, f, lc);
      if |kept| >= 2 && JNull in kept then TypeError
      else Ok(VisibleShops(rawShops, f, lc))
  }

  /* ---------------------------------------------------------------- */
  /* Properties                                                       */
  /* ---------------------------------------------------------------- */

  /** With a boolean status exactly the shops whose `is_active` reads as it
      are kept, in order; without one nothing is filtered. */
  lemma {:induction false} ActiveFilterKeepsExactly(list: seq<Json>, status: Status, s: Json)
    ensures !status.Is? ==> ActiveFilter(list, status) == list
    ensures status.Is? ==> (s in ActiveFilter(list, status) <==> s in list && ActiveIs(s, status.b))
  {
    if status.Is? && |list| > 0 {
      ActiveFilterKeepsExactly(list[1..], status, s);
      assert list == [list[0]] + list[1..];
    }
  }

  /** The shown list is a reordering of the filtered list: sorting a copy
      neither drops nor duplicates a shop. */
  lemma VisibleIsPermutation(rawShops: Option<seq<Json>>, f: FilterValues, lc: (string, string) -> int)
    ensures multiset(VisibleShops(rawShops, f, lc)) == multiset(ActiveFilter(rawShops.GetOr([]), f.isActive))
  {
    Sorting.SortPermutes(ShopOrder(f.orderBy, f.sortedBy, lc), ActiveFilter(rawShops.GetOr([]), f.isActive));
  }

  /** Two missing keys compare equal; a missing key sorts after a present
      one in ascending order and before it in descending order. */
  lemma NullKeysOrdering(a: Json, b: Json, col: string, lc: (string, string) -> int)
    requires Nullish(Get(Some(a), col))
    ensures Nullish(Get(Some(b), col)) ==> ShopOrder(col, Asc, lc)(a, b) == 0 && ShopOrder(col, Desc, lc)(a, b) == 0
    ensures !Nullish(Get(Some(b), col)) ==>
              ShopOrder(col, Asc, lc)(a, b) > 0 && ShopOrder(col, Asc, lc)(b, a) < 0 &&
              ShopOrder(col, Desc, lc)(a, b) < 0 && ShopOrder(col, Desc, lc)(b, a) > 0
  {
  }

  /** Numbers compare by their difference in the chosen direction; any
      other pair of present keys that are not both strings compare equal: a
      string against a number either way round, booleans, objects and
      arrays, and `NaN` against a number, whose `NaN` difference the sort
      reads as zero. */
  lemma MixedKeysCompareEqual(a: Json, b: Json, col: string, o: SortOrder, lc: (string, string) -> int)
    requires Get(Some(a), col).Some? && Get(Some(b), col).Some?
    ensures Get(Some(a), col).value.JNum? && Get(Some(b), col).value.JNum? ==>
              ShopOrder(col, o, lc)(a, b) == Direction(o) * (Get(Some(a), col).value.n - Get(Some(b), col).value.n)
    ensures var av, bv := Get(Some(a), col).value, Get(Some(b), col).value;
      av != JNull && bv != JNull && !(av.JStr? && bv.JStr?) && !(av.JNum? && bv.JNum?) ==>
        ShopOrder(col, o, lc)(a, b) == 0
  {
  }

  /** A column whose values are numbers or missing. */
  predicate NumericKey(s: Json, col: string)
  {
    var v := Get(Some(s), col);
    Nullish(v) || v.value.JNum?
  }

  lemma NumericOrderIsPreorder(col: string, o: SortOrder, lc: (string, string) -> int, s: set<Json>)
    requires forall x :: x in s ==> NumericKey(x, col)
    ensures Sorting.TotalPreorderOn(ShopOrder(col, o, lc), s)
  {
  }

  /** Two numeric keys in the order the page shows them: ascending puts the
      numbers in increasing order and the missing keys last, descending
      puts the missing keys first and the numbers in decreasing order. */
  predicate NumericInOrder(x: Json, y: Json, col: string, o: SortOrder)
    requires NumericKey(x, col) && NumericKey(y, col)
  {
    var a, b := Get(Some(x), col), Get(Some(y), col);
    if o == Asc then Nullish(b) || (!Nullish(a) && a.value.n <= b.value.n)
    else Nullish(a) || (!Nullish(b) && a.value.n >= b.value.n)
  }

  /** Two numeric keys the comparator does not put the wrong way round
      are in the page's order. */
  lemma NumericPair(x: Json, y: Json, col: string, o: SortOrder, lc: (string, string) -> int)
    requires NumericKey(x, col) && NumericKey(y, col)
    requires ShopOrder(col, o, lc)(x, y) <= 0
    ensures NumericInOrder(x, y, col, o)
  {
  }

  /** A list sorted by a numeric column is in the page's order. */
  lemma SortedNumericInOrder(r: seq<Json>, col: string, o: SortOrder, lc: (string, string) -> int)
    requires forall i :: 0 <= i < |r| ==> NumericKey(r[i], col)
    requires Sorting.Sorted(ShopOrder(col, o, lc), r)
    ensures forall i, j :: 0 <= i < j < |r| ==> NumericInOrder(r[i], r[j], col, o)
  {
    forall i, j | 0 <= i < j < |r|
      ensures NumericInOrder(r[i], r[j], col, o)
    {
      NumericPair(r[i], r[j], col, o, lc);
    }
  }

  /** On a numeric column the shown list is in that order. */
  lemma NumericColumnOrder(rawShops: Option<seq<Json>>, f: FilterValues, lc: (string, string) -> int)
    requires forall x :: x in rawShops.GetOr([]) ==> NumericKey(x, f.orderBy)
    ensures var r := VisibleShops(rawShops, f, lc);
      && (forall i :: 0 <= i < |r| ==> NumericKey(r[i], f.orderBy))
      && (forall i, j :: 0 <= i < j < |r| ==> NumericInOrder(r[i], r[j], f.orderBy, f.sortedBy))
  {
    var list := ActiveFilter(rawShops.GetOr([]), f.isActive);
    var cmp := ShopOrder(f.orderBy, f.sortedBy, lc);
    forall x | x in list
      ensures NumericKey(x, f.orderBy)
    {
      ActiveFilterKeepsExactly(rawShops.GetOr([]), f.isActive, x);
    }
    NumericOrderIsPreorder(f.orderBy, f.sortedBy, lc, set i | 0 <= i < |list| :: list[i]);
    Sorting.SortSorts(cmp, list);
    Sorting.SortPermutes(cmp, list);
    var r := VisibleShops(rawShops, f, lc);
    assert r == Sorting.Sort(cmp, list);
    forall i | 0 <= i < |r|
      ensures NumericKey(r[i], f.orderBy)
    {
      assert r[i] in multiset(list);
    }
    SortedNumericInOrder(r, f.orderBy, f.sortedBy, lc);
  }


  /** `lc` orders strings: one way or the other consistently, and
      transitively. */
  ghost predicate LocaleOrder(lc: (string, string) -> int)
  {
    && (forall x, y :: lc(x, y) < 0 <==> lc(y, x) > 0)
    && (forall x, y, z :: lc(x, y) <= 0 && lc(y, z) <= 0 ==> lc(x, z) <= 0)
  }

  predicate TextKey(s: Json, col: string)
  {
    var v := Get(Some(s), col);
    Nullish(v) || v.value.JStr?
  }

  lemma TextOrderIsPreorder(col: string, o: SortOrder, lc: (string, string) -> int, s: set<Json>)
    requires LocaleOrder(lc)
    requires forall x :: x in s ==> TextKey(x, col)
    ensures Sorting.TotalPreorderOn(ShopOrder(col, o, lc), s)
  {
  }

  /** On a text column, with a consistent `localeCompare`, the shown list is
      sorted by the page's comparator. */
  lemma TextColumnSorted(rawShops: Option<seq<Json>>, f: FilterValues, lc: (string, string) -> int)
    requires LocaleOrder(lc)
    requires forall x :: x in rawShops.GetOr([]) ==> TextKey(x, f.orderBy)
    ensures Sorting.Sorted(ShopOrder(f.orderBy, f.sortedBy, lc), VisibleShops(rawShops, f, lc))
  {
    var list := ActiveFilter(rawShops.GetOr([]), f.isActive);
    forall x | x in list
      ensures TextKey(x, f.orderBy)
    {
      ActiveFilterKeepsExactly(rawShops.GetOr([]), f.isActive, x);
    }
    TextOrderIsPreorder(f.orderBy, f.sortedBy, lc, set i | 0 <= i < |list| :: list[i]);
    Sorting.SortSorts(ShopOrder(f.orderBy, f.sortedBy, lc), list);
  }
}
