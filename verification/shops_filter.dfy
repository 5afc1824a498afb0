/**
 * The shops advanced filter (shops-advanced-filter.tsx): the filter values,
 * the status select's string encoding, the selected option of each select
 * and the four `onChange` handlers.
 *
 * `SortOrder` is assumed to be the string enum `Desc = 'desc'`,
 * `Asc = 'asc'`; only its two cases matter here.
 */
module ShopsFilter {
  import opened Wrappers

  datatype SortOrder = Asc | Desc

  /** `isActive?: boolean | null`. */
  datatype Status = Undefined | Null | Is(b: bool)

  /** `ShopsFilterValues`. */
  datatype FilterValues = FilterValues(isActive: Status, orderBy: string, sortedBy: SortOrder, limit: int)

  const STATUS_OPTIONS: seq<string> := ["", "true", "false"]
  const SORT_OPTIONS: seq<string> := ["name", "created_at", "products_count", "orders_count", "is_active"]
  const ORDER_OPTIONS: seq<SortOrder> := [Desc, Asc]
  const PER_PAGE_OPTIONS: seq<int> := [10, 25, 50]

  /** `statusValue`: the status as the select's option value. */
  function StatusValue(s: Status): (r: string)
    ensures r in STATUS_OPTIONS
    ensures r == "" <==> !s.Is?
  {
    match s
    case Undefined => ""
    case Null => ""
    case Is(b) => if b then "true" else "false"
  }

  /** The status the select's `onChange` stores for the chosen option;
      a cleared select (`null`) reads as `false`. */
  function DecodeStatus(opt: Option<string>): (r: Status)
    ensures r != Null
  {
    if opt == Some("") then Undefined else Is(opt == Some("true"))
  }

  /** Decoding the encoded status gives it back, except that `null` comes
      back as `undefined`; anything but '' and 'true' decodes to `false`. */
  lemma StatusRoundTrip(s: Status, other: string)
    requires other != "" && other != "true"
    ensures s != Null ==> DecodeStatus(Some(StatusValue(s))) == s
    ensures DecodeStatus(Some(StatusValue(Null))) == Undefined
    ensures DecodeStatus(Some(other)) == Is(false) && DecodeStatus(None) == Is(false)
  {
  }

  /** `options.find((o) => o.value === v) ?? options[0]`. */
  function FindOrFirst<T(==)>(options: seq<T>, v: T): (r: T)
    requires |options| > 0
    ensures r in options
    ensures v in options ==> r == v
    ensures v !in options ==> r == options[0]
  {
    if v in options then v else options[0]
  }

  /** The option each select shows: the status option always exists; the
      others fall back to the first option when the value matches none. */
  function SelectedStatus(v: FilterValues): (r: Option<string>)
    ensures r == Some(StatusValue(v.isActive))
  {
    if StatusValue(v.isActive) in STATUS_OPTIONS then Some(StatusValue(v.isActive)) else None
  }

  function SelectedSort(v: FilterValues): string
  {
    FindOrFirst(SORT_OPTIONS, v.orderBy)
  }

  function SelectedOrder(v: FilterValues): SortOrder
  {
    FindOrFirst(ORDER_OPTIONS, v.sortedBy)
  }

  function SelectedPerPage(v: FilterValues): int
  {
    FindOrFirst(PER_PAGE_OPTIONS, v.limit)
  }

  /** An unknown sort column or page size shows the first option, while
      the order select always shows the current order. */
  lemma SelectedFallbacks(v: FilterValues)
    ensures v.orderBy !in SORT_OPTIONS ==> SelectedSort(v) == "name"
    ensures v.orderBy in SORT_OPTIONS ==> SelectedSort(v) == v.orderBy
    ensures SelectedOrder(v) == v.sortedBy
    ensures v.limit !in PER_PAGE_OPTIONS ==> SelectedPerPage(v) == 10
    ensures v.limit in PER_PAGE_OPTIONS ==> SelectedPerPage(v) == v.limit
  {
  }

  /* ---------------------------------------------------------------- */
  /* onChange handlers; `None` means `onChange` is not called          */
  /* ---------------------------------------------------------------- */

  function OnStatusChange(v: FilterValues, opt: Option<string>): (r: FilterValues)
    ensures r.isActive == DecodeStatus(opt)
  {
    v.(isActive := DecodeStatus(opt))
  }

  function OnSortChange(v: FilterValues, opt: Option<string>): (r: Option<FilterValues>)
    ensures r.Some? <==> opt.Some?
  {
    if opt.Some? then Some(v.(orderBy := opt.value)) else None
  }

  function OnOrderChange(v: FilterValues, opt: Option<SortOrder>): (r: Option<FilterValues>)
    ensures r.Some? <==> opt.Some?
  {
    if opt.Some? then Some(v.(sortedBy := opt.value)) else None
  }

  function OnLimitChange(v: FilterValues, opt: Option<int>): (r: Option<FilterValues>)
    ensures r.Some? <==> opt.Some?
  {
    if opt.Some? then Some(v.(limit := opt.value)) else None
  }

  /** Each handler replaces its own field with the chosen value and leaves
      the other three as they were. */
  lemma OnChangeReplacesOneField(v: FilterValues, s: Option<string>, col: string, o: SortOrder, n: int)
    ensures var r := OnStatusChange(v, s);
      r.orderBy == v.orderBy && r.sortedBy == v.sortedBy && r.limit == v.limit
    ensures var r := OnSortChange(v, Some(col)).value;
      r.orderBy == col && r.isActive == v.isActive && r.sortedBy == v.sortedBy && r.limit == v.limit
    ensures var r := OnOrderChange(v, Some(o)).value;
      r.sortedBy == o && r.isActive == v.isActive && r.orderBy == v.orderBy && r.limit == v.limit
    ensures var r := OnLimitChange(v, Some(n)).value;
      r.limit == n && r.isActive == v.isActive && r.orderBy == v.orderBy && r.sortedBy == v.sortedBy
  {
  }
}
