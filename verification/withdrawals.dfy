/**
 * The withdrawals page's filter logic (pages/withdrawals/withdrawals.tsx):
 * the query `buildQuery` sends, the status toggle and the page jump.
 *
 * The query is the list of `URLSearchParams` entries in insertion order;
 * its percent-encoding by `toString` is not modelled.
 */
module Withdrawals {
  import opened Wrappers
  import opened Js

  datatype WithdrawalStatus = Pending | Approved | Rejected

  function StatusName(s: WithdrawalStatus): string
  {
    match s
    case Pending => "pending"
    case Approved => "approved"
    case Rejected => "rejected"
  }

  lemma NameHasNoComma(s: WithdrawalStatus)
    ensures ',' !in StatusName(s)
  {
    match s
    case Pending => assert StatusName(s) == ['p', 'e', 'n', 'd', 'i', 'n', 'g'];
    case Approved => assert StatusName(s) == ['a', 'p', 'p', 'r', 'o', 'v', 'e', 'd'];
    case Rejected => assert StatusName(s) == ['r', 'e', 'j', 'e', 'c', 't', 'e', 'd'];
  }

  /** The page's filter and paging state. */
  datatype Filters = Filters(
    page: int, limit: int, search: string, statusFilters: seq<WithdrawalStatus>,
    day: string, month: string, year: string, from: string, to: string,
    minAmount: string, maxAmount: string, totalPages: int)

  const INITIAL: Filters := Filters(1, 10, "", [Pending], "", "", "", "", "", "", "", 1)

  type Query = seq<(string, string)>

  /** `URLSearchParams.get`: the first value set for a key. */
  function Lookup(q: Query, k: string): Option<string>
  {
    if |q| == 0 then None
    else if q[0].0 == k then Some(q[0].1)
    else Lookup(q[1..], k)
  }

  /** A parameter `buildQuery` may append: whether it does, its key and its
      value. */
  datatype Candidate = Candidate(sent: bool, key: string, value: string)

  /** The appended entries, in order. */
  function Sent(cs: seq<Candidate>): (q: Query)
    ensures |q| <= |cs|
  {
    if |cs| == 0 then []
    else (if cs[0].sent then [(cs[0].key, cs[0].value)] else []) + Sent(cs[1..])
  }

  function StatusNames(ss: seq<WithdrawalStatus>): (r: seq<string>)
    ensures |r| == |ss|
    ensures forall i :: 0 <= i < |ss| ==> r[i] == StatusName(ss[i])
  {
    if |ss| == 0 then [] else [StatusName(ss[0])] + StatusNames(ss[1..])
  }

  /** Every parameter `buildQuery` considers, in the order it appends them. */
  function Candidates(f: Filters): seq<Candidate>
  {
    [ Candidate(true, "page", IntToString(f.page)),
      Candidate(true, "limit", IntToString(f.limit)),
      Candidate(Trim(f.search) != "", "search", Trim(f.search)),
      Candidate(|f.statusFilters| > 0, "status", Join(StatusNames(f.statusFilters), ",")),
      Candidate(f.day != "" && f.month != "" && f.year != "", "day", f.day),
      Candidate(f.month != "" && f.year != "", "month", f.month),
      Candidate(f.year != "", "year", f.year),
      Candidate(f.from != "", "from", f.from),
      Candidate(f.to != "", "to", f.to),
      Candidate(f.minAmount != "", "min_amount", f.minAmount),
      Candidate(f.maxAmount != "", "max_amount", f.maxAmount) ]
  }

  /** `buildQuery()`. */
  function BuildQuery(f: Filters): Query
  {
    Sent(Candidates(f))
  }

  /** The value of a key among candidates with distinct keys is the value
      of its candidate when that one is sent. */
  lemma {:induction false} LookupSent(cs: seq<Candidate>, i: nat)
    requires i < |cs|
    requires forall a, b :: 0 <= a < b < |cs| ==> cs[a].key != cs[b].key
    ensures Lookup(Sent(cs), cs[i].key) == if cs[i].sent then Some(cs[i].value) else None
  {
    var k := cs[i].key;
    SentStep(cs);
    if i == 0 {
      if !cs[0].sent {
        LookupAbsent(cs[1..], k);
      }
    } else {
      LookupSent(cs[1..], i - 1);
      assert cs[1..][i - 1] == cs[i];
    }
  }

  /** Looking up past the first candidate. */
  lemma SentStep(cs: seq<Candidate>)
    requires |cs| > 0
    ensures forall k :: (Lookup(Sent(cs), k) ==
      if cs[0].sent && cs[0].key == k then Some(cs[0].value) else Lookup(Sent(cs[1..]), k))
  {
    var q := Sent(cs);
    if cs[0].sent {
      assert q[0] == (cs[0].key, cs[0].value) && q[1..] == Sent(cs[1..]);
    } else {
      assert q == Sent(cs[1..]);
    }
  }

  lemma {:induction false} LookupAbsent(cs: seq<Candidate>, k: string)
    requires forall a :: 0 <= a < |cs| ==> cs[a].key != k
    ensures Lookup(Sent(cs), k) == None
  {
    if |cs| > 0 {
      SentStep(cs);
      LookupAbsent(cs[1..], k);
    }
  }

  /** Each parameter is sent exactly under its own condition: `page` and
      `limit` always, the others when their filter is set. */
  lemma BuildQueryParts(f: Filters, i: nat)
    requires i < 11
    ensures Lookup(BuildQuery(f), Candidates(f)[i].key) ==
      if Candidates(f)[i].sent then Some(Candidates(f)[i].value) else None
  {
    LookupSent(Candidates(f), i);
  }

  /** The date parts form a chain: a day is only sent with its month and
      year, a month only with its year. */
  lemma DatePartsChain(f: Filters)
    ensures Lookup(BuildQuery(f), "day").Some? ==> Lookup(BuildQuery(f), "month").Some? && Lookup(BuildQuery(f), "year").Some?
    ensures Lookup(BuildQuery(f), "month").Some? ==> Lookup(BuildQuery(f), "year").Some?
    ensures Lookup(BuildQuery(f), "year").Some? <==> f.year != ""
  {
    BuildQueryParts(f, 4);
    BuildQueryParts(f, 5);
    BuildQueryParts(f, 6);
  }

  /** The status parameter, split at its commas as the backend reads it,
      gives back the selected statuses in selection order. */
  lemma StatusParameterRoundTrip(f: Filters)
    requires |f.statusFilters| > 0
    ensures Lookup(BuildQuery(f), "status").Some?
    ensures Split(Lookup(BuildQuery(f), "status").value, ',') == StatusNames(f.statusFilters)
  {
    BuildQueryParts(f, 3);
    var names := StatusNames(f.statusFilters);
    forall i | 0 <= i < |names|
      ensures ',' !in names[i]
    {
      NameHasNoComma(f.statusFilters[i]);
    }
    SplitJoin(names, ',');
  }

  /** `toggleStatus(s)`: remove a selected status, append an unselected
      one, and go back to page 1. */
  function ToggleStatus(f: Filters, s: WithdrawalStatus): (r: Filters)
    ensures r.page == 1
    ensures s in r.statusFilters <==> s !in f.statusFilters
    ensures forall t :: t != s ==> (t in r.statusFilters <==> t in f.statusFilters)
    ensures r.(page := f.page, statusFilters := f.statusFilters) == f
  {
    if s in f.statusFilters then f.(page := 1, statusFilters := Without(f.statusFilters, s))
    else f.(page := 1, statusFilters := f.statusFilters + [s])
  }

  /** `prev.filter((x) => x !== s)`. */
  function Without(ss: seq<WithdrawalStatus>, s: WithdrawalStatus): (r: seq<WithdrawalStatus>)
    ensures forall t :: t in r <==> t in ss && t != s
  {
    if |ss| == 0 then [] else (if ss[0] == s then [] else [ss[0]]) + Without(ss[1..], s)
  }

  lemma {:induction false} WithoutAbsentAppended(ss: seq<WithdrawalStatus>, s: WithdrawalStatus)
    requires s !in ss
    ensures Without(ss + [s], s) == ss
  {
    if |ss| == 0 {
      assert ss + [s] == [s];
    } else {
      assert (ss + [s])[1..] == ss[1..] + [s];
      WithoutAbsentAppended(ss[1..], s);
    }
  }

  /** Toggling a status twice restores the selection as a set, and exactly
      when it was not selected. */
  lemma ToggleTwice(f: Filters, s: WithdrawalStatus)
    ensures forall t :: t in ToggleStatus(ToggleStatus(f, s), s).statusFilters <==> t in f.statusFilters
    ensures s !in f.statusFilters ==> ToggleStatus(ToggleStatus(f, s), s) == f.(page := 1)
  {
    if s !in f.statusFilters {
      WithoutAbsentAppended(f.statusFilters, s);
    }
  }

  /** `handleJump`: the page becomes the entered number when it is one
      of the existing pages, and stays otherwise. */
  function HandleJump(f: Filters, jump: Option<Json>): (r: Filters)
    ensures r.page != f.page ==> 1 <= r.page <= f.totalPages
    ensures r.(page := f.page) == f
  {
    var n := ToNumber(jump);
    if n.Int? && 1 <= n.i <= f.totalPages then f.(page := n.i) else f
  }

  /** A jump to a page number in range always lands there; an empty field,
      a page out of range or a non-number leave the page alone. */
  lemma JumpCases(f: Filters, n: int)
    ensures 1 <= n <= f.totalPages ==> HandleJump(f, Some(JNum(n))).page == n
    ensures 1 <= n <= f.totalPages ==> HandleJump(f, Some(JStr(IntToString(n)))).page == n
    ensures !(1 <= n <= f.totalPages) ==> HandleJump(f, Some(JNum(n))) == f
    ensures HandleJump(f, Some(JStr(""))) == f && HandleJump(f, None) == f
  {
    IntToStringRoundTrip(n);
  }
}
