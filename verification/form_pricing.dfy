/**
 * Price and stock aggregates of a variable product's options
 * (form-utils.ts:84-108): `calculateMinMaxPrice` and `calculateQuantity`.
 *
 * lodash `orderBy(options, ['price'])` is stable and puts options without
 * the key last, so its first element carries the lowest present key and its
 * last element the highest key, or no key at all when some option lacks
 * one. lodash `sum` adds the defined values left to right and returns
 * `undefined` when there is none in a non-empty list.
 */
module FormPricing {
  import opened Wrappers
  import opened Js

  /** A numeric field as the `Variation` type declares it: a number or
      absent. */
  predicate NumOrAbsent(v: Option<Json>)
  {
    v.None? || v.value.JNum?
  }

  /** A variation option whose price, sale price and quantity are numbers
      when present. */
  predicate PricedOption(x: Json)
  {
    x.JObj? && NumOrAbsent(Field(x.fields, "price")) && NumOrAbsent(Field(x.fields, "sale_price")) &&
    NumOrAbsent(Field(x.fields, "quantity"))
  }

  predicate PricedOptions(xs: seq<Json>)
  {
    forall i :: 0 <= i < |xs| ==> PricedOption(xs[i])
  }

  function NumOf(v: Option<Json>): Option<int>
    requires NumOrAbsent(v)
  {
    if v.Some? then Some(v.value.n) else None
  }

  /** The values of one numeric field across the options. */
  function KeyColumn(xs: seq<Json>, k: string): (ks: seq<Option<int>>)
    requires forall i :: 0 <= i < |xs| ==> xs[i].JObj? && NumOrAbsent(Field(xs[i].fields, k))
    ensures |ks| == |xs|
    ensures forall i :: 0 <= i < |xs| ==> ks[i] == NumOf(Field(xs[i].fields, k))
  {
    if |xs| == 0 then [] else [NumOf(Field(xs[0].fields, k))] + KeyColumn(xs[1..], k)
  }

  /** The key of the first element after `orderBy`: the least present key,
      or none when no element has one. */
  function LeastKey(ks: seq<Option<int>>): (r: Option<int>)
    ensures r.None? <==> forall i :: 0 <= i < |ks| ==> ks[i].None?
    ensures r.Some? ==> r in ks && forall i :: 0 <= i < |ks| && ks[i].Some? ==> r.value <= ks[i].value
  {
    if |ks| == 0 then None
    else
      var m := LeastKey(ks[1..]);
      assert forall i :: 1 <= i < |ks| ==> ks[i] == ks[1..][i - 1];
      if ks[0].None? then m
      else if m.None? || ks[0].value <= m.value then ks[0]
      else m
  }

  /** The key of the last element after `orderBy`: the greatest key when
      every element has one, none otherwise. */
  function LastKey(ks: seq<Option<int>>): (r: Option<int>)
    requires |ks| > 0
    ensures r.None? <==> exists i :: 0 <= i < |ks| && ks[i].None?
    ensures r.Some? ==> r in ks && forall i :: 0 <= i < |ks| ==> ks[i].Some? && ks[i].value <= r.value
  {
    if |ks| == 1 then ks[0]
    else
      var m := LastKey(ks[1..]);
      assert forall i :: 1 <= i < |ks| ==> ks[i] == ks[1..][i - 1];
      if ks[0].None? || m.None? then None
      else if ks[0].value <= m.value then m
      else ks[0]
  }

  /** `{min_price, max_price}`; `null` is `Some(JNull)` and `undefined` is
      `None`. */
  datatype MinMax = MinMax(minPrice: Option<Json>, maxPrice: Option<Json>)

  function AsNum(v: Option<int>): Option<Json>
  {
    if v.Some? then Some(JNum(v.value)) else None
  }

  /** The lower bound from the two sorted lists' first keys: the sale key
      wins when it is strictly below the price key (a missing operand makes
      `<` false). */
  function LowBound(prices: seq<Option<int>>, sales: seq<Option<int>>): Option<int>
  {
    var lowPrice := LeastKey(prices);
    var lowSale := LeastKey(sales);
    if lowSale.Some? && lowPrice.Some? && lowSale.value < lowPrice.value then lowSale else lowPrice
  }

  /** `calculateMinMaxPrice(options)`. */
  function CalculateMinMaxPrice(xs: seq<Json>): (r: MinMax)
    requires PricedOptions(xs)
    ensures r == MinMax(Some(JNull), Some(JNull)) <==> |xs| == 0
  {
    if |xs| == 0 then MinMax(Some(JNull), Some(JNull))
    else
      var prices := KeyColumn(xs, "price");
      MinMax(AsNum(LowBound(prices, KeyColumn(xs, "sale_price"))), AsNum(LastKey(prices)))
  }

  /** When every price is present the lower bound is the least of all
      prices and sale prices. */
  lemma LowBoundIsLeast(prices: seq<Option<int>>, sales: seq<Option<int>>)
    requires |prices| > 0 && forall i :: 0 <= i < |prices| ==> prices[i].Some?
    ensures var m := LowBound(prices, sales);
      && m.Some? && (m in prices || m in sales)
      && (forall i :: 0 <= i < |prices| ==> m.value <= prices[i].value)
      && (forall i :: 0 <= i < |sales| && sales[i].Some? ==> m.value <= sales[i].value)
  {
    assert prices[0].Some?;
  }

  predicate AllPriced(xs: seq<Json>)
    requires PricedOptions(xs)
  {
    |xs| > 0 && forall i :: 0 <= i < |xs| ==> Field(xs[i].fields, "price").Some?
  }

  /** With options that all carry a price, `max_price` is the highest
      price. */
  lemma MaxPriceIsHighest(xs: seq<Json>)
    requires PricedOptions(xs) && AllPriced(xs)
    ensures var r := CalculateMinMaxPrice(xs).maxPrice;
      && r.Some? && r.value.JNum?
      && (exists i :: 0 <= i < |xs| && Field(xs[i].fields, "price") == r)
      && (forall i :: 0 <= i < |xs| ==> Field(xs[i].fields, "price").value.n <= r.value.n)
  {
    var prices := KeyColumn(xs, "price");
    var high := LastKey(prices);
    assert prices[0].Some?;
    var j :| 0 <= j < |prices| && prices[j] == high;
    assert Field(xs[j].fields, "price") == AsNum(high);
  }

  /** With options that all carry a price, `min_price` is the lowest of all
      prices and sale prices. */
  lemma MinPriceIsLowest(xs: seq<Json>)
    requires PricedOptions(xs) && AllPriced(xs)
    ensures var r := CalculateMinMaxPrice(xs).minPrice;
      && r.Some? && r.value.JNum?
      && (exists i :: 0 <= i < |xs| && (Field(xs[i].fields, "price") == r || Field(xs[i].fields, "sale_price") == r))
      && (forall i :: 0 <= i < |xs| ==> r.value.n <= Field(xs[i].fields, "price").value.n)
      && (forall i :: 0 <= i < |xs| && Field(xs[i].fields, "sale_price").Some? ==>
            r.value.n <= Field(xs[i].fields, "sale_price").value.n)
  {
    var prices, sales := KeyColumn(xs, "price"), KeyColumn(xs, "sale_price");
    var low := LowBound(prices, sales);
    LowBoundIsLeast(prices, sales);
    if low in prices {
      var k :| 0 <= k < |prices| && prices[k] == low;
      assert Field(xs[k].fields, "price") == AsNum(low);
    } else {
      var k :| 0 <= k < |sales| && sales[k] == low;
      assert Field(xs[k].fields, "sale_price") == AsNum(low);
    }
  }

  /** So `min_price` never exceeds `max_price`. */
  lemma MinNotAboveMax(xs: seq<Json>)
    requires PricedOptions(xs) && AllPriced(xs)
    ensures var r := CalculateMinMaxPrice(xs);
      r.minPrice.Some? && r.minPrice.value.JNum? && r.maxPrice.Some? && r.maxPrice.value.JNum? &&
      r.minPrice.value.n <= r.maxPrice.value.n
  {
    MinPriceIsLowest(xs);
    MaxPriceIsHighest(xs);
    assert Field(xs[0].fields, "price").Some?;
  }

  /** A missing price on any option leaves `max_price` undefined, because
      `orderBy` puts that option last. */
  lemma MissingPriceHidesMax(xs: seq<Json>, i: nat)
    requires PricedOptions(xs) && i < |xs| && Field(xs[i].fields, "price").None?
    ensures CalculateMinMaxPrice(xs).maxPrice == None
  {
    assert KeyColumn(xs, "price")[i].None?;
  }

  /* ---------------------------------------------------------------- */
  /* Quantity                                                         */
  /* ---------------------------------------------------------------- */

  /** lodash `baseSum`, left to right: start from `undefined`, and add each
      defined value, the first one replacing `undefined`. */
  function BaseSum(qs: seq<Option<int>>): Option<int>
  {
    if |qs| == 0 then None
    else
      var acc := BaseSum(qs[..|qs| - 1]);
      var q := qs[|qs| - 1];
      if q.None? then acc else if acc.None? then q else Some(acc.value + q.value)
  }

  /** lodash `sum`: `0` for an empty list. */
  function Sum(qs: seq<Option<int>>): Option<int>
  {
    if |qs| == 0 then Some(0) else BaseSum(qs)
  }

  /** The reference total: missing quantities count as zero. */
  function Total(qs: seq<Option<int>>): int
  {
    if |qs| == 0 then 0 else Total(qs[..|qs| - 1]) + qs[|qs| - 1].GetOr(0)
  }

  /** `calculateQuantity(options)`. */
  function CalculateQuantity(xs: seq<Json>): Option<int>
    requires PricedOptions(xs)
  {
    Sum(KeyColumn(xs, "quantity"))
  }

  lemma {:induction false} BaseSumIsTotal(qs: seq<Option<int>>)
    ensures BaseSum(qs).None? <==> forall i :: 0 <= i < |qs| ==> qs[i].None?
    ensures BaseSum(qs).Some? ==> BaseSum(qs).value == Total(qs)
    ensures BaseSum(qs).None? ==> Total(qs) == 0
  {
    if |qs| > 0 {
      var p := qs[..|qs| - 1];
      BaseSumIsTotal(p);
      assert forall i :: 0 <= i < |p| ==> p[i] == qs[i];
    }
  }

  /** The quantity is the sum of the option quantities with missing ones
      counted as zero; it is `undefined` only for a non-empty list in which
      no option has a quantity. */
  lemma QuantityIsTotal(xs: seq<Json>)
    requires PricedOptions(xs)
    ensures var qs := KeyColumn(xs, "quantity");
      && (CalculateQuantity(xs).None? <==> |xs| > 0 && forall i :: 0 <= i < |xs| ==> Field(xs[i].fields, "quantity").None?)
      && (CalculateQuantity(xs).Some? ==> CalculateQuantity(xs).value == Total(qs))
  {
    BaseSumIsTotal(KeyColumn(xs, "quantity"));
  }
}
