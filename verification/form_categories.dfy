/**
 * Category assignment normalisation (`normalizeProductCategoriesForForm`):
 * the backend sends a product's categories in many shapes, and the product
 * editor wants a list of rows `{categories_id, sous_categories_id[],
 * sub_categories_id[]}`.
 *
 * The source ends with a fallback on `category_ids` / `categories_id`
 * (form-utils.ts:185-198) that no input reaches: after the raw list has been
 * located, it is either empty (and the function returns) or an array (and the
 * array branch returns). The model follows the reachable code only, and
 * `CategoryIdsAreIgnored` states the consequence.
 */
module FormCategories {
  import opened Wrappers
  import opened Js

  /** One category-tree selection. Sub-category ids are whatever `Number()`
      produced; `NaN` survives in one path of the source (a scalar id field). */
  datatype CategoryRow = CategoryRow(categoriesId: JsNumber, sousIds: seq<JsNumber>, subIds: seq<JsNumber>)

  predicate Positive(n: JsNumber)
  {
    n.Int? && n.i > 0
  }

  predicate NoNaN(ns: seq<JsNumber>)
  {
    forall k :: 0 <= k < |ns| ==> ns[k].Int?
  }

  /** The fields of a product-like value; a non-object has none of the fields
      read here. */
  function ProductFields(product: Json): map<string, Json>
  {
    if product.JObj? then product.fields else map[]
  }

  /* ---------------------------------------------------------------- */
  /* Locating the raw category list (form-utils.ts:122-132)           */
  /* ---------------------------------------------------------------- */

  /** The five keys that can carry the category assignment. */
  predicate HasCategoryKey(p: map<string, Json>)
  {
    !Nullish(Field(p, "categories")) || !Nullish(Field(p, "product_categories")) ||
    !Nullish(Field(p, "categories_list")) || !Nullish(Field(p, "category")) ||
    !Nullish(Field(p, "product_category"))
  }

  /** Unwrap a `{data: [...]}` envelope (line 126). */
  function UnwrapData(raw: Option<Json>): Option<Json>
  {
    if raw.Some? && raw.value.JObj? && Get(raw, "data").Some? && Get(raw, "data").value.JArr?
    then Get(raw, "data") else raw
  }

  /** Wrap a non-array, non-null value into a one-element array (lines 127, 130). */
  function AsArray(raw: Option<Json>): Option<Json>
  {
    if !Nullish(raw) && !raw.value.JArr? then Some(JArr([raw.value])) else raw
  }

  /** The category value after unwrapping and wrapping (lines 124-127). */
  function RawList(p: map<string, Json>): Option<Json>
  {
    AsArray(UnwrapData(Coalesce([Field(p, "categories"), Field(p, "product_categories"), Field(p, "categories_list")])))
  }

  /** The singular fallback (line 129). */
  function SingleCategory(p: map<string, Json>): Option<Json>
  {
    Coalesce([Field(p, "category"), Field(p, "product_category")])
  }

  /** Lines 128-132: fall back on the singular field when the list is absent
      or empty; anything but a non-empty array yields no elements. */
  function ElementsOf(raw: Option<Json>, single: Option<Json>): seq<Json>
  {
    var raw2 :=
      if Nullish(raw) || raw == Some(JArr([])) then
        if !Nullish(single) then AsArray(single) else raw
      else raw;
    if raw2.Some? && raw2.value.JArr? then raw2.value.items else []
  }

  /** The elements the row mapping runs over; empty means "return []". */
  function CategoryElements(p: map<string, Json>): seq<Json>
  {
    ElementsOf(RawList(p), SingleCategory(p))
  }

  /* ---------------------------------------------------------------- */
  /* Id list parsing (lines 135-148, 168-173)                         */
  /* ---------------------------------------------------------------- */

  /** Keep the numbers, drop every `NaN`, in order. */
  function DropNaN(ns: seq<JsNumber>): (r: seq<JsNumber>)
    ensures NoNaN(r) && |r| <= |ns|
    ensures forall n :: n in r <==> n in ns && n.Int?
  {
    if |ns| == 0 then []
    else (if ns[0].NaN? then [] else [ns[0]]) + DropNaN(ns[1..])
  }

  /** `Number(s.trim())` of every comma-separated piece. */
  function CsvNumbers(s: string): seq<JsNumber>
  {
    var parts := Split(s, ',');
    seq(|parts|, k requires 0 <= k < |parts| => StringToNumber(Trim(parts[k])))
  }

  /** One element of an id array: an object carrying `id` or
      `sous_category_id` gives that id, anything else is converted whole. */
  function ArrayElementId(x: Json): JsNumber
  {
    var id := Get(Some(x), "id");
    var alt := Get(Some(x), "sous_category_id");
    if x.JObj? && (!Nullish(id) || !Nullish(alt)) then ToNumber(Coalesce([id, alt]))
    else ToNumber(Some(x))
  }

  /** The ids of an id array, `NaN` dropped (line 136-139). */
  function ArrayIds(xs: seq<Json>): (r: seq<JsNumber>)
    ensures NoNaN(r)
  {
    if |xs| == 0 then []
    else
      var n := ArrayElementId(xs[0]);
      (if n.NaN? then [] else [n]) + ArrayIds(xs[1..])
  }

  /** `Number(x)` of every element, `NaN` dropped (line 170). */
  function WholeIds(xs: seq<Json>): (r: seq<JsNumber>)
    ensures NoNaN(r)
  {
    if |xs| == 0 then []
    else
      var n := ToNumber(Some(xs[0]));
      (if n.NaN? then [] else [n]) + WholeIds(xs[1..])
  }

  /** `parseIds` (lines 135-144): an explicit id list, CSV string or scalar id. */
  function ParseIds(v: Option<Json>): seq<JsNumber>
  {
    if Nullish(v) || v == Some(JStr("")) then []
    else
      match v.value
      case JArr(xs) => ArrayIds(xs)
      case JStr(s) => DropNaN(CsvNumbers(s))
      case _ => [ToNumber(v)]
  }

  /** `parseIdsProduct` (lines 168-173): like `ParseIds` but array elements
      are converted whole and a scalar that is `NaN` gives nothing. */
  function ParseProductIds(v: Option<Json>): (r: seq<JsNumber>)
    ensures NoNaN(r)
  {
    if Nullish(v) || v == Some(JStr("")) then []
    else
      match v.value
      case JArr(xs) => WholeIds(xs)
      case JStr(s) => DropNaN(CsvNumbers(s))
      case _ => DropNaN([ToNumber(v)])
  }

  /** The id an element of a relation array stands for (line 147). */
  function RelationElementId(x: Json, altKey: string): JsNumber
  {
    ToNumber(Coalesce([Get(Some(x), "id"), Get(Some(x), altKey), Get(Some(x), "sous_category_id"),
                       Get(Some(x), "sub_category_id"), Some(JNum(0))]))
  }

  /** `extractIdsFromObjects` (lines 145-148): the positive ids of a relation
      array, in order; anything that is not an array gives nothing. */
  function RelationIds(arr: Option<Json>, altKey: string): (r: seq<JsNumber>)
    ensures forall k :: 0 <= k < |r| ==> Positive(r[k])
  {
    if arr.Some? && arr.value.JArr? then PositiveIds(arr.value.items, altKey) else []
  }

  function PositiveIds(xs: seq<Json>, altKey: string): (r: seq<JsNumber>)
    ensures forall k :: 0 <= k < |r| ==> Positive(r[k])
  {
    if |xs| == 0 then []
    else
      var n := RelationElementId(xs[0], altKey);
      (if Positive(n) then [n] else []) + PositiveIds(xs[1..], altKey)
  }

  /* ---------------------------------------------------------------- */
  /* One row per element (lines 149-167)                              */
  /* ---------------------------------------------------------------- */

  /** `c.pivot ?? c`. */
  function PivotOf(c: Json): Json
  {
    var pv := Get(Some(c), "pivot");
    if Nullish(pv) then c else pv.value
  }

  /** The explicit second-level id field, pivot first (line 157). */
  function ExplicitSous(c: Json): Option<Json>
  {
    var pivot := Some(PivotOf(c));
    Coalesce([Get(pivot, "sous_categories_id"), Get(pivot, "sous_category_ids"), Get(pivot, "sous_category_id"),
              Get(Some(c), "sous_categories_id"), Get(Some(c), "sous_category_ids"), Get(Some(c), "sous_category_id")])
  }

  /** The explicit third-level id field, pivot first (line 160). */
  function ExplicitSub(c: Json): Option<Json>
  {
    var pivot := Some(PivotOf(c));
    Coalesce([Get(pivot, "sub_categories_id"), Get(pivot, "sub_category_ids"), Get(pivot, "sub_category_id"),
              Get(Some(c), "sub_categories_id"), Get(Some(c), "sub_category_ids"), Get(Some(c), "sub_category_id")])
  }

  /** The first non-empty list of three candidates, else the last one. */
  function FirstNonEmpty(a: seq<JsNumber>, b: seq<JsNumber>, c: seq<JsNumber>): seq<JsNumber>
  {
    if |a| > 0 then a else if |b| > 0 then b else c
  }

  /** The row an element of the raw list maps to. The category id is taken
      from `pivot.categories_id`, then `categories_id`, then `id`; each id
      list from the explicit field when it parses non-empty, else from the
      element's relation array, else from the pivot's. */
  function RowOf(c: Json): CategoryRow
    requires c != JNull
  {
    var pivot := Some(PivotOf(c));
    var catId := ToNumber(Coalesce([Get(pivot, "categories_id"), Get(Some(c), "categories_id"),
                                    Get(Some(c), "id"), Some(JNum(0))]));
    // `c.sous_categories ?? []`: a null or absent relation is no relation
    var sousFromRelation := RelationIds(Get(Some(c), "sous_categories"), "sous_category_id");
    var subFromRelation := RelationIds(Get(Some(c), "sub_categories"), "sub_category_id");
    var sousFromPivot := RelationIds(Get(pivot, "sous_categories"), "sous_category_id");
    var subFromPivot := RelationIds(Get(pivot, "sub_categories"), "sub_category_id");
    CategoryRow(catId,
                FirstNonEmpty(ParseIds(ExplicitSous(c)), sousFromRelation, sousFromPivot),
                FirstNonEmpty(ParseIds(ExplicitSub(c)), subFromRelation, subFromPivot))
  }

  /** The id-list priority of one row: the explicit field when it parses
      non-empty, otherwise the element's own relation array when it has
      positive ids, otherwise the pivot's relation array. */
  lemma RowOfPriority(c: Json)
    requires c != JNull
    ensures var row := RowOf(c);
      && row.categoriesId == ToNumber(Coalesce([Get(Some(PivotOf(c)), "categories_id"), Get(Some(c), "categories_id"),
                                                Get(Some(c), "id"), Some(JNum(0))]))
      && (|ParseIds(ExplicitSous(c))| > 0 ==> row.sousIds == ParseIds(ExplicitSous(c)))
      && (|ParseIds(ExplicitSous(c))| == 0 && |RelationIds(Get(Some(c), "sous_categories"), "sous_category_id")| > 0 ==>
            row.sousIds == RelationIds(Get(Some(c), "sous_categories"), "sous_category_id"))
      && (|ParseIds(ExplicitSous(c))| == 0 && |RelationIds(Get(Some(c), "sous_categories"), "sous_category_id")| == 0 ==>
            row.sousIds == RelationIds(Get(Some(PivotOf(c)), "sous_categories"), "sous_category_id"))
      && (|ParseIds(ExplicitSub(c))| > 0 ==> row.subIds == ParseIds(ExplicitSub(c)))
      && (|ParseIds(ExplicitSub(c))| == 0 && |RelationIds(Get(Some(c), "sub_categories"), "sub_category_id")| > 0 ==>
            row.subIds == RelationIds(Get(Some(c), "sub_categories"), "sub_category_id"))
      && (|ParseIds(ExplicitSub(c))| == 0 && |RelationIds(Get(Some(c), "sub_categories"), "sub_category_id")| == 0 ==>
            row.subIds == RelationIds(Get(Some(PivotOf(c)), "sub_categories"), "sub_category_id"))
  {
  }

  /** The row of every element, in order. */
  function MapRows(elems: seq<Json>): (rows: seq<CategoryRow>)
    requires JNull !in elems
    ensures |rows| == |elems|
  {
    seq(|elems|, k requires 0 <= k < |elems| => RowOf(elems[k]))
  }

  /** The rows whose category id is positive, in order and without
      de-duplication (line 167). */
  function KeepPositive(rows: seq<CategoryRow>): (r: seq<CategoryRow>)
    ensures |r| <= |rows|
    ensures forall k :: 0 <= k < |r| ==> Positive(r[k].categoriesId)
  {
    if |rows| == 0 then []
    else (if Positive(rows[0].categoriesId) then [rows[0]] else []) + KeepPositive(rows[1..])
  }

  function KeptRows(elems: seq<Json>): seq<CategoryRow>
    requires JNull !in elems
  {
    KeepPositive(MapRows(elems))
  }

  /** Product-level second/third-level ids fill the first row only, and
      only a list that is empty there (lines 174-182). */
  function MergeProductIds(rows: seq<CategoryRow>, productSous: seq<JsNumber>, productSub: seq<JsNumber>)
    : (r: seq<CategoryRow>)
    ensures |r| == |rows|
    ensures forall k :: 0 <= k < |r| ==> r[k].categoriesId == rows[k].categoriesId
    ensures forall k :: 1 <= k < |r| ==> r[k] == rows[k]
    ensures |r| > 0 ==>
              r[0].sousIds == (if |rows[0].sousIds| == 0 && |productSous| > 0 then productSous else rows[0].sousIds) &&
              r[0].subIds == (if |rows[0].subIds| == 0 && |productSub| > 0 then productSub else rows[0].subIds)
  {
    if |rows| == 0 then rows
    else
      var first := rows[0];
      var sous := if |first.sousIds| == 0 && |productSous| > 0 then productSous else first.sousIds;
      var sub := if |first.subIds| == 0 && |productSub| > 0 then productSub else first.subIds;
      [first.(sousIds := sous, subIds := sub)] + rows[1..]
  }

  /** Product-level second-level ids (line 174). */
  function ProductSous(p: map<string, Json>): seq<JsNumber>
  {
    ParseProductIds(Coalesce([Field(p, "sous_categories_id"), Field(p, "sous_category_ids"), Field(p, "sous_category_id")]))
  }

  /** Product-level third-level ids (line 175). */
  function ProductSub(p: map<string, Json>): seq<JsNumber>
  {
    ParseProductIds(Coalesce([Field(p, "sub_categories_id"), Field(p, "sub_category_ids"), Field(p, "sub_category_id")]))
  }

  /** `normalizeProductCategoriesForForm(product)`. A `null` element in the
      raw list makes the source throw (`c.pivot` of null). */
  function Normalize(product: Option<Json>): (r: Result<seq<CategoryRow>>)
    ensures !Truthy(product) ==> r == Ok([])
    ensures Truthy(product) ==>
              (r.TypeError? <==> JNull in CategoryElements(ProductFields(product.value)))
    ensures r.Ok? ==> forall k :: 0 <= k < |r.value| ==> Positive(r.value[k].categoriesId)
    ensures r.Ok? && Truthy(product) ==>
              var kept := KeptRows(CategoryElements(ProductFields(product.value)));
              |r.value| == |kept| &&
              (forall k :: 0 <= k < |kept| ==> r.value[k].categoriesId == kept[k].categoriesId) &&
              (forall k :: 1 <= k < |kept| ==> r.value[k] == kept[k])
  {
    if !Truthy(product) then Ok([]) else NormalizeFields(ProductFields(product.value))
  }

  /** The normalisation of a product object's fields. */
  function NormalizeFields(p: map<string, Json>): Result<seq<CategoryRow>>
  {
    var elems := CategoryElements(p);
    if JNull in elems then TypeError
    else Ok(MergeProductIds(KeptRows(elems), ProductSous(p), ProductSub(p)))
  }

  /* ---------------------------------------------------------------- */
  /* Properties                                                       */
  /* ---------------------------------------------------------------- */

  /** Without any of the five category keys (or when they are all null) the
      result is empty, whatever else the product carries; in particular the
      `category_ids` / `categories_id` fields of lines 185-198 are never used. */
  lemma CategoryIdsAreIgnored(p: map<string, Json>)
    requires !HasCategoryKey(p)
    ensures Normalize(Some(JObj(p))) == Ok([])
  {
    CoalesceIsFirstDefined([Field(p, "categories"), Field(p, "product_categories"), Field(p, "categories_list")]);
    CoalesceIsFirstDefined([Field(p, "category"), Field(p, "product_category")]);
    assert CategoryElements(p) == [];
  }

  /** Keeping the positive rows is a filter: it distributes over
      concatenation, so rows keep the input order and duplicates stay. */
  lemma {:induction false} KeepPositiveAppend(a: seq<CategoryRow>, b: seq<CategoryRow>)
    ensures KeepPositive(a + b) == KeepPositive(a) + KeepPositive(b)
  {
    if |a| == 0 {
      assert a + b == b;
    } else {
      assert (a + b)[1..] == a[1..] + b;
      KeepPositiveAppend(a[1..], b);
    }
  }

  /** A row is kept exactly when its category id is positive. */
  lemma {:induction false} KeepPositiveMembership(rows: seq<CategoryRow>, row: CategoryRow)
    ensures row in KeepPositive(rows) <==> row in rows && Positive(row.categoriesId)
  {
    if |rows| > 0 {
      KeepPositiveMembership(rows[1..], row);
      assert rows == [rows[0]] + rows[1..];
    }
  }

  /** The rows of two lists of elements are the rows of each, in order. */
  lemma KeptRowsAppend(a: seq<Json>, b: seq<Json>)
    requires JNull !in a && JNull !in b
    ensures JNull !in a + b
    ensures KeptRows(a + b) == KeptRows(a) + KeptRows(b)
  {
    assert MapRows(a + b) == MapRows(a) + MapRows(b);
    KeepPositiveAppend(MapRows(a), MapRows(b));
  }

  /** A `{data: [...]}` envelope is read exactly like the bare array. */
  lemma DataEnvelopeIsTransparent(p: map<string, Json>, xs: seq<Json>)
    ensures Normalize(Some(JObj(p["categories" := JObj(map["data" := JArr(xs)])]))) ==
            Normalize(Some(JObj(p["categories" := JArr(xs)])))
  {
    SameListFields(p, JObj(map["data" := JArr(xs)]), JArr(xs));
    SameNormalization(p["categories" := JObj(map["data" := JArr(xs)])], p["categories" := JArr(xs)]);
  }

  /** A single category object is read like a one-element array. */
  lemma SingleObjectIsOneElementArray(p: map<string, Json>, m: map<string, Json>)
    requires !("data" in m && m["data"].JArr?)
    ensures Normalize(Some(JObj(p["categories" := JObj(m)]))) ==
            Normalize(Some(JObj(p["categories" := JArr([JObj(m)])])))
  {
    SameListFields(p, JObj(m), JArr([JObj(m)]));
    SameNormalization(p["categories" := JObj(m)], p["categories" := JArr([JObj(m)])]);
  }

  /** Two products whose `categories` values unwrap to the same array. */
  lemma SameListFields(p: map<string, Json>, v1: Json, v2: Json)
    requires AsArray(UnwrapData(Some(v1))) == AsArray(UnwrapData(Some(v2)))
    ensures RawList(p["categories" := v1]) == RawList(p["categories" := v2])
    ensures SingleCategory(p["categories" := v1]) == SingleCategory(p["categories" := v2])
    ensures ProductSous(p["categories" := v1]) == ProductSous(p["categories" := v2])
    ensures ProductSub(p["categories" := v1]) == ProductSub(p["categories" := v2])
  {
    SameProductIds(p, "categories", v1, v2);
  }

  /** Normalisation reads a product only through these four values. */
  lemma SameNormalization(p1: map<string, Json>, p2: map<string, Json>)
    requires RawList(p1) == RawList(p2) && SingleCategory(p1) == SingleCategory(p2)
    requires ProductSous(p1) == ProductSous(p2) && ProductSub(p1) == ProductSub(p2)
    ensures Normalize(Some(JObj(p1))) == Normalize(Some(JObj(p2)))
  {
    NormalizeObject(p1);
    NormalizeObject(p2);
  }

  /** A product object is normalised through its fields. */
  lemma NormalizeObject(p: map<string, Json>)
    ensures Normalize(Some(JObj(p))) == NormalizeFields(p)
  {
    assert Truthy(Some(JObj(p)));
    assert ProductFields(JObj(p)) == p;
  }

  /** Changing the category list does not touch the product-level ids. */
  lemma SameProductIds(p: map<string, Json>, k: string, v1: Json, v2: Json)
    requires k == "categories"
    ensures ProductSous(p[k := v1]) == ProductSous(p[k := v2])
    ensures ProductSub(p[k := v1]) == ProductSub(p[k := v2])
  {
    assert k != "sous_categories_id" && k != "sous_category_ids" && k != "sous_category_id";
    assert k != "sub_categories_id" && k != "sub_category_ids" && k != "sub_category_id";
  }

  /* ---------------------------------------------------------------- */
  /* Idempotence on the canonical shape                               */
  /* ---------------------------------------------------------------- */

  /** The ids of a list as JSON numbers. */
  function EncodeIds(ns: seq<JsNumber>): seq<Json>
  {
    seq(|ns|, k requires 0 <= k < |ns| => FromNumber(ns[k]))
  }

  /** A row in the shape the form stores and re-sends. */
  function EncodeRow(row: CategoryRow): Json
  {
    JObj(map["categories_id" := FromNumber(row.categoriesId),
             "sous_categories_id" := JArr(EncodeIds(row.sousIds)),
             "sub_categories_id" := JArr(EncodeIds(row.subIds))])
  }

  function EncodeRows(rows: seq<CategoryRow>): seq<Json>
  {
    seq(|rows|, k requires 0 <= k < |rows| => EncodeRow(rows[k]))
  }

  /** Rows that are canonical: a positive category id and no NaN id. */
  predicate Canonical(rows: seq<CategoryRow>)
  {
    forall k :: 0 <= k < |rows| ==>
      Positive(rows[k].categoriesId) && NoNaN(rows[k].sousIds) && NoNaN(rows[k].subIds)
  }

  lemma {:induction false} ParseEncodedIds(ns: seq<JsNumber>)
    requires NoNaN(ns)
    ensures ArrayIds(EncodeIds(ns)) == ns
  {
    var xs := EncodeIds(ns);
    if |ns| > 0 {
      assert ArrayElementId(xs[0]) == ns[0];
      assert EncodeIds(ns[1..]) == xs[1..];
      ParseEncodedIds(ns[1..]);
    }
  }

  lemma EncodedIdList(ns: seq<JsNumber>)
    requires NoNaN(ns)
    ensures ParseIds(Some(JArr(EncodeIds(ns)))) == ns
  {
    ParseEncodedIds(ns);
  }

  lemma RowOfEncoded(row: CategoryRow)
    requires Canonical([row])
    ensures RowOf(EncodeRow(row)) == row
  {
    var c := EncodeRow(row);
    assert [row][0] == row;
    CoalesceIsFirstDefined([Get(Some(PivotOf(c)), "categories_id"), Get(Some(c), "categories_id"),
                            Get(Some(c), "id"), Some(JNum(0))]);
    assert PivotOf(c) == c;
    EncodedIdList(row.sousIds);
    EncodedIdList(row.subIds);
    assert ExplicitSous(c) == Some(JArr(EncodeIds(row.sousIds)));
    assert ExplicitSub(c) == Some(JArr(EncodeIds(row.subIds)));
  }

  lemma MapEncodedRows(rows: seq<CategoryRow>)
    requires Canonical(rows)
    ensures JNull !in EncodeRows(rows)
    ensures MapRows(EncodeRows(rows)) == rows
  {
    var es := EncodeRows(rows);
    forall k | 0 <= k < |rows|
      ensures RowOf(es[k]) == rows[k]
    {
      assert Canonical([rows[k]]);
      RowOfEncoded(rows[k]);
    }
  }

  lemma {:induction false} KeepAllPositive(rows: seq<CategoryRow>)
    requires forall k :: 0 <= k < |rows| ==> Positive(rows[k].categoriesId)
    ensures KeepPositive(rows) == rows
  {
    if |rows| > 0 {
      KeepAllPositive(rows[1..]);
    }
  }

  /** Normalising the form's own output again gives the same rows: a product
      whose `categories` is the list of canonical rows normalises to them. */
  lemma NormalizeIsIdempotent(rows: seq<CategoryRow>)
    requires Canonical(rows)
    ensures Normalize(Some(JObj(map["categories" := JArr(EncodeRows(rows))]))) == Ok(rows)
  {
    var p := map["categories" := JArr(EncodeRows(rows))];
    NormalizeObject(p);
    MapEncodedRows(rows);
    KeepAllPositive(rows);
    OnlyCategoriesField(EncodeRows(rows));
    assert MergeProductIds(rows, [], []) == rows;
  }

  /** A product carrying only a non-empty `categories` array. */
  lemma OnlyCategoriesField(es: seq<Json>)
    ensures ProductSous(map["categories" := JArr(es)]) == []
    ensures ProductSub(map["categories" := JArr(es)]) == []
    ensures CategoryElements(map["categories" := JArr(es)]) == es
  {
    var p := map["categories" := JArr(es)];
    assert RawList(p) == Some(JArr(es));
    CoalesceIsFirstDefined([Field(p, "sous_categories_id"), Field(p, "sous_category_ids"), Field(p, "sous_category_id")]);
    CoalesceIsFirstDefined([Field(p, "sub_categories_id"), Field(p, "sub_category_ids"), Field(p, "sub_category_id")]);
    if |es| == 0 {
      assert Field(p, "category") == None && Field(p, "product_category") == None;
      CoalesceIsFirstDefined([Field(p, "category"), Field(p, "product_category")]);
      assert Nullish(SingleCategory(p));
    }
  }
}
